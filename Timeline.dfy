/** The per-card annotations the itinerary list computes while rendering
    (the `itinerary.map` body of components/Timeline.tsx): the gap to the
    previous activity, progress, duration, and distance and bearing to the
    user. The great-circle distance and the bearing are floating-point
    trigonometry; they enter as parameters. */
module Timeline {
  import opened Types
  import opened Schedule

  /** `getDistance` / `getBearing`: (lat1, lng1, lat2, lng2) to a number. */
  type Geodesic = (real, real, real, real) -> real

  /** What one card of the list shows. */
  datatype ItemView = ItemView(
    gap: int,                 // minutes since the previous activity ended; 0 for the first
    gapChip: Option<string>,  // the "traslado / espera" chip before the card
    progress: real,           // width of the progress bar, in percent
    barFinished: bool,        // the bar turns grey at 100
    duration: string,         // the duration badge
    distance: Option<real>,   // metres from the user, null without a position
    bearing: real,            // rotation of the direction arrow, in degrees
    distanceChip: bool)       // whether the distance chip is shown

  /** The card for `itinerary[idx]`. */
  function CardAt(itinerary: seq<Activity>, idx: nat, user: Option<UserLocation>, nowMinutes: int,
                  distance: Geodesic, bearing: Geodesic): (v: ItemView)
    requires idx < |itinerary|
    ensures idx == 0 ==> v.gap == 0 && v.gapChip.None?
    ensures v.gapChip.Some? <==> v.gap > 0
    ensures v.distance.None? <==> user.None?
    ensures v.distanceChip <==> v.distance.Some? && !itinerary[idx].completed
    ensures 0.0 <= v.progress <= 100.0 && (v.barFinished <==> v.progress == 100.0)
    ensures itinerary[idx].startTime.Valid() && itinerary[idx].endTime.Valid() ==> |v.duration| > 0
  {
    var act := itinerary[idx];
    var gap := if idx > 0 then CalculateGap(itinerary[idx - 1].endTime, act.startTime) else 0;
    var dist := if user.Some? then Some(distance(user.value.lat, user.value.lng, act.coords.lat, act.coords.lng)) else None;
    var brg := if user.Some? then bearing(user.value.lat, user.value.lng, act.coords.lat, act.coords.lng) else 0.0;
    var progress := CalculateTimeProgress(act.startTime, act.endTime, nowMinutes);
    ItemView(
      gap,
      if gap > 0 then Some(FormatGap(gap) + " traslado / espera") else None,
      progress,
      progress == 100.0,
      CalculateDuration(act.startTime, act.endTime),
      dist,
      brg,
      dist.Some? && !act.completed)
  }

  /** The whole list, one card per activity in itinerary order. */
  function Render(itinerary: seq<Activity>, user: Option<UserLocation>, nowMinutes: int,
                  distance: Geodesic, bearing: Geodesic): (views: seq<ItemView>)
    ensures |views| == |itinerary|
    ensures |views| > 0 ==> views[0].gap == 0
    ensures forall i :: 0 < i < |views| ==>
              views[i].gap == CalculateGap(itinerary[i - 1].endTime, itinerary[i].startTime)
    ensures forall i :: 0 <= i < |views| ==>
              && (views[i].gapChip.Some? <==> views[i].gap > 0)
              && (views[i].gapChip.Some? ==> views[i].gapChip.value == FormatGap(views[i].gap) + " traslado / espera")
              && (views[i].distance.None? <==> user.None?)
              && (user.None? ==> views[i].bearing == 0.0)
              && (views[i].distanceChip <==> views[i].distance.Some? && !itinerary[i].completed)
              && 0.0 <= views[i].progress <= 100.0
              && views[i].progress == CalculateTimeProgress(itinerary[i].startTime, itinerary[i].endTime, nowMinutes)
              && views[i].duration == CalculateDuration(itinerary[i].startTime, itinerary[i].endTime)
  {
    seq(|itinerary|, i requires 0 <= i < |itinerary| => CardAt(itinerary, i, user, nowMinutes, distance, bearing))
  }

  /** On an itinerary of real times of day every gap lies within a day, and the
      gap chip is missing exactly between back-to-back activities. */
  lemma GapChipIffNotBackToBack(itinerary: seq<Activity>, user: Option<UserLocation>, nowMinutes: int,
                                distance: Geodesic, bearing: Geodesic, i: nat)
    requires forall k :: 0 <= k < |itinerary| ==> itinerary[k].startTime.Valid() && itinerary[k].endTime.Valid()
    requires 0 < i < |itinerary|
    ensures 0 <= Render(itinerary, user, nowMinutes, distance, bearing)[i].gap < MinutesPerDay
    ensures (Render(itinerary, user, nowMinutes, distance, bearing)[i].gapChip.None?
             <==> itinerary[i - 1].endTime == itinerary[i].startTime)
  {
    GapZeroIffBackToBack(itinerary[i - 1].endTime, itinerary[i].startTime);
  }

  /** The schedule annotations of a card do not depend on the user's position
      or on the completion flags: only distance, bearing and the distance chip do. */
  lemma ScheduleIndependentOfPositionAndCompletion(
    it1: seq<Activity>, it2: seq<Activity>, u1: Option<UserLocation>, u2: Option<UserLocation>,
    nowMinutes: int, distance: Geodesic, bearing: Geodesic, i: nat)
    requires |it1| == |it2| && i < |it1|
    requires forall k :: 0 <= k < |it1| ==> it1[k].startTime == it2[k].startTime && it1[k].endTime == it2[k].endTime
    ensures var v1, v2 := Render(it1, u1, nowMinutes, distance, bearing)[i], Render(it2, u2, nowMinutes, distance, bearing)[i];
            v1.gap == v2.gap && v1.gapChip == v2.gapChip && v1.progress == v2.progress
            && v1.barFinished == v2.barFinished && v1.duration == v2.duration
  {
  }

  function Act(id: string, start: Clock, end: Clock): Activity
  {
    Activity(id, "", start, end, "", Coords(0.0, 0.0), "", "", 0.0, Sightseeing, false, None, None, None)
  }

  /** Two back-to-back activities, 09:00-10:00 and 10:00-11:00, seen at 10:30:
      the first has finished, the second is half done, and no gap chip shows. */
  lemma BackToBackAtHalfPast(user: Option<UserLocation>, distance: Geodesic, bearing: Geodesic)
    ensures var views := Render([Act("a", Clock(9, 0), Clock(10, 0)), Act("b", Clock(10, 0), Clock(11, 0))],
                                user, 10 * 60 + 30, distance, bearing);
            && views[0].progress == 100.0 && views[0].barFinished
            && views[1].progress == 50.0 && !views[1].barFinished
            && views[1].gap == 0 && views[1].gapChip.None?
            && views[0].duration == "1h" && views[1].duration == "1h"
  {
    var views := Render([Act("a", Clock(9, 0), Clock(10, 0)), Act("b", Clock(10, 0), Clock(11, 0))],
                        user, 10 * 60 + 30, distance, bearing);
    assert views[1].progress * 60.0 == 30.0 * 100.0;
  }
}
