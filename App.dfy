/** The top-level screen of App.tsx: the completion toggle, the boarding
    countdown, and the state the handlers update (itinerary, active tab, map
    focus, audio guide, full-screen image, position, countdown text). The
    handlers are described once as a pure transition function `Step` on a
    snapshot of that state; the class `AppState` holds the fields and each of
    its methods performs one handler. */
module App {
  import opened Types
  import opened Decimal
  import Guide

  // ---------------------------------------------------------------------
  // Completion toggle

  /** `itinerary.map(a => a.id === id ? {...a, completed: !a.completed} : a)`. */
  function ToggleCompleted(itinerary: seq<Activity>, id: string): (r: seq<Activity>)
    ensures |r| == |itinerary|
    ensures forall i :: 0 <= i < |r| ==>
              && r[i].id == itinerary[i].id
              && r[i].completed == (itinerary[i].completed != (itinerary[i].id == id))
              && r[i].(completed := itinerary[i].completed) == itinerary[i]
  {
    if itinerary == [] then []
    else
      var a := itinerary[0];
      [if a.id == id then a.(completed := !a.completed) else a] + ToggleCompleted(itinerary[1..], id)
  }

  /** Toggling the same activity twice restores the itinerary. */
  lemma ToggleTwiceRestores(itinerary: seq<Activity>, id: string)
    ensures ToggleCompleted(ToggleCompleted(itinerary, id), id) == itinerary
  {
    var r := ToggleCompleted(ToggleCompleted(itinerary, id), id);
    forall i | 0 <= i < |itinerary| ensures r[i] == itinerary[i] {
      var once := ToggleCompleted(itinerary, id);
      assert once[i].(completed := itinerary[i].completed) == itinerary[i];
      assert r[i].(completed := once[i].completed) == once[i];
    }
  }

  /** Toggling an id no activity carries changes nothing. */
  lemma ToggleUnknownIdIsIdentity(itinerary: seq<Activity>, id: string)
    requires forall i :: 0 <= i < |itinerary| ==> itinerary[i].id != id
    ensures ToggleCompleted(itinerary, id) == itinerary
  {
    var r := ToggleCompleted(itinerary, id);
    forall i | 0 <= i < |itinerary| ensures r[i] == itinerary[i] {
      assert r[i].(completed := itinerary[i].completed) == itinerary[i];
    }
  }

  /** Toggles of two activities can be applied in either order. */
  lemma TogglesCommute(itinerary: seq<Activity>, id1: string, id2: string)
    ensures ToggleCompleted(ToggleCompleted(itinerary, id1), id2)
         == ToggleCompleted(ToggleCompleted(itinerary, id2), id1)
  {
    var r1 := ToggleCompleted(ToggleCompleted(itinerary, id1), id2);
    var r2 := ToggleCompleted(ToggleCompleted(itinerary, id2), id1);
    forall i | 0 <= i < |itinerary| ensures r1[i] == r2[i] {
      var a, b := ToggleCompleted(itinerary, id1), ToggleCompleted(itinerary, id2);
      assert a[i].(completed := itinerary[i].completed) == itinerary[i];
      assert b[i].(completed := itinerary[i].completed) == itinerary[i];
      assert r1[i].(completed := a[i].completed) == a[i];
      assert r2[i].(completed := b[i].completed) == b[i];
    }
  }

  // ---------------------------------------------------------------------
  // Boarding countdown

  const Boarded := "¡A BORDO!"
  const CountdownPlaceholder := "--h --m --s"

  const MsPerHour := 3600000
  const MsPerMinute := 60000
  const MsPerSecond := 1000

  datatype Hms = Hms(hr: nat, mn: nat, sc: nat)

  /** `hr`, `mn` and `sc` of the interval callback. The difference is positive
      here, where `Math.floor` and `%` agree with Dafny's `/` and `%`. */
  function CountdownParts(diffMs: int): (t: Hms)
    requires diffMs > 0
    ensures t.mn < 60 && t.sc < 60
    ensures t.hr * MsPerHour + t.mn * MsPerMinute + t.sc * MsPerSecond <= diffMs
    ensures diffMs < t.hr * MsPerHour + t.mn * MsPerMinute + t.sc * MsPerSecond + MsPerSecond
  {
    var hr := diffMs / MsPerHour;
    var mn := (diffMs % MsPerHour) / MsPerMinute;
    var sc := (diffMs % MsPerMinute) / MsPerSecond;
    ModOfMod(diffMs);
    Hms(hr, mn, sc)
  }

  /** `diff % 60000` is the remainder of `diff % 3600000` by 60000. */
  lemma ModOfMod(d: int)
    requires d > 0
    ensures d % MsPerMinute == (d % MsPerHour) % MsPerMinute
  {
    var q, r := d / MsPerHour, d % MsPerHour;
    var q2, r2 := r / MsPerMinute, r % MsPerMinute;
    assert d == MsPerMinute * (60 * q + q2) + r2;
  }

  /** Whole-division facts with a literal divisor. */
  lemma DivBy1000(d: int, q: int)
    requires q * 1000 <= d < q * 1000 + 1000
    ensures d / 1000 == q
  {
  }

  lemma DivMod3600(s: int, q: int, r: int)
    requires 0 <= r < 3600 && s == q * 3600 + r
    ensures s / 3600 == q && s % 3600 == r
  {
  }

  lemma DivMod60(s: int, q: int, r: int)
    requires 0 <= r < 60 && s == q * 60 + r
    ensures s / 60 == q && s % 60 == r
  {
  }

  /** Parts within those bounds are the hours, minutes and seconds of the
      whole seconds in `d`. */
  lemma PartsOfSeconds(d: int, hr: nat, mn: nat, sc: nat)
    requires mn < 60 && sc < 60
    requires hr * 3600000 + mn * 60000 + sc * 1000 <= d < hr * 3600000 + mn * 60000 + sc * 1000 + 1000
    ensures var s := d / 1000; hr == s / 3600 && mn == (s % 3600) / 60 && sc == s % 60
  {
    WholeSeconds(d, hr, mn, sc);
    HmsOfSeconds(d / 1000, hr, mn, sc);
  }

  lemma WholeSeconds(d: int, hr: nat, mn: nat, sc: nat)
    requires hr * 3600000 + mn * 60000 + sc * 1000 <= d < hr * 3600000 + mn * 60000 + sc * 1000 + 1000
    ensures d / 1000 == hr * 3600 + mn * 60 + sc
  {
    DivBy1000(d, hr * 3600 + mn * 60 + sc);
  }

  lemma HmsOfSeconds(s: int, hr: nat, mn: nat, sc: nat)
    requires mn < 60 && sc < 60 && s == hr * 3600 + mn * 60 + sc
    ensures hr == s / 3600 && mn == (s % 3600) / 60 && sc == s % 60
  {
    var rest := mn * 60 + sc;
    assert mn * 60 <= 59 * 60;
    assert 0 <= rest < 3600;
    DivMod3600(s, hr, rest);
    assert s % 3600 == rest;
    DivMod60(rest, mn, sc);
    DivMod60(s, hr * 60 + mn, sc);
  }

  /** The three parts are those of the whole seconds left. */
  lemma CountdownPartsOfSeconds(diffMs: int)
    requires diffMs > 0
    ensures var s := diffMs / MsPerSecond;
            CountdownParts(diffMs) == Hms(s / 3600, (s % 3600) / 60, s % 60)
  {
    var t := CountdownParts(diffMs);
    PartsOfSeconds(diffMs, t.hr, t.mn, t.sc);
  }

  /** "HHh MMm SSs": it starts with a digit and ends in 's', and is eleven
      characters long while every part is below 100. */
  function HmsText(t: Hms): (text: string)
    ensures |text| >= 11 && IsDigit(text[0]) && text[|text| - 1] == 's'
    ensures t.hr < 100 && t.mn < 100 && t.sc < 100 ==> |text| == 11
  {
    Pad2(t.hr) + ("h " + (Pad2(t.mn) + ("m " + (Pad2(t.sc) + "s"))))
  }

  /** The text the interval callback sets: "¡A BORDO!" exactly once boarding
      time has come, "HHh MMm SSs" with each part padded to two digits before;
      under 100 hours ahead that text is eleven characters long. */
  function CountdownText(diffMs: int): (text: string)
    ensures text == Boarded <==> diffMs <= 0
    ensures 0 < diffMs < 100 * MsPerHour ==> |text| == 11
  {
    if diffMs <= 0 then Boarded
    else
      var t := HmsText(CountdownParts(diffMs));
      assert t[0] != Boarded[0];
      t
  }

  /** A padded number followed by a two-character separator splits only one way. */
  lemma SplitAfterPad(a: nat, b: nat, sep: string, r1: string, r2: string)
    requires |sep| == 2 && !IsDigit(sep[0])
    requires Pad2(a) + (sep + r1) == Pad2(b) + (sep + r2)
    ensures a == b && r1 == r2
  {
    DigitRunUnique(Pad2(a), sep + r1, Pad2(b), sep + r2);
    Pad2Injective(a, b);
    assert (sep + r1)[2..] == r1 && (sep + r2)[2..] == r2;
  }

  /** Distinct parts give distinct texts. */
  lemma HmsTextInjective(t1: Hms, t2: Hms)
    requires HmsText(t1) == HmsText(t2)
    ensures t1 == t2
  {
    var m1 := Pad2(t1.mn) + ("m " + (Pad2(t1.sc) + "s"));
    var m2 := Pad2(t2.mn) + ("m " + (Pad2(t2.sc) + "s"));
    SplitAfterPad(t1.hr, t2.hr, "h ", m1, m2);
    SplitAfterPad(t1.mn, t2.mn, "m ", Pad2(t1.sc) + "s", Pad2(t2.sc) + "s");
    DigitRunUnique(Pad2(t1.sc), "s", Pad2(t2.sc), "s");
    Pad2Injective(t1.sc, t2.sc);
  }

  /** Two differences show the same text exactly when both have reached
      boarding time or both leave the same whole number of seconds. */
  lemma CountdownTextIff(d1: int, d2: int)
    ensures CountdownText(d1) == CountdownText(d2) <==>
              (d1 <= 0 && d2 <= 0) || (d1 > 0 && d2 > 0 && d1 / MsPerSecond == d2 / MsPerSecond)
  {
    if d1 > 0 && d2 > 0 {
      CountdownPartsOfSeconds(d1);
      CountdownPartsOfSeconds(d2);
      if CountdownText(d1) == CountdownText(d2) {
        HmsTextInjective(CountdownParts(d1), CountdownParts(d2));
        var s1, s2 := d1 / MsPerSecond, d2 / MsPerSecond;
        assert s1 == s1 / 3600 * 3600 + (s1 % 3600) / 60 * 60 + s1 % 60;
        assert s2 == s2 / 3600 * 3600 + (s2 % 3600) / 60 * 60 + s2 % 60;
      }
    }
  }

  lemma CountdownExamples()
    ensures CountdownText(0) == "¡A BORDO!"
    ensures CountdownText(-5) == "¡A BORDO!"
    ensures CountdownText(3723000) == "01h 02m 03s"
    ensures CountdownText(999) == "00h 00m 00s"
  {
    assert CountdownParts(3723000) == Hms(1, 2, 3);
    assert CountdownParts(999) == Hms(0, 0, 0);
  }

  // ---------------------------------------------------------------------
  // Screen state and handlers

  datatype Tab = TimelineTab | MapTab | BudgetTab | GuideTab

  /** The component's state variables. */
  datatype AppView = AppView(
    itinerary: seq<Activity>,
    activeTab: Tab,
    userLocation: Option<UserLocation>,
    mapFocus: Option<Coords>,
    countdown: string,
    audioGuideActivity: Option<Activity>,
    fullScreenImage: Option<string>,
    isPlaying: bool)

  /** What the handlers react to. */
  datatype AppEvent =
    | ToggleComplete(id: string)        // onToggleComplete
    | Locate(coords: Coords)            // onLocate
    | OpenAudioGuide(act: Activity)     // onOpenAudioGuide
    | ImageClick(url: string)           // onImageClick
    | CloseImage                        // click on the full-screen image overlay
    | PlayAudio                         // handlePlayAudio
    | SpeechEnded                       // the utterance's onend
    | CloseAudioGuide                   // the audio modal's close button
    | SelectTab(tab: Tab)               // a navigation button
    | Tick(diffMs: int)                 // the one-second interval, boarding time less now
    | PositionUpdate(loc: UserLocation) // a watchPosition fix

  function InitialView(initialItinerary: seq<Activity>): AppView
  {
    AppView(initialItinerary, TimelineTab, None, None, CountdownPlaceholder, None, None, false)
  }

  /** `!audioGuideActivity?.audioGuideText` is false: an activity is open and
      its audio text is a non-empty string. */
  predicate HasAudioText(a: Option<Activity>)
  {
    a.Some? && a.value.audioGuideText.Some? && a.value.audioGuideText.value != ""
  }

  /** The state after one handler runs. */
  function Step(v: AppView, e: AppEvent): (r: AppView)
    ensures !e.ToggleComplete? ==> r.itinerary == v.itinerary
    ensures !e.Locate? ==> r.mapFocus == v.mapFocus
    ensures AudioInvariant(v) ==> AudioInvariant(r)
  {
    match e
    case ToggleComplete(id) => v.(itinerary := ToggleCompleted(v.itinerary, id))
    case Locate(c) => v.(mapFocus := Some(c), activeTab := MapTab)
    case OpenAudioGuide(a) => v.(audioGuideActivity := Some(a))
    case ImageClick(url) => v.(fullScreenImage := Some(url))
    case CloseImage => v.(fullScreenImage := None)
    case PlayAudio => if !HasAudioText(v.audioGuideActivity) then v else v.(isPlaying := !v.isPlaying)
    case SpeechEnded => v.(isPlaying := false)
    case CloseAudioGuide => v.(isPlaying := false, audioGuideActivity := None)
    case SelectTab(t) => v.(activeTab := t)
    case Tick(d) => v.(countdown := CountdownText(d))
    case PositionUpdate(loc) => v.(userLocation := Some(loc))
  }

  /** `handlePlayAudio` does nothing without audio text, and otherwise flips
      `isPlaying`, so pressing it twice restores the state. */
  lemma PlayAudioFlips(v: AppView)
    ensures !HasAudioText(v.audioGuideActivity) ==> Step(v, PlayAudio) == v
    ensures HasAudioText(v.audioGuideActivity) ==>
              Step(v, PlayAudio).isPlaying == !v.isPlaying
              && Step(v, PlayAudio).(isPlaying := v.isPlaying) == v
    ensures Step(Step(v, PlayAudio), PlayAudio) == v
  {
  }

  /** Closing the audio modal always stops playback and closes it, and touches
      nothing else. */
  lemma CloseAudioGuideResets(v: AppView)
    ensures Step(v, CloseAudioGuide).isPlaying == false
    ensures Step(v, CloseAudioGuide).audioGuideActivity == None
    ensures Step(v, CloseAudioGuide).(isPlaying := v.isPlaying, audioGuideActivity := v.audioGuideActivity) == v
  {
  }

  /** `onLocate(c)` focuses the map on `c` and switches to the map tab;
      `onImageClick(url)` opens that image. */
  lemma LocateAndImageClick(v: AppView, c: Coords, url: string)
    ensures Step(v, Locate(c)) == v.(mapFocus := Some(c), activeTab := MapTab)
    ensures Step(v, ImageClick(url)) == v.(fullScreenImage := Some(url))
  {
  }

  /** Audio only plays while the audio modal is open. */
  predicate AudioInvariant(v: AppView)
  {
    v.isPlaying ==> v.audioGuideActivity.Some?
  }

  function Run(v: AppView, events: seq<AppEvent>): AppView
    decreases |events|
  {
    if events == [] then v else Run(Step(v, events[0]), events[1..])
  }

  /** From the initial state, whatever the user and the timers do, audio is
      never playing without the modal open. */
  lemma {:induction false} AudioInvariantAlwaysHolds(v: AppView, events: seq<AppEvent>)
    requires AudioInvariant(v)
    ensures AudioInvariant(Run(v, events))
    decreases |events|
  {
    if events != [] {
      AudioInvariantAlwaysHolds(Step(v, events[0]), events[1..]);
    }
  }

  /** The same audio invariant, from the screen's initial state. */
  lemma InitialAudioInvariant(initialItinerary: seq<Activity>, events: seq<AppEvent>)
    ensures AudioInvariant(Run(InitialView(initialItinerary), events))
  {
    AudioInvariantAlwaysHolds(InitialView(initialItinerary), events);
  }

  /** A run of events without a toggle leaves the itinerary as it was. */
  lemma {:induction false} ItineraryOnlyChangesByToggles(v: AppView, events: seq<AppEvent>)
    requires forall k :: 0 <= k < |events| ==> !events[k].ToggleComplete?
    ensures Run(v, events).itinerary == v.itinerary
    decreases |events|
  {
    if events != [] {
      ItineraryOnlyChangesByToggles(Step(v, events[0]), events[1..]);
    }
  }

  /** The props App.tsx hands to the guide screen: only the position; the
      required `itinerary` prop is not passed. */
  function GuidePropsAsWritten(v: AppView): (props: Guide.GuideProps)
    ensures props.userLocation == v.userLocation && props.itinerary.None?
  {
    Guide.GuideProps(v.userLocation, None)
  }

  /** With the props as App.tsx passes them, the PDF button always throws. */
  lemma GuidePdfFailsAsWritten(v: AppView, pageHeight: real, lines: Guide.LineCounter)
    ensures Guide.PdfFromProps(GuidePropsAsWritten(v), pageHeight, lines).Failure?
  {
  }

  /** The props with the itinerary passed, as the guide screen declares them. */
  function GuidePropsCorrected(v: AppView): (props: Guide.GuideProps)
    ensures props.userLocation == v.userLocation && props.itinerary == Some(v.itinerary)
  {
    Guide.GuideProps(v.userLocation, Some(v.itinerary))
  }

  /** With the itinerary passed, the PDF lays out the current itinerary, one
      placement per activity in order, with one footer per page. */
  lemma GuidePdfLaysOutItinerary(v: AppView, pageHeight: real, lines: Guide.LineCounter)
    ensures var r := Guide.PdfFromProps(GuidePropsCorrected(v), pageHeight, lines);
            && r.Success?
            && r.value == Guide.PdfSpec(v.itinerary, pageHeight, lines)
            && |r.value.placements| == |v.itinerary|
            && |r.value.footer| == r.value.totalPages
  {
    Guide.PagesAreOnePlusBreaks(v.itinerary, pageHeight, lines);
  }

  /** The screen as an object whose handlers update its state variables. */
  class AppState {
    var itinerary: seq<Activity>
    var activeTab: Tab
    var userLocation: Option<UserLocation>
    var mapFocus: Option<Coords>
    var countdown: string
    var audioGuideActivity: Option<Activity>
    var fullScreenImage: Option<string>
    var isPlaying: bool

    function View(): AppView
      reads this
    {
      AppView(itinerary, activeTab, userLocation, mapFocus, countdown, audioGuideActivity, fullScreenImage, isPlaying)
    }

    /** The `useState` initial values. */
    constructor (initialItinerary: seq<Activity>)
      ensures View() == InitialView(initialItinerary)
    {
      itinerary := initialItinerary;
      activeTab := TimelineTab;
      userLocation := None;
      mapFocus := None;
      countdown := CountdownPlaceholder;
      audioGuideActivity := None;
      fullScreenImage := None;
      isPlaying := false;
    }

    method ToggleComplete(id: string)
      modifies this
      ensures View() == Step(old(View()), AppEvent.ToggleComplete(id))
    {
      itinerary := ToggleCompleted(itinerary, id);
    }

    method Locate(c: Coords)
      modifies this
      ensures View() == Step(old(View()), AppEvent.Locate(c))
    {
      mapFocus := Some(c);
      activeTab := MapTab;
    }

    method OpenAudioGuide(act: Activity)
      modifies this
      ensures View() == Step(old(View()), AppEvent.OpenAudioGuide(act))
    {
      audioGuideActivity := Some(act);
    }

    method ImageClick(url: string)
      modifies this
      ensures View() == Step(old(View()), AppEvent.ImageClick(url))
    {
      fullScreenImage := Some(url);
    }

    method CloseImage()
      modifies this
      ensures View() == Step(old(View()), AppEvent.CloseImage)
    {
      fullScreenImage := None;
    }

    /** `handlePlayAudio`: cancel or start speaking the open activity's text. */
    method PlayAudio()
      modifies this
      ensures View() == Step(old(View()), AppEvent.PlayAudio)
    {
      if !HasAudioText(audioGuideActivity) {
        return;
      }
      if isPlaying {
        isPlaying := false;
      } else {
        isPlaying := true;
      }
    }

    method SpeechEnded()
      modifies this
      ensures View() == Step(old(View()), AppEvent.SpeechEnded)
    {
      isPlaying := false;
    }

    method CloseAudioGuide()
      modifies this
      ensures View() == Step(old(View()), AppEvent.CloseAudioGuide)
    {
      isPlaying := false;
      audioGuideActivity := None;
    }

    method SelectTab(t: Tab)
      modifies this
      ensures View() == Step(old(View()), AppEvent.SelectTab(t))
    {
      activeTab := t;
    }

    /** The interval callback, with the boarding time less the current time. */
    method Tick(diffMs: int)
      modifies this
      ensures View() == Step(old(View()), AppEvent.Tick(diffMs))
    {
      if diffMs <= 0 {
        countdown := Boarded;
      } else {
        var hr := diffMs / MsPerHour;
        var mn := (diffMs % MsPerHour) / MsPerMinute;
        var sc := (diffMs % MsPerMinute) / MsPerSecond;
        countdown := HmsText(Hms(hr, mn, sc));
      }
    }

    method PositionUpdate(loc: UserLocation)
      modifies this
      ensures View() == Step(old(View()), AppEvent.PositionUpdate(loc))
    {
      userLocation := Some(loc);
    }
  }
}
