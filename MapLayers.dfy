/** The layer bookkeeping of components/MapComponent.tsx. Leaflet is modelled
    as a store of layers under opaque handles, the set of handles currently on
    the map, the map's view, and a log of the calls made on it. The component's
    refs (`mapInstanceRef`, `layersRef`, `userMarkerRef`, `accuracyCircleRef`)
    are the fields of a class whose four methods are the four effects. */
module MapLayers {
  import opened Types

  type Handle = nat

  /** What a handle stands for, with the geometry the component gives it. */
  datatype Layer =
    | Tile                                     // the basemap tile layer
    | ActivityMarker(at: Coords)               // L.marker at an activity
    | WaypointMarker(at: Coords)               // L.circleMarker at a GPX waypoint
    | Track(path: seq<Coords>)                 // L.polyline of the walking route
    | AccuracyCircle(center: Coords, radius: real)
    | UserMarker(at: Coords)

  datatype View = View(center: Coords, zoom: nat)

  /** One Leaflet call. */
  datatype Call =
    | NewMap(view: View)                 // L.map(container).setView(...)
    | Add(h: Handle, layer: Layer)       // L.<layer>(...).addTo(map)
    | Remove(h: Handle)                  // layer.remove()
    | SetLatLng(h: Handle, at: Coords)
    | SetRadius(h: Handle, radius: real)
    | FlyTo(view: View)
    | DestroyMap                         // map.remove()

  /** The library's side: every layer ever created, those on the map, the
      handle the next created layer gets, the map's view, and the call log. */
  datatype Leaflet = Leaflet(layers: map<Handle, Layer>, onMap: set<Handle>, next: Handle,
                             view: Option<View>, log: seq<Call>)

  const GenoaCenter := Coords(44.4107, 8.9328)
  const InitialZoom: nat := 14
  const FocusZoom: nat := 16

  const NoLeaflet := Leaflet(map[], {}, 0, None, [])

  function Relocated(l: Layer, c: Coords): Layer
  {
    match l
    case ActivityMarker(_) => ActivityMarker(c)
    case WaypointMarker(_) => WaypointMarker(c)
    case UserMarker(_) => UserMarker(c)
    case AccuracyCircle(_, r) => AccuracyCircle(c, r)
    case _ => l
  }

  function Resized(l: Layer, r: real): Layer
  {
    if l.AccuracyCircle? then AccuracyCircle(l.center, r) else l
  }

  /** The effect of one call. A map removed with `map.remove()` takes all its
      layers off; a new map starts empty. */
  function Apply(w: Leaflet, c: Call): (r: Leaflet)
    ensures r.log == w.log + [c]
  {
    var w := w.(log := w.log + [c]);
    match c
    case NewMap(v) => w.(view := Some(v), onMap := {})
    case Add(h, l) => w.(layers := w.layers[h := l], onMap := w.onMap + {h}, next := if h < w.next then w.next else h + 1)
    case Remove(h) => w.(onMap := w.onMap - {h})
    case SetLatLng(h, at) => if h in w.layers then w.(layers := w.layers[h := Relocated(w.layers[h], at)]) else w
    case SetRadius(h, rad) => if h in w.layers then w.(layers := w.layers[h := Resized(w.layers[h], rad)]) else w
    case FlyTo(v) => w.(view := Some(v))
    case DestroyMap => w.(view := None, onMap := {})
  }

  /** The calls made in order, the last one last. */
  function ApplyAll(w: Leaflet, calls: seq<Call>): Leaflet
  {
    if calls == [] then w else Apply(ApplyAll(w, calls[..|calls| - 1]), calls[|calls| - 1])
  }

  /** The log records exactly the calls made. */
  lemma {:induction false} ApplyAllLog(w: Leaflet, calls: seq<Call>)
    ensures ApplyAll(w, calls).log == w.log + calls
  {
    if calls != [] {
      ApplyAllLog(w, calls[..|calls| - 1]);
      assert calls[..|calls| - 1] + [calls[|calls| - 1]] == calls;
    }
  }

  /** A few calls in a row. */
  lemma ApplyAllShort(w: Leaflet, a: Call, b: Call, c: Call)
    ensures ApplyAll(w, [a]) == Apply(w, a)
    ensures ApplyAll(w, [a, b]) == Apply(Apply(w, a), b)
    ensures ApplyAll(w, [a, b, c]) == Apply(Apply(Apply(w, a), b), c)
  {
    assert [a, b, c][..2] == [a, b];
    assert [a, b][..1] == [a];
    assert [a][..0] == [];
  }

  lemma {:induction false} ApplyAllAppend(w: Leaflet, a: seq<Call>, b: seq<Call>)
    ensures ApplyAll(w, a + b) == ApplyAll(ApplyAll(w, a), b)
  {
    if b == [] {
      assert a + b == a;
    } else {
      assert (a + b)[..|a + b| - 1] == a + b[..|b| - 1];
      ApplyAllAppend(w, a, b[..|b| - 1]);
    }
  }

  function Removes(hs: seq<Handle>): seq<Call>
  {
    seq(|hs|, k requires 0 <= k < |hs| => Remove(hs[k]))
  }

  /** Creating the layers `ls` one after another, under consecutive handles. */
  function Adds(base: Handle, ls: seq<Layer>): seq<Call>
  {
    seq(|ls|, k requires 0 <= k < |ls| => Add(base + k, ls[k]))
  }

  /** The k-th removal takes off the k-th handle. */
  lemma RemovesAt(hs: seq<Handle>)
    ensures |Removes(hs)| == |hs| && forall k :: 0 <= k < |hs| ==> Removes(hs)[k] == Remove(hs[k])
  {
  }

  /** The k-th creation puts `ls[k]` under the handle `base + k`. */
  lemma AddsAt(base: Handle, ls: seq<Layer>)
    ensures |Adds(base, ls)| == |ls| && forall k :: 0 <= k < |ls| ==> Adds(base, ls)[k] == Add(base + k, ls[k])
  {
  }

  /** `layers` holds `ls[k]` under the handle `base + k`, for every `k`. */
  predicate PlacedFrom(layers: map<Handle, Layer>, base: Handle, ls: seq<Layer>)
  {
    forall h: Handle :: base <= h < base + |ls| ==> h in layers && layers[h] == ls[h - base]
  }

  /** Removing layers takes exactly those off the map and changes nothing else. */
  lemma {:induction false} RemovesEffect(w: Leaflet, hs: seq<Handle>)
    ensures var w' := ApplyAll(w, Removes(hs));
            && w'.layers == w.layers && w'.next == w.next && w'.view == w.view
            && w'.onMap == w.onMap - (set h | h in hs)
  {
    if hs != [] {
      var n := |hs| - 1;
      RemovesAt(hs);
      RemovesAt(hs[..n]);
      assert Removes(hs)[..n] == Removes(hs[..n]);
      RemovesEffect(w, hs[..n]);
      assert (set h | h in hs) == (set h | h in hs[..n]) + {hs[n]} by {
        assert hs == hs[..n] + [hs[n]];
      }
    }
  }

  /** The last of a run of adds. */
  lemma AddsLast(w: Leaflet, ls: seq<Layer>)
    requires ls != []
    ensures ApplyAll(w, Adds(w.next, ls))
         == Apply(ApplyAll(w, Adds(w.next, ls[..|ls| - 1])), Adds(w.next, ls)[|ls| - 1])
  {
    var n := |ls| - 1;
    var all, init := Adds(w.next, ls), Adds(w.next, ls[..n]);
    AddsAt(w.next, ls);
    AddsAt(w.next, ls[..n]);
    assert all[..n] == init by {
      assert |all[..n]| == |init|;
      forall k | 0 <= k < n ensures all[..n][k] == init[k] {
        assert ls[..n][k] == ls[k];
      }
    }
    assert ApplyAll(w, all) == Apply(ApplyAll(w, all[..|all| - 1]), all[|all| - 1]);
  }

  /** One more add, on a prefix of `ls`. */
  lemma AddsStep(w: Leaflet, ls: seq<Layer>, k: nat)
    requires k < |ls|
    ensures ApplyAll(w, Adds(w.next, ls[..k + 1])) == Apply(ApplyAll(w, Adds(w.next, ls[..k])), Add(w.next + k, ls[k]))
  {
    var pre := ls[..k + 1];
    AddsLast(w, pre);
    AddsAt(w.next, pre);
    assert pre[..k] == ls[..k];
    assert Adds(w.next, pre)[k] == Add(w.next + k, ls[k]);
  }

  /** One more removal, on a prefix of `hs`. */
  lemma RemovesStep(w: Leaflet, hs: seq<Handle>, i: nat)
    requires i < |hs|
    ensures ApplyAll(w, Removes(hs[..i + 1])) == Apply(ApplyAll(w, Removes(hs[..i])), Remove(hs[i]))
  {
    RemovesAt(hs[..i + 1]);
    RemovesAt(hs[..i]);
    assert Removes(hs[..i + 1])[..i] == Removes(hs[..i]);
  }

  /** Creating layers moves the next handle past them and leaves the view. */
  lemma {:induction false} AddsNext(w: Leaflet, ls: seq<Layer>)
    ensures ApplyAll(w, Adds(w.next, ls)).next == w.next + |ls|
    ensures ApplyAll(w, Adds(w.next, ls)).view == w.view
  {
    if ls != [] {
      AddsLast(w, ls);
      AddsNext(w, ls[..|ls| - 1]);
    }
  }

  /** Creating layers under fresh handles leaves every older layer as it was
      and creates no handle outside the new range. */
  lemma {:induction false} AddsKeepOlder(w: Leaflet, ls: seq<Layer>)
    requires forall h :: h in w.layers ==> h < w.next
    ensures var w' := ApplyAll(w, Adds(w.next, ls));
            && (forall h :: h in w.layers ==> h in w'.layers && w'.layers[h] == w.layers[h])
            && (forall h :: h in w'.layers ==> h in w.layers || w.next <= h < w.next + |ls|)
  {
    if ls != [] {
      var n := |ls| - 1;
      AddsLast(w, ls);
      AddsNext(w, ls[..n]);
      AddsKeepOlder(w, ls[..n]);
    }
  }

  /** One more add keeps the earlier layers at their handles. */
  lemma PlaceOneMore(mid: Leaflet, base: Handle, ls: seq<Layer>)
    requires ls != [] && mid.next == base + |ls| - 1
    requires PlacedFrom(mid.layers, base, ls[..|ls| - 1])
    ensures PlacedFrom(Apply(mid, Add(base + |ls| - 1, ls[|ls| - 1])).layers, base, ls)
  {
    var n := |ls| - 1;
    var layers := Apply(mid, Add(base + n, ls[n])).layers;
    assert layers == mid.layers[base + n := ls[n]];
    forall h: Handle | base <= h < base + |ls| ensures h in layers && layers[h] == ls[h - base] {
      if h < base + n {
        assert ls[..n][h - base] == ls[h - base];
      }
    }
  }

  /** Each created layer sits at its handle. */
  lemma {:induction false} AddsPlace(w: Leaflet, ls: seq<Layer>)
    ensures PlacedFrom(ApplyAll(w, Adds(w.next, ls)).layers, w.next, ls)
  {
    if ls != [] {
      var n := |ls| - 1;
      AddsLast(w, ls);
      AddsNext(w, ls[..n]);
      AddsPlace(w, ls[..n]);
      PlaceOneMore(ApplyAll(w, Adds(w.next, ls[..n])), w.next, ls);
    }
  }

  /** The created layers are added to the map, and nothing else changes there. */
  lemma {:induction false} AddsOnMap(w: Leaflet, ls: seq<Layer>)
    ensures var w' := ApplyAll(w, Adds(w.next, ls));
            forall h :: h in w'.onMap <==> h in w.onMap || w.next <= h < w.next + |ls|
  {
    if ls != [] {
      var n := |ls| - 1;
      AddsLast(w, ls);
      AddsNext(w, ls[..n]);
      AddsOnMap(w, ls[..n]);
    }
  }

  /** Creating layers under fresh handles places each one at its handle, on the
      map, and leaves every older layer as it was. */
  lemma AddsEffect(w: Leaflet, ls: seq<Layer>)
    requires forall h :: h in w.layers ==> h < w.next
    ensures var w' := ApplyAll(w, Adds(w.next, ls));
            && w'.next == w.next + |ls| && w'.view == w.view
            && (forall h :: h in w'.layers ==> h < w'.next)
            && (forall h :: h in w.layers ==> h in w'.layers && w'.layers[h] == w.layers[h])
            && (forall h :: h in w'.layers && h !in w.layers ==> w.next <= h)
            && PlacedFrom(w'.layers, w.next, ls)
            && (forall h :: h in w'.onMap <==> h in w.onMap || w.next <= h < w.next + |ls|)
  {
    AddsNext(w, ls);
    AddsKeepOlder(w, ls);
    AddsPlace(w, ls);
    AddsOnMap(w, ls);
  }

  /** `userLocation.accuracy || 0`: the accuracy when present; the `|| 0` only
      replaces a missing one, as a present 0 is 0 either way. */
  function Radius(loc: UserLocation): (r: real)
    ensures r == loc.accuracy.GetOr(0.0)
  {
    if loc.accuracy.Some? && loc.accuracy.value != 0.0 then loc.accuracy.value else 0.0
  }

  /** The layers the rebuild creates, in creation order: a marker per activity,
      a circle marker per waypoint, then the route. */
  function DesiredLayers(activities: seq<Activity>, waypoints: seq<Waypoint>, track: seq<Coords>): (ls: seq<Layer>)
    ensures |ls| == |activities| + |waypoints| + 1
    ensures forall k :: 0 <= k < |activities| ==> ls[k] == ActivityMarker(activities[k].coords)
    ensures forall k :: 0 <= k < |waypoints| ==>
              ls[|activities| + k] == WaypointMarker(Coords(waypoints[k].lat, waypoints[k].lng))
    ensures ls[|activities| + |waypoints|] == Track(track)
  {
    seq(|activities|, k requires 0 <= k < |activities| => ActivityMarker(activities[k].coords))
    + seq(|waypoints|, k requires 0 <= k < |waypoints| => WaypointMarker(Coords(waypoints[k].lat, waypoints[k].lng)))
    + [Track(track)]
  }

  /** The handles `base`, `base + 1`, ..., `base + n - 1`. */
  function HandleRange(base: Handle, n: nat): seq<Handle>
  {
    seq(n, k requires 0 <= k < n => base + k)
  }

  lemma HandleRangeSnoc(base: Handle, n: nat)
    ensures HandleRange(base, n) + [base + n] == HandleRange(base, n + 1)
  {
    var hs := HandleRange(base, n) + [base + n];
    forall k | 0 <= k < n + 1 ensures hs[k] == base + k {
      if k < n {
        assert hs[k] == HandleRange(base, n)[k];
      }
    }
  }

  // ---------------------------------------------------------------------
  // The component's refs and the four effects

  /** `mapInstanceRef.current !== null`, the other three refs, and Leaflet. */
  datatype MapState = MapState(hasMap: bool, layersRef: seq<Handle>, userMarkerRef: Option<Handle>,
                               accuracyCircleRef: Option<Handle>, world: Leaflet)

  /** Tracked layers are the ones the rebuild creates. */
  predicate Tracked(l: Layer)
  {
    l.ActivityMarker? || l.WaypointMarker? || l.Track?
  }

  predicate HandlesFresh(w: Leaflet)
  {
    && (forall h :: h in w.layers ==> h < w.next)
    && w.onMap <= w.layers.Keys
  }

  predicate TrackedRefs(s: MapState)
  {
    && (forall k :: 0 <= k < |s.layersRef| ==> s.layersRef[k] in s.world.layers && Tracked(s.world.layers[s.layersRef[k]]))
    && (forall i, j :: 0 <= i < j < |s.layersRef| ==> s.layersRef[i] != s.layersRef[j])
  }

  /** There is at most one accuracy circle and one user marker, and the refs
      point at them. */
  predicate Singletons(s: MapState)
  {
    && (s.accuracyCircleRef.Some? ==>
          s.accuracyCircleRef.value in s.world.layers && s.world.layers[s.accuracyCircleRef.value].AccuracyCircle?)
    && (forall h :: h in s.world.layers && s.world.layers[h].AccuracyCircle? ==> s.accuracyCircleRef == Some(h))
    && (s.userMarkerRef.Some? ==>
          s.userMarkerRef.value in s.world.layers && s.world.layers[s.userMarkerRef.value].UserMarker?)
    && (forall h :: h in s.world.layers && s.world.layers[h].UserMarker? ==> s.userMarkerRef == Some(h))
  }

  predicate Consistent(s: MapState)
  {
    && HandlesFresh(s.world)
    && TrackedRefs(s)
    && Singletons(s)
    && (s.hasMap <==> s.world.view.Some?)
    && (!s.hasMap ==> s.world.onMap == {})
  }

  function Initial(): MapState
  {
    MapState(false, [], None, None, NoLeaflet)
  }

  lemma InitialConsistent()
    ensures Consistent(Initial())
  {
  }

  function InitCalls(s: MapState, containerMounted: bool): seq<Call>
  {
    if !containerMounted || s.hasMap then []
    else [NewMap(View(GenoaCenter, InitialZoom)), Add(s.world.next, Tile)]
  }

  /** The mount effect: without a container, or with a map already there,
      nothing; otherwise a map centred on Genoa at zoom 14 with its tiles. */
  function InitEffect(s: MapState, containerMounted: bool): (r: MapState)
    ensures r.hasMap <==> s.hasMap || containerMounted
    ensures r.layersRef == s.layersRef && r.userMarkerRef == s.userMarkerRef && r.accuracyCircleRef == s.accuracyCircleRef
    ensures !containerMounted || s.hasMap ==> r == s
  {
    s.(hasMap := s.hasMap || containerMounted, world := ApplyAll(s.world, InitCalls(s, containerMounted)))
  }

  /** The mount effect's cleanup, registered only when it created the map:
      remove the map and clear the instance ref. The other refs are kept. */
  function CleanupEffect(s: MapState): (r: MapState)
    ensures !r.hasMap
    ensures r.layersRef == s.layersRef && r.userMarkerRef == s.userMarkerRef && r.accuracyCircleRef == s.accuracyCircleRef
    ensures s.hasMap ==> r.world.view.None? && r.world.onMap == {} && r.world.log == s.world.log + [DestroyMap]
    ensures !s.hasMap ==> r == s
  {
    if !s.hasMap then s else s.(hasMap := false, world := Apply(s.world, DestroyMap))
  }

  function RebuildCalls(s: MapState, activities: seq<Activity>, waypoints: seq<Waypoint>, track: seq<Coords>): seq<Call>
  {
    if !s.hasMap then []
    else Removes(s.layersRef) + Adds(s.world.next, DesiredLayers(activities, waypoints, track))
  }

  /** The `[activities]` effect: remove every tracked layer, then create and
      track the markers, waypoints and route afresh. */
  function RebuildEffect(s: MapState, activities: seq<Activity>, waypoints: seq<Waypoint>, track: seq<Coords>): (r: MapState)
    ensures r.hasMap == s.hasMap && r.userMarkerRef == s.userMarkerRef && r.accuracyCircleRef == s.accuracyCircleRef
    ensures !s.hasMap ==> r == s
    ensures s.hasMap ==> |r.layersRef| == |activities| + |waypoints| + 1
    ensures s.hasMap ==> forall k :: 0 <= k < |r.layersRef| ==> r.layersRef[k] == s.world.next + k
  {
    if !s.hasMap then s
    else s.(layersRef := HandleRange(s.world.next, |activities| + |waypoints| + 1),
            world := ApplyAll(s.world, RebuildCalls(s, activities, waypoints, track)))
  }

  function LocationCalls(s: MapState, loc: UserLocation): seq<Call>
  {
    var pos, r := loc.Position(), Radius(loc);
    var circle := if s.accuracyCircleRef.Some?
                  then [SetLatLng(s.accuracyCircleRef.value, pos), SetRadius(s.accuracyCircleRef.value, r)]
                  else [Add(s.world.next, AccuracyCircle(pos, r))];
    var markerHandle := if s.accuracyCircleRef.Some? then s.world.next else s.world.next + 1;
    var marker := if s.userMarkerRef.Some?
                  then [SetLatLng(s.userMarkerRef.value, pos)]
                  else [Add(markerHandle, UserMarker(pos))];
    circle + marker
  }

  /** The `[userLocation]` effect: move the circle and the marker there, each
      created on first use. */
  function LocationEffect(s: MapState, loc: Option<UserLocation>): (r: MapState)
    ensures r.hasMap == s.hasMap && r.layersRef == s.layersRef
    ensures !s.hasMap || loc.None? ==> r == s
    ensures s.hasMap && loc.Some? ==> r.accuracyCircleRef.Some? && r.userMarkerRef.Some?
    ensures s.accuracyCircleRef.Some? ==> r.accuracyCircleRef == s.accuracyCircleRef
    ensures s.userMarkerRef.Some? ==> r.userMarkerRef == s.userMarkerRef
  {
    if !s.hasMap || loc.None? then s
    else
      var n := s.world.next;
      s.(accuracyCircleRef := Some(if s.accuracyCircleRef.Some? then s.accuracyCircleRef.value else n),
         userMarkerRef := Some(if s.userMarkerRef.Some? then s.userMarkerRef.value
                               else if s.accuracyCircleRef.Some? then n else n + 1),
         world := ApplyAll(s.world, LocationCalls(s, loc.value)))
  }

  /** The `[focusedLocation]` effect. */
  function FocusEffect(s: MapState, focused: Option<Coords>): (r: MapState)
    ensures r.(world := s.world) == s
    ensures r.world.(view := s.world.view, log := s.world.log) == s.world
  {
    if s.hasMap && focused.Some? then s.(world := Apply(s.world, FlyTo(View(focused.value, FocusZoom)))) else s
  }

  // ---------------------------------------------------------------------
  // Properties of the effects

  /** The mount effect creates a map exactly when there is a container and no
      map yet; run again, it does nothing; cleanup leaves no map and nothing
      on screen. */
  lemma InitCreatesOnce(s: MapState, mounted: bool, again: bool)
    ensures InitEffect(s, mounted).hasMap <==> s.hasMap || mounted
    ensures (!mounted || s.hasMap) ==> InitEffect(s, mounted) == s
    ensures mounted && !s.hasMap ==>
              InitEffect(s, mounted).world.view == Some(View(GenoaCenter, InitialZoom))
              && InitEffect(s, mounted).world.onMap == {s.world.next}
    ensures InitEffect(s, mounted).hasMap ==> InitEffect(InitEffect(s, mounted), again) == InitEffect(s, mounted)
    ensures !CleanupEffect(s).hasMap && (s.hasMap ==> CleanupEffect(s).world.onMap == {})
  {
    ApplyAllShort(s.world, NewMap(View(GenoaCenter, InitialZoom)), Add(s.world.next, Tile), DestroyMap);
  }

  /** Without a map, the rebuild does nothing. */
  lemma RebuildWithoutMap(s: MapState, activities: seq<Activity>, waypoints: seq<Waypoint>, track: seq<Coords>)
    requires !s.hasMap
    ensures RebuildEffect(s, activities, waypoints, track) == s
  {
  }

  /** The rebuild's calls on Leaflet: every tracked layer is removed, in
      order, before anything is added, and only then are the new layers added. */
  lemma RebuildRemovesFirst(s: MapState, activities: seq<Activity>, waypoints: seq<Waypoint>, track: seq<Coords>)
    requires s.hasMap
    ensures var log := RebuildEffect(s, activities, waypoints, track).world.log;
            var n := |s.world.log|;
            var m := |s.layersRef|;
            && |log| == n + m + |activities| + |waypoints| + 1
            && log[..n] == s.world.log
            && (forall k :: 0 <= k < m ==> log[n + k] == Remove(s.layersRef[k]))
            && (forall k :: n + m <= k < |log| ==> log[k].Add?)
  {
    ApplyAllLog(s.world, RebuildCalls(s, activities, waypoints, track));
    RemovesAt(s.layersRef);
    AddsAt(s.world.next, DesiredLayers(activities, waypoints, track));
  }

  /** The world after the rebuild is the add step run after the remove step. */
  lemma RebuildParts(s: MapState, activities: seq<Activity>, waypoints: seq<Waypoint>, track: seq<Coords>)
    requires HandlesFresh(s.world) && s.hasMap
    ensures var w1 := ApplyAll(s.world, Removes(s.layersRef));
            var ls := DesiredLayers(activities, waypoints, track);
            && RebuildEffect(s, activities, waypoints, track).world == ApplyAll(w1, Adds(w1.next, ls))
            && w1.layers == s.world.layers && w1.next == s.world.next && w1.view == s.world.view
            && w1.onMap == s.world.onMap - (set h | h in s.layersRef)
  {
    var ls := DesiredLayers(activities, waypoints, track);
    RemovesEffect(s.world, s.layersRef);
    ApplyAllAppend(s.world, Removes(s.layersRef), Adds(s.world.next, ls));
  }

  /** What the rebuild does to the refs and to Leaflet, summed up: `s'` tracks
      fresh handles holding `ls`, every older layer is kept, and the map shows
      what it showed before less the tracked layers, plus the new ones. */
  ghost predicate RebuiltFrom(s: MapState, s': MapState, ls: seq<Layer>)
  {
    var n := s.world.next;
    && s'.hasMap == s.hasMap && s'.userMarkerRef == s.userMarkerRef && s'.accuracyCircleRef == s.accuracyCircleRef
    && s'.layersRef == HandleRange(n, |ls|)
    && s'.world.next == n + |ls| && s'.world.view == s.world.view
    && (forall h :: h in s.world.layers ==> h in s'.world.layers && s'.world.layers[h] == s.world.layers[h])
    && (forall h :: h in s'.world.layers ==> h in s.world.layers || n <= h < n + |ls|)
    && PlacedFrom(s'.world.layers, n, ls)
    && (forall h :: h in s'.world.onMap <==> (h in s.world.onMap && h !in s.layersRef) || n <= h < n + |ls|)
  }

  /** The rebuild is described by `RebuiltFrom`. */
  lemma RebuildSummary(s: MapState, activities: seq<Activity>, waypoints: seq<Waypoint>, track: seq<Coords>)
    requires HandlesFresh(s.world) && s.hasMap
    ensures RebuiltFrom(s, RebuildEffect(s, activities, waypoints, track), DesiredLayers(activities, waypoints, track))
  {
    RebuildParts(s, activities, waypoints, track);
    AddsEffect(ApplyAll(s.world, Removes(s.layersRef)), DesiredLayers(activities, waypoints, track));
  }

  /** In any state `RebuiltFrom` describes, the tracked list holds the new
      layers, in order and on the map, and the old tracked layers are off it. */
  lemma LayoutOfRebuilt(s: MapState, s': MapState, ls: seq<Layer>)
    requires HandlesFresh(s.world) && RebuiltFrom(s, s', ls)
    requires forall k :: 0 <= k < |s.layersRef| ==> s.layersRef[k] in s.world.layers
    ensures |s'.layersRef| == |ls|
    ensures forall k :: 0 <= k < |ls| ==>
              s'.layersRef[k] in s'.world.layers && s'.layersRef[k] in s'.world.onMap && s'.world.layers[s'.layersRef[k]] == ls[k]
    ensures forall k :: 0 <= k < |s.layersRef| ==> s.layersRef[k] !in s'.world.onMap
  {
    forall k | 0 <= k < |ls|
      ensures s'.layersRef[k] in s'.world.layers && s'.layersRef[k] in s'.world.onMap && s'.world.layers[s'.layersRef[k]] == ls[k]
    {
      var h: Handle := s.world.next + k;
      assert s'.layersRef[k] == h;
      assert s.world.next <= h < s.world.next + |ls|;
    }
    forall k | 0 <= k < |s.layersRef| ensures s.layersRef[k] !in s'.world.onMap {
      var h := s.layersRef[k];
      assert h in s.layersRef;
      assert h < s.world.next;
    }
  }

  /** After a rebuild (any `s'` that `RebuildSummary` describes) the tracked
      list holds one marker per activity at its coordinates, in activity
      order, then one per waypoint, then the route; all are on the map, and
      no previously tracked layer is. */
  lemma RebuildLayout(s: MapState, s': MapState, activities: seq<Activity>, waypoints: seq<Waypoint>, track: seq<Coords>)
    requires HandlesFresh(s.world) && RebuiltFrom(s, s', DesiredLayers(activities, waypoints, track))
    requires forall k :: 0 <= k < |s.layersRef| ==> s.layersRef[k] in s.world.layers
    ensures var na, nw := |activities|, |waypoints|;
            && |s'.layersRef| == na + nw + 1
            && (forall k :: 0 <= k < |s'.layersRef| ==> s'.layersRef[k] in s'.world.layers && s'.layersRef[k] in s'.world.onMap)
            && (forall k :: 0 <= k < na ==> s'.world.layers[s'.layersRef[k]] == ActivityMarker(activities[k].coords))
            && (forall k :: 0 <= k < nw ==>
                  s'.world.layers[s'.layersRef[na + k]] == WaypointMarker(Coords(waypoints[k].lat, waypoints[k].lng)))
            && s'.world.layers[s'.layersRef[na + nw]] == Track(track)
            && (forall k :: 0 <= k < |s.layersRef| ==> s.layersRef[k] !in s'.world.onMap)
  {
    var ls := DesiredLayers(activities, waypoints, track);
    var na, nw := |activities|, |waypoints|;
    LayoutOfRebuilt(s, s', ls);
    forall k | 0 <= k < na
      ensures s'.world.layers[s'.layersRef[k]] == ActivityMarker(activities[k].coords)
    {
      assert s'.world.layers[s'.layersRef[k]] == ls[k];
    }
    forall k | 0 <= k < nw
      ensures s'.world.layers[s'.layersRef[na + k]] == WaypointMarker(Coords(waypoints[k].lat, waypoints[k].lng))
    {
      assert s'.world.layers[s'.layersRef[na + k]] == ls[na + k];
    }
  }

  /** The rebuild leaves the user marker and the accuracy circle alone: same
      refs, same geometry, on the map exactly when they were. */
  lemma RebuildKeepsUserLayers(s: MapState, activities: seq<Activity>, waypoints: seq<Waypoint>, track: seq<Coords>)
    requires Consistent(s)
    ensures var s' := RebuildEffect(s, activities, waypoints, track);
            && s'.userMarkerRef == s.userMarkerRef && s'.accuracyCircleRef == s.accuracyCircleRef
            && (s.userMarkerRef.Some? ==>
                  var h := s.userMarkerRef.value;
                  h in s'.world.layers && s'.world.layers[h] == s.world.layers[h]
                  && (h in s'.world.onMap <==> h in s.world.onMap))
            && (s.accuracyCircleRef.Some? ==>
                  var h := s.accuracyCircleRef.value;
                  h in s'.world.layers && s'.world.layers[h] == s.world.layers[h]
                  && (h in s'.world.onMap <==> h in s.world.onMap))
  {
    if s.hasMap {
      RebuildSummary(s, activities, waypoints, track);
      UserLayersOfRebuilt(s, RebuildEffect(s, activities, waypoints, track), DesiredLayers(activities, waypoints, track));
    }
  }

  /** Untracked layers, the user marker and the accuracy circle among them,
      come through a rebuild unchanged. */
  lemma UserLayersOfRebuilt(s: MapState, s': MapState, ls: seq<Layer>)
    requires Consistent(s) && RebuiltFrom(s, s', ls)
    ensures s.userMarkerRef.Some? ==>
              var h := s.userMarkerRef.value;
              h in s'.world.layers && s'.world.layers[h] == s.world.layers[h]
              && (h in s'.world.onMap <==> h in s.world.onMap)
    ensures s.accuracyCircleRef.Some? ==>
              var h := s.accuracyCircleRef.value;
              h in s'.world.layers && s'.world.layers[h] == s.world.layers[h]
              && (h in s'.world.onMap <==> h in s.world.onMap)
  {
  }

  /** A rebuild that creates only tracked kinds of layer keeps the state consistent. */
  lemma ConsistentOfRebuilt(s: MapState, s': MapState, ls: seq<Layer>)
    requires Consistent(s) && s.hasMap && RebuiltFrom(s, s', ls)
    requires forall k :: 0 <= k < |ls| ==> Tracked(ls[k])
    ensures Consistent(s')
  {
    var n := s.world.next;
    forall h | h in s'.world.layers && h !in s.world.layers ensures Tracked(s'.world.layers[h]) {
      assert s'.world.layers[h] == ls[h - n];
      assert Tracked(ls[h - n]);
    }
    assert TrackedRefs(s') by {
      forall k | 0 <= k < |s'.layersRef| ensures s'.layersRef[k] in s'.world.layers && Tracked(s'.world.layers[s'.layersRef[k]]) {
        var h: Handle := n + k;
        assert s'.layersRef[k] == h && h !in s.world.layers;
      }
    }
  }

  /** The rebuild keeps the refs and Leaflet consistent. */
  lemma RebuildPreservesConsistent(s: MapState, activities: seq<Activity>, waypoints: seq<Waypoint>, track: seq<Coords>)
    requires Consistent(s)
    ensures Consistent(RebuildEffect(s, activities, waypoints, track))
  {
    if s.hasMap {
      var ls := DesiredLayers(activities, waypoints, track);
      RebuildSummary(s, activities, waypoints, track);
      assert forall k :: 0 <= k < |ls| ==> Tracked(ls[k]);
      ConsistentOfRebuilt(s, RebuildEffect(s, activities, waypoints, track), ls);
    }
  }

  /** Without a map or without a position, the location effect does nothing. */
  lemma LocationNoOp(s: MapState, loc: Option<UserLocation>)
    requires !s.hasMap || loc.None?
    ensures LocationEffect(s, loc) == s
  {
  }

  /** The circle step of the location effect: move and resize it, or create it. */
  function PlaceCircle(w: Leaflet, ref: Option<Handle>, pos: Coords, r: real): Leaflet
  {
    if ref.Some? then Apply(Apply(w, SetLatLng(ref.value, pos)), SetRadius(ref.value, r))
    else Apply(w, Add(w.next, AccuracyCircle(pos, r)))
  }

  /** The marker step of the location effect: move it, or create it. */
  function PlaceMarker(w: Leaflet, ref: Option<Handle>, pos: Coords): Leaflet
  {
    if ref.Some? then Apply(w, SetLatLng(ref.value, pos)) else Apply(w, Add(w.next, UserMarker(pos)))
  }

  /** The location effect's calls are the circle step, then the marker step. */
  lemma LocationCallsInOrder(s: MapState, loc: UserLocation)
    ensures ApplyAll(s.world, LocationCalls(s, loc))
         == PlaceMarker(PlaceCircle(s.world, s.accuracyCircleRef, loc.Position(), Radius(loc)), s.userMarkerRef, loc.Position())
  {
    var calls := LocationCalls(s, loc);
    var w, n := s.world, s.world.next;
    var pos, r := loc.Position(), Radius(loc);
    if s.accuracyCircleRef.Some? {
      var c := s.accuracyCircleRef.value;
      if s.userMarkerRef.Some? {
        var m := s.userMarkerRef.value;
        assert calls == [SetLatLng(c, pos), SetRadius(c, r), SetLatLng(m, pos)];
        ApplyAllShort(w, SetLatLng(c, pos), SetRadius(c, r), SetLatLng(m, pos));
      } else {
        assert calls == [SetLatLng(c, pos), SetRadius(c, r), Add(n, UserMarker(pos))];
        ApplyAllShort(w, SetLatLng(c, pos), SetRadius(c, r), Add(n, UserMarker(pos)));
      }
    } else {
      if s.userMarkerRef.Some? {
        var m := s.userMarkerRef.value;
        assert calls == [Add(n, AccuracyCircle(pos, r)), SetLatLng(m, pos)];
        ApplyAllShort(w, Add(n, AccuracyCircle(pos, r)), SetLatLng(m, pos), DestroyMap);
      } else {
        assert calls == [Add(n, AccuracyCircle(pos, r)), Add(n + 1, UserMarker(pos))];
        ApplyAllShort(w, Add(n, AccuracyCircle(pos, r)), Add(n + 1, UserMarker(pos)), DestroyMap);
      }
    }
  }

  /** Unfolding the location effect's two or three calls. */
  lemma LocationWorld(s: MapState, loc: UserLocation)
    requires HandlesFresh(s.world) && Singletons(s)
    ensures var w' := ApplyAll(s.world, LocationCalls(s, loc));
            var pos, r := loc.Position(), Radius(loc);
            var n := s.world.next;
            var c := if s.accuracyCircleRef.Some? then s.accuracyCircleRef.value else n;
            var m := if s.userMarkerRef.Some? then s.userMarkerRef.value else if s.accuracyCircleRef.Some? then n else n + 1;
            && w'.layers == s.world.layers[c := AccuracyCircle(pos, r)][m := UserMarker(pos)]
            && w'.onMap == s.world.onMap + (if s.accuracyCircleRef.Some? then {} else {c})
                                         + (if s.userMarkerRef.Some? then {} else {m})
            && w'.next == n + (if s.accuracyCircleRef.Some? then 0 else 1) + (if s.userMarkerRef.Some? then 0 else 1)
            && w'.view == s.world.view
  {
    LocationCallsInOrder(s, loc);
    if s.accuracyCircleRef.Some? {
      var c := s.accuracyCircleRef.value;
      var w1 := PlaceCircle(s.world, s.accuracyCircleRef, loc.Position(), Radius(loc));
      assert w1.layers == s.world.layers[c := AccuracyCircle(loc.Position(), Radius(loc))];
    }
  }

  /** A position places the circle, with the accuracy as radius, and the
      marker there; each is created only if its ref was empty, and otherwise
      the same layer is moved. */
  lemma LocationPlacesSingletons(s: MapState, loc: UserLocation)
    requires Consistent(s) && s.hasMap
    ensures var s' := LocationEffect(s, Some(loc));
            && s'.accuracyCircleRef.Some? && s'.userMarkerRef.Some?
            && (s.accuracyCircleRef.Some? ==> s'.accuracyCircleRef == s.accuracyCircleRef)
            && (s.userMarkerRef.Some? ==> s'.userMarkerRef == s.userMarkerRef)
            && s'.accuracyCircleRef.value in s'.world.layers && s'.userMarkerRef.value in s'.world.layers
            && s'.world.layers[s'.accuracyCircleRef.value] == AccuracyCircle(loc.Position(), loc.accuracy.GetOr(0.0))
            && s'.world.layers[s'.userMarkerRef.value] == UserMarker(loc.Position())
            && s'.layersRef == s.layersRef
  {
    LocationWorld(s, loc);
    assert s.world.next !in s.world.layers;
  }

  /** The location effect keeps the refs and Leaflet consistent. */
  lemma LocationPreservesConsistent(s: MapState, loc: Option<UserLocation>)
    requires Consistent(s)
    ensures Consistent(LocationEffect(s, loc))
  {
    if s.hasMap && loc.Some? {
      LocationWorld(s, loc.value);
      var s' := LocationEffect(s, loc);
      var n := s.world.next;
      assert n !in s.world.layers && n + 1 !in s.world.layers;
      var c := s'.accuracyCircleRef.value;
      var m := s'.userMarkerRef.value;
      assert c != m;
      assert TrackedRefs(s') by {
        forall k | 0 <= k < |s'.layersRef|
          ensures s'.layersRef[k] != c && s'.layersRef[k] != m
        {
          assert Tracked(s.world.layers[s.layersRef[k]]);
        }
      }
    }
  }

  /** So do the mount effect and its cleanup. */
  lemma InitAndCleanupPreserveConsistent(s: MapState, mounted: bool)
    requires Consistent(s)
    ensures Consistent(InitEffect(s, mounted)) && Consistent(CleanupEffect(s))
  {
    if mounted && !s.hasMap {
      var n := s.world.next;
      ApplyAllShort(s.world, NewMap(View(GenoaCenter, InitialZoom)), Add(n, Tile), DestroyMap);
      assert n !in s.world.layers;
      var w' := InitEffect(s, mounted).world;
      assert w'.layers == s.world.layers[n := Tile] && w'.next == n + 1;
    }
  }

  /** Focus flies to zoom 16 at the location exactly when there is both a map
      and a location, and nothing else changes. */
  lemma FocusIff(s: MapState, focused: Option<Coords>)
    requires Consistent(s)
    ensures Consistent(FocusEffect(s, focused))
    ensures (s.hasMap && focused.Some?) ==>
              FocusEffect(s, focused).world.view == Some(View(focused.value, FocusZoom))
              && FocusEffect(s, focused).world.log == s.world.log + [FlyTo(View(focused.value, FocusZoom))]
    ensures |FocusEffect(s, focused).world.log| > |s.world.log| <==> s.hasMap && focused.Some?
    ensures FocusEffect(s, focused).(world := s.world) == s
    ensures FocusEffect(s, focused).world.(view := s.world.view, log := s.world.log) == s.world
    ensures !(s.hasMap && focused.Some?) ==> FocusEffect(s, focused) == s
  {
  }

  // ---------------------------------------------------------------------
  // The component

  class MapView {
    const gpxWaypoints: seq<Waypoint>
    const genovaTrack: seq<Coords>

    var hasMap: bool                      // mapInstanceRef.current !== null
    var layersRef: seq<Handle>
    var userMarkerRef: Option<Handle>
    var accuracyCircleRef: Option<Handle>
    var world: Leaflet

    function State(): MapState
      reads this
    {
      MapState(hasMap, layersRef, userMarkerRef, accuracyCircleRef, world)
    }

    predicate Valid()
      reads this
    {
      Consistent(State())
    }

    constructor (waypoints: seq<Waypoint>, track: seq<Coords>)
      ensures gpxWaypoints == waypoints && genovaTrack == track
      ensures State() == Initial() && Valid()
    {
      gpxWaypoints, genovaTrack := waypoints, track;
      hasMap, layersRef, userMarkerRef, accuracyCircleRef := false, [], None, None;
      world := NoLeaflet;
    }

    method Init(containerMounted: bool)
      requires Valid()
      modifies this
      ensures State() == InitEffect(old(State()), containerMounted) && Valid()
    {
      InitAndCleanupPreserveConsistent(State(), containerMounted);
      if !containerMounted || hasMap {
        return;
      }
      ghost var w0 := world;
      world := Apply(world, NewMap(View(GenoaCenter, InitialZoom)));
      world := Apply(world, Add(world.next, Tile));
      hasMap := true;
      ApplyAllShort(w0, NewMap(View(GenoaCenter, InitialZoom)), Add(w0.next, Tile), DestroyMap);
    }

    method Cleanup()
      requires Valid()
      modifies this
      ensures State() == CleanupEffect(old(State())) && Valid()
    {
      InitAndCleanupPreserveConsistent(State(), false);
      if hasMap {
        world := Apply(world, DestroyMap);
        hasMap := false;
      }
    }

    /** The `[activities]` effect: the removal loop, then the creation of the
        markers, the waypoints and the route. */
    method Rebuild(activities: seq<Activity>)
      requires Valid()
      modifies this
      ensures State() == RebuildEffect(old(State()), activities, gpxWaypoints, genovaTrack) && Valid()
    {
      ghost var s0 := State();
      RebuildPreservesConsistent(s0, activities, gpxWaypoints, genovaTrack);
      if !hasMap {
        RebuildWithoutMap(s0, activities, gpxWaypoints, genovaTrack);
        return;
      }
      RebuildParts(s0, activities, gpxWaypoints, genovaTrack);
      RemoveTracked();
      AddLayers(DesiredLayers(activities, gpxWaypoints, genovaTrack));
    }

    /** The three creation loops of the rebuild, run over the layers they
        create in order (`DesiredLayers`): each layer is added to the map and
        pushed on the tracked list. */
    method AddLayers(ls: seq<Layer>)
      modifies this
      ensures world == ApplyAll(old(world), Adds(old(world.next), ls))
      ensures layersRef == old(layersRef) + HandleRange(old(world.next), |ls|)
      ensures hasMap == old(hasMap) && userMarkerRef == old(userMarkerRef) && accuracyCircleRef == old(accuracyCircleRef)
    {
      ghost var w1 := world;
      var base := world.next;
      for k := 0 to |ls|
        invariant layersRef == old(layersRef) + HandleRange(base, k)
        invariant world == ApplyAll(w1, Adds(base, ls[..k])) && world.next == base + k
        invariant hasMap == old(hasMap) && userMarkerRef == old(userMarkerRef) && accuracyCircleRef == old(accuracyCircleRef)
      {
        AddsStep(w1, ls, k);
        HandleRangeSnoc(base, k);
        var _ := AddLayer(ls[k]);
      }
      assert ls[..|ls|] == ls;
    }

    /** `layersRef.current.forEach(l => l.remove())`, then `layersRef.current = []`. */
    method RemoveTracked()
      modifies this
      ensures world == ApplyAll(old(world), Removes(old(layersRef))) && layersRef == []
      ensures hasMap == old(hasMap) && userMarkerRef == old(userMarkerRef) && accuracyCircleRef == old(accuracyCircleRef)
    {
      ghost var w0 := world;
      var i := 0;
      while i < |layersRef|
        invariant 0 <= i <= |layersRef| && layersRef == old(layersRef) && world == ApplyAll(w0, Removes(layersRef[..i]))
        invariant hasMap == old(hasMap) && userMarkerRef == old(userMarkerRef) && accuracyCircleRef == old(accuracyCircleRef)
      {
        RemovesStep(w0, layersRef, i);
        world := Apply(world, Remove(layersRef[i]));
        i := i + 1;
      }
      assert layersRef[..i] == layersRef;
      layersRef := [];
    }

    /** `L.marker(...).addTo(map)` (or a circle marker, or a polyline) followed
        by `layersRef.current.push(...)`: Leaflet gives the layer the next
        handle and the component tracks it. */
    method AddLayer(l: Layer) returns (h: Handle)
      modifies this
      ensures h == old(world.next) && world == Apply(old(world), Add(h, l)) && layersRef == old(layersRef) + [h]
      ensures hasMap == old(hasMap) && userMarkerRef == old(userMarkerRef) && accuracyCircleRef == old(accuracyCircleRef)
    {
      h := world.next;
      world := Apply(world, Add(h, l));
      layersRef := layersRef + [h];
    }

    /** The `[userLocation]` effect. */
    method UpdateUserLocation(loc: Option<UserLocation>)
      requires Valid()
      modifies this
      ensures State() == LocationEffect(old(State()), loc) && Valid()
    {
      LocationPreservesConsistent(State(), loc);
      if !hasMap || loc.None? {
        return;
      }
      ghost var s0 := State();
      var latLng := loc.value.Position();
      var r := Radius(loc.value);
      if accuracyCircleRef.Some? {
        world := Apply(world, SetLatLng(accuracyCircleRef.value, latLng));
        world := Apply(world, SetRadius(accuracyCircleRef.value, r));
      } else {
        var h := world.next;
        world := Apply(world, Add(h, AccuracyCircle(latLng, r)));
        accuracyCircleRef := Some(h);
      }
      if userMarkerRef.Some? {
        world := Apply(world, SetLatLng(userMarkerRef.value, latLng));
      } else {
        var h := world.next;
        world := Apply(world, Add(h, UserMarker(latLng)));
        userMarkerRef := Some(h);
      }
      LocationCallsInOrder(s0, loc.value);
    }

    /** The `[focusedLocation]` effect. */
    method Focus(focused: Option<Coords>)
      requires Valid()
      modifies this
      ensures State() == FocusEffect(old(State()), focused) && Valid()
    {
      FocusIff(State(), focused);
      if hasMap && focused.Some? {
        world := Apply(world, FlyTo(View(focused.value, FocusZoom)));
      }
    }
  }
}
