# Genoa stopover companion — a Dafny model

The application is a single-page companion for a cruise passenger's day ashore in Genoa. This project models its logic:

- **The itinerary list** (components/Timeline.tsx). It shows a duration badge and a progress bar for each activity, and a "traslado / espera" chip with the gap since the previous activity ended. When the user's position is known, it also shows a distance chip.
- **The top-level screen** (App.tsx):
  - the completion toggle;
  - the boarding countdown "HHh MMm SSs". It turns into "¡A BORDO!" once boarding time has come;
  - the handlers for tabs, map focus, the audio guide modal and the full-screen image.
- **The map** (components/MapComponent.tsx). Four effects:
  - create the Leaflet map once;
  - tear down and rebuild the tracked activity markers, GPX waypoints and route;
  - keep a single accuracy circle and a single user marker at the latest fix;
  - fly to a focused location.
- **The guide** (components/Guide.tsx):
  - the weather-code icon thresholds;
  - the hourly strip (one hour back to twelve hours ahead) and the five-day list;
  - the page layout of the itinerary PDF: the vertical cursor, page breaks and the "Página i de n" footer;
  - the pronunciation player's `playing` flag.

Modules:

- `Types`: the data shapes of types.ts, plus `Option` and `Result`.
- `Decimal`: JavaScript's decimal text of integers and `padStart(2, '0')`.
- `Schedule`: the clock arithmetic and labels of components/Timeline.tsx.
- `Timeline`: one card per activity.
- `App`: the toggle, the countdown, a pure transition function `Step`, and the class `AppState` whose methods are the handlers.
- `MapLayers`: Leaflet as a store of layers under opaque handles, with the set on the map, the view and a call log. The class `MapView` holds the component's refs, and its methods are the effects.
- `Guide`: the guide helpers. The PDF layout is a method with loops, proved equal to a recursive specification.

Some inputs are outside code and enter as parameters:

- the current time: current minutes of day, and millisecond differences;
- the great-circle distance and bearing;
- jsPDF's line counts and page height;
- whether the map container is mounted;
- the constants file: the initial itinerary, GPX waypoints, route and boarding time.

"HH:MM" strings enter already split into two numbers (`Clock`).

## Model

| member | source | states |
|---|---|---|
| Schedule.MinutesBetween | components/Timeline.tsx:17-21 | the wrapped difference brings `from` round to `to` modulo a day, and lies in [0, 1439] for real times of day |
| Schedule.MinutesBetweenUnique | components/Timeline.tsx:37-43 | on real times of day it is the only difference in [0, 1439] that does so |
| Schedule.JsRem | components/Timeline.tsx:23 | JavaScript `%` truncates: the remainder differs from a by a multiple of b, and lies in [0, b) for non-negative a and in (-b, 0] for negative a |
| Schedule.FloorDiv | components/Timeline.tsx:22 | `Math.floor(a / b)` is the q with b·q ≤ a < b·q + b |
| Schedule.CalculateGap | components/Timeline.tsx:37-43 | the gap between real times of day lies in [0, 1439] |
| Schedule.HoursMinutesLabel | components/Timeline.tsx:22-26 | for a non-negative total the label is non-empty and starts with a digit |
| Schedule.CalculateDuration | components/Timeline.tsx:17-27 | on real times of day the badge is a non-empty text starting with a digit that mentions hours exactly when the span is at least 60 minutes; equal start and end minutes always give "0 min" |
| Schedule.FormatGap | components/Timeline.tsx:29-35 | for a non-negative gap the label is non-empty, starts with a digit, and mentions hours exactly when the gap is at least 60 minutes |
| Schedule.GapZeroIffBackToBack | components/Timeline.tsx:37-43 | the gap is 0 exactly when the next start equals the previous end |
| Schedule.GapExamples | components/Timeline.tsx:37-43 | one example each: ("23:50", "00:10") gives 20, and ("10:00", "10:00") gives 0 |
| Schedule.DurationExamples | components/Timeline.tsx:17-26 | 09:00–11:30 gives "2h 30m" and 09:00–11:00 gives "2h" |
| Schedule.ShortDurationExamples | components/Timeline.tsx:17-26 | one example each: 09:00–09:45 gives "45 min" and 10:00–10:00 gives "0 min" |
| Schedule.OvernightDurationExample | components/Timeline.tsx:20-21 | 23:00–01:15 wraps past midnight to "2h 15m" |
| Schedule.GapLabelExamples | components/Timeline.tsx:29-35 | one example each: 20, 90 and 120 minutes give "20min", "1h 30min" and "2h", with a suffix unlike the duration's |
| Schedule.LabelSplit | components/Timeline.tsx:22-26 | a label is its leading number followed by a non-digit tail, which starts with 'h' exactly when the total is at least an hour |
| Schedule.HoursMinutesLabelInjective | components/Timeline.tsx:22-35 | distinct non-negative totals get distinct labels |
| Schedule.DurationLabelInjective | components/Timeline.tsx:17-26 | equal duration badges on real times of day mean equal durations |
| Schedule.FormatGapInjective | components/Timeline.tsx:29-35 | equal gap labels mean equal gaps |
| Schedule.HourMarkIffAnHour | components/Timeline.tsx:22-35 | a label mentions hours exactly when the total is at least 60 minutes, so it never reads "0h" |
| Schedule.CalculateTimeProgress | components/Timeline.tsx:45-55 | progress is in [0, 100]: exactly 0 before the start, exactly 100 once the end is reached, and otherwise below 100 with progress·(end − start) = (now − start)·100 |
| Schedule.FractionBelowOne | components/Timeline.tsx:54 | the division runs only with 0 ≤ elapsed < length, so it lies in [0, 1) |
| Schedule.ProgressMonotone | components/Timeline.tsx:45-55 | for a fixed activity, progress never decreases as the time advances |
| Schedule.QuotientMonotone | components/Timeline.tsx:54 | a larger elapsed time over the same length gives a larger fraction |
| Schedule.ProgressAllOrNothing | components/Timeline.tsx:52-53 | when the end is not after the start, progress is only ever 0 or 100 |
| Decimal.NatToString | components/Timeline.tsx:24 | `${n}` is a non-empty digit string without a leading zero |
| Decimal.IntToString | components/Timeline.tsx:24-26 | `${i}` reads back as i: a digit string of value i when i ≥ 0, and otherwise '-' followed by a digit string of value −i |
| Decimal.NatToStringRoundTrip | components/Timeline.tsx:24 | reading back the text of n gives n |
| Decimal.NatToStringInjective | components/Timeline.tsx:24 | distinct numbers have distinct texts |
| Decimal.LeadingZero | App.tsx:34 | a leading '0' does not change the value of a digit string |
| Decimal.Pad2 | App.tsx:34 | `padStart(2, '0')` gives at least two digits, exactly two below 100, and still reads back as n |
| Decimal.Pad2Injective | App.tsx:34 | distinct numbers pad to distinct texts |
| Decimal.DigitRunUnique | App.tsx:34 | a run of digits followed by a non-digit splits only one way |
| Timeline.Render | components/Timeline.tsx:99-108 | one card per activity in order. The first card's gap is 0, and every other gap is `calculateGap(prev.endTime, act.startTime)`. The gap chip shows exactly when the gap is above 0. Distance is null exactly when there is no position, and the bearing is then 0. The distance chip shows exactly when there is a distance and the activity is not completed. Progress stays in [0, 100]. |
| Timeline.CardAt | components/Timeline.tsx:99-140 | one card: the first has no gap and no chip; the chip shows exactly when the gap is above 0; distance is null exactly without a position; the distance chip shows exactly with a distance on an activity not completed; progress is in [0, 100] and the bar is grey exactly at 100; real times of day give a non-empty duration badge |
| Timeline.GapChipIffNotBackToBack | components/Timeline.tsx:100-108 | on real times of day every gap lies within a day, and the chip is missing exactly between back-to-back activities |
| Timeline.ScheduleIndependentOfPositionAndCompletion | components/Timeline.tsx:99-104 | gap, chip, progress and duration do not depend on the position or on the completion flags |
| Timeline.BackToBackAtHalfPast | components/Timeline.tsx:122 | at 10:30, 09:00–10:00 is at 100 (grey bar) and 10:00–11:00 is at 50, with no gap chip |
| App.ToggleCompleted | App.tsx:77 | length and ids are kept; `completed` flips exactly on entries with the id; every other field is unchanged |
| App.ToggleTwiceRestores | App.tsx:77 | toggling the same id twice restores the itinerary |
| App.ToggleUnknownIdIsIdentity | App.tsx:77 | toggling an id no activity carries changes nothing |
| App.TogglesCommute | App.tsx:77 | two toggles give the same itinerary in either order |
| App.CountdownParts | App.tsx:31-33 | for diff > 0, mn and sc are in [0, 59] and hr·3600000 + mn·60000 + sc·1000 ≤ diff < that sum + 1000 |
| App.ModOfMod | App.tsx:32-33 | `diff % 60000` equals `(diff % 3600000) % 60000` |
| App.CountdownPartsOfSeconds | App.tsx:31-33 | the three parts are the hours, minutes and seconds of the whole seconds left |
| App.HmsText | App.tsx:34 | the text starts with a digit and ends in 's', and has exactly 11 characters when every part is below 100 |
| App.CountdownText | App.tsx:28-33 | the text is "¡A BORDO!" exactly when diff ≤ 0, and has exactly 11 characters when under 100 hours remain |
| App.SplitAfterPad | App.tsx:34 | a padded number followed by a two-character separator splits only one way |
| App.HmsTextInjective | App.tsx:34 | distinct parts give distinct "HHh MMm SSs" texts |
| App.CountdownTextIff | App.tsx:28-35 | two differences show the same text exactly when both are ≤ 0, or both are positive and leave the same whole seconds |
| App.CountdownExamples | App.tsx:28-35 | 0 and −5 give "¡A BORDO!", 3723000 gives "01h 02m 03s", and 999 gives "00h 00m 00s" |
| App.PlayAudioFlips | App.tsx:51-64 | `handlePlayAudio` is a no-op without audio text; otherwise it flips only `isPlaying`, and pressing it twice restores the state |
| App.CloseAudioGuideResets | App.tsx:96 | closing the modal leaves `isPlaying` false and no activity open, and changes nothing else |
| App.LocateAndImageClick | App.tsx:77 | `onLocate(c)` sets the map focus to c and the tab to the map; `onImageClick(url)` opens that image |
| App.Step | App.tsx:51-146 | only a toggle changes the itinerary, only `onLocate` the map focus, and no handler breaks "audio plays only while the modal is open" |
| App.AudioInvariantAlwaysHolds | App.tsx:51-96 | if audio plays only while the modal is open, that stays true after any sequence of events |
| App.InitialAudioInvariant | App.tsx:18-20 | the same holds from the initial state |
| App.ItineraryOnlyChangesByToggles | App.tsx:77 | events other than toggles never change the itinerary |
| App.GuidePropsAsWritten | App.tsx:86 | the guide screen receives the position and no itinerary |
| App.GuidePdfFailsAsWritten | components/Guide.tsx:99 | with those props the PDF handler always throws |
| App.GuidePropsCorrected | components/Guide.tsx:11-14 | the props as the guide declares them, with the itinerary passed |
| App.GuidePdfLaysOutItinerary | components/Guide.tsx:76-168 | with the itinerary passed, the PDF lays out the current itinerary: one placement per activity, one footer per page |
| App.AppState.constructor | App.tsx:13-20 | the `useState` initial values |
| App.AppState.ToggleComplete | App.tsx:77 | the new state is `Step` on the toggle: only the itinerary changes, as `ToggleCompleted` says |
| App.AppState.Locate | App.tsx:77 | the new state sets the map focus and the map tab |
| App.AppState.OpenAudioGuide | App.tsx:77 | the new state opens the activity's audio modal |
| App.AppState.ImageClick | App.tsx:77 | the new state opens the image |
| App.AppState.CloseImage | App.tsx:127 | the new state closes the image |
| App.AppState.PlayAudio | App.tsx:51-64 | the new state is `Step` on `PlayAudio`, which `PlayAudioFlips` describes |
| App.AppState.SpeechEnded | App.tsx:61 | the new state has `isPlaying` false |
| App.AppState.CloseAudioGuide | App.tsx:96 | the new state is `Step` on closing, which `CloseAudioGuideResets` describes |
| App.AppState.SelectTab | App.tsx:146 | the new state has that tab |
| App.AppState.Tick | App.tsx:23-35 | the new countdown is `CountdownText(diff)` |
| App.AppState.PositionUpdate | App.tsx:39-44 | the new state holds the fix as the position |
| Guide.GetWeatherIcon | components/Guide.tsx:50-56 | exactly one icon per code: ≤1 sun, ≤3 cloud, ≤67 rain, ≤99 lightning, otherwise wind |
| Guide.WeatherIconMonotone | components/Guide.tsx:50-56 | a higher code never gets an icon earlier in the threshold order |
| Guide.HourlyFrom | components/Guide.tsx:213-230 | from an index on, a card for exactly the entries in the window, in increasing index order, each with its icon |
| Guide.HourlyForecast | components/Guide.tsx:213-230 | an entry gets a card exactly when −1 h ≤ its time − now ≤ 12 h; cards are in array order with their icons |
| Guide.DailyForecast | components/Guide.tsx:241-252 | at most the first five days, all of them when fewer, in order, each with its icon |
| Guide.DailyIgnoresLaterDays | components/Guide.tsx:241 | days after the fifth never change the list |
| Guide.ItemHeight | components/Guide.tsx:126-155 | an item advances the cursor by at least 18 plus 4 per description line, and by 2 + 4 per tip line more when it has key details |
| Guide.PlaceNext | components/Guide.tsx:101-104 | the item stays on the current page or opens exactly one more, it opens one exactly when it breaks, and without a break it starts above the break line |
| Guide.CursorAfter | components/Guide.tsx:96-155 | after n items there are between 1 and n + 1 pages, and after at least one item the cursor is at least 38 |
| Guide.Placements | components/Guide.tsx:99-156 | one placement per item, and item k sits on a page from 1 to k + 2 |
| Guide.PdfSpec | components/Guide.tsx:76-168 | one placement per item, between 1 and n + 1 pages, and one footer per page numbered 1, 2, … in order |
| Guide.LayoutPdf | components/Guide.tsx:96-165 | the cursor loop and the footer loop compute `PdfSpec`: the placements, the page count and the footers |
| Guide.PagesAreOnePlusBreaks | components/Guide.tsx:99-159 | every item is placed exactly once, and the page count is 1 plus the number of breaks |
| Guide.PlacementsPrefix | components/Guide.tsx:99-156 | laying out more items never moves those already placed |
| Guide.PlacementRule | components/Guide.tsx:96-155 | an item opens a fresh page at y = 20, one page on, exactly when the cursor left by the previous item is past pageHeight − 30. Otherwise it starts at that cursor on the same page. The cursor starts at 40 and each item advances it by 5 + 5 + 4·description lines, plus 2 + 4·tip lines when there are key details, plus 8. |
| Guide.PlacedAfterPrefix | components/Guide.tsx:99-104 | item k is placed by the break check on the cursor the first k items leave |
| Guide.CursorBelowPrevious | components/Guide.tsx:126-155 | that cursor sits one item height below item k − 1 |
| Guide.ItemsStartAboveBreakLine | components/Guide.tsx:101-104 | no item starts below the break line unless it opens a fresh page |
| Guide.FooterLabelsEveryPageOnce | components/Guide.tsx:159-165 | one footer for each page 1..n, numbered in order, no two alike |
| Guide.FooterTextInjective | components/Guide.tsx:164 | "Página p de n" differs for different p |
| Guide.PdfFromProps | components/Guide.tsx:76-168 | the handler throws exactly when the itinerary prop is absent, and otherwise gives `PdfSpec` for it |
| Guide.HandleDownloadPdf | components/Guide.tsx:76-168 | the handler's result is `PdfFromProps` |
| Guide.PronunciationPlayer.constructor | components/Guide.tsx:17 | nothing is playing at first |
| Guide.PronunciationPlayer.Play | components/Guide.tsx:58-64 | `play(word)` marks that word as playing |
| Guide.PronunciationPlayer.UtteranceEnded | components/Guide.tsx:61 | the utterance's end clears the flag |
| MapLayers.ApplyAllLog | components/MapComponent.tsx:19-114 | the log records exactly the calls made, in order |
| MapLayers.ApplyAllAppend | components/MapComponent.tsx:34-69 | running two call sequences one after the other is running their concatenation |
| MapLayers.RemovesEffect | components/MapComponent.tsx:35 | removing layers takes exactly those off the map, and changes nothing else |
| MapLayers.AddsEffect | components/MapComponent.tsx:39-69 | creating layers under fresh handles puts each one on the map at its handle, and keeps every older layer |
| MapLayers.AddsNext | components/MapComponent.tsx:42-68 | creating layers moves the next handle past them and keeps the view |
| MapLayers.AddsKeepOlder | components/MapComponent.tsx:42-68 | older layers are kept, and no handle outside the new range is created |
| MapLayers.AddsPlace | components/MapComponent.tsx:42-68 | each created layer sits at its handle |
| MapLayers.AddsOnMap | components/MapComponent.tsx:42-68 | the created layers are on the map, and nothing else is added there |
| MapLayers.Radius | components/MapComponent.tsx:80-83 | the radius expression is the accuracy, or 0 when absent |
| MapLayers.DesiredLayers | components/MapComponent.tsx:39-69 | one layer per activity, one per waypoint and one more: the activity markers at their coordinates in order, then the waypoint markers in order, then the route |
| MapLayers.InitEffect | components/MapComponent.tsx:19-23 | a map exists afterwards exactly when one existed or a container is mounted; the other refs are kept; without a container or with a map, nothing changes |
| MapLayers.CleanupEffect | components/MapComponent.tsx:24-27 | afterwards there is no map; the other refs are kept; a map that existed is destroyed with one `map.remove()` call, leaving no view and nothing shown |
| MapLayers.RebuildEffect | components/MapComponent.tsx:30-70 | the map and the two singleton refs are kept; without a map nothing changes; with one, the tracked list is one fresh consecutive handle per activity, per waypoint and for the route |
| MapLayers.LocationEffect | components/MapComponent.tsx:72-108 | the map and the tracked list are kept; without a map or a position nothing changes; otherwise both singleton refs are set, and a ref already set keeps its handle |
| MapLayers.FocusEffect | components/MapComponent.tsx:110-114 | only the map's view and call log may change; the refs and every layer are kept |
| MapLayers.InitialConsistent | components/MapComponent.tsx:14-17 | the refs' initial values are consistent |
| MapLayers.InitCreatesOnce | components/MapComponent.tsx:19-27 | a map is created exactly when there is a container and no map, centred on Genoa at zoom 14 with only its tiles shown. A second run is a no-op. Cleanup leaves no map and nothing shown. |
| MapLayers.RebuildWithoutMap | components/MapComponent.tsx:31-32 | the rebuild is a no-op while there is no map |
| MapLayers.RebuildRemovesFirst | components/MapComponent.tsx:35-69 | the rebuild first removes every tracked layer in order, and only adds after that |
| MapLayers.RebuildParts | components/MapComponent.tsx:35-69 | the rebuild is the removal step and then the creation step; removal keeps the layers and takes the tracked ones off the map |
| MapLayers.RebuildSummary | components/MapComponent.tsx:34-69 | the rebuilt state tracks fresh handles holding the new layers, keeps every older layer, and shows what it showed less the tracked layers plus the new ones |
| MapLayers.LayoutOfRebuilt | components/MapComponent.tsx:35-69 | after such a rebuild the tracked list holds the new layers, in order and on the map, and the old tracked layers are off it |
| MapLayers.RebuildLayout | components/MapComponent.tsx:39-69 | the tracked list holds one layer per activity, one per waypoint and the route, all on the map: an activity marker per activity at its coordinates, in order; then a waypoint marker per waypoint, in order; then the route. No previously tracked layer is still shown. |
| MapLayers.RebuildKeepsUserLayers | components/MapComponent.tsx:15-69 | the rebuild keeps the user marker and the accuracy circle: same refs, same geometry, shown exactly when they were |
| MapLayers.UserLayersOfRebuilt | components/MapComponent.tsx:15-69 | the same, for any state the rebuild summary describes |
| MapLayers.ConsistentOfRebuilt | components/MapComponent.tsx:34-69 | a rebuild that creates only tracked kinds of layer keeps the state consistent |
| MapLayers.RebuildPreservesConsistent | components/MapComponent.tsx:30-70 | the rebuild keeps the refs and Leaflet consistent: at most one circle and one user marker, and tracked refs to distinct tracked layers |
| MapLayers.LocationNoOp | components/MapComponent.tsx:74 | without a map or a position, the location effect does nothing |
| MapLayers.LocationCallsInOrder | components/MapComponent.tsx:78-107 | the calls are the circle step, then the marker step |
| MapLayers.LocationWorld | components/MapComponent.tsx:76-107 | the circle and the marker are set to the fix. New ones get the next handles and are shown. |
| MapLayers.LocationPlacesSingletons | components/MapComponent.tsx:78-107 | after a fix both refs are set and the tracked list is unchanged. The circle sits at the position with the accuracy, or 0, as radius, and the marker at the position. A layer is created only when its ref was empty; otherwise the same one is moved. |
| MapLayers.LocationPreservesConsistent | components/MapComponent.tsx:72-108 | the location effect keeps the state consistent, so at most one circle and one user marker ever exist |
| MapLayers.InitAndCleanupPreserveConsistent | components/MapComponent.tsx:19-27 | the mount effect and its cleanup keep the state consistent |
| MapLayers.FocusIff | components/MapComponent.tsx:110-114 | the map flies to the location at zoom 16 exactly when there is a map and a location. No other call is made, nothing else changes, and the state stays consistent. |
| MapLayers.MapView.constructor | components/MapComponent.tsx:14-17 | the refs start empty |
| MapLayers.MapView.Init | components/MapComponent.tsx:19-23 | the new state is `InitEffect` of the old, and stays consistent |
| MapLayers.MapView.Cleanup | components/MapComponent.tsx:24-27 | the new state is `CleanupEffect` of the old, and stays consistent |
| MapLayers.MapView.Rebuild | components/MapComponent.tsx:30-70 | the new state is `RebuildEffect` of the old, and stays consistent |
| MapLayers.MapView.RemoveTracked | components/MapComponent.tsx:35-36 | every tracked layer is removed in order, and the list is emptied |
| MapLayers.MapView.AddLayers | components/MapComponent.tsx:39-69 | each layer is added under the next handle and pushed on the tracked list, in order |
| MapLayers.MapView.AddLayer | components/MapComponent.tsx:42-55 | one layer is added under the next handle and tracked |
| MapLayers.MapView.UpdateUserLocation | components/MapComponent.tsx:72-108 | the new state is `LocationEffect` of the old, and stays consistent |
| MapLayers.MapView.Focus | components/MapComponent.tsx:110-114 | the new state is `FocusEffect` of the old, and stays consistent |

## Left out

- Great-circle distance and bearing (components/Timeline.tsx:58-89) are floating-point trigonometry. They are function parameters, so the model states only when a distance is present.
- The km/m distance label (components/Timeline.tsx:148-150) uses `toFixed` and `Math.round`, so it is not modelled.
- "HH:MM" parsing with `split(':').map(Number)` is not modelled. Times enter as two integers, and a malformed string (NaN in JavaScript) has no counterpart.
- Schedule.CalculateDuration and Schedule.FormatGap claim no label property on out-of-range clock values (negative minutes). There the JavaScript `%` is modelled by `JsRem`, but the text can begin with '-'.
- JavaScript numbers are doubles. Minute and millisecond counts are unbounded `int` here, which doubles hold exactly below 2^53.
- Schedule.CalculateTimeProgress: the percentage is an exact `real`, so the rounding of the double division and multiplication at components/Timeline.tsx:54 is not modelled. Its equation progress·(end − start) = (now − start)·100 holds of the model only. The [0, 100] bounds and the exact 0 and 100 cases do not depend on rounding: the source returns those constants directly and clamps the ratio with `Math.min` and `Math.max`.
- Clocks are parameters:
  - the current minute of the day in components/Timeline.tsx:46-47;
  - boarding time less now in App.tsx:24-28;
  - forecast time less now in components/Guide.tsx:214-217.
- The one-second interval, the `watchPosition` subscription and the interval cleanup are not modelled as processes; ticks and fixes are events (App.tsx:22-49). The geolocation error callback is null, and the position is never cleared, so the model has no event that clears it.
- The `watchPosition` subscription (App.tsx:39) is never released: the effect's cleanup (App.tsx:48) only clears the interval, and there is no `clearWatch`. The model has no unmount step for App, so it does not show this.
- Speech synthesis (`speak`, `cancel`, utterance settings) is not modelled. Only the `isPlaying` and `playing` flags are.
- The weather fetch and its error handling (components/Guide.tsx:21-48), the SOS link (components/Guide.tsx:66-69) and `Intl.DateTimeFormat` day names (components/Guide.tsx:71-74) are external calls, so they are not modelled.
- The hourly `{hour}:00` label and `Math.round` temperatures (components/Guide.tsx:215, 223-225, 248-249) are floating-point display, so they are not modelled.
- jsPDF drawing calls (fonts, colours, lines, circles, text positions) and `doc.save` are not modelled. Line counts from `splitTextToSize` and the page height are parameters.
- Leaflet popups, icons, tile URL and the `flyTo` animation are not modelled. A layer keeps only its kind and geometry, and `flyTo` sets the view at once.
- The three creation loops of components/MapComponent.tsx:39-69 (activities, waypoints, route) are modelled as one loop (`MapView.AddLayers`) over `DesiredLayers`. That list holds the same layers in the same order, so the calls and the tracked list are the same.
- The unmount cleanup resets only the map instance, as in the source; the tracked list and the two singleton refs keep handles to layers of the removed map.
- React's own scheduling is not modelled: re-rendering, effect ordering between components, batching of state updates and stale closures. Each handler and effect is one atomic step.
- JSX, CSS, the budget tab's static text and the `CRITICAL` note styling are presentation, so they are not modelled.
- The constants file is not part of this model. The initial itinerary, GPX waypoints, route, boarding time and the pronunciation list are parameters.

## Findings

| source | as written | input that shows it | evidently intended | confidence | as-written member | corrected member |
|---|---|---|---|---|---|---|
| App.tsx:86 | The guide screen is rendered with only `userLocation`. Its `itinerary` prop is declared required (components/Guide.tsx:13), and `handleDownloadPDF` iterates it (components/Guide.tsx:99). | Open the guide tab and press the PDF button: `itinerary` is undefined and `forEach` throws. | Pass `itinerary={itinerary}` so the PDF lays out the current itinerary. | not executed | App.GuidePdfFailsAsWritten | App.GuidePdfLaysOutItinerary |
