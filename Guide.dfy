/** The logic of components/Guide.tsx: the weather-code classification, the
    hourly and five-day forecast windows, the page layout of the itinerary
    PDF, and the pronunciation player's `playing` flag. Fetching the
    forecast, parsing its dates, jsPDF's drawing calls and speech synthesis
    are outside the model; the PDF layout keeps only the vertical cursor, the
    page breaks and the footer. */
module Guide {
  import opened Types
  import opened Decimal

  // ---------------------------------------------------------------------
  // Weather icons

  datatype WeatherIcon = Sun | Cloud | CloudRain | CloudLightning | Wind

  /** `getWeatherIcon(code)`: the first threshold the code does not exceed
      picks the icon; codes above 99 are wind. */
  function GetWeatherIcon(code: int): (icon: WeatherIcon)
    ensures icon == Sun <==> code <= 1
    ensures icon == Cloud <==> 1 < code <= 3
    ensures icon == CloudRain <==> 3 < code <= 67
    ensures icon == CloudLightning <==> 67 < code <= 99
    ensures icon == Wind <==> 99 < code
  {
    if code <= 1 then Sun
    else if code <= 3 then Cloud
    else if code <= 67 then CloudRain
    else if code <= 99 then CloudLightning
    else Wind
  }

  /** The position of an icon in the threshold order. */
  function Severity(icon: WeatherIcon): nat
  {
    match icon
    case Sun => 0
    case Cloud => 1
    case CloudRain => 2
    case CloudLightning => 3
    case Wind => 4
  }

  /** Higher codes never get an icon earlier in the threshold order. */
  lemma WeatherIconMonotone(code1: int, code2: int)
    requires code1 <= code2
    ensures Severity(GetWeatherIcon(code1)) <= Severity(GetWeatherIcon(code2))
  {
  }

  /** The icon for entry `i` of a forecast's code array. Reading past the end
      gives `undefined`, every comparison with which is false, so the icon is
      wind. */
  function IconAt(codes: seq<int>, i: nat): WeatherIcon
  {
    if i < |codes| then GetWeatherIcon(codes[i]) else Wind
  }

  // ---------------------------------------------------------------------
  // Forecast windows

  const HourMs := 1000 * 60 * 60

  /** `diffHrs >= -1 && diffHrs <= 12`, with the difference in whole milliseconds. */
  predicate InHourlyWindow(diffMs: int)
  {
    -HourMs <= diffMs <= 12 * HourMs
  }

  datatype HourlyCard = HourlyCard(index: nat, icon: WeatherIcon)

  function CardIndices(cards: seq<HourlyCard>): seq<nat>
  {
    seq(|cards|, k requires 0 <= k < |cards| => cards[k].index)
  }

  /** The hourly strip from entry `from` on: a card, in array order, for every
      entry from one hour ago up to twelve hours ahead; `null` for the rest. */
  function HourlyFrom(timesMs: seq<int>, codes: seq<int>, nowMs: int, from: nat): (cards: seq<HourlyCard>)
    requires from <= |timesMs|
    ensures forall i :: i in CardIndices(cards) <==> from <= i < |timesMs| && InHourlyWindow(timesMs[i] - nowMs)
    ensures forall k :: 0 <= k < |cards| ==> cards[k].icon == IconAt(codes, cards[k].index)
    ensures forall k, l :: 0 <= k < l < |cards| ==> cards[k].index < cards[l].index
    ensures forall k :: 0 <= k < |cards| ==> from <= cards[k].index
    decreases |timesMs| - from
  {
    if from == |timesMs| then []
    else
      var rest := HourlyFrom(timesMs, codes, nowMs, from + 1);
      if InHourlyWindow(timesMs[from] - nowMs) then
        var cards := [HourlyCard(from, IconAt(codes, from))] + rest;
        assert CardIndices(cards) == [from] + CardIndices(rest);
        assert forall k :: 0 < k < |cards| ==> cards[k] == rest[k - 1];
        cards
      else rest
  }

  /** `weather.hourly.time.map(...)` with the current time as a parameter. */
  function HourlyForecast(timesMs: seq<int>, codes: seq<int>, nowMs: int): (cards: seq<HourlyCard>)
    ensures forall i :: i in CardIndices(cards) <==> 0 <= i < |timesMs| && InHourlyWindow(timesMs[i] - nowMs)
    ensures forall k, l :: 0 <= k < l < |cards| ==> cards[k].index < cards[l].index
    ensures forall k :: 0 <= k < |cards| ==> cards[k].icon == IconAt(codes, cards[k].index)
  {
    HourlyFrom(timesMs, codes, nowMs, 0)
  }

  datatype DailyRow = DailyRow(day: string, icon: WeatherIcon)

  /** `weather.daily.time.slice(0, 5).map(...)`: the first five days at most, in order. */
  function DailyForecast(days: seq<string>, codes: seq<int>): (rows: seq<DailyRow>)
    ensures |rows| <= 5 && |rows| <= |days|
    ensures |rows| == 5 || |rows| == |days|
    ensures forall i :: 0 <= i < |rows| ==> rows[i].day == days[i] && rows[i].icon == IconAt(codes, i)
  {
    var shown := if |days| <= 5 then days else days[..5];
    seq(|shown|, i requires 0 <= i < |shown| => DailyRow(shown[i], IconAt(codes, i)))
  }

  /** Days after the fifth never change the daily list. */
  lemma DailyIgnoresLaterDays(days: seq<string>, more: seq<string>, codes: seq<int>)
    requires |days| >= 5
    ensures DailyForecast(days + more, codes) == DailyForecast(days, codes)
  {
    var r1, r2 := DailyForecast(days + more, codes), DailyForecast(days, codes);
    assert |r1| == |r2| == 5;
    forall i | 0 <= i < 5 ensures r1[i] == r2[i] {
      assert (days + more)[i] == days[i];
    }
  }

  // ---------------------------------------------------------------------
  // The itinerary PDF

  /** `doc.splitTextToSize(text, 150).length` at a font size: how many lines
      jsPDF wraps a text into. It depends on font metrics and is a parameter. */
  type LineCounter = (string, nat) -> nat

  const HeaderBottom := 40   // `yPos = 40` after the header band
  const TopOfPage := 20      // `yPos = 20` after `doc.addPage()`
  const BottomMargin := 30   // a page break when `yPos > pageHeight - 30`

  /** Where an item's first line is drawn: its page (numbered from 1), its
      vertical position, and whether a new page was started for it. */
  datatype Placement = Placement(page: nat, y: int, broke: bool)

  datatype FooterLabel = FooterLabel(page: nat, text: string)

  datatype PdfLayout = PdfLayout(placements: seq<Placement>, totalPages: nat, footer: seq<FooterLabel>)

  /** The cursor between items: `yPos` and the number of pages so far. */
  datatype Cursor = Cursor(y: int, pages: nat)

  /** How far one item moves `yPos`: title and location lines, four units per
      description line, and, when there are key details, a gap and four units
      per tip line; then the spacing before the next item. */
  function ItemHeight(item: Activity, lines: LineCounter): (h: nat)
    ensures h >= 18 + 4 * lines(item.description, 10)
    ensures item.keyDetails != "" ==> h >= 20 + 4 * lines(item.description, 10) + 4 * lines("Tip: " + item.keyDetails, 9)
  {
    5 + 5 + 4 * lines(item.description, 10)
    + (if item.keyDetails != "" then 2 + 4 * lines("Tip: " + item.keyDetails, 9) else 0)
    + 8
  }

  predicate NeedsBreak(y: int, pageHeight: real)
  {
    y as real > pageHeight - BottomMargin as real
  }

  /** The page-break check before an item. */
  function PlaceNext(c: Cursor, pageHeight: real): (p: Placement)
    ensures c.pages <= p.page <= c.pages + 1
    ensures p.broke <==> p.page == c.pages + 1
    ensures !p.broke ==> !NeedsBreak(p.y, pageHeight)
  {
    if NeedsBreak(c.y, pageHeight) then Placement(c.pages + 1, TopOfPage, true)
    else Placement(c.pages, c.y, false)
  }

  /** The cursor once `items` have been laid out. */
  function CursorAfter(items: seq<Activity>, pageHeight: real, lines: LineCounter): (c: Cursor)
    ensures 1 <= c.pages <= |items| + 1
    ensures items != [] ==> c.y >= TopOfPage + 18
  {
    if items == [] then Cursor(HeaderBottom, 1)
    else
      var p := PlaceNext(CursorAfter(items[..|items| - 1], pageHeight, lines), pageHeight);
      Cursor(p.y + ItemHeight(items[|items| - 1], lines), p.page)
  }

  /** Where each of `items` is placed, in order. */
  function Placements(items: seq<Activity>, pageHeight: real, lines: LineCounter): (ps: seq<Placement>)
    ensures |ps| == |items|
    ensures forall k :: 0 <= k < |ps| ==> 1 <= ps[k].page <= k + 2
  {
    if items == [] then []
    else
      Placements(items[..|items| - 1], pageHeight, lines)
      + [PlaceNext(CursorAfter(items[..|items| - 1], pageHeight, lines), pageHeight)]
  }

  function FooterText(page: nat, total: nat): string
  {
    "Página " + NatToString(page) + " de " + NatToString(total)
  }

  /** One footer per page, 1 to `total`. */
  function FooterLabels(total: nat): seq<FooterLabel>
  {
    seq(total, i requires 0 <= i < total => FooterLabel(i + 1, FooterText(i + 1, total)))
  }

  /** The whole layout of the itinerary PDF. */
  function PdfSpec(items: seq<Activity>, pageHeight: real, lines: LineCounter): (l: PdfLayout)
    ensures |l.placements| == |items|
    ensures 1 <= l.totalPages <= |items| + 1
    ensures |l.footer| == l.totalPages && forall k :: 0 <= k < |l.footer| ==> l.footer[k].page == k + 1
  {
    var c := CursorAfter(items, pageHeight, lines);
    PdfLayout(Placements(items, pageHeight, lines), c.pages, FooterLabels(c.pages))
  }

  /** The cursor arithmetic and footer loop of `handleDownloadPDF`. */
  method LayoutPdf(itinerary: seq<Activity>, pageHeight: real, lines: LineCounter) returns (layout: PdfLayout)
    ensures layout == PdfSpec(itinerary, pageHeight, lines)
  {
    var yPos := TopOfPage;
    yPos := HeaderBottom;
    var pages: nat := 1;
    var placements: seq<Placement> := [];
    for i := 0 to |itinerary|
      invariant Cursor(yPos, pages) == CursorAfter(itinerary[..i], pageHeight, lines)
      invariant placements == Placements(itinerary[..i], pageHeight, lines)
    {
      assert itinerary[..i + 1][..i] == itinerary[..i];
      var item := itinerary[i];
      var broke := false;
      if yPos as real > pageHeight - BottomMargin as real {
        pages := pages + 1;
        yPos := TopOfPage;
        broke := true;
      }
      placements := placements + [Placement(pages, yPos, broke)];
      yPos := yPos + 5;
      yPos := yPos + 5;
      var descLines := lines(item.description, 10);
      yPos := yPos + descLines * 4;
      if item.keyDetails != "" {
        yPos := yPos + 2;
        var detailLines := lines("Tip: " + item.keyDetails, 9);
        yPos := yPos + detailLines * 4;
      }
      yPos := yPos + 8;
    }
    assert itinerary[..|itinerary|] == itinerary;
    var totalPages := pages;
    var footer: seq<FooterLabel> := [];
    for i := 1 to totalPages + 1
      invariant |footer| == i - 1
      invariant forall k :: 0 <= k < i - 1 ==> footer[k] == FooterLabel(k + 1, FooterText(k + 1, totalPages))
    {
      footer := footer + [FooterLabel(i, FooterText(i, totalPages))];
    }
    layout := PdfLayout(placements, totalPages, footer);
  }

  function CountBreaks(ps: seq<Placement>): nat
  {
    if ps == [] then 0 else CountBreaks(ps[..|ps| - 1]) + (if ps[|ps| - 1].broke then 1 else 0)
  }

  /** Every item is placed exactly once, in itinerary order, and the page count
      is one plus the number of page breaks. */
  lemma {:induction false} PagesAreOnePlusBreaks(items: seq<Activity>, pageHeight: real, lines: LineCounter)
    ensures |Placements(items, pageHeight, lines)| == |items|
    ensures CursorAfter(items, pageHeight, lines).pages == 1 + CountBreaks(Placements(items, pageHeight, lines))
  {
    if items != [] {
      var pre := items[..|items| - 1];
      PagesAreOnePlusBreaks(pre, pageHeight, lines);
      var ps := Placements(items, pageHeight, lines);
      assert ps[..|ps| - 1] == Placements(pre, pageHeight, lines);
    }
  }

  /** Placements are a prefix-stable record: laying out more items never moves
      the ones already placed. */
  lemma {:induction false} PlacementsPrefix(items: seq<Activity>, k: nat, pageHeight: real, lines: LineCounter)
    requires k <= |items|
    ensures |Placements(items, pageHeight, lines)| == |items|
    ensures Placements(items[..k], pageHeight, lines) == Placements(items, pageHeight, lines)[..k]
    decreases |items|
  {
    PagesAreOnePlusBreaks(items, pageHeight, lines);
    if k < |items| {
      var pre := items[..|items| - 1];
      assert items[..k] == pre[..k];
      PlacementsPrefix(pre, k, pageHeight, lines);
    } else {
      assert items[..k] == items;
    }
  }

  /** The page-break rule seen from the output: item `k` starts at the top of a
      fresh page exactly when the cursor left by the previous item (or by the
      header) is past the break line, and then only one page further on;
      otherwise it starts where that cursor stands, on the same page. */
  lemma PlacementRule(items: seq<Activity>, k: nat, pageHeight: real, lines: LineCounter)
    requires k < |items|
    ensures |Placements(items, pageHeight, lines)| == |items|
    ensures var p := Placements(items, pageHeight, lines)[k];
            var before := if k == 0 then Cursor(HeaderBottom, 1)
                          else var q := Placements(items, pageHeight, lines)[k - 1];
                               Cursor(q.y + ItemHeight(items[k - 1], lines), q.page);
            && (p.broke <==> NeedsBreak(before.y, pageHeight))
            && (p.broke ==> p.y == TopOfPage && p.page == before.pages + 1)
            && (!p.broke ==> p.y == before.y && p.page == before.pages)
  {
    PlacedAfterPrefix(items, k, pageHeight, lines);
    if k > 0 {
      CursorBelowPrevious(items, k, pageHeight, lines);
    }
  }

  /** Item `k` is placed by the break check on the cursor the first `k` items leave. */
  lemma PlacedAfterPrefix(items: seq<Activity>, k: nat, pageHeight: real, lines: LineCounter)
    requires k < |items|
    ensures |Placements(items, pageHeight, lines)| == |items|
    ensures Placements(items, pageHeight, lines)[k] == PlaceNext(CursorAfter(items[..k], pageHeight, lines), pageHeight)
  {
    PlacementsPrefix(items, k + 1, pageHeight, lines);
    var pre := items[..k + 1];
    assert pre[..|pre| - 1] == items[..k];
  }

  /** The cursor the first `k` items leave sits one item height below where item `k - 1` was placed. */
  lemma CursorBelowPrevious(items: seq<Activity>, k: nat, pageHeight: real, lines: LineCounter)
    requires 0 < k <= |items|
    ensures |Placements(items, pageHeight, lines)| == |items|
    ensures var q := Placements(items, pageHeight, lines)[k - 1];
            CursorAfter(items[..k], pageHeight, lines) == Cursor(q.y + ItemHeight(items[k - 1], lines), q.page)
  {
    PlacedAfterPrefix(items, k - 1, pageHeight, lines);
    var pk := items[..k];
    assert pk[..|pk| - 1] == items[..k - 1];
    assert pk[|pk| - 1] == items[k - 1];
  }

  /** No item starts below the break line unless it opens a fresh page. */
  lemma ItemsStartAboveBreakLine(items: seq<Activity>, k: nat, pageHeight: real, lines: LineCounter)
    requires k < |items|
    ensures |Placements(items, pageHeight, lines)| == |items|
    ensures var p := Placements(items, pageHeight, lines)[k];
            p.broke || p.y as real <= pageHeight - BottomMargin as real
  {
    PlacementRule(items, k, pageHeight, lines);
  }

  /** The footer writes "Página i de n" on every page i from 1 to n, and no two
      pages get the same label. */
  lemma FooterLabelsEveryPageOnce(total: nat)
    ensures |FooterLabels(total)| == total
    ensures forall i :: 0 <= i < total ==> FooterLabels(total)[i].page == i + 1
    ensures forall i, j :: 0 <= i < j < total ==> FooterLabels(total)[i].text != FooterLabels(total)[j].text
  {
    var f := FooterLabels(total);
    forall i, j | 0 <= i < j < total ensures f[i].text != f[j].text {
      FooterTextInjective(i + 1, j + 1, total);
    }
  }

  /** Two pages of the same document never get the same footer. */
  lemma FooterTextInjective(p: nat, q: nat, total: nat)
    ensures FooterText(p, total) == FooterText(q, total) ==> p == q
  {
    if FooterText(p, total) == FooterText(q, total) {
      var pre := "Página ";
      var rest := " de " + NatToString(total);
      assert FooterText(p, total) == pre + (NatToString(p) + rest);
      assert FooterText(q, total) == pre + (NatToString(q) + rest);
      assert (pre + (NatToString(p) + rest))[|pre|..] == NatToString(p) + rest;
      assert (pre + (NatToString(q) + rest))[|pre|..] == NatToString(q) + rest;
      DigitRunUnique(NatToString(p), rest, NatToString(q), rest);
      NatToStringInjective(p, q);
    }
  }

  /** The props the guide screen declares: `itinerary` is required, and an
      absent prop arrives as `undefined` (None here). */
  datatype GuideProps = GuideProps(userLocation: Option<UserLocation>, itinerary: Option<seq<Activity>>)

  const UndefinedForEach := "TypeError: Cannot read properties of undefined (reading 'forEach')"

  /** What clicking the PDF button produces: the layout, or the error thrown
      when `itinerary.forEach` runs on `undefined`. */
  function PdfFromProps(props: GuideProps, pageHeight: real, lines: LineCounter): (r: Result<PdfLayout, string>)
    ensures r.Failure? <==> props.itinerary.None?
    ensures props.itinerary.Some? ==> r == Success(PdfSpec(props.itinerary.value, pageHeight, lines))
  {
    match props.itinerary
    case None => Failure(UndefinedForEach)
    case Some(items) => Success(PdfSpec(items, pageHeight, lines))
  }

  /** `handleDownloadPDF` on the screen's props. */
  method HandleDownloadPdf(props: GuideProps, pageHeight: real, lines: LineCounter) returns (r: Result<PdfLayout, string>)
    ensures r == PdfFromProps(props, pageHeight, lines)
  {
    if props.itinerary.None? {
      return Failure(UndefinedForEach);
    }
    var layout := LayoutPdf(props.itinerary.value, pageHeight, lines);
    return Success(layout);
  }

  // ---------------------------------------------------------------------
  // Pronunciation player

  /** The guide screen's `playing` state. */
  class PronunciationPlayer {
    var playing: Option<string>

    constructor ()
      ensures playing == None
    {
      playing := None;
    }

    /** `play(word)`: marks the word as playing and starts speaking it. */
    method Play(word: string)
      modifies this
      ensures playing == Some(word)
    {
      playing := Some(word);
    }

    /** The utterance's `onend`: clears the flag, whichever word it was for. */
    method UtteranceEnded()
      modifies this
      ensures playing == None
    {
      playing := None;
    }
  }
}
