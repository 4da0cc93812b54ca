/** The schedule arithmetic of components/Timeline.tsx: minutes between two
    clock times with the midnight wrap-around, the two duration labels built
    from them, and the progress of an activity against the current minute. */
module Schedule {
  import opened Types
  import opened Decimal

  const MinutesPerDay := 24 * 60

  /** JavaScript's `a % b` for a positive `b`: it truncates toward zero, so the
      remainder has the sign of `a` (Dafny's `%` never goes negative). */
  function JsRem(a: int, b: int): (r: int)
    requires b > 0
    ensures a >= 0 ==> 0 <= r < b
    ensures a < 0 ==> -b < r <= 0
    ensures (a - r) % b == 0
  {
    if a >= 0 then
      var q := a / b;
      MultipleMod(b, q);
      assert a - a % b == b * q;
      a % b
    else
      var q := (-a) / b;
      MultipleMod(b, -q);
      assert a - -((-a) % b) == b * -q;
      -((-a) % b)
  }

  /** Multiplying by a positive `b` keeps a nonzero factor at least `b` away from zero. */
  lemma {:induction false} MulAwayFromZero(b: int, j: int)
    requires b > 0
    ensures j >= 1 ==> b * j >= b
    ensures j <= -1 ==> b * j <= -b
    decreases if j >= 0 then j else -j
  {
    if j > 1 {
      MulAwayFromZero(b, j - 1);
      assert b * j == b * (j - 1) + b;
    } else if j < -1 {
      MulAwayFromZero(b, j + 1);
      assert b * j == b * (j + 1) - b;
    }
  }

  /** A multiple of `b` leaves no remainder. */
  lemma MultipleMod(b: int, k: int)
    requires b > 0
    ensures (b * k) % b == 0
  {
    var q, m := (b * k) / b, (b * k) % b;
    assert b * k == b * q + m;
    assert m == b * (k - q);
    MulAwayFromZero(b, k - q);
  }

  /** `Math.floor(a / b)` for a positive `b`; Dafny's `/` already rounds down then. */
  function FloorDiv(a: int, b: int): (q: int)
    requires b > 0
    ensures b * q <= a < b * q + b
  {
    a / b
  }

  /** The difference both `calculateDuration` and `calculateGap` compute: the
      minute of day of `to` less that of `from`, plus a whole day when negative.
      On real times of day it is the number of minutes a clock moves forward
      from `from` until it shows `to`. */
  function MinutesBetween(from: Clock, to: Clock): (d: int)
    ensures (from.MinuteOfDay() + d) % MinutesPerDay == to.MinuteOfDay() % MinutesPerDay
    ensures from.Valid() && to.Valid() ==> 0 <= d < MinutesPerDay
  {
    var diff := to.MinuteOfDay() - from.MinuteOfDay();
    if diff < 0 then diff + MinutesPerDay else diff
  }

  /** On real times of day the wrapped difference is the only one in a day's
      range that brings `from` round to `to`. */
  lemma MinutesBetweenUnique(from: Clock, to: Clock, k: int)
    requires from.Valid() && to.Valid()
    requires 0 <= k < MinutesPerDay
    requires (from.MinuteOfDay() + k) % MinutesPerDay == to.MinuteOfDay()
    ensures k == MinutesBetween(from, to)
  {
    var f, t := from.MinuteOfDay(), to.MinuteOfDay();
    if f + k < MinutesPerDay {
      assert (f + k) % MinutesPerDay == f + k;
    } else {
      assert (f + k) % MinutesPerDay == f + k - MinutesPerDay;
    }
  }

  /** `calculateGap(prevEnd, nextStart)`: minutes from the end of one activity
      to the start of the next. */
  function CalculateGap(prevEnd: Clock, nextStart: Clock): (gap: int)
    ensures prevEnd.Valid() && nextStart.Valid() ==> 0 <= gap < MinutesPerDay
  {
    MinutesBetween(prevEnd, nextStart)
  }

  /** The gap is zero exactly when the next activity starts at the minute the
      previous one ends. */
  lemma GapZeroIffBackToBack(prevEnd: Clock, nextStart: Clock)
    requires prevEnd.Valid() && nextStart.Valid()
    ensures CalculateGap(prevEnd, nextStart) == 0 <==> prevEnd == nextStart
  {
  }

  lemma GapExamples()
    ensures CalculateGap(Clock(23, 50), Clock(0, 10)) == 20
    ensures CalculateGap(Clock(10, 0), Clock(10, 0)) == 0
  {
  }

  /** The label shape shared by `calculateDuration` and `formatGap`: hours are
      `Math.floor(mins / 60)` and minutes `mins % 60`; a zero part is left out,
      and a total under an hour shows only the minutes. */
  function HoursMinutesLabel(mins: int, bothSuffix: string, minutesOnlySuffix: string): (text: string)
    ensures mins >= 0 ==> |text| > 0 && IsDigit(text[0])
  {
    var hours := FloorDiv(mins, 60);
    var minutes := JsRem(mins, 60);
    if hours > 0 && minutes > 0 then IntToString(hours) + "h " + IntToString(minutes) + bothSuffix
    else if hours > 0 then IntToString(hours) + "h"
    else IntToString(minutes) + minutesOnlySuffix
  }

  /** `calculateDuration(start, end)`: "Xh Ym", "Xh" or "Y min". Between real
      times of day it starts with a digit and mentions hours exactly when the
      activity lasts an hour or more; equal times give "0 min". */
  function CalculateDuration(start: Clock, end: Clock): (text: string)
    ensures start.Valid() && end.Valid() ==>
              |text| > 0 && IsDigit(text[0]) && ('h' in text <==> MinutesBetween(start, end) >= 60)
    ensures start.MinuteOfDay() == end.MinuteOfDay() ==> text == "0 min"
  {
    var d := MinutesBetween(start, end);
    if d >= 0 then
      HourMarkIffAnHour(d, "m", " min");
      HoursMinutesLabel(d, "m", " min")
    else HoursMinutesLabel(d, "m", " min")
  }

  /** `formatGap(mins)`: "Xh Ymin", "Xh" or "Ymin". A non-negative gap's label
      starts with a digit and mentions hours exactly from 60 minutes on. */
  function FormatGap(mins: int): (text: string)
    ensures mins >= 0 ==> |text| > 0 && IsDigit(text[0]) && ('h' in text <==> mins >= 60)
  {
    if mins >= 0 then
      HourMarkIffAnHour(mins, "min", "min");
      HoursMinutesLabel(mins, "min", "min")
    else HoursMinutesLabel(mins, "min", "min")
  }

  lemma DurationExamples()
    ensures CalculateDuration(Clock(9, 0), Clock(11, 30)) == "2h 30m"
    ensures CalculateDuration(Clock(9, 0), Clock(11, 0)) == "2h"
  {
    assert NatToString(30) == "30" by { assert NatToString(3) == "3"; }
  }

  lemma ShortDurationExamples()
    ensures CalculateDuration(Clock(9, 0), Clock(9, 45)) == "45 min"
    ensures CalculateDuration(Clock(9, 0), Clock(9, 0)) == "0 min"
  {
    assert NatToString(45) == "45" by { assert NatToString(4) == "4"; }
  }

  /** An activity that runs past midnight is not given a negative length. */
  lemma OvernightDurationExample()
    ensures CalculateDuration(Clock(23, 0), Clock(1, 15)) == "2h 15m"
  {
    assert NatToString(15) == "15" by { assert NatToString(1) == "1"; }
  }

  lemma GapLabelExamples()
    ensures FormatGap(20) == "20min"
    ensures FormatGap(90) == "1h 30min"
    ensures FormatGap(120) == "2h"
  {
    assert NatToString(20) == "20" by { assert NatToString(2) == "2"; }
    assert NatToString(30) == "30" by { assert NatToString(3) == "3"; }
  }

  // The leading digits of a label and what follows them.

  function LabelHead(mins: nat): string
  {
    if mins / 60 > 0 then NatToString(mins / 60) else NatToString(mins % 60)
  }

  function LabelTail(mins: nat, bothSuffix: string, minutesOnlySuffix: string): string
  {
    if mins / 60 > 0 && mins % 60 > 0 then "h " + NatToString(mins % 60) + bothSuffix
    else if mins / 60 > 0 then "h"
    else minutesOnlySuffix
  }

  predicate SuffixOk(suffix: string)
  {
    |suffix| > 0 && !IsDigit(suffix[0]) && 'h' !in suffix
  }

  lemma LabelSplit(mins: nat, bothSuffix: string, minutesOnlySuffix: string)
    requires SuffixOk(minutesOnlySuffix)
    ensures HoursMinutesLabel(mins, bothSuffix, minutesOnlySuffix)
         == LabelHead(mins) + LabelTail(mins, bothSuffix, minutesOnlySuffix)
    ensures |LabelTail(mins, bothSuffix, minutesOnlySuffix)| > 0
    ensures !IsDigit(LabelTail(mins, bothSuffix, minutesOnlySuffix)[0])
    ensures LabelTail(mins, bothSuffix, minutesOnlySuffix)[0] == 'h' <==> mins >= 60
  {
    var h, m := mins / 60, mins % 60;
    if h > 0 && m > 0 {
      assert NatToString(h) + "h " + NatToString(m) + bothSuffix
          == NatToString(h) + ("h " + NatToString(m) + bothSuffix);
    }
  }

  /** Distinct non-negative totals get distinct labels, whatever the minute
      suffixes, as long as they start with a non-digit other than 'h'. */
  lemma HoursMinutesLabelInjective(a: nat, b: nat, bothSuffix: string, minutesOnlySuffix: string)
    requires SuffixOk(minutesOnlySuffix) && |bothSuffix| > 0 && !IsDigit(bothSuffix[0])
    requires HoursMinutesLabel(a, bothSuffix, minutesOnlySuffix) == HoursMinutesLabel(b, bothSuffix, minutesOnlySuffix)
    ensures a == b
  {
    LabelSplit(a, bothSuffix, minutesOnlySuffix);
    LabelSplit(b, bothSuffix, minutesOnlySuffix);
    var ta, tb := LabelTail(a, bothSuffix, minutesOnlySuffix), LabelTail(b, bothSuffix, minutesOnlySuffix);
    DigitRunUnique(LabelHead(a), ta, LabelHead(b), tb);
    assert (a >= 60) == (b >= 60);
    if a < 60 {
      NatToStringInjective(a % 60, b % 60);
    } else {
      NatToStringInjective(a / 60, b / 60);
      assert (ta == "h") == (a % 60 == 0);
      assert (tb == "h") == (b % 60 == 0);
      if a % 60 > 0 {
        assert ta[2..] == NatToString(a % 60) + bothSuffix;
        assert tb[2..] == NatToString(b % 60) + bothSuffix;
        DigitRunUnique(NatToString(a % 60), bothSuffix, NatToString(b % 60), bothSuffix);
        NatToStringInjective(a % 60, b % 60);
      }
    }
  }

  /** The duration label tells apart every two durations between real times of day. */
  lemma DurationLabelInjective(s1: Clock, e1: Clock, s2: Clock, e2: Clock)
    requires s1.Valid() && e1.Valid() && s2.Valid() && e2.Valid()
    requires CalculateDuration(s1, e1) == CalculateDuration(s2, e2)
    ensures MinutesBetween(s1, e1) == MinutesBetween(s2, e2)
  {
    HoursMinutesLabelInjective(MinutesBetween(s1, e1), MinutesBetween(s2, e2), "m", " min");
  }

  /** The gap label tells apart every two non-negative gaps. */
  lemma FormatGapInjective(a: nat, b: nat)
    requires FormatGap(a) == FormatGap(b)
    ensures a == b
  {
    HoursMinutesLabelInjective(a, b, "min", "min");
  }

  /** A label mentions hours exactly when the total is at least one hour: it
      never reads "0h". */
  lemma HourMarkIffAnHour(mins: nat, bothSuffix: string, minutesOnlySuffix: string)
    requires SuffixOk(minutesOnlySuffix) && 'h' !in bothSuffix
    ensures 'h' in HoursMinutesLabel(mins, bothSuffix, minutesOnlySuffix) <==> mins >= 60
  {
    LabelSplit(mins, bothSuffix, minutesOnlySuffix);
    var head, tail := LabelHead(mins), LabelTail(mins, bothSuffix, minutesOnlySuffix);
    assert 'h' !in head;
    if mins >= 60 {
      assert (head + tail)[|head|] == 'h';
    } else {
      assert tail == minutesOnlySuffix;
    }
  }

  function Min(a: real, b: real): real { if a <= b then a else b }
  function Max(a: real, b: real): real { if a >= b then a else b }

  /** `calculateTimeProgress(start, end)` with the current minute of the day as
      a parameter: 0 before the start, 100 once the end is reached, and the
      elapsed share of the interval, as a percentage, in between. */
  function CalculateTimeProgress(start: Clock, end: Clock, nowMinutes: int): (p: real)
    ensures 0.0 <= p <= 100.0
    ensures nowMinutes < start.MinuteOfDay() ==> p == 0.0
    ensures start.MinuteOfDay() <= nowMinutes && end.MinuteOfDay() <= nowMinutes ==> p == 100.0
    ensures start.MinuteOfDay() <= nowMinutes < end.MinuteOfDay() ==>
              p < 100.0 &&
              p * (end.MinuteOfDay() - start.MinuteOfDay()) as real
                == (nowMinutes - start.MinuteOfDay()) as real * 100.0
  {
    var s := start.MinuteOfDay();
    var e := end.MinuteOfDay();
    if nowMinutes < s then 0.0
    else if nowMinutes >= e then 100.0
    else
      var x := (nowMinutes - s) as real / (e - s) as real;
      FractionBelowOne(nowMinutes - s, e - s);
      Min(100.0, Max(0.0, x * 100.0))
  }

  lemma FractionBelowOne(num: int, den: int)
    requires 0 <= num < den
    ensures 0.0 <= num as real / den as real < 1.0
    ensures num as real / den as real * den as real == num as real
  {
  }

  /** A larger numerator over the same positive denominator gives a larger quotient. */
  lemma QuotientMonotone(a: int, b: int, den: int)
    requires 0 <= a <= b && den > 0
    ensures a as real / den as real <= b as real / den as real
  {
    var qa, qb := a as real / den as real, b as real / den as real;
    assert qa * den as real == a as real;
    assert qb * den as real == b as real;
    assert (qb - qa) * den as real == (b - a) as real;
  }

  /** For a fixed activity the progress never goes down as the day advances,
      also when the end is not after the start (then it jumps from 0 to 100). */
  lemma ProgressMonotone(start: Clock, end: Clock, now1: int, now2: int)
    requires now1 <= now2
    ensures CalculateTimeProgress(start, end, now1) <= CalculateTimeProgress(start, end, now2)
  {
    var s, e := start.MinuteOfDay(), end.MinuteOfDay();
    if s <= now1 && now2 < e {
      QuotientMonotone(now1 - s, now2 - s, e - s);
    }
  }

  /** An activity whose end is not after its start (one that crosses midnight,
      say) never shows partial progress. */
  lemma ProgressAllOrNothing(start: Clock, end: Clock, nowMinutes: int)
    requires end.MinuteOfDay() <= start.MinuteOfDay()
    ensures CalculateTimeProgress(start, end, nowMinutes) in {0.0, 100.0}
  {
  }
}
