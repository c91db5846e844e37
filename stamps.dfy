/** The two helpers of LP that only compute: calcTimeStamp, which adds an
    interval to a time of day, and dateStamp2Str, which renders a date stamp
    as yy/mm/dd. */
module Stamps {

  import opened HexText
  import opened Cluster

  /** The dictionary {'hh': h, 'mm': m, 'ss': s} of calcTimeStamp. */
  datatype TimeOfDay = TimeOfDay(hh: int, mm: int, ss: int)

  const MINUTES_PER_DAY: int := 24 * 60

  /** Minutes since midnight, as far as hours and minutes go. */
  function Minutes(t: TimeOfDay): int
  {
    t.hh * 60 + t.mm
  }

  /** calcTimeStamp(t, interval): the minutes carried into the hour when they
      pass 59, and one day taken off an hour above 24. */
  function CalcTimeStamp(t: TimeOfDay, interval: int): (r: TimeOfDay)
    ensures r.ss == t.ss
    ensures Minutes(r) == Minutes(t) + interval || Minutes(r) == Minutes(t) + interval - MINUTES_PER_DAY
    ensures t.mm + interval > 59 ==> 0 <= r.mm < 60
    ensures t.mm + interval <= 59 ==> r.mm == t.mm + interval
  {
    var sum := t.mm + interval;
    var h := if sum > 59 then t.hh + sum / 60 else t.hh;
    var m := if sum > 59 then sum % 60 else sum;
    TimeOfDay(if h > 24 then h - 24 else h, m, t.ss)
  }

  /** For a time with minutes 0..59 and an interval that is not negative, the
      result is the sum taken apart into hours and minutes, less one day when
      the hours come to more than 24. */
  lemma ClockArithmetic(t: TimeOfDay, interval: int)
    requires 0 <= t.mm < 60 && interval >= 0
    ensures var total := Minutes(t) + interval;
      && CalcTimeStamp(t, interval).mm == total % 60
      && Minutes(CalcTimeStamp(t, interval)) == (if total / 60 > 24 then total - MINUTES_PER_DAY else total)
  {
    var m := t.mm + interval;
    var total := Minutes(t) + interval;
    assert total == t.hh * 60 + m;
    DivShift(t.hh, m);
  }

  lemma DivShift(h: int, m: int)
    requires m >= 0
    ensures (h * 60 + m) / 60 == h + m / 60 && (h * 60 + m) % 60 == m % 60
  {
    var q, r := m / 60, m % 60;
    assert m == q * 60 + r && 0 <= r < 60;
    assert h * 60 + m == (h + q) * 60 + r;
  }

  /** For a valid time and an interval of at most an hour the hour never
      wraps: the sum is kept whole, so a time that reaches midnight reads 24. */
  lemma NoWrapWithinHour(t: TimeOfDay, interval: int)
    requires 0 <= t.hh < 24 && 0 <= t.mm < 60 && 0 <= interval <= 60
    ensures Minutes(CalcTimeStamp(t, interval)) == Minutes(t) + interval
    ensures 0 <= CalcTimeStamp(t, interval).mm < 60 && CalcTimeStamp(t, interval).hh <= 24
  {
  }

  /** Example of ClockArithmetic: 23:30 plus 30 minutes is 24:00, not 00:00,
      because the day is only taken off above hour 24. */
  lemma MidnightIsHour24()
    ensures CalcTimeStamp(TimeOfDay(23, 30, 0), 30) == TimeOfDay(24, 0, 0)
    ensures CalcTimeStamp(TimeOfDay(24, 30, 0), 30) == TimeOfDay(1, 0, 0)
  {
  }

  /** Example of ClockArithmetic: the day comes off at most once, so 49:00
      plus an hour is 26:00. */
  lemma OneDayOnly()
    ensures CalcTimeStamp(TimeOfDay(49, 0, 0), 60) == TimeOfDay(26, 0, 0)
  {
  }

  /** dateStamp2Str(stamp): 'yy/mm/dd'; the fields are already text. */
  function DateText(d: DateStamp): (s: string)
    ensures |s| == |d.yy| + |d.mm| + |d.dd| + 2
  {
    d.yy + "/" + d.mm + "/" + d.dd
  }

  /** str.split(sep): the pieces between the separators, empty ones included. */
  function Split(s: string, sep: char): (r: seq<string>)
    ensures |r| >= 1
  {
    if s == [] then [""]
    else
      var rest := Split(s[1..], sep);
      if s[0] == sep then [""] + rest else [[s[0]] + rest[0]] + rest[1..]
  }

  lemma {:induction false} SplitNoSep(s: string, sep: char)
    requires sep !in s
    ensures Split(s, sep) == [s]
  {
    if s != [] {
      assert sep !in s[1..] by {
        forall c | c in s[1..] ensures c != sep { assert c in s; }
      }
      SplitNoSep(s[1..], sep);
      assert [s[0]] + s[1..] == s;
    }
  }

  lemma {:induction false} SplitAfter(a: string, sep: char, b: string)
    requires sep !in a
    ensures Split(a + [sep] + b, sep) == [a] + Split(b, sep)
  {
    if a == [] {
      assert a + [sep] + b == [sep] + b;
      assert ([sep] + b)[1..] == b;
    } else {
      var s := a + [sep] + b;
      assert s[0] == a[0] && s[1..] == a[1..] + [sep] + b;
      assert sep !in a[1..] by {
        forall c | c in a[1..] ensures c != sep { assert c in a; }
      }
      SplitAfter(a[1..], sep, b);
      assert [a[0]] + a[1..] == a;
    }
  }

  /** A decimal field holds no '/'. */
  lemma DecimalHasNoSlash(s: string)
    requires IsDecimal(s)
    ensures '/' !in s
  {
  }

  /** Splitting the text of a stamp with decimal fields at '/' gives the
      three fields back. */
  lemma DateTextFields(d: DateStamp)
    requires IsDecimal(d.yy) && IsDecimal(d.mm) && IsDecimal(d.dd)
    ensures Split(DateText(d), '/') == [d.yy, d.mm, d.dd]
  {
    DecimalHasNoSlash(d.yy);
    DecimalHasNoSlash(d.mm);
    DecimalHasNoSlash(d.dd);
    assert DateText(d) == d.yy + ['/'] + (d.mm + ['/'] + d.dd);
    SplitAfter(d.yy, '/', d.mm + ['/'] + d.dd);
    SplitAfter(d.mm, '/', d.dd);
    SplitNoSep(d.dd, '/');
  }
}
