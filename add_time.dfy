/**
 * `add_time_columns` (add_time.py): row i gets `seconds = 10 * i` and the
 * wall-clock `HH:MM:SS` of 00:00:00 plus that many seconds; both columns are
 * then assigned into the frame. Reading and writing the CSV are not modelled.
 */
module AddTime {
  import opened Dict

  /** Seconds between consecutive rows. */
  const Interval: nat := 10
  const SecondsPerDay: nat := 86400

  // ------------------------------------------------------------ HH:MM:SS

  function DigitChar(d: nat): (c: char)
    requires d < 10
    ensures '0' <= c <= '9'
  {
    ('0' as int + d) as char
  }

  function DigitValue(c: char): nat
    requires '0' <= c <= '9'
  {
    c as int - '0' as int
  }

  /** A number below 100, zero-padded to two digits (`%H`, `%M`, `%S`). */
  function Digits2(v: nat): (r: string)
    requires v < 100
    ensures |r| == 2 && '0' <= r[0] <= '9' && '0' <= r[1] <= '9'
  {
    [DigitChar(v / 10), DigitChar(v % 10)]
  }

  /** `strftime('%H:%M:%S')` of midnight plus t seconds: the date is dropped, so the clock wraps daily. */
  function Clock(t: nat): (r: string)
    ensures |r| == 8 && r[2] == ':' && r[5] == ':'
  {
    TimeOfDay(t % SecondsPerDay)
  }

  /** The `HH:MM:SS` of a time of day given in seconds. */
  function TimeOfDay(d: nat): (r: string)
    requires d < SecondsPerDay
    ensures |r| == 8 && r[2] == ':' && r[5] == ':'
  {
    Digits2(d / 3600) + ":" + Digits2(d % 3600 / 60) + ":" + Digits2(d % 60)
  }

  predicate IsDigit(c: char) {
    '0' <= c <= '9'
  }

  /** The two-digit number at positions i, i+1. */
  function Number2(s: string, i: nat): nat
    requires i + 1 < |s| && IsDigit(s[i]) && IsDigit(s[i + 1])
  {
    DigitValue(s[i]) * 10 + DigitValue(s[i + 1])
  }

  /** Reads an `HH:MM:SS` clock back as seconds after midnight. */
  function ParseClock(s: string): Option<nat> {
    if |s| == 8 && s[2] == ':' && s[5] == ':'
       && IsDigit(s[0]) && IsDigit(s[1]) && IsDigit(s[3]) && IsDigit(s[4]) && IsDigit(s[6]) && IsDigit(s[7])
    then
      var h, m, sec := Number2(s, 0), Number2(s, 3), Number2(s, 6);
      if h < 24 && m < 60 && sec < 60 then Some(h * 3600 + m * 60 + sec) else None
    else None
  }

  lemma Digits2RoundTrip(v: nat)
    requires v < 100
    ensures Number2(Digits2(v), 0) == v
  {
  }

  lemma Number2RoundTrip(s: string, i: nat)
    requires i + 1 < |s| && IsDigit(s[i]) && IsDigit(s[i + 1])
    ensures Number2(s, i) < 100 && Digits2(Number2(s, i)) == s[i..i + 2]
  {
    var v := Number2(s, i);
    assert v / 10 == DigitValue(s[i]) && v % 10 == DigitValue(s[i + 1]);
  }

  /** The hours field is 0..23, minutes and seconds 0..59. */
  lemma ClockFields(t: nat)
    ensures var d := t % SecondsPerDay;
      && d / 3600 < 24 && d % 3600 / 60 < 60 && d % 60 < 60
      && d == d / 3600 * 3600 + d % 3600 / 60 * 60 + d % 60
  {
  }

  /** Reading a generated clock gives back the time of day it shows. */
  lemma ParseClockOfClock(t: nat)
    ensures ParseClock(Clock(t)) == Some(t % SecondsPerDay)
  {
    var d := t % SecondsPerDay;
    var c := Clock(t);
    ClockFields(t);
    Digits2RoundTrip(d / 3600);
    Digits2RoundTrip(d % 3600 / 60);
    Digits2RoundTrip(d % 60);
    assert c[0..2] == Digits2(d / 3600);
    assert c[3..5] == Digits2(d % 3600 / 60);
    assert c[6..8] == Digits2(d % 60);
    assert Number2(c, 0) == Number2(c[0..2], 0);
    assert Number2(c, 3) == Number2(c[3..5], 0);
    assert Number2(c, 6) == Number2(c[6..8], 0);
  }

  /** Every well-formed clock is the one generated for its own time of day. */
  lemma ClockOfParseClock(s: string)
    requires ParseClock(s).Some?
    ensures Clock(ParseClock(s).value) == s
  {
    var h, m, sec := Number2(s, 0), Number2(s, 3), Number2(s, 6);
    var d := h * 3600 + m * 60 + sec;
    assert d % SecondsPerDay == d;
    assert d / 3600 == h && d % 3600 / 60 == m && d % 60 == sec;
    Number2RoundTrip(s, 0);
    Number2RoundTrip(s, 3);
    Number2RoundTrip(s, 6);
    assert s == s[0..2] + ":" + s[3..5] + ":" + s[6..8];
  }

  /** The clock repeats every day. */
  lemma ClockDaily(t: nat)
    ensures Clock(t + SecondsPerDay) == Clock(t)
  {
    assert (t + SecondsPerDay) % SecondsPerDay == t % SecondsPerDay;
  }

  lemma ClockExamples()
    ensures Clock(0) == "00:00:00"
    ensures Clock(3610) == "01:00:10"
    ensures Clock(Interval * 8639) == "23:59:50"
    ensures Clock(Interval * 8640) == "00:00:00"
  {
    assert 3610 / 3600 == 1 && 3610 % 3600 / 60 == 0 && 3610 % 60 == 10;
    assert Interval * 8639 == 86390 && 86390 % SecondsPerDay == 86390;
    assert 86390 / 3600 == 23 && 86390 % 3600 / 60 == 59 && 86390 % 60 == 50;
    assert Interval * 8640 == SecondsPerDay && SecondsPerDay % SecondsPerDay == 0;
  }

  // ------------------------------------------------------------ the loop

  /** The loop of lines 24-27: one time string and one seconds value per row, in row order. */
  method TimeValues(rowCount: nat) returns (timeValues: seq<string>, secondsValues: seq<int>)
    ensures |timeValues| == rowCount && |secondsValues| == rowCount
    ensures forall i :: 0 <= i < rowCount ==> secondsValues[i] == Interval * i
    ensures forall i :: 0 <= i < rowCount ==> timeValues[i] == Clock(Interval * i)
  {
    timeValues, secondsValues := [], [];
    var i := 0;
    while i < rowCount
      invariant 0 <= i <= rowCount
      invariant |timeValues| == i && |secondsValues| == i
      invariant forall j :: 0 <= j < i ==> secondsValues[j] == Interval * j
      invariant forall j :: 0 <= j < i ==> timeValues[j] == Clock(Interval * j)
    {
      timeValues := timeValues + [Clock(i * Interval)];
      secondsValues := secondsValues + [i * Interval];
      i := i + 1;
    }
  }

  /** Consecutive rows are ten seconds apart on the clock. */
  lemma NextRowClock(i: nat)
    ensures ParseClock(Clock(Interval * (i + 1))) ==
      Some((ParseClock(Clock(Interval * i)).value + Interval) % SecondsPerDay)
  {
    ParseClockOfClock(Interval * (i + 1));
    ParseClockOfClock(Interval * i);
    var a := Interval * i;
    assert Interval * (i + 1) == a + Interval;
    ModAdd(a, Interval);
  }

  lemma ModAdd(a: nat, b: nat)
    ensures (a + b) % SecondsPerDay == (a % SecondsPerDay + b) % SecondsPerDay
  {
    var q, r := a / SecondsPerDay, a % SecondsPerDay;
    assert a + b == q * SecondsPerDay + (r + b);
  }

  // ------------------------------------------------------------ the frame

  /** A CSV cell: what pandas reads or is given. */
  datatype Cell = Int(i: int) | Float(x: real) | Str(s: string)

  /** A pandas DataFrame: named columns of equal length, in order. */
  class Frame {
    var columns: Entries<seq<Cell>>
    var rowCount: nat

    ghost predicate Valid()
      reads this
    {
      && DistinctKeys(columns)
      && forall k :: 0 <= k < |columns| ==> |columns[k].1| == rowCount
    }

    constructor (columns: Entries<seq<Cell>>, rowCount: nat)
      requires DistinctKeys(columns)
      requires forall k :: 0 <= k < |columns| ==> |columns[k].1| == rowCount
      ensures Valid()
      ensures this.columns == columns && this.rowCount == rowCount
    {
      this.columns := columns;
      this.rowCount := rowCount;
    }

    /** `df[name] = values`: overwrites the column in place, or appends it at the end. */
    method SetColumn(name: string, values: seq<Cell>)
      requires Valid() && |values| == rowCount
      modifies this
      ensures Valid()
      ensures columns == Put(old(columns), name, values) && rowCount == old(rowCount)
    {
      PutDistinct(columns, name, values);
      columns := Put(columns, name, values);
    }
  }

  function StrCells(s: seq<string>): (r: seq<Cell>)
    ensures |r| == |s|
  {
    seq(|s|, i requires 0 <= i < |s| => Str(s[i]))
  }

  function IntCells(s: seq<int>): (r: seq<Cell>)
    ensures |r| == |s|
  {
    seq(|s|, i requires 0 <= i < |s| => Int(s[i]))
  }

  /** The `time` column of an n-row frame. */
  function TimeColumn(n: nat): seq<Cell> {
    seq(n, i requires 0 <= i < n => Str(Clock(Interval * i)))
  }

  /** The `seconds` column of an n-row frame. */
  function SecondsColumn(n: nat): seq<Cell> {
    seq(n, i requires 0 <= i < n => Int(Interval * i))
  }

  /** Lines 17-31: generate both lists, then `df['time'] = …` and `df['seconds'] = …`. */
  method AddTimeColumns(df: Frame)
    requires df.Valid()
    modifies df
    ensures df.Valid() && df.rowCount == old(df.rowCount)
    ensures Get(df.columns, "time") == Some(TimeColumn(df.rowCount))
    ensures Get(df.columns, "seconds") == Some(SecondsColumn(df.rowCount))
    ensures forall name :: name != "time" && name != "seconds" ==> Get(df.columns, name) == Get(old(df.columns), name)
    ensures |old(df.columns)| <= |df.columns| && Keys(df.columns)[..|old(df.columns)|] == Keys(old(df.columns))
  {
    var timeValues, secondsValues := TimeValues(df.rowCount);
    assert StrCells(timeValues) == TimeColumn(df.rowCount);
    assert IntCells(secondsValues) == SecondsColumn(df.rowCount);
    ghost var before := df.columns;
    df.SetColumn("time", StrCells(timeValues));
    ghost var middle := df.columns;
    df.SetColumn("seconds", IntCells(secondsValues));
    forall name | true
      ensures Get(df.columns, name) == if name == "seconds" then Some(IntCells(secondsValues))
        else if name == "time" then Some(StrCells(timeValues)) else Get(before, name)
    {
      GetPut(before, "time", StrCells(timeValues), name);
      GetPut(middle, "time", StrCells(timeValues), name);
      GetPut(middle, "seconds", IntCells(secondsValues), name);
      GetPut(middle, "seconds", IntCells(secondsValues), "time");
    }
    KeysPrefix(before, "time", StrCells(timeValues));
    KeysPrefix(middle, "seconds", IntCells(secondsValues));
  }

  /** Assigning a column never moves the columns already there. */
  lemma KeysPrefix<V>(e: Entries<V>, key: string, v: V)
    ensures |e| <= |Put(e, key, v)|
    ensures Keys(Put(e, key, v))[..|e|] == Keys(e)
  {
    GetPut(e, key, v, key);
  }
}
