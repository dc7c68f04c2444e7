/**
 * The aggregation of worked hours into per-employee buckets: for each closed
 * session, the hours are added to a day, a week, a month and a year bucket of
 * the employee, each a number state in the object tree of the aggregation
 * adapter. The week bucket is labelled as the code builds it, with the
 * calendar year of the end date and the ISO week number; two weeks a year apart
 * can share that label (`UpdateAsWrittenMergesWeeks`). The label with the ISO
 * 8601 week-numbering year keeps every week apart (`UpdateIntendedSeparatesWeeks`).
 */
module Aggregates {
  import opened Wrappers
  import opened Text
  import opened Calendar
  import opened Records

  /** The state of an aggregate: `{val, ack}`. */
  datatype TimeState = TimeState(val: real, ack: bool)

  /**
   * What the store holds under an id: the state object created by
   * `setObjectNotExistsAsync` (type `state`, a number with role `value.time`
   * and unit `h`, named after its id), or `{state}` as `setStateAsync` writes it.
   */
  datatype StoreEntry =
    | StateObject(name: string)
    | StateHolder(state: TimeState)

  // ---------------------------------------------------------------------------
  // Reading and adding to one bucket
  // ---------------------------------------------------------------------------

  /** `getStateAsync(id)`: the state held under `id`, or `null` when there is none. */
  function StateOf(objects: map<string, StoreEntry>, id: string): (r: Option<TimeState>)
    ensures r.Some? <==> id in objects && objects[id].StateHolder?
    ensures r.Some? ==> objects[id] == StateHolder(r.value)
  {
    if id in objects && objects[id].StateHolder? then Some(objects[id].state) else None
  }

  /**
   * The running total `aggregateForKey` starts from: the stored value when it
   * is set and not zero, otherwise 0. The zero test changes nothing: the total
   * is the stored value whenever there is one.
   */
  function Total(objects: map<string, StoreEntry>, key: string): (r: real)
    ensures StateOf(objects, key).Some? ==> r == objects[key].state.val
    ensures StateOf(objects, key).None? ==> r == 0.0
  {
    var current := StateOf(objects, key);
    if current.Some? && current.value.val != 0.0 then current.value.val else 0.0
  }

  /** The store after `aggregateForKey(key, hours)`. */
  function AddHours(objects: map<string, StoreEntry>, key: string, hours: real): map<string, StoreEntry>
  {
    objects[key := StateHolder(TimeState(Total(objects, key) + hours, true))]
  }

  /** One `aggregateForKey` adds the hours to its own bucket and leaves every other id as it was. */
  lemma AddHoursEffect(objects: map<string, StoreEntry>, key: string, hours: real, k: string)
    ensures Total(AddHours(objects, key, hours), k) == Total(objects, k) + (if k == key then hours else 0.0)
    ensures k == key ==> StateOf(AddHours(objects, key, hours), k) == Some(TimeState(Total(objects, k) + hours, true))
    ensures k != key ==> (k in AddHours(objects, key, hours) <==> k in objects)
    ensures k != key && k in objects ==> AddHours(objects, key, hours)[k] == objects[k]
  {
    var r := AddHours(objects, key, hours);
    if k == key {
      assert StateOf(r, k) == Some(TimeState(Total(objects, k) + hours, true));
    } else {
      assert StateOf(r, k) == StateOf(objects, k);
    }
  }

  /** Adding a non-negative number of hours never lowers a bucket. */
  lemma AddHoursNeverLowers(objects: map<string, StoreEntry>, key: string, hours: real)
    requires hours >= 0.0
    ensures Total(AddHours(objects, key, hours), key) >= Total(objects, key)
  {
    AddHoursEffect(objects, key, hours, key);
  }

  /** The store after `aggregateForKey` has been called for each key of `keys` in turn. */
  function AddToBuckets(objects: map<string, StoreEntry>, keys: seq<string>, hours: real): map<string, StoreEntry>
    decreases |keys|
  {
    if keys == [] then objects else AddToBuckets(AddHours(objects, keys[0], hours), keys[1..], hours)
  }

  /** Aggregating under four keys is four `aggregateForKey` calls in turn. */
  lemma AddToFourBuckets(objects: map<string, StoreEntry>, keys: seq<string>, hours: real)
    requires |keys| == 4
    ensures AddToBuckets(objects, keys, hours)
         == AddHours(AddHours(AddHours(AddHours(objects, keys[0], hours), keys[1], hours), keys[2], hours), keys[3], hours)
  {
    var o1 := AddHours(objects, keys[0], hours);
    var o2 := AddHours(o1, keys[1], hours);
    var o3 := AddHours(o2, keys[2], hours);
    assert keys[1..][1..][1..][1..] == [];
    assert AddToBuckets(o3, keys[1..][1..][1..], hours) == AddHours(o3, keys[3], hours);
    assert AddToBuckets(o2, keys[1..][1..], hours) == AddToBuckets(o3, keys[1..][1..][1..], hours);
  }

  predicate Distinct(keys: seq<string>)
  {
    forall i, j :: 0 <= i < j < |keys| ==> keys[i] != keys[j]
  }

  /**
   * Aggregating under distinct keys adds the hours once to each of them,
   * marks each as acknowledged, and leaves every other id as it was.
   */
  lemma {:induction false} AddToBucketsEffect(objects: map<string, StoreEntry>, keys: seq<string>, hours: real, k: string)
    requires Distinct(keys)
    decreases |keys|
    ensures Total(AddToBuckets(objects, keys, hours), k) == Total(objects, k) + (if k in keys then hours else 0.0)
    ensures k in keys ==> StateOf(AddToBuckets(objects, keys, hours), k).Some?
    ensures k in keys ==> StateOf(AddToBuckets(objects, keys, hours), k).value.ack
    ensures k !in keys ==> (k in AddToBuckets(objects, keys, hours) <==> k in objects)
    ensures k !in keys && k in objects ==> AddToBuckets(objects, keys, hours)[k] == objects[k]
  {
    if keys != [] {
      var next := AddHours(objects, keys[0], hours);
      AddHoursEffect(objects, keys[0], hours, k);
      assert Distinct(keys[1..]) by {
        forall i, j | 0 <= i < j < |keys[1..]|
          ensures keys[1..][i] != keys[1..][j]
        {
          assert keys[1..][i] == keys[i + 1] && keys[1..][j] == keys[j + 1];
        }
      }
      AddToBucketsEffect(next, keys[1..], hours, k);
      assert k in keys <==> k == keys[0] || k in keys[1..];
      if k == keys[0] {
        assert k !in keys[1..] by {
          forall j | 0 <= j < |keys[1..]|
            ensures keys[1..][j] != k
          {
            assert keys[1..][j] == keys[j + 1];
          }
        }
      }
    }
  }

  // ---------------------------------------------------------------------------
  // Period labels
  // ---------------------------------------------------------------------------

  /**
   * `s.slice(-n)`: the last `n` characters of `s`, or all of `s` when it is
   * shorter; `-0` is start 0, so `slice(-0)` is all of `s` too.
   */
  function SliceLast(s: string, n: nat): (r: string)
    ensures |r| == if n == 0 || |s| <= n then |s| else n
    ensures r == s[|s| - |r|..]
  {
    if n == 0 || |s| <= n then s else s[|s| - n..]
  }

  /** `${year}-${('0' + month).slice(-2)}`. */
  function MonthText(year: int, month: int): string
  {
    IntToString(year) + "-" + SliceLast("0" + IntToString(month), 2)
  }

  /** `${year}-W${week}`. */
  function WeekText(year: int, week: int): string
  {
    IntToString(year) + "-W" + IntToString(week)
  }

  /** `endDate.toISOString().split('T')[0]`: the day label of time value `t`. */
  function DayLabel(t: int): string
  {
    SplitFirst(ToIsoString(t), 'T')
  }

  /** `year.toString()` for day `d`. */
  function YearLabel(d: int): string
  {
    IntToString(YearOf(d))
  }

  /** The month label of day `d`. */
  function MonthLabel(d: int): string
  {
    MonthText(YearOf(d), CivilFromDays(d).month)
  }

  /** The week label of day `d` as the code builds it, with the calendar year of the day. */
  function WeekLabelAsWritten(d: int): string
  {
    WeekText(YearOf(d), GetISOWeek(d))
  }

  /** The week label with the ISO 8601 week-numbering year, which the week number belongs to. */
  function WeekLabel(d: int): string
  {
    WeekText(IsoWeekYear(d), GetISOWeek(d))
  }

  /** `('0' + month).slice(-2)` is the month zero-padded to two digits. */
  lemma MonthPadded(m: int)
    requires 1 <= m <= 12
    ensures SliceLast("0" + IntToString(m), 2) == Pad(m, 2)
  {
    var s := NatToString(m);
    assert IntToString(m) == s;
    if m < 10 {
      assert Pad(m, 2) == ['0'] + s;
    } else {
      NatToStringLength(m, 2);
      assert ("0" + s)[1..] == s;
    }
  }

  /** A month text is the year, a dash and the month zero-padded to two digits. */
  lemma MonthTextSplit(y: int, m: int)
    requires 1 <= m <= 12
    ensures MonthText(y, m) == (IntToString(y) + "-") + Pad(m, 2)
    ensures |Pad(m, 2)| == 2 && DigitsValue(Pad(m, 2)) == m
  {
    MonthPadded(m);
    assert Pow10(2) == 100;
    PadRoundTrip(m, 2);
  }

  /** Two joins with tails of one length are equal only when heads and tails are. */
  lemma SameLengthTails(a: string, b: string, c: string, d: string)
    requires a + b == c + d && |b| == |d|
    ensures a == c && b == d
  {
    assert a == (a + b)[..|a|] && c == (c + d)[..|c|];
    assert b == (a + b)[|a|..] && d == (c + d)[|c|..];
  }

  /** A month text names its year and month. */
  lemma MonthTextInjective(y1: int, m1: int, y2: int, m2: int)
    requires 1 <= m1 <= 12 && 1 <= m2 <= 12
    ensures MonthText(y1, m1) == MonthText(y2, m2) <==> y1 == y2 && m1 == m2
  {
    if MonthText(y1, m1) == MonthText(y2, m2) {
      var a, c := IntToString(y1), IntToString(y2);
      MonthTextSplit(y1, m1);
      MonthTextSplit(y2, m2);
      SameLengthTails(a + "-", Pad(m1, 2), c + "-", Pad(m2, 2));
      assert a == (a + "-")[..|a|] && c == (c + "-")[..|c|];
      IntToStringInjective(y1, y2);
    }
  }

  /** A numeral holds digits and a minus sign only. */
  lemma NumeralExcludes(i: int, m: char)
    requires !IsDigit(m) && m != '-'
    ensures m !in IntToString(i)
  {
    var n := NatToString(if i < 0 then -i else i);
    DigitsExclude(n, m);
    assert IntToString(i) == n || IntToString(i) == "-" + n;
  }

  /** A week text is the year and a dash, the marker `W`, then the week. */
  lemma WeekTextSplit(y: int, w: int)
    ensures WeekText(y, w) == (IntToString(y) + "-") + ['W'] + IntToString(w)
    ensures 'W' !in IntToString(y) + "-"
  {
    NumeralExcludes(y, 'W');
  }

  /** A week text names its year and week. */
  lemma WeekTextInjective(y1: int, w1: int, y2: int, w2: int)
    ensures WeekText(y1, w1) == WeekText(y2, w2) <==> y1 == y2 && w1 == w2
  {
    if WeekText(y1, w1) == WeekText(y2, w2) {
      var a, c := IntToString(y1), IntToString(y2);
      WeekTextSplit(y1, w1);
      WeekTextSplit(y2, w2);
      SplitAtMarker(a + "-", IntToString(w1), c + "-", IntToString(w2), 'W');
      assert a == (a + "-")[..|a|] && c == (c + "-")[..|c|];
      IntToStringInjective(y1, y2);
      IntToStringInjective(w1, w2);
    }
  }

  /** A date text holds digits, signs and dashes, never the `T` that `toISOString` puts after it. */
  lemma NoTInDateFields(c: Date)
    requires ValidDate(c)
    ensures 'T' !in DateFields(c)
  {
    var y := c.year;
    var p := Pad(if y < 0 then -y else y, if 0 <= y <= 9999 then 4 else 6);
    DigitsExclude(p, 'T');
    DigitsExclude(Pad(c.month, 2), 'T');
    DigitsExclude(Pad(c.day, 2), 'T');
    assert YearField(y) == p || YearField(y) == "-" + p || YearField(y) == "+" + p;
  }

  /** The day label is the date part of the ISO text: `YYYY-MM-DD` of the day of `t`. */
  lemma DayLabelIsDate(t: int)
    ensures DayLabel(t) == DateText(t / MsPerDay)
  {
    var date := DateText(t / MsPerDay);
    var rest := TimeText(t % MsPerDay) + "Z";
    NoTInDateFields(CivilFromDays(t / MsPerDay));
    assert ToIsoString(t) == date + ['T'] + rest;
    SplitFirstAt(date, 'T', rest);
  }

  /** Where the fields of a `YYYY-MM-DD` text of a four-digit year sit, and what they read. */
  lemma DateFieldsSplit(c: Date)
    requires ValidDate(c) && 0 <= c.year <= 9999
    ensures |DateFields(c)| == 10
    ensures DateFields(c)[..4] == Pad(c.year, 4) && DigitsValue(Pad(c.year, 4)) == c.year
    ensures DateFields(c)[5..7] == Pad(c.month, 2) && DigitsValue(Pad(c.month, 2)) == c.month
    ensures DateFields(c)[8..] == Pad(c.day, 2) && DigitsValue(Pad(c.day, 2)) == c.day
  {
    assert Pow10(4) == 10000 && Pow10(2) == 100;
    PadRoundTrip(c.year, 4);
    PadRoundTrip(c.month, 2);
    PadRoundTrip(c.day, 2);
    var yy, mm, dd := Pad(c.year, 4), Pad(c.month, 2), Pad(c.day, 2);
    assert DateFields(c) == yy + "-" + mm + "-" + dd;
  }

  /** The `YYYY-MM-DD` text of a date of a four-digit year names the date. */
  lemma DateFieldsInjective(c1: Date, c2: Date)
    requires ValidDate(c1) && ValidDate(c2) && 0 <= c1.year <= 9999 && 0 <= c2.year <= 9999
    ensures DateFields(c1) == DateFields(c2) ==> c1 == c2
  {
    DateFieldsSplit(c1);
    DateFieldsSplit(c2);
  }

  /** For days of four-digit years, the day label names the day. */
  lemma DayLabelIdentifiesDay(t1: int, t2: int)
    requires 0 <= YearOf(t1 / MsPerDay) <= 9999 && 0 <= YearOf(t2 / MsPerDay) <= 9999
    ensures DayLabel(t1) == DayLabel(t2) <==> t1 / MsPerDay == t2 / MsPerDay
  {
    DayLabelIsDate(t1);
    DayLabelIsDate(t2);
    DateFieldsInjective(CivilFromDays(t1 / MsPerDay), CivilFromDays(t2 / MsPerDay));
  }

  /** The year label names the year. */
  lemma YearLabelIdentifiesYear(d1: int, d2: int)
    ensures YearLabel(d1) == YearLabel(d2) <==> YearOf(d1) == YearOf(d2)
  {
    IntToStringInjective(YearOf(d1), YearOf(d2));
  }

  /** The month label names the month: its calendar year and its month. */
  lemma MonthLabelIdentifiesMonth(d1: int, d2: int)
    ensures MonthLabel(d1) == MonthLabel(d2)
        <==> YearOf(d1) == YearOf(d2) && CivilFromDays(d1).month == CivilFromDays(d2).month
  {
    MonthTextInjective(YearOf(d1), CivilFromDays(d1).month, YearOf(d2), CivilFromDays(d2).month);
  }

  /** Within years of four digits, the year text and month text are the heads of the date text. */
  lemma {:induction false} DateFieldsNest(c: Date)
    requires ValidDate(c) && 1000 <= c.year <= 9999
    ensures |DateFields(c)| == 10
    ensures IntToString(c.year) == DateFields(c)[..4]
    ensures MonthText(c.year, c.month) == DateFields(c)[..7]
  {
    DateFieldsSplit(c);
    assert Pow10(3) == 1000;
    PadWide(c.year, 4);
    MonthTextSplit(c.year, c.month);
    var s := DateFields(c);
    assert s[..7] == s[..4] + "-" + s[5..7];
  }

  /** Within years of four digits, the year and month labels are the heads of the day label. */
  lemma LabelsNest(t: int)
    requires 1000 <= YearOf(t / MsPerDay) <= 9999
    ensures |DayLabel(t)| == 10
    ensures YearLabel(t / MsPerDay) == DayLabel(t)[..4]
    ensures MonthLabel(t / MsPerDay) == DayLabel(t)[..7]
  {
    DayLabelIsDate(t);
    DateFieldsNest(CivilFromDays(t / MsPerDay));
  }

  /** The week label names the week: two days share it exactly when they share their Monday. */
  lemma WeekLabelIdentifiesWeek(d1: int, d2: int)
    ensures WeekLabel(d1) == WeekLabel(d2) <==> MondayOf(d1) == MondayOf(d2)
  {
    WeekTextInjective(IsoWeekYear(d1), GetISOWeek(d1), IsoWeekYear(d2), GetISOWeek(d2));
    if MondayOf(d1) == MondayOf(d2) {
      SameWeekSameIsoWeek(d1, d2);
    }
    if WeekLabel(d1) == WeekLabel(d2) {
      IsoWeekDeterminesWeek(d1, d2);
    }
  }

  /** The label as written agrees with the ISO label exactly on days whose calendar year is their week's year. */
  lemma WeekLabelAsWrittenAgrees(d: int)
    ensures WeekLabelAsWritten(d) == WeekLabel(d) <==> YearOf(d) == IsoWeekYear(d)
  {
    WeekTextInjective(YearOf(d), GetISOWeek(d), IsoWeekYear(d), GetISOWeek(d));
  }

  /**
   * When ISO week 1 of year `y` starts in `y` and ISO week 1 of `y + 1` starts
   * in late December of `y`, the label as written calls both weeks `y-W1`: the
   * hours of the two weeks, a year apart, land in one bucket. The ISO label
   * keeps them apart.
   */
  lemma WeekLabelAsWrittenCollides(y: int)
    requires JanFirst(y) <= WeekOneMonday(y) && WeekOneMonday(y + 1) < JanFirst(y + 1)
    requires y >= 100
    ensures WeekLabelAsWritten(WeekOneMonday(y)) == WeekLabelAsWritten(WeekOneMonday(y + 1))
    ensures MondayOf(WeekOneMonday(y)) != MondayOf(WeekOneMonday(y + 1))
    ensures WeekLabel(WeekOneMonday(y)) != WeekLabel(WeekOneMonday(y + 1))
  {
    var a, b := WeekOneMonday(y), WeekOneMonday(y + 1);
    WeekOneOfYear(y);
    WeekOneOfYear(y + 1);
    JanFirstNext(y);
    JanFirstNext(y + 1);
    MondayIsoWeek(a, y);
    MondayIsoWeek(b, y + 1);
    YearOfUnique(a, y);
    YearOfUnique(b, y);
    WeekTextInjective(y, 1, y + 1, 1);
  }

  /**
   * 2024 is such a year: ISO week 2024-W1 starts on Monday 2024-01-01 (day
   * 19723) and ISO week 2025-W1 on Monday 2024-12-30 (day 20087).
   */
  lemma WeekOneMondays2024()
    ensures WeekOneMonday(2024) == 19723 == JanFirst(2024)
    ensures WeekOneMonday(2025) == 20087 < JanFirst(2025)
  {
    assert JanFirst(2024) == 19723 && JanFirst(2025) == 20089;
  }

  // ---------------------------------------------------------------------------
  // The buckets of a log entry
  // ---------------------------------------------------------------------------

  /** The four period labels of a time value. */
  datatype Labels = Labels(day: string, week: string, month: string, year: string)

  /**
   * Which year names the week: the calendar year of the end date, as the code
   * has it, or the ISO 8601 week-numbering year the week number belongs to.
   */
  datatype WeekYear = CalendarYear | WeekNumberingYear

  /** The labels time value `t` is filed under; `updateAggregates` uses `CalendarYear`. */
  function PeriodLabels(t: int, wy: WeekYear): Labels
  {
    var d := t / MsPerDay;
    Labels(DayLabel(t), if wy == CalendarYear then WeekLabelAsWritten(d) else WeekLabel(d), MonthLabel(d), YearLabel(d))
  }

  /** `aggregates.${firstName}_${lastName}`. */
  function BucketPrefix(e: Employee): string
  {
    "aggregates." + e.firstName + "_" + e.lastName
  }

  /** The day, week, month and year buckets of an employee, in the order they are updated. */
  function BucketKeys(e: Employee, l: Labels): seq<string>
  {
    [ BucketPrefix(e) + ".day." + l.day,
      BucketPrefix(e) + ".week." + l.week,
      BucketPrefix(e) + ".month." + l.month,
      BucketPrefix(e) + ".year." + l.year ]
  }

  /** The four buckets of one entry are four different ids: they differ in the period word. */
  lemma BucketKeysDistinct(e: Employee, l: Labels)
    ensures |BucketKeys(e, l)| == 4 && Distinct(BucketKeys(e, l))
  {
    var keys, n := BucketKeys(e, l), |BucketPrefix(e)| + 1;
    assert keys[0][n] == 'd' && keys[1][n] == 'w' && keys[2][n] == 'm' && keys[3][n] == 'y';
  }

  /**
   * The week bucket of one set of labels is a bucket of another exactly when
   * the two week labels agree: the other three buckets differ in the period word.
   */
  lemma WeekBucketOnlyWeek(e: Employee, l1: Labels, l2: Labels)
    ensures BucketKeys(e, l1)[1] in BucketKeys(e, l2) <==> l1.week == l2.week
  {
    var k1, k2, p := BucketKeys(e, l1), BucketKeys(e, l2), BucketPrefix(e);
    var n := |p| + 1;
    assert k1[1][n] == 'w' && k2[0][n] == 'd' && k2[2][n] == 'm' && k2[3][n] == 'y';
    if k1[1] == k2[1] {
      assert k1[1][|p| + 6..] == l1.week;
      assert k2[1][|p| + 6..] == l2.week;
    }
  }

  /** The buckets of a log entry, or `None` when `new Date(endTime)` is an invalid date. */
  function EntryBuckets(e: Employee, entry: LogEntry, wy: WeekYear): (r: Option<seq<string>>)
    ensures r.Some? <==> ParseIso(entry.endTime).Some?
    ensures r.Some? ==> |r.value| == 4 && Distinct(r.value)
  {
    match ParseIso(entry.endTime)
    case None => None
    case Some(t) => BucketKeysDistinct(e, PeriodLabels(t, wy)); Some(BucketKeys(e, PeriodLabels(t, wy)))
  }

  /**
   * What `updateAggregates` does to the store: the entry's hours are added to
   * its four buckets, or nothing is written when its end time is not a date
   * (`toISOString` throws before the first write). The code is the
   * `CalendarYear` case.
   */
  function AfterUpdate(objects: map<string, StoreEntry>, e: Employee, entry: LogEntry, wy: WeekYear): map<string, StoreEntry>
  {
    match EntryBuckets(e, entry, wy)
    case None => objects
    case Some(keys) => AddToBuckets(objects, keys, entry.durationHours)
  }

  /** `updateAggregates` adds the hours to exactly the entry's four buckets and touches no other id. */
  lemma AfterUpdateEffect(objects: map<string, StoreEntry>, e: Employee, entry: LogEntry, wy: WeekYear, k: string)
    ensures var r := AfterUpdate(objects, e, entry, wy);
      var hit := EntryBuckets(e, entry, wy).Some? && k in EntryBuckets(e, entry, wy).value;
      && Total(r, k) == Total(objects, k) + (if hit then entry.durationHours else 0.0)
      && (hit ==> StateOf(r, k).Some? && StateOf(r, k).value.ack)
      && (!hit ==> (k in r <==> k in objects) && (k in objects ==> r[k] == objects[k]))
  {
    var b := EntryBuckets(e, entry, wy);
    if b.Some? {
      AddToBucketsEffect(objects, b.value, entry.durationHours, k);
    }
  }

  /** Aggregating into an empty store creates exactly the buckets, each holding the hours, acknowledged. */
  lemma AddToEmptyStore(keys: seq<string>, hours: real)
    requires Distinct(keys)
    ensures forall k :: k in AddToBuckets(map[], keys, hours) <==> k in keys
    ensures forall k :: k in keys ==> AddToBuckets(map[], keys, hours)[k] == StateHolder(TimeState(hours, true))
  {
    var r := AddToBuckets(map[], keys, hours);
    forall k
      ensures k in r <==> k in keys
      ensures k in keys ==> r[k] == StateHolder(TimeState(hours, true))
    {
      AddToBucketsEffect(map[], keys, hours, k);
    }
  }

  /** Four distinct buckets aggregated into an empty store: exactly those four, each holding the hours. */
  lemma FourBucketsOnEmpty(keys: seq<string>, hours: real)
    requires |keys| == 4 && Distinct(keys)
    ensures var v := StateHolder(TimeState(hours, true));
      AddToBuckets(map[], keys, hours) == map[keys[0] := v, keys[1] := v, keys[2] := v, keys[3] := v]
  {
    var v := StateHolder(TimeState(hours, true));
    AddToEmptyStore(keys, hours);
    assert AddToBuckets(map[], keys, hours).Keys == map[keys[0] := v, keys[1] := v, keys[2] := v, keys[3] := v].Keys;
  }

  /**
   * As written, in a year `y` whose week 1 starts on or after 1 January and
   * whose next year's week 1 starts in December of `y`, an entry ending on the
   * first of those Mondays and one ending on the second, a year apart, feed the
   * same week bucket (`...week.<y>-W1`): after both updates it holds the sum of
   * their hours.
   */
  lemma UpdateAsWrittenMergesWeeks(objects: map<string, StoreEntry>, e: Employee,
                                   entry1: LogEntry, entry2: LogEntry, t1: int, t2: int, y: int)
    requires y >= 100 && JanFirst(y) <= WeekOneMonday(y) && WeekOneMonday(y + 1) < JanFirst(y + 1)
    requires ParseIso(entry1.endTime) == Some(t1) && t1 / MsPerDay == WeekOneMonday(y)
    requires ParseIso(entry2.endTime) == Some(t2) && t2 / MsPerDay == WeekOneMonday(y + 1)
    ensures MondayOf(t1 / MsPerDay) != MondayOf(t2 / MsPerDay)
    ensures var k := EntryBuckets(e, entry1, CalendarYear).value[1];
      var r := AfterUpdate(AfterUpdate(objects, e, entry1, CalendarYear), e, entry2, CalendarYear);
      && k == EntryBuckets(e, entry2, CalendarYear).value[1]
      && Total(r, k) == Total(objects, k) + entry1.durationHours + entry2.durationHours
  {
    WeekLabelAsWrittenCollides(y);
    var k := EntryBuckets(e, entry1, CalendarYear).value[1];
    var mid := AfterUpdate(objects, e, entry1, CalendarYear);
    AfterUpdateEffect(objects, e, entry1, CalendarYear, k);
    AfterUpdateEffect(mid, e, entry2, CalendarYear, k);
  }

  /**
   * 2024 is such a year: entries ending on Monday 2024-01-01 (day 19723) and
   * on Monday 2024-12-30 (day 20087) share the week bucket `...week.2024-W1`.
   */
  lemma WeeksOf2024Merged(objects: map<string, StoreEntry>, e: Employee,
                          entry1: LogEntry, entry2: LogEntry, t1: int, t2: int)
    requires ParseIso(entry1.endTime) == Some(t1) && t1 / MsPerDay == 19723
    requires ParseIso(entry2.endTime) == Some(t2) && t2 / MsPerDay == 20087
    ensures MondayOf(t1 / MsPerDay) != MondayOf(t2 / MsPerDay)
    ensures var k := EntryBuckets(e, entry1, CalendarYear).value[1];
      var r := AfterUpdate(AfterUpdate(objects, e, entry1, CalendarYear), e, entry2, CalendarYear);
      && k == EntryBuckets(e, entry2, CalendarYear).value[1]
      && Total(r, k) == Total(objects, k) + entry1.durationHours + entry2.durationHours
  {
    WeekOneMondays2024();
    UpdateAsWrittenMergesWeeks(objects, e, entry1, entry2, t1, t2, 2024);
  }

  /**
   * With the week-numbering year, entries of different weeks feed different
   * week buckets: after both updates each week bucket holds only its own
   * entry's hours.
   */
  lemma UpdateIntendedSeparatesWeeks(objects: map<string, StoreEntry>, e: Employee,
                                     entry1: LogEntry, entry2: LogEntry, t1: int, t2: int)
    requires ParseIso(entry1.endTime) == Some(t1) && ParseIso(entry2.endTime) == Some(t2)
    requires MondayOf(t1 / MsPerDay) != MondayOf(t2 / MsPerDay)
    ensures var k1, k2 := EntryBuckets(e, entry1, WeekNumberingYear).value[1], EntryBuckets(e, entry2, WeekNumberingYear).value[1];
      var r := AfterUpdate(AfterUpdate(objects, e, entry1, WeekNumberingYear), e, entry2, WeekNumberingYear);
      && k1 != k2
      && Total(r, k1) == Total(objects, k1) + entry1.durationHours
      && Total(r, k2) == Total(objects, k2) + entry2.durationHours
  {
    var l1, l2 := PeriodLabels(t1, WeekNumberingYear), PeriodLabels(t2, WeekNumberingYear);
    var b1, b2 := BucketKeys(e, l1), BucketKeys(e, l2);
    WeekLabelIdentifiesWeek(t1 / MsPerDay, t2 / MsPerDay);
    WeekBucketOnlyWeek(e, l1, l2);
    WeekBucketOnlyWeek(e, l2, l1);
    var mid := AfterUpdate(objects, e, entry1, WeekNumberingYear);
    AfterUpdateEffect(objects, e, entry1, WeekNumberingYear, b1[1]);
    AfterUpdateEffect(mid, e, entry2, WeekNumberingYear, b1[1]);
    AfterUpdateEffect(objects, e, entry1, WeekNumberingYear, b2[1]);
    AfterUpdateEffect(mid, e, entry2, WeekNumberingYear, b2[1]);
  }

  // ---------------------------------------------------------------------------
  // The aggregation run: four hours ending 2025-02-23T12:00:00.000Z
  // ---------------------------------------------------------------------------

  /** The zero-padded fields of 2025-02-23T12:00:00.000Z. */
  lemma ScenarioFields()
    ensures Pad(2025, 4) == "2025" && Pad(2, 2) == "02" && Pad(23, 2) == "23" && Pad(12, 2) == "12"
    ensures Pad(0, 2) == "00" && Pad(0, 3) == "000"
  {
  }

  /** 2025-02-23 is day 20142; noon of it is time value 1740312000000. */
  lemma ScenarioDate(c: Date)
    requires c == Date(2025, 2, 23)
    ensures ValidDate(c) && DaysFromCivil(c) == 20142
    ensures TimeValue(c, 12, 0, 0, 0) == Some(1740312000000)
  {
  }

  /** The run's end time is laid out as `toISOString` lays out its fields. */
  lemma ScenarioLayout(s: string)
    requires s == "2025-02-23T12:00:00.000Z"
    ensures s == IsoLayout("2025", "02", "23", "12", "00", "00", "000")
  {
  }

  /** The run's end time reads as time value 1740312000000. */
  lemma ScenarioEndTime(s: string)
    requires s == "2025-02-23T12:00:00.000Z"
    ensures ParseIso(s) == Some(1740312000000)
  {
    var c := Date(2025, 2, 23);
    ScenarioFields();
    ScenarioDate(c);
    ScenarioLayout(s);
    ParsePadded(c, 12, 0, 0, 0);
  }

  /** Day 20142 is 2025-02-23. */
  lemma ScenarioDay(d: int, c: Date)
    requires d == 20142 && c == Date(2025, 2, 23)
    ensures CivilFromDays(d) == c && YearOf(d) == 2025
  {
    ScenarioDate(c);
    CivilRoundTrip(c);
  }

  /** 2025-02-23 is a Sunday of ISO week 8 of 2025, whose Monday is 2025-02-17 (day 20136). */
  lemma ScenarioIsoWeek(d: int, y: int)
    requires d == 20142 && y == 2025
    ensures IsoWeekYear(d) == y && GetISOWeek(d) == 8
  {
    assert JanFirst(y) == 20089 && JanFirst(y + 1) == 20454;
    assert ThursdayOf(d) == 20139 && MondayOf(d) == 20136 && WeekOneMonday(y) == 20087;
    IsoWeekOf(d, y);
  }

  /** The texts of the run's labels. */
  lemma ScenarioTexts(c: Date, y: int, w: int)
    requires c == Date(2025, 2, 23) && y == 2025 && w == 8
    ensures DateFields(c) == "2025-02-23" && WeekText(y, w) == "2025-W8"
    ensures MonthText(y, c.month) == "2025-02" && IntToString(y) == "2025"
  {
    ScenarioFields();
  }

  /** The run's entry is filed under day 2025-02-23, week 2025-W8, month 2025-02 and year 2025. */
  lemma ScenarioLabels(t: int)
    requires t == 1740312000000
    ensures PeriodLabels(t, CalendarYear) == Labels("2025-02-23", "2025-W8", "2025-02", "2025")
  {
    var d, c := t / MsPerDay, Date(2025, 2, 23);
    assert d == 20142;
    ScenarioDay(d, c);
    ScenarioIsoWeek(d, 2025);
    DayLabelIsDate(t);
    ScenarioTexts(c, YearOf(d), GetISOWeek(d));
  }

  /** The bucket ids of the run's labels. */
  lemma ScenarioKeys(e: Employee, l: Labels)
    requires e == Employee("Max", "Mustermann") && l == Labels("2025-02-23", "2025-W8", "2025-02", "2025")
    ensures BucketKeys(e, l)
         == ["aggregates.Max_Mustermann.day.2025-02-23", "aggregates.Max_Mustermann.week.2025-W8",
             "aggregates.Max_Mustermann.month.2025-02", "aggregates.Max_Mustermann.year.2025"]
  {
    var p := BucketPrefix(e);
    assert p == "aggregates.Max_Mustermann";
    assert p + ".day." + l.day == "aggregates.Max_Mustermann.day.2025-02-23";
    assert p + ".week." + l.week == "aggregates.Max_Mustermann.week.2025-W8";
    assert p + ".month." + l.month == "aggregates.Max_Mustermann.month.2025-02";
    assert p + ".year." + l.year == "aggregates.Max_Mustermann.year.2025";
  }

  /** The run's buckets. */
  lemma ScenarioBuckets(e: Employee, entry: LogEntry)
    requires e == Employee("Max", "Mustermann") && entry.endTime == "2025-02-23T12:00:00.000Z"
    ensures EntryBuckets(e, entry, CalendarYear)
         == Some(["aggregates.Max_Mustermann.day.2025-02-23", "aggregates.Max_Mustermann.week.2025-W8",
                  "aggregates.Max_Mustermann.month.2025-02", "aggregates.Max_Mustermann.year.2025"])
  {
    ScenarioEndTime(entry.endTime);
    var t := ParseIso(entry.endTime).value;
    ScenarioLabels(t);
    ScenarioKeys(e, PeriodLabels(t, CalendarYear));
  }

  /**
   * The aggregation run: four hours of Max Mustermann ending
   * 2025-02-23T12:00:00.000Z, aggregated into an empty store, leave four
   * buckets of 4 hours each.
   */
  lemma AggregationScenario(e: Employee, entry: LogEntry)
    requires e == Employee("Max", "Mustermann")
    requires entry.endTime == "2025-02-23T12:00:00.000Z" && entry.durationHours == 4.0
    ensures var four := StateHolder(TimeState(4.0, true));
      AfterUpdate(map[], e, entry, CalendarYear)
        == map["aggregates.Max_Mustermann.day.2025-02-23" := four,
               "aggregates.Max_Mustermann.week.2025-W8" := four,
               "aggregates.Max_Mustermann.month.2025-02" := four,
               "aggregates.Max_Mustermann.year.2025" := four]
  {
    ScenarioBuckets(e, entry);
    FourBucketsOnEmpty(EntryBuckets(e, entry, CalendarYear).value, entry.durationHours);
  }

  // ---------------------------------------------------------------------------
  // The aggregation adapter
  // ---------------------------------------------------------------------------

  /** The aggregation adapter over its object tree. */
  class AggregationStore {
    var objects: map<string, StoreEntry>

    constructor ()
      ensures objects == map[]
    {
      objects := map[];
    }

    /** `setObjectNotExistsAsync(id, obj)`: stores `obj` only when nothing is stored under `id`. */
    method SetObjectNotExists(id: string, obj: StoreEntry)
      modifies this
      ensures objects == if id in old(objects) then old(objects) else old(objects)[id := obj]
    {
      if id !in objects {
        objects := objects[id := obj];
      }
    }

    /** `setStateAsync(id, state)`: replaces whatever is stored under `id` by `{state}`. */
    method SetState(id: string, state: TimeState)
      modifies this
      ensures objects == old(objects)[id := StateHolder(state)]
    {
      objects := objects[id := StateHolder(state)];
    }

    /** `getStateAsync(id)`. */
    method GetState(id: string) returns (r: Option<TimeState>)
      ensures r == StateOf(objects, id)
    {
      if id in objects && objects[id].StateHolder? {
        r := Some(objects[id].state);
      } else {
        r := None;
      }
    }

    /** `aggregateForKey(key, hours)`: read the total, add the hours, create the state object if needed, store the sum. */
    method AggregateForKey(key: string, hours: real)
      modifies this
      ensures objects == AddHours(old(objects), key, hours)
    {
      var current := GetState(key);
      var total := if current.Some? && current.value.val != 0.0 then current.value.val else 0.0;
      total := total + hours;
      SetObjectNotExists(key, StateObject(key));
      SetState(key, TimeState(total, true));
    }

    /**
     * `updateAggregates(employee, logEntry)`: `ok` is false when the end time
     * is not a date, in which case nothing is written.
     */
    method UpdateAggregates(employee: Employee, entry: LogEntry) returns (ok: bool)
      modifies this
      ensures ok <==> ParseIso(entry.endTime).Some?
      ensures objects == AfterUpdate(old(objects), employee, entry, CalendarYear)
    {
      var buckets := EntryBuckets(employee, entry, CalendarYear);
      if buckets.None? {
        return false;
      }
      var keys := buckets.value;
      ghost var start := objects;
      AggregateForKey(keys[0], entry.durationHours);
      AggregateForKey(keys[1], entry.durationHours);
      AggregateForKey(keys[2], entry.durationHours);
      AggregateForKey(keys[3], entry.durationHours);
      AddToFourBuckets(start, keys, entry.durationHours);
      ok := true;
    }
  }
}
