/**
 * The specification of `groupedHourlyWeatherByDay`: hourly records are put into buckets
 * keyed by the day of the month of their Unix timestamp, and the keys are then renumbered
 * 0, 1, 2, … in ascending order of the day.
 */
module DayGrouping {
  import opened Wrappers
  import opened WeatherAPI
  import Models

  /** `Calendar.current.component(.day, from:)` gives a day of the month. */
  type DayOfMonth = d: int | 1 <= d <= 31 witness 1

  /**
   * What the platform computes and the model leaves abstract: `Double(String)`, the day of
   * the month of an epoch, a running day number of an epoch (its year, month and day, so
   * that `uniqueDays` is a difference of two of them), and the capitalised weekday name.
   */
  datatype Platform = Platform(
    parseDouble: string -> Option<real>,
    dayFromEpoch: real -> DayOfMonth,
    ordinalDay: real -> int,
    prettyWeekday: real -> string)

  /** The numeric Unix timestamp of a record, when it has one. */
  function Epoch(p: Platform, rec: Record): Option<real> {
    match Models.Lookup(rec, "hourlyUnixTimestamp")
    case None => None
    case Some(s) => p.parseDouble(s)
  }

  predicate Dated(p: Platform, rec: Record) {
    Epoch(p, rec).Some?
  }

  predicate AllDated(p: Platform, records: HourlyData) {
    forall i :: 0 <= i < |records| ==> Dated(p, records[i])
  }

  function DayOf(p: Platform, rec: Record): DayOfMonth
    requires Dated(p, rec)
  {
    p.dayFromEpoch(Epoch(p, rec).value)
  }

  /** The distinct day values of the records. */
  function Days(p: Platform, records: HourlyData): (s: set<int>)
    requires AllDated(p, records)
    ensures forall d :: d in s ==> exists i :: 0 <= i < |records| && DayOf(p, records[i]) == d
    ensures forall i :: 0 <= i < |records| ==> DayOf(p, records[i]) in s
    ensures forall d :: d in s ==> d >= 1
  {
    if records == [] then {}
    else Days(p, records[..|records| - 1]) + {DayOf(p, records[|records| - 1])}
  }

  /** The records of day `d`, in input order. */
  function Bucket(p: Platform, records: HourlyData, d: int): (b: HourlyData)
    requires AllDated(p, records)
    ensures |b| > 0 <==> d in Days(p, records)
    ensures forall j :: 0 <= j < |b| ==> Dated(p, b[j]) && DayOf(p, b[j]) == d
  {
    if records == [] then []
    else
      var last := records[|records| - 1];
      Bucket(p, records[..|records| - 1], d) + (if DayOf(p, last) == d then [last] else [])
  }

  predicate Increasing(ks: seq<int>) {
    forall i, j :: 0 <= i < j < |ks| ==> ks[i] < ks[j]
  }

  lemma HasElement(s: set<int>)
    requires s != {}
    ensures exists x :: x in s
  {
    if forall y :: y !in s {
      assert false;
    }
  }

  lemma {:induction false} MaxExists(s: set<int>)
    requires s != {}
    ensures exists m :: m in s && forall x :: x in s ==> x <= m
    decreases |s|
  {
    HasElement(s);
    var x :| x in s;
    var rest := s - {x};
    if rest == {} {
      forall y | y in s
        ensures y <= x
      {
        assert y == x || y in rest;
      }
      assert x in s;
    } else {
      MaxExists(rest);
      var m :| m in rest && forall y :: y in rest ==> y <= m;
      var top := if x <= m then m else x;
      forall y | y in s
        ensures y <= top
      {
        assert y == x || y in rest;
      }
      assert top in s;
    }
  }

  /** Appending the maximum to an ascending listing of the rest lists the whole set. */
  lemma SortedStep(s: set<int>, m: int, rest: seq<int>)
    requires m in s && forall x :: x in s ==> x <= m
    requires |rest| == |s - {m}|
    requires forall x :: x in s - {m} <==> x in rest
    requires Increasing(rest)
    ensures |rest + [m]| == |s|
    ensures forall x :: x in s <==> x in rest + [m]
    ensures Increasing(rest + [m])
  {
    var ks := rest + [m];
    forall i, j | 0 <= i < j < |ks|
      ensures ks[i] < ks[j]
    {
      if j == |rest| {
        assert ks[i] == rest[i] && ks[j] == m;
        assert rest[i] in rest;
        assert rest[i] in s - {m};
      } else {
        assert ks[i] == rest[i] && ks[j] == rest[j];
      }
    }
    forall x | x in s
      ensures x in ks
    {
      if x != m {
        assert x in s - {m};
        assert x in rest;
      }
    }
  }

  /** The largest element of a non-empty set. */
  ghost function Max(s: set<int>): (m: int)
    requires s != {}
    ensures m in s && forall x :: x in s ==> x <= m
  {
    MaxExists(s);
    var m :| m in s && forall x :: x in s ==> x <= m;
    m
  }

  /** `keys.sorted()`: the elements of `s` in ascending order, the largest last. */
  ghost function Sorted(s: set<int>): seq<int>
    decreases |s|
  {
    if s == {} then [] else Sorted(s - {Max(s)}) + [Max(s)]
  }

  /** `Sorted(s)` lists every element of `s` once, in ascending order. */
  lemma {:induction false} SortedLists(s: set<int>)
    ensures |Sorted(s)| == |s|
    ensures forall x :: x in s <==> x in Sorted(s)
    ensures Increasing(Sorted(s))
    decreases |s|
  {
    if s != {} {
      var m := Max(s);
      SortedLists(s - {m});
      SortedStep(s, m, Sorted(s - {m}));
    }
  }

  /** Two ascending sequences with the same elements are equal. */
  lemma {:induction false} IncreasingUnique(a: seq<int>, b: seq<int>)
    requires |a| == |b|
    requires Increasing(a) && Increasing(b)
    requires forall x :: x in a <==> x in b
    ensures a == b
    decreases |a|
  {
    if a != [] && b != [] {
      assert a[0] == b[0] by {
        assert a[0] in a;
        assert b[0] in b;
        assert a[0] in b;
        assert b[0] in a;
      }
      assert a == [a[0]] + a[1..];
      assert b == [b[0]] + b[1..];
      forall x
        ensures x in a[1..] <==> x in b[1..]
      {
        if x in a[1..] {
          var i :| 0 <= i < |a[1..]| && a[1..][i] == x;
          assert a[0] < a[i + 1];
          assert x in b;
        }
        if x in b[1..] {
          var i :| 0 <= i < |b[1..]| && b[1..][i] == x;
          assert b[0] < b[i + 1];
          assert x in a;
        }
      }
      IncreasingUnique(a[1..], b[1..]);
    }
  }

  /** An ascending sequence listing exactly `s` is `Sorted(s)`. */
  lemma SortedUnique(s: set<int>, ks: seq<int>)
    requires |ks| == |s|
    requires Increasing(ks)
    requires forall x :: x in s <==> x in ks
    ensures Sorted(s) == ks
  {
    SortedLists(s);
    IncreasingUnique(Sorted(s), ks);
  }

  /** Days are at least 1 and ascending, so the `t`-th of them is above `t`. */
  lemma {:induction false} SortedAboveIndex(s: set<int>, t: nat)
    requires forall x :: x in s ==> x >= 1
    requires t < |Sorted(s)|
    ensures Sorted(s)[t] >= t + 1
  {
    SortedLists(s);
    var ks := Sorted(s);
    assert ks[t] in s;
    if t > 0 {
      SortedAboveIndex(s, t - 1);
      assert ks[t - 1] < ks[t];
    }
  }

  /** The result of grouping when every record has a numeric timestamp. */
  ghost function Renumbered(p: Platform, records: HourlyData): map<int, HourlyData>
    requires AllDated(p, records)
  {
    var ks := Sorted(Days(p, records));
    map u | 0 <= u < |ks| :: Bucket(p, records, ks[u])
  }

  /** `[0: [["": nil]]]`, returned when some record has no numeric timestamp. */
  const Placeholder: map<int, HourlyData> := map[0 := [map["" := None]]]

  /** What `groupedHourlyWeatherByDay` returns. */
  ghost function Grouping(p: Platform, records: HourlyData): map<int, HourlyData> {
    if AllDated(p, records) then Renumbered(p, records) else Placeholder
  }

  /**
   * The keys of a grouping are exactly 0 … k-1 for k distinct days; bucket `u` holds the
   * records of the `u`-th smallest day, every one of them of that day, and none is empty.
   * A record without a numeric timestamp gives the placeholder, never a partial grouping.
   */
  lemma GroupingShape(p: Platform, records: HourlyData)
    ensures !AllDated(p, records) ==> Grouping(p, records) == Placeholder
    ensures AllDated(p, records) ==>
              forall k :: k in Grouping(p, records) <==> 0 <= k < |Days(p, records)|
    ensures AllDated(p, records) ==>
              forall u :: 0 <= u < |Days(p, records)| ==>
                && Grouping(p, records)[u] == Bucket(p, records, Sorted(Days(p, records))[u])
                && |Grouping(p, records)[u]| > 0
  {
    if AllDated(p, records) {
      SortedLists(Days(p, records));
      var ks := Sorted(Days(p, records));
      forall u | 0 <= u < |ks|
        ensures |Bucket(p, records, ks[u])| > 0
      {
        assert ks[u] in Days(p, records);
      }
    }
  }

  /** Appending a record only extends the bucket of its own day. */
  lemma BucketSnoc(p: Platform, records: HourlyData, r: Record, d: int)
    requires AllDated(p, records) && Dated(p, r)
    ensures AllDated(p, records + [r])
    ensures Bucket(p, records + [r], d) ==
            Bucket(p, records, d) + (if DayOf(p, r) == d then [r] else [])
    ensures Days(p, records + [r]) == Days(p, records) + {DayOf(p, r)}
  {
    assert (records + [r])[..|records|] == records;
    assert (records + [r])[|records|] == r;
  }

  /** The records of the buckets of `ks`, concatenated in the order of `ks`. */
  function Concat(p: Platform, records: HourlyData, ks: seq<int>): HourlyData
    requires AllDated(p, records)
  {
    if ks == [] then []
    else Concat(p, records, ks[..|ks| - 1]) + Bucket(p, records, ks[|ks| - 1])
  }

  /** The total size of the buckets of `ks`. */
  function Sizes(p: Platform, records: HourlyData, ks: seq<int>): nat
    requires AllDated(p, records)
  {
    if ks == [] then 0
    else Sizes(p, records, ks[..|ks| - 1]) + |Bucket(p, records, ks[|ks| - 1])|
  }

  lemma {:induction false} SizesSnoc(p: Platform, records: HourlyData, r: Record, ks: seq<int>)
    requires AllDated(p, records) && Dated(p, r)
    ensures AllDated(p, records + [r])
    ensures Sizes(p, records + [r], ks) == Sizes(p, records, ks) + Count(ks, DayOf(p, r))
  {
    BucketSnoc(p, records, r, 0);
    if ks != [] {
      var front, k := ks[..|ks| - 1], ks[|ks| - 1];
      SizesSnoc(p, records, r, front);
      BucketSnoc(p, records, r, k);
    }
  }

  /** How many times `d` occurs in `ks`. */
  function Count(ks: seq<int>, d: int): nat {
    if ks == [] then 0
    else Count(ks[..|ks| - 1], d) + (if ks[|ks| - 1] == d then 1 else 0)
  }

  lemma {:induction false} OccursOnce(ks: seq<int>, d: int)
    requires Increasing(ks)
    ensures Count(ks, d) == if d in ks then 1 else 0
  {
    if ks != [] {
      var front, k := ks[..|ks| - 1], ks[|ks| - 1];
      OccursOnce(front, d);
      assert ks == front + [k];
      if k == d {
        assert d !in front by {
          forall i | 0 <= i < |front|
            ensures front[i] != d
          {
            assert ks[i] < ks[|ks| - 1];
          }
        }
      }
    }
  }

  /** The bucket sizes of any ascending list of all days add up to the number of records. */
  lemma {:induction false} SizesTotal(p: Platform, records: HourlyData, ks: seq<int>)
    requires AllDated(p, records)
    requires Increasing(ks)
    requires forall d :: d in Days(p, records) ==> d in ks
    ensures Sizes(p, records, ks) == |records|
    decreases |records|
  {
    if records == [] {
      SizesEmpty(p, records, ks);
    } else {
      var front := records[..|records| - 1];
      var r := records[|records| - 1];
      assert records == front + [r];
      assert Dated(p, records[|records| - 1]);
      SizesSnoc(p, front, r, ks);
      SizesTotal(p, front, ks);
      OccursOnce(ks, DayOf(p, r));
    }
  }

  lemma {:induction false} SizesEmpty(p: Platform, records: HourlyData, ks: seq<int>)
    requires records == []
    ensures Sizes(p, records, ks) == 0
  {
    if ks != [] {
      SizesEmpty(p, records, ks[..|ks| - 1]);
    }
  }

  /** The total number of records in a grouping is the number of records grouped. */
  lemma GroupingCount(p: Platform, records: HourlyData)
    requires AllDated(p, records)
    ensures Sizes(p, records, Sorted(Days(p, records))) == |records|
  {
    SortedLists(Days(p, records));
    SizesTotal(p, records, Sorted(Days(p, records)));
  }

  /** Dropping the last key of an ascending list: what stays ascending, and where a key can be. */
  lemma Unsnoc(ks: seq<int>, d: int)
    requires Increasing(ks) && ks != []
    ensures Increasing(ks[..|ks| - 1])
    ensures d in ks <==> d in ks[..|ks| - 1] || d == ks[|ks| - 1]
    ensures d == ks[|ks| - 1] ==> d !in ks[..|ks| - 1]
  {
    var front, k := ks[..|ks| - 1], ks[|ks| - 1];
    assert ks == front + [k];
    if d == k {
      forall i | 0 <= i < |front|
        ensures front[i] != k
      {
        assert ks[i] < ks[|ks| - 1];
      }
    }
  }

  /** Appending a record adds it once to the buckets of an ascending key list that holds its day. */
  lemma {:induction false} ConcatSnoc(p: Platform, records: HourlyData, r: Record, ks: seq<int>)
    requires AllDated(p, records) && Dated(p, r)
    requires Increasing(ks)
    ensures AllDated(p, records + [r])
    ensures multiset(Concat(p, records + [r], ks)) ==
            multiset(Concat(p, records, ks)) + (if DayOf(p, r) in ks then multiset{r} else multiset{})
  {
    BucketSnoc(p, records, r, 0);
    if ks != [] {
      var front, k := ks[..|ks| - 1], ks[|ks| - 1];
      var d := DayOf(p, r);
      Unsnoc(ks, d);
      ConcatSnoc(p, records, r, front);
      BucketSnoc(p, records, r, k);
      var old_front, new_front := Concat(p, records, front), Concat(p, records + [r], front);
      assert Concat(p, records + [r], ks) == new_front + Bucket(p, records + [r], k);
      assert Concat(p, records, ks) == old_front + Bucket(p, records, k);
    }
  }

  lemma {:induction false} ConcatEmpty(p: Platform, records: HourlyData, ks: seq<int>)
    requires records == []
    ensures Concat(p, records, ks) == []
  {
    if ks != [] {
      ConcatEmpty(p, records, ks[..|ks| - 1]);
    }
  }

  /**
   * Grouping neither loses nor duplicates a record: the buckets of any ascending list of
   * all days, laid end to end, are a permutation of the records.
   */
  lemma {:induction false} ConcatPermutes(p: Platform, records: HourlyData, ks: seq<int>)
    requires AllDated(p, records)
    requires Increasing(ks)
    requires forall d :: d in Days(p, records) ==> d in ks
    ensures multiset(Concat(p, records, ks)) == multiset(records)
    decreases |records|
  {
    if records == [] {
      ConcatEmpty(p, records, ks);
    } else {
      var front := records[..|records| - 1];
      var r := records[|records| - 1];
      assert records == front + [r];
      assert Dated(p, records[|records| - 1]);
      ConcatSnoc(p, front, r, ks);
      assert Days(p, records) == Days(p, front) + {DayOf(p, r)};
      ConcatPermutes(p, front, ks);
    }
  }

  /** Every record lands in exactly one section of the grouping, as often as it was grouped. */
  lemma GroupingPermutes(p: Platform, records: HourlyData)
    requires AllDated(p, records)
    ensures multiset(Concat(p, records, Sorted(Days(p, records)))) == multiset(records)
  {
    SortedLists(Days(p, records));
    ConcatPermutes(p, records, Sorted(Days(p, records)));
  }

  /** Buckets of days other than the appended record's are not affected by it. */
  lemma {:induction false} ConcatOthers(p: Platform, front: HourlyData, r: Record, ks: seq<int>)
    requires AllDated(p, front) && Dated(p, r)
    requires DayOf(p, r) !in ks
    ensures AllDated(p, front + [r])
    ensures Concat(p, front + [r], ks) == Concat(p, front, ks)
  {
    BucketSnoc(p, front, r, 0);
    if ks != [] {
      ConcatOthers(p, front, r, ks[..|ks| - 1]);
      BucketSnoc(p, front, r, ks[|ks| - 1]);
    }
  }

  /** In an ascending sequence, an element no smaller than any other is the last one. */
  lemma LastOfIncreasing(ks: seq<int>, d: int)
    requires Increasing(ks)
    requires d in ks && forall x :: x in ks ==> x <= d
    ensures ks == ks[..|ks| - 1] + [d]
    ensures d !in ks[..|ks| - 1]
  {
    var t :| 0 <= t < |ks| && ks[t] == d;
    var last := |ks| - 1;
    assert ks[last] in ks;
    assert ks[last] <= ks[t];
    assert t == last;
    forall i | 0 <= i < last
      ensures ks[..last][i] != d
    {
      assert ks[i] < ks[last];
    }
  }

  /** Concatenating after appending `r`, when `d`, the day of `r`, is the last key. */
  lemma ConcatLastDay(p: Platform, front: HourlyData, r: Record, init: seq<int>)
    requires AllDated(p, front) && Dated(p, r)
    requires DayOf(p, r) !in init
    ensures AllDated(p, front + [r])
    ensures Concat(p, front + [r], init + [DayOf(p, r)]) ==
            Concat(p, front, init + [DayOf(p, r)]) + [r]
  {
    var d := DayOf(p, r);
    var ks := init + [d];
    BucketSnoc(p, front, r, d);
    ConcatOthers(p, front, r, init);
    assert ks[..|ks| - 1] == init;
  }

  /** Appending a record of the latest day already present extends the last bucket. */
  lemma AppendSameDay(p: Platform, front: HourlyData, r: Record)
    requires AllDated(p, front) && Dated(p, r)
    requires DayOf(p, r) in Days(p, front)
    requires forall x :: x in Days(p, front) ==> x <= DayOf(p, r)
    ensures AllDated(p, front + [r])
    ensures Sorted(Days(p, front + [r])) == Sorted(Days(p, front))
    ensures Concat(p, front + [r], Sorted(Days(p, front))) == Concat(p, front, Sorted(Days(p, front))) + [r]
  {
    var d := DayOf(p, r);
    var S := Days(p, front);
    BucketSnoc(p, front, r, d);
    assert Days(p, front + [r]) == S;
    SortedLists(S);
    var ks := Sorted(S);
    LastOfIncreasing(ks, d);
    ConcatLastDay(p, front, r, ks[..|ks| - 1]);
  }

  /** Adding an element above all others puts it last in the ascending listing. */
  lemma SortedAddMax(S: set<int>, d: int)
    requires d !in S && forall x :: x in S ==> x <= d
    ensures Sorted(S + {d}) == Sorted(S) + [d]
  {
    var s := S + {d};
    assert Max(s) == d by {
      assert d in s;
    }
    assert s - {d} == S;
  }

  /** Appending a record of a later day than all present adds a last bucket holding it. */
  lemma AppendNewDay(p: Platform, front: HourlyData, r: Record)
    requires AllDated(p, front) && Dated(p, r)
    requires DayOf(p, r) !in Days(p, front)
    requires forall x :: x in Days(p, front) ==> x <= DayOf(p, r)
    ensures AllDated(p, front + [r])
    ensures Sorted(Days(p, front + [r])) == Sorted(Days(p, front)) + [DayOf(p, r)]
    ensures Concat(p, front + [r], Sorted(Days(p, front)) + [DayOf(p, r)]) ==
            Concat(p, front, Sorted(Days(p, front))) + [r]
  {
    var d := DayOf(p, r);
    var S := Days(p, front);
    BucketSnoc(p, front, r, d);
    SortedAddMax(S, d);
    SortedLists(S);
    ConcatNewDay(p, front, r, Sorted(S));
  }

  /** A key without records adds nothing to the concatenation. */
  lemma ConcatNewDay(p: Platform, front: HourlyData, r: Record, ks: seq<int>)
    requires AllDated(p, front) && Dated(p, r)
    requires DayOf(p, r) !in Days(p, front) && DayOf(p, r) !in ks
    ensures AllDated(p, front + [r])
    ensures Concat(p, front + [r], ks + [DayOf(p, r)]) == Concat(p, front, ks) + [r]
  {
    var d := DayOf(p, r);
    ConcatLastDay(p, front, r, ks);
    var ks' := ks + [d];
    assert ks'[..|ks'| - 1] == ks;
    assert Bucket(p, front, d) == [];
  }

  /**
   * When the days of the records never decrease (the service lists hours in time order
   * within one month), concatenating the buckets in key order gives back the records:
   * none is lost, duplicated or reordered.
   */
  lemma {:induction false} GroupingKeepsOrder(p: Platform, records: HourlyData)
    requires AllDated(p, records)
    requires forall i, j :: 0 <= i < j < |records| ==> DayOf(p, records[i]) <= DayOf(p, records[j])
    ensures Concat(p, records, Sorted(Days(p, records))) == records
    decreases |records|
  {
    if records != [] {
      var front, r := records[..|records| - 1], records[|records| - 1];
      assert records == front + [r];
      assert Dated(p, r);
      assert AllDated(p, front);
      GroupingKeepsOrder(p, front);
      forall x | x in Days(p, front)
        ensures x <= DayOf(p, r)
      {
        var i :| 0 <= i < |front| && DayOf(p, front[i]) == x;
        assert records[i] == front[i];
      }
      if DayOf(p, r) in Days(p, front) {
        AppendSameDay(p, front, r);
      } else {
        AppendNewDay(p, front, r);
      }
    }
  }

  /** One hourly record holding only a Unix timestamp. */
  function Stamped(epoch: string): Record {
    map["hourlyUnixTimestamp" := Some(epoch)]
  }

  /** A platform on which epoch 100 falls on the 31st and epoch 200 on the 1st of the next month. */
  function MonthEnd(): Platform {
    Platform(
      s => if s == "100" then Some(100.0) else if s == "200" then Some(200.0) else None,
      e => if e < 150.0 then 31 else 1,
      e => if e < 150.0 then 0 else 1,
      e => "")
  }

  /**
   * Grouping by the day of the month alone: across a month boundary the later hour gets
   * section 0 and the earlier one section 1.
   */
  lemma MonthBoundary()
    ensures Grouping(MonthEnd(), [Stamped("100"), Stamped("200")]) ==
            map[0 := [Stamped("200")], 1 := [Stamped("100")]]
  {
    var p := MonthEnd();
    var records := [Stamped("100"), Stamped("200")];
    MonthBoundaryDays();
    MonthBoundarySorted();
    MonthBoundaryBuckets();
    RenumberedTwoDays(p, records, 1, 31);
  }

  /** Records of exactly two days are renumbered into two sections, the smaller day first. */
  lemma RenumberedTwoDays(p: Platform, records: HourlyData, a: int, b: int)
    requires AllDated(p, records)
    requires Sorted(Days(p, records)) == [a, b]
    ensures Renumbered(p, records) == map[0 := Bucket(p, records, a), 1 := Bucket(p, records, b)]
  {
    var g := Renumbered(p, records);
    assert forall u :: u in g <==> 0 <= u < 2;
    assert g[0] == Bucket(p, records, a);
    assert g[1] == Bucket(p, records, b);
    PairMap(g, Bucket(p, records, a), Bucket(p, records, b));
  }

  lemma PairMap<V>(m: map<int, V>, x: V, y: V)
    requires forall u :: u in m <==> 0 <= u < 2
    requires 0 in m && 1 in m && m[0] == x && m[1] == y
    ensures m == map[0 := x, 1 := y]
  {
    var t := map[0 := x, 1 := y];
    assert forall k :: k in m <==> k in t;
    assert forall k :: k in m ==> m[k] == t[k];
  }

  lemma MonthBoundarySorted()
    requires AllDated(MonthEnd(), [Stamped("100"), Stamped("200")])
    ensures Sorted(Days(MonthEnd(), [Stamped("100"), Stamped("200")])) == [1, 31]
  {
    MonthBoundaryDays();
    SortedUnique({31, 1}, [1, 31]);
  }

  lemma MonthBoundaryBuckets()
    requires AllDated(MonthEnd(), [Stamped("100"), Stamped("200")])
    ensures Bucket(MonthEnd(), [Stamped("100"), Stamped("200")], 1) == [Stamped("200")]
    ensures Bucket(MonthEnd(), [Stamped("100"), Stamped("200")], 31) == [Stamped("100")]
  {
    MonthBoundaryDays();
    var records := [Stamped("100"), Stamped("200")];
    assert records[..1] == [Stamped("100")];
  }

  lemma MonthBoundaryDays()
    ensures AllDated(MonthEnd(), [Stamped("100"), Stamped("200")])
    ensures DayOf(MonthEnd(), Stamped("100")) == 31
    ensures DayOf(MonthEnd(), Stamped("200")) == 1
    ensures Days(MonthEnd(), [Stamped("100"), Stamped("200")]) == {31, 1}
    ensures |{31, 1}| == 2
  {
    var p := MonthEnd();
    var records := [Stamped("100"), Stamped("200")];
    assert Epoch(p, records[0]) == Some(100.0);
    assert Epoch(p, records[1]) == Some(200.0);
    assert records[..1] == [Stamped("100")];
  }

  /** `grouped.keys.sorted()`: the largest remaining key is taken, last to first. */
  method SortKeys(keys: set<int>) returns (ks: seq<int>)
    ensures ks == Sorted(keys)
  {
    ks := [];
    var rest := keys;
    while rest != {}
      invariant Sorted(keys) == Sorted(rest) + ks
      decreases |rest|
    {
      MaxExists(rest);
      var m :| m in rest && forall x :: x in rest ==> x <= m;
      assert m == Max(rest);
      assert Sorted(rest) == Sorted(rest - {m}) + [m];
      ks := [m] + ks;
      rest := rest - {m};
    }
  }
}
