/**
 * The specification of `minTemp`, `maxTemp`, `itemOfFirstMin`, `itemOfFirstMax` and
 * `tint`: temperatures of a section are read as integers, the extreme of the section is
 * found, the first item holding it is located, and items are tinted cool or warm.
 */
module Extremes {
  import opened Wrappers
  import opened Foundation
  import opened WeatherAPI
  import Models

  /** A value together with whether a general failure was signalled on the way to it. */
  datatype Signalled<T> = Signalled(value: T, failed: bool)

  datatype Extreme = Least | Greatest

  /** `Constants.Colors.coolColor` and `Constants.Colors.warmColor`. */
  datatype TintColor = Cool | Warm

  /** The temperature a record shows: Fahrenheit in English mode, Celsius otherwise. */
  function TempKey(englishMode: bool): string {
    if englishMode then "hourlyTempF" else "hourlyTempC"
  }

  function TempOf(rec: Record, englishMode: bool): Option<string> {
    Models.Lookup(rec, TempKey(englishMode))
  }

  /** `Int(temp) ?? 0`: a temperature that is not an integer reads as 0. */
  function Reading(s: string): (n: int)
    ensures ParseInt(s).Some? ==> n == ParseInt(s).value
    ensures ParseInt(s).None? ==> n == 0
  {
    ParseInt(s).GetOr(0)
  }

  /** The readings of a section, or `None` when some record has no temperature. */
  function Readings(bucket: HourlyData, englishMode: bool): (r: Option<seq<int>>)
    ensures r.Some? <==> forall i :: 0 <= i < |bucket| ==> TempOf(bucket[i], englishMode).Some?
    ensures r.Some? ==> |r.value| == |bucket|
    ensures r.Some? ==> forall i :: 0 <= i < |bucket| ==>
                          r.value[i] == Reading(TempOf(bucket[i], englishMode).value)
  {
    if bucket == [] then Some([])
    else
      var init := bucket[..|bucket| - 1];
      var front := Readings(init, englishMode);
      var last := TempOf(bucket[|bucket| - 1], englishMode);
      assert forall i :: 0 <= i < |init| ==> init[i] == bucket[i];
      if front.None? || last.None? then None
      else Some(front.value + [Reading(last.value)])
  }

  /** `Array.min()` and `Array.max()` of a non-empty list. */
  function Extremum(s: seq<int>, kind: Extreme): (m: int)
    requires s != []
    ensures m in s
    ensures kind == Least ==> forall x :: x in s ==> m <= x
    ensures kind == Greatest ==> forall x :: x in s ==> x <= m
  {
    if |s| == 1 then s[0]
    else
      var rest := Extremum(s[1..], kind);
      assert forall x :: x in s ==> x == s[0] || x in s[1..];
      if kind == Least then (if s[0] <= rest then s[0] else rest)
      else (if rest <= s[0] then s[0] else rest)
  }

  /**
   * `minTemp` / `maxTemp` of a section: 0 with a failure when the section is absent, when
   * a record has no temperature, or when the section is empty.
   */
  function ExtremeTemp(grouped: map<int, HourlyData>, section: int, englishMode: bool,
                       kind: Extreme): Signalled<int>
  {
    if section !in grouped then Signalled(0, true)
    else
      match Readings(grouped[section], englishMode)
      case None => Signalled(0, true)
      case Some(rs) => if rs == [] then Signalled(0, true) else Signalled(Extremum(rs, kind), false)
  }

  /**
   * The scan of `itemOfFirstMin` / `itemOfFirstMax` from item `from` on: the first item
   * whose reading is `target`; 0 with a failure at a record without a temperature; 0 when
   * no item matches.
   */
  function Scan(bucket: HourlyData, englishMode: bool, target: int, from: nat): Signalled<int>
    requires from <= |bucket|
    decreases |bucket| - from
  {
    if from == |bucket| then Signalled(0, false)
    else
      match TempOf(bucket[from], englishMode)
      case None => Signalled(0, true)
      case Some(s) =>
        if Reading(s) == target then Signalled(from, false)
        else Scan(bucket, englishMode, target, from + 1)
  }

  /** `itemOfFirstMin` / `itemOfFirstMax`: the item of a section holding its extreme. */
  function FirstExtremeItem(hasData: bool, grouped: map<int, HourlyData>, section: int,
                            englishMode: bool, kind: Extreme): Signalled<int>
  {
    if !hasData then Signalled(0, false)
    else
      var t := ExtremeTemp(grouped, section, englishMode, kind);
      if section !in grouped then Signalled(0, true)
      else
        var scan := Scan(grouped[section], englishMode, t.value, 0);
        Signalled(scan.value, t.failed || scan.failed)
  }

  /** The item indices of every section `0 ..< count`, as `groupedMin/MaxTempItemByDayCache` stores them. */
  function ExtremeItems(hasData: bool, grouped: map<int, HourlyData>, count: int,
                        englishMode: bool, kind: Extreme): map<int, int>
  {
    map i | 0 <= i < count :: FirstExtremeItem(hasData, grouped, i, englishMode, kind).value
  }

  /** Extending the sections `0 ..< count` by section `count` adds that section's item. */
  lemma ExtremeItemsStep(hasData: bool, grouped: map<int, HourlyData>, count: nat,
                         englishMode: bool, kind: Extreme)
    ensures ExtremeItems(hasData, grouped, count + 1, englishMode, kind) ==
            ExtremeItems(hasData, grouped, count, englishMode, kind)
              [count := FirstExtremeItem(hasData, grouped, count, englishMode, kind).value]
  {
    var next := ExtremeItems(hasData, grouped, count + 1, englishMode, kind);
    var prev := ExtremeItems(hasData, grouped, count, englishMode, kind);
    assert next.Keys == prev.Keys + {count};
  }

  /** A negative section count gives no items, as a count of zero does. */
  lemma ExtremeItemsUpTo(hasData: bool, grouped: map<int, HourlyData>, count: int,
                         englishMode: bool, kind: Extreme)
    ensures count <= 0 ==> ExtremeItems(hasData, grouped, count, englishMode, kind) == map[]
    ensures ExtremeItems(hasData, grouped, 0, englishMode, kind) == map[]
  {
    assert ExtremeItems(hasData, grouped, 0, englishMode, kind).Keys == {};
    if count <= 0 {
      assert ExtremeItems(hasData, grouped, count, englishMode, kind).Keys == {};
    }
  }

  /**
   * `tint(fromIndexPath:)`: no tint when the cached min and max items agree (both absent
   * included); otherwise cool on the min item, warm on the max item, none elsewhere.
   */
  function TintRule(minItem: Option<int>, maxItem: Option<int>, item: int): (r: Option<TintColor>)
    ensures r == Some(Cool) <==> minItem != maxItem && minItem == Some(item)
    ensures r == Some(Warm) <==> minItem != maxItem && maxItem == Some(item)
    ensures r == None <==> minItem == maxItem || (minItem != Some(item) && maxItem != Some(item))
  {
    if minItem == maxItem then None
    else if minItem == Some(item) then Some(Cool)
    else if maxItem == Some(item) then Some(Warm)
    else None
  }

  /** A section has at most one cool item and at most one warm item. */
  lemma TintAtMostOnce(minItem: Option<int>, maxItem: Option<int>, x: int, y: int, c: TintColor)
    requires TintRule(minItem, maxItem, x) == Some(c) && TintRule(minItem, maxItem, y) == Some(c)
    ensures x == y
  {
  }

  /**
   * Scanning from `from` for a reading that occurs at `k >= from` stops, without a failure,
   * at the first such item.
   */
  lemma {:induction false} ScanFindsFirst(bucket: HourlyData, englishMode: bool, rs: seq<int>,
                                          target: int, from: nat, k: nat)
    requires Readings(bucket, englishMode) == Some(rs)
    requires from <= k < |rs| && rs[k] == target
    ensures var r := Scan(bucket, englishMode, target, from);
            && !r.failed && from <= r.value <= k && rs[r.value] == target
            && forall j :: from <= j < r.value ==> rs[j] != target
    decreases k - from
  {
    var t := TempOf(bucket[from], englishMode);
    assert t.Some? && rs[from] == Reading(t.value);
    if rs[from] != target {
      ScanFindsFirst(bucket, englishMode, rs, target, from + 1, k);
      var r := Scan(bucket, englishMode, target, from + 1);
      assert Scan(bucket, englishMode, target, from) == r;
      forall j | from <= j < r.value
        ensures rs[j] != target
      {
        if j > from {
          assert from + 1 <= j < r.value;
        }
      }
    }
  }

  /**
   * For a section whose records all have temperatures and which is not empty, the item
   * found is the least one whose reading is the section's extreme, and nothing failed.
   */
  lemma FirstExtremeIsLeast(grouped: map<int, HourlyData>, section: int, englishMode: bool,
                            kind: Extreme, rs: seq<int>)
    requires section in grouped
    requires Readings(grouped[section], englishMode) == Some(rs) && rs != []
    ensures !FirstExtremeItem(true, grouped, section, englishMode, kind).failed
    ensures 0 <= FirstExtremeItem(true, grouped, section, englishMode, kind).value < |rs|
    ensures rs[FirstExtremeItem(true, grouped, section, englishMode, kind).value] == Extremum(rs, kind)
    ensures forall j :: 0 <= j < FirstExtremeItem(true, grouped, section, englishMode, kind).value ==>
              rs[j] != Extremum(rs, kind)
  {
    var m := Extremum(rs, kind);
    var k :| 0 <= k < |rs| && rs[k] == m;
    ScanFindsFirst(grouped[section], englishMode, rs, m, 0, k);
  }

  /** `i` is the first index of `rs` holding `v`. */
  predicate FirstIndexOf(rs: seq<int>, v: int, i: int) {
    0 <= i < |rs| && rs[i] == v && forall j :: 0 <= j < i ==> rs[j] != v
  }

  /** A value has at most one first index. */
  lemma FirstIndexUnique(rs: seq<int>, v: int, i: int, k: int)
    requires FirstIndexOf(rs, v, i) && FirstIndexOf(rs, v, k)
    ensures i == k
  {
  }

  /** Any section a grouping lacks gives item 0 and a failure, once there is data. */
  lemma AbsentSectionFails(grouped: map<int, HourlyData>, section: int, englishMode: bool, kind: Extreme)
    requires section !in grouped
    ensures ExtremeTemp(grouped, section, englishMode, kind) == Signalled(0, true)
    ensures FirstExtremeItem(true, grouped, section, englishMode, kind) == Signalled(0, true)
  {
  }

  /**
   * In a section whose lowest reading is below its highest, the first coldest and the
   * first warmest items differ, so the rule tints the first coldest item cool and the
   * first warmest item warm.
   */
  lemma TintMarksExtremes(grouped: map<int, HourlyData>, section: int, englishMode: bool, rs: seq<int>)
    requires section in grouped
    requires Readings(grouped[section], englishMode) == Some(rs) && rs != []
    requires Extremum(rs, Least) < Extremum(rs, Greatest)
    ensures var lo := FirstExtremeItem(true, grouped, section, englishMode, Least).value;
            var hi := FirstExtremeItem(true, grouped, section, englishMode, Greatest).value;
            && lo != hi
            && TintRule(Some(lo), Some(hi), lo) == Some(Cool)
            && TintRule(Some(lo), Some(hi), hi) == Some(Warm)
  {
    FirstExtremeIsLeast(grouped, section, englishMode, Least, rs);
    FirstExtremeIsLeast(grouped, section, englishMode, Greatest, rs);
  }
}
