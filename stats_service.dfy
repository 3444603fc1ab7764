/**
 * The stats aggregator of `src/services/statsService.js`: read the month
 * counters, list their keys in string order, drop keys whose year is
 * implausible, and build the parallel `labels`/`data` series with their
 * total, which is then cached as the one `GlobalStats` entity.
 */
module StatsService {
  import opened Prelude
  import opened Strings
  import opened Dates
  import opened Database
  import opened Consistency

  /** The earliest year the filter lets through. */
  const FirstYear: int := 1995

  /** `parseInt(key.split('-')[0])`; None stands for NaN. */
  function YearOfKey(key: string): Option<int>
  {
    ParseInt(BeforeFirst(key, '-'))
  }

  /**
   * The filter keeps a key unless `year < 1995 || year > currentYear + 1`.
   * Both comparisons are false for NaN, so a key whose year does not parse
   * is kept.
   */
  predicate Kept(key: string, currentYear: int)
  {
    match YearOfKey(key)
    case None => true
    case Some(year) => !(year < FirstYear || year > currentYear + 1)
  }

  /** luxon's `MMM` in the English locale. */
  function MonthName(m: int): string
    requires 1 <= m <= 12
  {
    ["Jan", "Feb", "Mar", "Apr", "May", "Jun", "Jul", "Aug", "Sep", "Oct", "Nov", "Dec"][m - 1]
  }

  /**
   * `DateTime.fromFormat(key, 'yyyy-MM').toFormat('MMM yyyy')`: the key must
   * be exactly four digits, a dash and two digits naming a month 01..12;
   * anything else is an invalid DateTime, which formats as "Invalid DateTime".
   */
  function Label(key: string): string
  {
    if |key| == 7 && AllDigits(key[..4]) && key[4] == '-' && AllDigits(key[5..]) && 1 <= DigitsValue(key[5..]) <= 12
    then MonthName(DigitsValue(key[5..])) + " " + key[..4]
    else "Invalid DateTime"
  }

  /** The year filter as a predicate on keys. */
  function KeepYear(currentYear: int): string -> bool
  {
    key => Kept(key, currentYear)
  }

  /** The keys, in their order, that survive the filter `keep`. */
  function KeptKeys(keys: seq<string>, keep: string -> bool): (r: seq<string>)
    ensures forall k :: k in r ==> k in keys
    ensures |r| <= |keys|
  {
    if keys == [] then []
    else
      var n := |keys| - 1;
      assert keys == keys[..n] + [keys[n]];
      var front := KeptKeys(keys[..n], keep);
      if keep(keys[n]) then front + [keys[n]] else front
  }

  function LabelsOf(keys: seq<string>): (r: seq<string>)
    ensures |r| == |keys|
  {
    if keys == [] then [] else LabelsOf(keys[..|keys| - 1]) + [Label(keys[|keys| - 1])]
  }

  function DataOf(keys: seq<string>, counts: map<string, int>): (r: seq<int>)
    requires forall k :: k in keys ==> k in counts
    ensures |r| == |keys|
  {
    if keys == [] then [] else DataOf(keys[..|keys| - 1], counts) + [counts[keys[|keys| - 1]]]
  }

  lemma KeptKeysSnoc(keys: seq<string>, x: string, keep: string -> bool)
    ensures KeptKeys(keys + [x], keep) == if keep(x) then KeptKeys(keys, keep) + [x] else KeptKeys(keys, keep)
  {
    assert (keys + [x])[..|keys|] == keys;
  }

  /** The keys that make it into the payload: every counter key in string order, filtered. */
  function StatsKeys(counts: map<string, int>, currentYear: int): (r: seq<string>)
    ensures forall k :: k in r ==> k in counts
  {
    KeptKeys(SortedKeys(counts.Keys), KeepYear(currentYear))
  }

  /** What the loop has built so far: the two parallel series and the running total. */
  datatype Series = Series(labels: seq<string>, data: seq<int>, total: int)

  /** One pass of the loop body over `key`. */
  function Step(s: Series, key: string, counts: map<string, int>, keep: string -> bool): Series
    requires key in counts
  {
    if keep(key) then Series(s.labels + [Label(key)], s.data + [counts[key]], s.total + counts[key])
    else s
  }

  /** The `forEach` over `keys`, from empty series and a zero total. */
  function Accumulate(keys: seq<string>, counts: map<string, int>, keep: string -> bool): Series
    requires forall k :: k in keys ==> k in counts
  {
    if keys == [] then Series([], [], 0)
    else Step(Accumulate(keys[..|keys| - 1], counts, keep), keys[|keys| - 1], counts, keep)
  }

  /** The payload generateAndSaveStats builds from the counters it read. */
  function StatsOf(counts: map<string, int>, currentYear: int, generatedAt: string): Payload
  {
    var s := Accumulate(SortedKeys(counts.Keys), counts, KeepYear(currentYear));
    Payload(s.labels, s.data, s.total, generatedAt)
  }

  /** The counters the filter keeps, as a map. */
  function KeptCounts(counts: map<string, int>, currentYear: int): (r: map<string, int>)
    ensures forall k :: k in r <==> k in counts && Kept(k, currentYear)
    ensures forall k :: k in r ==> r[k] == counts[k]
  {
    map k | k in counts && Kept(k, currentYear) :: counts[k]
  }

  // ---------------------------------------------------------------------
  // The service

  /**
   * The payload generateAndSaveStats builds: list the counter keys in string
   * order and run the loop over them with the year filter.
   */
  method BuildStats(counts: map<string, int>, currentYear: int, generatedAt: string) returns (p: Payload)
    ensures p == StatsOf(counts, currentYear, generatedAt)
  {
    var sortedKeys := SortedKeys(counts.Keys);
    var labels, data, total := PushKept(sortedKeys, counts, KeepYear(currentYear));
    p := Payload(labels, data, total, generatedAt);
  }

  /**
   * The `forEach` over the sorted keys: skip a key the filter rejects,
   * otherwise push its label and count and add the count to the total.
   */
  method PushKept(keys: seq<string>, counts: map<string, int>, keep: string -> bool)
    returns (labels: seq<string>, data: seq<int>, total: int)
    requires forall k :: k in keys ==> k in counts
    ensures Series(labels, data, total) == Accumulate(keys, counts, keep)
  {
    labels, data, total := [], [], 0;
    for i := 0 to |keys|
      invariant Series(labels, data, total) == Accumulate(keys[..i], counts, keep)
    {
      var key := keys[i];
      AccumulatePrefix(keys, i, counts, keep);
      if keep(key) {
        var count := counts[key];
        labels := labels + [Label(key)];
        data := data + [count];
        total := total + count;
      }
    }
    assert keys[..|keys|] == keys;
  }

  /**
   * generateAndSaveStats: read the counters, build the payload, overwrite the
   * cached stats with it and return that same payload. `currentYear`,
   * `generatedAt` and `now` stand for the clock readings.
   */
  method GenerateAndSaveStats(db: Database, currentYear: int, generatedAt: string, now: int) returns (p: Payload)
    modifies db
    ensures p == StatsOf(CountsOf(old(db.counters)), currentYear, generatedAt)
    ensures db.globalStats == Some(StatsEntity(p, now))
    ensures db.users == old(db.users) && db.counters == old(db.counters)
  {
    var monthlyCounts := db.GetMonthlyCounts();
    p := BuildStats(monthlyCounts, currentYear, generatedAt);
    db.SaveStats(p, now);
  }

  /** getCachedStats: the payload last saved, or None when stats were never generated. */
  method GetCachedStats(db: Database) returns (r: Option<Payload>)
    ensures db.globalStats.None? ==> r.None?
    ensures db.globalStats.Some? ==> r == Some(db.globalStats.value.stats)
  {
    r := db.GetStats();
  }

  // ---------------------------------------------------------------------
  // What the payload means

  /** The i-th label is the label of the i-th key, and the i-th count is that key's count. */
  lemma {:induction false} SeriesAt(keys: seq<string>, counts: map<string, int>)
    requires forall k :: k in keys ==> k in counts
    ensures forall i :: 0 <= i < |keys| ==> LabelsOf(keys)[i] == Label(keys[i]) && DataOf(keys, counts)[i] == counts[keys[i]]
    decreases |keys|
  {
    if keys != [] {
      var n := |keys| - 1;
      SeriesAt(keys[..n], counts);
    }
  }

  /**
   * The loop's result, described without the loop: the labels and counts of
   * the kept keys, in their order, and the sum of those counts.
   */
  lemma {:induction false} AccumulateKept(keys: seq<string>, counts: map<string, int>, keep: string -> bool)
    requires forall k :: k in keys ==> k in counts
    ensures var kept := KeptKeys(keys, keep);
      Accumulate(keys, counts, keep) == Series(LabelsOf(kept), DataOf(kept, counts), SumSeq(DataOf(kept, counts)))
    decreases |keys|
  {
    if keys != [] {
      var n := |keys| - 1;
      var x := keys[n];
      assert keys[..n] + [x] == keys;
      AccumulateKept(keys[..n], counts, keep);
      KeptKeysSnoc(keys[..n], x, keep);
      var front := KeptKeys(keys[..n], keep);
      if keep(x) {
        SeriesSnoc(front, x, counts);
      }
    }
  }

  /** Appending one key appends its label and count and adds the count to the sum. */
  lemma SeriesSnoc(keys: seq<string>, x: string, counts: map<string, int>)
    requires forall k :: k in keys ==> k in counts
    requires x in counts
    ensures LabelsOf(keys + [x]) == LabelsOf(keys) + [Label(x)]
    ensures DataOf(keys + [x], counts) == DataOf(keys, counts) + [counts[x]]
    ensures SumSeq(DataOf(keys + [x], counts)) == SumSeq(DataOf(keys, counts)) + counts[x]
  {
    var k := keys + [x];
    assert k[..|keys|] == keys;
    var d := DataOf(k, counts);
    assert d[..|keys|] == DataOf(keys, counts);
  }

  /** A key survives the filter exactly when it is listed and passes the year test. */
  lemma {:induction false} KeptKeysMembers(keys: seq<string>, keep: string -> bool)
    ensures forall k :: k in KeptKeys(keys, keep) <==> k in keys && keep(k)
    decreases |keys|
  {
    if keys != [] {
      var n := |keys| - 1;
      KeptKeysMembers(keys[..n], keep);
      assert keys == keys[..n] + [keys[n]];
    }
  }

  /** The filter keeps the input order, so sorted keys stay sorted. */
  lemma {:induction false} KeptKeysSorted(keys: seq<string>, keep: string -> bool)
    requires StrictlySorted(keys)
    ensures StrictlySorted(KeptKeys(keys, keep))
    decreases |keys|
  {
    if keys != [] {
      var n := |keys| - 1;
      var front := KeptKeys(keys[..n], keep);
      KeptKeysSorted(keys[..n], keep);
      if keep(keys[n]) {
        forall k | k in front ensures LexLess(k, keys[n]) {
          var i :| 0 <= i < n && keys[..n][i] == k;
          assert keys[i] == k;
        }
        AppendSorted(front, keys[n]);
      }
    }
  }

  lemma AppendSorted(front: seq<string>, x: string)
    requires StrictlySorted(front)
    requires forall k :: k in front ==> LexLess(k, x)
    ensures StrictlySorted(front + [x])
  {
    var r := front + [x];
    forall i, j | 0 <= i < j < |r| ensures LexLess(r[i], r[j]) {
      assert r[i] == front[i];
      if j < |front| {
        assert r[j] == front[j];
      } else {
        assert front[i] in front;
      }
    }
  }

  /**
   * The payload lists the surviving keys in ascending string order: one
   * label and one count per key, at the same position, and every counter key
   * that passes the filter appears (and no other).
   */
  lemma StatsShape(counts: map<string, int>, currentYear: int, generatedAt: string)
    ensures var p, keys := StatsOf(counts, currentYear, generatedAt), StatsKeys(counts, currentYear);
      && StrictlySorted(keys)
      && (forall k :: k in keys <==> k in counts && Kept(k, currentYear))
      && |p.labels| == |keys| && |p.data| == |keys|
      && (forall i :: 0 <= i < |keys| ==> p.labels[i] == Label(keys[i]) && p.data[i] == counts[keys[i]])
      && p.total == SumSeq(p.data)
      && p.generatedAt == generatedAt
  {
    AccumulateKept(SortedKeys(counts.Keys), counts, KeepYear(currentYear));
    KeptKeysSorted(SortedKeys(counts.Keys), KeepYear(currentYear));
    KeptKeysMembers(SortedKeys(counts.Keys), KeepYear(currentYear));
    SeriesAt(StatsKeys(counts, currentYear), counts);
  }

  lemma {:induction false} DataSum(keys: seq<string>, counts: map<string, int>)
    requires forall k :: k in keys ==> k in counts
    ensures SumSeq(DataOf(keys, counts)) == SumOver(keys, counts)
    decreases |keys|
  {
    if keys != [] {
      var n := |keys| - 1;
      DataSum(keys[..n], counts);
      assert DataOf(keys, counts)[..n] == DataOf(keys[..n], counts);
    }
  }

  /**
   * The total is the sum of the kept counters, whatever order they are
   * listed in: filtered-out keys add nothing to it.
   */
  lemma StatsTotal(counts: map<string, int>, currentYear: int, generatedAt: string)
    ensures StatsOf(counts, currentYear, generatedAt).total == Total(KeptCounts(counts, currentYear))
  {
    var keys := StatsKeys(counts, currentYear);
    var kept := KeptCounts(counts, currentYear);
    AccumulateKept(SortedKeys(counts.Keys), counts, KeepYear(currentYear));
    KeptKeysMembers(SortedKeys(counts.Keys), KeepYear(currentYear));
    KeptKeysSorted(SortedKeys(counts.Keys), KeepYear(currentYear));
    DataSum(keys, counts);
    SumOverSameValues(keys, counts, kept);
    StrictlySortedDistinct(keys);
    SumOverIsTotal(keys, kept);
  }

  /**
   * With consistent counters whose keys all pass the filter, the stats total
   * is the number of stored subscriber records.
   */
  lemma StatsTotalCountsSubscribers(t: Tables, currentYear: int, generatedAt: string)
    requires SumConsistent(t)
    requires forall k :: k in t.counters ==> Kept(k, currentYear)
    ensures StatsOf(CountsOf(t.counters), currentYear, generatedAt).total == |t.users|
  {
    var counts := CountsOf(t.counters);
    StatsTotal(counts, currentYear, generatedAt);
    NothingFiltered(counts, currentYear);
  }

  lemma NothingFiltered(counts: map<string, int>, currentYear: int)
    requires forall k :: k in counts ==> Kept(k, currentYear)
    ensures KeptCounts(counts, currentYear) == counts
  {
    assert KeptCounts(counts, currentYear).Keys == counts.Keys;
  }

  /** A key `getMonthKey` writes for a year from 0 on carries that year, which parseInt reads back. */
  lemma YearOfMonthKey(idx: int)
    requires YearOf(idx) >= 0
    ensures YearOfKey(FormatMonthKey(idx)) == Some(YearOf(idx))
  {
    var y := NatToString(YearOf(idx));
    var m := PadStart(NatToString(MonthOf(idx)), 2, '0');
    assert '-' !in y;
    assert FormatMonthKey(idx) == y + ['-'] + m;
    BeforeFirstOfJoin(y, '-', m);
    ParseIntOfNatToString(YearOf(idx));
  }

  /** For keys `getMonthKey` writes for years from 0 on, the filter is exactly the year range. */
  lemma KeptMonthKey(idx: int, currentYear: int)
    requires YearOf(idx) >= 0
    ensures Kept(FormatMonthKey(idx), currentYear) <==> FirstYear <= YearOf(idx) <= currentYear + 1
  {
    YearOfMonthKey(idx);
  }

  /**
   * A key for a year before 0 starts with '-', so the year part is empty,
   * parseInt gives NaN and the key passes the filter.
   */
  lemma NegativeYearKept(idx: int, currentYear: int)
    requires YearOf(idx) < 0
    ensures YearOfKey(FormatMonthKey(idx)) == None
    ensures Kept(FormatMonthKey(idx), currentYear)
  {
    var key := FormatMonthKey(idx);
    assert key[0] == IntToString(YearOf(idx))[0] == '-';
    BeforeFirstAt(key, '-', 0);
    assert BeforeFirst(key, '-') == [];
    assert TrimStart([]) == [];
  }

  /** The key of an Invalid Date also passes the filter: its year part "NaN" parses to NaN. */
  lemma InvalidDateKeyKept(currentYear: int)
    ensures Kept("NaN-NaN", currentYear)
  {
    var nan := "NaN";
    assert "NaN-NaN" == nan + ['-'] + nan;
    assert nan[0] == 'N' && '-' !in nan;
    BeforeFirstOfJoin(nan, '-', nan);
    ParseIntNaN(nan);
  }

  /** ...and its label is "Invalid DateTime", since it does not start with four digits. */
  lemma InvalidDateLabel()
    ensures Label("NaN-NaN") == "Invalid DateTime"
  {
    assert "NaN-NaN"[..4][0] == 'N';
  }

  /** For a four-digit year the label is the month's short name, a space and the year. */
  lemma LabelOfMonthKey(idx: int)
    requires 1000 <= YearOf(idx) <= 9999
    ensures Label(FormatMonthKey(idx)) == MonthName(MonthOf(idx)) + " " + NatToString(YearOf(idx))
  {
    MonthKeyShape(idx);
    var key := FormatMonthKey(idx);
    assert key[..4] == NatToString(YearOf(idx));
  }

  /** The year part of a key that starts with digits and a dash is parsed as those digits. */
  lemma YearOfDigitsKey(y: string, m: string)
    requires AllDigits(y) && y != []
    ensures YearOfKey(y + "-" + m) == Some(DigitsValue(y))
  {
    assert '-' !in y;
    assert y + "-" + m == y + ['-'] + m;
    BeforeFirstOfJoin(y, '-', m);
    ParseIntOfDigits(y);
  }

  /** The four counter keys of the unit test, in string order. */
  lemma ExampleSorted(counts: map<string, int>)
    requires counts.Keys == {"2023-10", "2023-11", "3000-01", "1990-01"}
    ensures SortedKeys(counts.Keys) == ["1990-01", "2023-10", "2023-11", "3000-01"]
  {
    var sorted := ["1990-01", "2023-10", "2023-11", "3000-01"];
    LexCommonPrefix("2023-1", "0", "1");
    assert "2023-10" == "2023-1" + "0" && "2023-11" == "2023-1" + "1";
    assert StrictlySorted(sorted);
    assert forall k :: k in sorted <==> k in counts.Keys;
    SortedUnique(SortedKeys(counts.Keys), sorted);
  }

  /** The year of a key that starts with four digits and a dash is the value of those digits. */
  lemma FourDigitYear(key: string)
    requires |key| >= 5 && AllDigits(key[..4]) && key[4] == '-'
    ensures YearOfKey(key) == Some(DigitsValue(key[..4]))
  {
    var y := key[..4];
    assert '-' !in y;
    BeforeFirstAt(key, '-', 4);
    ParseIntOfDigits(y);
  }

  /** Labels of the two surviving keys. */
  lemma ExampleLabels()
    ensures Label("2023-10") == "Oct 2023" && Label("2023-11") == "Nov 2023"
  {
    var a, b := "2023-10", "2023-11";
    assert a[..4] == "2023" && a[5..] == "10" && a[4] == '-';
    assert b[..4] == "2023" && b[5..] == "11" && b[4] == '-';
    DigitsValueTwo("10");
    DigitsValueTwo("11");
  }

  /** The filter keeps the two 2023 months... */
  lemma ExampleKept(currentYear: int)
    requires 2022 <= currentYear
    ensures Kept("2023-10", currentYear) && Kept("2023-11", currentYear)
  {
    var k1, k2 := "2023-10", "2023-11";
    assert AllDigits(k1[..4]) && AllDigits(k2[..4]);
    FourDigitYear(k1);
    FourDigitYear(k2);
    DigitsValueFour(k1[..4]);
    DigitsValueFour(k2[..4]);
  }

  /** ...and drops a year before 1995 and one after next year. */
  lemma ExampleDropped(currentYear: int)
    requires currentYear <= 2998
    ensures !Kept("1990-01", currentYear) && !Kept("3000-01", currentYear)
  {
    var k1, k2 := "1990-01", "3000-01";
    assert AllDigits(k1[..4]) && AllDigits(k2[..4]);
    FourDigitYear(k1);
    FourDigitYear(k2);
    DigitsValueFour(k1[..4]);
    DigitsValueFour(k2[..4]);
  }

  /** The loop's state after one more key of `keys`. */
  lemma AccumulatePrefix(keys: seq<string>, i: nat, counts: map<string, int>, keep: string -> bool)
    requires i < |keys| && forall k :: k in keys ==> k in counts
    ensures Accumulate(keys[..i + 1], counts, keep) == Step(Accumulate(keys[..i], counts, keep), keys[i], counts, keep)
  {
    assert keys[..i + 1][..i] == keys[..i];
  }

  /** Four keys of which the filter drops the first and the last: the middle two are pushed. */
  lemma FourKeysMiddleKept(keys: seq<string>, counts: map<string, int>, keep: string -> bool)
    requires |keys| == 4 && forall k :: k in keys ==> k in counts
    requires !keep(keys[0]) && keep(keys[1]) && keep(keys[2]) && !keep(keys[3])
    ensures Accumulate(keys, counts, keep)
      == Series([Label(keys[1]), Label(keys[2])], [counts[keys[1]], counts[keys[2]]], counts[keys[1]] + counts[keys[2]])
  {
    assert keys[..4] == keys;
    assert keys[..0] == [];
    var l1, l2, c1, c2 := Label(keys[1]), Label(keys[2]), counts[keys[1]], counts[keys[2]];
    assert [] + [l1] == [l1] && [] + [c1] == [c1];
    assert [l1] + [l2] == [l1, l2] && [c1] + [c2] == [c1, c2];
    AccumulatePrefix(keys, 0, counts, keep);
    assert Accumulate(keys[..1], counts, keep) == Series([], [], 0);
    AccumulatePrefix(keys, 1, counts, keep);
    assert Accumulate(keys[..2], counts, keep) == Series([l1], [c1], c1);
    AccumulatePrefix(keys, 2, counts, keep);
    assert Accumulate(keys[..3], counts, keep) == Series([l1, l2], [c1, c2], c1 + c2);
    AccumulatePrefix(keys, 3, counts, keep);
  }

  /**
   * The unit-test scenario: of the counters 2023-10: 10, 2023-11: 20,
   * 3000-01: 99 and 1990-01: 5, only the two 2023 months survive, labelled
   * "Oct 2023" and "Nov 2023", with total 30, whenever the current year is
   * between 2022 and 2998.
   */
  lemma UnitTestExample(currentYear: int, generatedAt: string)
    requires 2022 <= currentYear <= 2998
    ensures var p := StatsOf(map["2023-10" := 10, "2023-11" := 20, "3000-01" := 99, "1990-01" := 5], currentYear, generatedAt);
      p.labels == ["Oct 2023", "Nov 2023"] && p.data == [10, 20] && p.total == 30
  {
    var counts := map["2023-10" := 10, "2023-11" := 20, "3000-01" := 99, "1990-01" := 5];
    ExampleSorted(counts);
    ExampleKept(currentYear);
    ExampleDropped(currentYear);
    FourKeysMiddleKept(["1990-01", "2023-10", "2023-11", "3000-01"], counts, KeepYear(currentYear));
    ExampleLabels();
    ExampleLookups(counts);
  }

  /** The two surviving counts, looked up in the unit test's table. */
  lemma ExampleLookups(counts: map<string, int>)
    requires counts == map["2023-10" := 10, "2023-11" := 20, "3000-01" := 99, "1990-01" := 5]
    ensures counts["2023-10"] == 10 && counts["2023-11"] == 20
  {
    var a, b, c, d := "2023-10", "2023-11", "3000-01", "1990-01";
    assert a[0] != c[0] && a[0] != d[0] && a[6] != b[6];
    assert b[0] != c[0] && b[0] != d[0];
  }
}
