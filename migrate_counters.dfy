/**
 * The one-off backfill of `migrate_counters.js`: delete every month counter
 * in batches of 500, read the signup date of every record, file each date
 * that luxon accepts under its local `yyyy-MM` month, write one counter row
 * per month (an overwrite), and report how many records were processed
 * against how many counts were written.
 */
module MigrateCounters {
  import opened Prelude
  import opened Strings
  import opened Dates
  import opened Database
  import opened Consistency

  /** Existing counters are deleted this many keys at a time. */
  const BatchSize: nat := 500

  /** A raw number above 1e14 is taken to be microseconds rather than milliseconds. */
  const MicrosThreshold: int := 100_000_000_000_000

  function Min(a: int, b: int): int
  {
    if a <= b then a else b
  }

  // ---------------------------------------------------------------------
  // Reading one stored date

  /**
   * The `/1000` heuristic on a raw number. The source divides in floating
   * point; the month of the fractional instant is the month of its floor,
   * so the floor is kept here.
   */
  function Normalize(n: int): (r: int)
    ensures n <= MicrosThreshold ==> r == n
    ensures n > MicrosThreshold ==> r * 1000 <= n < r * 1000 + 1000
  {
    if n > MicrosThreshold then n / 1000 else n
  }

  /**
   * The instant the backfill reads from a stored date, or None when luxon's
   * DateTime is invalid: a `Date` goes through `fromJSDate`, a string through
   * `fromISO`, anything else through `Number(...)`, the heuristic and
   * `fromMillis`, which rejects instants beyond 8.64e15 ms. `Number(null)`
   * is 0 and `Number(undefined)` is NaN.
   */
  function BackfillTime(d: DateValue, cal: Calendar): Option<int>
  {
    match d
    case Timestamp(ms) => if InRange(ms) then Some(ms) else None
    case Text(s) => cal.parseIso(s)
    case Number(n) => var v := Normalize(n); if InRange(v) then Some(v) else None
    case Null => Some(0)
    case Undefined => None
  }

  /** luxon's `yyyy`: at least four digits, after a minus sign for a negative year. */
  function LuxonYear(year: int): string
  {
    if year < 0 then "-" + PadStart(NatToString(-year), 4, '0') else PadStart(NatToString(year), 4, '0')
  }

  /** `toFormat('yyyy-MM')` of the local month with index `idx`. */
  function LuxonMonthKey(idx: int): string
  {
    LuxonYear(YearOf(idx)) + "-" + PadStart(NatToString(MonthOf(idx)), 2, '0')
  }

  /** The month key a stored date is tallied under, or None when it is skipped. */
  function BackfillKey(d: DateValue, cal: Calendar): Option<string>
  {
    match BackfillTime(d, cal)
    case None => None
    case Some(t) => Some(LuxonMonthKey(cal.localMonth(t)))
  }

  // ---------------------------------------------------------------------
  // The tally

  /** The `aggregator` object after the `forEach` over `dates`. */
  function Tally(dates: seq<DateValue>, cal: Calendar): map<string, int>
  {
    if dates == [] then map[]
    else
      var agg := Tally(dates[..|dates| - 1], cal);
      match BackfillKey(dates[|dates| - 1], cal)
      case None => agg
      case Some(key) => Increment(agg, key)
  }

  /** `aggregator[key] = (aggregator[key] || 0) + 1`: a missing entry counts as 0. */
  function Increment(agg: map<string, int>, key: string): map<string, int>
  {
    agg[key := (if key in agg then agg[key] else 0) + 1]
  }

  /** How many of `dates` the backfill files under `key`; `None` counts the skipped ones. */
  function Occurrences(dates: seq<DateValue>, key: Option<string>, cal: Calendar): (r: nat)
    ensures r <= |dates|
  {
    if dates == [] then 0
    else Occurrences(dates[..|dates| - 1], key, cal) + (if BackfillKey(dates[|dates| - 1], cal) == key then 1 else 0)
  }

  /** The counter rows written for a tally: count and month field set from the tally and the key. */
  function CountersOf(agg: map<string, int>): map<string, Counter>
  {
    map k | k in agg :: Counter(agg[k], k)
  }

  /** The rows saved after writing the counters of `keys`, one save per key in order. */
  function RowsFor(keys: seq<string>, agg: map<string, int>): map<string, Counter>
    requires forall k :: k in keys ==> k in agg
  {
    if keys == [] then map[]
    else
      var k := keys[|keys| - 1];
      RowsFor(keys[..|keys| - 1], agg)[k := Counter(agg[k], k)]
  }

  /** `keys` cut into consecutive slices of `BatchSize`, the last one possibly shorter. */
  function Chunks(keys: seq<string>): seq<seq<string>>
    decreases |keys|
  {
    if keys == [] then []
    else if |keys| <= BatchSize then [keys]
    else [keys[..BatchSize]] + Chunks(keys[BatchSize..])
  }

  /** The whole of a sequence of batches, in order. */
  function Flatten(batches: seq<seq<string>>): seq<string>
  {
    if batches == [] then [] else Flatten(batches[..|batches| - 1]) + batches[|batches| - 1]
  }

  /** What the script prints at the end: records processed, counts written, and the mismatch warning. */
  datatype Report = Report(processed: nat, written: int, warning: bool)

  // ---------------------------------------------------------------------
  // The backfill in terms of the records alone

  /** The records whose date the backfill files under `key` (None: the records it skips). */
  ghost function UsersKeyed(users: map<nat, User>, key: Option<string>, cal: Calendar): set<nat>
  {
    set id | id in users && BackfillKey(users[id].date, cal) == key
  }

  /** Every month some record is filed under. */
  ghost function BackfillKeys(users: map<nat, User>, cal: Calendar): set<string>
  {
    set id | id in users && BackfillKey(users[id].date, cal).Some? :: BackfillKey(users[id].date, cal).value
  }

  /** The counter table the backfill leaves: one row per month, counting that month's records. */
  ghost function Backfilled(users: map<nat, User>, cal: Calendar): map<string, Counter>
  {
    map k | k in BackfillKeys(users, cal) :: Counter(|UsersKeyed(users, Some(k), cal)|, k)
  }

  /** `dates[i]` is the date of record `ids[i]`, and no record is listed twice. */
  ghost predicate Listing(dates: seq<DateValue>, ids: seq<nat>, users: map<nat, User>)
  {
    && |dates| == |ids|
    && Distinct(ids)
    && forall i :: 0 <= i < |ids| ==> ids[i] in users && dates[i] == users[ids[i]].date
  }

  /** The members of `s` that `ids` lists. */
  ghost function Listed(ids: seq<nat>, s: set<nat>): set<nat>
  {
    set id | id in ids && id in s
  }

  // ---------------------------------------------------------------------
  // The script

  /**
   * Step 0: read every counter key and delete them in consecutive slices of
   * 500. `batches` records the slices in the order they were deleted: they
   * are the chunks of the sorted key listing.
   */
  method DeleteAllCounters(db: Database) returns (ghost batches: seq<seq<string>>)
    modifies db
    ensures db.counters == map[]
    ensures db.users == old(db.users) && db.globalStats == old(db.globalStats)
    ensures StrictlySorted(Flatten(batches))
    ensures forall k :: k in Flatten(batches) <==> k in old(db.counters)
    ensures batches == Chunks(Flatten(batches))
  {
    var keys := db.GetCounterKeys();
    batches := DeleteInBatches(db, keys);
    ChunksFlatten(keys);
  }

  /** The loop over `keys` in steps of 500, each step deleting one slice. */
  method DeleteInBatches(db: Database, keys: seq<string>) returns (ghost batches: seq<seq<string>>)
    requires forall k :: k in db.counters <==> k in keys
    modifies db
    ensures db.counters == map[]
    ensures db.users == old(db.users) && db.globalStats == old(db.globalStats)
    ensures batches == Chunks(keys)
  {
    batches := [];
    var i := 0;
    while i < |keys|
      invariant batches + Chunks(Unvisited(keys, i)) == Chunks(keys)
      invariant forall k :: k in db.counters ==> k in Unvisited(keys, i)
      invariant db.users == old(db.users) && db.globalStats == old(db.globalStats)
      decreases |keys| - i
    {
      var batch := keys[i..Min(i + BatchSize, |keys|)];
      BatchStep(keys, i);
      db.DeleteCounters(batch);
      batches := batches + [batch];
      i := i + BatchSize;
    }
    assert batches + [] == batches;
    assert db.counters.Keys == {};
  }

  /** Step 2: the `forEach` that fills the aggregator. */
  method TallyDates(dates: seq<DateValue>, cal: Calendar) returns (agg: map<string, int>)
    ensures agg == Tally(dates, cal)
  {
    agg := map[];
    for i := 0 to |dates|
      invariant agg == Tally(dates[..i], cal)
    {
      TallyStep(dates, i, cal);
      var dt := BackfillTime(dates[i], cal);
      if dt.Some? {
        var key := LuxonMonthKey(cal.localMonth(dt.value));
        assert BackfillKey(dates[i], cal) == Some(key);
        agg := Increment(agg, key);
      } else {
        assert BackfillKey(dates[i], cal) == None;
      }
    }
    assert dates[..|dates|] == dates;
  }

  /**
   * Step 3: sort the month keys and save one row per key, in that order,
   * each setting `count` to the tally and `month` to the key;
   * `totalWritten` adds up the counts.
   */
  method WriteCounters(db: Database, agg: map<string, int>) returns (totalWritten: int)
    modifies db
    ensures db.counters == old(db.counters) + CountersOf(agg)
    ensures totalWritten == Total(agg)
    ensures db.users == old(db.users) && db.globalStats == old(db.globalStats)
  {
    var monthKeys := SortedKeys(agg.Keys);
    totalWritten := SaveRows(db, monthKeys, agg);
    RowsForAll(monthKeys, agg);
    StrictlySortedDistinct(monthKeys);
    SumOverIsTotal(monthKeys, agg);
  }

  /** The `for...of` over the sorted keys: one overwrite per key, counts added up. */
  method SaveRows(db: Database, monthKeys: seq<string>, agg: map<string, int>) returns (totalWritten: int)
    requires forall k :: k in monthKeys ==> k in agg
    modifies db
    ensures db.counters == old(db.counters) + RowsFor(monthKeys, agg)
    ensures totalWritten == SumOver(monthKeys, agg)
    ensures db.users == old(db.users) && db.globalStats == old(db.globalStats)
  {
    totalWritten := 0;
    for i := 0 to |monthKeys|
      invariant db.counters == old(db.counters) + RowsFor(monthKeys[..i], agg)
      invariant totalWritten == SumOver(monthKeys[..i], agg)
      invariant db.users == old(db.users) && db.globalStats == old(db.globalStats)
    {
      assert monthKeys[..i + 1][..i] == monthKeys[..i];
      var monthKey := monthKeys[i];
      var count := agg[monthKey];
      OverrideThenSet(old(db.counters), RowsFor(monthKeys[..i], agg), monthKey, Counter(count, monthKey));
      db.SaveCounter(monthKey, Counter(count, monthKey));
      totalWritten := totalWritten + count;
    }
    assert monthKeys[..|monthKeys|] == monthKeys;
  }

  /**
   * migrateCounters: the counter table ends up holding exactly the backfill
   * of the records, which are left alone; the report counts every record as
   * processed, counts the records with a usable date as written, and warns
   * exactly when some record was skipped.
   */
  method MigrateCounters(db: Database, cal: Calendar) returns (report: Report)
    modifies db
    ensures db.counters == Backfilled(old(db.users), cal)
    ensures db.users == old(db.users) && db.globalStats == old(db.globalStats)
    ensures report.processed == |old(db.users)|
    ensures report.written == |old(db.users)| - |UsersKeyed(old(db.users), None, cal)|
    ensures 0 <= report.written <= report.processed
    ensures report.written == Total(CountsOf(db.counters))
    ensures report.warning <==> UsersKeyed(old(db.users), None, cal) != {}
  {
    ghost var batches := DeleteAllCounters(db);
    report := Rebuild(db, cal);
  }

  /** The second phase: with the counter table empty, tally the records and write one row per month. */
  method Rebuild(db: Database, cal: Calendar) returns (report: Report)
    requires db.counters == map[]
    modifies db
    ensures db.counters == Backfilled(old(db.users), cal)
    ensures db.users == old(db.users) && db.globalStats == old(db.globalStats)
    ensures report.processed == |old(db.users)|
    ensures report.written == |old(db.users)| - |UsersKeyed(old(db.users), None, cal)|
    ensures 0 <= report.written <= report.processed
    ensures report.written == Total(CountsOf(db.counters))
    ensures report.warning <==> UsersKeyed(old(db.users), None, cal) != {}
  {
    var dates, ids := db.GetSignupDates();
    var agg := TallyDates(dates, cal);
    var totalWritten := WriteCounters(db, agg);
    report := Report(|dates|, totalWritten, |dates| != totalWritten);
    TallySummary(dates, ids, db.users, cal);
    OverrideEmpty(CountersOf(agg));
  }

  /**
   * Running the backfill a second time over the same records leaves the same
   * counter table and the same report: nothing is counted twice.
   */
  method MigrateTwice(db: Database, cal: Calendar) returns (first: Report, second: Report)
    modifies db
    ensures db.counters == Backfilled(old(db.users), cal)
    ensures db.users == old(db.users) && db.globalStats == old(db.globalStats)
    ensures first == second
  {
    first := MigrateCounters(db, cal);
    ghost var once := db.counters;
    second := MigrateCounters(db, cal);
    assert db.counters == once;
  }

  // ---------------------------------------------------------------------
  // The batches


  /** The keys the loop has not reached at offset `i`. */
  function Unvisited(keys: seq<string>, i: nat): seq<string>
  {
    if i < |keys| then keys[i..] else []
  }

  /** One pass of the loop at offset `i` takes the next chunk and leaves the rest of the keys. */
  lemma BatchStep(keys: seq<string>, i: nat)
    requires i < |keys|
    ensures Chunks(Unvisited(keys, i)) == [keys[i..Min(i + BatchSize, |keys|)]] + Chunks(Unvisited(keys, i + BatchSize))
    ensures forall k :: k in Unvisited(keys, i) ==> k in keys[i..Min(i + BatchSize, |keys|)] || k in Unvisited(keys, i + BatchSize)
  {
    var rest := keys[i..];
    ChunksFront(rest);
    assert rest[..Min(BatchSize, |rest|)] == keys[i..Min(i + BatchSize, |keys|)];
    assert rest[Min(BatchSize, |rest|)..] == Unvisited(keys, i + BatchSize);
  }

  /** The first chunk is the first 500 keys (or all of them); the rest are the chunks of what follows. */
  lemma ChunksFront(keys: seq<string>)
    requires keys != []
    ensures Chunks(keys) == [keys[..Min(BatchSize, |keys|)]] + Chunks(keys[Min(BatchSize, |keys|)..])
    ensures forall k :: k in keys ==> k in keys[..Min(BatchSize, |keys|)] || k in keys[Min(BatchSize, |keys|)..]
  {
    var n := Min(BatchSize, |keys|);
    assert keys == keys[..n] + keys[n..];
    if |keys| <= BatchSize {
      assert keys[..n] == keys && keys[n..] == [];
      assert Chunks(keys[n..]) == [];
      assert [keys[..n]] + [] == [keys];
    }
  }

  /** Joining the chunks back together gives the keys. */
  lemma {:induction false} ChunksFlatten(keys: seq<string>)
    ensures Flatten(Chunks(keys)) == keys
    decreases |keys|
  {
    if |keys| > BatchSize {
      assert keys[..BatchSize] + keys[BatchSize..] == keys;
      ChunksFlatten(keys[BatchSize..]);
      FlattenCons(keys[..BatchSize], Chunks(keys[BatchSize..]));
    } else if keys != [] {
      assert Flatten([keys]) == Flatten([]) + keys;
    }
  }

  lemma {:induction false} FlattenCons(b: seq<string>, bs: seq<seq<string>>)
    ensures Flatten([b] + bs) == b + Flatten(bs)
    decreases |bs|
  {
    if bs == [] {
      assert [b] + bs == [b];
      assert Flatten([b]) == Flatten([]) + b;
    } else {
      var n := |bs| - 1;
      assert ([b] + bs)[..n + 1] == [b] + bs[..n];
      FlattenCons(b, bs[..n]);
      assert b + Flatten(bs[..n]) + bs[n] == b + (Flatten(bs[..n]) + bs[n]);
    }
  }

  /**
   * Every chunk holds between 1 and 500 keys, every chunk but the last holds
   * exactly 500, and there are as many chunks as 500-key slices needed.
   */
  lemma {:induction false} ChunkSizes(keys: seq<string>)
    ensures |Chunks(keys)| == (|keys| + BatchSize - 1) / BatchSize
    ensures forall j :: 0 <= j < |Chunks(keys)| ==> 0 < |Chunks(keys)[j]| <= BatchSize
    ensures forall j :: 0 <= j < |Chunks(keys)| - 1 ==> |Chunks(keys)[j]| == BatchSize
    decreases |keys|
  {
    if |keys| > BatchSize {
      var tail := Chunks(keys[BatchSize..]);
      ChunkSizes(keys[BatchSize..]);
      assert Chunks(keys) == [keys[..BatchSize]] + tail;
      forall j | 1 <= j < |Chunks(keys)| ensures Chunks(keys)[j] == tail[j - 1] {
      }
    }
  }

  // ---------------------------------------------------------------------
  // What the tally means

  /**
   * The tally of a listing of every record, in terms of the records: its
   * rows are the backfill, and it adds up to the records that are not skipped.
   */
  lemma TallySummary(dates: seq<DateValue>, ids: seq<nat>, users: map<nat, User>, cal: Calendar)
    requires Listing(dates, ids, users) && |dates| == |users|
    requires forall id :: id in ids <==> id in users
    ensures CountersOf(Tally(dates, cal)) == Backfilled(users, cal)
    ensures Total(Tally(dates, cal)) == |users| - |UsersKeyed(users, None, cal)|
    ensures 0 <= Total(Tally(dates, cal)) <= |users|
    ensures CountsOf(CountersOf(Tally(dates, cal))) == Tally(dates, cal)
  {
    OccurrencesOfListing(dates, ids, users, None, cal);
    ListedAll(ids, UsersKeyed(users, None, cal));
    TallyTotal(dates, cal);
    TallyIsBackfill(dates, ids, users, cal);
    CountersRoundTrip(Tally(dates, cal));
  }

  /** The tally counts, for each month, exactly the dates filed under it; months with none are absent. */
  lemma {:induction false} TallyCount(dates: seq<DateValue>, key: string, cal: Calendar)
    ensures key in Tally(dates, cal) <==> Occurrences(dates, Some(key), cal) > 0
    ensures key in Tally(dates, cal) ==> Tally(dates, cal)[key] == Occurrences(dates, Some(key), cal)
    decreases |dates|
  {
    if dates != [] {
      TallyCount(dates[..|dates| - 1], key, cal);
    }
  }

  /** Each usable date adds exactly one to the tally and a skipped one adds nothing. */
  lemma {:induction false} TallyTotal(dates: seq<DateValue>, cal: Calendar)
    ensures Total(Tally(dates, cal)) == |dates| - Occurrences(dates, None, cal)
    decreases |dates|
  {
    if dates != [] {
      var n := |dates| - 1;
      TallyTotal(dates[..n], cal);
      var agg := Tally(dates[..n], cal);
      match BackfillKey(dates[n], cal)
      case None =>
      case Some(key) =>
        TotalUpdate(agg, key, (if key in agg then agg[key] else 0) + 1);
        assert Increment(agg, key) == agg[key := (if key in agg then agg[key] else 0) + 1];
    }
  }

  /** One more date: a usable one adds one to its own month, a skipped one changes nothing. */
  lemma TallyStep(dates: seq<DateValue>, i: nat, cal: Calendar)
    requires i < |dates|
    ensures BackfillKey(dates[i], cal).None? ==> Tally(dates[..i + 1], cal) == Tally(dates[..i], cal)
    ensures BackfillKey(dates[i], cal).Some? ==>
      Tally(dates[..i + 1], cal) == Increment(Tally(dates[..i], cal), BackfillKey(dates[i], cal).value)
  {
    assert dates[..i + 1][..i] == dates[..i];
  }

  /** Counting along a listing of the records counts the records themselves. */
  lemma {:induction false} OccurrencesOfListing(dates: seq<DateValue>, ids: seq<nat>, users: map<nat, User>, key: Option<string>, cal: Calendar)
    requires Listing(dates, ids, users)
    ensures Occurrences(dates, key, cal) == |Listed(ids, UsersKeyed(users, key, cal))|
    decreases |ids|
  {
    if ids != [] {
      var n := |ids| - 1;
      var front := ids[..n];
      assert front + [ids[n]] == ids;
      LastNotInFront(ids);
      assert Listing(dates[..n], front, users);
      OccurrencesOfListing(dates[..n], front, users, key, cal);
      assert ids[n] in UsersKeyed(users, key, cal) <==> BackfillKey(dates[n], cal) == key;
      ListedSnoc(front, ids[n], UsersKeyed(users, key, cal));
    }
  }

  lemma LastNotInFront(ids: seq<nat>)
    requires ids != [] && Distinct(ids)
    ensures ids[|ids| - 1] !in ids[..|ids| - 1]
  {
    var n := |ids| - 1;
    forall j | 0 <= j < n ensures ids[..n][j] != ids[n] {
      assert ids[j] != ids[n];
    }
  }

  lemma ListedSnoc(front: seq<nat>, id: nat, s: set<nat>)
    requires id !in front
    ensures id in s ==> |Listed(front + [id], s)| == |Listed(front, s)| + 1
    ensures id !in s ==> Listed(front + [id], s) == Listed(front, s)
  {
    if id in s {
      assert Listed(front + [id], s) == Listed(front, s) + {id};
    } else {
      assert Listed(front + [id], s) == Listed(front, s);
    }
  }

  lemma ListedAll(ids: seq<nat>, s: set<nat>)
    requires forall id :: id in s ==> id in ids
    ensures Listed(ids, s) == s
  {
  }

  /** A month has a row in the backfill exactly when some record is filed under it. */
  lemma BackfillKeysMember(users: map<nat, User>, key: string, cal: Calendar)
    ensures key in BackfillKeys(users, cal) <==> UsersKeyed(users, Some(key), cal) != {}
  {
    if key in BackfillKeys(users, cal) {
      var id :| id in users && BackfillKey(users[id].date, cal).Some? && BackfillKey(users[id].date, cal).value == key;
      assert id in UsersKeyed(users, Some(key), cal);
    }
    if UsersKeyed(users, Some(key), cal) != {} {
      var id :| id in UsersKeyed(users, Some(key), cal);
      assert BackfillKey(users[id].date, cal).value == key;
    }
  }

  /** The rows written from the tally of a listing are the backfill of the listed records. */
  lemma TallyIsBackfill(dates: seq<DateValue>, ids: seq<nat>, users: map<nat, User>, cal: Calendar)
    requires Listing(dates, ids, users)
    requires forall id :: id in ids <==> id in users
    ensures CountersOf(Tally(dates, cal)) == Backfilled(users, cal)
  {
    var lhs, rhs := CountersOf(Tally(dates, cal)), Backfilled(users, cal);
    forall key ensures key in lhs <==> key in rhs {
      TallyIsBackfillAt(dates, ids, users, key, cal);
    }
    forall key | key in lhs ensures lhs[key] == rhs[key] {
      TallyIsBackfillAt(dates, ids, users, key, cal);
    }
    MapsEqual(lhs, rhs);
  }

  /** One month at a time: a row exists on both sides or on neither, with the same count. */
  lemma TallyIsBackfillAt(dates: seq<DateValue>, ids: seq<nat>, users: map<nat, User>, key: string, cal: Calendar)
    requires Listing(dates, ids, users)
    requires forall id :: id in ids <==> id in users
    ensures key in CountersOf(Tally(dates, cal)) <==> key in Backfilled(users, cal)
    ensures key in Backfilled(users, cal) ==> CountersOf(Tally(dates, cal))[key] == Backfilled(users, cal)[key]
  {
    TallyCount(dates, key, cal);
    OccurrencesOfListing(dates, ids, users, Some(key), cal);
    ListedAll(ids, UsersKeyed(users, Some(key), cal));
    BackfillKeysMember(users, key, cal);
  }

  /** Writing the rows of every key of the tally, in any order, writes the rows of the tally. */
  lemma RowsForAll(keys: seq<string>, agg: map<string, int>)
    requires forall k :: k in keys <==> k in agg
    ensures RowsFor(keys, agg) == CountersOf(agg)
  {
    RowsForMembers(keys, agg);
    assert RowsFor(keys, agg).Keys == CountersOf(agg).Keys;
  }

  lemma {:induction false} RowsForMembers(keys: seq<string>, agg: map<string, int>)
    requires forall k :: k in keys ==> k in agg
    ensures forall k :: k in RowsFor(keys, agg) <==> k in keys
    ensures forall k :: k in RowsFor(keys, agg) ==> RowsFor(keys, agg)[k] == Counter(agg[k], k)
    decreases |keys|
  {
    if keys != [] {
      var n := |keys| - 1;
      assert keys == keys[..n] + [keys[n]];
      RowsForMembers(keys[..n], agg);
    }
  }

  lemma OverrideThenSet(a: map<string, Counter>, b: map<string, Counter>, k: string, v: Counter)
    ensures (a + b)[k := v] == a + b[k := v]
  {
  }

  /** Reading the written rows back as `{month: count}` gives the tally again. */
  lemma CountersRoundTrip(agg: map<string, int>)
    ensures CountsOf(CountersOf(agg)) == agg
    ensures forall k :: k in CountersOf(agg) ==> CountersOf(agg)[k].month == k
  {
    assert CountsOf(CountersOf(agg)).Keys == agg.Keys;
  }

  // ---------------------------------------------------------------------
  // Reading dates: the heuristic and the key format

  /**
   * A reading in microseconds of a millisecond instant after early 1973
   * normalises to that instant: the backfill files it where it files the
   * millisecond reading.
   */
  lemma MicrosecondsNormalise(ms: int, k: int, cal: Calendar)
    requires MicrosThreshold / 1000 < ms <= MicrosThreshold && 0 <= k < 1000
    ensures BackfillTime(Number(ms * 1000 + k), cal) == BackfillTime(Number(ms), cal)
    ensures BackfillKey(Number(ms * 1000 + k), cal) == BackfillKey(Number(ms), cal)
  {
    assert Normalize(ms * 1000 + k) == ms;
  }

  /**
   * The heuristic applies to raw numbers only: a `Date` past the threshold
   * is read as it is, a number past it is divided by 1000, while
   * getMonthKey (and so deleteUser) reads the same number undivided.
   */
  lemma HeuristicOnNumbersOnly(t: int, cal: Calendar)
    requires MicrosThreshold < t && InRange(t)
    ensures BackfillTime(Timestamp(t), cal) == Some(t)
    ensures BackfillTime(Number(t), cal) == Some(t / 1000) && t / 1000 < t
    ensures JsDate(Number(t), cal) == Some(t)
  {
  }

  /**
   * luxon's `yyyy-MM` key and getMonthKey's key for the same month agree
   * exactly when the year has at least four digits: luxon pads shorter
   * years with zeros, the template literal does not.
   */
  lemma LuxonKeyAgrees(idx: int)
    ensures LuxonMonthKey(idx) == FormatMonthKey(idx) <==> YearOf(idx) >= 1000 || YearOf(idx) <= -1000
  {
    var y := YearOf(idx);
    var tail := "-" + PadStart(NatToString(MonthOf(idx)), 2, '0');
    var a, b := LuxonYear(y), IntToString(y);
    assert LuxonMonthKey(idx) == a + tail;
    assert FormatMonthKey(idx) == b + tail;
    var n := if y < 0 then -y else y;
    NatToStringLength(n, 3);
    assert Pow10(3) == 1000;
    if n < 1000 {
      assert |a| != |b|;
      assert |a + tail| != |b + tail|;
    }
  }

  /** A stored date the backfill files under the very key getMonthKey gives it. */
  predicate KeyedAlike(d: DateValue, cal: Calendar)
  {
    Truthy(d) && BackfillKey(d, cal) == Some(GetMonthKey(d, cal))
  }

  /** A `Date` whose local year has four or more digits is keyed alike by both. */
  lemma TimestampKeyedAlike(ms: int, cal: Calendar)
    requires InRange(ms) && YearOf(cal.localMonth(ms)) >= 1000
    ensures KeyedAlike(Timestamp(ms), cal)
  {
    LuxonKeyAgrees(cal.localMonth(ms));
  }

  /** So is a non-zero number of milliseconds up to the threshold. */
  lemma NumberKeyedAlike(n: int, cal: Calendar)
    requires n != 0 && n <= MicrosThreshold && InRange(n) && YearOf(cal.localMonth(n)) >= 1000
    ensures KeyedAlike(Number(n), cal)
  {
    LuxonKeyAgrees(cal.localMonth(n));
  }

  /**
   * When every record's date is keyed alike, the backfilled counters are
   * month-consistent with the records, the state that createUser and
   * deleteUser then keep.
   */
  lemma BackfillIsMonthConsistent(users: map<nat, User>, cal: Calendar)
    requires forall id :: id in users ==> KeyedAlike(users[id].date, cal)
    ensures MonthConsistent(Tables(users, Backfilled(users, cal)), cal)
  {
    forall key ensures CountOf(Backfilled(users, cal), key) == |UsersInMonth(users, key, cal)| {
      assert UsersInMonth(users, key, cal) == UsersKeyed(users, Some(key), cal);
      BackfillKeysMember(users, key, cal);
    }
  }
}
