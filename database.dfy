/**
 * The record store and the counter maintenance of `src/database.js`.
 *
 * Three entity kinds live in the store: subscriber records (`UserSignup`,
 * keyed by a store-allocated numeric id), month counters (`MonthlyStats`,
 * keyed by their `YYYY-MM` name) and the one cached stats blob
 * (`GlobalStats`). A transaction stages writes and reads the committed
 * state; its commit applies every staged write at once or, when the store
 * refuses it, none of them.
 */
module Database {
  import opened Prelude
  import opened Strings
  import opened Dates

  datatype User = User(email: string, notes: string, date: DateValue, active: bool)

  datatype Counter = Counter(count: int, month: string)

  /** The stats payload that `generateAndSaveStats` builds and `saveStats` caches. */
  datatype Payload = Payload(labels: seq<string>, data: seq<int>, total: int, generatedAt: string)

  datatype StatsEntity = StatsEntity(stats: Payload, updatedAt: int)

  /** The store refused or aborted a unit of work; the caller sees the rethrown error. */
  datatype StoreError = Aborted

  /** `new Date(...).toISOString()` throws for an Invalid Date. */
  datatype QueryError = InvalidDate

  /** The part of the store that signups and unsubscribes change. */
  datatype Tables = Tables(users: map<nat, User>, counters: map<string, Counter>)

  // ---------------------------------------------------------------------
  // Month keys

  /** `${year}-${String(month).padStart(2, '0')}` for a month index. */
  function FormatMonthKey(idx: int): string
  {
    IntToString(YearOf(idx)) + "-" + PadStart(NatToString(MonthOf(idx)), 2, '0')
  }

  /** getMonthKey: the local year and month of `new Date(date)`; an Invalid Date gives "NaN-NaN". */
  function GetMonthKey(date: DateValue, cal: Calendar): string
  {
    match JsDate(date, cal)
    case None => "NaN-NaN"
    case Some(t) => FormatMonthKey(cal.localMonth(t))
  }

  /** The two-character month field: the month number with a leading zero below 10. */
  lemma PaddedMonth(m: int)
    requires 1 <= m <= 12
    ensures var p := PadStart(NatToString(m), 2, '0');
      |p| == 2 && AllDigits(p) && DigitsValue(p) == m && (m < 10 ==> p[0] == '0')
  {
    var s := NatToString(m);
    if m < 10 {
      assert s == [DigitChar(m)];
      var p := PadStart(s, 2, '0');
      assert p == ['0'] + s;
      assert p[..1] == ['0'];
    } else {
      assert s == NatToString(m / 10) + [DigitChar(m % 10)];
      assert NatToString(m / 10) == [DigitChar(m / 10)];
    }
  }

  /**
   * For a four-digit year the key is `YYYY-MM`: seven characters, the year's
   * digits, a dash, and the month 01..12.
   */
  lemma MonthKeyShape(idx: int)
    requires 1000 <= YearOf(idx) <= 9999
    ensures var key := FormatMonthKey(idx);
      && |key| == 7
      && key[4] == '-'
      && AllDigits(key[..4]) && DigitsValue(key[..4]) == YearOf(idx)
      && AllDigits(key[5..]) && DigitsValue(key[5..]) == MonthOf(idx)
  {
    var y := NatToString(YearOf(idx));
    NatToStringFourDigits(YearOf(idx));
    PaddedMonth(MonthOf(idx));
    var key := FormatMonthKey(idx);
    assert key == y + "-" + PadStart(NatToString(MonthOf(idx)), 2, '0');
    assert key[..4] == y;
    assert key[5..] == PadStart(NatToString(MonthOf(idx)), 2, '0');
  }

  /** A key for a year from 0 on: the year's digits, then the dash and the month field. */
  lemma MonthKeyParts(idx: int)
    requires YearOf(idx) >= 0
    ensures FormatMonthKey(idx) == NatToString(YearOf(idx)) + ("-" + PadStart(NatToString(MonthOf(idx)), 2, '0'))
  {
    var y, m := NatToString(YearOf(idx)), PadStart(NatToString(MonthOf(idx)), 2, '0');
    assert y + "-" + m == y + ("-" + m);
  }

  /**
   * For four-digit years, string order of month keys is chronological order,
   * which is what lets the stats aggregator sort keys as plain strings.
   */
  lemma MonthKeyOrder(i: int, j: int)
    requires 1000 <= YearOf(i) <= 9999 && 1000 <= YearOf(j) <= 9999
    ensures LexLess(FormatMonthKey(i), FormatMonthKey(j)) <==> i < j
  {
    var yi, yj := NatToString(YearOf(i)), NatToString(YearOf(j));
    var mi := PadStart(NatToString(MonthOf(i)), 2, '0');
    var mj := PadStart(NatToString(MonthOf(j)), 2, '0');
    MonthKeyParts(i);
    MonthKeyParts(j);
    NatToStringFourDigits(YearOf(i));
    NatToStringFourDigits(YearOf(j));
    PaddedMonth(MonthOf(i));
    PaddedMonth(MonthOf(j));
    MonthIndexRoundTrip(i);
    MonthIndexRoundTrip(j);
    if yi != yj {
      LexEqualLengthHeads(yi, yj, "-" + mi, "-" + mj);
      LexLessDigits(yi, yj);
    } else {
      LexCommonPrefix(yi, "-" + mi, "-" + mj);
      LexCommonPrefix("-", mi, mj);
      assert "-" + mi == ['-'] + mi && "-" + mj == ['-'] + mj;
      LexLessDigits(mi, mj);
    }
  }

  // ---------------------------------------------------------------------
  // Pure effects of the store operations, shared by the methods' contracts
  // and by the lemmas about sequences of operations

  /** A counter missing from the store counts as 0. */
  function CountOf(counters: map<string, Counter>, key: string): int
  {
    if key in counters then counters[key].count else 0
  }

  /** The counter rows as the `{ "2023-01": 5, ... }` object `getMonthlyCounts` returns. */
  function CountsOf(counters: map<string, Counter>): (counts: map<string, int>)
    ensures counts.Keys == counters.Keys
    ensures forall k :: k in counts ==> counts[k] == counters[k].count
  {
    map k | k in counters :: counters[k].count
  }

  /** The counter table after updateMonthlyCount has committed `change` to the counter `key`. */
  function Bumped(counters: map<string, Counter>, key: string, change: int): map<string, Counter>
  {
    counters[key := Counter(CountOf(counters, key) + change, key)]
  }

  /** Datastore allocates an id no stored record uses; the model takes one past the largest. */
  function FreshId(ids: set<nat>): (id: nat)
    ensures forall i :: i in ids ==> i < id
  {
    if ids == {} then 0
    else
      MaxExists(ids);
      var m :| m in ids && forall i :: i in ids ==> i <= m;
      m + 1
  }

  lemma {:induction false} MaxExists(ids: set<nat>)
    requires ids != {}
    ensures exists m :: m in ids && forall i :: i in ids ==> i <= m
    decreases |ids|
  {
    var x :| x in ids;
    if ids != {x} {
      MaxExists(ids - {x});
      var m :| m in ids - {x} && forall i :: i in ids - {x} ==> i <= m;
      var top := if m < x then x else m;
      forall i | i in ids ensures i <= top {
        if i != x {
          assert i in ids - {x};
        }
      }
      assert top in ids;
    } else {
      assert forall i :: i in ids ==> i <= x;
      assert x in ids;
    }
  }

  /**
   * The query `filter('email', '=', email).limit(1)`: Datastore returns the
   * matching record with the smallest key.
   */
  function FirstWithEmail(users: map<nat, User>, email: string): (r: Option<nat>)
    ensures r.Some? ==> r.value in users && users[r.value].email == email
    ensures r.Some? ==> forall id :: id in users && id < r.value ==> users[id].email != email
    ensures r.None? <==> forall id :: id in users ==> users[id].email != email
  {
    ScanFrom(users, email, 0, FreshId(users.Keys))
  }

  function ScanFrom(users: map<nat, User>, email: string, i: nat, bound: nat): (r: Option<nat>)
    requires forall id :: id in users ==> id < bound
    ensures r.Some? ==> i <= r.value && r.value in users && users[r.value].email == email
    ensures r.Some? ==> forall id :: id in users && i <= id < r.value ==> users[id].email != email
    ensures r.None? ==> forall id :: id in users && i <= id ==> users[id].email != email
    decreases bound - i
  {
    if i >= bound then None
    else if i in users && users[i].email == email then Some(i)
    else ScanFrom(users, email, i + 1, bound)
  }

  /** A committed createUser(email, notes) at time `now`. */
  function AfterCreate(t: Tables, email: string, notes: string, now: int, cal: Calendar): Tables
  {
    Tables(t.users[FreshId(t.users.Keys) := User(email, notes, Timestamp(now), true)],
           Bumped(t.counters, GetMonthKey(Timestamp(now), cal), 1))
  }

  /** A committed deleteUser(email); "not found" leaves both tables as they were. */
  function AfterDelete(t: Tables, email: string, cal: Calendar): Tables
  {
    match FirstWithEmail(t.users, email)
    case None => t
    case Some(id) =>
      var date := t.users[id].date;
      Tables(t.users - {id}, if Truthy(date) then Bumped(t.counters, GetMonthKey(date, cal), -1) else t.counters)
  }

  /** `Date.UTC(year, ...)` reads a year 0..99 as 1900..1999. */
  function UtcYear(year: int): int
  {
    if 0 <= year <= 99 then 1900 + year else year
  }

  /** `new Date(Date.UTC(year, monthIndex, 1))`, None when it is an Invalid Date. */
  function UtcMonthStart(year: int, monthIndex: int, cal: Calendar): Option<int>
  {
    var t := cal.utcMonthStart(UtcYear(year) * 12 + monthIndex);
    if InRange(t) then Some(t) else None
  }

  /** The records whose date is a timestamp in [lo, hi); only `Date` values are matched. */
  function InWindow(users: map<nat, User>, lo: int, hi: int): (r: map<nat, User>)
    ensures forall id :: id in r <==> id in users && users[id].date.Timestamp? && lo <= users[id].date.ms < hi
    ensures forall id :: id in r ==> r[id] == users[id]
  {
    map id | id in users && users[id].date.Timestamp? && lo <= users[id].date.ms < hi :: users[id]
  }

  /**
   * The window of getUsersByDateRange in months: a record is returned exactly
   * when its UTC month lies from `startMonth` through `endMonth` of the year,
   * the end exclusive at the following month, which for `endMonth == 12` is
   * January of the next year.
   */
  lemma DateRangeMonths(users: map<nat, User>, year: int, startMonth: int, endMonth: int, cal: Calendar)
    requires UtcConsistent(cal)
    requires UtcMonthStart(year, startMonth - 1, cal).Some? && UtcMonthStart(year, endMonth, cal).Some?
    ensures var lo, hi := UtcMonthStart(year, startMonth - 1, cal).value, UtcMonthStart(year, endMonth, cal).value;
      forall id :: id in InWindow(users, lo, hi) <==>
        && id in users && users[id].date.Timestamp?
        && MonthIndex(UtcYear(year), startMonth) <= cal.utcMonth(users[id].date.ms) < MonthIndex(UtcYear(year), endMonth + 1)
    ensures endMonth == 12 ==> MonthIndex(UtcYear(year), endMonth + 1) == MonthIndex(UtcYear(year) + 1, 1)
  {
    var lo, hi := UtcMonthStart(year, startMonth - 1, cal).value, UtcMonthStart(year, endMonth, cal).value;
    forall id | id in users && users[id].date.Timestamp?
      ensures id in InWindow(users, lo, hi) <==>
        MonthIndex(UtcYear(year), startMonth) <= cal.utcMonth(users[id].date.ms) < MonthIndex(UtcYear(year), endMonth + 1)
    {
      MonthStartOrder(cal, MonthIndex(UtcYear(year), startMonth), users[id].date.ms);
      MonthStartOrder(cal, MonthIndex(UtcYear(year), endMonth + 1), users[id].date.ms);
    }
  }

  // ---------------------------------------------------------------------
  // The store

  class Database {
    var users: map<nat, User>
    var counters: map<string, Counter>
    var globalStats: Option<StatsEntity>

    constructor ()
      ensures users == map[] && counters == map[] && globalStats == None
    {
      users := map[];
      counters := map[];
      globalStats := None;
    }

    function Snapshot(): Tables
      reads this
    {
      Tables(users, counters)
    }

    /**
     * createUser: insert an active record dated `now` and add 1 to that
     * month's counter in one transaction; if the store aborts, nothing changes
     * and the error is passed on.
     */
    method CreateUser(email: string, notes: string, now: int, cal: Calendar, accept: bool)
      returns (r: Result<nat, StoreError>)
      modifies this
      ensures globalStats == old(globalStats)
      ensures accept ==> r == Success(FreshId(old(users).Keys))
      ensures accept ==> Snapshot() == AfterCreate(old(Snapshot()), email, notes, now, cal)
      ensures !accept ==> r == Failure(Aborted) && Snapshot() == old(Snapshot())
    {
      var id := FreshId(users.Keys);
      var date := Timestamp(now);
      var entity := User(email, notes, date, true);
      ghost var before := Snapshot();
      var txn := new Transaction(this);
      StageCreate(txn, id, entity, cal);
      var committed := txn.Commit(accept);
      if committed {
        RemoveNone(before.users);
        r := Success(id);
      } else {
        txn.Rollback();
        r := Failure(Aborted);
      }
    }

    /**
     * deleteUser: inside one transaction, look the record up by email; report
     * `false` when there is none, otherwise delete it and take 1 off the
     * month of its stored date (when it has one).
     */
    method DeleteUser(email: string, cal: Calendar, accept: bool) returns (r: Result<bool, StoreError>)
      modifies this
      ensures globalStats == old(globalStats)
      ensures FirstWithEmail(old(users), email).None? ==> r == Success(false) && Snapshot() == old(Snapshot())
      ensures FirstWithEmail(old(users), email).Some? && accept ==>
        r == Success(true) && Snapshot() == AfterDelete(old(Snapshot()), email, cal)
      ensures FirstWithEmail(old(users), email).Some? && !accept ==>
        r == Failure(Aborted) && Snapshot() == old(Snapshot())
    {
      ghost var before := Snapshot();
      var txn := new Transaction(this);
      var found := txn.FindUserByEmail(email);
      if found.None? {
        txn.Rollback();
        return Success(false);
      }
      var id := found.value;
      StageDelete(txn, id, users[id].date, cal);
      var committed := txn.Commit(accept);
      if committed {
        OverrideEmpty(before.users - {id});
        r := Success(true);
      } else {
        txn.Rollback();
        r := Failure(Aborted);
      }
    }

    /**
     * getUsersByDateRange(year, startMonth, endMonth): the records dated in
     * [Date.UTC(year, startMonth - 1, 1), Date.UTC(year, endMonth, 1)).
     */
    method GetUsersByDateRange(year: int, startMonth: int, endMonth: int, cal: Calendar)
      returns (r: Result<map<nat, User>, QueryError>)
      ensures r.Failure? <==> UtcMonthStart(year, startMonth - 1, cal).None? || UtcMonthStart(year, endMonth, cal).None?
      ensures r.Success? ==>
        var lo, hi := UtcMonthStart(year, startMonth - 1, cal).value, UtcMonthStart(year, endMonth, cal).value;
        && (forall id :: id in r.value <==> id in users && users[id].date.Timestamp? && lo <= users[id].date.ms < hi)
        && (forall id :: id in r.value ==> r.value[id] == users[id])
    {
      var startDate := UtcMonthStart(year, startMonth - 1, cal);
      var endDate := UtcMonthStart(year, endMonth, cal);
      if startDate.None? || endDate.None? {
        return Failure(InvalidDate);
      }
      r := Success(InWindow(users, startDate.value, endDate.value));
    }

    /** getMonthlyCounts: every counter row, keyed by its key name, mapped to its count. */
    method GetMonthlyCounts() returns (counts: map<string, int>)
      ensures counts == CountsOf(counters)
    {
      counts := map[];
      var rest := counters.Keys;
      while rest != {}
        invariant rest <= counters.Keys
        invariant counts.Keys == counters.Keys - rest
        invariant forall k :: k in counts ==> counts[k] == counters[k].count
        decreases rest
      {
        var k :| k in rest;
        counts := counts[k := counters[k].count];
        rest := rest - {k};
      }
    }

    /** saveStats: overwrite the single cached stats entity. */
    method SaveStats(stats: Payload, now: int)
      modifies this
      ensures globalStats == Some(StatsEntity(stats, now))
      ensures users == old(users) && counters == old(counters)
    {
      globalStats := Some(StatsEntity(stats, now));
    }

    /** getStats: the cached payload, or None when stats were never saved. */
    method GetStats() returns (r: Option<Payload>)
      ensures globalStats.None? ==> r.None?
      ensures globalStats.Some? ==> r == Some(globalStats.value.stats)
    {
      if globalStats.Some? {
        r := Some(globalStats.value.stats);
      } else {
        r := None;
      }
    }

    /**
     * getSignupDates: the `date` property of every record, one entry per
     * record, in no particular order; `ids` says which record each entry
     * was read from.
     */
    method GetSignupDates() returns (dates: seq<DateValue>, ghost ids: seq<nat>)
      ensures |dates| == |users|
      ensures |ids| == |dates|
      ensures Distinct(ids) && forall id :: id in ids <==> id in users
      ensures forall i :: 0 <= i < |ids| ==> ids[i] in users && dates[i] == users[ids[i]].date
    {
      dates, ids := [], [];
      var rest := users.Keys;
      while rest != {}
        invariant rest <= users.Keys
        invariant |dates| == |ids| && |ids| + |rest| == |users|
        invariant Distinct(ids) && forall id :: id in ids <==> id in users && id !in rest
        invariant forall i :: 0 <= i < |ids| ==> ids[i] in users && dates[i] == users[ids[i]].date
        decreases |rest|
      {
        var id :| id in rest;
        dates, ids := dates + [users[id].date], ids + [id];
        rest := rest - {id};
      }
    }

    /** The keys-only query over `MonthlyStats`, in key order. */
    method GetCounterKeys() returns (keys: seq<string>)
      ensures StrictlySorted(keys)
      ensures forall k :: k in keys <==> k in counters
    {
      keys := SortedKeys(counters.Keys);
    }

    /** `datastore.delete(keys)` on counter rows, outside any transaction. */
    method DeleteCounters(keys: seq<string>)
      modifies this
      ensures counters == old(counters) - set k | k in keys
      ensures users == old(users) && globalStats == old(globalStats)
    {
      counters := counters - set k | k in keys;
    }

    /** `datastore.save(entity)` of one counter row, outside any transaction. */
    method SaveCounter(key: string, c: Counter)
      modifies this
      ensures counters == old(counters)[key := c]
      ensures users == old(users) && globalStats == old(globalStats)
    {
      counters := counters[key := c];
    }
  }

  /**
   * A Datastore transaction: reads see the committed state, writes are
   * staged, and the commit applies every staged write or none.
   */
  class Transaction {
    const db: Database
    var userSaves: map<nat, User>
    var userDeletes: set<nat>
    var counterSaves: map<string, Counter>

    constructor (db: Database)
      ensures this.db == db
      ensures userSaves == map[] && userDeletes == {} && counterSaves == map[]
    {
      this.db := db;
      userSaves := map[];
      userDeletes := {};
      counterSaves := map[];
    }

    /** transaction.get(key) of a month counter. */
    method GetCounter(key: string) returns (c: Option<Counter>)
      ensures c.Some? <==> key in db.counters
      ensures c.Some? ==> c.value == db.counters[key]
    {
      if key in db.counters {
        c := Some(db.counters[key]);
      } else {
        c := None;
      }
    }

    /** transaction.runQuery of the email query with limit(1). */
    method FindUserByEmail(email: string) returns (id: Option<nat>)
      ensures id.Some? ==> id.value in db.users && db.users[id.value].email == email
      ensures id == FirstWithEmail(db.users, email)
    {
      id := FirstWithEmail(db.users, email);
    }

    method SaveUser(id: nat, u: User)
      modifies this
      ensures userSaves == old(userSaves)[id := u] && userDeletes == old(userDeletes) - {id}
      ensures counterSaves == old(counterSaves)
    {
      userSaves := userSaves[id := u];
      userDeletes := userDeletes - {id};
    }

    method DeleteUser(id: nat)
      modifies this
      ensures userDeletes == old(userDeletes) + {id} && userSaves == old(userSaves) - {id}
      ensures counterSaves == old(counterSaves)
    {
      userDeletes := userDeletes + {id};
      userSaves := userSaves - {id};
    }

    method SaveCounter(key: string, c: Counter)
      modifies this
      ensures counterSaves == old(counterSaves)[key := c]
      ensures userSaves == old(userSaves) && userDeletes == old(userDeletes)
    {
      counterSaves := counterSaves[key := c];
    }

    /** Commit: the store accepts (all staged writes apply) or aborts (none do). */
    method Commit(accept: bool) returns (committed: bool)
      modifies db
      ensures committed == accept
      ensures committed ==> db.users == (old(db.users) - userDeletes) + userSaves
      ensures committed ==> db.counters == old(db.counters) + counterSaves
      ensures !committed ==> db.users == old(db.users) && db.counters == old(db.counters)
      ensures db.globalStats == old(db.globalStats)
    {
      committed := accept;
      if committed {
        db.users := (db.users - userDeletes) + userSaves;
        db.counters := db.counters + counterSaves;
      }
    }

    /** Rollback: drop whatever is staged. */
    method Rollback()
      modifies this
      ensures userSaves == map[] && userDeletes == {} && counterSaves == map[]
    {
      userSaves := map[];
      userDeletes := {};
      counterSaves := map[];
    }
  }

  /**
   * The writes createUser stages: the new record under `id` and 1 more in the
   * month of its date.
   */
  method StageCreate(txn: Transaction, id: nat, u: User, cal: Calendar)
    requires txn.userSaves == map[] && txn.userDeletes == {} && txn.counterSaves == map[]
    modifies txn
    ensures txn.userDeletes == {} && txn.userSaves == map[id := u]
    ensures txn.db.users + txn.userSaves == txn.db.users[id := u]
    ensures txn.db.counters + txn.counterSaves == Bumped(txn.db.counters, GetMonthKey(u.date, cal), 1)
  {
    txn.SaveUser(id, u);
    UpdateMonthlyCount(txn, u.date, 1, cal);
    ghost var key := GetMonthKey(u.date, cal);
    OverrideOne(txn.db.users, id, u);
    OverrideOne(txn.db.counters, key, Counter(CountOf(txn.db.counters, key) + 1, key));
  }

  /**
   * The writes deleteUser stages once the record `id` is found: its deletion
   * and, when its stored date is truthy, 1 off that date's month.
   */
  method StageDelete(txn: Transaction, id: nat, date: DateValue, cal: Calendar)
    requires txn.userSaves == map[] && txn.userDeletes == {} && txn.counterSaves == map[]
    modifies txn
    ensures txn.userDeletes == {id} && txn.userSaves == map[]
    ensures txn.db.counters + txn.counterSaves
      == if Truthy(date) then Bumped(txn.db.counters, GetMonthKey(date, cal), -1) else txn.db.counters
  {
    txn.DeleteUser(id);
    if Truthy(date) {
      UpdateMonthlyCount(txn, date, -1, cal);
      ghost var key := GetMonthKey(date, cal);
      OverrideOne(txn.db.counters, key, Counter(CountOf(txn.db.counters, key) - 1, key));
    } else {
      OverrideEmpty(txn.db.counters);
    }
  }

  /**
   * updateMonthlyCount: read the month's counter inside the transaction
   * (missing or 0 reads as 0) and stage `old + change` together with the key
   * as its `month` field.
   */
  method UpdateMonthlyCount(txn: Transaction, date: DateValue, change: int, cal: Calendar)
    modifies txn
    ensures var key := GetMonthKey(date, cal);
      txn.counterSaves == old(txn.counterSaves)[key := Counter(CountOf(txn.db.counters, key) + change, key)]
    ensures txn.userSaves == old(txn.userSaves) && txn.userDeletes == old(txn.userDeletes)
  {
    var monthKey := GetMonthKey(date, cal);
    var entity := txn.GetCounter(monthKey);
    var count := 0;
    if entity.Some? && entity.value.count != 0 {
      count := entity.value.count;
    }
    count := count + change;
    txn.SaveCounter(monthKey, Counter(count, monthKey));
  }
}
