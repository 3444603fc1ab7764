/**
 * What the transactional signup and unsubscribe paths keep true of the
 * store: the month counters stay in step with the subscriber records, both
 * in total and month by month.
 */
module Consistency {
  import opened Prelude
  import opened Strings
  import opened Dates
  import opened Database

  /** The sum of all month counters equals the number of stored records. */
  ghost predicate SumConsistent(t: Tables)
  {
    Total(CountsOf(t.counters)) == |t.users|
  }

  /** Every record has a date that `if (user.date)` accepts; createUser only writes such records. */
  ghost predicate AllDated(users: map<nat, User>)
  {
    forall id :: id in users ==> Truthy(users[id].date)
  }

  /** The records that deleteUser would subtract from month `key`. */
  ghost function UsersInMonth(users: map<nat, User>, key: string, cal: Calendar): set<nat>
  {
    set id | id in users && Truthy(users[id].date) && GetMonthKey(users[id].date, cal) == key
  }

  /** Each month's counter (0 when missing) equals the number of dated records in that month. */
  ghost predicate MonthConsistent(t: Tables, cal: Calendar)
  {
    forall key :: CountOf(t.counters, key) == |UsersInMonth(t.users, key, cal)|
  }

  /** One call to createUser or deleteUser; `accept` is the store's commit decision. */
  datatype Op =
    | Create(email: string, notes: string, now: int, accept: bool)
    | Delete(email: string, accept: bool)

  /** The effect of one call on the tables, as the methods of `Database` promise it. */
  function Apply(t: Tables, op: Op, cal: Calendar): Tables
  {
    match op
    case Create(email, notes, now, accept) =>
      if accept then AfterCreate(t, email, notes, now, cal) else t
    case Delete(email, accept) =>
      if accept then AfterDelete(t, email, cal) else t
  }

  function Run(t: Tables, ops: seq<Op>, cal: Calendar): Tables
  {
    if ops == [] then t else Apply(Run(t, ops[..|ops| - 1], cal), ops[|ops| - 1], cal)
  }

  /** Changing one counter through updateMonthlyCount changes the counter total by `change`. */
  lemma BumpedTotal(counters: map<string, Counter>, key: string, change: int)
    ensures Total(CountsOf(Bumped(counters, key, change))) == Total(CountsOf(counters)) + change
  {
    CounterWriteTotal(counters, key, CountOf(counters, key) + change);
  }

  /** Writing count `c` under `key` changes the counter total by `c` minus what was there. */
  lemma CounterWriteTotal(counters: map<string, Counter>, key: string, c: int)
    ensures Total(CountsOf(counters[key := Counter(c, key)])) == Total(CountsOf(counters)) - CountOf(counters, key) + c
  {
    var counts := CountsOf(counters);
    var lhs := CountsOf(counters[key := Counter(c, key)]);
    var rhs := counts[key := c];
    assert lhs.Keys == rhs.Keys;
    assert forall k :: k in lhs ==> lhs[k] == rhs[k];
    assert lhs == rhs;
    TotalUpdate(counts, key, c);
  }

  lemma CreateKeepsSum(t: Tables, email: string, notes: string, now: int, cal: Calendar)
    requires SumConsistent(t) && AllDated(t.users)
    ensures SumConsistent(AfterCreate(t, email, notes, now, cal))
    ensures AllDated(AfterCreate(t, email, notes, now, cal).users)
  {
    BumpedTotal(t.counters, GetMonthKey(Timestamp(now), cal), 1);
    assert FreshId(t.users.Keys) !in t.users;
  }

  lemma DeleteKeepsSum(t: Tables, email: string, cal: Calendar)
    requires SumConsistent(t) && AllDated(t.users)
    ensures SumConsistent(AfterDelete(t, email, cal))
    ensures AllDated(AfterDelete(t, email, cal).users)
  {
    match FirstWithEmail(t.users, email)
    case None =>
    case Some(id) =>
      BumpedTotal(t.counters, GetMonthKey(t.users[id].date, cal), -1);
      assert |t.users - {id}| == |t.users| - 1 by {
        assert (t.users - {id}).Keys == t.users.Keys - {id};
      }
  }

  /**
   * The central invariant: from counters that sum to the number of records,
   * every sequence of committed or aborted signups and unsubscribes keeps
   * them summing to the number of records.
   */
  lemma {:induction false} RunKeepsSum(t: Tables, ops: seq<Op>, cal: Calendar)
    requires SumConsistent(t) && AllDated(t.users)
    ensures SumConsistent(Run(t, ops, cal)) && AllDated(Run(t, ops, cal).users)
    decreases |ops|
  {
    if ops != [] {
      var before := Run(t, ops[..|ops| - 1], cal);
      RunKeepsSum(t, ops[..|ops| - 1], cal);
      assert Run(t, ops, cal) == Apply(before, ops[|ops| - 1], cal);
      match ops[|ops| - 1]
      case Create(email, notes, now, accept) =>
        if accept {
          CreateKeepsSum(before, email, notes, now, cal);
        }
      case Delete(email, accept) =>
        if accept {
          DeleteKeepsSum(before, email, cal);
        }
    }
  }

  /**
   * Why the invariant needs dated records: deleting a record without a date
   * removes it but leaves every counter as it was, so the sum and the record
   * count drift apart by one.
   */
  lemma UndatedDeleteDrifts(t: Tables, email: string, cal: Calendar)
    requires SumConsistent(t)
    requires var found := FirstWithEmail(t.users, email); found.Some? && !Truthy(t.users[found.value].date)
    ensures !SumConsistent(AfterDelete(t, email, cal))
    ensures Total(CountsOf(AfterDelete(t, email, cal).counters)) == |AfterDelete(t, email, cal).users| + 1
  {
    var id := FirstWithEmail(t.users, email).value;
    assert (t.users - {id}).Keys == t.users.Keys - {id};
  }

  lemma CreateKeepsMonths(t: Tables, email: string, notes: string, now: int, cal: Calendar)
    requires MonthConsistent(t, cal)
    ensures MonthConsistent(AfterCreate(t, email, notes, now, cal), cal)
  {
    var id := FreshId(t.users.Keys);
    var u := User(email, notes, Timestamp(now), true);
    var k0 := GetMonthKey(Timestamp(now), cal);
    var t' := Tables(t.users[id := u], Bumped(t.counters, k0, 1));
    assert t' == AfterCreate(t, email, notes, now, cal);
    forall key ensures CountOf(t'.counters, key) == |UsersInMonth(t'.users, key, cal)| {
      InsertInMonth(t.users, id, u, key, cal);
      if key == k0 {
        assert CountOf(t'.counters, key) == CountOf(t.counters, key) + 1;
      } else {
        assert CountOf(t'.counters, key) == CountOf(t.counters, key);
      }
    }
  }

  /** Adding a dated record `id` adds it to its own month and to no other. */
  lemma InsertInMonth(users: map<nat, User>, id: nat, u: User, key: string, cal: Calendar)
    requires id !in users && Truthy(u.date)
    ensures GetMonthKey(u.date, cal) == key ==> |UsersInMonth(users[id := u], key, cal)| == |UsersInMonth(users, key, cal)| + 1
    ensures GetMonthKey(u.date, cal) != key ==> UsersInMonth(users[id := u], key, cal) == UsersInMonth(users, key, cal)
  {
    var before := UsersInMonth(users, key, cal);
    assert id !in before;
    if GetMonthKey(u.date, cal) == key {
      assert UsersInMonth(users[id := u], key, cal) == before + {id};
    } else {
      assert UsersInMonth(users[id := u], key, cal) == before;
    }
  }

  lemma DeleteKeepsMonths(t: Tables, email: string, cal: Calendar)
    requires MonthConsistent(t, cal)
    ensures MonthConsistent(AfterDelete(t, email, cal), cal)
  {
    match FirstWithEmail(t.users, email)
    case None =>
    case Some(id) =>
      var t' := AfterDelete(t, email, cal);
      var date := t.users[id].date;
      forall key ensures CountOf(t'.counters, key) == |UsersInMonth(t'.users, key, cal)| {
        var before := UsersInMonth(t.users, key, cal);
        assert UsersInMonth(t'.users, key, cal) == before - {id};
        if Truthy(date) && key == GetMonthKey(date, cal) {
          assert id in before;
        } else {
          assert id !in before;
        }
      }
  }

  /**
   * Month by month, too: counters that match the records stay matched by
   * every sequence of signups and unsubscribes, whatever the records' dates.
   */
  lemma {:induction false} RunKeepsMonths(t: Tables, ops: seq<Op>, cal: Calendar)
    requires MonthConsistent(t, cal)
    ensures MonthConsistent(Run(t, ops, cal), cal)
    decreases |ops|
  {
    if ops != [] {
      var before := Run(t, ops[..|ops| - 1], cal);
      RunKeepsMonths(t, ops[..|ops| - 1], cal);
      assert Run(t, ops, cal) == Apply(before, ops[|ops| - 1], cal);
      match ops[|ops| - 1]
      case Create(email, notes, now, accept) =>
        if accept {
          CreateKeepsMonths(before, email, notes, now, cal);
        }
      case Delete(email, accept) =>
        if accept {
          DeleteKeepsMonths(before, email, cal);
        }
    }
  }

  /** An empty store is consistent in both senses. */
  lemma EmptyIsConsistent(cal: Calendar)
    ensures SumConsistent(Tables(map[], map[]))
    ensures MonthConsistent(Tables(map[], map[]), cal)
  {
    assert CountsOf(map[]) == map[];
  }
}
