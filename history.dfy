/**
 * Sequences of handler calls on the `users` table. Each event is one handler
 * run as one transaction; a history is what the table goes through while the
 * bot is up. The lemmas here state what holds over every history: rows are
 * never deleted, balances never fall, balance and check-in count stay paired,
 * a non-empty `joined_at` is never rewritten, and a user is paid at most once
 * for any date as long as the dates the clock hands to that user's check-ins
 * never come back to a date once they have left it.
 */
module History {
  import opened Wrappers
  import opened Users

  /** One handler call: a plain fetch (the profile command), a check-in, or a join. */
  datatype Event =
    | Fetch(id: UserId)
    | CheckIn(id: UserId, today: string)
    | Join(id: UserId, isBot: bool, joinedDate: Option<string>)

  function Step(t: Table, e: Event): Table
  {
    match e
    case Fetch(id) => Ensure(t, id)
    case CheckIn(id, today) => CheckInStep(t, id, today).0
    case Join(id, isBot, joinedDate) => JoinStep(t, id, isBot, joinedDate).0
  }

  /** The table after the events, in order. */
  function Run(t: Table, es: seq<Event>): Table
    decreases |es|
  {
    if es == [] then t else Run(Step(t, es[0]), es[1..])
  }

  /** The stored last check-in date of `id` (none for an absent row). */
  function LastCheckin(t: Table, id: UserId): Option<string>
  {
    if id in t then t[id].lastCheckin else None
  }

  /** The dates of the check-ins of `id` in the events, in order. */
  function CheckInDays(es: seq<Event>, id: UserId): seq<string>
    decreases |es|
  {
    if es == [] then []
    else (if es[0].CheckIn? && es[0].id == id then [es[0].today] else []) + CheckInDays(es[1..], id)
  }

  /** How many check-ins of `id` on `day` in the events were granted. */
  function Grants(t: Table, es: seq<Event>, id: UserId, day: string): nat
    decreases |es|
  {
    if es == [] then 0
    else
      (if es[0] == CheckIn(id, day) && CheckInStep(t, id, day).1.Granted? then 1 else 0)
      + Grants(Step(t, es[0]), es[1..], id, day)
  }

  /**
   * A date sequence that never returns to a date after leaving it: what a
   * clock that does not run backwards hands out (ISO dates are compared as text).
   */
  predicate Clustered(days: seq<string>)
  {
    forall i, j, k :: 0 <= i < j < k < |days| && days[i] == days[k] ==> days[j] == days[i]
  }

  function AsSeq(o: Option<string>): seq<string>
  {
    match o
    case Some(d) => [d]
    case None => []
  }

  // ---------------------------------------------------------------------------
  // One step

  lemma StepConsistent(t: Table, e: Event)
    requires Consistent(t)
    ensures Consistent(Step(t, e))
  {
    match e
    case Fetch(id) => EnsureConsistent(t, id);
    case CheckIn(id, today) => CheckInConsistent(t, id, today);
    case Join(id, isBot, joinedDate) => JoinConsistent(t, id, isBot, joinedDate);
  }

  /** One step keeps every row, never lowers a balance and never rewrites a non-empty join date. */
  lemma StepMonotone(t: Table, e: Event)
    ensures var t' := Step(t, e);
      && t.Keys <= t'.Keys
      && (forall k :: k in t ==> t[k].balance <= t'[k].balance)
      && (forall k :: k in t && Truthy(t[k].joinedAt) ==> t'[k].joinedAt == t[k].joinedAt)
  {
  }

  /** Only a check-in of `id` moves its last check-in date. */
  lemma StepLastCheckin(t: Table, e: Event, id: UserId)
    requires !(e.CheckIn? && e.id == id)
    ensures LastCheckin(Step(t, e), id) == LastCheckin(t, id)
  {
  }

  // ---------------------------------------------------------------------------
  // Whole histories

  /** Every history keeps balance == total_checkins * DAILY_REWARD on every row. */
  lemma {:induction false} RunConsistent(t: Table, es: seq<Event>)
    requires Consistent(t)
    ensures Consistent(Run(t, es))
    decreases |es|
  {
    if es != [] {
      StepConsistent(t, es[0]);
      RunConsistent(Step(t, es[0]), es[1..]);
    }
  }

  /** Rows are never deleted, balances never fall, and a non-empty join date is never rewritten. */
  lemma {:induction false} RunMonotone(t: Table, es: seq<Event>)
    ensures var t' := Run(t, es);
      && t.Keys <= t'.Keys
      && (forall k :: k in t ==> t[k].balance <= t'[k].balance)
      && (forall k :: k in t && Truthy(t[k].joinedAt) ==> t'[k].joinedAt == t[k].joinedAt)
    decreases |es|
  {
    if es != [] {
      StepMonotone(t, es[0]);
      RunMonotone(Step(t, es[0]), es[1..]);
    }
  }

  lemma {:induction false} ClusteredTail(days: seq<string>)
    requires Clustered(days) && days != []
    ensures Clustered(days[1..])
  {
    var s := days[1..];
    forall i, j, k | 0 <= i < j < k < |s| && s[i] == s[k]
      ensures s[j] == s[i]
    {
      assert days[i + 1] == days[k + 1];
    }
  }

  /** A date left for another one never comes back in a clustered sequence. */
  lemma ClusteredLeft(d: string, x: string, rest: seq<string>)
    requires Clustered([d, x] + rest) && d != x
    ensures d !in rest
  {
    var s := [d, x] + rest;
    forall k | 0 <= k < |rest|
      ensures rest[k] != d
    {
      assert s[k + 2] == rest[k] && s[0] == d && s[1] == x;
    }
  }

  /** No check-in on `day` in the events, no grant for `day`. */
  lemma {:induction false} NoDayNoGrant(t: Table, es: seq<Event>, id: UserId, day: string)
    requires day !in CheckInDays(es, id)
    ensures Grants(t, es, id, day) == 0
    decreases |es|
  {
    if es != [] {
      NoDayNoGrant(Step(t, es[0]), es[1..], id, day);
    }
  }

  /**
   * At most one reward per user per date: when the stored last date followed
   * by the dates of that user's check-ins never returns to a date it has left,
   * every date is granted at most once, and not at all if it is the stored
   * last date.
   */
  lemma {:induction false} AtMostOneGrantPerDay(t: Table, es: seq<Event>, id: UserId, day: string)
    requires Clustered(AsSeq(LastCheckin(t, id)) + CheckInDays(es, id))
    ensures Grants(t, es, id, day) <= if LastCheckin(t, id) == Some(day) then 0 else 1
    decreases |es|
  {
    if es == [] {
      return;
    }
    var e, rest := es[0], es[1..];
    var t1 := Step(t, e);
    var prefix := AsSeq(LastCheckin(t, id));
    var restDays := CheckInDays(rest, id);
    if e.CheckIn? && e.id == id {
      var x := e.today;
      assert CheckInDays(es, id) == [x] + restDays;
      if LastCheckin(t, id) == Some(x) {
        // refused: nothing changes, and the repeated date drops out
        assert t1 == t;
        assert prefix == [x];
        assert prefix + CheckInDays(es, id) == [x, x] + restDays;
        ClusteredTail([x, x] + restDays);
        assert ([x, x] + restDays)[1..] == prefix + restDays;
        AtMostOneGrantPerDay(t1, rest, id, day);
      } else {
        // granted: the stored date becomes x
        assert LastCheckin(t1, id) == Some(x);
        if prefix == [] {
          assert prefix + CheckInDays(es, id) == [x] + restDays;
        } else {
          assert (prefix + ([x] + restDays))[1..] == [x] + restDays;
          ClusteredTail(prefix + ([x] + restDays));
        }
        AtMostOneGrantPerDay(t1, rest, id, day);
        if LastCheckin(t, id) == Some(day) {
          assert prefix + CheckInDays(es, id) == [day, x] + restDays;
          ClusteredLeft(day, x, restDays);
          NoDayNoGrant(t1, rest, id, day);
        }
      }
    } else {
      StepLastCheckin(t, e, id);
      assert CheckInDays(es, id) == restDays;
      AtMostOneGrantPerDay(t1, rest, id, day);
    }
  }

  /** The same day twice in a row pays once; a different date is paid again. */
  lemma TwoCheckIns(t: Table, id: UserId, day1: string, day2: string)
    requires LastCheckin(t, id) != Some(day1)
    ensures Grants(t, [CheckIn(id, day1), CheckIn(id, day1)], id, day1) == 1
    ensures day1 != day2 ==> Grants(t, [CheckIn(id, day1), CheckIn(id, day2)], id, day2) == 1
  {
    CheckInTwiceSameDay(t, id, day1);
    var t1 := Step(t, CheckIn(id, day1));
    var same := [CheckIn(id, day1), CheckIn(id, day1)];
    assert same[1..] == [CheckIn(id, day1)];
    assert [CheckIn(id, day1)][1..] == [];
    assert Grants(t1, [CheckIn(id, day1)], id, day1) == 0;
    assert Grants(t, same, id, day1) == 1 + Grants(t1, same[1..], id, day1);
    if day1 != day2 {
      CheckInNextDay(t, id, day1, day2);
      var next := [CheckIn(id, day1), CheckIn(id, day2)];
      assert next[1..] == [CheckIn(id, day2)];
      assert [CheckIn(id, day2)][1..] == [];
      assert Grants(t1, [CheckIn(id, day2)], id, day2) == 1;
      assert Grants(t, next, id, day2) == 0 + Grants(t1, next[1..], id, day2);
    }
  }

  /**
   * The guarantee rests on the clock: only the last date is stored, so dates
   * D, E, D (a clock set back, or a change of time zone) pay D twice.
   */
  lemma ClockBackPaysTwice(id: UserId)
    ensures var es := [CheckIn(id, "2024-01-02"), CheckIn(id, "2024-01-01"), CheckIn(id, "2024-01-02")];
      && !Clustered(CheckInDays(es, id))
      && Grants(map[], es, id, "2024-01-02") == 2
  {
    var d, e := "2024-01-02", "2024-01-01";
    var es := [CheckIn(id, d), CheckIn(id, e), CheckIn(id, d)];
    assert es[1..] == [CheckIn(id, e), CheckIn(id, d)];
    assert es[1..][1..] == [CheckIn(id, d)];
    assert [CheckIn(id, d)][1..] == [];
    assert CheckInDays([CheckIn(id, d)], id) == [d];
    assert CheckInDays(es[1..], id) == [e, d];
    assert CheckInDays(es, id) == [d, e, d];
    var days := [d, e, d];
    assert days[0] == days[2] && days[1] != days[0];
    var t1 := Step(map[], es[0]);
    var t2 := Step(t1, es[1]);
    assert t2[id].lastCheckin == Some(e);
    assert Grants(t2, [CheckIn(id, d)], id, d) == 1;
    assert Grants(t1, es[1..], id, d) == 1;
  }
}
