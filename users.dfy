/**
 * The `users` table of the bot (one row per platform user id) and the two
 * command handlers that change it: the daily check-in and the member-join
 * recorder. Each handler runs inside one sqlite transaction, so each is one
 * atomic step here. The pure step functions state what one handler does to
 * the whole table; the class `UserTable` performs the same steps in place,
 * statement by statement, and is proved to agree with them.
 */
module Users {
  import opened Wrappers

  type UserId = int

  /** Currency granted by one successful check-in. */
  const DAILY_REWARD: int := 100000

  /** What the join handler stores when the platform gives no join date. */
  const UNKNOWN_JOIN_DATE: string := "알 수 없음"

  /** One row: `last_checkin` and `joined_at` are nullable TEXT columns. */
  datatype UserRecord = UserRecord(
    balance: int,
    totalCheckins: int,
    lastCheckin: Option<string>,
    joinedAt: Option<string>)

  type Table = map<UserId, UserRecord>

  /** The row `INSERT OR IGNORE INTO users(user_id)` creates: column defaults 0, 0, NULL, NULL. */
  const NEW_RECORD: UserRecord := UserRecord(0, 0, None, None)

  /** Result of a check-in, as the reply shows it. */
  datatype CheckInResult = Granted(balance: int, total: int) | Already(balance: int)

  /** What the welcome message of a join shows. */
  datatype JoinView = JoinView(joinedAt: string, balance: int, total: int)

  /** Python truthiness of a nullable TEXT value: NULL and "" are falsy. */
  predicate Truthy(s: Option<string>)
    ensures Truthy(s) <==> s !in {None, Some("")}
  {
    s.Some? && s.value != ""
  }

  /** Balance and check-in count move as a pair: the row invariant every operation keeps. */
  predicate ConsistentRecord(u: UserRecord)
  {
    u.totalCheckins >= 0 && u.balance == u.totalCheckins * DAILY_REWARD
  }

  predicate Consistent(t: Table)
  {
    forall id :: id in t ==> ConsistentRecord(t[id])
  }

  /** `ensure_user`: insert a zeroed row unless one exists. */
  function Ensure(t: Table, id: UserId): (t': Table)
    ensures t'.Keys == t.Keys + {id}
    ensures forall k :: k in t ==> t'[k] == t[k]
    ensures id !in t ==> t'[id] == NEW_RECORD
  {
    if id in t then t else t[id := NEW_RECORD]
  }

  /** The row after a granted check-in on `today`. */
  function Rewarded(u: UserRecord, today: string): (r: UserRecord)
    ensures ConsistentRecord(u) ==> ConsistentRecord(r)
    ensures r.balance - u.balance == DAILY_REWARD && r.totalCheckins - u.totalCheckins == 1
    ensures r.lastCheckin == Some(today) && r.joinedAt == u.joinedAt
  {
    u.(balance := u.balance + DAILY_REWARD,
       totalCheckins := u.totalCheckins + 1,
       lastCheckin := Some(today))
  }

  /** The check-in handler: fetch (creating if needed), then grant unless already done today. */
  function CheckInStep(t: Table, id: UserId, today: string): (res: (Table, CheckInResult))
    ensures res.0.Keys == t.Keys + {id}
    ensures forall k :: k in t && k != id ==> res.0[k] == t[k]
    ensures id in t ==> res.0[id].joinedAt == t[id].joinedAt
    ensures res.1.balance == res.0[id].balance
    ensures res.1.Granted? ==> res.1.total == res.0[id].totalCheckins && res.0[id].lastCheckin == Some(today)
  {
    var t1 := Ensure(t, id);
    var u := t1[id];
    if u.lastCheckin == Some(today) then (t1, Already(u.balance))
    else (t1[id := Rewarded(u, today)], Granted(u.balance + DAILY_REWARD, u.totalCheckins + 1))
  }

  /** The date string the join handler works with: the formatted date, or the placeholder. */
  function JoinedString(joinedDate: Option<string>): (s: string)
    ensures joinedDate.Some? ==> s == joinedDate.value
    ensures joinedDate.None? ==> Truthy(Some(s))
  {
    match joinedDate
    case Some(d) => d
    case None => UNKNOWN_JOIN_DATE
  }

  /** The join handler: ignore bots; create the row; stamp `joined_at` only while it is falsy. */
  function JoinStep(t: Table, id: UserId, isBot: bool, joinedDate: Option<string>): (res: (Table, Option<JoinView>))
    ensures isBot ==> res == (t, None)
    ensures !isBot ==> res.0.Keys == t.Keys + {id} && res.1.Some?
    ensures forall k :: k in t && (isBot || k != id) ==> res.0[k] == t[k]
    ensures id in t ==> var (u, u') := (t[id], res.0[id]);
      u'.balance == u.balance && u'.totalCheckins == u.totalCheckins && u'.lastCheckin == u.lastCheckin
    ensures id in t && Truthy(t[id].joinedAt) ==> res.0 == t
  {
    if isBot then (t, None)
    else
      var joinedStr := JoinedString(joinedDate);
      var t1 := Ensure(t, id);
      var u := t1[id];
      var t2 := if Truthy(u.joinedAt) then t1 else t1[id := u.(joinedAt := Some(joinedStr))];
      var v := t2[id];
      (t2, Some(JoinView(if Truthy(v.joinedAt) then v.joinedAt.value else joinedStr, v.balance, v.totalCheckins)))
  }

  /** The `users` table as the handlers see it inside one transaction. */
  class UserTable {
    var users: Table

    ghost predicate Valid()
      reads this
    {
      Consistent(users)
    }

    /** A database with the table created and no rows. */
    constructor ()
      ensures Valid() && users == map[]
    {
      users := map[];
    }

    /** `ensure_user`: INSERT OR IGNORE of a row with the column defaults. */
    method EnsureUser(id: UserId)
      modifies this
      ensures users == Ensure(old(users), id)
      ensures old(Valid()) ==> Valid()
    {
      if id !in users {
        users := users[id := NEW_RECORD];
      }
    }

    /** `get_user`: ensure the row, then select it. */
    method GetUser(id: UserId) returns (u: UserRecord)
      modifies this
      ensures users == Ensure(old(users), id)
      ensures id in users && u == users[id]
      ensures id in old(users) ==> u == old(users)[id]
      ensures id !in old(users) ==> u == NEW_RECORD
      ensures old(Valid()) ==> Valid() && u.balance == u.totalCheckins * DAILY_REWARD && u.balance >= 0
    {
      EnsureUser(id);
      u := users[id];
    }

    /** The check-in command on the date `today`. */
    method CheckIn(id: UserId, today: string) returns (r: CheckInResult)
      modifies this
      ensures (users, r) == CheckInStep(old(users), id, today)
      ensures old(Valid()) ==> Valid() && r.balance >= 0
      ensures old(Valid()) && r.Granted? ==> r.balance == r.total * DAILY_REWARD && r.total >= 1
    {
      var user := GetUser(id);
      if user.lastCheckin == Some(today) {
        return Already(user.balance);
      }
      var newBalance := user.balance + DAILY_REWARD;
      var newTotal := user.totalCheckins + 1;
      users := users[id := user.(balance := newBalance, totalCheckins := newTotal, lastCheckin := Some(today))];
      r := Granted(newBalance, newTotal);
    }

    /** The member-join event; `joinedDate` is the join date already formatted, if the platform has one. */
    method OnMemberJoin(id: UserId, isBot: bool, joinedDate: Option<string>) returns (view: Option<JoinView>)
      modifies this
      ensures (users, view) == JoinStep(old(users), id, isBot, joinedDate)
      ensures old(Valid()) ==> Valid()
      ensures old(Valid()) && view.Some? ==> view.value.balance == view.value.total * DAILY_REWARD
    {
      if isBot {
        return None;
      }
      var joinedStr := if joinedDate.Some? then joinedDate.value else UNKNOWN_JOIN_DATE;
      var user := GetUser(id);
      if !Truthy(user.joinedAt) {
        users := users[id := user.(joinedAt := Some(joinedStr))];
        user := GetUser(id);
      }
      var shown := if Truthy(user.joinedAt) then user.joinedAt.value else joinedStr;
      view := Some(JoinView(shown, user.balance, user.totalCheckins));
    }
  }

  // ---------------------------------------------------------------------------
  // Lazy creation

  /** The first fetch of an unseen id adds exactly one zeroed row and nothing else. */
  lemma EnsureCreatesZeroed(t: Table, id: UserId)
    requires id !in t
    ensures var t' := Ensure(t, id);
      && t'.Keys == t.Keys + {id} && |t'| == |t| + 1
      && t'[id].balance == 0 && t'[id].totalCheckins == 0
      && t'[id].lastCheckin == None && t'[id].joinedAt == None
      && forall k :: k in t ==> t'[k] == t[k]
  {
  }

  /** On a stored id the insert is ignored: the table is unchanged. */
  lemma EnsureKeepsExisting(t: Table, id: UserId)
    requires id in t
    ensures Ensure(t, id) == t
  {
  }

  /** Fetching again neither resets nor duplicates: the second fetch changes nothing and sees the same row. */
  lemma EnsureIdempotent(t: Table, id: UserId)
    ensures Ensure(Ensure(t, id), id) == Ensure(t, id)
    ensures Ensure(t, id)[id] == if id in t then t[id] else NEW_RECORD
  {
  }

  lemma EnsureConsistent(t: Table, id: UserId)
    requires Consistent(t)
    ensures Consistent(Ensure(t, id))
  {
  }

  // ---------------------------------------------------------------------------
  // Daily check-in

  /** The check-in is refused exactly when the stored row was already checked in on `today`. */
  lemma CheckInRefusedIff(t: Table, id: UserId, today: string)
    ensures CheckInStep(t, id, today).1.Already?
        <==> id in t && t[id].lastCheckin == Some(today)
  {
  }

  /** A refused check-in changes no row at all and reports the stored balance. */
  lemma CheckInRefusedUnchanged(t: Table, id: UserId, today: string)
    requires id in t && t[id].lastCheckin == Some(today)
    ensures CheckInStep(t, id, today) == (t, Already(t[id].balance))
  {
  }

  /**
   * A granted check-in adds the reward and one check-in and records `today`
   * in one update; `joined_at` and every other row stay as they were.
   */
  lemma CheckInGranted(t: Table, id: UserId, today: string)
    requires !(id in t && t[id].lastCheckin == Some(today))
    ensures var (t', r) := CheckInStep(t, id, today);
      var u := if id in t then t[id] else NEW_RECORD;
      && t'.Keys == t.Keys + {id}
      && t'[id].balance == u.balance + DAILY_REWARD
      && t'[id].totalCheckins == u.totalCheckins + 1
      && t'[id].lastCheckin == Some(today)
      && t'[id].joinedAt == u.joinedAt
      && (forall k :: k in t && k != id ==> t'[k] == t[k])
      && r == Granted(t'[id].balance, t'[id].totalCheckins)
  {
  }

  /** Two check-ins on the same date: the first grants, the second is refused; the reward is paid once. */
  lemma CheckInTwiceSameDay(t: Table, id: UserId, today: string)
    requires !(id in t && t[id].lastCheckin == Some(today))
    ensures var (t1, r1) := CheckInStep(t, id, today);
      var (t2, r2) := CheckInStep(t1, id, today);
      var u := if id in t then t[id] else NEW_RECORD;
      && r1 == Granted(u.balance + DAILY_REWARD, u.totalCheckins + 1)
      && r2 == Already(u.balance + DAILY_REWARD)
      && t2 == t1
  {
  }

  /** A check-in on another date after a grant is granted again. */
  lemma CheckInNextDay(t: Table, id: UserId, day1: string, day2: string)
    requires !(id in t && t[id].lastCheckin == Some(day1))
    requires day1 != day2
    ensures var (t1, r1) := CheckInStep(t, id, day1);
      var (t2, r2) := CheckInStep(t1, id, day2);
      var u := if id in t then t[id] else NEW_RECORD;
      && r1.Granted? && r2.Granted?
      && r2 == Granted(u.balance + 2 * DAILY_REWARD, u.totalCheckins + 2)
      && t2[id].lastCheckin == Some(day2)
  {
  }

  /** Check-in keeps balance == total_checkins * DAILY_REWARD, so both stay non-negative. */
  lemma CheckInConsistent(t: Table, id: UserId, today: string)
    requires Consistent(t)
    ensures var (t', r) := CheckInStep(t, id, today);
      && Consistent(t')
      && (forall k :: k in t' ==> t'[k].balance >= 0)
      && (r.Granted? ==> r.balance == r.total * DAILY_REWARD && r.total >= 1)
      && r.balance >= 0
  {
    var (t', r) := CheckInStep(t, id, today);
    forall k | k in t' ensures t'[k].balance >= 0 {
      assert ConsistentRecord(t'[k]);
    }
  }

  // ---------------------------------------------------------------------------
  // Member join

  /** Bots leave the table untouched and get no welcome. */
  lemma JoinBotIgnored(t: Table, id: UserId, joinedDate: Option<string>)
    ensures JoinStep(t, id, true, joinedDate) == (t, None)
  {
  }

  /**
   * A human join creates the row if needed and writes `joined_at` only when
   * it is NULL or empty; balance, total and last check-in are never touched,
   * and no other row changes. The welcome shows the stored date.
   */
  lemma JoinRecords(t: Table, id: UserId, joinedDate: Option<string>)
    ensures var (t', view) := JoinStep(t, id, false, joinedDate);
      var u := if id in t then t[id] else NEW_RECORD;
      && t'.Keys == t.Keys + {id}
      && (forall k :: k in t && k != id ==> t'[k] == t[k])
      && t'[id].balance == u.balance
      && t'[id].totalCheckins == u.totalCheckins
      && t'[id].lastCheckin == u.lastCheckin
      && t'[id].joinedAt == (if Truthy(u.joinedAt) then u.joinedAt else Some(JoinedString(joinedDate)))
      && view == Some(JoinView(JoinedString(if Truthy(u.joinedAt) then u.joinedAt else joinedDate),
                               u.balance, u.totalCheckins))
  {
  }

  /** A second join with another date keeps the first date. */
  lemma JoinTwiceKeepsFirst(t: Table, id: UserId, first: Option<string>, second: Option<string>)
    requires JoinedString(first) != ""
    requires !(id in t && Truthy(t[id].joinedAt))
    ensures var (t1, _) := JoinStep(t, id, false, first);
      var (t2, v2) := JoinStep(t1, id, false, second);
      && t1[id].joinedAt == Some(JoinedString(first))
      && t2 == t1
      && v2.Some? && v2.value.joinedAt == JoinedString(first)
  {
  }

  /** Once `joined_at` holds a non-empty text, no join changes it. */
  lemma JoinedAtWrittenOnce(t: Table, id: UserId, isBot: bool, joinedDate: Option<string>)
    requires id in t && Truthy(t[id].joinedAt)
    ensures JoinStep(t, id, isBot, joinedDate).0 == t
  {
  }

  /** A join without a platform date stores the placeholder, and a later dated join keeps it. */
  lemma JoinPlaceholderSticks(t: Table, id: UserId, later: string)
    requires !(id in t && Truthy(t[id].joinedAt))
    ensures var (t1, _) := JoinStep(t, id, false, None);
      var (t2, _) := JoinStep(t1, id, false, Some(later));
      t2[id].joinedAt == Some(UNKNOWN_JOIN_DATE)
  {
  }

  lemma JoinConsistent(t: Table, id: UserId, isBot: bool, joinedDate: Option<string>)
    requires Consistent(t)
    ensures Consistent(JoinStep(t, id, isBot, joinedDate).0)
  {
  }

  // ---------------------------------------------------------------------------
  // Worked scenarios

  /** User 42, never seen: profile 0/0/none/none; check-in twice on one day, then on the next. */
  lemma ScenarioCheckIns()
    ensures var t0 := Ensure(map[], 42);
      var (t1, r1) := CheckInStep(t0, 42, "2024-01-01");
      var (t2, r2) := CheckInStep(t1, 42, "2024-01-01");
      var (t3, r3) := CheckInStep(t2, 42, "2024-01-02");
      && t0[42] == UserRecord(0, 0, None, None)
      && r1 == Granted(100000, 1)
      && r2 == Already(100000)
      && r3 == Granted(200000, 2)
  {
  }

  /** User 99 joins on 2024-03-01, then again on 2024-03-05: the first date stays. */
  lemma ScenarioJoins()
    ensures var (t1, _) := JoinStep(map[], 99, false, Some("2024-03-01"));
      var (t2, _) := JoinStep(t1, 99, false, Some("2024-03-05"));
      && t1[99].joinedAt == Some("2024-03-01")
      && t2[99].joinedAt == Some("2024-03-01")
  {
  }
}
