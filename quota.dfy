/**
  The daily quota gate (`checkMessageLimit`): a lazy per-day reset of the user's
  counter, persisted before the comparison with `MESSAGE_LIMIT`, and the
  admit/reject decision. The gate never increments the counter; a completed
  chat turn does (`CountCompletion`).
*/
module Quota {
  import opened Common
  import opened Store

  /** A JavaScript number, as far as comparisons with an integer counter need it. */
  datatype JsNumber = NaN | Finite(value: real)

  /** The `MESSAGE_LIMIT` environment variable: unset, the empty string, or a non-empty string whose `Number` value is `value`. */
  datatype EnvLimit = Unset | Empty | Numeric(value: JsNumber)

  /**
    What `count >= MESSAGE_LIMIT` compares against: the raw string converted by
    `Number` (the empty string is 0), and `undefined`, which converts to NaN.
  */
  function GateLimit(env: EnvLimit): JsNumber {
    match env
    case Unset => NaN
    case Empty => Finite(0.0)
    case Numeric(v) => v
  }

  /** `count >= limit` in JavaScript: never true when the limit is NaN. */
  predicate AtLeast(count: int, limit: JsNumber) {
    limit.Finite? && count as real >= limit.value
  }

  datatype GateResult = UserNotFound | LimitReached | Admitted

  /** The lazy reset: a user never seen, or last seen on another day, starts today at 0. */
  function Rollover(u: User, today: Day): User {
    if u.lastMessageDate.None? || u.lastMessageDate.value != today then User(0, Some(today)) else u
  }

  /** The gate as a function of the user table: its decision and the table it leaves behind. */
  function GateStep(users: map<UserId, User>, userId: UserId, today: Day, env: EnvLimit)
    : (GateResult, map<UserId, User>)
  {
    if userId !in users then (UserNotFound, users)
    else
      var u := Rollover(users[userId], today);
      (if AtLeast(u.dailyMessageCount, GateLimit(env)) then LimitReached else Admitted, users[userId := u])
  }

  /**
    `checkMessageLimit`: loads the user, resets and saves the counter on a new
    day, then rejects (403) when the counter has reached the limit and admits
    (calls `next()`) otherwise. The session's user id is present because the
    authentication middleware runs first.
  */
  method CheckMessageLimit(db: Database, userId: UserId, today: Day, env: EnvLimit) returns (r: GateResult)
    modifies db`users
    ensures (r, db.users) == GateStep(old(db.users), userId, today, env)
  {
    if userId !in db.users {
      return UserNotFound;
    }
    var user := db.users[userId];
    if user.lastMessageDate.None? || user.lastMessageDate.value != today {
      user := User(0, Some(today));
      db.users := db.users[userId := user];
    } else {
      assert db.users[userId := user] == db.users;
    }
    if AtLeast(user.dailyMessageCount, GateLimit(env)) {
      return LimitReached;
    }
    r := Admitted;
  }

  /** An unknown user is turned away with nothing changed. */
  lemma UnknownUserUnchanged(users: map<UserId, User>, userId: UserId, today: Day, env: EnvLimit)
    requires userId !in users
    ensures GateStep(users, userId, today, env) == (UserNotFound, users)
  {
  }

  /**
    For a known user the gate leaves every other user alone, leaves this user's
    counter either as it was (same day) or at 0 (new day) and dated today, and
    rejects exactly when that counter has reached the limit.
  */
  lemma GateDecision(users: map<UserId, User>, userId: UserId, today: Day, env: EnvLimit)
    requires userId in users
    ensures var (r, users') := GateStep(users, userId, today, env);
      var u := users[userId];
      var sameDay := u.lastMessageDate == Some(today);
      && users'.Keys == users.Keys
      && (forall v :: v in users && v != userId ==> users'[v] == users[v])
      && users'[userId].lastMessageDate == Some(today)
      && users'[userId].dailyMessageCount == (if sameDay then u.dailyMessageCount else 0)
      && (r == LimitReached <==> AtLeast(users'[userId].dailyMessageCount, GateLimit(env)))
      && (r == Admitted <==> !AtLeast(users'[userId].dailyMessageCount, GateLimit(env)))
  {
  }

  /** The gate never raises a counter: it keeps it or resets it to 0. */
  lemma GateNeverIncrements(users: map<UserId, User>, userId: UserId, today: Day, env: EnvLimit)
    ensures var users' := GateStep(users, userId, today, env).1;
      forall v :: v in users' ==>
        (v in users &&
         (users'[v].dailyMessageCount == users[v].dailyMessageCount || users'[v].dailyMessageCount == 0))
  {
  }

  /** On the day the user was last seen the gate writes nothing. */
  lemma SameDayUntouched(users: map<UserId, User>, userId: UserId, today: Day, env: EnvLimit)
    requires userId in users && users[userId].lastMessageDate == Some(today)
    ensures GateStep(users, userId, today, env).1 == users
  {
  }

  /** Running the gate twice on the same day is the same as running it once. */
  lemma GateIdempotent(users: map<UserId, User>, userId: UserId, today: Day, env: EnvLimit)
    ensures var (r1, users1) := GateStep(users, userId, today, env);
      GateStep(users1, userId, today, env) == (r1, users1)
  {
    var (r1, users1) := GateStep(users, userId, today, env);
    if userId in users {
      assert users1[userId].lastMessageDate == Some(today);
      assert users1[userId := users1[userId]] == users1;
    }
  }

  /** After a day rollover a known user is admitted under any positive limit. */
  lemma RolloverAdmits(users: map<UserId, User>, userId: UserId, today: Day, limit: real)
    requires userId in users && users[userId].lastMessageDate != Some(today)
    requires limit > 0.0
    ensures GateStep(users, userId, today, Numeric(Finite(limit))).0 == Admitted
  {
  }

  /** With `MESSAGE_LIMIT` unset (or not a number) the comparison is never true: nobody is rejected. */
  lemma UnsetLimitNeverRejects(users: map<UserId, User>, userId: UserId, today: Day, env: EnvLimit)
    requires GateLimit(env) == NaN
    ensures GateStep(users, userId, today, env).0 != LimitReached
  {
  }

  /** With `MESSAGE_LIMIT` set to the empty string the limit is 0: every known user is rejected. */
  lemma EmptyLimitRejectsAll(users: map<UserId, User>, userId: UserId, today: Day)
    requires userId in users && users[userId].dailyMessageCount >= 0
    ensures GateStep(users, userId, today, Empty).0 == LimitReached
  {
  }

  /** The only increment of the counter, made by the chat relay once a turn completes (`count || 0` plus 1). */
  function CountCompletion(u: User): User {
    u.(dailyMessageCount := u.dailyMessageCount + 1)
  }

  /**
    One request of a user on day `today`: the gate, then, when the gate admitted
    it and the engine's answer completed and was stored, the relay's increment.
  */
  function Request(u: User, today: Day, env: EnvLimit, completes: bool): User {
    var g := Rollover(u, today);
    if !AtLeast(g.dailyMessageCount, GateLimit(env)) && completes then CountCompletion(g) else g
  }

  /** A day of requests, in order; `completes[i]` says whether request i's stream would complete. */
  function RunDay(u: User, today: Day, env: EnvLimit, completes: seq<bool>): User
    decreases |completes|
  {
    if completes == [] then u
    else RunDay(Request(u, today, env, completes[0]), today, env, completes[1..])
  }

  /**
    The quota holds over a whole day: starting from a user not yet seen today,
    after any sequence of requests the counter is dated today, is never negative,
    and every completion it counts was admitted below the limit, so it exceeds
    the limit by at most the one turn that reached it.
  */
  lemma {:induction false} DailyCompletionsBounded(u: User, today: Day, limit: real, completes: seq<bool>)
    requires |completes| > 0 && u.lastMessageDate != Some(today)
    ensures var r := RunDay(u, today, Numeric(Finite(limit)), completes);
      && r.lastMessageDate == Some(today)
      && r.dailyMessageCount >= 0
      && (r.dailyMessageCount == 0 || (r.dailyMessageCount - 1) as real < limit)
  {
    var env := Numeric(Finite(limit));
    var u1 := Request(u, today, env, completes[0]);
    assert u1.lastMessageDate == Some(today);
    assert u1.dailyMessageCount == 0 || (u1.dailyMessageCount - 1) as real < limit;
    SameDayBounded(u1, today, limit, completes[1..]);
  }

  lemma {:induction false} SameDayBounded(u: User, today: Day, limit: real, completes: seq<bool>)
    requires u.lastMessageDate == Some(today) && u.dailyMessageCount >= 0
    requires u.dailyMessageCount == 0 || (u.dailyMessageCount - 1) as real < limit
    ensures var r := RunDay(u, today, Numeric(Finite(limit)), completes);
      && r.lastMessageDate == Some(today)
      && r.dailyMessageCount >= 0
      && (r.dailyMessageCount == 0 || (r.dailyMessageCount - 1) as real < limit)
    decreases |completes|
  {
    if completes != [] {
      var u1 := Request(u, today, Numeric(Finite(limit)), completes[0]);
      SameDayBounded(u1, today, limit, completes[1..]);
    }
  }

  /** Worked example: at 5 of 5 on the same day the gate rejects; on the next day it resets to 0 and admits. */
  lemma LimitThenRollover(users: map<UserId, User>, userId: UserId, today: Day)
    requires userId in users && users[userId] == User(5, Some(today))
    ensures GateStep(users, userId, today, Numeric(Finite(5.0))).0 == LimitReached
    ensures var (r, users') := GateStep(users, userId, today + 1, Numeric(Finite(5.0)));
      r == Admitted && users'[userId] == User(0, Some(today + 1))
  {
  }
}
