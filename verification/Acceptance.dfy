/** Acceptance of signed requests: the body guard, the timestamp window, and the delivery index together. */
module Acceptance {
  import opened Wrappers
  import opened Rows
  import opened Tables
  import opened Protocol
  import opened Effects
  import opened Always

  const NS_PER_SECOND := 1_000_000_000
  const REPLAY_SKEW := 300 * NS_PER_SECOND
  const REPLAY_TTL := 600 * NS_PER_SECOND

  /**
    A guarded save as the webhook endpoint issues it: the guard lasts REPLAY_TTL from the request's own clock, and a
    delivery id is mandatory.
   */
  predicate Signed(req: Request) {
    req.Guarded() && req.guardUntil == Some(req.at + REPLAY_TTL) && req.delivery != ""
  }

  /** validateReplayHeaders, on a timestamp already parsed as whole seconds. */
  predicate InWindow(stamp: int, now: int) {
    !(stamp * NS_PER_SECOND < now - REPLAY_SKEW) && !(stamp * NS_PER_SECOND > now + REPLAY_SKEW)
  }

  /** The window is five minutes to either side, ends included. */
  lemma WindowIsSymmetric(stamp: int, now: int)
    ensures InWindow(stamp, now) <==> -300_000_000_000 <= now - stamp * 1_000_000_000 <= 300_000_000_000
  {
  }

  // ---- the guard over runs ----

  /** The body is still guarded until `until`, or the clock `t` has reached it. */
  predicate Held(db: DB, key: GuardKey, until: int, t: int) {
    (key in db.guards && db.guards[key] >= until) || until <= t
  }

  /** The clock by which the step may drop an expired guard of this body. */
  function GuardClock(step: Step, key: GuardKey): Option<int> {
    match step
    case Accept(req) => if req.Guarded() && req.Key() == key then Some(Ms(req.at)) else None
    case Purge(cutoff, now) => Some(Ms(now))
    case _ => None
  }

  lemma HeldStep(c: Config, s: Sys, step: Step, key: GuardKey, until: int, t: int)
    requires Enabled(c, s, step) && Held(s.db, key, until, t) && (GuardClock(step, key).Some? ==> GuardClock(step, key).value <= t)
    ensures Held(Do(c, s, step).db, key, until, t)
  {
    match step
    case Accept(req) =>
    case Purge(cutoff, now) =>
    case _ => assert Do(c, s, step).db.guards == s.db.guards;
  }

  /** Every clock by which the run may have dropped this guard is at most `t`. */
  predicate ClocksUpTo(steps: seq<Step>, key: GuardKey, t: int) {
    forall k :: 0 <= k < |steps| && GuardClock(steps[k], key).Some? ==> GuardClock(steps[k], key).value <= t
  }

  lemma {:induction false} HeldRun(c: Config, s: Sys, steps: seq<Step>, key: GuardKey, until: int, t: int)
    requires Legal(c, s, steps) && Held(s.db, key, until, t) && ClocksUpTo(steps, key, t)
    ensures Held(Exec(c, s, steps).db, key, until, t)
    decreases |steps|
  {
    if steps != [] {
      HeldStep(c, s, steps[0], key, until, t);
      assert forall k :: 0 <= k < |steps[1..]| ==> steps[1..][k] == steps[k + 1];
      HeldRun(c, Do(c, s, steps[0]), steps[1..], key, until, t);
    }
  }

  lemma {:induction false} ClocksBoundedByEnd(c: Config, s: Sys, steps: seq<Step>, key: GuardKey)
    requires Legal(c, s, steps)
    ensures s.clock <= Exec(c, s, steps).clock && ClocksUpTo(steps, key, Ms(Exec(c, s, steps).clock))
    decreases |steps|
  {
    if steps != [] {
      ClocksBoundedByEnd(c, Do(c, s, steps[0]), steps[1..], key);
      assert s.clock <= Do(c, s, steps[0]).clock;
      assert forall k :: 1 <= k < |steps| ==> steps[k] == steps[1..][k - 1];
    }
  }

  /** `first` is saved in `s`, the run goes on with `steps`, and then `second`, for the same body, is saved too. */
  predicate AcceptedTwice(c: Config, s: Sys, first: Request, steps: seq<Step>, second: Request) {
    && Enabled(c, s, Accept(first)) && SaveOutcome(s.db, first).Saved? && Signed(first)
    && Legal(c, Do(c, s, Accept(first)), steps)
    && var end := Exec(c, Do(c, s, Accept(first)), steps);
    && Enabled(c, end, Accept(second)) && SaveOutcome(end.db, second).Saved? && Signed(second)
    && second.Key() == first.Key()
  }

  /** The state in which the second request commits. */
  function Between(c: Config, s: Sys, first: Request, steps: seq<Step>): Sys
    requires Enabled(c, s, Accept(first)) && Legal(c, Do(c, s, Accept(first)), steps)
  {
    Exec(c, Do(c, s, Accept(first)), steps)
  }

  /**
    The second of two guarded accepts of one body commits at least the TTL after the first one's clock, whatever the
    interleaving, crashes and purges; from commit to commit the time the first request took is lost.
   */
  lemma AcceptsAreTtlApart(c: Config, s: Sys, first: Request, steps: seq<Step>, second: Request)
    requires AcceptedTwice(c, s, first, steps, second)
    ensures Ms(Between(c, s, first, steps).clock) >= Ms(first.at) + Ms(REPLAY_TTL)
    ensures Ms(Between(c, s, first, steps).clock) - Ms(s.clock) >= Ms(REPLAY_TTL) - (Ms(s.clock) - Ms(first.at))
  {
    var s1 := Do(c, s, Accept(first));
    var end := Exec(c, s1, steps);
    ClocksBoundedByEnd(c, s1, steps, first.Key());
    HeldRun(c, s1, steps, first.Key(), Ms(first.at + REPLAY_TTL), Ms(end.clock));
  }

  const SLOW := 100 * NS_PER_SECOND
  const SLOW_FIRST := Request("a", "src", "{}", 0, "d1", "h", 1, Some(REPLAY_TTL))
  const SLOW_SECOND := Request("b", "src", "{}", REPLAY_TTL, "e2", "h", 1, Some(REPLAY_TTL + REPLAY_TTL))

  /** That loss is real and the bound is attained: a first request that takes 100 s leaves commits 500 s apart. */
  lemma CommitsCanBeCloser(c: Config)
    ensures AcceptedTwice(c, Init(SLOW).(up := true), SLOW_FIRST, [Tick(REPLAY_TTL)], SLOW_SECOND)
    ensures Ms(Between(c, Init(SLOW).(up := true), SLOW_FIRST, [Tick(REPLAY_TTL)]).clock) - Ms(SLOW)
            == Ms(REPLAY_TTL) - (Ms(SLOW) - Ms(SLOW_FIRST.at)) < Ms(REPLAY_TTL)
  {
    var s1 := Do(c, Init(SLOW).(up := true), Accept(SLOW_FIRST));
    var s2 := Do(c, s1, Tick(REPLAY_TTL));
    assert [Tick(REPLAY_TTL)][1..] == [];
    assert Legal(c, s2, []) && Exec(c, s2, []) == s2;
    assert "a"[0] != "b"[0];
  }

  // ---- the requests' own clocks ----

  /** The end of a guard taken by this request, as stored. */
  function Until(first: Request): int {
    Ms(first.at) + Ms(REPLAY_TTL)
  }

  /** The stored guard no longer speaks for `first`: it is gone, or an older one has taken its place and run out. */
  predicate Lapsed(s: Sys, first: Request) {
    first.Key() !in s.db.guards
    || (s.db.guards[first.Key()] < Until(first) && s.db.guards[first.Key()] <= Ms(s.clock))
  }

  /** In state `s` this second request for the same body, with a clock closer than the TTL to the first's, is saved. */
  predicate SavedTooClose(c: Config, s: Sys, first: Request, second: Request) {
    && Enabled(c, s, Accept(second)) && SaveOutcome(s.db, second).Saved? && Signed(second)
    && second.Key() == first.Key() && Ms(second.at) < Until(first)
  }

  function Letters(n: nat): string {
    if n == 0 then "" else "a" + Letters(n - 1)
  }

  ghost function MaxLength(ids: set<Id>): (n: nat)
    ensures forall id :: id in ids ==> |id| <= n
  {
    if ids == {} then 0
    else
      var id :| id in ids;
      var n := MaxLength(ids - {id});
      assert ids == (ids - {id}) + {id};
      if |id| > n then |id| else n
  }

  lemma {:induction false} LettersLength(n: nat)
    ensures |Letters(n)| == n
  {
    if n > 0 {
      LettersLength(n - 1);
    }
  }

  function Deliveries(s: Sys): set<string> {
    set id | id in s.db.rows :: s.db.rows[id].ev.delivery
  }

  /** A guarded request for the body of `first`, with new ids and the latest clock that is still too close. */
  ghost function Closest(s: Sys, first: Request): Request {
    var at := if s.clock < Until(first) * NS_PER_MS then s.clock else Until(first) * NS_PER_MS - 1;
    Request(Letters(MaxLength(s.issued.Keys + s.db.rows.Keys) + 1), first.source, "{}", at,
            Letters(MaxLength(Deliveries(s)) + 1), first.bodyHash, 1, Some(at + REPLAY_TTL))
  }

  /**
    After any run, a request whose clock is closer than the TTL to that of an accepted one can be accepted exactly when
    the service is up and the stored guard row has lapsed. Callers can read that row.
   */
  lemma CloserAcceptIsPossible(c: Config, s: Sys, first: Request)
    requires Signed(first)
    ensures (exists second :: SavedTooClose(c, s, first, second)) <==> s.up && Lapsed(s, first)
  {
    if second :| SavedTooClose(c, s, first, second) {
      assert Ms(second.at) <= Ms(s.clock);
    }
    if s.up && Lapsed(s, first) {
      var second := Closest(s, first);
      LettersLength(MaxLength(s.issued.Keys + s.db.rows.Keys) + 1);
      LettersLength(MaxLength(Deliveries(s)) + 1);
      assert second.id !in s.issued && second.id !in s.db.rows && second.delivery !in Deliveries(s);
      assert Ms(second.at) == if Ms(s.clock) < Until(first) then Ms(s.clock) else Until(first) - 1;
      assert SavedTooClose(c, s, first, second);
    }
  }

  /** So the requests' own clocks are the TTL apart whenever the first one's guard stands when the second is saved. */
  lemma StampsAreTtlApart(c: Config, s: Sys, first: Request, steps: seq<Step>, second: Request)
    requires AcceptedTwice(c, s, first, steps, second) && !Lapsed(Between(c, s, first, steps), first)
    ensures Ms(second.at) >= Ms(first.at) + Ms(REPLAY_TTL)
  {
    var end := Between(c, s, first, steps);
    CloserAcceptIsPossible(c, end, first);
    assert !SavedTooClose(c, end, first, second);
  }

  /**
    They are so too if no purge, and no other save of the body, has been served meanwhile with a clock ahead of the
    second request's.
   */
  lemma InOrderStampsAreTtlApart(c: Config, s: Sys, first: Request, steps: seq<Step>, second: Request)
    requires AcceptedTwice(c, s, first, steps, second) && ClocksUpTo(steps, first.Key(), Ms(second.at))
    ensures Ms(second.at) >= Ms(first.at) + Ms(REPLAY_TTL)
  {
    HeldRun(c, Do(c, s, Accept(first)), steps, first.Key(), Until(first), Ms(second.at));
    if Ms(second.at) < Until(first) {
      StampsAreTtlApart(c, s, first, steps, second);
    }
  }

  const LATE := REPLAY_TTL - NS_PER_MS
  const STALE_FIRST := Request("a", "src", "{}", 0, "d1", "h", 1, Some(REPLAY_TTL))
  const STALE_SECOND := Request("b", "src", "{}", LATE, "e2", "h", 1, Some(LATE + REPLAY_TTL))
  const STALE_TICK := Tick(REPLAY_TTL + NS_PER_MS)
  const STALE_PURGE := Purge(-1, REPLAY_TTL + NS_PER_MS)

  const STALE_START := Init(0).(up := true)

  lemma StaleRun(c: Config)
    ensures Enabled(c, STALE_START, Accept(STALE_FIRST)) && SaveOutcome(STALE_START.db, STALE_FIRST).Saved?
    ensures var s1 := Do(c, STALE_START, Accept(STALE_FIRST));
            var s3 := Exec(c, s1, [STALE_TICK, STALE_PURGE]);
            && Legal(c, s1, [STALE_TICK, STALE_PURGE])
            && s3.up && s3.clock == REPLAY_TTL + NS_PER_MS && s3.db.guards == map[] && s3.issued == map["a" := "{}"]
            && s3.db.rows == map["a" := Row(STALE_FIRST.NewEvent(), [])]
  {
    var s1 := Do(c, STALE_START, Accept(STALE_FIRST));
    assert s1.db == DB(map["a" := Row(STALE_FIRST.NewEvent(), [])], map[STALE_FIRST.Key() := Ms(REPLAY_TTL)]);
    var s2 := Do(c, s1, STALE_TICK);
    var s3 := Do(c, s2, STALE_PURGE);
    assert s3.db.guards == map[] && s3.db.rows == s1.db.rows;
    assert [STALE_TICK, STALE_PURGE][1..] == [STALE_PURGE] && [STALE_PURGE][1..] == [];
    assert Legal(c, s3, []) && Exec(c, s3, []) == s3;
    assert Legal(c, s2, [STALE_PURGE]) && Exec(c, s2, [STALE_PURGE]) == s3;
  }

  /**
    A run in which the guard has lapsed: a request whose clock was read before a purge, but which commits after it, is
    accepted although its clock is one millisecond short of the TTL.
   */
  lemma StaleStampCanBeCloser(c: Config)
    ensures AcceptedTwice(c, STALE_START, STALE_FIRST, [STALE_TICK, STALE_PURGE], STALE_SECOND)
    ensures Ms(STALE_SECOND.at) < Ms(STALE_FIRST.at) + Ms(REPLAY_TTL)
  {
    StaleRun(c);
    assert "a"[0] != "b"[0] && "d1"[0] != "e2"[0];
  }

  // ---- the timestamp window against the TTL ----

  /**
    One timestamped body is inside the window at two instants at least the TTL apart exactly when the first lies in
    the opening millisecond and the second is the closing instant.
   */
  lemma WindowMeetsTtl(stamp: int, now1: int, now2: int)
    requires InWindow(stamp, now1) && InWindow(stamp, now2)
    ensures Ms(now2) >= Ms(now1) + Ms(REPLAY_TTL) <==>
            Ms(now1) == Ms(stamp * NS_PER_SECOND - REPLAY_SKEW) && now2 == stamp * NS_PER_SECOND + REPLAY_SKEW
  {
    assert Ms(stamp * NS_PER_SECOND - REPLAY_SKEW) == stamp * 1000 - 300_000;
    assert Ms(stamp * NS_PER_SECOND + REPLAY_SKEW) == stamp * 1000 + 300_000;
  }

  /** A captured request, with the delivery id of the first, is accepted again only after the first event was purged. */
  lemma CapturedRequestNeedsPurge(c: Config, s: Sys, first: Request, steps: seq<Step>, second: Request)
    requires Sound(s) && AcceptedTwice(c, s, first, steps, second) && first.delivery == second.delivery != ""
    ensures PurgedIn(c, Do(c, s, Accept(first)), steps, first.id)
  {
    var s1 := Do(c, s, Accept(first));
    SoundStep(c, s, Accept(first));
    if first.id in Exec(c, s1, steps).db.rows { IdentityIsKept(c, s1, steps, first.id); }
    NothingLost(c, s1, steps, first.id);
  }

  /**
    While the first one's guard stands, a captured request with the same timestamp can pass only at the window's
    closing instant, and only if the original came in the opening millisecond.
   */
  lemma CapturedRequestIsRejected(c: Config, s: Sys, first: Request, steps: seq<Step>, second: Request, stamp: int)
    requires AcceptedTwice(c, s, first, steps, second) && !Lapsed(Between(c, s, first, steps), first)
    requires InWindow(stamp, first.at) && InWindow(stamp, second.at)
    ensures second.at == stamp * NS_PER_SECOND + REPLAY_SKEW
    ensures Ms(first.at) == Ms(stamp * NS_PER_SECOND - REPLAY_SKEW)
  {
    StampsAreTtlApart(c, s, first, steps, second);
    WindowMeetsTtl(stamp, first.at, second.at);
  }
}
