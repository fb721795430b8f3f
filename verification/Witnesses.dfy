/** Runs from the empty store that show where a promise ends. */
module Witnesses {
  import opened Wrappers
  import opened Rows
  import opened Tables
  import opened Protocol
  import opened Always
  import opened Theorems
  import Lease

  const REQUEST := Request("a", "src", "{}", 0, "", "", 1, None)

  /** The configuration runs the event's action, with the variables `VarsOf`. */
  ghost predicate Runs(c: Config) {
    c.RoundTrips() && c.extract("a", "{}").Passed?
  }

  function VarsOf(c: Config): Vars
    requires c.extract("a", "{}").Passed?
  {
    c.extract("a", "{}").vars
  }

  /** The only event, held until `until` (in milliseconds), with its only action's row. */
  function HeldEvent(text: string, next: Option<int>, until: int): Event {
    REQUEST.NewEvent().(status := EventStatus.Processing, vars := text, next := next, leaseUntil := Some(until), owner := Some("o"))
  }

  function Solo(ev: Event, acts: seq<Action>, clock: int, passes: map<Worker, Pass>): Sys {
    Sys(DB(map["a" := Row(ev, acts)], map[]), clock, true, passes, map["a" := "{}"])
  }

  /** A pass just after its claim at time `t`. */
  function Fresh(anchor: int, text: string, t: int): Pass {
    Pass("a", anchor, 1, text, "{}", t, t, map[], [], 0, 0, NOTHING_READ, 0, Claimed)
  }

  lemma AcceptIsReached(c: Config)
    ensures TimelyReached(c, Init(0), Solo(REQUEST.NewEvent(), [], 0, map[]))
  {
    var s1 := Init(0).(up := true);
    assert RecoverDb(DB(map[], map[])) == DB(map[], map[]);
    TimelyStep(c, Init(0), Init(0), Recover, s1);
    TimelyStep(c, Init(0), s1, Accept(REQUEST), Solo(REQUEST.NewEvent(), [], 0, map[]));
  }

  /** The first pass, claimed at the epoch with the given end of its lease, has listed the action's row. */
  function FirstListed(c: Config, until: int): Sys
    requires c.extract("a", "{}").Passed?
  {
    Solo(HeldEvent(c.encode(VarsOf(c)), Some(0), until), [FreshAction(0)], 0,
         map[0 := Fresh(0, "", 0).(vars := VarsOf(c), states := [FreshAction(0)], phase := Walking)])
  }

  function FirstClaim(until: int): Sys {
    Solo(HeldEvent("", Some(0), until), [], 0, map[0 := Fresh(0, "", 0)])
  }

  lemma FirstClaimIsReached(c: Config, lease: int, until: int)
    requires until == Ms(EffectiveLease(lease))
    ensures TimelyReached(c, Init(0), FirstClaim(until))
  {
    AcceptIsReached(c);
    TimelyStep(c, Init(0), Solo(REQUEST.NewEvent(), [], 0, map[]), Claim(0, "a", lease, 0, "o"), FirstClaim(until));
  }

  lemma FirstListedIsReached(c: Config, lease: int, until: int)
    requires Runs(c) && until == Ms(EffectiveLease(lease))
    ensures TimelyReached(c, Init(0), FirstListed(c, until))
  {
    FirstClaimIsReached(c, lease, until);
    var v, s1 := VarsOf(c), FirstClaim(until);
    assert PreparedActs([], 1, 0) == [FreshAction(0)];
    var s2 := Solo(HeldEvent(c.encode(v), Some(0), until), [FreshAction(0)], 0, map[0 := Fresh(0, "", 0).(vars := v, phase := Prepared)]);
    TimelyStep(c, Init(0), s1, Prepare(0, v, false, 0), s2);
    TimelyStep(c, Init(0), s2, List(0), FirstListed(c, until));
  }

  /** The first attempt is at the handler. */
  function FirstStarted(c: Config, until: int): Sys
    requires c.extract("a", "{}").Passed?
  {
    var a := FreshAction(0);
    FirstListed(c, until).(db := DB(map["a" := Row(HeldEvent(c.encode(VarsOf(c)), Some(0), until), [Started(a)])], map[]),
                           passes := map[0 := FirstListed(c, until).passes[0].(attempt := 1, phase := InFlight)])
  }

  lemma FirstStartedIsReached(c: Config, lease: int, until: int)
    requires Runs(c) && c.maxAge > 0 && until == Ms(EffectiveLease(lease))
    ensures TimelyReached(c, Init(0), FirstStarted(c, until))
  {
    FirstListedIsReached(c, lease, until);
    assert [FreshAction(0)][0 := Started(FreshAction(0))] == [Started(FreshAction(0))];
    TimelyStep(c, Init(0), FirstListed(c, until), Start(0, 0), FirstStarted(c, until));
  }

  // ---- a running action that survives startup recovery ----

  /** The shortest lease that the queue takes, and a time just past its end. */
  const LEASE := Lease.SHORTEST_LEASE
  const LATER := LEASE + NS_PER_MS

  const FAILED := Action(ActionStatus.Dead, 1, None, Some("no"), None, Some(0))

  /** Worker 0 has read the totals of its one dead action, and is about to write them. */
  function Reader(c: Config): Pass
    requires c.extract("a", "{}").Passed?
  {
    Fresh(0, "", 0).(vars := VarsOf(c), states := [FreshAction(0)], index := 1, attempt := 1, read := TotalsOf([FAILED]), phase := Folding)
  }

  function Read0(c: Config, clock: int): Sys
    requires c.extract("a", "{}").Passed?
  {
    Solo(HeldEvent(c.encode(VarsOf(c)), Some(0), Ms(LEASE)), [FAILED], clock, map[0 := Reader(c)])
  }

  lemma ReadIsReached(c: Config)
    requires Runs(c) && c.maxAge > 0
    ensures TimelyReached(c, Init(0), Read0(c, 0))
  {
    FirstStartedIsReached(c, LEASE, Ms(LEASE));
    var s := FirstStarted(c, Ms(LEASE));
    var s1 := Read0(c, 0).(passes := map[0 := s.passes[0].(index := 1, phase := Walking)]);
    assert [Started(FreshAction(0))][0 := FAILED] == [FAILED];
    TimelyStep(c, Init(0), s, Finish(0, Permanent("no"), 0, 0), s1);
    TimelyStep(c, Init(0), s1, Scan(0, 0), Read0(c, 0));
  }

  /** The lease has passed, and worker 1 holds the event with the given columns, row and pass. */
  function Second(c: Config, ev: Event, a: Action, p: Pass): Sys
    requires c.extract("a", "{}").Passed?
  {
    Solo(ev, [a], LATER, map[0 := Reader(c), 1 := p])
  }

  function SecondEvent(c: Config): Event
    requires c.extract("a", "{}").Passed?
  {
    HeldEvent(c.encode(VarsOf(c)), Some(0), Ms(LATER + LEASE))
  }

  function SecondPass(c: Config, states: seq<Action>, phase: Phase): Pass
    requires c.extract("a", "{}").Passed?
  {
    Fresh(0, c.encode(VarsOf(c)), LATER).(vars := VarsOf(c), states := states, phase := phase)
  }

  lemma SecondClaimIsReached(c: Config)
    requires Runs(c) && c.maxAge > 0
    ensures Reached(c, Init(0), Second(c, SecondEvent(c), FAILED, Fresh(0, c.encode(VarsOf(c)), LATER)))
  {
    ReadIsReached(c);
    TimelyIsReached(c, Init(0), Read0(c, 0));
    ReachedStep(c, Init(0), Read0(c, 0), Tick(LATER), Read0(c, LATER));
    assert RollbackAll([FAILED]) == [FAILED];
    var s := Second(c, SecondEvent(c), FAILED, Fresh(0, c.encode(VarsOf(c)), LATER));
    ReachedStep(c, Init(0), Read0(c, LATER), Claim(1, "a", LEASE, LATER, "o"), s);
  }

  lemma SecondIsReached(c: Config)
    requires Runs(c) && c.maxAge > 0
    ensures Reached(c, Init(0), Second(c, SecondEvent(c), FAILED, SecondPass(c, [], Prepared)))
  {
    SecondClaimIsReached(c);
    assert PreparedActs([FAILED], 1, LATER) == [FAILED];
    var s := Second(c, SecondEvent(c), FAILED, Fresh(0, c.encode(VarsOf(c)), LATER));
    ReachedStep(c, Init(0), s, Prepare(1, VarsOf(c), false, LATER), Second(c, SecondEvent(c), FAILED, SecondPass(c, [], Prepared)));
  }

  function SecondReader(c: Config): Pass
    requires c.extract("a", "{}").Passed?
  {
    SecondPass(c, [FAILED], Folding).(index := 1, read := TotalsOf([FAILED]), end := LATER)
  }

  lemma SecondReadIsReached(c: Config)
    requires Runs(c) && c.maxAge > 0
    ensures Reached(c, Init(0), Second(c, SecondEvent(c), FAILED, SecondReader(c)))
  {
    SecondIsReached(c);
    var s0 := Second(c, SecondEvent(c), FAILED, SecondPass(c, [], Prepared));
    var s1 := Second(c, SecondEvent(c), FAILED, SecondPass(c, [FAILED], Walking));
    ReachedStep(c, Init(0), s0, List(1), s1);
    var s2 := Second(c, SecondEvent(c), FAILED, SecondPass(c, [FAILED], Walking).(index := 1));
    ReachedStep(c, Init(0), s1, Over(1, LATER), s2);
    ReachedStep(c, Init(0), s2, Scan(1, LATER), Second(c, SecondEvent(c), FAILED, SecondReader(c)));
  }

  /** The event is dead, and then replayed; worker 0 is still there. */
  function DeadEvent(c: Config): Event
    requires c.extract("a", "{}").Passed?
  {
    SecondEvent(c).(status := EventStatus.Dead, processed := Some(Ms(LATER)), next := None, leaseUntil := None, owner := None)
  }

  function ReplayedEvent(c: Config): Event
    requires c.extract("a", "{}").Passed?
  {
    DeadEvent(c).(status := EventStatus.Pending, processed := None, next := Some(Ms(LATER)), generation := 1,
                  replayed := Some(Ms(LATER)), reason := Some("again"))
  }

  const REVIVED := Action(ActionStatus.Pending, 0, Some(Ms(LATER)), None, None, None)

  lemma ReplayIsReached(c: Config)
    requires Runs(c) && c.maxAge > 0
    ensures Reached(c, Init(0), Solo(ReplayedEvent(c), [REVIVED], LATER, map[0 := Reader(c)]))
  {
    SecondReadIsReached(c);
    var s1 := Solo(DeadEvent(c), [FAILED], LATER, map[0 := Reader(c)]);
    VerdictMeaning([FAILED]);
    assert Verdict(TotalsOf([FAILED])).Dead?;
    ReachedStep(c, Init(0), Second(c, SecondEvent(c), FAILED, SecondReader(c)), Refresh(1), s1);
    assert ReviveAll([FAILED], LATER) == [REVIVED];
    ReachedStep(c, Init(0), s1, Replay("a", "again", LATER), Solo(ReplayedEvent(c), [REVIVED], LATER, map[0 := Reader(c)]));
  }

  function ThirdEvent(c: Config): Event
    requires c.extract("a", "{}").Passed?
  {
    ReplayedEvent(c).(status := EventStatus.Processing, leaseUntil := Some(Ms(LATER + LEASE)), owner := Some("o"))
  }

  function ThirdPass(c: Config, states: seq<Action>, attempt: nat, phase: Phase): Pass
    requires c.extract("a", "{}").Passed?
  {
    Fresh(Ms(LATER), c.encode(VarsOf(c)), LATER).(vars := VarsOf(c), states := states, attempt := attempt, phase := phase)
  }

  lemma ThirdClaimIsReached(c: Config)
    requires Runs(c) && c.maxAge > 0
    ensures Reached(c, Init(0), Second(c, ThirdEvent(c), REVIVED, Fresh(Ms(LATER), c.encode(VarsOf(c)), LATER)))
  {
    ReplayIsReached(c);
    assert RollbackAll([REVIVED]) == [REVIVED];
    var s := Second(c, ThirdEvent(c), REVIVED, Fresh(Ms(LATER), c.encode(VarsOf(c)), LATER));
    ReachedStep(c, Init(0), Solo(ReplayedEvent(c), [REVIVED], LATER, map[0 := Reader(c)]), Claim(1, "a", LEASE, LATER, "o"), s);
  }

  lemma ThirdIsReached(c: Config)
    requires Runs(c) && c.maxAge > 0
    ensures Reached(c, Init(0), Second(c, ThirdEvent(c), REVIVED, ThirdPass(c, [], 0, Prepared)))
  {
    ThirdClaimIsReached(c);
    assert PreparedActs([REVIVED], 1, LATER) == [REVIVED];
    var s := Second(c, ThirdEvent(c), REVIVED, Fresh(Ms(LATER), c.encode(VarsOf(c)), LATER));
    ReachedStep(c, Init(0), s, Prepare(1, VarsOf(c), false, LATER), Second(c, ThirdEvent(c), REVIVED, ThirdPass(c, [], 0, Prepared)));
  }

  function Restarted(c: Config): Sys
    requires c.extract("a", "{}").Passed?
  {
    Second(c, ThirdEvent(c), Started(REVIVED), ThirdPass(c, [REVIVED], 1, InFlight))
  }

  lemma RestartedIsReached(c: Config)
    requires Runs(c) && c.maxAge > 0
    ensures Reached(c, Init(0), Restarted(c))
  {
    ThirdIsReached(c);
    var s0 := Second(c, ThirdEvent(c), REVIVED, ThirdPass(c, [], 0, Prepared));
    var s1 := Second(c, ThirdEvent(c), REVIVED, ThirdPass(c, [REVIVED], 0, Walking));
    ReachedStep(c, Init(0), s0, List(1), s1);
    assert [REVIVED][0 := Started(REVIVED)] == [Started(REVIVED)];
    ReachedStep(c, Init(0), s1, Start(1, LATER), Restarted(c));
  }

  /**
    A stale fold can leave a running action under a terminal event. Worker 0 reads that all is dead and stalls past its
    lease of five minutes; worker 1 folds the event, it is replayed, and worker 1 starts the action again; then worker 0
    writes what it read. The running action survives a crash and the next startup recovery.
   */
  lemma RunningCanOutliveRecovery(c: Config) returns (s: Sys)
    requires Runs(c) && c.maxAge > 0
    ensures Reached(c, Init(0), s)
    ensures var s2 := Do(c, Do(c, s, Crash), Recover);
            "a" in s2.db.rows && s2.db.rows["a"].ev.status.Dead? && IsRunning(s2, "a", 0)
  {
    RestartedIsReached(c);
    VerdictMeaning([FAILED]);
    assert Verdict(TotalsOf([FAILED])).Dead?;
    s := Do(c, Restarted(c), Refresh(0));
    ReachedStep(c, Init(0), Restarted(c), Refresh(0), s);
    RestartKeepsTerminal(c, s, "a");
  }

  lemma RestartKeepsTerminal(c: Config, s: Sys, id: Id)
    requires id in s.db.rows && s.db.rows[id].ev.status.Terminal()
    ensures var s2 := Do(c, Do(c, s, Crash), Recover);
            id in s2.db.rows && s2.db.rows[id] == s.db.rows[id]
  {
    RecoveryClears(s.db, id, 0);
  }

  // ---- a Retry-After that is shortened ----

  const SECOND := 1_000 * NS_PER_MS

  /** The answer asks for one second; it is decided 500 ns after the epoch, so the wait ends at 1 s and 500 ns. */
  const ASKED := Transient("busy", SECOND, 0)
  const DECIDED := 500

  const WAITING := Action(ActionStatus.Retrying, 1, Some(1_000), Some("busy"), Some(1_000), None)

  /** The end, in milliseconds, of a default lease taken at second `t`. */
  function LeaseEnd(t: int): int {
    1_000 * t + 120_000
  }

  function Answered(c: Config): Sys
    requires c.extract("a", "{}").Passed?
  {
    FirstStarted(c, LeaseEnd(0)).(clock := DECIDED)
  }

  lemma AnswerIsReached(c: Config)
    requires Runs(c) && c.maxAge > 0
    ensures TimelyReached(c, Init(0), Answered(c))
  {
    FirstStartedIsReached(c, 0, LeaseEnd(0));
    TimelyStep(c, Init(0), FirstStarted(c, LeaseEnd(0)), Tick(DECIDED), Answered(c));
  }

  /** The retry is stored: due at 1000 ms. */
  function Stored(c: Config): Sys
    requires c.extract("a", "{}").Passed?
  {
    Solo(HeldEvent(c.encode(VarsOf(c)), Some(0), LeaseEnd(0)), [WAITING], DECIDED,
         map[0 := Answered(c).passes[0].(seen := DECIDED, index := 1, phase := Walking)])
  }

  lemma AnswerIsStored(c: Config)
    requires Runs(c) && c.maxAge > SECOND + DECIDED && c.maxRetries >= 1 && c.retryBase >= 0 && c.maxDelay >= 0
    ensures Enabled(c, Answered(c), Finish(0, ASKED, DECIDED, DECIDED))
    ensures Do(c, Answered(c), Finish(0, ASKED, DECIDED, DECIDED)) == Stored(c)
  {
    AnswerIsEnabled(c);
    assert [Started(FreshAction(0))][0 := WAITING] == [WAITING];
  }

  lemma AnswerIsEnabled(c: Config)
    requires Runs(c) && c.retryBase >= 0 && c.maxDelay >= 0
    ensures Enabled(c, Answered(c), Finish(0, ASKED, DECIDED, DECIDED))
  {
  }

  /** Until 1 s sharp the event waits; then it is claimed again. */
  function Waiting(c: Config, clock: int): Sys
    requires c.extract("a", "{}").Passed?
  {
    Solo(HeldEvent(c.encode(VarsOf(c)), Some(1_000), 0).(status := EventStatus.Retrying, leaseUntil := None, owner := None),
         [WAITING], clock, map[])
  }

  function ClaimedAgain(c: Config, vars: Vars, states: seq<Action>, phase: Phase): Sys
    requires c.extract("a", "{}").Passed?
  {
    Solo(HeldEvent(c.encode(VarsOf(c)), Some(1_000), LeaseEnd(1)), [WAITING], SECOND,
         map[0 := Fresh(0, c.encode(VarsOf(c)), SECOND).(vars := vars, states := states, phase := phase)])
  }

  /** The pass that stored the retry has read its totals. */
  function Summed(c: Config): Sys
    requires c.extract("a", "{}").Passed?
  {
    Stored(c).(passes := map[0 := Stored(c).passes[0].(read := TotalsOf([WAITING]), end := DECIDED, phase := Folding)])
  }

  lemma SumIsReached(c: Config)
    requires Runs(c)
    ensures TimelyReached(c, Stored(c), Summed(c))
  {
    TimelyStep(c, Stored(c), Stored(c), Scan(0, DECIDED), Summed(c));
  }

  lemma WaitIsReached(c: Config)
    requires Runs(c)
    ensures TimelyReached(c, Stored(c), Waiting(c, SECOND))
  {
    SumIsReached(c);
    WaitTotals();
    TimelyStep(c, Stored(c), Summed(c), Refresh(0), Waiting(c, DECIDED));
    TimelyStep(c, Stored(c), Waiting(c, DECIDED), Tick(SECOND), Waiting(c, SECOND));
  }

  lemma WaitTotals()
    ensures Verdict(TotalsOf([WAITING])).Retrying? && TotalsOf([WAITING]).next == Some(1_000)
  {
    VerdictMeaning([WAITING]);
    assert MinDue([WAITING][1..]) == None;
  }

  lemma ClaimIsReached(c: Config)
    requires Runs(c)
    ensures TimelyReached(c, Stored(c), ClaimedAgain(c, map[], [], Claimed))
  {
    WaitIsReached(c);
    assert RollbackAll([WAITING]) == [WAITING];
    TimelyStep(c, Stored(c), Waiting(c, SECOND), Claim(0, "a", 0, SECOND, "o"), ClaimedAgain(c, map[], [], Claimed));
  }

  lemma PrepareIsReached(c: Config)
    requires Runs(c)
    ensures TimelyReached(c, Stored(c), ClaimedAgain(c, VarsOf(c), [], Prepared))
  {
    ClaimIsReached(c);
    assert PreparedActs([WAITING], 1, SECOND) == [WAITING];
    TimelyStep(c, Stored(c), ClaimedAgain(c, map[], [], Claimed), Prepare(0, VarsOf(c), false, SECOND),
               ClaimedAgain(c, VarsOf(c), [], Prepared));
  }

  lemma ListingIsReached(c: Config)
    requires Runs(c)
    ensures TimelyReached(c, Stored(c), ClaimedAgain(c, VarsOf(c), [WAITING], Walking))
  {
    PrepareIsReached(c);
    TimelyStep(c, Stored(c), ClaimedAgain(c, VarsOf(c), [], Prepared), List(0), ClaimedAgain(c, VarsOf(c), [WAITING], Walking));
  }

  /**
    A run from the empty store, with all leases current: an answer decided at 500 ns asks for one second, and the next
    attempt starts at one second sharp, 500 ns early.
   */
  lemma RetryAfterCanBeShortened(c: Config) returns (s: Sys, s': Sys)
    requires Runs(c) && c.maxAge > SECOND + DECIDED && c.maxRetries >= 1 && c.retryBase >= 0 && c.maxDelay >= 0
    ensures TimelyReached(c, Init(0), s) && Enabled(c, s, Finish(0, ASKED, DECIDED, DECIDED))
    ensures TimelyReached(c, Do(c, s, Finish(0, ASKED, DECIDED, DECIDED)), s') && Enabled(c, s', Start(0, SECOND))
    ensures s.passes[0].id == s'.passes[0].id && s.passes[0].index == s'.passes[0].index
    ensures SECOND < DECIDED + ASKED.retryAfter
  {
    s, s' := Answered(c), ClaimedAgain(c, VarsOf(c), [WAITING], Walking);
    AnswerIsReached(c);
    AnswerIsStored(c);
    ListingIsReached(c);
    StartIsEnabled(c);
  }

  lemma StartIsEnabled(c: Config)
    requires Runs(c) && c.maxAge > SECOND + DECIDED
    ensures Enabled(c, ClaimedAgain(c, VarsOf(c), [WAITING], Walking), Start(0, SECOND))
  {
  }
}
