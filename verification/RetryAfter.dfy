/**
  How exactly a requested delay is kept.

  The due time is stored rounded down to the millisecond, so a dispatch may come early by less than one millisecond.
  Whether it can is known when the retry is scheduled.
 */
module RetryAfter {
  import opened Wrappers
  import opened Rows
  import opened Protocol
  import opened Effects
  import opened Always
  import opened Exclusive
  import opened Theorems

  // ---- the rounding ----

  /** A dispatch that finds a stored delay due is less than a millisecond early. */
  lemma RoundingIsBelowOneMs(due: int, now: int)
    requires Ms(due) <= Ms(now)
    ensures now > due - NS_PER_MS
  {
  }

  /** However the run continues, the dispatch that ends a wait until `due` is less than a millisecond early. */
  lemma WaitIsHonoured(c: Config, s: Sys, steps: seq<Step>, k: nat, id: Id, i: nat, due: int)
    requires IsRetrying(s, id, i) && s.db.rows[id].acts[i].next == Some(Ms(due))
    requires Leaves(c, s, steps, k, id, i) && steps[k].Start?
    ensures steps[k].now > due - NS_PER_MS
  {
    StartIsDispatch(c, s, steps, k, id, i);
    RoundingIsBelowOneMs(due, steps[k].now);
  }

  lemma StartIsDispatch(c: Config, s: Sys, steps: seq<Step>, k: nat, id: Id, i: nat)
    requires IsRetrying(s, id, i) && Leaves(c, s, steps, k, id, i) && steps[k].Start?
    ensures Dispatches(Exec(c, s, steps[..k]), steps[k], id, i) && s.db.rows[id].acts[i].next.Or(0) <= Ms(steps[k].now)
  {
    EffectIsExact(c, Exec(c, s, steps[..k]), steps[k], id);
  }

  // ---- no pass is older than the commit that schedules the retry ----

  ghost predicate NoOlderPass(s: Sys, id: Id, t: int) {
    t <= s.clock && forall w :: w in s.passes && s.passes[w].Owns() && s.passes[w].id == id ==> t <= s.passes[w].seen
  }

  /** A step stamps every pass it changes with the clock; the other passes were there before. */
  lemma ChangedPassesAreStamped(s: Sys, c: Config, step: Step, w: Worker)
    requires Enabled(c, s, step) && w in Do(c, s, step).passes
    ensures Do(c, s, step).passes[w].seen == s.clock || (w in s.passes && Do(c, s, step).passes[w] == s.passes[w])
    ensures s.clock <= Do(c, s, step).clock
  {
  }

  lemma {:induction false} NoOlderPassRun(c: Config, s: Sys, steps: seq<Step>, id: Id, t: int)
    requires Legal(c, s, steps) && NoOlderPass(s, id, t)
    ensures NoOlderPass(Exec(c, s, steps), id, t)
    decreases |steps|
  {
    if steps != [] {
      var s' := Do(c, s, steps[0]);
      ClockNeverFalls(c, s, steps[0]);
      forall w | w in s'.passes && s'.passes[w].Owns() && s'.passes[w].id == id ensures t <= s'.passes[w].seen {
        ChangedPassesAreStamped(s, c, steps[0], w);
      }
      NoOlderPassRun(c, s', steps[1..], id, t);
    }
  }

  lemma ClockNeverFalls(c: Config, s: Sys, step: Step)
    requires Enabled(c, s, step)
    ensures s.clock <= Do(c, s, step).clock
  {
  }

  // ---- a run to an early dispatch ----

  /** At step `k` the waiting action, unchanged since `s`, is dispatched before `due`. */
  ghost predicate StartsEarly(c: Config, s: Sys, steps: seq<Step>, k: nat, id: Id, i: nat, due: int) {
    IsRetrying(s, id, i) && Leaves(c, s, steps, k, id, i) && steps[k].Start? && steps[k].now < due
  }

  ghost predicate CanStartEarly(c: Config, s: Sys, id: Id, i: nat, due: int) {
    exists steps, k: nat :: StartsEarly(c, s, steps, k, id, i, due)
  }

  /** Worker 0 alone is at work, on this event, with all leases current; action `i` still has the row `a`. */
  ghost predicate Alone(c: Config, s: Sys, id: Id, i: nat, a: Action, anchor: int) {
    && Safe(c, s) && Timely(s) && s.up && s.passes.Keys == {0} && s.passes[0].Owns() && s.passes[0].id == id
    && id in s.db.rows && i < |s.db.rows[id].acts| && s.db.rows[id].acts[i] == a && s.db.rows[id].ev.Anchor() == anchor
  }

  /** The steps inside the action loop. */
  predicate LoopStep(x: Step) {
    x.Over? || x.GiveUpOn? || x.Start? || x.Finish?
  }

  lemma LoopStepKeepsRow(r: Row, e: Effect, i: nat)
    requires Guard(r, e) && i < |r.acts| && (e.Keep? || ((e.Lapse? || e.Begin? || e.Conclude?) && e.i != i))
    ensures Apply(r, e).ev == r.ev && |Apply(r, e).acts| == |r.acts| && Apply(r, e).acts[i] == r.acts[i]
  {
  }

  lemma AloneStep(c: Config, s: Sys, x: Step, id: Id, i: nat, a: Action, anchor: int)
    requires c.RoundTrips() && Alone(c, s, id, i, a, anchor) && s.passes[0].index < i
    requires Enabled(c, s, x) && LoopStep(x) && Actor(x) == Some(0)
    ensures Alone(c, Do(c, s, x), id, i, a, anchor) && Do(c, s, x).clock == s.clock
  {
    SafeStep(c, s, x);
    LoopStepLeaves(c, s, x, id, i);
  }

  lemma LoopStepLeaves(c: Config, s: Sys, x: Step, id: Id, i: nat)
    requires Enabled(c, s, x) && LoopStep(x) && Actor(x) == Some(0) && s.passes[0].id == id && s.passes[0].index != i
    requires id in s.db.rows && i < |s.db.rows[id].acts|
    ensures var s' := Do(c, s, x);
            && s'.up == s.up && s'.clock == s.clock && s'.passes.Keys == s.passes.Keys
            && s'.passes[0].Owns() && s'.passes[0].id == id && id in s'.db.rows
            && s'.db.rows[id].ev == s.db.rows[id].ev && i < |s'.db.rows[id].acts|
            && s'.db.rows[id].acts[i] == s.db.rows[id].acts[i]
  {
    EffectIsExact(c, s, x, id);
    LoopStepKeepsRow(s.db.rows[id], EffectOn(c, s, x, id), i);
  }

  /** Where a loop step leaves worker 0. */
  lemma LoopStepMoves(c: Config, s: Sys, x: Step)
    requires Enabled(c, s, x) && LoopStep(x) && Actor(x) == Some(0)
    ensures var p, p' := s.passes[0], Do(c, s, x).passes[0];
            if x.Start? then p'.phase.InFlight? && p'.index == p.index else p'.phase.Walking? && p'.index == p.index + 1
  {
  }

  /** Once started, an action can be completed at once. */
  lemma FinishIsEnabled(c: Config, s: Sys, t: int)
    requires Safe(c, s) && s.up && 0 in s.passes && s.passes[0].phase.InFlight? && t == s.clock
    ensures Enabled(c, s, Finish(0, Success, t, t))
  {
    assert PassOk(c, s, s.passes[0]);
  }

  /** The loop can always go on: one of its branches is enabled. */
  lemma SomeBranchIsEnabled(c: Config, s: Sys, t: int) returns (x: Step)
    requires Safe(c, s) && s.up && 0 in s.passes && s.passes[0].phase.Walking? && t == s.clock
    requires s.passes[0].index < s.passes[0].plan
    ensures Enabled(c, s, x) && Actor(x) == Some(0) && (x.Over? || x.GiveUpOn? || x.Start?)
  {
    assert PassOk(c, s, s.passes[0]);
    BranchesFollowTheStore(c, s, 0, t);
    x := if Enabled(c, s, Over(0, t)) then Over(0, t) else if Enabled(c, s, GiveUpOn(0, t)) then GiveUpOn(0, t) else Start(0, t);
  }

  /** Worker 0 walks on to action `i` without the clock moving, completing what it has to start. */
  lemma {:induction false} WalkTo(c: Config, s0: Sys, s: Sys, id: Id, i: nat, a: Action, anchor: int) returns (at: Sys)
    requires c.RoundTrips() && Reached(c, s0, s) && Alone(c, s, id, i, a, anchor)
    requires s.passes[0].phase.Walking? && s.passes[0].index <= i
    ensures Reached(c, s0, at) && Alone(c, at, id, i, a, anchor) && at.clock == s.clock
    ensures at.passes[0].phase.Walking? && at.passes[0].index == i
    decreases i - s.passes[0].index
  {
    if s.passes[0].index == i {
      at := s;
    } else {
      assert PassOk(c, s, s.passes[0]);
      var x := SomeBranchIsEnabled(c, s, s.clock);
      var s1 := Do(c, s, x);
      AloneStep(c, s, x, id, i, a, anchor);
      LoopStepMoves(c, s, x);
      ReachedStep(c, s0, s, x, s1);
      if x.Start? {
        var y := Finish(0, Success, s1.clock, s1.clock);
        FinishIsEnabled(c, s1, s1.clock);
        var s2 := Do(c, s1, y);
        AloneStep(c, s1, y, id, i, a, anchor);
        LoopStepMoves(c, s1, y);
        ReachedStep(c, s0, s1, y, s2);
        at := WalkTo(c, s0, s2, id, i, a, anchor);
      } else {
        at := WalkTo(c, s0, s1, id, i, a, anchor);
      }
    }
  }

  /** The event is pending and no worker is about. */
  ghost predicate Idle(c: Config, s: Sys, id: Id, i: nat, a: Action, anchor: int) {
    && Safe(c, s) && s.up && s.passes == map[]
    && id in s.db.rows && s.db.rows[id].ev.status.Pending? && s.db.rows[id].ev.vars != ""
    && i < |s.db.rows[id].acts| && s.db.rows[id].acts[i] == a && !a.status.Running? && s.db.rows[id].ev.Anchor() == anchor
  }

  /** A crash and a startup recovery after any step of a safe system. */
  lemma RestartIsSafe(c: Config, s: Sys, x: Step)
    requires c.RoundTrips() && Safe(c, s) && Enabled(c, s, x)
    ensures Safe(c, Do(c, Do(c, s, x), Crash))
  {
    var s1 := Do(c, s, x);
    SoundStep(c, s, x);
    SoundStep(c, s1, Crash);
    ClockNeverFalls(c, s, x);
    forall id | id in s1.db.rows ensures RowInv(c, s1.clock, s1.db.rows[id]) {
      RowsStep(c, s, x, id);
    }
  }

  lemma RestartIsIdle(c: Config, s: Sys, id: Id, i: nat, a: Action, anchor: int) returns (s2: Sys)
    requires c.RoundTrips() && id in s.db.rows && s.db.rows[id].ev.status.Processing? && s.db.rows[id].ev.vars != ""
    requires i < |s.db.rows[id].acts| && s.db.rows[id].acts[i] == a && !a.status.Running? && s.db.rows[id].ev.Anchor() == anchor
    requires Safe(c, Do(c, s, Crash))
    ensures Reached(c, s, s2) && Idle(c, s2, id, i, a, anchor) && s2.clock == s.clock
  {
    var s1 := Do(c, s, Crash);
    s2 := Do(c, s1, Recover);
    ReachedStep(c, s, s, Crash, s1);
    ReachedStep(c, s, s1, Recover, s2);
    SafeStep(c, s1, Recover);
    RecoveryClears(s1.db, id, i);
  }

  /** A worker claims the idle event at time `t` and lists its rows. */
  lemma ClaimAndList(c: Config, s0: Sys, s: Sys, id: Id, i: nat, a: Action, anchor: int, t: int) returns (at: Sys)
    requires c.RoundTrips() && Reached(c, s0, s) && Idle(c, s, id, i, a, anchor) && s.clock <= t
    ensures Reached(c, s0, at) && Alone(c, at, id, i, a, anchor) && at.clock == t
    ensures at.passes[0].phase.Walking? && at.passes[0].index == 0
  {
    var s1 := TickIdle(c, s0, s, id, i, a, anchor, t);
    var s2 := ClaimAlone(c, s0, s1, id, i, a, anchor);
    var s3 := PrepareAlone(c, s0, s2, id, i, a, anchor);
    at := ListAlone(c, s0, s3, id, i, a, anchor);
  }

  lemma TickIdle(c: Config, s0: Sys, s: Sys, id: Id, i: nat, a: Action, anchor: int, t: int) returns (s': Sys)
    requires c.RoundTrips() && Reached(c, s0, s) && Idle(c, s, id, i, a, anchor) && s.clock <= t
    ensures Reached(c, s0, s') && Idle(c, s', id, i, a, anchor) && s'.clock == t
  {
    s' := Do(c, s, Tick(t));
    ReachedStep(c, s0, s, Tick(t), s');
    SafeStep(c, s, Tick(t));
  }

  lemma ListAlone(c: Config, s0: Sys, s: Sys, id: Id, i: nat, a: Action, anchor: int) returns (s': Sys)
    requires c.RoundTrips() && Reached(c, s0, s) && Alone(c, s, id, i, a, anchor) && s.passes[0].phase.Prepared?
    ensures Reached(c, s0, s') && Alone(c, s', id, i, a, anchor) && s'.clock == s.clock
    ensures s'.passes[0].phase.Walking? && s'.passes[0].index == 0
  {
    s' := Do(c, s, List(0));
    ReachedStep(c, s0, s, List(0), s');
    SafeStep(c, s, List(0));
  }

  lemma ClaimAlone(c: Config, s0: Sys, s: Sys, id: Id, i: nat, a: Action, anchor: int) returns (s': Sys)
    requires c.RoundTrips() && Reached(c, s0, s) && Idle(c, s, id, i, a, anchor)
    ensures Reached(c, s0, s') && Alone(c, s', id, i, a, anchor) && s'.clock == s.clock
    ensures s'.passes[0].phase.Claimed? && s'.passes[0].text != ""
  {
    var x := Claim(0, id, 0, s.clock, "o");
    s' := Do(c, s, x);
    ReachedStep(c, s0, s, x, s');
    SafeStep(c, s, x);
    MsFacts(s.clock, s.clock + DEFAULT_LEASE);
    assert s.db.rows[id].acts[i] == Rollback(a);
  }

  lemma PrepareIsEnabled(c: Config, s: Sys, id: Id, i: nat, a: Action, anchor: int) returns (vars: Vars)
    requires c.RoundTrips() && Alone(c, s, id, i, a, anchor) && s.passes[0].phase.Claimed? && s.passes[0].text != ""
    ensures Enabled(c, s, Prepare(0, vars, false, s.clock))
  {
    assert PassOk(c, s, s.passes[0]);
    assert RowInv(c, s.clock, s.db.rows[id]);
    Decodes(c, s.passes[0].text);
    vars := c.decode(s.passes[0].text).value;
  }

  lemma PrepareAlone(c: Config, s0: Sys, s: Sys, id: Id, i: nat, a: Action, anchor: int) returns (s': Sys)
    requires c.RoundTrips() && Reached(c, s0, s) && Alone(c, s, id, i, a, anchor)
    requires s.passes[0].phase.Claimed? && s.passes[0].text != ""
    ensures Reached(c, s0, s') && Alone(c, s', id, i, a, anchor) && s'.clock == s.clock
    ensures s'.passes[0].phase.Prepared?
  {
    var vars := PrepareIsEnabled(c, s, id, i, a, anchor);
    var x := Prepare(0, vars, false, s.clock);
    s' := Do(c, s, x);
    ReachedStep(c, s0, s, x, s');
    SafeStep(c, s, x);
  }

  lemma StartIsEnabled(c: Config, s: Sys, id: Id, i: nat, a: Action, anchor: int, t: int)
    requires Alone(c, s, id, i, a, anchor) && s.clock == t && s.passes[0].phase.Walking? && s.passes[0].index == i
    requires a.status.Retrying? && a.next.Or(0) <= Ms(t) && t < c.Deadline(anchor)
    ensures Enabled(c, s, Start(0, t)) && Dispatches(s, Start(0, t), id, i)
  {
    assert PassOk(c, s, s.passes[0]);
    BranchesFollowTheStore(c, s, 0, t);
  }

  /** An idle event with a retry stored for `due` is started before `due`, if the clock allows it. */
  lemma EarlyRun(c: Config, s: Sys, s2: Sys, id: Id, i: nat, a: Action, anchor: int, due: int)
    returns (steps: seq<Step>, k: nat)
    requires c.RoundTrips() && IsRetrying(s, id, i) && s.db.rows[id].acts[i] == a && a.next == Some(Ms(due))
    requires Reached(c, s, s2) && Idle(c, s2, id, i, a, anchor)
    requires s2.clock < due && due % NS_PER_MS != 0 && due < c.Deadline(anchor)
    ensures StartsEarly(c, s, steps, k, id, i, due)
  {
    var t := if s2.clock < Ms(due) * NS_PER_MS then Ms(due) * NS_PER_MS else s2.clock;
    assert s2.clock <= t < due && Ms(t) == Ms(due);
    var s3 := ClaimAndList(c, s, s2, id, i, a, anchor, t);
    var at := WalkTo(c, s, s3, id, i, a, anchor);
    StartIsEnabled(c, at, id, i, a, anchor, t);
    var pre :| Legal(c, s, pre) && Exec(c, s, pre) == at;
    steps, k := pre + [Start(0, t)], |pre|;
    assert steps[..k] == pre;
  }

  // ---- the exact condition ----

  /** A retry that is scheduled past its own clock by a whole number of milliseconds is never early, and only that one. */
  lemma WholeMillisecondsAreKept(due: int)
    ensures (forall now :: Ms(due) <= Ms(now) ==> due <= now) <==> due % NS_PER_MS == 0
  {
    if due % NS_PER_MS != 0 {
      assert Ms(due) <= Ms(due - 1) && due - 1 < due;
    }
  }

  /** The retry has just been committed, at the current clock, and is due at `due`. */
  ghost predicate JustScheduled(c: Config, s: Sys, id: Id, i: nat, due: int) {
    && IsRetrying(s, id, i) && s.db.rows[id].acts[i].next == Some(Ms(due))
    && due < c.Deadline(s.db.rows[id].ev.Anchor())
    && s.db.rows[id].ev.status.Processing? && s.db.rows[id].ev.vars != ""
    && NoOlderPass(s, id, s.clock) && Safe(c, Do(c, s, Crash))
  }

  /** One early continuation: a crash, a restart, and a worker whose clock is in the due millisecond. */
  lemma RestartToEarlyRun(c: Config, s: Sys, id: Id, i: nat, due: int)
    requires c.RoundTrips() && JustScheduled(c, s, id, i, due) && due % NS_PER_MS != 0 && s.clock < due
    ensures CanStartEarly(c, s, id, i, due)
  {
    var a, anchor := s.db.rows[id].acts[i], s.db.rows[id].ev.Anchor();
    var s2 := RestartIsIdle(c, s, id, i, a, anchor);
    var steps, k := EarlyRun(c, s, s2, id, i, a, anchor, due);
  }

  lemma NeverBefore(c: Config, s: Sys, steps: seq<Step>, k: nat, id: Id, i: nat, due: int)
    requires StartsEarly(c, s, steps, k, id, i, due) && NoOlderPass(s, id, s.clock)
    requires s.db.rows[id].acts[i].next == Some(Ms(due))
    ensures due % NS_PER_MS != 0 && s.clock < due
  {
    NoOlderPassRun(c, s, steps[..k], id, s.clock);
    StartIsDispatch(c, s, steps, k, id, i);
    WholeMillisecondsAreKept(due);
  }

  lemma EarlyExactly(c: Config, s: Sys, id: Id, i: nat, due: int)
    requires c.RoundTrips() && JustScheduled(c, s, id, i, due)
    ensures CanStartEarly(c, s, id, i, due) <==> due % NS_PER_MS != 0 && s.clock < due
  {
    if CanStartEarly(c, s, id, i, due) {
      var steps, k: nat :| StartsEarly(c, s, steps, k, id, i, due);
      NeverBefore(c, s, steps, k, id, i, due);
    } else if due % NS_PER_MS != 0 && s.clock < due {
      RestartToEarlyRun(c, s, id, i, due);
    }
  }

  lemma FinishLeavesNoOlder(c: Config, s: Sys, x: Step, id: Id)
    requires Safe(c, s) && Enabled(c, s, x) && x.Finish? && s.passes[x.w].id == id
    ensures NoOlderPass(Do(c, s, x), id, Do(c, s, x).clock) && Do(c, s, x).clock == s.clock
  {
  }

  /** The step is an answer that leaves its action waiting until `due`. */
  predicate Schedules(c: Config, s: Sys, x: Step, id: Id, i: nat, due: int)
    requires Enabled(c, s, x)
  {
    && x.Finish? && x.answer.Transient? && s.passes[x.w].id == id && s.passes[x.w].index == i
    && IsRetrying(Do(c, s, x), id, i) && due == x.decided + Delay(x.answer)
  }

  lemma ScheduledRow(c: Config, s: Sys, x: Step, id: Id, i: nat, due: int)
    requires c.RoundTrips() && Safe(c, s) && Enabled(c, s, x) && Schedules(c, s, x, id, i, due)
    ensures var r := Do(c, s, x).db.rows[id];
            && r.acts[i].next == Some(Ms(due)) && due < c.Deadline(r.ev.Anchor())
            && r.ev.status.Processing? && r.ev.vars != ""
  {
    assert PassOk(c, s, s.passes[x.w]);
    AnswersDecide(c, s, x.w, x.answer, x.decided, x.now);
    Decodes(c, RowOf(s, x.w).ev.vars);
  }

  lemma FinishSchedules(c: Config, s: Sys, x: Step, id: Id, i: nat, due: int)
    requires c.RoundTrips() && Safe(c, s) && Enabled(c, s, x) && Schedules(c, s, x, id, i, due)
    ensures JustScheduled(c, Do(c, s, x), id, i, due)
  {
    ScheduledRow(c, s, x, id, i, due);
    FinishLeavesNoOlder(c, s, x, id);
    RestartIsSafe(c, s, x);
  }

  /**
    A scheduled retry can be dispatched before its delay is over, in some continuation of the run, exactly when its due
    instant is not a whole millisecond and has not passed when the retry commits. Both are known at that time.
   */
  lemma RetryIsEarlyExactly(c: Config, s: Sys, x: Step, id: Id, i: nat, due: int)
    requires c.RoundTrips() && Safe(c, s) && Enabled(c, s, x) && Schedules(c, s, x, id, i, due)
    ensures CanStartEarly(c, Do(c, s, x), id, i, due) <==> due % NS_PER_MS != 0 && Do(c, s, x).clock < due
  {
    FinishSchedules(c, s, x, id, i, due);
    EarlyExactly(c, Do(c, s, x), id, i, due);
  }
}
