/**
  The worker loop, as the source runs it against the store, and its place in the protocol.

  Each method keeps a ghost protocol state in step with the store and says by which of this worker's own protocol steps
  it gets from the state it was called in to the state it leaves, so what is proved of all runs holds of these loops.
  The clock, cancellation, storage faults and the handlers' answers are arbitrary. `World.faults` counts the faults and
  cancellations, so that each contract can say what happens without any.
 */
module QueueModel {
  import opened Wrappers
  import opened Rows
  import opened Tables
  import opened Protocol
  import opened Effects
  import opened Backoff
  import opened StoreModel

  // ---- runs of one worker ----

  predicate OfWorker(step: Step, w: Worker) {
    step.Tick? || step.ExpireLeases? || (step.Claim? && step.w == w) || Actor(step) == Some(w)
  }

  /** `s'` is reached from `s` by steps of worker `w` and the passing of time. */
  ghost predicate Reaches(c: Config, w: Worker, s: Sys, s': Sys) {
    exists steps :: ReachesBy(c, w, s, steps, s')
  }

  predicate ReachesBy(c: Config, w: Worker, s: Sys, steps: seq<Step>, s': Sys) {
    (forall k :: 0 <= k < |steps| ==> OfWorker(steps[k], w)) && Legal(c, s, steps) && Exec(c, s, steps) == s'
  }

  lemma ReachesNow(c: Config, w: Worker, s: Sys)
    ensures ReachesBy(c, w, s, [], s) && Reaches(c, w, s, s)
  {
    assert ReachesBy(c, w, s, [], s);
  }

  lemma ReachesOne(c: Config, w: Worker, s: Sys, x: Step, s': Sys)
    requires Enabled(c, s, x) && OfWorker(x, w) && s' == Do(c, s, x)
    ensures ReachesBy(c, w, s, [x], s') && Reaches(c, w, s, s')
  {
    assert [x][1..] == [] && Legal(c, s', []) && Exec(c, s', []) == s';
    assert ReachesBy(c, w, s, [x], s');
  }

  lemma ReachesThen(c: Config, w: Worker, s: Sys, xs: seq<Step>, s': Sys, ys: seq<Step>, s'': Sys)
    requires ReachesBy(c, w, s, xs, s') && ReachesBy(c, w, s', ys, s'')
    ensures ReachesBy(c, w, s, xs + ys, s'')
  {
    ExecAppend(c, s, xs, ys);
  }

  lemma ReachesTrans(c: Config, w: Worker, s: Sys, s': Sys, s'': Sys)
    requires Reaches(c, w, s, s') && Reaches(c, w, s', s'')
    ensures Reaches(c, w, s, s'')
  {
    var xs :| ReachesBy(c, w, s, xs, s');
    var ys :| ReachesBy(c, w, s', ys, s'');
    ReachesThen(c, w, s, xs, s', ys, s'');
  }

  /** The worker's run from `s` to `s'` goes through `before`, and its last step is `last`. */
  ghost predicate EndsBy(c: Config, w: Worker, s: Sys, before: Sys, last: Step, s': Sys) {
    Reaches(c, w, s, before) && Enabled(c, before, last) && OfWorker(last, w) && s' == Do(c, before, last)
  }

  lemma EndsByThen(c: Config, w: Worker, s0: Sys, s: Sys, before: Sys, last: Step, s': Sys)
    requires Reaches(c, w, s0, s) && EndsBy(c, w, s, before, last, s')
    ensures EndsBy(c, w, s0, before, last, s') && Reaches(c, w, s0, s')
  {
    ReachesTrans(c, w, s0, s, before);
    ReachesOne(c, w, before, last, s');
    ReachesTrans(c, w, s0, before, s');
  }

  /** The pass was given up: the event went back to pending, or not even that succeeded. */
  predicate GivesUpPass(last: Step) {
    last.Abort? || last.Abandon?
  }

  // ---- the outside world ----

  class World {
    var clock: int
    ghost var faults: nat

    constructor (start: int)
      ensures clock == start && faults == 0
    {
      clock := start;
      faults := 0;
    }

    method Now() returns (t: int)
      modifies this`clock
      ensures old(clock) <= clock == t
    {
      var elapsed: int :| elapsed >= 0;
      clock := clock + elapsed;
      t := clock;
    }

    /** A cancellation of the worker's context, or a storage fault, at this point. */
    method Trouble() returns (b: bool)
      modifies this`faults
      ensures faults == old(faults) + if b then 1 else 0
    {
      b := *;
      if b {
        faults := faults + 1;
      }
    }

    /** None when the call was canceled; a missing handler counts as a permanent failure. */
    method Handle(c: Config, attempt: nat) returns (answer: Option<Answer>)
      requires Configured(c)
      modifies this`faults
      ensures answer.Some? ==> Drawn(c, attempt, answer.value)
      ensures faults == old(faults) + if answer.None? then 1 else 0
    {
      var canceled := Trouble();
      var done: bool, permanent: bool := *, *;
      if canceled { return None; }
      if done { return Some(Success); }
      if permanent { return Some(Permanent("permanent")); }
      var cap := RetryCapLoop(c.retryBase, c.maxDelay, attempt);
      var retryAfter: int :| retryAfter >= 0;
      var jitter :| 0 <= jitter <= cap;
      return Some(Transient("transient", retryAfter, jitter));
    }
  }

  predicate Configured(c: Config) {
    0 < c.retryBase <= MAX_INT64 && 0 < c.maxDelay <= MAX_INT64
  }

  /** The ghost state `s` describes the store and the clock, and worker `w` is in the given phase on this event. */
  ghost predicate Tracks(s: Sys, st: Store, world: World, w: Worker, id: Id, phase: Phase)
    reads st, world`clock
  {
    && st.Valid() && s.db == st.Db() && s.clock == world.clock && s.up
    && w in s.passes && s.passes[w].phase == phase && s.passes[w].id == id && s.passes[w].seen <= s.clock
    && id in s.db.rows
  }

  /** The pass is over, and `s` describes the store and the clock. */
  ghost predicate Ended(s: Sys, st: Store, world: World, w: Worker)
    reads st, world`clock
  {
    st.Valid() && s.db == st.Db() && s.clock == world.clock && s.up && w !in s.passes
  }

  // ---- ending a pass ----

  /** Queue.requeue: the event goes back to pending unless that fails too. */
  method Requeue(c: Config, st: Store, world: World, w: Worker, id: Id, ghost s1: Sys, ghost phase: Phase)
    returns (ghost last: Step, ghost s: Sys)
    requires Tracks(s1, st, world, w, id, phase) && phase != Clearing
    modifies st, world`faults
    ensures Ended(s, st, world, w) && Enabled(c, s1, last) && s == Do(c, s1, last)
    ensures world.faults >= old(world.faults)
    ensures last == if world.faults == old(world.faults) then Abort(w) else Abandon(w)
  {
    var fault := world.Trouble();
    if fault {
      last := Abandon(w);
    } else {
      var ok := st.RequeueEvent(id);
      last := Abort(w);
    }
    s := Do(c, s1, last);
    assert s.db.rows == st.Db().rows;
  }

  /** Reads the clock. */
  method Read(c: Config, st: Store, world: World, w: Worker, id: Id, ghost s1: Sys, ghost phase: Phase)
    returns (now: int, ghost s: Sys)
    requires Tracks(s1, st, world, w, id, phase)
    modifies world`clock
    ensures Tracks(s, st, world, w, id, phase)
    ensures s == s1.(clock := now) && s1.clock <= now && ReachesBy(c, w, s1, [Tick(now)], s) && Reaches(c, w, s1, s)
  {
    now := world.Now();
    s := Do(c, s1, Tick(now));
    ReachesOne(c, w, s1, Tick(now), s);
  }

  /** UpdateEventStatus(dead), whose own failure is ignored. */
  method Fail(c: Config, st: Store, world: World, w: Worker, id: Id, ghost s1: Sys)
    returns (ghost before: Sys, ghost last: Step, ghost s: Sys)
    requires Tracks(s1, st, world, w, id, Claimed)
    requires Finds(c, s1.passes[w], s1.db.rows[id]).Unusable?
    modifies st, world
    ensures Ended(s, st, world, w) && EndsBy(c, w, s1, before, last, s) && before == s1.(clock := world.clock)
    ensures world.faults >= old(world.faults)
    ensures last == if world.faults == old(world.faults) then Step.Fail(w, world.clock) else Abandon(w)
  {
    var now;
    now, before := Read(c, st, world, w, id, s1, Claimed);
    var fault := world.Trouble();
    if fault {
      last := Abandon(w);
    } else {
      var ok := st.UpdateEventStatus(id, EventStatus.Dead, now);
      last := Step.Fail(w, now);
    }
    s := Do(c, before, last);
  }

  /** The event fails its allowlist or rules: skipped, and its payload cleared unless payloads are retained. */
  method SkipEvent(c: Config, st: Store, world: World, w: Worker, id: Id, clear: bool, ghost s1: Sys)
    returns (ghost before: Sys, ghost last: Step, ghost s: Sys)
    requires Tracks(s1, st, world, w, id, Claimed) && Finds(c, s1.passes[w], s1.db.rows[id]).Unwanted?
    modifies st, world
    ensures Ended(s, st, world, w) && EndsBy(c, w, s1, before, last, s) && !last.Refresh?
    ensures world.faults >= old(world.faults)
    ensures world.faults == old(world.faults) ==> SkippedBy(c, s1.(clock := world.clock), w, clear, before, last)
    ensures world.faults == old(world.faults) ==>
              id in s.db.rows && s.db.rows[id].ev.status.Skipped? && (clear ==> s.db.rows[id].ev.payload == "")
  {
    var now;
    ghost var s2;
    now, s2 := Read(c, st, world, w, id, s1, Claimed);
    before := s2;
    var fault := world.Trouble();
    if fault {
      last, s := Requeue(c, st, world, w, id, s2, Claimed);
      return;
    }
    var ok := st.UpdateEventStatus(id, EventStatus.Skipped, now);
    last := Skip(w, clear, now);
    s := Do(c, s2, last);
    if clear {
      ReachesOne(c, w, s2, last, s);
      ReachesTrans(c, w, s1, s2, s);
      before := s;
      fault := world.Trouble();
      if fault {
        last := Abandon(w);
      } else {
        st.ClearPayload(id);
        last := Clear(w);
      }
      s := Do(c, before, last);
    }
  }

  /** The event is skipped at the clock of `s`, and its payload cleared in a second step if that is asked for. */
  predicate SkippedBy(c: Config, s: Sys, w: Worker, clear: bool, before: Sys, last: Step) {
    var skip := Skip(w, clear, s.clock);
    && Enabled(c, s, skip)
    && if clear then before == Do(c, s, skip) && last == Clear(w) else before == s && last == skip
  }

  // ---- before the first action ----

  /** How an undisturbed pass ends, by what its event calls for. */
  predicate Closes(prelude: Prelude, clear: bool, last: Step) {
    match prelude
    case Proceed(_) => last.Refresh?
    case Unwanted => if clear then last.Clear? else last.Skip?
    case Unusable => last.Fail?
  }

  /** The pass was claimed with this event's data. */
  predicate Carries(p: Pass, ev: PendingEvent) {
    p.text == ev.vars && p.payload == ev.payload && p.anchor == ev.anchor && p.plan == ev.plan
  }

  /** Queue.executionVars: the stored variables verbatim, or those extracted from the payload. None ends the pass. */
  method ExecutionVars(c: Config, st: Store, world: World, w: Worker, ev: PendingEvent, clear: bool, ghost s1: Sys)
    returns (vars: Option<Vars>, ghost before: Sys, ghost last: Step, ghost s: Sys)
    requires Tracks(s1, st, world, w, ev.id, Claimed) && Carries(s1.passes[w], ev)
    modifies st, world
    ensures world.faults >= old(world.faults)
    ensures vars.Some? ==>
              && s == s1 && Tracks(s, st, world, w, ev.id, Claimed) && world.faults == old(world.faults)
              && Finds(c, s1.passes[w], s1.db.rows[ev.id]) == Proceed(vars.value)
    ensures vars.None? ==> Ended(s, st, world, w) && EndsBy(c, w, s1, before, last, s) && !last.Refresh?
    ensures vars.None? && world.faults == old(world.faults) ==>
              var prelude := Finds(c, s1.passes[w], s1.db.rows[ev.id]);
              !prelude.Proceed? && Closes(prelude, clear, last)
  {
    vars, before, last, s := None, s1, Abandon(w), s1;
    if ev.vars != "" {
      vars := c.decode(ev.vars);
      if vars.None? {
        before, last, s := Fail(c, st, world, w, ev.id, s1);
      }
      return;
    }
    var payload := ev.payload;
    if payload == "" {
      var fault := world.Trouble();
      if fault {
        last, s := Requeue(c, st, world, w, ev.id, s1, Claimed);
        ReachesNow(c, w, s1);
        return;
      }
      payload := st.events[ev.id].payload;
    }
    if payload == "" {
      before, last, s := Fail(c, st, world, w, ev.id, s1);
      return;
    }
    match c.extract(ev.id, payload)
    case Passed(extracted) => vars := Some(extracted);
    case Rejected => before, last, s := SkipEvent(c, st, world, w, ev.id, clear, s1);
    case RuleError => before, last, s := Fail(c, st, world, w, ev.id, s1);
  }

  // ---- the action loop ----

  /** At the head of the action loop, about to look at action `index`. */
  ghost predicate AtAction(s: Sys, st: Store, world: World, w: Worker, ev: PendingEvent, states: seq<Action>, index: nat)
    reads st, world`clock
  {
    && Tracks(s, st, world, w, ev.id, Walking)
    && s.passes[w].index == index && s.passes[w].states == states
    && s.passes[w].anchor == ev.anchor && s.passes[w].plan == ev.plan
    && SameFrom(s.db.rows[ev.id].acts, states, index)
  }

  predicate SameFrom(acts: seq<Action>, states: seq<Action>, index: nat) {
    |acts| == |states| && forall j :: index <= j < |states| ==> acts[j] == states[j]
  }

  /** The handler has been called for action `index`. */
  ghost predicate InCall(s: Sys, st: Store, world: World, w: Worker, ev: PendingEvent, states: seq<Action>, index: nat, attempt: nat)
    reads st, world`clock
  {
    && Tracks(s, st, world, w, ev.id, InFlight)
    && s.passes[w].index == index && s.passes[w].states == states && s.passes[w].attempt == attempt
    && s.passes[w].anchor == ev.anchor && s.passes[w].plan == ev.plan
    && SameFrom(s.db.rows[ev.id].acts, states, index + 1)
    && index < |states| && s.db.rows[ev.id].acts[index].status.Running?
  }

  /** The branches after a handler's answer: what to commit for the action. */
  method Judge(c: Config, anchor: int, attempt: nat, answer: Answer, decided: int) returns (d: Decision)
    ensures d == Decide(c, anchor, attempt, answer, decided)
  {
    if answer.Success? {
      return Complete;
    }
    if answer.Permanent? || attempt >= c.maxRetries + 1 {
      return Bury(answer.detail);
    }
    var delay := answer.retryAfter;
    if delay <= 0 {
      delay := answer.jitter;
    }
    var next := decided + delay;
    if next >= anchor * NS_PER_MS + c.maxAge {
      return Bury("retry deadline exceeded: " + answer.detail);
    }
    d := Postpone(next, answer.detail, answer.retryAfter);
  }

  /** Commits what the handler's answer leads to, in one Finish step at a fresh clock reading; false ends the pass. */
  method Settled(c: Config, st: Store, world: World, w: Worker, ev: PendingEvent, states: seq<Action>, index: nat,
                 attempt: nat, answer: Answer, ghost s1: Sys)
    returns (go: bool, ghost last: Step, ghost s: Sys)
    requires InCall(s1, st, world, w, ev, states, index, attempt) && Drawn(c, attempt, answer)
    modifies st, world
    ensures s1.clock <= world.clock && Enabled(c, s1.(clock := world.clock), last) && s == Do(c, s1.(clock := world.clock), last)
    ensures go ==> last == Finish(w, answer, world.clock, world.clock) && AtAction(s, st, world, w, ev, states, index + 1)
    ensures !go ==> GivesUpPass(last) && Ended(s, st, world, w) && OfWorker(last, w)
    ensures if go then world.faults == old(world.faults) else world.faults > old(world.faults)
  {
    var now;
    ghost var s2;
    now, s2 := Read(c, st, world, w, ev.id, s1, InFlight);
    var fault := world.Trouble();
    if fault {
      last, s := Requeue(c, st, world, w, ev.id, s2, InFlight);
      return false, last, s;
    }
    go := true;
    last, s := CommitAnswer(c, st, world, w, ev, states, index, attempt, answer, now, s2);
  }

  /** CompleteAction, ScheduleActionRetry or DeadAction, as the answer calls for. */
  method CommitAnswer(c: Config, st: Store, world: World, w: Worker, ev: PendingEvent, states: seq<Action>, index: nat,
                      attempt: nat, answer: Answer, now: int, ghost s1: Sys)
    returns (ghost last: Step, ghost s: Sys)
    requires InCall(s1, st, world, w, ev, states, index, attempt) && Drawn(c, attempt, answer) && now == s1.clock
    modifies st
    ensures last == Finish(w, answer, now, now) && Enabled(c, s1, last) && s == Do(c, s1, last)
    ensures AtAction(s, st, world, w, ev, states, index + 1)
  {
    var d := Judge(c, ev.anchor, attempt, answer, now);
    var ok;
    match d {
      case Complete => ok := st.CompleteAction(ev.id, index, now);
      case Bury(reason) => ok := st.DeadAction(ev.id, index, reason, now);
      case Postpone(next, reason, after) => ok := st.ScheduleActionRetry(ev.id, index, next, reason, after);
    }
    last := Finish(w, answer, now, now);
    s := Do(c, s1, last);
  }

  /** Dead-letters an action whose retry age has passed; false ends the pass. */
  method Expire(c: Config, st: Store, world: World, w: Worker, ev: PendingEvent, states: seq<Action>, index: nat, now: int,
                ghost s1: Sys)
    returns (go: bool, ghost last: Step, ghost s: Sys)
    requires AtAction(s1, st, world, w, ev, states, index) && WalksTo(c, s1, w, now, GiveUp)
    modifies st, world`faults
    ensures Enabled(c, s1, last) && s == Do(c, s1, last)
    ensures go ==> last == GiveUpOn(w, now) && AtAction(s, st, world, w, ev, states, index + 1)
    ensures !go ==> GivesUpPass(last) && Ended(s, st, world, w) && OfWorker(last, w)
    ensures if go then world.faults == old(world.faults) else world.faults > old(world.faults)
  {
    var fault := world.Trouble();
    go := false;
    if !fault {
      go := st.ExpireAction(ev.id, index, now);
    }
    if go {
      last := GiveUpOn(w, now);
      s := Do(c, s1, last);
    } else {
      last, s := Requeue(c, st, world, w, ev.id, s1, Walking);
    }
  }

  /** The steps of one dispatch: an action that is no longer startable is passed over, another started and answered. */
  predicate IsDispatch(w: Worker, now: int, steps: seq<Step>) {
    || steps == [Miss(w, now)]
    || (|steps| == 3 && steps[0] == Start(w, now) && steps[1].Tick? && steps[2].Finish? && steps[2].w == w)
  }

  /** Starts the action and calls its handler. */
  method Dispatch(c: Config, st: Store, world: World, w: Worker, ev: PendingEvent, states: seq<Action>, index: nat, now: int,
                  ghost s1: Sys)
    returns (go: bool, ghost taken: seq<Step>, ghost before: Sys, ghost last: Step, ghost s: Sys)
    requires Configured(c) && AtAction(s1, st, world, w, ev, states, index) && WalksTo(c, s1, w, now, Try)
    modifies st, world
    ensures go ==> AtAction(s, st, world, w, ev, states, index + 1) && ReachesBy(c, w, s1, taken, s) && IsDispatch(w, now, taken)
    ensures !go ==> Ended(s, st, world, w) && EndsBy(c, w, s1, before, last, s) && GivesUpPass(last)
    ensures if go then world.faults == old(world.faults) else world.faults > old(world.faults)
  {
    taken, before, last := [], s1, Abandon(w);
    ReachesNow(c, w, s1);
    var fault := world.Trouble();
    if fault {
      last, s := Requeue(c, st, world, w, ev.id, s1, Walking);
      return false, taken, before, last, s;
    }
    var attempt;
    ghost var x, s2;
    attempt, x, s2 := Begin(c, st, world, w, ev, states, index, now, s1);
    ReachesOne(c, w, s1, x, s2);
    if attempt.None? {
      return true, [x], before, last, s2;
    }
    go, before, last, s := Call(c, st, world, w, ev, states, index, attempt.value, s2);
    taken := StartThen(c, w, s1, x, s2, before, last, s);
  }

  /** StartAction; None when the row is no longer startable. */
  method Begin(c: Config, st: Store, world: World, w: Worker, ev: PendingEvent, states: seq<Action>, index: nat, now: int, ghost s1: Sys)
    returns (attempt: Option<nat>, ghost x: Step, ghost s: Sys)
    requires AtAction(s1, st, world, w, ev, states, index) && WalksTo(c, s1, w, now, Try)
    modifies st
    ensures Enabled(c, s1, x) && OfWorker(x, w) && s == Do(c, s1, x)
    ensures if attempt.None? then x == Miss(w, now) && AtAction(s, st, world, w, ev, states, index + 1)
            else x == Start(w, now) && InCall(s, st, world, w, ev, states, index, attempt.value)
  {
    attempt := st.StartAction(ev.id, index, now);
    x := if attempt.None? then Miss(w, now) else Start(w, now);
    s := Do(c, s1, x);
  }

  /** Calls the handler of a started action and commits its answer; a cancellation ends the pass. */
  method Call(c: Config, st: Store, world: World, w: Worker, ev: PendingEvent, states: seq<Action>, index: nat, attempt: nat,
              ghost s1: Sys)
    returns (go: bool, ghost before: Sys, ghost last: Step, ghost s: Sys)
    requires Configured(c) && InCall(s1, st, world, w, ev, states, index, attempt)
    modifies st, world
    ensures s1.clock <= before.clock && before == s1.(clock := before.clock)
    ensures Enabled(c, before, last) && OfWorker(last, w) && s == Do(c, before, last)
    ensures if go then last.Finish? && last.w == w && AtAction(s, st, world, w, ev, states, index + 1)
            else GivesUpPass(last) && Ended(s, st, world, w)
    ensures if go then world.faults == old(world.faults) else world.faults > old(world.faults)
  {
    before := s1;
    var answer := world.Handle(c, attempt);
    if answer.None? {
      go := false;
      last, s := Requeue(c, st, world, w, ev.id, s1, InFlight);
    } else {
      go, last, s := Settled(c, st, world, w, ev, states, index, attempt, answer.value, s1);
      before := s1.(clock := world.clock);
    }
  }

  /** A start, the passing of time, and one more step. */
  lemma StartThen(c: Config, w: Worker, s1: Sys, start: Step, s2: Sys, before: Sys, last: Step, s: Sys)
    returns (steps: seq<Step>)
    requires ReachesBy(c, w, s1, [start], s2) && s2.clock <= before.clock && before == s2.(clock := before.clock)
    requires Enabled(c, before, last) && OfWorker(last, w) && s == Do(c, before, last)
    ensures EndsBy(c, w, s1, before, last, s)
    ensures steps == [start, Tick(before.clock), last] && ReachesBy(c, w, s1, steps, s)
  {
    var tick := Tick(before.clock);
    ReachesOne(c, w, s2, tick, before);
    ReachesThen(c, w, s1, [start], s2, [tick], before);
    ReachesOne(c, w, before, last, s);
    steps := [start] + [tick] + [last];
    ReachesThen(c, w, s1, [start] + [tick], before, [last], s);
  }

  /** One branch of the loop body: a clock reading, and then the action is passed over, given up, or dispatched. */
  predicate IsBranch(w: Worker, steps: seq<Step>) {
    && steps != [] && steps[0].Tick?
    && var now := steps[0].now;
       steps[1..] == [Over(w, now)] || steps[1..] == [GiveUpOn(w, now)] || IsDispatch(w, now, steps[1..])
  }

  /** One iteration of the action loop: exactly one branch, or the pass is given up at a fault or cancellation. */
  method TryAction(c: Config, st: Store, world: World, w: Worker, ev: PendingEvent, states: seq<Action>, index: nat, ghost s1: Sys)
    returns (go: bool, ghost branch: seq<Step>, ghost before: Sys, ghost last: Step, ghost s: Sys)
    requires Configured(c) && index < ev.plan && AtAction(s1, st, world, w, ev, states, index)
    modifies st, world
    ensures go ==> AtAction(s, st, world, w, ev, states, index + 1) && ReachesBy(c, w, s1, branch, s) && IsBranch(w, branch)
    ensures !go ==> Ended(s, st, world, w) && EndsBy(c, w, s1, before, last, s) && GivesUpPass(last)
    ensures if go then world.faults == old(world.faults) else world.faults > old(world.faults)
  {
    branch, before, last := [], s1, Abandon(w);
    ReachesNow(c, w, s1);
    var stop := world.Trouble();
    if stop {
      last, s := Requeue(c, st, world, w, ev.id, s1, Walking);
      return false, branch, before, last, s;
    }
    if index >= |states| || states[index].status.Done? || states[index].status.Dead? {
      ReachesOne(c, w, s1, Tick(s1.clock), s1);
      s, branch := OneStep(c, w, s1, s1.clock, Over(w, s1.clock));
      return true, branch, before, last, s;
    }
    var now, s2 := Read(c, st, world, w, ev.id, s1, Walking);
    go, branch, before, last, s := TryListed(c, st, world, w, ev, states, index, now, s2);
    if go {
      ReachesThen(c, w, s1, [Tick(now)], s2, branch, s);
      branch := [Tick(now)] + branch;
    } else {
      EndsByThen(c, w, s1, s2, before, last, s);
    }
  }

  /** The branches for an action that was unfinished or running when its state was listed. */
  method TryListed(c: Config, st: Store, world: World, w: Worker, ev: PendingEvent, states: seq<Action>, index: nat, now: int,
                   ghost s1: Sys)
    returns (go: bool, ghost branch: seq<Step>, ghost before: Sys, ghost last: Step, ghost s: Sys)
    requires Configured(c) && index < ev.plan && AtAction(s1, st, world, w, ev, states, index) && now == s1.clock
    requires index < |states| && !states[index].status.Done? && !states[index].status.Dead?
    modifies st, world
    ensures go ==> AtAction(s, st, world, w, ev, states, index + 1) && ReachesBy(c, w, s1, branch, s)
    ensures go ==> branch == [Over(w, now)] || branch == [GiveUpOn(w, now)] || IsDispatch(w, now, branch)
    ensures !go ==> Ended(s, st, world, w) && EndsBy(c, w, s1, before, last, s) && GivesUpPass(last)
    ensures if go then world.faults == old(world.faults) else world.faults > old(world.faults)
  {
    branch, before, last := [], s1, Abandon(w);
    ReachesNow(c, w, s1);
    var state := states[index];
    if (state.status == ActionStatus.Pending || state.status == ActionStatus.Retrying) && now >= ev.anchor * NS_PER_MS + c.maxAge {
      go, last, s := Expire(c, st, world, w, ev, states, index, now, s1);
      branch := [last];
      ReachesOne(c, w, s1, last, s);
      return;
    }
    if state.status == ActionStatus.Retrying && (if state.next.Some? then state.next.value else 0) > Ms(now) {
      s := Do(c, s1, Over(w, now));
      branch := [Over(w, now)];
      ReachesOne(c, w, s1, Over(w, now), s);
      return true, branch, before, last, s;
    }
    go, branch, before, last, s := Dispatch(c, st, world, w, ev, states, index, now, s1);
  }

  lemma OneStep(c: Config, w: Worker, s1: Sys, t: int, x: Step) returns (s: Sys, steps: seq<Step>)
    requires s1.clock <= t && Enabled(c, s1.(clock := t), x) && OfWorker(x, w)
    ensures s == Do(c, s1.(clock := t), x) && steps == [Tick(t), x] && ReachesBy(c, w, s1, steps, s)
  {
    s := Do(c, s1.(clock := t), x);
    ReachesOne(c, w, s1, Tick(t), s1.(clock := t));
    ReachesOne(c, w, s1.(clock := t), x, s);
    steps := [Tick(t)] + [x];
    ReachesThen(c, w, s1, [Tick(t)], s1.(clock := t), [x], s);
  }

  function Flat(branches: seq<seq<Step>>): seq<Step> {
    if branches == [] then [] else Flat(branches[..|branches| - 1]) + branches[|branches| - 1]
  }

  /** The action loop: one branch for each action of the plan, unless a fault or cancellation ends the pass. */
  method WalkActions(c: Config, st: Store, world: World, w: Worker, ev: PendingEvent, states: seq<Action>, ghost s1: Sys)
    returns (go: bool, ghost branches: seq<seq<Step>>, ghost before: Sys, ghost last: Step, ghost s: Sys)
    requires Configured(c) && AtAction(s1, st, world, w, ev, states, 0)
    modifies st, world
    ensures go ==> AtAction(s, st, world, w, ev, states, ev.plan) && |branches| == ev.plan
    ensures go ==> ReachesBy(c, w, s1, Flat(branches), s) && forall k :: 0 <= k < |branches| ==> IsBranch(w, branches[k])
    ensures !go ==> Ended(s, st, world, w) && EndsBy(c, w, s1, before, last, s) && GivesUpPass(last)
    ensures if go then world.faults == old(world.faults) else world.faults > old(world.faults)
  {
    go, branches, before, last, s := true, [], s1, Abandon(w), s1;
    ReachesNow(c, w, s1);
    for index := 0 to ev.plan
      invariant go && AtAction(s, st, world, w, ev, states, index) && world.faults == old(world.faults)
      invariant |branches| == index && ReachesBy(c, w, s1, Flat(branches), s)
      invariant forall k :: 0 <= k < |branches| ==> IsBranch(w, branches[k])
    {
      ghost var s2, branch := s, [];
      go, branch, before, last, s := TryAction(c, st, world, w, ev, states, index, s2);
      if !go {
        assert Reaches(c, w, s1, s2);
        EndsByThen(c, w, s1, s2, before, last, s);
        return;
      }
      ReachesThen(c, w, s1, Flat(branches), s2, branch, s);
      assert (branches + [branch])[..|branches|] == branches;
      branches := branches + [branch];
    }
  }

  // ---- the pass ----

  /** The variables and rows are committed at the clock of `s`, and then the rows are listed. */
  predicate PreparedBy(c: Config, s: Sys, w: Worker, vars: Vars, clear: bool, s': Sys) {
    var prepare := Step.Prepare(w, vars, clear, s.clock);
    Enabled(c, s, prepare) && Enabled(c, Do(c, s, prepare), List(w)) && s' == Do(c, Do(c, s, prepare), List(w))
  }

  /** Commits the variables and action rows and lists the rows; false ends the pass. */
  method Prepare(c: Config, st: Store, world: World, w: Worker, ev: PendingEvent, vars: Vars, clear: bool, ghost s1: Sys)
    returns (ok: bool, states: seq<Action>, ghost before: Sys, ghost last: Step, ghost s: Sys)
    requires Tracks(s1, st, world, w, ev.id, Claimed)
    requires Carries(s1.passes[w], ev) && Finds(c, s1.passes[w], s1.db.rows[ev.id]) == Proceed(vars)
    modifies st, world
    ensures ok ==> AtAction(s, st, world, w, ev, states, 0) && |states| >= ev.plan && Reaches(c, w, s1, s)
    ensures ok ==> PreparedBy(c, s1.(clock := world.clock), w, vars, clear, s)
    ensures !ok ==> Ended(s, st, world, w) && EndsBy(c, w, s1, before, last, s) && GivesUpPass(last)
    ensures world.faults >= old(world.faults)
    ensures world.faults == old(world.faults) ==> (ok <==> s1.db.rows[ev.id].ev.status.Processing?)
  {
    states := [];
    var t, s2 := Read(c, st, world, w, ev.id, s1, Claimed);
    before := s2;
    var fault := world.Trouble();
    ok := false;
    if !fault {
      ok := st.PrepareEvent(ev.id, c.encode(vars), ev.plan, clear, t);
    }
    if !ok {
      last, s := Requeue(c, st, world, w, ev.id, s2, Claimed);
      return;
    }
    before := Do(c, s2, Step.Prepare(w, vars, clear, t));
    ReachesOne(c, w, s2, Step.Prepare(w, vars, clear, t), before);
    ReachesTrans(c, w, s1, s2, before);
    ok, states, last, s := ListRows(c, st, world, w, ev, before);
    ReachesOne(c, w, before, last, s);
    ReachesTrans(c, w, s1, before, s);
  }

  /** Lists the rows that were just committed. */
  method ListRows(c: Config, st: Store, world: World, w: Worker, ev: PendingEvent, ghost s1: Sys)
    returns (ok: bool, states: seq<Action>, ghost last: Step, ghost s: Sys)
    requires Tracks(s1, st, world, w, ev.id, Prepared) && s1.passes[w].anchor == ev.anchor && s1.passes[w].plan == ev.plan
    modifies st, world`faults
    ensures Enabled(c, s1, last) && OfWorker(last, w) && s == Do(c, s1, last)
    ensures if ok then last == List(w) && AtAction(s, st, world, w, ev, states, 0) && states == s1.db.rows[ev.id].acts
            else GivesUpPass(last) && Ended(s, st, world, w)
    ensures if ok then world.faults == old(world.faults) else world.faults > old(world.faults)
  {
    states := [];
    var fault := world.Trouble();
    if fault {
      ok := false;
      last, s := Requeue(c, st, world, w, ev.id, s1, Prepared);
    } else {
      ok := true;
      states := st.ListActionStates(ev.id);
      assert states == s1.db.rows[ev.id].acts;
      last := List(w);
      s := Do(c, s1, last);
    }
  }

  /** Folds the action rows into the event at the end of the plan: one query at a fresh clock reading, and one update. */
  method Fold(c: Config, st: Store, world: World, w: Worker, ev: PendingEvent, states: seq<Action>, ghost s1: Sys)
    returns (completed: bool, ghost before: Sys, ghost last: Step, ghost s: Sys)
    requires AtAction(s1, st, world, w, ev, states, ev.plan)
    modifies st, world
    ensures Ended(s, st, world, w) && EndsBy(c, w, s1, before, last, s) && s1.clock <= world.clock
    ensures completed ==> last == Refresh(w) && ScannedBy(c, s1.(clock := world.clock), w, before)
    ensures !completed ==> GivesUpPass(last)
    ensures world.faults >= old(world.faults)
    ensures world.faults == old(world.faults) ==> (completed <==> states != [])
  {
    completed := false;
    var end;
    ghost var s2;
    end, s2 := Read(c, st, world, w, ev.id, s1, Walking);
    before := s2;
    var fault := world.Trouble();
    var totals := None;
    if !fault {
      totals := st.ReadTotals(ev.id);
    }
    if totals.None? {
      last, s := Requeue(c, st, world, w, ev.id, s2, Walking);
      return;
    }
    before := Do(c, s2, Scan(w, end));
    ReachesOne(c, w, s2, Scan(w, end), before);
    ReachesTrans(c, w, s1, s2, before);
    completed, last, s := WriteBack(c, st, world, w, ev, totals.value, end, before);
  }

  /** The totals are read at the clock of `s`. */
  predicate ScannedBy(c: Config, s: Sys, w: Worker, s': Sys) {
    Enabled(c, s, Scan(w, s.clock)) && s' == Do(c, s, Scan(w, s.clock))
  }

  /** The update that follows the query. */
  method WriteBack(c: Config, st: Store, world: World, w: Worker, ev: PendingEvent, t: Totals, end: int, ghost s1: Sys)
    returns (completed: bool, ghost last: Step, ghost s: Sys)
    requires Tracks(s1, st, world, w, ev.id, Folding) && s1.passes[w].read == t && s1.passes[w].end == end
    modifies st, world`faults
    ensures Ended(s, st, world, w) && Enabled(c, s1, last) && OfWorker(last, w) && s == Do(c, s1, last)
    ensures if completed then last == Refresh(w) && world.faults == old(world.faults)
            else GivesUpPass(last) && world.faults > old(world.faults)
  {
    var fault := world.Trouble();
    var status := None;
    if !fault {
      status := st.WriteTotals(ev.id, t, end);
    }
    completed := status.Some?;
    if completed {
      last := Refresh(w);
      s := Do(c, s1, last);
    } else {
      last, s := Requeue(c, st, world, w, ev.id, s1, Folding);
    }
  }

  /** The claimed event is still held and has at least one action. */
  predicate Held(s: Sys, ev: PendingEvent) {
    ev.id in s.db.rows && s.db.rows[ev.id].ev.status.Processing? && ev.plan >= 1
  }

  /**
    Queue.process: a whole pass over a claimed event. It takes only its own protocol steps. Without a fault or
    cancellation it ends as the event calls for: failed, skipped, or refreshed after the whole plan. It reports completion
    exactly for a refresh, and gives the pass up only at a fault, a cancellation, or an event it no longer holds.
   */
  method Process(c: Config, st: Store, world: World, w: Worker, ev: PendingEvent, clear: bool, ghost s1: Sys)
    returns (completed: bool, ghost before: Sys, ghost last: Step, ghost s: Sys)
    requires Configured(c) && Tracks(s1, st, world, w, ev.id, Claimed)
    requires Carries(s1.passes[w], ev)
    modifies st, world
    ensures Ended(s, st, world, w) && EndsBy(c, w, s1, before, last, s)
    ensures completed <==> last.Refresh?
    ensures world.faults >= old(world.faults)
    ensures world.faults == old(world.faults) && Held(s1, ev) ==>
              Closes(Finds(c, s1.passes[w], s1.db.rows[ev.id]), clear, last)
  {
    completed := false;
    var vars;
    vars, before, last, s := ExecutionVars(c, st, world, w, ev, clear, s1);
    if vars.None? {
      return;
    }
    completed, before, last, s := RunActions(c, st, world, w, ev, vars.value, clear, s1);
  }

  /** The part of the pass after its variables are known. */
  method RunActions(c: Config, st: Store, world: World, w: Worker, ev: PendingEvent, vars: Vars, clear: bool, ghost s1: Sys)
    returns (completed: bool, ghost before: Sys, ghost last: Step, ghost s: Sys)
    requires Configured(c) && Tracks(s1, st, world, w, ev.id, Claimed)
    requires Carries(s1.passes[w], ev) && Finds(c, s1.passes[w], s1.db.rows[ev.id]) == Proceed(vars)
    modifies st, world
    ensures Ended(s, st, world, w) && EndsBy(c, w, s1, before, last, s)
    ensures if completed then last.Refresh? else GivesUpPass(last)
    ensures world.faults >= old(world.faults)
    ensures world.faults == old(world.faults) && Held(s1, ev) ==> completed
  {
    completed := false;
    var ok, states;
    ghost var branches, s2, s3;
    ok, states, before, last, s2 := Prepare(c, st, world, w, ev, vars, clear, s1);
    s := s2;
    if !ok {
      return;
    }
    ok, branches, before, last, s3 := WalkActions(c, st, world, w, ev, states, s2);
    s := s3;
    if !ok {
      EndsByThen(c, w, s1, s2, before, last, s);
      return;
    }
    ReachesTrans(c, w, s1, s2, s3);
    completed, before, last, s := Fold(c, st, world, w, ev, states, s3);
    EndsByThen(c, w, s1, s3, before, last, s);
  }

  /** The row is claimable before its expired lease is requeued exactly if it is afterwards. */
  lemma ExpiryKeepsClaimable(r: Row, nowMs: int)
    ensures Claimable(ExpireRow(r, nowMs).ev, nowMs) <==> Claimable(r.ev, nowMs)
  {
  }

  /** Requeues the expired leases and claims the event due first. */
  method ExpireAndClaim(c: Config, st: Store, world: World, w: Worker, lease: int, owner: string, ghost s0: Sys)
    returns (claimed: Option<PendingEvent>, ghost now: int, ghost s: Sys)
    requires Ended(s0, st, world, w)
    modifies st, world
    ensures Reaches(c, w, s0, s) && s0.clock <= now && world.faults >= old(world.faults)
    ensures claimed.None? ==> Ended(s, st, world, w)
    ensures claimed.None? && world.faults == old(world.faults) ==>
              !SomeClaimable(s0.db, Ms(now)) && s == s0.(clock := now, db := ExpireDb(s0.db, Ms(now)))
    ensures claimed.Some? ==> world.faults == old(world.faults) && SomeClaimable(s0.db, Ms(now))
    ensures claimed.Some? ==> JustClaimed(ExpireDb(s0.db, Ms(now)), s, st, world, w, claimed.value, now)
  {
    claimed := None;
    var t := world.Now();
    now, s := t, s0.(clock := t);
    ReachesOne(c, w, s0, Tick(t), s);
    var fault := world.Trouble();
    if fault {
      return;
    }
    var expired := st.RequeueExpiredLeases(t);
    ghost var s1 := Do(c, s, ExpireLeases(t));
    ReachesOne(c, w, s, ExpireLeases(t), s1);
    ReachesTrans(c, w, s0, s, s1);
    s := s1;
    ExpiryKeepsSomeClaimable(s0.db, Ms(t));
    fault := world.Trouble();
    if fault {
      return;
    }
    claimed, s := ClaimNext(c, st, world, w, lease, owner, t, s1);
    ReachesTrans(c, w, s0, s1, s);
  }

  /** Claims the event due first, if any is claimable. */
  method ClaimNext(c: Config, st: Store, world: World, w: Worker, lease: int, owner: string, now: int, ghost s1: Sys)
    returns (claimed: Option<PendingEvent>, ghost s: Sys)
    requires Ended(s1, st, world, w) && now == s1.clock
    modifies st
    ensures Reaches(c, w, s1, s) && (claimed.None? <==> !SomeClaimable(s1.db, Ms(now)))
    ensures claimed.None? ==> s == s1 && Ended(s, st, world, w)
    ensures claimed.Some? ==> JustClaimed(s1.db, s, st, world, w, claimed.value, now)
  {
    s := s1;
    ReachesNow(c, w, s1);
    claimed := st.ClaimPending(lease, now, owner);
    if claimed.Some? {
      s := Do(c, s1, Claim(w, claimed.value.id, lease, now, owner));
      ReachesOne(c, w, s1, Claim(w, claimed.value.id, lease, now, owner), s);
    }
  }

  /** The worker holds the event that was due first at its clock reading, of the given store. */
  ghost predicate JustClaimed(db: DB, s: Sys, st: Store, world: World, w: Worker, ev: PendingEvent, now: int)
    reads st, world`clock
  {
    && Tracks(s, st, world, w, ev.id, Claimed) && s.db.rows[ev.id].ev.status.Processing?
    && Carries(s.passes[w], ev)
    && DueFirst(db, ev.id, Ms(now)) && ev.plan == db.rows[ev.id].ev.plan
  }

  lemma ExpiryKeepsSomeClaimable(db: DB, nowMs: int)
    ensures SomeClaimable(ExpireDb(db, nowMs), nowMs) <==> SomeClaimable(db, nowMs)
  {
    forall id | id in db.rows
      ensures Claimable(ExpireDb(db, nowMs).rows[id].ev, nowMs) <==> Claimable(db.rows[id].ev, nowMs)
    {
      ExpiryKeepsClaimable(db.rows[id], nowMs);
    }
    if id :| id in db.rows && Claimable(db.rows[id].ev, nowMs) {
      assert Claimable(ExpireDb(db, nowMs).rows[id].ev, nowMs);
    }
  }

  /**
    One turn of Queue.drain: expire leases, claim the event due first, and process it. Without a fault it works exactly if
    some event is claimable at its clock reading `now`, and then the pass over that event is not given up.
   */
  method DrainOnce(c: Config, st: Store, world: World, w: Worker, lease: int, owner: string, clear: bool, ghost s0: Sys)
    returns (worked: bool, ghost now: int, ghost picked: Id, ghost before: Sys, ghost last: Step, ghost s: Sys)
    requires Configured(c) && Ended(s0, st, world, w)
    modifies st, world
    ensures Ended(s, st, world, w) && Reaches(c, w, s0, s) && s0.clock <= now && world.faults >= old(world.faults)
    ensures world.faults == old(world.faults) ==> (worked <==> SomeClaimable(s0.db, Ms(now)))
    ensures world.faults == old(world.faults) && !worked ==> s == s0.(clock := now, db := ExpireDb(s0.db, Ms(now)))
    ensures worked ==> DueFirst(ExpireDb(s0.db, Ms(now)), picked, Ms(now)) && EndsBy(c, w, s0, before, last, s)
    ensures world.faults == old(world.faults) && worked && s0.db.rows[picked].ev.plan >= 1 ==> !GivesUpPass(last)
  {
    worked, picked, before, last := false, "", s0, Abandon(w);
    var claimed;
    claimed, now, s := ExpireAndClaim(c, st, world, w, lease, owner, s0);
    if claimed.Some? {
      worked, picked := true, claimed.value.id;
      ghost var s2 := s;
      var completed;
      completed, before, last, s := Process(c, st, world, w, claimed.value, clear, s2);
      EndsByThen(c, w, s0, s2, before, last, s);
    }
  }

  // ---- the store's other callers ----

  /** The ghost state `s` describes the store and the clock of a running service. */
  ghost predicate Serves(s: Sys, st: Store, world: World)
    reads st, world`clock
  {
    st.Valid() && s.db == st.Db() && s.clock == world.clock && s.up
  }

  /** Startup: recovery, which is one step of its own and counts the events it changed. */
  method Startup(c: Config, st: Store, world: World, ghost s1: Sys) returns (n: nat, ghost s: Sys)
    requires st.Valid() && s1.db == st.Db() && s1.clock == world.clock && !s1.up
    modifies st
    ensures Serves(s, st, world) && s == Do(c, s1, Recover)
    ensures n == |set id | id in s1.db.rows && NeedsRecovery(s1.db.rows[id])|
  {
    n := st.RequeueAllProcessing();
    s := Do(c, s1, Recover);
    assert (set id | id in old(st.events) && NeedsRecovery(Row(old(st.events)[id], ActionsOf(old(st.actions), id))))
           == set id | id in s1.db.rows && NeedsRecovery(s1.db.rows[id]);
  }

  /** The webhook's save, with a clock that was read before. */
  method Save(c: Config, st: Store, world: World, req: Request, ghost s1: Sys) returns (result: SaveResult, ghost s: Sys)
    requires Serves(s1, st, world) && Enabled(c, s1, Accept(req))
    modifies st
    ensures Serves(s, st, world) && result == SaveOutcome(s1.db, req) && s == Do(c, s1, Accept(req))
  {
    result := st.SavePendingEvent(req);
    s := Do(c, s1, Accept(req));
  }

  /** The retry endpoint: it replays exactly when the Replay step is enabled. */
  method ReplayEvent(c: Config, st: Store, world: World, id: Id, reason: string, ghost s1: Sys) returns (result: ReplayResult, ghost s: Sys)
    requires Serves(s1, st, world)
    modifies st, world`clock
    ensures Serves(s, st, world)
    ensures result.Replayed? <==> Enabled(c, s1.(clock := world.clock), Replay(id, reason, world.clock))
    ensures s == if result.Replayed? then Do(c, s1.(clock := world.clock), Replay(id, reason, world.clock))
                 else s1.(clock := world.clock)
  {
    var now := world.Now();
    result := st.ReplayDeadEvent(id, reason, now);
    s := s1.(clock := now);
    if result.Replayed? {
      s := Do(c, s, Replay(id, reason, now));
    }
  }

  /** A tick of the lease heartbeat: it renews exactly when the Renew step is enabled. */
  method RenewTick(c: Config, st: Store, world: World, id: Id, lease: int, owner: string, ghost s1: Sys) returns (ok: bool, ghost s: Sys)
    requires Serves(s1, st, world)
    modifies st, world`clock
    ensures Serves(s, st, world)
    ensures ok <==> Enabled(c, s1.(clock := world.clock), Renew(id, lease, world.clock, owner))
    ensures s == if ok then Do(c, s1.(clock := world.clock), Renew(id, lease, world.clock, owner)) else s1.(clock := world.clock)
  {
    var now := world.Now();
    ok := st.RenewLease(id, lease, now, owner);
    s := s1.(clock := now);
    if ok {
      s := Do(c, s, Renew(id, lease, now, owner));
    }
  }

  /** A turn of the retention loop, whose cutoff was computed before; the purge of the guards reads its own clock. */
  method PurgeTick(c: Config, st: Store, world: World, cutoff: int, ghost s1: Sys) returns (n: nat, ghost s: Sys)
    requires Serves(s1, st, world)
    modifies st, world`clock
    ensures Serves(s, st, world) && s == Do(c, s1.(clock := world.clock), Purge(cutoff, world.clock))
  {
    var now := world.Now();
    n := st.PurgeOlderThan(cutoff, now);
    s := Do(c, s1.(clock := now), Purge(cutoff, now));
  }
}
