/**
  Interleaving safety: while every live pass's lease is current, an event has at most one active worker, and what
  that worker read once about actions it has not reached yet stays exact.
 */
module Exclusive {
  import opened Wrappers
  import opened Rows
  import opened Protocol
  import opened Effects
  import opened Always

  // ---- invariant of one event ----

  /** `clock` bounds the stored times of pending rows, `anchor` is the event's retry anchor. */
  predicate ActInv(c: Config, clock: int, anchor: int, a: Action) {
    && a.attempts <= c.maxRetries + 1
    && (a.status.Unfinished() ==> a.attempts <= c.maxRetries)
    && (a.status.Running? || a.status.Done? ==> a.attempts >= 1)
    && (a.status.Pending? && a.next.Some? ==> a.next.value <= Ms(clock))
    && (a.status.Retrying? ==> a.next.Some? && a.next.value * NS_PER_MS < c.Deadline(anchor))
  }

  predicate ActsInv(c: Config, clock: int, anchor: int, acts: seq<Action>) {
    forall i :: 0 <= i < |acts| ==> ActInv(c, clock, anchor, acts[i])
  }

  predicate NoneRunning(acts: seq<Action>) {
    forall i :: 0 <= i < |acts| ==> !acts[i].status.Running?
  }

  predicate AllSettled(acts: seq<Action>) {
    forall i :: 0 <= i < |acts| ==> acts[i].status.Settled()
  }

  predicate AllDone(acts: seq<Action>) {
    forall i :: 0 <= i < |acts| ==> acts[i].status.Done?
  }

  predicate SomeDead(acts: seq<Action>) {
    exists i :: 0 <= i < |acts| && acts[i].status.Dead?
  }

  predicate SomeRetrying(acts: seq<Action>) {
    exists i :: 0 <= i < |acts| && acts[i].status.Retrying?
  }

  /** What each event status says about the action rows and the due time. */
  predicate Shape(r: Row) {
    match r.ev.status
    case Pending => NoneRunning(r.acts)
    case Processing => true
    case Retrying => r.acts != [] && AllSettled(r.acts) && SomeRetrying(r.acts) && r.ev.next == MinDue(r.acts)
    case Done => r.acts != [] && AllDone(r.acts)
    case Dead => r.acts == [] || (AllFinal(r.acts) && SomeDead(r.acts))
    case Skipped => r.acts == []
  }

  ghost predicate Encoded(c: Config, text: string) {
    exists v :: text == c.encode(v)
  }

  ghost predicate RowInv(c: Config, clock: int, r: Row) {
    && SoundRow(r)
    && r.ev.plan >= 1 && (r.acts == [] || |r.acts| == r.ev.plan)
    && (r.acts == [] <==> r.ev.vars == "")
    && (r.ev.vars != "" ==> Encoded(c, r.ev.vars))
    && (r.ev.payload == "" && r.ev.vars == "" ==> r.ev.status.Skipped?)
    && r.ev.Anchor() <= Ms(clock)
    && ActsInv(c, clock, r.ev.Anchor(), r.acts)
    && Shape(r)
  }

  // ---- invariant of a pass and its event ----

  /** How a pass may leave one action: untouched, given up, or tried once. */
  predicate RowPass(c: Config, anchor: int, since: int, a: Action, b: Action) {
    if a.status.Done? || a.status.Dead? then b == a
    else
      || (b == a && a.status.Retrying? && a.next.Or(0) > Ms(since))
      || (b.status.Dead? && b.attempts == a.attempts)
      || (b.attempts == a.attempts + 1 && b.status.Settled() && ActInv(c, since, anchor, b))
  }

  predicate Walked(c: Config, p: Pass, acts: seq<Action>)
    requires |acts| == |p.states| && p.index <= |acts|
  {
    && (forall j :: 0 <= j < p.index ==> RowPass(c, p.anchor, p.since, p.states[j], acts[j]))
    && (forall j :: p.index < j < |acts| ==> acts[j] == p.states[j])
  }

  ghost predicate PassInv(c: Config, p: Pass, r: Row) {
    && r.ev.status.Processing? && p.anchor == r.ev.Anchor() && p.plan == r.ev.plan && 0 <= p.since <= p.seen
    && match p.phase
       case Claimed => p.text == r.ev.vars && NoneRunning(r.acts)
       case Prepared => r.ev.vars == c.encode(p.vars) && |r.acts| == p.plan && NoneRunning(r.acts)
       case Walking =>
         && Listed(c, p, r) && p.index <= p.plan && Walked(c, p, r.acts) && NoneRunning(r.acts)
         && (p.index < p.plan ==> r.acts[p.index] == p.states[p.index])
       case InFlight =>
         && Listed(c, p, r) && p.index < p.plan && Walked(c, p, r.acts)
         && p.states[p.index].status.Unfinished()
         && r.acts[p.index] == Started(p.states[p.index]) && p.attempt == r.acts[p.index].attempts
         && (forall j :: 0 <= j < |r.acts| && j != p.index ==> !r.acts[j].status.Running?)
       case Folding =>
         && Listed(c, p, r) && p.index == p.plan && Walked(c, p, r.acts) && NoneRunning(r.acts)
         && p.read == TotalsOf(r.acts)
       case Clearing => false
  }

  ghost predicate Listed(c: Config, p: Pass, r: Row) {
    && r.ev.vars == c.encode(p.vars)
    && |r.acts| == p.plan && |p.states| == p.plan
    && NoneRunning(p.states) && ActsInv(c, p.seen, p.anchor, p.states)
  }

  // ---- invariant of the system ----

  ghost predicate PassOk(c: Config, s: Sys, p: Pass) {
    && p.id in s.issued && p.seen <= s.clock
    && if p.Owns() then p.id in s.db.rows && PassInv(c, p, s.db.rows[p.id])
       else p.id in s.db.rows ==> s.db.rows[p.id].ev.status.Skipped?
  }

  ghost predicate Safe(c: Config, s: Sys) {
    && Sound(s) && 0 <= s.clock
    && (forall id :: id in s.db.rows ==> RowInv(c, s.clock, s.db.rows[id]))
    && (forall w :: w in s.passes ==> PassOk(c, s, s.passes[w]))
    && (forall v, w :: v in s.passes && w in s.passes && v != w && s.passes[v].Owns() && s.passes[w].Owns() ==>
          s.passes[v].id != s.passes[w].id)
    && (!s.up ==> s.passes == map[])
  }

  // ---- effects on the invariant of one event ----

  /** What an effect must satisfy beyond its guard, supplied by the pass that causes it. */
  ghost predicate Fits(c: Config, clock: int, r: Row, e: Effect) {
    match e
    case Fill(text, n, clear, now) =>
      n == r.ev.plan && text != "" && Encoded(c, text) && (r.ev.vars != "" ==> text == r.ev.vars) && now <= clock
    case Close(status, now) => r.ev.status.Processing? && r.ev.vars == ""
    case Wipe => r.ev.status.Skipped?
    case Revive(reason, now) => now <= clock
    case Fold(t, now) => r.acts != [] && AllSettled(r.acts) && t == TotalsOf(r.acts)
    case Begin(i, now) => r.ev.status.Processing?
    case Conclude(i, d, now) =>
      && r.ev.status.Processing?
      && (d.Postpone? ==> i < |r.acts| && r.acts[i].attempts <= c.maxRetries && d.next < c.Deadline(r.ev.Anchor()))
    case Lapse(i, now) => r.ev.status.Processing?
    case _ => true
  }

  lemma MsFacts(t: int, u: int)
    ensures Ms(t) * NS_PER_MS <= t < (Ms(t) + 1) * NS_PER_MS
    ensures t <= u ==> Ms(t) <= Ms(u)
  {
  }

  lemma RowInvLater(c: Config, clock: int, later: int, r: Row)
    requires RowInv(c, clock, r) && clock <= later
    ensures RowInv(c, later, r)
  {
  }

  lemma ActsEffect(c: Config, clock: int, r: Row, e: Effect)
    requires RowInv(c, clock, r) && Guard(r, e) && Fits(c, clock, r, e)
    ensures ActsInv(c, clock, Apply(r, e).ev.Anchor(), Apply(r, e).acts)
  {
  }

  lemma ShapeEffect(c: Config, clock: int, r: Row, e: Effect)
    requires RowInv(c, clock, r) && Guard(r, e) && Fits(c, clock, r, e)
    ensures Shape(Apply(r, e))
  {
    if e.Fold? {
      VerdictMeaning(r.acts);
      MinDueMeaning(r.acts);
    }
  }

  lemma RowInvEffect(c: Config, clock: int, r: Row, e: Effect)
    requires RowInv(c, clock, r) && Guard(r, e) && Fits(c, clock, r, e)
    ensures RowInv(c, clock, Apply(r, e))
  {
    SoundEffect(r, e);
    ActsEffect(c, clock, r, e);
    ShapeEffect(c, clock, r, e);
    if e.Revive? { MsFacts(e.now, clock); }
  }

  // ---- steps of the pass that owns the event ----

  lemma Decodes(c: Config, text: string)
    requires c.RoundTrips()
    ensures Encoded(c, text) ==> text != "" && c.decode(text).Some? && c.encode(c.decode(text).value) == text
  {
  }

  /** Every step of an owning pass fits its event. */
  lemma OwnFits(c: Config, s: Sys, step: Step, w: Worker)
    requires c.RoundTrips() && Safe(c, s) && Enabled(c, s, step) && Actor(step) == Some(w) && s.passes[w].Owns()
    ensures Fits(c, s.clock, RowOf(s, w), OwnEffect(c, s.passes[w], RowOf(s, w), step))
  {
    var p, r := s.passes[w], RowOf(s, w);
    assert PassOk(c, s, p);
    match step
    case Fail(_, now) => Decodes(c, r.ev.vars);
    case Prepare(_, vars, clear, now) => Decodes(c, r.ev.vars);
    case Refresh(_) =>
      forall j | 0 <= j < |r.acts| ensures r.acts[j].status.Settled() {
        assert RowPass(c, p.anchor, p.since, p.states[j], r.acts[j]);
      }
    case _ =>
  }

  /** The pass as a step leaves it; meant for the steps after which it still owns its event. */
  ghost predicate OwnKept(c: Config, s: Sys, step: Step, w: Worker)
    requires Enabled(c, s, step) && w in s.passes
  {
    var s' := Do(c, s, step);
    w in s'.passes && s'.passes[w].Owns() ==>
      && s'.passes[w].id == s.passes[w].id && s'.passes[w].seen == s.clock
      && s'.passes[w].id in s'.db.rows && PassInv(c, s'.passes[w], s'.db.rows[s'.passes[w].id])
  }

  lemma PrepareKeeps(c: Config, s: Sys, step: Step, w: Worker)
    requires c.RoundTrips() && Safe(c, s) && Enabled(c, s, step) && step.Prepare? && step.w == w
    ensures OwnKept(c, s, step, w)
  {
  }

  lemma ScanKeeps(c: Config, s: Sys, step: Step, w: Worker)
    requires Safe(c, s) && Enabled(c, s, step) && step.Scan? && step.w == w
    ensures OwnKept(c, s, step, w)
  {
    assert PassOk(c, s, s.passes[w]);
  }

  lemma ListKeeps(c: Config, s: Sys, step: Step, w: Worker)
    requires Safe(c, s) && Enabled(c, s, step) && step.List? && step.w == w
    ensures OwnKept(c, s, step, w)
  {
  }

  /** Settling the action at the loop position moves the boundary of the walk past it. */
  lemma WalkedNext(c: Config, p: Pass, acts: seq<Action>, b: Action, q: Pass)
    requires |acts| == |p.states| && p.index < |acts| && Walked(c, p, acts)
    requires RowPass(c, p.anchor, p.since, p.states[p.index], b)
    requires q.anchor == p.anchor && q.since == p.since && q.states == p.states && q.index == p.index + 1
    ensures Walked(c, q, acts[p.index := b])
  {
  }

  lemma OverKeeps(c: Config, s: Sys, step: Step, w: Worker)
    requires Safe(c, s) && Enabled(c, s, step) && step.Over? && step.w == w
    ensures OwnKept(c, s, step, w)
  {
    var p, r := s.passes[w], RowOf(s, w);
    assert PassOk(c, s, p);
    MsFacts(p.since, step.now);
    WalkedNext(c, p, r.acts, r.acts[p.index], Do(c, s, step).passes[w]);
    assert r.acts[p.index := r.acts[p.index]] == r.acts;
  }

  lemma GiveUpKeeps(c: Config, s: Sys, step: Step, w: Worker)
    requires Safe(c, s) && Enabled(c, s, step) && step.GiveUpOn? && step.w == w
    ensures OwnKept(c, s, step, w)
  {
    assert PassOk(c, s, s.passes[w]);
  }

  lemma StartKeeps(c: Config, s: Sys, step: Step, w: Worker)
    requires Safe(c, s) && Enabled(c, s, step) && step.Start? && step.w == w
    ensures OwnKept(c, s, step, w)
  {
  }

  /** Whatever is decided for an attempt settles the action within its limits. */
  lemma SettledPass(c: Config, p: Pass, a: Action, answer: Answer, decided: int, now: int)
    requires ActInv(c, p.seen, p.anchor, a) && a.status.Unfinished() && p.attempt == a.attempts + 1
    ensures RowPass(c, p.anchor, p.since, a, Settle(Started(a), Decide(c, p.anchor, p.attempt, answer, decided), now))
  {
  }

  lemma FinishKeeps(c: Config, s: Sys, step: Step, w: Worker)
    requires Safe(c, s) && Enabled(c, s, step) && step.Finish? && step.w == w
    ensures OwnKept(c, s, step, w)
  {
    var p, r := s.passes[w], RowOf(s, w);
    assert PassOk(c, s, p);
    var b := Settle(r.acts[p.index], Decide(c, p.anchor, p.attempt, step.answer, step.decided), step.now);
    SettledPass(c, p, p.states[p.index], step.answer, step.decided, step.now);
    WalkedNext(c, p, r.acts, b, Do(c, s, step).passes[w]);
  }

  /** StartAction never finds an unreached action in another state than the one listed. */
  lemma NeverMisses(c: Config, s: Sys, w: Worker, now: int)
    requires Safe(c, s)
    ensures !Enabled(c, s, Miss(w, now))
  {
  }

  lemma OwnStepKeeps(c: Config, s: Sys, step: Step, w: Worker)
    requires c.RoundTrips() && Safe(c, s) && Enabled(c, s, step) && Actor(step) == Some(w)
    ensures OwnKept(c, s, step, w)
  {
    match step
    case Prepare(_, _, _, _) => PrepareKeeps(c, s, step, w);
    case List(_) => ListKeeps(c, s, step, w);
    case Scan(_, _) => ScanKeeps(c, s, step, w);
    case Over(_, _) => OverKeeps(c, s, step, w);
    case Miss(_, now) => NeverMisses(c, s, w, now);
    case GiveUpOn(_, _) => GiveUpKeeps(c, s, step, w);
    case Start(_, _) => StartKeeps(c, s, step, w);
    case Finish(_, _, _, _) => FinishKeeps(c, s, step, w);
    case _ =>
  }

  // ---- what other steps do to an owned event ----

  /** While leases are current, no one else's step changes an owned event, except that its lease may be extended. */
  lemma OthersKeep(c: Config, s: Sys, step: Step, w: Worker)
    requires Safe(c, s) && Timely(s) && Enabled(c, s, step) && w in s.passes && s.passes[w].Owns()
    requires Actor(step) != Some(w) && !step.Recover?
    ensures s.passes[w].id in s.db.rows
    ensures EffectOn(c, s, step, s.passes[w].id).Keep? || EffectOn(c, s, step, s.passes[w].id).Extend?
  {
    assert PassOk(c, s, s.passes[w]);
    var actor := Actor(step);
    if actor.Some? {
      assert PassOk(c, s, s.passes[actor.value]);
    } else if step.ExpireLeases? || step.Claim? {
      MsFacts(step.now, s.clock);
    }
  }

  /** A skipped event is changed by nothing but its own late ClearPayload and a purge. */
  lemma SkippedKept(c: Config, s: Sys, step: Step, id: Id)
    requires Safe(c, s) && Enabled(c, s, step) && id in s.db.rows && s.db.rows[id].ev.status.Skipped?
    ensures var e := EffectOn(c, s, step, id); e.Keep? || e.Wipe? || e.Vanish?
    ensures id in Do(c, s, step).db.rows ==>
              Do(c, s, step).db.rows[id] == s.db.rows[id] || Do(c, s, step).db.rows[id] == ClearRow(s.db.rows[id])
  {
    EffectIsExact(c, s, step, id);
    if Actor(step).Some? {
      assert PassOk(c, s, s.passes[Actor(step).value]);
    }
  }

  // ---- preservation ----

  /** Each effect a step has fits the event it is applied to. */
  lemma StepFits(c: Config, s: Sys, step: Step, id: Id)
    requires c.RoundTrips() && Safe(c, s) && Enabled(c, s, step) && id in s.db.rows
    ensures Fits(c, s.clock, s.db.rows[id], EffectOn(c, s, step, id))
  {
    var actor := Actor(step);
    if actor.None? {
      OutsideFits(c, s, step, id);
    } else if s.passes[actor.value].id == id {
      if s.passes[actor.value].Owns() {
        OwnFits(c, s, step, actor.value);
      } else {
        LateFits(c, s, step, actor.value);
      }
    }
  }

  lemma OutsideFits(c: Config, s: Sys, step: Step, id: Id)
    requires Enabled(c, s, step) && id in s.db.rows && Actor(step).None?
    ensures Fits(c, s.clock, s.db.rows[id], EffectOn(c, s, step, id))
  {
  }

  /** A pass that has given its event up only clears the payload. */
  lemma LateFits(c: Config, s: Sys, step: Step, w: Worker)
    requires Safe(c, s) && Enabled(c, s, step) && Actor(step) == Some(w) && !s.passes[w].Owns() && s.passes[w].id in s.db.rows
    ensures Fits(c, s.clock, RowOf(s, w), OwnEffect(c, s.passes[w], RowOf(s, w), step))
  {
    assert PassOk(c, s, s.passes[w]);
  }

  lemma RowsStep(c: Config, s: Sys, step: Step, id: Id)
    requires c.RoundTrips() && Safe(c, s) && Enabled(c, s, step) && id in Do(c, s, step).db.rows
    ensures RowInv(c, Do(c, s, step).clock, Do(c, s, step).db.rows[id])
  {
    if id in s.db.rows {
      EffectIsExact(c, s, step, id);
      StepFits(c, s, step, id);
      RowInvEffect(c, s.clock, s.db.rows[id], EffectOn(c, s, step, id));
      RowInvLater(c, s.clock, Do(c, s, step).clock, Do(c, s, step).db.rows[id]);
    } else {
      OnlyAcceptAdds(c, s, step, id);
      MsFacts(step.req.at, s.clock);
    }
  }

  lemma OtherPassOk(c: Config, s: Sys, step: Step, w: Worker)
    requires Safe(c, s) && Timely(s) && Enabled(c, s, step) && w in s.passes && w in Do(c, s, step).passes
    requires Actor(step) != Some(w)
    ensures PassOk(c, Do(c, s, step), Do(c, s, step).passes[w])
  {
    PassesStep(c, s, step, w);
    SoundStep(c, s, step);
    var p := s.passes[w];
    assert PassOk(c, s, p);
    if p.Owns() {
      OthersKeep(c, s, step, w);
      EffectIsExact(c, s, step, p.id);
    } else if p.id in s.db.rows {
      SkippedKept(c, s, step, p.id);
    } else if p.id in Do(c, s, step).db.rows {
      OnlyAcceptAdds(c, s, step, p.id);
    }
  }

  lemma ActorPassOk(c: Config, s: Sys, step: Step, w: Worker)
    requires c.RoundTrips() && Safe(c, s) && Enabled(c, s, step) && Actor(step) == Some(w) && w in Do(c, s, step).passes
    ensures PassOk(c, Do(c, s, step), Do(c, s, step).passes[w])
  {
    assert PassOk(c, s, s.passes[w]);
    OwnStepKeeps(c, s, step, w);
  }

  lemma ClaimerOk(c: Config, s: Sys, step: Step)
    requires Safe(c, s) && Timely(s) && Enabled(c, s, step) && step.Claim?
    ensures PassOk(c, Do(c, s, step), Do(c, s, step).passes[step.w])
    ensures forall v :: v in s.passes && s.passes[v].Owns() ==> s.passes[v].id != step.id
  {
  }

  /** After a step, each pass is intact, and each owner owned its event before or has just claimed it. */
  lemma PassesOk(c: Config, s: Sys, step: Step, w: Worker)
    requires c.RoundTrips() && Safe(c, s) && Timely(s) && Enabled(c, s, step) && w in Do(c, s, step).passes
    ensures PassOk(c, Do(c, s, step), Do(c, s, step).passes[w])
    ensures Do(c, s, step).passes[w].Owns() ==>
              if step.Claim? && step.w == w then Do(c, s, step).passes[w].id == step.id
              else w in s.passes && s.passes[w].Owns() && s.passes[w].id == Do(c, s, step).passes[w].id
  {
    PassesStep(c, s, step, w);
    if step.Claim? && step.w == w {
      ClaimerOk(c, s, step);
    } else if Actor(step) == Some(w) {
      ActorPassOk(c, s, step, w);
    } else {
      OtherPassOk(c, s, step, w);
    }
  }

  lemma OwnersStayUnique(c: Config, s: Sys, step: Step, v: Worker, w: Worker)
    requires c.RoundTrips() && Safe(c, s) && Timely(s) && Enabled(c, s, step) && v != w
    requires var s' := Do(c, s, step); v in s'.passes && w in s'.passes && s'.passes[v].Owns() && s'.passes[w].Owns()
    ensures Do(c, s, step).passes[v].id != Do(c, s, step).passes[w].id
  {
    PassesOk(c, s, step, v);
    PassesOk(c, s, step, w);
    if step.Claim? { ClaimerOk(c, s, step); }
  }

  /** One step of any worker, the API, the retention loop, or a crash keeps the whole invariant. */
  lemma SafeStep(c: Config, s: Sys, step: Step)
    requires c.RoundTrips() && Safe(c, s) && Timely(s) && Enabled(c, s, step)
    ensures Safe(c, Do(c, s, step))
  {
    var s' := Do(c, s, step);
    SoundStep(c, s, step);
    forall id | id in s'.db.rows ensures RowInv(c, s'.clock, s'.db.rows[id]) {
      RowsStep(c, s, step, id);
    }
    forall w | w in s'.passes ensures PassOk(c, s', s'.passes[w]) {
      PassesOk(c, s, step, w);
    }
    forall v, w | v in s'.passes && w in s'.passes && v != w && s'.passes[v].Owns() && s'.passes[w].Owns()
      ensures s'.passes[v].id != s'.passes[w].id
    {
      OwnersStayUnique(c, s, step, v, w);
    }
  }
}
