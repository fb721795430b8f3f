/** Without cancellation, crash or storage error an event is terminal after a bounded number of passes. */
module Termination {
  import opened Wrappers
  import opened Rows
  import opened Tables
  import opened Protocol
  import opened Effects
  import opened Always
  import opened Exclusive

  // ---- the attempts an event has left ----

  function Weight(c: Config, a: Action): int {
    if a.status.Done? || a.status.Dead? then 0 else c.maxRetries + 1 - a.attempts
  }

  function Budget(c: Config, acts: seq<Action>): int {
    if acts == [] then 0 else Weight(c, acts[0]) + Budget(c, acts[1..])
  }

  lemma {:induction false} BudgetFalls(c: Config, before: seq<Action>, after: seq<Action>)
    requires |before| == |after|
    requires forall j :: 0 <= j < |before| ==> Weight(c, after[j]) <= Weight(c, before[j])
    ensures Budget(c, after) <= Budget(c, before)
    ensures (exists j :: 0 <= j < |before| && Weight(c, after[j]) < Weight(c, before[j])) ==>
              Budget(c, after) < Budget(c, before)
  {
    if before != [] {
      assert forall j :: 0 <= j < |before| - 1 ==> before[1..][j] == before[j + 1] && after[1..][j] == after[j + 1];
      BudgetFalls(c, before[1..], after[1..]);
      if j :| 0 <= j < |before| && Weight(c, after[j]) < Weight(c, before[j]) {
        assert j > 0 ==> Weight(c, after[1..][j - 1]) < Weight(c, before[1..][j - 1]);
      }
    }
  }

  lemma {:induction false} BudgetOfFresh(c: Config, acts: seq<Action>, n: nat)
    requires |acts| == n && forall j :: 0 <= j < n ==> acts[j].status.Pending? && acts[j].attempts == 0
    ensures Budget(c, acts) == n * (c.maxRetries + 1)
  {
    if n > 0 {
      BudgetOfFresh(c, acts[1..], n - 1);
    }
  }

  lemma {:induction false} BudgetCovers(c: Config, clock: int, anchor: int, acts: seq<Action>)
    requires ActsInv(c, clock, anchor, acts)
    ensures Budget(c, acts) >= 0
    ensures forall j :: 0 <= j < |acts| ==> Weight(c, acts[j]) <= Budget(c, acts)
  {
    if acts != [] {
      assert ActsInv(c, clock, anchor, acts[1..]);
      BudgetCovers(c, clock, anchor, acts[1..]);
      assert forall j :: 0 < j < |acts| ==> acts[j] == acts[1..][j - 1];
      assert ActInv(c, clock, anchor, acts[0]);
    }
  }

  // ---- what a calm run keeps ----

  /** Some action is pending, or waits for a time that has come by `since`: the coming pass must touch it. */
  predicate Hot(acts: seq<Action>, since: int) {
    exists j :: 0 <= j < |acts| && Due(acts[j], since)
  }

  predicate Due(a: Action, since: int) {
    a.status.Pending? || (a.status.Retrying? && a.next.Or(0) <= Ms(since))
  }

  predicate Walks(p: Pass) {
    p.phase.Walking? || p.phase.InFlight? || p.phase.Folding?
  }

  /** The step loses no worker of this event, restarts nothing, and does not replay it. */
  predicate Calm(s: Sys, step: Step, id: Id) {
    match step
    case Crash => false
    case Recover => false
    case Replay(id', reason, now) => id' != id
    case Abort(w) => w in s.passes && s.passes[w].id != id
    case Abandon(w) => w in s.passes && (s.passes[w].id != id || !s.passes[w].Owns())
    case _ => true
  }

  ghost predicate Ready(s: Sys, id: Id) {
    && (id in s.db.rows && s.db.rows[id].ev.status.Pending? ==>
          s.db.rows[id].acts == [] || exists j :: 0 <= j < |s.db.rows[id].acts| && s.db.rows[id].acts[j].status.Pending?)
    && (id in s.db.rows && s.db.rows[id].ev.status.Processing? ==>
          exists w :: w in s.passes && s.passes[w].Owns() && s.passes[w].id == id)
    && (forall w :: w in s.passes && s.passes[w].id == id && s.passes[w].Owns() && id in s.db.rows ==>
          PassHot(s.passes[w], s.db.rows[id].acts))
  }

  predicate PassHot(p: Pass, acts: seq<Action>) {
    if Walks(p) then Hot(p.states, p.since)
    else (acts == [] && p.phase.Claimed?) || Hot(acts, p.since)
  }

  /** The attempts left to the event, at the latest claim's listing if a pass is under way, are at most `b`. */
  ghost predicate Bounded(c: Config, s: Sys, id: Id, b: int) {
    id in s.db.rows ==>
      && (s.db.rows[id].acts == [] ==> s.db.rows[id].ev.plan * (c.maxRetries + 1) <= b)
      && (s.db.rows[id].acts != [] ==> Budget(c, s.db.rows[id].acts) <= b)
      && (forall w :: w in s.passes && s.passes[w].id == id && Walks(s.passes[w]) ==> Budget(c, s.passes[w].states) <= b)
  }

  /** The step completes a pass over this event. */
  predicate EndsPass(s: Sys, step: Step, id: Id) {
    step.Refresh? && step.w in s.passes && s.passes[step.w].id == id
  }

  // ---- one step ----

  lemma ActsGetLighter(c: Config, r: Row, e: Effect)
    requires Guard(r, e) && !e.Requeue? && !e.Take? && !e.Revive? && !e.Fill?
    requires forall j :: 0 <= j < |r.acts| ==> r.acts[j].attempts <= c.maxRetries + 1
    ensures |Apply(r, e).acts| == |r.acts|
    ensures forall j :: 0 <= j < |r.acts| ==> Weight(c, Apply(r, e).acts[j]) <= Weight(c, r.acts[j])
  {
  }

  /** In a calm run no step rolls an attempt back or resets it. */
  predicate Forward(r: Row, e: Effect) {
    !e.Requeue? && !e.Revive? && (e.Take? ==> NoneRunning(r.acts))
  }

  lemma CalmOwnedEffect(c: Config, s: Sys, step: Step, w: Worker)
    requires Safe(c, s) && Timely(s) && Enabled(c, s, step) && w in s.passes && s.passes[w].Owns()
    requires s.passes[w].id in s.db.rows && Calm(s, step, s.passes[w].id)
    ensures Forward(RowOf(s, w), EffectOn(c, s, step, s.passes[w].id))
  {
    if Actor(step) != Some(w) { OthersKeep(c, s, step, w); }
  }

  lemma CalmIdleEffect(c: Config, s: Sys, step: Step, id: Id)
    requires Enabled(c, s, step) && Calm(s, step, id) && id in s.db.rows && !s.db.rows[id].ev.status.Processing?
    ensures var e := EffectOn(c, s, step, id);
            !e.Requeue? && !e.Revive? && (e.Take? ==> s.db.rows[id].ev.status.Pending? || s.db.rows[id].ev.status.Retrying?)
  {
    if Actor(step).None? { OutsideEffectIsExact(c, s, step, id); }
  }

  lemma CalmEffect(c: Config, s: Sys, step: Step, id: Id)
    requires Safe(c, s) && Timely(s) && Enabled(c, s, step) && Calm(s, step, id) && Ready(s, id) && id in s.db.rows
    ensures Forward(s.db.rows[id], EffectOn(c, s, step, id))
  {
    var r := s.db.rows[id];
    if r.ev.status.Processing? {
      var w :| w in s.passes && s.passes[w].Owns() && s.passes[w].id == id;
      CalmOwnedEffect(c, s, step, w);
    } else {
      CalmIdleEffect(c, s, step, id);
      assert RowInv(c, s.clock, r);
      assert Shape(r);
    }
  }

  predicate RowBounded(c: Config, r: Row, b: int) {
    && (r.acts == [] ==> r.ev.plan * (c.maxRetries + 1) <= b)
    && (r.acts != [] ==> Budget(c, r.acts) <= b)
  }

  lemma BudgetEffect(c: Config, clock: int, r: Row, e: Effect, b: int)
    requires RowInv(c, clock, r) && Guard(r, e) && Fits(c, clock, r, e) && Forward(r, e) && RowBounded(c, r, b)
    ensures RowBounded(c, Apply(r, e), b)
  {
    if e.Fill? {
      if r.acts == [] {
        BudgetOfFresh(c, Apply(r, e).acts, r.ev.plan);
      } else {
        assert Apply(r, e).acts == r.acts;
      }
    } else if e.Take? {
      assert RollbackAll(r.acts) == r.acts;
    } else {
      ActsGetLighter(c, r, e);
      BudgetFalls(c, r.acts, Apply(r, e).acts);
    }
  }

  lemma RowBoundedStep(c: Config, s: Sys, step: Step, id: Id, b: int)
    requires c.RoundTrips() && Safe(c, s) && Timely(s) && Enabled(c, s, step) && Calm(s, step, id) && Ready(s, id)
    requires id in s.db.rows && id in Do(c, s, step).db.rows && RowBounded(c, s.db.rows[id], b)
    ensures RowBounded(c, Do(c, s, step).db.rows[id], b)
  {
    EffectIsExact(c, s, step, id);
    StepFits(c, s, step, id);
    CalmEffect(c, s, step, id);
    BudgetEffect(c, s.clock, s.db.rows[id], EffectOn(c, s, step, id), b);
  }

  lemma TouchedSpends(c: Config, clock: int, anchor: int, since: int, a: Action, b: Action)
    requires RowPass(c, anchor, since, a, b) && ActInv(c, clock, anchor, a)
    ensures Weight(c, b) <= Weight(c, a)
    ensures Due(a, since) ==> Weight(c, b) < Weight(c, a)
  {
  }

  lemma WalkSpends(c: Config, p: Pass, acts: seq<Action>)
    requires |acts| == |p.states| && ActsInv(c, p.seen, p.anchor, p.states)
    requires forall j :: 0 <= j < |acts| ==> RowPass(c, p.anchor, p.since, p.states[j], acts[j])
    ensures Budget(c, acts) <= Budget(c, p.states)
    ensures Hot(p.states, p.since) ==> Budget(c, acts) < Budget(c, p.states)
  {
    forall j | 0 <= j < |acts|
      ensures Weight(c, acts[j]) <= Weight(c, p.states[j])
    {
      TouchedSpends(c, p.seen, p.anchor, p.since, p.states[j], acts[j]);
    }
    if j :| 0 <= j < |p.states| && Due(p.states[j], p.since) {
      TouchedSpends(c, p.seen, p.anchor, p.since, p.states[j], acts[j]);
    }
    BudgetFalls(c, p.states, acts);
  }

  /** A pass never leaves more attempts than it listed, and strictly fewer if any action was pending or due. */
  lemma PassSpends(c: Config, s: Sys, w: Worker)
    requires Safe(c, s) && Enabled(c, s, Refresh(w))
    ensures Budget(c, RowOf(s, w).acts) <= Budget(c, s.passes[w].states)
    ensures Hot(s.passes[w].states, s.passes[w].since) ==> Budget(c, RowOf(s, w).acts) < Budget(c, s.passes[w].states)
  {
    assert PassOk(c, s, s.passes[w]);
    WalkSpends(c, s.passes[w], RowOf(s, w).acts);
  }

  /** Which passes walk over the event after a step, and from which listing. */
  lemma WalkersStep(c: Config, s: Sys, step: Step, id: Id, w: Worker)
    requires c.RoundTrips() && Safe(c, s) && Timely(s) && Enabled(c, s, step)
    requires var s' := Do(c, s, step); w in s'.passes && s'.passes[w].id == id && Walks(s'.passes[w])
    ensures w in s.passes && s.passes[w].id == id && s.passes[w].Owns()
    ensures Walks(s.passes[w]) ==> Do(c, s, step).passes[w].states == s.passes[w].states
    ensures !Walks(s.passes[w]) ==> id in s.db.rows && Do(c, s, step).passes[w].states == s.db.rows[id].acts
                                    && s.db.rows[id].acts != []
    ensures Do(c, s, step).passes[w].since == s.passes[w].since
  {
    PassesStep(c, s, step, w);
    assert PassOk(c, s, s.passes[w]);
    assert RowInv(c, s.clock, s.db.rows[s.passes[w].id]);
  }

  lemma BoundedStep(c: Config, s: Sys, step: Step, id: Id, b: int)
    requires c.RoundTrips() && Safe(c, s) && Timely(s) && Enabled(c, s, step) && Calm(s, step, id) && Ready(s, id)
    requires id in s.issued && Bounded(c, s, id, b)
    ensures Bounded(c, Do(c, s, step), id, if EndsPass(s, step, id) then b - 1 else b)
  {
    var s' := Do(c, s, step);
    if id in s'.db.rows {
      if id !in s.db.rows { OnlyAcceptAdds(c, s, step, id); }
      forall w | w in s'.passes && s'.passes[w].id == id && Walks(s'.passes[w])
        ensures Budget(c, s'.passes[w].states) <= b && w in s.passes && s.passes[w].Owns() && s.passes[w].id == id
      {
        WalkersStep(c, s, step, id, w);
      }
      if EndsPass(s, step, id) {
        EndSpends(c, s, step, id, b);
      } else {
        RowBoundedStep(c, s, step, id, b);
      }
    }
  }

  /** The fold that ends a pass takes an attempt off the bound, and leaves no one else walking. */
  lemma EndSpends(c: Config, s: Sys, step: Step, id: Id, b: int)
    requires Safe(c, s) && Enabled(c, s, step) && Ready(s, id) && EndsPass(s, step, id) && Bounded(c, s, id, b)
    ensures id in s.db.rows && s.db.rows[id].acts != [] && Budget(c, s.db.rows[id].acts) <= b - 1
    ensures Do(c, s, step).db.rows[id].acts == s.db.rows[id].acts
    ensures forall w :: w in s.passes && s.passes[w].Owns() && s.passes[w].id == id ==> w == step.w
    ensures step.w !in Do(c, s, step).passes
  {
    assert PassOk(c, s, s.passes[step.w]);
    assert PassHot(s.passes[step.w], s.db.rows[id].acts);
    PassSpends(c, s, step.w);
  }

  predicate SomePending(acts: seq<Action>) {
    exists j :: 0 <= j < |acts| && acts[j].status.Pending?
  }

  lemma PendingStep(c: Config, s: Sys, step: Step, id: Id)
    requires c.RoundTrips() && Safe(c, s) && Timely(s) && Enabled(c, s, step) && Calm(s, step, id) && Ready(s, id)
    requires id in Do(c, s, step).db.rows && Do(c, s, step).db.rows[id].ev.status.Pending?
    ensures Do(c, s, step).db.rows[id].acts == [] || SomePending(Do(c, s, step).db.rows[id].acts)
  {
    if id !in s.db.rows {
      OnlyAcceptAdds(c, s, step, id);
    } else {
      EffectIsExact(c, s, step, id);
      StepFits(c, s, step, id);
      CalmEffect(c, s, step, id);
      SettledVerdict(s.db.rows[id].acts);
      assert RowInv(c, s.clock, s.db.rows[id]);
    }
  }

  lemma SettledVerdict(acts: seq<Action>)
    ensures acts != [] && AllSettled(acts) ==> !Verdict(TotalsOf(acts)).Pending? && !Verdict(TotalsOf(acts)).Processing?
  {
    if acts != [] { VerdictMeaning(acts); }
  }

  lemma ProcessingStays(c: Config, clock: int, r: Row, e: Effect)
    requires Guard(r, e) && Fits(c, clock, r, e) && Apply(r, e).ev.status.Processing? && !e.Take?
    ensures r.ev.status.Processing? && !e.Close? && !e.Fold? && !e.Requeue?
  {
    SettledVerdict(r.acts);
  }

  lemma OwnerStays(c: Config, s: Sys, step: Step, w: Worker)
    requires Enabled(c, s, step) && w in s.passes && s.passes[w].Owns() && s.passes[w].id in s.db.rows
    requires Calm(s, step, s.passes[w].id)
    requires var e := EffectOn(c, s, step, s.passes[w].id); !e.Close? && !e.Fold? && !e.Requeue?
    ensures var s' := Do(c, s, step);
            w in s'.passes && s'.passes[w].Owns() && s'.passes[w].id == s.passes[w].id
  {
    if Actor(step) != Some(w) { OtherPassStays(c, s, step, w); }
  }

  lemma OtherPassStays(c: Config, s: Sys, step: Step, w: Worker)
    requires Enabled(c, s, step) && w in s.passes && Actor(step) != Some(w) && !step.Crash?
    ensures w in Do(c, s, step).passes && Do(c, s, step).passes[w] == s.passes[w]
  {
  }

  lemma WasProcessing(c: Config, s: Sys, step: Step, id: Id)
    requires c.RoundTrips() && Safe(c, s) && Enabled(c, s, step) && !(step.Claim? && step.id == id)
    requires id in s.db.rows && id in Do(c, s, step).db.rows && Do(c, s, step).db.rows[id].ev.status.Processing?
    ensures s.db.rows[id].ev.status.Processing?
    ensures var e := EffectOn(c, s, step, id); !e.Close? && !e.Fold? && !e.Requeue?
  {
    EffectIsExact(c, s, step, id);
    StepFits(c, s, step, id);
    ProcessingStays(c, s.clock, s.db.rows[id], EffectOn(c, s, step, id));
  }

  lemma OwnerStep(c: Config, s: Sys, step: Step, id: Id)
    requires c.RoundTrips() && Safe(c, s) && Enabled(c, s, step) && Calm(s, step, id) && Ready(s, id)
    requires id in Do(c, s, step).db.rows && Do(c, s, step).db.rows[id].ev.status.Processing?
    ensures exists w :: w in Do(c, s, step).passes && Do(c, s, step).passes[w].Owns() && Do(c, s, step).passes[w].id == id
  {
    if id !in s.db.rows {
      OnlyAcceptAdds(c, s, step, id);
    } else if step.Claim? && step.id == id {
      assert Do(c, s, step).passes[step.w].Owns() && Do(c, s, step).passes[step.w].id == id;
    } else {
      WasProcessing(c, s, step, id);
      var w :| w in s.passes && s.passes[w].Owns() && s.passes[w].id == id;
      OwnerStays(c, s, step, w);
    }
  }

  lemma ClaimerHot(c: Config, s: Sys, step: Step)
    requires Safe(c, s) && Timely(s) && Enabled(c, s, step) && step.Claim? && Ready(s, step.id)
    ensures PassHot(Do(c, s, step).passes[step.w], Do(c, s, step).db.rows[step.id].acts)
  {
    var r := s.db.rows[step.id];
    ClaimerOk(c, s, step);
    MsFacts(step.now, s.clock);
    assert RowInv(c, s.clock, r);
    assert NoneRunning(r.acts);
    assert RollbackAll(r.acts) == r.acts;
    if r.ev.status.Retrying? {
      assert forall j :: 0 <= j < |r.acts| ==> ActInv(c, s.clock, r.ev.Anchor(), r.acts[j]);
      MinDueMeaning(r.acts);
      var j :| 0 <= j < |r.acts| && r.acts[j].status.Retrying? && r.acts[j].next == MinDue(r.acts);
      assert r.acts[j].next.Or(0) <= Ms(s.clock);
    }
  }

  lemma PrepareHot(c: Config, s: Sys, step: Step, w: Worker)
    requires Safe(c, s) && Enabled(c, s, step) && step.Prepare? && step.w == w && PassHot(s.passes[w], RowOf(s, w).acts)
    ensures PassHot(Do(c, s, step).passes[w], RowOf(Do(c, s, step), w).acts)
  {
    var p, r := s.passes[w], RowOf(s, w);
    assert PassOk(c, s, p);
    assert RowInv(c, s.clock, r);
    PreparedHot(r.acts, p.plan, step.now, p.since);
  }

  lemma PreparedHot(acts: seq<Action>, n: nat, now: int, since: int)
    requires n >= 1 && (acts == [] || (|acts| == n && Hot(acts, since)))
    ensures Hot(PreparedActs(acts, n, now), since)
  {
    if acts == [] {
      assert PreparedActs(acts, n, now)[0].status.Pending?;
    } else {
      assert PreparedActs(acts, n, now) == acts;
    }
  }

  lemma ListHot(c: Config, s: Sys, step: Step, w: Worker)
    requires Enabled(c, s, step) && step.List? && step.w == w && PassHot(s.passes[w], RowOf(s, w).acts)
    ensures PassHot(Do(c, s, step).passes[w], RowOf(Do(c, s, step), w).acts)
  {
  }

  lemma WalkHot(c: Config, s: Sys, step: Step, w: Worker)
    requires Enabled(c, s, step) && Actor(step) == Some(w) && Walks(s.passes[w])
    requires s.passes[w].id in s.db.rows && w in Do(c, s, step).passes
    ensures Do(c, s, step).passes[w].states == s.passes[w].states && Do(c, s, step).passes[w].since == s.passes[w].since
    ensures Walks(Do(c, s, step).passes[w])
  {
  }

  lemma ActorHot(c: Config, s: Sys, step: Step, w: Worker)
    requires c.RoundTrips() && Safe(c, s) && Enabled(c, s, step) && Actor(step) == Some(w) && s.passes[w].Owns()
    requires var s' := Do(c, s, step);
             w in s'.passes && s'.passes[w].Owns() && s.passes[w].id in s.db.rows && s'.passes[w].id in s'.db.rows
    requires PassHot(s.passes[w], RowOf(s, w).acts)
    ensures PassHot(Do(c, s, step).passes[w], RowOf(Do(c, s, step), w).acts)
  {
    if Walks(s.passes[w]) {
      WalkHot(c, s, step, w);
    } else if step.Prepare? {
      PrepareHot(c, s, step, w);
    } else if step.List? {
      ListHot(c, s, step, w);
    }
  }

  lemma OtherHot(c: Config, s: Sys, step: Step, w: Worker)
    requires Safe(c, s) && Timely(s) && Enabled(c, s, step) && w in s.passes && s.passes[w].Owns()
    requires Actor(step) != Some(w) && w in Do(c, s, step).passes && s.passes[w].id in s.db.rows
    requires PassHot(s.passes[w], RowOf(s, w).acts)
    ensures Do(c, s, step).passes[w] == s.passes[w] && s.passes[w].id in Do(c, s, step).db.rows
    ensures PassHot(s.passes[w], Do(c, s, step).db.rows[s.passes[w].id].acts)
  {
    PassesStep(c, s, step, w);
    OthersKeep(c, s, step, w);
    EffectIsExact(c, s, step, s.passes[w].id);
  }

  lemma PassHotStep(c: Config, s: Sys, step: Step, id: Id, w: Worker)
    requires c.RoundTrips() && Safe(c, s) && Timely(s) && Enabled(c, s, step) && Ready(s, id)
    requires var s' := Do(c, s, step); w in s'.passes && s'.passes[w].id == id && s'.passes[w].Owns() && id in s'.db.rows
    ensures PassHot(Do(c, s, step).passes[w], Do(c, s, step).db.rows[id].acts)
  {
    OwnersBefore(c, s, step, w);
    if w !in s.passes {
      ClaimerHot(c, s, step);
    } else if Actor(step) == Some(w) {
      ActorHot(c, s, step, w);
    } else {
      OtherHot(c, s, step, w);
    }
  }

  /** A pass that owns an event after a step has just claimed it or owned it before. */
  lemma OwnersBefore(c: Config, s: Sys, step: Step, w: Worker)
    requires c.RoundTrips() && Safe(c, s) && Enabled(c, s, step)
    requires w in Do(c, s, step).passes && Do(c, s, step).passes[w].Owns()
    ensures if w in s.passes
            then s.passes[w].Owns() && s.passes[w].id == Do(c, s, step).passes[w].id && s.passes[w].id in s.db.rows
            else step.Claim? && step.w == w && step.id == Do(c, s, step).passes[w].id
  {
    PassesStep(c, s, step, w);
    if w in s.passes {
      assert PassOk(c, s, s.passes[w]);
      if Actor(step) == Some(w) { OwnStepKeeps(c, s, step, w); }
    }
  }

  lemma ReadyStep(c: Config, s: Sys, step: Step, id: Id)
    requires c.RoundTrips() && Safe(c, s) && Timely(s) && Enabled(c, s, step) && Calm(s, step, id) && Ready(s, id)
    ensures Ready(Do(c, s, step), id)
  {
    var s' := Do(c, s, step);
    if id in s'.db.rows {
      if s'.db.rows[id].ev.status.Pending? { PendingStep(c, s, step, id); }
      if s'.db.rows[id].ev.status.Processing? { OwnerStep(c, s, step, id); }
      forall w | w in s'.passes && s'.passes[w].id == id && s'.passes[w].Owns()
        ensures PassHot(s'.passes[w], s'.db.rows[id].acts)
      {
        PassHotStep(c, s, step, id, w);
      }
    }
  }

  // ---- runs ----

  ghost predicate CalmRun(c: Config, s: Sys, steps: seq<Step>, id: Id)
    requires Legal(c, s, steps)
    decreases |steps|
  {
    steps == [] || (Calm(s, steps[0], id) && CalmRun(c, Do(c, s, steps[0]), steps[1..], id))
  }

  /** The number of completed passes over the event in the run. */
  function Passes(c: Config, s: Sys, steps: seq<Step>, id: Id): nat
    requires Legal(c, s, steps)
    decreases |steps|
  {
    if steps == [] then 0
    else Passes(c, Do(c, s, steps[0]), steps[1..], id) + if EndsPass(s, steps[0], id) then 1 else 0
  }

  /** Completed passes are paid for out of the attempts the event had left. */
  lemma {:induction false} PassesArePaidFor(c: Config, s: Sys, steps: seq<Step>, id: Id, b: int)
    requires c.RoundTrips() && Safe(c, s) && Legal(c, s, steps) && TimelyRun(c, s, steps) && CalmRun(c, s, steps, id)
    requires id in s.issued && Ready(s, id) && Bounded(c, s, id, b)
    ensures var end := Exec(c, s, steps);
            Safe(c, end) && Ready(end, id) && Bounded(c, end, id, b - Passes(c, s, steps, id))
    decreases |steps|
  {
    if steps != [] {
      SafeStep(c, s, steps[0]);
      SoundStep(c, s, steps[0]);
      ReadyStep(c, s, steps[0], id);
      BoundedStep(c, s, steps[0], id, b);
      PassesArePaidFor(c, Do(c, s, steps[0]), steps[1..], id, if EndsPass(s, steps[0], id) then b - 1 else b);
    }
  }

  lemma HotCosts(c: Config, clock: int, anchor: int, acts: seq<Action>, since: int)
    ensures ActsInv(c, clock, anchor, acts) && Hot(acts, since) ==> Budget(c, acts) >= 1
  {
    if ActsInv(c, clock, anchor, acts) && Hot(acts, since) {
      BudgetCovers(c, clock, anchor, acts);
      var j :| 0 <= j < |acts| && Due(acts[j], since);
      assert Weight(c, acts[j]) >= 1;
    }
  }

  /** With no attempt left the event is terminal, and the bound never goes below zero. */
  lemma NothingLeftIsTerminal(c: Config, s: Sys, id: Id, b: int)
    requires Safe(c, s) && Ready(s, id) && Bounded(c, s, id, b) && id in s.db.rows
    ensures b >= 0
    ensures b == 0 ==> s.db.rows[id].ev.status.Terminal()
  {
    var r := s.db.rows[id];
    assert RowInv(c, s.clock, r);
    if r.acts == [] {
      assert r.ev.plan * (c.maxRetries + 1) >= 1;
    }
    BudgetCovers(c, s.clock, r.ev.Anchor(), r.acts);
    if r.ev.status.Processing? {
      var w :| w in s.passes && s.passes[w].Owns() && s.passes[w].id == id;
      var p := s.passes[w];
      assert PassOk(c, s, p);
      HotCosts(c, p.seen, p.anchor, p.states, p.since);
      HotCosts(c, s.clock, r.ev.Anchor(), r.acts, p.since);
    }
  }

  /**
    From the moment an event with n actions is stored, in a run that cancels no pass over it, loses none, and does
    not replay it, at most n * (max_retries + 1) passes complete, and after that many it is terminal.
   */
  lemma EventsTerminate(c: Config, s: Sys, req: Request, steps: seq<Step>)
    requires c.RoundTrips() && Safe(c, s) && Timely(s) && Enabled(c, s, Accept(req)) && SaveOutcome(s.db, req).Saved?
    requires var s0 := Do(c, s, Accept(req));
             Legal(c, s0, steps) && TimelyRun(c, s0, steps) && CalmRun(c, s0, steps, req.id)
    ensures var s0 := Do(c, s, Accept(req));
            var limit := req.plan * (c.maxRetries + 1);
            req.id in Exec(c, s0, steps).db.rows ==>
              && Passes(c, s0, steps, req.id) <= limit
              && (Passes(c, s0, steps, req.id) == limit ==> Exec(c, s0, steps).db.rows[req.id].ev.status.Terminal())
  {
    var s0 := Do(c, s, Accept(req));
    SafeStep(c, s, Accept(req));
    assert forall w :: w in s.passes ==> PassOk(c, s, s.passes[w]);
    var limit := req.plan * (c.maxRetries + 1);
    assert Ready(s0, req.id) && Bounded(c, s0, req.id, limit);
    CountedOut(c, s0, steps, req.id, limit);
  }

  lemma {:induction false} BudgetAtMost(c: Config, acts: seq<Action>)
    ensures Budget(c, acts) <= |acts| * (c.maxRetries + 1)
  {
    if acts != [] {
      BudgetAtMost(c, acts[1..]);
    }
  }

  lemma ReviveBudget(c: Config, r: Row, now: int)
    requires r.acts != [] ==> |r.acts| == r.ev.plan && SomeDead(r.acts)
    ensures var acts := ReviveAll(r.acts, now);
            && RowBounded(c, r.(acts := acts), r.ev.plan * (c.maxRetries + 1))
            && (acts != [] ==> SomePending(acts))
  {
    var acts := ReviveAll(r.acts, now);
    BudgetAtMost(c, acts);
    if r.acts != [] {
      var j :| 0 <= j < |r.acts| && r.acts[j].status.Dead?;
      assert acts[j].status.Pending?;
    }
  }

  /** A replayed event is ready, with its whole budget. */
  lemma ReplayIsReady(c: Config, s: Sys, id: Id, reason: string, now: int)
    requires c.RoundTrips() && Safe(c, s) && Timely(s) && Enabled(c, s, Replay(id, reason, now))
    ensures var s0 := Do(c, s, Replay(id, reason, now));
            && Safe(c, s0) && Ready(s0, id) && id in s0.issued
            && Bounded(c, s0, id, s.db.rows[id].ev.plan * (c.maxRetries + 1))
  {
    var s0 := Do(c, s, Replay(id, reason, now));
    SafeStep(c, s, Replay(id, reason, now));
    assert RowInv(c, s.clock, s.db.rows[id]);
    ReviveBudget(c, s.db.rows[id], now);
    assert forall w :: w in s.passes && s.passes[w].Owns() ==> PassOk(c, s, s.passes[w]);
    assert s0.db.rows[id].acts == ReviveAll(s.db.rows[id].acts, now);
  }

  /** A replay starts the same count again. */
  lemma ReplaysTerminate(c: Config, s: Sys, id: Id, reason: string, now: int, steps: seq<Step>)
    requires c.RoundTrips() && Safe(c, s) && Timely(s) && Enabled(c, s, Replay(id, reason, now))
    requires var s0 := Do(c, s, Replay(id, reason, now));
             Legal(c, s0, steps) && TimelyRun(c, s0, steps) && CalmRun(c, s0, steps, id)
    ensures var s0 := Do(c, s, Replay(id, reason, now));
            var limit := s.db.rows[id].ev.plan * (c.maxRetries + 1);
            id in Exec(c, s0, steps).db.rows ==>
              && Passes(c, s0, steps, id) <= limit
              && (Passes(c, s0, steps, id) == limit ==> Exec(c, s0, steps).db.rows[id].ev.status.Terminal())
  {
    ReplayIsReady(c, s, id, reason, now);
    CountedOut(c, Do(c, s, Replay(id, reason, now)), steps, id, s.db.rows[id].ev.plan * (c.maxRetries + 1));
  }

  /** From a ready state with a given budget, no more passes complete than that, and after that many it is terminal. */
  lemma CountedOut(c: Config, s: Sys, steps: seq<Step>, id: Id, b: int)
    requires c.RoundTrips() && Safe(c, s) && Legal(c, s, steps) && TimelyRun(c, s, steps) && CalmRun(c, s, steps, id)
    requires id in s.issued && Ready(s, id) && Bounded(c, s, id, b)
    ensures id in Exec(c, s, steps).db.rows ==>
              && Passes(c, s, steps, id) <= b
              && (Passes(c, s, steps, id) == b ==> Exec(c, s, steps).db.rows[id].ev.status.Terminal())
  {
    PassesArePaidFor(c, s, steps, id, b);
    if id in Exec(c, s, steps).db.rows {
      NothingLeftIsTerminal(c, Exec(c, s, steps), id, b - Passes(c, s, steps, id));
    }
  }
}
