/**
  What holds in every run, including runs where workers outlive their leases.

  Nothing here assumes that leases are renewed in time.
 */
module Always {
  import opened Wrappers
  import opened Rows
  import opened Tables
  import opened Protocol
  import opened Effects

  // ---- the invariant of every reachable state ----

  /** Lease columns are set exactly while processing, the processed time exactly in terminal states. */
  predicate SoundEvent(ev: Event) {
    && (ev.leaseUntil.Some? <==> ev.status.Processing?)
    && (ev.owner.Some? <==> ev.status.Processing?)
    && (ev.processed.Some? <==> ev.status.Terminal())
  }

  predicate SoundActs(acts: seq<Action>) {
    forall i :: 0 <= i < |acts| && acts[i].status.Running? ==> acts[i].attempts >= 1
  }

  predicate SoundRow(r: Row) {
    SoundEvent(r.ev) && SoundActs(r.acts)
  }

  ghost predicate Sound(s: Sys) {
    forall id :: id in s.db.rows ==> SoundRow(s.db.rows[id]) && id in s.issued
  }

  lemma SoundEffect(r: Row, e: Effect)
    requires SoundRow(r) && Guard(r, e)
    ensures SoundRow(Apply(r, e))
  {
  }

  /** Nothing ever accepted is forgotten, and its payload is fixed. */
  predicate Extends(s: Sys, s': Sys) {
    forall id :: id in s.issued ==> id in s'.issued && s'.issued[id] == s.issued[id]
  }

  lemma SoundStep(c: Config, s: Sys, step: Step)
    requires Sound(s) && Enabled(c, s, step)
    ensures Sound(Do(c, s, step)) && Extends(s, Do(c, s, step))
  {
    var s' := Do(c, s, step);
    assert Extends(s, s');
    forall id | id in s'.db.rows ensures SoundRow(s'.db.rows[id]) && id in s'.issued {
      if id in s.db.rows {
        EffectIsExact(c, s, step, id);
        SoundEffect(s.db.rows[id], EffectOn(c, s, step, id));
      } else {
        OnlyAcceptAdds(c, s, step, id);
      }
    }
  }

  /** Every reachable state is sound: in particular running rows have an attempt to give back. */
  lemma {:induction false} SoundRun(c: Config, s: Sys, steps: seq<Step>)
    requires Sound(s) && Legal(c, s, steps)
    ensures Sound(Exec(c, s, steps)) && Extends(s, Exec(c, s, steps))
    decreases |steps|
  {
    if steps != [] {
      SoundStep(c, s, steps[0]);
      SoundRun(c, Do(c, s, steps[0]), steps[1..]);
    }
  }

  // ---- an accepted event stays until a purge of its old terminal state ----

  /** A stored step removes an event exactly if it is a purge, and the event had ended before the purge's cutoff. */
  lemma PurgeIsExact(c: Config, s: Sys, step: Step, id: Id)
    requires Sound(s) && Enabled(c, s, step) && id in s.db.rows
    ensures id !in Do(c, s, step).db.rows <==>
            step.Purge? && EndedBefore(s.db.rows[id].ev, Ms(step.cutoff))
  {
    EffectIsExact(c, s, step, id);
    assert SoundRow(s.db.rows[id]);
  }

  /** The event is done, dead or skipped, and was so before the given millisecond. */
  predicate EndedBefore(ev: Event, ms: int) {
    && (ev.status == EventStatus.Done || ev.status == EventStatus.Dead || ev.status == EventStatus.Skipped)
    && ev.processed.Some? && ev.processed.value < ms
  }

  /** Some step of the run is a purge, and the event had ended before its cutoff. */
  ghost predicate PurgedIn(c: Config, s: Sys, steps: seq<Step>, id: Id)
    requires Legal(c, s, steps)
    decreases |steps|
  {
    steps != [] &&
    ((id in s.db.rows && steps[0].Purge? && EndedBefore(s.db.rows[id].ev, Ms(steps[0].cutoff)))
     || PurgedIn(c, Do(c, s, steps[0]), steps[1..], id))
  }

  lemma {:induction false} GoneStaysGone(c: Config, s: Sys, steps: seq<Step>, id: Id)
    requires Sound(s) && Legal(c, s, steps) && id in s.issued && id !in s.db.rows
    ensures id !in Exec(c, s, steps).db.rows && !PurgedIn(c, s, steps, id)
    decreases |steps|
  {
    if steps != [] {
      SoundStep(c, s, steps[0]);
      var s' := Do(c, s, steps[0]);
      if id in s'.db.rows {
        OnlyAcceptAdds(c, s, steps[0], id);
      }
      GoneStaysGone(c, s', steps[1..], id);
    }
  }

  /** Nothing accepted is lost: an event is missing at the end exactly when a purge removed it while terminal and old. */
  lemma {:induction false} NothingLost(c: Config, s: Sys, steps: seq<Step>, id: Id)
    requires Sound(s) && Legal(c, s, steps) && id in s.db.rows
    ensures id !in Exec(c, s, steps).db.rows <==> PurgedIn(c, s, steps, id)
    decreases |steps|
  {
    if steps != [] {
      SoundStep(c, s, steps[0]);
      PurgeIsExact(c, s, steps[0], id);
      var s' := Do(c, s, steps[0]);
      if id in s'.db.rows {
        NothingLost(c, s', steps[1..], id);
      } else {
        GoneStaysGone(c, s', steps[1..], id);
      }
    }
  }

  // ---- what an accepted request stores ----

  /** The row of a saved request, column by column. */
  lemma AcceptStores(c: Config, s: Sys, req: Request)
    requires Enabled(c, s, Accept(req)) && SaveOutcome(s.db, req).Saved?
    ensures var s' := Do(c, s, Accept(req));
            && s'.db.rows.Keys == s.db.rows.Keys + {req.id} && (forall id :: id in s.db.rows ==> s'.db.rows[id] == s.db.rows[id])
            && var r := s'.db.rows[req.id];
            && r.acts == [] && r.ev.plan == req.plan && r.ev.payload == req.payload && r.ev.vars == ""
            && r.ev.source == req.source && r.ev.delivery == req.delivery && r.ev.bodyHash == req.bodyHash
            && r.ev.status == EventStatus.Pending && r.ev.received == Ms(req.at) && r.ev.next == Some(Ms(req.at))
            && r.ev.processed == None && r.ev.leaseUntil == None && r.ev.owner == None
            && r.ev.generation == 0 && r.ev.replayed == None && r.ev.reason == None
  {
  }

  lemma IdentityEffect(r: Row, e: Effect)
    requires Guard(r, e)
    ensures var ev, ev' := r.ev, Apply(r, e).ev;
            && ev'.source == ev.source && ev'.delivery == ev.delivery && ev'.bodyHash == ev.bodyHash
            && ev'.plan == ev.plan && ev'.received == ev.received && (ev'.payload == ev.payload || ev'.payload == "")
  {
  }

  lemma IdentityStep(c: Config, s: Sys, step: Step, id: Id)
    requires Enabled(c, s, step) && id in s.db.rows && id in Do(c, s, step).db.rows
    ensures var ev, ev' := s.db.rows[id].ev, Do(c, s, step).db.rows[id].ev;
            && ev'.source == ev.source && ev'.delivery == ev.delivery && ev'.bodyHash == ev.bodyHash
            && ev'.plan == ev.plan && ev'.received == ev.received && (ev'.payload == ev.payload || ev'.payload == "")
  {
    EffectIsExact(c, s, step, id);
    IdentityEffect(s.db.rows[id], EffectOn(c, s, step, id));
  }

  /** What identifies an event never changes while it is stored, and its payload is kept or cleared. */
  lemma {:induction false} IdentityIsKept(c: Config, s: Sys, steps: seq<Step>, id: Id)
    requires Sound(s) && Legal(c, s, steps) && id in s.db.rows && id in Exec(c, s, steps).db.rows
    ensures var ev, ev' := s.db.rows[id].ev, Exec(c, s, steps).db.rows[id].ev;
            && ev'.source == ev.source && ev'.delivery == ev.delivery && ev'.bodyHash == ev.bodyHash
            && ev'.plan == ev.plan && ev'.received == ev.received && (ev'.payload == ev.payload || ev'.payload == "")
    decreases |steps|
  {
    if steps != [] {
      SoundStep(c, s, steps[0]);
      var s' := Do(c, s, steps[0]);
      if id in s'.db.rows {
        IdentityStep(c, s, steps[0], id);
        IdentityIsKept(c, s', steps[1..], id);
      } else {
        GoneStaysGone(c, s', steps[1..], id);
      }
    }
  }

  // ---- done is final ----

  ghost predicate IsDone(s: Sys, id: Id, i: nat) {
    id in s.db.rows && i < |s.db.rows[id].acts| && s.db.rows[id].acts[i].status.Done?
  }

  lemma DoneEffect(r: Row, e: Effect, i: nat)
    requires Guard(r, e) && i < |r.acts| && r.acts[i].status.Done?
    ensures i < |Apply(r, e).acts| && Apply(r, e).acts[i] == r.acts[i]
  {
  }

  lemma DoneStep(c: Config, s: Sys, step: Step, id: Id, i: nat)
    requires Enabled(c, s, step) && IsDone(s, id, i)
    ensures id in Do(c, s, step).db.rows ==>
              IsDone(Do(c, s, step), id, i) && Do(c, s, step).db.rows[id].acts[i] == s.db.rows[id].acts[i]
  {
    EffectIsExact(c, s, step, id);
    DoneEffect(s.db.rows[id], EffectOn(c, s, step, id), i);
  }

  /** No step but a purge changes a completed action, whoever takes it. */
  lemma {:induction false} DoneIsFinal(c: Config, s: Sys, steps: seq<Step>, id: Id, i: nat)
    requires Sound(s) && Legal(c, s, steps) && IsDone(s, id, i)
    ensures id in Exec(c, s, steps).db.rows ==>
              IsDone(Exec(c, s, steps), id, i) && Exec(c, s, steps).db.rows[id].acts[i] == s.db.rows[id].acts[i]
    decreases |steps|
  {
    if steps != [] {
      SoundStep(c, s, steps[0]);
      DoneStep(c, s, steps[0], id, i);
      var s' := Do(c, s, steps[0]);
      if id in s'.db.rows {
        DoneIsFinal(c, s', steps[1..], id, i);
      } else {
        GoneStaysGone(c, s', steps[1..], id);
      }
    }
  }

  /** The step dispatches action `i` of event `id` to its handler. */
  predicate Dispatches(s: Sys, step: Step, id: Id, i: nat) {
    step.Start? && step.w in s.passes && s.passes[step.w].id == id && s.passes[step.w].index == i
  }

  /** The step commits a successful answer for action `i` of event `id`. */
  predicate Completes(s: Sys, step: Step, id: Id, i: nat) {
    step.Finish? && step.answer.Success? && step.w in s.passes && s.passes[step.w].id == id && s.passes[step.w].index == i
  }

  function Completions(c: Config, s: Sys, steps: seq<Step>, id: Id, i: nat): nat
    requires Legal(c, s, steps)
    decreases |steps|
  {
    if steps == [] then 0
    else Completions(c, Do(c, s, steps[0]), steps[1..], id, i) + if Completes(s, steps[0], id, i) then 1 else 0
  }

  function Dispatched(c: Config, s: Sys, steps: seq<Step>, id: Id, i: nat): nat
    requires Legal(c, s, steps)
    decreases |steps|
  {
    if steps == [] then 0
    else Dispatched(c, Do(c, s, steps[0]), steps[1..], id, i) + if Dispatches(s, steps[0], id, i) then 1 else 0
  }

  /** After completion, or after its event was purged, an action is neither dispatched nor completed again. */
  lemma {:induction false} NothingAfterDone(c: Config, s: Sys, steps: seq<Step>, id: Id, i: nat)
    requires Sound(s) && Legal(c, s, steps) && id in s.issued
    requires IsDone(s, id, i) || id !in s.db.rows
    ensures Completions(c, s, steps, id, i) == 0 && Dispatched(c, s, steps, id, i) == 0
    decreases |steps|
  {
    if steps != [] {
      SoundStep(c, s, steps[0]);
      var s' := Do(c, s, steps[0]);
      if id in s.db.rows {
        DoneStep(c, s, steps[0], id, i);
      } else if id in s'.db.rows {
        OnlyAcceptAdds(c, s, steps[0], id);
      }
      NothingAfterDone(c, s', steps[1..], id, i);
    }
  }

  /** Across retries, crashes, replays and workers that lost their lease, at most one completion commits per action. */
  lemma {:induction false} CompletesOnce(c: Config, s: Sys, steps: seq<Step>, id: Id, i: nat)
    requires Sound(s) && Legal(c, s, steps)
    ensures Completions(c, s, steps, id, i) <= 1
    decreases |steps|
  {
    if steps != [] {
      SoundStep(c, s, steps[0]);
      var s' := Do(c, s, steps[0]);
      if Completes(s, steps[0], id, i) {
        EffectIsExact(c, s, steps[0], id);
        NothingAfterDone(c, s', steps[1..], id, i);
      } else {
        CompletesOnce(c, s', steps[1..], id, i);
      }
    }
  }

  // ---- attempt accounting ----

  /** The stored attempt counter; an action without a row has made no attempt. */
  function Attempts(s: Sys, id: Id, i: nat): int {
    if id in s.db.rows && i < |s.db.rows[id].acts| then s.db.rows[id].acts[i].attempts else 0
  }

  predicate IsRunning(s: Sys, id: Id, i: nat) {
    id in s.db.rows && i < |s.db.rows[id].acts| && s.db.rows[id].acts[i].status.Running?
  }

  predicate IsDead(s: Sys, id: Id, i: nat) {
    id in s.db.rows && i < |s.db.rows[id].acts| && s.db.rows[id].acts[i].status.Dead?
  }

  predicate IsPending(s: Sys, id: Id, i: nat) {
    id in s.db.rows && i < |s.db.rows[id].acts| && s.db.rows[id].acts[i].status.Pending?
  }

  /**
    An observer's tally of one action over a run: one up for a dispatch, one down when a running attempt is rolled
    back to pending, zero when a dead action is reset by a replay or the event is purged.
   */
  function Tally(c: Config, s: Sys, steps: seq<Step>, id: Id, i: nat, n: int): int
    requires Legal(c, s, steps)
    decreases |steps|
  {
    if steps == [] then n
    else
      var s' := Do(c, s, steps[0]);
      var n' := if id !in s'.db.rows || (IsDead(s, id, i) && IsPending(s', id, i)) then 0
                else if Dispatches(s, steps[0], id, i) then n + 1
                else if IsRunning(s, id, i) && IsPending(s', id, i) then n - 1
                else n;
      Tally(c, s', steps[1..], id, i, n')
  }

  lemma AttemptsEffect(r: Row, e: Effect, i: nat)
    requires SoundRow(r) && Guard(r, e) && i < |r.acts|
    ensures i < |Apply(r, e).acts|
    ensures var a, b := r.acts[i], Apply(r, e).acts[i];
            b.attempts == if a.status.Dead? && b.status.Pending? then 0
                          else if e.Begin? && e.i == i then a.attempts + 1
                          else if a.status.Running? && b.status.Pending? then a.attempts - 1
                          else a.attempts
  {
  }

  lemma NewActsAreFresh(r: Row, e: Effect, i: nat)
    requires Guard(r, e) && |r.acts| <= i < |Apply(r, e).acts|
    ensures Apply(r, e).acts[i].attempts == 0
  {
  }

  lemma AttemptsStep(c: Config, s: Sys, step: Step, id: Id, i: nat)
    requires Sound(s) && Enabled(c, s, step)
    ensures var s' := Do(c, s, step);
            Attempts(s', id, i) ==
              if id !in s'.db.rows || (IsDead(s, id, i) && IsPending(s', id, i)) then 0
              else if Dispatches(s, step, id, i) then Attempts(s, id, i) + 1
              else if IsRunning(s, id, i) && IsPending(s', id, i) then Attempts(s, id, i) - 1
              else Attempts(s, id, i)
  {
    var s' := Do(c, s, step);
    if id in s.db.rows {
      EffectIsExact(c, s, step, id);
      var r, e := s.db.rows[id], EffectOn(c, s, step, id);
      if id in s'.db.rows {
        assert Dispatches(s, step, id, i) <==> e.Begin? && e.i == i;
        if i < |r.acts| {
          AttemptsEffect(r, e, i);
        } else if i < |s'.db.rows[id].acts| {
          NewActsAreFresh(r, e, i);
        }
      }
    } else if id in s'.db.rows {
      OnlyAcceptAdds(c, s, step, id);
    }
  }

  /** In every run the stored counter equals dispatches less rollbacks since the last reset. */
  lemma {:induction false} AttemptsAreCounted(c: Config, s: Sys, steps: seq<Step>, id: Id, i: nat)
    requires Sound(s) && Legal(c, s, steps)
    ensures Attempts(Exec(c, s, steps), id, i) == Tally(c, s, steps, id, i, Attempts(s, id, i))
    decreases |steps|
  {
    if steps != [] {
      SoundStep(c, s, steps[0]);
      AttemptsStep(c, s, steps[0], id, i);
      AttemptsAreCounted(c, Do(c, s, steps[0]), steps[1..], id, i);
    }
  }

  // ---- replays ----

  function Replays(steps: seq<Step>, id: Id): nat {
    if steps == [] then 0 else Replays(steps[1..], id) + if steps[0].Replay? && steps[0].id == id then 1 else 0
  }

  function LastReplay(steps: seq<Step>, id: Id, x: Option<int>): Option<int> {
    if steps == [] then x
    else LastReplay(steps[1..], id, if steps[0].Replay? && steps[0].id == id then Some(Ms(steps[0].now)) else x)
  }

  lemma ReplayEffect(r: Row, e: Effect)
    requires Guard(r, e)
    ensures var ev, ev' := r.ev, Apply(r, e).ev;
            && ev'.received == ev.received && ev'.plan == ev.plan
            && ev'.generation == ev.generation + (if e.Revive? then 1 else 0)
            && ev'.replayed == if e.Revive? then Some(Ms(e.now)) else ev.replayed
  {
  }

  lemma ReplayStep(c: Config, s: Sys, step: Step, id: Id)
    requires Enabled(c, s, step) && id in s.db.rows && id in Do(c, s, step).db.rows
    ensures var ev, ev' := s.db.rows[id].ev, Do(c, s, step).db.rows[id].ev;
            var replays := step.Replay? && step.id == id;
            && ev'.received == ev.received
            && ev'.generation == ev.generation + (if replays then 1 else 0)
            && ev'.replayed == if replays then Some(Ms(step.now)) else ev.replayed
  {
    EffectIsExact(c, s, step, id);
    ReplayEffect(s.db.rows[id], EffectOn(c, s, step, id));
  }

  /** The generation counts the replays, and the retry age runs from the last one, or else from the receive time. */
  lemma {:induction false} GenerationCountsReplays(c: Config, s: Sys, steps: seq<Step>, id: Id)
    requires Sound(s) && Legal(c, s, steps) && id in s.db.rows
    ensures var end := Exec(c, s, steps);
            id in end.db.rows ==>
              && end.db.rows[id].ev.generation == s.db.rows[id].ev.generation + Replays(steps, id)
              && end.db.rows[id].ev.Anchor() == LastReplay(steps, id, s.db.rows[id].ev.replayed).Or(s.db.rows[id].ev.received)
    decreases |steps|
  {
    if steps != [] {
      SoundStep(c, s, steps[0]);
      var s' := Do(c, s, steps[0]);
      if id in s'.db.rows {
        ReplayStep(c, s, steps[0], id);
        GenerationCountsReplays(c, s', steps[1..], id);
      } else {
        GoneStaysGone(c, s', steps[1..], id);
      }
    }
  }

  // ---- due times are kept ----

  predicate IsRetrying(s: Sys, id: Id, i: nat) {
    id in s.db.rows && i < |s.db.rows[id].acts| && s.db.rows[id].acts[i].status.Retrying?
  }

  /** The step gives action `i` of event `id` up because its retry age has passed. */
  predicate GivesUp(s: Sys, step: Step, id: Id, i: nat) {
    step.GiveUpOn? && step.w in s.passes && s.passes[step.w].id == id && s.passes[step.w].index == i
  }

  lemma RetryingEffect(r: Row, e: Effect, i: nat)
    requires Guard(r, e) && i < |r.acts| && r.acts[i].status.Retrying?
    requires !(e.Begin? && e.i == i) && !(e.Lapse? && e.i == i)
    ensures i < |Apply(r, e).acts| && Apply(r, e).acts[i] == r.acts[i]
  {
  }

  /**
    A waiting action keeps its row exactly until it is dispatched at or after its due time, given up, or purged:
    neither requeues, lease recovery, replays nor restarts move a due time.
   */
  lemma {:induction false} DueTimeIsKept(c: Config, s: Sys, steps: seq<Step>, id: Id, i: nat)
    requires Sound(s) && Legal(c, s, steps) && IsRetrying(s, id, i)
    ensures || (IsRetrying(Exec(c, s, steps), id, i) && Exec(c, s, steps).db.rows[id].acts[i] == s.db.rows[id].acts[i])
            || (exists k :: 0 <= k < |steps| && Leaves(c, s, steps, k, id, i))
    decreases |steps|
  {
    if steps != [] {
      var s' := Do(c, s, steps[0]);
      EffectIsExact(c, s, steps[0], id);
      var r, e := s.db.rows[id], EffectOn(c, s, steps[0], id);
      if e.Vanish? || (e.Begin? && e.i == i) || (e.Lapse? && e.i == i) {
        LeavesNow(c, s, steps, id, i);
      } else {
        SoundStep(c, s, steps[0]);
        RetryingEffect(r, e, i);
        DueTimeIsKept(c, s', steps[1..], id, i);
        if k :| 0 <= k < |steps[1..]| && Leaves(c, s', steps[1..], k, id, i) {
          LeavesLater(c, s, steps, k, id, i);
        }
      }
    }
  }

  lemma LeavesNow(c: Config, s: Sys, steps: seq<Step>, id: Id, i: nat)
    requires steps != [] && Legal(c, s, steps) && IsRetrying(s, id, i)
    requires var e := EffectOn(c, s, steps[0], id); e.Vanish? || (e.Begin? && e.i == i) || (e.Lapse? && e.i == i)
    ensures Leaves(c, s, steps, 0, id, i)
  {
  }

  lemma LeavesLater(c: Config, s: Sys, steps: seq<Step>, k: nat, id: Id, i: nat)
    requires steps != [] && Legal(c, s, steps) && IsRetrying(s, id, i)
    requires IsRetrying(Do(c, s, steps[0]), id, i) && Do(c, s, steps[0]).db.rows[id].acts[i] == s.db.rows[id].acts[i]
    requires Leaves(c, Do(c, s, steps[0]), steps[1..], k, id, i)
    ensures Leaves(c, s, steps, k + 1, id, i)
  {
    assert steps[..k + 1][1..] == steps[1..][..k];
  }

  /** At step `k` the action, unchanged since the start, is dispatched when due, given up, or purged with its event. */
  ghost predicate Leaves(c: Config, s: Sys, steps: seq<Step>, k: nat, id: Id, i: nat)
    requires IsRetrying(s, id, i)
  {
    && k < |steps| && Legal(c, s, steps[..k])
    && var at := Exec(c, s, steps[..k]);
    && Enabled(c, at, steps[k])
    && IsRetrying(at, id, i) && at.db.rows[id].acts[i] == s.db.rows[id].acts[i]
    && (|| (Dispatches(at, steps[k], id, i) && s.db.rows[id].acts[i].next.Or(0) <= Ms(steps[k].now))
        || GivesUp(at, steps[k], id, i)
        || id !in Do(c, at, steps[k]).db.rows)
  }

  // ---- one outcome per event ----

  /** What the payload accepted under this id is extracted to, in every pass. */
  function OutcomeOf(c: Config, s: Sys, id: Id): Extraction
    requires id in s.issued
  {
    c.extract(id, s.issued[id])
  }

  /** The row of an event accepted with payload `body`, whose extraction gives `x`. */
  predicate KnownRow(c: Config, body: string, x: Extraction, r: Row) {
    && body != "" && (r.ev.payload == "" || r.ev.payload == body) && (r.acts == [] || |r.acts| == r.ev.plan)
    && match x
       case Passed(vars) =>
         && (r.ev.vars == "" || r.ev.vars == c.encode(vars)) && (r.acts != [] || r.ev.payload == "" ==> r.ev.vars != "")
         && !r.ev.status.Skipped?
       case Rejected =>
         && r.ev.vars == "" && r.acts == [] && (r.ev.payload == "" ==> r.ev.status.Skipped?)
         && (r.ev.status.Pending? || r.ev.status.Processing? || r.ev.status.Skipped?)
       case RuleError =>
         && r.ev.vars == "" && r.acts == [] && r.ev.payload != ""
         && (r.ev.status.Pending? || r.ev.status.Processing? || r.ev.status.Dead?)
  }

  predicate KnownPass(c: Config, body: string, x: Extraction, p: Pass) {
    match p.phase
    case Claimed => if p.text == "" then p.payload == body else x.Passed? && p.text == c.encode(x.vars)
    case Clearing => x.Rejected?
    case Folding => x == Passed(p.vars) && p.read.total > 0
    case _ => x == Passed(p.vars)
  }

  ghost predicate Known(c: Config, s: Sys) {
    && Sound(s)
    && (forall id :: id in s.db.rows ==> KnownRow(c, s.issued[id], OutcomeOf(c, s, id), s.db.rows[id]))
    && (forall w :: w in s.passes ==> KnownIn(c, s, s.passes[w]))
  }

  ghost predicate KnownIn(c: Config, s: Sys, p: Pass) {
    && p.id in s.issued && s.issued[p.id] != "" && KnownPass(c, s.issued[p.id], OutcomeOf(c, s, p.id), p)
    && (p.phase.Clearing? && p.id in s.db.rows ==> s.db.rows[p.id].ev.status.Skipped?)
    && (p.id in s.db.rows ==> p.plan == s.db.rows[p.id].ev.plan)
  }

  /** What an effect owes to the outcome of its event, beyond its guard. */
  predicate KnownFits(c: Config, x: Extraction, r: Row, e: Effect) {
    match e
    case Fill(text, n, clear, now) => x.Passed? && text == c.encode(x.vars) && text != "" && n == r.ev.plan
    case Close(status, now) => if status.Skipped? then x.Rejected? else x.RuleError?
    case Wipe => x.Rejected? && r.ev.status.Skipped?
    case Fold(t, now) => x.Passed? && t.total > 0
    case _ => true
  }

  lemma KnownEffect(c: Config, body: string, x: Extraction, r: Row, e: Effect)
    requires KnownRow(c, body, x, r) && Guard(r, e) && KnownFits(c, x, r, e)
    ensures KnownRow(c, body, x, Apply(r, e))
    ensures r.ev.status.Skipped? ==> Apply(r, e).ev.status.Skipped?
  {
  }

  /** What a pass finds is the outcome of its event; stored variables decode to it. */
  lemma FindsTheOutcome(c: Config, s: Sys, w: Worker)
    requires c.RoundTrips() && Known(c, s) && w in s.passes && s.passes[w].phase.Claimed? && s.passes[w].id in s.db.rows
    ensures Finds(c, s.passes[w], RowOf(s, w)) == Calls(OutcomeOf(c, s, s.passes[w].id))
    ensures s.passes[w].text == "" ==> s.passes[w].payload != ""
  {
    var p, x := s.passes[w], OutcomeOf(c, s, s.passes[w].id);
    assert KnownIn(c, s, p);
    if p.text != "" {
      assert c.decode(c.encode(x.vars)) == Some(x.vars);
    }
  }

  lemma StepFitsOutcome(c: Config, s: Sys, step: Step, id: Id)
    requires c.RoundTrips() && Known(c, s) && Enabled(c, s, step) && id in s.db.rows
    ensures KnownFits(c, OutcomeOf(c, s, id), s.db.rows[id], EffectOn(c, s, step, id))
  {
    var actor := Actor(step);
    if actor.Some? && s.passes[actor.value].id == id {
      OwnFitsOutcome(c, s, step, actor.value);
    } else if actor.None? {
      OutsideFitsOutcome(c, s, step, id, OutcomeOf(c, s, id));
    }
  }

  lemma OwnFitsOutcome(c: Config, s: Sys, step: Step, w: Worker)
    requires c.RoundTrips() && Known(c, s) && Enabled(c, s, step) && Actor(step) == Some(w) && s.passes[w].id in s.db.rows
    ensures KnownFits(c, OutcomeOf(c, s, s.passes[w].id), RowOf(s, w), OwnEffect(c, s.passes[w], RowOf(s, w), step))
  {
    assert KnownIn(c, s, s.passes[w]);
    if s.passes[w].phase.Claimed? { FindsTheOutcome(c, s, w); }
    EnabledSuits(c, s, step, w);
    SuitedFits(c, s.passes[w], OutcomeOf(c, s, s.passes[w].id), RowOf(s, w), step);
  }

  /** What the steps that owe something to the outcome demand of the pass. */
  predicate Suits(c: Config, p: Pass, r: Row, step: Step) {
    match step
    case Fail(_, _) => p.phase.Claimed? && Finds(c, p, r).Unusable?
    case Skip(_, _, _) => p.phase.Claimed? && Finds(c, p, r).Unwanted?
    case Prepare(_, vars, _, _) => p.phase.Claimed? && Finds(c, p, r) == Proceed(vars)
    case Clear(_) => p.phase.Clearing?
    case Refresh(_) => p.phase.Folding?
    case _ => true
  }

  lemma EnabledSuits(c: Config, s: Sys, step: Step, w: Worker)
    requires Enabled(c, s, step) && Actor(step) == Some(w) && s.passes[w].id in s.db.rows
    ensures Suits(c, s.passes[w], RowOf(s, w), step)
  {
  }

  lemma SuitedFits(c: Config, p: Pass, x: Extraction, r: Row, step: Step)
    requires c.RoundTrips() && Suits(c, p, r, step)
    requires p.phase.Claimed? ==> Finds(c, p, r) == Calls(x)
    requires p.phase.Clearing? ==> x.Rejected? && r.ev.status.Skipped?
    requires p.phase.Folding? ==> x.Passed? && p.read.total > 0
    requires p.plan == r.ev.plan
    ensures KnownFits(c, x, r, OwnEffect(c, p, r, step))
  {
    if step.Prepare? { assert c.encode(step.vars) != ""; }
  }

  lemma OutsideFitsOutcome(c: Config, s: Sys, step: Step, id: Id, x: Extraction)
    requires Enabled(c, s, step) && id in s.db.rows && Actor(step).None?
    ensures KnownFits(c, x, s.db.rows[id], EffectOn(c, s, step, id))
  {
  }

  lemma KnownRows(c: Config, s: Sys, step: Step, id: Id)
    requires c.RoundTrips() && Known(c, s) && Enabled(c, s, step) && id in Do(c, s, step).db.rows
    ensures id in Do(c, s, step).issued
    ensures KnownRow(c, Do(c, s, step).issued[id], OutcomeOf(c, Do(c, s, step), id), Do(c, s, step).db.rows[id])
    ensures id in s.db.rows && s.db.rows[id].ev.status.Skipped? ==> Do(c, s, step).db.rows[id].ev.status.Skipped?
  {
    SoundStep(c, s, step);
    if id in s.db.rows {
      EffectIsExact(c, s, step, id);
      StepFitsOutcome(c, s, step, id);
      KnownEffect(c, s.issued[id], OutcomeOf(c, s, id), s.db.rows[id], EffectOn(c, s, step, id));
    } else {
      OnlyAcceptAdds(c, s, step, id);
    }
  }

  /** Which passes a step changes: its actor's, a new claimer's, and at a crash all of them. */
  lemma PassesStep(c: Config, s: Sys, step: Step, w: Worker)
    requires Enabled(c, s, step) && w in Do(c, s, step).passes
    ensures Actor(step) == Some(w) || (step.Claim? && step.w == w) || (w in s.passes && Do(c, s, step).passes[w] == s.passes[w])
    ensures w in s.passes || (step.Claim? && step.w == w)
    ensures s.clock <= Do(c, s, step).clock && !step.Crash?
  {
  }

  /** How a step moves its own pass on. */
  lemma ActorMoves(c: Config, s: Sys, step: Step, w: Worker)
    requires Enabled(c, s, step) && Actor(step) == Some(w) && w in Do(c, s, step).passes
    ensures var p, p' := s.passes[w], Do(c, s, step).passes[w];
            && p'.id == p.id
            && if step.Skip? then
                 && p.phase.Claimed? && p'.phase.Clearing? && p.id in s.db.rows && Finds(c, p, RowOf(s, w)).Unwanted?
                 && Do(c, s, step).db.rows[p.id].ev.status.Skipped?
               else if step.Prepare? then
                 p.phase.Claimed? && p'.phase.Prepared? && p.id in s.db.rows && Finds(c, p, RowOf(s, w)) == Proceed(p'.vars)
               else
                 && p'.vars == p.vars && !p.phase.Claimed? && !p.phase.Clearing? && !p'.phase.Claimed? && !p'.phase.Clearing?
                 && (p'.phase.Folding? ==> p.id in s.db.rows && RowOf(s, w).acts != [] && p'.read == TotalsOf(RowOf(s, w).acts))
    ensures Do(c, s, step).issued == s.issued && Do(c, s, step).passes[w].plan == s.passes[w].plan
    ensures Do(c, s, step).passes[w].phase.Folding? ==> step.Scan? && Do(c, s, step).db == s.db
  {
  }

  lemma KnownActor(c: Config, s: Sys, step: Step, w: Worker)
    requires c.RoundTrips() && Known(c, s) && Enabled(c, s, step) && Actor(step) == Some(w) && w in Do(c, s, step).passes
    ensures KnownIn(c, Do(c, s, step), Do(c, s, step).passes[w])
  {
    assert KnownIn(c, s, s.passes[w]);
    ActorMoves(c, s, step, w);
    if s.passes[w].id in s.db.rows && s.passes[w].id in Do(c, s, step).db.rows { IdentityStep(c, s, step, s.passes[w].id); }
    if s.passes[w].phase.Claimed? { FindsTheOutcome(c, s, w); }
  }

  lemma KnownOther(c: Config, s: Sys, step: Step, w: Worker)
    requires c.RoundTrips() && Known(c, s) && Enabled(c, s, step) && w in s.passes
    requires w in Do(c, s, step).passes && Do(c, s, step).passes[w] == s.passes[w]
    ensures KnownIn(c, Do(c, s, step), Do(c, s, step).passes[w])
  {
    var p, s' := s.passes[w], Do(c, s, step);
    assert KnownIn(c, s, p);
    SoundStep(c, s, step);
    if p.id in s'.db.rows {
      if p.id in s.db.rows { KnownRows(c, s, step, p.id); IdentityStep(c, s, step, p.id); } else { OnlyAcceptAdds(c, s, step, p.id); }
    }
  }

  lemma KnownClaimer(c: Config, s: Sys, step: Step)
    requires c.RoundTrips() && Known(c, s) && Enabled(c, s, step) && step.Claim?
    ensures KnownIn(c, Do(c, s, step), Do(c, s, step).passes[step.w])
  {
    assert KnownRow(c, s.issued[step.id], OutcomeOf(c, s, step.id), s.db.rows[step.id]);
  }

  lemma KnownStep(c: Config, s: Sys, step: Step)
    requires c.RoundTrips() && Known(c, s) && Enabled(c, s, step)
    ensures Known(c, Do(c, s, step))
  {
    var s' := Do(c, s, step);
    SoundStep(c, s, step);
    forall id | id in s'.db.rows ensures KnownRow(c, s'.issued[id], OutcomeOf(c, s', id), s'.db.rows[id]) {
      KnownRows(c, s, step, id);
    }
    forall w | w in s'.passes ensures KnownIn(c, s', s'.passes[w]) {
      PassesStep(c, s, step, w);
      if step.Claim? && step.w == w {
        KnownClaimer(c, s, step);
      } else if Actor(step) == Some(w) {
        KnownActor(c, s, step, w);
      } else {
        KnownOther(c, s, step, w);
      }
    }
  }

  lemma {:induction false} KnownRun(c: Config, s: Sys, steps: seq<Step>)
    requires c.RoundTrips() && Known(c, s) && Legal(c, s, steps)
    ensures Known(c, Exec(c, s, steps)) && Extends(s, Exec(c, s, steps))
    decreases |steps|
  {
    if steps != [] {
      KnownStep(c, s, steps[0]);
      SoundStep(c, s, steps[0]);
      KnownRun(c, Do(c, s, steps[0]), steps[1..]);
    }
  }

  // ---- stable variables and replay input ----

  /**
    In every run, every dispatch of an event receives the variables its accepted payload is extracted to: in any attempt,
    replay generation, pass after a crash, or pass that has lost its lease.
   */
  lemma DispatchesSeeOneExtraction(c: Config, clock: int, steps: seq<Step>, w: Worker, now: int)
    requires c.RoundTrips() && Legal(c, Init(clock), steps) && Enabled(c, Exec(c, Init(clock), steps), Start(w, now))
    ensures var s := Exec(c, Init(clock), steps);
            s.passes[w].id in s.issued && OutcomeOf(c, s, s.passes[w].id) == Passed(s.passes[w].vars)
  {
    KnownRun(c, Init(clock), steps);
    assert KnownIn(c, Exec(c, Init(clock), steps), Exec(c, Init(clock), steps).passes[w]);
  }

  /** Once variables are stored they never change: every PrepareEvent of the event writes the same ones. */
  lemma {:induction false} StoredVarsAreFinal(c: Config, s: Sys, steps: seq<Step>, id: Id)
    requires c.RoundTrips() && Known(c, s) && Legal(c, s, steps) && id in s.db.rows && s.db.rows[id].ev.vars != ""
    ensures id in Exec(c, s, steps).db.rows ==> Exec(c, s, steps).db.rows[id].ev.vars == s.db.rows[id].ev.vars
    decreases |steps|
  {
    if steps != [] {
      var s' := Do(c, s, steps[0]);
      KnownStep(c, s, steps[0]);
      SoundStep(c, s, steps[0]);
      if id in s'.db.rows {
        VarsStep(c, s, steps[0], id);
        StoredVarsAreFinal(c, s', steps[1..], id);
      } else {
        GoneStaysGone(c, s', steps[1..], id);
      }
    }
  }

  lemma VarsStep(c: Config, s: Sys, step: Step, id: Id)
    requires c.RoundTrips() && Known(c, s) && Enabled(c, s, step)
    requires id in s.db.rows && s.db.rows[id].ev.vars != "" && id in Do(c, s, step).db.rows
    ensures Do(c, s, step).db.rows[id].ev.vars == s.db.rows[id].ev.vars
  {
    EffectIsExact(c, s, step, id);
    StepFitsOutcome(c, s, step, id);
  }

  /**
    Whatever the first committed PrepareEvent stored is what every later dispatch of the event receives.
   */
  lemma DispatchesSeeTheFirstVariables(c: Config, s: Sys, w: Worker, vars: Vars, clear: bool, now: int,
                                       steps: seq<Step>, v: Worker, later: int)
    requires c.RoundTrips() && Known(c, s) && Enabled(c, s, Prepare(w, vars, clear, now))
    requires Legal(c, Do(c, s, Prepare(w, vars, clear, now)), steps)
    requires var end := Exec(c, Do(c, s, Prepare(w, vars, clear, now)), steps);
             Enabled(c, end, Start(v, later)) && end.passes[v].id == s.passes[w].id
    ensures Exec(c, Do(c, s, Prepare(w, vars, clear, now)), steps).passes[v].vars == vars
  {
    var first := Prepare(w, vars, clear, now);
    var s1 := Do(c, s, first);
    FindsTheOutcome(c, s, w);
    KnownStep(c, s, first);
    SoundStep(c, s, first);
    KnownRun(c, s1, steps);
    var end := Exec(c, s1, steps);
    assert KnownIn(c, end, end.passes[v]);
  }

  /** Every event that was not skipped keeps a payload or variables, so a dead event can always be replayed. */
  lemma DeadEventsCanBeReplayed(c: Config, clock: int, steps: seq<Step>, id: Id, reason: string)
    requires c.RoundTrips() && Legal(c, Init(clock), steps)
    ensures var s := Exec(c, Init(clock), steps);
            && (id in s.db.rows && !s.db.rows[id].ev.status.Skipped? ==>
                  s.db.rows[id].ev.payload != "" || s.db.rows[id].ev.vars != "")
            && (s.up && id in s.db.rows && s.db.rows[id].ev.status.Dead? ==> Enabled(c, s, Replay(id, reason, s.clock)))
  {
    KnownRun(c, Init(clock), steps);
    var s := Exec(c, Init(clock), steps);
    if id in s.db.rows {
      assert KnownRow(c, s.issued[id], OutcomeOf(c, s, id), s.db.rows[id]);
    }
  }

  /** An event is skipped, or dead without action rows, only if that is what its payload calls for. */
  lemma EventsEndAsExtracted(c: Config, clock: int, steps: seq<Step>, id: Id)
    requires c.RoundTrips() && Legal(c, Init(clock), steps) && id in Exec(c, Init(clock), steps).db.rows
    ensures var s := Exec(c, Init(clock), steps);
            && id in s.issued
            && (s.db.rows[id].ev.status.Skipped? ==> OutcomeOf(c, s, id).Rejected?)
            && (s.db.rows[id].acts != [] || s.db.rows[id].ev.vars != "" ==> OutcomeOf(c, s, id).Passed?)
            && (s.db.rows[id].ev.status.Dead? ==> !OutcomeOf(c, s, id).Rejected?)
  {
    KnownRun(c, Init(clock), steps);
    var s := Exec(c, Init(clock), steps);
    assert KnownRow(c, s.issued[id], OutcomeOf(c, s, id), s.db.rows[id]);
  }

  // ---- terminal events ----

  predicate AllFinal(acts: seq<Action>) {
    forall i :: 0 <= i < |acts| ==> acts[i].status.Done? || acts[i].status.Dead?
  }

  /** A terminal event has no action left to run. */
  predicate FinalRow(r: Row) {
    r.ev.status.Terminal() ==> AllFinal(r.acts)
  }

  /** The step is not a fold of totals that no longer hold. */
  predicate FreshFold(s: Sys, step: Step) {
    step.Refresh? && step.w in s.passes && s.passes[step.w].id in s.db.rows ==>
      s.passes[step.w].read == TotalsOf(RowOf(s, step.w).acts)
  }

  /** Between the query and the update of every RefreshEventStatus in the run, its event's totals did not change. */
  ghost predicate FreshFolds(c: Config, s: Sys, steps: seq<Step>)
    requires Legal(c, s, steps)
    decreases |steps|
  {
    steps == [] || (FreshFold(s, steps[0]) && FreshFolds(c, Do(c, s, steps[0]), steps[1..]))
  }

  ghost predicate AllRowsFinal(s: Sys) {
    forall id :: id in s.db.rows ==> FinalRow(s.db.rows[id])
  }

  lemma FinalEffect(c: Config, body: string, x: Extraction, r: Row, e: Effect)
    requires KnownRow(c, body, x, r) && Guard(r, e) && KnownFits(c, x, r, e) && FinalRow(r)
    requires e.Fold? ==> e.t == TotalsOf(r.acts)
    ensures FinalRow(Apply(r, e))
  {
    if e.Fold? { VerdictMeaning(r.acts); }
  }

  lemma FinalStep(c: Config, s: Sys, step: Step)
    requires c.RoundTrips() && Known(c, s) && Enabled(c, s, step) && FreshFold(s, step) && AllRowsFinal(s)
    ensures AllRowsFinal(Do(c, s, step))
  {
    forall id | id in Do(c, s, step).db.rows ensures FinalRow(Do(c, s, step).db.rows[id]) {
      if id in s.db.rows {
        EffectIsExact(c, s, step, id);
        StepFitsOutcome(c, s, step, id);
        FinalEffect(c, s.issued[id], OutcomeOf(c, s, id), s.db.rows[id], EffectOn(c, s, step, id));
      } else {
        OnlyAcceptAdds(c, s, step, id);
      }
    }
  }

  /** With fresh folds, and whether or not workers outlive their leases, a terminal event has only done or dead actions. */
  lemma {:induction false} TerminalIsFinal(c: Config, s: Sys, steps: seq<Step>)
    requires c.RoundTrips() && Known(c, s) && AllRowsFinal(s) && Legal(c, s, steps) && FreshFolds(c, s, steps)
    ensures AllRowsFinal(Exec(c, s, steps)) && Known(c, Exec(c, s, steps))
    decreases |steps|
  {
    if steps != [] {
      KnownStep(c, s, steps[0]);
      FinalStep(c, s, steps[0]);
      TerminalIsFinal(c, Do(c, s, steps[0]), steps[1..]);
    }
  }

  // ---- done events ----

  predicate Fulfilled(acts: seq<Action>) {
    acts != [] && forall i :: 0 <= i < |acts| ==> acts[i].status.Done?
  }

  /** Done events have done all their actions, and so has the event of a pass that has read so, whatever happened since. */
  ghost predicate Whole(s: Sys) {
    && (forall id :: id in s.db.rows && s.db.rows[id].ev.status.Done? ==> Fulfilled(s.db.rows[id].acts))
    && (forall w :: w in s.passes ==> WholePass(s, s.passes[w]))
  }

  ghost predicate WholePass(s: Sys, p: Pass) {
    p.phase.Folding? && p.id in s.db.rows && Verdict(p.read).Done? ==> Fulfilled(s.db.rows[p.id].acts)
  }

  lemma FulfilledEffect(c: Config, body: string, x: Extraction, r: Row, e: Effect)
    requires KnownRow(c, body, x, r) && Guard(r, e) && KnownFits(c, x, r, e)
    ensures Fulfilled(r.acts) ==> Fulfilled(Apply(r, e).acts)
    ensures Apply(r, e).ev.status.Done? ==> r.ev.status.Done? || (e.Fold? && Verdict(e.t).Done?)
  {
  }

  lemma WholeRows(c: Config, s: Sys, step: Step, id: Id)
    requires c.RoundTrips() && Known(c, s) && Enabled(c, s, step) && Whole(s) && id in Do(c, s, step).db.rows
    ensures id in s.db.rows && Fulfilled(s.db.rows[id].acts) ==> Fulfilled(Do(c, s, step).db.rows[id].acts)
    ensures Do(c, s, step).db.rows[id].ev.status.Done? ==> Fulfilled(Do(c, s, step).db.rows[id].acts)
  {
    if id in s.db.rows {
      EffectIsExact(c, s, step, id);
      StepFitsOutcome(c, s, step, id);
      FulfilledEffect(c, s.issued[id], OutcomeOf(c, s, id), s.db.rows[id], EffectOn(c, s, step, id));
    } else {
      OnlyAcceptAdds(c, s, step, id);
    }
  }

  lemma WholeStep(c: Config, s: Sys, step: Step)
    requires c.RoundTrips() && Known(c, s) && Enabled(c, s, step) && Whole(s)
    ensures Whole(Do(c, s, step))
  {
    var s' := Do(c, s, step);
    forall id | id in s'.db.rows && s'.db.rows[id].ev.status.Done? ensures Fulfilled(s'.db.rows[id].acts) {
      WholeRows(c, s, step, id);
    }
    forall w | w in s'.passes && s'.passes[w].phase.Folding? ensures WholePass(s', s'.passes[w]) {
      var p := s'.passes[w];
      if w in s.passes && p == s.passes[w] {
        assert KnownIn(c, s, p) && WholePass(s, p);
        if p.id in s'.db.rows {
          if p.id in s.db.rows { WholeRows(c, s, step, p.id); } else { OnlyAcceptAdds(c, s, step, p.id); }
        }
      } else {
        PassesStep(c, s, step, w);
        ActorMoves(c, s, step, w);
        VerdictMeaning(s.db.rows[p.id].acts);
      }
    }
  }

  lemma {:induction false} WholeRun(c: Config, s: Sys, steps: seq<Step>)
    requires c.RoundTrips() && Known(c, s) && Whole(s) && Legal(c, s, steps)
    ensures Whole(Exec(c, s, steps)) && Known(c, Exec(c, s, steps))
    decreases |steps|
  {
    if steps != [] {
      KnownStep(c, s, steps[0]);
      WholeStep(c, s, steps[0]);
      WholeRun(c, Do(c, s, steps[0]), steps[1..]);
    }
  }

  /**
    In every run from the empty store: if a request is accepted and its event is done in the end, the event has one action
    row for each action of the request's snapshot, and all of them are done.
   */
  lemma DoneMeansTheWholePlan(c: Config, clock: int, before: seq<Step>, req: Request, steps: seq<Step>)
    requires c.RoundTrips() && Legal(c, Init(clock), before)
    requires Enabled(c, Exec(c, Init(clock), before), Accept(req)) && SaveOutcome(Exec(c, Init(clock), before).db, req).Saved?
    requires Legal(c, Do(c, Exec(c, Init(clock), before), Accept(req)), steps)
    ensures var end := Exec(c, Do(c, Exec(c, Init(clock), before), Accept(req)), steps);
            req.id in end.db.rows && end.db.rows[req.id].ev.status == EventStatus.Done ==>
              && |end.db.rows[req.id].acts| == req.plan
              && forall i :: 0 <= i < req.plan ==> end.db.rows[req.id].acts[i].status == ActionStatus.Done
  {
    WholeRun(c, Init(clock), before);
    var s := Exec(c, Init(clock), before);
    var s0 := Do(c, s, Accept(req));
    AcceptStores(c, s, req);
    KnownStep(c, s, Accept(req));
    WholeStep(c, s, Accept(req));
    WholeRun(c, s0, steps);
    var end := Exec(c, s0, steps);
    if req.id in end.db.rows {
      IdentityIsKept(c, s0, steps, req.id);
      assert KnownRow(c, end.issued[req.id], OutcomeOf(c, end, req.id), end.db.rows[req.id]);
    }
  }
}
