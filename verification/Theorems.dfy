/** The properties of whole runs: with current leases, and, for startup recovery, without. */
module Theorems {
  import opened Wrappers
  import opened Rows
  import opened Tables
  import opened Protocol
  import opened Backoff
  import opened Effects
  import opened Always
  import opened Exclusive

  /** The empty store before its first startup recovery, at any time since the epoch. */
  lemma InitIsSafe(c: Config, clock: int)
    requires clock >= 0
    ensures Safe(c, Init(clock))
  {
  }

  /** The invariant holds at the end of every run, whatever the interleaving, crashes and replays. */
  lemma {:induction false} SafeRun(c: Config, s: Sys, steps: seq<Step>)
    requires c.RoundTrips() && Safe(c, s) && Legal(c, s, steps) && TimelyRun(c, s, steps)
    ensures Safe(c, Exec(c, s, steps)) && Timely(Exec(c, s, steps))
    decreases |steps|
  {
    if steps != [] {
      SafeStep(c, s, steps[0]);
      SafeRun(c, Do(c, s, steps[0]), steps[1..]);
    }
  }

  /** No event has two active workers, and a running action sits under a processing event. */
  lemma OneWorkerPerEvent(c: Config, clock: int, steps: seq<Step>)
    requires c.RoundTrips() && clock >= 0 && Legal(c, Init(clock), steps) && TimelyRun(c, Init(clock), steps)
    ensures var s := Exec(c, Init(clock), steps);
            && (forall v, w | v in s.passes && w in s.passes && s.passes[v].Owns() && s.passes[w].Owns() ::
                  s.passes[v].id == s.passes[w].id ==> v == w)
            && (forall w :: w in s.passes && s.passes[w].Owns() ==>
                  s.passes[w].id in s.db.rows && RowOf(s, w).ev.status.Processing?)
            && (forall id, i: nat :: IsRunning(s, id, i) ==> s.db.rows[id].ev.status.Processing?)
  {
    InitIsSafe(c, clock);
    SafeRun(c, Init(clock), steps);
    var s := Exec(c, Init(clock), steps);
    forall w | w in s.passes && s.passes[w].Owns()
      ensures s.passes[w].id in s.db.rows && RowOf(s, w).ev.status.Processing?
    {
      assert PassOk(c, s, s.passes[w]);
    }
    forall id, i: nat | IsRunning(s, id, i) ensures s.db.rows[id].ev.status.Processing? {
      assert RowInv(c, s.clock, s.db.rows[id]);
    }
  }

  /** The action states a pass read once are still exact for every index it has not reached. */
  lemma ListedStatesStayExact(c: Config, s: Sys, w: Worker)
    requires Safe(c, s) && w in s.passes && (s.passes[w].phase.Walking? || s.passes[w].phase.InFlight?)
    ensures s.passes[w].id in s.db.rows && |RowOf(s, w).acts| == |s.passes[w].states|
    ensures forall j :: s.passes[w].index < j < |s.passes[w].states| ==> RowOf(s, w).acts[j] == s.passes[w].states[j]
    ensures s.passes[w].phase.Walking? && s.passes[w].index < |s.passes[w].states| ==>
              RowOf(s, w).acts[s.passes[w].index] == s.passes[w].states[s.passes[w].index]
  {
    assert PassOk(c, s, s.passes[w]);
  }

  // ---- who started a running action ----

  /** The worker that claimed the event last in the run, or `h` if none did. */
  function LastClaimer(steps: seq<Step>, id: Id, h: Option<Worker>): Option<Worker> {
    if steps == [] then h
    else LastClaimer(steps[1..], id, if steps[0].Claim? && steps[0].id == id then Some(steps[0].w) else h)
  }

  /** The worker that dispatched the action last in the run, or `x` if none did. */
  function LastStarter(c: Config, s: Sys, steps: seq<Step>, id: Id, i: nat, x: Option<Worker>): Option<Worker>
    requires Legal(c, s, steps)
    decreases |steps|
  {
    if steps == [] then x
    else LastStarter(c, Do(c, s, steps[0]), steps[1..], id, i, if Dispatches(s, steps[0], id, i) then Some(steps[0].w) else x)
  }

  ghost predicate HeldBy(s: Sys, id: Id, i: nat, h: Option<Worker>, x: Option<Worker>) {
    && (forall w :: w in s.passes && s.passes[w].Owns() && s.passes[w].id == id ==> h == Some(w))
    && (IsRunning(s, id, i) ==> x.Some? && x == h)
  }

  lemma RunsOnlyByStart(r: Row, e: Effect, i: nat)
    requires Guard(r, e) && i < |Apply(r, e).acts| && Apply(r, e).acts[i].status.Running? && !(e.Begin? && e.i == i)
    ensures i < |r.acts| && r.acts[i].status.Running? && !e.Take?
  {
  }

  lemma OwnersStep(c: Config, s: Sys, step: Step, w: Worker)
    requires c.RoundTrips() && Safe(c, s) && Timely(s) && Enabled(c, s, step)
    requires w in Do(c, s, step).passes && Do(c, s, step).passes[w].Owns()
    ensures (step.Claim? && step.id == Do(c, s, step).passes[w].id && step.w == w)
            || (w in s.passes && s.passes[w].Owns() && s.passes[w].id == Do(c, s, step).passes[w].id)
    ensures step.Claim? && step.id == Do(c, s, step).passes[w].id ==> step.w == w
  {
    PassesStep(c, s, step, w);
    if Actor(step) == Some(w) { OwnStepKeeps(c, s, step, w); }
    if step.Claim? { ClaimerOk(c, s, step); }
  }

  lemma RunningStep(c: Config, s: Sys, step: Step, id: Id, i: nat)
    requires Enabled(c, s, step) && IsRunning(Do(c, s, step), id, i) && !Dispatches(s, step, id, i)
    ensures IsRunning(s, id, i) && !(step.Claim? && step.id == id)
  {
    if id in s.db.rows {
      EffectIsExact(c, s, step, id);
      RunsOnlyByStart(s.db.rows[id], EffectOn(c, s, step, id), i);
    } else {
      OnlyAcceptAdds(c, s, step, id);
    }
  }

  lemma HeldStep(c: Config, s: Sys, step: Step, id: Id, i: nat, h: Option<Worker>, x: Option<Worker>)
    requires c.RoundTrips() && Safe(c, s) && Timely(s) && Enabled(c, s, step) && HeldBy(s, id, i, h, x)
    ensures HeldBy(Do(c, s, step), id, i,
                   if step.Claim? && step.id == id then Some(step.w) else h,
                   if Dispatches(s, step, id, i) then Some(step.w) else x)
  {
    var s' := Do(c, s, step);
    var h' := if step.Claim? && step.id == id then Some(step.w) else h;
    forall w | w in s'.passes && s'.passes[w].Owns() && s'.passes[w].id == id ensures h' == Some(w) {
      OwnersStep(c, s, step, w);
    }
    if IsRunning(s', id, i) {
      if Dispatches(s, step, id, i) {
        assert PassOk(c, s, s.passes[step.w]);
      } else {
        RunningStep(c, s, step, id, i);
      }
    }
  }

  lemma {:induction false} HeldRun(c: Config, s: Sys, steps: seq<Step>, id: Id, i: nat, h: Option<Worker>, x: Option<Worker>)
    requires c.RoundTrips() && Safe(c, s) && Legal(c, s, steps) && TimelyRun(c, s, steps) && HeldBy(s, id, i, h, x)
    ensures HeldBy(Exec(c, s, steps), id, i, LastClaimer(steps, id, h), LastStarter(c, s, steps, id, i, x))
    decreases |steps|
  {
    if steps != [] {
      SafeStep(c, s, steps[0]);
      HeldStep(c, s, steps[0], id, i, h, x);
      HeldRun(c, Do(c, s, steps[0]), steps[1..], id, i,
              if steps[0].Claim? && steps[0].id == id then Some(steps[0].w) else h,
              if Dispatches(s, steps[0], id, i) then Some(steps[0].w) else x);
    }
  }

  /** An action running at the end of a run was dispatched last by the worker that claimed its event last. */
  lemma RunningStartedByLastClaimer(c: Config, clock: int, steps: seq<Step>, id: Id, i: nat)
    requires c.RoundTrips() && clock >= 0 && Legal(c, Init(clock), steps) && TimelyRun(c, Init(clock), steps)
    requires IsRunning(Exec(c, Init(clock), steps), id, i)
    ensures LastStarter(c, Init(clock), steps, id, i, None).Some?
    ensures LastStarter(c, Init(clock), steps, id, i, None) == LastClaimer(steps, id, None)
  {
    InitIsSafe(c, clock);
    HeldRun(c, Init(clock), steps, id, i, None, None);
  }

  // ---- dispatch ----

  /** Every dispatch happens when due, before the retry deadline, and within the attempt limit. */
  lemma DispatchIsLawful(c: Config, s: Sys, w: Worker, now: int)
    requires Safe(c, s) && Enabled(c, s, Start(w, now))
    ensures var p := s.passes[w];
            var r := RowOf(s, w);
            var a := r.acts[p.index];
            && a.next.Or(0) <= Ms(now) && now - r.ev.Anchor() * NS_PER_MS < c.maxAge
            && a.status.Unfinished() && a.attempts <= c.maxRetries
            && Do(c, s, Start(w, now)).db.rows[p.id].acts[p.index].attempts == a.attempts + 1 <= c.maxRetries + 1
            && (forall j :: 0 <= j < |r.acts| ==> !r.acts[j].status.Running?)
  {
    assert PassOk(c, s, s.passes[w]);
  }

  /**
    At a loop position a pass takes the branch that the stored row calls for, although it read the row earlier and
    others have been at work since.
   */
  lemma BranchesFollowTheStore(c: Config, s: Sys, w: Worker, now: int)
    requires Safe(c, s) && Acts(s, w, Walking, now) && s.passes[w].index < s.passes[w].plan
    ensures s.passes[w].index < |RowOf(s, w).acts|
    ensures var a := RowOf(s, w).acts[s.passes[w].index];
            var late := now - RowOf(s, w).ev.Anchor() * NS_PER_MS >= c.maxAge;
            && (Enabled(c, s, GiveUpOn(w, now)) <==> a.status.Unfinished() && late)
            && (Enabled(c, s, Start(w, now)) <==> a.status.Unfinished() && !late && a.next.Or(0) <= Ms(now))
            && (Enabled(c, s, Over(w, now)) <==>
                  a.status.Done? || a.status.Dead? || (a.status.Retrying? && !late && a.next.Or(0) > Ms(now)))
            && !Enabled(c, s, Miss(w, now))
  {
    assert PassOk(c, s, s.passes[w]);
    MsFacts(s.passes[w].seen, now);
  }

  function Delay(answer: Answer): int
    requires answer.Transient?
  {
    if answer.retryAfter > 0 then answer.retryAfter else answer.jitter
  }

  /**
    What an answer makes of the stored row: done exactly on success; retrying exactly when the failure is transient,
    an attempt is left and the delay ends before the deadline; dead otherwise. The attempt stays counted.
   */
  lemma AnswersDecide(c: Config, s: Sys, w: Worker, answer: Answer, decided: int, now: int)
    requires Safe(c, s) && Enabled(c, s, Finish(w, answer, decided, now))
    ensures var r, i := RowOf(s, w), s.passes[w].index;
            var a, b := r.acts[i], Do(c, s, Finish(w, answer, decided, now)).db.rows[s.passes[w].id].acts[i];
            && b.attempts == a.attempts
            && (b.status.Done? <==> answer.Success?)
            && (b.status.Retrying? <==>
                  && answer.Transient? && a.attempts <= c.maxRetries
                  && decided + Delay(answer) - r.ev.Anchor() * NS_PER_MS < c.maxAge)
            && (b.status.Done? || b.status.Retrying? || b.status.Dead?)
            && (b.status.Retrying? ==> b.next == Some(Ms(decided + Delay(answer))))
            && (b.status.Retrying? && answer.retryAfter == 0 ==>
                  Ms(decided) <= b.next.value <= Ms(decided + RetryCap(c.retryBase, c.maxDelay, a.attempts)))
  {
    assert PassOk(c, s, s.passes[w]);
    if answer.Transient? {
      MsFacts(decided, decided + Delay(answer));
      MsFacts(decided + answer.jitter, decided + RetryCap(c.retryBase, c.maxDelay, s.passes[w].attempt));
    }
  }

  /** A lease taken or renewed at `now` is expired exactly after its full length, to the millisecond. */
  lemma LeaseEndsOnTime(c: Config, s: Sys, step: Step, t: int)
    requires Enabled(c, s, step) && (step.Claim? || step.Renew?)
    ensures var end := step.now + EffectiveLease(step.lease);
            var ev := Do(c, s, step).db.rows[step.id].ev;
            && (t <= end ==> !LeaseExpired(ev, Ms(t)))
            && (t >= end + NS_PER_MS ==> LeaseExpired(ev, Ms(t)) && Claimable(ev, Ms(t)))
  {
  }

  /** A stored retry lies strictly before the deadline, and pending or waiting rows keep an attempt in hand. */
  lemma RowsStayWithinLimits(c: Config, clock: int, steps: seq<Step>, id: Id, i: nat)
    requires c.RoundTrips() && clock >= 0 && Legal(c, Init(clock), steps) && TimelyRun(c, Init(clock), steps)
    requires var s := Exec(c, Init(clock), steps); id in s.db.rows && i < |s.db.rows[id].acts|
    ensures var s := Exec(c, Init(clock), steps);
            var a := s.db.rows[id].acts[i];
            && a.attempts <= c.maxRetries + 1
            && (a.status.Pending? || a.status.Retrying? ==> a.attempts <= c.maxRetries)
            && (a.status.Retrying? ==>
                  && a.next.Some?
                  && a.next.value * NS_PER_MS - s.db.rows[id].ev.Anchor() * NS_PER_MS < c.maxAge)
  {
    InitIsSafe(c, clock);
    SafeRun(c, Init(clock), steps);
    assert RowInv(c, Exec(c, Init(clock), steps).clock, Exec(c, Init(clock), steps).db.rows[id]);
  }

  // ---- claims ----

  /**
    When a stored event can be claimed: at once if it is pending, as soon as one of its waiting actions is due if it is
    retrying, one millisecond after its lease if it is processing, and never once it has ended.
   */
  lemma ClaimableExactly(c: Config, s: Sys, id: Id, now: int)
    requires Safe(c, s) && id in s.db.rows
    ensures var r := s.db.rows[id];
            Claimable(r.ev, Ms(now)) <==>
              match r.ev.status
              case Pending => true
              case Retrying => SomeDue(r.acts, Ms(now))
              case Processing => r.ev.leaseUntil.Some? && r.ev.leaseUntil.value < Ms(now)
              case _ => false
  {
    var r := s.db.rows[id];
    assert RowInv(c, s.clock, r);
    if r.ev.status.Retrying? {
      assert forall i :: 0 <= i < |r.acts| ==> ActInv(c, s.clock, r.ev.Anchor(), r.acts[i]);
      MinDueMeaning(r.acts);
    }
  }

  predicate SomeDue(acts: seq<Action>, nowMs: int) {
    exists i :: 0 <= i < |acts| && acts[i].status == ActionStatus.Retrying && acts[i].next.Some? && acts[i].next.value <= nowMs
  }

  /** Work that is due is found: no event with an action to run is passed over, unless another worker's lease holds it. */
  lemma DueWorkIsFound(c: Config, s: Sys, id: Id, i: nat, now: int)
    requires Safe(c, s) && id in s.db.rows
    requires var r := s.db.rows[id];
             || r.ev.status == EventStatus.Pending
             || (&& (r.ev.status == EventStatus.Retrying || (r.ev.status == EventStatus.Processing && r.ev.leaseUntil.Or(0) < Ms(now)))
                 && i < |r.acts| && (r.acts[i].status == ActionStatus.Pending || r.acts[i].status == ActionStatus.Retrying)
                 && r.acts[i].next.Or(0) <= Ms(now))
    ensures SomeClaimable(s.db, Ms(now))
  {
    var r := s.db.rows[id];
    assert RowInv(c, s.clock, r);
    if r.ev.status.Retrying? {
      assert r.acts[i].status.Settled() && ActInv(c, s.clock, r.ev.Anchor(), r.acts[i]);
      assert SomeDue(r.acts, Ms(now));
    }
    ClaimableExactly(c, s, id, now);
    assert Claimable(s.db.rows[id].ev, Ms(now));
  }

  /** No step of the run has an effect on the event. */
  ghost predicate Untouched(c: Config, s: Sys, steps: seq<Step>, id: Id)
    requires Legal(c, s, steps)
    decreases |steps|
  {
    steps == [] || (id in s.db.rows && EffectOn(c, s, steps[0], id).Keep? && Untouched(c, Do(c, s, steps[0]), steps[1..], id))
  }

  /** An event that can be claimed at some clock reading can be claimed at every later one until a step changes it. */
  lemma {:induction false} StaysClaimable(c: Config, s: Sys, steps: seq<Step>, id: Id, t: int, u: int)
    requires Legal(c, s, steps) && Untouched(c, s, steps, id) && id in s.db.rows && t <= u
    requires Claimable(s.db.rows[id].ev, Ms(t))
    ensures id in Exec(c, s, steps).db.rows && Exec(c, s, steps).db.rows[id] == s.db.rows[id]
    ensures Claimable(Exec(c, s, steps).db.rows[id].ev, Ms(u))
    decreases |steps|
  {
    MsFacts(t, u);
    if steps != [] {
      EffectIsExact(c, s, steps[0], id);
      StaysClaimable(c, Do(c, s, steps[0]), steps[1..], id, t, u);
    }
  }

  // ---- pass completeness ----

  /** An event folded from settled rows is done, dead or retrying by what they are, and due at the least due time. */
  predicate FoldedFrom(ev: Event, acts: seq<Action>) {
    && AllSettled(acts)
    && (ev.status.Done? || ev.status.Dead? || ev.status.Retrying?)
    && (ev.status.Done? <==> AllDone(acts))
    && (ev.status.Dead? <==> AllFinal(acts) && SomeDead(acts))
    && (ev.status.Retrying? <==> SomeRetrying(acts))
    && (ev.status.Retrying? ==>
          && (exists j :: 0 <= j < |acts| && acts[j].status.Retrying? && acts[j].next == ev.next)
          && (forall j :: 0 <= j < |acts| && acts[j].status.Retrying? ==>
                ev.next.Some? && acts[j].next.Some? && ev.next.value <= acts[j].next.value))
  }

  lemma FoldMeaning(ev: Event, acts: seq<Action>, now: int)
    requires acts != [] && AllSettled(acts)
    requires forall j :: 0 <= j < |acts| && acts[j].status.Retrying? ==> acts[j].next.Some?
    ensures FoldedFrom(RefreshedEvent(ev, TotalsOf(acts), now), acts)
  {
    VerdictMeaning(acts);
    MinDueMeaning(acts);
  }

  /**
    A pass that reaches the update of RefreshEventStatus has settled every action, each untouched, given up or tried
    once, and what it writes is what the rows then say.
   */
  lemma PassCompletes(c: Config, s: Sys, w: Worker)
    requires c.RoundTrips() && Safe(c, s) && Enabled(c, s, Refresh(w))
    ensures var p := s.passes[w];
            var r := Do(c, s, Refresh(w)).db.rows[p.id];
            && |r.acts| == |p.states| == p.plan
            && (forall j :: 0 <= j < |r.acts| ==> RowPass(c, p.anchor, p.since, p.states[j], r.acts[j]))
            && FoldedFrom(r.ev, r.acts)
  {
    var p, r := s.passes[w], RowOf(s, w);
    assert PassOk(c, s, p);
    OwnFits(c, s, Refresh(w), w);
    FoldMeaning(r.ev, r.acts, p.end);
  }

  // ---- startup recovery ----

  /** Recovery of any store at all: nothing stays processing, and only terminal events could keep a running action. */
  lemma RecoveryClears(db: DB, id: Id, i: nat)
    requires id in db.rows
    ensures var r, r' := db.rows[id], RecoverDb(db).rows[id];
            && !r'.ev.status.Processing?
            && (r.ev.status.Terminal() ==> r' == r)
            && |r'.acts| == |r.acts|
            && (i < |r.acts| && !r.acts[i].status.Running? ==> r'.acts[i] == r.acts[i])
            && (i < |r.acts| && r'.acts[i].status.Running? <==>
                  i < |r.acts| && r.acts[i].status.Running? && r.ev.status.Terminal())
            && (r.ev.status.Retrying? && NoneRunning(r.acts) ==> r' == r)
  {
  }

  /** A second recovery finds nothing to change, so it reports zero rows. */
  lemma RecoveryIsIdempotent(db: DB)
    ensures RecoverDb(RecoverDb(db)) == RecoverDb(db)
    ensures (set id | id in RecoverDb(db).rows && NeedsRecovery(RecoverDb(db).rows[id])) == {}
  {
  }

  /**
    After any run, a crash and the next startup: nothing is processing, and exactly the running actions under terminal
    events still run.
   */
  lemma RestartIsExact(c: Config, clock: int, steps: seq<Step>, id: Id, i: nat)
    requires Legal(c, Init(clock), steps)
    ensures var s := Exec(c, Init(clock), steps);
            var s2 := Do(c, Do(c, s, Crash), Recover);
            && Sound(s2) && s2.up && s2.passes == map[] && s2.db.rows.Keys == s.db.rows.Keys
            && (id in s.db.rows ==> !s2.db.rows[id].ev.status.Processing?)
            && (IsRunning(s2, id, i) <==> IsRunning(s, id, i) && s.db.rows[id].ev.status.Terminal())
  {
    SoundRun(c, Init(clock), steps);
    var s := Exec(c, Init(clock), steps);
    SoundStep(c, s, Crash);
    SoundStep(c, Do(c, s, Crash), Recover);
    if id in s.db.rows {
      RecoveryClears(s.db, id, i);
    }
  }

  lemma TimelyFoldIsFresh(c: Config, s: Sys, step: Step)
    requires Safe(c, s) && Enabled(c, s, step)
    ensures FreshFold(s, step)
  {
    if step.Refresh? {
      assert PassOk(c, s, s.passes[step.w]);
    }
  }

  /** While live leases are current, no fold writes totals that no longer hold. */
  lemma {:induction false} TimelyFoldsAreFresh(c: Config, s: Sys, steps: seq<Step>)
    requires c.RoundTrips() && Safe(c, s) && Legal(c, s, steps) && TimelyRun(c, s, steps)
    ensures FreshFolds(c, s, steps)
    decreases |steps|
  {
    if steps != [] {
      TimelyFoldIsFresh(c, s, steps[0]);
      SafeStep(c, s, steps[0]);
      TimelyFoldsAreFresh(c, Do(c, s, steps[0]), steps[1..]);
    }
  }

  /**
    After any run with fresh folds, a crash and the next startup, no event is processing and no action runs. Leases need
    not have been current.
   */
  lemma RestartIsClean(c: Config, clock: int, steps: seq<Step>, id: Id, i: nat)
    requires c.RoundTrips() && Legal(c, Init(clock), steps) && FreshFolds(c, Init(clock), steps)
    ensures var s := Do(c, Do(c, Exec(c, Init(clock), steps), Crash), Recover);
            && (id in s.db.rows ==> !s.db.rows[id].ev.status.Processing?)
            && !IsRunning(s, id, i)
  {
    TerminalIsFinal(c, Init(clock), steps);
    RestartIsExact(c, clock, steps, id, i);
  }
}
