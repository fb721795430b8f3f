/** What one step of the protocol does to one event: the per-row view of `Protocol.Do`. */
module Effects {
  import opened Wrappers
  import opened Rows
  import opened Tables
  import opened Protocol

  datatype Effect =
    | Keep
    | Requeue
    | Take(lease: int, now: int, owner: string)
    | Fill(text: string, n: nat, clear: bool, now: int)
    | Close(status: EventStatus, now: int)
    | Wipe
    | Extend(lease: int, now: int)
    | Revive(reason: string, now: int)
    | Fold(t: Totals, now: int)
    | Begin(i: nat, now: int)
    | Conclude(i: nat, d: Decision, now: int)
    | Lapse(i: nat, now: int)
    | Vanish(cutoffMs: int)

  /** The condition each transaction checks on the row itself. */
  predicate Guard(r: Row, e: Effect) {
    match e
    case Keep => true
    case Requeue => NeedsRecovery(r)
    case Take(lease, now, owner) => Claimable(r.ev, Ms(now))
    case Fill(text, n, clear, now) => r.ev.status.Processing?
    case Close(status, now) => status.Dead? || status.Skipped?
    case Wipe => true
    case Extend(lease, now) => r.ev.status.Processing?
    case Revive(reason, now) => r.ev.status.Dead? && (r.ev.payload != "" || r.ev.vars != "")
    case Fold(t, now) => true
    case Begin(i, now) => i < |r.acts| && Startable(r.acts[i], now)
    case Conclude(i, d, now) => i < |r.acts| && r.acts[i].status.Running?
    case Lapse(i, now) => i < |r.acts| && r.acts[i].status.Unfinished()
    case Vanish(cutoffMs) => Purgeable(r.ev, cutoffMs)
  }

  function Apply(r: Row, e: Effect): Row
    requires Guard(r, e)
  {
    match e
    case Keep => r
    case Requeue => Requeued(r)
    case Take(lease, now, owner) => ClaimRow(r, lease, now, owner)
    case Fill(text, n, clear, now) => PrepareRow(r, text, n, clear, now)
    case Close(status, now) => EndRow(r, status, now)
    case Wipe => ClearRow(r)
    case Extend(lease, now) => RenewRow(r, lease, now)
    case Revive(reason, now) => ReplayRow(r, reason, now)
    case Fold(t, now) => RefreshRow(r, t, now)
    case Begin(i, now) => PutAction(r, i, Started(r.acts[i]))
    case Conclude(i, d, now) => PutAction(r, i, Settle(r.acts[i], d, now))
    case Lapse(i, now) => PutAction(r, i, Buried(r.acts[i], EXPIRED, now))
    case Vanish(cutoffMs) => r
  }

  /** The steps taken by a worker inside its pass. */
  function Actor(step: Step): Option<Worker> {
    match step
    case Fail(w, _) => Some(w)
    case Skip(w, _, _) => Some(w)
    case Clear(w) => Some(w)
    case Prepare(w, _, _, _) => Some(w)
    case List(w) => Some(w)
    case Over(w, _) => Some(w)
    case Miss(w, _) => Some(w)
    case GiveUpOn(w, _) => Some(w)
    case Start(w, _) => Some(w)
    case Finish(w, _, _, _) => Some(w)
    case Scan(w, _) => Some(w)
    case Refresh(w) => Some(w)
    case Abort(w) => Some(w)
    case Abandon(w) => Some(w)
    case _ => None
  }

  /** The effect of a pass's step on the row of its own event. */
  function OwnEffect(c: Config, p: Pass, r: Row, step: Step): Effect {
    match step
    case Fail(w, now) => Close(EventStatus.Dead, now)
    case Skip(w, clear, now) => Close(EventStatus.Skipped, now)
    case Clear(w) => Wipe
    case Prepare(w, vars, clear, now) => Fill(c.encode(vars), p.plan, clear, now)
    case GiveUpOn(w, now) => Lapse(p.index, now)
    case Start(w, now) => Begin(p.index, now)
    case Finish(w, answer, decided, now) => Conclude(p.index, Decide(c, p.anchor, p.attempt, answer, decided), now)
    case Refresh(w) => Fold(p.read, p.end)
    case Abort(w) => if r.ev.status.Processing? then Requeue else Keep
    case _ => Keep
  }

  function EffectOn(c: Config, s: Sys, step: Step, id: Id): Effect
    requires Enabled(c, s, step) && id in s.db.rows
  {
    var r := s.db.rows[id];
    var actor := Actor(step);
    if actor.Some? then
      if s.passes[actor.value].id == id then OwnEffect(c, s.passes[actor.value], r, step) else Keep
    else
      match step
      case ExpireLeases(now) => if LeaseExpired(r.ev, Ms(now)) then Requeue else Keep
      case Claim(w, id', lease, now, owner) => if id' == id then Take(lease, now, owner) else Keep
      case Renew(id', lease, now, owner) => if id' == id then Extend(lease, now) else Keep
      case Replay(id', reason, now) => if id' == id then Revive(reason, now) else Keep
      case Purge(cutoff, now) => if Purgeable(r.ev, Ms(cutoff)) then Vanish(Ms(cutoff)) else Keep
      case Recover => if NeedsRecovery(r) then Requeue else Keep
      case _ => Keep
  }

  lemma OwnEffectIsExact(c: Config, s: Sys, step: Step, w: Worker)
    requires Enabled(c, s, step) && Actor(step) == Some(w) && s.passes[w].id in s.db.rows
    ensures var e := OwnEffect(c, s.passes[w], RowOf(s, w), step);
            && !e.Vanish? && Guard(RowOf(s, w), e)
            && Do(c, s, step).db == PutRow(s.db, s.passes[w].id, Apply(RowOf(s, w), e))
  {
    assert PutRow(s.db, s.passes[w].id, RowOf(s, w)).rows == s.db.rows;
  }

  lemma ElsewhereKept(c: Config, s: Sys, step: Step, w: Worker, id: Id)
    requires Enabled(c, s, step) && Actor(step) == Some(w) && s.passes[w].id != id && id in s.db.rows
    ensures id in Do(c, s, step).db.rows && Do(c, s, step).db.rows[id] == s.db.rows[id]
  {
  }

  lemma OutsideEffectIsExact(c: Config, s: Sys, step: Step, id: Id)
    requires Enabled(c, s, step) && id in s.db.rows && Actor(step).None?
    ensures Guard(s.db.rows[id], EffectOn(c, s, step, id))
    ensures id in Do(c, s, step).db.rows <==> !EffectOn(c, s, step, id).Vanish?
    ensures !EffectOn(c, s, step, id).Vanish? ==>
              Do(c, s, step).db.rows[id] == Apply(s.db.rows[id], EffectOn(c, s, step, id))
  {
  }

  /** A step changes an event by exactly the effect named for it, under that effect's guard. */
  lemma EffectIsExact(c: Config, s: Sys, step: Step, id: Id)
    requires Enabled(c, s, step) && id in s.db.rows
    ensures Guard(s.db.rows[id], EffectOn(c, s, step, id))
    ensures id in Do(c, s, step).db.rows <==> !EffectOn(c, s, step, id).Vanish?
    ensures !EffectOn(c, s, step, id).Vanish? ==>
              Do(c, s, step).db.rows[id] == Apply(s.db.rows[id], EffectOn(c, s, step, id))
  {
    var actor := Actor(step);
    if actor.None? {
      OutsideEffectIsExact(c, s, step, id);
    } else if s.passes[actor.value].id == id {
      OwnEffectIsExact(c, s, step, actor.value);
    } else {
      ElsewhereKept(c, s, step, actor.value, id);
    }
  }

  /** Only an accepted request adds a row. */
  lemma OnlyAcceptAdds(c: Config, s: Sys, step: Step, id: Id)
    requires Enabled(c, s, step) && id !in s.db.rows && id in Do(c, s, step).db.rows
    ensures step.Accept? && step.req.id == id && id !in s.issued
    ensures Do(c, s, step).db.rows[id] == Row(step.req.NewEvent(), [])
  {
  }
}
