/**
  One stored event with its action rows, and the effect of every store transaction on them.

  `Row` joins an `events` row with the `event_actions` rows that carry its id, in index order.
  Clock values are nanoseconds; the store keeps milliseconds, rounded down by `Ms`.
 */
module Rows {
  import opened Wrappers

  type Id = string

  const NS_PER_MS := 1_000_000

  /** Go's Time.UnixMilli. */
  function Ms(t: int): int {
    t / NS_PER_MS
  }

  datatype EventStatus = Pending | Processing | Retrying | Done | Dead | Skipped {
    predicate Terminal() {
      Done? || Dead? || Skipped?
    }
  }

  datatype ActionStatus = Pending | Running | Retrying | Done | Dead {
    predicate Unfinished() {
      Pending? || Retrying?
    }
    predicate Settled() {
      Done? || Dead? || Retrying?
    }
  }

  datatype Action = Action(
    status: ActionStatus,
    attempts: nat,
    next: Option<int>,
    error: Option<string>,
    retryAfter: Option<int>,
    completed: Option<int>)

  /** `plan` is the number of actions in the event's snapshot; an empty `payload` or `vars` stands for NULL. */
  datatype Event = Event(
    source: string,
    delivery: string,
    bodyHash: string,
    payload: string,
    plan: nat,
    vars: string,
    status: EventStatus,
    received: int,
    processed: Option<int>,
    leaseUntil: Option<int>,
    owner: Option<string>,
    next: Option<int>,
    generation: nat,
    replayed: Option<int>,
    reason: Option<string>)
  {
    /** The time from which the retry age is counted, in milliseconds. */
    function Anchor(): int {
      replayed.Or(received)
    }
  }

  datatype Row = Row(ev: Event, acts: seq<Action>)

  // ---- transitions of single action rows ----

  function FreshAction(now: int): Action {
    Action(ActionStatus.Pending, 0, Some(Ms(now)), None, None, None)
  }

  /** Undo a running attempt; the saturating branch is the source's ELSE 0. */
  function Rollback(a: Action): Action {
    if a.status.Running? then
      a.(status := ActionStatus.Pending, next := None, attempts := if a.attempts > 0 then a.attempts - 1 else 0)
    else a
  }

  function RollbackAll(acts: seq<Action>): (r: seq<Action>)
    ensures |r| == |acts|
    ensures forall i :: 0 <= i < |acts| ==> r[i] == Rollback(acts[i])
  {
    seq(|acts|, i requires 0 <= i < |acts| => Rollback(acts[i]))
  }

  predicate Startable(a: Action, now: int) {
    a.status.Unfinished() && a.next.Or(0) <= Ms(now)
  }

  function Started(a: Action): Action {
    a.(status := ActionStatus.Running, attempts := a.attempts + 1, next := None)
  }

  function Completed(a: Action, now: int): Action {
    a.(status := ActionStatus.Done, next := None, error := None, retryAfter := None, completed := Some(Ms(now)))
  }

  function Postponed(a: Action, next: int, detail: string, retryAfter: int): Action {
    a.(status := ActionStatus.Retrying, next := Some(Ms(next)), error := Some(detail),
       retryAfter := Some(Ms(retryAfter)), completed := None)
  }

  function Buried(a: Action, detail: string, now: int): Action {
    a.(status := ActionStatus.Dead, next := None, error := Some(detail), retryAfter := None, completed := Some(Ms(now)))
  }

  const EXPIRED := "maximum retry age exceeded"

  function Revived(a: Action, now: int): Action {
    if a.status.Dead? then
      a.(status := ActionStatus.Pending, attempts := 0, next := Some(Ms(now)), error := None, retryAfter := None, completed := None)
    else a
  }

  function ReviveAll(acts: seq<Action>, now: int): (r: seq<Action>)
    ensures |r| == |acts|
    ensures forall i :: 0 <= i < |acts| ==> r[i] == Revived(acts[i], now)
  {
    seq(|acts|, i requires 0 <= i < |acts| => Revived(acts[i], now))
  }

  predicate AnyRunning(acts: seq<Action>) {
    exists i :: 0 <= i < |acts| && acts[i].status.Running?
  }

  // ---- transitions of whole rows ----

  const DEFAULT_LEASE := 120_000_000_000

  function EffectiveLease(lease: int): int {
    if lease <= 0 then DEFAULT_LEASE else lease
  }

  predicate Claimable(ev: Event, nowMs: int) {
    || ev.status.Pending?
    || (ev.status.Retrying? && ev.next.Or(0) <= nowMs)
    || LeaseExpired(ev, nowMs)
  }

  predicate LeaseExpired(ev: Event, nowMs: int) {
    ev.status.Processing? && ev.leaseUntil.Or(0) < nowMs
  }

  /** The key by which ClaimPending orders its candidates. */
  function DueAt(ev: Event): int {
    ev.next.Or(ev.received)
  }

  function ClaimedEvent(ev: Event, lease: int, now: int, owner: string): Event {
    ev.(status := EventStatus.Processing, leaseUntil := Some(Ms(now + EffectiveLease(lease))), owner := Some(owner))
  }

  function ClaimRow(r: Row, lease: int, now: int, owner: string): Row {
    Row(ClaimedEvent(r.ev, lease, now, owner), RollbackAll(r.acts))
  }

  function RequeuedEvent(ev: Event): Event {
    ev.(status := EventStatus.Pending, next := Some(ev.received), leaseUntil := None, owner := None, processed := None)
  }

  function Requeued(r: Row): Row {
    Row(RequeuedEvent(r.ev), RollbackAll(r.acts))
  }

  function RequeueRow(r: Row): Row {
    if r.ev.status.Processing? then Requeued(r) else r
  }

  function ExpireRow(r: Row, nowMs: int): Row {
    if LeaseExpired(r.ev, nowMs) then Requeued(r) else r
  }

  /** True of the rows that startup recovery changes. */
  predicate NeedsRecovery(r: Row) {
    || r.ev.status.Processing?
    || ((r.ev.status.Pending? || r.ev.status.Retrying?) && AnyRunning(r.acts))
  }

  function RecoverRow(r: Row): Row {
    if NeedsRecovery(r) then Requeued(r) else r
  }

  function ReplayRow(r: Row, reason: string, now: int): Row {
    Row(r.ev.(status := EventStatus.Pending, next := Some(Ms(now)), processed := None, leaseUntil := None, owner := None,
              generation := r.ev.generation + 1, replayed := Some(Ms(now)), reason := Some(reason)),
        ReviveAll(r.acts, now))
  }

  function PreparedActs(acts: seq<Action>, n: nat, now: int): seq<Action> {
    acts + seq(if n > |acts| then n - |acts| else 0, i => FreshAction(now))
  }

  function PrepareRow(r: Row, vars: string, n: nat, clear: bool, now: int): Row {
    Row(r.ev.(vars := vars, payload := if clear then "" else r.ev.payload), PreparedActs(r.acts, n, now))
  }

  function EndRow(r: Row, status: EventStatus, now: int): Row {
    r.(ev := r.ev.(status := status, processed := Some(Ms(now)), next := None, leaseUntil := None, owner := None))
  }

  function ClearRow(r: Row): Row {
    r.(ev := r.ev.(payload := ""))
  }

  predicate Renewable(ev: Event, owner: string) {
    ev.status.Processing? && (ev.owner == Some(owner) || ev.owner.None? || ev.owner == Some(""))
  }

  function RenewRow(r: Row, lease: int, now: int): Row {
    r.(ev := r.ev.(leaseUntil := Some(Ms(now + EffectiveLease(lease)))))
  }

  function PutAction(r: Row, i: nat, a: Action): Row
    requires i < |r.acts|
  {
    r.(acts := r.acts[i := a])
  }

  predicate Purgeable(ev: Event, cutoffMs: int) {
    ev.status.Terminal() && ev.processed.Or(ev.received) < cutoffMs
  }

  // ---- folding the action rows back into the event ----

  function Count(acts: seq<Action>, status: ActionStatus): nat {
    if acts == [] then 0
    else Count(acts[1..], status) + if acts[0].status == status then 1 else 0
  }

  function MinOption(a: Option<int>, b: Option<int>): Option<int> {
    if a.None? then b else if b.None? then a else if a.value <= b.value then a else b
  }

  /** MIN over the retrying rows; SQL's MIN skips NULL. */
  function MinDue(acts: seq<Action>): Option<int> {
    if acts == [] then None
    else MinOption(if acts[0].status.Retrying? then acts[0].next else None, MinDue(acts[1..]))
  }

  /** What RefreshEventStatus reads: the columns of its aggregate query that its branches use. */
  datatype Totals = Totals(total: nat, done: nat, dead: nat, retrying: nat, next: Option<int>)

  function TotalsOf(acts: seq<Action>): Totals {
    Totals(|acts|, Count(acts, ActionStatus.Done), Count(acts, ActionStatus.Dead), Count(acts, ActionStatus.Retrying),
           MinDue(acts))
  }

  function Verdict(t: Totals): EventStatus {
    if t.done == t.total then EventStatus.Done
    else if t.dead > 0 && t.done + t.dead == t.total then EventStatus.Dead
    else if t.retrying > 0 then EventStatus.Retrying
    else EventStatus.Pending
  }

  /** What it writes, from the totals it read and the clock it was given. */
  function RefreshedEvent(ev: Event, t: Totals, now: int): Event {
    var status := Verdict(t);
    var due := if status.Terminal() then None
               else if status.Retrying? && t.next.Some? then t.next
               else Some(Ms(now));
    ev.(status := status, processed := if status.Terminal() then Some(Ms(now)) else None,
        next := due, leaseUntil := None, owner := None)
  }

  function RefreshRow(r: Row, t: Totals, now: int): Row {
    r.(ev := RefreshedEvent(r.ev, t, now))
  }

  // ---- scanning the rows in index order ----

  lemma {:induction false} CountSnoc(acts: seq<Action>, a: Action, status: ActionStatus)
    ensures Count(acts + [a], status) == Count(acts, status) + if a.status == status then 1 else 0
  {
    if acts == [] {
      assert acts + [a] == [a];
    } else {
      assert (acts + [a])[1..] == acts[1..] + [a];
      CountSnoc(acts[1..], a, status);
    }
  }

  lemma {:induction false} MinDueSnoc(acts: seq<Action>, a: Action)
    ensures MinDue(acts + [a]) == MinOption(MinDue(acts), if a.status.Retrying? then a.next else None)
  {
    if acts == [] {
      assert acts + [a] == [a];
    } else {
      assert (acts + [a])[1..] == acts[1..] + [a];
      MinDueSnoc(acts[1..], a);
    }
  }

  // ---- what the counts and the minimum mean ----

  lemma {:induction false} CountBounds(acts: seq<Action>, status: ActionStatus)
    ensures Count(acts, status) <= |acts|
    ensures Count(acts, status) == |acts| <==> forall i :: 0 <= i < |acts| ==> acts[i].status == status
    ensures Count(acts, status) > 0 <==> exists i :: 0 <= i < |acts| && acts[i].status == status
  {
    if acts != [] {
      CountBounds(acts[1..], status);
      assert forall i :: 0 < i < |acts| ==> acts[i] == acts[1..][i - 1];
      assert forall i :: 0 <= i < |acts| - 1 ==> acts[1..][i] == acts[i + 1];
    }
  }

  lemma {:induction false} CountTwo(acts: seq<Action>)
    ensures Count(acts, ActionStatus.Done) + Count(acts, ActionStatus.Dead) <= |acts|
    ensures Count(acts, ActionStatus.Done) + Count(acts, ActionStatus.Dead) == |acts|
       <==> forall i :: 0 <= i < |acts| ==> acts[i].status.Done? || acts[i].status.Dead?
  {
    if acts != [] {
      CountTwo(acts[1..]);
      assert forall i :: 0 < i < |acts| ==> acts[i] == acts[1..][i - 1];
      assert forall i :: 0 <= i < |acts| - 1 ==> acts[1..][i] == acts[i + 1];
    }
  }

  /** RefreshEventStatus's aggregate query classifies the event exactly by what its rows are. */
  lemma VerdictMeaning(acts: seq<Action>)
    requires acts != []
    ensures Verdict(TotalsOf(acts)).Done? <==> forall i :: 0 <= i < |acts| ==> acts[i].status.Done?
    ensures Verdict(TotalsOf(acts)).Dead? <==>
            (forall i :: 0 <= i < |acts| ==> acts[i].status.Done? || acts[i].status.Dead?) &&
            (exists i :: 0 <= i < |acts| && acts[i].status.Dead?)
    ensures Verdict(TotalsOf(acts)).Retrying? <==> exists i :: 0 <= i < |acts| && acts[i].status.Retrying?
    ensures Verdict(TotalsOf(acts)).Pending? <==>
            (forall i :: 0 <= i < |acts| ==> !acts[i].status.Retrying?) &&
            (exists i :: 0 <= i < |acts| && (acts[i].status.Pending? || acts[i].status.Running?))
  {
    CountTwo(acts);
    CountBounds(acts, ActionStatus.Done);
    CountBounds(acts, ActionStatus.Dead);
    CountBounds(acts, ActionStatus.Retrying);
  }

  /** MinDue is the least due time among the retrying rows, when all of them carry one. */
  lemma {:induction false} MinDueMeaning(acts: seq<Action>)
    requires forall i :: 0 <= i < |acts| && acts[i].status.Retrying? ==> acts[i].next.Some?
    ensures MinDue(acts).Some? <==> exists i :: 0 <= i < |acts| && acts[i].status.Retrying?
    ensures forall i :: 0 <= i < |acts| && acts[i].status.Retrying? ==>
              MinDue(acts).Some? && MinDue(acts).value <= acts[i].next.value
    ensures MinDue(acts).Some? ==>
              exists i :: 0 <= i < |acts| && acts[i].status.Retrying? && acts[i].next == MinDue(acts)
  {
    if acts != [] {
      var rest := acts[1..];
      assert forall i :: 0 < i < |acts| ==> acts[i] == rest[i - 1];
      assert forall i :: 0 <= i < |rest| ==> rest[i] == acts[i + 1];
      MinDueMeaning(rest);
      if MinDue(acts).Some? && !(acts[0].status.Retrying? && acts[0].next == MinDue(acts)) {
        var j :| 0 <= j < |rest| && rest[j].status.Retrying? && rest[j].next == MinDue(rest);
        assert acts[j + 1].next == MinDue(acts);
      }
    }
  }
}
