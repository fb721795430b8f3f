/**
  The store's transactions as updates of its three tables, statement by statement.

  Each method writes its columns itself and is proved equal to one transition of `Rows` or `Tables`, which is what the
  protocol reasons about. A transaction works on local copies of the tables and assigns them back at its commit.
 */
module StoreModel {
  import opened Wrappers
  import opened Rows
  import opened Tables

  datatype PendingEvent = PendingEvent(
    id: Id, source: string, payload: string, vars: string, delivery: string, anchor: int, plan: nat, generation: nat)
  {
    predicate Describes(ev: Event) {
      && source == ev.source && payload == ev.payload && vars == ev.vars && delivery == ev.delivery
      && anchor == ev.Anchor() && plan == ev.plan && generation == ev.generation
    }
  }

  datatype ReplayResult = Replayed(generation: nat) | NotRetryable | Unavailable

  function ActionsOf(actions: map<Id, seq<Action>>, id: Id): seq<Action> {
    if id in actions then actions[id] else []
  }

  function Join(events: map<Id, Event>, actions: map<Id, seq<Action>>): map<Id, Row> {
    map id | id in events :: Row(events[id], ActionsOf(actions, id))
  }

  /** COALESCE(next_attempt_at_ms, received_at_ms). */
  function OrderKey(ev: Event): int {
    if ev.next.Some? then ev.next.value else ev.received
  }

  lemma {:induction false} LeastDue(events: map<Id, Event>, ids: set<Id>)
    requires ids != {} && ids <= events.Keys
    ensures exists id :: id in ids && forall other :: other in ids ==> OrderKey(events[id]) <= OrderKey(events[other])
  {
    var x :| x in ids;
    var rest := ids - {x};
    var least := x;
    if rest != {} {
      LeastDue(events, rest);
      var y :| y in rest && forall other :: other in rest ==> OrderKey(events[y]) <= OrderKey(events[other]);
      least := if OrderKey(events[x]) <= OrderKey(events[y]) then x else y;
    }
    forall other | other in ids ensures OrderKey(events[least]) <= OrderKey(events[other]) {
      assert other == x || other in rest;
    }
  }

  // ---- updates of many rows ----

  /** SET status = 'pending', next_attempt_at_ms = NULL, attempt_count = ... WHERE status = 'running' AND event_id IN ids. */
  function RollbackWhere(actions: map<Id, seq<Action>>, ids: set<Id>): map<Id, seq<Action>> {
    map id | id in actions :: if id in ids then UndoRunning(actions[id]) else actions[id]
  }

  function UndoRunning(acts: seq<Action>): seq<Action> {
    seq(|acts|, i requires 0 <= i < |acts| =>
      if acts[i].status == ActionStatus.Running
      then Action(ActionStatus.Pending, if acts[i].attempts > 0 then acts[i].attempts - 1 else 0, None,
                  acts[i].error, acts[i].retryAfter, acts[i].completed)
      else acts[i])
  }

  /** SET status = 'pending', next_attempt_at_ms = received_at_ms, the lease and processed columns = NULL WHERE id IN ids. */
  function RequeueWhere(events: map<Id, Event>, ids: set<Id>): map<Id, Event> {
    map id | id in events ::
      if id in ids
      then events[id].(status := EventStatus.Pending, next := Some(events[id].received), leaseUntil := None, owner := None,
                       processed := None)
      else events[id]
  }

  lemma UndoIsRollback(acts: seq<Action>)
    ensures UndoRunning(acts) == RollbackAll(acts)
  {
  }

  lemma RollbackFacts(acts: seq<Action>)
    ensures RollbackAll([]) == []
    ensures !AnyRunning(acts) ==> RollbackAll(acts) == acts
    ensures RollbackAll(RollbackAll(acts)) == RollbackAll(acts)
    ensures UndoRunning(acts) == RollbackAll(acts) && UndoRunning(UndoRunning(acts)) == RollbackAll(acts)
  {
    UndoIsRollback(acts);
    UndoIsRollback(RollbackAll(acts));
  }

  /** WHERE status IN ('pending', 'retrying') AND EXISTS a running action. */
  function Orphans(events: map<Id, Event>, actions: map<Id, seq<Action>>): set<Id> {
    set id | id in events && (events[id].status == EventStatus.Pending || events[id].status == EventStatus.Retrying) &&
             exists i :: 0 <= i < |ActionsOf(actions, id)| && ActionsOf(actions, id)[i].status == ActionStatus.Running
  }

  function WithStatus(events: map<Id, Event>, status: EventStatus): set<Id> {
    set id | id in events && events[id].status == status
  }

  /** The four updates of startup recovery, in order: orphaned events, their actions, held actions, held events. */
  function RecoveredEvents(events: map<Id, Event>, actions: map<Id, seq<Action>>): map<Id, Event> {
    var events1 := RequeueWhere(events, Orphans(events, actions));
    RequeueWhere(events1, WithStatus(events1, EventStatus.Processing))
  }

  function RecoveredActions(events: map<Id, Event>, actions: map<Id, seq<Action>>): map<Id, seq<Action>> {
    var events1 := RequeueWhere(events, Orphans(events, actions));
    var actions1 := RollbackWhere(actions, WithStatus(events1, EventStatus.Pending));
    RollbackWhere(actions1, WithStatus(events1, EventStatus.Processing))
  }

  lemma RecoverOne(events: map<Id, Event>, actions: map<Id, seq<Action>>, id: Id)
    requires id in events
    ensures id in RecoveredEvents(events, actions)
    ensures Row(RecoveredEvents(events, actions)[id], ActionsOf(RecoveredActions(events, actions), id))
            == RecoverRow(Row(events[id], ActionsOf(actions, id)))
  {
    RollbackFacts(ActionsOf(actions, id));
    var events1 := RequeueWhere(events, Orphans(events, actions));
    assert id in Orphans(events, actions) <==>
           (events[id].status.Pending? || events[id].status.Retrying?) && AnyRunning(ActionsOf(actions, id));
    assert id in WithStatus(events1, EventStatus.Processing) <==> events[id].status.Processing?;
    assert id in WithStatus(events1, EventStatus.Pending) <==> events1[id].status.Pending?;
  }

  /** Taken together they are RecoverRow on every event. */
  lemma RecoverAll(events: map<Id, Event>, actions: map<Id, seq<Action>>)
    ensures Join(RecoveredEvents(events, actions), RecoveredActions(events, actions))
            == (map id | id in events :: RecoverRow(Row(events[id], ActionsOf(actions, id))))
  {
    forall id | id in events
      ensures Row(RecoveredEvents(events, actions)[id], ActionsOf(RecoveredActions(events, actions), id))
              == RecoverRow(Row(events[id], ActionsOf(actions, id)))
    {
      RecoverOne(events, actions, id);
    }
  }

  lemma HeldUnchanged(events: map<Id, Event>, actions: map<Id, seq<Action>>)
    ensures WithStatus(RequeueWhere(events, Orphans(events, actions)), EventStatus.Processing)
            == WithStatus(events, EventStatus.Processing)
  {
  }

  lemma PurgedAre(events: map<Id, Event>, cutoffMs: int, ids: set<Id>)
    requires forall id :: id in ids <==>
               id in events && (events[id].status.Done? || events[id].status.Dead? || events[id].status.Skipped?) &&
               (if events[id].processed.Some? then events[id].processed.value else events[id].received) < cutoffMs
    ensures ids == set id | id in events && Purgeable(events[id], cutoffMs)
  {
  }

  lemma JoinWithout(events: map<Id, Event>, actions: map<Id, seq<Action>>, ids: set<Id>)
    ensures Join(events - ids, actions - ids) == map id | id in events && id !in ids :: Row(events[id], ActionsOf(actions, id))
  {
  }

  predicate IsOrphan(r: Row) {
    (r.ev.status.Pending? || r.ev.status.Retrying?) && AnyRunning(r.acts)
  }

  lemma OrphanIs(events: map<Id, Event>, actions: map<Id, seq<Action>>, id: Id)
    ensures id in Orphans(events, actions) <==> id in events && IsOrphan(Row(events[id], ActionsOf(actions, id)))
  {
  }

  /** The rows that recovery changes are the held ones and the orphans, and no row is both. */
  lemma SplitCount(rows: map<Id, Row>, held: set<Id>, orphans: set<Id>, all: set<Id>)
    requires forall id :: id in held <==> id in rows && rows[id].ev.status.Processing?
    requires forall id :: id in orphans <==> id in rows && IsOrphan(rows[id])
    requires forall id :: id in all <==> id in rows && NeedsRecovery(rows[id])
    ensures |held| + |orphans| == |all|
  {
    forall id | id in rows ensures NeedsRecovery(rows[id]) <==> rows[id].ev.status.Processing? || IsOrphan(rows[id]) {
    }
    assert all == held + orphans && held !! orphans;
  }

  /** The counts of the two event updates add up to the number of rows changed. */
  lemma RecoverCount(events: map<Id, Event>, actions: map<Id, seq<Action>>)
    ensures |WithStatus(events, EventStatus.Processing)| + |Orphans(events, actions)|
            == |set id | id in events && NeedsRecovery(Row(events[id], ActionsOf(actions, id)))|
  {
    forall id ensures id in Orphans(events, actions) <==> id in events && IsOrphan(Row(events[id], ActionsOf(actions, id))) {
      OrphanIs(events, actions, id);
    }
    SplitCount(Join(events, actions), WithStatus(events, EventStatus.Processing), Orphans(events, actions),
               set id | id in events && NeedsRecovery(Row(events[id], ActionsOf(actions, id))));
  }

  /** COUNT, SUM and MIN over the action rows in one scan. */
  method Aggregate(acts: seq<Action>) returns (t: Totals)
    ensures t == TotalsOf(acts)
  {
    var done, dead, retrying, next := 0, 0, 0, None;
    for i := 0 to |acts|
      invariant done == Count(acts[..i], ActionStatus.Done) && dead == Count(acts[..i], ActionStatus.Dead)
      invariant retrying == Count(acts[..i], ActionStatus.Retrying) && next == MinDue(acts[..i])
    {
      var a := acts[i];
      assert acts[..i + 1] == acts[..i] + [a];
      CountSnoc(acts[..i], a, ActionStatus.Done);
      CountSnoc(acts[..i], a, ActionStatus.Dead);
      CountSnoc(acts[..i], a, ActionStatus.Retrying);
      MinDueSnoc(acts[..i], a);
      match a.status {
        case Done => done := done + 1;
        case Dead => dead := dead + 1;
        case Retrying =>
          retrying := retrying + 1;
          if a.next.Some? && (next.None? || a.next.value < next.value) {
            next := a.next;
          }
        case _ =>
      }
    }
    assert acts[..|acts|] == acts;
    t := Totals(|acts|, done, dead, retrying, next);
  }

  class Store {
    var events: map<Id, Event>
    var actions: map<Id, seq<Action>>
    var guards: map<GuardKey, int>

    /** No action row outlives its event. */
    ghost predicate Valid()
      reads this
    {
      actions.Keys <= events.Keys
    }

    ghost function Db(): DB
      reads this
    {
      DB(Join(events, actions), guards)
    }

    constructor ()
      ensures Valid() && Db() == DB(map[], map[])
    {
      events, actions, guards := map[], map[], map[];
    }

    /** INSERT OR IGNORE would hit the primary key or the delivery index. */
    predicate Conflicts(req: Request)
      reads this
    {
      || req.id in events
      || (req.delivery != "" &&
          exists id :: id in events && events[id].source == req.source && events[id].delivery == req.delivery)
    }

    lemma ConflictsMeaning(req: Request)
      ensures Conflicts(req) <==> EventBlocked(Db(), req)
    {
      if id :| id in events && events[id].source == req.source && events[id].delivery == req.delivery {
        assert Db().rows[id].ev == events[id];
      }
    }

    method SavePendingEvent(req: Request) returns (result: SaveResult)
      requires Valid()
      modifies this
      ensures Valid()
      ensures result == SaveOutcome(old(Db()), req)
      ensures Db() == SaveDb(old(Db()), req)
    {
      ghost var was := Db();
      var newGuards := guards;
      if req.guardUntil.Some? && req.bodyHash != "" {
        var key := GuardKey(req.source, req.bodyHash);
        if key in newGuards && newGuards[key] <= Ms(req.at) {
          newGuards := newGuards - {key};
        }
        if key in newGuards {
          return DuplicateBody;
        }
        newGuards := newGuards[key := Ms(req.guardUntil.value)];
      }
      ConflictsMeaning(req);
      if Conflicts(req) {
        return DuplicateEvent;
      }
      events := events[req.id := Event(req.source, req.delivery, req.bodyHash, req.payload, req.plan, "", EventStatus.Pending,
                                       Ms(req.at), None, None, None, Some(Ms(req.at)), 0, None, None)];
      guards := newGuards;
      result := Saved;
      assert guards == SaveDb(was, req).guards;
      assert Db().rows == SaveDb(was, req).rows;
    }

    /**
      SELECT ... WHERE status = 'pending' OR (status = 'retrying' AND COALESCE(next_attempt_at_ms, 0) <= now)
      OR (status = 'processing' AND COALESCE(lease_until_ms, 0) < now) ORDER BY COALESCE(next_attempt_at_ms, received_at_ms) LIMIT 1.
     */
    method SelectDue(nowMs: int) returns (picked: Option<Id>)
      ensures picked.None? <==> !SomeClaimable(Db(), nowMs)
      ensures picked.Some? ==> DueFirst(Db(), picked.value, nowMs)
    {
      var found := set id | id in events &&
        (|| events[id].status == EventStatus.Pending
         || (events[id].status == EventStatus.Retrying && (if events[id].next.None? then 0 else events[id].next.value) <= nowMs)
         || (events[id].status == EventStatus.Processing && (if events[id].leaseUntil.None? then 0 else events[id].leaseUntil.value) < nowMs));
      forall id | id in events ensures id in found <==> Claimable(Db().rows[id].ev, nowMs) {
        assert Db().rows[id].ev == events[id];
      }
      if found == {} {
        return None;
      }
      LeastDue(events, found);
      var id :| id in found && forall other :: other in found ==> OrderKey(events[id]) <= OrderKey(events[other]);
      forall other | other in Db().rows && Claimable(Db().rows[other].ev, nowMs)
        ensures DueAt(Db().rows[id].ev) <= DueAt(Db().rows[other].ev)
      {
        assert other in found;
      }
      picked := Some(id);
    }

    method ClaimPending(lease: int, now: int, owner: string) returns (claimed: Option<PendingEvent>)
      requires Valid()
      modifies this
      ensures Valid()
      ensures claimed.None? <==> !SomeClaimable(old(Db()), Ms(now))
      ensures claimed.None? ==> Db() == old(Db())
      ensures claimed.Some? ==>
                && DueFirst(old(Db()), claimed.value.id, Ms(now))
                && claimed.value.id in old(events)
                && claimed.value.Describes(old(events)[claimed.value.id])
                && Db() == PutRow(old(Db()), claimed.value.id,
                                  ClaimRow(old(Db()).rows[claimed.value.id], lease, now, owner))
    {
      ghost var was := Db();
      var length := lease;
      if length <= 0 {
        length := 120 * 1_000_000_000;
      }
      var picked := SelectDue(Ms(now));
      if picked.None? {
        return None;
      }
      var id := picked.value;
      var ev := events[id];
      claimed := Some(PendingEvent(id, ev.source, ev.payload, ev.vars, ev.delivery,
                                   if ev.replayed.Some? then ev.replayed.value else ev.received, ev.plan, ev.generation));
      events := events[id := ev.(status := EventStatus.Processing, leaseUntil := Some(Ms(now + length)), owner := Some(owner))];
      UndoIsRollback(ActionsOf(actions, id));
      UndoIsRollback([]);
      if id in actions {
        actions := actions[id := UndoRunning(actions[id])];
      }
      assert Db().rows == PutRow(was, id, ClaimRow(was.rows[id], lease, now, owner)).rows;
    }

    method RequeueExpiredLeases(now: int) returns (n: nat)
      requires Valid()
      modifies this
      ensures Valid()
      ensures Db() == ExpireDb(old(Db()), Ms(now))
      ensures n == |set id | id in old(events) && LeaseExpired(old(events)[id], Ms(now))|
    {
      ghost var was := Db();
      var expired := set id | id in events && events[id].status == EventStatus.Processing &&
                              (if events[id].leaseUntil.None? then 0 else events[id].leaseUntil.value) < Ms(now);
      assert expired == set id | id in events && LeaseExpired(events[id], Ms(now));
      forall id | id in events ensures UndoRunning(ActionsOf(actions, id)) == RollbackAll(ActionsOf(actions, id)) {
        UndoIsRollback(ActionsOf(actions, id));
      }
      actions := RollbackWhere(actions, expired);
      events := RequeueWhere(events, expired);
      n := |expired|;
      forall id | id in events ensures Db().rows[id] == ExpireDb(was, Ms(now)).rows[id] {
        assert id in expired <==> LeaseExpired(was.rows[id].ev, Ms(now));
        RollbackFacts([]);
      }
      assert Db().rows == ExpireDb(was, Ms(now)).rows;
    }

    method RequeueAllProcessing() returns (n: nat)
      requires Valid()
      modifies this
      ensures Valid()
      ensures Db() == RecoverDb(old(Db()))
      ensures n == |set id | id in old(events) && NeedsRecovery(Row(old(events)[id], ActionsOf(old(actions), id)))|
    {
      ghost var was := Db();
      RecoverAll(events, actions);
      HeldUnchanged(events, actions);
      RecoverCount(events, actions);
      var orphans := Orphans(events, actions);
      events := RequeueWhere(events, orphans);
      actions := RollbackWhere(actions, WithStatus(events, EventStatus.Pending));
      var held := WithStatus(events, EventStatus.Processing);
      actions := RollbackWhere(actions, held);
      events := RequeueWhere(events, held);
      n := |held| + |orphans|;
      assert Db().rows == RecoverDb(was).rows;
    }

    method RequeueEvent(id: Id) returns (ok: bool)
      requires Valid()
      modifies this
      ensures Valid()
      ensures ok == (id in old(events) && old(events)[id].status.Processing?)
      ensures Db() == if ok then PutRow(old(Db()), id, RequeueRow(old(Db()).rows[id])) else old(Db())
    {
      ghost var was := Db();
      var newActions := RollbackWhere(actions, {id});
      if !(id in events && events[id].status.Processing?) {
        return false;
      }
      events := RequeueWhere(events, {id});
      actions := newActions;
      ok := true;
      RollbackFacts([]);
      UndoIsRollback(was.rows[id].acts);
      assert Db().rows == PutRow(was, id, RequeueRow(was.rows[id])).rows;
    }

    method ReplayDeadEvent(id: Id, reason: string, now: int) returns (result: ReplayResult)
      requires Valid()
      modifies this
      ensures Valid()
      ensures result.NotRetryable? <==> id !in old(events) || !old(events)[id].status.Dead?
      ensures result.Unavailable? <==> id in old(events) && old(events)[id].status.Dead? && old(events)[id].payload == "" && old(events)[id].vars == ""
      ensures result.Replayed? ==>
                && result.generation == old(events)[id].generation + 1
                && Db() == PutRow(old(Db()), id, ReplayRow(old(Db()).rows[id], reason, now))
      ensures !result.Replayed? ==> Db() == old(Db())
    {
      ghost var was := Db();
      if id !in events || !events[id].status.Dead? {
        return NotRetryable;
      }
      var ev := events[id];
      if ev.payload == "" && ev.vars == "" {
        return Unavailable;
      }
      if id in actions {
        var acts := actions[id];
        var revived := seq(|acts|, i requires 0 <= i < |acts| =>
          if acts[i].status == ActionStatus.Dead then Action(ActionStatus.Pending, 0, Some(Ms(now)), None, None, None) else acts[i]);
        assert revived == ReviveAll(acts, now);
        actions := actions[id := revived];
      } else {
        assert ReviveAll([], now) == [];
      }
      events := events[id := ev.(status := EventStatus.Pending, next := Some(Ms(now)), processed := None,
                                 leaseUntil := None, owner := None, generation := ev.generation + 1,
                                 replayed := Some(Ms(now)), reason := Some(reason))];
      result := Replayed(ev.generation + 1);
      assert Db().rows == PutRow(was, id, ReplayRow(was.rows[id], reason, now)).rows;
    }

    /** Writes the variables and inserts the missing action rows one by one. */
    method PrepareEvent(id: Id, vars: string, count: nat, clear: bool, now: int) returns (ok: bool)
      requires Valid()
      modifies this
      ensures Valid()
      ensures ok == (id in old(events) && old(events)[id].status.Processing?)
      ensures Db() == if ok then PutRow(old(Db()), id, PrepareRow(old(Db()).rows[id], vars, count, clear, now)) else old(Db())
    {
      ghost var was := Db();
      if !(id in events && events[id].status.Processing?) {
        return false;
      }
      var ev := events[id].(vars := vars);
      var acts := ActionsOf(actions, id);
      ghost var before := acts;
      for i := 0 to count
        invariant |acts| == if |before| >= i then |before| else i
        invariant acts == PreparedActs(before, i, now)
      {
        if i >= |acts| {
          acts := acts + [Action(ActionStatus.Pending, 0, Some(Ms(now)), None, None, None)];
        }
        assert acts == PreparedActs(before, i + 1, now);
      }
      if clear {
        ev := ev.(payload := "");
      }
      events := events[id := ev];
      actions := actions[id := acts];
      ok := true;
      assert Db().rows == PutRow(was, id, PrepareRow(was.rows[id], vars, count, clear, now)).rows;
    }

    method ListActionStates(id: Id) returns (states: seq<Action>)
      ensures states == ActionsOf(actions, id)
    {
      states := ActionsOf(actions, id);
    }

    method StartAction(id: Id, index: nat, now: int) returns (attempt: Option<nat>)
      requires Valid()
      modifies this
      ensures Valid()
      ensures attempt.Some? <==>
              id in old(Db()).rows && index < |old(Db()).rows[id].acts| && Startable(old(Db()).rows[id].acts[index], now)
      ensures attempt.None? ==> Db() == old(Db())
      ensures attempt.Some? ==>
                var r := old(Db()).rows[id];
                && attempt.value == r.acts[index].attempts + 1
                && Db() == PutRow(old(Db()), id, PutAction(r, index, Started(r.acts[index])))
    {
      ghost var was := Db();
      var acts := ActionsOf(actions, id);
      if index >= |acts| {
        return None;
      }
      var a := acts[index];
      if !(a.status == ActionStatus.Pending || a.status == ActionStatus.Retrying) || (a.next.Some? && a.next.value > Ms(now))
         || (a.next.None? && 0 > Ms(now)) {
        return None;
      }
      actions := actions[id := acts[index := a.(status := ActionStatus.Running, attempts := a.attempts + 1, next := None)]];
      attempt := Some(a.attempts + 1);
      assert Db().rows == PutRow(was, id, PutAction(was.rows[id], index, Started(was.rows[id].acts[index]))).rows;
    }

    /** updateRunningAction: the assignment is applied to the row if it is running. */
    method UpdateRunningAction(id: Id, index: nat, update: Action -> Action) returns (ok: bool)
      requires Valid()
      modifies this
      ensures Valid()
      ensures ok == (id in old(Db()).rows && index < |old(Db()).rows[id].acts| && old(Db()).rows[id].acts[index].status.Running?)
      ensures Db() == if ok then PutRow(old(Db()), id, PutAction(old(Db()).rows[id], index, update(old(Db()).rows[id].acts[index])))
                      else old(Db())
    {
      ghost var was := Db();
      var acts := ActionsOf(actions, id);
      if index >= |acts| || !acts[index].status.Running? {
        return false;
      }
      actions := actions[id := acts[index := update(acts[index])]];
      ok := true;
      assert Db().rows == PutRow(was, id, PutAction(was.rows[id], index, update(was.rows[id].acts[index]))).rows;
    }

    method CompleteAction(id: Id, index: nat, now: int) returns (ok: bool)
      requires Valid()
      modifies this
      ensures Valid()
      ensures ok == (id in old(Db()).rows && index < |old(Db()).rows[id].acts| && old(Db()).rows[id].acts[index].status.Running?)
      ensures Db() == if ok then PutRow(old(Db()), id, PutAction(old(Db()).rows[id], index, Completed(old(Db()).rows[id].acts[index], now)))
                      else old(Db())
    {
      ok := UpdateRunningAction(id, index, (a: Action) => a.(status := ActionStatus.Done, next := None, error := None, retryAfter := None,
                                                   completed := Some(Ms(now))));
    }

    method ScheduleActionRetry(id: Id, index: nat, next: int, detail: string, retryAfter: int) returns (ok: bool)
      requires Valid()
      modifies this
      ensures Valid()
      ensures ok == (id in old(Db()).rows && index < |old(Db()).rows[id].acts| && old(Db()).rows[id].acts[index].status.Running?)
      ensures Db() == if ok then PutRow(old(Db()), id, PutAction(old(Db()).rows[id], index,
                                                                 Postponed(old(Db()).rows[id].acts[index], next, detail, retryAfter)))
                      else old(Db())
    {
      ok := UpdateRunningAction(id, index, (a: Action) => a.(status := ActionStatus.Retrying, next := Some(Ms(next)), error := Some(detail),
                                                   retryAfter := Some(Ms(retryAfter)), completed := None));
    }

    method DeadAction(id: Id, index: nat, detail: string, now: int) returns (ok: bool)
      requires Valid()
      modifies this
      ensures Valid()
      ensures ok == (id in old(Db()).rows && index < |old(Db()).rows[id].acts| && old(Db()).rows[id].acts[index].status.Running?)
      ensures Db() == if ok then PutRow(old(Db()), id, PutAction(old(Db()).rows[id], index, Buried(old(Db()).rows[id].acts[index], detail, now)))
                      else old(Db())
    {
      ok := UpdateRunningAction(id, index, (a: Action) => a.(status := ActionStatus.Dead, next := None, error := Some(detail),
                                                   retryAfter := None, completed := Some(Ms(now))));
    }

    method ExpireAction(id: Id, index: nat, now: int) returns (ok: bool)
      requires Valid()
      modifies this
      ensures Valid()
      ensures ok == (id in old(Db()).rows && index < |old(Db()).rows[id].acts| && old(Db()).rows[id].acts[index].status.Unfinished())
      ensures Db() == if ok then PutRow(old(Db()), id, PutAction(old(Db()).rows[id], index, Buried(old(Db()).rows[id].acts[index], EXPIRED, now)))
                      else old(Db())
    {
      ghost var was := Db();
      var acts := ActionsOf(actions, id);
      if index >= |acts| || !(acts[index].status == ActionStatus.Pending || acts[index].status == ActionStatus.Retrying) {
        return false;
      }
      actions := actions[id := acts[index := acts[index].(status := ActionStatus.Dead, next := None,
                                                          error := Some("maximum retry age exceeded"), retryAfter := None,
                                                          completed := Some(Ms(now)))]];
      ok := true;
      assert Db().rows == PutRow(was, id, PutAction(was.rows[id], index, Buried(was.rows[id].acts[index], EXPIRED, now))).rows;
    }

    /** The query of RefreshEventStatus. None when there are no action rows. */
    method ReadTotals(id: Id) returns (t: Option<Totals>)
      requires Valid()
      ensures t.Some? <==> id in Db().rows && Db().rows[id].acts != []
      ensures t.Some? ==> t.value == TotalsOf(Db().rows[id].acts)
    {
      var totals := Aggregate(ActionsOf(actions, id));
      if totals.total == 0 {
        return None;
      }
      t := Some(totals);
    }

    /** Its update, a separate transaction: it writes what the totals said when they were read. */
    method WriteTotals(id: Id, t: Totals, now: int) returns (status: Option<EventStatus>)
      requires Valid()
      modifies this
      ensures Valid()
      ensures status.Some? <==> id in old(events)
      ensures status.None? ==> Db() == old(Db())
      ensures status.Some? ==>
                status.value == Verdict(t) && Db() == PutRow(old(Db()), id, RefreshRow(old(Db()).rows[id], t, now))
    {
      ghost var was := Db();
      var verdict := EventStatus.Pending;
      var processed, due := None, Some(Ms(now));
      if t.done == t.total {
        verdict, processed, due := EventStatus.Done, Some(Ms(now)), None;
      } else if t.dead > 0 && t.done + t.dead == t.total {
        verdict, processed, due := EventStatus.Dead, Some(Ms(now)), None;
      } else if t.retrying > 0 {
        verdict := EventStatus.Retrying;
        if t.next.Some? {
          due := t.next;
        }
      }
      if id !in events {
        return None;
      }
      events := events[id := events[id].(status := verdict, processed := processed, next := due, leaseUntil := None, owner := None)];
      status := Some(verdict);
      assert Db().rows == PutRow(was, id, RefreshRow(was.rows[id], t, now)).rows;
    }

    method UpdateEventStatus(id: Id, status: EventStatus, at: int) returns (ok: bool)
      requires Valid()
      modifies this
      ensures Valid()
      ensures ok == (id in old(events))
      ensures Db() == if ok then PutRow(old(Db()), id, EndRow(old(Db()).rows[id], status, at)) else old(Db())
    {
      ghost var was := Db();
      if id !in events {
        return false;
      }
      events := events[id := events[id].(status := status, processed := Some(Ms(at)), next := None, leaseUntil := None, owner := None)];
      ok := true;
      assert Db().rows == PutRow(was, id, EndRow(was.rows[id], status, at)).rows;
    }

    method ClearPayload(id: Id)
      requires Valid()
      modifies this
      ensures Valid()
      ensures Db() == if id in old(events) then PutRow(old(Db()), id, ClearRow(old(Db()).rows[id])) else old(Db())
    {
      ghost var was := Db();
      if id in events {
        events := events[id := events[id].(payload := "")];
        assert Db().rows == PutRow(was, id, ClearRow(was.rows[id])).rows;
      }
    }

    method RenewLease(id: Id, lease: int, now: int, owner: string) returns (ok: bool)
      requires Valid()
      modifies this
      ensures Valid()
      ensures ok == (id in old(events) && Renewable(old(events)[id], owner))
      ensures Db() == if ok then PutRow(old(Db()), id, RenewRow(old(Db()).rows[id], lease, now)) else old(Db())
    {
      ghost var was := Db();
      var length := lease;
      if length <= 0 {
        length := 120 * 1_000_000_000;
      }
      if !(id in events && events[id].status == EventStatus.Processing &&
           (events[id].owner.None? || events[id].owner.value == "" || events[id].owner.value == owner)) {
        return false;
      }
      events := events[id := events[id].(leaseUntil := Some(Ms(now + length)))];
      ok := true;
      assert Db().rows == PutRow(was, id, RenewRow(was.rows[id], lease, now)).rows;
    }

    /** Action rows first, then the events they belong to, then the expired replay guards. */
    method PurgeOlderThan(cutoff: int, now: int) returns (n: nat)
      requires Valid()
      modifies this
      ensures Valid()
      ensures Db() == PurgeDb(old(Db()), Ms(cutoff), Ms(now))
      ensures n == |set id | id in old(events) && Purgeable(old(events)[id], Ms(cutoff))|
    {
      ghost var was := Db();
      var old' := set id | id in events &&
        (events[id].status == EventStatus.Done || events[id].status == EventStatus.Dead || events[id].status == EventStatus.Skipped) &&
        (if events[id].processed.Some? then events[id].processed.value else events[id].received) < Ms(cutoff);
      PurgedAre(events, Ms(cutoff), old');
      JoinWithout(events, actions, old');
      actions := actions - old';
      events := events - old';
      guards := map k | k in guards && guards[k] >= Ms(now) :: guards[k];
      n := |old'|;
      assert Db().rows == PurgeDb(was, Ms(cutoff), Ms(now)).rows;
    }
  }
}
