/** The whole store as one value, and the transactions that touch more than one row. */
module Tables {
  import opened Wrappers
  import opened Rows

  datatype GuardKey = GuardKey(source: string, bodyHash: string)

  datatype DB = DB(rows: map<Id, Row>, guards: map<GuardKey, int>)

  /** The arguments of savePendingEvent; `guardUntil` is None for the unguarded form. */
  datatype Request = Request(
    id: Id, source: string, payload: string, at: int, delivery: string, bodyHash: string, plan: nat,
    guardUntil: Option<int>)
  {
    predicate Guarded() {
      guardUntil.Some? && bodyHash != ""
    }
    function Key(): GuardKey {
      GuardKey(source, bodyHash)
    }
    function NewEvent(): Event {
      Event(source, delivery, bodyHash, payload, plan, "", EventStatus.Pending, Ms(at), None, None, None,
            Some(Ms(at)), 0, None, None)
    }
  }

  datatype SaveResult = Saved | DuplicateBody | DuplicateEvent

  predicate BodyBlocked(db: DB, req: Request) {
    req.Guarded() && req.Key() in db.guards && db.guards[req.Key()] > Ms(req.at)
  }

  /** The primary key, or the partial unique index on (source, external_delivery_id). */
  predicate EventBlocked(db: DB, req: Request) {
    || req.id in db.rows
    || (req.delivery != "" &&
        exists id :: id in db.rows && db.rows[id].ev.source == req.source && db.rows[id].ev.delivery == req.delivery)
  }

  function SaveOutcome(db: DB, req: Request): SaveResult {
    if BodyBlocked(db, req) then DuplicateBody
    else if EventBlocked(db, req) then DuplicateEvent
    else Saved
  }

  function SaveDb(db: DB, req: Request): DB {
    if SaveOutcome(db, req) != Saved then db
    else DB(db.rows[req.id := Row(req.NewEvent(), [])],
            if req.Guarded() then db.guards[req.Key() := Ms(req.guardUntil.value)] else db.guards)
  }

  /** `id` is a claimable event that no other claimable event precedes in due time. */
  predicate DueFirst(db: DB, id: Id, nowMs: int) {
    && id in db.rows && Claimable(db.rows[id].ev, nowMs)
    && forall other :: other in db.rows && Claimable(db.rows[other].ev, nowMs) ==> DueAt(db.rows[id].ev) <= DueAt(db.rows[other].ev)
  }

  predicate SomeClaimable(db: DB, nowMs: int) {
    exists id :: id in db.rows && Claimable(db.rows[id].ev, nowMs)
  }

  function ExpireDb(db: DB, nowMs: int): DB {
    db.(rows := map id | id in db.rows :: ExpireRow(db.rows[id], nowMs))
  }

  function RecoverDb(db: DB): DB {
    db.(rows := map id | id in db.rows :: RecoverRow(db.rows[id]))
  }

  function PurgeDb(db: DB, cutoffMs: int, nowMs: int): DB {
    DB(map id | id in db.rows && !Purgeable(db.rows[id].ev, cutoffMs) :: db.rows[id],
       map k | k in db.guards && db.guards[k] >= nowMs :: db.guards[k])
  }

  function PutRow(db: DB, id: Id, r: Row): DB {
    db.(rows := db.rows[id := r])
  }
}
