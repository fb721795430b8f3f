/**
  The durable outbox as a step relation: the store, any number of workers, and the clock.

  A worker's pass holds only what `Queue.process` keeps in local variables. Every step is one store transaction (or
  the loss of a worker), so a run interleaves the transactions of all workers, the API and the retention loop freely.
  A clock value used by a transaction was read at or after the pass's previous transaction and at or before now.
  RefreshEventStatus is two steps, because its query and its update are not in one transaction.
 */
module Protocol {
  import opened Wrappers
  import opened Rows
  import opened Tables
  import opened Backoff

  type Worker = nat
  type Vars = map<string, string>

  /** The outcome of extraction, allowlist, rules and redaction. */
  datatype Extraction = Passed(vars: Vars) | Rejected | RuleError

  /**
    Queue settings, the JSON codec for variables, and what each event's payload is extracted to. The id stands for all
    else that is fixed when an event is stored: its source, its delivery id and its snapshot of the source's rules.
   */
  datatype Config = Config(
    maxRetries: nat, retryBase: int, maxDelay: int, maxAge: int,
    encode: Vars -> string, decode: string -> Option<Vars>, extract: (Id, string) -> Extraction)
  {
    /** Encoding a map never gives the empty text, and decoding it gives the map back. */
    ghost predicate RoundTrips() {
      forall v :: encode(v) != "" && decode(encode(v)) == Some(v)
    }

    /** The instant (in nanoseconds) from which no attempt is made, for a retry age counted from `anchor`. */
    function Deadline(anchor: int): int {
      anchor * NS_PER_MS + maxAge
    }
  }

  // ---- decisions taken on local values ----

  /** What an event calls for before any action. */
  datatype Prelude = Proceed(vars: Vars) | Unwanted | Unusable

  /** By the outcome of its extraction. */
  function Calls(x: Extraction): Prelude {
    match x
    case Passed(vars) => Proceed(vars)
    case Rejected => Unwanted
    case RuleError => Unusable
  }

  /** By the variables stored with the event, or else by its payload. */
  function PreludeOf(c: Config, id: Id, text: string, payload: string): Prelude {
    if text != "" then
      var vars := c.decode(text);
      if vars.Some? then Proceed(vars.value) else Unusable
    else if payload == "" then Unusable
    else Calls(c.extract(id, payload))
  }

  datatype Choice = PassOver | GiveUp | Try

  /** What the loop does with one action, from the states listed at the start of the pass. */
  function Choose(c: Config, anchor: int, states: seq<Action>, i: nat, now: int): Choice {
    if i >= |states| || states[i].status.Done? || states[i].status.Dead? then PassOver
    else if states[i].status.Unfinished() && now >= c.Deadline(anchor) then GiveUp
    else if states[i].status.Retrying? && states[i].next.Or(0) > Ms(now) then PassOver
    else Try
  }

  /** A handler's answer; `jitter` is the random delay drawn when the answer carries no Retry-After. */
  datatype Answer = Success | Permanent(detail: string) | Transient(detail: string, retryAfter: int, jitter: int)

  datatype Decision = Complete | Bury(reason: string) | Postpone(next: int, reason: string, after: int)

  /** What the loop does with a handler's answer; `now` is when the delay is added. */
  function Decide(c: Config, anchor: int, attempt: nat, answer: Answer, now: int): Decision {
    match answer
    case Success => Complete
    case Permanent(detail) => Bury(detail)
    case Transient(detail, retryAfter, jitter) =>
      if attempt >= c.maxRetries + 1 then Bury(detail)
      else
        var next := now + if retryAfter > 0 then retryAfter else jitter;
        if next >= c.Deadline(anchor) then Bury("retry deadline exceeded: " + detail)
        else Postpone(next, detail, retryAfter)
  }

  function Settle(a: Action, d: Decision, now: int): Action {
    match d
    case Complete => Completed(a, now)
    case Bury(reason) => Buried(a, reason, now)
    case Postpone(next, reason, after) => Postponed(a, next, reason, after)
  }

  predicate Drawn(c: Config, attempt: nat, answer: Answer) {
    answer.Transient? ==> 0 <= answer.retryAfter && 0 <= answer.jitter <= RetryCap(c.retryBase, c.maxDelay, attempt)
  }

  // ---- state ----

  datatype Phase = Claimed | Prepared | Walking | InFlight | Folding | Clearing

  /**
    `text` and `payload` are as claimed, `since` is the clock when the claim committed, `seen` the clock at the pass's
    latest transaction; `states` were read once, `index` is the loop position, `attempt` the number StartAction
    returned; `read` and `end` are what RefreshEventStatus has read and the clock it was given.
   */
  datatype Pass = Pass(
    id: Id, anchor: int, plan: nat, text: string, payload: string, since: int, seen: int,
    vars: Vars, states: seq<Action>, index: nat, attempt: nat, read: Totals, end: int, phase: Phase)
  {
    /** A pass in the Clearing phase has already given its event up. */
    predicate Owns() {
      !phase.Clearing?
    }
  }

  /** `up` is false from a crash until startup recovery has committed; `issued` holds the payload of every event ever accepted. */
  datatype Sys = Sys(db: DB, clock: int, up: bool, passes: map<Worker, Pass>, issued: map<Id, string>)

  function Init(clock: int): Sys {
    Sys(DB(map[], map[]), clock, false, map[], map[])
  }

  datatype Step =
    | Tick(now: int)
    | Accept(req: Request)
    | ExpireLeases(now: int)
    | Claim(w: Worker, id: Id, lease: int, now: int, owner: string)
    | Fail(w: Worker, now: int)
    | Skip(w: Worker, clear: bool, now: int)
    | Clear(w: Worker)
    | Prepare(w: Worker, vars: Vars, clear: bool, now: int)
    | List(w: Worker)
    | Over(w: Worker, now: int)
    | Miss(w: Worker, now: int)
    | GiveUpOn(w: Worker, now: int)
    | Start(w: Worker, now: int)
    | Finish(w: Worker, answer: Answer, decided: int, now: int)
    | Scan(w: Worker, now: int)
    | Refresh(w: Worker)
    | Abort(w: Worker)
    | Abandon(w: Worker)
    | Renew(id: Id, lease: int, now: int, owner: string)
    | Replay(id: Id, reason: string, now: int)
    | Purge(cutoff: int, now: int)
    | Crash
    | Recover

  // ---- helpers ----

  predicate At(s: Sys, w: Worker, phase: Phase) {
    s.up && w in s.passes && s.passes[w].phase == phase
  }

  /** As `At`, and the event still exists; `now` is a clock reading of this pass. */
  predicate Acts(s: Sys, w: Worker, phase: Phase, now: int) {
    At(s, w, phase) && s.passes[w].id in s.db.rows && s.passes[w].seen <= now <= s.clock
  }

  function RowOf(s: Sys, w: Worker): Row
    requires w in s.passes && s.passes[w].id in s.db.rows
  {
    s.db.rows[s.passes[w].id]
  }

  function Write(s: Sys, w: Worker, r: Row, p: Pass): Sys {
    s.(db := PutRow(s.db, p.id, r), passes := s.passes[w := p.(seen := s.clock)])
  }

  function Leave(s: Sys, w: Worker, r: Row): Sys
    requires w in s.passes
  {
    s.(db := PutRow(s.db, s.passes[w].id, r), passes := s.passes - {w})
  }

  function Move(s: Sys, w: Worker, p: Pass): Sys {
    s.(passes := s.passes[w := p.(seen := s.clock)])
  }

  function NextIndex(p: Pass): Pass {
    p.(index := p.index + 1, phase := Walking)
  }

  function Chosen(c: Config, p: Pass, now: int): Choice {
    Choose(c, p.anchor, p.states, p.index, now)
  }

  /** What the pass finds its event to call for; the stored payload is read only if none was claimed. */
  function Finds(c: Config, p: Pass, r: Row): Prelude {
    PreludeOf(c, p.id, p.text, if p.payload != "" then p.payload else r.ev.payload)
  }

  // ---- when a step may be taken ----

  predicate Enabled(c: Config, s: Sys, step: Step) {
    match step
    case Tick(now) => s.clock <= now
    case Accept(req) =>
      && s.up && req.at <= s.clock && req.payload != "" && req.plan >= 1
      && (req.id in s.issued ==> req.id in s.db.rows)
    case ExpireLeases(now) => s.up && now <= s.clock
    case Claim(w, id, lease, now, owner) =>
      s.up && w !in s.passes && id in s.db.rows && now <= s.clock && Claimable(s.db.rows[id].ev, Ms(now))
    case Fail(w, now) =>
      Acts(s, w, Claimed, now) && Finds(c, s.passes[w], RowOf(s, w)).Unusable?
    case Skip(w, clear, now) =>
      Acts(s, w, Claimed, now) && Finds(c, s.passes[w], RowOf(s, w)).Unwanted?
    case Clear(w) => At(s, w, Clearing)
    case Prepare(w, vars, clear, now) =>
      && Acts(s, w, Claimed, now) && RowOf(s, w).ev.status.Processing?
      && Finds(c, s.passes[w], RowOf(s, w)) == Proceed(vars)
    case List(w) => At(s, w, Prepared) && s.passes[w].id in s.db.rows
    case Over(w, now) => WalksTo(c, s, w, now, PassOver)
    case Miss(w, now) =>
      && WalksTo(c, s, w, now, Try)
      && !(s.passes[w].index < |RowOf(s, w).acts| && Startable(RowOf(s, w).acts[s.passes[w].index], now))
    case GiveUpOn(w, now) =>
      && WalksTo(c, s, w, now, GiveUp)
      && s.passes[w].index < |RowOf(s, w).acts| && RowOf(s, w).acts[s.passes[w].index].status.Unfinished()
    case Start(w, now) =>
      && WalksTo(c, s, w, now, Try)
      && s.passes[w].index < |RowOf(s, w).acts| && Startable(RowOf(s, w).acts[s.passes[w].index], now)
    case Finish(w, answer, decided, now) =>
      && Acts(s, w, InFlight, decided) && decided <= now <= s.clock && Drawn(c, s.passes[w].attempt, answer)
      && s.passes[w].index < |RowOf(s, w).acts| && RowOf(s, w).acts[s.passes[w].index].status.Running?
    case Scan(w, now) =>
      Acts(s, w, Walking, now) && s.passes[w].index >= s.passes[w].plan && RowOf(s, w).acts != []
    case Refresh(w) => At(s, w, Folding) && s.passes[w].id in s.db.rows
    case Abort(w) => s.up && w in s.passes && s.passes[w].Owns()
    case Abandon(w) => s.up && w in s.passes
    case Renew(id, lease, now, owner) =>
      s.up && now <= s.clock && id in s.db.rows && Renewable(s.db.rows[id].ev, owner)
    case Replay(id, reason, now) =>
      && s.up && now <= s.clock && id in s.db.rows && s.db.rows[id].ev.status.Dead?
      && (s.db.rows[id].ev.payload != "" || s.db.rows[id].ev.vars != "")
    case Purge(cutoff, now) => s.up && now <= s.clock
    case Crash => true
    case Recover => !s.up
  }

  /** The pass stands at a loop position and chooses `choice` there. */
  predicate WalksTo(c: Config, s: Sys, w: Worker, now: int, choice: Choice) {
    Acts(s, w, Walking, now) && s.passes[w].index < s.passes[w].plan && Chosen(c, s.passes[w], now) == choice
  }

  // ---- what a step does ----

  function Do(c: Config, s: Sys, step: Step): Sys
    requires Enabled(c, s, step)
  {
    match step
    case Tick(now) => s.(clock := now)
    case Accept(req) => DoAccept(s, req)
    case ExpireLeases(now) => s.(db := ExpireDb(s.db, Ms(now)))
    case Claim(w, id, lease, now, owner) => DoClaim(s, w, id, lease, now, owner)
    case Fail(w, now) => Leave(s, w, EndRow(RowOf(s, w), EventStatus.Dead, now))
    case Skip(w, clear, now) => DoSkip(s, w, clear, now)
    case Clear(w) => DoClear(s, w)
    case Prepare(w, vars, clear, now) => DoPrepare(c, s, w, vars, clear, now)
    case List(w) => Move(s, w, s.passes[w].(states := RowOf(s, w).acts, index := 0, phase := Walking))
    case Over(w, now) => Move(s, w, NextIndex(s.passes[w]))
    case Miss(w, now) => Move(s, w, NextIndex(s.passes[w]))
    case GiveUpOn(w, now) => DoGiveUp(s, w, now)
    case Start(w, now) => DoStart(s, w)
    case Finish(w, answer, decided, now) => DoFinish(c, s, w, answer, decided, now)
    case Scan(w, now) => Move(s, w, s.passes[w].(read := TotalsOf(RowOf(s, w).acts), end := now, phase := Folding))
    case Refresh(w) => Leave(s, w, RefreshRow(RowOf(s, w), s.passes[w].read, s.passes[w].end))
    case Abort(w) => DoAbort(s, w)
    case Abandon(w) => s.(passes := s.passes - {w})
    case Renew(id, lease, now, owner) => s.(db := PutRow(s.db, id, RenewRow(s.db.rows[id], lease, now)))
    case Replay(id, reason, now) => s.(db := PutRow(s.db, id, ReplayRow(s.db.rows[id], reason, now)))
    case Purge(cutoff, now) => s.(db := PurgeDb(s.db, Ms(cutoff), Ms(now)))
    case Crash => s.(up := false, passes := map[])
    case Recover => s.(db := RecoverDb(s.db), up := true)
  }

  function DoAccept(s: Sys, req: Request): Sys {
    s.(db := SaveDb(s.db, req), issued := if SaveOutcome(s.db, req).Saved? then s.issued[req.id := req.payload] else s.issued)
  }

  const NOTHING_READ := Totals(0, 0, 0, 0, None)

  function DoClaim(s: Sys, w: Worker, id: Id, lease: int, now: int, owner: string): Sys
    requires id in s.db.rows
  {
    var ev := s.db.rows[id].ev;
    Write(s, w, ClaimRow(s.db.rows[id], lease, now, owner),
          Pass(id, ev.Anchor(), ev.plan, ev.vars, ev.payload, s.clock, s.clock, map[], [], 0, 0, NOTHING_READ, 0, Claimed))
  }

  function DoSkip(s: Sys, w: Worker, clear: bool, now: int): Sys
    requires w in s.passes && s.passes[w].id in s.db.rows
  {
    var r := EndRow(RowOf(s, w), EventStatus.Skipped, now);
    if clear then Write(s, w, r, s.passes[w].(phase := Clearing)) else Leave(s, w, r)
  }

  function DoClear(s: Sys, w: Worker): Sys
    requires w in s.passes
  {
    if s.passes[w].id in s.db.rows then Leave(s, w, ClearRow(RowOf(s, w))) else s.(passes := s.passes - {w})
  }

  function DoPrepare(c: Config, s: Sys, w: Worker, vars: Vars, clear: bool, now: int): Sys
    requires w in s.passes && s.passes[w].id in s.db.rows
  {
    var p := s.passes[w];
    Write(s, w, PrepareRow(RowOf(s, w), c.encode(vars), p.plan, clear, now), p.(vars := vars, phase := Prepared))
  }

  function DoGiveUp(s: Sys, w: Worker, now: int): Sys
    requires w in s.passes && s.passes[w].id in s.db.rows && s.passes[w].index < |RowOf(s, w).acts|
  {
    var p := s.passes[w];
    Write(s, w, PutAction(RowOf(s, w), p.index, Buried(RowOf(s, w).acts[p.index], EXPIRED, now)), NextIndex(p))
  }

  function DoStart(s: Sys, w: Worker): Sys
    requires w in s.passes && s.passes[w].id in s.db.rows && s.passes[w].index < |RowOf(s, w).acts|
  {
    var p := s.passes[w];
    var a := Started(RowOf(s, w).acts[p.index]);
    Write(s, w, PutAction(RowOf(s, w), p.index, a), p.(attempt := a.attempts, phase := InFlight))
  }

  function DoFinish(c: Config, s: Sys, w: Worker, answer: Answer, decided: int, now: int): Sys
    requires w in s.passes && s.passes[w].id in s.db.rows && s.passes[w].index < |RowOf(s, w).acts|
  {
    var p := s.passes[w];
    var d := Decide(c, p.anchor, p.attempt, answer, decided);
    Write(s, w, PutAction(RowOf(s, w), p.index, Settle(RowOf(s, w).acts[p.index], d, now)), NextIndex(p))
  }

  /** RequeueEvent, which has no effect unless the event is still `processing`. */
  function DoAbort(s: Sys, w: Worker): Sys
    requires w in s.passes
  {
    if s.passes[w].id in s.db.rows then Leave(s, w, RequeueRow(RowOf(s, w))) else s.(passes := s.passes - {w})
  }

  // ---- runs ----

  predicate Legal(c: Config, s: Sys, steps: seq<Step>)
    decreases |steps|
  {
    steps == [] || (Enabled(c, s, steps[0]) && Legal(c, Do(c, s, steps[0]), steps[1..]))
  }

  function Exec(c: Config, s: Sys, steps: seq<Step>): Sys
    requires Legal(c, s, steps)
    decreases |steps|
  {
    if steps == [] then s else Exec(c, Do(c, s, steps[0]), steps[1..])
  }

  /** No live pass's lease has passed: the lease covers the pass, or its heartbeat renewed it in time. */
  ghost predicate Timely(s: Sys) {
    forall w :: w in s.passes && s.passes[w].Owns() && s.passes[w].id in s.db.rows ==>
      Ms(s.clock) <= RowOf(s, w).ev.leaseUntil.Or(0)
  }

  ghost predicate TimelyRun(c: Config, s: Sys, steps: seq<Step>)
    requires Legal(c, s, steps)
    decreases |steps|
  {
    Timely(s) && (steps == [] || TimelyRun(c, Do(c, s, steps[0]), steps[1..]))
  }

  // ---- putting runs together ----

  lemma {:induction false} ExecSnoc(c: Config, s: Sys, steps: seq<Step>, x: Step)
    requires Legal(c, s, steps) && Enabled(c, Exec(c, s, steps), x)
    ensures Legal(c, s, steps + [x]) && Exec(c, s, steps + [x]) == Do(c, Exec(c, s, steps), x)
    decreases |steps|
  {
    if steps == [] {
      assert ([] + [x])[1..] == [];
      assert [] + [x] == [x];
    } else {
      ExecSnoc(c, Do(c, s, steps[0]), steps[1..], x);
      assert (steps + [x])[1..] == steps[1..] + [x];
    }
  }

  lemma {:induction false} ExecAppend(c: Config, s: Sys, xs: seq<Step>, ys: seq<Step>)
    requires Legal(c, s, xs) && Legal(c, Exec(c, s, xs), ys)
    ensures Legal(c, s, xs + ys) && Exec(c, s, xs + ys) == Exec(c, Exec(c, s, xs), ys)
    decreases |xs|
  {
    if xs == [] {
      assert xs + ys == ys;
    } else {
      assert (xs + ys)[0] == xs[0] && (xs + ys)[1..] == xs[1..] + ys;
      ExecAppend(c, Do(c, s, xs[0]), xs[1..], ys);
    }
  }

  /** Some legal run leads from `s` to `s'`. */
  ghost predicate Reached(c: Config, s: Sys, s': Sys) {
    exists steps :: Legal(c, s, steps) && Exec(c, s, steps) == s'
  }

  lemma ReachedStep(c: Config, s: Sys, s': Sys, x: Step, s'': Sys)
    requires (s' == s || Reached(c, s, s')) && Enabled(c, s', x) && Do(c, s', x) == s''
    ensures Reached(c, s, s'')
  {
    if s' == s {
      assert Legal(c, s, []) && Exec(c, s, []) == s';
    }
    var steps :| Legal(c, s, steps) && Exec(c, s, steps) == s';
    ExecSnoc(c, s, steps, x);
    assert Legal(c, s, steps + [x]) && Exec(c, s, steps + [x]) == s'';
  }

  /** Some legal run in which every live lease is current leads from `s` to `s'`. */
  ghost predicate TimelyReached(c: Config, s: Sys, s': Sys) {
    exists steps :: TimelyTo(c, s, steps, s')
  }

  ghost predicate TimelyTo(c: Config, s: Sys, steps: seq<Step>, s': Sys) {
    Legal(c, s, steps) && Exec(c, s, steps) == s' && TimelyRun(c, s, steps)
  }

  lemma {:induction false} TimelySnoc(c: Config, s: Sys, steps: seq<Step>, s': Sys, x: Step)
    requires TimelyTo(c, s, steps, s') && Enabled(c, s', x) && Timely(Do(c, s', x))
    ensures TimelyTo(c, s, steps + [x], Do(c, s', x))
    decreases |steps|
  {
    if steps == [] {
      assert steps + [x] == [x] && [x][1..] == [];
    } else {
      assert (steps + [x])[0] == steps[0] && (steps + [x])[1..] == steps[1..] + [x];
      TimelySnoc(c, Do(c, s, steps[0]), steps[1..], s', x);
    }
  }

  lemma TimelyStep(c: Config, s: Sys, s': Sys, x: Step, s'': Sys)
    requires (s' == s && Timely(s)) || TimelyReached(c, s, s')
    requires Enabled(c, s', x) && Do(c, s', x) == s'' && Timely(s'')
    ensures TimelyReached(c, s, s'')
  {
    if s' == s && Timely(s) {
      assert TimelyTo(c, s, [], s);
    }
    var steps :| TimelyTo(c, s, steps, s');
    TimelySnoc(c, s, steps, s', x);
    assert TimelyTo(c, s, steps + [x], s'');
  }

  lemma TimelyIsReached(c: Config, s: Sys, s': Sys)
    requires TimelyReached(c, s, s')
    ensures Reached(c, s, s')
  {
    var steps :| TimelyTo(c, s, steps, s');
    assert Legal(c, s, steps) && Exec(c, s, steps) == s';
  }
}
