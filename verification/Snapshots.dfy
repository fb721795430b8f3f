/**
  The paged rewrite of stored action snapshots.

  The table is held in primary-key order, as a keyset query reads it. An empty `raw` stands for NULL or "".
 */
module Snapshots {
  import opened Strings
  import opened Wrappers

  const BATCH_ROWS := 128
  const BATCH_BYTES := 1_048_576

  datatype Row = Row(id: string, raw: string) {
    function Size(): nat {
      |id| + |raw|
    }
  }

  // ---- key order ----

  predicate Sorted(t: seq<Row>) {
    forall i, j :: 0 <= i < j < |t| ==> Below(t[i].id, t[j].id)
  }

  // ---- the simple form: one map over the table ----

  type Rewrite = string -> Option<string>

  function Rewritten(row: Row, f: Rewrite): Row {
    if row.raw == "" || f(row.raw).None? then row else row.(raw := f(row.raw).value)
  }

  /** The table with its first `n` rows rewritten. */
  function MapPrefix(t: seq<Row>, n: nat, f: Rewrite): (r: seq<Row>)
    ensures |r| == |t|
    ensures forall i :: 0 <= i < |t| ==> r[i] == if i < n then Rewritten(t[i], f) else t[i]
  {
    seq(|t|, i requires 0 <= i < |t| => if i < n then Rewritten(t[i], f) else t[i])
  }

  /** The non-empty rows among t[from..to], in order: what the rewriter is called for. */
  function Picked(t: seq<Row>, from: nat, to: nat): seq<Row>
    requires from <= to <= |t|
    decreases |t| - from
  {
    if from == to then [] else (if t[from].raw != "" then [t[from]] else []) + Picked(t, from + 1, to)
  }

  lemma {:induction false} PickedSnoc(t: seq<Row>, from: nat, to: nat)
    requires from <= to < |t|
    ensures Picked(t, from, to + 1) == Picked(t, from, to) + if t[to].raw != "" then [t[to]] else []
    decreases |t| - from
  {
    if from < to {
      PickedSnoc(t, from + 1, to);
    } else {
      assert Picked(t, to + 1, to + 1) == [];
    }
  }

  lemma {:induction false} PickedLocal(t: seq<Row>, u: seq<Row>, from: nat, to: nat)
    requires |t| == |u| && from <= to <= |t| && forall i :: from <= i < to ==> t[i] == u[i]
    ensures Picked(t, from, to) == Picked(u, from, to)
    decreases |t| - from
  {
    if from < to {
      PickedLocal(t, u, from + 1, to);
    }
  }

  lemma {:induction false} PickedAppend(t: seq<Row>, from: nat, mid: nat, to: nat)
    requires from <= mid <= to <= |t|
    ensures Picked(t, from, mid) + Picked(t, mid, to) == Picked(t, from, to)
    decreases |t| - from
  {
    if from < mid {
      PickedAppend(t, from + 1, mid, to);
    }
  }

  function Changes(t: seq<Row>, n: nat, f: Rewrite): nat
    requires n <= |t|
  {
    if n == 0 then 0
    else Changes(t, n - 1, f) + if Rewritten(t[n - 1], f) != t[n - 1] then 1 else 0
  }

  // ---- the paged form ----

  datatype Outcome = Complete | Failed(id: string) | Canceled

  /** The position just behind the cursor; without a cursor, the start of the table. */
  predicate Behind(t: seq<Row>, after: Option<string>, from: nat) {
    && from <= |t|
    && (forall i :: 0 <= i < from ==> after.Some? && !Below(after.value, t[i].id))
    && (forall i :: from <= i < |t| && after.Some? ==> Below(after.value, t[i].id))
  }

  function Bytes(batch: seq<Row>): nat {
    if batch == [] then 0 else Bytes(batch[..|batch| - 1]) + batch[|batch| - 1].Size()
  }

  lemma BytesSnoc(batch: seq<Row>, row: Row)
    ensures Bytes(batch + [row]) == Bytes(batch) + row.Size()
  {
    assert (batch + [row])[..|batch|] == batch;
  }

  /** The leading empty rows need no rewriting; behind them is the first picked row. */
  lemma {:induction false} SkipEmpty(t: seq<Row>, f: Rewrite, from: nat, to: nat) returns (pos: nat)
    requires from <= to <= |t|
    ensures from <= pos <= to && Picked(t, pos, to) == Picked(t, from, to)
    ensures MapPrefix(t, pos, f) == MapPrefix(t, from, f) && Changes(t, pos, f) == Changes(t, from, f)
    ensures Picked(t, from, pos) == []
    ensures if Picked(t, from, to) == [] then pos == to else pos < to && t[pos] == Picked(t, from, to)[0] && t[pos].raw != ""
    decreases |t| - from
  {
    if from < to && t[from].raw == "" {
      pos := SkipEmpty(t, f, from + 1, to);
    } else {
      pos := from;
    }
  }

  // ---- the query ----

  /** SELECT ... WHERE the snapshot is not empty AND id > after ORDER BY id, from row `i` on. */
  function Selected(t: seq<Row>, after: Option<string>, i: nat): seq<Row>
    requires i <= |t|
    decreases |t| - i
  {
    if i == |t| then []
    else (if t[i].raw != "" && (after.None? || Below(after.value, t[i].id)) then [t[i]] else []) + Selected(t, after, i + 1)
  }

  lemma {:induction false} SelectedIsPicked(t: seq<Row>, after: Option<string>, from: nat, i: nat)
    requires Behind(t, after, from) && i <= |t|
    ensures Selected(t, after, i) == Picked(t, if i < from then from else i, |t|)
    decreases |t| - i
  {
    if i < |t| {
      SelectedIsPicked(t, after, from, i + 1);
    }
  }

  /** The stretch of the table that holds exactly the first `k` picked rows and ends with the last of them. */
  lemma {:induction false} PickedTake(t: seq<Row>, from: nat, k: nat) returns (to: nat)
    requires from <= |t| && k <= |Picked(t, from, |t|)|
    ensures from <= to <= |t| && Picked(t, from, to) == Picked(t, from, |t|)[..k]
    ensures k > 0 ==> to > from && t[to - 1] == Picked(t, from, |t|)[k - 1]
    decreases |t| - from
  {
    if k == 0 {
      to := from;
    } else if t[from].raw == "" {
      to := PickedTake(t, from + 1, k);
    } else {
      to := PickedTake(t, from + 1, k - 1);
      var all := Picked(t, from, |t|);
      assert all == [t[from]] + Picked(t, from + 1, |t|);
      assert all[..k] == [t[from]] + Picked(t, from + 1, |t|)[..k - 1];
      if k == 1 {
        to := from + 1;
        assert Picked(t, from + 1, from + 1) == [];
      }
    }
  }

  /** `batch` holds the next non-empty rows t[from..to] within the budgets, or the rest of the table is empty. */
  predicate IsBatch(t: seq<Row>, from: nat, to: nat, batch: seq<Row>) {
    && from <= to <= |t| && batch == Picked(t, from, to)
    && |batch| <= BATCH_ROWS && (Bytes(batch) <= BATCH_BYTES || |batch| == 1)
    && (batch == [] ==> to == |t|)
    && (batch != [] ==> to > from && t[to - 1] == batch[|batch| - 1])
  }

  /** A non-empty cut of the query's first page is the next batch. */
  lemma CutIsBatch(t: seq<Row>, from: nat, page: seq<Row>, batch: seq<Row>) returns (to: nat)
    requires from <= |t| && page <= Picked(t, from, |t|) && |page| <= BATCH_ROWS
    requires batch <= page && (page == [] ==> Picked(t, from, |t|) == []) && (page != [] ==> batch != [])
    requires Bytes(batch) <= BATCH_BYTES || |batch| == 1
    ensures IsBatch(t, from, to, batch)
  {
    var all := Picked(t, from, |t|);
    assert batch == all[..|batch|];
    to := PickedTake(t, from, |batch|);
    if batch == [] {
      to := |t|;
    }
  }

  /** The first `upto` rows of `t` are rewritten, each non-empty one handed to the rewriter once, in order. */
  predicate Progress(rows: seq<Row>, t: seq<Row>, f: Rewrite, upto: nat, changed: nat, called: seq<Row>) {
    && upto <= |t| && rows == MapPrefix(t, upto, f) && changed == Changes(t, upto, f)
    && called == Picked(t, 0, upto) && forall i :: 0 <= i < |called| ==> f(called[i].raw).Some?
  }

  /** A run that ended early stopped at row `upto`: the rewriter failed on it, or the context was canceled. */
  predicate Stopped(t: seq<Row>, f: Rewrite, upto: nat, outcome: Outcome, called: seq<Row>, cancelAt: Option<nat>) {
    match outcome
    case Complete => upto == |t|
    case Failed(id) => upto < |t| && t[upto].raw != "" && f(t[upto].raw).None? && id == t[upto].id
    case Canceled => cancelAt.Some? && |called| >= cancelAt.value
  }

  /** `rest` is what is left of a batch that ends before `to`, and its first row stands at `upto`. */
  predicate Pending(t: seq<Row>, upto: nat, to: nat, rest: seq<Row>) {
    && upto <= to <= |t| && Picked(t, upto, to) == rest
    && if rest == [] then upto == to else upto < to && t[upto] == rest[0] && rest[0].raw != ""
  }

  lemma Advance(rows: seq<Row>, t: seq<Row>, f: Rewrite, from: nat, to: nat, changed: nat, called: seq<Row>)
    returns (upto: nat)
    requires Progress(rows, t, f, from, changed, called) && from <= to <= |t|
    ensures Progress(rows, t, f, upto, changed, called) && Pending(t, upto, to, Picked(t, from, to))
  {
    upto := SkipEmpty(t, f, from, to);
    PickedAppend(t, 0, from, upto);
  }

  /** Done with the first row of a batch's rest, the run stands before the next one. */
  lemma NextRow(rows: seq<Row>, t: seq<Row>, f: Rewrite, pos: nat, to: nat, changed: nat, called: seq<Row>, batch: seq<Row>, k: nat)
    returns (upto: nat)
    requires k < |batch| && Pending(t, pos, to, batch[k..]) && Progress(rows, t, f, pos + 1, changed, called)
    ensures Progress(rows, t, f, upto, changed, called) && Pending(t, upto, to, batch[k + 1..])
  {
    var rest := batch[k..];
    assert rest[0] == batch[k] == t[pos];
    assert Picked(t, pos, to) == [t[pos]] + Picked(t, pos + 1, to);
    assert rest[1..] == batch[k + 1..] == Picked(t, pos + 1, to);
    upto := Advance(rows, t, f, pos + 1, to, changed, called);
  }

  /** Where a run that is not canceled stops: before the first non-empty row that the rewriter rejects, or at the end. */
  function StopAt(t: seq<Row>, from: nat, f: Rewrite): (k: nat)
    requires from <= |t|
    ensures from <= k <= |t|
    decreases |t| - from
  {
    if from == |t| || (t[from].raw != "" && f(t[from].raw).None?) then from else StopAt(t, from + 1, f)
  }

  /** It is the only such place: every non-empty row before it is accepted, and it is itself rejected or the end. */
  lemma {:induction false} StopAtIsUnique(t: seq<Row>, from: nat, f: Rewrite, k: nat)
    requires from <= k <= |t|
    ensures k == StopAt(t, from, f) <==>
            && (forall i :: from <= i < k && t[i].raw != "" ==> f(t[i].raw).Some?)
            && (k < |t| ==> t[k].raw != "" && f(t[k].raw).None?)
    ensures (forall i :: from <= i < k && t[i].raw != "" ==> f(t[i].raw).Some?) ==> k <= StopAt(t, from, f)
    decreases |t| - from
  {
    if from < k {
      StopAtIsUnique(t, from + 1, f, k);
    }
  }

  lemma {:induction false} PickedHolds(t: seq<Row>, from: nat, to: nat, i: nat)
    requires from <= i < to <= |t| && t[i].raw != ""
    ensures t[i] in Picked(t, from, to)
    decreases |t| - from
  {
    if from < i {
      PickedHolds(t, from + 1, to, i);
    }
  }

  /** A run never gets past that place, and one that is not canceled gets exactly there. */
  lemma RunsStopThere(rows: seq<Row>, t: seq<Row>, f: Rewrite, upto: nat, changed: nat, called: seq<Row>, outcome: Outcome,
                      cancelAt: Option<nat>)
    requires Progress(rows, t, f, upto, changed, called) && Stopped(t, f, upto, outcome, called, cancelAt)
    ensures upto <= StopAt(t, 0, f) && (!outcome.Canceled? ==> upto == StopAt(t, 0, f))
  {
    forall i | 0 <= i < upto && t[i].raw != "" ensures f(t[i].raw).Some? {
      PickedHolds(t, 0, upto, i);
      var j :| 0 <= j < |called| && called[j] == t[i];
    }
    StopAtIsUnique(t, 0, f, upto);
  }

  class Table {
    var rows: seq<Row>

    /** actionSnapshotBatch: a page of the query, cut at the byte budget. */
    method Batch(after: Option<string>, ghost from: nat) returns (batch: seq<Row>, ghost to: nat)
      requires Behind(rows, after, from)
      ensures IsBatch(rows, from, to, batch)
    {
      var all := Selected(rows, after, 0);
      var page := if |all| > BATCH_ROWS then all[..BATCH_ROWS] else all;
      batch := Cut(page);
      SelectedIsPicked(rows, after, from, 0);
      to := CutIsBatch(rows, from, page, batch);
    }

    /** The scan of one page: stops before the row that would exceed the byte budget, or when it is reached. */
    static method Cut(page: seq<Row>) returns (batch: seq<Row>)
      ensures batch <= page && (page != [] ==> batch != [])
      ensures Bytes(batch) <= BATCH_BYTES || |batch| == 1
    {
      batch := [];
      var bytes := 0;
      for i := 0 to |page|
        invariant |batch| == i && batch == page[..i] && bytes == Bytes(batch) < BATCH_BYTES
      {
        var size := |page[i].id| + |page[i].raw|;
        if |batch| > 0 && size > BATCH_BYTES - bytes {
          return;
        }
        BytesSnoc(batch, page[i]);
        batch := batch + [page[i]];
        bytes := bytes + size;
        if bytes >= BATCH_BYTES {
          return;
        }
      }
    }

    /** UPDATE ... WHERE id = ? AND actions_json = ?, at the row's position. */
    method Update(id: string, raw: string, updated: string, ghost t: seq<Row>, ghost pos: nat, f: Rewrite) returns (n: nat)
      requires Sorted(t) && pos < |t| && rows == MapPrefix(t, pos, f) && t[pos] == Row(id, raw)
      requires raw != "" && f(raw) == Some(updated) && updated != raw
      modifies this
      ensures rows == MapPrefix(t, pos + 1, f) && n == 1
    {
      var was := rows;
      rows := seq(|was|, i requires 0 <= i < |was| => if was[i].id == id && was[i].raw == raw then Row(id, updated) else was[i]);
      n := Hits(was, id, raw);
      forall i | 0 <= i < |t| && i != pos ensures was[i].id == t[i].id != id {
        BelowIsTotal(t[i].id, t[pos].id);
        assert i < pos ==> Below(t[i].id, t[pos].id);
        assert i > pos ==> Below(t[pos].id, t[i].id);
      }
      OneHit(was, pos);
      assert rows == MapPrefix(t, pos + 1, f);
    }

    /** RowsAffected: how many rows the WHERE clause selects. */
    static function Hits(rows: seq<Row>, id: string, raw: string): nat {
      if rows == [] then 0 else Hits(rows[1..], id, raw) + if rows[0] == Row(id, raw) then 1 else 0
    }

    static lemma {:induction false} NoHit(rows: seq<Row>, row: Row)
      requires forall i :: 0 <= i < |rows| ==> rows[i].id != row.id
      ensures Hits(rows, row.id, row.raw) == 0
    {
      if rows != [] {
        NoHit(rows[1..], row);
      }
    }

    /** In a keyed table the conditional update selects exactly the row at the cursor. */
    static lemma {:induction false} OneHit(rows: seq<Row>, pos: nat)
      requires pos < |rows| && forall i :: 0 <= i < |rows| && i != pos ==> rows[i].id != rows[pos].id
      ensures Hits(rows, rows[pos].id, rows[pos].raw) == 1
    {
      var row := rows[pos];
      assert forall i :: 0 <= i < |rows| - 1 ==> rows[1..][i] == rows[i + 1];
      if pos == 0 {
        NoHit(rows[1..], row);
      } else {
        OneHit(rows[1..], pos - 1);
      }
    }

    /** One row of a batch. */
    method RewriteRow(row: Row, f: Rewrite, changed: nat, called: seq<Row>, ghost t: seq<Row>, ghost pos: nat)
      returns (changed': nat, called': seq<Row>)
      requires Sorted(t) && Progress(rows, t, f, pos, changed, called) && pos < |t| && t[pos] == row && row.raw != ""
      requires f(row.raw).Some?
      modifies this
      ensures Progress(rows, t, f, pos + 1, changed', called')
    {
      var updated := f(row.raw).value;
      changed' := changed;
      if updated != row.raw {
        var n := Update(row.id, row.raw, updated, t, pos, f);
        changed' := changed + n;
      } else {
        assert MapPrefix(t, pos + 1, f) == MapPrefix(t, pos, f);
      }
      PickedSnoc(t, 0, pos);
      called' := called + [row];
    }

    /** Rewrites one batch; Complete means the whole batch. */
    method RewriteBatch(batch: seq<Row>, f: Rewrite, cancelAt: Option<nat>, changed0: nat, called0: seq<Row>,
                        ghost t: seq<Row>, ghost from: nat, ghost to: nat)
      returns (changed: nat, called: seq<Row>, outcome: Outcome, ghost upto: nat)
      requires Sorted(t) && Progress(rows, t, f, from, changed0, called0) && from <= to <= |t| && batch == Picked(t, from, to)
      modifies this
      ensures Progress(rows, t, f, upto, changed, called)
      ensures if outcome.Complete? then upto == to else Stopped(t, f, upto, outcome, called, cancelAt)
    {
      changed, called, outcome := changed0, called0, Complete;
      upto := Advance(rows, t, f, from, to, changed, called);
      for k := 0 to |batch|
        invariant Progress(rows, t, f, upto, changed, called) && Pending(t, upto, to, batch[k..])
      {
        if cancelAt.Some? && |called| >= cancelAt.value {
          outcome := Canceled;
          return;
        }
        if f(batch[k].raw).None? {
          outcome := Failed(batch[k].id);
          return;
        }
        ghost var pos := upto;
        changed, called := RewriteRow(batch[k], f, changed, called, t, pos);
        upto := NextRow(rows, t, f, pos, to, changed, called, batch, k);
      }
    }

    /**
      The whole rewrite. However the batches fall, the table ends as one map over the first `upto` rows, every
      non-empty one of which was handed to the rewriter once, in key order; a run that is not stopped reaches the end.
     */
    method RewriteAll(f: Rewrite, cancelAt: Option<nat>)
      returns (changed: nat, outcome: Outcome, called: seq<Row>, ghost upto: nat)
      requires Sorted(rows)
      modifies this
      ensures Progress(rows, old(rows), f, upto, changed, called)
      ensures Stopped(old(rows), f, upto, outcome, called, cancelAt)
      ensures upto <= StopAt(old(rows), 0, f) && (!outcome.Canceled? ==> upto == StopAt(old(rows), 0, f))
    {
      ghost var t := rows;
      changed, called, outcome, upto := 0, [], Complete, 0;
      var after: Option<string> := None;
      while true
        invariant Progress(rows, t, f, upto, changed, called) && Behind(t, after, upto)
        decreases |t| - upto
      {
        var batch;
        ghost var to;
        batch, to := Batch(after, upto);
        PickedLocal(t, rows, upto, to);
        ghost var from := upto;
        changed, called, outcome, upto := RewriteBatch(batch, f, cancelAt, changed, called, t, from, to);
        if !outcome.Complete? || batch == [] {
          RunsStopThere(rows, t, f, upto, changed, called, outcome, cancelAt);
          return;
        }
        after := Some(batch[|batch| - 1].id);
        BehindLast(t, to, batch[|batch| - 1].id);
      }
    }
  }

  /** The cursor left by a batch that ends with row `to - 1`. */
  lemma BehindLast(t: seq<Row>, to: nat, id: string)
    requires Sorted(t) && 0 < to <= |t| && t[to - 1].id == id
    ensures Behind(t, Some(id), to)
  {
    forall i | 0 <= i < to ensures !Below(id, t[i].id) {
      BelowIsTotal(id, t[i].id);
      assert i < to - 1 ==> Below(t[i].id, t[to - 1].id);
    }
  }

  // ---- what the simple form gives ----

  /** A rewriter that leaves its own results alone. */
  ghost predicate Idempotent(f: Rewrite) {
    forall x :: x != "" && f(x).Some? && f(x).value != "" ==> f(f(x).value) == f(x)
  }

  /** What a run that is not canceled leaves: the table, and the row it stopped at. */
  function RunOn(t: seq<Row>, f: Rewrite): (seq<Row>, nat) {
    (MapPrefix(t, StopAt(t, 0, f), f), StopAt(t, 0, f))
  }

  /** Running again after a run that was cut short at row `k` gives what an uninterrupted run would have given. */
  lemma RerunCompletes(t: seq<Row>, k: nat, f: Rewrite)
    requires k <= StopAt(t, 0, f) && Idempotent(f)
    ensures RunOn(MapPrefix(t, k, f), f) == RunOn(t, f)
  {
    var u, n := MapPrefix(t, k, f), StopAt(t, 0, f);
    StopAtIsUnique(t, 0, f, n);
    StopAtIsUnique(u, 0, f, n);
    assert MapPrefix(u, n, f) == MapPrefix(t, n, f);
  }

  /** A rewriter that does not leave its own results alone breaks this on a table of one row, whatever it does to them. */
  lemma RerunBreaks(f: Rewrite) returns (t: seq<Row>)
    requires !Idempotent(f)
    ensures Sorted(t) && |t| == 1 <= StopAt(t, 0, f)
    ensures RunOn(MapPrefix(t, 1, f), f) != RunOn(t, f)
  {
    var x :| x != "" && f(x).Some? && f(x).value != "" && f(f(x).value) != f(x);
    t := [Row("a", x)];
    StopAtIsUnique(t, 0, f, 1);
    var u := MapPrefix(t, 1, f);
    assert u[0] == Row("a", f(x).value);
    if f(f(x).value).Some? {
      StopAtIsUnique(u, 0, f, 1);
      assert RunOn(u, f).0[0].raw == f(f(x).value).value;
      assert RunOn(t, f).0[0].raw == f(x).value;
    }
  }

  /** Re-running completes an interrupted run on every table, wherever it was cut short, exactly for idempotent rewriters. */
  lemma RerunCompletesExactly(f: Rewrite)
    ensures Idempotent(f) <==>
            forall t, k :: Sorted(t) && 0 <= k <= StopAt(t, 0, f) ==> RunOn(MapPrefix(t, k, f), f) == RunOn(t, f)
  {
    if Idempotent(f) {
      forall t, k | Sorted(t) && 0 <= k <= StopAt(t, 0, f) ensures RunOn(MapPrefix(t, k, f), f) == RunOn(t, f) {
        RerunCompletes(t, k, f);
      }
    } else {
      var t := RerunBreaks(f);
      assert Sorted(t) && 0 <= 1 <= StopAt(t, 0, f);
    }
  }

  /** After a complete run a second one changes nothing, under the same condition. */
  lemma SecondRunIsQuiet(t: seq<Row>, f: Rewrite, n: nat)
    requires Idempotent(f) && n <= |t|
    ensures Changes(MapPrefix(t, |t|, f), n, f) == 0
  {
  }
}
