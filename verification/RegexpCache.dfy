/** The bounded first-in-first-out cache of compiled rule patterns. */
module RegexpCache {
  import opened Strings
  import opened Wrappers

  const MAX_RULES := 256
  const MAX_PATTERN := 4096

  // ---- the simple form: the last patterns inserted ----

  /** A call adds its pattern unless it is too long, already kept, or does not compile. */
  predicate Inserts<R>(kept: seq<string>, pattern: string, compile: string -> Option<R>) {
    |pattern| <= MAX_PATTERN && pattern !in kept && compile(pattern).Some?
  }

  /** First in, first out: at full size the oldest pattern makes room. */
  function Push(kept: seq<string>, pattern: string): seq<string> {
    (if |kept| < MAX_RULES then kept else kept[1..]) + [pattern]
  }

  /** What the cache keeps after a sequence of calls, oldest first. */
  function KeptAfter<R>(calls: seq<string>, compile: string -> Option<R>): seq<string> {
    if calls == [] then []
    else
      var kept := KeptAfter(calls[..|calls| - 1], compile);
      var pattern := calls[|calls| - 1];
      if Inserts(kept, pattern, compile) then Push(kept, pattern) else kept
  }

  /** All insertions made by a sequence of calls, oldest first. */
  function Inserted<R>(calls: seq<string>, compile: string -> Option<R>): seq<string> {
    if calls == [] then []
    else
      var before, pattern := calls[..|calls| - 1], calls[|calls| - 1];
      Inserted(before, compile) + if Inserts(KeptAfter(before, compile), pattern, compile) then [pattern] else []
  }

  function LastOf(all: seq<string>): seq<string> {
    if |all| <= MAX_RULES then all else all[|all| - MAX_RULES..]
  }

  lemma PushIsDistinct(kept: seq<string>, pattern: string)
    requires Distinct(kept) && pattern !in kept
    ensures Distinct(Push(kept, pattern))
  {
  }

  /** The cache refines "the last MAX_RULES patterns inserted", and those are distinct. */
  lemma {:induction false} KeepsTheLastInserted<R>(calls: seq<string>, compile: string -> Option<R>)
    ensures KeptAfter(calls, compile) == LastOf(Inserted(calls, compile))
    ensures Distinct(KeptAfter(calls, compile)) && |KeptAfter(calls, compile)| <= MAX_RULES
  {
    if calls != [] {
      var before, pattern := calls[..|calls| - 1], calls[|calls| - 1];
      KeepsTheLastInserted(before, compile);
      LastOfSnoc(Inserted(before, compile), pattern);
      if Inserts(KeptAfter(before, compile), pattern, compile) {
        PushIsDistinct(KeptAfter(before, compile), pattern);
      }
    }
  }

  lemma LastOfSnoc(all: seq<string>, pattern: string)
    ensures LastOf(all + [pattern]) == Push(LastOf(all), pattern)
  {
  }

  // ---- the ring ----

  /** The ring's patterns, oldest first, when `n` of its slots are used and `next` is written next. */
  function Ring(order: seq<string>, next: nat, n: nat): seq<string>
    requires |order| == MAX_RULES && next < MAX_RULES
  {
    if n < MAX_RULES then order[..next] else order[next..] + order[..next]
  }

  /** The slot after `i`: the ring wraps at its end. */
  function NextSlot(i: nat): (r: nat)
    requires i < MAX_RULES
    ensures r == if i == MAX_RULES - 1 then 0 else i + 1
  {
    (i + 1) % MAX_RULES
  }

  lemma RingPush(order: seq<string>, next: nat, n: nat, pattern: string)
    requires Slots(order, next, n)
    ensures Ring(order[next := pattern], NextSlot(next), if n < MAX_RULES then n + 1 else n)
            == Push(Ring(order, next, n), pattern)
  {
    var order' := order[next := pattern];
    assert order'[..next] == order[..next] && order'[next + 1..] == order[next + 1..];
    assert order'[..next + 1] == order'[..next] + [pattern];
    if n == MAX_RULES {
      assert order[next..][1..] == order[next + 1..];
    }
    if next == MAX_RULES - 1 {
      assert order' == order'[..next + 1] && order'[0..] == order';
    }
  }

  /** Ring and map hold the same distinct patterns, each with its compiled form. */
  ghost predicate Consistent<R>(kept: seq<string>, entries: map<string, R>, compile: string -> Option<R>) {
    && Distinct(kept) && |kept| == |entries| <= MAX_RULES
    && (forall p :: p in entries <==> p in kept)
    && (forall p :: p in entries ==> compile(p) == Some(entries[p]))
  }

  /** What replacing the oldest entry, or adding one, does to the map. */
  function Replace<R>(entries: map<string, R>, oldest: string, pattern: string, re: R): map<string, R> {
    (if |entries| == MAX_RULES then entries - {oldest} else entries)[pattern := re]
  }

  lemma ConsistentPush<R>(kept: seq<string>, entries: map<string, R>, compile: string -> Option<R>, oldest: string, pattern: string)
    requires Consistent(kept, entries, compile) && pattern !in kept && compile(pattern).Some?
    requires |entries| == MAX_RULES ==> oldest == kept[0]
    ensures Consistent(Push(kept, pattern), Replace(entries, oldest, pattern, compile(pattern).value), compile)
  {
    var kept', entries' := Push(kept, pattern), Replace(entries, oldest, pattern, compile(pattern).value);
    PushIsDistinct(kept, pattern);
    forall p ensures p in entries' <==> p in kept' {
      if |entries| == MAX_RULES {
        assert p in kept <==> p == kept[0] || p in kept[1..];
      }
    }
    KeptSize(kept', entries');
  }

  /** `next` is the slot after the last one written, and the first `n` slots are used. */
  predicate Slots(order: seq<string>, next: nat, n: nat) {
    |order| == MAX_RULES && next < MAX_RULES && n <= MAX_RULES && (n < MAX_RULES ==> next == n)
  }

  /** Overwriting the slot at `next` and replacing its pattern in the map is a push of the kept patterns. */
  lemma InstallFacts<R>(order: seq<string>, next: nat, entries: map<string, R>, compile: string -> Option<R>, pattern: string)
    requires Slots(order, next, |entries|) && Consistent(Ring(order, next, |entries|), entries, compile)
    requires pattern !in Ring(order, next, |entries|) && compile(pattern).Some?
    ensures var order', next' := order[next := pattern], NextSlot(next);
            var entries' := Replace(entries, order[next], pattern, compile(pattern).value);
            && Slots(order', next', |entries'|)
            && Ring(order', next', |entries'|) == Push(Ring(order, next, |entries|), pattern)
            && Consistent(Ring(order', next', |entries'|), entries', compile)
  {
    var kept := Ring(order, next, |entries|);
    ConsistentPush(kept, entries, compile, order[next], pattern);
    RingPush(order, next, |entries|, pattern);
    assert |Push(kept, pattern)| == if |entries| < MAX_RULES then |entries| + 1 else |entries|;
  }

  class Cache<R> {
    var entries: map<string, R>
    const order: array<string>
    var next: nat

    ghost predicate Shaped()
      reads this, order
    {
      Slots(order[..], next, |entries|)
    }

    /** The kept patterns, oldest first. */
    ghost function Kept(): seq<string>
      requires Shaped()
      reads this, order
    {
      Ring(order[..], next, |entries|)
    }

    ghost predicate Valid(compile: string -> Option<R>)
      reads this, order
    {
      Shaped() && Consistent(Kept(), entries, compile)
    }

    constructor (ghost compile: string -> Option<R>)
      ensures Valid(compile) && Kept() == [] && fresh(order)
    {
      entries := map[];
      order := new string[MAX_RULES](i => "");
      next := 0;
    }

    /**
      A lookup agrees with direct compilation, and the ring then holds what the simple form keeps: at full size the
      pattern dropped is the oldest insertion.
     */
    method Compile(pattern: string, compile: string -> Option<R>) returns (re: Option<R>)
      requires Valid(compile)
      modifies this, order
      ensures Valid(compile)
      ensures re == compile(pattern)
      ensures Kept() == if Inserts(old(Kept()), pattern, compile) then Push(old(Kept()), pattern) else old(Kept())
    {
      if |pattern| > MAX_PATTERN {
        return compile(pattern);
      }
      if pattern in entries {
        return Some(entries[pattern]);
      }
      re := compile(pattern);
      if re.None? {
        return;
      }
      Install(pattern, re.value, compile);
    }

    /** Adds a compiled pattern, over the oldest one if the cache is full. */
    method Install(pattern: string, re: R, ghost compile: string -> Option<R>)
      requires Valid(compile) && pattern !in Kept() && compile(pattern) == Some(re)
      modifies this, order
      ensures Valid(compile) && Kept() == Push(old(Kept()), pattern)
    {
      ghost var ring, slot, was := order[..], next, entries;
      InstallFacts(ring, slot, was, compile, pattern);
      if |entries| == MAX_RULES {
        entries := entries - {order[next]};
      }
      entries := entries[pattern := re];
      assert entries == Replace(was, ring[slot], pattern, re);
      ghost var ring', slot', now := ring[slot := pattern], NextSlot(slot), entries;
      assert Slots(ring', slot', |now|) && Ring(ring', slot', |now|) == Push(Ring(ring, slot, |was|), pattern);
      assert Consistent(Ring(ring', slot', |now|), now, compile);
      Place(pattern);
      assert order[..] == ring' && next == slot' && entries == now;
      assert Kept() == Ring(ring', slot', |now|);
    }

    /** Writes the ring's next slot. */
    method Place(pattern: string)
      requires order.Length == MAX_RULES && next < MAX_RULES
      modifies this`next, order
      ensures order[..] == old(order[..])[old(next) := pattern] && next == NextSlot(old(next))
    {
      order[next] := pattern;
      next := NextSlot(next);
    }
  }

  /** The cache has served these calls, with these answers, since it was made. */
  ghost predicate Served<R>(cache: Cache<R>, calls: seq<string>, answers: seq<Option<R>>, compile: string -> Option<R>)
    reads cache, cache.order
  {
    cache.Valid(compile) && cache.Kept() == KeptAfter(calls, compile) && answers == Direct(calls, compile)
  }

  /** A fresh cache after any calls: every answer is that of direct compilation, and it keeps the last patterns inserted. */
  method CompileAll<R>(calls: seq<string>, compile: string -> Option<R>) returns (cache: Cache<R>, answers: seq<Option<R>>)
    ensures fresh(cache) && fresh(cache.order) && Served(cache, calls, answers, compile)
    ensures cache.Kept() == LastOf(Inserted(calls, compile))
  {
    cache := new Cache(compile);
    answers := [];
    for k := 0 to |calls|
      invariant fresh(cache) && fresh(cache.order) && Served(cache, calls[..k], answers, compile)
    {
      TakeMore(calls, k);
      answers := CompileNext(cache, calls[..k], calls[k], answers, compile);
    }
    assert calls[..|calls|] == calls;
    KeepsTheLastInserted(calls, compile);
  }

  lemma TakeMore(calls: seq<string>, k: nat)
    requires k < |calls|
    ensures calls[..k + 1] == calls[..k] + [calls[k]]
  {
  }

  /** One more call. */
  method CompileNext<R>(cache: Cache<R>, ghost calls: seq<string>, pattern: string, answers: seq<Option<R>>, compile: string -> Option<R>)
    returns (answers': seq<Option<R>>)
    requires Served(cache, calls, answers, compile)
    modifies cache, cache.order
    ensures Served(cache, calls + [pattern], answers', compile)
  {
    KeptSnoc(calls, pattern, compile);
    var re := cache.Compile(pattern, compile);
    answers' := answers + [re];
  }

  /** Compiling every pattern anew. */
  function Direct<R>(calls: seq<string>, compile: string -> Option<R>): seq<Option<R>> {
    seq(|calls|, i requires 0 <= i < |calls| => compile(calls[i]))
  }

  lemma KeptSnoc<R>(calls: seq<string>, pattern: string, compile: string -> Option<R>)
    ensures KeptAfter(calls + [pattern], compile) ==
            if Inserts(KeptAfter(calls, compile), pattern, compile) then Push(KeptAfter(calls, compile), pattern)
            else KeptAfter(calls, compile)
    ensures Direct(calls + [pattern], compile) == Direct(calls, compile) + [compile(pattern)]
  {
    assert (calls + [pattern])[..|calls|] == calls;
  }

  // ---- matching rules through the cache ----

  datatype Rule = Rule(variable: string, pattern: string)

  datatype Match = Matched | Unmatched | Invalid(variable: string)

  /** The first rule that does not compile or does not match decides; a missing variable is the empty string. */
  function Verdict<R>(rules: seq<Rule>, vars: map<string, string>, compile: string -> Option<R>, test: (R, string) -> bool): Match {
    if rules == [] then Matched
    else
      var re := compile(rules[0].pattern);
      if re.None? then Invalid(rules[0].variable)
      else if !test(re.value, if rules[0].variable in vars then vars[rules[0].variable] else "") then Unmatched
      else Verdict(rules[1..], vars, compile, test)
  }

  /** All rules must match, and the cache makes no difference to the answer. */
  method MatchRules<R>(cache: Cache<R>, rules: seq<Rule>, vars: map<string, string>, compile: string -> Option<R>,
                       test: (R, string) -> bool) returns (m: Match)
    requires cache.Valid(compile)
    modifies cache, cache.order
    ensures cache.Valid(compile) && m == Verdict(rules, vars, compile, test)
  {
    for i := 0 to |rules|
      invariant cache.Valid(compile) && Verdict(rules[i..], vars, compile, test) == Verdict(rules, vars, compile, test)
    {
      assert rules[i..][1..] == rules[i + 1..];
      var re := cache.Compile(rules[i].pattern, compile);
      if re.None? {
        return Invalid(rules[i].variable);
      }
      if !test(re.value, if rules[i].variable in vars then vars[rules[i].variable] else "") {
        return Unmatched;
      }
    }
    m := Matched;
  }

  lemma {:induction false} VerdictMeaning<R>(rules: seq<Rule>, vars: map<string, string>, compile: string -> Option<R>,
                                             test: (R, string) -> bool)
    ensures Verdict(rules, vars, compile, test).Matched? <==>
            forall i :: 0 <= i < |rules| ==>
              compile(rules[i].pattern).Some? &&
              test(compile(rules[i].pattern).value, if rules[i].variable in vars then vars[rules[i].variable] else "")
  {
    if rules != [] {
      VerdictMeaning(rules[1..], vars, compile, test);
      assert forall i :: 1 <= i < |rules| ==> rules[i] == rules[1..][i - 1];
    }
  }

  lemma KeptSize<R>(kept: seq<string>, entries: map<string, R>)
    requires Distinct(kept) && forall p :: p in entries <==> p in kept
    ensures |kept| == |entries|
  {
    DistinctSize(kept);
    assert entries.Keys == set p | p in kept;
  }

  lemma {:induction false} DistinctSize(s: seq<string>)
    requires Distinct(s)
    ensures |set p | p in s| == |s|
  {
    if s != [] {
      var front := s[..|s| - 1];
      DistinctSize(front);
      assert (set p | p in s) == (set p | p in front) + {s[|s| - 1]};
    }
  }
}
