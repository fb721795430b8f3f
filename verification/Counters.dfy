/** The drop counters: one 64-bit count per configured source, and a bounded summary of them. */
module Counters {
  import opened Strings

  const UNKNOWN := "other"
  const MAX_NAMED := 10
  const WRAP := 0x1_0000_0000_0000_0000

  /** validSourceName: 1 to 64 ASCII letters, digits, underscores or dashes. */
  predicate ValidName(s: string) {
    0 < |s| <= 64 &&
    forall i :: 0 <= i < |s| ==>
      'a' <= s[i] <= 'z' || 'A' <= s[i] <= 'Z' || '0' <= s[i] <= '9' || s[i] == '_' || s[i] == '-'
  }

  predicate Sorted(s: seq<string>) {
    forall i, j :: 0 <= i < j < |s| ==> Below(s[i], s[j])
  }

  lemma SortedIsDistinct(s: seq<string>)
    requires Sorted(s)
    ensures Distinct(s)
  {
    forall i, j | 0 <= i < j < |s| ensures s[i] != s[j] {
      BelowIsTotal(s[i], s[i]);
    }
  }

  /** The sorted names with one more, new name. */
  function Insert(s: seq<string>, x: string): (r: seq<string>)
    requires Sorted(s) && x !in s
    ensures Sorted(r) && forall y :: y in r <==> y == x || y in s
  {
    if s == [] then [x]
    else
      BelowIsTotal(x, s[0]);
      assert forall i :: 0 < i < |s| ==> s[i] == s[1..][i - 1];
      if Below(x, s[0]) then
        assert forall i :: 0 < i < |s| ==> Below(x, s[i]) by {
          forall i | 0 < i < |s| ensures Below(x, s[i]) { BelowIsTransitive(x, s[0], s[i]); }
        }
        [x] + s
      else
        var rest := Insert(s[1..], x);
        assert forall i :: 0 <= i < |rest| ==> Below(s[0], rest[i]) by {
          forall i | 0 <= i < |rest| ensures Below(s[0], rest[i]) {
            assert rest[i] == x || rest[i] in s[1..];
          }
        }
        [s[0]] + rest
  }

  /** The names with a non-zero count, in order. */
  function Nonzero(names: seq<string>, data: map<string, int>): seq<string> {
    if names == [] then []
    else
      var last := names[|names| - 1];
      Nonzero(names[..|names| - 1], data) + if last in data && data[last] != 0 then [last] else []
  }

  // ---- sums ----

  function Sum(names: seq<string>, data: map<string, int>): int {
    if names == [] then 0 else (if names[0] in data then data[names[0]] else 0) + Sum(names[1..], data)
  }

  lemma {:induction false} SumOfBump(names: seq<string>, data: map<string, int>, name: string)
    requires Distinct(names) && name in data
    ensures Sum(names, data[name := data[name] + 1]) == Sum(names, data) + if name in names then 1 else 0
  {
    if names != [] {
      assert forall i :: 0 <= i < |names| - 1 ==> names[1..][i] == names[i + 1];
      SumOfBump(names[1..], data, name);
      assert name in names <==> name == names[0] || name in names[1..];
    }
  }

  lemma {:induction false} SumSplit(names: seq<string>, k: nat, data: map<string, int>)
    requires k <= |names|
    ensures Sum(names[..k], data) + Sum(names[k..], data) == Sum(names, data)
  {
    if k > 0 {
      assert names[..k][1..] == names[1..][..k - 1] && names[k..] == names[1..][k - 1..];
      SumSplit(names[1..], k - 1, data);
    } else {
      assert names[..0] == [] && names[0..] == names;
    }
  }

  // ---- the summary text ----

  datatype Part = Named(source: string, count: int) | Rest(count: int)

  function Total(parts: seq<Part>): int {
    if parts == [] then 0 else Total(parts[..|parts| - 1]) + parts[|parts| - 1].count
  }

  function Digits(n: nat): nat {
    if n < 10 then 1 else 1 + Digits(n / 10)
  }

  /** The length in bytes of a rendered part: the name, " × " (four bytes in UTF-8) and the decimal count. */
  function PartBytes(p: Part): nat {
    var count: nat := if p.count >= 0 then p.count else 0;
    (if p.Named? then |p.source| else |"remaining sources"|) + 4 + Digits(count)
  }

  function PartsBytes(parts: seq<Part>): nat {
    if parts == [] then 0 else PartsBytes(parts[..|parts| - 1]) + PartBytes(parts[|parts| - 1])
  }

  /** The length of "dropped: none", or of "dropped: " and the parts joined by "; ". */
  function SummaryBytes(parts: seq<Part>): nat {
    if parts == [] then |"dropped: none"| else |"dropped: "| + PartsBytes(parts) + 2 * (|parts| - 1)
  }

  lemma {:induction false} DigitsBound(n: nat, k: nat)
    requires k >= 1 && n < Pow10(k)
    ensures Digits(n) <= k
  {
    if n >= 10 {
      assert Pow10(1) == 10 * Pow10(0);
      assert n / 10 < Pow10(k - 1);
      DigitsBound(n / 10, k - 1);
    }
  }

  function Pow10(k: nat): nat {
    if k == 0 then 1 else 10 * Pow10(k - 1)
  }

  /** A 64-bit count has at most twenty decimal digits. */
  lemma CountDigits(n: nat)
    requires n < WRAP
    ensures Digits(n) <= 20
  {
    assert Pow10(5) == 100_000;
    assert Pow10(10) == 100_000 * Pow10(5);
    assert Pow10(15) == 100_000 * Pow10(10);
    assert Pow10(20) == 100_000 * Pow10(15);
    DigitsBound(n, 20);
  }

  predicate Renderable(p: Part) {
    0 < p.count < WRAP && (p.Named? ==> ValidName(p.source))
  }

  lemma {:induction false} PartsBound(parts: seq<Part>)
    requires forall i :: 0 <= i < |parts| ==> Renderable(parts[i]) && parts[i].Named?
    ensures PartsBytes(parts) <= 88 * |parts|
  {
    if parts != [] {
      var last := parts[|parts| - 1];
      PartsBound(parts[..|parts| - 1]);
      CountDigits(last.count);
    }
  }

  /** At most MAX_NAMED named parts, then at most one for the rest: the text stays below one KiB. */
  lemma SummaryIsBounded(parts: seq<Part>)
    requires |parts| <= MAX_NAMED + 1 && forall i :: 0 <= i < |parts| ==> Renderable(parts[i])
    requires forall i :: 0 <= i < |parts| && parts[i].Rest? ==> i == |parts| - 1
    requires |parts| == MAX_NAMED + 1 ==> parts[MAX_NAMED].Rest?
    ensures SummaryBytes(parts) < 1024
  {
    if parts != [] {
      var front, last := parts[..|parts| - 1], parts[|parts| - 1];
      CountDigits(last.count);
      PartsBound(front);
    }
  }

  // ---- the text itself, as bytes ----

  /** The multiplication sign between spaces; it takes two bytes in UTF-8. */
  const TIMES: string := [' ', 0xC3 as char, 0x97 as char, ' ']

  function Decimal(n: nat): string {
    (if n < 10 then "" else Decimal(n / 10)) + [('0' as int + n % 10) as char]
  }

  /** The number that a decimal text stands for. */
  function Value(s: string): int {
    if s == "" then 0 else 10 * Value(s[..|s| - 1]) + (s[|s| - 1] as int - '0' as int)
  }

  /** The decimal text of a number reads back as the number, and has the counted digits. */
  lemma {:induction false} DecimalReads(n: nat)
    ensures Value(Decimal(n)) == n && |Decimal(n)| == Digits(n)
    ensures n > 0 ==> Decimal(n)[0] != '0'
  {
    var s := Decimal(n);
    if n < 10 {
      assert s == [('0' as int + n) as char] && s[..0] == "";
    } else {
      DecimalReads(n / 10);
      assert s[..|s| - 1] == Decimal(n / 10);
    }
  }

  function PartText(p: Part): string {
    (if p.Named? then p.source else "remaining sources") + TIMES + Decimal(if p.count >= 0 then p.count else 0)
  }

  function PartsText(parts: seq<Part>): string {
    if parts == [] then ""
    else PartsText(parts[..|parts| - 1]) + (if |parts| > 1 then "; " else "") + PartText(parts[|parts| - 1])
  }

  function SummaryText(parts: seq<Part>): string {
    if parts == [] then "dropped: none" else "dropped: " + PartsText(parts)
  }

  lemma {:induction false} PartsTextLength(parts: seq<Part>)
    requires parts != []
    ensures |PartsText(parts)| == PartsBytes(parts) + 2 * (|parts| - 1)
  {
    var front, last := parts[..|parts| - 1], parts[|parts| - 1];
    DecimalReads(if last.count >= 0 then last.count else 0);
    if front != [] {
      PartsTextLength(front);
    } else {
      assert PartsText(front) == "" && PartsBytes(front) == 0;
    }
  }

  lemma SummaryTextLength(parts: seq<Part>)
    ensures |SummaryText(parts)| == SummaryBytes(parts)
  {
    if parts != [] { PartsTextLength(parts); }
  }

  /** Joins the rendered parts. */
  method Render(parts: seq<Part>) returns (text: string)
    ensures text == SummaryText(parts) && |text| == SummaryBytes(parts)
  {
    SummaryTextLength(parts);
    if |parts| == 0 {
      return "dropped: none";
    }
    var body := "";
    for i := 0 to |parts|
      invariant body == PartsText(parts[..i])
    {
      assert parts[..i + 1][..i] == parts[..i];
      if i > 0 {
        body := body + "; ";
      }
      body := body + PartText(parts[i]);
    }
    assert parts[..|parts|] == parts;
    text := "dropped: " + body;
  }

  /** validSourceName's scan. */
  method CheckName(s: string) returns (ok: bool)
    ensures ok == ValidName(s)
  {
    if |s| == 0 || |s| > 64 {
      return false;
    }
    for i := 0 to |s|
      invariant forall j :: 0 <= j < i ==>
        'a' <= s[j] <= 'z' || 'A' <= s[j] <= 'Z' || '0' <= s[j] <= '9' || s[j] == '_' || s[j] == '-'
    {
      var c := s[i];
      if !(('a' <= c && c <= 'z') || ('A' <= c && c <= 'Z') || ('0' <= c && c <= '9') || c == '_' || c == '-') {
        return false;
      }
    }
    ok := true;
  }

  // ---- the counters ----

  /** The named parts of a summary: the first MAX_NAMED of the given names with their counts. */
  function NamedParts(names: seq<string>, data: map<string, int>): (r: seq<Part>)
    requires forall i :: 0 <= i < |names| ==> names[i] in data
    ensures |r| == if |names| < MAX_NAMED then |names| else MAX_NAMED
    ensures forall i :: 0 <= i < |r| ==> r[i] == Named(names[i], data[names[i]])
  {
    seq(if |names| < MAX_NAMED then |names| else MAX_NAMED, i requires 0 <= i < |names| => Named(names[i], data[names[i]]))
  }

  lemma {:induction false} NonzeroFacts(names: seq<string>, data: map<string, int>)
    ensures forall i :: 0 <= i < |Nonzero(names, data)| ==>
              Nonzero(names, data)[i] in data && data[Nonzero(names, data)[i]] != 0
  {
    if names != [] {
      NonzeroFacts(names[..|names| - 1], data);
    }
  }

  /** The state of Summary's loop after the given sources. */
  ghost predicate Summed(parts: seq<Part>, rest: int, names: seq<string>, data: map<string, int>) {
    var shown := Nonzero(names, data);
    && (forall i :: 0 <= i < |shown| ==> shown[i] in data)
    && parts == NamedParts(shown, data)
    && Total(parts) + rest == Sum(names, data) && rest >= 0 && Total(parts) >= 0
    && (rest > 0 <==> |shown| > MAX_NAMED)
  }

  lemma SummedStep(parts: seq<Part>, rest: int, names: seq<string>, i: nat, data: map<string, int>)
    requires i < |names| && names[i] in data && (forall name :: name in data ==> 0 <= data[name])
    requires Summed(parts, rest, names[..i], data) && Sum(names, data) < WRAP
    ensures var count := data[names[i]];
            if count == 0 then Summed(parts, rest, names[..i + 1], data)
            else if |parts| < MAX_NAMED then Summed(parts + [Named(names[i], count)], rest, names[..i + 1], data)
            else Summed(parts, (rest + count) % WRAP, names[..i + 1], data)
  {
    var count := data[names[i]];
    assert names[..i + 1][..i] == names[..i];
    var shown := Nonzero(names[..i], data);
    NonzeroFacts(names[..i + 1], data);
    SumSnoc(names, i, data);
    if count != 0 {
      assert Nonzero(names[..i + 1], data) == shown + [names[i]];
      NamedPartsSnoc(shown, names[i], data);
      if |parts| < MAX_NAMED {
        TotalSnoc(parts, Named(names[i], count));
      } else {
        assert (rest + count) % WRAP == rest + count;
      }
    }
  }

  lemma NamedPartsSnoc(shown: seq<string>, name: string, data: map<string, int>)
    requires name in data && forall i :: 0 <= i < |shown| ==> shown[i] in data
    ensures NamedParts(shown + [name], data)
            == if |shown| < MAX_NAMED then NamedParts(shown, data) + [Named(name, data[name])] else NamedParts(shown, data)
  {
  }

  /** The summary names the first of the given sources and lumps the others together. */
  ghost predicate Lists(parts: seq<Part>, shown: seq<string>, data: map<string, int>) {
    && (forall i :: 0 <= i < |shown| ==> shown[i] in data)
    && if |shown| <= MAX_NAMED then parts == NamedParts(shown, data)
       else |parts| == MAX_NAMED + 1 && parts[..MAX_NAMED] == NamedParts(shown, data) && parts[MAX_NAMED].Rest?
  }

  lemma SummedEnd(parts: seq<Part>, rest: int, names: seq<string>, data: map<string, int>)
    requires Summed(parts, rest, names, data) && Sum(names, data) < WRAP
    requires forall name :: name in data ==> ValidName(name) && 0 <= data[name] < WRAP
    ensures var all := if rest > 0 then parts + [Rest(rest)] else parts;
            Total(all) == Sum(names, data) && Lists(all, Nonzero(names, data), data) && SummaryBytes(all) < 1024
  {
    NonzeroFacts(names, data);
    TotalSnoc(parts, Rest(rest));
    var all := if rest > 0 then parts + [Rest(rest)] else parts;
    assert all[..|parts|] == parts;
    SummaryIsBounded(all);
  }

  function Bumped(data: map<string, int>, name: string): map<string, int>
    requires name in data
  {
    data[name := (data[name] + 1) % WRAP]
  }

  lemma BumpCounts(names: seq<string>, data: map<string, int>, name: string)
    requires Sorted(names) && name in data && 0 <= data[name] < WRAP
    ensures data[name] + 1 < WRAP && name in names ==> Sum(names, Bumped(data, name)) == Sum(names, data) + 1
    ensures 0 <= Bumped(data, name)[name] < WRAP
  {
    SortedIsDistinct(names);
    if data[name] + 1 < WRAP {
      assert Bumped(data, name) == data[name := data[name] + 1];
      SumOfBump(names, data, name);
    }
  }

  class DropCounters {
    var data: map<string, int>
    var sources: seq<string>

    ghost predicate Valid()
      reads this
    {
      && Sorted(sources) && (forall name :: name in data <==> name in sources)
      && UNKNOWN in data
      && (forall name :: name in data ==> ValidName(name) && 0 <= data[name] < WRAP)
    }

    /** The number of drops counted, over all sources. */
    ghost function Count(): int
      reads this
    {
      Sum(sources, data)
    }

    /** The source a drop is counted under; unconfigured ones share one counter. */
    function Bucket(source: string): string
      reads this
    {
      if source in data then source else UNKNOWN
    }

    constructor (names: seq<string>)
      ensures Valid() && Count() == 0
      ensures data.Keys == {UNKNOWN} + set name | name in names && ValidName(name)
    {
      var d := map[UNKNOWN := 0];
      var order := [UNKNOWN];
      for i := 0 to |names|
        invariant Sorted(order) && (forall name :: name in d <==> name in order)
        invariant forall name :: name in d ==> d[name] == 0 && ValidName(name)
        invariant d.Keys == {UNKNOWN} + set name | name in names[..i] && ValidName(name)
      {
        assert names[..i + 1] == names[..i] + [names[i]];
        var valid := CheckName(names[i]);
        if valid {
          if names[i] !in d {
            order := Insert(order, names[i]);
          }
          d := d[names[i] := 0];
        }
      }
      assert names[..|names|] == names;
      data := d;
      sources := order;
      new;
      ZeroSum(sources, data);
    }

    /** The counter wraps at 64 bits; the keys never change. */
    method Inc(source: string)
      requires Valid()
      modifies this`data
      ensures Valid() && data.Keys == old(data.Keys)
      ensures data == Bumped(old(data), old(Bucket(source)))
      ensures old(data)[old(Bucket(source))] + 1 < WRAP ==> Count() == old(Count()) + 1
    {
      var name := if source in data then source else UNKNOWN;
      BumpCounts(sources, data, name);
      data := Bumped(data, name);
    }

    /**
      The numbers shown add up to all drops counted: the first MAX_NAMED sources with drops, in name order, and one
      part for the rest if there are more. The text stays below one KiB.
     */
    method Summary() returns (text: string, ghost parts: seq<Part>)
      requires Valid() && Count() < WRAP
      ensures text == SummaryText(parts) && |text| < 1024
      ensures Total(parts) == Count() && Lists(parts, Nonzero(sources, data), data)
    {
      var shown := Summarize(sources, data);
      parts := shown;
      text := Render(shown);
    }
  }

  /** The body of Summary, on the state it has locked. */
  method Summarize(sources: seq<string>, data: map<string, int>) returns (parts: seq<Part>)
    requires forall i :: 0 <= i < |sources| ==> sources[i] in data
    requires forall name :: name in data ==> ValidName(name) && 0 <= data[name] < WRAP
    requires Sum(sources, data) < WRAP
    ensures Total(parts) == Sum(sources, data) && Lists(parts, Nonzero(sources, data), data)
    ensures SummaryBytes(parts) < 1024
  {
    parts := [];
    var rest := 0;
    for i := 0 to |sources|
      invariant Summed(parts, rest, sources[..i], data)
    {
      var source := sources[i];
      var count := data[source];
      SummedStep(parts, rest, sources, i, data);
      if count != 0 {
        if |parts| < MAX_NAMED {
          parts := parts + [Named(source, count)];
        } else {
          rest := (rest + count) % WRAP;
        }
      }
    }
    assert sources[..|sources|] == sources;
    SummedEnd(parts, rest, sources, data);
    if rest > 0 {
      parts := parts + [Rest(rest)];
    }
  }

  lemma {:induction false} ZeroSum(names: seq<string>, data: map<string, int>)
    requires forall name :: name in data ==> data[name] == 0
    ensures Sum(names, data) == 0
  {
    if names != [] {
      ZeroSum(names[1..], data);
    }
  }

  lemma SumSnoc(names: seq<string>, i: nat, data: map<string, int>)
    requires i < |names| && names[i] in data && forall name :: name in data ==> data[name] >= 0
    ensures Sum(names[..i + 1], data) == Sum(names[..i], data) + data[names[i]]
    ensures Sum(names[..i + 1], data) <= Sum(names, data)
  {
    SumSplit(names[..i + 1], i, data);
    assert names[..i + 1][..i] == names[..i] && names[..i + 1][i..] == [names[i]];
    assert Sum([names[i]], data) == data[names[i]] + Sum([names[i]][1..], data);
    SumSplit(names, i + 1, data);
    SumNonNegative(names[i + 1..], data);
  }

  lemma {:induction false} SumNonNegative(names: seq<string>, data: map<string, int>)
    requires forall name :: name in data ==> data[name] >= 0
    ensures Sum(names, data) >= 0
  {
    if names != [] {
      SumNonNegative(names[1..], data);
    }
  }

  lemma TotalSnoc(parts: seq<Part>, p: Part)
    ensures Total(parts + [p]) == Total(parts) + p.count
  {
  }

  // ---- many drops ----

  /** The counters after a sequence of drops, each under its source's own counter or the shared one. */
  function After(data: map<string, int>, drops: seq<string>): map<string, int>
    requires UNKNOWN in data
    decreases |drops|
  {
    if drops == [] then data
    else After(Bumped(data, if drops[0] in data then drops[0] else UNKNOWN), drops[1..])
  }

  lemma {:induction false} PartOfSum(names: seq<string>, data: map<string, int>, name: string)
    requires name in names && name in data && forall n :: n in data ==> data[n] >= 0
    ensures data[name] <= Sum(names, data)
  {
    SumNonNegative(names[1..], data);
    if name != names[0] {
      PartOfSum(names[1..], data, name);
    }
  }

  /** Whatever sources the drops name, the keys stay those of construction and the counts add up to all drops. */
  lemma {:induction false} AllDropsAreCounted(names: seq<string>, data: map<string, int>, drops: seq<string>)
    requires Sorted(names) && UNKNOWN in data && (forall n :: n in data <==> n in names)
    requires (forall n :: n in data ==> data[n] >= 0) && Sum(names, data) + |drops| < WRAP
    ensures After(data, drops).Keys == data.Keys && Sum(names, After(data, drops)) == Sum(names, data) + |drops|
    decreases |drops|
  {
    if drops != [] {
      var name := if drops[0] in data then drops[0] else UNKNOWN;
      PartOfSum(names, data, name);
      BumpCounts(names, data, name);
      AllDropsAreCounted(names, Bumped(data, name), drops[1..]);
    }
  }
}
