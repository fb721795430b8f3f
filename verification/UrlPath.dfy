/**
  The URL path rule applied to destinations and to allowlist entries.

  Strings stand for byte strings: every character is one byte. Decoding follows section 2.1 of RFC 3986; `Clean` is
  Go's lexical path.Clean on rooted paths.
 */
module UrlPath {
  import opened Wrappers

  // ---- splitting and joining ----

  /** strings.Split(s, "/"): one more segment than there are slashes. */
  function Split(s: string): (r: seq<string>)
    ensures r != []
  {
    if s == "" then [""]
    else if s[0] == '/' then [""] + Split(s[1..])
    else var rest := Split(s[1..]); [[s[0]] + rest[0]] + rest[1..]
  }

  function Join(segs: seq<string>): string {
    if segs == [] then ""
    else if |segs| == 1 then segs[0]
    else segs[0] + "/" + Join(segs[1..])
  }

  predicate NoSlash(s: string) {
    '/' !in s
  }

  predicate Plain(segs: seq<string>) {
    forall i :: 0 <= i < |segs| ==> NoSlash(segs[i])
  }

  // ---- decoding ----

  predicate IsHexDigit(c: char) {
    '0' <= c <= '9' || 'a' <= c <= 'f' || 'A' <= c <= 'F'
  }

  function HexValue(c: char): (n: nat)
    requires IsHexDigit(c)
    ensures n < 16
  {
    if '0' <= c <= '9' then (c as int) - ('0' as int)
    else if 'a' <= c <= 'f' then (c as int) - ('a' as int) + 10
    else (c as int) - ('A' as int) + 10
  }

  predicate EscapeAt(s: string, i: nat) {
    i + 2 < |s| && s[i] == '%' && IsHexDigit(s[i + 1]) && IsHexDigit(s[i + 2])
  }

  function Decoded(h: char, l: char): char
    requires IsHexDigit(h) && IsHexDigit(l)
  {
    (16 * HexValue(h) + HexValue(l)) as char
  }

  /** url.PathUnescape. */
  function Unescape(s: string): Option<string> {
    if s == "" then Some("")
    else if s[0] == '%' then
      if !EscapeAt(s, 0) then None
      else
        var rest := Unescape(s[3..]);
        if rest.None? then None else Some([Decoded(s[1], s[2])] + rest.value)
    else
      var rest := Unescape(s[1..]);
      if rest.None? then None else Some([s[0]] + rest.value)
  }

  /** The digit of an escape, in either case. */
  function HexDigit(n: nat, lower: bool): (c: char)
    requires n < 16
    ensures IsHexDigit(c) && HexValue(c) == n
  {
    if n < 10 then ('0' as int + n) as char
    else if lower then ('a' as int + n - 10) as char
    else ('A' as int + n - 10) as char
  }

  /** containsPercentEscape. */
  predicate ContainsEscape(s: string) {
    exists i :: 0 <= i < |s| && EscapeAt(s, i)
  }

  /** The loop of containsPercentEscape. */
  method ScanForEscape(s: string) returns (found: bool)
    ensures found == ContainsEscape(s)
  {
    var i := 0;
    while i + 2 < |s|
      invariant 0 <= i <= |s|
      invariant forall j :: 0 <= j < i ==> !EscapeAt(s, j)
    {
      if s[i] == '%' && IsHexDigit(s[i + 1]) && IsHexDigit(s[i + 2]) {
        assert EscapeAt(s, i);
        return true;
      }
      i := i + 1;
    }
    found := false;
  }

  // ---- cleaning ----

  /** Lexical resolution of dot segments below the root; empty segments vanish and ".." at the root is dropped. */
  function Resolve(segs: seq<string>): seq<string> {
    if segs == [] then []
    else
      var before, last := Resolve(segs[..|segs| - 1]), segs[|segs| - 1];
      if last == "" || last == "." then before
      else if last == ".." then (if before == [] then [] else before[..|before| - 1])
      else before + [last]
  }

  function TrimSlash(s: string): string {
    if s != "" && s[0] == '/' then s[1..] else s
  }

  /** The segments of a path after cleaning, read from the root. */
  function Segments(path: string): seq<string> {
    Resolve(Split(TrimSlash(path)))
  }

  /** path.Clean("/" + strings.TrimPrefix(path, "/")). */
  function Clean(path: string): string {
    "/" + Join(Segments(path))
  }

  // ---- the policy ----

  datatype Canonical = Path(path: string) | Rejected

  predicate SegmentAllowed(segment: string) {
    var value := Unescape(segment);
    value.Some? && NoSlash(value.value) && ((value.value == "." || value.value == "..") ==> segment == value.value)
  }

  /** canonicalURLPath, on the URL's escaped path. */
  function CanonicalPath(escaped: string): Canonical {
    var decoded := Unescape(escaped);
    if decoded.None? || '\\' in decoded.value || ContainsEscape(decoded.value) then Rejected
    else if exists i :: 0 <= i < |Split(escaped)| && !SegmentAllowed(Split(escaped)[i]) then Rejected
    else Path(Clean(decoded.value))
  }

  function TrimSlashSuffix(s: string): string {
    if s != "" && s[|s| - 1] == '/' then s[..|s| - 1] else s
  }

  /** pathPrefixMatch. */
  predicate PathPrefixMatch(got: string, prefix: string) {
    || prefix == "" || prefix == "/"
    || (var g, p := Clean(got), Clean(prefix); g == p || TrimSlashSuffix(p) + "/" <= g)
  }

  // ---- splitting and joining are inverse ----

  lemma {:induction false} SplitIsPlain(s: string)
    ensures Plain(Split(s))
  {
    if s != "" {
      SplitIsPlain(s[1..]);
      var rest := Split(s[1..]);
      assert NoSlash(rest[0]);
      if s[0] != '/' {
        assert forall i :: 1 <= i < |rest| ==> Split(s)[i] == rest[i];
      }
    }
  }

  lemma ConsFacts<T>(x: T, rest: seq<T>)
    ensures |[x] + rest| == 1 + |rest| && ([x] + rest)[0] == x && ([x] + rest)[1..] == rest
  {
  }

  lemma JoinHead(c: char, segs: seq<string>)
    requires segs != []
    ensures Join([[c] + segs[0]] + segs[1..]) == [c] + Join(segs)
  {
    var x, rest := [c] + segs[0], segs[1..];
    ConsFacts(x, rest);
    if rest != [] {
      Associates([c], segs[0], "/" + Join(rest));
      Associates(x, "/", Join(rest));
      Associates(segs[0], "/", Join(rest));
    }
  }

  lemma Associates(a: string, b: string, c: string)
    ensures (a + b) + c == a + (b + c)
  {
  }

  lemma {:induction false} JoinSplit(s: string)
    ensures Join(Split(s)) == s
  {
    if s != "" {
      JoinSplit(s[1..]);
      var rest := Split(s[1..]);
      if s[0] == '/' {
        assert Split(s)[1..] == rest;
        assert s == "/" + s[1..];
      } else {
        JoinHead(s[0], rest);
      }
    }
  }

  /** The segments of a string with `c` in front, from the segments of the string. */
  function Prepend(c: char, segs: seq<string>): seq<string>
    requires segs != []
  {
    if c == '/' then [""] + segs else [[c] + segs[0]] + segs[1..]
  }

  lemma SplitIsPrepend(s: string)
    requires s != ""
    ensures Split(s) == Prepend(s[0], Split(s[1..]))
  {
  }

  lemma PrependAppend(c: char, a: seq<string>, b: seq<string>)
    requires a != []
    ensures Prepend(c, a + b) == Prepend(c, a) + b
  {
    assert (a + b)[1..] == a[1..] + b;
  }

  lemma {:induction false} SplitAtSlash(a: string, b: string)
    ensures Split(a + "/" + b) == Split(a) + Split(b)
  {
    var s := a + "/" + b;
    SplitIsPrepend(s);
    if a == "" {
      assert s[1..] == b;
    } else {
      assert s[1..] == a[1..] + "/" + b;
      SplitAtSlash(a[1..], b);
      SplitIsPrepend(a);
      PrependAppend(a[0], Split(a[1..]), Split(b));
    }
  }

  lemma {:induction false} SplitSegment(s: string)
    requires NoSlash(s)
    ensures Split(s) == [s]
  {
    if s != "" {
      assert NoSlash(s[1..]);
      SplitSegment(s[1..]);
      assert [s[0]] + s[1..] == s;
    }
  }

  lemma {:induction false} SplitJoin(segs: seq<string>)
    requires segs != [] && Plain(segs)
    ensures Split(Join(segs)) == segs
  {
    SplitSegment(segs[0]);
    if |segs| > 1 {
      assert Plain(segs[1..]);
      SplitJoin(segs[1..]);
      SplitAtSlash(segs[0], Join(segs[1..]));
      assert [segs[0]] + segs[1..] == segs;
    }
  }

  lemma {:induction false} JoinAppend(a: seq<string>, b: seq<string>)
    requires a != [] && b != []
    ensures Join(a + b) == Join(a) + "/" + Join(b)
  {
    if |a| == 1 {
      assert (a + b)[1..] == b;
    } else {
      assert (a + b)[1..] == a[1..] + b;
      JoinAppend(a[1..], b);
      assert Join(a + b) == a[0] + "/" + (Join(a[1..]) + "/" + Join(b));
      assert Join(a) == a[0] + "/" + Join(a[1..]);
    }
  }

  // ---- cleaning is idempotent ----

  predicate Proper(segment: string) {
    segment != "" && segment != "." && segment != ".." && NoSlash(segment)
  }

  predicate AllProper(segs: seq<string>) {
    forall i :: 0 <= i < |segs| ==> Proper(segs[i])
  }

  lemma {:induction false} ResolveIsProper(segs: seq<string>)
    requires Plain(segs)
    ensures AllProper(Resolve(segs))
  {
    if segs != [] {
      ResolveIsProper(segs[..|segs| - 1]);
    }
  }

  lemma {:induction false} ResolveKeeps(segs: seq<string>, i: nat)
    requires i < |Resolve(segs)|
    ensures Resolve(segs)[i] in segs
  {
    var front, last := segs[..|segs| - 1], segs[|segs| - 1];
    if i < |Resolve(front)| {
      ResolveKeeps(front, i);
    } else {
      assert Resolve(segs)[i] == last;
    }
  }

  lemma {:induction false} ResolveProper(segs: seq<string>)
    requires AllProper(segs)
    ensures Resolve(segs) == segs
  {
    if segs != [] {
      ResolveProper(segs[..|segs| - 1]);
      assert segs == segs[..|segs| - 1] + [segs[|segs| - 1]];
    }
  }

  lemma {:induction false} ResolvesAlike(a: seq<string>, a': seq<string>, b: seq<string>)
    requires Resolve(a) == Resolve(a')
    ensures Resolve(a + b) == Resolve(a' + b)
    decreases |b|
  {
    if b == [] {
      assert a + b == a && a' + b == a';
    } else {
      var front, last := b[..|b| - 1], b[|b| - 1];
      ResolvesAlike(a, a', front);
      assert (a + b)[..|a + b| - 1] == a + front && (a' + b)[..|a' + b| - 1] == a' + front;
      assert (a + b)[|a + b| - 1] == last == (a' + b)[|a' + b| - 1];
    }
  }

  lemma ResolveLast(a: seq<string>, x: string)
    ensures Resolve(a + [x]) ==
            if x == "" || x == "." then Resolve(a)
            else if x == ".." then (if Resolve(a) == [] then [] else Resolve(a)[..|Resolve(a)| - 1])
            else Resolve(a) + [x]
  {
    assert (a + [x])[..|a|] == a;
  }

  /**
    The rules of path.Clean, anywhere in a path: empty and "." segments vanish, ".." removes the segment before it, and at
    the root it vanishes. With `ResolveProper` they determine the result.
   */
  lemma CleaningRules(a: seq<string>, x: string, b: seq<string>)
    ensures Resolve(a + [""] + b) == Resolve(a + ["."] + b) == Resolve(a + b)
    ensures Proper(x) ==> Resolve(a + [x, ".."] + b) == Resolve(a + b)
    ensures Resolve([".."] + b) == Resolve(b)
  {
    ResolveLast(a, "");
    ResolveLast(a, ".");
    ResolvesAlike(a + [""], a, b);
    ResolvesAlike(a + ["."], a, b);
    ResolveLast(a, x);
    ResolveLast(a + [x], "..");
    assert a + [x, ".."] == (a + [x]) + [".."];
    if Proper(x) {
      assert (Resolve(a) + [x])[..|Resolve(a)|] == Resolve(a);
      ResolvesAlike(a + [x, ".."], a, b);
    }
    ResolveLast([], "..");
    assert [] + [".."] == [".."] && [] + b == b;
    ResolvesAlike([".."], [], b);
  }

  lemma SegmentsAreProper(path: string)
    ensures AllProper(Segments(path))
  {
    SplitIsPlain(TrimSlash(path));
    ResolveIsProper(Split(TrimSlash(path)));
  }

  /** A cleaned path reads back as the same segments, so cleaning it again changes nothing. */
  lemma CleanIsIdempotent(path: string)
    ensures Segments(Clean(path)) == Segments(path)
    ensures Clean(Clean(path)) == Clean(path)
  {
    var segs := Segments(path);
    SegmentsAreProper(path);
    assert TrimSlash(Clean(path)) == Join(segs);
    if segs == [] {
      assert Split("") == [""];
      assert Resolve([""]) == Resolve([""][..0]);
    } else {
      SplitJoin(segs);
      ResolveProper(segs);
    }
  }

  // ---- decoding commutes with splitting ----

  function Dec(segment: string): string {
    Unescape(segment).Or("")
  }

  function DecAll(segs: seq<string>): (r: seq<string>)
    ensures |r| == |segs| && forall i :: 0 <= i < |segs| ==> r[i] == Dec(segs[i])
  {
    seq(|segs|, i requires 0 <= i < |segs| => Dec(segs[i]))
  }

  predicate AllAllowed(segs: seq<string>) {
    forall i :: 0 <= i < |segs| ==> SegmentAllowed(segs[i])
  }

  /** The string without its first byte or, if it starts with an escape, without that escape. */
  function Tail(s: string): string
    requires s != "" && (s[0] == '%' ==> EscapeAt(s, 0))
  {
    if s[0] == '%' then s[3..] else s[1..]
  }

  function HeadText(s: string): string
    requires s != "" && (s[0] == '%' ==> EscapeAt(s, 0))
  {
    if s[0] == '%' then s[..3] else s[..1]
  }

  function HeadValue(s: string): char
    requires s != "" && (s[0] == '%' ==> EscapeAt(s, 0))
  {
    if s[0] == '%' then Decoded(s[1], s[2]) else s[0]
  }

  lemma SplitHead(s: string)
    requires s != "" && s[0] != '/' && (s[0] == '%' ==> EscapeAt(s, 0))
    ensures Split(s)[0] == HeadText(s) + Split(Tail(s))[0] && Split(s)[1..] == Split(Tail(s))[1..]
  {
    if s[0] == '%' {
      var r3 := Split(s[3..]);
      assert s[1..][1..] == s[2..] && s[2..][1..] == s[3..];
      assert Split(s[2..]) == [[s[2]] + r3[0]] + r3[1..];
      assert Split(s[1..]) == [[s[1]] + Split(s[2..])[0]] + Split(s[2..])[1..];
      assert HeadText(s) + r3[0] == [s[0]] + ([s[1]] + ([s[2]] + r3[0]));
    }
  }

  lemma UnescapeHead(s: string, x: string)
    requires s != "" && (s[0] == '%' ==> EscapeAt(s, 0))
    ensures Unescape(HeadText(s) + x).Some? <==> Unescape(x).Some?
    ensures Unescape(x).Some? ==> Unescape(HeadText(s) + x).value == [HeadValue(s)] + Unescape(x).value
  {
  }

  /** A path that decodes has segments that all decode: the per-segment error branch is never taken. */
  lemma {:induction false} SegmentsDecode(s: string)
    requires Unescape(s).Some?
    ensures forall i :: 0 <= i < |Split(s)| ==> Unescape(Split(s)[i]).Some?
    decreases |s|
  {
    if s != "" {
      SegmentsDecode(Tail(s));
      if s[0] != '/' {
        SplitHead(s);
        UnescapeHead(s, Split(Tail(s))[0]);
        assert forall i :: 1 <= i < |Split(s)| ==> Split(s)[i] == Split(s)[1..][i - 1];
        assert forall i :: 1 <= i < |Split(Tail(s))| ==> Split(Tail(s))[i] == Split(Tail(s))[1..][i - 1];
      }
    }
  }

  /** Segment lists that agree behind their heads decode alike there. */
  lemma DecAllTail(a: seq<string>, b: seq<string>)
    requires a != [] && b != [] && a[1..] == b[1..]
    ensures DecAll(a) == [Dec(a[0])] + DecAll(b)[1..]
  {
    ConsFacts(Dec(a[0]), DecAll(b)[1..]);
    assert |a| == |a[1..]| + 1 == |b|;
    forall i | 1 <= i < |a| ensures DecAll(a)[i] == DecAll(b)[1..][i - 1] {
      assert a[i] == a[1..][i - 1] == b[1..][i - 1] == b[i];
    }
  }

  lemma DecAllHead(s: string)
    requires s != "" && Unescape(s).Some? && s[0] != '/'
    ensures var rest := DecAll(Split(Tail(s)));
            DecAll(Split(s)) == [[HeadValue(s)] + rest[0]] + rest[1..]
  {
    var t := Split(Tail(s));
    SplitHead(s);
    DecAllTail(Split(s), t);
    SegmentsDecode(Tail(s));
    UnescapeHead(s, t[0]);
  }

  lemma UnescapeTail(s: string)
    requires s != "" && Unescape(s).Some?
    ensures Unescape(Tail(s)).Some? && Unescape(s).value == [HeadValue(s)] + Unescape(Tail(s)).value
  {
  }

  lemma PlainHead(c: char, first: string, rest: seq<string>)
    requires Plain([[c] + first] + rest)
    ensures c != '/' && Plain([first] + rest)
  {
    var segs := [[c] + first] + rest;
    assert NoSlash(segs[0]) && segs[0][0] == c;
    assert forall k :: 0 <= k < |first| ==> segs[0][k + 1] == first[k];
    assert forall i :: 1 <= i < |segs| ==> segs[i] == ([first] + rest)[i];
  }

  /** Splitting and then decoding equals decoding and then splitting, when no segment hides a slash. */
  lemma {:induction false} DecodeSplits(s: string)
    requires Unescape(s).Some? && Plain(DecAll(Split(s)))
    ensures Split(Unescape(s).value) == DecAll(Split(s))
    decreases |s|
  {
    if s != "" {
      var t := Tail(s);
      var rest := DecAll(Split(t));
      UnescapeTail(s);
      if s[0] == '/' {
        assert DecAll(Split(s)) == [""] + rest;
        assert forall i :: 0 <= i < |rest| ==> rest[i] == DecAll(Split(s))[i + 1];
      } else {
        DecAllHead(s);
        PlainHead(HeadValue(s), rest[0], rest[1..]);
        assert rest == [rest[0]] + rest[1..];
      }
      DecodeSplits(t);
      assert Unescape(s).value[1..] == Unescape(t).value;
    }
  }

  // ---- decoding commutes with cleaning ----

  lemma DotsAreLiteral(segment: string)
    requires SegmentAllowed(segment)
    ensures Dec(segment) == "" <==> segment == ""
    ensures Dec(segment) == "." <==> segment == "."
    ensures Dec(segment) == ".." <==> segment == ".."
  {
    assert Unescape(".") == Some(".") by {
      assert "."[1..] == "" && ['.'] + "" == ".";
    }
    assert Unescape("..") == Some("..") by {
      assert ".."[1..] == "." && ['.'] + "." == "..";
    }
  }

  /** Resolving dot segments before or after decoding gives the same segments. */
  lemma {:induction false} DecodeResolves(segs: seq<string>)
    requires AllAllowed(segs)
    ensures Resolve(DecAll(segs)) == DecAll(Resolve(segs))
  {
    if segs != [] {
      var front, last := segs[..|segs| - 1], segs[|segs| - 1];
      assert DecAll(segs)[..|segs| - 1] == DecAll(front);
      DecodeResolves(front);
      DotsAreLiteral(last);
    }
  }

  // ---- what a canonical path is ----

  lemma {:induction false} DecodeFixesUnescaped(s: string)
    requires !ContainsEscape(s)
    ensures Unescape(s).None? || Unescape(s) == Some(s)
  {
    if s != "" && s[0] != '%' {
      assert forall i :: 0 <= i < |s[1..]| && EscapeAt(s[1..], i) ==> EscapeAt(s, i + 1);
      DecodeFixesUnescaped(s[1..]);
      assert [s[0]] + s[1..] == s;
    } else if s != "" {
      assert !EscapeAt(s, 0);
    }
  }

  /** An escape in a joined path lies inside one segment, since a slash is not a hex digit. */
  lemma {:induction false} EscapesAreLocal(segs: seq<string>, i: nat)
    requires Plain(segs) && EscapeAt(Join(segs), i)
    ensures exists k :: 0 <= k < |segs| && ContainsEscape(segs[k])
  {
    if |segs| == 1 {
      assert ContainsEscape(segs[0]);
    } else {
      var s := Join(segs);
      var n := |segs[0]|;
      assert s[n] == '/';
      if i < n {
        assert EscapeAt(segs[0], i);
      } else {
        assert s[n + 1..] == Join(segs[1..]);
        assert EscapeAt(Join(segs[1..]), i - n - 1);
        assert Plain(segs[1..]);
        EscapesAreLocal(segs[1..], i - n - 1);
        var k :| 0 <= k < |segs[1..]| && ContainsEscape(segs[1..][k]);
        assert ContainsEscape(segs[k + 1]);
      }
    }
  }

  lemma {:induction false} JoinContains(segs: seq<string>, k: nat)
    requires k < |segs|
    ensures ContainsEscape(segs[k]) ==> ContainsEscape(Join(segs))
    ensures forall c :: c in segs[k] ==> c in Join(segs)
  {
    if |segs| > 1 {
      var s := Join(segs);
      if k == 0 {
        assert s[..|segs[0]|] == segs[0];
        assert forall i :: 0 <= i < |segs[0]| && EscapeAt(segs[0], i) ==> EscapeAt(s, i);
      } else {
        JoinContains(segs[1..], k - 1);
        var n := |segs[0]| + 1;
        assert s[n..] == Join(segs[1..]);
        if i :| 0 <= i < |s[n..]| && EscapeAt(s[n..], i) {
          assert EscapeAt(s, n + i);
        }
      }
    }
  }

  /** The decoded path that canonicalURLPath cleans, after the leading slash is trimmed. */
  lemma TrimCommutes(escaped: string)
    requires Unescape(escaped).Some? && AllAllowed(Split(escaped))
    ensures var raw := TrimSlash(escaped);
            Unescape(raw) == Some(TrimSlash(Unescape(escaped).value)) && AllAllowed(Split(raw))
  {
    if escaped != "" {
      UnescapeTail(escaped);
      var d := Unescape(escaped).value;
      assert d[1..] == Unescape(Tail(escaped)).value;
      if escaped[0] == '/' {
        assert forall i :: 0 <= i < |Split(escaped[1..])| ==> Split(escaped[1..])[i] == Split(escaped)[i + 1];
      } else {
        SplitHead(escaped);
        UnescapeHead(escaped, Split(Tail(escaped))[0]);
        assert SegmentAllowed(Split(escaped)[0]);
        assert Dec(Split(escaped)[0])[0] == HeadValue(escaped);
      }
    }
  }

  /** The segments of a path as an intermediary sees them that cleans first and decodes afterwards. */
  function RawSegments(escaped: string): seq<string> {
    DecAll(Resolve(Split(TrimSlash(escaped))))
  }

  lemma AcceptedParts(escaped: string)
    requires CanonicalPath(escaped).Path?
    ensures Unescape(escaped).Some? && AllAllowed(Split(escaped))
    ensures CanonicalPath(escaped).path == Clean(Unescape(escaped).value)
    ensures '\\' !in Unescape(escaped).value && !ContainsEscape(Unescape(escaped).value)
  {
  }

  // ---- which encoded paths are accepted ----

  /** How one byte of a path is written: as itself, or as an escape whose two digits may each be lower case. */
  datatype Form = Literal | Escaped(high: bool, low: bool)

  /** A slash or a percent sign cannot stand for itself inside a segment, and only bytes can be escaped. */
  predicate Writable(text: string, forms: seq<Form>) {
    && |forms| == |text|
    && forall i :: 0 <= i < |text| ==> if forms[i].Literal? then text[i] != '%' && text[i] != '/' else text[i] as int < 256
  }

  function Written(c: char, f: Form): string
    requires f.Escaped? ==> c as int < 256
  {
    if f.Literal? then [c] else ['%', HexDigit(c as int / 16, f.high), HexDigit(c as int % 16, f.low)]
  }

  /** A segment's text in the given forms. */
  function Encode(text: string, forms: seq<Form>): string
    requires Writable(text, forms)
  {
    if text == "" then "" else Written(text[0], forms[0]) + Encode(text[1..], forms[1..])
  }

  lemma WrittenDecodes(c: char, f: Form, x: string)
    requires Unescape(x).Some? && if f.Literal? then c != '%' && c != '/' else c as int < 256
    ensures Unescape(Written(c, f) + x) == Some([c] + Unescape(x).value)
    ensures NoSlash(x) ==> NoSlash(Written(c, f) + x)
    ensures |Written(c, f)| >= 1 && (|Written(c, f)| == 1 <==> f.Literal?) && (f.Literal? ==> Written(c, f) == [c])
  {
    var e := Written(c, f) + x;
    if f.Literal? {
      assert e[1..] == x;
    } else {
      assert e[3..] == x && Decoded(e[1], e[2]) == c;
    }
  }

  lemma {:induction false} EncodeDecodes(text: string, forms: seq<Form>)
    requires Writable(text, forms)
    ensures Unescape(Encode(text, forms)) == Some(text) && NoSlash(Encode(text, forms))
    ensures |Encode(text, forms)| >= |text|
  {
    if text != "" {
      EncodeDecodes(text[1..], forms[1..]);
      WrittenDecodes(text[0], forms[0], Encode(text[1..], forms[1..]));
      assert [text[0]] + text[1..] == text;
    }
  }

  /** A text is written as itself exactly in literal bytes. */
  lemma {:induction false} LiteralText(text: string, forms: seq<Form>)
    requires Writable(text, forms)
    ensures Encode(text, forms) == text <==> forall i :: 0 <= i < |forms| ==> forms[i].Literal?
  {
    if text != "" {
      var rest := Encode(text[1..], forms[1..]);
      LiteralText(text[1..], forms[1..]);
      EncodeDecodes(text[1..], forms[1..]);
      WrittenDecodes(text[0], forms[0], rest);
      assert forall i :: 0 < i < |forms| ==> forms[i] == forms[1..][i - 1];
      if forms[0].Literal? {
        assert ([text[0]] + rest)[1..] == rest;
      }
    }
  }

  /** A path as its plain segments and the forms of their bytes. */
  predicate WritablePath(segs: seq<string>, forms: seq<seq<Form>>) {
    segs != [] && |forms| == |segs| && forall k :: 0 <= k < |segs| ==> Writable(segs[k], forms[k])
  }

  function EncodeAll(segs: seq<string>, forms: seq<seq<Form>>): (r: seq<string>)
    requires WritablePath(segs, forms)
    ensures |r| == |segs| && forall k :: 0 <= k < |segs| ==> r[k] == Encode(segs[k], forms[k])
  {
    seq(|segs|, k requires 0 <= k < |segs| => Encode(segs[k], forms[k]))
  }

  lemma {:induction false} UnescapeAppend(a: string, b: string)
    requires Unescape(a).Some?
    ensures Unescape(a + b) == if Unescape(b).Some? then Some(Unescape(a).value + Unescape(b).value) else None
    decreases |a|
  {
    if a == "" {
      assert a + b == b;
      if Unescape(b).Some? {
        assert "" + Unescape(b).value == Unescape(b).value;
      }
    } else {
      var t := Tail(a);
      assert a == HeadText(a) + t && a + b == HeadText(a) + (t + b);
      UnescapeTail(a);
      UnescapeAppend(t, b);
      UnescapeHead(a, t + b);
      if Unescape(b).Some? {
        Associates([HeadValue(a)], Unescape(t).value, Unescape(b).value);
      }
    }
  }

  lemma SlashDecodes(x: string)
    requires Unescape(x).Some?
    ensures Unescape("/" + x) == Some("/" + Unescape(x).value)
  {
    assert ("/" + x)[1..] == x;
  }

  lemma {:induction false} JoinDecodes(segs: seq<string>, texts: seq<string>)
    requires segs != [] && |texts| == |segs| && forall k :: 0 <= k < |segs| ==> Unescape(segs[k]) == Some(texts[k])
    ensures Unescape(Join(segs)) == Some(Join(texts))
  {
    if |segs| > 1 {
      JoinDecodes(segs[1..], texts[1..]);
      SlashDecodes(Join(segs[1..]));
      UnescapeAppend(segs[0], "/" + Join(segs[1..]));
      Associates(segs[0], "/", Join(segs[1..]));
      Associates(texts[0], "/", Join(texts[1..]));
    }
  }

  /** What the policy demands of the plain segments and of how they were written. */
  predicate Acceptable(segs: seq<string>, forms: seq<seq<Form>>)
    requires |forms| == |segs|
  {
    && (forall k :: 0 <= k < |segs| ==>
          && '/' !in segs[k] && '\\' !in segs[k]
          && (segs[k] == "." || segs[k] == ".." ==> forall i :: 0 <= i < |forms[k]| ==> forms[k][i].Literal?))
    && !ContainsEscape(Join(segs))
  }

  lemma {:induction false} JoinHolds(segs: seq<string>, c: char)
    requires c != '/'
    ensures c in Join(segs) <==> exists k :: 0 <= k < |segs| && c in segs[k]
  {
    if |segs| > 1 {
      JoinHolds(segs[1..], c);
      assert forall k :: 0 < k < |segs| ==> segs[k] == segs[1..][k - 1];
      if c in Join(segs[1..]) {
        var k :| 0 <= k < |segs[1..]| && c in segs[1..][k];
        assert c in segs[k + 1];
      }
    }
  }

  /**
    A path written from any plain segments, in any mix of literal and escaped bytes, is accepted exactly if no segment
    holds a slash or a backslash, dot segments are literal, and the plain text holds no complete escape. The result is
    then the cleaned plain text.
   */
  lemma AcceptedExactly(segs: seq<string>, forms: seq<seq<Form>>)
    requires WritablePath(segs, forms)
    ensures CanonicalPath(Join(EncodeAll(segs, forms))) ==
            if Acceptable(segs, forms) then Path(Clean(Join(segs))) else Rejected
  {
    var encoded := EncodeAll(segs, forms);
    forall k | 0 <= k < |segs|
      ensures Unescape(encoded[k]) == Some(segs[k]) && NoSlash(encoded[k])
      ensures encoded[k] == segs[k] <==> forall i :: 0 <= i < |forms[k]| ==> forms[k][i].Literal?
    {
      EncodeDecodes(segs[k], forms[k]);
      LiteralText(segs[k], forms[k]);
    }
    SplitJoin(encoded);
    JoinDecodes(encoded, segs);
    JoinHolds(segs, '\\');
    forall k | 0 <= k < |segs| ensures SegmentAllowed(encoded[k]) <==>
      '/' !in segs[k] && (segs[k] == "." || segs[k] == ".." ==> encoded[k] == segs[k])
    {
    }
  }

  /** The forms in which a decodable text is written. */
  function FormsOf(s: string): seq<Form>
    requires Unescape(s).Some?
    decreases |s|
  {
    if s == "" then []
    else
      UnescapeTail(s);
      [if s[0] == '%' then Escaped('a' <= s[1] <= 'f', 'a' <= s[2] <= 'f') else Literal] + FormsOf(Tail(s))
  }

  lemma HexDigitOf(c: char)
    requires IsHexDigit(c)
    ensures HexDigit(HexValue(c), 'a' <= c <= 'f') == c
  {
  }

  lemma WrittenEscape(s: string)
    requires EscapeAt(s, 0)
    ensures var d := Decoded(s[1], s[2]);
            d as int < 256 && Written(d, Escaped('a' <= s[1] <= 'f', 'a' <= s[2] <= 'f')) == s[..3]
  {
    var d := Decoded(s[1], s[2]);
    assert d as int == 16 * HexValue(s[1]) + HexValue(s[2]);
    assert d as int / 16 == HexValue(s[1]) && d as int % 16 == HexValue(s[2]);
    HexDigitOf(s[1]);
    HexDigitOf(s[2]);
  }

  /** One more byte in front of a written text. */
  lemma WrittenMore(c: char, f: Form, text: string, forms: seq<Form>)
    requires Writable(text, forms) && if f.Literal? then c != '%' && c != '/' else c as int < 256
    ensures Writable([c] + text, [f] + forms) && Encode([c] + text, [f] + forms) == Written(c, f) + Encode(text, forms)
  {
    assert ([c] + text)[1..] == text && ([f] + forms)[1..] == forms;
  }

  lemma {:induction false} WrittenInForms(s: string)
    requires Unescape(s).Some? && NoSlash(s)
    ensures Writable(Dec(s), FormsOf(s)) && Encode(Dec(s), FormsOf(s)) == s
    decreases |s|
  {
    if s != "" {
      UnescapeTail(s);
      WrittenInForms(Tail(s));
      if s[0] == '%' {
        WrittenEscape(s);
      }
      WrittenMore(HeadValue(s), FormsOf(s)[0], Dec(Tail(s)), FormsOf(Tail(s)));
      assert Dec(s) == [HeadValue(s)] + Dec(Tail(s)) && FormsOf(s) == [FormsOf(s)[0]] + FormsOf(Tail(s));
      assert s == HeadText(s) + Tail(s);
    }
  }

  /** Every path that decodes is written from some segments, so the law above decides it; all others are rejected. */
  lemma EveryPathIsDecided(escaped: string) returns (segs: seq<string>, forms: seq<seq<Form>>)
    ensures Unescape(escaped).Some? ==> WritablePath(segs, forms) && escaped == Join(EncodeAll(segs, forms))
    ensures Unescape(escaped).None? ==> CanonicalPath(escaped).Rejected?
  {
    segs, forms := [], [];
    if Unescape(escaped).Some? {
      var parts := Split(escaped);
      SegmentsDecode(escaped);
      SplitIsPlain(escaped);
      JoinSplit(escaped);
      segs := DecAll(parts);
      forms := seq(|parts|, k requires 0 <= k < |parts| => FormsOf(parts[k]));
      forall k | 0 <= k < |parts| ensures Writable(segs[k], forms[k]) && Encode(segs[k], forms[k]) == parts[k] {
        WrittenInForms(parts[k]);
      }
      assert EncodeAll(segs, forms) == parts;
    }
  }

  lemma {:induction false} NothingToDecode(s: string)
    requires '%' !in s
    ensures Unescape(s) == Some(s)
  {
    if s != "" {
      NothingToDecode(s[1..]);
      assert [s[0]] + s[1..] == s;
    }
  }

  /** A path without percent signs and backslashes is always accepted, and only cleaned. */
  lemma PlainPathsAreAccepted(path: string)
    requires '%' !in path && '\\' !in path
    ensures CanonicalPath(path) == Path(Clean(path))
  {
    NothingToDecode(path);
    SplitIsPlain(path);
    JoinSplit(path);
    forall i | 0 <= i < |Split(path)| ensures SegmentAllowed(Split(path)[i]) {
      JoinContains(Split(path), i);
      NothingToDecode(Split(path)[i]);
    }
  }

  /**
    On an accepted path the order of decoding, splitting and cleaning does not matter: the canonical path has the
    segments of every reading of it.
   */
  lemma ReadingsAgree(escaped: string)
    requires CanonicalPath(escaped).Path?
    ensures Segments(CanonicalPath(escaped).path) == Segments(Unescape(escaped).value) == RawSegments(escaped)
    ensures Split(Unescape(escaped).value) == DecAll(Split(escaped))
  {
    AcceptedParts(escaped);
    CleanIsIdempotent(Unescape(escaped).value);
    DecodeSplits(escaped);
    TrimCommutes(escaped);
    DecodeSplits(TrimSlash(escaped));
    DecodeResolves(Split(TrimSlash(escaped)));
  }

  /** Each segment of a resolved path is a segment of the path it came from, so it adds no byte and no escape. */
  lemma SegmentsComeFrom(path: string, i: nat)
    requires i < |Segments(path)|
    ensures forall c :: c in Segments(path)[i] ==> c in path
    ensures ContainsEscape(Segments(path)[i]) ==> ContainsEscape(path)
  {
    var raw := TrimSlash(path);
    ResolveKeeps(Split(raw), i);
    var k :| 0 <= k < |Split(raw)| && Split(raw)[k] == Segments(path)[i];
    JoinContains(Split(raw), k);
    JoinSplit(raw);
    if ContainsEscape(raw) && raw != path {
      var j :| 0 <= j < |raw| && EscapeAt(raw, j);
      assert EscapeAt(path, j + 1);
    }
  }

  /**
    A canonical path is rooted and clean, its segments are proper and hold no backslash, and decoding it a second time
    changes nothing or fails.
   */
  lemma CanonicalIsStable(escaped: string)
    requires CanonicalPath(escaped).Path?
    ensures var p := CanonicalPath(escaped).path;
            && p[..1] == "/" && Clean(p) == p
            && AllProper(Segments(p))
            && (forall i :: 0 <= i < |Segments(p)| ==> '\\' !in Segments(p)[i])
            && (Unescape(p).None? || Unescape(p) == Some(p))
  {
    AcceptedParts(escaped);
    var d := Unescape(escaped).value;
    var segs := Segments(d);
    CleanIsIdempotent(d);
    SegmentsAreProper(d);
    forall i | 0 <= i < |segs| ensures '\\' !in segs[i] && !ContainsEscape(segs[i]) {
      SegmentsComeFrom(d, i);
    }
    var p := Clean(d);
    if ContainsEscape(p) {
      var i :| 0 <= i < |p| && EscapeAt(p, i);
      assert EscapeAt(Join(segs), i - 1);
      EscapesAreLocal(segs, i - 1);
    }
    DecodeFixesUnescaped(p);
  }

  // ---- prefix matching is on segments ----

  lemma JoinPrefix(p: seq<string>, g: seq<string>)
    requires p != [] && Plain(p) && Plain(g)
    ensures Join(p) + "/" <= Join(g) <==> p <= g && p != g
  {
    if p <= g && p != g {
      assert g == p + g[|p|..];
      JoinAppend(p, g[|p|..]);
      assert Join(g) == (Join(p) + "/") + Join(g[|p|..]);
    }
    if Join(p) + "/" <= Join(g) {
      var x := Join(g)[|Join(p)| + 1..];
      assert Join(g) == Join(p) + "/" + x;
      SplitAtSlash(Join(p), x);
      SplitJoin(p);
      SplitJoin(g);
    }
  }

  lemma CleanEndsProperly(path: string)
    requires Segments(path) != []
    ensures Clean(path)[|Clean(path)| - 1] != '/' && |Clean(path)| > 1
  {
    var segs := Segments(path);
    SegmentsAreProper(path);
    var last := segs[|segs| - 1];
    assert NoSlash(last) && last != "";
    if |segs| > 1 {
      JoinAppend(segs[..|segs| - 1], [last]);
      assert segs == segs[..|segs| - 1] + [last];
    }
    assert Join(segs)[|Join(segs)| - |last|..] == last;
    assert last[|last| - 1] in last;
  }

  lemma RootHasNoSegments()
    ensures Segments("") == Segments("/") == []
  {
  }

  /** pathPrefixMatch holds exactly when the prefix's cleaned segments are a prefix of the path's. */
  lemma PrefixMatchIsSegmentwise(got: string, prefix: string)
    ensures PathPrefixMatch(got, prefix) <==> Segments(prefix) <= Segments(got)
  {
    var g, p := Segments(got), Segments(prefix);
    SegmentsAreProper(got);
    SegmentsAreProper(prefix);
    RootHasNoSegments();
    if p == [] {
      assert Clean(prefix) == "/";
      assert TrimSlashSuffix("/") + "/" == "/";
    } else {
      CleanEndsProperly(prefix);
      JoinPrefix(p, g);
      assert Clean(prefix) + "/" <= Clean(got) <==> Join(p) + "/" <= Join(g) by {
        assert Clean(prefix) + "/" == "/" + (Join(p) + "/");
        assert Clean(got)[1..] == Join(g);
        assert (Clean(prefix) + "/")[1..] == Join(p) + "/";
      }
      assert Clean(got) == Clean(prefix) <==> g == p by {
        if Clean(got) == Clean(prefix) {
          CleanIsIdempotent(got);
          CleanIsIdempotent(prefix);
        }
      }
    }
  }

  /**
    The allowlist is sound for every downstream reading: a destination passes a URL entry's path exactly when its
    segments, cleaned before or after decoding, start with the entry's segments read in the same way.
   */
  lemma AllowlistIsSegmentwise(destination: string, entry: string)
    requires CanonicalPath(destination).Path? && CanonicalPath(entry).Path?
    ensures PathPrefixMatch(CanonicalPath(destination).path, CanonicalPath(entry).path)
            <==> RawSegments(entry) <= RawSegments(destination)
    ensures PathPrefixMatch(CanonicalPath(destination).path, CanonicalPath(entry).path)
            <==> Segments(Unescape(entry).value) <= Segments(Unescape(destination).value)
  {
    ReadingsAgree(destination);
    ReadingsAgree(entry);
    PrefixMatchIsSegmentwise(CanonicalPath(destination).path, CanonicalPath(entry).path);
  }

  // ---- allowlist entries that are URLs ----

  /** A parsed URL; `host` is the normalised host name, `bare` says it has no user, query or fragment. */
  datatype Url = Url(scheme: string, host: string, port: string, escapedPath: string, bare: bool)

  function Lower(s: string): string {
    seq(|s|, i requires 0 <= i < |s| => if 'A' <= s[i] <= 'Z' then (s[i] as int + 32) as char else s[i])
  }

  function EffectivePort(u: Url): string {
    if u.port != "" then u.port
    else if Lower(u.scheme) == "https" then "443"
    else if Lower(u.scheme) == "http" then "80"
    else ""
  }

  /** The URL branch of matchAllowlistEntry, for a destination whose canonical path is already known. */
  predicate MatchUrlEntry(u: Url, canonicalPath: string, allowed: Url) {
    && allowed.bare && Lower(u.scheme) == Lower(allowed.scheme) && u.host == allowed.host
    && EffectivePort(u) == EffectivePort(allowed)
    && CanonicalPath(allowed.escapedPath).Path?
    && PathPrefixMatch(canonicalPath, CanonicalPath(allowed.escapedPath).path)
  }

  predicate FoldEqual(c: char, d: char) {
    c == d || ('A' <= c <= 'Z' && d as int == c as int + 32) || ('A' <= d <= 'Z' && c as int == d as int + 32)
  }

  /** The texts agree up to the case of ASCII letters. */
  predicate SameFold(s: string, t: string) {
    |s| == |t| && forall i :: 0 <= i < |s| ==> FoldEqual(s[i], t[i])
  }

  lemma LowerFolds(s: string, t: string)
    ensures Lower(s) == Lower(t) <==> SameFold(s, t)
  {
    if SameFold(s, t) {
      forall i | 0 <= i < |s| ensures Lower(s)[i] == Lower(t)[i] {
        assert FoldEqual(s[i], t[i]);
      }
    } else if Lower(s) == Lower(t) {
      forall i | 0 <= i < |s| ensures FoldEqual(s[i], t[i]) {
        assert Lower(s)[i] == Lower(t)[i];
      }
    }
  }

  /** The same port, where a missing one is that of https or http. */
  predicate SamePort(scheme: string, p: string, q: string) {
    || p == q
    || (SameFold(scheme, "https") && ((p == "" && q == "443") || (p == "443" && q == "")))
    || (SameFold(scheme, "http") && ((p == "" && q == "80") || (p == "80" && q == "")))
  }

  lemma PortsAgree(u: Url, allowed: Url)
    requires Lower(u.scheme) == Lower(allowed.scheme)
    ensures EffectivePort(u) == EffectivePort(allowed) <==> SamePort(u.scheme, u.port, allowed.port)
  {
    LowerFolds(u.scheme, "https");
    LowerFolds(u.scheme, "http");
    assert Lower("https") == "https" && Lower("http") == "http";
    assert |"https"| == 5 && |"http"| == 4 && |"443"| == 3 && |"80"| == 2;
  }

  /**
    A URL entry allows a destination exactly if it is bare, has the same scheme up to case, the same host, the same port
    up to the scheme's default, an acceptable path, and if the destination's path segments start with its own.
   */
  lemma EntryMatchesExactly(u: Url, allowed: Url)
    requires CanonicalPath(u.escapedPath).Path?
    ensures MatchUrlEntry(u, CanonicalPath(u.escapedPath).path, allowed) <==>
            && allowed.bare && SameFold(u.scheme, allowed.scheme) && u.host == allowed.host
            && SamePort(u.scheme, u.port, allowed.port)
            && CanonicalPath(allowed.escapedPath).Path?
            && RawSegments(allowed.escapedPath) <= RawSegments(u.escapedPath)
  {
    LowerFolds(u.scheme, allowed.scheme);
    if Lower(u.scheme) == Lower(allowed.scheme) {
      PortsAgree(u, allowed);
    }
    if CanonicalPath(allowed.escapedPath).Path? {
      AllowlistIsSegmentwise(u.escapedPath, allowed.escapedPath);
    }
  }

  /** Entries nest: an entry that is itself allowed by another entry allows nothing the other does not. */
  lemma EntriesNest(u: Url, inner: Url, outer: Url)
    requires CanonicalPath(u.escapedPath).Path? && CanonicalPath(inner.escapedPath).Path?
    requires MatchUrlEntry(u, CanonicalPath(u.escapedPath).path, inner)
    requires MatchUrlEntry(inner, CanonicalPath(inner.escapedPath).path, outer)
    ensures MatchUrlEntry(u, CanonicalPath(u.escapedPath).path, outer)
  {
    AllowlistIsSegmentwise(u.escapedPath, inner.escapedPath);
    AllowlistIsSegmentwise(inner.escapedPath, outer.escapedPath);
    AllowlistIsSegmentwise(u.escapedPath, outer.escapedPath);
  }
}
