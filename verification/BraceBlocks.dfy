/** What the scan for an object's extent finds, by a grammar: a block in braces whose parts are plain characters,
  * quoted strings and further blocks.
  */
module BraceBlocks {
  import opened JsonExtent

  /** A character of a quoted string: as it is, or any one behind a backslash. */
  datatype Bit = Raw(c: char) | Escaped(c: char)

  datatype Part = Plain(c: char) | Quoted(bits: seq<Bit>) | Block(parts: seq<Part>)

  ghost predicate GoodBits(bits: seq<Bit>) {
    forall k :: 0 <= k < |bits| ==> bits[k].Raw? ==> bits[k].c != '\"' && bits[k].c != '\\'
  }

  ghost predicate GoodPart(p: Part) {
    match p
    case Plain(c) => c != '{' && c != '}' && c != '\"'
    case Quoted(bits) => GoodBits(bits)
    case Block(parts) => GoodParts(parts)
  }

  ghost predicate GoodParts(parts: seq<Part>) {
    forall k :: 0 <= k < |parts| ==> GoodPart(parts[k])
  }

  /** A string after its opening quote. */
  function ShowBits(bits: seq<Bit>): string {
    if bits == [] then "\""
    else (match bits[0] case Raw(c) => [c] case Escaped(c) => ['\\', c]) + ShowBits(bits[1..])
  }

  function ShowPart(p: Part): string {
    match p
    case Plain(c) => [c]
    case Quoted(bits) => "\"" + ShowBits(bits)
    case Block(parts) => "{" + ShowParts(parts)
  }

  /** A block after its opening brace. */
  function ShowParts(parts: seq<Part>): string {
    if parts == [] then "}" else ShowPart(parts[0]) + ShowParts(parts[1..])
  }

  // ---- Pieces of a text ---------------------------------------------------------------------------------------

  /** The text t stands at position i. */
  predicate StandsAt(s: string, i: nat, t: string) {
    i + |t| <= |s| && s[i..i + |t|] == t
  }

  lemma StandsInTurn(s: string, i: nat, t: string, u: string)
    ensures StandsAt(s, i, t + u) <==> StandsAt(s, i, t) && StandsAt(s, i + |t|, u)
  {
    if i + |t + u| <= |s| {
      var both := s[i..i + |t + u|];
      assert both[..|t|] == s[i..i + |t|] && both[|t|..] == s[i + |t|..i + |t| + |u|];
      if both == t + u {
        assert both[..|t|] == t && both[|t|..] == u;
      }
    }
  }

  lemma OneStep(s: string, i: nat, m: Mode)
    requires i < |s|
    ensures Lex(s, i, i + 1, m) == Shift(m, s[i])
  {
    assert Lex(s, i, i, m) == m;
  }

  // ---- A block has an extent ----------------------------------------------------------------------------------

  lemma {:induction false} BitsLeave(s: string, i: nat, bits: seq<Bit>, d: nat)
    requires GoodBits(bits) && StandsAt(s, i, ShowBits(bits))
    ensures Leaves(s, i, i + |ShowBits(bits)|, d)
    decreases |bits|
  {
    OneStep(s, i, InString(d));
    if bits != [] {
      var first := ShowBits(bits)[..|ShowBits(bits)| - |ShowBits(bits[1..])|];
      StandsInTurn(s, i, first, ShowBits(bits[1..]));
      assert first + ShowBits(bits[1..]) == ShowBits(bits);
      BitStays(s, i, bits[0], d);
      BitsLeave(s, i + |first|, bits[1..], d);
      LeavesLater(s, i, i + |first|, i + |ShowBits(bits)|, d);
    }
  }

  /** From inside a string, s[i..j] ends it and never drops below its depth. */
  ghost predicate Leaves(s: string, i: nat, j: nat, d: nat) {
    && i <= j <= |s|
    && Lex(s, i, j, InString(d)) == Code(d)
    && forall k :: i <= k <= j ==> d <= Lex(s, i, k, InString(d)).depth
  }

  /** From inside a string, s[i..j] stays in it. */
  ghost predicate StaysInside(s: string, i: nat, j: nat, d: nat) {
    && i <= j <= |s|
    && Lex(s, i, j, InString(d)) == InString(d)
    && forall k :: i <= k <= j ==> d <= Lex(s, i, k, InString(d)).depth
  }

  lemma BitStays(s: string, i: nat, b: Bit, d: nat)
    requires i < |s| && s[i] == (if b.Raw? then b.c else '\\') && (b.Raw? ==> b.c != '\"' && b.c != '\\')
    requires b.Escaped? ==> i + 1 < |s|
    ensures StaysInside(s, i, if b.Raw? then i + 1 else i + 2, d)
  {
    OneStep(s, i, InString(d));
    if b.Escaped? {
      assert Lex(s, i, i + 2, InString(d)) == InString(d);
    }
  }

  lemma LeavesLater(s: string, i: nat, j: nat, k: nat, d: nat)
    requires StaysInside(s, i, j, d) && Leaves(s, j, k, d)
    ensures Leaves(s, i, k, d)
  {
    forall x | j <= x <= k ensures Lex(s, i, x, InString(d)) == Lex(s, j, x, InString(d)) {
      LexSplit(s, i, j, x, InString(d));
    }
  }

  lemma QuoteSpans(s: string, i: nat, bits: seq<Bit>, d: nat)
    requires GoodBits(bits) && StandsAt(s, i, "\"" + ShowBits(bits))
    ensures Spans(s, i, i + 1 + |ShowBits(bits)|, d)
  {
    StandsInTurn(s, i, "\"", ShowBits(bits));
    BitsLeave(s, i + 1, bits, d);
    OneStep(s, i, Code(d));
    hide ShowBits;
    forall x | i < x <= i + 1 + |ShowBits(bits)| ensures Lex(s, i, x, Code(d)) == Lex(s, i + 1, x, InString(d)) {
      LexSplit(s, i, i + 1, x, Code(d));
    }
  }

  lemma {:induction false} PartSpans(s: string, i: nat, p: Part, d: nat)
    requires GoodPart(p) && StandsAt(s, i, ShowPart(p))
    ensures Spans(s, i, i + |ShowPart(p)|, d)
    decreases p, 1
  {
    match p
    case Plain(c) => OneStep(s, i, Code(d));
    case Quoted(bits) => QuoteSpans(s, i, bits, d);
    case Block(parts) =>
      StandsInTurn(s, i, "{", ShowParts(parts));
      PartsClose(s, i + 1, parts, d + 1);
      BracesSpan(s, i, i + 1 + |ShowParts(parts)|, d);
  }

  lemma {:induction false} PartsClose(s: string, i: nat, parts: seq<Part>, d: nat)
    requires GoodParts(parts) && StandsAt(s, i, ShowParts(parts))
    ensures Closes(s, i, i + |ShowParts(parts)|, d)
    decreases parts, 0
  {
    if parts != [] {
      StandsInTurn(s, i, ShowPart(parts[0]), ShowParts(parts[1..]));
      PartSpans(s, i, parts[0], d);
      PartsClose(s, i + |ShowPart(parts[0])|, parts[1..], d);
      SpansThenCloses(s, i, i + |ShowPart(parts[0])|, i + |ShowParts(parts)|, d);
    }
  }

  // ---- An extent is a block -----------------------------------------------------------------------------------

  /** What stands in front of a string's rest, and how the reading goes on behind it. */
  lemma AfterFirst(s: string, i: nat, end: nat, d: nat)
    requires i <= end <= |s| && Lex(s, i, end, InString(d)).Code?
    ensures i < end
    ensures s[i] == '\\' ==> i + 1 < end && Lex(s, i + 2, end, InString(d)).Code?
    ensures s[i] != '\\' && s[i] != '\"' ==> Lex(s, i + 1, end, InString(d)).Code?
  {
    OneStep(s, i, InString(d));
    LexSplit(s, i, i + 1, end, InString(d));
    if s[i] == '\\' {
      OneStep(s, i + 1, InEscape(d));
      LexSplit(s, i + 1, i + 2, end, InEscape(d));
    }
  }

  lemma BitBefore(s: string, i: nat, b: Bit, rest: seq<Bit>)
    requires i < |s| && GoodBits(rest) && s[i] == (if b.Raw? then b.c else '\\') && (b.Raw? ==> b.c != '\"' && b.c != '\\')
    requires b.Escaped? ==> i + 1 < |s| && s[i + 1] == b.c
    requires StandsAt(s, if b.Raw? then i + 1 else i + 2, ShowBits(rest))
    ensures GoodBits([b] + rest) && StandsAt(s, i, ShowBits([b] + rest))
    ensures |ShowBits([b] + rest)| == (if b.Raw? then 1 else 2) + |ShowBits(rest)|
  {
    StandsInTurn(s, i, if b.Raw? then [b.c] else ['\\', b.c], ShowBits(rest));
  }

  lemma {:induction false} FindBits(s: string, i: nat, end: nat, d: nat) returns (bits: seq<Bit>)
    requires i <= end <= |s| && Lex(s, i, end, InString(d)).Code?
    ensures GoodBits(bits) && StandsAt(s, i, ShowBits(bits)) && i + |ShowBits(bits)| <= end
    decreases end - i
  {
    hide Lex, Shift;
    AfterFirst(s, i, end, d);
    if s[i] == '\"' {
      bits := [];
    } else if s[i] == '\\' {
      var rest := FindBits(s, i + 2, end, d);
      bits := [Escaped(s[i + 1])] + rest;
      BitBefore(s, i, Escaped(s[i + 1]), rest);
    } else {
      var rest := FindBits(s, i + 1, end, d);
      bits := [Raw(s[i])] + rest;
      BitBefore(s, i, Raw(s[i]), rest);
    }
  }

  /** From inside a block to where the depth has dropped below it, there is the rest of a block. */
  lemma {:induction false} FindParts(s: string, i: nat, end: nat, d: nat) returns (parts: seq<Part>)
    requires i <= end <= |s| && Lex(s, i, end, Code(d + 1)).Code? && Lex(s, i, end, Code(d + 1)).depth <= d
    ensures GoodParts(parts) && StandsAt(s, i, ShowParts(parts)) && i + |ShowParts(parts)| <= end
    decreases end - i
  {
    if s[i] == '}' {
      parts := [];
    } else {
      var p := FindPart(s, i, end, d);
      var n := i + |ShowPart(p)|;
      PartSpans(s, i, p, d + 1);
      LexSplit(s, i, n, end, Code(d + 1));
      var rest := FindParts(s, n, end, d);
      parts := [p] + rest;
      StandsInTurn(s, i, ShowPart(p), ShowParts(rest));
    }
  }

  lemma {:induction false} FindPart(s: string, i: nat, end: nat, d: nat) returns (p: Part)
    requires i < end <= |s| && s[i] != '}' && Lex(s, i, end, Code(d + 1)).Code? && Lex(s, i, end, Code(d + 1)).depth <= d
    ensures GoodPart(p) && StandsAt(s, i, ShowPart(p)) && ShowPart(p) != "" && i + |ShowPart(p)| <= end
    decreases end - i, 0
  {
    OneStep(s, i, Code(d + 1));
    LexSplit(s, i, i + 1, end, Code(d + 1));
    if s[i] == '{' {
      var parts := FindParts(s, i + 1, end, d + 1);
      p := Block(parts);
      StandsInTurn(s, i, "{", ShowParts(parts));
    } else if s[i] == '\"' {
      var bits := FindBits(s, i + 1, end, d + 1);
      p := Quoted(bits);
      StandsInTurn(s, i, "\"", ShowBits(bits));
    } else {
      p := Plain(s[i]);
    }
  }

  /** The extents are exactly the blocks: braces in strings and escaped quotes do not count, and nothing else
    * has a meaning. */
  lemma ExtentIsBlock(s: string, start: nat, end: nat)
    ensures IsExtent(s, start, end) <==>
      exists parts :: GoodParts(parts) && StandsAt(s, start, ShowPart(Block(parts))) && end == start + |ShowPart(Block(parts))|
  {
    if IsExtent(s, start, end) {
      var parts := BlockOfExtent(s, start, end);
    }
    forall parts | GoodParts(parts) && StandsAt(s, start, ShowPart(Block(parts))) && end == start + |ShowPart(Block(parts))|
      ensures IsExtent(s, start, end)
    {
      BlockHasExtent(s, start, parts);
    }
  }

  lemma BlockHasExtent(s: string, start: nat, parts: seq<Part>)
    requires GoodParts(parts) && StandsAt(s, start, ShowPart(Block(parts)))
    ensures IsExtent(s, start, start + |ShowPart(Block(parts))|)
  {
    StandsInTurn(s, start, "{", ShowParts(parts));
    PartsClose(s, start + 1, parts, 1);
    BracesSpan(s, start, start + 1 + |ShowParts(parts)|, 0);
  }

  lemma BlockOfExtent(s: string, start: nat, end: nat) returns (parts: seq<Part>)
    requires IsExtent(s, start, end)
    ensures GoodParts(parts) && StandsAt(s, start, ShowPart(Block(parts))) && end == start + |ShowPart(Block(parts))|
  {
    OneStep(s, start, Code(0));
    LexSplit(s, start, start + 1, end, Code(0));
    parts := FindParts(s, start + 1, end, 0);
    StandsInTurn(s, start, "{", ShowParts(parts));
    BlockHasExtent(s, start, parts);
  }
}
