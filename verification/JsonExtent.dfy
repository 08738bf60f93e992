/** Finding the extent of a JSON object inside a reply by balancing braces.
  *
  * The scan is specified by a small lexer that knows braces, strings and escapes. The main result ties
  * it to the JSON grammar: in front of any valid object the scan finds exactly that object's end.
  */
module JsonExtent {
  import opened Options
  import opened Json

  /** Outside strings, inside one, or after a backslash inside one; with the brace depth. */
  datatype Mode = Code(depth: nat) | InString(depth: nat) | InEscape(depth: nat)

  function Shift(m: Mode, c: char): Mode {
    match m
    case Code(d) =>
      if c == '{' then Code(d + 1)
      else if c == '}' then Code(if d == 0 then 0 else d - 1)
      else if c == '\"' then InString(d)
      else m
    case InString(d) =>
      if c == '\\' then InEscape(d) else if c == '\"' then Code(d) else m
    case InEscape(d) => InString(d)
  }

  /** The mode after reading s[i..j] in mode m. */
  function Lex(s: string, i: nat, j: nat, m: Mode): Mode
    requires i <= j <= |s|
    decreases j
  {
    if i == j then m else Shift(Lex(s, i, j - 1, m), s[j - 1])
  }

  /** s[start..end] is the shortest stretch from the brace at start that closes it. */
  ghost predicate IsExtent(s: string, start: nat, end: nat) {
    && start < end <= |s|
    && s[start] == '{'
    && Lex(s, start, end, Code(0)) == Code(0)
    && forall k :: start < k < end ==> Lex(s, start, k, Code(0)) != Code(0)
  }

  method FindJsonObjectExtent(str: string, startIndex: nat) returns (r: Option<nat>)
    ensures r.Some? ==> IsExtent(str, startIndex, r.value)
    ensures r.None? ==> forall end :: !IsExtent(str, startIndex, end)
  {
    if startIndex >= |str| || str[startIndex] != '{' {
      return None;
    }
    var depth := 0;
    var i := startIndex;
    while i < |str|
      invariant startIndex <= i && 0 <= depth
      invariant startIndex < i ==> 0 < depth
      invariant i <= |str| ==> Lex(str, startIndex, i, Code(0)) == Code(depth)
      invariant forall k :: startIndex < k <= i && k <= |str| ==> Lex(str, startIndex, k, Code(0)) != Code(0)
      decreases |str| - i
    {
      var c := str[i];
      ghost var before := i;
      assert Lex(str, startIndex, i + 1, Code(0)) == Shift(Code(depth), c);
      if c == '{' {
        depth := depth + 1;
      } else if c == '}' {
        depth := depth - 1;
        if depth == 0 {
          return Some(i + 1);
        }
      } else if c == '\"' {
        i := i + 1;
        while i < |str| && str[i] != '\"'
          invariant before < i
          invariant i <= |str| ==> Lex(str, startIndex, i, Code(0)) == InString(depth)
          invariant forall k :: startIndex < k <= i && k <= |str| ==> Lex(str, startIndex, k, Code(0)) != Code(0)
          decreases |str| - i
        {
          assert Lex(str, startIndex, i + 1, Code(0)) == Shift(InString(depth), str[i]);
          if str[i] == '\\' {
            i := i + 1;
            assert i < |str| ==> Lex(str, startIndex, i + 1, Code(0)) == InString(depth);
          }
          i := i + 1;
        }
      }
      i := i + 1;
    }
    r := None;
  }

  // ---- The extent depends on nothing outside it ------------------------------------------------------

  lemma {:induction false} LexIsLocal(s: string, t: string, i: nat, j: nat, m: Mode)
    requires i <= j <= |s| && j <= |t| && forall k :: i <= k < j ==> s[k] == t[k]
    ensures Lex(s, i, j, m) == Lex(t, i, j, m)
    decreases j
  {
    if i < j {
      LexIsLocal(s, t, i, j - 1, m);
    }
  }

  /** Whatever follows the object, and wherever the text is cut after it, the extent is the same; cut
    * inside the object there is none. Two extents at one place are equal. */
  lemma ExtentIsLocal(s: string, t: string, start: nat, end: nat)
    requires IsExtent(s, start, end) && (s <= t || t <= s)
    ensures end <= |t| ==> IsExtent(t, start, end)
    ensures forall other :: IsExtent(t, start, other) ==> other == end
  {
    forall k | start <= k <= |s| && k <= |t|
      ensures Lex(t, start, k, Code(0)) == Lex(s, start, k, Code(0))
    {
      LexIsLocal(s, t, start, k, Code(0));
    }
  }

  // ---- The scan agrees with the JSON grammar -----------------------------------------------------------

  /** Reading s[i..j] at depth d ends outside strings at depth d, and never drops below d. */
  ghost predicate Spans(s: string, i: nat, j: nat, d: nat) {
    && i <= j <= |s|
    && Lex(s, i, j, Code(d)) == Code(d)
    && forall k :: i <= k <= j ==> d <= Lex(s, i, k, Code(d)).depth
  }

  lemma {:induction false} LexSplit(s: string, i: nat, j: nat, k: nat, m: Mode)
    requires i <= j <= k <= |s|
    ensures Lex(s, i, k, m) == Lex(s, j, k, Lex(s, i, j, m))
    decreases k
  {
    if j < k {
      LexSplit(s, i, j, k - 1, m);
    }
  }

  lemma SpansJoin(s: string, i: nat, j: nat, k: nat, d: nat)
    requires Spans(s, i, j, d) && Spans(s, j, k, d)
    ensures Spans(s, i, k, d)
  {
    LexSplit(s, i, j, k, Code(d));
    forall x | i <= x <= k
      ensures d <= Lex(s, i, x, Code(d)).depth
    {
      if j < x {
        LexSplit(s, i, j, x, Code(d));
      }
    }
  }

  predicate IsPlain(c: char) {
    c != '{' && c != '}' && c != '\"'
  }

  lemma {:induction false} PlainSpans(s: string, i: nat, j: nat, d: nat)
    requires i <= j <= |s| && forall k :: i <= k < j ==> IsPlain(s[k])
    ensures Spans(s, i, j, d)
    decreases j
  {
    if i < j {
      PlainSpans(s, i, j - 1, d);
    }
  }

  /** From inside a string the reader and the lexer leave it at the same quote. */
  lemma {:induction false} StringBodySpans(s: string, i: nat, d: nat)
    requires i <= |s| && ReadString(s, i).Some?
    ensures var j := ReadString(s, i).value.next;
            && Lex(s, i, j, InString(d)) == Code(d)
            && forall k :: i <= k <= j ==> d <= Lex(s, i, k, InString(d)).depth
    decreases |s| - i
  {
    var j := ReadString(s, i).value.next;
    if s[i] == '\"' {
      assert Lex(s, i, i, InString(d)) == InString(d);
    } else {
      var u := ReadUnit(s, i).value.next;
      UnitStaysInString(s, i, d);
      StringBodySpans(s, u, d);
      forall k | i <= k <= j
        ensures u < k ==> Lex(s, i, k, InString(d)) == Lex(s, u, k, InString(d))
      {
        if u < k {
          LexSplit(s, i, u, k, InString(d));
        }
      }
    }
  }

  lemma UnitStaysInString(s: string, i: nat, d: nat)
    requires i < |s| && ReadUnit(s, i).Some?
    ensures var u := ReadUnit(s, i).value.next;
            && Lex(s, i, u, InString(d)) == InString(d)
            && forall k :: i <= k <= u ==> d <= Lex(s, i, k, InString(d)).depth
  {
    var u := ReadUnit(s, i).value.next;
    assert Lex(s, i, i + 1, InString(d)) == Shift(InString(d), s[i]);
    if s[i] == '\\' {
      assert Lex(s, i, i + 2, InString(d)) == InString(d);
      if s[i + 1] == 'u' {
        assert Lex(s, i, i + 3, InString(d)) == InString(d);
        assert Lex(s, i, i + 4, InString(d)) == InString(d);
        assert Lex(s, i, i + 5, InString(d)) == InString(d);
        assert Lex(s, i, i + 6, InString(d)) == InString(d);
      }
    }
  }

  lemma QuotedSpans(s: string, i: nat, d: nat)
    requires i < |s| && s[i] == '\"' && ReadString(s, i + 1).Some?
    ensures Spans(s, i, ReadString(s, i + 1).value.next, d)
  {
    var j := ReadString(s, i + 1).value.next;
    StringBodySpans(s, i + 1, d);
    assert Lex(s, i, i + 1, Code(d)) == InString(d);
    forall k | i < k <= j
      ensures Lex(s, i, k, Code(d)) == Lex(s, i + 1, k, InString(d))
    {
      LexSplit(s, i, i + 1, k, Code(d));
    }
  }

  lemma SpaceSpans(s: string, i: nat, d: nat)
    requires i <= |s|
    ensures Spans(s, i, SkipSpace(s, i), d)
  {
    PlainSpans(s, i, SkipSpace(s, i), d);
  }

  /** White space and one plain character. */
  lemma TokenSpans(s: string, i: nat, d: nat)
    requires i <= |s| && SkipSpace(s, i) < |s| && IsPlain(s[SkipSpace(s, i)])
    ensures Spans(s, i, SkipSpace(s, i) + 1, d)
  {
    SpaceSpans(s, i, d);
    PlainSpans(s, SkipSpace(s, i), SkipSpace(s, i) + 1, d);
    SpansJoin(s, i, SkipSpace(s, i), SkipSpace(s, i) + 1, d);
  }

  lemma ScalarSpans(s: string, i: nat, d: nat)
    requires i < |s| && ReadScalar(s, i).Some?
    ensures Spans(s, i, ReadScalar(s, i).value.next, d)
  {
    if s[i] == '\"' {
      QuotedSpans(s, i, d);
    } else if WordAt(s, i, "true") {
      WordIsPlain(s, i, "true", d);
    } else if WordAt(s, i, "false") {
      WordIsPlain(s, i, "false", d);
    } else if WordAt(s, i, "null") {
      WordIsPlain(s, i, "null", d);
    } else {
      PlainSpans(s, i, NumberEnd(s, i), d);
    }
  }

  lemma WordIsPlain(s: string, i: nat, word: string, d: nat)
    requires WordAt(s, i, word) && forall k :: 0 <= k < |word| ==> IsPlain(word[k])
    ensures Spans(s, i, i + |word|, d)
  {
    forall k | i <= k < i + |word|
      ensures IsPlain(s[k])
    {
      assert s[i + (k - i)] == word[k - i];
    }
    PlainSpans(s, i, i + |word|, d);
  }

  lemma {:induction false} ValueSpans(s: string, start: nat, d: nat)
    requires start <= |s| && ReadValue(s, start).Some?
    ensures Spans(s, start, ReadValue(s, start).value.next, d)
    decreases |s| - start, 2
  {
    var i := SkipSpace(s, start);
    SpaceSpans(s, start, d);
    if s[i] == '{' {
      ObjectSpans(s, i, d);
    } else if s[i] == '[' {
      PlainSpans(s, i, i + 1, d);
      ArraySpans(s, i + 1, d);
      SpansJoin(s, i, i + 1, ReadArray(s, i + 1).value.next, d);
    } else {
      ScalarSpans(s, i, d);
    }
    SpansJoin(s, start, i, ReadValue(s, start).value.next, d);
  }

  /** Reading s[i..j] at depth d spans up to a last character, which is a closing brace. */
  ghost predicate Closes(s: string, i: nat, j: nat, d: nat) {
    i < j <= |s| && s[j - 1] == '}' && Spans(s, i, j - 1, d)
  }

  lemma SpansThenCloses(s: string, i: nat, j: nat, k: nat, d: nat)
    requires Spans(s, i, j, d) && Closes(s, j, k, d)
    ensures Closes(s, i, k, d)
  {
    SpansJoin(s, i, j, k - 1, d);
  }

  lemma SeparatorCloses(s: string, i: nat, d: nat)
    requires i <= |s| && ReadSeparator(s, i, '}').Close?
    ensures Closes(s, i, ReadSeparator(s, i, '}').next, d)
  {
    SpaceSpans(s, i, d);
  }

  /** From its brace an object spans, and inside it the depth stays above d until the last brace. */
  lemma {:induction false} ObjectSpans(s: string, i: nat, d: nat)
    requires i < |s| && s[i] == '{' && ReadObject(s, i + 1).Some?
    ensures var j := ReadObject(s, i + 1).value.next;
            && Spans(s, i, j, d)
            && forall k :: i < k < j ==> d < Lex(s, i, k, Code(d)).depth
    decreases |s| - i, 1
  {
    if ReadSeparator(s, i + 1, '}').Close? {
      SeparatorCloses(s, i + 1, d + 1);
    } else {
      MembersClose(s, i + 1, d + 1);
    }
    BracesSpan(s, i, ReadObject(s, i + 1).value.next, d);
  }

  lemma BracesSpan(s: string, i: nat, j: nat, d: nat)
    requires i < |s| && s[i] == '{' && Closes(s, i + 1, j, d + 1)
    ensures Spans(s, i, j, d)
    ensures forall k :: i < k < j ==> d < Lex(s, i, k, Code(d)).depth
  {
    assert Lex(s, i, i + 1, Code(d)) == Code(d + 1);
    forall k | i < k < j
      ensures Lex(s, i, k, Code(d)) == Lex(s, i + 1, k, Code(d + 1))
    {
      LexSplit(s, i, i + 1, k, Code(d));
    }
  }

  lemma {:induction false} ArraySpans(s: string, i: nat, d: nat)
    requires i <= |s| && ReadArray(s, i).Some?
    ensures Spans(s, i, ReadArray(s, i).value.next, d)
    decreases |s| - i, 4
  {
    if ReadSeparator(s, i, ']').Close? {
      TokenSpans(s, i, d);
    } else {
      ItemsSpan(s, i, d);
    }
  }

  lemma {:induction false} ItemsSpan(s: string, i: nat, d: nat)
    requires i <= |s| && ReadItems(s, i).Some?
    ensures Spans(s, i, ReadItems(s, i).value.next, d)
    decreases |s| - i, 3
  {
    var v := ReadValue(s, i).value;
    var sep := ReadSeparator(s, v.next, ']');
    ValueSpans(s, i, d);
    TokenSpans(s, v.next, d);
    SpansJoin(s, i, v.next, sep.next, d);
    if sep.Comma? {
      ItemsSpan(s, sep.next, d);
      SpansJoin(s, i, sep.next, ReadItems(s, i).value.next, d);
    }
  }

  /** The members span up to the closing brace. */
  lemma {:induction false} MembersClose(s: string, i: nat, d: nat)
    requires i <= |s| && ReadMembers(s, i).Some?
    ensures Closes(s, i, ReadMembers(s, i).value.next, d)
    decreases |s| - i, 4
  {
    var m := ReadMember(s, i).value;
    var sep := ReadSeparator(s, m.next, '}');
    MemberSpans(s, i, d);
    if sep.Comma? {
      TokenSpans(s, m.next, d);
      SpansJoin(s, i, m.next, sep.next, d);
      MembersClose(s, sep.next, d);
      SpansThenCloses(s, i, sep.next, ReadMembers(s, sep.next).value.next, d);
    } else {
      SeparatorCloses(s, m.next, d);
      SpansThenCloses(s, i, m.next, sep.next, d);
    }
  }

  lemma {:induction false} MemberSpans(s: string, i: nat, d: nat)
    requires i <= |s| && ReadMember(s, i).Some?
    ensures Spans(s, i, ReadMember(s, i).value.next, d)
    decreases |s| - i, 3
  {
    var key := ReadKey(s, i).value;
    KeySpans(s, i, d);
    ValueSpans(s, key.next, d);
    SpansJoin(s, i, key.next, ReadMember(s, i).value.next, d);
  }

  lemma KeySpans(s: string, i: nat, d: nat)
    requires i <= |s| && ReadKey(s, i).Some?
    ensures Spans(s, i, ReadKey(s, i).value.next, d)
  {
    var q := SkipSpace(s, i);
    var j := ReadString(s, q + 1).value.next;
    SpaceSpans(s, i, d);
    QuotedSpans(s, q, d);
    TokenSpans(s, j, d);
    SpansJoin(s, i, q, j, d);
    SpansJoin(s, i, j, SkipSpace(s, j) + 1, d);
  }

  /** In front of a valid JSON object, followed by anything, the scan finds the end of that object. */
  lemma ScanFindsParsedObject(s: string, start: nat)
    requires start < |s| && s[start] == '{' && ReadValue(s, start).Some?
    ensures IsExtent(s, start, ReadValue(s, start).value.next)
  {
    ObjectSpans(s, start, 0);
  }

  /** So the slice the scan returns for a complete object text is the whole text. */
  lemma ScanTakesWholeObject(t: string, tail: string)
    requires Parse(t).Some? && t != [] && t[0] == '{' && !IsSpace(t[|t| - 1])
    ensures IsExtent(t + tail, 0, |t|)
  {
    ScanFindsParsedObject(t, 0);
    assert SkipSpace(t, ReadValue(t, 0).value.next) == |t|;
    assert t <= t + tail;
    ExtentIsLocal(t, t + tail, 0, ReadValue(t, 0).value.next);
  }
}
