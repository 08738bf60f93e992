/** A record line cannot go on in the middle of another JSON text: wherever a text is cut and the start of a
  * record line follows, the whole does not parse.
  */
module JsonWedge {
  import opened Options
  import opened Json

  /** The start of a record line at position p. */
  predicate Wedge(s: string, p: nat) {
    p + 4 < |s| && s[p] == '-' && s[p + 1] == ' ' && s[p + 2] == '{' && s[p + 3] == '\"' && s[p + 4] == 'i'
  }

  lemma {:induction false} SpaceStops(s: string, i: nat, p: nat)
    requires Wedge(s, p) && i <= p
    ensures SkipSpace(s, i) <= p
    decreases p - i
  {
    if i < p && IsSpace(s[i]) {
      SpaceStops(s, i + 1, p);
    }
  }

  lemma SeparatorStops(s: string, i: nat, p: nat, close: char)
    requires Wedge(s, p) && (i <= p || i == p + 4) && (close == ']' || close == '}')
    ensures var r := ReadSeparator(s, i, close); r.Neither? || (i <= p && r.next <= p)
  {
    if i <= p {
      SpaceStops(s, i, p);
    }
  }

  /** Inside a string the wedge's quote ends it. */
  lemma {:induction false} StringStops(s: string, i: nat, p: nat)
    requires Wedge(s, p) && i <= p
    ensures ReadString(s, i).Some? ==> ReadString(s, i).value.next <= p || ReadString(s, i).value.next == p + 4
    decreases p - i
  {
    if i == p {
      StringAtWedge(s, p);
    } else if s[i] != '\"' {
      UnitStops(s, i, p);
      if ReadUnit(s, i).Some? {
        StringStops(s, ReadUnit(s, i).value.next, p);
      }
    }
  }

  lemma StringAtWedge(s: string, p: nat)
    requires Wedge(s, p)
    ensures ReadString(s, p).Some? ==> ReadString(s, p).value.next == p + 4
  {
    assert ReadUnit(s, p) == Some(Read('-' as int, p + 1));
    assert ReadUnit(s, p + 1) == Some(Read(' ' as int, p + 2));
    assert ReadUnit(s, p + 2) == Some(Read('{' as int, p + 3));
    assert ReadString(s, p + 3) == Some(Read([], p + 4));
    assert ReadString(s, p + 2).value.next == p + 4;
  }

  /** No escape reaches over the wedge: a minus sign is neither an escape nor a hexadecimal digit. */
  lemma UnitStops(s: string, i: nat, p: nat)
    requires Wedge(s, p) && i < p
    ensures ReadUnit(s, i).Some? ==> ReadUnit(s, i).value.next <= p
  {
    if s[i] == '\\' && s[i + 1] == 'u' && i + 6 <= |s| && p < i + 6 {
      assert HexDigit(s[p]).None?;
      assert p == i + 1 || p == i + 2 || p == i + 3 || p == i + 4 || p == i + 5;
      assert Hex4(s, i + 2).None?;
    }
  }

  lemma {:induction false} DigitsEndWithDigit(t: string, i: nat)
    requires i < |t| && DigitsEnd(t, i) == |t|
    ensures IsDigit(t[|t| - 1])
    decreases |t| - i
  {
    if i < |t| - 1 {
      DigitsEndWithDigit(t, i + 1);
    }
  }

  lemma ExponentEndsWithDigit(t: string, i: nat)
    requires 0 < i <= |t| && ExponentOk(t, i) && (i == |t| ==> IsDigit(t[i - 1]))
    ensures IsDigit(t[|t| - 1])
  {
    if i < |t| {
      var j := if i + 1 < |t| && (t[i + 1] == '+' || t[i + 1] == '-') then i + 2 else i + 1;
      DigitsEndWithDigit(t, j);
    }
  }

  lemma {:induction false} DigitBeforeEnd(t: string, i: nat)
    requires i <= |t| && i < DigitsEnd(t, i)
    ensures IsDigit(t[DigitsEnd(t, i) - 1])
    decreases |t| - i
  {
    if i + 1 < DigitsEnd(t, i) {
      DigitBeforeEnd(t, i + 1);
    }
  }

  /** A number ends with a digit. */
  lemma NumberEndsWithDigit(t: string)
    requires IsNumber(t)
    ensures t != "" && IsDigit(t[|t| - 1])
  {
    var start := if |t| > 0 && t[0] == '-' then 1 else 0;
    var whole := if start < |t| && t[start] == '0' then start + 1 else DigitsEnd(t, start);
    if !(start < |t| && t[start] == '0') {
      DigitBeforeEnd(t, start);
    }
    if whole < |t| && t[whole] == '.' {
      var j := DigitsEnd(t, whole + 1);
      DigitBeforeEnd(t, whole + 1);
      ExponentEndsWithDigit(t, j);
    } else {
      ExponentEndsWithDigit(t, whole);
    }
  }

  lemma NumberNeedsDigit(t: string)
    requires t != "" && !IsDigit(t[|t| - 1])
    ensures !IsNumber(t)
  {
    if IsNumber(t) {
      NumberEndsWithDigit(t);
    }
  }

  lemma {:induction false} NumberRunStops(s: string, i: nat, p: nat)
    requires Wedge(s, p) && i <= p
    ensures NumberEnd(s, i) < p || NumberEnd(s, i) == p + 1
    decreases p - i
  {
    if i == p {
      assert NumberEnd(s, p + 1) == p + 1;
    } else if IsNumberChar(s[i]) {
      NumberRunStops(s, i + 1, p);
    }
  }

  lemma ScalarStops(s: string, i: nat, p: nat)
    requires Wedge(s, p) && i <= p
    ensures ReadScalar(s, i).Some? ==> ReadScalar(s, i).value.next <= p || ReadScalar(s, i).value.next == p + 4
  {
    if s[i] == '\"' {
      StringStops(s, i + 1, p);
    } else {
      WordStops(s, i, p, "true");
      WordStops(s, i, p, "false");
      WordStops(s, i, p, "null");
      NumberRunStops(s, i, p);
      var n := NumberEnd(s, i);
      if n == p + 1 {
        assert s[i..n][|s[i..n]| - 1] == s[p];
        NumberNeedsDigit(s[i..n]);
      }
    }
  }

  lemma WordStops(s: string, i: nat, p: nat, word: string)
    requires Wedge(s, p) && i <= p && '-' !in word
    ensures WordAt(s, i, word) ==> i + |word| <= p
  {
    if p < i + |word| <= |s| {
      assert word[p - i] in word;
      assert s[i + (p - i)] != word[p - i];
    }
  }

  /** A value that is read past the wedge is a string that the wedge's quote ends. */
  lemma {:induction false} ValueStops(s: string, start: nat, p: nat)
    requires Wedge(s, p) && start <= p
    ensures ReadValue(s, start).Some? ==> ReadValue(s, start).value.next <= p || ReadValue(s, start).value.next == p + 4
    decreases p - start, 2
  {
    SpaceStops(s, start, p);
    var i := SkipSpace(s, start);
    if s[i] == '{' {
      ObjectStops(s, i + 1, p);
    } else if s[i] == '[' {
      ArrayStops(s, i + 1, p);
    } else {
      ScalarStops(s, i, p);
    }
  }

  lemma {:induction false} ObjectStops(s: string, i: nat, p: nat)
    requires Wedge(s, p) && i <= p
    ensures ReadObject(s, i).Some? ==> ReadObject(s, i).value.next <= p
    decreases p - i, 5
  {
    SeparatorStops(s, i, p, '}');
    if !ReadSeparator(s, i, '}').Close? {
      MembersStop(s, i, p);
    }
  }

  lemma {:induction false} ArrayStops(s: string, i: nat, p: nat)
    requires Wedge(s, p) && i <= p
    ensures ReadArray(s, i).Some? ==> ReadArray(s, i).value.next <= p
    decreases p - i, 5
  {
    SeparatorStops(s, i, p, ']');
    if !ReadSeparator(s, i, ']').Close? {
      ItemsStop(s, i, p);
    }
  }

  lemma {:induction false} ItemsStop(s: string, i: nat, p: nat)
    requires Wedge(s, p) && i <= p
    ensures ReadItems(s, i).Some? ==> ReadItems(s, i).value.next <= p
    decreases p - i, 3
  {
    ValueStops(s, i, p);
    if ReadValue(s, i).Some? {
      var next := ReadValue(s, i).value.next;
      SeparatorStops(s, next, p, ']');
      if ReadSeparator(s, next, ']').Comma? {
        ItemsStop(s, ReadSeparator(s, next, ']').next, p);
      }
    }
  }

  lemma KeyStops(s: string, start: nat, p: nat)
    requires Wedge(s, p) && start <= p
    ensures ReadKey(s, start).Some? ==> ReadKey(s, start).value.next <= p
  {
    SpaceStops(s, start, p);
    var i := SkipSpace(s, start);
    if s[i] == '\"' {
      StringStops(s, i + 1, p);
      if ReadString(s, i + 1).Some? && ReadString(s, i + 1).value.next <= p {
        SpaceStops(s, ReadString(s, i + 1).value.next, p);
      }
    }
  }

  lemma {:induction false} MemberStops(s: string, i: nat, p: nat)
    requires Wedge(s, p) && i <= p
    ensures ReadMember(s, i).Some? ==> ReadMember(s, i).value.next <= p || ReadMember(s, i).value.next == p + 4
    decreases p - i, 3
  {
    KeyStops(s, i, p);
    if ReadKey(s, i).Some? {
      ValueStops(s, ReadKey(s, i).value.next, p);
    }
  }

  lemma {:induction false} MembersStop(s: string, i: nat, p: nat)
    requires Wedge(s, p) && i <= p
    ensures ReadMembers(s, i).Some? ==> ReadMembers(s, i).value.next <= p
    decreases p - i, 4
  {
    MemberStops(s, i, p);
    if ReadMember(s, i).Some? {
      var next := ReadMember(s, i).value.next;
      SeparatorStops(s, next, p, '}');
      if ReadSeparator(s, next, '}').Comma? {
        MembersStop(s, ReadSeparator(s, next, '}').next, p);
      }
    }
  }

  /** No JSON text goes on with the start of a record line. */
  lemma WedgedTextDoesNotParse(s: string, p: nat)
    requires Wedge(s, p)
    ensures Parse(s).None?
  {
    ValueStops(s, 0, p);
    if ReadValue(s, 0).Some? {
      var next := ReadValue(s, 0).value.next;
      if next <= p {
        SpaceStops(s, next, p);
      }
    }
  }
}
