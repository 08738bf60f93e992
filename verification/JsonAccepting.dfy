/** The parser reads nothing but texts of the grammar: every text it accepts is spelled by a syntax tree that
  * means the value it returns.
  */
module JsonAccepting {
  import opened Options
  import opened Json
  import opened JsonGrammar
  import opened JsonReading
  import opened Sequences

  lemma Slices(s: string, i: nat, j: nat, k: nat)
    requires i <= j <= k <= |s|
    ensures s[i..k] == s[i..j] + s[j..k]
  {
  }

  lemma CutAt(s: string, i: nat, k: nat, n: nat)
    requires i <= k < n <= |s|
    ensures s[i..n] == s[i..k] + ([s[k]] + s[k + 1..n])
  {
  }

  lemma SkippedIsGap(s: string, i: nat)
    requires i <= |s|
    ensures IsGap(s[i..SkipSpace(s, i)])
  {
  }

  // ---- Strings --------------------------------------------------------------------------------------------

  lemma FindPiece(s: string, i: nat) returns (p: Piece)
    requires i < |s| && s[i] != '\"' && ReadUnit(s, i).Some?
    ensures var r := ReadUnit(s, i).value; GoodPiece(p) && UnitOf(p) == r.value && s[i..r.next] == ShowPiece(p)
  {
    if s[i] != '\\' {
      p := Plain(s[i]);
    } else if s[i + 1] == 'u' {
      p := Coded(s[i + 2], s[i + 3], s[i + 4], s[i + 5]);
    } else {
      p := Short(s[i + 1]);
    }
  }

  lemma {:induction false} FindPieces(s: string, i: nat) returns (ps: seq<Piece>)
    requires i <= |s| && ReadString(s, i).Some?
    ensures var r := ReadString(s, i).value; GoodPieces(ps) && UnitsOf(ps) == r.value && s[i..r.next] == ShowPieces(ps)
    decreases |s| - i
  {
    if s[i] == '\"' {
      ps := [];
    } else {
      var p := FindPiece(s, i);
      var j := ReadUnit(s, i).value.next;
      var rest := FindPieces(s, j);
      Slices(s, i, j, ReadString(s, i).value.next);
      PiecesCons(p, rest);
      ps := [p] + rest;
    }
  }

  lemma PiecesCons(p: Piece, rest: seq<Piece>)
    ensures ShowPieces([p] + rest) == ShowPiece(p) + ShowPieces(rest) && UnitsOf([p] + rest) == [UnitOf(p)] + UnitsOf(rest)
  {
    assert ([p] + rest)[1..] == rest;
  }

  // ---- Numbers --------------------------------------------------------------------------------------------

  lemma {:induction false} DigitsAre(t: string, i: nat)
    requires i <= |t|
    ensures AreDigits(t[i..DigitsEnd(t, i)])
    decreases |t| - i
  {
    if i < |t| && IsDigit(t[i]) {
      DigitsAre(t, i + 1);
      Slices(t, i, i + 1, DigitsEnd(t, i));
    }
  }

  lemma FindExponent(t: string, i: nat) returns (e: Option<Exponent>)
    requires i <= |t| && ExponentOk(t, i)
    ensures ShowExponent(e) == t[i..] && GoodExponent(e)
  {
    if i == |t| {
      e := None;
    } else {
      var j := if i + 1 < |t| && (t[i + 1] == '+' || t[i + 1] == '-') then i + 2 else i + 1;
      DigitsAre(t, j);
      assert t[j..DigitsEnd(t, j)] == t[j..];
      e := Some(Exponent(t[i], t[i + 1..j], t[j..]));
      ExponentParts(t, i, j);
    }
  }

  lemma ExponentParts(t: string, i: nat, j: nat)
    requires i < j <= |t|
    ensures [t[i]] + t[i + 1..j] + t[j..] == t[i..]
    ensures j == i + 1 ==> t[i + 1..j] == ""
    ensures j == i + 2 ==> t[i + 1..j] == [t[i + 1]]
  {
  }

  lemma FindFraction(t: string, i: nat) returns (f: Option<string>, j: nat)
    requires i <= |t| && FractionOk(t, i)
    ensures i <= j <= |t| && ExponentOk(t, j) && ShowFraction(f) == t[i..j]
    ensures f.Some? ==> f.value != "" && AreDigits(f.value)
  {
    if i < |t| && t[i] == '.' {
      j := DigitsEnd(t, i + 1);
      DigitsAre(t, i + 1);
      f := Some(t[i + 1..j]);
    } else {
      f, j := None, i;
    }
  }

  lemma FindWhole(t: string) returns (minus: bool, start: nat, whole: nat)
    requires IsNumber(t)
    ensures start < whole <= |t| && t[..start] == (if minus then "-" else "") && FractionOk(t, whole)
    ensures AreDigits(t[start..whole]) && (t[start] == '0' ==> whole == start + 1)
  {
    minus := t[0] == '-';
    start := if minus then 1 else 0;
    whole := if t[start] == '0' then start + 1 else DigitsEnd(t, start);
    DigitsAre(t, start);
  }

  lemma FindNumeral(t: string) returns (n: Numeral)
    requires IsNumber(t)
    ensures GoodNumeral(n) && ShowNumeral(n) == t
  {
    var minus, start, whole := FindWhole(t);
    var fraction, j := FindFraction(t, whole);
    var exponent := FindExponent(t, j);
    n := Numeral(minus, t[start..whole], fraction, exponent);
    NumeralParts(t, n, start, whole, j);
  }

  lemma NumeralParts(t: string, n: Numeral, start: nat, whole: nat, j: nat)
    requires start <= whole <= j <= |t|
    requires t[..start] == (if n.minus then "-" else "") && n.whole == t[start..whole]
    requires ShowFraction(n.fraction) == t[whole..j] && ShowExponent(n.exponent) == t[j..]
    ensures ShowNumeral(n) == t
  {
    assert t == t[..start] + (t[start..whole] + (t[whole..j] + t[j..]));
  }

  // ---- Values ---------------------------------------------------------------------------------------------

  lemma FindScalar(s: string, i: nat) returns (t: Text)
    requires i < |s| && ReadScalar(s, i).Some?
    ensures var r := ReadScalar(s, i).value; Good(t) && Meaning(t) == r.value && s[i..r.next] == Show(t)
  {
    if s[i] == '\"' {
      var ps := FindPieces(s, i + 1);
      Slices(s, i, i + 1, ReadString(s, i + 1).value.next);
      t := StringText(ps);
    } else if WordAt(s, i, "true") {
      t := TrueText;
    } else if WordAt(s, i, "false") {
      t := FalseText;
    } else if WordAt(s, i, "null") {
      t := NullText;
    } else {
      var n := FindNumeral(s[i..NumberEnd(s, i)]);
      t := NumberText(n);
    }
  }

  /** The value read from position i on, with the white space before it. */
  lemma {:induction false} FindSpaced(s: string, start: nat) returns (x: Spaced)
    requires start <= |s| && ReadValue(s, start).Some?
    ensures var r := ReadValue(s, start).value;
      x.after == "" && GoodSpaced(x) && Meaning(x.text) == r.value && s[start..r.next] == ShowSpaced(x)
    decreases |s| - start, 2
  {
    hide *;
    ValueCases(s, start);
    var i := SkipSpace(s, start);
    var t: Text;
    if s[i] == '{' {
      t := FindObject(s, i + 1);
    } else if s[i] == '[' {
      t := FindArray(s, i + 1);
    } else {
      t := FindScalar(s, i);
    }
    x := Spaced(s[start..i], t, "");
    BehindGap(s, start, i, ReadValue(s, start).value.next, t);
  }

  lemma ValueCases(s: string, start: nat)
    requires start <= |s| && ReadValue(s, start).Some?
    ensures var i := SkipSpace(s, start);
      && i < |s|
      && ReadValue(s, start) == if s[i] == '{' then ReadObject(s, i + 1) else if s[i] == '[' then ReadArray(s, i + 1) else ReadScalar(s, i)
  {
  }

  lemma BehindGap(s: string, start: nat, i: nat, n: nat, t: Text)
    requires start <= i <= n <= |s| && i == SkipSpace(s, start) && Good(t) && s[i..n] == Show(t)
    ensures var x := Spaced(s[start..i], t, ""); GoodSpaced(x) && s[start..n] == ShowSpaced(x)
  {
    SkippedIsGap(s, start);
    Slices(s, start, i, n);
    assert Show(t) + "" == Show(t);
  }

  lemma ArrayCases(s: string, i: nat)
    requires i <= |s| && ReadArray(s, i).Some?
    ensures var k := SkipSpace(s, i);
      if k < |s| && s[k] == ']' then ReadArray(s, i).value == Read(Array([]), k + 1)
      else ReadItems(s, i).Some? && ReadArray(s, i).value == Read(Array(ReadItems(s, i).value.value), ReadItems(s, i).value.next)
  {
  }

  lemma ObjectCases(s: string, i: nat)
    requires i <= |s| && ReadObject(s, i).Some?
    ensures var k := SkipSpace(s, i);
      if k < |s| && s[k] == '}' then ReadObject(s, i).value == Read(Object([]), k + 1)
      else ReadMembers(s, i).Some?
           && ReadObject(s, i).value == Read(Object(ReadMembers(s, i).value.value), ReadMembers(s, i).value.next)
  {
  }

  lemma EmptyShows(s: string, i: nat, k: nat)
    requires 0 < i <= k < |s| && k == SkipSpace(s, i)
    ensures IsGap(s[i..k]) && s[i - 1..k + 1] == [s[i - 1]] + (s[i..k] + [s[k]])
  {
    SkippedIsGap(s, i);
  }

  lemma EmptyArrayShows(s: string, i: nat, k: nat)
    requires 0 < i <= k < |s| && k == SkipSpace(s, i) && s[i - 1] == '[' && s[k] == ']'
    ensures var t := ArrayText(s[i..k], []); Good(t) && Meaning(t) == Array([]) && s[i - 1..k + 1] == Show(t)
  {
    EmptyShows(s, i, k);
  }

  lemma EmptyObjectShows(s: string, i: nat, k: nat)
    requires 0 < i <= k < |s| && k == SkipSpace(s, i) && s[i - 1] == '{' && s[k] == '}'
    ensures var t := ObjectText(s[i..k], []); Good(t) && Meaning(t) == Object([]) && s[i - 1..k + 1] == Show(t)
  {
    EmptyShows(s, i, k);
  }

  lemma ArrayShows(s: string, i: nat, n: nat, items: seq<Spaced>, vs: seq<Value>)
    requires 0 < i <= |s| && s[i - 1] == '[' && ItemsAre(s, i, n, items, vs)
    ensures var t := ArrayText("", items); Good(t) && Meaning(t) == Array(vs) && s[i - 1..n] == Show(t)
  {
    assert s[i - 1..n] == "[" + s[i..n];
  }

  lemma ObjectShows(s: string, i: nat, n: nat, entries: seq<Entry>, ms: seq<Member>)
    requires 0 < i <= |s| && s[i - 1] == '{' && EntriesAre(s, i, n, entries, ms)
    ensures var t := ObjectText("", entries); Good(t) && Meaning(t) == Object(ms) && s[i - 1..n] == Show(t)
  {
    assert s[i - 1..n] == "{" + s[i..n];
  }

  lemma {:induction false} FindArray(s: string, i: nat) returns (t: Text)
    requires 0 < i <= |s| && s[i - 1] == '[' && ReadArray(s, i).Some?
    ensures var r := ReadArray(s, i).value; Good(t) && Meaning(t) == r.value && s[i - 1..r.next] == Show(t)
    decreases |s| - i, 6
  {
    hide *;
    ArrayCases(s, i);
    var k := SkipSpace(s, i);
    if k < |s| && s[k] == ']' {
      EmptyArrayShows(s, i, k);
      t := ArrayText(s[i..k], []);
    } else {
      var items := FindItems(s, i);
      t := ArrayText("", items);
      var r := ReadItems(s, i).value;
      ArrayShows(s, i, r.next, items, r.value);
    }
  }

  lemma {:induction false} FindObject(s: string, i: nat) returns (t: Text)
    requires 0 < i <= |s| && s[i - 1] == '{' && ReadObject(s, i).Some?
    ensures var r := ReadObject(s, i).value; Good(t) && Meaning(t) == r.value && s[i - 1..r.next] == Show(t)
    decreases |s| - i, 6
  {
    hide *;
    ObjectCases(s, i);
    var k := SkipSpace(s, i);
    if k < |s| && s[k] == '}' {
      EmptyObjectShows(s, i, k);
      t := ObjectText(s[i..k], []);
    } else {
      var entries := FindEntries(s, i);
      t := ObjectText("", entries);
      var r := ReadMembers(s, i).value;
      ObjectShows(s, i, r.next, entries, r.value);
    }
  }

  /** White space put behind a value. */
  lemma WithGap(s: string, i: nat, j: nat, k: nat, x: Spaced) returns (y: Spaced)
    requires i <= j <= k <= |s| && IsGap(s[j..k])
    requires x.after == "" && GoodSpaced(x) && s[i..j] == ShowSpaced(x)
    ensures GoodSpaced(y) && y.text == x.text && s[i..k] == ShowSpaced(y)
  {
    hide Show, Good, Meaning;
    Slices(s, i, j, k);
    y := x.(after := s[j..k]);
    assert x.before + (Show(x.text) + "") + s[j..k] == x.before + (Show(x.text) + s[j..k]);
  }

  /** The value read from position i on, with the white space on both sides, up to position k. */
  lemma {:induction false} FindPadded(s: string, i: nat) returns (y: Spaced, v: Value, k: nat)
    requires i <= |s| && ReadValue(s, i).Some?
    ensures i <= k <= |s| && GoodSpaced(y) && Meaning(y.text) == v && s[i..k] == ShowSpaced(y)
    ensures v == ReadValue(s, i).value.value && k == SkipSpace(s, ReadValue(s, i).value.next)
    decreases |s| - i, 3
  {
    hide *;
    var x := FindSpaced(s, i);
    var j := ReadValue(s, i).value.next;
    v, k := ReadValue(s, i).value.value, SkipSpace(s, j);
    SkippedIsGap(s, j);
    y := WithGap(s, i, j, k, x);
  }

  /** A stretch of a text that spells items of given meanings up to the bracket. */
  ghost predicate ItemsAre(s: string, i: nat, n: nat, items: seq<Spaced>, vs: seq<Value>) {
    i <= n <= |s| && items != [] && GoodItems(items) && Meanings(items) == vs && s[i..n] == ShowItems(items)
  }

  lemma {:induction false} FindItems(s: string, i: nat) returns (items: seq<Spaced>)
    requires i <= |s| && ReadItems(s, i).Some?
    ensures var r := ReadItems(s, i).value; ItemsAre(s, i, r.next, items, r.value)
    decreases |s| - i, 4
  {
    hide *;
    ItemsCases(s, i);
    var y, v, k := FindPadded(s, i);
    if s[k] == ']' {
      items := [y];
      LastItem(s, i, k, y);
    } else {
      var rest := FindItems(s, k + 1);
      items := [y] + rest;
      var r := ReadItems(s, k + 1).value;
      MoreItems(s, i, k, r.next, y, rest, r.value);
    }
  }

  /** The last item of an array, or one before others. */
  lemma ItemsCases(s: string, i: nat)
    requires i <= |s| && ReadItems(s, i).Some?
    ensures ReadValue(s, i).Some?
    ensures var v := ReadValue(s, i).value; var k := SkipSpace(s, v.next);
      && k < |s|
      && if s[k] == ']' then ReadItems(s, i).value == Read([v.value], k + 1)
         else s[k] == ',' && ReadItems(s, k + 1).Some?
              && ReadItems(s, i).value == Read([v.value] + ReadItems(s, k + 1).value.value, ReadItems(s, k + 1).value.next)
  {
    hide ReadValue, SkipSpace;
  }

  lemma MembersCases(s: string, i: nat)
    requires i <= |s| && ReadMembers(s, i).Some?
    ensures ReadMember(s, i).Some?
    ensures var m := ReadMember(s, i).value; var k := SkipSpace(s, m.next);
      && k < |s|
      && if s[k] == '}' then ReadMembers(s, i).value == Read([m.value], k + 1)
         else s[k] == ',' && ReadMembers(s, k + 1).Some?
              && ReadMembers(s, i).value == Read([m.value] + ReadMembers(s, k + 1).value.value, ReadMembers(s, k + 1).value.next)
  {
    hide ReadMember, SkipSpace;
  }

  lemma LastItem(s: string, i: nat, k: nat, y: Spaced)
    requires i <= k < |s| && s[k] == ']' && s[i..k] == ShowSpaced(y) && GoodSpaced(y)
    ensures ItemsAre(s, i, k + 1, [y], [Meaning(y.text)])
  {
    assert [y][1..] == [];
    OneMore(s, i, k);
  }

  lemma MoreItems(s: string, i: nat, k: nat, n: nat, y: Spaced, rest: seq<Spaced>, vs: seq<Value>)
    requires i <= k < n && k < |s| && s[k] == ',' && s[i..k] == ShowSpaced(y) && GoodSpaced(y)
    requires ItemsAre(s, k + 1, n, rest, vs)
    ensures ItemsAre(s, i, n, [y] + rest, [Meaning(y.text)] + vs)
  {
    CutAt(s, i, k, n);
    assert ([y] + rest)[1..] == rest;
  }

  lemma FindKeyString(s: string, start: nat) returns (x: Spaced, j: nat)
    requires start <= |s| && ReadKey(s, start).Some?
    ensures GoodSpaced(x) && x.after == "" && x.text.StringText? && UnitsOf(x.text.pieces) == ReadKey(s, start).value.value
    ensures start <= j <= |s| && s[start..j] == ShowSpaced(x)
    ensures SkipSpace(s, j) < |s| && s[SkipSpace(s, j)] == ':' && ReadKey(s, start).value.next == SkipSpace(s, j) + 1
  {
    var i := SkipSpace(s, start);
    var ps := FindPieces(s, i + 1);
    j := ReadString(s, i + 1).value.next;
    SkippedIsGap(s, start);
    CutAt(s, start, i, j);
    x := Spaced(s[start..i], StringText(ps), "");
    assert Show(x.text) + "" == Show(x.text);
  }

  lemma OneMore(s: string, i: nat, k: nat)
    requires i <= k < |s|
    ensures s[i..k + 1] == s[i..k] + [s[k]]
  {
  }

  lemma FindKey(s: string, start: nat) returns (key: Spaced)
    requires start <= |s| && ReadKey(s, start).Some?
    ensures var r := ReadKey(s, start).value;
      GoodSpaced(key) && key.text.StringText? && UnitsOf(key.text.pieces) == r.value && s[start..r.next] == ShowSpaced(key) + ":"
  {
    hide *;
    var x, j := FindKeyString(s, start);
    var k := SkipSpace(s, j);
    SkippedIsGap(s, j);
    key := WithGap(s, start, j, k, x);
    OneMore(s, start, k);
  }

  lemma {:induction false} FindEntry(s: string, i: nat) returns (e: Entry)
    requires i <= |s| && ReadMember(s, i).Some?
    ensures var r := ReadMember(s, i).value;
      e.value.after == "" && GoodEntry(e) && EntryMeaning(e) == r.value && s[i..r.next] == ShowEntry(e)
    decreases |s| - i, 3
  {
    var key := FindKey(s, i);
    var j := ReadKey(s, i).value.next;
    var x := FindSpaced(s, j);
    e := Entry(key, x);
    KeyThenValue(s, i, j, ReadMember(s, i).value.next, key, x);
  }

  lemma KeyThenValue(s: string, i: nat, j: nat, n: nat, key: Spaced, x: Spaced)
    requires i <= j <= n <= |s| && s[i..j] == ShowSpaced(key) + ":" && s[j..n] == ShowSpaced(x)
    ensures s[i..n] == ShowEntry(Entry(key, x))
  {
    Slices(s, i, j, n);
    Regroup(ShowSpaced(key), ":", ShowSpaced(x));
  }

  lemma EntryWithGap(s: string, i: nat, j: nat, k: nat, e: Entry) returns (f: Entry)
    requires i <= j <= k <= |s| && IsGap(s[j..k])
    requires e.value.after == "" && GoodEntry(e) && s[i..j] == ShowEntry(e)
    ensures GoodEntry(f) && EntryMeaning(f) == EntryMeaning(e) && s[i..k] == ShowEntry(f)
  {
    hide Show, Good, Meaning;
    var x := e.value;
    var y := x.(after := s[j..k]);
    assert ShowSpaced(y) == ShowSpaced(x) + s[j..k] by {
      assert x.before + (Show(x.text) + "") + s[j..k] == x.before + (Show(x.text) + s[j..k]);
    }
    f := Entry(e.key, y);
    Slices(s, i, j, k);
    assert ShowSpaced(e.key) + (":" + ShowSpaced(x)) + s[j..k] == ShowSpaced(e.key) + (":" + (ShowSpaced(x) + s[j..k]));
  }

  lemma {:induction false} FindPaddedEntry(s: string, i: nat) returns (f: Entry, m: Member, k: nat)
    requires i <= |s| && ReadMember(s, i).Some?
    ensures i <= k <= |s| && GoodEntry(f) && EntryMeaning(f) == m && s[i..k] == ShowEntry(f)
    ensures m == ReadMember(s, i).value.value && k == SkipSpace(s, ReadMember(s, i).value.next)
    decreases |s| - i, 4
  {
    hide *;
    var e := FindEntry(s, i);
    var j := ReadMember(s, i).value.next;
    m, k := ReadMember(s, i).value.value, SkipSpace(s, j);
    SkippedIsGap(s, j);
    f := EntryWithGap(s, i, j, k, e);
  }

  /** A stretch of a text that spells entries of given meanings up to the brace. */
  ghost predicate EntriesAre(s: string, i: nat, n: nat, entries: seq<Entry>, ms: seq<Member>) {
    i <= n <= |s| && entries != [] && GoodEntries(entries) && EntryMeanings(entries) == ms && s[i..n] == ShowEntries(entries)
  }

  lemma {:induction false} FindEntries(s: string, i: nat) returns (entries: seq<Entry>)
    requires i <= |s| && ReadMembers(s, i).Some?
    ensures var r := ReadMembers(s, i).value; EntriesAre(s, i, r.next, entries, r.value)
    decreases |s| - i, 5
  {
    hide *;
    MembersCases(s, i);
    var f, m, k := FindPaddedEntry(s, i);
    if s[k] == '}' {
      entries := [f];
      LastEntry(s, i, k, f);
    } else {
      var rest := FindEntries(s, k + 1);
      entries := [f] + rest;
      var r := ReadMembers(s, k + 1).value;
      MoreEntries(s, i, k, r.next, f, rest, r.value);
    }
  }

  lemma LastEntry(s: string, i: nat, k: nat, e: Entry)
    requires i <= k < |s| && s[k] == '}' && s[i..k] == ShowEntry(e) && GoodEntry(e)
    ensures EntriesAre(s, i, k + 1, [e], [EntryMeaning(e)])
  {
    OneEntryMeans(e);
    OneMore(s, i, k);
  }

  lemma OneEntryMeans(e: Entry)
    ensures EntryMeanings([e]) == [EntryMeaning(e)] && (GoodEntry(e) ==> GoodEntries([e]))
  {
    assert [e][1..] == [];
  }

  lemma MoreEntries(s: string, i: nat, k: nat, n: nat, e: Entry, rest: seq<Entry>, ms: seq<Member>)
    requires i <= k < n && k < |s| && s[k] == ',' && s[i..k] == ShowEntry(e) && GoodEntry(e)
    requires EntriesAre(s, k + 1, n, rest, ms)
    ensures EntriesAre(s, i, n, [e] + rest, [EntryMeaning(e)] + ms)
  {
    CutAt(s, i, k, n);
    assert ([e] + rest)[1..] == rest;
  }

  /** The parser is exact: a text parses to a value if and only if the grammar spells the text with that
    * meaning. */
  lemma ParseIsExact(s: string, v: Value)
    ensures Parse(s) == Some(v) <==> exists x :: GoodSpaced(x) && ShowSpaced(x) == s && Meaning(x.text) == v
  {
    if Parse(s) == Some(v) {
      var x := FindSpaced(s, 0);
      var j := ReadValue(s, 0).value.next;
      SkippedIsGap(s, j);
      var y := WithGap(s, 0, j, |s|, x);
      assert s[0..|s|] == s;
    }
    forall x | GoodSpaced(x) && ShowSpaced(x) == s && Meaning(x.text) == v ensures Parse(s) == Some(v) {
      TextParses(x);
    }
  }
}
