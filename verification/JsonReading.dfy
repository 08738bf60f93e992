/** The parser reads every text of the grammar as the value its tree means. */
module JsonReading {
  import opened Options
  import opened Json
  import opened JsonGrammar

  // ---- Where texts stand ----------------------------------------------------------------------------------

  predicate CharAt(s: string, i: nat, c: char) {
    i < |s| && s[i] == c
  }

  lemma WordsSplit(s: string, i: nat, a: string, b: string)
    requires WordAt(s, i, a + b)
    ensures WordAt(s, i, a) && WordAt(s, i + |a|, b)
  {
    forall k | 0 <= k < |a| ensures s[i + k] == a[k] {
      assert (a + b)[k] == a[k];
    }
    forall k | 0 <= k < |b| ensures s[i + |a| + k] == b[k] {
      assert (a + b)[|a| + k] == b[k];
    }
  }

  lemma FirstOf(s: string, i: nat, t: string)
    requires WordAt(s, i, t) && t != ""
    ensures CharAt(s, i, t[0])
  {
    assert s[i + 0] == t[0];
  }

  /** A character and what follows it. */
  lemma SplitFirst(s: string, i: nat, c: string, b: string)
    requires WordAt(s, i, c + b) && |c| == 1
    ensures CharAt(s, i, c[0]) && WordAt(s, i + 1, b)
  {
    WordsSplit(s, i, c, b);
    FirstOf(s, i, c);
  }

  /** After a value comes the end, or a character that does not go on with a number. */
  predicate Delimited(s: string, i: nat) {
    i >= |s| || !IsNumberChar(s[i])
  }

  /** What a value starts with is neither white space nor punctuation that ends or separates values. */
  predicate Starts(s: string, i: nat) {
    i < |s| && !IsSpace(s[i]) && s[i] != '}' && s[i] != ']' && s[i] != ',' && s[i] != ':'
  }

  /** The white space of the grammar stands from i to j. */
  ghost predicate GapAt(s: string, i: nat, j: nat) {
    i <= j <= |s| && forall k :: i <= k < j ==> s[k] == ' ' || s[k] == '\t' || s[k] == '\n' || s[k] == '\r'
  }

  lemma GapStands(s: string, i: nat, g: string)
    requires WordAt(s, i, g) && IsGap(g)
    ensures GapAt(s, i, i + |g|)
  {
    forall k | i <= k < i + |g| ensures s[k] == ' ' || s[k] == '\t' || s[k] == '\n' || s[k] == '\r' {
      assert s[i + (k - i)] == g[k - i];
    }
  }

  /** The parser skips exactly the white space of the grammar. */
  lemma {:induction false} SkipsGap(s: string, i: nat, j: nat)
    requires GapAt(s, i, j) && (j < |s| ==> !IsSpace(s[j]))
    ensures SkipSpace(s, i) == j
    decreases j - i
  {
    if i < j {
      SkipsGap(s, i + 1, j);
    }
  }

  // ---- Numbers ------------------------------------------------------------------------------------------

  lemma {:induction false} DigitsRun(t: string, i: nat, j: nat)
    requires i <= j <= |t| && forall k :: i <= k < j ==> IsDigit(t[k])
    requires j < |t| ==> !IsDigit(t[j])
    ensures DigitsEnd(t, i) == j
    decreases j - i
  {
    if i < j {
      DigitsRun(t, i + 1, j);
    }
  }

  lemma DigitsStand(t: string, i: nat, digits: string)
    requires WordAt(t, i, digits) && AreDigits(digits)
    requires i + |digits| < |t| ==> !IsDigit(t[i + |digits|])
    ensures DigitsEnd(t, i) == i + |digits|
  {
    forall k | i <= k < i + |digits| ensures IsDigit(t[k]) {
      assert t[i + (k - i)] == digits[k - i];
    }
    DigitsRun(t, i, i + |digits|);
  }

  lemma ExponentStands(t: string, i: nat, e: Option<Exponent>)
    requires WordAt(t, i, ShowExponent(e)) && i + |ShowExponent(e)| == |t|
    requires GoodExponent(e)
    ensures ExponentOk(t, i) && (i < |t| ==> !IsDigit(t[i]) && t[i] != '.')
  {
    if e.Some? {
      var Exponent(letter, sign, digits) := e.value;
      assert ShowExponent(e) == [letter] + (sign + digits);
      SplitFirst(t, i, [letter], sign + digits);
      WordsSplit(t, i + 1, sign, digits);
      var j := i + 1 + |sign|;
      DigitsStand(t, j, digits);
      FirstOf(t, j, digits);
      if sign != "" {
        FirstOf(t, i + 1, sign);
      }
    }
  }

  lemma FractionStands(t: string, i: nat, n: Numeral)
    requires GoodNumeral(n) && WordAt(t, i, ShowFraction(n.fraction) + ShowExponent(n.exponent))
    requires i + |ShowFraction(n.fraction) + ShowExponent(n.exponent)| == |t|
    ensures FractionOk(t, i) && (i < |t| ==> !IsDigit(t[i]))
  {
    WordsSplit(t, i, ShowFraction(n.fraction), ShowExponent(n.exponent));
    ExponentStands(t, i + |ShowFraction(n.fraction)|, n.exponent);
    if n.fraction.Some? {
      SplitFirst(t, i, ".", n.fraction.value);
      DigitsStand(t, i + 1, n.fraction.value);
    }
  }

  lemma NumeralIsNumber(n: Numeral)
    requires GoodNumeral(n)
    ensures IsNumber(ShowNumeral(n))
  {
    NumeralStands(ShowNumeral(n), n, if n.minus then "-" else "", ShowFraction(n.fraction) + ShowExponent(n.exponent));
  }

  lemma NumeralStands(t: string, n: Numeral, sign: string, tail: string)
    requires GoodNumeral(n) && sign == (if n.minus then "-" else "")
    requires tail == ShowFraction(n.fraction) + ShowExponent(n.exponent)
    requires WordAt(t, 0, sign + (n.whole + tail)) && |t| == |sign| + |n.whole| + |tail|
    ensures IsNumber(t)
  {
    var start := |sign|;
    WordsSplit(t, 0, sign, n.whole + tail);
    WordsSplit(t, start, n.whole, tail);
    FirstOf(t, start, n.whole);
    assert IsDigit(n.whole[0]);
    if n.minus {
      FirstOf(t, 0, sign);
    }
    FractionStands(t, start + |n.whole|, n);
    DigitsStand(t, start, n.whole);
    WholeThenFraction(t, start, start + |n.whole|);
  }

  lemma WholeThenFraction(t: string, start: nat, whole: nat)
    requires start == (if |t| > 0 && t[0] == '-' then 1 else 0) && start < whole <= |t|
    requires DigitsEnd(t, start) == whole && (t[start] == '0' ==> whole == start + 1) && FractionOk(t, whole)
    ensures IsNumber(t)
  {
  }

  lemma NumeralChars(n: Numeral)
    requires GoodNumeral(n)
    ensures ShowNumeral(n) != "" && forall k :: 0 <= k < |ShowNumeral(n)| ==> IsNumberChar(ShowNumeral(n)[k])
  {
    assert forall k :: 0 <= k < |n.whole| ==> IsDigit(n.whole[k]);
    assert n.fraction.Some? ==> forall k :: 0 <= k < |n.fraction.value| ==> IsDigit(n.fraction.value[k]);
    assert n.exponent.Some? ==> forall k :: 0 <= k < |n.exponent.value.digits| ==> IsDigit(n.exponent.value.digits[k]);
    assert forall k :: 0 <= k < |ShowFraction(n.fraction)| ==> IsNumberChar(ShowFraction(n.fraction)[k]);
    assert forall k :: 0 <= k < |ShowExponent(n.exponent)| ==> IsNumberChar(ShowExponent(n.exponent)[k]);
  }

  lemma {:induction false} NumberRun(s: string, i: nat, n: nat)
    requires i <= n <= |s| && Delimited(s, n)
    requires forall k :: i <= k < n ==> IsNumberChar(s[k])
    ensures NumberEnd(s, i) == n
    decreases n - i
  {
    if i < n {
      NumberRun(s, i + 1, n);
    }
  }

  // ---- Where the parts of a text lie ----------------------------------------------------------------------

  function PiecesLength(ps: seq<Piece>): nat {
    if ps == [] then 1 else |ShowPiece(ps[0])| + PiecesLength(ps[1..])
  }

  /** How long the text of a tree is. */
  function Length(t: Text): nat
    decreases t, 1
  {
    match t
    case NullText => 4
    case TrueText => 4
    case FalseText => 5
    case NumberText(n) => |ShowNumeral(n)|
    case StringText(ps) => 1 + PiecesLength(ps)
    case ArrayText(gap, items) => if items == [] then |gap| + 2 else 1 + ItemsLength(items)
    case ObjectText(gap, entries) => if entries == [] then |gap| + 2 else 1 + EntriesLength(entries)
  }

  function SpacedLength(x: Spaced): nat
    decreases x, 0
  {
    |x.before| + Length(x.text) + |x.after|
  }

  function ItemsLength(items: seq<Spaced>): nat
    requires items != []
    decreases items, 0
  {
    SpacedLength(items[0]) + 1 + if |items| == 1 then 0 else ItemsLength(items[1..])
  }

  function EntryLength(e: Entry): nat
    decreases e, 0
  {
    SpacedLength(e.key) + 1 + SpacedLength(e.value)
  }

  function EntriesLength(entries: seq<Entry>): nat
    requires entries != []
    decreases entries, 0
  {
    EntryLength(entries[0]) + 1 + if |entries| == 1 then 0 else EntriesLength(entries[1..])
  }

  /** The rest of a string, after its opening quote, lies at position i. */
  predicate PiecesLie(s: string, i: nat, ps: seq<Piece>)
    decreases |ps|
  {
    if ps == [] then CharAt(s, i, '\"')
    else WordAt(s, i, ShowPiece(ps[0])) && PiecesLie(s, i + |ShowPiece(ps[0])|, ps[1..])
  }

  /** The text of a tree lies at position i, part by part. */
  ghost predicate Lies(s: string, i: nat, t: Text)
    decreases t, 1
  {
    match t
    case StringText(ps) => CharAt(s, i, '\"') && PiecesLie(s, i + 1, ps)
    case ArrayText(gap, items) =>
      CharAt(s, i, '[')
      && if items == [] then GapAt(s, i + 1, i + 1 + |gap|) && CharAt(s, i + 1 + |gap|, ']') else ItemsLie(s, i + 1, items)
    case ObjectText(gap, entries) =>
      CharAt(s, i, '{')
      && if entries == [] then GapAt(s, i + 1, i + 1 + |gap|) && CharAt(s, i + 1 + |gap|, '}') else EntriesLie(s, i + 1, entries)
    case _ => WordAt(s, i, Show(t)) && Delimited(s, i + |Show(t)|)
  }

  ghost predicate SpacedLies(s: string, i: nat, x: Spaced)
    decreases x, 0
  {
    var j := i + |x.before|;
    GapAt(s, i, j) && Lies(s, j, x.text) && GapAt(s, j + Length(x.text), j + Length(x.text) + |x.after|)
  }

  ghost predicate ItemsLie(s: string, i: nat, items: seq<Spaced>)
    requires items != []
    decreases items, 0
  {
    var j := i + SpacedLength(items[0]);
    SpacedLies(s, i, items[0])
    && if |items| == 1 then CharAt(s, j, ']') else CharAt(s, j, ',') && ItemsLie(s, j + 1, items[1..])
  }

  ghost predicate EntryLies(s: string, i: nat, e: Entry)
    decreases e, 0
  {
    var j := i + SpacedLength(e.key);
    SpacedLies(s, i, e.key) && CharAt(s, j, ':') && SpacedLies(s, j + 1, e.value)
  }

  ghost predicate EntriesLie(s: string, i: nat, entries: seq<Entry>)
    requires entries != []
    decreases entries, 0
  {
    var j := i + EntryLength(entries[0]);
    EntryLies(s, i, entries[0])
    && if |entries| == 1 then CharAt(s, j, '}') else CharAt(s, j, ',') && EntriesLie(s, j + 1, entries[1..])
  }

  // ---- A tree lies where its text stands --------------------------------------------------------------------

  lemma {:induction false} PiecesStand(s: string, i: nat, ps: seq<Piece>)
    requires WordAt(s, i, ShowPieces(ps))
    ensures PiecesLie(s, i, ps) && PiecesLength(ps) == |ShowPieces(ps)|
    decreases |ps|
  {
    if ps == [] {
      FirstOf(s, i, "\"");
    } else {
      WordsSplit(s, i, ShowPiece(ps[0]), ShowPieces(ps[1..]));
      PiecesStand(s, i + |ShowPiece(ps[0])|, ps[1..]);
    }
  }

  lemma EmptyStands(s: string, i: nat, gap: string, close: string)
    requires WordAt(s, i, gap + close) && IsGap(gap) && |close| == 1
    ensures GapAt(s, i, i + |gap|) && CharAt(s, i + |gap|, close[0])
  {
    WordsSplit(s, i, gap, close);
    GapStands(s, i, gap);
    FirstOf(s, i + |gap|, close);
  }

  lemma {:induction false} Stands(s: string, i: nat, t: Text)
    requires Good(t) && WordAt(s, i, Show(t)) && Delimited(s, i + |Show(t)|)
    ensures Lies(s, i, t) && Length(t) == |Show(t)|
    decreases t, 1
  {
    match t
    case StringText(ps) =>
      SplitFirst(s, i, "\"", ShowPieces(ps));
      PiecesStand(s, i + 1, ps);
    case ArrayText(gap, items) =>
      SplitFirst(s, i, "[", if items == [] then gap + "]" else ShowItems(items));
      if items == [] {
        EmptyStands(s, i + 1, gap, "]");
      } else {
        ItemsStand(s, i + 1, items);
      }
    case ObjectText(gap, entries) =>
      SplitFirst(s, i, "{", if entries == [] then gap + "}" else ShowEntries(entries));
      if entries == [] {
        EmptyStands(s, i + 1, gap, "}");
      } else {
        EntriesStand(s, i + 1, entries);
      }
    case _ =>
  }

  /** A value with white space around it, before the end or a character that ends numbers. */
  lemma {:induction false} SpacedStands(s: string, i: nat, x: Spaced)
    requires GoodSpaced(x) && WordAt(s, i, ShowSpaced(x)) && Delimited(s, i + |ShowSpaced(x)|)
    ensures SpacedLies(s, i, x) && SpacedLength(x) == |ShowSpaced(x)|
    decreases x, 0
  {
    var j := i + |x.before|;
    var k := j + |Show(x.text)|;
    WordsSplit(s, i, x.before, Show(x.text) + x.after);
    WordsSplit(s, j, Show(x.text), x.after);
    GapStands(s, i, x.before);
    GapStands(s, k, x.after);
    Stands(s, j, x.text);
  }

  lemma SplitAtEnd(s: string, i: nat, a: string, c: string, b: string)
    requires WordAt(s, i, a + (c + b)) && |c| == 1
    ensures WordAt(s, i, a) && CharAt(s, i + |a|, c[0]) && WordAt(s, i + |a| + 1, b)
  {
    WordsSplit(s, i, a, c + b);
    SplitFirst(s, i + |a|, c, b);
  }

  lemma FirstItem(s: string, i: nat, items: seq<Spaced>)
    requires items != [] && WordAt(s, i, ShowItems(items))
    ensures var n := |ShowSpaced(items[0])|;
      && WordAt(s, i, ShowSpaced(items[0]))
      && CharAt(s, i + n, if |items| == 1 then ']' else ',')
      && (|items| > 1 ==> WordAt(s, i + n + 1, ShowItems(items[1..])))
      && |ShowItems(items)| == n + 1 + if |items| == 1 then 0 else |ShowItems(items[1..])|
  {
    if |items| == 1 {
      assert "]" + "" == "]";
      SplitAtEnd(s, i, ShowSpaced(items[0]), "]", "");
    } else {
      SplitAtEnd(s, i, ShowSpaced(items[0]), ",", ShowItems(items[1..]));
    }
  }

  lemma {:induction false} ItemsStand(s: string, i: nat, items: seq<Spaced>)
    requires items != [] && GoodItems(items) && WordAt(s, i, ShowItems(items))
    ensures ItemsLie(s, i, items) && ItemsLength(items) == |ShowItems(items)|
    decreases items, 0
  {
    var j := i + |ShowSpaced(items[0])|;
    FirstItem(s, i, items);
    SpacedStands(s, i, items[0]);
    if |items| > 1 {
      ItemsStand(s, j + 1, items[1..]);
    }
    ItemsHere(s, i, items, j);
  }

  lemma ItemsHere(s: string, i: nat, items: seq<Spaced>, j: nat)
    requires items != [] && SpacedLies(s, i, items[0]) && j == i + SpacedLength(items[0])
    requires CharAt(s, j, if |items| == 1 then ']' else ',') && (|items| > 1 ==> ItemsLie(s, j + 1, items[1..]))
    ensures ItemsLie(s, i, items)
    ensures ItemsLength(items) == SpacedLength(items[0]) + 1 + if |items| == 1 then 0 else ItemsLength(items[1..])
  {
  }

  lemma KeyAndValue(s: string, i: nat, key: string, value: string)
    requires WordAt(s, i, key + (":" + value)) && Delimited(s, i + |key| + 1 + |value|)
    ensures WordAt(s, i, key) && CharAt(s, i + |key|, ':') && Delimited(s, i + |key|)
    ensures WordAt(s, i + |key| + 1, value) && Delimited(s, i + |key| + 1 + |value|)
  {
    SplitAtEnd(s, i, key, ":", value);
  }

  lemma {:induction false} EntryStands(s: string, i: nat, e: Entry)
    requires GoodEntry(e) && WordAt(s, i, ShowEntry(e)) && Delimited(s, i + |ShowEntry(e)|)
    ensures EntryLies(s, i, e) && EntryLength(e) == |ShowEntry(e)|
    decreases e, 0
  {
    var j := i + |ShowSpaced(e.key)|;
    KeyAndValue(s, i, ShowSpaced(e.key), ShowSpaced(e.value));
    SpacedStands(s, i, e.key);
    SpacedStands(s, j + 1, e.value);
    EntryHere(s, i, e, j);
  }

  lemma EntryHere(s: string, i: nat, e: Entry, j: nat)
    requires SpacedLies(s, i, e.key) && j == i + SpacedLength(e.key) && CharAt(s, j, ':') && SpacedLies(s, j + 1, e.value)
    ensures EntryLies(s, i, e) && EntryLength(e) == SpacedLength(e.key) + 1 + SpacedLength(e.value)
  {
  }

  lemma FirstEntry(s: string, i: nat, entries: seq<Entry>)
    requires entries != [] && WordAt(s, i, ShowEntries(entries))
    ensures var n := |ShowEntry(entries[0])|;
      && WordAt(s, i, ShowEntry(entries[0]))
      && CharAt(s, i + n, if |entries| == 1 then '}' else ',')
      && (|entries| > 1 ==> WordAt(s, i + n + 1, ShowEntries(entries[1..])))
      && |ShowEntries(entries)| == n + 1 + if |entries| == 1 then 0 else |ShowEntries(entries[1..])|
  {
    if |entries| == 1 {
      assert "}" + "" == "}";
      SplitAtEnd(s, i, ShowEntry(entries[0]), "}", "");
    } else {
      SplitAtEnd(s, i, ShowEntry(entries[0]), ",", ShowEntries(entries[1..]));
    }
  }

  lemma {:induction false} EntriesStand(s: string, i: nat, entries: seq<Entry>)
    requires entries != [] && GoodEntries(entries) && WordAt(s, i, ShowEntries(entries))
    ensures EntriesLie(s, i, entries) && EntriesLength(entries) == |ShowEntries(entries)|
    decreases entries, 0
  {
    var j := i + |ShowEntry(entries[0])|;
    FirstEntry(s, i, entries);
    EntryStands(s, i, entries[0]);
    if |entries| > 1 {
      EntriesStand(s, j + 1, entries[1..]);
    }
    EntriesHere(s, i, entries, j);
  }

  lemma EntriesHere(s: string, i: nat, entries: seq<Entry>, j: nat)
    requires entries != [] && EntryLies(s, i, entries[0]) && j == i + EntryLength(entries[0])
    requires CharAt(s, j, if |entries| == 1 then '}' else ',') && (|entries| > 1 ==> EntriesLie(s, j + 1, entries[1..]))
    ensures EntriesLie(s, i, entries)
    ensures EntriesLength(entries) == EntryLength(entries[0]) + 1 + if |entries| == 1 then 0 else EntriesLength(entries[1..])
  {
  }

  // ---- A tree that lies somewhere is read from there ----------------------------------------------------------

  lemma PieceBack(s: string, i: nat, p: Piece)
    requires GoodPiece(p) && WordAt(s, i, ShowPiece(p))
    ensures i < |s| && s[i] != '\"' && ReadUnit(s, i) == Some(Read(UnitOf(p), i + |ShowPiece(p)|))
  {
    var t := ShowPiece(p);
    FirstOf(s, i, t);
    if !p.Plain? {
      assert s[i + 1] == t[1];
    }
    if p.Coded? {
      assert s[i + 2] == t[2] && s[i + 3] == t[3] && s[i + 4] == t[4] && s[i + 5] == t[5];
    }
  }

  predicate ReadsString(s: string, i: nat, units: seq<int>, n: nat) {
    i <= |s| && ReadString(s, i) == Some(Read(units, n))
  }

  lemma StringCons(s: string, i: nat, j: nat, u: int, units: seq<int>, n: nat)
    requires i < |s| && s[i] != '\"'
    requires ReadUnit(s, i) == Some(Read(u, j)) && ReadsString(s, j, units, n)
    ensures ReadsString(s, i, [u] + units, n)
  {
  }

  lemma {:induction false} PiecesBack(s: string, i: nat, ps: seq<Piece>)
    requires GoodPieces(ps) && PiecesLie(s, i, ps)
    ensures ReadsString(s, i, UnitsOf(ps), i + PiecesLength(ps))
    decreases |ps|
  {
    if ps != [] {
      var j := i + |ShowPiece(ps[0])|;
      PieceBack(s, i, ps[0]);
      PiecesBack(s, j, ps[1..]);
      StringCons(s, i, j, UnitOf(ps[0]), UnitsOf(ps[1..]), i + PiecesLength(ps));
    }
  }

  predicate ReadsValue(s: string, i: nat, v: Value, n: nat) {
    Starts(s, i) && ReadValue(s, i) == Some(Read(v, n))
  }

  lemma WordBack(s: string, i: nat, t: Text)
    requires (t.NullText? || t.TrueText? || t.FalseText?) && Lies(s, i, t)
    ensures ReadsValue(s, i, Meaning(t), i + Length(t))
  {
    FirstOf(s, i, Show(t));
    FirstLetters(s, i);
  }

  lemma NumberHere(s: string, i: nat, n: nat)
    requires i < n <= |s| && NumberEnd(s, i) == n && IsNumberChar(s[i]) && IsNumber(s[i..n])
    ensures ReadsValue(s, i, Number(s[i..n]), n)
  {
    FirstLetters(s, i);
  }

  lemma NumberBack(s: string, i: nat, n: Numeral)
    requires GoodNumeral(n) && WordAt(s, i, ShowNumeral(n)) && Delimited(s, i + |ShowNumeral(n)|)
    ensures ReadsValue(s, i, Number(ShowNumeral(n)), i + |ShowNumeral(n)|)
  {
    var token := ShowNumeral(n);
    NumeralIsNumber(n);
    NumeralChars(n);
    forall k | i <= k < i + |token| ensures IsNumberChar(s[k]) {
      assert s[i + (k - i)] == token[k - i];
    }
    NumberRun(s, i, i + |token|);
    assert s[i..i + |token|] == token;
    NumberHere(s, i, i + |token|);
  }

  lemma StringHere(s: string, i: nat, units: seq<int>, n: nat)
    requires CharAt(s, i, '\"') && ReadsString(s, i + 1, units, n)
    ensures ReadsValue(s, i, String(units), n)
  {
  }

  lemma SeparatorBack(s: string, i: nat, j: nat, c: char, close: char)
    requires GapAt(s, i, j) && CharAt(s, j, c) && !IsSpace(c)
    ensures SkipSpace(s, i) == j
    ensures ReadSeparator(s, i, close)
         == if c == close then Close(j + 1) else if c == ',' then Comma(j + 1) else Neither
  {
    SkipsGap(s, i, j);
  }

  lemma {:induction false} TextBack(s: string, i: nat, t: Text, n: nat)
    requires Good(t) && Lies(s, i, t) && n == i + Length(t)
    ensures ReadsValue(s, i, Meaning(t), n)
    decreases t, 1
  {
    match t
    case NumberText(numeral) => NumberBack(s, i, numeral);
    case StringText(ps) =>
      PiecesBack(s, i + 1, ps);
      StringHere(s, i, UnitsOf(ps), n);
    case ArrayText(_, _) => ArrayBack(s, i, t, n);
    case ObjectText(_, _) => ObjectBack(s, i, t, n);
    case _ => WordBack(s, i, t);
  }

  lemma {:induction false} ArrayBack(s: string, i: nat, t: Text, n: nat)
    requires t.ArrayText? && Good(t) && Lies(s, i, t) && n == i + Length(t)
    ensures ReadsValue(s, i, Meaning(t), n)
    decreases t, 0
  {
    if t.items == [] {
      SeparatorBack(s, i + 1, i + 1 + |t.gap|, ']', ']');
    } else {
      ItemsBack(s, i + 1, t.items, n);
      ArrayHere(s, i, Meanings(t.items), n);
    }
  }

  /** From position i, white space aside, a value is read up to position n. */
  predicate ReadsSpaced(s: string, i: nat, v: Value, n: nat) {
    i <= |s| && Starts(s, SkipSpace(s, i)) && ReadValue(s, i) == Some(Read(v, n))
  }

  predicate ReadsItems(s: string, i: nat, vs: seq<Value>, n: nat) {
    i <= |s| && Starts(s, SkipSpace(s, i)) && ReadItems(s, i) == Some(Read(vs, n))
  }

  lemma ArrayHere(s: string, i: nat, vs: seq<Value>, n: nat)
    requires CharAt(s, i, '[') && ReadsItems(s, i + 1, vs, n)
    ensures ReadsValue(s, i, Array(vs), n)
  {
  }

  /** White space before a value makes no difference to it. */
  lemma ValueAfterGap(s: string, i: nat, j: nat, v: Value, n: nat)
    requires GapAt(s, i, j) && ReadsValue(s, j, v, n)
    ensures ReadsSpaced(s, i, v, n)
  {
    SkipsGap(s, i, j);
    assert SkipSpace(s, j) == j;
  }

  /** The value, and the white space after it. */
  lemma {:induction false} SpacedBack(s: string, i: nat, x: Spaced) returns (j: nat)
    requires GoodSpaced(x) && SpacedLies(s, i, x)
    ensures ReadsSpaced(s, i, Meaning(x.text), j) && GapAt(s, j, i + SpacedLength(x))
    decreases x, 0
  {
    var k := i + |x.before|;
    j := k + Length(x.text);
    TextBack(s, k, x.text, j);
    ValueAfterGap(s, i, k, Meaning(x.text), j);
  }

  lemma ItemsCons(s: string, i: nat, j: nat, k: nat, v: Value, vs: seq<Value>, n: nat)
    requires ReadsSpaced(s, i, v, j) && GapAt(s, j, k) && CharAt(s, k, ',') && ReadsItems(s, k + 1, vs, n)
    ensures ReadsItems(s, i, [v] + vs, n)
  {
    SeparatorBack(s, j, k, ',', ']');
  }

  lemma ItemsOne(s: string, i: nat, j: nat, k: nat, v: Value)
    requires ReadsSpaced(s, i, v, j) && GapAt(s, j, k) && CharAt(s, k, ']')
    ensures ReadsItems(s, i, [v], k + 1)
  {
    SeparatorBack(s, j, k, ']', ']');
  }

  lemma {:induction false} ItemsBack(s: string, i: nat, items: seq<Spaced>, n: nat)
    requires items != [] && GoodItems(items) && ItemsLie(s, i, items) && n == i + ItemsLength(items)
    ensures ReadsItems(s, i, Meanings(items), n)
    decreases items, 0
  {
    var x, k := items[0], i + SpacedLength(items[0]);
    var j := SpacedBack(s, i, x);
    if |items| == 1 {
      ItemsOne(s, i, j, k, Meaning(x.text));
      OneMeaning(items);
    } else {
      ItemsBack(s, k + 1, items[1..], n);
      ItemsCons(s, i, j, k, Meaning(x.text), Meanings(items[1..]), n);
    }
  }

  lemma OneMeaning(items: seq<Spaced>)
    requires |items| == 1
    ensures Meanings(items) == [Meaning(items[0].text)]
  {
    assert items[1..] == [];
  }

  lemma {:induction false} ObjectBack(s: string, i: nat, t: Text, n: nat)
    requires t.ObjectText? && Good(t) && Lies(s, i, t) && n == i + Length(t)
    ensures ReadsValue(s, i, Meaning(t), n)
    decreases t, 0
  {
    if t.entries == [] {
      SeparatorBack(s, i + 1, i + 1 + |t.gap|, '}', '}');
    } else {
      EntriesBack(s, i + 1, t.entries, n);
      ObjectHere(s, i, EntryMeanings(t.entries), n);
    }
  }

  predicate ReadsMember(s: string, i: nat, m: Member, n: nat) {
    i <= |s| && Starts(s, SkipSpace(s, i)) && ReadMember(s, i) == Some(Read(m, n))
  }

  predicate ReadsMembers(s: string, i: nat, ms: seq<Member>, n: nat) {
    i <= |s| && Starts(s, SkipSpace(s, i)) && ReadMembers(s, i) == Some(Read(ms, n))
  }

  predicate ReadsKey(s: string, i: nat, key: seq<int>, n: nat) {
    i <= |s| && Starts(s, SkipSpace(s, i)) && ReadKey(s, i) == Some(Read(key, n))
  }

  lemma ObjectHere(s: string, i: nat, ms: seq<Member>, n: nat)
    requires CharAt(s, i, '{') && ReadsMembers(s, i + 1, ms, n)
    ensures ReadsValue(s, i, Object(ms), n)
  {
  }

  lemma KeyHere(s: string, i: nat, q: nat, key: seq<int>, k: nat, n: nat)
    requires GapAt(s, i, q) && CharAt(s, q, '\"') && ReadsString(s, q + 1, key, k) && GapAt(s, k, n) && CharAt(s, n, ':')
    ensures ReadsKey(s, i, key, n + 1)
  {
    SkipsGap(s, i, q);
    SkipsGap(s, k, n);
  }

  lemma KeyBack(s: string, i: nat, key: Spaced)
    requires GoodSpaced(key) && key.text.StringText? && SpacedLies(s, i, key) && CharAt(s, i + SpacedLength(key), ':')
    ensures ReadsKey(s, i, UnitsOf(key.text.pieces), i + SpacedLength(key) + 1)
  {
    var q := i + |key.before|;
    PiecesBack(s, q + 1, key.text.pieces);
    KeyHere(s, i, q, UnitsOf(key.text.pieces), q + Length(key.text), i + SpacedLength(key));
  }

  lemma MemberHere(s: string, i: nat, key: seq<int>, k: nat, v: Value, n: nat)
    requires ReadsKey(s, i, key, k) && ReadsSpaced(s, k, v, n)
    ensures ReadsMember(s, i, Member(key, v), n)
  {
  }

  lemma {:induction false} EntryBack(s: string, i: nat, e: Entry) returns (j: nat)
    requires GoodEntry(e) && EntryLies(s, i, e)
    ensures ReadsMember(s, i, EntryMeaning(e), j) && GapAt(s, j, i + EntryLength(e))
    decreases e, 0
  {
    var k := i + SpacedLength(e.key) + 1;
    KeyBack(s, i, e.key);
    j := SpacedBack(s, k, e.value);
    MemberHere(s, i, UnitsOf(e.key.text.pieces), k, Meaning(e.value.text), j);
  }

  lemma MembersCons(s: string, i: nat, j: nat, k: nat, m: Member, ms: seq<Member>, n: nat)
    requires ReadsMember(s, i, m, j) && GapAt(s, j, k) && CharAt(s, k, ',') && ReadsMembers(s, k + 1, ms, n)
    ensures ReadsMembers(s, i, [m] + ms, n)
  {
    SeparatorBack(s, j, k, ',', '}');
  }

  lemma MembersOne(s: string, i: nat, j: nat, k: nat, m: Member)
    requires ReadsMember(s, i, m, j) && GapAt(s, j, k) && CharAt(s, k, '}')
    ensures ReadsMembers(s, i, [m], k + 1)
  {
    SeparatorBack(s, j, k, '}', '}');
  }

  lemma {:induction false} EntriesBack(s: string, i: nat, entries: seq<Entry>, n: nat)
    requires entries != [] && GoodEntries(entries) && EntriesLie(s, i, entries) && n == i + EntriesLength(entries)
    ensures ReadsMembers(s, i, EntryMeanings(entries), n)
    decreases entries, 0
  {
    var m, k := EntryMeaning(entries[0]), i + EntryLength(entries[0]);
    var j := EntryBack(s, i, entries[0]);
    if |entries| == 1 {
      MembersOne(s, i, j, k, m);
      assert EntryMeanings(entries) == [m];
    } else {
      EntriesBack(s, k + 1, entries[1..], n);
      MembersCons(s, i, j, k, m, EntryMeanings(entries[1..]), n);
    }
  }

  /** Every text of the grammar, with any white space between its tokens, parses to what it means. */
  lemma TextParses(x: Spaced)
    requires GoodSpaced(x)
    ensures Parse(ShowSpaced(x)) == Some(Meaning(x.text))
  {
    var s := ShowSpaced(x);
    SpacedStands(s, 0, x);
    var j := SpacedBack(s, 0, x);
    SkipsGap(s, j, |s|);
  }
}
