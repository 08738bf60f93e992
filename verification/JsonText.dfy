/** JSON texts as `JSON.stringify` writes them, and the proof that `JSON.parse` reads them back. */
module JsonText {
  import opened Options
  import opened Json
  import opened JsonAccepting
  import opened JsonGrammar
  import opened JsonReading

  // ---- Writing ------------------------------------------------------------------------------------------

  predicate IsSurrogate(u: int) {
    0xD800 <= u < 0xE000
  }

  function HexChar(d: int): char
    requires 0 <= d < 16
  {
    if d < 10 then (d + '0' as int) as char else (d - 10 + 'a' as int) as char
  }

  function Hex(u: int): string
    requires 0 <= u < 0x10000
  {
    [HexChar(u / 16 / 16 / 16), HexChar(u / 16 / 16 % 16), HexChar(u / 16 % 16), HexChar(u % 16)]
  }

  /** One code unit in a string. Every surrogate is written as an escape. */
  function Escape(u: int): string
    requires 0 <= u < 0x10000
  {
    if u == 34 then "\\\""
    else if u == 92 then "\\\\"
    else if u == 8 then "\\b"
    else if u == 12 then "\\f"
    else if u == 10 then "\\n"
    else if u == 13 then "\\r"
    else if u == 9 then "\\t"
    else if u < 32 || IsSurrogate(u) then "\\u" + Hex(u)
    else [u as char]
  }

  ghost predicate AreUnits(units: seq<int>) {
    forall k :: 0 <= k < |units| ==> 0 <= units[k] < 0x10000
  }

  /** A string after its opening quote. */
  function Body(units: seq<int>): string
    requires AreUnits(units)
  {
    if units == [] then "\"" else Escape(units[0]) + Body(units[1..])
  }

  function Quote(units: seq<int>): string
    requires AreUnits(units)
  {
    "\"" + Body(units)
  }

  /** Every number is a number token, and every string a sequence of code units. */
  ghost predicate Writable(v: Value) {
    match v
    case Null => true
    case Bool(_) => true
    case Number(token) => IsNumber(token) && forall k :: 0 <= k < |token| ==> IsNumberChar(token[k])
    case String(units) => AreUnits(units)
    case Array(items) => AllWritable(items)
    case Object(members) => MembersWritable(members)
  }

  ghost predicate AllWritable(items: seq<Value>) {
    items == [] || (Writable(items[0]) && AllWritable(items[1..]))
  }

  ghost predicate MembersWritable(members: seq<Member>) {
    members == [] || (AreUnits(members[0].key) && Writable(members[0].value) && MembersWritable(members[1..]))
  }

  function Stringify(v: Value): string
    requires Writable(v)
    decreases v, 1
  {
    match v
    case Null => "null"
    case Bool(b) => if b then "true" else "false"
    case Number(token) => token
    case String(units) => Quote(units)
    case Array(items) => if items == [] then "[]" else "[" + Items(items)
    case Object(members) => if members == [] then "{}" else "{" + Members(members)
  }

  /** The items of an array up to its closing bracket. */
  function Items(items: seq<Value>): string
    requires items != [] && AllWritable(items)
    decreases items, 0
  {
    Stringify(items[0]) + if |items| == 1 then "]" else "," + Items(items[1..])
  }

  function Pair(m: Member): string
    requires AreUnits(m.key) && Writable(m.value)
    decreases m, 0
  {
    Quote(m.key) + (":" + Stringify(m.value))
  }

  /** The members of an object up to its closing brace. */
  function Members(members: seq<Member>): string
    requires members != [] && MembersWritable(members)
    decreases members, 0
  {
    Pair(members[0]) + if |members| == 1 then "}" else "," + Members(members[1..])
  }

  // ---- What is written is a text of the grammar ---------------------------------------------------------------

  /** How a code unit is written: the letter escapes first, then digits for what is not printed, in lower case. */
  ghost predicate PlainestPiece(p: Piece) {
    match p
    case Plain(c) => !IsSurrogate(c as int)
    case Short(l) => l != '/'
    case Coded(a, b, c, d) =>
      && UnitOf(p) !in {8, 9, 10, 12, 13} && (UnitOf(p) < 32 || IsSurrogate(UnitOf(p)))
      && !('A' <= a <= 'F') && !('A' <= b <= 'F') && !('A' <= c <= 'F') && !('A' <= d <= 'F')
  }

  ghost predicate PlainestPieces(ps: seq<Piece>) {
    forall k :: 0 <= k < |ps| ==> PlainestPiece(ps[k])
  }

  /** No white space, and every string written the plainest way. */
  ghost predicate Compact(t: Text)
    decreases t, 1
  {
    match t
    case StringText(ps) => PlainestPieces(ps)
    case ArrayText(gap, items) => gap == "" && CompactItems(items)
    case ObjectText(gap, entries) => gap == "" && CompactEntries(entries)
    case _ => true
  }

  ghost predicate CompactSpaced(x: Spaced)
    decreases x, 0
  {
    x.before == x.after == "" && Compact(x.text)
  }

  ghost predicate CompactItems(items: seq<Spaced>)
    decreases items, 0
  {
    items == [] || (CompactSpaced(items[0]) && CompactItems(items[1..]))
  }

  ghost predicate CompactEntry(e: Entry)
    decreases e, 0
  {
    CompactSpaced(e.key) && CompactSpaced(e.value)
  }

  ghost predicate CompactEntries(entries: seq<Entry>)
    decreases entries, 0
  {
    entries == [] || (CompactEntry(entries[0]) && CompactEntries(entries[1..]))
  }

  /** The tree spells this text, means this value, and is compact. */
  ghost predicate Spells(t: Text, s: string, v: Value) {
    Good(t) && Compact(t) && Show(t) == s && Meaning(t) == v
  }

  lemma HexBack(u: int)
    requires 0 <= u < 0x10000
    ensures var p := Coded(Hex(u)[0], Hex(u)[1], Hex(u)[2], Hex(u)[3]); GoodPiece(p) && UnitOf(p) == u
    ensures forall k :: 0 <= k < 4 ==> !('A' <= Hex(u)[k] <= 'F')
  {
    var p := u / 16;
    var q := p / 16;
    assert u == 16 * p + u % 16 && p == 16 * q + p % 16 && q == 16 * (q / 16) + q % 16;
    assert 0 <= q / 16 < 16;
  }

  lemma UnitPiece(u: int) returns (p: Piece)
    requires 0 <= u < 0x10000
    ensures GoodPiece(p) && PlainestPiece(p) && UnitOf(p) == u && ShowPiece(p) == Escape(u)
  {
    if u == 34 || u == 92 || u == 8 || u == 12 || u == 10 || u == 13 || u == 9 {
      p := Short(Escape(u)[1]);
    } else if u < 32 || IsSurrogate(u) {
      HexBack(u);
      p := Coded(Hex(u)[0], Hex(u)[1], Hex(u)[2], Hex(u)[3]);
    } else {
      p := Plain(u as char);
    }
  }

  lemma {:induction false} BodyPieces(units: seq<int>) returns (ps: seq<Piece>)
    requires AreUnits(units)
    ensures GoodPieces(ps) && PlainestPieces(ps) && UnitsOf(ps) == units && ShowPieces(ps) == Body(units)
    decreases |units|
  {
    if units == [] {
      ps := [];
    } else {
      var p := UnitPiece(units[0]);
      var rest := BodyPieces(units[1..]);
      ps := [p] + rest;
      assert ps[1..] == rest && units == [units[0]] + units[1..];
    }
  }

  lemma {:induction false} TreeOf(v: Value) returns (t: Text)
    requires Writable(v)
    ensures Spells(t, Stringify(v), v)
    decreases v, 1
  {
    match v
    case Null => t := NullText;
    case Bool(b) => t := if b then TrueText else FalseText;
    case Number(token) =>
      var n := FindNumeral(token);
      t := NumberText(n);
    case String(units) =>
      var ps := BodyPieces(units);
      t := StringText(ps);
    case Array(items) =>
      var trees := ItemTrees(items);
      t := ArrayText("", trees);
    case Object(members) =>
      var entries := MemberTrees(members);
      t := ObjectText("", entries);
  }

  lemma {:induction false} ItemTrees(items: seq<Value>) returns (trees: seq<Spaced>)
    requires AllWritable(items)
    ensures |trees| == |items| && GoodItems(trees) && CompactItems(trees) && Meanings(trees) == items
    ensures items != [] ==> ShowItems(trees) == Items(items)
    decreases items, 0
  {
    if items == [] {
      trees := [];
    } else {
      var t := TreeOf(items[0]);
      var rest := ItemTrees(items[1..]);
      trees := [Spaced("", t, "")] + rest;
      assert trees[1..] == rest && items == [items[0]] + items[1..];
      Unspaced(t);
    }
  }

  lemma Unspaced(t: Text)
    ensures ShowSpaced(Spaced("", t, "")) == Show(t)
  {
  }

  lemma {:induction false} MemberTree(m: Member) returns (e: Entry)
    requires AreUnits(m.key) && Writable(m.value)
    ensures GoodEntry(e) && CompactEntry(e) && EntryMeaning(e) == m && ShowEntry(e) == Pair(m)
    decreases m, 0
  {
    var ps := BodyPieces(m.key);
    var t := TreeOf(m.value);
    e := Entry(Spaced("", StringText(ps), ""), Spaced("", t, ""));
    Unspaced(StringText(ps));
    Unspaced(t);
  }

  lemma {:induction false} MemberTrees(members: seq<Member>) returns (entries: seq<Entry>)
    requires MembersWritable(members)
    ensures |entries| == |members| && GoodEntries(entries) && CompactEntries(entries) && EntryMeanings(entries) == members
    ensures members != [] ==> ShowEntries(entries) == Members(members)
    decreases members, 0
  {
    if members == [] {
      entries := [];
    } else {
      var e := MemberTree(members[0]);
      var rest := MemberTrees(members[1..]);
      entries := [e] + rest;
      assert entries[1..] == rest && members == [members[0]] + members[1..];
    }
  }

  /** What is written is a compact text of the grammar that means the value. */
  lemma StringifyIsCompact(v: Value)
    requires Writable(v)
    ensures exists t :: Spells(t, Stringify(v), v)
  {
    var t := TreeOf(v);
  }

  /** So every value that can be written is read back from its text. */
  lemma ParseStringify(v: Value)
    requires Writable(v)
    ensures Parse(Stringify(v)) == Some(v)
  {
    var t := TreeOf(v);
    Unspaced(t);
    TextParses(Spaced("", t, ""));
  }

  // ---- The text is one line -------------------------------------------------------------------------------

  /** No control characters, so no line break. */
  ghost predicate Printable(s: string) {
    forall k :: 0 <= k < |s| ==> s[k] >= ' '
  }

  lemma EscapePrintable(u: int)
    requires 0 <= u < 0x10000
    ensures Printable(Escape(u))
  {
    assert Printable(Hex(u));
  }

  lemma {:induction false} BodyPrintable(units: seq<int>)
    requires AreUnits(units)
    ensures Printable(Body(units))
    decreases |units|
  {
    if units != [] {
      EscapePrintable(units[0]);
      BodyPrintable(units[1..]);
    }
  }

  lemma {:induction false} StringifyPrintable(v: Value)
    requires Writable(v)
    ensures Printable(Stringify(v))
    decreases v, 1
  {
    match v
    case Number(token) =>
      forall k | 0 <= k < |token| ensures token[k] >= ' ' {
        assert IsNumberChar(token[k]);
      }
    case String(units) => BodyPrintable(units);
    case Array(items) => if items != [] { ItemsPrintable(items); }
    case Object(members) => if members != [] { MembersPrintable(members); }
    case _ =>
  }

  lemma {:induction false} ItemsPrintable(items: seq<Value>)
    requires items != [] && AllWritable(items)
    ensures Printable(Items(items))
    decreases items, 0
  {
    StringifyPrintable(items[0]);
    if |items| > 1 {
      ItemsPrintable(items[1..]);
    }
  }

  lemma {:induction false} MembersPrintable(members: seq<Member>)
    requires members != [] && MembersWritable(members)
    ensures Printable(Members(members))
    decreases members, 0
  {
    BodyPrintable(members[0].key);
    StringifyPrintable(members[0].value);
    if |members| > 1 {
      MembersPrintable(members[1..]);
    }
  }
}
