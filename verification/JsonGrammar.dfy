/** The grammar of JSON texts (RFC 8259), as syntax trees that spell a text and mean a value. `JsonReading` and
  * `JsonAccepting` prove that the parser accepts exactly these texts and reads from each what its tree means.
  */
module JsonGrammar {
  import opened Options
  import opened Json

  // ---- Syntax trees ---------------------------------------------------------------------------------------

  /** White space: spaces, tabs, line feeds and carriage returns. */
  ghost predicate IsGap(g: string) {
    forall k :: 0 <= k < |g| ==> g[k] == ' ' || g[k] == '\t' || g[k] == '\n' || g[k] == '\r'
  }

  /** One code unit of a string: as it is, as a backslash and a letter, or as four hexadecimal digits. */
  datatype Piece = Plain(c: char) | Short(letter: char) | Coded(a: char, b: char, c: char, d: char)

  predicate IsHexDigit(c: char) {
    '0' <= c <= '9' || 'a' <= c <= 'f' || 'A' <= c <= 'F'
  }

  predicate GoodPiece(p: Piece) {
    match p
    case Plain(c) => c as int >= 0x20 && c != '\"' && c != '\\'
    case Short(l) => l == '\"' || l == '\\' || l == '/' || l == 'b' || l == 'f' || l == 'n' || l == 'r' || l == 't'
    case Coded(a, b, c, d) => IsHexDigit(a) && IsHexDigit(b) && IsHexDigit(c) && IsHexDigit(d)
  }

  function HexValue(c: char): int {
    if c <= '9' then c as int - '0' as int else if c <= 'F' then c as int - 'A' as int + 10 else c as int - 'a' as int + 10
  }

  function UnitOf(p: Piece): int {
    match p
    case Plain(c) => c as int
    case Short(l) =>
      if l == 'b' then 8 else if l == 't' then 9 else if l == 'n' then 10
      else if l == 'f' then 12 else if l == 'r' then 13 else l as int
    case Coded(a, b, c, d) => 4096 * HexValue(a) + 256 * HexValue(b) + 16 * HexValue(c) + HexValue(d)
  }

  function ShowPiece(p: Piece): (s: string)
    ensures s != ""
  {
    match p
    case Plain(c) => [c]
    case Short(l) => ['\\', l]
    case Coded(a, b, c, d) => ['\\', 'u', a, b, c, d]
  }

  ghost predicate GoodPieces(ps: seq<Piece>) {
    forall k :: 0 <= k < |ps| ==> GoodPiece(ps[k])
  }

  function UnitsOf(ps: seq<Piece>): seq<int> {
    if ps == [] then [] else [UnitOf(ps[0])] + UnitsOf(ps[1..])
  }

  /** A string after its opening quote. */
  function ShowPieces(ps: seq<Piece>): string {
    if ps == [] then "\"" else ShowPiece(ps[0]) + ShowPieces(ps[1..])
  }

  datatype Exponent = Exponent(letter: char, sign: string, digits: string)

  datatype Numeral = Numeral(minus: bool, whole: string, fraction: Option<string>, exponent: Option<Exponent>)

  ghost predicate AreDigits(t: string) {
    forall k :: 0 <= k < |t| ==> '0' <= t[k] <= '9'
  }

  ghost predicate GoodExponent(e: Option<Exponent>) {
    e.Some? ==>
      && (e.value.letter == 'e' || e.value.letter == 'E')
      && (e.value.sign == "" || e.value.sign == "+" || e.value.sign == "-")
      && e.value.digits != "" && AreDigits(e.value.digits)
  }

  ghost predicate GoodNumeral(n: Numeral) {
    && n.whole != "" && AreDigits(n.whole) && (n.whole[0] == '0' ==> n.whole == "0")
    && (n.fraction.Some? ==> n.fraction.value != "" && AreDigits(n.fraction.value))
    && GoodExponent(n.exponent)
  }

  function ShowExponent(e: Option<Exponent>): string {
    if e.None? then "" else [e.value.letter] + e.value.sign + e.value.digits
  }

  function ShowFraction(f: Option<string>): string {
    if f.None? then "" else "." + f.value
  }

  function ShowNumeral(n: Numeral): string {
    (if n.minus then "-" else "") + (n.whole + (ShowFraction(n.fraction) + ShowExponent(n.exponent)))
  }

  datatype Text = NullText | TrueText | FalseText | NumberText(numeral: Numeral) | StringText(pieces: seq<Piece>)
    | ArrayText(gap: string, items: seq<Spaced>) | ObjectText(gap: string, entries: seq<Entry>)

  /** A value with white space before and after it. */
  datatype Spaced = Spaced(before: string, text: Text, after: string)

  datatype Entry = Entry(key: Spaced, value: Spaced)

  function Show(t: Text): (s: string)
    ensures s != "" || t.NumberText?
    decreases t, 1
  {
    match t
    case NullText => "null"
    case TrueText => "true"
    case FalseText => "false"
    case NumberText(n) => ShowNumeral(n)
    case StringText(ps) => "\"" + ShowPieces(ps)
    case ArrayText(gap, items) => "[" + if items == [] then gap + "]" else ShowItems(items)
    case ObjectText(gap, entries) => "{" + if entries == [] then gap + "}" else ShowEntries(entries)
  }

  function ShowSpaced(x: Spaced): string
    decreases x, 0
  {
    x.before + (Show(x.text) + x.after)
  }

  /** The items of an array up to its closing bracket. */
  function ShowItems(items: seq<Spaced>): string
    requires items != []
    decreases items, 0
  {
    ShowSpaced(items[0]) + if |items| == 1 then "]" else "," + ShowItems(items[1..])
  }

  function ShowEntry(e: Entry): string
    decreases e, 0
  {
    ShowSpaced(e.key) + (":" + ShowSpaced(e.value))
  }

  /** The members of an object up to its closing brace. */
  function ShowEntries(entries: seq<Entry>): string
    requires entries != []
    decreases entries, 0
  {
    ShowEntry(entries[0]) + if |entries| == 1 then "}" else "," + ShowEntries(entries[1..])
  }

  ghost predicate Good(t: Text)
    decreases t, 1
  {
    match t
    case NumberText(n) => GoodNumeral(n)
    case StringText(ps) => GoodPieces(ps)
    case ArrayText(gap, items) => IsGap(gap) && GoodItems(items)
    case ObjectText(gap, entries) => IsGap(gap) && GoodEntries(entries)
    case _ => true
  }

  ghost predicate GoodSpaced(x: Spaced)
    decreases x, 0
  {
    IsGap(x.before) && Good(x.text) && IsGap(x.after)
  }

  ghost predicate GoodItems(items: seq<Spaced>)
    decreases items, 0
  {
    items == [] || (GoodSpaced(items[0]) && GoodItems(items[1..]))
  }

  ghost predicate GoodEntry(e: Entry)
    decreases e, 0
  {
    GoodSpaced(e.key) && e.key.text.StringText? && GoodSpaced(e.value)
  }

  ghost predicate GoodEntries(entries: seq<Entry>)
    decreases entries, 0
  {
    entries == [] || (GoodEntry(entries[0]) && GoodEntries(entries[1..]))
  }

  /** The value a tree means. */
  function Meaning(t: Text): Value
    decreases t, 1
  {
    match t
    case NullText => Null
    case TrueText => Bool(true)
    case FalseText => Bool(false)
    case NumberText(n) => Number(ShowNumeral(n))
    case StringText(ps) => String(UnitsOf(ps))
    case ArrayText(_, items) => Array(Meanings(items))
    case ObjectText(_, entries) => Object(EntryMeanings(entries))
  }

  function Meanings(items: seq<Spaced>): seq<Value>
    decreases items, 0
  {
    if items == [] then [] else [Meaning(items[0].text)] + Meanings(items[1..])
  }

  function EntryMeanings(entries: seq<Entry>): seq<Member>
    decreases entries, 0
  {
    if entries == [] then [] else [EntryMeaning(entries[0])] + EntryMeanings(entries[1..])
  }

  function EntryMeaning(e: Entry): Member
    decreases e, 0
  {
    Member(if e.key.text.StringText? then UnitsOf(e.key.text.pieces) else [], Meaning(e.value.text))
  }
}
