/** JSON texts (RFC 8259) as `JSON.parse` reads them: a value, or failure.
  *
  * The parser works on positions of one text. Numbers are read as the longest run of number characters
  * and kept as their token; strings are decoded to code units; object members keep their order, with
  * duplicates. A Dafny character stands for one code unit of the source's strings.
  */
module Json {
  import opened Options

  datatype Value = Null | Bool(b: bool) | Number(token: string) | String(units: seq<int>)
    | Array(items: seq<Value>) | Object(members: seq<Member>)

  datatype Member = Member(key: seq<int>, value: Value)

  /** The code units of a text. */
  function Units(s: string): (units: seq<int>)
    ensures |units| == |s|
  {
    seq(|s|, i requires 0 <= i < |s| => s[i] as int)
  }

  /** A result of reading, and the position after it. */
  datatype Read<+T> = Read(value: T, next: nat)

  // ---- Lexical parts ------------------------------------------------------------------------------

  predicate IsSpace(c: char) {
    c == ' ' || c == '\t' || c == '\n' || c == '\r'
  }

  function SkipSpace(s: string, i: nat): (j: nat)
    requires i <= |s|
    ensures i <= j <= |s|
    ensures j < |s| ==> !IsSpace(s[j])
    ensures forall k :: i <= k < j ==> IsSpace(s[k])
    decreases |s| - i
  {
    if i < |s| && IsSpace(s[i]) then SkipSpace(s, i + 1) else i
  }

  predicate IsDigit(c: char) {
    '0' <= c <= '9'
  }

  predicate IsNumberChar(c: char) {
    IsDigit(c) || c == '+' || c == '-' || c == '.' || c == 'e' || c == 'E'
  }

  function NumberEnd(s: string, i: nat): (j: nat)
    requires i <= |s|
    ensures i <= j <= |s|
    ensures j < |s| ==> !IsNumberChar(s[j])
    ensures forall k :: i <= k < j ==> IsNumberChar(s[k])
    decreases |s| - i
  {
    if i < |s| && IsNumberChar(s[i]) then NumberEnd(s, i + 1) else i
  }

  function DigitsEnd(s: string, i: nat): (j: nat)
    requires i <= |s|
    ensures i <= j <= |s|
    decreases |s| - i
  {
    if i < |s| && IsDigit(s[i]) then DigitsEnd(s, i + 1) else i
  }

  /** -? (0 | [1-9][0-9]*) (. [0-9]+)? ([eE] [+-]? [0-9]+)? */
  predicate IsNumber(t: string) {
    var start := if |t| > 0 && t[0] == '-' then 1 else 0;
    var whole := if start < |t| && t[start] == '0' then start + 1 else DigitsEnd(t, start);
    start < whole && FractionOk(t, whole)
  }

  predicate FractionOk(t: string, i: nat)
    requires i <= |t|
  {
    if i < |t| && t[i] == '.' then
      var j := DigitsEnd(t, i + 1);
      i + 1 < j && ExponentOk(t, j)
    else ExponentOk(t, i)
  }

  predicate ExponentOk(t: string, i: nat)
    requires i <= |t|
  {
    if i < |t| && (t[i] == 'e' || t[i] == 'E') then
      var j := if i + 1 < |t| && (t[i + 1] == '+' || t[i + 1] == '-') then i + 2 else i + 1;
      j < |t| && DigitsEnd(t, j) == |t|
    else i == |t|
  }

  function HexDigit(c: char): Option<int> {
    if '0' <= c <= '9' then Some(c as int - '0' as int)
    else if 'a' <= c <= 'f' then Some(c as int - 'a' as int + 10)
    else if 'A' <= c <= 'F' then Some(c as int - 'A' as int + 10)
    else None
  }

  function Hex4(s: string, i: nat): Option<int>
    requires i + 4 <= |s|
  {
    match (HexDigit(s[i]), HexDigit(s[i + 1]), HexDigit(s[i + 2]), HexDigit(s[i + 3]))
    case (Some(a), Some(b), Some(c), Some(d)) => Some(((a * 16 + b) * 16 + c) * 16 + d)
    case _ => None
  }

  function EscapedUnit(c: char): Option<int> {
    match c
    case '\"' => Some(34)
    case '\\' => Some(92)
    case '/' => Some(47)
    case 'b' => Some(8)
    case 'f' => Some(12)
    case 'n' => Some(10)
    case 'r' => Some(13)
    case 't' => Some(9)
    case _ => None
  }

  /** One unit of a string body and the position after it; None at the closing quote or on an error. */
  function ReadUnit(s: string, i: nat): (r: Option<Read<int>>)
    requires i < |s|
    ensures r.Some? ==> i < r.value.next <= |s|
  {
    if s[i] == '\"' || s[i] < ' ' then None
    else if s[i] != '\\' then Some(Read(s[i] as int, i + 1))
    else if i + 1 == |s| then None
    else if s[i + 1] == 'u' then
      if i + 6 <= |s| && Hex4(s, i + 2).Some? then Some(Read(Hex4(s, i + 2).value, i + 6)) else None
    else if EscapedUnit(s[i + 1]).Some? then Some(Read(EscapedUnit(s[i + 1]).value, i + 2))
    else None
  }

  /** The rest of a string after its opening quote. */
  function ReadString(s: string, i: nat): (r: Option<Read<seq<int>>>)
    requires i <= |s|
    ensures r.Some? ==> i < r.value.next <= |s| && |r.value.value| < r.value.next - i
    decreases |s| - i
  {
    if i == |s| then None
    else if s[i] == '\"' then Some(Read([], i + 1))
    else
      match ReadUnit(s, i)
      case None => None
      case Some(u) =>
        match ReadString(s, u.next)
        case None => None
        case Some(rest) => Some(Read([u.value] + rest.value, rest.next))
  }

  predicate WordAt(s: string, i: nat, word: string) {
    i + |word| <= |s| && forall k :: 0 <= k < |word| ==> s[i + k] == word[k]
  }

  /** What follows an item of an array or object: its closing bracket, a comma, or neither. */
  datatype Separator = Close(next: nat) | Comma(next: nat) | Neither

  function ReadSeparator(s: string, i: nat, close: char): (r: Separator)
    requires i <= |s|
    ensures !r.Neither? ==> i < r.next <= |s|
  {
    var k := SkipSpace(s, i);
    if k == |s| then Neither
    else if s[k] == close then Close(k + 1)
    else if s[k] == ',' then Comma(k + 1)
    else Neither
  }

  // ---- Values -------------------------------------------------------------------------------------

  function ReadValue(s: string, start: nat): (r: Option<Read<Value>>)
    requires start <= |s|
    ensures r.Some? ==> start < r.value.next <= |s|
    decreases |s| - start, 2
  {
    var i := SkipSpace(s, start);
    if i == |s| then None
    else if s[i] == '{' then ReadObject(s, i + 1)
    else if s[i] == '[' then ReadArray(s, i + 1)
    else ReadScalar(s, i)
  }

  /** The rest of an object after its brace. */
  function ReadObject(s: string, i: nat): (r: Option<Read<Value>>)
    requires i <= |s|
    ensures r.Some? ==> i < r.value.next <= |s| && r.value.value.Object?
    decreases |s| - i, 5
  {
    var empty := ReadSeparator(s, i, '}');
    if empty.Close? then Some(Read(Object([]), empty.next))
    else
      match ReadMembers(s, i)
      case None => None
      case Some(ms) => Some(Read(Object(ms.value), ms.next))
  }

  /** The rest of an array after its bracket. */
  function ReadArray(s: string, i: nat): (r: Option<Read<Value>>)
    requires i <= |s|
    ensures r.Some? ==> i < r.value.next <= |s| && r.value.value.Array?
    decreases |s| - i, 5
  {
    var empty := ReadSeparator(s, i, ']');
    if empty.Close? then Some(Read(Array([]), empty.next))
    else
      match ReadItems(s, i)
      case None => None
      case Some(vs) => Some(Read(Array(vs.value), vs.next))
  }

  function ReadScalar(s: string, i: nat): (r: Option<Read<Value>>)
    requires i < |s|
    ensures r.Some? ==> i < r.value.next <= |s| && !r.value.value.Object? && !r.value.value.Array?
  {
    if s[i] == '\"' then
      match ReadString(s, i + 1)
      case None => None
      case Some(str) => Some(Read(String(str.value), str.next))
    else if WordAt(s, i, "true") then Some(Read(Bool(true), i + 4))
    else if WordAt(s, i, "false") then Some(Read(Bool(false), i + 5))
    else if WordAt(s, i, "null") then Some(Read(Null, i + 4))
    else if IsNumber(s[i..NumberEnd(s, i)]) then Some(Read(Number(s[i..NumberEnd(s, i)]), NumberEnd(s, i)))
    else None
  }

  /** The items of a non-empty array, after its bracket or a comma. */
  function ReadItems(s: string, i: nat): (r: Option<Read<seq<Value>>>)
    requires i <= |s|
    ensures r.Some? ==> i < r.value.next <= |s| && r.value.value != []
    decreases |s| - i, 3
  {
    match ReadValue(s, i)
    case None => None
    case Some(v) =>
      match ReadSeparator(s, v.next, ']')
      case Neither => None
      case Close(next) => Some(Read([v.value], next))
      case Comma(next) =>
        match ReadItems(s, next)
        case None => None
        case Some(rest) => Some(Read([v.value] + rest.value, rest.next))
  }

  /** The key of a member and the position after its colon. */
  function ReadKey(s: string, start: nat): (r: Option<Read<seq<int>>>)
    requires start <= |s|
    ensures r.Some? ==> start < r.value.next <= |s|
  {
    var i := SkipSpace(s, start);
    if i == |s| || s[i] != '\"' then None
    else
      match ReadString(s, i + 1)
      case None => None
      case Some(key) =>
        var k := SkipSpace(s, key.next);
        if k < |s| && s[k] == ':' then Some(Read(key.value, k + 1)) else None
  }

  /** A key, a colon and a value. */
  function ReadMember(s: string, i: nat): (r: Option<Read<Member>>)
    requires i <= |s|
    ensures r.Some? ==> i < r.value.next <= |s|
    decreases |s| - i, 3
  {
    match ReadKey(s, i)
    case None => None
    case Some(key) =>
      match ReadValue(s, key.next)
      case None => None
      case Some(v) => Some(Read(Member(key.value, v.value), v.next))
  }

  /** The members of a non-empty object, after its brace or a comma. */
  function ReadMembers(s: string, i: nat): (r: Option<Read<seq<Member>>>)
    requires i <= |s|
    ensures r.Some? ==> i < r.value.next <= |s| && r.value.value != []
    decreases |s| - i, 4
  {
    match ReadMember(s, i)
    case None => None
    case Some(m) =>
      match ReadSeparator(s, m.next, '}')
      case Neither => None
      case Close(next) => Some(Read([m.value], next))
      case Comma(next) =>
        match ReadMembers(s, next)
        case None => None
        case Some(rest) => Some(Read([m.value] + rest.value, rest.next))
  }

  /** `JSON.parse`: one value with nothing but white space around it. */
  function Parse(s: string): Option<Value> {
    match ReadValue(s, 0)
    case None => None
    case Some(v) => if SkipSpace(s, v.next) == |s| then Some(v.value) else None
  }

  predicate IsContainer(v: Value) {
    v.Object? || v.Array?
  }

  // ---- Reading looks no further than the end of what it reads ----------------------------------------

  lemma {:induction false} SkipSpaceExtends(s: string, t: string, i: nat)
    requires s <= t && i <= |s| && SkipSpace(s, i) < |s|
    ensures SkipSpace(t, i) == SkipSpace(s, i)
    decreases |s| - i
  {
    if IsSpace(s[i]) {
      SkipSpaceExtends(s, t, i + 1);
    }
  }

  lemma SeparatorExtends(s: string, t: string, i: nat, close: char)
    requires s <= t && i <= |s| && SkipSpace(s, i) < |s|
    ensures ReadSeparator(t, i, close) == ReadSeparator(s, i, close)
  {
    SkipSpaceExtends(s, t, i);
  }

  lemma {:induction false} NumberEndExtends(s: string, t: string, i: nat)
    requires s <= t && i <= |s| && NumberEnd(s, i) < |s|
    ensures NumberEnd(t, i) == NumberEnd(s, i)
    decreases |s| - i
  {
    if IsNumberChar(s[i]) {
      NumberEndExtends(s, t, i + 1);
    }
  }

  lemma {:induction false} ReadStringExtends(s: string, t: string, i: nat)
    requires s <= t && i <= |s| && ReadString(s, i).Some?
    ensures ReadString(t, i) == ReadString(s, i)
    decreases |s| - i
  {
    if s[i] != '\"' {
      assert ReadUnit(t, i) == ReadUnit(s, i);
      ReadStringExtends(s, t, ReadUnit(s, i).value.next);
    }
  }

  lemma ReadKeyExtends(s: string, t: string, i: nat)
    requires s <= t && i <= |s| && ReadKey(s, i).Some?
    ensures ReadKey(t, i) == ReadKey(s, i)
  {
    SkipSpaceExtends(s, t, i);
    ReadStringExtends(s, t, SkipSpace(s, i) + 1);
    SkipSpaceExtends(s, t, ReadString(s, SkipSpace(s, i) + 1).value.next);
  }

  /** The end of the text does not cut the value short: something follows it, or it is no number. */
  predicate Ended(s: string, r: Read<Value>) {
    r.next < |s| || !r.value.Number?
  }

  lemma FirstLetters(t: string, i: nat)
    requires i < |t|
    ensures t[i] != 't' ==> !WordAt(t, i, "true")
    ensures t[i] != 'f' ==> !WordAt(t, i, "false")
    ensures t[i] != 'n' ==> !WordAt(t, i, "null")
  {
    assert "true"[0] == 't' && "false"[0] == 'f' && "null"[0] == 'n';
    assert t[i + 0] == t[i];
  }

  lemma ReadScalarExtends(s: string, t: string, i: nat)
    requires s <= t && i < |s| && ReadScalar(s, i).Some? && Ended(s, ReadScalar(s, i).value)
    ensures ReadScalar(t, i) == ReadScalar(s, i)
  {
    if s[i] == '\"' {
      ReadStringExtends(s, t, i + 1);
    } else if WordAt(s, i, "true") || WordAt(s, i, "false") || WordAt(s, i, "null") {
      FirstLetters(t, i);
      FirstLetters(s, i);
    } else {
      var j := NumberEnd(s, i);
      NumberEndExtends(s, t, i);
      assert s == t[..|s|] && t[..|s|][i..j] == t[i..j];
      assert i < j && IsNumberChar(s[i]);
      FirstLetters(t, i);
    }
  }

  lemma {:induction false} ReadValueExtends(s: string, t: string, start: nat)
    requires s <= t && start <= |s| && ReadValue(s, start).Some? && Ended(s, ReadValue(s, start).value)
    ensures ReadValue(t, start) == ReadValue(s, start)
    decreases |s| - start, 2
  {
    var i := SkipSpace(s, start);
    SkipSpaceExtends(s, t, start);
    if s[i] == '{' {
      ReadObjectExtends(s, t, i + 1);
    } else if s[i] == '[' {
      ReadArrayExtends(s, t, i + 1);
    } else {
      ReadScalarExtends(s, t, i);
    }
  }

  lemma {:induction false} ReadObjectExtends(s: string, t: string, i: nat)
    requires s <= t && i <= |s| && ReadObject(s, i).Some?
    ensures ReadObject(t, i) == ReadObject(s, i)
    decreases |s| - i, 5
  {
    if !ReadSeparator(s, i, '}').Close? {
      ReadMembersExtends(s, t, i);
    }
    SeparatorExtends(s, t, i, '}');
  }

  lemma {:induction false} ReadArrayExtends(s: string, t: string, i: nat)
    requires s <= t && i <= |s| && ReadArray(s, i).Some?
    ensures ReadArray(t, i) == ReadArray(s, i)
    decreases |s| - i, 5
  {
    if !ReadSeparator(s, i, ']').Close? {
      ReadItemsExtends(s, t, i);
    }
    SeparatorExtends(s, t, i, ']');
  }

  lemma {:induction false} ReadItemsExtends(s: string, t: string, i: nat)
    requires s <= t && i <= |s| && ReadItems(s, i).Some?
    ensures ReadItems(t, i) == ReadItems(s, i)
    ensures SkipSpace(s, i) < |s|
    decreases |s| - i, 3
  {
    var v := ReadValue(s, i).value;
    SeparatorExtends(s, t, v.next, ']');
    ReadValueExtends(s, t, i);
    if ReadSeparator(s, v.next, ']').Comma? {
      ReadItemsExtends(s, t, ReadSeparator(s, v.next, ']').next);
    }
  }

  lemma {:induction false} ReadMemberExtends(s: string, t: string, i: nat)
    requires s <= t && i <= |s| && ReadMember(s, i).Some?
    requires SkipSpace(s, ReadMember(s, i).value.next) < |s|
    ensures ReadMember(t, i) == ReadMember(s, i)
    ensures SkipSpace(s, i) < |s|
    decreases |s| - i, 3
  {
    ReadKeyExtends(s, t, i);
    ReadValueExtends(s, t, ReadKey(s, i).value.next);
  }

  lemma {:induction false} ReadMembersExtends(s: string, t: string, i: nat)
    requires s <= t && i <= |s| && ReadMembers(s, i).Some?
    ensures ReadMembers(t, i) == ReadMembers(s, i)
    ensures SkipSpace(s, i) < |s|
    decreases |s| - i, 4
  {
    var m := ReadMember(s, i).value;
    SeparatorExtends(s, t, m.next, '}');
    ReadMemberExtends(s, t, i);
    if ReadSeparator(s, m.next, '}').Comma? {
      ReadMembersExtends(s, t, ReadSeparator(s, m.next, '}').next);
    }
  }

  // ---- No proper prefix of an object or array text parses -----------------------------------------------

  lemma ContainerByFirstChar(s: string)
    requires Parse(s).Some?
    ensures SkipSpace(s, 0) < |s|
    ensures IsContainer(Parse(s).value) <==> s[SkipSpace(s, 0)] == '{' || s[SkipSpace(s, 0)] == '['
  {
  }

  /** If p and t both parse, p is a prefix of t, and t holds an object or array and does not end in
    * white space, then p is all of t. */
  lemma NoProperPrefixParses(p: string, t: string)
    requires p <= t && Parse(p).Some? && Parse(t).Some? && IsContainer(Parse(t).value)
    requires |t| > 0 && !IsSpace(t[|t| - 1])
    ensures p == t
  {
    ContainerByFirstChar(p);
    ContainerByFirstChar(t);
    SkipSpaceExtends(p, t, 0);
    ReadValueExtends(p, t, 0);
    var next := ReadValue(p, 0).value.next;
    assert SkipSpace(t, next) == |t|;
  }
}
