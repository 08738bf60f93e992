/** `String.prototype.trim`. */
module Trimming {
  /** The characters `String.prototype.trim` removes. */
  predicate IsTrimmed(c: char) {
    IsTrimmedUnit(c as int)
  }

  predicate IsTrimmedUnit(u: int) {
    9 <= u <= 13 || u == 32 || u == 0xA0 || u == 0x1680 || 0x2000 <= u <= 0x200A
    || u == 0x2028 || u == 0x2029 || u == 0x202F || u == 0x205F || u == 0x3000 || u == 0xFEFF
  }

  function TrimLeft(s: string): string {
    if s != "" && IsTrimmed(s[0]) then TrimLeft(s[1..]) else s
  }

  function TrimRight(s: string): (r: string)
    ensures r <= s
    ensures r != "" ==> !IsTrimmed(r[|r| - 1])
  {
    if s != "" && IsTrimmed(s[|s| - 1]) then TrimRight(s[..|s| - 1]) else s
  }

  function Trim(s: string): string {
    TrimRight(TrimLeft(s))
  }

  // ---- Trimming a prefix gives a prefix of the trimmed text -------------------------------------------

  lemma {:induction false} TrimRightPrefix(x: string, y: string)
    ensures TrimRight(x) <= TrimRight(x + y)
    decreases |y|
  {
    if y == "" {
      assert x + y == x;
    } else {
      var n := |y| - 1;
      assert (x + y)[..|x + y| - 1] == x + y[..n];
      TrimRightPrefix(x, y[..n]);
    }
  }

  lemma {:induction false} TrimLeftPrefix(p: string, y: string)
    requires TrimLeft(p) != ""
    ensures TrimLeft(p + y) == TrimLeft(p) + y
  {
    assert (p + y)[0] == p[0];
    if IsTrimmed(p[0]) {
      assert (p + y)[1..] == p[1..] + y;
      TrimLeftPrefix(p[1..], y);
    }
  }

  lemma {:induction false} TrimLeftLength(s: string)
    ensures |TrimLeft(s)| <= |s|
    ensures TrimLeft(s) != "" ==> !IsTrimmed(TrimLeft(s)[0])
  {
    if s != "" && IsTrimmed(s[0]) {
      TrimLeftLength(s[1..]);
    }
  }

  lemma TrimFacts(p: string)
    ensures |Trim(p)| <= |p|
    ensures Trim(p) != "" ==> !IsTrimmed(Trim(p)[0]) && !IsTrimmed(Trim(p)[|Trim(p)| - 1])
  {
    TrimLeftLength(p);
  }

  lemma TrimPrefix(p: string, text: string)
    requires p <= text && Trim(p) != ""
    ensures Trim(p) <= Trim(text)
  {
    var y := text[|p|..];
    assert text == p + y;
    TrimLeftPrefix(p, y);
    TrimRightPrefix(TrimLeft(p), y);
  }

  lemma TrimLeavesRest(s: string)
    requires s != "" && !IsTrimmed(s[0]) && !IsTrimmed(s[|s| - 1])
    ensures Trim(s) == s
  {
  }

  // ---- What is trimmed off, and nothing else ------------------------------------------------------------

  /** White space and line terminators of ECMAScript: tab, line feed, vertical tab, form feed, carriage return,
    * space, no-break space, the space separators, line and paragraph separator, and the byte order mark. */
  predicate IsWhite(c: char) {
    var u := c as int;
    u in {0x09, 0x0A, 0x0B, 0x0C, 0x0D, 0x20, 0xA0, 0x1680, 0x2028, 0x2029, 0x202F, 0x205F, 0x3000, 0xFEFF} || 0x2000 <= u < 0x200B
  }

  ghost predicate AllWhite(s: string) {
    forall k :: 0 <= k < |s| ==> IsWhite(s[k])
  }

  ghost predicate Bare(s: string) {
    s != "" ==> !IsWhite(s[0]) && !IsWhite(s[|s| - 1])
  }

  lemma {:induction false} StripsLeft(a: string, rest: string)
    requires AllWhite(a) && (rest != "" ==> !IsWhite(rest[0]))
    ensures TrimLeft(a + rest) == rest
  {
    if a == "" {
      assert a + rest == rest;
    } else {
      assert (a + rest)[1..] == a[1..] + rest;
      StripsLeft(a[1..], rest);
    }
  }

  lemma {:induction false} StripsRight(front: string, b: string)
    requires AllWhite(b) && (front != "" ==> !IsWhite(front[|front| - 1]))
    ensures TrimRight(front + b) == front
  {
    if b == "" {
      assert front + b == front;
    } else {
      var n := |b| - 1;
      assert (front + b)[..|front + b| - 1] == front + b[..n];
      StripsRight(front, b[..n]);
    }
  }

  /** Trimming takes off just the white space on both sides. */
  lemma TrimStrips(a: string, s: string, b: string)
    requires AllWhite(a) && AllWhite(b) && Bare(s)
    ensures Trim(a + s + b) == s
  {
    if s == "" {
      assert a + s + b == (a + b) + "";
      StripsLeft(a + b, "");
    } else {
      assert a + s + b == a + (s + b);
      StripsLeft(a, s + b);
      StripsRight(s, b);
    }
  }
}
