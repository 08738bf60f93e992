/** `split("\\n")` and `join("\\n")`, and files of terminated lines. */
module TextLines {

  /** Splitting on newlines; always at least one part. */
  function Split(s: string): (parts: seq<string>)
    ensures parts != []
  {
    if s == "" then [""]
    else
      Lead(s[0], Split(s[1..]))
  }

  /** The parts once one more character leads the text. */
  function Lead(c: char, parts: seq<string>): (r: seq<string>)
    requires parts != []
    ensures r != []
  {
    if c == '\n' then [""] + parts else [[c] + parts[0]] + parts[1..]
  }

  function Join(parts: seq<string>): string
    requires parts != []
  {
    if |parts| == 1 then parts[0] else parts[0] + "\n" + Join(parts[1..])
  }

  /** More text continues the last part. */
  lemma {:induction false} SplitContinues(a: string, b: string)
    ensures var parts := Split(a); var n := |parts| - 1; Split(a + b) == parts[..n] + Split(parts[n] + b)
  {
    if a == "" {
      assert a + b == b && "" + b == b;
    } else {
      SplitContinues(a[1..], b);
      SplitLonger(a[0], a[1..], b);
      assert a == [a[0]] + a[1..];
    }
  }

  lemma SplitLonger(c: char, rest: string, b: string)
    requires var parts := Split(rest); var n := |parts| - 1; Split(rest + b) == parts[..n] + Split(parts[n] + b)
    ensures var parts := Split([c] + rest); var n := |parts| - 1; Split([c] + rest + b) == parts[..n] + Split(parts[n] + b)
  {
    SplitStep(c, rest);
    SplitStep(c, rest + b);
    assert [c] + rest + b == [c] + (rest + b);
    PutInFront(c, Split(rest), b);
  }

  lemma PutInFront(c: char, rest: seq<string>, b: string)
    requires rest != []
    ensures var n := |rest| - 1; var parts := Lead(c, rest); var m := |parts| - 1;
            Lead(c, rest[..n] + Split(rest[n] + b)) == parts[..m] + Split(parts[m] + b)
  {
    var n := |rest| - 1;
    if c != '\n' && n == 0 {
      SplitStep(c, rest[0] + b);
      assert [c] + rest[0] + b == [c] + (rest[0] + b);
      assert rest[..0] + Split(rest[0] + b) == Split(rest[0] + b);
    }
  }

  lemma SplitStep(c: char, s: string)
    ensures Split([c] + s) == Lead(c, Split(s))
  {
    assert ([c] + s)[1..] == s;
  }

  /** Splitting is what undoes joining: the parts join to the text and hold no newline ... */
  lemma {:induction false} SplitJoins(s: string)
    ensures Join(Split(s)) == s
    ensures forall i :: 0 <= i < |Split(s)| ==> '\n' !in Split(s)[i]
  {
    if s != "" {
      SplitJoins(s[1..]);
      var rest := Split(s[1..]);
      var parts := Split(s);
      if s[0] == '\n' {
        assert parts[1..] == rest;
        assert s == "\n" + s[1..];
      } else {
        assert parts[1..] == rest[1..];
        assert Join(parts) == [s[0]] + Join(rest);
      }
    }
  }

  /** ... and no other parts do. */
  lemma {:induction false} JoinSplits(parts: seq<string>)
    requires parts != [] && forall i :: 0 <= i < |parts| ==> '\n' !in parts[i]
    ensures Split(Join(parts)) == parts
    decreases |parts|, |parts[0]|
  {
    if parts[0] == "" {
      if |parts| > 1 {
        JoinSplits(parts[1..]);
        assert Join(parts)[1..] == Join(parts[1..]);
      }
    } else {
      var shorter := [parts[0][1..]] + parts[1..];
      assert shorter[1..] == parts[1..];
      JoinSplits(shorter);
      assert Join(parts) == [parts[0][0]] + Join(shorter);
      assert [parts[0][0]] + shorter[0] == parts[0];
      assert Join(parts)[1..] == Join(shorter);
    }
  }

  // ---- Files of terminated lines ----------------------------------------------------------------------

  function WriteAll(lines: seq<string>): string {
    if lines == [] then "" else lines[0] + "\n" + WriteAll(lines[1..])
  }

  ghost predicate OneLineEach(lines: seq<string>) {
    forall i :: 0 <= i < |lines| ==> '\n' !in lines[i]
  }

  lemma {:induction false} WriteAllJoins(lines: seq<string>)
    ensures WriteAll(lines) == Join(lines + [""])
    ensures lines != [] ==> WriteAll(lines) == Join(lines) + "\n"
  {
    if lines != [] {
      WriteAllJoins(lines[1..]);
      assert (lines + [""])[1..] == lines[1..] + [""];
    }
  }

  lemma {:induction false} WriteAllAppends(a: seq<string>, b: seq<string>)
    ensures WriteAll(a + b) == WriteAll(a) + WriteAll(b)
  {
    if a == [] {
      assert a + b == b;
    } else {
      WriteAllAppends(a[1..], b);
      assert (a + b)[1..] == a[1..] + b;
      assert a[0] + "\n" + (WriteAll(a[1..]) + WriteAll(b)) == a[0] + "\n" + WriteAll(a[1..]) + WriteAll(b);
    }
  }

  lemma SplitWritten(lines: seq<string>)
    requires OneLineEach(lines)
    ensures Split(WriteAll(lines)) == lines + [""]
  {
    WriteAllJoins(lines);
    JoinSplits(lines + [""]);
  }

  /** A line appended to a file continues its last, unterminated line. */
  lemma SplitAppended(content: string, line: string)
    requires '\n' !in line
    ensures var parts := Split(content); var n := |parts| - 1;
      Split(content + (line + "\n")) == parts[..n] + [parts[n] + line, ""]
  {
    var parts := Split(content);
    var n := |parts| - 1;
    SplitJoins(content);
    SplitContinues(content, line + "\n");
    assert parts[n] + (line + "\n") == (parts[n] + line) + "\n";
    SplitLine(parts[n] + line);
  }

  lemma SplitLine(line: string)
    requires '\n' !in line
    ensures Split(line + "\n") == [line, ""]
  {
    SplitWritten([line]);
    assert WriteAll([line]) == line + "\n";
  }
}
