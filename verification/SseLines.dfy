/** The incremental line splitter in front of the streamed completions. */
module SseLines {
  import opened TextLines

  function Concat(chunks: seq<string>): string {
    if chunks == [] then "" else Concat(chunks[..|chunks| - 1]) + chunks[|chunks| - 1]
  }

  /** The parts of the whole text, without an empty last one. */
  function LinesOf(text: string): seq<string> {
    var parts := Split(text);
    if parts[|parts| - 1] == "" then parts[..|parts| - 1] else parts
  }

  /** The yielded lines depend on the text only, not on how it was cut into chunks. */
  method StreamLines(chunks: seq<string>) returns (lines: seq<string>)
    ensures lines == LinesOf(Concat(chunks))
  {
    lines := [];
    var buffer := "";
    for i := 0 to |chunks|
      invariant lines + [buffer] == Split(Concat(chunks[..i]))
    {
      SplitContinues(Concat(chunks[..i]), chunks[i]);
      assert chunks[..i + 1][..i] == chunks[..i];
      ghost var before := lines;
      var parts := Split(buffer + chunks[i]);
      lines, buffer := YieldAllButLast(lines, parts);
      assert lines + [buffer] == before + parts;
    }
    assert chunks[..|chunks|] == chunks;
    if buffer != "" {
      lines := lines + [buffer];
    }
  }

  method YieldAllButLast(yielded: seq<string>, parts: seq<string>) returns (lines: seq<string>, buffer: string)
    requires parts != []
    ensures lines + [buffer] == yielded + parts
  {
    buffer := parts[|parts| - 1];
    lines := yielded;
    for j := 0 to |parts| - 1
      invariant lines == yielded + parts[..j]
    {
      lines := lines + [parts[j]];
    }
    assert parts == parts[..|parts| - 1] + [buffer];
  }

  /** The lines hold all of the text: joined they are the text, without the newline at its end if it has one. */
  lemma LinesAreAll(text: string)
    ensures var lines := LinesOf(text);
      && (lines == [] <==> text == "")
      && (forall i :: 0 <= i < |lines| ==> '\n' !in lines[i])
      && (lines != [] ==> text == Join(lines) + if text[|text| - 1] == '\n' then "\n" else "")
  {
    SplitJoins(text);
    var parts := Split(text);
    var n := |parts| - 1;
    assert parts == parts[..n] + [parts[n]];
    JoinWithLast(parts[..n], parts[n]);
  }

  lemma {:induction false} JoinWithLast(front: seq<string>, last: string)
    ensures Join(front + [last]) == if front == [] then last else Join(front) + "\n" + last
    decreases |front|
  {
    if front != [] {
      JoinWithLast(front[1..], last);
      assert (front + [last])[1..] == front[1..] + [last];
    }
  }
}
