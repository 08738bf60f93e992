/** When an appended record arrives: exactly when the last line of the file was blank. */
module MemoryAppends {
  import opened JsonText
  import opened JsonWedge
  import opened MemoryLines
  import opened MemoryLog
  import opened Options
  import opened Sequences
  import opened TextLines
  import opened Trimming
  import Json

  lemma {:induction false} NothingLeft(s: string)
    ensures Trim(s) == "" <==> TrimLeft(s) == ""
  {
    if s != "" && IsTrimmed(s[0]) {
      NothingLeft(s[1..]);
    } else {
      FirstStays(s);
    }
  }

  lemma {:induction false} FirstStays(s: string)
    requires s != "" ==> !IsTrimmed(s[0])
    ensures TrimRight(s) == "" <==> s == ""
    decreases |s|
  {
    if |s| > 1 && IsTrimmed(s[|s| - 1]) {
      FirstStays(s[..|s| - 1]);
    }
  }

  lemma {:induction false} BlankIsTrimmedOff(blank: string, line: string)
    requires TrimLeft(blank) == "" && line != "" && !IsTrimmed(line[0])
    ensures TrimLeft(blank + line) == line
  {
    if blank == "" {
      assert blank + line == line;
    } else {
      BlankIsTrimmedOff(blank[1..], line);
      assert (blank + line)[1..] == blank[1..] + line;
    }
  }

  /** Trimming a text that ends with a trimmed line trims in front of it only. */
  lemma TrimJoined(last: string, line: string)
    requires line != "" && !IsTrimmed(line[0]) && !IsTrimmed(line[|line| - 1])
    ensures Trim(last + line) == TrimLeft(last) + line
  {
    if TrimLeft(last) == "" {
      BlankIsTrimmedOff(last, line);
      assert "" + line == line;
    } else {
      TrimLeftPrefix(last, line);
    }
    RightStays(TrimLeft(last), line);
  }

  lemma RightStays(front: string, line: string)
    requires line != "" && !IsTrimmed(line[|line| - 1])
    ensures TrimRight(front + line) == front + line
  {
    var whole := front + line;
    assert whole[|whole| - 1] == line[|line| - 1];
  }

  lemma LineEdges(r: MemoryRecord)
    requires Whole(r)
    ensures var line := ToLine(r);
      && Wedge(line, 0) && !IsTrimmed(line[0]) && !IsTrimmed(line[|line| - 1])
  {
    PayloadIsWritable(r);
    var m := Payload(r).members;
    MembersEnd(m);
    var id := Json.Units("id");
    assert Body(id) == Escape(id[0]) + Body(id[1..]) && Escape(id[0]) == "i";
    assert Quote(id)[0] == '\"' && Quote(id)[1] == 'i';
    assert Pair(m[0])[0] == '\"' && Pair(m[0])[1] == 'i';
    assert Members(m)[0] == '\"' && Members(m)[1] == 'i';
    assert |Members(m)| > 2;
  }

  lemma WedgeMoves(front: string, line: string)
    requires Wedge(line, 0)
    ensures Wedge(front + line, |front|)
  {
    var s, p := front + line, |front|;
    assert s[p] == line[0] && s[p + 1] == line[1] && s[p + 2] == line[2] && s[p + 3] == line[3] && s[p + 4] == line[4];
  }

  lemma FrontHoldsTheBullet(front: string, line: string)
    requires front != "" && Wedge(line, 0) && "- " <= front + line
    ensures |front| >= 2
  {
    var whole := front + line;
    assert whole[1] == ' ' && whole[|front|] == line[0];
  }

  /** A record line behind anything that is not blank is no record line any more. */
  lemma JoinedLineIsNoRecord(last: string, r: MemoryRecord)
    requires Whole(r) && Trim(last) != ""
    ensures ParseLine(last + ToLine(r)).None?
  {
    var line := ToLine(r);
    NothingLeft(last);
    LineEdges(r);
    TrimJoined(last, line);
    var front := TrimLeft(last);
    var trimmed := front + line;
    if "- " <= trimmed {
      FrontHoldsTheBullet(front, line);
      assert trimmed[2..] == front[2..] + line;
      WedgeMoves(front[2..], line);
      WedgedTextDoesNotParse(trimmed[2..], |front| - 2);
    }
  }

  lemma JoinedLineIsTheRecord(last: string, r: MemoryRecord)
    requires Whole(r) && Trim(last) == ""
    ensures RecordIn(last + ToLine(r)) == Some(r) && RecordIn(last).None?
  {
    var line := ToLine(r);
    NothingLeft(last);
    LineEdges(r);
    TrimJoined(last, line);
    TrimJoined("", line);
    assert "" + line == line;
    LineReadsBack(r);
  }

  /** An append adds its record, and keeps the others, if and only if the last line was blank. Otherwise the
    * record is lost, together with one that stood in that line. */
  lemma AppendArrivesExactly(content: string, r: MemoryRecord)
    requires Whole(r)
    ensures var parts := Split(content); var n := |parts| - 1; var after := Held(Written(content, r));
      && (after == Held(content) + [r] <==> Trim(parts[n]) == "")
      && (Trim(parts[n]) != "" ==> after == Records(parts[..n]))
  {
    var parts := Split(content);
    var n := |parts| - 1;
    var last := parts[n];
    AppendJoinsLastLine(content, r);
    HeldByLastLine(content);
    var early := Records(parts[..n]);
    if Trim(last) == "" {
      JoinedLineIsTheRecord(last, r);
      assert Held(content) + [r] == early + [r];
    } else {
      JoinedLineIsNoRecord(last, r);
      assert early + [] == early;
      assert |Held(content) + [r]| > |early|;
    }
  }

  lemma HeldByLastLine(content: string)
    ensures var parts := Split(content); var n := |parts| - 1; var last := RecordIn(parts[n]);
      Held(content) == Records(parts[..n]) + if last.Some? then [last.value] else []
  {
    var parts := Split(content);
    var n := |parts| - 1;
    assert parts == parts[..n] + [parts[n]];
    RecordsAppend(parts[..n], [parts[n]]);
    CollectOne(RecordIn, parts[n]);
  }

  /** In a file that ends without a newline, one append loses two records. */
  lemma UnterminatedFileLosesBoth(a: MemoryRecord, b: MemoryRecord)
    requires Whole(a) && Whole(b)
    ensures Held(ToLine(a)) == [a] && Held(Written(ToLine(a), b)) == []
  {
    var content := ToLine(a);
    LineReadsBack(a);
    JoinSplits([content]);
    assert Join([content]) == content;
    HeldByLastLine(content);
    assert Split(content)[..0] == [];
    LineEdges(a);
    TrimJoined("", content);
    assert "" + content == content;
    AppendArrivesExactly(content, b);
  }
}
