/** Which records a trim or a compaction takes, and what becomes of them. */
module MemoryPolicies {
  import opened Options
  import opened JsonText
  import Json
  import opened MemoryLines
  import opened MemoryLog
  import opened Sequences
  import opened TextLines
  import opened Trimming

  // ---- What is compacted ------------------------------------------------------------------------------------

  lemma CategoriesDiffer()
    ensures Json.Units("note") !in KeepAlways() && Json.Units("turn-summary") !in KeepAlways()
  {
  }

  /** Exactly these records are compacted: notes and turn summaries of a valid date and at least the minimal
    * age. */
  lemma {:induction false} CompactedAreOldNotes(records: seq<MemoryRecord>, aging: Aging, r: MemoryRecord)
    ensures r in Compacted(records, aging) <==>
      && r in records
      && (r.category == Json.Units("note") || r.category == Json.Units("turn-summary"))
      && aging.dateOf(r.timestamp).Some? && aging.now - aging.dateOf(r.timestamp).value >= aging.minAgeMs
  {
    CategoriesDiffer();
    if records != [] {
      CompactedAreOldNotes(records[1..], aging, r);
    }
  }

  /** Kept and compacted records stay in order. */
  lemma {:induction false} PartitionKeepsOrder(a: seq<MemoryRecord>, b: seq<MemoryRecord>, aging: Aging)
    ensures Kept(a + b, aging) == Kept(a, aging) + Kept(b, aging)
    ensures Compacted(a + b, aging) == Compacted(a, aging) + Compacted(b, aging)
  {
    if a == [] {
      assert a + b == b;
    } else {
      assert (a + b)[1..] == a[1..] + b;
      PartitionKeepsOrder(a[1..], b, aging);
      Regroup([a[0]], Kept(a[1..], aging), Kept(b, aging));
      Regroup([a[0]], Compacted(a[1..], aging), Compacted(b, aging));
    }
  }

  /** A compaction is for files that hold something and too many records or characters. */
  lemma OverIsExact(content: string, limits: Limits)
    requires WellFormed(Split(content))
    ensures Over(content, limits) <==>
      && Trim(content) != ""
      && ((limits.maxRecords.Some? && |Held(content)| > limits.maxRecords.value)
          || (limits.maxChars.Some? && |content| > limits.maxChars.value))
  {
    RecordPerLine(Split(content));
  }

  lemma {:induction false} RecordPerLine(lines: seq<string>)
    requires WellFormed(lines)
    ensures |RecordLines(lines)| == |Records(lines)|
  {
    if lines != [] {
      RecordPerLine(lines[1..]);
    }
  }

  /** The texts of a summary have an empty line between them. */
  lemma {:induction false} SummaryJoins(a: seq<MemoryRecord>, b: seq<MemoryRecord>)
    ensures Summary(a + b) ==
      if Summary(a) == [] then Summary(b) else if Summary(b) == [] then Summary(a) else Summary(a) + [10, 10] + Summary(b)
  {
    if a == [] {
      assert a + b == b;
    } else {
      assert (a + b)[1..] == a[1..] + b;
      SummaryJoins(a[1..], b);
      var text := a[0].text;
      if !Blank(text) && Summary(a[1..]) != [] && Summary(b) != [] {
        assert text + [10, 10] + (Summary(a[1..]) + [10, 10] + Summary(b)) == text + [10, 10] + Summary(a[1..]) + [10, 10] + Summary(b);
      }
    }
  }

  /** Each is the text of a record that is not blank, in full. */
  lemma SummaryOfOne(r: MemoryRecord)
    ensures Summary([r]) == if exists i :: 0 <= i < |r.text| && !IsTrimmedUnit(r.text[i]) then r.text else []
  {
    assert [r][1..] == [];
  }

  /** The record of a compaction stays in later ones, and holds the summary, up to a limit. */
  lemma CompactionRecordIs(id: Units, timestamp: Units, gone: seq<MemoryRecord>, aging: Aging)
    ensures var c := CompactionRecord(id, timestamp, gone);
      && c.id == id && c.timestamp == timestamp && c.sourceChannel == c.sessionId && c.confidence == "1" && c.sensitivity == Json.Units("operational")
      && c.sessionId == Json.Units("system") && c.category == Json.Units("compaction") && Stays(c, aging)
      && c.text <= Summary(gone) && (|c.text| == 15000 || c.text == Summary(gone)) && |c.text| <= 15000
  {
  }

  /** A compaction does nothing under a lock, within the limits or without old notes. Else the file holds its
    * record and then what was kept, and the archive gets what was compacted. */
  lemma CompactionIsExact(f: Files, id: Units, timestamp: Units, aging: Aging, lockHeld: bool, window: Limits, target: Limits)
    requires TidyFiles(f) && AreUnits(id) && AreUnits(timestamp)
    ensures var f' := Step(f, Compact(id, timestamp, aging, lockHeld), window, target);
      var records := Held(f.primary); var gone := Compacted(records, aging);
      if lockHeld || !Over(f.primary, target) || gone == [] then f' == f
      else
        && Held(f'.primary) == [CompactionRecord(id, timestamp, gone)] + Kept(records, aging)
        && Held(f'.archive) == Held(f.archive) + gone
  {
    hide Over, Compacted, Kept, CompactionRecord, ParseLine, RecordIn, Split;
    CompactMoves(f.primary, id, timestamp, aging);
    TidyExtends(f.archive, CompactedFile(f.primary, id, timestamp, aging).1);
    assert f.archive + "" == f.archive;
  }

  // ---- What stands before the records -------------------------------------------------------------------------

  lemma {:induction false} HeaderIs(header: seq<string>, lines: seq<string>)
    requires (forall k :: 0 <= k < |header| ==> ParseLine(header[k]).None?) && lines != [] && ParseLine(lines[0]).Some?
    ensures Header(header + lines) == header
  {
    if header == [] {
      assert header + lines == lines;
    } else {
      assert (header + lines)[1..] == header[1..] + lines;
      HeaderIs(header[1..], lines);
    }
  }

  /** Lines of a file, up to the first record and from there on. */
  ghost predicate AreHeaded(header: seq<string>, lines: seq<string>) {
    && OneLineEach(header + lines) && WellFormed(header + lines)
    && (forall k :: 0 <= k < |header| ==> ParseLine(header[k]).None?)
    && lines != [] && ParseLine(lines[0]).Some?
  }

  lemma HeaderOfFile(header: seq<string>, lines: seq<string>)
    requires AreHeaded(header, lines)
    ensures Tidy(WriteAll(header + lines)) && Header(Split(WriteAll(header + lines))) == header
    ensures WriteAll(header + lines) == WriteAll(header) + WriteAll(lines)
  {
    hide ParseLine, RecordIn;
    TidyLines(header + lines);
    SplitWritten(header + lines);
    assert header + lines + [""] == header + (lines + [""]);
    HeaderIs(header, lines + [""]);
    WriteAllAppends(header, lines);
  }

  lemma HeaderStaysInTrim(header: seq<string>, lines: seq<string>, limits: Limits)
    requires AreHeaded(header, lines)
    ensures WriteAll(header) <= Trimmed(WriteAll(header + lines), limits).0
  {
    hide ParseLine, RecordIn;
    HeaderOfFile(header, lines);
    var records := RecordLines(Split(WriteAll(header + lines)));
    WriteAllAppends(header, records[FirstFit(header, records, limits, 0)..]);
  }

  lemma HeaderStaysInCompaction(header: seq<string>, lines: seq<string>, id: Units, timestamp: Units, aging: Aging)
    requires AreHeaded(header, lines) && AreUnits(id) && AreUnits(timestamp)
    ensures Tidy(WriteAll(header + lines))
    ensures WriteAll(header) <= CompactedFile(WriteAll(header + lines), id, timestamp, aging).0
  {
    hide ParseLine, RecordIn, Compacted, Kept, Whole, AreUnits;
    HeaderOfFile(header, lines);
    var parts := Split(WriteAll(header + lines));
    WellFormedRecords(parts);
    PartitionWhole(Records(parts), aging);
    var gone := Compacted(Records(parts), aging);
    CompactionRecordIsWhole(id, timestamp, gone);
    WriteAllAppends(header, Lines([CompactionRecord(id, timestamp, gone)] + Kept(Records(parts), aging)));
  }

  /** Whatever stands before the first record stays, when a file is trimmed and when it is compacted. */
  lemma HeaderStays(header: seq<string>, lines: seq<string>, limits: Limits, id: Units, timestamp: Units, aging: Aging)
    requires AreHeaded(header, lines) && AreUnits(id) && AreUnits(timestamp)
    ensures var content := WriteAll(header + lines);
      && Tidy(content)
      && WriteAll(header) <= Trimmed(content, limits).0
      && WriteAll(header) <= CompactedFile(content, id, timestamp, aging).0
  {
    HeaderStaysInTrim(header, lines, limits);
    HeaderStaysInCompaction(header, lines, id, timestamp, aging);
  }

  // ---- What is trimmed --------------------------------------------------------------------------------------

  /** A trim leaves alone exactly the files without records or within the limits. */
  lemma TrimsOnlyOver(content: string, limits: Limits)
    requires Tidy(content)
    ensures var parts := Split(content); var header, lines := Header(parts), RecordLines(parts);
      Trimmed(content, limits).1 == [] <==>
        || Held(content) == []
        || (&& (limits.maxRecords.Some? ==> |Held(content)| <= limits.maxRecords.value)
            && (limits.maxChars.Some? ==> |WriteAll(header)| + |WriteAll(lines)| <= limits.maxChars.value))
  {
    var parts := Split(content);
    var header, lines := Header(parts), RecordLines(parts);
    RecordPerLine(parts);
    assert lines[0..] == lines;
    DropsFewest(header, lines, limits, 0, 0);
  }

  /** A trim drops no record more than it must: with the last dropped one the file would be over a limit. */
  lemma TrimDropsNoMore(content: string, limits: Limits)
    requires Tidy(content) && Trimmed(content, limits).1 != []
    ensures var (after, dropped) := Trimmed(content, limits); var last := dropped[|dropped| - 1];
      || (limits.maxRecords.Some? && |Held(after)| + 1 > limits.maxRecords.value)
      || (limits.maxChars.Some? && |after| + |last| + 1 > limits.maxChars.value)
  {
    var parts := Split(content);
    var header, lines := Header(parts), RecordLines(parts);
    var d := FirstFit(header, lines, limits, 0);
    DropsFewest(header, lines, limits, 0, d - 1);
    AfterDrops(content, limits, d);
    OneLineLess(lines, d);
  }

  lemma OneLineLess(lines: seq<string>, d: nat)
    requires 0 < d <= |lines|
    ensures |WriteAll(lines[d - 1..])| == |lines[d - 1]| + 1 + |WriteAll(lines[d..])| && lines[..d][|lines[..d]| - 1] == lines[d - 1]
  {
    assert lines[d - 1..][1..] == lines[d..];
  }

  lemma AfterDrops(content: string, limits: Limits, d: nat)
    requires Tidy(content) && d == FirstFit(Header(Split(content)), RecordLines(Split(content)), limits, 0) && d > 0
    ensures var lines := RecordLines(Split(content)); var after := Trimmed(content, limits).0;
      |Held(after)| == |lines| - d && |after| == |WriteAll(Header(Split(content)))| + |WriteAll(lines[d..])|
  {
    var parts := Split(content);
    var header, lines := Header(parts), RecordLines(parts);
    RecordPerLine(parts);
    TrimMoves(content, limits);
    WriteAllAppends(header, lines[d..]);
    var dropped := Trimmed(content, limits).1;
    assert dropped == lines[..d];
    RecordPerLine(dropped);
    OnlyRecordLines(parts, d);
  }

  lemma OnlyRecordLines(parts: seq<string>, d: nat)
    requires d <= |RecordLines(parts)|
    ensures RecordLines(RecordLines(parts)[..d]) == RecordLines(parts)[..d]
  {
    var lines := RecordLines(parts);
    forall k | 0 <= k < d ensures ParseLine(lines[k]).Some? {
      PartsOfLines(parts, k);
    }
    AllRecordLines(lines[..d]);
  }

  lemma {:induction false} AllRecordLines(lines: seq<string>)
    requires forall k :: 0 <= k < |lines| ==> ParseLine(lines[k]).Some?
    ensures RecordLines(lines) == lines
  {
    if lines != [] {
      AllRecordLines(lines[1..]);
    }
  }
}
