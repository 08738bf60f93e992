/** The memory file under appends, rolling trims and compactions, and its archive. */
module MemoryLog {
  import opened Options
  import opened JsonText
  import Json
  import opened MemoryLines
  import opened Sequences
  import opened TextLines
  import opened Trimming

  // ---- What a file holds ----------------------------------------------------------------------------------

  /** The records in these lines, in order. */
  function Records(lines: seq<string>): seq<MemoryRecord> {
    Collect(RecordIn, lines)
  }

  function RecordLines(lines: seq<string>): seq<string> {
    if lines == [] then []
    else if ParseLine(lines[0]).Some? then [lines[0]] + RecordLines(lines[1..])
    else RecordLines(lines[1..])
  }

  /** The lines before the first record line. */
  function Header(lines: seq<string>): seq<string> {
    if lines == [] || ParseLine(lines[0]).Some? then [] else [lines[0]] + Header(lines[1..])
  }

  lemma RecordsAppend(a: seq<string>, b: seq<string>)
    ensures Records(a + b) == Records(a) + Records(b)
  {
    CollectAppends(RecordIn, a, b);
  }

  lemma {:induction false} RecordLinesHoldAll(lines: seq<string>)
    ensures Records(RecordLines(lines)) == Records(lines)
  {
    if lines != [] {
      RecordLinesHoldAll(lines[1..]);
      if ParseLine(lines[0]).Some? {
        assert RecordLines(lines)[1..] == RecordLines(lines[1..]);
      }
    }
  }

  lemma {:induction false} HeaderHoldsNone(lines: seq<string>)
    ensures Records(Header(lines)) == []
  {
    if lines != [] && ParseLine(lines[0]).None? {
      HeaderHoldsNone(lines[1..]);
      assert Header(lines)[1..] == Header(lines[1..]);
    }
  }

  /** Whatever lines are read from a text, the record line has a record, and its strings are code units. */
  ghost predicate WellFormed(lines: seq<string>) {
    forall i :: 0 <= i < |lines| && ParseLine(lines[i]).Some? ==> RecordIn(lines[i]).Some? && Whole(RecordIn(lines[i]).value)
  }

  ghost predicate AllWhole(records: seq<MemoryRecord>) {
    forall i :: 0 <= i < |records| ==> Whole(records[i])
  }

  lemma {:induction false} WellFormedRecords(lines: seq<string>)
    requires WellFormed(lines)
    ensures AllWhole(Records(lines))
  {
    if lines != [] {
      WellFormedRecords(lines[1..]);
    }
  }

  function Lines(records: seq<MemoryRecord>): seq<string>
    requires AllWhole(records)
  {
    if records == [] then [] else [ToLine(records[0])] + Lines(records[1..])
  }

  lemma LineIsFine(r: MemoryRecord)
    requires Whole(r)
    ensures OneLineEach([ToLine(r)]) && WellFormed([ToLine(r)]) && Records([ToLine(r)]) == [r]
  {
    LineReadsBack(r);
    CollectOne(RecordIn, ToLine(r));
  }

  lemma {:induction false} LinesReadBack(records: seq<MemoryRecord>)
    requires AllWhole(records)
    ensures Records(Lines(records)) == records && OneLineEach(Lines(records)) && WellFormed(Lines(records))
  {
    if records != [] {
      var line, rest := ToLine(records[0]), Lines(records[1..]);
      LineIsFine(records[0]);
      LinesReadBack(records[1..]);
      BothFine([line], rest);
      RecordsAppend([line], rest);
      assert records == [records[0]] + records[1..];
    }
  }

  // ---- The rolling window -----------------------------------------------------------------------------------

  datatype Limits = Limits(maxRecords: Option<int>, maxChars: Option<int>)

  predicate FitsRecords(records: seq<string>, limits: Limits, d: nat)
    requires d <= |records|
  {
    limits.maxRecords.Some? ==> |records| - d <= limits.maxRecords.value
  }

  predicate FitsChars(header: seq<string>, records: seq<string>, limits: Limits, d: nat)
    requires d <= |records|
  {
    limits.maxChars.Some? ==> |WriteAll(header)| + |WriteAll(records[d..])| <= limits.maxChars.value
  }

  /** Without its first d record lines, the file is within the limits. */
  predicate Fits(header: seq<string>, records: seq<string>, limits: Limits, d: nat)
    requires d <= |records|
  {
    FitsRecords(records, limits, d) && FitsChars(header, records, limits, d)
  }

  function FirstFit(header: seq<string>, records: seq<string>, limits: Limits, d: nat): (r: nat)
    requires d <= |records|
    ensures d <= r <= |records|
    decreases |records| - d
  {
    if d == |records| || Fits(header, records, limits, d) then d else FirstFit(header, records, limits, d + 1)
  }

  /** Fewer drops would leave the file over a limit; these meet the limits, or are all of the records. */
  lemma {:induction false} DropsFewest(header: seq<string>, records: seq<string>, limits: Limits, from: nat, e: nat)
    requires from <= e <= |records|
    ensures var d := FirstFit(header, records, limits, from);
      && (e < d ==> !Fits(header, records, limits, e))
      && (e == d ==> e == |records| || Fits(header, records, limits, e))
    decreases |records| - from
  {
    if from < |records| && !Fits(header, records, limits, from) && from < e {
      DropsFewest(header, records, limits, from + 1, e);
    }
  }

  /** A trimmed file, and the lines it lost; a file within its limits stays as it is. */
  function Trimmed(content: string, limits: Limits): (string, seq<string>) {
    var parts := Split(content);
    var records := RecordLines(parts);
    var d := FirstFit(Header(parts), records, limits, 0);
    if d == 0 then (content, []) else (WriteAll(Header(parts) + records[d..]), records[..d])
  }

  // ---- Compaction -----------------------------------------------------------------------------------------

  function KeepAlways(): set<Units> {
    {Json.Units("learned"), Json.Units("user-preference"), Json.Units("compaction")}
  }

  function CompactableCategories(): set<Units> {
    {Json.Units("turn-summary"), Json.Units("note")}
  }

  /** The time of a compaction, its minimal age, and how a timestamp reads (None: not a number). */
  datatype Aging = Aging(now: int, minAgeMs: int, dateOf: Units -> Option<int>)

  predicate Stays(r: MemoryRecord, aging: Aging) {
    if r.category in KeepAlways() then true
    else
      var ts := aging.dateOf(r.timestamp);
      if ts.None? || aging.now - ts.value < aging.minAgeMs then true
      else r.category !in CompactableCategories()
  }

  function Kept(records: seq<MemoryRecord>, aging: Aging): seq<MemoryRecord> {
    if records == [] then []
    else if Stays(records[0], aging) then [records[0]] + Kept(records[1..], aging)
    else Kept(records[1..], aging)
  }

  function Compacted(records: seq<MemoryRecord>, aging: Aging): seq<MemoryRecord> {
    if records == [] then []
    else if Stays(records[0], aging) then Compacted(records[1..], aging)
    else [records[0]] + Compacted(records[1..], aging)
  }

  predicate Blank(text: Units) {
    forall k :: 0 <= k < |text| ==> IsTrimmedUnit(text[k])
  }

  /** The texts that are not blank, with empty lines between them. */
  function Summary(records: seq<MemoryRecord>): Units {
    if records == [] then []
    else
      var rest := Summary(records[1..]);
      if Blank(records[0].text) then rest
      else if rest == [] then records[0].text
      else records[0].text + [10, 10] + rest
  }

  function CompactionRecord(id: Units, timestamp: Units, compacted: seq<MemoryRecord>): MemoryRecord {
    var text := Summary(compacted);
    MemoryRecord(id, Json.Units("system"), Json.Units("compaction"), if |text| > 15000 then text[..15000] else text,
                 Json.Units("system"), "1", timestamp, Json.Units("operational"))
  }

  lemma {:induction false} SummaryIsUnits(records: seq<MemoryRecord>)
    requires AllWhole(records)
    ensures AreUnits(Summary(records))
  {
    if records != [] {
      SummaryIsUnits(records[1..]);
      assert Whole(records[0]);
    }
  }

  lemma CompactionRecordIsWhole(id: Units, timestamp: Units, compacted: seq<MemoryRecord>)
    requires AreUnits(id) && AreUnits(timestamp) && AllWhole(compacted)
    ensures Whole(CompactionRecord(id, timestamp, compacted))
  {
    SummaryIsUnits(compacted);
    LiteralIsUnits("system");
    LiteralIsUnits("compaction");
    LiteralIsUnits("operational");
    OneIsNumber();
  }

  lemma OneIsNumber()
    ensures Json.IsNumber("1")
  {
    assert Json.DigitsEnd("1", 1) == 1;
    assert Json.DigitsEnd("1", 0) == 1;
  }

  lemma {:induction false} PartitionWhole(records: seq<MemoryRecord>, aging: Aging)
    requires AllWhole(records)
    ensures AllWhole(Kept(records, aging)) && AllWhole(Compacted(records, aging))
  {
    if records != [] {
      PartitionWhole(records[1..], aging);
    }
  }

  /** Nothing is lost or doubled by the partition, and what always stays is kept with its multiplicity. */
  lemma {:induction false} PartitionConserves(records: seq<MemoryRecord>, aging: Aging)
    ensures multiset(Kept(records, aging)) + multiset(Compacted(records, aging)) == multiset(records)
  {
    if records != [] {
      PartitionConserves(records[1..], aging);
      MultisetCons(records);
      if Stays(records[0], aging) {
        MultisetCons(Kept(records, aging));
        assert Kept(records, aging)[1..] == Kept(records[1..], aging);
      } else {
        MultisetCons(Compacted(records, aging));
        assert Compacted(records, aging)[1..] == Compacted(records[1..], aging);
      }
    }
  }

  lemma {:induction false} CompactedDoNotStay(records: seq<MemoryRecord>, aging: Aging, r: MemoryRecord)
    ensures Stays(r, aging) ==> r !in Compacted(records, aging)
  {
    if records != [] {
      CompactedDoNotStay(records[1..], aging, r);
    }
  }

  /** A compacted file, and the records it lost. */
  function CompactedFile(content: string, id: Units, timestamp: Units, aging: Aging): (string, seq<string>)
    requires AreUnits(id) && AreUnits(timestamp) && WellFormed(Split(content))
  {
    var parts := Split(content);
    var records := Records(parts);
    WellFormedRecords(parts);
    PartitionWhole(records, aging);
    var gone := Compacted(records, aging);
    CompactionRecordIsWhole(id, timestamp, gone);
    var c := CompactionRecord(id, timestamp, gone);
    if gone == [] then (content, [])
    else (WriteAll(Header(parts) + Lines([c] + Kept(records, aging))), Lines(gone))
  }

  // ---- Runs -----------------------------------------------------------------------------------------------

  datatype Files = Files(primary: string, archive: string)

  datatype Event = Append(record: MemoryRecord)
    | Compact(id: Units, timestamp: Units, aging: Aging, lockHeld: bool)

  /** There is something in the file, and it is over a threshold. */
  predicate Over(content: string, limits: Limits) {
    && Trim(content) != ""
    && (OverRecords(content, limits) || OverChars(content, limits))
  }

  predicate OverRecords(content: string, limits: Limits) {
    limits.maxRecords.Some? && |RecordLines(Split(content))| > limits.maxRecords.value
  }

  predicate OverChars(content: string, limits: Limits) {
    limits.maxChars.Some? && |content| > limits.maxChars.value
  }

  ghost predicate Fine(e: Event) {
    match e
    case Append(r) => Whole(r)
    case Compact(id, timestamp, _, _) => AreUnits(id) && AreUnits(timestamp)
  }

  function Written(content: string, r: MemoryRecord): string
    requires Whole(r)
  {
    content + (ToLine(r) + "\n")
  }

  function Moved(f: Files, result: (string, seq<string>)): Files {
    Files(result.0, f.archive + WriteAll(result.1))
  }

  function Step(f: Files, e: Event, window: Limits, target: Limits): Files
    requires Fine(e) && WellFormed(Split(f.primary))
  {
    match e
    case Append(r) => Moved(f, Trimmed(Written(f.primary, r), window))
    case Compact(id, timestamp, aging, lockHeld) =>
      if lockHeld || !Over(f.primary, target) then f else Moved(f, CompactedFile(f.primary, id, timestamp, aging))
  }

  /** The file is empty or ends with a newline. */
  predicate Terminated(content: string) {
    var parts := Split(content);
    parts[|parts| - 1] == ""
  }

  ghost predicate Tidy(content: string) {
    Terminated(content) && WellFormed(Split(content))
  }

  ghost predicate TidyFiles(f: Files) {
    Tidy(f.primary) && Tidy(f.archive)
  }

  function Held(content: string): seq<MemoryRecord> {
    Records(Split(content))
  }

  lemma NothingInEmptyLine()
    ensures ParseLine("").None? && Records([""]) == []
  {
    assert Trim("") == "";
  }

  /** Tidy contents are exactly the texts of well-formed lines. */
  lemma TidyLines(lines: seq<string>)
    requires OneLineEach(lines) && WellFormed(lines)
    ensures Tidy(WriteAll(lines)) && Held(WriteAll(lines)) == Records(lines)
  {
    SplitWritten(lines);
    NothingInEmptyLine();
    RecordsAppend(lines, [""]);
    var parts := lines + [""];
    forall i | 0 <= i < |parts| && ParseLine(parts[i]).Some?
      ensures RecordIn(parts[i]).Some? && Whole(RecordIn(parts[i]).value)
    {
      assert parts[i] == lines[i];
    }
  }

  lemma SliceFine(lines: seq<string>, from: nat, to: nat)
    requires from <= to <= |lines| && OneLineEach(lines) && WellFormed(lines)
    ensures OneLineEach(lines[from..to]) && WellFormed(lines[from..to])
  {
  }

  lemma TerminatedIsWritten(content: string)
    requires Terminated(content)
    ensures var parts := Split(content); var lines := parts[..|parts| - 1];
      parts == lines + [""] && content == WriteAll(lines)
  {
    var parts := Split(content);
    SplitJoins(content);
    WriteAllJoins(parts[..|parts| - 1]);
    assert parts == parts[..|parts| - 1] + [""];
  }

  lemma LinesOfTidy(content: string) returns (lines: seq<string>)
    requires Tidy(content)
    ensures content == WriteAll(lines) && OneLineEach(lines) && WellFormed(lines) && Split(content) == lines + [""]
    ensures Held(content) == Records(lines)
  {
    var parts := Split(content);
    lines := parts[..|parts| - 1];
    TerminatedIsWritten(content);
    SplitJoins(content);
    SliceFine(parts, 0, |parts| - 1);
    assert parts[0..|parts| - 1] == lines;
    TidyLines(lines);
  }

  /** Lines added to a tidy file are added to its lines. */
  lemma TidyExtends(content: string, lines: seq<string>)
    requires Tidy(content) && OneLineEach(lines) && WellFormed(lines)
    ensures Tidy(content + WriteAll(lines)) && Held(content + WriteAll(lines)) == Held(content) + Records(lines)
  {
    var before := LinesOfTidy(content);
    WriteAllAppends(before, lines);
    RecordsAppend(before, lines);
    TidyLines(before + lines);
  }

  lemma WrittenExtends(content: string, r: MemoryRecord)
    requires Tidy(content) && Whole(r)
    ensures Tidy(Written(content, r)) && Held(Written(content, r)) == Held(content) + [r]
  {
    LinesReadBack([r]);
    assert Lines([r]) == [ToLine(r)];
    assert WriteAll([ToLine(r)]) == ToLine(r) + "\n" + "" == ToLine(r) + "\n";
    TidyExtends(content, [ToLine(r)]);
  }

  lemma {:induction false} PartsOfLines(lines: seq<string>, k: nat)
    requires k < |RecordLines(lines)|
    ensures RecordLines(lines)[k] in lines && ParseLine(RecordLines(lines)[k]).Some?
  {
    var rest := lines[1..];
    assert lines == [lines[0]] + rest;
    if ParseLine(lines[0]).None? {
      PartsOfLines(rest, k);
    } else if k > 0 {
      PartsOfLines(rest, k - 1);
    }
  }

  lemma {:induction false} HeaderOfLines(lines: seq<string>, k: nat)
    requires k < |Header(lines)|
    ensures Header(lines)[k] in lines && ParseLine(Header(lines)[k]).None?
  {
    if k > 0 {
      HeaderOfLines(lines[1..], k - 1);
    }
  }

  lemma PartsAreFine(content: string)
    requires WellFormed(Split(content))
    ensures OneLineEach(Header(Split(content))) && WellFormed(Header(Split(content)))
    ensures OneLineEach(RecordLines(Split(content))) && WellFormed(RecordLines(Split(content)))
  {
    var parts := Split(content);
    SplitJoins(content);
    forall k | 0 <= k < |Header(parts)| ensures '\n' !in Header(parts)[k] && ParseLine(Header(parts)[k]).None? {
      HeaderOfLines(parts, k);
    }
    forall k | 0 <= k < |RecordLines(parts)|
      ensures var l := RecordLines(parts)[k]; '\n' !in l && RecordIn(l).Some? && Whole(RecordIn(l).value)
    {
      PartsOfLines(parts, k);
    }
  }

  lemma BothFine(a: seq<string>, b: seq<string>)
    requires OneLineEach(a) && WellFormed(a) && OneLineEach(b) && WellFormed(b)
    ensures OneLineEach(a + b) && WellFormed(a + b)
  {
  }

  lemma CutRecords(header: seq<string>, lines: seq<string>, d: nat)
    requires d <= |lines| && Records(header) == []
    ensures Records(lines[..d]) + Records(header + lines[d..]) == Records(lines)
  {
    RecordsAppend(header, lines[d..]);
    RecordsAppend(lines[..d], lines[d..]);
    assert lines == lines[..d] + lines[d..];
    assert [] + Records(lines[d..]) == Records(lines[d..]);
  }

  /** A trim moves the oldest records: what it dropped and what it kept are what was there, in order. */
  lemma TrimMoves(content: string, limits: Limits)
    requires Tidy(content)
    ensures var (after, dropped) := Trimmed(content, limits);
      && Tidy(after) && OneLineEach(dropped) && WellFormed(dropped)
      && Records(dropped) + Held(after) == Held(content)
  {
    var parts := Split(content);
    var header, lines := Header(parts), RecordLines(parts);
    var d := FirstFit(header, lines, limits, 0);
    if d == 0 {
      assert [] + Held(content) == Held(content);
    } else {
      PartsAreFine(content);
      RecordLinesHoldAll(parts);
      HeaderHoldsNone(parts);
      CutRecords(header, lines, d);
      SliceFine(lines, 0, d);
      SliceFine(lines, d, |lines|);
      assert lines[0..d] == lines[..d] && lines[d..|lines|] == lines[d..];
      BothFine(header, lines[d..]);
      TidyLines(header + lines[d..]);
    }
  }

  lemma {:induction false} FewerRecordsThanLines(lines: seq<string>)
    ensures |Records(lines)| <= |lines|
  {
    if lines != [] {
      FewerRecordsThanLines(lines[1..]);
    }
  }

  /** A file that was trimmed is within its limits, or has no records left. */
  lemma TrimMeetsLimits(content: string, limits: Limits)
    requires Tidy(content) && Trimmed(content, limits).1 != []
    ensures var after := Trimmed(content, limits).0;
      Held(after) == [] ||
      (&& (limits.maxRecords.Some? ==> |Held(after)| <= limits.maxRecords.value)
       && (limits.maxChars.Some? ==> |after| <= limits.maxChars.value))
  {
    var parts := Split(content);
    var header, lines := Header(parts), RecordLines(parts);
    var d := FirstFit(header, lines, limits, 0);
    DropsFewest(header, lines, limits, 0, d);
    WriteAllAppends(header, lines[d..]);
    HeaderHoldsNone(parts);
    RecordsAppend(header, lines[d..]);
    FewerRecordsThanLines(lines[d..]);
    PartsAreFine(content);
    SliceFine(lines, d, |lines|);
    assert lines[d..|lines|] == lines[d..];
    BothFine(header, lines[d..]);
    TidyLines(header + lines[d..]);
  }

  /** A file rewritten as its header and these records holds just them. */
  lemma HeadedFile(content: string, records: seq<MemoryRecord>)
    requires Tidy(content) && AllWhole(records)
    ensures var lines := Header(Split(content)) + Lines(records);
      Tidy(WriteAll(lines)) && Held(WriteAll(lines)) == records
  {
    var header := Header(Split(content));
    LinesReadBack(records);
    PartsAreFine(content);
    HeaderHoldsNone(Split(content));
    RecordsAppend(header, Lines(records));
    BothFine(header, Lines(records));
    TidyLines(header + Lines(records));
  }

  lemma CompactMoves(content: string, id: Units, timestamp: Units, aging: Aging)
    requires Tidy(content) && AreUnits(id) && AreUnits(timestamp)
    ensures var (after, gone) := CompactedFile(content, id, timestamp, aging); var compacted := Compacted(Held(content), aging);
      && Tidy(after) && OneLineEach(gone) && WellFormed(gone) && Records(gone) == compacted
      && Held(after) == if compacted == [] then Held(content)
                        else [CompactionRecord(id, timestamp, compacted)] + Kept(Held(content), aging)
  {
    var parts := Split(content);
    var records := Records(parts);
    WellFormedRecords(parts);
    PartitionWhole(records, aging);
    var gone := Compacted(records, aging);
    CompactionRecordIsWhole(id, timestamp, gone);
    LinesReadBack(gone);
    var rest := [CompactionRecord(id, timestamp, gone)] + Kept(records, aging);
    LinesReadBack(rest);
    if gone != [] {
      HeadedFile(content, rest);
    }
  }

  /** What a step adds to the records: the appended one, or the one a compaction makes. */
  function Added(f: Files, e: Event, target: Limits): seq<MemoryRecord> {
    match e
    case Append(r) => [r]
    case Compact(id, timestamp, aging, lockHeld) =>
      var gone := Compacted(Held(f.primary), aging);
      if lockHeld || !Over(f.primary, target) || gone == [] then [] else [CompactionRecord(id, timestamp, gone)]
  }

  function History(f: Files): seq<MemoryRecord> {
    Held(f.archive) + Held(f.primary)
  }

  function Contents(f: Files): multiset<MemoryRecord> {
    multiset(Held(f.archive)) + multiset(Held(f.primary))
  }

  lemma MovedAlong<T>(a: seq<T>, dropped: seq<T>, rest: seq<T>, before: seq<T>, x: T)
    requires dropped + rest == before + [x]
    ensures a + dropped + rest == a + before + [x]
  {
    assert a + dropped + rest == a + (dropped + rest);
    assert a + before + [x] == a + (before + [x]);
  }

  lemma AppendStep(f: Files, r: MemoryRecord, window: Limits, target: Limits)
    requires TidyFiles(f) && Whole(r)
    ensures var f' := Step(f, Append(r), window, target);
      && TidyFiles(f') && History(f') == History(f) + [r]
  {
    var content := Written(f.primary, r);
    WrittenExtends(f.primary, r);
    TrimMoves(content, window);
    var dropped := Trimmed(content, window).1;
    TidyExtends(f.archive, dropped);
    var rest := Held(Trimmed(content, window).0);
    MovedAlong(Held(f.archive), Records(dropped), rest, Held(f.primary), r);
  }

  lemma CompactStep(f: Files, e: Event, window: Limits, target: Limits)
    requires TidyFiles(f) && Fine(e) && e.Compact?
    ensures TidyFiles(Step(f, e, window, target))
    ensures Contents(Step(f, e, window, target)) == Contents(f) + multiset(Added(f, e, target))
  {
    if !e.lockHeld && Over(f.primary, target) {
      CompactMoves(f.primary, e.id, e.timestamp, e.aging);
      TidyExtends(f.archive, CompactedFile(f.primary, e.id, e.timestamp, e.aging).1);
      PartitionConserves(Held(f.primary), e.aging);
    }
  }

  lemma StepConserves(f: Files, e: Event, window: Limits, target: Limits)
    requires TidyFiles(f) && Fine(e)
    ensures TidyFiles(Step(f, e, window, target))
    ensures Contents(Step(f, e, window, target)) == Contents(f) + multiset(Added(f, e, target))
  {
    match e
    case Append(r) =>
      AppendStep(f, r, window, target);
      var f' := Step(f, e, window, target);
      assert multiset(History(f')) == multiset(History(f) + [r]);
    case Compact(_, _, _, _) => CompactStep(f, e, window, target);
  }

  ghost predicate AllFine(events: seq<Event>) {
    forall i :: 0 <= i < |events| ==> Fine(events[i])
  }

  ghost function After(f: Files, events: seq<Event>, window: Limits, target: Limits): Files
    requires TidyFiles(f) && AllFine(events)
    decreases |events|
  {
    if events == [] then f
    else
      assert Fine(events[0]);
      StepConserves(f, events[0], window, target);
      After(Step(f, events[0], window, target), events[1..], window, target)
  }

  ghost function AllAdded(f: Files, events: seq<Event>, window: Limits, target: Limits): seq<MemoryRecord>
    requires TidyFiles(f) && AllFine(events)
    decreases |events|
  {
    if events == [] then []
    else
      assert Fine(events[0]);
      StepConserves(f, events[0], window, target);
      Added(f, events[0], target) + AllAdded(Step(f, events[0], window, target), events[1..], window, target)
  }

  /** Over any run, the primary file and the archive together hold the records they started with, the
    * appended ones and the compaction records, each as often as it was added. */
  lemma {:induction false} RunConserves(f: Files, events: seq<Event>, window: Limits, target: Limits)
    requires TidyFiles(f) && AllFine(events)
    ensures Contents(After(f, events, window, target))
         == Contents(f) + multiset(AllAdded(f, events, window, target))
    decreases |events|
  {
    if events != [] {
      assert Fine(events[0]);
      StepConserves(f, events[0], window, target);
      RunConserves(Step(f, events[0], window, target), events[1..], window, target);
    }
  }

  function Appends(records: seq<MemoryRecord>): (events: seq<Event>)
    ensures |events| == |records| && forall i :: 0 <= i < |records| ==> events[i] == Append(records[i])
  {
    seq(|records|, i requires 0 <= i < |records| => Append(records[i]))
  }

  lemma AfterFirst(f: Files, records: seq<MemoryRecord>, window: Limits, target: Limits)
    requires TidyFiles(f) && AllWhole(records) && records != []
    ensures Whole(records[0]) && AllWhole(records[1..]) && AllFine(Appends(records)) && AllFine(Appends(records[1..]))
    ensures TidyFiles(Step(f, Append(records[0]), window, target))
    ensures After(f, Appends(records), window, target)
         == After(Step(f, Append(records[0]), window, target), Appends(records[1..]), window, target)
  {
    AppendStep(f, records[0], window, target);
    assert Appends(records)[1..] == Appends(records[1..]);
  }

  /** With appends alone, the archive followed by the primary file is the order of appending. */
  lemma {:induction false} AppendsKeepOrder(f: Files, records: seq<MemoryRecord>, window: Limits, target: Limits)
    requires TidyFiles(f) && AllWhole(records)
    ensures AllFine(Appends(records))
    ensures History(After(f, Appends(records), window, target)) == History(f) + records
    decreases |records|
  {
    if records == [] {
      assert History(f) + records == History(f);
    } else {
      AfterFirst(f, records, window, target);
      AppendStep(f, records[0], window, target);
      AppendsKeepOrder(Step(f, Append(records[0]), window, target), records[1..], window, target);
      Rejoin(History(f), records);
    }
  }

  lemma Rejoin<T>(a: seq<T>, b: seq<T>)
    requires b != []
    ensures a + [b[0]] + b[1..] == a + b
  {
  }

  /** A compaction keeps every record that stays, as often as it was there, and a second one at the same
    * time would find nothing to compact. */
  lemma CompactionKeeps(content: string, id: Units, timestamp: Units, aging: Aging, r: MemoryRecord)
    requires Tidy(content) && AreUnits(id) && AreUnits(timestamp)
    ensures var after := CompactedFile(content, id, timestamp, aging).0;
      && (Stays(r, aging) ==> multiset(Held(after))[r] >= multiset(Held(content))[r])
      && Compacted(Held(after), aging) == []
      && |Held(after)| <= |Held(content)|
  {
    var records := Held(content);
    CompactMoves(content, id, timestamp, aging);
    PartitionConserves(records, aging);
    CompactedDoNotStay(records, aging, r);
    KeptAreKept(records, aging);
    assert |multiset(records)| == |records| && |multiset(Kept(records, aging))| == |Kept(records, aging)|;
    assert |multiset(Compacted(records, aging))| == |Compacted(records, aging)|;
    if Compacted(records, aging) != [] {
      var c := CompactionRecord(id, timestamp, Compacted(records, aging));
      assert Stays(c, aging);
      assert ([c] + Kept(records, aging))[1..] == Kept(records, aging);
    }
  }

  lemma {:induction false} KeptAreKept(records: seq<MemoryRecord>, aging: Aging)
    ensures Compacted(Kept(records, aging), aging) == []
  {
    if records != [] {
      KeptAreKept(records[1..], aging);
      if Stays(records[0], aging) {
        assert Kept(records, aging)[1..] == Kept(records[1..], aging);
      }
    }
  }

  /** In general an appended record joins the last line of the file. */
  lemma AppendJoinsLastLine(content: string, r: MemoryRecord)
    requires Whole(r)
    ensures var parts := Split(content); var n := |parts| - 1; var joined := RecordIn(parts[n] + ToLine(r));
      Held(Written(content, r)) == Records(parts[..n]) + if joined.Some? then [joined.value] else []
  {
    var parts := Split(content);
    var n := |parts| - 1;
    LineReadsBack(r);
    SplitAppended(content, ToLine(r));
    NothingInEmptyLine();
    var last := parts[n] + ToLine(r);
    RecordsAppend(parts[..n], [last, ""]);
    assert [last, ""][1..] == [""];
  }
}
