/** The memory store: its loops over lines and records, proved against the functions on file contents. */
module MemoryStores {
  import opened Options
  import opened JsonText
  import opened MemoryLines
  import opened MemoryLog
  import opened TextLines

  lemma HeaderGrows(lines: seq<string>, i: nat)
    requires i < |lines| && ParseLine(lines[i]).None?
    ensures lines[..i + 1] + Header(lines[i + 1..]) == lines[..i] + Header(lines[i..])
    ensures RecordLines(lines[i + 1..]) == RecordLines(lines[i..])
  {
    assert lines[i..][1..] == lines[i + 1..];
    assert lines[..i + 1] == lines[..i] + [lines[i]];
  }

  /** The first record line, by the scan over the lines. */
  method FirstRecordIndex(lines: seq<string>) returns (i: nat)
    ensures i <= |lines| && lines[..i] == Header(lines)
    ensures RecordLines(lines[i..]) == RecordLines(lines)
  {
    i := 0;
    while i < |lines| && ParseLine(lines[i]).None?
      invariant i <= |lines|
      invariant lines[..i] + Header(lines[i..]) == Header(lines)
      invariant RecordLines(lines[i..]) == RecordLines(lines)
    {
      HeaderGrows(lines, i);
      i := i + 1;
    }
    assert Header(lines[i..]) == [];
    assert lines[..i] + [] == lines[..i];
  }

  method FilterRecordLines(lines: seq<string>) returns (records: seq<string>)
    ensures records == RecordLines(lines)
  {
    records := [];
    var i := 0;
    while i < |lines|
      invariant i <= |lines|
      invariant records + RecordLines(lines[i..]) == RecordLines(lines)
    {
      assert lines[i..][1..] == lines[i + 1..];
      if ParseLine(lines[i]).Some? {
        assert records + ([lines[i]] + RecordLines(lines[i + 1..])) == records + [lines[i]] + RecordLines(lines[i + 1..]);
        records := records + [lines[i]];
      }
      i := i + 1;
    }
    assert records + [] == records;
  }

  lemma WriteAllLength(lines: seq<string>, d: nat)
    requires d < |lines|
    ensures |WriteAll(lines[d..])| == |lines[d]| + 1 + |WriteAll(lines[d + 1..])|
  {
    assert lines[d..][1..] == lines[d + 1..];
  }

  lemma {:induction false} LaterFitsToo(header: seq<string>, records: seq<string>, limits: Limits, d: nat, e: nat)
    requires d <= e <= |records| && FitsChars(header, records, limits, d)
    ensures FitsChars(header, records, limits, e)
    decreases e - d
  {
    if d < e {
      WriteAllLength(records, d);
      LaterFitsToo(header, records, limits, d + 1, e);
    }
  }

  /** The first number of drops that fits is the one before which none fits. */
  lemma {:induction false} IsFirstFit(header: seq<string>, records: seq<string>, limits: Limits, from: nat, d: nat)
    requires from <= d <= |records| && (d == |records| || Fits(header, records, limits, d))
    requires forall e :: from <= e < d ==> !Fits(header, records, limits, e)
    ensures FirstFit(header, records, limits, from) == d
    decreases d - from
  {
    if from < d {
      IsFirstFit(header, records, limits, from + 1, d);
    }
  }

  /** How many characters the lines take, one newline each. */
  method CountChars(header: seq<string>, records: seq<string>) returns (total: nat)
    ensures total == |WriteAll(header)| + |WriteAll(records)|
  {
    total := |WriteAll(header)|;
    var i := 0;
    while i < |records|
      invariant i <= |records|
      invariant total + |WriteAll(records[i..])| == |WriteAll(header)| + |WriteAll(records)|
    {
      WriteAllLength(records, i);
      total := total + |records[i]| + 1;
      i := i + 1;
    }
  }

  method DropsForChars(header: seq<string>, records: seq<string>, limits: Limits) returns (fromFront: nat)
    ensures fromFront <= |records|
    ensures forall e :: 0 <= e < fromFront ==> !FitsChars(header, records, limits, e)
    ensures fromFront == |records| || FitsChars(header, records, limits, fromFront)
  {
    fromFront := 0;
    if limits.maxChars.Some? {
      var totalChars := CountChars(header, records);
      while totalChars > limits.maxChars.value && fromFront < |records|
        invariant fromFront <= |records|
        invariant totalChars == |WriteAll(header)| + |WriteAll(records[fromFront..])|
        invariant forall e :: 0 <= e < fromFront ==> !FitsChars(header, records, limits, e)
        decreases |records| - fromFront
      {
        WriteAllLength(records, fromFront);
        totalChars := totalChars - (|records[fromFront]| + 1);
        fromFront := fromFront + 1;
      }
    }
  }

  /** The larger of the drops for either limit. */
  method CountDrops(header: seq<string>, records: seq<string>, limits: Limits) returns (dropCount: nat)
    ensures dropCount == FirstFit(header, records, limits, 0)
  {
    dropCount := 0;
    if limits.maxRecords.Some? && |records| > limits.maxRecords.value {
      var over := |records| - limits.maxRecords.value;
      dropCount := if over > |records| then |records| else over;
    }
    ghost var forRecords := dropCount;
    var fromFront := DropsForChars(header, records, limits);
    if fromFront > dropCount {
      dropCount := fromFront;
    }
    if dropCount < |records| {
      LaterFitsToo(header, records, limits, fromFront, dropCount);
    }
    forall e | 0 <= e < dropCount ensures !Fits(header, records, limits, e) {
      if e >= fromFront {
        assert e < forRecords && !FitsRecords(records, limits, e);
      }
    }
    IsFirstFit(header, records, limits, 0, dropCount);
  }

  method Partition(records: seq<MemoryRecord>, aging: Aging) returns (toKeep: seq<MemoryRecord>, toCompact: seq<MemoryRecord>)
    ensures toKeep == Kept(records, aging) && toCompact == Compacted(records, aging)
  {
    toKeep, toCompact := [], [];
    var i := 0;
    while i < |records|
      invariant i <= |records|
      invariant toKeep + Kept(records[i..], aging) == Kept(records, aging)
      invariant toCompact + Compacted(records[i..], aging) == Compacted(records, aging)
    {
      var r := records[i];
      assert records[i..][1..] == records[i + 1..];
      if Stays(r, aging) {
        assert toKeep + ([r] + Kept(records[i + 1..], aging)) == toKeep + [r] + Kept(records[i + 1..], aging);
        toKeep := toKeep + [r];
      } else {
        assert toCompact + ([r] + Compacted(records[i + 1..], aging)) == toCompact + [r] + Compacted(records[i + 1..], aging);
        toCompact := toCompact + [r];
      }
      i := i + 1;
    }
    assert toKeep + [] == toKeep && toCompact + [] == toCompact;
  }

  /** The primary file, and the archive that trims and compactions append to. */
  class MemoryStore {
    const window: Limits
    const target: Limits
    var primary: string
    var archive: string

    ghost function View(): Files
      reads this
    {
      Files(primary, archive)
    }

    constructor (window: Limits, target: Limits, primary: string, archive: string)
      ensures View() == Files(primary, archive) && this.window == window && this.target == target
    {
      this.window, this.target, this.primary, this.archive := window, target, primary, archive;
    }

    method MaybeTrimAfterAppend()
      modifies this
      ensures View() == Moved(old(View()), Trimmed(old(primary), window))
    {
      var lines := Split(primary);
      var first := FirstRecordIndex(lines);
      var header := lines[..first];
      var records := FilterRecordLines(lines[first..]);
      var dropCount := CountDrops(header, records, window);
      if dropCount == 0 {
        assert archive + WriteAll([]) == archive;
        return;
      }
      primary := WriteAll(header + records[dropCount..]);
      archive := archive + WriteAll(records[..dropCount]);
    }

    method AppendRecord(record: MemoryRecord)
      requires Whole(record) && WellFormed(Split(primary))
      modifies this
      ensures View() == Step(old(View()), Append(record), window, target)
    {
      primary := primary + (ToLine(record) + "\n");
      MaybeTrimAfterAppend();
    }

    method RunCompaction(id: Units, timestamp: Units, aging: Aging, lockHeld: bool) returns (ran: bool)
      requires AreUnits(id) && AreUnits(timestamp) && WellFormed(Split(primary))
      modifies this
      ensures View() == Step(old(View()), Compact(id, timestamp, aging, lockHeld), window, target)
      ensures ran <==> !lockHeld && Over(old(primary), target)
    {
      var lines := Split(primary);
      if lockHeld || !Over(primary, target) {
        return false;
      }
      ran := true;
      var first := FirstRecordIndex(lines);
      var records := Records(lines);
      WellFormedRecords(lines);
      PartitionWhole(records, aging);
      var toKeep, toCompact := Partition(records, aging);
      if toCompact == [] {
        assert archive + WriteAll([]) == archive;
        return;
      }
      var c := CompactionRecord(id, timestamp, toCompact);
      CompactionRecordIsWhole(id, timestamp, toCompact);
      primary := WriteAll(lines[..first] + Lines([c] + toKeep));
      archive := archive + WriteAll(Lines(toCompact));
    }
  }
}
