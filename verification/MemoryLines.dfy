/** Memory records as single lines: `- ` and a JSON object. */
module MemoryLines {
  import opened Options
  import opened Json
  import opened JsonText
  import opened Trimming

  type Units = seq<int>

  datatype MemoryRecord = MemoryRecord(
    id: Units, sessionId: Units, category: Units, text: Units,
    sourceChannel: Units, confidence: string, timestamp: Units, sensitivity: Units)

  /** Its strings are code units, and its confidence is a number. */
  ghost predicate Whole(r: MemoryRecord) {
    && AreUnits(r.id) && AreUnits(r.sessionId) && AreUnits(r.category) && AreUnits(r.text)
    && AreUnits(r.sourceChannel) && AreUnits(r.timestamp) && AreUnits(r.sensitivity)
    && Writable(Number(r.confidence))
  }

  function Provenance(r: MemoryRecord): Value {
    Object([
      Member(Json.Units("sourceChannel"), String(r.sourceChannel)),
      Member(Json.Units("confidence"), Number(r.confidence)),
      Member(Json.Units("timestamp"), String(r.timestamp)),
      Member(Json.Units("sensitivity"), String(r.sensitivity))])
  }

  function Payload(r: MemoryRecord): Value {
    Object([
      Member(Json.Units("id"), String(r.id)),
      Member(Json.Units("sessionId"), String(r.sessionId)),
      Member(Json.Units("category"), String(r.category)),
      Member(Json.Units("text"), String(r.text)),
      Member(Json.Units("provenance"), Provenance(r))])
  }

  lemma MembersStayWritable(m: Member, rest: seq<Member>)
    requires AreUnits(m.key) && Writable(m.value) && MembersWritable(rest)
    ensures MembersWritable([m] + rest)
  {
    assert ([m] + rest)[1..] == rest;
  }

  lemma ProvenanceIsWritable(r: MemoryRecord)
    requires Whole(r)
    ensures Writable(Provenance(r))
  {
    LiteralsAreUnits();
    var m := Provenance(r).members;
    MembersStayWritable(m[3], []);
    MembersStayWritable(m[2], [m[3]]);
    MembersStayWritable(m[1], [m[2]] + [m[3]]);
    MembersStayWritable(m[0], [m[1]] + ([m[2]] + [m[3]]));
    assert m == [m[0]] + ([m[1]] + ([m[2]] + [m[3]]));
  }

  lemma PayloadIsWritable(r: MemoryRecord)
    requires Whole(r)
    ensures Writable(Payload(r))
  {
    LiteralsAreUnits();
    ProvenanceIsWritable(r);
    var m := Payload(r).members;
    MembersStayWritable(m[4], []);
    MembersStayWritable(m[3], [m[4]]);
    MembersStayWritable(m[2], [m[3]] + [m[4]]);
    MembersStayWritable(m[1], [m[2]] + ([m[3]] + [m[4]]));
    MembersStayWritable(m[0], [m[1]] + ([m[2]] + ([m[3]] + [m[4]])));
    assert m == [m[0]] + ([m[1]] + ([m[2]] + ([m[3]] + [m[4]])));
  }

  lemma LiteralIsUnits(s: string)
    requires forall k :: 0 <= k < |s| ==> (s[k] as int) < 0x10000
    ensures AreUnits(Json.Units(s))
  {
  }

  lemma LiteralsAreUnits()
    ensures AreUnits(Json.Units("id")) && AreUnits(Json.Units("sessionId")) && AreUnits(Json.Units("category"))
    ensures AreUnits(Json.Units("text")) && AreUnits(Json.Units("provenance")) && AreUnits(Json.Units("sourceChannel"))
    ensures AreUnits(Json.Units("confidence")) && AreUnits(Json.Units("timestamp")) && AreUnits(Json.Units("sensitivity"))
  {
    LiteralIsUnits("id");
    LiteralIsUnits("sessionId");
    LiteralIsUnits("category");
    LiteralIsUnits("text");
    LiteralIsUnits("provenance");
    LiteralIsUnits("sourceChannel");
    LiteralIsUnits("confidence");
    LiteralIsUnits("timestamp");
    LiteralIsUnits("sensitivity");
  }

  function ToLine(r: MemoryRecord): string
    requires Whole(r)
  {
    PayloadIsWritable(r);
    "- " + Stringify(Payload(r))
  }

  /** The JSON value of a record line; None for any other line, and for null. */
  function ParseLine(line: string): Option<Value> {
    var trimmed := Trim(line);
    if !("- " <= trimmed) then None
    else
      match Parse(trimmed[2..])
      case Some(v) => if v.Null? then None else Some(v)
      case None => None
  }

  /** A property of an object; the last one of that name counts. */
  function Field(members: seq<Member>, key: Units): Option<Value> {
    if members == [] then None
    else if members[|members| - 1].key == key then Some(members[|members| - 1].value)
    else Field(members[..|members| - 1], key)
  }

  function StringField(v: Value, key: string): Option<Units> {
    if !v.Object? then None
    else
      match Field(v.members, Json.Units(key))
      case Some(String(units)) => Some(units)
      case _ => None
  }

  function NumberField(v: Value, key: string): Option<string> {
    if !v.Object? then None
    else
      match Field(v.members, Json.Units(key))
      case Some(Number(token)) => Some(token)
      case _ => None
  }

  /** The record a value stands for, when it has all the fields. */
  function RecordOf(v: Value): Option<MemoryRecord> {
    var p := if v.Object? then Field(v.members, Json.Units("provenance")) else None;
    if p.None? then None
    else
      match (StringField(v, "id"), StringField(v, "sessionId"), StringField(v, "category"), StringField(v, "text"))
      case (Some(id), Some(sessionId), Some(category), Some(text)) =>
        (match (StringField(p.value, "sourceChannel"), NumberField(p.value, "confidence"),
                StringField(p.value, "timestamp"), StringField(p.value, "sensitivity"))
         case (Some(sourceChannel), Some(confidence), Some(timestamp), Some(sensitivity)) =>
           Some(MemoryRecord(id, sessionId, category, text, sourceChannel, confidence, timestamp, sensitivity))
         case _ => None)
      case _ => None
  }

  /** The record in a line, if there is one. */
  function RecordIn(line: string): Option<MemoryRecord> {
    match ParseLine(line)
    case Some(v) => RecordOf(v)
    case None => None
  }

  // ---- The round trip -----------------------------------------------------------------------------------

  lemma {:induction false} FieldAt(members: seq<Member>, k: nat, key: Units)
    requires k < |members| && members[k].key == key
    requires forall j :: k < j < |members| ==> |members[j].key| != |key|
    ensures Field(members, key) == Some(members[k].value)
  {
    if k < |members| - 1 {
      FieldAt(members[..|members| - 1], k, key);
    }
  }

  /** Under which names a record's provenance and its other fields are found in its object. */
  lemma ProvenanceFields(r: MemoryRecord)
    ensures var p := Provenance(r);
      && StringField(p, "sourceChannel") == Some(r.sourceChannel) && NumberField(p, "confidence") == Some(r.confidence)
      && StringField(p, "timestamp") == Some(r.timestamp) && StringField(p, "sensitivity") == Some(r.sensitivity)
  {
    var m := Provenance(r).members;
    FieldAt(m, 0, Json.Units("sourceChannel"));
    FieldAt(m, 1, Json.Units("confidence"));
    FieldAt(m, 2, Json.Units("timestamp"));
    FieldAt(m, 3, Json.Units("sensitivity"));
  }

  lemma PayloadFields(r: MemoryRecord)
    ensures var v := Payload(r);
      && StringField(v, "id") == Some(r.id) && StringField(v, "sessionId") == Some(r.sessionId)
      && StringField(v, "category") == Some(r.category) && StringField(v, "text") == Some(r.text)
      && Field(v.members, Json.Units("provenance")) == Some(Provenance(r))
  {
    var m := Payload(r).members;
    FieldAt(m, 0, Json.Units("id"));
    FieldAt(m, 1, Json.Units("sessionId"));
    FieldAt(m, 2, Json.Units("category"));
    FieldAt(m, 3, Json.Units("text"));
    FieldAt(m, 4, Json.Units("provenance"));
  }

  lemma {:induction false} MembersEnd(members: seq<Member>)
    requires members != [] && MembersWritable(members)
    ensures Members(members) != "" && Members(members)[|Members(members)| - 1] == '}'
    decreases |members|
  {
    if |members| > 1 {
      MembersEnd(members[1..]);
    }
  }

  /** The line of a record is one line, and reads back as that record. */
  lemma LineReadsBack(r: MemoryRecord)
    requires Whole(r)
    ensures ParseLine(ToLine(r)) == Some(Payload(r))
    ensures RecordIn(ToLine(r)) == Some(r)
    ensures '\n' !in ToLine(r)
  {
    PayloadIsWritable(r);
    var v := Payload(r);
    var text := Stringify(v);
    MembersEnd(v.members);
    TrimLeavesRest(ToLine(r));
    assert ToLine(r)[2..] == text;
    ParseStringify(v);
    StringifyPrintable(v);
    PayloadFields(r);
    ProvenanceFields(r);
  }

  /** No two records have the same line. */
  lemma LinesAreDistinct(a: MemoryRecord, b: MemoryRecord)
    requires Whole(a) && Whole(b) && ToLine(a) == ToLine(b)
    ensures a == b
  {
    LineReadsBack(a);
    LineReadsBack(b);
  }
}
