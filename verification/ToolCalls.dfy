/** When early emission of streamed tool calls is harmless: exactly for the argument texts that parse, or
  * of which no prefix would be emitted early.
  */
module ToolCalls {
  import opened Options
  import opened Json
  import opened ToolCallStream
  import opened Trimming
  import JsonText

  // ---- Reading arguments ---------------------------------------------------------------------------

  function Size(v: Value): nat {
    match v
    case Object(ms) => |ms|
    case Array(vs) => |vs|
    case _ => 0
  }

  /** What the arguments so far are emitted as before the stream ends, if they are. */
  function EarlyArgs(raw: string): Option<Value> {
    var trimmed := Trim(raw);
    if trimmed != "" && (trimmed[0] == '{' || trimmed[0] == '[') then
      match Parse(trimmed)
      case Some(v) => if IsContainer(v) && Size(v) > 0 then Some(v) else None
      case None => None
    else None
  }

  /** What the arguments are emitted as when the stream ends: parsed, or wrapped as `{ raw: ... }`. */
  function FinalArgs(raw: string): Value {
    var trimmed := Trim(raw);
    if trimmed == "" then Object([])
    else
      match Parse(trimmed)
      case Some(v) => v
      case None => Object([Member(Units("raw"), String(Units(raw)))])
  }

  /** The reader of the source: JSON.parse on the trimmed text. */
  function JsonReader(): Reader<Value> {
    Reader((raw: string) => EarlyArgs(raw), (raw: string) => FinalArgs(raw))
  }

  // ---- Which texts are safe to emit early ---------------------------------------------------------------

  /** The text parses, or nothing of it would be emitted early. */
  ghost predicate Stable(text: string) {
    Parse(Trim(text)).Some? || forall p :: p <= text ==> EarlyArgs(p).None?
  }

  /** For a stable text, what a prefix is emitted as is what the whole text is emitted as. */
  lemma EarlyIsFinal(p: string, text: string)
    requires Stable(text) && p <= text && EarlyArgs(p).Some?
    ensures EarlyArgs(p).value == FinalArgs(text)
  {
    var small, whole := Trim(p), Trim(text);
    TrimPrefix(p, text);
    TrimFacts(p);
    TrimFacts(text);
    assert whole[0] == small[0];
    ContainerByFirstChar(whole);
    assert SkipSpace(whole, 0) == 0;
    NoProperPrefixParses(small, whole);
  }

  /** A string read from a text is shorter than the text. */
  lemma StringsAreShorter(s: string, i: nat)
    requires i <= |s| && ReadValue(s, i).Some? && ReadValue(s, i).value.value.String?
    ensures |ReadValue(s, i).value.value.units| < |s|
  {
  }

  /** What a text parses to cannot be the wrapper around that text or a longer one. */
  lemma ParsedIsNotWrapped(t: string, text: string)
    requires Parse(t).Some? && |t| <= |text|
    ensures Parse(t).value != Object([Member(Units("raw"), String(Units(text)))])
  {
    var v := Parse(t).value;
    if v.Object? && |v.members| == 1 && v.members[0].value.String? {
      var i := SkipSpace(t, 0) + 1;
      assert ReadObject(t, i).Some? && ReadMembers(t, i).Some?;
      StringsAreShorter(t, ReadKey(t, i).value.next);
      assert v.members[0].value == ReadMember(t, i).value.value.value;
    }
  }

  // ---- Streams of one index -------------------------------------------------------------------------------

  /** All fragments of index k up to the end of the stream. */
  function AllFragments(k: int, chunks: seq<Chunk>): seq<Delta> {
    if chunks == [] then []
    else FragmentsOf(k, chunks[0].deltas) + if chunks[0].finished then [] else AllFragments(k, chunks[1..])
  }

  predicate Terminated(chunks: seq<Chunk>) {
    chunks != [] && (chunks[0].finished || Terminated(chunks[1..]))
  }

  function Text(ds: seq<Delta>): string {
    if ds == [] then "" else Text(ds[..|ds| - 1]) + ds[|ds| - 1].args
  }

  /** The first fragment brings the name and the id; later ones repeat them or leave them out. */
  ghost predicate Named(ds: seq<Delta>, name: string, id: string) {
    && (ds != [] ==> ds[0].name == name && ds[0].id == id)
    && forall i :: 0 <= i < |ds| ==> ds[i].name in {"", name} && ds[i].id in {"", id}
  }

  /** A stream that ends, brings the call of index k under this name and id, and its arguments as `text`. */
  ghost predicate Brings(chunks: seq<Chunk>, k: int, name: string, id: string, text: string) {
    && Terminated(chunks)
    && AllFragments(k, chunks) != []
    && Named(AllFragments(k, chunks), name, id)
    && Text(AllFragments(k, chunks)) == text
  }

  lemma {:induction false} MergeAllConcat(call: Option<Call>, a: seq<Delta>, b: seq<Delta>)
    ensures MergeAll(call, a + b) == MergeAll(MergeAll(call, a), b)
  {
    if b == [] {
      assert a + b == a;
    } else {
      assert (a + b)[..|a + b| - 1] == a + b[..|b| - 1];
      MergeAllConcat(call, a, b[..|b| - 1]);
    }
  }

  lemma {:induction false} MergedCall(ds: seq<Delta>, name: string, id: string)
    requires ds != [] && Named(ds, name, id)
    ensures MergeAll(None, ds) == Some(Call(id, name, Text(ds)))
  {
    var n := |ds| - 1;
    if n == 0 {
      assert ds[..0] == [];
      assert Text(ds) == ds[0].args;
    } else {
      assert Named(ds[..n], name, id);
      MergedCall(ds[..n], name, id);
    }
  }

  lemma {:induction false} TextPrefix(a: seq<Delta>, b: seq<Delta>)
    ensures Text(a) <= Text(a + b)
  {
    if b == [] {
      assert a + b == a;
    } else {
      assert (a + b)[..|a + b| - 1] == a + b[..|b| - 1];
      TextPrefix(a, b[..|b| - 1]);
    }
  }

  /** The stream from the point where the fragments `seen` have been merged and nothing was emitted. */
  lemma {:induction false} RestEmits(k: int, chunks: seq<Chunk>, seen: seq<Delta>, name: string, id: string)
    requires Terminated(chunks) && name != ""
    requires var ds := seen + AllFragments(k, chunks); ds != [] && Named(ds, name, id) && Stable(Text(ds))
    ensures Emissions(JsonReader(), k, chunks, Slot(MergeAll(None, seen), false))
            == [Emission(k, name, id, FinalArgs(Text(seen + AllFragments(k, chunks))))]
  {
    var here := seen + FragmentsOf(k, chunks[0].deltas);
    var later := if chunks[0].finished then [] else AllFragments(k, chunks[1..]);
    assert seen + AllFragments(k, chunks) == here + later;
    MergeAllConcat(None, seen, FragmentsOf(k, chunks[0].deltas));
    HereEmits(k, here, later, chunks[0].finished, name, id);
    if chunks[0].finished {
      assert here + later == here;
    } else if here != [] && EarlyArgs(Text(here)).Some? {
      EmittedStaysSilent(JsonReader(), k, chunks[1..], Slot(MergeAll(None, here), true));
    } else {
      RestEmits(k, chunks[1..], here, name, id);
    }
  }

  /** What one chunk emits when `here` has been merged after it: nothing, or what the whole text gives. */
  lemma HereEmits(k: int, here: seq<Delta>, later: seq<Delta>, finished: bool, name: string, id: string)
    requires name != "" && Named(here + later, name, id) && Stable(Text(here + later))
    requires finished ==> here != [] && later == []
    ensures Emitted(JsonReader(), k, MergeAll(None, here), false, finished)
            == if here != [] && (finished || EarlyArgs(Text(here)).Some?)
               then [Emission(k, name, id, FinalArgs(Text(here + later)))] else []
  {
    if here != [] {
      NamedPrefix(here, later, name, id);
      MergedCall(here, name, id);
      TextPrefix(here, later);
      CallEmits(k, Call(id, name, Text(here)), finished);
      if finished {
        assert here + later == here;
      } else if EarlyArgs(Text(here)).Some? {
        EarlyIsFinal(Text(here), Text(here + later));
      }
    }
  }

  lemma CallEmits(k: int, call: Call, finished: bool)
    requires call.name != ""
    ensures Emitted(JsonReader(), k, Some(call), false, finished)
            == if finished then [Emission(k, call.name, call.id, FinalArgs(call.argsRaw))]
               else if EarlyArgs(call.argsRaw).Some? then [Emission(k, call.name, call.id, EarlyArgs(call.argsRaw).value)]
               else []
  {
  }

  lemma NamedPrefix(a: seq<Delta>, b: seq<Delta>, name: string, id: string)
    requires Named(a + b, name, id)
    ensures Named(a, name, id)
  {
    assert forall i :: 0 <= i < |a| ==> a[i] == (a + b)[i];
  }

  /** However a stable argument text is cut into fragments, the call is emitted once, and always the same. */
  lemma EmissionIgnoresFragmentation(k: int, chunks: seq<Chunk>, name: string, id: string, text: string)
    requires Brings(chunks, k, name, id, text) && name != "" && Stable(text)
    ensures Emissions(JsonReader(), k, chunks, Slot(None, false)) == [Emission(k, name, id, FinalArgs(text))]
  {
    assert [] + AllFragments(k, chunks) == AllFragments(k, chunks);
    RestEmits(k, chunks, [], name, id);
  }

  /** In particular for every valid JSON text. */
  lemma ValidArgumentsAreParsedOnce(k: int, chunks: seq<Chunk>, name: string, id: string, text: string)
    requires Brings(chunks, k, name, id, text) && name != "" && Parse(Trim(text)).Some?
    ensures Emissions(JsonReader(), k, chunks, Slot(None, false)) == [Emission(k, name, id, Parse(Trim(text)).value)]
  {
    EmissionIgnoresFragmentation(k, chunks, name, id, text);
    ContainerByFirstChar(Trim(text));
  }

  /** A text cut after p: p in one chunk, the rest in the finished one. */
  function CutAfter(k: int, name: string, id: string, p: string, rest: string): seq<Chunk> {
    [Chunk([Delta(Some(k), id, name, p)], false), Chunk([Delta(Some(k), "", "", rest)], true)]
  }

  lemma CutBrings(k: int, name: string, id: string, p: string, rest: string)
    ensures Brings(CutAfter(k, name, id, p, rest), k, name, id, p + rest)
    ensures FragmentsOf(k, CutAfter(k, name, id, p, rest)[0].deltas) == [Delta(Some(k), id, name, p)]
  {
    var d, e := Delta(Some(k), id, name, p), Delta(Some(k), "", "", rest);
    OneFragment(k, d);
    TwoChunks(k, d, e);
    TwoTexts(d, e);
  }

  lemma TwoChunks(k: int, d: Delta, e: Delta)
    requires d.index == e.index == Some(k)
    ensures var chunks := [Chunk([d], false), Chunk([e], true)];
            AllFragments(k, chunks) == [d] + [e] && Terminated(chunks)
  {
    var first, second := Chunk([d], false), Chunk([e], true);
    OneFragment(k, d);
    OneFragment(k, e);
    assert [first, second][1..] == [second];
    assert AllFragments(k, [second]) == [e];
    assert Terminated([second]);
  }

  lemma OneFragment(k: int, d: Delta)
    requires d.index == Some(k)
    ensures FragmentsOf(k, [d]) == [d]
  {
    assert [d][..0] == [];
  }

  lemma TwoTexts(d: Delta, e: Delta)
    ensures Text([d] + [e]) == d.args + e.args
  {
    assert ([d] + [e])[..1] == [d] && [d][..0] == [];
    assert Text([d]) == "" + d.args;
  }

  /** The exact condition: a text is stable if and only if every stream that brings it emits it alike. */
  lemma StableIsExact(k: int, name: string, id: string, text: string)
    requires name != ""
    ensures Stable(text)
            <==> forall chunks :: Brings(chunks, k, name, id, text) ==>
                                    Emissions(JsonReader(), k, chunks, Slot(None, false)) == [Emission(k, name, id, FinalArgs(text))]
  {
    if Stable(text) {
      forall chunks | Brings(chunks, k, name, id, text)
        ensures Emissions(JsonReader(), k, chunks, Slot(None, false)) == [Emission(k, name, id, FinalArgs(text))]
      {
        EmissionIgnoresFragmentation(k, chunks, name, id, text);
      }
    } else {
      var p :| p <= text && EarlyArgs(p).Some?;
      var chunks := CutAfter(k, name, id, p, text[|p|..]);
      CutBrings(k, name, id, p, text[|p|..]);
      assert p + text[|p|..] == text;
      TrimFacts(p);
      ParsedIsNotWrapped(Trim(p), text);
      EarlyEmissionFirst(k, name, id, p, text[|p|..]);
      UnparsedIsWrapped(p, text);
    }
  }

  lemma UnparsedIsWrapped(p: string, text: string)
    requires p <= text && EarlyArgs(p).Some? && Parse(Trim(text)).None?
    ensures FinalArgs(text) == Object([Member(Units("raw"), String(Units(text)))])
  {
    TrimPrefix(p, text);
  }

  lemma EarlyEmissionFirst(k: int, name: string, id: string, p: string, rest: string)
    requires name != "" && EarlyArgs(p).Some?
    ensures Emissions(JsonReader(), k, CutAfter(k, name, id, p, rest), Slot(None, false))
            == [Emission(k, name, id, EarlyArgs(p).value)]
  {
    var chunks := CutAfter(k, name, id, p, rest);
    CutBrings(k, name, id, p, rest);
    var ds := FragmentsOf(k, chunks[0].deltas);
    assert ds[..0] == [];
    assert MergeAll(None, ds) == Some(Call(id, name, p));
    EmittedStaysSilent(JsonReader(), k, chunks[1..], Slot(Some(Call(id, name, p)), true));
  }

  // ---- An unstable text -----------------------------------------------------------------------------------

  lemma OneParses()
    ensures Parse("[1]") == Some(Array([Number("1")]))
  {
    var one := Number("1");
    assert DigitsEnd("1", 1) == 1 && DigitsEnd("1", 0) == 1;
    assert IsNumber("1");
    assert JsonText.AllWritable([]);
    assert JsonText.AllWritable([one]);
    assert JsonText.Items([one]) == "1" + "]";
    assert JsonText.Stringify(Array([one])) == "[1]";
    JsonText.ParseStringify(Array([one]));
  }

  lemma TrailingLetterFails()
    ensures Parse("[1]x").None?
  {
    OneParses();
    if Parse("[1]x").Some? {
      ContainerByFirstChar("[1]x");
      NoProperPrefixParses("[1]", "[1]x");
    }
  }

  /** The text in one finished chunk. */
  function AtOnce(k: int, name: string, id: string, text: string): seq<Chunk> {
    [Chunk([Delta(Some(k), id, name, text)], true)]
  }

  lemma AtOnceBrings(k: int, name: string, id: string, text: string)
    ensures Brings(AtOnce(k, name, id, text), k, name, id, text)
    ensures FragmentsOf(k, AtOnce(k, name, id, text)[0].deltas) == [Delta(Some(k), id, name, text)]
  {
    var d := Delta(Some(k), id, name, text);
    OneFragment(k, d);
    assert [d][..0] == [];
    assert Text([d]) == "" + text == text;
    assert AllFragments(k, AtOnce(k, name, id, text)) == [d];
    assert Terminated(AtOnce(k, name, id, text));
  }

  lemma OneFragmentMerged(d: Delta)
    ensures MergeAll(None, [d]) == Some(Call(d.id, d.name, d.args))
  {
    assert [d][..0] == [];
  }

  lemma AtOnceEmitsFinal(k: int, name: string, id: string, text: string)
    requires name != ""
    ensures Emissions(JsonReader(), k, AtOnce(k, name, id, text), Slot(None, false)) == [Emission(k, name, id, FinalArgs(text))]
  {
    var chunk := AtOnce(k, name, id, text)[0];
    AtOnceBrings(k, name, id, text);
    OneFragmentMerged(Delta(Some(k), id, name, text));
    CallEmits(k, Call(id, name, text), true);
    assert AtOnce(k, name, id, text) == [chunk] + [];
    EmissionsUnfold(JsonReader(), k, chunk, [], Slot(None, false));
  }

  /** A complete array and a letter: its prefix would be emitted as the array, the whole is wrapped. */
  lemma UnstableText()
    ensures !Stable("[1]x")
    ensures EarlyArgs("[1]") == Some(Array([Number("1")]))
    ensures FinalArgs("[1]x") == Object([Member(Units("raw"), String(Units("[1]x")))])
  {
    OneParses();
    TrailingLetterFails();
    TrimLeavesRest("[1]");
    TrimLeavesRest("[1]x");
    EarlyPrefixIsUnstable("[1]", "[1]x");
  }

  lemma EarlyPrefixIsUnstable(p: string, text: string)
    requires p <= text && EarlyArgs(p).Some? && Parse(Trim(text)).None?
    ensures !Stable(text)
  {
  }

  /** So two streams that bring this text emit it differently: cut before the letter, and at once. */
  lemma UnstableTextDiffers(k: int, name: string, id: string)
    requires name != ""
    ensures var cut, whole := CutAfter(k, name, id, "[1]", "x"), AtOnce(k, name, id, "[1]x");
      && Brings(cut, k, name, id, "[1]x") && Brings(whole, k, name, id, "[1]x")
      && Emissions(JsonReader(), k, cut, Slot(None, false)) != Emissions(JsonReader(), k, whole, Slot(None, false))
  {
    UnstableText();
    assert "[1]" + "x" == "[1]x";
    CutBrings(k, name, id, "[1]", "x");
    AtOnceBrings(k, name, id, "[1]x");
    EarlyEmissionFirst(k, name, id, "[1]", "x");
    AtOnceEmitsFinal(k, name, id, "[1]x");
  }
}
