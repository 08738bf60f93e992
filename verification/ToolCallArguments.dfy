/** How streamed arguments are read, in terms of the fragments that arrive and of the JSON grammar. */
module ToolCallArguments {
  import opened Options
  import opened Json
  import opened JsonAccepting
  import opened JsonGrammar
  import opened JsonReading
  import opened ToolCallStream
  import opened ToolCalls
  import opened Trimming

  // ---- Which fragments count for an index, and what they make up ----------------------------------------------

  /** A fragment counts for the index it bears, or without one for its position in the chunk. */
  lemma FragmentsAreOfIndex(k: int, deltas: seq<Delta>, i: nat)
    requires i < |deltas|
    ensures FragmentsOf(k, deltas[..i + 1])
         == FragmentsOf(k, deltas[..i])
            + if deltas[i].index == Some(k) || (deltas[i].index == None && i == k) then [deltas[i]] else []
  {
    assert deltas[..i + 1][..i] == deltas[..i];
  }

  /** The last of the texts that is not empty, or the empty text if all are. */
  ghost predicate IsLastGiven(s: string, texts: seq<string>) {
    if s == "" then forall i :: 0 <= i < |texts| ==> texts[i] == ""
    else exists i :: 0 <= i < |texts| && texts[i] == s && forall j :: i < j < |texts| ==> texts[j] == ""
  }

  function NamesIn(ds: seq<Delta>): seq<string> {
    seq(|ds|, i requires 0 <= i < |ds| => ds[i].name)
  }

  function IdsIn(ds: seq<Delta>): seq<string> {
    seq(|ds|, i requires 0 <= i < |ds| => ds[i].id)
  }

  lemma LastGivenMore(s: string, texts: seq<string>, t: string)
    requires IsLastGiven(s, texts)
    ensures IsLastGiven(if t != "" then t else s, texts + [t])
  {
    if t != "" {
      assert (texts + [t])[|texts|] == t;
    } else if s != "" {
      var i :| 0 <= i < |texts| && texts[i] == s && forall j :: i < j < |texts| ==> texts[j] == "";
      assert (texts + [t])[i] == s;
    }
  }

  /** A call has the last name and the last id that were given, and all pieces of its arguments. */
  lemma {:induction false} MergedIsLastGiven(ds: seq<Delta>)
    requires ds != []
    ensures var call := MergeAll(None, ds);
      && call.Some? && call.value.argsRaw == ToolCalls.Text(ds)
      && IsLastGiven(call.value.name, NamesIn(ds)) && IsLastGiven(call.value.id, IdsIn(ds))
  {
    var n := |ds| - 1;
    assert NamesIn(ds) == NamesIn(ds[..n]) + [ds[n].name] && IdsIn(ds) == IdsIn(ds[..n]) + [ds[n].id];
    if n == 0 {
      LastGivenMore("", [], ds[0].name);
      LastGivenMore("", [], ds[0].id);
    } else {
      MergedIsLastGiven(ds[..n]);
      var before := MergeAll(None, ds[..n]).value;
      LastGivenMore(before.name, NamesIn(ds[..n]), ds[n].name);
      LastGivenMore(before.id, IdsIn(ds[..n]), ds[n].id);
    }
  }

  /** A call without a name is never emitted. */
  lemma NamelessIsSilent(k: int, call: Call, already: bool, finished: bool)
    requires call.name == ""
    ensures Emitted(JsonReader(), k, Some(call), already, finished) == []
  {
  }

  // ---- Arguments as texts of the grammar ------------------------------------------------------------------

  ghost predicate EndsBare(s: string) {
    s != "" && !IsWhite(s[0]) && !IsWhite(s[|s| - 1])
  }

  lemma {:induction false} PiecesEnd(ps: seq<Piece>)
    ensures ShowPieces(ps)[|ShowPieces(ps)| - 1] == '\"'
    decreases |ps|
  {
    if ps != [] {
      PiecesEnd(ps[1..]);
    }
  }

  lemma {:induction false} ItemsEnd(items: seq<Spaced>)
    requires items != []
    ensures ShowItems(items) != "" && ShowItems(items)[|ShowItems(items)| - 1] == ']'
    decreases |items|
  {
    if |items| > 1 {
      ItemsEnd(items[1..]);
    }
  }

  lemma {:induction false} EntriesEnd(entries: seq<JsonGrammar.Entry>)
    requires entries != []
    ensures ShowEntries(entries) != "" && ShowEntries(entries)[|ShowEntries(entries)| - 1] == '}'
    decreases |entries|
  {
    if |entries| > 1 {
      EntriesEnd(entries[1..]);
    }
  }

  /** The text of a value neither starts nor ends with white space. */
  lemma ShowIsBare(t: JsonGrammar.Text)
    requires Good(t)
    ensures EndsBare(Show(t))
  {
    match t
    case NumberText(n) => NumeralIsBare(n);
    case StringText(ps) => PiecesEnd(ps);
    case ArrayText(_, items) => if items != [] { ItemsEnd(items); }
    case ObjectText(_, entries) => if entries != [] { EntriesEnd(entries); }
    case _ =>
  }

  lemma NumeralIsBare(n: Numeral)
    requires GoodNumeral(n)
    ensures EndsBare(ShowNumeral(n))
  {
    NumeralChars(n);
    var s := ShowNumeral(n);
    assert IsNumberChar(s[0]) && IsNumberChar(s[|s| - 1]);
  }

  lemma GapsAreWhite(g: string)
    requires IsGap(g)
    ensures AllWhite(g)
  {
  }

  /** Trimming a text of the grammar leaves the text of its value. */
  lemma TrimsToValue(x: Spaced)
    requires GoodSpaced(x)
    ensures Trim(ShowSpaced(x)) == Show(x.text) && Parse(Show(x.text)) == Some(Meaning(x.text))
  {
    GapsAreWhite(x.before);
    GapsAreWhite(x.after);
    ShowIsBare(x.text);
    assert x.before + (Show(x.text) + x.after) == x.before + Show(x.text) + x.after;
    TrimStrips(x.before, Show(x.text), x.after);
    var bare := Spaced("", x.text, "");
    assert ShowSpaced(bare) == Show(x.text);
    TextParses(bare);
  }

  /** Every stream that brings a text of the grammar as arguments emits its call once, with what the text means. */
  lemma SpelledArgumentsAreEmitted(k: int, chunks: seq<Chunk>, name: string, id: string, x: Spaced)
    requires GoodSpaced(x) && Brings(chunks, k, name, id, ShowSpaced(x)) && name != ""
    ensures Emissions(JsonReader(), k, chunks, Slot(None, false)) == [Emission(k, name, id, Meaning(x.text))]
  {
    TrimsToValue(x);
    ValidArgumentsAreParsedOnce(k, chunks, name, id, ShowSpaced(x));
  }

  predicate HoldsSomething(t: JsonGrammar.Text) {
    (t.ArrayText? && t.items != []) || (t.ObjectText? && t.entries != [])
  }

  lemma {:induction false} MeaningsLength(items: seq<Spaced>)
    ensures |Meanings(items)| == |items|
  {
    if items != [] {
      MeaningsLength(items[1..]);
    }
  }

  lemma {:induction false} EntryMeaningsLength(entries: seq<JsonGrammar.Entry>)
    ensures |EntryMeanings(entries)| == |entries|
  {
    if entries != [] {
      EntryMeaningsLength(entries[1..]);
    }
  }

  lemma SizeOfMeaning(t: JsonGrammar.Text)
    requires Good(t)
    ensures IsContainer(Meaning(t)) && Size(Meaning(t)) > 0 <==> HoldsSomething(t)
    ensures HoldsSomething(t) ==> Show(t)[0] == '{' || Show(t)[0] == '['
  {
    match t
    case ArrayText(_, items) => MeaningsLength(items);
    case ObjectText(_, entries) => EntryMeaningsLength(entries);
    case _ =>
  }

  /** Before the stream ends a call is emitted as soon as its arguments are, white space aside, the text of an
    * array or object that holds something, and not otherwise. */
  lemma EarlyIsExact(k: int, call: Call, v: Value)
    requires call.name != ""
    ensures Emitted(JsonReader(), k, Some(call), false, false) == [Emission(k, call.name, call.id, v)] <==>
            exists x :: GoodSpaced(x) && ShowSpaced(x) == Trim(call.argsRaw) && Meaning(x.text) == v && HoldsSomething(x.text)
  {
    var s := Trim(call.argsRaw);
    CallEmits(k, call, false);
    TrimFacts(call.argsRaw);
    ParseIsExact(s, v);
    forall x | GoodSpaced(x) && ShowSpaced(x) == s && Meaning(x.text) == v
      ensures HoldsSomething(x.text) <==> EarlyArgs(call.argsRaw) == Some(v)
    {
      TrimsToValue(x);
      SizeOfMeaning(x.text);
      TrimTwice(call.argsRaw);
    }
  }

  lemma TrimTwice(s: string)
    ensures Trim(Trim(s)) == Trim(s)
  {
    TrimFacts(s);
    if Trim(s) != "" {
      TrimLeavesRest(Trim(s));
    }
  }

  /** When the stream ends, a call that was not emitted is emitted with what its arguments spell; blank ones
    * stand for an empty object, and others are wrapped as they came. */
  lemma FinalIsExact(raw: string)
    ensures Trim(raw) == "" ==> FinalArgs(raw) == Object([])
    ensures forall x :: GoodSpaced(x) && ShowSpaced(x) == Trim(raw) ==> FinalArgs(raw) == Meaning(x.text)
    ensures Trim(raw) != "" && !(exists x :: GoodSpaced(x) && ShowSpaced(x) == Trim(raw))
            ==> FinalArgs(raw) == Object([Member(Units("raw"), String(Units(raw)))])
  {
    forall x | GoodSpaced(x) && ShowSpaced(x) == Trim(raw) ensures FinalArgs(raw) == Meaning(x.text) {
      TextParses(x);
      ShowIsBare(x.text);
    }
    if Parse(Trim(raw)).Some? {
      ParseIsExact(Trim(raw), Parse(Trim(raw)).value);
    }
  }
}
