/** Scrubbing a text: findings are spliced out for placeholders, which are kept per scope. */
module PrivacyScrubbers {
  import opened FindingOverlaps

  // ---- Splicing -----------------------------------------------------------------------------------------

  datatype Edit = Edit(start: nat, end: nat, with: string)

  /** Edits one after the other within the text, from the cursor on. */
  predicate InTurn(text: string, edits: seq<Edit>, cursor: nat) {
    if edits == [] then cursor <= |text|
    else cursor <= edits[0].start <= edits[0].end && InTurn(text, edits[1..], edits[0].end)
  }

  lemma {:induction false} InTurnFits(text: string, edits: seq<Edit>, cursor: nat)
    requires InTurn(text, edits, cursor)
    ensures cursor <= |text| && (edits != [] ==> edits[0].end <= |text|)
    decreases |edits|
  {
    if edits != [] {
      InTurnFits(text, edits[1..], edits[0].end);
    }
  }

  /** The text from the cursor on, with the edited spans replaced. */
  function Replace(text: string, edits: seq<Edit>, cursor: nat): string
    requires InTurn(text, edits, cursor)
    decreases |edits|
  {
    InTurnFits(text, edits, cursor);
    if edits == [] then text[cursor..]
    else text[cursor..edits[0].start] + edits[0].with + Replace(text, edits[1..], edits[0].end)
  }

  ghost predicate Spliced(text: string, edits: seq<Edit>, out: string) {
    InTurn(text, edits, 0) && out == Replace(text, edits, 0)
  }

  datatype Place = Place(start: nat, end: nat)

  /** Where the first replacement stands in the new text; `at` is where the cursor is in it. */
  function PlaceOf(e: Edit, cursor: nat, at: nat): Place {
    var start := at + (if cursor <= e.start then e.start - cursor else 0);
    Place(start, start + |e.with|)
  }

  /** The edits that put back what was replaced; `at` is where the cursor is in the new text. */
  function Undo(text: string, edits: seq<Edit>, cursor: nat, at: nat): seq<Edit>
    requires InTurn(text, edits, cursor)
    decreases |edits|
  {
    InTurnFits(text, edits, cursor);
    if edits == [] then []
    else
      var place := PlaceOf(edits[0], cursor, at);
      [Edit(place.start, place.end, text[edits[0].start..edits[0].end])] + Undo(text, edits[1..], edits[0].end, place.end)
  }

  lemma Pieces(out: string, at: nat, gap: string, with: string, rest: string)
    requires at <= |out| && out[at..] == gap + with + rest
    ensures var start := at + |gap|;
      start + |with| <= |out| && out[at..start] == gap && out[start + |with|..] == rest
  {
    var start := at + |gap|;
    assert out[at..start] == out[at..][..|gap|];
    assert out[start + |with|..] == out[at..][|gap| + |with|..];
  }

  /** Putting back the replaced spans at their places restores the text. */
  lemma {:induction false} UndoRestores(text: string, edits: seq<Edit>, cursor: nat, out: string, at: nat)
    requires InTurn(text, edits, cursor) && cursor <= |text| && at <= |out| && out[at..] == Replace(text, edits, cursor)
    ensures InTurn(out, Undo(text, edits, cursor, at), at)
    ensures Replace(out, Undo(text, edits, cursor, at), at) == text[cursor..]
    decreases |edits|
  {
    InTurnFits(text, edits, cursor);
    if edits != [] {
      var e := edits[0];
      var start := at + (e.start - cursor);
      var rest := Replace(text, edits[1..], e.end);
      Pieces(out, at, text[cursor..e.start], e.with, rest);
      UndoRestores(text, edits[1..], e.end, out, start + |e.with|);
      var undo := Undo(text, edits, cursor, at);
      assert undo[1..] == Undo(text, edits[1..], e.end, start + |e.with|);
      assert text[cursor..] == text[cursor..e.start] + text[e.start..e.end] + text[e.end..];
    }
  }

  // ---- Placeholders -------------------------------------------------------------------------------------

  function Digit(d: nat): char
    requires d < 10
  {
    ('0' as int + d) as char
  }

  function Decimal(n: nat): string {
    if n < 10 then [Digit(n)] else Decimal(n / 10) + [Digit(n % 10)]
  }

  lemma {:induction false} DecimalHasNoUnderscore(n: nat)
    ensures '_' !in Decimal(n)
  {
    if n >= 10 {
      DecimalHasNoUnderscore(n / 10);
    }
  }

  lemma {:induction false} DecimalsDiffer(m: nat, n: nat)
    requires Decimal(m) == Decimal(n)
    ensures m == n
  {
    var a, b := Decimal(m), Decimal(n);
    assert a[|a| - 1] == b[|b| - 1];
    if m >= 10 && n >= 10 {
      assert a[..|a| - 1] == Decimal(m / 10) && b[..|b| - 1] == Decimal(n / 10);
      DecimalsDiffer(m / 10, n / 10);
    } else if m >= 10 {
      DecimalNotEmpty(m / 10);
    } else if n >= 10 {
      DecimalNotEmpty(n / 10);
    }
  }

  lemma DecimalNotEmpty(n: nat)
    ensures |Decimal(n)| > 0
  {
  }

  function UpperCase(c: char): char {
    if 'a' <= c <= 'z' then (c as int - 32) as char else c
  }

  predicate IsLabelChar(c: char) {
    'A' <= c <= 'Z' || '0' <= c <= '9'
  }

  /** Upper case, with an underscore for every run of other characters; `gap` says the last one was such. */
  function SafeLabel(tag: string, gap: bool): string {
    if tag == "" then ""
    else
      var c := UpperCase(tag[0]);
      if IsLabelChar(c) then [c] + SafeLabel(tag[1..], false)
      else (if gap then "" else "_") + SafeLabel(tag[1..], true)
  }

  function Placeholder(tag: string, n: nat): string {
    "[" + SafeLabel(tag, false) + "_" + Decimal(n) + "]"
  }

  /** Where the last underscore of a placeholder is: before its number. */
  lemma LastUnderscore(tag: string, n: nat)
    ensures var p := Placeholder(tag, n); var i := |p| - 2 - |Decimal(n)|;
      && 0 <= i < |p| && p[i] == '_' && p[i + 1..|p| - 1] == Decimal(n)
      && forall k :: i < k < |p| ==> p[k] != '_'
  {
    var p := Placeholder(tag, n);
    var i := |p| - 2 - |Decimal(n)|;
    assert p == "[" + SafeLabel(tag, false) + "_" + (Decimal(n) + "]");
    assert p[i + 1..|p| - 1] == Decimal(n);
    DecimalHasNoUnderscore(n);
    forall k | i < k < |p| ensures p[k] != '_' {
      if k < |p| - 1 {
        assert p[k] == p[i + 1..|p| - 1][k - i - 1];
      }
    }
  }

  /** Whatever the labels are, placeholders with different numbers differ. */
  lemma PlaceholdersDiffer(a: string, m: nat, b: string, n: nat)
    requires Placeholder(a, m) == Placeholder(b, n)
    ensures m == n
  {
    LastUnderscore(a, m);
    LastUnderscore(b, n);
    DecimalsDiffer(m, n);
  }

  // ---- Scopes -------------------------------------------------------------------------------------------

  /** The placeholders given out in one scope, and how many there were. */
  datatype Scope = Scope(placeholders: map<string, string>, counter: nat)

  predicate HasNumber(placeholder: string, tag: string, n: nat) {
    placeholder == Placeholder(tag, n)
  }

  /** One of the placeholders numbered 1 to n. */
  ghost predicate NumberedUpTo(placeholder: string, n: nat) {
    exists tag: string, i: nat :: 1 <= i <= n && HasNumber(placeholder, tag, i)
  }

  ghost predicate AllNumbered(s: Scope) {
    forall raw :: raw in s.placeholders ==> NumberedUpTo(s.placeholders[raw], s.counter)
  }

  ghost predicate Injective(placeholders: map<string, string>) {
    forall a, b :: a in placeholders && b in placeholders && placeholders[a] == placeholders[b] ==> a == b
  }

  /** Every placeholder has a number up to the counter, and no two values share one. */
  ghost predicate Consistent(s: Scope) {
    AllNumbered(s) && Injective(s.placeholders)
  }

  /** Every placeholder given out before is still the same. */
  ghost predicate Stable(before: map<string, string>, after: map<string, string>) {
    forall raw :: raw in before ==> raw in after && after[raw] == before[raw]
  }

  function Given(s: Scope, tag: string, raw: string): Scope {
    if raw in s.placeholders then s
    else Scope(s.placeholders[raw := Placeholder(tag, s.counter + 1)], s.counter + 1)
  }

  lemma NumberIsNew(placeholder: string, n: nat, tag: string)
    requires NumberedUpTo(placeholder, n)
    ensures placeholder != Placeholder(tag, n + 1) && NumberedUpTo(placeholder, n + 1)
  {
    var l: string, i: nat :| 1 <= i <= n && HasNumber(placeholder, l, i);
    if placeholder == Placeholder(tag, n + 1) {
      PlaceholdersDiffer(l, i, tag, n + 1);
    }
  }

  /** What a scope gave out it gives out again, and distinct values keep distinct placeholders. */
  lemma GivenIsConsistent(s: Scope, tag: string, raw: string)
    requires Consistent(s)
    ensures var s' := Given(s, tag, raw);
      Consistent(s') && raw in s'.placeholders && Stable(s.placeholders, s'.placeholders)
  {
    if raw !in s.placeholders {
      var p := Placeholder(tag, s.counter + 1);
      var s' := Given(s, tag, raw);
      assert HasNumber(p, tag, s.counter + 1);
      forall r | r in s.placeholders
        ensures s.placeholders[r] != p && NumberedUpTo(s.placeholders[r], s'.counter)
      {
        NumberIsNew(s.placeholders[r], s.counter, tag);
      }
    }
  }

  /** The scope after a placeholder was given out for each finding. */
  function GivenAll(s: Scope, findings: seq<Finding>): Scope {
    if findings == [] then s
    else
      var last := findings[|findings| - 1];
      Given(GivenAll(s, findings[..|findings| - 1]), last.tag, last.value)
  }

  lemma {:induction false} GivenAllIsConsistent(s: Scope, findings: seq<Finding>)
    requires Consistent(s)
    ensures Consistent(GivenAll(s, findings)) && Stable(s.placeholders, GivenAll(s, findings).placeholders)
  {
    if findings != [] {
      var n := |findings| - 1;
      GivenAllIsConsistent(s, findings[..n]);
      GivenIsConsistent(GivenAll(s, findings[..n]), findings[n].tag, findings[n].value);
    }
  }

  lemma {:induction false} GivenAllExtends(s: Scope, findings: seq<Finding>, k: nat)
    requires Consistent(s) && k <= |findings|
    ensures Stable(GivenAll(s, findings[..k]).placeholders, GivenAll(s, findings).placeholders)
    decreases |findings| - k
  {
    if k == |findings| {
      assert findings[..k] == findings;
    } else {
      assert findings[..k + 1][..k] == findings[..k];
      GivenAllIsConsistent(s, findings[..k]);
      GivenIsConsistent(GivenAll(s, findings[..k]), findings[k].tag, findings[k].value);
      GivenAllExtends(s, findings, k + 1);
    }
  }

  /** The placeholder spliced in for a finding is the one its value has in the end. */
  lemma PlaceholderIsFinal(s: Scope, findings: seq<Finding>, k: nat)
    requires Consistent(s) && k < |findings|
    ensures var v := findings[k].value; var finals := GivenAll(s, findings).placeholders;
      var now := Given(GivenAll(s, findings[..k]), findings[k].tag, v);
      now == GivenAll(s, findings[..k + 1]) && v in now.placeholders && v in finals && now.placeholders[v] == finals[v]
  {
    assert findings[..k + 1][..k] == findings[..k];
    GivenAllIsConsistent(s, findings[..k]);
    GivenIsConsistent(GivenAll(s, findings[..k]), findings[k].tag, findings[k].value);
    GivenAllExtends(s, findings, k + 1);
  }

  function EditOf(f: Finding, placeholders: map<string, string>): Edit {
    Edit(f.start, f.end, if f.value in placeholders then placeholders[f.value] else "")
  }

  function EditsOf(findings: seq<Finding>, placeholders: map<string, string>): seq<Edit> {
    if findings == [] then [] else [EditOf(findings[0], placeholders)] + EditsOf(findings[1..], placeholders)
  }

  ghost predicate WithinText(text: string, findings: seq<Finding>) {
    forall i :: 0 <= i < |findings| ==> findings[i].start <= findings[i].end <= |text|
  }

  lemma {:induction false} EditsInTurn(text: string, findings: seq<Finding>, placeholders: map<string, string>, cursor: nat)
    requires Disjoint(findings) && WithinText(text, findings) && cursor <= |text|
    requires findings != [] ==> cursor <= findings[0].start
    ensures InTurn(text, EditsOf(findings, placeholders), cursor)
    decreases |findings|
  {
    if findings != [] {
      EditsInTurn(text, findings[1..], placeholders, findings[0].end);
      assert EditsOf(findings, placeholders)[1..] == EditsOf(findings[1..], placeholders);
    }
  }

  // ---- Restoring from the scope ---------------------------------------------------------------------------

  /** Each finding holds the text it spans. */
  ghost predicate HoldsItsText(text: string, findings: seq<Finding>)
    requires WithinText(text, findings)
  {
    forall i :: 0 <= i < |findings| ==> findings[i].value == text[findings[i].start..findings[i].end]
  }

  /** The value that a scope gave this placeholder for. */
  ghost function ValueOf(placeholders: map<string, string>, placeholder: string): string {
    if raw :| raw in placeholders && placeholders[raw] == placeholder then raw else ""
  }

  /** Where the placeholders stand in the new text. */
  function Places(edits: seq<Edit>, cursor: nat, at: nat): seq<Place> {
    if edits == [] then []
    else
      var place := PlaceOf(edits[0], cursor, at);
      [place] + Places(edits[1..], edits[0].end, place.end)
  }

  function Found(out: string, p: Place): string {
    if p.start <= p.end <= |out| then out[p.start..p.end] else ""
  }

  ghost function Lookup(out: string, p: Place, placeholders: map<string, string>): Edit {
    Edit(p.start, p.end, ValueOf(placeholders, Found(out, p)))
  }

  /** The edits that replace what stands at these places by the values the scope gave it for. */
  ghost function Lookups(out: string, places: seq<Place>, placeholders: map<string, string>): seq<Edit> {
    if places == [] then [] else [Lookup(out, places[0], placeholders)] + Lookups(out, places[1..], placeholders)
  }

  /** The edit replaces a piece of the text by its placeholder. */
  ghost predicate GivesPlaceholder(text: string, e: Edit, placeholders: map<string, string>) {
    && e.start <= e.end <= |text|
    && text[e.start..e.end] in placeholders
    && e.with == placeholders[text[e.start..e.end]]
  }

  ghost predicate GivePlaceholders(text: string, edits: seq<Edit>, placeholders: map<string, string>) {
    edits == [] || (GivesPlaceholder(text, edits[0], placeholders) && GivePlaceholders(text, edits[1..], placeholders))
  }

  lemma PieceBetween(out: string, at: nat, gap: string, with: string, rest: string)
    requires at <= |out| && out[at..] == gap + with + rest
    ensures var start := at + |gap|; start + |with| <= |out| && out[start..start + |with|] == with
  {
    var start := at + |gap|;
    assert out[start..start + |with|] == out[at..][|gap|..|gap| + |with|];
  }

  /** What the first replacement leaves in the new text. */
  lemma FirstReplaced(text: string, edits: seq<Edit>, cursor: nat, out: string, at: nat)
    requires edits != [] && InTurn(text, edits, cursor)
    requires at <= |out| && out[at..] == Replace(text, edits, cursor)
    ensures var place := PlaceOf(edits[0], cursor, at);
      && cursor <= edits[0].start && place.end <= |out| && Found(out, place) == edits[0].with
      && out[place.end..] == Replace(text, edits[1..], edits[0].end)
  {
    InTurnFits(text, edits, cursor);
    var e := edits[0];
    Pieces(out, at, text[cursor..e.start], e.with, Replace(text, edits[1..], e.end));
    PieceBetween(out, at, text[cursor..e.start], e.with, Replace(text, edits[1..], e.end));
  }

  /** No two values share a placeholder, so the scope gives back the one that was replaced. */
  lemma LookupFinds(text: string, e: Edit, placeholders: map<string, string>, out: string, place: Place)
    requires Injective(placeholders) && GivesPlaceholder(text, e, placeholders) && Found(out, place) == e.with
    ensures Lookup(out, place, placeholders) == Edit(place.start, place.end, text[e.start..e.end])
  {
  }

  lemma UndoFirst(text: string, edits: seq<Edit>, cursor: nat, at: nat)
    requires edits != [] && InTurn(text, edits, cursor) && cursor <= edits[0].start <= edits[0].end <= |text|
    ensures var place := PlaceOf(edits[0], cursor, at);
      Undo(text, edits, cursor, at)
      == [Edit(place.start, place.end, text[edits[0].start..edits[0].end])] + Undo(text, edits[1..], edits[0].end, place.end)
  {
  }

  lemma LookupsFirst(out: string, edits: seq<Edit>, placeholders: map<string, string>, cursor: nat, at: nat)
    requires edits != []
    ensures var place := PlaceOf(edits[0], cursor, at);
      Lookups(out, Places(edits, cursor, at), placeholders)
      == [Lookup(out, place, placeholders)] + Lookups(out, Places(edits[1..], edits[0].end, place.end), placeholders)
  {
    var place := PlaceOf(edits[0], cursor, at);
    assert Places(edits, cursor, at)[1..] == Places(edits[1..], edits[0].end, place.end);
  }

  /** Looking the placeholders up in the scope gives what they replaced. */
  lemma {:induction false} LookupsUndo(text: string, edits: seq<Edit>, placeholders: map<string, string>, cursor: nat,
                                       out: string, at: nat)
    requires Injective(placeholders) && GivePlaceholders(text, edits, placeholders)
    requires InTurn(text, edits, cursor) && at <= |out| && out[at..] == Replace(text, edits, cursor)
    ensures Lookups(out, Places(edits, cursor, at), placeholders) == Undo(text, edits, cursor, at)
    decreases |edits|
  {
    if edits != [] {
      var place := PlaceOf(edits[0], cursor, at);
      FirstReplaced(text, edits, cursor, out, at);
      LookupFinds(text, edits[0], placeholders, out, place);
      LookupsUndo(text, edits[1..], placeholders, edits[0].end, out, place.end);
      LookupsFirst(out, edits, placeholders, cursor, at);
      UndoFirst(text, edits, cursor, at);
    }
  }

  lemma {:induction false} EditsGivePlaceholders(text: string, findings: seq<Finding>, placeholders: map<string, string>)
    requires WithinText(text, findings) && HoldsItsText(text, findings)
    requires forall i :: 0 <= i < |findings| ==> findings[i].value in placeholders
    ensures GivePlaceholders(text, EditsOf(findings, placeholders), placeholders)
  {
    if findings != [] {
      EditsGivePlaceholders(text, findings[1..], placeholders);
      assert EditsOf(findings, placeholders)[1..] == EditsOf(findings[1..], placeholders);
    }
  }

  /** Replacing every placeholder of a scrubbed text by the value its scope holds for it restores the text. */
  lemma ScopeRestores(text: string, scope: Scope, findings: seq<Finding>, out: string)
    requires Consistent(scope) && WithinText(text, findings) && HoldsItsText(text, findings)
    requires Spliced(text, EditsOf(findings, GivenAll(scope, findings).placeholders), out)
    ensures var placeholders := GivenAll(scope, findings).placeholders;
      Spliced(out, Lookups(out, Places(EditsOf(findings, placeholders), 0, 0), placeholders), text)
  {
    var placeholders := GivenAll(scope, findings).placeholders;
    var edits := EditsOf(findings, placeholders);
    GivenAllIsConsistent(scope, findings);
    forall i | 0 <= i < |findings| ensures findings[i].value in placeholders {
      PlaceholderIsFinal(scope, findings, i);
    }
    EditsGivePlaceholders(text, findings, placeholders);
    assert out[0..] == out && text[0..] == text;
    LookupsUndo(text, edits, placeholders, 0, out, 0);
    UndoRestores(text, edits, 0, out, 0);
  }

  class PrivacyScrubber {
    const enabled: bool
    const maxFindings: nat
    var placeholderByScope: map<string, map<string, string>>
    var scopeCounters: map<string, nat>

    ghost function ScopeOf(scopeId: string): Scope
      reads this
    {
      Scope(
        if scopeId in placeholderByScope then placeholderByScope[scopeId] else map[],
        if scopeId in scopeCounters then scopeCounters[scopeId] else 0)
    }

    ghost predicate Valid()
      reads this
    {
      forall scopeId :: Consistent(ScopeOf(scopeId))
    }

    twostate predicate OthersKept(scopeId: string)
      reads this
    {
      forall s :: s != scopeId ==> ScopeOf(s) == old(ScopeOf(s))
    }

    constructor (enabled: bool, maxFindings: nat)
      ensures Valid() && forall scopeId :: ScopeOf(scopeId) == Scope(map[], 0)
    {
      this.enabled, this.maxFindings := enabled, maxFindings;
      placeholderByScope, scopeCounters := map[], map[];
    }

    method PlaceholderFor(scopeId: string, tag: string, rawValue: string) returns (placeholder: string)
      modifies this
      ensures ScopeOf(scopeId) == Given(old(ScopeOf(scopeId)), tag, rawValue) && OthersKept(scopeId)
      ensures rawValue in ScopeOf(scopeId).placeholders && placeholder == ScopeOf(scopeId).placeholders[rawValue]
      ensures var before := old(ScopeOf(scopeId));
        placeholder == if rawValue in before.placeholders then before.placeholders[rawValue]
                       else "[" + SafeLabel(tag, false) + "_" + Decimal(before.counter + 1) + "]"
    {
      var scope := if scopeId in placeholderByScope then placeholderByScope[scopeId] else map[];
      if rawValue in scope {
        return scope[rawValue];
      }
      var nextIndex := (if scopeId in scopeCounters then scopeCounters[scopeId] else 0) + 1;
      scopeCounters := scopeCounters[scopeId := nextIndex];
      placeholder := Placeholder(tag, nextIndex);
      placeholderByScope := placeholderByScope[scopeId := scope[rawValue := placeholder]];
    }

    method ClearScope(scopeId: string)
      requires Valid()
      modifies this
      ensures Valid() && ScopeOf(scopeId) == Scope(map[], 0) && OthersKept(scopeId)
    {
      placeholderByScope := placeholderByScope - {scopeId};
      scopeCounters := scopeCounters - {scopeId};
      forall s ensures Consistent(ScopeOf(s)) {
        assert s != scopeId ==> ScopeOf(s) == old(ScopeOf(s)) && Consistent(old(ScopeOf(s)));
      }
    }

    /** The splice loop over findings that do not overlap. */
    method Splice(text: string, scopeId: string, findings: seq<Finding>) returns (out: string)
      requires Valid() && Disjoint(findings) && WithinText(text, findings)
      modifies this
      ensures Valid() && OthersKept(scopeId)
      ensures ScopeOf(scopeId) == GivenAll(old(ScopeOf(scopeId)), findings)
      ensures Spliced(text, EditsOf(findings, ScopeOf(scopeId).placeholders), out)
    {
      ghost var first := ScopeOf(scopeId);
      ghost var finals := GivenAll(first, findings).placeholders;
      EditsInTurn(text, findings, finals, 0);
      var cursor: nat, k: nat, written := 0, 0, "";
      while k < |findings|
        invariant k <= |findings| && OthersKept(scopeId)
        invariant ScopeOf(scopeId) == GivenAll(first, findings[..k])
        invariant Left(text, findings, finals, k, cursor, written)
      {
        PlaceholderIsFinal(first, findings, k);
        SpliceStep(text, findings, finals, k, cursor, written);
        var placeholder := PlaceholderFor(scopeId, findings[k].tag, findings[k].value);
        written := written + text[cursor..findings[k].start] + placeholder;
        cursor, k := findings[k].end, k + 1;
      }
      assert findings[..k] == findings;
      GivenAllIsConsistent(first, findings);
      forall s ensures Consistent(ScopeOf(s)) {
        if s != scopeId {
          assert Consistent(old(ScopeOf(s)));
        }
      }
      LeftNone(text, findings, finals, cursor, written);
      out := written + text[cursor..];
    }

    /** Raw findings, as the detectors report them, are sorted, collapsed, cut to the limit and spliced out. */
    method ScrubText(text: string, scopeId: string, detected: seq<Finding>)
      returns (out: string, scrubbed: bool, findings: seq<Finding>, ghost sorted: seq<Finding>)
      requires Valid() && WithinText(text, detected)
      modifies this
      ensures Valid() && OthersKept(scopeId)
      ensures !enabled ==> out == text && !scrubbed && ScopeOf(scopeId) == old(ScopeOf(scopeId))
      ensures enabled ==> Sorted(sorted) && multiset(sorted) == multiset(detected)
      ensures enabled ==> findings == if |Collapse(sorted)| > maxFindings then Collapse(sorted)[..maxFindings] else Collapse(sorted)
      ensures Disjoint(findings) && (scrubbed <==> findings != [])
      ensures ScopeOf(scopeId) == GivenAll(old(ScopeOf(scopeId)), findings)
      ensures var edits := EditsOf(findings, ScopeOf(scopeId).placeholders);
        Spliced(text, edits, out) && Spliced(out, Undo(text, edits, 0, 0), text)
      ensures HoldsItsText(text, detected) ==>
        var placeholders := ScopeOf(scopeId).placeholders;
        Spliced(out, Lookups(out, Places(EditsOf(findings, placeholders), 0, 0), placeholders), text)
    {
      findings, sorted := [], [];
      if enabled {
        var inOrder := SortFindings(detected);
        sorted := inOrder;
        SortedAmong(detected, sorted);
        ChosenStayGood(text, detected, sorted);
        findings := CollapseOverlappingFindings(inOrder);
        CollapseDisjoint(sorted);
        CollapseChooses(sorted);
        ChosenStayGood(text, sorted, findings);
        if |findings| > maxFindings {
          findings := findings[..maxFindings];
        }
      }
      scrubbed := findings != [];
      out := Splice(text, scopeId, findings);
      ghost var edits := EditsOf(findings, ScopeOf(scopeId).placeholders);
      assert out[0..] == out && text[0..] == text;
      UndoRestores(text, edits, 0, out, 0);
      if HoldsItsText(text, detected) {
        ScopeRestores(text, old(ScopeOf(scopeId)), findings, out);
      }
    }
  }

  /** What is written so far and the edits from finding k on make up the whole replacement. */
  ghost predicate Left(text: string, findings: seq<Finding>, placeholders: map<string, string>, k: nat, cursor: nat, out: string)
    requires k <= |findings|
  {
    && InTurn(text, EditsOf(findings, placeholders), 0)
    && InTurn(text, EditsOf(findings[k..], placeholders), cursor)
    && cursor <= |text|
    && (k < |findings| ==> cursor <= findings[k].start <= findings[k].end <= |text|)
    && out + Replace(text, EditsOf(findings[k..], placeholders), cursor) == Replace(text, EditsOf(findings, placeholders), 0)
  }

  lemma LeftNone(text: string, findings: seq<Finding>, placeholders: map<string, string>, cursor: nat, out: string)
    requires Left(text, findings, placeholders, |findings|, cursor, out)
    ensures Spliced(text, EditsOf(findings, placeholders), out + text[cursor..])
  {
    assert findings[|findings|..] == [];
  }

  lemma SpliceStep(text: string, findings: seq<Finding>, placeholders: map<string, string>, k: nat, cursor: nat, out: string)
    requires k < |findings| && Left(text, findings, placeholders, k, cursor, out)
    requires WithinText(text, findings)
    ensures var e := EditOf(findings[k], placeholders);
      Left(text, findings, placeholders, k + 1, e.end, out + text[cursor..e.start] + e.with)
  {
    var e := EditOf(findings[k], placeholders);
    var edits := EditsOf(findings[k..], placeholders);
    var rest := EditsOf(findings[k + 1..], placeholders);
    assert findings[k..][1..] == findings[k + 1..];
    assert edits[1..] == rest;
    assert k + 1 < |findings| ==> findings[k + 1..][0] == findings[k + 1];
    var gap := text[cursor..e.start];
    assert out + (gap + e.with + Replace(text, rest, e.end)) == out + gap + e.with + Replace(text, rest, e.end);
  }

  lemma SortedAmong(detected: seq<Finding>, sorted: seq<Finding>)
    requires multiset(sorted) == multiset(detected)
    ensures forall f :: f in sorted ==> f in detected
  {
    forall f | f in sorted ensures f in detected {
      assert f in multiset(sorted);
      assert f in multiset(detected);
    }
  }

  /** Findings chosen among others are as good as those. */
  lemma ChosenStayGood(text: string, findings: seq<Finding>, chosen: seq<Finding>)
    requires WithinText(text, findings) && forall f :: f in chosen ==> f in findings
    ensures WithinText(text, chosen) && Proper(chosen)
    ensures HoldsItsText(text, findings) ==> HoldsItsText(text, chosen)
  {
    forall i | 0 <= i < |chosen|
      ensures chosen[i].start <= chosen[i].end <= |text|
      ensures HoldsItsText(text, findings) ==> chosen[i].value == text[chosen[i].start..chosen[i].end]
    {
      assert chosen[i] in findings;
    }
  }

  // ---- How placeholders are spelled -----------------------------------------------------------------------

  /** The number that decimal digits stand for. */
  function NumberOf(digits: string): int {
    if digits == "" then 0 else 10 * NumberOf(digits[..|digits| - 1]) + (digits[|digits| - 1] as int - '0' as int)
  }

  /** Placeholder numbers are written in decimal, without leading zeros. */
  lemma {:induction false} DecimalIsExact(n: nat)
    ensures var d := Decimal(n);
      && NumberOf(d) == n && d != "" && (d[0] == '0' ==> d == "0") && forall k :: 0 <= k < |d| ==> '0' <= d[k] <= '9'
  {
    var d := Decimal(n);
    if n < 10 {
      assert d[..0] == "";
    } else {
      DecimalIsExact(n / 10);
      assert d[..|d| - 1] == Decimal(n / 10) && n / 10 > 0;
    }
  }

  predicate IsAlphanumeric(c: char) {
    'A' <= c <= 'Z' || 'a' <= c <= 'z' || '0' <= c <= '9'
  }

  ghost predicate AllAlphanumeric(s: string) {
    forall k :: 0 <= k < |s| ==> IsAlphanumeric(s[k])
  }

  ghost predicate NoneAlphanumeric(s: string) {
    forall k :: 0 <= k < |s| ==> !IsAlphanumeric(s[k])
  }

  /** A letter from a to z as the capital it stands for. */
  function Capital(c: char): char {
    if 'a' <= c <= 'z' then ('A' as int + (c as int - 'a' as int)) as char else c
  }

  function Capitals(s: string): (r: string)
    ensures |r| == |s|
  {
    seq(|s|, i requires 0 <= i < |s| => Capital(s[i]))
  }

  lemma {:induction false} LabelOfWord(word: string, rest: string, gap: bool)
    requires AllAlphanumeric(word)
    ensures SafeLabel(word + rest, gap) == Capitals(word) + SafeLabel(rest, if word == "" then gap else false)
    decreases |word|
  {
    if word == "" {
      assert word + rest == rest;
    } else {
      LabelOfWord(word[1..], rest, false);
      assert (word + rest)[1..] == word[1..] + rest;
      assert Capitals(word) == [Capital(word[0])] + Capitals(word[1..]);
    }
  }

  lemma {:induction false} LabelOfGap(junk: string, rest: string, gap: bool)
    requires junk != "" && NoneAlphanumeric(junk)
    ensures SafeLabel(junk + rest, gap) == (if gap then "" else "_") + SafeLabel(rest, true)
    decreases |junk|
  {
    assert !IsAlphanumeric(junk[0]);
    if |junk| == 1 {
      assert (junk + rest)[1..] == rest;
    } else {
      LabelOfGap(junk[1..], rest, true);
      assert (junk + rest)[1..] == junk[1..] + rest;
    }
  }

  /** A label is the tag in capitals, with one underscore for each run of other characters: a word stands for
    * itself, and a word before a run and what follows it are joined by one. */
  lemma LabelIsExact(word: string, junk: string, rest: string)
    requires AllAlphanumeric(word) && junk != "" && NoneAlphanumeric(junk) && (rest != "" ==> IsAlphanumeric(rest[0]))
    ensures SafeLabel(word, false) == Capitals(word)
    ensures SafeLabel(word + junk + rest, false) == Capitals(word) + "_" + SafeLabel(rest, false)
  {
    LabelOfOne(word);
    GapBefore(rest);
    LabelOfGap(junk, rest, false);
    LabelOfWord(word, junk + rest, false);
    assert word + junk + rest == word + (junk + rest);
    assert Capitals(word) + ("_" + SafeLabel(rest, false)) == Capitals(word) + "_" + SafeLabel(rest, false);
  }

  lemma LabelOfOne(word: string)
    requires AllAlphanumeric(word)
    ensures SafeLabel(word, false) == Capitals(word)
  {
    LabelOfWord(word, "", false);
    assert word + "" == word && Capitals(word) + "" == Capitals(word);
  }

  lemma GapBefore(rest: string)
    requires rest != "" ==> IsAlphanumeric(rest[0])
    ensures SafeLabel(rest, true) == SafeLabel(rest, false)
  {
    assert rest != "" ==> IsLabelChar(UpperCase(rest[0]));
  }
}
