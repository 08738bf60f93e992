/** What the gate tells apart: which calls share a scope or a request, what each call needs, and whose grants
  * pay for it.
  */
module ApprovalScopes {
  import opened Options
  import opened Capabilities
  import opened Approvals
  import opened ApprovalGate

  // ---- Texts around separators ----------------------------------------------------------------------------

  /** Texts that agree around the last separator agree in both parts. */
  lemma SplitAtLast(a: string, x: string, b: string, y: string, c: char)
    requires a + [c] + x == b + [c] + y && c !in x && c !in y
    ensures a == b && x == y
  {
    var s := a + [c] + x;
    if |x| < |y| {
      LaterPart(a, x, b, y, c);
    } else if |y| < |x| {
      LaterPart(b, y, a, x, c);
    }
    assert |a| == |b|;
    assert s[..|a|] == a && s[..|b|] == b && s[|a| + 1..] == x && s[|b| + 1..] == y;
  }

  lemma LaterPart(a: string, x: string, b: string, y: string, c: char)
    requires a + [c] + x == b + [c] + y && |x| < |y|
    ensures c in y
  {
    assert (b + [c] + y)[|a|] == c;
    assert y[|a| - |b| - 1] == c;
  }

  /** Texts that agree around the first separator agree in both parts. */
  lemma SplitAtFirst(a: string, x: string, b: string, y: string, c: char)
    requires a + [c] + x == b + [c] + y && c !in a && c !in b
    ensures a == b && x == y
  {
    var s := a + [c] + x;
    if |a| < |b| {
      EarlierPart(a, x, b, y, c);
    } else if |b| < |a| {
      EarlierPart(b, y, a, x, c);
    }
    assert s[..|a|] == a && s[..|b|] == b && s[|a| + 1..] == x && s[|b| + 1..] == y;
  }

  lemma EarlierPart(a: string, x: string, b: string, y: string, c: char)
    requires a + [c] + x == b + [c] + y && |a| < |b|
    ensures c in b
  {
    assert (a + [c] + x)[|a|] == c;
    assert b[|a|] == c;
  }

  lemma IntentNames(i: Intent, j: Intent)
    ensures IntentName(i) == IntentName(j) <==> i == j
    ensures ':' !in IntentName(i) && '|' !in IntentName(i)
  {
    PlainName(i);
    assert |IntentName(i)| == |IntentName(j)| ==> i == j;
  }

  lemma PlainName(i: Intent)
    ensures ':' !in IntentName(i) && '|' !in IntentName(i)
  {
  }

  // ---- Scopes -----------------------------------------------------------------------------------------------

  predicate IsUntrusted(a: Action) {
    a.provenance == Some(Untrusted)
  }

  /** Exactly when two calls share a scope: the same intent, and the same tool for the same trust; or a trusted
    * tool whose name is that of an untrusted one behind the prefix. */
  lemma ScopesAreExact(a: Action, b: Action)
    ensures ScopeOf(a) == ScopeOf(b) <==>
      && a.intent == b.intent
      && if IsUntrusted(a) == IsUntrusted(b) then a.tool == b.tool
         else if IsUntrusted(a) then b.tool == "untrusted:" + a.tool
         else a.tool == "untrusted:" + b.tool
  {
    var p, q := Prefix(a) + a.tool, Prefix(b) + b.tool;
    IntentNames(a.intent, b.intent);
    IntentNames(b.intent, a.intent);
    ScopeParts(a);
    ScopeParts(b);
    if ScopeOf(a) == ScopeOf(b) {
      SplitAtLast(p, IntentName(a.intent), q, IntentName(b.intent), ':');
    }
    BehindPrefix(a.tool, b.tool);
  }

  function Prefix(a: Action): string {
    if IsUntrusted(a) then "untrusted:" else ""
  }

  lemma ScopeParts(a: Action)
    ensures ScopeOf(a) == Prefix(a) + a.tool + ":" + IntentName(a.intent)
  {
  }

  lemma BehindPrefix(s: string, t: string)
    ensures "untrusted:" + s == "untrusted:" + t <==> s == t
    ensures "" + s == s
  {
    if "untrusted:" + s == "untrusted:" + t {
      assert ("untrusted:" + s)[10..] == s && ("untrusted:" + t)[10..] == t;
    }
  }

  /** A tool whose name begins with the prefix shares the scope of an untrusted call. */
  lemma PrefixedToolCollides()
    ensures ScopeOf(Action("untrusted:exec", Mutating, None)) == ScopeOf(Action("exec", Mutating, Some(Untrusted)))
  {
    ScopesAreExact(Action("untrusted:exec", Mutating, None), Action("exec", Mutating, Some(Untrusted)));
  }

  predicate IsPlain(tool: string) {
    !("untrusted:" <= tool)
  }

  /** The calls of a tool for an intent, trusted or not. */
  predicate IsOf(a: Action, tool: string, intent: Intent, untrusted: bool) {
    a.tool == tool && a.intent == intent && IsUntrusted(a) == untrusted
  }

  lemma PlainScopes(a: Action, b: Action)
    requires IsPlain(a.tool) && IsPlain(b.tool)
    ensures ScopeOf(a) == ScopeOf(b) <==> IsOf(b, a.tool, a.intent, IsUntrusted(a))
  {
    ScopesAreExact(a, b);
  }

  function PassesFor(log: seq<Pass>, c: Capability, tool: string, intent: Intent, untrusted: bool): nat {
    if log == [] then 0
    else
      var last := log[|log| - 1];
      PassesFor(log[..|log| - 1], c, tool, intent, untrusted)
      + if last.first == c && IsOf(last.action, tool, intent, untrusted) then 1 else 0
  }

  function MintedFor(log: seq<Approval>, c: Capability, tool: string, intent: Intent, untrusted: bool): nat {
    if log == [] then 0
    else
      var last := log[|log| - 1];
      MintedFor(log[..|log| - 1], c, tool, intent, untrusted)
      + if IsOf(last.action, tool, intent, untrusted) then Times(last.required, c) * last.uses else 0
  }

  ghost predicate PlainPasses(log: seq<Pass>) {
    forall i :: 0 <= i < |log| ==> IsPlain(log[i].action.tool)
  }

  ghost predicate PlainApprovals(log: seq<Approval>) {
    forall i :: 0 <= i < |log| ==> IsPlain(log[i].action.tool)
  }

  lemma {:induction false} PassesOfScope(log: seq<Pass>, c: Capability, a: Action)
    requires PlainPasses(log) && IsPlain(a.tool)
    ensures Passes(log, c, ScopeOf(a)) == PassesFor(log, c, a.tool, a.intent, IsUntrusted(a))
  {
    if log != [] {
      var n := |log| - 1;
      PassesOfScope(log[..n], c, a);
      PlainScopes(a, log[n].action);
    }
  }

  lemma {:induction false} MintedOfScope(log: seq<Approval>, c: Capability, a: Action)
    requires PlainApprovals(log) && IsPlain(a.tool)
    ensures Minted(log, c, ScopeOf(a)) == MintedFor(log, c, a.tool, a.intent, IsUntrusted(a))
  {
    if log != [] {
      var n := |log| - 1;
      MintedOfScope(log[..n], c, a);
      PlainScopes(a, log[n].action);
    }
  }

  /** In every valid state of the gate, grant-based passes of a tool for an intent, trusted or untrusted, are no
    * more than the uses that approvals of just these calls minted: no approval pays for another tool, for
    * another intent, or for calls of the other trust. */
  lemma ApprovalsPayForTheirOwn(gate: CapabilityApprovalGate, c: Capability, tool: string, intent: Intent, untrusted: bool)
    requires gate.Valid() && PlainPasses(gate.passes) && PlainApprovals(gate.workflow.approvals) && IsPlain(tool)
    ensures PassesFor(gate.passes, c, tool, intent, untrusted) <= MintedFor(gate.workflow.approvals, c, tool, intent, untrusted)
  {
    var a := Action(tool, intent, if untrusted then Some(Untrusted) else None);
    PassesOfScope(gate.passes, c, a);
    MintedOfScope(gate.workflow.approvals, c, a);
    gate.PassesNeverExceedApprovals(c, ScopeOf(a));
  }

  // ---- Requests ---------------------------------------------------------------------------------------------

  lemma {:induction false} JoinedNames(cs: seq<Capability>)
    ensures '|' !in JoinNames(cs)
  {
    if |cs| > 1 {
      JoinedNames(cs[1..]);
    }
  }

  /** For tools without a bar in their name, requests of one fingerprint ask for the same: tool, intent, plan and
    * provenance, whatever the plan contains. */
  lemma FingerprintsTellApart(a: Request, b: Request)
    requires FingerprintOf(a) == FingerprintOf(b) && '|' !in a.tool && '|' !in b.tool
    ensures a.tool == b.tool && a.intent == b.intent && a.plan == b.plan && a.provenance == b.provenance
  {
    IntentNames(a.intent, b.intent);
    IntentNames(b.intent, a.intent);
    ProvenanceNames(a.provenance, b.provenance);
    var na, nb := NamesOf(a), NamesOf(b);
    JoinedNames(Approvals.Sorted(RequiredCapabilities(a.tool, a.intent)));
    JoinedNames(Approvals.Sorted(RequiredCapabilities(b.tool, b.intent)));
    var pa, pb := ProvenanceName(a.provenance), ProvenanceName(b.provenance);
    var ia, ib := IntentName(a.intent), IntentName(b.intent);
    SplitAtLast(a.tool + "|" + ia + "|" + a.plan + "|" + na, pa, b.tool + "|" + ib + "|" + b.plan + "|" + nb, pb, '|');
    SplitAtLast(a.tool + "|" + ia + "|" + a.plan, na, b.tool + "|" + ib + "|" + b.plan, nb, '|');
    FrontParts(a.tool, ia, a.plan, b.tool, ib, b.plan);
  }

  function NamesOf(r: Request): string {
    JoinNames(Approvals.Sorted(RequiredCapabilities(r.tool, r.intent)))
  }

  lemma FrontParts(t: string, i: string, p: string, u: string, j: string, q: string)
    requires t + "|" + i + "|" + p == u + "|" + j + "|" + q && '|' !in t && '|' !in u && '|' !in i && '|' !in j
    ensures t == u && i == j && p == q
  {
    assert t + "|" + i + "|" + p == t + ['|'] + (i + "|" + p);
    assert u + "|" + j + "|" + q == u + ['|'] + (j + "|" + q);
    SplitAtFirst(t, i + "|" + p, u, j + "|" + q, '|');
    SplitAtFirst(i, p, j, q, '|');
  }

  lemma ProvenanceNames(p: Option<Provenance>, q: Option<Provenance>)
    ensures ProvenanceName(p) == ProvenanceName(q) <==> p == q
    ensures '|' !in ProvenanceName(p) && '|' !in ProvenanceName(q)
  {
  }

  /** A pending request expires exactly when it is older than a day. */
  lemma RequestsExpireAfterADay(rs: Requests, now: int, id: string)
    requires id in rs
    ensures var r := RefreshAll(rs, now)[id];
      if rs[id].status.Pending? && now - rs[id].createdAt > 86_400_000 then r == rs[id].(status := Expired, updatedAt := now)
      else r == rs[id]
  {
  }

  // ---- What a call needs --------------------------------------------------------------------------------------

  /** The calls for which each capability is needed. */
  lemma NeedsAreExact(tool: string, intent: Intent, c: Capability)
    ensures c in RequiredCapabilities(tool, intent) <==>
      match c
      case HighRisk => intent == HighRiskTool && tool != "exec"
      case NetFetch =>
        || (tool == "exec" && intent == NetworkImpacting)
        || (intent != HighRiskTool && tool in {"web_fetch", "mcp_web_fetch", "web_search", "mcp_web_search"})
      case FsWrite => (tool == "exec" && intent == Mutating) || (tool == "gh_pr_write" && intent != HighRiskTool)
      case ProcessExec => (tool == "exec" && intent != ReadOnly) || (tool == "gh_pr_write" && intent != HighRiskTool)
      case ProcessExecMutate => (tool == "exec" && intent == Mutating) || (tool == "gh_pr_write" && intent != HighRiskTool)
      case ProcessExecPrivileged => tool == "exec" && intent == PrivilegeImpacting
  {
  }

  /** No call needs a capability twice, and calls that start processes pay for that first. */
  lemma NeedsAreInOrder(tool: string, intent: Intent)
    ensures var needs := RequiredCapabilities(tool, intent);
      && (forall i, j :: 0 <= i < j < |needs| ==> needs[i] != needs[j])
      && (ProcessExec in needs ==> needs[0] == ProcessExec)
  {
  }

  /** Without options, exactly the calls that need nothing pass freely. */
  lemma StrictGateIsFreeForNothing(tool: string, intent: Intent)
    ensures NeedsNoGrant(GateOptions(false, false, false, false, false), tool, intent)
            <==> forall c :: c !in RequiredCapabilities(tool, intent)
  {
    if RequiredCapabilities(tool, intent) != [] {
      assert RequiredCapabilities(tool, intent)[0] in RequiredCapabilities(tool, intent);
    }
  }

  /** What each option frees, for commands and for other tools; in development everything is free. */
  lemma OptionsFreeTheirOwn(o: GateOptions, tool: string, intent: Intent)
    requires RequiredCapabilities(tool, intent) != []
    ensures NeedsNoGrant(o, tool, intent) <==>
      (o.devMode ||
       match intent
       case HighRiskTool => o.allowHighRiskWithoutGrant
       case ReadOnly => o.allowReadOnlyWithoutGrant || (o.allowNetFetchWithoutGrant && tool != "gh_pr_write")
       case Mutating =>
         (o.allowMutatingWithoutGrant && tool == "exec")
         || (o.allowNetFetchWithoutGrant && tool in {"web_fetch", "mcp_web_fetch", "web_search", "mcp_web_search"})
       case _ => o.allowNetFetchWithoutGrant && tool in {"web_fetch", "mcp_web_fetch", "web_search", "mcp_web_search"})
  {
  }

  // ---- The order of capabilities ------------------------------------------------------------------------------

  lemma {:induction false} InsertHolds(c: Capability, cs: seq<Capability>)
    ensures multiset(Approvals.Insert(c, cs)) == multiset(cs) + multiset{c}
  {
    if cs != [] && Rank(c) > Rank(cs[0]) {
      InsertHolds(c, cs[1..]);
      assert cs == [cs[0]] + cs[1..];
    } else {
      assert [c] + cs == [c] + cs;
    }
  }

  /** Sorting neither loses nor adds a capability: a request asks for what its call needs. */
  lemma {:induction false} SortedHolds(cs: seq<Capability>)
    ensures multiset(Approvals.Sorted(cs)) == multiset(cs)
  {
    if cs != [] {
      SortedHolds(cs[1..]);
      InsertHolds(cs[0], Approvals.Sorted(cs[1..]));
      assert cs == [cs[0]] + cs[1..];
    }
  }
}
