/** The capability gate in front of tools: it spends grants, or asks for an approval. */
module ApprovalGate {
  import opened Options
  import opened Capabilities
  import opened Approvals

  datatype GateOptions = GateOptions(
    devMode: bool,
    allowReadOnlyWithoutGrant: bool,
    allowMutatingWithoutGrant: bool,
    allowNetFetchWithoutGrant: bool,
    allowHighRiskWithoutGrant: bool)

  /** The calls that pass without spending a grant. */
  predicate NeedsNoGrant(o: GateOptions, tool: string, intent: Intent) {
    var required := RequiredCapabilities(tool, intent);
    || o.devMode
    || (o.allowReadOnlyWithoutGrant && intent.ReadOnly?)
    || (o.allowMutatingWithoutGrant && intent.Mutating? && tool == "exec")
    || (o.allowHighRiskWithoutGrant && intent.HighRiskTool?)
    || (o.allowNetFetchWithoutGrant && required == [NetFetch])
    || required == []
  }

  datatype Denial = Denial(reason: string, requestId: string, required: seq<Capability>)

  /** A grant-based pass: the first capability it required, and what passed. */
  datatype Pass = Pass(first: Capability, action: Action)

  /** Grant-based passes whose first required capability is c, in a scope. */
  function Passes(log: seq<Pass>, c: Capability, scope: string): nat {
    if log == [] then 0
    else
      var last := log[|log| - 1];
      Passes(log[..|log| - 1], c, scope) + if last.first == c && ScopeOf(last.action) == scope then 1 else 0
  }

  lemma {:induction false} ConsumptionKeepsIssued(a: Account, c: Capability, required: seq<Capability>, scope: string,
                                                  readings: seq<Option<int>>)
    requires |readings| == |required|
    ensures Consumed(a, c, required, scope, readings).issued == a.issued
    ensures a.spent <= Consumed(a, c, required, scope, readings).spent
    decreases |required|
  {
    if required != [] {
      var spent := if c == required[0] then SpentOne(a, scope) else a;
      ConsumptionKeepsIssued(PersistPruned(spent, readings[0]), c, required[1..], scope, readings[1..]);
    }
  }

  lemma CountGrows(a: seq<string>, b: seq<string>, s: string)
    requires a <= b
    ensures Count(a, s) <= Count(b, s)
  {
    CountConcat(a, b[|a|..], s);
    assert a + b[|a|..] == b;
  }

  lemma FirstOfDistinct(cs: seq<Capability>)
    requires cs != []
    ensures Distinct(cs) != [] && Distinct(cs)[0] == cs[0]
  {
    if |cs| > 1 {
      FirstOfDistinct(cs[..|cs| - 1]);
    } else {
      assert cs[..0] == [];
    }
  }

  /** The first required capability always pays: nothing is read between its check and its turn. */
  lemma FirstPays(a: Account, required: seq<Capability>, scope: string, readings: seq<Option<int>>)
    requires required != [] && |readings| == |required| && Usable(a.entries, scope)
    requires forall i, j :: 0 <= i < j < |required| ==> required[i] != required[j]
    ensures Consumed(a, required[0], required, scope, readings).spent == a.spent + [scope]
  {
    PaysExactlyIfItOutlives(a, required[0], required, scope, readings, 0);
    var i :| 0 <= i < |a.entries| && IsUsable(a.entries[i], scope);
    assert Unexpired(a.entries[i], readings[..0]);
  }

  class CapabilityApprovalGate {
    const options: GateOptions
    const workflow: ApprovalWorkflow
    const store: CapabilityStore
    var lastDenial: Option<Denial>
    ghost var passes: seq<Pass>

    ghost predicate Valid()
      reads this, workflow, store
    {
      workflow.store == store && workflow.Valid() && PassesPaid()
    }

    /** Every grant-based pass has spent a use of its first required capability. */
    ghost predicate PassesPaid()
      reads this, store
    {
      forall c, s :: Passes(passes, c, s) <= Count(store.AccountOf(c).spent, s)
    }

    constructor (options: GateOptions, workflow: ApprovalWorkflow)
      requires workflow.Valid()
      ensures Valid() && this.workflow == workflow && this.options == options && passes == []
    {
      this.options, this.workflow, this.store := options, workflow, workflow.store;
      lastDenial, passes := None, [];
    }

    /** In every valid state: the uses approvals minted are the uses spent, left and lapsed, so the passes
      * of a scope never exceed the uses approved for it. */
    lemma PassesNeverExceedApprovals(c: Capability, s: string)
      requires Valid()
      ensures Minted(workflow.approvals, c, s)
              == Count(store.AccountOf(c).spent, s) + Uses(store.EntriesOf(c), s) + Uses(store.AccountOf(c).lapsed, s)
      ensures Passes(passes, c, s) + Uses(store.EntriesOf(c), s) <= Minted(workflow.approvals, c, s)
    {
      assert store.AccountOk(c);
      assert AllBalanced(store.AccountOf(c)) && Balanced(store.AccountOf(c), s);
      assert Uses(store.AccountOf(c).issued, s) == Minted(workflow.approvals, c, s);
      assert Passes(passes, c, s) <= Count(store.AccountOf(c).spent, s);
    }

    /** A resolution by the operator leaves the gate's account of its passes right. */
    twostate lemma ResolutionKeepsValid()
      requires old(Valid()) && workflow.Valid() && unchanged(this)
      requires forall c :: store.AccountOf(c).spent == old(store.AccountOf(c)).spent
      ensures Valid()
    {
      assert forall c, s :: old(Passes(passes, c, s) <= Count(store.AccountOf(c).spent, s));
    }

    /** Pass when no grant is needed or every required capability has a live grant in scope; otherwise
      * leave a pending request. `now` and `readings` are the clock of the consumption and its persists. */
    method Approve(tool: string, intent: Intent, plan: string, provenance: Option<Provenance>,
                   now: int, readings: seq<Option<int>>, staleNow: int, createdAt: int, freshId: string)
      returns (allowed: bool)
      requires Valid() && freshId !in workflow.requests
      requires |readings| == |Distinct(RequiredCapabilities(tool, intent))|
      modifies this, workflow`requests, workflow`requestsByFingerprint, store
      ensures Valid() && KeepsTerminal(old(workflow.requests), workflow.requests) && workflow.approvals == old(workflow.approvals)
      ensures allowed <==> NeedsNoGrant(options, tool, intent) || Covered(old(store.grants), tool, intent, provenance, now)
      ensures NeedsNoGrant(options, tool, intent) ==> passes == old(passes) && store.grants == old(store.grants)
      ensures allowed && !NeedsNoGrant(options, tool, intent) ==>
                && passes == old(passes) + [Pass(RequiredCapabilities(tool, intent)[0], Action(tool, intent, provenance))]
                && workflow.requests == old(workflow.requests)
                && forall c :: store.AccountOf(c)
                               == Consumed(Pruned(old(store.AccountOf(c)), now), c, Distinct(RequiredCapabilities(tool, intent)),
                                           ScopeKey(tool, intent, provenance), readings)
      ensures allowed ==> lastDenial == None
      ensures !allowed ==>
                && passes == old(passes)
                && lastDenial.Some?
                && IsPendingFor(workflow.requests, lastDenial.value.requestId,
                                Fingerprint(tool, intent, plan, RequiredCapabilities(tool, intent), provenance))
                && forall c :: store.AccountOf(c) == Pruned(old(store.AccountOf(c)), now)
    {
      hide RequiredCapabilities, Fingerprint, ScopeKey, Pruned;
      var free := PassesFreely(tool, intent);
      if free {
        lastDenial := None;
        return true;
      }
      var required := RequiredCapabilities(tool, intent);
      allowed := Spend(required, Action(tool, intent, provenance), now, readings);
      if allowed {
        lastDenial := None;
      } else {
        AskForApproval(tool, intent, plan, provenance, staleNow, createdAt, freshId);
      }
    }

    method PassesFreely(tool: string, intent: Intent) returns (free: bool)
      ensures free <==> NeedsNoGrant(options, tool, intent)
    {
      if options.devMode {
        return true;
      }
      if options.allowReadOnlyWithoutGrant && intent.ReadOnly? {
        return true;
      }
      if options.allowMutatingWithoutGrant && intent.Mutating? && tool == "exec" {
        return true;
      }
      if options.allowHighRiskWithoutGrant && intent.HighRiskTool? {
        return true;
      }
      var required := RequiredCapabilities(tool, intent);
      if options.allowNetFetchWithoutGrant && |required| == 1 && required[0] == NetFetch {
        return true;
      }
      return |required| == 0;
    }

    method AskForApproval(tool: string, intent: Intent, plan: string, provenance: Option<Provenance>,
                          staleNow: int, createdAt: int, freshId: string)
      requires Valid() && freshId !in workflow.requests
      modifies this`lastDenial, workflow`requests, workflow`requestsByFingerprint
      ensures Valid() && KeepsTerminal(old(workflow.requests), workflow.requests)
      ensures lastDenial.Some?
      ensures IsPendingFor(workflow.requests, lastDenial.value.requestId,
                           Fingerprint(tool, intent, plan, RequiredCapabilities(tool, intent), provenance))
    {
      var requestId := RequestId(tool, intent, plan, provenance, staleNow, createdAt, freshId);
      Deny(requestId, RequiredCapabilities(tool, intent));
    }

    method RequestId(tool: string, intent: Intent, plan: string, provenance: Option<Provenance>,
                     staleNow: int, createdAt: int, freshId: string)
      returns (requestId: string)
      requires Valid() && freshId !in workflow.requests
      modifies workflow`requests, workflow`requestsByFingerprint
      ensures Valid() && KeepsTerminal(old(workflow.requests), workflow.requests)
      ensures IsPendingFor(workflow.requests, requestId,
                           Fingerprint(tool, intent, plan, RequiredCapabilities(tool, intent), provenance))
    {
      var request := workflow.RequestApproval(tool, intent, plan, provenance, staleNow, createdAt, freshId);
      requestId := request.id;
    }

    method Deny(requestId: string, required: seq<Capability>)
      requires Valid()
      modifies this`lastDenial
      ensures Valid() && lastDenial == Some(Denial("missing capability grant", requestId, required))
    {
      lastDenial := Some(Denial("missing capability grant", requestId, required));
    }

    method Spend(required: seq<Capability>, action: Action, now: int, readings: seq<Option<int>>) returns (allowed: bool)
      requires Valid() && required != [] && |readings| == |Distinct(required)|
      modifies this`passes, store
      ensures Valid()
      ensures allowed <==> forall c :: c in required ==> Usable(Live(EntriesIn(old(store.grants), c), now), ScopeOf(action))
      ensures passes == if allowed then old(passes) + [Pass(required[0], action)] else old(passes)
      ensures forall c :: store.AccountOf(c)
                          == if allowed then Consumed(Pruned(old(store.AccountOf(c)), now), c, Distinct(required), ScopeOf(action), readings)
                             else Pruned(old(store.AccountOf(c)), now)
    {
      ghost var first := Pruned(store.AccountOf(required[0]), now);
      assert store.AccountOk(required[0]);
      allowed := store.ConsumeRequired(required, ScopeOf(action), now, readings);
      FirstOfDistinct(required);
      if allowed {
        FirstPays(first, Distinct(required), ScopeOf(action), readings);
        assert (passes + [Pass(required[0], action)])[..|passes|] == passes;
        passes := passes + [Pass(required[0], action)];
      }
      forall c, s
        ensures Uses(store.AccountOf(c).issued, s) == Minted(workflow.approvals, c, s)
        ensures Passes(passes, c, s) <= Count(store.AccountOf(c).spent, s)
      {
        var a := Pruned(old(store.AccountOf(c)), now);
        ConsumptionKeepsIssued(a, c, Distinct(required), ScopeOf(action), readings);
        CountGrows(a.spent, Consumed(a, c, Distinct(required), ScopeOf(action), readings).spent, s);
        CountConcat(a.spent, [ScopeOf(action)], s);
        assert Uses(old(store.AccountOf(c)).issued, s) == Minted(workflow.approvals, c, s);
        assert Passes(old(passes), c, s) <= Count(old(store.AccountOf(c)).spent, s);
      }
    }
  }

  function EntriesIn(grants: map<Capability, seq<Grant>>, c: Capability): seq<Grant> {
    if c in grants then grants[c] else []
  }

  /** Every required capability has a grant of the call's scope that is unexpired and has a use left. */
  ghost predicate Covered(grants: map<Capability, seq<Grant>>, tool: string, intent: Intent, provenance: Option<Provenance>, now: int) {
    forall c :: c in RequiredCapabilities(tool, intent) ==>
                  Usable(Live(EntriesIn(grants, c), now), ScopeKey(tool, intent, provenance))
  }
}
