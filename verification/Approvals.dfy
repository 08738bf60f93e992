/** Approval requests, which mint capability grants, and the gate, which spends them. */
module Approvals {
  import opened Options
  import opened Capabilities

  datatype Intent = HighRiskTool | ReadOnly | Mutating | NetworkImpacting | PrivilegeImpacting

  datatype Provenance = System | Operator | Untrusted

  datatype Status = Pending | Approved | Denied | Expired

  datatype Request = Request(
    id: string,
    createdAt: int,
    updatedAt: int,
    status: Status,
    tool: string,
    intent: Intent,
    plan: string,
    required: seq<Capability>,
    provenance: Option<Provenance>,
    grants: seq<Grant>,
    deniedReason: Option<string>)

  const STALE_AFTER_MS := 24 * 60 * 60_000

  function RequiredCapabilities(tool: string, intent: Intent): seq<Capability> {
    if intent.HighRiskTool? then
      if tool == "exec" then [ProcessExec] else [HighRisk]
    else if tool == "web_fetch" || tool == "mcp_web_fetch" then [NetFetch]
    else if tool == "web_search" || tool == "mcp_web_search" then [NetFetch]
    else if tool == "gh_pr_write" then [ProcessExec, FsWrite, ProcessExecMutate]
    else if tool != "exec" then []
    else
      match intent
      case ReadOnly => []
      case NetworkImpacting => [ProcessExec, NetFetch]
      case Mutating => [ProcessExec, FsWrite, ProcessExecMutate]
      case _ => [ProcessExec, ProcessExecPrivileged]
  }

  function IntentName(intent: Intent): string {
    match intent
    case HighRiskTool => "high-risk-tool"
    case ReadOnly => "read-only"
    case Mutating => "mutating"
    case NetworkImpacting => "network-impacting"
    case PrivilegeImpacting => "privilege-impacting"
  }

  function ScopeKey(tool: string, intent: Intent, provenance: Option<Provenance>): string {
    var base := tool + ":" + IntentName(intent);
    if provenance == Some(Untrusted) then "untrusted:" + base else base
  }

  function CapabilityName(c: Capability): string {
    match c
    case HighRisk => "tool.high-risk"
    case NetFetch => "net.fetch"
    case FsWrite => "fs.write"
    case ProcessExec => "process.exec"
    case ProcessExecMutate => "process.exec.mutate"
    case ProcessExecPrivileged => "process.exec.privileged"
  }

  /** The position of a capability's name in string order. */
  function Rank(c: Capability): nat {
    match c
    case FsWrite => 0
    case NetFetch => 1
    case ProcessExec => 2
    case ProcessExecMutate => 3
    case ProcessExecPrivileged => 4
    case HighRisk => 5
  }

  function Insert(c: Capability, cs: seq<Capability>): seq<Capability> {
    if cs == [] || Rank(c) <= Rank(cs[0]) then [c] + cs else [cs[0]] + Insert(c, cs[1..])
  }

  function Sorted(cs: seq<Capability>): seq<Capability> {
    if cs == [] then [] else Insert(cs[0], Sorted(cs[1..]))
  }

  function JoinNames(cs: seq<Capability>): string {
    if cs == [] then "" else if |cs| == 1 then CapabilityName(cs[0]) else CapabilityName(cs[0]) + "," + JoinNames(cs[1..])
  }

  function ProvenanceName(p: Option<Provenance>): string {
    match p
    case None => ""
    case Some(System) => "system"
    case Some(Operator) => "operator"
    case Some(Untrusted) => "untrusted"
  }

  function Fingerprint(tool: string, intent: Intent, plan: string, required: seq<Capability>, p: Option<Provenance>): string {
    tool + "|" + IntentName(intent) + "|" + plan + "|" + JoinNames(Sorted(required)) + "|" + ProvenanceName(p)
  }

  function FingerprintOf(r: Request): string {
    Fingerprint(r.tool, r.intent, r.plan, RequiredCapabilities(r.tool, r.intent), r.provenance)
  }

  /** A pending request older than a day expires; nothing else changes. */
  function Refreshed(r: Request, now: int): Request {
    if r.status.Pending? && STALE_AFTER_MS < now - r.createdAt then r.(status := Expired, updatedAt := now) else r
  }

  // ---- What approvals have minted --------------------------------------------------------------------

  /** What a call does, and for whom. */
  datatype Action = Action(tool: string, intent: Intent, provenance: Option<Provenance>)

  function ScopeOf(a: Action): string {
    ScopeKey(a.tool, a.intent, a.provenance)
  }

  /** One approved request: what it was for, and how many uses it granted of each required capability. */
  datatype Approval = Approval(id: string, action: Action, required: seq<Capability>, uses: nat)

  function Times(cs: seq<Capability>, c: Capability): nat {
    if cs == [] then 0 else Times(cs[..|cs| - 1], c) + if cs[|cs| - 1] == c then 1 else 0
  }

  function MintedBy(a: Approval, c: Capability, scope: string): nat {
    if ScopeOf(a.action) == scope then Times(a.required, c) * a.uses else 0
  }

  function Minted(log: seq<Approval>, c: Capability, scope: string): nat {
    if log == [] then 0 else Minted(log[..|log| - 1], c, scope) + MintedBy(log[|log| - 1], c, scope)
  }

  predicate InLog(log: seq<Approval>, id: string) {
    exists i :: 0 <= i < |log| && log[i].id == id
  }

  // ---- The request table ------------------------------------------------------------------------------

  type Requests = map<string, Request>

  function RefreshAll(rs: Requests, now: int): Requests {
    map id | id in rs :: Refreshed(rs[id], now)
  }

  ghost predicate IsPendingFor(rs: Requests, id: string, fingerprint: string) {
    id in rs && rs[id].status.Pending? && FingerprintOf(rs[id]) == fingerprint
  }

  /** The index knows the one pending request of each fingerprint, and nothing false. */
  ghost predicate Indexed(rs: Requests, index: map<string, string>) {
    && (forall id | id in rs :: WellFormed(rs[id], id))
    && (forall id | id in rs && rs[id].status.Pending? :: FingerprintOf(rs[id]) in index && index[FingerprintOf(rs[id])] == id)
    && (forall f | f in index :: index[f] in rs && FingerprintOf(rs[index[f]]) == f)
  }

  predicate WellFormed(r: Request, id: string) {
    r.id == id && r.required == Sorted(RequiredCapabilities(r.tool, r.intent))
  }

  /** The approvals are those of the approved requests, one each. */
  ghost predicate Logged(rs: Requests, log: seq<Approval>) {
    && (forall i, j :: 0 <= i < j < |log| ==> log[i].id != log[j].id)
    && (forall id :: InLog(log, id) <==> id in rs && rs[id].status.Approved?)
  }

  /** Requests stay, and a request that is no longer pending stays as it is. */
  ghost predicate KeepsTerminal(before: Requests, after: Requests) {
    forall id | id in before :: id in after && (!before[id].status.Pending? ==> after[id] == before[id])
  }

  /** What was asked for does not change, and no request becomes pending again. */
  predicate Ages(r: Request, r': Request) {
    && r'.id == r.id && r'.tool == r.tool && r'.intent == r.intent && r'.plan == r.plan
    && r'.required == r.required && r'.provenance == r.provenance
    && (r'.status.Pending? ==> r.status.Pending?)
  }

  lemma AgingKeepsIndexed(rs: Requests, rs': Requests, index: map<string, string>)
    requires Indexed(rs, index) && rs'.Keys == rs.Keys && forall id | id in rs :: Ages(rs[id], rs'[id])
    ensures Indexed(rs', index)
  {
    forall id | id in rs
      ensures FingerprintOf(rs'[id]) == FingerprintOf(rs[id]) && WellFormed(rs'[id], id)
    {
      assert WellFormed(rs[id], id);
    }
  }

  lemma RefreshKeeps(rs: Requests, index: map<string, string>, log: seq<Approval>, now: int)
    requires Indexed(rs, index) && Logged(rs, log)
    ensures Indexed(RefreshAll(rs, now), index) && Logged(RefreshAll(rs, now), log)
    ensures KeepsTerminal(rs, RefreshAll(rs, now))
  {
    AgingKeepsIndexed(rs, RefreshAll(rs, now), index);
  }

  lemma AddKeeps(rs: Requests, index: map<string, string>, log: seq<Approval>, r: Request)
    requires Indexed(rs, index) && Logged(rs, log)
    requires r.id !in rs && WellFormed(r, r.id) && r.status.Pending?
    requires FingerprintOf(r) in index ==> !rs[index[FingerprintOf(r)]].status.Pending?
    ensures Indexed(rs[r.id := r], index[FingerprintOf(r) := r.id]) && Logged(rs[r.id := r], log)
  {
  }

  /** At most one pending request per fingerprint. */
  lemma PendingIsUnique(rs: Requests, index: map<string, string>, id1: string, id2: string, fingerprint: string)
    requires Indexed(rs, index) && IsPendingFor(rs, id1, fingerprint) && IsPendingFor(rs, id2, fingerprint)
    ensures id1 == id2
  {
    assert index[FingerprintOf(rs[id1])] == id1;
  }

  lemma IndexFindsPending(rs: Requests, index: map<string, string>, fingerprint: string)
    requires Indexed(rs, index)
    ensures (exists i :: IsPendingFor(rs, i, fingerprint))
            <==> fingerprint in index && IsPendingFor(rs, index[fingerprint], fingerprint)
  {
  }

  lemma RefreshThenAddKeepsTerminal(rs: Requests, now: int, r: Request)
    requires r.id !in rs
    ensures KeepsTerminal(rs, RefreshAll(rs, now)[r.id := r])
  {
  }

  datatype Decision = Approve | Deny

  datatype Resolution = NotFound | Resolved(request: Request)

  function AtLeastOne(uses: int): nat {
    if uses < 1 then 1 else uses
  }

  lemma OneMore(id: string, action: Action, required: seq<Capability>, i: nat, uses: nat, c: Capability, s: string)
    requires i < |required|
    ensures MintedBy(Approval(id, action, required[..i + 1], uses), c, s)
            == MintedBy(Approval(id, action, required[..i], uses), c, s) + if required[i] == c && ScopeOf(action) == s then uses else 0
  {
    var n := Times(required[..i], c);
    assert required[..i + 1][..i] == required[..i];
    assert Times(required[..i + 1], c) == n + if required[i] == c then 1 else 0;
    assert (n + 1) * uses == n * uses + uses;
  }

  /** A request that was pending and is now denied or expired. */
  lemma SettleKeeps(rs: Requests, index: map<string, string>, log: seq<Approval>, r: Request)
    requires Indexed(rs, index) && Logged(rs, log)
    requires r.id in rs && Ages(rs[r.id], r) && rs[r.id].status.Pending? && !r.status.Approved?
    ensures Indexed(rs[r.id := r], index) && Logged(rs[r.id := r], log) && KeepsTerminal(rs, rs[r.id := r])
  {
    AgingKeepsIndexed(rs, rs[r.id := r], index);
  }

  /** A request that was pending and is now approved, with its approval. */
  lemma ApproveKeeps(rs: Requests, index: map<string, string>, log: seq<Approval>, r: Request, a: Approval)
    requires Indexed(rs, index) && Logged(rs, log)
    requires r.id in rs && Ages(rs[r.id], r) && rs[r.id].status.Pending? && r.status.Approved? && a.id == r.id
    ensures Indexed(rs[r.id := r], index) && Logged(rs[r.id := r], log + [a]) && KeepsTerminal(rs, rs[r.id := r])
  {
    AgingKeepsIndexed(rs, rs[r.id := r], index);
    assert !InLog(log, r.id);
    forall id
      ensures InLog(log + [a], id) <==> InLog(log, id) || id == a.id
    {
      assert (log + [a])[|log|] == a;
      if InLog(log, id) {
        var i :| 0 <= i < |log| && log[i].id == id;
        assert (log + [a])[i].id == id;
      }
    }
    forall i, j | 0 <= i < j < |log + [a]|
      ensures (log + [a])[i].id != (log + [a])[j].id
    {
      if j == |log| {
        assert InLog(log, log[i].id);
      }
    }
  }

  function ApprovalOf(r: Request, uses: nat): Approval {
    Approval(r.id, Action(r.tool, r.intent, r.provenance), r.required, uses)
  }

  lemma TerminalTwice(a: Requests, b: Requests, c: Requests)
    requires KeepsTerminal(a, b) && KeepsTerminal(b, c)
    requires forall id | id in a && !a[id].status.Pending? :: id in b && !b[id].status.Pending?
    ensures KeepsTerminal(a, c)
  {
  }

  ghost predicate GrantsMatch(r: Request, ttlMs: int, uses: int, clock: nat -> (int, Option<int>)) {
    && |r.grants| == |r.required|
    && forall i :: 0 <= i < |r.required| ==>
         r.grants[i] == Grant(r.required[i], ScopeKey(r.tool, r.intent, r.provenance), clock(i).0 + ttlMs, AtLeastOne(uses))
  }

  class ApprovalWorkflow {
    const store: CapabilityStore
    const defaultGrantTtlMs: int
    const defaultGrantUses: int
    var requests: Requests
    var requestsByFingerprint: map<string, string>
    ghost var approvals: seq<Approval>

    /** The approvals account for every use the store ever issued. */
    ghost predicate Accounted()
      reads this, store
    {
      forall c, scope :: Uses(store.AccountOf(c).issued, scope) == Minted(approvals, c, scope)
    }

    ghost predicate Valid()
      reads this, store
    {
      store.Valid() && Indexed(requests, requestsByFingerprint) && Logged(requests, approvals) && Accounted()
    }

    constructor (store: CapabilityStore, ttlMs: int, uses: int)
      requires store.Valid() && forall c :: store.AccountOf(c) == Account([], [], [], [])
      ensures Valid() && this.store == store && requests == map[] && approvals == []
    {
      this.store, defaultGrantTtlMs, defaultGrantUses := store, ttlMs, uses;
      requests, requestsByFingerprint, approvals := map[], map[], [];
    }

    method ExpireStaleRequests(now: int)
      modifies this`requests
      ensures requests == RefreshAll(old(requests), now)
    {
      var ids := requests.Keys;
      while ids != {}
        invariant ids <= requests.Keys == old(requests).Keys
        invariant forall id | id in requests :: requests[id] == if id in ids then old(requests)[id] else Refreshed(old(requests)[id], now)
        decreases ids
      {
        var id :| id in ids;
        var request := requests[id];
        if request.status.Pending? {
          var ageMs := now - request.createdAt;
          if ageMs > STALE_AFTER_MS {
            requests := requests[id := request.(status := Expired, updatedAt := now)];
          }
        }
        ids := ids - {id};
      }
    }

    /** The pending request of the input's fingerprint: the one there is, or a new one under a fresh id. */
    method RequestApproval(tool: string, intent: Intent, plan: string, provenance: Option<Provenance>,
                           staleNow: int, now: int, id: string)
      returns (r: Request)
      requires Valid() && id !in requests
      modifies this`requests, this`requestsByFingerprint
      ensures Valid() && KeepsTerminal(old(requests), requests)
      ensures var required := RequiredCapabilities(tool, intent); var before := RefreshAll(old(requests), staleNow);
        var fingerprint := Fingerprint(tool, intent, plan, required, provenance);
        && IsPendingFor(requests, r.id, fingerprint) && requests[r.id] == r
        && (if exists i :: IsPendingFor(before, i, fingerprint) then requests == before
            else requests == before[id := Request(id, now, now, Pending, tool, intent, plan, Sorted(required), provenance, [], None)] && r.id == id)
    {
      ExpireStaleRequests(staleNow);
      RefreshKeeps(old(requests), requestsByFingerprint, approvals, staleNow);
      var required := RequiredCapabilities(tool, intent);
      var fingerprint := Fingerprint(tool, intent, plan, required, provenance);
      IndexFindsPending(requests, requestsByFingerprint, fingerprint);
      if fingerprint in requestsByFingerprint {
        var existingId := requestsByFingerprint[fingerprint];
        if existingId in requests && requests[existingId].status.Pending? {
          return requests[existingId];
        }
      }
      r := Request(id, now, now, Pending, tool, intent, plan, Sorted(required), provenance, [], None);
      Add(r, fingerprint);
      RefreshThenAddKeepsTerminal(old(requests), staleNow, r);
    }

    method Add(r: Request, fingerprint: string)
      requires Valid() && r.id !in requests && WellFormed(r, r.id) && r.status.Pending? && FingerprintOf(r) == fingerprint
      requires fingerprint in requestsByFingerprint ==> !requests[requestsByFingerprint[fingerprint]].status.Pending?
      modifies this`requests, this`requestsByFingerprint
      ensures Valid() && requests == old(requests)[r.id := r]
    {
      AddKeeps(requests, requestsByFingerprint, approvals, r);
      requests := requests[r.id := r];
      requestsByFingerprint := requestsByFingerprint[fingerprint := r.id];
    }

    /** One grant per required capability, in order. `clock(i)` is the time of the i-th grant and what its
      * persist reads. */
    method MintAll(ghost id: string, action: Action, required: seq<Capability>, ttlMs: int, uses: int,
                   clock: nat -> (int, Option<int>))
      returns (grants: seq<Grant>)
      requires store.Valid()
      modifies store
      ensures store.Valid()
      ensures |grants| == |required|
      ensures forall i :: 0 <= i < |required| ==> grants[i] == Grant(required[i], ScopeOf(action), clock(i).0 + ttlMs, AtLeastOne(uses))
      ensures forall c, s :: Uses(store.AccountOf(c).issued, s)
                             == Uses(old(store.AccountOf(c)).issued, s) + MintedBy(Approval(id, action, required, AtLeastOne(uses)), c, s)
      ensures forall c :: store.AccountOf(c).spent == old(store.AccountOf(c)).spent
    {
      hide Uses, ScopeKey, AtLeastOne;
      grants := [];
      for i := 0 to |required|
        invariant store.Valid() && |grants| == i
        invariant forall j :: 0 <= j < i ==> grants[j] == Grant(required[j], ScopeOf(action), clock(j).0 + ttlMs, AtLeastOne(uses))
        invariant forall c, s :: Uses(store.AccountOf(c).issued, s)
                                 == Uses(old(store.AccountOf(c)).issued, s) + MintedBy(Approval(id, action, required[..i], AtLeastOne(uses)), c, s)
        invariant forall c :: store.AccountOf(c).spent == old(store.AccountOf(c)).spent
      {
        var g := MintOne(id, action, required, i, ttlMs, uses, clock(i).0, clock(i).1);
        grants := grants + [g];
      }
      assert required[..|required|] == required;
    }

    method MintOne(ghost id: string, action: Action, required: seq<Capability>, i: nat, ttlMs: int, uses: int, now: int, reading: Option<int>)
      returns (g: Grant)
      requires store.Valid() && i < |required|
      modifies store
      ensures store.Valid()
      ensures g == Grant(required[i], ScopeOf(action), now + ttlMs, AtLeastOne(uses))
      ensures forall c, s :: Uses(store.AccountOf(c).issued, s) - MintedBy(Approval(id, action, required[..i + 1], AtLeastOne(uses)), c, s)
                             == Uses(old(store.AccountOf(c)).issued, s) - MintedBy(Approval(id, action, required[..i], AtLeastOne(uses)), c, s)
      ensures forall c :: store.AccountOf(c).spent == old(store.AccountOf(c)).spent
    {
      g := store.IssueGrant(required[i], ScopeOf(action), ttlMs, uses, now, reading);
      forall c, s
        ensures Uses(store.AccountOf(c).issued, s) - MintedBy(Approval(id, action, required[..i + 1], AtLeastOne(uses)), c, s)
                == Uses(old(store.AccountOf(c)).issued, s) - MintedBy(Approval(id, action, required[..i], AtLeastOne(uses)), c, s)
      {
        UsesConcat(old(store.AccountOf(c)).issued, [g], s);
        OneMore(id, action, required, i, AtLeastOne(uses), c, s);
      }
    }

    /** Approve or deny a pending request; anything else leaves grants and approvals alone. Only an approval
      * mints, once, one grant per required capability. */
    method Resolve(requestId: string, decision: Decision, reason: Option<string>, grantTtlMs: Option<int>, grantUses: Option<int>,
                   staleNow: int, now: int, clock: nat -> (int, Option<int>))
      returns (r: Resolution)
      requires Valid()
      modifies this`requests, this`approvals, store
      ensures Valid() && KeepsTerminal(old(requests), requests)
      ensures forall c :: store.AccountOf(c).spent == old(store.AccountOf(c)).spent
      ensures var before := RefreshAll(old(requests), staleNow);
        if requestId !in before then r == NotFound && requests == before && approvals == old(approvals)
        else if !before[requestId].status.Pending? then
          r == Resolved(before[requestId]) && requests == before && approvals == old(approvals)
        else
          && r.Resolved? && Ages(before[requestId], r.request) && requests == before[requestId := r.request]
          && (if decision.Deny? then r.request.status.Denied? && approvals == old(approvals)
              else
                && r.request.status.Approved?
                && approvals == old(approvals) + [ApprovalOf(before[requestId], AtLeastOne(
                                                    if grantUses.Some? then grantUses.value else defaultGrantUses))])
      ensures approvals == old(approvals) ==> forall c :: store.AccountOf(c) == old(store.AccountOf(c))
      ensures approvals != old(approvals) ==>
                GrantsMatch(r.request, if grantTtlMs.Some? then grantTtlMs.value else defaultGrantTtlMs,
                            if grantUses.Some? then grantUses.value else defaultGrantUses, clock)
    {
      ExpireStaleRequests(staleNow);
      RefreshKeeps(old(requests), requestsByFingerprint, approvals, staleNow);
      if requestId !in requests {
        return NotFound;
      }
      var request := requests[requestId];
      if !request.status.Pending? {
        return Resolved(request);
      }
      if decision.Deny? {
        request := DenyRequest(request, reason, now);
      } else {
        var ttlMs := if grantTtlMs.Some? then grantTtlMs.value else defaultGrantTtlMs;
        var uses := if grantUses.Some? then grantUses.value else defaultGrantUses;
        request := ApproveRequest(request, ttlMs, uses, now, clock);
      }
      TerminalTwice(old(requests), RefreshAll(old(requests), staleNow), requests);
      return Resolved(request);
    }

    method DenyRequest(request: Request, reason: Option<string>, now: int) returns (r: Request)
      requires Valid() && request.id in requests && requests[request.id] == request && request.status.Pending?
      modifies this`requests
      ensures Valid() && KeepsTerminal(old(requests), requests)
      ensures r == request.(updatedAt := now, status := Denied, deniedReason := if reason.Some? then reason else Some("denied"))
      ensures requests == old(requests)[request.id := r]
    {
      r := request.(updatedAt := now, status := Denied, deniedReason := if reason.Some? then reason else Some("denied"));
      SettleKeeps(requests, requestsByFingerprint, approvals, r);
      requests := requests[request.id := r];
    }

    method ApproveRequest(request: Request, ttlMs: int, uses: int, now: int, clock: nat -> (int, Option<int>)) returns (r: Request)
      requires Valid() && request.id in requests && requests[request.id] == request && request.status.Pending?
      modifies this`requests, this`approvals, store
      ensures Valid() && KeepsTerminal(old(requests), requests)
      ensures forall c :: store.AccountOf(c).spent == old(store.AccountOf(c)).spent
      ensures r == request.(updatedAt := now, status := Approved, grants := r.grants) && GrantsMatch(r, ttlMs, uses, clock)
      ensures requests == old(requests)[request.id := r]
      ensures approvals == old(approvals) + [ApprovalOf(request, AtLeastOne(uses))]
    {
      var grants := MintAll(request.id, Action(request.tool, request.intent, request.provenance), request.required, ttlMs, uses, clock);
      r := request.(updatedAt := now, status := Approved, grants := grants);
      ghost var approval := ApprovalOf(request, AtLeastOne(uses));
      assert (approvals + [approval])[..|approvals|] == approvals;
      RecordApproval(r, approval);
    }

    /** The store has minted for this approval already. */
    method RecordApproval(r: Request, ghost approval: Approval)
      requires store.Valid() && Indexed(requests, requestsByFingerprint) && Logged(requests, approvals)
      requires forall c, scope :: Uses(store.AccountOf(c).issued, scope) == Minted(approvals + [approval], c, scope)
      requires r.id in requests && requests[r.id].status.Pending? && Ages(requests[r.id], r) && r.status.Approved? && approval.id == r.id
      modifies this`requests, this`approvals
      ensures Valid() && KeepsTerminal(old(requests), requests)
      ensures requests == old(requests)[r.id := r] && approvals == old(approvals) + [approval]
    {
      ApproveKeeps(requests, requestsByFingerprint, approvals, r, approval);
      requests := requests[r.id := r];
      approvals := approvals + [approval];
    }
  }
}
