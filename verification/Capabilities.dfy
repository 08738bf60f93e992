/** The capability ledger: grants with uses, scope and expiry, one account per capability. */
module Capabilities {
  import opened Options

  datatype Capability = HighRisk | NetFetch | FsWrite | ProcessExec | ProcessExecMutate | ProcessExecPrivileged

  datatype Grant = Grant(capability: Capability, scope: string, expiresAt: int, usesRemaining: nat)

  /** The grants stored for a capability, and its history: grants as issued, the scope of each use
    * spent, and the grants removed because they expired, with the uses they had left. */
  datatype Account = Account(entries: seq<Grant>, issued: seq<Grant>, spent: seq<string>, lapsed: seq<Grant>)

  // ---- What happens to one account --------------------------------------------------------------------

  predicate IsLive(g: Grant, now: int) {
    now < g.expiresAt && 0 < g.usesRemaining
  }

  function Live(entries: seq<Grant>, now: int): seq<Grant> {
    if entries == [] then []
    else (if IsLive(entries[0], now) then [entries[0]] else []) + Live(entries[1..], now)
  }

  function Expired(entries: seq<Grant>, now: int): seq<Grant> {
    if entries == [] then []
    else (if IsLive(entries[0], now) then [] else [entries[0]]) + Expired(entries[1..], now)
  }

  function Pruned(a: Account, now: int): Account {
    a.(entries := Live(a.entries, now), lapsed := a.lapsed + Expired(a.entries, now))
  }

  /** `persist` prunes with a clock reading of its own, when a state directory is set. */
  function PersistPruned(a: Account, reading: Option<int>): Account {
    if reading.Some? then Pruned(a, reading.value) else a
  }

  function Issued(a: Account, g: Grant): Account {
    a.(entries := a.entries + [g], issued := a.issued + [g])
  }

  predicate IsUsable(g: Grant, scope: string) {
    g.scope == scope && 0 < g.usesRemaining
  }

  ghost predicate Usable(entries: seq<Grant>, scope: string) {
    exists i :: 0 <= i < |entries| && IsUsable(entries[i], scope)
  }

  /** The first usable grant loses one use, and goes when it was the last. */
  function WithoutOne(entries: seq<Grant>, scope: string): seq<Grant> {
    if entries == [] then []
    else if IsUsable(entries[0], scope) then
      var g := entries[0].(usesRemaining := entries[0].usesRemaining - 1);
      (if g.usesRemaining > 0 then [g] else []) + Remaining(entries[1..])
    else (if entries[0].usesRemaining > 0 then [entries[0]] else []) + WithoutOne(entries[1..], scope)
  }

  function Remaining(entries: seq<Grant>): seq<Grant> {
    if entries == [] then []
    else (if entries[0].usesRemaining > 0 then [entries[0]] else []) + Remaining(entries[1..])
  }

  lemma RemainingFrom(entries: seq<Grant>, k: nat)
    requires k < |entries|
    ensures Remaining(entries[k..])
            == if entries[k].usesRemaining > 0 then [entries[k]] + Remaining(entries[k + 1..]) else Remaining(entries[k + 1..])
  {
    assert entries[k..][1..] == entries[k + 1..];
  }

  ghost function SpentOne(a: Account, scope: string): Account {
    a.(entries := WithoutOne(a.entries, scope), spent := if Usable(a.entries, scope) then a.spent + [scope] else a.spent)
  }

  // ---- Conservation --------------------------------------------------------------------------------------

  function Uses(gs: seq<Grant>, scope: string): nat {
    if gs == [] then 0 else (if gs[0].scope == scope then gs[0].usesRemaining else 0) + Uses(gs[1..], scope)
  }

  function Count(scopes: seq<string>, scope: string): nat {
    if scopes == [] then 0 else (if scopes[0] == scope then 1 else 0) + Count(scopes[1..], scope)
  }

  /** Every use issued has been spent, is still there, or lapsed when its grant expired. */
  ghost predicate Balanced(a: Account, scope: string) {
    Uses(a.issued, scope) == Count(a.spent, scope) + Uses(a.entries, scope) + Uses(a.lapsed, scope)
  }

  lemma {:induction false} UsesConcat(a: seq<Grant>, b: seq<Grant>, scope: string)
    ensures Uses(a + b, scope) == Uses(a, scope) + Uses(b, scope)
  {
    if a == [] {
      assert a + b == b;
    } else {
      assert (a + b)[1..] == a[1..] + b;
      UsesConcat(a[1..], b, scope);
    }
  }

  lemma {:induction false} CountConcat(a: seq<string>, b: seq<string>, scope: string)
    ensures Count(a + b, scope) == Count(a, scope) + Count(b, scope)
  {
    if a == [] {
      assert a + b == b;
    } else {
      assert (a + b)[1..] == a[1..] + b;
      CountConcat(a[1..], b, scope);
    }
  }

  lemma {:induction false} PruneSplitsUses(entries: seq<Grant>, now: int, scope: string)
    ensures Uses(entries, scope) == Uses(Live(entries, now), scope) + Uses(Expired(entries, now), scope)
  {
    if entries != [] {
      PruneSplitsUses(entries[1..], now, scope);
      UsesConcat(if IsLive(entries[0], now) then [entries[0]] else [], Live(entries[1..], now), scope);
      UsesConcat(if IsLive(entries[0], now) then [] else [entries[0]], Expired(entries[1..], now), scope);
    }
  }

  lemma PruneKeepsBalance(a: Account, now: int, scope: string)
    requires Balanced(a, scope)
    ensures Balanced(Pruned(a, now), scope)
  {
    PruneSplitsUses(a.entries, now, scope);
    UsesConcat(a.lapsed, Expired(a.entries, now), scope);
  }

  ghost predicate AllBalanced(a: Account) {
    forall scope :: Balanced(a, scope)
  }

  lemma PruneKeepsAll(a: Account, now: int)
    requires AllBalanced(a)
    ensures AllBalanced(Pruned(a, now))
  {
    forall scope ensures Balanced(Pruned(a, now), scope) {
      PruneKeepsBalance(a, now, scope);
    }
  }

  lemma IssueKeepsBalance(a: Account, g: Grant, scope: string)
    requires Balanced(a, scope)
    ensures Balanced(Issued(a, g), scope)
  {
    UsesConcat(a.entries, [g], scope);
    UsesConcat(a.issued, [g], scope);
  }

  lemma {:induction false} RemainingKeepsUses(entries: seq<Grant>, scope: string)
    ensures Uses(Remaining(entries), scope) == Uses(entries, scope)
  {
    if entries != [] {
      RemainingKeepsUses(entries[1..], scope);
      UsesConcat(if entries[0].usesRemaining > 0 then [entries[0]] else [], Remaining(entries[1..]), scope);
    }
  }

  /** Spending takes one use of its own scope when there is one, and nothing else. */
  lemma {:induction false} SpendTakesOneUse(entries: seq<Grant>, scope: string, other: string)
    ensures Uses(WithoutOne(entries, scope), other)
            == Uses(entries, other) - if other == scope && Usable(entries, scope) then 1 else 0
  {
    if entries != [] {
      var g := entries[0];
      if IsUsable(g, scope) {
        assert Usable(entries, scope);
        var left := g.(usesRemaining := g.usesRemaining - 1);
        RemainingKeepsUses(entries[1..], other);
        UsesConcat(if left.usesRemaining > 0 then [left] else [], Remaining(entries[1..]), other);
      } else {
        SpendTakesOneUse(entries[1..], scope, other);
        UsableTail(entries, scope);
        UsesConcat(if g.usesRemaining > 0 then [g] else [], WithoutOne(entries[1..], scope), other);
      }
    }
  }

  lemma UsableTail(entries: seq<Grant>, scope: string)
    requires entries != []
    ensures Usable(entries, scope) <==> IsUsable(entries[0], scope) || Usable(entries[1..], scope)
  {
    if Usable(entries[1..], scope) {
      var i :| 0 <= i < |entries[1..]| && IsUsable(entries[1..][i], scope);
      assert IsUsable(entries[i + 1], scope);
    }
    if Usable(entries, scope) && !IsUsable(entries[0], scope) {
      var i :| 0 <= i < |entries| && IsUsable(entries[i], scope);
      assert IsUsable(entries[1..][i - 1], scope);
    }
  }

  lemma SpendKeepsBalance(a: Account, scope: string, other: string)
    requires Balanced(a, other)
    ensures Balanced(SpentOne(a, scope), other)
  {
    SpendTakesOneUse(a.entries, scope, other);
    CountConcat(a.spent, [scope], other);
    if other == scope && Usable(a.entries, scope) {
      UsableHasUses(a.entries, scope);
    }
  }

  lemma SpendKeepsAll(a: Account, scope: string)
    requires AllBalanced(a)
    ensures AllBalanced(SpentOne(a, scope))
  {
    forall other ensures Balanced(SpentOne(a, scope), other) {
      SpendKeepsBalance(a, scope, other);
    }
  }

  lemma IssueKeepsAll(a: Account, g: Grant)
    requires AllBalanced(a)
    ensures AllBalanced(Issued(a, g))
  {
    forall scope ensures Balanced(Issued(a, g), scope) {
      IssueKeepsBalance(a, g, scope);
    }
  }

  lemma {:induction false} UsableHasUses(entries: seq<Grant>, scope: string)
    ensures Usable(entries, scope) <==> Uses(entries, scope) > 0
  {
    if entries != [] {
      UsableTail(entries, scope);
      UsableHasUses(entries[1..], scope);
    }
  }

  // ---- One consumption, as an account sees it ---------------------------------------------------------------

  /** The consumption loop from the point where `required` is left, with the clock readings of its persists. */
  ghost function Consumed(a: Account, c: Capability, required: seq<Capability>, scope: string, readings: seq<Option<int>>): Account
    requires |readings| == |required|
    decreases |required|
  {
    if required == [] then a
    else
      var spent := if c == required[0] then SpentOne(a, scope) else a;
      Consumed(PersistPruned(spent, readings[0]), c, required[1..], scope, readings[1..])
  }

  lemma PersistKeepsBalance(a: Account, reading: Option<int>, scope: string)
    requires Balanced(a, scope)
    ensures Balanced(PersistPruned(a, reading), scope)
  {
    if reading.Some? {
      PruneKeepsBalance(a, reading.value, scope);
    }
  }

  lemma {:induction false} ConsumptionKeepsBalance(a: Account, c: Capability, required: seq<Capability>, scope: string,
                                                   readings: seq<Option<int>>, other: string)
    requires |readings| == |required| && Balanced(a, other)
    ensures Balanced(Consumed(a, c, required, scope, readings), other)
    decreases |required|
  {
    if required != [] {
      SpendKeepsBalance(a, scope, other);
      var spent := if c == required[0] then SpentOne(a, scope) else a;
      PersistKeepsBalance(spent, readings[0], other);
      ConsumptionKeepsBalance(PersistPruned(spent, readings[0]), c, required[1..], scope, readings[1..], other);
    }
  }

  /** Some grant of the scope is usable now and unexpired at each of these readings. */
  ghost predicate Outlives(entries: seq<Grant>, scope: string, readings: seq<Option<int>>) {
    exists i :: 0 <= i < |entries| && IsUsable(entries[i], scope) && Unexpired(entries[i], readings)
  }

  ghost predicate Unexpired(g: Grant, readings: seq<Option<int>>) {
    forall j :: 0 <= j < |readings| && readings[j].Some? ==> readings[j].value < g.expiresAt
  }

  lemma {:induction false} LiveIn(entries: seq<Grant>, now: int, g: Grant)
    ensures g in Live(entries, now) <==> g in entries && IsLive(g, now)
  {
    if entries != [] {
      LiveIn(entries[1..], now, g);
      assert entries == [entries[0]] + entries[1..];
    }
  }

  lemma OutlivesPersist(a: Account, scope: string, reading: Option<int>, readings: seq<Option<int>>)
    ensures Outlives(PersistPruned(a, reading).entries, scope, readings) <==> Outlives(a.entries, scope, [reading] + readings)
  {
    var kept := PersistPruned(a, reading).entries;
    var all := [reading] + readings;
    if Outlives(kept, scope, readings) {
      var i :| 0 <= i < |kept| && IsUsable(kept[i], scope) && Unexpired(kept[i], readings);
      if reading.Some? {
        LiveIn(a.entries, reading.value, kept[i]);
      }
      var k :| 0 <= k < |a.entries| && a.entries[k] == kept[i];
      assert forall j :: 0 < j < |all| ==> all[j] == readings[j - 1];
      assert Unexpired(a.entries[k], all);
    }
    if Outlives(a.entries, scope, all) {
      var i :| 0 <= i < |a.entries| && IsUsable(a.entries[i], scope) && Unexpired(a.entries[i], all);
      assert all[0] == reading;
      if reading.Some? {
        LiveIn(a.entries, reading.value, a.entries[i]);
      }
      var k :| 0 <= k < |kept| && kept[k] == a.entries[i];
      assert forall j :: 0 <= j < |readings| ==> readings[j] == all[j + 1];
      assert Unexpired(kept[k], readings);
    }
  }

  /** Exactly when a required capability pays: its turn takes one use if and only if some grant of the
    * scope is still unexpired at every clock reading before that turn. */
  lemma {:induction false} PaysExactlyIfItOutlives(a: Account, c: Capability, required: seq<Capability>, scope: string,
                                                   readings: seq<Option<int>>, turn: nat)
    requires |readings| == |required| && turn < |required| && required[turn] == c
    requires forall i :: 0 <= i < |required| && required[i] == c ==> i == turn
    ensures Consumed(a, c, required, scope, readings).spent
            == if Outlives(a.entries, scope, readings[..turn]) then a.spent + [scope] else a.spent
    decreases |required|
  {
    var spent := if c == required[0] then SpentOne(a, scope) else a;
    var next := PersistPruned(spent, readings[0]);
    if turn == 0 {
      NotRequiredKeepsSpent(next, c, required[1..], scope, readings[1..]);
      assert Usable(a.entries, scope) <==> Outlives(a.entries, scope, []);
      assert readings[..0] == [];
    } else {
      PaysExactlyIfItOutlives(next, c, required[1..], scope, readings[1..], turn - 1);
      OutlivesPersist(a, scope, readings[0], readings[1..][..turn - 1]);
      assert [readings[0]] + readings[1..][..turn - 1] == readings[..turn];
    }
  }

  /** With the clock frozen during the consumption, every required capability that was usable pays one use. */
  lemma FrozenClockPaysAll(a: Account, c: Capability, required: seq<Capability>, scope: string, now: int,
                           readings: seq<Option<int>>, turn: nat)
    requires |readings| == |required| && turn < |required| && required[turn] == c
    requires forall i :: 0 <= i < |required| && required[i] == c ==> i == turn
    requires forall i :: 0 <= i < |readings| && readings[i].Some? ==> readings[i].value <= now
    requires Usable(Pruned(a, now).entries, scope)
    ensures Consumed(Pruned(a, now), c, required, scope, readings).spent == a.spent + [scope]
  {
    PaysExactlyIfItOutlives(Pruned(a, now), c, required, scope, readings, turn);
    var entries := Pruned(a, now).entries;
    var i :| 0 <= i < |entries| && IsUsable(entries[i], scope);
    LiveIn(a.entries, now, entries[i]);
    assert Unexpired(entries[i], readings[..turn]);
  }

  /** When persist reads a later clock, a capability can be checked and yet not pay. */
  lemma LaterClockSkipsPayment()
    ensures var a := Account([Grant(FsWrite, "s", 10, 1)], [Grant(FsWrite, "s", 10, 1)], [], []);
            && Usable(Pruned(a, 9).entries, "s")
            && Consumed(Pruned(a, 9), FsWrite, [ProcessExec, FsWrite], "s", [Some(10), Some(10)]).spent == []
  {
    var g := Grant(FsWrite, "s", 10, 1);
    var a := Account([g], [g], [], []);
    assert Live([g], 9) == [g] + Live([], 9);
    assert Pruned(a, 9).entries[0] == g;
    var required := [ProcessExec, FsWrite];
    var readings := [Some(10), Some(10)];
    PaysExactlyIfItOutlives(Pruned(a, 9), FsWrite, required, "s", readings, 1);
    assert !Unexpired(g, readings[..1]) by { assert readings[..1][0] == Some(10); }
  }

  lemma {:induction false} NotRequiredKeepsSpent(a: Account, c: Capability, required: seq<Capability>, scope: string,
                                                 readings: seq<Option<int>>)
    requires |readings| == |required| && c !in required
    ensures Consumed(a, c, required, scope, readings).spent == a.spent
    decreases |required|
  {
    if required != [] {
      NotRequiredKeepsSpent(PersistPruned(a, readings[0]), c, required[1..], scope, readings[1..]);
    }
  }

  // ---- The store -------------------------------------------------------------------------------------------

  /** Without repetitions, in order of first occurrence. */
  function Distinct(cs: seq<Capability>): (ds: seq<Capability>)
    ensures forall c :: c in ds <==> c in cs
    ensures forall i, j :: 0 <= i < j < |ds| ==> ds[i] != ds[j]
  {
    if cs == [] then []
    else
      var n := |cs| - 1;
      Distinct(cs[..n]) + if cs[n] in cs[..n] then [] else [cs[n]]
  }

  class CapabilityStore {
    var grants: map<Capability, seq<Grant>>
    ghost var book: map<Capability, Account>

    function EntriesOf(c: Capability): seq<Grant>
      reads this
    {
      if c in grants then grants[c] else []
    }

    ghost function AccountOf(c: Capability): Account
      reads this
    {
      if c in book then book[c] else Account([], [], [], [])
    }

    /** The stored grants are those of the accounts, and every account balances for every scope. */
    ghost predicate Valid()
      reads this
    {
      forall c :: AccountOk(c)
    }

    ghost predicate AccountOk(c: Capability)
      reads this
    {
      AccountOf(c).entries == EntriesOf(c) && AllBalanced(AccountOf(c))
    }

    constructor ()
      ensures Valid() && forall c :: AccountOf(c) == Account([], [], [], [])
    {
      grants, book := map[], map[];
    }

    /** Drop every entry that is expired or used up. */
    method PruneExpired(now: int)
      requires Valid()
      modifies this
      ensures Valid()
      ensures forall c :: AccountOf(c) == Pruned(old(AccountOf(c)), now)
    {
      var keys := grants.Keys;
      while keys != {}
        invariant keys <= grants.Keys && book == old(book)
        invariant forall c :: EntriesOf(c) == if c in keys then old(EntriesOf(c)) else Live(old(EntriesOf(c)), now)
        decreases keys
      {
        var c :| c in keys;
        var filtered := FilterLive(grants[c], now);
        grants := grants[c := filtered];
        keys := keys - {c};
      }
      book := map c | c in book :: Pruned(book[c], now);
      forall c
        ensures AccountOf(c) == Pruned(old(AccountOf(c)), now) && AccountOk(c)
      {
        assert old(AccountOk(c));
        PruneKeepsAll(old(AccountOf(c)), now);
      }
    }

    static method FilterLive(entries: seq<Grant>, now: int) returns (kept: seq<Grant>)
      ensures kept == Live(entries, now)
    {
      kept := [];
      for i := 0 to |entries|
        invariant kept + Live(entries[i..], now) == Live(entries, now)
      {
        assert entries[i..][1..] == entries[i + 1..];
        if IsLive(entries[i], now) {
          kept := kept + [entries[i]];
        }
      }
    }

    /** `persist` lists the active grants, with a clock reading of its own, when there is a state directory. */
    method Persist(reading: Option<int>)
      requires Valid()
      modifies this
      ensures Valid()
      ensures forall c :: AccountOf(c) == PersistPruned(old(AccountOf(c)), reading)
    {
      if reading.Some? {
        PruneExpired(reading.value);
      }
    }

    /** One capability's entries are replaced, and its account says why. */
    method SetEntries(capability: Capability, entries: seq<Grant>, ghost account: Account)
      requires Valid() && account.entries == entries && AllBalanced(account)
      modifies this
      ensures Valid()
      ensures forall c :: AccountOf(c) == if c == capability then account else old(AccountOf(c))
    {
      grants := grants[capability := entries];
      book := book[capability := account];
      forall c
        ensures AccountOk(c)
      {
        assert old(AccountOk(c));
      }
    }

    method IssueGrant(capability: Capability, scope: string, ttlMs: int, uses: int, now: int, reading: Option<int>)
      returns (g: Grant)
      requires Valid()
      modifies this
      ensures Valid()
      ensures g == Grant(capability, scope, now + ttlMs, if uses < 1 then 1 else uses)
      ensures forall c :: AccountOf(c)
                          == PersistPruned(if c == capability then Issued(old(AccountOf(c)), g) else old(AccountOf(c)), reading)
    {
      g := Grant(capability, scope, now + ttlMs, if uses < 1 then 1 else uses);
      assert AccountOk(capability);
      IssueKeepsAll(AccountOf(capability), g);
      SetEntries(capability, EntriesOf(capability) + [g], Issued(AccountOf(capability), g));
      Persist(reading);
    }

    /** One use of one usable grant of the scope, if there is one. */
    method ConsumeOne(capability: Capability, scope: string, reading: Option<int>)
      requires Valid()
      modifies this
      ensures Valid()
      ensures forall c :: AccountOf(c)
                          == PersistPruned(if c == capability then SpentOne(old(AccountOf(c)), scope) else old(AccountOf(c)), reading)
    {
      assert AccountOk(capability);
      var kept := TakeUse(EntriesOf(capability), scope);
      SpendKeepsAll(AccountOf(capability), scope);
      SetEntries(capability, kept, SpentOne(AccountOf(capability), scope));
      Persist(reading);
    }

    /** Decrement the first usable entry in place, then filter out the used-up ones. */
    static method TakeUse(entries0: seq<Grant>, scope: string) returns (kept: seq<Grant>)
      ensures kept == WithoutOne(entries0, scope)
    {
      var entries := entries0;
      var i := 0;
      while i < |entries| && !IsUsable(entries[i], scope)
        invariant 0 <= i <= |entries|
        invariant forall j :: 0 <= j < i ==> !IsUsable(entries[j], scope)
      {
        i := i + 1;
      }
      if i < |entries| {
        entries := entries[i := entries[i].(usesRemaining := entries[i].usesRemaining - 1)];
      }
      FirstUsableLoses(entries0, scope, i);
      kept := FilterRemaining(entries);
    }

    static method FilterRemaining(entries: seq<Grant>) returns (kept: seq<Grant>)
      ensures kept == Remaining(entries)
    {
      kept := [];
      for k := 0 to |entries|
        invariant kept + Remaining(entries[k..]) == Remaining(entries)
      {
        RemainingFrom(entries, k);
        assert kept + ([entries[k]] + Remaining(entries[k + 1..])) == kept + [entries[k]] + Remaining(entries[k + 1..]);
        if entries[k].usesRemaining > 0 {
          kept := kept + [entries[k]];
        }
      }
    }

    /** All or nothing, at the clock reading `now`: check every capability, then consume one use of each. */
    method ConsumeRequired(capabilities: seq<Capability>, scope: string, now: int, readings: seq<Option<int>>) returns (ok: bool)
      requires Valid() && |readings| == |Distinct(capabilities)|
      modifies this
      ensures Valid()
      ensures ok <==> forall c :: c in capabilities ==> Usable(Live(old(EntriesOf(c)), now), scope)
      ensures forall c :: AccountOf(c)
                          == if ok then Consumed(Pruned(old(AccountOf(c)), now), c, Distinct(capabilities), scope, readings)
                             else Pruned(old(AccountOf(c)), now)
    {
      PruneExpired(now);
      var required := Distinct(capabilities);
      ok := AllUsable(required, scope);
      forall c
        ensures EntriesOf(c) == Live(old(EntriesOf(c)), now)
      {
        assert AccountOk(c) && old(AccountOk(c));
      }
      if ok {
        ConsumeEach(required, scope, readings);
      }
    }

    method AllUsable(required: seq<Capability>, scope: string) returns (ok: bool)
      ensures ok <==> forall c :: c in required ==> Usable(EntriesOf(c), scope)
    {
      for i := 0 to |required|
        invariant forall j :: 0 <= j < i ==> Usable(EntriesOf(required[j]), scope)
      {
        ok := HasUsable(EntriesOf(required[i]), scope);
        if !ok {
          assert required[i] in required;
          return;
        }
      }
      ok := true;
    }

    method ConsumeEach(required: seq<Capability>, scope: string, readings: seq<Option<int>>)
      requires Valid() && |readings| == |required|
      modifies this
      ensures Valid()
      ensures forall c :: AccountOf(c) == Consumed(old(AccountOf(c)), c, required, scope, readings)
    {
      for i := 0 to |required|
        invariant Valid()
        invariant forall c :: Consumed(AccountOf(c), c, required[i..], scope, readings[i..])
                              == Consumed(old(AccountOf(c)), c, required, scope, readings)
      {
        assert required[i..][1..] == required[i + 1..] && readings[i..][1..] == readings[i + 1..];
        ConsumeOne(required[i], scope, readings[i]);
      }
    }

    static method HasUsable(entries: seq<Grant>, scope: string) returns (found: bool)
      ensures found <==> Usable(entries, scope)
    {
      for i := 0 to |entries|
        invariant forall j :: 0 <= j < i ==> !IsUsable(entries[j], scope)
      {
        if IsUsable(entries[i], scope) {
          return true;
        }
      }
      found := false;
    }
  }

  lemma {:induction false} FirstUsableLoses(entries: seq<Grant>, scope: string, i: nat)
    requires i <= |entries| && forall j :: 0 <= j < i ==> !IsUsable(entries[j], scope)
    requires i < |entries| ==> IsUsable(entries[i], scope)
    ensures WithoutOne(entries, scope)
            == Remaining(if i < |entries| then entries[i := entries[i].(usesRemaining := entries[i].usesRemaining - 1)] else entries)
    decreases |entries|
  {
    if 0 < i {
      FirstUsableLoses(entries[1..], scope, i - 1);
      if i < |entries| {
        var g := entries[i].(usesRemaining := entries[i].usesRemaining - 1);
        assert entries[i := g][1..] == entries[1..][i - 1 := g];
      }
    } else if entries != [] {
      var g := entries[0].(usesRemaining := entries[0].usesRemaining - 1);
      assert entries[0 := g][1..] == entries[1..];
    }
  }
}
