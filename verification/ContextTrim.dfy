/** Trimming the messages of a prompt to a token cap. */
module ContextTrim {
  import opened Options

  datatype Message = Message(role: string, content: string)

  function EstimateTokens(text: string): nat {
    (|text| + 3) / 4
  }

  function Tokens(m: Message): nat {
    EstimateTokens(m.content)
  }

  function Total(messages: seq<Message>): nat {
    if messages == [] then 0 else Total(messages[..|messages| - 1]) + Tokens(messages[|messages| - 1])
  }

  method CountTokens(messages: seq<Message>) returns (total: nat)
    ensures total == Total(messages)
  {
    total := 0;
    for i := 0 to |messages|
      invariant total == Total(messages[..i])
    {
      assert messages[..i + 1][..i] == messages[..i];
      total := total + Tokens(messages[i]);
    }
    assert messages[..|messages|] == messages;
  }

  // ---- Oldest first -------------------------------------------------------------------------------------

  predicate SuffixFits(messages: seq<Message>, cap: int, start: nat)
    requires start <= |messages|
  {
    Total(messages[start..]) <= cap
  }

  /** The kept messages are the suffix from this start, which fits the cap or is the last message alone, and
    * no longer suffix fits. */
  ghost predicate IsLongestSuffix(messages: seq<Message>, cap: int, kept: seq<Message>, start: nat) {
    && start <= |messages| && kept == messages[start..]
    && (messages != [] ==> start < |messages|)
    && (Total(kept) <= cap || |kept| <= 1)
    && forall longer: nat :: longer < start ==> !SuffixFits(messages, cap, longer)
  }

  method OldestFirst(messages: seq<Message>, cap: int) returns (kept: seq<Message>, start: nat)
    ensures IsLongestSuffix(messages, cap, kept, start)
  {
    start := 0;
    while start < |messages| - 1
      invariant start == 0 || start < |messages|
      invariant forall longer: nat :: longer < start ==> !SuffixFits(messages, cap, longer)
    {
      kept := messages[start..];
      var est := CountTokens(kept);
      if est <= cap {
        return;
      }
      start := start + 1;
    }
    kept := messages[start..];
  }

  // ---- By priority --------------------------------------------------------------------------------------

  function IndexOf(priority: seq<string>, role: string): (i: nat)
    ensures i <= |priority|
    ensures i < |priority| ==> priority[i] == role
    ensures forall j :: 0 <= j < i ==> priority[j] != role
  {
    if priority == [] || priority[0] == role then 0 else 1 + IndexOf(priority[1..], role)
  }

  /** How late a message is dropped: its role's place in the priority, or after all of them. */
  function Rank(messages: seq<Message>, priority: seq<string>, i: nat): nat
    requires i < |messages|
  {
    IndexOf(priority, messages[i].role)
  }

  /** Message i is considered for keeping before message j: it is dropped later, or is newer. */
  predicate Before(messages: seq<Message>, priority: seq<string>, i: nat, j: nat)
    requires i < |messages| && j < |messages|
  {
    var a, b := Rank(messages, priority, i), Rank(messages, priority, j);
    a > b || (a == b && i > j)
  }

  predicate AreIndices(messages: seq<Message>, order: seq<nat>) {
    forall p :: 0 <= p < |order| ==> order[p] < |messages|
  }

  ghost predicate InOrder(messages: seq<Message>, priority: seq<string>, order: seq<nat>)
    requires AreIndices(messages, order)
  {
    forall p, q :: 0 <= p < q < |order| ==> Before(messages, priority, order[p], order[q])
  }

  /** The indices below k, each once. */
  ghost predicate HoldsBelow(order: seq<nat>, k: nat) {
    |order| == k && forall i: nat :: i in order <==> i < k
  }

  lemma OrderIsTotal(messages: seq<Message>, priority: seq<string>, i: nat, j: nat, k: nat)
    requires i < |messages| && j < |messages| && k < |messages|
    ensures i != j && !Before(messages, priority, i, j) ==> Before(messages, priority, j, i)
    ensures Before(messages, priority, i, j) && Before(messages, priority, j, k) ==> Before(messages, priority, i, k)
  {
  }

  ghost predicate Places(messages: seq<Message>, priority: seq<string>, order: seq<nat>, x: nat, p: nat)
    requires x < |messages| && AreIndices(messages, order) && p <= |order|
  {
    && (forall q :: 0 <= q < p ==> Before(messages, priority, order[q], x))
    && (p < |order| ==> Before(messages, priority, x, order[p]))
  }

  lemma InsertedInOrder(messages: seq<Message>, priority: seq<string>, order: seq<nat>, x: nat, p: nat)
    requires x < |messages| && AreIndices(messages, order) && InOrder(messages, priority, order)
    requires p <= |order| && Places(messages, priority, order, x, p)
    ensures var r := order[..p] + [x] + order[p..];
      AreIndices(messages, r) && InOrder(messages, priority, r)
  {
    var r := order[..p] + [x] + order[p..];
    assert forall q :: 0 <= q < |r| ==> r[q] == if q < p then order[q] else if q == p then x else order[q - 1];
    forall a, b | 0 <= a < b < |r| ensures Before(messages, priority, r[a], r[b]) {
      if a == p && b > p + 1 {
        assert Before(messages, priority, order[p], order[b - 1]);
        OrderIsTotal(messages, priority, x, order[p], order[b - 1]);
      }
    }
  }

  method Insert(messages: seq<Message>, priority: seq<string>, order: seq<nat>, x: nat) returns (r: seq<nat>)
    requires x < |messages| && AreIndices(messages, order) && InOrder(messages, priority, order)
    requires x !in order
    ensures AreIndices(messages, r) && InOrder(messages, priority, r)
    ensures |r| == |order| + 1 && forall i :: i in r <==> i in order || i == x
  {
    var p := 0;
    while p < |order| && Before(messages, priority, order[p], x)
      invariant p <= |order|
      invariant forall q :: 0 <= q < p ==> Before(messages, priority, order[q], x)
    {
      p := p + 1;
    }
    if p < |order| {
      OrderIsTotal(messages, priority, order[p], x, x);
    }
    r := order[..p] + [x] + order[p..];
    InsertedInOrder(messages, priority, order, x, p);
    assert order == order[..p] + order[p..];
  }

  /** The candidates, in the order in which they are considered: the sorted entries of all but the last. */
  method SortedEntries(messages: seq<Message>, priority: seq<string>) returns (order: seq<nat>)
    requires messages != []
    ensures AreIndices(messages, order) && InOrder(messages, priority, order) && HoldsBelow(order, |messages| - 1)
  {
    order := [];
    for k := 0 to |messages| - 1
      invariant AreIndices(messages, order) && InOrder(messages, priority, order) && HoldsBelow(order, k)
    {
      order := Insert(messages, priority, order, k);
    }
  }

  /** What a selection of messages below n costs. */
  function Cost(messages: seq<Message>, keep: set<nat>, n: nat): nat
    requires n <= |messages|
  {
    if n == 0 then 0 else Cost(messages, keep, n - 1) + if n - 1 in keep then Tokens(messages[n - 1]) else 0
  }

  /** What a selection costs along a list of candidates. */
  function CostAlong(messages: seq<Message>, keep: set<nat>, order: seq<nat>): nat
    requires AreIndices(messages, order)
  {
    if order == [] then 0
    else
      var last := order[|order| - 1];
      CostAlong(messages, keep, order[..|order| - 1]) + if last in keep then Tokens(messages[last]) else 0
  }

  lemma {:induction false} CostAlongWithout(messages: seq<Message>, keep: set<nat>, order: seq<nat>, p: nat)
    requires AreIndices(messages, order) && p < |order|
    ensures AreIndices(messages, order[..p] + order[p + 1..])
    ensures CostAlong(messages, keep, order)
         == CostAlong(messages, keep, order[..p] + order[p + 1..]) + if order[p] in keep then Tokens(messages[order[p]]) else 0
  {
    var n := |order| - 1;
    if p == n {
      assert order[..p] + order[p + 1..] == order[..n];
    } else {
      CostAlongWithout(messages, keep, order[..n], p);
      LastStays(order, p);
    }
  }

  lemma LastStays(order: seq<nat>, p: nat)
    requires p < |order| - 1
    ensures var n, rest := |order| - 1, order[..p] + order[p + 1..];
      |rest| == n && rest[n - 1] == order[n] && rest[..n - 1] == order[..n][..p] + order[..n][p + 1..]
  {
  }

  /** The order of the candidates does not matter for the cost. */
  lemma {:induction false} CostsAgree(messages: seq<Message>, keep: set<nat>, order: seq<nat>, n: nat)
    requires n <= |messages| && AreIndices(messages, order) && HoldsBelow(order, n)
    requires forall p, q :: 0 <= p < q < |order| ==> order[p] != order[q]
    ensures CostAlong(messages, keep, order) == Cost(messages, keep, n)
    decreases n
  {
    if n > 0 {
      assert n - 1 in order;
      var p: nat :| p < |order| && order[p] == n - 1;
      var rest := order[..p] + order[p + 1..];
      CostAlongWithout(messages, keep, order, p);
      WithoutHoldsBelow(order, n, p);
      CostsAgree(messages, keep, rest, n - 1);
    }
  }

  lemma WithoutHoldsBelow(order: seq<nat>, n: nat, p: nat)
    requires HoldsBelow(order, n) && n > 0 && p < n && order[p] == n - 1
    requires forall p, q :: 0 <= p < q < |order| ==> order[p] != order[q]
    ensures HoldsBelow(order[..p] + order[p + 1..], n - 1)
    ensures var rest := order[..p] + order[p + 1..];
      forall p, q :: 0 <= p < q < |rest| ==> rest[p] != rest[q]
  {
    var rest := order[..p] + order[p + 1..];
    forall i: nat ensures i in rest <==> i < n - 1 {
      if i < n - 1 {
        assert i in order;
        var q: nat :| q < |order| && order[q] == i;
        assert rest[if q < p then q else q - 1] == i;
      }
      if i in rest {
        var q: nat :| q < |rest| && rest[q] == i;
        assert order[if q < p then q else q + 1] == i;
        assert i in order && i != order[p];
      }
    }
  }

  /** One message of the candidates on which two selections differ for the first time. */
  predicate FirstDifference(order: seq<nat>, keep: set<nat>, other: set<nat>, p: nat) {
    && p < |order|
    && order[p] in keep && order[p] !in other
    && forall q :: 0 <= q < p ==> (order[q] in keep <==> order[q] in other)
  }

  /** Of two selections of candidates the first is the same or comes later in lexicographic order. */
  ghost predicate AtLeast(order: seq<nat>, keep: set<nat>, other: set<nat>) {
    (exists p :: FirstDifference(order, keep, other, p)) || forall q :: 0 <= q < |order| ==> (order[q] in keep <==> order[q] in other)
  }

  /** A selection keeps the last message, fits the cap, and is the greatest of all that do. */
  ghost predicate GreatestFitting(messages: seq<Message>, order: seq<nat>, cap: int, keep: set<nat>)
    requires messages != []
  {
    forall other: set<nat> ::
      |messages| - 1 in other && Cost(messages, other, |messages|) <= cap ==> AtLeast(order, keep, other)
  }

  /** The greedy choice along a list of candidates within the room that is left. */
  ghost predicate GreedyAlong(messages: seq<Message>, order: seq<nat>, room: int, keep: set<nat>)
    requires AreIndices(messages, order)
  {
    forall p :: 0 <= p < |order| ==>
      (order[p] in keep <==> CostAlong(messages, keep, order[..p]) + Tokens(messages[order[p]]) <= room)
  }

  lemma {:induction false} SameCost(messages: seq<Message>, order: seq<nat>, keep: set<nat>, other: set<nat>, p: nat)
    requires AreIndices(messages, order) && p <= |order|
    requires forall q :: 0 <= q < p ==> (order[q] in keep <==> order[q] in other)
    ensures CostAlong(messages, keep, order[..p]) == CostAlong(messages, other, order[..p])
  {
    if p > 0 {
      assert order[..p][..p - 1] == order[..p - 1];
      SameCost(messages, order, keep, other, p - 1);
    }
  }

  lemma {:induction false} CostGrows(messages: seq<Message>, order: seq<nat>, keep: set<nat>, p: nat)
    requires AreIndices(messages, order) && p <= |order|
    ensures CostAlong(messages, keep, order[..p]) <= CostAlong(messages, keep, order)
    decreases |order| - p
  {
    if p == |order| {
      assert order[..p] == order;
    } else {
      assert order[..p + 1][..p] == order[..p];
      CostGrows(messages, order, keep, p + 1);
    }
  }

  /** What a selection within the room takes, the greedy choice has room for. */
  lemma TakesNoMore(messages: seq<Message>, order: seq<nat>, room: int, keep: set<nat>, other: set<nat>, p: nat)
    requires AreIndices(messages, order) && p < |order|
    requires CostAlong(messages, other, order) <= room && order[p] in other
    requires forall q :: 0 <= q < p ==> (order[q] in keep <==> order[q] in other)
    ensures CostAlong(messages, keep, order[..p]) + Tokens(messages[order[p]]) <= room
  {
    SameCost(messages, order, keep, other, p);
    CostGrows(messages, order, other, p + 1);
    assert order[..p + 1][..p] == order[..p];
  }

  /** No selection within the room comes after the greedy one. */
  lemma {:induction false} GreedyIsGreatest(messages: seq<Message>, order: seq<nat>, room: int, keep: set<nat>, other: set<nat>, p: nat)
    requires AreIndices(messages, order) && p <= |order|
    requires GreedyAlong(messages, order, room, keep)
    requires CostAlong(messages, other, order) <= room
    requires forall q :: 0 <= q < p ==> (order[q] in keep <==> order[q] in other)
    ensures AtLeast(order, keep, other)
    decreases |order| - p
  {
    if p < |order| {
      if order[p] in keep <==> order[p] in other {
        GreedyIsGreatest(messages, order, room, keep, other, p + 1);
      } else {
        if order[p] in other {
          TakesNoMore(messages, order, room, keep, other, p);
        }
        assert FirstDifference(order, keep, other, p);
      }
    }
  }

  function Selected(messages: seq<Message>, keep: set<nat>, n: nat): seq<Message>
    requires n <= |messages|
  {
    if n == 0 then []
    else Selected(messages, keep, n - 1) + if n - 1 in keep then [messages[n - 1]] else []
  }

  lemma {:induction false} SelectedCosts(messages: seq<Message>, keep: set<nat>, n: nat)
    requires n <= |messages|
    ensures Total(Selected(messages, keep, n)) == Cost(messages, keep, n)
  {
    if n > 0 {
      SelectedCosts(messages, keep, n - 1);
      var before := Selected(messages, keep, n - 1);
      if n - 1 in keep {
        assert (before + [messages[n - 1]])[..|before|] == before;
      } else {
        assert before + [] == before;
      }
    }
  }

  method FilterKept(messages: seq<Message>, keep: set<nat>) returns (kept: seq<Message>)
    ensures kept == Selected(messages, keep, |messages|)
  {
    kept := [];
    for i := 0 to |messages|
      invariant kept == Selected(messages, keep, i)
    {
      if i in keep {
        kept := kept + [messages[i]];
      } else {
        assert kept + [] == kept;
      }
    }
  }

  /** The loop over the candidates. */
  method ChooseGreedily(messages: seq<Message>, order: seq<nat>, cap: int) returns (keep: set<nat>)
    requires messages != [] && AreIndices(messages, order)
    requires |messages| - 1 !in order
    requires forall p, q :: 0 <= p < q < |order| ==> order[p] != order[q]
    ensures |messages| - 1 in keep && forall i :: i in keep ==> i == |messages| - 1 || i in order
    ensures GreedyAlong(messages, order, cap - Tokens(messages[|messages| - 1]), keep)
    ensures CostAlong(messages, keep, order) <= cap - Tokens(messages[|messages| - 1]) || keep == {|messages| - 1}
  {
    var lastIdx := |messages| - 1;
    ghost var room := cap - Tokens(messages[lastIdx]);
    keep := {lastIdx};
    var totalKeep := Tokens(messages[lastIdx]);
    for k := 0 to |order|
      invariant lastIdx in keep && forall i :: i in keep ==> i == lastIdx || i in order[..k]
      invariant totalKeep == Tokens(messages[lastIdx]) + CostAlong(messages, keep, order[..k])
      invariant GreedyAlong(messages, order[..k], room, keep)
      invariant totalKeep <= cap || keep == {lastIdx}
    {
      ghost var before := keep;
      assert order[k] !in keep;
      if totalKeep + Tokens(messages[order[k]]) <= cap {
        keep := keep + {order[k]};
        totalKeep := totalKeep + Tokens(messages[order[k]]);
      }
      ExtendGreedy(messages, order, room, before, keep, k);
    }
    assert order[..|order|] == order;
  }

  lemma ExtendGreedy(messages: seq<Message>, order: seq<nat>, room: int, before: set<nat>, keep: set<nat>, k: nat)
    requires AreIndices(messages, order) && k < |order|
    requires forall p, q :: 0 <= p < q < |order| ==> order[p] != order[q]
    requires GreedyAlong(messages, order[..k], room, before) && order[k] !in before
    requires keep == before || keep == before + {order[k]}
    requires order[k] in keep <==> CostAlong(messages, before, order[..k]) + Tokens(messages[order[k]]) <= room
    ensures GreedyAlong(messages, order[..k + 1], room, keep)
    ensures CostAlong(messages, keep, order[..k + 1])
         == CostAlong(messages, before, order[..k]) + if order[k] in keep then Tokens(messages[order[k]]) else 0
  {
    var longer := order[..k + 1];
    assert longer[..k] == order[..k];
    SameCost(messages, order, keep, before, k);
    forall p | 0 <= p < |longer|
      ensures longer[p] in keep <==> CostAlong(messages, keep, longer[..p]) + Tokens(messages[longer[p]]) <= room
    {
      ExtendGreedyAt(messages, order, room, before, keep, k, p);
    }
  }

  lemma ExtendGreedyAt(messages: seq<Message>, order: seq<nat>, room: int, before: set<nat>, keep: set<nat>, k: nat, p: nat)
    requires AreIndices(messages, order) && p <= k < |order|
    requires forall p, q :: 0 <= p < q < |order| ==> order[p] != order[q]
    requires GreedyAlong(messages, order[..k], room, before)
    requires keep == before || keep == before + {order[k]}
    requires order[k] in keep <==> CostAlong(messages, before, order[..k]) + Tokens(messages[order[k]]) <= room
    ensures order[..k + 1][..p] == order[..p]
    ensures order[p] in keep <==> CostAlong(messages, keep, order[..p]) + Tokens(messages[order[p]]) <= room
  {
    SameCost(messages, order, keep, before, p);
    if p < k {
      assert order[..k][p] == order[p] && order[..k][..p] == order[..p];
    }
  }

  /** What priority trimming promises of the kept set, with the candidates in this order. */
  ghost predicate TrimmedByPriority(messages: seq<Message>, priority: seq<string>, cap: int, order: seq<nat>, keep: set<nat>)
    requires messages != []
  {
    && AreIndices(messages, order) && InOrder(messages, priority, order) && HoldsBelow(order, |messages| - 1)
    && |messages| - 1 in keep
    && (forall i :: i in keep ==> i < |messages|)
    && (Cost(messages, keep, |messages|) <= cap || keep == {|messages| - 1})
    && GreatestFitting(messages, order, cap, keep)
  }

  lemma OrderIsDistinct(messages: seq<Message>, priority: seq<string>, order: seq<nat>)
    requires AreIndices(messages, order) && InOrder(messages, priority, order)
    ensures forall p, q :: 0 <= p < q < |order| ==> order[p] != order[q]
  {
    forall p, q | 0 <= p < q < |order| ensures order[p] != order[q] {
      assert Before(messages, priority, order[p], order[q]);
    }
  }

  lemma GreedyMeets(messages: seq<Message>, priority: seq<string>, cap: int, order: seq<nat>, keep: set<nat>)
    requires messages != []
    requires AreIndices(messages, order) && InOrder(messages, priority, order) && HoldsBelow(order, |messages| - 1)
    requires |messages| - 1 in keep && forall i :: i in keep ==> i == |messages| - 1 || i in order
    requires GreedyAlong(messages, order, cap - Tokens(messages[|messages| - 1]), keep)
    requires CostAlong(messages, keep, order) <= cap - Tokens(messages[|messages| - 1]) || keep == {|messages| - 1}
    ensures TrimmedByPriority(messages, priority, cap, order, keep)
  {
    OrderIsDistinct(messages, priority, order);
    var n := |messages| - 1;
    CostsAgree(messages, keep, order, n);
    forall other: set<nat> | n in other && Cost(messages, other, |messages|) <= cap ensures AtLeast(order, keep, other) {
      CostsAgree(messages, other, order, n);
      GreedyIsGreatest(messages, order, cap - Tokens(messages[n]), keep, other, 0);
    }
  }

  method WithPriority(messages: seq<Message>, cap: int, priority: seq<string>) returns (kept: seq<Message>)
    ensures exists order, keep :: IsPriorityTrim(messages, priority, cap, kept, order, keep)
  {
    if messages == [] {
      kept := [];
      assert IsPriorityTrim(messages, priority, cap, kept, [], {});
      return;
    }
    var entries := SortedEntries(messages, priority);
    OrderIsDistinct(messages, priority, entries);
    var chosen := ChooseGreedily(messages, entries, cap);
    GreedyMeets(messages, priority, cap, entries, chosen);
    kept := FilterKept(messages, chosen);
    assert IsPriorityTrim(messages, priority, cap, kept, entries, chosen);
  }

  /** Adding any dropped message back overflows the cap. */
  lemma DroppedDoNotFit(messages: seq<Message>, priority: seq<string>, cap: int, order: seq<nat>, keep: set<nat>, i: nat)
    requires messages != [] && TrimmedByPriority(messages, priority, cap, order, keep)
    requires i < |messages| && i !in keep
    ensures Cost(messages, keep + {i}, |messages|) > cap
  {
    NotAtLeast(order, keep, i);
  }

  lemma NotAtLeast(order: seq<nat>, keep: set<nat>, i: nat)
    requires i in order && i !in keep
    ensures !AtLeast(order, keep, keep + {i})
  {
    forall p ensures !FirstDifference(order, keep, keep + {i}, p) {
    }
    var q :| 0 <= q < |order| && order[q] == i;
    assert !(order[q] in keep <==> order[q] in keep + {i});
  }

  // ---- Dispatch and summary -----------------------------------------------------------------------------

  ghost predicate IsPriorityTrim(messages: seq<Message>, priority: seq<string>, cap: int, kept: seq<Message>, order: seq<nat>, keep: set<nat>) {
    if messages == [] then kept == []
    else TrimmedByPriority(messages, priority, cap, order, keep) && kept == Selected(messages, keep, |messages|)
  }

  /** What trimming to the cap may return. */
  ghost predicate IsTrim(messages: seq<Message>, cap: int, priority: seq<string>, kept: seq<Message>) {
    if Total(messages) <= cap then kept == messages
    else if priority == [] then exists start :: IsLongestSuffix(messages, cap, kept, start)
    else exists order, keep :: IsPriorityTrim(messages, priority, cap, kept, order, keep)
  }

  method ApplyMaxContextTokens(messages: seq<Message>, cap: int, priority: seq<string>) returns (kept: seq<Message>)
    ensures IsTrim(messages, cap, priority, kept)
  {
    var total := CountTokens(messages);
    if total <= cap {
      return messages;
    }
    if priority == [] {
      var start: nat;
      kept, start := OldestFirst(messages, cap);
      assert IsLongestSuffix(messages, cap, kept, start);
    } else {
      kept := WithPriority(messages, cap, priority);
    }
  }

  lemma {:induction false} SelectedLast(messages: seq<Message>, keep: set<nat>)
    requires messages != [] && |messages| - 1 in keep
    ensures var kept := Selected(messages, keep, |messages|);
      kept != [] && kept[|kept| - 1] == messages[|messages| - 1]
  {
  }

  lemma {:induction false} SelectedOnlyLast(messages: seq<Message>, n: nat)
    requires n < |messages|
    ensures Selected(messages, {|messages| - 1}, n) == []
  {
    if n > 0 {
      SelectedOnlyLast(messages, n - 1);
    }
  }

  lemma PriorityKeepsLast(messages: seq<Message>, cap: int, priority: seq<string>, kept: seq<Message>, order: seq<nat>, keep: set<nat>)
    requires messages != [] && IsPriorityTrim(messages, priority, cap, kept, order, keep)
    ensures kept != [] && kept[|kept| - 1] == messages[|messages| - 1]
    ensures Total(kept) <= cap || |kept| == 1
  {
    SelectedLast(messages, keep);
    SelectedCosts(messages, keep, |messages|);
    if keep == {|messages| - 1} {
      SelectedOnlyLast(messages, |messages| - 1);
    }
  }

  /** However messages are trimmed: the last one stays last, and they fit the cap or it is alone. */
  lemma TrimKeepsLast(messages: seq<Message>, cap: int, priority: seq<string>, kept: seq<Message>)
    requires messages != [] && IsTrim(messages, cap, priority, kept)
    ensures kept != [] && kept[|kept| - 1] == messages[|messages| - 1]
    ensures Total(kept) <= cap || |kept| == 1
  {
    if Total(messages) > cap {
      if priority == [] {
        var start :| IsLongestSuffix(messages, cap, kept, start);
      } else {
        var order, keep :| IsPriorityTrim(messages, priority, cap, kept, order, keep);
        PriorityKeepsLast(messages, cap, priority, kept, order, keep);
      }
    }
  }

  const SUMMARY_PREFIX := "Summary of earlier turns:\n"

  function Label(m: Message): string {
    (if m.role == "user" then "User" else if m.role == "assistant" then "Agent" else "System") + ": " + m.content
  }

  /** The labelled messages, with empty lines between them. */
  function Labelled(messages: seq<Message>): string {
    if messages == [] then ""
    else if |messages| == 1 then Label(messages[0])
    else Labelled(messages[..|messages| - 1]) + "\n\n" + Label(messages[|messages| - 1])
  }

  /** The summary message: the prefix, and the start of the labelled text within the summary cap. */
  function SummaryOf(messages: seq<Message>, maxSummaryTokens: int): Message {
    if |messages| <= 1 then Message("system", SUMMARY_PREFIX + "(none)")
    else
      var all := Labelled(messages[..|messages| - 1]);
      var maxChars := if maxSummaryTokens > 0 then 4 * maxSummaryTokens else 0;
      Message("system", SUMMARY_PREFIX + if |all| > maxChars then all[..maxChars] else all)
  }

  /** It exceeds the summary cap by no more than the prefix takes. */
  lemma SummaryIsShort(messages: seq<Message>, maxSummaryTokens: int)
    requires |messages| > 1
    ensures Tokens(SummaryOf(messages, maxSummaryTokens)) <= 7 + if maxSummaryTokens > 0 then maxSummaryTokens else 0
  {
    assert |SUMMARY_PREFIX| == 26;
  }

  method SummarizePrefix(messages: seq<Message>, maxSummaryTokens: int) returns (summary: Message, remaining: seq<Message>)
    ensures summary == SummaryOf(messages, maxSummaryTokens)
    ensures remaining == if messages == [] then [] else [messages[|messages| - 1]]
  {
    if |messages| <= 1 {
      return Message("system", SUMMARY_PREFIX + "(none)"), messages;
    }
    var prefix := messages[..|messages| - 1];
    var text := Label(prefix[0]);
    for i := 1 to |prefix|
      invariant text == Labelled(prefix[..i])
    {
      assert prefix[..i + 1][..i] == prefix[..i];
      text := text + "\n\n" + Label(prefix[i]);
    }
    assert prefix[..|prefix|] == prefix;
    var maxChars := if maxSummaryTokens * 4 > 0 then maxSummaryTokens * 4 else 0;
    if EstimateTokens(text) > maxSummaryTokens && |text| > maxChars {
      text := text[..maxChars];
    }
    summary := Message("system", SUMMARY_PREFIX + text);
    remaining := [messages[|messages| - 1]];
  }

  lemma TotalOfTwo(a: Message, b: Message)
    ensures Total([a, b]) == Tokens(a) + Tokens(b)
  {
    assert [a][..0] == [];
    assert Total([a]) == Tokens(a);
    assert [a, b][..1] == [a];
  }

  lemma TwoMessages(a: Message, b: Message, cap: int, priority: seq<string>, kept: seq<Message>)
    requires IsTrim([a, b], cap, priority, kept)
    ensures kept == if Tokens(a) + Tokens(b) <= cap then [a, b] else [b]
  {
    var messages := [a, b];
    TotalOfTwo(a, b);
    TrimKeepsLast(messages, cap, priority, kept);
    if Total(messages) > cap {
      if priority == [] {
        var start :| IsLongestSuffix(messages, cap, kept, start);
      } else {
        var order, keep :| IsPriorityTrim(messages, priority, cap, kept, order, keep);
        SelectedCosts(messages, keep, 2);
        assert Selected(messages, keep, 1) == if 0 in keep then [a] else [];
        assert kept == if 0 in keep then [a, b] else [b];
      }
    }
  }

  /** The cap of one turn: over the cap, with summaries on, the turn gets the summary and the last message if
    * these fit, and else the last message alone, whatever the priority. */
  method CapPrompt(messages: seq<Message>, cap: int, summarizeOldTurns: bool, maxSummaryTokens: int, priority: seq<string>)
    returns (kept: seq<Message>)
    ensures if summarizeOldTurns && Total(messages) > cap && |messages| > 1 then
              var summary, last := SummaryOf(messages, maxSummaryTokens), messages[|messages| - 1];
              kept == if Tokens(summary) + Tokens(last) <= cap then [summary, last] else [last]
            else IsTrim(messages, cap, priority, kept)
    ensures messages != [] ==> kept != [] && kept[|kept| - 1] == messages[|messages| - 1] && (Total(kept) <= cap || |kept| == 1)
  {
    var totalTokens := CountTokens(messages);
    if summarizeOldTurns && totalTokens > cap && |messages| > 1 {
      var summary, remaining := SummarizePrefix(messages, maxSummaryTokens);
      kept := ApplyMaxContextTokens([summary] + remaining, cap, priority);
      assert [summary] + remaining == [summary, messages[|messages| - 1]];
      TwoMessages(summary, messages[|messages| - 1], cap, priority, kept);
      TrimKeepsLast([summary] + remaining, cap, priority, kept);
    } else {
      kept := ApplyMaxContextTokens(messages, cap, priority);
      if messages != [] {
        TrimKeepsLast(messages, cap, priority, kept);
      }
    }
  }

  // ---- What costs are -----------------------------------------------------------------------------------

  /** Four characters to a token, rounded up. */
  lemma TokensRoundUp(text: string)
    ensures var t := EstimateTokens(text); 4 * t - 4 < |text| <= 4 * t
  {
  }

  /** A prompt costs what its messages cost together. */
  lemma {:induction false} TotalAdds(a: seq<Message>, b: seq<Message>)
    ensures Total([]) == 0 && Total(a + b) == Total(a) + Total(b)
    ensures |b| == 1 ==> Total(b) == EstimateTokens(b[0].content)
  {
    if b == [] {
      assert a + b == a;
    } else {
      var n := |b| - 1;
      assert (a + b)[..|a + b| - 1] == a + b[..n];
      TotalAdds(a, b[..n]);
      assert n == 0 ==> b[..n] == [];
    }
  }

  // ---- Which messages go first ----------------------------------------------------------------------------

  /** The first place of the role in the priority, or its length if it is not listed. */
  ghost predicate PlaceIs(priority: seq<string>, role: string, place: nat) {
    && place <= |priority|
    && (place < |priority| ==> priority[place] == role)
    && forall j :: 0 <= j < place ==> priority[j] != role
  }

  /** Message i is preferred to message j: its role is listed later, or not at all, or it is newer. */
  ghost predicate Preferred(messages: seq<Message>, priority: seq<string>, i: nat, j: nat)
    requires i < |messages| && j < |messages|
  {
    exists p: nat, q: nat ::
      && PlaceIs(priority, messages[i].role, p) && PlaceIs(priority, messages[j].role, q)
      && (p > q || (p == q && i > j))
  }

  lemma PreferredIsBefore(messages: seq<Message>, priority: seq<string>, i: nat, j: nat)
    requires i < |messages| && j < |messages|
    ensures Preferred(messages, priority, i, j) <==> Before(messages, priority, i, j)
  {
    var p, q := IndexOf(priority, messages[i].role), IndexOf(priority, messages[j].role);
    assert PlaceIs(priority, messages[i].role, p) && PlaceIs(priority, messages[j].role, q);
    forall x: nat | PlaceIs(priority, messages[i].role, x) ensures x == p {
      OnePlace(priority, messages[i].role, x, p);
    }
    forall x: nat | PlaceIs(priority, messages[j].role, x) ensures x == q {
      OnePlace(priority, messages[j].role, x, q);
    }
  }

  lemma OnePlace(priority: seq<string>, role: string, p: nat, q: nat)
    requires PlaceIs(priority, role, p) && PlaceIs(priority, role, q)
    ensures p == q
  {
  }

  lemma {:induction false} CostSwaps(messages: seq<Message>, keep: set<nat>, i: nat, j: nat, n: nat)
    requires n <= |messages| && i < |messages| && j < |messages| && i in keep && j !in keep
    ensures Cost(messages, keep - {i} + {j}, n)
         == Cost(messages, keep, n) - (if i < n then Tokens(messages[i]) else 0) + (if j < n then Tokens(messages[j]) else 0)
  {
    if n > 0 {
      CostSwaps(messages, keep, i, j, n - 1);
    }
  }

  /** A message is dropped for the sake of a less preferred one only if it costs more. */
  lemma DroppedCostsMore(messages: seq<Message>, priority: seq<string>, cap: int, order: seq<nat>, keep: set<nat>, i: nat, j: nat)
    requires messages != [] && TrimmedByPriority(messages, priority, cap, order, keep)
    requires i in keep && i < |messages| - 1 && j < |messages| - 1 && j !in keep && Preferred(messages, priority, j, i)
    ensures Tokens(messages[j]) > Tokens(messages[i])
  {
    PreferredIsBefore(messages, priority, j, i);
    assert i in order && j in order;
    CostSwaps(messages, keep, i, j, |messages|);
    SwapIsGreater(messages, priority, order, keep, i, j);
    assert |messages| - 1 in keep - {i} + {j};
  }

  lemma OnlyTaken(order: seq<nat>, keep: set<nat>, i: nat, j: nat, a: nat, p: nat)
    requires a < |order| && order[a] == i && forall q, r :: 0 <= q < r < |order| ==> order[q] != order[r]
    ensures FirstDifference(order, keep, keep - {i} + {j}, p) ==> p == a
  {
  }

  lemma EarlierIsBefore(messages: seq<Message>, priority: seq<string>, order: seq<nat>, a: nat, b: nat)
    requires AreIndices(messages, order) && InOrder(messages, priority, order) && a < |order| && b < |order|
    ensures a < b ==> Before(messages, priority, order[a], order[b])
  {
  }

  /** To take a preferred message for another one makes a selection greater. */
  lemma SwapIsGreater(messages: seq<Message>, priority: seq<string>, order: seq<nat>, keep: set<nat>, i: nat, j: nat)
    requires AreIndices(messages, order) && InOrder(messages, priority, order) && i in order && j in order
    requires i in keep && j !in keep && Before(messages, priority, j, i)
    ensures !AtLeast(order, keep, keep - {i} + {j})
  {
    var other := keep - {i} + {j};
    var a :| 0 <= a < |order| && order[a] == i;
    var b :| 0 <= b < |order| && order[b] == j;
    OrderIsDistinct(messages, priority, order);
    EarlierIsBefore(messages, priority, order, a, b);
    assert !(order[b] in keep <==> order[b] in other);
    forall p: nat ensures !FirstDifference(order, keep, other, p) {
      OnlyTaken(order, keep, i, j, a, p);
    }
    assert !(order[a] in keep <==> order[a] in other);
  }

  // ---- What a summary holds -------------------------------------------------------------------------------

  /** A message is labelled with who said it. */
  lemma LabelledOne(m: Message)
    ensures Labelled([m]) == (if m.role == "user" then "User: " else if m.role == "assistant" then "Agent: " else "System: ") + m.content
  {
  }

  /** Labelled messages have an empty line between them. */
  lemma {:induction false} LabelledJoins(a: seq<Message>, b: seq<Message>)
    requires a != [] && b != []
    ensures Labelled(a + b) == Labelled(a) + "\n\n" + Labelled(b)
    decreases |b|
  {
    var n := |b| - 1;
    assert (a + b)[..|a + b| - 1] == a + b[..n];
    if n == 0 {
      assert a + b[..n] == a;
    } else {
      LabelledJoins(a, b[..n]);
      var x, y, z := Labelled(a), Labelled(b[..n]), Label(b[n]);
      assert (x + "\n\n" + y) + "\n\n" + z == x + "\n\n" + (y + "\n\n" + z);
    }
  }

  /** What follows this start of a text. */
  function Behind(s: string, start: string): Option<string> {
    if start <= s then Some(s[|start|..]) else None
  }

  /** Behind its prefix a summary holds the labelled earlier messages, cut to four characters for a token of the
    * summary cap if they are longer. */
  lemma SummaryIsStart(messages: seq<Message>, maxSummaryTokens: nat)
    requires |messages| > 1
    ensures var all := Labelled(messages[..|messages| - 1]);
      var text := Behind(SummaryOf(messages, maxSummaryTokens).content, "Summary of earlier turns:\n");
      text.Some? && text.value <= all && |text.value| <= 4 * maxSummaryTokens
      && (text.value == all || |text.value| == 4 * maxSummaryTokens)
  {
    var all := Labelled(messages[..|messages| - 1]);
    var text := if |all| > 4 * maxSummaryTokens then all[..4 * maxSummaryTokens] else all;
    var content := SummaryOf(messages, maxSummaryTokens).content;
    assert content == SUMMARY_PREFIX + text;
    assert content[|SUMMARY_PREFIX|..] == text;
  }
}
