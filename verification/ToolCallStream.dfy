/** Streamed tool calls: fragments are accumulated by index, and each call is emitted when its arguments
  * are ready. How an argument text is read is a parameter of this module; module ToolCalls fixes it.
  */
module ToolCallStream {
  import opened Options
  import opened Sequences

  // ---- Fragments -----------------------------------------------------------------------------------

  datatype Delta = Delta(index: Option<int>, id: string, name: string, args: string)

  datatype Chunk = Chunk(deltas: seq<Delta>, finished: bool)

  datatype Call = Call(id: string, name: string, argsRaw: string)

  datatype Emission<V> = Emission(index: int, name: string, id: string, args: V)

  /** A fragment without an index counts as the one of its position in the chunk. */
  function IndexOf(d: Delta, position: nat): int {
    if d.index.Some? then d.index.value else position
  }

  function Merge(call: Option<Call>, d: Delta): Call {
    if call.None? then Call(d.id, d.name, d.args)
    else Call(if d.id != "" then d.id else call.value.id,
              if d.name != "" then d.name else call.value.name,
              call.value.argsRaw + d.args)
  }

  /** How an argument text is emitted before the stream ends, if it is, and when it ends. */
  datatype Reader<V> = Reader(early: string -> Option<V>, final: string -> V)

  function Ready<V>(reader: Reader<V>, call: Call, finished: bool): Option<V> {
    if call.name == "" then None
    else if finished then Some(reader.final(call.argsRaw))
    else reader.early(call.argsRaw)
  }

  // ---- One index at a time: the specification ---------------------------------------------------------

  /** A chunk's fragments for index k, in order. */
  function FragmentsOf(k: int, deltas: seq<Delta>): seq<Delta> {
    if deltas == [] then []
    else
      var n := |deltas| - 1;
      FragmentsOf(k, deltas[..n]) + if IndexOf(deltas[n], n) == k then [deltas[n]] else []
  }

  function MergeAll(call: Option<Call>, ds: seq<Delta>): (r: Option<Call>) {
    if ds == [] then call else Some(Merge(MergeAll(call, ds[..|ds| - 1]), ds[|ds| - 1]))
  }

  datatype Slot = Slot(call: Option<Call>, emitted: bool)

  /** What index k emits at a chunk that leaves it with this call. */
  function Emitted<V>(reader: Reader<V>, k: int, call: Option<Call>, already: bool, finished: bool): seq<Emission<V>> {
    if !already && call.Some? && Ready(reader, call.value, finished).Some?
    then [Emission(k, call.value.name, call.value.id, Ready(reader, call.value, finished).value)]
    else []
  }

  /** What index k emits over a stream, which ends at its first finished chunk. */
  function Emissions<V>(reader: Reader<V>, k: int, chunks: seq<Chunk>, slot: Slot): seq<Emission<V>> {
    if chunks == [] then []
    else
      var call := MergeAll(slot.call, FragmentsOf(k, chunks[0].deltas));
      var out := Emitted(reader, k, call, slot.emitted, chunks[0].finished);
      if chunks[0].finished then out
      else out + Emissions(reader, k, chunks[1..], Slot(call, slot.emitted || out != []))
  }

  function For<V>(k: int, out: seq<Emission<V>>): seq<Emission<V>> {
    if out == [] then []
    else For(k, out[..|out| - 1]) + if out[|out| - 1].index == k then [out[|out| - 1]] else []
  }

  // ---- All indices: the order of emissions ------------------------------------------------------------

  /** Indices in the order of their first fragment. */
  function Appearing(order: seq<int>, deltas: seq<Delta>): seq<int> {
    if deltas == [] then order
    else
      var n := |deltas| - 1;
      var before := Appearing(order, deltas[..n]);
      var idx := IndexOf(deltas[n], n);
      if idx in before then before else before + [idx]
  }

  function Order(chunks: seq<Chunk>): seq<int> {
    if chunks == [] then [] else Appearing(Order(chunks[..|chunks| - 1]), chunks[|chunks| - 1].deltas)
  }

  /** What index k emits at a chunk, and where that leaves it. */
  function AtChunk<V>(reader: Reader<V>, k: int, slot: Slot, chunk: Chunk): seq<Emission<V>> {
    Emitted(reader, k, MergeAll(slot.call, FragmentsOf(k, chunk.deltas)), slot.emitted, chunk.finished)
  }

  function Next<V>(reader: Reader<V>, k: int, slot: Slot, chunk: Chunk): Slot {
    Slot(MergeAll(slot.call, FragmentsOf(k, chunk.deltas)), slot.emitted || AtChunk(reader, k, slot, chunk) != [])
  }

  function SlotAfter<V>(reader: Reader<V>, k: int, chunks: seq<Chunk>): Slot {
    if chunks == [] then Slot(None, false)
    else Next(reader, k, SlotAfter(reader, k, chunks[..|chunks| - 1]), chunks[|chunks| - 1])
  }

  /** What these indices emit, one after the other, at the chunk after these. */
  function Each<V>(reader: Reader<V>, ks: seq<int>, before: seq<Chunk>, chunk: Chunk): seq<Emission<V>> {
    if ks == [] then []
    else
      var k := ks[|ks| - 1];
      Each(reader, ks[..|ks| - 1], before, chunk) + AtChunk(reader, k, SlotAfter(reader, k, before), chunk)
  }

  predicate Ended(chunks: seq<Chunk>) {
    chunks != [] && (Ended(chunks[..|chunks| - 1]) || chunks[|chunks| - 1].finished)
  }

  /** Chunk after chunk up to the finished one, and at each chunk the indices in the order of their first
    * fragments. */
  function Streamed<V>(reader: Reader<V>, chunks: seq<Chunk>): seq<Emission<V>> {
    if chunks == [] then []
    else
      var n := |chunks| - 1;
      if Ended(chunks[..n]) then Streamed(reader, chunks[..n])
      else Streamed(reader, chunks[..n]) + Each(reader, Order(chunks), chunks[..n], chunks[n])
  }

  lemma {:induction false} StreamStops<V>(reader: Reader<V>, chunks: seq<Chunk>, n: nat)
    requires n <= |chunks| && Ended(chunks[..n])
    ensures Ended(chunks) && Streamed(reader, chunks) == Streamed(reader, chunks[..n])
    decreases |chunks|
  {
    if n == |chunks| {
      assert chunks[..n] == chunks;
    } else {
      var m := |chunks| - 1;
      assert chunks[..m][..n] == chunks[..n];
      StreamStops(reader, chunks[..m], n);
    }
  }

  // ---- The loops -------------------------------------------------------------------------------------

  ghost predicate Keyed(calls: map<int, Call>, order: seq<int>) {
    && (forall i :: 0 <= i < |order| ==> order[i] in calls)
    && (forall k :: k in calls ==> k in order)
    && (forall i, j :: 0 <= i < j < |order| ==> order[i] != order[j])
  }

  lemma KeyedMore(calls: map<int, Call>, order: seq<int>, idx: int, call: Call)
    requires Keyed(calls, order)
    ensures idx in calls <==> idx in order
    ensures Keyed(calls[idx := call], if idx in order then order else order + [idx])
  {
  }

  function CallOf(calls: map<int, Call>, k: int): Option<Call> {
    if k in calls then Some(calls[k]) else None
  }

  /** Calls and order after the fragments so far. */
  ghost predicate Absorbed(calls0: map<int, Call>, order0: seq<int>, deltas: seq<Delta>, calls: map<int, Call>, order: seq<int>) {
    && order == Appearing(order0, deltas)
    && forall k :: CallOf(calls, k) == MergeAll(CallOf(calls0, k), FragmentsOf(k, deltas))
  }

  lemma FragmentMore(k: int, deltas: seq<Delta>, i: nat, call: Option<Call>)
    requires i < |deltas|
    ensures MergeAll(call, FragmentsOf(k, deltas[..i + 1]))
            == if IndexOf(deltas[i], i) == k then Some(Merge(MergeAll(call, FragmentsOf(k, deltas[..i])), deltas[i]))
               else MergeAll(call, FragmentsOf(k, deltas[..i]))
  {
    var ds := FragmentsOf(k, deltas[..i]);
    assert deltas[..i + 1][..i] == deltas[..i];
    assert (ds + [deltas[i]])[..|ds|] == ds && ds + [] == ds;
  }

  lemma AppearingMore(order: seq<int>, deltas: seq<Delta>, i: nat)
    requires i < |deltas|
    ensures var before := Appearing(order, deltas[..i]); var idx := IndexOf(deltas[i], i);
      Appearing(order, deltas[..i + 1]) == if idx in before then before else before + [idx]
  {
    assert deltas[..i + 1][..i] == deltas[..i];
  }

  lemma AbsorbedMore(calls0: map<int, Call>, order0: seq<int>, deltas: seq<Delta>, i: nat, calls: map<int, Call>, order: seq<int>)
    requires i < |deltas| && Absorbed(calls0, order0, deltas[..i], calls, order)
    ensures var idx := IndexOf(deltas[i], i);
      Absorbed(calls0, order0, deltas[..i + 1], calls[idx := Merge(CallOf(calls, idx), deltas[i])],
               if idx in order then order else order + [idx])
  {
    AppearingMore(order0, deltas, i);
    forall k
      ensures CallOf(calls[IndexOf(deltas[i], i) := Merge(CallOf(calls, IndexOf(deltas[i], i)), deltas[i])], k)
              == MergeAll(CallOf(calls0, k), FragmentsOf(k, deltas[..i + 1]))
    {
      FragmentMore(k, deltas, i, CallOf(calls0, k));
    }
  }

  /** The accumulation loop; `order` is the insertion order of the source's map. */
  method Absorb(calls0: map<int, Call>, order0: seq<int>, deltas: seq<Delta>)
    returns (calls: map<int, Call>, order: seq<int>)
    requires Keyed(calls0, order0)
    ensures Keyed(calls, order)
    ensures Absorbed(calls0, order0, deltas, calls, order)
  {
    calls, order := calls0, order0;
    for i := 0 to |deltas|
      invariant Keyed(calls, order)
      invariant Absorbed(calls0, order0, deltas[..i], calls, order)
    {
      var d := deltas[i];
      var idx := IndexOf(d, i);
      AbsorbedMore(calls0, order0, deltas, i, calls, order);
      KeyedMore(calls, order, idx, Merge(CallOf(calls, idx), d));
      if idx !in calls {
        order := order + [idx];
      }
      calls := calls[idx := Merge(CallOf(calls, idx), d)];
    }
    assert deltas[..|deltas|] == deltas;
  }

  /** What a pass over these indices emits. */
  function Pass<V>(reader: Reader<V>, ks: seq<int>, calls: map<int, Call>, emitted: set<int>, finished: bool): seq<Emission<V>> {
    if ks == [] then []
    else
      var k := ks[|ks| - 1];
      Pass(reader, ks[..|ks| - 1], calls, emitted, finished) + Emitted(reader, k, CallOf(calls, k), k in emitted, finished)
  }

  lemma PassMore<V>(reader: Reader<V>, ks: seq<int>, i: nat, calls: map<int, Call>, emitted: set<int>, finished: bool)
    requires i < |ks|
    ensures Pass(reader, ks[..i + 1], calls, emitted, finished)
            == Pass(reader, ks[..i], calls, emitted, finished)
               + Emitted(reader, ks[i], CallOf(calls, ks[i]), ks[i] in emitted, finished)
  {
    assert ks[..i + 1][..i] == ks[..i];
  }

  /** The emission pass after a chunk: every named call that is ready and was not emitted before. */
  method Emit<V>(reader: Reader<V>, calls: map<int, Call>, order: seq<int>, emitted0: set<int>, finished: bool)
    returns (emitted: set<int>, out: seq<Emission<V>>)
    requires Keyed(calls, order)
    ensures forall k :: For(k, out) == Emitted(reader, k, CallOf(calls, k), k in emitted0, finished)
    ensures forall k :: k in emitted <==> k in emitted0 || For(k, out) != []
    ensures out == Pass(reader, order, calls, emitted0, finished)
  {
    emitted, out := emitted0, [];
    ghost var done := {};
    for i := 0 to |order|
      invariant out == Pass(reader, order[..i], calls, emitted0, finished)
      invariant forall j :: 0 <= j < i ==> order[j] in done
      invariant forall j :: i <= j < |order| ==> order[j] !in done
      invariant AllVisited(reader, calls, emitted0, finished, emitted, out, done)
    {
      emitted, out := EmitOne(reader, order[i], calls, emitted0, finished, emitted, out, done);
      done := done + {order[i]};
      PassMore(reader, order, i, calls, emitted0, finished);
    }
    assert order[..|order|] == order;
    EveryIndexVisited(reader, calls, order, emitted0, finished, emitted, out, done);
  }

  /** The state of the emission pass as index k sees it, before and after its turn. */
  ghost predicate Visited<V>(reader: Reader<V>, k: int, call: Option<Call>, emitted0: set<int>, finished: bool,
                             emitted: set<int>, out: seq<Emission<V>>, visited: bool) {
    && For(k, out) == (if visited then Emitted(reader, k, call, k in emitted0, finished) else [])
    && (k in emitted <==> k in emitted0 || For(k, out) != [])
  }

  lemma VisitOne<V>(reader: Reader<V>, k: int, call: Option<Call>, emitted0: set<int>, finished: bool,
                    emitted: set<int>, out: seq<Emission<V>>, visited: bool, idx: int, current: Call, es: seq<Emission<V>>)
    requires Visited(reader, k, call, emitted0, finished, emitted, out, visited)
    requires es == Emitted(reader, idx, Some(current), idx in emitted, finished)
    requires k == idx ==> !visited && call == Some(current)
    ensures Visited(reader, k, call, emitted0, finished, emitted + (if es == [] then {} else {idx}), out + es, visited || k == idx)
  {
    ForOne(out, idx, es);
  }

  ghost predicate AllVisited<V>(reader: Reader<V>, calls: map<int, Call>, emitted0: set<int>, finished: bool,
                                emitted: set<int>, out: seq<Emission<V>>, done: set<int>) {
    forall k :: Visited(reader, k, CallOf(calls, k), emitted0, finished, emitted, out, k in done)
  }

  method EmitOne<V>(reader: Reader<V>, idx: int, calls: map<int, Call>, ghost emitted0: set<int>, finished: bool,
                    emitted: set<int>, out: seq<Emission<V>>, ghost done: set<int>)
    returns (emitted': set<int>, out': seq<Emission<V>>)
    requires idx in calls && idx !in done && AllVisited(reader, calls, emitted0, finished, emitted, out, done)
    ensures AllVisited(reader, calls, emitted0, finished, emitted', out', done + {idx})
    ensures out' == out + Emitted(reader, idx, CallOf(calls, idx), idx in emitted0, finished)
  {
    emitted', out' := emitted, out;
    var call := calls[idx];
    var ready := Ready(reader, call, finished);
    ghost var es := [];
    assert Visited(reader, idx, CallOf(calls, idx), emitted0, finished, emitted, out, false);
    if idx !in emitted && ready.Some? {
      emitted' := emitted + {idx};
      out' := out + [Emission(idx, call.name, call.id, ready.value)];
      es := [Emission(idx, call.name, call.id, ready.value)];
    }
    forall k
      ensures Visited(reader, k, CallOf(calls, k), emitted0, finished, emitted', out', k in done + {idx})
    {
      assert out + [] == out;
      VisitOne(reader, k, CallOf(calls, k), emitted0, finished, emitted, out, k in done, idx, call, es);
    }
  }

  lemma EveryIndexVisited<V>(reader: Reader<V>, calls: map<int, Call>, order: seq<int>, emitted0: set<int>, finished: bool,
                             emitted: set<int>, out: seq<Emission<V>>, done: set<int>)
    requires Keyed(calls, order) && forall j :: 0 <= j < |order| ==> order[j] in done
    requires AllVisited(reader, calls, emitted0, finished, emitted, out, done)
    ensures forall k :: For(k, out) == Emitted(reader, k, CallOf(calls, k), k in emitted0, finished)
    ensures forall k :: k in emitted <==> k in emitted0 || For(k, out) != []
  {
    forall k
      ensures For(k, out) == Emitted(reader, k, CallOf(calls, k), k in emitted0, finished)
      ensures k in emitted <==> k in emitted0 || For(k, out) != []
    {
      assert Visited(reader, k, CallOf(calls, k), emitted0, finished, emitted, out, k in done);
      if k in calls {
        assert k in order;
      }
    }
  }

  lemma ForOne<V>(out: seq<Emission<V>>, idx: int, es: seq<Emission<V>>)
    requires |es| <= 1 && forall i :: 0 <= i < |es| ==> es[i].index == idx
    ensures For(idx, out + es) == For(idx, out) + es
    ensures forall k :: k != idx ==> For(k, out + es) == For(k, out)
  {
    if es == [] {
      assert out + es == out;
    } else {
      assert (out + es)[..|out|] == out && es == [es[0]];
      assert forall k :: k != idx ==> For(k, out) + [] == For(k, out);
    }
  }

  /** Map and set hold what the chunks so far leave each index with. */
  ghost predicate Holds<V>(reader: Reader<V>, chunks: seq<Chunk>, calls: map<int, Call>, emitted: set<int>) {
    forall k :: HoldsFor(reader, k, chunks, calls, emitted)
  }

  ghost predicate HoldsFor<V>(reader: Reader<V>, k: int, chunks: seq<Chunk>, calls: map<int, Call>, emitted: set<int>) {
    SlotAfter(reader, k, chunks) == Slot(CallOf(calls, k), k in emitted)
  }

  lemma StillHolds<V>(reader: Reader<V>, chunks: seq<Chunk>, chunk: Chunk, calls0: map<int, Call>, emitted0: set<int>,
                      calls: map<int, Call>, emitted: set<int>, more: seq<Emission<V>>)
    requires Holds(reader, chunks, calls0, emitted0)
    requires forall k :: CallOf(calls, k) == MergeAll(CallOf(calls0, k), FragmentsOf(k, chunk.deltas))
    requires forall k :: For(k, more) == Emitted(reader, k, CallOf(calls, k), k in emitted0, chunk.finished)
    requires forall k :: k in emitted <==> k in emitted0 || For(k, more) != []
    ensures Holds(reader, chunks + [chunk], calls, emitted)
  {
    assert (chunks + [chunk])[..|chunks|] == chunks;
    forall k ensures HoldsFor(reader, k, chunks + [chunk], calls, emitted) {
      assert HoldsFor(reader, k, chunks, calls0, emitted0);
    }
  }

  lemma {:induction false} PassIsEach<V>(reader: Reader<V>, ks: seq<int>, chunks: seq<Chunk>, chunk: Chunk,
                                         calls0: map<int, Call>, emitted0: set<int>, calls: map<int, Call>)
    requires Holds(reader, chunks, calls0, emitted0)
    requires forall k :: CallOf(calls, k) == MergeAll(CallOf(calls0, k), FragmentsOf(k, chunk.deltas))
    ensures Pass(reader, ks, calls, emitted0, chunk.finished) == Each(reader, ks, chunks, chunk)
  {
    if ks != [] {
      assert HoldsFor(reader, ks[|ks| - 1], chunks, calls0, emitted0);
      PassIsEach(reader, ks[..|ks| - 1], chunks, chunk, calls0, emitted0, calls);
    }
  }

  lemma EndedMore(chunks: seq<Chunk>, chunk: Chunk)
    ensures Ended(chunks + [chunk]) <==> Ended(chunks) || chunk.finished
  {
    assert (chunks + [chunk])[..|chunks|] == chunks;
  }

  lemma StreamedMore<V>(reader: Reader<V>, chunks: seq<Chunk>, chunk: Chunk)
    requires !Ended(chunks)
    ensures Order(chunks + [chunk]) == Appearing(Order(chunks), chunk.deltas)
    ensures Streamed(reader, chunks + [chunk])
            == Streamed(reader, chunks) + Each(reader, Appearing(Order(chunks), chunk.deltas), chunks, chunk)
  {
    assert (chunks + [chunk])[..|chunks|] == chunks;
  }

  /** What holds of the loop's variables before chunk i. */
  ghost predicate Collected<V>(reader: Reader<V>, chunks: seq<Chunk>, i: nat, calls: map<int, Call>, order: seq<int>,
                               emitted: set<int>, out: seq<Emission<V>>)
    requires i <= |chunks|
  {
    && Keyed(calls, order) && order == Order(chunks[..i])
    && OnTrack(reader, chunks, out, if Ended(chunks[..i]) then [] else chunks[i..], calls, emitted)
    && Holds(reader, chunks[..i], calls, emitted)
    && out == Streamed(reader, chunks[..i])
  }

  lemma StreamedByPass<V>(reader: Reader<V>, chunks: seq<Chunk>, chunk: Chunk, calls0: map<int, Call>, emitted0: set<int>,
                          calls: map<int, Call>, order: seq<int>)
    requires !Ended(chunks) && Holds(reader, chunks, calls0, emitted0)
    requires Absorbed(calls0, Order(chunks), chunk.deltas, calls, order)
    ensures order == Order(chunks + [chunk])
    ensures Streamed(reader, chunks) + Pass(reader, order, calls, emitted0, chunk.finished) == Streamed(reader, chunks + [chunk])
  {
    StreamedMore(reader, chunks, chunk);
    PassIsEach(reader, order, chunks, chunk, calls0, emitted0, calls);
  }

  lemma CollectedMore<V>(reader: Reader<V>, chunks: seq<Chunk>, i: nat, calls0: map<int, Call>, order0: seq<int>,
                         emitted0: set<int>, out0: seq<Emission<V>>, calls: map<int, Call>, order: seq<int>, emitted: set<int>,
                         more: seq<Emission<V>>)
    requires i < |chunks| && !Ended(chunks[..i]) && Collected(reader, chunks, i, calls0, order0, emitted0, out0)
    requires Keyed(calls, order) && Absorbed(calls0, order0, chunks[i].deltas, calls, order)
    requires forall k :: For(k, more) == Emitted(reader, k, CallOf(calls, k), k in emitted0, chunks[i].finished)
    requires forall k :: k in emitted <==> k in emitted0 || For(k, more) != []
    requires more == Pass(reader, order, calls, emitted0, chunks[i].finished)
    ensures Ended(chunks[..i + 1]) == chunks[i].finished
    ensures Collected(reader, chunks, i + 1, calls, order, emitted, out0 + more)
  {
    PrefixAndRest(chunks, i);
    EndedMore(chunks[..i], chunks[i]);
    StreamedByPass(reader, chunks[..i], chunks[i], calls0, emitted0, calls, order);
    StillHolds(reader, chunks[..i], chunks[i], calls0, emitted0, calls, emitted, more);
    StaysOnTrack(reader, chunks, out0, more, chunks[i], chunks[i + 1..], calls0, emitted0, calls, emitted);
  }

  lemma CollectedAll<V>(reader: Reader<V>, chunks: seq<Chunk>, i: nat, calls: map<int, Call>, order: seq<int>,
                        emitted: set<int>, out: seq<Emission<V>>)
    requires i <= |chunks| && Collected(reader, chunks, i, calls, order, emitted, out)
    requires Ended(chunks[..i]) || i == |chunks|
    ensures out == Streamed(reader, chunks)
    ensures forall k :: For(k, out) == Emissions(reader, k, chunks, Slot(None, false))
  {
    if Ended(chunks[..i]) {
      StreamStops(reader, chunks, i);
    } else {
      assert chunks[i..] == [] && chunks[..i] == chunks;
    }
    AllSoFar(reader, out, calls, emitted);
  }

  /** The stream loop: absorb, emit, stop after the finished chunk. Each index sees its own part only, and the
    * emissions come in the order of the chunks and of the first fragments. */
  method CollectToolCalls<V>(reader: Reader<V>, chunks: seq<Chunk>) returns (out: seq<Emission<V>>)
    ensures out == Streamed(reader, chunks)
    ensures forall k :: For(k, out) == Emissions(reader, k, chunks, Slot(None, false))
  {
    var calls: map<int, Call>, order: seq<int>, emitted: set<int> := map[], [], {};
    out := [];
    assert chunks[0..] == chunks;
    var i: nat := 0;
    while i < |chunks|
      invariant i <= |chunks| && !Ended(chunks[..i])
      invariant Collected(reader, chunks, i, calls, order, emitted, out)
    {
      ghost var calls0, order0, emitted0, out0 := calls, order, emitted, out;
      calls, order := Absorb(calls, order, chunks[i].deltas);
      var more;
      emitted, more := Emit(reader, calls, order, emitted, chunks[i].finished);
      out := out + more;
      CollectedMore(reader, chunks, i, calls0, order0, emitted0, out0, calls, order, emitted, more);
      if chunks[i].finished {
        CollectedAll(reader, chunks, i + 1, calls, order, emitted, out);
        return;
      }
      i := i + 1;
    }
    CollectedAll(reader, chunks, i, calls, order, emitted, out);
  }

  /** For every index, what it has emitted and still will is what the whole stream makes it emit. */
  ghost predicate OnTrack<V>(reader: Reader<V>, chunks: seq<Chunk>, out: seq<Emission<V>>, rest: seq<Chunk>,
                                   calls: map<int, Call>, emitted: set<int>) {
    forall k :: SoFar(reader, k, out, rest, calls, emitted) == Emissions(reader, k, chunks, Slot(None, false))
  }

  lemma StaysOnTrack<V>(reader: Reader<V>, chunks: seq<Chunk>, out: seq<Emission<V>>, more: seq<Emission<V>>, chunk: Chunk,
                        rest: seq<Chunk>, calls0: map<int, Call>, emitted0: set<int>, calls: map<int, Call>, emitted: set<int>)
    requires OnTrack(reader, chunks, out, [chunk] + rest, calls0, emitted0)
    requires forall k :: CallOf(calls, k) == MergeAll(CallOf(calls0, k), FragmentsOf(k, chunk.deltas))
    requires forall k :: For(k, more) == Emitted(reader, k, CallOf(calls, k), k in emitted0, chunk.finished)
    requires forall k :: k in emitted <==> k in emitted0 || For(k, more) != []
    ensures OnTrack(reader, chunks, out + more, if chunk.finished then [] else rest, calls, emitted)
  {
    forall k
      ensures SoFar(reader, k, out + more, if chunk.finished then [] else rest, calls, emitted)
              == Emissions(reader, k, chunks, Slot(None, false))
    {
      OneChunk(reader, k, out, more, chunk, rest, calls0, emitted0, calls, emitted);
    }
  }

  /** What index k has emitted, and what it will at the chunks still to come. */
  ghost function SoFar<V>(reader: Reader<V>, k: int, out: seq<Emission<V>>, rest: seq<Chunk>, calls: map<int, Call>,
                          emitted: set<int>): seq<Emission<V>> {
    For(k, out) + Emissions(reader, k, rest, Slot(CallOf(calls, k), k in emitted))
  }

  lemma AllSoFar<V>(reader: Reader<V>, out: seq<Emission<V>>, calls: map<int, Call>, emitted: set<int>)
    ensures forall k :: SoFar(reader, k, out, [], calls, emitted) == For(k, out)
  {
  }

  lemma OneChunk<V>(reader: Reader<V>, k: int, out: seq<Emission<V>>, more: seq<Emission<V>>, chunk: Chunk, rest: seq<Chunk>,
                    calls0: map<int, Call>, emitted0: set<int>, calls: map<int, Call>, emitted: set<int>)
    requires CallOf(calls, k) == MergeAll(CallOf(calls0, k), FragmentsOf(k, chunk.deltas))
    requires For(k, more) == Emitted(reader, k, CallOf(calls, k), k in emitted0, chunk.finished)
    requires k in emitted <==> k in emitted0 || For(k, more) != []
    ensures SoFar(reader, k, out + more, if chunk.finished then [] else rest, calls, emitted)
            == SoFar(reader, k, out, [chunk] + rest, calls0, emitted0)
  {
    ForConcat(k, out, more);
    EmissionsUnfold(reader, k, chunk, rest, Slot(CallOf(calls0, k), k in emitted0));
    var slot := Slot(CallOf(calls, k), k in emitted);
    Regroup(For(k, out), For(k, more), if chunk.finished then [] else Emissions(reader, k, rest, slot));
    assert For(k, more) + [] == For(k, more);
  }

  lemma EmissionsUnfold<V>(reader: Reader<V>, k: int, chunk: Chunk, rest: seq<Chunk>, slot: Slot)
    ensures var call := MergeAll(slot.call, FragmentsOf(k, chunk.deltas));
            var out := Emitted(reader, k, call, slot.emitted, chunk.finished);
            Emissions(reader, k, [chunk] + rest, slot)
            == if chunk.finished then out else out + Emissions(reader, k, rest, Slot(call, slot.emitted || out != []))
  {
    assert ([chunk] + rest)[1..] == rest;
  }

  lemma {:induction false} ForConcat<V>(k: int, a: seq<Emission<V>>, b: seq<Emission<V>>)
    ensures For(k, a + b) == For(k, a) + For(k, b)
  {
    if b == [] {
      assert a + b == a;
    } else {
      var n := |b| - 1;
      ForConcat(k, a, b[..n]);
      assert (a + b)[..|a + b| - 1] == a + b[..n];
    }
  }

  // ---- At most one emission per index -------------------------------------------------------------------

  lemma {:induction false} EmittedStaysSilent<V>(reader: Reader<V>, k: int, chunks: seq<Chunk>, slot: Slot)
    requires slot.emitted
    ensures Emissions(reader, k, chunks, slot) == []
  {
    if chunks != [] && !chunks[0].finished {
      EmittedStaysSilent(reader, k, chunks[1..], Slot(MergeAll(slot.call, FragmentsOf(k, chunks[0].deltas)), true));
    }
  }

  /** Whatever the stream, an index is emitted at most once. */
  lemma {:induction false} EmittedAtMostOnce<V>(reader: Reader<V>, k: int, chunks: seq<Chunk>, slot: Slot)
    ensures |Emissions(reader, k, chunks, slot)| <= 1
  {
    if chunks != [] && !chunks[0].finished {
      var call := MergeAll(slot.call, FragmentsOf(k, chunks[0].deltas));
      var out := Emitted(reader, k, call, slot.emitted, false);
      if out != [] {
        EmittedStaysSilent(reader, k, chunks[1..], Slot(call, true));
      } else {
        EmittedAtMostOnce(reader, k, chunks[1..], Slot(call, slot.emitted));
      }
    }
  }
}
