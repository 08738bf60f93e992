/** Resumable workflows: the runs of one workflow under one idempotency key, one after the other.
  *
  * A run is a machine over its awaits: it asks for approval, runs the step, then persists the completed
  * list. It may be denied, fail, or lose the process at any await; the next run starts from the state kept
  * in memory after a complete run, or else from the file.
  */
module Workflows {
  import opened Options

  type Id = string

  datatype WorkflowStep = WorkflowStep(id: Id, requiresApproval: bool)

  datatype Stage = Asking | Running | Persisting

  /** A run suspended at a step. `shared` when its completed list is the one kept in memory. */
  datatype Progress = Progress(steps: seq<WorkflowStep>, position: nat, stage: Stage, completed: seq<Id>, shared: bool)

  /** The list kept in memory, the list in the file (empty when there is none), and the run in progress. */
  datatype Runtime = Runtime(memory: Option<seq<Id>>, disk: seq<Id>, run: Option<Progress>)

  datatype Event = Begin(steps: seq<WorkflowStep>) | Answer(approved: bool) | RunStep(ok: bool) | Persist(ok: bool) | Crash

  /** On to the first step from this position that is not completed yet; past the last one, the run ends. */
  function Advance(s: Runtime, p: Progress): Runtime
    decreases |p.steps| - p.position
  {
    if p.position >= |p.steps| then s.(memory := Some(p.completed), run := None)
    else if p.steps[p.position].id in p.completed then Advance(s, p.(position := p.position + 1))
    else s.(run := Some(p.(stage := if p.steps[p.position].requiresApproval then Asking else Running)))
  }

  predicate At(s: Runtime, stage: Stage) {
    s.run.Some? && s.run.value.stage == stage && s.run.value.position < |s.run.value.steps|
  }

  function Current(s: Runtime): WorkflowStep
    requires s.run.Some? && s.run.value.position < |s.run.value.steps|
  {
    s.run.value.steps[s.run.value.position]
  }

  predicate Enabled(s: Runtime, e: Event) {
    match e
    case Begin(_) => s.run.None?
    case Answer(_) => At(s, Asking)
    case RunStep(_) => At(s, Running)
    case Persist(_) => At(s, Persisting)
    case Crash => true
  }

  function Pushed(s: Runtime): Runtime
    requires At(s, Running)
  {
    var completed := s.run.value.completed + [Current(s).id];
    s.(memory := if s.run.value.shared then Some(completed) else s.memory,
       run := Some(s.run.value.(completed := completed, stage := Persisting)))
  }

  function Step(s: Runtime, e: Event): Runtime
    requires Enabled(s, e)
  {
    match e
    case Begin(steps) =>
      Advance(s, Progress(steps, 0, Running, if s.memory.Some? then s.memory.value else s.disk, s.memory.Some?))
    case Answer(approved) => s.(run := if approved then Some(s.run.value.(stage := Running)) else None)
    case RunStep(ok) => if ok then Pushed(s) else s.(run := None)
    case Persist(ok) =>
      if ok then Advance(s.(disk := s.run.value.completed), s.run.value.(position := s.run.value.position + 1))
      else s.(run := None)
    case Crash => s.(memory := None, run := None)
  }

  // ---- What happened, in order ----------------------------------------------------------------------------

  datatype Kind = Approved | Executed | Failed | Persisted | Lost

  datatype Entry = Entry(kind: Kind, step: WorkflowStep)

  /** `Lost`: the step ran, but the run ended before its completion was persisted. */
  function Entries(s: Runtime, e: Event): seq<Entry>
    requires Enabled(s, e)
  {
    match e
    case Begin(_) => []
    case Answer(approved) => if approved then [Entry(Approved, Current(s))] else []
    case RunStep(ok) => [Entry(if ok then Executed else Failed, Current(s))]
    case Persist(ok) => [Entry(if ok then Persisted else Lost, Current(s))]
    case Crash => if At(s, Persisting) then [Entry(Lost, Current(s))] else []
  }

  predicate IsRun(s: Runtime, events: seq<Event>)
    decreases |events|
  {
    events == [] || (Enabled(s, events[0]) && IsRun(Step(s, events[0]), events[1..]))
  }

  function After(s: Runtime, events: seq<Event>): Runtime
    requires IsRun(s, events)
    decreases |events|
  {
    if events == [] then s else After(Step(s, events[0]), events[1..])
  }

  function Log(s: Runtime, events: seq<Event>): seq<Entry>
    requires IsRun(s, events)
    decreases |events|
  {
    if events == [] then [] else Entries(s, events[0]) + Log(Step(s, events[0]), events[1..])
  }

  function Tally(log: seq<Entry>, kind: Kind, id: Id): nat {
    if log == [] then 0
    else
      var last := log[|log| - 1];
      (if last.kind == kind && last.step.id == id then 1 else 0) + Tally(log[..|log| - 1], kind, id)
  }

  // ---- The invariant ------------------------------------------------------------------------------------

  ghost predicate NoRepeats(s: seq<Id>) {
    forall i, j :: 0 <= i < j < |s| ==> s[i] != s[j]
  }

  /** The list in use at this point: of the run in progress, in memory, or in the file. */
  function Live(s: Runtime): seq<Id> {
    if s.run.Some? then s.run.value.completed else if s.memory.Some? then s.memory.value else s.disk
  }

  predicate Pending(s: Runtime, id: Id) {
    At(s, Persisting) && Current(s).id == id
  }

  predicate RunFits(s: Runtime) {
    s.run.Some? ==>
      var p := s.run.value;
      && p.position < |p.steps|
      && (if p.shared then s.memory == Some(p.completed) else s.memory.None?)
      && if p.stage == Persisting then
           p.completed != [] && p.completed[|p.completed| - 1] == Current(s).id && s.disk <= p.completed[..|p.completed| - 1]
         else
           Current(s).id !in p.completed && (p.stage == Asking ==> Current(s).requiresApproval)
  }

  ghost predicate ListsFit(s: Runtime) {
    RunFits(s) && s.disk <= Live(s) && NoRepeats(Live(s))
  }

  /** Every execution was persisted, lost, or waits to be persisted; a persisted step is in the file. */
  predicate Accounted(s: Runtime, log: seq<Entry>, id: Id) {
    && Tally(log, Executed, id) == Tally(log, Persisted, id) + Tally(log, Lost, id) + (if Pending(s, id) then 1 else 0)
    && Tally(log, Persisted, id) <= 1
    && (Tally(log, Persisted, id) == 1 ==> id in s.disk)
  }

  ghost predicate AllAccounted(s: Runtime, log: seq<Entry>) {
    forall id :: Accounted(s, log, id)
  }

  predicate Ran(e: Entry) {
    e.kind == Executed || e.kind == Failed
  }

  predicate ApprovedFirst(log: seq<Entry>, k: nat)
    requires k < |log|
  {
    Ran(log[k]) && log[k].step.requiresApproval ==> k > 0 && log[k - 1] == Entry(Approved, log[k].step)
  }

  /** A step that needs approval runs right after it was approved. */
  ghost predicate ApprovalsPrecede(log: seq<Entry>) {
    forall k :: 0 <= k < |log| ==> ApprovedFirst(log, k)
  }

  /** A step whose completion was persisted is not run again. */
  ghost predicate PersistedStayDone(log: seq<Entry>) {
    forall a, b :: 0 <= a < b < |log| && log[a].kind == Persisted && Ran(log[b]) ==> log[a].step.id != log[b].step.id
  }

  predicate ApprovalFresh(s: Runtime, log: seq<Entry>) {
    At(s, Running) && Current(s).requiresApproval ==> log != [] && log[|log| - 1] == Entry(Approved, Current(s))
  }

  ghost predicate Sound(s: Runtime, log: seq<Entry>) {
    && ListsFit(s)
    && AllAccounted(s, log)
    && ApprovalsPrecede(log)
    && PersistedStayDone(log)
    && ApprovalFresh(s, log)
  }

  /** An advance leaves the lists alone and stops at a step that is still to do. */
  lemma {:induction false} AdvanceFits(s: Runtime, p: Progress)
    requires s.disk <= p.completed && NoRepeats(p.completed)
    requires if p.shared then s.memory == Some(p.completed) else s.memory.None?
    ensures var s' := Advance(s, p);
      && ListsFit(s') && s'.disk == s.disk && Live(s') == p.completed
      && !At(s', Persisting) && (At(s', Running) ==> !Current(s').requiresApproval)
    decreases |p.steps| - p.position
  {
    if p.position < |p.steps| && p.steps[p.position].id in p.completed {
      AdvanceFits(s, p.(position := p.position + 1));
    }
  }

  lemma StepFits(s: Runtime, e: Event)
    requires ListsFit(s) && Enabled(s, e)
    ensures ListsFit(Step(s, e))
  {
    match e
    case Begin(steps) =>
      AdvanceFits(s, Progress(steps, 0, Running, if s.memory.Some? then s.memory.value else s.disk, s.memory.Some?));
    case Persist(ok) =>
      if ok {
        AdvanceFits(s.(disk := s.run.value.completed), s.run.value.(position := s.run.value.position + 1));
      } else {
        PrefixNoRepeats(s.disk, s.run.value.completed);
      }
    case Answer(_) => PrefixNoRepeats(s.disk, s.run.value.completed);
    case RunStep(_) => PrefixNoRepeats(s.disk, s.run.value.completed);
    case Crash => PrefixNoRepeats(s.disk, Live(s));
  }

  lemma PrefixNoRepeats(s: seq<Id>, t: seq<Id>)
    requires s <= t && NoRepeats(t)
    ensures NoRepeats(s)
  {
    forall i, j | 0 <= i < j < |s| ensures s[i] != s[j] {
      assert s[i] == t[i] && s[j] == t[j];
    }
  }

  lemma TallyAppend(log: seq<Entry>, e: Entry, kind: Kind, id: Id)
    ensures Tally(log + [e], kind, id) == Tally(log, kind, id) + if e.kind == kind && e.step.id == id then 1 else 0
  {
    assert (log + [e])[..|log|] == log;
  }

  /** The file gains only the step just persisted, and keeps all it had. */
  lemma PersistGrowsDisk(s: Runtime, id: Id)
    requires ListsFit(s) && At(s, Persisting)
    ensures var s' := Step(s, Persist(true));
      && s'.disk == s.run.value.completed && s.disk <= s'.disk
      && Current(s).id in s'.disk && Current(s).id !in s.disk && !Pending(s', id)
  {
    var p := s.run.value;
    AdvanceFits(s.(disk := p.completed), p.(position := p.position + 1));
    assert p.completed[|p.completed| - 1] == Current(s).id;
    forall i | 0 <= i < |s.disk| ensures s.disk[i] != Current(s).id {
      assert s.disk[i] == p.completed[i];
    }
  }

  lemma StepAccounts(s: Runtime, log: seq<Entry>, e: Event, id: Id)
    requires ListsFit(s) && Enabled(s, e) && Accounted(s, log, id)
    ensures Accounted(Step(s, e), log + Entries(s, e), id)
  {
    if Entries(s, e) != [] {
      var entry := Entries(s, e)[0];
      assert Entries(s, e) == [entry];
      TallyAppend(log, entry, Executed, id);
      TallyAppend(log, entry, Persisted, id);
      TallyAppend(log, entry, Lost, id);
      if e == Persist(true) {
        PersistGrowsDisk(s, id);
      }
    } else {
      assert log + Entries(s, e) == log;
      if e.Begin? {
        AdvanceFits(s, Progress(e.steps, 0, Running, if s.memory.Some? then s.memory.value else s.disk, s.memory.Some?));
      }
    }
  }

  lemma {:induction false} TallySeen(log: seq<Entry>, k: nat)
    requires k < |log|
    ensures Tally(log, log[k].kind, log[k].step.id) >= 1
  {
    if k < |log| - 1 {
      TallySeen(log[..|log| - 1], k);
    }
  }

  lemma StepKeepsOrder(s: Runtime, log: seq<Entry>, e: Event)
    requires Sound(s, log) && Enabled(s, e)
    ensures ApprovalsPrecede(log + Entries(s, e))
    ensures PersistedStayDone(log + Entries(s, e))
  {
    var log' := log + Entries(s, e);
    forall k | 0 <= k < |log'| ensures ApprovedFirst(log', k) {
      if k < |log| {
        assert ApprovedFirst(log, k);
      }
    }
    forall a, b | 0 <= a < b < |log'| && log'[a].kind == Persisted && Ran(log'[b])
      ensures log'[a].step.id != log'[b].step.id
    {
      if b == |log| {
        var id := log[a].step.id;
        TallySeen(log, a);
        assert Accounted(s, log, id);
        assert id in s.disk;
        assert id in s.run.value.completed;
      }
    }
  }

  lemma StepKeepsApprovalFresh(s: Runtime, log: seq<Entry>, e: Event)
    requires ListsFit(s) && ApprovalFresh(s, log) && Enabled(s, e)
    ensures ApprovalFresh(Step(s, e), log + Entries(s, e))
  {
    match e
    case Begin(steps) =>
      AdvanceFits(s, Progress(steps, 0, Running, if s.memory.Some? then s.memory.value else s.disk, s.memory.Some?));
    case Persist(ok) =>
      if ok {
        AdvanceFits(s.(disk := s.run.value.completed), s.run.value.(position := s.run.value.position + 1));
      }
    case Answer(_) =>
    case RunStep(_) =>
    case Crash =>
  }

  lemma StepKeepsSound(s: Runtime, log: seq<Entry>, e: Event)
    requires Sound(s, log) && Enabled(s, e)
    ensures Sound(Step(s, e), log + Entries(s, e))
  {
    StepFits(s, e);
    StepKeepsOrder(s, log, e);
    StepKeepsApprovalFresh(s, log, e);
    forall id ensures Accounted(Step(s, e), log + Entries(s, e), id) {
      assert Accounted(s, log, id);
      StepAccounts(s, log, e, id);
    }
  }

  /** Whatever steps the runs were given, and wherever they were denied, failed or crashed. */
  lemma {:induction false} RunKeepsSound(s: Runtime, log: seq<Entry>, events: seq<Event>)
    requires Sound(s, log) && IsRun(s, events)
    ensures Sound(After(s, events), log + Log(s, events))
    decreases |events|
  {
    if events == [] {
      assert log + Log(s, events) == log;
    } else {
      StepKeepsSound(s, log, events[0]);
      RunKeepsSound(Step(s, events[0]), log + Entries(s, events[0]), events[1..]);
      assert log + Log(s, events) == log + Entries(s, events[0]) + Log(Step(s, events[0]), events[1..]);
    }
  }

  lemma SoundBounds(s: Runtime, log: seq<Entry>, id: Id)
    requires Sound(s, log)
    ensures Tally(log, Executed, id) <= 1 + Tally(log, Lost, id)
  {
    assert Accounted(s, log, id);
    if Pending(s, id) {
      PersistGrowsDisk(s, id);
    }
  }

  /** Each step is executed at most once more than it was lost between its run and its persist. */
  lemma ExecutionsAreBounded(events: seq<Event>, id: Id)
    requires IsRun(Runtime(None, [], None), events)
    ensures var log := Log(Runtime(None, [], None), events);
      && Tally(log, Executed, id) <= 1 + Tally(log, Lost, id)
      && ApprovalsPrecede(log) && PersistedStayDone(log)
  {
    var s := Runtime(None, [], None);
    forall id' ensures Accounted(s, [], id') {
    }
    RunKeepsSound(s, [], events);
    assert [] + Log(s, events) == Log(s, events);
    SoundBounds(After(s, events), Log(s, events), id);
  }

  // ---- With a fixed definition ----------------------------------------------------------------------------

  function Ids(steps: seq<WorkflowStep>): (ids: seq<Id>)
    ensures |ids| == |steps|
    ensures forall i :: 0 <= i < |steps| ==> ids[i] == steps[i].id
  {
    seq(|steps|, i requires 0 <= i < |steps| => steps[i].id)
  }

  /** The ids in order of first appearance. */
  function Firsts(ids: seq<Id>): seq<Id> {
    if ids == [] then []
    else
      var last := ids[|ids| - 1];
      if last in ids[..|ids| - 1] then Firsts(ids[..|ids| - 1]) else Firsts(ids[..|ids| - 1]) + [last]
  }

  lemma {:induction false} FirstsMembers(ids: seq<Id>, id: Id)
    ensures id in Firsts(ids) <==> id in ids
    ensures NoRepeats(Firsts(ids))
  {
    if ids != [] {
      var n := |ids| - 1;
      assert ids == ids[..n] + [ids[n]];
      FirstsMembers(ids[..n], id);
      FirstsMembers(ids[..n], ids[n]);
    }
  }

  lemma {:induction false} FirstsOfDistinct(ids: seq<Id>)
    requires NoRepeats(ids)
    ensures Firsts(ids) == ids
  {
    if ids != [] {
      var n := |ids| - 1;
      FirstsOfDistinct(ids[..n]);
      assert ids == ids[..n] + [ids[n]];
    }
  }

  lemma {:induction false} FirstsOfPrefix(ids: seq<Id>, n: nat)
    requires n <= |ids|
    ensures Firsts(ids[..n]) <= Firsts(ids)
    decreases |ids|
  {
    if n == |ids| {
      assert ids[..n] == ids;
    } else {
      var m := |ids| - 1;
      assert ids[..m][..n] == ids[..n];
      FirstsOfPrefix(ids[..m], n);
    }
  }

  /** The completed list holds the first appearances up to this position, and no others out of order. */
  predicate InOrder(ids: seq<Id>, completed: seq<Id>, position: nat) {
    position <= |ids| && Firsts(ids[..position]) <= completed <= Firsts(ids)
  }

  lemma SkipKeepsOrder(ids: seq<Id>, completed: seq<Id>, position: nat)
    requires InOrder(ids, completed, position) && position < |ids| && ids[position] in completed
    ensures InOrder(ids, completed, position + 1)
  {
    var id := ids[position];
    assert ids[..position + 1][..position] == ids[..position];
    if id !in ids[..position] {
      var k := |Firsts(ids[..position])|;
      FirstsOfPrefix(ids, position + 1);
      FirstsMembers(ids, id);
      assert Firsts(ids)[k] == id;
      var i :| 0 <= i < |completed| && completed[i] == id;
      assert Firsts(ids)[i] == id;
      assert i == k;
    }
  }

  lemma NotBeyond(s: seq<Id>, t: seq<Id>, k: nat)
    requires s <= t && k < |t| && t[k] !in s
    ensures |s| <= k
  {
  }

  lemma PushKeepsOrder(ids: seq<Id>, completed: seq<Id>, position: nat)
    requires InOrder(ids, completed, position) && position < |ids| && ids[position] !in completed
    ensures completed + [ids[position]] == Firsts(ids[..position + 1]) <= Firsts(ids)
  {
    var id := ids[position];
    assert ids[..position + 1][..position] == ids[..position];
    FirstsMembers(ids[..position], id);
    FirstsOfPrefix(ids, position + 1);
    var k := |Firsts(ids[..position])|;
    assert Firsts(ids)[k] == id;
    NotBeyond(completed, Firsts(ids), k);
    assert completed == Firsts(ids[..position]);
  }

  predicate Follows(s: Runtime, ids: seq<Id>) {
    && Live(s) <= Firsts(ids)
    && (s.run.Some? ==>
          && Ids(s.run.value.steps) == ids
          && s.run.value.position < |ids|
          && if s.run.value.stage == Persisting then
               s.run.value.completed == Firsts(ids[..s.run.value.position + 1])
             else
               InOrder(ids, s.run.value.completed, s.run.value.position))
  }

  lemma {:induction false} AdvanceFollows(s: Runtime, p: Progress)
    requires InOrder(Ids(p.steps), p.completed, p.position)
    ensures Follows(Advance(s, p), Ids(p.steps))
    ensures Advance(s, p).run.None? ==> Advance(s, p).memory == Some(Firsts(Ids(p.steps)))
    decreases |p.steps| - p.position
  {
    var ids := Ids(p.steps);
    if p.position >= |p.steps| {
      assert ids[..p.position] == ids;
      assert p.completed == Firsts(ids);
    } else if p.steps[p.position].id in p.completed {
      SkipKeepsOrder(ids, p.completed, p.position);
      AdvanceFollows(s, p.(position := p.position + 1));
    }
  }

  predicate Uses(e: Event, ids: seq<Id>) {
    e.Begin? ==> Ids(e.steps) == ids
  }

  lemma PersistFollows(s: Runtime, ids: seq<Id>)
    requires ListsFit(s) && Follows(s, ids) && At(s, Persisting)
    ensures Follows(Step(s, Persist(true)), ids)
  {
    var p := s.run.value;
    var next := p.(position := p.position + 1);
    assert Ids(next.steps) == ids;
    FirstsOfPrefix(ids, next.position);
    AdvanceFollows(s.(disk := p.completed), next);
    assert Step(s, Persist(true)) == Advance(s.(disk := p.completed), next);
  }

  lemma BeginFollows(s: Runtime, ids: seq<Id>, steps: seq<WorkflowStep>)
    requires Follows(s, ids) && s.run.None? && Ids(steps) == ids
    ensures Follows(Step(s, Begin(steps)), ids)
  {
    assert Firsts(ids[..0]) == [];
    AdvanceFollows(s, Progress(steps, 0, Running, Live(s), s.memory.Some?));
  }

  lemma StepFollows(s: Runtime, ids: seq<Id>, e: Event)
    requires ListsFit(s) && Follows(s, ids) && Enabled(s, e) && Uses(e, ids)
    ensures Follows(Step(s, e), ids)
  {
    match e
    case Begin(steps) => BeginFollows(s, ids, steps);
    case RunStep(ok) =>
      if ok {
        PushKeepsOrder(ids, s.run.value.completed, s.run.value.position);
      }
    case Persist(ok) =>
      if ok {
        PersistFollows(s, ids);
      }
    case Answer(_) =>
    case Crash =>
  }

  ghost predicate AllUse(events: seq<Event>, ids: seq<Id>) {
    forall i :: 0 <= i < |events| ==> Uses(events[i], ids)
  }

  /** With the same step ids in every run, the completed list is always a prefix of the ids in order of
    * first appearance: of the step list itself when its ids are distinct. */
  lemma {:induction false} CompletedIsPrefix(s: Runtime, ids: seq<Id>, events: seq<Event>)
    requires ListsFit(s) && Follows(s, ids) && IsRun(s, events) && AllUse(events, ids)
    ensures Live(After(s, events)) <= Firsts(ids)
    ensures After(s, events).disk <= Firsts(ids)
    ensures NoRepeats(ids) ==> Live(After(s, events)) <= ids
    decreases |events|
  {
    if events == [] {
      if NoRepeats(ids) {
        FirstsOfDistinct(ids);
      }
    } else {
      assert Uses(events[0], ids);
      StepFits(s, events[0]);
      StepFollows(s, ids, events[0]);
      forall i | 0 <= i < |events[1..]| ensures Uses(events[1..][i], ids) {
        assert Uses(events[i + 1], ids);
      }
      CompletedIsPrefix(Step(s, events[0]), ids, events[1..]);
    }
  }

  // ---- How a run ends -------------------------------------------------------------------------------------

  /** A denial, a failed step, a failed write and a crash end the run and leave the file as it was; only a crash
    * loses the list kept in memory. */
  lemma StopsTheRun(s: Runtime, e: Event)
    requires Enabled(s, e) && e in {Answer(false), RunStep(false), Persist(false), Crash}
    ensures Step(s, e) == Runtime(if e.Crash? then None else s.memory, s.disk, None)
  {
  }

  lemma {:induction false} AdvanceStops(s: Runtime, p: Progress)
    ensures var s' := Advance(s, p);
      && s'.disk == s.disk
      && (s'.run.None? ==> s'.memory == Some(p.completed) && forall i :: p.position <= i < |p.steps| ==> p.steps[i].id in p.completed)
      && (s'.run.Some? ==>
            var q := s'.run.value;
            && s'.memory == s.memory && q.steps == p.steps && q.completed == p.completed && q.shared == p.shared
            && p.position <= q.position < |q.steps| && q.steps[q.position].id !in q.completed
            && (forall i :: p.position <= i < q.position ==> p.steps[i].id in p.completed)
            && q.stage == if q.steps[q.position].requiresApproval then Asking else Running)
    decreases |p.steps| - p.position
  {
    if p.position < |p.steps| && p.steps[p.position].id in p.completed {
      AdvanceStops(s, p.(position := p.position + 1));
    }
  }

  /** After a persisted step the run goes on to the first later step that is not completed, asking first if that
    * step needs approval; when there is none it ends with the list in memory. */
  lemma GoesOnToNext(s: Runtime)
    requires At(s, Persisting)
    ensures var p := s.run.value; var s' := Step(s, Persist(true));
      && s'.disk == p.completed
      && if s'.run.None? then
           s'.memory == Some(p.completed) && forall i :: p.position < i < |p.steps| ==> p.steps[i].id in p.completed
         else
           var q := s'.run.value;
           && p.position < q.position < |p.steps| && q.steps == p.steps && q.completed == p.completed
           && p.steps[q.position].id !in p.completed
           && (forall i :: p.position < i < q.position ==> p.steps[i].id in p.completed)
           && (q.stage == Asking <==> p.steps[q.position].requiresApproval)
  {
    var p := s.run.value;
    AdvanceStops(s.(disk := p.completed), p.(position := p.position + 1));
  }
}
