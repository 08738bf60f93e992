/** What every interleaving of one key's turn queue keeps: one drain loop per state object, no lost
  * wake-up, conservation and order; when one key has a single drain loop; and when the hard cap is one.
  */
module TurnQueueSafety {
  import opened Options
  import opened TurnQueue

  // ---- One drain loop per state object --------------------------------------------------------

  ghost predicate KnownStates<R>(q: Queue<R>) {
    && (q.session.Some? ==> q.session.value in q.refs)
    && q.running <= q.refs
    && (forall i :: 0 <= i < |q.jobs| ==> q.jobs[i].state in q.refs)
    && (forall i :: 0 <= i < |q.executing| ==> q.executing[i].state in q.refs)
  }

  ghost predicate OneLoopEach<R>(q: Queue<R>) {
    && KnownStates(q)
    && forall r | r in q.refs :: LoopsOf(q, r) == One(r in q.running)
  }

  lemma StepKeepsLoops<R>(q: Queue<R>, limits: Limits, e: Event<R>)
    requires Enabled(q, e) && OneLoopEach(q)
    ensures OneLoopEach(Step(q, limits, e))
  {
    var q' := Step(q, limits, e);
    StepKeepsStates(q, limits, e);
    forall r | r in q'.refs
      ensures LoopsOf(q', r) == One(r in q'.running)
    {
      if r !in q.refs {
        UnknownHasNoLoops(q.jobs, q.executing, r);
      }
      StepKeepsLoopsOf(q, limits, e, r);
    }
  }

  lemma StepKeepsStates<R>(q: Queue<R>, limits: Limits, e: Event<R>)
    requires Enabled(q, e) && KnownStates(q)
    ensures KnownStates(Step(q, limits, e))
    ensures q.refs <= Step(q, limits, e).refs
  {
    match e
    case Submit(turn, created) =>
    case Resume(id) =>
      assert q.jobs[0].state in q.refs;
    case Finish(index, ok) =>
      assert q.executing[index].state in q.refs;
  }

  lemma {:induction false} UnknownHasNoLoops<R>(jobs: seq<Job<R>>, executing: seq<Execution<R>>, r: R)
    requires forall i :: 0 <= i < |jobs| ==> jobs[i].state != r
    requires forall i :: 0 <= i < |executing| ==> executing[i].state != r
    ensures LoopJobs(jobs, r) == LoopExecutions(executing, r) == 0
    decreases |jobs| + |executing|
  {
    if jobs != [] {
      UnknownHasNoLoops(jobs[1..], executing, r);
    } else if executing != [] {
      UnknownHasNoLoops(jobs, executing[1..], r);
    }
  }

  lemma StepKeepsLoopsOf<R>(q: Queue<R>, limits: Limits, e: Event<R>, r: R)
    requires Enabled(q, e) && LoopsOf(q, r) == One(r in q.running)
    ensures LoopsOf(Step(q, limits, e), r) == One(r in Step(q, limits, e).running)
  {
    match e
    case Submit(turn, created) =>
      SplitLoopJobs(q.jobs, [Listed(turn, if q.session.Some? then q.session.value else created, |q.pending|)], r);
    case Resume(id) =>
      ContinueKeepsLoopsOf(q.(jobs := q.jobs[1..]), limits, q.jobs[0], id, r);
    case Finish(index, ok) =>
      SplitLoopJobs(q.jobs, [Executed(q.executing[index].state, q.executing[index].item, ok)], r);
      LoopExecutionsWithout(q.executing, index, r);
  }

  lemma LoopExecutionsWithout<R>(executing: seq<Execution<R>>, index: nat, r: R)
    requires index < |executing|
    ensures LoopExecutions(executing, r)
            == One(executing[index].state == r) + LoopExecutions(executing[..index] + executing[index + 1..], r)
  {
    var before, after := executing[..index], executing[index + 1..];
    assert executing == before + ([executing[index]] + after);
    assert ([executing[index]] + after)[1..] == after;
    SplitLoopExecutions(before, [executing[index]] + after, r);
    SplitLoopExecutions(before, after, r);
  }

  lemma ContinueKeepsLoopsOf<R>(q: Queue<R>, limits: Limits, job: Job<R>, id: nat, r: R)
    requires One(IsLoop(job) && job.state == r) + LoopsOf(q, r) == One(r in q.running)
    ensures var q' := Continue(q, limits, job, id); LoopsOf(q', r) == One(r in q'.running)
  {
    var q' := Continue(q, limits, job, id);
    if |q.jobs| < |q'.jobs| {
      SplitLoopJobs(q.jobs, [q'.jobs[|q.jobs|]], r);
      assert q'.jobs == q.jobs + [q'.jobs[|q.jobs|]];
    }
    if job.Dequeued? && job.taken.Some? {
      SplitLoopExecutions(q.executing, [Execution(job.state, job.taken.value)], r);
    }
  }

  // ---- No lost wake-up -------------------------------------------------------------------------

  /** A loop that will look at the backend again. */
  predicate Live<R>(job: Job<R>) {
    job.Executed? || (job.Dequeued? && job.taken.Some?)
  }

  ghost predicate HasLive<R>(q: Queue<R>) {
    q.executing != [] || exists i :: 0 <= i < |q.jobs| && Live(q.jobs[i])
  }

  /** jobs[j] will call `drain` after every loop of its state object that found nothing has stopped. */
  ghost predicate WakesAt<R>(jobs: seq<Job<R>>, j: int) {
    && 0 <= j < |jobs|
    && jobs[j].Pushed?
    && forall i :: 0 <= i < |jobs| && jobs[i] == Dequeued(jobs[j].state, None) ==> i < j
  }

  ghost predicate Awake<R>(q: Queue<R>) {
    q.pending != [] ==> HasLive(q) || exists j :: WakesAt(q.jobs, j)
  }

  lemma StepKeepsAwake<R>(q: Queue<R>, limits: Limits, e: Event<R>)
    requires Enabled(q, e) && OneLoopEach(q) && Awake(q)
    ensures Awake(Step(q, limits, e))
  {
    var q' := Step(q, limits, e);
    match e
    case Submit(turn, created) => AppendKeepsAwake(q, q');
    case Resume(id) => ResumeKeepsAwake(q, limits, id);
    case Finish(index, ok) => assert Live(q'.jobs[|q.jobs|]);
  }

  /** Appending jobs that are no empty-handed loop leaves the wake-up where it was. */
  lemma AppendKeepsAwake<R>(q: Queue<R>, q': Queue<R>)
    requires Awake(q) && (q'.pending == [] || q.pending != [])
    requires q.executing == q'.executing && |q.jobs| <= |q'.jobs| && q'.jobs[..|q.jobs|] == q.jobs
    requires forall i :: |q.jobs| <= i < |q'.jobs| ==> !IsLoop(q'.jobs[i])
    ensures Awake(q')
  {
    assert forall i :: 0 <= i < |q.jobs| ==> q'.jobs[i] == q'.jobs[..|q.jobs|][i];
    if q'.pending != [] {
      if HasLive(q) {
        if q.executing == [] {
          var i :| 0 <= i < |q.jobs| && Live(q.jobs[i]);
          assert Live(q'.jobs[i]);
        }
      } else {
        var j :| WakesAt(q.jobs, j);
        assert WakesAt(q'.jobs, j);
      }
    }
  }

  lemma ResumeKeepsAwake<R>(q: Queue<R>, limits: Limits, id: nat)
    requires Enabled(q, Resume(id)) && OneLoopEach(q) && Awake(q)
    ensures Awake(Step(q, limits, Resume(id)))
  {
    var q' := Step(q, limits, Resume(id));
    var rest := q.(jobs := q.jobs[1..]);
    var job := q.jobs[0];
    match job
    case Listed(turn, state, count) => AdmissionKeepsAwake(q, limits, id);
    case Dropped(turn, state, victim) => AdmissionKeepsAwake(q, limits, id);
    case Pushed(state) =>
      if state in q.running {
        RunningKeepsAwake(q);
      } else if q.pending != [] {
        assert Live(q'.jobs[|rest.jobs|]);
      }
    case Dequeued(_, Some(item)) =>
      assert q'.executing != [];
    case Dequeued(state, None) => DropFirstKeepsAwake(q);
    case Executed(_, _, _) =>
      if q.pending != [] {
        assert Live(q'.jobs[|rest.jobs|]);
      }
  }

  /** Taking a continuation that is neither live nor a wake-up off the microtask queue. */
  lemma DropFirstKeepsAwake<R>(q: Queue<R>)
    requires Awake(q) && q.jobs != [] && !Live(q.jobs[0]) && !q.jobs[0].Pushed?
    ensures Awake(q.(jobs := q.jobs[1..]))
  {
    if q.pending != [] && q.executing == [] {
      if HasLive(q) {
        var i :| 0 <= i < |q.jobs| && Live(q.jobs[i]);
        assert Live(q.jobs[1..][i - 1]);
      } else {
        var j :| WakesAt(q.jobs, j);
        assert WakesAt(q.jobs[1..], j - 1);
      }
    }
  }

  lemma AdmissionKeepsAwake<R>(q: Queue<R>, limits: Limits, id: nat)
    requires Enabled(q, Resume(id)) && Awake(q) && (q.jobs[0].Listed? || q.jobs[0].Dropped?)
    ensures Awake(Step(q, limits, Resume(id)))
  {
    var q' := Step(q, limits, Resume(id));
    var rest := q.(jobs := q.jobs[1..]);
    DropFirstKeepsAwake(q);
    if |rest.jobs| < |q'.jobs| && q'.jobs[|rest.jobs|].Pushed? {
      assert WakesAt(q'.jobs, |rest.jobs|);
    } else {
      AppendKeepsAwake(rest, q');
    }
  }

  /** `drain` returns at once when its state object is running: the loop that is running is live,
    * because one that had found nothing would have stopped before. */
  lemma RunningKeepsAwake<R>(q: Queue<R>)
    requires OneLoopEach(q) && Awake(q) && q.jobs != [] && q.jobs[0].Pushed? && q.jobs[0].state in q.running
    ensures Awake(q.(session := Some(q.jobs[0].state), jobs := q.jobs[1..]))
  {
    var state := q.jobs[0].state;
    if q.pending != [] && q.executing == [] {
      if HasLive(q) {
        var i :| 0 <= i < |q.jobs| && Live(q.jobs[i]);
        assert Live(q.jobs[1..][i - 1]);
      } else {
        var j :| WakesAt(q.jobs, j);
        if j == 0 {
          assert LoopsOf(q, state) == 1;
          var i := LoopFound(q.jobs, state);
          assert false;  // jobs[i] would be live
        } else {
          assert WakesAt(q.jobs[1..], j - 1);
        }
      }
    }
  }

  lemma {:induction false} LoopFound<R>(jobs: seq<Job<R>>, r: R) returns (i: nat)
    requires LoopJobs(jobs, r) > 0
    ensures i < |jobs| && IsLoop(jobs[i]) && jobs[i].state == r
  {
    if IsLoop(jobs[0]) && jobs[0].state == r {
      i := 0;
    } else {
      i := LoopFound(jobs[1..], r);
      i := i + 1;
    }
  }

  // ---- Every interleaving -----------------------------------------------------------------------

  /** What holds in every state of every run, overlapping first submissions included. */
  ghost predicate Sound<R>(q: Queue<R>) {
    && OneLoopEach(q)
    && Awake(q)
    && InOrder(q)
    && forall t :: Conserved(q, t)
  }

  lemma StepKeepsSound<R>(q: Queue<R>, limits: Limits, e: Event<R>)
    requires Enabled(q, e) && Sound(q)
    ensures Sound(Step(q, limits, e))
  {
    StepKeepsLoops(q, limits, e);
    StepKeepsAwake(q, limits, e);
    StepKeepsOrder(q, limits, e);
    forall t
      ensures Conserved(Step(q, limits, e), t)
    {
      StepConserves(q, limits, e, t);
    }
  }

  lemma {:induction false} RunKeepsSound<R>(q: Queue<R>, limits: Limits, es: seq<Event<R>>)
    requires IsRun(q, limits, es) && Sound(q)
    ensures Sound(After(q, limits, es))
    decreases |es|
  {
    if es != [] {
      StepKeepsSound(q, limits, es[0]);
      RunKeepsSound(Step(q, limits, es[0]), limits, es[1..]);
    }
  }

  lemma InitialIsSound<R>()
    ensures Sound(Initial<R>())
  {
  }

  /** Whatever was submitted and however the steps interleaved: once no continuation is runnable and no
    * turn is executing, nothing is pending and each submission has been settled exactly once. */
  lemma QuiescentIsDone<R>(limits: Limits, es: seq<Event<R>>)
    requires IsRun(Initial(), limits, es)
    requires var q := After(Initial(), limits, es); q.jobs == [] && q.executing == []
    ensures var q := After(Initial(), limits, es);
            && q.pending == []
            && q.running == {}
            && forall t :: Turns(q.submitted, t) == Turns(q.turnedAway, t) + Turns(q.failed, t) + Turns(q.resolved, t)
  {
    InitialIsSound<R>();
    RunKeepsSound(Initial(), limits, es);
    QuietIsDone(After(Initial(), limits, es));
  }

  lemma QuietIsDone<R>(q: Queue<R>)
    requires Sound(q) && q.jobs == [] && q.executing == []
    ensures q.pending == [] && q.running == {}
    ensures forall t :: Turns(q.submitted, t) == Turns(q.turnedAway, t) + Turns(q.failed, t) + Turns(q.resolved, t)
  {
    forall r | r in q.refs
      ensures r !in q.running
    {
      assert LoopsOf(q, r) == 0;
    }
    forall t
      ensures Turns(q.submitted, t) == Turns(q.turnedAway, t) + Turns(q.failed, t) + Turns(q.resolved, t)
    {
      assert Conserved(q, t);
    }
  }

  /** A turn submitted once is in at most one place, settles at most once, and if it was turned away
    * it never started. */
  lemma SettlesAtMostOnce<R>(limits: Limits, es: seq<Event<R>>, t: Turn)
    requires IsRun(Initial(), limits, es) && Turns(After(Initial(), limits, es).submitted, t) == 1
    ensures var q := After(Initial(), limits, es);
            && Turns(q.turnedAway, t) + Turns(q.failed, t) + Turns(q.resolved, t) <= 1
            && (Turns(q.turnedAway, t) == 1 ==> Items(q.started, t) == Items(q.pending, t) == Items(Taken(q.jobs), t) == 0)
            && (Items(q.pending, t) == 1 ==> Items(q.started, t) == 0)
  {
    InitialIsSound<R>();
    RunKeepsSound(Initial(), limits, es);
    assert Conserved(After(Initial(), limits, es), t);
  }

  /** Turns start in the order in which the backend issued their ids, and before anything still pending. */
  lemma StartsInPushOrder<R>(limits: Limits, es: seq<Event<R>>)
    requires IsRun(Initial(), limits, es)
    ensures var q := After(Initial(), limits, es);
            && (forall i, j :: 0 <= i < j < |q.started| ==> q.started[i].id < q.started[j].id)
            && (forall i, j :: 0 <= i < |q.started| && 0 <= j < |q.pending| ==> q.started[i].id < q.pending[j].id)
  {
    InitialIsSound<R>();
    RunKeepsSound(Initial(), limits, es);
    var q := After(Initial(), limits, es);
    PartsIncrease(q.started, Taken(q.jobs), q.pending, q.nextId);
  }

  lemma PartsIncrease(a: seq<Item>, b: seq<Item>, c: seq<Item>, bound: nat)
    requires Increasing(a + b + c, bound)
    ensures forall i, j :: 0 <= i < j < |a| ==> a[i].id < a[j].id
    ensures forall i, j :: 0 <= i < |a| && 0 <= j < |c| ==> a[i].id < c[j].id
  {
    var line := a + b + c;
    forall i, j | 0 <= i < j < |a|
      ensures a[i].id < a[j].id
    {
      assert line[i].id < line[j].id;
    }
    forall i, j | 0 <= i < |a| && 0 <= j < |c|
      ensures a[i].id < c[j].id
    {
      assert line[i].id < line[|a| + |b| + j].id;
    }
  }

  /** The drop-oldest strategy rejects the pending turn with the smallest id. */
  lemma DropsTheOldest<R>(q: Queue<R>, turn: Turn, state: R)
    requires Sound(q) && q.pending != []
    ensures var q' := Drop(q, turn, state);
            && q'.jobs[|q.jobs|].victim == Some(q.pending[0])
            && q.pending == [q.pending[0]] + q'.pending
            && forall i :: 0 <= i < |q'.pending| ==> q.pending[0].id < q'.pending[i].id
  {
    var line := Line(q);
    var k := |q.started| + |Taken(q.jobs)|;
    assert forall j :: 0 <= j < |q.pending| ==> line[k + j] == q.pending[j];
    var q' := Drop(q, turn, state);
    forall i | 0 <= i < |q'.pending|
      ensures q.pending[0].id < q'.pending[i].id
    {
      assert line[k].id < line[k + (i + 1)].id;
    }
  }

  // ---- One drain loop per key -------------------------------------------------------------------

  predicate IsAdmission<R>(job: Job<R>) {
    job.Listed? || job.Dropped? || job.Pushed?
  }

  /** A submission already bound to be rejected: its count reached the cap under `defer-new`. */
  predicate Doomed<R>(limits: Limits, job: Job<R>) {
    job.Listed? && limits.strategy.DeferNew? && limits.hard <= job.count
  }

  /** The submissions that cannot split a key: the key is registered, or no admission is in flight,
    * or the submission will be rejected anyway. */
  ghost predicate SafeSubmission<R>(q: Queue<R>, limits: Limits) {
    || q.session.Some?
    || (forall i :: 0 <= i < |q.jobs| ==> !IsAdmission(q.jobs[i]))
    || (limits.strategy.DeferNew? && limits.hard <= |q.pending|)
  }

  /** All drain loops and all admissions that may still start one share the registered state object. */
  ghost predicate Clean<R>(q: Queue<R>, limits: Limits) {
    if q.session.Some? then
      && q.running <= {q.session.value}
      && (forall i :: 0 <= i < |q.jobs| && !Doomed(limits, q.jobs[i]) ==> q.jobs[i].state == q.session.value)
      && (forall i :: 0 <= i < |q.executing| ==> q.executing[i].state == q.session.value)
    else
      && q.running == {}
      && q.executing == []
      && (forall i, j :: 0 <= i < |q.jobs| && 0 <= j < |q.jobs| && !Doomed(limits, q.jobs[i]) && !Doomed(limits, q.jobs[j])
                         ==> i == j)
      && (forall i :: 0 <= i < |q.jobs| ==> Doomed(limits, q.jobs[i]) || FirstAdmission(q.jobs[i], limits, |q.pending|))
      && (q.pending != [] ==> exists i :: 0 <= i < |q.jobs| && q.jobs[i].Pushed?)
      && (0 < limits.hard ==>
            forall i :: 0 <= i < |q.jobs| && Doomed(limits, q.jobs[i]) ==> limits.hard <= |q.pending|)
  }

  predicate FirstAdmission<R>(job: Job<R>, limits: Limits, pending: nat) {
    match job
    case Listed(_, _, count) => count == pending == 0
    case Dropped(_, _, victim) => victim == None && pending == 0 && limits.hard <= 0
    case Pushed(_) => pending == 1
    case _ => false
  }

  ghost predicate SafeStep<R>(q: Queue<R>, limits: Limits, e: Event<R>) {
    Enabled(q, e) && (e.Submit? ==> SafeSubmission(q, limits))
  }

  ghost predicate IsSafeRun<R>(q: Queue<R>, limits: Limits, es: seq<Event<R>>)
    ensures IsSafeRun(q, limits, es) ==> IsRun(q, limits, es)
    decreases |es|
  {
    es == [] || (SafeStep(q, limits, es[0]) && IsSafeRun(Step(q, limits, es[0]), limits, es[1..]))
  }

  lemma SafeStepKeepsClean<R>(q: Queue<R>, limits: Limits, e: Event<R>)
    requires SafeStep(q, limits, e) && Clean(q, limits)
    ensures Clean(Step(q, limits, e), limits)
  {
    match e
    case Submit(turn, created) => SubmitKeepsClean(q, limits, turn, created);
    case Resume(id) =>
      if q.session.Some? {
        ResumeKeepsClean(q, limits, id);
      } else {
        FirstResumeKeepsClean(q, limits, id);
      }
    case Finish(index, ok) =>
  }

  lemma SubmitKeepsClean<R>(q: Queue<R>, limits: Limits, turn: Turn, created: R)
    requires SafeStep(q, limits, Submit(turn, created)) && Clean(q, limits)
    ensures Clean(Admit(q, turn, created), limits)
  {
    var q' := Admit(q, turn, created);
    if q.session.None? && q.pending != [] {
      var i :| 0 <= i < |q.jobs| && q.jobs[i].Pushed?;
      assert q'.jobs[i].Pushed?;
    }
  }

  lemma ResumeKeepsClean<R>(q: Queue<R>, limits: Limits, id: nat)
    requires Enabled(q, Resume(id)) && Clean(q, limits) && q.session.Some?
    ensures Clean(Step(q, limits, Resume(id)), limits)
  {
    var job := q.jobs[0];
    if !Doomed(limits, job) {
      assert job.state == q.session.value;
    }
  }

  lemma FirstResumeKeepsClean<R>(q: Queue<R>, limits: Limits, id: nat)
    requires Enabled(q, Resume(id)) && Clean(q, limits) && q.session.None?
    ensures Clean(Step(q, limits, Resume(id)), limits)
  {
    var q' := Step(q, limits, Resume(id));
    var job := q.jobs[0];
    if Doomed(limits, job) {
      if q.pending != [] {
        var i :| 0 <= i < |q.jobs| && q.jobs[i].Pushed?;
        assert q'.jobs[i - 1].Pushed?;
      }
    } else {
      assert forall i :: 0 < i < |q.jobs| ==> Doomed(limits, q.jobs[i]);
      if job.Listed? || job.Dropped? {
        assert q'.jobs[|q.jobs| - 1].Pushed? || q'.pending == [];
      }
    }
  }

  lemma {:induction false} SafeRunKeepsClean<R>(q: Queue<R>, limits: Limits, es: seq<Event<R>>)
    requires IsSafeRun(q, limits, es) && Clean(q, limits)
    ensures Clean(After(q, limits, es), limits)
    decreases |es|
  {
    if es != [] {
      SafeStepKeepsClean(q, limits, es[0]);
      SafeRunKeepsClean(Step(q, limits, es[0]), limits, es[1..]);
    }
  }

  lemma CleanHasOneLoop<R>(q: Queue<R>, limits: Limits)
    requires Clean(q, limits) && OneLoopEach(q)
    ensures ActiveLoops(q) <= 1
    ensures ActiveLoops(q) == |q.running|
  {
    if q.session.Some? {
      assert LoopsOf(q, q.session.value) == ActiveLoops(q) by {
        LoopsShareState(q.jobs, q.executing, q.session.value);
      }
      assert q.running == {} || q.running == {q.session.value};
    } else {
      NoLoops(q.jobs);
    }
  }

  lemma {:induction false} LoopsShareState<R>(jobs: seq<Job<R>>, executing: seq<Execution<R>>, r: R)
    requires forall i :: 0 <= i < |jobs| && IsLoop(jobs[i]) ==> jobs[i].state == r
    requires forall i :: 0 <= i < |executing| ==> executing[i].state == r
    ensures LoopJobs(jobs, r) == AllLoopJobs(jobs) && LoopExecutions(executing, r) == |executing|
    decreases |jobs| + |executing|
  {
    if jobs != [] {
      LoopsShareState(jobs[1..], executing, r);
    } else if executing != [] {
      LoopsShareState(jobs, executing[1..], r);
    }
  }

  lemma {:induction false} NoLoops<R>(jobs: seq<Job<R>>)
    requires forall i :: 0 <= i < |jobs| ==> !IsLoop(jobs[i])
    ensures AllLoopJobs(jobs) == 0
  {
    if jobs != [] {
      NoLoops(jobs[1..]);
    }
  }

  /** With safe submissions only, a key never has two drain loops, so its turns never overlap. */
  lemma SingleDrainLoop<R>(limits: Limits, es: seq<Event<R>>)
    requires IsSafeRun(Initial(), limits, es)
    ensures var q := After(Initial(), limits, es);
            && ActiveLoops(q) <= 1
            && (ActiveLoops(q) == 1 <==> q.running != {})
            && |q.executing| <= 1
  {
    SafeRunIsClean<R>(limits, es);
    CleanHasOneLoop(After(Initial(), limits, es), limits);
  }

  lemma SafeRunIsClean<R>(limits: Limits, es: seq<Event<R>>)
    requires IsSafeRun(Initial(), limits, es)
    ensures Clean(After(Initial(), limits, es), limits) && OneLoopEach(After(Initial(), limits, es))
  {
    InitialIsSound<R>();
    RunKeepsSound(Initial(), limits, es);
    SafeRunKeepsClean(Initial(), limits, es);
  }
}
