/** What callers are told: a turn is resolved or rejected as its execution ended, in that order, and a turn is
  * refused only when a limit was met.
  */
module TurnQueueOutcomes {
  import opened Options
  import opened Sequences
  import opened TurnQueue
  import opened TurnQueueSafety

  // ---- Settled as executed --------------------------------------------------------------------------------

  /** The turns whose callers were told of a success, or of a failure. */
  function Told<R>(q: Queue<R>, ok: bool): seq<Turn> {
    if ok then q.resolved else q.failed
  }

  /** Turns that have ended like this, and whose callers have not been told yet. */
  function Untold<R>(jobs: seq<Job<R>>, ok: bool): seq<Turn> {
    if jobs == [] then []
    else (if jobs[0].Executed? && jobs[0].ok == ok then [jobs[0].item.turn] else []) + Untold(jobs[1..], ok)
  }

  /** The turn whose execution ends like this at an event. */
  function EndedAt<R>(q: Queue<R>, e: Event<R>, ok: bool): seq<Turn>
    requires Enabled(q, e)
  {
    if e.Finish? && e.ok == ok then [q.executing[e.index].item.turn] else []
  }

  /** The turns whose executions end like this over a run, in the order in which they end. */
  ghost function Ended<R>(q: Queue<R>, limits: Limits, es: seq<Event<R>>, ok: bool): seq<Turn>
    requires IsRun(q, limits, es)
    decreases |es|
  {
    if es == [] then [] else EndedAt(q, es[0], ok) + Ended(Step(q, limits, es[0]), limits, es[1..], ok)
  }

  lemma {:induction false} UntoldAppends<R>(jobs: seq<Job<R>>, job: Job<R>, ok: bool)
    ensures Untold(jobs + [job], ok) == Untold(jobs, ok) + if job.Executed? && job.ok == ok then [job.item.turn] else []
  {
    if jobs == [] {
      assert jobs + [job] == [job] && [job][1..] == [];
    } else {
      assert (jobs + [job])[1..] == jobs[1..] + [job];
      UntoldAppends(jobs[1..], job, ok);
      Regroup(if jobs[0].Executed? && jobs[0].ok == ok then [jobs[0].item.turn] else [], Untold(jobs[1..], ok),
              if job.Executed? && job.ok == ok then [job.item.turn] else []);
    }
  }

  /** A continuation tells the one caller it is about, and adds no ended execution. */
  lemma ContinueTells<R>(q: Queue<R>, limits: Limits, job: Job<R>, id: nat, ok: bool)
    ensures var q' := Continue(q, limits, job, id);
      && Told(q', ok) == Told(q, ok) + (if job.Executed? && job.ok == ok then [job.item.turn] else [])
      && Untold(q'.jobs, ok) == Untold(q.jobs, ok)
  {
    var q' := Continue(q, limits, job, id);
    assert Told(q, ok) + [] == Told(q, ok);
    if |q'.jobs| > |q.jobs| {
      assert q'.jobs == q.jobs + [q'.jobs[|q.jobs|]];
      UntoldAppends(q.jobs, q'.jobs[|q.jobs|], ok);
    }
  }

  lemma StepTells<R>(q: Queue<R>, limits: Limits, e: Event<R>, ok: bool)
    requires Enabled(q, e)
    ensures var q' := Step(q, limits, e); Told(q', ok) + Untold(q'.jobs, ok) == Told(q, ok) + Untold(q.jobs, ok) + EndedAt(q, e, ok)
  {
    var q' := Step(q, limits, e);
    match e
    case Submit(turn, created) => UntoldAppends(q.jobs, q'.jobs[|q.jobs|], ok);
    case Resume(id) =>
      var rest := q.(jobs := q.jobs[1..]);
      ContinueTells(rest, limits, q.jobs[0], id, ok);
      Regroup(Told(q, ok), if q.jobs[0].Executed? && q.jobs[0].ok == ok then [q.jobs[0].item.turn] else [], Untold(rest.jobs, ok));
    case Finish(index, _) =>
      UntoldAppends(q.jobs, q'.jobs[|q.jobs|], ok);
      Regroup(Told(q, ok), Untold(q.jobs, ok), EndedAt(q, e, ok));
  }

  /** Over every run, callers are told of exactly the executions that ended, as they ended and in that order. */
  lemma {:induction false} RunTells<R>(q: Queue<R>, limits: Limits, es: seq<Event<R>>, ok: bool)
    requires IsRun(q, limits, es)
    ensures var q' := After(q, limits, es);
      Told(q', ok) + Untold(q'.jobs, ok) == Told(q, ok) + Untold(q.jobs, ok) + Ended(q, limits, es, ok)
    decreases |es|
  {
    if es != [] {
      StepTells(q, limits, es[0], ok);
      RunTells(Step(q, limits, es[0]), limits, es[1..], ok);
      Regroup(Told(q, ok) + Untold(q.jobs, ok), EndedAt(q, es[0], ok), Ended(Step(q, limits, es[0]), limits, es[1..], ok));
    }
  }

  /** At quiescence the resolved turns are exactly those whose execution succeeded, the failed ones those whose
    * execution failed, and every started turn is one of them. */
  lemma QuiescentTellsAll<R>(limits: Limits, es: seq<Event<R>>)
    requires IsRun(Initial(), limits, es)
    requires After(Initial(), limits, es).jobs == [] && After(Initial(), limits, es).executing == []
    ensures var q := After(Initial(), limits, es);
      && q.resolved == Ended(Initial(), limits, es, true)
      && q.failed == Ended(Initial(), limits, es, false)
      && forall t :: Items(q.started, t) == Turns(q.resolved, t) + Turns(q.failed, t)
  {
    ToldInTheEnd(limits, es, true);
    ToldInTheEnd(limits, es, false);
    InitialIsSound<R>();
    RunKeepsSound(Initial(), limits, es);
    StartedAreTold(After(Initial(), limits, es));
  }

  lemma ToldInTheEnd<R>(limits: Limits, es: seq<Event<R>>, ok: bool)
    requires IsRun(Initial(), limits, es) && After(Initial(), limits, es).jobs == []
    ensures Told(After(Initial(), limits, es), ok) == Ended(Initial(), limits, es, ok)
  {
    RunTells(Initial(), limits, es, ok);
    var told, ended := Told(After(Initial(), limits, es), ok), Ended(Initial(), limits, es, ok);
    var none: seq<Turn> := [];
    assert Told(Initial<R>(), ok) + Untold(Initial<R>().jobs, ok) == none;
    assert Untold(After(Initial(), limits, es).jobs, ok) == none;
    assert told + none == told && none + ended == ended;
  }

  lemma StartedAreTold<R>(q: Queue<R>)
    requires Sound(q) && q.jobs == [] && q.executing == []
    ensures forall t :: Items(q.started, t) == Turns(q.resolved, t) + Turns(q.failed, t)
  {
    forall t ensures Items(q.started, t) == Turns(q.resolved, t) + Turns(q.failed, t) {
      assert Conserved(q, t);
    }
  }

  // ---- Refused at a limit only ----------------------------------------------------------------------------

  /** Submissions still to decide. */
  function Undecided<R>(jobs: seq<Job<R>>): nat {
    if jobs == [] then 0 else One(jobs[0].Listed?) + Undecided(jobs[1..])
  }

  lemma {:induction false} UndecidedAppends<R>(jobs: seq<Job<R>>, job: Job<R>)
    ensures Undecided(jobs + [job]) == Undecided(jobs) + One(job.Listed?)
  {
    if jobs == [] {
      assert jobs + [job] == [job] && [job][1..] == [];
    } else {
      assert (jobs + [job])[1..] == jobs[1..] + [job];
      UndecidedAppends(jobs[1..], job);
    }
  }

  /** No turn was refused, none is being dropped, and no submission counted as many turns as were submitted. */
  ghost predicate Welcome<R>(q: Queue<R>) {
    && q.turnedAway == []
    && |q.pending| + Undecided(q.jobs) <= |q.submitted|
    && forall i :: 0 <= i < |q.jobs| ==> WelcomeJob(q, q.jobs[i])
  }

  predicate WelcomeJob<R>(q: Queue<R>, job: Job<R>) {
    !job.Dropped? && (job.Listed? ==> job.count < |q.submitted|)
  }

  lemma WelcomeAppend<R>(q: Queue<R>, q': Queue<R>, job: Job<R>)
    requires Welcome(q) && q'.jobs == q.jobs + [job] && |q.submitted| <= |q'.submitted| && q'.turnedAway == []
    requires WelcomeJob(q', job) && |q'.pending| + Undecided(q.jobs) + One(job.Listed?) <= |q'.submitted|
    ensures Welcome(q')
  {
    UndecidedAppends(q.jobs, job);
    forall i | 0 <= i < |q'.jobs| ensures WelcomeJob(q', q'.jobs[i]) {
      if i < |q.jobs| {
        assert WelcomeJob(q, q.jobs[i]);
      }
    }
  }

  lemma ContinueWelcomes<R>(q: Queue<R>, limits: Limits, job: Job<R>, id: nat)
    requires Welcome(q) && WelcomeJob(q, job) && |q.submitted| < limits.hard
    requires job.Listed? ==> |q.pending| + Undecided(q.jobs) < |q.submitted|
    ensures Welcome(Continue(q, limits, job, id))
  {
    var q' := Continue(q, limits, job, id);
    if |q'.jobs| > |q.jobs| {
      WelcomeAppend(q, q', q'.jobs[|q.jobs|]);
    } else {
      assert q'.jobs == q.jobs;
      forall i | 0 <= i < |q'.jobs| ensures WelcomeJob(q', q'.jobs[i]) {
        assert WelcomeJob(q, q.jobs[i]);
      }
    }
  }

  lemma StepWelcomes<R>(q: Queue<R>, limits: Limits, e: Event<R>)
    requires Enabled(q, e) && Welcome(q) && |q.submitted| < limits.hard
    ensures Welcome(Step(q, limits, e))
  {
    match e
    case Submit(turn, created) => WelcomeAppend(q, Step(q, limits, e), Step(q, limits, e).jobs[|q.jobs|]);
    case Resume(id) =>
      var rest := q.(jobs := q.jobs[1..]);
      assert WelcomeJob(q, q.jobs[0]);
      forall i | 0 <= i < |rest.jobs| ensures WelcomeJob(rest, rest.jobs[i]) {
        assert WelcomeJob(q, q.jobs[i + 1]);
      }
      ContinueWelcomes(rest, limits, q.jobs[0], id);
    case Finish(index, ok) => WelcomeAppend(q, Step(q, limits, e), Step(q, limits, e).jobs[|q.jobs|]);
  }

  lemma StepSubmits<R>(q: Queue<R>, limits: Limits, e: Event<R>)
    requires Enabled(q, e)
    ensures |q.submitted| <= |Step(q, limits, e).submitted|
  {
  }

  lemma {:induction false} RunSubmits<R>(q: Queue<R>, limits: Limits, es: seq<Event<R>>)
    requires IsRun(q, limits, es)
    ensures |q.submitted| <= |After(q, limits, es).submitted|
    decreases |es|
  {
    if es != [] {
      StepSubmits(q, limits, es[0]);
      RunSubmits(Step(q, limits, es[0]), limits, es[1..]);
    }
  }

  lemma {:induction false} RunWelcomes<R>(q: Queue<R>, limits: Limits, es: seq<Event<R>>)
    requires IsRun(q, limits, es) && Welcome(q) && |After(q, limits, es).submitted| < limits.hard
    ensures Welcome(After(q, limits, es))
    decreases |es|
  {
    if es != [] {
      StepSubmits(q, limits, es[0]);
      RunSubmits(Step(q, limits, es[0]), limits, es[1..]);
      StepWelcomes(q, limits, es[0]);
      RunWelcomes(Step(q, limits, es[0]), limits, es[1..]);
    }
  }

  /** While fewer turns than the hard limit have been submitted, none is refused or dropped. */
  lemma NoneRefusedBelowLimit<R>(limits: Limits, es: seq<Event<R>>)
    requires IsRun(Initial(), limits, es) && |After(Initial(), limits, es).submitted| < limits.hard
    ensures After(Initial(), limits, es).turnedAway == []
  {
    RunWelcomes(Initial(), limits, es);
  }

  /** A submission that meets the limit: with the deferring strategy it is refused and nothing else happens;
    * otherwise the oldest pending turn, if there is one, is taken out for it, and nobody is refused yet. */
  lemma MeetsLimit<R>(q: Queue<R>, limits: Limits, turn: Turn, state: R, count: nat, id: nat)
    requires limits.hard <= count + (if state in q.running then 1 else 0)
    ensures var q' := Continue(q, limits, Listed(turn, state, count), id);
      if limits.strategy.DeferNew? then q' == q.(turnedAway := q.turnedAway + [turn])
      else
        && q'.turnedAway == q.turnedAway && q'.started == q.started
        && q'.pending == (if q.pending == [] then [] else q.pending[1..])
        && q'.jobs == q.jobs + [Dropped(turn, state, if q.pending == [] then None else Some(q.pending[0]))]
  {
  }

  /** With nothing to drop, the new turn is refused beside a running loop, and else becomes pending. */
  lemma NothingToDrop<R>(q: Queue<R>, limits: Limits, turn: Turn, state: R, id: nat)
    ensures var q' := Continue(q, limits, Dropped(turn, state, None), id);
      if state in q.running then q' == q.(turnedAway := q.turnedAway + [turn])
      else q'.turnedAway == q.turnedAway && q'.pending == q.pending + [Item(id, turn)]
  {
  }
}
