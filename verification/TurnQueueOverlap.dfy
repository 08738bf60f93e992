/** Two submissions for an unregistered key each create their own state object. This module shows that
  * `SafeSubmission` is exactly the guard that keeps such a key on a single drain loop.
  */
module TurnQueueOverlap {
  import opened Options
  import opened TurnQueue
  import opened TurnQueueSafety

  /** In a clean state an unsafe submission finds one admission in flight and nothing else. */
  lemma UnsafeFindsOneAdmission<R>(q: Queue<R>, limits: Limits)
    requires Clean(q, limits) && !SafeSubmission(q, limits) && 0 < limits.hard
    ensures |q.jobs| == 1 && q.executing == [] && q.running == {}
    ensures (q.jobs[0].Listed? && q.jobs[0].count == 0 && q.pending == []) || (q.jobs[0].Pushed? && |q.pending| == 1)
  {
    if 2 <= |q.jobs| {
      OnlyOneJob(q, limits, 0, 1);
    }
    assert FirstAdmission(q.jobs[0], limits, |q.pending|);
  }

  lemma OnlyOneJob<R>(q: Queue<R>, limits: Limits, i: nat, j: nat)
    requires Clean(q, limits) && !SafeSubmission(q, limits) && 0 < limits.hard
    requires i < |q.jobs| && j < |q.jobs|
    ensures i == j
  {
    assert !Doomed(limits, q.jobs[i]) && !Doomed(limits, q.jobs[j]);
  }

  /** Put one resumption in front of a run. */
  lemma Prepend<R>(q: Queue<R>, limits: Limits, es: seq<Event<R>>) returns (all: seq<Event<R>>)
    requires q.jobs != [] && IsSafeRun(Step(q, limits, Resume(q.nextId)), limits, es)
    ensures IsSafeRun(q, limits, all)
    ensures After(q, limits, all) == After(Step(q, limits, Resume(q.nextId)), limits, es)
  {
    all := [Resume(q.nextId)] + es;
    assert all[0] == Resume(q.nextId) && all[1..] == es;
  }

  /** A wake-up on an idle state object while another loop executes a turn. */
  lemma WakesBesideExecution<R>(q: Queue<R>, limits: Limits, r: R) returns (es: seq<Event<R>>)
    requires q.jobs == [Pushed(r)] && r !in q.running && |q.executing| == 1
    ensures IsSafeRun(q, limits, es) && ActiveLoops(After(q, limits, es)) == 2
  {
    var q' := Step(q, limits, Resume(q.nextId));
    assert q'.jobs == [Dequeued(r, Oldest(q.pending))] && q'.jobs[1..] == [];
    assert AllLoopJobs(q'.jobs) == 1 + AllLoopJobs(q'.jobs[1..]);
    es := Prepend(q, limits, []);
  }

  lemma WakesAfterStart<R>(q: Queue<R>, limits: Limits, r1: R, item: Item, r2: R) returns (es: seq<Event<R>>)
    requires q.jobs == [Dequeued(r1, Some(item)), Pushed(r2)] && r2 !in q.running && q.executing == []
    ensures IsSafeRun(q, limits, es) && ActiveLoops(After(q, limits, es)) == 2
  {
    var q' := Step(q, limits, Resume(q.nextId));
    assert q'.jobs == [Pushed(r2)];
    es := WakesBesideExecution(q', limits, r2);
    es := Prepend(q, limits, es);
  }

  /** The second admission takes the drop path, finds nothing to drop and an idle state object. */
  lemma DropsNothing<R>(q: Queue<R>, limits: Limits, r1: R, item: Item, t2: Turn, r2: R) returns (es: seq<Event<R>>)
    requires q.jobs == [Dequeued(r1, Some(item)), Dropped(t2, r2, None)] && r2 !in q.running && q.executing == []
    ensures IsSafeRun(q, limits, es) && ActiveLoops(After(q, limits, es)) == 2
  {
    var q' := Step(q, limits, Resume(q.nextId));
    assert q'.jobs == [Dropped(t2, r2, None)];
    var q'' := Step(q', limits, Resume(q'.nextId));
    assert q''.jobs == [Pushed(r2)];
    es := WakesBesideExecution(q'', limits, r2);
    es := Prepend(q', limits, es);
    es := Prepend(q, limits, es);
  }

  lemma PushedThenListed<R>(q: Queue<R>, limits: Limits, r1: R, t2: Turn, r2: R) returns (es: seq<Event<R>>)
    requires q.jobs == [Pushed(r1), Listed(t2, r2, 1)] && |q.pending| == 1 && q.running == {} && q.executing == []
    requires r1 != r2 && 0 < limits.hard && (limits.strategy.DropOldest? || 1 < limits.hard)
    ensures IsSafeRun(q, limits, es) && ActiveLoops(After(q, limits, es)) == 2
  {
    var q' := Step(q, limits, Resume(q.nextId));
    assert q'.jobs == [Listed(t2, r2, 1), Dequeued(r1, Some(q.pending[0]))];
    var q'' := Step(q', limits, Resume(q'.nextId));
    if 1 < limits.hard {
      assert q''.jobs == [Dequeued(r1, Some(q.pending[0])), Pushed(r2)];
      es := WakesAfterStart(q'', limits, r1, q.pending[0], r2);
    } else {
      assert q''.jobs == [Dequeued(r1, Some(q.pending[0])), Dropped(t2, r2, None)];
      es := DropsNothing(q'', limits, r1, q.pending[0], t2, r2);
    }
    es := Prepend(q', limits, es);
    es := Prepend(q, limits, es);
  }

  lemma BothListed<R>(q: Queue<R>, limits: Limits, t1: Turn, r1: R, t2: Turn, r2: R) returns (es: seq<Event<R>>)
    requires q.jobs == [Listed(t1, r1, 0), Listed(t2, r2, 0)] && q.running == {} && q.executing == []
    requires q.pending == [] && r1 != r2 && 0 < limits.hard
    ensures IsSafeRun(q, limits, es) && ActiveLoops(After(q, limits, es)) == 2
  {
    var q' := Step(q, limits, Resume(q.nextId));
    assert q'.jobs == [Listed(t2, r2, 0), Pushed(r1)];
    var q'' := Step(q', limits, Resume(q'.nextId));
    assert q''.jobs == [Pushed(r1), Pushed(r2)];
    es := BothPushed(q'', limits, r1, r2);
    es := Prepend(q', limits, es);
    es := Prepend(q, limits, es);
  }

  lemma BothPushed<R>(q: Queue<R>, limits: Limits, r1: R, r2: R) returns (es: seq<Event<R>>)
    requires q.jobs == [Pushed(r1), Pushed(r2)] && q.running == {} && q.executing == [] && |q.pending| == 2
    requires r1 != r2
    ensures IsSafeRun(q, limits, es) && ActiveLoops(After(q, limits, es)) == 2
  {
    var q' := Step(q, limits, Resume(q.nextId));
    assert q'.jobs == [Pushed(r2), Dequeued(r1, Some(q.pending[0]))];
    var q'' := Step(q', limits, Resume(q'.nextId));
    assert q''.jobs == [Dequeued(r1, Some(q.pending[0])), Dequeued(r2, Some(q.pending[1]))];
    assert q''.jobs[1..] == [Dequeued(r2, Some(q.pending[1]))] && q''.jobs[1..][1..] == [];
    assert AllLoopJobs(q''.jobs[1..]) == 1 + AllLoopJobs(q''.jobs[1..][1..]);
    es := Prepend(q', limits, []);
    es := Prepend(q, limits, es);
  }

  /** An unsafe submission can end with two drain loops running turns of one key at once. */
  lemma UnsafeSubmissionSplits<R>(q: Queue<R>, limits: Limits, turn: Turn, created: R) returns (es: seq<Event<R>>)
    requires Sound(q) && Clean(q, limits) && 0 < limits.hard && created !in q.refs
    requires !SafeSubmission(q, limits)
    ensures IsSafeRun(Admit(q, turn, created), limits, es)
    ensures ActiveLoops(After(Admit(q, turn, created), limits, es)) == 2
  {
    UnsafeFindsOneAdmission(q, limits);
    var q' := Admit(q, turn, created);
    var first := q.jobs[0];
    assert first.state in q.refs;
    if first.Listed? {
      assert q'.jobs == [Listed(first.turn, first.state, 0), Listed(turn, created, 0)];
      es := BothListed(q', limits, first.turn, first.state, turn, created);
    } else {
      assert q'.jobs == [Pushed(first.state), Listed(turn, created, 1)];
      es := PushedThenListed(q', limits, first.state, turn, created);
    }
  }

  /** The exact guard: from any state safe runs reach, a submission keeps the key on a single drain loop
    * in every later safe run if and only if it is a safe submission. */
  lemma SafeSubmissionIsExact<R(!new)>(q: Queue<R>, limits: Limits, turn: Turn, created: R)
    requires Sound(q) && Clean(q, limits) && 0 < limits.hard && created !in q.refs
    ensures SafeSubmission(q, limits)
            <==> forall es :: IsSafeRun(Admit(q, turn, created), limits, es) ==>
                                ActiveLoops(After(Admit(q, turn, created), limits, es)) <= 1
  {
    var q' := Admit(q, turn, created);
    assert q' == Step(q, limits, Submit(turn, created));
    if SafeSubmission(q, limits) {
      forall es | IsSafeRun(q', limits, es)
        ensures ActiveLoops(After(q', limits, es)) <= 1
      {
        SafeStepKeepsClean(q, limits, Submit(turn, created));
        StepKeepsSound(q, limits, Submit(turn, created));
        SafeRunKeepsClean(q', limits, es);
        RunKeepsSound(q', limits, es);
        CleanHasOneLoop(After(q', limits, es), limits);
      }
    } else {
      var es := UnsafeSubmissionSplits(q, limits, turn, created);
    }
  }
}
