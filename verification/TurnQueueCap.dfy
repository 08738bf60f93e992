/** The hard cap: it bounds a key's pending and running turns when admissions are serialised, and bounds
  * nothing when they are submitted together.
  */
module TurnQueueCap {
  import opened Options
  import opened TurnQueue
  import opened TurnQueueSafety

  /** Pending turns plus the drain loop, which holds at most one turn. */
  function Load<R(==)>(q: Queue<R>): nat {
    |q.pending| + One(q.running != {})
  }

  // ---- Serialised admissions ---------------------------------------------------------------------

  ghost predicate Serialised<R>(q: Queue<R>, e: Event<R>) {
    Enabled(q, e) && (e.Submit? ==> forall i :: 0 <= i < |q.jobs| ==> !IsAdmission(q.jobs[i]))
  }

  ghost predicate IsSerialRun<R>(q: Queue<R>, limits: Limits, es: seq<Event<R>>)
    ensures IsSerialRun(q, limits, es) ==> IsRun(q, limits, es)
    decreases |es|
  {
    es == [] || (Serialised(q, es[0]) && IsSerialRun(Step(q, limits, es[0]), limits, es[1..]))
  }

  /** What the one admission in flight has been promised about the load. */
  ghost predicate Promised<R>(q: Queue<R>, limits: Limits, job: Job<R>) {
    match job
    case Listed(_, state, count) => |q.pending| <= count && (q.running == {} || q.running == {state})
    case Dropped(_, state, Some(_)) => Load(q) < limits.hard && (q.running == {} || q.running == {state})
    case Dropped(_, state, None) => q.pending == [] && (q.running == {} || q.running == {state})
    case Pushed(state) => q.running == {} || q.running == {state}
    case _ => true
  }

  ghost predicate Capped<R>(q: Queue<R>, limits: Limits) {
    && Load(q) <= limits.hard
    && (forall i, j :: 0 <= i < |q.jobs| && 0 <= j < |q.jobs| && IsAdmission(q.jobs[i]) && IsAdmission(q.jobs[j]) ==> i == j)
    && (forall i :: 0 <= i < |q.jobs| ==> Promised(q, limits, q.jobs[i]))
    && (q.session.None? ==> q.running == {})
    && (q.session.Some? ==> q.running <= {q.session.value})
  }

  lemma SerialStepKeepsCap<R>(q: Queue<R>, limits: Limits, e: Event<R>)
    requires Serialised(q, e) && Capped(q, limits) && 0 < limits.hard
    ensures Capped(Step(q, limits, e), limits)
  {
    match e
    case Submit(turn, created) =>
      assert q.session.Some? ==> q.running == {} || q.running == {q.session.value};
    case Resume(id) => ResumeKeepsCap(q, limits, id);
    case Finish(index, ok) =>
  }

  lemma ResumeKeepsCap<R>(q: Queue<R>, limits: Limits, id: nat)
    requires Enabled(q, Resume(id)) && Capped(q, limits) && 0 < limits.hard
    ensures Capped(Step(q, limits, Resume(id)), limits)
  {
    var rest := q.(jobs := q.jobs[1..]);
    var job := q.jobs[0];
    assert Promised(q, limits, job);
    assert forall i :: 0 <= i < |rest.jobs| ==> Promised(q, limits, rest.jobs[i]);
    if IsAdmission(job) {
      assert forall i :: 0 <= i < |rest.jobs| ==> !IsAdmission(rest.jobs[i]);
      AdmissionKeepsCap(rest, limits, job, id);
    } else {
      LoopKeepsCap(rest, limits, job, id);
    }
  }

  lemma AdmissionKeepsCap<R>(q: Queue<R>, limits: Limits, job: Job<R>, id: nat)
    requires IsAdmission(job) && Promised(q, limits, job) && Load(q) <= limits.hard && 0 < limits.hard
    requires forall i :: 0 <= i < |q.jobs| ==> !IsAdmission(q.jobs[i])
    requires q.session.None? ==> q.running == {}
    requires q.session.Some? ==> q.running <= {q.session.value}
    ensures Capped(Continue(q, limits, job, id), limits)
  {
    var q' := Continue(q, limits, job, id);
    forall i | 0 <= i < |q'.jobs|
      ensures Promised(q', limits, q'.jobs[i])
    {
      if i < |q.jobs| {
        assert q'.jobs[i] == q.jobs[i];
      }
    }
  }

  lemma LoopKeepsCap<R>(q: Queue<R>, limits: Limits, job: Job<R>, id: nat)
    requires IsLoop(job) && Capped(q, limits)
    ensures Capped(Continue(q, limits, job, id), limits)
  {
    var q' := Continue(q, limits, job, id);
    assert forall i :: 0 <= i < |q.jobs| ==> q'.jobs[i] == q.jobs[i];
  }

  lemma {:induction false} SerialRunKeepsCap<R>(q: Queue<R>, limits: Limits, es: seq<Event<R>>)
    requires IsSerialRun(q, limits, es) && Capped(q, limits) && 0 < limits.hard
    ensures Capped(After(q, limits, es), limits)
    decreases |es|
  {
    if es != [] {
      SerialStepKeepsCap(q, limits, es[0]);
      SerialRunKeepsCap(Step(q, limits, es[0]), limits, es[1..]);
    }
  }

  /** Admissions one at a time: pending plus running never exceeds the hard cap. */
  lemma SerialLoadIsCapped<R>(limits: Limits, es: seq<Event<R>>)
    requires IsSerialRun(Initial(), limits, es) && 0 < limits.hard
    ensures Load(After(Initial(), limits, es)) <= limits.hard
  {
    SerialRunKeepsCap(Initial(), limits, es);
  }

  // ---- Admissions submitted together ---------------------------------------------------------------

  ghost predicate Idle<R>(q: Queue<R>, r: R) {
    q.session == Some(r) && q.running == {} && q.pending == [] && q.jobs == [] && q.executing == []
  }

  /** m turns submitted in one synchronous stretch, and k of them pushed. */
  ghost predicate Burst<R>(q: Queue<R>, r: R, m: nat, k: nat) {
    && q.session == Some(r) && q.running == {} && q.executing == []
    && |q.pending| == k
    && |q.jobs| == m + k
    && (forall i :: 0 <= i < m ==> q.jobs[i].Listed? && q.jobs[i].state == r && q.jobs[i].count == 0)
    && (forall i :: m <= i < m + k ==> q.jobs[i].Pushed?)
  }

  /** However small the hard cap, n turns submitted together onto an idle key all become pending. */
  lemma BurstExceedsAnyCap<R>(q: Queue<R>, limits: Limits, r: R, turn: Turn, created: seq<R>) returns (es: seq<Event<R>>)
    requires Idle(q, r) && r in q.refs && 0 < limits.hard
    requires forall i :: 0 <= i < |created| ==> created[i] !in q.refs
    ensures IsRun(q, limits, es) && |After(q, limits, es).pending| == |created|
  {
    es := SubmitsAll(q, limits, r, turn, created, 0);
  }

  lemma {:induction false} SubmitsAll<R>(q: Queue<R>, limits: Limits, r: R, turn: Turn, created: seq<R>, m: nat)
    returns (es: seq<Event<R>>)
    requires m <= |created| && Burst(q, r, m, 0) && r in q.refs && 0 < limits.hard
    requires forall i :: 0 <= i < |created| ==> created[i] !in q.refs
    ensures IsRun(q, limits, es) && |After(q, limits, es).pending| == |created|
    decreases |created| - m
  {
    if m == |created| {
      es := PushesAll(q, limits, r, m, 0);
    } else {
      es := SubmitsAll(Step(q, limits, Submit(turn, created[m])), limits, r, turn, created, m + 1);
      var all := [Submit(turn, created[m])] + es;
      assert all[1..] == es;
      es := all;
    }
  }

  lemma {:induction false} PushesAll<R>(q: Queue<R>, limits: Limits, r: R, m: nat, k: nat) returns (es: seq<Event<R>>)
    requires Burst(q, r, m, k) && 0 < limits.hard
    ensures IsRun(q, limits, es) && |After(q, limits, es).pending| == m + k
    decreases m
  {
    if m == 0 {
      es := [];
    } else {
      es := PushesAll(Step(q, limits, Resume(q.nextId)), limits, r, m - 1, k + 1);
      var all := [Resume(q.nextId)] + es;
      assert all[1..] == es;
      es := all;
    }
  }
}
