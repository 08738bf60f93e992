/** Turns submitted together to a registered key: exactly how many of them the hard cap holds for.
  *
  * The continuations of such turns all captured the same count. Each pushes or not by that count, so what the
  * key will hold can be told when they are submitted.
  */
module TurnQueueBurst {
  import opened Options
  import opened TurnQueue
  import opened TurnQueueCap
  import opened TurnQueueSafety

  /** Nothing but submissions in flight, all made since the last continuation ran. */
  ghost predicate Gathering<R>(q: Queue<R>, r: R) {
    && q.session == Some(r)
    && (q.running == {} || q.running == {r})
    && (q.pending != [] ==> q.running == {r})
    && forall i :: 0 <= i < |q.jobs| ==> q.jobs[i].Listed? && q.jobs[i].state == r && q.jobs[i].count == |q.pending|
  }

  /** The submissions in flight all push, unless the key is at its cap: then none of them adds to the load. */
  predicate Fits<R(==)>(q: Queue<R>, limits: Limits) {
    Load(q) + (if Load(q) < limits.hard then |q.jobs| else 0) <= limits.hard
  }

  ghost predicate IsClosedRun<R>(q: Queue<R>, limits: Limits, es: seq<Event<R>>)
    ensures IsClosedRun(q, limits, es) ==> IsRun(q, limits, es)
    decreases |es|
  {
    es == [] || (Enabled(q, es[0]) && !es[0].Submit? && IsClosedRun(Step(q, limits, es[0]), limits, es[1..]))
  }

  // ---- What is in flight adds to the load -------------------------------------------------------------

  /** How much a continuation will add to the load, with a drain loop running or not. */
  function Gain<R>(job: Job<R>, busy: bool, limits: Limits): nat {
    match job
    case Listed(_, _, count) => One(count + One(busy) < limits.hard)
    case Dropped(_, _, victim) => One(victim.Some?)
    case _ => 0
  }

  function Gains<R>(jobs: seq<Job<R>>, busy: bool, limits: Limits): nat {
    if jobs == [] then 0 else Gain(jobs[0], busy, limits) + Gains(jobs[1..], busy, limits)
  }

  lemma {:induction false} GainsAppend<R>(jobs: seq<Job<R>>, job: Job<R>, busy: bool, limits: Limits)
    ensures Gains(jobs + [job], busy, limits) == Gains(jobs, busy, limits) + Gain(job, busy, limits)
  {
    if jobs == [] {
      assert jobs + [job] == [job] && [job][1..] == [];
    } else {
      GainsAppend(jobs[1..], job, busy, limits);
      assert (jobs + [job])[1..] == jobs[1..] + [job];
    }
  }

  ghost predicate NoListed<R>(jobs: seq<Job<R>>) {
    forall i :: 0 <= i < |jobs| ==> !jobs[i].Listed?
  }

  ghost predicate NoDropped<R>(jobs: seq<Job<R>>) {
    forall i :: 0 <= i < |jobs| ==> !jobs[i].Dropped?
  }

  ghost predicate NoDequeued<R>(jobs: seq<Job<R>>) {
    forall i :: 0 <= i < |jobs| ==> !jobs[i].Dequeued?
  }

  /** Once no submission is left to decide, the gains do not depend on the drain loop. */
  lemma {:induction false} GainsSettled<R>(jobs: seq<Job<R>>, busy: bool, limits: Limits)
    requires NoListed(jobs)
    ensures Gains(jobs, busy, limits) == Gains(jobs, false, limits)
    ensures NoDropped(jobs) ==> Gains(jobs, busy, limits) == 0
  {
    if jobs != [] {
      GainsSettled(jobs[1..], busy, limits);
    }
  }

  /** Submissions still to decide come first, and drops before any look of the loop into the backend. */
  ghost predicate Ranked<R>(jobs: seq<Job<R>>) {
    && (forall i, j :: 0 <= i < j < |jobs| && jobs[j].Listed? ==> jobs[i].Listed?)
    && (forall i, j :: 0 <= i < j < |jobs| && jobs[j].Dropped? ==> !jobs[i].Dequeued?)
    && (jobs != [] && jobs[0].Listed? ==> NoDequeued(jobs))
  }

  /** A submission that meets the cap, and a drop, have a drain loop running. */
  predicate NeedsLoop<R>(job: Job<R>, busy: bool, limits: Limits) {
    job.Dropped? || (job.Listed? && limits.hard <= job.count + One(busy))
  }

  ghost predicate Covered<R>(jobs: seq<Job<R>>, busy: bool, limits: Limits) {
    forall i :: 0 <= i < |jobs| && NeedsLoop(jobs[i], busy, limits) ==> busy
  }

  ghost predicate OfState<R>(jobs: seq<Job<R>>, r: R) {
    forall i :: 0 <= i < |jobs| && IsAdmission(jobs[i]) ==> jobs[i].state == r
  }

  predicate Busy<R(==)>(q: Queue<R>) {
    q.running != {}
  }

  ghost predicate Closing<R>(q: Queue<R>, r: R, limits: Limits) {
    && (q.running == {} || q.running == {r})
    && Ranked(q.jobs) && OfState(q.jobs, r)
    && Covered(q.jobs, Busy(q), limits)
    && Load(q) + Gains(q.jobs, Busy(q), limits) <= limits.hard
  }

  lemma RankedTail<R>(jobs: seq<Job<R>>)
    requires jobs != [] && Ranked(jobs)
    ensures Ranked(jobs[1..])
    ensures !jobs[0].Listed? ==> NoListed(jobs[1..])
    ensures jobs[0].Listed? ==> NoDequeued(jobs[1..])
    ensures jobs[0].Dequeued? ==> NoDropped(jobs[1..])
  {
    var rest := jobs[1..];
    assert forall i :: 0 <= i < |rest| ==> rest[i] == jobs[i + 1];
  }

  /** A continuation at the end keeps the ranks, unless it is a new submission or comes out of turn. */
  lemma RankedAppend<R>(jobs: seq<Job<R>>, job: Job<R>)
    requires Ranked(jobs) && !job.Listed?
    requires job.Dropped? ==> NoDequeued(jobs)
    requires job.Dequeued? ==> NoListed(jobs)
    ensures Ranked(jobs + [job])
  {
  }

  lemma ResumeCloses<R>(q: Queue<R>, r: R, limits: Limits, id: nat)
    requires Closing(q, r, limits) && 0 < limits.hard && Enabled(q, Resume(id))
    ensures Closing(Step(q, limits, Resume(id)), r, limits)
  {
    var job := q.jobs[0];
    var rest := q.(jobs := q.jobs[1..]);
    RankedTail(q.jobs);
    assert Covered(rest.jobs, Busy(q), limits) && OfState(rest.jobs, r);
    assert NeedsLoop(job, Busy(q), limits) ==> Busy(q);
    match job
    case Listed(turn, state, count) => ListedCloses(rest, r, limits, turn, count, id);
    case Dropped(turn, state, victim) => DroppedCloses(rest, r, limits, turn, victim, id);
    case Pushed(state) => PushedCloses(rest, r, limits, id);
    case Dequeued(state, taken) => DequeuedCloses(rest, r, limits, state, taken, id);
    case Executed(state, item, ok) =>
      LookCloses(rest.(resolved := Settle(rest, item.turn, ok).resolved, failed := Settle(rest, item.turn, ok).failed), r, limits, state);
  }

  /** A continuation added at the end, that adds no more than the room left. */
  lemma AppendCloses<R>(q: Queue<R>, r: R, limits: Limits, job: Job<R>)
    requires q.running == {} || q.running == {r}
    requires Ranked(q.jobs) && OfState(q.jobs, r) && Covered(q.jobs, Busy(q), limits)
    requires !job.Listed? && (IsAdmission(job) ==> job.state == r)
    requires job.Dropped? ==> NoDequeued(q.jobs) && Busy(q)
    requires job.Dequeued? ==> NoListed(q.jobs)
    requires Load(q) + Gains(q.jobs, Busy(q), limits) + Gain(job, Busy(q), limits) <= limits.hard
    ensures Closing(q.(jobs := q.jobs + [job]), r, limits)
  {
    RankedAppend(q.jobs, job);
    GainsAppend(q.jobs, job, Busy(q), limits);
  }

  lemma PushCloses<R>(q: Queue<R>, r: R, limits: Limits, turn: Turn, id: nat)
    requires Closing(q, r, limits) && Load(q) + Gains(q.jobs, Busy(q), limits) < limits.hard
    ensures Closing(Push(q, turn, r, id), r, limits)
  {
    AppendCloses(q.(pending := q.pending + [Item(id, turn)], nextId := id + 1), r, limits, Pushed(r));
  }

  lemma ListedCloses<R>(q: Queue<R>, r: R, limits: Limits, turn: Turn, count: nat, id: nat)
    requires q.running == {} || q.running == {r}
    requires Ranked(q.jobs) && OfState(q.jobs, r) && Covered(q.jobs, Busy(q), limits) && NoDequeued(q.jobs)
    requires NeedsLoop(Listed(turn, r, count), Busy(q), limits) ==> Busy(q)
    requires Load(q) + Gains(q.jobs, Busy(q), limits) + Gain(Listed(turn, r, count), Busy(q), limits) <= limits.hard
    ensures Closing(Continue(q, limits, Listed(turn, r, count), id), r, limits)
  {
    if count + One(Busy(q)) < limits.hard {
      PushCloses(q, r, limits, turn, id);
    } else if limits.strategy.DropOldest? {
      var q1 := q.(pending := if q.pending == [] then [] else q.pending[1..]);
      AppendCloses(q1, r, limits, Dropped(turn, r, Oldest(q.pending)));
    }
  }

  lemma DroppedCloses<R>(q: Queue<R>, r: R, limits: Limits, turn: Turn, victim: Option<Item>, id: nat)
    requires q.running == {r}
    requires Ranked(q.jobs) && OfState(q.jobs, r) && Covered(q.jobs, Busy(q), limits)
    requires Load(q) + Gains(q.jobs, Busy(q), limits) + One(victim.Some?) <= limits.hard
    ensures Closing(Continue(q, limits, Dropped(turn, r, victim), id), r, limits)
  {
    if victim.Some? {
      PushCloses(TurnAway(q, victim.value.turn), r, limits, turn, id);
    }
  }

  /** The drain loop's look into the backend, at a time when no submission is left to decide. */
  lemma LookCloses<R>(q: Queue<R>, r: R, limits: Limits, state: R)
    requires Closing(q, r, limits) && NoListed(q.jobs)
    ensures Closing(Dequeue(q, state), r, limits)
  {
    var q1 := q.(pending := if q.pending == [] then [] else q.pending[1..]);
    AppendCloses(q1, r, limits, Dequeued(state, Oldest(q.pending)));
  }

  lemma PushedCloses<R>(q: Queue<R>, r: R, limits: Limits, id: nat)
    requires Closing(q, r, limits) && NoListed(q.jobs) && 0 < limits.hard
    ensures Closing(Continue(q, limits, Pushed(r), id), r, limits)
  {
    var q1 := q.(session := Some(r));
    if r !in q.running {
      assert NoDropped(q.jobs) by {
        forall i | 0 <= i < |q.jobs| ensures !q.jobs[i].Dropped? {
          assert NeedsLoop(q.jobs[i], Busy(q), limits) ==> Busy(q);
        }
      }
      GainsSettled(q.jobs, true, limits);
      var q2 := q1.(running := q.running + {r}, pending := if q.pending == [] then [] else q.pending[1..]);
      AppendCloses(q2, r, limits, Dequeued(r, Oldest(q.pending)));
    }
  }

  lemma DequeuedCloses<R>(q: Queue<R>, r: R, limits: Limits, state: R, taken: Option<Item>, id: nat)
    requires Closing(q, r, limits) && NoListed(q.jobs) && NoDropped(q.jobs)
    ensures Closing(Continue(q, limits, Dequeued(state, taken), id), r, limits)
  {
    if taken.None? {
      GainsSettled(q.jobs, Busy(q), limits);
      GainsSettled(q.jobs, false, limits);
    }
  }

  lemma StepCloses<R>(q: Queue<R>, r: R, limits: Limits, e: Event<R>)
    requires Closing(q, r, limits) && 0 < limits.hard && Enabled(q, e) && !e.Submit?
    ensures Closing(Step(q, limits, e), r, limits)
  {
    match e
    case Resume(id) => ResumeCloses(q, r, limits, id);
    case Finish(index, ok) =>
      var x := q.executing[index];
      AppendCloses(q.(executing := q.executing[..index] + q.executing[index + 1..]), r, limits, Executed(x.state, x.item, ok));
  }

  lemma {:induction false} ClosedRunCloses<R>(q: Queue<R>, r: R, limits: Limits, es: seq<Event<R>>)
    requires Closing(q, r, limits) && 0 < limits.hard && IsClosedRun(q, limits, es)
    ensures Closing(After(q, limits, es), r, limits)
    decreases |es|
  {
    if es != [] {
      StepCloses(q, r, limits, es[0]);
      ClosedRunCloses(Step(q, limits, es[0]), r, limits, es[1..]);
    }
  }

  // ---- The exact condition ----------------------------------------------------------------------------

  lemma {:induction false} EqualGains<R>(jobs: seq<Job<R>>, count: nat, busy: bool, limits: Limits)
    requires forall i :: 0 <= i < |jobs| ==> jobs[i].Listed? && jobs[i].count == count
    ensures Gains(jobs, busy, limits) == if count + One(busy) < limits.hard then |jobs| else 0
  {
    if jobs != [] {
      EqualGains(jobs[1..], count, busy, limits);
    }
  }

  lemma FittingCloses<R>(q: Queue<R>, r: R, limits: Limits)
    requires Gathering(q, r) && 0 < limits.hard && Fits(q, limits)
    ensures Closing(q, r, limits)
  {
    EqualGains(q.jobs, |q.pending|, Busy(q), limits);
  }

  /** The first m continuations still to come are submissions that will push; those behind them are no more
    * submissions to decide. */
  ghost predicate Pushing<R>(q: Queue<R>, r: R, m: nat, count: nat, limits: Limits) {
    && m <= |q.jobs|
    && (q.running == {} || q.running == {r})
    && count + One(Busy(q)) < limits.hard
    && forall i :: 0 <= i < m ==> q.jobs[i].Listed? && q.jobs[i].state == r && q.jobs[i].count == count
  }

  lemma {:induction false} AllPush<R>(q: Queue<R>, r: R, m: nat, count: nat, limits: Limits) returns (es: seq<Event<R>>)
    requires Pushing(q, r, m, count, limits)
    ensures IsClosedRun(q, limits, es) && Load(After(q, limits, es)) == Load(q) + m
    decreases m
  {
    if m == 0 {
      es := [];
    } else {
      var q1 := Step(q, limits, Resume(q.nextId));
      assert forall i :: 0 <= i < m - 1 ==> q1.jobs[i] == q.jobs[i + 1];
      es := AllPush(q1, r, m - 1, count, limits);
      var all := [Resume(q.nextId)] + es;
      assert all[1..] == es;
      es := all;
    }
  }

  lemma NoRun<R>(q: Queue<R>, limits: Limits) returns (es: seq<Event<R>>)
    ensures IsClosedRun(q, limits, es) && After(q, limits, es) == q
  {
    es := [];
  }

  /** From turns submitted together, the load stays within the cap in every later run without submissions if and
    * only if it fits now. */
  lemma CapIsExact<R(!new)>(q: Queue<R>, limits: Limits, r: R)
    requires Gathering(q, r) && 0 < limits.hard
    ensures Fits(q, limits)
            <==> forall es :: IsClosedRun(q, limits, es) ==> Load(After(q, limits, es)) <= limits.hard
  {
    if Fits(q, limits) {
      forall es | IsClosedRun(q, limits, es) ensures Load(After(q, limits, es)) <= limits.hard {
        FittingCloses(q, r, limits);
        ClosedRunCloses(q, r, limits, es);
      }
    } else if Load(q) < limits.hard {
      var es := AllPush(q, r, |q.jobs|, |q.pending|, limits);
    } else {
      var es := NoRun(q, limits);
    }
  }

  /** There is room for one more, or the key is at its cap and the submission cannot add to it. */
  predicate RoomForOne<R(==)>(q: Queue<R>, limits: Limits) {
    Load(q) + |q.jobs| < limits.hard || Load(q) == limits.hard
  }

  /** The guard on a submission, counting the submissions in flight: the cap holds in every later run without
    * further ones if and only if there was room. */
  lemma RoomIsExact<R(!new)>(q: Queue<R>, limits: Limits, r: R, turn: Turn, created: R)
    requires Gathering(q, r) && 0 < limits.hard
    ensures RoomForOne(q, limits)
            <==> forall es :: IsClosedRun(Admit(q, turn, created), limits, es) ==>
                                Load(After(Admit(q, turn, created), limits, es)) <= limits.hard
  {
    CapIsExact(Admit(q, turn, created), limits, r);
  }

  /** A registered key that no continuation works for is gathering: idle, or executing a turn. */
  lemma RestGathers<R>(q: Queue<R>, limits: Limits, r: R)
    requires Sound(q) && Clean(q, limits) && q.session == Some(r) && q.jobs == []
    ensures Gathering(q, r)
  {
    assert q.running == {} || q.running == {r};
    if q.pending != [] {
      assert HasLive(q);
      assert q.executing[0].state == r;
      assert LoopsOf(q, r) >= 1;
      assert r in q.refs;
    }
  }

  lemma {:induction false} SubmitAll<R>(q: Queue<R>, limits: Limits, r: R, turns: seq<Turn>, created: R) returns (es: seq<Event<R>>)
    requires Gathering(q, r)
    ensures IsRun(q, limits, es) && |es| == |turns|
    ensures forall i :: 0 <= i < |turns| ==> es[i] == Submit(turns[i], created)
    ensures var q' := After(q, limits, es); Gathering(q', r) && Load(q') == Load(q) && |q'.jobs| == |q.jobs| + |turns|
    decreases |turns|
  {
    if turns == [] {
      es := [];
    } else {
      var q1 := Step(q, limits, Submit(turns[0], created));
      assert Gathering(q1, r);
      es := SubmitAll(q1, limits, r, turns[1..], created);
      var all := [Submit(turns[0], created)] + es;
      assert all[1..] == es;
      es := all;
    }
  }

  /** Turns submitted together to a registered key at rest: the cap holds from then on if and only if they all
    * fit beside its load, or the key was at its cap already. For an idle key: if and only if they are no more
    * than the cap. */
  lemma BurstIsExact<R(!new)>(q: Queue<R>, limits: Limits, r: R, turns: seq<Turn>, created: R) returns (es: seq<Event<R>>)
    requires Sound(q) && Clean(q, limits) && q.session == Some(r) && q.jobs == [] && 0 < limits.hard && turns != []
    ensures IsRun(q, limits, es) && |es| == |turns| && forall i :: 0 <= i < |turns| ==> es[i] == Submit(turns[i], created)
    ensures var q' := After(q, limits, es);
      (forall later :: IsClosedRun(q', limits, later) ==> Load(After(q', limits, later)) <= limits.hard)
      <==> Load(q) + |turns| <= limits.hard || Load(q) == limits.hard
  {
    RestGathers(q, limits, r);
    es := SubmitAll(q, limits, r, turns, created);
    CapIsExact(After(q, limits, es), limits, r);
  }
}
