/** The turn queue of one session key, as a machine over the code between two `await`s.
  *
  * Every `await` on the in-memory backend takes effect when the call is made and appends its
  * continuation to the microtask queue, which runs first in, first out. A turn's own execution
  * finishes whenever the environment decides. State objects (`SessionQueueState` in the source)
  * are values of a reference type R, because what matters about them is which one is meant.
  */
module TurnQueue {
  import opened Options

  datatype Turn = Turn(runId: string)

  /** A backend entry: the id the backend issued, and its payload. */
  datatype Item = Item(id: nat, turn: Turn)

  datatype DropStrategy = DropOldest | DeferNew

  datatype Limits = Limits(soft: int, hard: int, strategy: DropStrategy)

  /** A continuation waiting in the microtask queue, named after the await it follows. */
  datatype Job<R> = Listed(turn: Turn, state: R, count: nat)
    | Dropped(turn: Turn, state: R, victim: Option<Item>)
    | Pushed(state: R)
    | Dequeued(state: R, taken: Option<Item>)
    | Executed(state: R, item: Item, ok: bool)

  datatype Execution<R> = Execution(state: R, item: Item)

  datatype Queue<R> = Queue(
    session: Option<R>,        // the state object registered for the key
    refs: set<R>,              // every state object created so far
    running: set<R>,           // those with running == true
    pending: seq<Item>,        // the backend's list
    jobs: seq<Job<R>>,         // this key's continuations, oldest first
    executing: seq<Execution<R>>,
    nextId: nat,               // above every id issued so far
    submitted: seq<Turn>,      // history from here on
    started: seq<Item>,
    turnedAway: seq<Turn>,     // rejected without having been executed
    failed: seq<Turn>,
    resolved: seq<Turn>)

  datatype Event<R> = Submit(turn: Turn, created: R) | Resume(id: nat) | Finish(index: nat, ok: bool)

  function Initial<R>(): Queue<R> {
    Queue(None, {}, {}, [], [], [], 0, [], [], [], [], [])
  }

  // ---- Steps ----------------------------------------------------------------------------

  ghost predicate Enabled<R>(q: Queue<R>, e: Event<R>) {
    match e
    case Submit(_, created) => q.session.Some? || created !in q.refs
    case Resume(id) => q.jobs != [] && q.nextId <= id
    case Finish(index, _) => index < |q.executing|
  }

  function Step<R>(q: Queue<R>, limits: Limits, e: Event<R>): Queue<R>
    requires Enabled(q, e)
  {
    match e
    case Submit(turn, created) => Admit(q, turn, created)
    case Resume(id) => Continue(q.(jobs := q.jobs[1..]), limits, q.jobs[0], id)
    case Finish(index, ok) => Complete(q, index, ok)
  }

  /** A turn's own promise settles: its continuation joins the microtask queue. */
  function Complete<R>(q: Queue<R>, index: nat, ok: bool): Queue<R>
    requires index < |q.executing|
  {
    var x := q.executing[index];
    q.(executing := q.executing[..index] + q.executing[index + 1..],
       jobs := q.jobs + [Executed(x.state, x.item, ok)])
  }

  /** `enqueueAsync` up to its first await: capture the state object and the pending count. */
  function Admit<R>(q: Queue<R>, turn: Turn, created: R): Queue<R> {
    var state := if q.session.Some? then q.session.value else created;
    q.(refs := q.refs + {state},
       submitted := q.submitted + [turn],
       jobs := q.jobs + [Listed(turn, state, |q.pending|)])
  }

  function Depth<R>(q: Queue<R>, state: R, count: nat): nat {
    count + if state in q.running then 1 else 0
  }

  /** The code after the await that `job` follows, up to the next await. */
  function Continue<R>(q: Queue<R>, limits: Limits, job: Job<R>, id: nat): Queue<R> {
    match job
    case Listed(turn, state, count) =>
      if Depth(q, state, count) < limits.hard then Push(q, turn, state, id)
      else if limits.strategy.DeferNew? then TurnAway(q, turn)
      else Drop(q, turn, state)
    case Dropped(turn, state, victim) =>
      if victim.Some? then Push(TurnAway(q, victim.value.turn), turn, state, id)
      else if state in q.running then TurnAway(q, turn)
      else Push(q, turn, state, id)
    case Pushed(state) =>
      var q' := q.(session := Some(state));
      if state in q.running then q' else Dequeue(q'.(running := q.running + {state}), state)
    case Dequeued(state, None) => q.(running := q.running - {state})
    case Dequeued(state, Some(item)) => Start(q, state, item)
    case Executed(state, item, ok) =>
      Dequeue(Settle(q, item.turn, ok), state)
  }

  function Start<R>(q: Queue<R>, state: R, item: Item): Queue<R> {
    q.(executing := q.executing + [Execution(state, item)], started := q.started + [item])
  }

  function Settle<R>(q: Queue<R>, turn: Turn, ok: bool): Queue<R> {
    if ok then q.(resolved := q.resolved + [turn]) else q.(failed := q.failed + [turn])
  }

  function Oldest(pending: seq<Item>): Option<Item> {
    if pending == [] then None else Some(pending[0])
  }

  /** Make room by taking the oldest pending item out of the backend. */
  function Drop<R>(q: Queue<R>, turn: Turn, state: R): Queue<R> {
    q.(pending := if q.pending == [] then [] else q.pending[1..],
       jobs := q.jobs + [Dropped(turn, state, Oldest(q.pending))])
  }

  function TurnAway<R>(q: Queue<R>, turn: Turn): Queue<R> {
    q.(turnedAway := q.turnedAway + [turn])
  }

  function Push<R>(q: Queue<R>, turn: Turn, state: R, id: nat): Queue<R> {
    q.(pending := q.pending + [Item(id, turn)], nextId := id + 1, jobs := q.jobs + [Pushed(state)])
  }

  /** The head of the drain loop, up to its await. */
  function Dequeue<R>(q: Queue<R>, state: R): Queue<R> {
    q.(pending := if q.pending == [] then [] else q.pending[1..],
       jobs := q.jobs + [Dequeued(state, Oldest(q.pending))])
  }

  // ---- Runs -----------------------------------------------------------------------------

  ghost predicate IsRun<R>(q: Queue<R>, limits: Limits, es: seq<Event<R>>)
    decreases |es|
  {
    es == [] || (Enabled(q, es[0]) && IsRun(Step(q, limits, es[0]), limits, es[1..]))
  }

  ghost function After<R>(q: Queue<R>, limits: Limits, es: seq<Event<R>>): Queue<R>
    requires IsRun(q, limits, es)
    decreases |es|
  {
    if es == [] then q else After(Step(q, limits, es[0]), limits, es[1..])
  }

  // ---- Where a turn can be: how often t occurs in each place ------------------------------

  /** Held by admissions that have not pushed it, or dropped but not yet rejected. */
  function Admitting<R>(jobs: seq<Job<R>>, t: Turn): nat {
    if jobs == [] then 0 else AdmittingIn(jobs[0], t) + Admitting(jobs[1..], t)
  }

  function AdmittingIn<R>(job: Job<R>, t: Turn): nat {
    match job
    case Listed(turn, _, _) => One(turn == t)
    case Dropped(turn, _, None) => One(turn == t)
    case Dropped(turn, _, Some(v)) => One(turn == t) + One(v.turn == t)
    case _ => 0
  }

  function One(b: bool): nat {
    if b then 1 else 0
  }

  /** Items taken from the backend by a drain loop that has not started them yet, in queue order. */
  function Taken<R>(jobs: seq<Job<R>>): seq<Item> {
    if jobs == [] then [] else TakenIn(jobs[0]) + Taken(jobs[1..])
  }

  function TakenIn<R>(job: Job<R>): seq<Item> {
    match job
    case Dequeued(_, Some(item)) => [item]
    case _ => []
  }

  /** Executed, but the caller has not been told yet. */
  function Finishing<R>(jobs: seq<Job<R>>, t: Turn): nat {
    if jobs == [] then 0 else FinishingIn(jobs[0], t) + Finishing(jobs[1..], t)
  }

  function FinishingIn<R>(job: Job<R>, t: Turn): nat {
    One(job.Executed? && job.item.turn == t)
  }

  function Items(items: seq<Item>, t: Turn): nat {
    if items == [] then 0 else One(items[0].turn == t) + Items(items[1..], t)
  }

  function Executing<R>(executing: seq<Execution<R>>, t: Turn): nat {
    if executing == [] then 0 else One(executing[0].item.turn == t) + Executing(executing[1..], t)
  }

  function Turns(turns: seq<Turn>, t: Turn): nat {
    if turns == [] then 0 else One(turns[0] == t) + Turns(turns[1..], t)
  }

  // ---- Drain loops ------------------------------------------------------------------------

  predicate IsLoop<R>(job: Job<R>) {
    job.Dequeued? || job.Executed?
  }

  /** Drain loops of state object r suspended in the microtask queue. */
  function LoopJobs<R(==)>(jobs: seq<Job<R>>, r: R): nat {
    if jobs == [] then 0 else One(IsLoop(jobs[0]) && jobs[0].state == r) + LoopJobs(jobs[1..], r)
  }

  /** Drain loops of state object r waiting for a turn to finish. */
  function LoopExecutions<R(==)>(executing: seq<Execution<R>>, r: R): nat {
    if executing == [] then 0 else One(executing[0].state == r) + LoopExecutions(executing[1..], r)
  }

  function LoopsOf<R(==)>(q: Queue<R>, r: R): nat {
    LoopJobs(q.jobs, r) + LoopExecutions(q.executing, r)
  }

  /** All drain loops active for the key, whichever state object they hold. */
  function ActiveLoops<R>(q: Queue<R>): nat {
    AllLoopJobs(q.jobs) + |q.executing|
  }

  function AllLoopJobs<R>(jobs: seq<Job<R>>): nat {
    if jobs == [] then 0 else One(IsLoop(jobs[0])) + AllLoopJobs(jobs[1..])
  }

  // ---- How the tallies split over concatenation -------------------------------------------

  lemma {:induction false} SplitJobs<R>(a: seq<Job<R>>, b: seq<Job<R>>, t: Turn)
    ensures Admitting(a + b, t) == Admitting(a, t) + Admitting(b, t)
    ensures Finishing(a + b, t) == Finishing(a, t) + Finishing(b, t)
  {
    if a == [] {
      assert a + b == b;
    } else {
      assert (a + b)[1..] == a[1..] + b;
      SplitJobs(a[1..], b, t);
    }
  }

  lemma {:induction false} SplitTaken<R>(a: seq<Job<R>>, b: seq<Job<R>>)
    ensures Taken(a + b) == Taken(a) + Taken(b)
  {
    if a == [] {
      assert a + b == b;
    } else {
      assert (a + b)[1..] == a[1..] + b;
      SplitTaken(a[1..], b);
    }
  }

  lemma {:induction false} SplitLoopJobs<R>(a: seq<Job<R>>, b: seq<Job<R>>, r: R)
    ensures LoopJobs(a + b, r) == LoopJobs(a, r) + LoopJobs(b, r)
    ensures AllLoopJobs(a + b) == AllLoopJobs(a) + AllLoopJobs(b)
  {
    if a == [] {
      assert a + b == b;
    } else {
      assert (a + b)[1..] == a[1..] + b;
      SplitLoopJobs(a[1..], b, r);
    }
  }

  lemma {:induction false} SplitExecuting<R>(a: seq<Execution<R>>, b: seq<Execution<R>>, t: Turn)
    ensures Executing(a + b, t) == Executing(a, t) + Executing(b, t)
  {
    if a == [] {
      assert a + b == b;
    } else {
      assert (a + b)[1..] == a[1..] + b;
      SplitExecuting(a[1..], b, t);
    }
  }

  lemma {:induction false} SplitLoopExecutions<R>(a: seq<Execution<R>>, b: seq<Execution<R>>, r: R)
    ensures LoopExecutions(a + b, r) == LoopExecutions(a, r) + LoopExecutions(b, r)
  {
    if a == [] {
      assert a + b == b;
    } else {
      assert (a + b)[1..] == a[1..] + b;
      SplitLoopExecutions(a[1..], b, r);
    }
  }

  lemma {:induction false} SplitItems(a: seq<Item>, b: seq<Item>, t: Turn)
    ensures Items(a + b, t) == Items(a, t) + Items(b, t)
  {
    if a == [] {
      assert a + b == b;
    } else {
      assert (a + b)[1..] == a[1..] + b;
      SplitItems(a[1..], b, t);
    }
  }

  lemma {:induction false} SplitTurns(a: seq<Turn>, b: seq<Turn>, t: Turn)
    ensures Turns(a + b, t) == Turns(a, t) + Turns(b, t)
  {
    if a == [] {
      assert a + b == b;
    } else {
      assert (a + b)[1..] == a[1..] + b;
      SplitTurns(a[1..], b, t);
    }
  }

  // ---- Conservation -------------------------------------------------------------------------

  /** Every submission of t is admitting, taken, pending, started or turned away, and every start of t
    * is executing, finishing, failed or resolved: nothing is lost, doubled or invented. */
  predicate Conserved<R>(q: Queue<R>, t: Turn) {
    Balanced(q, t, 0, 0)
  }

  /** Conservation while `held` submissions and `ran` executions of t are in the hands of a step. */
  predicate Balanced<R>(q: Queue<R>, t: Turn, held: nat, ran: nat) {
    && Turns(q.submitted, t)
       == held + Admitting(q.jobs, t) + Items(Taken(q.jobs), t) + Items(q.pending, t) + Items(q.started, t)
          + Turns(q.turnedAway, t)
    && Items(q.started, t)
       == ran + Executing(q.executing, t) + Finishing(q.jobs, t) + Turns(q.failed, t) + Turns(q.resolved, t)
  }

  lemma StepConserves<R>(q: Queue<R>, limits: Limits, e: Event<R>, t: Turn)
    requires Enabled(q, e) && Conserved(q, t)
    ensures Conserved(Step(q, limits, e), t)
  {
    match e
    case Submit(turn, created) => AdmitConserves(q, turn, created, t);
    case Resume(id) =>
      var rest := q.(jobs := q.jobs[1..]);
      SplitItems(TakenIn(q.jobs[0]), Taken(rest.jobs), t);
      ContinueConserves(rest, limits, q.jobs[0], id, t);
    case Finish(index, ok) => CompleteConserves(q, index, ok, t);
  }

  lemma AdmitConserves<R>(q: Queue<R>, turn: Turn, created: R, t: Turn)
    requires Conserved(q, t)
    ensures Conserved(Admit(q, turn, created), t)
  {
    JobAdded(q.jobs, Listed(turn, if q.session.Some? then q.session.value else created, |q.pending|), t);
    SplitTurns(q.submitted, [turn], t);
  }

  lemma CompleteConserves<R>(q: Queue<R>, index: nat, ok: bool, t: Turn)
    requires index < |q.executing| && Conserved(q, t)
    ensures Conserved(Complete(q, index, ok), t)
  {
    JobAdded(q.jobs, Executed(q.executing[index].state, q.executing[index].item, ok), t);
    ExecutingWithout(q.executing, index, t);
  }

  lemma ExecutingWithout<R>(executing: seq<Execution<R>>, index: nat, t: Turn)
    requires index < |executing|
    ensures Executing(executing, t)
            == One(executing[index].item.turn == t) + Executing(executing[..index] + executing[index + 1..], t)
  {
    var before, after := executing[..index], executing[index + 1..];
    assert executing == before + ([executing[index]] + after);
    assert ([executing[index]] + after)[1..] == after;
    SplitExecuting(before, [executing[index]] + after, t);
    SplitExecuting(before, after, t);
  }

  lemma ContinueConserves<R>(q: Queue<R>, limits: Limits, job: Job<R>, id: nat, t: Turn)
    requires Balanced(q, t, AdmittingIn(job, t) + Items(TakenIn(job), t), FinishingIn(job, t))
    ensures Conserved(Continue(q, limits, job, id), t)
  {
    match job
    case Listed(turn, state, count) => ListedConserves(q, limits, turn, state, count, id, t);
    case Dropped(turn, state, victim) => DroppedConserves(q, limits, turn, state, victim, id, t);
    case Pushed(state) => PushedConserves(q, limits, state, id, t);
    case Dequeued(state, taken) => DequeuedConserves(q, limits, state, taken, id, t);
    case Executed(state, item, ok) => ExecutedConserves(q, limits, state, item, ok, id, t);
  }

  lemma PushedConserves<R>(q: Queue<R>, limits: Limits, state: R, id: nat, t: Turn)
    requires Conserved(q, t)
    ensures Conserved(Continue(q, limits, Pushed(state), id), t)
  {
    var q' := q.(session := Some(state));
    assert Conserved(q', t);
    if state !in q.running {
      DequeueBalances(q'.(running := q.running + {state}), state, t);
    }
  }

  lemma DequeuedConserves<R>(q: Queue<R>, limits: Limits, state: R, taken: Option<Item>, id: nat, t: Turn)
    requires Balanced(q, t, Items(TakenIn(Dequeued(state, taken)), t), 0)
    ensures Conserved(Continue(q, limits, Dequeued(state, taken), id), t)
  {
    if taken.Some? {
      assert Items([taken.value], t) == One(taken.value.turn == t);
      StartBalances(q, state, taken.value, t);
    }
  }

  lemma ExecutedConserves<R>(q: Queue<R>, limits: Limits, state: R, item: Item, ok: bool, id: nat, t: Turn)
    requires Balanced(q, t, 0, One(item.turn == t))
    ensures Conserved(Continue(q, limits, Executed(state, item, ok), id), t)
  {
    SettleBalances(q, item.turn, ok, t);
    DequeueBalances(Settle(q, item.turn, ok), state, t);
  }

  lemma ListedConserves<R>(q: Queue<R>, limits: Limits, turn: Turn, state: R, count: nat, id: nat, t: Turn)
    requires Balanced(q, t, One(turn == t), 0)
    ensures Conserved(Continue(q, limits, Listed(turn, state, count), id), t)
  {
    if Depth(q, state, count) < limits.hard {
      PushBalances(q, turn, state, id, t, 0, 0);
    } else if limits.strategy.DropOldest? {
      JobAdded(q.jobs, Dropped(turn, state, Oldest(q.pending)), t);
    } else {
      TurnAwayBalances(q, turn, t, 0, 0);
    }
  }

  lemma DroppedConserves<R>(q: Queue<R>, limits: Limits, turn: Turn, state: R, victim: Option<Item>, id: nat, t: Turn)
    requires Balanced(q, t, AdmittingIn(Dropped(turn, state, victim), t), 0)
    ensures Conserved(Continue(q, limits, Dropped(turn, state, victim), id), t)
  {
    if victim.Some? {
      TurnAwayBalances(q, victim.value.turn, t, One(turn == t), 0);
      PushBalances(TurnAway(q, victim.value.turn), turn, state, id, t, 0, 0);
    } else if state in q.running {
      TurnAwayBalances(q, turn, t, 0, 0);
    } else {
      PushBalances(q, turn, state, id, t, 0, 0);
    }
  }

  lemma JobAdded<R>(jobs: seq<Job<R>>, job: Job<R>, t: Turn)
    ensures Admitting(jobs + [job], t) == Admitting(jobs, t) + AdmittingIn(job, t)
    ensures Finishing(jobs + [job], t) == Finishing(jobs, t) + FinishingIn(job, t)
    ensures Items(Taken(jobs + [job]), t) == Items(Taken(jobs), t) + Items(TakenIn(job), t)
  {
    SplitJobs(jobs, [job], t);
    TakenAdded(jobs, job);
    SplitItems(Taken(jobs), TakenIn(job), t);
  }

  lemma TakenAdded<R>(jobs: seq<Job<R>>, job: Job<R>)
    ensures Taken(jobs + [job]) == Taken(jobs) + TakenIn(job)
  {
    SplitTaken(jobs, [job]);
    assert Taken([job]) == TakenIn(job);
  }

  lemma PushBalances<R>(q: Queue<R>, turn: Turn, state: R, id: nat, t: Turn, held: nat, ran: nat)
    requires Balanced(q, t, held + One(turn == t), ran)
    ensures Balanced(Push(q, turn, state, id), t, held, ran)
  {
    SplitItems(q.pending, [Item(id, turn)], t);
    JobAdded(q.jobs, Pushed(state), t);
  }

  lemma TurnAwayBalances<R>(q: Queue<R>, turn: Turn, t: Turn, held: nat, ran: nat)
    requires Balanced(q, t, held + One(turn == t), ran)
    ensures Balanced(TurnAway(q, turn), t, held, ran)
  {
    SplitTurns(q.turnedAway, [turn], t);
  }

  lemma StartBalances<R>(q: Queue<R>, state: R, item: Item, t: Turn)
    requires Balanced(q, t, One(item.turn == t), 0)
    ensures Balanced(Start(q, state, item), t, 0, 0)
  {
    SplitItems(q.started, [item], t);
    SplitExecuting(q.executing, [Execution(state, item)], t);
  }

  lemma SettleBalances<R>(q: Queue<R>, turn: Turn, ok: bool, t: Turn)
    requires Balanced(q, t, 0, One(turn == t))
    ensures Balanced(Settle(q, turn, ok), t, 0, 0)
  {
    if ok {
      SplitTurns(q.resolved, [turn], t);
    } else {
      SplitTurns(q.failed, [turn], t);
    }
  }

  lemma TakenOldest<R>(pending: seq<Item>, state: R, t: Turn)
    ensures Items(pending, t)
            == Items(TakenIn(Dequeued(state, Oldest(pending))), t) + Items(if pending == [] then [] else pending[1..], t)
  {
    if pending != [] {
      assert Items([pending[0]], t) == One(pending[0].turn == t);
    }
  }

  lemma DequeueBalances<R>(q: Queue<R>, state: R, t: Turn)
    requires Balanced(q, t, 0, 0)
    ensures Balanced(Dequeue(q, state), t, 0, 0)
  {
    TakenOldest(q.pending, state, t);
    JobAdded(q.jobs, Dequeued(state, Oldest(q.pending)), t);
  }

  // ---- Order: turns start in the order they were pushed ----------------------------------------

  /** The items the drain loops have started, hold, or will find, in that order. */
  function Line<R>(q: Queue<R>): seq<Item> {
    q.started + Taken(q.jobs) + q.pending
  }

  ghost predicate Increasing(items: seq<Item>, bound: nat) {
    && (forall i, j :: 0 <= i < j < |items| ==> items[i].id < items[j].id)
    && (forall i :: 0 <= i < |items| ==> items[i].id < bound)
  }

  lemma OneMoreInOrder(items: seq<Item>, bound: nat, item: Item)
    requires Increasing(items, bound) && bound <= item.id
    ensures Increasing(items + [item], item.id + 1)
  {
  }

  ghost predicate InOrder<R>(q: Queue<R>) {
    Increasing(Line(q), q.nextId)
  }

  lemma StepKeepsOrder<R>(q: Queue<R>, limits: Limits, e: Event<R>)
    requires Enabled(q, e) && InOrder(q)
    ensures InOrder(Step(q, limits, e))
  {
    match e
    case Submit(turn, created) =>
      TakenAdded(q.jobs, Listed(turn, if q.session.Some? then q.session.value else created, |q.pending|));
      assert Line(Admit(q, turn, created)) == Line(q);
    case Resume(id) =>
      var rest := q.(jobs := q.jobs[1..]);
      assert q.started + Taken(q.jobs) == q.started + TakenIn(q.jobs[0]) + Taken(rest.jobs);
      ContinueKeepsOrder(rest, limits, q.jobs[0], id);
    case Finish(index, ok) =>
      TakenAdded(q.jobs, Executed(q.executing[index].state, q.executing[index].item, ok));
      assert Line(Complete(q, index, ok)) == Line(q);
  }

  lemma ContinueKeepsOrder<R>(q: Queue<R>, limits: Limits, job: Job<R>, id: nat)
    requires Increasing(q.started + TakenIn(job) + Taken(q.jobs) + q.pending, q.nextId) && q.nextId <= id
    ensures InOrder(Continue(q, limits, job, id))
  {
    var q' := Continue(q, limits, job, id);
    if job.Dequeued? {
      assert Line(q') == q.started + TakenIn(job) + Taken(q.jobs) + q.pending;
    } else {
      assert q.started + [] == q.started;
      match job
      case Listed(turn, state, count) =>
        if Depth(q, state, count) < limits.hard {
          PushExtends(q, turn, state, id);
        } else if limits.strategy.DropOldest? {
          DropKeepsOrder(q, turn, state);
        }
      case Dropped(turn, state, victim) =>
        if victim.Some? {
          PushExtends(TurnAway(q, victim.value.turn), turn, state, id);
        } else if state !in q.running {
          PushExtends(q, turn, state, id);
        }
      case Pushed(state) =>
        DequeueKeepsLine(q.(session := Some(state), running := q.running + {state}), state);
      case Executed(state, item, ok) =>
        DequeueKeepsLine(Settle(q, item.turn, ok), state);
    }
  }

  lemma PushExtends<R>(q: Queue<R>, turn: Turn, state: R, id: nat)
    requires InOrder(q) && q.nextId <= id
    ensures InOrder(Push(q, turn, state, id))
  {
    TakenAdded(q.jobs, Pushed(state));
    assert Line(Push(q, turn, state, id)) == Line(q) + [Item(id, turn)];
    OneMoreInOrder(Line(q), q.nextId, Item(id, turn));
  }

  lemma DropKeepsOrder<R>(q: Queue<R>, turn: Turn, state: R)
    requires InOrder(q)
    ensures InOrder(Drop(q, turn, state))
  {
    TakenAdded(q.jobs, Dropped(turn, state, Oldest(q.pending)));
    if q.pending != [] {
      var k := |q.started + Taken(q.jobs)|;
      assert Line(Drop(q, turn, state)) == Line(q)[..k] + Line(q)[k + 1..];
      RemovalKeepsIncreasing(Line(q), q.nextId, k);
    } else {
      assert Line(Drop(q, turn, state)) == Line(q);
    }
  }

  lemma RemovalKeepsIncreasing(items: seq<Item>, bound: nat, k: nat)
    requires Increasing(items, bound) && k < |items|
    ensures Increasing(items[..k] + items[k + 1..], bound)
  {
  }

  lemma DequeueKeepsLine<R>(q: Queue<R>, state: R)
    ensures Line(Dequeue(q, state)) == Line(q)
  {
    TakenAdded(q.jobs, Dequeued(state, Oldest(q.pending)));
  }
}
