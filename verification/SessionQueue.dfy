/** The in-memory queue backend: one list of items per session key, and a counter for item ids. */
module QueueBackend {
  import opened Options
  import opened TurnQueue

  class InMemoryQueueBackend {
    var sessions: map<string, seq<Item>>
    var idCounter: nat

    /** No key keeps an empty list, and no stored id is ahead of the counter. */
    ghost predicate Valid()
      reads this
    {
      forall key | key in sessions ::
        sessions[key] != [] && forall i :: 0 <= i < |sessions[key]| ==> sessions[key][i].id <= idCounter
    }

    function List(key: string): seq<Item>
      reads this
    {
      if key in sessions then sessions[key] else []
    }

    constructor ()
      ensures Valid() && sessions == map[] && idCounter == 0
    {
      sessions, idCounter := map[], 0;
    }

    method Enqueue(key: string, turn: Turn) returns (id: nat)
      requires Valid()
      modifies this
      ensures Valid()
      ensures id == idCounter == old(idCounter) + 1
      ensures List(key) == old(List(key)) + [Item(id, turn)]
      ensures forall k :: k != key ==> List(k) == old(List(k))
    {
      idCounter := idCounter + 1;
      id := idCounter;
      var list := if key in sessions then sessions[key] else [];
      list := list + [Item(id, turn)];
      sessions := sessions[key := list];
    }

    method Dequeue(key: string) returns (item: Option<Item>)
      requires Valid()
      modifies this
      ensures Valid() && idCounter == old(idCounter)
      ensures item == Oldest(old(List(key)))
      ensures List(key) == if old(List(key)) == [] then [] else old(List(key))[1..]
      ensures forall k :: k != key ==> List(k) == old(List(k))
    {
      if key !in sessions || |sessions[key]| == 0 {
        return None;
      }
      var list := sessions[key];
      item := Some(list[0]);
      list := list[1..];
      if |list| == 0 {
        sessions := sessions - {key};
      } else {
        sessions := sessions[key := list];
      }
    }

    method ListPending(key: string) returns (ids: seq<nat>)
      ensures |ids| == |List(key)|
      ensures forall i :: 0 <= i < |ids| ==> ids[i] == List(key)[i].id
    {
      var list := if key in sessions then sessions[key] else [];
      ids := [];
      for i := 0 to |list|
        invariant |ids| == i
        invariant forall j :: 0 <= j < i ==> ids[j] == list[j].id
      {
        ids := ids + [list[i].id];
      }
    }
  }
}

/** The session queue: many keys over one backend and one microtask queue. Each key's part of the state
  * moves exactly as the machine of module TurnQueue, and no step touches another key's part.
  */
module SessionQueues {
  import opened Options
  import opened Sequences
  import opened TurnQueue
  import opened TurnQueueSafety
  import opened QueueBackend

  /** What belongs to a key in a list shared by all keys, in order. */
  function Of<X>(key: string, xs: seq<(string, X)>): seq<X> {
    if xs == [] then [] else (if xs[0].0 == key then [xs[0].1] else []) + Of(key, xs[1..])
  }

  lemma {:induction false} OfConcat<X>(key: string, a: seq<(string, X)>, b: seq<(string, X)>)
    ensures Of(key, a + b) == Of(key, a) + Of(key, b)
  {
    if a == [] {
      assert a + b == b;
    } else {
      assert (a + b)[1..] == a[1..] + b;
      OfConcat(key, a[1..], b);
      Regroup(if a[0].0 == key then [a[0].1] else [], Of(key, a[1..]), Of(key, b));
    }
  }

  lemma OfAppended<X>(xs: seq<(string, X)>, key: string, x: X)
    ensures Of(key, xs + [(key, x)]) == Of(key, xs) + [x]
    ensures forall k :: k != key ==> Of(k, xs + [(key, x)]) == Of(k, xs)
  {
    OfConcat(key, xs, [(key, x)]);
    forall k | k != key
      ensures Of(k, xs + [(key, x)]) == Of(k, xs)
    {
      OfConcat(k, xs, [(key, x)]);
    }
  }

  /** Removing position i of the shared list removes one position of its key's part, and of no other. */
  lemma OfRemoved<X>(xs: seq<(string, X)>, i: nat)
    requires i < |xs|
    ensures var (key, x) := xs[i]; var n := |Of(key, xs[..i])|;
            && n < |Of(key, xs)| && Of(key, xs)[n] == x
            && Of(key, xs[..i] + xs[i + 1..]) == Of(key, xs)[..n] + Of(key, xs)[n + 1..]
    ensures forall k :: k != xs[i].0 ==> Of(k, xs[..i] + xs[i + 1..]) == Of(k, xs)
  {
    var (key, x) := xs[i];
    assert xs == xs[..i] + ([xs[i]] + xs[i + 1..]);
    forall k
      ensures Of(k, xs) == Of(k, xs[..i]) + (if k == key then [x] else []) + Of(k, xs[i + 1..])
      ensures Of(k, xs[..i] + xs[i + 1..]) == Of(k, xs[..i]) + Of(k, xs[i + 1..])
    {
      OfConcat(k, xs[..i], [xs[i]] + xs[i + 1..]);
      OfConcat(k, xs[..i], xs[i + 1..]);
    }
  }

  class SessionQueueState {
    var running: bool

    constructor ()
      ensures !running
    {
      running := false;
    }
  }

  type State = SessionQueueState

  class SessionQueue {
    const backend: InMemoryQueueBackend
    const limits: Limits
    var sessions: map<string, State>
    var warnings: seq<(string, nat)>
    var microtasks: seq<(string, Job<State>)>
    var executing: seq<(string, Execution<State>)>

    ghost var refs: map<string, set<State>>   // the state objects created for each key
    ghost var Repr: set<State>
    ghost var issued: map<string, nat>        // the last id issued for each key
    ghost var submitted: seq<(string, Turn)>
    ghost var started: seq<(string, Item)>
    ghost var turnedAway: seq<(string, Turn)>
    ghost var failed: seq<(string, Turn)>
    ghost var resolved: seq<(string, Turn)>

    ghost function RefsOf(key: string): set<State>
      reads this`refs
    {
      if key in refs then refs[key] else {}
    }

    ghost function RunningOf(key: string): set<State>
      reads this`refs, this`Repr, Repr
    {
      set s | s in RefsOf(key) && s in Repr && s.running
    }

    ghost function NextId(key: string): nat
      reads this`issued
    {
      if key in issued then issued[key] + 1 else 0
    }

    /** The part of the state that belongs to one key. */
    ghost function KeyView(key: string): Queue<State>
      reads this, backend, Repr
    {
      Queue(if key in sessions then Some(sessions[key]) else None,
            RefsOf(key),
            RunningOf(key),
            backend.List(key),
            Of(key, microtasks),
            Of(key, executing),
            NextId(key),
            Of(key, submitted), Of(key, started), Of(key, turnedAway), Of(key, failed), Of(key, resolved))
    }

    /** Keys own their state objects, and no key has seen an id the backend has yet to issue. */
    ghost predicate Wired()
      reads this, backend
    {
      && backend.Valid()
      && (forall k | k in refs :: refs[k] <= Repr)
      && (forall k, l | k in refs && l in refs && k != l :: refs[k] !! refs[l])
      && (forall k | k in issued :: issued[k] <= backend.idCounter)
    }

    /** Every key is in a state its machine can be in, so everything proved of the machine holds here. */
    ghost predicate Valid()
      reads this, backend, Repr
    {
      Wired() && forall key :: Sound(KeyView(key))
    }

    twostate predicate OthersUnchanged(key: string)
      reads this, backend, Repr
    {
      forall k :: k != key ==> KeyView(k) == old(KeyView(k))
    }

    constructor (backend: InMemoryQueueBackend, limits: Limits)
      requires backend.Valid() && backend.sessions == map[]
      ensures Valid() && this.backend == backend && this.limits == limits
      ensures Unsplit() && forall key :: KeyView(key) == Initial()
    {
      this.backend, this.limits := backend, limits;
      sessions, warnings, microtasks, executing := map[], [], [], [];
      refs, Repr, issued := map[], {}, map[];
      submitted, started, turnedAway, failed, resolved := [], [], [], [], [];
      new;
      forall key
        ensures KeyView(key) == Initial()
      {
      }
      InitialIsSound<State>();
    }

    // ---- Primitive updates: each moves one component of one key's view -------------------------------

    method AddMicrotask(key: string, job: Job<State>)
      requires Wired()
      modifies this`microtasks
      ensures Wired() && microtasks == old(microtasks) + [(key, job)]
      ensures var q := old(KeyView(key)); KeyView(key) == q.(jobs := q.jobs + [job])
      ensures OthersUnchanged(key)
    {
      OfAppended(microtasks, key, job);
      microtasks := microtasks + [(key, job)];
    }

    method PushItem(key: string, turn: Turn)
      requires Wired()
      modifies backend, this`issued
      ensures Wired() && backend.idCounter == old(backend.idCounter) + 1
      ensures var q, id := old(KeyView(key)), backend.idCounter;
              KeyView(key) == q.(pending := q.pending + [Item(id, turn)], nextId := id + 1)
      ensures OthersUnchanged(key)
    {
      var id := backend.Enqueue(key, turn);
      issued := issued[key := id];
    }

    method TakeOldest(key: string) returns (item: Option<Item>)
      requires Wired()
      modifies backend
      ensures Wired() && backend.idCounter == old(backend.idCounter)
      ensures item == Oldest(old(KeyView(key)).pending)
      ensures var q := old(KeyView(key)); KeyView(key) == q.(pending := if q.pending == [] then [] else q.pending[1..])
      ensures OthersUnchanged(key)
    {
      item := backend.Dequeue(key);
    }

    method SetRunning(key: string, state: State, running: bool)
      requires Wired() && state in RefsOf(key)
      modifies state
      ensures Wired()
      ensures var q := old(KeyView(key));
              KeyView(key) == q.(running := if running then q.running + {state} else q.running - {state})
      ensures OthersUnchanged(key)
    {
      state.running := running;
    }

    ghost method NoteTurnedAway(key: string, turn: Turn)
      requires Wired()
      modifies this`turnedAway
      ensures Wired() && KeyView(key) == TurnAway(old(KeyView(key)), turn) && OthersUnchanged(key)
    {
      OfAppended(turnedAway, key, turn);
      turnedAway := turnedAway + [(key, turn)];
    }

    /** The key's registered state object, or a new one. */
    method StateFor(key: string) returns (state: State)
      requires Wired() && KnownStates(KeyView(key))
      modifies this`refs, this`Repr
      ensures Wired() && state in RefsOf(key) && fresh(Repr - old(Repr))
      ensures var q := old(KeyView(key)); (q.session.Some? ==> state == q.session.value) && (q.session.None? ==> state !in q.refs)
      ensures var q := old(KeyView(key)); KeyView(key) == q.(refs := q.refs + {state})
      ensures OthersUnchanged(key)
    {
      if key in sessions {
        state := sessions[key];
        assert KeyView(key).refs + {state} == KeyView(key).refs;
      } else {
        state := new SessionQueueState();
        AddState(key, state);
      }
    }

    ghost method AddState(key: string, state: State)
      requires Wired() && !state.running && state !in Repr
      modifies this`refs, this`Repr
      ensures Wired() && Repr == old(Repr) + {state} && state in RefsOf(key)
      ensures var q := old(KeyView(key)); KeyView(key) == q.(refs := q.refs + {state})
      ensures OthersUnchanged(key)
    {
      refs, Repr := refs[key := RefsOf(key) + {state}], Repr + {state};
      forall k ensures RunningOf(k) == old(RunningOf(k)) {
      }
    }

    ghost method NoteSubmitted(key: string, turn: Turn)
      requires Wired()
      modifies this`submitted
      ensures Wired() && OthersUnchanged(key)
      ensures var q := old(KeyView(key)); KeyView(key) == q.(submitted := q.submitted + [turn])
    {
      OfAppended(submitted, key, turn);
      submitted := submitted + [(key, turn)];
    }

    ghost method NoteSettled(key: string, turn: Turn, ok: bool)
      requires Wired()
      modifies this`resolved, this`failed
      ensures Wired() && KeyView(key) == Settle(old(KeyView(key)), turn, ok) && OthersUnchanged(key)
    {
      if ok {
        OfAppended(resolved, key, turn);
        resolved := resolved + [(key, turn)];
      } else {
        NoteFailed(key, turn);
      }
    }

    ghost method NoteFailed(key: string, turn: Turn)
      requires Wired()
      modifies this`failed
      ensures Wired() && OthersUnchanged(key)
      ensures var q := old(KeyView(key)); KeyView(key) == q.(failed := q.failed + [turn])
    {
      OfAppended(failed, key, turn);
      failed := failed + [(key, turn)];
    }

    ghost method NoteStarted(key: string, item: Item)
      requires Wired()
      modifies this`started
      ensures Wired() && OthersUnchanged(key)
      ensures var q := old(KeyView(key)); KeyView(key) == q.(started := q.started + [item])
    {
      OfAppended(started, key, item);
      started := started + [(key, item)];
    }

    method TakeMicrotask() returns (key: string, job: Job<State>)
      requires Wired() && microtasks != []
      modifies this`microtasks
      ensures Wired() && (key, job) == old(microtasks)[0] && OthersUnchanged(key)
      ensures var q := old(KeyView(key));
              q.jobs != [] && q.jobs[0] == job && KeyView(key) == q.(jobs := q.jobs[1..])
    {
      key, job := microtasks[0].0, microtasks[0].1;
      OfRemoved(microtasks, 0);
      assert microtasks[..0] + microtasks[1..] == microtasks[1..];
      microtasks := microtasks[1..];
    }

    method TakeExecution(index: nat) returns (key: string, x: Execution<State>, ghost n: nat)
      requires Wired() && index < |executing|
      modifies this`executing
      ensures Wired() && (key, x) == old(executing)[index] && OthersUnchanged(key)
      ensures n == |Of(key, old(executing)[..index])|
      ensures var q := old(KeyView(key));
              && n < |q.executing| && q.executing[n] == x
              && KeyView(key) == q.(executing := q.executing[..n] + q.executing[n + 1..])
    {
      key, x := executing[index].0, executing[index].1;
      n := |Of(key, executing[..index])|;
      OfRemoved(executing, index);
      executing := executing[..index] + executing[index + 1..];
    }

    /** A step of one key's machine that leaves the other keys alone keeps every key sound. */
    twostate lemma StepKeepsValid(key: string, new e: Event<State>)
      requires old(Valid()) && Wired()
      requires Enabled(old(KeyView(key)), e)
      requires KeyView(key) == Step(old(KeyView(key)), limits, e) && OthersUnchanged(key)
      ensures Valid()
    {
      StepKeepsSound(old(KeyView(key)), limits, e);
      forall k
        ensures Sound(KeyView(k))
      {
        assert old(Sound(KeyView(k)));
      }
    }

    /** No key has been split over two state objects. */
    ghost predicate Unsplit()
      reads this, backend, Repr
    {
      forall key :: Clean(KeyView(key), limits)
    }

    twostate lemma SafeStepKeepsUnsplit(key: string, new e: Event<State>)
      requires old(Unsplit()) && SafeStep(old(KeyView(key)), limits, e)
      requires KeyView(key) == Step(old(KeyView(key)), limits, e) && OthersUnchanged(key)
      ensures Unsplit()
    {
      SafeStepKeepsClean(old(KeyView(key)), limits, e);
      forall k
        ensures Clean(KeyView(k), limits)
      {
        assert old(Clean(KeyView(k), limits));
      }
    }

    /** While keys are unsplit, no key has two drain loops, and no key executes two turns at once. */
    lemma UnsplitKeysAreSerial(key: string)
      requires Valid() && Unsplit()
      ensures ActiveLoops(KeyView(key)) <= 1 && |Of(key, executing)| <= 1
    {
      assert Sound(KeyView(key)) && Clean(KeyView(key), limits);
      CleanHasOneLoop(KeyView(key), limits);
    }

    // ---- The protocol: the code between two awaits ----------------------------------------------------

    /** `enqueue`, which runs `enqueueAsync` up to its first await. `created` is the state object used
      * when the key has none. */
    method Enqueue(key: string, turn: Turn) returns (ghost created: State)
      requires Valid()
      modifies this`microtasks, this`refs, this`Repr, this`submitted
      ensures Valid()
      ensures Enabled(old(KeyView(key)), Submit(turn, created))
      ensures KeyView(key) == Step(old(KeyView(key)), limits, Submit(turn, created))
      ensures OthersUnchanged(key)
      ensures fresh(Repr - old(Repr))
      ensures old(Unsplit()) && old(SafeSubmission(KeyView(key), limits)) ==> Unsplit()
    {
      assert Sound(KeyView(key));
      var state := EnqueueAsync(key, turn);
      created := state;
      StepKeepsValid(key, Submit(turn, created));
      if old(Unsplit()) && old(SafeSubmission(KeyView(key), limits)) {
        SafeStepKeepsUnsplit(key, Submit(turn, created));
      }
    }

    method EnqueueAsync(key: string, turn: Turn) returns (state: State)
      requires Wired() && KnownStates(KeyView(key))
      modifies this`microtasks, this`refs, this`Repr, this`submitted
      ensures Wired() && fresh(Repr - old(Repr)) && OthersUnchanged(key)
      ensures KeyView(key) == Admit(old(KeyView(key)), turn, state)
      ensures Enabled(old(KeyView(key)), Submit(turn, state))
    {
      state := StateFor(key);
      NoteSubmitted(key, turn);
      var ids := backend.ListPending(key);
      AddMicrotask(key, Listed(turn, state, |ids|));
    }

    /** Run the oldest continuation of the microtask queue. */
    method RunMicrotask()
      requires Valid() && microtasks != []
      modifies this, backend, Repr
      ensures Valid()
      ensures var key := old(microtasks)[0].0;
              && KeyView(key) == Step(old(KeyView(key)), limits, Resume(old(backend.idCounter) + 1))
              && OthersUnchanged(key)
      ensures Repr == old(Repr)
      ensures old(Unsplit()) ==> Unsplit()
    {
      ghost var key := microtasks[0].0;
      assert Sound(KeyView(key));
      RunNext(key);
      StepKeepsValid(key, Resume(old(backend.idCounter) + 1));
      if old(Unsplit()) {
        SafeStepKeepsUnsplit(key, Resume(old(backend.idCounter) + 1));
      }
    }

    method RunNext(ghost owner: string)
      requires Wired() && microtasks != [] && owner == microtasks[0].0 && KnownStates(KeyView(owner))
      modifies this, backend, Repr
      ensures Wired() && Repr == old(Repr) && OthersUnchanged(owner)
      ensures Enabled(old(KeyView(owner)), Resume(old(backend.idCounter) + 1))
      ensures KeyView(owner) == Step(old(KeyView(owner)), limits, Resume(old(backend.idCounter) + 1))
    {
      ghost var q := KeyView(owner);
      NextIdBehind(owner);
      var key, job := TakeMicrotask();
      assert KeyView(owner) == q.(jobs := q.jobs[1..]) && job == q.jobs[0];
      Proceed(key, job);
    }

    lemma NextIdBehind(key: string)
      requires Wired()
      ensures KeyView(key).nextId <= backend.idCounter + 1
    {
    }

    method Proceed(key: string, job: Job<State>)
      requires Wired() && job.state in RefsOf(key)
      modifies this, backend, job.state
      ensures Wired() && Repr == old(Repr) && OthersUnchanged(key)
      ensures KeyView(key) == Continue(old(KeyView(key)), limits, job, old(backend.idCounter) + 1)
    {
      match job {
        case Listed(turn, state, count) => ContinueListed(key, turn, state, count);
        case Dropped(turn, state, victim) => ContinueDropped(key, turn, state, victim);
        case Pushed(state) => Drain(key, state);
        case Dequeued(state, item) => ContinueLoop(key, state, item);
        case Executed(state, item, ok) => SettleAndLoop(key, state, item, ok);
      }
    }

    /** After `listPending`: push, reject, or make room first. */
    method ContinueListed(key: string, turn: Turn, state: State, count: nat)
      requires Wired() && state in RefsOf(key)
      modifies this, backend
      ensures Wired() && Repr == old(Repr) && OthersUnchanged(key)
      ensures KeyView(key)
              == Continue(old(KeyView(key)), limits, Listed(turn, state, count), old(backend.idCounter) + 1)
      ensures var depth := Depth(old(KeyView(key)), state, count);
              warnings == old(warnings) + if limits.soft <= depth then [(key, depth)] else []
    {
      var depth := count + if state.running then 1 else 0;
      assert depth == Depth(KeyView(key), state, count);
      if limits.soft <= depth {
        Warn(key, depth);
      }
      if limits.hard <= depth {
        AtLimit(key, turn, state);
      } else {
        PushTurn(key, turn, state);
      }
    }

    /** At the hard limit: reject the new turn, or take out the oldest one. */
    method AtLimit(key: string, turn: Turn, state: State)
      requires Wired()
      modifies this`microtasks, this`turnedAway, backend
      ensures Wired() && OthersUnchanged(key)
      ensures KeyView(key) == var q := old(KeyView(key)); if limits.strategy.DeferNew? then TurnAway(q, turn) else Drop(q, turn, state)
    {
      if limits.strategy.DeferNew? {
        NoteTurnedAway(key, turn);
      } else {
        var victim := TakeOldest(key);
        AddMicrotask(key, Dropped(turn, state, victim));
      }
    }

    method Warn(key: string, depth: nat)
      requires Wired()
      modifies this`warnings
      ensures Wired() && warnings == old(warnings) + [(key, depth)]
      ensures forall k :: KeyView(k) == old(KeyView(k))
    {
      warnings := warnings + [(key, depth)];
    }

    /** After the dropping `dequeue`: reject the victim and push, or give up. */
    method ContinueDropped(key: string, turn: Turn, state: State, victim: Option<Item>)
      requires Wired() && state in RefsOf(key)
      modifies this, backend
      ensures Wired() && Repr == old(Repr) && OthersUnchanged(key)
      ensures KeyView(key)
              == Continue(old(KeyView(key)), limits, Dropped(turn, state, victim), old(backend.idCounter) + 1)
    {
      if victim.Some? {
        NoteTurnedAway(key, victim.value.turn);
        PushTurn(key, turn, state);
      } else if state.running {
        NoteTurnedAway(key, turn);
      } else {
        PushTurn(key, turn, state);
      }
    }

    method PushTurn(key: string, turn: Turn, state: State)
      requires Wired()
      modifies this`microtasks, this`issued, backend
      ensures Wired() && OthersUnchanged(key)
      ensures KeyView(key) == Push(old(KeyView(key)), turn, state, old(backend.idCounter) + 1)
    {
      PushItem(key, turn);
      AddMicrotask(key, Pushed(state));
    }

    /** After the backend `enqueue`: register the state object and call `drain`, up to its first await. */
    method Drain(key: string, state: State)
      requires Wired() && state in RefsOf(key)
      modifies this, backend, state
      ensures Wired() && Repr == old(Repr) && OthersUnchanged(key)
      ensures KeyView(key) == Continue(old(KeyView(key)), limits, Pushed(state), 0)
    {
      ghost var q := KeyView(key);
      sessions := sessions[key := state];
      assert KeyView(key) == q.(session := Some(state));
      if !state.running {
        SetRunning(key, state, true);
        LoopHead(key, state);
      }
    }

    method LoopHead(key: string, state: State)
      requires Wired()
      modifies this`microtasks, backend
      ensures Wired() && OthersUnchanged(key)
      ensures KeyView(key) == Dequeue(old(KeyView(key)), state)
    {
      var item := TakeOldest(key);
      AddMicrotask(key, Dequeued(state, item));
    }

    /** After the loop's `dequeue`: start the turn, or stop. */
    method ContinueLoop(key: string, state: State, item: Option<Item>)
      requires Wired() && state in RefsOf(key)
      modifies this, state
      ensures Wired() && Repr == old(Repr) && OthersUnchanged(key)
      ensures KeyView(key) == Continue(old(KeyView(key)), limits, Dequeued(state, item), 0)
    {
      if item.None? {
        SetRunning(key, state, false);
      } else {
        StartTurn(key, state, item.value);
      }
    }

    method StartTurn(key: string, state: State, item: Item)
      requires Wired()
      modifies this`executing, this`started
      ensures Wired() && OthersUnchanged(key)
      ensures KeyView(key) == Start(old(KeyView(key)), state, item)
    {
      NoteStarted(key, item);
      OfAppended(executing, key, Execution(state, item));
      executing := executing + [(key, Execution(state, item))];
    }

    /** After the turn's execution: resolve or reject it, and go round the loop. */
    method SettleAndLoop(key: string, state: State, item: Item, ok: bool)
      requires Wired()
      modifies this, backend
      ensures Wired() && Repr == old(Repr) && OthersUnchanged(key)
      ensures KeyView(key) == Continue(old(KeyView(key)), limits, Executed(state, item, ok), 0)
    {
      NoteSettled(key, item.turn, ok);
      LoopHead(key, state);
    }

    /** The promise of the turn at this position of `executing` settles. */
    method FinishTurn(index: nat, ok: bool)
      requires Valid() && index < |executing|
      modifies this`executing, this`microtasks
      ensures Valid()
      ensures var key := old(executing)[index].0; var n := |Of(key, old(executing)[..index])|;
              && n < |old(KeyView(key)).executing|
              && KeyView(key) == Step(old(KeyView(key)), limits, Finish(n, ok))
              && OthersUnchanged(key)
      ensures old(Unsplit()) ==> Unsplit()
    {
      ghost var n;
      var key, x;
      key, x, n := TakeExecution(index);
      AddMicrotask(key, Executed(x.state, x.item, ok));
      StepKeepsValid(key, Finish(n, ok));
      if old(Unsplit()) {
        SafeStepKeepsUnsplit(key, Finish(n, ok));
      }
    }
  }
}
