/** The workflow runtime: completed lists are objects, which a run may share with the table in memory. */
module WorkflowRuntimes {
  import opened Options
  import opened Workflows

  datatype Key = Key(workflowId: string, idempotencyKey: string)

  class WorkflowState {
    const key: Key
    var completedStepIds: seq<Id>

    constructor (key: Key, completedStepIds: seq<Id>)
      ensures this.key == key && this.completedStepIds == completedStepIds
    {
      this.key, this.completedStepIds := key, completedStepIds;
    }
  }

  /** A run suspended at an await. */
  datatype Frame = Frame(steps: seq<WorkflowStep>, position: nat, stage: Stage, runtimeState: WorkflowState)

  class WorkflowRuntime {
    var state: map<Key, WorkflowState>
    var files: map<Key, seq<Id>>
    var runs: map<Key, Frame>
    ghost var Objects: set<WorkflowState>

    ghost predicate Valid()
      reads this
    {
      && (forall k :: k in state ==> state[k] in Objects && state[k].key == k)
      && (forall k :: k in runs ==> runs[k].runtimeState in Objects && runs[k].runtimeState.key == k)
    }

    ghost function View(key: Key): Runtime
      requires Valid()
      reads this, Objects
    {
      Runtime(
        if key in state then Some(state[key].completedStepIds) else None,
        if key in files then files[key] else [],
        if key in runs then Some(ProgressOf(key, runs[key])) else None)
    }

    ghost function ProgressOf(key: Key, frame: Frame): Progress
      reads this, frame.runtimeState
    {
      Progress(frame.steps, frame.position, frame.stage, frame.runtimeState.completedStepIds,
               key in state && state[key] == frame.runtimeState)
    }

    twostate predicate OthersKept(key: Key)
      requires old(Valid()) && Valid()
      reads this, Objects
    {
      forall k :: k != key ==> View(k) == old(View(k))
    }

    constructor ()
      ensures Valid() && forall key :: View(key) == Runtime(None, [], None)
    {
      state, files, runs, Objects := map[], map[], map[], {};
    }

    /** The loop over the steps, up to the next await or to the end. */
    method AdvanceRun(key: Key, frame: Frame)
      requires Valid() && frame.runtimeState in Objects && frame.runtimeState.key == key
      modifies this
      ensures Valid() && Objects == old(Objects)
      ensures View(key) == Advance(old(View(key)), old(ProgressOf(key, frame)))
      ensures OthersKept(key)
    {
      var position := frame.position;
      while position < |frame.steps| && frame.steps[position].id in frame.runtimeState.completedStepIds
        invariant Advance(View(key), ProgressOf(key, frame.(position := position)))
               == Advance(View(key), ProgressOf(key, frame))
      {
        position := position + 1;
      }
      if position < |frame.steps| {
        var stage := if frame.steps[position].requiresApproval then Asking else Running;
        runs := runs[key := frame.(position := position, stage := stage)];
      } else {
        state := state[key := frame.runtimeState];
        runs := runs - {key};
      }
    }

    /** The list kept in memory, or a copy of the file's. */
    method StateFor(key: Key) returns (runtimeState: WorkflowState)
      requires Valid()
      modifies `Objects
      ensures Valid() && fresh(Objects - old(Objects))
      ensures runtimeState in Objects && runtimeState.key == key
      ensures if key in state then runtimeState == state[key]
              else runtimeState.completedStepIds == (if key in files then files[key] else [])
      ensures View(key) == old(View(key)) && OthersKept(key)
    {
      if key in state {
        runtimeState := state[key];
      } else {
        runtimeState := new WorkflowState(key, if key in files then files[key] else []);
        Objects := Objects + {runtimeState};
      }
    }

    method Begin(key: Key, steps: seq<WorkflowStep>)
      requires Valid() && Enabled(View(key), Event.Begin(steps))
      modifies this
      ensures Valid() && fresh(Objects - old(Objects))
      ensures View(key) == Step(old(View(key)), Event.Begin(steps))
      ensures OthersKept(key)
    {
      var runtimeState := StateFor(key);
      AdvanceRun(key, Frame(steps, 0, Running, runtimeState));
    }

    method Answer(key: Key, approved: bool)
      requires Valid() && Enabled(View(key), Event.Answer(approved))
      modifies this
      ensures Valid() && Objects == old(Objects)
      ensures View(key) == Step(old(View(key)), Event.Answer(approved))
      ensures OthersKept(key)
    {
      if approved {
        runs := runs[key := runs[key].(stage := Running)];
      } else {
        runs := runs - {key};
      }
    }

    method RunStep(key: Key, ok: bool)
      requires Valid() && Enabled(View(key), Event.RunStep(ok))
      modifies this, Objects
      ensures Valid() && Objects == old(Objects)
      ensures View(key) == Step(old(View(key)), Event.RunStep(ok))
      ensures OthersKept(key)
    {
      if ok {
        var frame := runs[key];
        var id := frame.steps[frame.position].id;
        frame.runtimeState.completedStepIds := frame.runtimeState.completedStepIds + [id];
        runs := runs[key := frame.(stage := Persisting)];
      } else {
        runs := runs - {key};
      }
    }

    method Persist(key: Key, ok: bool)
      requires Valid() && Enabled(View(key), Event.Persist(ok))
      modifies this
      ensures Valid() && Objects == old(Objects)
      ensures View(key) == Step(old(View(key)), Event.Persist(ok))
      ensures OthersKept(key)
    {
      var frame := runs[key];
      if ok {
        files := files[key := frame.runtimeState.completedStepIds];
        AdvanceRun(key, frame.(position := frame.position + 1));
      } else {
        runs := runs - {key};
      }
    }

    method Crash()
      requires Valid()
      modifies this
      ensures Valid()
      ensures forall key :: View(key) == Step(old(View(key)), Event.Crash)
    {
      state, runs := map[], map[];
    }
  }
}
