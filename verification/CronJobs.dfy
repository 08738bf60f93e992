/** Cron ticks over a table of jobs, as a machine over the code between two awaits of `runJob`.
  *
  * A tick scans the jobs in insertion order and is suspended while a job it started runs; the timer
  * starts ticks without waiting, so several may be suspended at once. A record carries, beside the
  * fields the scheduler keeps, the history of its finished executions.
  */
module CronJobs {
  import opened Options

  /** When a job runs: at a time (none if the expression is no number), after a period (none if it is
    * no duration), or when the cron library says (none if it rejects the expression). */
  datatype Schedule = At(runAt: Option<int>) | Every(period: Option<nat>) | Cron(next: int -> Option<int>)

  /** A finished execution: the time of the tick that ran it, and whether `runJob` succeeded. */
  datatype Run = Run(now: int, ok: bool)

  datatype Record = Record(
    schedule: Schedule,
    maxRetries: int,
    backoffMs: nat,
    nextRunAt: Option<int>,
    retries: nat,
    running: bool,
    runs: seq<Run>)

  datatype NextRun = Throws | Never | Next(at: int)

  function ComputeNextRun(schedule: Schedule, from: int): NextRun {
    match schedule
    case At(Some(t)) => if t > from then Next(t) else Never
    case At(None) => Never
    case Every(Some(p)) => Next(from + p)
    case Every(None) => Throws
    case Cron(next) => if next(from).Some? then Next(next(from).value) else Throws
  }

  function Rescheduled(r: Record, next: NextRun): Record
    requires !next.Throws?
  {
    r.(nextRunAt := if next.Never? then None else Some(next.at))
  }

  /** `isDue`: it may throw, and it arms a job that has no next run. */
  datatype DueCheck = DueThrows | Checked(record: Record, due: bool)

  function CheckDue(r: Record, now: int): DueCheck {
    if r.nextRunAt.Some? then Checked(r, now >= r.nextRunAt.value)
    else
      match ComputeNextRun(r.schedule, now - 1)
      case Throws => DueThrows
      case Never => Checked(r, false)
      case Next(at) => Checked(r.(nextRunAt := Some(at)), now >= at)
  }

  function Pow2(n: nat): nat {
    if n == 0 then 1 else 2 * Pow2(n - 1)
  }

  /** A record after its execution settled, and whether the tick ends with an exception. */
  datatype Settled = Settled(record: Record, threw: bool)

  function Logged(r: Record, now: int, ok: bool): Record {
    r.(running := false, runs := r.runs + [Run(now, ok)])
  }

  /** The code after `await runJob` in a tick of time `now`, up to the end of the finally block. */
  function Settle(r: Record, now: int, ok: bool): Settled {
    var next := ComputeNextRun(r.schedule, now);
    if ok && !next.Throws? then Settled(Rescheduled(Logged(r, now, ok), next).(retries := 0), false)
    else Caught(Logged(if ok then r.(retries := 0) else r, now, ok), now, next)
  }

  /** The catch block; a rescheduling that throws here leaves the retries counted and the old next run. */
  function Caught(r: Record, now: int, next: NextRun): Settled {
    var c := r.(retries := r.retries + 1);
    if c.retries <= c.maxRetries then Settled(c.(nextRunAt := Some(now + c.backoffMs * Pow2(c.retries - 1))), false)
    else if next.Throws? then Settled(c, true)
    else Settled(Rescheduled(c, next).(retries := 0), false)
  }

  // ---- The machine --------------------------------------------------------------------------------------

  /** A tick suspended while the job at this position runs. */
  datatype Tick = Tick(position: nat, now: int)

  datatype Service = Service(maxRuns: int, records: seq<Record>, activeRuns: int, ticks: seq<Tick>)

  datatype Event = AddJob(schedule: Schedule, maxRetries: int, backoffMs: nat, clock: int)
    | StartTick(now: int)
    | FinishRun(index: nat, ok: bool)

  function Armed(s: Service, i: nat, r: Record): Service
    requires i < |s.records|
  {
    s.(records := s.records[i := r])
  }

  function Started(s: Service, i: nat, r: Record, now: int): Service
    requires i < |s.records|
  {
    s.(records := s.records[i := r.(running := true)], activeRuns := s.activeRuns + 1, ticks := s.ticks + [Tick(i, now)])
  }

  /** The scan of one tick from a position: it suspends at the first job it starts, or ends. */
  function Scan(s: Service, i: nat, now: int): Service
    decreases |s.records| - i
  {
    if i >= |s.records| || s.activeRuns >= s.maxRuns then s
    else if s.records[i].running then Scan(s, i + 1, now)
    else
      var check := CheckDue(s.records[i], now);
      if check.DueThrows? then s
      else if check.due then Started(s, i, check.record, now)
      else Scan(Armed(s, i, check.record), i + 1, now)
  }

  function Without<T>(s: seq<T>, i: nat): seq<T>
    requires i < |s|
  {
    s[..i] + s[i + 1..]
  }

  /** The execution of a suspended tick has settled; its tick is off the list and has not gone on yet. */
  function Finished(s: Service, index: nat, settled: Record): Service
    requires index < |s.ticks| && s.ticks[index].position < |s.records|
  {
    s.(records := s.records[s.ticks[index].position := settled], activeRuns := s.activeRuns - 1, ticks := Without(s.ticks, index))
  }

  function NewRecord(e: Event): Option<Record>
    requires e.AddJob?
  {
    var next := ComputeNextRun(e.schedule, e.clock);
    if next.Throws? then None
    else Some(Rescheduled(Record(e.schedule, e.maxRetries, e.backoffMs, None, 0, false, []), next))
  }

  predicate Enabled(s: Service, e: Event) {
    e.FinishRun? ==> e.index < |s.ticks| && s.ticks[e.index].position < |s.records|
  }

  function Step(s: Service, e: Event): Service
    requires Enabled(s, e)
  {
    match e
    case AddJob(_, _, _, _) => if NewRecord(e).Some? then s.(records := s.records + [NewRecord(e).value]) else s
    case StartTick(now) => Scan(s, 0, now)
    case FinishRun(index, ok) =>
      var tick := s.ticks[index];
      var settled := Settle(s.records[tick.position], tick.now, ok);
      var f := Finished(s, index, settled.record);
      if settled.threw then f else Scan(f, tick.position + 1, tick.now)
  }

  predicate IsRun(s: Service, events: seq<Event>)
    decreases |events|
  {
    events == [] || (Enabled(s, events[0]) && IsRun(Step(s, events[0]), events[1..]))
  }

  function After(s: Service, events: seq<Event>): Service
    requires IsRun(s, events)
    decreases |events|
  {
    if events == [] then s else After(Step(s, events[0]), events[1..])
  }

  function Fresh(maxRuns: int): Service {
    Service(maxRuns, [], 0, [])
  }

  // ---- What every interleaving keeps ----------------------------------------------------------------------

  function TicksAt(ticks: seq<Tick>, i: nat): nat {
    if ticks == [] then 0 else (if ticks[|ticks| - 1].position == i then 1 else 0) + TicksAt(ticks[..|ticks| - 1], i)
  }

  function RunningCount(records: seq<Record>): nat {
    if records == [] then 0
    else (if records[|records| - 1].running then 1 else 0) + RunningCount(records[..|records| - 1])
  }

  /** A running job is executed by exactly one suspended tick, an idle one by none. */
  ghost predicate OneTickEach(records: seq<Record>, ticks: seq<Tick>) {
    forall i :: 0 <= i < |records| ==> TicksAt(ticks, i) == if records[i].running then 1 else 0
  }

  predicate TickFits(records: seq<Record>, tick: Tick) {
    && tick.position < |records|
    && records[tick.position].running
    && records[tick.position].nextRunAt.Some?
    && tick.now >= records[tick.position].nextRunAt.value
  }

  /** A suspended tick runs a job that was due at the time of the tick. */
  ghost predicate TicksFit(records: seq<Record>, ticks: seq<Tick>) {
    forall k :: 0 <= k < |ticks| ==> TickFits(records, ticks[k])
  }

  ghost predicate Sound(s: Service) {
    && s.activeRuns == |s.ticks| == RunningCount(s.records)
    && s.activeRuns <= (if s.maxRuns > 0 then s.maxRuns else 0)
    && OneTickEach(s.records, s.ticks)
    && TicksFit(s.records, s.ticks)
  }

  lemma {:induction false} TicksAtWithout(ticks: seq<Tick>, k: nat, i: nat)
    requires k < |ticks|
    ensures TicksAt(Without(ticks, k), i) == TicksAt(ticks, i) - if ticks[k].position == i then 1 else 0
  {
    var n := |ticks| - 1;
    if k == n {
      assert Without(ticks, k) == ticks[..n];
    } else {
      TicksAtWithout(ticks[..n], k, i);
      assert Without(ticks, k)[..n - 1] == Without(ticks[..n], k);
    }
  }

  lemma {:induction false} TicksAtZero(ticks: seq<Tick>, k: nat, i: nat)
    requires TicksAt(ticks, i) == 0 && k < |ticks|
    ensures ticks[k].position != i
  {
    if k < |ticks| - 1 {
      TicksAtZero(ticks[..|ticks| - 1], k, i);
    }
  }

  lemma {:induction false} RunningCountUpdate(records: seq<Record>, i: nat, r: Record)
    requires i < |records|
    ensures RunningCount(records[i := r])
         == RunningCount(records) - (if records[i].running then 1 else 0) + (if r.running then 1 else 0)
  {
    var n := |records| - 1;
    if i == n {
      assert records[i := r][..n] == records[..n];
    } else {
      RunningCountUpdate(records[..n], i, r);
      assert records[i := r][..n] == records[..n][i := r];
    }
  }

  lemma ArmKeepsSound(s: Service, i: nat, r: Record)
    requires Sound(s) && i < |s.records| && !s.records[i].running && !r.running
    ensures Sound(Armed(s, i, r))
  {
    RunningCountUpdate(s.records, i, r);
    var records := s.records[i := r];
    forall k | 0 <= k < |s.ticks| ensures TickFits(records, s.ticks[k]) {
      assert TickFits(s.records, s.ticks[k]);
    }
    forall j | 0 <= j < |records| ensures TicksAt(s.ticks, j) == if records[j].running then 1 else 0 {
      assert TicksAt(s.ticks, j) == if s.records[j].running then 1 else 0;
    }
  }

  lemma StartKeepsSound(s: Service, i: nat, r: Record, now: int)
    requires Sound(s) && i < |s.records| && !s.records[i].running
    requires r.nextRunAt.Some? && now >= r.nextRunAt.value && s.activeRuns < s.maxRuns
    ensures Sound(Started(s, i, r, now))
  {
    var s' := Started(s, i, r, now);
    RunningCountUpdate(s.records, i, r.(running := true));
    assert s'.ticks[..|s'.ticks| - 1] == s.ticks;
    forall k | 0 <= k < |s'.ticks| ensures TickFits(s'.records, s'.ticks[k]) {
      if k < |s.ticks| {
        assert TickFits(s.records, s.ticks[k]);
      }
    }
    forall j | 0 <= j < |s'.records| ensures TicksAt(s'.ticks, j) == if s'.records[j].running then 1 else 0 {
      assert TicksAt(s.ticks, j) == if s.records[j].running then 1 else 0;
    }
  }

  lemma {:induction false} ScanKeepsSound(s: Service, i: nat, now: int)
    requires Sound(s)
    ensures Sound(Scan(s, i, now))
    decreases |s.records| - i
  {
    if i >= |s.records| || s.activeRuns >= s.maxRuns {
    } else if s.records[i].running {
      ScanKeepsSound(s, i + 1, now);
    } else {
      var check := CheckDue(s.records[i], now);
      if check.Checked? {
        if check.due {
          StartKeepsSound(s, i, check.record, now);
        } else {
          ArmKeepsSound(s, i, check.record);
          ScanKeepsSound(Armed(s, i, check.record), i + 1, now);
        }
      }
    }
  }

  lemma FinishKeepsSound(s: Service, index: nat, r: Record)
    requires Sound(s) && index < |s.ticks| && !r.running
    requires s.ticks[index].position < |s.records|
    ensures Sound(Finished(s, index, r))
  {
    var s' := Finished(s, index, r);
    var p := s.ticks[index].position;
    assert TickFits(s.records, s.ticks[index]);
    RunningCountUpdate(s.records, p, r);
    forall j | 0 <= j < |s'.records| ensures TicksAt(s'.ticks, j) == if s'.records[j].running then 1 else 0 {
      assert TicksAt(s.ticks, j) == if s.records[j].running then 1 else 0;
      TicksAtWithout(s.ticks, index, j);
    }
    forall k | 0 <= k < |s'.ticks| ensures TickFits(s'.records, s'.ticks[k]) {
      var was := if k < index then k else k + 1;
      assert s'.ticks[k] == s.ticks[was];
      assert TickFits(s.records, s.ticks[was]);
      assert TicksAt(s'.ticks, p) == if s'.records[p].running then 1 else 0;
      TicksAtZero(s'.ticks, k, p);
    }
  }

  lemma AddKeepsSound(s: Service, r: Record)
    requires Sound(s) && !r.running
    ensures Sound(s.(records := s.records + [r]))
  {
    var records := s.records + [r];
    assert records[..|records| - 1] == s.records;
    forall k | 0 <= k < |s.ticks| ensures TickFits(records, s.ticks[k]) {
      assert TickFits(s.records, s.ticks[k]);
    }
    forall j | 0 <= j < |records| ensures TicksAt(s.ticks, j) == if records[j].running then 1 else 0 {
      if j < |s.records| {
        assert TicksAt(s.ticks, j) == if s.records[j].running then 1 else 0;
      } else {
        NoTicksBeyond(s.records, s.ticks, j);
      }
    }
  }

  lemma {:induction false} NoTicksBeyond(records: seq<Record>, ticks: seq<Tick>, i: nat)
    requires TicksFit(records, ticks) && i >= |records|
    ensures TicksAt(ticks, i) == 0
  {
    if ticks != [] {
      var n := |ticks| - 1;
      assert TickFits(records, ticks[n]);
      forall k | 0 <= k < n ensures TickFits(records, ticks[..n][k]) {
        assert TickFits(records, ticks[k]);
      }
      NoTicksBeyond(records, ticks[..n], i);
    }
  }

  lemma FinishStepKeepsSound(s: Service, index: nat, ok: bool)
    requires Sound(s) && index < |s.ticks| && s.ticks[index].position < |s.records|
    ensures Sound(Step(s, FinishRun(index, ok)))
  {
    var tick := s.ticks[index];
    var settled := Settle(s.records[tick.position], tick.now, ok);
    FinishKeepsSound(s, index, settled.record);
    ScanKeepsSound(Finished(s, index, settled.record), tick.position + 1, tick.now);
  }

  /** One step of any tick keeps the count of active runs, its limit, and one tick per running job,
    * whether the job or its rescheduling throws or not. */
  lemma StepKeepsSound(s: Service, e: Event)
    requires Sound(s) && Enabled(s, e)
    ensures Sound(Step(s, e))
  {
    match e
    case AddJob(_, _, _, _) =>
      if NewRecord(e).Some? {
        AddKeepsSound(s, NewRecord(e).value);
      }
    case StartTick(now) => ScanKeepsSound(s, 0, now);
    case FinishRun(index, ok) => FinishStepKeepsSound(s, index, ok);
  }

  /** However ticks overlap, the jobs marked running are as many as `activeRuns` says, never more than
    * the limit, and none is executed by two ticks. */
  lemma {:induction false} RunKeepsSound(s: Service, events: seq<Event>)
    requires Sound(s) && IsRun(s, events)
    ensures Sound(After(s, events))
    decreases |events|
  {
    if events != [] {
      StepKeepsSound(s, events[0]);
      RunKeepsSound(Step(s, events[0]), events[1..]);
    }
  }

  lemma AnyRunIsSound(maxRuns: int, events: seq<Event>)
    requires IsRun(Fresh(maxRuns), events)
    ensures Sound(After(Fresh(maxRuns), events))
  {
    RunKeepsSound(Fresh(maxRuns), events);
  }
}
