/** `at` jobs: when they run once, and what makes them run again. */
module CronOneShot {
  import opened Options
  import opened CronJobs
  import opened CronHistory

  /** An `at` job that has run and has no next run. */
  predicate Over(r: Record) {
    r.schedule.At? && r.schedule.runAt.Some? && r.runs != [] && r.nextRunAt.None?
  }

  /** A check at this time would arm the finished job again. */
  predicate Stale(r: Record, now: int) {
    Over(r) && now <= r.schedule.runAt.value
  }

  /** A check of a finished `at` job arms it exactly when it is not after the job's time, and starts it at
    * once exactly when it is at that time. */
  lemma CheckOfFinishedJob(r: Record, now: int)
    requires Over(r)
    ensures CheckDue(r, now).Checked?
    ensures CheckDue(r, now).record.nextRunAt.Some? <==> Stale(r, now)
    ensures CheckDue(r, now).due <==> now == r.schedule.runAt.value
  {
  }

  function Allowed(r: Record): nat {
    1 + if r.maxRetries > 0 then r.maxRetries else 0
  }

  ghost predicate AllFailed(runs: seq<Run>) {
    forall k :: 0 <= k < |runs| ==> !runs[k].ok
  }

  ghost predicate NotBefore(runs: seq<Run>, t: int) {
    forall k :: 0 <= k < |runs| ==> runs[k].now >= t
  }

  /** An `at` job runs from its time on; until it is over it has only failed, once per retry counted; when
    * it is over, its last execution succeeded or was the last one allowed. */
  ghost predicate OneShot(r: Record) {
    r.schedule.At? && r.schedule.runAt.Some? ==>
      && NotBefore(r.runs, r.schedule.runAt.value)
      && (r.nextRunAt.Some? ==> r.nextRunAt.value >= r.schedule.runAt.value)
      && r.retries < Allowed(r)
      && if Over(r) then
           && AllFailed(r.runs[..|r.runs| - 1])
           && |r.runs| <= Allowed(r)
           && (r.runs[|r.runs| - 1].ok || |r.runs| == Allowed(r))
           && !r.running
           && r.retries == 0
         else
           AllFailed(r.runs) && |r.runs| == r.retries
  }

  /** Then it succeeds at most once, in no more executions than it is allowed, a running one included. */
  lemma OneShotMeans(r: Record, a: nat, b: nat)
    requires OneShot(r) && r.schedule.At? && r.schedule.runAt.Some?
    requires a < b < |r.runs|
    ensures !r.runs[a].ok
    ensures |r.runs| + (if r.running then 1 else 0) <= Allowed(r)
  {
    if Over(r) {
      assert !r.runs[..|r.runs| - 1][a].ok;
    }
  }

  /** One check keeps a job one-shot exactly when it is not a late check of a finished job. */
  lemma VisitKeepsOneShot(r: Record, r': Record, now: int)
    requires OneShot(r) && Visit(r, r', now)
    ensures OneShot(r') <==> !Stale(r, now)
  {
    if Stale(r, now) {
      CheckOfFinishedJob(r, now);
      assert r'.nextRunAt.Some? && r'.runs == r.runs && r'.retries == 0;
    }
  }

  /** How an execution of an `at` job from its time on ends. */
  lemma SettleOneShot(r: Record, now: int, ok: bool)
    requires r.schedule.At? && r.schedule.runAt.Some? && now >= r.schedule.runAt.value
    ensures var r' := Settle(r, now, ok).record;
      && r'.schedule == r.schedule && r'.maxRetries == r.maxRetries && !r'.running
      && r'.runs == r.runs + [Run(now, ok)]
      && if ok || r.retries >= r.maxRetries then r'.nextRunAt.None? && r'.retries == 0
         else r'.nextRunAt.Some? && r'.nextRunAt.value >= now && r'.retries == r.retries + 1
  {
    assert r.backoffMs * Pow2(r.retries) >= 0;
  }

  lemma SettleKeepsOneShot(r: Record, now: int, ok: bool)
    requires OneShot(r) && r.running && r.nextRunAt.Some? && now >= r.nextRunAt.value
    ensures OneShot(Settle(r, now, ok).record)
  {
    if r.schedule.At? && r.schedule.runAt.Some? {
      var r' := Settle(r, now, ok).record;
      SettleOneShot(r, now, ok);
      assert r'.runs[..|r'.runs| - 1] == r.runs;
    } else {
      assert Settle(r, now, ok).record.schedule == r.schedule;
    }
  }

  // ---- Over the machine ---------------------------------------------------------------------------------

  ghost predicate AllOneShot(records: seq<Record>) {
    forall i :: 0 <= i < |records| ==> OneShot(records[i])
  }

  /** A scan from this position at this time meets no finished `at` job whose time is still to come. */
  ghost predicate NoStaleCheck(records: seq<Record>, from: nat, now: int) {
    forall j :: from <= j < |records| ==> !Stale(records[j], now)
  }

  ghost predicate ChecksInTime(s: Service, e: Event)
    requires Enabled(s, e)
  {
    match e
    case AddJob(_, _, _, _) => true
    case StartTick(now) => NoStaleCheck(s.records, 0, now)
    case FinishRun(index, _) => NoStaleCheck(s.records, s.ticks[index].position + 1, s.ticks[index].now)
  }

  lemma ScanKeepsOneShot(s: Service, i: nat, now: int)
    requires AllOneShot(s.records) && NoStaleCheck(s.records, i, now)
    ensures AllOneShot(Scan(s, i, now).records)
  {
    if s.records == [] {
      assert Scan(s, i, now) == s;
    } else {
      ScanVisits(s, i, now, 0);
    }
    var records := Scan(s, i, now).records;
    forall j | 0 <= j < |records| ensures OneShot(records[j]) {
      ScanVisits(s, i, now, j);
      assert OneShot(s.records[j]);
      if records[j] != s.records[j] {
        VisitKeepsOneShot(s.records[j], records[j], now);
      }
    }
  }

  lemma FinishKeepsOneShot(s: Service, index: nat, ok: bool)
    requires Sound(s) && AllOneShot(s.records)
    requires Enabled(s, FinishRun(index, ok)) && ChecksInTime(s, FinishRun(index, ok))
    ensures AllOneShot(Step(s, FinishRun(index, ok)).records)
  {
    var tick := s.ticks[index];
    assert TickFits(s.records, tick);
    assert OneShot(s.records[tick.position]);
    var settled := Settle(s.records[tick.position], tick.now, ok);
    SettleKeepsOneShot(s.records[tick.position], tick.now, ok);
    var f := Finished(s, index, settled.record);
    assert AllOneShot(f.records);
    assert NoStaleCheck(f.records, tick.position + 1, tick.now);
    ScanKeepsOneShot(f, tick.position + 1, tick.now);
  }

  /** With any overlap of ticks, `at` jobs stay one-shot as long as no scan is late in this sense. */
  lemma StepKeepsOneShot(s: Service, e: Event)
    requires Sound(s) && AllOneShot(s.records) && Enabled(s, e) && ChecksInTime(s, e)
    ensures AllOneShot(Step(s, e).records)
  {
    match e
    case AddJob(_, _, _, _) =>
    case StartTick(now) => ScanKeepsOneShot(s, 0, now);
    case FinishRun(index, ok) => FinishKeepsOneShot(s, index, ok);
  }

  // ---- Ticks that do not overlap, at strictly increasing times --------------------------------------------

  function LastTick(last: Option<int>, e: Event): Option<int> {
    if e.StartTick? then Some(e.now) else last
  }

  predicate InTurn(s: Service, last: Option<int>, e: Event) {
    e.StartTick? ==> s.ticks == [] && (last.Some? ==> e.now > last.value)
  }

  predicate IsSerialRun(s: Service, last: Option<int>, events: seq<Event>)
    decreases |events|
  {
    events == []
    || (Enabled(s, events[0]) && InTurn(s, last, events[0])
        && IsSerialRun(Step(s, events[0]), LastTick(last, events[0]), events[1..]))
  }

  predicate Past(r: Record, last: Option<int>) {
    Over(r) ==> last.Some? && r.schedule.runAt.value <= last.value
  }

  ghost predicate AllPast(records: seq<Record>, last: Option<int>) {
    forall j :: 0 <= j < |records| ==> Past(records[j], last)
  }

  ghost predicate Serial(s: Service, last: Option<int>) {
    && |s.ticks| <= 1
    && AllPast(s.records, last)
    && (s.ticks != [] ==>
          last == Some(s.ticks[0].now) && NoStaleCheck(s.records, s.ticks[0].position + 1, s.ticks[0].now))
  }

  lemma {:induction false} ScanTicks(s: Service, i: nat, now: int)
    ensures var ticks := Scan(s, i, now).ticks;
      ticks == s.ticks || (|ticks| == |s.ticks| + 1 && ticks[..|s.ticks|] == s.ticks
                           && ticks[|s.ticks|].position >= i && ticks[|s.ticks|].now == now)
    decreases |s.records| - i
  {
    if i >= |s.records| || s.activeRuns >= s.maxRuns {
    } else if s.records[i].running {
      ScanTicks(s, i + 1, now);
    } else {
      var check := CheckDue(s.records[i], now);
      if check.Checked? && !check.due {
        ScanTicks(Armed(s, i, check.record), i + 1, now);
      }
    }
  }

  /** A scan finishes no job. */
  lemma ScanFinishesNone(s: Service, i: nat, now: int, j: nat)
    requires j < |s.records|
    ensures |Scan(s, i, now).records| == |s.records|
    ensures Over(Scan(s, i, now).records[j]) ==> Over(s.records[j])
    ensures Scan(s, i, now).records[j].schedule == s.records[j].schedule
  {
    ScanVisits(s, i, now, j);
  }

  lemma ScanKeepsSerial(s: Service, i: nat, now: int)
    requires s.ticks == [] && AllPast(s.records, Some(now)) && NoStaleCheck(s.records, i, now)
    ensures Serial(Scan(s, i, now), Some(now))
  {
    var s' := Scan(s, i, now);
    ScanTicks(s, i, now);
    if s.records == [] {
      assert s' == s;
    } else {
      ScanVisits(s, i, now, 0);
    }
    forall j | 0 <= j < |s'.records| ensures Past(s'.records[j], Some(now)) {
      ScanFinishesNone(s, i, now, j);
      assert Past(s.records[j], Some(now));
    }
    if s'.ticks != [] {
      forall j | s'.ticks[0].position + 1 <= j < |s'.records| ensures !Stale(s'.records[j], now) {
        ScanFinishesNone(s, i, now, j);
        assert !Stale(s.records[j], now);
      }
    }
  }

  lemma FinishKeepsSerial(s: Service, last: Option<int>, index: nat, ok: bool)
    requires Sound(s) && AllOneShot(s.records) && Serial(s, last) && Enabled(s, FinishRun(index, ok))
    ensures Serial(Step(s, FinishRun(index, ok)), last)
  {
    var tick := s.ticks[index];
    assert TickFits(s.records, tick);
    assert OneShot(s.records[tick.position]);
    var settled := Settle(s.records[tick.position], tick.now, ok);
    var f := Finished(s, index, settled.record);
    forall j | 0 <= j < |f.records| ensures Past(f.records[j], last) {
      if j != tick.position {
        assert Past(s.records[j], last);
      }
    }
    assert f.ticks == [];
    assert NoStaleCheck(f.records, tick.position + 1, tick.now);
    ScanKeepsSerial(f, tick.position + 1, tick.now);
  }

  lemma SerialStepIsInTime(s: Service, last: Option<int>, e: Event)
    requires Serial(s, last) && Enabled(s, e) && InTurn(s, last, e)
    ensures ChecksInTime(s, e)
  {
    if e.StartTick? {
      forall j | 0 <= j < |s.records| ensures !Stale(s.records[j], e.now) {
        assert Past(s.records[j], last);
      }
    }
  }

  lemma StepKeepsSerial(s: Service, last: Option<int>, e: Event)
    requires Sound(s) && AllOneShot(s.records) && Serial(s, last) && Enabled(s, e) && InTurn(s, last, e)
    ensures Serial(Step(s, e), LastTick(last, e))
  {
    SerialStepIsInTime(s, last, e);
    match e
    case AddJob(_, _, _, _) =>
    case StartTick(now) =>
      forall j | 0 <= j < |s.records| ensures Past(s.records[j], Some(now)) {
        assert Past(s.records[j], last);
      }
      ScanKeepsSerial(s, 0, now);
    case FinishRun(index, ok) => FinishKeepsSerial(s, last, index, ok);
  }

  /** With ticks one after the other at strictly increasing times, every `at` job is one-shot. */
  lemma {:induction false} SerialTicksRunOnce(s: Service, last: Option<int>, events: seq<Event>)
    requires Sound(s) && AllOneShot(s.records) && Serial(s, last) && IsSerialRun(s, last, events)
    ensures IsRun(s, events)
    ensures AllOneShot(After(s, events).records)
    decreases |events|
  {
    if events != [] {
      SerialStepIsInTime(s, last, events[0]);
      StepKeepsSound(s, events[0]);
      StepKeepsOneShot(s, events[0]);
      StepKeepsSerial(s, last, events[0]);
      SerialTicksRunOnce(Step(s, events[0]), LastTick(last, events[0]), events[1..]);
    }
  }

  /** The service with one `at` job of time t: at rest after these executions. */
  function Resting(t: int, armed: bool, runs: seq<Run>): Service {
    Service(1, [Record(At(Some(t)), 0, 0, if armed then Some(t) else None, 0, false, runs)], 0, [])
  }

  lemma OneTick(t: int, armed: bool, runs: seq<Run>)
    ensures var s := Resting(t, armed, runs); var started := Step(s, StartTick(t));
      && Enabled(started, FinishRun(0, true)) && Step(started, FinishRun(0, true)) == Resting(t, false, runs + [Run(t, true)])
  {
    var s := Resting(t, armed, runs);
    var job := Resting(t, true, runs).records[0];
    var started := Step(s, StartTick(t));
    assert CheckDue(s.records[0], t) == Checked(job, true);
    assert started == Started(s, 0, job, t);
    assert started.records[0] == job.(running := true) && started.ticks == [Tick(0, t)];
    var settled := Settle(started.records[0], t, true);
    assert settled.record == Resting(t, false, runs + [Run(t, true)]).records[0];
    var f := Finished(started, 0, settled.record);
    assert Without(started.ticks, 0) == [];
    assert f == Resting(t, false, runs + [Run(t, true)]);
    assert Scan(f, 1, t) == f;
  }

  /** Two ticks in the same millisecond, one after the other, run a one-shot job twice. */
  lemma EqualTicksRunTwice(t: int)
    ensures var es := [AddJob(At(Some(t)), 0, 0, t - 1), StartTick(t), FinishRun(0, true), StartTick(t), FinishRun(0, true)];
      && IsRun(Fresh(1), es)
      && After(Fresh(1), es) == Resting(t, false, [Run(t, true), Run(t, true)])
  {
    var es := [AddJob(At(Some(t)), 0, 0, t - 1), StartTick(t), FinishRun(0, true), StartTick(t), FinishRun(0, true)];
    assert ComputeNextRun(At(Some(t)), t - 1) == Next(t);
    var s0 := Step(Fresh(1), es[0]);
    assert s0 == Resting(t, true, []);
    OneTick(t, true, []);
    OneTick(t, false, [Run(t, true)]);
    assert [] + [Run(t, true)] == [Run(t, true)];
    assert [Run(t, true)] + [Run(t, true)] == [Run(t, true), Run(t, true)];
    var s2 := Resting(t, false, [Run(t, true)]);
    TwoSteps(s2, StartTick(t), FinishRun(0, true), []);
    assert es[3..] == [StartTick(t), FinishRun(0, true)] + [];
    TwoSteps(s0, StartTick(t), FinishRun(0, true), es[3..]);
    assert es[1..] == [StartTick(t), FinishRun(0, true)] + es[3..];
  }

  lemma TwoSteps(s: Service, e1: Event, e2: Event, rest: seq<Event>)
    requires Enabled(s, e1) && Enabled(Step(s, e1), e2) && IsRun(Step(Step(s, e1), e2), rest)
    ensures IsRun(s, [e1, e2] + rest)
    ensures After(s, [e1, e2] + rest) == After(Step(Step(s, e1), e2), rest)
  {
    var es := [e1, e2] + rest;
    assert es[1..] == [e2] + rest && es[1..][1..] == rest;
  }
}
