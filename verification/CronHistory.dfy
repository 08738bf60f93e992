/** What the history of a job's executions shows: how retries are counted and how long each waits. */
module CronHistory {
  import opened Options
  import opened CronJobs

  // ---- What a scan does to one record ------------------------------------------------------------------

  ghost predicate Visit(r: Record, r': Record, now: int) {
    && !r.running
    && CheckDue(r, now).Checked?
    && r' == CheckDue(r, now).record.(running := CheckDue(r, now).due)
  }

  /** A scan leaves a record as it was, or checks it once at the time of the tick. */
  lemma {:induction false} ScanVisits(s: Service, i: nat, now: int, j: nat)
    requires j < |s.records|
    ensures |Scan(s, i, now).records| == |s.records|
    ensures Scan(s, i, now).records[j] == s.records[j]
         || (j >= i && Visit(s.records[j], Scan(s, i, now).records[j], now))
    decreases |s.records| - i
  {
    if i >= |s.records| || s.activeRuns >= s.maxRuns {
    } else if s.records[i].running {
      ScanVisits(s, i + 1, now, j);
    } else {
      var check := CheckDue(s.records[i], now);
      if check.Checked? && !check.due {
        ScanVisits(Armed(s, i, check.record), i + 1, now, j);
      }
    }
  }

  // ---- Retries and waiting, read off the history ---------------------------------------------------------

  /** How often in a row the job has failed after its first n executions, as the retry counter sees it:
    * an exhausted streak starts over, unless the job could not be rescheduled. */
  function RetriesAfter(r: Record, n: nat): nat
    requires n <= |r.runs|
  {
    if n == 0 then 0
    else
      var run := r.runs[n - 1];
      var stuck := ComputeNextRun(r.schedule, run.now).Throws?;
      var k := if run.ok then 0 else RetriesAfter(r, n - 1);
      if run.ok && !stuck then 0
      else if k + 1 > r.maxRetries && !stuck then 0
      else k + 1
  }

  /** The earliest time at which the execution after the first n may start. */
  function Floor(r: Record, n: nat): int
    requires 0 < n <= |r.runs|
  {
    var last := r.runs[n - 1].now;
    var k := RetriesAfter(r, n);
    if k > 0 then last + r.backoffMs * Pow2(k - 1)
    else
      match ComputeNextRun(r.schedule, last)
      case Next(at) => at
      case Never => if r.schedule.At? && r.schedule.runAt.Some? then r.schedule.runAt.value else last
      case Throws => last
  }

  predicate InRetries(r: Record, k: nat) {
    k == 0 || k <= r.maxRetries
  }

  predicate Waits(r: Record, n: nat)
    requires 0 < n < |r.runs|
  {
    InRetries(r, RetriesAfter(r, n)) ==> r.runs[n].now >= Floor(r, n)
  }

  /** The next run set for a job respects its floor; only an `at` job ends up with none. */
  predicate Ready(r: Record) {
    r.runs == [] || !InRetries(r, r.retries) ||
    if r.nextRunAt.Some? then r.nextRunAt.value >= Floor(r, |r.runs|) else r.retries == 0 && r.schedule.At?
  }

  ghost predicate AllWait(r: Record) {
    forall n :: 0 < n < |r.runs| ==> Waits(r, n)
  }

  ghost predicate Kept(r: Record) {
    && r.retries == RetriesAfter(r, |r.runs|)
    && Ready(r)
    && AllWait(r)
  }

  ghost predicate Extends(r: Record, r': Record) {
    r.schedule == r'.schedule && r.maxRetries == r'.maxRetries && r.backoffMs == r'.backoffMs && r.runs <= r'.runs
  }

  lemma {:induction false} PrefixDecides(r: Record, r': Record, n: nat)
    requires Extends(r, r') && n <= |r.runs|
    ensures RetriesAfter(r, n) == RetriesAfter(r', n)
    ensures n > 0 ==> Floor(r, n) == Floor(r', n)
  {
    if n > 0 {
      PrefixDecides(r, r', n - 1);
    }
  }

  lemma VisitKeeps(r: Record, r': Record, now: int)
    requires Kept(r) && Visit(r, r', now)
    ensures Kept(r')
  {
    var n := |r.runs|;
    PrefixDecides(r, r', n);
    forall m | 0 < m < n ensures Waits(r', m) {
      assert Waits(r, m);
      PrefixDecides(r, r', m);
    }
  }

  lemma SettleCounts(r: Record, now: int, ok: bool)
    requires Kept(r)
    ensures var r' := Settle(r, now, ok).record;
      && Extends(r, r') && r'.runs == r.runs + [Run(now, ok)] && !r'.running
      && r'.retries == RetriesAfter(r', |r'.runs|)
  {
    var r' := Settle(r, now, ok).record;
    PrefixDecides(r, r', |r.runs|);
  }

  lemma SettleIsReady(r: Record, now: int, ok: bool)
    requires Kept(r)
    ensures Ready(Settle(r, now, ok).record)
  {
    SettleCounts(r, now, ok);
  }

  lemma SettleKeeps(r: Record, now: int, ok: bool)
    requires Kept(r) && r.nextRunAt.Some? && now >= r.nextRunAt.value
    ensures Kept(Settle(r, now, ok).record)
  {
    var r' := Settle(r, now, ok).record;
    SettleCounts(r, now, ok);
    SettleIsReady(r, now, ok);
    forall m | 0 < m < |r'.runs| ensures Waits(r', m) {
      PrefixDecides(r, r', m);
      if m < |r.runs| {
        assert Waits(r, m);
      }
    }
  }

  ghost predicate AllKept(records: seq<Record>) {
    forall i :: 0 <= i < |records| ==> Kept(records[i])
  }

  lemma ScanKeepsHistory(s: Service, i: nat, now: int)
    requires AllKept(s.records)
    ensures AllKept(Scan(s, i, now).records)
  {
    if s.records == [] {
      assert Scan(s, i, now) == s;
    } else {
      ScanVisits(s, i, now, 0);
    }
    var records := Scan(s, i, now).records;
    forall j | 0 <= j < |records| ensures Kept(records[j]) {
      ScanVisits(s, i, now, j);
      assert Kept(s.records[j]);
      if records[j] != s.records[j] {
        VisitKeeps(s.records[j], records[j], now);
      }
    }
  }

  lemma FinishKeepsHistory(s: Service, index: nat, ok: bool)
    requires Sound(s) && AllKept(s.records) && index < |s.ticks|
    ensures s.ticks[index].position < |s.records|
    ensures AllKept(Step(s, FinishRun(index, ok)).records)
  {
    var tick := s.ticks[index];
    assert TickFits(s.records, tick);
    assert Kept(s.records[tick.position]);
    var settled := Settle(s.records[tick.position], tick.now, ok);
    SettleKeeps(s.records[tick.position], tick.now, ok);
    var f := Finished(s, index, settled.record);
    assert AllKept(f.records);
    ScanKeepsHistory(f, tick.position + 1, tick.now);
  }

  lemma StepKeepsHistory(s: Service, e: Event)
    requires Sound(s) && AllKept(s.records) && Enabled(s, e)
    ensures AllKept(Step(s, e).records)
  {
    match e
    case AddJob(_, _, _, _) =>
    case StartTick(now) => ScanKeepsHistory(s, 0, now);
    case FinishRun(index, ok) => FinishKeepsHistory(s, index, ok);
  }

  /** In every reachable state the retry counter is the number read off the history, and every execution
    * but the first waited for its floor. */
  lemma {:induction false} RunKeepsHistory(s: Service, events: seq<Event>)
    requires Sound(s) && AllKept(s.records) && IsRun(s, events)
    ensures AllKept(After(s, events).records)
    decreases |events|
  {
    if events != [] {
      StepKeepsSound(s, events[0]);
      StepKeepsHistory(s, events[0]);
      RunKeepsHistory(Step(s, events[0]), events[1..]);
    }
  }

  /** The retries pass their limit exactly when the job has used them up and cannot be rescheduled. */
  lemma RetriesStayBounded(r: Record, now: int, ok: bool)
    requires InRetries(r, r.retries)
    ensures InRetries(r, Settle(r, now, ok).record.retries)
       <==> !(ComputeNextRun(r.schedule, now).Throws? && (if ok then 0 else r.retries) >= r.maxRetries)
    ensures Settle(r, now, ok).threw <==> !InRetries(r, Settle(r, now, ok).record.retries)
  {
  }

  lemma Doubled(a: int, b: int, c: int, backoff: int, half: int)
    requires a >= b + backoff * half && b >= c + backoff * (half - 1)
    ensures a >= c + backoff * (2 * half - 1)
  {
    assert backoff * (half - 1) + backoff * half == backoff * (2 * half - 1);
  }

  /** The k-th consecutive retry starts at least backoff * (2^k - 1) after the first failure of its streak. */
  lemma {:induction false} BackoffDoubles(r: Record, n: nat)
    requires Kept(r) && 0 < n < |r.runs|
    requires 0 < RetriesAfter(r, n) <= r.maxRetries
    ensures RetriesAfter(r, n) <= n
    ensures !r.runs[n - 1].ok || ComputeNextRun(r.schedule, r.runs[n - 1].now).Throws?
    ensures r.runs[n].now >= r.runs[n - RetriesAfter(r, n)].now + r.backoffMs * (Pow2(RetriesAfter(r, n)) - 1)
  {
    var k := RetriesAfter(r, n);
    assert Waits(r, n);
    if k > 1 {
      BackoffDoubles(r, n - 1);
      Doubled(r.runs[n].now, r.runs[n - 1].now, r.runs[n - k].now, r.backoffMs, Pow2(k - 1));
    }
  }

  /** After a success or an exhausted streak a job waits for the time it was rescheduled to; for an
    * `every` job that is its period. */
  lemma ReschedulingHolds(r: Record, n: nat)
    requires Kept(r) && 0 < n < |r.runs| && RetriesAfter(r, n) == 0
    ensures match ComputeNextRun(r.schedule, r.runs[n - 1].now)
            case Next(at) => r.runs[n].now >= at
            case Never => r.schedule.At? && (r.schedule.runAt.Some? ==> r.runs[n].now >= r.schedule.runAt.value)
            case Throws => false
    ensures r.schedule.Every? && r.schedule.period.Some? ==> r.runs[n].now >= r.runs[n - 1].now + r.schedule.period.value
  {
    assert Waits(r, n);
  }

  // ---- A job that cannot be rescheduled -----------------------------------------------------------------

  /** A schedule that has one more run and then is over: the library rejects it from then on. */
  function LastRun(): Schedule {
    Cron((from: int) => if from <= 0 then Some(1) else None)
  }

  function Failures(k: nat): seq<Run> {
    if k == 0 then [] else Failures(k - 1) + [Run(1, false)]
  }

  /** The service with that job after it failed k times. */
  function Failing(maxRetries: nat, k: nat): Service {
    Service(1, [Record(LastRun(), maxRetries, 0, Some(1), k, false, Failures(k))], 0, [])
  }

  function FailingTicks(k: nat): seq<Event> {
    if k == 0 then [] else [StartTick(1), FinishRun(0, false)] + FailingTicks(k - 1)
  }

  lemma OneFailingTick(maxRetries: nat, k: nat)
    requires k <= maxRetries
    ensures var s := Failing(maxRetries, k); var started := Step(s, StartTick(1));
      && Enabled(started, FinishRun(0, false)) && Step(started, FinishRun(0, false)) == Failing(maxRetries, k + 1)
  {
    var s := Failing(maxRetries, k);
    var job := s.records[0];
    var started := Step(s, StartTick(1));
    assert started == Started(s, 0, job, 1);
    assert started.records[0] == job.(running := true) && started.ticks == [Tick(0, 1)];
    var settled := Settle(started.records[0], 1, false);
    assert settled.record == Failing(maxRetries, k + 1).records[0];
    var f := Finished(started, 0, settled.record);
    assert Without(started.ticks, 0) == [];
    assert f == Failing(maxRetries, k + 1);
    assert Scan(f, 1, 1) == f;
  }

  lemma {:induction false} FailingRun(maxRetries: nat, k: nat, more: nat)
    requires k + more <= maxRetries + 1
    ensures IsRun(Failing(maxRetries, k), FailingTicks(more))
    ensures After(Failing(maxRetries, k), FailingTicks(more)) == Failing(maxRetries, k + more)
    decreases more
  {
    if more > 0 {
      OneFailingTick(maxRetries, k);
      FailingRun(maxRetries, k + 1, more - 1);
      var es := FailingTicks(more);
      assert es[1..] == [FinishRun(0, false)] + FailingTicks(more - 1);
      assert es[1..][1..] == FailingTicks(more - 1);
    }
  }

  /** A job that uses up its retries and then cannot be rescheduled goes on counting beyond its limit. */
  lemma StuckJobOverruns(maxRetries: nat)
    ensures var es := [AddJob(LastRun(), maxRetries, 0, 0)] + FailingTicks(maxRetries + 1);
      && IsRun(Fresh(1), es)
      && After(Fresh(1), es) == Failing(maxRetries, maxRetries + 1)
      && !InRetries(After(Fresh(1), es).records[0], After(Fresh(1), es).records[0].retries)
  {
    var add := AddJob(LastRun(), maxRetries, 0, 0);
    var es := [add] + FailingTicks(maxRetries + 1);
    assert ComputeNextRun(LastRun(), 0) == Next(1);
    assert Step(Fresh(1), add) == Failing(maxRetries, 0);
    assert es[1..] == FailingTicks(maxRetries + 1);
    FailingRun(maxRetries, 0, maxRetries + 1);
  }
}
