/** Which job a tick starts, and exactly how long every job waits. */
module CronDue {
  import opened Options
  import opened CronJobs

  /** An idle job whose next run has come; an `at` job without one comes at its own time. */
  predicate IsDue(r: Record, now: int) {
    && !r.running
    && if r.nextRunAt.Some? then r.nextRunAt.value <= now else r.schedule == At(Some(now))
  }

  /** The first due job from a position on. */
  ghost predicate IsFirstDue(records: seq<Record>, from: nat, now: int, k: nat) {
    from <= k < |records| && IsDue(records[k], now) && forall j :: from <= j < k ==> !IsDue(records[j], now)
  }

  ghost predicate NoneDue(records: seq<Record>, from: nat, now: int) {
    forall j :: from <= j < |records| ==> !IsDue(records[j], now)
  }

  /** No job was started: the same ones run, and no tick was suspended. */
  ghost predicate StartsNone(s: Service, s': Service) {
    && s'.ticks == s.ticks && s'.activeRuns == s.activeRuns && |s'.records| == |s.records|
    && forall j :: 0 <= j < |s.records| ==> s'.records[j].running == s.records[j].running
  }

  /** Job k was started and no other. */
  ghost predicate StartsJob(s: Service, s': Service, k: nat, now: int) {
    && s'.ticks == s.ticks + [Tick(k, now)] && s'.activeRuns == s.activeRuns + 1 && |s'.records| == |s.records|
    && forall j :: 0 <= j < |s.records| ==> s'.records[j].running == (s.records[j].running || j == k)
  }

  /** Only `at` jobs are ever without a next run, so no check throws. */
  ghost predicate Timed(records: seq<Record>) {
    forall i :: 0 <= i < |records| ==> records[i].nextRunAt.None? ==> records[i].schedule.At?
  }

  // ---- What one scan starts ---------------------------------------------------------------------------------

  lemma ChecksAre(r: Record, now: int)
    requires !r.running && (r.nextRunAt.None? ==> r.schedule.At?)
    ensures var check := CheckDue(r, now);
      && check.Checked? && (check.due <==> IsDue(r, now))
      && check.record.(nextRunAt := r.nextRunAt) == r
      && (check.record.nextRunAt.None? ==> r.nextRunAt.None?)
  {
  }

  lemma {:induction false} ScanStarts(s: Service, i: nat, now: int)
    requires Timed(s.records) && s.activeRuns < s.maxRuns
    ensures forall k: nat :: IsFirstDue(s.records, i, now, k) ==> StartsJob(s, Scan(s, i, now), k, now)
    ensures NoneDue(s.records, i, now) ==> StartsNone(s, Scan(s, i, now))
    decreases |s.records| - i
  {
    if i < |s.records| {
      if s.records[i].running {
        ScanStarts(s, i + 1, now);
        Later(s.records, s.records, i, now);
      } else {
        ChecksAre(s.records[i], now);
        var check := CheckDue(s.records[i], now);
        if check.due {
          assert IsDue(s.records[i], now);
        } else {
          var next := Armed(s, i, check.record);
          ScanStarts(next, i + 1, now);
          Later(s.records, next.records, i, now);
        }
      }
    }
  }

  lemma Later(before: seq<Record>, after: seq<Record>, i: nat, now: int)
    requires i < |before| == |after| && !IsDue(before[i], now) && forall j :: i < j < |before| ==> after[j] == before[j]
    ensures forall k: nat :: IsFirstDue(before, i, now, k) ==> IsFirstDue(after, i + 1, now, k)
    ensures NoneDue(before, i, now) ==> NoneDue(after, i + 1, now)
  {
  }

  // ---- In every reachable state -----------------------------------------------------------------------------

  /** The wait of an idle job after its last execution: the backoff while it has retries, and else as its
    * schedule says from the time of that execution. */
  predicate Waits(r: Record) {
    !r.running && r.runs != [] ==>
      var last := r.runs[|r.runs| - 1].now;
      && r.retries >= 0
      && (0 < r.retries <= r.maxRetries ==> r.nextRunAt == Some(last + r.backoffMs * Pow2(r.retries - 1)))
      && (r.retries == 0 ==>
            match r.schedule
            case Every(period) => period.Some? && r.nextRunAt == Some(last + period.value)
            case Cron(next) => next(last).Some? && r.nextRunAt == next(last)
            case At(_) => true)
  }

  ghost predicate AllWait(records: seq<Record>) {
    forall i :: 0 <= i < |records| ==> Waits(records[i])
  }

  predicate Fine(r: Record) {
    Waits(r) && r.retries >= 0 && (r.nextRunAt.None? ==> r.schedule.At?)
  }

  ghost predicate AllFine(records: seq<Record>) {
    forall i :: 0 <= i < |records| ==> Fine(records[i])
  }

  lemma CheckKeepsFine(r: Record, now: int)
    requires Fine(r) && !r.running && CheckDue(r, now).Checked?
    ensures Fine(CheckDue(r, now).record) && Fine(CheckDue(r, now).record.(running := true))
  {
  }

  lemma {:induction false} ScanKeepsFine(s: Service, i: nat, now: int)
    requires AllFine(s.records)
    ensures AllFine(Scan(s, i, now).records)
    decreases |s.records| - i
  {
    if i < |s.records| && s.activeRuns < s.maxRuns {
      if s.records[i].running {
        ScanKeepsFine(s, i + 1, now);
      } else {
        var check := CheckDue(s.records[i], now);
        if check.Checked? {
          CheckKeepsFine(s.records[i], now);
          if !check.due {
            ScanKeepsFine(Armed(s, i, check.record), i + 1, now);
          }
        }
      }
    }
  }

  lemma SettleKeepsFine(r: Record, now: int, ok: bool)
    requires Fine(r) && r.running
    ensures Fine(Settle(r, now, ok).record)
  {
    var logged := Logged(r, now, ok);
    assert logged.runs[|logged.runs| - 1] == Run(now, ok);
  }

  lemma StepKeepsFine(s: Service, e: Event)
    requires AllFine(s.records) && Sound(s) && Enabled(s, e)
    ensures AllFine(Step(s, e).records)
  {
    match e
    case AddJob(_, _, _, _) =>
    case StartTick(now) => ScanKeepsFine(s, 0, now);
    case FinishRun(index, ok) =>
      var tick := s.ticks[index];
      assert TickFits(s.records, tick);
      SettleKeepsFine(s.records[tick.position], tick.now, ok);
      var f := Finished(s, index, Settle(s.records[tick.position], tick.now, ok).record);
      ScanKeepsFine(f, tick.position + 1, tick.now);
  }

  lemma {:induction false} RunKeepsFine(s: Service, events: seq<Event>)
    requires AllFine(s.records) && Sound(s) && IsRun(s, events)
    ensures AllFine(After(s, events).records) && Sound(After(s, events))
    decreases |events|
  {
    if events != [] {
      StepKeepsSound(s, events[0]);
      StepKeepsFine(s, events[0]);
      RunKeepsFine(Step(s, events[0]), events[1..]);
    }
  }

  /** In every reachable state idle jobs wait exactly as long as their last execution and schedule say. */
  lemma JobsWaitExactly(maxRuns: int, events: seq<Event>)
    requires IsRun(Fresh(maxRuns), events)
    ensures AllWait(After(Fresh(maxRuns), events).records)
  {
    RunKeepsFine(Fresh(maxRuns), events);
  }

  /** A new job waits for its own time, for one period, or for the next time of its expression. */
  lemma NewJobWaits(s: Service, schedule: Schedule, maxRetries: int, backoffMs: nat, clock: int)
    ensures var s' := Step(s, AddJob(schedule, maxRetries, backoffMs, clock));
      match schedule
      case At(runAt) => s'.records == s.records + [Record(schedule, maxRetries, backoffMs,
                                                           if runAt.Some? && runAt.value > clock then runAt else None, 0, false, [])]
      case Every(period) =>
        s'.records == s.records + if period.None? then []
                                  else [Record(schedule, maxRetries, backoffMs, Some(clock + period.value), 0, false, [])]
      case Cron(next) =>
        s'.records == s.records + if next(clock).None? then [] else [Record(schedule, maxRetries, backoffMs, next(clock), 0, false, [])]
  {
  }

  /** In every reachable state a tick starts the first due job if there is room, and otherwise none. So when it
    * starts none, the limit is reached or no job is due. */
  lemma TickStartsFirstDue(maxRuns: int, events: seq<Event>, now: int)
    requires IsRun(Fresh(maxRuns), events)
    ensures var s := After(Fresh(maxRuns), events); var s' := Step(s, StartTick(now));
      if s.activeRuns >= s.maxRuns then s' == s
      else
        && (forall k: nat :: IsFirstDue(s.records, 0, now, k) ==> StartsJob(s, s', k, now))
        && (NoneDue(s.records, 0, now) ==> StartsNone(s, s'))
  {
    RunKeepsFine(Fresh(maxRuns), events);
    var s := After(Fresh(maxRuns), events);
    if s.activeRuns < s.maxRuns {
      ScanStarts(s, 0, now);
    }
  }

  /** The tick at this index is off the list and has started the first due job behind its own, if any. */
  ghost predicate GoneOn(s: Service, index: nat, s': Service)
    requires index < |s.ticks|
  {
    var tick, rest := s.ticks[index], Without(s.ticks, index);
    && (forall k: nat :: IsFirstDue(s.records, tick.position + 1, tick.now, k) ==>
          s'.ticks == rest + [Tick(k, tick.now)] && k < |s'.records| && s'.records[k].running)
    && (NoneDue(s.records, tick.position + 1, tick.now) ==> s'.ticks == rest)
  }

  lemma FinishedGoesOn(s: Service, index: nat, settled: Record)
    requires AllFine(s.records) && Fine(settled) && index < |s.ticks| && s.ticks[index].position < |s.records|
    requires s.activeRuns <= s.maxRuns
    ensures GoneOn(s, index, Scan(Finished(s, index, settled), s.ticks[index].position + 1, s.ticks[index].now))
  {
    var f := Finished(s, index, settled);
    ScanStarts(f, s.ticks[index].position + 1, s.ticks[index].now);
    SameBehind(s.records, f.records, s.ticks[index].position + 1, s.ticks[index].now);
  }

  /** A tick whose job has settled, without a throw, goes on behind it. */
  lemma SettledTickGoesOn(maxRuns: int, events: seq<Event>, index: nat, ok: bool)
    requires IsRun(Fresh(maxRuns), events) && index < |After(Fresh(maxRuns), events).ticks|
    requires var s := After(Fresh(maxRuns), events); var tick := s.ticks[index];
      tick.position < |s.records| && !Settle(s.records[tick.position], tick.now, ok).threw
    ensures var s := After(Fresh(maxRuns), events); GoneOn(s, index, Step(s, FinishRun(index, ok)))
  {
    RunKeepsFine(Fresh(maxRuns), events);
    var s := After(Fresh(maxRuns), events);
    var tick := s.ticks[index];
    assert TickFits(s.records, tick);
    SettleKeepsFine(s.records[tick.position], tick.now, ok);
    FinishedGoesOn(s, index, Settle(s.records[tick.position], tick.now, ok).record);
  }

  lemma SameBehind(before: seq<Record>, after: seq<Record>, from: nat, now: int)
    requires |before| == |after| && forall j :: from <= j < |before| ==> after[j] == before[j]
    ensures forall k: nat :: IsFirstDue(before, from, now, k) ==> IsFirstDue(after, from, now, k)
    ensures NoneDue(before, from, now) ==> NoneDue(after, from, now)
  {
  }

  /** The delays before the retries: the first is the configured one, and each further one twice the one before. */
  lemma DelaysDouble(backoffMs: nat, k: nat)
    ensures backoffMs * Pow2(0) == backoffMs && backoffMs * Pow2(k + 1) == 2 * (backoffMs * Pow2(k))
  {
    assert backoffMs * (2 * Pow2(k)) == 2 * (backoffMs * Pow2(k));
  }
}
