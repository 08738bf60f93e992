/** The cron service itself: records updated in place, each method one piece of `tick` between awaits. */
module CronServices {
  import opened Options
  import opened CronJobs

  class CronStateRecord {
    const schedule: Schedule
    const maxRetries: int
    const backoffMs: nat
    var nextRunAt: Option<int>
    var retries: nat
    var running: bool
    ghost var runs: seq<Run>

    constructor (schedule: Schedule, maxRetries: int, backoffMs: nat, nextRunAt: Option<int>)
      ensures View() == Record(schedule, maxRetries, backoffMs, nextRunAt, 0, false, [])
    {
      this.schedule, this.maxRetries, this.backoffMs := schedule, maxRetries, backoffMs;
      this.nextRunAt, this.retries, this.running, this.runs := nextRunAt, 0, false, [];
    }

    ghost function View(): Record
      reads this
    {
      Record(schedule, maxRetries, backoffMs, nextRunAt, retries, running, runs)
    }

    method SetNextRun(next: NextRun)
      requires !next.Throws?
      modifies this
      ensures View() == Rescheduled(old(View()), next)
    {
      match next
      case Never => nextRunAt := None;
      case Next(at) => nextRunAt := Some(at);
    }

    /** None when computing the next run throws. */
    method IsDue(now: int) returns (due: Option<bool>)
      modifies this
      ensures match CheckDue(old(View()), now)
              case DueThrows => due == None && View() == old(View())
              case Checked(r, d) => due == Some(d) && View() == r
    {
      if nextRunAt.None? {
        var next := ComputeNextRun(schedule, now - 1);
        match next {
          case Throws => return None;
          case Never => return Some(false);
          case Next(at) => nextRunAt := Some(at);
        }
      }
      return Some(now >= nextRunAt.value);
    }

    method BackoffDelay() returns (delay: nat)
      requires retries > 0
      ensures delay == backoffMs * Pow2(retries - 1)
    {
      var power: nat, k := 1, 1;
      while k < retries
        invariant 1 <= k <= retries
        invariant power == Pow2(k - 1)
      {
        power, k := 2 * power, k + 1;
      }
      delay := backoffMs * power;
    }

    method Catch(now: int) returns (threw: bool)
      modifies this
      ensures Settled(View(), threw) == Caught(old(View()), now, ComputeNextRun(schedule, now))
    {
      retries := retries + 1;
      if retries > maxRetries {
        var next := ComputeNextRun(schedule, now);
        if next.Throws? {
          return true;
        }
        SetNextRun(next);
        retries := 0;
      } else {
        var delay := BackoffDelay();
        nextRunAt := Some(now + delay);
      }
      threw := false;
    }

    /** The code after `await runJob`, with the finally block that marks the job idle. */
    method AfterRun(now: int, ok: bool) returns (threw: bool)
      modifies this
      ensures Settled(View(), threw) == Settle(old(View()), now, ok)
    {
      running, runs := false, runs + [Run(now, ok)];
      if ok {
        retries := 0;
        var next := ComputeNextRun(schedule, now);
        if !next.Throws? {
          SetNextRun(next);
          return false;
        }
      }
      threw := Catch(now);
    }
  }

  class CronService {
    const maxConcurrentRuns: int
    var jobs: seq<CronStateRecord>   // the map of jobs, in insertion order
    var activeRuns: int
    var ticks: seq<Tick>             // the suspended ticks

    ghost predicate Valid()
      reads this
    {
      forall i, j :: 0 <= i < j < |jobs| ==> jobs[i] != jobs[j]
    }

    ghost function Records(): (records: seq<Record>)
      reads this, jobs
      ensures |records| == |jobs|
    {
      seq(|jobs|, i requires 0 <= i < |jobs| reads this, jobs => jobs[i].View())
    }

    ghost function View(): Service
      reads this, jobs
    {
      Service(maxConcurrentRuns, Records(), activeRuns, ticks)
    }

    constructor (maxConcurrentRuns: int)
      ensures Valid() && View() == Fresh(maxConcurrentRuns)
    {
      this.maxConcurrentRuns, jobs, activeRuns, ticks := maxConcurrentRuns, [], 0, [];
    }

    twostate lemma OneJobChanged(i: nat)
      requires old(Valid()) && jobs == old(jobs) && i < |jobs|
      requires forall j :: 0 <= j < |jobs| && j != i ==> jobs[j].View() == old(jobs[j].View())
      ensures Records() == old(Records())[i := jobs[i].View()]
    {
    }

    /** None when the schedule is refused. */
    method AddJob(schedule: Schedule, maxRetries: int, backoffMs: nat, clock: int) returns (job: Option<CronStateRecord>)
      requires Valid()
      modifies this
      ensures Valid() && View() == Step(old(View()), Event.AddJob(schedule, maxRetries, backoffMs, clock))
      ensures job.None? <==> ComputeNextRun(schedule, clock).Throws?
      ensures job.Some? ==> fresh(job.value) && jobs == old(jobs) + [job.value]
    {
      var next := ComputeNextRun(schedule, clock);
      if next.Throws? {
        return None;
      }
      var record := new CronStateRecord(schedule, maxRetries, backoffMs, None);
      record.SetNextRun(next);
      jobs := jobs + [record];
      assert Records() == old(Records()) + [record.View()];
      job := Some(record);
    }

    method ContinueTick(from: nat, now: int)
      requires Valid()
      modifies this, jobs
      ensures Valid() && jobs == old(jobs)
      ensures View() == Scan(old(View()), from, now)
    {
      var i := from;
      while i < |jobs| && activeRuns < maxConcurrentRuns
        invariant jobs == old(jobs)
        invariant Scan(View(), i, now) == Scan(old(View()), from, now)
        decreases |jobs| - i
      {
        var job := jobs[i];
        assert Records()[i] == job.View();
        if !job.running {
          label Before:
          var due := job.IsDue(now);
          OneJobChanged@Before(i);
          if due.None? {
            assert Records() == old@Before(Records());
            return;
          }
          if due.value {
            StartJob(i, now);
            return;
          }
        }
        i := i + 1;
      }
    }

    method StartJob(i: nat, now: int)
      requires Valid() && i < |jobs|
      modifies this, jobs
      ensures jobs == old(jobs)
      ensures View() == Started(old(View()), i, old(jobs[i].View()), now)
    {
      jobs[i].running := true;
      OneJobChanged(i);
      activeRuns := activeRuns + 1;
      ticks := ticks + [CronJobs.Tick(i, now)];
    }

    method Tick(now: int)
      requires Valid()
      modifies this, jobs
      ensures Valid() && jobs == old(jobs)
      ensures View() == Step(old(View()), StartTick(now))
    {
      ContinueTick(0, now);
    }

    method FinishRun(index: nat, ok: bool)
      requires Valid() && Enabled(View(), Event.FinishRun(index, ok))
      modifies this, jobs
      ensures Valid() && jobs == old(jobs)
      ensures View() == Step(old(View()), Event.FinishRun(index, ok))
    {
      var tick := ticks[index];
      assert old(Records()[tick.position]) == old(jobs[tick.position].View());
      var threw := SettleRun(index, ok);
      if !threw {
        ContinueTick(tick.position + 1, tick.now);
      }
    }

    method SettleRun(index: nat, ok: bool) returns (threw: bool)
      requires Valid() && index < |ticks| && ticks[index].position < |jobs|
      modifies this, jobs
      ensures Valid() && jobs == old(jobs)
      ensures var settled := Settle(old(jobs[ticks[index].position].View()), old(ticks[index].now), ok);
        threw == settled.threw && View() == Finished(old(View()), index, settled.record)
    {
      var tick := ticks[index];
      threw := jobs[tick.position].AfterRun(tick.now, ok);
      OneJobChanged(tick.position);
      ticks := Without(ticks, index);
      activeRuns := activeRuns - 1;
    }
  }
}
