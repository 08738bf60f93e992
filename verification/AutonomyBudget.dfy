/** The autonomy budget: proactive messages per channel, bounded over an hour and over a day.
  *
  * The code keeps, per channel, only the acceptances of the last hour and day as of the last call. The
  * proofs relate these pruned lists to the full history of acceptances.
  */
module AutonomyBudgets {
  import opened Options
  import opened Sequences

  const HOUR_MS := 60 * 60_000
  const DAY_MS := 24 * 60 * 60_000

  datatype QuietHours = QuietHours(startHour: int, endHour: int)

  datatype Config = Config(maxPerHour: int, maxPerDay: int, quietHours: Option<QuietHours>)

  /** The timestamps kept for a channel. */
  datatype Channel = Channel(hourly: seq<int>, daily: seq<int>)

  /** The hour of the day in UTC, of a time in milliseconds since the epoch. */
  function HourOf(now: int): int {
    now / HOUR_MS % 24
  }

  predicate IsQuiet(config: Config, now: int) {
    match config.quietHours
    case None => false
    case Some(QuietHours(start, end)) =>
      var hour := HourOf(now);
      (start <= end && start <= hour < end) || (start > end && (hour >= start || hour < end))
  }

  /** The timestamps from `floor` on. */
  function Recent(ts: seq<int>, floor: int): seq<int> {
    if ts == [] then [] else (if ts[0] >= floor then [ts[0]] else []) + Recent(ts[1..], floor)
  }

  predicate Accepts(config: Config, ch: Channel, now: int) {
    && !IsQuiet(config, now)
    && |Recent(ch.hourly, now - HOUR_MS)| < config.maxPerHour
    && |Recent(ch.daily, now - DAY_MS)| < config.maxPerDay
  }

  /** A channel after one call of `allow`. */
  function AfterAllow(config: Config, ch: Channel, now: int): Channel {
    var more := if Accepts(config, ch, now) then [now] else [];
    Channel(Recent(ch.hourly, now - HOUR_MS) + more, Recent(ch.daily, now - DAY_MS) + more)
  }

  // ---- The class ------------------------------------------------------------------------------------

  /** A list of a saved state: its values, None for one that is no finite number; or something else. */
  datatype SavedList = List(values: seq<Option<int>>) | NotAList

  datatype BudgetState = BudgetState(hourly: map<string, SavedList>, daily: map<string, SavedList>)

  function Wrapped(ts: seq<int>): SavedList {
    List(seq(|ts|, i requires 0 <= i < |ts| => Some(ts[i])))
  }

  /** The timestamps an import takes from a list: the finite numbers. */
  function Finite(list: SavedList): seq<int> {
    if list.List? then Collect((v: Option<int>) => v, list.values) else []
  }

  function ListOf(lists: map<string, SavedList>, id: string): seq<int> {
    if id in lists then Finite(lists[id]) else []
  }

  /** What an import of this state gives a channel; without a state, nothing. */
  function Imported(state: Option<BudgetState>, id: string): Channel {
    if state.None? then Channel([], []) else Channel(ListOf(state.value.hourly, id), ListOf(state.value.daily, id))
  }

  /** A list saved and read again is the same list. */
  lemma {:induction false} WrappedIsFinite(ts: seq<int>)
    ensures Finite(Wrapped(ts)) == ts
  {
    if ts != [] {
      WrappedIsFinite(ts[1..]);
      assert Wrapped(ts).values[1..] == Wrapped(ts[1..]).values;
      assert ts == [ts[0]] + ts[1..];
    }
  }

  class AutonomyBudget {
    const config: Config
    var hourly: map<string, seq<int>>
    var daily: map<string, seq<int>>

    ghost function ChannelOf(id: string): Channel
      reads this
    {
      Channel(if id in hourly then hourly[id] else [], if id in daily then daily[id] else [])
    }

    constructor (config: Config)
      ensures this.config == config && forall id :: ChannelOf(id) == Channel([], [])
    {
      this.config, hourly, daily := config, map[], map[];
    }

    method Allow(channelId: string, now: int) returns (allowed: bool)
      modifies this
      ensures allowed == Accepts(config, old(ChannelOf(channelId)), now)
      ensures ChannelOf(channelId) == AfterAllow(config, old(ChannelOf(channelId)), now)
      ensures forall id :: id != channelId ==> ChannelOf(id) == old(ChannelOf(id))
    {
      var hourWindow, dayWindow := PruneChannel(channelId, now);
      var quiet := InQuietHours(now);
      if quiet {
        return false;
      }
      if |hourWindow| >= config.maxPerHour {
        return false;
      }
      if |dayWindow| >= config.maxPerDay {
        return false;
      }
      hourly, daily := hourly[channelId := hourWindow + [now]], daily[channelId := dayWindow + [now]];
      return true;
    }

    /** Keeps the last hour and the last day of a channel. */
    method PruneChannel(channelId: string, now: int) returns (hourWindow: seq<int>, dayWindow: seq<int>)
      modifies this
      ensures var ch := old(ChannelOf(channelId));
        hourWindow == Recent(ch.hourly, now - HOUR_MS) && dayWindow == Recent(ch.daily, now - DAY_MS)
      ensures ChannelOf(channelId) == Channel(hourWindow, dayWindow)
      ensures forall id :: id != channelId ==> ChannelOf(id) == old(ChannelOf(id))
    {
      hourWindow := KeepFrom(if channelId in hourly then hourly[channelId] else [], now - HOUR_MS);
      dayWindow := KeepFrom(if channelId in daily then daily[channelId] else [], now - DAY_MS);
      hourly, daily := hourly[channelId := hourWindow], daily[channelId := dayWindow];
    }

    method InQuietHours(now: int) returns (quiet: bool)
      ensures quiet == IsQuiet(config, now)
    {
      if config.quietHours.Some? {
        var hour := HourOf(now);
        var start, end := config.quietHours.value.startHour, config.quietHours.value.endHour;
        if start <= end && hour >= start && hour < end {
          return true;
        }
        if start > end && (hour >= start || hour < end) {
          return true;
        }
      }
      return false;
    }

    static method KeepFrom(ts: seq<int>, floor: int) returns (kept: seq<int>)
      ensures kept == Recent(ts, floor)
    {
      kept := [];
      for i := 0 to |ts|
        invariant kept + Recent(ts[i..], floor) == Recent(ts, floor)
      {
        assert ts[i..][1..] == ts[i + 1..];
        if ts[i] >= floor {
          kept := kept + [ts[i]];
        }
      }
    }

    /** What importing the exported state gives every channel is what it has. */
    method ExportState() returns (state: BudgetState)
      ensures forall id :: Imported(Some(state), id) == ChannelOf(id)
    {
      state := BudgetState(map id | id in hourly :: Wrapped(hourly[id]), map id | id in daily :: Wrapped(daily[id]));
      forall id ensures Imported(Some(state), id) == ChannelOf(id) {
        WrappedIsFinite(ChannelOf(id).hourly);
        WrappedIsFinite(ChannelOf(id).daily);
      }
    }

    /** Replaces everything; values that are no finite numbers, and lists that are none, are skipped. */
    method ImportState(state: Option<BudgetState>)
      modifies this
      ensures forall id :: ChannelOf(id) == Imported(state, id)
    {
      hourly, daily := map[], map[];
      if state.Some? {
        hourly := map id | id in state.value.hourly && state.value.hourly[id].List? :: Finite(state.value.hourly[id]);
        daily := map id | id in state.value.daily && state.value.daily[id].List? :: Finite(state.value.daily[id]);
      }
    }
  }

  // ---- Runs of one channel ------------------------------------------------------------------------------

  /** A call of `allow` at this time, or an export followed by an import into another budget. */
  datatype Event = Ask(now: int) | Reload

  /** A channel, all it has accepted, the time of the last call, and what pruning has taken from either list. */
  datatype Run = Run(channel: Channel, accepted: seq<int>, latest: Option<int>, lost: Channel)

  function Reloaded(ch: Channel): Channel {
    Channel(Finite(Wrapped(ch.hourly)), Finite(Wrapped(ch.daily)))
  }

  lemma ReloadKeeps(ch: Channel)
    ensures Reloaded(ch) == ch
  {
    WrappedIsFinite(ch.hourly);
    WrappedIsFinite(ch.daily);
  }

  function More(config: Config, run: Run, now: int): seq<int> {
    if Accepts(config, run.channel, now) then [now] else []
  }

  function Asked(config: Config, run: Run, now: int): Run {
    Run(AfterAllow(config, run.channel, now),
        run.accepted + More(config, run, now),
        Some(now),
        Channel(run.lost.hourly + Older(run.channel.hourly, now - HOUR_MS),
                run.lost.daily + Older(run.channel.daily, now - DAY_MS)))
  }

  function After(config: Config, es: seq<Event>): Run {
    if es == [] then Run(Channel([], []), [], None, Channel([], []))
    else
      var before := After(config, es[..|es| - 1]);
      match es[|es| - 1]
      case Reload => before.(channel := Reloaded(before.channel))
      case Ask(now) => Asked(config, before, now)
  }

  /** The timestamps before `floor`. */
  function Older(ts: seq<int>, floor: int): seq<int> {
    if ts == [] then [] else (if ts[0] < floor then [ts[0]] else []) + Older(ts[1..], floor)
  }

  /** No acceptance that pruning has taken lies in the hour or the day that ends now. */
  predicate NothingLost(run: Run, now: int) {
    Recent(run.lost.hourly, now - HOUR_MS) == [] && Recent(run.lost.daily, now - DAY_MS) == []
  }

  /** At every call that accepted, nothing was lost. */
  predicate Faithful(config: Config, es: seq<Event>) {
    es == [] ||
    (var n := |es| - 1;
     && Faithful(config, es[..n])
     && (es[n].Ask? && Accepts(config, After(config, es[..n]).channel, es[n].now) ==> NothingLost(After(config, es[..n]), es[n].now)))
  }

  /** The clock never goes back from one call to the next. */
  predicate Steady(es: seq<Event>) {
    es == [] || (var n := |es| - 1; Steady(es[..n]) && (es[n].Ask? ==> NotBefore(es[..n], es[n].now)))
  }

  predicate NotBefore(es: seq<Event>, now: int) {
    forall i :: 0 <= i < |es| && es[i].Ask? ==> es[i].now <= now
  }

  function CountIn(ts: seq<int>, from: int, to: int): nat {
    if ts == [] then 0 else CountIn(ts[..|ts| - 1], from, to) + if from <= ts[|ts| - 1] <= to then 1 else 0
  }

  lemma {:induction false} RecentConcat(a: seq<int>, b: seq<int>, floor: int)
    ensures Recent(a + b, floor) == Recent(a, floor) + Recent(b, floor)
  {
    if a == [] {
      assert a + b == b;
    } else {
      assert (a + b)[1..] == a[1..] + b;
      RecentConcat(a[1..], b, floor);
      Regroup(if a[0] >= floor then [a[0]] else [], Recent(a[1..], floor), Recent(b, floor));
    }
  }

  ghost predicate Bounded(accepted: seq<int>, width: int, max: int) {
    forall from :: WindowOk(accepted, from, width, max)
  }

  predicate WindowOk(accepted: seq<int>, from: int, width: int, max: int) {
    CountIn(accepted, from, from + width) <= if max < 0 then 0 else max
  }

  // ---- What is kept and what is lost make up the history ---------------------------------------------------

  predicate SplitAt(kept: seq<int>, lost: seq<int>, accepted: seq<int>, floor: int) {
    |Recent(accepted, floor)| == |Recent(kept, floor)| + |Recent(lost, floor)|
  }

  ghost predicate Splits(kept: seq<int>, lost: seq<int>, accepted: seq<int>) {
    forall floor :: SplitAt(kept, lost, accepted, floor)
  }

  lemma {:induction false} PruneSplits(ts: seq<int>, floor: int, later: int)
    ensures |Recent(ts, later)| == |Recent(Recent(ts, floor), later)| + |Recent(Older(ts, floor), later)|
  {
    if ts != [] {
      PruneSplits(ts[1..], floor, later);
      RecentConcat(if ts[0] >= floor then [ts[0]] else [], Recent(ts[1..], floor), later);
      RecentConcat(if ts[0] < floor then [ts[0]] else [], Older(ts[1..], floor), later);
    }
  }

  lemma AskSplits(kept: seq<int>, lost: seq<int>, accepted: seq<int>, floor: int, more: seq<int>)
    requires Splits(kept, lost, accepted)
    ensures Splits(Recent(kept, floor) + more, lost + Older(kept, floor), accepted + more)
  {
    forall later ensures SplitAt(Recent(kept, floor) + more, lost + Older(kept, floor), accepted + more, later) {
      assert SplitAt(kept, lost, accepted, later);
      PruneSplits(kept, floor, later);
      RecentConcat(Recent(kept, floor), more, later);
      RecentConcat(lost, Older(kept, floor), later);
      RecentConcat(accepted, more, later);
    }
  }

  ghost predicate Accounted(run: Run) {
    Splits(run.channel.hourly, run.lost.hourly, run.accepted) && Splits(run.channel.daily, run.lost.daily, run.accepted)
  }

  /** With any clock, exports and imports in between. */
  lemma {:induction false} RunIsAccounted(config: Config, es: seq<Event>)
    ensures Accounted(After(config, es))
  {
    if es == [] {
      assert forall floor :: SplitAt([], [], [], floor);
    } else {
      var n := |es| - 1;
      RunIsAccounted(config, es[..n]);
      var before := After(config, es[..n]);
      if es[n].Ask? {
        var now := es[n].now;
        AskSplits(before.channel.hourly, before.lost.hourly, before.accepted, now - HOUR_MS, More(config, before, now));
        AskSplits(before.channel.daily, before.lost.daily, before.accepted, now - DAY_MS, More(config, before, now));
      } else {
        ReloadKeeps(before.channel);
      }
    }
  }

  // ---- When the pruned lists answer as the history would -----------------------------------------------------

  function WithLimits(perHour: int, perDay: int): Config {
    Config(perHour, perDay, None)
  }

  /** With these limits the pruned lists give the answer of the full history. */
  predicate AnswersAlike(run: Run, now: int, perHour: int, perDay: int) {
    Accepts(WithLimits(perHour, perDay), run.channel, now)
    == Accepts(WithLimits(perHour, perDay), Channel(run.accepted, run.accepted), now)
  }

  /** The exact condition, for any clock: the next answer is the one of the full history under all limits if
    * and only if nothing that was pruned lies in its windows. */
  lemma AnswersAreExact(config: Config, es: seq<Event>, now: int)
    ensures var run := After(config, es);
      NothingLost(run, now) <==> forall perHour, perDay :: AnswersAlike(run, now, perHour, perDay)
  {
    var run := After(config, es);
    RunIsAccounted(config, es);
    assert SplitAt(run.channel.hourly, run.lost.hourly, run.accepted, now - HOUR_MS);
    assert SplitAt(run.channel.daily, run.lost.daily, run.accepted, now - DAY_MS);
    var hour, day := |Recent(run.accepted, now - HOUR_MS)|, |Recent(run.accepted, now - DAY_MS)|;
    if forall perHour, perDay :: AnswersAlike(run, now, perHour, perDay) {
      assert AnswersAlike(run, now, hour, day + 1);
      assert AnswersAlike(run, now, hour + 1, day);
    }
  }

  /** All of these come before, and all of those not before, this time. */
  predicate AllBefore(ts: seq<int>, floor: int) {
    forall i :: 0 <= i < |ts| ==> ts[i] < floor
  }

  predicate AllFrom(ts: seq<int>, floor: int) {
    forall i :: 0 <= i < |ts| ==> ts[i] >= floor
  }

  lemma {:induction false} RecentOfBefore(ts: seq<int>, floor: int)
    requires AllBefore(ts, floor)
    ensures Recent(ts, floor) == []
  {
    if ts != [] {
      RecentOfBefore(ts[1..], floor);
    }
  }

  lemma {:induction false} RecentOfFrom(ts: seq<int>, floor: int)
    requires AllFrom(ts, floor)
    ensures Recent(ts, floor) == ts
  {
    if ts != [] {
      RecentOfFrom(ts[1..], floor);
    }
  }

  lemma {:induction false} PrunedParts(ts: seq<int>, floor: int)
    ensures AllFrom(Recent(ts, floor), floor) && AllBefore(Older(ts, floor), floor)
  {
    if ts != [] {
      PrunedParts(ts[1..], floor);
    }
  }

  /** As of the last call, the kept list holds the window and the lost one what came before it. */
  predicate Cut(kept: seq<int>, lost: seq<int>, floor: int) {
    AllFrom(kept, floor) && AllBefore(lost, floor)
  }

  predicate CutAtLatest(run: Run) {
    if run.latest.None? then run.channel == run.lost == Channel([], []) && run.accepted == []
    else
      && Cut(run.channel.hourly, run.lost.hourly, run.latest.value - HOUR_MS)
      && Cut(run.channel.daily, run.lost.daily, run.latest.value - DAY_MS)
  }

  /** A later call moves the cut on. */
  lemma LaterCut(kept: seq<int>, lost: seq<int>, from: int, floor: int, more: seq<int>)
    requires Cut(kept, lost, from) && from <= floor && AllFrom(more, floor)
    ensures Cut(Recent(kept, floor) + more, lost + Older(kept, floor), floor)
  {
    PrunedParts(kept, floor);
  }

  lemma AskCuts(config: Config, run: Run, now: int)
    requires CutAtLatest(run) && (run.latest.Some? ==> run.latest.value <= now)
    ensures CutAtLatest(Asked(config, run, now))
  {
    var latest := if run.latest.Some? then run.latest.value else now;
    var more := More(config, run, now);
    LaterCut(run.channel.hourly, run.lost.hourly, latest - HOUR_MS, now - HOUR_MS, more);
    LaterCut(run.channel.daily, run.lost.daily, latest - DAY_MS, now - DAY_MS, more);
  }

  lemma SteadyCut(config: Config, es: seq<Event>)
    requires Steady(es)
    ensures CutAtLatest(After(config, es))
    ensures After(config, es).latest.Some? ==> exists i :: 0 <= i < |es| && es[i] == Ask(After(config, es).latest.value)
  {
    if es != [] {
      var n := |es| - 1;
      SteadyCut(config, es[..n]);
      var before := After(config, es[..n]);
      if before.latest.Some? {
        var i :| 0 <= i < n && es[..n][i] == Ask(before.latest.value);
        assert es[i] == Ask(before.latest.value);
      }
      if es[n].Ask? {
        AskCuts(config, before, es[n].now);
        assert es[n] == Ask(es[n].now);
      } else {
        ReloadKeeps(before.channel);
      }
    }
  }

  lemma {:induction false} CountBetween(ts: seq<int>, from: int, to: int)
    requires from <= to
    ensures |Recent(ts, from)| == |Recent(ts, to)| + CountIn(ts, from, to - 1)
  {
    if ts != [] {
      var n := |ts| - 1;
      CountBetween(ts[..n], from, to);
      assert ts == ts[..n] + [ts[n]];
      RecentConcat(ts[..n], [ts[n]], from);
      RecentConcat(ts[..n], [ts[n]], to);
    }
  }

  lemma LostBetween(kept: seq<int>, lost: seq<int>, accepted: seq<int>, from: int, to: int)
    requires Splits(kept, lost, accepted) && Cut(kept, lost, to) && from <= to
    ensures |Recent(lost, from)| == CountIn(accepted, from, to - 1)
  {
    assert SplitAt(kept, lost, accepted, from) && SplitAt(kept, lost, accepted, to);
    RecentOfFrom(kept, from);
    RecentOfFrom(kept, to);
    RecentOfBefore(lost, to);
    CountBetween(accepted, from, to);
  }

  /** The first call for which the clock goes back finds nothing lost if and only if no acceptance lies between
    * the start of its window and the start of the window of the call before. */
  lemma BackwardCallIsExact(config: Config, es: seq<Event>, now: int)
    requires Steady(es) && After(config, es).latest.Some? && now <= After(config, es).latest.value
    ensures var run := After(config, es); var latest := run.latest.value;
      NothingLost(run, now)
      <==> CountIn(run.accepted, now - HOUR_MS, latest - HOUR_MS - 1) == 0 && CountIn(run.accepted, now - DAY_MS, latest - DAY_MS - 1) == 0
  {
    var run := After(config, es);
    var latest := run.latest.value;
    RunIsAccounted(config, es);
    SteadyCut(config, es);
    LostBetween(run.channel.hourly, run.lost.hourly, run.accepted, now - HOUR_MS, latest - HOUR_MS);
    LostBetween(run.channel.daily, run.lost.daily, run.accepted, now - DAY_MS, latest - DAY_MS);
  }

  /** A call not before all earlier ones finds nothing lost. */
  lemma ForwardCallLosesNothing(config: Config, es: seq<Event>, now: int)
    requires Steady(es) && NotBefore(es, now)
    ensures NothingLost(After(config, es), now)
  {
    var run := After(config, es);
    SteadyCut(config, es);
    if run.latest.Some? {
      var i :| 0 <= i < |es| && es[i] == Ask(run.latest.value);
      assert es[i].now <= now;
      RecentOfBefore(run.lost.hourly, now - HOUR_MS);
      RecentOfBefore(run.lost.daily, now - DAY_MS);
    }
  }

  lemma {:induction false} SteadyIsFaithful(config: Config, es: seq<Event>)
    requires Steady(es)
    ensures Faithful(config, es)
  {
    if es != [] {
      var n := |es| - 1;
      SteadyIsFaithful(config, es[..n]);
      if es[n].Ask? {
        ForwardCallLosesNothing(config, es[..n], es[n].now);
      }
    }
  }

  // ---- The bound --------------------------------------------------------------------------------------------

  /** All acceptances in a window that reaches `now` are among those kept at `now`. */
  lemma {:induction false} KeptCoversWindow(accepted: seq<int>, floor: int, from: int, to: int)
    requires floor <= from
    ensures CountIn(accepted, from, to) <= |Recent(accepted, floor)|
  {
    if accepted != [] {
      var n := |accepted| - 1;
      KeptCoversWindow(accepted[..n], floor, from, to);
      RecentConcat(accepted[..n], [accepted[n]], floor);
      assert accepted == accepted[..n] + [accepted[n]];
    }
  }

  lemma BoundedAfter(accepted: seq<int>, width: int, max: int, now: int)
    requires Bounded(accepted, width, max) && |Recent(accepted, now - width)| < max
    ensures Bounded(accepted + [now], width, max)
  {
    forall from
      ensures WindowOk(accepted + [now], from, width, max)
    {
      assert (accepted + [now])[..|accepted|] == accepted;
      assert WindowOk(accepted, from, width, max);
      if from <= now <= from + width {
        KeptCoversWindow(accepted, now - width, from, from + width);
      }
    }
  }

  ghost predicate Sound(config: Config, run: Run) {
    && Bounded(run.accepted, HOUR_MS, config.maxPerHour)
    && Bounded(run.accepted, DAY_MS, config.maxPerDay)
    && forall i :: 0 <= i < |run.accepted| ==> !IsQuiet(config, run.accepted[i])
  }

  lemma AskKeepsSound(config: Config, run: Run, now: int)
    requires Sound(config, run) && Accounted(run)
    requires Accepts(config, run.channel, now) ==> NothingLost(run, now)
    ensures Sound(config, Asked(config, run, now))
  {
    if Accepts(config, run.channel, now) {
      assert SplitAt(run.channel.hourly, run.lost.hourly, run.accepted, now - HOUR_MS);
      assert SplitAt(run.channel.daily, run.lost.daily, run.accepted, now - DAY_MS);
      BoundedAfter(run.accepted, HOUR_MS, config.maxPerHour, now);
      BoundedAfter(run.accepted, DAY_MS, config.maxPerDay, now);
    } else {
      assert run.accepted + [] == run.accepted;
    }
  }

  lemma {:induction false} FaithfulRunIsSound(config: Config, es: seq<Event>)
    requires Faithful(config, es)
    ensures Sound(config, After(config, es))
  {
    if es != [] {
      var n := |es| - 1;
      FaithfulRunIsSound(config, es[..n]);
      RunIsAccounted(config, es[..n]);
      if es[n].Ask? {
        AskKeepsSound(config, After(config, es[..n]), es[n].now);
      }
    }
  }

  /** While no accepting call finds anything lost, with any clock and with reloads in between: no closed hour
    * holds more acceptances than allowed per hour, no closed day more than allowed per day, and none falls in
    * quiet hours. */
  lemma WindowsAreBounded(config: Config, es: seq<Event>, from: int)
    requires Faithful(config, es)
    ensures var accepted := After(config, es).accepted;
            && WindowOk(accepted, from, HOUR_MS, config.maxPerHour)
            && WindowOk(accepted, from, DAY_MS, config.maxPerDay)
            && forall i :: 0 <= i < |accepted| ==> !IsQuiet(config, accepted[i])
  {
    FaithfulRunIsSound(config, es);
  }

  /** In particular with a clock that never goes back: its windows are bounded, and every answer is the one of
    * the full history. */
  lemma SteadyClockSuffices(config: Config, es: seq<Event>, now: int)
    requires Steady(es + [Ask(now)])
    ensures Faithful(config, es + [Ask(now)])
    ensures var run := After(config, es);
            Accepts(config, run.channel, now) == Accepts(config, Channel(run.accepted, run.accepted), now)
  {
    assert (es + [Ask(now)])[..|es|] == es;
    SteadyIsFaithful(config, es + [Ask(now)]);
    ForwardCallLosesNothing(config, es, now);
    AnswersAreExact(config, es, now);
    assert AnswersAlike(After(config, es), now, config.maxPerHour, config.maxPerDay);
  }

  /** Quiet are, around the clock, the hours from the first one up to the last, not included; over midnight when
    * the last is the smaller number. Hours are those of UTC. */
  lemma QuietHoursAreExact(config: Config, now: int)
    requires config.quietHours.Some?
    requires 0 <= config.quietHours.value.startHour <= 24 && 0 <= config.quietHours.value.endHour <= 24
    ensures var QuietHours(start, end) := config.quietHours.value; var stop := if end < start then end + 24 else end;
      IsQuiet(config, now) <==> exists t :: start <= t < stop && IsAtHour(now, t)
  {
    var QuietHours(start, end) := config.quietHours.value;
    var hour := now / 3_600_000 % 24;
    if IsQuiet(config, now) {
      var t := if hour >= start then hour else hour + 24;
      assert IsAtHour(now, t);
    }
  }

  /** The clock shows this hour, counted on over midnight. */
  predicate IsAtHour(now: int, t: int) {
    now / 3_600_000 % 24 == t % 24
  }

  lemma {:induction false} AcceptedWhenAsked(config: Config, es: seq<Event>, now: int)
    requires NotBefore(es, now)
    ensures forall i :: 0 <= i < |After(config, es).accepted| ==> After(config, es).accepted[i] <= now
  {
    if es != [] {
      var n := |es| - 1;
      forall i | 0 <= i < n && es[..n][i].Ask? ensures es[..n][i].now <= now {
        assert es[i].now <= now;
      }
      AcceptedWhenAsked(config, es[..n], now);
    }
  }

  lemma {:induction false} RecentIsCount(ts: seq<int>, floor: int, now: int)
    requires forall i :: 0 <= i < |ts| ==> ts[i] <= now
    ensures |Recent(ts, floor)| == CountIn(ts, floor, now)
  {
    if ts != [] {
      var n := |ts| - 1;
      RecentIsCount(ts[..n], floor, now);
      RecentConcat(ts[..n], [ts[n]], floor);
      assert ts == ts[..n] + [ts[n]];
    }
  }

  /** With a clock that never goes back, a call is accepted exactly outside quiet hours, while the hour and the
    * day that end now hold fewer acceptances than allowed. */
  lemma SteadyAnswerIsExact(config: Config, es: seq<Event>, now: int)
    requires Steady(es + [Ask(now)])
    ensures var run := After(config, es);
      Accepts(config, run.channel, now) <==>
        && !IsQuiet(config, now)
        && CountIn(run.accepted, now - 3_600_000, now) < config.maxPerHour
        && CountIn(run.accepted, now - 86_400_000, now) < config.maxPerDay
  {
    assert (es + [Ask(now)])[..|es|] == es;
    SteadyClockSuffices(config, es, now);
    AcceptedWhenAsked(config, es, now);
    RecentIsCount(After(config, es).accepted, now - HOUR_MS, now);
    RecentIsCount(After(config, es).accepted, now - DAY_MS, now);
  }

  lemma OneMoreCall(config: Config, es: seq<Event>, now: int)
    ensures After(config, es + [Ask(now)]) == Asked(config, After(config, es), now)
  {
    assert (es + [Ask(now)])[..|es|] == es;
  }

  const TEN := 10 * HOUR_MS
  const TWELVE := 12 * HOUR_MS

  /** One message an hour, and none from 12 to 13. */
  function OneAnHour(): Config {
    Config(1, 5, Some(QuietHours(12, 13)))
  }

  lemma TenThenTwelve()
    ensures After(OneAnHour(), [Ask(TEN), Ask(TWELVE)]) == Run(Channel([], [TEN]), [TEN], Some(TWELVE), Channel([TEN], []))
  {
    OneMoreCall(OneAnHour(), [], TEN);
    assert [] + [Ask(TEN)] == [Ask(TEN)];
    assert After(OneAnHour(), [Ask(TEN)]) == Run(Channel([TEN], [TEN]), [TEN], Some(TEN), Channel([], []));
    OneMoreCall(OneAnHour(), [Ask(TEN)], TWELVE);
    assert [Ask(TEN)] + [Ask(TWELVE)] == [Ask(TEN), Ask(TWELVE)];
    assert Recent([TEN], TWELVE - HOUR_MS) == [] && Recent([TEN], TWELVE - DAY_MS) == [TEN];
    assert Older([TEN], TWELVE - HOUR_MS) == [TEN] && Older([TEN], TWELVE - DAY_MS) == [];
  }

  /** A clock that goes back breaks the bound: at 10:00, at 12:00 in quiet hours, and at 10:00 again. The last
    * call finds an acceptance lost. */
  lemma BackwardClockBreaksBound()
    ensures var es := [Ask(TEN), Ask(TWELVE)];
            && !NothingLost(After(OneAnHour(), es), TEN)
            && CountIn(After(OneAnHour(), es + [Ask(TEN)]).accepted, TEN, TEN + HOUR_MS) == 2
  {
    var es := [Ask(TEN), Ask(TWELVE)];
    TenThenTwelve();
    OneMoreCall(OneAnHour(), es, TEN);
    assert Recent([TEN], TEN - HOUR_MS) == [TEN] && Recent([TEN], TEN - DAY_MS) == [TEN];
    assert Recent([], TEN - HOUR_MS) == [];
    assert After(OneAnHour(), es + [Ask(TEN)]).accepted == [TEN] + [TEN];
    assert ([TEN] + [TEN])[..1] == [TEN] && [TEN][..0] == [];
    assert CountIn([TEN], TEN, TEN + HOUR_MS) == 1;
  }
}
