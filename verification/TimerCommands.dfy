/** What commands achieve: halting, punctual ticks, scheduled starts, and control from a slave. */
module TimerCommands {
  import opened Wrappers
  import opened TimerModel
  import opened TimerRuns
  import opened TimerRounds
  import TimerReplica

  // ----- halting -----

  /** A suspend or stop command lets the open tick finish, then halts in the state asked for and
      tells the listeners which; the next start opens the following tick, and announces the start of
      the game only after a stop. */
  lemma HaltTakesEffect(m: Master, now: int, later: int, suspend: bool)
    requires m.f.state == RUNNING && Truthy(m.f.tickEnd) && now >= m.f.tickEnd.value
    ensures var halted := Check(if suspend then Suspend(m) else Stop(m), now, now);
            && halted.f.state == (if suspend then SUSPENDED else STOPPED) && halted.f.tick == m.f.tick
            && halted.events == m.events + [UpdateTimes, EndTick(m.f.tick), if suspend then SuspendCtf else EndCtf, UpdateTimes]
            && Start(halted, later).f.tick == m.f.tick + 1
            && Start(halted, later).events == halted.events + (if suspend then [] else [StartCtf])
                                              + [StartTick(m.f.tick + 1), UpdateTimes]
  {
    var told := if suspend then Suspend(m) else Stop(m);
    OnUpdateTimesEffect(m.(f := m.f.(desired := if suspend then SUSPENDED else STOPPED)));
    HaltEffect(told, now);
    var halted := Check(told, now, now);
    assert halted.events == m.events + [UpdateTimes] + [EndTick(m.f.tick), if suspend then SuspendCtf else EndCtf, UpdateTimes];
    StartEffect(halted, later);
  }

  /** The tick set to be the last one is played to its end, then the game is over: not suspended, and
      nothing of the setting is left to stop a later game. */
  lemma LastTickEndsGame(m: Master, now: int, later: int)
    requires m.f.state == RUNNING && m.f.desired == RUNNING && 0 < m.f.tickTime && 0 <= m.f.tick
    requires m.f.stopAfter == Some(m.f.tick + 1)
    requires m.f.tickEnd.Some? && 0 < m.f.tickEnd.value <= now && now + m.f.tickTime <= later
    ensures var last := Check(m, now, now);
            var over := Check(last, later, later);
            && last.f.state == RUNNING && last.f.tick == m.f.tick + 1
            && over.f.state == STOPPED && over.f.desired == STOPPED && over.f.stopAfter == None && over.f.tick == m.f.tick + 1
            && over.events == last.events + [EndTick(m.f.tick + 1), EndCtf, UpdateTimes]
  {
    ContinueEffect(m, now);
    var last := Check(m, now, now);
    assert last.f.desired == STOPPED && last.f.tickEnd.value <= later;
    HaltEffect(last, later);
  }

  // ----- punctuality -----

  /** After a check the open tick is not over yet; with one-second ticks it may be just ending. */
  lemma CheckLeavesTickOpen(w: World, now: int, now2: int)
    requires RoundsInv(w) && Enabled(w, CheckTime(now, now2))
    ensures var f := Check(w.m, now, now2).f;
            f.state == RUNNING ==> f.tickEnd.Some? && now <= f.tickEnd.value && (1 < f.tickTime ==> now < f.tickEnd.value)
  {
    var f := w.m.f;
    if f.state == RUNNING && now >= f.tickEnd.value {
      if f.desired == RUNNING { ContinueEffect(w.m, now); } else { HaltEffect(w.m, now); }
    } else if f.state != RUNNING && f.desired == RUNNING {
      StartEffect(w.m, now2);
    } else if ScheduleDue(f, now) {
      StartEffect(w.m.(f := f.(startAt := None)), now2);
    }
  }

  /** Every check comes no later than a second after the end of the tick open at that moment. */
  ghost predicate Punctual(m: Master, times: seq<int>)
    decreases |times|
  {
    times == [] ||
    (m.f.tickEnd.Some? && times[0] <= m.f.tickEnd.value + 1 && Punctual(Check(m, times[0], times[0]), times[1..]))
  }

  function Checks(m: Master, times: seq<int>): Master
    decreases |times|
  {
    if times == [] then m else Checks(Check(m, times[0], times[0]), times[1..])
  }

  /** Ticks do not drift: while the game goes on and the checks are punctual, tick after tick starts
      exactly one tick time after the one before, however the checks fall. */
  lemma {:induction false} TicksDoNotDrift(m: Master, times: seq<int>)
    requires m.f.state == RUNNING && m.f.desired == RUNNING && m.f.stopAfter == None && 0 < m.f.tickTime
    requires m.f.tickStart.Some? && 0 < m.f.tickStart.value && m.f.tickEnd == Some(m.f.tickStart.value + m.f.tickTime)
    requires Punctual(m, times)
    ensures var f := Checks(m, times).f;
            && f.state == RUNNING && m.f.tick <= f.tick
            && f.tickStart == Some(m.f.tickStart.value + (f.tick - m.f.tick) * m.f.tickTime)
    decreases |times|
  {
    if times != [] {
      var next := Check(m, times[0], times[0]);
      if times[0] >= m.f.tickEnd.value {
        ContinueEffect(m, times[0]);
        assert next.f == NextTick(m.f, m.f.tickEnd.value);
      }
      TicksDoNotDrift(next, times[1..]);
      var done := Checks(m, times).f;
      NextSlot(done.tick - m.f.tick, next.f.tick - m.f.tick, m.f.tickTime);
    }
  }

  lemma NextSlot(total: int, first: int, time: int)
    ensures total * time == first * time + (total - first) * time
  {
  }

  // ----- scheduled starts -----

  /** Some check falls into the five seconds in which the schedule is due. */
  predicate HitsWindow(times: seq<int>, at: int) {
    exists i | 0 <= i < |times| :: at <= times[i] <= at + 4
  }

  lemma CheckNeverGoesBack(m: Master, now: int)
    ensures m.f.tick <= Check(m, now, now).f.tick
  {
    if m.f.state == RUNNING && Truthy(m.f.tickEnd) && now >= m.f.tickEnd.value {
      if m.f.desired == RUNNING { ContinueEffect(m, now); } else { HaltEffect(m, now); }
    } else if m.f.state != RUNNING {
      StartEffect(m, now);
      StartEffect(m.(f := m.f.(startAt := None)), now);
    }
  }

  lemma {:induction false} ChecksNeverGoBack(m: Master, times: seq<int>)
    ensures m.f.tick <= Checks(m, times).f.tick
    decreases |times|
  {
    if times != [] {
      CheckNeverGoesBack(m, times[0]);
      ChecksNeverGoBack(Check(m, times[0], times[0]), times[1..]);
    }
  }

  lemma HitsWindowFirst(times: seq<int>, at: int)
    requires times != []
    ensures HitsWindow(times, at) <==> at <= times[0] <= at + 4 || HitsWindow(times[1..], at)
  {
    if HitsWindow(times[1..], at) {
      var i :| 0 <= i < |times[1..]| && at <= times[1..][i] <= at + 4;
      assert times[i + 1] == times[1..][i];
    }
    assert forall i | 0 < i < |times| :: times[i] == times[1..][i - 1];
  }

  /** On a halted timer with a schedule checks at whatever times open a tick exactly when one of them
      falls into the window, and otherwise do nothing. */
  lemma {:induction false} ScheduleExact(m: Master, at: int, times: seq<int>)
    requires m.f.state != RUNNING && m.f.desired != RUNNING && m.f.startAt == Some(at) && at != 0
    ensures m.f.tick < Checks(m, times).f.tick <==> HitsWindow(times, at)
    ensures !HitsWindow(times, at) ==> Checks(m, times) == m
    decreases |times|
  {
    if times != [] {
      HitsWindowFirst(times, at);
      var next := Check(m, times[0], times[0]);
      if at <= times[0] <= at + 4 {
        StartEffect(m.(f := m.f.(startAt := None)), times[0]);
        ChecksNeverGoBack(next, times[1..]);
      } else {
        ScheduleExact(m, at, times[1..]);
      }
    }
  }

  /** Checks at most gap seconds apart that begin before the scheduled time and go on to it. */
  predicate Cross(times: seq<int>, gap: int, at: int) {
    && times != [] && times[0] < at <= times[|times| - 1]
    && forall i | 0 < i < |times| :: times[i - 1] <= times[i] <= times[i - 1] + gap
  }

  lemma {:induction false} CrossingHits(times: seq<int>, at: int)
    requires Cross(times, 5, at)
    ensures HitsWindow(times, at)
    decreases |times|
  {
    if at <= times[1] {
      assert at <= times[1] <= at + 4;
    } else {
      assert forall i | 0 < i < |times[1..]| :: times[1..][i] == times[i + 1] && times[1..][i - 1] == times[i];
      CrossingHits(times[1..], at);
      HitsWindowFirst(times, at);
    }
  }

  /** Five seconds are the largest distance between checks with which no schedule is ever missed. */
  lemma ScheduleMet(m: Master, at: int, gap: int)
    requires m.f.state != RUNNING && m.f.desired != RUNNING && m.f.startAt == Some(at) && at != 0
    ensures (forall times | Cross(times, gap, at) :: m.f.tick < Checks(m, times).f.tick) <==> gap <= 5
  {
    forall times | Cross(times, gap, at) && gap <= 5
      ensures m.f.tick < Checks(m, times).f.tick
    {
      assert Cross(times, 5, at);
      CrossingHits(times, at);
      ScheduleExact(m, at, times);
    }
    if 5 < gap {
      var missed := [at - 1, at + 5];
      assert Cross(missed, gap, at) && !HitsWindow(missed, at);
      ScheduleExact(m, at, missed);
    }
  }

  // ----- control from a slave -----

  function ListenAll(f: Fields, ms: seq<Message>): Fields
    decreases |ms|
  {
    if ms == [] then f else ListenAll(Listen(f, ms[0]), ms[1..])
  }

  /** The master's own version of a slave's command. */
  function OwnCommand(m: Master, c: TimerReplica.Command, now: int): Master {
    match c
    case StartNow => Start(m, now)
    case SuspendAfterTick => Suspend(m)
    case StopAfterThisTick => Stop(m)
    case TickTime(v) => SetTickTime(m, v)
    case StopAfter(last) => SetStopAfter(m, last)
    case StartAtTime(at) => SetStartAt(m, at)
  }

  /** A command given at a slave that holds the master's fields reaches the master: hearing its
      messages leaves the master with the slave's fields. Those are the fields the same command gives
      when made at the master, except that a start on a halted timer is only carried out at the
      master's next check. */
  lemma SlaveCommandReachesMaster(m: Master, c: TimerReplica.Command, now: int)
    requires c.TickTime? ==> c.v != 0
    ensures var told := TimerReplica.AfterCommand(m.f, c);
            var heard := ListenAll(m.f, Messages(told, TimerReplica.CommandKeys(m.f, c)));
            && heard == told
            && (OwnCommand(m, c, now).f == heard || (c.StartNow? && m.f.state != RUNNING))
            && (c.StartNow? && m.f.state != RUNNING ==> Check(m.(f := heard), now, now) == Start(m.(f := heard), now)
                                                        && Start(m.(f := heard), now) == OwnCommand(m, c, now))
  {
    var told := TimerReplica.AfterCommand(m.f, c);
    var keys := TimerReplica.CommandKeys(m.f, c);
    var ms := Messages(told, keys);
    if |keys| == 1 {
      HearOne(m.f, told, keys[0]);
      assert keys == [keys[0]];
    } else if |keys| == 2 {
      HearTwo(m.f, told, keys[0], keys[1]);
      assert keys == [keys[0], keys[1]];
    }
    if c.StartNow? && m.f.state != RUNNING {
      assert m.(f := told).f.(desired := RUNNING) == told;
    } else {
      CommandFields(m, c, now);
    }
  }

  lemma CommandFields(m: Master, c: TimerReplica.Command, now: int)
    requires !(c.StartNow? && m.f.state != RUNNING)
    ensures OwnCommand(m, c, now).f == TimerReplica.AfterCommand(m.f, c)
  {
    OnUpdateTimesEffect(m.(f := TimerReplica.AfterCommand(m.f, c)));
  }

  lemma HearOne(f: Fields, told: Fields, k: Key)
    ensures ListenAll(f, Messages(told, [k])) == Listen(f, Message(k, Encode(told, k)))
  {
    var ms := Messages(told, [k]);
    assert ms[1..] == [];
  }

  lemma HearTwo(f: Fields, told: Fields, j: Key, k: Key)
    ensures ListenAll(f, Messages(told, [j, k]))
            == Listen(Listen(f, Message(j, Encode(told, j))), Message(k, Encode(told, k)))
  {
    var ms := Messages(told, [j, k]);
    assert ms[1..] == Messages(told, [k]);
    HearOne(Listen(f, Message(j, Encode(told, j))), told, k);
  }
}
