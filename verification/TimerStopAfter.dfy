/** Stopping after a given tick. */
module TimerStopAfter {
  import opened Wrappers
  import opened TimerModel
  import opened TimerRuns
  import opened TimerEvents
  import TimerSync

  /** Tick k is set to be the last one, and neither it nor a later one has been started. */
  ghost predicate Armed(m: Master, k: int) {
    m.f.stopAfter == Some(k) && forall j | k <= j :: StartTick(j) !in m.events
  }

  /** Tick k has been started, no later one, and nobody wants another one. */
  ghost predicate Stopping(m: Master, k: int) {
    && StartTick(k) in m.events && (forall j | k < j :: StartTick(j) !in m.events)
    && m.f.desired != RUNNING
  }

  /** Someone asks for the game to go on: a start command here or at a slave, the echo of an earlier
      one, or a due schedule. */
  predicate Restarts(f: Fields, step: Step) {
    match step
    case StartCommand(_) => true
    case Heard(msg) => msg == Message(DesiredState, Name(RUNNING))
    case Echo(msg) => msg == Message(DesiredState, Name(RUNNING))
    case CheckTime(now, _) => ScheduleDue(f, now)
    case _ => false
  }

  /** The step leaves an armed stop at k as it is. */
  predicate LeavesStop(step: Step, k: int) {
    match step
    case StopAfterCommand(last) => last == Some(k)
    case Heard(msg) => msg.key == StopAfterRound ==> msg.value == Number(k)
    case Echo(msg) => msg.key == StopAfterRound ==> msg.value == Number(k)
    case _ => true
  }

  /** Until tick k is started the stop is left alone, and from then on nobody restarts. */
  predicate Undisturbed(m: Master, step: Step, k: int) {
    if StartTick(k) in m.events then !Restarts(m.f, step) else LeavesStop(step, k)
  }

  ghost predicate UndisturbedRun(start: World, steps: seq<Step>, k: int)
    decreases |steps|
  {
    steps == [] ||
    (Undisturbed(start.m, steps[0], k) && UndisturbedRun(Next(start, steps[0]), steps[1..], k))
  }

  // ----- tick numbers -----

  ghost predicate Known(m: Master, tick: int) {
    tick == 0 || StartTick(tick) in m.events
  }

  /** The tick number the master holds, and every one it ever published, is 0 or that of a tick that was
      started; so is then every number it can hear. */
  ghost predicate TicksKnown(m: Master) {
    && Known(m, m.f.tick)
    && forall msg | msg in m.redis.published && msg.key == CurrentRound :: msg.value.Number? && Known(m, msg.value.n)
  }

  /** The tick number after a step. */
  lemma TickAfter(w: World, step: Step)
    requires Enabled(w, step)
    ensures Act(w.m, step).f.tick ==
            if Opening(w.m.f, step).Some? then w.m.f.tick + 1
            else if step.Echo? && step.msg.key == CurrentRound then step.msg.value.n
            else w.m.f.tick
  {
    var m := w.m;
    match step
    case CheckTime(now, now2) =>
      if Opening(m.f, step).Some? {
        CheckStartsNext(m, now, now2);
      } else if m.f.state == RUNNING && Truthy(m.f.tickEnd) && now >= m.f.tickEnd.value {
        HaltEffect(m, now);
      }
    case StartCommand(now) => if m.f.state != RUNNING { StartStartsNext(m, now); }
    case _ =>
  }

  lemma StepKeepsTicksKnown(w: World, step: Step)
    requires TicksKnown(w.m) && Enabled(w, step)
    ensures TicksKnown(Next(w, step).m)
  {
    var m, m' := w.m, Next(w, step).m;
    StepEvents(m, step);
    TickAfter(w, step);
    assert Known(m', m'.f.tick);
    forall msg | msg in m'.redis.published && msg.key == CurrentRound
      ensures msg.value.Number? && Known(m', msg.value.n)
    {
      TimerSync.PublishedAfter(m, step, msg);
    }
  }

  lemma {:induction false} RunKeepsTicksKnown(start: World, steps: seq<Step>, end: World)
    requires TicksKnown(start.m) && Reaches(start, steps, end)
    ensures TicksKnown(end.m)
    decreases |steps|
  {
    if steps != [] {
      StepKeepsTicksKnown(start, steps[0]);
      RunKeepsTicksKnown(Next(start, steps[0]), steps[1..], end);
    }
  }

  // ----- until tick k -----

  /** A tick opening before k leaves the stop armed; tick k opening takes it and stops the game. */
  lemma OpeningStop(f: Fields, start: int, k: int)
    requires 0 < k && f.stopAfter == Some(k)
    ensures var f' := TickOpened(NextTick(f, start));
            if f.tick + 1 == k then f'.desired == STOPPED else f'.stopAfter == Some(k)
    ensures var f' := TickOpened(NextTick(f, start).(state := RUNNING));
            if f.tick + 1 == k then f'.desired == STOPPED else f'.stopAfter == Some(k)
  {
  }

  lemma StartStop(m: Master, now: int, k: int)
    requires 0 < k && m.f.stopAfter == Some(k) && m.f.state != RUNNING
    ensures var f' := Start(m, now).f;
            if m.f.tick + 1 == k then f'.desired == STOPPED else f'.stopAfter == Some(k)
  {
    StartEffect(m, now);
    OpeningStop(m.f.(desired := RUNNING), now, k);
  }

  lemma CheckStop(m: Master, now: int, now2: int, k: int)
    requires 0 < k && m.f.stopAfter == Some(k)
    ensures var f' := Check(m, now, now2).f;
            if Opening(m.f, CheckTime(now, now2)).Some? && m.f.tick + 1 == k then f'.desired == STOPPED
            else f'.stopAfter == Some(k)
  {
    if m.f.state == RUNNING && Truthy(m.f.tickEnd) && now >= m.f.tickEnd.value {
      if m.f.desired == RUNNING {
        ContinueEffect(m, now);
        OpeningStop(m.f, NextStart(m.f.tickEnd.value, now), k);
      } else {
        HaltEffect(m, now);
      }
    } else if m.f.state != RUNNING && m.f.desired == RUNNING {
      StartStop(m, now2, k);
    } else if ScheduleDue(m.f, now) {
      StartStop(m.(f := m.f.(startAt := None)), now2, k);
    }
  }

  lemma StepStop(m: Master, step: Step, k: int)
    requires 0 < k && m.f.stopAfter == Some(k) && LeavesStop(step, k)
    ensures var f' := Act(m, step).f;
            if Opening(m.f, step).Some? && m.f.tick + 1 == k then f'.desired == STOPPED else f'.stopAfter == Some(k)
  {
    match step
    case CheckTime(now, now2) => CheckStop(m, now, now2, k);
    case StartCommand(now) => if m.f.state != RUNNING { StartStop(m, now, k); }
    case _ =>
  }

  lemma StepWhileArmed(w: World, step: Step, k: int)
    requires 0 < k && Armed(w.m, k) && TicksKnown(w.m) && LeavesStop(step, k)
    ensures Armed(Next(w, step).m, k) || Stopping(Next(w, step).m, k)
  {
    assert w.m.f.tick < k;
    StepEvents(w.m, step);
    StepStop(w.m, step, k);
  }

  // ----- from tick k on -----

  lemma StepStaysHalting(m: Master, step: Step)
    requires m.f.desired != RUNNING && !Restarts(m.f, step)
    ensures Opening(m.f, step).None? && Act(m, step).f.desired != RUNNING
  {
    if step.CheckTime? && m.f.state == RUNNING && Truthy(m.f.tickEnd) && step.now >= m.f.tickEnd.value {
      HaltEffect(m, step.now);
    }
  }

  lemma RestartedWants(m: Master, step: Step)
    requires m.f.desired != RUNNING && Restarts(m.f, step)
    ensures Opening(m.f, step).Some? || Act(m, step).f.desired == RUNNING
  {
  }

  /** After tick k was started, a step leaves the game stopping at k if nobody restarts, and while tick k
      is the current one only then. */
  lemma StepWhileStopping(w: World, step: Step, k: int)
    requires Stopping(w.m, k)
    ensures !Restarts(w.m.f, step) ==> Stopping(Next(w, step).m, k)
    ensures w.m.f.tick == k && Restarts(w.m.f, step) ==> !Stopping(Next(w, step).m, k)
  {
    StepEvents(w.m, step);
    if Restarts(w.m.f, step) {
      RestartedWants(w.m, step);
    } else {
      StepStaysHalting(w.m, step);
    }
  }

  /** Once the game halted after tick k, exactly a start command or a due schedule starts tick k + 1 in
      one step. */
  lemma OnlyRestartsReopen(w: World, step: Step, k: int)
    requires Stopping(w.m, k) && w.m.f.tick == k && w.m.f.state != RUNNING
    ensures StartTick(k + 1) in Next(w, step).m.events <==>
            step.StartCommand? || (step.CheckTime? && ScheduleDue(w.m.f, step.now))
  {
    StepEvents(w.m, step);
  }

  // ----- whole runs -----

  lemma {:induction false} RunStopsAfter(start: World, steps: seq<Step>, end: World, k: int)
    requires 0 < k && TicksKnown(start.m) && (Armed(start.m, k) || Stopping(start.m, k))
    requires Reaches(start, steps, end) && UndisturbedRun(start, steps, k)
    ensures Armed(end.m, k) || Stopping(end.m, k)
    decreases |steps|
  {
    if steps != [] {
      if Armed(start.m, k) {
        StepWhileArmed(start, steps[0], k);
      } else {
        StepWhileStopping(start, steps[0], k);
      }
      StepKeepsTicksKnown(start, steps[0]);
      RunStopsAfter(Next(start, steps[0]), steps[1..], end, k);
    }
  }

  /** Once the stop is set for a tick k still to come and is left alone, no undisturbed run starts
      tick k + 1, whatever the master hears and when. From the start of tick k on nobody wants another,
      and a check that ends a tick leaves a timer that is not RUNNING. */
  lemma StopsAfterTick(tickDuration: int, before: seq<Step>, w: World, k: int, steps: seq<Step>, w': World)
    requires Reaches(Begin(tickDuration), before, w) && 0 < k && Armed(w.m, k)
    requires Reaches(w, steps, w') && UndisturbedRun(w, steps, k)
    ensures forall j | k < j :: StartTick(j) !in w'.m.events
    ensures w'.m.f.tick <= k
    ensures StartTick(k) in w'.m.events ==> w'.m.f.desired != RUNNING
    ensures StartTick(k) in w'.m.events && w'.m.f.state == RUNNING && Truthy(w'.m.f.tickEnd) ==>
              forall now, now2 | w'.m.f.tickEnd.value <= now :: Check(w'.m, now, now2).f.state != RUNNING
  {
    RunKeepsTicksKnown(Begin(tickDuration), before, w);
    RunKeepsTicksKnown(w, steps, w');
    RunStopsAfter(w, steps, w', k);
    if StartTick(k) in w'.m.events && w'.m.f.state == RUNNING && Truthy(w'.m.f.tickEnd) {
      forall now, now2 | w'.m.f.tickEnd.value <= now
        ensures Check(w'.m, now, now2).f.state != RUNNING
      {
        HaltEffect(w'.m, now);
      }
    }
  }

  /** The same for runs without outdated states and tick numbers: when tick k is over, the timer is not
      RUNNING. */
  lemma StopsWhenTickEnds(tickDuration: int, before: seq<Step>, w: World, k: int, steps: seq<Step>, w': World)
    requires Reaches(Begin(tickDuration), before, w) && TimelyRun(Begin(tickDuration), before) && 0 < k && Armed(w.m, k)
    requires Reaches(w, steps, w') && TimelyRun(w, steps) && UndisturbedRun(w, steps, k)
    ensures EndTick(k) in w'.m.events ==> w'.m.f.tick == k && w'.m.f.state != RUNNING
  {
    EventsInOrder(tickDuration, before, w);
    RunTold(w, steps, w');
    StopsAfterTick(tickDuration, before, w, k, steps, w');
    ToldTicks(w'.m, k);
  }

  /** Which ticks the listeners have seen start and end. */
  lemma ToldTicks(m: Master, k: int)
    requires Told(m)
    ensures StartTick(k) in m.events <==> 1 <= k <= m.f.tick
    ensures EndTick(k) in m.events <==> 1 <= k <= (if m.f.state == RUNNING then m.f.tick - 1 else m.f.tick)
  {
    ReplayAlternates(m.events);
    TickEventsMembers(m.events, StartTick(k));
    TickEventsMembers(m.events, EndTick(k));
    AlternationContains(m.f.tick, m.f.state == RUNNING, k);
  }

  // ----- a start command heard late -----

  /** While the last tick is open, a desired state that the master hears makes the check at its end start
      another tick exactly when it is RUNNING, no matter who wrote it and when. */
  lemma LateStartReopens(m: Master, k: int, s: CTFState, now: int, now2: int)
    requires Stopping(m, k) && m.f.tick == k && m.f.state == RUNNING && Truthy(m.f.tickEnd) && m.f.tickEnd.value <= now
    ensures var heard := m.(f := Listen(m.f, Message(DesiredState, Name(s))));
            StartTick(k + 1) in Check(heard, now, now2).events <==> s == RUNNING
  {
    StepEvents(m.(f := m.f.(desired := s)), CheckTime(now, now2));
  }

  /** Such a run exists: the game starts at 10 and is to stop after tick 2, which begins at 70; then the
      master hears its own first message about the desired state, and tick 3 begins at 130. */
  lemma LateStartIsPossible()
    ensures var w1 := Next(Begin(60), StartCommand(10));
            var w2 := Next(w1, StopAfterCommand(Some(2)));
            var w3 := Next(w2, CheckTime(70, 70));
            var late := Echo(Message(DesiredState, Name(RUNNING)));
            var w4 := Next(w3, late);
            && Enabled(Begin(60), StartCommand(10)) && Enabled(w1, StopAfterCommand(Some(2)))
            && Enabled(w2, CheckTime(70, 70)) && Enabled(w3, late) && Enabled(w4, CheckTime(130, 130))
            && Armed(w2.m, 2) && Stopping(w3.m, 2)
            && StartTick(3) in Next(w4, CheckTime(130, 130)).m.events
  {
    var w1 := Next(Begin(60), StartCommand(10));
    StartEffect(Fresh(60), 10);
    TimerSync.StartPublishes(Fresh(60), 10);
    assert FirstMessages(w1.m.f)[1] == Message(DesiredState, Name(RUNNING));
    LateStartFrom(w1);
  }

  lemma LateStartFrom(w1: World)
    requires w1.m.f == Fields(RUNNING, RUNNING, 1, Some(10), Some(70), 60, None, None) && w1.clock == 10
    requires w1.m.events == [StartCtf, StartTick(1), UpdateTimes]
    requires Message(DesiredState, Name(RUNNING)) in w1.m.redis.published
    ensures var w2 := Next(w1, StopAfterCommand(Some(2)));
            var w3 := Next(w2, CheckTime(70, 70));
            var late := Echo(Message(DesiredState, Name(RUNNING)));
            var w4 := Next(w3, late);
            && Enabled(w2, CheckTime(70, 70)) && Enabled(w3, late) && Enabled(w4, CheckTime(130, 130))
            && Armed(w2.m, 2) && Stopping(w3.m, 2)
            && StartTick(3) in Next(w4, CheckTime(130, 130)).m.events
  {
    OnUpdateTimesEffect(w1.m.(f := w1.m.f.(stopAfter := Some(2))));
    TimerSync.PublishedStays(w1.m, StopAfterCommand(Some(2)));
    LastTickOpens(Next(w1, StopAfterCommand(Some(2))).m);
  }

  lemma LastTickOpens(m: Master)
    requires m.f == Fields(RUNNING, RUNNING, 1, Some(10), Some(70), 60, Some(2), None)
    requires Armed(m, 2) && Message(DesiredState, Name(RUNNING)) in m.redis.published
    ensures var m' := Check(m, 70, 70);
            && Message(DesiredState, Name(RUNNING)) in m'.redis.published && Stopping(m', 2)
            && StartTick(3) in Check(m'.(f := m'.f.(desired := RUNNING)), 130, 130).events
  {
    var m' := Check(m, 70, 70);
    TimerSync.PublishedStays(m, CheckTime(70, 70));
    ContinueEffect(m, 70);
    StepEvents(m, CheckTime(70, 70));
    LateStartReopens(m', 2, RUNNING, 130, 130);
  }
}
