/** What each operation of the master comes to, field by field, and what no operation does. */
module TimerOperations {
  import opened Wrappers
  import opened TimerModel
  import opened TimerRuns
  import opened TimerSync

  // ----- ticks -----

  /** Tick number tick + 1 is set to be the last. */
  predicate NextIsLast(f: Fields) {
    f.stopAfter == Some(f.tick + 1) && f.tick + 1 != 0
  }

  /** f' is f with the next tick open from start on for one tick time. If it is the last, the stop is
      taken and nobody wants another tick. */
  predicate NextOpen(f: Fields, start: int, f': Fields) {
    && f'.state == RUNNING && f'.tick == f.tick + 1
    && f'.tickStart == Some(start) && f'.tickEnd == Some(start + f.tickTime) && f'.tickTime == f.tickTime
    && f'.desired == (if NextIsLast(f) then STOPPED else RUNNING)
    && f'.stopAfter == (if NextIsLast(f) then None else f.stopAfter)
  }

  /** A start command opens the next tick at once, or while a tick is open only says that the game is to
      go on. A schedule stays as it is. */
  lemma StartOpensNow(m: Master, now: int)
    ensures m.f.state != RUNNING ==> NextOpen(m.f, now, Start(m, now).f) && Start(m, now).f.startAt == m.f.startAt
    ensures m.f.state == RUNNING ==> Start(m, now) == m.(f := m.f.(desired := RUNNING))
  {
    if m.f.state != RUNNING {
      StartEffect(m, now);
    }
  }

  /** A master just created waits with the tick time it was given: nothing is stored, and its first start
      opens tick 1 for that time. */
  lemma FreshMasterWaits(tickDuration: int, now: int, now2: int)
    ensures var m := Fresh(tickDuration);
            && m.redis == Redis(map[], [], map[]) && m.events == []
            && Check(m, now, now2) == m
            && Start(m, now).f == Fields(RUNNING, RUNNING, 1, Some(now), Some(now + tickDuration), tickDuration, None, None)
            && Start(m, now).events == [StartCtf, StartTick(1), UpdateTimes]
  {
    StartEffect(Fresh(tickDuration), now);
  }

  /** The open tick is over at time now. */
  predicate TickOver(f: Fields, now: int) {
    f.state == RUNNING && f.tickEnd.Some? && f.tickEnd.value != 0 && f.tickEnd.value <= now
  }

  /** What a check does. An open tick that is over is followed by the next, which starts at the old end,
      or now if that is more than a second ago, or by the halt that is wanted; a halted timer starts now if
      it is wanted to, or if its schedule came due at most four seconds ago, and then the schedule is used
      up; in all other cases nothing happens. */
  lemma CheckOutcome(m: Master, now: int, now2: int)
    ensures var f, f' := m.f, Check(m, now, now2).f;
            if TickOver(f, now) then
              if f.desired == RUNNING then
                NextOpen(f, if now <= f.tickEnd.value + 1 then f.tickEnd.value else now, f') && f'.startAt == f.startAt
              else f' == f.(state := f.desired)
            else if f.state != RUNNING && f.desired == RUNNING then
              NextOpen(f, now2, f') && f'.startAt == f.startAt
            else if f.state != RUNNING && f.startAt.Some? && f.startAt.value != 0 && 0 <= now - f.startAt.value < 5 then
              NextOpen(f, now2, f') && f'.startAt == None
            else Check(m, now, now2) == m
  {
    if TickOver(m.f, now) {
      if m.f.desired == RUNNING { ContinueEffect(m, now); } else { HaltEffect(m, now); }
    } else if m.f.state != RUNNING {
      StartOpensNow(m, now2);
      StartOpensNow(m.(f := m.f.(startAt := None)), now2);
    }
  }

  // ----- settings -----

  /** The commands that set something set that and nothing else, except that a new tick time also moves
      the end of a tick that has a start, open or not. */
  lemma SettingsSet(m: Master, v: int, last: Option<int>, at: Option<int>)
    ensures Suspend(m).f == m.f.(desired := SUSPENDED) && Stop(m).f == m.f.(desired := STOPPED)
    ensures SetStopAfter(m, last).f == m.f.(stopAfter := last)
    ensures SetStartAt(m, at).f == m.f.(startAt := at)
    ensures var f := m.f;
            SetTickTime(m, v).f ==
            if v == f.tickTime then f
            else if f.tickStart.Some? && f.tickStart.value != 0 then
              f.(tickTime := v, tickEnd := Some(f.tickStart.value + v))
            else f.(tickTime := v)
  {
    OnUpdateTimesEffect(m.(f := m.f.(desired := SUSPENDED)));
    OnUpdateTimesEffect(m.(f := m.f.(desired := STOPPED)));
    OnUpdateTimesEffect(m.(f := m.f.(stopAfter := last)));
    OnUpdateTimesEffect(m.(f := m.f.(startAt := at)));
    OnUpdateTimesEffect(m.(f := WithTickTime(m.f, v)));
  }

  /** A setting that is no change writes nothing; every other command tells all times. */
  lemma ChangesAreTold(m: Master, v: int, last: Option<int>, at: Option<int>)
    ensures Publishes(m, Suspend(m)) && Publishes(m, Stop(m))
    ensures if v == m.f.tickTime then SetTickTime(m, v) == m else Publishes(m, SetTickTime(m, v))
    ensures if last == m.f.stopAfter then SetStopAfter(m, last) == m else Publishes(m, SetStopAfter(m, last))
    ensures if at == m.f.startAt then SetStartAt(m, at) == m else Publishes(m, SetStartAt(m, at))
  {
    ChangePublishes(m, m.f.(desired := SUSPENDED));
    ChangePublishes(m, m.f.(desired := STOPPED));
    ChangePublishes(m, WithTickTime(m.f, v));
    ChangePublishes(m, m.f.(stopAfter := last));
    ChangePublishes(m, m.f.(startAt := at));
  }

  lemma ChangePublishes(m: Master, f: Fields)
    ensures Publishes(m, OnUpdateTimes(m.(f := f)))
  {
  }

  function WireOf(x: Option<int>): Wire {
    if x.None? then NoneWord else Number(x.value)
  }

  /** Telling new times writes all eight fields under their keys, in this order, then the record of an open
      tick, and at last tells the listeners. */
  lemma TimesTold(m: Master)
    ensures var f, r := m.f, OnUpdateTimes(m).redis;
            && r.published == m.redis.published +
                 [ Message(State, Name(f.state)), Message(DesiredState, Name(f.desired)),
                   Message(CurrentRound, Number(f.tick)), Message(RoundStart, WireOf(f.tickStart)),
                   Message(RoundEnd, WireOf(f.tickEnd)), Message(RoundTime, Number(f.tickTime)),
                   Message(StopAfterRound, WireOf(f.stopAfter)), Message(Key.StartAt, WireOf(f.startAt)) ]
            && r.store == map[ State := Name(f.state), DesiredState := Name(f.desired),
                               CurrentRound := Number(f.tick), RoundStart := WireOf(f.tickStart),
                               RoundEnd := WireOf(f.tickEnd), RoundTime := Number(f.tickTime),
                               StopAfterRound := WireOf(f.stopAfter), Key.StartAt := WireOf(f.startAt) ]
            && r.rounds == (if f.state == RUNNING then m.redis.rounds[f.tick := Round(f.tickStart, f.tickEnd, f.tickTime)]
                            else m.redis.rounds)
            && OnUpdateTimes(m).events == m.events + [UpdateTimes]
  {
  }

  /** What the listener does with a message: the field of its key takes the value. A tick time of 0 and
      values of the wrong kind are not taken. */
  lemma ListenSetsField(f: Fields, s: CTFState, n: int)
    ensures Listen(f, Message(State, Name(s))) == f.(state := s)
    ensures Listen(f, Message(DesiredState, Name(s))) == f.(desired := s)
    ensures Listen(f, Message(CurrentRound, Number(n))) == f.(tick := n)
    ensures Listen(f, Message(RoundStart, Number(n))) == f.(tickStart := Some(n))
    ensures Listen(f, Message(RoundStart, NoneWord)) == f.(tickStart := None)
    ensures Listen(f, Message(RoundEnd, Number(n))) == f.(tickEnd := Some(n))
    ensures Listen(f, Message(RoundEnd, NoneWord)) == f.(tickEnd := None)
    ensures Listen(f, Message(RoundTime, Number(n))) == if n == 0 then f else f.(tickTime := n)
    ensures Listen(f, Message(StopAfterRound, Number(n))) == f.(stopAfter := Some(n))
    ensures Listen(f, Message(StopAfterRound, NoneWord)) == f.(stopAfter := None)
    ensures Listen(f, Message(Key.StartAt, Number(n))) == f.(startAt := Some(n))
    ensures Listen(f, Message(Key.StartAt, NoneWord)) == f.(startAt := None)
  {
  }

  /** Listeners are told last whenever anything is written, and hear nothing otherwise. */
  lemma ListenersToldLast(m: Master, step: Step)
    requires !Hears(step)
    ensures var m' := Act(m, step);
            if m'.redis.published == m.redis.published then m'.events == m.events
            else m.events < m'.events && m'.events[|m'.events| - 1] == UpdateTimes
  {
    match step
    case CheckTime(now, now2) => CheckTellsLast(m, now, now2);
    case StartCommand(now) => if m.f.state != RUNNING { StartTellsLast(m, now); }
    case _ =>
  }

  lemma CheckTellsLast(m: Master, now: int, now2: int)
    ensures var m' := Check(m, now, now2);
            m' == m || (m.redis.published < m'.redis.published && m.events < m'.events && m'.events[|m'.events| - 1] == UpdateTimes)
  {
    if TickOver(m.f, now) {
      ClosePublishes(m, now);
      if m.f.desired == RUNNING { ContinueEffect(m, now); } else { HaltEffect(m, now); }
    } else if m.f.state != RUNNING {
      StartTellsLast(m, now2);
      StartTellsLast(m.(f := m.f.(startAt := None)), now2);
    }
  }

  lemma StartTellsLast(m: Master, now: int)
    requires m.f.state != RUNNING
    ensures m.redis.published < Start(m, now).redis.published && m.events < Start(m, now).events
    ensures Start(m, now).events[|Start(m, now).events| - 1] == UpdateTimes
  {
    StartPublishes(m, now);
    StartEffect(m, now);
  }

  // ----- schedules -----

  /** The step is a check that starts a halted timer because its schedule is due. */
  predicate StartsBySchedule(f: Fields, step: Step) {
    step.CheckTime? && f.state != RUNNING && f.desired != RUNNING
    && f.startAt.Some? && f.startAt.value != 0 && f.startAt.value <= step.now < f.startAt.value + 5
  }

  /** The step sets a schedule: a command, or a message. */
  predicate SetsSchedule(step: Step) {
    step.StartAtCommand? || (step.Heard? && step.msg.key == Key.StartAt) || (step.Echo? && step.msg.key == Key.StartAt)
  }

  /** A schedule is used up by the start it brings about, and no other step touches it but those that
      set it. */
  lemma ScheduleAfter(m: Master, step: Step)
    ensures StartsBySchedule(m.f, step) ==> Act(m, step).f.startAt == None && Act(m, step).f.tick == m.f.tick + 1
    ensures !StartsBySchedule(m.f, step) && !SetsSchedule(step) ==> Act(m, step).f.startAt == m.f.startAt
  {
    match step
    case CheckTime(now, now2) => CheckOutcome(m, now, now2);
    case StartCommand(now) => StartOpensNow(m, now);
    case SuspendCommand => SettingsSet(m, 0, None, None);
    case StopCommand => SettingsSet(m, 0, None, None);
    case TickTimeCommand(v) => SettingsSet(m, v, None, None);
    case StopAfterCommand(last) => SettingsSet(m, 0, last, None);
    case _ =>
  }

  /** How many ticks are opened by a schedule in the run. */
  function ScheduledStarts(start: World, steps: seq<Step>): nat
    decreases |steps|
  {
    if steps == [] then 0
    else (if StartsBySchedule(start.m.f, steps[0]) then 1 else 0) + ScheduledStarts(Next(start, steps[0]), steps[1..])
  }

  /** One schedule opens at most one tick: in any run in which none is set, at most one tick is opened by
      schedule, and none if there was no schedule to begin with. */
  lemma {:induction false} OneScheduleOneTick(start: World, steps: seq<Step>, end: World)
    requires Reaches(start, steps, end)
    requires forall i | 0 <= i < |steps| :: !SetsSchedule(steps[i])
    ensures ScheduledStarts(start, steps) <= (if start.m.f.startAt == None then 0 else 1)
    ensures end.m.f.startAt == if ScheduledStarts(start, steps) == 0 then start.m.f.startAt else None
    decreases |steps|
  {
    if steps != [] {
      assert !SetsSchedule(steps[0]);
      ScheduleAfter(start.m, steps[0]);
      OneScheduleOneTick(Next(start, steps[0]), steps[1..], end);
    }
  }

  // ----- nothing happens by itself -----

  /** Someone wants the game to run: a start command here or at a slave, or a schedule. */
  predicate AsksForGame(step: Step) {
    match step
    case StartCommand(_) => true
    case StartAtCommand(at) => at != None
    case Heard(msg) => msg == Message(DesiredState, Name(RUNNING)) || (msg.key == Key.StartAt && msg.value != NoneWord)
    case _ => false
  }

  /** A game that was never started and is not wanted. */
  predicate AtRest(f: Fields) {
    f.tick == 0 && f.state != RUNNING && f.desired != RUNNING && f.startAt == None
  }

  /** What is published about such a game. */
  predicate TellsRest(msg: Message) {
    match msg.key
    case State => msg.value != Name(RUNNING)
    case DesiredState => msg.value != Name(RUNNING)
    case CurrentRound => msg.value == Number(0)
    case StartAt => msg.value == NoneWord
    case _ => true
  }

  ghost predicate Untouched(m: Master) {
    AtRest(m.f) && m.redis.rounds == map[] && forall msg | msg in m.redis.published :: TellsRest(msg)
  }

  lemma StepStaysAtRest(w: World, step: Step)
    requires Untouched(w.m) && Enabled(w, step) && !AsksForGame(step)
    ensures AtRest(Next(w, step).m.f) && Next(w, step).m.redis.rounds == map[]
  {
    var m := w.m;
    match step
    case CheckTime(now, now2) => CheckOutcome(m, now, now2);
    case SuspendCommand => OnUpdateTimesEffect(m.(f := m.f.(desired := SUSPENDED)));
    case StopCommand => OnUpdateTimesEffect(m.(f := m.f.(desired := STOPPED)));
    case TickTimeCommand(v) => OnUpdateTimesEffect(m.(f := WithTickTime(m.f, v)));
    case StopAfterCommand(last) => OnUpdateTimesEffect(m.(f := m.f.(stopAfter := last)));
    case StartAtCommand(at) => OnUpdateTimesEffect(m.(f := m.f.(startAt := at)));
    case Heard(msg) =>
    case HeardTickTime(v) =>
    case Echo(msg) => assert TellsRest(msg);
  }

  lemma StepStaysUntouched(w: World, step: Step)
    requires Untouched(w.m) && Enabled(w, step) && !AsksForGame(step)
    ensures Untouched(Next(w, step).m)
  {
    StepStaysAtRest(w, step);
    forall msg | msg in Next(w, step).m.redis.published
      ensures TellsRest(msg)
    {
      PublishedAfter(w.m, step, msg);
    }
  }

  /** No tick is ever opened and no record written in a run in which nobody asks for the game. */
  lemma {:induction false} NothingStartsByItself(tickDuration: int, steps: seq<Step>, w: World)
    requires Reaches(Begin(tickDuration), steps, w)
    requires forall i | 0 <= i < |steps| :: !AsksForGame(steps[i])
    ensures w.m.f.tick == 0 && w.m.f.state != RUNNING && w.m.redis.rounds == map[]
  {
    RunStaysUntouched(Begin(tickDuration), steps, w);
  }

  lemma {:induction false} RunStaysUntouched(start: World, steps: seq<Step>, end: World)
    requires Untouched(start.m) && Reaches(start, steps, end)
    requires forall i | 0 <= i < |steps| :: !AsksForGame(steps[i])
    ensures Untouched(end.m)
    decreases |steps|
  {
    if steps != [] {
      assert !AsksForGame(steps[0]);
      StepStaysUntouched(start, steps[0]);
      RunStaysUntouched(Next(start, steps[0]), steps[1..], end);
    }
  }
}
