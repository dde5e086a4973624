/** Runs of the master timer under a clock, commands, messages from slaves, and its own messages, which
    it hears like everyone else. */
module TimerRuns {
  import opened Wrappers
  import opened TimerModel

  datatype Step =
    | CheckTime(now: int, now2: int)
    | StartCommand(now: int)
    | SuspendCommand
    | StopCommand
    | TickTimeCommand(v: int)
    | StopAfterCommand(last: Option<int>)
    | StartAtCommand(at: Option<int>)
    | Heard(msg: Message)             // one message a slave wrote
    | HeardTickTime(v: int)           // both messages of a slave's tick-time command
    | Echo(msg: Message)              // one message the master itself published, now or long ago

  /** The keys slaves write. All others only the master writes. */
  predicate SlaveWrites(k: Key) {
    k == DesiredState || k == RoundEnd || k == RoundTime || k == StopAfterRound || k == Key.StartAt
  }

  /** A master and the latest time it has read from the clock. */
  datatype World = World(m: Master, clock: int)

  /** What a slave that holds the master's fields publishes for a new tick time. */
  function TickTimeHeard(f: Fields, v: int): Fields {
    if f.tickTime == v then f
    else
      var told := if Truthy(f.tickStart) then Listen(f, Message(RoundEnd, Number(f.tickStart.value + v))) else f;
      Listen(told, Message(RoundTime, Number(v)))
  }

  function Act(m: Master, step: Step): Master {
    match step
    case CheckTime(now, now2) => Check(m, now, now2)
    case StartCommand(now) => Start(m, now)
    case SuspendCommand => Suspend(m)
    case StopCommand => Stop(m)
    case TickTimeCommand(v) => SetTickTime(m, v)
    case StopAfterCommand(last) => SetStopAfter(m, last)
    case StartAtCommand(at) => SetStartAt(m, at)
    case Heard(msg) => m.(f := Listen(m.f, msg))
    case HeardTickTime(v) => m.(f := TickTimeHeard(m.f, v))
    case Echo(msg) => m.(f := Listen(m.f, msg))
  }

  /** The clock after the step: steps that read it move it. */
  function ClockAfter(clock: int, step: Step): int {
    match step
    case CheckTime(_, now2) => now2
    case StartCommand(now) => now
    case _ => clock
  }

  /** What timers write as long as all tick times are positive. */
  predicate Proper(m: Message) {
    WellTyped(m) && (m.key == RoundTime ==> 0 < m.value.n)
  }

  /** The clock is positive and never goes back; tick times are positive; slaves write their keys. */
  predicate Enabled(w: World, step: Step) {
    match step
    case CheckTime(now, now2) => 0 < now && w.clock <= now <= now2
    case StartCommand(now) => 0 < now && w.clock <= now
    case TickTimeCommand(v) => 0 < v
    case HeardTickTime(v) => 0 < v
    case Heard(msg) => SlaveWrites(msg.key) && Proper(msg)
    case Echo(msg) => msg in w.m.redis.published && Proper(msg)
    case _ => true
  }

  function Next(w: World, step: Step): World {
    World(Act(w.m, step), ClockAfter(w.clock, step))
  }

  ghost predicate Reaches(start: World, steps: seq<Step>, end: World)
    decreases |steps|
  {
    if steps == [] then start == end
    else Enabled(start, steps[0]) && Reaches(Next(start, steps[0]), steps[1..], end)
  }

  /** The master learns something from the channel. */
  predicate Hears(step: Step) {
    step.Heard? || step.HeardTickTime? || step.Echo?
  }

  /** Keys that tell how far the game is. */
  predicate TellsProgress(k: Key) {
    k == State || k == CurrentRound
  }

  /** When the master hears its own state or tick number, it is still the current one. */
  predicate Timely(f: Fields, step: Step) {
    step.Echo? && TellsProgress(step.msg.key) ==> step.msg.value == Encode(f, step.msg.key)
  }

  ghost predicate TimelyRun(start: World, steps: seq<Step>)
    decreases |steps|
  {
    steps == [] || (Timely(start.m.f, steps[0]) && TimelyRun(Next(start, steps[0]), steps[1..]))
  }

  /** A master just created. */
  function Begin(tickDuration: int): World {
    World(Fresh(tickDuration), 0)
  }

  /** When a step opens the next tick, the start it gives it. */
  function Opening(f: Fields, step: Step): Option<int> {
    match step
    case CheckTime(now, now2) =>
      if f.state == RUNNING then
        if Truthy(f.tickEnd) && now >= f.tickEnd.value && f.desired == RUNNING then Some(NextStart(f.tickEnd.value, now))
        else None
      else if f.desired == RUNNING || ScheduleDue(f, now) then Some(now2)
      else None
    case StartCommand(now) => if f.state == RUNNING then None else Some(now)
    case _ => None
  }

  // ----- effects of the notifications -----

  /** The fields stay, the record of an open tick is written, and the listeners hear of it last. */
  lemma OnUpdateTimesEffect(m: Master)
    ensures OnUpdateTimes(m).f == m.f
    ensures OnUpdateTimes(m).events == m.events + [UpdateTimes]
    ensures OnUpdateTimes(m).redis.rounds == WriteRound(m).redis.rounds
  {
  }

  /** Fields, events and records after start_ctf from a state that is not RUNNING. */
  lemma StartEffect(m: Master, now: int)
    requires m.f.state != RUNNING
    ensures var begun := NextTick(m.f.(desired := RUNNING), now).(state := RUNNING);
            && Start(m, now).f == TickOpened(begun)
            && Start(m, now).events == m.events + (if m.f.state == STOPPED then [StartCtf] else [])
                                       + [StartTick(m.f.tick + 1), UpdateTimes]
            && Start(m, now).redis.rounds == m.redis.rounds[m.f.tick + 1 := Round(Some(now), Some(now + m.f.tickTime), m.f.tickTime)]
  {
    var begun := m.(f := NextTick(m.f.(desired := RUNNING), now).(state := RUNNING));
    var announced := if m.f.state == STOPPED then Emit(WriteRound(begun), StartCtf) else begun;
    OnUpdateTimesEffect(OnStartTick(announced));
  }

  /** The same after a tick closes and the next one opens. */
  lemma ContinueEffect(m: Master, now: int)
    requires m.f.state == RUNNING && m.f.desired == RUNNING && m.f.tickEnd.Some?
    ensures var start := NextStart(m.f.tickEnd.value, now);
            && CloseTick(m, now).f == TickOpened(NextTick(m.f, start))
            && CloseTick(m, now).events == m.events + [EndTick(m.f.tick), StartTick(m.f.tick + 1), UpdateTimes]
            && CloseTick(m, now).redis.rounds ==
               m.redis.rounds[m.f.tick + 1 := Round(Some(start), Some(start + m.f.tickTime), m.f.tickTime)]
  {
    var opening := Emit(m, EndTick(m.f.tick)).(f := NextTick(m.f, NextStart(m.f.tickEnd.value, now)));
    OnUpdateTimesEffect(OnStartTick(opening));
  }

  /** The same after a tick closes and the game halts. */
  lemma HaltEffect(m: Master, now: int)
    requires m.f.state == RUNNING && m.f.desired != RUNNING && m.f.tickEnd.Some?
    ensures CloseTick(m, now).f == m.f.(state := m.f.desired)
    ensures CloseTick(m, now).events ==
            m.events + [EndTick(m.f.tick), if m.f.desired == SUSPENDED then SuspendCtf else EndCtf, UpdateTimes]
    ensures CloseTick(m, now).redis.rounds == m.redis.rounds
  {
    var halted := Emit(m, EndTick(m.f.tick)).(f := m.f.(state := m.f.desired));
    OnUpdateTimesEffect(if m.f.desired == SUSPENDED then Emit(halted, SuspendCtf) else Emit(WriteRound(halted), EndCtf));
  }
}
