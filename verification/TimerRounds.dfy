/** The stored tick records over whole runs. */
module TimerRounds {
  import opened Wrappers
  import opened TimerModel
  import opened TimerRuns

  /** The record is complete and consistent in itself. */
  ghost predicate Sound(r: Round) {
    r.start.Some? && r.end.Some? && 0 < r.start.value && 0 < r.time && r.end.value == r.start.value + r.time
  }

  /** Records exist for exactly ticks 1 to n, each sound, each over before the next begins. */
  ghost predicate Recorded(rounds: map<int, Round>, n: int) {
    && (forall i :: i in rounds <==> 1 <= i <= n)
    && (forall i | i in rounds :: Sound(rounds[i]))
    && (forall i | i in rounds && i + 1 in rounds :: rounds[i].end.value <= rounds[i + 1].start.value)
  }

  /** The open tick's fields, and how its record and the last one relate to them and the clock. */
  ghost predicate RoundsInv(w: World) {
    var f := w.m.f;
    && 0 <= f.tick && 0 < f.tickTime && 0 <= w.clock
    && Recorded(w.m.redis.rounds, f.tick)
    && (f.state != RUNNING && 0 < f.tick ==> w.m.redis.rounds[f.tick].end.value <= w.clock)
    && (f.state == RUNNING ==>
          && 0 < f.tick && f.tickStart.Some? && f.tickStart.value <= w.clock
          && f.tickEnd == Some(f.tickStart.value + f.tickTime)
          && w.m.redis.rounds[f.tick].start == f.tickStart
          && w.m.redis.rounds[f.tick].end.value <= f.tickEnd.value)
  }

  /** A message that leaves the records in order: one that repeats the current value, one about what is
      wanted, or one about the times of a tick that is not open. */
  predicate Orderly(f: Fields, msg: Message) {
    match msg.key
    case State => msg.value == Encode(f, State)
    case CurrentRound => msg.value == Encode(f, CurrentRound)
    case RoundStart => f.state != RUNNING || msg.value == Encode(f, RoundStart)
    case RoundEnd => f.state != RUNNING || msg.value == Encode(f, RoundEnd)
    case RoundTime => f.state != RUNNING || msg.value == Encode(f, RoundTime)
    case _ => true
  }

  /** Steps under which the records stay in order: all the master's own, orderly messages, and a slave's
      tick time that does not end the open tick before its recorded end. */
  ghost predicate KeepsOrder(w: World, step: Step) {
    match step
    case Heard(msg) => Orderly(w.m.f, msg)
    case Echo(msg) => Orderly(w.m.f, msg)
    case HeardTickTime(v) =>
      w.m.f.state == RUNNING && w.m.f.tickStart.Some? && w.m.f.tick in w.m.redis.rounds
      && w.m.redis.rounds[w.m.f.tick].end.Some?
      ==> w.m.redis.rounds[w.m.f.tick].end.value <= w.m.f.tickStart.value + v
    case _ => true
  }

  lemma RecordNext(rounds: map<int, Round>, n: int, r: Round)
    requires Recorded(rounds, n) && 0 <= n && Sound(r)
    requires 0 < n ==> rounds[n].end.value <= r.start.value
    ensures Recorded(rounds[n + 1 := r], n + 1)
  {
  }

  lemma RecordAgain(rounds: map<int, Round>, n: int, r: Round)
    requires Recorded(rounds, n) && 0 < n && Sound(r) && r.start == rounds[n].start
    ensures Recorded(rounds[n := r], n)
  {
  }

  lemma StartKeepsRounds(w: World, now: int)
    requires RoundsInv(w) && 0 < now && w.clock <= now
    ensures RoundsInv(World(Start(w.m, now), now))
  {
    var f := w.m.f;
    if f.state != RUNNING {
      StartEffect(w.m, now);
      RecordNext(w.m.redis.rounds, f.tick, Round(Some(now), Some(now + f.tickTime), f.tickTime));
    }
  }

  lemma CloseKeepsRounds(w: World, now: int, now2: int)
    requires RoundsInv(w) && 0 < now && w.clock <= now <= now2
    requires w.m.f.state == RUNNING && now >= w.m.f.tickEnd.value
    ensures RoundsInv(World(CloseTick(w.m, now), now2))
  {
    var f := w.m.f;
    if f.desired == RUNNING {
      ContinueEffect(w.m, now);
      var start := NextStart(f.tickEnd.value, now);
      RecordNext(w.m.redis.rounds, f.tick, Round(Some(start), Some(start + f.tickTime), f.tickTime));
    } else {
      HaltEffect(w.m, now);
    }
  }

  lemma CheckKeepsRounds(w: World, now: int, now2: int)
    requires RoundsInv(w) && 0 < now && w.clock <= now <= now2
    ensures RoundsInv(World(Check(w.m, now, now2), now2))
  {
    var f := w.m.f;
    if f.state == RUNNING {
      if now >= f.tickEnd.value {
        CloseKeepsRounds(w, now, now2);
      }
    } else if f.desired == RUNNING {
      StartKeepsRounds(w, now2);
    } else if ScheduleDue(f, now) {
      StartKeepsRounds(w.(m := w.m.(f := f.(startAt := None))), now2);
    }
  }

  /** Telling new times rewrites the record of the open tick with what the fields say. */
  lemma TellKeepsRounds(w: World, f: Fields)
    requires RoundsInv(w)
    requires f.state == w.m.f.state && f.tick == w.m.f.tick && f.tickStart == w.m.f.tickStart && 0 < f.tickTime
    requires f.state == RUNNING ==> f.tickEnd == Some(f.tickStart.value + f.tickTime)
    ensures RoundsInv(World(OnUpdateTimes(w.m.(f := f)), w.clock))
  {
    OnUpdateTimesEffect(w.m.(f := f));
    if f.state == RUNNING {
      RecordAgain(w.m.redis.rounds, f.tick, Round(f.tickStart, f.tickEnd, f.tickTime));
    }
  }

  lemma {:induction false} StepKeepsRounds(w: World, step: Step)
    requires RoundsInv(w) && Enabled(w, step) && KeepsOrder(w, step)
    ensures RoundsInv(Next(w, step))
  {
    var f := w.m.f;
    match step
    case CheckTime(now, now2) => CheckKeepsRounds(w, now, now2);
    case StartCommand(now) => StartKeepsRounds(w, now);
    case SuspendCommand => TellKeepsRounds(w, f.(desired := SUSPENDED));
    case StopCommand => TellKeepsRounds(w, f.(desired := STOPPED));
    case TickTimeCommand(v) =>
      assert f.state == RUNNING ==> Sound(w.m.redis.rounds[f.tick]);
      TellKeepsRounds(w, WithTickTime(f, v));
    case StopAfterCommand(last) => TellKeepsRounds(w, f.(stopAfter := last));
    case StartAtCommand(at) => TellKeepsRounds(w, f.(startAt := at));
    case Heard(msg) => HearingKeepsRounds(w, step);
    case Echo(msg) => HearingKeepsRounds(w, step);
    case HeardTickTime(v) => HearingKeepsRounds(w, step);
  }

  lemma HearingKeepsRounds(w: World, step: Step)
    requires RoundsInv(w) && Enabled(w, step) && KeepsOrder(w, step) && Hears(step)
    ensures RoundsInv(Next(w, step))
  {
    assert w.m.f.state == RUNNING ==> Sound(w.m.redis.rounds[w.m.f.tick]);
  }

  /** All steps of the run keep the order. */
  ghost predicate OrderlyRun(start: World, steps: seq<Step>)
    decreases |steps|
  {
    steps == [] || (KeepsOrder(start, steps[0]) && OrderlyRun(Next(start, steps[0]), steps[1..]))
  }

  lemma {:induction false} RunKeepsRounds(start: World, steps: seq<Step>, end: World)
    requires RoundsInv(start) && Reaches(start, steps, end) && OrderlyRun(start, steps)
    ensures RoundsInv(end)
    decreases |steps|
  {
    if steps != [] {
      StepKeepsRounds(start, steps[0]);
      RunKeepsRounds(Next(start, steps[0]), steps[1..], end);
    }
  }

  /** In every state of every orderly run from a fresh master the records exist for exactly ticks 1 to
      the current one, each ends at start plus time, and none overlaps the next; tick times may
      change at any moment. */
  lemma RecordsInOrder(tickDuration: int, steps: seq<Step>, w: World)
    requires 0 < tickDuration && Reaches(Begin(tickDuration), steps, w) && OrderlyRun(Begin(tickDuration), steps)
    ensures Recorded(w.m.redis.rounds, w.m.f.tick)
  {
    RunKeepsRounds(Begin(tickDuration), steps, w);
  }

  /** Without messages every run is orderly. */
  lemma {:induction false} MasterAloneIsOrderly(start: World, steps: seq<Step>)
    requires forall i | 0 <= i < |steps| :: !Hears(steps[i])
    ensures OrderlyRun(start, steps)
    decreases |steps|
  {
    if steps != [] {
      assert !Hears(steps[0]);
      MasterAloneIsOrderly(Next(start, steps[0]), steps[1..]);
    }
  }
}
