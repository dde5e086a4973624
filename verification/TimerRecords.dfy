/** Exactly when the stored tick records stay sound and in order, whatever the master hears. */
module TimerRecords {
  import opened Wrappers
  import opened TimerModel
  import opened TimerRuns
  import opened TimerRounds
  import TimerSync

  // ----- what a step does to the records -----

  /** Commands upon which the master writes the record of the open tick again. */
  predicate Rewrites(f: Fields, step: Step) {
    f.state == RUNNING &&
    match step
    case SuspendCommand => true
    case StopCommand => true
    case TickTimeCommand(v) => v != f.tickTime
    case StopAfterCommand(last) => last != f.stopAfter
    case StartAtCommand(at) => at != f.startAt
    case _ => false
  }

  /** The times that go into the record then; a tick-time command computes the end afresh. */
  function TimesWritten(f: Fields, step: Step): Fields {
    if step.TickTimeCommand? then WithTickTime(f, step.v) else f
  }

  /** The fields have a tick end that is start plus tick time. */
  predicate Consistent(f: Fields) {
    f.tickStart.Some? && 0 < f.tickStart.value && f.tickEnd == Some(f.tickStart.value + f.tickTime)
  }

  /** By its record tick n, if there is one, is over at the given time. */
  predicate OverBy(rounds: map<int, Round>, n: int, time: int) {
    n in rounds ==> rounds[n].end.Some? && rounds[n].end.value <= time
  }

  /** The master hears a tick number of its own that is not the current one. */
  predicate LosesTick(f: Fields, step: Step) {
    step.Echo? && step.msg.key == CurrentRound && step.msg.value != Number(f.tick)
  }

  /** The step opens a tick before the recorded end of the last one, or rewrites the record of the open
      tick while the end in the fields is not start plus tick time, or while the start in the fields is
      before the recorded end of the last tick, or it puts another tick number in the place of the
      current one. */
  predicate Spoils(w: World, step: Step) {
    var f, rounds := w.m.f, w.m.redis.rounds;
    || (Opening(f, step).Some? && !OverBy(rounds, f.tick, Opening(f, step).value))
    || (Rewrites(f, step) && (!Consistent(TimesWritten(f, step)) || !OverBy(rounds, f.tick - 1, f.tickStart.value)))
    || LosesTick(f, step)
  }

  /** Records exist for exactly the ticks 1 to n. */
  ghost predicate Numbered(rounds: map<int, Round>, n: int) {
    forall i :: i in rounds <==> 1 <= i <= n
  }

  /** What can have been published when the given tick is the current one. */
  predicate Plausible(msg: Message, tick: int) {
    && (msg == Message(State, Name(RUNNING)) ==> 0 < tick)
    && (msg.key == CurrentRound && msg.value.Number? ==> 0 <= msg.value.n)
  }

  /** The records are numbered by the ticks begun, and the state RUNNING is and was told only since the
      first of them. */
  ghost predicate Complete(w: World) {
    var f := w.m.f;
    && 0 <= f.tick && 0 < f.tickTime && (f.state == RUNNING ==> 0 < f.tick)
    && 0 <= w.clock
    && Numbered(w.m.redis.rounds, f.tick)
    && forall msg | msg in w.m.redis.published :: Plausible(msg, f.tick)
  }

  /** m' is m with tick m.f.tick + 1 open since start, and its record written. */
  ghost predicate Opened(m: Master, start: int, m': Master) {
    && m'.f.tick == m.f.tick + 1 && m'.f.tickTime == m.f.tickTime && m'.f.state == RUNNING
    && m'.f.tickStart == Some(start) && m'.f.tickEnd == Some(start + m.f.tickTime)
    && m'.redis.rounds == m.redis.rounds[m.f.tick + 1 := Round(Some(start), Some(start + m.f.tickTime), m.f.tickTime)]
  }

  lemma StartOpens(m: Master, now: int)
    requires m.f.state != RUNNING
    ensures Opened(m, now, Start(m, now))
    ensures Opened(m, now, Start(m.(f := m.f.(startAt := None)), now))
  {
    StartEffect(m, now);
    StartEffect(m.(f := m.f.(startAt := None)), now);
  }

  lemma OpeningEffect(w: World, step: Step)
    requires Opening(w.m.f, step).Some?
    ensures Opened(w.m, Opening(w.m.f, step).value, Next(w, step).m)
  {
    if step.StartCommand? {
      StartOpens(w.m, step.now);
    } else if w.m.f.state == RUNNING {
      ContinueEffect(w.m, step.now);
    } else {
      StartOpens(w.m, step.now2);
    }
  }

  lemma RewritingEffect(w: World, step: Step)
    requires Rewrites(w.m.f, step)
    ensures var f := TimesWritten(w.m.f, step);
            var m' := Next(w, step).m;
            && m'.f == f.(desired := m'.f.desired, stopAfter := m'.f.stopAfter, startAt := m'.f.startAt)
            && m'.redis.rounds == w.m.redis.rounds[f.tick := Round(f.tickStart, f.tickEnd, f.tickTime)]
  {
    OnUpdateTimesEffect(w.m.(f := Next(w, step).m.f));
  }

  /** All other steps write no record. */
  lemma OtherwiseUntouched(w: World, step: Step)
    requires Opening(w.m.f, step).None? && !Rewrites(w.m.f, step) && Enabled(w, step)
    ensures var m, m' := w.m, Next(w, step).m;
            && m'.redis.rounds == m.redis.rounds
            && (m'.f.tick == if LosesTick(m.f, step) then step.msg.value.n else m.f.tick)
            && (m'.f.state == RUNNING && m.f.state != RUNNING ==> step == Echo(Message(State, Name(RUNNING))))
            && (0 < m.f.tickTime ==> 0 < m'.f.tickTime)
  {
    var m := w.m;
    match step
    case CheckTime(now, now2) =>
      if m.f.state == RUNNING && Truthy(m.f.tickEnd) && now >= m.f.tickEnd.value { HaltEffect(m, now); }
    case StartCommand(now) =>
    case SuspendCommand => OnUpdateTimesEffect(m.(f := m.f.(desired := SUSPENDED)));
    case StopCommand => OnUpdateTimesEffect(m.(f := m.f.(desired := STOPPED)));
    case TickTimeCommand(v) => OnUpdateTimesEffect(m.(f := WithTickTime(m.f, v)));
    case StopAfterCommand(last) => OnUpdateTimesEffect(m.(f := m.f.(stopAfter := last)));
    case StartAtCommand(at) => OnUpdateTimesEffect(m.(f := m.f.(startAt := at)));
    case Heard(msg) =>
    case HeardTickTime(v) =>
    case Echo(msg) =>
  }

  /** One record more keeps all in order exactly when the last tick is over by then. */
  lemma RecordNextExactly(rounds: map<int, Round>, n: int, start: int, time: int)
    requires Recorded(rounds, n) && 0 <= n && 0 < start && 0 < time
    ensures Recorded(rounds[n + 1 := Round(Some(start), Some(start + time), time)], n + 1) <==> OverBy(rounds, n, start)
  {
    var r := Round(Some(start), Some(start + time), time);
    var rounds' := rounds[n + 1 := r];
    if n in rounds {
      assert Sound(rounds[n]);
      assert n in rounds' && n + 1 in rounds' && rounds'[n] == rounds[n];
    }
  }

  /** And so does a record written again when it is sound and the one before is over by its start. */
  lemma RecordAgainExactly(rounds: map<int, Round>, n: int, f: Fields)
    requires Recorded(rounds, n) && 0 < n && 0 < f.tickTime
    ensures Recorded(rounds[n := Round(f.tickStart, f.tickEnd, f.tickTime)], n) <==>
            Consistent(f) && OverBy(rounds, n - 1, f.tickStart.value)
  {
    var r := Round(f.tickStart, f.tickEnd, f.tickTime);
    var rounds' := rounds[n := r];
    assert n in rounds';
    if n - 1 in rounds {
      assert n - 1 in rounds' && n - 1 + 1 in rounds' && rounds'[n - 1] == rounds[n - 1] && Sound(rounds[n - 1]);
    }
    if Recorded(rounds', n) {
      assert Sound(rounds'[n]);
    }
  }

  lemma OpeningAfterZero(w: World, step: Step)
    requires Enabled(w, step) && 0 <= w.clock && Opening(w.m.f, step).Some?
    ensures 0 < Opening(w.m.f, step).value
  {
  }

  lemma OpenedRecords(m: Master, start: int, m': Master)
    requires Opened(m, start, m') && Recorded(m.redis.rounds, m.f.tick)
    requires 0 <= m.f.tick && 0 < m.f.tickTime && 0 < start
    ensures Recorded(m'.redis.rounds, m'.f.tick) <==> OverBy(m.redis.rounds, m.f.tick, start)
  {
    RecordNextExactly(m.redis.rounds, m.f.tick, start, m.f.tickTime);
  }

  lemma OpeningRecords(w: World, step: Step)
    requires Complete(w) && Enabled(w, step) && Opening(w.m.f, step).Some?
    requires Recorded(w.m.redis.rounds, w.m.f.tick)
    ensures Recorded(Next(w, step).m.redis.rounds, Next(w, step).m.f.tick) <==>
            OverBy(w.m.redis.rounds, w.m.f.tick, Opening(w.m.f, step).value)
  {
    OpeningEffect(w, step);
    OpeningAfterZero(w, step);
    OpenedRecords(w.m, Opening(w.m.f, step).value, Next(w, step).m);
  }

  lemma RewritingRecords(w: World, step: Step)
    requires Complete(w) && Enabled(w, step) && Rewrites(w.m.f, step)
    requires Recorded(w.m.redis.rounds, w.m.f.tick)
    ensures Recorded(Next(w, step).m.redis.rounds, Next(w, step).m.f.tick) <==>
            Consistent(TimesWritten(w.m.f, step)) && OverBy(w.m.redis.rounds, w.m.f.tick - 1, w.m.f.tickStart.value)
  {
    RewritingEffect(w, step);
    RecordAgainExactly(w.m.redis.rounds, w.m.f.tick, TimesWritten(w.m.f, step));
  }

  lemma OtherRecords(w: World, step: Step)
    requires Complete(w) && Enabled(w, step) && Opening(w.m.f, step).None? && !Rewrites(w.m.f, step)
    ensures Numbered(Next(w, step).m.redis.rounds, Next(w, step).m.f.tick) <==> !LosesTick(w.m.f, step)
  {
    OtherwiseUntouched(w, step);
    var n := Next(w, step).m.f.tick;
    if LosesTick(w.m.f, step) {
      assert Plausible(step.msg, w.m.f.tick);
      assert n in w.m.redis.rounds <==> 1 <= n <= w.m.f.tick;
      assert w.m.f.tick in w.m.redis.rounds <==> 1 <= w.m.f.tick;
    }
  }

  /** One step leaves the records sound and in order exactly when it does not spoil them. */
  lemma StepRecords(w: World, step: Step)
    requires Complete(w) && Enabled(w, step)
    requires Recorded(w.m.redis.rounds, w.m.f.tick)
    ensures Recorded(Next(w, step).m.redis.rounds, Next(w, step).m.f.tick) <==> !Spoils(w, step)
  {
    if Opening(w.m.f, step).Some? {
      OpeningRecords(w, step);
    } else if Rewrites(w.m.f, step) {
      RewritingRecords(w, step);
    } else {
      OtherwiseUntouched(w, step);
      OtherRecords(w, step);
    }
  }

  /** One step leaves the records numbered by the ticks begun exactly when the master keeps count. */
  lemma StepNumbers(w: World, step: Step)
    requires Complete(w) && Enabled(w, step)
    ensures Numbered(Next(w, step).m.redis.rounds, Next(w, step).m.f.tick) <==> !LosesTick(w.m.f, step)
  {
    if Opening(w.m.f, step).Some? {
      OpeningEffect(w, step);
    } else if Rewrites(w.m.f, step) {
      RewritingEffect(w, step);
    } else {
      OtherRecords(w, step);
    }
  }

  lemma TickNotBack(w: World, step: Step)
    requires Complete(w) && Enabled(w, step) && !LosesTick(w.m.f, step)
    ensures var f, f' := w.m.f, Next(w, step).m.f;
            f.tick <= f'.tick && 0 < f'.tickTime && (f'.state == RUNNING ==> 0 < f'.tick)
  {
    if Opening(w.m.f, step).Some? {
      OpeningEffect(w, step);
    } else if Rewrites(w.m.f, step) {
      RewritingEffect(w, step);
    } else {
      OtherwiseUntouched(w, step);
      assert step == Echo(Message(State, Name(RUNNING))) ==> Plausible(step.msg, w.m.f.tick);
    }
  }

  lemma StepKeepsComplete(w: World, step: Step)
    requires Complete(w) && Enabled(w, step) && !LosesTick(w.m.f, step)
    ensures Complete(Next(w, step))
  {
    var w' := Next(w, step);
    StepNumbers(w, step);
    TickNotBack(w, step);
    forall msg | msg in w'.m.redis.published
      ensures Plausible(msg, w'.m.f.tick)
    {
      TimerSync.PublishedAfter(w.m, step, msg);
      assert msg in w.m.redis.published ==> Plausible(msg, w.m.f.tick);
    }
  }

  // ----- whole runs -----

  /** In every state of the run the records are those of exactly the ticks begun, sound and in order. */
  ghost predicate RecordedThroughout(start: World, steps: seq<Step>)
    decreases |steps|
  {
    && Recorded(start.m.redis.rounds, start.m.f.tick)
    && (steps == [] || RecordedThroughout(Next(start, steps[0]), steps[1..]))
  }

  ghost predicate Unspoilt(start: World, steps: seq<Step>)
    decreases |steps|
  {
    steps == [] || (!Spoils(start, steps[0]) && Unspoilt(Next(start, steps[0]), steps[1..]))
  }

  /** In every state of the run the records are those of exactly the ticks begun. */
  ghost predicate NumberedThroughout(start: World, steps: seq<Step>)
    decreases |steps|
  {
    && Numbered(start.m.redis.rounds, start.m.f.tick)
    && (steps == [] || NumberedThroughout(Next(start, steps[0]), steps[1..]))
  }

  ghost predicate KeepsCount(start: World, steps: seq<Step>)
    decreases |steps|
  {
    steps == [] || (!LosesTick(start.m.f, steps[0]) && KeepsCount(Next(start, steps[0]), steps[1..]))
  }

  lemma {:induction false} RunRecords(start: World, steps: seq<Step>, end: World)
    requires Complete(start) && Recorded(start.m.redis.rounds, start.m.f.tick)
    requires Reaches(start, steps, end)
    ensures RecordedThroughout(start, steps) <==> Unspoilt(start, steps)
    decreases |steps|
  {
    if steps != [] {
      StepRecords(start, steps[0]);
      if !Spoils(start, steps[0]) {
        StepKeepsComplete(start, steps[0]);
        RunRecords(Next(start, steps[0]), steps[1..], end);
      }
    }
  }

  lemma {:induction false} RunNumbers(start: World, steps: seq<Step>, end: World)
    requires Complete(start) && Reaches(start, steps, end)
    ensures NumberedThroughout(start, steps) <==> KeepsCount(start, steps)
    decreases |steps|
  {
    if steps != [] {
      StepNumbers(start, steps[0]);
      if !LosesTick(start.m.f, steps[0]) {
        StepKeepsComplete(start, steps[0]);
        RunNumbers(Next(start, steps[0]), steps[1..], end);
      }
    }
  }

  /** Every run from a fresh master, whatever it hears and when: the records are those of exactly ticks 1
      to the current one, sound and in order, all along exactly when no step spoils them. They are those
      of exactly these ticks, sound or not, exactly when the master hears no outdated tick number. */
  lemma RecordsInOrderExactly(tickDuration: int, steps: seq<Step>, w: World)
    requires 0 < tickDuration && Reaches(Begin(tickDuration), steps, w)
    ensures RecordedThroughout(Begin(tickDuration), steps) <==> Unspoilt(Begin(tickDuration), steps)
    ensures NumberedThroughout(Begin(tickDuration), steps) <==> KeepsCount(Begin(tickDuration), steps)
  {
    RunRecords(Begin(tickDuration), steps, w);
    RunNumbers(Begin(tickDuration), steps, w);
  }

  // ----- a state heard late -----

  /** While a tick is open and the game is to go on, the master hears that it is not RUNNING. The next
      check then opens the next tick at once, and the records are in order exactly when the recorded end
      of the open tick has come by then. */
  lemma LateStateOverlaps(w: World, s: CTFState, now: int, now2: int)
    requires RoundsInv(w) && w.m.f.state == RUNNING && w.m.f.desired == RUNNING && s != RUNNING
    requires 0 < now && w.clock <= now <= now2
    ensures var f := w.m.f;
            var heard := w.m.(f := Listen(f, Message(State, Name(s))));
            var after := Check(heard, now, now2);
            && after.f.tick == f.tick + 1
            && (Recorded(after.redis.rounds, after.f.tick) <==> w.m.redis.rounds[f.tick].end.value <= now2)
  {
    var heard := w.m.(f := w.m.f.(state := s));
    assert Sound(w.m.redis.rounds[w.m.f.tick]);
    StartOpens(heard, now2);
    OpenedRecords(heard, now2, Start(heard, now2));
  }

  /** Such a run exists: the last tick is set before the game starts at 10, which publishes the state
      STOPPED; the master hears that after the start, and at 20 tick 2 begins inside tick 1. */
  lemma LateStateIsPossible()
    ensures var w1 := Next(Begin(60), StopAfterCommand(Some(9)));
            var w2 := Next(w1, StartCommand(10));
            var late := Echo(Message(State, Name(STOPPED)));
            var w3 := Next(w2, late);
            && Enabled(Begin(60), StopAfterCommand(Some(9))) && Enabled(w1, StartCommand(10))
            && Enabled(w2, late) && Enabled(w3, CheckTime(20, 20))
            && RoundsInv(w2) && w2.m.f.state == RUNNING && w2.m.f.desired == RUNNING
            && !Recorded(Next(w3, CheckTime(20, 20)).m.redis.rounds, 2)
  {
    LastTickSet();
    LateStateFrom(Next(Begin(60), StopAfterCommand(Some(9))));
  }

  lemma LastTickSet()
    ensures var m := SetStopAfter(Fresh(60), Some(9));
            && m.f == Fields(STOPPED, STOPPED, 0, None, None, 60, Some(9), None)
            && m.redis.rounds == map[] && Message(State, Name(STOPPED)) in m.redis.published
  {
    var f := Initial(60).(stopAfter := Some(9));
    OnUpdateTimesEffect(Fresh(60).(f := f));
    assert FirstMessages(f)[0] == Message(State, Name(STOPPED));
    assert Message(State, Name(STOPPED)) in PublishAll(Fresh(60).redis, f).published;
  }

  lemma LateStateFrom(w1: World)
    requires w1.m.f == Fields(STOPPED, STOPPED, 0, None, None, 60, Some(9), None) && w1.clock == 0
    requires w1.m.redis.rounds == map[] && Message(State, Name(STOPPED)) in w1.m.redis.published
    ensures var w2 := Next(w1, StartCommand(10));
            && Message(State, Name(STOPPED)) in w2.m.redis.published && w2.clock == 10
            && RoundsInv(w2) && w2.m.f.state == RUNNING && w2.m.f.desired == RUNNING
            && !Recorded(Check(w2.m.(f := w2.m.f.(state := STOPPED)), 20, 20).redis.rounds, 2)
  {
    var w2 := Next(w1, StartCommand(10));
    TimerSync.PublishedStays(w1.m, StartCommand(10));
    StartEffect(w1.m, 10);
    StartKeepsRounds(w1, 10);
    assert w2.m.redis.rounds[1].end == Some(70);
    LateStateOverlaps(w2, STOPPED, 20, 20);
  }

  // ----- end equals start plus time -----

  /** Telling the fields f while a tick is open leaves all records sound exactly when the end in f is
      its start plus its tick time. */
  lemma TellingSoundExactly(m: Master, f: Fields)
    requires f.state == RUNNING && f.tickStart.Some? && 0 < f.tickStart.value && 0 < f.tickTime
    requires forall i | i in m.redis.rounds :: Sound(m.redis.rounds[i])
    ensures var rounds := OnUpdateTimes(m.(f := f)).redis.rounds;
            (forall i | i in rounds :: Sound(rounds[i])) <==> f.tickEnd == Some(f.tickStart.value + f.tickTime)
  {
    OnUpdateTimesEffect(m.(f := f));
    var rounds := OnUpdateTimes(m.(f := f)).redis.rounds;
    assert f.tick in rounds && rounds[f.tick] == Round(f.tickStart, f.tickEnd, f.tickTime);
  }

  /** A step that writes the record of the open tick again leaves it sound exactly when the end it
      writes is start plus tick time. */
  lemma RewritingSoundExactly(w: World, step: Step)
    requires Rewrites(w.m.f, step) && 0 < w.m.f.tickTime && (step.TickTimeCommand? ==> 0 < step.v)
    ensures w.m.f.tick in Next(w, step).m.redis.rounds
    ensures Sound(Next(w, step).m.redis.rounds[w.m.f.tick]) <==> Consistent(TimesWritten(w.m.f, step))
  {
    RewritingEffect(w, step);
  }

  /** The master has heard the first of the two messages of a slave's tick-time command. */
  function HalfHeard(w: World, v: int): World
    requires w.m.f.tickStart.Some?
  {
    Next(w, Heard(Message(RoundEnd, Number(w.m.f.tickStart.value + v))))
  }

  /** One step of the master's own between the two messages writes a skewed record exactly when it
      rewrites the record without computing the end afresh. */
  lemma HalfHeardRecord(w: World, v: int, step: Step)
    requires RoundsInv(w) && w.m.f.state == RUNNING && 0 < v && v != w.m.f.tickTime
    requires !Hears(step) && Enabled(w, step)
    ensures var f := w.m.f;
            var rounds := Next(HalfHeard(w, v), step).m.redis.rounds;
            f.tick in rounds && (Sound(rounds[f.tick]) <==> !Rewrites(f, step) || step.TickTimeCommand?)
  {
    var f := w.m.f;
    var half := HalfHeard(w, v);
    assert half.m.f == f.(tickEnd := Some(f.tickStart.value + v));
    assert Sound(w.m.redis.rounds[f.tick]);
    if Opening(half.m.f, step).Some? {
      OpeningEffect(half, step);
    } else if Rewrites(f, step) {
      RewritingSoundExactly(half, step);
    } else {
      OtherwiseUntouched(half, step);
    }
  }

  /** Once the second message is heard too, the fields of an open tick are skewed exactly when the step
      between opened a new tick or set a third tick time; the next rewriting then writes that down. */
  lemma HalfHeardFields(w: World, v: int, step: Step)
    requires RoundsInv(w) && w.m.f.state == RUNNING && 0 < v && v != w.m.f.tickTime
    requires !Hears(step) && Enabled(w, step)
    ensures var f := w.m.f;
            var both := Next(Next(HalfHeard(w, v), step), Heard(Message(RoundTime, Number(v)))).m.f;
            both.state == RUNNING && !Consistent(both) <==>
            Opening(HalfHeard(w, v).m.f, step).Some? || (step.TickTimeCommand? && step.v != f.tickTime && step.v != v)
  {
    var f := w.m.f;
    var half := HalfHeard(w, v);
    assert half.m.f == f.(tickEnd := Some(f.tickStart.value + v));
    assert Sound(w.m.redis.rounds[f.tick]);
    if Opening(half.m.f, step).Some? {
      OpeningEffect(half, step);
    } else if Rewrites(half.m.f, step) {
      RewritingEffect(half, step);
    } else {
      UnopenedFields(half.m, step);
    }
  }

  /** A step that neither opens a tick nor rewrites a record leaves the times of the tick alone. */
  lemma UnopenedFields(m: Master, step: Step)
    requires m.f.state == RUNNING && m.f.tickEnd.Some? && !Hears(step)
    requires Opening(m.f, step).None? && !Rewrites(m.f, step)
    ensures var f := Act(m, step).f;
            f.tickStart == m.f.tickStart && f.tickEnd == m.f.tickEnd && f.tickTime == m.f.tickTime
  {
    if step.CheckTime? && Truthy(m.f.tickEnd) && step.now >= m.f.tickEnd.value {
      HaltEffect(m, step.now);
    }
  }

  // ----- a tick time set by a slave, heard whole -----

  /** The master hears the new end and tick time but does not rewrite the record. Once the tick is
      over and the next one opens, the two records are in order exactly when the next tick starts no
      earlier than the old recorded end. */
  lemma HeardTickTimeOrder(w: World, v: int, now: int)
    requires RoundsInv(w) && w.m.f.state == RUNNING && w.m.f.desired == RUNNING && 0 < v
    requires var end := w.m.f.tickStart.value + v; w.clock <= now && end <= now
    ensures var f := w.m.f;
            var after := Check(Next(w, HeardTickTime(v)).m, now, now);
            && after.f.tick == f.tick + 1
            && (Recorded(after.redis.rounds, after.f.tick) <==>
                w.m.redis.rounds[f.tick].end.value <= NextStart(f.tickStart.value + v, now))
  {
    var m := Next(w, HeardTickTime(v)).m;
    var f := w.m.f;
    ContinueEffect(m, now);
    var start := NextStart(f.tickStart.value + v, now);
    var r := Round(Some(start), Some(start + v), v);
    var rounds := w.m.redis.rounds[f.tick + 1 := r];
    assert m.f.tickTime == v && m.f.tickEnd == Some(f.tickStart.value + v);
    if w.m.redis.rounds[f.tick].end.value <= start {
      RecordNext(w.m.redis.rounds, f.tick, r);
    } else {
      assert f.tick in rounds && f.tick + 1 in rounds && rounds[f.tick] == w.m.redis.rounds[f.tick];
    }
  }

  /** The same when the shortened tick ends the game for now: the records are in order exactly when the
      next start comes no earlier than the old recorded end. */
  lemma HeardTickTimeThenHalt(w: World, v: int, now: int, later: int)
    requires RoundsInv(w) && w.m.f.state == RUNNING && w.m.f.desired != RUNNING && 0 < v
    requires w.clock <= now <= later && w.m.f.tickStart.value + v <= now
    ensures var f := w.m.f;
            var halted := Check(Next(w, HeardTickTime(v)).m, now, now);
            var after := Start(halted, later);
            && halted.f.state == f.desired && after.f.tick == f.tick + 1
            && (Recorded(after.redis.rounds, after.f.tick) <==> w.m.redis.rounds[f.tick].end.value <= later)
  {
    var m := Next(w, HeardTickTime(v)).m;
    assert Sound(w.m.redis.rounds[w.m.f.tick]);
    assert m.f == w.m.f.(tickTime := v, tickEnd := Some(w.m.f.tickStart.value + v));
    HaltThenStart(m, now, later);
    OpenedRecords(m, later, Start(Check(m, now, now), later));
  }

  lemma HaltThenStart(m: Master, now: int, later: int)
    requires m.f.state == RUNNING && m.f.desired != RUNNING && Truthy(m.f.tickEnd) && m.f.tickEnd.value <= now
    ensures Check(m, now, now).f.state == m.f.desired
    ensures Opened(m, later, Start(Check(m, now, now), later))
  {
    HaltEffect(m, now);
    StartOpens(CloseTick(m, now), later);
  }

  /** Any command that makes the master write the record again before that, and all is in order: the
      invariant of orderly runs holds as if the master had set the tick time itself. */
  lemma CommandRestoresOrder(w: World, v: int, step: Step)
    requires RoundsInv(w) && w.m.f.state == RUNNING && 0 < v
    requires Enabled(w, step) && Rewrites(TickTimeHeard(w.m.f, v), step)
    ensures RoundsInv(Next(Next(w, HeardTickTime(v)), step))
  {
    var f, rounds := w.m.f, w.m.redis.rounds;
    var heard := Next(w, HeardTickTime(v));
    assert Sound(rounds[f.tick]);
    assert heard.m.f.tickTime == v && heard.m.f.tickEnd == Some(f.tickStart.value + v);
    RewritingEffect(heard, step);
    var told := TimesWritten(heard.m.f, step);
    RecordAgain(rounds, f.tick, Round(told.tickStart, told.tickEnd, told.tickTime));
  }

  /** A run with overlapping records: the game starts at 10 with ticks of 60 seconds, a slave sets 20
      seconds, tick 2 opens at 30, and the record of tick 1 still says it lasts until 70. */
  lemma ShorterTickTimeOverlaps()
    ensures var w1 := Next(Begin(60), StartCommand(10));
            var w2 := Next(w1, HeardTickTime(20));
            var w3 := Next(w2, CheckTime(30, 30));
            && Reaches(Begin(60), [StartCommand(10), HeardTickTime(20), CheckTime(30, 30)], w3)
            && w3.m.redis.rounds == map[1 := Round(Some(10), Some(70), 60), 2 := Round(Some(30), Some(50), 20)]
  {
    var w1 := Next(Begin(60), StartCommand(10));
    StartEffect(Fresh(60), 10);
    assert map[][1 := Round(Some(10), Some(70), 60)] == map[1 := Round(Some(10), Some(70), 60)];
    ShortenedTick(w1);
    var w2 := Next(w1, HeardTickTime(20));
    ReachesThree(Begin(60), StartCommand(10), w1, HeardTickTime(20), w2, CheckTime(30, 30), Next(w2, CheckTime(30, 30)));
  }

  lemma ShortenedTick(w1: World)
    requires w1.m.f == Fields(RUNNING, RUNNING, 1, Some(10), Some(70), 60, None, None) && w1.clock == 10
    requires w1.m.redis.rounds == map[1 := Round(Some(10), Some(70), 60)]
    ensures Enabled(w1, HeardTickTime(20)) && Enabled(Next(w1, HeardTickTime(20)), CheckTime(30, 30))
    ensures Next(Next(w1, HeardTickTime(20)), CheckTime(30, 30)).m.redis.rounds
            == map[1 := Round(Some(10), Some(70), 60), 2 := Round(Some(30), Some(50), 20)]
  {
    var m := w1.m.(f := Fields(RUNNING, RUNNING, 1, Some(10), Some(30), 20, None, None));
    assert Next(w1, HeardTickTime(20)).m == m;
    ContinueEffect(m, 30);
  }

  /** The two messages of a slave's tick-time command heard one by one, with a check between them:
      tick 2 opens at 30 with the old 60 seconds, and when the master next writes the record it pairs
      that end with the new 20. */
  lemma HalfHeardTickTimeSkews()
    ensures var w1 := Next(Begin(60), StartCommand(10));
            var w2 := Next(w1, Heard(Message(RoundEnd, Number(30))));
            var w3 := Next(w2, CheckTime(30, 30));
            var w4 := Next(w3, Heard(Message(RoundTime, Number(20))));
            var w5 := Next(w4, StopAfterCommand(Some(9)));
            && Enabled(Begin(60), StartCommand(10)) && Enabled(w1, Heard(Message(RoundEnd, Number(30))))
            && Enabled(w2, CheckTime(30, 30)) && Enabled(w3, Heard(Message(RoundTime, Number(20))))
            && 2 in w5.m.redis.rounds && w5.m.redis.rounds[2] == Round(Some(30), Some(90), 20) && !Sound(w5.m.redis.rounds[2])
  {
    var w1 := Next(Begin(60), StartCommand(10));
    StartEffect(Fresh(60), 10);
    var w2 := Next(w1, Heard(Message(RoundEnd, Number(30))));
    assert w2.m.f == Fields(RUNNING, RUNNING, 1, Some(10), Some(30), 60, None, None);
    SkewedTick(w2);
  }

  lemma SkewedTick(w2: World)
    requires w2.m.f == Fields(RUNNING, RUNNING, 1, Some(10), Some(30), 60, None, None) && w2.clock == 10
    ensures var w3 := Next(w2, CheckTime(30, 30));
            var w4 := Next(w3, Heard(Message(RoundTime, Number(20))));
            var w5 := Next(w4, StopAfterCommand(Some(9)));
            2 in w5.m.redis.rounds && w5.m.redis.rounds[2] == Round(Some(30), Some(90), 20)
  {
    ContinueEffect(w2.m, 30);
    var f := Fields(RUNNING, RUNNING, 2, Some(30), Some(90), 20, None, None);
    var w4 := Next(Next(w2, CheckTime(30, 30)), Heard(Message(RoundTime, Number(20))));
    assert w4.m.f == f;
    OnUpdateTimesEffect(w4.m.(f := f.(stopAfter := Some(9))));
  }

  lemma ReachesThree(w: World, a: Step, w1: World, b: Step, w2: World, c: Step, w3: World)
    requires Enabled(w, a) && Next(w, a) == w1 && Enabled(w1, b) && Next(w1, b) == w2 && Enabled(w2, c) && Next(w2, c) == w3
    ensures Reaches(w, [a, b, c], w3)
  {
    ReachesFirst(w2, c, w3, [], w3);
    ReachesFirst(w1, b, w2, [c], w3);
    ReachesFirst(w, a, w1, [b, c], w3);
    assert [c] + [] == [c] && [b] + [c] == [b, c] && [a] + [b, c] == [a, b, c];
  }

  lemma ReachesFirst(w: World, step: Step, next: World, rest: seq<Step>, end: World)
    requires Enabled(w, step) && Next(w, step) == next && Reaches(next, rest, end)
    ensures Reaches(w, [step] + rest, end)
  {
    assert ([step] + rest)[1..] == rest;
  }
}
