/** The order of listener events over whole runs. */
module TimerEvents {
  import opened Wrappers
  import opened TimerModel
  import opened TimerRuns
  import TimerSync

  /** What a listener can conclude from the events alone. */
  datatype Phase = Idle | Announced | Open | Ended | Paused

  datatype Progress = Progress(tick: int, phase: Phase)

  /** The protocol: one event more, or None when the event is out of order. */
  function Observe(p: Progress, e: Event): Option<Progress> {
    match (e, p.phase)
    case (StartCtf, Idle) => Some(p.(phase := Announced))
    case (StartTick(n), Announced) => if n == p.tick + 1 then Some(Progress(n, Open)) else None
    case (StartTick(n), Paused) => if n == p.tick + 1 then Some(Progress(n, Open)) else None
    case (StartTick(n), Ended) => if n == p.tick + 1 then Some(Progress(n, Open)) else None
    case (EndTick(n), Open) => if n == p.tick then Some(Progress(n, Ended)) else None
    case (SuspendCtf, Ended) => Some(p.(phase := Paused))
    case (EndCtf, Ended) => Some(p.(phase := Idle))
    case (UpdateTimes, Idle) => Some(p)
    case (UpdateTimes, Open) => Some(p)
    case (UpdateTimes, Paused) => Some(p)
    case _ => None
  }

  function Replay(events: seq<Event>): Option<Progress> {
    if events == [] then Some(Progress(0, Idle))
    else
      match Replay(events[..|events| - 1])
      case None => None
      case Some(p) => Observe(p, events[|events| - 1])
  }

  lemma ReplayOne(events: seq<Event>, e: Event)
    ensures Replay(events + [e]) ==
            match Replay(events) case None => None case Some(p) => Observe(p, e)
  {
    assert (events + [e])[..|events + [e]| - 1] == events;
  }

  function PhaseOf(s: CTFState): Phase {
    match s
    case STOPPED => Idle
    case SUSPENDED => Paused
    case RUNNING => Open
  }

  /** The events are in order and tell exactly the current tick and state. */
  ghost predicate Told(m: Master) {
    Replay(m.events) == Some(Progress(m.f.tick, PhaseOf(m.f.state)))
  }

  /** A notification of new times keeps the events in order. */
  lemma UpdateTold(m: Master)
    requires Told(m)
    ensures Told(OnUpdateTimes(m))
  {
    OnUpdateTimesEffect(m);
    ReplayOne(m.events, UpdateTimes);
  }

  /** Opening a tick once it may be opened. */
  lemma OpenTold(m: Master, p: Progress)
    requires Replay(m.events) == Some(p) && (p.phase == Announced || p.phase == Paused || p.phase == Ended)
    requires m.f.state == RUNNING && m.f.tick == p.tick + 1
    ensures Told(OnUpdateTimes(OnStartTick(m)))
  {
    ReplayOne(m.events, StartTick(m.f.tick));
    UpdateTold(OnStartTick(m));
  }

  lemma StartTold(m: Master, now: int)
    requires Told(m)
    ensures Told(Start(m, now))
  {
    if m.f.state != RUNNING {
      var begun := m.(f := NextTick(m.f.(desired := RUNNING), now).(state := RUNNING));
      if m.f.state == STOPPED {
        ReplayOne(m.events, StartCtf);
        OpenTold(Emit(WriteRound(begun), StartCtf), Progress(m.f.tick, Announced));
      } else {
        OpenTold(begun, Progress(m.f.tick, Paused));
      }
    }
  }

  lemma CloseTold(m: Master, now: int)
    requires Told(m) && m.f.state == RUNNING && m.f.tickEnd.Some?
    ensures Told(CloseTick(m, now))
  {
    var ended := Emit(m, EndTick(m.f.tick));
    ReplayOne(m.events, EndTick(m.f.tick));
    if m.f.desired == RUNNING {
      OpenTold(ended.(f := NextTick(m.f, NextStart(m.f.tickEnd.value, now))), Progress(m.f.tick, Ended));
    } else {
      var halted := ended.(f := m.f.(state := m.f.desired));
      ReplayOne(ended.events, SuspendCtf);
      ReplayOne(ended.events, EndCtf);
      UpdateTold(if m.f.desired == SUSPENDED then Emit(halted, SuspendCtf) else Emit(WriteRound(halted), EndCtf));
    }
  }

  lemma CheckTold(m: Master, now: int, now2: int)
    requires Told(m)
    ensures Told(Check(m, now, now2))
  {
    if m.f.state == RUNNING && Truthy(m.f.tickEnd) && now >= m.f.tickEnd.value {
      CloseTold(m, now);
    } else if m.f.state != RUNNING && m.f.desired == RUNNING {
      StartTold(m, now2);
    } else if ScheduleDue(m.f, now) {
      StartTold(m.(f := m.f.(startAt := None)), now2);
    }
  }

  /** A change of fields other than state and tick, announced. */
  lemma ChangeTold(m: Master, f: Fields)
    requires Told(m) && f.state == m.f.state && f.tick == m.f.tick
    ensures Told(OnUpdateTimes(m.(f := f)))
  {
    UpdateTold(m.(f := f));
  }

  /** Hearing a message keeps the events in agreement with tick and state exactly when it does not tell
      another tick or state. */
  lemma HearingTold(m: Master, msg: Message)
    requires Told(m) && RightKind(msg)
    ensures Told(m.(f := Listen(m.f, msg))) <==> (TellsProgress(msg.key) ==> msg.value == Encode(m.f, msg.key))
  {
  }

  /** Every step keeps the events in order and in agreement with tick and state, except exactly the
      master hearing an outdated state or tick number of its own. */
  lemma StepTold(w: World, step: Step)
    requires Told(w.m) && Enabled(w, step)
    ensures Told(Next(w, step).m) <==> Timely(w.m.f, step)
  {
    var m := w.m;
    match step
    case CheckTime(now, now2) => CheckTold(m, now, now2);
    case StartCommand(now) => StartTold(m, now);
    case SuspendCommand => ChangeTold(m, m.f.(desired := SUSPENDED));
    case StopCommand => ChangeTold(m, m.f.(desired := STOPPED));
    case TickTimeCommand(v) => ChangeTold(m, WithTickTime(m.f, v));
    case StopAfterCommand(last) => ChangeTold(m, m.f.(stopAfter := last));
    case StartAtCommand(at) => ChangeTold(m, m.f.(startAt := at));
    case Heard(msg) => HearingTold(m, msg);
    case HeardTickTime(v) =>
    case Echo(msg) => HearingTold(m, msg);
  }

  /** Told in every state of the run. */
  ghost predicate ToldThroughout(start: World, steps: seq<Step>)
    decreases |steps|
  {
    Told(start.m) && (steps == [] || ToldThroughout(Next(start, steps[0]), steps[1..]))
  }

  lemma {:induction false} RunTold(start: World, steps: seq<Step>, end: World)
    requires Told(start.m) && Reaches(start, steps, end)
    ensures ToldThroughout(start, steps) <==> TimelyRun(start, steps)
    ensures TimelyRun(start, steps) ==> Told(end.m)
    decreases |steps|
  {
    if steps != [] {
      StepTold(start, steps[0]);
      if Timely(start.m.f, steps[0]) {
        RunTold(Next(start, steps[0]), steps[1..], end);
      }
    }
  }

  // ----- what the protocol implies -----

  /** Start-tick and end-tick events only. */
  function TickEvents(events: seq<Event>): seq<Event> {
    if events == [] then []
    else
      var front := TickEvents(events[..|events| - 1]);
      var e := events[|events| - 1];
      if e.StartTick? || e.EndTick? then front + [e] else front
  }

  /** start 1, end 1, start 2, end 2, ..., start n and, unless tick n is open, end n. */
  function Alternation(n: nat, open: bool): seq<Event>
    decreases n, !open
  {
    if n == 0 then []
    else if open then Alternation(n - 1, false) + [StartTick(n)]
    else Alternation(n, true) + [EndTick(n)]
  }

  lemma {:induction false} ReplayAlternates(events: seq<Event>)
    requires Replay(events).Some?
    ensures 0 <= Replay(events).value.tick
    ensures Replay(events).value.phase == Open ==> 0 < Replay(events).value.tick
    ensures TickEvents(events) == Alternation(Replay(events).value.tick, Replay(events).value.phase == Open)
  {
    if events != [] {
      ReplayAlternates(events[..|events| - 1]);
    }
  }

  lemma {:induction false} AlternationContains(n: nat, open: bool, k: int)
    ensures StartTick(k) in Alternation(n, open) <==> 1 <= k <= n
    ensures EndTick(k) in Alternation(n, open) <==> 1 <= k <= (if open then n - 1 else n)
    decreases n, !open
  {
    if n > 0 {
      AlternationContains(if open then n - 1 else n, !open, k);
    }
  }

  lemma {:induction false} TickEventsMembers(events: seq<Event>, e: Event)
    requires e.StartTick? || e.EndTick?
    ensures e in events <==> e in TickEvents(events)
  {
    if events != [] {
      TickEventsMembers(events[..|events| - 1], e);
      assert events == events[..|events| - 1] + [events[|events| - 1]];
    }
  }

  /** Suspend and end events come directly after the end of a tick. */
  lemma {:induction false} HaltsFollowEnds(events: seq<Event>, i: nat)
    requires Replay(events).Some? && i < |events| && (events[i].SuspendCtf? || events[i].EndCtf?)
    ensures 0 < i && events[i - 1].EndTick?
  {
    var n := |events| - 1;
    if i < n {
      HaltsFollowEnds(events[..n], i);
    } else {
      EndedMeansEndTick(events[..n]);
    }
  }

  lemma EndedMeansEndTick(events: seq<Event>)
    requires Replay(events).Some? && Replay(events).value.phase == Ended
    ensures events != [] && events[|events| - 1].EndTick?
  {
  }

  /** In every run from a fresh master that hears no outdated state or tick number of its own: the tick
      events alternate without gap, repeat or overlap up to the current tick, a tick is open exactly
      when the state is RUNNING, and the game is suspended or ended only right after the end of a tick. */
  lemma EventsInOrder(tickDuration: int, steps: seq<Step>, w: World)
    requires Reaches(Begin(tickDuration), steps, w) && TimelyRun(Begin(tickDuration), steps)
    ensures 0 <= w.m.f.tick
    ensures TickEvents(w.m.events) == Alternation(w.m.f.tick, w.m.f.state == RUNNING)
    ensures forall i | 0 <= i < |w.m.events| && (w.m.events[i].SuspendCtf? || w.m.events[i].EndCtf?) ::
              0 < i && w.m.events[i - 1].EndTick?
    ensures Told(w.m)
  {
    RunTold(Begin(tickDuration), steps, w);
    ReplayAlternates(w.m.events);
    forall i | 0 <= i < |w.m.events| && (w.m.events[i].SuspendCtf? || w.m.events[i].EndCtf?)
      ensures 0 < i && w.m.events[i - 1].EndTick?
    {
      HaltsFollowEnds(w.m.events, i);
    }
  }

  /** The events agree with tick and state all through a run exactly when every state and tick number
      of its own that the master hears is the current one. */
  lemma EventsAgreeExactly(tickDuration: int, steps: seq<Step>, w: World)
    requires Reaches(Begin(tickDuration), steps, w)
    ensures ToldThroughout(Begin(tickDuration), steps) <==> TimelyRun(Begin(tickDuration), steps)
  {
    RunTold(Begin(tickDuration), steps, w);
  }

  // ----- what a step adds -----

  /** m' comes after m and has seen the start of the tick after m's. */
  ghost predicate StartsNext(m: Master, m': Master) {
    && m.events <= m'.events
    && m'.f.tick == m.f.tick + 1
    && forall j :: StartTick(j) in m'.events <==> StartTick(j) in m.events || j == m.f.tick + 1
  }

  lemma StartStartsNext(m: Master, now: int)
    requires m.f.state != RUNNING
    ensures StartsNext(m, Start(m, now))
  {
    StartEffect(m, now);
  }

  lemma CheckStartsNext(m: Master, now: int, now2: int)
    requires Opening(m.f, CheckTime(now, now2)).Some?
    ensures StartsNext(m, Check(m, now, now2))
  {
    if m.f.state == RUNNING {
      ContinueEffect(m, now);
    } else if m.f.desired == RUNNING {
      StartStartsNext(m, now2);
    } else {
      StartStartsNext(m.(f := m.f.(startAt := None)), now2);
    }
  }

  /** Nothing but an opening starts a tick, namely the one after the current. */
  lemma StepEvents(m: Master, step: Step)
    ensures m.events <= Act(m, step).events
    ensures Opening(m.f, step).Some? ==> StartsNext(m, Act(m, step))
    ensures Opening(m.f, step).None? ==> forall j :: StartTick(j) in Act(m, step).events <==> StartTick(j) in m.events
  {
    match step
    case CheckTime(now, now2) =>
      if Opening(m.f, step).Some? {
        CheckStartsNext(m, now, now2);
      } else if m.f.state == RUNNING && Truthy(m.f.tickEnd) && now >= m.f.tickEnd.value {
        HaltEffect(m, now);
      }
    case StartCommand(now) => if m.f.state != RUNNING { StartStartsNext(m, now); }
    case SuspendCommand => OnUpdateTimesEffect(m.(f := m.f.(desired := SUSPENDED)));
    case StopCommand => OnUpdateTimesEffect(m.(f := m.f.(desired := STOPPED)));
    case TickTimeCommand(v) => OnUpdateTimesEffect(m.(f := WithTickTime(m.f, v)));
    case StopAfterCommand(last) => OnUpdateTimesEffect(m.(f := m.f.(stopAfter := last)));
    case StartAtCommand(at) => OnUpdateTimesEffect(m.(f := m.f.(startAt := at)));
    case _ =>
  }

  // ----- late echoes -----

  /** check_time finds something to do. */
  predicate Acts(f: Fields, now: int) {
    || (f.state == RUNNING && Truthy(f.tickEnd) && now >= f.tickEnd.value)
    || (f.state != RUNNING && f.desired == RUNNING)
    || ScheduleDue(f, now)
  }

  lemma {:induction false} ReplayStuck(events: seq<Event>, more: seq<Event>)
    requires Replay(events) == None
    ensures Replay(events + more) == None
    decreases |more|
  {
    if more == [] {
      assert events + more == events;
    } else {
      ReplayOne(events, more[0]);
      ReplayStuck(events + [more[0]], more[1..]);
      assert events + [more[0]] + more[1..] == events + more;
    }
  }

  /** When a tick may open. */
  lemma OpeningReplay(events: seq<Event>, n: int)
    ensures Replay(events + [StartTick(n), UpdateTimes]).Some? <==>
            match Replay(events)
            case None => false
            case Some(p) => n == p.tick + 1 && (p.phase == Announced || p.phase == Paused || p.phase == Ended)
  {
    ReplayOne(events, StartTick(n));
    ReplayOne(events + [StartTick(n)], UpdateTimes);
    assert events + [StartTick(n), UpdateTimes] == events + [StartTick(n)] + [UpdateTimes];
  }

  /** start_ctf keeps the events in order exactly when they tell the tick and state it starts from. */
  lemma StartReplay(m: Master, now: int, p: Progress)
    requires m.f.state != RUNNING && Replay(m.events) == Some(p) && (p.phase == Idle || p.phase == Open || p.phase == Paused)
    ensures Replay(Start(m, now).events).Some? <==> p == Progress(m.f.tick, PhaseOf(m.f.state))
  {
    StartEffect(m, now);
    var announced := m.events + (if m.f.state == STOPPED then [StartCtf] else []);
    if m.f.state == STOPPED {
      ReplayOne(m.events, StartCtf);
    } else {
      assert announced == m.events;
    }
    OpeningReplay(announced, m.f.tick + 1);
  }

  /** And so does the end of a tick. */
  lemma CloseReplay(m: Master, now: int, p: Progress)
    requires m.f.state == RUNNING && m.f.tickEnd.Some?
    requires Replay(m.events) == Some(p) && (p.phase == Idle || p.phase == Open || p.phase == Paused)
    ensures Replay(CloseTick(m, now).events).Some? <==> p == Progress(m.f.tick, Open)
  {
    if p == Progress(m.f.tick, Open) {
      CloseTold(m, now);
    } else {
      ReplayOne(m.events, EndTick(m.f.tick));
      ReplayStuck(m.events + [EndTick(m.f.tick)], AfterEnd(m));
      CloseEvents(m, now);
    }
  }

  /** What listeners see once they have seen the end of the tick. */
  function AfterEnd(m: Master): seq<Event> {
    match m.f.desired
    case RUNNING => [StartTick(m.f.tick + 1), UpdateTimes]
    case SUSPENDED => [SuspendCtf, UpdateTimes]
    case STOPPED => [EndCtf, UpdateTimes]
  }

  lemma CloseEvents(m: Master, now: int)
    requires m.f.state == RUNNING && m.f.tickEnd.Some?
    ensures CloseTick(m, now).events == m.events + [EndTick(m.f.tick)] + AfterEnd(m)
  {
    if m.f.desired == RUNNING {
      ContinueEffect(m, now);
    } else {
      HaltEffect(m, now);
    }
    assert m.events + ([EndTick(m.f.tick)] + AfterEnd(m)) == m.events + [EndTick(m.f.tick)] + AfterEnd(m);
  }

  /** A step that ends or opens a tick: a check that finds something to do, or a start command on a
      timer that is not RUNNING. */
  predicate Acting(f: Fields, step: Step) {
    match step
    case CheckTime(now, _) => Acts(f, now)
    case StartCommand(_) => f.state != RUNNING
    case _ => false
  }

  /** The events are in order, and no tick is about to open. */
  ghost predicate Settled(m: Master) {
    && Replay(m.events).Some?
    && (Replay(m.events).value.phase == Idle || Replay(m.events).value.phase == Open || Replay(m.events).value.phase == Paused)
  }

  lemma UpdateSettled(m: Master, f: Fields)
    requires Settled(m)
    ensures Settled(OnUpdateTimes(m.(f := f)))
  {
    OnUpdateTimesEffect(m.(f := f));
    ReplayOne(m.events, UpdateTimes);
  }

  /** A step ends or opens a tick while tick and state are not what the listeners were told. */
  ghost predicate Misplaced(m: Master, step: Step) {
    Acting(m.f, step) && !Told(m)
  }

  lemma ActingReplay(m: Master, step: Step)
    requires Settled(m) && Acting(m.f, step)
    ensures Replay(Act(m, step).events).Some? <==> Told(m)
    ensures Told(m) ==> Settled(Act(m, step))
  {
    var p := Replay(m.events).value;
    if step.StartCommand? {
      StartReplay(m, step.now, p);
      if Told(m) { StartTold(m, step.now); }
    } else {
      if m.f.state == RUNNING {
        CloseReplay(m, step.now, p);
      } else if m.f.desired == RUNNING {
        StartReplay(m, step.now2, p);
      } else {
        StartReplay(m.(f := m.f.(startAt := None)), step.now2, p);
      }
      if Told(m) { CheckTold(m, step.now, step.now2); }
    }
  }

  /** Every step keeps the events in order, except exactly a misplaced one. */
  lemma StepOrdered(m: Master, step: Step)
    requires Settled(m)
    ensures Replay(Act(m, step).events).Some? <==> !Misplaced(m, step)
    ensures !Misplaced(m, step) ==> Settled(Act(m, step))
  {
    if Acting(m.f, step) {
      ActingReplay(m, step);
    } else {
      match step
      case SuspendCommand => UpdateSettled(m, m.f.(desired := SUSPENDED));
      case StopCommand => UpdateSettled(m, m.f.(desired := STOPPED));
      case TickTimeCommand(v) => UpdateSettled(m, WithTickTime(m.f, v));
      case StopAfterCommand(last) => UpdateSettled(m, m.f.(stopAfter := last));
      case StartAtCommand(at) => UpdateSettled(m, m.f.(startAt := at));
      case _ =>
    }
  }

  ghost predicate NothingMisplaced(start: World, steps: seq<Step>)
    decreases |steps|
  {
    steps == [] || (!Misplaced(start.m, steps[0]) && NothingMisplaced(Next(start, steps[0]), steps[1..]))
  }

  lemma {:induction false} EventsGrow(start: World, steps: seq<Step>, end: World)
    requires Reaches(start, steps, end)
    ensures start.m.events <= end.m.events
    decreases |steps|
  {
    if steps != [] {
      StepEvents(start.m, steps[0]);
      EventsGrow(Next(start, steps[0]), steps[1..], end);
    }
  }

  lemma {:induction false} RunOrdered(start: World, steps: seq<Step>, end: World)
    requires Settled(start.m) && Reaches(start, steps, end)
    ensures Replay(end.m.events).Some? <==> NothingMisplaced(start, steps)
    decreases |steps|
  {
    if steps != [] {
      var next := Next(start, steps[0]);
      StepOrdered(start.m, steps[0]);
      if Misplaced(start.m, steps[0]) {
        EventsGrow(next, steps[1..], end);
        ReplayStuck(next.m.events, end.m.events[|next.m.events|..]);
        assert next.m.events + end.m.events[|next.m.events|..] == end.m.events;
      } else {
        RunOrdered(next, steps[1..], end);
      }
    }
  }

  /** Every run from a fresh master, whatever it hears and when: the events are in order exactly when no
      tick was ended or opened while tick and state differed from what the listeners had been told. In
      order means that tick events alternate without gap, repeat or overlap, and that the game is
      suspended or ended only right after the end of a tick. */
  lemma EventsInOrderExactly(tickDuration: int, steps: seq<Step>, w: World)
    requires Reaches(Begin(tickDuration), steps, w)
    ensures Replay(w.m.events).Some? <==> NothingMisplaced(Begin(tickDuration), steps)
    ensures NothingMisplaced(Begin(tickDuration), steps) ==>
              && (exists n: nat, open :: TickEvents(w.m.events) == Alternation(n, open))
              && forall i | 0 <= i < |w.m.events| && (w.m.events[i].SuspendCtf? || w.m.events[i].EndCtf?) ::
                   0 < i && w.m.events[i - 1].EndTick?
  {
    RunOrdered(Begin(tickDuration), steps, w);
    if NothingMisplaced(Begin(tickDuration), steps) {
      ReplayAlternates(w.m.events);
      forall i | 0 <= i < |w.m.events| && (w.m.events[i].SuspendCtf? || w.m.events[i].EndCtf?)
        ensures 0 < i && w.m.events[i - 1].EndTick?
      {
        HaltsFollowEnds(w.m.events, i);
      }
    }
  }

  /** After hearing a state or tick number the next step of the master's own keeps the events in order
      exactly when what was heard is the current value, or the step ends and opens no tick. */
  lemma LateEchoBreaksOrder(m: Master, msg: Message, step: Step)
    requires Told(m) && TellsProgress(msg.key) && RightKind(msg)
    ensures var heard := m.(f := Listen(m.f, msg));
            Replay(Act(heard, step).events).Some? <==> msg.value == Encode(m.f, msg.key) || !Acting(heard.f, step)
  {
    HearingTold(m, msg);
    StepOrdered(m.(f := Listen(m.f, msg)), step);
  }

  /** An open tick that is over, after the master heard tick number n: tick n is ended and tick n + 1
      is started, which for every earlier n the listeners have seen before. */
  lemma LateEchoRepeatsTick(m: Master, n: int, now: int)
    requires Told(m) && m.f.state == RUNNING && m.f.desired == RUNNING && Truthy(m.f.tickEnd) && now >= m.f.tickEnd.value
    ensures var heard := m.(f := Listen(m.f, Message(CurrentRound, Number(n))));
            TickEvents(Check(heard, now, now).events) == TickEvents(m.events) + [EndTick(n), StartTick(n + 1)]
    ensures 0 <= n < m.f.tick ==> StartTick(n + 1) in TickEvents(m.events)
  {
    ContinueEffect(m.(f := m.f.(tick := n)), now);
    TickEventsOfTriple(m.events, EndTick(n), StartTick(n + 1));
    ReplayAlternates(m.events);
    if 0 <= n < m.f.tick {
      AlternationContains(m.f.tick, true, n + 1);
    }
  }

  /** Such a run exists: tick 2 is open, and the master hears that it is tick 1. */
  lemma LateEchoIsPossible()
    ensures var w1 := Next(Begin(60), StartCommand(10));
            var w2 := Next(w1, CheckTime(70, 70));
            var late := Echo(Message(CurrentRound, Number(1)));
            && Enabled(Begin(60), StartCommand(10)) && Enabled(w1, CheckTime(70, 70)) && Enabled(w2, late)
            && Told(w2.m) && w2.m.f == Fields(RUNNING, RUNNING, 2, Some(70), Some(130), 60, None, None)
            && !Timely(w2.m.f, late)
  {
    var w1 := Next(Begin(60), StartCommand(10));
    StartEffect(Fresh(60), 10);
    FirstPublication(60, 10);
    StepTold(Begin(60), StartCommand(10));
    ContinueEffect(w1.m, 70);
    CloseTold(w1.m, 70);
    TimerSync.PublishedStays(w1.m, CheckTime(70, 70));
  }

  lemma FirstPublication(tickDuration: int, now: int)
    ensures Message(CurrentRound, Number(1)) in Start(Fresh(tickDuration), now).redis.published
  {
    var begun := Fresh(tickDuration).(f := NextTick(Initial(tickDuration).(desired := RUNNING), now).(state := RUNNING));
    var announced := OnStartTick(Emit(WriteRound(begun), StartCtf));
    assert FirstMessages(announced.f)[2] == Message(CurrentRound, Number(1));
    assert Message(CurrentRound, Number(1)) in PublishAll(announced.redis, announced.f).published;
  }

  lemma TickEventsOfTriple(front: seq<Event>, e: Event, e': Event)
    ensures TickEvents(front + [e, e', UpdateTimes]) ==
            TickEvents(front) + (if e.StartTick? || e.EndTick? then [e] else [])
                              + (if e'.StartTick? || e'.EndTick? then [e'] else [])
  {
    assert front + [e, e', UpdateTimes] == front + [e] + [e'] + [UpdateTimes];
    TickEventsOne(front, e);
    TickEventsOne(front + [e], e');
    TickEventsOne(front + [e] + [e'], UpdateTimes);
  }

  lemma TickEventsOne(front: seq<Event>, e: Event)
    ensures TickEvents(front + [e]) == TickEvents(front) + (if e.StartTick? || e.EndTick? then [e] else [])
  {
    assert (front + [e])[..|front + [e]| - 1] == front;
  }
}
