/** What the master tells the store and the channel about itself. */
module TimerSync {
  import opened Wrappers
  import opened TimerModel
  import opened TimerRuns

  /** All fields of m' were written after those of m, and nothing else. */
  ghost predicate Publishes(m: Master, m': Master) {
    && m'.redis.published == m.redis.published + FirstMessages(m'.f) + LastMessages(m'.f)
    && m'.redis.store == map k: Key | true :: Encode(m'.f, k)
  }

  /** Nothing was written. */
  ghost predicate Silent(m: Master, m': Master) {
    m'.redis.published == m.redis.published && m'.redis.store == m.redis.store
  }

  lemma StartPublishes(m: Master, now: int)
    requires m.f.state != RUNNING
    ensures Publishes(m, Start(m, now))
  {
    var begun := m.(f := NextTick(m.f.(desired := RUNNING), now).(state := RUNNING));
    var announced := if m.f.state == STOPPED then Emit(WriteRound(begun), StartCtf) else begun;
    assert Silent(m, OnStartTick(announced));
  }

  lemma ClosePublishes(m: Master, now: int)
    requires m.f.tickEnd.Some?
    ensures Publishes(m, CloseTick(m, now))
  {
    var ended := Emit(m, EndTick(m.f.tick));
    if m.f.desired == RUNNING {
      assert Silent(m, OnStartTick(ended.(f := NextTick(m.f, NextStart(m.f.tickEnd.value, now)))));
    } else {
      var halted := ended.(f := m.f.(state := m.f.desired));
      assert Silent(m, if m.f.desired == SUSPENDED then Emit(halted, SuspendCtf) else Emit(WriteRound(halted), EndCtf));
    }
  }

  lemma CheckPublishes(m: Master, now: int, now2: int)
    ensures Publishes(m, Check(m, now, now2)) || Check(m, now, now2) == m
  {
    if m.f.state == RUNNING && Truthy(m.f.tickEnd) && now >= m.f.tickEnd.value {
      ClosePublishes(m, now);
    } else if m.f.state != RUNNING && m.f.desired == RUNNING {
      StartPublishes(m, now2);
    } else if ScheduleDue(m.f, now) {
      StartPublishes(m.(f := m.f.(startAt := None)), now2);
    }
  }

  /** A start command that only takes back a pending suspend or stop. */
  predicate TakesBackHalt(f: Fields, step: Step) {
    step.StartCommand? && f.state == RUNNING && f.desired != RUNNING
  }

  /** A step of the master's own writes all its fields, or changes none of them, except that taking back
      a halt changes the desired state and writes nothing. */
  lemma ActPublishes(m: Master, step: Step)
    requires !Hears(step)
    ensures Publishes(m, Act(m, step)) || Act(m, step) == if TakesBackHalt(m.f, step) then m.(f := m.f.(desired := RUNNING)) else m
    ensures TakesBackHalt(m.f, step) ==> Act(m, step) == m.(f := m.f.(desired := RUNNING))
  {
    match step
    case CheckTime(now, now2) => CheckPublishes(m, now, now2);
    case StartCommand(now) => if m.f.state != RUNNING { StartPublishes(m, now); } else { assert m.(f := m.f.(desired := m.f.desired)) == m; }
    case _ =>
  }

  /** What a master has published by the end of a step it had published before, or it is what its fields
      say now. */
  lemma PublishedAfter(m: Master, step: Step, msg: Message)
    requires msg in Act(m, step).redis.published
    ensures msg in m.redis.published || msg.value == Encode(Act(m, step).f, msg.key)
    ensures msg in m.redis.published || !Hears(step)
  {
    if !Hears(step) {
      ActPublishes(m, step);
    }
  }

  /** Nothing that was published is taken back. */
  lemma PublishedStays(m: Master, step: Step)
    ensures m.redis.published <= Act(m, step).redis.published
  {
    if !Hears(step) {
      ActPublishes(m, step);
    }
  }

  // ----- the store -----

  /** Every key is stored with the master's current value. */
  ghost predicate InSync(m: Master) {
    forall k :: k in m.redis.store && m.redis.store[k] == Encode(m.f, k)
  }

  /** In sync, or nothing has happened yet. */
  ghost predicate SyncedOrNew(m: Master, tickDuration: int) {
    InSync(m) || (m.redis.store == map[] && m.f == Initial(tickDuration))
  }

  /** A change of the desired state alone keeps the store telling all fields only if it is no change. */
  lemma RunningOnlyInSync(m: Master, f: Fields)
    requires InSync(m) && f == m.f.(desired := f.desired)
    ensures InSync(m.(f := f)) <==> f == m.f
    ensures m.redis.store != map[]
  {
    assert State in m.redis.store;
    assert InSync(m.(f := f)) ==> m.redis.store[DesiredState] == Encode(f, DesiredState);
  }

  /** The master's own steps leave the store telling all its fields, except exactly the start command
      given while a tick is running and a halt is pending: it changes the desired state and writes
      nothing, so slaves go on expecting the halt. */
  lemma StepSyncs(m: Master, step: Step, tickDuration: int)
    requires SyncedOrNew(m, tickDuration) && !Hears(step)
    ensures SyncedOrNew(Act(m, step), tickDuration) <==> !TakesBackHalt(m.f, step)
  {
    ActPublishes(m, step);
    if TakesBackHalt(m.f, step) {
      RunningOnlyInSync(m, m.f.(desired := RUNNING));
    }
  }

  /** An echo heard before anything else happens changes nothing on the master. */
  lemma PromptEchoHarmless(f: Fields, k: Key)
    requires f.tickTime != 0
    ensures Listen(f, Message(k, Encode(f, k))) == f
  {
  }
}
