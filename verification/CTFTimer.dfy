/** The timer objects. */
module CTFTimers {
  import opened Wrappers
  import TM = TimerModel
  import opened TimerModel

  /** The Redis server, as far as timers use it. */
  class RedisServer {
    var store: Store
    var published: seq<Message>
    var rounds: map<int, Round>

    ghost function View(): Redis
      reads this
    {
      Redis(store, published, rounds)
    }

    constructor ()
      ensures View() == Redis(map[], [], map[])
    {
      store, published, rounds := map[], [], map[];
    }

    method SetAndPublish(key: Key, value: Wire)
      modifies this
      ensures View() == TM.SetAndPublish(old(View()), Message(key, value))
    {
      store := store[key := value];
      published := published + [Message(key, value)];
    }

    method SetRound(tick: int, start: Option<int>, end: Option<int>, time: int)
      modifies this`rounds
      ensures rounds == old(rounds)[tick := Round(start, end, time)]
    {
      rounds := rounds[tick := Round(start, end, time)];
    }
  }

  class CTFTimer {
    const redis: RedisServer
    var state: CTFState
    var desiredState: CTFState
    var currentTick: int
    var tickStart: Option<int>
    var tickEnd: Option<int>
    var tickTime: int
    var stopAfterTick: Option<int>
    var startAt: Option<int>
    var events: seq<Event>  // the calls made to the listeners

    ghost function View(): Master
      reads this, redis
    {
      Master(Fields(state, desiredState, currentTick, tickStart, tickEnd, tickTime, stopAfterTick, startAt),
             redis.View(), events)
    }

    constructor (redis: RedisServer, tickDuration: int)
      ensures this.redis == redis
      ensures View() == Master(Initial(tickDuration), redis.View(), [])
    {
      this.redis := redis;
      state, desiredState, currentTick := STOPPED, STOPPED, 0;
      tickStart, tickEnd, tickTime := None, None, tickDuration;
      stopAfterTick, startAt := None, None;
      events := [];
    }

    method CheckTime(now: int, now2: int)
      modifies this, redis
      ensures View() == TM.Check(old(View()), now, now2)
    {
      if state == RUNNING && Truthy(tickEnd) && now >= tickEnd.value {
        CloseTick(now);
      } else if state != RUNNING && desiredState == RUNNING {
        StartCtf(now2);
      } else if state != RUNNING && Truthy(startAt) && startAt.value <= now <= startAt.value + 4 {
        startAt := None;
        StartCtf(now2);
      }
    }

    /** The branch of check_time in which the current tick ends. */
    method CloseTick(now: int)
      requires tickEnd.Some?
      modifies this, redis
      ensures View() == TM.CloseTick(old(View()), now)
    {
      ghost var before := View();
      OnEndTick(currentTick);
      if desiredState == RUNNING {
        currentTick := currentTick + 1;
        tickStart := Some(if now > tickEnd.value + 1 then now else tickEnd.value);
        tickEnd := Some(tickStart.value + tickTime);
        assert View() == Emit(before, EndTick(before.f.tick)).(f := NextTick(before.f, NextStart(before.f.tickEnd.value, now)));
        OnStartTick(currentTick);
      } else {
        state := desiredState;
        assert View() == Emit(before, EndTick(before.f.tick)).(f := before.f.(state := before.f.desired));
        if state == SUSPENDED {
          OnSuspendCtf();
        } else {
          OnEndCtf();
        }
      }
      OnUpdateTimes();
    }

    method StartCtf(now: int)
      modifies this, redis
      ensures View() == TM.Start(old(View()), now)
    {
      desiredState := RUNNING;
      if state != RUNNING {
        currentTick := currentTick + 1;
        tickStart := Some(now);
        tickEnd := Some(tickStart.value + tickTime);
        var oldState := state;
        state := RUNNING;
        ghost var wanted := old(View()).(f := old(View()).f.(desired := RUNNING));
        assert View() == wanted.(f := NextTick(wanted.f, now).(state := RUNNING));
        if oldState == STOPPED {
          OnStartCtf();
        }
        OnStartTick(currentTick);
        OnUpdateTimes();
      }
    }

    method SuspendCtfAfterTick()
      modifies this, redis
      ensures View() == TM.Suspend(old(View()))
    {
      desiredState := SUSPENDED;
      OnUpdateTimes();
    }

    method StopCtfAfterTick()
      modifies this, redis
      ensures View() == TM.Stop(old(View()))
    {
      desiredState := STOPPED;
      OnUpdateTimes();
    }

    method SetTickTime(v: int)
      modifies this, redis
      ensures View() == TM.SetTickTime(old(View()), v)
    {
      if tickTime != v {
        tickTime := v;
        if Truthy(tickStart) {
          tickEnd := Some(tickStart.value + tickTime);
        }
        OnUpdateTimes();
      }
    }

    method SetStopAfterTick(lastTick: Option<int>)
      modifies this, redis
      ensures View() == TM.SetStopAfter(old(View()), lastTick)
    {
      if stopAfterTick != lastTick {
        stopAfterTick := lastTick;
        OnUpdateTimes();
      }
    }

    method SetStartAt(timestamp: Option<int>)
      modifies this, redis
      ensures View() == TM.SetStartAt(old(View()), timestamp)
    {
      if startAt != timestamp {
        startAt := timestamp;
        OnUpdateTimes();
      }
    }

    method OnStartTick(tick: int)
      requires tick == currentTick
      modifies this
      ensures View() == TM.OnStartTick(old(View()))
    {
      if Truthy(stopAfterTick) && stopAfterTick.value == tick {
        desiredState := STOPPED;
        stopAfterTick := None;
      }
      events := events + [StartTick(tick)];
    }

    method OnEndTick(tick: int)
      modifies this`events
      ensures View() == Emit(old(View()), EndTick(tick))
    {
      events := events + [EndTick(tick)];
    }

    method OnStartCtf()
      modifies this`events, redis
      ensures View() == Emit(WriteRound(old(View())), TimerModel.StartCtf)
    {
      UpdateTickTimes();
      events := events + [TM.StartCtf];
    }

    method OnSuspendCtf()
      modifies this`events
      ensures View() == Emit(old(View()), SuspendCtf)
    {
      events := events + [SuspendCtf];
    }

    method OnEndCtf()
      modifies this`events, redis
      ensures View() == Emit(WriteRound(old(View())), EndCtf)
    {
      UpdateTickTimes();
      events := events + [EndCtf];
    }

    method OnUpdateTimes()
      modifies this`events, redis
      ensures View() == TM.OnUpdateTimes(old(View()))
    {
      AllKeysWritten(redis.store, View().f);
      WriteStates();
      WriteTimes();
      assert redis.View() == PublishAll(old(redis.View()), View().f);
      UpdateTickTimes();
      events := events + [UpdateTimes];
    }

    /** The first four writes of on_update_times. */
    method WriteStates()
      modifies redis
      ensures redis.store == FirstFour(old(redis.store), View().f)
      ensures redis.published == old(redis.published) + FirstMessages(View().f)
      ensures redis.rounds == old(redis.rounds)
    {
      redis.SetAndPublish(State, Name(state));
      redis.SetAndPublish(DesiredState, Name(desiredState));
      redis.SetAndPublish(CurrentRound, Number(currentTick));
      redis.SetAndPublish(RoundStart, EncodeOption(tickStart));
    }

    /** The other four. */
    method WriteTimes()
      modifies redis
      ensures redis.store == LastFour(old(redis.store), View().f)
      ensures redis.published == old(redis.published) + LastMessages(View().f)
      ensures redis.rounds == old(redis.rounds)
    {
      redis.SetAndPublish(RoundEnd, EncodeOption(tickEnd));
      redis.SetAndPublish(RoundTime, Number(tickTime));
      redis.SetAndPublish(StopAfterRound, EncodeOption(stopAfterTick));
      redis.SetAndPublish(Key.StartAt, EncodeOption(startAt));
    }

    method UpdateTickTimes()
      modifies redis`rounds
      ensures View() == WriteRound(old(View()))
    {
      if state == RUNNING {
        redis.SetRound(currentTick, tickStart, tickEnd, tickTime);
      }
    }
  }

  ghost function FirstFour(store: Store, f: Fields): Store {
    store[State := Encode(f, State)][DesiredState := Encode(f, DesiredState)]
         [CurrentRound := Encode(f, CurrentRound)][RoundStart := Encode(f, RoundStart)]
  }

  ghost function LastFour(store: Store, f: Fields): Store {
    store[RoundEnd := Encode(f, RoundEnd)][RoundTime := Encode(f, RoundTime)]
         [StopAfterRound := Encode(f, StopAfterRound)][Key.StartAt := Encode(f, Key.StartAt)]
  }

  /** The eight keys are all there are. */
  lemma AllKeysWritten(store: Store, f: Fields)
    ensures LastFour(FirstFour(store, f), f) == map k: Key | true :: Encode(f, k)
  {
  }
}
