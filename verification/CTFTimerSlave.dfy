/** The slave object. */
module CTFTimerSlaves {
  import opened Wrappers
  import TM = TimerModel
  import opened TimerModel
  import opened CTFTimers
  import TimerReplica

  class CTFTimerSlave {
    const redis: RedisServer
    var state: CTFState
    var desiredState: CTFState
    var currentTick: int
    var tickStart: Option<int>
    var tickEnd: Option<int>
    var tickTime: int
    var stopAfterTick: Option<int>
    var startAt: Option<int>

    ghost function View(): Fields
      reads this
    {
      Fields(state, desiredState, currentTick, tickStart, tickEnd, tickTime, stopAfterTick, startAt)
    }

    /** The fields and the server follow the command and its writes. */
    twostate predicate Commanded(c: TimerReplica.Command)
      reads this, redis
    {
      && View() == TimerReplica.AfterCommand(old(View()), c)
      && redis.View() == Publish(old(redis.View()), View(), TimerReplica.CommandKeys(old(View()), c))
    }

    constructor (redis: RedisServer, tickDuration: int)
      ensures this.redis == redis
      ensures View() == Initial(tickDuration)
    {
      this.redis := redis;
      state, desiredState, currentTick := STOPPED, STOPPED, 0;
      tickStart, tickEnd, tickTime := None, None, tickDuration;
      stopAfterTick, startAt := None, None;
    }

    /** Reads the eight keys; false stands for the exception on an unknown state name. */
    method InitFromRedis() returns (ok: bool)
      modifies this
      ensures var r := TimerReplica.InitFromStore(redis.store, old(View()));
              ok == r.Ok? && (ok ==> View() == r.value)
    {
      if State !in redis.store {
        return true;
      }
      var s := redis.store[State];
      var desired := TimerReplica.Stored(redis.store, DesiredState);
      if !s.Name? || !desired.Name? {
        return false;
      }
      state := s.state;
      desiredState := desired.state;
      var tick := ToInt(TimerReplica.Stored(redis.store, CurrentRound));
      currentTick := if tick.Some? then tick.value else 0;
      tickStart := ToInt(TimerReplica.Stored(redis.store, RoundStart));
      tickEnd := ToInt(TimerReplica.Stored(redis.store, RoundEnd));
      var time := ToInt(TimerReplica.Stored(redis.store, RoundTime));
      tickTime := if time.Some? then time.value else tickTime;
      stopAfterTick := ToInt(TimerReplica.Stored(redis.store, StopAfterRound));
      startAt := ToInt(TimerReplica.Stored(redis.store, Key.StartAt));
      return true;
    }

    /** One message of the listener loop. */
    method Listen(m: Message)
      requires RightKind(m)
      modifies this
      ensures View() == TM.Listen(old(View()), m)
    {
      match m.key {
        case State => state := m.value.state;
        case DesiredState => desiredState := m.value.state;
        case CurrentRound => currentTick := m.value.n;
        case RoundStart => tickStart := ToInt(m.value);
        case RoundEnd => tickEnd := ToInt(m.value);
        case RoundTime => tickTime := if m.value.n != 0 then m.value.n else tickTime;
        case StopAfterRound => stopAfterTick := ToInt(m.value);
        case StartAt => startAt := ToInt(m.value);
      }
    }

    method SetTickTime(v: int)
      modifies this, redis
      ensures Commanded(TimerReplica.TickTime(v))
    {
      if tickTime != v {
        tickTime := v;
        if Truthy(tickStart) {
          tickEnd := Some(tickStart.value + tickTime);
          PublishTwo(redis.View(), View(), RoundEnd, RoundTime);
          redis.SetAndPublish(RoundEnd, EncodeOption(tickEnd));
        } else {
          PublishOne(redis.View(), View(), RoundTime);
        }
        redis.SetAndPublish(RoundTime, Number(tickTime));
      }
    }

    method SetStopAfterTick(lastTick: Option<int>)
      modifies this, redis
      ensures Commanded(TimerReplica.StopAfter(lastTick))
    {
      if stopAfterTick != lastTick {
        stopAfterTick := lastTick;
        PublishOne(redis.View(), View(), StopAfterRound);
        redis.SetAndPublish(StopAfterRound, EncodeOption(stopAfterTick));
      }
    }

    method SetStartAt(timestamp: Option<int>)
      modifies this, redis
      ensures Commanded(TimerReplica.StartAtTime(timestamp))
    {
      if startAt != timestamp {
        startAt := timestamp;
        PublishOne(redis.View(), View(), Key.StartAt);
        redis.SetAndPublish(Key.StartAt, EncodeOption(startAt));
      }
    }

    method StartCtf()
      modifies this, redis
      ensures Commanded(TimerReplica.StartNow)
    {
      desiredState := RUNNING;
      PublishOne(redis.View(), View(), DesiredState);
      redis.SetAndPublish(DesiredState, Name(desiredState));
    }

    method SuspendCtfAfterTick()
      modifies this, redis
      ensures Commanded(TimerReplica.SuspendAfterTick)
    {
      desiredState := SUSPENDED;
      PublishOne(redis.View(), View(), DesiredState);
      redis.SetAndPublish(DesiredState, Name(desiredState));
    }

    method StopCtfAfterTick()
      modifies this, redis
      ensures Commanded(TimerReplica.StopAfterThisTick)
    {
      desiredState := STOPPED;
      PublishOne(redis.View(), View(), DesiredState);
      redis.SetAndPublish(DesiredState, Name(desiredState));
    }
  }

  lemma PublishOne(r: Redis, f: Fields, k: Key)
    ensures Publish(r, f, [k]) == TM.SetAndPublish(r, Message(k, Encode(f, k)))
  {
    PublishNothing(r, f);
    PublishMore(r, f, [], k);
    assert [] + [k] == [k];
  }

  lemma PublishTwo(r: Redis, f: Fields, j: Key, k: Key)
    ensures Publish(r, f, [j, k]) ==
            TM.SetAndPublish(TM.SetAndPublish(r, Message(j, Encode(f, j))), Message(k, Encode(f, k)))
  {
    PublishOne(r, f, j);
    PublishMore(r, f, [j], k);
    assert [j] + [k] == [j, k];
  }
}
