/** The master and a replica together: one store, one channel, other slaves writing too. */
module TimerGame {
  import opened Wrappers
  import opened TimerModel
  import opened TimerRuns
  import opened TimerSync
  import R = TimerReplica

  /** Both hear the whole channel in order, each up to its own cursor. takenBack says that the master took
      back a halt and has neither written nor heard a desired state since. */
  datatype Game = Game(m: Master, heard: nat, takenBack: bool, f: Fields, cursor: nat, owed: seq<R.Owed>)

  datatype Move =
    | MasterActs(step: Step)      // a check or a command of the master
    | MasterHears
    | OtherWrites(msg: Message)   // another slave writes
    | ReplicaMoves(move: R.Move)
    | ReplicaJoins                // the replica is started from the store and subscribes

  /** Everything that was ever written, and the replica's place in it. */
  function ReplicaOf(g: Game): R.System {
    R.System(map[], g.m.redis.published, g.f, g.cursor, g.owed)
  }

  /** The master hears like a replica; it never owes a write. */
  function MasterOf(g: Game): R.System {
    R.System(map[], g.m.redis.published, g.m.f, g.heard, [])
  }

  ghost predicate Enabled(g: Game, move: Move) {
    match move
    case MasterActs(step) => !Hears(step) && (step.TickTimeCommand? ==> step.v != 0)
    case MasterHears => g.heard < |g.m.redis.published|
    case OtherWrites(msg) => SlaveWrites(msg.key) && WellTyped(msg)
    case ReplicaMoves(move) => !move.Write? && R.Enabled(ReplicaOf(g), move)
    case ReplicaJoins => State in g.m.redis.store && DesiredState in g.m.redis.store
  }

  function Written(g: Game, msg: Message): Game {
    g.(m := g.m.(redis := SetAndPublish(g.m.redis, msg)))
  }

  ghost function Next(g: Game, move: Move, tickDuration: int): Game
    requires Enabled(g, move)
  {
    match move
    case MasterActs(step) =>
      var m := Act(g.m, step);
      g.(m := m, takenBack := TakesBackHalt(g.m.f, step) || (g.takenBack && m.redis.published == g.m.redis.published))
    case MasterHears =>
      var msg := g.m.redis.published[g.heard];
      g.(m := g.m.(f := Listen(g.m.f, msg)), heard := g.heard + 1, takenBack := g.takenBack && msg.key != DesiredState)
    case OtherWrites(msg) => Written(g, msg)
    case ReplicaMoves(move) =>
      var s := R.Next(ReplicaOf(g), move);
      var g' := if move.WriteOwed? then Written(g, Message(g.owed[0].key, g.owed[0].value.value)) else g;
      g'.(f := s.f, cursor := s.cursor, owed := s.owed)
    case ReplicaJoins =>
      var r := R.InitFromStore(g.m.redis.store, Initial(tickDuration));
      if r.Ok? then g.(f := r.value, cursor := |g.m.redis.published|, owed := []) else g
  }

  ghost predicate Reaches(start: Game, moves: seq<Move>, end: Game, tickDuration: int)
    decreases |moves|
  {
    if moves == [] then start == end
    else Enabled(start, moves[0]) && Reaches(Next(start, moves[0], tickDuration), moves[1..], end, tickDuration)
  }

  /** Nothing has been written yet. */
  function Begin(tickDuration: int): Game {
    Game(Fresh(tickDuration), 0, false, Initial(tickDuration), 0, [])
  }

  // ----- the invariant -----

  ghost predicate MasterSettling(g: Game, d: Fields)
    requires g.heard <= |g.m.redis.published|
  {
    && (forall k :: R.Settling(MasterOf(g), d, k) || (g.takenBack && k == DesiredState))
    && (g.takenBack ==>
          && g.m.f.desired == RUNNING
          && (R.ValueOf(g.m.redis.store, d, DesiredState) != Name(RUNNING)
              || R.Mentions(g.m.redis.published[g.heard..], DesiredState)))
  }

  ghost predicate Inv(g: Game, d: Fields) {
    && g.m.f.tickTime != 0
    && R.StoreAfter(map[], g.m.redis.published) == g.m.redis.store
    && R.WellFormed(MasterOf(g), 0) && R.WellFormed(ReplicaOf(g), 0)
    && MasterSettling(g, d)
    && forall k :: R.Settling(ReplicaOf(g), d, k)
  }

  // ----- writing all fields -----

  lemma StoreGrowsFour(base: Store, log: seq<Message>, a: Message, b: Message, c: Message, e: Message)
    ensures R.StoreAfter(base, log + [a, b, c, e])
            == R.StoreAfter(base, log)[a.key := a.value][b.key := b.value][c.key := c.value][e.key := e.value]
  {
    R.StoreGrows(base, log, a);
    R.StoreGrows(base, log + [a], b);
    R.StoreGrows(base, log + [a] + [b], c);
    R.StoreGrows(base, log + [a] + [b] + [c], e);
    assert log + [a, b, c, e] == log + [a] + [b] + [c] + [e];
  }

  lemma StoreAfterAll(log: seq<Message>, f: Fields)
    ensures R.StoreAfter(map[], log + FirstMessages(f) + LastMessages(f)) == map k: Key | true :: Encode(f, k)
  {
    StoreGrowsFour(map[], log, FirstMessages(f)[0], FirstMessages(f)[1], FirstMessages(f)[2], FirstMessages(f)[3]);
    StoreGrowsFour(map[], log + FirstMessages(f),
                   LastMessages(f)[0], LastMessages(f)[1], LastMessages(f)[2], LastMessages(f)[3]);
  }

  lemma {:induction false} WritesSettle(s: R.System, ms: seq<Message>, d: Fields, k: Key)
    requires s.cursor <= |s.log| && R.Settling(s, d, k)
    ensures R.Settling(s.(log := s.log + ms), d, k)
    decreases |ms|
  {
    if ms == [] {
      assert s.log + ms == s.log;
    } else {
      R.WriteSettles(s, ms[0], d, k);
      WritesSettle(s.(log := s.log + [ms[0]]), ms[1..], d, k);
      assert s.log + [ms[0]] + ms[1..] == s.log + ms;
    }
  }

  lemma AllFieldsWellTyped(f: Fields)
    requires f.tickTime != 0
    ensures R.AllWellTyped(FirstMessages(f) + LastMessages(f))
  {
  }

  lemma TickTimeStays(m: Master, step: Step)
    requires m.f.tickTime != 0 && !Hears(step) && (step.TickTimeCommand? ==> step.v != 0)
    ensures Act(m, step).f.tickTime != 0
  {
    match step
    case CheckTime(now, now2) =>
      if m.f.state == RUNNING && Truthy(m.f.tickEnd) && now >= m.f.tickEnd.value {
        if m.f.desired == RUNNING { ContinueEffect(m, now); } else { HaltEffect(m, now); }
      } else if m.f.state != RUNNING {
        StartEffect(m, now2);
        StartEffect(m.(f := m.f.(startAt := None)), now2);
      }
    case StartCommand(now) => if m.f.state != RUNNING { StartEffect(m, now); }
    case _ =>
  }

  // ----- each move keeps it -----

  lemma ActKeepsInv(g: Game, step: Step, tickDuration: int)
    requires Inv(g, Initial(tickDuration)) && Enabled(g, MasterActs(step))
    ensures Inv(Next(g, MasterActs(step), tickDuration), Initial(tickDuration))
  {
    var d := Initial(tickDuration);
    var g' := Next(g, MasterActs(step), tickDuration);
    ActPublishes(g.m, step);
    TickTimeStays(g.m, step);
    if Publishes(g.m, g'.m) {
      PublishingKeepsInv(g, g', d);
    } else if TakesBackHalt(g.m.f, step) {
      TakingBackKeepsInv(g, g', d);
    } else {
      assert g' == g;
    }
  }

  lemma PublishingKeepsInv(g: Game, g': Game, d: Fields)
    requires Inv(g, d) && Publishes(g.m, g'.m) && g'.m.f.tickTime != 0
    requires g' == g.(m := g'.m, takenBack := false)
    ensures Inv(g', d)
  {
    var ms := FirstMessages(g'.m.f) + LastMessages(g'.m.f);
    var log := g.m.redis.published;
    assert g'.m.redis.published == log + ms;
    StoreAfterAll(log, g'.m.f);
    AllFieldsWellTyped(g'.m.f);
    assert log[0..] == log && g'.m.redis.published[0..] == log + ms;
    forall k
      ensures R.Settling(MasterOf(g'), d, k) && R.Settling(ReplicaOf(g'), d, k)
    {
      WritesSettle(ReplicaOf(g), ms, d, k);
    }
  }

  lemma TakingBackKeepsInv(g: Game, g': Game, d: Fields)
    requires Inv(g, d) && g.m.f.desired != RUNNING
    requires g' == g.(m := g.m.(f := g.m.f.(desired := RUNNING)), takenBack := true)
    ensures Inv(g', d)
  {
    assert R.Settling(MasterOf(g), d, DesiredState);
    forall k | k != DesiredState
      ensures R.Settling(MasterOf(g'), d, k)
    {
      assert R.Settling(MasterOf(g), d, k) && Encode(g'.m.f, k) == Encode(g.m.f, k);
    }
    assert forall k :: R.Settling(ReplicaOf(g), d, k);
  }

  lemma MasterHearsKeepsInv(g: Game, tickDuration: int)
    requires Inv(g, Initial(tickDuration)) && Enabled(g, MasterHears)
    ensures Inv(Next(g, MasterHears, tickDuration), Initial(tickDuration))
  {
    var d := Initial(tickDuration);
    var g' := Next(g, MasterHears, tickDuration);
    var log := g.m.redis.published;
    var msg := log[g.heard];
    assert log[0..][g.heard] == msg && log[g.heard..] == [msg] + log[g.heard + 1..];
    R.StepWellFormed(MasterOf(g), R.Hear, 0);
    R.MentionsConcat([msg], log[g.heard + 1..], DesiredState);
    assert R.Mentions([msg], DesiredState) <==> [msg][0].key == DesiredState;
    forall k
      ensures R.Settling(MasterOf(g'), d, k) || (g'.takenBack && k == DesiredState)
    {
      if R.Settling(MasterOf(g), d, k) {
        R.HearSettles(MasterOf(g), d, k);
      }
    }
    assert forall k :: R.Settling(ReplicaOf(g), d, k);
  }

  /** One message more, from whomever. */
  lemma WrittenKeepsMaster(g: Game, msg: Message, d: Fields)
    requires Inv(g, d) && WellTyped(msg)
    ensures var g' := Written(g, msg);
            && R.StoreAfter(map[], g'.m.redis.published) == g'.m.redis.store
            && R.WellFormed(MasterOf(g'), 0) && MasterSettling(g', d)
  {
    R.StoreGrows(map[], g.m.redis.published, msg);
    R.StepWellFormed(MasterOf(g), R.Write(msg), 0);
    assert MasterOf(Written(g, msg)) == R.Next(MasterOf(g), R.Write(msg));
    forall k | R.Settling(MasterOf(g), d, k)
      ensures R.Settling(MasterOf(Written(g, msg)), d, k)
    {
      R.WriteSettles(MasterOf(g), msg, d, k);
    }
    if g.takenBack {
      WrittenStaysTakenBack(g, msg, d);
    }
  }

  /** A desired state written after a halt was taken back is still to be heard. */
  lemma WrittenStaysTakenBack(g: Game, msg: Message, d: Fields)
    requires g.heard <= |g.m.redis.published| && MasterSettling(g, d) && g.takenBack
    ensures var r := Written(g, msg).m.redis;
            R.ValueOf(r.store, d, DesiredState) != Name(RUNNING) || R.Mentions(r.published[g.heard..], DesiredState)
  {
    var log := g.m.redis.published;
    R.TailGrows(log, msg, g.heard);
    R.MentionsConcat(log[g.heard..], [msg], DesiredState);
    assert R.Mentions([msg], DesiredState) <==> [msg][0].key == DesiredState;
  }

  lemma OtherWritesKeepsInv(g: Game, msg: Message, tickDuration: int)
    requires Inv(g, Initial(tickDuration)) && Enabled(g, OtherWrites(msg))
    ensures Inv(Next(g, OtherWrites(msg), tickDuration), Initial(tickDuration))
  {
    var d := Initial(tickDuration);
    WrittenKeepsMaster(g, msg, d);
    R.StepWellFormed(ReplicaOf(g), R.Write(msg), 0);
    forall k
      ensures R.Settling(ReplicaOf(Written(g, msg)), d, k)
    {
      R.WriteSettles(ReplicaOf(g), msg, d, k);
    }
  }

  lemma ReplicaKeepsInv(g: Game, move: R.Move, tickDuration: int)
    requires Inv(g, Initial(tickDuration)) && Enabled(g, ReplicaMoves(move))
    ensures Inv(Next(g, ReplicaMoves(move), tickDuration), Initial(tickDuration))
  {
    var d := Initial(tickDuration);
    var g' := Next(g, ReplicaMoves(move), tickDuration);
    if move.WriteOwed? {
      WrittenKeepsMaster(g, Message(g.owed[0].key, g.owed[0].value.value), d);
      assert MasterOf(g') == MasterOf(Written(g, Message(g.owed[0].key, g.owed[0].value.value)));
    } else {
      assert MasterOf(g') == MasterOf(g);
    }
    R.StepWellFormed(ReplicaOf(g), move, 0);
    assert ReplicaOf(g') == R.Next(ReplicaOf(g), move);
    forall k
      ensures R.Settling(ReplicaOf(g'), d, k)
    {
      R.StepSettles(ReplicaOf(g), move, 0, d, k);
    }
  }

  lemma {:induction false} StoreWellTyped(log: seq<Message>)
    requires R.AllWellTyped(log)
    ensures R.WellTypedStore(R.StoreAfter(map[], log))
  {
    if log != [] {
      StoreWellTyped(log[..|log| - 1]);
    }
  }

  lemma JoinKeepsInv(g: Game, tickDuration: int)
    requires Inv(g, Initial(tickDuration)) && Enabled(g, ReplicaJoins)
    ensures Inv(Next(g, ReplicaJoins, tickDuration), Initial(tickDuration))
  {
    var d := Initial(tickDuration);
    var g' := Next(g, ReplicaJoins, tickDuration);
    assert g.m.redis.published[0..] == g.m.redis.published;
    StoreWellTyped(g.m.redis.published);
    R.InitFaithful(g.m.redis.store, tickDuration);
    assert MasterOf(g') == MasterOf(g);
  }

  lemma {:induction false} RunKeepsInv(start: Game, moves: seq<Move>, end: Game, tickDuration: int)
    requires Inv(start, Initial(tickDuration)) && Reaches(start, moves, end, tickDuration)
    ensures Inv(end, Initial(tickDuration))
    decreases |moves|
  {
    if moves != [] {
      match moves[0] {
        case MasterActs(step) => ActKeepsInv(start, step, tickDuration);
        case MasterHears => MasterHearsKeepsInv(start, tickDuration);
        case OtherWrites(msg) => OtherWritesKeepsInv(start, msg, tickDuration);
        case ReplicaMoves(move) => ReplicaKeepsInv(start, move, tickDuration);
        case ReplicaJoins => JoinKeepsInv(start, tickDuration);
      }
      RunKeepsInv(Next(start, moves[0], tickDuration), moves[1..], end, tickDuration);
    }
  }

  // ----- what the replica writes -----

  /** A command writes only keys that are the slaves' to write. */
  lemma CommandsWriteSlaveKeys(f: Fields, c: R.Command, k: Key)
    ensures k in R.CommandKeys(f, c) ==> SlaveWrites(k)
  {
    R.CommandWritesExactly(f, c, k);
  }

  ghost predicate OwesSlaveKeys(g: Game) {
    forall i | 0 <= i < |g.owed| :: SlaveWrites(g.owed[i].key)
  }

  lemma StepOwesSlaveKeys(g: Game, move: Move, tickDuration: int)
    requires OwesSlaveKeys(g) && Enabled(g, move)
    ensures OwesSlaveKeys(Next(g, move, tickDuration))
  {
    if move.ReplicaMoves? && move.move.Decide? {
      var keys := R.CommandKeys(g.f, move.move.c);
      forall i | 0 <= i < |keys|
        ensures SlaveWrites(keys[i])
      {
        CommandsWriteSlaveKeys(g.f, move.move.c, keys[i]);
      }
    }
  }

  /** In every run state, tick number and tick start are published by the master alone: what the replica
      writes, like what any slave does, is a message the master takes from slaves. */
  lemma {:induction false} SlavesKeepToTheirKeys(start: Game, moves: seq<Move>, end: Game, tickDuration: int)
    requires OwesSlaveKeys(start) && Reaches(start, moves, end, tickDuration)
    ensures OwesSlaveKeys(end)
    decreases |moves|
  {
    if moves != [] {
      StepOwesSlaveKeys(start, moves[0], tickDuration);
      SlavesKeepToTheirKeys(Next(start, moves[0], tickDuration), moves[1..], end, tickDuration);
    }
  }

  /** Everything written is heard by both, and the replica owes nothing. */
  predicate Quiet(g: Game) {
    g.heard == |g.m.redis.published| && g.cursor == |g.m.redis.published| && g.owed == []
  }

  /** Master and replica agree: in every run with commands on both sides and any other slaves, whenever
      all messages are heard, the replica has exactly the master's fields, unless the master took back a
      halt and has neither written nor heard a desired state since. Then the two differ in the desired
      state, and in nothing else: the replica goes on expecting the halt. */
  lemma MasterAndReplicaAgree(tickDuration: int, moves: seq<Move>, g: Game)
    requires tickDuration != 0 && Reaches(Begin(tickDuration), moves, g, tickDuration) && Quiet(g)
    ensures g.f == g.m.f <==> !g.takenBack
    ensures g.m.f == g.f.(desired := g.m.f.desired)
    ensures g.takenBack ==> g.m.f.desired == RUNNING && g.f.desired != RUNNING
  {
    var d := Initial(tickDuration);
    BeginInv(tickDuration);
    RunKeepsInv(Begin(tickDuration), moves, g, tickDuration);
    var log := g.m.redis.published;
    assert log[|log|..] == [];
    forall k
      ensures Encode(g.f, k) == R.ValueOf(g.m.redis.store, d, k)
      ensures Encode(g.m.f, k) == R.ValueOf(g.m.redis.store, d, k) || (g.takenBack && k == DesiredState)
    {
      assert R.Settling(ReplicaOf(g), d, k);
      assert R.Settling(MasterOf(g), d, k) || (g.takenBack && k == DesiredState);
    }
    if g.takenBack {
      assert g.f.desired != RUNNING;
      R.ReplicasAgree(g.f, g.m.f.(desired := g.f.desired), g.m.redis.store, d);
    } else {
      R.ReplicasAgree(g.f, g.m.f, g.m.redis.store, d);
    }
  }

  lemma BeginInv(tickDuration: int)
    requires tickDuration != 0
    ensures Inv(Begin(tickDuration), Initial(tickDuration))
  {
  }
}
