/** Replication: slaves that start from the store, hear the channel and write commands of their own. */
module TimerReplica {
  import opened Wrappers
  import opened TimerModel

  // ----- starting from the store -----

  ghost predicate WellTypedStore(store: Store) {
    forall k | k in store :: WellTyped(Message(k, store[k]))
  }

  function Stored(store: Store, k: Key): Wire {
    if k in store then store[k] else NoneWord
  }

  /** init_from_redis on a timer that has just been created with fields d. */
  function InitFromStore(store: Store, d: Fields): Result<Fields> {
    if State !in store then Ok(d)
    else if !store[State].Name? || !Stored(store, DesiredState).Name? then Raised
    else
      var tick := ToInt(Stored(store, CurrentRound));
      var time := ToInt(Stored(store, RoundTime));
      Ok(Fields(store[State].state, store[DesiredState].state,
                if tick.Some? then tick.value else 0,
                ToInt(Stored(store, RoundStart)), ToInt(Stored(store, RoundEnd)),
                if time.Some? then time.value else d.tickTime,
                ToInt(Stored(store, StopAfterRound)), ToInt(Stored(store, Key.StartAt))))
  }

  /** The value the store holds for a key, or the initial one where nothing was ever written. */
  function ValueOf(store: Store, d: Fields, k: Key): Wire {
    if k in store then store[k] else Encode(d, k)
  }

  /** Field by field, f is what the store says. */
  ghost predicate Holds(f: Fields, store: Store, d: Fields) {
    forall k :: Encode(f, k) == ValueOf(store, d, k)
  }

  /** Starting from the store takes over every stored value exactly when state and desired state are
      both there, or when the state is missing and whatever else is there is at its initial value. */
  lemma InitFaithful(store: Store, tickDuration: int)
    requires WellTypedStore(store)
    ensures var d := Initial(tickDuration);
            (InitFromStore(store, d).Ok? && Holds(InitFromStore(store, d).value, store, d)) <==>
            ((State in store && DesiredState in store)
             || (State !in store && forall k | k in store :: store[k] == Encode(d, k)))
  {
    var d := Initial(tickDuration);
    if State in store && DesiredState in store {
      var f := InitFromStore(store, d).value;
      forall k
        ensures Encode(f, k) == ValueOf(store, d, k)
      {
        assert k in store ==> WellTyped(Message(k, store[k]));
      }
    } else if State in store {
    } else if forall k | k in store :: store[k] == Encode(d, k) {
    } else {
      var k :| k in store && store[k] != Encode(d, k);
      assert Encode(d, k) != ValueOf(store, d, k);
    }
  }

  /** A start command from a slave before any master wrote its state is lost on timers that start
      afterwards, and a store caught between the first two writes of a master makes them fail. */
  lemma EarlyCommandIsLost(tickDuration: int)
    ensures var d := Initial(tickDuration);
            && InitFromStore(map[DesiredState := Name(RUNNING)], d) == Ok(d)
            && d.desired == STOPPED
            && InitFromStore(map[State := Name(STOPPED)], d) == Raised
  {
  }

  // ----- commands of a slave -----

  datatype Command =
    | StartNow
    | SuspendAfterTick
    | StopAfterThisTick
    | TickTime(v: int)
    | StopAfter(last: Option<int>)
    | StartAtTime(at: Option<int>)

  function AfterCommand(f: Fields, c: Command): Fields {
    match c
    case StartNow => f.(desired := RUNNING)
    case SuspendAfterTick => f.(desired := SUSPENDED)
    case StopAfterThisTick => f.(desired := STOPPED)
    case TickTime(v) => if f.tickTime == v then f else WithTickTime(f, v)
    case StopAfter(last) => f.(stopAfter := last)
    case StartAtTime(at) => f.(startAt := at)
  }

  /** The keys a command writes, in order. */
  function CommandKeys(f: Fields, c: Command): seq<Key> {
    match c
    case StartNow => [DesiredState]
    case SuspendAfterTick => [DesiredState]
    case StopAfterThisTick => [DesiredState]
    case TickTime(v) =>
      if f.tickTime == v then [] else if Truthy(f.tickStart) then [RoundEnd, RoundTime] else [RoundTime]
    case StopAfter(last) => if f.stopAfter == last then [] else [StopAfterRound]
    case StartAtTime(at) => if f.startAt == at then [] else [Key.StartAt]
  }

  /** Every field a command changes is among those it writes. */
  lemma CommandWritesItsChanges(f: Fields, c: Command, k: Key)
    requires k !in CommandKeys(f, c)
    ensures Encode(AfterCommand(f, c), k) == Encode(f, k)
  {
    if c.TickTime? {
      assert CommandKeys(f, c) == [] || CommandKeys(f, c)[|CommandKeys(f, c)| - 1] == RoundTime;
      assert Truthy(f.tickStart) && CommandKeys(f, c) != [] ==> CommandKeys(f, c)[0] == RoundEnd;
    } else if CommandKeys(f, c) != [] {
      assert CommandKeys(f, c)[0] in CommandKeys(f, c);
    }
  }

  /** What a slave's command sets. */
  lemma CommandSets(f: Fields, v: int, last: Option<int>, at: Option<int>)
    ensures AfterCommand(f, StartNow) == f.(desired := RUNNING)
    ensures AfterCommand(f, SuspendAfterTick) == f.(desired := SUSPENDED)
    ensures AfterCommand(f, StopAfterThisTick) == f.(desired := STOPPED)
    ensures AfterCommand(f, StopAfter(last)) == f.(stopAfter := last)
    ensures AfterCommand(f, StartAtTime(at)) == f.(startAt := at)
    ensures AfterCommand(f, TickTime(v)) ==
            if v == f.tickTime then f
            else if f.tickStart.Some? && f.tickStart.value != 0 then
              f.(tickTime := v, tickEnd := Some(f.tickStart.value + v))
            else f.(tickTime := v)
  {
  }

  /** What it writes: the commands for the state the desired state and nothing else; the settings nothing
      if they are no change, and else the one field, to which a tick time adds the end of a tick that has
      a start, written first. */
  lemma CommandWritesExactly(f: Fields, c: Command, k: Key)
    ensures k in CommandKeys(f, c) <==>
            match c
            case StartNow => k == DesiredState
            case SuspendAfterTick => k == DesiredState
            case StopAfterThisTick => k == DesiredState
            case TickTime(v) =>
              v != f.tickTime && (k == RoundTime || (k == RoundEnd && f.tickStart.Some? && f.tickStart.value != 0))
            case StopAfter(last) => last != f.stopAfter && k == StopAfterRound
            case StartAtTime(at) => at != f.startAt && k == Key.StartAt
    ensures |CommandKeys(f, c)| <= 1 || CommandKeys(f, c) == [RoundEnd, RoundTime]
  {
    var keys := CommandKeys(f, c);
    assert keys != [] ==> keys[0] in keys && keys[|keys| - 1] in keys;
  }

  // ----- one replica among many writers -----

  /** A write a command still has to make; its value is read from the field some time before. */
  datatype Owed = Owed(key: Key, value: Option<Wire>)

  /** A replica, and every set-and-publish since it read the store: heard up to the cursor, unheard
      from there. Its own commands may be decided but not yet written. */
  datatype System = System(base: Store, log: seq<Message>, f: Fields, cursor: nat, owed: seq<Owed>)

  datatype Move = Write(msg: Message) | Decide(c: Command) | ReadOwed | WriteOwed | Hear

  ghost predicate Enabled(s: System, move: Move) {
    match move
    case Write(msg) => WellTyped(msg)
    case Decide(c) => c.TickTime? ==> c.v != 0
    case ReadOwed => s.owed != [] && s.owed[0].value.None?
    case WriteOwed => s.owed != [] && s.owed[0].value.Some?
    case Hear => s.cursor < |s.log|
  }

  function OwedFor(keys: seq<Key>): seq<Owed> {
    seq(|keys|, i requires 0 <= i < |keys| => Owed(keys[i], None))
  }

  ghost function Next(s: System, move: Move): System
    requires Enabled(s, move)
  {
    match move
    case Write(msg) => s.(log := s.log + [msg])
    case Decide(c) => s.(f := AfterCommand(s.f, c), owed := s.owed + OwedFor(CommandKeys(s.f, c)))
    case ReadOwed => s.(owed := [Owed(s.owed[0].key, Some(Encode(s.f, s.owed[0].key)))] + s.owed[1..])
    case WriteOwed => s.(log := s.log + [Message(s.owed[0].key, s.owed[0].value.value)], owed := s.owed[1..])
    case Hear => s.(f := Listen(s.f, s.log[s.cursor]), cursor := s.cursor + 1)
  }

  ghost predicate Reaches(start: System, moves: seq<Move>, end: System)
    decreases |moves|
  {
    if moves == [] then start == end
    else Enabled(start, moves[0]) && Reaches(Next(start, moves[0]), moves[1..], end)
  }

  /** The store after the writes. */
  function StoreAfter(base: Store, log: seq<Message>): Store {
    if log == [] then base
    else StoreAfter(base, log[..|log| - 1])[log[|log| - 1].key := log[|log| - 1].value]
  }

  ghost predicate Mentions(ms: seq<Message>, k: Key) {
    exists i | 0 <= i < |ms| :: ms[i].key == k
  }

  lemma MentionsConcat(ms: seq<Message>, more: seq<Message>, k: Key)
    ensures Mentions(ms + more, k) <==> Mentions(ms, k) || Mentions(more, k)
  {
    if Mentions(ms, k) {
      var i :| 0 <= i < |ms| && ms[i].key == k;
      assert (ms + more)[i].key == k;
    }
    if Mentions(more, k) {
      var i :| 0 <= i < |more| && more[i].key == k;
      assert (ms + more)[|ms| + i].key == k;
    }
  }

  /** The last write of a key is what the store holds. */
  lemma {:induction false} LastWriteWins(base: Store, log: seq<Message>, i: nat, k: Key)
    requires i < |log| && log[i].key == k && !Mentions(log[i + 1..], k)
    ensures k in StoreAfter(base, log) && StoreAfter(base, log)[k] == log[i].value
  {
    var n := |log| - 1;
    if i < n {
      assert log[i + 1..][n - i - 1] == log[n];
      assert log[i + 1..] == log[..n][i + 1..] + [log[n]];
      MentionsConcat(log[..n][i + 1..], [log[n]], k);
      LastWriteWins(base, log[..n], i, k);
    }
  }

  lemma StoreGrows(base: Store, log: seq<Message>, m: Message)
    ensures StoreAfter(base, log + [m]) == StoreAfter(base, log)[m.key := m.value]
  {
    assert (log + [m])[..|log + [m]| - 1] == log;
  }

  /** Hearing a message makes its field what was written and leaves the others. */
  lemma ListenTakesOver(f: Fields, m: Message, k: Key)
    requires WellTyped(m)
    ensures Encode(Listen(f, m), k) == if k == m.key then m.value else Encode(f, k)
  {
  }

  ghost predicate Owes(owed: seq<Owed>, k: Key) {
    exists i | 0 <= i < |owed| :: owed[i].key == k
  }

  lemma OwesConcat(owed: seq<Owed>, more: seq<Owed>, k: Key)
    ensures Owes(owed + more, k) <==> Owes(owed, k) || Owes(more, k)
  {
    if Owes(owed, k) {
      var i :| 0 <= i < |owed| && owed[i].key == k;
      assert (owed + more)[i].key == k;
    }
    if Owes(more, k) {
      var i :| 0 <= i < |more| && more[i].key == k;
      assert (owed + more)[|owed| + i].key == k;
    }
  }

  lemma OwesFirst(owed: seq<Owed>, k: Key)
    requires owed != []
    ensures Owes(owed, k) <==> owed[0].key == k || Owes(owed[1..], k)
  {
    assert owed == [owed[0]] + owed[1..];
    OwesConcat([owed[0]], owed[1..], k);
    assert Owes([owed[0]], k) <==> [owed[0]][0].key == k;
  }

  /** A command owes exactly its keys. */
  lemma CommandOwes(keys: seq<Key>, k: Key)
    ensures Owes(OwedFor(keys), k) <==> k in keys
  {
    if k in keys {
      var i :| 0 <= i < |keys| && keys[i] == k;
      assert OwedFor(keys)[i].key == k;
    }
  }

  /** The field agrees with the store, unless a write of the key is still to be heard or made. */
  ghost predicate Settling(s: System, d: Fields, k: Key)
    requires s.cursor <= |s.log|
  {
    || Encode(s.f, k) == ValueOf(StoreAfter(s.base, s.log), d, k)
    || Mentions(s.log[s.cursor..], k)
    || Owes(s.owed, k)
  }

  ghost predicate AllWellTyped(ms: seq<Message>) {
    forall i | 0 <= i < |ms| :: WellTyped(ms[i])
  }

  /** What is owed will be well-typed when it is written. */
  ghost predicate OwesWellTyped(s: System) {
    forall i | 0 <= i < |s.owed| ::
      && (s.owed[i].key == RoundTime ==> s.f.tickTime != 0)
      && (s.owed[i].value.Some? ==> WellTyped(Message(s.owed[i].key, s.owed[i].value.value)))
  }

  ghost predicate WellFormed(s: System, subscribed: nat) {
    subscribed <= s.cursor <= |s.log| && AllWellTyped(s.log[subscribed..]) && OwesWellTyped(s)
  }

  lemma TailGrows(log: seq<Message>, m: Message, n: nat)
    requires n <= |log|
    ensures (log + [m])[n..] == log[n..] + [m]
  {
  }

  lemma StepWellFormed(s: System, move: Move, subscribed: nat)
    requires WellFormed(s, subscribed) && Enabled(s, move)
    ensures WellFormed(Next(s, move), subscribed)
  {
    match move
    case Write(msg) => TailGrows(s.log, msg, subscribed);
    case Decide(c) => DecideWellFormed(s, c);
    case ReadOwed =>
    case WriteOwed => TailGrows(s.log, Message(s.owed[0].key, s.owed[0].value.value), subscribed);
    case Hear =>
      assert s.log[subscribed..][s.cursor - subscribed] == s.log[s.cursor];
  }

  lemma DecideWellFormed(s: System, c: Command)
    requires OwesWellTyped(s) && Enabled(s, Decide(c))
    ensures OwesWellTyped(Next(s, Decide(c)))
  {
    var s' := Next(s, Decide(c));
    forall i | 0 <= i < |s'.owed|
      ensures s'.owed[i].key == RoundTime ==> s'.f.tickTime != 0
      ensures s'.owed[i].value.Some? ==> WellTyped(Message(s'.owed[i].key, s'.owed[i].value.value))
    {
      if i < |s.owed| {
        assert s'.owed[i] == s.owed[i];
      } else {
        assert s'.owed[i] == Owed(CommandKeys(s.f, c)[i - |s.owed|], None);
      }
    }
  }

  /** A write leaves a key settling, and so does any write of the key itself. */
  lemma WriteSettles(s: System, m: Message, d: Fields, k: Key)
    requires s.cursor <= |s.log| && (Settling(s, d, k) || k == m.key)
    ensures Settling(s.(log := s.log + [m]), d, k)
  {
    StoreGrows(s.base, s.log, m);
    TailGrows(s.log, m, s.cursor);
    MentionsConcat(s.log[s.cursor..], [m], k);
    if k == m.key {
      assert [m][0].key == k;
    }
  }

  lemma WriteOwedSettles(s: System, d: Fields, k: Key)
    requires s.cursor <= |s.log| && Enabled(s, WriteOwed) && (Settling(s, d, k) || k == s.owed[0].key)
    ensures Settling(Next(s, WriteOwed), d, k)
  {
    var m := Message(s.owed[0].key, s.owed[0].value.value);
    WriteSettles(s, m, d, k);
    OwesFirst(s.owed, k);
    TailGrows(s.log, m, s.cursor);
    MentionsConcat(s.log[s.cursor..], [m], k);
    if k == m.key {
      assert [m][0].key == k;
    }
  }

  lemma DecideSettles(s: System, c: Command, d: Fields, k: Key)
    requires s.cursor <= |s.log| && Enabled(s, Decide(c)) && Settling(s, d, k)
    ensures Settling(Next(s, Decide(c)), d, k)
  {
    var keys := CommandKeys(s.f, c);
    OwesConcat(s.owed, OwedFor(keys), k);
    CommandOwes(keys, k);
    if k !in keys {
      CommandWritesItsChanges(s.f, c, k);
    }
  }

  lemma HearSettles(s: System, d: Fields, k: Key)
    requires s.cursor < |s.log| && WellTyped(s.log[s.cursor]) && Settling(s, d, k)
    ensures Settling(Next(s, Hear), d, k)
  {
    var m := s.log[s.cursor];
    assert s.log[s.cursor..] == [m] + s.log[s.cursor + 1..];
    ListenTakesOver(s.f, m, k);
    MentionsConcat([m], s.log[s.cursor + 1..], k);
    if k == m.key && !Mentions(s.log[s.cursor + 1..], k) {
      LastWriteWins(s.base, s.log, s.cursor, k);
    }
  }

  /** The key that a move writes, if it writes one. */
  predicate WritesKey(s: System, move: Move, k: Key) {
    match move
    case Write(msg) => msg.key == k
    case WriteOwed => s.owed != [] && s.owed[0].key == k
    case _ => false
  }

  /** Every move leaves a settling key settling, and makes one settle that it writes. */
  lemma StepSettles(s: System, move: Move, subscribed: nat, d: Fields, k: Key)
    requires WellFormed(s, subscribed) && Enabled(s, move) && (Settling(s, d, k) || WritesKey(s, move, k))
    ensures WellFormed(Next(s, move), subscribed)
    ensures Settling(Next(s, move), d, k)
  {
    StepWellFormed(s, move, subscribed);
    match move
    case Write(msg) => WriteSettles(s, msg, d, k);
    case Decide(c) => DecideSettles(s, c, d, k);
    case ReadOwed =>
      OwesFirst(s.owed, k);
      OwesFirst(Next(s, ReadOwed).owed, k);
    case WriteOwed => WriteOwedSettles(s, d, k);
    case Hear =>
      assert s.log[subscribed..][s.cursor - subscribed] == s.log[s.cursor];
      HearSettles(s, d, k);
  }

  /** Agrees with the store up to messages to come, as far as the key was written since the replica
      subscribed. */
  ghost predicate Inv(s: System, subscribed: nat, d: Fields) {
    && WellFormed(s, subscribed)
    && forall k | Mentions(s.log[subscribed..], k) :: Settling(s, d, k)
  }

  /** A move writes at most one message. */
  lemma LogGrows(s: System, move: Move, subscribed: nat, k: Key)
    requires subscribed <= |s.log| && Enabled(s, move)
    ensures s.log <= Next(s, move).log
    ensures Mentions(Next(s, move).log[subscribed..], k) <==> Mentions(s.log[subscribed..], k) || WritesKey(s, move, k)
  {
    if move.Write? || move.WriteOwed? {
      var m := if move.Write? then move.msg else Message(s.owed[0].key, s.owed[0].value.value);
      TailGrows(s.log, m, subscribed);
      MentionsConcat(s.log[subscribed..], [m], k);
      assert Mentions([m], k) <==> [m][0].key == k;
    }
  }

  lemma StepKeepsInv(s: System, move: Move, subscribed: nat, d: Fields)
    requires Inv(s, subscribed, d) && Enabled(s, move)
    ensures Inv(Next(s, move), subscribed, d)
  {
    StepWellFormed(s, move, subscribed);
    forall k | Mentions(Next(s, move).log[subscribed..], k)
      ensures Settling(Next(s, move), d, k)
    {
      LogGrows(s, move, subscribed, k);
      StepSettles(s, move, subscribed, d, k);
    }
  }

  lemma {:induction false} RunKeepsInv(start: System, moves: seq<Move>, end: System, subscribed: nat, d: Fields)
    requires Inv(start, subscribed, d) && Reaches(start, moves, end)
    ensures Inv(end, subscribed, d)
    decreases |moves|
  {
    if moves != [] {
      StepKeepsInv(start, moves[0], subscribed, d);
      RunKeepsInv(Next(start, moves[0]), moves[1..], end, subscribed, d);
    }
  }

  // ----- keys nobody writes any more -----

  lemma {:induction false} UnmentionedUnchanged(base: Store, log: seq<Message>, more: seq<Message>, d: Fields, k: Key)
    requires !Mentions(more, k)
    ensures ValueOf(StoreAfter(base, log + more), d, k) == ValueOf(StoreAfter(base, log), d, k)
    decreases |more|
  {
    if more == [] {
      assert log + more == log;
    } else {
      var n := |more| - 1;
      assert more == more[..n] + [more[n]];
      MentionsConcat(more[..n], [more[n]], k);
      assert [more[n]][0] == more[n];
      assert log + more == (log + more[..n]) + [more[n]];
      StoreGrows(base, log + more[..n], more[n]);
      UnmentionedUnchanged(base, log, more[..n], d, k);
    }
  }

  lemma {:induction false} LogExtends(start: System, moves: seq<Move>, end: System)
    requires Reaches(start, moves, end)
    ensures start.log <= end.log && start.base == end.base
    decreases |moves|
  {
    if moves != [] {
      LogExtends(Next(start, moves[0]), moves[1..], end);
    }
  }

  /** A key written during a run is mentioned at its end. */
  lemma MentionedStays(s: System, moves: seq<Move>, end: System, subscribed: nat, k: Key)
    requires Reaches(s, moves, end) && subscribed <= |s.log|
    ensures subscribed <= |end.log| && (Mentions(s.log[subscribed..], k) ==> Mentions(end.log[subscribed..], k))
  {
    LogExtends(s, moves, end);
    assert end.log[subscribed..] == s.log[subscribed..] + end.log[|s.log|..];
    MentionsConcat(s.log[subscribed..], end.log[|s.log|..], k);
  }

  /** What is owed gets written before the replica has caught up. */
  lemma {:induction false} OwedGetsWritten(start: System, moves: seq<Move>, end: System, subscribed: nat, k: Key)
    requires Reaches(start, moves, end) && end.owed == [] && Owes(start.owed, k) && subscribed <= |start.log|
    ensures subscribed <= |end.log| && Mentions(end.log[subscribed..], k)
    decreases |moves|
  {
    var next := Next(start, moves[0]);
    LogGrows(start, moves[0], subscribed, k);
    OwedStaysOrWritten(start, moves[0], k);
    if Owes(next.owed, k) {
      OwedGetsWritten(next, moves[1..], end, subscribed, k);
    } else {
      MentionedStays(next, moves[1..], end, subscribed, k);
    }
  }

  lemma OwedStaysOrWritten(s: System, move: Move, k: Key)
    requires Enabled(s, move) && Owes(s.owed, k)
    ensures Owes(Next(s, move).owed, k) || WritesKey(s, move, k)
  {
    OwesFirst(s.owed, k);
    match move
    case Decide(c) => OwesConcat(s.owed, OwedFor(CommandKeys(s.f, c)), k);
    case ReadOwed => OwesFirst(Next(s, move).owed, k);
    case _ =>
  }

  /** A key that nobody writes any more keeps the value the replica has for it; its own commands are no
      exception, since a command writes what it changes. */
  lemma {:induction false} UnmentionedKeepsField(start: System, moves: seq<Move>, end: System, subscribed: nat, k: Key)
    requires WellFormed(start, subscribed) && Reaches(start, moves, end) && end.owed == []
    requires subscribed <= |end.log| && !Mentions(end.log[subscribed..], k)
    ensures Encode(end.f, k) == Encode(start.f, k)
    decreases |moves|
  {
    if moves != [] {
      var next := Next(start, moves[0]);
      StepWellFormed(start, moves[0], subscribed);
      MentionedStays(next, moves[1..], end, subscribed, k);
      if moves[0].Decide? {
        DecideLeavesUnmentioned(start, moves, end, subscribed, k);
      } else if moves[0].Hear? {
        assert start.log[subscribed..][start.cursor - subscribed] == start.log[start.cursor];
        ListenTakesOver(start.f, start.log[start.cursor], k);
      }
      UnmentionedKeepsField(next, moves[1..], end, subscribed, k);
    }
  }

  lemma DecideLeavesUnmentioned(start: System, moves: seq<Move>, end: System, subscribed: nat, k: Key)
    requires moves != [] && moves[0].Decide? && Reaches(start, moves, end) && end.owed == []
    requires subscribed <= |start.log| && subscribed <= |end.log| && !Mentions(end.log[subscribed..], k)
    ensures Encode(Next(start, moves[0]).f, k) == Encode(start.f, k)
  {
    DecidedGetsWritten(start, moves, end, subscribed, k);
    CommandWritesItsChanges(start.f, moves[0].c, k);
  }

  lemma DecidedGetsWritten(start: System, moves: seq<Move>, end: System, subscribed: nat, k: Key)
    requires moves != [] && moves[0].Decide? && Reaches(start, moves, end) && end.owed == []
    requires subscribed <= |start.log| && subscribed <= |end.log|
    ensures k in CommandKeys(start.f, moves[0].c) ==> Mentions(end.log[subscribed..], k)
  {
    var keys := CommandKeys(start.f, moves[0].c);
    if k in keys {
      CommandOwes(keys, k);
      OwesConcat(start.owed, OwedFor(keys), k);
      OwedGetsWritten(Next(start, moves[0]), moves[1..], end, subscribed, k);
    }
  }

  // ----- main results -----

  /** A replica with fields f that subscribed after the messages of `gap` had been published. */
  function Joined(base: Store, f: Fields, gap: seq<Message>): System {
    System(base, gap, f, |gap|, [])
  }

  /** Everything published is heard, everything decided is written. */
  predicate CaughtUp(s: System) {
    s.cursor == |s.log| && s.owed == []
  }

  /** Once caught up, whatever fields the replica began with, whatever master and slaves wrote in
      whatever order, and whatever commands it gave itself: a field holds the stored value exactly when
      the key was written since the replica subscribed, or the replica began with the right value. */
  lemma ConvergesExactly(base: Store, d: Fields, f: Fields, gap: seq<Message>, moves: seq<Move>, s: System, k: Key)
    requires Reaches(Joined(base, f, gap), moves, s) && CaughtUp(s)
    ensures |gap| <= |s.log|
    ensures Encode(s.f, k) == ValueOf(StoreAfter(s.base, s.log), d, k) <==>
            Mentions(s.log[|gap|..], k) || Encode(f, k) == ValueOf(StoreAfter(base, gap), d, k)
  {
    var start := Joined(base, f, gap);
    LogExtends(start, moves, s);
    RunKeepsInv(start, moves, s, |gap|, d);
    assert s.log[s.cursor..] == [];
    if !Mentions(s.log[|gap|..], k) {
      UnmentionedKeepsField(start, moves, s, |gap|, k);
      assert gap + s.log[|gap|..] == s.log;
      UnmentionedUnchanged(base, gap, s.log[|gap|..], d, k);
    }
  }

  /** What eight reads return that are spread over the messages of `gap`: each key is read after some of
      them, and `seen` holds it as it was stored then. */
  ghost predicate ReadBetween(seen: Store, base: Store, gap: seq<Message>) {
    forall k :: ReadSometime(seen, base, gap, k)
  }

  ghost predicate ReadSometime(seen: Store, base: Store, gap: seq<Message>, k: Key) {
    exists n | 0 <= n <= |gap| :: ReadAfter(seen, base, gap[..n], k)
  }

  predicate ReadAfter(seen: Store, base: Store, log: seq<Message>, k: Key) {
    var store := StoreAfter(base, log);
    if k in store then k in seen && seen[k] == store[k] else k !in seen
  }

  /** A replica whose start from the store took over every value it read, with the messages of `gap`
      published between its first read and its subscription. Once caught up, a field holds the stored
      value exactly when the key was written since, or the value read was the last one written before. */
  lemma ConvergesExceptMissed(base: Store, tickDuration: int, seen: Store, f: Fields, gap: seq<Message>,
                              moves: seq<Move>, s: System, k: Key)
    requires InitFromStore(seen, Initial(tickDuration)) == Ok(f) && Holds(f, seen, Initial(tickDuration))
    requires Reaches(Joined(base, f, gap), moves, s) && CaughtUp(s)
    ensures var d := Initial(tickDuration);
            && |gap| <= |s.log|
            && (Encode(s.f, k) == ValueOf(StoreAfter(s.base, s.log), d, k) <==>
                Mentions(s.log[|gap|..], k) || ValueOf(seen, d, k) == ValueOf(StoreAfter(base, gap), d, k))
    ensures ReadBetween(seen, base, gap) && !Mentions(gap, k) ==>
              Encode(s.f, k) == ValueOf(StoreAfter(s.base, s.log), Initial(tickDuration), k)
  {
    ConvergesExactly(base, Initial(tickDuration), f, gap, moves, s, k);
    if ReadBetween(seen, base, gap) && !Mentions(gap, k) {
      ReadUnmentioned(seen, base, gap, Initial(tickDuration), k);
    }
  }

  lemma ReadUnmentioned(seen: Store, base: Store, gap: seq<Message>, d: Fields, k: Key)
    requires ReadBetween(seen, base, gap) && !Mentions(gap, k)
    ensures ValueOf(seen, d, k) == ValueOf(StoreAfter(base, gap), d, k)
  {
    assert ReadSometime(seen, base, gap, k);
    var n :| 0 <= n <= |gap| && ReadAfter(seen, base, gap[..n], k);
    assert gap == gap[..n] + gap[n..];
    UnmentionedSplit(base, gap[..n], gap[n..], d, k);
  }

  lemma UnmentionedSplit(base: Store, early: seq<Message>, late: seq<Message>, d: Fields, k: Key)
    requires !Mentions(early + late, k)
    ensures ValueOf(StoreAfter(base, early + late), d, k) == ValueOf(StoreAfter(base, early), d, k)
  {
    MentionsConcat(early, late, k);
    UnmentionedUnchanged(base, early, late, d, k);
  }

  /** Replica convergence: with no publication between reading the store and subscribing, a replica
      that has heard everything holds the stored value in all eight fields. */
  lemma ReplicaConverges(base: Store, tickDuration: int, f: Fields, moves: seq<Move>, s: System)
    requires var d := Initial(tickDuration);
             InitFromStore(base, d) == Ok(f) && Holds(f, base, d)
    requires Reaches(Joined(base, f, []), moves, s) && CaughtUp(s)
    ensures Holds(s.f, StoreAfter(s.base, s.log), Initial(tickDuration))
  {
    forall k
      ensures Encode(s.f, k) == ValueOf(StoreAfter(s.base, s.log), Initial(tickDuration), k)
    {
      ConvergesExceptMissed(base, tickDuration, base, f, [], moves, s, k);
    }
  }

  /** Two replicas that hold the same store are equal. */
  lemma ReplicasAgree(f: Fields, f': Fields, store: Store, d: Fields)
    requires Holds(f, store, d) && Holds(f', store, d)
    ensures f == f'
  {
    assert Encode(f, State) == Encode(f', State);
    assert Encode(f, DesiredState) == Encode(f', DesiredState);
    assert Encode(f, CurrentRound) == Encode(f', CurrentRound);
    assert Encode(f, RoundStart) == Encode(f', RoundStart);
    assert Encode(f, RoundEnd) == Encode(f', RoundEnd);
    assert Encode(f, RoundTime) == Encode(f', RoundTime);
    assert Encode(f, StopAfterRound) == Encode(f', StopAfterRound);
    assert Encode(f, Key.StartAt) == Encode(f', Key.StartAt);
  }

  /** A suspend command published in the gap stays unknown to the replica. */
  lemma GapLosesUpdate()
    ensures var base := map[State := Name(RUNNING), DesiredState := Name(RUNNING)];
            var s := Joined(base, InitFromStore(base, Initial(60)).value, [Message(DesiredState, Name(SUSPENDED))]);
            && InitFromStore(base, Initial(60)).Ok?
            && CaughtUp(s) && s.f.desired == RUNNING
            && StoreAfter(s.base, s.log)[DesiredState] == Name(SUSPENDED)
  {
    var log := [Message(DesiredState, Name(SUSPENDED))];
    assert log[..|log| - 1] == [];
  }
}
