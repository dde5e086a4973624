/** The CTF timer on values: its fields, the store and channel it replicates them over, and what
    every operation of the master does. */
module TimerModel {
  import opened Wrappers

  datatype CTFState = STOPPED | SUSPENDED | RUNNING

  /** The fields every timer has, master or slave. */
  datatype Fields = Fields(
    state: CTFState, desired: CTFState, tick: int,
    tickStart: Option<int>, tickEnd: Option<int>, tickTime: int,
    stopAfter: Option<int>, startAt: Option<int>)

  /** CTFTimerBase.__init__ */
  function Initial(tickDuration: int): Fields {
    Fields(STOPPED, STOPPED, 0, None, None, tickDuration, None, None)
  }

  /** Python truth of an optional integer. */
  predicate Truthy(x: Option<int>) {
    x.Some? && x.value != 0
  }

  // ----- the store and the channel -----

  datatype Key = State | DesiredState | CurrentRound | RoundStart | RoundEnd | RoundTime | StopAfterRound | StartAt

  /** What is stored and published: a state's name, a decimal number, or the word None. */
  datatype Wire = Name(state: CTFState) | Number(n: int) | NoneWord

  datatype Message = Message(key: Key, value: Wire)

  /** The record of one tick: the keys round:n:start, round:n:end and round:n:time. */
  datatype Round = Round(start: Option<int>, end: Option<int>, time: int)

  type Store = map<Key, Wire>

  datatype Redis = Redis(store: Store, published: seq<Message>, rounds: map<int, Round>)

  function EncodeOption(x: Option<int>): Wire {
    match x
    case None => NoneWord
    case Some(n) => Number(n)
  }

  /** The value a field is written as. */
  function Encode(f: Fields, key: Key): Wire {
    match key
    case State => Name(f.state)
    case DesiredState => Name(f.desired)
    case CurrentRound => Number(f.tick)
    case RoundStart => EncodeOption(f.tickStart)
    case RoundEnd => EncodeOption(f.tickEnd)
    case RoundTime => Number(f.tickTime)
    case StopAfterRound => EncodeOption(f.stopAfter)
    case StartAt => EncodeOption(f.startAt)
  }

  /** redis_set_and_publish */
  function SetAndPublish(r: Redis, m: Message): Redis {
    r.(store := r.store[m.key := m.value], published := r.published + [m])
  }

  function Messages(f: Fields, keys: seq<Key>): seq<Message> {
    seq(|keys|, i requires 0 <= i < |keys| => Message(keys[i], Encode(f, keys[i])))
  }

  /** redis_set_and_publish for each of the keys in turn, with the fields' values. */
  function Publish(r: Redis, f: Fields, keys: seq<Key>): Redis {
    Redis(r.store + map k | k in keys :: Encode(f, k), r.published + Messages(f, keys), r.rounds)
  }

  /** The eight writes of on_update_times, in its order. */
  function FirstMessages(f: Fields): seq<Message> {
    [Message(State, Encode(f, State)), Message(DesiredState, Encode(f, DesiredState)),
     Message(CurrentRound, Encode(f, CurrentRound)), Message(RoundStart, Encode(f, RoundStart))]
  }

  function LastMessages(f: Fields): seq<Message> {
    [Message(RoundEnd, Encode(f, RoundEnd)), Message(RoundTime, Encode(f, RoundTime)),
     Message(StopAfterRound, Encode(f, StopAfterRound)), Message(Key.StartAt, Encode(f, Key.StartAt))]
  }

  /** All keys at once: afterwards the store holds exactly the fields. */
  function PublishAll(r: Redis, f: Fields): Redis {
    Redis(map k: Key | true :: Encode(f, k), r.published + FirstMessages(f) + LastMessages(f), r.rounds)
  }

  lemma MessagesMore(f: Fields, keys: seq<Key>, k: Key)
    ensures Messages(f, keys + [k]) == Messages(f, keys) + [Message(k, Encode(f, k))]
  {
  }

  lemma StoreMore(store: Store, f: Fields, keys: seq<Key>, k: Key)
    ensures store + (map j | j in keys + [k] :: Encode(f, j)) == (store + map j | j in keys :: Encode(f, j))[k := Encode(f, k)]
  {
  }

  /** One write after the others. */
  lemma PublishMore(r: Redis, f: Fields, keys: seq<Key>, k: Key)
    ensures Publish(r, f, keys + [k]) == SetAndPublish(Publish(r, f, keys), Message(k, Encode(f, k)))
  {
    MessagesMore(f, keys, k);
    StoreMore(r.store, f, keys, k);
  }

  lemma PublishNothing(r: Redis, f: Fields)
    ensures Publish(r, f, []) == r
  {
    assert Publish(r, f, []).store == r.store;
  }

  // ----- the listener -----

  /** The value has the kind its key carries; any other makes the listener raise. */
  predicate RightKind(m: Message) {
    match m.key
    case State => m.value.Name?
    case DesiredState => m.value.Name?
    case CurrentRound => m.value.Number?
    case RoundTime => m.value.Number?
    case _ => !m.value.Name?
  }

  /** What timers write as long as no tick time is 0. */
  predicate WellTyped(m: Message) {
    RightKind(m) && (m.key == RoundTime ==> m.value.n != 0)
  }

  /** to_int on a stored or published value. */
  function ToInt(w: Wire): Option<int> {
    match w
    case Number(n) => Some(n)
    case _ => None
  }

  /** One message in __listen_for_redis_events. */
  function Listen(f: Fields, m: Message): Fields {
    match m.key
    case State => if m.value.Name? then f.(state := m.value.state) else f
    case DesiredState => if m.value.Name? then f.(desired := m.value.state) else f
    case CurrentRound => if m.value.Number? then f.(tick := m.value.n) else f
    case RoundStart => f.(tickStart := ToInt(m.value))
    case RoundEnd => f.(tickEnd := ToInt(m.value))
    case RoundTime => if m.value.Number? && m.value.n != 0 then f.(tickTime := m.value.n) else f
    case StopAfterRound => f.(stopAfter := ToInt(m.value))
    case StartAt => f.(startAt := ToInt(m.value))
  }

  // ----- the master -----

  /** What the listeners get to see. */
  datatype Event = StartCtf | StartTick(tick: int) | EndTick(tick: int) | SuspendCtf | EndCtf | UpdateTimes

  datatype Master = Master(f: Fields, redis: Redis, events: seq<Event>)

  function Fresh(tickDuration: int): Master {
    Master(Initial(tickDuration), Redis(map[], [], map[]), [])
  }

  function Emit(m: Master, e: Event): Master {
    m.(events := m.events + [e])
  }

  /** update_tick_times */
  function WriteRound(m: Master): Master {
    if m.f.state == RUNNING then
      m.(redis := m.redis.(rounds := m.redis.rounds[m.f.tick := Round(m.f.tickStart, m.f.tickEnd, m.f.tickTime)]))
    else m
  }

  /** on_update_times */
  function OnUpdateTimes(m: Master): Master {
    Emit(WriteRound(m.(redis := PublishAll(m.redis, m.f))), UpdateTimes)
  }

  /** What on_start_tick does to the fields: the last tick arms the stop. */
  function TickOpened(f: Fields): Fields {
    if Truthy(f.stopAfter) && f.stopAfter.value == f.tick then f.(desired := STOPPED, stopAfter := None) else f
  }

  /** on_start_tick */
  function OnStartTick(m: Master): Master {
    Emit(m.(f := TickOpened(m.f)), StartTick(m.f.tick))
  }

  /** Opening the next tick at the given time, before anyone is told. */
  function NextTick(f: Fields, start: int): Fields {
    f.(tick := f.tick + 1, tickStart := Some(start), tickEnd := Some(start + f.tickTime))
  }

  /** start_ctf */
  function Start(m: Master, now: int): Master {
    var wanted := m.(f := m.f.(desired := RUNNING));
    if m.f.state == RUNNING then wanted
    else
      var begun := wanted.(f := NextTick(wanted.f, now).(state := RUNNING));
      var announced := if m.f.state == STOPPED then Emit(WriteRound(begun), StartCtf) else begun;
      OnUpdateTimes(OnStartTick(announced))
  }

  /** Where the next tick starts when this one is found over at time now. */
  function NextStart(end: int, now: int): int {
    if now > end + 1 then now else end
  }

  /** The open tick is over. */
  function CloseTick(m: Master, now: int): Master
    requires m.f.tickEnd.Some?
  {
    var ended := Emit(m, EndTick(m.f.tick));
    if m.f.desired == RUNNING then
      OnUpdateTimes(OnStartTick(ended.(f := NextTick(m.f, NextStart(m.f.tickEnd.value, now)))))
    else
      var halted := ended.(f := m.f.(state := m.f.desired));
      OnUpdateTimes(if m.f.desired == SUSPENDED then Emit(halted, SuspendCtf) else Emit(WriteRound(halted), EndCtf))
  }

  /** A halted timer has a scheduled start, and now is at most four seconds past it. */
  predicate ScheduleDue(f: Fields, now: int) {
    f.state != RUNNING && Truthy(f.startAt) && f.startAt.value <= now <= f.startAt.value + 4
  }

  /** check_time; start_ctf reads the clock once more, at now2. */
  function Check(m: Master, now: int, now2: int): Master {
    if m.f.state == RUNNING && Truthy(m.f.tickEnd) && now >= m.f.tickEnd.value then CloseTick(m, now)
    else if m.f.state != RUNNING && m.f.desired == RUNNING then Start(m, now2)
    else if ScheduleDue(m.f, now) then
      Start(m.(f := m.f.(startAt := None)), now2)
    else m
  }

  /** suspend_ctf_after_tick */
  function Suspend(m: Master): Master {
    OnUpdateTimes(m.(f := m.f.(desired := SUSPENDED)))
  }

  /** stop_ctf_after_tick */
  function Stop(m: Master): Master {
    OnUpdateTimes(m.(f := m.f.(desired := STOPPED)))
  }

  /** The effect of a new tick time on the fields, the same on master and slaves. */
  function WithTickTime(f: Fields, v: int): Fields {
    var f' := f.(tickTime := v);
    if Truthy(f.tickStart) then f'.(tickEnd := Some(f.tickStart.value + v)) else f'
  }

  function SetTickTime(m: Master, v: int): Master {
    if m.f.tickTime == v then m else OnUpdateTimes(m.(f := WithTickTime(m.f, v)))
  }

  function SetStopAfter(m: Master, v: Option<int>): Master {
    if m.f.stopAfter == v then m else OnUpdateTimes(m.(f := m.f.(stopAfter := v)))
  }

  function SetStartAt(m: Master, v: Option<int>): Master {
    if m.f.startAt == v then m else OnUpdateTimes(m.(f := m.f.(startAt := v)))
  }
}
