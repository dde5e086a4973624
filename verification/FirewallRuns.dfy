/** Runs of the firewall process: the message loop and the team watcher, interleaved.

    The message loop handles a message in two steps, first the set (or the state), then the chain.
    The watcher rewrites the chain in three steps, and holds the manager's lock while it does, so the
    loop cannot touch the chain in between, but it can change state and sets. */
module FirewallRuns {
  import opened Wrappers
  import opened FirewallRules
  import opened FirewallModel
  import opened FirewallVerdicts

  datatype Phase = Idle | BaseWritten | BansWritten

  datatype Firewall = Firewall(
    state: string, banned: set<int>, allowed: set<int>,  // the manager's fields
    rules: seq<Rule>,                                    // the kernel chain
    maxId: int,                                          // the largest team id when the base rules were written
    half: Option<Message>,                               // a message whose chain update is still to come
    watcher: Phase)

  datatype Step =
    | UpdateFields(msg: Message)
    | UpdateChain(maxId: int, bans: seq<int>, allows: seq<int>)
    | WatcherBase(maxId: int)
    | WatcherBans(bans: seq<int>)
    | WatcherAllows(allows: seq<int>)

  /** init_firewall on a fresh manager. */
  function Started(cfg: FirewallConfig, state: string, maxId: int, banned: set<int>, allowed: set<int>,
                   bans: seq<int>, allows: seq<int>): Firewall
    requires cfg.network.Valid()
  {
    Firewall(state, banned, allowed, Rewrite(cfg, state, maxId, bans, allows), maxId, None, Idle)
  }

  function FieldsOf(fw: Firewall): ManagerFields {
    ManagerFields(fw.state, fw.banned, fw.allowed)
  }

  function WithFields(fw: Firewall, msg: Message): Firewall {
    var f := Handled(FieldsOf(fw), msg);
    fw.(state := f.state, banned := f.banned, allowed := f.allowed)
  }

  /** The chain part of a message; only a state message rebuilds the chain. */
  function WithChain(cfg: FirewallConfig, fw: Firewall, msg: Message, maxId: int, bans: seq<int>, allows: seq<int>): Firewall
    requires cfg.network.Valid()
  {
    match msg
    case SetState(_) => fw.(rules := Rewrite(cfg, fw.state, maxId, bans, allows), maxId := maxId)
    case BanTeam(t) => fw.(rules := Ban(fw.rules, t))
    case UnbanTeam(t) => fw.(rules := Unban(fw.rules, t))
    case AllowTeam(t) => fw.(rules := Allow(cfg, fw.rules, t))
    case DisallowTeam(t) => fw.(rules := Disallow(cfg, fw.rules, t))
  }

  /** When a step can happen. Iteration orders range over all orders of the current sets. */
  ghost predicate Enabled(fw: Firewall, step: Step) {
    match step
    case UpdateFields(_) => fw.half.None?
    case UpdateChain(_, bans, allows) =>
      fw.half.Some? && fw.watcher.Idle? && Enumerates(bans, fw.banned) && Enumerates(allows, fw.allowed)
    case WatcherBase(_) => fw.watcher.Idle?
    case WatcherBans(bans) => fw.watcher.BaseWritten? && Enumerates(bans, fw.banned)
    case WatcherAllows(allows) => fw.watcher.BansWritten? && Enumerates(allows, fw.allowed)
  }

  function Next(cfg: FirewallConfig, fw: Firewall, step: Step): Firewall
    requires cfg.network.Valid()
  {
    match step
    case UpdateFields(msg) => WithFields(fw, msg).(half := Some(msg))
    case UpdateChain(maxId, bans, allows) =>
      if fw.half.None? then fw
      else WithChain(cfg, fw, fw.half.value, maxId, bans, allows).(half := None)
    case WatcherBase(maxId) => fw.(rules := Base(cfg, fw.state, maxId), maxId := maxId, watcher := BaseWritten)
    case WatcherBans(bans) => fw.(rules := BanEach(fw.rules, bans), watcher := BansWritten)
    case WatcherAllows(allows) => fw.(rules := AllowEach(cfg, fw.rules, allows), watcher := Idle)
  }

  /** A run from start to end, step by step. */
  ghost predicate Reaches(cfg: FirewallConfig, start: Firewall, steps: seq<Step>, end: Firewall)
    requires cfg.network.Valid()
    decreases |steps|
  {
    if steps == [] then start == end
    else Enabled(start, steps[0]) && Reaches(cfg, Next(cfg, start, steps[0]), steps[1..], end)
  }

  // ----- the invariant -----

  /** How far the bans in the chain may lag behind the field. */
  ghost predicate BansLag(half: Option<Message>, bans: seq<int>, banned: set<int>) {
    NoDuplicates(bans) &&
    match half
    case Some(BanTeam(t)) => t in banned && forall x | x != t :: x in bans <==> x in banned
    case Some(UnbanTeam(t)) => t !in banned && forall x | x != t :: x in bans <==> x in banned
    case _ => forall x :: x in bans <==> x in banned
  }

  ghost predicate AllowsLag(half: Option<Message>, allows: seq<int>, allowed: set<int>) {
    NoDuplicates(allows) &&
    match half
    case Some(AllowTeam(t)) => t in allowed && forall x | x != t :: x in allows <==> x in allowed
    case Some(DisallowTeam(t)) => t !in allowed && forall x | x != t :: x in allows <==> x in allowed
    case _ => forall x :: x in allows <==> x in allowed
  }

  /** The chain is laid out for some state and some teams that agree with the fields except for what
      the half-handled message changes and for what the watcher has yet to write. */
  ghost predicate Tracks(cfg: FirewallConfig, fw: Firewall, state: string, bans: seq<int>, allows: seq<int>)
    requires cfg.network.Valid()
  {
    && fw.rules == Layout(cfg, Base(cfg, state, fw.maxId), bans, allows)
    && ((fw.half.Some? && fw.half.value.SetState?) || state == fw.state)
    && (if fw.watcher.BaseWritten? then bans == [] else BansLag(fw.half, bans, fw.banned))
    && (if fw.watcher.Idle? then AllowsLag(fw.half, allows, fw.allowed) else allows == [])
  }

  ghost predicate Inv(cfg: FirewallConfig, fw: Firewall)
    requires cfg.network.Valid()
  {
    exists state, bans, allows :: Tracks(cfg, fw, state, bans, allows)
  }

  lemma StartedInv(cfg: FirewallConfig, state: string, maxId: int, banned: set<int>, allowed: set<int>,
                   bans: seq<int>, allows: seq<int>)
    requires cfg.network.Valid() && Enumerates(bans, banned) && Enumerates(allows, allowed)
    ensures Inv(cfg, Started(cfg, state, maxId, banned, allowed, bans, allows))
  {
    var fw := Started(cfg, state, maxId, banned, allowed, bans, allows);
    RewriteLayout(cfg, state, maxId, bans, allows);
    assert Tracks(cfg, fw, state, bans, allows);
  }

  lemma RewriteLayout(cfg: FirewallConfig, state: string, maxId: int, bans: seq<int>, allows: seq<int>)
    requires cfg.network.Valid() && NoDuplicates(bans) && NoDuplicates(allows)
    ensures Rewrite(cfg, state, maxId, bans, allows) == Layout(cfg, Base(cfg, state, maxId), bans, allows)
  {
    BaseOwners(cfg, state, maxId);
    BanEachLayout(cfg, Base(cfg, state, maxId), bans);
    AllowEachLayout(cfg, Base(cfg, state, maxId), bans, allows);
  }

  lemma FieldsKeepInv(cfg: FirewallConfig, fw: Firewall, msg: Message)
    requires cfg.network.Valid() && Inv(cfg, fw) && fw.half.None?
    ensures Inv(cfg, Next(cfg, fw, UpdateFields(msg)))
  {
    var state, bans, allows :| Tracks(cfg, fw, state, bans, allows);
    assert Tracks(cfg, Next(cfg, fw, UpdateFields(msg)), state, bans, allows);
  }

  lemma FinishBan(cfg: FirewallConfig, fw: Firewall, t: int, state: string, bans: seq<int>, allows: seq<int>)
    requires cfg.network.Valid() && Tracks(cfg, fw, state, bans, allows)
    requires fw.half == Some(BanTeam(t)) && fw.watcher.Idle?
    ensures Tracks(cfg, fw.(rules := Ban(fw.rules, t), half := None), state, Appended(bans, t), allows)
  {
    BaseOwners(cfg, state, fw.maxId);
    BanKeepsLayout(cfg, Base(cfg, state, fw.maxId), bans, allows, t);
  }

  lemma FinishUnban(cfg: FirewallConfig, fw: Firewall, t: int, state: string, bans: seq<int>, allows: seq<int>)
    requires cfg.network.Valid() && Tracks(cfg, fw, state, bans, allows)
    requires fw.half == Some(UnbanTeam(t)) && fw.watcher.Idle?
    ensures Tracks(cfg, fw.(rules := Unban(fw.rules, t), half := None), state, Without(bans, t), allows)
  {
    BaseOwners(cfg, state, fw.maxId);
    UnbanKeepsLayout(cfg, Base(cfg, state, fw.maxId), bans, allows, t);
    WithoutMembers(bans, t);
    WithoutDistinct(bans, t);
  }

  lemma FinishAllow(cfg: FirewallConfig, fw: Firewall, t: int, state: string, bans: seq<int>, allows: seq<int>)
    requires cfg.network.Valid() && Tracks(cfg, fw, state, bans, allows)
    requires fw.half == Some(AllowTeam(t)) && fw.watcher.Idle?
    ensures Tracks(cfg, fw.(rules := Allow(cfg, fw.rules, t), half := None), state, bans, Appended(allows, t))
  {
    BaseOwners(cfg, state, fw.maxId);
    AllowKeepsLayout(cfg, Base(cfg, state, fw.maxId), bans, allows, t);
  }

  lemma FinishDisallow(cfg: FirewallConfig, fw: Firewall, t: int, state: string, bans: seq<int>, allows: seq<int>)
    requires cfg.network.Valid() && Tracks(cfg, fw, state, bans, allows)
    requires fw.half == Some(DisallowTeam(t)) && fw.watcher.Idle?
    ensures Tracks(cfg, fw.(rules := Disallow(cfg, fw.rules, t), half := None), state, bans, Without(allows, t))
  {
    BaseOwners(cfg, state, fw.maxId);
    DisallowKeepsLayout(cfg, Base(cfg, state, fw.maxId), bans, allows, t);
    WithoutMembers(allows, t);
    WithoutDistinct(allows, t);
  }

  lemma FinishState(cfg: FirewallConfig, fw: Firewall, maxId: int, bans: seq<int>, allows: seq<int>)
    requires cfg.network.Valid() && Enumerates(bans, fw.banned) && Enumerates(allows, fw.allowed)
    requires fw.watcher.Idle?
    ensures Tracks(cfg, fw.(rules := Rewrite(cfg, fw.state, maxId, bans, allows), maxId := maxId, half := None),
                   fw.state, bans, allows)
  {
    RewriteLayout(cfg, fw.state, maxId, bans, allows);
  }

  lemma ChainKeepsInv(cfg: FirewallConfig, fw: Firewall, step: Step)
    requires cfg.network.Valid() && Inv(cfg, fw) && step.UpdateChain? && Enabled(fw, step)
    ensures Inv(cfg, Next(cfg, fw, step))
  {
    var state, bans, allows :| Tracks(cfg, fw, state, bans, allows);
    match fw.half.value
    case SetState(_) => FinishState(cfg, fw, step.maxId, step.bans, step.allows);
    case BanTeam(t) => FinishBan(cfg, fw, t, state, bans, allows);
    case UnbanTeam(t) => FinishUnban(cfg, fw, t, state, bans, allows);
    case AllowTeam(t) => FinishAllow(cfg, fw, t, state, bans, allows);
    case DisallowTeam(t) => FinishDisallow(cfg, fw, t, state, bans, allows);
  }

  lemma WriteBase(cfg: FirewallConfig, fw: Firewall, maxId: int)
    requires cfg.network.Valid() && fw.watcher.Idle?
    ensures Tracks(cfg, Next(cfg, fw, WatcherBase(maxId)), fw.state, [], [])
  {
    var base := Base(cfg, fw.state, maxId);
    assert Layout(cfg, base, [], []) == base;
  }

  lemma WriteBans(cfg: FirewallConfig, fw: Firewall, state: string, bans: seq<int>)
    requires cfg.network.Valid() && Tracks(cfg, fw, state, [], []) && fw.watcher.BaseWritten?
    requires HalfApplied(fw) && Enumerates(bans, fw.banned)
    ensures Tracks(cfg, Next(cfg, fw, WatcherBans(bans)), state, bans, [])
  {
    var base := Base(cfg, state, fw.maxId);
    BaseOwners(cfg, state, fw.maxId);
    assert Layout(cfg, base, [], []) == base;
    BanEachLayout(cfg, base, bans);
  }

  lemma WriteAllows(cfg: FirewallConfig, fw: Firewall, state: string, bans: seq<int>, allows: seq<int>)
    requires cfg.network.Valid() && Tracks(cfg, fw, state, bans, []) && fw.watcher.BansWritten?
    requires HalfApplied(fw) && Enumerates(allows, fw.allowed)
    ensures Tracks(cfg, Next(cfg, fw, WatcherAllows(allows)), state, bans, allows)
  {
    BaseOwners(cfg, state, fw.maxId);
    AllowEachLayout(cfg, Base(cfg, state, fw.maxId), bans, allows);
  }

  lemma WatcherKeepsInv(cfg: FirewallConfig, fw: Firewall, step: Step)
    requires cfg.network.Valid() && Inv(cfg, fw) && Enabled(fw, step)
    requires step.WatcherBase? || step.WatcherBans? || step.WatcherAllows?
    requires HalfApplied(fw)
    ensures Inv(cfg, Next(cfg, fw, step))
  {
    var state, bans, allows :| Tracks(cfg, fw, state, bans, allows);
    match step
    case WatcherBase(maxId) => WriteBase(cfg, fw, maxId);
    case WatcherBans(bans') => WriteBans(cfg, fw, state, bans');
    case WatcherAllows(allows') => WriteAllows(cfg, fw, state, bans, allows');
  }

  /** The fields already hold what a half-handled message asks for. */
  ghost predicate HalfApplied(fw: Firewall) {
    match fw.half
    case Some(BanTeam(t)) => t in fw.banned
    case Some(UnbanTeam(t)) => t !in fw.banned
    case Some(AllowTeam(t)) => t in fw.allowed
    case Some(DisallowTeam(t)) => t !in fw.allowed
    case _ => true
  }

  lemma StepKeepsInv(cfg: FirewallConfig, fw: Firewall, step: Step)
    requires cfg.network.Valid() && Inv(cfg, fw) && HalfApplied(fw) && Enabled(fw, step)
    ensures Inv(cfg, Next(cfg, fw, step)) && HalfApplied(Next(cfg, fw, step))
  {
    match step
    case UpdateFields(msg) => FieldsKeepInv(cfg, fw, msg);
    case UpdateChain(_, _, _) => ChainKeepsInv(cfg, fw, step);
    case _ => WatcherKeepsInv(cfg, fw, step);
  }

  lemma {:induction false} RunKeepsInv(cfg: FirewallConfig, start: Firewall, steps: seq<Step>, end: Firewall)
    requires cfg.network.Valid() && Inv(cfg, start) && HalfApplied(start)
    requires Reaches(cfg, start, steps, end)
    ensures Inv(cfg, end) && HalfApplied(end)
    decreases |steps|
  {
    if steps != [] {
      StepKeepsInv(cfg, start, steps[0]);
      RunKeepsInv(cfg, Next(cfg, start, steps[0]), steps[1..], end);
    }
  }

  // ----- main results -----

  /** No message is half handled and the watcher is not writing. */
  predicate Quiet(fw: Firewall) {
    fw.half.None? && fw.watcher.Idle?
  }

  /** In every quiet moment of every run the chain has the shape of the current state and sets. */
  lemma ChainMatchesFields(cfg: FirewallConfig, state: string, maxId: int, banned: set<int>, allowed: set<int>,
                           bans: seq<int>, allows: seq<int>, steps: seq<Step>, fw: Firewall)
    requires cfg.network.Valid() && Enumerates(bans, banned) && Enumerates(allows, allowed)
    requires Reaches(cfg, Started(cfg, state, maxId, banned, allowed, bans, allows), steps, fw) && Quiet(fw)
    ensures Shaped(cfg, fw.rules, fw.state, fw.maxId, fw.banned, fw.allowed)
  {
    var start := Started(cfg, state, maxId, banned, allowed, bans, allows);
    StartedInv(cfg, state, maxId, banned, allowed, bans, allows);
    RunKeepsInv(cfg, start, steps, fw);
    var s, b, a :| Tracks(cfg, fw, s, b, a);
    assert Enumerates(b, fw.banned) && Enumerates(a, fw.allowed);
  }

  /** Refinement: in every quiet moment the edited chain decides every packet as a chain freshly
      built from the current state and sets would, in whatever order the sets are iterated, and that
      decision is the policy's. */
  lemma EditedRefinesRebuilt(cfg: FirewallConfig, state: string, maxId: int, banned: set<int>, allowed: set<int>,
                             bans: seq<int>, allows: seq<int>, steps: seq<Step>, fw: Firewall,
                             bans': seq<int>, allows': seq<int>, p: Packet)
    requires cfg.network.Valid() && Enumerates(bans, banned) && Enumerates(allows, allowed)
    requires Reaches(cfg, Started(cfg, state, maxId, banned, allowed, bans, allows), steps, fw) && Quiet(fw)
    requires Enumerates(bans', fw.banned) && Enumerates(allows', fw.allowed)
    ensures Verdict(fw.rules, p) == Verdict(Rewrite(cfg, fw.state, fw.maxId, bans', allows'), p)
    ensures Verdict(fw.rules, p) == Policy(cfg, fw.state, fw.maxId, fw.banned, fw.allowed, p)
  {
    ChainMatchesFields(cfg, state, maxId, banned, allowed, bans, allows, steps, fw);
    ShapedVerdict(cfg, fw.rules, fw.state, fw.maxId, fw.banned, fw.allowed, p);
    RewriteShaped(cfg, fw.state, fw.maxId, bans', allows', fw.banned, fw.allowed);
    ShapedVerdict(cfg, Rewrite(cfg, fw.state, fw.maxId, bans', allows'), fw.state, fw.maxId, fw.banned, fw.allowed, p);
  }

  /** The largest team id the chain knows of is the one read when the base rules were last written: by the
      watcher, or for a state message. */
  lemma LargestIdKnown(cfg: FirewallConfig, fw: Firewall, step: Step)
    requires cfg.network.Valid() && Enabled(fw, step)
    ensures Next(cfg, fw, step).maxId ==
            match step
            case WatcherBase(n) => n
            case UpdateChain(n, _, _) => if fw.half.value.SetState? then n else fw.maxId
            case _ => fw.maxId
  {
  }

  // ----- what the fields become -----

  /** The messages of a run, in order. */
  function MessagesOf(steps: seq<Step>): seq<Message> {
    if steps == [] then []
    else (if steps[0].UpdateFields? then [steps[0].msg] else []) + MessagesOf(steps[1..])
  }

  /** The watcher never changes what the messages made of the fields: the state is that of the last state
      message, and a team is banned or allowed exactly when the last message about it says so. */
  lemma {:induction false} FieldsFollowMessages(cfg: FirewallConfig, start: Firewall, steps: seq<Step>, end: Firewall)
    requires cfg.network.Valid() && Reaches(cfg, start, steps, end)
    ensures FieldsOf(end) == HandledAll(FieldsOf(start), MessagesOf(steps))
    ensures var msgs := MessagesOf(steps);
            && LastState(msgs, start.state, end.state)
            && (forall t :: t in end.banned <==> LastOn(msgs, BanTeam(t), UnbanTeam(t), t in start.banned))
            && (forall t :: t in end.allowed <==> LastOn(msgs, AllowTeam(t), DisallowTeam(t), t in start.allowed))
    decreases |steps|
  {
    FieldsFold(cfg, start, steps, end);
    HandledAllMeaning(FieldsOf(start), MessagesOf(steps));
  }

  lemma {:induction false} FieldsFold(cfg: FirewallConfig, start: Firewall, steps: seq<Step>, end: Firewall)
    requires cfg.network.Valid() && Reaches(cfg, start, steps, end)
    ensures FieldsOf(end) == HandledAll(FieldsOf(start), MessagesOf(steps))
    decreases |steps|
  {
    if steps != [] {
      FieldsFold(cfg, Next(cfg, start, steps[0]), steps[1..], end);
      if steps[0].UpdateFields? {
        assert MessagesOf(steps)[1..] == MessagesOf(steps[1..]);
      } else {
        assert MessagesOf(steps) == MessagesOf(steps[1..]);
      }
    }
  }
}
