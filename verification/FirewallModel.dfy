/** What each operation of the iptables manager does to the chain, and the shape chains keep. */
module FirewallModel {
  import opened Network
  import opened FirewallRules

  datatype FirewallConfig = FirewallConfig(network: NetworkConfig, gameserver: Net)

  /** The messages of the five Redis channels. */
  datatype Message =
    | SetState(state: string)
    | BanTeam(team: int)
    | UnbanTeam(team: int)
    | AllowTeam(team: int)
    | DisallowTeam(team: int)

  /** What the manager object keeps besides the chain. */
  datatype ManagerFields = ManagerFields(state: string, banned: set<int>, allowed: set<int>)

  /** self.state = ..., self.banned.add(...) and so on. */
  function Handled(f: ManagerFields, msg: Message): ManagerFields {
    match msg
    case SetState(s) => f.(state := s)
    case BanTeam(t) => f.(banned := f.banned + {t})
    case UnbanTeam(t) => f.(banned := f.banned - {t})
    case AllowTeam(t) => f.(allowed := f.allowed + {t})
    case DisallowTeam(t) => f.(allowed := f.allowed - {t})
  }

  function HandledAll(f: ManagerFields, msgs: seq<Message>): ManagerFields
    decreases |msgs|
  {
    if msgs == [] then f else HandledAll(Handled(f, msgs[0]), msgs[1..])
  }

  /** After the messages the state is s: the last state message says so, or there is none and s is the
      state from before. */
  ghost predicate LastState(msgs: seq<Message>, before: string, s: string) {
    || (s == before && forall i | 0 <= i < |msgs| :: !msgs[i].SetState?)
    || exists i | 0 <= i < |msgs| :: msgs[i] == SetState(s) && forall j | i < j < |msgs| :: !msgs[j].SetState?
  }

  /** on is sent, and off is not sent after it. */
  ghost predicate OnLast(msgs: seq<Message>, on: Message, off: Message) {
    exists i | 0 <= i < |msgs| :: msgs[i] == on && off !in msgs[i + 1..]
  }

  /** The last of the messages on and off is on, or neither occurs and it was on before. */
  ghost predicate LastOn(msgs: seq<Message>, on: Message, off: Message, before: bool) {
    (before && off !in msgs) || OnLast(msgs, on, off)
  }

  lemma LastStateFirst(msgs: seq<Message>, before: string, s: string)
    requires msgs != []
    requires LastState(msgs[1..], if msgs[0].SetState? then msgs[0].state else before, s)
    ensures LastState(msgs, before, s)
  {
    var rest := msgs[1..];
    assert forall i | 0 < i < |msgs| :: msgs[i] == rest[i - 1];
    if i :| 0 <= i < |rest| && rest[i] == SetState(s) && forall j | i < j < |rest| :: !rest[j].SetState? {
      assert msgs[i + 1] == SetState(s) && forall j | i + 1 < j < |msgs| :: !msgs[j].SetState?;
    } else if msgs[0].SetState? {
      assert msgs[0] == SetState(s);
    }
  }

  lemma OnLastFirst(msgs: seq<Message>, on: Message, off: Message)
    requires msgs != []
    ensures OnLast(msgs, on, off) <==> OnLast(msgs[1..], on, off) || (msgs[0] == on && off !in msgs[1..])
  {
    var rest := msgs[1..];
    if OnLast(rest, on, off) {
      var i :| 0 <= i < |rest| && rest[i] == on && off !in rest[i + 1..];
      assert msgs[i + 1] == on && msgs[i + 2..] == rest[i + 1..];
    }
    if OnLast(msgs, on, off) {
      var i :| 0 <= i < |msgs| && msgs[i] == on && off !in msgs[i + 1..];
      assert 0 < i ==> rest[i - 1] == on && rest[i..] == msgs[i + 1..];
    }
  }

  lemma LastOnFirst(msgs: seq<Message>, on: Message, off: Message, before: bool)
    requires msgs != [] && on != off
    ensures LastOn(msgs, on, off, before) <==> LastOn(msgs[1..], on, off, msgs[0] == on || (before && msgs[0] != off))
  {
    OnLastFirst(msgs, on, off);
    assert msgs == [msgs[0]] + msgs[1..];
  }

  /** What any list of messages makes of the fields, message by message or seen from the end: the last
      state message gives the state, and a team is banned or allowed exactly when the last message that
      says whether it is says so. */
  lemma {:induction false} HandledAllMeaning(f: ManagerFields, msgs: seq<Message>)
    ensures var f' := HandledAll(f, msgs);
            && LastState(msgs, f.state, f'.state)
            && (forall t :: t in f'.banned <==> LastOn(msgs, BanTeam(t), UnbanTeam(t), t in f.banned))
            && (forall t :: t in f'.allowed <==> LastOn(msgs, AllowTeam(t), DisallowTeam(t), t in f.allowed))
    decreases |msgs|
  {
    if msgs != [] {
      var f' := HandledAll(f, msgs);
      HandledAllMeaning(Handled(f, msgs[0]), msgs[1..]);
      LastStateFirst(msgs, f.state, f'.state);
      forall t
        ensures t in f'.banned <==> LastOn(msgs, BanTeam(t), UnbanTeam(t), t in f.banned)
        ensures t in f'.allowed <==> LastOn(msgs, AllowTeam(t), DisallowTeam(t), t in f.allowed)
      {
        LastOnFirst(msgs, BanTeam(t), UnbanTeam(t), t in f.banned);
        LastOnFirst(msgs, AllowTeam(t), DisallowTeam(t), t in f.allowed);
      }
    }
  }

  // ----- the rules -----

  const RULE_NETCLOSED := Rule(Everything, REJECT, NetworkIsClosed)

  const RULE_NETTEAMONLY := Rule(TeamMark, RETURN, OpenForTeamsOnly)

  /** A ban: the team's own interface, then its two cloud interfaces, each in both directions. */
  function BanRules(team: int): seq<Rule> {
    [ Rule(EnteringBy(team), DROP, BanIncoming(team)),
      Rule(LeavingBy(team), DROP, BanOutgoing(team)),
      Rule(EnteringBy(1000 + team), DROP, BanIncoming(team)),
      Rule(LeavingBy(1000 + team), DROP, BanOutgoing(team)),
      Rule(EnteringBy(2000 + team), DROP, BanIncoming(team)),
      Rule(LeavingBy(2000 + team), DROP, BanOutgoing(team)) ]
  }

  function AllowOutward(cfg: FirewallConfig, team: int): Rule
    requires cfg.network.Valid()
  {
    Rule(Between(cfg.network.TeamIdToNetworkRange(team), cfg.gameserver), RETURN, OpenNetworkFor(team))
  }

  function AllowInward(cfg: FirewallConfig, team: int): Rule
    requires cfg.network.Valid()
  {
    Rule(Between(cfg.gameserver, cfg.network.TeamIdToNetworkRange(team)), RETURN, OpenNetworkFor(team))
  }

  function RejectFrom(cfg: FirewallConfig, team: int): Rule
    requires cfg.network.Valid()
  {
    Rule(Source(cfg.network.TeamIdToVulnboxIp(team)), REJECT, NoComment)
  }

  function RejectTo(cfg: FirewallConfig, team: int): Rule
    requires cfg.network.Valid()
  {
    Rule(Destination(cfg.network.TeamIdToVulnboxIp(team)), REJECT, NoComment)
  }

  // ----- the operations -----

  function AddAll(rules: seq<Rule>, rs: seq<Rule>): seq<Rule>
    decreases |rs|
  {
    if rs == [] then rules else AddAll(Add(rules, rs[0]), rs[1..])
  }

  function RemoveAll(rules: seq<Rule>, rs: seq<Rule>): seq<Rule>
    decreases |rs|
  {
    if rs == [] then rules else RemoveAll(Remove(rules, rs[0]), rs[1..])
  }

  /** _ban_rules */
  function Ban(rules: seq<Rule>, team: int): seq<Rule> {
    AddAll(rules, BanRules(team))
  }

  /** _unban_rules */
  function Unban(rules: seq<Rule>, team: int): seq<Rule> {
    RemoveAll(rules, BanRules(team))
  }

  /** _allow_rules */
  function Allow(cfg: FirewallConfig, rules: seq<Rule>, team: int): seq<Rule>
    requires cfg.network.Valid()
  {
    Insert(Insert(rules, AllowInward(cfg, team)), AllowOutward(cfg, team))
  }

  /** _disallow_rules */
  function Disallow(cfg: FirewallConfig, rules: seq<Rule>, team: int): seq<Rule>
    requires cfg.network.Valid()
  {
    Remove(Remove(rules, AllowOutward(cfg, team)), AllowInward(cfg, team))
  }

  /** _insert_no_vulnbox_rules, for teams 1 to n */
  function InsertVulnboxes(cfg: FirewallConfig, rules: seq<Rule>, n: nat): seq<Rule>
    requires cfg.network.Valid()
  {
    if n == 0 then rules
    else Insert(Insert(InsertVulnboxes(cfg, rules, n - 1), RejectFrom(cfg, n)), RejectTo(cfg, n))
  }

  lemma VulnboxesMore(cfg: FirewallConfig, rules: seq<Rule>, n: nat)
    requires cfg.network.Valid()
    ensures InsertVulnboxes(cfg, rules, n + 1) ==
            Insert(Insert(InsertVulnboxes(cfg, rules, n), RejectFrom(cfg, n + 1)), RejectTo(cfg, n + 1))
  {
  }

  /** One more team than the largest id in the database is covered. */
  function VulnboxCount(maxId: int): nat {
    if maxId + 1 < 0 then 0 else maxId + 1
  }

  /** The first half of rewrite_chain: flush, then the rules of the state. */
  function Base(cfg: FirewallConfig, state: string, maxId: int): seq<Rule>
    requires cfg.network.Valid()
  {
    if state == "on" then []
    else if state == "team" then Add(Add([], RULE_NETTEAMONLY), RULE_NETCLOSED)
    else if state == "team-no-vulnbox" then
      InsertVulnboxes(cfg, Insert(Add([], RULE_NETCLOSED), RULE_NETTEAMONLY), VulnboxCount(maxId))
    else Add([], RULE_NETCLOSED)
  }

  function BanEach(rules: seq<Rule>, teams: seq<int>): seq<Rule> {
    if teams == [] then rules
    else Ban(BanEach(rules, teams[..|teams| - 1]), teams[|teams| - 1])
  }

  function AllowEach(cfg: FirewallConfig, rules: seq<Rule>, teams: seq<int>): seq<Rule>
    requires cfg.network.Valid()
  {
    if teams == [] then rules
    else Allow(cfg, AllowEach(cfg, rules, teams[..|teams| - 1]), teams[|teams| - 1])
  }

  /** rewrite_chain, given the orders in which Python happens to iterate the two sets. */
  function Rewrite(cfg: FirewallConfig, state: string, maxId: int, bans: seq<int>, allows: seq<int>): seq<Rule>
    requires cfg.network.Valid()
  {
    AllowEach(cfg, BanEach(Base(cfg, state, maxId), bans), allows)
  }

  /** An iteration order of a set. */
  ghost predicate Enumerates(order: seq<int>, teams: set<int>) {
    NoDuplicates(order) && forall t :: t in order <==> t in teams
  }

  // ----- the shape of a chain -----

  function AllowBlock(cfg: FirewallConfig, team: int): seq<Rule>
    requires cfg.network.Valid()
  {
    var outward, inward := AllowOutward(cfg, team), AllowInward(cfg, team);
    if outward == inward then [inward] else [outward, inward]
  }

  /** The team allowed last stands first. */
  function AllowPart(cfg: FirewallConfig, teams: seq<int>): seq<Rule>
    requires cfg.network.Valid()
  {
    if teams == [] then []
    else AllowBlock(cfg, teams[|teams| - 1]) + AllowPart(cfg, teams[..|teams| - 1])
  }

  /** The team banned last stands last. */
  function BanPart(teams: seq<int>): seq<Rule> {
    if teams == [] then []
    else BanPart(teams[..|teams| - 1]) + BanRules(teams[|teams| - 1])
  }

  function Layout(cfg: FirewallConfig, base: seq<Rule>, bans: seq<int>, allows: seq<int>): seq<Rule>
    requires cfg.network.Valid()
  {
    AllowPart(cfg, allows) + base + BanPart(bans)
  }

  /** Allow rules of exactly the allowed teams, then the rules of the state, then ban rules of exactly
      the banned teams. */
  ghost predicate Shaped(cfg: FirewallConfig, rules: seq<Rule>, state: string, maxId: int,
                         banned: set<int>, allowed: set<int>)
    requires cfg.network.Valid()
  {
    exists bans, allows ::
      Enumerates(bans, banned) && Enumerates(allows, allowed) && rules == Layout(cfg, Base(cfg, state, maxId), bans, allows)
  }

  // ----- whose rule is it? -----

  datatype Owner = TheState | BanOf(team: int) | AllowanceOf(team: int)

  function OwnerOf(r: Rule): Owner {
    match r.comment
    case BanIncoming(t) => BanOf(t)
    case BanOutgoing(t) => BanOf(t)
    case OpenNetworkFor(t) => AllowanceOf(t)
    case _ => TheState
  }

  lemma {:induction false} BanPartOwners(teams: seq<int>)
    ensures forall r | r in BanPart(teams) :: OwnerOf(r).BanOf? && OwnerOf(r).team in teams && r in BanRules(OwnerOf(r).team)
    ensures forall t, r | t in teams && r in BanRules(t) :: r in BanPart(teams)
  {
    if teams != [] {
      BanPartOwners(teams[..|teams| - 1]);
      assert teams == teams[..|teams| - 1] + [teams[|teams| - 1]];
    }
  }

  lemma {:induction false} AllowPartOwners(cfg: FirewallConfig, teams: seq<int>)
    requires cfg.network.Valid()
    ensures forall r | r in AllowPart(cfg, teams) ::
              OwnerOf(r).AllowanceOf? && OwnerOf(r).team in teams && r in AllowBlock(cfg, OwnerOf(r).team)
    ensures forall t, r | t in teams && r in AllowBlock(cfg, t) :: r in AllowPart(cfg, teams)
  {
    if teams != [] {
      AllowPartOwners(cfg, teams[..|teams| - 1]);
      assert teams == teams[..|teams| - 1] + [teams[|teams| - 1]];
    }
  }

  lemma InsertInFront(block: seq<Rule>, rules: seq<Rule>, r: Rule)
    requires r !in rules
    ensures Insert(block + rules, r) == Insert(block, r) + rules
  {
    assert [r] + (block + rules) == ([r] + block) + rules;
  }

  /** The vulnbox rules form a block in front of whatever was there. */
  lemma {:induction false} VulnboxBlock(cfg: FirewallConfig, rules: seq<Rule>, n: nat)
    requires cfg.network.Valid()
    requires forall r | r in rules :: r.comment != NoComment
    ensures InsertVulnboxes(cfg, rules, n) == InsertVulnboxes(cfg, [], n) + rules
  {
    if n == 0 {
      assert [] + rules == rules;
    } else {
      VulnboxBlock(cfg, rules, n - 1);
      var block := InsertVulnboxes(cfg, [], n - 1);
      InsertInFront(block, rules, RejectFrom(cfg, n));
      InsertInFront(Insert(block, RejectFrom(cfg, n)), rules, RejectTo(cfg, n));
    }
  }

  lemma InsertMembers(rules: seq<Rule>, r: Rule)
    ensures forall x :: x in Insert(rules, r) <==> x in rules || x == r
  {
  }

  lemma InsertDistinct(rules: seq<Rule>, r: Rule)
    requires NoDuplicates(rules)
    ensures NoDuplicates(Insert(rules, r))
  {
  }

  /** The block rejects exactly the vulnboxes of teams 1 to n. */
  lemma {:induction false} VulnboxMembers(cfg: FirewallConfig, n: nat)
    requires cfg.network.Valid()
    ensures forall r :: r in InsertVulnboxes(cfg, [], n) <==> IsVulnboxRule(cfg, n, r)
  {
    if n > 0 {
      VulnboxMembers(cfg, n - 1);
      OneVulnboxMore(cfg, n);
      InsertTwo(InsertVulnboxes(cfg, [], n - 1), RejectFrom(cfg, n), RejectTo(cfg, n));
    }
  }

  lemma {:induction false} VulnboxDistinct(cfg: FirewallConfig, n: nat)
    requires cfg.network.Valid()
    ensures NoDuplicates(InsertVulnboxes(cfg, [], n))
  {
    if n > 0 {
      VulnboxDistinct(cfg, n - 1);
      InsertTwoDistinct(InsertVulnboxes(cfg, [], n - 1), RejectFrom(cfg, n), RejectTo(cfg, n));
    }
  }

  lemma InsertTwoDistinct(rules: seq<Rule>, r: Rule, r': Rule)
    requires NoDuplicates(rules)
    ensures NoDuplicates(Insert(Insert(rules, r), r'))
  {
    InsertDistinct(rules, r);
    InsertDistinct(Insert(rules, r), r');
  }

  lemma InsertTwo(rules: seq<Rule>, r: Rule, r': Rule)
    ensures forall x :: x in Insert(Insert(rules, r), r') <==> x in rules || x == r || x == r'
  {
    InsertMembers(rules, r);
    InsertMembers(Insert(rules, r), r');
  }

  lemma OneVulnboxMore(cfg: FirewallConfig, n: nat)
    requires cfg.network.Valid() && 0 < n
    ensures forall r :: IsVulnboxRule(cfg, n, r) <==>
                        IsVulnboxRule(cfg, n - 1, r) || r == RejectFrom(cfg, n) || r == RejectTo(cfg, n)
  {
  }

  ghost predicate IsVulnboxRule(cfg: FirewallConfig, n: nat, r: Rule)
    requires cfg.network.Valid()
  {
    exists i | 1 <= i <= n :: r == RejectFrom(cfg, i) || r == RejectTo(cfg, i)
  }

  /** The rules that belong to no team. */
  ghost predicate OfTheState(base: seq<Rule>) {
    forall r | r in base :: OwnerOf(r) == TheState
  }

  lemma BaseVulnbox(cfg: FirewallConfig, maxId: int)
    requires cfg.network.Valid()
    ensures Base(cfg, "team-no-vulnbox", maxId) ==
            InsertVulnboxes(cfg, [], VulnboxCount(maxId)) + [RULE_NETTEAMONLY, RULE_NETCLOSED]
  {
    VulnboxBlock(cfg, [RULE_NETTEAMONLY, RULE_NETCLOSED], VulnboxCount(maxId));
    assert Insert(Add([], RULE_NETCLOSED), RULE_NETTEAMONLY) == [RULE_NETTEAMONLY, RULE_NETCLOSED];
  }

  lemma BaseOwners(cfg: FirewallConfig, state: string, maxId: int)
    requires cfg.network.Valid()
    ensures OfTheState(Base(cfg, state, maxId)) && NoDuplicates(Base(cfg, state, maxId))
  {
    if state == "team-no-vulnbox" {
      BaseVulnbox(cfg, maxId);
      VulnboxMembers(cfg, VulnboxCount(maxId));
      VulnboxDistinct(cfg, VulnboxCount(maxId));
      DistinctConcat(InsertVulnboxes(cfg, [], VulnboxCount(maxId)), [RULE_NETTEAMONLY, RULE_NETCLOSED]);
    }
  }

  lemma DistinctConcat(rules: seq<Rule>, more: seq<Rule>)
    requires NoDuplicates(rules) && NoDuplicates(more) && forall r | r in rules :: r !in more
    ensures NoDuplicates(rules + more)
  {
    assert forall i | 0 <= i < |rules| :: (rules + more)[i] == rules[i] && rules[i] !in more;
    assert forall j | |rules| <= j < |rules + more| :: (rules + more)[j] == more[j - |rules|];
  }

  lemma LayoutOwners(cfg: FirewallConfig, base: seq<Rule>, bans: seq<int>, allows: seq<int>)
    requires cfg.network.Valid() && OfTheState(base)
    ensures forall t, r | r in BanRules(t) :: r in Layout(cfg, base, bans, allows) <==> t in bans
    ensures forall t, r | r in AllowBlock(cfg, t) :: r in Layout(cfg, base, bans, allows) <==> t in allows
  {
    BanPartOwners(bans);
    AllowPartOwners(cfg, allows);
  }

  // ----- each operation keeps the shape -----

  lemma {:induction false} AddAllNew(rules: seq<Rule>, rs: seq<Rule>)
    requires NoDuplicates(rs) && forall r | r in rs :: r !in rules
    ensures AddAll(rules, rs) == rules + rs
    decreases |rs|
  {
    if rs == [] {
      assert rules + rs == rules;
    } else {
      AddAllNew(rules + [rs[0]], rs[1..]);
      assert rules + [rs[0]] + rs[1..] == rules + rs;
    }
  }

  lemma {:induction false} AddAllPresent(rules: seq<Rule>, rs: seq<Rule>)
    requires forall r | r in rs :: r in rules
    ensures AddAll(rules, rs) == rules
  {
    if rs != [] {
      AddAllPresent(rules, rs[1..]);
    }
  }

  lemma BanRulesDistinct(team: int)
    ensures NoDuplicates(BanRules(team))
    ensures forall r | r in BanRules(team) :: OwnerOf(r) == BanOf(team) && r.target == DROP
  {
  }

  function Appended(order: seq<int>, t: int): seq<int> {
    if t in order then order else order + [t]
  }

  lemma BanKeepsLayout(cfg: FirewallConfig, base: seq<Rule>, bans: seq<int>, allows: seq<int>, t: int)
    requires cfg.network.Valid() && OfTheState(base)
    ensures Ban(Layout(cfg, base, bans, allows), t) == Layout(cfg, base, Appended(bans, t), allows)
  {
    var rules := Layout(cfg, base, bans, allows);
    LayoutOwners(cfg, base, bans, allows);
    if t in bans {
      AddAllPresent(rules, BanRules(t));
    } else {
      BanRulesDistinct(t);
      AddAllNew(rules, BanRules(t));
      LayoutOneBanMore(cfg, base, bans, allows, t);
    }
  }

  lemma LayoutOneBanMore(cfg: FirewallConfig, base: seq<Rule>, bans: seq<int>, allows: seq<int>, t: int)
    requires cfg.network.Valid()
    ensures Layout(cfg, base, bans + [t], allows) == Layout(cfg, base, bans, allows) + BanRules(t)
  {
    assert (bans + [t])[..|bans + [t]| - 1] == bans;
    assert BanPart(bans + [t]) == BanPart(bans) + BanRules(t);
  }

  lemma AllowKeepsLayout(cfg: FirewallConfig, base: seq<Rule>, bans: seq<int>, allows: seq<int>, t: int)
    requires cfg.network.Valid() && OfTheState(base)
    ensures Allow(cfg, Layout(cfg, base, bans, allows), t) == Layout(cfg, base, bans, Appended(allows, t))
  {
    LayoutOwners(cfg, base, bans, allows);
    assert AllowInward(cfg, t) in AllowBlock(cfg, t) && AllowOutward(cfg, t) in AllowBlock(cfg, t) by {
      assert AllowBlock(cfg, t)[|AllowBlock(cfg, t)| - 1] == AllowInward(cfg, t);
      assert AllowBlock(cfg, t)[0] == AllowOutward(cfg, t);
    }
    if t !in allows {
      AllowNew(cfg, Layout(cfg, base, bans, allows), t);
      LayoutOneAllowMore(cfg, base, bans, allows, t);
    }
  }

  lemma AllowNew(cfg: FirewallConfig, rules: seq<Rule>, t: int)
    requires cfg.network.Valid() && AllowInward(cfg, t) !in rules && AllowOutward(cfg, t) !in rules
    ensures Allow(cfg, rules, t) == AllowBlock(cfg, t) + rules
  {
  }

  lemma LayoutOneAllowMore(cfg: FirewallConfig, base: seq<Rule>, bans: seq<int>, allows: seq<int>, t: int)
    requires cfg.network.Valid()
    ensures Layout(cfg, base, bans, allows + [t]) == AllowBlock(cfg, t) + Layout(cfg, base, bans, allows)
  {
    assert (allows + [t])[..|allows + [t]| - 1] == allows;
    assert AllowPart(cfg, allows + [t]) == AllowBlock(cfg, t) + AllowPart(cfg, allows);
  }

  // ----- removal -----

  lemma {:induction false} RemoveConcat(rules: seq<Rule>, more: seq<Rule>, r: Rule)
    ensures Remove(rules + more, r) == Remove(rules, r) + Remove(more, r)
  {
    if rules == [] {
      assert rules + more == more;
    } else {
      assert (rules + more)[1..] == rules[1..] + more;
      RemoveConcat(rules[1..], more, r);
    }
  }

  lemma {:induction false} RemoveAllConcat(rules: seq<Rule>, more: seq<Rule>, rs: seq<Rule>)
    ensures RemoveAll(rules + more, rs) == RemoveAll(rules, rs) + RemoveAll(more, rs)
    decreases |rs|
  {
    if rs != [] {
      RemoveConcat(rules, more, rs[0]);
      RemoveAllConcat(Remove(rules, rs[0]), Remove(more, rs[0]), rs[1..]);
    }
  }

  lemma {:induction false} RemoveAbsent(rules: seq<Rule>, r: Rule)
    requires r !in rules
    ensures Remove(rules, r) == rules
  {
    if rules != [] {
      RemoveAbsent(rules[1..], r);
    }
  }

  lemma {:induction false} RemoveAllAbsent(rules: seq<Rule>, rs: seq<Rule>)
    requires forall r | r in rs :: r !in rules
    ensures RemoveAll(rules, rs) == rules
  {
    if rs != [] {
      RemoveAbsent(rules, rs[0]);
      RemoveAllAbsent(rules, rs[1..]);
    }
  }

  lemma {:induction false} RemoveMembers(rules: seq<Rule>, r: Rule)
    ensures forall x :: x in Remove(rules, r) <==> x in rules && x != r
  {
    if rules != [] {
      RemoveMembers(rules[1..], r);
      assert forall x :: x in rules <==> x == rules[0] || x in rules[1..];
    }
  }

  lemma HasMember(rules: seq<Rule>)
    ensures rules == [] || exists r :: r in rules
  {
    if rules != [] {
      assert rules[0] in rules;
    }
  }

  lemma {:induction false} RemoveAllEverything(rules: seq<Rule>, rs: seq<Rule>)
    requires forall r | r in rules :: r in rs
    ensures RemoveAll(rules, rs) == []
    decreases |rs|
  {
    if rs == [] {
      HasMember(rules);
    } else {
      RemoveMembers(rules, rs[0]);
      RemoveAllEverything(Remove(rules, rs[0]), rs[1..]);
    }
  }

  /** The order without one team. */
  function Without(order: seq<int>, t: int): seq<int> {
    if order == [] then []
    else
      var front := Without(order[..|order| - 1], t);
      var last := order[|order| - 1];
      if last == t then front else front + [last]
  }

  lemma {:induction false} WithoutMembers(order: seq<int>, t: int)
    ensures forall x :: x in Without(order, t) <==> x in order && x != t
  {
    if order != [] {
      var n := |order| - 1;
      WithoutMembers(order[..n], t);
      assert order == order[..n] + [order[n]];
    }
  }

  lemma {:induction false} WithoutDistinct(order: seq<int>, t: int)
    requires NoDuplicates(order)
    ensures NoDuplicates(Without(order, t))
  {
    if order != [] {
      var n := |order| - 1;
      WithoutDistinct(order[..n], t);
      WithoutMembers(order[..n], t);
      assert order[n] !in order[..n];
    }
  }

  lemma WithoutEnumerates(order: seq<int>, teams: set<int>, t: int)
    requires Enumerates(order, teams)
    ensures Enumerates(Without(order, t), teams - {t})
  {
    WithoutMembers(order, t);
    WithoutDistinct(order, t);
  }

  lemma AppendedEnumerates(order: seq<int>, teams: set<int>, t: int)
    requires Enumerates(order, teams)
    ensures Enumerates(Appended(order, t), teams + {t})
  {
  }

  lemma {:induction false} UnbanPart(teams: seq<int>, t: int)
    ensures Unban(BanPart(teams), t) == BanPart(Without(teams, t))
  {
    if teams == [] {
      RemoveAllAbsent([], BanRules(t));
    } else {
      var front, last := teams[..|teams| - 1], teams[|teams| - 1];
      UnbanPart(front, t);
      RemoveAllConcat(BanPart(front), BanRules(last), BanRules(t));
      if last == t {
        RemoveAllEverything(BanRules(t), BanRules(t));
      } else {
        BanRulesDistinct(t);
        BanRulesDistinct(last);
        RemoveAllAbsent(BanRules(last), BanRules(t));
        assert (Without(front, t) + [last])[..|Without(front, t)|] == Without(front, t);
      }
    }
  }

  lemma UnbanKeepsLayout(cfg: FirewallConfig, base: seq<Rule>, bans: seq<int>, allows: seq<int>, t: int)
    requires cfg.network.Valid() && OfTheState(base)
    ensures Unban(Layout(cfg, base, bans, allows), t) == Layout(cfg, base, Without(bans, t), allows)
  {
    var front := AllowPart(cfg, allows) + base;
    RemoveAllConcat(front, BanPart(bans), BanRules(t));
    AllowPartOwners(cfg, allows);
    BanRulesDistinct(t);
    RemoveAllAbsent(front, BanRules(t));
    UnbanPart(bans, t);
  }

  /** _disallow_rules as the removal of a list. */
  lemma DisallowIsRemoveAll(cfg: FirewallConfig, rules: seq<Rule>, t: int)
    requires cfg.network.Valid()
    ensures Disallow(cfg, rules, t) == RemoveAll(rules, [AllowOutward(cfg, t), AllowInward(cfg, t)])
  {
    var rs := [AllowOutward(cfg, t), AllowInward(cfg, t)];
    assert rs[1..] == [AllowInward(cfg, t)];
    assert RemoveAll(rules, rs) == RemoveAll(Remove(rules, rs[0]), rs[1..]);
    assert rs[1..][1..] == [];
  }

  lemma {:induction false} DisallowPart(cfg: FirewallConfig, teams: seq<int>, t: int)
    requires cfg.network.Valid()
    ensures RemoveAll(AllowPart(cfg, teams), [AllowOutward(cfg, t), AllowInward(cfg, t)]) == AllowPart(cfg, Without(teams, t))
  {
    var rs := [AllowOutward(cfg, t), AllowInward(cfg, t)];
    if teams == [] {
      RemoveAllAbsent([], rs);
    } else {
      var front, last := teams[..|teams| - 1], teams[|teams| - 1];
      DisallowPart(cfg, front, t);
      RemoveAllConcat(AllowBlock(cfg, last), AllowPart(cfg, front), rs);
      if last == t {
        RemoveAllEverything(AllowBlock(cfg, t), rs);
      } else {
        RemoveAllAbsent(AllowBlock(cfg, last), rs);
        assert (Without(front, t) + [last])[..|Without(front, t)|] == Without(front, t);
      }
    }
  }

  lemma DisallowKeepsLayout(cfg: FirewallConfig, base: seq<Rule>, bans: seq<int>, allows: seq<int>, t: int)
    requires cfg.network.Valid() && OfTheState(base)
    ensures Disallow(cfg, Layout(cfg, base, bans, allows), t) == Layout(cfg, base, bans, Without(allows, t))
  {
    var rs := [AllowOutward(cfg, t), AllowInward(cfg, t)];
    var rest := base + BanPart(bans);
    DisallowIsRemoveAll(cfg, Layout(cfg, base, bans, allows), t);
    LayoutSplit(cfg, base, bans, allows);
    LayoutSplit(cfg, base, bans, Without(allows, t));
    RemoveAllConcat(AllowPart(cfg, allows), rest, rs);
    RestNotAllowRules(cfg, base, bans, t);
    RemoveAllAbsent(rest, rs);
    DisallowPart(cfg, allows, t);
  }

  lemma LayoutSplit(cfg: FirewallConfig, base: seq<Rule>, bans: seq<int>, allows: seq<int>)
    requires cfg.network.Valid()
    ensures Layout(cfg, base, bans, allows) == AllowPart(cfg, allows) + (base + BanPart(bans))
  {
  }

  lemma RestNotAllowRules(cfg: FirewallConfig, base: seq<Rule>, bans: seq<int>, t: int)
    requires cfg.network.Valid() && OfTheState(base)
    ensures AllowOutward(cfg, t) !in base + BanPart(bans) && AllowInward(cfg, t) !in base + BanPart(bans)
  {
    BanPartOwners(bans);
  }

  // ----- rebuilding -----

  lemma AppendedLast(order: seq<int>)
    requires order != [] && NoDuplicates(order)
    ensures NoDuplicates(order[..|order| - 1])
    ensures Appended(order[..|order| - 1], order[|order| - 1]) == order
  {
  }

  lemma {:induction false} BanEachLayout(cfg: FirewallConfig, base: seq<Rule>, bans: seq<int>)
    requires cfg.network.Valid() && OfTheState(base) && NoDuplicates(bans)
    ensures BanEach(base, bans) == Layout(cfg, base, bans, [])
  {
    if bans == [] {
      assert Layout(cfg, base, bans, []) == base;
    } else {
      var n := |bans| - 1;
      BanEachLayout(cfg, base, bans[..n]);
      BanKeepsLayout(cfg, base, bans[..n], [], bans[n]);
      AppendedLast(bans);
    }
  }

  lemma {:induction false} AllowEachLayout(cfg: FirewallConfig, base: seq<Rule>, bans: seq<int>, allows: seq<int>)
    requires cfg.network.Valid() && OfTheState(base) && NoDuplicates(allows)
    ensures AllowEach(cfg, Layout(cfg, base, bans, []), allows) == Layout(cfg, base, bans, allows)
  {
    if allows != [] {
      var n := |allows| - 1;
      AllowEachLayout(cfg, base, bans, allows[..n]);
      AllowKeepsLayout(cfg, base, bans, allows[..n], allows[n]);
      AppendedLast(allows);
    }
  }

  /** Whatever the iteration orders, a rebuilt chain has the shape. */
  lemma RewriteShaped(cfg: FirewallConfig, state: string, maxId: int, bans: seq<int>, allows: seq<int>,
                      banned: set<int>, allowed: set<int>)
    requires cfg.network.Valid() && Enumerates(bans, banned) && Enumerates(allows, allowed)
    ensures Shaped(cfg, Rewrite(cfg, state, maxId, bans, allows), state, maxId, banned, allowed)
  {
    var base := Base(cfg, state, maxId);
    BaseOwners(cfg, state, maxId);
    BanEachLayout(cfg, base, bans);
    AllowEachLayout(cfg, base, bans, allows);
  }

  // ----- each operation, from shape to shape -----

  lemma BanKeepsShape(cfg: FirewallConfig, rules: seq<Rule>, state: string, maxId: int,
                      banned: set<int>, allowed: set<int>, t: int)
    requires cfg.network.Valid() && Shaped(cfg, rules, state, maxId, banned, allowed)
    ensures Shaped(cfg, Ban(rules, t), state, maxId, banned + {t}, allowed)
  {
    var bans, allows := ShapeOrders(cfg, rules, state, maxId, banned, allowed);
    BaseOwners(cfg, state, maxId);
    BanKeepsLayout(cfg, Base(cfg, state, maxId), bans, allows, t);
    AppendedEnumerates(bans, banned, t);
  }

  lemma UnbanKeepsShape(cfg: FirewallConfig, rules: seq<Rule>, state: string, maxId: int,
                        banned: set<int>, allowed: set<int>, t: int)
    requires cfg.network.Valid() && Shaped(cfg, rules, state, maxId, banned, allowed)
    ensures Shaped(cfg, Unban(rules, t), state, maxId, banned - {t}, allowed)
  {
    var bans, allows := ShapeOrders(cfg, rules, state, maxId, banned, allowed);
    BaseOwners(cfg, state, maxId);
    UnbanKeepsLayout(cfg, Base(cfg, state, maxId), bans, allows, t);
    WithoutEnumerates(bans, banned, t);
  }

  lemma AllowKeepsShape(cfg: FirewallConfig, rules: seq<Rule>, state: string, maxId: int,
                        banned: set<int>, allowed: set<int>, t: int)
    requires cfg.network.Valid() && Shaped(cfg, rules, state, maxId, banned, allowed)
    ensures Shaped(cfg, Allow(cfg, rules, t), state, maxId, banned, allowed + {t})
  {
    var bans, allows := ShapeOrders(cfg, rules, state, maxId, banned, allowed);
    BaseOwners(cfg, state, maxId);
    AllowKeepsLayout(cfg, Base(cfg, state, maxId), bans, allows, t);
    AppendedEnumerates(allows, allowed, t);
  }

  lemma DisallowKeepsShape(cfg: FirewallConfig, rules: seq<Rule>, state: string, maxId: int,
                           banned: set<int>, allowed: set<int>, t: int)
    requires cfg.network.Valid() && Shaped(cfg, rules, state, maxId, banned, allowed)
    ensures Shaped(cfg, Disallow(cfg, rules, t), state, maxId, banned, allowed - {t})
  {
    var bans, allows := ShapeOrders(cfg, rules, state, maxId, banned, allowed);
    BaseOwners(cfg, state, maxId);
    DisallowKeepsLayout(cfg, Base(cfg, state, maxId), bans, allows, t);
    WithoutEnumerates(allows, allowed, t);
  }

  lemma ShapeOrders(cfg: FirewallConfig, rules: seq<Rule>, state: string, maxId: int, banned: set<int>, allowed: set<int>)
    returns (bans: seq<int>, allows: seq<int>)
    requires cfg.network.Valid() && Shaped(cfg, rules, state, maxId, banned, allowed)
    ensures Enumerates(bans, banned) && Enumerates(allows, allowed)
    ensures rules == Layout(cfg, Base(cfg, state, maxId), bans, allows)
  {
    bans, allows :|
      Enumerates(bans, banned) && Enumerates(allows, allowed) && rules == Layout(cfg, Base(cfg, state, maxId), bans, allows);
  }
}
