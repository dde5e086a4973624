/** What chains of the kept shape decide about packets. */
module FirewallVerdicts {
  import opened Wrappers
  import opened FirewallRules
  import opened FirewallModel

  /** Traffic between the team and the game servers, either way. */
  predicate TeamToGameserver(cfg: FirewallConfig, team: int, p: Packet)
    requires cfg.network.Valid()
  {
    var net := cfg.network.TeamIdToNetworkRange(team);
    || (InNet(p.src, net) && InNet(p.dst, cfg.gameserver))
    || (InNet(p.src, cfg.gameserver) && InNet(p.dst, net))
  }

  /** The packet enters or leaves by one of the three interfaces of the team. */
  predicate UsesInterfaceOf(team: int, p: Packet) {
    var tuns := {Tun(team), Tun(1000 + team), Tun(2000 + team)};
    p.incoming in tuns || p.outgoing in tuns
  }

  ghost predicate Permitted(cfg: FirewallConfig, allowed: set<int>, p: Packet)
    requires cfg.network.Valid()
  {
    exists t | t in allowed :: TeamToGameserver(cfg, t, p)
  }

  ghost predicate OnBannedInterface(banned: set<int>, p: Packet) {
    exists t | t in banned :: UsesInterfaceOf(t, p)
  }

  /** The address is that of the team's vulnbox, octet by octet. */
  predicate IsVulnbox(cfg: FirewallConfig, team: int, ip: seq<int>)
    requires cfg.network.Valid()
  {
    |ip| == 4 && forall i | 0 <= i < 4 :: ip[i] == cfg.network.vulnboxIp[i].Octet(team)
  }

  predicate VulnboxOf(cfg: FirewallConfig, team: int, p: Packet)
    requires cfg.network.Valid()
  {
    IsVulnbox(cfg, team, p.src) || IsVulnbox(cfg, team, p.dst)
  }

  lemma VulnboxAddress(cfg: FirewallConfig, team: int, ip: seq<int>)
    requires cfg.network.Valid()
    ensures IsVulnbox(cfg, team, ip) <==> ip == cfg.network.TeamIdToVulnboxIp(team)
  {
  }

  ghost predicate TouchesVulnbox(cfg: FirewallConfig, maxId: int, p: Packet)
    requires cfg.network.Valid()
  {
    exists i | 1 <= i <= maxId + 1 :: VulnboxOf(cfg, i, p)
  }

  predicate HasTeamMark(p: Packet) {
    p.mark & 0x0c00 == 0x0800
  }

  /** The policy: what the firewall is for, without any chain. */
  ghost function Policy(cfg: FirewallConfig, state: string, maxId: int, banned: set<int>, allowed: set<int>, p: Packet): Target
    requires cfg.network.Valid()
  {
    if Permitted(cfg, allowed, p) then RETURN
    else if state == "on" then (if OnBannedInterface(banned, p) then DROP else RETURN)
    else if state == "team" then (if HasTeamMark(p) then RETURN else REJECT)
    else if state == "team-no-vulnbox" then
      (if TouchesVulnbox(cfg, maxId, p) || !HasTeamMark(p) then REJECT else RETURN)
    else REJECT
  }

  lemma BanRulesMatch(t: int, p: Packet)
    ensures (exists r | r in BanRules(t) :: Matches(r.match_, p)) <==> UsesInterfaceOf(t, p)
  {
    var rs := BanRules(t);
    assert rs[0] in rs && rs[1] in rs && rs[2] in rs && rs[3] in rs && rs[4] in rs && rs[5] in rs;
  }

  lemma BanPartVerdict(bans: seq<int>, banned: set<int>, p: Packet)
    requires Enumerates(bans, banned)
    ensures FirstMatch(BanPart(bans), p) == if OnBannedInterface(banned, p) then Some(DROP) else None
  {
    BanPartOwners(bans);
    forall r | r in BanPart(bans)
      ensures r.target == DROP && (Matches(r.match_, p) ==> OnBannedInterface(banned, p))
    {
      var t := OwnerOf(r).team;
      BanRulesDistinct(t);
      BanRulesMatch(t, p);
    }
    if OnBannedInterface(banned, p) {
      var t :| t in banned && UsesInterfaceOf(t, p);
      BanRulesMatch(t, p);
      var r :| r in BanRules(t) && Matches(r.match_, p);
      assert r in BanPart(bans);
    }
    FirstMatchUniform(BanPart(bans), DROP, p);
  }

  lemma AllowBlockMatch(cfg: FirewallConfig, t: int, p: Packet)
    requires cfg.network.Valid()
    ensures forall r | r in AllowBlock(cfg, t) :: r.target == RETURN
    ensures (exists r | r in AllowBlock(cfg, t) :: Matches(r.match_, p)) <==> TeamToGameserver(cfg, t, p)
  {
    var block := AllowBlock(cfg, t);
    assert block[0] == AllowOutward(cfg, t) && block[|block| - 1] == AllowInward(cfg, t);
    assert block[0] in block && block[|block| - 1] in block;
  }

  lemma AllowPartVerdict(cfg: FirewallConfig, allows: seq<int>, allowed: set<int>, p: Packet)
    requires cfg.network.Valid() && Enumerates(allows, allowed)
    ensures FirstMatch(AllowPart(cfg, allows), p) == if Permitted(cfg, allowed, p) then Some(RETURN) else None
  {
    AllowPartOwners(cfg, allows);
    forall r | r in AllowPart(cfg, allows)
      ensures r.target == RETURN && (Matches(r.match_, p) ==> Permitted(cfg, allowed, p))
    {
      AllowBlockMatch(cfg, OwnerOf(r).team, p);
    }
    if Permitted(cfg, allowed, p) {
      var t :| t in allowed && TeamToGameserver(cfg, t, p);
      AllowBlockMatch(cfg, t, p);
      var r :| r in AllowBlock(cfg, t) && Matches(r.match_, p);
      assert r in AllowPart(cfg, allows);
    }
    FirstMatchUniform(AllowPart(cfg, allows), RETURN, p);
  }

  lemma VulnboxVerdict(cfg: FirewallConfig, maxId: int, p: Packet)
    requires cfg.network.Valid()
    ensures FirstMatch(InsertVulnboxes(cfg, [], VulnboxCount(maxId)), p)
            == if TouchesVulnbox(cfg, maxId, p) then Some(REJECT) else None
  {
    var n := VulnboxCount(maxId);
    var block := InsertVulnboxes(cfg, [], n);
    VulnboxMembers(cfg, n);
    forall r | r in block
      ensures r.target == REJECT && (Matches(r.match_, p) ==> TouchesVulnbox(cfg, maxId, p))
    {
      var i :| 1 <= i <= n && (r == RejectFrom(cfg, i) || r == RejectTo(cfg, i));
      VulnboxAddress(cfg, i, p.src);
      VulnboxAddress(cfg, i, p.dst);
      if Matches(r.match_, p) {
        assert VulnboxOf(cfg, i, p);
      }
    }
    if TouchesVulnbox(cfg, maxId, p) {
      var i :| 1 <= i <= maxId + 1 && VulnboxOf(cfg, i, p);
      VulnboxAddress(cfg, i, p.src);
      VulnboxAddress(cfg, i, p.dst);
      assert IsVulnboxRule(cfg, n, RejectFrom(cfg, i)) && IsVulnboxRule(cfg, n, RejectTo(cfg, i));
      assert Matches(RejectFrom(cfg, i).match_, p) || Matches(RejectTo(cfg, i).match_, p);
    }
    FirstMatchUniform(block, REJECT, p);
  }

  /** What the state rules decide; only state "on" leaves packets to the ban rules. */
  lemma BaseVerdict(cfg: FirewallConfig, state: string, maxId: int, p: Packet)
    requires cfg.network.Valid()
    ensures FirstMatch(Base(cfg, state, maxId), p) ==
            if state == "on" then None else Some(Policy(cfg, state, maxId, {}, {}, p))
  {
    if state == "team-no-vulnbox" {
      BaseVulnbox(cfg, maxId);
      VulnboxVerdict(cfg, maxId, p);
      var two := [RULE_NETTEAMONLY, RULE_NETCLOSED];
      FirstMatchConcat(InsertVulnboxes(cfg, [], VulnboxCount(maxId)), two, p);
      assert two[1..] == [RULE_NETCLOSED];
    } else if state == "team" {
      assert Base(cfg, state, maxId) == [RULE_NETTEAMONLY, RULE_NETCLOSED];
      assert Base(cfg, state, maxId)[1..] == [RULE_NETCLOSED];
    }
  }

  /** Closed form: a chain of the shape decides every packet by the policy. */
  lemma ShapedVerdict(cfg: FirewallConfig, rules: seq<Rule>, state: string, maxId: int,
                      banned: set<int>, allowed: set<int>, p: Packet)
    requires cfg.network.Valid() && Shaped(cfg, rules, state, maxId, banned, allowed)
    ensures Verdict(rules, p) == Policy(cfg, state, maxId, banned, allowed, p)
  {
    var bans, allows :|
      Enumerates(bans, banned) && Enumerates(allows, allowed) && rules == Layout(cfg, Base(cfg, state, maxId), bans, allows);
    var base := Base(cfg, state, maxId);
    FirstMatchConcat(AllowPart(cfg, allows) + base, BanPart(bans), p);
    FirstMatchConcat(AllowPart(cfg, allows), base, p);
    AllowPartVerdict(cfg, allows, allowed, p);
    BaseVerdict(cfg, state, maxId, p);
    BanPartVerdict(bans, banned, p);
  }

  /** In state "team-no-vulnbox" a packet that no allowance covers is rejected if all four octets of its
      source or of its destination are those of the vulnbox of a team up to one above the largest id. */
  lemma VulnboxesRejected(cfg: FirewallConfig, rules: seq<Rule>, maxId: int, banned: set<int>, allowed: set<int>,
                          p: Packet, team: int, ip: seq<int>)
    requires cfg.network.Valid() && Shaped(cfg, rules, "team-no-vulnbox", maxId, banned, allowed)
    requires 1 <= team <= maxId + 1 && |ip| == 4 && (ip == p.src || ip == p.dst)
    requires forall i | 0 <= i < 4 :: ip[i] == cfg.network.vulnboxIp[i].Octet(team)
    requires !Permitted(cfg, allowed, p)
    ensures Verdict(rules, p) == REJECT
  {
    ShapedVerdict(cfg, rules, "team-no-vulnbox", maxId, banned, allowed, p);
    assert VulnboxOf(cfg, team, p);
  }

  /** Outside state "on" the banned set makes no difference to any packet. */
  lemma BansMatterOnlyWhenOn(cfg: FirewallConfig, rules: seq<Rule>, rules': seq<Rule>, state: string, maxId: int,
                             banned: set<int>, banned': set<int>, allowed: set<int>, p: Packet)
    requires cfg.network.Valid() && state != "on"
    requires Shaped(cfg, rules, state, maxId, banned, allowed)
    requires Shaped(cfg, rules', state, maxId, banned', allowed)
    ensures Verdict(rules, p) == Verdict(rules', p)
  {
    ShapedVerdict(cfg, rules, state, maxId, banned, allowed, p);
    ShapedVerdict(cfg, rules', state, maxId, banned', allowed, p);
  }

  // ----- structure of shaped chains -----

  lemma {:induction false} BanPartDistinct(bans: seq<int>)
    requires NoDuplicates(bans)
    ensures NoDuplicates(BanPart(bans))
  {
    if bans != [] {
      var front, last := bans[..|bans| - 1], bans[|bans| - 1];
      BanPartDistinct(front);
      BanPartOwners(front);
      BanRulesDistinct(last);
      assert last !in front;
      DistinctConcat(BanPart(front), BanRules(last));
    }
  }

  lemma {:induction false} AllowPartDistinct(cfg: FirewallConfig, allows: seq<int>)
    requires cfg.network.Valid() && NoDuplicates(allows)
    ensures NoDuplicates(AllowPart(cfg, allows))
  {
    if allows != [] {
      var front, last := allows[..|allows| - 1], allows[|allows| - 1];
      AllowPartDistinct(cfg, front);
      AllowPartOwners(cfg, front);
      assert last !in front;
      DistinctConcat(AllowBlock(cfg, last), AllowPart(cfg, front));
    }
  }

  /** A chain of the shape holds no rule twice, and holds the rules of exactly the banned and the
      allowed teams. */
  lemma ShapedRules(cfg: FirewallConfig, rules: seq<Rule>, state: string, maxId: int, banned: set<int>, allowed: set<int>)
    requires cfg.network.Valid() && Shaped(cfg, rules, state, maxId, banned, allowed)
    ensures NoDuplicates(rules)
    ensures forall t, r | r in BanRules(t) :: r in rules <==> t in banned
    ensures forall t, r | r in AllowBlock(cfg, t) :: r in rules <==> t in allowed
  {
    var bans, allows :|
      Enumerates(bans, banned) && Enumerates(allows, allowed) && rules == Layout(cfg, Base(cfg, state, maxId), bans, allows);
    var base := Base(cfg, state, maxId);
    BaseOwners(cfg, state, maxId);
    LayoutOwners(cfg, base, bans, allows);
    BanPartDistinct(bans);
    AllowPartDistinct(cfg, allows);
    BanPartOwners(bans);
    AllowPartOwners(cfg, allows);
    DistinctConcat(AllowPart(cfg, allows), base);
    DistinctConcat(AllowPart(cfg, allows) + base, BanPart(bans));
  }

  lemma {:induction false} RemoveAllAppended(rules: seq<Rule>, rs: seq<Rule>)
    requires forall r | r in rs :: r !in rules
    ensures RemoveAll(rules + rs, rs) == rules
  {
    RemoveAllConcat(rules, rs, rs);
    RemoveAllAbsent(rules, rs);
    RemoveAllEverything(rs, rs);
  }

  /** Ban then unban leaves the chain as it was exactly when the team was not banned before. */
  lemma BanUnbanRestores(cfg: FirewallConfig, rules: seq<Rule>, state: string, maxId: int,
                         banned: set<int>, allowed: set<int>, t: int)
    requires cfg.network.Valid() && Shaped(cfg, rules, state, maxId, banned, allowed)
    ensures Unban(Ban(rules, t), t) == rules <==> t !in banned
  {
    ShapedRules(cfg, rules, state, maxId, banned, allowed);
    if t !in banned {
      BanRulesDistinct(t);
      AddAllNew(rules, BanRules(t));
      RemoveAllAppended(rules, BanRules(t));
    } else {
      var r := BanRules(t)[0];
      assert r in BanRules(t) && r in rules;
      RemoveAllMembers(Ban(rules, t), BanRules(t));
    }
  }

  lemma {:induction false} RemoveAllMembers(rules: seq<Rule>, rs: seq<Rule>)
    ensures forall r :: r in RemoveAll(rules, rs) <==> r in rules && r !in rs
    decreases |rs|
  {
    if rs != [] {
      RemoveMembers(rules, rs[0]);
      RemoveAllMembers(Remove(rules, rs[0]), rs[1..]);
    }
  }

  /** Allow then disallow leaves the chain as it was exactly when the team was not allowed before. */
  lemma AllowDisallowRestores(cfg: FirewallConfig, rules: seq<Rule>, state: string, maxId: int,
                              banned: set<int>, allowed: set<int>, t: int)
    requires cfg.network.Valid() && Shaped(cfg, rules, state, maxId, banned, allowed)
    ensures Disallow(cfg, Allow(cfg, rules, t), t) == rules <==> t !in allowed
  {
    var rs := [AllowOutward(cfg, t), AllowInward(cfg, t)];
    ShapedRules(cfg, rules, state, maxId, banned, allowed);
    AllowBlockEnds(cfg, t);
    DisallowIsRemoveAll(cfg, Allow(cfg, rules, t), t);
    if t !in allowed {
      assert Allow(cfg, rules, t) == AllowBlock(cfg, t) + rules;
      RemoveAllConcat(AllowBlock(cfg, t), rules, rs);
      RemoveAllEverything(AllowBlock(cfg, t), rs);
      RemoveAllAbsent(rules, rs);
    } else {
      RemoveAllMembers(Allow(cfg, rules, t), rs);
      assert rs[0] in rs && rs[0] in rules;
    }
  }

  lemma AllowBlockEnds(cfg: FirewallConfig, t: int)
    requires cfg.network.Valid()
    ensures AllowOutward(cfg, t) in AllowBlock(cfg, t) && AllowInward(cfg, t) in AllowBlock(cfg, t)
  {
    var block := AllowBlock(cfg, t);
    assert block[0] == AllowOutward(cfg, t) && block[|block| - 1] == AllowInward(cfg, t);
  }
}
