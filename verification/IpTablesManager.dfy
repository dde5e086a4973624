/** The manager object: it keeps the state and the two team sets, and edits the kernel chain. */
module IpTables {
  import opened FirewallRules
  import opened FirewallModel

  /** One element of a rule list handled, the rest still to do. */
  lemma AddAllStep(rules: seq<Rule>, rs: seq<Rule>, k: nat)
    requires k < |rs|
    ensures AddAll(rules, rs[k..]) == AddAll(Add(rules, rs[k]), rs[k + 1..])
    ensures k + 1 == |rs| ==> AddAll(rules, rs[k..]) == Add(rules, rs[k])
  {
    assert rs[k..][1..] == rs[k + 1..];
  }

  lemma RemoveAllStep(rules: seq<Rule>, rs: seq<Rule>, k: nat)
    requires k < |rs|
    ensures RemoveAll(rules, rs[k..]) == RemoveAll(Remove(rules, rs[k]), rs[k + 1..])
    ensures k + 1 == |rs| ==> RemoveAll(rules, rs[k..]) == Remove(rules, rs[k])
  {
    assert rs[k..][1..] == rs[k + 1..];
  }

  lemma SomeTeamLeft(rest: set<int>)
    ensures rest == {} || exists t :: t in rest
  {
    if forall t :: t !in rest {
      assert rest == {};
    }
  }

  /** The largest team id when the base rules were last written. */
  function MaxIdAfter(maxId: int, items: seq<(Message, int)>): int
    decreases |items|
  {
    if items == [] then maxId else MaxIdAfter(if items[0].0.SetState? then items[0].1 else maxId, items[1..])
  }

  function Messages(items: seq<(Message, int)>): seq<Message> {
    seq(|items|, i requires 0 <= i < |items| => items[i].0)
  }

  /** n comes with the last state message, or there is none and n is the id from before. */
  ghost predicate LastId(items: seq<(Message, int)>, before: int, n: int) {
    || (n == before && forall i | 0 <= i < |items| :: !items[i].0.SetState?)
    || exists i | 0 <= i < |items| ::
         items[i].0.SetState? && items[i].1 == n && forall j | i < j < |items| :: !items[j].0.SetState?
  }

  lemma {:induction false} MaxIdMeaning(maxId: int, items: seq<(Message, int)>)
    ensures LastId(items, maxId, MaxIdAfter(maxId, items))
    decreases |items|
  {
    if items != [] {
      var rest := items[1..];
      var n := MaxIdAfter(maxId, items);
      MaxIdMeaning(if items[0].0.SetState? then items[0].1 else maxId, rest);
      assert forall i | 0 < i < |items| :: items[i] == rest[i - 1];
      if i :| 0 <= i < |rest| && rest[i].0.SetState? && rest[i].1 == n && forall j | i < j < |rest| :: !rest[j].0.SetState? {
        assert items[i + 1].0.SetState? && items[i + 1].1 == n && forall j | i + 1 < j < |items| :: !items[j].0.SetState?;
      }
    }
  }

  /** One item of the list handled, the rest still to do. */
  lemma ItemsStep(f: ManagerFields, maxId: int, items: seq<(Message, int)>, k: nat)
    requires k < |items|
    ensures HandledAll(f, Messages(items[k..])) == HandledAll(Handled(f, items[k].0), Messages(items[k + 1..]))
    ensures MaxIdAfter(maxId, items[k..]) ==
            MaxIdAfter(if items[k].0.SetState? then items[k].1 else maxId, items[k + 1..])
  {
    assert items[k..][1..] == items[k + 1..];
    assert Messages(items[k..])[1..] == Messages(items[k + 1..]);
  }

  class IpTablesManager {
    const cfg: FirewallConfig
    const chain: Chain
    var state: string
    var banned: set<int>
    var allowed: set<int>

    ghost function Fields(): ManagerFields
      reads this
    {
      ManagerFields(state, banned, allowed)
    }

    constructor (cfg: FirewallConfig, chain: Chain)
      ensures this.cfg == cfg && this.chain == chain
      ensures state == "off" && banned == {} && allowed == {}
    {
      this.cfg, this.chain := cfg, chain;
      state, banned, allowed := "off", {}, {};
    }

    /** maxId is the largest team id in the database when the rules are written. */
    method InitFirewall(state: string, banned: set<int>, allowed: set<int>, maxId: int)
      returns (ghost bans: seq<int>, ghost allows: seq<int>)
      requires cfg.network.Valid()
      modifies this, chain
      ensures this.state == state && this.banned == banned && this.allowed == allowed
      ensures Enumerates(bans, banned) && Enumerates(allows, allowed)
      ensures chain.rules == Rewrite(cfg, state, maxId, bans, allows)
    {
      chain.Flush();
      this.banned := banned;
      this.allowed := allowed;
      this.state := state;
      bans, allows := RewriteChain(maxId);
    }

    method UpdateState(state: string, maxId: int) returns (ghost bans: seq<int>, ghost allows: seq<int>)
      requires cfg.network.Valid()
      modifies this`state, chain
      ensures this.state == state
      ensures Enumerates(bans, banned) && Enumerates(allows, allowed)
      ensures chain.rules == Rewrite(cfg, state, maxId, bans, allows)
    {
      this.state := state;
      bans, allows := RewriteChain(maxId);
    }

    method RewriteChain(maxId: int) returns (ghost bans: seq<int>, ghost allows: seq<int>)
      requires cfg.network.Valid()
      modifies chain
      ensures Enumerates(bans, banned) && Enumerates(allows, allowed)
      ensures chain.rules == Rewrite(cfg, state, maxId, bans, allows)
    {
      WriteBase(maxId);
      bans := BanAll();
      allows := AllowAll();
    }

    method WriteBase(maxId: int)
      requires cfg.network.Valid()
      modifies chain
      ensures chain.rules == Base(cfg, state, maxId)
    {
      if state == "on" {
        chain.Flush();
      } else if state == "team" {
        chain.Flush();
        chain.Append(RULE_NETTEAMONLY);
        chain.Append(RULE_NETCLOSED);
      } else if state == "team-no-vulnbox" {
        chain.Flush();
        chain.Append(RULE_NETCLOSED);
        chain.Prepend(RULE_NETTEAMONLY);
        InsertNoVulnboxRules(maxId);
      } else {
        chain.Flush();
        chain.Append(RULE_NETCLOSED);
      }
    }

    /** `for team in self.banned`: some order, each team once. */
    method BanAll() returns (ghost order: seq<int>)
      modifies chain
      ensures Enumerates(order, banned)
      ensures chain.rules == BanEach(old(chain.rules), order)
    {
      order := [];
      var rest := banned;
      while rest != {}
        invariant rest <= banned && Enumerates(order, banned - rest)
        invariant chain.rules == BanEach(old(chain.rules), order)
      {
        SomeTeamLeft(rest);
        var team :| team in rest;
        AppendedEnumerates(order, banned - rest, team);
        BanRulesOf(team);
        assert (order + [team])[..|order|] == order;
        order := order + [team];
        rest := rest - {team};
      }
    }

    /** `for team in self.allowed` */
    method AllowAll() returns (ghost order: seq<int>)
      requires cfg.network.Valid()
      modifies chain
      ensures Enumerates(order, allowed)
      ensures chain.rules == AllowEach(cfg, old(chain.rules), order)
    {
      order := [];
      var rest := allowed;
      while rest != {}
        invariant rest <= allowed && Enumerates(order, allowed - rest)
        invariant chain.rules == AllowEach(cfg, old(chain.rules), order)
      {
        SomeTeamLeft(rest);
        var team :| team in rest;
        AppendedEnumerates(order, allowed - rest, team);
        AllowRulesOf(team);
        assert (order + [team])[..|order|] == order;
        order := order + [team];
        rest := rest - {team};
      }
    }

    /** The body of the loop below. */
    method InsertVulnbox(team: int)
      requires cfg.network.Valid()
      modifies chain
      ensures chain.rules == Insert(Insert(old(chain.rules), RejectFrom(cfg, team)), RejectTo(cfg, team))
    {
      chain.Prepend(RejectFrom(cfg, team));
      chain.Prepend(RejectTo(cfg, team));
    }

    method InsertNoVulnboxRules(maxId: int)
      requires cfg.network.Valid()
      modifies chain
      ensures chain.rules == InsertVulnboxes(cfg, old(chain.rules), VulnboxCount(maxId))
    {
      var team := 1;
      while team < maxId + 2
        invariant 1 <= team <= VulnboxCount(maxId) + 1
        invariant chain.rules == InsertVulnboxes(cfg, old(chain.rules), team - 1)
      {
        InsertVulnbox(team);
        VulnboxesMore(cfg, old(chain.rules), team - 1);
        team := team + 1;
      }
    }

    method BanTeam(team: int)
      modifies this`banned, chain
      ensures banned == old(banned) + {team}
      ensures chain.rules == Ban(old(chain.rules), team)
    {
      banned := banned + {team};
      BanRulesOf(team);
    }

    method BanRulesOf(team: int)
      modifies chain
      ensures chain.rules == Ban(old(chain.rules), team)
    {
      ghost var rs := BanRules(team);
      ghost var goal := Ban(chain.rules, team);
      assert rs[0..] == rs;
      AddAllStep(chain.rules, rs, 0);
      chain.Append(Rule(EnteringBy(team), DROP, BanIncoming(team)));
      AddAllStep(chain.rules, rs, 1);
      chain.Append(Rule(LeavingBy(team), DROP, BanOutgoing(team)));
      AddAllStep(chain.rules, rs, 2);
      chain.Append(Rule(EnteringBy(1000 + team), DROP, BanIncoming(team)));
      AddAllStep(chain.rules, rs, 3);
      chain.Append(Rule(LeavingBy(1000 + team), DROP, BanOutgoing(team)));
      AddAllStep(chain.rules, rs, 4);
      chain.Append(Rule(EnteringBy(2000 + team), DROP, BanIncoming(team)));
      AddAllStep(chain.rules, rs, 5);
      chain.Append(Rule(LeavingBy(2000 + team), DROP, BanOutgoing(team)));
      assert chain.rules == goal;
    }

    method UnbanTeam(team: int)
      modifies this`banned, chain
      ensures banned == old(banned) - {team}
      ensures chain.rules == Unban(old(chain.rules), team)
    {
      banned := banned - {team};
      UnbanRulesOf(team);
    }

    method UnbanRulesOf(team: int)
      modifies chain
      ensures chain.rules == Unban(old(chain.rules), team)
    {
      ghost var rs := BanRules(team);
      ghost var goal := Unban(chain.rules, team);
      assert rs[0..] == rs;
      RemoveAllStep(chain.rules, rs, 0);
      chain.RemoveAll(Rule(EnteringBy(team), DROP, BanIncoming(team)));
      RemoveAllStep(chain.rules, rs, 1);
      chain.RemoveAll(Rule(LeavingBy(team), DROP, BanOutgoing(team)));
      RemoveAllStep(chain.rules, rs, 2);
      chain.RemoveAll(Rule(EnteringBy(1000 + team), DROP, BanIncoming(team)));
      RemoveAllStep(chain.rules, rs, 3);
      chain.RemoveAll(Rule(LeavingBy(1000 + team), DROP, BanOutgoing(team)));
      RemoveAllStep(chain.rules, rs, 4);
      chain.RemoveAll(Rule(EnteringBy(2000 + team), DROP, BanIncoming(team)));
      RemoveAllStep(chain.rules, rs, 5);
      chain.RemoveAll(Rule(LeavingBy(2000 + team), DROP, BanOutgoing(team)));
      assert chain.rules == goal;
    }

    method AddNetworkTeam(team: int)
      requires cfg.network.Valid()
      modifies this`allowed, chain
      ensures allowed == old(allowed) + {team}
      ensures chain.rules == Allow(cfg, old(chain.rules), team)
    {
      allowed := allowed + {team};
      AllowRulesOf(team);
    }

    method AllowRulesOf(team: int)
      requires cfg.network.Valid()
      modifies chain
      ensures chain.rules == Allow(cfg, old(chain.rules), team)
    {
      chain.Prepend(AllowInward(cfg, team));
      chain.Prepend(AllowOutward(cfg, team));
    }

    method RemoveNetworkTeam(team: int)
      requires cfg.network.Valid()
      modifies this`allowed, chain
      ensures allowed == old(allowed) - {team}
      ensures chain.rules == Disallow(cfg, old(chain.rules), team)
    {
      allowed := allowed - {team};
      DisallowRulesOf(team);
    }

    method DisallowRulesOf(team: int)
      requires cfg.network.Valid()
      modifies chain
      ensures chain.rules == Disallow(cfg, old(chain.rules), team)
    {
      chain.RemoveAll(AllowOutward(cfg, team));
      chain.RemoveAll(AllowInward(cfg, team));
    }

    /** One item of the message loop. */
    method HandleMessage(msg: Message, maxId: int)
      requires cfg.network.Valid()
      modifies this, chain
      ensures Fields() == Handled(old(Fields()), msg)
      ensures state == if msg.SetState? then msg.state else old(state)
      ensures banned == match msg
                        case BanTeam(t) => old(banned) + {t}
                        case UnbanTeam(t) => old(banned) - {t}
                        case _ => old(banned)
      ensures allowed == match msg
                         case AllowTeam(t) => old(allowed) + {t}
                         case DisallowTeam(t) => old(allowed) - {t}
                         case _ => old(allowed)
      ensures forall m :: Shaped(cfg, old(chain.rules), old(state), m, old(banned), old(allowed)) ==>
                Shaped(cfg, chain.rules, state, if msg.SetState? then maxId else m, banned, allowed)
    {
      forall m | Shaped(cfg, chain.rules, state, m, banned, allowed)
        ensures msg.BanTeam? ==> Shaped(cfg, Ban(chain.rules, msg.team), state, m, banned + {msg.team}, allowed)
        ensures msg.UnbanTeam? ==> Shaped(cfg, Unban(chain.rules, msg.team), state, m, banned - {msg.team}, allowed)
        ensures msg.AllowTeam? ==> Shaped(cfg, Allow(cfg, chain.rules, msg.team), state, m, banned, allowed + {msg.team})
        ensures msg.DisallowTeam? ==> Shaped(cfg, Disallow(cfg, chain.rules, msg.team), state, m, banned, allowed - {msg.team})
      {
        match msg
        case BanTeam(t) => BanKeepsShape(cfg, chain.rules, state, m, banned, allowed, t);
        case UnbanTeam(t) => UnbanKeepsShape(cfg, chain.rules, state, m, banned, allowed, t);
        case AllowTeam(t) => AllowKeepsShape(cfg, chain.rules, state, m, banned, allowed, t);
        case DisallowTeam(t) => DisallowKeepsShape(cfg, chain.rules, state, m, banned, allowed, t);
        case SetState(_) =>
      }
      match msg {
        case SetState(s) =>
          ghost var bans, allows := UpdateState(s, maxId);
          RewriteShaped(cfg, s, maxId, bans, allows, banned, allowed);
        case BanTeam(t) => BanTeam(t);
        case UnbanTeam(t) => UnbanTeam(t);
        case AllowTeam(t) => AddNetworkTeam(t);
        case DisallowTeam(t) => RemoveNetworkTeam(t);
      }
    }

    /** The process without its watcher: initialise, then handle the messages as they come. The fields
        are what the messages make of them, and the chain has the shape of the fields. */
    method ManageIptables(state: string, banned: set<int>, allowed: set<int>, maxId: int, items: seq<(Message, int)>)
      requires cfg.network.Valid()
      modifies this, chain
      ensures Fields() == HandledAll(ManagerFields(state, banned, allowed), Messages(items))
      ensures LastState(Messages(items), state, this.state)
      ensures forall t :: t in this.banned <==> LastOn(Messages(items), Message.BanTeam(t), Message.UnbanTeam(t), t in banned)
      ensures forall t :: t in this.allowed <==> LastOn(Messages(items), AllowTeam(t), DisallowTeam(t), t in allowed)
      ensures exists n :: LastId(items, maxId, n) && Shaped(cfg, chain.rules, this.state, n, this.banned, this.allowed)
    {
      HandledAllMeaning(ManagerFields(state, banned, allowed), Messages(items));
      MaxIdMeaning(maxId, items);
      ghost var bans, allows := InitFirewall(state, banned, allowed, maxId);
      RewriteShaped(cfg, state, maxId, bans, allows, banned, allowed);
      ghost var m := maxId;
      assert items[0..] == items;
      for i := 0 to |items|
        invariant Shaped(cfg, chain.rules, this.state, m, this.banned, this.allowed)
        invariant HandledAll(Fields(), Messages(items[i..])) == HandledAll(ManagerFields(state, banned, allowed), Messages(items))
        invariant MaxIdAfter(m, items[i..]) == MaxIdAfter(maxId, items)
      {
        ItemsStep(Fields(), m, items, i);
        HandleMessage(items[i].0, items[i].1);
        m := if items[i].0.SetState? then items[i].1 else m;
      }
    }
  }
}
