/** What addresses a network range contains, and what an octet says about a team. */
module FirewallAddresses {
  import opened IntervalFamilies
  import opened Network
  import opened FirewallRules
  import opened FirewallModel
  import opened FirewallVerdicts

  predicate IsAddress(ip: seq<int>) {
    |ip| == 4 && forall i | 0 <= i < 4 :: 0 <= ip[i] <= 255
  }

  /** An octet of a team is its digit: the place the id falls into when ids are counted off in blocks of a
      and the blocks are numbered from 0 to b - 1 over and over. */
  lemma OctetIsDigit(comp: Component, id: int, k: int, digit: int, offset: int)
    requires comp.Valid() && 0 <= digit < comp.b && 0 <= offset < comp.a
    requires id == (k * comp.b + digit) * comp.a + offset
    ensures comp.Octet(id) == comp.c + digit
  {
    ModUnique(id, k * comp.b + digit, offset, comp.a);
    ModUnique(k * comp.b + digit, k, digit, comp.b);
  }

  lemma ValueStep(ip: seq<int>, n: nat)
    requires n < |ip|
    ensures Value(ip[..n + 1]) == Value(ip[..n]) * 256 + ip[n]
  {
    assert ip[..n + 1][..n] == ip[..n];
  }

  /** Cutting off host bits leaves the first octets. */
  lemma NetworkPart(ip: seq<int>)
    requires IsAddress(ip)
    ensures Pow2(0) == 1 && Pow2(8) == 0x100 && Pow2(16) == 0x1_0000 && Pow2(24) == 0x100_0000
    ensures Value(ip) / Pow2(24) == Value(ip[..1]) && Value(ip) / Pow2(16) == Value(ip[..2])
    ensures Value(ip) / Pow2(8) == Value(ip[..3]) && Value(ip) / Pow2(0) == Value(ip[..4])
  {
    ValueStep(ip, 0);
    ValueStep(ip, 1);
    ValueStep(ip, 2);
    ValueStep(ip, 3);
    assert ip[..4] == ip;
    assert Pow2(4) == 16 && Pow2(8) == 16 * Pow2(4) && Pow2(12) == 16 * Pow2(8);
    assert Pow2(16) == 16 * Pow2(12) && Pow2(20) == 16 * Pow2(16) && Pow2(24) == 16 * Pow2(20);
  }

  lemma {:induction false} ValueEqual(ip: seq<int>, ip': seq<int>, n: nat)
    requires IsAddress(ip) && IsAddress(ip') && n <= 4
    ensures Value(ip[..n]) == Value(ip'[..n]) <==> forall i | 0 <= i < n :: ip[i] == ip'[i]
  {
    if n > 0 {
      ValueEqual(ip, ip', n - 1);
      ValueStep(ip, n - 1);
      ValueStep(ip', n - 1);
    }
  }

  /** An address is in a range of whole octets exactly when the octets of the prefix are equal. */
  lemma InNetByOctets(ip: seq<int>, net: Net, n: nat)
    requires IsAddress(ip) && IsAddress(net.ip) && 1 <= n <= 4 && net.size == 8 * n
    ensures InNet(ip, net) <==> forall i | 0 <= i < n :: ip[i] == net.ip[i]
  {
    NetworkPart(ip);
    NetworkPart(net.ip);
    ValueEqual(ip, net.ip, n);
  }

  /** An address is in the range of a team exactly when the octets of the network prefix are the team's. */
  lemma InTeamRange(cfg: NetworkConfig, team: int, ip: seq<int>)
    requires cfg.Valid() && IsAddress(ip)
    requires forall i | 0 <= i < 4 :: 0 <= cfg.networkIp[i].Octet(team) <= 255
    ensures InNet(ip, cfg.TeamIdToNetworkRange(team)) <==>
            forall i | 0 <= i < 4 && 8 * i < cfg.networkSize :: ip[i] == cfg.networkIp[i].Octet(team)
    ensures InNet(ip, cfg.TeamIdToNetworkRange(team)) <==> InNetworkOf(cfg, ip, team)
  {
    InNetByOctets(ip, cfg.TeamIdToNetworkRange(team), cfg.networkSize / 8);
  }

  /** Traffic between an allowed team and the game servers passes in every state, whoever is banned;
      which addresses are the team's is told by their octets. */
  lemma AllowedTeamPasses(cfg: FirewallConfig, rules: seq<Rule>, state: string, maxId: int,
                          banned: set<int>, allowed: set<int>, p: Packet, team: int, outward: bool)
    requires cfg.network.Valid() && Shaped(cfg, rules, state, maxId, banned, allowed) && team in allowed
    requires forall i | 0 <= i < 4 :: 0 <= cfg.network.networkIp[i].Octet(team) <= 255
    requires var (ours, theirs) := if outward then (p.src, p.dst) else (p.dst, p.src);
             && IsAddress(ours) && InNet(theirs, cfg.gameserver)
             && forall i | 0 <= i < 4 && 8 * i < cfg.network.networkSize :: ours[i] == cfg.network.networkIp[i].Octet(team)
    ensures Verdict(rules, p) == RETURN
  {
    InTeamRange(cfg.network, team, if outward then p.src else p.dst);
    assert TeamToGameserver(cfg, team, p);
    ShapedVerdict(cfg, rules, state, maxId, banned, allowed, p);
  }
}
