/** The team network layout: team ids spread over IP octets, and the search that inverts it. */
module Network {
  import opened Wrappers
  import opened IntervalFamilies

  /** The search gives up at this id. */
  const LIMIT := 0xFFFF

  /** One octet of a layout. Team id x has octet ((x // a) % b) + c; b == 1 makes it constant. */
  datatype Component = Component(a: int, b: int, c: int) {
    predicate Valid() {
      0 < a && 0 < b
    }

    predicate Variable() {
      b > 1
    }

    function Octet(id: int): int
      requires Valid()
    {
      (id / a) % b + c
    }

    predicate InRange(octet: int) {
      0 <= octet - c < b
    }

    /** The ids the search associates with this octet value. */
    function FamilyOf(octet: int): Family {
      Family((octet - c) * a, a, b)
    }
  }

  predicate AllComponentsValid(cs: seq<Component>) {
    forall i | 0 <= i < |cs| :: cs[i].Valid()
  }

  /** The octets of team id, one for each component. */
  function Octets(cs: seq<Component>, id: int): (ip: seq<int>)
    requires AllComponentsValid(cs)
    ensures |ip| == |cs|
  {
    seq(|cs|, i requires 0 <= i < |cs| => cs[i].Octet(id))
  }

  datatype Net = Net(ip: seq<int>, size: int)

  datatype NetworkConfig = NetworkConfig(vulnboxIp: seq<Component>, networkIp: seq<Component>, networkSize: int) {

    /** What loading a configuration checks, and that no octet computation divides by zero. */
    predicate Valid() {
      && |vulnboxIp| == 4 && AllComponentsValid(vulnboxIp)
      && |networkIp| == 4 && AllComponentsValid(networkIp)
      && (networkSize == 8 || networkSize == 16 || networkSize == 24 || networkSize == 32)
    }

    /** The number of octets inside the network prefix. */
    function Used(): (n: nat)
      requires Valid()
      ensures n <= |networkIp|
    {
      networkSize / 8
    }

    predicate HasVariable()
      requires Valid()
    {
      exists i | 0 <= i < Used() :: networkIp[i].Variable()
    }

    function TeamIdToVulnboxIp(id: int): seq<int>
      requires Valid()
    {
      Octets(vulnboxIp, id)
    }

    function TeamIdToNetworkRange(id: int): Net
      requires Valid()
    {
      Net(Octets(networkIp, id), networkSize)
    }
  }

  // ----- what an address asks for -----

  /** Team id has the given value in every variable octet of the prefix. */
  ghost predicate Reproduces(cfg: NetworkConfig, ip: seq<int>, id: int)
    requires cfg.Valid() && cfg.Used() <= |ip|
  {
    forall i | 0 <= i < cfg.Used() && cfg.networkIp[i].Variable() :: cfg.networkIp[i].Octet(id) == ip[i]
  }

  /** Team id's network contains the address: all octets of the prefix agree. */
  ghost predicate InNetworkOf(cfg: NetworkConfig, ip: seq<int>, id: int)
    requires cfg.Valid() && cfg.Used() <= |ip|
  {
    forall i | 0 <= i < cfg.Used() :: cfg.networkIp[i].Octet(id) == ip[i]
  }

  predicate VariableOctetsInRange(cfg: NetworkConfig, ip: seq<int>)
    requires cfg.Valid() && cfg.Used() <= |ip|
  {
    forall i | 0 <= i < cfg.Used() && cfg.networkIp[i].Variable() :: cfg.networkIp[i].InRange(ip[i])
  }

  predicate AllOctetsInRange(cfg: NetworkConfig, ip: seq<int>)
    requires cfg.Valid() && cfg.Used() <= |ip|
  {
    forall i | 0 <= i < cfg.Used() :: cfg.networkIp[i].InRange(ip[i])
  }

  /** The interval families of the variable components among the first n. */
  function Families(cs: seq<Component>, ip: seq<int>, n: nat): (fs: seq<Family>)
    requires n <= |cs| && n <= |ip| && AllComponentsValid(cs)
    ensures AllValid(fs)
  {
    if n == 0 then []
    else
      var fs := Families(cs, ip, n - 1);
      if cs[n - 1].Variable() then fs + [cs[n - 1].FamilyOf(ip[n - 1])] else fs
  }

  function FamiliesOf(cfg: NetworkConfig, ip: seq<int>): (fs: seq<Family>)
    requires cfg.Valid() && cfg.Used() <= |ip|
    ensures AllValid(fs)
  {
    Families(cfg.networkIp, ip, cfg.Used())
  }

  lemma {:induction false} FamiliesMeaning(cs: seq<Component>, ip: seq<int>, n: nat, x: int)
    requires n <= |cs| && n <= |ip| && AllComponentsValid(cs)
    ensures Common(Families(cs, ip, n), x) <==>
            forall i | 0 <= i < n && cs[i].Variable() :: cs[i].FamilyOf(ip[i]).Contains(x)
  {
    if n == 0 {
    } else {
      FamiliesMeaning(cs, ip, n - 1, x);
      var fs := Families(cs, ip, n - 1);
      if cs[n - 1].Variable() {
        CommonExtend(fs, cs[n - 1].FamilyOf(ip[n - 1]), x);
      }
    }
  }

  lemma CommonExtend(fs: seq<Family>, f: Family, x: int)
    requires AllValid(fs) && f.Valid()
    ensures AllValid(fs + [f])
    ensures Common(fs + [f], x) <==> Common(fs, x) && f.Contains(x)
  {
    assert (fs + [f])[|fs|] == f;
    assert forall i | 0 <= i < |fs| :: (fs + [f])[i] == fs[i];
  }

  lemma {:induction false} FamiliesNonempty(cs: seq<Component>, ip: seq<int>, n: nat, i: nat)
    requires i < n <= |cs| && n <= |ip| && AllComponentsValid(cs) && cs[i].Variable()
    ensures Families(cs, ip, n) != []
  {
    if i < n - 1 {
      FamiliesNonempty(cs, ip, n - 1, i);
    }
  }

  /** On in-range octets the common points of the families are exactly the nonnegative ids asked for. */
  lemma CommonIsReproduces(cfg: NetworkConfig, ip: seq<int>, x: int)
    requires cfg.Valid() && cfg.Used() <= |ip| && cfg.HasVariable()
    requires VariableOctetsInRange(cfg, ip)
    ensures Common(FamiliesOf(cfg, ip), x) <==> 0 <= x && Reproduces(cfg, ip, x)
  {
    FamiliesMeaning(cfg.networkIp, ip, cfg.Used(), x);
    forall i | 0 <= i < cfg.Used() && cfg.networkIp[i].Variable()
      ensures cfg.networkIp[i].FamilyOf(ip[i]).Contains(x) <==> 0 <= x && cfg.networkIp[i].Octet(x) == ip[i]
    {
      var comp := cfg.networkIp[i];
      ContainsIsDigit(comp.a, comp.b, ip[i] - comp.c, x);
    }
  }

  /** What a search over the families must answer: the least common point below LIMIT, if any. */
  ghost predicate IsLeastCommon(fs: seq<Family>, r: Option<int>)
    requires AllValid(fs)
  {
    match r
    case Some(x) => x < LIMIT && Common(fs, x) && forall y | Common(fs, y) :: x <= y
    case None => forall y | Common(fs, y) :: LIMIT <= y
  }

  /** The answer of network_ip_to_id, for every address. */
  ghost predicate IsInverse(cfg: NetworkConfig, ip: seq<int>, r: Option<int>)
    requires cfg.Valid() && cfg.Used() <= |ip|
  {
    IsLeastCommon(FamiliesOf(cfg, ip), r)
  }

  // ----- the search -----

  function Max(s: seq<int>): (m: int)
    requires s != []
    ensures m in s && forall i | 0 <= i < |s| :: s[i] <= m
  {
    if |s| == 1 then s[0]
    else
      var m := Max(s[1..]);
      assert forall i | 1 <= i < |s| :: s[i] == s[1..][i - 1];
      if m < s[0] then s[0] else m
  }

  /** min(pos_i + a_i): the nearest right end among the current intervals. */
  function MinEnd(pos: seq<int>, a: seq<int>): (m: int)
    requires |pos| == |a| && pos != []
    ensures forall i | 0 <= i < |pos| :: m <= pos[i] + a[i]
    ensures exists i | 0 <= i < |pos| :: m == pos[i] + a[i]
  {
    if |pos| == 1 then pos[0] + a[0]
    else
      var m := MinEnd(pos[1..], a[1..]);
      var i :| 0 <= i < |pos[1..]| && m == pos[1..][i] + a[1..][i];
      assert m == pos[i + 1] + a[i + 1];
      assert forall j | 1 <= j < |pos| :: pos[j] == pos[1..][j - 1] && a[j] == a[1..][j - 1];
      if pos[0] + a[0] < m then pos[0] + a[0] else m
  }

  /** How far the positions are from LIMIT in total: what every round of the search uses up. */
  ghost function Slack(pos: seq<int>): nat {
    if pos == [] then 0
    else (if pos[0] < LIMIT then LIMIT - pos[0] else 0) + Slack(pos[1..])
  }

  lemma {:induction false} SlackAntitone(pos: seq<int>, later: seq<int>)
    requires |pos| == |later| && forall i | 0 <= i < |pos| :: pos[i] <= later[i]
    ensures Slack(later) <= Slack(pos)
  {
    if pos != [] {
      SlackAntitone(pos[1..], later[1..]);
    }
  }

  lemma {:induction false} SlackDecreases(pos: seq<int>, later: seq<int>, i: nat)
    requires |pos| == |later| && forall j | 0 <= j < |pos| :: pos[j] <= later[j]
    requires i < |pos| && pos[i] < LIMIT && pos[i] < later[i]
    ensures Slack(later) < Slack(pos)
  {
    if i == 0 {
      SlackAntitone(pos[1..], later[1..]);
    } else {
      SlackDecreases(pos[1..], later[1..], i - 1);
    }
  }

  /** The positions are interval starts, and no common point lies before any of them. */
  ghost predicate Covers(fs: seq<Family>, pos: seq<int>)
    requires AllValid(fs)
  {
    && |pos| == |fs|
    && (forall i | 0 <= i < |fs| :: OnGrid(fs[i], pos[i]))
    && (forall x, i | Common(fs, x) && 0 <= i < |fs| :: pos[i] <= x)
  }

  lemma CoversStart(fs: seq<Family>, pos: seq<int>)
    requires AllValid(fs) && |pos| == |fs|
    requires forall i | 0 <= i < |fs| :: pos[i] == fs[i].start
    ensures Covers(fs, pos)
  {
    forall i | 0 <= i < |fs|
      ensures OnGrid(fs[i], pos[i])
    {
      PeriodPositive(fs[i]);
    }
    forall x, i | Common(fs, x) && 0 <= i < |fs|
      ensures pos[i] <= x
    {
      assert fs[i].Contains(x);
    }
  }

  /** One `pos[i] += a[i] * b[i]` while the interval ends at or before the largest position. */
  lemma {:induction false} CoversStep(fs: seq<Family>, pos: seq<int>, i: nat, smallest: int)
    requires AllValid(fs) && Covers(fs, pos) && i < |fs|
    requires forall x | Common(fs, x) :: smallest <= x
    requires pos[i] + fs[i].a <= smallest
    ensures Covers(fs, pos[i := pos[i] + fs[i].Period()])
  {
    GridStep(fs[i], pos[i]);
    forall x | Common(fs, x)
      ensures pos[i] + fs[i].Period() <= x
    {
      NoPointSkipped(fs[i], pos[i], x);
    }
  }

  /** When the current intervals overlap, their overlap starts at the least common point. */
  lemma {:induction false} OverlapIsLeast(fs: seq<Family>, pos: seq<int>, smallest: int)
    requires AllValid(fs) && Covers(fs, pos) && smallest in pos
    requires forall i | 0 <= i < |fs| :: pos[i] <= smallest < pos[i] + fs[i].a
    ensures Common(fs, smallest) && forall x | Common(fs, x) :: smallest <= x
  {
    forall i | 0 <= i < |fs|
      ensures fs[i].Contains(smallest)
    {
      IntervalContained(fs[i], pos[i], smallest);
    }
  }

  /** network_ip_to_id. For every address the answer is the least common point of the interval
      families; on in-range octets that is the least team id with these octets. */
  method NetworkIpToId(cfg: NetworkConfig, ip: seq<int>) returns (id: Option<int>)
    requires cfg.Valid() && cfg.Used() <= |ip| && cfg.HasVariable()
    ensures IsInverse(cfg, ip, id)
    ensures VariableOctetsInRange(cfg, ip) && id.Some? ==>
              && 0 <= id.value < 0xFFFF && Reproduces(cfg, ip, id.value)
              && forall x | 0 <= x && Reproduces(cfg, ip, x) :: id.value <= x
    ensures VariableOctetsInRange(cfg, ip) ==>
              (id.None? <==> !exists x :: 0 <= x < 0xFFFF && Reproduces(cfg, ip, x))
  {
    var a: seq<int>, b: seq<int>, pos: seq<int> := [], [], [];
    for i := 0 to cfg.Used()
      invariant |a| == |b| == |pos| == |Families(cfg.networkIp, ip, i)|
      invariant forall j | 0 <= j < |a| :: Families(cfg.networkIp, ip, i)[j] == Family(pos[j], a[j], b[j])
    {
      var comp := cfg.networkIp[i];
      if comp.b > 1 {
        a, b, pos := a + [comp.a], b + [comp.b], pos + [(ip[i] - comp.c) * comp.a];
      }
    }
    ghost var fs := FamiliesOf(cfg, ip);
    ghost var v :| 0 <= v < cfg.Used() && cfg.networkIp[v].Variable();
    FamiliesNonempty(cfg.networkIp, ip, cfg.Used(), v);
    CoversStart(fs, pos);
    id := Search(fs, a, b, pos);
    if VariableOctetsInRange(cfg, ip) {
      forall x {
        CommonIsReproduces(cfg, ip, x);
      }
    }
  }

  /** The `while True` loop of network_ip_to_id. */
  method Search(ghost fs: seq<Family>, a: seq<int>, b: seq<int>, start: seq<int>) returns (id: Option<int>)
    requires AllValid(fs) && fs != [] && |a| == |b| == |start| == |fs|
    requires forall j | 0 <= j < |a| :: fs[j].a == a[j] && fs[j].b == b[j]
    requires Covers(fs, start)
    ensures IsLeastCommon(fs, id)
  {
    var pos := start;
    while true
      invariant Covers(fs, pos)
      decreases Slack(pos)
    {
      var smallest := Max(pos);
      var largest := MinEnd(pos, a);
      if smallest >= LIMIT {
        return None;
      }
      if smallest < largest {
        OverlapIsLeast(fs, pos, smallest);
        return Some(smallest);
      }
      ghost var behind :| 0 <= behind < |pos| && largest == pos[behind] + a[behind];
      var later := CatchUp(fs, a, b, pos, smallest, behind);
      SlackDecreases(pos, later, behind);
      pos := later;
    }
  }

  /** The `for i in range(len(pos))` loop: every position whose interval ends at or before smallest
      moves on, by whole periods; the nearest interval is one of them. */
  method CatchUp(ghost fs: seq<Family>, a: seq<int>, b: seq<int>, start: seq<int>, smallest: int, ghost behind: nat)
    returns (pos: seq<int>)
    requires AllValid(fs) && |a| == |b| == |start| == |fs|
    requires forall j | 0 <= j < |a| :: fs[j].a == a[j] && fs[j].b == b[j]
    requires Covers(fs, start) && forall x | Common(fs, x) :: smallest <= x
    requires behind < |start| && start[behind] + a[behind] <= smallest
    ensures Covers(fs, pos)
    ensures forall j | 0 <= j < |pos| :: start[j] <= pos[j] && smallest < pos[j] + a[j]
    ensures start[behind] < pos[behind]
  {
    pos := start;
    for i := 0 to |pos|
      invariant Covers(fs, pos)
      invariant forall j | 0 <= j < i :: start[j] <= pos[j] && smallest < pos[j] + a[j]
      invariant forall j | i <= j < |pos| :: start[j] == pos[j]
    {
      ghost var entry := pos;
      while pos[i] + a[i] <= smallest
        invariant Covers(fs, pos)
        invariant forall j | 0 <= j < |pos| && j != i :: pos[j] == entry[j]
        invariant start[i] <= pos[i]
        decreases smallest - pos[i]
      {
        CoversStep(fs, pos, i, smallest);
        GridStep(fs[i], pos[i]);
        pos := pos[i := pos[i] + a[i] * b[i]];
      }
    }
  }
}
