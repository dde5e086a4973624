/** What the layout and its inverse search promise together. */
module NetworkRoundTrip {
  import opened Wrappers
  import opened IntervalFamilies
  import opened Network

  /** The specification of the search leaves it no choice. */
  lemma InverseUnique(cfg: NetworkConfig, ip: seq<int>, r: Option<int>)
    requires cfg.Valid() && cfg.Used() <= |ip|
    requires IsInverse(cfg, ip, r)
    ensures forall r' :: IsInverse(cfg, ip, r') <==> r' == r
  {
    var fs := FamiliesOf(cfg, ip);
    forall r' | IsInverse(cfg, ip, r')
      ensures r' == r
    {
      assert r.Some? ==> Common(fs, r.value);
      assert r'.Some? ==> Common(fs, r'.value);
    }
  }

  lemma OctetsInRange(cfg: NetworkConfig, id: int)
    requires cfg.Valid()
    ensures AllOctetsInRange(cfg, Octets(cfg.networkIp, id))
    ensures VariableOctetsInRange(cfg, Octets(cfg.networkIp, id))
  {
  }

  /** Reproducing all variable octets of an in-range address is being in its network. */
  lemma ReproducesIsInNetwork(cfg: NetworkConfig, ip: seq<int>, id: int)
    requires cfg.Valid() && cfg.Used() <= |ip|
    requires AllOctetsInRange(cfg, ip)
    ensures Reproduces(cfg, ip, id) <==> InNetworkOf(cfg, ip, id)
  {
    forall i | 0 <= i < cfg.Used() && !cfg.networkIp[i].Variable()
      ensures cfg.networkIp[i].Octet(id) == ip[i]
    {
      assert (id / cfg.networkIp[i].a) % 1 == 0;
    }
  }

  /** Exactly when a found id really owns the address: when every octet of the prefix is one the
      layout can produce. The search itself checks neither constant octets nor the upper end. */
  lemma FoundIdOwnsAddress(cfg: NetworkConfig, ip: seq<int>, id: int)
    requires cfg.Valid() && cfg.Used() <= |ip| && cfg.HasVariable()
    requires IsInverse(cfg, ip, Some(id))
    ensures InNetworkOf(cfg, ip, id) <==> AllOctetsInRange(cfg, ip)
  {
    if AllOctetsInRange(cfg, ip) {
      CommonIsReproduces(cfg, ip, id);
      ReproducesIsInNetwork(cfg, ip, id);
    }
    OwnedAddressInRange(cfg, ip, id);
  }

  lemma OwnedAddressInRange(cfg: NetworkConfig, ip: seq<int>, id: int)
    requires cfg.Valid() && cfg.Used() <= |ip|
    ensures InNetworkOf(cfg, ip, id) ==> AllOctetsInRange(cfg, ip)
  {
    forall i | 0 <= i < cfg.Used() && InNetworkOf(cfg, ip, id)
      ensures cfg.networkIp[i].InRange(ip[i])
    {
      assert cfg.networkIp[i].Octet(id) == ip[i];
    }
  }

  /** The fallback layout of the service template: 10, [200, 256, 32], [1, 200, 0], 0 / 24. */
  function TemplateConfig(): (cfg: NetworkConfig)
    ensures cfg.Valid() && cfg.HasVariable()
  {
    var fixed := Component(1, 1, 0);
    var net := [Component(1, 1, 10), Component(200, 256, 32), Component(1, 200, 0), fixed];
    var cfg := NetworkConfig([fixed, fixed, fixed, fixed], net, 24);
    assert cfg.networkIp[1].Variable();
    cfg
  }

  /** 10.32.201.0 belongs to no team, yet the search answers team 51201, whose network is 10.32.1.0;
      and 11.32.5.0, outside 10.0.0.0/8, is answered with team 5. It has no other answer to give. */
  lemma ForeignAddressIsAttributed()
    ensures forall r :: IsInverse(TemplateConfig(), [10, 32, 201, 0], r) <==> r == Some(51201)
    ensures Octets(TemplateConfig().networkIp, 51201) == [10, 32, 1, 0]
    ensures forall r :: IsInverse(TemplateConfig(), [11, 32, 5, 0], r) <==> r == Some(5)
    ensures forall id :: !InNetworkOf(TemplateConfig(), [10, 32, 201, 0], id)
    ensures forall id :: !InNetworkOf(TemplateConfig(), [11, 32, 5, 0], id)
  {
    var cfg := TemplateConfig();
    ForeignAnswers();
    InverseUnique(cfg, [10, 32, 201, 0], Some(51201));
    InverseUnique(cfg, [11, 32, 5, 0], Some(5));
    assert !cfg.networkIp[2].InRange([10, 32, 201, 0][2]);
    assert !cfg.networkIp[0].InRange([11, 32, 5, 0][0]);
    forall id, ip | ip == [10, 32, 201, 0] || ip == [11, 32, 5, 0]
      ensures !InNetworkOf(cfg, ip, id)
    {
      OwnedAddressInRange(cfg, ip, id);
    }
  }

  lemma ForeignAnswers()
    ensures IsInverse(TemplateConfig(), [10, 32, 201, 0], Some(51201))
    ensures IsInverse(TemplateConfig(), [11, 32, 5, 0], Some(5))
  {
    var cfg := TemplateConfig();
    TemplateFamilies([10, 32, 201, 0]);
    TemplateFamilies([11, 32, 5, 0]);
    var fs, fs' := FamiliesOf(cfg, [10, 32, 201, 0]), FamiliesOf(cfg, [11, 32, 5, 0]);
    forall x | Common(fs, x)
      ensures 51201 <= x
    {
      assert fs[0].Contains(x) && fs[1].Contains(x);
    }
    assert fs[0].Contains(51201) && fs[1].Contains(51201);
    forall x | Common(fs', x)
      ensures 5 <= x
    {
      assert fs'[1].Contains(x);
    }
    assert fs'[0].Contains(5) && fs'[1].Contains(5);
  }

  lemma TemplateFamilies(ip: seq<int>)
    requires |ip| == 4
    ensures FamiliesOf(TemplateConfig(), ip) == [Family((ip[1] - 32) * 200, 200, 256), Family(ip[2], 1, 200)]
  {
    var net := TemplateConfig().networkIp;
    assert Families(net, ip, 1) == [];
    assert Families(net, ip, 2) == [Family((ip[1] - 32) * 200, 200, 256)];
  }

  /** Round trip over any layout: a team's own network leads back to a team with the same network,
      never a later one, and to the least such. */
  lemma RoundTrip(cfg: NetworkConfig, id: int, r: Option<int>)
    requires cfg.Valid() && cfg.HasVariable() && 0 <= id < 0xFFFF
    requires IsInverse(cfg, cfg.TeamIdToNetworkRange(id).ip, r)
    ensures r.Some? && 0 <= r.value <= id
    ensures SameNetwork(cfg, r.value, id)
    ensures forall x | 0 <= x && SameNetwork(cfg, x, id) :: r.value <= x
  {
    var ip := cfg.TeamIdToNetworkRange(id).ip;
    OctetsInRange(cfg, id);
    forall x
      ensures Common(FamiliesOf(cfg, ip), x) <==> 0 <= x && SameNetwork(cfg, x, id)
    {
      CommonIsReproduces(cfg, ip, x);
      ReproducesIsInNetwork(cfg, ip, x);
    }
    assert SameNetwork(cfg, id, id);
  }

  /** Two teams whose addresses agree on the network prefix. */
  ghost predicate SameNetwork(cfg: NetworkConfig, id: int, id': int)
    requires cfg.Valid()
  {
    InNetworkOf(cfg, cfg.TeamIdToNetworkRange(id').ip, id)
  }

  // ----- mixed-radix layouts -----

  /** Components in ascending order of weight: each place starts where the previous one ends. */
  predicate MixedRadix(vs: seq<Component>) {
    && vs != []
    && (forall i | 0 <= i < |vs| :: vs[i].Valid())
    && vs[0].a == 1
    && forall i | 0 < i < |vs| :: vs[i].a == vs[i - 1].a * vs[i - 1].b
  }

  /** The number of different networks a mixed-radix layout can name. */
  function Capacity(vs: seq<Component>): int {
    if vs == [] then 1 else Capacity(vs[..|vs| - 1]) * vs[|vs| - 1].b
  }

  /** vs lists exactly the variable components of the layout. */
  ghost predicate Arranges(cfg: NetworkConfig, vs: seq<Component>)
    requires cfg.Valid()
  {
    && (forall i | 0 <= i < |vs| :: vs[i].Variable() && vs[i] in cfg.networkIp[..cfg.Used()])
    && (forall i | 0 <= i < cfg.Used() && cfg.networkIp[i].Variable() :: cfg.networkIp[i] in vs)
  }

  lemma {:induction false} CapacityIsTop(vs: seq<Component>)
    requires MixedRadix(vs)
    ensures Capacity(vs) == vs[|vs| - 1].a * vs[|vs| - 1].b && 0 < Capacity(vs)
  {
    var n := |vs| - 1;
    if n > 0 {
      CapacityIsTop(vs[..n]);
      assert vs[n].a == vs[n - 1].a * vs[n - 1].b;
    } else {
      assert Capacity(vs[..0]) == 1;
    }
    MultipleBounds(vs[n].a, vs[n].b);
  }

  ghost predicate SameDigits(vs: seq<Component>, x: int, y: int)
    requires forall i | 0 <= i < |vs| :: vs[i].Valid()
  {
    forall i | 0 <= i < |vs| :: vs[i].Octet(x) == vs[i].Octet(y)
  }

  /** The digits of a number are its remainder modulo the capacity, no more and no less. */
  lemma {:induction false} DigitsAreRemainder(vs: seq<Component>, x: int, y: int)
    requires MixedRadix(vs) && 0 <= x && 0 <= y
    ensures 0 < Capacity(vs)
    ensures SameDigits(vs, x, y) <==> x % Capacity(vs) == y % Capacity(vs)
  {
    var n := |vs| - 1;
    var top := vs[n];
    CapacityIsTop(vs);
    ModSplit(x, top.a, top.b);
    ModSplit(y, top.a, top.b);
    assert SameDigits(vs, x, y) <==> SameDigits(vs[..n], x, y) && top.Octet(x) == top.Octet(y);
    if n > 0 {
      CapacityIsTop(vs[..n]);
      assert top.a == vs[n - 1].a * vs[n - 1].b;
      DigitsAreRemainder(vs[..n], x, y);
    }
    assert SameDigits(vs[..n], x, y) <==> x % top.a == y % top.a;
    DigitPairUnique(top.a, (x / top.a) % top.b, x % top.a, (y / top.a) % top.b, y % top.a);
  }

  lemma DigitPairUnique(a: int, d: int, r: int, d': int, r': int)
    requires 0 < a && 0 <= r < a && 0 <= r' < a
    ensures a * d + r == a * d' + r' <==> d == d' && r == r'
  {
    if a * d + r == a * d' + r' {
      ModUnique(a * d + r, d, r, a);
      ModUnique(a * d' + r', d', r', a);
    }
  }

  lemma SameNetworkIsSameDigits(cfg: NetworkConfig, vs: seq<Component>, x: int, y: int)
    requires cfg.Valid() && Arranges(cfg, vs) && MixedRadix(vs)
    ensures SameNetwork(cfg, x, y) <==> SameDigits(vs, x, y)
  {
    OctetsInRange(cfg, y);
    ReproducesIsInNetwork(cfg, cfg.TeamIdToNetworkRange(y).ip, x);
    if SameDigits(vs, x, y) {
      forall i | 0 <= i < cfg.Used() && cfg.networkIp[i].Variable()
        ensures cfg.networkIp[i].Octet(x) == cfg.networkIp[i].Octet(y)
      {
        var j :| 0 <= j < |vs| && vs[j] == cfg.networkIp[i];
        assert vs[j].Octet(x) == vs[j].Octet(y);
      }
    }
    if SameNetwork(cfg, x, y) {
      forall j | 0 <= j < |vs|
        ensures vs[j].Octet(x) == vs[j].Octet(y)
      {
        var i :| 0 <= i < cfg.Used() && cfg.networkIp[i] == vs[j];
        assert cfg.networkIp[i].Octet(x) == cfg.TeamIdToNetworkRange(y).ip[i];
      }
    }
  }

  /** In a mixed-radix layout the round trip reduces the id modulo the capacity; hence it is the
      identity exactly on the ids below the capacity. */
  lemma RoundTripMixedRadix(cfg: NetworkConfig, vs: seq<Component>, id: int, r: Option<int>)
    requires cfg.Valid() && Arranges(cfg, vs) && MixedRadix(vs)
    requires 0 <= id < 0xFFFF
    requires IsInverse(cfg, cfg.TeamIdToNetworkRange(id).ip, r)
    ensures 0 < Capacity(vs) && r == Some(id % Capacity(vs))
    ensures r == Some(id) <==> id < Capacity(vs)
  {
    var i :| 0 <= i < cfg.Used() && cfg.networkIp[i] == vs[0];
    assert cfg.networkIp[i].Variable();
    RoundTrip(cfg, id, r);
    ReducedId(cfg, vs, id, r.value);
    if id < Capacity(vs) {
      ModUnique(id, 0, id, Capacity(vs));
    }
  }

  /** The least id of a network is any of its ids reduced modulo the capacity. */
  lemma ReducedId(cfg: NetworkConfig, vs: seq<Component>, id: int, least: int)
    requires cfg.Valid() && Arranges(cfg, vs) && MixedRadix(vs)
    requires 0 <= id && 0 <= least && SameNetwork(cfg, least, id)
    requires forall x | 0 <= x && SameNetwork(cfg, x, id) :: least <= x
    ensures 0 < Capacity(vs) && least == id % Capacity(vs)
  {
    CapacityIsTop(vs);
    var p := Capacity(vs);
    var low := id % p;
    ModUnique(low, 0, low, p);
    SameNetworkIsRemainder(cfg, vs, low, id);
    SameNetworkIsRemainder(cfg, vs, least, id);
    ModUnique(least, 0, least, p);
  }

  lemma SameNetworkIsRemainder(cfg: NetworkConfig, vs: seq<Component>, x: int, y: int)
    requires cfg.Valid() && Arranges(cfg, vs) && MixedRadix(vs) && 0 <= x && 0 <= y
    ensures 0 < Capacity(vs)
    ensures SameNetwork(cfg, x, y) <==> x % Capacity(vs) == y % Capacity(vs)
  {
    SameNetworkIsSameDigits(cfg, vs, x, y);
    DigitsAreRemainder(vs, x, y);
  }

  /** Distinct teams below the capacity get distinct networks. */
  lemma {:induction false} NetworksDisjoint(cfg: NetworkConfig, vs: seq<Component>, x: int, y: int)
    requires cfg.Valid() && Arranges(cfg, vs) && MixedRadix(vs)
    requires 0 <= x < Capacity(vs) && 0 <= y < Capacity(vs)
    requires SameNetwork(cfg, x, y)
    ensures x == y
  {
    SameNetworkIsRemainder(cfg, vs, x, y);
    ModUnique(x, 0, x, Capacity(vs));
    ModUnique(y, 0, y, Capacity(vs));
  }
}
