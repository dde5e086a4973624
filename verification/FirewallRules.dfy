/** Packets, rules and chains of the VPN firewall, with first-match semantics. */
module FirewallRules {
  import opened Wrappers
  import opened Network

  datatype Interface = Tun(number: int) | OtherInterface(name: string)

  datatype Packet = Packet(incoming: Interface, outgoing: Interface, src: seq<int>, dst: seq<int>, mark: bv32)

  datatype Target = RETURN | REJECT | DROP

  datatype Match =
    | Everything
    | TeamMark
    | Source(ip: seq<int>)
    | Destination(ip: seq<int>)
    | EnteringBy(tun: int)
    | LeavingBy(tun: int)
    | Between(src: Net, dst: Net)

  datatype Comment =
    | NoComment
    | NetworkIsClosed
    | OpenForTeamsOnly
    | BanIncoming(team: int)
    | BanOutgoing(team: int)
    | OpenNetworkFor(team: int)

  /** A rule is its match, its target and its comment; iptables compares all of it. */
  datatype Rule = Rule(match_: Match, target: Target, comment: Comment)

  function Pow2(n: nat): nat {
    if n == 0 then 1 else 2 * Pow2(n - 1)
  }

  lemma {:induction false} Pow2Positive(n: nat)
    ensures 0 < Pow2(n)
  {
    if n > 0 {
      Pow2Positive(n - 1);
    }
  }

  /** A dotted address as a number. */
  function Value(ip: seq<int>): int {
    if ip == [] then 0 else Value(ip[..|ip| - 1]) * 256 + ip[|ip| - 1]
  }

  /** The address shares the first net.size bits with the network. */
  predicate InNet(ip: seq<int>, net: Net) {
    var host := if 0 <= net.size <= 32 then 32 - net.size else 0;
    Pow2Positive(host);
    Value(ip) / Pow2(host) == Value(net.ip) / Pow2(host)
  }

  predicate Matches(m: Match, p: Packet) {
    match m
    case Everything => true
    case TeamMark => p.mark & 0x0c00 == 0x0800
    case Source(ip) => p.src == ip
    case Destination(ip) => p.dst == ip
    case EnteringBy(tun) => p.incoming == Tun(tun)
    case LeavingBy(tun) => p.outgoing == Tun(tun)
    case Between(src, dst) => InNet(p.src, src) && InNet(p.dst, dst)
  }

  /** The target of the first matching rule. */
  function FirstMatch(rules: seq<Rule>, p: Packet): Option<Target> {
    if rules == [] then None
    else if Matches(rules[0].match_, p) then Some(rules[0].target)
    else FirstMatch(rules[1..], p)
  }

  /** Leaving a user-defined chain at its end is returning from it. */
  function Verdict(rules: seq<Rule>, p: Packet): Target {
    match FirstMatch(rules, p)
    case Some(t) => t
    case None => RETURN
  }

  lemma {:induction false} FirstMatchConcat(rules: seq<Rule>, more: seq<Rule>, p: Packet)
    ensures FirstMatch(rules + more, p) ==
            if FirstMatch(rules, p).Some? then FirstMatch(rules, p) else FirstMatch(more, p)
  {
    if rules == [] {
      assert rules + more == more;
    } else {
      assert (rules + more)[1..] == rules[1..] + more;
      FirstMatchConcat(rules[1..], more, p);
    }
  }

  /** Among rules with one target only membership matters, not the order. */
  lemma {:induction false} FirstMatchUniform(rules: seq<Rule>, t: Target, p: Packet)
    requires forall r | r in rules :: r.target == t
    ensures FirstMatch(rules, p) == if exists r | r in rules :: Matches(r.match_, p) then Some(t) else None
  {
    if rules != [] {
      FirstMatchUniform(rules[1..], t, p);
      assert forall r :: r in rules <==> r == rules[0] || r in rules[1..];
    }
  }

  // ----- the five iptables operations -----

  predicate NoDuplicates<T(==)>(s: seq<T>) {
    forall i, j | 0 <= i < j < |s| :: s[i] != s[j]
  }

  /** -A, unless -C finds the rule. */
  function Add(rules: seq<Rule>, r: Rule): seq<Rule> {
    if r in rules then rules else rules + [r]
  }

  /** -I at position 1, unless -C finds the rule. */
  function Insert(rules: seq<Rule>, r: Rule): seq<Rule> {
    if r in rules then rules else [r] + rules
  }

  /** -D: the first equal rule goes. */
  function DeleteFirst(rules: seq<Rule>, r: Rule): seq<Rule> {
    if rules == [] then []
    else if rules[0] == r then rules[1..]
    else [rules[0]] + DeleteFirst(rules[1..], r)
  }

  /** -D until it fails: every equal rule goes, the others keep their order. */
  function Remove(rules: seq<Rule>, r: Rule): seq<Rule> {
    if rules == [] then []
    else if rules[0] == r then Remove(rules[1..], r)
    else [rules[0]] + Remove(rules[1..], r)
  }

  lemma {:induction false} RemoveAfterDelete(rules: seq<Rule>, r: Rule)
    ensures Remove(DeleteFirst(rules, r), r) == Remove(rules, r)
    ensures r in rules ==> |DeleteFirst(rules, r)| < |rules|
    ensures r !in rules ==> Remove(rules, r) == rules
  {
    if rules != [] && rules[0] != r {
      RemoveAfterDelete(rules[1..], r);
      assert DeleteFirst(rules, r)[1..] == DeleteFirst(rules[1..], r);
    }
  }

  /** A kernel chain. */
  class Chain {
    var rules: seq<Rule>

    constructor ()
      ensures rules == []
    {
      rules := [];
    }

    method Flush()
      modifies this
      ensures rules == []
    {
      rules := [];
    }

    method Exists(r: Rule) returns (found: bool)
      ensures found <==> r in rules
    {
      found := r in rules;
    }

    method Append(r: Rule)
      modifies this
      ensures rules == Add(old(rules), r)
    {
      var found := Exists(r);
      if !found {
        rules := rules + [r];
      }
    }

    method Prepend(r: Rule)
      modifies this
      ensures rules == Insert(old(rules), r)
    {
      var found := Exists(r);
      if !found {
        rules := [r] + rules;
      }
    }

    /** One -D; false when no rule was there to delete. */
    method Delete(r: Rule) returns (deleted: bool)
      modifies this
      ensures deleted <==> r in old(rules)
      ensures rules == if deleted then DeleteFirst(old(rules), r) else old(rules)
    {
      deleted := r in rules;
      if deleted {
        rules := DeleteFirst(rules, r);
      }
    }

    method RemoveAll(r: Rule)
      modifies this
      ensures rules == Remove(old(rules), r)
    {
      while true
        invariant Remove(rules, r) == Remove(old(rules), r)
        decreases |rules|
      {
        RemoveAfterDelete(rules, r);
        var deleted := Delete(r);
        if !deleted {
          break;
        }
      }
    }
  }
}
