/**
 What a sandbox may send. The Docker backend lets the container install its own iptables rules;
 the Kubernetes backend creates a NetworkPolicy. Both are computed here and compared.
 */
module Firewall {
  import opened Ipv4
  import opened Scripts

  // ------------------------------------------------------------ the glob test against CIDR ranges

  // The two branches of is_public_ipv4 that return 1.
  const BLOCKED := [
    "10.*", "127.*", "169.254.*", "0.*", "192.168.*",
    "172.1[6-9].*", "172.2[0-9].*", "172.3[0-1].*"]

  predicate IsPublic(ip: string) {
    !exists i | 0 <= i < |BLOCKED| :: Glob(BLOCKED[i], ip)
  }

  // A CIDR block of the given size contains v.
  predicate InBlock(v: nat, base: nat, size: nat)
    requires size > 0
  {
    v / size == base / size
  }

  const SLASH4 := 0x1000_0000
  const SLASH8 := 0x100_0000
  const SLASH12 := 0x10_0000
  const SLASH16 := 0x1_0000
  const SLASH24 := 0x100

  // 10/8, 127/8, 169.254/16, 0/8, 192.168/16 and 172.16/12.
  predicate Reserved(v: nat) {
    || InBlock(v, Number(Addr(10, 0, 0, 0)), SLASH8)
    || InBlock(v, Number(Addr(127, 0, 0, 0)), SLASH8)
    || InBlock(v, Number(Addr(169, 254, 0, 0)), SLASH16)
    || InBlock(v, Number(Addr(0, 0, 0, 0)), SLASH8)
    || InBlock(v, Number(Addr(192, 168, 0, 0)), SLASH16)
    || InBlock(v, Number(Addr(172, 16, 0, 0)), SLASH12)
  }

  lemma NumberParts(x: Addr)
    ensures Number(x) / SLASH8 == x.a
    ensures Number(x) / SLASH16 == (x.a as int) * 256 + x.b
    ensures Number(x) / SLASH12 == (x.a as int) * 16 + (x.b as int) / 16
  {
  }

  lemma ReservedOctets(x: Addr)
    ensures Reserved(Number(x)) <==>
      || x.a == 10 || x.a == 127 || (x.a == 169 && x.b == 254) || x.a == 0
      || (x.a == 192 && x.b == 168) || (x.a == 172 && 16 <= x.b <= 31)
  {
    NumberParts(x);
    NumberParts(Addr(10, 0, 0, 0));
    NumberParts(Addr(127, 0, 0, 0));
    NumberParts(Addr(169, 254, 0, 0));
    NumberParts(Addr(0, 0, 0, 0));
    NumberParts(Addr(192, 168, 0, 0));
    NumberParts(Addr(172, 16, 0, 0));
    hide Number;
  }

  lemma OneOctetGlob(o: Octet, x: Addr)
    ensures Glob(Decimal(o) + ".*", Text(x)) <==> x.a == o
  {
    DecimalIsInjective(o, x.a);
    var p := Decimal(o) + ".";
    assert p + "*" == Decimal(o) + ".*";
    PrefixGlob(p, Text(x));
    FirstPart(Decimal(o), Decimal(x.a), Decimal(x.b) + "." + (Decimal(x.c) + "." + Decimal(x.d)));
    assert Text(x) == Decimal(x.a) + "." + (Decimal(x.b) + "." + (Decimal(x.c) + "." + Decimal(x.d)));
  }

  lemma TwoOctetPrefix(o: Octet, p: Octet, x: Addr)
    ensures Decimal(o) + "." + (Decimal(p) + ".") <= Text(x) <==> x.a == o && x.b == p
  {
    DecimalIsInjective(o, x.a);
    DecimalIsInjective(p, x.b);
    FirstTwoParts(Decimal(o), Decimal(p), Decimal(x.a), Decimal(x.b), Decimal(x.c) + "." + Decimal(x.d));
    assert Text(x) == Decimal(x.a) + "." + (Decimal(x.b) + "." + (Decimal(x.c) + "." + Decimal(x.d)));
  }

  lemma TwoOctetGlob(o: Octet, p: Octet, x: Addr)
    ensures Glob(Decimal(o) + "." + (Decimal(p) + ".") + "*", Text(x)) <==> x.a == o && x.b == p
  {
    DecimalIsInjective(o, o);
    DecimalIsInjective(p, p);
    PrefixGlob(Decimal(o) + "." + (Decimal(p) + "."), Text(x));
    TwoOctetPrefix(o, p, x);
  }

  // "172.t[lo-hi].*" for a tens digit t matches the second octets from 10 t + lo to 10 t + hi.
  lemma RangeOctetGlob(tens: int, lo: int, hi: int, x: Addr)
    requires 1 <= tens <= 3 && 0 <= lo <= hi <= 9
    ensures Glob("172." + [DigitChar(tens)] + ['[', DigitChar(lo), '-', DigitChar(hi), ']', '.', '*'], Text(x))
       <==> x.a == 172 && 10 * tens + lo <= x.b <= 10 * tens + hi
  {
    var p := "172." + [DigitChar(tens)];
    RangeGlob(p, DigitChar(lo), DigitChar(hi), Text(x));
    var t := Text(x);
    if p <= t && |t| >= |p| + 2 && DigitChar(lo) <= t[|p|] <= DigitChar(hi) && t[|p| + 1] == '.' {
      var units := Text(x)[|p|] as int - '0' as int;
      RangeOctet(tens, units, x);
    } else if x.a == 172 && 10 * tens + lo <= x.b <= 10 * tens + hi {
      RangeOctet(tens, x.b - 10 * tens, x);
    }
  }

  // s starts with p, then c, then a dot.
  predicate Follows(p: string, c: char, s: string) {
    p <= s && |s| >= |p| + 2 && s[|p|] == c && s[|p| + 1] == '.'
  }

  lemma RangeOctet(tens: int, units: int, x: Addr)
    requires 1 <= tens <= 3 && 0 <= units <= 9
    ensures Follows("172." + [DigitChar(tens)], DigitChar(units), Text(x)) <==> x.a == 172 && x.b == 10 * tens + units
  {
    var p := "172." + [DigitChar(tens)];
    var q := Decimal(172) + "." + (Decimal(10 * tens + units) + ".");
    TwoOctetPrefix(172, 10 * tens + units, x);
    assert Decimal(172) == "172" && Decimal(10 * tens + units) == [DigitChar(tens), DigitChar(units)];
    assert q == p + [DigitChar(units), '.'];
    assert p + [DigitChar(units), '.'] <= Text(x) <==> Follows(p, DigitChar(units), Text(x));
  }

  lemma OneOctetGlobs(x: Addr)
    ensures Glob("10.*", Text(x)) <==> x.a == 10
    ensures Glob("127.*", Text(x)) <==> x.a == 127
    ensures Glob("0.*", Text(x)) <==> x.a == 0
  {
    assert Decimal(10) + ".*" == "10.*";
    assert Decimal(127) + ".*" == "127.*";
    assert Decimal(0) + ".*" == "0.*";
    hide Glob, Text, Decimal;
    OneOctetGlob(10, x);
    OneOctetGlob(127, x);
    OneOctetGlob(0, x);
  }

  lemma TwoOctetGlobs(x: Addr)
    ensures Glob("169.254.*", Text(x)) <==> x.a == 169 && x.b == 254
    ensures Glob("192.168.*", Text(x)) <==> x.a == 192 && x.b == 168
  {
    assert Decimal(169) + "." + (Decimal(254) + ".") + "*" == "169.254.*";
    assert Decimal(192) + "." + (Decimal(168) + ".") + "*" == "192.168.*";
    hide Glob, Text, Decimal;
    TwoOctetGlob(169, 254, x);
    TwoOctetGlob(192, 168, x);
  }

  lemma RangeGlobs(x: Addr)
    ensures Glob("172.1[6-9].*", Text(x)) <==> x.a == 172 && 16 <= x.b <= 19
    ensures Glob("172.2[0-9].*", Text(x)) <==> x.a == 172 && 20 <= x.b <= 29
    ensures Glob("172.3[0-1].*", Text(x)) <==> x.a == 172 && 30 <= x.b <= 31
  {
    RangeOctetGlob(1, 6, 9, x);
    assert "172." + [DigitChar(1)] + ['[', DigitChar(6), '-', DigitChar(9), ']', '.', '*'] == "172.1[6-9].*";
    RangeOctetGlob(2, 0, 9, x);
    assert "172." + [DigitChar(2)] + ['[', DigitChar(0), '-', DigitChar(9), ']', '.', '*'] == "172.2[0-9].*";
    RangeOctetGlob(3, 0, 1, x);
    assert "172." + [DigitChar(3)] + ['[', DigitChar(0), '-', DigitChar(1), ']', '.', '*'] == "172.3[0-1].*";
  }

  /** For every address, the text test rejects exactly the reserved CIDR blocks. */
  lemma GlobTestIsCidrTest(x: Addr)
    ensures IsPublic(Text(x)) <==> !Reserved(Number(x))
  {
    ReservedOctets(x);
    OneOctetGlobs(x);
    TwoOctetGlobs(x);
    RangeGlobs(x);
    hide Glob, Reserved, Number;
    assert BLOCKED[0] == "10.*" && BLOCKED[1] == "127.*" && BLOCKED[2] == "169.254.*" && BLOCKED[3] == "0.*"
      && BLOCKED[4] == "192.168.*";
    assert BLOCKED[5] == "172.1[6-9].*" && BLOCKED[6] == "172.2[0-9].*" && BLOCKED[7] == "172.3[0-1].*";
  }

  // The ranges the Go validator refuses for a target (IPv4 part): private, loopback, link-local
  // unicast and multicast, unspecified, multicast.
  predicate GoBlocked(v: nat) {
    || InBlock(v, Number(Addr(10, 0, 0, 0)), SLASH8)
    || InBlock(v, Number(Addr(172, 16, 0, 0)), SLASH12)
    || InBlock(v, Number(Addr(192, 168, 0, 0)), SLASH16)
    || InBlock(v, Number(Addr(127, 0, 0, 0)), SLASH8)
    || InBlock(v, Number(Addr(169, 254, 0, 0)), SLASH16)
    || InBlock(v, Number(Addr(224, 0, 0, 0)), SLASH24)
    || v == 0
    || InBlock(v, Number(Addr(224, 0, 0, 0)), SLASH4)
  }

  /**
   The shell test does not have the validator's range list: the two agree exactly outside
   multicast (224/4, which only the validator blocks) and 0/8 above 0.0.0.0 (only the shell).
   */
  lemma ShellAndValidatorAgreeWhen(x: Addr)
    ensures (IsPublic(Text(x)) <==> !GoBlocked(Number(x)))
       <==> !InBlock(Number(x), Number(Addr(224, 0, 0, 0)), SLASH4) && (x.a == 0 ==> Number(x) == 0)
  {
    GlobTestIsCidrTest(x);
    ReservedOctets(x);
    NumberParts(x);
    assert Number(x) / SLASH4 == (x.a as int) / 16;
    assert Number(x) / SLASH24 == (x.a as int) * 0x1_0000 + (x.b as int) * 0x100 + x.c;
    hide Text, IsPublic;
  }

  // ------------------------------------------------------------ iptables rules

  datatype Protocol = UDP | TCP | Other

  datatype Packet = Packet(loopback: bool, protocol: Protocol, port: nat, dest: Addr)

  datatype Rule =
    | AcceptLoopback
    | AcceptDns(protocol: Protocol)
    | AcceptTo(ip: string)

  predicate RuleMatches(r: Rule, p: Packet) {
    match r
    case AcceptLoopback => p.loopback
    case AcceptDns(protocol) => p.protocol == protocol && p.port == 53
    case AcceptTo(ip) => Text(p.dest) == ip
  }

  // The OUTPUT chain: the first matching rule decides, and the policy is DROP.
  predicate Accepted(rules: seq<Rule>, p: Packet) {
    rules != [] && (RuleMatches(rules[0], p) || Accepted(rules[1..], p))
  }

  lemma {:induction false} AcceptedIffSomeRule(rules: seq<Rule>, p: Packet)
    ensures Accepted(rules, p) <==> exists r | r in rules :: RuleMatches(r, p)
  {
    if rules != [] {
      AcceptedIffSomeRule(rules[1..], p);
      assert forall r | r in rules :: r == rules[0] || r in rules[1..];
    }
  }

  /** The order of the rules does not matter. */
  lemma RuleOrderIsIrrelevant(rules: seq<Rule>, shuffled: seq<Rule>, p: Packet)
    requires multiset(rules) == multiset(shuffled)
    ensures Accepted(rules, p) == Accepted(shuffled, p)
  {
    AcceptedIffSomeRule(rules, p);
    AcceptedIffSomeRule(shuffled, p);
    forall r
      ensures r in rules <==> r in shuffled
    {
      assert r in rules <==> r in multiset(rules);
    }
  }

  predicate IsDns(p: Packet) {
    p.port == 53 && (p.protocol == UDP || p.protocol == TCP)
  }

  /**
   The bootstrap of a target-only container: resolved is what its own lookup of the target host
   answers, hasHost whether TARGET_HOST is set. It accepts exactly loopback, DNS, the pinned
   addresses, and resolved addresses outside the reserved blocks.
   */
  method InstallRules(targetIPs: seq<string>, hasHost: bool, resolved: seq<string>) returns (rules: seq<Rule>)
    ensures forall p: Packet :: Accepted(rules, p) <==>
      || p.loopback || IsDns(p) || Text(p.dest) in targetIPs
      || (hasHost && Text(p.dest) in resolved && !Reserved(Number(p.dest)))
  {
    rules := [AcceptLoopback, AcceptDns(UDP), AcceptDns(TCP)];
    for i := 0 to |targetIPs|
      invariant forall r :: r in rules <==>
        r in {AcceptLoopback, AcceptDns(UDP), AcceptDns(TCP)} || (r.AcceptTo? && r.ip != "" && r.ip in targetIPs[..i])
    {
      if targetIPs[i] != "" {
        rules := rules + [AcceptTo(targetIPs[i])];
      }
    }
    assert targetIPs[..|targetIPs|] == targetIPs;
    if hasHost {
      for i := 0 to |resolved|
        invariant forall r :: r in rules <==>
          || r in {AcceptLoopback, AcceptDns(UDP), AcceptDns(TCP)}
          || (r.AcceptTo? && r.ip != "" && r.ip in targetIPs)
          || (r.AcceptTo? && IsPublic(r.ip) && r.ip in resolved[..i])
      {
        if IsPublic(resolved[i]) {
          rules := rules + [AcceptTo(resolved[i])];
        }
      }
      assert resolved[..|resolved|] == resolved;
    }
    RulesMean(rules, targetIPs, hasHost, resolved);
  }

  lemma RulesMean(rules: seq<Rule>, targetIPs: seq<string>, hasHost: bool, resolved: seq<string>)
    requires forall r :: r in rules <==>
      || r in {AcceptLoopback, AcceptDns(UDP), AcceptDns(TCP)}
      || (r.AcceptTo? && r.ip != "" && r.ip in targetIPs)
      || (r.AcceptTo? && hasHost && IsPublic(r.ip) && r.ip in resolved)
    ensures forall p: Packet :: Accepted(rules, p) <==>
      || p.loopback || IsDns(p) || Text(p.dest) in targetIPs
      || (hasHost && Text(p.dest) in resolved && !Reserved(Number(p.dest)))
  {
    forall p: Packet
      ensures Accepted(rules, p) <==>
        || p.loopback || IsDns(p) || Text(p.dest) in targetIPs
        || (hasHost && Text(p.dest) in resolved && !Reserved(Number(p.dest)))
    {
      AcceptedIffSomeRule(rules, p);
      GlobTestIsCidrTest(p.dest);
      assert AcceptTo(Text(p.dest)) in rules <==>
        Text(p.dest) in targetIPs || (hasHost && IsPublic(Text(p.dest)) && Text(p.dest) in resolved);
      assert AcceptLoopback in rules && AcceptDns(UDP) in rules && AcceptDns(TCP) in rules;
    }
  }

  // ------------------------------------------------------------ the NetworkPolicy

  // An egress rule: DNS ports to anywhere, or one /32 block with no port restriction.
  datatype Egress = DnsPorts | Block(cidr: string)

  predicate EgressAllows(e: Egress, p: Packet) {
    match e
    case DnsPorts => IsDns(p)
    case Block(cidr) => Text(p.dest) + "/32" == cidr
  }

  ghost predicate Allowed(egress: seq<Egress>, p: Packet) {
    exists e | e in egress :: EgressAllows(e, p)
  }

  lemma SuffixIsInjective(a: string, b: string, suffix: string)
    ensures a + suffix == b + suffix <==> a == b
  {
    if a + suffix == b + suffix {
      assert (a + suffix)[..|a|] == a && (b + suffix)[..|b|] == b;
    }
  }

  /** The policy of a target-only run allows exactly DNS and the pinned addresses. */
  method CreatePolicy(targetIPs: seq<string>) returns (egress: seq<Egress>)
    ensures forall p: Packet :: Allowed(egress, p) <==> IsDns(p) || Text(p.dest) in targetIPs
    ensures forall ip | ip in targetIPs && ip != "" :: Block(ip + "/32") in egress
  {
    egress := [DnsPorts];
    for i := 0 to |targetIPs|
      invariant forall e :: e in egress <==>
        e == DnsPorts || exists j | 0 <= j < i :: targetIPs[j] != "" && e == Block(targetIPs[j] + "/32")
    {
      if targetIPs[i] != "" {
        egress := egress + [Block(targetIPs[i] + "/32")];
      }
    }
    forall p: Packet
      ensures Allowed(egress, p) <==> IsDns(p) || Text(p.dest) in targetIPs
    {
      if Text(p.dest) in targetIPs {
        assert Block(Text(p.dest) + "/32") in egress;
      }
      forall e | e in egress && EgressAllows(e, p)
        ensures IsDns(p) || Text(p.dest) in targetIPs
      {
        if e.Block? {
          var j :| 0 <= j < |targetIPs| && e == Block(targetIPs[j] + "/32");
          SuffixIsInjective(Text(p.dest), targetIPs[j], "/32");
        }
      }
      assert DnsPorts in egress;
    }
  }

  // ------------------------------------------------------------ the two backends side by side

  // What each backend lets a script send, once its rules are in place.
  predicate DockerSends(s: Script, targetIPs: seq<string>, hasHost: bool, resolved: seq<string>, p: Packet) {
    DockerMode(s) == OpenEgress
    || p.loopback || IsDns(p) || Text(p.dest) in targetIPs
    || (hasHost && Text(p.dest) in resolved && !Reserved(Number(p.dest)))
  }

  predicate KubernetesSends(s: Script, targetIPs: seq<string>, p: Packet) {
    KubernetesMode(s) == OpenEgress || p.loopback || IsDns(p) || Text(p.dest) in targetIPs
  }

  // A method that runs both installations and returns what they permit for one packet.
  method Compare(s: Script, targetIPs: seq<string>, hasHost: bool, resolved: seq<string>, p: Packet)
    returns (docker: bool, ghost kubernetes: bool)
    ensures docker == DockerSends(s, targetIPs, hasHost, resolved, p)
    ensures kubernetes == KubernetesSends(s, targetIPs, p)
    ensures DockerMode(s) == KubernetesMode(s)
    ensures s in {Subfinder, DnsxBrute, Gau} ==> docker && kubernetes
    ensures s !in {Subfinder, DnsxBrute, Gau} ==> (kubernetes <==>
      p.loopback || (p.port == 53 && (p.protocol == UDP || p.protocol == TCP)) || Text(p.dest) in targetIPs)
    ensures docker <==> kubernetes || (hasHost && Text(p.dest) in resolved && !Reserved(Number(p.dest)))
  {
    if DockerMode(s) == OpenEgress {
      docker := true;
    } else {
      var rules := InstallRules(targetIPs, hasHost, resolved);
      docker := Accepted(rules, p);
    }
    if KubernetesMode(s) == OpenEgress {
      kubernetes := true;
    } else {
      var egress := CreatePolicy(targetIPs);
      kubernetes := p.loopback || Allowed(egress, p);
    }
  }

  ghost predicate SameTraffic(s: Script, targetIPs: seq<string>, hasHost: bool, resolved: seq<string>) {
    forall p: Packet :: DockerSends(s, targetIPs, hasHost, resolved, p) == KubernetesSends(s, targetIPs, p)
  }

  /** The backends permit the same traffic exactly when every re-resolved address is pinned or reserved. */
  lemma BackendsAgreeWhen(s: Script, targetIPs: seq<string>, hasHost: bool, resolved: seq<string>)
    requires KubernetesMode(s) == TargetOnly
    ensures SameTraffic(s, targetIPs, hasHost, resolved)
       <==> (hasHost ==> forall x: Addr :: Text(x) in resolved ==> Text(x) in targetIPs || Reserved(Number(x)))
  {
    if hasHost && SameTraffic(s, targetIPs, hasHost, resolved) {
      forall x: Addr | Text(x) in resolved
        ensures Text(x) in targetIPs || Reserved(Number(x))
      {
        var probe := Packet(false, TCP, 443, x);
        assert DockerSends(s, targetIPs, hasHost, resolved, probe) == KubernetesSends(s, targetIPs, probe);
      }
    }
  }
}
