/** The renderer is correct: the emitted chains implement the zone policy and the port rules. */
module FirewallCorrect {
  import opened Basics
  import opened Ifaces
  import opened PortRules
  import opened Firewall
  import opened FirewallPolicy

  // ----- what each group of emitted rules matches -----

  predicate DockerLets(z: Zones, d: string, p: Packet) {
    || (IfaceMatches(d, p.iif) && (IfaceMatches(d, p.oif) || OnAny(z.lans, p.oif) || IfaceMatches(z.wan, p.oif)))
    || (IfaceMatches(d, p.oif) && p.dnated
        && (OnAny(z.lans, p.iif) || (IfaceMatches(z.wan, p.iif) && InSource(z.dockerSource, p.src))))
  }

  lemma BridgeMeans(z: Zones, d: string, p: Packet)
    ensures SomeMatch(DockerBridge(z, d), p) <==> DockerLets(z, d, p)
    ensures OnlyAccept(DockerBridge(z, d))
  {
    var r := DockerBridge(z, d);
    Two(Iif([d]), Oif([d]), Accept, p);
    Two(Iif([d]), Oif(z.lans), Accept, p);
    Two(Iif([d]), Oif([z.wan]), Accept, p);
    Three(Iif(z.lans), Oif([d]), DnatStatus, Accept, p);
    Four(Iif([z.wan]), Oif([d]), Saddr(z.dockerSource), DnatStatus, Accept, p);
    OnOne(d, p.iif);
    OnOne(d, p.oif);
    OnOne(z.wan, p.iif);
    OnOne(z.wan, p.oif);
    SomeFive(r[0], r[1], r[2], r[3], r[4], p);
  }

  lemma SomeFive(a: Rule, b: Rule, c: Rule, d: Rule, e: Rule, p: Packet)
    ensures SomeMatch([a, b, c, d, e], p) <==> Matches(a, p) || Matches(b, p) || Matches(c, p) || Matches(d, p) || Matches(e, p)
  {
    var s := [a, b, c, d, e];
    assert s[0] == a && s[1] == b && s[2] == c && s[3] == d && s[4] == e;
  }

  predicate SomeBridgeLets(z: Zones, bridges: seq<string>, p: Packet) {
    exists i :: 0 <= i < |bridges| && DockerLets(z, bridges[i], p)
  }

  lemma BridgeSnoc(z: Zones, bridges: seq<string>, p: Packet)
    requires bridges != []
    ensures SomeBridgeLets(z, bridges, p) <==>
      SomeBridgeLets(z, bridges[..|bridges| - 1], p) || DockerLets(z, bridges[|bridges| - 1], p)
  {
    var front := bridges[..|bridges| - 1];
    assert forall i :: 0 <= i < |front| ==> front[i] == bridges[i];
  }

  lemma {:induction false} DockerMeans(z: Zones, bridges: seq<string>, p: Packet)
    ensures SomeMatch(DockerRules(z, bridges), p) <==> SomeBridgeLets(z, bridges, p)
    ensures OnlyAccept(DockerRules(z, bridges))
  {
    if bridges != [] {
      var front, d := bridges[..|bridges| - 1], bridges[|bridges| - 1];
      DockerMeans(z, front, p);
      BridgeMeans(z, d, p);
      SomeConcat(DockerRules(z, front), DockerBridge(z, d), p);
      BridgeSnoc(z, bridges, p);
    }
  }

  lemma {:induction false} ToDockerMeans(t: string, bridges: seq<string>, p: Packet)
    ensures SomeMatch(TrustedToDocker(t, bridges), p) <==> IfaceMatches(t, p.iif) && OnAny(bridges, p.oif) && p.dnated
    ensures OnlyAccept(TrustedToDocker(t, bridges))
  {
    if bridges != [] {
      var front, d := bridges[..|bridges| - 1], bridges[|bridges| - 1];
      var r := Rule([Iif([t]), Oif([d]), DnatStatus], Accept);
      ToDockerMeans(t, front, p);
      Three(Iif([t]), Oif([d]), DnatStatus, Accept, p);
      OnOne(t, p.iif);
      OnOne(d, p.oif);
      SomeConcat(TrustedToDocker(t, front), [r], p);
      SomeOne(r, p);
      OnSnoc(bridges, p.oif);
    }
  }

  lemma OnSnoc(patterns: seq<string>, name: string)
    requires patterns != []
    ensures OnAny(patterns, name) <==> OnAny(patterns[..|patterns| - 1], name) || IfaceMatches(patterns[|patterns| - 1], name)
  {
    var front := patterns[..|patterns| - 1];
    assert forall i :: 0 <= i < |front| ==> front[i] == patterns[i];
  }

  predicate TrustedLets(z: Zones, t: string, p: Packet) {
    IfaceMatches(t, p.iif) && (OnAny(z.lans, p.oif) || IfaceMatches(z.wan, p.oif) || (OnAny(z.docker, p.oif) && p.dnated))
  }

  lemma TrustedOne(z: Zones, t: string, p: Packet)
    ensures var rules := [Rule([Iif([t]), Oif(z.lans)], Accept), Rule([Iif([t]), Oif([z.wan])], Accept)] + TrustedToDocker(t, z.docker);
      (SomeMatch(rules, p) <==> TrustedLets(z, t, p)) && OnlyAccept(rules)
  {
    var a, b := Rule([Iif([t]), Oif(z.lans)], Accept), Rule([Iif([t]), Oif([z.wan])], Accept);
    Two(Iif([t]), Oif(z.lans), Accept, p);
    Two(Iif([t]), Oif([z.wan]), Accept, p);
    OnOne(t, p.iif);
    OnOne(z.wan, p.oif);
    ToDockerMeans(t, z.docker, p);
    SomeConcat([a, b], TrustedToDocker(t, z.docker), p);
    assert [a, b] == [a] + [b];
    SomeConcat([a], [b], p);
    SomeOne(a, p);
    SomeOne(b, p);
  }

  lemma {:induction false} TrustedMeans(z: Zones, trusted: seq<string>, p: Packet)
    ensures SomeMatch(TrustedRules(z, trusted), p) <==> exists i :: 0 <= i < |trusted| && TrustedLets(z, trusted[i], p)
    ensures OnlyAccept(TrustedRules(z, trusted))
  {
    if trusted != [] {
      var front, t := trusted[..|trusted| - 1], trusted[|trusted| - 1];
      TrustedMeans(z, front, p);
      TrustedOne(z, t, p);
      SomeConcat(TrustedRules(z, front),
        [Rule([Iif([t]), Oif(z.lans)], Accept), Rule([Iif([t]), Oif([z.wan])], Accept)] + TrustedToDocker(t, z.docker), p);
      assert forall i :: 0 <= i < |front| ==> front[i] == trusted[i];
    }
  }

  lemma {:induction false} AcceptAllMeans(patterns: seq<string>, p: Packet)
    ensures SomeMatch(AcceptAll(patterns), p) <==> OnAny(patterns, p.iif)
    ensures OnlyAccept(AcceptAll(patterns))
  {
    if patterns != [] {
      var front, d := patterns[..|patterns| - 1], patterns[|patterns| - 1];
      AcceptAllMeans(front, p);
      One(Iif([d]), Accept, p);
      OnOne(d, p.iif);
      SomeConcat(AcceptAll(front), [Rule([Iif([d])], Accept)], p);
      SomeOne(Rule([Iif([d])], Accept), p);
      OnSnoc(patterns, p.iif);
    }
  }

  // ----- the forward chain -----

  lemma StateRules(rest: seq<Rule>, p: Packet)
    ensures FirstMatch([Rule([EstablishedOrRelated], Accept), Rule([InvalidState], Drop)] + rest, p) ==
      match p.state
      case Established => Some(Accept)
      case Invalid => Some(Drop)
      case New => FirstMatch(rest, p)
  {
    var a, b := Rule([EstablishedOrRelated], Accept), Rule([InvalidState], Drop);
    One(EstablishedOrRelated, Accept, p);
    One(InvalidState, Drop, p);
    var chain := [a, b] + rest;
    assert chain[0] == a && chain[1..] == [b] + rest && chain[1..][0] == b && chain[1..][1..] == rest;
  }

  predicate LansLet(z: Zones, p: Packet) {
    OnAny(z.lans, p.iif) && (OnAny(z.lans, p.oif) || IfaceMatches(z.wan, p.oif))
  }

  function LanRules(z: Zones): seq<Rule> {
    [Rule([Iif(z.lans), Oif(z.lans)], Accept), Rule([Iif(z.lans), Oif([z.wan])], Accept)]
  }

  lemma LansMean(z: Zones, p: Packet)
    ensures SomeMatch(LanRules(z), p) <==> LansLet(z, p)
    ensures OnlyAccept(LanRules(z))
  {
    var a, b := Rule([Iif(z.lans), Oif(z.lans)], Accept), Rule([Iif(z.lans), Oif([z.wan])], Accept);
    Two(Iif(z.lans), Oif(z.lans), Accept, p);
    Two(Iif(z.lans), Oif([z.wan]), Accept, p);
    OnOne(z.wan, p.oif);
    assert LanRules(z) == [a] + [b];
    SomeConcat([a], [b], p);
    SomeOne(a, p);
    SomeOne(b, p);
  }

  /** Some group of the forward chain lets a new packet through. */
  ghost predicate SomeGroupLets(std: Std, snap: Snapshot, z: Zones, p: Packet) {
    || LansLet(z, p)
    || SomeBridgeLets(z, z.docker, p)
    || (exists i :: 0 <= i < |z.trusted| && TrustedLets(z, z.trusted[i], p))
    || (IfaceMatches(z.wan, p.iif) && RuleLetsIn(std, snap.rules, snap.segments, Forward, p))
  }

  lemma ForwardTail(std: Std, snap: Snapshot, z: Zones, c: Compiled, p: Packet)
    requires CompileRules(std, snap.rules, snap.segments, z.wan) == Ok(c)
    ensures Accepts(LanRules(z) + DockerRules(z, z.docker) + TrustedRules(z, z.trusted) + c.forward, p)
      <==> SomeGroupLets(std, snap, z, p)
  {
    var a, b, d, e := LanRules(z), DockerRules(z, z.docker), TrustedRules(z, z.trusted), c.forward;
    LansMean(z, p);
    DockerMeans(z, z.docker, p);
    TrustedMeans(z, z.trusted, p);
    CompiledMeans(std, snap.rules, snap.segments, z.wan, p);
    SomeConcat(a, b, p);
    SomeConcat(a + b, d, p);
    SomeConcat(a + b + d, e, p);
    AcceptsSome(a + b + d + e, p);
  }

  lemma ForwardShape(z: Zones, c: Compiled)
    ensures Chains(z, c).forward == [Rule([EstablishedOrRelated], Accept), Rule([InvalidState], Drop)]
      + (LanRules(z) + DockerRules(z, z.docker) + TrustedRules(z, z.trusted) + c.forward)
  {
    assert ForwardHead(z) == [Rule([EstablishedOrRelated], Accept), Rule([InvalidState], Drop)] + LanRules(z);
  }

  /** Plain names are matched by equality. */
  lemma OnLans(lans: seq<string>, name: string)
    requires forall n :: n in lans ==> ValidName(n)
    ensures OnAny(lans, name) <==> name in lans
  {
    forall i | 0 <= i < |lans| ensures IfaceMatches(lans[i], name) <==> lans[i] == name {
      assert lans[i] in lans;
      NameIsPlain(lans[i]);
    }
  }

  /** The groups together are the zone policy and the port rules, because the zones are disjoint. */
  lemma GroupsArePolicy(std: Std, snap: Snapshot, z: Zones, p: Packet)
    requires Disjoint(z)
    ensures SomeGroupLets(std, snap, z, p) <==>
      ZonePolicy(z, p) || (ZoneOf(z, p.iif) == WAN && RuleLetsIn(std, snap.rules, snap.segments, Forward, p))
  {
    NameIsPlain(z.wan);
    OnLans(z.lans, p.iif);
    OnLans(z.lans, p.oif);
  }

  /** Compiler correctness for routed traffic: the rendered forward chain accepts a packet exactly when it
      belongs to a known connection, or starts one that the zone policy or an enabled forward rule allows. */
  lemma ForwardIsPolicy(std: Std, snap: Snapshot, p: Packet)
    requires Ruled(std, snap).Ok?
    ensures var z := ZonesOf(std, snap).value;
      Accepts(Ruled(std, snap).value.forward, p) <==>
        match p.state
        case Established => true
        case Invalid => false
        case New => ZonePolicy(z, p) || (ZoneOf(z, p.iif) == WAN && RuleLetsIn(std, snap.rules, snap.segments, Forward, p))
  {
    var z := ZonesOf(std, snap).value;
    var c := CompileRules(std, snap.rules, snap.segments, z.wan).value;
    ForwardShape(z, c);
    StateRules(LanRules(z) + DockerRules(z, z.docker) + TrustedRules(z, z.trusted) + c.forward, p);
    ForwardTail(std, snap, z, c, p);
    ZonesDisjoint(std, snap);
    GroupsArePolicy(std, snap, z, p);
  }

  lemma RuledAsTyped(std: Std, snap: Snapshot, kind: Kind, p: Packet)
    requires Ruled(std, snap).Ok?
    ensures RuleLetsIn(std, snap.rules, snap.segments, kind, p) <==> SomeAdmits(std, snap.rules, kind, p)
  {
    CompilesIff(std, snap.rules, snap.segments, ZonesOf(std, snap).value.wan);
    RulesAsTyped(std, snap.rules, snap.segments, kind, p);
  }

  /** From the WAN a new packet gets to a LAN, or back out, exactly by an enabled forward rule that was typed for
      its protocol, source, target and port. */
  lemma WanToLanNeedsRule(std: Std, snap: Snapshot, p: Packet)
    requires Ruled(std, snap).Ok? && p.state == New
    ensures var z := ZonesOf(std, snap).value;
      ZoneOf(z, p.iif) == WAN && ZoneOf(z, p.oif) != Docker ==>
        (Accepts(Ruled(std, snap).value.forward, p) <==> SomeAdmits(std, snap.rules, Forward, p))
  {
    ForwardIsPolicy(std, snap, p);
    RuledAsTyped(std, snap, Forward, p);
  }

  /** And a new packet from the WAN reaches the router itself exactly if it is ICMP or an enabled input rule was
      typed for its protocol, source and port; unless loopback is configured as the WAN. */
  lemma WanToRouterNeedsRule(std: Std, snap: Snapshot, p: Packet)
    requires Ruled(std, snap).Ok? && p.state == New && ZoneOf(ZonesOf(std, snap).value, p.iif) == WAN
    ensures Accepts(Ruled(std, snap).value.input, p) <==>
      p.iif == "lo" || p.proto == OtherProto(1) || p.proto == OtherProto(58) || SomeAdmits(std, snap.rules, Input, p)
  {
    InputIsPolicy(std, snap, p);
    RuledAsTyped(std, snap, Input, p);
  }

  /** Apart from forward rules, LAN, WAN and trusted interfaces reach a Docker bridge exactly with packets
      that were redirected, and from the WAN only if the configured source allows it. */
  lemma DockerNeedsDnat(std: Std, snap: Snapshot, p: Packet)
    requires Ruled(std, snap).Ok? && p.state == New
    ensures var z := ZonesOf(std, snap).value;
      ZoneOf(z, p.oif) == Docker && ZoneOf(z, p.iif) in {LAN, WAN, Trusted} ==>
        (Accepts(Ruled(std, snap).value.forward, p) <==>
          (p.dnated && (ZoneOf(z, p.iif) == WAN ==> SourceAllows(std, snap.dockerSource, p.src)))
          || (ZoneOf(z, p.iif) == WAN && SomeAdmits(std, snap.rules, Forward, p)))
  {
    ForwardIsPolicy(std, snap, p);
    RuledAsTyped(std, snap, Forward, p);
    if snap.dockerEnabled {
      ZonesMean(std, snap, p.oif);
      SourceMeans(std, snap.dockerSource, ZonesOf(std, snap).value.dockerSource, p.src);
    }
  }

  /** Nothing new is started towards a trusted or unknown interface, nor back out of the WAN, except by a
      forward rule; and an unknown interface starts nothing. */
  lemma OnlyRulesReachOut(std: Std, snap: Snapshot, p: Packet)
    requires Ruled(std, snap).Ok? && p.state == New && Accepts(Ruled(std, snap).value.forward, p)
    ensures var z := ZonesOf(std, snap).value;
      && (ZoneOf(z, p.oif) in {Trusted, Outside} || (ZoneOf(z, p.oif) == WAN && ZoneOf(z, p.iif) == WAN)
          ==> ZoneOf(z, p.iif) == WAN && RuleLetsIn(std, snap.rules, snap.segments, Forward, p))
      && ZoneOf(z, p.iif) != Outside
  {
    ForwardIsPolicy(std, snap, p);
    PolicyStaysIn(ZonesOf(std, snap).value, p);
  }

  lemma PolicyStaysIn(z: Zones, p: Packet)
    ensures ZonePolicy(z, p) ==>
      && ZoneOf(z, p.iif) != Outside && ZoneOf(z, p.oif) != Trusted && ZoneOf(z, p.oif) != Outside
      && !(ZoneOf(z, p.oif) == WAN && ZoneOf(z, p.iif) == WAN)
  {
  }

  // ----- the input chain -----

  lemma InputShape(z: Zones, c: Compiled)
    ensures Chains(z, c).input == [Rule([Iif(["lo"])], Accept)]
      + ([Rule([EstablishedOrRelated], Accept), Rule([InvalidState], Drop)]
      + ([Rule([Icmp], Accept), Rule([Iif(z.lans)], Accept)] + AcceptAll(z.docker) + AcceptAll(z.trusted) + c.input))
  {
    assert InputHead(z) == [Rule([Iif(["lo"])], Accept)]
      + ([Rule([EstablishedOrRelated], Accept), Rule([InvalidState], Drop)] + [Rule([Icmp], Accept), Rule([Iif(z.lans)], Accept)]);
  }

  ghost predicate SomeInputLets(std: Std, snap: Snapshot, z: Zones, p: Packet) {
    || Meets(Icmp, p) || OnAny(z.lans, p.iif) || InDocker(z, p.iif) || InTrusted(z, p.iif)
    || (IfaceMatches(z.wan, p.iif) && RuleLetsIn(std, snap.rules, snap.segments, Input, p))
  }

  lemma InputTail(std: Std, snap: Snapshot, z: Zones, c: Compiled, p: Packet)
    requires CompileRules(std, snap.rules, snap.segments, z.wan) == Ok(c)
    ensures Accepts([Rule([Icmp], Accept), Rule([Iif(z.lans)], Accept)] + AcceptAll(z.docker) + AcceptAll(z.trusted) + c.input, p)
      <==> SomeInputLets(std, snap, z, p)
  {
    var x, y := Rule([Icmp], Accept), Rule([Iif(z.lans)], Accept);
    var a, b, d, e := [x, y], AcceptAll(z.docker), AcceptAll(z.trusted), c.input;
    One(Icmp, Accept, p);
    One(Iif(z.lans), Accept, p);
    assert a == [x] + [y];
    SomeConcat([x], [y], p);
    SomeOne(x, p);
    SomeOne(y, p);
    AcceptAllMeans(z.docker, p);
    AcceptAllMeans(z.trusted, p);
    CompiledMeans(std, snap.rules, snap.segments, z.wan, p);
    SomeConcat(a, b, p);
    SomeConcat(a + b, d, p);
    SomeConcat(a + b + d, e, p);
    AcceptsSome(a + b + d + e, p);
  }

  /** Who may talk to the router itself: loopback, known connections, ICMP, the LANs, containers, trusted
      interfaces, and from the WAN what an enabled input rule admits. */
  lemma InputIsPolicy(std: Std, snap: Snapshot, p: Packet)
    requires Ruled(std, snap).Ok?
    ensures var z := ZonesOf(std, snap).value;
      Accepts(Ruled(std, snap).value.input, p) <==>
        p.iif == "lo" ||
        match p.state
        case Established => true
        case Invalid => false
        case New =>
          || Meets(Icmp, p) || ZoneOf(z, p.iif) in {LAN, Docker, Trusted}
          || (ZoneOf(z, p.iif) == WAN && RuleLetsIn(std, snap.rules, snap.segments, Input, p))
  {
    var z := ZonesOf(std, snap).value;
    var c := CompileRules(std, snap.rules, snap.segments, z.wan).value;
    var tail := [Rule([Icmp], Accept), Rule([Iif(z.lans)], Accept)] + AcceptAll(z.docker) + AcceptAll(z.trusted) + c.input;
    InputShape(z, c);
    var lo := Rule([Iif(["lo"])], Accept);
    One(Iif(["lo"]), Accept, p);
    OnOne("lo", p.iif);
    var rest := [Rule([EstablishedOrRelated], Accept), Rule([InvalidState], Drop)] + tail;
    assert ([lo] + rest)[0] == lo && ([lo] + rest)[1..] == rest;
    StateRules(tail, p);
    InputTail(std, snap, z, c, p);
    ZonesDisjoint(std, snap);
    NameIsPlain(z.wan);
    OnLans(z.lans, p.iif);
  }

  // ----- redirection -----

  /** The rule wants packets with this protocol, port and source. */
  predicate Wants(r: Parsed, p: Packet) {
    r.kind == Forward && InSource(r.source, p.src) && p.proto in r.protos && r.port.Contains(p.dport)
  }

  /** The target of the first enabled forward rule that wants the packet. */
  function FirstTarget(std: Std, rules: seq<PortRule>, segments: seq<Segment>, p: Packet): Option<Verdict> {
    if rules == [] then None
    else match FirstTarget(std, rules[..|rules| - 1], segments, p)
      case Some(v) => Some(v)
      case None =>
        match (rules[|rules| - 1].disabled, Normalize(std, rules[|rules| - 1], segments))
        case (false, Ok(r)) => if Wants(r, p) then Some(Dnat(r.toIP, r.toPort)) else None
        case _ => None
  }

  lemma DnatLine(chain: seq<Rule>, wan: string, r: Parsed, proto: Proto, p: Packet)
    ensures FirstMatch(chain + [DnatRule(wan, r, proto)], p) ==
      if FirstMatch(chain, p).Some? then FirstMatch(chain, p)
      else if IfaceMatches(wan, p.iif) && p.local && InSource(r.source, p.src) && p.proto == proto && r.port.Contains(p.dport)
      then Some(Dnat(r.toIP, r.toPort))
      else None
  {
    var line := DnatRule(wan, r, proto);
    FirstMatchConcat(chain, [line], p);
    Four(Iif([wan]), LocalAddress, Saddr(r.source), Dport(proto, r.port), Dnat(r.toIP, r.toPort), p);
    OnOne(wan, p.iif);
    assert [line][0] == line && [line][1..] == [];
  }

  lemma {:induction false} DnatLines(wan: string, r: Parsed, protos: seq<Proto>, c: Compiled, p: Packet)
    ensures FirstMatch(Lines(wan, r, protos, c).dnat, p) ==
      if FirstMatch(c.dnat, p).Some? then FirstMatch(c.dnat, p)
      else if IfaceMatches(wan, p.iif) && p.local && Wants(r.(protos := protos), p) then Some(Dnat(r.toIP, r.toPort))
      else None
  {
    if protos != [] {
      var front, proto := protos[..|protos| - 1], protos[|protos| - 1];
      assert protos == front + [proto];
      DnatLines(wan, r, front, c, p);
      if r.kind == Forward {
        DnatLine(Lines(wan, r, front, c).dnat, wan, r, proto, p);
      }
    }
  }

  lemma {:induction false} DnatCompiled(std: Std, rules: seq<PortRule>, segments: seq<Segment>, wan: string, p: Packet)
    requires CompileRules(std, rules, segments, wan).Ok?
    ensures FirstMatch(CompileRules(std, rules, segments, wan).value.dnat, p) ==
      if IfaceMatches(wan, p.iif) && p.local then FirstTarget(std, rules, segments, p) else None
  {
    if rules != [] {
      var front, last := rules[..|rules| - 1], rules[|rules| - 1];
      DnatCompiled(std, front, segments, wan, p);
      if !last.disabled {
        var r := Normalize(std, last, segments).value;
        DnatLines(wan, r, r.protos, CompileRules(std, front, segments, wan).value, p);
        assert r.(protos := r.protos) == r;
      }
    }
  }

  lemma {:induction false} FirstTargetMeans(std: Std, rules: seq<PortRule>, segments: seq<Segment>, p: Packet) returns (i: nat, r: Parsed)
    requires FirstTarget(std, rules, segments, p).Some?
    ensures Enabled(std, rules, segments, i, Forward, r) && Wants(r, p)
    ensures FirstTarget(std, rules, segments, p) == Some(Dnat(r.toIP, r.toPort))
  {
    var front := rules[..|rules| - 1];
    if FirstTarget(std, front, segments, p).Some? {
      i, r := FirstTargetMeans(std, front, segments, p);
      assert front[i] == rules[i];
    } else {
      i, r := |front|, Normalize(std, rules[|rules| - 1], segments).value;
    }
  }

  /** What the nat table does with the first packet of a connection; it holds IPv4 rules only. */
  function Redirect(rs: Ruleset, p: Packet): Option<Verdict> {
    if p.dst.None? then None else FirstMatch(rs.prerouting, p)
  }

  /** The packet after the rewrite, on its way to wherever routing now sends it. */
  function Rewritten(p: Packet, to: Addr, port: Option<Ports>, oif: string): Packet {
    p.(dst := Some(to), dport := if port.Some? then port.value.lo else p.dport, dnated := true, local := false, oif := oif)
  }

  /** Exactly the packets that arrive on the WAN for an address of this box and that some enabled forward
      rule wants are redirected, to the target of the first such rule. */
  lemma RedirectIsFirstTarget(std: Std, snap: Snapshot, p: Packet)
    requires Ruled(std, snap).Ok? && p.dst.Some?
    ensures Redirect(Ruled(std, snap).value, p) ==
      if ZoneOf(ZonesOf(std, snap).value, p.iif) == WAN && p.local then FirstTarget(std, snap.rules, snap.segments, p) else None
  {
    var z := ZonesOf(std, snap).value;
    DnatCompiled(std, snap.rules, snap.segments, z.wan, p);
    ZonesDisjoint(std, snap);
    NameIsPlain(z.wan);
  }

  /** A redirected packet is then accepted by the forward chain, whatever the rule's ports, protocols and
      source, and wherever it is routed; its target lies in a configured segment and is not that segment's
      own address. */
  lemma RedirectedIsForwarded(std: Std, snap: Snapshot, p: Packet, oif: string)
    requires Ruled(std, snap).Ok? && p.state == New && Redirect(Ruled(std, snap).value, p).Some?
    ensures var v := Redirect(Ruled(std, snap).value, p).value;
      && v.Dnat?
      && Accepts(Ruled(std, snap).value.forward, Rewritten(p, v.to, v.port, oif))
      && TargetOk(std, v.to, snap.segments)
      && ZoneOf(ZonesOf(std, snap).value, p.iif) == WAN && p.local
  {
    RedirectIsFirstTarget(std, snap, p);
    var i, r := FirstTargetMeans(std, snap.rules, snap.segments, p);
    NormalizeMeans(std, snap.rules[i], snap.segments);
    var q := Rewritten(p, r.toIP, r.toPort, oif);
    assert LetsIn(r, q);
    ForwardIsPolicy(std, snap, q);
  }

  /** Exactly what leaves by the WAN is masqueraded. */
  lemma MasqueradedIsWan(std: Std, snap: Snapshot, p: Packet)
    requires Ruled(std, snap).Ok?
    ensures FirstMatch(Ruled(std, snap).value.postrouting, p) ==
      if ZoneOf(ZonesOf(std, snap).value, p.oif) == WAN then Some(Masquerade) else None
  {
    var z := ZonesOf(std, snap).value;
    ZonesDisjoint(std, snap);
    NameIsPlain(z.wan);
    One(Oif([z.wan]), Masquerade, p);
    OnOne(z.wan, p.oif);
    var r := Rule([Oif([z.wan])], Masquerade);
    assert [r][0] == r && [r][1..] == [];
  }

  // ----- redirection, by what was typed -----

  /** An enabled forward rule was typed for packets with this protocol, source and port. */
  ghost predicate WantsTyped(std: Std, r: PortRule, p: Packet) {
    && !r.disabled && IsWord(std, r.kind, "forward")
    && ProtocolSays(std, r.protocol, p.proto) && SourceAllows(std, r.source, p.src) && PortWritten(r.port, p.dport)
  }

  /** The typed target: its address, and its port if one was typed. */
  predicate TargetTyped(std: Std, r: PortRule, to: Addr, port: Option<Ports>) {
    && std.parseIP(TrimSpace(r.toIP)) == Some(to)
    && match port
       case None => TrimSpace(r.toPort) == ""
       case Some(q) => TrimSpace(r.toPort) != "" && q.lo == q.hi && Numeral(r.toPort, q.lo)
  }

  lemma WantsAsTyped(std: Std, r: PortRule, segments: seq<Segment>, q: Parsed, p: Packet)
    requires Normalize(std, r, segments) == Ok(q) && !r.disabled
    ensures WantsTyped(std, r, p) <==> Wants(q, p)
    ensures q.kind == Forward ==> TargetTyped(std, r, q.toIP, q.toPort)
  {
    NormalizeIff(std, r, segments, q);
    SourceMeans(std, r.source, q.source, p.src);
    PortsWrittenOnce(r.port, q.port, p.dport);
    assert p.proto in q.protos <==> ProtocolSays(std, r.protocol, p.proto);
    assert IsWord(std, r.kind, "forward") <==> q.kind == Forward;
  }

  ghost predicate FirstWanting(std: Std, rules: seq<PortRule>, p: Packet, i: nat) {
    i < |rules| && WantsTyped(std, rules[i], p) && forall j :: 0 <= j < i ==> !WantsTyped(std, rules[j], p)
  }

  /** The first rule typed for the packet decides where it goes. */
  ghost predicate TargetIsFirst(std: Std, rules: seq<PortRule>, p: Packet, v: Option<Verdict>) {
    match v
    case None => forall i :: 0 <= i < |rules| ==> !WantsTyped(std, rules[i], p)
    case Some(Dnat(to, port)) => exists i: nat :: FirstWanting(std, rules, p, i) && TargetTyped(std, rules[i], to, port)
    case Some(_) => false
  }

  lemma {:induction false} FirstTargetAsTyped(std: Std, rules: seq<PortRule>, segments: seq<Segment>, p: Packet)
    requires AllNormalize(std, rules, segments)
    ensures TargetIsFirst(std, rules, p, FirstTarget(std, rules, segments, p))
  {
    if rules != [] {
      var front, last := rules[..|rules| - 1], rules[|rules| - 1];
      AllNormalizeSnoc(std, rules, segments);
      FirstTargetAsTyped(std, front, segments, p);
      if !last.disabled {
        WantsAsTyped(std, last, segments, Normalize(std, last, segments).value, p);
      }
      TargetSnoc(std, front, last, p, FirstTarget(std, front, segments, p));
      assert rules == front + [last];
      if FirstTarget(std, front, segments, p).None? && FirstTarget(std, rules, segments, p).Some? {
        assert FirstWanting(std, rules, p, |front|);
      }
    }
  }

  lemma TargetSnoc(std: Std, front: seq<PortRule>, last: PortRule, p: Packet, v: Option<Verdict>)
    requires TargetIsFirst(std, front, p, v)
    ensures v.Some? || !WantsTyped(std, last, p) ==> TargetIsFirst(std, front + [last], p, v)
    ensures v.None? && WantsTyped(std, last, p) ==> FirstWanting(std, front + [last], p, |front|)
  {
    var all := front + [last];
    assert forall i :: 0 <= i < |front| ==> all[i] == front[i];
    if v.Some? && v.value.Dnat? {
      var i: nat :| FirstWanting(std, front, p, i) && TargetTyped(std, front[i], v.value.to, v.value.port);
      assert FirstWanting(std, all, p, i) && TargetTyped(std, all[i], v.value.to, v.value.port);
    }
  }

  /** Redirection by what was typed: exactly the packets that arrive on the WAN for an address of this box and
      for which an enabled forward rule was typed go to the address and port typed in the first such rule. */
  lemma RedirectAsTyped(std: Std, snap: Snapshot, p: Packet)
    requires Ruled(std, snap).Ok? && p.dst.Some?
    ensures var v := Redirect(Ruled(std, snap).value, p);
      if ZoneOf(ZonesOf(std, snap).value, p.iif) == WAN && p.local then TargetIsFirst(std, snap.rules, p, v) else v == None
  {
    RedirectIsFirstTarget(std, snap, p);
    CompilesIff(std, snap.rules, snap.segments, ZonesOf(std, snap).value.wan);
    FirstTargetAsTyped(std, snap.rules, snap.segments, p);
  }
}
