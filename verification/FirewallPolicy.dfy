/** What the rendered rules do to packets: a first-match evaluator, and the zone policy they implement. */
module FirewallPolicy {
  import opened Basics
  import opened Ifaces
  import opened PortRules
  import opened Firewall

  // ----- packets and evaluation -----

  /** Conntrack's view of a packet; Established stands for established and related. */
  datatype State = New | Established | Invalid

  /** Addresses are None for IPv6 packets; `local` says the destination is an address of this box. */
  datatype Packet = Packet(
    iif: string, oif: string, src: Option<Addr>, dst: Option<Addr>,
    proto: Proto, dport: int, state: State, dnated: bool, local: bool)

  predicate InSource(s: Source, src: Option<Addr>) {
    match s
    case Anyone => true
    case Host(ip) => src == Some(ip)
    case Network(net, mask) => src.Some? && SameNetwork(src.value, net, mask)
  }

  predicate OnAny(patterns: seq<string>, name: string) {
    exists i :: 0 <= i < |patterns| && IfaceMatches(patterns[i], name)
  }

  predicate Meets(c: Cond, p: Packet) {
    match c
    case Iif(patterns) => OnAny(patterns, p.iif)
    case Oif(patterns) => OnAny(patterns, p.oif)
    case EstablishedOrRelated => p.state == Established
    case InvalidState => p.state == Invalid
    case DnatStatus => p.dnated
    case Icmp => p.proto == OtherProto(1) || p.proto == OtherProto(58)
    case LocalAddress => p.local
    case Saddr(source) => InSource(source, p.src)
    case Daddr(ip) => p.dst == Some(ip)
    case Dport(proto, ports) => p.proto == proto && ports.Contains(p.dport)
  }

  predicate Matches(r: Rule, p: Packet) { forall i :: 0 <= i < |r.conds| ==> Meets(r.conds[i], p) }

  /** The verdict of the first rule that matches. */
  function FirstMatch(rules: seq<Rule>, p: Packet): Option<Verdict> {
    if rules == [] then None
    else if Matches(rules[0], p) then Some(rules[0].verdict)
    else FirstMatch(rules[1..], p)
  }

  /** A filter chain whose policy is drop. */
  predicate Accepts(chain: seq<Rule>, p: Packet) { FirstMatch(chain, p) == Some(Accept) }

  ghost predicate SomeMatch(rules: seq<Rule>, p: Packet) { exists r :: r in rules && Matches(r, p) }

  predicate OnlyAccept(rules: seq<Rule>) { forall r :: r in rules ==> r.verdict == Accept }

  lemma {:induction false} FirstMatchConcat(a: seq<Rule>, b: seq<Rule>, p: Packet)
    ensures FirstMatch(a + b, p) == if FirstMatch(a, p).Some? then FirstMatch(a, p) else FirstMatch(b, p)
  {
    if a == [] {
      assert a + b == b;
    } else {
      assert (a + b)[1..] == a[1..] + b;
      FirstMatchConcat(a[1..], b, p);
    }
  }

  lemma {:induction false} AcceptsSome(rules: seq<Rule>, p: Packet)
    requires OnlyAccept(rules)
    ensures Accepts(rules, p) <==> SomeMatch(rules, p)
  {
    if rules != [] {
      assert rules == [rules[0]] + rules[1..];
      AcceptsSome(rules[1..], p);
    }
  }

  lemma SomeConcat(a: seq<Rule>, b: seq<Rule>, p: Packet)
    ensures SomeMatch(a + b, p) <==> SomeMatch(a, p) || SomeMatch(b, p)
  {
  }

  lemma SomeOne(r: Rule, p: Packet)
    ensures SomeMatch([r], p) <==> Matches(r, p)
  {
    assert r in [r];
  }

  lemma One(a: Cond, v: Verdict, p: Packet)
    ensures Matches(Rule([a], v), p) <==> Meets(a, p)
  {
    var r := Rule([a], v);
    assert r.conds[0] == a;
  }

  lemma Two(a: Cond, b: Cond, v: Verdict, p: Packet)
    ensures Matches(Rule([a, b], v), p) <==> Meets(a, p) && Meets(b, p)
  {
    var r := Rule([a, b], v);
    assert r.conds[0] == a && r.conds[1] == b;
  }

  lemma Three(a: Cond, b: Cond, c: Cond, v: Verdict, p: Packet)
    ensures Matches(Rule([a, b, c], v), p) <==> Meets(a, p) && Meets(b, p) && Meets(c, p)
  {
    var r := Rule([a, b, c], v);
    assert r.conds[0] == a && r.conds[1] == b && r.conds[2] == c;
  }

  lemma Four(a: Cond, b: Cond, c: Cond, d: Cond, v: Verdict, p: Packet)
    ensures Matches(Rule([a, b, c, d], v), p) <==> Meets(a, p) && Meets(b, p) && Meets(c, p) && Meets(d, p)
  {
    var r := Rule([a, b, c, d], v);
    assert r.conds[0] == a && r.conds[1] == b && r.conds[2] == c && r.conds[3] == d;
  }

  lemma OnOne(pattern: string, name: string)
    ensures OnAny([pattern], name) <==> IfaceMatches(pattern, name)
  {
    assert [pattern][0] == pattern;
  }

  // ----- zones are disjoint -----

  predicate InDocker(z: Zones, name: string) { OnAny(z.docker, name) }

  predicate InTrusted(z: Zones, name: string) { OnAny(z.trusted, name) }

  /** Plain names only for the WAN and the LANs, and no interface name in two of the four zones. */
  ghost predicate Disjoint(z: Zones) {
    && ValidName(z.wan) && (forall n :: n in z.lans ==> ValidName(n))
    && z.wan !in z.lans
    && forall name ::
         && (InDocker(z, name) ==> name != z.wan && name !in z.lans && name != "lo" && !InTrusted(z, name))
         && (InTrusted(z, name) ==> name != z.wan && name !in z.lans && name != "lo")
  }

  predicate OnSegment(segments: seq<Segment>, n: string) {
    exists i :: 0 <= i < |segments| && TrimSpace(segments[i].iface) == n
  }

  lemma SegmentSnoc(segments: seq<Segment>, n: string)
    requires segments != []
    ensures OnSegment(segments, n) <==>
      OnSegment(segments[..|segments| - 1], n) || TrimSpace(segments[|segments| - 1].iface) == n
  {
    var front := segments[..|segments| - 1];
    assert forall i :: 0 <= i < |front| ==> front[i] == segments[i];
  }

  lemma {:induction false} LansMeans(segments: seq<Segment>, wan: string)
    requires Lans(segments, wan).Ok?
    ensures var lans := Lans(segments, wan).value;
      && wan !in lans && (forall n :: n in lans ==> ValidName(n))
      && forall n :: n in lans <==> OnSegment(segments, n)
  {
    if segments != [] {
      LansMeans(segments[..|segments| - 1], wan);
      forall n ensures n in Lans(segments, wan).value <==> OnSegment(segments, n) {
        SegmentSnoc(segments, n);
      }
    }
  }

  /** The LAN interfaces are the segments' own, each once. */
  lemma {:induction false} LansAreDistinct(segments: seq<Segment>, wan: string)
    requires Lans(segments, wan).Ok?
    ensures Lans(segments, wan).value == Distinct(seq(|segments|, i requires 0 <= i < |segments| => segments[i].iface))
  {
    if segments != [] {
      var n := |segments| - 1;
      LansAreDistinct(segments[..n], wan);
      var raw := seq(|segments|, i requires 0 <= i < |segments| => segments[i].iface);
      assert raw[..n] == seq(n, i requires 0 <= i < n => segments[..n][i].iface);
    }
  }

  /** A checked list matches no name that a reserved pattern matches. */
  lemma CheckedAvoids(raw: seq<string>, reserved: seq<string>, n: string, name: string)
    requires Checked(raw, reserved).Ok? && n in reserved && n != "" && IfaceMatches(n, name)
    ensures !OnAny(Checked(raw, reserved).value, name)
  {
    CheckedMeans(raw, reserved);
    var out := Checked(raw, reserved).value;
    forall i | 0 <= i < |out| ensures !IfaceMatches(out[i], name) {
      assert out[i] in out;
    }
  }

  lemma {:induction false} NonBlankMeans(raw: seq<string>)
    ensures forall s :: s in NonBlank(raw) <==> s != "" && exists i :: 0 <= i < |raw| && TrimSpace(raw[i]) == s
  {
    if raw != [] {
      var front := raw[..|raw| - 1];
      NonBlankMeans(front);
      assert forall i :: 0 <= i < |front| ==> front[i] == raw[i];
      forall s ensures s in NonBlank(raw) <==> s != "" && exists i :: 0 <= i < |raw| && TrimSpace(raw[i]) == s {
        if s in NonBlank(front) {
          var i :| 0 <= i < |front| && TrimSpace(front[i]) == s;
          assert TrimSpace(raw[i]) == s;
        }
      }
    }
  }

  lemma BaseReservedHas(snap: Snapshot, name: string)
    requires name == TrimSpace(snap.wan) || name == "lo" || OnSegment(snap.segments, name)
    ensures name in BaseReserved(snap)
  {
    var r := BaseReserved(snap);
    if name == TrimSpace(snap.wan) {
      assert r[0] == name;
    } else if name == "lo" {
      assert r[1] == name;
    } else {
      var i :| 0 <= i < |snap.segments| && TrimSpace(snap.segments[i].iface) == name;
      assert r[i + 2] == name;
    }
  }

  /** Neither list of patterns matches the WAN, loopback or a LAN interface. */
  lemma ListAvoidsBase(snap: Snapshot, wan: string, lans: seq<string>, raw: seq<string>, more: seq<string>, name: string)
    requires wan == TrimSpace(snap.wan) && ValidName(wan) && Lans(snap.segments, wan) == Ok(lans)
    requires Checked(raw, BaseReserved(snap) + more).Ok?
    requires name == wan || name == "lo" || name in lans
    ensures !OnAny(Checked(raw, BaseReserved(snap) + more).value, name)
  {
    LansMeans(snap.segments, wan);
    BaseReservedHas(snap, name);
    assert ValidName("lo");
    NameIsPlain(name);
    CheckedAvoids(raw, BaseReserved(snap) + more, name, name);
  }

  lemma DockerAvoidsTrusted(snap: Snapshot, name: string)
    requires snap.dockerEnabled && DockerPatterns(snap).Ok? && TrustedPatterns(snap).Ok?
    requires OnAny(TrustedPatterns(snap).value, name)
    ensures !OnAny(DockerPatterns(snap).value, name)
  {
    var trusted := TrustedPatterns(snap).value;
    var i :| 0 <= i < |trusted| && IfaceMatches(trusted[i], name);
    var t := trusted[i];
    assert t in trusted;
    CheckedMeans(snap.trusted, BaseReserved(snap) + EffectiveDocker(snap));
    NonBlankMeans(snap.trusted);
    assert t in NonBlank(snap.trusted);
    CheckedAvoids(EffectiveDocker(snap), BaseReserved(snap) + NonBlank(snap.trusted), t, name);
  }

  /** Under any configuration that renders, no interface name is in two zones. */
  lemma ZonesDisjoint(std: Std, snap: Snapshot)
    requires ZonesOf(std, snap).Ok?
    ensures Disjoint(ZonesOf(std, snap).value)
  {
    var z := ZonesOf(std, snap).value;
    LansMeans(snap.segments, z.wan);
    forall name
      ensures InDocker(z, name) ==> name != z.wan && name !in z.lans && name != "lo" && !InTrusted(z, name)
      ensures InTrusted(z, name) ==> name != z.wan && name !in z.lans && name != "lo"
    {
      if name == z.wan || name == "lo" || name in z.lans {
        AvoidBase(std, snap, name);
      }
      if InTrusted(z, name) && snap.dockerEnabled {
        DockerAvoidsTrusted(snap, name);
      }
    }
  }

  lemma AvoidBase(std: Std, snap: Snapshot, name: string)
    requires ZonesOf(std, snap).Ok?
    requires var z := ZonesOf(std, snap).value; name == z.wan || name == "lo" || name in z.lans
    ensures !InDocker(ZonesOf(std, snap).value, name) && !InTrusted(ZonesOf(std, snap).value, name)
  {
    var z := ZonesOf(std, snap).value;
    if snap.dockerEnabled {
      ListAvoidsBase(snap, z.wan, z.lans, EffectiveDocker(snap), NonBlank(snap.trusted), name);
      ListAvoidsBase(snap, z.wan, z.lans, snap.trusted, EffectiveDocker(snap), name);
    } else {
      ListAvoidsBase(snap, z.wan, z.lans, snap.trusted, [], name);
    }
  }

  /** The list contains this text, blanks around it and blank entries aside. */
  ghost predicate Listed(raw: seq<string>, n: string) {
    n != "" && exists i :: 0 <= i < |raw| && TrimSpace(raw[i]) == n
  }

  function Bridges(snap: Snapshot): seq<string> {
    if snap.dockerInterfaces == [] then DEFAULT_DOCKER else snap.dockerInterfaces
  }

  /** What the zones are, in terms of what was configured: each name or pattern as typed, blanks aside; the
      default bridges when none are configured, and no bridges when Docker is off. */
  lemma ZonesMean(std: Std, snap: Snapshot, n: string)
    requires ZonesOf(std, snap).Ok?
    ensures var z := ZonesOf(std, snap).value;
      && z.wan == TrimSpace(snap.wan)
      && (n in z.lans <==> OnSegment(snap.segments, n))
      && (n in z.docker <==> snap.dockerEnabled && Listed(Bridges(snap), n))
      && (n in z.trusted <==> Listed(snap.trusted, n))
      && (snap.dockerEnabled ==> SourceSays(std, snap.dockerSource, z.dockerSource))
  {
    LansMeans(snap.segments, TrimSpace(snap.wan));
    CheckedMeans(snap.trusted, BaseReserved(snap) + if snap.dockerEnabled then EffectiveDocker(snap) else []);
    if snap.dockerEnabled {
      CleanedList(Bridges(snap), BaseReserved(snap) + NonBlank(snap.trusted), n);
      SourceParses(std, snap.dockerSource, ZonesOf(std, snap).value.dockerSource);
    }
  }

  lemma CleanedList(raw: seq<string>, reserved: seq<string>, n: string)
    requires Checked(NonBlank(raw), reserved).Ok?
    ensures n in Checked(NonBlank(raw), reserved).value <==> Listed(raw, n)
  {
    var clean := NonBlank(raw);
    CheckedMeans(clean, reserved);
    forall i | 0 <= i < |clean| ensures TrimSpace(clean[i]) == clean[i] {
      CleanTwice(raw, clean[i]);
    }
    NonBlankMeans(raw);
    if n in clean {
      var i :| 0 <= i < |clean| && clean[i] == n;
      assert TrimSpace(clean[i]) == n;
    }
    assert n in Checked(clean, reserved).value <==> n in clean;
  }

  lemma CleanTwice(raw: seq<string>, s: string)
    requires s in NonBlank(raw)
    ensures TrimSpace(s) == s
  {
    NonBlankMeans(raw);
    var j :| 0 <= j < |raw| && TrimSpace(raw[j]) == s;
    TrimTwice(raw[j]);
  }

  // ----- the zone policy -----

  datatype Zone = WAN | LAN | Docker | Trusted | Outside

  function ZoneOf(z: Zones, name: string): Zone {
    if name == z.wan then WAN
    else if name in z.lans then LAN
    else if InDocker(z, name) then Docker
    else if InTrusted(z, name) then Trusted
    else Outside
  }

  /** One bridge pattern matches both ends: the containers share a bridge, or a wildcard covers both. */
  ghost predicate SameBridge(z: Zones, a: string, b: string) {
    exists i :: 0 <= i < |z.docker| && IfaceMatches(z.docker[i], a) && IfaceMatches(z.docker[i], b)
  }

  /** What a new packet may do by the zones of its interfaces alone. */
  ghost predicate ZonePolicy(z: Zones, p: Packet) {
    match (ZoneOf(z, p.iif), ZoneOf(z, p.oif))
    case (LAN, LAN) => true
    case (LAN, WAN) => true
    case (LAN, Docker) => p.dnated
    case (WAN, Docker) => p.dnated && InSource(z.dockerSource, p.src)
    case (Docker, Docker) => SameBridge(z, p.iif, p.oif)
    case (Docker, LAN) => true
    case (Docker, WAN) => true
    case (Trusted, LAN) => true
    case (Trusted, WAN) => true
    case (Trusted, Docker) => p.dnated
    case _ => false
  }

  /** An enabled rule of this kind, as normalised. */
  predicate Enabled(std: Std, rules: seq<PortRule>, segments: seq<Segment>, i: nat, kind: Kind, r: Parsed) {
    i < |rules| && !rules[i].disabled && Normalize(std, rules[i], segments) == Ok(r) && r.kind == kind
  }

  /** The packet is one the rule is for: a forward rule is asked after the destination was rewritten. */
  predicate LetsIn(r: Parsed, p: Packet) {
    && InSource(r.source, p.src) && p.proto in r.protos
    && match r.kind
       case Forward => p.dst == Some(r.toIP) && r.PostNATPort().Contains(p.dport)
       case Input => r.port.Contains(p.dport)
  }

  /** Some enabled rule of this kind lets the packet in. */
  ghost predicate RuleLetsIn(std: Std, rules: seq<PortRule>, segments: seq<Segment>, kind: Kind, p: Packet) {
    exists i: nat, r: Parsed :: Enabled(std, rules, segments, i, kind, r) && LetsIn(r, p)
  }

  // ----- what the compiled port rules match -----

  lemma InputRuleMeans(wan: string, r: Parsed, proto: Proto, p: Packet)
    ensures Matches(InputRule(wan, r, proto), p) <==>
      IfaceMatches(wan, p.iif) && InSource(r.source, p.src) && p.proto == proto && r.port.Contains(p.dport)
  {
    Three(Iif([wan]), Saddr(r.source), Dport(proto, r.port), Accept, p);
    OnOne(wan, p.iif);
  }

  lemma ForwardRuleMeans(wan: string, r: Parsed, proto: Proto, p: Packet)
    ensures Matches(ForwardRule(wan, r, proto), p) <==>
      && IfaceMatches(wan, p.iif) && InSource(r.source, p.src) && p.dst == Some(r.toIP)
      && p.proto == proto && r.PostNATPort().Contains(p.dport)
  {
    Four(Iif([wan]), Saddr(r.source), Daddr(r.toIP), Dport(proto, r.PostNATPort()), Accept, p);
    OnOne(wan, p.iif);
  }

  /** Which of a rule's lines match. */
  predicate LineMatches(wan: string, r: Parsed, protos: seq<Proto>, kind: Kind, p: Packet) {
    r.kind == kind && IfaceMatches(wan, p.iif) && LetsIn(r.(protos := protos), p)
  }

  lemma {:induction false} LinesMean(wan: string, r: Parsed, protos: seq<Proto>, c: Compiled, p: Packet)
    ensures SomeMatch(Lines(wan, r, protos, c).forward, p) <==> SomeMatch(c.forward, p) || LineMatches(wan, r, protos, Forward, p)
    ensures SomeMatch(Lines(wan, r, protos, c).input, p) <==> SomeMatch(c.input, p) || LineMatches(wan, r, protos, Input, p)
    ensures OnlyAccept(c.forward) && OnlyAccept(c.input) ==>
      OnlyAccept(Lines(wan, r, protos, c).forward) && OnlyAccept(Lines(wan, r, protos, c).input)
  {
    if protos != [] {
      var front, proto := protos[..|protos| - 1], protos[|protos| - 1];
      assert protos == front + [proto];
      LinesMean(wan, r, front, c, p);
      var before := Lines(wan, r, front, c);
      match r.kind
      case Input =>
        SomeConcat(before.input, [InputRule(wan, r, proto)], p);
        SomeOne(InputRule(wan, r, proto), p);
        InputRuleMeans(wan, r, proto, p);
      case Forward =>
        SomeConcat(before.forward, [ForwardRule(wan, r, proto)], p);
        SomeOne(ForwardRule(wan, r, proto), p);
        ForwardRuleMeans(wan, r, proto, p);
    }
  }

  lemma {:induction false} CompiledMeans(std: Std, rules: seq<PortRule>, segments: seq<Segment>, wan: string, p: Packet)
    requires CompileRules(std, rules, segments, wan).Ok?
    ensures var c := CompileRules(std, rules, segments, wan).value;
      && (SomeMatch(c.forward, p) <==> IfaceMatches(wan, p.iif) && RuleLetsIn(std, rules, segments, Forward, p))
      && (SomeMatch(c.input, p) <==> IfaceMatches(wan, p.iif) && RuleLetsIn(std, rules, segments, Input, p))
      && OnlyAccept(c.forward) && OnlyAccept(c.input)
  {
    if rules != [] {
      var front, last := rules[..|rules| - 1], rules[|rules| - 1];
      CompiledMeans(std, front, segments, wan, p);
      RulesSnoc(std, rules, segments, Forward, p);
      RulesSnoc(std, rules, segments, Input, p);
      if !last.disabled {
        var r := Normalize(std, last, segments).value;
        LinesMean(wan, r, r.protos, CompileRules(std, front, segments, wan).value, p);
        assert r.(protos := r.protos) == r;
      }
    }
  }

  predicate LastLetsIn(std: Std, last: PortRule, segments: seq<Segment>, kind: Kind, p: Packet) {
    match (last.disabled, Normalize(std, last, segments))
    case (false, Ok(r)) => r.kind == kind && LetsIn(r, p)
    case _ => false
  }

  lemma RulesSnoc(std: Std, rules: seq<PortRule>, segments: seq<Segment>, kind: Kind, p: Packet)
    requires rules != []
    ensures RuleLetsIn(std, rules, segments, kind, p) <==>
      RuleLetsIn(std, rules[..|rules| - 1], segments, kind, p) || LastLetsIn(std, rules[|rules| - 1], segments, kind, p)
  {
    var front, last := rules[..|rules| - 1], rules[|rules| - 1];
    forall i: nat, r ensures Enabled(std, rules, segments, i, kind, r) <==>
      Enabled(std, front, segments, i, kind, r) || (i == |front| && Enabled(std, rules, segments, |front|, kind, r))
    {
      assert i < |front| ==> front[i] == rules[i];
    }
    if LastLetsIn(std, last, segments, kind, p) {
      assert Enabled(std, rules, segments, |front|, kind, Normalize(std, last, segments).value);
    }
  }

  // ----- rules as they were typed -----

  /** Packets from this source are meant: the text is blank, or an address, or a network without host bits. */
  predicate SourceAllows(std: Std, text: string, src: Option<Addr>) {
    var s := TrimSpace(text);
    if s == "" then true
    else if '/' in s then
      match std.parseCIDR(s)
      case Some((ip, net, mask)) => ip == net && src.Some? && src.value & mask == net & mask
      case None => false
    else std.parseIP(s).Some? && src == std.parseIP(s)
  }

  lemma SourceMeans(std: Std, text: string, source: Source, src: Option<Addr>)
    requires SourceSays(std, text, source)
    ensures InSource(source, src) <==> SourceAllows(std, text, src)
  {
  }

  ghost predicate PortWritten(text: string, port: int) {
    exists ports :: PortsWritten(text, ports) && ports.lo <= port <= ports.hi
  }

  lemma PortsWrittenOnce(text: string, p: Ports, port: int)
    requires PortsWritten(text, p)
    ensures PortWritten(text, port) <==> p.lo <= port <= p.hi
  {
    PortSpecMeans(text, p);
    if ports :| PortsWritten(text, ports) && ports.lo <= port <= ports.hi {
      PortSpecMeans(text, ports);
    }
  }

  /** The destination port a forward rule leaves behind: the typed target port, or the port it came for. */
  ghost predicate ToPortAdmits(r: PortRule, port: int) {
    if TrimSpace(r.toPort) == "" then PortWritten(r.port, port) else Numeral(r.toPort, port)
  }

  /** An enabled rule of this kind lets the packet in, going by what was typed alone. */
  ghost predicate Admits(std: Std, r: PortRule, kind: Kind, p: Packet) {
    && !r.disabled && IsWord(std, r.kind, KindWord(kind))
    && ProtocolSays(std, r.protocol, p.proto) && SourceAllows(std, r.source, p.src)
    && if kind == Input then PortWritten(r.port, p.dport)
       else p.dst.Some? && p.dst == std.parseIP(TrimSpace(r.toIP)) && ToPortAdmits(r, p.dport)
  }

  lemma OneAdmits(std: Std, r: PortRule, segments: seq<Segment>, kind: Kind, q: Parsed, p: Packet)
    requires Normalize(std, r, segments) == Ok(q) && !r.disabled
    ensures Admits(std, r, kind, p) <==> q.kind == kind && LetsIn(q, p)
  {
    NormalizeIff(std, r, segments, q);
    SourceMeans(std, r.source, q.source, p.src);
    PortsWrittenOnce(r.port, q.port, p.dport);
    assert p.proto in q.protos <==> ProtocolSays(std, r.protocol, p.proto);
    assert IsWord(std, r.kind, KindWord(kind)) <==> q.kind == kind;
  }

  ghost predicate SomeAdmits(std: Std, rules: seq<PortRule>, kind: Kind, p: Packet) {
    exists i :: 0 <= i < |rules| && Admits(std, rules[i], kind, p)
  }

  predicate AllNormalize(std: Std, rules: seq<PortRule>, segments: seq<Segment>) {
    forall i :: 0 <= i < |rules| && !rules[i].disabled ==> Normalize(std, rules[i], segments).Ok?
  }

  /** Rules let in exactly what they were typed for. */
  lemma RulesAsTyped(std: Std, rules: seq<PortRule>, segments: seq<Segment>, kind: Kind, p: Packet)
    requires AllNormalize(std, rules, segments)
    ensures RuleLetsIn(std, rules, segments, kind, p) <==> SomeAdmits(std, rules, kind, p)
  {
    forall i: nat | i < |rules| && !rules[i].disabled
      ensures Admits(std, rules[i], kind, p) <==>
        Normalize(std, rules[i], segments).value.kind == kind && LetsIn(Normalize(std, rules[i], segments).value, p)
    {
      OneAdmits(std, rules[i], segments, kind, Normalize(std, rules[i], segments).value, p);
    }
    if SomeAdmits(std, rules, kind, p) {
      var i :| 0 <= i < |rules| && Admits(std, rules[i], kind, p);
      assert Enabled(std, rules, segments, i, kind, Normalize(std, rules[i], segments).value);
    }
  }

  // ----- which configurations render -----

  lemma AllNormalizeSnoc(std: Std, rules: seq<PortRule>, segments: seq<Segment>)
    requires rules != []
    ensures var last := rules[|rules| - 1];
      AllNormalize(std, rules, segments) <==>
        AllNormalize(std, rules[..|rules| - 1], segments) && (last.disabled || Normalize(std, last, segments).Ok?)
  {
    var front := rules[..|rules| - 1];
    assert forall i :: 0 <= i < |front| ==> front[i] == rules[i];
  }

  lemma {:induction false} CompilesIff(std: Std, rules: seq<PortRule>, segments: seq<Segment>, wan: string)
    ensures CompileRules(std, rules, segments, wan).Ok? <==> AllNormalize(std, rules, segments)
  {
    if rules != [] {
      CompilesIff(std, rules[..|rules| - 1], segments, wan);
      AllNormalizeSnoc(std, rules, segments);
    }
  }

  lemma {:induction false} LansIff(segments: seq<Segment>, wan: string)
    ensures Lans(segments, wan).Ok? <==> forall n :: OnSegment(segments, n) ==> ValidName(n) && n != wan
    ensures Lans(segments, wan).Ok? ==> (Lans(segments, wan).value == [] <==> segments == [])
  {
    if segments != [] {
      var front := segments[..|segments| - 1];
      LansIff(front, wan);
      forall n ensures OnSegment(segments, n) <==> OnSegment(front, n) || n == TrimSpace(segments[|segments| - 1].iface) {
        SegmentSnoc(segments, n);
      }
      assert OnSegment(segments, TrimSpace(segments[|segments| - 1].iface));
    }
  }

  /** The pattern matches neither the WAN, nor loopback, nor a segment's interface. */
  ghost predicate Apart(snap: Snapshot, pattern: string) {
    forall name :: IfaceMatches(pattern, name) ==> name != TrimSpace(snap.wan) && name != "lo" && !OnSegment(snap.segments, name)
  }

  /** No name is matched by both. */
  ghost predicate NoneShared(a: string, b: string) { forall name :: !(IfaceMatches(a, name) && IfaceMatches(b, name)) }

  lemma ReservedMeans(snap: Snapshot, n: string)
    ensures n in BaseReserved(snap) <==> n == TrimSpace(snap.wan) || n == "lo" || OnSegment(snap.segments, n)
  {
    var r := BaseReserved(snap);
    if n in r {
      var k :| 0 <= k < |r| && r[k] == n;
      assert 2 <= k ==> TrimSpace(snap.segments[k - 2].iface) == n;
    }
    if n == TrimSpace(snap.wan) || n == "lo" || OnSegment(snap.segments, n) {
      BaseReservedHas(snap, n);
    }
  }

  /** With plain names on the WAN and the segments, staying apart from them is what the base list asks. */
  lemma ApartMeans(snap: Snapshot, pattern: string)
    requires ValidName(TrimSpace(snap.wan)) && forall n :: OnSegment(snap.segments, n) ==> ValidName(n)
    ensures Apart(snap, pattern) <==> forall n :: n in BaseReserved(snap) && n != "" ==> NoneShared(n, pattern)
  {
    assert ValidName("lo");
    forall n ensures n in BaseReserved(snap) ==> ValidName(n) && (NoneShared(n, pattern) <==> !IfaceMatches(pattern, n)) {
      ReservedMeans(snap, n);
      if n in BaseReserved(snap) {
        NameIsPlain(n);
      }
    }
    forall n ensures n in BaseReserved(snap) <==> n == TrimSpace(snap.wan) || n == "lo" || OnSegment(snap.segments, n) {
      ReservedMeans(snap, n);
    }
  }

  /** A list passes its check exactly when each entry is a pattern, stays apart from the base and shares no name
      with the other list. */
  lemma PassesIff(snap: Snapshot, raw: seq<string>, others: seq<string>)
    requires ValidName(TrimSpace(snap.wan)) && forall n :: OnSegment(snap.segments, n) ==> ValidName(n)
    ensures Checked(raw, BaseReserved(snap) + others).Ok? <==>
      forall n :: Listed(raw, n) ==> ValidPattern(n) && Apart(snap, n) && forall o :: o in others && o != "" ==> NoneShared(o, n)
  {
    var reserved := BaseReserved(snap) + others;
    CheckedMeans(raw, reserved);
    forall n
      ensures (forall o, name :: o in reserved && o != "" && IfaceMatches(o, name) ==> !IfaceMatches(n, name))
        <==> Apart(snap, n) && forall o :: o in others && o != "" ==> NoneShared(o, n)
    {
      ApartMeans(snap, n);
      assert forall o :: o in reserved <==> o in BaseReserved(snap) || o in others;
    }
    assert forall i :: 0 <= i < |raw| && TrimSpace(raw[i]) != "" ==> Listed(raw, TrimSpace(raw[i]));
  }

  lemma NonBlankListed(raw: seq<string>, n: string)
    ensures n in NonBlank(raw) <==> Listed(raw, n)
    ensures Listed(NonBlank(raw), n) <==> Listed(raw, n)
  {
    NonBlankMeans(raw);
    var clean := NonBlank(raw);
    if Listed(clean, n) {
      var i :| 0 <= i < |clean| && TrimSpace(clean[i]) == n;
      CleanTwice(raw, clean[i]);
    }
    if n in clean {
      var i :| 0 <= i < |clean| && clean[i] == n;
      CleanTwice(raw, n);
      assert TrimSpace(clean[i]) == n;
    }
  }

  /** All WAN and segment names are plain names, and the WAN is not on a segment. */
  ghost predicate BaseFits(snap: Snapshot) {
    && ValidName(TrimSpace(snap.wan)) && snap.segments != []
    && forall n :: OnSegment(snap.segments, n) ==> ValidName(n) && n != TrimSpace(snap.wan)
  }

  /** A list of patterns that are legal and stay apart from the base. */
  ghost predicate PatternsFit(snap: Snapshot, raw: seq<string>) { forall n :: Listed(raw, n) ==> ValidPattern(n) && Apart(snap, n) }

  ghost predicate ListsApart(a: seq<string>, b: seq<string>) {
    forall m, n :: Listed(a, m) && Listed(b, n) ==> NoneShared(m, n)
  }

  ghost predicate DockerFits(std: Std, snap: Snapshot) {
    && (exists n :: Listed(Bridges(snap), n)) && (exists source :: SourceSays(std, snap.dockerSource, source))
    && PatternsFit(snap, Bridges(snap)) && ListsApart(snap.trusted, Bridges(snap))
  }

  lemma DockerPassesIff(snap: Snapshot)
    requires BaseFits(snap) && snap.dockerEnabled
    ensures DockerPatterns(snap).Ok? <==>
      (exists n :: Listed(Bridges(snap), n)) && PatternsFit(snap, Bridges(snap)) && ListsApart(snap.trusted, Bridges(snap))
  {
    var raw, others := EffectiveDocker(snap), NonBlank(snap.trusted);
    PassesIff(snap, raw, others);
    forall n ensures (n in raw <==> Listed(Bridges(snap), n)) && (Listed(raw, n) <==> Listed(Bridges(snap), n)) {
      NonBlankListed(Bridges(snap), n);
    }
    forall o ensures o in others <==> Listed(snap.trusted, o) {
      NonBlankListed(snap.trusted, o);
    }
    forall n ensures Checked(raw, BaseReserved(snap) + others).Ok? ==> (n in Checked(raw, BaseReserved(snap) + others).value <==> Listed(Bridges(snap), n)) {
      CheckedMeans(raw, BaseReserved(snap) + others);
      assert Listed(raw, n) <==> n != "" && exists i :: 0 <= i < |raw| && TrimSpace(raw[i]) == n;
    }
    var out := Checked(raw, BaseReserved(snap) + others);
    if out.Ok? && out.value != [] {
      assert out.value[0] in out.value;
    }
  }

  lemma TrustedPassesIff(snap: Snapshot)
    requires BaseFits(snap)
    ensures TrustedPatterns(snap).Ok? <==>
      PatternsFit(snap, snap.trusted) && (snap.dockerEnabled ==> ListsApart(snap.trusted, Bridges(snap)))
  {
    var others := if snap.dockerEnabled then EffectiveDocker(snap) else [];
    PassesIff(snap, snap.trusted, others);
    forall o ensures o in others <==> snap.dockerEnabled && Listed(Bridges(snap), o) {
      NonBlankListed(Bridges(snap), o);
    }
    assert forall a, b :: NoneShared(a, b) <==> NoneShared(b, a);
  }

  lemma ZonesByParts(std: Std, snap: Snapshot)
    ensures var wan := TrimSpace(snap.wan);
      ZonesOf(std, snap).Ok? <==>
        && ValidName(wan) && Lans(snap.segments, wan).Ok? && Lans(snap.segments, wan).value != []
        && (snap.dockerEnabled ==> DockerPatterns(snap).Ok? && ParseSource(std, snap.dockerSource).Ok?)
        && TrustedPatterns(snap).Ok?
  {
  }

  lemma BaseFitsIff(snap: Snapshot)
    ensures var wan := TrimSpace(snap.wan);
      BaseFits(snap) <==> ValidName(wan) && Lans(snap.segments, wan).Ok? && Lans(snap.segments, wan).value != []
  {
    LansIff(snap.segments, TrimSpace(snap.wan));
  }

  lemma DockerFitsIff(std: Std, snap: Snapshot)
    requires BaseFits(snap) && snap.dockerEnabled
    ensures DockerFits(std, snap) <==> DockerPatterns(snap).Ok? && ParseSource(std, snap.dockerSource).Ok?
  {
    DockerPassesIff(snap);
    if ParseSource(std, snap.dockerSource).Ok? {
      SourceParses(std, snap.dockerSource, ParseSource(std, snap.dockerSource).value);
    }
    if source :| SourceSays(std, snap.dockerSource, source) {
      SourceParses(std, snap.dockerSource, source);
    }
  }

  lemma ZonesIff(std: Std, snap: Snapshot)
    ensures ZonesOf(std, snap).Ok? <==>
      BaseFits(snap) && PatternsFit(snap, snap.trusted) && (snap.dockerEnabled ==> DockerFits(std, snap))
  {
    ZonesByParts(std, snap);
    BaseFitsIff(snap);
    if BaseFits(snap) {
      TrustedPassesIff(snap);
      if snap.dockerEnabled {
        DockerFitsIff(std, snap);
      }
    }
  }

  /** Exactly which configurations render: plain names for the WAN and for at least one segment, the WAN on none
      of them; legal trusted patterns that match none of these names nor loopback; the same for the bridges when
      Docker is on, of which there is at least one and none shares a name with a trusted pattern, and a source
      that means something; and enabled rules that all mean something. */
  lemma RendersIff(std: Std, snap: Snapshot)
    ensures Ruled(std, snap).Ok? <==>
      && BaseFits(snap) && PatternsFit(snap, snap.trusted) && (snap.dockerEnabled ==> DockerFits(std, snap))
      && AllDescribed(std, snap.rules, snap.segments)
  {
    ZonesIff(std, snap);
    CompilesIff(std, snap.rules, snap.segments, TrimSpace(snap.wan));
    AllDescribedIff(std, snap.rules, snap.segments);
  }

  /** Every enabled rule means something. */
  ghost predicate AllDescribed(std: Std, rules: seq<PortRule>, segments: seq<Segment>) {
    forall i :: 0 <= i < |rules| && !rules[i].disabled ==> exists q :: Describes(std, rules[i], segments, q)
  }

  lemma AllDescribedIff(std: Std, rules: seq<PortRule>, segments: seq<Segment>)
    ensures AllDescribed(std, rules, segments) <==> AllNormalize(std, rules, segments)
  {
    forall i | 0 <= i < |rules| ensures Normalize(std, rules[i], segments).Ok? <==> exists q :: Describes(std, rules[i], segments, q) {
      DescribedIff(std, rules[i], segments);
    }
  }

  lemma DescribedIff(std: Std, r: PortRule, segments: seq<Segment>)
    ensures Normalize(std, r, segments).Ok? <==> exists q :: Describes(std, r, segments, q)
  {
    if Normalize(std, r, segments).Ok? {
      NormalizeIff(std, r, segments, Normalize(std, r, segments).value);
    }
    if q :| Describes(std, r, segments, q) {
      NormalizeIff(std, r, segments, q);
    }
  }
}
