/** The renderer: a snapshot of the configuration compiled to two nftables tables, as rules rather than text. */
module Firewall {
  import opened Basics
  import opened Ifaces
  import opened PortRules

  // ----- the target language -----

  /** What a rule may test: iifname and oifname against any of some names or prefix wildcards, the
      connection's state, status and protocol, addresses and ports. */
  datatype Cond =
    | Iif(patterns: seq<string>) | Oif(patterns: seq<string>)
    | EstablishedOrRelated | InvalidState | DnatStatus | Icmp | LocalAddress
    | Saddr(source: Source) | Daddr(ip: Addr) | Dport(proto: Proto, ports: Ports)

  datatype Verdict = Accept | Drop | Dnat(to: Addr, port: Option<Ports>) | Masquerade

  datatype Rule = Rule(conds: seq<Cond>, verdict: Verdict)

  /** The four chains: input and forward drop by default, prerouting and postrouting accept. */
  datatype Ruleset = Ruleset(input: seq<Rule>, forward: seq<Rule>, prerouting: seq<Rule>, postrouting: seq<Rule>)

  datatype RenderError =
    | BadWAN | BadSegment(iface: string) | SegmentIsWAN(iface: string) | NoSegments
    | DockerError(error: PatternError) | DockerSource(why: RuleError) | TrustedError(error: PatternError)
    | BadRule(id: string, why: RuleError)

  // ----- zones -----

  /** The LAN interfaces, each once, in order; every segment needs a valid one that is not the WAN's. */
  function Lans(segments: seq<Segment>, wan: string): Result<seq<string>, RenderError> {
    if segments == [] then Ok([])
    else match Lans(segments[..|segments| - 1], wan)
      case Err(e) => Err(e)
      case Ok(before) =>
        var name := TrimSpace(segments[|segments| - 1].iface);
        if !ValidName(name) then Err(BadSegment(name))
        else if name == wan then Err(SegmentIsWAN(name))
        else Ok(if name in before then before else before + [name])
  }

  /** Names no trusted-style pattern may match: the WAN, loopback and the LAN segments. */
  function BaseReserved(snap: Snapshot): seq<string> {
    [TrimSpace(snap.wan), "lo"] + seq(|snap.segments|, i requires 0 <= i < |snap.segments| => TrimSpace(snap.segments[i].iface))
  }

  function NonBlank(raw: seq<string>): seq<string> {
    if raw == [] then []
    else NonBlank(raw[..|raw| - 1]) + OneNonBlank(TrimSpace(raw[|raw| - 1]))
  }

  function OneNonBlank(s: string): seq<string> { if s == "" then [] else [s] }

  const DEFAULT_DOCKER: seq<string> := ["docker0", "br-*"]

  /** The configured bridge patterns, or the defaults when none are configured. */
  function EffectiveDocker(snap: Snapshot): seq<string> {
    NonBlank(if snap.dockerInterfaces == [] then DEFAULT_DOCKER else snap.dockerInterfaces)
  }

  function DockerPatterns(snap: Snapshot): Patterns {
    var reserved := BaseReserved(snap) + if snap.dockerEnabled then NonBlank(snap.trusted) else [];
    match Checked(EffectiveDocker(snap), reserved)
    case Err(e) => Err(e)
    case Ok(out) => if out == [] then Err(NoPatterns) else Ok(out)
  }

  function TrustedPatterns(snap: Snapshot): Patterns {
    Checked(snap.trusted, BaseReserved(snap) + if snap.dockerEnabled then EffectiveDocker(snap) else [])
  }

  /** The interfaces of a snapshot that renders, and who may use published Docker ports. */
  datatype Zones = Zones(wan: string, lans: seq<string>, docker: seq<string>, dockerSource: Source, trusted: seq<string>)

  function ZonesOf(std: Std, snap: Snapshot): Result<Zones, RenderError> {
    var wan := TrimSpace(snap.wan);
    if !ValidName(wan) then Err(BadWAN)
    else match Lans(snap.segments, wan)
      case Err(e) => Err(e)
      case Ok(lans) =>
        if lans == [] then Err(NoSegments)
        else match (if snap.dockerEnabled then DockerPatterns(snap) else Ok([]))
          case Err(e) => Err(DockerError(e))
          case Ok(docker) =>
            match (if snap.dockerEnabled then ParseSource(std, snap.dockerSource) else Ok(Anyone))
            case Err(e) => Err(DockerSource(e))
            case Ok(source) =>
              match TrustedPatterns(snap)
              case Err(e) => Err(TrustedError(e))
              case Ok(trusted) => Ok(Zones(wan, lans, docker, source, trusted))
  }

  // ----- port rules -----

  datatype Compiled = Compiled(input: seq<Rule>, forward: seq<Rule>, dnat: seq<Rule>)

  function InputRule(wan: string, p: Parsed, proto: Proto): Rule {
    Rule([Iif([wan]), Saddr(p.source), Dport(proto, p.port)], Accept)
  }

  function ForwardRule(wan: string, p: Parsed, proto: Proto): Rule {
    Rule([Iif([wan]), Saddr(p.source), Daddr(p.toIP), Dport(proto, p.PostNATPort())], Accept)
  }

  function DnatRule(wan: string, p: Parsed, proto: Proto): Rule {
    Rule([Iif([wan]), LocalAddress, Saddr(p.source), Dport(proto, p.port)], Dnat(p.toIP, p.toPort))
  }

  /** What one normalised rule adds, one line for each of its protocols. */
  function Lines(wan: string, p: Parsed, protos: seq<Proto>, c: Compiled): Compiled {
    if protos == [] then c
    else
      var before, proto := Lines(wan, p, protos[..|protos| - 1], c), protos[|protos| - 1];
      match p.kind
      case Input => before.(input := before.input + [InputRule(wan, p, proto)])
      case Forward => before.(forward := before.forward + [ForwardRule(wan, p, proto)], dnat := before.dnat + [DnatRule(wan, p, proto)])
  }

  /** All enabled rules in order; the first that is not valid is reported. */
  function CompileRules(std: Std, rules: seq<PortRule>, segments: seq<Segment>, wan: string): Result<Compiled, RenderError> {
    if rules == [] then Ok(Compiled([], [], []))
    else match CompileRules(std, rules[..|rules| - 1], segments, wan)
      case Err(e) => Err(e)
      case Ok(c) =>
        var r := rules[|rules| - 1];
        if r.disabled then Ok(c)
        else match Normalize(std, r, segments)
          case Err(e) => Err(BadRule(r.id, e))
          case Ok(p) => Ok(Lines(wan, p, p.protos, c))
  }

  // ----- the chains -----

  function AcceptAll(patterns: seq<string>): seq<Rule> {
    if patterns == [] then []
    else AcceptAll(patterns[..|patterns| - 1]) + [Rule([Iif([patterns[|patterns| - 1]])], Accept)]
  }

  function InputHead(z: Zones): seq<Rule> {
    [Rule([Iif(["lo"])], Accept),
     Rule([EstablishedOrRelated], Accept),
     Rule([InvalidState], Drop),
     Rule([Icmp], Accept),
     Rule([Iif(z.lans)], Accept)]
  }

  function ForwardHead(z: Zones): seq<Rule> {
    [Rule([EstablishedOrRelated], Accept),
     Rule([InvalidState], Drop),
     Rule([Iif(z.lans), Oif(z.lans)], Accept),
     Rule([Iif(z.lans), Oif([z.wan])], Accept)]
  }

  /** One bridge: its containers, the LANs and the WAN are open to it; published ports only towards it. */
  function DockerBridge(z: Zones, d: string): seq<Rule> {
    [Rule([Iif([d]), Oif([d])], Accept),
     Rule([Iif([d]), Oif(z.lans)], Accept),
     Rule([Iif([d]), Oif([z.wan])], Accept),
     Rule([Iif(z.lans), Oif([d]), DnatStatus], Accept),
     Rule([Iif([z.wan]), Oif([d]), Saddr(z.dockerSource), DnatStatus], Accept)]
  }

  function DockerRules(z: Zones, bridges: seq<string>): seq<Rule> {
    if bridges == [] then [] else DockerRules(z, bridges[..|bridges| - 1]) + DockerBridge(z, bridges[|bridges| - 1])
  }

  function TrustedToDocker(t: string, bridges: seq<string>): seq<Rule> {
    if bridges == [] then []
    else TrustedToDocker(t, bridges[..|bridges| - 1]) + [Rule([Iif([t]), Oif([bridges[|bridges| - 1]]), DnatStatus], Accept)]
  }

  function TrustedRules(z: Zones, trusted: seq<string>): seq<Rule> {
    if trusted == [] then []
    else
      var t := trusted[|trusted| - 1];
      TrustedRules(z, trusted[..|trusted| - 1])
      + ([Rule([Iif([t]), Oif(z.lans)], Accept), Rule([Iif([t]), Oif([z.wan])], Accept)] + TrustedToDocker(t, z.docker))
  }

  function Chains(z: Zones, c: Compiled): Ruleset {
    Ruleset(
      InputHead(z) + AcceptAll(z.docker) + AcceptAll(z.trusted) + c.input,
      ForwardHead(z) + DockerRules(z, z.docker) + TrustedRules(z, z.trusted) + c.forward,
      c.dnat,
      [Rule([Oif([z.wan])], Masquerade)])
  }

  type Rendered = Result<Ruleset, RenderError>

  /** What a snapshot compiles to. */
  function Ruled(std: Std, snap: Snapshot): Rendered {
    match ZonesOf(std, snap)
    case Err(e) => Err(e)
    case Ok(z) =>
      match CompileRules(std, snap.rules, snap.segments, z.wan)
      case Err(e) => Err(e)
      case Ok(c) => Ok(Chains(z, c))
  }

  // ----- the renderer's loops -----

  method CollectLans(segments: seq<Segment>, wan: string) returns (r: Result<seq<string>, RenderError>)
    ensures r == Lans(segments, wan)
  {
    var lans: seq<string> := [];
    var seen: set<string> := {};
    for i := 0 to |segments|
      invariant Lans(segments[..i], wan) == Ok(lans)
      invariant forall n :: n in seen <==> n in lans
    {
      var name := TrimSpace(segments[i].iface);
      LansStep(segments, i, wan);
      if !ValidName(name) {
        LansFail(segments, i + 1, wan);
        return Err(BadSegment(name));
      }
      if name == wan {
        LansFail(segments, i + 1, wan);
        return Err(SegmentIsWAN(name));
      }
      if name !in seen {
        seen := seen + {name};
        lans := lans + [name];
      }
    }
    assert segments[..|segments|] == segments;
    return Ok(lans);
  }

  lemma LansStep(segments: seq<Segment>, i: nat, wan: string)
    requires i < |segments| && Lans(segments[..i], wan).Ok?
    ensures var before, name := Lans(segments[..i], wan).value, TrimSpace(segments[i].iface);
      Lans(segments[..i + 1], wan) ==
        if !ValidName(name) then Err(BadSegment(name))
        else if name == wan then Err(SegmentIsWAN(name))
        else Ok(if name in before then before else before + [name])
  {
    assert segments[..i + 1][..i] == segments[..i] && segments[..i + 1][i] == segments[i];
  }

  lemma {:induction false} LansFail(segments: seq<Segment>, i: nat, wan: string)
    requires i <= |segments| && Lans(segments[..i], wan).Err?
    ensures Lans(segments, wan) == Lans(segments[..i], wan)
    decreases |segments| - i
  {
    if i < |segments| {
      assert segments[..i + 1][..i] == segments[..i];
      LansFail(segments, i + 1, wan);
    } else {
      assert segments[..i] == segments;
    }
  }

  method CollectDocker(snap: Snapshot) returns (out: seq<string>)
    ensures out == EffectiveDocker(snap)
  {
    var raw := if |snap.dockerInterfaces| == 0 then DEFAULT_DOCKER else snap.dockerInterfaces;
    out := Trimmed(raw);
  }

  method Trimmed(raw: seq<string>) returns (out: seq<string>)
    ensures out == NonBlank(raw)
  {
    out := [];
    for i := 0 to |raw|
      invariant out == NonBlank(raw[..i])
    {
      assert raw[..i + 1][..i] == raw[..i];
      var p := TrimSpace(raw[i]);
      if p != "" {
        out := out + [p];
      }
    }
    assert raw[..|raw|] == raw;
  }

  method CollectReserved(snap: Snapshot) returns (out: seq<string>)
    ensures out == BaseReserved(snap)
  {
    out := [TrimSpace(snap.wan), "lo"];
    for i := 0 to |snap.segments|
      invariant out == BaseReserved(snap)[..i + 2]
    {
      out := out + [TrimSpace(snap.segments[i].iface)];
    }
  }

  method DockerInterfaces(snap: Snapshot) returns (r: Patterns)
    ensures r == DockerPatterns(snap)
  {
    var reserved := CollectReserved(snap);
    if snap.dockerEnabled {
      var trusted := Trimmed(snap.trusted);
      reserved := reserved + trusted;
    } else {
      assert reserved + [] == reserved;
    }
    var effective := CollectDocker(snap);
    r := ValidatePatterns(effective, reserved);
    if r.Ok? && |r.value| == 0 {
      r := Err(NoPatterns);
    }
  }

  method TrustedInterfaces(snap: Snapshot) returns (r: Patterns)
    ensures r == TrustedPatterns(snap)
  {
    var reserved := CollectReserved(snap);
    if snap.dockerEnabled {
      var docker := CollectDocker(snap);
      reserved := reserved + docker;
    } else {
      assert reserved + [] == reserved;
    }
    r := ValidatePatterns(snap.trusted, reserved);
  }

  lemma CompileStep(std: Std, rules: seq<PortRule>, i: nat, segments: seq<Segment>, wan: string)
    requires i < |rules| && CompileRules(std, rules[..i], segments, wan).Ok?
    ensures var c := CompileRules(std, rules[..i], segments, wan).value;
      CompileRules(std, rules[..i + 1], segments, wan) ==
        if rules[i].disabled then Ok(c)
        else match Normalize(std, rules[i], segments)
          case Err(e) => Err(BadRule(rules[i].id, e))
          case Ok(p) => Ok(Lines(wan, p, p.protos, c))
  {
    assert rules[..i + 1][..i] == rules[..i] && rules[..i + 1][i] == rules[i];
  }

  lemma {:induction false} CompileFail(std: Std, rules: seq<PortRule>, i: nat, segments: seq<Segment>, wan: string)
    requires i <= |rules| && CompileRules(std, rules[..i], segments, wan).Err?
    ensures CompileRules(std, rules, segments, wan) == CompileRules(std, rules[..i], segments, wan)
    decreases |rules| - i
  {
    if i < |rules| {
      assert rules[..i + 1][..i] == rules[..i];
      CompileFail(std, rules, i + 1, segments, wan);
    } else {
      assert rules[..i] == rules;
    }
  }

  method CollectRules(std: Std, rules: seq<PortRule>, segments: seq<Segment>, wan: string) returns (r: Result<Compiled, RenderError>)
    ensures r == CompileRules(std, rules, segments, wan)
  {
    var c := Compiled([], [], []);
    for i := 0 to |rules|
      invariant CompileRules(std, rules[..i], segments, wan) == Ok(c)
    {
      CompileStep(std, rules, i, segments, wan);
      if rules[i].disabled {
        continue;
      }
      var p := Normalize(std, rules[i], segments);
      if p.Err? {
        CompileFail(std, rules, i + 1, segments, wan);
        return Err(BadRule(rules[i].id, p.error));
      }
      c := AddLines(wan, p.value, c);
    }
    assert rules[..|rules|] == rules;
    return Ok(c);
  }

  method AddLines(wan: string, p: Parsed, before: Compiled) returns (c: Compiled)
    ensures c == Lines(wan, p, p.protos, before)
  {
    c := before;
    for i := 0 to |p.protos|
      invariant c == Lines(wan, p, p.protos[..i], before)
    {
      var proto := p.protos[i];
      assert p.protos[..i + 1][..i] == p.protos[..i] && p.protos[..i + 1][i] == proto;
      match p.kind
      case Input =>
        c := c.(input := c.input + [InputRule(wan, p, proto)]);
      case Forward =>
        c := c.(forward := c.forward + [ForwardRule(wan, p, proto)], dnat := c.dnat + [DnatRule(wan, p, proto)]);
    }
    assert p.protos[..|p.protos|] == p.protos;
  }

  method WriteAcceptAll(patterns: seq<string>, chain: seq<Rule>) returns (b: seq<Rule>)
    ensures b == chain + AcceptAll(patterns)
  {
    b := chain;
    for i := 0 to |patterns|
      invariant b == chain + AcceptAll(patterns[..i])
    {
      assert patterns[..i + 1][..i] == patterns[..i];
      b := b + [Rule([Iif([patterns[i]])], Accept)];
    }
    assert patterns[..|patterns|] == patterns;
  }

  method WriteDocker(z: Zones, chain: seq<Rule>) returns (b: seq<Rule>)
    ensures b == chain + DockerRules(z, z.docker)
  {
    b := chain;
    for i := 0 to |z.docker|
      invariant b == chain + DockerRules(z, z.docker[..i])
    {
      assert z.docker[..i + 1][..i] == z.docker[..i];
      b := b + DockerBridge(z, z.docker[i]);
    }
    assert z.docker[..|z.docker|] == z.docker;
  }

  method WriteTrusted(z: Zones, chain: seq<Rule>) returns (b: seq<Rule>)
    ensures b == chain + TrustedRules(z, z.trusted)
  {
    b := chain;
    for i := 0 to |z.trusted|
      invariant b == chain + TrustedRules(z, z.trusted[..i])
    {
      assert z.trusted[..i + 1][..i] == z.trusted[..i];
      var lines := TrustedLines(z, z.trusted[i]);
      b := b + lines;
    }
    assert z.trusted[..|z.trusted|] == z.trusted;
  }

  /** The inner loop: one trusted interface against every bridge. */
  method TrustedLines(z: Zones, t: string) returns (lines: seq<Rule>)
    ensures lines == [Rule([Iif([t]), Oif(z.lans)], Accept), Rule([Iif([t]), Oif([z.wan])], Accept)] + TrustedToDocker(t, z.docker)
  {
    lines := [Rule([Iif([t]), Oif(z.lans)], Accept), Rule([Iif([t]), Oif([z.wan])], Accept)];
    ghost var head := lines;
    for j := 0 to |z.docker|
      invariant lines == head + TrustedToDocker(t, z.docker[..j])
    {
      assert z.docker[..j + 1][..j] == z.docker[..j];
      lines := lines + [Rule([Iif([t]), Oif([z.docker[j]]), DnatStatus], Accept)];
    }
    assert z.docker[..|z.docker|] == z.docker;
  }

  method CollectZones(std: Std, snap: Snapshot) returns (r: Result<Zones, RenderError>)
    ensures r == ZonesOf(std, snap)
  {
    var wan := TrimSpace(snap.wan);
    if !ValidName(wan) {
      return Err(BadWAN);
    }
    var lans := CollectLans(snap.segments, wan);
    if lans.Err? {
      return Err(lans.error);
    }
    if |lans.value| == 0 {
      return Err(NoSegments);
    }
    var docker: seq<string> := [];
    var source := Anyone;
    if snap.dockerEnabled {
      var d := DockerInterfaces(snap);
      if d.Err? {
        return Err(DockerError(d.error));
      }
      docker := d.value;
      var s := ParseSource(std, snap.dockerSource);
      if s.Err? {
        return Err(DockerSource(s.error));
      }
      source := s.value;
    }
    var trusted := TrustedInterfaces(snap);
    if trusted.Err? {
      return Err(TrustedError(trusted.error));
    }
    return Ok(Zones(wan, lans.value, docker, source, trusted.value));
  }

  /** The renderer: collect the interfaces, compile the rules, write the chains. */
  method Render(std: Std, snap: Snapshot) returns (r: Rendered)
    ensures r == Ruled(std, snap)
  {
    var zones := CollectZones(std, snap);
    if zones.Err? {
      return Err(zones.error);
    }
    var z := zones.value;
    var rules := CollectRules(std, snap.rules, snap.segments, z.wan);
    if rules.Err? {
      return Err(rules.error);
    }
    var c := rules.value;
    var input := InputHead(z);
    input := WriteAcceptAll(z.docker, input);
    input := WriteAcceptAll(z.trusted, input);
    input := input + c.input;
    var forward := ForwardHead(z);
    if 0 < |z.docker| {
      forward := WriteDocker(z, forward);
    } else {
      assert forward + DockerRules(z, z.docker) == forward;
    }
    ghost var sofar := forward;
    if 0 < |z.trusted| {
      forward := WriteTrusted(z, forward);
    } else {
      assert sofar + TrustedRules(z, z.trusted) == sofar;
    }
    forward := forward + c.forward;
    return Ok(Ruleset(input, forward, c.dnat, [Rule([Oif([z.wan])], Masquerade)]));
  }
}
