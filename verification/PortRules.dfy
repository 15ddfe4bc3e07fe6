/** Port rules: parsing and normalising what the user typed, before anything is rendered. */
module PortRules {
  import opened Basics
  import opened Ifaces

  type Addr = bv32

  datatype PortRule = PortRule(
    id: string, name: string, kind: string, protocol: string, port: string,
    toIP: string, toPort: string, source: string, disabled: bool)

  datatype Segment = Segment(name: string, iface: string, address: string, mask: string)

  datatype Snapshot = Snapshot(
    wan: string, segments: seq<Segment>, enabled: bool, rules: seq<PortRule>,
    dockerEnabled: bool, dockerInterfaces: seq<string>, dockerSource: string, trusted: seq<string>)

  /** What is taken from the standard library: strings.ToLower, net.ParseIP (None also for an address that
      is not IPv4) and net.ParseCIDR (the address, the network's address and its mask). */
  datatype Std = Std(
    lower: string -> string,
    parseIP: string -> Option<Addr>,
    parseCIDR: string -> Option<(Addr, Addr, Addr)>)

  datatype Proto = TCP | UDP | OtherProto(number: nat)

  /** An inclusive range of ports. */
  datatype Ports = Ports(lo: int, hi: int) {
    predicate IsRange() { lo != hi }

    predicate Contains(port: int) { lo <= port <= hi }
  }

  datatype Source = Anyone | Host(ip: Addr) | Network(net: Addr, mask: Addr)

  datatype Kind = Forward | Input

  datatype RuleError =
    | BadKind | BadProtocol | PortEmpty | PortInvalid | PortsBackwards | BadSource | HostBits
    | BadTarget | TargetOutside | TargetIsRouter | RangeRemapped

  datatype Parsed = Parsed(
    kind: Kind, protos: seq<Proto>, port: Ports, source: Source, toIP: Addr, toPort: Option<Ports>)
  {
    /** The destination port as the forward chain sees it, after the rewrite. */
    function PostNATPort(): Ports { if toPort.Some? then toPort.value else port }
  }

  // ----- ports -----

  predicate IsDigit(c: char) { '0' <= c <= '9' }

  predicate AllDigits(s: string) { forall i :: 0 <= i < |s| ==> IsDigit(s[i]) }

  /** strconv.Atoi on digits, without its width limit: what it rejects as too wide is above 65535 anyway. */
  function Value(s: string): nat
    requires AllDigits(s)
  {
    if s == "" then 0 else Value(s[..|s| - 1]) * 10 + (s[|s| - 1] as int - '0' as int)
  }

  function ParseSinglePort(text: string): Result<int, RuleError> {
    var s := TrimSpace(text);
    if s == "" then Err(PortEmpty)
    else if !AllDigits(s) then Err(PortInvalid)
    else if Value(s) < 1 || 65535 < Value(s) then Err(PortInvalid)
    else Ok(Value(s))
  }

  /** strings.Cut(s, "-"). */
  function Cut(s: string): (string, Option<string>) {
    if s == "" then ("", None)
    else if s[0] == '-' then ("", Some(s[1..]))
    else var (a, b) := Cut(s[1..]); ([s[0]] + a, b)
  }

  function ParsePortSpec(text: string): Result<Ports, RuleError> {
    var (lo, hi) := Cut(TrimSpace(text));
    match ParseSinglePort(lo)
    case Err(e) => Err(e)
    case Ok(a) =>
      match hi
      case None => Ok(Ports(a, a))
      case Some(h) =>
        match ParseSinglePort(h)
        case Err(e) => Err(e)
        case Ok(b) => if a > b then Err(PortsBackwards) else Ok(Ports(a, b))
  }

  predicate ValidPorts(p: Ports) { 1 <= p.lo <= p.hi <= 65535 }

  lemma PortSpecIsValid(text: string)
    requires ParsePortSpec(text).Ok?
    ensures ValidPorts(ParsePortSpec(text).value)
  {
  }

  /** strconv.Itoa of a natural number. */
  function Decimal(n: nat): string {
    var digit := [('0' as int + n % 10) as char];
    if n < 10 then digit else Decimal(n / 10) + digit
  }

  function ShowPorts(p: Ports): string
    requires ValidPorts(p)
  {
    if p.lo == p.hi then Decimal(p.lo) else Decimal(p.lo) + "-" + Decimal(p.hi)
  }

  lemma {:induction false} DecimalValue(n: nat)
    ensures Decimal(n) != "" && AllDigits(Decimal(n)) && Value(Decimal(n)) == n
  {
    if 10 <= n {
      DecimalValue(n / 10);
      assert Decimal(n)[..|Decimal(n)| - 1] == Decimal(n / 10);
    } else {
      assert Decimal(n)[..0] == "";
    }
  }

  lemma Untrimmed(s: string)
    requires s != "" && !IsSpace(s[0]) && !IsSpace(s[|s| - 1])
    ensures TrimSpace(s) == s
  {
  }

  lemma {:induction false} CutDigits(s: string, rest: string)
    requires AllDigits(s)
    ensures Cut(s) == (s, None) && Cut(s + "-" + rest) == (s, Some(rest))
  {
    if s == "" {
      assert s + "-" + rest == "-" + rest;
    } else {
      assert (s + "-" + rest)[1..] == s[1..] + "-" + rest && (s + "-" + rest)[0] == s[0];
      assert s == [s[0]] + s[1..];
      CutDigits(s[1..], rest);
    }
  }

  /** What the renderer writes for a port or a range is read back as the same ports. */
  lemma PortsRoundTrip(p: Ports)
    requires ValidPorts(p)
    ensures ParsePortSpec(ShowPorts(p)) == Ok(p)
  {
    var lo, hi := Decimal(p.lo), Decimal(p.hi);
    DecimalValue(p.lo);
    DecimalValue(p.hi);
    Untrimmed(lo);
    Untrimmed(hi);
    Untrimmed(ShowPorts(p));
    CutDigits(lo, hi);
  }

  // ----- sources, protocols, targets -----

  /** An IPv4 address, or a CIDR whose address is its network's: host bits are refused. */
  function ParseSource(std: Std, text: string): Result<Source, RuleError> {
    var s := TrimSpace(text);
    if s == "" then Ok(Anyone)
    else if '/' in s then
      match std.parseCIDR(s)
      case None => Err(BadSource)
      case Some((ip, net, mask)) => if ip != net then Err(HostBits) else Ok(Network(net, mask))
    else match std.parseIP(s)
      case None => Err(BadSource)
      case Some(ip) => Ok(Host(ip))
  }

  function ParseProtocols(std: Std, text: string): Result<seq<Proto>, RuleError> {
    var s := std.lower(TrimSpace(text));
    if s == "tcp" then Ok([TCP])
    else if s == "udp" then Ok([UDP])
    else if s == "both" then Ok([TCP, UDP])
    else Err(BadProtocol)
  }

  function ParseKind(std: Std, text: string): Result<Kind, RuleError> {
    var s := std.lower(TrimSpace(text));
    if s == "forward" then Ok(Forward) else if s == "input" then Ok(Input) else Err(BadKind)
  }

  predicate SameNetwork(a: Addr, b: Addr, mask: Addr) { a & mask == b & mask }

  /** The segment's own address and mask, if both are IPv4. */
  predicate Holds(std: Std, s: Segment, ip: Addr) {
    match (std.parseIP(s.address), std.parseIP(s.mask))
    case (Some(a), Some(m)) => SameNetwork(a, ip, m)
    case _ => false
  }

  /** The first segment that contains the address. */
  function FirstHolding(std: Std, segments: seq<Segment>, ip: Addr): Option<Segment> {
    if segments == [] then None
    else if Holds(std, segments[0], ip) then Some(segments[0])
    else FirstHolding(std, segments[1..], ip)
  }

  lemma FirstHoldingStep(std: Std, segments: seq<Segment>, i: nat, ip: Addr)
    requires i < |segments|
    ensures FirstHolding(std, segments[i..], ip) ==
      if Holds(std, segments[i], ip) then Some(segments[i]) else FirstHolding(std, segments[i + 1..], ip)
  {
    assert segments[i..][0] == segments[i] && segments[i..][1..] == segments[i + 1..];
  }

  method SegmentContaining(std: Std, segments: seq<Segment>, ip: Addr) returns (r: Option<Segment>)
    ensures r == FirstHolding(std, segments, ip)
  {
    ghost var want := FirstHolding(std, segments, ip);
    assert segments[0..] == segments;
    for i := 0 to |segments|
      invariant FirstHolding(std, segments[i..], ip) == want
    {
      var s := segments[i];
      FirstHoldingStep(std, segments, i, ip);
      var addr, mask := std.parseIP(s.address), std.parseIP(s.mask);
      if addr.None? || mask.None? {
        continue;
      }
      if SameNetwork(addr.value, ip, mask.value) {
        return Some(s);
      }
    }
    return None;
  }

  /** A forward target: an IPv4 address in a segment, other than the first such segment's own. */
  function ParseTarget(std: Std, text: string, segments: seq<Segment>): Result<Addr, RuleError> {
    match std.parseIP(TrimSpace(text))
    case None => Err(BadTarget)
    case Some(ip) =>
      match FirstHolding(std, segments, ip)
      case None => Err(TargetOutside)
      case Some(seg) => if std.parseIP(seg.address) == Some(ip) then Err(TargetIsRouter) else Ok(ip)
  }

  /** Blank keeps the port; a range cannot be remapped. */
  function ParseToPort(text: string, port: Ports): Result<Option<Ports>, RuleError> {
    if TrimSpace(text) == "" then Ok(None)
    else if port.IsRange() then Err(RangeRemapped)
    else match ParseSinglePort(text)
      case Err(e) => Err(e)
      case Ok(n) => Ok(Some(Ports(n, n)))
  }

  /** The parts every rule has, in the order they are checked. */
  function ParseCommon(std: Std, r: PortRule): Result<Parsed, RuleError> {
    match ParseKind(std, r.kind)
    case Err(e) => Err(e)
    case Ok(kind) =>
      match ParseProtocols(std, r.protocol)
      case Err(e) => Err(e)
      case Ok(protos) =>
        match ParsePortSpec(r.port)
        case Err(e) => Err(e)
        case Ok(port) =>
          match ParseSource(std, r.source)
          case Err(e) => Err(e)
          case Ok(source) => Ok(Parsed(kind, protos, port, source, 0, None))
  }

  function Normalize(std: Std, r: PortRule, segments: seq<Segment>): Result<Parsed, RuleError> {
    match ParseCommon(std, r)
    case Err(e) => Err(e)
    case Ok(p) =>
      if p.kind == Input then Ok(p)
      else match ParseTarget(std, r.toIP, segments)
        case Err(e) => Err(e)
        case Ok(ip) =>
          match ParseToPort(r.toPort, p.port)
          case Err(e) => Err(e)
          case Ok(toPort) => Ok(p.(toIP := ip, toPort := toPort))
  }

  /** What every normalised rule satisfies. */
  predicate WellFormed(std: Std, p: Parsed, segments: seq<Segment>) {
    && (p.protos == [TCP] || p.protos == [UDP] || p.protos == [TCP, UDP])
    && ValidPorts(p.port) && ValidPorts(p.PostNATPort())
    && (p.kind == Input ==> p.toPort == None)
    && (p.toPort.Some? ==> !p.port.IsRange() && !p.toPort.value.IsRange())
    && (p.kind == Forward ==> TargetOk(std, p.toIP, segments))
  }

  /** The target lies in a configured segment and is not the own address of the first one it lies in. */
  predicate TargetOk(std: Std, ip: Addr, segments: seq<Segment>) {
    var seg := FirstHolding(std, segments, ip);
    seg.Some? && seg.value in segments && Holds(std, seg.value, ip) && std.parseIP(seg.value.address) != Some(ip)
  }

  lemma {:induction false} FirstHoldingMeans(std: Std, segments: seq<Segment>, ip: Addr)
    ensures var r := FirstHolding(std, segments, ip);
      && (r.None? <==> forall s :: s in segments ==> !Holds(std, s, ip))
      && (r.Some? ==> r.value in segments && Holds(std, r.value, ip))
  {
    if segments != [] {
      FirstHoldingMeans(std, segments[1..], ip);
      assert segments == [segments[0]] + segments[1..];
    }
  }

  lemma NormalizeMeans(std: Std, r: PortRule, segments: seq<Segment>)
    requires Normalize(std, r, segments).Ok?
    ensures WellFormed(std, Normalize(std, r, segments).value, segments)
  {
    var p := Normalize(std, r, segments).value;
    FirstHoldingMeans(std, segments, p.toIP);
    PortSpecIsValid(r.port);
  }

  // ----- what the user typed, and what it means -----

  /** A port in decimal digits, blanks around it aside. */
  predicate Numeral(text: string, n: int) {
    var s := TrimSpace(text); s != "" && AllDigits(s) && Value(s) == n && 1 <= n <= 65535
  }

  /** One port, or two with a hyphen between them that do not run backwards. */
  ghost predicate PortsWritten(text: string, p: Ports) {
    var s := TrimSpace(text);
    || ('-' !in s && Numeral(s, p.lo) && p.hi == p.lo)
    || exists a, b :: s == a + "-" + b && '-' !in a && Numeral(a, p.lo) && Numeral(b, p.hi) && p.lo <= p.hi
  }

  lemma {:induction false} CutMeans(s: string)
    ensures var (a, b) := Cut(s);
      '-' !in a && if b.None? then s == a else s == a + "-" + b.value
  {
    if s != "" && s[0] != '-' {
      CutMeans(s[1..]);
      assert s == [s[0]] + s[1..];
    }
  }

  lemma {:induction false} CutAt(a: string, b: string)
    requires '-' !in a
    ensures Cut(a + "-" + b) == (a, Some(b)) && Cut(a) == (a, None)
  {
    var s := a + "-" + b;
    if a == "" {
      assert s == "-" + b;
    } else {
      assert a == [a[0]] + a[1..] && s[0] == a[0] && s[1..] == a[1..] + "-" + b;
      assert a[0] in a && '-' !in a[1..];
      CutAt(a[1..], b);
    }
  }

  lemma PortSpecMeans(text: string, p: Ports)
    ensures ParsePortSpec(text) == Ok(p) <==> PortsWritten(text, p)
    ensures TrimSpace(text) == "" ==> ParsePortSpec(text) == Err(PortEmpty)
  {
    var s := TrimSpace(text);
    CutMeans(s);
    var (lo, hi) := Cut(s);
    if ParsePortSpec(text) == Ok(p) && hi.Some? {
      assert s == lo + "-" + hi.value && '-' !in lo && Numeral(lo, p.lo) && Numeral(hi.value, p.hi) && p.lo <= p.hi;
    }
    if '-' !in s && Numeral(s, p.lo) && p.hi == p.lo {
      CutAt(s, "");
    } else if PortsWritten(text, p) {
      var a, b :| s == a + "-" + b && '-' !in a && Numeral(a, p.lo) && Numeral(b, p.hi) && p.lo <= p.hi;
      CutAt(a, b);
    }
  }

  /** The source the text names: nothing, one address, or a network without host bits. */
  predicate SourceSays(std: Std, text: string, source: Source) {
    var s := TrimSpace(text);
    match source
    case Anyone => s == ""
    case Host(ip) => s != "" && '/' !in s && std.parseIP(s) == Some(ip)
    case Network(net, mask) => '/' in s && std.parseCIDR(s) == Some((net, net, mask))
  }

  lemma SourceParses(std: Std, text: string, source: Source)
    ensures ParseSource(std, text) == Ok(source) <==> SourceSays(std, text, source)
  {
  }

  predicate IsWord(std: Std, text: string, word: string) { std.lower(TrimSpace(text)) == word }

  /** The protocol is one the text stands for. */
  predicate ProtocolSays(std: Std, text: string, proto: Proto) {
    || (proto == TCP && (IsWord(std, text, "tcp") || IsWord(std, text, "both")))
    || (proto == UDP && (IsWord(std, text, "udp") || IsWord(std, text, "both")))
  }

  lemma ProtocolsParse(std: Std, text: string)
    ensures match ParseProtocols(std, text)
      case Ok(protos) => forall p :: p in protos <==> ProtocolSays(std, text, p)
      case Err(_) => forall p :: !ProtocolSays(std, text, p)
  {
    assert IsWord(std, text, "tcp") ==> ProtocolSays(std, text, TCP);
    assert IsWord(std, text, "udp") ==> ProtocolSays(std, text, UDP);
    assert IsWord(std, text, "both") ==> ProtocolSays(std, text, UDP);
  }

  function KindWord(kind: Kind): string { match kind case Forward => "forward" case Input => "input" }

  /** The target's port: blank for the same ports, else one port for a rule of one port. */
  predicate ToPortSays(text: string, port: Ports, toPort: Option<Ports>) {
    match toPort
    case None => TrimSpace(text) == ""
    case Some(to) => TrimSpace(text) != "" && port.lo == port.hi && to.lo == to.hi && Numeral(text, to.lo)
  }

  /** What a forward rule says beyond the common part: a target in a segment, and its port. */
  predicate TargetSays(std: Std, r: PortRule, segments: seq<Segment>, q: Parsed) {
    std.parseIP(TrimSpace(r.toIP)) == Some(q.toIP) && TargetOk(std, q.toIP, segments) && ToPortSays(r.toPort, q.port, q.toPort)
  }

  /** The typed rule, word for word, means this. */
  ghost predicate Describes(std: Std, r: PortRule, segments: seq<Segment>, q: Parsed) {
    && IsWord(std, r.kind, KindWord(q.kind)) && SourceSays(std, r.source, q.source) && PortsWritten(r.port, q.port)
    && q.protos in {[TCP], [UDP], [TCP, UDP]} && (forall p :: p in q.protos <==> ProtocolSays(std, r.protocol, p))
    && if q.kind == Input then q.toIP == 0 && q.toPort == None else TargetSays(std, r, segments, q)
  }

  lemma CommonMeans(std: Std, r: PortRule, q: Parsed)
    ensures ParseCommon(std, r) == Ok(q) <==>
      && IsWord(std, r.kind, KindWord(q.kind)) && SourceSays(std, r.source, q.source) && PortsWritten(r.port, q.port)
      && q.protos in {[TCP], [UDP], [TCP, UDP]} && (forall p :: p in q.protos <==> ProtocolSays(std, r.protocol, p))
      && q.toIP == 0 && q.toPort == None
  {
    PortSpecMeans(r.port, q.port);
    SourceParses(std, r.source, q.source);
    ProtocolsAre(std, r.protocol, q.protos);
  }

  lemma ProtocolsAre(std: Std, text: string, protos: seq<Proto>)
    ensures ParseProtocols(std, text) == Ok(protos) <==>
      protos in {[TCP], [UDP], [TCP, UDP]} && forall p :: p in protos <==> ProtocolSays(std, text, p)
  {
    ProtocolsParse(std, text);
    if protos in {[TCP], [UDP], [TCP, UDP]} && forall p :: p in protos <==> ProtocolSays(std, text, p) {
      assert TCP in protos <==> ProtocolSays(std, text, TCP);
      assert UDP in protos <==> ProtocolSays(std, text, UDP);
    }
  }

  lemma TargetParses(std: Std, r: PortRule, segments: seq<Segment>, ip: Addr)
    ensures ParseTarget(std, r.toIP, segments) == Ok(ip) <==>
      std.parseIP(TrimSpace(r.toIP)) == Some(ip) && TargetOk(std, ip, segments)
  {
    FirstHoldingMeans(std, segments, ip);
  }

  lemma ToPortParses(text: string, port: Ports, toPort: Option<Ports>)
    ensures ParseToPort(text, port) == Ok(toPort) <==> ToPortSays(text, port, toPort)
  {
  }

  /** The target part of normalisation, behind the common part. */
  lemma ForwardMeans(std: Std, r: PortRule, segments: seq<Segment>, c: Parsed, q: Parsed)
    requires ParseCommon(std, r) == Ok(c) && c.kind == Forward && q.(toIP := 0, toPort := None) == c
    ensures Normalize(std, r, segments) == Ok(q) <==> TargetSays(std, r, segments, q)
  {
    TargetParses(std, r, segments, q.toIP);
    ToPortParses(r.toPort, q.port, q.toPort);
  }

  /** Normalisation is exact: it yields just what the typed rule means, and refuses a rule just when that is
      nothing. */
  lemma NormalizeIff(std: Std, r: PortRule, segments: seq<Segment>, q: Parsed)
    ensures Normalize(std, r, segments) == Ok(q) <==> Describes(std, r, segments, q)
  {
    var c := q.(toIP := 0, toPort := None);
    CommonMeans(std, r, c);
    if Normalize(std, r, segments) == Ok(q) {
      CommonFirst(std, r, segments, q);
    }
    if ParseCommon(std, r) == Ok(c) && c.kind == Forward {
      ForwardMeans(std, r, segments, c, q);
    }
  }

  lemma CommonFirst(std: Std, r: PortRule, segments: seq<Segment>, q: Parsed)
    requires Normalize(std, r, segments) == Ok(q)
    ensures ParseCommon(std, r) == Ok(q.(toIP := 0, toPort := None))
  {
  }

  /** The address agrees with the segment's in every bit of its mask. */
  predicate InSubnet(std: Std, s: Segment, ip: Addr) {
    var a, m := std.parseIP(s.address), std.parseIP(s.mask);
    a.Some? && m.Some? && a.value & m.value == ip & m.value
  }

  /** The segment an address belongs to is the first whose subnet it lies in. */
  lemma {:induction false} FirstHoldingIsFirst(std: Std, segments: seq<Segment>, ip: Addr)
    ensures FirstHolding(std, segments, ip) == FirstOf(segments, (s: Segment) => InSubnet(std, s, ip))
  {
    if segments != [] && !InSubnet(std, segments[0], ip) {
      FirstHoldingIsFirst(std, segments[1..], ip);
    }
  }
}
