/** From the form to the packet: what a request that reports success changes for the traffic. */
module FirewallEffect {
  import opened Basics
  import opened Ifaces
  import opened PortRules
  import opened Firewall
  import opened FirewallPolicy
  import opened FirewallCorrect
  import opened FirewallWeb
  import opened FirewallSync

  /** The request succeeded while the firewall is on, and configuration and kernel agreed before. */
  predicate Applies(std: Std, s: FirewallWeb.State, req: Request, w: World) {
    Agrees(std, s) && s.cfg.enabled && !req.Toggle? && Handled(std, s, req, w).1 == Done
  }

  function Next(std: Std, s: FirewallWeb.State, req: Request, w: World): FirewallWeb.State { Handled(std, s, req, w).0 }

  /** The kernel before and after holds what the configuration renders to. */
  lemma AppliesMeans(std: Std, s: FirewallWeb.State, req: Request, w: World)
    requires Applies(std, s, req, w)
    ensures var t := Next(std, s, req, w);
      && t.cfg == Stored(std, s, req, w.id).cfg && t.cfg.enabled && Accepted(std, s, req)
      && Ruled(std, s.cfg).Ok? && s.kernel == Some(Ruled(std, s.cfg).value)
      && Ruled(std, t.cfg).Ok? && t.kernel == Some(Ruled(std, t.cfg).value)
  {
    DoneIsInStep(std, s, req, w);
    PushedAgrees(std, Stored(std, s, req, w.id), req, w.nft);
  }

  /** What new packets the kernel's chains accept, by zones and typed rules. */
  predicate ByZones(std: Std, cfg: Snapshot, p: Packet)
    requires ZonesOf(std, cfg).Ok?
  {
    var z := ZonesOf(std, cfg).value;
    p.iif == "lo" || Meets(Icmp, p) || ZoneOf(z, p.iif) in {LAN, Zone.Docker, Zone.Trusted}
  }

  lemma ChainsDecide(std: Std, cfg: Snapshot, p: Packet)
    requires Ruled(std, cfg).Ok? && p.state == New
    ensures var z, rs := ZonesOf(std, cfg).value, Ruled(std, cfg).value;
      && (Accepts(rs.forward, p) <==> ZonePolicy(z, p) || (ZoneOf(z, p.iif) == WAN && SomeAdmits(std, cfg.rules, Forward, p)))
      && (Accepts(rs.input, p) <==> ByZones(std, cfg, p) || (ZoneOf(z, p.iif) == WAN && SomeAdmits(std, cfg.rules, Input, p)))
  {
    ForwardIsPolicy(std, cfg, p);
    InputIsPolicy(std, cfg, p);
    RuledAsTyped(std, cfg, Forward, p);
    RuledAsTyped(std, cfg, Input, p);
  }

  /** A change of the rules alone: the same zones, and new packets from the WAN are decided by the new rules. */
  lemma RulesDecide(std: Std, s: FirewallWeb.State, req: Request, w: World, p: Packet)
    requires Applies(std, s, req, w) && p.state == New && (req.AddRule? || req.RemoveRule? || req.ToggleRule?)
    ensures var t := Next(std, s, req, w);
      var z, k, l := ZonesOf(std, s.cfg).value, s.kernel.value, t.kernel.value;
      && t.cfg == s.cfg.(rules := t.cfg.rules)
      && (Accepts(k.forward, p) <==> ZonePolicy(z, p) || (ZoneOf(z, p.iif) == WAN && SomeAdmits(std, s.cfg.rules, Forward, p)))
      && (Accepts(l.forward, p) <==> ZonePolicy(z, p) || (ZoneOf(z, p.iif) == WAN && SomeAdmits(std, t.cfg.rules, Forward, p)))
      && (Accepts(k.input, p) <==> ByZones(std, s.cfg, p) || (ZoneOf(z, p.iif) == WAN && SomeAdmits(std, s.cfg.rules, Input, p)))
      && (Accepts(l.input, p) <==> ByZones(std, s.cfg, p) || (ZoneOf(z, p.iif) == WAN && SomeAdmits(std, t.cfg.rules, Input, p)))
  {
    AppliesMeans(std, s, req, w);
    var t := Next(std, s, req, w);
    ZonesWithoutRules(std, s.cfg, t.cfg.rules);
    ChainsDecide(std, s.cfg, p);
    ChainsDecide(std, t.cfg, p);
  }

  lemma AdmitsSnoc(std: Std, rules: seq<PortRule>, r: PortRule, kind: Kind, p: Packet)
    ensures SomeAdmits(std, rules + [r], kind, p) <==> SomeAdmits(std, rules, kind, p) || Admits(std, r, kind, p)
  {
    var all := rules + [r];
    assert all[|rules|] == r && forall i :: 0 <= i < |rules| ==> all[i] == rules[i];
  }

  /** The stored rule lets in what the form was typed for. */
  lemma FormAdmits(std: Std, form: PortRule, segments: seq<Segment>, id: string, kind: Kind, p: Packet)
    requires Settled(std, form.kind) && Settled(std, form.protocol)
    requires Normalize(std, Named(FormRule(std, form)).(id := id), segments).Ok?
    ensures Admits(std, Named(FormRule(std, form)).(id := id), kind, p) <==> Admits(std, form.(disabled := false), kind, p)
  {
    var r := Named(FormRule(std, form)).(id := id);
    var q := Normalize(std, r, segments).value;
    FormKeepsMeaning(std, form.(disabled := false), segments, id);
    OneAdmits(std, r, segments, kind, q, p);
    OneAdmits(std, form.(disabled := false), segments, kind, q, p);
  }

  lemma AddedAdmits(std: Std, s: FirewallWeb.State, form: PortRule, id: string, kind: Kind, p: Packet)
    requires Settled(std, form.kind) && Settled(std, form.protocol)
    requires Normalize(std, Named(FormRule(std, form)).(id := id), s.cfg.segments).Ok?
    ensures SomeAdmits(std, s.cfg.rules + [Named(FormRule(std, form)).(id := id)], kind, p) <==>
      SomeAdmits(std, s.cfg.rules, kind, p) || Admits(std, form.(disabled := false), kind, p)
  {
    AdmitsSnoc(std, s.cfg.rules, Named(FormRule(std, form)).(id := id), kind, p);
    FormAdmits(std, form, s.cfg.segments, id, kind, p);
  }

  /** Adding a rule opens exactly what the form says, and closes nothing. */
  lemma AddTakesEffect(std: Std, s: FirewallWeb.State, form: PortRule, w: World, p: Packet)
    requires Applies(std, s, AddRule(form), w) && p.state == New
    requires Settled(std, form.kind) && Settled(std, form.protocol)
    ensures var z, k, l := ZonesOf(std, s.cfg).value, s.kernel.value, Next(std, s, AddRule(form), w).kernel.value;
      var asked := form.(disabled := false);
      && (Accepts(l.forward, p) <==> Accepts(k.forward, p) || (ZoneOf(z, p.iif) == WAN && Admits(std, asked, Forward, p)))
      && (Accepts(l.input, p) <==> Accepts(k.input, p) || (ZoneOf(z, p.iif) == WAN && Admits(std, asked, Input, p)))
  {
    RulesDecide(std, s, AddRule(form), w, p);
    AppliesMeans(std, s, AddRule(form), w);
    NameNormalizes(std, FormRule(std, form), Named(FormRule(std, form)).name, w.id, s.cfg.segments);
    AddedAdmits(std, s, form, w.id, Forward, p);
    AddedAdmits(std, s, form, w.id, Input, p);
  }

  /** Removing an ID closes exactly what only rules with that ID let in. */
  lemma RemoveTakesEffect(std: Std, s: FirewallWeb.State, id: string, w: World, p: Packet)
    requires Applies(std, s, RemoveRule(id), w) && p.state == New
    ensures var z, l := ZonesOf(std, s.cfg).value, Next(std, s, RemoveRule(id), w).kernel.value;
      var others := Filter(s.cfg.rules, (r: PortRule) => r.id != id);
      && (Accepts(l.forward, p) <==> ZonePolicy(z, p) || (ZoneOf(z, p.iif) == WAN && SomeAdmits(std, others, Forward, p)))
      && (Accepts(l.input, p) <==> ByZones(std, s.cfg, p) || (ZoneOf(z, p.iif) == WAN && SomeAdmits(std, others, Input, p)))
  {
    RulesDecide(std, s, RemoveRule(id), w, p);
    AppliesMeans(std, s, RemoveRule(id), w);
    WithoutKeeps(s.cfg.rules, id);
  }

  /** Some rule was typed for the packet, when rule i counts as switched on or off like this. */
  ghost predicate FlaggedAdmits(std: Std, rules: seq<PortRule>, i: nat, disabled: bool, kind: Kind, p: Packet) {
    exists j :: 0 <= j < |rules| && Admits(std, if j == i then rules[j].(disabled := disabled) else rules[j], kind, p)
  }

  lemma FlaggedMeans(std: Std, rules: seq<PortRule>, i: nat, disabled: bool, kind: Kind, p: Packet)
    requires i < |rules|
    ensures SomeAdmits(std, rules[i := rules[i].(disabled := disabled)], kind, p) <==> FlaggedAdmits(std, rules, i, disabled, kind, p)
  {
    var after := rules[i := rules[i].(disabled := disabled)];
    assert forall j :: 0 <= j < |rules| ==> after[j] == if j == i then rules[j].(disabled := disabled) else rules[j];
  }

  /** A toggle switches the first rule with that ID, and only that one, on or off for the traffic. */
  lemma ToggleTakesEffect(std: Std, s: FirewallWeb.State, id: string, disable: bool, w: World, p: Packet) returns (i: nat)
    requires Applies(std, s, ToggleRule(id, disable), w) && p.state == New
    ensures var rules := s.cfg.rules; i < |rules| && rules[i].id == id && forall j :: 0 <= j < i ==> rules[j].id != id
    ensures var z, l := ZonesOf(std, s.cfg).value, Next(std, s, ToggleRule(id, disable), w).kernel.value;
      && (Accepts(l.forward, p) <==>
            ZonePolicy(z, p) || (ZoneOf(z, p.iif) == WAN && FlaggedAdmits(std, s.cfg.rules, i, disable, Forward, p)))
      && (Accepts(l.input, p) <==>
            ByZones(std, s.cfg, p) || (ZoneOf(z, p.iif) == WAN && FlaggedAdmits(std, s.cfg.rules, i, disable, Input, p)))
  {
    RulesDecide(std, s, ToggleRule(id, disable), w, p);
    AppliesMeans(std, s, ToggleRule(id, disable), w);
    i := Find(s.cfg.rules, id).value;
    FlaggedMeans(std, s.cfg.rules, i, disable, Forward, p);
    FlaggedMeans(std, s.cfg.rules, i, disable, Input, p);
  }

  /** After new Docker settings the bridges are the ones typed, or the defaults; none when Docker is off; and the
      WAN reaches them with redirected packets from the typed source, forward rules aside. */
  lemma DockerTakesEffect(std: Std, s: FirewallWeb.State, enabled: bool, ifaces: seq<string>, source: string, w: World, p: Packet, n: string)
    requires Applies(std, s, Request.Docker(enabled, ifaces, source), w) && p.state == New
    ensures var t := Next(std, s, Request.Docker(enabled, ifaces, source), w);
      && ZonesOf(std, t.cfg).Ok?
      && var z := ZonesOf(std, t.cfg).value;
      && (n in z.docker <==> enabled && Listed(if ifaces == [] then ["docker0", "br-*"] else ifaces, n))
      && (n in z.lans <==> OnSegment(s.cfg.segments, n)) && z.wan == TrimSpace(s.cfg.wan)
      && (n in z.trusted <==> Listed(s.cfg.trusted, n))
      && (ZoneOf(z, p.iif) == WAN && ZoneOf(z, p.oif) == Zone.Docker ==>
            (Accepts(t.kernel.value.forward, p) <==>
              (p.dnated && SourceAllows(std, source, p.src)) || SomeAdmits(std, s.cfg.rules, Forward, p)))
  {
    AppliesMeans(std, s, Request.Docker(enabled, ifaces, source), w);
    var t := Next(std, s, Request.Docker(enabled, ifaces, source), w);
    ZonesMean(std, t.cfg, n);
    DockerNeedsDnat(std, t.cfg, p);
    TrimTwice(source);
    assert SourceAllows(std, TrimSpace(source), p.src) <==> SourceAllows(std, source, p.src);
  }

  /** After new trusted interfaces the trusted zone is what was typed, and everything else is as before. */
  lemma TrustedTakesEffect(std: Std, s: FirewallWeb.State, ifaces: seq<string>, w: World, n: string)
    requires Applies(std, s, Request.Trusted(ifaces), w)
    ensures var t := Next(std, s, Request.Trusted(ifaces), w);
      && ZonesOf(std, t.cfg).Ok? && t.kernel == Some(Ruled(std, t.cfg).value)
      && var z, y := ZonesOf(std, s.cfg).value, ZonesOf(std, t.cfg).value;
      && (n in y.trusted <==> Listed(ifaces, n))
      && y.wan == z.wan && (n in y.lans <==> n in z.lans) && (n in y.docker <==> n in z.docker)
      && (s.cfg.dockerEnabled ==> y.dockerSource == z.dockerSource)
      && t.cfg.rules == s.cfg.rules && t.cfg.segments == s.cfg.segments
  {
    AppliesMeans(std, s, Request.Trusted(ifaces), w);
    var t := Next(std, s, Request.Trusted(ifaces), w);
    ZonesMean(std, s.cfg, n);
    ZonesMean(std, t.cfg, n);
    ZonesParts(std, s.cfg);
    ZonesParts(std, t.cfg);
  }

  lemma SwitchedZones(std: Std, cfg: Snapshot, enable: bool)
    ensures ZonesOf(std, cfg.(enabled := enable)) == ZonesOf(std, cfg)
  {
    assert BaseReserved(cfg.(enabled := enable)) == BaseReserved(cfg);
  }

  lemma SwitchedRuled(std: Std, cfg: Snapshot, enable: bool)
    ensures Ruled(std, cfg.(enabled := enable)) == Ruled(std, cfg)
  {
    SwitchedZones(std, cfg, enable);
  }

  /** The master switch loads what the rest of the configuration renders to, or takes the tables away, and
      changes nothing else. */
  lemma SwitchTakesEffect(std: Std, s: FirewallWeb.State, enable: bool, w: World)
    requires Handled(std, s, Toggle(enable), w).1 == Done
    ensures var t := Next(std, s, Toggle(enable), w);
      && t.cfg == s.cfg.(enabled := enable)
      && (if enable then Ruled(std, s.cfg).Ok? && t.kernel == Some(Ruled(std, s.cfg).value) else t.kernel == None)
  {
    DoneIsInStep(std, s, Toggle(enable), w);
    PushedAgrees(std, SetEnabled(s, enable), Toggle(enable), w.nft);
    SwitchedRuled(std, s.cfg, enable);
  }
}
