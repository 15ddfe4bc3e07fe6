/** The kernel follows the configuration: what every handler keeps, what a refused change restores, and
    exactly when it does not. */
module FirewallSync {
  import opened Basics
  import opened Ifaces
  import opened PortRules
  import opened Firewall
  import opened FirewallWeb

  predicate NoneHas(rules: seq<PortRule>, id: string) { forall r :: r in rules ==> r.id != id }

  /** Every rule with this ID is switched off. */
  predicate AllOff(rules: seq<PortRule>, id: string) { forall r :: r in rules && r.id == id ==> r.disabled }

  // ----- removing and flipping rules -----

  lemma {:induction false} WithoutMeans(rules: seq<PortRule>, id: string)
    ensures |WithoutRule(rules, id)| <= |rules|
    ensures WithoutRule(rules, id) == rules <==> NoneHas(rules, id)
    ensures |WithoutRule(rules, id)| == |rules| ==> NoneHas(rules, id)
  {
    if rules != [] {
      var front := rules[..|rules| - 1];
      WithoutMeans(front, id);
      assert rules == front + [rules[|rules| - 1]];
    }
  }

  /** Exactly the rules with that ID are gone, and the others keep their order. */
  lemma {:induction false} WithoutKeeps(rules: seq<PortRule>, id: string)
    ensures WithoutRule(rules, id) == Filter(rules, (r: PortRule) => r.id != id)
  {
    if rules != [] {
      var front, last := rules[..|rules| - 1], rules[|rules| - 1];
      assert rules == front + [last];
      WithoutKeeps(front, id);
      FilterSnoc(front, last, (r: PortRule) => r.id != id);
    }
  }

  lemma WithoutAdded(rules: seq<PortRule>, r: PortRule)
    ensures WithoutRule(rules + [r], r.id) == WithoutRule(rules, r.id)
  {
    assert (rules + [r])[..|rules|] == rules;
  }

  lemma {:induction false} FindUpdated(rules: seq<PortRule>, id: string, disabled: bool)
    ensures Find(WithDisabled(rules, id, disabled), id) == Find(rules, id)
  {
    var after := WithDisabled(rules, id, disabled);
    assert |after| == |rules| && forall j :: 0 <= j < |rules| ==> after[j].id == rules[j].id;
    FindById(rules, after, id);
  }

  lemma {:induction false} FindById(a: seq<PortRule>, b: seq<PortRule>, id: string)
    requires |a| == |b| && forall j :: 0 <= j < |a| ==> a[j].id == b[j].id
    ensures Find(a, id) == Find(b, id)
  {
    if a != [] {
      FindById(a[1..], b[1..], id);
    }
  }

  /** Setting a flag and setting it back restores the rules exactly when the first setting changed it. */
  lemma FlagTwice(rules: seq<PortRule>, id: string, disabled: bool)
    requires Find(rules, id).Some?
    ensures var i := Find(rules, id).value; var after := WithDisabled(WithDisabled(rules, id, disabled), id, !disabled);
      after == rules[i := rules[i].(disabled := !disabled)] && (after == rules <==> rules[i].disabled != disabled)
  {
    var i := Find(rules, id).value;
    FindUpdated(rules, id, disabled);
    var after := WithDisabled(WithDisabled(rules, id, disabled), id, !disabled);
    assert after[i].disabled == !disabled;
    assert after == rules[i := rules[i].(disabled := !disabled)];
    if rules[i].disabled == !disabled {
      assert rules[i].(disabled := !disabled) == rules[i];
    }
  }

  // ----- a refused change -----

  /** When a refused request leaves everything as it was: a new rule's ID was fresh, a toggle really
      flipped, a removal or a switch to the same setting had nothing to do. */
  predicate Undone(s: State, req: Request, w: World) {
    match req
    case Toggle(enable) => s.cfg.enabled == false
    case AddRule(_) => NoneHas(s.cfg.rules, w.id)
    case RemoveRule(id) => NoneHas(s.cfg.rules, id)
    case ToggleRule(id, disable) => Find(s.cfg.rules, id).Some? && s.cfg.rules[Find(s.cfg.rules, id).value].disabled != disable
    case Docker(_, _, _) => true
    case Trusted(_) => true
  }

  /** A refused request ends with the change taken back, and the kernel as it was. */
  lemma Refused(std: Std, s: State, req: Request, w: World)
    requires Handled(std, s, req, w).1 == NotApplied
    ensures Handled(std, s, req, w).0 == TakenBack(s, Stored(std, s, req, w.id), req, w.id)
    ensures Accepted(std, s, req) && (!req.Toggle? ==> s.cfg.enabled)
  {
  }

  /** What taking a change back amounts to. */
  function Remains(s: State, req: Request, id: string): State {
    match req
    case Toggle(_) => SetEnabled(s, false)
    case AddRule(_) => SetRules(s, WithoutRule(s.cfg.rules, id))
    case RemoveRule(gone) => SetRules(s, WithoutRule(s.cfg.rules, gone))
    case ToggleRule(rule, disable) =>
      (match Find(s.cfg.rules, rule)
       case Some(i) => SetRules(s, s.cfg.rules[i := s.cfg.rules[i].(disabled := !disable)])
       case None => s)
    case _ => s
  }

  lemma TakenBackRemains(std: Std, s: State, req: Request, id: string)
    requires Accepted(std, s, req)
    ensures TakenBack(s, Stored(std, s, req, id), req, id) == Remains(s, req, id)
  {
    match req
    case AddRule(form) => WithoutAdded(s.cfg.rules, Named(FormRule(std, form)).(id := id));
    case ToggleRule(rule, disable) => FlagTwice(s.cfg.rules, rule, disable);
    case _ =>
  }

  lemma RemainsUndone(s: State, req: Request, w: World)
    requires req.ToggleRule? ==> Find(s.cfg.rules, req.id).Some?
    ensures Remains(s, req, w.id) == s <==> Undone(s, req, w)
    ensures Remains(s, req, w.id).kernel == s.kernel
  {
    match req
    case AddRule(form) => WithoutMeans(s.cfg.rules, w.id); SameRules(s, WithoutRule(s.cfg.rules, w.id));
    case RemoveRule(id) => WithoutMeans(s.cfg.rules, id); SameRules(s, WithoutRule(s.cfg.rules, id));
    case ToggleRule(id, disable) => FlagTwice(s.cfg.rules, id, disable);
    case _ =>
  }

  lemma SameRules(s: State, rules: seq<PortRule>)
    ensures SetRules(s, rules) == s <==> rules == s.cfg.rules
  {
  }

  /** A request whose change the kernel refused leaves the kernel alone, and restores the configuration
      exactly in the listed cases. */
  lemma RefusedRestores(std: Std, s: State, req: Request, w: World)
    requires Handled(std, s, req, w).1 == NotApplied
    ensures Handled(std, s, req, w).0.kernel == s.kernel
    ensures Handled(std, s, req, w).0 == s <==> Undone(s, req, w)
  {
    Refused(std, s, req, w);
    TakenBackRemains(std, s, req, w.id);
    RemainsUndone(s, req, w);
  }

  // ----- what the form becomes -----

  /** Lower-casing trimmed text is final. */
  predicate Settled(std: Std, text: string) {
    var l := std.lower(TrimSpace(text)); std.lower(TrimSpace(l)) == l
  }

  lemma FieldsKeepMeaning(std: Std, text: string, segments: seq<Segment>, port: Ports)
    ensures ParsePortSpec(TrimSpace(text)) == ParsePortSpec(text)
    ensures ParseSource(std, TrimSpace(text)) == ParseSource(std, text)
    ensures ParseTarget(std, TrimSpace(text), segments) == ParseTarget(std, text, segments)
    ensures ParseToPort(TrimSpace(text), port) == ParseToPort(text, port)
  {
    TrimTwice(text);
  }

  lemma CommonKeepsMeaning(std: Std, form: PortRule)
    requires Settled(std, form.kind) && Settled(std, form.protocol)
    ensures ParseCommon(std, FormRule(std, form)) == ParseCommon(std, form)
  {
    var r := FormRule(std, form);
    FieldsKeepMeaning(std, form.port, [], Ports(1, 1));
    FieldsKeepMeaning(std, form.source, [], Ports(1, 1));
    WordsKeepMeaning(std, form);
    CommonByParts(std, r, form);
  }

  lemma WordsKeepMeaning(std: Std, form: PortRule)
    requires Settled(std, form.kind) && Settled(std, form.protocol)
    ensures ParseKind(std, FormRule(std, form).kind) == ParseKind(std, form.kind)
    ensures ParseProtocols(std, FormRule(std, form).protocol) == ParseProtocols(std, form.protocol)
  {
  }

  lemma CommonByParts(std: Std, a: PortRule, b: PortRule)
    requires ParseKind(std, a.kind) == ParseKind(std, b.kind) && ParseProtocols(std, a.protocol) == ParseProtocols(std, b.protocol)
    requires ParsePortSpec(a.port) == ParsePortSpec(b.port) && ParseSource(std, a.source) == ParseSource(std, b.source)
    ensures ParseCommon(std, a) == ParseCommon(std, b)
  {
  }

  /** The rule stored for a form normalises exactly as what was typed: cleaning the fields, naming the rule
      and giving it an ID change neither whether it is valid nor what it compiles to. */
  lemma FormKeepsMeaning(std: Std, form: PortRule, segments: seq<Segment>, id: string)
    requires Settled(std, form.kind) && Settled(std, form.protocol)
    ensures Normalize(std, Named(FormRule(std, form)).(id := id), segments) == Normalize(std, form, segments)
  {
    var r := Named(FormRule(std, form)).(id := id);
    CommonKeepsMeaning(std, form);
    assert ParseCommon(std, r) == ParseCommon(std, FormRule(std, form));
    var c := ParseCommon(std, form);
    if c.Ok? && c.value.kind == Forward {
      FieldsKeepMeaning(std, form.toIP, segments, c.value.port);
      FieldsKeepMeaning(std, form.toPort, segments, c.value.port);
    }
  }

  // ----- what a rule contributes -----

  function Size(c: Compiled): nat { |c.input| + |c.forward| }

  /** The number of lines a rule adds: none if it is off, one for each protocol otherwise. */
  function Weight(std: Std, r: PortRule, segments: seq<Segment>): nat {
    match (r.disabled, Normalize(std, r, segments))
    case (false, Ok(p)) => |p.protos|
    case _ => 0
  }

  function Total(std: Std, rules: seq<PortRule>, segments: seq<Segment>): nat {
    if rules == [] then 0 else Total(std, rules[..|rules| - 1], segments) + Weight(std, rules[|rules| - 1], segments)
  }

  predicate Valid(std: Std, r: PortRule, segments: seq<Segment>) { r.disabled || Normalize(std, r, segments).Ok? }

  predicate AllValid(std: Std, rules: seq<PortRule>, segments: seq<Segment>) {
    rules == [] || (AllValid(std, rules[..|rules| - 1], segments) && Valid(std, rules[|rules| - 1], segments))
  }

  lemma {:induction false} ValidAt(std: Std, rules: seq<PortRule>, segments: seq<Segment>, i: nat)
    requires i < |rules| && AllValid(std, rules, segments)
    ensures Valid(std, rules[i], segments)
  {
    if i < |rules| - 1 {
      ValidAt(std, rules[..|rules| - 1], segments, i);
    }
  }

  lemma WeightMeans(std: Std, r: PortRule, segments: seq<Segment>)
    requires Valid(std, r, segments)
    ensures 0 < Weight(std, r, segments) <==> !r.disabled
  {
  }

  lemma {:induction false} LinesSize(wan: string, p: Parsed, protos: seq<Proto>, c: Compiled)
    ensures Size(Lines(wan, p, protos, c)) == Size(c) + |protos|
  {
    if protos != [] {
      LinesSize(wan, p, protos[..|protos| - 1], c);
    }
  }

  /** The rules compile exactly when all enabled ones are valid, to as many lines as they add together. */
  lemma {:induction false} CompiledSize(std: Std, rules: seq<PortRule>, segments: seq<Segment>, wan: string)
    ensures CompileRules(std, rules, segments, wan).Ok? <==> AllValid(std, rules, segments)
    ensures CompileRules(std, rules, segments, wan).Ok? ==>
      Size(CompileRules(std, rules, segments, wan).value) == Total(std, rules, segments)
  {
    if rules != [] {
      var front, last := rules[..|rules| - 1], rules[|rules| - 1];
      CompiledSize(std, front, segments, wan);
      if CompileRules(std, rules, segments, wan).Ok? && !last.disabled {
        var p := Normalize(std, last, segments).value;
        LinesSize(wan, p, p.protos, CompileRules(std, front, segments, wan).value);
      }
    }
  }

  lemma SameThenSame(std: Std, a: seq<PortRule>, b: seq<PortRule>, last: PortRule, segments: seq<Segment>, wan: string)
    requires CompileRules(std, a, segments, wan) == CompileRules(std, b, segments, wan)
    ensures CompileRules(std, a + [last], segments, wan) == CompileRules(std, b + [last], segments, wan)
  {
    assert (a + [last])[..|a|] == a && (b + [last])[..|b|] == b;
  }

  lemma OffAddsNothing(std: Std, a: seq<PortRule>, last: PortRule, segments: seq<Segment>, wan: string)
    requires last.disabled
    ensures CompileRules(std, a + [last], segments, wan) == CompileRules(std, a, segments, wan)
  {
    assert (a + [last])[..|a|] == a;
  }

  lemma {:induction false} WithoutOff(std: Std, rules: seq<PortRule>, segments: seq<Segment>, wan: string, id: string)
    requires AllOff(rules, id)
    ensures CompileRules(std, WithoutRule(rules, id), segments, wan) == CompileRules(std, rules, segments, wan)
  {
    if rules != [] {
      var front, last := rules[..|rules| - 1], rules[|rules| - 1];
      var kept := WithoutRule(front, id);
      assert rules == front + [last];
      WithoutOff(std, front, segments, wan, id);
      if last.id != id {
        assert WithoutRule(rules, id) == kept + [last];
        SameThenSame(std, kept, front, last, segments, wan);
      } else {
        assert WithoutRule(rules, id) == kept;
        OffAddsNothing(std, front, last, segments, wan);
      }
    }
  }

  lemma TotalSnoc(std: Std, rules: seq<PortRule>, last: PortRule, segments: seq<Segment>)
    ensures Total(std, rules + [last], segments) == Total(std, rules, segments) + Weight(std, last, segments)
    ensures AllValid(std, rules + [last], segments) <==> AllValid(std, rules, segments) && Valid(std, last, segments)
  {
    assert (rules + [last])[..|rules|] == rules;
  }

  lemma {:induction false} TotalWithout(std: Std, rules: seq<PortRule>, segments: seq<Segment>, id: string)
    requires AllValid(std, rules, segments)
    ensures AllValid(std, WithoutRule(rules, id), segments)
    ensures Total(std, WithoutRule(rules, id), segments) <= Total(std, rules, segments)
    ensures !AllOff(rules, id) ==> Total(std, WithoutRule(rules, id), segments) < Total(std, rules, segments)
  {
    if rules != [] {
      var front, last := rules[..|rules| - 1], rules[|rules| - 1];
      TotalWithout(std, front, segments, id);
      AllOffEnds(rules, id);
      WithoutStep(std, WithoutRule(front, id), last, segments, id);
    }
  }

  /** What the last rule adds when rules with the ID go. */
  lemma WithoutStep(std: Std, kept: seq<PortRule>, last: PortRule, segments: seq<Segment>, id: string)
    requires AllValid(std, kept, segments) && Valid(std, last, segments)
    ensures var next := kept + (if last.id != id then [last] else []);
      && AllValid(std, next, segments)
      && Total(std, next, segments) == Total(std, kept, segments) + (if last.id != id then Weight(std, last, segments) else 0)
    ensures 0 < Weight(std, last, segments) <==> !last.disabled
  {
    WeightMeans(std, last, segments);
    if last.id != id {
      TotalSnoc(std, kept, last, segments);
    } else {
      assert kept + [] == kept;
    }
  }

  lemma AllOffEnds(rules: seq<PortRule>, id: string)
    requires rules != []
    ensures var last := rules[|rules| - 1];
      AllOff(rules, id) <==> AllOff(rules[..|rules| - 1], id) && (last.id == id ==> last.disabled)
  {
    assert rules == rules[..|rules| - 1] + [rules[|rules| - 1]];
  }

  lemma {:induction false} TotalUpdated(std: Std, rules: seq<PortRule>, segments: seq<Segment>, i: nat, r: PortRule)
    requires i < |rules|
    ensures Total(std, rules[i := r], segments) == Total(std, rules, segments) - Weight(std, rules[i], segments) + Weight(std, r, segments)
  {
    var front, after := rules[..|rules| - 1], rules[i := r];
    if i == |front| {
      assert after[..|front|] == front;
    } else {
      assert after[..|front|] == front[i := r];
      TotalUpdated(std, front, segments, i, r);
    }
  }

  /** Flipping one rule's flag changes the number of lines, or makes the configuration invalid. */
  lemma CompileFlip(std: Std, rules: seq<PortRule>, segments: seq<Segment>, wan: string, i: nat)
    requires i < |rules| && CompileRules(std, rules, segments, wan).Ok?
    ensures var flipped := rules[i := rules[i].(disabled := !rules[i].disabled)];
      var d := CompileRules(std, flipped, segments, wan);
      d.Ok? ==> Size(d.value) != Size(CompileRules(std, rules, segments, wan).value)
  {
    var r := rules[i].(disabled := !rules[i].disabled);
    CompiledSize(std, rules, segments, wan);
    CompiledSize(std, rules[i := r], segments, wan);
    TotalUpdated(std, rules, segments, i, r);
    ValidAt(std, rules, segments, i);
    WeightMeans(std, rules[i], segments);
    if CompileRules(std, rules[i := r], segments, wan).Ok? {
      ValidAt(std, rules[i := r], segments, i);
      WeightMeans(std, r, segments);
    }
  }

  // ----- rules do not matter for the zones -----

  lemma ZonesWithoutRules(std: Std, cfg: Snapshot, rules: seq<PortRule>)
    ensures ZonesOf(std, cfg.(rules := rules)) == ZonesOf(std, cfg)
  {
    assert BaseReserved(cfg.(rules := rules)) == BaseReserved(cfg);
  }

  lemma RuledIs(std: Std, cfg: Snapshot, z: Zones)
    requires ZonesOf(std, cfg) == Ok(z)
    ensures var c := CompileRules(std, cfg.rules, cfg.segments, z.wan);
      Ruled(std, cfg) == match c case Ok(d) => Ok(Chains(z, d)) case Err(e) => Err(e)
  {
  }

  lemma ChainsTellSize(z: Zones, c: Compiled, d: Compiled)
    requires Chains(z, c) == Chains(z, d)
    ensures Size(c) == Size(d)
  {
    var h := InputHead(z) + AcceptAll(z.docker) + AcceptAll(z.trusted);
    assert |h + c.input| == |h + d.input|;
    var f := ForwardHead(z) + DockerRules(z, z.docker) + TrustedRules(z, z.trusted);
    assert |f + c.forward| == |f + d.forward|;
  }

  /** Two rule lists render alike if they compile alike, and differently if the line counts differ. */
  lemma RuledByRules(std: Std, cfg: Snapshot, rules: seq<PortRule>)
    requires Ruled(std, cfg).Ok?
    ensures var wan := ZonesOf(std, cfg).value.wan;
      var c, d := CompileRules(std, cfg.rules, cfg.segments, wan), CompileRules(std, rules, cfg.segments, wan);
      && (d == c ==> Ruled(std, cfg.(rules := rules)) == Ruled(std, cfg))
      && (d.Err? || Size(d.value) != Size(c.value) ==> Ruled(std, cfg.(rules := rules)) != Ruled(std, cfg))
  {
    ZonesWithoutRules(std, cfg, rules);
    var z := ZonesOf(std, cfg).value;
    RuledIs(std, cfg, z);
    RuledIs(std, cfg.(rules := rules), z);
    var c, d := CompileRules(std, cfg.rules, cfg.segments, z.wan).value, CompileRules(std, rules, cfg.segments, z.wan);
    if d.Ok? && Chains(z, c) == Chains(z, d.value) {
      ChainsTellSize(z, c, d.value);
    }
  }

  // ----- the kernel follows the configuration -----

  lemma PushedAgrees(std: Std, t: State, req: Request, nft: bool)
    ensures Pushed(std, t, req, nft).1 ==> Agrees(std, Pushed(std, t, req, nft).0)
    ensures Pushed(std, t, req, nft).1 && !t.cfg.enabled ==> Pushed(std, t, req, nft).0.kernel == if req.Toggle? then None else t.kernel
    ensures Pushed(std, t, req, nft).0.cfg == t.cfg
  {
  }

  /** Whatever was in the kernel before, a request that reports success leaves it in step with the
      configuration, and switching off leaves it without the tables. */
  lemma DoneIsInStep(std: Std, s: State, req: Request, w: World)
    requires Handled(std, s, req, w).1 == Done
    ensures Agrees(std, Handled(std, s, req, w).0)
    ensures req == Toggle(false) ==> Handled(std, s, req, w).0.kernel == None
    ensures InStep(std, s) ==> InStep(std, Handled(std, s, req, w).0)
  {
    PushedAgrees(std, Stored(std, s, req, w.id), req, w.nft);
  }

  /** What every handler guarantees about its own reply. */
  lemma HandledMeans(std: Std, s: State, req: Request, w: World)
    ensures var (t, reply) := Handled(std, s, req, w);
      && (reply == Done ==> Agrees(std, t))
      && (reply == NotApplied ==> t.kernel == s.kernel && (t == s <==> Undone(s, req, w)))
  {
    var (t, reply) := Handled(std, s, req, w);
    if reply == Done {
      DoneIsInStep(std, s, req, w);
    } else if reply == NotApplied {
      RefusedRestores(std, s, req, w);
    }
  }

  /** When rules are removed without the kernel following, it still matches only if every removed rule was off. */
  lemma WithoutAgrees(std: Std, s: State, id: string)
    requires Agrees(std, s) && s.cfg.enabled
    ensures Agrees(std, SetRules(s, WithoutRule(s.cfg.rules, id))) <==> AllOff(s.cfg.rules, id)
  {
    var rules, kept, wan := s.cfg.rules, WithoutRule(s.cfg.rules, id), ZonesOf(std, s.cfg).value.wan;
    RuledByRules(std, s.cfg, kept);
    CompiledSize(std, rules, s.cfg.segments, wan);
    CompiledSize(std, kept, s.cfg.segments, wan);
    TotalWithout(std, rules, s.cfg.segments, id);
    if AllOff(rules, id) {
      WithoutOff(std, rules, s.cfg.segments, wan, id);
    }
  }

  /** A rule whose flag was changed without the kernel following leaves the two apart. */
  lemma FlipDisagrees(std: Std, s: State, i: nat)
    requires Agrees(std, s) && s.cfg.enabled && i < |s.cfg.rules|
    ensures !Agrees(std, SetRules(s, s.cfg.rules[i := s.cfg.rules[i].(disabled := !s.cfg.rules[i].disabled)]))
  {
    var rules, r := s.cfg.rules, s.cfg.rules[i].(disabled := !s.cfg.rules[i].disabled);
    RuledByRules(std, s.cfg, rules[i := r]);
    CompileFlip(std, rules, s.cfg.segments, ZonesOf(std, s.cfg).value.wan, i);
  }

  /** A new rule that the kernel does not know leaves the two apart. */
  lemma AddedDisagrees(std: Std, s: State, r: PortRule)
    requires Agrees(std, s) && s.cfg.enabled && !r.disabled && Normalize(std, r, s.cfg.segments).Ok?
    ensures !Agrees(std, SetRules(s, s.cfg.rules + [r]))
  {
    var rules, wan := s.cfg.rules, ZonesOf(std, s.cfg).value.wan;
    RuledByRules(std, s.cfg, rules + [r]);
    CompiledSize(std, rules, s.cfg.segments, wan);
    CompiledSize(std, rules + [r], s.cfg.segments, wan);
    TotalSnoc(std, rules, r, s.cfg.segments);
    WeightMeans(std, r, s.cfg.segments);
  }

  // ----- interfaces that differ render differently -----

  lemma {:induction false} AcceptAllLength(a: seq<string>)
    ensures |AcceptAll(a)| == |a|
    ensures forall i :: 0 <= i < |a| ==> AcceptAll(a)[i] == Rule([Iif([a[i]])], Accept)
  {
    if a != [] {
      AcceptAllLength(a[..|a| - 1]);
    }
  }

  lemma AcceptAllTells(a: seq<string>, b: seq<string>)
    requires AcceptAll(a) == AcceptAll(b)
    ensures a == b
  {
    AcceptAllLength(a);
    AcceptAllLength(b);
    forall i | 0 <= i < |a| ensures a[i] == b[i] {
      assert AcceptAll(a)[i].conds[0] == Iif([a[i]]) && AcceptAll(b)[i].conds[0] == Iif([b[i]]);
      assert [a[i]][0] == [b[i]][0];
    }
  }

  lemma Cancel<T>(h: seq<T>, a: seq<T>, b: seq<T>, t: seq<T>)
    requires h + a + t == h + b + t
    ensures a == b
  {
    assert |a| == |b|;
    assert a == (h + a + t)[|h|..|h| + |a|] && b == (h + b + t)[|h|..|h| + |b|];
  }

  /** The docker source stands in every bridge's last line. */
  lemma SourceTells(z: Zones, y: Zones, bridges: seq<string>)
    requires bridges != [] && DockerRules(z, bridges) == DockerRules(y, bridges)
    ensures z.dockerSource == y.dockerSource
  {
    var a, b := DockerRules(z, bridges), DockerRules(y, bridges);
    var d := bridges[|bridges| - 1];
    assert a[|a| - 1] == DockerBridge(z, d)[4] && b[|b| - 1] == DockerBridge(y, d)[4];
    assert DockerBridge(z, d)[4].conds[2] == Saddr(z.dockerSource) && DockerBridge(y, d)[4].conds[2] == Saddr(y.dockerSource);
  }

  lemma {:induction false} TrustedSame(z: Zones, y: Zones, trusted: seq<string>)
    requires y == z.(dockerSource := y.dockerSource)
    ensures TrustedRules(z, trusted) == TrustedRules(y, trusted)
  {
    if trusted != [] {
      TrustedSame(z, y, trusted[..|trusted| - 1]);
    }
  }

  /** With the same rules, WAN and LANs, zones that differ in the trusted list, or in bridges and their source,
      render differently. */
  lemma ChainsTellTrusted(z: Zones, y: Zones, c: Compiled)
    requires y == z.(trusted := y.trusted) && Chains(z, c) == Chains(y, c)
    ensures y == z
  {
    Cancel(InputHead(z) + AcceptAll(z.docker), AcceptAll(z.trusted), AcceptAll(y.trusted), c.input);
    AcceptAllTells(z.trusted, y.trusted);
  }

  lemma ChainsTellDocker(z: Zones, y: Zones, c: Compiled)
    requires y == z.(docker := y.docker, dockerSource := y.dockerSource) && Chains(z, c) == Chains(y, c)
    requires z.docker == [] ==> z.dockerSource == Anyone
    requires y.docker == [] ==> y.dockerSource == Anyone
    ensures y == z
  {
    var rest := AcceptAll(z.trusted) + c.input;
    assert Chains(z, c).input == InputHead(z) + AcceptAll(z.docker) + rest;
    assert Chains(y, c).input == InputHead(z) + AcceptAll(y.docker) + rest;
    Cancel(InputHead(z), AcceptAll(z.docker), AcceptAll(y.docker), rest);
    AcceptAllTells(z.docker, y.docker);
    if z.docker != [] {
      ForwardTellsSource(z, y, c);
    }
  }

  lemma ForwardTellsSource(z: Zones, y: Zones, c: Compiled)
    requires y == z.(dockerSource := y.dockerSource) && Chains(z, c) == Chains(y, c) && z.docker != []
    ensures z.dockerSource == y.dockerSource
  {
    TrustedSame(z, y, z.trusted);
    var rest := TrustedRules(z, z.trusted) + c.forward;
    assert Chains(z, c).forward == ForwardHead(z) + DockerRules(z, z.docker) + rest;
    assert Chains(y, c).forward == ForwardHead(z) + DockerRules(y, z.docker) + rest;
    Cancel(ForwardHead(z), DockerRules(z, z.docker), DockerRules(y, z.docker), rest);
    SourceTells(z, y, z.docker);
  }

  /** Docker or trusted settings other than the rules, the WAN and the segments. */
  predicate SameBase(a: Snapshot, b: Snapshot) { a.wan == b.wan && a.segments == b.segments && a.rules == b.rules }

  /** The interfaces of a configuration, part by part. */
  lemma ZonesParts(std: Std, cfg: Snapshot)
    requires ZonesOf(std, cfg).Ok?
    ensures var z := ZonesOf(std, cfg).value;
      && z.wan == TrimSpace(cfg.wan) && Lans(cfg.segments, z.wan) == Ok(z.lans)
      && z.docker == (if cfg.dockerEnabled then Distinct(EffectiveDocker(cfg)) else [])
      && (cfg.dockerEnabled ==> z.docker != [] && ParseSource(std, cfg.dockerSource) == Ok(z.dockerSource))
      && (!cfg.dockerEnabled ==> z.dockerSource == Anyone)
      && z.trusted == Distinct(cfg.trusted)
  {
  }

  lemma RuledSame(std: Std, a: Snapshot, b: Snapshot)
    requires SameBase(a, b) && ZonesOf(std, a) == ZonesOf(std, b)
    ensures Ruled(std, a) == Ruled(std, b)
  {
  }

  lemma RuledTellsTrusted(std: Std, a: Snapshot, ifaces: seq<string>)
    requires Ruled(std, a).Ok? && Ruled(std, a.(trusted := ifaces)) == Ruled(std, a)
    ensures ZonesOf(std, a.(trusted := ifaces)) == ZonesOf(std, a)
  {
    var b := a.(trusted := ifaces);
    ZonesParts(std, a);
    ZonesParts(std, b);
    assert EffectiveDocker(a) == EffectiveDocker(b);
    var z, y := ZonesOf(std, a).value, ZonesOf(std, b).value;
    assert y == z.(trusted := y.trusted);
    RuledIs(std, a, z);
    RuledIs(std, b, y);
    ChainsTellTrusted(z, y, CompileRules(std, a.rules, a.segments, z.wan).value);
  }

  lemma RuledTellsDocker(std: Std, a: Snapshot, b: Snapshot)
    requires Ruled(std, a).Ok? && Ruled(std, b) == Ruled(std, a)
    requires SameBase(a, b) && a.trusted == b.trusted
    ensures ZonesOf(std, b) == ZonesOf(std, a)
  {
    ZonesParts(std, a);
    ZonesParts(std, b);
    var z, y := ZonesOf(std, a).value, ZonesOf(std, b).value;
    assert y == z.(docker := y.docker, dockerSource := y.dockerSource);
    RuledIs(std, a, z);
    RuledIs(std, b, y);
    ChainsTellDocker(z, y, CompileRules(std, a.rules, a.segments, z.wan).value);
  }

  // ----- exactly when the kernel follows the configuration -----

  /** A change that may be stored without telling the kernel: it changes nothing the kernel would see. */
  predicate Unseen(std: Std, s: State, req: Request) {
    match req
    case Toggle(enable) => s.cfg.enabled == enable
    case AddRule(_) => !s.cfg.enabled
    case RemoveRule(id) => !s.cfg.enabled || AllOff(s.cfg.rules, id)
    case ToggleRule(id, disable) => !s.cfg.enabled || Find(s.cfg.rules, id).None? || s.cfg.rules[Find(s.cfg.rules, id).value].disabled == disable
    case Docker(_, _, _) => !s.cfg.enabled || ZonesOf(std, Stored(std, s, req, "").cfg) == ZonesOf(std, s.cfg)
    case Trusted(_) => !s.cfg.enabled || ZonesOf(std, Stored(std, s, req, "").cfg) == ZonesOf(std, s.cfg)
  }

  /** A change the kernel may refuse: taking it back leaves what the kernel has. The master switch is one only
      while the firewall is off, since refusing it leaves the firewall switched off with its rules loaded. */
  predicate Harmless(s: State, req: Request, id: string) {
    !s.cfg.enabled ||
    match req
    case Toggle(_) => false
    case AddRule(_) => AllOff(s.cfg.rules, id)
    case RemoveRule(gone) => AllOff(s.cfg.rules, gone)
    case ToggleRule(rule, disable) => Find(s.cfg.rules, rule).None? || s.cfg.rules[Find(s.cfg.rules, rule).value].disabled != disable
    case _ => true
  }

  lemma AgreesAsBefore(std: Std, s: State, t: State)
    requires Agrees(std, s) && s.cfg.enabled && t.cfg.enabled && t.kernel == s.kernel
    ensures Agrees(std, t) <==> Ruled(std, t.cfg) == Ruled(std, s.cfg)
  {
  }

  lemma DockerKept(std: Std, s: State, enabled: bool, ifaces: seq<string>, source: string)
    requires Agrees(std, s) && s.cfg.enabled
    ensures var t := SetDocker(s, enabled, ifaces, source);
      Agrees(std, t) <==> ZonesOf(std, t.cfg) == ZonesOf(std, s.cfg)
  {
    var t := SetDocker(s, enabled, ifaces, source);
    AgreesAsBefore(std, s, t);
    if ZonesOf(std, t.cfg) == ZonesOf(std, s.cfg) {
      RuledSame(std, s.cfg, t.cfg);
    } else if Ruled(std, t.cfg) == Ruled(std, s.cfg) {
      RuledTellsDocker(std, s.cfg, t.cfg);
    }
  }

  lemma TrustedKept(std: Std, s: State, ifaces: seq<string>)
    requires Agrees(std, s) && s.cfg.enabled
    ensures var t := SetTrusted(s, ifaces);
      Agrees(std, t) <==> ZonesOf(std, t.cfg) == ZonesOf(std, s.cfg)
  {
    var t := SetTrusted(s, ifaces);
    AgreesAsBefore(std, s, t);
    if ZonesOf(std, t.cfg) == ZonesOf(std, s.cfg) {
      RuledSame(std, s.cfg, t.cfg);
    } else if Ruled(std, t.cfg) == Ruled(std, s.cfg) {
      RuledTellsTrusted(std, s.cfg, ifaces);
    }
  }

  lemma SameFlag(s: State, id: string, disable: bool)
    requires Find(s.cfg.rules, id).Some? && s.cfg.rules[Find(s.cfg.rules, id).value].disabled == disable
    ensures SetRules(s, WithDisabled(s.cfg.rules, id, disable)) == s
  {
    var i := Find(s.cfg.rules, id).value;
    assert s.cfg.rules[i].(disabled := disable) == s.cfg.rules[i];
    assert s.cfg.rules[i := s.cfg.rules[i]] == s.cfg.rules;
  }

  lemma FlagKept(std: Std, s: State, id: string, disable: bool)
    requires Agrees(std, s) && s.cfg.enabled && Find(s.cfg.rules, id).Some?
    ensures Agrees(std, SetRules(s, WithDisabled(s.cfg.rules, id, disable)))
      <==> s.cfg.rules[Find(s.cfg.rules, id).value].disabled == disable
  {
    var i := Find(s.cfg.rules, id).value;
    if s.cfg.rules[i].disabled == disable {
      SameFlag(s, id, disable);
    } else {
      FlipDisagrees(std, s, i);
    }
  }

  lemma AddedKept(std: Std, s: State, form: PortRule, id: string)
    requires Agrees(std, s) && s.cfg.enabled && Normalize(std, FormRule(std, form), s.cfg.segments).Ok?
    ensures !Agrees(std, SetRules(s, s.cfg.rules + [Named(FormRule(std, form)).(id := id)]))
  {
    var r := FormRule(std, form);
    NameNormalizes(std, r, Named(r).name, id, s.cfg.segments);
    AddedDisagrees(std, s, Named(r).(id := id));
  }

  lemma NameNormalizes(std: Std, r: PortRule, name: string, id: string, segments: seq<Segment>)
    ensures Normalize(std, r.(name := name, id := id), segments) == Normalize(std, r, segments)
  {
  }

  lemma StoredAgrees(std: Std, s: State, req: Request, id: string)
    requires Agrees(std, s) && s.cfg.enabled && Accepted(std, s, req) && !req.Toggle?
    ensures Agrees(std, Stored(std, s, req, id)) <==> Unseen(std, s, req)
  {
    match req
    case AddRule(form) => AddedKept(std, s, form, id);
    case RemoveRule(gone) => WithoutAgrees(std, s, gone);
    case ToggleRule(rule, disable) => FlagKept(std, s, rule, disable);
    case Docker(enabled, ifaces, source) => DockerKept(std, s, enabled, ifaces, TrimSpace(source));
    case Trusted(ifaces) => TrustedKept(std, s, ifaces);
  }

  lemma StoredEnabled(std: Std, s: State, req: Request, id: string)
    requires !req.Toggle?
    ensures Stored(std, s, req, id).cfg.enabled == s.cfg.enabled && Stored(std, s, req, id).kernel == s.kernel
  {
  }

  /** An accepted change that is stored and not pushed keeps the two in step exactly when it is unseen. */
  lemma StoredInStep(std: Std, s: State, req: Request, id: string)
    requires InStep(std, s) && Accepted(std, s, req)
    ensures InStep(std, Stored(std, s, req, id)) <==> Unseen(std, s, req)
  {
    if !req.Toggle? {
      StoredEnabled(std, s, req, id);
      if s.cfg.enabled {
        StoredAgrees(std, s, req, id);
      }
    }
  }

  lemma RemainsInStep(std: Std, s: State, req: Request, id: string)
    requires InStep(std, s) && Accepted(std, s, req)
    ensures InStep(std, Remains(s, req, id)) <==> Harmless(s, req, id)
  {
    if s.cfg.enabled {
      match req
      case Toggle(_) =>
      case AddRule(_) => WithoutAgrees(std, s, id);
      case RemoveRule(gone) => WithoutAgrees(std, s, gone);
      case ToggleRule(rule, disable) =>
        var i := Find(s.cfg.rules, rule).value;
        if s.cfg.rules[i].disabled == disable {
          FlipDisagrees(std, s, i);
        } else {
          assert s.cfg.rules[i := s.cfg.rules[i].(disabled := !disable)] == s.cfg.rules;
        }
      case _ =>
    }
  }

  /** The request is one of those that keep configuration and kernel in step. */
  predicate Keeps(std: Std, s: State, req: Request, w: World) {
    || !Accepted(std, s, req)
    || (if w.saved then Handled(std, s, req, w).1 == Done || Harmless(s, req, w.id) else Unseen(std, s, req))
  }

  /** One request keeps configuration and kernel in step exactly when: it is rejected, or it is saved and the
      kernel takes it or it is harmless, or its save fails and it is unseen. */
  lemma KeepsInStep(std: Std, s: State, req: Request, w: World)
    requires InStep(std, s)
    ensures InStep(std, Handled(std, s, req, w).0) <==> Keeps(std, s, req, w)
  {
    var (t, reply) := Handled(std, s, req, w);
    if Accepted(std, s, req) {
      StoredInStep(std, s, req, w.id);
      if reply == Done {
        DoneIsInStep(std, s, req, w);
      } else if w.saved {
        Refused(std, s, req, w);
        TakenBackRemains(std, s, req, w.id);
        RemainsInStep(std, s, req, w.id);
      }
    }
  }

  /** What can be told before the call: a saved request keeps the two in step whatever the kernel answers
      exactly when it would be rejected, or is harmless. */
  lemma InStepForEveryAnswer(std: Std, s: State, req: Request, id: string)
    requires InStep(std, s)
    ensures (forall nft :: InStep(std, Handled(std, s, req, World(true, nft, id)).0)) <==> !Accepted(std, s, req) || Harmless(s, req, id)
  {
    forall nft ensures InStep(std, Handled(std, s, req, World(true, nft, id)).0) <==>
      !Accepted(std, s, req) || Handled(std, s, req, World(true, nft, id)).1 == Done || Harmless(s, req, id)
    {
      KeepsInStep(std, s, req, World(true, nft, id));
    }
    if s.cfg.enabled && Accepted(std, s, req) {
      assert Handled(std, s, req, World(true, false, id)).1 == NotApplied;
    }
  }

  // ----- whole sessions -----

  type Session = seq<(Request, World)>

  predicate Smooth(std: Std, s: State, session: Session)
    decreases |session|
  {
    session == [] ||
    (var (req, w) := session[0]; Keeps(std, s, req, w) && Smooth(std, Handled(std, s, req, w).0, session[1..]))
  }

  /** Configuration and kernel are in step before, between and after the requests. */
  predicate AlwaysInStep(std: Std, s: State, session: Session)
    decreases |session|
  {
    InStep(std, s) && (session == [] || AlwaysInStep(std, Handled(std, s, session[0].0, session[0].1).0, session[1..]))
  }

  /** Over any session of requests the firewall is off with no tables, or on with the kernel holding exactly
      what the configuration renders to, if and only if every request is of the kinds listed. */
  lemma {:induction false} SessionInStepIff(std: Std, s: State, session: Session)
    requires InStep(std, s)
    ensures AlwaysInStep(std, s, session) <==> Smooth(std, s, session)
    decreases |session|
  {
    if session != [] {
      var (req, w) := session[0];
      KeepsInStep(std, s, req, w);
      if Keeps(std, s, req, w) {
        SessionInStepIff(std, Handled(std, s, req, w).0, session[1..]);
      }
    }
  }
}
