/** The handlers themselves, as methods of the dashboard's server. */
module FirewallHandlers {
  import opened Basics
  import opened Ifaces
  import opened PortRules
  import opened Firewall
  import opened FirewallWeb
  import opened FirewallSync

  class Server {
    const std: Std
    var cfg: Snapshot
    var kernel: Option<Ruleset>

    constructor (std: Std, cfg: Snapshot, kernel: Option<Ruleset>)
      ensures this.std == std && Now() == State(cfg, kernel)
    {
      this.std, this.cfg, this.kernel := std, cfg, kernel;
    }

    function Now(): (s: State)
      reads this
      ensures s.cfg == cfg && s.kernel == kernel
    {
      State(cfg, kernel)
    }

    method SetFirewallEnabled(enabled: bool)
      modifies this`cfg
      ensures Now() == SetEnabled(old(Now()), enabled)
    {
      cfg := cfg.(enabled := enabled);
    }

    method AddPortRule(r: PortRule, id: string)
      modifies this`cfg
      ensures Now() == SetRules(old(Now()), old(cfg.rules) + [r.(id := id)])
    {
      cfg := cfg.(rules := cfg.rules + [r.(id := id)]);
    }

    method RemovePortRule(id: string)
      modifies this`cfg
      ensures Now() == SetRules(old(Now()), WithoutRule(old(cfg.rules), id))
    {
      var rules := cfg.rules;
      var out: seq<PortRule> := [];
      for i := 0 to |rules|
        invariant out == WithoutRule(rules[..i], id)
      {
        assert rules[..i + 1][..i] == rules[..i];
        if rules[i].id != id {
          out := out + [rules[i]];
        }
      }
      assert rules[..|rules|] == rules;
      cfg := cfg.(rules := out);
    }

    /** False when no rule has this ID; otherwise the first that has is changed. */
    method SetPortRuleDisabled(id: string, disabled: bool) returns (found: bool)
      modifies this`cfg
      ensures found == Find(old(cfg.rules), id).Some?
      ensures Now() == SetRules(old(Now()), WithDisabled(old(cfg.rules), id, disabled))
    {
      for i := 0 to |cfg.rules|
        invariant cfg == old(cfg) && forall j :: 0 <= j < i ==> cfg.rules[j].id != id
      {
        if cfg.rules[i].id == id {
          cfg := cfg.(rules := cfg.rules[i := cfg.rules[i].(disabled := disabled)]);
          return true;
        }
      }
      return false;
    }

    method SetDockerSettings(enabled: bool, ifaces: seq<string>, source: string)
      modifies this`cfg
      ensures Now() == SetDocker(old(Now()), enabled, ifaces, source)
    {
      cfg := cfg.(dockerEnabled := enabled, dockerInterfaces := ifaces, dockerSource := source);
    }

    method SetTrustedInterfaces(ifaces: seq<string>)
      modifies this`cfg
      ensures Now() == SetTrusted(old(Now()), ifaces)
    {
      cfg := cfg.(trusted := ifaces);
    }

    method ApplyFirewall(nft: bool) returns (ok: bool)
      modifies this`kernel
      ensures (Now(), ok) == Applied(std, old(Now()), nft)
    {
      if !cfg.enabled {
        if nft {
          kernel := None;
        }
        return nft;
      }
      var ruleset := Render(std, cfg);
      if ruleset.Err? {
        return false;
      }
      if nft {
        kernel := Some(ruleset.value);
      }
      return nft;
    }

    method ApplyIfEnabled(nft: bool) returns (ok: bool)
      modifies this`kernel
      ensures (Now(), ok) == AppliedIfEnabled(std, old(Now()), nft)
    {
      if !cfg.enabled {
        return true;
      }
      ok := ApplyFirewall(nft);
    }

    method HandleFirewallToggle(enable: bool, w: World) returns (reply: Reply)
      modifies this
      ensures (Now(), reply) == Handled(std, old(Now()), Toggle(enable), w)
      ensures reply == Done ==> Agrees(std, Now())
      ensures reply == NotApplied ==> kernel == old(kernel) && (Now() == old(Now()) <==> Undone(old(Now()), Toggle(enable), w))
    {
      HandledMeans(std, Now(), Toggle(enable), w);
      SetFirewallEnabled(enable);
      if !w.saved {
        return SaveFailed;
      }
      var ok := ApplyFirewall(w.nft);
      if !ok {
        if enable {
          SetFirewallEnabled(false);
        }
        return NotApplied;
      }
      return Done;
    }

    method HandleFirewallAddRule(form: PortRule, w: World) returns (reply: Reply)
      modifies this
      ensures (Now(), reply) == Handled(std, old(Now()), AddRule(form), w)
      ensures reply == Done ==> Agrees(std, Now())
      ensures reply == NotApplied ==> kernel == old(kernel) && (Now() == old(Now()) <==> Undone(old(Now()), AddRule(form), w))
    {
      HandledMeans(std, Now(), AddRule(form), w);
      var rule := FormRule(std, form);
      if Normalize(std, rule, cfg.segments).Err? {
        return Rejected;
      }
      if rule.name == "" {
        rule := rule.(name := rule.kind + " " + rule.port + " " + rule.protocol);
      }
      AddPortRule(rule, w.id);
      if !w.saved {
        return SaveFailed;
      }
      var ok := ApplyIfEnabled(w.nft);
      if !ok {
        RemovePortRule(w.id);
        return NotApplied;
      }
      return Done;
    }

    method HandleFirewallRemoveRule(id: string, w: World) returns (reply: Reply)
      modifies this
      ensures (Now(), reply) == Handled(std, old(Now()), RemoveRule(id), w)
      ensures reply == Done ==> Agrees(std, Now())
      ensures reply == NotApplied ==> kernel == old(kernel) && (Now() == old(Now()) <==> Undone(old(Now()), RemoveRule(id), w))
    {
      HandledMeans(std, Now(), RemoveRule(id), w);
      RemovePortRule(id);
      if !w.saved {
        return SaveFailed;
      }
      var ok := ApplyIfEnabled(w.nft);
      return if ok then Done else NotApplied;
    }

    method HandleFirewallToggleRule(id: string, disable: bool, w: World) returns (reply: Reply)
      modifies this
      ensures (Now(), reply) == Handled(std, old(Now()), ToggleRule(id, disable), w)
      ensures reply == Done ==> Agrees(std, Now())
      ensures reply == NotApplied ==> kernel == old(kernel) && (Now() == old(Now()) <==> Undone(old(Now()), ToggleRule(id, disable), w))
    {
      HandledMeans(std, Now(), ToggleRule(id, disable), w);
      var found := SetPortRuleDisabled(id, disable);
      if !found || !w.saved {
        return Rejected;
      }
      var ok := ApplyIfEnabled(w.nft);
      if !ok {
        var again := SetPortRuleDisabled(id, !disable);
        return NotApplied;
      }
      return Done;
    }

    method HandleFirewallDocker(enabled: bool, ifaces: seq<string>, source: string, w: World) returns (reply: Reply)
      modifies this
      ensures (Now(), reply) == Handled(std, old(Now()), Docker(enabled, ifaces, source), w)
      ensures reply == Done ==> Agrees(std, Now())
      ensures reply == NotApplied ==> kernel == old(kernel) && (Now() == old(Now()) <==> Undone(old(Now()), Docker(enabled, ifaces, source), w))
    {
      HandledMeans(std, Now(), Docker(enabled, ifaces, source), w);
      var prev := cfg;
      var candidate := prev.(dockerEnabled := enabled, dockerInterfaces := ifaces, dockerSource := TrimSpace(source));
      var patterns := DockerInterfaces(candidate);
      if patterns.Err? || ParseSource(std, candidate.dockerSource).Err? {
        return Rejected;
      }
      SetDockerSettings(enabled, ifaces, TrimSpace(source));
      if !w.saved {
        return SaveFailed;
      }
      var ok := ApplyIfEnabled(w.nft);
      if !ok {
        SetDockerSettings(prev.dockerEnabled, prev.dockerInterfaces, prev.dockerSource);
        return NotApplied;
      }
      return Done;
    }

    method HandleFirewallTrusted(ifaces: seq<string>, w: World) returns (reply: Reply)
      modifies this
      ensures (Now(), reply) == Handled(std, old(Now()), Trusted(ifaces), w)
      ensures reply == Done ==> Agrees(std, Now())
      ensures reply == NotApplied ==> kernel == old(kernel) && (Now() == old(Now()) <==> Undone(old(Now()), Trusted(ifaces), w))
    {
      HandledMeans(std, Now(), Trusted(ifaces), w);
      var prev := cfg;
      var candidate := prev.(trusted := ifaces);
      var patterns := TrustedInterfaces(candidate);
      if patterns.Err? {
        return Rejected;
      }
      SetTrustedInterfaces(ifaces);
      if !w.saved {
        return SaveFailed;
      }
      var ok := ApplyIfEnabled(w.nft);
      if !ok {
        SetTrustedInterfaces(prev.trusted);
        return NotApplied;
      }
      return Done;
    }
  }
}
