/** The dashboard's firewall handlers: each changes the saved configuration, applies it to the kernel, and
    takes the change back when the kernel refuses it. */
module FirewallWeb {
  import opened Basics
  import opened Ifaces
  import opened PortRules
  import opened Firewall

  /** The configuration in memory and the ruleset in the kernel (None when the tables do not exist). */
  datatype State = State(cfg: Snapshot, kernel: Option<Ruleset>)

  /** How the world answers one request: whether the setter's save and nft succeed, the ID a new rule gets. */
  datatype World = World(saved: bool, nft: bool, id: string)

  datatype Request =
    | Toggle(enable: bool)
    | AddRule(form: PortRule)
    | RemoveRule(id: string)
    | ToggleRule(id: string, disable: bool)
    | Docker(enabled: bool, ifaces: seq<string>, source: string)
    | Trusted(ifaces: seq<string>)

  datatype Reply = Done | Rejected | SaveFailed | NotApplied

  /** While the firewall is on, the kernel holds exactly what the configuration renders to. */
  predicate Agrees(std: Std, s: State) {
    s.cfg.enabled ==> Ruled(std, s.cfg).Ok? && s.kernel == Some(Ruled(std, s.cfg).value)
  }

  /** And while it is off, the tables do not exist: the setting never claims the contrary of what is loaded. */
  predicate InStep(std: Std, s: State) {
    Agrees(std, s) && (!s.cfg.enabled ==> s.kernel == None)
  }

  // ----- what the setters and the handlers do, on values -----

  function WithoutRule(rules: seq<PortRule>, id: string): seq<PortRule> {
    if rules == [] then []
    else WithoutRule(rules[..|rules| - 1], id) + (if rules[|rules| - 1].id != id then [rules[|rules| - 1]] else [])
  }

  /** The position of the first rule with this ID. */
  function Find(rules: seq<PortRule>, id: string): (r: Option<nat>)
    ensures r.Some? ==> r.value < |rules| && rules[r.value].id == id
    ensures r.Some? ==> forall j :: 0 <= j < r.value ==> rules[j].id != id
    ensures r.None? ==> forall j :: 0 <= j < |rules| ==> rules[j].id != id
  {
    if rules == [] then None
    else if rules[0].id == id then Some(0)
    else match Find(rules[1..], id)
      case Some(i) => Some(i + 1)
      case None => None
  }

  function WithDisabled(rules: seq<PortRule>, id: string, disabled: bool): seq<PortRule> {
    match Find(rules, id)
    case Some(i) => rules[i := rules[i].(disabled := disabled)]
    case None => rules
  }

  function SetRules(s: State, rules: seq<PortRule>): State { s.(cfg := s.cfg.(rules := rules)) }

  function SetEnabled(s: State, enabled: bool): State { s.(cfg := s.cfg.(enabled := enabled)) }

  function SetDocker(s: State, enabled: bool, ifaces: seq<string>, source: string): State {
    s.(cfg := s.cfg.(dockerEnabled := enabled, dockerInterfaces := ifaces, dockerSource := source))
  }

  function SetTrusted(s: State, ifaces: seq<string>): State { s.(cfg := s.cfg.(trusted := ifaces)) }

  /** Apply makes the kernel match the configuration, or changes nothing. */
  function Applied(std: Std, s: State, nft: bool): (State, bool) {
    if !s.cfg.enabled then (if nft then s.(kernel := None) else s, nft)
    else match Ruled(std, s.cfg)
      case Err(_) => (s, false)
      case Ok(rs) => (if nft then s.(kernel := Some(rs)) else s, nft)
  }

  function AppliedIfEnabled(std: Std, s: State, nft: bool): (State, bool) {
    if s.cfg.enabled then Applied(std, s, nft) else (s, true)
  }

  /** The rule a form describes: trimmed and lower-cased, without a target for an input rule. */
  function FormRule(std: Std, form: PortRule): PortRule {
    var kind := std.lower(TrimSpace(form.kind));
    PortRule("", TrimSpace(form.name), kind, std.lower(TrimSpace(form.protocol)), TrimSpace(form.port),
      if kind == "input" then "" else TrimSpace(form.toIP), if kind == "input" then "" else TrimSpace(form.toPort),
      TrimSpace(form.source), false)
  }

  function Named(r: PortRule): PortRule {
    if r.name == "" then r.(name := r.kind + " " + r.port + " " + r.protocol) else r
  }

  predicate DockerValid(std: Std, cfg: Snapshot) { DockerPatterns(cfg).Ok? && ParseSource(std, cfg.dockerSource).Ok? }

  /** What is checked before anything is stored: a new rule and Docker or trusted settings must be valid, and
      a rule to be toggled must exist. */
  predicate Accepted(std: Std, s: State, req: Request) {
    match req
    case AddRule(form) => Normalize(std, FormRule(std, form), s.cfg.segments).Ok?
    case ToggleRule(id, _) => Find(s.cfg.rules, id).Some?
    case Docker(_, _, _) => DockerValid(std, Stored(std, s, req, "").cfg)
    case Trusted(_) => TrustedPatterns(Stored(std, s, req, "").cfg).Ok?
    case _ => true
  }

  /** The configuration with the requested change; `id` is for a new rule. */
  function Stored(std: Std, s: State, req: Request, id: string): State {
    match req
    case Toggle(enable) => SetEnabled(s, enable)
    case AddRule(form) => SetRules(s, s.cfg.rules + [Named(FormRule(std, form)).(id := id)])
    case RemoveRule(gone) => SetRules(s, WithoutRule(s.cfg.rules, gone))
    case ToggleRule(rule, disable) => SetRules(s, WithDisabled(s.cfg.rules, rule, disable))
    case Docker(enabled, ifaces, source) => SetDocker(s, enabled, ifaces, TrimSpace(source))
    case Trusted(ifaces) => SetTrusted(s, ifaces)
  }

  /** How the handlers take a stored change `t` of `s` back. */
  function TakenBack(s: State, t: State, req: Request, id: string): State {
    match req
    case Toggle(enable) => if enable then SetEnabled(t, false) else t
    case AddRule(_) => SetRules(t, WithoutRule(t.cfg.rules, id))
    case RemoveRule(_) => t
    case ToggleRule(rule, disable) => SetRules(t, WithDisabled(t.cfg.rules, rule, !disable))
    case Docker(_, _, _) => SetDocker(t, s.cfg.dockerEnabled, s.cfg.dockerInterfaces, s.cfg.dockerSource)
    case Trusted(_) => SetTrusted(t, s.cfg.trusted)
  }

  /** Switching the firewall always goes to the kernel; other changes do while it is on. */
  function Pushed(std: Std, t: State, req: Request, nft: bool): (State, bool) {
    if req.Toggle? then Applied(std, t, nft) else AppliedIfEnabled(std, t, nft)
  }

  /** One request as a transaction: check, store, push to the kernel, take back what it refuses. A failed save
      ends it where it is; the rule toggle reports that like an unknown rule. */
  function Handled(std: Std, s: State, req: Request, w: World): (State, Reply) {
    if !Accepted(std, s, req) then (s, Rejected)
    else
      var t := Stored(std, s, req, w.id);
      if !w.saved then (t, if req.ToggleRule? then Rejected else SaveFailed)
      else
        var (u, ok) := Pushed(std, t, req, w.nft);
        if ok then (u, Done) else (TakenBack(s, u, req, w.id), NotApplied)
  }
}
