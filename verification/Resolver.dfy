/** The iterative resolver: a walk down the delegation chain that restarts on aliases and resolves
    nameserver names by nested walks. Asking servers is an oracle that may answer anything, knowing
    everything asked so far. */
module Resolver {
  import opened Basics
  import opened DnsName
  import opened DnsMessage

  const A: nat := 1
  const NS: nat := 2
  const CNAME: nat := 5
  const MAX_HOPS: nat := 20
  const MAX_TTL: nat := 0xFFFF_FFFF

  datatype Server = Given(address: string) | Port53(ip: Bytes)

  /** A parsed response and the octets it was parsed from. */
  datatype Response = Response(msg: Message, raw: Bytes)

  /** One call of queryServers; no reply stands for its error. */
  datatype Exchange = Exchange(servers: seq<Server>, name: Bytes, qtype: nat, reply: Option<Response>)

  type History = seq<Exchange>

  /** The servers every walk starts from, the network, strings.ToLower and strings.EqualFold. */
  datatype World = World(
    start: seq<Server>,
    network: (History, seq<Server>, Bytes, nat) -> Option<Response>,
    lower: Bytes -> Bytes,
    sameFold: (Bytes, Bytes) -> bool)

  datatype Resolved = Resolved(ips: seq<Bytes>, ttl: nat)

  /** Lower case with exactly one trailing dot added. */
  function Normal(w: World, name: Bytes): Bytes { w.lower(TrimDot(name)) + [DOT] }

  // ----- what one response offers -----

  predicate Owns(w: World, r: RR, name: Bytes) { w.sameFold(TrimDot(r.name), TrimDot(name)) }

  predicate IsAddress(r: RR) { r.rtype == A && |r.rdata| == 4 }

  function OneAddress(w: World, r: RR, name: Bytes): seq<Bytes> {
    if Owns(w, r, name) && IsAddress(r) then [r.rdata] else []
  }

  function Addresses(w: World, rs: seq<RR>, name: Bytes): seq<Bytes> {
    if rs == [] then [] else Addresses(w, rs[..|rs| - 1], name) + OneAddress(w, rs[|rs| - 1], name)
  }

  /** The name held in a record's data, if it decodes. */
  function DataName(raw: Bytes, r: RR): Option<Bytes> {
    match NameAt(raw, r.at)
    case Ok((name, _)) => Some(name)
    case Err(_) => None
  }

  predicate IsAlias(w: World, raw: Bytes, r: RR, name: Bytes) {
    Owns(w, r, name) && r.rtype == CNAME && DataName(raw, r).Some?
  }

  /** The last alias counts; an empty target is the same as none. */
  function Alias(w: World, raw: Bytes, rs: seq<RR>, name: Bytes): Bytes {
    if rs == [] then []
    else
      var r := rs[|rs| - 1];
      if IsAlias(w, raw, r, name) then DataName(raw, r).value else Alias(w, raw, rs[..|rs| - 1], name)
  }

  /** The least TTL among the records that counted, addresses and aliases alike. */
  function LeastTtl(w: World, raw: Bytes, rs: seq<RR>, name: Bytes): nat {
    if rs == [] then MAX_TTL
    else
      var r, rest := rs[|rs| - 1], LeastTtl(w, raw, rs[..|rs| - 1], name);
      if (IsAlias(w, raw, r, name) || (Owns(w, r, name) && IsAddress(r))) && r.ttl < rest then r.ttl else rest
  }

  function ShownTtl(least: nat): nat { if least == MAX_TTL then 60 else least }

  predicate Delegates(raw: Bytes, r: RR) { r.rtype == NS && DataName(raw, r).Some? }

  function Nameservers(w: World, raw: Bytes, rs: seq<RR>): set<Bytes> {
    set i | 0 <= i < |rs| && Delegates(raw, rs[i]) :: w.lower(DataName(raw, rs[i]).value)
  }

  predicate IsGlue(w: World, r: RR, names: set<Bytes>) { IsAddress(r) && w.lower(TrimDot(r.name)) in names }

  function OneGlue(w: World, r: RR, names: set<Bytes>): seq<Server> {
    if IsGlue(w, r, names) then [Port53(r.rdata)] else []
  }

  function Glue(w: World, rs: seq<RR>, names: set<Bytes>): seq<Server> {
    if rs == [] then [] else Glue(w, rs[..|rs| - 1], names) + OneGlue(w, rs[|rs| - 1], names)
  }

  function AsServers(ips: seq<Bytes>): (ss: seq<Server>)
    ensures |ss| == |ips| && forall i :: 0 <= i < |ips| ==> ss[i] == Port53(ips[i])
  {
    seq(|ips|, i requires 0 <= i < |ips| => Port53(ips[i]))
  }

  // ----- the same for one exchange of a history -----

  function Found(w: World, e: Exchange): seq<Bytes> {
    if e.reply.None? then [] else Addresses(w, e.reply.value.msg.answers, e.name)
  }

  function Next(w: World, e: Exchange): Bytes {
    if e.reply.None? then [] else Alias(w, e.reply.value.raw, e.reply.value.msg.answers, e.name)
  }

  function Referred(w: World, e: Exchange): set<Bytes> {
    if e.reply.None? then {} else Nameservers(w, e.reply.value.raw, e.reply.value.msg.authority)
  }

  function Glued(w: World, e: Exchange): seq<Server> {
    if e.reply.None? then [] else Glue(w, e.reply.value.msg.additional, Referred(w, e))
  }

  // ----- walks -----

  /** A walk for the address of one of these names, beginning at `from` or later, ends at the last exchange. */
  ghost predicate NestedWalk(w: World, h: History, from: int, names: set<Bytes>)
    decreases |h|, 1
  {
    exists n, first, hops :: n in names && from <= first && hops != [] && Last(hops) == |h| - 1 && Walk(w, h, first, hops, n, A)
  }

  /** The servers are the addresses that the last exchange found. */
  predicate FoundLast(w: World, h: History, servers: seq<Server>) {
    h != [] && Found(w, h[|h| - 1]) != [] && servers == AsServers(Found(w, h[|h| - 1]))
  }

  /** After the exchanges h, the walk that was at exchange i asks these servers for this name next: it
      follows an alias from the start again, or keeps the name and asks the servers it was referred to,
      by their glue or by the addresses that a nested walk for one of their names has just found. */
  ghost predicate Leads(w: World, h: History, i: int, servers: seq<Server>, name: Bytes)
    decreases |h|, 2
  {
    && 0 <= i < |h| && h[i].reply.Some? && Found(w, h[i]) == []
    && if Next(w, h[i]) != [] then |h| == i + 1 && name == Normal(w, Next(w, h[i])) && servers == w.start
       else
         && name == h[i].name
         && if Glued(w, h[i]) != [] then |h| == i + 1 && servers == Glued(w, h[i])
            else
              i + 1 < |h| && FoundLast(w, h, servers) && NestedWalk(w, h, i + 1, Referred(w, h[i]))
  }

  /** Exchange j is the hop after exchange i. */
  ghost predicate Link(w: World, h: History, i: int, j: int)
    decreases |h|, 0, 0
  {
    0 <= i < j < |h| && Leads(w, h[..j], i, h[j].servers, h[j].name)
  }

  function Last(hops: seq<int>): int
    requires hops != []
  {
    hops[|hops| - 1]
  }

  /** The hops of one walk for `qname`, as positions in the history, beginning at `first`. */
  ghost predicate Walk(w: World, h: History, first: int, hops: seq<int>, qname: Bytes, qtype: nat)
    decreases |h|, 0, |hops|
  {
    && hops != [] && 0 <= Last(hops) < |h| && h[Last(hops)].qtype == qtype
    && if |hops| == 1 then Last(hops) == first && h[first].name == Normal(w, qname) && h[first].servers == w.start
       else var before := hops[..|hops| - 1];
         Walk(w, h, first, before, qname, qtype) && Link(w, h, Last(before), Last(hops))
  }

  /** No reply, or nothing to follow and no nameserver that could be resolved although all were tried. */
  ghost predicate DeadEnd(w: World, h: History, last: int, depth: nat)
    requires 0 <= last < |h| && 0 < depth
    decreases depth, 0
  {
    var e := h[last];
    || e.reply.None?
    || (Found(w, e) == [] && Next(w, e) == [] && Glued(w, e) == [] && AllFailed(w, h, last + 1, Referred(w, e), depth - 1))
  }

  /** Each of the names had a nested resolution, from position `from` on, that came to nothing. */
  ghost predicate AllFailed(w: World, h: History, from: nat, names: set<Bytes>, depth: nat)
    decreases depth, 4
  {
    forall n :: n in names ==> Failed(w, h, from, n, depth)
  }

  ghost predicate Failed(w: World, h: History, from: nat, name: Bytes, depth: nat)
    decreases depth, 3
  {
    exists p: nat, q: nat, hops :: from <= p <= q <= |h| && Resolution(w, name, A, depth, h[..p], h[..q], hops, None)
  }

  /** The answer is what the exchange found, with its least TTL. */
  predicate Answers(w: World, e: Exchange, a: Resolved) {
    && e.reply.Some? && a.ips == Found(w, e) && a.ips != []
    && a.ttl == ShownTtl(LeastTtl(w, e.reply.value.raw, e.reply.value.msg.answers, e.name))
  }

  /** What a resolution that went through these hops may return: what the last hop found, or nothing if
      the hop limit was reached without an address or the last hop is a dead end. */
  ghost predicate Outcome(w: World, depth: nat, log: History, count: nat, last: int, r: Option<Resolved>)
    requires 0 <= last < |log| && 0 < depth
    decreases depth, 1
  {
    match r
    case Some(a) => last == |log| - 1 && Answers(w, log[last], a)
    case None => (count == MAX_HOPS && Found(w, log[last]) == []) || DeadEnd(w, log, last, depth)
  }

  ghost predicate Resolution(w: World, qname: Bytes, qtype: nat, depth: int, past: History, log: History, hops: seq<int>, r: Option<Resolved>)
    decreases if depth <= 0 then 0 else depth, 2
  {
    if depth <= 0 then r.None? && log == past
    else
      && Walk(w, log, |past|, hops, qname, qtype) && |hops| <= MAX_HOPS
      && Outcome(w, depth, log, |hops|, Last(hops), r)
  }

  // ----- how many servers calls a walk may cost -----

  function Budget(k: nat, depth: int): nat {
    if depth <= 0 then 0 else Times(MAX_HOPS, 1 + Times(k, Budget(k, depth - 1)))
  }

  /** Every reply from position `from` on names at most k nameservers. */
  ghost predicate Modest(w: World, h: History, from: nat, k: nat) {
    forall i {:trigger Few(w, h[i], k)} :: from <= i < |h| ==> Few(w, h[i], k)
  }

  predicate Few(w: World, e: Exchange, k: nat) { |Referred(w, e)| <= k }

  // ----- reading one response -----

  method ScanAnswers(w: World, resp: Response, currentName: Bytes) returns (ips: seq<Bytes>, cnameTarget: Bytes, minTTL: nat)
    ensures ips == Addresses(w, resp.msg.answers, currentName)
    ensures cnameTarget == Alias(w, resp.raw, resp.msg.answers, currentName)
    ensures minTTL == LeastTtl(w, resp.raw, resp.msg.answers, currentName)
  {
    ips, cnameTarget, minTTL := [], [], MAX_TTL;
    var rs := resp.msg.answers;
    for i := 0 to |rs|
      invariant ips == Addresses(w, rs[..i], currentName)
      invariant cnameTarget == Alias(w, resp.raw, rs[..i], currentName)
      invariant minTTL == LeastTtl(w, resp.raw, rs[..i], currentName)
    {
      var a := rs[i];
      ScanStep(w, resp.raw, rs, i, currentName);
      if !w.sameFold(TrimDot(a.name), TrimDot(currentName)) {
        continue;
      }
      if a.rtype == A {
        if |a.rdata| == 4 {
          ips := ips + [a.rdata];
          minTTL := if a.ttl < minTTL then a.ttl else minTTL;
        }
      } else if a.rtype == CNAME {
        var target := ReadNameCompressed(resp.raw, a.at);
        if target.Ok? {
          cnameTarget := target.value.0;
          minTTL := if a.ttl < minTTL then a.ttl else minTTL;
        }
      }
    }
    assert rs[..|rs|] == rs;
  }

  lemma ScanStep(w: World, raw: Bytes, rs: seq<RR>, i: nat, name: Bytes)
    requires i < |rs|
    ensures var r, counts := rs[i], Owns(w, rs[i], name) && IsAddress(rs[i]);
      && Addresses(w, rs[..i + 1], name) == (if counts then Addresses(w, rs[..i], name) + [r.rdata] else Addresses(w, rs[..i], name))
      && Alias(w, raw, rs[..i + 1], name) == (if IsAlias(w, raw, r, name) then DataName(raw, r).value else Alias(w, raw, rs[..i], name))
      && LeastTtl(w, raw, rs[..i + 1], name) ==
        var rest := LeastTtl(w, raw, rs[..i], name);
        if (counts || IsAlias(w, raw, r, name)) && r.ttl < rest then r.ttl else rest
  {
    assert rs[..i + 1][..i] == rs[..i] && rs[..i + 1][i] == rs[i];
  }

  method ScanReferral(w: World, resp: Response) returns (nsNames: set<Bytes>, servers: seq<Server>)
    ensures nsNames == Nameservers(w, resp.raw, resp.msg.authority)
    ensures servers == Glue(w, resp.msg.additional, nsNames)
  {
    nsNames, servers := {}, [];
    var rs := resp.msg.authority;
    for i := 0 to |rs|
      invariant nsNames == Nameservers(w, resp.raw, rs[..i])
    {
      NameserversSnoc(w, resp.raw, rs, i);
      if rs[i].rtype == NS {
        var name := ReadNameCompressed(resp.raw, rs[i].at);
        if name.Ok? {
          nsNames := nsNames + {w.lower(name.value.0)};
        }
      }
    }
    assert rs[..|rs|] == rs;
    rs := resp.msg.additional;
    for i := 0 to |rs|
      invariant servers == Glue(w, rs[..i], nsNames)
    {
      assert rs[..i + 1][..i] == rs[..i] && rs[..i + 1][i] == rs[i];
      if rs[i].rtype == A && |rs[i].rdata| == 4 && w.lower(TrimDot(rs[i].name)) in nsNames {
        servers := servers + [Port53(rs[i].rdata)];
      }
    }
    assert rs[..|rs|] == rs;
  }

  lemma NameserversSnoc(w: World, raw: Bytes, rs: seq<RR>, i: nat)
    requires i < |rs|
    ensures Nameservers(w, raw, rs[..i + 1]) == Nameservers(w, raw, rs[..i])
      + if Delegates(raw, rs[i]) then {w.lower(DataName(raw, rs[i]).value)} else {}
  {
    var a, b := rs[..i + 1], rs[..i];
    assert forall k :: 0 <= k < i ==> a[k] == b[k];
    assert a[i] == rs[i];
  }

  // ----- walks only grow -----

  lemma LinkExtends(w: World, h: History, longer: History, i: int, j: int)
    requires Link(w, h, i, j) && |h| <= |longer| && longer[..|h|] == h
    ensures Link(w, longer, i, j)
  {
    assert longer[..j] == longer[..|h|][..j] == h[..j];
    assert longer[i] == longer[..|h|][i] && longer[j] == longer[..|h|][j];
  }

  lemma {:induction false} WalkExtends(w: World, h: History, longer: History, first: int, hops: seq<int>, qname: Bytes, qtype: nat)
    requires Walk(w, h, first, hops, qname, qtype) && |h| <= |longer| && longer[..|h|] == h
    ensures Walk(w, longer, first, hops, qname, qtype)
    decreases |hops|
  {
    assert longer[Last(hops)] == longer[..|h|][Last(hops)];
    if 1 < |hops| {
      var before := hops[..|hops| - 1];
      WalkExtends(w, h, longer, first, before, qname, qtype);
      LinkExtends(w, h, longer, Last(before), Last(hops));
    }
  }

  lemma {:induction false} WalkStarts(w: World, h: History, first: int, hops: seq<int>, qname: Bytes, qtype: nat)
    requires Walk(w, h, first, hops, qname, qtype)
    ensures 0 <= first <= Last(hops) && h[first].name == Normal(w, qname) && h[first].servers == w.start
    decreases |hops|
  {
    if 1 < |hops| {
      WalkStarts(w, h, first, hops[..|hops| - 1], qname, qtype);
    }
  }

  /** The exchange records what the network answered to it, knowing everything before. */
  predicate Fair(w: World, h: History, i: nat)
    requires i < |h|
  {
    h[i].reply == w.network(h[..i], h[i].servers, h[i].name, h[i].qtype)
  }

  ghost predicate Honest(w: World, h: History, from: nat) { forall i: nat :: from <= i < |h| ==> Fair(w, h, i) }

  /** The history grew from past to log by what the network answered, at the cost of at most so many calls, if
      replies are modest. */
  ghost predicate Within(w: World, past: History, log: History, k: nat, cost: nat) {
    && |past| <= |log| && log[..|past|] == past && Honest(w, log, |past|)
    && (Modest(w, log, |past|, k) ==> |log| <= |past| + cost)
  }

  lemma HonestTrans(w: World, past: History, mid: History, log: History)
    requires |past| <= |mid| <= |log| && log[..|mid|] == mid && Honest(w, mid, |past|) && Honest(w, log, |mid|)
    ensures Honest(w, log, |past|)
  {
    forall i: nat | |past| <= i < |log| ensures Fair(w, log, i) {
      if i < |mid| {
        assert Fair(w, mid, i) && mid[i] == log[..|mid|][i] && mid[..i] == log[..|mid|][..i] == log[..i];
      }
    }
  }

  lemma WithinTrans(w: World, past: History, mid: History, log: History, k: nat, c: nat, d: nat)
    requires Within(w, past, mid, k, c) && Within(w, mid, log, k, d)
    ensures Within(w, past, log, k, c + d)
  {
    assert log[..|past|] == log[..|mid|][..|past|] == past;
    HonestTrans(w, past, mid, log);
    if Modest(w, log, |past|, k) {
      forall i | |past| <= i < |mid| ensures Few(w, mid[i], k) {
        assert mid[i] == log[..|mid|][i] == log[i] && Few(w, log[i], k);
      }
      assert forall i {:trigger Few(w, log[i], k)} :: |mid| <= i < |log| ==> Few(w, log[i], k);
    }
  }

  lemma WithinOne(w: World, past: History, log: History, e: Exchange, k: nat, c: nat)
    requires Within(w, past, log, k, c) && e.reply == w.network(log, e.servers, e.name, e.qtype)
    ensures Within(w, past, log + [e], k, c + 1)
  {
    assert (log + [e])[..|log|] == log && Fair(w, log + [e], |log|);
    assert Within(w, log, log + [e], k, 1);
    WithinTrans(w, past, log, log + [e], k, c, 1);
  }

  lemma GlueNeedsNames(w: World, rs: seq<RR>)
    ensures Glue(w, rs, {}) == []
  {
  }

  // ----- the resolver -----

  /** What trying some of the names may have cost. */
  ghost predicate Trying(w: World, past: History, log: History, k: nat, tried: int, all: nat, depth: int) {
    0 <= tried <= all && Within(w, past, log, k, Times(tried, Budget(k, depth)))
  }

  lemma OneTry(w: World, past: History, log: History, log': History, k: nat, tried: int, all: nat, depth: int)
    requires Trying(w, past, log, k, tried, all, depth) && tried < all
    requires Within(w, log, log', k, Budget(k, depth))
    ensures Trying(w, past, log', k, tried + 1, all, depth)
    ensures Within(w, past, log', k, Times(all, Budget(k, depth)))
  {
    var b := Budget(k, depth);
    WithinTrans(w, past, log, log', k, Times(tried, b), b);
    TimesGrows(tried + 1, all, b);
  }

  /** What a nested walk finds is what its last exchange found. */
  lemma NestedFinds(w: World, name: Bytes, depth: int, past: History, log: History, hops: seq<int>, a: Resolved)
    requires Resolution(w, name, A, depth, past, log, hops, Some(a))
    ensures 0 < depth && |past| < |log| && a.ips != [] && FoundLast(w, log, AsServers(a.ips))
  {
    WalkStarts(w, log, |past|, hops, name, A);
  }

  lemma FailedExtends(w: World, h: History, longer: History, from: nat, name: Bytes, depth: nat)
    requires Failed(w, h, from, name, depth) && |h| <= |longer| && longer[..|h|] == h
    ensures Failed(w, longer, from, name, depth)
  {
    var p: nat, q: nat, hops :| from <= p <= q <= |h| && Resolution(w, name, A, depth, h[..p], h[..q], hops, None);
    assert longer[..p] == longer[..|h|][..p] == h[..p] && longer[..q] == longer[..|h|][..q] == h[..q];
  }

  lemma FailedOne(w: World, all: set<Bytes>, left: set<Bytes>, n: Bytes, depth: nat, past: History, log: History, log': History, hops: seq<int>)
    requires AllFailed(w, log, |past|, all - left, depth) && Resolution(w, n, A, depth, log, log', hops, None)
    requires |past| <= |log| <= |log'| && log'[..|log|] == log
    ensures AllFailed(w, log', |past|, all - (left - {n}), depth)
  {
    assert log'[..|log'|] == log';
    forall m | m in all - (left - {n}) ensures Failed(w, log', |past|, m, depth) {
      if m != n {
        FailedExtends(w, log, log', |past|, m, depth);
      }
    }
  }

  /** What one nested resolution adds. */
  lemma TriedOne(w: World, all: set<Bytes>, left: set<Bytes>, n: Bytes, depth: nat, past: History, log: History, log': History,
                 hops: seq<int>, r: Option<Resolved>)
    requires AllFailed(w, log, |past|, all - left, depth) && Resolution(w, n, A, depth, log, log', hops, r) && n in all
    requires |past| <= |log| <= |log'| && log'[..|log|] == log
    ensures r.None? ==> AllFailed(w, log', |past|, all - (left - {n}), depth)
    ensures r.Some? ==> AsServers(r.value.ips) != [] && |past| < |log'| && FoundLast(w, log', AsServers(r.value.ips))
    ensures r.Some? ==> NestedWalk(w, log', |past|, all)
  {
    if r.None? {
      FailedOne(w, all, left, n, depth, past, log, log', hops);
    } else {
      NestedFinds(w, n, depth, log, log', hops, r.value);
    }
  }

  /** Resolves names one by one until one resolves. The map of names is walked in an unspecified order. */
  method ViaNameserver(w: World, nsNames: set<Bytes>, depth: int, past: History, ghost k: nat)
    returns (servers: seq<Server>, log: History)
    requires 0 <= depth
    ensures Within(w, past, log, k, Times(|nsNames|, Budget(k, depth)))
    ensures servers == [] ==> AllFailed(w, log, |past|, nsNames, depth)
    ensures servers != [] ==> |past| < |log| && FoundLast(w, log, servers) && NestedWalk(w, log, |past|, nsNames)
    decreases depth, 1
  {
    servers, log := [], past;
    var left := nsNames;
    while left != {}
      invariant left <= nsNames
      invariant Within(w, past, log, k, Times(|nsNames|, Budget(k, depth)))
      invariant Trying(w, past, log, k, |nsNames| - |left|, |nsNames|, depth)
      invariant AllFailed(w, log, |past|, nsNames - left, depth)
      decreases |left|
    {
      var nsName :| nsName in left;
      var sub, log', hops := Resolve(w, nsName, A, depth, log, k);
      OneTry(w, past, log, log', k, |nsNames| - |left|, |nsNames|, depth);
      TriedOne(w, nsNames, left, nsName, depth, past, log, log', hops, sub);
      left, log := left - {nsName}, log';
      if sub.None? {
        continue;
      }
      return AsServers(sub.value.ips), log;
    }
    assert nsNames - left == nsNames;
  }

  datatype Step = Answer(answer: Resolved) | Fail | Ask(servers: seq<Server>, name: Bytes)

  ghost predicate Interpreted(w: World, depth: int, past: History, here: int, k: nat, step: Step, log: History)
    requires 0 <= here < |past|
  {
    && Within(w, past, log, k, Times(|Referred(w, past[here])|, Budget(k, depth - 1)))
    && match step
       case Answer(a) => |log| == here + 1 && Answers(w, log[here], a)
       case Ask(servers, name) => Leads(w, log, here, servers, name)
       case Fail => here < |log| && 0 < depth && DeadEnd(w, log, here, depth)
  }

  /** What to make of the last exchange: an answer, an alias, a referral, or nothing. */
  method Interpret(w: World, depth: int, past: History, here: int, ghost k: nat) returns (step: Step, log: History)
    requires 0 < depth && 0 <= here < |past| && |past| == here + 1
    ensures Interpreted(w, depth, past, here, k, step, log)
    decreases depth, 0, 0
  {
    log := past;
    var e := past[here];
    if e.reply.None? {
      return Fail, log;
    }
    var ips, cnameTarget, minTTL := ScanAnswers(w, e.reply.value, e.name);
    if 0 < |ips| {
      if minTTL == MAX_TTL {
        minTTL := 60;
      }
      return Answer(Resolved(ips, minTTL)), log;
    }
    if cnameTarget != [] {
      return Ask(w.start, Normal(w, cnameTarget)), log;
    }
    var nsNames, nextServers := ScanReferral(w, e.reply.value);
    if nsNames == {} {
      GlueNeedsNames(w, e.reply.value.msg.additional);
      return Fail, log;
    }
    if nextServers == [] {
      nextServers, log := ViaNameserver(w, nsNames, depth - 1, log, k);
      assert log[here] == log[..|past|][here] == e;
    }
    if nextServers == [] {
      return Fail, log;
    }
    return Ask(nextServers, e.name), log;
  }

  /** One more hop, with as many nested walks as its reply named servers. */
  lemma HopCost(w: World, past: History, log: History, e: Exchange, log': History, k: nat, hop: nat, b: nat)
    requires Within(w, past, log, k, Times(hop, 1 + Times(k, b))) && e.reply == w.network(log, e.servers, e.name, e.qtype)
    requires Within(w, log + [e], log', k, Times(|Referred(w, e)|, b))
    ensures Within(w, past, log', k, Times(hop + 1, 1 + Times(k, b)))
  {
    var n, c := |Referred(w, e)|, Times(hop, 1 + Times(k, b));
    WithinOne(w, past, log, e, k, c);
    WithinTrans(w, past, log + [e], log', k, c + 1, Times(n, b));
    if Modest(w, log', |past|, k) {
      assert log'[|log|] == log'[..|log + [e]|][|log|] == e && Few(w, log'[|log|], k);
      TimesGrows(n, k, b);
    }
  }

  lemma {:induction false} TimesGrows(n: nat, m: nat, b: nat)
    requires n <= m
    ensures Times(n, b) <= Times(m, b)
  {
    if n < m {
      TimesGrows(n, m - 1, b);
    }
  }

  /** What the first hops of a walk may have cost. */
  ghost predicate Spending(w: World, past: History, log: History, k: nat, hop: nat, depth: int) {
    Within(w, past, log, k, Times(hop, 1 + Times(k, Budget(k, depth - 1))))
  }

  lemma OneHop(w: World, past: History, log: History, e: Exchange, log': History, k: nat, hop: nat, depth: int)
    requires 0 < depth && hop < MAX_HOPS && Spending(w, past, log, k, hop, depth)
    requires e.reply == w.network(log, e.servers, e.name, e.qtype)
    requires Within(w, log + [e], log', k, Times(|Referred(w, e)|, Budget(k, depth - 1)))
    ensures Spending(w, past, log', k, hop + 1, depth) && Within(w, past, log', k, Budget(k, depth))
  {
    HopCost(w, past, log, e, log', k, hop, Budget(k, depth - 1));
    SpendingFits(w, past, log', k, hop + 1, depth);
  }

  lemma SpendingFits(w: World, past: History, log: History, k: nat, hops: nat, depth: int)
    requires 0 < depth && hops <= MAX_HOPS && Spending(w, past, log, k, hops, depth)
    ensures Within(w, past, log, k, Budget(k, depth))
  {
    TimesGrows(hops, MAX_HOPS, 1 + Times(k, Budget(k, depth - 1)));
  }

  /** The walk so far, whose next hop asks these servers for this name. */
  ghost predicate Walking(w: World, past: History, log: History, hops: seq<int>, servers: seq<Server>, name: Bytes, qname: Bytes, qtype: nat) {
    if hops == [] then log == past && name == Normal(w, qname) && servers == w.start
    else Walk(w, log, |past|, hops, qname, qtype) && Leads(w, log, Last(hops), servers, name)
  }

  lemma Hop(w: World, past: History, log: History, hops: seq<int>, e: Exchange, log': History, qname: Bytes)
    requires Walking(w, past, log, hops, e.servers, e.name, qname, e.qtype)
    requires |log| < |log'| && log'[..|log| + 1] == log + [e]
    ensures Walk(w, log', |past|, hops + [|log|], qname, e.qtype)
  {
    var longer, more := log + [e], hops + [|log|];
    if hops != [] {
      WalkExtends(w, log, longer, |past|, hops, qname, e.qtype);
      assert more[..|hops|] == hops && longer[..|log|] == log;
      assert Link(w, longer, Last(hops), |log|);
    }
    WalkExtends(w, longer, log', |past|, more, qname, e.qtype);
  }

  /** After the hop that asked exchange `here`. */
  lemma Continues(w: World, past: History, log: History, hops: seq<int>, here: int, servers: seq<Server>, name: Bytes, qname: Bytes, qtype: nat)
    requires Walk(w, log, |past|, hops + [here], qname, qtype) && Leads(w, log, here, servers, name)
    ensures Walking(w, past, log, hops + [here], servers, name, qname, qtype)
  {
  }

  lemma Concludes(w: World, past: History, log: History, hops: seq<int>, here: int, r: Option<Resolved>, qname: Bytes, qtype: nat, depth: int)
    requires 0 < depth && |hops| < MAX_HOPS && Walk(w, log, |past|, hops + [here], qname, qtype)
    requires r.Some? ==> here == |log| - 1 && Answers(w, log[here], r.value)
    requires r.None? ==> 0 <= here < |log| && DeadEnd(w, log, here, depth)
    ensures Resolution(w, qname, qtype, depth, past, log, hops + [here], r)
  {
  }

  lemma RunsOut(w: World, past: History, log: History, hops: seq<int>, servers: seq<Server>, name: Bytes, qname: Bytes, qtype: nat, depth: int)
    requires 0 < depth && |hops| == MAX_HOPS && Walking(w, past, log, hops, servers, name, qname, qtype)
    ensures Resolution(w, qname, qtype, depth, past, log, hops, None)
  {
  }

  /** Between two hops of a resolution. */
  ghost predicate Resolving(w: World, qname: Bytes, qtype: nat, depth: int, past: History, log: History, hops: seq<int>,
    servers: seq<Server>, name: Bytes, k: nat)
  {
    && Walking(w, past, log, hops, servers, name, qname, qtype)
    && Spending(w, past, log, k, |hops|, depth) && Within(w, past, log, k, Budget(k, depth))
  }

  /** What one hop costs. */
  lemma AdvanceCost(w: World, qname: Bytes, depth: int, past: History, log: History, hops: seq<int>, e: Exchange, step: Step, log': History, k: nat)
    requires 0 < depth && |hops| < MAX_HOPS && Resolving(w, qname, e.qtype, depth, past, log, hops, e.servers, e.name, k)
    requires e.reply == w.network(log, e.servers, e.name, e.qtype)
    requires Interpreted(w, depth, log + [e], |log|, k, step, log')
    ensures Within(w, past, log', k, Budget(k, depth)) && Spending(w, past, log', k, |hops| + 1, depth)
  {
    assert (log + [e])[|log|] == e;
    OneHop(w, past, log, e, log', k, |hops|, depth);
  }

  /** Where one hop stands. */
  lemma AdvanceWalk(w: World, qname: Bytes, depth: int, past: History, log: History, hops: seq<int>, e: Exchange, step: Step, log': History, k: nat)
    requires 0 < depth && |hops| < MAX_HOPS && Resolving(w, qname, e.qtype, depth, past, log, hops, e.servers, e.name, k)
    requires e.reply == w.network(log, e.servers, e.name, e.qtype)
    requires Interpreted(w, depth, log + [e], |log|, k, step, log')
    ensures Walk(w, log', |past|, hops + [|log|], qname, e.qtype)
  {
    Hop(w, past, log, hops, e, log', qname);
  }

  lemma Steps(w: World, depth: int, past: History, here: int, k: nat, step: Step, log: History)
    requires 0 <= here < |past| && Interpreted(w, depth, past, here, k, step, log)
    ensures step.Ask? ==> Leads(w, log, here, step.servers, step.name)
    ensures step.Answer? ==> |log| == here + 1 && Answers(w, log[here], step.answer)
    ensures step.Fail? ==> here < |log| && 0 < depth && DeadEnd(w, log, here, depth)
  {
  }

  /** What one hop leads to: the next question ... */
  lemma AdvanceAsk(w: World, qname: Bytes, depth: int, past: History, log: History, hops: seq<int>, e: Exchange, step: Step, log': History, k: nat)
    requires 0 < depth && |hops| < MAX_HOPS && Resolving(w, qname, e.qtype, depth, past, log, hops, e.servers, e.name, k)
    requires e.reply == w.network(log, e.servers, e.name, e.qtype)
    requires Interpreted(w, depth, log + [e], |log|, k, step, log')
    requires step.Ask?
    ensures Resolving(w, qname, e.qtype, depth, past, log', hops + [|log|], step.servers, step.name, k)
  {
    AdvanceCost(w, qname, depth, past, log, hops, e, step, log', k);
    AdvanceWalk(w, qname, depth, past, log, hops, e, step, log', k);
    Steps(w, depth, log + [e], |log|, k, step, log');
    Continues(w, past, log', hops, |log|, step.servers, step.name, qname, e.qtype);
  }

  /** ... or the end. */
  lemma AdvanceEnd(w: World, qname: Bytes, depth: int, past: History, log: History, hops: seq<int>, e: Exchange, step: Step, log': History, k: nat)
    requires 0 < depth && |hops| < MAX_HOPS && Resolving(w, qname, e.qtype, depth, past, log, hops, e.servers, e.name, k)
    requires e.reply == w.network(log, e.servers, e.name, e.qtype)
    requires Interpreted(w, depth, log + [e], |log|, k, step, log')
    requires !step.Ask?
    ensures Within(w, past, log', k, Budget(k, depth))
    ensures Resolution(w, qname, e.qtype, depth, past, log', hops + [|log|], Returned(step))
  {
    AdvanceCost(w, qname, depth, past, log, hops, e, step, log', k);
    AdvanceWalk(w, qname, depth, past, log, hops, e, step, log', k);
    Steps(w, depth, log + [e], |log|, k, step, log');
    Concludes(w, past, log', hops, |log|, Returned(step), qname, e.qtype, depth);
  }

  function Returned(step: Step): Option<Resolved> { if step.Answer? then Some(step.answer) else None }

  /** resolveIterativeFrom. `past` is what the network has seen before, `log` what it has seen after;
      `hops` are this walk's own exchanges. */
  method Resolve(w: World, qname: Bytes, qtype: nat, depth: int, past: History, ghost k: nat)
    returns (r: Option<Resolved>, log: History, ghost hops: seq<int>)
    ensures Within(w, past, log, k, Budget(k, depth))
    ensures Resolution(w, qname, qtype, depth, past, log, hops, r)
    decreases depth, 0, 1
  {
    r, log, hops := None, past, [];
    if depth <= 0 {
      return;
    }
    var currentName := Normal(w, qname);
    var servers := w.start;
    for hop := 0 to MAX_HOPS
      invariant |hops| == hop && Resolving(w, qname, qtype, depth, past, log, hops, servers, currentName, k)
    {
      var reply := w.network(log, servers, currentName, qtype);
      var e := Exchange(servers, currentName, qtype, reply);
      var step, log' := Interpret(w, depth, log + [e], |log|, k);
      if !step.Ask? {
        AdvanceEnd(w, qname, depth, past, log, hops, e, step, log', k);
        return Returned(step), log', hops + [|log|];
      }
      AdvanceAsk(w, qname, depth, past, log, hops, e, step, log', k);
      hops, log := hops + [|log|], log';
      servers, currentName := step.servers, step.name;
    }
    RunsOut(w, past, log, hops, servers, currentName, qname, qtype, depth);
  }

  // ----- what a resolution means -----

  /** Q(0) = 0 and Q(d) = 20 * (1 + k * Q(d - 1)): the calls a resolution may cost when every reply names at
      most k nameservers. */
  lemma BudgetIs(k: nat, depth: int)
    ensures Budget(k, depth) == if depth <= 0 then 0 else 20 * (1 + k * Budget(k, depth - 1))
  {
    if 0 < depth {
      TimesIs(k, Budget(k, depth - 1));
      TimesIs(20, 1 + Times(k, Budget(k, depth - 1)));
    }
  }

  // What a response offers, by the record types of RFC 1035: A (1), NS (2), CNAME (5).

  /** An address record of the name. */
  predicate GivesAddress(w: World, r: RR, name: Bytes) {
    w.sameFold(TrimDot(r.name), TrimDot(name)) && r.rtype == 1 && |r.rdata| == 4
  }

  /** An alias record of the name whose target can be read. */
  predicate GivesAlias(w: World, raw: Bytes, r: RR, name: Bytes) {
    w.sameFold(TrimDot(r.name), TrimDot(name)) && r.rtype == 5 && NameAt(raw, r.at).Ok?
  }

  predicate Counts(w: World, raw: Bytes, r: RR, name: Bytes) { GivesAddress(w, r, name) || GivesAlias(w, raw, r, name) }

  function DataOf(rs: seq<RR>): seq<Bytes> { seq(|rs|, i requires 0 <= i < |rs| => rs[i].rdata) }

  /** The addresses are those of the name's address records, in order. */
  lemma {:induction false} AddressesMean(w: World, rs: seq<RR>, name: Bytes)
    ensures Addresses(w, rs, name) == DataOf(Filter(rs, (r: RR) => GivesAddress(w, r, name)))
  {
    if rs != [] {
      var front, last := rs[..|rs| - 1], rs[|rs| - 1];
      assert rs == front + [last];
      AddressesMean(w, front, name);
      FilterSnoc(front, last, (r: RR) => GivesAddress(w, r, name));
    }
  }

  /** The glue is the address records, in order, that a referred nameserver owns. */
  lemma {:induction false} GlueMeans(w: World, rs: seq<RR>, names: set<Bytes>)
    ensures Glue(w, rs, names) ==
      AsServers(DataOf(Filter(rs, (r: RR) => r.rtype == 1 && |r.rdata| == 4 && w.lower(TrimDot(r.name)) in names)))
  {
    if rs != [] {
      var front, last := rs[..|rs| - 1], rs[|rs| - 1];
      assert rs == front + [last];
      GlueMeans(w, front, names);
      FilterSnoc(front, last, (r: RR) => r.rtype == 1 && |r.rdata| == 4 && w.lower(TrimDot(r.name)) in names);
    }
  }

  /** The nameservers referred to are the lower-cased names that the NS records hold. */
  lemma NameserversMean(w: World, raw: Bytes, rs: seq<RR>, n: Bytes)
    ensures n in Nameservers(w, raw, rs) <==>
      exists r :: r in rs && r.rtype == 2 && NameAt(raw, r.at).Ok? && n == w.lower(NameAt(raw, r.at).value.0)
  {
    if r :| r in rs && r.rtype == 2 && NameAt(raw, r.at).Ok? && n == w.lower(NameAt(raw, r.at).value.0) {
      var i :| 0 <= i < |rs| && rs[i] == r;
      assert Delegates(raw, rs[i]);
    }
  }

  /** The alias is what the last alias record of the name holds. */
  lemma {:induction false} AliasMeans(w: World, raw: Bytes, rs: seq<RR>, name: Bytes)
    ensures var given := Filter(rs, (r: RR) => GivesAlias(w, raw, r, name));
      if given == [] then Alias(w, raw, rs, name) == []
      else DataName(raw, given[|given| - 1]) == Some(Alias(w, raw, rs, name))
  {
    if rs != [] {
      var front, last := rs[..|rs| - 1], rs[|rs| - 1];
      assert rs == front + [last];
      AliasMeans(w, raw, front, name);
      FilterSnoc(front, last, (r: RR) => GivesAlias(w, raw, r, name));
    }
  }

  lemma {:induction false} LeastIsLeast(w: World, raw: Bytes, rs: seq<RR>, name: Bytes)
    ensures LeastTtl(w, raw, rs, name) <= MAX_TTL
    ensures forall i :: 0 <= i < |rs| && Counts(w, raw, rs[i], name) ==> LeastTtl(w, raw, rs, name) <= rs[i].ttl
    ensures LeastTtl(w, raw, rs, name) == MAX_TTL
      || exists i :: 0 <= i < |rs| && Counts(w, raw, rs[i], name) && rs[i].ttl == LeastTtl(w, raw, rs, name)
  {
    if rs != [] {
      var front := rs[..|rs| - 1];
      LeastIsLeast(w, raw, front, name);
      assert forall i :: 0 <= i < |front| ==> front[i] == rs[i];
      assert Counts(w, raw, rs[|rs| - 1], name) || !Counts(w, raw, rs[|rs| - 1], name);
    }
  }

  /** What one answered exchange offers a walk: addresses, an alias, nameservers and their glue, each read from
      the section it belongs to, for the name that was asked. */
  lemma ExchangeOffers(w: World, e: Exchange, n: Bytes)
    requires e.reply.Some?
    ensures var r := e.reply.value;
      var aliases := Filter(r.msg.answers, (x: RR) => GivesAlias(w, r.raw, x, e.name));
      && Found(w, e) == DataOf(Filter(r.msg.answers, (x: RR) => GivesAddress(w, x, e.name)))
      && (if aliases == [] then Next(w, e) == [] else DataName(r.raw, aliases[|aliases| - 1]) == Some(Next(w, e)))
      && (n in Referred(w, e) <==>
            exists x :: x in r.msg.authority && x.rtype == 2 && NameAt(r.raw, x.at).Ok? && n == w.lower(NameAt(r.raw, x.at).value.0))
      && Glued(w, e) == AsServers(DataOf(Filter(r.msg.additional,
           (x: RR) => x.rtype == 1 && |x.rdata| == 4 && w.lower(TrimDot(x.name)) in Referred(w, e))))
  {
    var r := e.reply.value;
    AddressesMean(w, r.msg.answers, e.name);
    AliasMeans(w, r.raw, r.msg.answers, e.name);
    NameserversMean(w, r.raw, r.msg.authority, n);
    GlueMeans(w, r.msg.additional, Referred(w, e));
  }

  /** Some exchange asked for `name`, found no address and an alias to `target`. */
  ghost predicate AliasSeen(w: World, h: History, name: Bytes, target: Bytes) {
    exists i :: 0 <= i < |h| && h[i].name == name && Found(w, h[i]) == [] && Next(w, h[i]) != []
      && target == Normal(w, Next(w, h[i]))
  }

  /** Each name is the alias target that some response in the history gave for the one before. */
  ghost predicate AliasChain(w: World, h: History, names: seq<Bytes>)
    decreases |names|
  {
    names != [] && (|names| == 1 ||
      (var before := names[..|names| - 1];
       AliasChain(w, h, before) && AliasSeen(w, h, before[|before| - 1], names[|names| - 1])))
  }

  lemma ChainSnoc(w: World, h: History, names: seq<Bytes>, name: Bytes)
    requires AliasChain(w, h, names) && AliasSeen(w, h, names[|names| - 1], name)
    ensures AliasChain(w, h, names + [name])
  {
    assert (names + [name])[..|names|] == names;
  }

  lemma LinkNames(w: World, h: History, i: int, j: int)
    requires Link(w, h, i, j)
    ensures h[j].name == h[i].name || AliasSeen(w, h, h[i].name, h[j].name)
  {
    assert h[..j][i] == h[i];
  }

  /** The names a walk asks for form an alias chain from the queried name. */
  lemma {:induction false} WalkFollowsAliases(w: World, h: History, first: int, hops: seq<int>, qname: Bytes, qtype: nat)
    returns (names: seq<Bytes>)
    requires Walk(w, h, first, hops, qname, qtype)
    ensures AliasChain(w, h, names) && names[0] == Normal(w, qname) && names[|names| - 1] == h[Last(hops)].name
    decreases |hops|
  {
    if |hops| == 1 {
      names := [Normal(w, qname)];
    } else {
      var before := hops[..|hops| - 1];
      names := WalkFollowsAliases(w, h, first, before, qname, qtype);
      LinkNames(w, h, Last(before), Last(hops));
      var name := h[Last(hops)].name;
      if name != h[Last(before)].name {
        ChainSnoc(w, h, names, name);
        names := names + [name];
      }
    }
  }

  /** The TTL shown is the least among the records that counted; 60 if none of them limits it. */
  predicate ShowsTtl(w: World, raw: Bytes, rs: seq<RR>, name: Bytes, ttl: nat) {
    && (forall r :: r in rs && Counts(w, raw, r, name) ==> ttl <= r.ttl)
    && ((exists r :: r in rs && Counts(w, raw, r, name) && r.ttl == ttl)
        || (ttl == 60 && forall r :: r in rs && Counts(w, raw, r, name) ==> 0xFFFF_FFFF <= r.ttl))
  }

  lemma ShownTtlMeans(w: World, raw: Bytes, rs: seq<RR>, name: Bytes)
    ensures ShowsTtl(w, raw, rs, name, ShownTtl(LeastTtl(w, raw, rs, name)))
  {
    LeastIsLeast(w, raw, rs, name);
    forall r | r in rs && Counts(w, raw, r, name) ensures LeastTtl(w, raw, rs, name) <= r.ttl {
      var i :| 0 <= i < |rs| && rs[i] == r;
      assert Counts(w, raw, rs[i], name);
    }
  }

  /** What a successful resolution returns: a non-empty list of exactly the addresses that one response,
      received for the name at the end of an alias chain from the queried name, gives for that name, in
      order, and the least TTL of the records that counted. */
  lemma ResolvedMeans(w: World, qname: Bytes, qtype: nat, depth: int, past: History, log: History, hops: seq<int>, a: Resolved)
    returns (names: seq<Bytes>, e: Exchange)
    requires Resolution(w, qname, qtype, depth, past, log, hops, Some(a))
    ensures AliasChain(w, log, names) && names[0] == Normal(w, qname) && names[|names| - 1] == e.name
    ensures e in log && e.qtype == qtype && e.reply.Some?
    ensures a.ips != [] && a.ips == DataOf(Filter(e.reply.value.msg.answers, (r: RR) => GivesAddress(w, r, e.name)))
    ensures ShowsTtl(w, e.reply.value.raw, e.reply.value.msg.answers, e.name, a.ttl)
  {
    names := WalkFollowsAliases(w, log, |past|, hops, qname, qtype);
    e := log[Last(hops)];
    AddressesMean(w, e.reply.value.msg.answers, e.name);
    ShownTtlMeans(w, e.reply.value.raw, e.reply.value.msg.answers, e.name);
  }

  // ----- a delegation that needs no nested lookups -----

  /** The network answers the same whatever was asked before. */
  ghost predicate Stateless(w: World) {
    forall h, servers, name, qtype :: w.network(h, servers, name, qtype) == w.network([], servers, name, qtype)
  }

  /** Whom to ask for what, and what comes of it when there are no nested lookups. */
  type Asking = (seq<Server>, Bytes)
  datatype Onward = Gives(answer: Resolved) | Goes(next: Asking) | Stops

  function Comes(w: World, e: Exchange): Onward {
    if e.reply.None? then Stops
    else if Found(w, e) != [] then
      Gives(Resolved(Found(w, e), ShownTtl(LeastTtl(w, e.reply.value.raw, e.reply.value.msg.answers, e.name))))
    else if Next(w, e) != [] then Goes((w.start, Normal(w, Next(w, e))))
    else if Glued(w, e) != [] then Goes((Glued(w, e), e.name))
    else Stops
  }

  function Plainly(w: World, qtype: nat): Asking -> Onward {
    (at: Asking) => Comes(w, Exchange(at.0, at.1, qtype, w.network([], at.0, at.1, qtype)))
  }

  /** A plain resolver: follow answers, aliases and glue for so many hops. */
  function Follow(step: Asking -> Onward, at: Asking, hops: nat): Option<Resolved>
    decreases hops
  {
    if hops == 0 then None
    else match step(at)
      case Gives(a) => Some(a)
      case Goes(next) => Follow(step, next, hops - 1)
      case Stops => None
  }

  /** On a path that is left only for where the step goes, or where it stops. */
  predicate Leaves(step: Asking -> Onward, at: Asking, next: Asking) { !step(at).Gives? && (step(at).Goes? ==> step(at).next == next) }

  ghost predicate Path(step: Asking -> Onward, path: seq<Asking>) {
    forall i :: 0 <= i < |path| - 1 ==> Leaves(step, path[i], path[i + 1])
  }

  /** Along such a path the plain resolver is on its way to its answer. */
  lemma {:induction false} FollowAlong(step: Asking -> Onward, path: seq<Asking>, hops: nat, a: Resolved)
    requires path != [] && |path| <= hops && Path(step, path) && Follow(step, path[0], hops) == Some(a)
    ensures var end := step(path[|path| - 1]); !end.Stops? && (end.Gives? || |path| == hops ==> end == Gives(a))
    decreases |path|
  {
    if 1 < |path| {
      assert Leaves(step, path[0], path[1]);
      forall i | 0 <= i < |path[1..]| - 1 ensures Leaves(step, path[1..][i], path[1..][i + 1]) {
        assert Leaves(step, path[i + 1], path[i + 2]);
      }
      FollowAlong(step, path[1..], hops - 1, a);
    }
  }

  function At(e: Exchange): Asking { (e.servers, e.name) }

  lemma PlainLast(w: World, h: History, first: nat, hops: seq<int>, qname: Bytes, qtype: nat)
    requires Stateless(w) && Honest(w, h, first) && Walk(w, h, first, hops, qname, qtype)
    ensures first <= Last(hops) < |h| && Comes(w, h[Last(hops)]) == Plainly(w, qtype)(At(h[Last(hops)]))
  {
    WalkStarts(w, h, first, hops, qname, qtype);
    assert Fair(w, h, Last(hops));
  }

  lemma LinkLeaves(w: World, h: History, i: int, j: int)
    requires Link(w, h, i, j)
    ensures 0 <= i < j < |h| && !Comes(w, h[i]).Gives? && (Comes(w, h[i]).Goes? ==> Comes(w, h[i]).next == At(h[j]))
  {
    assert h[..j][i] == h[i];
  }

  lemma PathSnoc(step: Asking -> Onward, path: seq<Asking>, at: Asking)
    requires path != [] && Path(step, path) && Leaves(step, path[|path| - 1], at)
    ensures Path(step, path + [at])
  {
    var all := path + [at];
    forall i | 0 <= i < |all| - 1 ensures Leaves(step, all[i], all[i + 1]) {
      if i < |path| - 1 {
        assert Leaves(step, path[i], path[i + 1]);
      }
    }
  }

  /** The hops of a walk as such a path. */
  lemma {:induction false} WalkPath(w: World, h: History, first: nat, hops: seq<int>, qname: Bytes, qtype: nat) returns (path: seq<Asking>)
    requires Stateless(w) && Honest(w, h, first) && Walk(w, h, first, hops, qname, qtype)
    ensures |path| == |hops| && path[0] == (w.start, Normal(w, qname)) && Path(Plainly(w, qtype), path)
    ensures 0 <= Last(hops) < |h| && path[|path| - 1] == At(h[Last(hops)])
    decreases |hops|
  {
    if |hops| == 1 {
      path := [At(h[Last(hops)])];
    } else {
      var before := hops[..|hops| - 1];
      path := WalkPath(w, h, first, before, qname, qtype);
      LinkLeaves(w, h, Last(before), Last(hops));
      PlainLast(w, h, first, before, qname, qtype);
      PathSnoc(Plainly(w, qtype), path, At(h[Last(hops)]));
      path := path + [At(h[Last(hops)])];
    }
  }

  /** Whatever can be resolved through answers, aliases and glue within twenty hops is resolved, to just that
      answer. */
  lemma DirectIsResolved(w: World, qname: Bytes, qtype: nat, depth: int, past: History, log: History, hops: seq<int>,
                         r: Option<Resolved>, limit: nat, a: Resolved)
    requires Stateless(w) && 0 < depth && Honest(w, log, |past|) && Resolution(w, qname, qtype, depth, past, log, hops, r)
    requires limit == 20 && Follow(Plainly(w, qtype), (w.start, Normal(w, qname)), limit) == Some(a)
    ensures r == Some(a)
  {
    var path := WalkPath(w, log, |past|, hops, qname, qtype);
    FollowAlong(Plainly(w, qtype), path, limit, a);
    PlainLast(w, log, |past|, hops, qname, qtype);
    GivesOutcome(w, depth, log, |hops|, Last(hops), r, a);
  }

  lemma GivesOutcome(w: World, depth: nat, log: History, count: nat, last: int, r: Option<Resolved>, a: Resolved)
    requires 0 <= last < |log| && 0 < depth && Outcome(w, depth, log, count, last, r)
    requires var end := Comes(w, log[last]); !end.Stops? && (end.Gives? || count == MAX_HOPS ==> end == Gives(a))
    ensures r == Some(a)
  {
  }

  /** Names that differ in a trailing dot, or are alike in lower case, are asked for alike. */
  lemma NormalIsCanonical(w: World, a: Bytes, b: Bytes)
    requires w.lower(TrimDot(a)) == w.lower(TrimDot(b))
    ensures Normal(w, a) == Normal(w, b) && Normal(w, a) != [] && TrimDot(Normal(w, a)) == w.lower(TrimDot(a))
  {
    assert (w.lower(TrimDot(a)) + [DOT])[..|w.lower(TrimDot(a))|] == w.lower(TrimDot(a));
  }
}
