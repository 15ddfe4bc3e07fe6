/** One segment's DHCP server: address allocation and the REQUEST/OFFER protocol
    (RFC 2131 sections 4.3.1 to 4.3.3) over the shared configuration store. */
module DhcpServer {
  import opened Basics
  import opened ConfigStore

  /** Time in nanoseconds; `Seconds` is Go's Unix(). */
  type Time = nat
  const SECOND: nat := 1_000_000_000
  /** How long a declined address stays out of the pool: ten minutes. */
  const QUARANTINE: nat := 600 * SECOND

  function Seconds(t: int): int { t / SECOND }

  /** A resolved entry of the kernel's ARP table. */
  datatype ArpEntry = ArpEntry(ip: IPv4, mac: string, iface: string)

  /** The fields of a parsed packet the handlers read. */
  datatype Packet = Packet(mac: string, ciaddr: IPv4, requested: Option<IPv4>, serverID: Option<IPv4>, hostname: string)

  datatype Reply =
    | Offer(yourIP: IPv4, serverID: Option<IPv4>)
    | Ack(yourIP: IPv4, serverID: Option<IPv4>)
    | Nak(serverID: Option<IPv4>)

  /** What one packet is handled against: the store, the segment served, the quarantine, the ARP
      table (None when it could not be read) and the time. */
  datatype View = View(store: Store, segmentID: string, declined: map<IPv4, Time>, arp: Option<seq<ArpEntry>>, now: Time)

  predicate Quarantined(declined: map<IPv4, Time>, ip: IPv4, now: Time) {
    ip in declined && now <= declined[ip]
  }

  function SegmentOf(v: View): Option<Segment> { FindSegment(v.store.segments, v.segmentID) }

  function Pool(v: View): Option<(IPv4, IPv4)> { PoolOf(v.store.segments, v.segmentID) }

  predicate InPool(v: View, ip: IPv4) {
    Pool(v).Some? && Pool(v).value.0 <= ip <= Pool(v).value.1
  }

  /** Claimed on the segment's own interface by another device. */
  predicate ArpTaken(v: View, mac: string, ip: IPv4) {
    && v.arp.Some? && SegmentOf(v).Some?
    && exists e :: e in v.arp.value && e.iface == SegmentOf(v).value.iface && e.mac != mac && e.ip == ip
  }

  ghost function TakenSet(v: View, mac: string): set<IPv4> {
    set ip: IPv4 | ArpTaken(v, mac, ip)
  }

  /** Nothing speaks against giving `ip` to `mac` (the gateway test is separate). */
  predicate Available(v: View, mac: string, ip: IPv4) {
    && !InUse(v.store.reservations, v.store.leases, ip, mac)
    && !ArpTaken(v, mac, ip)
    && !Quarantined(v.declined, ip, v.now)
  }

  /** What the pool scan accepts. */
  predicate Free(v: View, mac: string, ip: IPv4) {
    && SegmentOf(v).Some? && SegmentOf(v).value.address != Some(ip)
    && Available(v, mac, ip)
  }

  /** The four bytes incremented with carry: after the last address comes 0.0.0.0. */
  function NextIP(ip: IPv4): IPv4 { if ip == MAX_IP then 0 else ip + 1 }

  /** The least free address in [ip, end]. */
  function FirstFree(v: View, mac: string, ip: int, end: IPv4): Option<IPv4>
    requires 0 <= ip
    decreases end + 1 - ip
  {
    if ip > end then None
    else if Free(v, mac, ip) then Some(ip)
    else FirstFree(v, mac, ip + 1, end)
  }

  /** The scan of the pool. The increment wraps, so a pool that ends at 255.255.255.255 with
      nothing free in it goes on at 0.0.0.0. */
  function Scan(v: View, mac: string, start: IPv4, end: IPv4): Option<IPv4> {
    var f := FirstFree(v, mac, start, end);
    if f.Some? || end < MAX_IP then f else FirstFree(v, mac, 0, MAX_IP)
  }

  /** The scan ends: its pool stops short of the last address, or some address is free. */
  ghost predicate ScanEnds(v: View, mac: string) {
    Pool(v).Some? && Pool(v).value.1 == MAX_IP ==> exists ip: IPv4 :: Free(v, mac, ip)
  }

  /** Allocation gets as far as scanning the pool: no reservation or usable lease on this segment, and the
      requested address, if any, is not to be had. */
  predicate ScanReached(v: View, mac: string, requested: Option<IPv4>) {
    var r, l := FindReservation(v.store.reservations, mac), FindLease(v.store.leases, mac);
    && !(r.Some? && r.value.segmentID == v.segmentID)
    && !(l.Some? && l.value.segmentID == v.segmentID
         && (Seconds(v.now) < l.value.expiresAt || requested.None? || requested.value == l.value.ip))
    && !(requested.Some? && InPool(v, requested.value) && Available(v, mac, requested.value))
  }

  /** What allocation needs in order to terminate. */
  ghost predicate Terminates(v: View, mac: string, requested: Option<IPv4>) {
    ScanReached(v, mac, requested) ==> ScanEnds(v, mac)
  }

  datatype Refusal = NoSegment | BadPool | PoolExhausted
  datatype Allocation = Granted(ip: IPv4) | Refused(why: Refusal)

  /** A reservation on this segment, else the lease held on this segment (when still active, when
      nothing is requested, or when it is what is requested), else the requested address when
      it is in the pool and available, else the first free address of the pool. */
  function Allocate(v: View, mac: string, requested: Option<IPv4>): Allocation {
    var r := FindReservation(v.store.reservations, mac);
    var l := FindLease(v.store.leases, mac);
    if r.Some? && r.value.segmentID == v.segmentID then Granted(r.value.ip)
    else if l.Some? && l.value.segmentID == v.segmentID
      && (Seconds(v.now) < l.value.expiresAt || requested.None? || requested.value == l.value.ip) then Granted(l.value.ip)
    else if SegmentOf(v).None? then Refused(NoSegment)
    else if requested.Some? && InPool(v, requested.value) && Available(v, mac, requested.value) then Granted(requested.value)
    else if Pool(v).None? then Refused(BadPool)
    else
      match Scan(v, mac, Pool(v).value.0, Pool(v).value.1)
      case Some(ip) => Granted(ip)
      case None => Refused(PoolExhausted)
  }

  /** `serverIP`: an error when the segment is gone; otherwise the parsed address, possibly nil. */
  predicate ForAnotherServer(v: View, p: Packet) {
    p.serverID.Some? && SegmentOf(v).Some? && SegmentOf(v).value.address != p.serverID
  }

  function Wanted(p: Packet): Option<IPv4> {
    if p.requested.Some? then p.requested else if p.ciaddr != 0 then Some(p.ciaddr) else None
  }

  /** What a REQUEST does: say nothing, refuse, or confirm and record a lease. */
  datatype Verdict = Silent | Refuse(nak: Reply) | Confirm(ack: Reply, lease: Lease)

  function OnDiscover(v: View, p: Packet): Option<Reply> {
    var a := Allocate(v, p.mac, p.requested);
    if a.Granted? && SegmentOf(v).Some? then Some(Offer(a.ip, SegmentOf(v).value.address)) else None
  }

  function NewLease(v: View, p: Packet, ip: IPv4): Lease {
    Lease(p.mac, ip, if p.hostname == "" then "(unknown)" else p.hostname,
          Seconds(v.now + v.store.leaseSeconds * SECOND), v.segmentID)
  }

  function OnRequest(v: View, p: Packet): Verdict {
    if ForAnotherServer(v, p) then Silent
    else
      var want := Wanted(p);
      var a := Allocate(v, p.mac, want);
      if SegmentOf(v).None? then Silent
      else if a.Refused? || (want.Some? && a.ip != want.value) then Refuse(Nak(SegmentOf(v).value.address))
      else Confirm(Ack(a.ip, SegmentOf(v).value.address), NewLease(v, p, a.ip))
  }

  function OnDecline(v: View, p: Packet): map<IPv4, Time> {
    if ForAnotherServer(v, p) || p.requested.None? then v.declined
    else v.declined[p.requested.value := v.now + QUARANTINE]
  }

  /** A quarantined address is granted to no client that has neither a reservation nor a lease on the
      segment. */
  lemma QuarantinedIsNotGranted(v: View, mac: string, requested: Option<IPv4>, ip: IPv4)
    requires Quarantined(v.declined, ip, v.now)
    requires var r := FindReservation(v.store.reservations, mac); r.None? || r.value.segmentID != v.segmentID
    requires var l := FindLease(v.store.leases, mac); l.None? || l.value.segmentID != v.segmentID
    ensures Allocate(v, mac, requested) != Granted(ip)
  {
    if Pool(v).Some? {
      FirstFreeMeans(v, mac, Pool(v).value.0, Pool(v).value.1);
      FirstFreeMeans(v, mac, 0, MAX_IP);
    }
  }

  // ----- the pool scan -----

  /** The scan's answer is the least free address, and None means there is none. */
  lemma {:induction false} FirstFreeMeans(v: View, mac: string, ip: int, end: IPv4)
    requires 0 <= ip
    ensures match FirstFree(v, mac, ip, end)
      case Some(f) => ip <= f <= end && Free(v, mac, f) && forall x: IPv4 :: ip <= x < f ==> !Free(v, mac, x)
      case None => forall x: IPv4 :: ip <= x <= end ==> !Free(v, mac, x)
    decreases end + 1 - ip
  {
    if ip <= end && !Free(v, mac, ip) {
      FirstFreeMeans(v, mac, ip + 1, end);
    }
  }

  /** The addresses the pool scan is meant to choose from. */
  predicate Candidate(v: View, mac: string, ip: IPv4) {
    InPool(v, ip) && Free(v, mac, ip)
  }

  /** When neither reservation, lease nor requested address applies, the scan answers the least
      candidate of the pool, and exhaustion exactly when there is none - if and only if the pool
      stops short of 255.255.255.255 or has a candidate. */
  lemma ScanIsLeast(v: View, mac: string)
    requires Pool(v).Some? && ScanEnds(v, mac)
    ensures var r := Scan(v, mac, Pool(v).value.0, Pool(v).value.1);
      (match r
       case Some(f) => Candidate(v, mac, f) && forall x: IPv4 :: Candidate(v, mac, x) ==> f <= x
       case None => forall x: IPv4 :: !Candidate(v, mac, x))
      <==> (Pool(v).value.1 < MAX_IP || exists x: IPv4 :: Candidate(v, mac, x))
  {
    var (start, end) := Pool(v).value;
    FirstFreeMeans(v, mac, start, end);
    FirstFreeMeans(v, mac, 0, MAX_IP);
    var f := FirstFree(v, mac, start, end);
    if f.Some? {
      assert Candidate(v, mac, f.value);
    }
  }

  /** The address the scan looks at after n increments. */
  function Nth(start: IPv4, n: nat): IPv4 {
    if n == 0 then start else NextIP(Nth(start, n - 1))
  }

  /** Otherwise the scan never ends: every address it reaches is within bounds and rejected. */
  lemma ScanDiverges(v: View, mac: string, n: nat)
    requires !ScanEnds(v, mac)
    ensures Pool(v).Some?
    ensures Nth(Pool(v).value.0, n) <= Pool(v).value.1 && !Free(v, mac, Nth(Pool(v).value.0, n))
  {
  }

  /** The wrap at work: a one-address pool at 255.255.255.255, already leased, hands out 0.0.0.0. */
  lemma WrappedScanLeavesPool() returns (v: View)
    ensures Pool(v) == Some((MAX_IP, MAX_IP))
    ensures Allocate(v, "b", None) == Granted(0) && !InPool(v, 0)
  {
    var seg := Segment("s", "eth0", Some(1), Some(MAX_IP), Some(MAX_IP));
    var l := Lease("a", MAX_IP, "", 0, "s");
    v := View(Store([seg], [], [l], 60), "s", map[], None, 0);
    assert l in v.store.leases;
    assert !Free(v, "b", MAX_IP);
    assert FirstFree(v, "b", MAX_IP, MAX_IP) == None;
    assert FindLease([l], "b") == None;
    assert Free(v, "b", 0);
  }

  // ----- what a client is granted -----

  /** An entry of the ARP table on the interface of the segment served. */
  predicate OnWire(v: View, e: ArpEntry) {
    v.arp.Some? && e in v.arp.value && SegmentOf(v).Some? && e.iface == SegmentOf(v).value.iface
  }

  /** Another client holds or has reserved the address, another device answers for it on the segment's
      interface, or it was declined and its time is not over. */
  ghost predicate Claimed(v: View, mac: string, ip: IPv4) {
    || (exists r :: r in v.store.reservations && r.ip == ip && r.mac != mac)
    || (exists l :: l in v.store.leases && l.ip == ip && l.mac != mac)
    || (exists e :: OnWire(v, e) && e.ip == ip && e.mac != mac)
    || (ip in v.declined && v.now <= v.declined[ip])
  }

  lemma AvailableMeans(v: View, mac: string, ip: IPv4)
    ensures Available(v, mac, ip) <==> !Claimed(v, mac, ip)
  {
    if ArpTaken(v, mac, ip) {
      var e :| e in v.arp.value && e.iface == SegmentOf(v).value.iface && e.mac != mac && e.ip == ip;
      assert OnWire(v, e);
    }
  }

  predicate Gateway(v: View, ip: IPv4) { SegmentOf(v).Some? && SegmentOf(v).value.address == Some(ip) }

  /** What the scan may hand out. */
  ghost predicate Usable(v: View, mac: string, ip: IPv4) { !Claimed(v, mac, ip) && !Gateway(v, ip) }

  /** The least usable address of the pool; when there is none and the pool ends at 255.255.255.255, the
      least of all. */
  ghost predicate LeastUsable(v: View, mac: string, ip: IPv4) {
    && Pool(v).Some? && Usable(v, mac, ip)
    && if exists x: IPv4 :: InPool(v, x) && Usable(v, mac, x)
       then InPool(v, ip) && forall x: IPv4 :: InPool(v, x) && x < ip ==> !Usable(v, mac, x)
       else Pool(v).value.1 == MAX_IP && forall x: IPv4 :: x < ip ==> !Usable(v, mac, x)
  }

  /** The client has neither a reservation nor a lease on the segment. */
  predicate Newcomer(v: View, mac: string) {
    var r, l := FindReservation(v.store.reservations, mac), FindLease(v.store.leases, mac);
    (r.None? || r.value.segmentID != v.segmentID) && (l.None? || l.value.segmentID != v.segmentID)
  }

  /** The requested address is to be had: in the pool and nobody else's. */
  ghost predicate Obtainable(v: View, mac: string, requested: Option<IPv4>) {
    requested.Some? && InPool(v, requested.value) && !Claimed(v, mac, requested.value)
  }

  lemma FreeMeans(v: View, mac: string)
    requires SegmentOf(v).Some?
    ensures forall ip: IPv4 :: Free(v, mac, ip) <==> Usable(v, mac, ip)
  {
    forall ip: IPv4 ensures Free(v, mac, ip) <==> Usable(v, mac, ip) {
      AvailableMeans(v, mac, ip);
    }
  }

  lemma ScanMeans(v: View, mac: string)
    requires Pool(v).Some? && SegmentOf(v).Some? && ScanEnds(v, mac)
    ensures match Scan(v, mac, Pool(v).value.0, Pool(v).value.1)
      case Some(ip) => LeastUsable(v, mac, ip)
      case None => Pool(v).value.1 < MAX_IP && forall x: IPv4 :: InPool(v, x) ==> !Usable(v, mac, x)
  {
    FreeMeans(v, mac);
    FirstFreeMeans(v, mac, Pool(v).value.0, Pool(v).value.1);
    FirstFreeMeans(v, mac, 0, MAX_IP);
  }

  /** What a newcomer gets: the requested address when it is to be had, else the least usable address, which
      is never the gateway's; and a refusal exactly for want of a segment, a pool or a usable address. Never
      an address that anybody else claims. */
  lemma NewcomerGets(v: View, mac: string, requested: Option<IPv4>)
    requires Newcomer(v, mac) && Terminates(v, mac, requested)
    ensures match Allocate(v, mac, requested)
      case Granted(ip) =>
        && SegmentOf(v).Some? && !Claimed(v, mac, ip)
        && if Obtainable(v, mac, requested) then ip == requested.value else LeastUsable(v, mac, ip)
      case Refused(NoSegment) => SegmentOf(v).None?
      case Refused(BadPool) => SegmentOf(v).Some? && Pool(v).None?
      case Refused(PoolExhausted) => Pool(v).Some? && forall x: IPv4 :: InPool(v, x) ==> !Usable(v, mac, x)
  {
    if requested.Some? {
      AvailableMeans(v, mac, requested.value);
    }
    if SegmentOf(v).Some? && Pool(v).Some? && ScanReached(v, mac, requested) {
      ScanMeans(v, mac);
    }
  }

  /** What a newcomer's DISCOVER is answered: an OFFER of the requested address when it is to be had, else of
      the least usable one, under the gateway's address; silence when there is nothing to offer. */
  lemma OfferAnswer(v: View, p: Packet)
    requires Newcomer(v, p.mac) && Terminates(v, p.mac, p.requested)
    ensures match OnDiscover(v, p)
      case Some(Offer(ip, server)) =>
        && SegmentOf(v).Some? && server == SegmentOf(v).value.address
        && if Obtainable(v, p.mac, p.requested) then ip == p.requested.value else LeastUsable(v, p.mac, ip)
      case Some(_) => false
      case None => Pool(v).None? || forall x: IPv4 :: InPool(v, x) ==> !Usable(v, p.mac, x)
  {
    NewcomerGets(v, p.mac, p.requested);
  }

  /** The scan never hands out the gateway's own address, but a newcomer that asks for it gets it whenever
      the pool contains it and nobody claims it. */
  lemma GatewayIsGrantedIff(v: View, mac: string, requested: Option<IPv4>, g: IPv4)
    requires Newcomer(v, mac) && Gateway(v, g)
    ensures Allocate(v, mac, requested) == Granted(g) <==> requested == Some(g) && Obtainable(v, mac, requested)
  {
    if requested.Some? {
      AvailableMeans(v, mac, requested.value);
    }
    if Pool(v).Some? {
      FirstFreeMeans(v, mac, Pool(v).value.0, Pool(v).value.1);
      FirstFreeMeans(v, mac, 0, MAX_IP);
    }
  }

  /** A segment whose pool is just the gateway's address, which the client asks for. */
  lemma GatewayCanBeGranted() returns (v: View)
    ensures Gateway(v, 1) && Allocate(v, "a", Some(1)) == Granted(1) && Allocate(v, "a", None) == Refused(PoolExhausted)
  {
    v := View(Store([Segment("s", "eth0", Some(1), Some(1), Some(1))], [], [], 60), "s", map[], None, 0);
    assert FirstFree(v, "a", 2, 1) == None;
    assert FirstFree(v, "a", 1, 1) == None;
  }

  /** A client with a reservation on the segment gets it, whatever it asks for. A client with a lease there
      keeps it up to the second it expires; afterwards it may still have it by asking for it or for nothing,
      and moves to another address only by asking for one that is to be had. */
  lemma OwnAddress(v: View, mac: string, requested: Option<IPv4>)
    ensures var r, l := FindReservation(v.store.reservations, mac), FindLease(v.store.leases, mac);
      if r.Some? && r.value.segmentID == v.segmentID then Allocate(v, mac, requested) == Granted(r.value.ip)
      else if l.Some? && l.value.segmentID == v.segmentID then
        && (v.now < l.value.expiresAt * SECOND || requested in {None, Some(l.value.ip)} ==> Allocate(v, mac, requested) == Granted(l.value.ip))
        && (l.value.expiresAt * SECOND <= v.now && Obtainable(v, mac, requested) && requested != Some(l.value.ip) ==>
              Allocate(v, mac, requested) == Granted(requested.value))
      else true
  {
    if requested.Some? {
      AvailableMeans(v, mac, requested.value);
    }
    var l := FindLease(v.store.leases, mac);
    if l.Some? {
      SecondsBefore(v.now, l.value.expiresAt);
    }
  }

  lemma SecondsBefore(now: Time, until: int)
    ensures Seconds(now) < until <==> now < until * SECOND
  {
  }

  /** What the client named: the requested address if there is one, else the address it has, if any. */
  predicate Names(p: Packet, ip: IPv4) {
    p.requested == Some(ip) || (p.requested.None? && p.ciaddr == ip && ip != 0)
  }

  /** A REQUEST is answered unless it names another server or the segment is gone; with an ACK for the address
      it names (or, naming none, for what allocation grants) and a lease with that client, address, segment and
      time; and with a NAK exactly when allocation does not grant what it names, or grants nothing. */
  lemma RequestAnswer(v: View, p: Packet)
    ensures var s := SegmentOf(v);
      match OnRequest(v, p)
      case Silent => s.None? || (p.serverID.Some? && p.serverID != s.value.address)
      case Confirm(ack, l) =>
        && s.Some? && (p.serverID.None? || p.serverID == s.value.address)
        && ack == Ack(l.ip, s.value.address) && l.mac == p.mac && l.segmentID == v.segmentID
        && (l.hostname == p.hostname || (p.hostname == "" && l.hostname == "(unknown)"))
        && l.expiresAt * SECOND <= v.now + v.store.leaseSeconds * SECOND < (l.expiresAt + 1) * SECOND
        && (forall ip: IPv4 :: Names(p, ip) ==> l.ip == ip)
        && (if exists ip: IPv4 :: Names(p, ip) then Allocate(v, p.mac, Some(l.ip)) == Granted(l.ip) else Allocate(v, p.mac, None) == Granted(l.ip))
      case Refuse(nak) =>
        && s.Some? && (p.serverID.None? || p.serverID == s.value.address) && nak == Nak(s.value.address)
        && if exists ip: IPv4 :: Names(p, ip) then exists ip: IPv4 :: Names(p, ip) && Allocate(v, p.mac, Some(ip)) != Granted(ip)
           else Allocate(v, p.mac, None).Refused?
  {
    var want := Wanted(p);
    if want.Some? {
      assert Names(p, want.value);
    }
    assert forall ip: IPv4 :: Names(p, ip) ==> want == Some(ip);
  }

  // ----- deleting expired quarantine entries changes nothing -----

  function Purge(declined: map<IPv4, Time>, ip: IPv4, now: Time): map<IPv4, Time> {
    if ip in declined && declined[ip] < now then declined - {ip} else declined
  }

  /** The same addresses are quarantined now and at any later time. */
  ghost predicate SameQuarantine(a: map<IPv4, Time>, b: map<IPv4, Time>, now: Time) {
    forall ip, t: Time :: now <= t ==> (Quarantined(a, ip, t) <==> Quarantined(b, ip, t))
  }

  lemma {:induction false} FirstFreeSame(v: View, w: View, mac: string, ip: int, end: IPv4)
    requires 0 <= ip && w == v.(declined := w.declined) && SameQuarantine(v.declined, w.declined, v.now)
    ensures FirstFree(v, mac, ip, end) == FirstFree(w, mac, ip, end)
    decreases end + 1 - ip
  {
    if ip <= end {
      assert Free(v, mac, ip) <==> Free(w, mac, ip);
      if !Free(v, mac, ip) {
        FirstFreeSame(v, w, mac, ip + 1, end);
      }
    }
  }

  /** Allocation depends on the quarantine only through which addresses are still in it. */
  lemma AllocateSame(v: View, w: View, mac: string, requested: Option<IPv4>)
    requires w == v.(declined := w.declined) && SameQuarantine(v.declined, w.declined, v.now)
    ensures Allocate(v, mac, requested) == Allocate(w, mac, requested)
  {
    if Pool(v).Some? {
      FirstFreeSame(v, w, mac, Pool(v).value.0, Pool(v).value.1);
      FirstFreeSame(v, w, mac, 0, MAX_IP);
    }
    if requested.Some? {
      assert Available(v, mac, requested.value) <==> Available(w, mac, requested.value);
    }
  }

  /** Where the scan is: before the wrap nothing free was passed since `start`; after it, nothing
      is free in the pool and nothing free was passed since 0.0.0.0. */
  predicate Scanned(v: View, mac: string, start: IPv4, end: IPv4, ip: IPv4, wrapped: bool) {
    if wrapped then
      && end == MAX_IP && FirstFree(v, mac, start, end) == None
      && FirstFree(v, mac, 0, MAX_IP) == FirstFree(v, mac, ip, MAX_IP)
    else
      FirstFree(v, mac, start, end) == FirstFree(v, mac, if ip <= end then ip else end + 1, end)
  }

  /** After the wrap the scan does not get round again. */
  lemma WrapsOnce(v: View, mac: string)
    requires ScanEnds(v, mac) && Pool(v).Some? && Pool(v).value.1 == MAX_IP
    ensures FirstFree(v, mac, 0, MAX_IP).Some?
  {
    FirstFreeMeans(v, mac, 0, MAX_IP);
  }

  lemma SkipTaken(v: View, mac: string, ip: IPv4, end: IPv4)
    requires ip <= end && !Free(v, mac, ip)
    ensures FirstFree(v, mac, ip, end) == FirstFree(v, mac, ip + 1, end)
  {
  }

  lemma ScanStep(v: View, mac: string, start: IPv4, end: IPv4, ip: IPv4, wrapped: bool)
    requires Scanned(v, mac, start, end, ip, wrapped) && ip <= end
    requires FirstFree(v, mac, ip, end) == FirstFree(v, mac, ip + 1, end)
    requires end == MAX_IP ==> FirstFree(v, mac, 0, MAX_IP).Some?
    ensures Scanned(v, mac, start, end, NextIP(ip), wrapped || ip == MAX_IP)
    ensures !(wrapped && ip == MAX_IP)
  {
  }

  /** Steps the scan can still take. */
  function Left(ip: IPv4, wrapped: bool): int { if wrapped then MAX_IP - ip else 2 * MAX_IP - ip + 1 }

  lemma ScanFound(v: View, mac: string, start: IPv4, end: IPv4, ip: IPv4, wrapped: bool)
    requires Scanned(v, mac, start, end, ip, wrapped) && ip <= end && Free(v, mac, ip)
    ensures Scan(v, mac, start, end) == Some(ip)
  {
  }

  lemma ScanOver(v: View, mac: string, start: IPv4, end: IPv4, ip: IPv4, wrapped: bool)
    requires Scanned(v, mac, start, end, ip, wrapped) && end < ip
    ensures Scan(v, mac, start, end) == None
  {
  }

  // ----- the server object -----

  class Server {
    const cfg: Config
    const segmentID: string
    var declined: map<IPv4, Time>

    constructor (cfg: Config, segmentID: string)
      ensures this.cfg == cfg && this.segmentID == segmentID && declined == map[]
    {
      this.cfg, this.segmentID, this.declined := cfg, segmentID, map[];
    }

    /** What a packet arriving now is handled against. */
    function At(arp: Option<seq<ArpEntry>>, now: Time): (v: View)
      reads this, cfg
      ensures v.store == cfg.Contents() && v.segmentID == segmentID && v.declined == declined && v.arp == arp && v.now == now
    {
      View(cfg.Contents(), segmentID, declined, arp, now)
    }

    /** Removes an entry whose quarantine is over, which no later question can notice. */
    method IsDeclined(ip: IPv4, now: Time) returns (b: bool)
      modifies this`declined
      ensures b == Quarantined(old(declined), ip, now)
      ensures declined == Purge(old(declined), ip, now)
      ensures SameQuarantine(old(declined), declined, now)
    {
      if ip !in declined {
        return false;
      }
      if declined[ip] < now {
        declined := declined - {ip};
        return false;
      }
      return true;
    }

    method ArpTakenIPs(arp: Option<seq<ArpEntry>>, iface: string, excludeMAC: string) returns (taken: set<IPv4>)
      ensures forall ip :: ip in taken <==>
        arp.Some? && exists e :: e in arp.value && e.iface == iface && e.mac != excludeMAC && e.ip == ip
    {
      taken := {};
      if arp.None? {
        return;
      }
      var es := arp.value;
      for i := 0 to |es|
        invariant forall ip :: ip in taken <==>
          exists k :: 0 <= k < i && es[k].iface == iface && es[k].mac != excludeMAC && es[k].ip == ip
      {
        if es[i].iface == iface && es[i].mac != excludeMAC {
          taken := taken + {es[i].ip};
        }
      }
    }

    /** The view `v` still describes this server and its store, up to expired quarantine entries. */
    ghost predicate Serving(v: View)
      reads this, cfg
    {
      v.store == cfg.Contents() && v.segmentID == segmentID && SameQuarantine(v.declined, declined, v.now)
    }

    method InPoolOf(ip: IPv4, ghost v: View) returns (b: bool)
      requires Serving(v)
      ensures b == InPool(v, ip)
    {
      var r := cfg.ParsePoolRangeForSegment(segmentID);
      b := r.Some? && r.value.0 <= ip <= r.value.1;
    }

    /** Not in use, not claimed in the ARP table, not in quarantine. */
    method CheckAvailable(ip: IPv4, mac: string, taken: set<IPv4>, now: Time, ghost v: View) returns (ok: bool)
      requires Serving(v) && v.now == now && taken == TakenSet(v, mac)
      modifies this`declined
      ensures ok <==> Available(v, mac, ip)
      ensures Serving(v)
    {
      var inUse := cfg.IPInUse(ip, mac);
      if inUse || ip in taken {
        return false;
      }
      var quarantined := IsDeclined(ip, now);
      return !quarantined;
    }

    /** The tests of the scan loop: never the gateway's own address, and available. */
    method CheckFree(ip: IPv4, mac: string, gateway: Option<IPv4>, taken: set<IPv4>, now: Time, ghost v: View) returns (ok: bool)
      requires Serving(v) && v.now == now && taken == TakenSet(v, mac)
      requires SegmentOf(v).Some? && SegmentOf(v).value.address == gateway
      modifies this`declined
      ensures ok <==> Free(v, mac, ip)
      ensures Serving(v)
    {
      if Some(ip) == gateway {
        return false;
      }
      ok := CheckAvailable(ip, mac, taken, now, v);
    }

    method TryAllocate(mac: string, requested: Option<IPv4>, arp: Option<seq<ArpEntry>>, now: Time) returns (a: Allocation)
      requires Terminates(At(arp, now), mac, requested)
      modifies this`declined
      ensures a == Allocate(old(At(arp, now)), mac, requested)
      ensures SameQuarantine(old(declined), declined, now)
    {
      ghost var v := At(arp, now);
      var r := cfg.ReservationForMAC(mac);
      if r.Some? && r.value.segmentID == segmentID {
        return Granted(r.value.ip);
      }
      var l := cfg.LeaseForMAC(mac);
      if l.Some? && l.value.segmentID == segmentID {
        if Seconds(now) < l.value.expiresAt || requested.None? || requested.value == l.value.ip {
          return Granted(l.value.ip);
        }
      }
      var seg := cfg.SegmentByID(segmentID);
      if seg.None? {
        return Refused(NoSegment);
      }
      var taken := ArpTakenIPs(arp, seg.value.iface, mac);
      assert taken == TakenSet(v, mac);
      if requested.Some? {
        var inPool := InPoolOf(requested.value, v);
        if inPool {
          var ok := CheckAvailable(requested.value, mac, taken, now, v);
          if ok {
            return Granted(requested.value);
          }
        }
      }
      var pool := cfg.ParsePoolRangeForSegment(segmentID);
      if pool.None? {
        return Refused(BadPool);
      }
      if pool.value.1 == MAX_IP {
        WrapsOnce(v, mac);
      }
      a := ScanPool(mac, seg.value.address, taken, pool.value.0, pool.value.1, now, v);
    }

    /** The scan loop; `v` is the view the packet is handled against. */
    method ScanPool(mac: string, gateway: Option<IPv4>, taken: set<IPv4>, start: IPv4, end: IPv4, now: Time, ghost v: View)
      returns (a: Allocation)
      requires Serving(v) && v.now == now
      requires end == MAX_IP ==> FirstFree(v, mac, 0, MAX_IP).Some?
      requires SegmentOf(v).Some? && SegmentOf(v).value.address == gateway
      requires taken == TakenSet(v, mac)
      modifies this`declined
      ensures a == match Scan(v, mac, start, end) case Some(ip) => Granted(ip) case None => Refused(PoolExhausted)
      ensures Serving(v)
    {
      var ip: IPv4 := start;
      ghost var wrapped := false;
      while ip <= end
        invariant Serving(v)
        invariant Scanned(v, mac, start, end, ip, wrapped)
        decreases Left(ip, wrapped)
      {
        var free := CheckFree(ip, mac, gateway, taken, now, v);
        if free {
          ScanFound(v, mac, start, end, ip, wrapped);
          return Granted(ip);
        }
        SkipTaken(v, mac, ip, end);
        ScanStep(v, mac, start, end, ip, wrapped);
        wrapped := wrapped || ip == MAX_IP;
        ip := NextIP(ip);
      }
      ScanOver(v, mac, start, end, ip, wrapped);
      return Refused(PoolExhausted);
    }

    method HandleDiscover(p: Packet, arp: Option<seq<ArpEntry>>, now: Time) returns (reply: Option<Reply>)
      requires Terminates(At(arp, now), p.mac, p.requested)
      modifies this`declined
      ensures reply == OnDiscover(old(At(arp, now)), p)
      ensures SameQuarantine(old(declined), declined, now)
    {
      var a := TryAllocate(p.mac, p.requested, arp, now);
      if a.Refused? {
        return None;
      }
      var seg := cfg.SegmentByID(segmentID);
      if seg.None? {
        return None;
      }
      return Some(Offer(a.ip, seg.value.address));
    }

    method HandleRequest(p: Packet, arp: Option<seq<ArpEntry>>, now: Time) returns (reply: Option<Reply>)
      requires ForAnotherServer(At(arp, now), p) || Terminates(At(arp, now), p.mac, Wanted(p))
      modifies this`declined, cfg`leases, cfg`mutGen
      ensures SameQuarantine(old(declined), declined, now)
      ensures match OnRequest(old(At(arp, now)), p)
        case Silent => reply == None && cfg.leases == old(cfg.leases)
        case Refuse(nak) => reply == Some(nak) && cfg.leases == old(cfg.leases)
        case Confirm(ack, lease) => reply == Some(ack) && cfg.leases == PutLease(old(cfg.leases), lease)
      ensures cfg.mutGen == old(cfg.mutGen) + (if OnRequest(old(At(arp, now)), p).Confirm? then 1 else 0)
    {
      var seg := cfg.SegmentByID(segmentID);
      if p.serverID.Some? {
        if seg.Some? && p.serverID != seg.value.address {
          return None;
        }
      }
      var want := None;
      if p.requested.Some? {
        want := p.requested;
      } else if p.ciaddr != 0 {
        want := Some(p.ciaddr);
      }
      var a := TryAllocate(p.mac, want, arp, now);
      if a.Refused? || (want.Some? && a.ip != want.value) {
        if seg.None? {
          return None;
        }
        return Some(Nak(seg.value.address));
      }
      if seg.None? {
        return None;
      }
      reply := Some(Ack(a.ip, seg.value.address));
      var hostname := p.hostname;
      if hostname == "" {
        hostname := "(unknown)";
      }
      cfg.UpsertLease(Lease(p.mac, a.ip, hostname, Seconds(now + cfg.leaseSeconds * SECOND), segmentID));
    }

    /** The declined address is in quarantine for ten minutes and no longer, and nothing else changes; a
        DECLINE that is for another server or names no address changes nothing. */
    method HandleDecline(p: Packet, now: Time)
      modifies this`declined
      ensures declined == OnDecline(old(At(None, now)), p)
      ensures ForAnotherServer(old(At(None, now)), p) || p.requested.None? ==> declined == old(declined)
      ensures !ForAnotherServer(old(At(None, now)), p) && p.requested.Some? ==>
        && (forall t: Time :: Quarantined(declined, p.requested.value, t) <==> t <= now + 600 * SECOND)
        && (forall ip, t: Time :: ip != p.requested.value ==> (Quarantined(declined, ip, t) <==> Quarantined(old(declined), ip, t)))
    {
      var seg := cfg.SegmentByID(segmentID);
      if p.serverID.Some? {
        if seg.Some? && p.serverID != seg.value.address {
          return;
        }
      }
      if p.requested.None? {
        return;
      }
      declined := declined[p.requested.value := now + QUARANTINE];
    }
  }
}
