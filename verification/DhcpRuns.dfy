/** Several segment listeners sharing one lease store: what holds over every interleaving of their
    packets, when deciding an address and recording its lease are separate steps. */
module DhcpRuns {
  import opened Basics
  import opened ConfigStore
  import opened DhcpServer

  // ----- the machine -----

  /** A listener handles one packet at a time; `pending` is the lease of the ACK it has sent but
      not yet recorded. */
  datatype Listener = Listener(declined: map<IPv4, Time>, pending: Option<Lease>)
  datatype System = System(store: Store, listeners: map<string, Listener>)

  datatype PacketKind = Discovering | Requesting | Declining | Releasing

  datatype Event =
    | Receive(seg: string, kind: PacketKind, p: Packet, arp: Option<seq<ArpEntry>>, now: Time)
    | Record(seg: string)
    | Forget(mac: string)      // the dashboard clears a lease
    | Reserve(r: Reservation)  // the dashboard adds or changes a reservation

  predicate Ready(s: System, seg: string) {
    seg in s.listeners && s.listeners[seg].pending.None?
  }

  predicate Possible(s: System, e: Event) {
    match e
    case Receive(seg, _, _, _, _) => Ready(s, seg)
    case Record(seg) => seg in s.listeners && s.listeners[seg].pending.Some?
    case _ => true
  }

  function Seen(s: System, seg: string, arp: Option<seq<ArpEntry>>, now: Time): (v: View)
    requires seg in s.listeners
    ensures v.store == s.store && v.segmentID == seg && v.declined == s.listeners[seg].declined && v.arp == arp && v.now == now
  {
    View(s.store, seg, s.listeners[seg].declined, arp, now)
  }

  function After(s: System, e: Event): System
    requires Possible(s, e)
  {
    match e
    case Receive(seg, kind, p, arp, now) =>
      var v := Seen(s, seg, arp, now);
      var w := s.listeners[seg];
      (match kind
       case Requesting =>
         var o := OnRequest(v, p);
         if o.Confirm? then s.(listeners := s.listeners[seg := w.(pending := Some(o.lease))]) else s
       case Declining => s.(listeners := s.listeners[seg := w.(declined := OnDecline(v, p))])
       case _ => s)
    case Record(seg) =>
      var w := s.listeners[seg];
      System(s.store.(leases := PutLease(s.store.leases, w.pending.value)),
             s.listeners[seg := w.(pending := None)])
    case Forget(mac) => s.(store := s.store.(leases := DropLease(s.store.leases, mac)))
    case Reserve(r) => s.(store := s.store.(reservations := PutReservation(s.store.reservations, r)))
  }

  predicate Pending(s: System, seg: string) {
    seg in s.listeners && s.listeners[seg].pending.Some?
  }

  /** A run: events that happen one after the other, each possible when it happens. */
  ghost predicate IsRun(s: System, es: seq<Event>)
    decreases |es|
  {
    es == [] || (Possible(s, es[0]) && IsRun(After(s, es[0]), es[1..]))
  }

  function Final(s: System, es: seq<Event>): System
    requires IsRun(s, es)
    decreases |es|
  {
    if es == [] then s else Final(After(s, es[0]), es[1..])
  }

  // ----- offers, acknowledgements and renewals -----

  /** The same store, segment and ARP table at a later time, with no new declines. */
  ghost predicate Later(v: View, w: View) {
    && w == v.(declined := w.declined, now := w.now) && v.now <= w.now
    && forall ip :: Quarantined(w.declined, ip, w.now) ==> Quarantined(v.declined, ip, v.now)
  }

  /** Whatever allocation granted, asking for it later grants it again, in all four branches; of the pool
      scan's grants only those that left the pool, after the wrap, are excepted. */
  lemma GrantIsStable(v: View, w: View, mac: string, requested: Option<IPv4>, ip: IPv4)
    requires Later(v, w) && Allocate(v, mac, requested) == Granted(ip)
    requires ScanReached(v, mac, requested) ==> InPool(v, ip)
    ensures Allocate(w, mac, Some(ip)) == Granted(ip)
  {
    if Pool(v).Some? {
      FirstFreeMeans(v, mac, Pool(v).value.0, Pool(v).value.1);
      FirstFreeMeans(v, mac, 0, MAX_IP);
    }
    assert Available(v, mac, ip) ==> Available(w, mac, ip);
  }

  /** An OFFER followed by the client's REQUEST for it is acknowledged with that address. */
  lemma OfferIsHonoured(v: View, w: View, p: Packet, q: Packet)
    requires Later(v, w) && OnDiscover(v, p).Some?
    requires ScanReached(v, p.mac, p.requested) ==> InPool(v, OnDiscover(v, p).value.yourIP)
    requires q.mac == p.mac && q.requested == Some(OnDiscover(v, p).value.yourIP)
    requires q.serverID == OnDiscover(v, p).value.serverID
    ensures OnRequest(w, q).Confirm?
    ensures OnRequest(w, q).ack == Ack(OnDiscover(v, p).value.yourIP, OnDiscover(v, p).value.serverID)
  {
    GrantIsStable(v, w, p.mac, p.requested, OnDiscover(v, p).value.yourIP);
  }

  /** Every ACK carries the wanted address when one was given, and the lease recorded with it is
      for the same client, address and segment. */
  lemma AckMeans(v: View, p: Packet)
    requires OnRequest(v, p).Confirm?
    ensures var o := OnRequest(v, p);
      && o.ack.Ack? && o.lease.ip == o.ack.yourIP && o.lease.mac == p.mac && o.lease.segmentID == v.segmentID
      && (Wanted(p).Some? ==> o.ack.yourIP == Wanted(p).value)
      && !ForAnotherServer(v, p)
    ensures var r := FindReservation(v.store.reservations, p.mac);
      r.Some? && r.value.segmentID == v.segmentID ==> r.value.ip == OnRequest(v, p).lease.ip
  {
  }

  predicate From(e: Event, mac: string) {
    (e.Receive? && e.p.mac == mac) || (e.Forget? && e.mac == mac) || (e.Reserve? && e.r.mac == mac)
  }

  /** No acknowledged but unrecorded lease of this MAC is under way. */
  ghost predicate Settled(s: System, mac: string) {
    forall seg :: seg in s.listeners && s.listeners[seg].pending.Some? ==> s.listeners[seg].pending.value.mac != mac
  }

  lemma {:induction false} DropLeaseFind(ls: seq<Lease>, gone: string, mac: string)
    requires gone != mac
    ensures FindLease(DropLease(ls, gone), mac) == FindLease(ls, mac)
  {
    if ls == [] {
    } else if ls[0].mac == gone {
      assert DropLease(ls, gone) == DropLease(ls[1..], gone);
      DropLeaseFind(ls[1..], gone, mac);
    } else {
      var rest := DropLease(ls[1..], gone);
      assert DropLease(ls, gone) == [ls[0]] + rest;
      assert ([ls[0]] + rest)[1..] == rest;
      DropLeaseFind(ls[1..], gone, mac);
    }
  }

  /** The store as this client sees it: same segments, lease time and reservation of its own. */
  ghost predicate SameFor(s: Store, t: Store, mac: string) {
    && t == s.(leases := t.leases, reservations := t.reservations)
    && FindReservation(t.reservations, mac) == FindReservation(s.reservations, mac)
  }

  lemma OthersLeaveLease(s: System, e: Event, mac: string)
    requires Possible(s, e) && !From(e, mac) && Settled(s, mac)
    ensures var s' := After(s, e);
      && FindLease(s'.store.leases, mac) == FindLease(s.store.leases, mac)
      && Settled(s', mac)
      && SameFor(s.store, s'.store, mac)
  {
    match e
    case Receive(seg, kind, p, arp, now) =>
    case Record(seg) => PutLeaseMeans(s.store.leases, s.listeners[seg].pending.value, mac);
    case Forget(gone) => DropLeaseFind(s.store.leases, gone, mac);
    case Reserve(r) => PutReservationMeans(s.store.reservations, r, mac);
  }

  /** No packets from other clients, and no reservations for them, ever change a client's lease. */
  lemma {:induction false} LeaseSurvivesOthers(s: System, es: seq<Event>, mac: string)
    requires IsRun(s, es) && Settled(s, mac) && forall e :: e in es ==> !From(e, mac)
    ensures FindLease(Final(s, es).store.leases, mac) == FindLease(s.store.leases, mac)
    ensures SameFor(s.store, Final(s, es).store, mac)
    decreases |es|
  {
    if es != [] {
      assert es[0] in es;
      OthersLeaveLease(s, es[0], mac);
      LeaseSurvivesOthers(After(s, es[0]), es[1..], mac);
    }
  }

  /** The listener has acknowledged this lease and not yet recorded it; no other lease of the MAC is under way. */
  ghost predicate Acknowledged(s: System, seg: string, lease: Lease) {
    && Pending(s, seg) && s.listeners[seg].pending.value == lease
    && forall other :: other != seg && Pending(s, other) ==> s.listeners[other].pending.value.mac != lease.mac
  }

  lemma OthersLeavePending(s: System, e: Event, seg: string, lease: Lease)
    requires Possible(s, e) && !From(e, lease.mac) && e != Record(seg) && Acknowledged(s, seg, lease)
    ensures Acknowledged(After(s, e), seg, lease) && SameFor(s.store, After(s, e).store, lease.mac)
  {
    if e.Reserve? {
      PutReservationMeans(s.store.reservations, e.r, lease.mac);
    }
  }

  /** Whatever happens to others between the acknowledgement and its recording, the lease stays under way. */
  lemma {:induction false} PendingSurvivesOthers(s: System, es: seq<Event>, seg: string, lease: Lease)
    requires IsRun(s, es) && Acknowledged(s, seg, lease)
    requires forall e :: e in es ==> !From(e, lease.mac) && e != Record(seg)
    ensures Acknowledged(Final(s, es), seg, lease) && SameFor(s.store, Final(s, es).store, lease.mac)
    decreases |es|
  {
    if es != [] {
      assert es[0] in es;
      OthersLeavePending(s, es[0], seg, lease);
      PendingSurvivesOthers(After(s, es[0]), es[1..], seg, lease);
    }
  }

  /** After the ACK, any events of others, the recording, and any more events of others. */
  ghost predicate Renewable(s: System, seg: string, lease: Lease, mid: seq<Event>, es: seq<Event>) {
    && IsRun(s, mid) && (forall e :: e in mid ==> !From(e, lease.mac) && e != Record(seg))
    && Possible(Final(s, mid), Record(seg))
    && IsRun(After(Final(s, mid), Record(seg)), es) && (forall e :: e in es ==> !From(e, lease.mac))
  }

  lemma LeaseStands(s: System, seg: string, lease: Lease, mid: seq<Event>, es: seq<Event>)
    requires Acknowledged(s, seg, lease) && Renewable(s, seg, lease, mid, es)
    ensures var t := Final(After(Final(s, mid), Record(seg)), es);
      FindLease(t.store.leases, lease.mac) == Some(lease) && SameFor(s.store, t.store, lease.mac)
  {
    PendingSurvivesOthers(s, mid, seg, lease);
    var s1 := Final(s, mid);
    PutLeaseMeans(s1.store.leases, lease, lease.mac);
    LeaseSurvivesOthers(After(s1, Record(seg)), es, lease.mac);
  }

  /** Once a client has been acknowledged an address on a segment, then after any run of other
      clients' events - before the lease is recorded as well as after it - its REQUEST for that
      address there is acknowledged again, at any time, so also after the lease expired. */
  lemma RenewalIsStable(s: System, seg: string, p: Packet, arp: Option<seq<ArpEntry>>, now: Time,
                        mid: seq<Event>, es: seq<Event>, q: Packet, arp': Option<seq<ArpEntry>>, now': Time)
    requires Ready(s, seg) && Settled(s, p.mac)
    requires OnRequest(Seen(s, seg, arp, now), p).Confirm?
    requires Renewable(After(s, Receive(seg, Requesting, p, arp, now)), seg, OnRequest(Seen(s, seg, arp, now), p).lease, mid, es)
    requires seg in Final(After(Final(After(s, Receive(seg, Requesting, p, arp, now)), mid), Record(seg)), es).listeners
    requires q.mac == p.mac && Names(q, OnRequest(Seen(s, seg, arp, now), p).lease.ip)
    requires q.serverID.None? || q.serverID == OnRequest(Seen(s, seg, arp, now), p).ack.serverID
    ensures var lease := OnRequest(Seen(s, seg, arp, now), p).lease;
      var t := Final(After(Final(After(s, Receive(seg, Requesting, p, arp, now)), mid), Record(seg)), es);
      var o := OnRequest(Seen(t, seg, arp', now'), q);
      && FindLease(t.store.leases, p.mac) == Some(lease)
      && o.Confirm? && o.ack.yourIP == lease.ip
  {
    var v := Seen(s, seg, arp, now);
    var lease := OnRequest(v, p).lease;
    AckMeans(v, p);
    var s1 := After(s, Receive(seg, Requesting, p, arp, now));
    LeaseStands(s1, seg, lease, mid, es);
    var t := Final(After(Final(s1, mid), Record(seg)), es);
    RenewalAnswer(v, Seen(t, seg, arp', now'), p, q);
  }

  /** A view in which the acknowledged lease is recorded and the client's reservation is what it was. */
  lemma RenewalAnswer(v: View, w: View, p: Packet, q: Packet)
    requires OnRequest(v, p).Confirm? && w.segmentID == v.segmentID
    requires SameFor(v.store, w.store, p.mac) && FindLease(w.store.leases, p.mac) == Some(OnRequest(v, p).lease)
    requires q.mac == p.mac && Wanted(q) == Some(OnRequest(v, p).lease.ip)
    requires q.serverID.None? || q.serverID == OnRequest(v, p).ack.serverID
    ensures OnRequest(w, q).Confirm? && OnRequest(w, q).ack.yourIP == OnRequest(v, p).lease.ip
  {
    AckMeans(v, p);
  }

  /** The lease time is honoured: from the ACK, recorded or about to be, up to the last full second before the
      lease time is over, and after any run of other clients' events, a DISCOVER is offered the same address
      whatever it requests, and a REQUEST that names another address is refused. */
  lemma TermIsHonoured(s: System, seg: string, p: Packet, arp: Option<seq<ArpEntry>>, now: Time,
                       mid: seq<Event>, es: seq<Event>, q: Packet, arp': Option<seq<ArpEntry>>, now': Time)
    requires Ready(s, seg) && Settled(s, p.mac)
    requires OnRequest(Seen(s, seg, arp, now), p).Confirm?
    requires Renewable(After(s, Receive(seg, Requesting, p, arp, now)), seg, OnRequest(Seen(s, seg, arp, now), p).lease, mid, es)
    requires seg in Final(After(Final(After(s, Receive(seg, Requesting, p, arp, now)), mid), Record(seg)), es).listeners
    requires q.mac == p.mac && now' + SECOND <= now + s.store.leaseSeconds * SECOND
    ensures var lease := OnRequest(Seen(s, seg, arp, now), p).lease;
      var v := Seen(Final(After(Final(After(s, Receive(seg, Requesting, p, arp, now)), mid), Record(seg)), es), seg, arp', now');
      && SegmentOf(v).Some? && OnDiscover(v, q) == Some(Offer(lease.ip, SegmentOf(v).value.address))
      && (OnRequest(v, q).Confirm? ==> OnRequest(v, q).ack.yourIP == lease.ip)
      && (forall ip: IPv4 :: Names(q, ip) && ip != lease.ip ==> !OnRequest(v, q).Confirm?)
  {
    var v := Seen(s, seg, arp, now);
    var lease := OnRequest(v, p).lease;
    AckMeans(v, p);
    RequestAnswer(v, p);
    var s1 := After(s, Receive(seg, Requesting, p, arp, now));
    LeaseStands(s1, seg, lease, mid, es);
    var w := Seen(Final(After(Final(s1, mid), Record(seg)), es), seg, arp', now');
    TermAnswer(v, w, p, q);
  }

  lemma TermAnswer(v: View, w: View, p: Packet, q: Packet)
    requires OnRequest(v, p).Confirm? && w.segmentID == v.segmentID && q.mac == p.mac
    requires SameFor(v.store, w.store, p.mac) && FindLease(w.store.leases, p.mac) == Some(OnRequest(v, p).lease)
    requires w.now + SECOND <= v.now + v.store.leaseSeconds * SECOND
    ensures var ip := OnRequest(v, p).lease.ip;
      && SegmentOf(w).Some? && OnDiscover(w, q) == Some(Offer(ip, SegmentOf(w).value.address))
      && (OnRequest(w, q).Confirm? ==> OnRequest(w, q).ack.yourIP == ip)
      && (forall x: IPv4 :: Names(q, x) && x != ip ==> !OnRequest(w, q).Confirm?)
  {
    AckMeans(v, p);
    RequestAnswer(v, p);
    OwnAddress(w, q.mac, q.requested);
    OwnAddress(w, q.mac, Wanted(q));
    RequestAnswer(w, q);
  }

  // ----- where leases come from, and what stays out of the pool -----

  /** The event is a REQUEST that the listener acknowledges with this lease: the wanted address if one was
      given, for the client that asked, on the listener's segment. */
  ghost predicate Acks(s: System, e: Event, l: Lease) {
    && e.Receive? && e.kind.Requesting? && Ready(s, e.seg)
    && l.mac == e.p.mac && l.segmentID == e.seg && (forall ip: IPv4 :: Names(e.p, ip) ==> l.ip == ip)
    && var o := OnRequest(Seen(s, e.seg, e.arp, e.now), e.p);
       o.Confirm? && o.lease == l && o.ack.Ack? && o.ack.yourIP == l.ip
  }

  ghost predicate UnderWay(s: System, l: Lease) { exists seg :: Pending(s, seg) && s.listeners[seg].pending.value == l }

  ghost predicate AckedDuring(s: System, es: seq<Event>, l: Lease)
    requires IsRun(s, es)
    decreases |es|
  {
    es != [] && (Acks(s, es[0], l) || AckedDuring(After(s, es[0]), es[1..], l))
  }

  lemma LeaseComesFrom(s: System, e: Event, l: Lease)
    requires Possible(s, e) && (l in After(s, e).store.leases || UnderWay(After(s, e), l))
    ensures l in s.store.leases || UnderWay(s, l) || Acks(s, e, l)
  {
    match e
    case Receive(seg, kind, p, arp, now) =>
      var v := Seen(s, seg, arp, now);
      if kind.Requesting? && OnRequest(v, p).Confirm? {
        AckMeans(v, p);
        if l !in s.store.leases && !UnderWay(s, l) {
          var other :| Pending(After(s, e), other) && After(s, e).listeners[other].pending.value == l;
          assert other != seg ==> Pending(s, other);
        }
      } else if UnderWay(After(s, e), l) {
        var other :| Pending(After(s, e), other) && After(s, e).listeners[other].pending.value == l;
        assert Pending(s, other) && s.listeners[other].pending.value == l;
      }
    case Record(seg) =>
      PutLeaseSubset(s.store.leases, s.listeners[seg].pending.value);
      if UnderWay(After(s, e), l) {
        var other :| Pending(After(s, e), other) && After(s, e).listeners[other].pending.value == l;
        assert Pending(s, other) && s.listeners[other].pending.value == l;
      } else if l == s.listeners[seg].pending.value {
        assert Pending(s, seg);
      }
    case Forget(mac) =>
      DropLeaseMembers(s.store.leases, mac);
      if UnderWay(After(s, e), l) {
        var other :| Pending(After(s, e), other) && After(s, e).listeners[other].pending.value == l;
        assert Pending(s, other);
      }
    case Reserve(r) =>
      if UnderWay(After(s, e), l) {
        var other :| Pending(After(s, e), other) && After(s, e).listeners[other].pending.value == l;
        assert Pending(s, other);
      }
  }

  lemma {:induction false} PutLeaseSubset(ls: seq<Lease>, l: Lease)
    ensures forall x :: x in PutLease(ls, l) ==> x == l || x in ls
  {
    if ls != [] {
      assert ls == [ls[0]] + ls[1..];
      PutLeaseSubset(ls[1..], l);
    }
  }

  /** No lease appears from nowhere: over any run, every lease in the store was there, was under way, or was
      acknowledged during the run to the client that asked for it. NAKs and REQUESTs for other servers
      therefore record nothing. */
  lemma {:induction false} EveryLeaseWasAcked(s: System, es: seq<Event>, l: Lease)
    requires IsRun(s, es) && (l in Final(s, es).store.leases || UnderWay(Final(s, es), l))
    ensures l in s.store.leases || UnderWay(s, l) || AckedDuring(s, es, l)
    decreases |es|
  {
    if es != [] {
      EveryLeaseWasAcked(After(s, es[0]), es[1..], l);
      if !AckedDuring(After(s, es[0]), es[1..], l) {
        LeaseComesFrom(s, es[0], l);
      }
    }
  }

  /** The listener keeps the address out at least until then. */
  predicate KeptOut(s: System, seg: string, ip: IPv4, until: Time) {
    seg in s.listeners && ip in s.listeners[seg].declined && until <= s.listeners[seg].declined[ip]
  }

  /** No packet is handled before this time. */
  predicate NotBefore(es: seq<Event>, now: Time) { forall e :: e in es && e.Receive? ==> now <= e.now }

  lemma {:induction false} StaysKeptOut(s: System, es: seq<Event>, seg: string, ip: IPv4, now: Time)
    requires IsRun(s, es) && NotBefore(es, now) && KeptOut(s, seg, ip, now + QUARANTINE)
    ensures KeptOut(Final(s, es), seg, ip, now + QUARANTINE)
    decreases |es|
  {
    if es != [] {
      assert es[0] in es;
      StaysKeptOut(After(s, es[0]), es[1..], seg, ip, now);
    }
  }

  /** A declined address stays out of the pool for ten minutes: after an accepted DECLINE and any run of later
      events, no DISCOVER or REQUEST on that segment within ten minutes is granted the address, unless
      the client has a reservation or lease there. */
  lemma DeclinedStaysOut(s: System, seg: string, p: Packet, arp: Option<seq<ArpEntry>>, now: Time, es: seq<Event>,
                         mac: string, requested: Option<IPv4>, arp': Option<seq<ArpEntry>>, later: Time)
    requires Ready(s, seg) && p.requested.Some? && !ForAnotherServer(Seen(s, seg, arp, now), p)
    requires IsRun(After(s, Receive(seg, Declining, p, arp, now)), es) && NotBefore(es, now) && later <= now + 600 * SECOND
    ensures var t := Final(After(s, Receive(seg, Declining, p, arp, now)), es);
      && seg in t.listeners
      && var r, l := FindReservation(t.store.reservations, mac), FindLease(t.store.leases, mac);
         (r.None? || r.value.segmentID != seg) && (l.None? || l.value.segmentID != seg)
         ==> Allocate(Seen(t, seg, arp', later), mac, requested) != Granted(p.requested.value)
  {
    var s1 := After(s, Receive(seg, Declining, p, arp, now));
    StaysKeptOut(s1, es, seg, p.requested.value, now);
    var t := Final(s1, es);
    var r, l := FindReservation(t.store.reservations, mac), FindLease(t.store.leases, mac);
    if (r.None? || r.value.segmentID != seg) && (l.None? || l.value.segmentID != seg) {
      QuarantinedIsNotGranted(Seen(t, seg, arp', later), mac, requested, p.requested.value);
    }
  }
}
