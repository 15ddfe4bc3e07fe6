/** When the listeners' shared store can come to hold a conflict - two MACs on one address, or a lease on an
    address reserved to another MAC - and when it never can. */
module DhcpConflicts {
  import opened Basics
  import opened ConfigStore
  import opened DhcpServer
  import opened DhcpRuns

  // ----- the property -----

  /** No lease sits on an address that another MAC holds or has reserved. */
  ghost predicate Conflictless(s: Store) {
    forall l :: l in s.leases ==> !InUse(s.reservations, s.leases, l.ip, l.mac)
  }

  predicate NoEdits(es: seq<Event>) { forall e :: e in es ==> !e.Reserve? }

  /** Some run of packets, recordings and cleared leases leads to a conflict. */
  ghost predicate CanClash(s: System) {
    exists es :: IsRun(s, es) && NoEdits(es) && !Conflictless(Final(s, es).store)
  }

  predicate PoolHas(segs: seq<Segment>, id: string, ip: IPv4) {
    PoolOf(segs, id).Some? && PoolOf(segs, id).value.0 <= ip <= PoolOf(segs, id).value.1
  }

  /** The pools that are served are disjoint and stop short of 255.255.255.255. */
  ghost predicate Configured(s: System) {
    && (forall a, b, ip :: a in s.listeners && b in s.listeners && a != b ==>
          !(PoolHas(s.store.segments, a, ip) && PoolHas(s.store.segments, b, ip)))
    && (forall a :: a in s.listeners && PoolOf(s.store.segments, a).Some? ==> PoolOf(s.store.segments, a).value.1 < MAX_IP)
  }

  /** What the store's and the listeners' own operations guarantee: one lease for each MAC, and pending leases
      on their listener's segment. */
  ghost predicate Structured(s: System) {
    UniqueLeases(s.store.leases) && forall seg :: Pending(s, seg) ==> PendingAt(s, seg).segmentID == seg
  }

  function PendingAt(s: System, seg: string): Lease
    requires Pending(s, seg)
  {
    s.listeners[seg].pending.value
  }

  // ----- the condition -----

  /** A listener serves the segment, and the segment is configured. */
  predicate Live(s: System, seg: string) { seg in s.listeners && FindSegment(s.store.segments, seg).Some? }

  predicate ReservedTo(rs: seq<Reservation>, ip: IPv4, mac: string) {
    exists x :: x in rs && x.ip == ip && x.mac == mac
  }

  /** No other listener hands the address out from its pool, or it is reserved to the lease's MAC. */
  ghost predicate Home(s: System, l: Lease) {
    forall b :: b in s.listeners && b != l.segmentID && PoolHas(s.store.segments, b, l.ip) ==>
      ReservedTo(s.store.reservations, l.ip, l.mac)
  }

  /** The MAC has a reservation on the lease's segment, which is granted in its place. */
  predicate Shadowed(rs: seq<Reservation>, l: Lease) {
    var r := FindReservation(rs, l.mac); r.Some? && r.value.segmentID == l.segmentID
  }

  /** The lease's own listener may still grant it again: it is served, no reservation shadows it, and the
      listener is not just about to replace it. */
  predicate Regrantable(s: System, l: Lease) {
    Live(s, l.segmentID) && !Shadowed(s.store.reservations, l)
    && !(Pending(s, l.segmentID) && PendingAt(s, l.segmentID).mac == l.mac)
  }

  /** The reservation is the one its MAC gets, on a segment that is served. */
  predicate Grantable(s: System, x: Reservation) {
    Live(s, x.segmentID) && FindReservation(s.store.reservations, x.mac) == Some(x)
  }

  ghost predicate PendingClear(s: System) {
    forall seg :: Pending(s, seg) ==>
      !InUse(s.store.reservations, s.store.leases, PendingAt(s, seg).ip, PendingAt(s, seg).mac) && Home(s, PendingAt(s, seg))
  }

  /** Two pending leases on one address have one MAC. */
  ghost predicate PendingAgree(s: System) {
    forall a, b :: Pending(s, a) && Pending(s, b) && PendingAt(s, a).ip == PendingAt(s, b).ip ==> PendingAt(s, a).mac == PendingAt(s, b).mac
  }

  ghost predicate LeasesHome(s: System) { forall l :: l in s.store.leases && Regrantable(s, l) ==> Home(s, l) }

  /** A reservation that will be granted has its address to itself. */
  ghost predicate ReservationsClear(s: System) {
    forall x, y :: x in s.store.reservations && y in s.store.reservations && x.ip == y.ip && Grantable(s, x) ==> x.mac == y.mac
  }

  /** Nothing can go wrong: the leases, the pending leases and the reservations are clear of each other, and
      every lease that is or may come under way is out of the reach of other pools. */
  ghost predicate Clear(s: System) {
    Conflictless(s.store) && PendingClear(s) && PendingAgree(s) && LeasesHome(s) && ReservationsClear(s)
  }

  // ----- a clear system stays clear -----

  /** A granted address clashes with no lease, reservation or pending lease of another MAC, and is home. */
  lemma GrantIsClear(s: System, seg: string, arp: Option<seq<ArpEntry>>, now: Time, mac: string, requested: Option<IPv4>, l: Lease)
    requires Configured(s) && Structured(s) && Clear(s) && Ready(s, seg) && Live(s, seg)
    requires Allocate(Seen(s, seg, arp, now), mac, requested) == Granted(l.ip) && l.mac == mac && l.segmentID == seg
    ensures !InUse(s.store.reservations, s.store.leases, l.ip, l.mac) && Home(s, l)
    ensures forall other :: Pending(s, other) && PendingAt(s, other).ip == l.ip ==> PendingAt(s, other).mac == mac
  {
    var v, rs, ls := Seen(s, seg, arp, now), s.store.reservations, s.store.leases;
    FindReservationSound(rs, mac);
    FindLeaseSound(ls, mac);
    var r, own := FindReservation(rs, mac), FindLease(ls, mac);
    if r.Some? && r.value.segmentID == seg {
      assert Grantable(s, r.value);
      ReservationGrant(s, r.value);
    } else if own.Some? && own.value.segmentID == seg
      && (Seconds(now) < own.value.expiresAt || requested.None? || requested.value == own.value.ip) {
      assert Regrantable(s, own.value);
    } else {
      if !(requested.Some? && InPool(v, requested.value) && Available(v, mac, requested.value)) {
        FirstFreeMeans(v, mac, Pool(v).value.0, Pool(v).value.1);
      }
      PoolGrant(s, seg, l);
    }
  }

  lemma ReservationGrant(s: System, r: Reservation)
    requires Clear(s) && r in s.store.reservations && Grantable(s, r)
    ensures !InUse(s.store.reservations, s.store.leases, r.ip, r.mac)
    ensures forall other :: Pending(s, other) && PendingAt(s, other).ip == r.ip ==> PendingAt(s, other).mac == r.mac
  {
    var rs, ls := s.store.reservations, s.store.leases;
    forall l | l in ls && l.ip == r.ip ensures l.mac == r.mac {
      assert !InUse(rs, ls, l.ip, l.mac);
    }
  }

  lemma PoolGrant(s: System, seg: string, l: Lease)
    requires Configured(s) && Structured(s) && Clear(s) && Ready(s, seg) && l.segmentID == seg
    requires PoolHas(s.store.segments, seg, l.ip) && !InUse(s.store.reservations, s.store.leases, l.ip, l.mac)
    ensures Home(s, l)
    ensures forall other :: Pending(s, other) && PendingAt(s, other).ip == l.ip ==> PendingAt(s, other).mac == l.mac
  {
    forall other | Pending(s, other) && PendingAt(s, other).ip == l.ip ensures PendingAt(s, other).mac == l.mac {
      assert Home(s, PendingAt(s, other)) && other != seg;
    }
  }

  lemma ReceiveKeeps(s: System, e: Event)
    requires Configured(s) && Structured(s) && Clear(s) && Possible(s, e) && e.Receive?
    ensures Structured(After(s, e)) && Clear(After(s, e))
  {
    var v := Seen(s, e.seg, e.arp, e.now);
    var o := OnRequest(v, e.p);
    if e.kind.Requesting? && o.Confirm? {
      GrantIsClear(s, e.seg, e.arp, e.now, e.p.mac, Wanted(e.p), o.lease);
      PendingAdded(s, e.seg, o.lease, After(s, e));
    } else {
      SamePending(s, After(s, e));
    }
  }

  lemma SamePending(s: System, t: System)
    requires Structured(s) && Clear(s) && t.store == s.store && t.listeners.Keys == s.listeners.Keys
    requires forall seg :: seg in s.listeners ==> t.listeners[seg].pending == s.listeners[seg].pending
    ensures Structured(t) && Clear(t)
  {
    assert forall seg :: Pending(t, seg) <==> Pending(s, seg);
    assert forall seg :: Pending(s, seg) ==> PendingAt(t, seg) == PendingAt(s, seg);
    assert forall l :: Home(t, l) <==> Home(s, l);
    assert forall l :: Regrantable(t, l) <==> Regrantable(s, l);
  }

  lemma PendingAdded(s: System, seg: string, l: Lease, t: System)
    requires Structured(s) && Clear(s) && Ready(s, seg) && l.segmentID == seg
    requires t == s.(listeners := s.listeners[seg := s.listeners[seg].(pending := Some(l))])
    requires !InUse(s.store.reservations, s.store.leases, l.ip, l.mac) && Home(s, l)
    requires forall other :: Pending(s, other) && PendingAt(s, other).ip == l.ip ==> PendingAt(s, other).mac == l.mac
    ensures Structured(t) && Clear(t)
  {
    assert forall other :: Pending(t, other) <==> other == seg || Pending(s, other);
    assert forall other :: Pending(s, other) ==> PendingAt(t, other) == PendingAt(s, other);
    assert t.listeners.Keys == s.listeners.Keys;
    assert forall x :: Home(t, x) <==> Home(s, x);
    assert forall x :: Regrantable(t, x) ==> Regrantable(s, x);
  }

  lemma RecordKeeps(s: System, seg: string)
    requires Structured(s) && Clear(s) && Pending(s, seg)
    ensures Structured(After(s, Record(seg))) && Clear(After(s, Record(seg)))
  {
    var l, t := PendingAt(s, seg), After(s, Record(seg));
    PutLeaseMembers(s.store.leases, l);
    assert forall other :: Pending(t, other) <==> other != seg && Pending(s, other);
    assert forall other :: Pending(t, other) ==> PendingAt(t, other) == PendingAt(s, other);
    assert t.listeners.Keys == s.listeners.Keys;
    assert forall x :: Home(t, x) <==> Home(s, x);
    RecordConflictless(s, seg);
    RecordPending(s, seg);
    forall x | x in t.store.leases && Regrantable(t, x) ensures Home(t, x) {
      if x != l {
        assert Regrantable(s, x);
      }
    }
  }

  lemma RecordConflictless(s: System, seg: string)
    requires Structured(s) && Clear(s) && Pending(s, seg)
    ensures Conflictless(After(s, Record(seg)).store)
  {
    var l, ls := PendingAt(s, seg), s.store.leases;
    PutLeaseMembers(ls, l);
    forall x | x in PutLease(ls, l) ensures !InUse(s.store.reservations, PutLease(ls, l), x.ip, x.mac) {
      assert !InUse(s.store.reservations, ls, l.ip, l.mac);
      if x != l {
        assert !InUse(s.store.reservations, ls, x.ip, x.mac);
      }
    }
  }

  lemma RecordPending(s: System, seg: string)
    requires Structured(s) && Clear(s) && Pending(s, seg)
    ensures forall other :: other != seg && Pending(s, other) ==>
      !InUse(s.store.reservations, PutLease(s.store.leases, PendingAt(s, seg)), PendingAt(s, other).ip, PendingAt(s, other).mac)
  {
    PutLeaseMembers(s.store.leases, PendingAt(s, seg));
  }

  lemma ForgetKeeps(s: System, mac: string)
    requires Structured(s) && Clear(s)
    ensures Structured(After(s, Forget(mac))) && Clear(After(s, Forget(mac)))
  {
    var t := After(s, Forget(mac));
    DropLeaseMembers(s.store.leases, mac);
    assert forall seg :: Pending(t, seg) <==> Pending(s, seg);
    assert forall seg :: Pending(s, seg) ==> PendingAt(t, seg) == PendingAt(s, seg);
    assert forall x :: Home(t, x) <==> Home(s, x);
    assert forall x :: Regrantable(t, x) <==> Regrantable(s, x);
    forall ip, m | InUse(t.store.reservations, t.store.leases, ip, m) ensures InUse(s.store.reservations, s.store.leases, ip, m) {
    }
  }

  /** Packets, recordings and cleared leases keep a clear system clear, and never touch segments,
      reservations or which listeners there are. */
  lemma EventKeeps(s: System, e: Event)
    requires Configured(s) && Structured(s) && Clear(s) && Possible(s, e) && !e.Reserve?
    ensures Configured(After(s, e)) && Structured(After(s, e)) && Clear(After(s, e))
  {
    match e
    case Receive(_, _, _, _, _) => ReceiveKeeps(s, e);
    case Record(seg) => RecordKeeps(s, seg);
    case Forget(mac) => ForgetKeeps(s, mac);
    SameServed(s, e);
  }

  lemma SameServed(s: System, e: Event)
    requires Possible(s, e)
    ensures After(s, e).store.segments == s.store.segments && After(s, e).listeners.Keys == s.listeners.Keys
    ensures Configured(s) <==> Configured(After(s, e))
  {
    assert After(s, e).listeners.Keys == s.listeners.Keys;
  }

  lemma {:induction false} ClearNeverClashes(s: System, es: seq<Event>)
    requires Configured(s) && Structured(s) && Clear(s) && IsRun(s, es) && NoEdits(es)
    ensures Conflictless(Final(s, es).store)
    decreases |es|
  {
    if es != [] {
      assert es[0] in es;
      EventKeeps(s, es[0]);
      ClearNeverClashes(After(s, es[0]), es[1..]);
    }
  }

  // ----- and a system that is not clear can clash -----

  lemma ClashNow(s: System)
    requires !Conflictless(s.store)
    ensures CanClash(s)
  {
    assert IsRun(s, []) && Final(s, []) == s;
  }

  lemma ClashLater(s: System, e: Event)
    requires Possible(s, e) && !e.Reserve? && CanClash(After(s, e))
    ensures CanClash(s)
  {
    var es :| IsRun(After(s, e), es) && NoEdits(es) && !Conflictless(Final(After(s, e), es).store);
    var all := [e] + es;
    assert all[0] == e && all[1..] == es;
    assert IsRun(s, all) && Final(s, all) == Final(After(s, e), es);
  }

  /** Recording a lease on an address that another MAC holds or has reserved. */
  lemma PendingClash(s: System, seg: string)
    requires Structured(s) && Pending(s, seg)
    requires InUse(s.store.reservations, s.store.leases, PendingAt(s, seg).ip, PendingAt(s, seg).mac)
    ensures CanClash(s)
  {
    var l := PendingAt(s, seg);
    PutLeaseMembers(s.store.leases, l);
    assert l in After(s, Record(seg)).store.leases;
    ClashNow(After(s, Record(seg)));
    ClashLater(s, Record(seg));
  }

  /** Recording two pending leases of different MACs on one address. */
  lemma PendingPairClash(s: System, a: string, b: string)
    requires Structured(s) && Pending(s, a) && Pending(s, b)
    requires PendingAt(s, a).ip == PendingAt(s, b).ip && PendingAt(s, a).mac != PendingAt(s, b).mac
    ensures CanClash(s)
  {
    var t := After(s, Record(a));
    PutLeaseMembers(s.store.leases, PendingAt(s, a));
    assert Pending(t, b) && PendingAt(t, b) == PendingAt(s, b);
    assert PendingAt(s, a) in t.store.leases;
    RecordStructured(s, a);
    PendingClash(t, b);
    ClashLater(s, Record(a));
  }

  lemma RecordStructured(s: System, seg: string)
    requires Structured(s) && Pending(s, seg)
    ensures Structured(After(s, Record(seg)))
  {
    PutLeaseMembers(s.store.leases, PendingAt(s, seg));
    var t := After(s, Record(seg));
    assert forall other :: Pending(t, other) ==> Pending(s, other) && PendingAt(t, other) == PendingAt(s, other);
  }

  // A client nobody has heard of, as a witness.

  function Longest(macs: seq<string>): nat {
    if macs == [] then 0 else var n := Longest(macs[1..]); if |macs[0]| > n then |macs[0]| else n
  }

  lemma {:induction false} LongestBounds(macs: seq<string>)
    ensures forall m :: m in macs ==> |m| <= Longest(macs)
  {
    if macs != [] {
      LongestBounds(macs[1..]);
      assert macs == [macs[0]] + macs[1..];
    }
  }

  lemma Stranger(s: Store) returns (mac: string)
    ensures (forall r :: r in s.reservations ==> r.mac != mac) && forall l :: l in s.leases ==> l.mac != mac
  {
    var macs := seq(|s.reservations|, i requires 0 <= i < |s.reservations| => s.reservations[i].mac)
      + seq(|s.leases|, i requires 0 <= i < |s.leases| => s.leases[i].mac);
    LongestBounds(macs);
    mac := seq(Longest(macs) + 1, i => 'x');
    forall r | r in s.reservations ensures r.mac != mac {
      var i :| 0 <= i < |s.reservations| && s.reservations[i] == r;
      assert macs[i] == r.mac;
      assert macs[i] in macs;
    }
    forall l | l in s.leases ensures l.mac != mac {
      var i :| 0 <= i < |s.leases| && s.leases[i] == l;
      assert macs[|s.reservations| + i] == l.mac;
      assert macs[|s.reservations| + i] in macs;
    }
  }

  function Ask(mac: string, ip: Option<IPv4>): Packet { DhcpServer.Packet(mac, 0, ip, None, "") }

  /** When the quarantine of the address is over. */
  function Afterwards(s: System, seg: string, ip: IPv4): Time
    requires seg in s.listeners
  {
    if ip in s.listeners[seg].declined then s.listeners[seg].declined[ip] + 1 else 0
  }

  /** A stranger is granted any pool address that nobody holds or has reserved. */
  lemma StrangerGets(s: System, seg: string, ip: IPv4, mac: string)
    requires Ready(s, seg) && PoolHas(s.store.segments, seg, ip) && !InUse(s.store.reservations, s.store.leases, ip, mac)
    requires (forall r :: r in s.store.reservations ==> r.mac != mac) && forall l :: l in s.store.leases ==> l.mac != mac
    ensures var e := Receive(seg, Requesting, Ask(mac, Some(ip)), None, Afterwards(s, seg, ip));
      var t := After(s, e);
      && Pending(t, seg) && PendingAt(t, seg).ip == ip && PendingAt(t, seg).mac == mac && PendingAt(t, seg).segmentID == seg
      && t == s.(listeners := t.listeners)
      && forall other :: other != seg ==> (Pending(t, other) <==> Pending(s, other)) && (Pending(s, other) ==> PendingAt(t, other) == PendingAt(s, other))
  {
    FindReservationSound(s.store.reservations, mac);
    FindLeaseSound(s.store.leases, mac);
    var v := Seen(s, seg, None, Afterwards(s, seg, ip));
    assert Available(v, mac, ip) && InPool(v, ip);
    assert Allocate(v, mac, Some(ip)) == Granted(ip);
  }

  /** A lease under way and a free listener whose pool has its address: the lease's MAC is cleared, a stranger
      is granted the address, and both are recorded. */
  lemma ReachedClash(s: System, a: string, b: string)
    requires Structured(s) && Pending(s, a) && Ready(s, b) && PoolHas(s.store.segments, b, PendingAt(s, a).ip)
    requires !InUse(s.store.reservations, s.store.leases, PendingAt(s, a).ip, PendingAt(s, a).mac)
    requires !ReservedTo(s.store.reservations, PendingAt(s, a).ip, PendingAt(s, a).mac)
    ensures CanClash(s)
  {
    var l := PendingAt(s, a);
    var s1 := After(s, Forget(l.mac));
    DropLeaseMembers(s.store.leases, l.mac);
    var mac := Stranger(Store(s1.store.segments, s1.store.reservations, s1.store.leases + [l], 0));
    assert l in s1.store.leases + [l];
    assert PendingAt(s1, a) == l;
    forall x | x in s1.store.leases ensures x.ip != l.ip {
      assert x in s.store.leases && x.mac != l.mac;
    }
    StrangerGets(s1, b, l.ip, mac);
    var e := Receive(b, Requesting, Ask(mac, Some(l.ip)), None, Afterwards(s1, b, l.ip));
    var s2 := After(s1, e);
    assert Pending(s2, a) && PendingAt(s2, a) == l;
    assert Structured(s2) by {
      assert UniqueLeases(s2.store.leases);
      forall seg | Pending(s2, seg) ensures PendingAt(s2, seg).segmentID == seg {
        if seg != b {
          assert Pending(s, seg) && PendingAt(s2, seg) == PendingAt(s, seg);
        }
      }
    }
    PendingPairClash(s2, a, b);
    ClashLater(s1, e);
    ClashLater(s, Forget(l.mac));
  }

  /** A lease under way on an address that another listener's pool has, not reserved to its MAC. */
  lemma PendingHomeClash(s: System, a: string)
    requires Structured(s) && Pending(s, a) && !Home(s, PendingAt(s, a))
    ensures CanClash(s)
  {
    var l := PendingAt(s, a);
    var b :| b in s.listeners && b != l.segmentID && PoolHas(s.store.segments, b, l.ip) && !ReservedTo(s.store.reservations, l.ip, l.mac);
    if InUse(s.store.reservations, s.store.leases, l.ip, l.mac) {
      PendingClash(s, a);
    } else if Ready(s, b) {
      ReachedClash(s, a, b);
    } else if PendingAt(s, b).ip == l.ip && PendingAt(s, b).mac != l.mac {
      PendingPairClash(s, a, b);
    } else {
      var q, t := PendingAt(s, b), After(s, Record(b));
      PutLeaseMembers(s.store.leases, q);
      RecordStructured(s, b);
      assert Pending(t, a) && PendingAt(t, a) == l;
      ReachedClash(t, a, b);
      ClashLater(s, Record(b));
    }
  }

  /** The lease's MAC asks for its address again. */
  lemma AskAgain(s: System, l: Lease)
    requires Structured(s) && l in s.store.leases && Ready(s, l.segmentID) && Live(s, l.segmentID)
    requires !Shadowed(s.store.reservations, l)
    ensures var t := After(s, Receive(l.segmentID, Requesting, Ask(l.mac, Some(l.ip)), None, 0));
      && Pending(t, l.segmentID) && PendingAt(t, l.segmentID).ip == l.ip && PendingAt(t, l.segmentID).mac == l.mac
      && PendingAt(t, l.segmentID).segmentID == l.segmentID
      && t == s.(listeners := t.listeners) && t.listeners.Keys == s.listeners.Keys
      && forall other :: other != l.segmentID && Pending(t, other) ==> Pending(s, other) && PendingAt(t, other) == PendingAt(s, other)
  {
    FindUnique(s.store.leases, l);
    assert Allocate(Seen(s, l.segmentID, None, 0), l.mac, Some(l.ip)) == Granted(l.ip);
    var t := After(s, Receive(l.segmentID, Requesting, Ask(l.mac, Some(l.ip)), None, 0));
    assert t.listeners.Keys == s.listeners.Keys;
  }

  lemma {:induction false} FindUnique(ls: seq<Lease>, l: Lease)
    requires UniqueLeases(ls) && l in ls
    ensures FindLease(ls, l.mac) == Some(l)
  {
    assert ls == [ls[0]] + ls[1..];
    if ls[0] != l {
      var i :| 0 <= i < |ls| && ls[i] == l;
      assert ls[0].mac != ls[i].mac;
      FindUnique(ls[1..], l);
    }
  }

  lemma ReadyLeaseClash(s: System, l: Lease)
    requires Structured(s) && l in s.store.leases && Ready(s, l.segmentID) && Live(s, l.segmentID)
    requires !Shadowed(s.store.reservations, l) && !Home(s, l)
    ensures CanClash(s)
  {
    var e := Receive(l.segmentID, Requesting, Ask(l.mac, Some(l.ip)), None, 0);
    AskAgain(s, l);
    var t := After(s, e);
    assert Structured(t) && !Home(t, PendingAt(t, l.segmentID));
    PendingHomeClash(t, l.segmentID);
    ClashLater(s, e);
  }

  /** A recorded lease that can come under way again and is in reach of another pool. */
  lemma LeaseHomeClash(s: System, l: Lease)
    requires Structured(s) && l in s.store.leases && Regrantable(s, l) && !Home(s, l)
    ensures CanClash(s)
  {
    var a := l.segmentID;
    if Ready(s, a) {
      ReadyLeaseClash(s, l);
    } else {
      var t := After(s, Record(a));
      PutLeaseMembers(s.store.leases, PendingAt(s, a));
      RecordStructured(s, a);
      assert t.listeners.Keys == s.listeners.Keys;
      assert l in t.store.leases && Ready(t, a) && !Home(t, l);
      ReadyLeaseClash(t, l);
      ClashLater(s, Record(a));
    }
  }

  lemma ReadyReservationClash(s: System, x: Reservation, y: Reservation)
    requires Structured(s) && Ready(s, x.segmentID) && Grantable(s, x)
    requires y in s.store.reservations && x.ip == y.ip && x.mac != y.mac
    ensures CanClash(s)
  {
    var e := Receive(x.segmentID, Requesting, Ask(x.mac, None), None, 0);
    assert Allocate(Seen(s, x.segmentID, None, 0), x.mac, None) == Granted(x.ip);
    var t := After(s, e);
    assert Pending(t, x.segmentID) && PendingAt(t, x.segmentID).ip == x.ip && PendingAt(t, x.segmentID).mac == x.mac;
    assert Structured(t) by {
      forall seg | Pending(t, seg) ensures PendingAt(t, seg).segmentID == seg {
        assert seg != x.segmentID ==> Pending(s, seg) && PendingAt(t, seg) == PendingAt(s, seg);
      }
    }
    PendingClash(t, x.segmentID);
    ClashLater(s, e);
  }

  /** A reservation that will be granted although another MAC has reserved its address. */
  lemma ReservationClash(s: System, x: Reservation, y: Reservation)
    requires Structured(s) && Grantable(s, x) && y in s.store.reservations && x.ip == y.ip && x.mac != y.mac
    ensures CanClash(s)
  {
    if Ready(s, x.segmentID) {
      ReadyReservationClash(s, x, y);
    } else {
      var t := After(s, Record(x.segmentID));
      RecordStructured(s, x.segmentID);
      assert t.listeners.Keys == s.listeners.Keys;
      ReadyReservationClash(t, x, y);
      ClashLater(s, Record(x.segmentID));
    }
  }

  /** Exactly when a conflict is out of reach: whatever packets arrive and however they interleave, no lease
      ever sits on an address another MAC holds or has reserved - if and only if the system is clear. */
  lemma NeverClashesIff(s: System)
    requires Configured(s) && Structured(s)
    ensures !CanClash(s) <==> Clear(s)
  {
    if Clear(s) {
      forall es | IsRun(s, es) && NoEdits(es) ensures Conflictless(Final(s, es).store) {
        ClearNeverClashes(s, es);
      }
    } else if !Conflictless(s.store) {
      ClashNow(s);
    } else if !PendingClear(s) {
      var seg :| Pending(s, seg)
        && (InUse(s.store.reservations, s.store.leases, PendingAt(s, seg).ip, PendingAt(s, seg).mac) || !Home(s, PendingAt(s, seg)));
      if Home(s, PendingAt(s, seg)) {
        PendingClash(s, seg);
      } else {
        PendingHomeClash(s, seg);
      }
    } else if !PendingAgree(s) {
      var a, b :| Pending(s, a) && Pending(s, b) && PendingAt(s, a).ip == PendingAt(s, b).ip && PendingAt(s, a).mac != PendingAt(s, b).mac;
      PendingPairClash(s, a, b);
    } else if !LeasesHome(s) {
      var l :| l in s.store.leases && Regrantable(s, l) && !Home(s, l);
      LeaseHomeClash(s, l);
    } else {
      var x, y :| x in s.store.reservations && y in s.store.reservations && x.ip == y.ip && Grantable(s, x) && x.mac != y.mac;
      ReservationClash(s, x, y);
    }
  }

  // ----- reservations -----

  /** After the reservation the lease is still out of the reach of other pools, or its address is reserved to
      its MAC. */
  ghost predicate StillHome(s: System, r: Reservation, l: Lease) {
    || l.ip == r.ip
    || (forall b :: b in s.listeners && b != l.segmentID ==> !PoolHas(s.store.segments, b, l.ip))
    || ReservedTo(PutReservation(s.store.reservations, r), l.ip, l.mac)
  }

  /** What AddReservation would have to check: nobody else holds the address or was just acknowledged it;
      where somebody else has reserved it, neither reservation will be granted; and a lease of the same MAC
      that is under way, or can come under way again, stays out of the reach of other pools. */
  ghost predicate MayReserve(s: System, r: Reservation) {
    && (forall l :: l in s.store.leases && l.ip == r.ip ==> l.mac == r.mac)
    && (forall seg :: Pending(s, seg) && PendingAt(s, seg).ip == r.ip ==> PendingAt(s, seg).mac == r.mac)
    && (forall x :: x in s.store.reservations && x.mac != r.mac && x.ip == r.ip ==> !Live(s, r.segmentID) && !Grantable(s, x))
    && (forall seg :: Pending(s, seg) && PendingAt(s, seg).mac == r.mac ==> StillHome(s, r, PendingAt(s, seg)))
    && (forall l :: l in s.store.leases && l.mac == r.mac && Exposed(s, r, l) ==> StillHome(s, r, l))
  }

  /** The lease can come under way again once the reservation is made. */
  predicate Exposed(s: System, r: Reservation, l: Lease) {
    && Live(s, l.segmentID) && r.segmentID != l.segmentID
    && !(Pending(s, l.segmentID) && PendingAt(s, l.segmentID).mac == l.mac)
  }

  lemma HomeAfterReserving(s: System, r: Reservation, l: Lease)
    ensures l.mac == r.mac ==> (Home(After(s, Reserve(r)), l) <==> StillHome(s, r, l))
    ensures l.mac != r.mac ==> (Home(After(s, Reserve(r)), l) <==> Home(s, l))
  {
    PutReservationMeans(s.store.reservations, r, l.mac);
    var rs := s.store.reservations;
    assert l.mac != r.mac ==> (ReservedTo(PutReservation(rs, r), l.ip, l.mac) <==> ReservedTo(rs, l.ip, l.mac));
    assert l.mac == r.mac && l.ip == r.ip ==> ReservedTo(PutReservation(rs, r), l.ip, l.mac);
  }

  lemma UseAfterReserving(s: Store, r: Reservation, ip: IPv4, mac: string)
    requires !InUse(s.reservations, s.leases, ip, mac)
    ensures InUse(PutReservation(s.reservations, r), s.leases, ip, mac) <==> (ip == r.ip && mac != r.mac)
  {
    PutReservationMeans(s.reservations, r, r.mac);
  }

  lemma GrantableAfterReserving(s: System, r: Reservation, x: Reservation)
    ensures x.mac != r.mac ==> (Grantable(After(s, Reserve(r)), x) <==> Grantable(s, x))
    ensures x.mac == r.mac ==> (Grantable(After(s, Reserve(r)), x) <==> x == r && Live(s, r.segmentID))
  {
    PutReservationMeans(s.store.reservations, r, x.mac);
  }

  lemma LeasesAfterReserving(s: System, r: Reservation)
    requires Clear(s)
    ensures Conflictless(After(s, Reserve(r)).store) <==> forall l :: l in s.store.leases && l.ip == r.ip ==> l.mac == r.mac
  {
    forall l | l in s.store.leases
      ensures InUse(PutReservation(s.store.reservations, r), s.store.leases, l.ip, l.mac) <==> (l.ip == r.ip && l.mac != r.mac)
    {
      UseAfterReserving(s.store, r, l.ip, l.mac);
    }
  }

  lemma PendingAfterReserving(s: System, r: Reservation)
    requires Clear(s)
    ensures PendingClear(After(s, Reserve(r))) <==>
      && (forall seg :: Pending(s, seg) && PendingAt(s, seg).ip == r.ip ==> PendingAt(s, seg).mac == r.mac)
      && (forall seg :: Pending(s, seg) && PendingAt(s, seg).mac == r.mac ==> StillHome(s, r, PendingAt(s, seg)))
  {
    var t := After(s, Reserve(r));
    forall seg | Pending(s, seg)
      ensures var l := PendingAt(s, seg);
        && (InUse(t.store.reservations, t.store.leases, l.ip, l.mac) <==> (l.ip == r.ip && l.mac != r.mac))
        && (Home(t, l) <==> (l.mac == r.mac ==> StillHome(s, r, l)))
    {
      UseAfterReserving(s.store, r, PendingAt(s, seg).ip, PendingAt(s, seg).mac);
      HomeAfterReserving(s, r, PendingAt(s, seg));
    }
    assert forall seg :: Pending(t, seg) <==> Pending(s, seg);
    assert forall seg :: Pending(s, seg) ==> PendingAt(t, seg) == PendingAt(s, seg);
  }

  lemma HomesAfterReserving(s: System, r: Reservation)
    requires Clear(s)
    ensures LeasesHome(After(s, Reserve(r))) <==>
      forall l :: l in s.store.leases && l.mac == r.mac && Exposed(s, r, l) ==> StillHome(s, r, l)
  {
    var t := After(s, Reserve(r));
    forall l | l in s.store.leases
      ensures (Regrantable(t, l) ==> Home(t, l)) <==> (l.mac == r.mac && Exposed(s, r, l) ==> StillHome(s, r, l))
    {
      HomeAfterReserving(s, r, l);
      PutReservationMeans(s.store.reservations, r, l.mac);
      assert l.mac != r.mac ==> (Regrantable(t, l) <==> Regrantable(s, l));
      assert l.mac == r.mac ==> (Regrantable(t, l) <==> Exposed(s, r, l));
    }
  }

  lemma ReservedAfterReserving(s: System, r: Reservation)
    requires Clear(s)
    ensures ReservationsClear(After(s, Reserve(r))) <==>
      forall x :: x in s.store.reservations && x.mac != r.mac && x.ip == r.ip ==> !Live(s, r.segmentID) && !Grantable(s, x)
  {
    var t := After(s, Reserve(r));
    PutReservationMeans(s.store.reservations, r, r.mac);
    forall x ensures Grantable(t, x) <==> if x.mac == r.mac then x == r && Live(s, r.segmentID) else Grantable(s, x) {
      GrantableAfterReserving(s, r, x);
    }
    if ReservationsClear(t) {
      forall x | x in s.store.reservations && x.mac != r.mac && x.ip == r.ip ensures !Live(s, r.segmentID) && !Grantable(s, x) {
        assert x in t.store.reservations && r in t.store.reservations;
      }
    }
  }

  lemma ClearAfterReserving(s: System, r: Reservation)
    requires Clear(s)
    ensures Clear(After(s, Reserve(r))) <==> MayReserve(s, r)
  {
    var t := After(s, Reserve(r));
    LeasesAfterReserving(s, r);
    PendingAfterReserving(s, r);
    HomesAfterReserving(s, r);
    ReservedAfterReserving(s, r);
    assert PendingAgree(t) by {
      assert forall seg :: Pending(t, seg) ==> Pending(s, seg) && PendingAt(t, seg) == PendingAt(s, seg);
    }
  }

  /** AddReservation makes no check. From a system in which no conflict can arise, none can arise after the
      reservation either - exactly when it meets the condition; otherwise there is a conflict at once or some
      run leads to one. */
  lemma ReserveIsSafeIff(s: System, r: Reservation)
    requires Configured(s) && Structured(s) && !CanClash(s)
    ensures !CanClash(After(s, Reserve(r))) <==> MayReserve(s, r)
  {
    NeverClashesIff(s);
    ReserveStructured(s, r);
    NeverClashesIff(After(s, Reserve(r)));
    ClearAfterReserving(s, r);
  }

  lemma ReserveStructured(s: System, r: Reservation)
    requires Configured(s) && Structured(s)
    ensures Configured(After(s, Reserve(r))) && Structured(After(s, Reserve(r)))
  {
    var t := After(s, Reserve(r));
    assert forall seg :: Pending(t, seg) ==> Pending(s, seg) && PendingAt(t, seg) == PendingAt(s, seg);
  }

  // ----- runs with reservations -----

  ghost predicate Checked(s: System, e: Event) { e.Reserve? ==> MayReserve(s, e.r) }

  /** Every reservation made during the run meets its condition when it is made. */
  ghost predicate Careful(s: System, es: seq<Event>)
    requires IsRun(s, es)
    decreases |es|
  {
    es == [] || (Checked(s, es[0]) && Careful(After(s, es[0]), es[1..]))
  }

  /** At no point of the run can packets lead to a conflict. */
  ghost predicate AlwaysSafe(s: System, es: seq<Event>)
    requires IsRun(s, es)
    decreases |es|
  {
    !CanClash(s) && (es == [] || AlwaysSafe(After(s, es[0]), es[1..]))
  }

  lemma EventIsSafeIff(s: System, e: Event)
    requires Configured(s) && Structured(s) && !CanClash(s) && Possible(s, e)
    ensures Configured(After(s, e)) && Structured(After(s, e))
    ensures !CanClash(After(s, e)) <==> Checked(s, e)
  {
    if e.Reserve? {
      ReserveStructured(s, e.r);
      ReserveIsSafeIff(s, e.r);
    } else {
      NeverClashesIff(s);
      EventKeeps(s, e);
      NeverClashesIff(After(s, e));
    }
  }

  /** Over every run of packets, recordings, cleared leases and reservations: no conflict can arise at any
      point exactly when every reservation met its condition. */
  lemma {:induction false} AlwaysSafeIff(s: System, es: seq<Event>)
    requires Configured(s) && Structured(s) && !CanClash(s) && IsRun(s, es)
    ensures AlwaysSafe(s, es) <==> Careful(s, es)
    decreases |es|
  {
    if es != [] {
      EventIsSafeIff(s, es[0]);
      if Checked(s, es[0]) {
        AlwaysSafeIff(After(s, es[0]), es[1..]);
      } else {
        assert !AlwaysSafe(After(s, es[0]), es[1..]);
      }
    }
  }

  /** Across every run, whatever the packets and the interleaving, no two MACs ever hold leases on the same
      address and no lease sits on an address reserved to another MAC. */
  lemma {:induction false} NeverTwoHolders(s: System, es: seq<Event>)
    requires Configured(s) && Structured(s) && Clear(s) && IsRun(s, es) && Careful(s, es)
    ensures var t := Final(s, es).store;
      && (forall a, b :: a in t.leases && b in t.leases && a.ip == b.ip ==> a.mac == b.mac)
      && (forall a, r :: a in t.leases && r in t.reservations && a.ip == r.ip ==> a.mac == r.mac)
    decreases |es|
  {
    if es == [] {
      var t := s.store;
      forall a | a in t.leases ensures !InUse(t.reservations, t.leases, a.ip, a.mac) {
      }
    } else {
      NeverClashesIff(s);
      EventIsSafeIff(s, es[0]);
      NeverClashesIff(After(s, es[0]));
      NeverTwoHolders(After(s, es[0]), es[1..]);
    }
  }

  /** A store without leases, pending leases and shared reserved addresses is clear: where every installation
      begins. */
  lemma FreshIsClear(s: System)
    requires s.store.leases == [] && forall seg :: !Pending(s, seg)
    requires forall x, y :: x in s.store.reservations && y in s.store.reservations && x.ip == y.ip ==> x.mac == y.mac
    ensures Structured(s) && Clear(s)
  {
  }

  // ----- a stale lease, and packets alone -----

  const LEFT := Segment("A", "eth1", Some(1), Some(10), Some(20))
  const RIGHT := Segment("B", "eth2", Some(2), Some(30), Some(40))

  function Stale(ls: seq<Lease>, a: Option<Lease>, b: Option<Lease>): System {
    System(Store([LEFT, RIGHT], [], ls, 60), map["A" := Listener(map[], a), "B" := Listener(map[], b)])
  }

  function Held(mac: string, ip: IPv4, seg: string): Lease { Lease(mac, ip, "(unknown)", 60, seg) }

  const STALE := Stale([Held("a", 35, "A")], None, None)

  lemma Served(s: System, seg: string)
    requires s.store.segments == [LEFT, RIGHT] && (seg == "A" || seg == "B")
    ensures FindSegment(s.store.segments, seg) == Some(if seg == "A" then LEFT else RIGHT)
    ensures forall ip :: PoolHas(s.store.segments, seg, ip) <==> if seg == "A" then 10 <= ip <= 20 else 30 <= ip <= 40
  {
    assert [LEFT, RIGHT][1..] == [RIGHT];
  }

  /** One REQUEST for an address of B's pool that no other MAC has. */
  lemma AskRight(ls: seq<Lease>, a: Option<Lease>, mac: string, ip: IPv4)
    requires 30 <= ip <= 40 && (forall l :: l in ls ==> l.mac == mac || l.ip != ip)
    requires FindLease(ls, mac).Some? ==> FindLease(ls, mac).value.segmentID != "B"
    ensures After(Stale(ls, a, None), Receive("B", Requesting, Ask(mac, Some(ip)), None, 0)) == Stale(ls, a, Some(Held(mac, ip, "B")))
  {
    var s := Stale(ls, a, None);
    Served(s, "B");
    var v := Seen(s, "B", None, 0);
    assert Available(v, mac, ip) && InPool(v, ip);
    assert Allocate(v, mac, Some(ip)) == Granted(ip);
    assert OnRequest(v, Ask(mac, Some(ip))).lease == Held(mac, ip, "B");
    var t := After(s, Receive("B", Requesting, Ask(mac, Some(ip)), None, 0));
    assert t.listeners == map["A" := Listener(map[], a), "B" := Listener(map[], Some(Held(mac, ip, "B")))];
  }

  lemma AskStale()
    ensures After(STALE, Receive("A", Requesting, Ask("a", Some(35)), None, 0)) == Stale([Held("a", 35, "A")], Some(Held("a", 35, "A")), None)
  {
    Served(STALE, "A");
    var v := Seen(STALE, "A", None, 0);
    assert Allocate(v, "a", Some(35)) == Granted(35);
    assert OnRequest(v, Ask("a", Some(35))).lease == Held("a", 35, "A");
    var t := After(STALE, Receive("A", Requesting, Ask("a", Some(35)), None, 0));
    assert t.listeners == map["A" := Listener(map[], Some(Held("a", 35, "A"))), "B" := Listener(map[], None)];
  }

  lemma RecordBoth(ls: seq<Lease>, a: Option<Lease>, b: Option<Lease>)
    ensures a.Some? ==> After(Stale(ls, a, b), Record("A")) == Stale(PutLease(ls, a.value), None, b)
    ensures b.Some? ==> After(Stale(ls, a, b), Record("B")) == Stale(PutLease(ls, b.value), a, None)
  {
    var m := Stale(ls, a, b).listeners;
    assert m["A" := Listener(map[], None)] == map["A" := Listener(map[], None), "B" := Listener(map[], b)];
    assert m["B" := Listener(map[], None)] == map["A" := Listener(map[], a), "B" := Listener(map[], None)];
  }

  lemma RunCons(s: System, e: Event, t: System, es: seq<Event>)
    requires Possible(s, e) && After(s, e) == t && IsRun(t, es)
    ensures IsRun(s, [e] + es) && Final(s, [e] + es) == Final(t, es)
  {
    var all := [e] + es;
    assert all[0] == e && all[1..] == es;
  }

  /** Segment A gives out 10 to 20 and B 30 to 40, and a holds 35 on A: no conflict, but not clear. */
  lemma StaleStart()
    ensures Conflictless(STALE.store) && Configured(STALE) && Structured(STALE) && !Clear(STALE)
  {
    Served(STALE, "A");
    Served(STALE, "B");
    var l := Held("a", 35, "A");
    assert STALE.store.leases == [l] && l in STALE.store.leases;
    assert PoolHas(STALE.store.segments, "B", 35) && !ReservedTo([], 35, "a");
    assert Regrantable(STALE, l) && !Home(STALE, l);
  }

  /** The second half of the run: b is granted what a has under way. */
  lemma StaleEnd() returns (es: seq<Event>)
    ensures var s := Stale([Held("a", 35, "A")], Some(Held("a", 35, "A")), Some(Held("a", 31, "B")));
      && IsRun(s, es) && (forall e :: e in es ==> e.Receive? || e.Record?)
      && Final(s, es).store.leases == [Held("a", 35, "A"), Held("b", 35, "B")]
  {
    var a35, a31, b35 := Held("a", 35, "A"), Held("a", 31, "B"), Held("b", 35, "B");
    var ask := Receive("B", Requesting, Ask("b", Some(35)), None, 0);
    RecordBoth([a35], Some(a35), Some(a31));
    AskRight([a31], Some(a35), "b", 35);
    RecordBoth([a31], Some(a35), Some(b35));
    RecordBoth([a35], None, Some(b35));
    assert PutLease([a35], a31) == [a31] && PutLease([a31], a35) == [a35];
    assert PutLease([a35], b35) == [a35, b35] by {
      assert [a35][1..] == [];
    }
    es := [];
    RunCons(Stale([a35], None, Some(b35)), Record("B"), Stale([a35, b35], None, None), es);
    es := [Record("B")] + es;
    RunCons(Stale([a31], Some(a35), Some(b35)), Record("A"), Stale([a35], None, Some(b35)), es);
    es := [Record("A")] + es;
    RunCons(Stale([a31], Some(a35), None), ask, Stale([a31], Some(a35), Some(b35)), es);
    es := [ask] + es;
    RunCons(Stale([a35], Some(a35), Some(a31)), Record("B"), Stale([a31], Some(a35), None), es);
    es := [Record("B")] + es;
  }

  /** A lease that an edit of the segments left in another segment's pool: three REQUESTs and their recordings
      make two holders of one address, without anything else happening. */
  lemma StaleLeaseClashes() returns (es: seq<Event>)
    ensures Conflictless(STALE.store) && Configured(STALE) && Structured(STALE)
    ensures IsRun(STALE, es) && forall e :: e in es ==> e.Receive? || e.Record?
    ensures Final(STALE, es).store.leases == [Held("a", 35, "A"), Held("b", 35, "B")]
  {
    var a35, a31 := Held("a", 35, "A"), Held("a", 31, "B");
    StaleStart();
    AskStale();
    AskRight([a35], Some(a35), "a", 31);
    es := StaleEnd();
    var second := Receive("B", Requesting, Ask("a", Some(31)), None, 0);
    RunCons(Stale([a35], Some(a35), None), second, Stale([a35], Some(a35), Some(a31)), es);
    es := [second] + es;
    var first := Receive("A", Requesting, Ask("a", Some(35)), None, 0);
    RunCons(STALE, first, Stale([a35], Some(a35), None), es);
    es := [first] + es;
  }
}
