/** The part of the configuration that DHCP reads and writes: segments, reservations, leases and
    discovered devices. The class holds the source's mutable fields; the functions before it
    are the specification its methods are proved against. */
module ConfigStore {

  import opened Basics

  const MAX_IP: IPv4 := 0xFFFF_FFFF

  /** `address`, `poolStart` and `poolEnd` are None when their text is not an IPv4 address. */
  datatype Segment = Segment(id: string, iface: string, address: Option<IPv4>,
                             poolStart: Option<IPv4>, poolEnd: Option<IPv4>)
  datatype Reservation = Reservation(mac: string, ip: IPv4, segmentID: string)
  datatype Lease = Lease(mac: string, ip: IPv4, hostname: string, expiresAt: int, segmentID: string)
  datatype Device = Device(mac: string, ip: IPv4, segmentID: string, lastSeen: int)

  /** A poll that only advances LastSeen is stored once it is this many seconds ahead. */
  const DISCOVERED_REFRESH_SECS: int := 300

  // ----- lookups -----

  function FindReservation(rs: seq<Reservation>, mac: string): Option<Reservation> {
    if rs == [] then None
    else if rs[0].mac == mac then Some(rs[0])
    else FindReservation(rs[1..], mac)
  }

  function FindLease(ls: seq<Lease>, mac: string): Option<Lease> {
    if ls == [] then None
    else if ls[0].mac == mac then Some(ls[0])
    else FindLease(ls[1..], mac)
  }

  function FindSegment(segs: seq<Segment>, id: string): Option<Segment> {
    if segs == [] then None
    else if segs[0].id == id then Some(segs[0])
    else FindSegment(segs[1..], id)
  }

  /** Somebody other than `mac` holds or has reserved `ip`. */
  predicate InUse(rs: seq<Reservation>, ls: seq<Lease>, ip: IPv4, mac: string) {
    || (exists r :: r in rs && r.ip == ip && r.mac != mac)
    || (exists l :: l in ls && l.ip == ip && l.mac != mac)
  }

  // ----- updates -----

  function PutLease(ls: seq<Lease>, l: Lease): seq<Lease> {
    if ls == [] then [l]
    else if ls[0].mac == l.mac then [l] + ls[1..]
    else [ls[0]] + PutLease(ls[1..], l)
  }

  function DropLease(ls: seq<Lease>, mac: string): seq<Lease> {
    if ls == [] then []
    else (if ls[0].mac != mac then [ls[0]] else []) + DropLease(ls[1..], mac)
  }

  function PutReservation(rs: seq<Reservation>, r: Reservation): seq<Reservation> {
    if rs == [] then [r]
    else if rs[0].mac == r.mac then [r] + rs[1..]
    else [rs[0]] + PutReservation(rs[1..], r)
  }

  /** The poll `d` says nothing new about `known`. */
  predicate NothingNew(known: Device, d: Device) {
    known.ip == d.ip && known.segmentID == d.segmentID && d.lastSeen - known.lastSeen < DISCOVERED_REFRESH_SECS
  }

  function FindDevice(ds: seq<Device>, mac: string): Option<Device> {
    if ds == [] then None
    else if ds[0].mac == mac then Some(ds[0])
    else FindDevice(ds[1..], mac)
  }

  function PutDevice(ds: seq<Device>, d: Device): seq<Device> {
    if ds == [] then [d]
    else if ds[0].mac == d.mac then (if NothingNew(ds[0], d) then ds else [d] + ds[1..])
    else [ds[0]] + PutDevice(ds[1..], d)
  }

  // ----- what the updates mean -----

  predicate UniqueLeases(ls: seq<Lease>) {
    forall i, j :: 0 <= i < j < |ls| ==> ls[i].mac != ls[j].mac
  }

  predicate UniqueDevices(ds: seq<Device>) {
    forall i, j :: 0 <= i < j < |ds| ==> ds[i].mac != ds[j].mac
  }

  lemma {:induction false} FindLeaseSound(ls: seq<Lease>, mac: string)
    ensures FindLease(ls, mac).Some? ==> FindLease(ls, mac).value in ls && FindLease(ls, mac).value.mac == mac
    ensures FindLease(ls, mac).None? ==> forall l :: l in ls ==> l.mac != mac
  {
    if ls != [] {
      FindLeaseSound(ls[1..], mac);
      assert ls == [ls[0]] + ls[1..];
    }
  }

  lemma {:induction false} FindReservationSound(rs: seq<Reservation>, mac: string)
    ensures var f := FindReservation(rs, mac);
      if f.Some? then f.value in rs && f.value.mac == mac else forall r :: r in rs ==> r.mac != mac
  {
    if rs != [] {
      FindReservationSound(rs[1..], mac);
      assert rs == [rs[0]] + rs[1..];
    }
  }

  /** A MAC's lease and reservation are the first ones in the list. */
  lemma {:induction false} FindIsFirst(rs: seq<Reservation>, ls: seq<Lease>, mac: string)
    ensures FindReservation(rs, mac) == FirstOf(rs, (r: Reservation) => r.mac == mac)
    ensures FindLease(ls, mac) == FirstOf(ls, (l: Lease) => l.mac == mac)
    decreases |rs| + |ls|
  {
    if rs != [] && rs[0].mac != mac {
      FindIsFirst(rs[1..], [], mac);
    }
    if ls != [] && ls[0].mac != mac {
      FindIsFirst([], ls[1..], mac);
    }
  }

  /** The lookup answers the first segment with the ID, and nothing only when there is none. */
  lemma {:induction false} FindSegmentIsFirst(segs: seq<Segment>, id: string)
    ensures match FindSegment(segs, id)
      case Some(x) => exists i :: 0 <= i < |segs| && segs[i] == x && x.id == id && forall j :: 0 <= j < i ==> segs[j].id != id
      case None => forall x :: x in segs ==> x.id != id
  {
    if segs != [] && segs[0].id != id {
      FindSegmentIsFirst(segs[1..], id);
      assert segs == [segs[0]] + segs[1..];
      if FindSegment(segs[1..], id).Some? {
        var x := FindSegment(segs, id).value;
        var i :| 0 <= i < |segs[1..]| && segs[1..][i] == x && x.id == id && forall j :: 0 <= j < i ==> segs[1..][j].id != id;
        assert segs[i + 1] == x;
        assert forall j :: 0 < j < i + 1 ==> segs[j] == segs[1..][j - 1];
      }
    }
  }

  /** UpsertLease: that MAC now has exactly this lease, and nobody else's lease changed. */
  lemma {:induction false} PutLeaseMeans(ls: seq<Lease>, l: Lease, mac: string)
    ensures FindLease(PutLease(ls, l), mac) == if mac == l.mac then Some(l) else FindLease(ls, mac)
  {
    if ls != [] && ls[0].mac != l.mac {
      PutLeaseMeans(ls[1..], l, mac);
      assert PutLease(ls, l)[1..] == PutLease(ls[1..], l);
    }
  }

  lemma {:induction false} PutLeaseMembers(ls: seq<Lease>, l: Lease)
    requires UniqueLeases(ls)
    ensures forall x :: x in PutLease(ls, l) <==> x == l || (x in ls && x.mac != l.mac)
    ensures UniqueLeases(PutLease(ls, l))
  {
    if ls != [] {
      assert ls == [ls[0]] + ls[1..];
      if ls[0].mac != l.mac {
        PutLeaseMembers(ls[1..], l);
      }
    }
  }

  lemma {:induction false} DropLeaseMembers(ls: seq<Lease>, mac: string)
    ensures forall x :: x in DropLease(ls, mac) <==> x in ls && x.mac != mac
    ensures UniqueLeases(ls) ==> UniqueLeases(DropLease(ls, mac))
  {
    if ls != [] {
      DropLeaseMembers(ls[1..], mac);
      assert ls == [ls[0]] + ls[1..];
    }
  }

  /** Exactly the leases of that MAC are gone, and the others keep their order. */
  lemma {:induction false} DropLeaseKeeps(ls: seq<Lease>, mac: string)
    ensures DropLease(ls, mac) == Filter(ls, (l: Lease) => l.mac != mac)
  {
    if ls != [] {
      DropLeaseKeeps(ls[1..], mac);
    }
  }

  lemma {:induction false} PutLeaseAt(ls: seq<Lease>, l: Lease, i: nat)
    requires i <= |ls| && forall k :: 0 <= k < i ==> ls[k].mac != l.mac
    requires i < |ls| ==> ls[i].mac == l.mac
    ensures PutLease(ls, l) == if i < |ls| then ls[i := l] else ls + [l]
  {
    if 0 < i {
      PutLeaseAt(ls[1..], l, i - 1);
    }
  }

  /** AddReservation: that MAC's first slot is the new one, other MACs' are as they were, and nothing else
      comes in. */
  lemma {:induction false} PutReservationMeans(rs: seq<Reservation>, r: Reservation, mac: string)
    ensures FindReservation(PutReservation(rs, r), mac) == if mac == r.mac then Some(r) else FindReservation(rs, mac)
    ensures forall x :: x in PutReservation(rs, r) ==> x == r || x in rs
    ensures r in PutReservation(rs, r) && forall x :: x in rs && x.mac != r.mac ==> x in PutReservation(rs, r)
  {
    if rs != [] {
      assert rs == [rs[0]] + rs[1..];
      if rs[0].mac != r.mac {
        PutReservationMeans(rs[1..], r, mac);
        assert PutReservation(rs, r)[1..] == PutReservation(rs[1..], r);
      }
    }
  }

  lemma {:induction false} PutReservationAt(rs: seq<Reservation>, r: Reservation, i: nat)
    requires i <= |rs| && forall k :: 0 <= k < i ==> rs[k].mac != r.mac
    requires i < |rs| ==> rs[i].mac == r.mac
    ensures PutReservation(rs, r) == if i < |rs| then rs[i := r] else rs + [r]
  {
    if 0 < i {
      PutReservationAt(rs[1..], r, i - 1);
      assert [rs[0]] + rs[1..] == rs;
      assert i < |rs| ==> [rs[0]] + rs[1..][i - 1 := r] == rs[i := r];
    }
  }

  lemma {:induction false} PutDeviceAt(ds: seq<Device>, d: Device, i: nat)
    requires i <= |ds| && forall k :: 0 <= k < i ==> ds[k].mac != d.mac
    requires i < |ds| ==> ds[i].mac == d.mac
    ensures PutDevice(ds, d) ==
      if i == |ds| then ds + [d] else if NothingNew(ds[i], d) then ds else ds[i := d]
    ensures FindDevice(ds, d.mac) == if i == |ds| then None else Some(ds[i])
  {
    if 0 < i {
      PutDeviceAt(ds[1..], d, i - 1);
    }
  }

  lemma {:induction false} DropLeaseAppend(a: seq<Lease>, l: Lease, mac: string)
    ensures DropLease(a + [l], mac) == DropLease(a, mac) + (if l.mac != mac then [l] else [])
  {
    if a != [] {
      DropLeaseAppend(a[1..], l, mac);
      assert (a + [l])[1..] == a[1..] + [l];
    } else {
      assert (a + [l])[1..] == [];
    }
  }

  // ----- discovered devices: suppressed writes refine "always store" -----

  lemma {:induction false} PutDeviceMeans(ds: seq<Device>, d: Device, mac: string)
    ensures FindDevice(PutDevice(ds, d), mac) ==
      if mac != d.mac then FindDevice(ds, mac)
      else if FindDevice(ds, mac).Some? && NothingNew(FindDevice(ds, mac).value, d) then FindDevice(ds, mac)
      else Some(d)
  {
    if ds != [] && ds[0].mac != d.mac {
      PutDeviceMeans(ds[1..], d, mac);
      assert PutDevice(ds, d)[1..] == PutDevice(ds[1..], d);
    }
  }

  lemma {:induction false} PutDeviceUnique(ds: seq<Device>, d: Device)
    requires UniqueDevices(ds)
    ensures UniqueDevices(PutDevice(ds, d))
    ensures forall x :: x in PutDevice(ds, d) ==> x == d || x in ds
  {
    if ds != [] {
      assert ds == [ds[0]] + ds[1..];
      if ds[0].mac != d.mac {
        PutDeviceUnique(ds[1..], d);
        assert forall x :: x in PutDevice(ds[1..], d) ==> x.mac != ds[0].mac;
      }
    }
  }

  /** The device list after a sequence of polls, in order. */
  function AfterPolls(ds: seq<Device>, polls: seq<Device>): seq<Device> {
    if polls == [] then ds else PutDevice(AfterPolls(ds, polls[..|polls| - 1]), polls[|polls| - 1])
  }

  /** The reference behaviour: every poll is stored. */
  function LatestPoll(polls: seq<Device>, mac: string): Option<Device> {
    if polls == [] then None
    else if polls[|polls| - 1].mac == mac then Some(polls[|polls| - 1])
    else LatestPoll(polls[..|polls| - 1], mac)
  }

  /** After any polls, a device that was polled at least once is stored with the address and
      segment of its latest poll, and a LastSeen that trails it by less than 300 seconds. */
  lemma {:induction false} PollsRefine(ds: seq<Device>, polls: seq<Device>, mac: string)
    requires UniqueDevices(ds)
    ensures UniqueDevices(AfterPolls(ds, polls))
    ensures match LatestPoll(polls, mac)
      case None => FindDevice(AfterPolls(ds, polls), mac) == FindDevice(ds, mac)
      case Some(d) =>
        var f := FindDevice(AfterPolls(ds, polls), mac);
        f.Some? && f.value.mac == mac && f.value.ip == d.ip && f.value.segmentID == d.segmentID
        && d.lastSeen - f.value.lastSeen < 300
  {
    if polls != [] {
      var before := polls[..|polls| - 1];
      PollsRefine(ds, before, mac);
      PutDeviceUnique(AfterPolls(ds, before), polls[|polls| - 1]);
      PutDeviceMeans(AfterPolls(ds, before), polls[|polls| - 1], mac);
      FindDeviceMac(AfterPolls(ds, before), mac);
    }
  }

  /** A poll changes nothing exactly when the device is known with this address and segment, seen less than
      300 seconds before. */
  lemma StoredUnlessKnown(ds: seq<Device>, d: Device)
    ensures PutDevice(ds, d) == ds <==>
      var k := FindDevice(ds, d.mac);
      k.Some? && k.value.ip == d.ip && k.value.segmentID == d.segmentID && d.lastSeen < k.value.lastSeen + 300
  {
    PutDeviceMeans(ds, d, d.mac);
    if FindDevice(ds, d.mac).Some? && NothingNew(FindDevice(ds, d.mac).value, d) {
      QuietPoll(ds, d);
    }
  }

  lemma {:induction false} QuietPoll(ds: seq<Device>, d: Device)
    requires FindDevice(ds, d.mac).Some? && NothingNew(FindDevice(ds, d.mac).value, d)
    ensures PutDevice(ds, d) == ds
  {
    if ds[0].mac != d.mac {
      QuietPoll(ds[1..], d);
    }
  }

  /** How many of the polls of one device were stored. */
  function Writes(ds: seq<Device>, polls: seq<Device>, mac: string): nat {
    if polls == [] then 0
    else
      var front, d := polls[..|polls| - 1], polls[|polls| - 1];
      Writes(ds, front, mac) + if d.mac == mac && PutDevice(AfterPolls(ds, front), d) != AfterPolls(ds, front) then 1 else 0
  }

  function FirstPoll(polls: seq<Device>, mac: string): Option<Device> { FirstOf(polls, (d: Device) => d.mac == mac) }

  /** The device keeps its address and segment during the polls, and time does not go back. */
  ghost predicate Steady(polls: seq<Device>, mac: string) {
    forall i, j :: 0 <= i <= j < |polls| && polls[i].mac == polls[j].mac == mac ==>
      polls[i].ip == polls[j].ip && polls[i].segmentID == polls[j].segmentID && polls[i].lastSeen <= polls[j].lastSeen
  }

  lemma FirstIsBefore(polls: seq<Device>, d: Device)
    requires Steady(polls + [d], d.mac)
    ensures Steady(polls, d.mac)
    ensures FirstPoll(polls + [d], d.mac) == if FirstPoll(polls, d.mac).Some? then FirstPoll(polls, d.mac) else Some(d)
    ensures match FirstPoll(polls, d.mac)
      case Some(f) => f.ip == d.ip && f.segmentID == d.segmentID && f.lastSeen <= d.lastSeen
      case None => true
  {
    var all := polls + [d];
    assert forall i :: 0 <= i < |polls| ==> polls[i] == all[i];
    FilterSnoc(polls, d, (x: Device) => x.mac == d.mac);
    FilterWithin(polls, (x: Device) => x.mac == d.mac);
    if FirstPoll(polls, d.mac).Some? {
      var f := FirstPoll(polls, d.mac).value;
      assert f in polls;
      var i :| 0 <= i < |polls| && polls[i] == f;
      assert all[i] == f && all[|polls|] == d;
    }
  }

  lemma {:induction false} FilterWithin(polls: seq<Device>, keep: Device -> bool)
    ensures forall x :: x in Filter(polls, keep) ==> x in polls && keep(x)
  {
    if polls != [] {
      FilterWithin(polls[1..], keep);
    }
  }

  lemma OtherPoll(polls: seq<Device>, d: Device, mac: string)
    requires Steady(polls + [d], mac) && d.mac != mac
    ensures Steady(polls, mac) && FirstPoll(polls + [d], mac) == FirstPoll(polls, mac)
  {
    assert forall i :: 0 <= i < |polls| ==> polls[i] == (polls + [d])[i];
    FilterSnoc(polls, d, (x: Device) => x.mac == mac);
  }

  /** What the writes of one steady device have cost: the stored record is the latest of them. */
  ghost predicate Spaced(ds: seq<Device>, polls: seq<Device>, mac: string) {
    var w := Writes(ds, polls, mac);
    w == 0 ||
      match (FirstPoll(polls, mac), FindDevice(AfterPolls(ds, polls), mac))
      case (Some(f), Some(k)) => k.ip == f.ip && k.segmentID == f.segmentID && 300 * (w - 1) <= k.lastSeen - f.lastSeen
      case _ => false
  }

  lemma {:induction false} SpacedAlways(ds: seq<Device>, polls: seq<Device>, mac: string)
    requires Steady(polls, mac)
    ensures Spaced(ds, polls, mac)
  {
    if polls != [] {
      var front, d := polls[..|polls| - 1], polls[|polls| - 1];
      assert polls == front + [d];
      if d.mac == mac {
        FirstIsBefore(front, d);
      } else {
        OtherPoll(front, d, mac);
      }
      SpacedAlways(ds, front, mac);
      StoredUnlessKnown(AfterPolls(ds, front), d);
      PutDeviceMeans(AfterPolls(ds, front), d, mac);
    }
  }

  /** Suppression works: however often a steady device is polled, it is written once and then at most once
      every 300 seconds. */
  lemma WritesAreRare(ds: seq<Device>, polls: seq<Device>, mac: string)
    requires Steady(polls, mac) && 0 < Writes(ds, polls, mac)
    ensures FirstPoll(polls, mac).Some? && LatestPoll(polls, mac).Some?
    ensures 300 * (Writes(ds, polls, mac) - 1) <= LatestPoll(polls, mac).value.lastSeen - FirstPoll(polls, mac).value.lastSeen
  {
    SpacedAlways(ds, polls, mac);
    NotAhead(ds, polls, mac);
  }

  /** After a write the stored record is never ahead of the latest poll. */
  lemma {:induction false} NotAhead(ds: seq<Device>, polls: seq<Device>, mac: string)
    requires Steady(polls, mac) && 0 < Writes(ds, polls, mac)
    ensures match (LatestPoll(polls, mac), FindDevice(AfterPolls(ds, polls), mac))
      case (Some(d), Some(k)) => k.lastSeen <= d.lastSeen
      case _ => false
  {
    var front, d := polls[..|polls| - 1], polls[|polls| - 1];
    assert forall i :: 0 <= i < |front| ==> front[i] == polls[i];
    PutDeviceMeans(AfterPolls(ds, front), d, mac);
    StoredUnlessKnown(AfterPolls(ds, front), d);
    if 0 < Writes(ds, front, mac) {
      NotAhead(ds, front, mac);
      if d.mac == mac {
        LatestIn(front, mac);
        var i :| 0 <= i < |front| && front[i] == LatestPoll(front, mac).value && front[i].mac == mac;
        assert polls[i] == front[i] && polls[|front|] == d;
      }
    }
  }

  lemma {:induction false} LatestIn(polls: seq<Device>, mac: string)
    ensures LatestPoll(polls, mac).Some? ==>
      exists i :: 0 <= i < |polls| && polls[i] == LatestPoll(polls, mac).value && polls[i].mac == mac
  {
    if polls != [] && polls[|polls| - 1].mac != mac {
      var front := polls[..|polls| - 1];
      LatestIn(front, mac);
      if LatestPoll(front, mac).Some? {
        var i :| 0 <= i < |front| && front[i] == LatestPoll(front, mac).value && front[i].mac == mac;
        assert polls[i] == front[i];
      }
    }
  }

  lemma {:induction false} FindDeviceMac(ds: seq<Device>, mac: string)
    ensures FindDevice(ds, mac).Some? ==> FindDevice(ds, mac).value.mac == mac && FindDevice(ds, mac).value in ds
  {
    if ds != [] {
      FindDeviceMac(ds[1..], mac);
    }
  }

  /** The store as a value. */
  datatype Store = Store(segments: seq<Segment>, reservations: seq<Reservation>, leases: seq<Lease>, leaseSeconds: int)

  class Config {
    var segments: seq<Segment>
    var reservations: seq<Reservation>
    var leases: seq<Lease>
    var devices: seq<Device>
    var leaseSeconds: int
    var mutGen: nat  // deferred updates so far; a change means the flusher will write the file

    function Contents(): (s: Store)
      reads this
      ensures s.segments == segments && s.reservations == reservations && s.leases == leases && s.leaseSeconds == leaseSeconds
    {
      Store(segments, reservations, leases, leaseSeconds)
    }

    constructor (segments: seq<Segment>, reservations: seq<Reservation>, leases: seq<Lease>, leaseSeconds: int)
      ensures Contents() == Store(segments, reservations, leases, leaseSeconds)
      ensures devices == [] && mutGen == 0
    {
      this.segments, this.reservations, this.leases := segments, reservations, leases;
      this.leaseSeconds := leaseSeconds;
      devices, mutGen := [], 0;
    }

    method SegmentByID(id: string) returns (r: Option<Segment>)
      ensures r == FindSegment(segments, id)
    {
      for i := 0 to |segments|
        invariant FindSegment(segments, id) == FindSegment(segments[i..], id)
      {
        if segments[i].id == id {
          return Some(segments[i]);
        }
      }
      return None;
    }

    method ReservationForMAC(mac: string) returns (r: Option<Reservation>)
      ensures r == FindReservation(reservations, mac)
    {
      for i := 0 to |reservations|
        invariant FindReservation(reservations, mac) == FindReservation(reservations[i..], mac)
      {
        if reservations[i].mac == mac {
          return Some(reservations[i]);
        }
      }
      return None;
    }

    method LeaseForMAC(mac: string) returns (r: Option<Lease>)
      ensures r == FindLease(leases, mac)
    {
      for i := 0 to |leases|
        invariant FindLease(leases, mac) == FindLease(leases[i..], mac)
      {
        if leases[i].mac == mac {
          return Some(leases[i]);
        }
      }
      return None;
    }

    method IPInUse(ip: IPv4, excludeMAC: string) returns (b: bool)
      ensures b <==> InUse(reservations, leases, ip, excludeMAC)
    {
      for i := 0 to |reservations|
        invariant forall k :: 0 <= k < i ==> !(reservations[k].ip == ip && reservations[k].mac != excludeMAC)
      {
        if reservations[i].ip == ip && reservations[i].mac != excludeMAC {
          return true;
        }
      }
      for i := 0 to |leases|
        invariant forall k :: 0 <= k < i ==> !(leases[k].ip == ip && leases[k].mac != excludeMAC)
      {
        if leases[i].ip == ip && leases[i].mac != excludeMAC {
          return true;
        }
      }
      return false;
    }

    method UpsertLease(l: Lease)
      modifies this`leases, this`mutGen
      ensures leases == PutLease(old(leases), l)
      ensures mutGen == old(mutGen) + 1
    {
      for i := 0 to |leases|
        invariant leases == old(leases) && mutGen == old(mutGen)
        invariant forall k :: 0 <= k < i ==> leases[k].mac != l.mac
      {
        if leases[i].mac == l.mac {
          PutLeaseAt(leases, l, i);
          leases := leases[i := l];
          mutGen := mutGen + 1;
          return;
        }
      }
      PutLeaseAt(leases, l, |leases|);
      leases := leases + [l];
      mutGen := mutGen + 1;
    }

    method RemoveLease(mac: string)
      modifies this`leases
      ensures leases == DropLease(old(leases), mac)
    {
      var out := [];
      for i := 0 to |leases|
        invariant leases == old(leases) && out == DropLease(leases[..i], mac)
      {
        DropLeaseAppend(leases[..i], leases[i], mac);
        assert leases[..i + 1] == leases[..i] + [leases[i]];
        if leases[i].mac != mac {
          out := out + [leases[i]];
        }
      }
      assert leases[..|leases|] == leases;
      leases := out;
    }

    method AddReservation(r: Reservation)
      modifies this`reservations
      ensures reservations == PutReservation(old(reservations), r)
    {
      for i := 0 to |reservations|
        invariant reservations == old(reservations)
        invariant forall k :: 0 <= k < i ==> reservations[k].mac != r.mac
      {
        if reservations[i].mac == r.mac {
          PutReservationAt(reservations, r, i);
          reservations := reservations[i := r];
          return;
        }
      }
      PutReservationAt(reservations, r, |reservations|);
      reservations := reservations + [r];
    }

    /** Every change of a record is marked dirty, and only a change is. */
    method UpsertDiscoveredDevice(d: Device)
      modifies this`devices, this`mutGen
      ensures devices == PutDevice(old(devices), d)
      ensures var known := FindDevice(old(devices), d.mac);
        if known.Some? && NothingNew(known.value, d)
        then mutGen == old(mutGen) && devices == old(devices)
        else mutGen == old(mutGen) + 1 && FindDevice(devices, d.mac) == Some(d)
    {
      PutDeviceMeans(devices, d, d.mac);
      for i := 0 to |devices|
        invariant devices == old(devices) && mutGen == old(mutGen)
        invariant forall k :: 0 <= k < i ==> devices[k].mac != d.mac
      {
        if devices[i].mac == d.mac {
          PutDeviceAt(devices, d, i);
          if devices[i].ip == d.ip && devices[i].segmentID == d.segmentID
            && d.lastSeen - devices[i].lastSeen < DISCOVERED_REFRESH_SECS {
            return;
          }
          devices := devices[i := d];
          mutGen := mutGen + 1;
          return;
        }
      }
      PutDeviceAt(devices, d, |devices|);
      devices := devices + [d];
      mutGen := mutGen + 1;
    }

    /** The segment's dynamic pool, None when the segment is gone or its range does not parse. */
    method ParsePoolRangeForSegment(segmentID: string) returns (r: Option<(IPv4, IPv4)>)
      ensures r == PoolOf(segments, segmentID)
    {
      for i := 0 to |segments|
        invariant FindSegment(segments, segmentID) == FindSegment(segments[i..], segmentID)
      {
        if segments[i].id == segmentID {
          var s := segments[i];
          if s.poolStart.None? || s.poolEnd.None? {
            return None;
          }
          return Some((s.poolStart.value, s.poolEnd.value));
        }
      }
      return None;
    }
  }

  function PoolOf(segs: seq<Segment>, id: string): Option<(IPv4, IPv4)> {
    var f := FindSegment(segs, id);
    if f.None? || f.value.poolStart.None? || f.value.poolEnd.None? then None
    else Some((f.value.poolStart.value, f.value.poolEnd.value))
  }
}
