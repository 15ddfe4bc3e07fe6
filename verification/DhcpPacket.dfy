/** The DHCP wire format (section 2 of RFC 2131, options of RFC 2132). */
module DhcpPacket {
  import opened Basics

  const OPT_PAD: Byte := 0
  const OPT_SUBNET_MASK: Byte := 1
  const OPT_ROUTER: Byte := 3
  const OPT_DNS_SERVER: Byte := 6
  const OPT_HOSTNAME: Byte := 12
  const OPT_REQUESTED_IP: Byte := 50
  const OPT_LEASE_TIME: Byte := 51
  const OPT_MESSAGE_TYPE: Byte := 53
  const OPT_SERVER_ID: Byte := 54
  const OPT_END: Byte := 255

  const MAGIC: Bytes := [99, 130, 83, 99]

  /** What the option walk collects. */
  datatype Fields = Fields(messageType: Byte, requestedIP: Option<Bytes>, hostname: Bytes, serverID: Option<Bytes>)
  const NO_FIELDS := Fields(0, None, [], None)

  datatype Packet = Packet(op: Byte, htype: Byte, hlen: Byte, xid: Bytes, secs: nat, flags: nat,
                           ciaddr: Bytes, yiaddr: Bytes, siaddr: Bytes, giaddr: Bytes, chaddr: Bytes, fields: Fields)

  datatype Malformed = TooShort | BadCookie
  type Parsed = Result<Packet, Malformed>

  // ----- options -----

  datatype Opt = Opt(code: Byte, val: Bytes)

  /** The options in front of the first End (or of the first truncated option). */
  function Options(o: Bytes): seq<Opt>
    decreases |o|
  {
    if o == [] || o[0] == OPT_END then []
    else if o[0] == OPT_PAD then Options(o[1..])
    else if |o| < 2 || 2 + o[1] > |o| then []
    else [Opt(o[0], o[2..2 + o[1]])] + Options(o[2 + o[1]..])
  }

  /** The switch on the option code: fields of the wrong length are ignored, the last one wins. */
  function Apply(f: Fields, o: Opt): Fields {
    if o.code == OPT_MESSAGE_TYPE then (if |o.val| == 1 then f.(messageType := o.val[0]) else f)
    else if o.code == OPT_REQUESTED_IP then (if |o.val| == 4 then f.(requestedIP := Some(o.val)) else f)
    else if o.code == OPT_HOSTNAME then f.(hostname := o.val)
    else if o.code == OPT_SERVER_ID then (if |o.val| == 4 then f.(serverID := Some(o.val)) else f)
    else f
  }

  function ApplyAll(f: Fields, os: seq<Opt>): Fields
    decreases |os|
  {
    if os == [] then f else ApplyAll(Apply(f, os[0]), os[1..])
  }

  function Min(a: nat, b: nat): nat { if a < b then a else b }

  function Parse(b: Bytes): Parsed {
    if |b| < 240 then Err(TooShort)
    else if b[236..240] != MAGIC then Err(BadCookie)
    else Ok(Packet(b[0], b[1], b[2], b[4..8], Uint16(b[8], b[9]), Uint16(b[10], b[11]),
                   b[12..16], b[16..20], b[20..24], b[24..28], b[28..28 + Min(b[2], 16)],
                   ApplyAll(NO_FIELDS, Options(b[240..]))))
  }

  /** What the walk sees at index i. */
  lemma OptionsAt(b: Bytes, i: nat)
    requires i < |b|
    ensures b[i] == OPT_PAD ==> Options(b[i..]) == Options(b[i + 1..])
    ensures b[i] == OPT_END ==> Options(b[i..]) == []
    ensures b[i] != OPT_PAD && b[i] != OPT_END ==>
      if i + 1 >= |b| || i + 2 + b[i + 1] > |b| then Options(b[i..]) == []
      else Options(b[i..]) == [Opt(b[i], b[i + 2..i + 2 + b[i + 1]])] + Options(b[i + 2 + b[i + 1]..])
  {
    var o := b[i..];
    assert o[0] == b[i] && o[1..] == b[i + 1..];
    if i + 1 < |b| && i + 2 + b[i + 1] <= |b| {
      var n := 2 + b[i + 1] as int;
      assert o[1] == b[i + 1];
      assert o[2..n] == b[i + 2..i + n] && o[n..] == b[i + n..];
    }
  }

  lemma ApplyStep(f: Fields, o: Opt, os: seq<Opt>)
    ensures ApplyAll(f, [o] + os) == ApplyAll(Apply(f, o), os)
  {
    assert ([o] + os)[1..] == os;
  }

  /** What is left to do at index i, in front of a whole option, and what is left after it. */
  lemma WalkStep(b: Bytes, i: nat, f: Fields)
    requires i + 1 < |b| && b[i] != OPT_PAD && b[i] != OPT_END && i + 2 + b[i + 1] as int <= |b|
    ensures var j := i + 2 + b[i + 1] as int;
      ApplyAll(f, Options(b[i..])) == ApplyAll(Apply(f, Opt(b[i], b[i + 2..j])), Options(b[j..]))
  {
    OptionsAt(b, i);
    var j := i + 2 + b[i + 1] as int;
    ApplyStep(f, Opt(b[i], b[i + 2..j]), Options(b[j..]));
  }

  /** The option walk with an index: always in bounds, on every byte string. */
  method WalkOptions(b: Bytes) returns (f: Fields)
    requires |b| >= 240
    ensures f == ApplyAll(NO_FIELDS, Options(b[240..]))
  {
    f := NO_FIELDS;
    var i := 240;
    ghost var all := ApplyAll(NO_FIELDS, Options(b[240..]));
    while i < |b|
      invariant 240 <= i <= |b|
      invariant all == ApplyAll(f, Options(b[i..]))
      decreases |b| - i
    {
      OptionsAt(b, i);
      var code := b[i];
      if code == OPT_END {
        return;
      }
      if code == OPT_PAD {
        i := i + 1;
        continue;
      }
      if i + 1 >= |b| {
        return;
      }
      var length := b[i + 1] as int;
      if i + 2 + length > |b| {
        return;
      }
      var val := b[i + 2..i + 2 + length];
      WalkStep(b, i, f);
      f := Apply(f, Opt(code, val));
      i := i + 2 + length;
    }
  }

  method ParsePacket(b: Bytes) returns (r: Parsed)
    ensures r == Parse(b)
  {
    if |b| < 240 {
      return Err(TooShort);
    }
    var hlen := b[2] as int;
    if hlen > 16 {
      hlen := 16;
    }
    var chaddr := b[28..28 + hlen];
    if b[236] != MAGIC[0] || b[237] != MAGIC[1] || b[238] != MAGIC[2] || b[239] != MAGIC[3] {
      return Err(BadCookie);
    }
    assert b[236..240] == MAGIC;
    var f := WalkOptions(b);
    return Ok(Packet(b[0], b[1], b[2], b[4..8], Uint16(b[8], b[9]), Uint16(b[10], b[11]),
                     b[12..16], b[16..20], b[20..24], b[24..28], chaddr, f));
  }

  // ----- RFC 2132 sections 3.1 and 3.2 -----

  /** A run of whole options and pads: after it the walk stands at an option boundary. */
  predicate Whole(a: Bytes)
    decreases |a|
  {
    if a == [] then true
    else if a[0] == OPT_END then false
    else if a[0] == OPT_PAD then Whole(a[1..])
    else |a| >= 2 && 2 + a[1] as int <= |a| && Whole(a[2 + a[1] as int..])
  }

  /** After whole options, only what the rest means matters. */
  lemma {:induction false} OptionsCongruent(a: Bytes, x: Bytes, y: Bytes)
    requires Whole(a) && Options(x) == Options(y)
    ensures Options(a + x) == Options(a + y)
    decreases |a|
  {
    if a == [] {
      assert a + x == x && a + y == y;
    } else {
      var n: nat := if a[0] == OPT_PAD then 1 else 2 + a[1] as int;
      OptionsCongruent(a[n..], x, y);
      if a[0] == OPT_PAD {
        PadHead(a, x);
        PadHead(a, y);
      } else {
        OptionHead(a, x, n);
        OptionHead(a, y, n);
      }
    }
  }

  lemma PadHead(a: Bytes, x: Bytes)
    requires a != [] && a[0] == OPT_PAD
    ensures Options(a + x) == Options(a[1..] + x)
  {
    assert (a + x)[1..] == a[1..] + x;
  }

  lemma OptionHead(a: Bytes, x: Bytes, n: nat)
    requires |a| >= 2 && a[0] != OPT_END && a[0] != OPT_PAD && n == 2 + a[1] as int <= |a|
    ensures Options(a + x) == [Opt(a[0], a[2..n])] + Options(a[n..] + x)
  {
    var b := a + x;
    assert b[n..] == a[n..] + x;
    assert b[2..n] == a[2..n];
    assert b[0] == a[0] && b[1] == a[1];
  }

  /** Pad octets at option boundaries change nothing, and octets after End are ignored. */
  lemma PadAndEnd(a: Bytes, rest: Bytes, junk: Bytes)
    requires Whole(a)
    ensures Options(a + [OPT_PAD] + rest) == Options(a + rest)
    ensures Options(a + [OPT_END] + junk) == Options(a + [OPT_END])
  {
    assert a + [OPT_PAD] + rest == a + ([OPT_PAD] + rest) && ([OPT_PAD] + rest)[1..] == rest;
    OptionsCongruent(a, [OPT_PAD] + rest, rest);
    assert a + [OPT_END] + junk == a + ([OPT_END] + junk);
    OptionsCongruent(a, [OPT_END] + junk, [OPT_END]);
  }

  /** An option that runs off the message, or has no length octet, ends the walk like End. */
  lemma TruncatedEnds(a: Bytes, code: Byte, n: Byte, part: Bytes)
    requires Whole(a) && code != OPT_PAD && code != OPT_END && |part| < n as int
    ensures Options(a + [code, n] + part) == Options(a + [code]) == Options(a + [OPT_END])
  {
    assert a + [code, n] + part == a + ([code, n] + part);
    OptionsCongruent(a, [code, n] + part, [OPT_END]);
    OptionsCongruent(a, [code], [OPT_END]);
  }

  // ----- replies -----

  /** net.IP: nil, an IPv4 address, or something that has no 4-byte form. */
  datatype Addr = Nil | V4(b: Bytes) | Other

  predicate Wide(a: Addr) { a.V4? ==> |a.b| == 4 }

  function To4(a: Addr): Bytes { if a.V4? then a.b else [] }

  datatype ReplyOpts = ReplyOpts(messageType: Byte, yourIP: Addr, serverID: Addr, subnetMask: Addr,
                                 router: Addr, dnsServer: Addr, leaseTime: nat)

  predicate Replyable(req: Packet, opts: ReplyOpts) {
    && |req.xid| == 4 && |req.chaddr| <= 16
    && Wide(opts.yourIP) && Wide(opts.serverID) && Wide(opts.subnetMask) && Wide(opts.router) && Wide(opts.dnsServer)
    && opts.leaseTime < 0x1_0000_0000
  }

  function Optional(code: Byte, a: Addr): seq<Opt> {
    if a == Nil then [] else [Opt(code, To4(a))]
  }

  /** The options of a reply, in order. */
  function ReplyOptions(opts: ReplyOpts): seq<Opt>
    requires opts.leaseTime < 0x1_0000_0000
  {
    [Opt(OPT_MESSAGE_TYPE, [opts.messageType])] + [Opt(OPT_SERVER_ID, To4(opts.serverID))]
    + Optional(OPT_SUBNET_MASK, opts.subnetMask) + Optional(OPT_ROUTER, opts.router)
    + Optional(OPT_DNS_SERVER, opts.dnsServer)
    + [Opt(OPT_LEASE_TIME, BigEndian32(opts.leaseTime))]
  }

  /** The length octet is byte(len(val)). */
  function Encode(os: seq<Opt>): Bytes {
    if os == [] then [] else [os[0].code, |os[0].val| % 256] + os[0].val + Encode(os[1..])
  }

  /** Go's copy(buf[at:], v). */
  function Copy(buf: Bytes, at: nat, v: Bytes): (r: Bytes)
    requires at + |v| <= |buf|
    ensures |r| == |buf|
    ensures forall i :: 0 <= i < |buf| ==> r[i] == if at <= i < at + |v| then v[i - at] else buf[i]
  {
    buf[..at] + v + buf[at + |v|..]
  }

  function Header(req: Packet, opts: ReplyOpts): (h: Bytes)
    requires Replyable(req, opts)
    ensures |h| == 240
  {
    var buf: Bytes := seq(240, i => 0);
    var buf := buf[0 := 2][1 := req.htype][2 := req.hlen];
    var buf := Copy(buf, 4, req.xid);
    var buf := Copy(buf, 16, To4(opts.yourIP));
    var buf := Copy(buf, 20, To4(opts.serverID));
    var buf := Copy(buf, 28, req.chaddr);
    Copy(buf, 236, MAGIC)
  }

  method AppendOpt(buf: Bytes, code: Byte, val: Bytes, ghost header: Bytes, ghost os: seq<Opt>) returns (r: Bytes)
    requires buf == header + Encode(os)
    ensures r == header + Encode(os + [Opt(code, val)])
  {
    EncodeAppend(os, Opt(code, val));
    r := buf + [code, |val| % 256];
    r := r + val;
  }

  /** An option that is left out when the address is nil. */
  method AppendAddr(buf: Bytes, code: Byte, a: Addr, ghost header: Bytes, ghost os: seq<Opt>) returns (r: Bytes)
    requires buf == header + Encode(os)
    ensures r == header + Encode(os + Optional(code, a))
  {
    if a != Nil {
      r := AppendOpt(buf, code, To4(a), header, os);
    } else {
      r := buf;
      assert os + [] == os;
    }
  }

  method BuildReply(req: Packet, opts: ReplyOpts) returns (buf: Bytes)
    requires Replyable(req, opts)
    ensures buf == Header(req, opts) + Encode(ReplyOptions(opts)) + [OPT_END]
  {
    var zeros: Bytes := seq(240, i => 0);
    buf := zeros[0 := 2][1 := req.htype][2 := req.hlen];
    buf := Copy(buf, 4, req.xid);
    buf := Copy(buf, 16, To4(opts.yourIP));
    buf := Copy(buf, 20, To4(opts.serverID));
    buf := Copy(buf, 28, req.chaddr);
    buf := Copy(buf, 236, MAGIC);
    ghost var h := buf;
    assert h == Header(req, opts) && h == h + Encode([]);
    ghost var o1 := [Opt(OPT_MESSAGE_TYPE, [opts.messageType])];
    ghost var o2 := o1 + [Opt(OPT_SERVER_ID, To4(opts.serverID))];
    ghost var o3 := o2 + Optional(OPT_SUBNET_MASK, opts.subnetMask);
    ghost var o4 := o3 + Optional(OPT_ROUTER, opts.router);
    ghost var o5 := o4 + Optional(OPT_DNS_SERVER, opts.dnsServer);
    assert [] + o1 == o1;
    buf := AppendOpt(buf, OPT_MESSAGE_TYPE, [opts.messageType], h, []);
    buf := AppendOpt(buf, OPT_SERVER_ID, To4(opts.serverID), h, o1);
    buf := AppendAddr(buf, OPT_SUBNET_MASK, opts.subnetMask, h, o2);
    buf := AppendAddr(buf, OPT_ROUTER, opts.router, h, o3);
    buf := AppendAddr(buf, OPT_DNS_SERVER, opts.dnsServer, h, o4);
    buf := AppendOpt(buf, OPT_LEASE_TIME, BigEndian32(opts.leaseTime), h, o5);
    buf := buf + [OPT_END];
  }

  lemma {:induction false} EncodeAppend(os: seq<Opt>, o: Opt)
    ensures Encode(os + [o]) == Encode(os) + ([o.code, |o.val| % 256] + o.val)
  {
    if os != [] {
      assert (os + [o])[1..] == os[1..] + [o];
      EncodeAppend(os[1..], o);
    } else {
      assert os + [o] == [o];
      assert Encode([o]) == [o.code, |o.val| % 256] + o.val + Encode([o][1..]);
    }
  }

  predicate Short(os: seq<Opt>) {
    forall o :: o in os ==> |o.val| < 256
  }

  /** Decoding an encoded option list gives the list back, whatever follows End. */
  lemma {:induction false} DecodeEncode(os: seq<Opt>, rest: Bytes)
    requires Short(os) && forall o :: o in os ==> o.code != OPT_PAD && o.code != OPT_END
    ensures Options(Encode(os) + [OPT_END] + rest) == os
    decreases |os|
  {
    var b := Encode(os) + [OPT_END] + rest;
    if os != [] {
      var o := os[0];
      var tail := Encode(os[1..]) + [OPT_END] + rest;
      assert b == [o.code, |o.val|] + o.val + tail;
      assert b[0] == o.code && b[1] == |o.val| && b[2..2 + |o.val|] == o.val && b[2 + |o.val|..] == tail;
      DecodeEncode(os[1..], rest);
      assert os == [o] + os[1..];
    }
  }

  /** What every parsed request looks like. */
  predicate Sane(p: Packet) {
    |p.xid| == 4 && |p.chaddr| <= 16 && (|p.chaddr| == p.hlen || (16 < p.hlen && |p.chaddr| == 16))
  }

  /** What parses is at least 240 octets with the cookie at 236, and anything else does not parse. */
  lemma ParsedIsSane(b: Bytes)
    ensures Parse(b).Ok? <==> 240 <= |b| && b[236..240] == [99, 130, 83, 99]
    ensures Parse(b).Ok? ==> Sane(Parse(b).value)
    ensures Parse(b) == Err(TooShort) <==> |b| < 240
  {
  }

  /** Octet i of a reply's header. */
  function HeaderOctet(req: Packet, opts: ReplyOpts, i: nat): Byte
    requires Replyable(req, opts) && i < 240
  {
    if 236 <= i then MAGIC[i - 236]
    else if 28 <= i < 28 + |req.chaddr| then req.chaddr[i - 28]
    else if 20 <= i < 20 + |To4(opts.serverID)| then To4(opts.serverID)[i - 20]
    else if 16 <= i < 16 + |To4(opts.yourIP)| then To4(opts.yourIP)[i - 16]
    else if 4 <= i < 8 then req.xid[i - 4]
    else if i == 0 then 2 else if i == 1 then req.htype else if i == 2 then req.hlen else 0
  }

  lemma HeaderAt(req: Packet, opts: ReplyOpts, i: nat)
    requires Replyable(req, opts) && i < 240
    ensures Header(req, opts)[i] == HeaderOctet(req, opts, i)
  {
  }

  lemma SliceIs(h: Bytes, at: nat, v: Bytes)
    requires at + |v| <= |h| && forall k :: 0 <= k < |v| ==> h[at + k] == v[k]
    ensures h[at..at + |v|] == v
  {
  }

  lemma HeaderBytes(req: Packet, opts: ReplyOpts)
    requires Replyable(req, opts) && Sane(req)
    ensures var h := Header(req, opts);
      && h[0] == 2 && h[1] == req.htype && h[2] == req.hlen && h[4..8] == req.xid
      && h[16..20] == (if opts.yourIP.V4? then opts.yourIP.b else [0, 0, 0, 0])
      && h[20..24] == (if opts.serverID.V4? then opts.serverID.b else [0, 0, 0, 0])
      && h[28..28 + Min(req.hlen, 16)] == req.chaddr && h[236..240] == MAGIC
  {
    HeaderAt(req, opts, 0);
    HeaderAt(req, opts, 1);
    HeaderAt(req, opts, 2);
    HeaderField(req, opts, 4, req.xid);
    HeaderField(req, opts, 16, if opts.yourIP.V4? then opts.yourIP.b else [0, 0, 0, 0]);
    HeaderField(req, opts, 20, if opts.serverID.V4? then opts.serverID.b else [0, 0, 0, 0]);
    HeaderField(req, opts, 28, req.chaddr);
    HeaderField(req, opts, 236, MAGIC);
  }

  /** What a reply leaves zero: secs, flags, ciaddr and giaddr. */
  lemma HeaderZeros(req: Packet, opts: ReplyOpts)
    requires Replyable(req, opts)
    ensures var h := Header(req, opts);
      h[8] == h[9] == h[10] == h[11] == 0 && h[12..16] == h[24..28] == [0, 0, 0, 0]
  {
    HeaderAt(req, opts, 8);
    HeaderAt(req, opts, 9);
    HeaderAt(req, opts, 10);
    HeaderAt(req, opts, 11);
    HeaderField(req, opts, 12, [0, 0, 0, 0]);
    HeaderField(req, opts, 24, [0, 0, 0, 0]);
  }

  /** A field of the header, octet by octet. */
  lemma HeaderField(req: Packet, opts: ReplyOpts, at: nat, v: Bytes)
    requires Replyable(req, opts) && at + |v| <= 240
    requires forall k :: 0 <= k < |v| ==> HeaderOctet(req, opts, at + k) == v[k]
    ensures Header(req, opts)[at..at + |v|] == v
  {
    var h := Header(req, opts);
    forall k | 0 <= k < |v| ensures h[at + k] == v[k] {
      HeaderAt(req, opts, at + k);
    }
    SliceIs(h, at, v);
  }

  lemma {:induction false} ApplyLast(f: Fields, os: seq<Opt>, o: Opt)
    ensures ApplyAll(f, os + [o]) == Apply(ApplyAll(f, os), o)
    decreases |os|
  {
    if os == [] {
      assert os + [o] == [o] + [];
      ApplyStep(f, o, []);
    } else {
      assert os + [o] == [os[0]] + (os[1..] + [o]);
      ApplyStep(f, os[0], os[1..] + [o]);
      ApplyLast(Apply(f, os[0]), os[1..], o);
    }
  }

  lemma ApplyUnknown(os: seq<Opt>, code: Byte, a: Addr)
    requires code == OPT_SUBNET_MASK || code == OPT_ROUTER || code == OPT_DNS_SERVER
    ensures ApplyAll(NO_FIELDS, os + Optional(code, a)) == ApplyAll(NO_FIELDS, os)
  {
    if a == Nil {
      assert os + [] == os;
    } else {
      ApplyLast(NO_FIELDS, os, Opt(code, To4(a)));
    }
  }

  /** What the server's own option walk makes of a reply's options. */
  function ReplyTells(opts: ReplyOpts): Fields {
    Fields(opts.messageType, None, [], if opts.serverID.V4? then Some(opts.serverID.b) else None)
  }

  lemma ReplyFields(opts: ReplyOpts)
    requires opts.leaseTime < 0x1_0000_0000 && Wide(opts.serverID)
    ensures ApplyAll(NO_FIELDS, ReplyOptions(opts)) == ReplyTells(opts)
  {
    var f := ReplyTells(opts);
    var o1 := [Opt(OPT_MESSAGE_TYPE, [opts.messageType])];
    var o2 := o1 + [Opt(OPT_SERVER_ID, To4(opts.serverID))];
    var o3 := o2 + Optional(OPT_SUBNET_MASK, opts.subnetMask);
    var o4 := o3 + Optional(OPT_ROUTER, opts.router);
    var o5 := o4 + Optional(OPT_DNS_SERVER, opts.dnsServer);
    ApplyLast(NO_FIELDS, [], o1[0]);
    assert [] + o1 == o1;
    ApplyLast(NO_FIELDS, o1, Opt(OPT_SERVER_ID, To4(opts.serverID)));
    assert ApplyAll(NO_FIELDS, o2) == f;
    ApplyUnknown(o2, OPT_SUBNET_MASK, opts.subnetMask);
    ApplyUnknown(o3, OPT_ROUTER, opts.router);
    ApplyUnknown(o4, OPT_DNS_SERVER, opts.dnsServer);
    ApplyLast(NO_FIELDS, o5, Opt(OPT_LEASE_TIME, BigEndian32(opts.leaseTime)));
  }

  lemma ReplyIsShort(opts: ReplyOpts)
    requires opts.leaseTime < 0x1_0000_0000
    requires Wide(opts.serverID) && Wide(opts.subnetMask) && Wide(opts.router) && Wide(opts.dnsServer)
    ensures Short(ReplyOptions(opts))
    ensures forall o :: o in ReplyOptions(opts) ==> o.code != OPT_PAD && o.code != OPT_END
  {
  }

  /** Every reply to a parsed request is read back with the request's transaction ID and hardware
      address, the address given (zero in a NAK), the message type and the server ID; and its
      options are exactly the ones given, in order. */
  lemma ReplyRoundTrip(req: Packet, opts: ReplyOpts, reply: Bytes)
    requires Sane(req) && Replyable(req, opts)
    requires reply == Header(req, opts) + Encode(ReplyOptions(opts)) + [OPT_END]
    ensures |reply| >= 240 && Options(reply[240..]) == ReplyOptions(opts)
    ensures Parse(reply).Ok?
    ensures var p := Parse(reply).value;
      && p.op == 2 && p.htype == req.htype && p.hlen == req.hlen
      && p.xid == req.xid && p.chaddr == req.chaddr
      && p.yiaddr == (if opts.yourIP.V4? then opts.yourIP.b else [0, 0, 0, 0])
      && p.siaddr == (if opts.serverID.V4? then opts.serverID.b else [0, 0, 0, 0])
      && p.secs == p.flags == 0 && p.ciaddr == p.giaddr == [0, 0, 0, 0]
      && p.fields == ReplyTells(opts)
  {
    var os := ReplyOptions(opts);
    var h := Header(req, opts);
    HeaderBytes(req, opts);
    HeaderZeros(req, opts);
    ReplyIsShort(opts);
    ReplyFields(opts);
    DecodeEncode(os, []);
    assert reply == h + (Encode(os) + [OPT_END] + []);
    SameHeader(reply, h);
    assert reply[240..] == Encode(os) + [OPT_END] + [];
  }

  lemma SameHeader(b: Bytes, h: Bytes)
    requires h <= b
    ensures forall i, j :: 0 <= i <= j <= |h| ==> b[i..j] == h[i..j]
  {
  }

  // ----- messages from clients -----

  /** The last option with this code and, if one is asked for, this length. */
  function LastOf(os: seq<Opt>, code: int, width: Option<nat>): Option<Bytes> {
    if os == [] then None
    else
      var o := os[|os| - 1];
      if o.code == code && (width.None? || |o.val| == width.value) then Some(o.val) else LastOf(os[..|os| - 1], code, width)
  }

  /** What the options tell the server: message type (53), requested address (50), host name (12) and server
      ID (54), each the last of its kind that has the right length. */
  function Told(os: seq<Opt>): Fields {
    var mt, name := LastOf(os, 53, Some(1)), LastOf(os, 12, None);
    Fields(if mt.Some? && |mt.value| == 1 then mt.value[0] else 0, LastOf(os, 50, Some(4)),
      if name.Some? then name.value else [], LastOf(os, 54, Some(4)))
  }

  lemma {:induction false} LastOfWidth(os: seq<Opt>, code: int, width: nat)
    ensures var l := LastOf(os, code, Some(width)); l.Some? ==> |l.value| == width
  {
    if os != [] {
      LastOfWidth(os[..|os| - 1], code, width);
    }
  }

  lemma {:induction false} FieldsMean(os: seq<Opt>)
    ensures ApplyAll(NO_FIELDS, os) == Told(os)
  {
    if os != [] {
      var front, o := os[..|os| - 1], os[|os| - 1];
      assert os == front + [o];
      FieldsMean(front);
      ApplyLast(NO_FIELDS, front, o);
    }
  }

  /** A message as section 2 of RFC 2131 lays it out: the fixed fields, 192 octets of names, the cookie, and
      the options. */
  function Octets(p: Packet, hops: Byte, padding: Bytes, names: Bytes, options: Bytes): Bytes {
    [p.op, p.htype, p.hlen, hops] + (p.xid + (BigEndian16(p.secs) + (BigEndian16(p.flags)
    + (p.ciaddr + (p.yiaddr + (p.siaddr + (p.giaddr + (p.chaddr + (padding + (names + ([99, 130, 83, 99] + options)))))))))))
  }

  predicate WellSized(p: Packet, padding: Bytes, names: Bytes) {
    && |p.xid| == |p.ciaddr| == |p.yiaddr| == |p.siaddr| == |p.giaddr| == 4
    && p.secs < 0x1_0000 && p.flags < 0x1_0000
    && (|p.chaddr| == p.hlen || (16 < p.hlen && |p.chaddr| == 16)) && |p.chaddr| + |padding| == 16 && |names| == 192
  }

  lemma FixedParts(b: Bytes, p: Packet, hops: Byte, padding: Bytes, names: Bytes, tail: Bytes)
    requires WellSized(p, padding, names) && b == Octets(p, hops, padding, names, tail)
    ensures |b| == 240 + |tail| && b[0] == p.op && b[1] == p.htype && b[2] == p.hlen && b[4..8] == p.xid
    ensures b[8..10] == BigEndian16(p.secs) && b[10..12] == BigEndian16(p.flags)
    ensures b[12..16] == p.ciaddr && b[16..20] == p.yiaddr && b[20..24] == p.siaddr && b[24..28] == p.giaddr
    ensures b[28..28 + Min(b[2], 16)] == p.chaddr && b[236..240] == MAGIC && b[240..] == tail
  {
    var t11 := [99, 130, 83, 99] + tail;
    var t10 := names + t11;
    var t9 := padding + t10;
    var t8 := p.chaddr + t9;
    var t7 := p.giaddr + t8;
    var t6 := p.siaddr + t7;
    var t5 := p.yiaddr + t6;
    var t4 := p.ciaddr + t5;
    var t3 := BigEndian16(p.flags) + t4;
    var t2 := BigEndian16(p.secs) + t3;
    var t1 := p.xid + t2;
    assert b[0..] == b;
    NextPart(b, 0, [p.op, p.htype, p.hlen, hops], t1);
    NextPart(b, 4, p.xid, t2);
    NextPart(b, 8, BigEndian16(p.secs), t3);
    NextPart(b, 10, BigEndian16(p.flags), t4);
    NextPart(b, 12, p.ciaddr, t5);
    NextPart(b, 16, p.yiaddr, t6);
    NextPart(b, 20, p.siaddr, t7);
    NextPart(b, 24, p.giaddr, t8);
    NextPart(b, 28, p.chaddr, t9);
    NextPart(b, 28 + |p.chaddr|, padding, t10);
    NextPart(b, 44, names, t11);
    NextPart(b, 236, [99, 130, 83, 99], tail);
  }

  lemma Uint16Reads(b: Bytes, i: nat, n: nat)
    requires i + 2 <= |b| && b[i..i + 2] == BigEndian16(n) && n < 0x1_0000
    ensures Uint16(b[i], b[i + 1]) == n
  {
    var w := b[i..i + 2];
    assert w[0] == b[i] && w[1] == b[i + 1];
  }

  /** Whatever a client sends in the format of the RFC is read back: every fixed field, and what its options
      tell, whatever pads the names and follows End. */
  lemma MessageRoundTrip(p: Packet, hops: Byte, padding: Bytes, names: Bytes, os: seq<Opt>, rest: Bytes)
    requires WellSized(p, padding, names)
    requires Short(os) && forall o :: o in os ==> o.code != OPT_PAD && o.code != OPT_END
    ensures Parse(Octets(p, hops, padding, names, Encode(os) + [OPT_END] + rest)) == Ok(p.(fields := Told(os)))
  {
    var tail := Encode(os) + [OPT_END] + rest;
    var b := Octets(p, hops, padding, names, tail);
    FixedParts(b, p, hops, padding, names, tail);
    Uint16Reads(b, 8, p.secs);
    Uint16Reads(b, 10, p.flags);
    DecodeEncode(os, rest);
    FieldsMean(os);
  }

  // ----- what a client reads in a reply -----

  /** The client finds an option for an address exactly if one was given: its four octets, or no octets at
      all for an address that is not IPv4. */
  predicate Carried(found: Option<Bytes>, a: Addr) {
    found == match a case Nil => None case V4(b) => Some(b) case Other => Some([])
  }

  lemma LastSnoc(os: seq<Opt>, o: Opt, code: int, width: Option<nat>)
    ensures LastOf(os + [o], code, width) ==
      if o.code == code && (width.None? || |o.val| == width.value) then Some(o.val) else LastOf(os, code, width)
  {
    assert (os + [o])[..|os|] == os;
  }

  lemma LastOptional(os: seq<Opt>, c: Byte, a: Addr, code: int)
    ensures var after := LastOf(os + Optional(c, a), code, None);
      if c == code && a != Nil then after == Some(To4(a)) else after == LastOf(os, code, None)
  {
    if a == Nil {
      assert os + Optional(c, a) == os;
    } else {
      LastSnoc(os, Opt(c, To4(a)), code, None);
    }
  }

  /** A reply says what it was built to say, by the option codes of RFC 2132: subnet mask (1), router (3), DNS
      server (6), lease time (51, four octets, most significant first), type (53) and server ID (54). */
  lemma ReplyCarries(opts: ReplyOpts, code: int)
    requires opts.leaseTime < 0x1_0000_0000
    ensures var found := LastOf(ReplyOptions(opts), code, None);
      if code == 1 then Carried(found, opts.subnetMask)
      else if code == 3 then Carried(found, opts.router)
      else if code == 6 then Carried(found, opts.dnsServer)
      else if code == 51 then found.Some? && SaysTime(found.value, opts.leaseTime)
      else if code == 53 then found == Some([opts.messageType])
      else if code == 54 then found == Some(To4(opts.serverID))
      else found == None
  {
    var o1 := [Opt(OPT_MESSAGE_TYPE, [opts.messageType])];
    var o2 := o1 + [Opt(OPT_SERVER_ID, To4(opts.serverID))];
    var o3 := o2 + Optional(OPT_SUBNET_MASK, opts.subnetMask);
    var o4 := o3 + Optional(OPT_ROUTER, opts.router);
    var o5 := o4 + Optional(OPT_DNS_SERVER, opts.dnsServer);
    var t := BigEndian32(opts.leaseTime);
    assert [] + o1 == o1;
    LastSnoc([], o1[0], code, None);
    LastSnoc(o1, Opt(OPT_SERVER_ID, To4(opts.serverID)), code, None);
    LastOptional(o2, OPT_SUBNET_MASK, opts.subnetMask, code);
    LastOptional(o3, OPT_ROUTER, opts.router, code);
    LastOptional(o4, OPT_DNS_SERVER, opts.dnsServer, code);
    LastSnoc(o5, Opt(OPT_LEASE_TIME, t), code, None);
    SaysBigEndian(opts.leaseTime);
  }

  lemma SaysBigEndian(v: Uint32)
    ensures SaysTime(BigEndian32(v), v)
  {
    assert v / 0x1_0000 == v / 0x100 / 0x100 && v / 0x100_0000 == v / 0x1_0000 / 0x100;
  }

  predicate SaysTime(t: Bytes, seconds: nat) {
    |t| == 4 && ((t[0] as int * 256 + t[1]) * 256 + t[2]) * 256 + t[3] == seconds
  }
}
