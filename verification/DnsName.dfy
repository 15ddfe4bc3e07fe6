/** DNS names on the wire: labels, compression pointers (section 4.1.4 of RFC 1035) and the
    encoding used in queries. Names are byte strings, labels joined by dots. */
module DnsName {
  import opened Basics

  const DOT: Byte := 46
  const MAX_JUMPS: nat := 20

  datatype Malformed =
    | OutOfBounds | TruncatedPointer | TooManyJumps | LabelOutOfBounds
    | TooShort | NoQuestion | TruncatedQuestion | HeaderOutOfBounds | DataOutOfBounds

  type Labels = seq<Bytes>

  /** strings.Join(labels, "."). */
  function Join(ls: Labels): Bytes {
    if ls == [] then [] else if |ls| == 1 then ls[0] else ls[0] + [DOT] + Join(ls[1..])
  }

  lemma SubSlice(s: Bytes, a: nat, b: nat, i: nat, j: nat)
    requires a <= b <= |s| && i <= j <= b - a
    ensures s[a..b][i..j] == s[a + i..a + j]
  {
    var x, y := s[a..b][i..j], s[a + i..a + j];
    assert |x| == |y|;
    assert forall k :: 0 <= k < |x| ==> x[k] == y[k];
  }

  // ----- decoding -----

  /** The top two bits of a length octet mark a pointer: length & 0xC0 == 0xC0. */
  predicate IsPointer(b: Byte) { 0xC0 <= b }

  /** (length & 0x3F) << 8 | next octet. */
  function Target(hi: Byte, lo: Byte): nat
    requires IsPointer(hi)
  {
    (hi - 0xC0) * 256 + lo
  }

  function Prepend(ls: Labels, r: Result<Labels, Malformed>): Result<Labels, Malformed> {
    match r
    case Ok(rest) => Ok(ls + rest)
    case Err(e) => Err(e)
  }

  /** The labels of the name at `pos`, following pointers; `jumps` have been followed already. */
  function Decode(msg: Bytes, pos: nat, jumps: nat): Result<Labels, Malformed>
    requires jumps <= MAX_JUMPS
    decreases MAX_JUMPS - jumps, |msg| - pos
  {
    if pos >= |msg| then Err(OutOfBounds)
    else if msg[pos] == 0 then Ok([])
    else if IsPointer(msg[pos]) then
      if pos + 1 >= |msg| then Err(TruncatedPointer)
      else if jumps == MAX_JUMPS then Err(TooManyJumps)
      else Decode(msg, Target(msg[pos], msg[pos + 1]), jumps + 1)
    else
      var end := pos + 1 + msg[pos];
      if end > |msg| then Err(LabelOutOfBounds)
      else Prepend([msg[pos + 1..end]], Decode(msg, end, jumps))
  }

  /** Where the name ends in the stream it stands in: after its first pointer, or its terminator. */
  function NameEnd(msg: Bytes, pos: nat): nat
    decreases |msg| - pos
  {
    if pos >= |msg| then pos
    else if msg[pos] == 0 then pos + 1
    else if IsPointer(msg[pos]) then pos + 2
    else if pos + 1 + msg[pos] > |msg| then pos
    else NameEnd(msg, pos + 1 + msg[pos])
  }

  /** A decoded name and the offset after it. */
  function NameAt(msg: Bytes, offset: nat): Result<(Bytes, nat), Malformed> {
    match Decode(msg, offset, 0)
    case Ok(ls) => Ok((Join(ls), NameEnd(msg, offset)))
    case Err(e) => Err(e)
  }

  lemma PrependNone(r: Result<Labels, Malformed>)
    ensures Prepend([], r) == r
  {
    if r.Ok? {
      assert [] + r.value == r.value;
    }
  }

  lemma PrependAppend(a: Labels, l: Bytes, r: Result<Labels, Malformed>)
    ensures Prepend(a, Prepend([l], r)) == Prepend(a + [l], r)
  {
    if r.Ok? {
      assert a + ([l] + r.value) == a + [l] + r.value;
    }
  }

  /** The decoding loop: terminates on every byte string and equals the recursive definition. */
  method ReadNameCompressed(msg: Bytes, offset: nat) returns (r: Result<(Bytes, nat), Malformed>)
    ensures r == NameAt(msg, offset)
  {
    var labels: Labels := [];
    var pos: nat := offset;
    var jumped := false;
    var jumps := 0;
    var next := 0;
    PrependNone(Decode(msg, offset, 0));
    while true
      invariant jumps <= MAX_JUMPS && (jumped <==> 0 < jumps)
      invariant Decode(msg, offset, 0) == Prepend(labels, Decode(msg, pos, jumps))
      invariant NameEnd(msg, offset) == if jumped then next else NameEnd(msg, pos)
      decreases MAX_JUMPS - jumps, |msg| - pos
    {
      if pos >= |msg| {
        return Err(OutOfBounds);
      }
      var length := msg[pos];
      if length == 0 {
        assert labels + [] == labels;
        pos := pos + 1;
        if !jumped {
          next := pos;
        }
        return Ok((Join(labels), next));
      }
      if IsPointer(length) {
        if pos + 1 >= |msg| {
          return Err(TruncatedPointer);
        }
        var ptr := Target(length, msg[pos + 1]);
        if !jumped {
          next := pos + 2;
        }
        jumps := jumps + 1;
        if jumps > MAX_JUMPS {
          return Err(TooManyJumps);
        }
        pos := ptr;
        jumped := true;
        continue;
      }
      pos := pos + 1;
      if pos + length > |msg| {
        return Err(LabelOutOfBounds);
      }
      PrependAppend(labels, msg[pos..pos + length], Decode(msg, pos + length, jumps));
      labels := labels + [msg[pos..pos + length]];
      pos := pos + length;
    }
  }

  // ----- what decoding guarantees -----

  /** Octets the labels took on the wire. */
  function Weight(ls: Labels): nat {
    if ls == [] then 0 else 1 + |ls[0]| + Weight(ls[1..])
  }

  lemma {:induction false} JoinShort(ls: Labels)
    ensures |Join(ls)| <= Weight(ls)
  {
    if 1 < |ls| {
      JoinShort(ls[1..]);
    }
  }

  function Times(k: nat, n: nat): nat { if k == 0 then 0 else n + Times(k - 1, n) }

  lemma {:induction false} TimesIs(k: nat, n: nat)
    ensures Times(k, n) == k * n
  {
    if 0 < k {
      TimesIs(k - 1, n);
      assert k * n == (k - 1) * n + n;
    }
  }

  lemma {:induction false} DecodeWeight(msg: Bytes, pos: nat, jumps: nat)
    requires jumps <= MAX_JUMPS && Decode(msg, pos, jumps).Ok?
    ensures pos <= |msg| && Weight(Decode(msg, pos, jumps).value) <= |msg| - pos + Times(MAX_JUMPS - jumps, |msg|)
    decreases MAX_JUMPS - jumps, |msg| - pos
  {
    if msg[pos] == 0 {
    } else if IsPointer(msg[pos]) {
      DecodeWeight(msg, Target(msg[pos], msg[pos + 1]), jumps + 1);
    } else {
      var end := pos + 1 + msg[pos];
      DecodeWeight(msg, end, jumps);
      var rest := Decode(msg, end, jumps).value;
      assert ([msg[pos + 1..end]] + rest)[1..] == rest;
    }
  }

  /** Twenty pointers cannot blow a name up beyond 21 times the message. */
  lemma NameIsBounded(msg: Bytes, offset: nat)
    requires NameAt(msg, offset).Ok?
    ensures |NameAt(msg, offset).value.0| <= 21 * |msg|
    ensures offset < NameAt(msg, offset).value.1 <= |msg|
  {
    DecodeWeight(msg, offset, 0);
    TimesIs(MAX_JUMPS, |msg|);
    JoinShort(Decode(msg, offset, 0).value);
    NameEndInside(msg, offset, 0);
  }

  lemma {:induction false} NameEndInside(msg: Bytes, pos: nat, jumps: nat)
    requires jumps <= MAX_JUMPS && Decode(msg, pos, jumps).Ok?
    ensures pos < NameEnd(msg, pos) <= |msg|
    decreases |msg| - pos
  {
    if msg[pos] != 0 && !IsPointer(msg[pos]) {
      NameEndInside(msg, pos + 1 + msg[pos], jumps);
    }
  }

  /** Where a name ends depends only on the octets up to its first pointer or its terminator. */
  lemma {:induction false} NameEndLocal(msg: Bytes, other: Bytes, pos: nat, jumps: nat)
    requires jumps <= MAX_JUMPS && Decode(msg, pos, jumps).Ok?
    requires pos < NameEnd(msg, pos) <= |msg| && NameEnd(msg, pos) <= |other|
    requires msg[pos..NameEnd(msg, pos)] == other[pos..NameEnd(msg, pos)]
    ensures NameEnd(other, pos) == NameEnd(msg, pos)
    decreases |msg| - pos
  {
    var end := NameEnd(msg, pos);
    assert msg[pos] == msg[pos..end][0] == other[pos..end][0] == other[pos];
    if msg[pos] != 0 && !IsPointer(msg[pos]) {
      var p := pos + 1 + msg[pos];
      NameEndInside(msg, p, jumps);
      assert msg[p..end] == msg[pos..end][p - pos..] == other[pos..end][p - pos..] == other[p..end];
      NameEndLocal(msg, other, p, jumps);
    }
  }

  // ----- the question section's reader, which knows no pointers -----

  function Plain(msg: Bytes, pos: nat): Result<Labels, Malformed>
    decreases |msg| - pos
  {
    if pos >= |msg| then Err(OutOfBounds)
    else if msg[pos] == 0 then Ok([])
    else
      var end := pos + 1 + msg[pos];
      if end > |msg| then Err(LabelOutOfBounds)
      else Prepend([msg[pos + 1..end]], Plain(msg, end))
  }

  function PlainEnd(msg: Bytes, pos: nat): nat
    decreases |msg| - pos
  {
    if pos >= |msg| then pos
    else if msg[pos] == 0 then pos + 1
    else if pos + 1 + msg[pos] > |msg| then pos
    else PlainEnd(msg, pos + 1 + msg[pos])
  }

  function PlainAt(msg: Bytes, offset: nat): Result<(Bytes, nat), Malformed> {
    match Plain(msg, offset)
    case Ok(ls) => Ok((Join(ls), PlainEnd(msg, offset)))
    case Err(e) => Err(e)
  }

  method ReadName(msg: Bytes, offset: nat) returns (r: Result<(Bytes, nat), Malformed>)
    ensures r == PlainAt(msg, offset)
  {
    var labels: Labels := [];
    var i: nat := offset;
    PrependNone(Plain(msg, offset));
    while true
      invariant Plain(msg, offset) == Prepend(labels, Plain(msg, i))
      invariant PlainEnd(msg, offset) == PlainEnd(msg, i)
      decreases |msg| - i
    {
      if i >= |msg| {
        return Err(OutOfBounds);
      }
      var length := msg[i];
      if length == 0 {
        assert labels + [] == labels;
        return Ok((Join(labels), i + 1));
      }
      i := i + 1;
      if i + length > |msg| {
        return Err(LabelOutOfBounds);
      }
      PrependAppend(labels, msg[i..i + length], Plain(msg, i + length));
      labels := labels + [msg[i..i + length]];
      i := i + length;
    }
  }

  /** The plain reader meets no length octet with both top bits set. */
  predicate NoPointer(msg: Bytes, pos: nat)
    decreases |msg| - pos
  {
    if pos >= |msg| || msg[pos] == 0 then true
    else !IsPointer(msg[pos]) && (pos + 1 + msg[pos] > |msg| || NoPointer(msg, pos + 1 + msg[pos]))
  }

  /** Without pointer octets the two readers agree, on errors too, however many jumps came before. */
  lemma {:induction false} ReadersAgree(msg: Bytes, pos: nat, jumps: nat)
    requires NoPointer(msg, pos) && jumps <= MAX_JUMPS
    ensures Decode(msg, pos, jumps) == Plain(msg, pos) && NameEnd(msg, pos) == PlainEnd(msg, pos)
    decreases |msg| - pos
  {
    if pos < |msg| && msg[pos] != 0 && pos + 1 + msg[pos] <= |msg| {
      ReadersAgree(msg, pos + 1 + msg[pos], jumps);
    }
  }

  /** A pointer-free name reads the same wherever its octets stand. */
  lemma {:induction false} PlainMoves(msg: Bytes, pos: nat, other: Bytes, at: nat)
    requires Plain(msg, pos).Ok? && NoPointer(msg, pos)
    requires pos < PlainEnd(msg, pos) <= |msg| && at + (PlainEnd(msg, pos) - pos) <= |other|
    requires other[at..at + (PlainEnd(msg, pos) - pos)] == msg[pos..PlainEnd(msg, pos)]
    ensures Plain(other, at) == Plain(msg, pos) && NoPointer(other, at)
    ensures PlainEnd(other, at) == at + (PlainEnd(msg, pos) - pos)
    decreases |msg| - pos
  {
    var end := PlainEnd(msg, pos);
    var name := msg[pos..end];
    assert msg[pos] == name[0] == other[at];
    if msg[pos] != 0 {
      var n := 1 + msg[pos] as int;
      PlainEndInside(msg, pos + n);
      var len := end - pos;
      SubSlice(msg, pos, end, n, len);
      SubSlice(other, at, at + len, n, len);
      SubSlice(msg, pos, end, 1, n);
      SubSlice(other, at, at + len, 1, n);
      PlainMoves(msg, pos + n, other, at + n);
    }
  }

  lemma {:induction false} PlainEndInside(msg: Bytes, pos: nat)
    requires Plain(msg, pos).Ok?
    ensures pos < PlainEnd(msg, pos) <= |msg|
    decreases |msg| - pos
  {
    if msg[pos] != 0 {
      PlainEndInside(msg, pos + 1 + msg[pos]);
    }
  }

  // ----- encoding -----

  /** strings.Split(s, "."). */
  function Split(s: Bytes): (ls: Labels)
    ensures ls != []
  {
    if s == [] then [[]]
    else if s[0] == DOT then [[]] + Split(s[1..])
    else var rest := Split(s[1..]); [[s[0]] + rest[0]] + rest[1..]
  }

  /** strings.TrimSuffix(s, "."). */
  function TrimDot(s: Bytes): Bytes {
    if s != [] && s[|s| - 1] == DOT then s[..|s| - 1] else s
  }

  function NonEmpty(ls: Labels): Labels {
    if ls == [] then [] else (if ls[0] == [] then [] else [ls[0]]) + NonEmpty(ls[1..])
  }

  lemma {:induction false} NonEmptySnoc(ls: Labels, i: nat)
    requires i < |ls|
    ensures NonEmpty(ls[..i + 1]) == NonEmpty(ls[..i]) + if ls[i] == [] then [] else [ls[i]]
  {
    if 0 < i {
      NonEmptySnoc(ls[1..], i - 1);
      assert ls[..i + 1][1..] == ls[1..][..i] && ls[..i][1..] == ls[1..][..i - 1];
    }
  }

  /** Length octets (cut to 8 bits, as byte(len) does) and labels, without the root label. */
  function Wire(ls: Labels): Bytes {
    if ls == [] then [] else [|ls[0]| % 256] + ls[0] + Wire(ls[1..])
  }

  /** Labels whose length octet is read back as a length. */
  predicate Encodable(ls: Labels) {
    forall l :: l in ls ==> 0 < |l| < 0xC0
  }

  lemma {:induction false} WireAppend(a: Labels, l: Bytes)
    ensures Wire(a + [l]) == Wire(a) + ([|l| % 256] + l)
  {
    if a == [] {
      assert a + [l] == [l] && Wire([l]) == [|l| % 256] + l + Wire([l][1..]);
    } else {
      assert (a + [l])[1..] == a[1..] + [l];
      WireAppend(a[1..], l);
    }
  }

  /** The octets at `pos` are these labels and a root label. */
  predicate WireAt(msg: Bytes, pos: nat, ls: Labels)
    decreases |ls|
  {
    if ls == [] then pos < |msg| && msg[pos] == 0
    else
      && pos + 1 + |ls[0]| <= |msg|
      && msg[pos] == |ls[0]| && msg[pos + 1..pos + 1 + |ls[0]|] == ls[0]
      && WireAt(msg, pos + 1 + |ls[0]|, ls[1..])
  }

  lemma {:induction false} WireDecodes(msg: Bytes, pos: nat, ls: Labels)
    requires Encodable(ls) && WireAt(msg, pos, ls)
    ensures Plain(msg, pos) == Ok(ls) && NoPointer(msg, pos) && PlainEnd(msg, pos) == pos + |Wire(ls)| + 1
    decreases |ls|
  {
    if ls != [] {
      assert ls[0] in ls;
      WireDecodes(msg, pos + 1 + |ls[0]|, ls[1..]);
      assert [ls[0]] + ls[1..] == ls;
    }
  }

  lemma Parts(n: Byte, l: Bytes, tail: Bytes)
    ensures var w := [n] + l + tail + [0];
      w[0] == n && w[1..1 + |l|] == l && w[1 + |l|..] == tail + [0]
  {
  }

  lemma PartsAt(msg: Bytes, pos: nat, n: Byte, l: Bytes, tail: Bytes)
    requires pos + |l| + |tail| + 2 <= |msg|
    requires msg[pos..pos + |l| + |tail| + 2] == [n] + l + tail + [0]
    ensures msg[pos] == n && msg[pos + 1..pos + 1 + |l|] == l
    ensures msg[pos + 1 + |l|..pos + 1 + |l| + |tail| + 1] == tail + [0]
  {
    var w := [n] + l + tail + [0];
    Parts(n, l, tail);
    assert msg[pos..pos + |w|][0] == msg[pos];
    SubSlice(msg, pos, pos + |w|, 1, 1 + |l|);
    SubSlice(msg, pos, pos + |w|, 1 + |l|, |w|);
  }

  lemma {:induction false} WireStands(msg: Bytes, pos: nat, ls: Labels)
    requires Encodable(ls) && pos + |Wire(ls)| + 1 <= |msg|
    requires msg[pos..pos + |Wire(ls)| + 1] == Wire(ls) + [0]
    ensures WireAt(msg, pos, ls)
    decreases |ls|
  {
    if ls == [] {
      assert msg[pos..pos + 1][0] == msg[pos];
    } else {
      assert ls[0] in ls;
      assert Wire(ls) + [0] == [|ls[0]|] + ls[0] + Wire(ls[1..]) + [0];
      PartsAt(msg, pos, |ls[0]|, ls[0], Wire(ls[1..]));
      WireStands(msg, pos + 1 + |ls[0]|, ls[1..]);
      WireCons(msg, pos, ls);
    }
  }

  lemma WireCons(msg: Bytes, pos: nat, ls: Labels)
    requires ls != [] && pos + 1 + |ls[0]| <= |msg| && |ls[0]| < 0xC0
    requires msg[pos] == |ls[0]| && msg[pos + 1..pos + 1 + |ls[0]|] == ls[0]
    requires WireAt(msg, pos + 1 + |ls[0]|, ls[1..])
    ensures WireAt(msg, pos, ls)
  {
  }

  /** Encoded labels and a root label decode to those labels, wherever they stand. */
  lemma DecodeWire(msg: Bytes, pos: nat, ls: Labels)
    requires Encodable(ls) && pos + |Wire(ls)| + 1 <= |msg|
    requires msg[pos..pos + |Wire(ls)| + 1] == Wire(ls) + [0]
    ensures Plain(msg, pos) == Ok(ls) && NoPointer(msg, pos) && PlainEnd(msg, pos) == pos + |Wire(ls)| + 1
    ensures Decode(msg, pos, 0) == Ok(ls) && NameEnd(msg, pos) == pos + |Wire(ls)| + 1
  {
    WireStands(msg, pos, ls);
    WireDecodes(msg, pos, ls);
    ReadersAgree(msg, pos, 0);
  }

  // ----- compression -----

  lemma LabelHead(msg: Bytes, pos: nat, l: Bytes, tail: Bytes)
    requires pos + 1 + |l| + |tail| <= |msg| && |l| < 256
    requires msg[pos..pos + 1 + |l| + |tail|] == [|l| as Byte] + l + tail
    ensures msg[pos] == |l| && msg[pos + 1..pos + 1 + |l|] == l
    ensures msg[pos + 1 + |l|..pos + 1 + |l| + |tail|] == tail
  {
    var w := [|l| as Byte] + l + tail;
    assert msg[pos..pos + |w|][0] == msg[pos];
    SubSlice(msg, pos, pos + |w|, 1, 1 + |l|);
    SubSlice(msg, pos, pos + |w|, 1 + |l|, |w|);
    assert w[1..1 + |l|] == l && w[1 + |l|..] == tail;
  }

  lemma PrependCons(ls: Labels, r: Result<Labels, Malformed>)
    requires ls != []
    ensures Prepend([ls[0]], Prepend(ls[1..], r)) == Prepend(ls, r)
  {
    if r.Ok? {
      assert [ls[0]] + (ls[1..] + r.value) == ls + r.value;
    }
  }

  /** One label is read, and reading goes on behind it. */
  lemma OneLabel(msg: Bytes, pos: nat, l: Bytes, jumps: nat)
    requires jumps <= MAX_JUMPS && 0 < |l| < 0xC0 && pos + 1 + |l| <= |msg|
    requires msg[pos] == |l| && msg[pos + 1..pos + 1 + |l|] == l
    ensures Decode(msg, pos, jumps) == Prepend([l], Decode(msg, pos + 1 + |l|, jumps))
    ensures NameEnd(msg, pos) == NameEnd(msg, pos + 1 + |l|)
  {
  }

  /** The octets from `pos` to `end` are these labels. */
  predicate LabelsAt(msg: Bytes, pos: nat, ls: Labels, end: nat)
    decreases |ls|
  {
    if ls == [] then pos == end
    else
      && pos + 1 + |ls[0]| <= |msg| && 0 < |ls[0]| < 0xC0
      && msg[pos] == |ls[0]| && msg[pos + 1..pos + 1 + |ls[0]|] == ls[0]
      && LabelsAt(msg, pos + 1 + |ls[0]|, ls[1..], end)
  }

  lemma {:induction false} LabelsStand(msg: Bytes, pos: nat, ls: Labels)
    requires Encodable(ls) && pos + |Wire(ls)| <= |msg| && msg[pos..pos + |Wire(ls)|] == Wire(ls)
    ensures LabelsAt(msg, pos, ls, pos + |Wire(ls)|)
    decreases |ls|
  {
    if ls != [] {
      assert ls[0] in ls;
      LabelHead(msg, pos, ls[0], Wire(ls[1..]));
      LabelsStand(msg, pos + 1 + |ls[0]|, ls[1..]);
    }
  }

  lemma {:induction false} LabelsRead(msg: Bytes, pos: nat, ls: Labels, end: nat, jumps: nat)
    requires jumps <= MAX_JUMPS && LabelsAt(msg, pos, ls, end)
    ensures Decode(msg, pos, jumps) == Prepend(ls, Decode(msg, end, jumps)) && NameEnd(msg, pos) == NameEnd(msg, end)
    decreases |ls|
  {
    if ls == [] {
      PrependNone(Decode(msg, pos, jumps));
    } else {
      OneLabel(msg, pos, ls[0], jumps);
      LabelsRead(msg, pos + 1 + |ls[0]|, ls[1..], end, jumps);
      PrependCons(ls, Decode(msg, end, jumps));
    }
  }

  /** Encoded labels are read, and reading goes on behind them. */
  lemma LabelsThen(msg: Bytes, pos: nat, ls: Labels, jumps: nat)
    requires jumps <= MAX_JUMPS && Encodable(ls) && pos + |Wire(ls)| <= |msg|
    requires msg[pos..pos + |Wire(ls)|] == Wire(ls)
    ensures Decode(msg, pos, jumps) == Prepend(ls, Decode(msg, pos + |Wire(ls)|, jumps))
    ensures NameEnd(msg, pos) == NameEnd(msg, pos + |Wire(ls)|)
  {
    LabelsStand(msg, pos, ls);
    LabelsRead(msg, pos, ls, pos + |Wire(ls)|, jumps);
  }

  /** Labels followed by a pointer are those labels followed by the name the pointer's 14 bits address, and the
      next item stands right behind the pointer. */
  lemma CompressedReads(msg: Bytes, pos: nat, ls: Labels, target: nat, jumps: nat)
    requires jumps < MAX_JUMPS && Encodable(ls) && target < 0x4000 && pos + |Wire(ls)| + 2 <= |msg|
    requires msg[pos..pos + |Wire(ls)|] == Wire(ls)
    requires msg[pos + |Wire(ls)|] == 0xC0 + target / 256 && msg[pos + |Wire(ls)| + 1] == target % 256
    ensures Decode(msg, pos, jumps) == Prepend(ls, Decode(msg, target, jumps + 1))
    ensures NameEnd(msg, pos) == pos + |Wire(ls)| + 2
  {
    LabelsThen(msg, pos, ls, jumps);
  }

  /** The name at `pos` goes through at least so many whole pointers. */
  predicate Chases(msg: Bytes, pos: nat, pointers: nat)
    decreases pointers, |msg| - pos
  {
    if pointers == 0 then true
    else if pos >= |msg| || msg[pos] == 0 then false
    else if IsPointer(msg[pos]) then pos + 1 < |msg| && Chases(msg, Target(msg[pos], msg[pos + 1]), pointers - 1)
    else pos + 1 + msg[pos] <= |msg| && Chases(msg, pos + 1 + msg[pos], pointers)
  }

  lemma {:induction false} ChasesFrom(msg: Bytes, pos: nat, jumps: nat)
    requires jumps <= 20
    ensures Decode(msg, pos, jumps) == Err(TooManyJumps) <==> Chases(msg, pos, 21 - jumps)
    decreases 20 - jumps, |msg| - pos
  {
    if pos < |msg| && msg[pos] != 0 {
      if IsPointer(msg[pos]) {
        if pos + 1 < |msg| && jumps < 20 {
          ChasesFrom(msg, Target(msg[pos], msg[pos + 1]), jumps + 1);
        }
      } else if pos + 1 + msg[pos] <= |msg| {
        ChasesFrom(msg, pos + 1 + msg[pos], jumps);
      }
    }
  }

  /** A name is refused for its pointers exactly when it goes through more than twenty. */
  lemma JumpsAreLimited(msg: Bytes, offset: nat)
    ensures NameAt(msg, offset) == Err(TooManyJumps) <==> Chases(msg, offset, 21)
  {
    ChasesFrom(msg, offset, 0);
  }

  // ----- names as text -----

  predicate DotFree(l: Bytes) { DOT !in l }

  lemma {:induction false} SplitFree(l: Bytes, rest: Bytes)
    requires DotFree(l)
    ensures Split(l) == [l] && Split(l + [DOT] + rest) == [l] + Split(rest)
  {
    if l == [] {
      assert l + [DOT] + rest == [DOT] + rest;
    } else {
      var s := l + [DOT] + rest;
      assert l == [l[0]] + l[1..] && s[1..] == l[1..] + [DOT] + rest;
      SplitFree(l[1..], rest);
    }
  }

  /** Splitting a joined name gives its labels back. */
  lemma {:induction false} SplitJoin(ls: Labels)
    requires ls != [] && forall l :: l in ls ==> DotFree(l)
    ensures Split(Join(ls)) == ls
  {
    assert ls[0] in ls;
    SplitFree(ls[0], if |ls| == 1 then [] else Join(ls[1..]));
    if 1 < |ls| {
      SplitJoin(ls[1..]);
      assert ls == [ls[0]] + ls[1..];
    }
  }

  lemma {:induction false} NonEmptyAll(ls: Labels)
    requires forall l :: l in ls ==> l != []
    ensures NonEmpty(ls) == ls
  {
    if ls != [] {
      assert ls[0] in ls;
      assert forall l :: l in ls[1..] ==> l in ls;
      NonEmptyAll(ls[1..]);
      assert ls == [ls[0]] + ls[1..];
    }
  }

  lemma {:induction false} JoinEndsInLabel(ls: Labels)
    requires ls != [] && forall l :: l in ls ==> DotFree(l) && l != []
    ensures Join(ls) != [] && Join(ls)[|Join(ls)| - 1] != DOT
  {
    assert ls[0] in ls;
    if 1 < |ls| {
      JoinEndsInLabel(ls[1..]);
    } else {
      assert ls[0][|ls[0]| - 1] in ls[0];
    }
  }

  /** A proper name, with or without its trailing dot, is cut into its own labels. */
  lemma ProperName(ls: Labels)
    requires ls != [] && forall l :: l in ls ==> DotFree(l) && l != []
    ensures NonEmpty(Split(TrimDot(Join(ls)))) == ls && NonEmpty(Split(TrimDot(Join(ls) + [DOT]))) == ls
  {
    JoinEndsInLabel(ls);
    assert (Join(ls) + [DOT])[..|Join(ls)|] == Join(ls);
    SplitJoin(ls);
    NonEmptyAll(ls);
  }
}
