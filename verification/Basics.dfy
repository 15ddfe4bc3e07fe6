/** Types shared by the models of the wire formats and of the configuration. */
module Basics {
  datatype Option<+T> = None | Some(value: T)

  datatype Result<+T, +E> = Ok(value: T) | Err(error: E)

  type Byte = x: int | 0 <= x < 256
  type Bytes = seq<Byte>

  /** An IPv4 address as its big-endian 32-bit value. */
  type IPv4 = x: int | 0 <= x < 0x1_0000_0000

  type Uint32 = IPv4

  /** binary.BigEndian.Uint16. */
  function Uint16(a: Byte, b: Byte): nat { a * 256 + b }

  /** binary.BigEndian.PutUint32. */
  function BigEndian32(v: IPv4): Bytes {
    [v / 0x100_0000, v / 0x1_0000 % 0x100, v / 0x100 % 0x100, v % 0x100]
  }

  /** byte(n>>8), byte(n). */
  function BigEndian16(n: nat): Bytes { [n / 0x100 % 0x100, n % 0x100] }

  /** Reading one part after another: where it stands, and what is left. */
  lemma NextPart(b: Bytes, at: nat, v: Bytes, rest: Bytes)
    requires at <= |b| && b[at..] == v + rest
    ensures at + |v| <= |b| && b[at..at + |v|] == v && b[at + |v|..] == rest
  {
    assert |b| - at == |v| + |rest|;
    assert forall k :: 0 <= k < |v| ==> b[at + k] == b[at..][k] == v[k];
    assert forall k :: 0 <= k < |rest| ==> b[at + |v| + k] == b[at..][|v| + k] == rest[k];
  }

  /** The elements that satisfy `keep`, in order. */
  function Filter<T>(xs: seq<T>, keep: T -> bool): seq<T> {
    if xs == [] then [] else (if keep(xs[0]) then [xs[0]] else []) + Filter(xs[1..], keep)
  }

  lemma {:induction false} FilterSnoc<T>(xs: seq<T>, x: T, keep: T -> bool)
    ensures Filter(xs + [x], keep) == Filter(xs, keep) + if keep(x) then [x] else []
  {
    var all := xs + [x];
    if xs == [] {
      assert all == [x] && all[1..] == [];
    } else {
      assert all[0] == xs[0] && all[1..] == xs[1..] + [x];
      FilterSnoc(xs[1..], x, keep);
      var head := if keep(xs[0]) then [xs[0]] else [];
      assert Filter(all, keep) == head + Filter(all[1..], keep) && Filter(xs, keep) == head + Filter(xs[1..], keep);
    }
  }

  /** The first element that satisfies `keep`. */
  function FirstOf<T>(xs: seq<T>, keep: T -> bool): Option<T> {
    var ys := Filter(xs, keep);
    if ys == [] then None else Some(ys[0])
  }
}
