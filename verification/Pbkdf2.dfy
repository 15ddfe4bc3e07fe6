/** PBKDF2 (section 5.2 of RFC 8018) over an arbitrary pseudorandom function with 32-byte output. */
module Pbkdf2 {
  type Bytes = seq<bv8>

  const HASH_LEN: nat := 32
  const MAX_BLOCKS: nat := 0xFFFF_FFFF

  ghost predicate IsPrf(prf: (Bytes, Bytes) -> Bytes) {
    forall key, msg :: |prf(key, msg)| == HASH_LEN
  }

  // ----- section 5.2 of RFC 8018 -----

  /** INT(i): four octets, most significant first. */
  function Int(i: nat): (b: Bytes)
    requires i <= MAX_BLOCKS
  {
    [(i / 0x100_0000) as bv8, (i / 0x1_0000 % 0x100) as bv8, (i / 0x100 % 0x100) as bv8, (i % 0x100) as bv8]
  }

  /** U_j of block i: U_1 = PRF(P, S || INT(i)), U_j = PRF(P, U_{j-1}). */
  function U(prf: (Bytes, Bytes) -> Bytes, p: Bytes, s: Bytes, i: nat, j: nat): Bytes
    requires i <= MAX_BLOCKS && 1 <= j
  {
    if j == 1 then prf(p, s + Int(i)) else prf(p, U(prf, p, s, i, j - 1))
  }

  function Xor(a: Bytes, b: Bytes): Bytes
    requires |a| == |b|
  {
    seq(|a|, k requires 0 <= k < |a| => a[k] ^ b[k])
  }

  /** F(P, S, c, i) = U_1 xor U_2 xor ... xor U_c. */
  function F(prf: (Bytes, Bytes) -> Bytes, p: Bytes, s: Bytes, c: nat, i: nat): (t: Bytes)
    requires IsPrf(prf) && i <= MAX_BLOCKS && 1 <= c
    ensures |t| == HASH_LEN
  {
    if c == 1 then U(prf, p, s, i, 1) else Xor(F(prf, p, s, c - 1, i), U(prf, p, s, i, c))
  }

  /** T_1 || T_2 || ... || T_n. */
  function Blocks(prf: (Bytes, Bytes) -> Bytes, p: Bytes, s: Bytes, c: nat, n: nat): (dk: Bytes)
    requires IsPrf(prf) && n <= MAX_BLOCKS && 1 <= c
    ensures |dk| == n * HASH_LEN
  {
    if n == 0 then [] else Blocks(prf, p, s, c, n - 1) + F(prf, p, s, c, n)
  }

  lemma BlocksStep(prf: (Bytes, Bytes) -> Bytes, p: Bytes, s: Bytes, c: nat, n: nat)
    requires IsPrf(prf) && 1 <= n <= MAX_BLOCKS && 1 <= c
    ensures Blocks(prf, p, s, c, n) == Blocks(prf, p, s, c, n - 1) + F(prf, p, s, c, n)
  {
  }

  function BlockCount(keyLen: nat): nat { (keyLen + HASH_LEN - 1) / HASH_LEN }

  /** The derived key: the blocks, cut to dkLen octets. */
  function Derive(prf: (Bytes, Bytes) -> Bytes, p: Bytes, s: Bytes, c: nat, keyLen: nat): Bytes
    requires IsPrf(prf) && BlockCount(keyLen) <= MAX_BLOCKS && 1 <= c
  {
    Blocks(prf, p, s, c, BlockCount(keyLen))[..keyLen]
  }

  // ----- the code -----

  /** uint32(block): the conversion keeps the low 32 bits. */
  function Uint32(block: nat): (i: nat)
    ensures i <= MAX_BLOCKS
  {
    if block <= MAX_BLOCKS then block else block % (MAX_BLOCKS + 1)
  }

  /** Go's loop runs for i := 1; i < iterations, so fewer than one iteration means one. */
  function Rounds(iterations: int): (c: nat)
    ensures c == 1 || c == iterations
    ensures 1 <= iterations <= c || (iterations < 1 && c == 1)
  {
    if iterations < 1 then 1 else iterations
  }

  /** The innermost loop: t[j] ^= u[j] for every j. */
  method XorInto(t: array<bv8>, u: Bytes)
    requires t.Length == |u|
    modifies t
    ensures t[..] == Xor(old(t[..]), u)
  {
    for j := 0 to t.Length
      invariant forall k :: 0 <= k < j ==> t[k] == old(t[k]) ^ u[k]
      invariant forall k :: j <= k < t.Length ==> t[k] == old(t[k])
    {
      t[j] := t[j] ^ u[j];
    }
  }

  /** The middle loop: one block, accumulated in place. */
  method DeriveBlock(prf: (Bytes, Bytes) -> Bytes, password: Bytes, salt: Bytes, iterations: int, block: nat) returns (t: array<bv8>)
    requires IsPrf(prf)
    ensures fresh(t) && t[..] == F(prf, password, salt, Rounds(iterations), Uint32(block))
  {
    ghost var i := Uint32(block);
    var u := prf(password, salt + Int(Uint32(block)));
    t := new bv8[HASH_LEN](k requires 0 <= k < HASH_LEN => u[k]);
    assert t[..] == u;
    var round := 1;
    while round < iterations
      invariant fresh(t) && t.Length == HASH_LEN
      invariant 1 <= round <= Rounds(iterations)
      invariant u == U(prf, password, salt, i, round)
      invariant t[..] == F(prf, password, salt, round, i)
    {
      u := prf(password, u);
      XorInto(t, u);
      round := round + 1;
    }
  }

  /** The outer loop appends one block after another and cuts the result to keyLen. */
  method DeriveKey(prf: (Bytes, Bytes) -> Bytes, password: Bytes, salt: Bytes, iterations: int, keyLen: nat) returns (dk: Bytes)
    requires IsPrf(prf)
    ensures |dk| == keyLen
    ensures BlockCount(keyLen) <= MAX_BLOCKS ==> dk == Derive(prf, password, salt, Rounds(iterations), keyLen)
  {
    var numBlocks := (keyLen + HASH_LEN - 1) / HASH_LEN;
    ghost var c := Rounds(iterations);
    dk := [];
    for block := 1 to numBlocks + 1
      invariant |dk| == (block - 1) * HASH_LEN
      invariant block - 1 <= MAX_BLOCKS ==> dk == Blocks(prf, password, salt, c, block - 1)
    {
      var t := DeriveBlock(prf, password, salt, iterations, block);
      if block <= MAX_BLOCKS {
        BlocksStep(prf, password, salt, c, block);
      }
      dk := dk + t[..];
    }
    dk := dk[..keyLen];
  }

  // ----- what it means for the key -----

  lemma {:induction false} BlocksPrefix(prf: (Bytes, Bytes) -> Bytes, p: Bytes, s: Bytes, c: nat, m: nat, n: nat)
    requires IsPrf(prf) && m <= n <= MAX_BLOCKS && 1 <= c
    ensures Blocks(prf, p, s, c, m) <= Blocks(prf, p, s, c, n)
  {
    if m < n {
      BlocksPrefix(prf, p, s, c, m, n - 1);
    }
  }

  /** A shorter key is always a prefix of a longer one. */
  lemma ShorterIsPrefix(prf: (Bytes, Bytes) -> Bytes, p: Bytes, s: Bytes, c: nat, short: nat, long: nat)
    requires IsPrf(prf) && BlockCount(long) <= MAX_BLOCKS && 1 <= c && short <= long
    ensures BlockCount(short) <= BlockCount(long)
    ensures Derive(prf, p, s, c, short) == Derive(prf, p, s, c, long)[..short]
  {
    BlocksPrefix(prf, p, s, c, BlockCount(short), BlockCount(long));
  }

  /** The XOR of octet b of U_1, ..., U_c of block i. */
  function XorOctet(prf: (Bytes, Bytes) -> Bytes, p: Bytes, s: Bytes, c: nat, i: nat, b: nat): bv8
    requires IsPrf(prf) && i <= MAX_BLOCKS && 1 <= c && b < HASH_LEN
  {
    var last := U(prf, p, s, i, c);
    assert |last| == HASH_LEN;
    if c == 1 then last[b] else XorOctet(prf, p, s, c - 1, i, b) ^ last[b]
  }

  lemma {:induction false} FOctet(prf: (Bytes, Bytes) -> Bytes, p: Bytes, s: Bytes, c: nat, i: nat, b: nat)
    requires IsPrf(prf) && i <= MAX_BLOCKS && 1 <= c && b < HASH_LEN
    ensures F(prf, p, s, c, i)[b] == XorOctet(prf, p, s, c, i, b)
  {
    if 1 < c {
      FOctet(prf, p, s, c - 1, i, b);
    }
  }

  /** Octet k of the key depends only on block k/32 + 1 and position k%32: every block is
      independent of the key length and of the other blocks. */
  lemma KeyOctet(prf: (Bytes, Bytes) -> Bytes, p: Bytes, s: Bytes, c: nat, keyLen: nat, k: nat)
    requires IsPrf(prf) && BlockCount(keyLen) <= MAX_BLOCKS && 1 <= c && k < keyLen
    ensures k / HASH_LEN + 1 <= MAX_BLOCKS && |Derive(prf, p, s, c, keyLen)| == keyLen
    ensures Derive(prf, p, s, c, keyLen)[k] == XorOctet(prf, p, s, c, k / HASH_LEN + 1, k % HASH_LEN)
  {
    var i := k / HASH_LEN + 1;
    BlocksPrefix(prf, p, s, c, i, BlockCount(keyLen));
    FOctet(prf, p, s, c, i, k % HASH_LEN);
  }

  /** The block number is written in four octets, most significant first. */
  lemma IntIsBigEndian(a: nat, b: nat, c: nat, d: nat)
    requires a < 256 && b < 256 && c < 256 && d < 256
    ensures ((a * 256 + b) * 256 + c) * 256 + d <= MAX_BLOCKS
    ensures Int(((a * 256 + b) * 256 + c) * 256 + d) == [a as bv8, b as bv8, c as bv8, d as bv8]
  {
    Digits(a, b, c, d);
  }

  lemma Digits(a: nat, b: nat, c: nat, d: nat)
    requires a < 256 && b < 256 && c < 256 && d < 256
    ensures var i := ((a * 256 + b) * 256 + c) * 256 + d;
      i / 0x100_0000 == a && i / 0x1_0000 % 0x100 == b && i / 0x100 % 0x100 == c && i % 0x100 == d
  {
  }

  /** The smallest cases, written out: one iteration for two blocks ... */
  lemma TwoBlocks(prf: (Bytes, Bytes) -> Bytes, p: Bytes, s: Bytes)
    requires IsPrf(prf)
    ensures Derive(prf, p, s, 1, 64) == prf(p, s + [0, 0, 0, 1]) + prf(p, s + [0, 0, 0, 2])
  {
    assert Int(1) == [0, 0, 0, 1] && Int(2) == [0, 0, 0, 2];
    assert F(prf, p, s, 1, 1) == prf(p, s + [0, 0, 0, 1]) && F(prf, p, s, 1, 2) == prf(p, s + [0, 0, 0, 2]);
    BlocksStep(prf, p, s, 1, 1);
    BlocksStep(prf, p, s, 1, 2);
    assert Blocks(prf, p, s, 1, 1) == F(prf, p, s, 1, 1);
  }

  /** ... and two iterations for one block, octet by octet. */
  lemma TwoRounds(prf: (Bytes, Bytes) -> Bytes, p: Bytes, s: Bytes, u1: Bytes, u2: Bytes, k: nat)
    requires IsPrf(prf) && k < 32 && u1 == prf(p, s + [0, 0, 0, 1]) && u2 == prf(p, u1)
    ensures |u1| == |u2| == |Derive(prf, p, s, 2, 32)| == 32
    ensures Derive(prf, p, s, 2, 32)[k] == u1[k] ^ u2[k]
  {
    assert Int(1) == [0, 0, 0, 1];
    assert U(prf, p, s, 1, 1) == u1;
    assert U(prf, p, s, 1, 2) == u2;
    assert XorOctet(prf, p, s, 1, 1, k) == u1[k];
    KeyOctet(prf, p, s, 2, 32, k);
  }
}
