/** Key derivation (cli/crypto/pbkdf2.go) against section 5.2 of RFC 8018. HMAC-SHA-256 is a parameter. */
module Pbkdf2 {
  import opened Arithmetic

  type Byte = x: int | 0 <= x < 256

  type Bytes = seq<Byte>

  type Prf = (Bytes, Bytes) -> Bytes

  const HLEN := 32
  const TWO32: int := 0x1_0000_0000

  ghost predicate IsPrf(prf: Prf) { forall key, data :: |prf(key, data)| == 32 }

  function Xor(a: Byte, b: Byte): Byte { ((a as bv8) ^ (b as bv8)) as int }

  function XorAll(a: Bytes, b: Bytes): (r: Bytes)
    requires |a| == |b|
    ensures |r| == |a| && forall i :: 0 <= i < |r| ==> r[i] == Xor(a[i], b[i])
  {
    seq(|a|, i requires 0 <= i < |a| => Xor(a[i], b[i]))
  }

  // ----- section 5.2 of RFC 8018 -----

  /** The number that octets stand for, the most significant first. */
  function Value(octets: Bytes): nat {
    if octets == [] then 0 else 256 * Value(octets[..|octets| - 1]) + octets[|octets| - 1]
  }

  /** INT (i): four octets, the most significant first. */
  ghost predicate IsInt(octets: Bytes, i: nat) { |octets| == 4 && Value(octets) == i }

  /** U_j for the block whose number is encoded as n. */
  function U(prf: Prf, p: Bytes, s: Bytes, n: Bytes, j: nat): Bytes
    requires j >= 1
  {
    if j == 1 then prf(p, s + n) else prf(p, U(prf, p, s, n, j - 1))
  }

  /** U_1 xor ... xor U_c */
  ghost function F(prf: Prf, p: Bytes, s: Bytes, n: Bytes, c: nat): (t: Bytes)
    requires IsPrf(prf) && c >= 1
    ensures |t| == HLEN
  {
    if c == 1 then U(prf, p, s, n, 1) else XorAll(F(prf, p, s, n, c - 1), U(prf, p, s, n, c))
  }

  /** T_i */
  ghost predicate IsBlock(prf: Prf, p: Bytes, s: Bytes, c: nat, i: nat, t: Bytes)
    requires IsPrf(prf) && c >= 1
  {
    exists n: Bytes :: IsInt(n, i) && t == F(prf, p, s, n, c)
  }

  /** Blocks numbered from 1, as the standard asks for. */
  ghost predicate AreBlocks(prf: Prf, p: Bytes, s: Bytes, c: nat, blocks: seq<Bytes>)
    requires IsPrf(prf) && c >= 1
  {
    forall k :: 0 <= k < |blocks| ==> IsBlock(prf, p, s, c, k + 1, blocks[k])
  }

  function Concat(blocks: seq<Bytes>): Bytes {
    if blocks == [] then [] else Concat(blocks[..|blocks| - 1]) + blocks[|blocks| - 1]
  }

  /** T_1 || ... || T_l<0..r-1> with l = CEIL (dkLen / hLen) and r = dkLen - (l - 1) * hLen */
  predicate IsCut(blocks: seq<Bytes>, dkLen: nat, dk: Bytes) {
    && blocks != [] && (|blocks| - 1) * HLEN < dkLen <= |blocks| * HLEN
    && var l, r := |blocks|, dkLen - (|blocks| - 1) * HLEN;
       |blocks[l - 1]| == HLEN && dk == Concat(blocks[..l - 1]) + blocks[l - 1][..r]
  }

  ghost predicate IsDerivedKey(prf: Prf, p: Bytes, s: Bytes, c: nat, dkLen: nat, dk: Bytes)
    requires IsPrf(prf) && c >= 1
  {
    if dkLen == 0 then dk == [] else exists blocks: seq<Bytes> :: AreBlocks(prf, p, s, c, blocks) && IsCut(blocks, dkLen, dk)
  }

  /** The standard's limit on the length of a key. */
  predicate WithinLimit(dkLen: nat) { dkLen <= (TWO32 - 1) * HLEN }

  // ----- the code -----

  /** binary.BigEndian.PutUint32 of uint32(i) */
  function PutUint32(i: nat): Bytes {
    var n := i % TWO32;
    [n / 0x100_0000, n / 0x1_0000 % 256, n / 256 % 256, n % 256]
  }

  lemma DivTwice(i: nat, m: nat, k: nat)
    requires m > 0 && k > 0
    ensures i / (m * k) == i / m / k
  {
    var q, r := i / m, i % m;
    var p, t := q / k, q % k;
    assert i == q * m + r && q == p * k + t;
    assert i == p * (m * k) + (t * m + r) by {
      assert q * m == p * k * m + t * m;
      assert p * k * m == p * (m * k);
    }
    assert t * m + r < m * k by {
      assert t * m <= (k - 1) * m;
      assert (k - 1) * m + m == m * k;
    }
    assert 0 <= t * m;
    ModIs(p, t * m + r, m * k);
  }

  lemma PutUint32IsInt(i: nat)
    requires i < TWO32
    ensures IsInt(PutUint32(i), i)
  {
    var x, y := i / 256, i / 256 / 256;
    DivTwice(i, 256, 256);
    DivTwice(i, 0x1_0000, 256);
    assert i / 0x1_0000 == y && i / 0x100_0000 == y / 256;
    assert i % TWO32 == i;
    PutUint32Value(y / 256, y % 256, x % 256, i % 256);
    assert 256 * (y / 256) + y % 256 == y && 256 * y + x % 256 == x && 256 * x + i % 256 == i;
  }

  lemma PutUint32Value(a: Byte, b: Byte, c: Byte, d: Byte)
    ensures Value([a, b, c, d]) == 256 * (256 * (256 * a as int + b as int) + c as int) + d as int
  {
    var o := [a, b, c, d];
    var n0: int, n1: int, n2: int, n3: int := o[0], o[1], o[2], o[3];
    assert o[..3][..2] == o[..2] && o[..2][..1] == o[..1] && o[..1][..0] == [];
    assert Value(o[..1]) == n0;
    assert Value(o[..2]) == 256 * n0 + n1;
    assert Value(o[..3]) == 256 * (256 * n0 + n1) + n2;
    assert Value(o) == 256 * (256 * (256 * n0 + n1) + n2) + n3;
  }

  lemma {:induction false} IntIsUnique(a: Bytes, b: Bytes)
    requires |a| == |b| && Value(a) == Value(b)
    ensures a == b
  {
    if a != [] {
      var n := |a| - 1;
      var x, y := Value(a[..n]), Value(b[..n]);
      assert 256 * x + a[n] == 256 * y + b[n];
      IntIsUnique(a[..n], b[..n]);
      assert a == a[..n] + [a[n]] && b == b[..n] + [b[n]];
    }
  }

  /** What the code makes of block number i. */
  ghost function T(prf: Prf, p: Bytes, s: Bytes, c: nat, i: nat): Bytes
    requires IsPrf(prf) && c >= 1
  {
    F(prf, p, s, PutUint32(i), c)
  }

  ghost function Blocks(prf: Prf, p: Bytes, s: Bytes, c: nat, l: nat): (r: Bytes)
    requires IsPrf(prf) && c >= 1
    ensures |r| == l * HLEN
  {
    if l == 0 then [] else Blocks(prf, p, s, c, l - 1) + T(prf, p, s, c, l)
  }

  /** As the code behaves, fewer than one iteration is one iteration. */
  function Rounds(iterations: int): (c: nat)
    ensures c >= 1
  {
    if iterations < 1 then 1 else iterations
  }

  function BlockCount(keyLen: nat): nat { (keyLen + HLEN - 1) / HLEN }

  ghost function Key(prf: Prf, p: Bytes, s: Bytes, c: nat, keyLen: nat): Bytes
    requires IsPrf(prf) && c >= 1
  {
    Blocks(prf, p, s, c, BlockCount(keyLen))[..keyLen]
  }

  method DeriveBlock(prf: Prf, password: Bytes, salt: Bytes, iterations: int, block: nat) returns (t: array<Byte>)
    requires IsPrf(prf)
    ensures fresh(t) && t[..] == T(prf, password, salt, Rounds(iterations), block)
  {
    var b := salt + PutUint32(block);
    var u := prf(password, b);
    t := new Byte[HLEN];
    for j := 0 to HLEN
      invariant forall k :: 0 <= k < j ==> t[k] == u[k]
    {
      t[j] := u[j];
    }
    assert t[..] == u;
    var i := 1;
    while i < iterations
      invariant 1 <= i <= Rounds(iterations)
      invariant u == U(prf, password, salt, PutUint32(block), i)
      invariant t[..] == F(prf, password, salt, PutUint32(block), i)
    {
      u := prf(password, u);
      XorInto(t, u);
      i := i + 1;
    }
  }

  method XorInto(t: array<Byte>, u: Bytes)
    requires t.Length == |u|
    modifies t
    ensures t[..] == XorAll(old(t[..]), u)
  {
    for j := 0 to t.Length
      invariant forall k :: 0 <= k < j ==> t[k] == Xor(old(t[k]), u[k])
      invariant forall k :: j <= k < t.Length ==> t[k] == old(t[k])
    {
      t[j] := Xor(t[j], u[j]);
    }
  }

  /** Section 5.2 of RFC 8018 for exactly the key lengths up to the standard's limit, which the code does not check. */
  method PBKDF2SHA256(prf: Prf, password: Bytes, salt: Bytes, iterations: int, keyLen: nat) returns (key: Bytes)
    requires IsPrf(prf)
    ensures key == Key(prf, password, salt, Rounds(iterations), keyLen)
    ensures IsDerivedKey(prf, password, salt, if iterations < 1 then 1 else iterations, keyLen, key) <==>
            keyLen <= 0xFFFF_FFFF * 32
  {
    var blocks := (keyLen + HLEN - 1) / HLEN;
    var out: Bytes := [];
    for block := 1 to blocks + 1
      invariant out == Blocks(prf, password, salt, Rounds(iterations), block - 1)
    {
      var t := DeriveBlock(prf, password, salt, iterations, block);
      out := out + t[..];
    }
    key := out[..keyLen];
    KeyIsDerived(prf, password, salt, Rounds(iterations), keyLen);
  }

  // ----- the code meets the standard -----

  ghost function BlockList(prf: Prf, p: Bytes, s: Bytes, c: nat, l: nat): (r: seq<Bytes>)
    requires IsPrf(prf) && c >= 1
    ensures |r| == l && forall k :: 0 <= k < l ==> r[k] == T(prf, p, s, c, k + 1)
  {
    if l == 0 then [] else BlockList(prf, p, s, c, l - 1) + [T(prf, p, s, c, l)]
  }

  lemma {:induction false} BlocksAreConcat(prf: Prf, p: Bytes, s: Bytes, c: nat, l: nat)
    requires IsPrf(prf) && c >= 1
    ensures Blocks(prf, p, s, c, l) == Concat(BlockList(prf, p, s, c, l))
  {
    if l > 0 {
      BlocksAreConcat(prf, p, s, c, l - 1);
      var all := BlockList(prf, p, s, c, l);
      assert all[..l - 1] == BlockList(prf, p, s, c, l - 1);
    }
  }

  lemma BlockListMeetsTheStandard(prf: Prf, p: Bytes, s: Bytes, c: nat, l: nat)
    requires IsPrf(prf) && c >= 1 && l < TWO32
    ensures AreBlocks(prf, p, s, c, BlockList(prf, p, s, c, l))
  {
    forall k | 0 <= k < l ensures IsBlock(prf, p, s, c, k + 1, BlockList(prf, p, s, c, l)[k]) {
      PutUint32IsInt(k + 1);
    }
  }

  lemma KeyIsCut(prf: Prf, p: Bytes, s: Bytes, c: nat, l: nat, keyLen: nat)
    requires IsPrf(prf) && c >= 1 && l >= 1 && (l - 1) * HLEN < keyLen <= l * HLEN
    ensures IsCut(BlockList(prf, p, s, c, l), keyLen, Blocks(prf, p, s, c, l)[..keyLen])
  {
    var blocks, r := BlockList(prf, p, s, c, l), keyLen - (l - 1) * HLEN;
    BlocksAreConcat(prf, p, s, c, l - 1);
    assert blocks[..l - 1] == BlockList(prf, p, s, c, l - 1);
    var front, last := Blocks(prf, p, s, c, l - 1), T(prf, p, s, c, l);
    hide Blocks, BlockList, Concat, T;
    assert (front + last)[..keyLen] == front + last[..r];
  }

  /** Four octets do not hold 2^32. */
  lemma FourOctets(n: Bytes)
    requires |n| == 4
    ensures Value(n) < TWO32
  {
    assert n == [n[0], n[1], n[2], n[3]];
    PutUint32Value(n[0], n[1], n[2], n[3]);
  }

  /** Longer keys would need a block whose number has no encoding, so the standard derives none. */
  lemma DerivedIsWithinLimit(prf: Prf, p: Bytes, s: Bytes, c: nat, dkLen: nat, dk: Bytes)
    requires IsPrf(prf) && c >= 1 && IsDerivedKey(prf, p, s, c, dkLen, dk)
    ensures WithinLimit(dkLen)
  {
    if dkLen > 0 {
      var blocks: seq<Bytes> :| AreBlocks(prf, p, s, c, blocks) && IsCut(blocks, dkLen, dk);
      var k := |blocks| - 1;
      assert IsBlock(prf, p, s, c, k + 1, blocks[k]);
      var n: Bytes :| IsInt(n, k + 1) && blocks[k] == F(prf, p, s, n, c);
      FourOctets(n);
    }
  }

  /** The code's key is the standard's if and only if its length is within the limit. */
  lemma KeyIsDerived(prf: Prf, p: Bytes, s: Bytes, c: nat, keyLen: nat)
    requires IsPrf(prf) && c >= 1
    ensures IsDerivedKey(prf, p, s, c, keyLen, Key(prf, p, s, c, keyLen)) <==> WithinLimit(keyLen)
  {
    hide F;
    if !WithinLimit(keyLen) {
      if IsDerivedKey(prf, p, s, c, keyLen, Key(prf, p, s, c, keyLen)) {
        DerivedIsWithinLimit(prf, p, s, c, keyLen, Key(prf, p, s, c, keyLen));
      }
    } else if keyLen > 0 {
      var l := BlockCount(keyLen);
      BlockListMeetsTheStandard(prf, p, s, c, l);
      KeyIsCut(prf, p, s, c, l, keyLen);
    }
  }

  lemma {:induction false} BlocksArePrefix(prf: Prf, p: Bytes, s: Bytes, c: nat, l: nat, m: nat)
    requires IsPrf(prf) && c >= 1 && l <= m
    ensures Blocks(prf, p, s, c, l) == Blocks(prf, p, s, c, m)[..l * HLEN]
  {
    if l < m {
      BlocksArePrefix(prf, p, s, c, l, m - 1);
      assert l * HLEN <= (m - 1) * HLEN;
    }
  }

  /** The key for a shorter length is a prefix of the key for a longer one. */
  lemma ShorterIsPrefix(prf: Prf, p: Bytes, s: Bytes, c: nat, short: nat, long: nat)
    requires IsPrf(prf) && c >= 1 && short <= long
    ensures Key(prf, p, s, c, short) == Key(prf, p, s, c, long)[..short]
  {
    var l, m := BlockCount(short), BlockCount(long);
    BlocksArePrefix(prf, p, s, c, l, m);
  }

  lemma SameBlock(prf: Prf, p: Bytes, s: Bytes, c: nat, i: nat, a: Bytes, b: Bytes)
    requires IsPrf(prf) && c >= 1 && IsBlock(prf, p, s, c, i, a) && IsBlock(prf, p, s, c, i, b)
    ensures a == b
  {
    var m: Bytes :| IsInt(m, i) && a == F(prf, p, s, m, c);
    var n: Bytes :| IsInt(n, i) && b == F(prf, p, s, n, c);
    IntIsUnique(m, n);
  }

  lemma SameBlocks(prf: Prf, p: Bytes, s: Bytes, c: nat, a: seq<Bytes>, b: seq<Bytes>)
    requires IsPrf(prf) && c >= 1 && |a| == |b| && AreBlocks(prf, p, s, c, a) && AreBlocks(prf, p, s, c, b)
    ensures a == b
  {
    forall k | 0 <= k < |a| ensures a[k] == b[k] {
      assert IsBlock(prf, p, s, c, k + 1, a[k]) && IsBlock(prf, p, s, c, k + 1, b[k]);
      SameBlock(prf, p, s, c, k + 1, a[k], b[k]);
    }
  }

  /** The standard fixes the key: a length has one derived key. */
  lemma DerivedKeyIsUnique(prf: Prf, p: Bytes, s: Bytes, c: nat, dkLen: nat, a: Bytes, b: Bytes)
    requires IsPrf(prf) && c >= 1
    requires IsDerivedKey(prf, p, s, c, dkLen, a) && IsDerivedKey(prf, p, s, c, dkLen, b)
    ensures a == b
  {
    if dkLen > 0 {
      var x: seq<Bytes> :| AreBlocks(prf, p, s, c, x) && IsCut(x, dkLen, a);
      var y: seq<Bytes> :| AreBlocks(prf, p, s, c, y) && IsCut(y, dkLen, b);
      SameBlocks(prf, p, s, c, x, y);
    }
  }

  /** Beyond the limit, which the code does not check, the block numbers start again and so do the blocks. */
  lemma BlocksRepeatBeyondTheLimit(prf: Prf, p: Bytes, s: Bytes, c: nat, i: nat)
    requires IsPrf(prf) && c >= 1
    ensures T(prf, p, s, c, i + TWO32) == T(prf, p, s, c, i)
  {
    assert (i + TWO32) % TWO32 == i % TWO32;
  }
}
