/**
 The mobile client's password-based key derivation: HMAC-SHA-256 (RFC 2104, section 2)
 and PBKDF2 (RFC 8018, section 5.2) over an abstract 32-byte digest.
 */
module Kek {
  import opened Basics
  import T = Text

  type Bytes = seq<bv8>

  const BLOCK := 64
  const HASH_LEN := 32

  ghost predicate IsDigest(sha: Bytes -> Bytes) {
    forall m :: |sha(m)| == HASH_LEN
  }

  // ---------- what the standards say ----------

  function Zeros(n: nat): Bytes {
    seq(n, i => 0)
  }

  function Repeat(b: bv8, n: nat): Bytes {
    seq(n, i => b)
  }

  function Xor(a: Bytes, b: Bytes): (r: Bytes)
    requires |a| == |b|
    ensures |r| == |a|
  {
    seq(|a|, i requires 0 <= i < |a| => a[i] ^ b[i])
  }

  /** A key of one block: a long key is hashed first, a short one is filled with zero bytes. */
  function BlockKey(sha: Bytes -> Bytes, key: Bytes): Bytes {
    var k := if |key| > BLOCK then sha(key) else key;
    k + if |k| < BLOCK then Zeros(BLOCK - |k|) else []
  }

  lemma BlockKeySize(sha: Bytes -> Bytes, key: Bytes)
    requires IsDigest(sha)
    ensures |BlockKey(sha, key)| == BLOCK
  {}

  /** H(K xor opad, H(K xor ipad, text)). */
  function Hmac(sha: Bytes -> Bytes, key: Bytes, text: Bytes): Bytes
    requires |BlockKey(sha, key)| == BLOCK
  {
    var k := BlockKey(sha, key);
    sha(Xor(k, Repeat(0x5c, BLOCK)) + sha(Xor(k, Repeat(0x36, BLOCK)) + text))
  }

  /** INT(i): four octets, most significant first; past 2^32 - 1, where the standard stops, it wraps as the code does. */
  function Int32(i: nat): Bytes {
    var o := Octets32(i);
    [o[0] as bv8, o[1] as bv8, o[2] as bv8, o[3] as bv8]
  }

  function Octets32(i: nat): (o: seq<nat>)
    ensures |o| == 4 && forall k :: 0 <= k < 4 ==> o[k] < 256
  {
    [i / 0x100_0000 % 256, i / 0x1_0000 % 256, i / 0x100 % 256, i % 256]
  }

  /** U_j of block `i`. */
  function U(sha: Bytes -> Bytes, password: Bytes, salt: Bytes, i: nat, j: nat): Bytes
    requires |BlockKey(sha, password)| == BLOCK && 1 <= j
    decreases j
  {
    if j == 1 then Hmac(sha, password, salt + Int32(i))
    else Hmac(sha, password, U(sha, password, salt, i, j - 1))
  }

  /** F: U_1 xor .. xor U_c. */
  function F(sha: Bytes -> Bytes, password: Bytes, salt: Bytes, c: nat, i: nat): (r: Bytes)
    requires |BlockKey(sha, password)| == BLOCK && 1 <= c && IsDigest(sha)
    ensures |r| == HASH_LEN
    decreases c
  {
    if c == 1 then U(sha, password, salt, i, 1)
    else Xor(F(sha, password, salt, c - 1, i), U(sha, password, salt, i, c))
  }

  /** T_1 || .. || T_l. */
  ghost function Blocks(sha: Bytes -> Bytes, password: Bytes, salt: Bytes, c: nat, l: nat): (r: Bytes)
    requires |BlockKey(sha, password)| == BLOCK && 1 <= c && IsDigest(sha)
    ensures |r| == 32 * l
  {
    if l == 0 then [] else Blocks(sha, password, salt, c, l - 1) + F(sha, password, salt, c, l)
  }

  /** The derived key: the first `dkLen` octets. */
  ghost function DerivedKey(sha: Bytes -> Bytes, password: Bytes, salt: Bytes, c: nat, dkLen: nat): (r: Bytes)
    requires |BlockKey(sha, password)| == BLOCK && 1 <= c && IsDigest(sha)
    ensures |r| == dkLen
  {
    BlocksFit(dkLen, 0);
    Blocks(sha, password, salt, c, BlockCount(dkLen))[..dkLen]
  }

  /** ceil(dkLen / hLen). */
  function BlockCount(dkLen: nat): nat {
    (dkLen + 31) / 32
  }

  /** Just enough blocks: they cover the key, and every one of them is needed. */
  lemma BlocksFit(dkLen: nat, i: nat)
    ensures 32 * BlockCount(dkLen) >= dkLen
    ensures 0 < i <= BlockCount(dkLen) ==> 32 * (i - 1) < dkLen
  {}

  // ---------- the code ----------

  /** `dst.set(src, offset)`. */
  method Set(dst: array<bv8>, src: Bytes, offset: nat)
    requires offset + |src| <= dst.Length
    modifies dst
    ensures dst[..] == old(dst[..offset]) + src + old(dst[offset + |src|..])
  {
    for i := 0 to |src|
      invariant dst[offset..offset + i] == src[..i]
      invariant dst[..offset] == old(dst[..offset])
      invariant dst[offset + i..] == old(dst[offset + i..])
    {
      dst[offset + i] := src[i];
    }
  }

  method NewBytes(n: nat) returns (a: array<bv8>)
    ensures fresh(a) && a.Length == n && a[..] == Zeros(n)
  {
    a := new bv8[n](i => 0);
  }

  /** A key longer than a block is replaced by its digest, a shorter one copied into a zeroed block. */
  method PadKey(sha: Bytes -> Bytes, key: Bytes) returns (k: Bytes)
    requires IsDigest(sha)
    ensures k == BlockKey(sha, key) && |k| == 64
    ensures |key| <= 64 ==> key <= k && forall i :: |key| <= i < 64 ==> k[i] == 0
    ensures |key| > 64 ==> sha(key) <= k && forall i :: 32 <= i < 64 ==> k[i] == 0
  {
    k := key;
    if |k| > BLOCK { k := sha(k); }
    if |k| < BLOCK {
      var p := NewBytes(BLOCK);
      Set(p, k, 0);
      assert Zeros(BLOCK)[|k|..] == Zeros(BLOCK - |k|);
      k := p[..];
    }
  }

  /** Two buffers copied into one. */
  method Concat(a: Bytes, b: Bytes) returns (r: Bytes)
    ensures r == a + b
  {
    var buffer := NewBytes(|a| + |b|);
    Set(buffer, a, 0);
    Set(buffer, b, |a|);
    r := buffer[..];
  }

  method HmacSha256(sha: Bytes -> Bytes, key: Bytes, data: Bytes) returns (r: Bytes)
    requires IsDigest(sha)
    ensures |BlockKey(sha, key)| == BLOCK && r == Hmac(sha, key, data) && |r| == HASH_LEN
    ensures exists o: Bytes, i: Bytes :: Pads(o, i, BlockKey(sha, key)) && r == sha(o + sha(i + data))
  {
    var k := PadKey(sha, key);
    hide BlockKey;
    var oKey, iKey := new bv8[BLOCK], new bv8[BLOCK];
    for i := 0 to BLOCK
      invariant forall j :: 0 <= j < i ==> oKey[j] == k[j] ^ 0x5c && iKey[j] == k[j] ^ 0x36
    {
      oKey[i] := k[i] ^ 0x5c;
      iKey[i] := k[i] ^ 0x36;
    }
    assert oKey[..] == Xor(k, Repeat(0x5c, BLOCK)) && iKey[..] == Xor(k, Repeat(0x36, BLOCK));
    var inner := Concat(iKey[..], data);
    var innerHash := sha(inner);
    var outer := Concat(oKey[..], innerHash);
    r := sha(outer);
    assert Pads(oKey[..], iKey[..], k);
  }

  /** The key with every byte of it turned over by 0x5c, and by 0x36. */
  ghost predicate Pads(o: Bytes, i: Bytes, k: Bytes) {
    && |o| == 64 && |i| == 64 && |k| == 64
    && (forall j :: 0 <= j < 64 ==> o[j] == k[j] ^ 0x5c)
    && (forall j :: 0 <= j < 64 ==> i[j] == k[j] ^ 0x36)
  }

  /** The four octets read back, most significant first, as the number modulo 2^32. */
  lemma OctetsValue(i: nat)
    ensures var o := Octets32(i);
      0x100_0000 * o[0] + 0x1_0000 * o[1] + 0x100 * o[2] + o[3] == i % 0x1_0000_0000
  {
    var a, b, c := i / 0x100, i / 0x1_0000, i / 0x100_0000;
    DropOctets(i);
    FourOctets(i);
    ThreeOctets(a);
    TwoOctets(b);
  }

  lemma DropOctets(i: nat)
    ensures i / 0x100 / 0x100 == i / 0x1_0000 && i / 0x1_0000 / 0x100 == i / 0x100_0000
  {}

  lemma FourOctets(i: nat)
    ensures i % 0x1_0000_0000 == 0x100 * (i / 0x100 % 0x100_0000) + i % 0x100
  {
    var q := i / 0x100;
    var k, low := q / 0x100_0000, 0x100 * (q % 0x100_0000) + i % 0x100;
    assert i == 0x100 * q + i % 0x100 && q == 0x100_0000 * k + q % 0x100_0000;
    assert i == 0x1_0000_0000 * k + low;
    FourOctetsLeft(k, low);
  }

  lemma FourOctetsLeft(k: nat, low: nat)
    requires low < 0x1_0000_0000
    ensures (0x1_0000_0000 * k + low) % 0x1_0000_0000 == low
  {}

  lemma ThreeOctets(i: nat)
    ensures i % 0x100_0000 == 0x100 * (i / 0x100 % 0x1_0000) + i % 0x100
  {
    var q := i / 0x100;
    var k, low := q / 0x1_0000, 0x100 * (q % 0x1_0000) + i % 0x100;
    assert i == 0x100 * q + i % 0x100 && q == 0x1_0000 * k + q % 0x1_0000;
    assert i == 0x100_0000 * k + low;
    ThreeOctetsLeft(k, low);
  }

  lemma ThreeOctetsLeft(k: nat, low: nat)
    requires low < 0x100_0000
    ensures (0x100_0000 * k + low) % 0x100_0000 == low
  {}

  lemma TwoOctets(i: nat)
    ensures i % 0x1_0000 == 0x100 * (i / 0x100 % 0x100) + i % 0x100
  {
    var q := i / 0x100;
    var k, low := q / 0x100, 0x100 * (q % 0x100) + i % 0x100;
    assert i == 0x100 * q + i % 0x100 && q == 0x100 * k + q % 0x100;
    assert i == 0x1_0000 * k + low;
    TwoOctetsLeft(k, low);
  }

  lemma TwoOctetsLeft(k: nat, low: nat)
    requires low < 0x1_0000
    ensures (0x1_0000 * k + low) % 0x1_0000 == low
  {}

  lemma Int32Is(i: nat)
    ensures Int32(i) ==
            [(i / 0x100_0000 % 256) as bv8, (i / 0x1_0000 % 256) as bv8, (i / 0x100 % 256) as bv8, (i % 256) as bv8]
  {}

  /** Salt and block number, most significant byte first. */
  method FirstInput(salt: Bytes, blockIndex: nat) returns (r: Bytes)
    ensures r == salt + Int32(blockIndex)
  {
    hide Int32, Octets32;
    Int32Is(blockIndex);
    var first := NewBytes(|salt| + 4);
    Set(first, salt, 0);
    first[|salt| + 0] := (blockIndex / 0x100_0000 % 256) as bv8;
    first[|salt| + 1] := (blockIndex / 0x1_0000 % 256) as bv8;
    first[|salt| + 2] := (blockIndex / 0x100 % 256) as bv8;
    first[|salt| + 3] := (blockIndex % 256) as bv8;
    r := first[..];
    assert r[..|salt|] == salt;
    assert r == salt + r[|salt|..];
    assert r[|salt|..] == Int32(blockIndex);
  }

  /** `t[j] ^= u[j]` over one digest. */
  method XorInto(t: array<bv8>, u: Bytes)
    requires t.Length == |u| == HASH_LEN
    modifies t
    ensures t[..] == Xor(old(t[..]), u)
  {
    for j := 0 to HASH_LEN
      invariant forall k :: 0 <= k < j ==> t[k] == old(t[k]) ^ u[k]
      invariant forall k :: j <= k < HASH_LEN ==> t[k] == old(t[k])
    {
      t[j] := t[j] ^ u[j];
    }
  }

  function Rounds(iterations: int): (n: nat)
    ensures n == iterations || (iterations <= 0 && n == 1)
  {
    if iterations < 1 then 1 else iterations
  }

  /** Fewer than one iteration counts as one. */
  method Pbkdf2Block(sha: Bytes -> Bytes, pw: Bytes, salt: Bytes, iterations: int, blockIndex: nat) returns (r: Bytes)
    requires IsDigest(sha)
    ensures |BlockKey(sha, pw)| == BLOCK && r == F(sha, pw, salt, Rounds(iterations), blockIndex)
  {
    hide BlockKey, Hmac, Int32, Xor, U, F, IsDigest, Pads;
    BlockKeySize(sha, pw);
    FirstRound(sha, pw, salt, blockIndex);
    var first := FirstInput(salt, blockIndex);
    var u := HmacSha256(sha, pw, first);
    var t := NewBytes(HASH_LEN);
    Set(t, u, 0);
    assert t[..] == u;
    var i := 1;
    while i < iterations
      invariant 1 <= i <= Rounds(iterations)
      invariant u == U(sha, pw, salt, blockIndex, i) && |u| == HASH_LEN
      invariant t.Length == HASH_LEN && t[..] == F(sha, pw, salt, i, blockIndex)
      decreases iterations - i
    {
      NextRound(sha, pw, salt, blockIndex, i);
      u := HmacSha256(sha, pw, u);
      XorInto(t, u);
      i := i + 1;
    }
    r := t[..];
  }

  lemma FirstRound(sha: Bytes -> Bytes, pw: Bytes, salt: Bytes, b: nat)
    requires IsDigest(sha) && |BlockKey(sha, pw)| == BLOCK
    ensures U(sha, pw, salt, b, 1) == Hmac(sha, pw, salt + Int32(b)) == F(sha, pw, salt, 1, b)
  {}

  lemma NextRound(sha: Bytes -> Bytes, pw: Bytes, salt: Bytes, b: nat, i: nat)
    requires IsDigest(sha) && |BlockKey(sha, pw)| == BLOCK && 1 <= i
    ensures U(sha, pw, salt, b, i + 1) == Hmac(sha, pw, U(sha, pw, salt, b, i)) && |U(sha, pw, salt, b, i + 1)| == HASH_LEN
    ensures F(sha, pw, salt, i + 1, b) == Xor(F(sha, pw, salt, i, b), U(sha, pw, salt, b, i + 1))
  {
    hide BlockKey, Xor;
  }

  /** The result so far agrees with the blocks so far. */
  predicate Agrees(out: Bytes, done: Bytes) {
    var n := Min(|done|, |out|);
    out[..n] == done[..n]
  }

  lemma AgreesInFull(out: Bytes, done: Bytes)
    requires Agrees(out, done) && |done| >= |out|
    ensures out == done[..|out|]
  {
    assert out[..|out|] == out;
  }

  /** One more block at its place, cut at the end of the result. */
  method PlaceBlock(out: array<bv8>, block: Bytes, ghost done: Bytes, start: nat)
    requires |block| == HASH_LEN && |done| == start <= out.Length && Agrees(out[..], done)
    modifies out
    ensures Agrees(out[..], done + block)
  {
    var size := Min(HASH_LEN, out.Length - start);
    ghost var rest := out[start + size..];
    assert out[..start] == out[..][..start] == done;
    Set(out, block[..size], start);
    assert out[..] == done + block[..size] + rest;
  }

  lemma NextBlock(sha: Bytes -> Bytes, pw: Bytes, salt: Bytes, c: nat, l: nat)
    requires IsDigest(sha) && |BlockKey(sha, pw)| == BLOCK && 1 <= c
    ensures Blocks(sha, pw, salt, c, l + 1) == Blocks(sha, pw, salt, c, l) + F(sha, pw, salt, c, l + 1)
    ensures Blocks(sha, pw, salt, c, 0) == []
  {}

  /** Block after block is copied into the result; the last one may be cut. */
  method Pbkdf2(sha: Bytes -> Bytes, pw: Bytes, salt: Bytes, iterations: int, dkLen: nat) returns (r: Bytes)
    requires IsDigest(sha)
    ensures |BlockKey(sha, pw)| == BLOCK && r == DerivedKey(sha, pw, salt, Rounds(iterations), dkLen)
  {
    BlockKeySize(sha, pw);
    var c := Rounds(iterations);
    NextBlock(sha, pw, salt, c, 0);
    hide BlockKey, F, IsDigest, Rounds, Blocks, BlockCount, Zeros;
    BlocksFit(dkLen, 0);
    var blocks := BlockCount(dkLen);
    var out := NewBytes(dkLen);
    ghost var done: Bytes := [];
    assert Agrees(out[..], done);
    hide Agrees;
    for i := 1 to blocks + 1
      invariant out.Length == dkLen && Agrees(out[..], done)
      invariant done == Blocks(sha, pw, salt, c, i - 1) && |done| == 32 * (i - 1)
    {
      var block := Pbkdf2Block(sha, pw, salt, iterations, i);
      BlocksFit(dkLen, i);
      PlaceBlock(out, block, done, 32 * (i - 1));
      NextBlock(sha, pw, salt, c, i - 1);
      done := done + block;
    }
    r := out[..];
    AgreesInFull(r, done);
  }

  // ---------- keys as text ----------

  /** Two lower-case hexadecimal digits a byte. */
  function BytesToHex(b: Bytes): (h: T.Text)
    ensures |h| == 2 * |b|
  {
    if b == [] then []
    else [T.HexDigit(b[0] as nat / 16), T.HexDigit(b[0] as nat % 16)] + BytesToHex(b[1..])
  }

  lemma {:induction false} HexAt(b: Bytes, i: nat)
    requires i < |b|
    ensures BytesToHex(b)[2 * i] == T.HexDigit(b[i] as nat / 16)
    ensures BytesToHex(b)[2 * i + 1] == T.HexDigit(b[i] as nat % 16)
    decreases i
  {
    if i > 0 {
      HexAt(b[1..], i - 1);
      assert BytesToHex(b)[2 * i] == BytesToHex(b[1..])[2 * (i - 1)];
      assert BytesToHex(b)[2 * i + 1] == BytesToHex(b[1..])[2 * (i - 1) + 1];
    }
  }

  /** The value of a pair of digits; what `parseInt` makes of anything else is not modelled. */
  method HexToBytes(h: T.Text) returns (r: Bytes)
    requires forall i :: 0 <= i < |h| ==> T.HexValue(h[i]).Some?
    ensures |r| == |h| / 2
    ensures forall b :: h == BytesToHex(b) ==> r == b
  {
    hide BytesToHex, PairValue, T.HexValue;
    var out := new bv8[|h| / 2];
    for i := 0 to out.Length
      invariant forall j :: 0 <= j < i ==> out[j] == PairValue(h, j)
    {
      out[i] := PairValue(h, i);
    }
    r := out[..];
    forall b | h == BytesToHex(b) ensures r == b {
      forall i | 0 <= i < |b| ensures r[i] == b[i] { PairRoundTrip(b, i); }
    }
  }

  lemma PairRoundTrip(b: Bytes, i: nat)
    requires i < |b|
    ensures var h := BytesToHex(b);
      T.HexValue(h[2 * i]).Some? && T.HexValue(h[2 * i + 1]).Some? && PairValue(h, i) == b[i]
  {
    HexAt(b, i);
    T.HexRoundTrip(b[i] as nat / 16);
    T.HexRoundTrip(b[i] as nat % 16);
  }

  function PairValue(h: T.Text, i: nat): bv8
    requires 2 * i + 1 < |h| && T.HexValue(h[2 * i]).Some? && T.HexValue(h[2 * i + 1]).Some?
  {
    (16 * Nibble(h[2 * i]) + Nibble(h[2 * i + 1])) as bv8
  }

  function Nibble(c: T.CodeUnit): (n: nat)
    requires T.HexValue(c).Some?
    ensures n < 16
  {
    T.HexValue(c).value
  }
}
