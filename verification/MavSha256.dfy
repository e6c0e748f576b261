/** SHA-256 as section 6.2 of FIPS 180-4 defines it, and the streaming context that computes its first 48 bits. */
module MavSha256 {
  import opened Words
  import opened Arithmetic

  // ---------------------------------------------------------------- the hash function

  function Ch(x: bv32, y: bv32, z: bv32): bv32 { (x & y) ^ ((x ^ 0xFFFF_FFFF) & z) }

  function Maj(x: bv32, y: bv32, z: bv32): bv32 { (x & y) ^ (x & z) ^ (y & z) }

  function Rotr(x: bv32, n: bv6): bv32
    requires n <= 32
  {
    (x >> n) | (x << (32 - n))
  }

  function Shr(x: bv32, n: bv6): bv32
    requires n <= 32
  {
    x >> n
  }

  function BigSigma0(x: bv32): bv32 { Rotr(x, 2) ^ Rotr(x, 13) ^ Rotr(x, 22) }

  function BigSigma1(x: bv32): bv32 { Rotr(x, 6) ^ Rotr(x, 11) ^ Rotr(x, 25) }

  function SmallSigma0(x: bv32): bv32 { Rotr(x, 7) ^ Rotr(x, 18) ^ Shr(x, 3) }

  function SmallSigma1(x: bv32): bv32 { Rotr(x, 17) ^ Rotr(x, 19) ^ Shr(x, 10) }

  /** The constants, eight in a row. */
  function Constants(row: nat): (r: seq<bv32>)
    ensures |r| == 8
  {
    match row
    case 0 =>
      [0x428a2f98, 0x71374491, 0xb5c0fbcf, 0xe9b5dba5,
       0x3956c25b, 0x59f111f1, 0x923f82a4, 0xab1c5ed5]
    case 1 =>
      [0xd807aa98, 0x12835b01, 0x243185be, 0x550c7dc3,
       0x72be5d74, 0x80deb1fe, 0x9bdc06a7, 0xc19bf174]
    case 2 =>
      [0xe49b69c1, 0xefbe4786, 0x0fc19dc6, 0x240ca1cc,
       0x2de92c6f, 0x4a7484aa, 0x5cb0a9dc, 0x76f988da]
    case 3 =>
      [0x983e5152, 0xa831c66d, 0xb00327c8, 0xbf597fc7,
       0xc6e00bf3, 0xd5a79147, 0x06ca6351, 0x14292967]
    case 4 =>
      [0x27b70a85, 0x2e1b2138, 0x4d2c6dfc, 0x53380d13,
       0x650a7354, 0x766a0abb, 0x81c2c92e, 0x92722c85]
    case 5 =>
      [0xa2bfe8a1, 0xa81a664b, 0xc24b8b70, 0xc76c51a3,
       0xd192e819, 0xd6990624, 0xf40e3585, 0x106aa070]
    case 6 =>
      [0x19a4c116, 0x1e376c08, 0x2748774c, 0x34b0bcb5,
       0x391c0cb3, 0x4ed8aa4a, 0x5b9cca4f, 0x682e6ff3]
    case _ =>
      [0x748f82ee, 0x78a5636f, 0x84c87814, 0x8cc70208,
       0x90befffa, 0xa4506ceb, 0xbef9a3f7, 0xc67178f2]
  }

  function K(t: nat): bv32 { if t < 64 then Constants(t / 8)[t % 8] else 0 }

  /** The eight words of the hash value, and of the working variables. */
  datatype Hash = Hash(a: bv32, b: bv32, c: bv32, d: bv32, e: bv32, f: bv32, g: bv32, h: bv32)

  function InitialWord(i: nat): bv32 {
    match i
    case 0 => 0x6a09e667 case 1 => 0xbb67ae85 case 2 => 0x3c6ef372 case 3 => 0xa54ff53a
    case 4 => 0x510e527f case 5 => 0x9b05688c case 6 => 0x1f83d9ab case _ => 0x5be0cd19
  }

  function Initial(): Hash {
    Hash(InitialWord(0), InitialWord(1), InitialWord(2), InitialWord(3), InitialWord(4), InitialWord(5), InitialWord(6),
         InitialWord(7))
  }

  /** Four bytes, the first one high. */
  function BigEndian(b0: bv8, b1: bv8, b2: bv8, b3: bv8): bv32 {
    (b0 as bv32 << 24) | (b1 as bv32 << 16) | (b2 as bv32 << 8) | b3 as bv32
  }

  function BlockWord(block: Bytes, t: nat): bv32
    requires |block| == 64 && t < 16
  {
    BigEndian(block[4 * t], block[4 * t + 1], block[4 * t + 2], block[4 * t + 3])
  }

  function Sum4(a: bv32, b: bv32, c: bv32, d: bv32): bv32 { Plus(Plus(Plus(a, b), c), d) }

  /** The message schedule. */
  function W(block: Bytes, t: nat): bv32
    requires |block| == 64
  {
    if t < 16 then BlockWord(block, t)
    else Sum4(SmallSigma1(W(block, t - 2)), W(block, t - 7), SmallSigma0(W(block, t - 15)), W(block, t - 16))
  }

  function T1(v: Hash, t: nat, w: bv32): bv32 { Plus(Sum4(v.h, BigSigma1(v.e), Ch(v.e, v.f, v.g), K(t)), w) }

  function T2(v: Hash): bv32 { Plus(BigSigma0(v.a), Maj(v.a, v.b, v.c)) }

  function Round(v: Hash, t: nat, w: bv32): Hash {
    Hash(Plus(T1(v, t, w), T2(v)), v.a, v.b, v.c, Plus(v.d, T1(v, t, w)), v.e, v.f, v.g)
  }

  function Rounds(h: Hash, block: Bytes, n: nat): Hash
    requires |block| == 64
  {
    if n == 0 then h else Round(Rounds(h, block, n - 1), n - 1, W(block, n - 1))
  }

  function AddHash(x: Hash, y: Hash): Hash {
    Hash(Plus(x.a, y.a), Plus(x.b, y.b), Plus(x.c, y.c), Plus(x.d, y.d), Plus(x.e, y.e), Plus(x.f, y.f), Plus(x.g, y.g),
         Plus(x.h, y.h))
  }

  function Compress(h: Hash, block: Bytes): Hash
    requires |block| == 64
  {
    AddHash(h, Rounds(h, block, 64))
  }

  /** The hash value after the first `n` blocks. */
  function AfterBlocks(m: Bytes, n: nat): Hash
    requires 64 * n <= |m|
  {
    if n == 0 then Initial() else Compress(AfterBlocks(m, n - 1), m[64 * (n - 1)..64 * n])
  }

  // Padding: section 5.1.1.

  const TWO32: nat := 0x1_0000_0000

  function ByteOf(w: nat, i: nat): bv8 {
    ((if i == 0 then w else if i == 1 then w / 0x100 else if i == 2 then w / 0x1_0000 else w / 0x100_0000) % 0x100)
    as bv8
  }

  function FourBytes(w: nat): Bytes { [ByteOf(w, 3), ByteOf(w, 2), ByteOf(w, 1), ByteOf(w, 0)] }

  /** The length in bits as a 64-bit number, high byte first. */
  function LengthBytes(bits: nat): Bytes { FourBytes(LowWord(bits / TWO32)) + FourBytes(LowWord(bits)) }

  function Zeros(n: nat): (r: Bytes)
    ensures |r| == n && forall i :: 0 <= i < n ==> r[i] == 0
  {
    if n == 0 then [] else [0] + Zeros(n - 1)
  }

  /** `z` zero bytes are the fewest that end the padding on a block boundary. */
  predicate FewestZeros(length: nat, z: nat) { Fills(length, z) && forall y: nat :: y < z ==> !Fills(length, y) }

  predicate Fills(length: nat, z: nat) { (length + 1 + z + 8) % 64 == 0 }

  function Padding(bits: nat, z: nat): (r: Bytes)
    ensures |r| == 1 + z + 8
  {
    [0x80] + Zeros(z) + LengthBytes(bits)
  }

  /** The first 48 bits of a hash value, high byte first. */
  function First48(h: Hash): Bytes {
    [Low8(h.a >> 24), Low8(h.a >> 16), Low8(h.a >> 8), Low8(h.a), Low8(h.b >> 24), Low8(h.b >> 16)]
  }

  /** `digest` is the beginning of SHA-256 of the message. */
  ghost predicate IsSha256First48(m: Bytes, digest: Bytes) {
    exists z: nat, n: nat :: FewestZeros(|m|, z)
      && |m + Padding(Bits(|m|), z)| == 64 * n && digest == First48(AfterBlocks(m + Padding(Bits(|m|), z), n))
  }

  /** A message has only one digest. */
  lemma DigestIsUnique(m: Bytes, d: Bytes, e: Bytes)
    requires IsSha256First48(m, d) && IsSha256First48(m, e)
    ensures d == e
  {
    hide AfterBlocks, First48, Padding, Fills;
    var z: nat, n: nat :| FewestZeros(|m|, z)
      && |m + Padding(Bits(|m|), z)| == 64 * n && d == First48(AfterBlocks(m + Padding(Bits(|m|), z), n));
    var y: nat, k: nat :| FewestZeros(|m|, y)
      && |m + Padding(Bits(|m|), y)| == 64 * k && e == First48(AfterBlocks(m + Padding(Bits(|m|), y), k));
    assert !(z < y) && !(y < z);
  }

  lemma {:induction false} SameBlocks(m: Bytes, m': Bytes, n: nat)
    requires 64 * n <= |m| && 64 * n <= |m'| && m[..64 * n] == m'[..64 * n]
    ensures AfterBlocks(m, n) == AfterBlocks(m', n)
  {
    hide Compress;
    if n > 0 {
      assert m[..64 * (n - 1)] == m[..64 * n][..64 * (n - 1)] && m'[..64 * (n - 1)] == m'[..64 * n][..64 * (n - 1)];
      SameBlocks(m, m', n - 1);
      assert m[64 * (n - 1)..64 * n] == m[..64 * n][64 * (n - 1)..] == m'[64 * (n - 1)..64 * n];
    }
  }

  // ---------------------------------------------------------------- the two words of the size

  function Bits(length: nat): nat { 8 * length }

  /** A 64-bit count held in two words. */
  predicate Counts(low: nat, high: nat, bits: nat) { low == LowWord(bits) && high == LowWord(bits / TWO32) }

  function LowWord(n: nat): (r: nat)
    ensures r < TWO32
  {
    n % TWO32
  }

  /** The bytes in the unfinished block, by the low word. */
  function Offset(low: nat): (r: nat)
    ensures r < 64
  {
    (low / 8) % 64
  }

  /** Adding to the low word and carrying when it wraps keeps the count exactly when what is added fits in the low
      word. */
  lemma CarryExactly(low: nat, high: nat, bits: nat, added: nat)
    requires Counts(low, high, bits) && added < 8 * TWO32
    ensures var low' := LowWord(low + LowWord(added));
      && low' == LowWord(bits + added)
      && (Counts(low', if low' < low then LowWord(high + 1) else high, bits + added) <==> added < TWO32)
  {
    var q, r, b := added / TWO32, added % TWO32, bits / TWO32;
    var c := if low + r >= TWO32 then 1 else 0;
    assert bits == TWO32 * b + low && added == TWO32 * q + r;
    DivModIs(low + r, TWO32, c, low + r - TWO32 * c);
    DivModIs(bits + added, TWO32, b + q + c, low + r - TWO32 * c);
    HighExactly(b, q, c);
    DivModIs(high, TWO32, 0, high);
  }

  lemma HighExactly(b: nat, q: nat, c: nat)
    requires q < 8 && c <= 1
    ensures (b % TWO32 + c) % TWO32 == (b + q + c) % TWO32 <==> q == 0
  {
    var k, high := b / TWO32, b % TWO32;
    var s, t := (high + c) / TWO32, (high + c + q) / TWO32;
    assert b == TWO32 * k + high;
    DivModIs(b + q + c, TWO32, k + t, (high + c + q) % TWO32);
    if (high + c) % TWO32 == (high + c + q) % TWO32 {
      assert q == TWO32 * (t - s);
      Multiples(TWO32, t - s);
    }
  }

  /** The bytes of the unfinished block, from the low word of the size. */
  lemma OffsetIs(low: nat, length: nat, n: nat)
    requires low == LowWord(Bits(length)) && 64 * n <= length < 64 * n + 64
    ensures Offset(low) == length - 64 * n
  {
    var k := 8 * length / TWO32;
    assert 8 * length == TWO32 * k + low;
    var e := length - 0x2000_0000 * k;
    assert low == 8 * e;
    DivModIs(low, 8, e, 0);
    DivModIs(e, 64, n - 0x80_0000 * k, length - 64 * n);
  }

  /** Where the length goes, as the firmware computes it: the padding is the shortest one, ends on a block boundary and
      fits the 72 bytes set aside for it. */
  lemma PaddingFits(length: nat, n: nat)
    requires 64 * n <= length < 64 * n + 64
    ensures var dstart := (120 - (length - 64 * n) - 1) % 64 + 1;
      && 1 <= dstart <= 64 && FewestZeros(length, dstart - 1)
      && length + dstart + 8 == 64 * (if length - 64 * n < 56 then n + 1 else n + 2)
  {
    var offset := length - 64 * n;
    if offset < 56 { DivModIs(119 - offset, 64, 1, 55 - offset); } else { DivModIs(119 - offset, 64, 0, 119 - offset); }
    var dstart := (120 - offset - 1) % 64 + 1;
    var whole := if offset < 56 then n + 1 else n + 2;
    DivModIs(length + dstart + 8, 64, whole, 0);
    forall y: nat | y < dstart - 1 ensures !Fills(length, y) {
      DivModIs(length + 1 + y + 8, 64, whole - 1, length + 1 + y + 8 - 64 * (whole - 1));
    }
  }

  // ---------------------------------------------------------------- the context

  class Context {
    var sz0: nat
    var sz1: nat
    const counter: array<bv32>
    const saveBytes: array<byte>
    ghost var message: Bytes
    ghost var blocks: nat

    ghost predicate Shape() {
      counter.Length == 8 && saveBytes.Length == 64
    }

    function Value(): Hash
      requires counter.Length == 8
      reads counter
    {
      Hash(counter[0], counter[1], counter[2], counter[3], counter[4], counter[5], counter[6], counter[7])
    }

    /** The whole blocks of the message are hashed, and the rest is saved; `m` is the message taken so far. */
    ghost predicate Hashed(m: Bytes)
      requires Shape()
      reads `blocks, counter, saveBytes
    {
      && 64 * blocks <= |m| < 64 * blocks + 64
      && Value() == AfterBlocks(m, blocks)
      && saveBytes[..|m| - 64 * blocks] == m[64 * blocks..]
    }

    /** The low word of the size is always right. */
    ghost predicate Valid()
      reads this, counter, saveBytes
    {
      Shape() && counter != saveBytes as object && Hashed(message) && sz0 == LowWord(Bits(|message|)) && sz1 < TWO32
    }

    /** So is the high word, as long as no update is too long. */
    ghost predicate SizeRight()
      reads this
    {
      Counts(sz0, sz1, Bits(|message|))
    }

    constructor ()
      ensures Valid() && SizeRight() && message == [] && fresh(counter) && fresh(saveBytes)
    {
      counter := new bv32[8];
      saveBytes := new byte[64];
      new;
      Init();
    }

    /** `mavlink_sha256_init` */
    method Init()
      requires Shape() && counter != saveBytes as object
      modifies this, counter
      ensures Valid() && SizeRight() && message == []
    {
      hide InitialWord, Compress;
      sz0, sz1 := 0, 0;
      counter[0], counter[1], counter[2], counter[3] := InitialWord(0), InitialWord(1), InitialWord(2), InitialWord(3);
      counter[4], counter[5], counter[6], counter[7] := InitialWord(4), InitialWord(5), InitialWord(6), InitialWord(7);
      message, blocks := [], 0;
      DivModIs(0, TWO32, 0, 0);
    }

    /** `mavlink_sha256_calc` */
    method Calc(current: array<bv32>, ghost block: Bytes)
      requires Shape() && |block| == 64 && current.Length == 16 && current != counter
      requires forall t :: 0 <= t < 16 ==> current[t] == BlockWord(block, t)
      modifies counter
      ensures Value() == Compress(old(Value()), block)
    {
      hide BigSigma0, BigSigma1, SmallSigma0, SmallSigma1, Ch, Maj, Plus, K, Constants, BlockWord, BigEndian;
      var data := Schedule(current, block);
      var v := Value();
      ghost var start := v;
      for i := 0 to 64
        invariant v == Rounds(start, block, i)
      {
        ghost var before := v;
        var t1 := Plus(Sum4(v.h, BigSigma1(v.e), Ch(v.e, v.f, v.g), K(i)), data[i]);
        var t2 := Plus(BigSigma0(v.a), Maj(v.a, v.b, v.c));
        v := v.(h := v.g);
        v := v.(g := v.f);
        v := v.(f := v.e);
        v := v.(e := Plus(v.d, t1));
        v := v.(d := v.c);
        v := v.(c := v.b);
        v := v.(b := v.a);
        v := v.(a := Plus(t1, t2));
        assert v == Round(before, i, W(block, i));
      }
      counter[0] := Plus(counter[0], v.a);
      counter[1] := Plus(counter[1], v.b);
      counter[2] := Plus(counter[2], v.c);
      counter[3] := Plus(counter[3], v.d);
      counter[4] := Plus(counter[4], v.e);
      counter[5] := Plus(counter[5], v.f);
      counter[6] := Plus(counter[6], v.g);
      counter[7] := Plus(counter[7], v.h);
    }

    /** The first two loops of `mavlink_sha256_calc`. */
    method Schedule(current: array<bv32>, ghost block: Bytes) returns (data: array<bv32>)
      requires |block| == 64 && current.Length == 16
      requires forall t :: 0 <= t < 16 ==> current[t] == BlockWord(block, t)
      ensures fresh(data) && data.Length == 64 && forall t :: 0 <= t < 64 ==> data[t] == W(block, t)
    {
      hide SmallSigma0, SmallSigma1, Plus, BlockWord, Sum4;
      data := new bv32[64];
      for i := 0 to 16
        invariant forall t :: 0 <= t < i ==> data[t] == W(block, t)
      {
        data[i] := current[i];
      }
      for i := 16 to 64
        invariant forall t :: 0 <= t < i ==> data[t] == W(block, t)
      {
        data[i] := Sum4(SmallSigma1(data[i - 2]), data[i - 7], SmallSigma0(data[i - 15]), data[i - 16]);
      }
    }

    /** `memcpy` into the saved bytes. */
    method CopyIn(offset: nat, v: Bytes, p: nat, l: nat)
      requires Shape() && offset + l <= 64 && p + l <= |v|
      modifies saveBytes
      ensures saveBytes[..offset + l] == old(saveBytes[..offset]) + v[p..p + l]
    {
      for i := 0 to l
        invariant saveBytes[..offset + i] == old(saveBytes[..offset]) + v[p..p + i]
      {
        saveBytes[offset + i] := v[p + i];
        assert saveBytes[..offset + i + 1] == saveBytes[..offset + i] + [v[p + i]];
      }
    }

    /** A full block: its words are put together high byte first and hashed. */
    method FinishBlock(ghost m: Bytes)
      requires Shape() && |m| == 64 * (blocks + 1) && saveBytes[..] == m[64 * blocks..]
               && Value() == AfterBlocks(m, blocks)
      modifies this`blocks, counter
      ensures blocks == old(blocks) + 1 && Value() == AfterBlocks(m, blocks)
    {
      hide Compress, BigEndian;
      var current := new bv32[16];
      for i := 0 to 16
        invariant forall t :: 0 <= t < i ==> current[t] == BlockWord(saveBytes[..], t)
        modifies current
      {
        current[i] := BigEndian(saveBytes[4 * i], saveBytes[4 * i + 1], saveBytes[4 * i + 2], saveBytes[4 * i + 3]);
      }
      assert m[64 * blocks..64 * (blocks + 1)] == m[64 * blocks..];
      Calc(current, saveBytes[..]);
      blocks := blocks + 1;
    }

    /** One round of the loop of `mavlink_sha256_update`: as much as fits in the block. */
    method TakeSome(v: Bytes, p: nat, offset: nat, ghost m: Bytes) returns (p': nat, offset': nat)
      requires Shape() && p < |v| && Hashed(m) && offset == |m| - 64 * blocks
      modifies this`blocks, counter, saveBytes
      ensures p < p' <= |v| && Hashed(m + v[p..p']) && offset' == |m + v[p..p']| - 64 * blocks
    {
      hide AfterBlocks;
      var l := 64 - offset;
      if |v| - p < l {
        l := |v| - p;
      }
      ghost var next := m + v[p..p + l];
      CopyIn(offset, v, p, l);
      assert next[..64 * blocks] == m[..64 * blocks] && next[64 * blocks..] == m[64 * blocks..] + v[p..p + l];
      SameBlocks(m, next, blocks);
      offset', p' := offset + l, p + l;
      if offset' == 64 {
        assert saveBytes[..] == saveBytes[..64];
        FinishBlock(next);
        offset' := 0;
        assert saveBytes[..0] == next[64 * blocks..];
      }
    }

    /** The size of `mavlink_sha256_update`. */
    method AddSize(len: nat, ghost length: nat)
      requires sz0 == LowWord(Bits(length)) && sz1 < TWO32 && len < TWO32
      modifies `sz0, `sz1
      ensures sz0 == LowWord(Bits(length + len)) && sz1 < TWO32
      ensures Counts(old(sz0), old(sz1), Bits(length)) ==> (Counts(sz0, sz1, Bits(length + len)) <==> len < 0x2000_0000)
    {
      assert Bits(length + len) == Bits(length) + 8 * len;
      LowAlways(sz0, Bits(length), 8 * len);
      if Counts(sz0, sz1, Bits(length)) { CarryExactly(sz0, sz1, Bits(length), 8 * len); }
      hide LowWord;
      var oldSz := sz0;
      sz0 := LowWord(sz0 + LowWord(8 * len));
      if sz0 < oldSz {
        sz1 := LowWord(sz1 + 1);
      }
    }

    /** The loop of `mavlink_sha256_update`. */
    method TakeAll(v: Bytes, start: nat, ghost m: Bytes)
      requires Shape() && Hashed(m) && start == |m| - 64 * blocks
      modifies this`blocks, counter, saveBytes
      ensures Hashed(m + v)
    {
      hide AfterBlocks, Hashed;
      var offset, p := start, 0;
      assert m + v[..0] == m;
      while p < |v|
        invariant p <= |v| && Hashed(m + v[..p]) && offset == |m + v[..p]| - 64 * blocks
        decreases |v| - p
      {
        ghost var q := p;
        p, offset := TakeSome(v, p, offset, m + v[..p]);
        assert m + v[..q] + v[q..p] == m + v[..p];
      }
      assert v[..|v|] == v;
    }

    /** `mavlink_sha256_update`: the message grows, and its size stays right exactly when the update is below 2^29
        bytes. */
    method Update(v: Bytes)
      requires Valid() && |v| < TWO32
      modifies this, counter, saveBytes
      ensures Valid() && message == old(message) + v
      ensures old(SizeRight()) ==> (SizeRight() <==> |v| < 0x2000_0000)
    {
      hide AfterBlocks, LowWord, Offset, Counts, Hashed, Bits;
      OffsetOf();
      ghost var m := message;
      assert |m + v| == |m| + |v|;
      var oldSz := sz0;
      AddSize(|v|, |m|);
      TakeAll(v, Offset(oldSz), m);
      message := m + v;
    }

    lemma OffsetOf()
      requires Valid()
      ensures Offset(sz0) == |message| - 64 * blocks
    {
      hide AfterBlocks;
      OffsetIs(sz0, |message|, blocks);
    }

    /** The padding bytes of `mavlink_sha256_final_48`. */
    method FillPadding(dstart: nat) returns (zeros: array<byte>)
      requires 1 <= dstart <= 64
      ensures fresh(zeros) && zeros.Length == 72
      ensures zeros[..dstart + 8] == [0x80] + Zeros(dstart - 1) + (FourBytes(sz1) + FourBytes(sz0))
    {
      hide FourBytes, Zeros;
      zeros := Marked(dstart);
      ghost var front := zeros[..dstart];
      PutFour(zeros, dstart + 4, sz0);
      assert zeros[..dstart] == zeros[..dstart + 4][..dstart] == front;
      PutFour(zeros, dstart, sz1);
      assert zeros[dstart + 4..dstart + 8] == zeros[dstart + 4..][..4];
      assert zeros[..dstart + 8] == zeros[..dstart] + (zeros[dstart..dstart + 4] + zeros[dstart + 4..dstart + 8]);
    }

    method Marked(dstart: nat) returns (zeros: array<byte>)
      requires 1 <= dstart <= 64
      ensures fresh(zeros) && zeros.Length == 72 && zeros[..dstart] == [0x80] + Zeros(dstart - 1)
    {
      zeros := new byte[72];
      zeros[0] := 0x80;
      for i := 1 to 72
        invariant zeros[0] == 0x80 && forall k :: 1 <= k < i ==> zeros[k] == 0
      {
        zeros[i] := 0;
      }
    }

    method PutFour(zeros: array<byte>, at: nat, w: nat)
      requires at + 4 <= zeros.Length
      modifies zeros
      ensures zeros[at..at + 4] == FourBytes(w)
      ensures zeros[..at] == old(zeros[..at]) && zeros[at + 4..] == old(zeros[at + 4..])
    {
      hide ByteOf;
      zeros[at + 3] := ByteOf(w, 0);
      zeros[at + 2] := ByteOf(w, 1);
      zeros[at + 1] := ByteOf(w, 2);
      zeros[at] := ByteOf(w, 3);
    }

    /** `mavlink_sha256_final_48`: the padding goes through the same update, whose effect on the size no longer
        matters. */
    method Final48() returns (result: Bytes)
      requires Valid() && SizeRight()
      modifies this, counter, saveBytes
      ensures IsSha256First48(old(message), result)
    {
      hide AfterBlocks, LowWord, Offset, Hashed, FourBytes, First48, FewestZeros;
      ghost var m, n := message, blocks;
      OffsetOf();
      WholeBlocks();
      PaddingFits(|m|, n);
      var offset := Offset(sz0);
      var dstart := (120 - offset - 1) % 64 + 1;
      var zeros := FillPadding(dstart);
      assert zeros[..dstart + 8] == Padding(Bits(|m|), dstart - 1);
      Update(zeros[..dstart + 8]);
      result := Digest(m, dstart - 1, if offset < 56 then n + 1 else n + 2);
    }

    lemma WholeBlocks()
      requires Valid()
      ensures 64 * blocks <= |message| < 64 * blocks + 64
    {
      hide AfterBlocks, LowWord;
    }

    /** The last lines of `mavlink_sha256_final_48`. */
    method Digest(ghost m: Bytes, ghost z: nat, ghost whole: nat) returns (result: Bytes)
      requires Valid() && message == m + Padding(Bits(|m|), z) && FewestZeros(|m|, z) && |message| == 64 * whole
      ensures IsSha256First48(m, result)
    {
      hide AfterBlocks, LowWord, First48, FewestZeros, Padding;
      result := First48(Value());
      assert blocks == whole;
    }
  }

  lemma LowAlways(low: nat, bits: nat, added: nat)
    requires low == LowWord(bits)
    ensures LowWord(low + LowWord(added)) == LowWord(bits + added)
  {
    var r := added % TWO32;
    var c := if low + r >= TWO32 then 1 else 0;
    assert bits == TWO32 * (bits / TWO32) + low && added == TWO32 * (added / TWO32) + r;
    DivModIs(low + r, TWO32, c, low + r - TWO32 * c);
    DivModIs(bits + added, TWO32, bits / TWO32 + added / TWO32 + c, low + r - TWO32 * c);
  }
}
