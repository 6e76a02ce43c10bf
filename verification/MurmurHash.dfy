/**
 MurmurHash3 as this client computes it: the 64-bit variant whose tail bytes are sign-extended, and the
 version specialised by hand to four-byte keys. Words are 64-bit vectors, so multiplication and addition
 wrap as they do in the code. The algorithms are written over a record of word operations; what is proved
 about loops, tails and the inlined copies of the mixing round holds whatever those operations compute.
 */
module MurmurHash {
  type Byte = bv8
  type Word = bv64

  const SEED: Word := 9001
  const C1: Word := 0x87c37b91114253d5
  const C2: Word := 0x4cf5ad432745937f
  const H1: Word := 0x9368e53c2f6af274
  const H2: Word := 0x586dcd208f7cd3fd

  /** The operations on words that the code uses. */
  datatype Ops = Ops(
    mul: (Word, Word) -> Word,
    add: (Word, Word) -> Word,
    xor: (Word, Word) -> Word,
    rot23: Word -> Word,
    rot41: Word -> Word,
    fmix: Word -> Word)

  function Mul(a: Word, b: Word): Word { a * b }

  function Add(a: Word, b: Word): Word { a + b }

  function Xor(a: Word, b: Word): Word { a ^ b }

  function Rotl23(x: Word): Word { (x << 23) | (x >> 41) }

  function Rotl41(x: Word): Word { (x << 41) | (x >> 23) }

  function Fmix(k: Word): Word {
    var k1 := (k ^ (k >> 33)) * 0xff51afd7ed558ccd;
    var k2 := (k1 ^ (k1 >> 33)) * 0xc4ceb9fe1a85ec53;
    k2 ^ (k2 >> 33)
  }

  const MACHINE := Ops(Mul, Add, Xor, Rotl23, Rotl41, Fmix)

  datatype Mix = Mix(h1: Word, h2: Word, c1: Word, c2: Word)

  /** int8_t widened to int64_t. */
  function SignExtend(b: Byte): Word {
    if b & 0x80 == 0 then b as Word else (b as Word) | 0xFFFFFFFFFFFFFF00
  }

  /** The mixing round. */
  function Bmix(o: Ops, m: Mix, k1: Word, k2: Word): Mix {
    var h1 := o.add(o.xor(m.h1, o.mul(o.rot23(o.mul(k1, m.c1)), m.c2)), m.h2);
    var h2 := o.add(o.xor(o.rot41(m.h2), o.mul(o.rot23(o.mul(k2, m.c2)), m.c1)), h1);
    Mix(o.add(o.mul(h1, 3), 0x52dce729), o.add(o.mul(h2, 3), 0x38495ab5),
        o.add(o.mul(m.c1, 5), 0x7b7d159c), o.add(o.mul(m.c2, 5), 0x6bce6396))
  }

  /** The finalisation, given the length. */
  function Finish(o: Ops, m: Mix, len: Word): Word {
    var h2 := o.xor(m.h2, len);
    var h1 := o.add(m.h1, h2);
    o.add(o.fmix(h1), o.fmix(o.add(h2, h1)))
  }

  // ------------------------------------------------------------------------------ the general hash

  /** Eight bytes as a little-endian word. */
  function Block(data: seq<Byte>, at: nat): Word
    requires at + 8 <= |data|
  {
    (data[at] as Word) | ((data[at + 1] as Word) << 8) | ((data[at + 2] as Word) << 16)
    | ((data[at + 3] as Word) << 24) | ((data[at + 4] as Word) << 32) | ((data[at + 5] as Word) << 40)
    | ((data[at + 6] as Word) << 48) | ((data[at + 7] as Word) << 56)
  }

  /** Byte number i of a block is the i-th byte read, counted from the low end. */
  lemma BlockBytes(data: seq<Byte>, at: nat)
    requires at + 8 <= |data|
    ensures Block(data, at) & 0xFF == data[at] as Word && (Block(data, at) >> 8) & 0xFF == data[at + 1] as Word
    ensures (Block(data, at) >> 16) & 0xFF == data[at + 2] as Word
    ensures (Block(data, at) >> 24) & 0xFF == data[at + 3] as Word
    ensures (Block(data, at) >> 32) & 0xFF == data[at + 4] as Word
    ensures (Block(data, at) >> 40) & 0xFF == data[at + 5] as Word
    ensures (Block(data, at) >> 48) & 0xFF == data[at + 6] as Word
    ensures Block(data, at) >> 56 == data[at + 7] as Word
  {
  }

  function Start(o: Ops, seed: Word): Mix {
    Mix(o.xor(H1, seed), o.xor(H2, seed), C1, C2)
  }

  /** The mixing state after the blocks from `i` on. */
  function Blocks(o: Ops, data: seq<Byte>, i: nat, m: Mix): Mix
    requires i <= |data| / 16
    decreases |data| / 16 - i
  {
    if i == |data| / 16 then m
    else Blocks(o, data, i + 1, Bmix(o, m, Block(data, 16 * i), Block(data, 16 * i + 8)))
  }

  /** A word moved up by whole bytes. */
  function ShiftBytes(x: Word, n: nat): Word
    requires n < 8
  {
    if n == 0 then x
    else if n == 1 then x << 8
    else if n == 2 then x << 16
    else if n == 3 then x << 24
    else if n == 4 then x << 32
    else if n == 5 then x << 40
    else if n == 6 then x << 48
    else x << 56
  }

  /** What each tail byte contributes to its word. */
  function Parts(tail: seq<Byte>): seq<Word> {
    seq(|tail|, i requires 0 <= i < |tail| => ShiftBytes(SignExtend(tail[i]), i % 8))
  }

  /** The fall-through cases of the tail switch for positions lo..hi-1, highest first. */
  function FoldDown<W>(f: (W, W) -> W, parts: seq<W>, lo: nat, hi: nat, k: W): W
    requires hi <= |parts|
    decreases hi
  {
    if hi <= lo then k else FoldDown(f, parts, lo, hi - 1, f(k, parts[hi - 1]))
  }

  function Tail(o: Ops, tail: seq<Byte>, m: Mix): Mix
    requires |tail| < 16
  {
    if tail == [] then m
    else
      var k2 := FoldDown(o.xor, Parts(tail), 8, |tail|, 0);
      var k1 := FoldDown(o.xor, Parts(tail), 0, if |tail| < 8 then |tail| else 8, 0);
      Bmix(o, m, k1, k2)
  }

  /** MurmurHash3_x64_64. Lengths are those of a 32-bit int. */
  function Hash64(o: Ops, data: seq<Byte>, seed: Word): Word
    requires |data| < 0x8000_0000
  {
    var m := Blocks(o, data, 0, Start(o, seed));
    Finish(o, Tail(o, data[|data| / 16 * 16..], m), |data| as Word)
  }

  /** hash(key, size): the upper half, as a number below two to the thirty-second. */
  function HashBytes(data: seq<Byte>): Word
    requires |data| < 0x8000_0000
  {
    Hash64(MACHINE, data, SEED) >> 32
  }

  // ------------------------------------------------------------------------------ the code itself

  method ComputeTailWord(o: Ops, tail: seq<Byte>, lo: nat, hi: nat) returns (k: Word)
    requires hi <= |tail|
    ensures k == FoldDown(o.xor, Parts(tail), lo, hi, 0)
  {
    k := 0;
    var j := hi;
    while j > lo
      invariant j <= hi && (lo < hi ==> lo <= j) && (hi <= lo ==> j == hi)
      invariant FoldDown(o.xor, Parts(tail), lo, j, k) == FoldDown(o.xor, Parts(tail), lo, hi, 0)
    {
      var part := ShiftBytes(SignExtend(tail[j - 1]), (j - 1) % 8);
      assert part == Parts(tail)[j - 1];
      k := o.xor(k, part);
      j := j - 1;
    }
  }

  /** The block loop with its copy of the mixing round written out. */
  method ComputeBlocks(o: Ops, data: seq<Byte>, seed: Word) returns (h1: Word, h2: Word, c1: Word, c2: Word)
    ensures Mix(h1, h2, c1, c2) == Blocks(o, data, 0, Start(o, seed))
  {
    h1, h2, c1, c2 := o.xor(H1, seed), o.xor(H2, seed), C1, C2;
    for i := 0 to |data| / 16
      invariant Blocks(o, data, i, Mix(h1, h2, c1, c2)) == Blocks(o, data, 0, Start(o, seed))
    {
      var k1, k2 := Block(data, 16 * i), Block(data, 16 * i + 8);
      k1 := o.mul(k1, c1);
      k1 := o.rot23(k1);
      k1 := o.mul(k1, c2);
      h1 := o.xor(h1, k1);
      h1 := o.add(h1, h2);
      h2 := o.rot41(h2);
      k2 := o.mul(k2, c2);
      k2 := o.rot23(k2);
      k2 := o.mul(k2, c1);
      h2 := o.xor(h2, k2);
      h2 := o.add(h2, h1);
      h1 := o.add(o.mul(h1, 3), 0x52dce729);
      h2 := o.add(o.mul(h2, 3), 0x38495ab5);
      c1 := o.add(o.mul(c1, 5), 0x7b7d159c);
      c2 := o.add(o.mul(c2, 5), 0x6bce6396);
    }
  }

  /** The tail with its copy of the mixing round written out. */
  method ComputeTail(o: Ops, tail: seq<Byte>, m: Mix) returns (h1: Word, h2: Word, c1: Word, c2: Word)
    requires |tail| < 16
    ensures Mix(h1, h2, c1, c2) == Tail(o, tail, m)
  {
    h1, h2, c1, c2 := m.h1, m.h2, m.c1, m.c2;
    var k2 := ComputeTailWord(o, tail, 8, |tail|);
    var k1 := ComputeTailWord(o, tail, 0, if |tail| < 8 then |tail| else 8);
    if |tail| != 0 {
      k1 := o.mul(k1, c1);
      k1 := o.rot23(k1);
      k1 := o.mul(k1, c2);
      h1 := o.xor(h1, k1);
      h1 := o.add(h1, h2);
      h2 := o.rot41(h2);
      k2 := o.mul(k2, c2);
      k2 := o.rot23(k2);
      k2 := o.mul(k2, c1);
      h2 := o.xor(h2, k2);
      h2 := o.add(h2, h1);
      h1 := o.add(o.mul(h1, 3), 0x52dce729);
      h2 := o.add(o.mul(h2, 3), 0x38495ab5);
      c1 := o.add(o.mul(c1, 5), 0x7b7d159c);
      c2 := o.add(o.mul(c2, 5), 0x6bce6396);
    }
  }

  /** The general hash with the finalisation written out. */
  method ComputeHash(o: Ops, data: seq<Byte>, seed: Word) returns (h1: Word)
    requires |data| < 0x8000_0000
    ensures h1 == Hash64(o, data, seed)
  {
    var h2, c1, c2;
    h1, h2, c1, c2 := ComputeBlocks(o, data, seed);
    h1, h2, c1, c2 := ComputeTail(o, data[|data| / 16 * 16..], Mix(h1, h2, c1, c2));
    h2 := o.xor(h2, |data| as Word);
    h1 := o.add(h1, h2);
    h2 := o.add(h2, h1);
    h1 := o.fmix(h1);
    h2 := o.fmix(h2);
    h1 := o.add(h1, h2);
  }

  // -------------------------------------------------------------------------- the specialised hash

  /** The four bytes of an int32_t, lowest first. */
  function Bytes(key: bv32): seq<Byte> {
    [(key & 0xFF) as Byte, ((key >> 8) & 0xFF) as Byte, ((key >> 16) & 0xFF) as Byte, ((key >> 24) & 0xFF) as Byte]
  }

  /** hash(int32_t) from its sign-extended, shifted bytes to its last shift, statement by statement. */
  function Inlined(o: Ops, w0: Word, w1: Word, w2: Word, w3: Word): Word {
    var h1 := o.xor(0x9368e53c2f6af274, 9001);
    var h2 := o.xor(0x586dcd208f7cd3fd, 9001);
    var c1: Word := 0x87c37b91114253d5;
    var c2: Word := 0x4cf5ad432745937f;
    var k1: Word := 0;
    var k2: Word := 0;
    var k1 := o.xor(k1, w3);
    var k1 := o.xor(k1, w2);
    var k1 := o.xor(k1, w1);
    var k1 := o.xor(k1, w0);
    var k1 := o.mul(k1, c1);
    var k1 := o.rot23(k1);
    var k1 := o.mul(k1, c2);
    var h1 := o.xor(h1, k1);
    var h1 := o.add(h1, h2);
    var h2 := o.rot41(h2);
    var k2 := o.mul(k2, c2);
    var k2 := o.rot23(k2);
    var k2 := o.mul(k2, c1);
    var h2 := o.xor(h2, k2);
    var h2 := o.add(h2, h1);
    var h1 := o.add(o.mul(h1, 3), 0x52dce729);
    var h2 := o.add(o.mul(h2, 3), 0x38495ab5);
    var h2 := o.xor(h2, 4);
    var h1 := o.add(h1, h2);
    var h2 := o.add(h2, h1);
    var h1 := o.fmix(h1);
    var h2 := o.fmix(h2);
    o.add(h1, h2)
  }

  function HashFour(o: Ops, b: seq<Byte>): Word
    requires |b| == 4
  {
    Inlined(o, SignExtend(b[0]), SignExtend(b[1]) << 8, SignExtend(b[2]) << 16, SignExtend(b[3]) << 24)
  }

  function HashInt64(o: Ops, key: bv32): Word {
    HashFour(o, Bytes(key))
  }

  /** hash(int32_t). */
  function HashInt(key: bv32): Word {
    HashInt64(MACHINE, key) >> 32
  }

  /** The inlined round and finalisation are those of the general hash. */
  lemma InlinedIs(o: Ops, w0: Word, w1: Word, w2: Word, w3: Word)
    ensures var k1 := o.xor(o.xor(o.xor(o.xor(0, w3), w2), w1), w0);
      Inlined(o, w0, w1, w2, w3) == Finish(o, Bmix(o, Start(o, SEED), k1, 0), 4)
  {
  }

  lemma FoldDownFour<W>(f: (W, W) -> W, p: seq<W>, k: W)
    requires |p| == 4
    ensures FoldDown(f, p, 0, 4, k) == f(f(f(f(k, p[3]), p[2]), p[1]), p[0])
  {
    var k3 := f(k, p[3]);
    var k2 := f(k3, p[2]);
    assert FoldDown(f, p, 0, 4, k) == FoldDown(f, p, 0, 3, k3) == FoldDown(f, p, 0, 2, k2);
  }

  /** The tail of a four-byte key is the key word of the inlined code. */
  lemma TailOfFour(f: (Word, Word) -> Word, b: seq<Byte>)
    requires |b| == 4
    ensures FoldDown(f, Parts(b), 0, 4, 0)
         == f(f(f(f(0, SignExtend(b[3]) << 24), SignExtend(b[2]) << 16), SignExtend(b[1]) << 8), SignExtend(b[0]))
    ensures FoldDown(f, Parts(b), 8, 4, 0) == 0
  {
    FoldDownFour(f, Parts(b), 0);
  }

  /** The general hash of four bytes, its tail words given. */
  lemma HashOfFour(o: Ops, b: seq<Byte>)
    requires |b| == 4
    ensures Hash64(o, b, SEED)
         == Finish(o, Bmix(o, Start(o, SEED), FoldDown(o.xor, Parts(b), 0, 4, 0), FoldDown(o.xor, Parts(b), 8, 4, 0)), 4)
  {
    assert b[|b| / 16 * 16..] == b;
  }

  lemma FourBytesHashAlike(o: Ops, b: seq<Byte>)
    requires |b| == 4
    ensures HashFour(o, b) == Hash64(o, b, SEED)
  {
    HashOfFour(o, b);
    TailOfFour(o.xor, b);
    InlinedIs(o, SignExtend(b[0]), SignExtend(b[1]) << 8, SignExtend(b[2]) << 16, SignExtend(b[3]) << 24);
  }

  /** For every key, and whatever the word operations are, the code specialised to four bytes computes the
      general hash of the key's little-endian bytes. */
  lemma SpecialisedIsGeneral64(o: Ops, key: bv32)
    ensures HashInt64(o, key) == Hash64(o, Bytes(key), SEED)
  {
    FourBytesHashAlike(o, Bytes(key));
  }

  lemma SpecialisedIsGeneral(key: bv32)
    ensures HashInt(key) == HashBytes(Bytes(key))
  {
    SpecialisedIsGeneral64(MACHINE, key);
  }
}
