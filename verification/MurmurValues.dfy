/**
 One hash value published with the code, computed in the model: a note on the constants and on the reading of
 blocks and tails, which the equality of the two hashes alone would not pin down.
 */
module MurmurValues {
  import opened MurmurHash

  /** A key of thirty-one bytes: one block, and a tail that goes through every case. */
  const KEY: seq<Byte> :=
    [0xa9, 0xfe, 0x18, 0xa7, 0x0c, 0x90, 0xa2, 0x28, 0xd9, 0x92, 0x26, 0x16, 0xd7, 0x4b, 0x01, 0xf3,
     0xa4, 0xe5, 0xad, 0x0b, 0xcc, 0x25, 0xcb, 0xfc, 0x6b, 0x60, 0x30, 0x78, 0xa8, 0x12, 0xe0]

  const TAIL: seq<Byte> :=
    [0xa4, 0xe5, 0xad, 0x0b, 0xcc, 0x25, 0xcb, 0xfc, 0x6b, 0x60, 0x30, 0x78, 0xa8, 0x12, 0xe0]

  /** The mixing state after the block. */
  const MIXED := Mix(0xf44f89fcc4c9303b, 0x75ea587c88990567, 0xa6d169d5d1c8b8c5, 0x80cc6250302a4511)

  /** The tail bytes, sign-extended and in place in their words. */
  const LOW: seq<Word> :=
    [0xffffffffffffffa4, 0xffffffffffffe500, 0xffffffffffad0000, 0xb000000,
     0xffffffcc00000000, 0x250000000000, 0xffcb000000000000, 0xfc00000000000000]

  const HIGH: seq<Word> :=
    [0x6b, 0x6000, 0x300000, 0x78000000,
     0xffffffa800000000, 0x120000000000, 0xffe0000000000000]

  lemma OneBlock(o: Ops, data: seq<Byte>, m: Mix, k1: Word, k2: Word)
    requires 16 <= |data| < 32 && Block(data, 0) == k1 && Block(data, 8) == k2
    ensures Blocks(o, data, 0, m) == Bmix(o, m, k1, k2)
  {
    assert Blocks(o, data, 1, Bmix(o, m, k1, k2)) == Bmix(o, m, k1, k2);
  }

  lemma BlockWords()
    ensures Block(KEY, 0) == 0x28a2900ca718fea9 && Block(KEY, 8) == 0xf3014bd7162692d9
  {
  }

  lemma FirstRound()
    ensures Bmix(MACHINE, Start(MACHINE, SEED), 0x28a2900ca718fea9, 0xf3014bd7162692d9) == MIXED
  {
  }

  lemma BlockMixed()
    ensures Blocks(MACHINE, KEY, 0, Start(MACHINE, SEED)) == MIXED
  {
    BlockWords();
    FirstRound();
    OneBlock(MACHINE, KEY, Start(MACHINE, SEED), 0x28a2900ca718fea9, 0xf3014bd7162692d9);
  }

  /** `part` is what byte number `i` of the tail contributes. */
  lemma PartIs(i: nat, part: Word)
    requires i < 15 && ShiftBytes(SignExtend(TAIL[i]), i % 8) == part
    ensures Parts(TAIL)[i] == part
  {
  }

  lemma LowParts()
    ensures forall i :: 0 <= i < 4 ==> Parts(TAIL)[i] == LOW[i]
  {
    PartIs(0, 0xffffffffffffffa4);
    PartIs(1, 0xffffffffffffe500);
    PartIs(2, 0xffffffffffad0000);
    PartIs(3, 0xb000000);
  }

  lemma MiddleParts()
    ensures forall i :: 4 <= i < 8 ==> Parts(TAIL)[i] == LOW[i]
  {
    PartIs(4, 0xffffffcc00000000);
    PartIs(5, 0x250000000000);
    PartIs(6, 0xffcb000000000000);
    PartIs(7, 0xfc00000000000000);
  }

  lemma HighParts()
    ensures forall i :: 0 <= i < 7 ==> Parts(TAIL)[8 + i] == HIGH[i]
  {
    PartIs(8, 0x6b);
    PartIs(9, 0x6000);
    PartIs(10, 0x300000);
    PartIs(11, 0x78000000);
    PartIs(12, 0xffffffa800000000);
    PartIs(13, 0x120000000000);
    PartIs(14, 0xffe0000000000000);
  }

  lemma PartsAre()
    ensures Parts(TAIL) == LOW + HIGH
  {
    LowParts();
    MiddleParts();
    HighParts();
    forall i | 8 <= i < 15 ensures Parts(TAIL)[i] == (LOW + HIGH)[i] {
      assert Parts(TAIL)[8 + (i - 8)] == HIGH[i - 8];
    }
  }

  /** One case of the tail switch. */
  lemma FoldStep(parts: seq<Word>, lo: nat, hi: nat, k: Word, k': Word)
    requires lo < hi <= |parts| && k' == k ^ parts[hi - 1]
    ensures FoldDown(MACHINE.xor, parts, lo, hi, k) == FoldDown(MACHINE.xor, parts, lo, hi - 1, k')
  {
  }

  lemma FirstTailWord()
    ensures FoldDown(MACHINE.xor, LOW + HIGH, 0, 8, 0) == 0x3cb2533f4ad1aa4
  {
    var parts := LOW + HIGH;
    FoldStep(parts, 0, 8, 0x0, 0xfc00000000000000);
    FoldStep(parts, 0, 7, 0xfc00000000000000, 0x3cb000000000000);
    FoldStep(parts, 0, 6, 0x3cb000000000000, 0x3cb250000000000);
    FoldStep(parts, 0, 5, 0x3cb250000000000, 0xfc34dacc00000000);
    FoldStep(parts, 0, 4, 0xfc34dacc00000000, 0xfc34dacc0b000000);
    FoldStep(parts, 0, 3, 0xfc34dacc0b000000, 0x3cb2533f4ad0000);
    FoldStep(parts, 0, 2, 0x3cb2533f4ad0000, 0xfc34dacc0b52e500);
    FoldStep(parts, 0, 1, 0xfc34dacc0b52e500, 0x3cb2533f4ad1aa4);
  }

  lemma SecondTailWord()
    ensures FoldDown(MACHINE.xor, LOW + HIGH, 8, 15, 0) == 0x1feda87830606b
  {
    var parts := LOW + HIGH;
    FoldStep(parts, 8, 15, 0x0, 0xffe0000000000000);
    FoldStep(parts, 8, 14, 0xffe0000000000000, 0xffe0120000000000);
    FoldStep(parts, 8, 13, 0xffe0120000000000, 0x1feda800000000);
    FoldStep(parts, 8, 12, 0x1feda800000000, 0x1feda878000000);
    FoldStep(parts, 8, 11, 0x1feda878000000, 0x1feda878300000);
    FoldStep(parts, 8, 10, 0x1feda878300000, 0x1feda878306000);
    FoldStep(parts, 8, 9, 0x1feda878306000, 0x1feda87830606b);
  }

  lemma LastRounds()
    ensures Finish(MACHINE, Bmix(MACHINE, MIXED, 0x3cb2533f4ad1aa4, 0x1feda87830606b), 31) == 0x396388330324dd17
  {
    var after := Mix(0x82896f8d9fdd46bf, 0x7e4d26677e07c1bf, 0x4217112d9468b175, 0x83fdeb915ca1bceb);
    assert Bmix(MACHINE, MIXED, 0x3cb2533f4ad1aa4, 0x1feda87830606b) == after;
  }

  /** A hash put together from its block state and its two tail words. */
  lemma HashIs(o: Ops, data: seq<Byte>, m: Mix, k1: Word, k2: Word, h: Word)
    requires |data| < 0x8000_0000 && Blocks(o, data, 0, Start(o, SEED)) == m
    requires Finish(o, Bmix(o, m, k1, k2), |data| as Word) == h
    requires var tail := data[|data| / 16 * 16..];
      && tail != []
      && FoldDown(o.xor, Parts(tail), 0, if |tail| < 8 then |tail| else 8, 0) == k1
      && FoldDown(o.xor, Parts(tail), 8, |tail|, 0) == k2
    ensures Hash64(o, data, SEED) == h
  {
  }

  lemma KeyParts()
    ensures KEY[|KEY| / 16 * 16..] == TAIL && |KEY| as Word == 31
  {
  }

  lemma TailWords()
    ensures FoldDown(MACHINE.xor, Parts(TAIL), 0, 8, 0) == 0x3cb2533f4ad1aa4
    ensures FoldDown(MACHINE.xor, Parts(TAIL), 8, 15, 0) == 0x1feda87830606b
  {
    PartsAre();
    FirstTailWord();
    SecondTailWord();
  }

  lemma KnownHash64()
    ensures Hash64(MACHINE, KEY, SEED) == 0x396388330324dd17
  {
    KeyParts();
    BlockMixed();
    TailWords();
    LastRounds();
    HashIs(MACHINE, KEY, MIXED, 0x3cb2533f4ad1aa4, 0x1feda87830606b, 0x396388330324dd17);
  }

  /** The published hash of the key. */
  lemma KnownHash()
    ensures HashBytes(KEY) == 0x39638833
  {
    KnownHash64();
  }
}
