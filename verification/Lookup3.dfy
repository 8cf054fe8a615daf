/** memcached-1.4.5/hash.c: Bob Jenkins' lookup3 on a little-endian machine. Depending on the alignment of
    the key it reads words, half words or bytes; all three must give the same hash. */
module Lookup3 {
  datatype State = State(a: bv32, b: bv32, c: bv32)

  function Add(x: bv32, y: bv32): bv32 { x + y }
  function Sub(x: bv32, y: bv32): bv32 { x - y }
  function Xor(x: bv32, y: bv32): bv32 { x ^ y }

  function Rot(x: bv32, k: bv6): bv32
    requires 0 < k < 32
  {
    (x << k) ^ (x >> (32 - k))
  }

  function Bit(x: bv32, i: bv6): bv32
    requires i < 32
  {
    (x >> i) & 1
  }

  lemma RotLow(x: bv32, k: bv6, i: bv6)
    requires 0 < k < 32 && i < 32 && i + k < 32
    ensures (((x << k) ^ (x >> (32 - k))) >> (i + k)) & 1 == (x >> i) & 1
  {
  }

  lemma RotHigh(x: bv32, k: bv6, i: bv6)
    requires 0 < k < 32 && i < 32 && i + k >= 32
    ensures (((x << k) ^ (x >> (32 - k))) >> (i + k - 32)) & 1 == (x >> i) & 1
  {
  }

  lemma LowBit(x: bv32, k: bv6, i: bv6)
    requires 0 < k < 32 && i < 32 && i + k < 32
    ensures Bit(Rot(x, k), i + k) == Bit(x, i)
  {
    RotLow(x, k, i);
  }

  lemma HighBit(x: bv32, k: bv6, i: bv6)
    requires 0 < k < 32 && i < 32 && i + k >= 32
    ensures Bit(Rot(x, k), i + k - 32) == Bit(x, i)
  {
    RotHigh(x, k, i);
  }

  lemma Round32(i: bv6)
    ensures i % 32 == if i < 32 then i else i - 32
  {
  }

  /** The macro rot turns the bits of a word round by `k` places. */
  lemma RotBit(x: bv32, k: bv6, i: bv6)
    requires 0 < k < 32 && i < 32
    ensures Bit(Rot(x, k), (i + k) % 32) == Bit(x, i)
  {
    hide Rot, Bit;
    Round32(i + k);
    if i + k < 32 { LowBit(x, k, i); } else { HighBit(x, k, i); }
  }

  // The solver decides facts about bare operators at sight, and by congruence what they mean for Add, Sub and Xor.

  lemma CancelSum(x: bv32, y: bv32)
    ensures Sub(x + y, y) == x
  {
  }

  lemma CancelDifference(x: bv32, y: bv32)
    ensures Add(x - y, y) == x
  {
  }

  lemma SubAdd(x: bv32, y: bv32)
    ensures Add(Sub(x, y), y) == x
  {
    CancelDifference(x, y);
    assert Sub(x, y) == x - y by { hide Add; }
    hide Add, Sub;
  }

  lemma AddSub(x: bv32, y: bv32)
    ensures Sub(Add(x, y), y) == x
  {
    CancelSum(x, y);
    assert Add(x, y) == x + y by { hide Sub; }
    hide Add, Sub;
  }

  lemma Cancel(x: bv32, y: bv32)
    ensures Add(Sub(x, y), y) == x && Sub(Add(x, y), y) == x
  {
    hide Add, Sub;
    SubAdd(x, y);
    AddSub(x, y);
  }

  lemma XorCancel(x: bv32, y: bv32)
    ensures Xor(Xor(x, y), y) == x
  {
  }

  // ---------------------------------------------------------------- mix

  /** The macro mix. */
  function Mix(s: State): State
  {
    var a1 := Xor(Sub(s.a, s.c), Rot(s.c, 4));
    var c1 := Add(s.c, s.b);
    var b1 := Xor(Sub(s.b, a1), Rot(a1, 6));
    var a2 := Add(a1, c1);
    var c2 := Xor(Sub(c1, b1), Rot(b1, 8));
    var b2 := Add(b1, a2);
    var a3 := Xor(Sub(a2, c2), Rot(c2, 16));
    var c3 := Add(c2, b2);
    var b3 := Xor(Sub(b2, a3), Rot(a3, 19));
    var a4 := Add(a3, c3);
    var c4 := Xor(Sub(c3, b3), Rot(b3, 4));
    var b4 := Add(b3, a4);
    State(a4, b4, c4)
  }

  /** One line of mix, after which the words change places for the next line. */
  function Step(s: State, k: bv6): State
    requires 0 < k < 32
  {
    State(s.b, Add(s.c, s.b), Xor(Sub(s.a, s.c), Rot(s.c, k)))
  }

  function Unstep(s: State, k: bv6): State
    requires 0 < k < 32
  {
    var c := Sub(s.b, s.a);
    State(Add(Xor(s.c, Rot(c, k)), c), s.a, c)
  }

  lemma StepInverse(s: State, k: bv6)
    requires 0 < k < 32
    ensures Unstep(Step(s, k), k) == s && Step(Unstep(s, k), k) == s
  {
    hide Rot, Add, Sub, Xor;
    Cancel(s.c, s.b);
    XorCancel(Sub(s.a, s.c), Rot(s.c, k));
    Cancel(s.a, s.c);
    var c := Sub(s.b, s.a);
    Cancel(s.b, s.a);
    XorCancel(s.c, Rot(c, k));
    Cancel(Xor(s.c, Rot(c, k)), c);
  }

  function Unmix(s: State): State { Unstep(Unstep(Unstep(Unstep(Unstep(Unstep(s, 4), 19), 16), 8), 6), 4) }

  lemma MixIsSteps(s: State)
    ensures Mix(s) == Step(Step(Step(Step(Step(Step(s, 4), 6), 8), 16), 19), 4)
  {
    hide Rot, Add, Sub, Xor;
  }

  /** mix loses nothing: it is a bijection on the three words. */
  lemma MixIsBijection(s: State)
    ensures Unmix(Mix(s)) == s && Mix(Unmix(s)) == s
  {
    hide Step, Unstep, Mix;
    MixIsSteps(s);
    var m1 := Step(s, 4);
    var m2 := Step(m1, 6);
    var m3 := Step(m2, 8);
    var m4 := Step(m3, 16);
    var m5 := Step(m4, 19);
    StepInverse(s, 4); StepInverse(m1, 6); StepInverse(m2, 8); StepInverse(m3, 16); StepInverse(m4, 19);
    StepInverse(m5, 4);
    MixIsSteps(Unmix(s));
    var u1 := Unstep(s, 4);
    var u2 := Unstep(u1, 19);
    var u3 := Unstep(u2, 16);
    var u4 := Unstep(u3, 8);
    var u5 := Unstep(u4, 6);
    StepInverse(u5, 4); StepInverse(u4, 6); StepInverse(u3, 8); StepInverse(u2, 16); StepInverse(u1, 19);
  }

  // ---------------------------------------------------------------- final

  /** The macro final. */
  function Final(s: State): State
  {
    var c1 := Sub(Xor(s.c, s.b), Rot(s.b, 14));
    var a1 := Sub(Xor(s.a, c1), Rot(c1, 11));
    var b1 := Sub(Xor(s.b, a1), Rot(a1, 25));
    var c2 := Sub(Xor(c1, b1), Rot(b1, 16));
    var a2 := Sub(Xor(a1, c2), Rot(c2, 4));
    var b2 := Sub(Xor(b1, a2), Rot(a2, 14));
    var c3 := Sub(Xor(c2, b2), Rot(b2, 24));
    State(a2, b2, c3)
  }

  /** One line of final, after which the words change places for the next line. */
  function FinalStep(s: State, k: bv6): State
    requires 0 < k < 32
  {
    State(s.b, Sub(Xor(s.c, s.b), Rot(s.b, k)), s.a)
  }

  function UnfinalStep(s: State, k: bv6): State
    requires 0 < k < 32
  {
    State(s.c, s.a, Xor(Add(s.b, Rot(s.a, k)), s.a))
  }

  lemma FinalStepInverse(s: State, k: bv6)
    requires 0 < k < 32
    ensures UnfinalStep(FinalStep(s, k), k) == s && FinalStep(UnfinalStep(s, k), k) == s
  {
    hide Rot, Add, Sub, Xor;
    Cancel(Xor(s.c, s.b), Rot(s.b, k));
    XorCancel(s.c, s.b);
    XorCancel(Add(s.b, Rot(s.a, k)), s.a);
    Cancel(s.b, Rot(s.a, k));
  }

  function FinalSteps(s: State): State
  {
    FinalStep(FinalStep(FinalStep(FinalStep(FinalStep(FinalStep(FinalStep(s, 14), 11), 25), 16), 4), 14), 24)
  }

  /** Seven lines: the words have gone round twice and one place further. */
  lemma FinalIsSteps(s: State)
    ensures var t := FinalSteps(s); Final(s) == State(t.c, t.a, t.b)
  {
    hide Rot, Add, Sub, Xor;
  }

  function Unfinal(s: State): State
  {
    var t := State(s.b, s.c, s.a);
    var u := UnfinalStep(UnfinalStep(UnfinalStep(UnfinalStep(t, 24), 14), 4), 16);
    UnfinalStep(UnfinalStep(UnfinalStep(u, 25), 11), 14)
  }

  /** final is a bijection on the three words. */
  lemma FinalIsBijection(s: State)
    ensures Unfinal(Final(s)) == s && Final(Unfinal(s)) == s
  {
    hide FinalStep, UnfinalStep, Final;
    FinalIsSteps(s);
    var f1 := FinalStep(s, 14);
    var f2 := FinalStep(f1, 11);
    var f3 := FinalStep(f2, 25);
    var f4 := FinalStep(f3, 16);
    var f5 := FinalStep(f4, 4);
    var f6 := FinalStep(f5, 14);
    FinalStepInverse(s, 14); FinalStepInverse(f1, 11); FinalStepInverse(f2, 25); FinalStepInverse(f3, 16);
    FinalStepInverse(f4, 4); FinalStepInverse(f5, 14); FinalStepInverse(f6, 24);
    FinalIsSteps(Unfinal(s));
    var u0 := State(s.b, s.c, s.a);
    var u1 := UnfinalStep(u0, 24);
    var u2 := UnfinalStep(u1, 14);
    var u3 := UnfinalStep(u2, 4);
    var u4 := UnfinalStep(u3, 16);
    var u5 := UnfinalStep(u4, 25);
    var u6 := UnfinalStep(u5, 11);
    FinalStepInverse(u0, 24); FinalStepInverse(u1, 14); FinalStepInverse(u2, 4); FinalStepInverse(u3, 16);
    FinalStepInverse(u4, 25); FinalStepInverse(u5, 11); FinalStepInverse(u6, 14);
  }

  // ---------------------------------------------------------------- sums

  lemma SumAssoc(x: bv32, y: bv32, z: bv32)
    ensures Add(x + y, z) == Add(x, y + z)
  {
  }

  lemma AddAssoc(x: bv32, y: bv32, z: bv32)
    ensures Add(Add(x, y), z) == Add(x, Add(y, z))
  {
    SumAssoc(x, y, z);
    assert Add(x, y) == x + y && Add(y, z) == y + z;
    hide Add;
  }

  lemma AddComm(x: bv32, y: bv32)
    ensures Add(x, y) == Add(y, x)
  {
  }

  lemma AddZero(x: bv32)
    ensures Add(x, 0) == x
  {
  }

  // ---------------------------------------------------------------- reading the key

  function Wide(x: bv8): bv32 { x as bv32 }
  function Shl(x: bv32, k: bv8): bv32
    requires k < 32
  {
    x << k
  }
  function And(x: bv32, mask: bv32): bv32 { x & mask }

  /** A little-endian word. */
  function Word(b0: bv8, b1: bv8, b2: bv8, b3: bv8): bv32
  {
    Add(Add(Add(Wide(b0), Shl(Wide(b1), 8)), Shl(Wide(b2), 16)), Shl(Wide(b3), 24))
  }

  lemma NoByte(k: bv8)
    requires k < 32
    ensures Shl(Wide(0), k) == 0
  {
  }

  /** Adding the bytes from the highest down adds the word. */
  lemma FourBytes(x: bv32, b0: bv8, b1: bv8, b2: bv8, b3: bv8)
    ensures Add(Add(Add(Add(x, Shl(Wide(b3), 24)), Shl(Wide(b2), 16)), Shl(Wide(b1), 8)), Wide(b0)) ==
            Add(x, Word(b0, b1, b2, b3))
  {
    hide Add, Shl, Wide;
    var w0, w1, w2, w3 := Wide(b0), Shl(Wide(b1), 8), Shl(Wide(b2), 16), Shl(Wide(b3), 24);
    AddAssoc(Add(Add(x, w3), w2), w1, w0);
    AddAssoc(Add(x, w3), w2, Add(w1, w0));
    AddAssoc(x, w3, Add(w2, Add(w1, w0)));
    AddComm(w1, w0);
    AddComm(w2, Add(w0, w1));
    AddComm(w3, Add(Add(w0, w1), w2));
  }

  lemma ThreeBytes(x: bv32, b0: bv8, b1: bv8, b2: bv8)
    ensures Add(Add(Add(x, Shl(Wide(b2), 16)), Shl(Wide(b1), 8)), Wide(b0)) == Add(x, Word(b0, b1, b2, 0))
  {
    hide Add, Shl, Wide;
    FourBytes(x, b0, b1, b2, 0);
    NoByte(24);
    AddZero(x);
  }

  lemma TwoBytes(x: bv32, b0: bv8, b1: bv8)
    ensures Add(Add(x, Shl(Wide(b1), 8)), Wide(b0)) == Add(x, Word(b0, b1, 0, 0))
  {
    hide Add, Shl, Wide;
    ThreeBytes(x, b0, b1, 0);
    NoByte(16);
    AddZero(x);
  }

  lemma OneByte(x: bv32, b0: bv8)
    ensures Add(x, Wide(b0)) == Add(x, Word(b0, 0, 0, 0))
  {
    hide Add, Shl, Wide;
    TwoBytes(x, b0, 0);
    NoByte(8);
    AddZero(x);
  }

  lemma NoBytes(x: bv32)
    ensures Add(x, Word(0, 0, 0, 0)) == x
  {
    hide Add, Shl, Wide;
    NoByte(8);
    NoByte(16);
    NoByte(24);
    AddZero(Wide(0));
    WideZero();
    AddZero(x);
  }

  lemma WideZero()
    ensures Wide(0) == 0
  {
  }

  /** A 16-bit load, widened. */
  function Half(b0: bv8, b1: bv8): bv32 { Add(Wide(b0), Shl(Wide(b1), 8)) }

  lemma ShlIs(x: bv32)
    ensures Shl(x, 16) == x << 16
  {
  }

  lemma BareHalf(b2: bv8, b3: bv8)
    ensures Add(((b2 as bv32) + ((b3 as bv32) << 8)) << 16, 0) == ((b2 as bv32) << 16) + ((b3 as bv32) << 24)
  {
  }

  lemma BareSum(b2: bv8, b3: bv8)
    ensures Add((b2 as bv32) << 16, (b3 as bv32) << 24) == ((b2 as bv32) << 16) + ((b3 as bv32) << 24)
  {
  }

  lemma HighHalf(b2: bv8, b3: bv8)
    ensures Shl(Half(b2, b3), 16) == Add(Shl(Wide(b2), 16), Shl(Wide(b3), 24))
  {
    hide Add, Shl, Wide;
    Shifted(b2);
    Shifted(b3);
    BareTwo(b2, b3);
    ShlIs((b2 as bv32) + ((b3 as bv32) << 8));
    BareHalf(b2, b3);
    AddZero(((b2 as bv32) + ((b3 as bv32) << 8)) << 16);
    BareSum(b2, b3);
  }

  lemma TwoHalves(b0: bv8, b1: bv8, b2: bv8, b3: bv8)
    ensures Add(Half(b0, b1), Shl(Half(b2, b3), 16)) == Word(b0, b1, b2, b3)
  {
    HighHalf(b2, b3);
    hide Add, Shl, Wide;
    AddAssoc(Add(Wide(b0), Shl(Wide(b1), 8)), Shl(Wide(b2), 16), Shl(Wide(b3), 24));
  }

  // Words as sums of bare operators, where masking is decided at sight.

  lemma Shifted(b: bv8)
    ensures Wide(b) == b as bv32 && Shl(Wide(b), 8) == (b as bv32) << 8
    ensures Shl(Wide(b), 16) == (b as bv32) << 16 && Shl(Wide(b), 24) == (b as bv32) << 24
  {
  }

  lemma BareTwo(b0: bv8, b1: bv8)
    ensures Add(b0 as bv32, (b1 as bv32) << 8) == (b0 as bv32) + ((b1 as bv32) << 8)
  {
  }

  lemma BareThree(b0: bv8, b1: bv8, b2: bv8)
    ensures Add((b0 as bv32) + ((b1 as bv32) << 8), (b2 as bv32) << 16) ==
            (b0 as bv32) + ((b1 as bv32) << 8) + ((b2 as bv32) << 16)
  {
  }

  lemma BareFour(b0: bv8, b1: bv8, b2: bv8, b3: bv8)
    ensures Add((b0 as bv32) + ((b1 as bv32) << 8) + ((b2 as bv32) << 16), (b3 as bv32) << 24) ==
            (b0 as bv32) + ((b1 as bv32) << 8) + ((b2 as bv32) << 16) + ((b3 as bv32) << 24)
  {
  }

  lemma BareMasks(b0: bv8, b1: bv8, b2: bv8, b3: bv8)
    ensures And((b0 as bv32) + ((b1 as bv32) << 8) + ((b2 as bv32) << 16) + ((b3 as bv32) << 24), 0xffffff) ==
            (b0 as bv32) + ((b1 as bv32) << 8) + ((b2 as bv32) << 16)
    ensures And((b0 as bv32) + ((b1 as bv32) << 8) + ((b2 as bv32) << 16) + ((b3 as bv32) << 24), 0xffff) ==
            (b0 as bv32) + ((b1 as bv32) << 8)
    ensures And((b0 as bv32) + ((b1 as bv32) << 8) + ((b2 as bv32) << 16) + ((b3 as bv32) << 24), 0xff) == b0 as bv32
  {
  }

  /** Masking a word leaves the word of its low bytes. */
  lemma Masks(b0: bv8, b1: bv8, b2: bv8, b3: bv8)
    ensures And(Word(b0, b1, b2, b3), 0xffffff) == Word(b0, b1, b2, 0)
    ensures And(Word(b0, b1, b2, b3), 0xffff) == Word(b0, b1, 0, 0)
    ensures And(Word(b0, b1, b2, b3), 0xff) == Word(b0, 0, 0, 0)
  {
    hide Add, Shl, Wide, And;
    Shifted(b0); Shifted(b1); Shifted(b2); Shifted(b3);
    BareTwo(b0, b1); BareThree(b0, b1, b2); BareFour(b0, b1, b2, b3);
    BareMasks(b0, b1, b2, b3);
    NoByte(8); NoByte(16); NoByte(24);
    AddZero(Wide(b0));
    AddZero(Add(Wide(b0), Shl(Wide(b1), 8)));
    AddZero(Add(Add(Wide(b0), Shl(Wide(b1), 8)), Shl(Wide(b2), 16)));
  }

  // ---------------------------------------------------------------- the hash of a byte sequence

  function WordAt(m: seq<bv8>, i: nat): bv32
    requires i + 4 <= |m|
  {
    Word(m[i], m[i + 1], m[i + 2], m[i + 3])
  }

  function HalfAt(m: seq<bv8>, i: nat): bv32
    requires i + 2 <= |m|
  {
    Half(m[i], m[i + 1])
  }

  /** Adds a block of twelve bytes, word by word. */
  function AddBlock(s: State, block: seq<bv8>): State
    requires |block| == 12
  {
    State(Add(s.a, WordAt(block, 0)), Add(s.b, WordAt(block, 4)), Add(s.c, WordAt(block, 8)))
  }

  function Pad(key: seq<bv8>): (block: seq<bv8>)
    requires |key| <= 12
    ensures |block| == 12
  {
    key + seq(12 - |key|, i => 0)
  }

  /** Blocks of twelve bytes are mixed in; the last one, filled up with zeros, is only added. */
  function Absorb(s: State, key: seq<bv8>): State
    decreases |key|
  {
    if |key| > 12 then Absorb(Mix(AddBlock(s, key[..12])), key[12..]) else AddBlock(s, Pad(key))
  }

  function Seed(length: nat, initval: bv32): bv32
  {
    Add(Add(0xdeadbeef, (length % 0x1_0000_0000) as bv32), initval)
  }

  /** What all three ways of reading the key compute: a function of the key's bytes alone. */
  function Hash(key: seq<bv8>, initval: bv32): bv32
  {
    var c := Seed(|key|, initval);
    if key == [] then c else Final(Absorb(State(c, c, c), key)).c
  }

  /** The key as far as it is not yet mixed in; `mem` is the memory from the key on. */
  function Rest(mem: seq<bv8>, off: nat, n: nat): seq<bv8>
    requires off + n <= |mem|
  {
    mem[off..off + n]
  }

  lemma AbsorbBlock(mem: seq<bv8>, off: nat, n: nat, s: State)
    requires off + n <= |mem| && n > 12
    ensures Absorb(s, Rest(mem, off, n)) ==
            Absorb(Mix(State(Add(s.a, WordAt(mem, off)), Add(s.b, WordAt(mem, off + 4)),
                             Add(s.c, WordAt(mem, off + 8)))),
                   Rest(mem, off + 12, n - 12))
  {
    hide Add, Word, Mix;
    assert Rest(mem, off, n)[12..] == Rest(mem, off + 12, n - 12);
  }

  /** The words of the padded last block. */
  lemma LastBlock(mem: seq<bv8>, off: nat, n: nat, s: State)
    requires off + n <= |mem| && 0 < n <= 12
    ensures Absorb(s, Rest(mem, off, n)) ==
            State(Add(s.a, Tail(mem, off, n)), Add(s.b, Tail(mem, off + 4, n - 4)), Add(s.c, Tail(mem, off + 8, n - 8)))
  {
    hide Add, Word;
    var p := Pad(Rest(mem, off, n));
    forall i | 0 <= i < 12 ensures p[i] == ByteOr0(mem, off + i, n - i) {}
  }

  function ByteOr0(mem: seq<bv8>, i: nat, n: int): bv8
    requires i + n <= |mem|
  {
    if n > 0 then mem[i] else 0
  }

  /** The word of the first `n` bytes from `i` on, at most four, and zeros. */
  function Tail(mem: seq<bv8>, i: nat, n: int): bv32
    requires i + n <= |mem|
  {
    Word(ByteOr0(mem, i, n), ByteOr0(mem, i + 1, n - 1), ByteOr0(mem, i + 2, n - 2), ByteOr0(mem, i + 3, n - 3))
  }

  // ---------------------------------------------------------------- one word of the last block, three ways

  /** Whole words, masked; the word read may reach past the key's end */
  method TailByWord(x: bv32, mem: seq<bv8>, i: nat, n: int) returns (y: bv32)
    requires i + n <= |mem| && (n > 0 ==> i + 4 <= |mem|)
    ensures y == Add(x, Tail(mem, i, n))
  {
    hide Add, Word, And;
    if n >= 4 {
      y := Add(x, WordAt(mem, i));
    } else if n == 3 {
      Masks(mem[i], mem[i + 1], mem[i + 2], mem[i + 3]);
      y := Add(x, And(WordAt(mem, i), 0xffffff));
    } else if n == 2 {
      Masks(mem[i], mem[i + 1], mem[i + 2], mem[i + 3]);
      y := Add(x, And(WordAt(mem, i), 0xffff));
    } else if n == 1 {
      Masks(mem[i], mem[i + 1], mem[i + 2], mem[i + 3]);
      y := Add(x, And(WordAt(mem, i), 0xff));
    } else {
      NoBytes(x);
      y := x;
    }
  }

  /** Half words, and a byte for what is left over */
  method TailByHalf(x: bv32, mem: seq<bv8>, i: nat, n: int) returns (y: bv32)
    requires i + n <= |mem|
    ensures y == Add(x, Tail(mem, i, n))
  {
    hide Add, Word, Shl, Wide;
    if n >= 4 {
      TwoHalves(mem[i], mem[i + 1], mem[i + 2], mem[i + 3]);
      y := Add(x, Add(HalfAt(mem, i), Shl(HalfAt(mem, i + 2), 16)));
    } else if n == 3 {
      HalfAndByte(x, mem[i], mem[i + 1], mem[i + 2]);
      y := Add(x, Shl(Wide(mem[i + 2]), 16));
      y := Add(y, HalfAt(mem, i));
    } else if n == 2 {
      JustHalf(mem[i], mem[i + 1]);
      y := Add(x, HalfAt(mem, i));
    } else if n == 1 {
      OneByte(x, mem[i]);
      y := Add(x, Wide(mem[i]));
    } else {
      NoBytes(x);
      y := x;
    }
  }

  lemma JustHalf(b0: bv8, b1: bv8)
    ensures Half(b0, b1) == Word(b0, b1, 0, 0)
  {
    hide Add, Shl, Wide;
    NoByte(16);
    NoByte(24);
    AddZero(Half(b0, b1));
  }

  lemma HalfAndByte(x: bv32, b0: bv8, b1: bv8, b2: bv8)
    ensures Add(Add(x, Shl(Wide(b2), 16)), Half(b0, b1)) == Add(x, Word(b0, b1, b2, 0))
  {
    hide Add, Shl, Wide;
    var s2 := Shl(Wide(b2), 16);
    AddAssoc(x, s2, Half(b0, b1));
    AddComm(s2, Half(b0, b1));
    NoByte(24);
    AddZero(Add(Half(b0, b1), s2));
  }

  /** Bytes, from the highest down */
  method TailByByte(x: bv32, mem: seq<bv8>, i: nat, n: int) returns (y: bv32)
    requires i + n <= |mem|
    ensures y == Add(x, Tail(mem, i, n))
  {
    hide Add, Word, Shl, Wide;
    y := x;
    if n >= 4 { y := Add(y, Shl(Wide(mem[i + 3]), 24)); }
    if n >= 3 { y := Add(y, Shl(Wide(mem[i + 2]), 16)); }
    if n >= 2 { y := Add(y, Shl(Wide(mem[i + 1]), 8)); }
    if n >= 1 { y := Add(y, Wide(mem[i])); }
    if n >= 4 { FourBytes(x, mem[i], mem[i + 1], mem[i + 2], mem[i + 3]); }
    else if n == 3 { ThreeBytes(x, mem[i], mem[i + 1], mem[i + 2]); }
    else if n == 2 { TwoBytes(x, mem[i], mem[i + 1]); }
    else if n == 1 { OneByte(x, mem[i]); }
    else { NoBytes(x); }
  }

  // ---------------------------------------------------------------- hash()

  /** The path for a key on a word boundary: up to three bytes of memory after the key are read and masked off */
  method HashByWord(ghost address: nat, mem: seq<bv8>, length: nat, initval: bv32) returns (h: bv32)
    requires address % 4 == 0 && length <= |mem| && |mem| % 4 == 0
    ensures h == Hash(mem[..length], initval)
  {
    hide Add, Mix, Final, WordAt, Absorb, Tail, Seed;
    var c0 := Seed(length, initval);
    var s := State(c0, c0, c0);
    var n: int := length;
    var off := 0;
    ghost var key, blocks, words := Rest(mem, 0, length), 0, |mem| / 4;
    assert |mem| == 4 * words;
    while n > 12
      invariant 0 <= n && n + off == length && off == 12 * blocks
      invariant (length > 0 ==> n > 0) && (length == 0 ==> s.c == c0)
      invariant Absorb(State(c0, c0, c0), key) == Absorb(s, Rest(mem, off, n))
    {
      AbsorbBlock(mem, off, n, s);
      s := Mix(State(Add(s.a, WordAt(mem, off)), Add(s.b, WordAt(mem, off + 4)), Add(s.c, WordAt(mem, off + 8))));
      n, off := n - 12, off + 12;
      blocks := blocks + 1;
    }
    assert mem[..length] == key;
    if n == 0 { return s.c; }
    s := LastByWord(s, mem, off, n, blocks, words);
    h := Final(s).c;
  }

  /** The word that holds the key's last byte is part of the memory. */
  lemma WordsFit(q: nat, words: nat, size: nat, off: nat, n: nat)
    requires size == 4 * words && off == 4 * q && off + n <= size
    ensures n > 0 ==> off + 4 <= size
    ensures n > 4 ==> off + 8 <= size
    ensures n > 8 ==> off + 12 <= size
  {
  }

  /** The last block of a key on a word boundary */
  method LastByWord(s: State, mem: seq<bv8>, off: nat, n: nat, ghost blocks: nat, ghost words: nat) returns (t: State)
    requires 0 < n <= 12 && off + n <= |mem| && off == 12 * blocks && |mem| == 4 * words
    ensures t == Absorb(s, Rest(mem, off, n))
  {
    hide Add, WordAt, Absorb, Tail;
    LastBlock(mem, off, n, s);
    WordsFit(3 * blocks, words, |mem|, off, n);
    var c := TailByWord(s.c, mem, off + 8, n as int - 8);
    var b := TailByWord(s.b, mem, off + 4, n as int - 4);
    var a := TailByWord(s.a, mem, off, n);
    t := State(a, b, c);
  }

  /** The path for a key on a half word boundary */
  method HashByHalf(ghost address: nat, mem: seq<bv8>, length: nat, initval: bv32) returns (h: bv32)
    requires address % 2 == 0 && length <= |mem|
    ensures h == Hash(mem[..length], initval)
  {
    hide Add, Mix, Final, WordAt, Absorb, Tail, Seed, HalfAt, Shl;
    var c0 := Seed(length, initval);
    var s := State(c0, c0, c0);
    var n: int := length;
    var off := 0;
    ghost var key := Rest(mem, 0, length);
    while n > 12
      invariant 0 <= n && n + off == length && (length > 0 ==> n > 0) && (length == 0 ==> s.c == c0)
      invariant Absorb(State(c0, c0, c0), key) == Absorb(s, Rest(mem, off, n))
    {
      AbsorbBlock(mem, off, n, s);
      HalvesAt(mem, off);
      HalvesAt(mem, off + 4);
      HalvesAt(mem, off + 8);
      s := Mix(State(Add(s.a, Add(HalfAt(mem, off), Shl(HalfAt(mem, off + 2), 16))),
                     Add(s.b, Add(HalfAt(mem, off + 4), Shl(HalfAt(mem, off + 6), 16))),
                     Add(s.c, Add(HalfAt(mem, off + 8), Shl(HalfAt(mem, off + 10), 16)))));
      n, off := n - 12, off + 12;
    }
    assert mem[..length] == key;
    if n == 0 { return s.c; }
    LastBlock(mem, off, n, s);
    var c := TailByHalf(s.c, mem, off + 8, n - 8);
    var b := TailByHalf(s.b, mem, off + 4, n - 4);
    var a := TailByHalf(s.a, mem, off, n);
    h := Final(State(a, b, c)).c;
  }

  lemma HalvesAt(mem: seq<bv8>, i: nat)
    requires i + 4 <= |mem|
    ensures Add(HalfAt(mem, i), Shl(HalfAt(mem, i + 2), 16)) == WordAt(mem, i)
  {
    hide Add, Word, Shl, Wide, Half;
    TwoHalves(mem[i], mem[i + 1], mem[i + 2], mem[i + 3]);
  }

  /** The path for any other key */
  method HashByByte(mem: seq<bv8>, length: nat, initval: bv32) returns (h: bv32)
    requires length <= |mem|
    ensures h == Hash(mem[..length], initval)
  {
    hide Add, Mix, Final, WordAt, Absorb, Tail, Seed;
    var c0 := Seed(length, initval);
    var s := State(c0, c0, c0);
    var n: int := length;
    var off := 0;
    ghost var key := Rest(mem, 0, length);
    while n > 12
      invariant 0 <= n && n + off == length && (length > 0 ==> n > 0) && (length == 0 ==> s.c == c0)
      invariant Absorb(State(c0, c0, c0), key) == Absorb(s, Rest(mem, off, n))
    {
      AbsorbBlock(mem, off, n, s);
      var a := WordByByte(s.a, mem, off);
      var b := WordByByte(s.b, mem, off + 4);
      var c := WordByByte(s.c, mem, off + 8);
      s := Mix(State(a, b, c));
      n, off := n - 12, off + 12;
    }
    assert mem[..length] == key;
    if n == 0 { return s.c; }
    LastBlock(mem, off, n, s);
    var c := TailByByte(s.c, mem, off + 8, n - 8);
    var b := TailByByte(s.b, mem, off + 4, n - 4);
    var a := TailByByte(s.a, mem, off, n);
    h := Final(State(a, b, c)).c;
  }

  /** Four bytes of a full block, from the lowest up */
  method WordByByte(x: bv32, mem: seq<bv8>, i: nat) returns (y: bv32)
    requires i + 4 <= |mem|
    ensures y == Add(x, WordAt(mem, i))
  {
    hide Add, Shl, Wide;
    LowToHigh(x, Wide(mem[i]), Shl(Wide(mem[i + 1]), 8), Shl(Wide(mem[i + 2]), 16), Shl(Wide(mem[i + 3]), 24));
    y := Add(x, Wide(mem[i]));
    y := Add(y, Shl(Wide(mem[i + 1]), 8));
    y := Add(y, Shl(Wide(mem[i + 2]), 16));
    y := Add(y, Shl(Wide(mem[i + 3]), 24));
  }

  lemma LowToHigh(x: bv32, w0: bv32, w1: bv32, w2: bv32, w3: bv32)
    ensures Add(Add(Add(Add(x, w0), w1), w2), w3) == Add(x, Add(Add(Add(w0, w1), w2), w3))
  {
    hide Add;
    AddAssoc(x, w0, w1);
    AddAssoc(x, Add(w0, w1), w2);
    AddAssoc(x, Add(Add(w0, w1), w2), w3);
  }

  /** hash(): the address decides how the key is read, and does not matter otherwise; nor does the memory
      behind the key */
  method HashAt(address: nat, mem: seq<bv8>, length: nat, initval: bv32) returns (h: bv32)
    requires length <= |mem| && (address % 4 == 0 ==> |mem| % 4 == 0)
    ensures h == Hash(mem[..length], initval)
  {
    if address % 4 == 0 {
      h := HashByWord(address, mem, length, initval);
    } else if address % 2 == 0 {
      h := HashByHalf(address, mem, length, initval);
    } else {
      h := HashByByte(mem, length, initval);
    }
  }

  // ---------------------------------------------------------------- published values

  /** "Four score a" */
  function FourScore0(): seq<bv8> { [0x46, 0x6f, 0x75, 0x72, 0x20, 0x73, 0x63, 0x6f, 0x72, 0x65, 0x20, 0x61] }

  /** "nd seven yea" */
  function FourScore1(): seq<bv8> { [0x6e, 0x64, 0x20, 0x73, 0x65, 0x76, 0x65, 0x6e, 0x20, 0x79, 0x65, 0x61] }

  /** "rs ago" */
  function FourScore2(): seq<bv8> { [0x72, 0x73, 0x20, 0x61, 0x67, 0x6f] }

  lemma FourScoreWords()
    ensures Word(0x46, 0x6f, 0x75, 0x72) == 0x72756f46
    ensures Word(0x20, 0x73, 0x63, 0x6f) == 0x6f637320
    ensures Word(0x72, 0x65, 0x20, 0x61) == 0x61206572
    ensures Word(0x6e, 0x64, 0x20, 0x73) == 0x7320646e
    ensures Word(0x65, 0x76, 0x65, 0x6e) == 0x6e657665
    ensures Word(0x20, 0x79, 0x65, 0x61) == 0x61657920
    ensures Word(0x72, 0x73, 0x20, 0x61) == 0x61207372
    ensures Word(0x67, 0x6f, 0x00, 0x00) == 0x00006f67
  {
  }

  lemma ThreeBlocks(s: State, b0: seq<bv8>, b1: seq<bv8>, b2: seq<bv8>)
    requires |b0| == |b1| == 12 && 0 < |b2| <= 12
    ensures Absorb(s, b0 + b1 + b2) == AddBlock(Mix(AddBlock(Mix(AddBlock(s, b0)), b1)), Pad(b2))
  {
    hide AddBlock, Mix, Pad;
    var key := b0 + b1 + b2;
    assert key[..12] == b0 && key[12..] == b1 + b2;
    assert (b1 + b2)[..12] == b1 && (b1 + b2)[12..] == b2;
    var s1 := Mix(AddBlock(s, b0));
    assert Absorb(s1, b1 + b2) == Absorb(Mix(AddBlock(s1, b1)), b2);
  }

  lemma Lengths()
    ensures (0 % 0x1_0000_0000) as bv32 == 0
    ensures (1 % 0x1_0000_0000) as bv32 == 1
    ensures (30 % 0x1_0000_0000) as bv32 == 30
  {
  }

  lemma Sums()
    ensures Add(Add(0xdeadbeef, 0), 0) == 0xdeadbeef && Add(Add(0xdeadbeef, 0), 0xdeadbeef) == 0xbd5b7dde
    ensures Add(Add(0xdeadbeef, 1), 0) == 0xdeadbef0
    ensures Add(Add(0xdeadbeef, 30), 0) == 0xdeadbf0d && Add(Add(0xdeadbeef, 30), 1) == 0xdeadbf0e
  {
  }

  lemma Seeds()
    ensures Seed(0, 0) == 0xdeadbeef && Seed(0, 0xdeadbeef) == 0xbd5b7dde && Seed(1, 0) == 0xdeadbef0
    ensures Seed(30, 0) == 0xdeadbf0d && Seed(30, 1) == 0xdeadbf0e
  {
    hide Add;
    Lengths();
    Sums();
  }

  /** What the three blocks add to the words of the state. */
  lemma FourScoreAdds(s: State)
    ensures AddBlock(s, FourScore0()) == State(Add(s.a, 0x72756f46), Add(s.b, 0x6f637320), Add(s.c, 0x61206572))
    ensures AddBlock(s, FourScore1()) == State(Add(s.a, 0x7320646e), Add(s.b, 0x6e657665), Add(s.c, 0x61657920))
    ensures AddBlock(s, Pad(FourScore2())) == State(Add(s.a, 0x61207372), Add(s.b, 0x00006f67), s.c)
  {
    hide Add, Word;
    FourScoreWords();
    NoBytes(s.c);
    var p := Pad(FourScore2());
    assert p[8] == 0 && p[9] == 0 && p[10] == 0 && p[11] == 0;
  }

  lemma FourScoreMix0Lines()
    ensures Step(State(0x51232e53, 0x4e11322d, 0x3fce247f), 4) == State(0x4e11322d, 0x8ddf56ac, 0xedb74e27)
    ensures Step(State(0x4e11322d, 0x8ddf56ac, 0xedb74e27), 6) == State(0x8ddf56ac, 0x7b96a4d3, 0x0d8a6dfd)
    ensures Step(State(0x8ddf56ac, 0x7b96a4d3, 0x0d8a6dfd), 8) == State(0x7b96a4d3, 0x892112d0, 0x0a3915a2)
    ensures Step(State(0x7b96a4d3, 0x892112d0, 0x0a3915a2), 16) == State(0x892112d0, 0x935a2872, 0x64ff8508)
    ensures Step(State(0x892112d0, 0x935a2872, 0x64ff8508), 19) == State(0x935a2872, 0xf859ad7a, 0x0c62aa34)
    ensures Step(State(0x935a2872, 0xf859ad7a, 0x0c62aa34), 4) == State(0xf859ad7a, 0x04bc57ae, 0x40dddd7e)
  {
  }

  lemma FourScoreMix0()
    ensures Mix(State(0x51232e53, 0x4e11322d, 0x3fce247f)) ==
            State(0xf859ad7a, 0x04bc57ae, 0x40dddd7e)
  {
    hide Step, Mix;
    MixIsSteps(State(0x51232e53, 0x4e11322d, 0x3fce247f));
    FourScoreMix0Lines();
  }

  lemma FourScoreAgain0Lines()
    ensures Step(State(0x6b7a11e8, 0x7321ce13, 0xa243569e), 4) == State(0x7321ce13, 0x156524b1, 0xed03d2a0)
    ensures Step(State(0x7321ce13, 0x156524b1, 0xed03d2a0), 6) == State(0x156524b1, 0x0268f751, 0xc6e95348)
    ensures Step(State(0x156524b1, 0x0268f751, 0xc6e95348), 8) == State(0x0268f751, 0xc9524a99, 0xa72899af)
    ensures Step(State(0x0268f751, 0xc9524a99, 0xa72899af), 16) == State(0xc9524a99, 0x707ae448, 0xc2effa8a)
    ensures Step(State(0xc9524a99, 0x707ae448, 0xc2effa8a), 19) == State(0x707ae448, 0x336aded2, 0xd2344770)
    ensures Step(State(0x707ae448, 0x336aded2, 0xd2344770), 4) == State(0x336aded2, 0x059f2642, 0xbd02ebd5)
  {
  }

  lemma FourScoreAgain0()
    ensures Mix(State(0x6b7a11e8, 0x7321ce13, 0xa243569e)) ==
            State(0x336aded2, 0x059f2642, 0xbd02ebd5)
  {
    hide Step, Mix;
    MixIsSteps(State(0x6b7a11e8, 0x7321ce13, 0xa243569e));
    FourScoreAgain0Lines();
  }

  lemma FourScoreFinal0Lines()
    ensures FinalStep(State(0x948b5244, 0x059f95a9, 0xbd02ebd5), 14) == State(0x059f95a9, 0xd3333d15, 0x948b5244)
    ensures FinalStep(State(0x059f95a9, 0xd3333d15, 0x948b5244), 11) == State(0xd3333d15, 0xadcfc0b8, 0x059f95a9)
    ensures FinalStep(State(0xd3333d15, 0xadcfc0b8, 0x059f95a9), 25) == State(0xadcfc0b8, 0x36f4b590, 0xd3333d15)
    ensures FinalStep(State(0xadcfc0b8, 0x36f4b590, 0xd3333d15), 16) == State(0x36f4b590, 0x30375191, 0xadcfc0b8)
    ensures FinalStep(State(0x36f4b590, 0x30375191, 0xadcfc0b8), 4) == State(0x30375191, 0x9a837816, 0x36f4b590)
    ensures FinalStep(State(0x30375191, 0x9a837816, 0x36f4b590), 14) == State(0x9a837816, 0xce7226e6, 0x30375191)
    ensures FinalStep(State(0x9a837816, 0xce7226e6, 0x30375191), 24) == State(0xce7226e6, 0x17770551, 0x9a837816)
  {
  }

  lemma FourScoreFinal0()
    ensures Final(State(0x948b5244, 0x059f95a9, 0xbd02ebd5)).c == 0x17770551
  {
    hide FinalStep, Final;
    FinalIsSteps(State(0x948b5244, 0x059f95a9, 0xbd02ebd5));
    FourScoreFinal0Lines();
  }

  lemma FourScoreSums0()
    ensures Add(0xdeadbf0d, 0x72756f46) == 0x51232e53
    ensures Add(0xdeadbf0d, 0x6f637320) == 0x4e11322d
    ensures Add(0xdeadbf0d, 0x61206572) == 0x3fce247f
    ensures Add(0xf859ad7a, 0x7320646e) == 0x6b7a11e8
    ensures Add(0x04bc57ae, 0x6e657665) == 0x7321ce13
    ensures Add(0x40dddd7e, 0x61657920) == 0xa243569e
    ensures Add(0x336aded2, 0x61207372) == 0x948b5244
    ensures Add(0x059f2642, 0x00006f67) == 0x059f95a9
  {
  }

  lemma FourScoreMix1Lines()
    ensures Step(State(0x51232e54, 0x4e11322e, 0x3fce2480), 4) == State(0x4e11322e, 0x8ddf56ae, 0xedb741d7)
    ensures Step(State(0x4e11322e, 0x8ddf56ae, 0xedb741d7), 6) == State(0x8ddf56ae, 0x7b969885, 0x0d8985ac)
    ensures Step(State(0x8ddf56ae, 0x7b969885, 0x0d8985ac), 8) == State(0x7b969885, 0x89201e31, 0x09d07d0f)
    ensures Step(State(0x7b969885, 0x89201e31, 0x09d07d0f), 16) == State(0x89201e31, 0x92f09b40, 0x0cc912a6)
    ensures Step(State(0x89201e31, 0x92f09b40, 0x0cc912a6), 19) == State(0x92f09b40, 0x9fb9ade6, 0xe9676dc3)
    ensures Step(State(0x92f09b40, 0x9fb9ade6, 0xe9676dc3), 4) == State(0x9fb9ade6, 0x89211ba9, 0x3ffff143)
  {
  }

  lemma FourScoreMix1()
    ensures Mix(State(0x51232e54, 0x4e11322e, 0x3fce2480)) ==
            State(0x9fb9ade6, 0x89211ba9, 0x3ffff143)
  {
    hide Step, Mix;
    MixIsSteps(State(0x51232e54, 0x4e11322e, 0x3fce2480));
    FourScoreMix1Lines();
  }

  lemma FourScoreAgain1Lines()
    ensures Step(State(0x12da1254, 0xf786920e, 0xa1656a63), 4) == State(0xf786920e, 0x98ebfc71, 0x672201cb)
    ensures Step(State(0xf786920e, 0x98ebfc71, 0x672201cb), 6) == State(0x98ebfc71, 0x000dfe3c, 0x58e4e29a)
    ensures Step(State(0x98ebfc71, 0x000dfe3c, 0x58e4e29a), 8) == State(0x000dfe3c, 0x58f2e0d6, 0xa4e5838f)
    ensures Step(State(0x000dfe3c, 0x58f2e0d6, 0xa4e5838f), 16) == State(0x58f2e0d6, 0xfdd86465, 0xd8a7de48)
    ensures Step(State(0x58f2e0d6, 0xfdd86465, 0xd8a7de48), 19) == State(0xfdd86465, 0xd68042ad, 0x720dc7b0)
    ensures Step(State(0xfdd86465, 0xd68042ad, 0x720dc7b0), 4) == State(0xd68042ad, 0x488e0a5d, 0xab16e7b2)
  {
  }

  lemma FourScoreAgain1()
    ensures Mix(State(0x12da1254, 0xf786920e, 0xa1656a63)) ==
            State(0xd68042ad, 0x488e0a5d, 0xab16e7b2)
  {
    hide Step, Mix;
    MixIsSteps(State(0x12da1254, 0xf786920e, 0xa1656a63));
    FourScoreAgain1Lines();
  }

  lemma FourScoreFinal1Lines()
    ensures FinalStep(State(0x37a0b61f, 0x488e79c4, 0xab16e7b2), 14) == State(0x488e79c4, 0x45278c53, 0x37a0b61f)
    ensures FinalStep(State(0x488e79c4, 0x45278c53, 0x37a0b61f), 11) == State(0x45278c53, 0x3624a023, 0x488e79c4)
    ensures FinalStep(State(0x45278c53, 0x3624a023, 0x488e79c4), 25) == State(0x3624a023, 0x383e90a7, 0x45278c53)
    ensures FinalStep(State(0x3624a023, 0x383e90a7, 0x45278c53), 16) == State(0x383e90a7, 0xec71e4b6, 0x3624a023)
    ensures FinalStep(State(0x383e90a7, 0xec71e4b6, 0x3624a023), 4) == State(0xec71e4b6, 0x1336f927, 0x383e90a7)
    ensures FinalStep(State(0xec71e4b6, 0x1336f927, 0x383e90a7), 14) == State(0x1336f927, 0x6cbea4b3, 0xec71e4b6)
    ensures FinalStep(State(0x1336f927, 0x6cbea4b3, 0xec71e4b6), 24) == State(0x6cbea4b3, 0xcd628161, 0x1336f927)
  {
  }

  lemma FourScoreFinal1()
    ensures Final(State(0x37a0b61f, 0x488e79c4, 0xab16e7b2)).c == 0xcd628161
  {
    hide FinalStep, Final;
    FinalIsSteps(State(0x37a0b61f, 0x488e79c4, 0xab16e7b2));
    FourScoreFinal1Lines();
  }

  lemma FourScoreSums1()
    ensures Add(0xdeadbf0e, 0x72756f46) == 0x51232e54
    ensures Add(0xdeadbf0e, 0x6f637320) == 0x4e11322e
    ensures Add(0xdeadbf0e, 0x61206572) == 0x3fce2480
    ensures Add(0x9fb9ade6, 0x7320646e) == 0x12da1254
    ensures Add(0x89211ba9, 0x6e657665) == 0xf786920e
    ensures Add(0x3ffff143, 0x61657920) == 0xa1656a63
    ensures Add(0xd68042ad, 0x61207372) == 0x37a0b61f
    ensures Add(0x488e0a5d, 0x00006f67) == 0x488e79c4
  {
  }

  lemma FourScoreRun(c: bv32)
    ensures var s := State(c, c, c);
      Absorb(s, FourScore0() + FourScore1() + FourScore2()) ==
      AddBlock(Mix(AddBlock(Mix(AddBlock(s, FourScore0())), FourScore1())), Pad(FourScore2()))
    ensures AddBlock(State(c, c, c), FourScore0()) ==
      State(Add(c, 0x72756f46), Add(c, 0x6f637320), Add(c, 0x61206572))
  {
    hide Add, AddBlock, Mix, Pad, Absorb;
    ThreeBlocks(State(c, c, c), FourScore0(), FourScore1(), FourScore2());
    FourScoreAdds(State(c, c, c));
  }

  /** The values that lookup3's own driver prints for "Four score and seven years ago". */
  lemma FourScoreHashes()
    ensures var key := FourScore0() + FourScore1() + FourScore2();
      Hash(key, 0) == 0x17770551 && Hash(key, 1) == 0xcd628161
  {
    hide Add, AddBlock, Mix, Final, Pad, Seed, Absorb;
    Seeds();
    FourScoreRun(0xdeadbf0d);
    FourScoreSums0(); FourScoreMix0(); FourScoreAgain0(); FourScoreFinal0();
    FourScoreAdds(State(0xf859ad7a, 0x04bc57ae, 0x40dddd7e));
    FourScoreAdds(State(0x336aded2, 0x059f2642, 0xbd02ebd5));
    FourScoreRun(0xdeadbf0e);
    FourScoreSums1(); FourScoreMix1(); FourScoreAgain1(); FourScoreFinal1();
    FourScoreAdds(State(0x9fb9ade6, 0x89211ba9, 0x3ffff143));
    FourScoreAdds(State(0xd68042ad, 0x488e0a5d, 0xab16e7b2));
  }

  lemma LetterBlock(s: State)
    ensures Absorb(s, [0x61]) == State(Add(s.a, 0x61), s.b, s.c)
  {
    hide Add, Word;
    LetterWord();
    NoBytes(s.b);
    NoBytes(s.c);
    var p := Pad([0x61]);
    assert forall i :: 0 < i < 12 ==> p[i] == 0;
  }

  lemma LetterWord()
    ensures Word(0x61, 0, 0, 0) == 0x61
  {
  }

  lemma LetterSum()
    ensures Add(0xdeadbef0, 0x61) == 0xdeadbf51
  {
  }

  lemma LetterFinalLines()
    ensures FinalStep(State(0xdeadbf51, 0xdeadbef0, 0xdeadbef0), 14) == State(0xdeadbef0, 0x9043c855, 0xdeadbf51)
    ensures FinalStep(State(0xdeadbef0, 0x9043c855, 0xdeadbf51), 11) == State(0x9043c855, 0x30abca82, 0xdeadbef0)
    ensures FinalStep(State(0x9043c855, 0x30abca82, 0xdeadbef0), 25) == State(0x30abca82, 0xe9a51cdd, 0x9043c855)
    ensures FinalStep(State(0x30abca82, 0xe9a51cdd, 0x9043c855), 16) == State(0xe9a51cdd, 0x5d08eae3, 0x30abca82)
    ensures FinalStep(State(0xe9a51cdd, 0x5d08eae3, 0x30abca82), 4) == State(0x5d08eae3, 0x9d14722c, 0xe9a51cdd)
    ensures FinalStep(State(0x5d08eae3, 0x9d14722c, 0xe9a51cdd), 14) == State(0x9d14722c, 0x582647ac, 0x5d08eae3)
    ensures FinalStep(State(0x9d14722c, 0x582647ac, 0x5d08eae3), 24) == State(0x582647ac, 0x58d68708, 0x9d14722c)
  {
  }

  lemma LetterFinal()
    ensures Final(State(0xdeadbf51, 0xdeadbef0, 0xdeadbef0)).c == 0x58d68708
  {
    hide FinalStep, Final;
    FinalIsSteps(State(0xdeadbf51, 0xdeadbef0, 0xdeadbef0));
    LetterFinalLines();
  }

  /** The values of the empty key, and of "a". */
  lemma ShortHashes()
    ensures Hash([], 0) == 0xdeadbeef && Hash([], 0xdeadbeef) == 0xbd5b7dde && Hash([0x61], 0) == 0x58d68708
  {
    hide Add, Final, Seed, Absorb;
    Seeds();
    LetterBlock(State(0xdeadbef0, 0xdeadbef0, 0xdeadbef0));
    LetterSum();
    LetterFinal();
  }
}
