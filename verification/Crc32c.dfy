/** CRC32C as the source computes it, bit by bit over the reflected Castagnoli
    polynomial (src/metadata/ondisk_format.cpp:168-178), and the reason any
    single damaged byte is noticed: the running state is never merged. */
module Crc32c {
  import opened Bytes

  const POLYNOMIAL: bv32 := 0x82F63B78

  function BitStep(crc: bv32): bv32 {
    (crc >> 1) ^ (POLYNOMIAL & (0 - (crc & 1)))
  }

  function Steps(crc: bv32, n: nat): bv32 {
    if n == 0 then crc else BitStep(Steps(crc, n - 1))
  }

  function Pack(b0: bool, b1: bool, b2: bool, b3: bool, b4: bool, b5: bool, b6: bool, b7: bool): bv8 {
    (if b0 then 1 else 0) | (if b1 then 2 else 0) | (if b2 then 4 else 0) | (if b3 then 8 else 0)
    | (if b4 then 16 else 0) | (if b5 then 32 else 0) | (if b6 then 64 else 0) | (if b7 then 128 else 0)
  }

  function Half(n: nat): nat {
    n / 2
  }

  predicate Odd(n: nat) {
    n % 2 == 1
  }

  /** A byte as its eight bits, and back. */
  function ToVector(b: byte): bv8 {
    var q1 := Half(b);
    var q2 := Half(q1);
    var q3 := Half(q2);
    var q4 := Half(q3);
    var q5 := Half(q4);
    var q6 := Half(q5);
    var q7 := Half(q6);
    Pack(Odd(b), Odd(q1), Odd(q2), Odd(q3), Odd(q4), Odd(q5), Odd(q6), Odd(q7))
  }

  function FromVector(v: bv8): byte {
    (if v & 1 == 1 then 1 else 0) + (if v & 2 == 2 then 2 else 0)
    + (if v & 4 == 4 then 4 else 0) + (if v & 8 == 8 then 8 else 0)
    + (if v & 16 == 16 then 16 else 0) + (if v & 32 == 32 then 32 else 0)
    + (if v & 64 == 64 then 64 else 0) + (if v & 128 == 128 then 128 else 0)
  }

  function Mix(crc: bv32, v: bv8): bv32 {
    crc ^ (v as bv32)
  }

  function Flip(crc: bv32): bv32 {
    !crc
  }

  function AbsorbByte(crc: bv32, b: byte): bv32 {
    Steps(Mix(crc, ToVector(b)), 8)
  }

  function Absorb(crc: bv32, data: seq<byte>): bv32
    decreases |data|
  {
    if data == [] then crc else Absorb(AbsorbByte(crc, data[0]), data[1..])
  }

  function Octet(crc: bv32, shift: bv6): bv8
    requires shift <= 24
  {
    ((crc >> shift) & 0xFF) as bv8
  }

  /** Little-endian bytes of the final register, i.e. what `PutLe32` stores. */
  function Register(crc: bv32): (r: seq<byte>)
    ensures |r| == 4
  {
    [FromVector(Octet(crc, 0)), FromVector(Octet(crc, 8)),
     FromVector(Octet(crc, 16)), FromVector(Octet(crc, 24))]
  }

  function Checksum(data: seq<byte>): (r: seq<byte>)
    ensures |r| == 4
  {
    Register(Flip(Absorb(0xFFFF_FFFF, data)))
  }

  function Weight(b: bool): nat {
    if b then 1 else 0
  }

  function Sum(b0: bool, b1: bool, b2: bool, b3: bool, b4: bool, b5: bool, b6: bool, b7: bool): nat {
    Weight(b0) + 2 * Weight(b1) + 4 * Weight(b2) + 8 * Weight(b3)
    + 16 * Weight(b4) + 32 * Weight(b5) + 64 * Weight(b6) + 128 * Weight(b7)
  }

  lemma UnpackPack(b0: bool, b1: bool, b2: bool, b3: bool, b4: bool, b5: bool, b6: bool, b7: bool)
    ensures FromVector(Pack(b0, b1, b2, b3, b4, b5, b6, b7))
         == Sum(b0, b1, b2, b3, b4, b5, b6, b7)
  {}

  lemma Halving(n: nat, bound: nat)
    requires n < 2 * bound
    ensures n == 2 * Half(n) + Weight(Odd(n)) && Half(n) < bound
  {}

  lemma Digits(x: byte)
    ensures
      var q1 := Half(x); var q2 := Half(q1); var q3 := Half(q2); var q4 := Half(q3);
      var q5 := Half(q4); var q6 := Half(q5); var q7 := Half(q6);
      x == Sum(Odd(x), Odd(q1), Odd(q2), Odd(q3), Odd(q4), Odd(q5), Odd(q6), Odd(q7))
  {
    hide Weight, Half, Odd;
    var q1 := Half(x);
    var q2 := Half(q1);
    var q3 := Half(q2);
    var q4 := Half(q3);
    var q5 := Half(q4);
    var q6 := Half(q5);
    var q7 := Half(q6);
    Halving(x, 128);
    Halving(q1, 64);
    Halving(q2, 32);
    Halving(q3, 16);
    Halving(q4, 8);
    Halving(q5, 4);
    Halving(q6, 2);
    Halving(q7, 1);
  }

  lemma FromToVector(x: byte)
    ensures FromVector(ToVector(x)) == x
  {
    hide Pack, FromVector, Sum, Half, Odd;
    var q1 := Half(x);
    var q2 := Half(q1);
    var q3 := Half(q2);
    var q4 := Half(q3);
    var q5 := Half(q4);
    var q6 := Half(q5);
    var q7 := Half(q6);
    Digits(x);
    UnpackPack(Odd(x), Odd(q1), Odd(q2), Odd(q3), Odd(q4), Odd(q5), Odd(q6), Odd(q7));
    assert ToVector(x) == Pack(Odd(x), Odd(q1), Odd(q2), Odd(q3), Odd(q4), Odd(q5), Odd(q6), Odd(q7));
  }

  lemma ToVectorInjective(x: byte, y: byte)
    requires ToVector(x) == ToVector(y)
    ensures x == y
  {
    hide FromVector, ToVector;
    FromToVector(x);
    FromToVector(y);
  }

  lemma FromVectorInjective(v: bv8, w: bv8)
    requires FromVector(v) == FromVector(w)
    ensures v == w
  {}

  lemma OctetsDetermine(a: bv32, b: bv32)
    requires Octet(a, 0) == Octet(b, 0) && Octet(a, 8) == Octet(b, 8)
    requires Octet(a, 16) == Octet(b, 16) && Octet(a, 24) == Octet(b, 24)
    ensures a == b
  {}

  lemma BitStepInjective(a: bv32, b: bv32)
    requires BitStep(a) == BitStep(b)
    ensures a == b
  {}

  lemma {:induction false} StepsInjective(a: bv32, b: bv32, n: nat)
    requires Steps(a, n) == Steps(b, n)
    ensures a == b
  {
    if n > 0 {
      BitStepInjective(Steps(a, n - 1), Steps(b, n - 1));
      StepsInjective(a, b, n - 1);
    }
  }

  lemma MixInjectiveInState(a: bv32, b: bv32, v: bv8)
    requires Mix(a, v) == Mix(b, v)
    ensures a == b
  {}

  lemma MixInjectiveInVector(c: bv32, v: bv8, w: bv8)
    requires Mix(c, v) == Mix(c, w)
    ensures v == w
  {}

  lemma FlipInjective(a: bv32, b: bv32)
    requires Flip(a) == Flip(b)
    ensures a == b
  {}

  /** One byte step is injective in the running state. */
  lemma AbsorbByteInjectiveInState(a: bv32, b: bv32, x: byte)
    requires AbsorbByte(a, x) == AbsorbByte(b, x)
    ensures a == b
  {
    hide Steps, Mix, ToVector;
    StepsInjective(Mix(a, ToVector(x)), Mix(b, ToVector(x)), 8);
    MixInjectiveInState(a, b, ToVector(x));
  }

  /** One byte step is injective in the byte. */
  lemma AbsorbByteInjectiveInByte(c: bv32, x: byte, y: byte)
    requires AbsorbByte(c, x) == AbsorbByte(c, y)
    ensures x == y
  {
    hide Steps, Mix, ToVector;
    StepsInjective(Mix(c, ToVector(x)), Mix(c, ToVector(y)), 8);
    MixInjectiveInVector(c, ToVector(x), ToVector(y));
    ToVectorInjective(x, y);
  }

  lemma {:induction false} AbsorbInjective(a: bv32, b: bv32, data: seq<byte>)
    requires Absorb(a, data) == Absorb(b, data)
    ensures a == b
    decreases |data|
  {
    hide AbsorbByte;
    if data != [] {
      AbsorbInjective(AbsorbByte(a, data[0]), AbsorbByte(b, data[0]), data[1..]);
      AbsorbByteInjectiveInState(a, b, data[0]);
    }
  }

  lemma RegisterInjective(a: bv32, b: bv32)
    requires Register(a) == Register(b)
    ensures a == b
  {
    hide FromVector, Octet;
    assert Register(a)[0] == Register(b)[0] && Register(a)[1] == Register(b)[1];
    assert Register(a)[2] == Register(b)[2] && Register(a)[3] == Register(b)[3];
    FromVectorInjective(Octet(a, 0), Octet(b, 0));
    FromVectorInjective(Octet(a, 8), Octet(b, 8));
    FromVectorInjective(Octet(a, 16), Octet(b, 16));
    FromVectorInjective(Octet(a, 24), Octet(b, 24));
    OctetsDetermine(a, b);
  }

  predicate DifferInOneByte(s: seq<byte>, t: seq<byte>, p: nat) {
    && |s| == |t| && p < |s| && s[p] != t[p]
    && forall i :: 0 <= i < |s| && i != p ==> s[i] == t[i]
  }

  lemma {:induction false} AbsorbSeesOneByte(c: bv32, s: seq<byte>, t: seq<byte>, p: nat)
    requires DifferInOneByte(s, t, p)
    ensures Absorb(c, s) != Absorb(c, t)
    decreases p
  {
    hide AbsorbByte;
    if p == 0 {
      assert s[1..] == t[1..];
      if Absorb(c, s) == Absorb(c, t) {
        AbsorbInjective(AbsorbByte(c, s[0]), AbsorbByte(c, t[0]), s[1..]);
        AbsorbByteInjectiveInByte(c, s[0], t[0]);
      }
    } else {
      AbsorbSeesOneByte(AbsorbByte(c, s[0]), s[1..], t[1..], p - 1);
    }
  }

  /** Changing exactly one byte always changes the checksum. */
  lemma ChecksumSeesOneByte(s: seq<byte>, t: seq<byte>, p: nat)
    requires DifferInOneByte(s, t, p)
    ensures Checksum(s) != Checksum(t)
  {
    hide Absorb, Register, Flip;
    AbsorbSeesOneByte(0xFFFF_FFFF, s, t, p);
    if Checksum(s) == Checksum(t) {
      RegisterInjective(Flip(Absorb(0xFFFF_FFFF, s)), Flip(Absorb(0xFFFF_FFFF, t)));
      FlipInjective(Absorb(0xFFFF_FFFF, s), Absorb(0xFFFF_FFFF, t));
    }
  }

  lemma {:induction false} AbsorbAppend(crc: bv32, data: seq<byte>, b: byte)
    ensures Absorb(crc, data + [b]) == AbsorbByte(Absorb(crc, data), b)
    decreases |data|
  {
    hide AbsorbByte;
    if data != [] {
      AbsorbAppend(AbsorbByte(crc, data[0]), data[1..], b);
      assert (data + [b])[1..] == data[1..] + [b];
    }
  }

  /** The source's loop over the eight bits of one byte. */
  method AbsorbBits(start: bv32) returns (crc: bv32)
    ensures crc == Steps(start, 8)
  {
    crc := start;
    for bit := 0 to 8
      invariant crc == Steps(start, bit)
    {
      var mask := 0 - (crc & 1);
      crc := (crc >> 1) ^ (POLYNOMIAL & mask);
    }
  }

  /** The source's loop over the bytes. */
  method ComputeChecksum(data: seq<byte>) returns (r: seq<byte>)
    ensures r == Checksum(data)
  {
    hide Steps, Mix, ToVector, Absorb, Register, Flip;
    var crc: bv32 := 0xFFFF_FFFF;
    AbsorbNothing(crc);
    for index := 0 to |data|
      invariant crc == Absorb(0xFFFF_FFFF, data[..index])
    {
      AbsorbAppend(0xFFFF_FFFF, data[..index], data[index]);
      assert data[..index] + [data[index]] == data[..index + 1];
      crc := AbsorbBits(Mix(crc, ToVector(data[index])));
    }
    assert data[..|data|] == data;
    r := Register(Flip(crc));
  }

  lemma AbsorbNothing(crc: bv32)
    ensures Absorb(crc, []) == crc
  {}

  // ---- The check value ----

  function EightSteps(crc: bv32): bv32 {
    BitStep(BitStep(BitStep(BitStep(BitStep(BitStep(BitStep(BitStep(crc))))))))
  }

  lemma StepsAreEight(crc: bv32)
    ensures Steps(crc, 8) == EightSteps(crc)
  {
    hide BitStep;
    assert Steps(crc, 1) == BitStep(crc);
    assert Steps(crc, 3) == BitStep(BitStep(Steps(crc, 1)));
    assert Steps(crc, 5) == BitStep(BitStep(Steps(crc, 3)));
    assert Steps(crc, 7) == BitStep(BitStep(Steps(crc, 5)));
  }

  lemma OneByte(crc: bv32, b: byte, v: bv8, after: bv32)
    requires FromVector(v) == b && EightSteps(crc ^ (v as bv32)) == after
    ensures AbsorbByte(crc, b) == after
  {
    hide BitStep, ToVector, FromVector;
    FromToVector(b);
    FromVectorInjective(ToVector(b), v);
    StepsAreEight(crc ^ (v as bv32));
  }

  lemma DigitVectors()
    ensures FromVector(49) == 49 && FromVector(50) == 50 && FromVector(51) == 51
    ensures FromVector(52) == 52 && FromVector(53) == 53 && FromVector(54) == 54
    ensures FromVector(55) == 55 && FromVector(56) == 56 && FromVector(57) == 57
  {}

  lemma Rounds()
    ensures EightSteps(0xFFFF_FFCE) == 0x6F0A_661C && EightSteps(0x6F0A_662E) == 0x8CAA_3B9F && EightSteps(0x8CAA_3BAC) == 0xEF84_D04D
    ensures EightSteps(0xEF84_D079) == 0x09C5_0B11 && EightSteps(0x09C5_0B24) == 0xE72E_DCCA && EightSteps(0xE72E_DCFC) == 0xBECA_8E79
    ensures EightSteps(0xBECA_8E4E) == 0xEDBD_6815 && EightSteps(0xEDBD_682D) == 0x9F78_7F65 && EightSteps(0x9F78_7F5C) == 0x1CF9_6D7C
  {}

  lemma Registers()
    ensures Register(Flip(0x1CF9_6D7C)) == [0x83, 0x92, 0x06, 0xE3]
  {}

  /** The check value of CRC-32C: the digits "123456789" give 0xE3069283. */
  lemma CheckValue()
    ensures Checksum([49, 50, 51, 52, 53, 54, 55, 56, 57]) == [0x83, 0x92, 0x06, 0xE3]
  {
    hide Steps, BitStep, EightSteps, FromVector, AbsorbByte, Register, Flip;
    DigitVectors();
    Rounds();
    OneByte(0xFFFF_FFFF, 49, 49, 0x6F0A_661C);
    OneByte(0x6F0A_661C, 50, 50, 0x8CAA_3B9F);
    OneByte(0x8CAA_3B9F, 51, 51, 0xEF84_D04D);
    OneByte(0xEF84_D04D, 52, 52, 0x09C5_0B11);
    OneByte(0x09C5_0B11, 53, 53, 0xE72E_DCCA);
    OneByte(0xE72E_DCCA, 54, 54, 0xBECA_8E79);
    OneByte(0xBECA_8E79, 55, 55, 0xEDBD_6815);
    OneByte(0xEDBD_6815, 56, 56, 0x9F78_7F65);
    OneByte(0x9F78_7F65, 57, 57, 0x1CF9_6D7C);
    Registers();
    var digits: seq<byte> := [49, 50, 51, 52, 53, 54, 55, 56, 57];
    AbsorbNine(0xFFFF_FFFF, digits);
  }

  lemma AbsorbNine(crc: bv32, s: seq<byte>)
    requires |s| == 9
    ensures Absorb(crc, s) ==
      var a := AbsorbByte(AbsorbByte(AbsorbByte(crc, s[0]), s[1]), s[2]);
      var b := AbsorbByte(AbsorbByte(AbsorbByte(a, s[3]), s[4]), s[5]);
      AbsorbByte(AbsorbByte(AbsorbByte(b, s[6]), s[7]), s[8])
  {
    hide AbsorbByte;
    AbsorbThree(crc, s);
    AbsorbThree(AbsorbByte(AbsorbByte(AbsorbByte(crc, s[0]), s[1]), s[2]), s[3..]);
    assert s[3..][3..] == s[6..];
    var a := AbsorbByte(AbsorbByte(AbsorbByte(crc, s[0]), s[1]), s[2]);
    AbsorbThree(AbsorbByte(AbsorbByte(AbsorbByte(a, s[3]), s[4]), s[5]), s[6..]);
    assert s[6..][3..] == [];
  }

  lemma AbsorbThree(crc: bv32, s: seq<byte>)
    requires |s| >= 3
    ensures Absorb(crc, s) == Absorb(AbsorbByte(AbsorbByte(AbsorbByte(crc, s[0]), s[1]), s[2]), s[3..])
  {
    hide AbsorbByte;
    var c := AbsorbByte(crc, s[0]);
    assert s[1..][1..] == s[2..] && s[2..][1..] == s[3..];
    assert Absorb(crc, s) == Absorb(c, s[1..]) == Absorb(AbsorbByte(c, s[1]), s[2..]);
  }
}
