/** CRC-64: the bit-by-bit definition, the table-driven implementation, and why eight bytes of
    input are a bijection on the state. The polynomial is reflected. */
module Crc64 {
  import opened Bytes
  import opened Words

  /** The polynomial of ECMA-182, reflected. */
  const CRC64_ECMA_POLY: word := 0xC96C_5795_D787_0F42

  // ---- The definition ----

  /** Divide by the polynomial, one bit. */
  function Step(p: word, d: word): word {
    if Odd(d) then Xor(Half(d), p) else Half(d)
  }

  function Steps(p: word, n: nat, d: word): word {
    if n == 0 then d else Steps(p, n - 1, Step(p, d))
  }

  /** The CRC of a byte string, bit by bit, from a state on. */
  function Crc(p: word, crc: word, data: seq<byte>): word
    decreases |data|
  {
    if data == [] then crc else Crc(p, Steps(p, 8, Xor(crc, FromByte(data[0]))), data[1..])
  }

  /** CRC64 as the .xz file format specification defines it in its section 6: the state is
      inverted at both ends. */
  function XzCrc64(data: seq<byte>): word {
    Not(Crc(CRC64_ECMA_POLY, ONES, data))
  }

  /** The CRC can be continued. */
  lemma {:induction false} CrcAppend(p: word, crc: word, a: seq<byte>, b: seq<byte>)
    ensures Crc(p, crc, a + b) == Crc(p, Crc(p, crc, a), b)
    decreases |a|
  {
    hide Xor, FromByte, Steps;
    if a == [] {
      assert a + b == b;
    } else {
      assert (a + b)[0] == a[0] && (a + b)[1..] == a[1..] + b;
      CrcAppend(p, Steps(p, 8, Xor(crc, FromByte(a[0]))), a[1..], b);
    }
  }

  // ---- The check value ----

  /** One byte of CRC. */
  function Feed(crc: word, b: byte): word {
    Steps(CRC64_ECMA_POLY, 8, Xor(crc, FromByte(b)))
  }

  lemma {:induction false} CrcTrace(data: seq<byte>, states: seq<word>)
    requires |states| == |data| + 1 && forall k :: 0 <= k < |data| ==> states[k + 1] == Feed(states[k], data[k])
    ensures Crc(CRC64_ECMA_POLY, states[0], data) == states[|data|]
    decreases |data|
  {
    hide Steps, Xor, FromByte;
    if data != [] { CrcTrace(data[1..], states[1..]); }
  }

  /** The CRC states of the check string, byte by byte. */
  const CHECK_STATES: seq<word> := [
    ONES, 0xD5D0_F17A_6B6A_3512, 0xFBE2_9281_D80D_A6A7, 0xCFDC_D7BB_F8E3_3A9E, 0x31B1_786C_9947_3CD7,
    0xA258_B900_5AFB_A316, 0xFB95_1AC9_A23C_3731, 0x8FAF_60C9_9E6D_C25F, 0xA374_7FB7_D453_87F6, 0x66A2_3644_20E6_C605]

  lemma CheckStates()
    ensures Feed(0xFFFF_FFFF_FFFF_FFFF, 0x31) == 0xD5D0_F17A_6B6A_3512
    ensures Feed(0xD5D0_F17A_6B6A_3512, 0x32) == 0xFBE2_9281_D80D_A6A7
    ensures Feed(0xFBE2_9281_D80D_A6A7, 0x33) == 0xCFDC_D7BB_F8E3_3A9E
    ensures Feed(0xCFDC_D7BB_F8E3_3A9E, 0x34) == 0x31B1_786C_9947_3CD7
    ensures Feed(0x31B1_786C_9947_3CD7, 0x35) == 0xA258_B900_5AFB_A316
    ensures Feed(0xA258_B900_5AFB_A316, 0x36) == 0xFB95_1AC9_A23C_3731
    ensures Feed(0xFB95_1AC9_A23C_3731, 0x37) == 0x8FAF_60C9_9E6D_C25F
    ensures Feed(0x8FAF_60C9_9E6D_C25F, 0x38) == 0xA374_7FB7_D453_87F6
    ensures Feed(0xA374_7FB7_D453_87F6, 0x39) == 0x66A2_3644_20E6_C605
  {
  }

  /** The check value that is published for CRC-64/XZ: the CRC of the digits 1 to 9. */
  lemma CheckValue()
    ensures XzCrc64([0x31, 0x32, 0x33, 0x34, 0x35, 0x36, 0x37, 0x38, 0x39]) == 0x995D_C9BB_DF19_39FA
  {
    hide Feed, Crc;
    CheckStates();
    CrcTrace([0x31, 0x32, 0x33, 0x34, 0x35, 0x36, 0x37, 0x38, 0x39], CHECK_STATES);
  }

  // ---- Steps are linear ----

  lemma XorSwap(a: word, b: word, c: word, d: word)
    ensures Xor(Xor(a, b), Xor(c, d)) == Xor(Xor(a, c), Xor(b, d))
  {
    hide Xor;
    calc {
      Xor(Xor(a, b), Xor(c, d));
      { XorAssoc(a, b, Xor(c, d)); XorAssoc(b, c, d); XorComm(b, c); XorAssoc(c, b, d); }
      Xor(a, Xor(c, Xor(b, d)));
      { XorAssoc(a, c, Xor(b, d)); }
      Xor(Xor(a, c), Xor(b, d));
    }
  }

  lemma StepXor(p: word, a: word, b: word)
    ensures Step(p, Xor(a, b)) == Xor(Step(p, a), Step(p, b))
  {
    HalfXor(a, b);
    OddXor(a, b);
    var x, y := Half(a), Half(b);
    XorSwap(x, p, y, p);
    XorZero(p);
    XorZero(Xor(x, y));
    XorAssoc(x, y, p);
    XorAssoc(x, p, y);
    XorComm(p, y);
    hide Xor, Half, Odd;
  }

  lemma {:induction false} StepsXor(p: word, n: nat, a: word, b: word)
    ensures Steps(p, n, Xor(a, b)) == Xor(Steps(p, n, a), Steps(p, n, b))
  {
    hide Xor, Step;
    if n > 0 {
      StepXor(p, a, b);
      StepsXor(p, n - 1, Step(p, a), Step(p, b));
    }
  }

  lemma {:induction false} StepsAdd(p: word, n: nat, m: nat, d: word)
    ensures Steps(p, n + m, d) == Steps(p, m, Steps(p, n, d))
  {
    hide Step;
    if n > 0 { StepsAdd(p, n - 1, m, Step(p, d)); }
  }

  // ---- Steps are invertible ----

  function Unstep(p: word, d: word): word {
    if Top(d) then DoublePlusOne(Xor(p, d)) else Double(d)
  }

  function Unsteps(p: word, n: nat, d: word): word {
    if n == 0 then d else Unstep(p, Unsteps(p, n - 1, d))
  }

  /** Since the polynomial has the top bit set, a step can be undone. */
  lemma StepUnstep(p: word, d: word)
    requires Top(p)
    ensures Step(p, Unstep(p, d)) == d && Unstep(p, Step(p, d)) == d
  {
    TopXor(p, d);
    XorCancel(p, d);
    XorComm(p, Xor(p, d));
    if Top(d) { DoublePlusOneHalf(Xor(p, d)); } else { DoubleHalf(d); }
    HalfDouble(d);
    TopXor(Half(d), p);
    XorComm(Half(d), p);
    XorCancel(p, Half(d));
    hide Xor, Half, Odd, Top, Double, DoublePlusOne;
  }

  lemma {:induction false} StepsUnsteps(p: word, n: nat, d: word)
    requires Top(p)
    ensures Steps(p, n, Unsteps(p, n, d)) == d
  {
    hide Top, Step, Unstep;
    if n > 0 {
      StepUnstep(p, Unsteps(p, n - 1, d));
      StepsUnsteps(p, n - 1, d);
    }
  }

  lemma {:induction false} StepsInjective(p: word, n: nat, a: word, b: word)
    requires Top(p)
    ensures Steps(p, n, a) == Steps(p, n, b) <==> a == b
  {
    hide Top, Step, Unstep;
    if n > 0 {
      StepsInjective(p, n - 1, Step(p, a), Step(p, b));
      StepUnstep(p, a);
      StepUnstep(p, b);
    }
  }

  // ---- Eight steps of a word whose low byte is zero shift it by a byte ----

  lemma StepsEven(p: word, n: nat, d: word)
    requires n > 0 && !Odd(d)
    ensures Steps(p, n, d) == Steps(p, n - 1, Half(d))
  {
  }

  lemma StepsFour(p: word, n: nat, d: word)
    requires n >= 4 && d & 0xF == 0
    ensures Steps(p, n, d) == Steps(p, n - 4, d >> 4)
  {
    calc {
      Steps(p, n, d);
      { StepsEven(p, n, d); }
      Steps(p, n - 1, d >> 1);
      { StepsEven(p, n - 1, d >> 1); }
      Steps(p, n - 2, (d >> 1) >> 1);
      { StepsEven(p, n - 2, (d >> 1) >> 1); }
      Steps(p, n - 3, ((d >> 1) >> 1) >> 1);
      { StepsEven(p, n - 3, ((d >> 1) >> 1) >> 1); }
      Steps(p, n - 4, (((d >> 1) >> 1) >> 1) >> 1);
    }
    assert (((d >> 1) >> 1) >> 1) >> 1 == d >> 4;
  }

  lemma ByteShift(p: word, a: word)
    ensures Steps(p, 8, Shl8(a)) == Shr8(Shl8(a))
  {
    var d := a << 8;
    assert d & 0xF == 0 && (d >> 4) & 0xF == 0 && (d >> 4) >> 4 == d >> 8;
    StepsFour(p, 8, d);
    StepsFour(p, 4, d >> 4);
  }

  // ---- The table ----

  /** Entry b is what eight steps make of b. */
  ghost predicate IsLut(p: word, lut: seq<word>) {
    |lut| == 256 && forall b: byte :: lut[b as int] == Steps(p, 8, FromByte(b))
  }

  /** One table lookup replaces eight steps. */
  lemma TableByte(p: word, crc: word, b: byte)
    ensures Xor(Steps(p, 8, FromByte(LowByte(crc) ^ b)), Shr8(crc)) == Steps(p, 8, Xor(crc, FromByte(b)))
  {
    var low, high, x := FromByte(LowByte(crc)), Shl8(Shr8(crc)), FromByte(b);
    FromByteXor(LowByte(crc), b);
    Split(crc);
    ShrShlShr(crc);
    ByteShift(p, Shr8(crc));
    hide Xor, FromByte, LowByte, Shl8, Shr8, Steps;
    calc {
      Steps(p, 8, Xor(crc, x));
      Steps(p, 8, Xor(Xor(low, high), x));
      { XorAssoc(low, high, x); XorComm(high, x); XorAssoc(low, x, high); }
      Steps(p, 8, Xor(Xor(low, x), high));
      { StepsXor(p, 8, Xor(low, x), high); }
      Xor(Steps(p, 8, Xor(low, x)), Steps(p, 8, high));
      Xor(Steps(p, 8, FromByte(LowByte(crc) ^ b)), Shr8(crc));
    }
  }

  lemma StepIs(p: word, d: word, r: word)
    requires r == if Odd(d) then Xor(Half(d), p) else Half(d)
    ensures r == Step(p, d)
  {
  }

  /** The lookup table of a polynomial. */
  method GenLut(p: word) returns (lut: array<word>)
    ensures fresh(lut) && IsLut(p, lut[..])
  {
    hide Step, FromByte, Odd, Half, Xor;
    lut := new word[256];
    for i := 0 to 256
      invariant forall k :: 0 <= k < i ==> lut[k] == Steps(p, 8, FromByte(k as bv8))
    {
      var d := FromByte(i as bv8);
      for j := 0 to 8
        invariant Steps(p, 8 - j, d) == Steps(p, 8, FromByte(i as bv8))
        invariant forall k :: 0 <= k < i ==> lut[k] == Steps(p, 8, FromByte(k as bv8))
      {
        ghost var before := d;
        if Odd(d) {
          d := Xor(Half(d), p);
        } else {
          d := Half(d);
        }
        StepIs(p, before, d);
      }
      lut[i] := d;
    }
    forall b: byte ensures lut[b as int] == Steps(p, 8, FromByte(b)) {
      ByteOfInt(b);
    }
  }

  /** The table-driven CRC is the bitwise one. */
  method Update(ghost p: word, lut: array<word>, crc: word, data: seq<byte>) returns (r: word)
    requires IsLut(p, lut[..])
    ensures r == Crc(p, crc, data)
  {
    hide Xor, FromByte, Shr8, LowByte, Steps;
    r := crc;
    for i := 0 to |data|
      invariant Crc(p, r, data[i..]) == Crc(p, crc, data)
    {
      TableByte(p, r, data[i]);
      r := Xor(lut[(LowByte(r) ^ data[i]) as int], Shr8(r));
      assert data[i..][1..] == data[i + 1..];
    }
  }

  // ---- Up to eight bytes at once ----

  /** The little-endian word of up to eight bytes. */
  function FromLe(data: seq<byte>): word {
    if data == [] then ZERO else Xor(FromByte(data[0]), Shl8(FromLe(data[1..])))
  }

  /** The n low bytes of a word, lowest first. */
  function ToLe(a: word, n: nat): seq<byte> {
    if n == 0 then [] else [LowByte(a)] + ToLe(Shr8(a), n - 1)
  }

  lemma {:induction false} FromLeFits(data: seq<byte>)
    requires |data| <= 8
    ensures ShrBytes(|data|, FromLe(data)) == ZERO
    ensures |data| < 8 ==> Shr8(Shl8(FromLe(data))) == FromLe(data)
  {
    hide Xor, FromByte, Shr8, Shl8;
    if data != [] {
      FromLeFits(data[1..]);
      TakeHigh(data[0], FromLe(data[1..]));
    }
    if |data| < 8 { SevenBytes(|data|, FromLe(data)); }
  }

  lemma {:induction false} ToLeFromLe(data: seq<byte>)
    requires |data| <= 8
    ensures ToLe(FromLe(data), |data|) == data
  {
    hide Xor, FromByte, LowByte, Shr8, Shl8;
    if data != [] {
      ToLeFromLe(data[1..]);
      FromLeFits(data[1..]);
      TakeLow(data[0], FromLe(data[1..]));
      TakeHigh(data[0], FromLe(data[1..]));
    }
  }

  lemma {:induction false} FromLeToLe(a: word, n: nat)
    requires ShrBytes(n, a) == ZERO
    ensures |ToLe(a, n)| == n && FromLe(ToLe(a, n)) == a
    decreases n
  {
    hide Xor, FromByte, LowByte, Shr8, Shl8;
    if n > 0 {
      FromLeToLe(Shr8(a), n - 1);
      Split(a);
      assert ToLe(a, n)[1..] == ToLe(Shr8(a), n - 1);
    }
  }

  /** A word is determined by its eight bytes. */
  lemma ToLeInjective(a: word, b: word)
    ensures ToLe(a, 8) == ToLe(b, 8) <==> a == b
  {
    ShrEight(a);
    ShrEight(b);
    FromLeToLe(a, 8);
    FromLeToLe(b, 8);
  }

  /** n bytes of CRC are 8n steps on the state xor the little-endian word of the bytes. */
  lemma {:induction false} CrcCollapse(p: word, crc: word, data: seq<byte>)
    requires |data| <= 8
    ensures Crc(p, crc, data) == Steps(p, 8 * |data|, Xor(crc, FromLe(data)))
    decreases |data|
  {
    hide FromByte, Shl8, Shr8;
    if data == [] {
      XorZero(crc);
    } else {
      hide Xor, Steps;
      var x, rest := Xor(crc, FromByte(data[0])), data[1..];
      var y := FromLe(rest);
      calc {
        Steps(p, 8 * |data|, Xor(crc, FromLe(data)));
        { XorAssoc(crc, FromByte(data[0]), Shl8(y)); StepsAdd(p, 8, 8 * |rest|, Xor(x, Shl8(y))); }
        Steps(p, 8 * |rest|, Steps(p, 8, Xor(x, Shl8(y))));
        { StepsXor(p, 8, x, Shl8(y)); ByteShift(p, y); FromLeFits(rest); }
        Steps(p, 8 * |rest|, Xor(Steps(p, 8, x), y));
        { CrcCollapse(p, Steps(p, 8, x), rest); }
        Crc(p, crc, data);
      }
    }
  }

  /** The CRC of a byte string of any length is a bijection of the state. */
  lemma {:induction false} CrcStateInjective(p: word, a: word, b: word, data: seq<byte>)
    requires Top(p)
    ensures Crc(p, a, data) == Crc(p, b, data) <==> a == b
    decreases |data|
  {
    hide Xor, FromByte, Steps, Top;
    if data != [] {
      var x := FromByte(data[0]);
      CrcStateInjective(p, Steps(p, 8, Xor(a, x)), Steps(p, 8, Xor(b, x)), data[1..]);
      StepsInjective(p, 8, Xor(a, x), Xor(b, x));
      XorComm(a, x);
      XorComm(b, x);
      XorCancel(x, a);
      XorCancel(x, b);
    }
  }

  /** The eight bytes that take the CRC from one state to another. */
  function Bridge(p: word, from: word, to: word): seq<byte> {
    ToLe(Xor(from, Unsteps(p, 64, to)), 8)
  }

  lemma WordOfData(data: seq<byte>, w: word)
    requires |data| == 8
    ensures |ToLe(w, 8)| == 8
    ensures FromLe(data) == w <==> data == ToLe(w, 8)
  {
    hide ToLe, FromLe, ShrBytes;
    ShrEight(w);
    FromLeToLe(w, 8);
    ToLeFromLe(data);
  }

  lemma XorSolve(a: word, b: word, c: word)
    ensures Xor(a, b) == c <==> b == Xor(a, c)
  {
    hide Xor;
    XorCancel(a, b);
    XorCancel(a, c);
  }

  /** For every state, the CRC is a bijection from eight bytes of data to states. */
  lemma CrcDataBijective(p: word, crc: word, to: word, data: seq<byte>)
    requires Top(p) && |data| == 8
    ensures |Bridge(p, crc, to)| == 8
    ensures Crc(p, crc, data) == to <==> data == Bridge(p, crc, to)
  {
    hide Xor, Steps, Unsteps, Top, ToLe, FromLe, Crc;
    var u := Unsteps(p, 64, to);
    CrcCollapse(p, crc, data);
    StepsUnsteps(p, 64, to);
    StepsInjective(p, 64, Xor(crc, FromLe(data)), u);
    XorSolve(crc, FromLe(data), u);
    WordOfData(data, Xor(crc, u));
  }

  /** Different data of eight bytes lead to different states. */
  lemma CrcDataInjective(p: word, crc: word, a: seq<byte>, b: seq<byte>)
    requires Top(p) && |a| == |b| == 8
    ensures Crc(p, crc, a) == Crc(p, crc, b) <==> a == b
  {
    hide Crc, Bridge, Top;
    CrcDataBijective(p, crc, Crc(p, crc, b), a);
    CrcDataBijective(p, crc, Crc(p, crc, b), b);
  }
}
