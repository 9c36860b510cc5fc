/** 64-bit words and their bytes. Each operation has a name, so that proofs can hide what it
    does to the bits and use its laws instead. */
module Words {
  import opened Bytes

  type word = bv64

  const ZERO: word := 0
  const ONES: word := 0xFFFF_FFFF_FFFF_FFFF

  function Xor(a: word, b: word): word { a ^ b }
  function Not(a: word): word { a ^ 0xFFFF_FFFF_FFFF_FFFF }
  function Half(a: word): word { a >> 1 }
  function Double(a: word): word { a << 1 }
  function DoublePlusOne(a: word): word { (a << 1) | 1 }
  predicate Odd(a: word) { a & 1 != 0 }
  predicate Top(a: word) { a & 0x8000_0000_0000_0000 != 0 }
  function Shr8(a: word): word { a >> 8 }
  function Shl8(a: word): word { a << 8 }
  function LowByte(a: word): byte { (a & 0xFF) as bv8 }
  function FromByte(b: byte): word { b as bv64 }

  // ---- Exclusive or ----

  lemma XorAssoc(a: word, b: word, c: word)
    ensures Xor(Xor(a, b), c) == Xor(a, Xor(b, c))
  {
    calc { Xor(Xor(a, b), c); Xor(a ^ b, c); (a ^ b) ^ c; a ^ (b ^ c); Xor(a, b ^ c); Xor(a, Xor(b, c)); }
  }

  lemma XorComm(a: word, b: word)
    ensures Xor(a, b) == Xor(b, a)
  {
  }

  lemma XorCancel(a: word, b: word)
    ensures Xor(a, Xor(a, b)) == b
  {
    calc { Xor(a, Xor(a, b)); Xor(a, a ^ b); a ^ (a ^ b); b; }
  }

  lemma XorZero(a: word)
    ensures Xor(a, ZERO) == a && Xor(a, a) == ZERO
  {
  }

  lemma NotNot(a: word)
    ensures Not(Not(a)) == a
  {
    calc { Not(Not(a)); Not(a ^ 0xFFFF_FFFF_FFFF_FFFF); a; }
  }

  // ---- One-bit shifts ----

  lemma HalfXor(a: word, b: word)
    ensures Half(Xor(a, b)) == Xor(Half(a), Half(b))
  {
    calc {
      Half(Xor(a, b));
      Half(a ^ b);
      (a ^ b) >> 1;
      (a >> 1) ^ (b >> 1);
      Xor(a >> 1, b >> 1);
      Xor(Half(a), Half(b));
    }
  }

  lemma OddXor(a: word, b: word)
    ensures Odd(Xor(a, b)) == (Odd(a) != Odd(b))
  {
  }

  /** A word is twice its half, plus its lowest bit; and the half leaves the top bit free. */
  lemma HalfDouble(a: word)
    ensures !Top(Half(a))
    ensures a == if Odd(a) then DoublePlusOne(Half(a)) else Double(Half(a))
  {
  }

  lemma DoubleHalf(a: word)
    requires !Top(a)
    ensures !Odd(Double(a)) && Half(Double(a)) == a
  {
    calc { Half(Double(a)); Half(a << 1); (a << 1) >> 1; a; }
    assert (a << 1) & 1 == 0;
  }

  lemma DoublePlusOneHalf(a: word)
    requires !Top(a)
    ensures Odd(DoublePlusOne(a)) && Half(DoublePlusOne(a)) == a
  {
    calc { Half(DoublePlusOne(a)); Half((a << 1) | 1); ((a << 1) | 1) >> 1; a; }
    assert ((a << 1) | 1) & 1 == 1;
  }

  lemma TopXor(a: word, b: word)
    ensures Top(Xor(a, b)) == (Top(a) != Top(b))
  {
  }

  // ---- Bytes ----

  lemma LowBits(a: word)
    ensures FromByte(LowByte(a)) == a & 0xFF
  {
  }

  lemma RawSplit(a: word)
    ensures (a & 0xFF) ^ ((a >> 8) << 8) == a
  {
  }

  lemma Split(a: word)
    ensures a == Xor(FromByte(LowByte(a)), Shl8(Shr8(a)))
  {
    LowBits(a);
    RawSplit(a);
    hide FromByte, LowByte;
  }

  lemma FromByteXor(b: byte, c: byte)
    ensures FromByte(b ^ c) == Xor(FromByte(b), FromByte(c))
  {
  }

  /** A byte below a word that leaves room for it can be taken off again. */
  lemma TakeLow(b: byte, a: word)
    ensures LowByte(Xor(FromByte(b), Shl8(a))) == b
  {
    calc {
      LowByte(Xor(FromByte(b), Shl8(a)));
      LowByte((b as bv64) ^ (a << 8));
      ((((b as bv64) ^ (a << 8)) & 0xFF) as bv8);
      b;
    }
  }

  lemma Shr8Xor(a: word, b: word)
    ensures Shr8(Xor(a, b)) == Xor(Shr8(a), Shr8(b))
  {
    calc {
      Shr8(Xor(a, b));
      Shr8(a ^ b);
      (a ^ b) >> 8;
      (a >> 8) ^ (b >> 8);
      Xor(a >> 8, b >> 8);
      Xor(Shr8(a), Shr8(b));
    }
  }

  lemma Shr8Byte(b: byte)
    ensures Shr8(FromByte(b)) == ZERO && LowByte(FromByte(b)) == b
  {
  }

  lemma ShrShlShr(a: word)
    ensures Shr8(Shl8(Shr8(a))) == Shr8(a)
  {
    calc { Shr8(Shl8(Shr8(a))); Shr8(Shl8(a >> 8)); Shr8((a >> 8) << 8); ((a >> 8) << 8) >> 8; a >> 8; Shr8(a); }
  }

  lemma TakeHigh(b: byte, a: word)
    ensures Shr8(Xor(FromByte(b), Shl8(a))) == Shr8(Shl8(a))
  {
    Shr8Xor(FromByte(b), Shl8(a));
    Shr8Byte(b);
    hide FromByte, Shl8, Shr8, Xor;
    XorComm(ZERO, Shr8(Shl8(a)));
    XorZero(Shr8(Shl8(a)));
  }

  /** n bytes shifted out at the bottom. */
  function ShrBytes(n: nat, a: word): word {
    if n == 0 then a else ShrBytes(n - 1, Shr8(a))
  }

  lemma Shr8Zero()
    ensures Shr8(ZERO) == ZERO && Shl8(ZERO) == ZERO && FromByte(0) == ZERO
  {
  }

  lemma {:induction false} ShrBytesZero(n: nat)
    ensures ShrBytes(n, ZERO) == ZERO
  {
    if n > 0 {
      Shr8Zero();
      hide Shr8;
      ShrBytesZero(n - 1);
    }
  }

  lemma {:induction false} ShrBytesMore(n: nat, m: nat, a: word)
    requires ShrBytes(n, a) == ZERO && n <= m
    ensures ShrBytes(m, a) == ZERO
  {
    hide Shr8;
    if n == 0 { ShrBytesZero(m); } else { ShrBytesMore(n - 1, m - 1, Shr8(a)); }
  }

  lemma ShrBytesOne(n: nat, a: word)
    requires n > 0
    ensures ShrBytes(n, a) == ShrBytes(n - 1, Shr8(a))
  {
  }

  lemma ShrFour(n: nat, a: word)
    requires n >= 4
    ensures ShrBytes(n, a) == ShrBytes(n - 4, a >> 32)
  {
    calc {
      ShrBytes(n, a);
      { ShrBytesOne(n, a); }
      ShrBytes(n - 1, a >> 8);
      { ShrBytesOne(n - 1, a >> 8); }
      ShrBytes(n - 2, (a >> 8) >> 8);
      { ShrBytesOne(n - 2, (a >> 8) >> 8); }
      ShrBytes(n - 3, ((a >> 8) >> 8) >> 8);
      { ShrBytesOne(n - 3, ((a >> 8) >> 8) >> 8); }
      ShrBytes(n - 4, (((a >> 8) >> 8) >> 8) >> 8);
    }
    assert (((a >> 8) >> 8) >> 8) >> 8 == a >> 32;
  }

  lemma ShrThree(a: word)
    ensures ShrBytes(3, a) == a >> 24
  {
    calc {
      ShrBytes(3, a);
      { ShrBytesOne(3, a); }
      ShrBytes(2, a >> 8);
      { ShrBytesOne(2, a >> 8); }
      ShrBytes(1, (a >> 8) >> 8);
      { ShrBytesOne(1, (a >> 8) >> 8); }
      ShrBytes(0, ((a >> 8) >> 8) >> 8);
      ((a >> 8) >> 8) >> 8;
    }
    assert ((a >> 8) >> 8) >> 8 == a >> 24;
  }

  lemma ShrSeven(a: word)
    ensures ShrBytes(7, a) == a >> 56
  {
    ShrFour(7, a);
    ShrThree(a >> 32);
    assert (a >> 32) >> 24 == a >> 56;
  }

  /** Eight bytes are all of a word. */
  lemma ShrEight(a: word)
    ensures ShrBytes(8, a) == ZERO
  {
    ShrFour(8, a);
    ShrFour(4, a >> 32);
    assert (a >> 32) >> 32 == 0;
  }

  /** Seven bytes can be shifted up by one without a loss. */
  lemma SevenBytes(n: nat, a: word)
    requires n <= 7 && ShrBytes(n, a) == ZERO
    ensures Shr8(Shl8(a)) == a
  {
    ShrBytesMore(n, 7, a);
    ShrSeven(a);
    NoTop(a);
  }

  lemma NoTop(a: word)
    requires a >> 56 == 0
    ensures Shr8(Shl8(a)) == a
  {
  }
}
