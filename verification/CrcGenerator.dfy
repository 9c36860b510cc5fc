/** The CRC random number generator: a seekable counter-mode generator over CRC-64. */
module CrcGenerator {
  import opened Arithmetic
  import opened Bytes
  import opened Words
  import opened Crc64
  import opened Fold

  const CRC_SIZE: nat := 8
  const FOLDED_SEED_SIZE: nat := 8
  const WORDS: nat := 256
  const BASE_SIZE: nat := 2048
  const DEFAULT_CHUNK_FACTOR: nat := 1536

  // ---- The counter, little-endian ----

  /** The n low bytes of a number, lowest first. */
  function LeBytes(c: nat, n: nat): (r: seq<byte>)
    ensures |r| == n
    decreases n
  {
    if n == 0 then [] else [(c % 256) as bv8] + LeBytes(c / 256, n - 1)
  }

  function Pow256(n: nat): nat {
    if n == 0 then 1 else 256 * Pow256(n - 1)
  }

  lemma {:induction false} LeBytesInjective(a: nat, b: nat, n: nat)
    requires a < Pow256(n) && b < Pow256(n)
    ensures LeBytes(a, n) == LeBytes(b, n) <==> a == b
    decreases n
  {
    if n > 0 && LeBytes(a, n) == LeBytes(b, n) {
      assert LeBytes(a, n)[0] == LeBytes(b, n)[0] && LeBytes(a, n)[1..] == LeBytes(b, n)[1..];
      IntOfByte(a % 256);
      IntOfByte(b % 256);
      LeBytesInjective(a / 256, b / 256, n - 1);
    }
  }

  lemma LeBytesStep(c: nat, n: nat)
    requires n > 0
    ensures LeBytes(c, n) == [(c % 256) as bv8] + LeBytes(c / 256, n - 1) && Pow256(n) == 256 * Pow256(n - 1)
  {
  }

  /** Byte i is digit i of the number to the base 256. */
  lemma {:induction false} LeBytesDigit(c: nat, n: nat, i: nat)
    requires i < n
    ensures Pow256(i) > 0 && LeBytes(c, n)[i] as int == c / Pow256(i) % 256
    decreases n
  {
    Pow256Positive(i);
    if i == 0 {
      IntOfByte(c % 256);
    } else {
      LeBytesDigit(c / 256, n - 1, i - 1);
      DivDiv(c, Pow256(i - 1));
    }
  }

  /** A counter that wraps around gives the bytes of the number it stands for. */
  lemma {:induction false} LeBytesWrap(c: nat, n: nat)
    ensures LeBytes(c + Pow256(n), n) == LeBytes(c, n)
    decreases n
  {
    hide Pow256;
    if n > 0 {
      hide LeBytes;
      LeBytesStep(c, n);
      LeBytesStep(c + Pow256(n), n);
      AddMultiple(c, 256, Pow256(n - 1));
      LeBytesWrap(c / 256, n - 1);
    }
  }

  lemma Pow256Eight()
    ensures Pow256(8) == U64_LIMIT
  {
    assert Pow256(4) == 0x1_0000_0000;
  }

  // ---- The blocks, one word at a time ----

  /** The CRC state at the start of a block: all ones, then the seed, then the counter. */
  function BlockState(fold: seq<byte>, c: nat): word {
    Crc(CRC64_ECMA_POLY, Crc(CRC64_ECMA_POLY, ONES, fold), LeBytes(c, 8))
  }

  /** The CRC state after the first j words of a block. */
  function WordState(fold: seq<byte>, c: nat, j: nat): word
    requires j <= WORDS
  {
    if j == 0 then BlockState(fold, c) else Crc(CRC64_ECMA_POLY, WordState(fold, c, j - 1), [(j - 1) as bv8])
  }

  /** Word j of block c: the inverted state, little-endian. */
  function Word(fold: seq<byte>, c: nat, j: nat): seq<byte>
    requires j < WORDS
  {
    ToLe(Not(WordState(fold, c, j + 1)), 8)
  }

  function FirstWords(fold: seq<byte>, c: nat, n: nat): seq<byte>
    requires n <= WORDS
  {
    if n == 0 then [] else FirstWords(fold, c, n - 1) + Word(fold, c, n - 1)
  }

  /** Block number c of the generator: all the bytes that one step of its counter makes. */
  function Block(fold: seq<byte>, c: nat): seq<byte> {
    FirstWords(fold, c, WORDS)
  }

  /** n consecutive blocks. */
  function Blocks(fold: seq<byte>, c: nat, n: nat): seq<byte> {
    if n == 0 then [] else Blocks(fold, c, n - 1) + Block(fold, c + n - 1)
  }

  lemma {:induction false} FirstWordsLength(fold: seq<byte>, c: nat, n: nat)
    requires n <= WORDS
    ensures |FirstWords(fold, c, n)| == CRC_SIZE * n
  {
    if n > 0 {
      FirstWordsLength(fold, c, n - 1);
      WordLength(fold, c, n - 1);
    }
  }

  lemma WordLength(fold: seq<byte>, c: nat, j: nat)
    requires j < WORDS
    ensures |Word(fold, c, j)| == CRC_SIZE
  {
    hide Not, WordState;
    var w := Not(WordState(fold, c, j + 1));
    ShrEight(w);
    FromLeToLe(w, 8);
  }

  lemma BlockLength(fold: seq<byte>, c: nat)
    ensures |Block(fold, c)| == BASE_SIZE
  {
    FirstWordsLength(fold, c, WORDS);
  }

  lemma {:induction false} BlocksLength(fold: seq<byte>, c: nat, n: nat)
    ensures |Blocks(fold, c, n)| == BASE_SIZE * n
  {
    if n > 0 {
      BlocksLength(fold, c, n - 1);
      BlockLength(fold, c + n - 1);
    }
  }

  // ---- The generator ----

  lemma {:induction false} LeBytesMod(c: nat, n: nat)
    ensures Pow256(n) > 0 && LeBytes(c % Pow256(n), n) == LeBytes(c, n)
    decreases c
  {
    Pow256Positive(n);
    ModSubtract(c, Pow256(n));
    hide LeBytes, Pow256;
    if c >= Pow256(n) {
      LeBytesMod(c - Pow256(n), n);
      LeBytesWrap(c - Pow256(n), n);
    }
  }

  lemma {:induction false} Pow256Positive(n: nat)
    ensures Pow256(n) > 0
  {
    if n > 0 { Pow256Positive(n - 1); }
  }

  /** What a 64-bit counter contributes, although it may have wrapped around. */
  lemma WrappedBlockState(fold: seq<byte>, c: nat, counter: u64)
    requires counter as nat == c % U64_LIMIT
    ensures Crc(CRC64_ECMA_POLY, Crc(CRC64_ECMA_POLY, ONES, fold), LeBytes(counter as nat, 8)) == BlockState(fold, c)
  {
    hide Crc, LeBytes;
    Pow256Eight();
    LeBytesMod(c, 8);
  }

  /** The counter after a block, as in a build without overflow checks. */
  function Increment(counter: u64): u64 {
    if counter == U64_MAX then 0 else counter + 1
  }

  lemma IncrementWraps(c: nat, counter: u64)
    requires counter as nat == c % U64_LIMIT
    ensures Increment(counter) as nat == (c + 1) % U64_LIMIT
  {
    var q := c / U64_LIMIT;
    assert c == q * U64_LIMIT + counter as nat;
    if counter == U64_MAX {
      DivModUnique(c + 1, U64_LIMIT, q + 1, 0);
    } else {
      DivModUnique(c + 1, U64_LIMIT, q, counter as nat + 1);
    }
  }

  class GeneratorCrc {
    const foldedSeed: seq<byte>
    const lut: array<word>
    var counter: u64

    ghost predicate Valid()
      reads lut
    {
      |foldedSeed| == FOLDED_SEED_SIZE && IsLut(CRC64_ECMA_POLY, lut[..])
    }

    constructor (seed: seq<byte>)
      requires seed != []
      ensures Valid() && fresh(lut) && foldedSeed == Folded(seed, 8) && counter == 0
    {
      var table := GenLut(CRC64_ECMA_POLY);
      var fold := FoldBytes(seed, FOLDED_SEED_SIZE);
      foldedSeed, lut, counter := fold[..], table, 0;
    }

    lemma FirstState(c: nat)
      ensures WordState(foldedSeed, c, 0) == BlockState(foldedSeed, c)
    {
    }

    lemma NextState(c: nat, j: nat)
      requires j < WORDS
      ensures WordState(foldedSeed, c, j + 1) == Crc(CRC64_ECMA_POLY, WordState(foldedSeed, c, j), [j as bv8])
    {
    }

    /** Write one block, word by word, from the CRC state at its start. */
    method FillBlock(buf: array<byte>, chunkOffs: nat, ghost c: nat, state: word)
      requires Valid() && buf != lut as object && chunkOffs + BASE_SIZE <= buf.Length
      requires state == BlockState(foldedSeed, c)
      modifies buf
      ensures buf[..chunkOffs] == old(buf[..chunkOffs])
      ensures buf[chunkOffs..chunkOffs + BASE_SIZE] == Block(foldedSeed, c)
    {
      hide IsLut, Crc, Crc64.ToLe, Not, BlockState, WordState;
      FirstState(c);
      var crc := state;
      for offs := 0 to BASE_SIZE / CRC_SIZE
        invariant Valid() && crc == WordState(foldedSeed, c, offs)
        invariant buf[..chunkOffs] == old(buf[..chunkOffs])
        invariant buf[chunkOffs..chunkOffs + offs * CRC_SIZE] == FirstWords(foldedSeed, c, offs)
      {
        NextState(c, offs);
        crc := Update(CRC64_ECMA_POLY, lut, crc, [offs as bv8]);
        var crcBytes := ToLe(Not(crc), CRC_SIZE);
        WordLength(foldedSeed, c, offs);
        var begin := chunkOffs + offs * CRC_SIZE;
        CopyFromSlice(buf, begin, crcBytes);
        assert buf[chunkOffs..begin + CRC_SIZE] == buf[chunkOffs..begin] + buf[begin..begin + CRC_SIZE];
      }
    }

    static method CopyFromSlice(buf: array<byte>, begin: nat, data: seq<byte>)
      requires begin + |data| <= buf.Length
      modifies buf
      ensures buf[..begin] == old(buf[..begin]) && buf[begin..begin + |data|] == data
    {
      for k := 0 to |data|
        invariant buf[..begin] == old(buf[..begin]) && buf[begin..begin + k] == data[..k]
      {
        buf[begin + k] := data[k];
      }
    }

    /** Fill the buffer with the next `count` blocks. Nothing of its old contents is left. */
    method Next(buf: array<byte>, count: nat)
      requires Valid() && buf != lut as object && buf.Length == BASE_SIZE * count
      modifies this, buf
      ensures buf[..] == Blocks(foldedSeed, old(counter) as nat, count)
      ensures counter as nat == (old(counter) as nat + count) % U64_LIMIT
    {
      hide IsLut, Crc, LeBytes, Block, Increment;
      ghost var c := counter as nat;
      for i := 0 to count
        invariant Valid() && counter as nat == (c + i) % U64_LIMIT
        invariant buf[..i * BASE_SIZE] == Blocks(foldedSeed, c, i)
      {
        var chunkOffs := i * BASE_SIZE;
        var crc := ONES;
        crc := Update(CRC64_ECMA_POLY, lut, crc, foldedSeed);
        crc := Update(CRC64_ECMA_POLY, lut, crc, LeBytes(counter as nat, 8));
        WrappedBlockState(foldedSeed, c + i, counter);
        IncrementWraps(c + i, counter);
        counter := Increment(counter);
        FillBlock(buf, chunkOffs, c + i, crc);
        assert buf[..chunkOffs + BASE_SIZE] == buf[..chunkOffs] + buf[chunkOffs..chunkOffs + BASE_SIZE];
      }
    }

    method Seek(byteOffset: u64) returns (ok: bool)
      modifies this
      ensures ok <==> byteOffset as nat % BASE_SIZE == 0
      ensures ok ==> counter as nat * BASE_SIZE == byteOffset as nat
      ensures !ok ==> counter == old(counter)
    {
      ok := byteOffset % BASE_SIZE as u64 == 0;
      if ok { counter := byteOffset / BASE_SIZE as u64; }
    }
  }
}
