/** What the CRC generator's stream is like: it never repeats, seeds do not mix, and it is an
    instance of the generator contract. */
module CrcStream {
  import opened Arithmetic
  import opened Bytes
  import opened Words
  import opened Crc64
  import opened Fold
  import opened CrcGenerator
  import Generator
  import Interleave
  import StreamAgg

  lemma PolyTop()
    ensures Top(CRC64_ECMA_POLY)
  {
  }

  // ---- What a word is ----

  /** The bytes 0, 1, ..., n - 1. */
  function Offsets(n: nat): seq<byte>
    requires n <= WORDS
  {
    if n == 0 then [] else Offsets(n - 1) + [(n - 1) as bv8]
  }

  lemma {:induction false} WordStateIs(fold: seq<byte>, c: nat, j: nat)
    requires j <= WORDS
    ensures WordState(fold, c, j) == Crc(CRC64_ECMA_POLY, ONES, (fold + LeBytes(c, 8)) + Offsets(j))
  {
    hide Crc, LeBytes;
    var data := fold + LeBytes(c, 8);
    if j == 0 {
      assert data + Offsets(0) == data;
      CrcAppend(CRC64_ECMA_POLY, ONES, fold, LeBytes(c, 8));
    } else {
      WordStateIs(fold, c, j - 1);
      assert data + Offsets(j) == (data + Offsets(j - 1)) + [(j - 1) as bv8];
      CrcAppend(CRC64_ECMA_POLY, ONES, data + Offsets(j - 1), [(j - 1) as bv8]);
    }
  }

  /** Word j of block c is the CRC64 of the .xz format, in little-endian order, of the folded
      seed, the counter and the bytes 0 to j. */
  lemma WordIsXzCrc64(fold: seq<byte>, c: nat, j: nat)
    requires j < WORDS
    ensures Word(fold, c, j) == ToLe(XzCrc64((fold + LeBytes(c, 8)) + Offsets(j + 1)), CRC_SIZE)
  {
    hide Not, Crc, LeBytes, WordState;
    WordStateIs(fold, c, j + 1);
  }

  // ---- Two words at the same place of two blocks ----

  lemma {:induction false} WordStateInjective(f1: seq<byte>, c1: nat, f2: seq<byte>, c2: nat, j: nat)
    requires j <= WORDS
    ensures WordState(f1, c1, j) == WordState(f2, c2, j) <==> BlockState(f1, c1) == BlockState(f2, c2)
  {
    hide Crc, BlockState, Top;
    if j > 0 {
      WordStateInjective(f1, c1, f2, c2, j - 1);
      PolyTop();
      CrcStateInjective(CRC64_ECMA_POLY, WordState(f1, c1, j - 1), WordState(f2, c2, j - 1), [(j - 1) as bv8]);
    }
  }

  lemma WordInjective(f1: seq<byte>, c1: nat, f2: seq<byte>, c2: nat, j: nat)
    requires j < WORDS
    ensures Word(f1, c1, j) == Word(f2, c2, j) <==> BlockState(f1, c1) == BlockState(f2, c2)
  {
    hide WordState, BlockState, Not, ToLe;
    var a, b := WordState(f1, c1, j + 1), WordState(f2, c2, j + 1);
    WordStateInjective(f1, c1, f2, c2, j + 1);
    ToLeInjective(Not(a), Not(b));
    NotNot(a);
    NotNot(b);
  }

  lemma BlockStateCounter(fold: seq<byte>, c1: nat, c2: nat)
    ensures BlockState(fold, c1) == BlockState(fold, c2) <==> c1 % U64_LIMIT == c2 % U64_LIMIT
  {
    hide Crc, Top, LeBytes;
    PolyTop();
    Pow256Eight();
    LeBytesMod(c1, 8);
    LeBytesMod(c2, 8);
    LeBytesInjective(c1 % U64_LIMIT, c2 % U64_LIMIT, 8);
    CrcDataInjective(CRC64_ECMA_POLY, Crc(CRC64_ECMA_POLY, ONES, fold), LeBytes(c1, 8), LeBytes(c2, 8));
  }

  lemma BlockStateSeed(f1: seq<byte>, f2: seq<byte>, c: nat)
    requires |f1| == |f2| == FOLDED_SEED_SIZE
    ensures BlockState(f1, c) == BlockState(f2, c) <==> f1 == f2
  {
    hide Crc, Top, LeBytes;
    PolyTop();
    CrcDataInjective(CRC64_ECMA_POLY, ONES, f1, f2);
    CrcStateInjective(CRC64_ECMA_POLY, Crc(CRC64_ECMA_POLY, ONES, f1), Crc(CRC64_ECMA_POLY, ONES, f2), LeBytes(c, 8));
  }

  // ---- Where a word lies ----

  /** Aligned word number k of a byte string. */
  function WordAt(data: seq<byte>, k: nat): (r: seq<byte>)
    requires CRC_SIZE * (k + 1) <= |data|
    ensures |r| == CRC_SIZE
  {
    data[CRC_SIZE * k..CRC_SIZE * k + CRC_SIZE]
  }

  lemma {:induction false} FirstWordsAt(fold: seq<byte>, c: nat, n: nat, j: nat)
    requires j < n <= WORDS
    ensures |FirstWords(fold, c, n)| == CRC_SIZE * n && WordAt(FirstWords(fold, c, n), j) == Word(fold, c, j)
  {
    hide Word;
    FirstWordsLength(fold, c, n);
    FirstWordsLength(fold, c, n - 1);
    WordLength(fold, c, n - 1);
    if j < n - 1 { FirstWordsAt(fold, c, n - 1, j); }
  }

  /** Word j of block i of consecutive blocks. */
  lemma {:induction false} BlocksAt(fold: seq<byte>, c: nat, n: nat, i: nat, j: nat)
    requires i < n && j < WORDS
    ensures |Blocks(fold, c, n)| == BASE_SIZE * n
    ensures WordAt(Blocks(fold, c, n), WORDS * i + j) == Word(fold, c + i, j)
  {
    hide Word, FirstWords;
    BlocksLength(fold, c, n);
    BlocksLength(fold, c, n - 1);
    BlockLength(fold, c + n - 1);
    if i < n - 1 {
      BlocksAt(fold, c, n - 1, i, j);
    } else {
      FirstWordsAt(fold, c + i, WORDS, j);
    }
  }

  // ---- The laws ----

  /** Generating a + b blocks is generating a, then b. */
  lemma {:induction false} BlocksAppend(fold: seq<byte>, c: nat, a: nat, b: nat)
    ensures Blocks(fold, c, a + b) == Blocks(fold, c, a) + Blocks(fold, c + a, b)
  {
    hide Block;
    if b > 0 { BlocksAppend(fold, c, a, b - 1); }
  }

  /** The stream never repeats: at two block numbers, a word is the same if and only if the
      64-bit counter is. */
  lemma NeverRepeats(fold: seq<byte>, c1: nat, c2: nat, j: nat)
    requires j < WORDS
    ensures |Block(fold, c1)| == |Block(fold, c2)| == BASE_SIZE
    ensures WordAt(Block(fold, c1), j) == WordAt(Block(fold, c2), j) <==> c1 % U64_LIMIT == c2 % U64_LIMIT
  {
    FirstWordsAt(fold, c1, WORDS, j);
    FirstWordsAt(fold, c2, WORDS, j);
    hide Word, FirstWords, BlockState;
    WordInjective(fold, c1, fold, c2, j);
    BlockStateCounter(fold, c1, c2);
  }

  /** Seed separation: if the folds of two seeds are equal, so are the streams; if not, the
      streams differ in every aligned word. */
  lemma SeedSeparation(seed1: seq<byte>, seed2: seq<byte>, c: nat, j: nat)
    requires j < WORDS
    ensures var f1, f2 := Folded(seed1, 8), Folded(seed2, 8);
      && |Block(f1, c)| == |Block(f2, c)| == 2048
      && (WordAt(Block(f1, c), j) == WordAt(Block(f2, c), j) <==> f1 == f2)
  {
    hide Folded, Word, FirstWords, BlockState;
    var f1, f2 := Folded(seed1, 8), Folded(seed2, 8);
    FirstWordsAt(f1, c, WORDS, j);
    FirstWordsAt(f2, c, WORDS, j);
    WordInjective(f1, c, f2, c, j);
    BlockStateSeed(f1, f2, c);
  }

  /** Two seeds of the same length that differ in exactly one byte never share a word. */
  lemma OneByteSeparates(seed: seq<byte>, i: nat, x: byte, c: nat, j: nat)
    requires i < |seed| && x != seed[i] && j < WORDS
    ensures var f1, f2 := Folded(seed, 8), Folded(seed[i := x], 8);
      && |Block(f1, c)| == |Block(f2, c)| == BASE_SIZE
      && WordAt(Block(f1, c), j) != WordAt(Block(f2, c), j)
  {
    hide Residue, Block, Xor8;
    SeedSeparation(seed, seed[i := x], c, j);
    var k := i % FOLDED_SEED_SIZE;
    OneByte(seed, FOLDED_SEED_SIZE, k, i, x);
    XorDiffers(Residue(seed, FOLDED_SEED_SIZE, k), seed[i], x);
    assert Folded(seed, FOLDED_SEED_SIZE)[k] != Folded(seed[i := x], FOLDED_SEED_SIZE)[k];
  }

  lemma XorDiffers(a: byte, b: byte, c: byte)
    requires b != c
    ensures Xor8(a, Xor8(b, c)) != a
  {
  }

  /** What comes after seeking a new generator to block k. */
  method AfterSeek(seed: seq<byte>, k: u64, n: nat) returns (r: array<byte>)
    requires seed != [] && k as nat * BASE_SIZE < U64_LIMIT
    ensures r[..] == Blocks(Folded(seed, 8), k as nat, n)
  {
    hide IsLut, Folded, Blocks;
    var g := new GeneratorCrc(seed);
    var ok := g.Seek(k * BASE_SIZE as u64);
    assert ok && g.counter == k;
    r := new byte[BASE_SIZE * n];
    g.Next(r, n);
  }

  /** The same comes after generating k blocks and throwing them away. */
  method AfterSkip(seed: seq<byte>, k: u64, n: nat) returns (r: array<byte>)
    requires seed != []
    ensures r[..] == Blocks(Folded(seed, 8), k as nat, n)
  {
    hide IsLut, Folded, Blocks;
    var g := new GeneratorCrc(seed);
    var discard := new byte[BASE_SIZE * k as nat];
    g.Next(discard, k as nat);
    SmallMod(k as nat, U64_LIMIT);
    r := new byte[BASE_SIZE * n];
    g.Next(r, n);
  }

  // ---- The generator contract ----

  /** A stream whose thread t runs a CRC generator on seed(t). */
  function CrcConfig(seed: nat -> seq<byte>, threads: nat, maxThres: int, loThres: int, factor: nat,
                     invert: bool): Generator.Config
  {
    Generator.Config(threads, maxThres, loThres, BASE_SIZE, factor, invert,
      (t: nat, c: nat) => Block(Folded(seed(t), FOLDED_SEED_SIZE), c),
      (t: nat, c: nat, buf: seq<byte>) => Blocks(Folded(seed(t), FOLDED_SEED_SIZE), c, |buf| / BASE_SIZE))
  }

  /** The configuration is a CRC stream with these thread seeds. */
  ghost predicate IsCrc(cfg: Generator.Config, seed: nat -> seq<byte>) {
    cfg == CrcConfig(seed, cfg.threads, cfg.maxThres, cfg.loThres, cfg.factor, cfg.invert)
  }

  lemma {:induction false} CrcBlocks(cfg: Generator.Config, fold: seq<byte>, t: nat, c: nat, n: nat)
    requires forall b :: cfg.block(t, b) == Block(fold, b)
    ensures cfg.Blocks(t, c, n) == Blocks(fold, c, n)
  {
    hide Block;
    if n > 0 { CrcBlocks(cfg, fold, t, c, n - 1); }
  }

  lemma CrcIsLawful(seed: nat -> seq<byte>, threads: nat, maxThres: int, loThres: int, factor: nat, invert: bool)
    requires threads > 0 && 0 <= loThres < maxThres && factor > 0
    ensures var cfg := CrcConfig(seed, threads, maxThres, loThres, factor, invert);
      cfg.Lawful() && IsCrc(cfg, seed) && cfg.invert == invert
  {
    hide Block, Folded;
    var cfg := CrcConfig(seed, threads, maxThres, loThres, factor, invert);
    forall t, c ensures |cfg.block(t, c)| == BASE_SIZE {
      BlockLength(Folded(seed(t), FOLDED_SEED_SIZE), c);
    }
    forall t, c, buf: seq<byte> | |buf| == cfg.ChunkSize() ensures cfg.next(t, c, buf) == cfg.Blocks(t, c, factor) {
      CrcBlocks(cfg, Folded(seed(t), FOLDED_SEED_SIZE), t, c, factor);
    }
  }

  /** The program's CRC stream, with its own watermarks and chunk factor, is one that everything
      proved about streams applies to. Its chunks are 3 MiB, whole sectors of any usual size. */
  lemma CrcDefault(seed: nat -> seq<byte>, threads: nat, invert: bool)
    requires 0 < threads <= 0x1_0000
    ensures var cfg := CrcConfig(seed, threads, Generator.MAX_THRES, Generator.LO_THRES, DEFAULT_CHUNK_FACTOR, invert);
      && cfg.Lawful() && IsCrc(cfg, seed) && StreamAgg.Sized(cfg) && cfg.threads == threads && cfg.invert == invert
      && cfg.maxThres == 10 && cfg.loThres == 6 && cfg.baseSize == 2048 && cfg.factor == 1536
      && cfg.ChunkSize() == 3 * 1024 * 1024 && cfg.ChunkSize() % 512 == 0 && cfg.ChunkSize() % 4096 == 0
  {
    hide Block, Folded, Generator.Config.Lawful;
    CrcIsLawful(seed, threads, Generator.MAX_THRES, Generator.LO_THRES, DEFAULT_CHUNK_FACTOR, invert);
  }

  lemma {:induction false} SameWords(fold: seq<byte>, c1: nat, c2: nat, n: nat)
    requires BlockState(fold, c1) == BlockState(fold, c2) && n <= WORDS
    ensures WordState(fold, c1, n) == WordState(fold, c2, n) && FirstWords(fold, c1, n) == FirstWords(fold, c2, n)
  {
    hide BlockState, Crc, Crc64.ToLe;
    if n > 0 { SameWords(fold, c1, c2, n - 1); }
  }

  /** A counter that has wrapped around makes the same blocks. */
  lemma {:induction false} BlocksWrap(fold: seq<byte>, c: nat, n: nat)
    ensures Blocks(fold, c % U64_LIMIT, n) == Blocks(fold, c, n)
  {
    hide BlockState, FirstWords;
    if n > 0 {
      BlocksWrap(fold, c, n - 1);
      ModAdd(c, n - 1, U64_LIMIT);
      BlockStateCounter(fold, c % U64_LIMIT + (n - 1), c + (n - 1));
      SameWords(fold, c % U64_LIMIT + (n - 1), c + (n - 1), WORDS);
    }
  }

  /** The counter stands for block number c, although it may have wrapped around. */
  predicate CounterAt(counter: u64, c: nat) {
    counter as nat == c % U64_LIMIT
  }

  lemma CounterAtStart(counter: u64)
    ensures CounterAt(counter, counter as nat)
  {
    SmallMod(counter as nat, U64_LIMIT);
  }

  /** One call of `next`, from block number c on. */
  method NextFrom(g: GeneratorCrc, buf: array<byte>, count: nat, ghost c: nat)
    requires g.Valid() && buf != g.lut as object && buf.Length == BASE_SIZE * count
    requires CounterAt(g.counter, c)
    modifies g, buf
    ensures buf[..] == Blocks(g.foldedSeed, c, count)
    ensures CounterAt(g.counter, c + count)
  {
    hide IsLut, Blocks;
    BlocksWrap(g.foldedSeed, c, count);
    ModAdd(c, count, U64_LIMIT);
    g.Next(buf, count);
  }

  /** What the generator objects of the threads put out is what the stream is made of: after a seek
      to the thread offset and k calls of `next`, the following call fills any buffer of chunk size
      with the blocks of thread t that come k chunks after the offset. */
  method SeekAndNext(cfg: Generator.Config, seed: nat -> seq<byte>, t: nat, offset: u64, k: nat, buf: array<byte>)
    returns (ok: bool)
    requires IsCrc(cfg, seed) && seed(t) != [] && buf.Length == cfg.ChunkSize()
    modifies buf
    ensures ok <==> offset as nat % 2048 == 0
    ensures var c := offset as nat / 2048 + k * cfg.factor;
      ok ==> buf[..] == cfg.Blocks(t, c, cfg.factor) == cfg.next(t, c, old(buf[..]))
  {
    hide IsLut, Folded, Blocks, Block, CounterAt, Generator.Config.Blocks;
    var fold := Folded(seed(t), 8);
    var g := new GeneratorCrc(seed(t));
    ok := g.Seek(offset);
    if ok {
      ghost var c: nat := g.counter as nat;
      CounterAtStart(g.counter);
      for i := 0 to k
        invariant g.Valid() && g.foldedSeed == fold && fresh(g.lut)
        invariant CounterAt(g.counter, c) && c == offset as nat / 2048 + i * cfg.factor
      {
        NextFrom(g, buf, cfg.factor, c);
        c := c + cfg.factor;
      }
      NextFrom(g, buf, cfg.factor, c);
      CrcBlocks(cfg, fold, t, c, cfg.factor);
    }
  }

  // ---- The chunks of the whole stream ----

  lemma FinishWord(cfg: Generator.Config, data: seq<byte>, k: nat)
    requires CRC_SIZE * (k + 1) <= |data|
    ensures |cfg.Finish(data)| == |data| && WordAt(cfg.Finish(data), k) == cfg.Finish(WordAt(data, k))
  {
  }

  lemma FinishInjective(cfg: Generator.Config, a: seq<byte>, b: seq<byte>)
    ensures cfg.Finish(a) == cfg.Finish(b) <==> a == b
  {
    if cfg.invert && Generator.Invert(a) == Generator.Invert(b) {
      forall i | 0 <= i < |a| ensures a[i] == b[i] {
        assert Generator.Invert(a)[i] == Generator.Invert(b)[i];
        InvertByte(a[i], b[i]);
      }
    }
  }

  lemma InvertByte(a: byte, b: byte)
    requires a ^ 0xFF == b ^ 0xFF
    ensures a == b
  {
  }

  /** The word at a place of a chunk, and the counter it comes from. */
  lemma ChunkWord(cfg: Generator.Config, fold: seq<byte>, t: nat, c: nat, i: nat, j: nat)
    requires (forall b :: cfg.block(t, b) == Block(fold, b)) && i < cfg.factor && j < WORDS
    ensures |cfg.Chunk(t, c)| == BASE_SIZE * cfg.factor
    ensures WordAt(cfg.Chunk(t, c), WORDS * i + j) == cfg.Finish(Word(fold, c + i, j))
  {
    hide Block, Word, Generator.Config.Blocks, Generator.Config.Finish;
    CrcBlocks(cfg, fold, t, c, cfg.factor);
    BlocksAt(fold, c, cfg.factor, i, j);
    FinishWord(cfg, Blocks(fold, c, cfg.factor), WORDS * i + j);
  }

  /** n chunks of `factor` base blocks fit into the 64-bit position space. */
  predicate Fits(n: nat, factor: nat) {
    BASE_SIZE * (n * factor) < U64_LIMIT
  }

  lemma SmallProduct(q: nat, g: nat, f: nat, i: nat)
    requires q <= g && Fits(g, f) && Fits(1, f) && i < f
    ensures q * f + i < U64_LIMIT
  {
    MulMonotone(q, g, f);
  }

  lemma SameProduct(a: nat, b: nat, f: nat)
    requires f > 0 && a * f == b * f
    ensures a == b
  {
    DivModUnique(a * f, f, a, 0);
    DivModUnique(b * f, f, b, 0);
  }

  lemma CounterWords(cfg: Generator.Config, fold: seq<byte>, t: nat, c1: nat, c2: nat, i: nat, j: nat)
    requires (forall b :: cfg.block(t, b) == Block(fold, b)) && i < cfg.factor && j < WORDS
    requires c1 + i < U64_LIMIT && c2 + i < U64_LIMIT
    ensures |cfg.Chunk(t, c1)| == |cfg.Chunk(t, c2)| == BASE_SIZE * cfg.factor
    ensures WordAt(cfg.Chunk(t, c1), WORDS * i + j) == WordAt(cfg.Chunk(t, c2), WORDS * i + j) <==> c1 == c2
  {
    hide Block, Word, BlockState, Generator.Config.Chunk, Generator.Config.Finish, WordAt;
    ChunkWord(cfg, fold, t, c1, i, j);
    ChunkWord(cfg, fold, t, c2, i, j);
    FinishInjective(cfg, Word(fold, c1 + i, j), Word(fold, c2 + i, j));
    WordInjective(fold, c1 + i, fold, c2 + i, j);
    BlockStateCounter(fold, c1 + i, c2 + i);
    SmallMod(c1 + i, U64_LIMIT);
    SmallMod(c2 + i, U64_LIMIT);
  }

  /** The counter at the start of chunk g. */
  function Counter(cfg: Generator.Config, g: nat): nat
    requires cfg.threads > 0
  {
    DivAtMost(g, cfg.threads);
    MulNat(g / cfg.threads, cfg.factor);
    (g / cfg.threads) * cfg.factor
  }

  lemma ChunkAt(cfg: Generator.Config, g: nat)
    requires cfg.threads > 0
    ensures Interleave.GlobalChunk(cfg, g) == cfg.Chunk(g % cfg.threads, Counter(cfg, g))
  {
    hide Generator.Config.Chunk;
  }

  lemma SmallCounter(cfg: Generator.Config, g: nat, i: nat)
    requires cfg.threads > 0 && Fits(g, cfg.factor) && Fits(1, cfg.factor) && i < cfg.factor
    ensures Counter(cfg, g) + i < U64_LIMIT
  {
    DivAtMost(g, cfg.threads);
    SmallProduct(g / cfg.threads, g, cfg.factor, i);
    hide Fits;
  }

  /** Two chunks of one generator start at the same counter if and only if they are the same. */
  lemma SameTurn(cfg: Generator.Config, g: nat, h: nat)
    requires cfg.threads > 0 && cfg.factor > 0 && g % cfg.threads == h % cfg.threads
    ensures Counter(cfg, g) == Counter(cfg, h) <==> g == h
  {
    if Counter(cfg, g) == Counter(cfg, h) {
      var n := cfg.threads;
      SameProduct(g / n, h / n, cfg.factor);
      assert g == (g / n) * n + g % n && h == (h / n) * n + h % n;
    }
  }

  /** Within the 64-bit position space, no two chunks of one generator share a word at the same
      place: word j of block i. */
  lemma ChunksDiffer(cfg: Generator.Config, seed: nat -> seq<byte>, g: nat, h: nat, i: nat, j: nat)
    requires IsCrc(cfg, seed) && cfg.threads > 0 && g % cfg.threads == h % cfg.threads && i < cfg.factor && j < WORDS
    requires Fits(g, cfg.factor) && Fits(h, cfg.factor) && Fits(1, cfg.factor)
    ensures var x, y := Interleave.GlobalChunk(cfg, g), Interleave.GlobalChunk(cfg, h);
      && |x| == |y| == BASE_SIZE * cfg.factor
      && (WordAt(x, WORDS * i + j) == WordAt(y, WORDS * i + j) <==> g == h)
  {
    hide Block, Folded, Generator.Config.Chunk, Interleave.GlobalChunk, WordAt, Fits, Counter;
    ChunkAt(cfg, g);
    ChunkAt(cfg, h);
    SmallCounter(cfg, g, i);
    SmallCounter(cfg, h, i);
    CounterWords(cfg, Folded(seed(g % cfg.threads), 8), g % cfg.threads, Counter(cfg, g), Counter(cfg, h), i, j);
    SameTurn(cfg, g, h);
  }

  /** Every thread has a stream of its own: at the same offset, two threads share a word at the same
      place if and only if the folds of their seeds are the same. */
  lemma ThreadsDiffer(cfg: Generator.Config, seed: nat -> seq<byte>, t: nat, u: nat, c: nat, i: nat, j: nat)
    requires IsCrc(cfg, seed) && i < cfg.factor && j < WORDS
    ensures |cfg.Chunk(t, c)| == |cfg.Chunk(u, c)| == BASE_SIZE * cfg.factor
    ensures WordAt(cfg.Chunk(t, c), WORDS * i + j) == WordAt(cfg.Chunk(u, c), WORDS * i + j)
            <==> Folded(seed(t), 8) == Folded(seed(u), 8)
  {
    hide Block, Folded, Word, BlockState, Generator.Config.Chunk, Generator.Config.Finish, WordAt;
    var f1, f2 := Folded(seed(t), 8), Folded(seed(u), 8);
    ChunkWord(cfg, f1, t, c, i, j);
    ChunkWord(cfg, f2, u, c, i, j);
    FinishInjective(cfg, Word(f1, c + i, j), Word(f2, c + i, j));
    WordInjective(f1, c + i, f2, c + i, j);
    BlockStateSeed(f1, f2, c + i);
  }
}
