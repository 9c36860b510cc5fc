/** The sequential stream: N generators interleaved chunk by chunk, and where each of them
    stands at a given chunk of the whole. */
module Interleave {
  import opened Arithmetic
  import opened Bytes
  import opened Generator

  /** Chunk number g of the whole stream is chunk g div N of generator g mod N. */
  function GlobalChunk(cfg: Config, g: nat): seq<byte>
    requires cfg.threads > 0
  {
    cfg.Chunk(g % cfg.threads, (g / cfg.threads) * cfg.factor)
  }

  /** The n chunks of the whole stream from chunk `first` on. */
  function ChunksFrom(cfg: Config, first: nat, n: nat): (r: seq<seq<byte>>)
    requires cfg.threads > 0
    ensures |r| == n
  {
    seq(n, k requires 0 <= k < n => GlobalChunk(cfg, first + k))
  }

  /** The byte that belongs at disk position p. */
  function Global(cfg: Config, p: nat): byte
    requires cfg.Lawful()
  {
    ChunkLength(cfg, p / cfg.ChunkSize());
    GlobalChunk(cfg, p / cfg.ChunkSize())[p % cfg.ChunkSize()]
  }

  // ---- Lengths ----

  lemma {:induction false} BlocksLength(cfg: Config, t: nat, c: nat, n: nat)
    requires cfg.Lawful()
    ensures |cfg.Blocks(t, c, n)| == cfg.baseSize * n
  {
    if n > 0 { BlocksLength(cfg, t, c, n - 1); }
  }

  lemma ChunkSizePositive(cfg: Config)
    requires cfg.Lawful()
    ensures cfg.ChunkSize() > 0
  {
  }

  lemma ChunkLength(cfg: Config, g: nat)
    requires cfg.Lawful()
    ensures |GlobalChunk(cfg, g)| == cfg.ChunkSize() > 0
  {
    BlocksLength(cfg, g % cfg.threads, (g / cfg.threads) * cfg.factor, cfg.factor);
    ChunkSizePositive(cfg);
  }

  // ---- Where a position lies ----

  /** Byte j of chunk g belongs at position g * chunk size + j. */
  lemma GlobalAt(cfg: Config, g: nat, j: nat)
    requires cfg.Lawful() && j < cfg.ChunkSize()
    ensures |GlobalChunk(cfg, g)| == cfg.ChunkSize()
    ensures Global(cfg, g * cfg.ChunkSize() + j) == GlobalChunk(cfg, g)[j]
  {
    ChunkLength(cfg, g);
    DivModUnique(g * cfg.ChunkSize() + j, cfg.ChunkSize(), g, j);
  }

  /** Byte o of what generator t puts out from chunk number k on. */
  ghost function OutputByte(cfg: Config, t: nat, k: nat, o: nat): byte
    requires cfg.Lawful()
  {
    MulNat(k, cfg.factor);
    cfg.block(t, k * cfg.factor + o / cfg.baseSize)[o % cfg.baseSize]
  }

  lemma {:induction false} BlocksByte(cfg: Config, t: nat, c: nat, n: nat, o: nat)
    requires cfg.Lawful() && o < cfg.baseSize * n
    ensures |cfg.Blocks(t, c, n)| == cfg.baseSize * n
    ensures cfg.Blocks(t, c, n)[o] == cfg.block(t, c + o / cfg.baseSize)[o % cfg.baseSize]
    decreases n
  {
    BlocksLength(cfg, t, c, n);
    BlocksLength(cfg, t, c, n - 1);
    var k := cfg.baseSize * (n - 1);
    if o < k { BlocksByte(cfg, t, c, n - 1, o); } else { DivModUnique(o, cfg.baseSize, n - 1, o - k); }
  }

  lemma OutputByteIs(cfg: Config, t: nat, k: nat, c: nat, o: nat)
    requires cfg.Lawful() && c == k * cfg.factor && o < cfg.ChunkSize()
    ensures |cfg.Blocks(t, c, cfg.factor)| == cfg.ChunkSize()
    ensures cfg.Blocks(t, c, cfg.factor)[o] == OutputByte(cfg, t, k, o)
  {
    BlocksByte(cfg, t, c, cfg.factor, o);
    hide Config.Lawful, Config.Blocks;
  }

  lemma FinishByte(cfg: Config, data: seq<byte>, o: nat)
    requires o < |data|
    ensures |cfg.Finish(data)| == |data| && cfg.Finish(data)[o] == data[o] ^ (if cfg.invert then 0xFF else 0)
  {
    XorNothing(data[o]);
  }

  lemma ChunkByte(cfg: Config, g: nat, o: nat)
    requires cfg.Lawful() && o < cfg.ChunkSize()
    ensures |GlobalChunk(cfg, g)| == cfg.ChunkSize()
    ensures GlobalChunk(cfg, g)[o] ==
            OutputByte(cfg, g % cfg.threads, g / cfg.threads, o) ^ (if cfg.invert then 0xFF else 0)
  {
    ChunkLength(cfg, g);
    hide Config.ChunkSize, Config.Blocks, Config.Finish, OutputByte;
    var t, k := g % cfg.threads, g / cfg.threads;
    OutputByteIs(cfg, t, k, k * cfg.factor, o);
    FinishByte(cfg, cfg.Blocks(t, k * cfg.factor, cfg.factor), o);
    hide Config.Lawful;
  }

  /** The byte at position p, outright. The position lies in chunk g = p div the chunk size, which is
      number g div N of generator g mod N. Its bits are inverted if that has been asked for, and
      else they are those of the generator. */
  ghost function ByteAt(cfg: Config, p: nat): byte
    requires cfg.Lawful()
  {
    ChunkSizePositive(cfg);
    DivAtMost(p, cfg.ChunkSize());
    var g, o := p / cfg.ChunkSize(), p % cfg.ChunkSize();
    DivAtMost(g, cfg.threads);
    OutputByte(cfg, g % cfg.threads, g / cfg.threads, o) ^ (if cfg.invert then 0xFF else 0)
  }

  lemma GlobalByte(cfg: Config, p: nat)
    requires cfg.Lawful()
    ensures Global(cfg, p) == ByteAt(cfg, p)
  {
    ChunkSizePositive(cfg);
    hide Config.Lawful, Config.ChunkSize, GlobalChunk, OutputByte;
    DivAtMost(p, cfg.ChunkSize());
    ChunkByte(cfg, p / cfg.ChunkSize(), p % cfg.ChunkSize());
  }

  lemma XorNothing(b: byte)
    ensures b ^ 0 == b
  {
  }

  lemma {:induction false} SameBlocks(cfg: Config, cfg': Config, t: nat, c: nat, n: nat)
    requires cfg.block == cfg'.block
    ensures cfg.Blocks(t, c, n) == cfg'.Blocks(t, c, n)
  {
    if n > 0 { SameBlocks(cfg, cfg', t, c, n - 1); }
  }

  /** Inverting the pattern inverts every bit of the whole stream. */
  lemma InvertedStream(cfg: Config, p: nat)
    requires cfg.Lawful()
    ensures cfg.(invert := true).Lawful() && cfg.(invert := false).Lawful()
    ensures Global(cfg.(invert := true), p) == Global(cfg.(invert := false), p) ^ 0xFF
  {
    var on, off := cfg.(invert := true), cfg.(invert := false);
    InvertedLawful(cfg, on);
    InvertedLawful(cfg, off);
    hide Config.Lawful, GlobalChunk, Config.ChunkSize;
    var g := p / cfg.ChunkSize();
    ChunkLength(off, g);
    InvertedChunk(cfg, g);
  }

  lemma InvertedChunk(cfg: Config, g: nat)
    requires cfg.threads > 0
    ensures GlobalChunk(cfg.(invert := true), g) == Invert(GlobalChunk(cfg.(invert := false), g))
  {
    var on, off := cfg.(invert := true), cfg.(invert := false);
    SameBlocks(on, off, g % cfg.threads, (g / cfg.threads) * cfg.factor, cfg.factor);
  }

  lemma InvertedLawful(cfg: Config, cfg': Config)
    requires cfg.Lawful() && cfg' == cfg.(invert := cfg'.invert)
    ensures cfg'.Lawful() && cfg'.ChunkSize() == cfg.ChunkSize()
  {
    forall t, c, buf: seq<byte> | |buf| == cfg'.ChunkSize()
      ensures cfg'.next(t, c, buf) == cfg'.Blocks(t, c, cfg'.factor)
    {
      SameBlocks(cfg, cfg', t, c, cfg.factor);
    }
  }

  // ---- Where the generators stand ----

  /** How many chunks generator i of n contributes to the first g chunks of the whole. */
  function Pos(i: nat, n: nat, g: nat): nat
    requires i < n
  {
    g / n + if i < g % n then 1 else 0
  }

  /** The same, counted. */
  function Count(i: nat, n: nat, g: nat): nat
    requires i < n
  {
    if g == 0 then 0 else Count(i, n, g - 1) + if (g - 1) % n == i then 1 else 0
  }

  /** The round-robin successor. */
  lemma NextStream(n: nat, g: nat)
    requires n > 0
    ensures (g + 1) % n == (g % n + 1) % n
    ensures (g + 1) / n == g / n + if g % n == n - 1 then 1 else 0
  {
    var q, r := g / n, g % n;
    assert g == q * n + r;
    if r == n - 1 {
      assert (q + 1) * n == q * n + n;
      DivModUnique(g + 1, n, q + 1, 0);
      DivModUnique(n, n, 1, 0);
    } else {
      DivModUnique(g + 1, n, q, r + 1);
      DivModUnique(r + 1, n, 0, r + 1);
    }
  }

  lemma PosStep(i: nat, n: nat, g: nat)
    requires i < n
    ensures Pos(i, n, g + 1) == Pos(i, n, g) + if g % n == i then 1 else 0
  {
    NextStream(n, g);
    if g % n == n - 1 {
      DivModUnique(n, n, 1, 0);
    } else {
      DivModUnique(g % n + 1, n, 0, g % n + 1);
    }
  }

  /** The offset that the aggregator computes for a stream counts the chunks that the stream
      contributes before the seek position. */
  lemma {:induction false} PosCounts(i: nat, n: nat, g: nat)
    requires i < n
    ensures Pos(i, n, g) == Count(i, n, g)
  {
    if g == 0 {
      DivModUnique(0, n, 0, 0);
    } else {
      PosCounts(i, n, g - 1);
      PosStep(i, n, g - 1);
    }
  }

  /** The stream that a drop recycles into after a chunk of stream i. */
  function Succ(i: nat, n: nat): nat
    requires i < n
  {
    if i + 1 == n then 0 else i + 1
  }

  lemma SuccIs(i: nat, n: nat)
    requires i < n
    ensures Succ(i, n) == (i + 1) % n
  {
    if i + 1 == n { DivModUnique(n, n, 1, 0); } else { SmallMod(i + 1, n); }
  }

  /** How far a stream can be ahead of its predecessor between two chunks a and b. */
  lemma PredecessorGap(p: nat, n: nat, a: nat, b: nat)
    requires p < n
    ensures var j := Succ(p, n);
      (Pos(j, n, b) - Pos(j, n, a)) - (Pos(p, n, b) - Pos(p, n, a)) ==
      (if a % n == j then 1 else 0) - (if b % n == j then 1 else 0)
  {
  }
}
