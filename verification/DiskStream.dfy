/** What a disk that holds the stream looks like. */
module DiskStream {
  import opened Bytes
  import opened Generator
  import opened Interleave
  import opened Device

  /** The k bytes of the stream that belong at position p and after. */
  ghost function StreamBytes(cfg: Config, p: nat, k: nat): (r: seq<byte>)
    requires cfg.Lawful()
    ensures |r| == k && forall j :: 0 <= j < k ==> r[j] == Global(cfg, p + j)
  {
    seq(k, j requires 0 <= j < k => Global(cfg, p + j))
  }

  /** Every position ever written holds the byte of the stream that belongs there. */
  ghost predicate HoldsStream(cfg: Config, content: seq<byte>, written: set<nat>)
    requires cfg.Lawful()
  {
    forall p :: p in written ==> p < |content| && content[p] == Global(cfg, p)
  }

  lemma ChunkPrefix(cfg: Config, g: nat, k: nat)
    requires cfg.Lawful() && k <= cfg.ChunkSize()
    ensures |GlobalChunk(cfg, g)| == cfg.ChunkSize()
    ensures GlobalChunk(cfg, g)[..k] == StreamBytes(cfg, g * cfg.ChunkSize(), k)
  {
    ChunkLength(cfg, g);
    forall j | 0 <= j < k ensures GlobalChunk(cfg, g)[j] == Global(cfg, g * cfg.ChunkSize() + j) {
      GlobalAt(cfg, g, j);
    }
  }

  lemma StreamPrefix(cfg: Config, p: nat, n: nat, k: nat)
    requires cfg.Lawful() && k <= n
    ensures StreamBytes(cfg, p, n)[..k] == StreamBytes(cfg, p, k)
  {
  }

  /** Two adjacent stores of the stream are one. */
  lemma OverlayJoin(cfg: Config, c: seq<byte>, p: nat, a: nat, b: nat)
    requires cfg.Lawful()
    ensures Overlay(Overlay(c, p, StreamBytes(cfg, p, a)), p + a, StreamBytes(cfg, p + a, b)) ==
            Overlay(c, p, StreamBytes(cfg, p, a + b))
  {
    var x, y, z := StreamBytes(cfg, p, a), StreamBytes(cfg, p + a, b), StreamBytes(cfg, p, a + b);
    hide Global;
    assert z == x + y;
    OverlayConcat(c, p, x, y);
  }

  lemma OverlayConcat(c: seq<byte>, p: nat, x: seq<byte>, y: seq<byte>)
    ensures Overlay(Overlay(c, p, x), p + |x|, y) == Overlay(c, p, x + y)
  {
    if x == [] {
      assert x + y == y;
    } else if y == [] {
      assert x + y == x;
    } else {
      OverlayIs(c, p, x);
      OverlayIs(Overlay(c, p, x), p + |x|, y);
      OverlayIs(c, p, x + y);
      hide Overlay;
      var l, r := Overlay(Overlay(c, p, x), p + |x|, y), Overlay(c, p, x + y);
      assert |l| == |r|;
      forall i | 0 <= i < |l| ensures l[i] == r[i] {
        if p + |x| <= i < p + |x + y| { assert (x + y)[i - p] == y[i - (p + |x|)]; }
      }
    }
  }

  lemma RangeJoin(p: nat, a: nat, b: nat)
    ensures Range(p, a) + Range(p + a, b) == Range(p, a + b)
  {
  }

  /** Storing stream bytes where they belong keeps a disk good, whatever overlaps. */
  lemma OverlayKeeps(cfg: Config, c: seq<byte>, w: set<nat>, p: nat, k: nat)
    requires cfg.Lawful() && HoldsStream(cfg, c, w)
    ensures HoldsStream(cfg, Overlay(c, p, StreamBytes(cfg, p, k)), w + Range(p, k))
  {
    var d := StreamBytes(cfg, p, k);
    var r := Overlay(c, p, d);
    OverlayIs(c, p, d);
    forall q | q in w + Range(p, k) ensures q < |r| && r[q] == Global(cfg, q) {
      if p <= q < p + k {
        assert d[q - p] == Global(cfg, p + (q - p)) && r[q] == d[q - p];
      } else {
        assert q in w && r[q] == c[q];
      }
    }
  }

  /** Content and written positions are as they were, but for k bytes of the stream from `start`
      on. */
  ghost predicate Laid(cfg: Config, content: seq<byte>, written: set<nat>,
                       content': seq<byte>, written': set<nat>, start: nat, k: nat)
    requires cfg.Lawful()
  {
    && content' == Overlay(content, start, StreamBytes(cfg, start, k))
    && written' == written + Range(start, k)
  }

  lemma LaidNothing(cfg: Config, content: seq<byte>, written: set<nat>, start: nat)
    requires cfg.Lawful()
    ensures Laid(cfg, content, written, content, written, start, 0)
  {
  }

  lemma LaidMore(cfg: Config, c0: seq<byte>, w0: set<nat>, c1: seq<byte>, w1: set<nat>,
                 c2: seq<byte>, w2: set<nat>, start: nat, a: nat, b: nat)
    requires cfg.Lawful() && Laid(cfg, c0, w0, c1, w1, start, a) && Laid(cfg, c1, w1, c2, w2, start + a, b)
    ensures Laid(cfg, c0, w0, c2, w2, start, a + b)
  {
    OverlayJoin(cfg, c0, start, a, b);
    RangeJoin(start, a, b);
  }

  lemma LaidKeeps(cfg: Config, c0: seq<byte>, w0: set<nat>, c1: seq<byte>, w1: set<nat>, start: nat, k: nat)
    requires cfg.Lawful() && Laid(cfg, c0, w0, c1, w1, start, k) && HoldsStream(cfg, c0, w0)
    ensures HoldsStream(cfg, c1, w1) && w0 <= w1
    ensures forall j: nat :: j <= k ==> Range(start, j) <= w1
  {
    OverlayKeeps(cfg, c0, w0, start, k);
  }

  // ---- Comparing a device with the stream ----

  /** How many of `limit` bytes the device has from position p on. */
  function Available(content: seq<byte>, p: nat, limit: nat): nat {
    if p <= |content| then Min(limit, |content| - p) else 0
  }

  /** The first n bytes of the device from `start` on are the bytes of the stream. */
  ghost predicate Agrees(cfg: Config, content: seq<byte>, start: nat, n: nat)
    requires cfg.Lawful()
  {
    start + n <= |content| && content[start..start + n] == StreamBytes(cfg, start, n)
  }

  lemma AgreesJoin(cfg: Config, content: seq<byte>, start: nat, a: nat, b: nat)
    requires cfg.Lawful() && (a > 0 ==> Agrees(cfg, content, start, a)) && start + a + b <= |content|
    requires content[start + a..start + a + b] == StreamBytes(cfg, start + a, b)
    ensures Agrees(cfg, content, start, a + b)
  {
    assert content[start..start + a + b] == content[start..start + a] + content[start + a..start + a + b];
    assert StreamBytes(cfg, start, a + b) == StreamBytes(cfg, start, a) + StreamBytes(cfg, start + a, b);
  }

  lemma AgreesFits(cfg: Config, content: seq<byte>, start: nat, n: nat)
    requires cfg.Lawful()
    ensures Agrees(cfg, content, start, n) ==> start + n <= |content|
  {
  }

  /** Byte `pos` after `start` is the first that differs from the stream. */
  ghost predicate FirstDifference(cfg: Config, content: seq<byte>, start: nat, pos: nat)
    requires cfg.Lawful()
  {
    && start + pos < |content| && content[start + pos] != Global(cfg, start + pos)
    && Agrees(cfg, content, start, pos)
  }

  lemma AgreesAt(cfg: Config, content: seq<byte>, start: nat, n: nat, pos: nat)
    requires cfg.Lawful() && Agrees(cfg, content, start, n) && pos < n
    ensures start + pos < |content| && content[start + pos] == Global(cfg, start + pos)
  {
    hide Global, Config.Lawful;
    assert content[start + pos] == content[start..start + n][pos] == StreamBytes(cfg, start, n)[pos];
  }

  lemma DifferenceDisagrees(cfg: Config, content: seq<byte>, start: nat, pos: nat, limit: nat)
    requires cfg.Lawful() && FirstDifference(cfg, content, start, pos) && pos < limit
    ensures var n := Available(content, start, limit); pos < n && !Agrees(cfg, content, start, n)
  {
    hide Agrees, Global, Config.Lawful;
    if Agrees(cfg, content, start, Available(content, start, limit)) {
      AgreesAt(cfg, content, start, Available(content, start, limit), pos);
    }
  }

  /** Between reads: `done` bytes agree with the stream, and the first `count` bytes of the next
      chunk are in the buffer. */
  ghost predicate Buffered(cfg: Config, content: seq<byte>, start: nat, done: nat, buffer: seq<byte>, count: nat)
    requires cfg.Lawful()
  {
    && (done > 0 ==> Agrees(cfg, content, start, done))
    && count <= |buffer|
    && (count > 0 ==>
          start + done + count <= |content| && buffer[..count] == content[start + done..start + done + count])
  }

  lemma BufferedNothing(cfg: Config, content: seq<byte>, start: nat, done: nat, buffer: seq<byte>)
    requires cfg.Lawful() && (done > 0 ==> Agrees(cfg, content, start, done))
    ensures Buffered(cfg, content, start, done, buffer, 0)
  {
    hide Agrees;
  }

  lemma BufferedFits(cfg: Config, content: seq<byte>, start: nat, done: nat, buffer: seq<byte>, count: nat)
    requires cfg.Lawful() && Buffered(cfg, content, start, done, buffer, count)
    ensures done > 0 ==> Agrees(cfg, content, start, done)
    ensures done + count > 0 ==> start + done + count <= |content|
  {
  }

  lemma BufferedAgrees(cfg: Config, content: seq<byte>, start: nat, done: nat, buffer: seq<byte>, count: nat)
    requires cfg.Lawful() && Buffered(cfg, content, start, done, buffer, count) && count > 0
    requires buffer[..count] == StreamBytes(cfg, start + done, count)
    ensures Agrees(cfg, content, start, done + count)
  {
    AgreesJoin(cfg, content, start, done, count);
  }

  lemma BufferedDiffers(cfg: Config, content: seq<byte>, start: nat, done: nat, buffer: seq<byte>, count: nat, i: nat)
    requires cfg.Lawful() && Buffered(cfg, content, start, done, buffer, count) && i < count
    requires var expected := StreamBytes(cfg, start + done, count);
      buffer[i] != expected[i] && buffer[..i] == expected[..i]
    ensures FirstDifference(cfg, content, start, done + i)
  {
    StreamPrefix(cfg, start + done, count, i);
    assert content[start + done..start + done + i] == buffer[..i] by {
      assert content[start + done..start + done + count] == buffer[..count];
      assert content[start + done..start + done + i] == content[start + done..start + done + count][..i];
    }
    AgreesJoin(cfg, content, start, done, i);
    assert content[start + done + i] == content[start + done..start + done + count][i] == buffer[i];
  }

  lemma LaidAgrees(cfg: Config, c0: seq<byte>, w0: set<nat>, c1: seq<byte>, w1: set<nat>, start: nat, k: nat)
    requires cfg.Lawful() && Laid(cfg, c0, w0, c1, w1, start, k) && k > 0
    ensures Agrees(cfg, c1, start, k)
  {
    OverlayIs(c0, start, StreamBytes(cfg, start, k));
  }

  lemma CoveredAgrees(cfg: Config, content: seq<byte>, written: set<nat>, start: nat, n: nat)
    requires cfg.Lawful() && HoldsStream(cfg, content, written) && Range(start, n) <= written
    requires n > 0 ==> start + n <= |content|
    ensures n > 0 ==> Agrees(cfg, content, start, n)
  {
    if n > 0 {
      forall j | 0 <= j < n ensures content[start..start + n][j] == StreamBytes(cfg, start, n)[j] {
        assert start + j in Range(start, n);
      }
    }
  }
}
