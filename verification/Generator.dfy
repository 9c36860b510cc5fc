/** The contract between a worker and its random number generator, and the sequential stream
    that N such generators, interleaved chunk by chunk, describe. */
module Generator {
  import opened Bytes

  /** The watermarks of the program. What is proved holds for any 0 <= lo < max. */
  const MAX_THRES: int := 10
  const LO_THRES: int := 6

  /** Everything the byte stream may depend on.
      `block(t, c)` is base block number c of the generator that thread t seeds from the user's
      seed, its thread number and the round number. `next(t, c, buf)` is the buffer after one
      `next` call on the generator of thread t positioned at base block c. */
  datatype Config = Config(
    threads: nat,
    maxThres: int,
    loThres: int,
    baseSize: nat,
    factor: nat,
    invert: bool,
    block: (nat, nat) -> seq<byte>,
    next: (nat, nat, seq<byte>) -> seq<byte>)
  {
    function ChunkSize(): nat {
      baseSize * factor
    }

    /** n consecutive base blocks of thread t, from block c on. */
    function Blocks(t: nat, c: nat, n: nat): seq<byte> {
      if n == 0 then [] else Blocks(t, c, n - 1) + block(t, c + n - 1)
    }

    /** The generator contract: blocks have the base size, and `next` overwrites a buffer of
        the right size completely, whatever it held. */
    ghost predicate Lawful() {
      && threads > 0
      && 0 <= loThres < maxThres
      && baseSize > 0
      && factor > 0
      && (forall t, c :: |block(t, c)| == baseSize)
      && (forall t, c, buf :: |buf| == ChunkSize() ==> next(t, c, buf) == Blocks(t, c, factor))
    }

    /** The chunk that a worker of thread t makes from base block c on. */
    function Chunk(t: nat, c: nat): seq<byte> {
      Finish(Blocks(t, c, factor))
    }

    /** The optional bit inversion of a generated chunk. */
    function Finish(data: seq<byte>): seq<byte> {
      if invert then Invert(data) else data
    }
  }

  function Invert(data: seq<byte>): (r: seq<byte>)
    ensures |r| == |data|
  {
    seq(|data|, i requires 0 <= i < |data| => data[i] ^ 0xFF)
  }

  /** A buffer taken from the recycling cache, brought to the wanted length. */
  function Resize(buf: seq<byte>, len: nat): (r: seq<byte>)
    ensures |r| == len
  {
    if |buf| >= len then buf[..len] else buf + seq(len - |buf|, i => 0)
  }
}
