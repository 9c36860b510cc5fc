/** The round-robin aggregator over its streams, as one interleaved machine: every step of any
    worker of any stream, and every step of the one consumer thread. */
module Aggregator {
  import opened Bytes
  import opened Generator
  import opened Interleave
  import Stream

  /** A chunk in the consumer's hands, and the cache that its buffer will go back to. */
  datatype Held = Held(data: seq<byte>, threadId: nat)

  /** Where the consumer is within a call on the aggregator. */
  datatype Call =
    | Idle
    | Fetching                       // in get_chunk
    // In activate, or, if `discard`, in the drop of the aggregator, which both stop one stream
    // after the other. Stream i is next, or `begun` to be stopped.
    | Sweeping(i: nat, begun: bool, discard: bool)
    | Gone                           // the aggregator has been dropped

  datatype State = State(
    streams: seq<Stream.State>,
    current: nat,
    isActive: bool,
    call: Call,
    held: seq<Held>,
    // History: the chunk index of the last activation, and the chunks returned since.
    first: nat,
    out: seq<seq<byte>>)
  {
    /** The chunk index that is due next. */
    function Next(): nat {
      first + |out|
    }
  }

  function Init(cfg: Config): State {
    State(seq(cfg.threads, i => Stream.INIT), 0, false, Idle, [], 0, [])
  }

  /** The byte offset that `activate` hands to stream i for a start at chunk `first`. */
  function Offset(cfg: Config, i: nat, first: nat): nat
    requires i < cfg.threads
  {
    Pos(i, cfg.threads, first) * cfg.ChunkSize()
  }

  datatype Action =
    | Work(i: nat, a: Stream.Action)        // a step of a thread of stream i
    | Consume                               // a step of the consumer within its call
    | CallGet                               // the consumer calls get_chunk
    | CallActivate(chunkIndex: nat)         // the consumer calls activate
    | CallDrop                              // the aggregator goes out of scope
    | Drop(h: nat)                          // the consumer drops a chunk
    | Push(i: nat, buf: seq<byte>)          // some buffer is pushed to the cache of stream i

  predicate WorkerAction(a: Stream.Action) {
    a.AWork? || a.AWorkOlder?
  }

  predicate Enabled(cfg: Config, m: State, a: Action) {
    match a
    case Work(i, b) => i < |m.streams| && WorkerAction(b) && Stream.Enabled(m.streams[i], b)
    case Consume =>
      (match m.call
       case Idle => false
       case Fetching => m.current < |m.streams| && Stream.CanConsume(m.streams[m.current])
       case Gone => false
       case Sweeping(i, begun, _) =>
         i < |m.streams| ==>
           if begun then Stream.CanConsume(m.streams[i])
           else Stream.Enabled(m.streams[i], Stream.AStop(Stream.Discard)))
    case CallGet =>
      m.call.Idle? && m.isActive && m.current < |m.streams| && Stream.Enabled(m.streams[m.current], Stream.AGet)
    case CallActivate(_) => m.call.Idle?
    case CallDrop => m.call.Idle?
    case Drop(h) =>
      m.call.Idle? && h < |m.held| && m.held[h].threadId < |m.streams| &&
      Stream.Enabled(m.streams[m.held[h].threadId], Stream.APush(m.held[h].data))
    case Push(i, buf) => m.call.Idle? && i < |m.streams| && Stream.Enabled(m.streams[i], Stream.APush(buf))
  }

  function Put(m: State, i: nat, s: Stream.State): State
    requires i < |m.streams|
  {
    m.(streams := m.streams[i := s])
  }

  /** The consumer returns from the stream's get_chunk: on success the turn passes to the next
      stream, and the chunk is labelled with that next stream's number. */
  function Return(cfg: Config, m: State, reply: Stream.Reply): State
    requires cfg.threads > 0
  {
    match reply
    case Got(chunk) =>
      var next := (m.current + 1) % cfg.threads;
      m.(current := next, call := Idle, held := m.held + [Held(chunk, next)], out := m.out + [chunk])
    case Empty => m.(call := Idle)
    case Failed => m.(call := Idle)
  }

  function ConsumeGet(cfg: Config, m: State): State
    requires cfg.Lawful() && m.current < |m.streams|
  {
    var s := m.streams[m.current];
    var m' := Put(m, m.current, Stream.Consume(cfg, s));
    if s.own.cpc.CReturn? then Return(cfg, m', s.own.cpc.reply) else m'
  }

  /** What the stop of stream i is part of. */
  function Purpose(cfg: Config, m: State, i: nat): Stream.After
    requires m.call.Sweeping? && i < cfg.threads
  {
    if m.call.discard then Stream.Discard else Stream.Restart(Offset(cfg, i, m.first))
  }

  function ConsumeSweep(cfg: Config, m: State): State
    requires cfg.Lawful() && m.call.Sweeping? && |m.streams| == cfg.threads
  {
    var i := m.call.i;
    if i >= cfg.threads then
      if m.call.discard then m.(isActive := false, call := Gone) else m.(isActive := true, call := Idle)
    else if !m.call.begun then
      Put(m, i, Stream.CallStop(m.streams[i], Purpose(cfg, m, i))).(call := m.call.(begun := true))
    else
      var s' := Stream.Consume(cfg, m.streams[i]);
      Put(m, i, s').(call := if s'.own.cpc.CIdle? || s'.own.cpc.CDropped? then Sweeping(i + 1, false, m.call.discard)
                             else m.call)
  }

  function Apply(cfg: Config, m: State, a: Action): (r: State)
    requires cfg.Lawful() && |m.streams| == cfg.threads
    requires Enabled(cfg, m, a)
    ensures |r.streams| == cfg.threads
  {
    match a
    case Work(i, b) => Put(m, i, Stream.Apply(cfg, i, m.streams[i], b))
    case Consume => if m.call.Fetching? then ConsumeGet(cfg, m) else ConsumeSweep(cfg, m)
    case CallGet => Put(m, m.current, Stream.CallGet(m.streams[m.current])).(call := Fetching)
    case CallActivate(c) => m.(current := c % cfg.threads, first := c, out := [], call := Sweeping(0, false, false))
    case CallDrop => m.(call := Sweeping(0, false, true))
    case Drop(h) =>
      var t := m.held[h].threadId;
      Put(m, t, Stream.Push(m.streams[t], m.held[h].data)).(held := m.held[..h] + m.held[h + 1..])
    case Push(i, buf) => Put(m, i, Stream.Push(m.streams[i], buf))
  }
}
