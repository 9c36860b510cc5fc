/** What every reachable state of the aggregator satisfies; schedule independence. */
module AggregatorInvariant {
  import opened Arithmetic
  import opened Bytes
  import opened Generator
  import opened Interleave
  import opened Aggregator
  import Stream
  import opened StreamInvariant
  import opened StreamProgress

  /** The stream is being stopped, as part of `after`. */
  predicate StopFor(c: Stream.ConsumerPc, after: Stream.After) {
    match c
    case CAbort(a) => a == after
    case CWake(why) => why == Stream.ForStop(after)
    case CClear(why) => why == Stream.ForStop(after)
    case CJoin(a) => a == after
    case CUnabort(a) => a == after
    case CStart(offset) => after == Stream.Restart(offset)
    case _ => false
  }

  /** 1 while the consumer carries a received chunk inside get_chunk. */
  function Carrying(s: Stream.State): nat {
    if Carried(s).Got? then 1 else 0
  }

  /** Stream i has been started by the activation that counts. */
  predicate Ready(m: State, i: nat) {
    match m.call
    case Sweeping(j, _, discard) => !discard && i < j
    case _ => m.isActive
  }

  ghost predicate Healthy(cfg: Config, i: nat, s: Stream.State)
    requires cfg.baseSize > 0
  {
    Inv(cfg, i, s) && SeekInv(cfg, s)
  }

  /** The consumer is in at most one stream, and there at a place that fits its call. */
  ghost predicate CallOk(cfg: Config, m: State, i: nat, s: Stream.State)
    requires i < cfg.threads
  {
    match m.call
    case Idle => s.own.cpc.CIdle?
    case Fetching => if i == m.current then Getting(s) else s.own.cpc.CIdle?
    case Sweeping(j, begun, discard) =>
      if begun && i == j then StopFor(s.own.cpc, Purpose(cfg, m, i))
      else if discard && i < j then s.own.cpc.CDropped?
      else s.own.cpc.CIdle?
    case Gone => s.own.cpc.CDropped?
  }

  /** A started stream stands where the count of chunks says. */
  ghost predicate PosOk(cfg: Config, m: State, i: nat, s: Stream.State)
    requires i < cfg.threads
  {
    Ready(m, i) ==>
      && s.own.isActive
      && s.hist.origin == Pos(i, cfg.threads, m.first) * cfg.factor
      && Pos(i, cfg.threads, m.first) + s.hist.got ==
         Pos(i, cfg.threads, m.Next()) + if m.call.Fetching? && i == m.current then Carrying(s) else 0
  }

  ghost predicate StreamsInv(cfg: Config, m: State)
    requires cfg.Lawful()
  {
    && |m.streams| == cfg.threads
    && (forall i :: 0 <= i < cfg.threads ==>
          Healthy(cfg, i, m.streams[i]) && CallOk(cfg, m, i, m.streams[i]) && PosOk(cfg, m, i, m.streams[i]))
  }

  ghost predicate AggInv(cfg: Config, m: State)
    requires cfg.Lawful()
  {
    && StreamsInv(cfg, m)
    && m.current < cfg.threads
    && (m.isActive || (m.call.Sweeping? && !m.call.discard) ==> m.current == m.Next() % cfg.threads)
    && (m.call.Fetching? ==> m.isActive)
    && (m.call.Sweeping? ==> m.call.i <= cfg.threads && (m.call.begun ==> m.call.i < cfg.threads))
    && (m.call.Sweeping? && !m.call.discard ==> m.out == [])
    && (m.call.Gone? ==> !m.isActive)
    && (forall k :: 0 <= k < |m.out| ==> m.out[k] == GlobalChunk(cfg, m.first + k))
  }

  /** What the invariant says about one stream. */
  lemma StreamAt(cfg: Config, m: State, i: nat)
    requires cfg.Lawful() && AggInv(cfg, m) && i < |m.streams|
    ensures |m.streams| == cfg.threads
    ensures Healthy(cfg, i, m.streams[i]) && CallOk(cfg, m, i, m.streams[i]) && PosOk(cfg, m, i, m.streams[i])
  {
    hide Healthy, CallOk, PosOk;
  }

  /** The same for the stream that the consumer is getting a chunk from. */
  lemma FetchedStream(cfg: Config, m: State)
    requires cfg.Lawful() && AggInv(cfg, m) && m.call.Fetching?
    ensures |m.streams| == cfg.threads && m.isActive && m.current == m.Next() % cfg.threads < cfg.threads
    ensures var s := m.streams[m.current];
      Inv(cfg, m.current, s) && SeekInv(cfg, s) && Getting(s) && s.own.isActive && PosOk(cfg, m, m.current, s)
  {
    hide Healthy, Inv, SeekInv, Getting;
    StreamAt(cfg, m, m.current);
    HealthyIs(cfg, m.current, m.streams[m.current]);
  }

  lemma HealthyIs(cfg: Config, i: nat, s: Stream.State)
    requires cfg.baseSize > 0 && Healthy(cfg, i, s)
    ensures Inv(cfg, i, s) && SeekInv(cfg, s)
  {
    hide Inv, SeekInv;
  }

  /** A chunk in the consumer's hands can be dropped: the cache for its buffer exists. */
  ghost predicate HeldInv(cfg: Config, m: State)
    requires |m.streams| == cfg.threads
  {
    forall h :: 0 <= h < |m.held| ==>
      m.held[h].threadId < cfg.threads && m.streams[m.held[h].threadId].older != []
  }

  lemma InitAggInv(cfg: Config)
    requires cfg.Lawful()
    ensures AggInv(cfg, Init(cfg))
  {
    forall i | 0 <= i < cfg.threads
      ensures Healthy(cfg, i, Init(cfg).streams[i])
    {
      InitInv(cfg, i);
    }
  }

  // ---- What a step does to the stream it concerns ----

  lemma WorkerStepOk(cfg: Config, i: nat, s: Stream.State, a: Stream.Action)
    requires cfg.Lawful() && Healthy(cfg, i, s) && WorkerAction(a) && Stream.Enabled(s, a)
    ensures var s' := Stream.Apply(cfg, i, s, a);
      Healthy(cfg, i, s') && s'.own == s.own && s'.hist == s.hist.(allocs := s'.hist.allocs)
  {
    InvStep(cfg, i, s, a);
    SeekStep(cfg, i, s, a);
  }

  lemma GetStepOk(cfg: Config, i: nat, s: Stream.State)
    requires cfg.Lawful() && Healthy(cfg, i, s) && s.own.isActive && Getting(s) && Stream.CanConsume(s)
    ensures var s' := Stream.Consume(cfg, s);
      && Healthy(cfg, i, s') && s'.own.isActive && s'.hist.origin == s.hist.origin
      && (if s.own.cpc.CReturn? then s'.own.cpc.CIdle? && s'.hist.got == s.hist.got
          else Getting(s') && s'.hist.got + Carrying(s) == s.hist.got + Carrying(s'))
  {
    InvStep(cfg, i, s, Stream.AConsume);
    SeekStep(cfg, i, s, Stream.AConsume);
  }

  lemma StopStepOk(cfg: Config, i: nat, s: Stream.State, after: Stream.After)
    requires cfg.Lawful() && Healthy(cfg, i, s) && StopFor(s.own.cpc, after) && Stream.CanConsume(s)
    ensures var s' := Stream.Consume(cfg, s);
      && Healthy(cfg, i, s')
      && (if s'.own.cpc.CIdle? then
            && after.Restart? && s'.own.isActive
            && s'.hist == Stream.History(after.offset / cfg.baseSize, 0, 0, 0)
          else if s'.own.cpc.CDropped? then after.Discard?
          else StopFor(s'.own.cpc, after))
  {
    InvStep(cfg, i, s, Stream.AConsume);
    SeekStep(cfg, i, s, Stream.AConsume);
    hide Inv, SeekInv;
  }

  lemma OffsetOk(cfg: Config, i: nat, first: nat)
    requires cfg.Lawful() && i < cfg.threads
    ensures Offset(cfg, i, first) % cfg.baseSize == 0
    ensures Offset(cfg, i, first) / cfg.baseSize == Pos(i, cfg.threads, first) * cfg.factor
  {
    var p := Pos(i, cfg.threads, first);
    assert p * cfg.ChunkSize() == (p * cfg.factor) * cfg.baseSize;
    DivModUnique(p * cfg.ChunkSize(), cfg.baseSize, p * cfg.factor, 0);
  }

  // ---- What a step does to the aggregator ----

  lemma WorkOk(cfg: Config, m: State, i: nat, a: Stream.Action)
    requires cfg.Lawful() && AggInv(cfg, m) && Enabled(cfg, m, Work(i, a))
    ensures AggInv(cfg, Apply(cfg, m, Work(i, a)))
  {
    hide Stream.Apply, Healthy, Pos, GlobalChunk;
    StreamAt(cfg, m, i);
    WorkerStepOk(cfg, i, m.streams[i], a);
  }

  lemma CarriedChunk(cfg: Config, i: nat, s: Stream.State)
    requires cfg.Lawful() && Healthy(cfg, i, s) && Carried(s).Got?
    ensures s.hist.got > 0
    ensures Carried(s).chunk == cfg.Chunk(i, s.hist.origin + (s.hist.got - 1) * cfg.factor)
  {
  }

  /** The chunk that get_chunk is about to return is the next one of the sequential stream. */
  lemma ReplyIsNext(cfg: Config, m: State)
    requires cfg.Lawful() && AggInv(cfg, m) && m.call.Fetching? && Carried(m.streams[m.current]).Got?
    ensures Carried(m.streams[m.current]).chunk == GlobalChunk(cfg, m.Next())
  {
    var s, p := m.streams[m.current], Pos(m.current, cfg.threads, m.first);
    assert PosOk(cfg, m, m.current, s);
    assert s.hist.origin == p * cfg.factor && p + s.hist.got - 1 == m.Next() / cfg.threads;
    CarriedChunk(cfg, m.current, s);
    Distribute(p, s.hist.got - 1, cfg.factor);
    hide Healthy, PosOk, CallOk, Pos, Config.Chunk;
  }

  lemma StartedOnce(cfg: Config, i: nat, s: Stream.State)
    requires cfg.Lawful() && Healthy(cfg, i, s) && s.own.isActive
    ensures s.older != []
  {
  }

  lemma GetStepInv(cfg: Config, m: State)
    requires cfg.Lawful() && AggInv(cfg, m) && m.call.Fetching? && Enabled(cfg, m, Consume)
    requires !m.streams[m.current].own.cpc.CReturn?
    ensures AggInv(cfg, ConsumeGet(cfg, m))
  {
    hide Healthy, Pos, GlobalChunk;
    StreamAt(cfg, m, m.current);
    GetStepOk(cfg, m.current, m.streams[m.current]);
    hide Stream.Consume;
  }

  lemma GetReturnInv(cfg: Config, m: State)
    requires cfg.Lawful() && AggInv(cfg, m) && m.call.Fetching? && Enabled(cfg, m, Consume)
    requires m.streams[m.current].own.cpc.CReturn?
    ensures AggInv(cfg, ConsumeGet(cfg, m))
  {
    hide Healthy, Pos, GlobalChunk, Getting;
    StreamAt(cfg, m, m.current);
    var s, n := m.streams[m.current], cfg.threads;
    GetStepOk(cfg, m.current, s);
    hide Stream.Consume;
    if s.own.cpc.reply.Got? {
      ReplyIsNext(cfg, m);
      NextStream(n, m.Next());
      forall i | 0 <= i < n ensures Pos(i, n, m.Next() + 1) == Pos(i, n, m.Next()) + if m.current == i then 1 else 0 {
        PosStep(i, n, m.Next());
      }
    }
  }

  lemma SweepStepInv(cfg: Config, m: State)
    requires cfg.Lawful() && AggInv(cfg, m) && m.call.Sweeping? && Enabled(cfg, m, Consume)
    ensures AggInv(cfg, ConsumeSweep(cfg, m))
  {
    hide Healthy, Pos, GlobalChunk;
    var i := m.call.i;
    if i < cfg.threads {
      StreamAt(cfg, m, i);
      OffsetOk(cfg, i, m.first);
      if m.call.begun {
        StopStepOk(cfg, i, m.streams[i], Purpose(cfg, m, i));
      } else {
        StopCallOk(cfg, i, m.streams[i], Purpose(cfg, m, i));
      }
    }
    hide Stream.Consume;
  }

  lemma StopCallOk(cfg: Config, i: nat, s: Stream.State, after: Stream.After)
    requires cfg.Lawful() && Healthy(cfg, i, s) && s.own.cpc.CIdle?
    requires after.Restart? ==> after.offset % cfg.baseSize == 0
    ensures Healthy(cfg, i, Stream.CallStop(s, after))
  {
    InvStep(cfg, i, s, Stream.AStop(after));
    SeekStep(cfg, i, s, Stream.AStop(after));
    hide Inv, SeekInv;
  }

  lemma CallGetInv(cfg: Config, m: State)
    requires cfg.Lawful() && AggInv(cfg, m) && Enabled(cfg, m, CallGet)
    ensures AggInv(cfg, Apply(cfg, m, CallGet))
  {
    InvStep(cfg, m.current, m.streams[m.current], Stream.AGet);
    SeekStep(cfg, m.current, m.streams[m.current], Stream.AGet);
    hide Healthy, Pos;
  }

  lemma PushInv(cfg: Config, m: State, i: nat, buf: seq<byte>)
    requires cfg.Lawful() && AggInv(cfg, m) && m.call.Idle? && i < cfg.threads
    requires Stream.Enabled(m.streams[i], Stream.APush(buf))
    ensures AggInv(cfg, Put(m, i, Stream.Push(m.streams[i], buf)))
  {
    InvStep(cfg, i, m.streams[i], Stream.APush(buf));
    SeekStep(cfg, i, m.streams[i], Stream.APush(buf));
    hide Healthy, Pos;
  }

  lemma CallSweepInv(cfg: Config, m: State, a: Action)
    requires cfg.Lawful() && AggInv(cfg, m) && m.call.Idle? && (a.CallActivate? || a.CallDrop?)
    ensures AggInv(cfg, Apply(cfg, m, a))
  {
    hide Healthy, Pos, GlobalChunk;
  }

  lemma DropInv(cfg: Config, m: State, h: nat)
    requires cfg.Lawful() && AggInv(cfg, m) && Enabled(cfg, m, Drop(h))
    ensures AggInv(cfg, Apply(cfg, m, Drop(h)))
  {
    hide Healthy, Pos, GlobalChunk, Stream.Push;
    PushInv(cfg, m, m.held[h].threadId, m.held[h].data);
  }

  lemma AggStep(cfg: Config, m: State, a: Action)
    requires cfg.Lawful() && AggInv(cfg, m) && Enabled(cfg, m, a)
    ensures AggInv(cfg, Apply(cfg, m, a))
  {
    hide Healthy, Pos, GlobalChunk, CallOk, PosOk, ConsumeGet, ConsumeSweep, Stream.CanConsume;
    match a
    case Work(i, b) => WorkOk(cfg, m, i, b);
    case Consume =>
      if m.call.Sweeping? { SweepStepInv(cfg, m); }
      else if m.streams[m.current].own.cpc.CReturn? { GetReturnInv(cfg, m); }
      else { GetStepInv(cfg, m); }
    case CallGet => CallGetInv(cfg, m);
    case CallActivate(_) => CallSweepInv(cfg, m, a);
    case CallDrop => CallSweepInv(cfg, m, a);
    case Drop(h) => DropInv(cfg, m, h);
    case Push(i, buf) => PushInv(cfg, m, i, buf);
  }

  // ---- Runs ----

  ghost predicate Run(cfg: Config, m: State, run: seq<Action>, m': State)
    requires cfg.Lawful() && |m.streams| == cfg.threads
    decreases |run|
  {
    if run == [] then m' == m
    else Enabled(cfg, m, run[0]) && Run(cfg, Apply(cfg, m, run[0]), run[1..], m')
  }

  lemma OlderGrows(cfg: Config, i: nat, s: Stream.State, a: Stream.Action)
    requires cfg.Lawful() && Stream.Enabled(s, a)
    ensures |Stream.Apply(cfg, i, s, a).older| >= |s.older|
  {
  }

  lemma HeldGet(cfg: Config, m: State)
    requires cfg.Lawful() && AggInv(cfg, m) && HeldInv(cfg, m) && Enabled(cfg, m, Consume) && m.call.Fetching?
    ensures HeldInv(cfg, ConsumeGet(cfg, m))
  {
    hide AggInv, Inv, SeekInv, Getting, Pos, Healthy, CallOk;
    FetchedStream(cfg, m);
    OlderGrows(cfg, m.current, m.streams[m.current], Stream.AConsume);
    forall i | 0 <= i < cfg.threads ensures m.streams[i].older != [] {
      StreamAt(cfg, m, i);
      StartedOnce(cfg, i, m.streams[i]);
    }
    hide Stream.Consume, PosOk;
  }

  lemma HeldSweep(cfg: Config, m: State)
    requires cfg.Lawful() && AggInv(cfg, m) && HeldInv(cfg, m)
    requires Enabled(cfg, m, Consume) && m.call.Sweeping?
    ensures HeldInv(cfg, ConsumeSweep(cfg, m))
  {
    hide Healthy, CallOk, PosOk;
    if m.call.i < cfg.threads && m.call.begun {
      OlderGrows(cfg, m.call.i, m.streams[m.call.i], Stream.AConsume);
    }
    hide Stream.Consume;
  }

  lemma HeldStep(cfg: Config, m: State, a: Action)
    requires cfg.Lawful() && AggInv(cfg, m) && HeldInv(cfg, m) && Enabled(cfg, m, a)
    ensures HeldInv(cfg, Apply(cfg, m, a))
  {
    hide AggInv, ConsumeGet, ConsumeSweep, Stream.CanConsume;
    match a
    case Work(i, b) => OlderGrows(cfg, i, m.streams[i], b); hide Stream.Apply;
    case Consume => if m.call.Fetching? { HeldGet(cfg, m); } else { HeldSweep(cfg, m); }
    case _ =>
  }

  lemma {:induction false} RunAggInv(cfg: Config, m: State, run: seq<Action>, m': State)
    requires cfg.Lawful() && AggInv(cfg, m) && HeldInv(cfg, m) && Run(cfg, m, run, m')
    ensures AggInv(cfg, m') && HeldInv(cfg, m')
    decreases |run|
  {
    if run != [] {
      AggStep(cfg, m, run[0]);
      HeldStep(cfg, m, run[0]);
      RunAggInv(cfg, Apply(cfg, m, run[0]), run[1..], m');
    }
  }

  /** Schedule independence: whatever the workers and the consumer did so far, in whatever
      interleaving, through however many activations, and whatever buffers were recycled or
      pushed, the chunks returned since the last activation are those of the sequential stream
      from the activated chunk on. */
  lemma ScheduleIndependence(cfg: Config, run: seq<Action>, m: State)
    requires cfg.Lawful() && Run(cfg, Init(cfg), run, m)
    ensures m.out == ChunksFrom(cfg, m.first, |m.out|)
  {
    InitAggInv(cfg);
    RunAggInv(cfg, Init(cfg), run, m);
  }

  /** Seeking equals skipping: chunk k after an activation at chunk c, in one run, is chunk
      c + k after an activation at chunk 0, in any other run. */
  lemma SeekIsSkipping(cfg: Config, run: seq<Action>, m: State, run0: seq<Action>, m0: State, k: nat)
    requires cfg.Lawful() && Run(cfg, Init(cfg), run, m) && Run(cfg, Init(cfg), run0, m0)
    requires m0.first == 0 && k < |m.out| && m.first + k < |m0.out|
    ensures m.out[k] == m0.out[m.first + k]
  {
    hide Run, GlobalChunk;
    ScheduleIndependence(cfg, run, m);
    ScheduleIndependence(cfg, run0, m0);
    assert ChunksFrom(cfg, m.first, |m.out|)[k] == ChunksFrom(cfg, 0, |m0.out|)[m.first + k];
  }

  /** In no run does a worker report an error or panic, does get_chunk of an active aggregator
      fail, or does a dropped chunk find no cache for its buffer. */
  lemma NothingFails(cfg: Config, run: seq<Action>, m: State)
    requires cfg.Lawful() && Run(cfg, Init(cfg), run, m)
    ensures |m.streams| == cfg.threads
    ensures forall i :: 0 <= i < cfg.threads ==> !m.streams[i].sync.error && !m.streams[i].worker.pc.WPanic?
    ensures m.call.Fetching? ==>
              m.current < cfg.threads && m.streams[m.current].own.cpc != Stream.CReturn(Stream.Failed)
    ensures m.call.Idle? ==> forall h :: 0 <= h < |m.held| ==> Enabled(cfg, m, Drop(h))
  {
    InitAggInv(cfg);
    RunAggInv(cfg, Init(cfg), run, m);
    forall i | 0 <= i < cfg.threads ensures !m.streams[i].sync.error && !m.streams[i].worker.pc.WPanic? {
      assert Healthy(cfg, i, m.streams[i]);
    }
    if m.call.Fetching? {
      assert Healthy(cfg, m.current, m.streams[m.current]) && PosOk(cfg, m, m.current, m.streams[m.current]);
    }
    if m.call.Idle? {
      forall h | 0 <= h < |m.held| ensures Enabled(cfg, m, Drop(h)) {
        assert CallOk(cfg, m, m.held[h].threadId, m.streams[m.held[h].threadId]);
      }
    }
  }
}
