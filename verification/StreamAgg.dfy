/** The aggregator as the consumer thread uses it. Its methods are sequences of consumer steps
    of the machine in module Aggregator; between any two of them the scheduler may run any
    worker of any stream any number of times. */
module StreamAgg {
  import opened Arithmetic
  import opened Bytes
  import opened Generator
  import opened Interleave
  import opened Aggregator
  import opened AggregatorInvariant
  import opened Allocation
  import Stream
  import opened StreamInvariant
  import opened StreamProgress

  /** How far the consumer is from its next chunk: zero when one is waiting, else the rank of the
      worker, which bounds the effective steps before it sends one. */
  function Measure(cfg: Config, s: Stream.State): nat {
    if s.queue != [] then 0 else Rank(cfg, s)
  }

  /** What any number of worker steps do to a stream that the consumer polls. */
  ghost predicate Advanced(cfg: Config, s: Stream.State, s': Stream.State) {
    && s'.own == s.own
    && |s'.queue| >= |s.queue|
    && Measure(cfg, s') <= Measure(cfg, s)
    && (s'.sync.sleeping ==> s.sync.sleeping || Measure(cfg, s') == 0 || Measure(cfg, s') < Measure(cfg, s))
  }

  /** What any number of worker steps do to a stream whose worker is being joined. */
  ghost predicate Exited(s: Stream.State, s': Stream.State) {
    (s.worker.pc.WExit? ==> s'.worker.pc.WExit?) &&
    (s.own.cpc.CJoin? && s.own.joinable ==>
       Doomed(s') == Doomed(s) && (!Doomed(s) ==> ExitRank(s') <= ExitRank(s)))
  }

  /** What any number of worker steps do to the aggregator. */
  ghost predicate WorkersOnly(cfg: Config, m: State, m': State) {
    && m'.(streams := m.streams) == m
    && |m'.streams| == |m.streams|
    && (forall i :: 0 <= i < |m.streams| ==> m'.streams[i].own == m.streams[i].own)
    && (forall i :: 0 <= i < |m.streams| && Stoppable(m.streams[i]) ==> Stoppable(m'.streams[i]))
    && (m.current < |m.streams| && m.isActive && !m.call.Sweeping? ==>
          Advanced(cfg, m.streams[m.current], m'.streams[m.current]))
    && (m.call.Sweeping? && m.call.i < |m.streams| ==> Exited(m.streams[m.call.i], m'.streams[m.call.i]))
  }

  lemma WorkAdvances(cfg: Config, i: nat, s: Stream.State, a: Stream.Action)
    requires cfg.Lawful() && Polling(cfg, i, s) && WorkerAction(a) && Stream.Enabled(s, a)
    ensures Advanced(cfg, s, Stream.Apply(cfg, i, s, a))
  {
    match a
    case AWork(spurious) => if s.queue == [] { RankWork(cfg, i, s, spurious); }
    case _ =>
  }

  lemma WorkIsWorkersOnly(cfg: Config, m: State, i: nat, a: Stream.Action)
    requires cfg.Lawful() && AggInv(cfg, m) && Enabled(cfg, m, Work(i, a))
    ensures WorkersOnly(cfg, m, Apply(cfg, m, Work(i, a)))
  {
    hide AggInv, Healthy, Inv, SeekInv, PosOk, Advanced, Exited, Stream.Apply, Stoppable;
    var s := m.streams[i];
    StreamAt(cfg, m, i);
    HealthyIs(cfg, i, s);
    WorkerStepOk(cfg, i, s, a);
    if i == m.current && m.isActive && !m.call.Sweeping? {
      StreamPolled(cfg, m, i);
      WorkAdvances(cfg, i, s, a);
    }
    WorkExits(cfg, i, s, a);
    AdvancedSelf(cfg, m);
    if Stoppable(s) { WorkStoppable(cfg, i, s, a); }
  }

  /** The consumer uses a stream that the activation has started. */
  lemma StreamPolled(cfg: Config, m: State, i: nat)
    requires cfg.Lawful() && AggInv(cfg, m) && i < |m.streams| && m.isActive && !m.call.Sweeping?
    ensures Polling(cfg, i, m.streams[i])
  {
    hide AggInv, Inv, SeekInv, Pos;
    StreamAt(cfg, m, i);
    HealthyIs(cfg, i, m.streams[i]);
  }

  lemma WorkStoppable(cfg: Config, i: nat, s: Stream.State, a: Stream.Action)
    requires cfg.Lawful() && Inv(cfg, i, s) && WorkerAction(a) && Stream.Enabled(s, a) && Stoppable(s)
    ensures Stoppable(Stream.Apply(cfg, i, s, a))
  {
    hide SleepInv, LevelInv, DataInv, BufferInv, Stoppable, LifeInv;
    StoppableStep(cfg, i, s, a);
  }

  lemma WorkExits(cfg: Config, i: nat, s: Stream.State, a: Stream.Action)
    requires cfg.Lawful() && Inv(cfg, i, s) && WorkerAction(a) && Stream.Enabled(s, a)
    ensures Exited(s, Stream.Apply(cfg, i, s, a))
  {
    if s.own.cpc.CJoin? && s.own.joinable && a.AWork? {
      if Doomed(s) { DoomedStep(cfg, i, s, a); } else { ExitStep(cfg, i, s, a.spurious); }
    }
  }

  lemma AdvancedSelf(cfg: Config, m: State)
    ensures forall j :: 0 <= j < |m.streams| ==>
      Advanced(cfg, m.streams[j], m.streams[j]) && Exited(m.streams[j], m.streams[j])
  {
  }

  lemma AdvancedTransitive(cfg: Config, s: Stream.State, s': Stream.State, s'': Stream.State)
    requires Advanced(cfg, s, s') && Advanced(cfg, s', s'')
    ensures Advanced(cfg, s, s'')
  {
    hide Measure;
  }

  lemma WorkersOnlyTransitive(cfg: Config, m: State, m': State, m'': State)
    requires WorkersOnly(cfg, m, m') && WorkersOnly(cfg, m', m'')
    ensures WorkersOnly(cfg, m, m'')
  {
    if m.current < |m.streams| && m.isActive && !m.call.Sweeping? {
      AdvancedTransitive(cfg, m.streams[m.current], m'.streams[m.current], m''.streams[m.current]);
    }
    hide Advanced, Doomed, ExitRank, Stoppable;
  }

  /** The stream is nearer to its next chunk than `before`, or as near with its worker awake. */
  ghost predicate Improved(cfg: Config, s: Stream.State, before: nat) {
    Measure(cfg, s) == 0 || Measure(cfg, s) < before || (Measure(cfg, s) == before && !s.sync.sleeping)
  }

  /** The consumer's wakeup: it never puts the stream back, and leaves the worker awake. */
  lemma WakeMeasure(cfg: Config, i: nat, s: Stream.State)
    requires cfg.Lawful() && Polling(cfg, i, s) && Stream.CanConsume(s) && Stream.Waking(s.own.cpc)
    ensures var s' := Stream.Consume(cfg, s);
      && s'.queue == s.queue && Measure(cfg, s') <= Measure(cfg, s)
      && (s.own.cpc.CWake? ==> s'.own.cpc == Stream.CClear(s.own.cpc.why))
      && (s.own.cpc.CClear? && s.own.cpc.why.ForGet? ==>
            s'.own.cpc == Stream.CReturn(s.own.cpc.why.reply) && Improved(cfg, s', Measure(cfg, s)))
  {
    if s.queue == [] { RankOther(cfg, i, s, Stream.AConsume); }
  }

  lemma AtSameMeasure(cfg: Config, s: Stream.State)
    requires s.own.cpc.CIdle?
    ensures Measure(cfg, Stream.At(s, Stream.CRecv)) == Measure(cfg, s)
  {
  }

  /** The start of get_chunk, up to try_recv. */
  lemma ReceiveMeasure(cfg: Config, i: nat, s: Stream.State)
    requires cfg.Lawful() && Polling(cfg, i, s) && s.own.cpc.CRecv? && s.queue == []
    ensures var s' := Stream.Consume(cfg, s);
      s'.own.cpc == Stream.CWake(Stream.ForGet(Stream.Empty)) && Measure(cfg, s') <= Measure(cfg, s)
  {
    RankOther(cfg, i, s, Stream.AConsume);
  }

  lemma WorkCounts(cfg: Config, i: nat, s: Stream.State)
    requires cfg.Lawful() && Polling(cfg, i, s) && Stream.CanStep(s, s.worker.pc, false) && !s.sync.sleeping
    ensures Measure(cfg, Stream.Work(cfg, i, s)) == 0 || Measure(cfg, Stream.Work(cfg, i, s)) < Measure(cfg, s)
  {
    if s.queue == [] { RankWork(cfg, i, s, false); }
  }

  lemma QueueOrRank(cfg: Config, i: nat, s: Stream.State)
    requires cfg.Lawful() && Polling(cfg, i, s)
    ensures Measure(cfg, s) == 0 <==> s.queue != []
  {
  }

  /** Round an offset down to a multiple of the chunk size. */
  method RoundToChunk(byteOffset: u64, chunkSize: u64) returns (offset: u64, chunkIndex: u64)
    requires chunkSize > 0
    ensures chunkIndex as nat == byteOffset as nat / chunkSize as nat
    ensures offset as nat == chunkIndex as nat * chunkSize as nat
    ensures offset <= byteOffset && byteOffset as nat - offset as nat < chunkSize as nat
  {
    offset := byteOffset;
    if offset % chunkSize != 0 {
      offset := offset - offset % chunkSize;
    }
    chunkIndex := offset / chunkSize;
    DivModUnique(offset as nat, chunkSize as nat, byteOffset as nat / chunkSize as nat, 0);
  }

  /** How many chunks stream i of n contributes to the first c is at most c. */
  lemma PosAtMost(i: nat, n: nat, c: nat)
    requires i < n
    ensures Pos(i, n, c) <= c
  {
    var q, r := c / n, c % n;
    assert c == q * n + r;
    MulMonotone(1, n, q);
  }

  /** The offset of a stream never exceeds the offset of the whole. */
  lemma OffsetAtMost(cfg: Config, i: nat, c: nat)
    requires cfg.threads > 0 && i < cfg.threads
    ensures Offset(cfg, i, c) <= c * cfg.ChunkSize()
  {
    PosAtMost(i, cfg.threads, c);
    hide Config.ChunkSize, Pos;
    var p, z := Pos(i, cfg.threads, c), cfg.ChunkSize();
    assert p * z <= c * z;
  }

  /** The per-stream byte offset, in u64 arithmetic. No operation overflows, whatever 64-bit
      offset the chunk index comes from. */
  method ThreadOffset(cfg: Config, i: nat, current: u64, chunkIndex: u64, numThreads: u64, chunkSize: u64)
    returns (r: u64)
    requires cfg.threads > 0 && i < cfg.threads == numThreads as nat && chunkSize as nat == cfg.ChunkSize()
    requires current as nat == chunkIndex as nat % cfg.threads
    requires chunkIndex as nat * cfg.ChunkSize() < U64_LIMIT
    ensures r as nat == Offset(cfg, i, chunkIndex as nat)
  {
    OffsetAtMost(cfg, i, chunkIndex as nat);
    var iteration := chunkIndex / numThreads;
    hide Config.ChunkSize;
    if i < current as nat {
      r := (iteration + 1) * chunkSize;
    } else {
      r := iteration * chunkSize;
    }
  }

  /** The aggregator's sizes are those that its constructor admits and a u64 can hold. */
  predicate Sized(cfg: Config) {
    cfg.threads <= 0x1_0000 && 0 < cfg.ChunkSize() < U64_LIMIT
  }

  /** What `activate` comes back with; Blocked if it never comes back. */
  datatype ActivateResult = Activated(byteOffset: u64, chunkSize: u64) | BadSector | Blocked

  class DtStreamAgg {
    const cfg: Config
    var m: State
    ghost var run: seq<Action>

    /** The machine's state is the end of a run from the start in which the consumer never held
        more than one chunk. */
    ghost predicate Reached()
      reads this
    {
      cfg.Lawful() && Sized(cfg) && FrugalRun(cfg, Init(cfg), run, m, 1)
    }

    ghost predicate Valid()
      reads this
    {
      Reached() && m.call.Idle?
    }

    constructor (cfg: Config)
      requires cfg.Lawful() && Sized(cfg)
      ensures Valid() && this.cfg == cfg && m == Init(cfg) && AllStoppable(0)
    {
      this.cfg := cfg;
      m := Init(cfg);
      run := [];
    }

    /** The stream whose turn it is. */
    function Cur(): Stream.State
      requires m.current < |m.streams|
      reads this
    {
      m.streams[m.current]
    }

    lemma Facts()
      requires Reached()
      ensures AggInv(cfg, m) && HeldInv(cfg, m) && BudgetInv(cfg, m, 1) && HoldsAtMost(m, 1)
    {
      FrugalFacts(cfg, run, m, 1);
    }

    method Step(a: Action)
      requires Reached() && |m.streams| == cfg.threads && Enabled(cfg, m, a) && HoldsAtMost(Apply(cfg, m, a), 1)
      modifies this
      ensures Reached() && |m.streams| == cfg.threads && m == Apply(cfg, old(m), a)
    {
      hide Enabled, Apply, HoldsAtMost;
      FrugalRunAppend(cfg, Init(cfg), run, m, a, 1);
      m := Apply(cfg, m, a);
      run := run + [a];
    }

    /** The streams from i on can be stopped, whatever their workers do. */
    ghost predicate AllStoppable(i: nat)
      reads this
    {
      forall j :: i <= j < |m.streams| ==> Stoppable(m.streams[j])
    }

    /** One step of a thread of stream i. */
    method StepWorker(i: nat, a: Stream.Action)
      requires Reached() && |m.streams| == cfg.threads && Enabled(cfg, m, Work(i, a))
      modifies this
      ensures Reached() && |m.streams| == cfg.threads && m == Apply(cfg, old(m), Work(i, a))
      ensures WorkersOnly(cfg, old(m), m)
    {
      Facts();
      WorkIsWorkersOnly(cfg, m, i, a);
      hide WorkersOnly, AggInv, HeldInv, BudgetInv;
      Step(Work(i, a));
    }

    /** The scheduler runs any workers for any number of steps. */
    method Interleave()
      requires Reached() && |m.streams| == cfg.threads
      modifies this
      ensures Reached() && |m.streams| == cfg.threads && WorkersOnly(cfg, old(m), m)
    {
      hide Reached, Enabled, Apply, Advanced, Exited;
      AdvancedSelf(cfg, m);
      ghost var m0 := m;
      var n: int := *;
      while n > 0
        invariant Reached() && |m.streams| == cfg.threads && WorkersOnly(cfg, m0, m)
      {
        var i: int := *;
        var a: Stream.Action := *;
        if i >= 0 && Enabled(cfg, m, Work(i, a)) {
          ghost var m1 := m;
          StepWorker(i, a);
          WorkersOnlyTransitive(cfg, m0, m1, m);
        }
        n := n - 1;
      }
    }

    // ---- get_chunk and wait_chunk ----

    /** The consumer is inside get_chunk of the current stream and carries nothing else. */
    ghost predicate InGet()
      reads this
    {
      && Reached() && |m.streams| == cfg.threads && m.call.Fetching? && m.isActive && m.held == []
      && m.current < cfg.threads
    }

    lemma InGetFacts()
      requires InGet()
      ensures Polling(cfg, m.current, Cur()) && Getting(Cur()) && !Carried(Cur()).Failed?
    {
      Facts();
      assert PosOk(cfg, m, m.current, Cur()) && CallOk(cfg, m, m.current, Cur()) && Healthy(cfg, m.current, Cur());
    }

    /** One consumer step inside the stream's get_chunk. */
    method GetStep()
      requires InGet() && Stream.CanConsume(Cur()) && !Cur().own.cpc.CReturn?
      modifies this
      ensures InGet() && m == Put(old(m), old(m.current), Stream.Consume(cfg, old(Cur())))
    {
      InGetFacts();
      GetHistory(cfg, Cur());
      hide Polling, Stream.Consume;
      Step(Consume);
    }

    /** The consumer waits for the mutex of stream i, while any workers run. */
    method LockMutex(i: nat)
      requires Reached() && |m.streams| == cfg.threads && i < cfg.threads && m.streams[i].own.cpc.CWake?
      modifies this
      ensures Reached() && |m.streams| == cfg.threads && WorkersOnly(cfg, old(m), m)
      ensures m.streams[i].sync.mutex.Free?
    {
      hide Reached, Apply, Advanced, Exited, HoldRank, Stream.Work;
      ghost var m0 := m;
      Interleave();
      while m.streams[i].sync.mutex.ByWorker?
        invariant Reached() && |m.streams| == cfg.threads && WorkersOnly(cfg, m0, m)
        decreases HoldRank(m.streams[i])
      {
        ghost var m1 := m;
        HolderCanRelease(i);
        StepWorker(i, Stream.AWork(false));
        WorkersOnlyTransitive(cfg, m0, m1, m);
      }
      NotByConsumer(i);
    }

    lemma HolderCanRelease(i: nat)
      requires Reached() && |m.streams| == cfg.threads && i < cfg.threads && m.streams[i].sync.mutex.ByWorker?
      ensures var a := Work(i, Stream.AWork(false));
        Enabled(cfg, m, a) && HoldRank(Apply(cfg, m, a).streams[i]) < HoldRank(m.streams[i])
    {
      Facts();
      assert Healthy(cfg, i, m.streams[i]);
      HolderReleases(cfg, i, m.streams[i]);
      hide HoldRank, Stream.Work;
    }

    lemma NotByConsumer(i: nat)
      requires Reached() && |m.streams| == cfg.threads && i < cfg.threads && m.streams[i].own.cpc.CWake?
      ensures !m.streams[i].sync.mutex.ByConsumer?
    {
      Facts();
      assert Healthy(cfg, i, m.streams[i]);
    }

    /** wake_thread, called by the stream's get_chunk: lock, clear `sleeping`, notify. */
    method WakeThread()
      requires InGet() && Cur().own.cpc.CWake? && Cur().own.cpc.why.ForGet?
      modifies this
      ensures InGet() && m.(streams := []) == old(m.(streams := []))
      ensures Cur().own.cpc == Stream.CReturn(old(Cur()).own.cpc.why.reply)
      ensures Improved(cfg, Cur(), Measure(cfg, old(Cur())))
    {
      LockMutex(m.current);
      InGetFacts();
      WakeMeasure(cfg, m.current, Cur());
      hide Stream.Consume, Measure;
      GetStep();
      Interleave();
      InGetFacts();
      WakeMeasure(cfg, m.current, Cur());
      GetStep();
    }

    /** The consumer is ready to ask for the next chunk. */
    ghost predicate ReadyToGet()
      reads this
    {
      Valid() && |m.streams| == cfg.threads && m.isActive && m.held == [] && m.current < cfg.threads
    }

    lemma ReadyFacts()
      requires ReadyToGet()
      ensures Polling(cfg, m.current, Cur()) && Cur().own.cpc.CIdle?
      ensures Enabled(cfg, m, CallGet)
    {
      Facts();
      assert PosOk(cfg, m, m.current, Cur()) && CallOk(cfg, m, m.current, Cur()) && Healthy(cfg, m.current, Cur());
    }

    /** Entry of get_chunk: an active stream without an error goes on to try_recv. */
    method BeginGet()
      requires ReadyToGet()
      modifies this
      ensures InGet() && m.(streams := [], call := Idle) == old(m.(streams := []))
      ensures Cur() == Stream.At(old(Cur()), Stream.CRecv)
    {
      ReadyFacts();
      hide Polling;
      Step(CallGet);
    }

    /** Exit of get_chunk: on success the turn passes on, and the chunk is the one that was due. */
    method FinishGet() returns (r: Option<Held>)
      requires InGet() && Cur().own.cpc.CReturn?
      modifies this
      ensures Valid() && |m.streams| == cfg.threads && m.isActive && m.first == old(m.first)
      ensures r.None? ==> ReadyToGet() && m.out == old(m.out) && m.current == old(m.current)
      ensures r.None? ==> Measure(cfg, Cur()) == Measure(cfg, old(Cur())) && Cur().sync == old(Cur()).sync
      ensures r.Some? ==> m.held == [r.value] && m.out == old(m.out) + [r.value.data]
      ensures r.Some? ==> r.value.data == GlobalChunk(cfg, old(m.Next()))
      ensures r.Some? <==> old(Cur()).own.cpc.reply.Got?
    {
      Facts();
      if Cur().own.cpc.reply.Got? { ReplyIsNext(cfg, m); }
      ghost var c := m.current;
      hide AggInv, HeldInv, BudgetInv, FrugalRun, GlobalChunk;
      Step(Consume);
      r := if m.held == [] then None else Some(m.held[0]);
    }

    /** try_recv finds a chunk: count it, wake the worker if the level is low, return it. */
    method TakeChunk() returns (r: Option<Held>)
      requires InGet() && Cur().own.cpc.CRecv? && Cur().queue != []
      modifies this
      ensures Valid() && |m.streams| == cfg.threads && m.isActive && m.first == old(m.first)
      ensures r.Some? && m.held == [r.value] && m.out == old(m.out) + [r.value.data]
      ensures r.value.data == GlobalChunk(cfg, old(m.Next()))
    {
      hide FrugalRun, GlobalChunk, Measure, Improved;
      GetStep();
      Interleave();
      GetStep();
      if Cur().own.cpc.CWake? { WakeThread(); }
      Interleave();
      r := FinishGet();
    }

    /** try_recv finds nothing: wake the worker. */
    method FindNothing() returns (r: Option<Held>)
      requires InGet() && Cur().own.cpc.CRecv? && Cur().queue == []
      modifies this
      ensures ReadyToGet() && m.first == old(m.first) && m.out == old(m.out) && m.current == old(m.current)
      ensures r.None? && Improved(cfg, Cur(), Measure(cfg, old(Cur())))
    {
      InGetFacts();
      ReceiveMeasure(cfg, m.current, Cur());
      hide FrugalRun, Measure, Polling, Stream.Consume, GlobalChunk;
      GetStep();
      WakeThread();
      Interleave();
      r := FinishGet();
    }

    /** Get the next chunk, if there is one. If there is none, the worker is nearer to sending
        one, or as near and awake. */
    method GetChunk() returns (r: Option<Held>)
      requires ReadyToGet()
      modifies this
      ensures Valid() && |m.streams| == cfg.threads && m.isActive && m.first == old(m.first)
      ensures r.None? ==> ReadyToGet() && m.out == old(m.out) && m.current == old(m.current)
      ensures r.None? ==> Improved(cfg, Cur(), Measure(cfg, old(Cur()))) && old(Cur()).queue == []
      ensures r.Some? ==> m.held == [r.value] && m.out == old(m.out) + [r.value.data]
      ensures r.Some? ==> r.value.data == GlobalChunk(cfg, old(m.Next()))
    {
      hide FrugalRun, Measure, Rank, GlobalChunk;
      Interleave();
      ReadyFacts();
      AtSameMeasure(cfg, Cur());
      hide Polling;
      BeginGet();
      Interleave();
      if Cur().queue != [] {
        r := TakeChunk();
      } else {
        r := FindNothing();
      }
    }

    /** The consumer sleeps for a while. The scheduler is fair: unless it is blocked, the worker
        of the current stream takes at least one step meanwhile. */
    method Pause(ghost before: nat)
      requires ReadyToGet() && Improved(cfg, Cur(), before)
      modifies this
      ensures ReadyToGet() && m.first == old(m.first) && m.out == old(m.out) && m.current == old(m.current)
      ensures Measure(cfg, Cur()) == 0 || Measure(cfg, Cur()) < before
    {
      hide FrugalRun, Measure, GlobalChunk;
      Interleave();
      ReadyFacts();
      NeverStuck(cfg, m.current, Cur());
      hide Polling, Stream.Work;
      if Stream.CanStep(Cur(), Cur().worker.pc, false) {
        if !Cur().sync.sleeping { WorkCounts(cfg, m.current, Cur()); }
        StepWorker(m.current, Stream.AWork(false));
      }
      Interleave();
    }

    /** Wait for the next chunk. The loop ends, because every failed poll followed by a pause
        brings the worker nearer to its next send. */
    method WaitChunk() returns (r: Held)
      requires ReadyToGet()
      modifies this
      ensures Valid() && |m.streams| == cfg.threads && m.isActive && m.first == old(m.first)
      ensures m.held == [r] && m.out == old(m.out) + [r.data]
      ensures r.data == GlobalChunk(cfg, old(m.Next()))
    {
      hide FrugalRun, Measure, GlobalChunk;
      while true
        invariant ReadyToGet() && m.first == old(m.first) && m.out == old(m.out)
        decreases Measure(cfg, Cur())
      {
        ghost var before := Measure(cfg, Cur());
        assert before == 0 ==> Cur().queue != [] by { ReadyFacts(); QueueOrRank(cfg, m.current, Cur()); }
        var c := GetChunk();
        if c.Some? { return c.value; }
        Pause(before);
      }
    }

    /** The consumer drops the chunk it holds: the buffer is recycled. */
    method DropChunk()
      requires Valid() && |m.streams| == cfg.threads && m.isActive && |m.held| == 1
      modifies this
      ensures ReadyToGet() && m.first == old(m.first) && m.out == old(m.out)
    {
      hide AggInv, HeldInv, BudgetInv, FrugalRun, Advanced, Exited, Stoppable;
      Interleave();
      DropEnabled();
      Step(Drop(0));
    }

    lemma DropEnabled()
      requires Valid() && |m.streams| == cfg.threads && |m.held| == 1
      ensures Enabled(cfg, m, Drop(0)) && m.current < cfg.threads && HoldsAtMost(Apply(cfg, m, Drop(0)), 1)
      ensures Apply(cfg, m, Drop(0)).held == []
    {
      Facts();
      var t := m.held[0].threadId;
      assert CallOk(cfg, m, t, m.streams[t]);
    }

    // ---- activate, and the drop of the aggregator ----

    /** The consumer is inside activate or drop, at stream i, which it has begun to stop or not. */
    ghost predicate InSweep(i: nat, begun: bool)
      reads this
    {
      && Reached() && |m.streams| == cfg.threads && m.held == []
      && m.call.Sweeping? && m.call.i == i && m.call.begun == begun
      && (if begun then i < cfg.threads else i <= cfg.threads)
    }

    method SweepStep(i: nat, begun: bool)
      requires InSweep(i, begun) && (begun ==> Stream.CanConsume(m.streams[i]))
      modifies this
      ensures Reached() && |m.streams| == cfg.threads && m == ConsumeSweep(cfg, old(m))
    {
      SweepEnabled(i, begun);
      hide FrugalRun;
      Step(Consume);
    }

    lemma SweepEnabled(i: nat, begun: bool)
      requires InSweep(i, begun) && (begun ==> Stream.CanConsume(m.streams[i]))
      ensures Enabled(cfg, m, Consume) && HoldsAtMost(Apply(cfg, m, Consume), 1)
      ensures Apply(cfg, m, Consume) == ConsumeSweep(cfg, m)
      ensures begun ==> StopFor(m.streams[i].own.cpc, Purpose(cfg, m, i)) && Inv(cfg, i, m.streams[i])
    {
      Facts();
      if i < cfg.threads { assert CallOk(cfg, m, i, m.streams[i]) && Healthy(cfg, i, m.streams[i]); }
      hide AggInv, HeldInv, BudgetInv, FrugalRun, Stream.Consume;
    }

    /** Join the worker of stream i. If the worker is about to sleep with nobody left to wake
        it, the call never returns; `blocked` stands for that. */
    method Join(i: nat) returns (blocked: bool)
      requires InSweep(i, true) && m.streams[i].own.cpc.CJoin?
      modifies this
      ensures InSweep(i, true) && m.(streams := []) == old(m.(streams := []))
      ensures m.streams[i].own == old(m.streams[i]).own
      ensures blocked <==> Doomed(old(m.streams[i]))
      ensures if blocked then Doomed(m.streams[i]) else Stream.CanConsume(m.streams[i])
      ensures old(AllStoppable(i + 1)) ==> AllStoppable(i + 1)
    {
      hide FrugalRun, Advanced, ExitRank, Stoppable;
      Interleave();
      blocked := false;
      if m.streams[i].own.joinable {
        if Doomed(m.streams[i]) { return true; }
        while !m.streams[i].worker.pc.WExit?
          invariant InSweep(i, true) && m.(streams := []) == old(m.(streams := []))
          invariant m.streams[i].own == old(m.streams[i]).own && !Doomed(m.streams[i])
          invariant old(AllStoppable(i + 1)) ==> AllStoppable(i + 1)
          decreases ExitRank(m.streams[i])
        {
          Interleave();
          if m.streams[i].worker.pc.WExit? { break; }
          CanExit(i);
          StepWorker(i, Stream.AWork(false));
        }
        Interleave();
      }
    }

    lemma CanExit(i: nat)
      requires InSweep(i, true) && m.streams[i].own.cpc.CJoin? && m.streams[i].own.joinable
      requires !Doomed(m.streams[i]) && !m.streams[i].worker.pc.WExit?
      ensures var a := Work(i, Stream.AWork(false));
        && Enabled(cfg, m, a)
        && ExitRank(Apply(cfg, m, a).streams[i]) < ExitRank(m.streams[i]) && !Doomed(Apply(cfg, m, a).streams[i])
    {
      Facts();
      assert Healthy(cfg, i, m.streams[i]);
      ExitStep(cfg, i, m.streams[i], false);
    }

    /** stop of stream i, up to the join: store abort, then wake the worker under the mutex. */
    method StopStream(i: nat, after: Stream.After)
      requires InSweep(i, false) && i < cfg.threads && after == Purpose(cfg, m, i)
      modifies this
      ensures m.(streams := [], call := Idle) == old(m.(streams := [], call := Idle)) && InSweep(i, true)
      ensures m.call.discard == old(m.call.discard) && m.streams[i].own.cpc == Stream.CJoin(after)
      ensures old(Stoppable(m.streams[i])) ==> !Doomed(m.streams[i])
      ensures old(AllStoppable(i + 1)) ==> AllStoppable(i + 1)
    {
      hide FrugalRun, Advanced, Exited, Doomed, Offset, Stoppable;
      Interleave();
      StoppedStoppable(m.streams[i], after);
      SweepStep(i, false);
      Interleave();
      LockedStoppable(m.streams[i]);
      SweepStep(i, true);
      WakeStopped(i, after);
    }

    /** The wakeup within stop. */
    method WakeStopped(i: nat, after: Stream.After)
      requires InSweep(i, true)
      requires m.streams[i].own.cpc == Stream.CWake(Stream.ForStop(after))
      modifies this
      ensures m.(streams := []) == old(m.(streams := [])) && InSweep(i, true)
      ensures m.streams[i].own.cpc == Stream.CJoin(after)
      ensures old(Stoppable(m.streams[i])) ==> !Doomed(m.streams[i])
      ensures old(AllStoppable(i + 1)) ==> AllStoppable(i + 1)
    {
      hide FrugalRun, Advanced, Exited, Doomed, Offset, Stoppable;
      LockMutex(i);
      LockedStoppable(m.streams[i]);
      SweepStep(i, true);
      Interleave();
      ClearStoppable(i);
      SweepStep(i, true);
    }

    /** stop of stream i, and what follows it. */
    method SweepStream(i: nat, after: Stream.After) returns (blocked: bool)
      requires InSweep(i, false) && i < cfg.threads && after == Purpose(cfg, m, i)
      modifies this
      ensures m.(streams := [], call := Idle) == old(m.(streams := [], call := Idle))
      ensures if blocked then InSweep(i, true) && Doomed(m.streams[i]) else InSweep(i + 1, false)
      ensures m.call.discard == old(m.call.discard)
      ensures old(Stoppable(m.streams[i])) ==> !blocked
      ensures old(AllStoppable(i + 1)) ==> AllStoppable(i + 1)
    {
      hide FrugalRun, Doomed, Offset, Stoppable;
      StopStream(i, after);
      blocked := Join(i);
      if !blocked {
        FinishStop(i, after);
      }
    }

    lemma StoppedStoppable(s: Stream.State, after: Stream.After)
      ensures Stoppable(Stream.CallStop(s, after)) == Stoppable(s)
    {
    }

    lemma LockedStoppable(s: Stream.State)
      requires cfg.baseSize > 0 && (s.own.cpc.CAbort? || s.own.cpc.CWake?)
      ensures Stoppable(Stream.Consume(cfg, s)) == Stoppable(s)
    {
    }

    lemma ClearStoppable(i: nat)
      requires InSweep(i, true) && m.streams[i].own.cpc.CClear? && m.streams[i].own.cpc.why.ForStop?
      ensures Stoppable(m.streams[i]) ==> !Doomed(Stream.Consume(cfg, m.streams[i]))
    {
      Facts();
      assert Healthy(cfg, i, m.streams[i]);
      hide AggInv, HeldInv, BudgetInv, FrugalRun, Stoppable, Doomed, LifeInv, LevelInv, DataInv, BufferInv;
      if Stoppable(m.streams[i]) { WakeStoppable(cfg, m.streams[i]); }
    }

    /** The join has returned: reset abort, then spawn the next worker or drop the fields. */
    method FinishStop(i: nat, after: Stream.After)
      requires InSweep(i, true) && m.streams[i].own.cpc == Stream.CJoin(after)
      requires Stream.CanConsume(m.streams[i])
      modifies this
      ensures m.(streams := [], call := Idle) == old(m.(streams := [], call := Idle)) && InSweep(i + 1, false)
      ensures m.call.discard == old(m.call.discard)
      ensures old(AllStoppable(i + 1)) ==> AllStoppable(i + 1)
    {
      hide FrugalRun, Advanced, Exited, Offset, Stoppable;
      SweepStep(i, true);
      Interleave();
      SweepStep(i, true);
      if after.Restart? {
        Interleave();
        SweepStep(i, true);
      }
    }

    /** Restart every stream at its own offset. */
    method RestartAll(chunkIndex: u64, chunkSize: u64) returns (blocked: bool)
      requires Valid() && |m.streams| == cfg.threads && m.held == []
      requires chunkSize as nat == cfg.ChunkSize() && chunkIndex as nat * cfg.ChunkSize() < U64_LIMIT
      modifies this
      ensures !blocked ==> ReadyToGet() && m.out == [] && m.first == chunkIndex as nat
      ensures blocked ==> m.call.Sweeping? && m.call.i < |m.streams| && Doomed(m.streams[m.call.i])
      ensures old(AllStoppable(0)) ==> !blocked
    {
      hide FrugalRun, Doomed, Config.ChunkSize, Stoppable;
      Interleave();
      Step(CallActivate(chunkIndex as nat));
      var numThreads := cfg.threads as u64;
      var current := chunkIndex % numThreads;
      for i := 0 to cfg.threads
        invariant InSweep(i, false) && !m.call.discard && m.first == chunkIndex as nat && m.out == []
        invariant m.current == current as nat
        invariant old(AllStoppable(0)) ==> AllStoppable(i)
      {
        var threadOffset := ThreadOffset(cfg, i, current, chunkIndex, numThreads, chunkSize);
        blocked := SweepStream(i, Stream.Restart(threadOffset as nat));
        if blocked { return; }
      }
      Interleave();
      SweepStep(cfg.threads, false);
      blocked := false;
    }

    /** Activate every stream for a start at `byteOffset`, rounded down to a chunk boundary. */
    method Activate(byteOffset: u64, sectorSize: u64) returns (r: ActivateResult)
      requires Valid() && |m.streams| == cfg.threads && m.held == [] && sectorSize > 0
      modifies this
      ensures r.BadSector? <==> cfg.ChunkSize() % sectorSize as nat != 0
      ensures r.BadSector? ==> m == old(m) && Valid()
      ensures r.Activated? ==> ReadyToGet() && m.out == [] && m.first == byteOffset as nat / cfg.ChunkSize()
      ensures r.Activated? ==> r.chunkSize as nat == cfg.ChunkSize() && r.byteOffset as nat == m.first * cfg.ChunkSize()
      ensures r.Blocked? ==> m.call.Sweeping? && m.call.i < |m.streams| && Doomed(m.streams[m.call.i])
      ensures old(AllStoppable(0)) ==> !r.Blocked?
    {
      hide FrugalRun, Doomed, Stoppable;
      var chunkSize := cfg.ChunkSize() as u64;
      if chunkSize % sectorSize != 0 { return BadSector; }
      hide Config.ChunkSize;
      var offset, chunkIndex := RoundToChunk(byteOffset, chunkSize);
      var blocked := RestartAll(chunkIndex, chunkSize);
      r := if blocked then Blocked else Activated(offset, chunkSize);
    }

    /** The aggregator goes out of scope: every stream is stopped for good, and its worker joined.
        `blocked` stands for a join that never returns. */
    method Shutdown() returns (blocked: bool)
      requires Valid() && |m.streams| == cfg.threads && m.held == []
      modifies this
      ensures blocked ==> m.call.Sweeping? && m.call.i < |m.streams| && Doomed(m.streams[m.call.i])
      ensures !blocked ==> m.call.Gone? && forall i :: 0 <= i < |m.streams| ==> Live(m.streams[i]) == {}
      ensures old(AllStoppable(0)) ==> !blocked
    {
      hide FrugalRun, Doomed, Stoppable;
      Interleave();
      Step(CallDrop);
      for i := 0 to cfg.threads
        invariant InSweep(i, false) && m.call.discard
        invariant old(AllStoppable(0)) ==> AllStoppable(i)
      {
        blocked := SweepStream(i, Stream.Discard);
        if blocked { return; }
      }
      Interleave();
      SweepStep(cfg.threads, false);
      AllGone();
      blocked := false;
    }

    lemma AllGone()
      requires Reached() && |m.streams| == cfg.threads && m.call.Gone?
      ensures forall i :: 0 <= i < |m.streams| ==> Live(m.streams[i]) == {}
    {
      Facts();
      hide FrugalRun, AggInv, HeldInv, BudgetInv;
      forall i | 0 <= i < |m.streams| ensures Live(m.streams[i]) == {} {
        StreamAt(cfg, m, i);
        HealthyIs(cfg, i, m.streams[i]);
      }
    }
  }
}
