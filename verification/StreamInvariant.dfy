/** What every reachable state of a stream satisfies. */
module StreamInvariant {
  import opened Generator
  import opened Stream

  // ---- The invariant, one concern at a time ----

  /** The consumer is inside stop, between storing abort = true and storing abort = false. */
  predicate Stopping(s: State) {
    match s.own.cpc
    case CWake(why) => why.ForStop?
    case CClear(why) => why.ForStop?
    case CJoin(_) => true
    case CUnabort(_) => true
    case _ => false
  }

  /** The consumer is inside get_chunk. */
  predicate Getting(s: State) {
    match s.own.cpc
    case CRecv => true
    case CSub(_) => true
    case CWake(why) => why.ForGet?
    case CClear(why) => why.ForGet?
    case CReturn(_) => true
    case _ => false
  }

  /** The reply that the consumer is carrying. */
  function Carried(s: State): Reply {
    match s.own.cpc
    case CSub(chunk) => Got(chunk)
    case CWake(ForGet(reply)) => reply
    case CClear(ForGet(reply)) => reply
    case CReturn(reply) => reply
    case _ => Empty
  }

  /** Life cycle: only the newest thread may be running, and only while it is joinable. */
  ghost predicate LifeInv(s: State) {
    && (forall k :: 0 <= k < |s.older| ==> s.older[k].pc.WExit?)
    && (s.own.hasRx <==> s.older != [] && !s.own.cpc.CDropped?)
    && (s.own.joinable ==> s.own.hasRx)
    && (!s.own.joinable ==> s.worker.pc.WExit?)
    && !s.worker.pc.WPanic?
    && (s.own.isActive ==> s.own.joinable && (s.own.cpc.CIdle? || Getting(s)))
    && (s.sync.abort <==> Stopping(s))
    && (s.own.cpc.CUnabort? || s.own.cpc.CStart? || s.own.cpc.CDropped? ==> !s.own.joinable)
    && (Getting(s) && !Carried(s).Failed? ==> s.own.isActive)
    && (s.own.isActive && s.worker.pc.WExit? ==> s.sync.error)
    && (Carried(s).Failed? ==> s.own.cpc.CReturn? && (!s.own.isActive || s.sync.error))
  }

  /** Mutex ownership and the sleep flag. */
  ghost predicate SleepInv(s: State) {
    && (s.sync.mutex.ByWorker? <==> s.worker.pc.WSet? || s.worker.pc.WTest? || s.worker.pc.WReload?)
    && (s.sync.mutex.ByConsumer? <==> s.own.cpc.CClear?)
    && (s.sync.sleeping ==> s.worker.pc.WTest? || s.worker.pc.WWait?)
    && (s.worker.pc.WWait? ==> s.sync.sleeping == !s.sync.signalled)
    && (s.sync.signalled ==> s.worker.pc.WWait?)
  }

  /** 1 between the worker's send and its increment of `level`. */
  function Unadded(s: State): int {
    if s.worker.pc.WAdd? then 1 else 0
  }

  /** 1 between the consumer's receive and its decrement of `level`. */
  function Unsubtracted(s: State): int {
    if s.own.cpc.CSub? then 1 else 0
  }

  /** The worker has decided to make a chunk that it has not sent yet. */
  predicate Producing(s: State) {
    s.worker.pc.WPull? || s.worker.pc.WGen? || s.worker.pc.WSend?
  }

  /** Level accounting and the look-ahead bound. */
  ghost predicate LevelInv(cfg: Config, s: State) {
    && s.sync.level == |s.queue| - Unadded(s) + Unsubtracted(s)
    && |s.queue| + Unsubtracted(s) <= (if Producing(s) then cfg.maxThres - 1 else cfg.maxThres)
    && (s.worker.pc.WCheck? ==> s.sync.level <= s.worker.cur <= cfg.maxThres)
    && (s.worker.pc.WInit? || s.worker.pc.WLoad? ==> s.queue == [] && !s.own.cpc.CSub?)
  }

  /** Number of chunks the worker has sent since its start. */
  function Sent(s: State): nat {
    s.hist.got + |s.queue|
  }

  /** The generator position that makes the j-th chunk since the start. */
  function BlockAt(cfg: Config, origin: nat, j: nat): nat {
    origin + j * cfg.factor
  }

  lemma BlockAtStep(cfg: Config, origin: nat, j: nat)
    ensures BlockAt(cfg, origin, 0) == origin
    ensures BlockAt(cfg, origin, j + 1) == BlockAt(cfg, origin, j) + cfg.factor
  {
  }

  /** The data: what is in the channel and in the worker's hands, chunk by chunk. */
  ghost predicate DataInv(cfg: Config, t: nat, s: State)
    requires cfg.baseSize > 0
  {
    && (forall j :: 0 <= j < |s.queue| ==> s.queue[j] == cfg.Chunk(t, BlockAt(cfg, s.hist.origin, s.hist.got + j)))
    && (Carried(s).Got? ==>
          s.hist.got > 0 && Carried(s).chunk == cfg.Chunk(t, BlockAt(cfg, s.hist.origin, s.hist.got - 1)))
    && (s.worker.pc.WInit? ==> s.hist.origin == s.worker.offset / cfg.baseSize && s.hist.got == 0)
    && (!s.worker.pc.WInit? && !s.worker.pc.WExit? ==>
          s.worker.counter == BlockAt(cfg, s.hist.origin, Sent(s) + if s.worker.pc.WSend? then 1 else 0))
    && (s.worker.pc.WGen? ==> |s.worker.buf| == cfg.ChunkSize())
    && (s.worker.pc.WSend? ==> s.worker.buf == cfg.Chunk(t, BlockAt(cfg, s.hist.origin, Sent(s))))
  }

  /** Buffers: every buffer pulled since the start was recycled or freshly allocated. */
  ghost predicate BufferInv(s: State) {
    s.worker.pc.WExit? ||
    s.hist.pushed + s.hist.allocs ==
      Sent(s) + |s.cache| + if s.worker.pc.WGen? || s.worker.pc.WSend? then 1 else 0
  }

  ghost predicate Inv(cfg: Config, t: nat, s: State)
    requires cfg.baseSize > 0
  {
    LifeInv(s) && SleepInv(s) && LevelInv(cfg, s) && DataInv(cfg, t, s) && BufferInv(s)
  }

  lemma InitInv(cfg: Config, t: nat)
    requires cfg.Lawful()
    ensures Inv(cfg, t, INIT)
  {
  }

  lemma LifeWork(cfg: Config, t: nat, s: State, spurious: bool)
    requires cfg.Lawful() && LifeInv(s) && CanStep(s, s.worker.pc, spurious)
    ensures LifeInv(Work(cfg, t, s))
  {
  }

  lemma LifeGet(cfg: Config, t: nat, s: State)
    requires cfg.Lawful() && LifeInv(s) && CanConsume(s) && (Receiving(s.own.cpc) || Waking(s.own.cpc))
    ensures LifeInv(Consume(cfg, s))
  {
  }

  lemma LifeStop(cfg: Config, t: nat, s: State)
    requires cfg.Lawful() && LifeInv(s) && CanConsume(s) && !Receiving(s.own.cpc) && !Waking(s.own.cpc)
    ensures LifeInv(Consume(cfg, s))
  {
  }

  lemma LifeOther(cfg: Config, t: nat, s: State, a: Action)
    requires cfg.Lawful() && LifeInv(s) && Enabled(s, a) && !a.AWork? && !a.AConsume?
    ensures LifeInv(Apply(cfg, t, s, a))
  {
  }

  lemma LifeStep(cfg: Config, t: nat, s: State, a: Action)
    requires cfg.Lawful() && LifeInv(s) && Enabled(s, a)
    ensures LifeInv(Apply(cfg, t, s, a))
  {
    hide LifeInv;
    match a
    case AWork(spurious) => LifeWork(cfg, t, s, spurious);
    case AConsume =>
      if Receiving(s.own.cpc) || Waking(s.own.cpc) { LifeGet(cfg, t, s); } else { LifeStop(cfg, t, s); }
    case _ => LifeOther(cfg, t, s, a);
  }

  lemma SleepWork(cfg: Config, t: nat, s: State, spurious: bool)
    requires cfg.Lawful() && LifeInv(s) && SleepInv(s) && CanStep(s, s.worker.pc, spurious)
    ensures SleepInv(Work(cfg, t, s))
  {
  }

  lemma SleepWake(s: State)
    requires SleepInv(s) && CanConsume(s) && Waking(s.own.cpc)
    ensures SleepInv(Wake(s))
  {
  }

  lemma SleepOther(cfg: Config, t: nat, s: State, a: Action)
    requires cfg.Lawful() && LifeInv(s) && SleepInv(s) && Enabled(s, a) && !a.AWork?
    ensures SleepInv(Apply(cfg, t, s, a))
  {
    if a.AConsume? && Waking(s.own.cpc) {
      hide SleepInv, LifeInv, Wake;
      SleepWake(s);
    } else {
      hide Wake, Config.Finish, Config.ChunkSize, Resize;
    }
  }

  lemma SleepStep(cfg: Config, t: nat, s: State, a: Action)
    requires cfg.Lawful() && LifeInv(s) && SleepInv(s) && Enabled(s, a)
    ensures SleepInv(Apply(cfg, t, s, a))
  {
    hide LifeInv, SleepInv;
    match a
    case AWork(spurious) => SleepWork(cfg, t, s, spurious);
    case _ => SleepOther(cfg, t, s, a);
  }

  lemma LevelMake(cfg: Config, t: nat, s: State, spurious: bool)
    requires cfg.Lawful() && LifeInv(s) && LevelInv(cfg, s) && CanStep(s, s.worker.pc, spurious)
    requires !Sleepy(s.worker.pc)
    ensures LevelInv(cfg, Work(cfg, t, s))
  {
    hide Config.Finish, Config.ChunkSize, Resize;
  }

  lemma LevelNap(cfg: Config, t: nat, s: State, spurious: bool)
    requires cfg.Lawful() && LifeInv(s) && LevelInv(cfg, s) && CanStep(s, s.worker.pc, spurious)
    requires Sleepy(s.worker.pc)
    ensures LevelInv(cfg, Work(cfg, t, s))
  {
  }

  lemma LevelReceive(cfg: Config, s: State)
    requires cfg.Lawful() && LifeInv(s) && LevelInv(cfg, s) && Receiving(s.own.cpc)
    ensures LevelInv(cfg, Receive(cfg, s))
  {
  }

  lemma LevelWake(cfg: Config, s: State)
    requires LevelInv(cfg, s) && Waking(s.own.cpc)
    ensures LevelInv(cfg, Wake(s))
  {
  }

  lemma LevelStop(cfg: Config, s: State)
    requires cfg.Lawful() && LifeInv(s) && LevelInv(cfg, s) && CanConsume(s)
    requires !Receiving(s.own.cpc) && !Waking(s.own.cpc)
    ensures LevelInv(cfg, StopStart(cfg, s))
  {
  }

  lemma LevelConsume(cfg: Config, t: nat, s: State)
    requires cfg.Lawful() && LifeInv(s) && LevelInv(cfg, s) && CanConsume(s)
    ensures LevelInv(cfg, Consume(cfg, s))
  {
    hide LifeInv, LevelInv;
    if Receiving(s.own.cpc) { LevelReceive(cfg, s); }
    else if Waking(s.own.cpc) { LevelWake(cfg, s); }
    else { LevelStop(cfg, s); }
  }

  lemma LevelCall(cfg: Config, t: nat, s: State, a: Action)
    requires cfg.Lawful() && LifeInv(s) && LevelInv(cfg, s) && Enabled(s, a) && !a.AWork? && !a.AConsume?
    ensures LevelInv(cfg, Apply(cfg, t, s, a))
  {
  }

  lemma BufferWork(cfg: Config, t: nat, s: State, spurious: bool)
    requires cfg.Lawful() && LifeInv(s) && BufferInv(s) && CanStep(s, s.worker.pc, spurious)
    ensures BufferInv(Work(cfg, t, s))
  {
    hide Config.Finish, Config.ChunkSize, Resize;
  }

  lemma BufferConsume(cfg: Config, s: State)
    requires cfg.baseSize > 0 && BufferInv(s) && CanConsume(s)
    ensures BufferInv(Consume(cfg, s))
  {
  }

  lemma BufferStep(cfg: Config, t: nat, s: State, a: Action)
    requires cfg.Lawful() && LifeInv(s) && BufferInv(s) && Enabled(s, a)
    ensures BufferInv(Apply(cfg, t, s, a))
  {
    hide Config.Finish, Config.ChunkSize, Resize;
    match a
    case AWork(spurious) => hide BufferInv; BufferWork(cfg, t, s, spurious);
    case AConsume => hide BufferInv; BufferConsume(cfg, s);
    case _ =>
  }

  /** The worker fills its buffer: that makes the chunk that is due. */
  lemma DataGenerate(cfg: Config, t: nat, s: State)
    requires cfg.Lawful() && LifeInv(s) && LevelInv(cfg, s) && DataInv(cfg, t, s) && s.worker.pc.WGen?
    ensures DataInv(cfg, t, Work(cfg, t, s))
  {
    BlockAtStep(cfg, s.hist.origin, Sent(s));
    hide BlockAt, Config.Blocks;
  }

  /** The worker sends its chunk: that is the last of the queue. */
  lemma DataSend(cfg: Config, t: nat, s: State)
    requires cfg.Lawful() && LifeInv(s) && LevelInv(cfg, s) && DataInv(cfg, t, s) && s.worker.pc.WSend?
    ensures DataInv(cfg, t, Work(cfg, t, s))
  {
    BlockAtStep(cfg, s.hist.origin, Sent(s));
    hide BlockAt, Config.Chunk, Config.Finish, Resize;
  }

  /** The worker seeks its generator, or gives up. */
  lemma DataSeek(cfg: Config, t: nat, s: State)
    requires cfg.Lawful() && LifeInv(s) && LevelInv(cfg, s) && DataInv(cfg, t, s) && s.worker.pc.WInit?
    ensures DataInv(cfg, t, Work(cfg, t, s))
  {
    BlockAtStep(cfg, s.hist.origin, 0);
    hide BlockAt, Config.Chunk, Config.Finish, Resize;
  }

  /** The worker loads, checks, pulls or counts: the data stay where they are. */
  lemma DataStay(cfg: Config, t: nat, s: State)
    requires cfg.Lawful() && DataInv(cfg, t, s)
    requires s.worker.pc.WLoad? || s.worker.pc.WCheck? || s.worker.pc.WPull? || s.worker.pc.WAdd?
    ensures DataInv(cfg, t, Work(cfg, t, s))
  {
    hide BlockAt, Config.Chunk, Config.Finish;
    var s' := Work(cfg, t, s);
    assert s'.queue == s.queue && s'.own == s.own && s'.worker.counter == s.worker.counter;
    assert s'.hist.got == s.hist.got && s'.hist.origin == s.hist.origin;
    assert s'.worker.pc.WGen? ==> |s'.worker.buf| == cfg.ChunkSize();
    assert !s'.worker.pc.WInit? && !s'.worker.pc.WSend?;
    hide Work, Config.ChunkSize, Resize;
  }

  lemma DataMake(cfg: Config, t: nat, s: State, spurious: bool)
    requires cfg.Lawful() && LifeInv(s) && LevelInv(cfg, s) && DataInv(cfg, t, s)
    requires !Sleepy(s.worker.pc) && CanStep(s, s.worker.pc, spurious)
    ensures DataInv(cfg, t, Work(cfg, t, s))
  {
    hide DataInv, LifeInv, LevelInv, Work;
    if s.worker.pc.WInit? {
      DataSeek(cfg, t, s);
    } else if s.worker.pc.WGen? {
      DataGenerate(cfg, t, s);
    } else if s.worker.pc.WSend? {
      DataSend(cfg, t, s);
    } else {
      DataStay(cfg, t, s);
    }
  }

  lemma DataNap(cfg: Config, t: nat, s: State, spurious: bool)
    requires cfg.Lawful() && LifeInv(s) && LevelInv(cfg, s) && DataInv(cfg, t, s)
    requires Sleepy(s.worker.pc) && CanStep(s, s.worker.pc, spurious)
    ensures DataInv(cfg, t, Work(cfg, t, s))
  {
    hide BlockAt, Config.Chunk;
  }

  lemma DataReceive(cfg: Config, t: nat, s: State)
    requires cfg.Lawful() && LifeInv(s) && LevelInv(cfg, s) && DataInv(cfg, t, s)
    requires Receiving(s.own.cpc)
    ensures DataInv(cfg, t, Receive(cfg, s))
  {
    hide BlockAt, Config.Chunk;
  }

  lemma DataStop(cfg: Config, t: nat, s: State)
    requires cfg.Lawful() && LifeInv(s) && LevelInv(cfg, s) && DataInv(cfg, t, s) && CanConsume(s)
    requires !Receiving(s.own.cpc)
    ensures DataInv(cfg, t, Consume(cfg, s))
  {
    hide BlockAt, Config.Chunk;
  }

  lemma DataCall(cfg: Config, t: nat, s: State, a: Action)
    requires cfg.Lawful() && LifeInv(s) && LevelInv(cfg, s) && DataInv(cfg, t, s) && Enabled(s, a)
    requires !a.AWork? && !a.AConsume?
    ensures DataInv(cfg, t, Apply(cfg, t, s, a))
  {
    hide BlockAt, Config.Chunk, Config.Finish, Config.ChunkSize, Resize;
  }

  lemma InvStep(cfg: Config, t: nat, s: State, a: Action)
    requires cfg.Lawful() && Inv(cfg, t, s) && Enabled(s, a)
    ensures Inv(cfg, t, Apply(cfg, t, s, a))
  {
    LifeStep(cfg, t, s, a);
    SleepStep(cfg, t, s, a);
    BufferStep(cfg, t, s, a);
    hide LifeInv, SleepInv, BufferInv, LevelInv, DataInv;
    match a
    case AWork(spurious) =>
      if Sleepy(s.worker.pc) {
        LevelNap(cfg, t, s, spurious);
        DataNap(cfg, t, s, spurious);
      } else {
        LevelMake(cfg, t, s, spurious);
        DataMake(cfg, t, s, spurious);
      }
    case AConsume =>
      LevelConsume(cfg, t, s);
      if Receiving(s.own.cpc) { DataReceive(cfg, t, s); } else { DataStop(cfg, t, s); }
    case _ =>
      LevelCall(cfg, t, s, a);
      DataCall(cfg, t, s, a);
  }

  lemma {:induction false} RunInv(cfg: Config, t: nat, s: State, run: seq<Action>, s': State)
    requires cfg.Lawful() && Inv(cfg, t, s) && Run(cfg, t, s, run, s')
    ensures Inv(cfg, t, s')
    decreases |run|
  {
    if run != [] {
      InvStep(cfg, t, s, run[0]);
      RunInv(cfg, t, Apply(cfg, t, s, run[0]), run[1..], s');
    }
  }

  // ---- What the invariant says about every run from the start ----

  /** Threads that have been spawned and have neither returned nor panicked. */
  function Live(s: State): set<nat> {
    (set k | 0 <= k < |s.older| && !s.older[k].pc.WExit? && !s.older[k].pc.WPanic?) +
    (if s.worker.pc.WExit? || s.worker.pc.WPanic? then {} else {|s.older|})
  }

  /** At most one worker thread is ever alive, none is alive without a join handle, no thread
      ever sends to a receiver that is gone, and the assertions at the entry of `start` hold. */
  lemma OneWorker(cfg: Config, t: nat, run: seq<Action>, s: State)
    requires cfg.Lawful() && Run(cfg, t, INIT, run, s)
    ensures |Live(s)| <= 1 && (!s.own.joinable ==> Live(s) == {})
    ensures !s.worker.pc.WPanic? && forall k :: 0 <= k < |s.older| ==> !s.older[k].pc.WPanic?
    ensures s.own.cpc.CStart? ==> !s.own.isActive && !s.own.joinable
  {
    InitInv(cfg, t);
    RunInv(cfg, t, INIT, run, s);
    assert Live(s) <= {|s.older|};
    assert |Live(s)| <= 1 by {
      if Live(s) != {} { assert Live(s) == {|s.older|}; }
    }
  }

  /** Level accounting: `level` is the queue length, less a chunk sent but not yet counted, plus
      a chunk received but not yet discounted. It stays between -1 and the high watermark, and
      the queue never grows beyond the high watermark. */
  lemma LevelAccounting(cfg: Config, t: nat, run: seq<Action>, s: State)
    requires cfg.Lawful() && Run(cfg, t, INIT, run, s)
    ensures s.sync.level == |s.queue| - Unadded(s) + Unsubtracted(s)
    ensures -1 <= s.sync.level <= cfg.maxThres
    ensures |s.queue| <= cfg.maxThres
  {
    InitInv(cfg, t);
    RunInv(cfg, t, INIT, run, s);
  }

  /** Every chunk that get_chunk hands over, in any interleaving and with any recycled buffers,
      is the one whose turn it is: the got-th chunk after the seek position. */
  lemma ChunksInOrder(cfg: Config, t: nat, run: seq<Action>, s: State)
    requires cfg.Lawful() && Run(cfg, t, INIT, run, s)
    requires s.own.cpc.CReturn? && s.own.cpc.reply.Got?
    ensures s.hist.got > 0
    ensures s.own.cpc.reply.chunk == cfg.Chunk(t, s.hist.origin + (s.hist.got - 1) * cfg.factor)
  {
    InitInv(cfg, t);
    RunInv(cfg, t, INIT, run, s);
  }
}
