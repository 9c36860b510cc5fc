/** The bound on allocations is reached for every limit: a run in which the consumer never holds
    more than `limit` chunks, and a worker allocates `limit` buffers more than the high watermark. */
module AllocationBound {
  import opened Arithmetic
  import opened Generator
  import opened Interleave
  import opened Aggregator
  import opened AggregatorInvariant
  import opened Allocation
  import Stream

  /** The end of a run from the start in which the consumer never held more than `limit` chunks. */
  ghost predicate FrugallyReached(cfg: Config, m: State, limit: nat)
    requires cfg.Lawful()
  {
    |m.streams| == cfg.threads && exists run :: FrugalRun(cfg, Init(cfg), run, m, limit)
  }

  lemma Reach(cfg: Config, m: State, a: Action, limit: nat) returns (m': State)
    requires cfg.Lawful() && FrugallyReached(cfg, m, limit)
    requires Enabled(cfg, m, a) && HoldsAtMost(Apply(cfg, m, a), limit)
    ensures m' == Apply(cfg, m, a) && FrugallyReached(cfg, m', limit) && |m'.streams| == cfg.threads
  {
    hide Enabled, Apply, HoldsAtMost;
    var run :| FrugalRun(cfg, Init(cfg), run, m, limit);
    FrugalRunAppend(cfg, Init(cfg), run, m, a, limit);
    m' := Apply(cfg, m, a);
  }

  lemma ReachedFacts(cfg: Config, m: State, limit: nat)
    requires cfg.Lawful() && FrugallyReached(cfg, m, limit)
    ensures HoldsAtMost(m, limit)
  {
    hide HoldsAtMost;
    var run :| FrugalRun(cfg, Init(cfg), run, m, limit);
    FrugalEnd(cfg, Init(cfg), run, m, limit);
  }

  // ---- The first activation ----

  /** A stream that has never been started is being started at offset 0. */
  predicate FirstStart(s: Stream.State) {
    && !s.own.joinable && !s.own.isActive && s.worker.pc.WExit?
    && !s.sync.error && s.sync.level == 0 && !s.sync.sleeping && !s.sync.signalled
    && s.sync.mutex == (if s.own.cpc.CClear? then Stream.ByConsumer else Stream.Free)
    && StopFor(s.own.cpc, Stream.Restart(0))
  }

  /** The consumer's fields of a started stream, between its calls. */
  const IN_USE: Stream.Owner := Stream.Owner(true, true, true, Stream.CIdle)

  /** The stream has been started at offset 0, and its worker has not done anything yet. */
  predicate JustStarted(s: Stream.State) {
    && s.worker == Stream.Worker(Stream.WInit, 0, 0, 0, []) && s.queue == [] && s.cache == []
    && s.hist.allocs == 0 && s.sync == Stream.INIT.sync && s.older != [] && s.own == IN_USE
  }

  function StartRank(c: Stream.ConsumerPc): nat {
    match c
    case CAbort(_) => 6
    case CWake(_) => 5
    case CClear(_) => 4
    case CJoin(_) => 3
    case CUnabort(_) => 2
    case CStart(_) => 1
    case _ => 0
  }

  lemma FirstStartStep(cfg: Config, s: Stream.State)
    requires cfg.baseSize > 0 && FirstStart(s)
    ensures Stream.CanConsume(s)
    ensures var s' := Stream.Consume(cfg, s);
      if s'.own.cpc.CIdle? then JustStarted(s')
      else FirstStart(s') && StartRank(s'.own.cpc) < StartRank(s.own.cpc)
  {
  }

  /** The consumer is inside its first activate; the streams from i on are untouched. */
  ghost predicate Starting(cfg: Config, m: State, i: nat, begun: bool, limit: nat)
    requires cfg.Lawful()
  {
    && FrugallyReached(cfg, m, limit) && m.call == Sweeping(i, begun, false)
    && m.held == [] && m.current == m.first == 0
    && (begun ==> i < cfg.threads && FirstStart(m.streams[i]))
    && i <= cfg.threads && (forall j :: 0 <= j < i ==> JustStarted(m.streams[j]))
    && (forall j :: i + (if begun then 1 else 0) <= j < cfg.threads ==> m.streams[j] == Stream.INIT)
  }

  lemma ZeroOffset(cfg: Config, i: nat)
    requires i < cfg.threads
    ensures Offset(cfg, i, 0) == 0
  {
    PosCounts(i, cfg.threads, 0);
    hide Config.ChunkSize, Pos;
  }

  lemma BeginStart(cfg: Config, m: State, i: nat, limit: nat) returns (m': State)
    requires cfg.Lawful() && i < cfg.threads && Starting(cfg, m, i, false, limit)
    ensures Starting(cfg, m', i, true, limit)
  {
    ZeroOffset(cfg, i);
    hide FrugallyReached, Offset;
    m' := Reach(cfg, m, Consume, limit);
  }

  lemma {:induction false} FinishStart(cfg: Config, m: State, i: nat, limit: nat) returns (m': State)
    requires cfg.Lawful() && Starting(cfg, m, i, true, limit)
    ensures Starting(cfg, m', i + 1, false, limit)
    decreases StartRank(m.streams[i].own.cpc)
  {
    FirstStartStep(cfg, m.streams[i]);
    hide FrugallyReached, Offset, Stream.Consume, Stream.CanConsume, FirstStart, JustStarted, StartRank;
    m' := Reach(cfg, m, Consume, limit);
    if !m'.streams[i].own.cpc.CIdle? { m' := FinishStart(cfg, m', i, limit); }
  }

  lemma {:induction false} StartAll(cfg: Config, m: State, i: nat, limit: nat) returns (m': State)
    requires cfg.Lawful() && i <= cfg.threads && Starting(cfg, m, i, false, limit)
    ensures Starting(cfg, m', cfg.threads, false, limit)
    decreases cfg.threads - i
  {
    m' := m;
    if i < cfg.threads {
      hide Starting;
      m' := BeginStart(cfg, m', i, limit);
      m' := FinishStart(cfg, m', i, limit);
      m' := StartAll(cfg, m', i + 1, limit);
    }
  }

  /** The aggregator has been activated at offset 0 and the consumer is between its calls. */
  ghost predicate Between(cfg: Config, m: State, limit: nat)
    requires cfg.Lawful()
  {
    && FrugallyReached(cfg, m, limit) && |m.streams| == cfg.threads
    && m.call.Idle? && m.isActive && m.current < cfg.threads
  }

  lemma Activated(cfg: Config, limit: nat) returns (m: State)
    requires cfg.Lawful()
    ensures Between(cfg, m, limit) && m.held == [] && m.current == 0
    ensures forall j :: 0 <= j < cfg.threads ==> JustStarted(m.streams[j])
  {
    m := Init(cfg);
    assert FrugalRun(cfg, m, [], m, limit);
    SmallMod(0, cfg.threads);
    m := Reach(cfg, m, CallActivate(0), limit);
    m := StartAll(cfg, m, 0, limit);
    hide FrugallyReached, JustStarted, Offset;
    m := Reach(cfg, m, Consume, limit);
  }

  // ---- One worker at a time ----

  /** One step of the worker of stream i. */
  lemma WorkAt(cfg: Config, m: State, i: nat, limit: nat) returns (m': State)
    requires cfg.Lawful() && FrugallyReached(cfg, m, limit) && i < |m.streams|
    requires m.call.Idle? || (m.current == i && m.call.Fetching?)
    requires Stream.CanStep(m.streams[i], m.streams[i].worker.pc, false)
    ensures FrugallyReached(cfg, m', limit) && |m'.streams| == cfg.threads
    ensures m' == Put(m, i, Stream.Work(cfg, i, m.streams[i]))
  {
    ReachedFacts(cfg, m, limit);
    hide FrugallyReached, Stream.Work;
    m' := Reach(cfg, m, Work(i, Stream.AWork(false)), limit);
  }

  /** The worker goes from its check to the point where it has sent a chunk, and has not counted
      it yet. */
  lemma SendOne(cfg: Config, m: State, i: nat, limit: nat) returns (m': State)
    requires cfg.Lawful() && Between(cfg, m, limit) && i < cfg.threads
    requires var s := m.streams[i];
      s.worker.pc.WCheck? && s.worker.cur < cfg.maxThres && !s.sync.abort && s.own == IN_USE
    ensures Between(cfg, m', limit) && m' == Put(m, i, m'.streams[i])
    ensures var s, s' := m.streams[i], m'.streams[i];
      && s'.worker.pc.WAdd? && |s'.queue| == |s.queue| + 1
      && s'.sync == s.sync && s'.own == s.own && s'.older == s.older
      && (s.cache == [] ==> s'.cache == [] && s'.hist.allocs == s.hist.allocs + 1)
  {
    hide FrugallyReached, Config.Finish, Config.ChunkSize, Resize;
    m' := WorkAt(cfg, m, i, limit);
    m' := WorkAt(cfg, m', i, limit);
    m' := WorkAt(cfg, m', i, limit);
    m' := WorkAt(cfg, m', i, limit);
  }

  // ---- The consumer fills its hands, up to one chunk ----

  /** Everything that the worker has sent has been received and counted. */
  predicate Drained(s: Stream.State) {
    && s.worker.pc.WCheck? && s.worker.cur == 0 && s.queue == [] && s.older != []
    && s.sync == Stream.INIT.sync && s.own == IN_USE
  }

  /** The consumer has kept the chunks whose buffers go back to stream 0, and no others. So stream
      0 has allocated a buffer for every chunk it has delivered. */
  ghost predicate Kept(cfg: Config, m: State, limit: nat)
    requires cfg.Lawful()
  {
    && Between(cfg, m, limit)
    && (forall j :: 0 <= j < cfg.threads ==> Drained(m.streams[j]))
    && (forall h :: 0 <= h < |m.held| ==> m.held[h].threadId == 0)
    && m.streams[0].cache == [] && m.streams[0].hist.allocs == |m.held| + if m.current > 0 then 1 else 0
  }

  /** The workers from i on have not begun. */
  ghost predicate Seeking(cfg: Config, m: State, i: nat, limit: nat)
    requires cfg.Lawful()
  {
    && Between(cfg, m, limit) && m.held == [] && m.current == 0
    && (forall j :: 0 <= j < cfg.threads ==> if j < i then Drained(m.streams[j]) else JustStarted(m.streams[j]))
    && m.streams[0].cache == [] && m.streams[0].hist.allocs == 0
  }

  lemma {:induction false} SeekAll(cfg: Config, m: State, i: nat, limit: nat) returns (m': State)
    requires cfg.Lawful() && i <= cfg.threads && Seeking(cfg, m, i, limit)
    ensures Kept(cfg, m', limit) && m'.held == [] && m'.current == 0
    decreases cfg.threads - i
  {
    m' := m;
    if i < cfg.threads {
      hide FrugallyReached;
      m' := WorkAt(cfg, m', i, limit);
      m' := WorkAt(cfg, m', i, limit);
      m' := SeekAll(cfg, m', i + 1, limit);
    }
  }

  /** The consumer takes the one chunk there is, before the worker has counted it. */
  lemma Fetch(cfg: Config, m: State, limit: nat) returns (m': State)
    requires cfg.Lawful() && Between(cfg, m, limit) && |m.held| < limit
    requires var s := m.streams[m.current];
      s.worker.pc.WAdd? && |s.queue| == 1 && s.sync == Stream.INIT.sync && s.own == IN_USE
    ensures var s, next := m.streams[m.current], Succ(m.current, cfg.threads);
      && m'.held == m.held + [Held(s.queue[0], next)] && m'.current == next
      && m'.streams == m.streams[m.current := s.(queue := [], sync := s.sync.(level := -1),
                                                 hist := s.hist.(got := s.hist.got + 1))]
    ensures Between(cfg, m', limit)
  {
    hide FrugallyReached;
    m' := Reach(cfg, m, CallGet, limit);
    m' := Reach(cfg, m', Consume, limit);
    m' := Reach(cfg, m', Consume, limit);
    m' := Reach(cfg, m', Consume, limit);
    m' := Reach(cfg, m', Consume, limit);
    SuccIs(m.current, cfg.threads);
    m' := Reach(cfg, m', Consume, limit);
  }

  /** The stream in turn delivers a chunk, which the consumer keeps if its buffer goes to stream 0. */
  lemma Deliver(cfg: Config, m: State, limit: nat) returns (m': State)
    requires cfg.Lawful() && Kept(cfg, m, limit) && |m.held| < limit
    ensures Kept(cfg, m', limit) && m'.current == Succ(m.current, cfg.threads)
    ensures |m'.held| == |m.held| + if m'.current == 0 then 1 else 0
  {
    hide FrugallyReached;
    m' := SendOne(cfg, m, m.current, limit);
    m' := Fetch(cfg, m', limit);
    m' := WorkAt(cfg, m', m.current, limit);
    if m'.current != 0 { m' := Reach(cfg, m', Drop(|m.held|), limit); }
  }

  lemma {:induction false} Hoard(cfg: Config, m: State, limit: nat) returns (m': State)
    requires cfg.Lawful() && Kept(cfg, m, limit) && |m.held| < limit
    requires |m.held| == limit - 1 ==> m.current == 0
    ensures Kept(cfg, m', limit) && |m'.held| == limit - 1 && m'.current == 0
    decreases limit - |m.held|, cfg.threads - m.current
  {
    m' := m;
    if |m.held| < limit - 1 {
      m' := Deliver(cfg, m, limit);
      m' := Hoard(cfg, m', limit);
    }
  }

  // ---- The worker of stream 0 runs ahead ----

  /** The worker has sent k chunks more, and has not counted the last of them yet. */
  predicate SentChunks(s: Stream.State, k: nat, kept: nat) {
    && s.worker.pc.WAdd? && |s.queue| == k && s.cache == [] && s.hist.allocs == kept + k
    && s.sync == Stream.INIT.sync.(level := k - 1) && s.own == IN_USE
  }

  lemma {:induction false} SendAll(cfg: Config, m: State, k: nat, limit: nat) returns (m': State)
    requires cfg.Lawful() && Between(cfg, m, limit) && k <= cfg.maxThres
    requires SentChunks(m.streams[0], k, |m.held|)
    ensures Between(cfg, m', limit) && m' == Put(m, 0, m'.streams[0])
    ensures SentChunks(m'.streams[0], cfg.maxThres, |m.held|)
    decreases cfg.maxThres - k
  {
    m' := m;
    if k < cfg.maxThres {
      hide FrugallyReached;
      m' := WorkAt(cfg, m', 0, limit);
      m' := SendOne(cfg, m', 0, limit);
      m' := SendAll(cfg, m', k + 1, limit);
    }
  }

  /** The consumer has taken one chunk and discounted it, before the worker counted its last one.
      It carries the chunk. */
  lemma TakeOne(cfg: Config, m: State, limit: nat) returns (m': State)
    requires cfg.Lawful() && Between(cfg, m, limit) && m.current == 0 && |m.held| < limit
    requires SentChunks(m.streams[0], cfg.maxThres, |m.held|)
    ensures FrugallyReached(cfg, m', limit) && |m'.streams| == cfg.threads && m'.call.Fetching? && m'.current == 0
    ensures var s := m'.streams[0];
      && s.worker.pc.WAdd? && s.sync.level == cfg.maxThres - 2 && !s.sync.abort
      && s.cache == [] && s.hist.allocs == cfg.maxThres + |m.held|
  {
    hide FrugallyReached;
    m' := Reach(cfg, m, CallGet, limit);
    m' := Reach(cfg, m', Consume, limit);
    m' := Reach(cfg, m', Consume, limit);
  }

  /** The worker counts that chunk, sees room and pulls a buffer for the next. */
  lemma PullOne(cfg: Config, m: State, limit: nat) returns (m': State)
    requires cfg.Lawful() && FrugallyReached(cfg, m, limit) && |m.streams| == cfg.threads
    requires m.call.Fetching? && m.current == 0
    requires var s := m.streams[0];
      s.worker.pc.WAdd? && s.sync.level == cfg.maxThres - 2 && !s.sync.abort && s.cache == []
    ensures FrugallyReached(cfg, m', limit) && m'.streams[0].hist.allocs == m.streams[0].hist.allocs + 1
  {
    hide FrugallyReached, Config.ChunkSize, Resize;
    m' := WorkAt(cfg, m, 0, limit);
    m' := WorkAt(cfg, m', 0, limit);
    m' := WorkAt(cfg, m', 0, limit);
  }

  /** For every configuration and every limit, the bound of Allocation.BoundedAllocation is reached. */
  lemma BoundIsReached(cfg: Config, limit: nat) returns (m: State)
    requires cfg.Lawful()
    ensures FrugallyReached(cfg, m, limit) && m.streams[0].hist.allocs == cfg.maxThres + limit
  {
    hide FrugallyReached;
    m := Activated(cfg, limit);
    m := SeekAll(cfg, m, 0, limit);
    if limit > 0 { m := Hoard(cfg, m, limit); }
    m := SendOne(cfg, m, 0, limit);
    m := SendAll(cfg, m, 1, limit);
    if limit > 0 {
      m := TakeOne(cfg, m, limit);
      m := PullOne(cfg, m, limit);
    }
  }
}
