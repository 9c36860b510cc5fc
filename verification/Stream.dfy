/** One generator stream: the worker thread, the consumer thread and the state they share,
    as a step relation over program counters. An access to an atomic, the channel, the mutex or
    the condition variable is a step of its own, and steps of the two threads interleave freely.
    Accesses are merged only where no other thread can tell: under the mutex (WTest, CClear),
    with the release of the mutex that follows (WReload), and while no worker is alive (CStart). */
module Stream {
  import opened Bytes
  import opened Generator

  /** Where a worker thread is. */
  datatype WorkerPc =
    | WInit    // about to construct and seek the generator
    | WLoad    // about to load `level` for the first time
    | WCheck   // about to load `abort`
    | WPull    // about to pull a buffer from the recycling cache
    | WGen     // about to fill the buffer
    | WSend    // about to send the chunk
    | WAdd     // about to increment `level`
    | WLock    // about to lock the sleep mutex
    | WSet     // about to set `sleeping`, mutex held
    | WTest    // about to test `sleeping`, mutex held
    | WWait    // blocked in the condition variable, mutex released
    | WReload  // about to reload `level` and release the mutex
    | WExit    // returned
    | WPanic   // panicked: the channel's receiver was gone

  datatype Worker = Worker(pc: WorkerPc, offset: nat, counter: nat, cur: int, buf: seq<byte>)

  datatype Holder = Free | ByWorker | ByConsumer

  /** What get_chunk returns. */
  datatype Reply = Got(chunk: seq<byte>) | Empty | Failed

  /** What a `stop` is part of. */
  datatype After = Restart(offset: nat) | Discard

  /** Why the consumer wakes the worker. */
  datatype Why = ForGet(reply: Reply) | ForStop(after: After)

  /** Where the consumer thread is within a call on this stream. */
  datatype ConsumerPc =
    | CIdle
    | CRecv                   // about to try_recv
    | CSub(chunk: seq<byte>)  // about to decrement `level`
    | CWake(why: Why)         // about to lock the sleep mutex
    | CClear(why: Why)        // about to test and clear `sleeping`, mutex held
    | CReturn(reply: Reply)   // about to return from get_chunk
    | CAbort(after: After)    // about to store abort = true
    | CJoin(after: After)     // about to join the worker
    | CUnabort(after: After)  // about to store abort = false
    | CStart(offset: nat)     // about to spawn the next worker
    | CDropped                // the stream is gone

  /** What worker and consumer share: the atomics, the mutex-protected flag and its condition
      variable. One set serves every thread that the stream ever spawns. */
  datatype Sync = Sync(abort: bool, error: bool, level: int, sleeping: bool, signalled: bool, mutex: Holder)

  /** The consumer's own fields: is a receiver stored, is the stream active, is a join handle
      stored, where is the consumer. */
  datatype Owner = Owner(hasRx: bool, isActive: bool, joinable: bool, cpc: ConsumerPc)

  /** What happened since the last start: first base block, chunks received, buffers that the
      worker newly allocated, buffers pushed to the cache. */
  datatype History = History(origin: nat, got: nat, allocs: nat, pushed: nat)

  datatype State = State(
    sync: Sync,
    queue: seq<seq<byte>>,  // the channel of the current receiver
    cache: seq<seq<byte>>,  // the recycling channel of the current consumer id
    worker: Worker,         // the newest thread; before the first start, one that has returned
    older: seq<Worker>,     // every thread spawned before it
    own: Owner,
    hist: History)

  const INIT: State :=
    State(Sync(false, false, 0, false, false, Free), [], [], Worker(WExit, 0, 0, 0, []), [],
          Owner(false, false, false, CIdle), History(0, 0, 0, 0))

  // ---- Steps of a worker thread ----

  /** Lines 128 to 135: the worker goes to sleep and comes back. */
  predicate Sleepy(pc: WorkerPc) {
    match pc
    case WLock => true
    case WSet => true
    case WTest => true
    case WWait => true
    case WReload => true
    case _ => false
  }

  predicate CanStep(s: State, pc: WorkerPc, spurious: bool) {
    match pc
    case WLock => s.sync.mutex.Free?
    case WWait => s.sync.mutex.Free? && (s.sync.signalled || spurious)
    case WExit => false
    case WPanic => false
    case _ => true
  }

  /** Seek the generator, check for abort, make a chunk, send it, count it. Only the newest
      thread holds a sender whose receiver still exists. */
  function Make(cfg: Config, t: nat, s: State, w: Worker, newest: bool): (State, Worker)
    requires cfg.baseSize > 0
  {
    match w.pc
    case WInit =>
      if w.offset % cfg.baseSize != 0 then (s.(sync := s.sync.(error := true)), w.(pc := WExit))
      else (s, w.(pc := WLoad, counter := w.offset / cfg.baseSize))
    case WLoad => (s, w.(pc := WCheck, cur := s.sync.level))
    case WCheck =>
      (s, w.(pc := if s.sync.abort then WExit else if w.cur < cfg.maxThres then WPull else WLock))
    case WPull =>
      if s.cache == [] then
        (s.(hist := s.hist.(allocs := s.hist.allocs + 1)), w.(pc := WGen, buf := Resize([], cfg.ChunkSize())))
      else
        (s.(cache := s.cache[1..]), w.(pc := WGen, buf := Resize(s.cache[0], cfg.ChunkSize())))
    case WGen =>
      (s, w.(pc := WSend, buf := cfg.Finish(cfg.next(t, w.counter, w.buf)), counter := w.counter + cfg.factor))
    case WSend =>
      if newest && s.own.hasRx then (s.(queue := s.queue + [w.buf]), w.(pc := WAdd))
      else (s, w.(pc := WPanic))
    case WAdd =>
      (s.(sync := s.sync.(level := s.sync.level + 1)), w.(pc := WCheck, cur := s.sync.level + 1))
    case _ => (s, w)
  }

  /** Lock the mutex, set `sleeping`, wait until it is false again, reload the level. */
  function Nap(y: Sync, w: Worker): (Sync, Worker) {
    match w.pc
    case WLock => (y.(mutex := ByWorker), w.(pc := WSet))
    case WSet => (y.(sleeping := true), w.(pc := WTest))
    case WTest =>
      if y.sleeping then (y.(mutex := Free, signalled := false), w.(pc := WWait))
      else (y, w.(pc := WReload))
    case WWait => (y.(mutex := ByWorker, signalled := false), w.(pc := WTest))
    case WReload => (y.(mutex := Free), w.(pc := WCheck, cur := y.level))
    case _ => (y, w)
  }

  function Step(cfg: Config, t: nat, s: State, w: Worker, newest: bool): (State, Worker)
    requires cfg.baseSize > 0
  {
    if Sleepy(w.pc) then
      var (y', w') := Nap(s.sync, w);
      (s.(sync := y'), w')
    else
      Make(cfg, t, s, w, newest)
  }

  /** One step of the newest thread. It never touches what belongs to the consumer. */
  function Work(cfg: Config, t: nat, s: State): (r: State)
    requires cfg.baseSize > 0
    ensures r.older == s.older && r.own == s.own && r.sync.abort == s.sync.abort
    ensures r.hist == s.hist.(allocs := r.hist.allocs) && r.hist.allocs <= s.hist.allocs + 1
  {
    var (s', w') := Step(cfg, t, s, s.worker, true);
    s'.(worker := w')
  }

  function WorkOlder(cfg: Config, t: nat, s: State, k: nat): (r: State)
    requires cfg.baseSize > 0
    requires k < |s.older|
    ensures r.own == s.own && r.hist == s.hist.(allocs := r.hist.allocs)
  {
    var (s', w') := Step(cfg, t, s, s.older[k], false);
    s'.(older := s.older[k := w'])
  }

  // ---- Steps of the consumer ----

  /** The consumer is inside get_chunk, wake_thread apart. */
  predicate Receiving(c: ConsumerPc) {
    c.CRecv? || c.CSub? || c.CReturn?
  }

  /** The consumer is inside wake_thread. */
  predicate Waking(c: ConsumerPc) {
    c.CWake? || c.CClear?
  }

  predicate CanConsume(s: State) {
    match s.own.cpc
    case CIdle => false
    case CWake(_) => s.sync.mutex.Free?
    case CJoin(_) => s.own.joinable ==> s.worker.pc.WExit? || s.worker.pc.WPanic?
    case CDropped => false
    case _ => true
  }

  function At(s: State, c: ConsumerPc): State {
    s.(own := s.own.(cpc := c))
  }

  /** get_chunk: receive, count, return. */
  function Receive(cfg: Config, s: State): State {
    match s.own.cpc
    case CRecv =>
      if s.queue == [] then At(s, CWake(ForGet(Empty)))
      else At(s, CSub(s.queue[0])).(queue := s.queue[1..], hist := s.hist.(got := s.hist.got + 1))
    case CSub(chunk) =>
      var level := s.sync.level - 1;
      At(s, if level <= cfg.loThres then CWake(ForGet(Got(chunk))) else CReturn(Got(chunk)))
        .(sync := s.sync.(level := level))
    case CReturn(_) => At(s, CIdle)
    case _ => s
  }

  /** wake_thread: under the mutex, clear `sleeping` and notify if it was set. */
  function Wake(s: State): State {
    match s.own.cpc
    case CWake(why) => At(s, CClear(why)).(sync := s.sync.(mutex := ByConsumer))
    case CClear(why) =>
      var notified := s.sync.signalled || (s.sync.sleeping && s.worker.pc.WWait?);
      At(s, match why case ForGet(reply) => CReturn(reply) case ForStop(after) => CJoin(after))
        .(sync := s.sync.(sleeping := false, signalled := notified, mutex := Free))
    case _ => s
  }

  /** stop, wake_thread apart, and what follows it: start or the drop of the fields. */
  function StopStart(cfg: Config, s: State): State
    requires cfg.baseSize > 0
  {
    match s.own.cpc
    case CAbort(after) => At(s, CWake(ForStop(after))).(sync := s.sync.(abort := true))
    case CJoin(after) => s.(own := s.own.(joinable := false, cpc := CUnabort(after)))
    case CUnabort(after) =>
      s.(sync := s.sync.(abort := false),
         own := match after
                case Restart(offset) => s.own.(cpc := CStart(offset))
                case Discard => s.own.(hasRx := false, cpc := CDropped))
    case CStart(offset) =>
      State(s.sync.(abort := false, error := false, level := 0), [], [],
            Worker(WInit, offset, 0, 0, []), s.older + [s.worker],
            Owner(true, true, true, CIdle), History(offset / cfg.baseSize, 0, 0, 0))
    case _ => s
  }

  function Consume(cfg: Config, s: State): State
    requires cfg.baseSize > 0
  {
    if Receiving(s.own.cpc) then Receive(cfg, s) else if Waking(s.own.cpc) then Wake(s) else StopStart(cfg, s)
  }

  /** Entry of get_chunk: the checks before try_recv. */
  function CallGet(s: State): State {
    At(s, if !s.own.isActive || s.sync.error || !s.own.hasRx then CReturn(Failed) else CRecv)
  }

  /** Entry of stop, as the first part of activate or of drop. */
  function CallStop(s: State, after: After): State {
    s.(own := s.own.(isActive := false, cpc := CAbort(after)))
  }

  /** A buffer is pushed to the recycling cache of this stream. The channel is gone once its
      worker has returned. */
  function Push(s: State, buf: seq<byte>): State {
    s.(hist := s.hist.(pushed := s.hist.pushed + 1),
       cache := if s.worker.pc.WExit? || s.worker.pc.WPanic? then s.cache else s.cache + [buf])
  }

  datatype Action =
    | AWork(spurious: bool)
    | AWorkOlder(k: nat, spurious: bool)
    | AConsume
    | AGet
    | AStop(after: After)
    | APush(buf: seq<byte>)

  predicate Enabled(s: State, a: Action) {
    match a
    case AWork(spurious) => CanStep(s, s.worker.pc, spurious)
    case AWorkOlder(k, spurious) => k < |s.older| && CanStep(s, s.older[k].pc, spurious)
    case AConsume => CanConsume(s)
    case AGet => s.own.cpc.CIdle?
    case AStop(_) => s.own.cpc.CIdle?
    case APush(_) => s.own.cpc.CIdle? && s.older != []
  }

  function Apply(cfg: Config, t: nat, s: State, a: Action): State
    requires cfg.baseSize > 0
    requires Enabled(s, a)
  {
    match a
    case AWork(_) => Work(cfg, t, s)
    case AWorkOlder(k, _) => WorkOlder(cfg, t, s, k)
    case AConsume => Consume(cfg, s)
    case AGet => CallGet(s)
    case AStop(after) => CallStop(s, after)
    case APush(buf) => Push(s, buf)
  }

  /** `s'` is reached from `s` by the actions `run`, each enabled when it is taken. */
  ghost predicate Run(cfg: Config, t: nat, s: State, run: seq<Action>, s': State)
    requires cfg.baseSize > 0
    decreases |run|
  {
    if run == [] then s' == s
    else Enabled(s, run[0]) && Run(cfg, t, Apply(cfg, t, s, run[0]), run[1..], s')
  }

  lemma {:induction false} RunAppend(cfg: Config, t: nat, s: State, run: seq<Action>, s': State,
                                     more: seq<Action>, s'': State)
    requires cfg.baseSize > 0
    requires Run(cfg, t, s, run, s') && Run(cfg, t, s', more, s'')
    ensures Run(cfg, t, s, run + more, s'')
    decreases |run|
  {
    hide Enabled, Apply;
    if run == [] {
      assert run + more == more;
    } else {
      RunAppend(cfg, t, Apply(cfg, t, s, run[0]), run[1..], s', more, s'');
      assert (run + more)[0] == run[0] && (run + more)[1..] == run[1..] + more;
    }
  }
}
