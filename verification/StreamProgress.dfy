/** Liveness of a stream: a polled worker delivers, and when `stop` can join it. */
module StreamProgress {
  import opened Generator
  import opened Stream
  import opened StreamInvariant

  // ---- No error, as long as the offsets are aligned ----

  /** The generator can be seeked to every offset that is passed to the stream. */
  predicate Aligned(cfg: Config, a: Action)
    requires cfg.baseSize > 0
  {
    a.AStop? && a.after.Restart? ==> a.after.offset % cfg.baseSize == 0
  }

  ghost predicate SeekInv(cfg: Config, s: State)
    requires cfg.baseSize > 0
  {
    && !s.sync.error
    && (s.worker.pc.WInit? ==> s.worker.offset % cfg.baseSize == 0)
    && match s.own.cpc
       case CStart(offset) => offset % cfg.baseSize == 0
       case CAbort(Restart(offset)) => offset % cfg.baseSize == 0
       case CWake(ForStop(Restart(offset))) => offset % cfg.baseSize == 0
       case CClear(ForStop(Restart(offset))) => offset % cfg.baseSize == 0
       case CJoin(Restart(offset)) => offset % cfg.baseSize == 0
       case CUnabort(Restart(offset)) => offset % cfg.baseSize == 0
       case _ => true
  }

  lemma SeekWork(cfg: Config, t: nat, s: State, spurious: bool)
    requires cfg.Lawful() && SeekInv(cfg, s) && CanStep(s, s.worker.pc, spurious)
    ensures SeekInv(cfg, Work(cfg, t, s))
  {
    hide Config.Finish, Config.ChunkSize, Resize;
  }

  lemma SeekStep(cfg: Config, t: nat, s: State, a: Action)
    requires cfg.Lawful() && LifeInv(s) && SeekInv(cfg, s) && Enabled(s, a) && Aligned(cfg, a)
    ensures SeekInv(cfg, Apply(cfg, t, s, a))
  {
    hide Config.Finish, Config.ChunkSize, Resize;
    match a
    case AWork(spurious) => hide SeekInv; SeekWork(cfg, t, s, spurious);
    case _ =>
  }

  lemma {:induction false} RunSeekInv(cfg: Config, t: nat, s: State, run: seq<Action>, s': State)
    requires cfg.Lawful() && LifeInv(s) && SeekInv(cfg, s) && Run(cfg, t, s, run, s')
    requires forall a :: a in run ==> Aligned(cfg, a)
    ensures SeekInv(cfg, s')
    decreases |run|
  {
    if run != [] {
      var a := run[0];
      assert a in run;
      LifeStep(cfg, t, s, a);
      SeekStep(cfg, t, s, a);
      hide LifeInv, SeekInv, Enabled, Apply, Aligned;
      RunSeekInv(cfg, t, Apply(cfg, t, s, a), run[1..], s');
    }
  }

  /** If every offset that is ever handed to a stream is a multiple of the base size, no worker
      ever reports an error, and get_chunk fails only while the stream is not active. */
  lemma AlignedNeverFails(cfg: Config, t: nat, run: seq<Action>, s: State)
    requires cfg.Lawful() && Run(cfg, t, INIT, run, s) && forall a :: a in run ==> Aligned(cfg, a)
    ensures !s.sync.error
    ensures s.own.cpc == CReturn(Failed) ==> !s.own.isActive
  {
    InitInv(cfg, t);
    RunInv(cfg, t, INIT, run, s);
    RunSeekInv(cfg, t, INIT, run, s);
    hide Run, SleepInv, LevelInv, DataInv, BufferInv;
  }

  /** The newest worker was started at an offset that its generator refuses. */
  ghost predicate Misaligned(cfg: Config, s: State)
    requires cfg.baseSize > 0
  {
    && s.queue == [] && !Carried(s).Got?
    && (s.worker.pc.WExit? || (s.worker.pc.WInit? && s.worker.offset % cfg.baseSize != 0))
  }

  lemma MisalignedStep(cfg: Config, t: nat, s: State, a: Action)
    requires cfg.Lawful() && LifeInv(s) && Misaligned(cfg, s) && Enabled(s, a) && !a.AStop?
    requires s.own.isActive
    ensures Misaligned(cfg, Apply(cfg, t, s, a))
  {
    hide Config.Finish, Config.ChunkSize, Resize;
  }

  /** Until it is stopped, a stream that was started at such an offset delivers nothing. */
  lemma {:induction false} MisalignedDeliversNothing(cfg: Config, t: nat, s: State, run: seq<Action>, s': State)
    requires cfg.Lawful() && LifeInv(s) && Misaligned(cfg, s) && s.own.isActive
    requires Run(cfg, t, s, run, s') && forall a :: a in run ==> !a.AStop?
    ensures Misaligned(cfg, s') && s'.own.isActive && (s'.worker.pc.WExit? ==> s'.sync.error)
    ensures s'.worker.pc.WExit? ==> CallGet(s').own.cpc == CReturn(Failed)
    decreases |run|
  {
    if run != [] {
      var a := run[0];
      assert a in run;
      LifeStep(cfg, t, s, a);
      MisalignedStep(cfg, t, s, a);
      ActiveStep(cfg, t, s, a);
      MisalignedDeliversNothing(cfg, t, Apply(cfg, t, s, a), run[1..], s');
    }
  }

  lemma ActiveStep(cfg: Config, t: nat, s: State, a: Action)
    requires cfg.Lawful() && LifeInv(s) && s.own.isActive && Enabled(s, a) && !a.AStop?
    ensures Apply(cfg, t, s, a).own.isActive
  {
    hide Config.Finish, Config.ChunkSize, Resize;
  }

  /** The error flag says whether the newest worker has returned because its generator refused the
      offset. */
  ghost predicate ErrorInv(cfg: Config, s: State)
    requires cfg.baseSize > 0
  {
    && (s.sync.error <==> s.worker.pc.WExit? && s.worker.offset % cfg.baseSize != 0)
    && (s.worker.pc.WInit? || s.worker.pc.WExit? || s.worker.offset % cfg.baseSize == 0)
  }

  lemma ErrorStep(cfg: Config, t: nat, s: State, a: Action)
    requires cfg.Lawful() && LifeInv(s) && ErrorInv(cfg, s) && Enabled(s, a)
    ensures ErrorInv(cfg, Apply(cfg, t, s, a))
  {
    hide Config.Finish, Config.ChunkSize, Resize;
  }

  lemma {:induction false} RunErrorInv(cfg: Config, t: nat, s: State, run: seq<Action>, s': State)
    requires cfg.Lawful() && LifeInv(s) && ErrorInv(cfg, s) && Run(cfg, t, s, run, s')
    ensures LifeInv(s') && ErrorInv(cfg, s')
    decreases |run|
  {
    if run != [] {
      LifeStep(cfg, t, s, run[0]);
      ErrorStep(cfg, t, s, run[0]);
      hide LifeInv, ErrorInv, Enabled, Apply;
      RunErrorInv(cfg, t, Apply(cfg, t, s, run[0]), run[1..], s');
    }
  }

  /** Exactly when get_chunk fails, after any run of starts, stops and drops: the stream is not
      active, or the worker of the last start has returned because its offset is not a multiple of
      the base size. An error of an earlier start does not matter. */
  lemma GetFailsIff(cfg: Config, t: nat, run: seq<Action>, s: State)
    requires cfg.Lawful() && Run(cfg, t, INIT, run, s) && s.own.cpc.CIdle?
    ensures CallGet(s).own.cpc ==
            if !s.own.isActive || (s.worker.pc.WExit? && s.worker.offset % cfg.baseSize != 0) then CReturn(Failed)
            else CRecv
  {
    InitInv(cfg, t);
    RunErrorInv(cfg, t, INIT, run, s);
    hide Run;
  }

  // ---- No lost wakeup ----

  /** The consumer is using the stream: it is idle between calls or inside get_chunk. */
  ghost predicate Polling(cfg: Config, t: nat, s: State)
    requires cfg.baseSize > 0
  {
    Inv(cfg, t, s) && SeekInv(cfg, s) && s.own.isActive
  }

  /** How many effective steps, at most, separate the worker from its next send, when the
      channel is empty and nothing is left to subtract from the level. A worker that sleeps
      cannot go on before the consumer clears `sleeping`. */
  function Distance(cfg: Config, s: State): nat {
    match s.worker.pc
    case WSend => 1
    case WGen => 2
    case WPull => 3
    case WCheck => if s.worker.cur < cfg.maxThres then 4 else 12
    case WLoad => 5
    case WAdd => 5
    case WReload => 5
    case WInit => 6
    case WTest => if s.sync.sleeping then 8 else 6
    case WWait => if s.sync.sleeping then 8 else 7
    case WSet => 10
    case WLock => 11
    case WExit => 0
    case WPanic => 0
  }

  /** The same while a received chunk still counts in the level. The worker may then find a
      level that makes it sleep once more. */
  function Detour(s: State): nat {
    match s.worker.pc
    case WLoad => 13
    case WAdd => 13
    case WReload => 13
    case WInit => 14
    case WTest => if s.sync.sleeping then 8 else 14
    case WWait => if s.sync.sleeping then 8 else 15
    case _ => 0
  }

  function Rank(cfg: Config, s: State): nat {
    if s.own.cpc.CSub? then 16 + (if Detour(s) > 0 then Detour(s) else Distance(cfg, s)) else Distance(cfg, s)
  }

  /** Steps that bring the next send nearer: every step of the worker unless it sleeps (then
      its only steps are spurious wakeups), the consumer's decrement of the level, and the
      consumer's wakeup of a sleeping worker. */
  predicate Effective(s: State, a: Action) {
    match a
    case AWork(_) => !s.sync.sleeping || !(s.worker.pc.WTest? || s.worker.pc.WWait?)
    case AConsume => s.own.cpc.CSub? || (s.own.cpc.CClear? && s.sync.sleeping)
    case _ => false
  }

  lemma RankWork(cfg: Config, t: nat, s: State, spurious: bool)
    requires cfg.Lawful() && Polling(cfg, t, s) && s.queue == [] && CanStep(s, s.worker.pc, spurious)
    ensures var s' := Work(cfg, t, s);
      s'.queue != [] || Rank(cfg, s') + (if Effective(s, AWork(spurious)) then 1 else 0) <= Rank(cfg, s)
  {
  }

  lemma RankOther(cfg: Config, t: nat, s: State, a: Action)
    requires cfg.Lawful() && Polling(cfg, t, s) && s.queue == [] && Enabled(s, a) && !a.AStop? && !a.AWork?
    ensures var s' := Apply(cfg, t, s, a);
      s'.queue == [] && Rank(cfg, s') + (if Effective(s, a) then 1 else 0) <= Rank(cfg, s)
  {
  }

  /** Between calls, the worker can take a step of its own accord unless it sleeps. */
  lemma NeverStuck(cfg: Config, t: nat, s: State)
    requires cfg.Lawful() && Polling(cfg, t, s) && s.own.cpc.CIdle?
    ensures CanStep(s, s.worker.pc, false) || (s.sync.sleeping && s.worker.pc.WWait?)
  {
  }

  /** The consumer keeps polling and no chunk is ever sent during the run. */
  ghost predicate Starved(cfg: Config, t: nat, s: State, run: seq<Action>)
    requires cfg.baseSize > 0
    decreases |run|
  {
    s.queue == [] &&
    (run != [] ==>
      Enabled(s, run[0]) && !run[0].AStop? && Starved(cfg, t, Apply(cfg, t, s, run[0]), run[1..]))
  }

  function EffectiveSteps(cfg: Config, t: nat, s: State, run: seq<Action>): nat
    requires cfg.baseSize > 0
    decreases |run|
  {
    if run == [] || !Enabled(s, run[0]) then 0
    else (if Effective(s, run[0]) then 1 else 0) + EffectiveSteps(cfg, t, Apply(cfg, t, s, run[0]), run[1..])
  }

  lemma PollingStep(cfg: Config, t: nat, s: State, a: Action)
    requires cfg.Lawful() && Polling(cfg, t, s) && Enabled(s, a) && !a.AStop?
    ensures Polling(cfg, t, Apply(cfg, t, s, a))
  {
    InvStep(cfg, t, s, a);
    SeekStep(cfg, t, s, a);
    hide SeekInv, SleepInv, LevelInv, DataInv, BufferInv;
  }

  lemma RankBounds(cfg: Config, t: nat, s: State)
    requires cfg.Lawful() && Polling(cfg, t, s)
    ensures 0 < Rank(cfg, s) <= 31
  {
    hide SleepInv, LevelInv, DataInv, BufferInv;
  }

  /** No lost wakeup: from any reachable state in which the consumer polls, at most 30 effective
      steps can be taken before a chunk is sent, whatever else is interleaved with them. */
  lemma {:induction false} NoStarvation(cfg: Config, t: nat, s: State, run: seq<Action>)
    requires cfg.Lawful() && Polling(cfg, t, s) && Starved(cfg, t, s, run)
    ensures EffectiveSteps(cfg, t, s, run) < Rank(cfg, s) <= 31
    decreases |run|
  {
    hide Polling, Rank, Effective, CanConsume, CanStep, Consume, Work;
    RankBounds(cfg, t, s);
    if run != [] {
      var a := run[0];
      PollingStep(cfg, t, s, a);
      match a {
        case AWork(spurious) => RankWork(cfg, t, s, spurious);
        case _ => RankOther(cfg, t, s, a);
      }
      NoStarvation(cfg, t, Apply(cfg, t, s, a), run[1..]);
    }
  }

  // ---- The low watermark ----

  /** A run from inside get_chunk up to its return. */
  ghost predicate GetRun(cfg: Config, t: nat, s: State, run: seq<Action>, s': State)
    requires cfg.baseSize > 0
    decreases |run|
  {
    if s.own.cpc.CReturn? then run == [] && s' == s
    else run != [] && Enabled(s, run[0]) && GetRun(cfg, t, Apply(cfg, t, s, run[0]), run[1..], s')
  }

  /** get_chunk has received a chunk while the worker sleeps; `low` says whether the level after
      it is at or below the low watermark. */
  ghost predicate AsleepInGet(cfg: Config, s: State, low: bool) {
    && s.sync.sleeping
    && match s.own.cpc
       case CSub(_) => low == (s.sync.level - 1 <= cfg.loThres)
       case CWake(why) => why.ForGet? && low
       case CClear(why) => why.ForGet? && low
       case _ => false
  }

  lemma AsleepStep(cfg: Config, t: nat, s: State, low: bool, a: Action)
    requires cfg.Lawful() && LifeInv(s) && SleepInv(s) && AsleepInGet(cfg, s, low) && Enabled(s, a)
    ensures var s' := Apply(cfg, t, s, a);
      if s'.own.cpc.CReturn? then s'.sync.sleeping == !low else AsleepInGet(cfg, s', low)
  {
  }

  /** Hysteresis: when get_chunk returns a chunk, a worker that was asleep when the chunk was
      received is awake if and only if the level is at or below the low watermark. */
  lemma {:induction false} LowWatermark(cfg: Config, t: nat, s: State, run: seq<Action>, s': State, low: bool)
    requires cfg.Lawful() && LifeInv(s) && SleepInv(s) && AsleepInGet(cfg, s, low) && GetRun(cfg, t, s, run, s')
    ensures s'.sync.sleeping <==> !low
    decreases |run|
  {
    LifeStep(cfg, t, s, run[0]);
    SleepStep(cfg, t, s, run[0]);
    AsleepStep(cfg, t, s, low, run[0]);
    hide LifeInv, SleepInv, AsleepInGet, Enabled, Apply;
    var s1 := Apply(cfg, t, s, run[0]);
    if !s1.own.cpc.CReturn? { LowWatermark(cfg, t, s1, run[1..], s', low); }
  }

  // ---- When stop can join the worker ----

  /** `stop` waits in join and the worker will wait, or waits, for a wakeup that nobody is left
      to send. */
  predicate Doomed(s: State) {
    && s.own.cpc.CJoin?
    && s.own.joinable
    && match s.worker.pc
       case WLock => true
       case WSet => true
       case WTest => s.sync.sleeping
       case WWait => s.sync.sleeping
       case _ => false
  }

  /** How many steps, at most, the worker takes before it returns, once it is being joined and
      is not doomed. */
  function ExitRank(s: State): nat {
    match s.worker.pc
    case WExit => 0
    case WPanic => 0
    case WCheck => 1
    case WLoad => 2
    case WAdd => 2
    case WReload => 2
    case WInit => 3
    case WTest => 3
    case WSend => 3
    case WWait => 4
    case WGen => 4
    case WPull => 5
    case _ => 0
  }

  lemma DoomedStep(cfg: Config, t: nat, s: State, a: Action)
    requires cfg.Lawful() && LifeInv(s) && Doomed(s) && Enabled(s, a)
    ensures Doomed(Apply(cfg, t, s, a))
  {
  }

  lemma {:induction false} DoomedForever(cfg: Config, t: nat, s: State, run: seq<Action>, s': State)
    requires cfg.Lawful() && LifeInv(s) && Doomed(s) && Run(cfg, t, s, run, s')
    ensures Doomed(s')
    decreases |run|
  {
    if run != [] {
      LifeStep(cfg, t, s, run[0]);
      DoomedStep(cfg, t, s, run[0]);
      DoomedForever(cfg, t, Apply(cfg, t, s, run[0]), run[1..], s');
    }
  }

  /** While the consumer waits in join, a worker that is not doomed can always take a step, and
      every step brings it nearer to its return. */
  lemma ExitStep(cfg: Config, t: nat, s: State, spurious: bool)
    requires cfg.Lawful() && Inv(cfg, t, s) && s.own.cpc.CJoin? && s.own.joinable && !Doomed(s)
    ensures s.worker.pc.WExit? || CanStep(s, s.worker.pc, false)
    ensures CanStep(s, s.worker.pc, spurious) ==>
      var s' := Work(cfg, t, s);
      s'.own == s.own && !Doomed(s') && ExitRank(s') < ExitRank(s)
  {
  }

  /** The worker's own steps, n of them. */
  function Solo(n: nat): (r: seq<Action>)
    ensures |r| == n
  {
    if n == 0 then [] else [AWork(false)] + Solo(n - 1)
  }

  lemma {:induction false} RunsToExit(cfg: Config, t: nat, s: State) returns (n: nat, s': State)
    requires cfg.Lawful() && Inv(cfg, t, s) && s.own.cpc.CJoin? && s.own.joinable && !Doomed(s)
    ensures n <= ExitRank(s) && Run(cfg, t, s, Solo(n), s')
    ensures s'.own == s.own && s'.worker.pc.WExit?
    decreases ExitRank(s)
  {
    if s.worker.pc.WExit? {
      n, s' := 0, s;
    } else {
      ExitStep(cfg, t, s, false);
      InvStep(cfg, t, s, AWork(false));
      n, s' := RunsToExit(cfg, t, Work(cfg, t, s));
      n := n + 1;
      assert Solo(n)[1..] == Solo(n - 1);
    }
  }

  /** Number of worker steps in a run. */
  function WorkerSteps(run: seq<Action>): nat {
    if run == [] then 0 else (if run[0].AWork? then 1 else 0) + WorkerSteps(run[1..])
  }

  /** In no run does a worker that is not doomed take more than ExitRank steps before the join
      returns; and as long as it has not returned, it can take one (ExitStep). */
  lemma {:induction false} ExitIsNear(cfg: Config, t: nat, s: State, run: seq<Action>, s': State)
    requires cfg.Lawful() && Inv(cfg, t, s) && s.own.cpc.CJoin? && s.own.joinable && !Doomed(s)
    requires Run(cfg, t, s, run, s') && s'.own == s.own && s'.own.cpc.CJoin? && (forall a :: a in run ==> !a.AConsume?)
    ensures WorkerSteps(run) + ExitRank(s') <= ExitRank(s) <= 5
    decreases |run|
  {
    if run != [] {
      var a := run[0];
      InvStep(cfg, t, s, a);
      assert a in run;
      match a
      case AWork(spurious) =>
        ExitStep(cfg, t, s, spurious);
        ExitIsNear(cfg, t, Work(cfg, t, s), run[1..], s');
      case _ =>
    }
  }

  /** Some run from here gets the consumer past the join. */
  ghost predicate JoinReturns(cfg: Config, t: nat, s: State)
    requires cfg.baseSize > 0
  {
    exists run, s' :: Run(cfg, t, s, run, s') && s'.own.cpc.CUnabort?
  }

  /** Exactly when `stop` can join the worker. `s` is any reachable state in which `stop` has
      stored abort = true and is about to clear `sleeping` under the mutex. The join can return
      if and only if the worker is not on its way to the mutex, having loaded abort = false and
      found the level too high. If it is, no run whatsoever gets past the join. */
  lemma StopJoins(cfg: Config, t: nat, s: State)
    requires cfg.Lawful() && Inv(cfg, t, s) && s.own.cpc.CClear? && s.own.cpc.why.ForStop?
    ensures JoinReturns(cfg, t, Consume(cfg, s)) <==> !s.worker.pc.WLock?
  {
    var s1 := Consume(cfg, s);
    AfterStopWake(cfg, t, s);
    hide Inv, Doomed;
    if Doomed(s1) {
      DoomedNeverJoins(cfg, t, s1);
    } else {
      OthersJoin(cfg, t, s1);
    }
  }

  lemma AfterStopWake(cfg: Config, t: nat, s: State)
    requires cfg.Lawful() && Inv(cfg, t, s) && s.own.cpc.CClear? && s.own.cpc.why.ForStop?
    ensures var s1 := Consume(cfg, s);
      Inv(cfg, t, s1) && s1.own.cpc.CJoin? && (Doomed(s1) <==> s.worker.pc.WLock?)
  {
    InvStep(cfg, t, s, AConsume);
    hide LevelInv, DataInv, BufferInv;
  }

  lemma DoomedNeverJoins(cfg: Config, t: nat, s: State)
    requires cfg.Lawful() && Inv(cfg, t, s) && Doomed(s)
    ensures !JoinReturns(cfg, t, s)
  {
    forall run, s' | Run(cfg, t, s, run, s') ensures !s'.own.cpc.CUnabort? {
      DoomedForever(cfg, t, s, run, s');
    }
  }

  lemma OthersJoin(cfg: Config, t: nat, s: State)
    requires cfg.Lawful() && Inv(cfg, t, s) && s.own.cpc.CJoin? && !Doomed(s)
    ensures JoinReturns(cfg, t, s)
  {
    var n, s' := 0, s;
    if s.own.joinable { n, s' := RunsToExit(cfg, t, s); }
    hide Inv, Doomed;
    RunOne(cfg, t, s', AConsume);
    RunAppend(cfg, t, s, Solo(n), s', [AConsume], Consume(cfg, s'));
  }

  lemma RunOne(cfg: Config, t: nat, s: State, a: Action)
    requires cfg.baseSize > 0 && Enabled(s, a)
    ensures Run(cfg, t, s, [a], Apply(cfg, t, s, a))
  {
    assert [a][1..] == [];
    assert Run(cfg, t, Apply(cfg, t, s, a), [], Apply(cfg, t, s, a));
  }

  /** While a worker holds the mutex, its own steps release it. */
  function HoldRank(s: State): nat {
    match s.worker.pc
    case WSet => 3
    case WTest => 2
    case WReload => 1
    case _ => 0
  }

  lemma HolderReleases(cfg: Config, i: nat, s: State)
    requires cfg.Lawful() && SleepInv(s) && s.sync.mutex.ByWorker?
    ensures Enabled(s, AWork(false))
    ensures HoldRank(Work(cfg, i, s)) < HoldRank(s)
  {
  }

  // ---- When stop can hang, seen from its entry ----

  /** There is no worker to join, or it has returned, or it sleeps or is about to, with the mutex
      in its hands. */
  predicate Stoppable(s: State) {
    !s.own.joinable || s.worker.pc.WExit? || s.sync.sleeping || s.worker.pc.WSet?
  }

  /** The worker will refuse its offset and return. */
  predicate Refusing(cfg: Config, s: State)
    requires cfg.baseSize > 0
  {
    s.worker.pc.WInit? && s.worker.offset % cfg.baseSize != 0
  }

  /** The consumer is inside stop and has not passed the join. */
  predicate InStop(s: State) {
    match s.own.cpc
    case CAbort(_) => true
    case CWake(why) => why.ForStop?
    case CClear(why) => why.ForStop?
    case CJoin(_) => true
    case _ => false
  }

  /** A run that lies within one `stop`, up to the join at most. */
  ghost predicate StopRun(cfg: Config, t: nat, s: State, run: seq<Action>, s': State)
    requires cfg.baseSize > 0
    decreases |run|
  {
    if run == [] then s' == s
    else InStop(s) && Enabled(s, run[0]) && StopRun(cfg, t, Apply(cfg, t, s, run[0]), run[1..], s')
  }

  /** Some schedule of this `stop` leads to a join that never returns. */
  ghost predicate MayHang(cfg: Config, t: nat, s: State)
    requires cfg.baseSize > 0
  {
    exists run, s' :: StopRun(cfg, t, s, run, s') && Doomed(s')
  }

  /** No schedule of this `stop` will hang. */
  ghost predicate Safe(cfg: Config, s: State)
    requires cfg.baseSize > 0
  {
    if s.own.cpc.CJoin? then !Doomed(s) else InStop(s) ==> Stoppable(s) || Refusing(cfg, s)
  }

  /** Whatever the workers do, a stoppable stream stays stoppable. */
  lemma StoppableStep(cfg: Config, t: nat, s: State, a: Action)
    requires cfg.Lawful() && Enabled(s, a) && (a.AWork? || a.AWorkOlder?) && LifeInv(s) && Stoppable(s)
    ensures Stoppable(Apply(cfg, t, s, a))
  {
    hide Config.Finish, Config.ChunkSize, Resize;
  }

  /** After the wakeup of a stoppable stream, the join will return. */
  lemma WakeStoppable(cfg: Config, s: State)
    requires cfg.baseSize > 0 && SleepInv(s) && Stoppable(s) && s.own.cpc.CClear? && s.own.cpc.why.ForStop?
    ensures !Doomed(Consume(cfg, s))
  {
  }

  lemma SafeWork(cfg: Config, t: nat, s: State, spurious: bool)
    requires cfg.Lawful() && Inv(cfg, t, s) && Safe(cfg, s) && InStop(s) && CanStep(s, s.worker.pc, spurious)
    ensures Safe(cfg, Work(cfg, t, s))
  {
    if s.own.cpc.CJoin? {
      if s.own.joinable { ExitStep(cfg, t, s, spurious); }
    } else if Stoppable(s) {
      StoppableStep(cfg, t, s, AWork(spurious));
    }
    hide SleepInv, LevelInv, DataInv, BufferInv, Config.Finish, Config.ChunkSize, Resize;
  }

  lemma SafeStep(cfg: Config, t: nat, s: State, a: Action)
    requires cfg.Lawful() && Inv(cfg, t, s) && Safe(cfg, s) && InStop(s) && Enabled(s, a)
    ensures Safe(cfg, Apply(cfg, t, s, a))
  {
    hide LevelInv, DataInv, BufferInv, Config.Finish, Config.ChunkSize, Resize;
    match a
    case AWork(spurious) => hide Safe; SafeWork(cfg, t, s, spurious);
    case _ =>
  }

  lemma {:induction false} SafeForever(cfg: Config, t: nat, s: State, run: seq<Action>, s': State)
    requires cfg.Lawful() && Inv(cfg, t, s) && Safe(cfg, s) && StopRun(cfg, t, s, run, s')
    ensures Safe(cfg, s')
    decreases |run|
  {
    if run != [] {
      InvStep(cfg, t, s, run[0]);
      SafeStep(cfg, t, s, run[0]);
      hide Inv, Safe, Enabled, Apply;
      SafeForever(cfg, t, Apply(cfg, t, s, run[0]), run[1..], s');
    }
  }

  /** How far a worker is from the mutex, if it sends no more chunks. */
  function LockDistance(s: State): nat {
    match s.worker.pc
    case WWait => 12
    case WTest => 11
    case WInit => 11
    case WLoad => 10
    case WAdd => 10
    case WReload => 10
    case WCheck => 9
    case WPull => 8
    case WGen => 7
    case WSend => 6
    case _ => 0
  }

  /** `stop` has been entered, and the worker is on its way and has not been told to abort. */
  predicate Running(cfg: Config, s: State)
    requires cfg.baseSize > 0
  {
    s.own.cpc.CAbort? && !Stoppable(s) && !Refusing(cfg, s)
  }

  lemma LockStep(cfg: Config, t: nat, s: State)
    requires cfg.Lawful() && Inv(cfg, t, s) && Running(cfg, s) && !s.worker.pc.WLock?
    ensures CanStep(s, s.worker.pc, false)
    ensures var s' := Work(cfg, t, s);
      && Running(cfg, s') && s'.own == s.own && |s.queue| <= |s'.queue| <= cfg.maxThres
      && (|s'.queue| == |s.queue| ==> LockDistance(s') < LockDistance(s))
  {
    hide DataInv, BufferInv, Config.Finish, Config.ChunkSize, Resize;
  }

  /** Such a worker fills the channel and goes for the mutex, if only it is scheduled. */
  lemma {:induction false} RunsToLock(cfg: Config, t: nat, s: State) returns (run: seq<Action>, s': State)
    requires cfg.Lawful() && Inv(cfg, t, s) && Running(cfg, s)
    ensures StopRun(cfg, t, s, run, s') && Inv(cfg, t, s') && Running(cfg, s') && s'.worker.pc.WLock?
    decreases cfg.maxThres - |s.queue|, LockDistance(s)
  {
    if s.worker.pc.WLock? {
      run, s' := [], s;
    } else {
      LockStep(cfg, t, s);
      InvStep(cfg, t, s, AWork(false));
      hide Inv, Stoppable, Refusing, Work;
      run, s' := RunsToLock(cfg, t, Work(cfg, t, s));
      run := [AWork(false)] + run;
    }
  }

  /** The worker waits for the mutex while `stop` stores abort, wakes nobody and joins. */
  lemma LockDooms(cfg: Config, t: nat, s: State) returns (run: seq<Action>, s': State)
    requires cfg.Lawful() && Inv(cfg, t, s) && Running(cfg, s) && s.worker.pc.WLock?
    ensures StopRun(cfg, t, s, run, s') && Doomed(s')
  {
    hide LevelInv, DataInv, BufferInv;
    run := [AConsume, AConsume, AConsume];
    var s1 := Apply(cfg, t, s, AConsume);
    var s2 := Apply(cfg, t, s1, AConsume);
    s' := Apply(cfg, t, s2, AConsume);
    assert StopRun(cfg, t, s', [], s');
    assert run[1..] == [AConsume, AConsume] && run[1..][1..] == [AConsume] && run[1..][1..][1..] == [];
    assert StopRun(cfg, t, s2, [AConsume], s');
    assert StopRun(cfg, t, s1, [AConsume, AConsume], s');
  }

  lemma {:induction false} StopRunAppend(cfg: Config, t: nat, s: State, run: seq<Action>, s': State,
                                         more: seq<Action>, s'': State)
    requires cfg.baseSize > 0
    requires StopRun(cfg, t, s, run, s') && StopRun(cfg, t, s', more, s'')
    ensures StopRun(cfg, t, s, run + more, s'')
    decreases |run|
  {
    hide Enabled, Apply, InStop;
    if run == [] {
      assert run + more == more;
    } else {
      StopRunAppend(cfg, t, Apply(cfg, t, s, run[0]), run[1..], s', more, s'');
      assert (run + more)[0] == run[0] && (run + more)[1..] == run[1..] + more;
    }
  }

  /** Exactly when a `stop` can hang, by what its caller can know when it enters: it can, unless
      there is no worker, or it has returned or will refuse its offset, or it sleeps. If the
      condition holds, no schedule of this `stop` dooms the join; if not, some schedule does. */
  lemma StopCanHangIff(cfg: Config, t: nat, s: State)
    requires cfg.Lawful() && Inv(cfg, t, s) && s.own.cpc.CAbort?
    ensures MayHang(cfg, t, s) <==> !(Stoppable(s) || Refusing(cfg, s))
  {
    hide Inv;
    if Stoppable(s) || Refusing(cfg, s) {
      forall run, s' | StopRun(cfg, t, s, run, s') ensures !Doomed(s') {
        SafeForever(cfg, t, s, run, s');
      }
    } else {
      var run, s1 := RunsToLock(cfg, t, s);
      var more, s2 := LockDooms(cfg, t, s1);
      StopRunAppend(cfg, t, s, run, s1, more, s2);
    }
  }

  // ---- A stop that never returns is reachable ----

  ghost predicate Reachable(cfg: Config, t: nat, s: State)
    requires cfg.baseSize > 0
  {
    exists run :: Run(cfg, t, INIT, run, s)
  }

  lemma ReachStep(cfg: Config, t: nat, s: State, a: Action) returns (s': State)
    requires cfg.baseSize > 0 && Reachable(cfg, t, s) && Enabled(s, a)
    ensures s' == Apply(cfg, t, s, a) && Reachable(cfg, t, s')
  {
    s' := Apply(cfg, t, s, a);
    var run :| Run(cfg, t, INIT, run, s);
    RunOne(cfg, t, s, a);
    RunAppend(cfg, t, INIT, run, s, [a], s');
  }

  /** The first start of the stream has got as far as the join. */
  lemma ReachJoin(cfg: Config, t: nat) returns (s: State)
    requires cfg.Lawful()
    ensures Reachable(cfg, t, s) && s.sync == INIT.sync.(abort := true)
    ensures s.own == Owner(false, false, false, CJoin(Restart(0)))
  {
    assert Run(cfg, t, INIT, [], INIT);
    hide Reachable, Run, Config.Lawful;
    s := ReachStep(cfg, t, INIT, AStop(Restart(0)));
    s := ReachStep(cfg, t, s, AConsume);
    s := ReachStep(cfg, t, s, AConsume);
    s := ReachStep(cfg, t, s, AConsume);
  }

  /** The stream has just been started at offset 0. */
  lemma ReachSpawned(cfg: Config, t: nat) returns (s: State)
    requires cfg.Lawful()
    ensures Reachable(cfg, t, s) && s.worker == Worker(WInit, 0, 0, 0, []) && s.sync == INIT.sync
    ensures s.own == Owner(true, true, true, CIdle) && s.queue == []
  {
    hide Reachable, Run;
    s := ReachJoin(cfg, t);
    s := ReachStep(cfg, t, s, AConsume);
    s := ReachStep(cfg, t, s, AConsume);
    s := ReachStep(cfg, t, s, AConsume);
  }

  /** Its worker is about to check `abort` for the first time. */
  lemma ReachStarted(cfg: Config, t: nat) returns (s: State)
    requires cfg.Lawful()
    ensures Reachable(cfg, t, s) && s.worker.pc.WCheck? && s.worker.cur == s.sync.level == 0 && s.queue == []
    ensures s.own == Owner(true, true, true, CIdle) && s.sync == INIT.sync
  {
    hide Reachable, Run;
    s := ReachSpawned(cfg, t);
    s := ReachStep(cfg, t, s, AWork(false));
    s := ReachStep(cfg, t, s, AWork(false));
  }

  /** The worker has filled the channel up to the high watermark. */
  lemma {:induction false} ReachFull(cfg: Config, t: nat, s: State) returns (s': State)
    requires cfg.Lawful() && Reachable(cfg, t, s) && s.worker.pc.WCheck? && s.worker.cur == s.sync.level <= cfg.maxThres
    requires s.own.cpc.CIdle? && !s.sync.abort && s.sync.mutex.Free? && s.own.hasRx
    ensures Reachable(cfg, t, s') && s'.worker.pc.WCheck? && s'.worker.cur == s'.sync.level == cfg.maxThres
    ensures s'.own.cpc.CIdle? && !s'.sync.abort && s'.sync.mutex.Free?
    decreases cfg.maxThres - s.sync.level
  {
    hide Reachable, Run;
    s' := s;
    if s.sync.level < cfg.maxThres {
      s' := ReachStep(cfg, t, s', AWork(false));
      s' := ReachStep(cfg, t, s', AWork(false));
      s' := ReachStep(cfg, t, s', AWork(false));
      s' := ReachStep(cfg, t, s', AWork(false));
      s' := ReachStep(cfg, t, s', AWork(false));
      s' := ReachFull(cfg, t, s');
    }
  }

  /** The worker has loaded abort = false with the channel full; only then did `stop` store
      abort = true. It holds the mutex and is about to clear `sleeping`, which is not set yet. */
  lemma ReachLate(cfg: Config, t: nat) returns (s: State)
    requires cfg.Lawful()
    ensures Reachable(cfg, t, s) && s.worker.pc.WLock? && s.own.cpc == CClear(ForStop(Discard))
  {
    hide Reachable, Run;
    s := ReachStarted(cfg, t);
    s := ReachFull(cfg, t, s);
    s := ReachStep(cfg, t, s, AWork(false));
    s := ReachStep(cfg, t, s, AStop(Discard));
    s := ReachStep(cfg, t, s, AConsume);
    s := ReachStep(cfg, t, s, AConsume);
  }

  /** For every configuration there is a run from the start in which `stop` waits for ever: the
      worker goes to sleep after the wakeup that was meant for it. */
  lemma StopCanHang(cfg: Config, t: nat) returns (s: State)
    requires cfg.Lawful()
    ensures Reachable(cfg, t, s) && s.own.cpc.CJoin? && s.own.cpc.after == Discard
    ensures !JoinReturns(cfg, t, s)
  {
    s := ReachLate(cfg, t);
    ReachableInv(cfg, t, s);
    StopJoins(cfg, t, s);
    hide Inv, JoinReturns, Reachable;
    s := ReachStep(cfg, t, s, AConsume);
  }

  lemma ReachableInv(cfg: Config, t: nat, s: State)
    requires cfg.Lawful() && Reachable(cfg, t, s)
    ensures Inv(cfg, t, s)
  {
    var run :| Run(cfg, t, INIT, run, s);
    InitInv(cfg, t);
    RunInv(cfg, t, INIT, run, s);
  }

  /** The level can fall behind the queue to -1: a chunk is received and subtracted before the
      worker that sent it has added it. */
  lemma LevelCanBeNegative(cfg: Config, t: nat) returns (s: State)
    requires cfg.Lawful()
    ensures Reachable(cfg, t, s) && s.sync.level == -1 && s.worker.pc.WAdd? && s.queue == []
  {
    s := ReachSent(cfg, t);
    hide Reachable, Run;
    s := ReachStep(cfg, t, s, AGet);
    s := ReachStep(cfg, t, s, AConsume);
    s := ReachStep(cfg, t, s, AConsume);
  }

  /** The worker has sent its first chunk and not counted it yet. */
  lemma ReachSent(cfg: Config, t: nat) returns (s: State)
    requires cfg.Lawful()
    ensures Reachable(cfg, t, s) && s.worker.pc.WAdd? && s.sync.level == 0 && |s.queue| == 1
    ensures s.own == Owner(true, true, true, CIdle) && !s.sync.error
  {
    hide Reachable, Run, Config.Finish, Config.ChunkSize, Resize;
    s := ReachStarted(cfg, t);
    s := ReachStep(cfg, t, s, AWork(false));
    s := ReachStep(cfg, t, s, AWork(false));
    s := ReachStep(cfg, t, s, AWork(false));
    s := ReachStep(cfg, t, s, AWork(false));
  }
}
