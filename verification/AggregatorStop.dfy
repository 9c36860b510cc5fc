/** When activate and the drop of the aggregator return. Both stop every stream in turn. */
module AggregatorStop {
  import opened Generator
  import opened Aggregator
  import opened AggregatorInvariant
  import opened Allocation
  import opened AllocationBound
  import Stream
  import opened StreamInvariant
  import opened StreamProgress

  /** A run that lies within one activate or drop. */
  ghost predicate SweepRun(cfg: Config, m: State, run: seq<Action>, m': State)
    requires cfg.Lawful() && |m.streams| == cfg.threads
    decreases |run|
  {
    if run == [] then m' == m
    else m.call.Sweeping? && Enabled(cfg, m, run[0]) && SweepRun(cfg, Apply(cfg, m, run[0]), run[1..], m')
  }

  /** The consumer waits in a join that never returns. */
  predicate Hung(m: State) {
    m.call.Sweeping? && m.call.i < |m.streams| && Doomed(m.streams[m.call.i])
  }

  /** Some schedule of the activate or drop that begins in m never returns. */
  ghost predicate SweepMayHang(cfg: Config, m: State)
    requires cfg.Lawful() && |m.streams| == cfg.threads
  {
    exists run, m' :: SweepRun(cfg, m, run, m') && Hung(m')
  }

  // ---- If every stream can be stopped, no schedule hangs ----

  /** What is left to stop can be stopped. */
  ghost predicate SweepSafe(cfg: Config, m: State)
    requires cfg.Lawful()
  {
    m.call.Sweeping? ==>
      && (forall j :: m.call.i < j < |m.streams| ==> Stoppable(m.streams[j]))
      && (m.call.i < |m.streams| ==>
            if m.call.begun then Safe(cfg, m.streams[m.call.i]) else Stoppable(m.streams[m.call.i]))
  }

  lemma SafeWorker(cfg: Config, i: nat, s: Stream.State, a: Stream.Action)
    requires cfg.Lawful() && Inv(cfg, i, s) && WorkerAction(a) && Stream.Enabled(s, a)
    ensures Safe(cfg, s) ==> Safe(cfg, Stream.Apply(cfg, i, s, a))
    ensures Stoppable(s) ==> Stoppable(Stream.Apply(cfg, i, s, a))
  {
    if Stoppable(s) { StoppableStep(cfg, i, s, a); }
    if Safe(cfg, s) {
      if InStop(s) { SafeStep(cfg, i, s, a); } else { NotInStop(cfg, i, s, a); }
    }
    hide Inv, Safe, Stoppable, Stream.Apply;
  }

  lemma NotInStop(cfg: Config, i: nat, s: Stream.State, a: Stream.Action)
    requires cfg.Lawful() && Inv(cfg, i, s) && WorkerAction(a) && Stream.Enabled(s, a) && !InStop(s)
    ensures Safe(cfg, Stream.Apply(cfg, i, s, a))
  {
    hide Inv, Stoppable, Doomed, Config.Finish, Config.ChunkSize, Resize;
  }

  lemma SafeConsumer(cfg: Config, i: nat, s: Stream.State, after: Stream.After)
    requires cfg.Lawful() && Inv(cfg, i, s) && StopFor(s.own.cpc, after) && Stream.CanConsume(s) && Safe(cfg, s)
    ensures Safe(cfg, Stream.Consume(cfg, s))
  {
    if InStop(s) { SafeStep(cfg, i, s, Stream.AConsume); }
    hide Inv, Doomed, Stoppable;
  }

  lemma SafeBegin(cfg: Config, s: Stream.State, after: Stream.After)
    requires cfg.baseSize > 0 && Stoppable(s)
    ensures Safe(cfg, Stream.CallStop(s, after))
  {
  }

  lemma SweepSafeWork(cfg: Config, m: State, i: nat, a: Stream.Action)
    requires cfg.Lawful() && AggInv(cfg, m) && SweepSafe(cfg, m) && Enabled(cfg, m, Work(i, a))
    ensures SweepSafe(cfg, Apply(cfg, m, Work(i, a)))
  {
    hide AggInv, Healthy, Inv, CallOk, PosOk, Safe, Stoppable, Stream.Apply;
    StreamAt(cfg, m, i);
    HealthyIs(cfg, i, m.streams[i]);
    SafeWorker(cfg, i, m.streams[i], a);
  }

  lemma SweepSafeConsume(cfg: Config, m: State)
    requires cfg.Lawful() && |m.streams| == cfg.threads && AggInv(cfg, m) && SweepSafe(cfg, m)
    requires m.call.Sweeping? && Enabled(cfg, m, Consume)
    ensures SweepSafe(cfg, ConsumeSweep(cfg, m))
  {
    hide AggInv, Healthy, Inv, PosOk, Safe, Stoppable, Stream.Consume;
    var i := m.call.i;
    if i < |m.streams| {
      StreamAt(cfg, m, i);
      HealthyIs(cfg, i, m.streams[i]);
      if m.call.begun {
        SafeConsumer(cfg, i, m.streams[i], Purpose(cfg, m, i));
      } else {
        SafeBegin(cfg, m.streams[i], Purpose(cfg, m, i));
      }
    }
  }

  lemma {:induction false} SweepSafeForever(cfg: Config, m: State, run: seq<Action>, m': State)
    requires cfg.Lawful() && AggInv(cfg, m) && SweepSafe(cfg, m) && SweepRun(cfg, m, run, m')
    ensures AggInv(cfg, m') && SweepSafe(cfg, m')
    decreases |run|
  {
    if run != [] {
      AggStep(cfg, m, run[0]);
      match run[0] {
        case Work(i, a) => SweepSafeWork(cfg, m, i, a);
        case Consume => SweepSafeConsume(cfg, m);
        case _ =>
      }
      hide SweepSafe, Stream.Apply, ConsumeSweep, AggInv;
      SweepSafeForever(cfg, Apply(cfg, m, run[0]), run[1..], m');
    }
  }

  lemma SafeNotHung(cfg: Config, m: State)
    requires cfg.Lawful() && SweepSafe(cfg, m) && AggInv(cfg, m)
    ensures !Hung(m)
  {
    hide AggInv, Stoppable;
    if m.call.Sweeping? && m.call.i < |m.streams| && !m.call.begun {
      StreamAt(cfg, m, m.call.i);
    }
    hide Healthy, PosOk;
  }

  // ---- If some stream cannot be stopped, some schedule hangs ----

  function Phase(c: Stream.ConsumerPc): nat {
    match c
    case CAbort(_) => 6
    case CWake(_) => 5
    case CClear(_) => 4
    case CJoin(_) => 3
    case CUnabort(_) => 2
    case CStart(_) => 1
    case _ => 0
  }

  /** How many steps of the worker the consumer may have to wait for. */
  function Wait(s: Stream.State): nat {
    if s.own.cpc.CWake? then HoldRank(s) else ExitRank(s)
  }

  lemma ConsumerMove(cfg: Config, i: nat, s: Stream.State, after: Stream.After)
    requires cfg.Lawful() && StopFor(s.own.cpc, after) && Stream.CanConsume(s)
    ensures var s' := Stream.Consume(cfg, s);
      s'.own.cpc.CIdle? || s'.own.cpc.CDropped? || Phase(s'.own.cpc) < Phase(s.own.cpc)
  {
  }

  lemma WorkerMove(cfg: Config, i: nat, s: Stream.State, after: Stream.After)
    requires cfg.Lawful() && Inv(cfg, i, s) && StopFor(s.own.cpc, after) && Safe(cfg, s) && !Stream.CanConsume(s)
    ensures Stream.CanStep(s, s.worker.pc, false)
    ensures var s' := Stream.Work(cfg, i, s); s'.own == s.own && Wait(s') < Wait(s)
  {
    if s.own.cpc.CJoin? {
      ExitStep(cfg, i, s, false);
    } else {
      HolderReleases(cfg, i, s);
    }
    hide LevelInv, DataInv, BufferInv, Doomed, ExitRank, HoldRank, Stream.Work;
  }

  /** The consumer is stopping stream i, and nothing hinders it. */
  ghost predicate Driving(cfg: Config, m: State, i: nat)
    requires cfg.Lawful()
  {
    && AggInv(cfg, m) && m.call.Sweeping? && m.call.i == i && m.call.begun && i < cfg.threads == |m.streams|
    && Safe(cfg, m.streams[i])
  }

  /** One step nearer to the end of the stop of stream i. */
  lemma DriveStep(cfg: Config, m: State, i: nat) returns (a: Action, m': State)
    requires cfg.Lawful() && Driving(cfg, m, i)
    ensures Enabled(cfg, m, a) && m' == Apply(cfg, m, a) && AggInv(cfg, m') && |m'.streams| == cfg.threads
    ensures m'.call.Sweeping? && m'.call.discard == m.call.discard
    ensures forall j :: 0 <= j < cfg.threads && j != i ==> m'.streams[j] == m.streams[j]
    ensures m'.call == Sweeping(i + 1, false, m.call.discard) ||
      (Driving(cfg, m', i) &&
       (Phase(m'.streams[i].own.cpc) < Phase(m.streams[i].own.cpc) ||
        (m'.streams[i].own == m.streams[i].own && Wait(m'.streams[i]) < Wait(m.streams[i]))))
  {
    hide AggInv, Healthy, Inv, PosOk, Safe, Stream.Consume, Stream.Work, Wait, Phase;
    var s, after := m.streams[i], Purpose(cfg, m, i);
    StreamAt(cfg, m, i);
    HealthyIs(cfg, i, s);
    if Stream.CanConsume(s) {
      a := Consume;
      ConsumerMove(cfg, i, s, after);
      SafeConsumer(cfg, i, s, after);
    } else {
      a := Work(i, Stream.AWork(false));
      WorkerMove(cfg, i, s, after);
      SafeWorker(cfg, i, s, Stream.AWork(false));
    }
    hide Stream.CanConsume;
    m' := Apply(cfg, m, a);
    AggStep(cfg, m, a);
  }

  lemma {:induction false} DriveStop(cfg: Config, m: State, i: nat) returns (run: seq<Action>, m': State)
    requires cfg.Lawful() && Driving(cfg, m, i)
    ensures SweepRun(cfg, m, run, m') && AggInv(cfg, m') && |m'.streams| == cfg.threads
    ensures m'.call == Sweeping(i + 1, false, m.call.discard)
    ensures forall j :: 0 <= j < cfg.threads && j != i ==> m'.streams[j] == m.streams[j]
    decreases Phase(m.streams[i].own.cpc), Wait(m.streams[i])
  {
    var a;
    a, m' := DriveStep(cfg, m, i);
    ghost var m1 := m';
    hide AggInv, Safe, Phase, Wait, Apply, Enabled;
    run := [];
    assert SweepRun(cfg, m', run, m');
    if m'.call != Sweeping(i + 1, false, m.call.discard) {
      run, m' := DriveStop(cfg, m', i);
    }
    assert ([a] + run)[1..] == run;
    assert SweepRun(cfg, m, [a] + run, m');
    run := [a] + run;
  }

  lemma {:induction false} SweepRunAppend(cfg: Config, m: State, run: seq<Action>, m': State,
                                          more: seq<Action>, m'': State)
    requires cfg.Lawful() && |m.streams| == |m'.streams| == cfg.threads
    requires SweepRun(cfg, m, run, m') && SweepRun(cfg, m', more, m'')
    ensures SweepRun(cfg, m, run + more, m'')
    decreases |run|
  {
    hide Enabled, Apply;
    if run == [] {
      assert run + more == more;
    } else {
      SweepRunAppend(cfg, Apply(cfg, m, run[0]), run[1..], m', more, m'');
      assert (run + more)[0] == run[0] && (run + more)[1..] == run[1..] + more;
    }
  }

  /** Stream i is next to be stopped. */
  predicate AtStream(m: State, i: nat) {
    m.call.Sweeping? && m.call.i == i && !m.call.begun
  }

  /** The consumer begins to stop stream i. */
  lemma BeginStop(cfg: Config, m: State, i: nat) returns (m': State)
    requires cfg.Lawful() && AggInv(cfg, m) && i < cfg.threads && AtStream(m, i)
    ensures SweepRun(cfg, m, [Consume], m') && AggInv(cfg, m') && |m'.streams| == |m.streams| == cfg.threads
    ensures m'.call == Sweeping(i, true, m.call.discard)
    ensures m'.streams == m.streams[i := Stream.CallStop(m.streams[i], Purpose(cfg, m, i))]
  {
    StreamAt(cfg, m, i);
    m' := Apply(cfg, m, Consume);
    AggStep(cfg, m, Consume);
    hide AggInv, Healthy, PosOk;
    assert [Consume][1..] == [];
    assert SweepRun(cfg, m', [], m');
  }

  /** The streams before i have been stopped, and stream i is next. */
  lemma {:induction false} StopUpTo(cfg: Config, m: State, i: nat) returns (run: seq<Action>, m': State)
    requires cfg.Lawful() && AggInv(cfg, m) && i <= cfg.threads == |m.streams| && AtStream(m, 0)
    requires forall j :: 0 <= j < i ==> Stoppable(m.streams[j])
    ensures SweepRun(cfg, m, run, m') && AggInv(cfg, m') && |m'.streams| == cfg.threads
    ensures m'.call == Sweeping(i, false, m.call.discard)
    ensures forall j :: i <= j < cfg.threads ==> m'.streams[j] == m.streams[j]
  {
    if i == 0 {
      run, m' := [], m;
    } else {
      var k := i - 1;
      var run0, m0 := StopUpTo(cfg, m, k);
      var m1 := BeginStop(cfg, m0, k);
      SafeBegin(cfg, m0.streams[k], Purpose(cfg, m0, k));
      hide AggInv, Safe, Stoppable, Stream.CallStop;
      var run1;
      run1, m' := DriveStop(cfg, m1, k);
      hide SweepRun, Driving;
      SweepRunAppend(cfg, m0, [Consume], m1, run1, m');
      SweepRunAppend(cfg, m, run0, m0, [Consume] + run1, m');
      run := run0 + ([Consume] + run1);
    }
  }

  /** A step of one stream's stop, as a step of the aggregator. */
  function Lift(i: nat, a: Stream.Action): Action {
    if a.AConsume? then Consume else Work(i, a)
  }

  /** What one stream does within its stop, the aggregator does. */
  lemma {:induction false} LiftRun(cfg: Config, m: State, i: nat, run: seq<Stream.Action>, s': Stream.State)
      returns (run': seq<Action>, m': State)
    requires cfg.Lawful() && i < cfg.threads == |m.streams| && m.call.Sweeping? && m.call.i == i && m.call.begun
    requires StopRun(cfg, i, m.streams[i], run, s') && InStop(s')
    ensures SweepRun(cfg, m, run', m') && m'.call == m.call && |m'.streams| == cfg.threads && m'.streams[i] == s'
    decreases |run|
  {
    if run == [] {
      run', m' := [], m;
    } else {
      var s, a := m.streams[i], run[0];
      StaysInStop(cfg, i, s, run, s');
      LiftStep(cfg, m, i, a);
      var m1 := Apply(cfg, m, Lift(i, a));
      hide Stream.Apply, Stream.Enabled, Apply, Enabled, InStop;
      run', m' := LiftRun(cfg, m1, i, run[1..], s');
      assert ([Lift(i, a)] + run')[1..] == run';
      run' := [Lift(i, a)] + run';
    }
  }

  /** A run within a stop that ends within it never leaves it. */
  lemma StaysInStop(cfg: Config, i: nat, s: Stream.State, run: seq<Stream.Action>, s': Stream.State)
    requires cfg.Lawful() && run != [] && StopRun(cfg, i, s, run, s') && InStop(s')
    ensures InStop(s) && Stream.Enabled(s, run[0]) && InStop(Stream.Apply(cfg, i, s, run[0]))
  {
    hide Stream.Apply, Stream.Enabled, InStop;
  }

  lemma LiftStep(cfg: Config, m: State, i: nat, a: Stream.Action)
    requires cfg.Lawful() && i < cfg.threads == |m.streams| && m.call.Sweeping? && m.call.i == i && m.call.begun
    requires InStop(m.streams[i]) && Stream.Enabled(m.streams[i], a)
    requires InStop(Stream.Apply(cfg, i, m.streams[i], a))
    ensures Enabled(cfg, m, Lift(i, a))
    ensures var m' := Apply(cfg, m, Lift(i, a));
      m'.call == m.call && |m'.streams| == cfg.threads && m'.streams[i] == Stream.Apply(cfg, i, m.streams[i], a)
  {
    hide Stream.Consume, Stream.Work, Stream.WorkOlder;
  }

  lemma HungStep(cfg: Config, m: State, a: Action)
    requires cfg.Lawful() && AggInv(cfg, m) && Hung(m) && Enabled(cfg, m, a)
    ensures Hung(Apply(cfg, m, a))
  {
    var i := m.call.i;
    hide AggInv, Healthy, PosOk, Inv, Stream.Apply;
    StreamAt(cfg, m, i);
    HealthyIs(cfg, i, m.streams[i]);
    match a
    case Work(j, b) => if j == i { HungWork(cfg, i, m.streams[i], b); } hide Doomed;
    case _ =>
  }

  lemma HungWork(cfg: Config, i: nat, s: Stream.State, a: Stream.Action)
    requires cfg.Lawful() && Inv(cfg, i, s) && Doomed(s) && Stream.Enabled(s, a)
    ensures Doomed(Stream.Apply(cfg, i, s, a))
  {
    DoomedStep(cfg, i, s, a);
    hide LifeInv, SleepInv, LevelInv, DataInv, BufferInv, Doomed, Stream.Apply;
  }

  /** Such a join never returns, whatever happens: the activate or drop never ends. */
  lemma {:induction false} HungForever(cfg: Config, m: State, run: seq<Action>, m': State)
    requires cfg.Lawful() && AggInv(cfg, m) && Hung(m) && Run(cfg, m, run, m')
    ensures Hung(m')
    decreases |run|
  {
    if run != [] {
      AggStep(cfg, m, run[0]);
      HungStep(cfg, m, run[0]);
      hide AggInv, Hung, Apply, Enabled;
      HungForever(cfg, Apply(cfg, m, run[0]), run[1..], m');
    }
  }

  // ---- Exactly when activate and drop return ----

  /** At the entry of activate or drop: some schedule never returns, if and only if some stream
      cannot be stopped, because its worker is alive and awake. */
  lemma SweepHangsIff(cfg: Config, m: State)
    requires cfg.Lawful() && AggInv(cfg, m) && |m.streams| == cfg.threads && AtStream(m, 0)
    ensures SweepMayHang(cfg, m) <==> exists i :: 0 <= i < cfg.threads && !Stoppable(m.streams[i])
  {
    hide AggInv, Stoppable, SweepRun;
    if i :| 0 <= i < cfg.threads && !Stoppable(m.streams[i]) {
      SomeHang(cfg, m, i);
    } else {
      forall run, m' | SweepRun(cfg, m, run, m') ensures !Hung(m') {
        SweepSafeForever(cfg, m, run, m');
        SafeNotHung(cfg, m');
      }
    }
  }

  lemma {:induction false} SomeHang(cfg: Config, m: State, i: nat)
    requires cfg.Lawful() && AggInv(cfg, m) && |m.streams| == cfg.threads && AtStream(m, 0)
    requires i < cfg.threads && !Stoppable(m.streams[i])
    ensures SweepMayHang(cfg, m)
    decreases i
  {
    hide AggInv, Stoppable;
    if j :| 0 <= j < i && !Stoppable(m.streams[j]) {
      SomeHang(cfg, m, j);
    } else {
      var run0, m0 := StopUpTo(cfg, m, i);
      var run1, m1 := HangAt(cfg, m0, i);
      SweepRunAppend(cfg, m, run0, m0, run1, m1);
      hide SweepRun, Hung;
    }
  }

  lemma HangAt(cfg: Config, m: State, i: nat) returns (run: seq<Action>, m': State)
    requires cfg.Lawful() && AggInv(cfg, m) && i < cfg.threads == |m.streams|
    requires AtStream(m, i) && !Stoppable(m.streams[i])
    ensures SweepRun(cfg, m, run, m') && Hung(m') && |m'.streams| == cfg.threads
  {
    var m0 := BeginStop(cfg, m, i);
    StreamAt(cfg, m0, i);
    HealthyIs(cfg, i, m0.streams[i]);
    hide AggInv, Healthy, PosOk, Inv;
    StopMayHangHere(cfg, i, m.streams[i], Purpose(cfg, m, i));
    hide Stream.CallStop, Doomed;
    var stop, s' :| StopRun(cfg, i, m0.streams[i], stop, s') && Doomed(s');
    DoomedInStop(s');
    run, m' := LiftRun(cfg, m0, i, stop, s');
    SweepRunAppend(cfg, m, [Consume], m0, run, m');
    run := [Consume] + run;
  }

  lemma DoomedInStop(s: Stream.State)
    requires Doomed(s)
    ensures InStop(s)
  {
  }

  lemma StopMayHangHere(cfg: Config, i: nat, s: Stream.State, after: Stream.After)
    requires cfg.Lawful() && !Stoppable(s)
    requires var s' := Stream.CallStop(s, after); Inv(cfg, i, s') && SeekInv(cfg, s')
    ensures MayHang(cfg, i, Stream.CallStop(s, after))
  {
    StopCanHangIff(cfg, i, Stream.CallStop(s, after));
    hide Inv, MayHang;
  }

  /** For a caller of activate, or at the end of the aggregator's scope: the call returns in every
      schedule, if and only if every worker that there is has returned or sleeps. */
  lemma CallHangsIff(cfg: Config, m: State, a: Action)
    requires cfg.Lawful() && AggInv(cfg, m) && |m.streams| == cfg.threads && m.call.Idle?
    requires a.CallActivate? || a.CallDrop?
    ensures SweepMayHang(cfg, Apply(cfg, m, a)) <==> exists i :: 0 <= i < cfg.threads && !Stoppable(m.streams[i])
  {
    AggStep(cfg, m, a);
    SweepHangsIff(cfg, Apply(cfg, m, a));
    hide AggInv, Stoppable, SweepMayHang;
  }

  /** For every configuration, an aggregator that is in use and idle, and whose drop may never
      return, is reached: just after its activation, for one. */
  lemma DropCanHang(cfg: Config) returns (m: State)
    requires cfg.Lawful()
    ensures FrugallyReached(cfg, m, 1) && m.isActive && m.call.Idle?
    ensures SweepMayHang(cfg, Apply(cfg, m, CallDrop))
  {
    m := Activated(cfg, 1);
    var run :| FrugalRun(cfg, Init(cfg), run, m, 1);
    FrugalFacts(cfg, run, m, 1);
    assert !Stoppable(m.streams[0]);
    hide FrugalRun, AggInv, HeldInv, BudgetInv, Stoppable, JustStarted, SweepMayHang;
    CallHangsIff(cfg, m, CallDrop);
  }
}
