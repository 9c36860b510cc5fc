/** Buffer recycling: however long an activation runs, every worker allocates only a bounded
    number of buffers. */
module Allocation {
  import opened Bytes
  import opened Generator
  import opened Interleave
  import opened Aggregator
  import opened AggregatorInvariant
  import Stream
  import opened StreamInvariant

  /** How many of the chunks will be recycled into cache t. */
  function Bound(held: seq<Held>, t: nat): nat {
    if held == [] then 0 else Bound(held[1..], t) + if held[0].threadId == t then 1 else 0
  }

  lemma {:induction false} BoundAppend(a: seq<Held>, b: seq<Held>, t: nat)
    ensures Bound(a + b, t) == Bound(a, t) + Bound(b, t)
  {
    if a == [] {
      assert a + b == b;
    } else {
      BoundAppend(a[1..], b, t);
      assert (a + b)[1..] == a[1..] + b && (a + b)[0] == a[0];
    }
  }

  lemma BoundOne(h: Held, t: nat)
    ensures Bound([h], t) == if h.threadId == t then 1 else 0
  {
    assert [h][1..] == [];
  }

  lemma BoundRemove(held: seq<Held>, h: nat, t: nat)
    requires h < |held|
    ensures Bound(held[..h] + held[h + 1..], t) + (if held[h].threadId == t then 1 else 0) == Bound(held, t)
  {
    var a, b := held[..h], held[h + 1..];
    assert held == a + ([held[h]] + b);
    BoundAppend(a, [held[h]] + b, t);
    BoundAppend([held[h]], b, t);
    BoundOne(held[h], t);
    BoundAppend(a, b, t);
  }

  lemma {:induction false} BoundAtMost(held: seq<Held>, t: nat)
    ensures Bound(held, t) <= |held|
  {
    if held != [] { BoundAtMost(held[1..], t); }
  }

  /** Chunks that the consumer carries inside get_chunk. */
  function Carry(m: State): nat {
    if m.call.Fetching? && m.current < |m.streams| then Carrying(m.streams[m.current]) else 0
  }

  /** The consumer holds at most `limit` chunks, the one it is receiving included. */
  predicate HoldsAtMost(m: State, limit: nat) {
    |m.held| + Carry(m) <= limit
  }

  /** Chunks of stream i in the consumer's hands. */
  function InHand(m: State, i: nat, n: nat): nat
    requires i < n
  {
    Bound(m.held, Succ(i, n)) + if m.current == i then Carry(m) else 0
  }

  /** What comes back: every chunk received from stream i is in the consumer's hands or its
      buffer has been pushed to the cache of the successor. */
  ghost predicate RecycleInv(cfg: Config, m: State)
    requires cfg.Lawful() && |m.streams| == cfg.threads
  {
    m.isActive && !m.call.Sweeping? ==>
      forall i :: 0 <= i < cfg.threads ==>
        m.streams[i].hist.got <= m.streams[Succ(i, cfg.threads)].hist.pushed + InHand(m, i, cfg.threads)
  }

  /** No stream has lost more than `limit` buffers, and its worker has allocated accordingly. */
  ghost predicate BudgetInv(cfg: Config, m: State, limit: nat)
    requires |m.streams| == cfg.threads
  {
    forall i :: 0 <= i < cfg.threads ==>
      m.streams[i].hist.got <= m.streams[i].hist.pushed + limit &&
      m.streams[i].hist.allocs <= cfg.maxThres + limit
  }

  // ---- Steps of the workers ----

  lemma PullBudget(cfg: Config, i: nat, s: Stream.State, a: Stream.Action, limit: nat)
    requires cfg.Lawful() && Inv(cfg, i, s) && WorkerAction(a) && Stream.Enabled(s, a)
    requires s.hist.got <= s.hist.pushed + limit && s.hist.allocs <= cfg.maxThres + limit
    ensures Stream.Apply(cfg, i, s, a).hist.allocs <= cfg.maxThres + limit
    ensures Stream.Apply(cfg, i, s, a).hist == s.hist.(allocs := Stream.Apply(cfg, i, s, a).hist.allocs)
    ensures Stream.Apply(cfg, i, s, a).own == s.own
  {
  }

  lemma WorkBudget(cfg: Config, m: State, i: nat, a: Stream.Action, limit: nat)
    requires cfg.Lawful() && AggInv(cfg, m) && RecycleInv(cfg, m) && BudgetInv(cfg, m, limit)
    requires Enabled(cfg, m, Work(i, a))
    ensures RecycleInv(cfg, Apply(cfg, m, Work(i, a))) && BudgetInv(cfg, Apply(cfg, m, Work(i, a)), limit)
  {
    hide AggInv, Healthy, Inv, Stream.Apply, Bound, PosOk, CallOk;
    StreamAt(cfg, m, i);
    HealthyIs(cfg, i, m.streams[i]);
    PullBudget(cfg, i, m.streams[i], a, limit);
  }

  // ---- Steps of the consumer ----

  /** When it is a stream's turn, it has not delivered more than its predecessor; the buffers
      of the predecessor's chunks are back, but for those that the consumer holds. */
  lemma TurnBudget(cfg: Config, m: State)
    requires cfg.Lawful() && AggInv(cfg, m) && RecycleInv(cfg, m) && m.call.Fetching? && Carry(m) == 0
    ensures m.streams[m.current].hist.got <= m.streams[m.current].hist.pushed + |m.held|
  {
    hide AggInv, Pos, Inv, Healthy, CallOk, Getting;
    FetchedStream(cfg, m);
    var n, c := cfg.threads, m.current;
    var p := if c == 0 then n - 1 else c - 1;
    assert Succ(p, n) == c;
    StreamAt(cfg, m, p);
    PredecessorGap(p, n, m.first, m.Next());
    BoundAtMost(m.held, c);
  }

  /** What a step inside get_chunk changes in the stream's history. */
  lemma GetHistory(cfg: Config, s: Stream.State)
    requires cfg.Lawful() && Getting(s) && Stream.CanConsume(s)
    ensures var s' := Stream.Consume(cfg, s);
      && s'.hist == s.hist.(got := s'.hist.got)
      && (if s.own.cpc.CReturn? then s'.hist == s.hist && Carrying(s') == 0
          else s'.hist.got + Carrying(s) == s.hist.got + Carrying(s'))
      && (s'.hist.got == s.hist.got || (s'.hist.got == s.hist.got + 1 && s.own.cpc.CRecv? && Carrying(s') == 1))
  {
  }

  lemma GetBudget(cfg: Config, m: State, limit: nat)
    requires cfg.Lawful() && AggInv(cfg, m) && RecycleInv(cfg, m) && BudgetInv(cfg, m, limit)
    requires m.call.Fetching? && Enabled(cfg, m, Consume)
    requires m.streams[m.current].own.cpc.CRecv? && m.streams[m.current].queue != [] ==> |m.held| + 1 <= limit
    ensures BudgetInv(cfg, ConsumeGet(cfg, m), limit)
  {
    hide AggInv, RecycleInv, Inv, Getting, PosOk, Bound;
    FetchedStream(cfg, m);
    var s := m.streams[m.current];
    GetHistory(cfg, s);
    if s.own.cpc.CRecv? { TurnBudget(cfg, m); }
    hide Stream.Consume;
    GetBudgetAt(cfg, m, Stream.Consume(cfg, s), limit);
  }

  lemma GetBudgetAt(cfg: Config, m: State, s': Stream.State, limit: nat)
    requires cfg.Lawful() && |m.streams| == cfg.threads && m.current < cfg.threads && BudgetInv(cfg, m, limit)
    requires s' == Stream.Consume(cfg, m.streams[m.current])
    requires s'.hist.got <= s'.hist.pushed + limit && s'.hist.allocs == m.streams[m.current].hist.allocs
    ensures BudgetInv(cfg, ConsumeGet(cfg, m), limit)
  {
    hide Stream.Consume;
    assert ConsumeGet(cfg, m).streams == m.streams[m.current := s'];
  }

  /** The label of a returned chunk counts it for the stream it came from. */
  lemma ReturnBound(cfg: Config, m: State, chunk: seq<byte>, i: nat)
    requires cfg.Lawful() && i < cfg.threads && m.current < cfg.threads
    ensures var m' := Return(cfg, m, Stream.Got(chunk));
      Bound(m'.held, Succ(i, cfg.threads)) == Bound(m.held, Succ(i, cfg.threads)) + if i == m.current then 1 else 0
  {
    var n := cfg.threads;
    var h := Held(chunk, (m.current + 1) % n);
    SuccIs(m.current, n);
    BoundAppend(m.held, [h], Succ(i, n));
    BoundOne(h, Succ(i, n));
  }

  lemma GetRecycle(cfg: Config, m: State)
    requires cfg.Lawful() && AggInv(cfg, m) && RecycleInv(cfg, m)
    requires m.call.Fetching? && Enabled(cfg, m, Consume)
    ensures RecycleInv(cfg, ConsumeGet(cfg, m))
  {
    hide AggInv, Inv, Bound, PosOk, Getting, RecycleInv;
    FetchedStream(cfg, m);
    var s := m.streams[m.current];
    GetHistory(cfg, s);
    hide Stream.Consume, Stream.CanConsume;
    if s.own.cpc.CReturn? { ReturnRecycle(cfg, m); } else { StepRecycle(cfg, m); }
  }

  /** A step inside get_chunk: a chunk that is received is carried. */
  lemma StepRecycle(cfg: Config, m: State)
    requires cfg.Lawful() && |m.streams| == cfg.threads && m.current < cfg.threads && RecycleInv(cfg, m)
    requires m.call.Fetching? && m.isActive
    requires var s := m.streams[m.current];
      var s' := Stream.Consume(cfg, s);
      && !s.own.cpc.CReturn? && s'.hist == s.hist.(got := s'.hist.got)
      && s'.hist.got + Carrying(s) == s.hist.got + Carrying(s')
    ensures RecycleInv(cfg, ConsumeGet(cfg, m))
  {
    hide Bound, Stream.Consume;
  }

  /** The return from get_chunk: a chunk that was carried is held. */
  lemma ReturnInHand(cfg: Config, m: State, i: nat)
    requires cfg.Lawful() && |m.streams| == cfg.threads && m.current < cfg.threads && i < cfg.threads
    requires m.call.Fetching? && m.streams[m.current].own.cpc.CReturn?
    ensures InHand(ConsumeGet(cfg, m), i, cfg.threads) == InHand(m, i, cfg.threads)
  {
    hide Bound, Stream.Consume;
    var s := m.streams[m.current];
    if s.own.cpc.reply.Got? {
      ReturnBound(cfg, Put(m, m.current, Stream.Consume(cfg, s)), s.own.cpc.reply.chunk, i);
    }
  }

  lemma ReturnRecycle(cfg: Config, m: State)
    requires cfg.Lawful() && |m.streams| == cfg.threads && m.current < cfg.threads && RecycleInv(cfg, m)
    requires m.call.Fetching? && m.isActive
    requires var s := m.streams[m.current];
      s.own.cpc.CReturn? && Stream.Consume(cfg, s).hist == s.hist
    ensures RecycleInv(cfg, ConsumeGet(cfg, m))
  {
    hide InHand, Stream.Consume;
    forall i | 0 <= i < cfg.threads
      ensures InHand(ConsumeGet(cfg, m), i, cfg.threads) == InHand(m, i, cfg.threads)
    {
      ReturnInHand(cfg, m, i);
    }
  }

  lemma SweepBudget(cfg: Config, m: State, limit: nat)
    requires cfg.Lawful() && AggInv(cfg, m) && BudgetInv(cfg, m, limit)
    requires m.call.Sweeping? && Enabled(cfg, m, Consume)
    ensures BudgetInv(cfg, ConsumeSweep(cfg, m), limit) && RecycleInv(cfg, ConsumeSweep(cfg, m))
  {
    var i, n := m.call.i, cfg.threads;
    if i >= n && !m.call.discard {
      forall j | 0 <= j < n ensures m.streams[j].hist.got == 0 {
        assert PosOk(cfg, m, j, m.streams[j]);
      }
    } else if i < n && m.call.begun {
      assert CallOk(cfg, m, i, m.streams[i]) && Healthy(cfg, i, m.streams[i]);
      StopHistory(cfg, m.streams[i], Purpose(cfg, m, i));
    }
    hide AggInv, Stream.Consume, Bound;
  }

  lemma StopHistory(cfg: Config, s: Stream.State, after: Stream.After)
    requires cfg.Lawful() && StopFor(s.own.cpc, after) && Stream.CanConsume(s)
    ensures var h := Stream.Consume(cfg, s).hist; h == s.hist || (h.got == 0 && h.allocs == 0)
  {
  }

  lemma PushBudget(cfg: Config, m: State, i: nat, buf: seq<byte>, limit: nat)
    requires cfg.Lawful() && |m.streams| == cfg.threads && RecycleInv(cfg, m) && BudgetInv(cfg, m, limit)
    requires m.call.Idle? && i < cfg.threads
    ensures var m' := Put(m, i, Stream.Push(m.streams[i], buf));
      RecycleInv(cfg, m') && BudgetInv(cfg, m', limit)
  {
    hide Bound;
  }

  lemma DropBudget(cfg: Config, m: State, h: nat, limit: nat)
    requires cfg.Lawful() && |m.streams| == cfg.threads && RecycleInv(cfg, m) && BudgetInv(cfg, m, limit)
    requires Enabled(cfg, m, Drop(h))
    ensures RecycleInv(cfg, Apply(cfg, m, Drop(h))) && BudgetInv(cfg, Apply(cfg, m, Drop(h)), limit)
  {
    var t, n := m.held[h].threadId, cfg.threads;
    var m' := Apply(cfg, m, Drop(h));
    hide Bound;
    assert m'.streams == m.streams[t := Stream.Push(m.streams[t], m.held[h].data)];
    forall i | 0 <= i < n
      ensures InHand(m, i, n) == InHand(m', i, n) + if Succ(i, n) == t then 1 else 0
    {
      BoundRemove(m.held, h, Succ(i, n));
    }
    hide Apply, Enabled, InHand;
  }

  lemma ReceiveHolds(cfg: Config, m: State, limit: nat)
    requires cfg.Lawful() && m.call.Fetching? && m.current < |m.streams| && HoldsAtMost(ConsumeGet(cfg, m), limit)
    requires m.streams[m.current].own.cpc.CRecv? && m.streams[m.current].queue != []
    ensures |m.held| + 1 <= limit
  {
  }

  lemma ConsumeBudget(cfg: Config, m: State, limit: nat)
    requires cfg.Lawful() && AggInv(cfg, m) && RecycleInv(cfg, m) && BudgetInv(cfg, m, limit)
    requires Enabled(cfg, m, Consume) && HoldsAtMost(Apply(cfg, m, Consume), limit)
    ensures RecycleInv(cfg, Apply(cfg, m, Consume)) && BudgetInv(cfg, Apply(cfg, m, Consume), limit)
  {
    hide AggInv, HoldsAtMost, RecycleInv, BudgetInv, ConsumeGet, ConsumeSweep, Stream.CanConsume;
    if m.call.Fetching? {
      if m.streams[m.current].own.cpc.CRecv? && m.streams[m.current].queue != [] { ReceiveHolds(cfg, m, limit); }
      GetRecycle(cfg, m);
      GetBudget(cfg, m, limit);
    } else {
      SweepBudget(cfg, m, limit);
    }
  }

  /** A step that touches no history and no chunk keeps both. */
  lemma SameHistory(cfg: Config, m: State, m': State, limit: nat)
    requires cfg.Lawful() && |m.streams| == |m'.streams| == cfg.threads
    requires RecycleInv(cfg, m) && BudgetInv(cfg, m, limit) && !m.call.Sweeping?
    requires forall i :: 0 <= i < cfg.threads ==> m'.streams[i].hist == m.streams[i].hist
    requires m'.isActive == m.isActive && m'.current == m.current && m'.held == m.held && Carry(m') == Carry(m)
    ensures RecycleInv(cfg, m') && BudgetInv(cfg, m', limit)
  {
    hide Bound, Carry;
  }

  lemma CallGetBudget(cfg: Config, m: State, limit: nat)
    requires cfg.Lawful() && |m.streams| == cfg.threads && RecycleInv(cfg, m) && BudgetInv(cfg, m, limit)
    requires Enabled(cfg, m, CallGet)
    ensures RecycleInv(cfg, Apply(cfg, m, CallGet)) && BudgetInv(cfg, Apply(cfg, m, CallGet), limit)
  {
    hide RecycleInv, BudgetInv;
    SameHistory(cfg, m, Apply(cfg, m, CallGet), limit);
  }

  lemma CallSweepBudget(cfg: Config, m: State, a: Action, limit: nat)
    requires cfg.Lawful() && |m.streams| == cfg.threads && BudgetInv(cfg, m, limit)
    requires m.call.Idle? && (a.CallActivate? || a.CallDrop?)
    ensures RecycleInv(cfg, Apply(cfg, m, a)) && BudgetInv(cfg, Apply(cfg, m, a), limit)
  {
    hide InHand;
  }

  lemma BudgetStep(cfg: Config, m: State, a: Action, limit: nat)
    requires cfg.Lawful() && AggInv(cfg, m) && RecycleInv(cfg, m) && BudgetInv(cfg, m, limit)
    requires Enabled(cfg, m, a) && HoldsAtMost(Apply(cfg, m, a), limit)
    ensures RecycleInv(cfg, Apply(cfg, m, a)) && BudgetInv(cfg, Apply(cfg, m, a), limit)
  {
    hide HoldsAtMost, RecycleInv, BudgetInv, Bound, Stream.CanConsume;
    match a
    case Work(i, b) => WorkBudget(cfg, m, i, b, limit);
    case Consume => ConsumeBudget(cfg, m, limit);
    case CallGet => CallGetBudget(cfg, m, limit);
    case CallActivate(_) => CallSweepBudget(cfg, m, a, limit);
    case CallDrop => CallSweepBudget(cfg, m, a, limit);
    case Drop(h) => DropBudget(cfg, m, h, limit);
    case Push(i, buf) => PushBudget(cfg, m, i, buf, limit);
  }

  // ---- Runs ----

  /** A run in which the consumer never holds more than `limit` chunks at a time. */
  ghost predicate FrugalRun(cfg: Config, m: State, run: seq<Action>, m': State, limit: nat)
    requires cfg.Lawful() && |m.streams| == cfg.threads
    decreases |run|
  {
    HoldsAtMost(m, limit) &&
    if run == [] then m' == m
    else Enabled(cfg, m, run[0]) && FrugalRun(cfg, Apply(cfg, m, run[0]), run[1..], m', limit)
  }

  lemma {:induction false} FrugalRunBudget(cfg: Config, m: State, run: seq<Action>, m': State, limit: nat)
    requires cfg.Lawful() && AggInv(cfg, m) && RecycleInv(cfg, m) && BudgetInv(cfg, m, limit)
    requires FrugalRun(cfg, m, run, m', limit)
    ensures AggInv(cfg, m') && RecycleInv(cfg, m') && BudgetInv(cfg, m', limit)
    decreases |run|
  {
    if run != [] {
      AggStep(cfg, m, run[0]);
      BudgetStep(cfg, m, run[0], limit);
      FrugalRunBudget(cfg, Apply(cfg, m, run[0]), run[1..], m', limit);
    }
  }

  /** Bounded allocation: if the consumer never holds more than `limit` chunks, no worker ever
      allocates more than maxThres + limit buffers in one activation, however long it runs;
      although every buffer is recycled into the cache of another stream. */
  lemma BoundedAllocation(cfg: Config, run: seq<Action>, m: State, limit: nat)
    requires cfg.Lawful() && FrugalRun(cfg, Init(cfg), run, m, limit)
    ensures |m.streams| == cfg.threads
    ensures forall i :: 0 <= i < cfg.threads ==> m.streams[i].hist.allocs <= cfg.maxThres + limit
  {
    InitAggInv(cfg);
    FrugalRunBudget(cfg, Init(cfg), run, m, limit);
  }

  lemma {:induction false} FrugalRunAppend(cfg: Config, m: State, run: seq<Action>, m': State, a: Action, limit: nat)
    requires cfg.Lawful() && |m.streams| == cfg.threads && FrugalRun(cfg, m, run, m', limit)
    requires |m'.streams| == cfg.threads && Enabled(cfg, m', a) && HoldsAtMost(Apply(cfg, m', a), limit)
    ensures FrugalRun(cfg, m, run + [a], Apply(cfg, m', a), limit)
    decreases |run|
  {
    hide HoldsAtMost, Apply, Enabled;
    if run == [] {
      assert run + [a] == [a] && [a][1..] == [];
      assert FrugalRun(cfg, Apply(cfg, m, a), [], Apply(cfg, m, a), limit);
    } else {
      FrugalRunAppend(cfg, Apply(cfg, m, run[0]), run[1..], m', a, limit);
      assert (run + [a])[0] == run[0] && (run + [a])[1..] == run[1..] + [a];
    }
  }

  lemma {:induction false} FrugalIsRun(cfg: Config, m: State, run: seq<Action>, m': State, limit: nat)
    requires cfg.Lawful() && |m.streams| == cfg.threads && FrugalRun(cfg, m, run, m', limit)
    ensures Run(cfg, m, run, m')
    decreases |run|
  {
    hide HoldsAtMost, Apply, Enabled;
    if run != [] { FrugalIsRun(cfg, Apply(cfg, m, run[0]), run[1..], m', limit); }
  }

  /** Everything known about the end of a frugal run from the start. */
  lemma FrugalFacts(cfg: Config, run: seq<Action>, m: State, limit: nat)
    requires cfg.Lawful() && FrugalRun(cfg, Init(cfg), run, m, limit)
    ensures AggInv(cfg, m) && HeldInv(cfg, m) && BudgetInv(cfg, m, limit) && HoldsAtMost(m, limit)
  {
    InitAggInv(cfg);
    FrugalRunBudget(cfg, Init(cfg), run, m, limit);
    FrugalIsRun(cfg, Init(cfg), run, m, limit);
    RunAggInv(cfg, Init(cfg), run, m);
    FrugalEnd(cfg, Init(cfg), run, m, limit);
  }

  lemma {:induction false} FrugalEnd(cfg: Config, m: State, run: seq<Action>, m': State, limit: nat)
    requires cfg.Lawful() && |m.streams| == cfg.threads && FrugalRun(cfg, m, run, m', limit)
    ensures HoldsAtMost(m', limit)
    decreases |run|
  {
    hide HoldsAtMost, Apply, Enabled;
    if run != [] { FrugalEnd(cfg, Apply(cfg, m, run[0]), run[1..], m', limit); }
  }
}
