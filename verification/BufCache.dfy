/** The recycling cache: one FIFO channel of buffers for every consumer id. */
module BufCache {
  import opened Bytes
  import opened Generator
  import Stream

  /** A channel whose receiver may be gone. */
  class Channel {
    var items: seq<seq<byte>>
    var hasReceiver: bool

    constructor ()
      ensures items == [] && hasReceiver
    {
      items, hasReceiver := [], true;
    }
  }

  /** The receiving end, owned by one worker. */
  class BufCacheCons {
    const rcv: Channel

    constructor (rcv: Channel)
      ensures this.rcv == rcv
    {
      this.rcv := rcv;
    }

    /** The oldest buffer, or a new one, with the wanted length. */
    method Pull(bufLen: nat) returns (buf: seq<byte>)
      modifies rcv`items
      ensures |buf| == bufLen
      ensures var was := if old(rcv.items) == [] then [] else old(rcv.items)[0];
        forall i :: 0 <= i < bufLen ==> buf[i] == if i < |was| then was[i] else 0
      ensures old(rcv.items) == [] ==> buf == seq(bufLen, i => 0) && rcv.items == []
      ensures old(rcv.items) != [] ==> buf == Resize(old(rcv.items)[0], bufLen) && rcv.items == old(rcv.items)[1..]
    {
      buf := [];
      if rcv.items != [] {
        buf := rcv.items[0];
        rcv.items := rcv.items[1..];
      }
      if |buf| != bufLen {
        buf := Resize(buf, bufLen);
      }
    }

    /** The worker has returned: what is pushed from now on is lost. */
    method Release()
      modifies rcv`hasReceiver
      ensures !rcv.hasReceiver && rcv.items == old(rcv.items)
    {
      rcv.hasReceiver := false;
    }
  }

  class BufCache {
    var snd: map<nat, Channel>

    ghost predicate Valid()
      reads this
    {
      forall i, j :: i in snd && j in snd && i != j ==> snd[i] != snd[j]
    }

    constructor ()
      ensures Valid() && snd == map[]
    {
      snd := map[];
    }

    /** A new, empty channel takes the place of the consumer's old one. */
    method NewConsumer(consId: nat) returns (cons: BufCacheCons)
      requires Valid()
      modifies this
      ensures Valid() && fresh(cons) && fresh(cons.rcv) && snd == old(snd)[consId := cons.rcv]
      ensures cons.rcv.items == [] && cons.rcv.hasReceiver
    {
      var channel := new Channel();
      snd := snd[consId := channel];
      cons := new BufCacheCons(channel);
    }

    /** Pushing to a consumer that does not exist panics: `ok` is false. A buffer for a consumer
        whose worker has returned is lost. No other consumer notices. */
    method Push(consId: nat, buf: seq<byte>) returns (ok: bool)
      requires Valid()
      modifies if consId in snd then {snd[consId]} else {}
      ensures ok <==> consId in snd
      ensures ok ==> snd[consId].items == old(snd[consId].items) + if snd[consId].hasReceiver then [buf] else []
      ensures ok ==> snd[consId].hasReceiver == old(snd[consId].hasReceiver)
      ensures forall id :: id in snd && id != consId ==> snd[id].items == old(snd[id].items)
    {
      if consId !in snd { return false; }
      var channel := snd[consId];
      if channel.hasReceiver {
        channel.items := channel.items + [buf];
      }
      ok := true;
    }
  }

  // ---- The same cache, as the step relation of a stream sees it ----

  /** A channel stands for the cache of a stream. */
  ghost predicate Stands(c: Channel, s: Stream.State)
    reads c
  {
    c.items == s.cache && (c.hasReceiver <==> !s.worker.pc.WExit? && !s.worker.pc.WPanic?)
  }

  /** What Pull does is what the worker's step of the stream does. */
  method PullIsStep(cfg: Config, t: nat, cons: BufCacheCons, s: Stream.State) returns (buf: seq<byte>)
    requires cfg.Lawful() && Stands(cons.rcv, s) && s.worker.pc.WPull?
    modifies cons.rcv`items
    ensures Stands(cons.rcv, Stream.Work(cfg, t, s)) && buf == Stream.Work(cfg, t, s).worker.buf
  {
    buf := cons.Pull(cfg.ChunkSize());
  }

  /** The start of a worker makes a channel for it, as its stream's start step does. */
  method NewConsumerIsStep(cfg: Config, cache: BufCache, id: nat, s: Stream.State) returns (cons: BufCacheCons)
    requires cfg.Lawful() && cache.Valid() && s.own.cpc.CStart?
    modifies cache
    ensures cache.Valid() && id in cache.snd && cache.snd[id] == cons.rcv
    ensures Stands(cons.rcv, Stream.Consume(cfg, s))
  {
    cons := cache.NewConsumer(id);
  }

  /** When a worker returns, the receiver goes with it: that is the step of the stream in which the
      worker exits. */
  method ReleaseIsStep(cfg: Config, t: nat, cons: BufCacheCons, s: Stream.State)
    requires cfg.Lawful() && Stands(cons.rcv, s) && cons.rcv.hasReceiver
    requires var s' := Stream.Work(cfg, t, s); s'.worker.pc.WExit? || s'.worker.pc.WPanic?
    modifies cons.rcv`hasReceiver
    ensures Stands(cons.rcv, Stream.Work(cfg, t, s))
  {
    cons.Release();
  }

  /** What Push does is what a push to the stream does. */
  method PushIsStep(cache: BufCache, id: nat, buf: seq<byte>, s: Stream.State) returns (ok: bool)
    requires cache.Valid() && id in cache.snd && Stands(cache.snd[id], s)
    modifies cache.snd[id]
    ensures ok && Stands(cache.snd[id], Stream.Push(s, buf))
  {
    ok := cache.Push(id, buf);
  }

  /** Buffers come back in the order in which they were pushed, each with the wanted length. */
  method PushAllPullAll(cache: BufCache, id: nat, bufs: seq<seq<byte>>, len: nat) returns (r: seq<seq<byte>>)
    requires cache.Valid()
    modifies cache
    ensures |r| == |bufs| && forall k :: 0 <= k < |r| ==> r[k] == Resize(bufs[k], len)
  {
    var cons := cache.NewConsumer(id);
    for k := 0 to |bufs|
      invariant cache.Valid() && id in cache.snd && cache.snd[id] == cons.rcv
      invariant cons.rcv.hasReceiver && cons.rcv.items == bufs[..k]
      modifies cons.rcv
    {
      var ok := cache.Push(id, bufs[k]);
    }
    r := [];
    for k := 0 to |bufs|
      invariant cons.rcv.items == bufs[k..]
      invariant |r| == k && forall j :: 0 <= j < k ==> r[j] == Resize(bufs[j], len)
      modifies cons.rcv
    {
      var buf := cons.Pull(len);
      r := r + [buf];
    }
  }
}
