/** Write mode and verify mode. */
module Disktest {
  import opened Arithmetic
  import opened Bytes
  import opened Generator
  import opened Interleave
  import opened Device
  import opened DiskStream
  import opened DisktestFile
  import opened StreamAgg
  import opened Allocation
  import opened StreamProgress

  const UNLIMITED: u64 := U64_MAX
  const DEFAULT_SECTOR_SIZE: u64 := 512

  /** Why a call stopped early. Hung stands for a call that never returns. */
  datatype Failure = SectorMismatch | SeekFailed | OutOfSpace | IoFailure | Aborted | Hung

  datatype InitResult = Ready(chunkSize: u64) | NotReady(why: Failure)
  datatype WriteResult = Written(count: u64) | WriteFailed(why: Failure)
  datatype VerifyResult = Verified(count: u64) | Mismatch(pos: u64) | VerifyFailed(why: Failure)

  /** n bytes, rounded down to whole chunks. */
  function WholeChunks(cfg: Config, n: nat): nat
    requires cfg.Lawful() && Sized(cfg)
  {
    DivAtMost(n, cfg.ChunkSize());
    MulNat(n / cfg.ChunkSize(), cfg.ChunkSize());
    (n / cfg.ChunkSize()) * cfg.ChunkSize()
  }

  lemma WholeChunksIs(cfg: Config, k: nat, n: nat)
    requires cfg.Lawful() && Sized(cfg) && k * cfg.ChunkSize() <= n < k * cfg.ChunkSize() + cfg.ChunkSize()
    ensures WholeChunks(cfg, n) == k * cfg.ChunkSize()
  {
    DivModUnique(n, cfg.ChunkSize(), k, n - k * cfg.ChunkSize());
  }

  /** Where a call with this seek starts: the seek, rounded down to a chunk boundary. */
  function Start(cfg: Config, seek: u64): nat
    requires cfg.Lawful() && Sized(cfg)
  {
    WholeChunks(cfg, seek as nat)
  }

  /** How the write loop ends. */
  datatype WriteEnd = AllWritten | DeviceFull | DeviceError | AbortRequested

  /** How the verify loop ends. */
  datatype VerifyEnd = AllVerified | EndOfDevice | Differs(pos: u64) | ReadError | AbortSeen

  /** There is a reason for a failure: a sector size that does not divide the chunk size, an I/O
      error, a full device, the abort flag, a worker that cannot be joined. */
  predicate Reason(cfg: Config, sectorSize: Option<u64>, failed: bool, full: bool, aborted: bool, stuck: bool,
                   why: Failure)
  {
    match why
    case SectorMismatch =>
      cfg.ChunkSize() % 512 != 0 ||
      (sectorSize.Some? && sectorSize.value > 0 && cfg.ChunkSize() % sectorSize.value as nat != 0)
    case SeekFailed => failed
    case OutOfSpace => full
    case IoFailure => failed
    case Aborted => aborted
    case Hung => stuck
  }

  /** The same of a device that had counted `errors` and `fulls` before. */
  ghost predicate Caused(cfg: Config, disk: Disk, errors: nat, fulls: nat, aborted: bool, stuck: bool, why: Failure)
    reads disk
  {
    Reason(cfg, disk.sectorSize, disk.errors > errors, disk.fulls > fulls, aborted, stuck, why)
  }

  /** One of several writes has come to a right end: a success has written all, or else filled the
      device without a limit; a failure has a reason. */
  predicate Justified(cfg: Config, sectorSize: Option<u64>, failed: bool, full: bool, aborted: bool,
                      maxBytes: u64, r: WriteResult)
  {
    match r
    case Written(count) => count == maxBytes || (maxBytes == UNLIMITED && full)
    case WriteFailed(why) => why == Hung || Reason(cfg, sectorSize, failed, full, aborted, false, why)
  }

  /** A reason since later is a reason since earlier. */
  lemma CausedSince(cfg: Config, disk: Disk, errors0: nat, fulls0: nat, aborted0: bool,
                    errors: nat, fulls: nat, aborted: bool, stuck: bool, why: Failure)
    requires Caused(cfg, disk, errors, fulls, aborted, stuck, why) && why != Hung
    requires errors0 <= errors && fulls0 <= fulls && (aborted ==> aborted0)
    ensures Caused(cfg, disk, errors0, fulls0, aborted0, false, why)
  {
  }

  /** At the end of a successful write: a sync, and then the close of the handle, which drops the
      caches of what has been stored from `start` on. `exact` if of nothing else. */
  predicate Flushed(log: seq<Entry>, start: nat, stored: nat, exact: bool) {
    && |log| >= 2 && log[|log| - 2] == Synced(true)
    && match log[|log| - 1]
       case Dropped(offset, count, ok) => ok && offset == start && count >= stored && (exact ==> count == stored)
       case Closed(ok) => ok && stored == 0
       case Synced(_) => false
  }

  /** At the end of any write: the sync has failed, and the handle is still open, or the handle has
      been closed after it. */
  predicate FlushTried(log: seq<Entry>, isOpen: bool) {
    && log != []
    && if isOpen then log[|log| - 1] == Synced(false)
       else |log| >= 2 && log[|log| - 2] == Synced(true) && !log[|log| - 1].Synced?
  }

  /** At the end of any verification the handle has been closed; successfully, if `mustSucceed`. */
  predicate LastClosed(log: seq<Entry>, mustSucceed: bool) {
    log != [] && log[|log| - 1].Closed? && (mustSucceed ==> log[|log| - 1].ok)
  }

  /** The call failed before its first chunk. */
  predicate NeverBegun(why: Failure) {
    why.SectorMismatch? || why.SeekFailed? || why.Hung?
  }

  lemma JustifiedStill(cfg: Config, sectorSize: Option<u64>, failed: bool, full: bool, aborted: bool,
                       failed': bool, full': bool, aborted': bool, maxBytes: u64, r: WriteResult)
    requires Justified(cfg, sectorSize, failed, full, aborted, maxBytes, r)
    requires (failed ==> failed') && (full ==> full') && (aborted ==> aborted')
    ensures Justified(cfg, sectorSize, failed', full', aborted', maxBytes, r)
  {
  }

  class Disktest {
    const agg: DtStreamAgg
    /** What look number k at the user's abort flag finds; the user may set the flag at any time. */
    const flag: nat -> bool
    /** How often the flag has been looked at. */
    var looks: nat

    constructor (cfg: Config, flag: nat -> bool)
      requires cfg.Lawful() && Sized(cfg)
      ensures Idle() && agg.cfg == cfg && fresh(agg) && Startable() && this.flag == flag && looks == 0
    {
      agg := new DtStreamAgg(cfg);
      this.flag, looks := flag, 0;
    }

    method CheckAbort() returns (abort: bool)
      modifies this`looks
      ensures looks == old(looks) + 1 && abort == flag(old(looks))
      ensures forall from: nat :: old(Obeyed(from, false)) ==> Obeyed(from, abort)
    {
      abort := flag(looks);
      looks := looks + 1;
    }

    /** A look since number `from` has found the flag set. */
    ghost predicate AbortSeenSince(from: nat)
      reads this
    {
      exists k :: from <= k < looks && flag(k)
    }

    /** The flag has been obeyed since look number `from`: no look has found it set but the last
        one, and that one exactly if the call has been aborted. */
    ghost predicate Obeyed(from: nat, aborted: bool)
      reads this
    {
      && from + (if aborted then 1 else 0) <= looks
      && forall k :: from <= k < looks ==> (flag(k) <==> aborted && k == looks - 1)
    }

    lemma NotLooked()
      ensures Obeyed(looks, false) && !AbortSeenSince(looks)
    {
    }

    lemma ObeyedFacts(from: nat, aborted: bool)
      requires Obeyed(from, aborted)
      ensures from <= looks && (aborted <==> AbortSeenSince(from))
    {
      if aborted { assert flag(looks - 1); }
    }

    /** A worker that is being joined will never return. */
    ghost predicate Stuck()
      reads agg
    {
      agg.m.call.Sweeping? && agg.m.call.i < |agg.m.streams| && Doomed(agg.m.streams[agg.m.call.i])
    }

    /** Every stream can be stopped, whatever its worker does. So it is for a new Disktest, which
        has no workers yet. */
    ghost predicate Startable()
      reads agg
    {
      agg.AllStoppable(0)
    }

    /** No call is in progress and no chunk is held. */
    ghost predicate Idle()
      reads agg
    {
      agg.Valid() && |agg.m.streams| == agg.cfg.threads && agg.m.held == []
    }

    /** A call is in progress: n bytes from position `start` are done, in whole chunks, and the
        next chunk of the stream is due. */
    ghost predicate InCall(start: nat, n: nat)
      reads agg
    {
      && agg.ReadyToGet()
      && start == agg.m.first * agg.cfg.ChunkSize()
      && n == |agg.m.out| * agg.cfg.ChunkSize()
    }

    /** There is a reason for a failure of this Disktest since the counters stood as given. */
    ghost predicate Excused(disk: Disk, errors: nat, fulls: nat, looks0: nat, why: Failure)
      reads this, agg, disk
    {
      Caused(agg.cfg, disk, errors, fulls, AbortSeenSince(looks0), Stuck(), why)
    }

    /** A call fails because of the sector size exactly if it does not divide the chunk size: 512 if
        the medium has none of its own, else that of the medium, provided that no error kept it from
        being found out. */
    ghost predicate NoMatch(file: File, errors: nat, mismatch: bool)
      requires file.disk.Valid()
      reads file.disk
    {
      match file.disk.sectorSize
      case None => mismatch <==> agg.cfg.ChunkSize() % 512 != 0
      case Some(size) => file.disk.errors == errors ==> (mismatch <==> agg.cfg.ChunkSize() % size as nat != 0)
    }

    method Init(file: File, seek: u64) returns (r: InitResult)
      requires Idle() && file.disk.Valid()
      modifies agg, file, file.disk`pos, file.disk`log, file.disk`errors
      ensures NoMatch(file, old(file.disk.errors), r == NotReady(SectorMismatch))
      ensures r.Ready? ==> file.disk.errors <= old(file.disk.errors) + if old(file.isOpen) then 0 else 1
      ensures r.Ready? ==> InCall(Start(agg.cfg, seek), 0) && r.chunkSize as nat == agg.cfg.ChunkSize()
      ensures r.Ready? ==> file.isOpen && file.dropCount == 0
      ensures r.Ready? ==> file.disk.pos == file.dropOffset == Start(agg.cfg, seek)
      ensures r.NotReady? ==> r.why.SectorMismatch? || r.why.SeekFailed? || r.why.Hung?
      ensures r.NotReady? ==> Excused(file.disk, old(file.disk.errors), old(file.disk.fulls), old(looks), r.why)
      ensures old(file.disk.errors) <= file.disk.errors
      ensures r == NotReady(SectorMismatch) ==> agg.m == old(agg.m)
      ensures r == NotReady(Hung) || Idle()
      ensures old(Startable()) ==> r != NotReady(Hung)
    {
      var hasFile := file.DoOpen();
      var sectorSize :=
        if hasFile && file.disk.sectorSize.Some? then file.disk.sectorSize.value else DEFAULT_SECTOR_SIZE;
      var a := agg.Activate(seek, sectorSize);
      match a
      case BadSector => r := NotReady(SectorMismatch);
      case Blocked => r := NotReady(Hung);
      case Activated(offset, chunkSize) =>
        var ok;
        ghost var flushed;
        ok, flushed := file.Seek(offset as nat);
        r := if ok then Ready(chunkSize) else NotReady(SeekFailed);
    }

    /** Sync, then close: the caches of what has been written are dropped. If the sync fails, the
        handle stays open. */
    method WriteFinalize(file: File) returns (ok: bool)
      requires file.isOpen
      modifies file, file.disk`log, file.disk`errors
      ensures file.disk.errors == old(file.disk.errors) + if ok then 0 else 1
      ensures if file.isOpen then !ok && file.disk.log == old(file.disk.log) + [Synced(false)]
              else file.disk.log == old(file.disk.log) +
                   [Synced(true), File.CloseEntry(old(file.dropOffset), old(file.dropCount), ok)]
    {
      ok := file.Sync();
      if ok { ok := file.Close(); }
    }

    /** The chunk that is due is in the consumer's hands. */
    ghost predicate Holding(start: nat, n: nat)
      reads agg
    {
      && agg.Valid() && |agg.m.streams| == agg.cfg.threads && agg.m.isActive && |agg.m.held| == 1
      && start == agg.m.first * agg.cfg.ChunkSize()
      && n == |agg.m.out| * agg.cfg.ChunkSize()
    }

    /** Wait for the chunk that is due and look at its first `len` bytes. */
    method NextSlice(ghost start: nat, ghost done: nat, len: nat) returns (data: seq<byte>)
      requires InCall(start, done) && len <= agg.cfg.ChunkSize()
      modifies agg
      ensures Holding(start, done + agg.cfg.ChunkSize())
      ensures data == StreamBytes(agg.cfg, start + done, len)
    {
      hide FrugalRun, Config.Lawful, GlobalChunk, Global, Config.ChunkSize;
      var chunk := agg.WaitChunk();
      ghost var cfg, g := agg.cfg, old(agg.m.Next());
      Distribute(old(agg.m.first), |old(agg.m.out)|, cfg.ChunkSize());
      Distribute(|old(agg.m.out)|, 1, cfg.ChunkSize());
      ChunkPrefix(cfg, g, len);
      data := chunk.data[..len];
    }

    method DropChunk(ghost start: nat, ghost n: nat)
      requires Holding(start, n)
      modifies agg
      ensures InCall(start, n) && Idle()
    {
      hide FrugalRun, Config.Lawful, Config.ChunkSize;
      agg.DropChunk();
    }

    lemma InCallWhole(done: nat, k: nat, n: nat)
      requires agg.cfg.Lawful() && Sized(agg.cfg) && done == k * agg.cfg.ChunkSize()
      ensures WholeChunks(agg.cfg, done) == done
      ensures n < agg.cfg.ChunkSize() ==> WholeChunks(agg.cfg, done + n) == done
    {
      WholeChunksIs(agg.cfg, k, done);
      if n < agg.cfg.ChunkSize() { WholeChunksIs(agg.cfg, k, done + n); }
    }

    /** Write the first `len` bytes of the chunk that is due. */
    method WriteChunk(file: File, ghost start: nat, ghost done: nat, len: u64) returns (r: IoResult, ghost stored: nat)
      requires InCall(start, done) && file.isOpen && file.disk.pos == start + done
      requires len as nat <= agg.cfg.ChunkSize()
      modifies agg, this`looks, file, file.disk`pos, file.disk`content, file.disk`written,
        file.disk`errors, file.disk`fulls, file.disk`goodWrites
      ensures Idle() && InCall(start, done + agg.cfg.ChunkSize())
      ensures file.isOpen && file.dropOffset == old(file.dropOffset) && looks == old(looks)
      ensures file.disk.errors == old(file.disk.errors) + if r.IoError? then 1 else 0
      ensures file.disk.goodWrites == old(file.disk.goodWrites) + if r.IoOk? then 1 else 0
      ensures file.disk.fulls == old(file.disk.fulls) + if r.Enospc? then 1 else 0
      ensures stored <= len as nat && file.disk.pos == start + done + stored
      ensures Laid(agg.cfg, old(file.disk.content), old(file.disk.written), file.disk.content, file.disk.written,
        start + done, stored)
      ensures stored > 0 ==> file.disk.pos <= |file.disk.content|
      ensures r.IoOk? ==> stored == len as nat
      ensures file.disk.fixed ==> |file.disk.content| == |old(file.disk.content)|
      ensures file.disk.fixed && r.Enospc? ==> stored < len as nat
      ensures file.disk.fixed && r.Enospc? ==>
                if start + done <= |file.disk.content| then file.disk.pos == |file.disk.content| else stored == 0
      ensures file.dropCount == old(file.dropCount) + if r.IoError? then 0 else len as nat
      ensures WholeChunks(agg.cfg, done) == done
      ensures stored < agg.cfg.ChunkSize() ==> WholeChunks(agg.cfg, done + stored) == done
    {
      ghost var k := |agg.m.out|;
      hide FrugalRun, Config.Lawful, Config.ChunkSize, Overlay, Range, WholeChunks;
      var data := NextSlice(start, done, len as nat);
      r, stored := file.Write(data);
      StreamPrefix(agg.cfg, start + done, len as nat, stored);
      InCallWhole(done, k, stored);
      DropChunk(start, done + agg.cfg.ChunkSize());
    }

    /** The write loop, up to the point where the write is finalized. */
    method WriteLoop(file: File, ghost start: nat, chunkSize: u64, maxBytes: u64)
      returns (end: WriteEnd, bytesWritten: u64, ghost stored: nat)
      requires InCall(start, 0) && Idle() && chunkSize as nat == agg.cfg.ChunkSize()
      requires file.isOpen && file.disk.pos == start
      modifies agg, this`looks, file, file.disk`pos, file.disk`content, file.disk`written,
        file.disk`errors, file.disk`fulls, file.disk`goodWrites
      ensures Idle()
      ensures Laid(agg.cfg, old(file.disk.content), old(file.disk.written), file.disk.content, file.disk.written,
        start, stored)
      ensures file.isOpen && file.dropOffset == old(file.dropOffset)
      ensures bytesWritten as nat <= stored <= maxBytes as nat && stored <= bytesWritten as nat + agg.cfg.ChunkSize()
      ensures end.AllWritten? ==> bytesWritten == maxBytes
      ensures !end.AllWritten? ==> bytesWritten as nat == WholeChunks(agg.cfg, bytesWritten as nat)
      ensures end.DeviceFull? && maxBytes > 0 ==> bytesWritten < maxBytes
      ensures end.DeviceFull? && file.disk.fixed ==> bytesWritten as nat == WholeChunks(agg.cfg, stored)
      ensures file.disk.goodWrites - old(file.disk.goodWrites) == looks - old(looks) + if end.AllWritten? then 1 else 0
      ensures end.DeviceFull? && file.disk.fixed ==>
                stored == Available(file.disk.content, start, maxBytes as nat) < maxBytes as nat
      ensures file.disk.fulls == old(file.disk.fulls) + if end.DeviceFull? then 1 else 0
      ensures end.DeviceError? <==> file.disk.errors > old(file.disk.errors)
      ensures Obeyed(old(looks), end.AbortRequested?)
      ensures old(file.disk.errors) <= file.disk.errors
      ensures file.dropCount == old(file.dropCount) + stored
              || (end.DeviceFull? && file.dropCount >= old(file.dropCount) + stored)
              || (end.DeviceError? && file.dropCount == old(file.dropCount) + bytesWritten as nat)
    {
      hide FrugalRun, Config.Lawful, Laid, Config.ChunkSize, WholeChunks, Obeyed;
      ghost var cfg, content, written := agg.cfg, file.disk.content, file.disk.written;
      LaidNothing(cfg, content, written, start);
      NotLooked();
      stored := 0;
      bytesWritten := 0;
      var bytesLeft := maxBytes;
      while true
        invariant InCall(start, stored) && file.isOpen && file.disk.pos == start + stored && Idle()
        invariant stored == bytesWritten as nat && bytesWritten as nat + bytesLeft as nat == maxBytes as nat
        invariant Laid(cfg, content, written, file.disk.content, file.disk.written, start, stored)
        invariant stored > 0 ==> bytesLeft > 0 && start + stored <= |file.disk.content|
        invariant Obeyed(old(looks), false)
        invariant file.disk.goodWrites - old(file.disk.goodWrites) == looks - old(looks)
        invariant file.disk.errors == old(file.disk.errors) && file.disk.fulls == old(file.disk.fulls)
        invariant file.dropOffset == old(file.dropOffset) && file.dropCount == old(file.dropCount) + stored
        decreases bytesLeft
      {
        var writeLen := if chunkSize < bytesLeft then chunkSize else bytesLeft;
        var res;
        ghost var n;
        ghost var c1, w1 := file.disk.content, file.disk.written;
        res, n := WriteChunk(file, start, stored, writeLen);
        LaidMore(cfg, content, written, c1, w1, file.disk.content, file.disk.written, start, stored, n);
        stored := stored + n;
        match res {
          case Enospc => end := DeviceFull; return;
          case IoError => end := DeviceError; return;
          case IoOk(_) =>
        }
        bytesWritten := bytesWritten + writeLen;
        bytesLeft := bytesLeft - writeLen;
        if bytesLeft == 0 { end := AllWritten; return; }
        InCallWhole(stored, |agg.m.out|, 0);
        var abort := CheckAbort();
        if abort { end := AbortRequested; return; }
      }
    }

    /** Write the stream from `seek`, rounded down, until `maxBytes` are written or, if that is
        unlimited, the device is full. `stored` bytes are on the device afterwards, whatever the
        outcome, and they are the bytes of the stream that belong there. */
    method Write(file: File, seek: u64, maxBytes: u64) returns (r: WriteResult, ghost stored: nat)
      requires Idle() && file.disk.Valid()
      modifies agg, this`looks, file, file.disk
      ensures Laid(agg.cfg, old(file.disk.content), old(file.disk.written), file.disk.content, file.disk.written,
        Start(agg.cfg, seek), stored)
      ensures r.Written? ==> r.count as nat <= stored <= Min(maxBytes as nat, r.count as nat + agg.cfg.ChunkSize())
      ensures r.Written? && r.count != maxBytes ==> file.disk.fulls > old(file.disk.fulls)
      ensures r == WriteFailed(OutOfSpace) ==> file.disk.fulls > old(file.disk.fulls)
      ensures r.Written? && maxBytes as nat < 0xFFFF_FFFF_FFFF_FFFF ==> r.count == maxBytes
      ensures r.Written? && r.count != maxBytes && file.disk.fixed ==>
        stored == Available(file.disk.content, Start(agg.cfg, seek), maxBytes as nat)
      ensures r.Written? && r.count != maxBytes ==> r.count as nat == WholeChunks(agg.cfg, r.count as nat)
      ensures r.Written? && r.count != maxBytes && file.disk.fixed ==>
        r.count as nat == WholeChunks(agg.cfg, Available(file.disk.content, Start(agg.cfg, seek), maxBytes as nat))
      ensures r.Written? ==> Flushed(file.disk.log, Start(agg.cfg, seek), stored, maxBytes != UNLIMITED)
      ensures !(r.WriteFailed? && NeverBegun(r.why)) ==> FlushTried(file.disk.log, file.isOpen)
      ensures r.Written? ==> file.disk.errors <= old(file.disk.errors) + if old(file.isOpen) then 0 else 1
      ensures r.Written? ==>
        file.disk.goodWrites - old(file.disk.goodWrites) == looks - old(looks) + if r.count == maxBytes then 1 else 0
      ensures r == WriteFailed(Aborted) || r == WriteFailed(OutOfSpace) ==>
        file.disk.goodWrites - old(file.disk.goodWrites) == looks - old(looks)
      ensures Obeyed(old(looks), r == WriteFailed(Aborted))
      ensures NoMatch(file, old(file.disk.errors), r == WriteFailed(SectorMismatch))
      ensures r == WriteFailed(OutOfSpace) ==> maxBytes != UNLIMITED
      ensures r == WriteFailed(OutOfSpace) && file.disk.fixed ==>
        Available(file.disk.content, Start(agg.cfg, seek), maxBytes as nat) < maxBytes as nat
      ensures file.disk.goodReads == old(file.disk.goodReads)
      ensures r.WriteFailed? ==> Excused(file.disk, old(file.disk.errors), old(file.disk.fulls), old(looks), r.why)
      ensures old(file.disk.errors) <= file.disk.errors && old(file.disk.fulls) <= file.disk.fulls
      ensures r == WriteFailed(Hung) || Idle()
      ensures old(Startable()) ==> r != WriteFailed(Hung)
      ensures old(Startable()) && r == WriteFailed(SectorMismatch) ==> Startable()
    {
      hide FrugalRun, Config.Lawful, Laid, Config.ChunkSize, WholeChunks, Obeyed, AbortSeenSince;
      stored := 0;
      NotLooked();
      LaidNothing(agg.cfg, file.disk.content, file.disk.written, Start(agg.cfg, seek));
      var init := Init(file, seek);
      if init.NotReady? { return WriteFailed(init.why), 0; }
      var end, bytesWritten;
      end, bytesWritten, stored := WriteLoop(file, Start(agg.cfg, seek), init.chunkSize, maxBytes);
      ObeyedFacts(old(looks), end.AbortRequested?);
      var ok := WriteFinalize(file);
      r := match end
           case AllWritten => if ok then Written(bytesWritten) else WriteFailed(IoFailure)
           case DeviceFull =>
             if maxBytes != UNLIMITED then WriteFailed(OutOfSpace)
             else if ok then Written(bytesWritten) else WriteFailed(IoFailure)
           case DeviceError => WriteFailed(IoFailure)
           case AbortRequested => WriteFailed(Aborted);
    }

    method VerifyFinalize(file: File) returns (ok: bool)
      requires file.isOpen && file.dropCount == 0
      modifies file, file.disk`log, file.disk`errors
      ensures file.disk.errors == old(file.disk.errors) + if ok then 0 else 1
      ensures !file.isOpen && file.disk.log == old(file.disk.log) + [Closed(ok)]
    {
      ok := file.Close();
    }

    /** Find the first of `count` bytes that differs; there is one. */
    method FindMismatch(buffer: array<byte>, count: nat, expected: seq<byte>, bytesRead: u64) returns (pos: u64)
      requires count <= buffer.Length && count == |expected| && buffer[..count] != expected
      requires bytesRead as nat + count <= U64_MAX as nat
      ensures bytesRead <= pos && pos as nat - bytesRead as nat < count
      ensures var i := pos as nat - bytesRead as nat;
        buffer[i] != expected[i] && buffer[..i] == expected[..i]
    {
      pos := bytesRead;
      for i := 0 to count
        invariant pos as nat == bytesRead as nat + i
        invariant buffer[..i] == expected[..i]
      {
        if buffer[i] != expected[i] { return; }
        pos := pos + 1;
      }
      assert false;
    }

    /** Compare the first `count` buffered bytes with the stream. Result: the first difference. */
    method Compare(ghost content: seq<byte>, ghost start: nat, ghost done: nat, buffer: array<byte>, count: nat,
                   bytesRead: u64)
      returns (bad: Option<u64>)
      requires InCall(start, done) && done == bytesRead as nat && count <= agg.cfg.ChunkSize() && count <= buffer.Length
      requires Buffered(agg.cfg, content, start, done, buffer[..], count)
      requires bytesRead as nat + count <= U64_MAX as nat
      modifies agg
      ensures InCall(start, done + agg.cfg.ChunkSize()) && Idle()
      ensures bad.None? && count > 0 ==> Agrees(agg.cfg, content, start, done + count)
      ensures bad.Some? ==>
        FirstDifference(agg.cfg, content, start, bad.value as nat) && bad.value as nat < done + count
    {
      hide FrugalRun, Config.Lawful, Config.ChunkSize, Agrees, Buffered, FirstDifference;
      var expected := NextSlice(start, done, count);
      bad := None;
      if buffer[..count] != expected {
        var pos := FindMismatch(buffer, count, expected, bytesRead);
        bad := Some(pos);
        BufferedDiffers(agg.cfg, content, start, done, buffer[..], count, pos as nat - done);
      } else if count > 0 {
        BufferedAgrees(agg.cfg, content, start, done, buffer[..], count);
      }
      DropChunk(start, done + agg.cfg.ChunkSize());
    }

    lemma InCallFacts(start: nat, n: nat)
      requires InCall(start, n)
      ensures agg.cfg.Lawful() && agg.cfg.ChunkSize() > 0
    {
      hide FrugalRun, Config.Lawful;
    }

    /** Compare what is in the buffer, and account for it if it agrees. */
    method Account(ghost content: seq<byte>, ghost start: nat, buffer: array<byte>, count: nat,
                   bytesRead: u64, bytesLeft: u64)
      returns (bad: Option<u64>, bytesRead': u64, bytesLeft': u64)
      requires InCall(start, bytesRead as nat) && count <= agg.cfg.ChunkSize() && count <= buffer.Length
      requires Buffered(agg.cfg, content, start, bytesRead as nat, buffer[..], count)
      requires count <= bytesLeft as nat && bytesRead as nat + bytesLeft as nat <= U64_MAX as nat
      modifies agg
      ensures InCall(start, bytesRead as nat + agg.cfg.ChunkSize()) && Idle()
      ensures bad.Some? ==>
        FirstDifference(agg.cfg, content, start, bad.value as nat) && bad.value as nat < bytesRead as nat + count
      ensures bad.None? ==> bytesRead' as nat == bytesRead as nat + count
      ensures bad.None? ==> bytesLeft' as nat + count == bytesLeft as nat
      ensures bad.None? ==> Buffered(agg.cfg, content, start, bytesRead' as nat, buffer[..], 0)
      ensures bad.None? && bytesRead' > 0 ==>
        Agrees(agg.cfg, content, start, bytesRead' as nat) && start + bytesRead' as nat <= |content|
    {
      hide FrugalRun, Config.Lawful, Config.ChunkSize, Agrees, FirstDifference, Buffered, InCall, Idle;
      InCallFacts(start, bytesRead as nat);
      BufferedFits(agg.cfg, content, start, bytesRead as nat, buffer[..], count);
      bytesRead', bytesLeft' := bytesRead, bytesLeft;
      bad := Compare(content, start, bytesRead as nat, buffer, count, bytesRead);
      if bad.None? {
        bytesRead' := bytesRead + count as u64;
        bytesLeft' := bytesLeft - count as u64;
        BufferedNothing(agg.cfg, content, start, bytesRead' as nat, buffer[..]);
        BufferedFits(agg.cfg, content, start, bytesRead' as nat, buffer[..], 0);
      }
    }

    /** Fill up the read buffer with one, possibly short, read. */
    method ReadMore(file: File, ghost start: nat, ghost done: nat, buffer: array<byte>, count: nat, len: nat)
      returns (r: IoResult)
      requires agg.cfg.Lawful() && file.isOpen && file.disk.pos == start + done + count
      requires count <= len <= buffer.Length && Buffered(agg.cfg, file.disk.content, start, done, buffer[..], count)
      modifies file, file.disk`pos, file.disk`errors, file.disk`goodReads, buffer
      ensures r.IoOk? || r.IoError?
      ensures file.disk.errors == old(file.disk.errors) + if r.IoError? then 1 else 0
      ensures file.disk.goodReads == old(file.disk.goodReads) + if r.IoOk? then 1 else 0
      ensures file.isOpen && file.dropCount == old(file.dropCount)
      ensures r.IoOk? ==> r.count <= len - count && file.disk.pos == start + done + count + r.count
      ensures r.IoOk? ==> (r.count == 0 <==> count == len || start + done + count >= |file.disk.content|)
      ensures r.IoOk? && r.count > 0 ==> file.disk.pos <= |file.disk.content|
      ensures r.IoOk? ==> Buffered(agg.cfg, file.disk.content, start, done, buffer[..], count + r.count)
    {
      hide Config.Lawful, Agrees;
      ghost var before, p := buffer[..count], file.disk.pos;
      r := file.Read(buffer, count, len);
      assert buffer[..count] == before;
      if r.IoOk? && r.count > 0 {
        assert buffer[..count + r.count] == buffer[..count] + buffer[count..count + r.count];
      }
    }

    /** The verify loop, up to the point where the verification is finalized. */
    method VerifyLoop(file: File, ghost start: nat, readbufLen: u64, maxBytes: u64)
      returns (end: VerifyEnd, bytesRead: u64)
      requires InCall(start, 0) && Idle() && readbufLen as nat == agg.cfg.ChunkSize()
      requires file.isOpen && file.disk.pos == start
      modifies agg, this`looks, file, file.disk`pos, file.disk`errors, file.disk`goodReads
      ensures Idle() && file.isOpen && file.dropCount == old(file.dropCount)
      ensures file.disk.goodReads - old(file.disk.goodReads) ==
              looks - old(looks) + if end.ReadError? || end.AbortSeen? then 0 else 1
      ensures end.ReadError? <==> file.disk.errors > old(file.disk.errors)
      ensures Obeyed(old(looks), end.AbortSeen?)
      ensures old(file.disk.errors) <= file.disk.errors
      ensures end.AllVerified? || end.EndOfDevice? ==>
        bytesRead as nat == Available(file.disk.content, start, maxBytes as nat) &&
        (bytesRead > 0 ==> Agrees(agg.cfg, file.disk.content, start, bytesRead as nat))
      ensures end.Differs? ==> FirstDifference(agg.cfg, file.disk.content, start, end.pos as nat) && end.pos < maxBytes
    {
      hide FrugalRun, Config.Lawful, Config.ChunkSize, Agrees, FirstDifference, Buffered, InCall, Idle, Obeyed;
      InCallFacts(start, 0);
      NotLooked();
      ghost var content := file.disk.content;
      var buffer := new byte[readbufLen as nat](i => 0);
      var bytesLeft := maxBytes;
      bytesRead := 0;
      var readCount: nat := 0;
      var readLen := if readbufLen < bytesLeft then readbufLen else bytesLeft;
      BufferedNothing(agg.cfg, content, start, 0, buffer[..]);
      while true
        invariant InCall(start, bytesRead as nat) && Idle() && file.isOpen && file.dropCount == old(file.dropCount)
        invariant file.disk.goodReads - old(file.disk.goodReads) == looks - old(looks)
        invariant Obeyed(old(looks), false) && file.disk.errors == old(file.disk.errors)
        invariant file.disk.pos == start + bytesRead as nat + readCount
        invariant bytesRead as nat + bytesLeft as nat == maxBytes as nat
        invariant readLen == if readbufLen < bytesLeft then readbufLen else bytesLeft
        invariant readCount < readLen as nat || (maxBytes == 0 && bytesLeft == 0 && readCount == 0)
        invariant Buffered(agg.cfg, content, start, bytesRead as nat, buffer[..], readCount)
        decreases if file.disk.pos <= |content| then |content| - file.disk.pos else 0
      {
        BufferedFits(agg.cfg, content, start, bytesRead as nat, buffer[..], readCount);
        var r := ReadMore(file, start, bytesRead as nat, buffer, readCount, readLen as nat);
        if r.IoError? { end := ReadError; return; }
        var n := r.count;
        readCount := readCount + n;
        if readCount == readLen as nat || (readCount > 0 && n == 0) {
          var bad;
          bad, bytesRead, bytesLeft := Account(content, start, buffer, readCount, bytesRead, bytesLeft);
          if bad.Some? { end := Differs(bad.value); return; }
          if bytesLeft == 0 { end := AllVerified; return; }
          readCount := 0;
          readLen := if readbufLen < bytesLeft then readbufLen else bytesLeft;
        }
        if n == 0 { end := EndOfDevice; return; }
        var abort := CheckAbort();
        if abort { end := AbortSeen; return; }
      }
    }

    /** Verify the device from `seek`, rounded down, until `maxBytes` are verified or the device
        ends. The verdict is exact, whatever the device holds and however its reads are cut
        short. */
    method Verify(file: File, seek: u64, maxBytes: u64) returns (r: VerifyResult)
      requires Idle() && file.disk.Valid()
      modifies agg, this`looks, file, file.disk`pos, file.disk`log, file.disk`errors, file.disk`goodReads
      ensures var start := Start(agg.cfg, seek); var n := Available(file.disk.content, start, maxBytes as nat);
        && (r.Verified? ==> r.count as nat == n)
        && (r.Mismatch? ==> r.pos as nat < n && FirstDifference(agg.cfg, file.disk.content, start, r.pos as nat))
        && (r.Verified? || r.Mismatch? ==> (r.Verified? <==> n == 0 || Agrees(agg.cfg, file.disk.content, start, n)))
      ensures r.VerifyFailed? ==>
        !r.why.OutOfSpace? && Excused(file.disk, old(file.disk.errors), old(file.disk.fulls), old(looks), r.why)
      ensures r.Verified? || r.Mismatch? ==>
        file.disk.goodReads - old(file.disk.goodReads) == looks - old(looks) + 1
      ensures r == VerifyFailed(Aborted) ==> file.disk.goodReads - old(file.disk.goodReads) == looks - old(looks)
      ensures Obeyed(old(looks), r == VerifyFailed(Aborted))
      ensures !(r.VerifyFailed? && NeverBegun(r.why)) ==> !file.isOpen && LastClosed(file.disk.log, r.Verified?)
      ensures r.Verified? ==> file.disk.errors <= old(file.disk.errors) + if old(file.isOpen) then 0 else 1
      ensures NoMatch(file, old(file.disk.errors), r == VerifyFailed(SectorMismatch))
      ensures r == VerifyFailed(Hung) || Idle()
      ensures old(Startable()) ==> r != VerifyFailed(Hung)
      ensures old(Startable()) && r == VerifyFailed(SectorMismatch) ==> Startable()
    {
      hide FrugalRun, Config.Lawful, Config.ChunkSize, Global, StreamBytes, Obeyed, AbortSeenSince;
      NotLooked();
      var init := Init(file, seek);
      if init.NotReady? { return VerifyFailed(init.why); }
      var end, bytesRead := VerifyLoop(file, Start(agg.cfg, seek), init.chunkSize, maxBytes);
      ObeyedFacts(old(looks), end.AbortSeen?);
      var ok := VerifyFinalize(file);
      match end
      case AllVerified => r := if ok then Verified(bytesRead) else VerifyFailed(IoFailure);
      case EndOfDevice => r := if ok then Verified(bytesRead) else VerifyFailed(IoFailure);
      case Differs(pos) =>
        DifferenceDisagrees(agg.cfg, file.disk.content, Start(agg.cfg, seek), pos as nat, maxBytes as nat);
        r := Mismatch(pos);
      case ReadError => r := VerifyFailed(IoFailure);
      case AbortSeen => r := VerifyFailed(Aborted);
    }

    /** The Disktest goes out of scope: all workers are stopped and joined. `blocked` stands for a
        join that never returns. */
    method Shutdown() returns (blocked: bool)
      requires Idle()
      modifies agg
      ensures blocked ==> Stuck()
      ensures !blocked ==> agg.m.call.Gone?
      ensures old(Startable()) ==> !blocked
    {
      hide FrugalRun, DtStreamAgg.AllStoppable, Doomed;
      blocked := agg.Shutdown();
    }

    /** A write through a handle of its own. */
    method WriteOne(disk: Disk, seek: u64, maxBytes: u64) returns (r: WriteResult)
      requires Idle() && disk.Valid() && HoldsStream(agg.cfg, disk.content, disk.written)
      modifies agg, this`looks, disk
      ensures HoldsStream(agg.cfg, disk.content, disk.written) && old(disk.written) <= disk.written
      ensures r.Written? ==> Range(Start(agg.cfg, seek), r.count as nat) <= disk.written
      ensures r == WriteFailed(Hung) || Idle()
      ensures old(looks) <= looks && old(disk.errors) <= disk.errors && old(disk.fulls) <= disk.fulls
      ensures Justified(agg.cfg, disk.sectorSize, disk.errors > old(disk.errors), disk.fulls > old(disk.fulls),
                        AbortSeenSince(old(looks)), maxBytes, r)
    {
      hide FrugalRun, Config.Lawful, Config.ChunkSize, Laid, HoldsStream, Start, Flushed, FlushTried, AbortSeenSince;
      var file := new File(disk);
      ghost var c0, w0 := disk.content, disk.written;
      ghost var stored;
      r, stored := Write(file, seek, maxBytes);
      LaidKeeps(agg.cfg, c0, w0, disk.content, disk.written, Start(agg.cfg, seek), stored);
    }

    /** Any sequence of writes with this Disktest, at any seeks, overlapping or not, successful or
        not, leaves every position ever written with the byte of the stream that belongs there;
        and what a write reports as written has been written. */
    method WriteMany(disk: Disk, calls: seq<(u64, u64)>) returns (results: seq<WriteResult>)
      requires Idle() && disk.Valid() && HoldsStream(agg.cfg, disk.content, disk.written)
      modifies agg, this`looks, disk
      ensures HoldsStream(agg.cfg, disk.content, disk.written) && old(disk.written) <= disk.written
      ensures |results| <= |calls|
      ensures |results| < |calls| ==> results != [] && results[|results| - 1] == WriteFailed(Hung)
      ensures forall i :: 0 <= i < |results| && results[i].Written? ==>
        Range(Start(agg.cfg, calls[i].0), results[i].count as nat) <= disk.written
      ensures forall i :: 0 <= i < |results| ==>
        Justified(agg.cfg, disk.sectorSize, disk.errors > old(disk.errors), disk.fulls > old(disk.fulls),
                  AbortSeenSince(old(looks)), calls[i].1, results[i])
    {
      hide FrugalRun, Config.Lawful, Config.ChunkSize, HoldsStream, Start, Justified;
      results := [];
      for i := 0 to |calls|
        invariant Idle() && |results| == i
        invariant old(looks) <= looks && old(disk.errors) <= disk.errors && old(disk.fulls) <= disk.fulls
        invariant forall j :: 0 <= j < i ==>
          Justified(agg.cfg, disk.sectorSize, disk.errors > old(disk.errors), disk.fulls > old(disk.fulls),
                    AbortSeenSince(old(looks)), calls[j].1, results[j])
        invariant HoldsStream(agg.cfg, disk.content, disk.written) && old(disk.written) <= disk.written
        invariant forall j :: 0 <= j < i && results[j].Written? ==>
          Range(Start(agg.cfg, calls[j].0), results[j].count as nat) <= disk.written
      {
        ghost var failed, full, from :=
          disk.errors > old(disk.errors), disk.fulls > old(disk.fulls), looks;
        ghost var aborted := AbortSeenSince(old(looks));
        ghost var e1, f1 := disk.errors, disk.fulls;
        var r := WriteOne(disk, calls[i].0, calls[i].1);
        forall j | 0 <= j < i
          ensures Justified(agg.cfg, disk.sectorSize, disk.errors > old(disk.errors), disk.fulls > old(disk.fulls),
                            AbortSeenSince(old(looks)), calls[j].1, results[j])
        {
          JustifiedStill(agg.cfg, disk.sectorSize, failed, full, aborted,
                         disk.errors > old(disk.errors), disk.fulls > old(disk.fulls), AbortSeenSince(old(looks)),
                         calls[j].1, results[j]);
        }
        JustifiedStill(agg.cfg, disk.sectorSize, disk.errors > e1, disk.fulls > f1, AbortSeenSince(from),
                       disk.errors > old(disk.errors), disk.fulls > old(disk.fulls), AbortSeenSince(old(looks)),
                       calls[i].1, r);
        results := results + [r];
        if r == WriteFailed(Hung) { return; }
      }
    }

    /** What has been covered by any earlier writes verifies, wherever the verification starts. */
    method VerifyCovered(disk: Disk, seek: u64, maxBytes: u64) returns (r: VerifyResult)
      requires Idle() && disk.Valid() && HoldsStream(agg.cfg, disk.content, disk.written)
      requires var start := Start(agg.cfg, seek);
        Range(start, Available(disk.content, start, maxBytes as nat)) <= disk.written
      modifies agg, this`looks, disk`pos, disk`log, disk`errors, disk`goodReads
      ensures !r.Mismatch?
      ensures r.VerifyFailed? ==> Excused(disk, old(disk.errors), old(disk.fulls), old(looks), r.why)
      ensures old(Startable()) ==> r != VerifyFailed(Hung)
      ensures r.Verified? ==> r.count as nat == Available(disk.content, Start(agg.cfg, seek), maxBytes as nat)
    {
      hide FrugalRun, Config.Lawful, Config.ChunkSize, Agrees, FirstDifference;
      CoveredAgrees(agg.cfg, disk.content, disk.written, Start(agg.cfg, seek),
                    Available(disk.content, Start(agg.cfg, seek), maxBytes as nat));
      var file := new File(disk);
      r := Verify(file, seek, maxBytes);
    }

  }

  /** How a round trip ends: the drop of the writer's or of the verifier's Disktest may hang. */
  datatype RoundEnd = Ended | WriterHangs | VerifierHangs

  /** Round trip: what has just been written verifies. As in the program, each half has a Disktest
      of its own, which is dropped at the end of the half. A bounded write that succeeds verifies to
      the same count. On a device of fixed size, an unlimited write verifies to all that is left of
      the device, no less than the write reported. The two calls return, and fail only for a reason.
      A drop may hang, unless the half has failed before it started a worker. */
  method WriteThenVerify(cfg: Config, disk: Disk, seek: u64, maxBytes: u64,
                         writeFlag: nat -> bool, verifyFlag: nat -> bool)
    returns (w: WriteResult, v: VerifyResult, end: RoundEnd, ghost stored: nat)
    requires cfg.Lawful() && Sized(cfg) && disk.Valid()
    modifies disk
    ensures Laid(cfg, old(disk.content), old(disk.written), disk.content, disk.written, Start(cfg, seek), stored)
    ensures w.Written? ==> w.count as nat <= stored
    ensures w.WriteFailed? ==>
      Caused(cfg, disk, old(disk.errors), old(disk.fulls), exists k :: writeFlag(k), false, w.why)
    ensures w == WriteFailed(OutOfSpace) ==> maxBytes != UNLIMITED
    ensures w == WriteFailed(OutOfSpace) && disk.fixed ==>
      Available(disk.content, Start(cfg, seek), maxBytes as nat) < maxBytes as nat
    ensures w.Written? && !end.WriterHangs? && v.VerifyFailed? ==>
      && Caused(cfg, disk, old(disk.errors), old(disk.fulls), exists k :: verifyFlag(k), false, v.why)
      && v.why != OutOfSpace
    ensures w.Written? && !end.WriterHangs? && (v.Verified? || v.Mismatch?) && (maxBytes != UNLIMITED || disk.fixed) ==>
      && v.Verified? && v.count as nat == Available(disk.content, Start(cfg, seek), maxBytes as nat)
      && v.count >= w.count && (w.count != maxBytes ==> w.count as nat == WholeChunks(cfg, v.count as nat))
      && (maxBytes != UNLIMITED ==> v.count == w.count == maxBytes)
    ensures end.WriterHangs? ==> w != WriteFailed(SectorMismatch)
    ensures w.Written? && !end.WriterHangs? && (v.Verified? || v.Mismatch?) ==>
      disk.goodReads > old(disk.goodReads)
    ensures end.VerifierHangs? ==> w.Written? && v != VerifyFailed(SectorMismatch)
  {
    hide FrugalRun, Config.Lawful, Config.ChunkSize, Laid, Agrees, FirstDifference, Caused, DtStreamAgg.AllStoppable;
    ghost var c0, w0, e0, f0 := disk.content, disk.written, disk.errors, disk.fulls;
    var writer := new Disktest(cfg, writeFlag);
    var wfile := new File(disk);
    w, stored := writer.Write(wfile, seek, maxBytes);
    v, end := VerifyFailed(IoFailure), Ended;
    if w.WriteFailed? {
      CausedSince(cfg, disk, e0, f0, exists k :: writeFlag(k), e0, f0,
                  writer.AbortSeenSince(0), writer.Stuck(), w.why);
    }
    var blocked := writer.Shutdown();
    if blocked { end := WriterHangs; return; }
    if w.Written? {
      if stored > 0 { LaidAgrees(cfg, c0, w0, disk.content, disk.written, Start(cfg, seek), stored); }
      AgreesFits(cfg, disk.content, Start(cfg, seek), stored);
      v, end := VerifyHalf(cfg, disk, seek, maxBytes, verifyFlag, e0, f0);
    }
  }

  /** The second half. The ghost parameters are the counters at the start of the first. */
  method VerifyHalf(cfg: Config, disk: Disk, seek: u64, maxBytes: u64, flag: nat -> bool,
                    ghost errors: nat, ghost fulls: nat)
    returns (v: VerifyResult, end: RoundEnd)
    requires cfg.Lawful() && Sized(cfg) && disk.Valid() && errors <= disk.errors && fulls <= disk.fulls
    modifies disk`pos, disk`log, disk`errors, disk`goodReads
    ensures var start := Start(cfg, seek); var n := Available(disk.content, start, maxBytes as nat);
      && (v.Verified? ==> v.count as nat == n)
      && (v.Verified? || v.Mismatch? ==> (v.Verified? <==> n == 0 || Agrees(cfg, disk.content, start, n)))
    ensures v.Verified? || v.Mismatch? ==> disk.goodReads > old(disk.goodReads)
    ensures v.VerifyFailed? ==>
      Caused(cfg, disk, errors, fulls, exists k :: flag(k), false, v.why) && v.why != OutOfSpace
    ensures !end.WriterHangs? && (end.VerifierHangs? ==> v != VerifyFailed(SectorMismatch))
  {
    hide FrugalRun, Config.Lawful, Config.ChunkSize, Agrees, FirstDifference, Caused, DtStreamAgg.AllStoppable;
    ghost var e1, f1 := disk.errors, disk.fulls;
    var verifier := new Disktest(cfg, flag);
    var vfile := new File(disk);
    v := verifier.Verify(vfile, seek, maxBytes);
    if v.VerifyFailed? {
      CausedSince(cfg, disk, errors, fulls, exists k :: flag(k), e1, f1,
                  verifier.AbortSeenSince(0), verifier.Stuck(), v.why);
    }
    var blocked := verifier.Shutdown();
    end := if blocked then VerifierHangs else Ended;
  }
}
