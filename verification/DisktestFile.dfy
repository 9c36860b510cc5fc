/** The file handle that write and verify use: it opens the device on demand, and keeps the
    range whose caches have to be dropped when it is closed or seeked. */
module DisktestFile {
  import opened Bytes
  import opened Device
  import opened DropAccounting

  class File {
    const disk: Disk
    var isOpen: bool
    var dropOffset: nat
    var dropCount: nat
    /** What happened since the last open or seek. */
    ghost var trace: seq<Event>

    /** The fields say what the events add up to. */
    ghost predicate Accounted()
      reads this, disk
    {
      isOpen ==> dropCount == Credited(trace) && disk.pos == dropOffset + Advanced(trace) && Sound(trace)
    }

    constructor (disk: Disk)
      ensures this.disk == disk && !isOpen && dropOffset == dropCount == 0
    {
      this.disk := disk;
      isOpen, dropOffset, dropCount, trace := false, 0, 0, [];
    }

    method DoOpen() returns (ok: bool)
      modifies this, disk`pos, disk`errors
      ensures disk.errors == old(disk.errors) + if ok then 0 else 1
      ensures old(isOpen) ==> ok && isOpen && dropOffset == old(dropOffset) && dropCount == old(dropCount)
                              && disk.pos == old(disk.pos) && trace == old(trace)
      ensures !old(isOpen) && ok ==> isOpen && dropOffset == dropCount == 0 && disk.pos == 0 && trace == []
      ensures !ok ==> !isOpen && dropOffset == old(dropOffset) && dropCount == old(dropCount)
      ensures !ok ==> disk.pos == old(disk.pos)
      ensures old(Accounted()) ==> Accounted()
    {
      ok := true;
      if !isOpen {
        ok := disk.Open();
        if ok { isOpen, dropOffset, dropCount, trace := true, 0, 0, []; }
      }
    }

    /** What closing an open handle does: the caches of the accounted range are dropped, if there is
        one. */
    static ghost function CloseEntry(offset: nat, count: nat, ok: bool): Entry {
      if count > 0 then Dropped(offset, count, ok) else Closed(ok)
    }

    /** Close the handle and drop the caches of what has been written through it. */
    method Close() returns (ok: bool)
      modifies this, disk`log, disk`errors
      ensures disk.errors == old(disk.errors) + if ok then 0 else 1
      ensures !isOpen && dropOffset == old(dropOffset) + old(dropCount) && dropCount == 0
      ensures disk.log == old(disk.log) +
              if old(isOpen) then [CloseEntry(old(dropOffset), old(dropCount), ok)] else []
      ensures !old(isOpen) ==> ok
    {
      var offset, count := dropOffset, dropCount;
      dropOffset, dropCount := dropOffset + count, 0;
      ok := true;
      if isOpen {
        isOpen := false;
        if count > 0 {
          ok := disk.DropCaches(offset, count);
        } else {
          ok := disk.Close();
        }
      }
    }

    /** Flush what has been written and go to a position. */
    method Seek(offset: nat) returns (ok: bool, ghost flushed: bool)
      modifies this, disk`pos, disk`log, disk`errors
      ensures disk.errors == old(disk.errors) + if ok then 0 else 1
      ensures ok ==> isOpen && disk.pos == dropOffset == offset && dropCount == 0 && trace == []
      ensures disk.log == old(disk.log) +
              if old(isOpen) && old(dropCount) > 0 then [Dropped(old(dropOffset), old(dropCount), flushed)] else []
      ensures ok ==> flushed
      ensures old(Accounted()) ==> Accounted()
    {
      ok, flushed := true, true;
      if dropCount > 0 {
        ok := Close();
        flushed := ok;
        if !ok { return; }
      }
      ok := DoOpen();
      if !ok { return; }
      ok := disk.Seek(offset);
      if ok { dropOffset, dropCount, trace := offset, 0, []; }
    }

    /** Put what has been written on the medium. */
    method Sync() returns (ok: bool)
      modifies disk`log, disk`errors
      ensures disk.errors == old(disk.errors) + if ok then 0 else 1
      ensures disk.log == old(disk.log) + if isOpen then [Synced(ok)] else []
      ensures !isOpen ==> ok
    {
      ok := true;
      if isOpen { ok := disk.Sync(); }
    }

    /** Where the handle stands, or will stand when it has been opened. */
    ghost function Position(): nat
      reads this, disk
    {
      if isOpen then disk.pos else 0
    }

    method Read(buf: array<byte>, lo: nat, hi: nat) returns (r: IoResult)
      requires lo <= hi <= buf.Length
      modifies this, disk`pos, disk`errors, disk`goodReads, buf
      ensures disk.errors == old(disk.errors) + if r.IoError? then 1 else 0
      ensures disk.goodReads == old(disk.goodReads) + if r.IoOk? then 1 else 0
      ensures old(isOpen) ==> isOpen && dropCount == old(dropCount)
      ensures r.IoOk? || r.IoError?
      ensures r.IoOk? ==> isOpen && r.count <= hi - lo && disk.pos == old(Position()) + r.count
      ensures r.IoOk? ==> (r.count == 0 <==> lo == hi || old(Position()) >= |disk.content|)
      ensures r.IoOk? && r.count > 0 ==> disk.pos <= |disk.content|
      ensures r.IoOk? && r.count > 0 ==> buf[lo..lo + r.count] == disk.content[old(Position())..disk.pos]
      ensures forall i :: 0 <= i < lo ==> buf[i] == old(buf[i])
      ensures old(Accounted()) ==> Accounted()
    {
      hide Credited, Advanced, Sound;
      var ok := DoOpen();
      if !ok { return IoError; }
      r := disk.Read(buf, lo, hi);
      if r.IoOk? {
        AppendOne(trace, Moved(r.count));
        trace := trace + [Moved(r.count)];
      }
    }

    static ghost function WriteEvent(r: IoResult, len: nat, stored: nat): Event {
      if r.IoOk? then Done(len) else if r.Enospc? then Full(len, stored) else Moved(stored)
    }

    /** Write, and account for it: in full when the device says Ok or that it is full. */
    method Write(data: seq<byte>) returns (r: IoResult, ghost stored: nat)
      modifies this, disk`pos, disk`content, disk`written, disk`errors, disk`fulls, disk`goodWrites
      ensures disk.errors == old(disk.errors) + if r.IoError? then 1 else 0
      ensures disk.goodWrites == old(disk.goodWrites) + if r.IoOk? then 1 else 0
      ensures disk.fulls == old(disk.fulls) + if r.Enospc? then 1 else 0
      ensures old(isOpen) ==> isOpen && dropOffset == old(dropOffset)
      ensures !isOpen ==> r.IoError? && stored == 0
      ensures !isOpen ==> disk.content == old(disk.content) && disk.written == old(disk.written)
      ensures isOpen ==> stored <= |data| && disk.pos == old(Position()) + stored
      ensures isOpen ==> disk.content == Overlay(old(disk.content), old(Position()), data[..stored])
      ensures isOpen ==> disk.written == old(disk.written) + Range(old(Position()), stored)
      ensures stored > 0 ==> disk.pos <= |disk.content|
      ensures disk.fixed ==> |disk.content| == |old(disk.content)|
      ensures r.IoOk? ==> r.count == stored == |data|
      ensures disk.fixed && r.Enospc? ==> stored < |data|
      ensures disk.fixed && r.Enospc? ==>
                if old(Position()) <= |disk.content| then disk.pos == |disk.content| else stored == 0
      ensures isOpen ==> dropCount == (if old(isOpen) then old(dropCount) else 0) + if r.IoError? then 0 else |data|
      ensures isOpen ==> trace == (if old(isOpen) then old(trace) else []) + [WriteEvent(r, |data|, stored)]
      ensures old(Accounted()) ==> Accounted()
    {
      hide Credited, Advanced, Sound, Overlay, Range, Possible;
      stored := 0;
      var ok := DoOpen();
      if !ok { return IoError, 0; }
      r, stored := disk.Write(data);
      match r {
        case IoOk(_) => dropCount := dropCount + |data|;
        case Enospc => dropCount := dropCount + |data|;
        case IoError =>
      }
      ghost var e := WriteEvent(r, |data|, stored);
      AppendOne(trace, e);
      trace := trace + [e];
    }
  }

  // ---- Which caches are dropped ----

  /** The range that closing the handle would drop contains every byte that was written
      successfully since the last open or seek. */
  ghost predicate DropsAll(f: File)
    reads f
  {
    forall i :: 0 <= i < |f.trace| && f.trace[i].Done? ==>
      Range(f.dropOffset + Advanced(f.trace[..i]), f.trace[i].len) <= Range(f.dropOffset, f.dropCount)
  }

  lemma DropsAllIsCovered(f: File)
    requires f.isOpen && f.Accounted()
    ensures DropsAll(f) <==> Covered(f.dropOffset, f.trace)
  {
    hide Range;
    if Covered(f.dropOffset, f.trace) {
      forall i | 0 <= i < |f.trace| && f.trace[i].Done?
        ensures Range(f.dropOffset + Advanced(f.trace[..i]), f.trace[i].len) <= Range(f.dropOffset, f.dropCount)
      {
        assert CoveredAt(f.dropOffset, f.trace, i);
      }
    }
  }

  /** Exactly when closing a handle drops the caches of every byte that was written successfully
      since the last open or seek: whatever a failed write stored, or a read skipped, before the
      last successful write must have been made up for by out-of-space writes, which are credited
      in full. If nothing ran out of space, that is: no successful write came after a read or
      after a failed write that stored something. */
  lemma DropCovers(f: File)
    requires f.isOpen && f.Accounted()
    ensures Sound(f.trace) && (DropsAll(f) <==> MadeUp(f.trace))
    ensures !Overtaken(f.trace) ==> DropsAll(f)
    ensures (forall k :: 0 <= k < |f.trace| ==> !f.trace[k].Full?) ==> (DropsAll(f) <==> !Overtaken(f.trace))
  {
    hide DropsAll, MadeUp, Overtaken, Covered;
    DropsAllIsCovered(f);
    CoveredGenerally(f.dropOffset, f.trace);
    if !Overtaken(f.trace) { NotOvertakenCovered(f.dropOffset, f.trace); }
    if forall k :: 0 <= k < |f.trace| ==> !f.trace[k].Full? { CoveredIff(f.dropOffset, f.trace); }
  }

  /** If all writes complete, the range ends at the file position. */
  lemma DropEndsAtPosition(f: File)
    requires f.isOpen && f.Accounted() && forall i :: 0 <= i < |f.trace| ==> f.trace[i].Done?
    ensures f.dropOffset + f.dropCount == f.disk.pos
  {
    AllDone(f.trace);
  }

  // ---- The range does not always cover what was written ----

  /** On any handle that has just been seeked: if a write fails after it has stored something and
      the next one succeeds, closing drops a range that ends before the bytes that were written. */
  method FailThenWrite(f: File, offset: nat, a: seq<byte>, b: seq<byte>)
    returns (ra: IoResult, ghost lost: nat, rb: IoResult, ok: bool)
    requires f.isOpen && f.dropCount == 0 && f.dropOffset == offset == f.disk.pos
    modifies f, f.disk
    ensures ra.IoError? && lost > 0 && rb.IoOk? && b != [] ==>
      && f.disk.log == old(f.disk.log) + [Dropped(offset, |b|, ok)]
      && offset + lost + |b| <= |f.disk.content|
      && f.disk.content[offset + lost..offset + lost + |b|] == b
      && !(Range(offset + lost, |b|) <= Range(offset, |b|))
  {
    hide Credited, Advanced, Sound;
    ra, lost := f.Write(a);
    ghost var before, p := f.disk.content, f.disk.pos;
    ghost var stored;
    rb, stored := f.Write(b);
    if rb.IoOk? {
      assert b[..stored] == b;
      OverlayIs(before, p, b);
    }
    RangeInside(offset, lost, |b|, |b|);
    hide Overlay, Range;
    ok := f.Close();
  }

  /** And that can happen on a device with room for both: the first write of ten bytes fails after
      five, the second succeeds. The handle records these two events; ten bytes are credited, and
      the position is fifteen. */
  lemma FailedThenWritten(f: File)
    requires f.isOpen && f.Accounted()
    requires f.trace == [File.WriteEvent(IoError, 10, 5), File.WriteEvent(IoOk(10), 10, 10)]
    ensures Possible(true, 15, 0, 10, IoError, 5) && Possible(true, 15, 5, 10, IoOk(10), 10)
    ensures f.dropCount == 10 && f.disk.pos == f.dropOffset + 15 && !DropsAll(f)
  {
    var t := [Moved(5), Done(10)];
    assert f.trace == t;
    FiveThenTen();
    RangeInside(f.dropOffset, 5, 10, 10);
    hide Range, Advanced, Credited;
    assert t[1].Done?;
  }
}
