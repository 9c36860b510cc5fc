/** The medium under test and one open handle on it, with the contract of the Linux raw I/O
    layer: a read may be short, a write that returns Ok has stored everything, a write that
    runs out of space has stored a prefix. Every call may fail instead. */
module Device {
  import opened Bytes

  datatype IoResult = IoOk(count: nat) | Enospc | IoError

  /** Content c after data d has been stored at position p. A gap beyond the old end reads as
      zeros. */
  function Overlay(c: seq<byte>, p: nat, d: seq<byte>): seq<byte> {
    if d == [] then c
    else
      (if |c| < p then c + seq(p - |c|, i => 0) else c[..p]) + d + (if p + |d| < |c| then c[p + |d|..] else [])
  }

  lemma OverlayIs(c: seq<byte>, p: nat, d: seq<byte>)
    ensures var r := Overlay(c, p, d);
      && |r| == (if d == [] || p + |d| < |c| then |c| else p + |d|)
      && (forall i :: p <= i < p + |d| ==> r[i] == d[i - p])
      && (forall i :: 0 <= i < |c| && !(p <= i < p + |d|) ==> r[i] == c[i])
      && (d != [] ==> forall i :: |c| <= i < p ==> r[i] == 0)
  {
    if d != [] {
      var head := if |c| < p then c + seq(p - |c|, i => 0) else c[..p];
      var tail := if p + |d| < |c| then c[p + |d|..] else [];
      assert Overlay(c, p, d) == head + d + tail;
      hide Overlay;
      assert |head| == p;
    }
  }

  /** The positions from p on, k of them. */
  ghost function Range(p: nat, k: nat): (r: set<nat>)
    ensures forall i: nat :: i in r <==> p <= i < p + k
  {
    if k == 0 then {} else Range(p, k - 1) + {p + k - 1}
  }

  /** How many of len bytes fit at position pos. */
  function Room(fixed: bool, size: nat, pos: nat, len: nat): nat {
    if !fixed then len else if pos >= size then 0 else Min(len, size - pos)
  }

  /** What a write of len bytes at position pos may do: how it ends and how much it stores. */
  predicate Possible(fixed: bool, size: nat, pos: nat, len: nat, r: IoResult, stored: nat) {
    && stored <= Room(fixed, size, pos, len)
    && match r
       case IoOk(count) => count == stored == len
       case Enospc => fixed ==> stored == Room(fixed, size, pos, len) < len
       case IoError => true
  }

  /** A call that puts what has been written on the medium, and whether it succeeded. */
  datatype Entry = Synced(ok: bool) | Closed(ok: bool) | Dropped(offset: nat, count: nat, ok: bool)

  class Disk {
    var content: seq<byte>
    var pos: nat
    /** A block device, whose size is fixed, as opposed to a file that grows. */
    const fixed: bool
    /** Physical sector size, if this is a raw device. */
    const sectorSize: Option<u64>
    /** Positions ever stored to, the calls that sync, close or drop caches, how many calls have
        failed or found the device full, and how many reads and writes have succeeded. */
    ghost var written: set<nat>
    ghost var log: seq<Entry>
    ghost var errors: nat
    ghost var fulls: nat
    ghost var goodReads: nat
    ghost var goodWrites: nat

    constructor (content: seq<byte>, fixed: bool, sectorSize: Option<u64>)
      requires sectorSize.Some? ==> sectorSize.value > 0
      ensures this.content == content && this.fixed == fixed && this.sectorSize == sectorSize
      ensures written == {} && log == [] && pos == 0 && errors == fulls == goodReads == goodWrites == 0
    {
      this.content, this.fixed, this.sectorSize := content, fixed, sectorSize;
      pos, written, log, errors, fulls, goodReads, goodWrites := 0, {}, [], 0, 0, 0, 0;
    }

    predicate Valid()
      reads this
    {
      sectorSize.Some? ==> sectorSize.value > 0
    }

    /** The device decides whether a call fails. */
    method Decide() returns (ok: bool)
      modifies this`errors
      ensures errors == old(errors) + if ok then 0 else 1
    {
      ok := *;
      if !ok { errors := errors + 1; }
    }

    method Open() returns (ok: bool)
      modifies this`pos, this`errors
      ensures errors == old(errors) + if ok then 0 else 1
      ensures ok ==> pos == 0
      ensures !ok ==> pos == old(pos)
    {
      ok := Decide();
      if ok { pos := 0; }
    }

    method Seek(offset: nat) returns (ok: bool)
      modifies this`pos, this`errors
      ensures errors == old(errors) + if ok then 0 else 1
      ensures pos == if ok then offset else old(pos)
    {
      ok := Decide();
      if ok { pos := offset; }
    }

    /** Read into buf[lo..hi], possibly short. Nothing is read exactly if nothing is asked for
        or the end has been reached. */
    method Read(buf: array<byte>, lo: nat, hi: nat) returns (r: IoResult)
      requires lo <= hi <= buf.Length
      modifies this`pos, this`errors, this`goodReads, buf
      ensures r.IoOk? || r.IoError?
      ensures errors == old(errors) + if r.IoError? then 1 else 0
      ensures goodReads == old(goodReads) + if r.IoOk? then 1 else 0
      ensures r.IoOk? ==> r.count <= hi - lo && pos == old(pos) + r.count
      ensures r.IoOk? ==> (r.count == 0 <==> lo == hi || old(pos) >= |content|)
      ensures r.IoOk? && r.count > 0 ==> pos <= |content|
      ensures r.IoOk? && r.count > 0 ==> buf[lo..lo + r.count] == content[old(pos)..pos]
      ensures forall i :: 0 <= i < lo ==> buf[i] == old(buf[i])
      ensures r.IoError? ==> pos == old(pos)
    {
      var ok := Decide();
      if !ok { return IoError; }
      var most: nat := if pos >= |content| then 0 else Min(hi - lo, |content| - pos);
      var n: nat :| n <= most && (n == 0 <==> most == 0);
      var p := pos;
      for k := 0 to n
        invariant pos == p && errors == old(errors) && goodReads == old(goodReads)
        invariant forall i :: 0 <= i < lo ==> buf[i] == old(buf[i])
        invariant forall i :: lo <= i < lo + k ==> buf[i] == content[i - lo + p]
      {
        buf[lo + k] := content[p + k];
      }
      assert n > 0 ==> buf[lo..lo + n] == content[p..p + n];
      pos := p + n;
      goodReads := goodReads + 1;
      r := IoOk(n);
    }

    /** Write all of `data`, or a prefix of it. `stored` is how much has been stored. A device of
        fixed size runs out of space exactly at its end, when all that fits has been stored. */
    method Write(data: seq<byte>) returns (r: IoResult, ghost stored: nat)
      modifies this`pos, this`content, this`written, this`errors, this`fulls, this`goodWrites
      ensures errors == old(errors) + if r.IoError? then 1 else 0
      ensures fulls == old(fulls) + if r.Enospc? then 1 else 0
      ensures goodWrites == old(goodWrites) + if r.IoOk? then 1 else 0
      ensures stored <= |data| && pos == old(pos) + stored
      ensures content == Overlay(old(content), old(pos), data[..stored])
      ensures written == old(written) + Range(old(pos), stored)
      ensures Possible(fixed, |old(content)|, old(pos), |data|, r, stored)
      ensures stored > 0 ==> pos <= |content|
      ensures fixed ==> |content| == |old(content)|
      ensures r.IoOk? ==> r.count == stored == |data|
      ensures fixed && r.Enospc? ==> stored < |data|
      ensures fixed && r.Enospc? ==> if old(pos) <= |content| then pos == |content| else stored == 0
    {
      var outcome: int := *;
      var room := Room(fixed, |content|, pos, |data|);
      var k: nat;
      if outcome == 0 && room == |data| {
        k := |data|;
        goodWrites := goodWrites + 1;
        r := IoOk(k);
      } else if outcome == 1 && (!fixed || room < |data|) {
        k :| 0 <= k <= room && (fixed ==> k == room);
        fulls := fulls + 1;
        r := Enospc;
      } else {
        k :| 0 <= k <= room;
        errors := errors + 1;
        r := IoError;
      }
      stored := k;
      OverlayIs(content, pos, data[..k]);
      content := Overlay(content, pos, data[..k]);
      written := written + Range(pos, k);
      pos := pos + k;
    }

    /** Close the device and drop the caches of a range. */
    method DropCaches(offset: nat, count: nat) returns (ok: bool)
      modifies this`log, this`errors
      ensures log == old(log) + [Dropped(offset, count, ok)]
      ensures errors == old(errors) + if ok then 0 else 1
    {
      ok := Decide();
      log := log + [Dropped(offset, count, ok)];
    }

    /** Close without dropping caches. */
    method Close() returns (ok: bool)
      modifies this`log, this`errors
      ensures log == old(log) + [Closed(ok)]
      ensures errors == old(errors) + if ok then 0 else 1
    {
      ok := Decide();
      log := log + [Closed(ok)];
    }

    /** Put all that has been written on the medium. */
    method Sync() returns (ok: bool)
      modifies this`log, this`errors
      ensures log == old(log) + [Synced(ok)]
      ensures errors == old(errors) + if ok then 0 else 1
    {
      ok := Decide();
      log := log + [Synced(ok)];
    }
  }
}
