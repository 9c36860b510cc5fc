/** What happened on a file handle since it was opened or seeked, and when the range that the
    handle accounts for covers everything that has been written successfully. */
module DropAccounting {
  import opened Device

  /** One event on the open handle. */
  datatype Event =
    | Done(len: nat)               // a write returned Ok
    | Full(len: nat, stored: nat)  // a write ran out of space
    | Moved(count: nat)            // a write failed after storing `count` bytes, or a read got them

  /** How far the event moves the file position. */
  function Advance(e: Event): nat {
    match e
    case Done(len) => len
    case Full(_, stored) => stored
    case Moved(count) => count
  }

  /** How much the event adds to drop_count. */
  function Credit(e: Event): nat {
    match e
    case Done(len) => len
    case Full(len, _) => len
    case Moved(_) => 0
  }

  function Advanced(t: seq<Event>): nat {
    if t == [] then 0 else Advanced(t[..|t| - 1]) + Advance(t[|t| - 1])
  }

  function Credited(t: seq<Event>): nat {
    if t == [] then 0 else Credited(t[..|t| - 1]) + Credit(t[|t| - 1])
  }

  /** A write that runs out of space has stored no more than it was asked to. */
  predicate Sound(t: seq<Event>) {
    forall i :: 0 <= i < |t| && t[i].Full? ==> t[i].stored <= t[i].len
  }

  /** If event i is a successful write, all its bytes lie in the accounted range. */
  ghost predicate CoveredAt(offset: nat, t: seq<Event>, i: nat)
    requires i < |t|
  {
    t[i].Done? ==> Range(offset + Advanced(t[..i]), t[i].len) <= Range(offset, Credited(t))
  }

  /** Every byte of every successful write lies in the accounted range. */
  ghost predicate Covered(offset: nat, t: seq<Event>) {
    forall i :: 0 <= i < |t| ==> CoveredAt(offset, t, i)
  }

  /** Some event moved the position without credit, and a successful write followed it. */
  ghost predicate Overtaken(t: seq<Event>) {
    exists i, j :: 0 <= i < j < |t| && t[i].Moved? && t[i].count > 0 && t[j].Done? && t[j].len > 0
  }

  lemma AppendOne(t: seq<Event>, e: Event)
    ensures Advanced(t + [e]) == Advanced(t) + Advance(e) && Credited(t + [e]) == Credited(t) + Credit(e)
    ensures Sound(t) && (e.Full? ==> e.stored <= e.len) ==> Sound(t + [e])
  {
    assert (t + [e])[..|t|] == t;
  }

  lemma {:induction false} CreditGrows(t: seq<Event>, i: nat)
    requires i <= |t|
    ensures Credited(t[..i]) <= Credited(t) && Advanced(t[..i]) <= Advanced(t)
  {
    if i == |t| {
      assert t[..i] == t;
    } else {
      CreditGrows(t[..|t| - 1], i);
      assert t[..|t| - 1][..i] == t[..i];
    }
  }

  /** As long as nothing moves the position without credit, the credit is at least the distance. */
  lemma {:induction false} NoMoves(t: seq<Event>)
    requires Sound(t) && forall i :: 0 <= i < |t| && t[i].Moved? ==> t[i].count == 0
    ensures Advanced(t) <= Credited(t)
  {
    if t != [] { NoMoves(t[..|t| - 1]); }
  }

  /** If all writes complete, the accounted range ends at the file position. */
  lemma {:induction false} AllDone(t: seq<Event>)
    requires forall i :: 0 <= i < |t| ==> t[i].Done?
    ensures Advanced(t) == Credited(t)
  {
    if t != [] { AllDone(t[..|t| - 1]); }
  }

  lemma RangeInside(offset: nat, from: nat, len: nat, count: nat)
    ensures Range(offset + from, len) <= Range(offset, count) <==> len == 0 || from + len <= count
  {
    if len > 0 && from + len > count {
      assert offset + from + len - 1 in Range(offset + from, len);
    }
  }

  /** That is: the position after the write is within the credit. */
  lemma CoveredAtIs(offset: nat, t: seq<Event>, i: nat)
    requires i < |t|
    ensures CoveredAt(offset, t, i) <==> (t[i].Done? && t[i].len > 0 ==> Advanced(t[..i + 1]) <= Credited(t))
  {
    hide Advanced, Credited, Range;
    if t[i].Done? { RangeInside(offset, Advanced(t[..i]), t[i].len, Credited(t)); }
    assert t[..i + 1] == t[..i] + [t[i]];
    AppendOne(t[..i], t[i]);
  }

  /** Unless a successful write follows an uncredited move, everything is covered. */
  lemma NotOvertakenCovered(offset: nat, t: seq<Event>)
    requires Sound(t) && !Overtaken(t)
    ensures Covered(offset, t)
  {
    forall i | 0 <= i < |t| ensures CoveredAt(offset, t, i) {
      CoveredAtIs(offset, t, i);
      if t[i].Done? && t[i].len > 0 {
        NoMoves(t[..i + 1]);
        CreditGrows(t, i + 1);
      }
    }
  }

  /** Without out-of-space events, an uncredited move leaves a gap that is never made up for. */
  lemma {:induction false} GapStays(t: seq<Event>, i: nat)
    requires i < |t| && t[i].Moved? && t[i].count > 0
    requires forall k :: 0 <= k < |t| ==> !t[k].Full?
    ensures Credited(t) < Advanced(t)
  {
    var s, e := t[..|t| - 1], t[|t| - 1];
    if i == |t| - 1 {
      NoGain(s);
    } else {
      GapStays(s, i);
    }
  }

  lemma {:induction false} NoGain(t: seq<Event>)
    requires forall k :: 0 <= k < |t| ==> !t[k].Full?
    ensures Credited(t) <= Advanced(t)
  {
    if t != [] { NoGain(t[..|t| - 1]); }
  }

  /** The last successful, nonempty write at or after index j. */
  lemma {:induction false} LastDone(t: seq<Event>, j: nat) returns (k: nat)
    requires j < |t| && t[j].Done? && t[j].len > 0
    ensures j <= k < |t| && t[k].Done? && t[k].len > 0
    ensures forall m :: k < m < |t| ==> Credit(t[m]) == 0 || t[m].Full?
    decreases |t| - j
  {
    if m :| j < m < |t| && t[m].Done? && t[m].len > 0 {
      k := LastDone(t, m);
    } else {
      k := j;
    }
  }

  lemma {:induction false} NothingAfter(t: seq<Event>, k: nat)
    requires k <= |t| && forall m :: k <= m < |t| ==> Credit(t[m]) == 0
    ensures Credited(t) == Credited(t[..k])
    decreases |t|
  {
    if k == |t| {
      assert t[..k] == t;
    } else {
      NothingAfter(t[..|t| - 1], k);
      assert t[..|t| - 1][..k] == t[..k];
    }
  }

  lemma OvertakenUncovered(offset: nat, t: seq<Event>)
    requires Overtaken(t) && forall k :: 0 <= k < |t| ==> !t[k].Full?
    ensures !Covered(offset, t)
  {
    var i, j :| 0 <= i < j < |t| && t[i].Moved? && t[i].count > 0 && t[j].Done? && t[j].len > 0;
    var k := LastDone(t, j);
    GapStays(t[..k + 1], i);
    NothingAfter(t, k + 1);
    CoveredAtIs(offset, t, k);
  }

  /** Exactly when the accounted range covers every successful write, on a device that does not
      run out of space: no successful write follows a move of the position without credit. */
  lemma CoveredIff(offset: nat, t: seq<Event>)
    requires forall k :: 0 <= k < |t| ==> !t[k].Full?
    ensures Covered(offset, t) <==> !Overtaken(t)
  {
    if Overtaken(t) { OvertakenUncovered(offset, t); } else { NotOvertakenCovered(offset, t); }
  }

  /** Five bytes moved without credit, then ten written. */
  lemma FiveThenTen()
    ensures var t := [Moved(5), Done(10)]; Advanced(t) == 15 && Credited(t) == 10 && Advanced(t[..1]) == 5
  {
    AppendOne([], Moved(5));
    AppendOne([Moved(5)], Done(10));
    assert [] + [Moved(5)] == [Moved(5)] && [Moved(5)] + [Done(10)] == [Moved(5), Done(10)];
    assert [Moved(5), Done(10)][..1] == [Moved(5)];
    assert Advanced([]) == 0 && Credited([]) == 0;
    hide Advanced, Credited;
  }

  // ---- In general ----

  /** Bytes by which the position has moved without credit. */
  function Lost(t: seq<Event>): nat {
    if t == [] then 0
    else Lost(t[..|t| - 1]) + if t[|t| - 1].Moved? then t[|t| - 1].count else 0
  }

  /** Bytes credited to writes that ran out of space before they stored them. */
  function Spare(t: seq<Event>): nat
    requires Sound(t)
  {
    if t == [] then 0
    else Spare(t[..|t| - 1]) + if t[|t| - 1].Full? then t[|t| - 1].len - t[|t| - 1].stored else 0
  }

  lemma {:induction false} Balance(t: seq<Event>)
    requires Sound(t)
    ensures Advanced(t) + Spare(t) == Credited(t) + Lost(t)
  {
    if t != [] { Balance(t[..|t| - 1]); }
  }

  lemma CoveredAtLast(offset: nat, t: seq<Event>, k: nat)
    requires k < |t| && t[k].Done? && t[k].len > 0
    requires forall m :: k < m < |t| && t[m].Done? ==> t[m].len == 0
    ensures Covered(offset, t) <==> Advanced(t[..k + 1]) <= Credited(t)
  {
    hide CoveredAt;
    CoveredAtIs(offset, t, k);
    if Advanced(t[..k + 1]) <= Credited(t) {
      forall i | 0 <= i < |t| ensures CoveredAt(offset, t, i) {
        CoveredAtIs(offset, t, i);
        if i <= k {
          CreditGrows(t[..k + 1], i + 1);
          assert t[..k + 1][..i + 1] == t[..i + 1];
        }
      }
    }
  }

  lemma BalanceAt(t: seq<Event>, k: nat)
    requires Sound(t) && k < |t| && t[k].Done?
    ensures Sound(t[..k])
    ensures Advanced(t[..k + 1]) - Credited(t[..k + 1]) == Lost(t[..k]) - Spare(t[..k])
  {
    assert t[..k + 1] == t[..k] + [t[k]];
    AppendOne(t[..k], t[k]);
    Balance(t[..k]);
  }

  /** The same without any restriction. Event k is the last successful write that is not empty:
      everything is covered if and only if what was lost before it is made up for by what was
      spared before it and by what out-of-space writes were credited with after it. */
  lemma CoveredExactly(offset: nat, t: seq<Event>, k: nat)
    requires Sound(t) && k < |t| && t[k].Done? && t[k].len > 0
    requires forall m :: k < m < |t| && t[m].Done? ==> t[m].len == 0
    ensures Covered(offset, t) <==> Lost(t[..k]) <= Spare(t[..k]) + (Credited(t) - Credited(t[..k + 1]))
  {
    hide *;
    CoveredAtLast(offset, t, k);
    BalanceAt(t, k);
  }

  /** Every nonempty successful write is made up for what was lost before it. */
  ghost predicate MadeUp(t: seq<Event>)
    requires Sound(t)
  {
    forall k :: 0 <= k < |t| && LastWrite(t, k) ==>
      Lost(t[..k]) <= Spare(t[..k]) + (Credited(t) - Credited(t[..k + 1]))
  }

  /** Event k is the last successful write that is not empty. */
  ghost predicate LastWrite(t: seq<Event>, k: nat)
    requires k < |t|
  {
    t[k].Done? && t[k].len > 0 && forall m :: k < m < |t| && t[m].Done? ==> t[m].len == 0
  }

  lemma NoWriteCovered(offset: nat, t: seq<Event>)
    requires forall m :: 0 <= m < |t| && t[m].Done? ==> t[m].len == 0
    ensures Covered(offset, t)
  {
    forall i | 0 <= i < |t| ensures CoveredAt(offset, t, i) {
      CoveredAtIs(offset, t, i);
    }
  }

  lemma {:induction false} FindLastWrite(t: seq<Event>, j: nat) returns (k: nat)
    requires j < |t| && t[j].Done? && t[j].len > 0
    ensures j <= k < |t| && LastWrite(t, k)
    decreases |t| - j
  {
    if m :| j < m < |t| && t[m].Done? && t[m].len > 0 {
      k := FindLastWrite(t, m);
    } else {
      k := j;
    }
  }

  /** Any sequence of events: covered if and only if made up for. */
  lemma CoveredGenerally(offset: nat, t: seq<Event>)
    requires Sound(t)
    ensures Covered(offset, t) <==> MadeUp(t)
  {
    hide Covered, Lost, Spare, Credited, Advanced;
    if j :| 0 <= j < |t| && t[j].Done? && t[j].len > 0 {
      var k := FindLastWrite(t, j);
      CoveredExactly(offset, t, k);
      forall m | 0 <= m < |t| && LastWrite(t, m) ensures m == k {
      }
    } else {
      NoWriteCovered(offset, t);
    }
  }
}
