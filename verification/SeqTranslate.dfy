/**
  Sequence and acknowledgment translation for a TCP stream whose packets changed length on the way out.
  Positions in the stream are unbounded integers here; the fields hold them modulo 2^32.
 */
module SeqTranslate {
  import opened Checksum

  const WRAP: int := 0x1_0000_0000
  const WINDOW: int := 0x8000_0000
  const SLOTS: nat := 3                 // N_LINK_TCP_DATA

  function Wrap(x: int): (d: Dword) { x % WRAP }

  /** SeqDiff: how far y is after x, as a signed 32-bit number. */
  function SeqDiff(x: Dword, y: Dword): (d: int)
    ensures -WINDOW <= d < WINDOW
  {
    var d := (y - x) % WRAP;
    if d < WINDOW then d else d - WRAP
  }

  lemma WrapAdd(x: int, d: int)
    ensures Wrap(Wrap(x) + d) == Wrap(x + d)
  {
  }

  lemma SeqDiffInWindow(x: int, y: int)
    requires -WINDOW < y - x < WINDOW
    ensures SeqDiff(Wrap(x), Wrap(y)) == y - x
  {
    assert (Wrap(y) - Wrap(x) - (y - x)) % WRAP == 0;
  }

  // ---------------------------------------------------------------- edits

  /** A packet at stream position `start` carried dlen bytes and was sent out with slen. */
  datatype Edit = Edit(start: int, dlen: nat, slen: nat) {
    function End(): int { start + dlen }
  }

  /** Edits in stream order, none of them empty before or after. */
  ghost predicate Ordered(es: seq<Edit>) {
    && (forall k :: 0 <= k < |es| ==> es[k].dlen > 0 && es[k].slen > 0)
    && (forall j, k :: 0 <= j < k < |es| ==> es[j].End() <= es[k].start)
  }

  /** The total growth of all the edits. */
  function Growth(es: seq<Edit>): int {
    if es == [] then 0 else Growth(es[..|es| - 1]) + es[|es| - 1].slen - es[|es| - 1].dlen
  }

  /** Where edit k ends in the stream the receiver sees. */
  function NewEnd(es: seq<Edit>, k: nat): int
    requires k < |es|
  {
    es[k].End() + Growth(es[..k + 1])
  }

  lemma {:induction false} NewEndsRise(es: seq<Edit>, j: nat, k: nat)
    requires Ordered(es) && j < k < |es|
    ensures NewEnd(es, j) < es[k].start + Growth(es[..k]) + es[k].slen == NewEnd(es, k)
    ensures NewEnd(es, j) <= es[k].start + Growth(es[..k])
  {
    assert es[..k + 1][..k] == es[..k];
    if j < k - 1 {
      NewEndsRise(es, j, k - 1);
    }
  }

  // ---------------------------------------------------------------- the ring of records

  datatype AckRecord = AckRecord(ackOld: Dword, ackNew: Dword, delta: int, active: bool) {
    function Base(outgoing: bool): Dword { if outgoing then ackOld else ackNew }
  }

  /** What AddSeq stores for edit k. */
  function Record(es: seq<Edit>, k: nat): AckRecord
    requires k < |es|
  {
    AckRecord(Wrap(es[k].End()), Wrap(NewEnd(es, k)), Growth(es[..k + 1]), true)
  }

  /** The newest edit kept in slot i. */
  function Kept(n: nat, i: nat): (k: nat)
    requires i < n && i < SLOTS
    ensures k < n && n <= k + SLOTS && k % SLOTS == i
  {
    n - 1 - (n - 1 - i) % SLOTS
  }

  /** The record AddSeq builds from the packet's fields. */
  function NewRecord(seqno: Dword, dlen: nat, delta: int): AckRecord {
    AckRecord(Wrap(seqno + dlen), Wrap(seqno + dlen + delta), delta, true)
  }

  ghost predicate SlotHolds(r: AckRecord, es: seq<Edit>, i: nat)
    requires i < SLOTS
  {
    if i < |es| then r == Record(es, Kept(|es|, i)) else !r.active
  }

  ghost predicate Holds(ring: seq<AckRecord>, es: seq<Edit>)
    requires |ring| == SLOTS
  {
    forall i :: 0 <= i < SLOTS ==> SlotHolds(ring[i], es, i)
  }

  /** The record is behind the position. */
  predicate Behind(r: AckRecord, pos: Dword, outgoing: bool) {
    r.active && SeqDiff(r.Base(outgoing), pos) >= 0
  }

  /** The slot of the record nearest behind the position among the first n, the first of them if several are
      equally near; -1 if there is none. */
  function Nearest(ring: seq<AckRecord>, n: nat, pos: Dword, outgoing: bool): (best: int)
    requires n <= |ring|
    ensures -1 <= best < n
    ensures best == -1 ==> forall i :: 0 <= i < n ==> !Behind(ring[i], pos, outgoing)
    ensures best >= 0 ==> Behind(ring[best], pos, outgoing)
    ensures best >= 0 ==> forall i :: 0 <= i < n && Behind(ring[i], pos, outgoing) ==>
      SeqDiff(ring[best].Base(outgoing), pos) <= SeqDiff(ring[i].Base(outgoing), pos)
  {
    if n == 0 then -1
    else
      var best := Nearest(ring, n - 1, pos, outgoing);
      if !Behind(ring[n - 1], pos, outgoing) then best
      else if best == -1 || SeqDiff(ring[n - 1].Base(outgoing), pos) < SeqDiff(ring[best].Base(outgoing), pos)
      then n - 1
      else best
  }

  /** The delta looked up for a position. */
  function DeltaAt(ring: seq<AckRecord>, pos: Dword, outgoing: bool): int {
    var best := Nearest(ring, |ring|, pos, outgoing);
    if best == -1 then 0 else ring[best].delta
  }

  class TcpDat {
    const ack: array<AckRecord>
    var index: nat
    var ackModified: bool
    ghost var edits: seq<Edit>

    /** The ring is a log of the edits. */
    ghost predicate Logs()
      reads this, ack
    {
      && ack.Length == SLOTS
      && index == |edits| % SLOTS
      && Ordered(edits)
      && Holds(ack[..], edits)
    }

    /** And the mark is set exactly if there is something to translate by. */
    ghost predicate Valid()
      reads this, ack
    {
      Logs() && (ackModified <==> edits != [])
    }

    constructor ()
      ensures Valid() && edits == [] && !ackModified && fresh(ack)
    {
      ack := new AckRecord[SLOTS](i => AckRecord(0, 0, 0, false));
      index, ackModified, edits := 0, false, [];
    }

    /** The search GetDeltaSeqOut and GetDeltaAckIn share: the delta of the nearest record behind pos. */
    method Search(pos: Dword, outgoing: bool) returns (delta: int)
      requires ack.Length == SLOTS
      ensures delta == DeltaAt(ack[..], pos, outgoing)
    {
      delta := 0;
      var diffMin := -1;
      ghost var best := -1;
      ghost var ring := ack[..];
      for i := 0 to SLOTS
        invariant best == Nearest(ring, i, pos, outgoing)
        invariant best == -1 ==> delta == 0 && diffMin == -1
        invariant best >= 0 ==> delta == ack[best].delta && diffMin == SeqDiff(ack[best].Base(outgoing), pos)
      {
        var x := ack[i];
        if x.active {
          var diff := SeqDiff(x.Base(outgoing), pos);
          if diff >= 0 {
            if diffMin >= 0 {
              if diff < diffMin {
                delta, diffMin, best := x.delta, diff, i;
              }
            } else {
              delta, diffMin, best := x.delta, diff, i;
            }
          }
        }
      }
    }

    /** GetDeltaSeqOut at stream position s. */
    method GetDeltaSeqOut(seqno: Dword, ghost s: int) returns (delta: int)
      requires Logs() && seqno == Wrap(s) && InWindow(edits, s, true)
      ensures delta == Translation(edits, Passed(edits, s, true))
    {
      delta := Search(seqno, true);
      NearestIsLast(ack[..], edits, s, true);
    }

    /** GetDeltaAckIn at position a of the stream the receiver sees. */
    method GetDeltaAckIn(ackno: Dword, ghost a: int) returns (delta: int)
      requires Logs() && ackno == Wrap(a) && InWindow(edits, a, false)
      ensures delta == Translation(edits, Passed(edits, a, false))
    {
      delta := Search(ackno, false);
      NearestIsLast(ack[..], edits, a, false);
    }

    /** AddSeq for an edit whose cumulative delta the caller passes in. */
    method AddSeq(seqno: Dword, dlen: nat, delta: int, ghost e: Edit)
      requires Logs() && Ordered(edits + [e])
      requires seqno == Wrap(e.start) && dlen == e.dlen && delta == Growth(edits + [e])
      modifies this`index, this`edits, ack
      ensures Logs() && edits == old(edits) + [e]
    {
      var x := NewRecord(seqno, dlen, delta);
      ghost var all := edits + [e];
      ghost var now := ack[..][index := x];
      assert Holds(now, all) by { AddKeepsHolds(ack[..], edits, e, seqno); }
      NextIndex(|edits|);
      var i := index;
      ack[i] := x;
      assert ack[..] == now;
      i := i + 1;
      index := if i == SLOTS then 0 else i;
      edits := all;
    }

    /** The growth so far is looked up and the edit recorded with its own growth added. */
    method AddGrowth(seqno: Dword, dlen: nat, slen: nat, ghost start: int)
      requires Logs() && seqno == Wrap(start) && Ordered(edits + [Edit(start, dlen, slen)])
      requires InWindow(edits, start, true)
      modifies this`index, this`edits, ack
      ensures Logs() && edits == old(edits) + [Edit(start, dlen, slen)]
    {
      ghost var e := Edit(start, dlen, slen);
      var delta := GetDeltaSeqOut(seqno, start);
      AllPassed(edits, e);
      assert (edits + [e])[..|edits|] == edits;
      AddSeq(seqno, dlen, delta + slen - dlen, e);
    }

    /** What NewFtpMessage does: mark the link, and record the edit with the growth so far plus its own. */
    method RecordEdit(seqno: Dword, dlen: nat, slen: nat, ghost start: int)
      requires Valid() && seqno == Wrap(start) && Ordered(edits + [Edit(start, dlen, slen)])
      requires InWindow(edits, start, true)
      modifies this, ack
      ensures Valid() && edits == old(edits) + [Edit(start, dlen, slen)]
    {
      ackModified := true;
      AddGrowth(seqno, dlen, slen, start);
    }
  }

  // ---------------------------------------------------------------- which edits lie behind a position

  function EndIn(es: seq<Edit>, k: nat, outgoing: bool): int
    requires k < |es|
  {
    if outgoing then es[k].End() else NewEnd(es, k)
  }

  /** The number of edits that end by position s, in the sender's or the receiver's stream. */
  function Passed(es: seq<Edit>, s: int, outgoing: bool): (n: nat)
    ensures n <= |es|
  {
    PassedUpTo(es, s, outgoing, |es|)
  }

  function PassedUpTo(es: seq<Edit>, s: int, outgoing: bool, n: nat): (r: nat)
    requires n <= |es|
    ensures r <= n
    ensures r > 0 ==> EndIn(es, r - 1, outgoing) <= s
    ensures forall k :: r <= k < n ==> EndIn(es, k, outgoing) > s
  {
    if n == 0 then 0 else if EndIn(es, n - 1, outgoing) <= s then n else PassedUpTo(es, s, outgoing, n - 1)
  }

  lemma EndsRise(es: seq<Edit>, j: nat, k: nat, outgoing: bool)
    requires Ordered(es) && j < k < |es|
    ensures EndIn(es, j, outgoing) < EndIn(es, k, outgoing)
  {
    NewEndsRise(es, j, k);
  }

  lemma EndsRiseFrom(es: seq<Edit>, k: nat, outgoing: bool)
    requires Ordered(es) && k < |es|
    ensures forall j :: k < j < |es| ==> EndIn(es, k, outgoing) < EndIn(es, j, outgoing)
  {
    forall j | k < j < |es| ensures EndIn(es, k, outgoing) < EndIn(es, j, outgoing) {
      EndsRise(es, k, j, outgoing);
    }
  }

  /** Every kept edit ends less than 2^31 from the position. */
  ghost predicate InWindow(es: seq<Edit>, s: int, outgoing: bool) {
    forall k :: 0 <= k < |es| && |es| <= k + SLOTS ==> -WINDOW < s - EndIn(es, k, outgoing) < WINDOW
  }

  /** The delta the ring gives for a position with p edits behind it: their whole growth if the last of
      them is still kept, and nothing otherwise. */
  function Translation(es: seq<Edit>, p: nat): int
    requires p <= |es|
  {
    if p > 0 && |es| < p + SLOTS then Growth(es[..p]) else 0
  }

  /** The record of a slot is the nearest one behind the position, or none is behind it. */
  ghost predicate IsNearest(ring: seq<AckRecord>, pos: Dword, outgoing: bool, best: int) {
    && -1 <= best < |ring|
    && (best == -1 ==> forall i :: 0 <= i < |ring| ==> !Behind(ring[i], pos, outgoing))
    && (best >= 0 ==>
          && Behind(ring[best], pos, outgoing)
          && forall i :: 0 <= i < |ring| && Behind(ring[i], pos, outgoing) ==>
               SeqDiff(ring[best].Base(outgoing), pos) <= SeqDiff(ring[i].Base(outgoing), pos))
  }

  lemma NearestEdit(ring: seq<AckRecord>, es: seq<Edit>, s: int, outgoing: bool, best: int)
    requires |ring| == SLOTS && Ordered(es) && Holds(ring, es) && InWindow(es, s, outgoing)
    requires IsNearest(ring, Wrap(s), outgoing, best)
    ensures Translation(es, Passed(es, s, outgoing)) == if best == -1 then 0 else ring[best].delta
  {
    var n := |es|;
    var p := Passed(es, s, outgoing);
    if p > 0 && n < p + SLOTS {
      LastIsBehind(ring, es, s, outgoing, p - 1);
    }
    if best >= 0 {
      KeptIsBehind(ring, es, s, outgoing, best);
      var k := Kept(n, best);
      assert k < p;
      LastIsBehind(ring, es, s, outgoing, p - 1);
      EndsRiseFrom(es, k, outgoing);
      assert k == p - 1;
    }
  }

  /** The nearest record behind a position is that of the last edit behind it, as long as that one is kept. */
  lemma NearestIsLast(ring: seq<AckRecord>, es: seq<Edit>, s: int, outgoing: bool)
    requires |ring| == SLOTS && Ordered(es) && Holds(ring, es) && InWindow(es, s, outgoing)
    ensures DeltaAt(ring, Wrap(s), outgoing) == Translation(es, Passed(es, s, outgoing))
  {
    NearestEdit(ring, es, s, outgoing, Nearest(ring, |ring|, Wrap(s), outgoing));
  }

  lemma LastIsBehind(ring: seq<AckRecord>, es: seq<Edit>, s: int, outgoing: bool, k: nat)
    requires |ring| == SLOTS && Holds(ring, es) && InWindow(es, s, outgoing)
    requires k < |es| <= k + SLOTS && EndIn(es, k, outgoing) <= s
    ensures Behind(ring[k % SLOTS], Wrap(s), outgoing)
    ensures SeqDiff(ring[k % SLOTS].Base(outgoing), Wrap(s)) == s - EndIn(es, k, outgoing)
  {
    var i := k % SLOTS;
    SlotOf(|es|, k);
    assert SlotHolds(ring[i], es, i);
    KeptIsBehind(ring, es, s, outgoing, i);
  }

  lemma SlotOf(n: nat, k: nat)
    requires k < n <= k + SLOTS
    ensures k % SLOTS < n && Kept(n, k % SLOTS) == k
  {
  }

  /** A slot's record is behind the position exactly when its edit ends by it. */
  lemma KeptIsBehind(ring: seq<AckRecord>, es: seq<Edit>, s: int, outgoing: bool, i: nat)
    requires |ring| == SLOTS && Holds(ring, es) && InWindow(es, s, outgoing)
    requires i < SLOTS && ring[i].active
    ensures SlotHolds(ring[i], es, i) && i < |es| && ring[i].delta == Growth(es[..Kept(|es|, i) + 1])
    ensures SeqDiff(ring[i].Base(outgoing), Wrap(s)) == s - EndIn(es, Kept(|es|, i), outgoing)
  {
    assert SlotHolds(ring[i], es, i);
    var k := Kept(|es|, i);
    SeqDiffInWindow(EndIn(es, k, outgoing), s);
  }

  lemma AllPassed(es: seq<Edit>, e: Edit)
    requires Ordered(es + [e])
    ensures Ordered(es)
    ensures Passed(es, e.start, true) == |es|
    ensures Translation(es, |es|) == Growth(es)
  {
    var all := es + [e];
    assert forall k :: 0 <= k < |es| ==> all[k] == es[k];
    if es != [] {
      assert all[|es| - 1].End() <= all[|es|].start;
    }
    assert es[..|es|] == es;
  }

  lemma RecordOfNew(es: seq<Edit>, e: Edit, seqno: Dword)
    requires seqno == Wrap(e.start)
    ensures var all := es + [e];
            Record(all, |es|) == NewRecord(seqno, e.dlen, Growth(all))
  {
    var all := es + [e];
    assert all[..|es| + 1] == all;
    WrapAdd(e.start, e.dlen);
    WrapAdd(e.start, e.dlen + Growth(all));
  }

  /** Storing the new record at the ring index keeps every slot's newest edit. */
  lemma AddKeepsHolds(was: seq<AckRecord>, es: seq<Edit>, e: Edit, seqno: Dword)
    requires |was| == SLOTS && Holds(was, es) && seqno == Wrap(e.start)
    ensures Holds(was[|es| % SLOTS := NewRecord(seqno, e.dlen, Growth(es + [e]))], es + [e])
  {
    var n := |es|;
    var all := es + [e];
    var x := NewRecord(seqno, e.dlen, Growth(all));
    RecordOfNew(es, e, seqno);
    var now := was[n % SLOTS := x];
    forall i | 0 <= i < SLOTS ensures SlotHolds(now[i], all, i) {
      assert SlotHolds(was[i], es, i);
      KeptAfterAdd(n, i);
      if i < n && i != n % SLOTS {
        RecordStays(es, e, Kept(n, i));
      }
    }
  }

  lemma NextIndex(n: nat)
    ensures (n + 1) % SLOTS == if n % SLOTS + 1 == SLOTS then 0 else n % SLOTS + 1
  {
  }

  lemma KeptAfterAdd(n: nat, i: nat)
    requires i < SLOTS
    ensures i == n % SLOTS ==> i < n + 1 && Kept(n + 1, i) == n
    ensures i != n % SLOTS && i < n ==> Kept(n + 1, i) == Kept(n, i)
    ensures i != n % SLOTS && i >= n ==> i >= n + 1
  {
  }

  lemma RecordStays(es: seq<Edit>, e: Edit, k: nat)
    requires k < |es|
    ensures Record(es + [e], k) == Record(es, k)
  {
    assert es[..k + 1] == (es + [e])[..k + 1];
  }

  // ---------------------------------------------------------------- translation inverts

  /** A position between edit k and the next one, moved by the growth so far, has the same edits behind it. */
  lemma SamePassed(es: seq<Edit>, k: nat, s: int)
    requires Ordered(es) && k < |es|
    requires es[k].End() <= s && (k + 1 < |es| ==> s <= es[k + 1].start)
    ensures Passed(es, s, true) == k + 1
    ensures Passed(es, s + Growth(es[..k + 1]), false) == k + 1
  {
    var a := s + Growth(es[..k + 1]);
    var p, q := Passed(es, s, true), Passed(es, a, false);
    if k + 1 < |es| {
      NewEndsRise(es, k, k + 1);
      EndsRiseFrom(es, k + 1, true);
      EndsRiseFrom(es, k + 1, false);
    }
    assert EndIn(es, k, true) <= s && EndIn(es, k, false) <= a;
  }

  /** The theorem: from the end of a kept edit up to the start of the next, the outgoing sequence number
      is moved by the total growth D of the edits behind it, and an incoming acknowledgment of s + D is
      moved back by the same D. */
  lemma TranslationInverts(es: seq<Edit>, k: nat, s: int)
    requires Ordered(es) && k < |es| <= k + SLOTS
    requires es[k].End() <= s && (k + 1 < |es| ==> s <= es[k + 1].start)
    ensures var d := Growth(es[..k + 1]);
            && Translation(es, Passed(es, s, true)) == d
            && Translation(es, Passed(es, s + d, false)) == d
  {
    SamePassed(es, k, s);
  }

  /** What the circular log says of a position is the total growth of all edits behind it exactly when the last of
      them is still kept or they did not change the length in total. */
  lemma LookupIsRight(ring: seq<AckRecord>, es: seq<Edit>, s: int, outgoing: bool)
    requires |ring| == SLOTS && Ordered(es) && Holds(ring, es) && InWindow(es, s, outgoing)
    ensures var p := Passed(es, s, outgoing);
            DeltaAt(ring, Wrap(s), outgoing) == Growth(es[..p]) <==> |es| < p + SLOTS || Growth(es[..p]) == 0
  {
    NearestIsLast(ring, es, s, outgoing);
    assert es[..0] == [];
  }

  /** Four packets of one byte that grew to two. */
  const FORGOTTEN: seq<Edit> := [Edit(0, 1, 2), Edit(10, 1, 2), Edit(20, 1, 2), Edit(30, 1, 2)]

  /** After the fourth edit the first is forgotten: a retransmission from just behind it is not moved, although the
      stream had grown by one byte there. */
  lemma LookupForgets(ring: seq<AckRecord>)
    requires |ring| == SLOTS && Holds(ring, FORGOTTEN)
    ensures Growth(FORGOTTEN[..Passed(FORGOTTEN, 1, true)]) == 1 && DeltaAt(ring, Wrap(1), true) == 0
  {
    var es := FORGOTTEN;
    assert Passed(es, 1, true) == 1;
    assert es[..1][..0] == [] && es[..1][0] == Edit(0, 1, 2);
    NearestIsLast(ring, es, 1, true);
  }

  /** Such a log exists. */
  lemma ForgottenRing() returns (ring: seq<AckRecord>)
    ensures |ring| == SLOTS && Holds(ring, FORGOTTEN)
  {
    ring := seq(SLOTS, i requires 0 <= i < SLOTS => Record(FORGOTTEN, Kept(4, i)));
    forall i | 0 <= i < SLOTS ensures SlotHolds(ring[i], FORGOTTEN, i) {
    }
  }

  /** A sequence number sent out and the acknowledgment that comes back for it, in the 32-bit fields. */
  method SendAndAck(t: TcpDat, s: int, k: nat) returns (sent: Dword, acked: Dword)
    requires t.Valid() && k < |t.edits| <= k + SLOTS
    requires t.edits[k].End() <= s && (k + 1 < |t.edits| ==> s <= t.edits[k + 1].start)
    requires InWindow(t.edits, s, true) && InWindow(t.edits, s + Growth(t.edits[..k + 1]), false)
    ensures sent == Wrap(s + Growth(t.edits[..k + 1]))
    ensures acked == Wrap(s)
  {
    TranslationInverts(t.edits, k, s);
    var d := t.GetDeltaSeqOut(Wrap(s), s);
    sent := Wrap(Wrap(s) + d);
    WrapAdd(s, d);
    var d' := t.GetDeltaAckIn(sent, s + d);
    acked := Wrap(sent - d');
    WrapAdd(s + d, -d');
  }
}
