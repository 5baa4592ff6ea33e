/** red_addq and red_getq on the linked queue. */
module HashFairQueue {
  import opened HashFair
  import opened ClassQueue

  /** The ring successor of the packet at k. */
  lemma RingStep(q: Queue, k: int)
    requires q.Valid() && q.pkts != [] && -1 <= k < |q.pkts|
    ensures q.pkts[if k == -1 then |q.pkts| - 1 else k].next == q.pkts[if k == |q.pkts| - 1 then 0 else k + 1]
    ensures 0 <= k < |q.pkts| - 1 ==> q.pkts[k + 1] != q.pkts[0]
  {
  }

  /**
    The insertion walk over a nonempty queue: the packet to insert behind (null for the tail) and the
    number of queued packets of the same host.
   */
  method Walk(q: Queue, mhash: Hash) returns (mc: Mbuf?, qpkts: nat)
    requires q.Valid() && q.pkts != [] && Fair(q.HashSeq())
    ensures qpkts == Count(q.HashSeq(), mhash)
    ensures var k := Place(q.HashSeq(), mhash);
            if mc == null then k == |q.pkts| else 1 <= k < |q.pkts| && mc == q.pkts[k - 1]
  {
    ghost var h := q.HashSeq();
    ghost var n := |q.pkts|;
    var mi: Mbuf := q.tail;
    var mp: Mbuf? := null;
    mc := null;
    var head: Mbuf := mi.next;
    var ihash: Hash, phash: Hash := 0, 0;
    qpkts := 0;
    ghost var k := -1;
    var more := true;
    while more
      invariant -1 <= k < n && (more ==> k < n - 1) && (k == -1 ==> more)
      invariant mi == q.pkts[if k == -1 then n - 1 else k]
      invariant k >= 0 ==> ihash == h[k]
      invariant mp != null <==> k >= 1
      invariant k >= 1 ==> mp == q.pkts[k - 1] && phash == h[k - 1]
      invariant qpkts == Count(h[..k + 1], mhash)
      invariant forall j :: 1 <= j < k ==> !GapAt(h, j, mhash)
      invariant mc == null ==> (k >= 1 ==> !GapAt(h, k, mhash)) && (!more ==> k == n - 1)
      invariant mc != null ==> k >= 1 && mc == q.pkts[k - 1] && GapAt(h, k, mhash) && !more
      decreases n - k, more
    {
      RingStep(q, k);
      if mi.next != head {
        mp := mi;
        phash := ihash;
      }
      mi := mi.next;
      ihash := mi.qid;
      k := k + 1;
      assert h[..k + 1][..k] == h[..k];
      if ihash == mhash {
        qpkts := qpkts + 1;
      } else if mp != null && phash != mhash {
        if phash == ihash
           || (ihash > mhash && phash < mhash)
           || (phash > ihash && ((phash < mhash && ihash < mhash) || (phash > mhash && ihash > mhash))) {
          mc := mp;
        }
      }
      RingStep(q, k);
      more := mi.next != head && mc == null;
    }
    WalkEndsAtPlace(h, mhash, k, mc != null);
  }

  /** Relinking packets moves their hashes along. */
  lemma HashesMove(q: Queue, was: seq<Mbuf>, h: seq<Hash>, k: nat, m: Mbuf)
    requires k <= |was| == |h| && q.pkts == InsertAt(was, k, m)
    requires forall i :: 0 <= i < |was| ==> h[i] == was[i].qid
    ensures q.HashSeq() == InsertAt(h, k, m.qid)
  {
    var a, b := q.HashSeq(), InsertAt(h, k, m.qid);
    forall i | 0 <= i < |a| ensures a[i] == b[i] {
    }
  }

  lemma InsertAtEnd<T>(s: seq<T>, x: T)
    ensures InsertAt(s, |s|, x) == s + [x]
  {
  }

  /** The packet goes behind mc, or to the end if mc is null. */
  method Link(q: Queue, m: Mbuf, mc: Mbuf?, ghost k: nat)
    requires q.Valid() && m !in q.pkts && k <= |q.pkts|
    requires if mc == null then k == |q.pkts| else 1 <= k < |q.pkts| && mc == q.pkts[k - 1]
    modifies q`tail, q`qlen, q`pkts, m`next, q.pkts`next
    ensures q.Valid() && q.pkts == InsertAt(old(q.pkts), k, m)
    ensures q.HashSeq() == InsertAt(old(q.HashSeq()), k, m.qid)
  {
    ghost var was, h := q.pkts, q.HashSeq();
    if mc == null {
      InsertAtEnd(q.pkts, m);
      q.AddQ(m);
    } else {
      q.InsQ(m, mc, k);
    }
    HashesMove(q, was, h, k, m);
  }

  /**
    red_addq.  The packet is dropped when the queue is full or its host holds HOST_LIMIT packets;
    otherwise it goes where HashFair.Place says.  The queue must be one that only RedAddQ and GetQ
    have filled, which is what Fair says.
   */
  method RedAddQ(q: Queue, m: Mbuf, ecn: bool) returns (queued: bool)
    requires q.Valid() && m !in q.pkts && Fair(q.HashSeq())
    modifies q`tail, q`qlen, q`pkts, m`next, m`qid, q.pkts`next
    ensures q.Valid() && m.qid == PacketHash(m.hdr, ecn)
    ensures queued <==> |old(q.pkts)| < q.qlim && Count(old(q.HashSeq()), m.qid) < HOST_LIMIT
    ensures q.pkts == if queued then InsertAt(old(q.pkts), Place(old(q.HashSeq()), m.qid), m) else old(q.pkts)
    ensures q.HashSeq() == if queued then InsertAt(old(q.HashSeq()), Place(old(q.HashSeq()), m.qid), m.qid)
                                     else old(q.HashSeq())
    ensures Fair(q.HashSeq())
  {
    m.qid := PacketHash(m.hdr, ecn);
    assert q.HashSeq() == old(q.HashSeq());
    queued := AddHashed(q, m);
  }

  /** The same, once the hash is set. */
  method AddHashed(q: Queue, m: Mbuf) returns (queued: bool)
    requires q.Valid() && m !in q.pkts && Fair(q.HashSeq())
    modifies q`tail, q`qlen, q`pkts, m`next, q.pkts`next
    ensures q.Valid() && Fair(q.HashSeq())
    ensures queued <==> |old(q.pkts)| < q.qlim && Count(old(q.HashSeq()), m.qid) < HOST_LIMIT
    ensures q.pkts == if queued then InsertAt(old(q.pkts), Place(old(q.HashSeq()), m.qid), m) else old(q.pkts)
    ensures q.HashSeq() == if queued then InsertAt(old(q.HashSeq()), Place(old(q.HashSeq()), m.qid), m.qid)
                                     else old(q.HashSeq())
  {
    ghost var h := q.HashSeq();
    if q.qlen >= q.qlim {
      return false;
    }
    var mc: Mbuf?, qpkts := null, 0;
    if q.tail == null {
      assert h == [];
    } else {
      mc, qpkts := Walk(q, m.qid);
    }
    if qpkts >= HOST_LIMIT {
      return false;
    }
    PlaceKeepsFair(h, m.qid);
    Link(q, m, mc, Place(h, m.qid));
    queued := true;
  }

  /** The walk stops at the place, and what it has counted by then is the host's whole share. */
  lemma WalkEndsAtPlace(h: seq<Hash>, m: Hash, k: int, found: bool)
    requires Fair(h) && 0 <= k < |h|
    requires forall j :: 1 <= j < k ==> !GapAt(h, j, m)
    requires if found then k >= 1 && GapAt(h, k, m) else k == |h| - 1 && (k >= 1 ==> !GapAt(h, k, m))
    ensures Place(h, m) == if found then k else |h|
    ensures Count(h[..k + 1], m) == Count(h, m)
  {
    var r := Place(h, m);
    assert 1 <= r < |h| ==> GapAt(h, r, m);
    if found {
      assert r == k;
      assert h[..k + 1][..k] == h[..k];
    } else {
      assert r == |h|;
      assert h[..k + 1] == h;
    }
    PlaceBehindOwnHost(h, m);
  }

  /** red_getq takes the head and leaves the rest fair. */
  method RedGetQ(q: Queue) returns (r: Mbuf?)
    requires q.Valid() && Fair(q.HashSeq())
    modifies q`tail, q`qlen, q`pkts, q.pkts`next
    ensures q.Valid() && Fair(q.HashSeq())
    ensures old(q.pkts) == [] ==> r == null && q.pkts == []
    ensures old(q.pkts) != [] ==> r == old(q.pkts)[0] && q.pkts == old(q.pkts)[1..]
    ensures old(q.pkts) != [] ==> q.HashSeq() == old(q.HashSeq())[1..]
  {
    ghost var h := q.HashSeq();
    r := q.GetQ();
    if r != null {
      assert q.HashSeq() == h[1..];
      TailKeepsFair(h);
    }
  }
}
