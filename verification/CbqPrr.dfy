/**
  Packet-by-packet round robin: the same search without accounts, and its bookkeeping.
 */
module CbqPrr {
  import opened Wrappers
  import opened CbqState
  import opened CbqDequeue
  import opened CbqWrr
  import opened CbqNext

  /** The class round robin picks: the first of the ring that has a packet and may send. */
  ghost predicate FirstEligible(p: Pass, r: seq<nat>, k: nat) {
    k < |r| && Eligible(p, r[k]) && forall j :: 0 <= j < k ==> !Eligible(p, r[j])
  }

  /** The first k classes of the ring were refused. */
  ghost predicate PrrScanned(p: Pass, r: seq<nat>, k: nat, timing: seq<Timing>, noted: bool) {
    && Within(r, |p.q|) && k <= |r| && |timing| == |p.q|
    && forall j :: 0 <= j < k ==> Refused(p.v, p.cutoff, r[j], p.q[r[j]] != [], timing[r[j]].sleeping, noted)
  }

  lemma PrrStep(p: Pass, r: seq<nat>, k: nat, timing: seq<Timing>, noted: bool, t: Timing, noted': bool, c: nat)
    requires PrrScanned(p, r, k, timing, noted) && (noted ==> noted') && NoDup(r) && c < |timing|
    requires k < |r| ==> c == r[k]
    ensures k < |r| ==> PrrScanned(p, r, k, timing[c := t], noted')
    ensures k < |r| && Refused(p.v, p.cutoff, r[k], p.q[r[k]] != [], t.sleeping, noted') ==>
      PrrScanned(p, r, k + 1, timing[c := t], noted')
  {
  }

  /** The body of the loop: one class is asked. */
  method PrrAsk(ifd: RmIfdat, cl: nat, first0: int, now: Time, ghost p: Pass, ghost r: seq<nat>, ghost k: nat,
                ghost t0: seq<Timing>)
    returns (picked: bool, first: int)
    requires About(p, ifd, now) && Sees(p.v, ifd.t.timing, now) && StillAsleep(p.v, t0, ifd.t.timing)
    requires ifd.s.qi < |ifd.s.borrowed| && ifd.s.borrowed[ifd.s.qi] == -1
    requires PrrScanned(p, r, k, ifd.t.timing, first0 != -1) && k < |r| && NoDup(r) && cl == r[k] && ifd.c.live[cl]
    modifies ifd`s, ifd`t
    ensures Sees(p.v, ifd.t.timing, now) && StillAsleep(p.v, t0, ifd.t.timing)
    ensures ifd.t.bytesAlloc == old(ifd.t.bytesAlloc)
    ensures picked ==> Eligible(p, cl)
    ensures PrrScanned(p, r, if picked then k else k + 1, ifd.t.timing, first != -1)
    ensures ifd.s == old(ifd.s).(
      borrowed := Lent(old(ifd.s.borrowed), ifd.s.qi, if picked then LentBy(p.v, cl) else -1))
    ensures first == first0 || (first0 == -1 && Candidate(p.v, p.q, ifd.c.live, first))
  {
    picked, first := false, first0;
    ghost var timing := ifd.t.timing;
    if ifd.b.q[cl] != [] {
      var sends := Judge(ifd, cl, now, p.v);
      if sends {
        picked := true;
      } else if first == -1 && ifd.c.conf[cl].borrow != -1 {
        first := cl;
      }
    }
    PrrStep(p, r, k, timing, first0 != -1, ifd.t.timing[cl], first != -1, cl);
  }

  /** One pass over the ring of priority i. */
  method PrrScan(ifd: RmIfdat, i: nat, first0: int, now: Time, ghost p: Pass, ghost t0: seq<Timing>)
    returns (chosen: int, first: int, ghost k: nat)
    requires About(p, ifd, now) && Sees(p.v, ifd.t.timing, now) && StillAsleep(p.v, t0, ifd.t.timing)
    requires ifd.s.qi < |ifd.s.borrowed| && ifd.s.borrowed[ifd.s.qi] == -1
    requires i < |ifd.g.rings| == |ifd.p.active| && ifd.g.rings[i] != []
    requires Members(ifd.g.rings[i], i, ifd.c.conf, ifd.c.live) && Cycle(ifd.g.rings[i], ifd.c.peer, ifd.p.active[i])
    modifies ifd`s, ifd`t
    ensures Sees(p.v, ifd.t.timing, now) && StillAsleep(p.v, t0, ifd.t.timing)
    ensures ifd.t.bytesAlloc == old(ifd.t.bytesAlloc)
    ensures PrrScanned(p, ifd.g.rings[i], k, ifd.t.timing, first != -1)
    ensures if chosen == -1 then k == |ifd.g.rings[i]|
            else k < |ifd.g.rings[i]| && chosen == ifd.g.rings[i][k] && Eligible(p, chosen)
    ensures ifd.s == old(ifd.s).(borrowed := Lent(old(ifd.s.borrowed), ifd.s.qi, LentBy(p.v, chosen)))
    ensures first == first0 || (first0 == -1 && Candidate(p.v, p.q, ifd.c.live, first))
  {
    ghost var r := ifd.g.rings[i];
    var cl: nat := ifd.p.active[i];
    chosen, first, k := -1, first0, 0;
    var more := true;
    while more
      invariant Sees(p.v, ifd.t.timing, now) && StillAsleep(p.v, t0, ifd.t.timing)
      invariant ifd.t.bytesAlloc == old(ifd.t.bytesAlloc)
      invariant PrrScanned(p, r, k, ifd.t.timing, first != -1)
      invariant if more then k < |r| && cl == r[k] && chosen == -1
                else if chosen == -1 then k == |r| else k < |r| && chosen == r[k] && Eligible(p, chosen)
      invariant ifd.s == old(ifd.s).(borrowed := Lent(old(ifd.s.borrowed), ifd.s.qi, LentBy(p.v, chosen)))
      invariant first == first0 || (first0 == -1 && Candidate(p.v, p.q, ifd.c.live, first))
      decreases more, |r| - k
    {
      var picked;
      picked, first := PrrAsk(ifd, cl, first, now, p, r, k, t0);
      if picked {
        chosen, more := cl, false;
      } else {
        assert ifd.c.peer[r[k]] == r[Succ(k, |r|)];
        k := k + 1;
        cl := ifd.c.peer[cl];
        more := cl != ifd.p.active[i];
      }
    }
  }

  /** The class the search found: the first eligible one of its ring, with nobody of higher priority able to send. */
  ghost predicate PrrFound(ifd: RmIfdat, p: Pass, chosen: int, k: nat, noted: bool)
    reads ifd`c, ifd`g, ifd`t
  {
    && 0 <= chosen < |p.q|
    && var i := p.v.conf[chosen].pri;
    && i < |ifd.g.rings| && FirstEligible(p, ifd.g.rings[i], k) && chosen == ifd.g.rings[i][k]
    && AllRefused(p.v, p.cutoff, i + 1, ifd.c.live, p.q, ifd.t.timing, noted)
  }

  /** A round comes to the next priority. */
  method PrrLevel(ifd: RmIfdat, i: nat, first0: int, now: Time, ghost p: Pass, ghost t0: seq<Timing>)
    returns (chosen: int, first: int, ghost k: nat)
    requires About(p, ifd, now) && Sees(p.v, ifd.t.timing, now) && StillAsleep(p.v, t0, ifd.t.timing)
    requires ifd.s.qi < |ifd.s.borrowed| && ifd.s.borrowed[ifd.s.qi] == -1
    requires i < ifd.maxPrio && ifd.Rings() && ifd.Backlogs()
    requires AllRefused(p.v, p.cutoff, i + 1, ifd.c.live, p.q, ifd.t.timing, first0 != -1)
    modifies ifd`s, ifd`t
    ensures Sees(p.v, ifd.t.timing, now) && StillAsleep(p.v, t0, ifd.t.timing)
    ensures ifd.t.bytesAlloc == old(ifd.t.bytesAlloc)
    ensures if chosen != -1 then PrrFound(ifd, p, chosen, k, first != -1)
            else AllRefused(p.v, p.cutoff, i, ifd.c.live, p.q, ifd.t.timing, first != -1)
    ensures ifd.s == old(ifd.s).(borrowed := Lent(old(ifd.s.borrowed), ifd.s.qi, LentBy(p.v, chosen)))
    ensures first == first0 || (first0 == -1 && Candidate(p.v, p.q, ifd.c.live, first))
  {
    BacklogShows(ifd, i);
    if ifd.b.na[i] == 0 {
      RefuseLevel(p.v, p.cutoff, i, ifd.c.live, p.q, ifd.t.timing, first0 != -1, []);
      return -1, first0, 0;
    }
    ghost var r := ifd.g.rings[i];
    assert RingOk(r, i, ifd.c.conf, ifd.c.live, ifd.c.peer, ifd.p.active[i]);
    ghost var timing := ifd.t.timing;
    chosen, first, k := PrrScan(ifd, i, first0, now, p, timing);
    AsleepTrans(p.v, t0, timing, ifd.t.timing);
    RefusalsLast(p.v, p.cutoff, i + 1, ifd.c.live, p.q, timing, ifd.t.timing, first0 != -1, first != -1);
    if chosen != -1 {
      forall j | 0 <= j < k ensures !Eligible(p, r[j]) {
        assert Refused(p.v, p.cutoff, r[j], p.q[r[j]] != [], ifd.t.timing[r[j]].sleeping, first != -1);
      }
    } else {
      RefuseLevel(p.v, p.cutoff, i, ifd.c.live, p.q, ifd.t.timing, first != -1, r);
    }
  }

  /** One round over all priorities, and the cutoff raised for another if a candidate could borrow further up. */
  method PrrTry(ifd: RmIfdat, first0: int, now: Time, ghost v: View, ghost t0: seq<Timing>, ghost cutoff0: nat)
    returns (chosen: int, first: int, more: bool, ghost k: nat, ghost p: Pass)
    requires Static(ifd, v, now)
    requires |ifd.c.live| == |ifd.b.q| == |ifd.c.wAllotment| == |ifd.t.bytesAlloc| == |ifd.c.conf| > 0
    requires Sees(v, ifd.t.timing, now) && StillAsleep(v, t0, ifd.t.timing) && ifd.Rings() && ifd.Backlogs()
    requires ifd.s.qi < |ifd.s.borrowed| && ifd.s.borrowed[ifd.s.qi] == -1
    requires Raised(v, cutoff0, ifd.cutoff, ifd.c.live, ifd.b.q)
    modifies ifd`s, ifd`t, ifd`cutoff
    ensures Sees(v, ifd.t.timing, now) && StillAsleep(v, t0, ifd.t.timing)
    ensures ifd.t.bytesAlloc == old(ifd.t.bytesAlloc) && Raised(v, cutoff0, ifd.cutoff, ifd.c.live, ifd.b.q)
    ensures p == Circuit(v, old(ifd.cutoff), ifd.b.q, ifd.c.wAllotment, ifd.t.bytesAlloc, true)
    ensures if more then chosen == -1 && ifd.cutoff == old(ifd.cutoff) + 1 <= ifd.c.depth[0]
            else PrrDone(ifd, p, chosen, first, k)
    ensures ifd.s == old(ifd.s).(borrowed := Lent(old(ifd.s.borrowed), ifd.s.qi, LentBy(v, chosen)))
    ensures first == first0 || (first0 == -1 && Candidate(v, ifd.b.q, ifd.c.live, first))
  {
    p := Circuit(v, ifd.cutoff, ifd.b.q, ifd.c.wAllotment, ifd.t.bytesAlloc, true);
    chosen, first, k, more := -1, first0, 0, false;
    var i := ifd.maxPrio;
    while i > 0 && chosen == -1
      invariant 0 <= i <= ifd.maxPrio && ifd.t.bytesAlloc == old(ifd.t.bytesAlloc) && ifd.cutoff == old(ifd.cutoff)
      invariant Sees(v, ifd.t.timing, now) && StillAsleep(v, t0, ifd.t.timing)
      invariant if chosen != -1 then PrrFound(ifd, p, chosen, k, first != -1)
                else AllRefused(v, p.cutoff, i, ifd.c.live, p.q, ifd.t.timing, first != -1)
      invariant ifd.s == old(ifd.s).(borrowed := Lent(old(ifd.s.borrowed), ifd.s.qi, LentBy(v, chosen)))
      invariant first == first0 || (first0 == -1 && Candidate(v, ifd.b.q, ifd.c.live, first))
    {
      i := i - 1;
      chosen, first, k := PrrLevel(ifd, i, first, now, p, t0);
    }
    if chosen == -1 && first != -1 && ifd.cutoff < ifd.c.depth[0] {
      RaiseOnce(v, cutoff0, ifd.cutoff, ifd.c.live, ifd.b.q, ifd.t.timing, first != -1);
      ifd.cutoff := ifd.cutoff + 1;
      more := true;
    }
  }

  /** A search is over: it has found a class, or it has refused everyone and no higher cutoff was left to try. */
  ghost predicate PrrDone(ifd: RmIfdat, p: Pass, chosen: int, first: int, k: nat)
    reads ifd`c, ifd`g, ifd`t, ifd`cutoff
  {
    && p.cutoff == ifd.cutoff
    && if chosen != -1 then PrrFound(ifd, p, chosen, k, first != -1)
       else AllRefused(p.v, p.cutoff, 0, ifd.c.live, p.q, ifd.t.timing, first != -1)
            && (first != -1 ==> ifd.c.depth != [] && ifd.cutoff >= ifd.c.depth[0])
  }

  /** The search, its retries, and what follows it when nobody may send. */
  method PrrChoose(ifd: RmIfdat, now: Time, ghost v: View)
    returns (cl: int, first: int, ghost k: nat, ghost p: Pass, ghost idle: bool)
    requires Static(ifd, v, now)
    requires |ifd.c.live| == |ifd.b.q| == |ifd.c.wAllotment| == |ifd.t.bytesAlloc| == |ifd.c.conf| > 0
    requires Sees(v, ifd.t.timing, now) && ifd.Rings() && ifd.Backlogs() && ifd.SlotsOk()
    modifies ifd`pollcache, ifd`s, ifd`t, ifd`cutoff
    ensures StillAsleep(v, old(ifd.t.timing), ifd.t.timing)
    ensures ifd.t.bytesAlloc == old(ifd.t.bytesAlloc) && ifd.pollcache == -1
    ensures p == Circuit(v, p.cutoff, ifd.b.q, ifd.c.wAllotment, ifd.t.bytesAlloc, true)
    ensures idle ==> Idle(p, ifd.c.live, ifd.t.timing, first, old(ifd.cutoff))
    ensures !idle ==> ifd.cutoff == p.cutoff && PrrFound(ifd, p, cl, k, first != -1)
                      && Raised(v, old(ifd.cutoff), p.cutoff, ifd.c.live, ifd.b.q)
    ensures idle ==> cl == if ifd.efficient then first else -1
    ensures ifd.s.qi < |old(ifd.s.borrowed)|
    ensures ifd.s == old(ifd.s).(borrowed := old(ifd.s.borrowed)[ifd.s.qi :=
      if idle then BorrowOf(ifd.c.conf, cl) else LentBy(v, cl)])
    ensures cl != -1 ==> 0 <= cl < |ifd.c.conf| && ifd.c.live[cl] && ifd.b.q[cl] != []
    ensures idle && cl != -1 ==>
      0 <= BorrowOf(ifd.c.conf, cl) < |ifd.c.depth| && ifd.cutoff == ifd.c.depth[BorrowOf(ifd.c.conf, cl)]
    ensures idle && cl == -1 ==> ifd.cutoff == ifd.maxDepth
  {
    ifd.pollcache := -1;
    ifd.s := ifd.s.(borrowed := ifd.s.borrowed[ifd.s.qi := -1]);
    ghost var t0, cutoff0 := ifd.t.timing, ifd.cutoff;
    var more := true;
    ghost var s1 := ifd.s;
    cl, first, k, p := -1, -1, 0, Circuit(v, cutoff0, ifd.b.q, ifd.c.wAllotment, ifd.t.bytesAlloc, true);
    while more
      invariant Sees(v, ifd.t.timing, now) && StillAsleep(v, t0, ifd.t.timing) && ifd.pollcache == -1
      invariant ifd.t.bytesAlloc == old(ifd.t.bytesAlloc) && Raised(v, cutoff0, ifd.cutoff, ifd.c.live, ifd.b.q)
      invariant p == Circuit(v, p.cutoff, ifd.b.q, ifd.c.wAllotment, ifd.t.bytesAlloc, true)
      invariant if more then cl == -1 else PrrDone(ifd, p, cl, first, k)
      invariant ifd.s == s1.(borrowed := Lent(s1.borrowed, s1.qi, LentBy(v, cl)))
      invariant first == -1 || Candidate(v, ifd.b.q, ifd.c.live, first)
      decreases ifd.c.depth[0] - ifd.cutoff, more
    {
      cl, first, more, k, p := PrrTry(ifd, first, now, v, t0, cutoff0);
    }
    idle := cl == -1;
    if cl == -1 {
      cl := Fallback(ifd, first);
    } else {
      ghost var i := ifd.c.conf[cl].pri;
      assert RingOk(ifd.g.rings[i], i, ifd.c.conf, ifd.c.live, ifd.c.peer, ifd.p.active[i]);
    }
  }

  /** _prr_dequeue_next without a cached class: search, then send or poll the class found. */
  method PrrFresh(ifd: RmIfdat, op: Op, now: Time, ghost v: View)
    returns (r: Answer, ghost cl: int, ghost first: int, ghost k: nat, ghost p: Pass, ghost idle: bool)
    requires ifd.Inv() && ifd.Accounts() && ifd.Fits() && ifd.s.queued < ifd.maxqueued && !ifd.wrr
    requires Static(ifd, v, now) && Sees(v, ifd.t.timing, now) && ifd.c.conf != []
    modifies ifd`b, ifd`t, ifd`l, ifd`p, ifd`g, ifd`s, ifd`pollcache, ifd`cutoff
    ensures ifd.Inv() && ifd.Accounts() && ifd.Fits() && ifd.Polled() && !r.Panic?
    ensures StillAsleep(v, old(ifd.t.timing), ifd.t.timing)
    ensures p == Circuit(v, p.cutoff, old(ifd.b.q), ifd.c.wAllotment, old(ifd.t.bytesAlloc), true)
    ensures idle ==>
      Idle(p, ifd.c.live, ifd.t.timing, first, old(ifd.cutoff)) && cl == if ifd.efficient then first else -1
    ensures !idle ==> PrrGranted(p, ifd.c.live, old(ifd.g.rings), ifd.t.timing, cl, first, k, old(ifd.cutoff))
    ensures cl != -1 ==> 0 <= cl < |ifd.c.conf| && ifd.c.live[cl] && old(ifd.b.q)[cl] != []
    ensures r == if cl == -1 then Nothing else Got(old(ifd.b.q)[cl][0])
    ensures ifd.pollcache == if op.Poll? then cl else -1
    ensures Moved(ifd, op, r, cl, first, old(ifd.b), old(ifd.p))
    ensures Slotted(ifd, op, r, cl, if idle then BorrowOf(ifd.c.conf, cl) else LentBy(v, cl), now, old(ifd.s))
    ensures ifd.t.bytesAlloc == old(ifd.t.bytesAlloc) && ifd.l == old(ifd.l)
  {
    var c, f;
    c, f, k, p, idle := PrrChoose(ifd, now, v);
    cl, first := c, f;
    r := Act(ifd, op, c, f, now);
  }

  /** Round robin grants the turn to the first class of its ring that has a packet and may send; nobody of higher
      priority may send at this cutoff, and nobody at all at a lower one tried before. */
  ghost predicate PrrGranted(p: Pass, live: seq<bool>, rings: seq<seq<nat>>, timing: seq<Timing>,
                             cl: int, first: int, k: nat, cutoff0: nat)
  {
    && 0 <= cl < |p.q|
    && var i := p.v.conf[cl].pri;
    && i < |rings| && FirstEligible(p, rings[i], k) && cl == rings[i][k]
    && AllRefused(p.v, p.cutoff, i + 1, live, p.q, timing, first != -1)
    && Raised(p.v, cutoff0, p.cutoff, live, p.q)
  }
}
