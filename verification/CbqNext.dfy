/**
  rmc_dequeue_next under weighted round robin: the poll cache, the search, the overlimit fallback and the
  bookkeeping.
 */
module CbqNext {
  import opened CbqState
  import opened CbqDequeue
  import opened CbqWrr
  import opened CbqSend
  import opened CbqRings

  datatype Op = Poll | Remove

  datatype Answer = Got(m: Packet) | Nothing | Panic

  /**
    Weighted round robin grants the turn to the class at position k of its ring: it picks that class there, nobody
    of higher priority may send at this cutoff, and nobody at all may send at a lower one tried before.  Accounts
    are as they were (accounts0), or used up if a lower cutoff was tried.
   */
  ghost predicate Granted(p: Pass, live: seq<bool>, na: seq<int>, rings: seq<seq<nat>>, timing: seq<Timing>,
                          cl: int, first: int, k: nat, cutoff0: nat, accounts0: seq<int>)
  {
    && !p.second && 0 <= cl < |p.q|
    && var i := p.v.conf[cl].pri;
    && i < |rings| && Picked(p, rings[i], k) && cl == rings[i][k]
    && AllRefused(p.v, p.cutoff, i + 1, live, p.q, timing, first != -1)
    && Raised(p.v, cutoff0, p.cutoff, live, p.q)
    && (if p.cutoff == cutoff0 then p.was == accounts0 else Spent(p.v.conf, live, na, p.was, 0))
  }

  /** Nobody may send: all were refused at a cutoff that could not be raised any further. */
  ghost predicate Idle(p: Pass, live: seq<bool>, timing: seq<Timing>, first: int, cutoff0: nat) {
    && Raised(p.v, cutoff0, p.cutoff, live, p.q)
    && AllRefused(p.v, p.cutoff, 0, live, p.q, timing, first != -1)
    && (first != -1 ==> p.v.depth != [] && p.cutoff >= p.v.depth[0] && Candidate(p.v, p.q, live, first))
  }

  function BorrowOf(conf: seq<Conf>, c: int): int {
    if 0 <= c < |conf| then conf[c].borrow else -1
  }

  /** When the search finds nobody, the cutoff is reset; under link efficiency the candidate sends all the same,
      at its lender's expense. */
  method Fallback(ifd: RmIfdat, first: int) returns (cl: int)
    requires ifd.s.qi < |ifd.s.borrowed| && ifd.s.borrowed[ifd.s.qi] == -1 && |ifd.c.depth| == |ifd.c.conf|
    requires Ordered(ifd.c.conf)
    requires first == -1 || (0 <= first < |ifd.c.conf| && ifd.c.conf[first].borrow != -1)
    modifies ifd`s, ifd`cutoff
    ensures cl == if ifd.efficient then first else -1
    ensures ifd.s == old(ifd.s).(borrowed := Lent(old(ifd.s.borrowed), ifd.s.qi, BorrowOf(ifd.c.conf, cl)))
    ensures cl == -1 ==> ifd.cutoff == ifd.maxDepth
    ensures cl != -1 ==>
      0 <= BorrowOf(ifd.c.conf, cl) < |ifd.c.depth| && ifd.cutoff == ifd.c.depth[BorrowOf(ifd.c.conf, cl)]
  {
    ifd.cutoff := ifd.maxDepth;
    if !ifd.efficient || first == -1 {
      return -1;
    }
    assert Linked(ifd.c.conf, first);
    cl := first;
    ifd.s := ifd.s.(borrowed := ifd.s.borrowed[ifd.s.qi := ifd.c.conf[cl].borrow]);
    ifd.cutoff := ifd.c.depth[ifd.c.conf[cl].borrow];
  }

  /** The search and what follows it when nobody may send. */
  method WrrChoose(ifd: RmIfdat, now: Time, ghost v: View)
    returns (cl: int, first: int, ghost k: nat, ghost p: Pass, ghost idle: bool)
    requires Static(ifd, v, now)
    requires |ifd.c.live| == |ifd.b.q| == |ifd.c.wAllotment| == |ifd.t.bytesAlloc| == |ifd.c.conf| > 0
    requires Sees(v, ifd.t.timing, now) && ifd.Accounts() && ifd.Rings() && ifd.Backlogs() && ifd.SlotsOk()
    modifies ifd`pollcache, ifd`s, ifd`t, ifd`l, ifd`cutoff
    ensures Sees(v, ifd.t.timing, now) && ifd.Accounts() && (old(ifd.Inv()) ==> ifd.Inv())
    ensures Since(ifd, v, Mark(old(ifd.t.timing), old(ifd.t.bytesAlloc), old(ifd.l)))
    ensures |ifd.t.bytesAlloc| == |ifd.c.conf| && ifd.pollcache == -1
    ensures p == Circuit(v, p.cutoff, ifd.b.q, ifd.c.wAllotment, p.was, false)
    ensures idle ==> Idle(p, ifd.c.live, ifd.t.timing, first, old(ifd.cutoff))
    ensures !idle ==>
      && ifd.cutoff == p.cutoff
      && Granted(p, ifd.c.live, ifd.b.na, ifd.g.rings, ifd.t.timing, cl, first, k, old(ifd.cutoff),
                 old(ifd.t.bytesAlloc))
    ensures !idle ==> ifd.t.bytesAlloc[cl] == TurnAccount(p, cl)
    ensures idle ==> cl == if ifd.efficient then first else -1
    ensures ifd.s.qi < |old(ifd.s.borrowed)|
    ensures ifd.s == old(ifd.s).(borrowed := old(ifd.s.borrowed)[ifd.s.qi :=
      if idle then BorrowOf(ifd.c.conf, cl) else LentBy(v, cl)])
    ensures cl != -1 ==> 0 <= cl < |ifd.c.conf| && ifd.c.live[cl] && ifd.b.q[cl] != []
    ensures idle && cl == -1 ==> ifd.cutoff == ifd.maxDepth
    ensures idle && cl != -1 ==>
      0 <= BorrowOf(ifd.c.conf, cl) < |ifd.c.depth| && ifd.cutoff == ifd.c.depth[BorrowOf(ifd.c.conf, cl)]
  {
    ifd.pollcache := -1;
    ifd.s := ifd.s.(borrowed := ifd.s.borrowed[ifd.s.qi := -1]);
    cl, first, k, p := WrrFind(ifd, now, v);
    idle := cl == -1;
    if cl == -1 {
      cl := Fallback(ifd, first);
    } else {
      ghost var i := ifd.c.conf[cl].pri;
      assert RingOk(ifd.g.rings[i], i, ifd.c.conf, ifd.c.live, ifd.c.peer, ifd.p.active[i]);
    }
  }

  /** Sending the head packet of a class: what both dequeue functions end with, the account being WRR's alone. */
  method Send(ifd: RmIfdat, cl: nat, first: int, now: Time) returns (m: Packet)
    requires ifd.Shape() && ifd.SlotsOk() && ifd.Rings() && ifd.Backlogs() && ifd.Weights() && ifd.Queues()
    requires ifd.Accounts()
    requires cl < |ifd.c.conf| && ifd.c.live[cl] && ifd.b.q[cl] != [] && ifd.Fits() && ifd.s.queued < ifd.maxqueued
    modifies ifd`b, ifd`t, ifd`l, ifd`p, ifd`g, ifd`s
    ensures ifd.Shape() && ifd.SlotsOk() && ifd.Rings() && ifd.Backlogs() && ifd.Weights() && ifd.Queues()
    ensures ifd.Accounts()
    ensures m == old(ifd.b.q)[cl][0] && ifd.b.q == old(ifd.b.q)[cl := old(ifd.b.q)[cl][1..]]
    ensures ifd.t == old(ifd.t).(bytesAlloc := old(ifd.t.bytesAlloc)[
      cl := Paid(ifd.wrr, old(ifd.t.bytesAlloc)[cl], m.len)])
    ensures ifd.wrr && old(ifd.t.bytesAlloc)[cl] > 0 ==>
      ifd.l.charged[cl] == old(ifd.l.charged)[cl] + m.len <= ifd.l.turn[cl] + ifd.largest - 1
    ensures cl < |old(ifd.l.charged)|
    ensures ifd.l == if ifd.wrr then Charged(old(ifd.l), cl, old(ifd.t.bytesAlloc)[cl], m.len) else old(ifd.l)
    ensures ifd.c.conf[cl].pri < ifd.maxPrio && ifd.p == old(ifd.p).(active := old(ifd.p.active)[ifd.c.conf[cl].pri :=
      if !ifd.wrr || ifd.t.bytesAlloc[cl] <= 0 || first == cl then ifd.c.peer[cl] else cl])
    ensures var i := old(ifd.s.qi); ifd.s == old(ifd.s).(
      sent := old(ifd.s.sent)[i := cl], curlen := old(ifd.s.curlen)[i := m.len], sentAt := old(ifd.s.sentAt)[i := now],
      qi := (i + 1) % ifd.maxqueued, queued := old(ifd.s.queued) + 1)
  {
    ghost var k := RingPlace(ifd, cl);
    var c, b, t, p, s := ifd.c, ifd.b, ifd.t, ifd.p, ifd.s;
    ghost var l, rings := ifd.l, ifd.g.rings;
    var i := c.conf[cl].pri;

    m := b.q[cl][0];
    assert Short(b.q[cl], ifd.largest);
    var rest := b.q[cl][1..];
    BacklogUpdate(c.conf, c.live, b.q, b.na, cl, rest);
    QueueTail(c.conf, b.q, cl);

    var account := Paid(ifd.wrr, t.bytesAlloc[cl], m.len);
    ChargeCovered(t.bytesAlloc, l.turn, l.charged, ifd.largest, cl, m.len, ifd.wrr);

    var past := !ifd.wrr || account <= 0 || first == cl;
    ghost var ring := Proceeded(rings, c, p, ifd.maxpkt, ifd.wrr, cl, k, past);
    SlotTaken(s.sent, s.qi, s.qo, s.queued, cl);

    ifd.b := Backlog(b.q[cl := rest], b.na[i := b.na[i] - if rest == [] then 1 else 0]);
    ifd.t := t.(bytesAlloc := t.bytesAlloc[cl := account]);
    ifd.l := if ifd.wrr then Charged(l, cl, t.bytesAlloc[cl], m.len) else l;
    ifd.p := p.(active := p.active[i := if past then c.peer[cl] else cl]);
    ifd.g := Order(rings[i := ring]);
    ifd.s := s.(sent := s.sent[s.qi := cl], curlen := s.curlen[s.qi := m.len], sentAt := s.sentAt[s.qi := now],
                qi := (s.qi + 1) % ifd.maxqueued, queued := s.queued + 1);
  }

  // ---------------------------------------------------------------- the whole dequeue

  /** The class found or polled sends its packet, or is polled. */
  method Finish(ifd: RmIfdat, op: Op, cl: nat, first: int, now: Time) returns (r: Answer)
    requires ifd.Inv() && ifd.Accounts() && ifd.Fits() && ifd.s.queued < ifd.maxqueued
    requires ifd.pollcache == -1 && cl < |ifd.c.conf| && ifd.c.live[cl]
    modifies ifd`b, ifd`t, ifd`l, ifd`p, ifd`g, ifd`s, ifd`pollcache
    ensures r.Panic? <==> old(ifd.b.q)[cl] == []
    ensures !r.Panic? ==> ifd.Inv() && ifd.Accounts() && ifd.Fits() && ifd.Polled()
    ensures !r.Panic? ==> r == Got(old(ifd.b.q)[cl][0])
    ensures ifd.t.timing == old(ifd.t.timing)
    ensures op.Poll? ==> ifd.b == old(ifd.b) && ifd.t == old(ifd.t) && ifd.p == old(ifd.p) && ifd.s == old(ifd.s)
    ensures cl < |old(ifd.t.bytesAlloc)| == |old(ifd.l.charged)|
    ensures !r.Panic? ==>
      ifd.l == if ifd.wrr && op.Remove? then Charged(old(ifd.l), cl, old(ifd.t.bytesAlloc)[cl], r.m.len) else old(ifd.l)
    ensures !r.Panic? ==> ifd.pollcache == if op.Poll? then cl else -1
    ensures op.Remove? && !r.Panic? ==> Sent(ifd, cl, first, now, r.m, old(ifd.b), old(ifd.t), old(ifd.p), old(ifd.s))
  {
    if ifd.b.q[cl] == [] {
      return Panic;
    }
    if op.Remove? {
      var m := Send(ifd, cl, first, now);
      r := Got(m);
    } else {
      ifd.pollcache := cl;
      r := Got(ifd.b.q[cl][0]);
    }
  }

  /** What sending has done: the packet left its queue, was charged, and sits in the next slot; the ring starts
      at the class as long as its account lasts, and behind it otherwise. */
  ghost predicate Sent(ifd: RmIfdat, cl: nat, first: int, now: Time, m: Packet, b0: Backlog, t0: Turns, p0: Levels,
                       s0: Slots)
    reads ifd`b, ifd`t, ifd`p, ifd`s, ifd`c
  {
    && cl < |b0.q| && b0.q[cl] != [] && m == b0.q[cl][0] && ifd.b.q == b0.q[cl := b0.q[cl][1..]]
    && cl < |t0.bytesAlloc| && ifd.t == t0.(bytesAlloc := t0.bytesAlloc[cl := Paid(ifd.wrr, t0.bytesAlloc[cl], m.len)])
    && cl < |ifd.c.conf| && cl < |ifd.c.peer| && ifd.c.conf[cl].pri < |p0.active|
    && ifd.p == p0.(active := p0.active[ifd.c.conf[cl].pri :=
                      if !ifd.wrr || ifd.t.bytesAlloc[cl] <= 0 || first == cl then ifd.c.peer[cl] else cl])
    && s0.qi < |s0.sent| == |s0.curlen| == |s0.sentAt| == ifd.maxqueued
    && ifd.s == s0.(sent := s0.sent[s0.qi := cl], curlen := s0.curlen[s0.qi := m.len],
                    sentAt := s0.sentAt[s0.qi := now],
                    qi := (s0.qi + 1) % ifd.maxqueued, queued := s0.queued + 1)
  }

  /** What a dequeue did to the queues and rings: nothing unless a packet was removed. */
  ghost predicate Moved(ifd: RmIfdat, op: Op, r: Answer, cl: int, first: int, b0: Backlog, p0: Levels)
    reads ifd`b, ifd`t, ifd`p, ifd`c
  {
    if op.Remove? && r.Got? then
      && 0 <= cl < |b0.q| && b0.q[cl] != [] && ifd.b.q == b0.q[cl := b0.q[cl][1..]]
      && cl < |ifd.t.bytesAlloc| && cl < |ifd.c.conf| && cl < |ifd.c.peer| && ifd.c.conf[cl].pri < |p0.active|
      && ifd.p == p0.(active := p0.active[ifd.c.conf[cl].pri :=
                        if !ifd.wrr || ifd.t.bytesAlloc[cl] <= 0 || first == cl then ifd.c.peer[cl] else cl])
    else ifd.b == b0 && ifd.p == p0
  }

  /** The next slot is taken by the class when a packet was removed. */
  function SlotFilled(s: Slots, cl: int, m: Packet, now: Time): Slots
    requires s.qi < |s.sent| == |s.curlen| == |s.sentAt|
  {
    s.(sent := s.sent[s.qi := cl], curlen := s.curlen[s.qi := m.len], sentAt := s.sentAt[s.qi := now],
       qi := (s.qi + 1) % |s.sent|, queued := s.queued + 1)
  }

  ghost predicate Slotting(s: Slots, op: Op, r: Answer, cl: int, now: Time, s0: Slots) {
    && s0.qi < |s0.sent| == |s0.curlen| == |s0.sentAt|
    && s == if op.Remove? && r.Got? then SlotFilled(s0, cl, r.m, now) else s0
  }

  /** The next slot names the lender, and is taken when a packet was removed. */
  ghost predicate Slotted(ifd: RmIfdat, op: Op, r: Answer, cl: int, lender: int, now: Time, s0: Slots)
    reads ifd`s
  {
    && s0.qi < |s0.borrowed| && |s0.sent| == ifd.maxqueued
    && Slotting(ifd.s, op, r, cl, now, s0.(borrowed := s0.borrowed[s0.qi := lender]))
  }

  /** What follows a search: the class that was found sends its packet or is polled. */
  method Act(ifd: RmIfdat, op: Op, cl: int, first: int, now: Time) returns (r: Answer)
    requires ifd.Inv() && ifd.Accounts() && ifd.Fits() && ifd.s.queued < ifd.maxqueued && ifd.pollcache == -1
    requires cl == -1 || (0 <= cl < |ifd.c.conf| && ifd.c.live[cl] && ifd.b.q[cl] != [])
    modifies ifd`b, ifd`t, ifd`l, ifd`p, ifd`g, ifd`s, ifd`pollcache
    ensures ifd.Inv() && ifd.Accounts() && ifd.Fits() && ifd.Polled() && !r.Panic?
    ensures r == if cl == -1 then Nothing else Got(old(ifd.b.q)[cl][0])
    ensures ifd.pollcache == if op.Poll? then cl else -1
    ensures Moved(ifd, op, r, cl, first, old(ifd.b), old(ifd.p))
    ensures Slotting(ifd.s, op, r, cl, now, old(ifd.s)) && |ifd.s.sent| == ifd.maxqueued
    ensures Paying(ifd, op, r, cl, old(ifd.t), old(ifd.l)) && ifd.t.timing == old(ifd.t.timing)
  {
    if cl == -1 {
      return Nothing;
    }
    r := Finish(ifd, op, cl, first, now);
  }

  /** The account of the class pays for what was removed under weighted round robin. */
  ghost predicate Paying(ifd: RmIfdat, op: Op, r: Answer, cl: int, t0: Turns, l0: Ledger)
    reads ifd`t, ifd`l
  {
    if op.Remove? && r.Got? then
      && 0 <= cl < |t0.bytesAlloc| == |l0.charged|
      && ifd.t == t0.(bytesAlloc := t0.bytesAlloc[cl := Paid(ifd.wrr, t0.bytesAlloc[cl], r.m.len)])
      && ifd.l == if ifd.wrr then Charged(l0, cl, t0.bytesAlloc[cl], r.m.len) else l0
    else ifd.t == t0 && ifd.l == l0
  }

  /** What was billed since the search began. */
  lemma Bill(ifd: RmIfdat, op: Op, r: Answer, cl: int, b0: seq<int>, l0: Ledger, t1: Turns, l1: Ledger)
    requires Turning(b0, l0, t1.bytesAlloc, l1, ifd.c.wAllotment) && Paying(ifd, op, r, cl, t1, l1) && ifd.wrr
    ensures Billed(b0, l0, ifd.t.bytesAlloc, ifd.l, ifd.c.wAllotment, Sender(op, r, cl), SentLen(op, r))
    ensures |ifd.t.bytesAlloc| == |t1.bytesAlloc|
    ensures 0 <= cl < |t1.bytesAlloc| && r.Got? ==>
      ifd.t.bytesAlloc[cl] == Paid(true, t1.bytesAlloc[cl], if op.Remove? then r.m.len else 0)
  {
    if op.Remove? && r.Got? {
      BillOne(b0, l0, t1.bytesAlloc, l1, ifd.c.wAllotment, cl, r.m.len);
    } else {
      BillNone(b0, l0, t1.bytesAlloc, l1, ifd.c.wAllotment);
    }
  }

  /** Who sent how much; -1 and 0 if nothing was removed. */
  function Sender(op: Op, r: Answer, cl: int): int { if op.Remove? && r.Got? then cl else -1 }

  function SentLen(op: Op, r: Answer): nat { if op.Remove? && r.Got? then r.m.len else 0 }

  /** What follows a search under weighted round robin, and what was billed since the search began. */
  method Charge(ifd: RmIfdat, op: Op, cl: int, first: int, now: Time, ghost v: View, ghost m0: Mark)
    returns (r: Answer)
    requires ifd.Inv() && ifd.Accounts() && ifd.Fits() && ifd.s.queued < ifd.maxqueued && ifd.pollcache == -1
    requires cl == -1 || (0 <= cl < |ifd.c.conf| && ifd.c.live[cl] && ifd.b.q[cl] != [])
    requires ifd.wrr && Since(ifd, v, m0)
    modifies ifd`b, ifd`t, ifd`l, ifd`p, ifd`g, ifd`s, ifd`pollcache
    ensures ifd.Inv() && ifd.Accounts() && ifd.Fits() && ifd.Polled() && !r.Panic?
    ensures r == if cl == -1 then Nothing else Got(old(ifd.b.q)[cl][0])
    ensures ifd.pollcache == if op.Poll? then cl else -1
    ensures Moved(ifd, op, r, cl, first, old(ifd.b), old(ifd.p))
    ensures Slotting(ifd.s, op, r, cl, now, old(ifd.s)) && |ifd.s.sent| == ifd.maxqueued
    ensures StillAsleep(v, m0.timing, ifd.t.timing)
    ensures ifd.t.timing == old(ifd.t.timing)
    ensures Billed(m0.accounts, m0.ledger, ifd.t.bytesAlloc, ifd.l, ifd.c.wAllotment, Sender(op, r, cl), SentLen(op, r))
    ensures |ifd.t.bytesAlloc| == |old(ifd.t.bytesAlloc)|
    ensures cl != -1 ==> ifd.t.bytesAlloc[cl] == Paid(true, old(ifd.t.bytesAlloc)[cl], SentLen(op, r))
  {
    ghost var t1, l1 := ifd.t, ifd.l;
    r := Act(ifd, op, cl, first, now);
    Bill(ifd, op, r, cl, m0.accounts, m0.ledger, t1, l1);
  }

  /** _wrr_dequeue_next without a cached class: search, then send or poll the class found. */
  method WrrFresh(ifd: RmIfdat, op: Op, now: Time, ghost v: View)
    returns (r: Answer, ghost cl: int, ghost first: int, ghost k: nat, ghost p: Pass, ghost idle: bool)
    requires ifd.Inv() && ifd.Accounts() && ifd.Fits() && ifd.s.queued < ifd.maxqueued && ifd.wrr
    requires Static(ifd, v, now) && Sees(v, ifd.t.timing, now) && ifd.c.conf != []
    modifies ifd`b, ifd`t, ifd`l, ifd`p, ifd`g, ifd`s, ifd`pollcache, ifd`cutoff
    ensures ifd.Inv() && ifd.Accounts() && ifd.Fits() && ifd.Polled() && !r.Panic?
    ensures StillAsleep(v, old(ifd.t.timing), ifd.t.timing)
    ensures p == Circuit(v, p.cutoff, old(ifd.b.q), ifd.c.wAllotment, p.was, false)
    ensures idle ==>
      Idle(p, ifd.c.live, ifd.t.timing, first, old(ifd.cutoff)) && cl == if ifd.efficient then first else -1
    ensures !idle ==> Granted(p, ifd.c.live, old(ifd.b.na), old(ifd.g.rings), ifd.t.timing, cl, first, k,
                              old(ifd.cutoff), old(ifd.t.bytesAlloc)) && ifd.cutoff == p.cutoff
    ensures cl != -1 ==> 0 <= cl < |ifd.c.conf| && ifd.c.live[cl] && old(ifd.b.q)[cl] != []
    ensures r == if cl == -1 then Nothing else Got(old(ifd.b.q)[cl][0])
    ensures ifd.pollcache == if op.Poll? then cl else -1
    ensures Moved(ifd, op, r, cl, first, old(ifd.b), old(ifd.p))
    ensures Slotted(ifd, op, r, cl, if idle then BorrowOf(ifd.c.conf, cl) else LentBy(v, cl), now, old(ifd.s))
    ensures Billed(old(ifd.t.bytesAlloc), old(ifd.l), ifd.t.bytesAlloc, ifd.l, ifd.c.wAllotment,
                   Sender(op, r, cl), SentLen(op, r))
    ensures !idle ==> ifd.t.bytesAlloc[cl] == Paid(true, TurnAccount(p, cl), if op.Remove? then r.m.len else 0)
  {
    var c, f;
    c, f, k, p, idle := WrrChoose(ifd, now, v);
    cl, first := c, f;
    r := Charge(ifd, op, c, f, now, v, Mark(old(ifd.t.timing), old(ifd.t.bytesAlloc), old(ifd.l)));
  }

  /** Under WRR and link efficiency a cached class is judged again, only to see whether it borrows from nobody. */
  method Recheck(ifd: RmIfdat, cl: nat, now: Time, ghost v: View) returns (first: int)
    requires ifd.SlotsOk() && Static(ifd, v, now) && Sees(v, ifd.t.timing, now) && cl < |ifd.c.conf|
    modifies ifd`t, ifd`s
    ensures ifd.SlotsOk() && |ifd.t.timing| == |old(ifd.t.timing)| && ifd.t.bytesAlloc == old(ifd.t.bytesAlloc)
    ensures StillAsleep(v, old(ifd.t.timing), ifd.t.timing)
    ensures first == if ifd.wrr && ifd.efficient && !CanSend(v, ifd.cutoff, cl) then cl else -1
    ensures ifd.s == old(ifd.s).(borrowed := old(ifd.s.borrowed)[ifd.s.qi := ifd.s.borrowed[ifd.s.qi]])
    ensures !(ifd.wrr && ifd.efficient) ==> ifd.s == old(ifd.s)
  {
    first := -1;
    assert Linked(v.conf, cl) && SeesClass(v, cl, ifd.t.timing[cl], now);
    if ifd.wrr && ifd.efficient && ifd.t.timing[cl].undertime.sec != 0 {
      var sends := UnderLimit(ifd, cl, now, v);
      if !sends {
        first := cl;
      }
    }
  }

  /** The class a poll has left in the cache sends without a search. */
  method Cached(ifd: RmIfdat, now: Time, ghost v: View) returns (r: Answer, ghost first: int)
    requires ifd.Inv() && ifd.Accounts() && ifd.Fits() && ifd.s.queued < ifd.maxqueued
    requires Static(ifd, v, now) && Sees(v, ifd.t.timing, now)
    requires 0 <= ifd.pollcache < |ifd.c.conf| && ifd.c.live[ifd.pollcache]
    modifies ifd`b, ifd`t, ifd`l, ifd`p, ifd`g, ifd`s, ifd`pollcache
    ensures r.Panic? <==> old(ifd.b.q)[old(ifd.pollcache)] == []
    ensures !r.Panic? ==> ifd.Inv() && ifd.Accounts() && ifd.Fits() && ifd.pollcache == -1
    ensures !r.Panic? ==> r == Got(old(ifd.b.q)[old(ifd.pollcache)][0])
    ensures !r.Panic? ==> Moved(ifd, Remove, r, old(ifd.pollcache), first, old(ifd.b), old(ifd.p))
    ensures !r.Panic? ==> Slotted(ifd, Remove, r, old(ifd.pollcache), ifd.s.borrowed[old(ifd.s.qi)], now, old(ifd.s))
    ensures !(ifd.wrr && ifd.efficient) && !r.Panic? ==> ifd.s.borrowed == old(ifd.s.borrowed)
    ensures StillAsleep(v, old(ifd.t.timing), ifd.t.timing)
    ensures !r.Panic? ==> if ifd.wrr then Billed(old(ifd.t.bytesAlloc), old(ifd.l), ifd.t.bytesAlloc, ifd.l,
                                                 ifd.c.wAllotment, old(ifd.pollcache), r.m.len)
                          else ifd.t.bytesAlloc == old(ifd.t.bytesAlloc) && ifd.l == old(ifd.l)
    ensures first ==
      if ifd.wrr && ifd.efficient && !CanSend(v, ifd.cutoff, old(ifd.pollcache)) then old(ifd.pollcache) else -1
  {
    var cl := ifd.pollcache;
    var f := Recheck(ifd, cl, now, v);
    ifd.pollcache := -1;
    first := f;
    r := Finish(ifd, Remove, cl, f, now);
    if !r.Panic? && ifd.wrr {
      BillOne(old(ifd.t.bytesAlloc), old(ifd.l), old(ifd.t.bytesAlloc), old(ifd.l), ifd.c.wAllotment, cl, r.m.len);
    }
  }
}
