/**
  rmc_dequeue_next as a whole, and what it promises.
 */
module CbqRun {
  import opened CbqState
  import opened CbqDequeue
  import opened CbqWrr
  import opened CbqNext
  import P = CbqPrr
  import T = CbqTree
  import opened CbqSend

  // ---------------------------------------------------------------- what a dequeue promises

  /** Every backlogged class is asleep until later. */
  ghost predicate AllAsleep(c: Classes, q: seq<seq<Packet>>, timing: seq<Timing>, v: View) {
    forall x :: 0 <= x < |q| && x < |c.live| && x < |timing| && x < |v.over| && c.live[x] && q[x] != [] ==>
      v.over[x] && timing[x].sleeping
  }

  /** When a search comes away empty under a single root, everybody with a packet is asleep: no class is held
      back by the cutoff, and no class can send at any cutoff. */
  lemma IdleMeansAsleep(c: Classes, v: View, p: Pass, timing: seq<Timing>, first: int, cutoff0: nat)
    requires Tree(c.conf, c.live, c.children) && DepthsExact(c.live, c.children, c.depth, -1)
    requires T.SingleRoot(c.conf, c.live) && v == p.v && v.conf == c.conf && v.depth == c.depth
    requires Idle(p, c.live, timing, first, cutoff0)
    ensures AllAsleep(c, p.q, timing, v)
    ensures forall k: nat :: NobodySends(v, k, c.live, p.q)
  {
    forall x | 0 <= x < |p.q| && c.live[x] && p.q[x] != []
      ensures v.over[x] && timing[x].sleeping && forall k: nat :: !CanSend(v, k, x)
    {
      assert Refused(v, p.cutoff, x, p.q[x] != [], timing[x].sleeping, first != -1);
      if first != -1 {
        T.NothingCut(v, c.live, c.children, p.cutoff, x);
      }
      assert !ChainCut(v, p.cutoff, x);
      forall k: nat ensures !CanSend(v, k, x) {
        ChainCases(v, p.cutoff, x);
        ChainCases(v, k, x);
      }
    }
  }

  /** No backlogged class of a higher priority may send at this cutoff. */
  ghost predicate NobodyAbove(v: View, cutoff: nat, live: seq<bool>, q: seq<seq<Packet>>, cl: int) {
    0 <= cl < |v.conf| && forall x :: 0 <= x < |q| && x < |live| && x < |v.conf| ==>
      (live[x] && q[x] != [] && v.conf[x].pri > v.conf[cl].pri ==> !CanSend(v, cutoff, x))
  }

  lemma RefusedAbove(v: View, cutoff: nat, live: seq<bool>, q: seq<seq<Packet>>, timing: seq<Timing>, noted: bool,
                     cl: int)
    requires 0 <= cl < |v.conf| && AllRefused(v, cutoff, v.conf[cl].pri + 1, live, q, timing, noted)
    ensures NobodyAbove(v, cutoff, live, q, cl)
  {
    forall x | 0 <= x < |q| && live[x] && q[x] != [] && v.conf[x].pri > v.conf[cl].pri ensures !CanSend(v, cutoff, x) {
      assert Refused(v, cutoff, x, q[x] != [], timing[x].sleeping, noted);
    }
  }

  /** How a dequeue came to its answer: no slot was free; a class was cached; one was chosen at this cutoff; or
      nobody could send, and a candidate may have sent all the same. */
  datatype Reason = Full | Cached(cl: int) | Chosen(cl: int, cutoff: nat) | Starved(cl: int)

  /** The head packet of a class. */
  function HeadOf(q: seq<seq<Packet>>, cl: int): Answer {
    if 0 <= cl < |q| && q[cl] != [] then Got(q[cl][0]) else Nothing
  }

  /** The queues without it. */
  function TailOf(q: seq<seq<Packet>>, cl: int): seq<seq<Packet>> {
    if 0 <= cl < |q| && q[cl] != [] then q[cl := q[cl][1..]] else q
  }

  /**
    A chosen class can send, while nobody of higher priority can, and nobody at all could at a lower cutoff tried
    before.  If nobody was chosen, nobody can send at any cutoff, and under a single root everyone with a packet
    is asleep.
   */
  ghost predicate Justified(why: Reason, v: View, c: Classes, q: seq<seq<Packet>>, timing: seq<Timing>, cutoff0: nat) {
    match why
    case Chosen(cl, cutoff) =>
      && CanSend(v, cutoff, cl) && HeadOf(q, cl).Got? && cl < |c.live| && c.live[cl]
      && NobodyAbove(v, cutoff, c.live, q, cl) && Raised(v, cutoff0, cutoff, c.live, q)
    case Starved(cl) => T.SingleRoot(c.conf, c.live) ==>
      AllAsleep(c, q, timing, v) && forall k: nat :: NobodySends(v, k, c.live, q)
    case _ => true
  }

  lemma ChosenJustified(p: Pass, c: Classes, timing: seq<Timing>, cl: nat, noted: bool, cutoff0: nat)
    requires Eligible(p, cl) && AllRefused(p.v, p.cutoff, p.v.conf[cl].pri + 1, c.live, p.q, timing, noted)
    requires Raised(p.v, cutoff0, p.cutoff, c.live, p.q) && c.live[cl]
    ensures Justified(Chosen(cl, p.cutoff), p.v, c, p.q, timing, cutoff0)
  {
    RefusedAbove(p.v, p.cutoff, c.live, p.q, timing, noted, cl);
  }

  lemma StarvedJustified(p: Pass, c: Classes, timing: seq<Timing>, cl: int, first: int, cutoff0: nat)
    requires Tree(c.conf, c.live, c.children) && DepthsExact(c.live, c.children, c.depth, -1)
    requires p.v.conf == c.conf && p.v.depth == c.depth && Idle(p, c.live, timing, first, cutoff0)
    ensures Justified(Starved(cl), p.v, c, p.q, timing, cutoff0)
  {
    if T.SingleRoot(c.conf, c.live) {
      IdleMeansAsleep(c, p.v, p, timing, first, cutoff0);
    }
  }

  /** What a dequeue without a cached class does, whatever its discipline. */
  ghost predicate Served(ifd: RmIfdat, op: Op, r: Answer, why: Reason, now: Time, q0: seq<seq<Packet>>, s0: Slots)
    reads ifd`b, ifd`s, ifd`pollcache
  {
    && (why.Chosen? || (why.Starved? && (why.cl != -1 ==> ifd.efficient)))
    && r == HeadOf(q0, why.cl) && (r.Nothing? <==> why.cl == -1)
    && ifd.b.q == (if op.Remove? then TailOf(q0, why.cl) else q0)
    && ifd.pollcache == (if op.Poll? then why.cl else -1)
    && Handed(ifd.s, op, r, why.cl, now, s0)
  }

  /** A packet that is removed goes into the next slot of the driver, as one of this class. */
  ghost predicate Handed(s: Slots, op: Op, r: Answer, cl: int, now: Time, s0: Slots) {
    Slotting(s, op, r, cl, now, s0.(borrowed := s.borrowed))
  }

  method FreshWrr(ifd: RmIfdat, op: Op, now: Time, ghost v: View) returns (r: Answer, ghost why: Reason)
    requires ifd.Inv() && ifd.Accounts() && ifd.Fits() && ifd.s.queued < ifd.maxqueued && ifd.wrr
    requires Static(ifd, v, now) && Sees(v, ifd.t.timing, now) && ifd.c.conf != []
    modifies ifd`b, ifd`t, ifd`l, ifd`p, ifd`g, ifd`s, ifd`pollcache, ifd`cutoff
    ensures ifd.Inv() && ifd.Accounts() && ifd.Fits() && ifd.Polled()
    ensures StillAsleep(v, old(ifd.t.timing), ifd.t.timing)
    ensures Justified(why, v, ifd.c, old(ifd.b.q), ifd.t.timing, old(ifd.cutoff))
    ensures Served(ifd, op, r, why, now, old(ifd.b.q), old(ifd.s))
    ensures Billed(old(ifd.t.bytesAlloc), old(ifd.l), ifd.t.bytesAlloc, ifd.l, ifd.c.wAllotment,
                   Sender(op, r, why.cl), SentLen(op, r))
  {
    ghost var cl, first, k, p, idle;
    r, cl, first, k, p, idle := WrrFresh(ifd, op, now, v);
    if idle {
      why := Starved(cl);
      StarvedJustified(p, ifd.c, ifd.t.timing, cl, first, old(ifd.cutoff));
    } else {
      why := Chosen(cl, p.cutoff);
      ChosenJustified(p, ifd.c, ifd.t.timing, cl, first != -1, old(ifd.cutoff));
    }
  }

  method FreshPrr(ifd: RmIfdat, op: Op, now: Time, ghost v: View) returns (r: Answer, ghost why: Reason)
    requires ifd.Inv() && ifd.Accounts() && ifd.Fits() && ifd.s.queued < ifd.maxqueued && !ifd.wrr
    requires Static(ifd, v, now) && Sees(v, ifd.t.timing, now) && ifd.c.conf != []
    modifies ifd`b, ifd`t, ifd`l, ifd`p, ifd`g, ifd`s, ifd`pollcache, ifd`cutoff
    ensures ifd.Inv() && ifd.Accounts() && ifd.Fits() && ifd.Polled()
    ensures StillAsleep(v, old(ifd.t.timing), ifd.t.timing)
    ensures Justified(why, v, ifd.c, old(ifd.b.q), ifd.t.timing, old(ifd.cutoff))
    ensures Served(ifd, op, r, why, now, old(ifd.b.q), old(ifd.s))
    ensures ifd.t.bytesAlloc == old(ifd.t.bytesAlloc) && ifd.l == old(ifd.l)
  {
    ghost var cl, first, k, p, idle;
    r, cl, first, k, p, idle := P.PrrFresh(ifd, op, now, v);
    if idle {
      why := Starved(cl);
      StarvedJustified(p, ifd.c, ifd.t.timing, cl, first, old(ifd.cutoff));
    } else {
      why := Chosen(cl, p.cutoff);
      ChosenJustified(p, ifd.c, ifd.t.timing, cl, first != -1, old(ifd.cutoff));
    }
  }

  /** rmc_dequeue_next.  It panics exactly if the class in the poll cache has lost its packets. */
  method DequeueNext(ifd: RmIfdat, op: Op, now: Time, ghost v: View) returns (r: Answer, ghost why: Reason)
    requires ifd.Inv() && ifd.Accounts() && ifd.Fits() && ifd.c.conf != []
    requires Static(ifd, v, now) && Sees(v, ifd.t.timing, now)
    requires -1 <= ifd.pollcache < |ifd.c.conf| && (ifd.pollcache != -1 ==> ifd.c.live[ifd.pollcache])
    modifies ifd`b, ifd`t, ifd`l, ifd`p, ifd`g, ifd`s, ifd`pollcache, ifd`cutoff
    ensures r.Panic? <==> why.Cached? && HeadOf(old(ifd.b.q), old(ifd.pollcache)).Nothing?
    ensures !r.Panic? ==> ifd.Inv() && ifd.Accounts() && ifd.Fits()
    ensures !r.Panic? && (old(ifd.Polled()) || !why.Full?) ==> ifd.Polled()
    ensures StillAsleep(v, old(ifd.t.timing), ifd.t.timing)
    ensures why.Full? <==> old(ifd.s.queued) >= ifd.maxqueued
    ensures why.Full? ==> r == Nothing && ifd.b == old(ifd.b) && ifd.t == old(ifd.t) && ifd.s == old(ifd.s)
                          && ifd.pollcache == old(ifd.pollcache) && ifd.cutoff == old(ifd.cutoff)
    ensures why.Cached? <==> op.Remove? && old(ifd.pollcache) != -1 && old(ifd.s.queued) < ifd.maxqueued
    ensures why.Cached? && !r.Panic? ==> why.cl == old(ifd.pollcache) && r == HeadOf(old(ifd.b.q), why.cl)
                                         && ifd.b.q == TailOf(old(ifd.b.q), why.cl) && ifd.pollcache == -1
                                         && Handed(ifd.s, op, r, why.cl, now, old(ifd.s))
    ensures why.Chosen? || why.Starved? ==> Justified(why, v, ifd.c, old(ifd.b.q), ifd.t.timing, old(ifd.cutoff))
                                            && Served(ifd, op, r, why, now, old(ifd.b.q), old(ifd.s))
    ensures !r.Panic? && !why.Full? && ifd.wrr ==>
      Billed(old(ifd.t.bytesAlloc), old(ifd.l), ifd.t.bytesAlloc, ifd.l, ifd.c.wAllotment, Sender(op, r, why.cl),
             SentLen(op, r))
    ensures why.Full? || (!r.Panic? && !ifd.wrr) ==> ifd.t.bytesAlloc == old(ifd.t.bytesAlloc) && ifd.l == old(ifd.l)
    ensures !r.Panic? && old(Allotted(ifd.l.turn, ifd.c.wAllotment)) ==> Allotted(ifd.l.turn, ifd.c.wAllotment)
  {
    if ifd.s.queued >= ifd.maxqueued {
      r, why := Nothing, Full;
    } else if op.Remove? && ifd.pollcache != -1 {
      why := Reason.Cached(ifd.pollcache);
      ghost var first;
      r, first := CbqNext.Cached(ifd, now, v);
      if !r.Panic? && ifd.wrr && old(Allotted(ifd.l.turn, ifd.c.wAllotment)) {
        StaysAllotted(old(ifd.t.bytesAlloc), old(ifd.l), ifd.t.bytesAlloc, ifd.l, ifd.c.wAllotment, why.cl, r.m.len);
      }
    } else if ifd.wrr {
      r, why := FreshWrr(ifd, op, now, v);
      if old(Allotted(ifd.l.turn, ifd.c.wAllotment)) {
        StaysAllotted(old(ifd.t.bytesAlloc), old(ifd.l), ifd.t.bytesAlloc, ifd.l, ifd.c.wAllotment,
                    Sender(op, r, why.cl), SentLen(op, r));
      }
    } else {
      r, why := FreshPrr(ifd, op, now, v);
    }
  }

  /** A packet polled is the packet removed next, whatever the clock says by then. */
  method PollThenRemove(ifd: RmIfdat, now: Time, later: Time, ghost v: View) returns (r1: Answer, r2: Answer)
    requires ifd.Inv() && ifd.Accounts() && ifd.Fits() && ifd.c.conf != [] && later.sec > 0
    requires Static(ifd, v, now) && Sees(v, ifd.t.timing, now) && ifd.Polled() && ifd.s.queued < ifd.maxqueued
    modifies ifd`b, ifd`t, ifd`l, ifd`p, ifd`g, ifd`s, ifd`pollcache, ifd`cutoff
    ensures !r1.Panic? && !r2.Panic? && ifd.Inv() && ifd.Polled()
    ensures r1.Got? ==> r2 == r1 && ifd.s.queued == old(ifd.s.queued) + 1
  {
    ghost var why;
    r1, why := DequeueNext(ifd, Poll, now, v);
    ghost var w := Look(ifd.c.conf, ifd.c.depth, ifd.t.timing, later);
    ghost var why2;
    r2, why2 := DequeueNext(ifd, Remove, later, w);
  }
}
