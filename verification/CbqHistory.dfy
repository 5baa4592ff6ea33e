/**
  Runs of the scheduler: any sequence of creating, changing and deleting classes, queueing, flushing, dequeueing,
  completing and waking keeps every invariant, and as long as nobody takes the packets of a polled class away, no
  dequeue panics.
 */
module CbqHistory {
  import opened CbqState
  import B = CbqSend
  import N = CbqNext
  import R = CbqRun
  import T = CbqTree
  import S = CbqSetup
  import Q = CbqQueue
  import U = CbqUtil
  import W = CbqWrr
  import D = CbqDriver

  datatype Request =
    | Create(pri: nat, parent: nat, borrow: int, red: bool, nsPerByte: nat, maxq: nat, maxidle: nat, minidle: int,
             offtime: nat)
    | Modify(cl: nat, nsPerByte: nat, maxq: nat, maxidle: nat, minidle: int, offtime: nat)
    | Delete(cl: nat)
    | Enqueue(cl: nat, m: Packet)
    | Flush(cl: nat)
    | Next(op: N.Op)
    | Complete
    | Wake(cl: nat)

  /** What a run keeps. */
  ghost predicate Good(ifd: RmIfdat)
    reads ifd
  {
    && ifd.Inv() && ifd.Accounts() && ifd.Tempered() && ifd.Polled()
    && ifd.Fits() && T.SingleRoot(ifd.c.conf, ifd.c.live)
  }

  predicate Live(c: Classes, cl: nat) { cl < |c.live| && c.live[cl] }

  /** What callers see to: classes named are live, a new class has a parent and borrows from ancestors only, a deleted
      one has no children and is not the root, and a class that was polled is neither deleted nor flushed. */
  predicate Legal(c: Classes, pollcache: int, r: Request) {
    match r
    case Create(_, parent, borrow, _, ns, _, _, _, _) =>
      Live(c, parent) && ns > 0 && S.MayBorrow(c.conf, parent, borrow)
    case Modify(cl, ns, _, _, _, _) => Live(c, cl) && ns > 0
    case Delete(cl) => Live(c, cl) && cl != 0 && cl < |c.children| && c.children[cl] == [] && pollcache != cl
    case Enqueue(cl, _) => Live(c, cl)
    case Flush(cl) => Live(c, cl) && pollcache != cl
    case Wake(cl) => Live(c, cl)
    case _ => true
  }

  /** What became of a request: it was left out because it is not legal, or served. */
  datatype Outcome = Refused | Served(a: N.Answer)

  /** What a run is seen by: the classes, their queues, the packets with the driver, when the link will be done with the
      last one completed, the polled class, the clocks of the classes and the cutoff. */
  datatype Shot = Shot(c: Classes, q: seq<seq<Packet>>, driver: seq<D.Job>, ifnow: Time, pollcache: int,
                       timing: seq<Timing>, cutoff: nat)

  ghost function ShotOf(ifd: RmIfdat): Shot
    requires ifd.SlotsOk()
    reads ifd
  {
    Shot(ifd.c, ifd.b.q, D.Jobs(ifd.s), ifd.s.ifnow, ifd.pollcache, ifd.t.timing, ifd.cutoff)
  }

  /** What no request changes. */
  datatype Limits = Limits(maxPrio: nat, maxqueued: nat, efficient: bool, nsPerByte: nat, maxiftime: int, f: U.Filter)

  function LimitsOf(ifd: RmIfdat, f: U.Filter): Limits {
    Limits(ifd.maxPrio, ifd.maxqueued, ifd.efficient, ifd.nsPerByte, ifd.maxiftime, f)
  }

  /** No estimator has run. */
  ghost predicate SameEstimates(t0: seq<Timing>, t1: seq<Timing>) {
    |t1| == |t0| && forall c :: 0 <= c < |t0| ==> U.SameEstimate(t0[c], t1[c])
  }

  /** The estimators of the job's class and its ancestors have run, and no others. */
  ghost predicate Estimated(x: Shot, job: D.Job, f: U.Filter, y: Shot) {
    && |y.timing| == |x.timing| == |x.c.est| == |x.c.conf| && f.gain > 0
    && forall c :: 0 <= c < |x.timing| ==>
      && x.c.est[c].minidle <= 0 < x.c.est[c].maxidle
      && y.timing[c] == if OnBranch(x.c.conf, job.cl, c)
                        then U.Estimate(x.timing[c], x.c.est[c], f, job.at, y.ifnow, job.len) else x.timing[c]
  }

  /** The oldest packet with the driver is done. */
  ghost predicate Completed(x: Shot, y: Shot, l: Limits) {
    if x.driver == [] then y == x
    else
      var job := x.driver[0];
      && 0 <= job.cl < |x.c.conf|
      && y == x.(driver := x.driver[1..], timing := y.timing, cutoff := y.cutoff,
                 ifnow := U.Finished(l.f, job.at, x.ifnow, U.NsecToUsec(job.len * l.nsPerByte), l.maxiftime))
      && Estimated(x, job, l.f, y)
  }

  /** What the clocks show at a time. */
  ghost predicate Shows(x: Shot, now: Time, v: View) {
    v.conf == x.c.conf && v.depth == x.c.depth && Sees(v, x.timing, now)
  }

  /** The head of class cl, if it has one, is the answer; it is handed to the driver if it is removed, and the class is
      cached if it is polled. */
  ghost predicate HeadTaken(x: Shot, op: N.Op, now: Time, cl: int, a: N.Answer, y: Shot) {
    && a == R.HeadOf(x.q, cl) && SameEstimates(x.timing, y.timing)
    && y == Shot(x.c, if op.Remove? then R.TailOf(x.q, cl) else x.q,
                 x.driver + (if op.Remove? && a.Got? then [D.Job(cl, a.m.len, now)] else []), x.ifnow,
                 if op.Poll? then cl else -1, y.timing, y.cutoff)
  }

  /** Where the answer comes from: the polled class; a class that can send while none above it can; or nobody, because
      every class with a packet is asleep, or the candidate of link efficiency then. */
  ghost predicate Explained(x: Shot, op: N.Op, now: Time, v: View, why: R.Reason, a: N.Answer, y: Shot, l: Limits) {
    match why
    case Full => false
    case Cached(cl) => op.Remove? && cl == x.pollcache != -1 && a.Got? && HeadTaken(x, op, now, cl, a, y)
    case Chosen(cl, _) =>
      && !(op.Remove? && x.pollcache != -1) && a.Got? && HeadTaken(x, op, now, cl, a, y)
      && R.Justified(why, v, x.c, x.q, y.timing, x.cutoff)
    case Starved(cl) =>
      && !(op.Remove? && x.pollcache != -1) && HeadTaken(x, op, now, cl, a, y)
      && (a.Nothing? <==> cl == -1) && (a.Got? ==> l.efficient)
      && R.AllAsleep(x.c, x.q, y.timing, v) && forall k: nat :: W.NobodySends(v, k, x.c.live, x.q)
  }

  ghost predicate Dequeued(x: Shot, op: N.Op, now: Time, a: N.Answer, y: Shot, l: Limits) {
    if |x.driver| >= l.maxqueued then a.Nothing? && y == x
    else exists v: View, why: R.Reason :: Shows(x, now, v) && Explained(x, op, now, v, why, a, y, l)
  }

  /** There is one of everything for each class. */
  ghost predicate Shaped(x: Shot) {
    && |x.q| == |x.c.conf| == |x.c.live| == |x.c.qlimit| == |x.c.depth| == |x.timing| == |x.c.est|
    && Ordered(x.c.conf)
  }

  /** What a legal request does to classes and packets. */
  ghost predicate Done(x: Shot, r: Request, now: Time, a: N.Answer, y: Shot, l: Limits) {
    && Shaped(x)
    && (!r.Next? ==> a.Nothing?)
    && match r
       case Create(pri, parent, borrow, red, _, _, _, _, _) =>
         if pri >= l.maxPrio then y == x
         else && y == x.(c := y.c, q := x.q + [[]], timing := y.timing) && y.c.live == x.c.live + [true]
              && y.c.conf == x.c.conf + [Conf(pri, parent, borrow, red)] && x.timing <= y.timing
              && y.c.qlimit == x.c.qlimit + [r.maxq] && x.c.est <= y.c.est
       case Modify(cl, _, maxq, _, _, _) =>
         && cl < |x.q| && cl < |y.timing| && y == x.(c := y.c, timing := x.timing[cl := y.timing[cl]])
         && y.c.conf == x.c.conf && y.c.live == x.c.live && y.c.qlimit == x.c.qlimit[cl := maxq]
         && cl < |y.c.est| && y.c.est == x.c.est[cl := y.c.est[cl]]
       case Delete(cl) =>
         && cl < |x.q| && y == x.(c := y.c, q := x.q[cl := []])
         && y.c.conf == x.c.conf && y.c.live == x.c.live[cl := false]
         && y.c.qlimit == x.c.qlimit && y.c.est == x.c.est
       case Enqueue(cl, m) =>
         && cl < |x.q|
         && y == x.(q := x.q[cl := Q.Enqueued(x.q[cl], x.c.conf[cl].red, x.c.qlimit[cl], m)],
                    cutoff := Q.ArrivalCutoff(x.c, x.timing, now, x.cutoff, cl))
       case Flush(cl) => cl < |x.q| && y == x.(q := x.q[cl := []])
       case Next(op) => Dequeued(x, op, now, a, y, l)
       case Complete => Completed(x, y, l)
       case Wake(cl) =>
         && cl < |x.q| && cl < |y.timing| && y == x.(timing := x.timing[cl := y.timing[cl]])
         && U.SameEstimate(x.timing[cl], y.timing[cl])
  }

  /** One request: it is refused, and nothing changes, exactly if it is not legal. */
  ghost predicate Stepped(x: Shot, r: Request, now: Time, o: Outcome, y: Shot, l: Limits) {
    if Legal(x.c, x.pollcache, r) then o.Served? && Done(x, r, now, o.a, y, l)
    else o.Refused? && y == x && Shaped(x)
  }

  method Create(ifd: RmIfdat, r: Request, ghost now: Time, f: U.Filter)
    requires Good(ifd) && r.Create? && Legal(ifd.c, ifd.pollcache, r) && f.gain > 0
    modifies ifd`c, ifd`b, ifd`p, ifd`t, ifd`l, ifd`g
    ensures Good(ifd) && Done(old(ShotOf(ifd)), r, now, N.Nothing, ShotOf(ifd), LimitsOf(ifd, f))
  {
    var cl := S.NewClass(ifd, r.pri, r.parent, r.borrow, r.red, r.nsPerByte, r.maxq,
                         r.maxidle, r.minidle, r.offtime, f.gain);
  }

  method Modify(ifd: RmIfdat, r: Request, ghost now: Time, f: U.Filter)
    requires Good(ifd) && r.Modify? && Legal(ifd.c, ifd.pollcache, r) && f.gain > 0
    modifies ifd`c, ifd`p, ifd`t
    ensures Good(ifd) && Done(old(ShotOf(ifd)), r, now, N.Nothing, ShotOf(ifd), LimitsOf(ifd, f))
  {
    S.ModClass(ifd, r.cl, r.nsPerByte, r.maxq, r.maxidle, r.minidle, r.offtime, f.gain);
  }

  method Delete(ifd: RmIfdat, r: Request, ghost now: Time, ghost f: U.Filter)
    requires Good(ifd) && r.Delete? && Legal(ifd.c, ifd.pollcache, r)
    modifies ifd`c, ifd`b, ifd`p, ifd`g
    ensures Good(ifd) && Done(old(ShotOf(ifd)), r, now, N.Nothing, ShotOf(ifd), LimitsOf(ifd, f))
  {
    ghost var k := S.DeleteClass(ifd, r.cl);
  }

  /** Queueing and flushing. */
  method Load(ifd: RmIfdat, r: Request, now: Time, ghost f: U.Filter)
    requires Good(ifd) && Legal(ifd.c, ifd.pollcache, r) && (r.Enqueue? || r.Flush?)
    modifies ifd`b, ifd`cutoff, ifd`largest
    ensures Good(ifd) && Done(old(ShotOf(ifd)), r, now, N.Nothing, ShotOf(ifd), LimitsOf(ifd, f))
    ensures ifd.largest == if r.Enqueue? && r.m.len > old(ifd.largest) then r.m.len else old(ifd.largest)
  {
    match r
    case Enqueue(cl, m) =>
      var kept := Q.QueuePacket(ifd, cl, m, now);
    case Flush(cl) =>
      S.DropAll(ifd, cl);
  }

  /** What a dequeue does to the packets with the driver. */
  lemma JobsHanded(ifd: RmIfdat, op: N.Op, a: N.Answer, cl: int, now: Time, s0: Slots, full: bool)
    requires ifd.SlotsOk() && D.InOrder(s0) && (s0.queued < |s0.sent| || full)
    requires if full then ifd.s == s0 else R.Handed(ifd.s, op, a, cl, now, s0)
    ensures ifd.s.ifnow == s0.ifnow
    ensures D.Jobs(ifd.s) == D.Jobs(s0) + if !full && op.Remove? && a.Got? then [D.Job(cl, a.m.len, now)] else []
  {
    if full {
      assert D.Jobs(s0) + [] == D.Jobs(s0);
    } else {
      var s1 := s0.(borrowed := ifd.s.borrowed);
      D.SameJobs(s1, s0);
      if op.Remove? && a.Got? {
        D.HandedLast(ifd.s, cl, a.m, now, s1);
      } else {
        assert D.Jobs(s0) + [] == D.Jobs(s0);
      }
    }
  }

  method Dequeue(ifd: RmIfdat, r: Request, now: Time, ghost f: U.Filter) returns (a: N.Answer)
    requires Good(ifd) && r.Next? && now.sec > 0
    modifies ifd`b, ifd`t, ifd`l, ifd`p, ifd`g, ifd`s, ifd`pollcache, ifd`cutoff
    ensures Good(ifd) && !a.Panic? && Done(old(ShotOf(ifd)), r, now, a, ShotOf(ifd), LimitsOf(ifd, f))
    ensures old(Allotted(ifd.l.turn, ifd.c.wAllotment)) ==> Allotted(ifd.l.turn, ifd.c.wAllotment)
  {
    ghost var v := Look(ifd.c.conf, ifd.c.depth, ifd.t.timing, now);
    ghost var why;
    ghost var x := ShotOf(ifd);
    ghost var s0 := ifd.s;
    a, why := R.DequeueNext(ifd, r.op, now, v);
    JobsHanded(ifd, r.op, a, if why.Full? then -1 else why.cl, now, s0, why.Full?);
    assert Shows(x, now, v) && SameEstimates(x.timing, ifd.t.timing);
    assert why.Full? || Explained(x, r.op, now, v, why, a, ShotOf(ifd), LimitsOf(ifd, f));
  }

  /** A packet has been sent. */
  method Finish(ifd: RmIfdat, r: Request, ghost now: Time, f: U.Filter)
    requires Good(ifd) && r.Complete? && f.gain > 0
    modifies ifd`t, ifd`s, ifd`cutoff
    ensures Good(ifd) && Done(old(ShotOf(ifd)), r, now, N.Nothing, ShotOf(ifd), LimitsOf(ifd, f))
  {
    ghost var s0 := ifd.s;
    U.UpdateClassUtil(ifd, f);
    if s0.queued > 0 {
      D.DoneFirst(ifd.s, s0);
    }
  }

  /** A sleeping class wakes. */
  method Rouse(ifd: RmIfdat, r: Request, ghost now: Time, ghost f: U.Filter)
    requires Good(ifd) && Legal(ifd.c, ifd.pollcache, r) && r.Wake?
    modifies ifd`t
    ensures Good(ifd) && Done(old(ShotOf(ifd)), r, now, N.Nothing, ShotOf(ifd), LimitsOf(ifd, f))
  {
    U.Restart(ifd, r.cl);
  }

  /** Completing and waking. */
  method Tick(ifd: RmIfdat, r: Request, ghost now: Time, f: U.Filter)
    requires Good(ifd) && Legal(ifd.c, ifd.pollcache, r) && (r.Complete? || r.Wake?) && f.gain > 0
    modifies ifd`t, ifd`s, ifd`cutoff
    ensures Good(ifd) && Done(old(ShotOf(ifd)), r, now, N.Nothing, ShotOf(ifd), LimitsOf(ifd, f))
  {
    if r.Complete? {
      Finish(ifd, r, now, f);
    } else {
      Rouse(ifd, r, now, f);
    }
  }

  /** A request that changes the weights. */
  predicate Reweighs(r: Request) { r.Create? || r.Modify? || r.Delete? }

  /** Creating, changing and deleting. */
  method Reweigh(ifd: RmIfdat, r: Request, ghost now: Time, f: U.Filter)
    requires Good(ifd) && Reweighs(r) && Legal(ifd.c, ifd.pollcache, r) && f.gain > 0
    modifies ifd`c, ifd`b, ifd`p, ifd`t, ifd`l, ifd`g
    ensures Good(ifd) && Done(old(ShotOf(ifd)), r, now, N.Nothing, ShotOf(ifd), LimitsOf(ifd, f))
  {
    if r.Create? {
      Create(ifd, r, now, f);
    } else if r.Modify? {
      Modify(ifd, r, now, f);
    } else {
      Delete(ifd, r, now, f);
    }
  }

  predicate Oversized(r: Request, largest: nat) { r.Enqueue? && r.m.len > largest }

  method Serve(ifd: RmIfdat, r: Request, now: Time, f: U.Filter) returns (o: Outcome)
    requires Good(ifd) && f.gain > 0 && now.sec > 0
    modifies ifd
    ensures Good(ifd) && o != Served(N.Panic)
    ensures Stepped(old(ShotOf(ifd)), r, now, o, ShotOf(ifd), LimitsOf(ifd, f))
    ensures !Reweighs(r) && old(Allotted(ifd.l.turn, ifd.c.wAllotment)) ==> Allotted(ifd.l.turn, ifd.c.wAllotment)
    ensures ifd.largest >= old(ifd.largest) && (!Oversized(r, old(ifd.largest)) ==> ifd.largest == old(ifd.largest))
  {
    if !Legal(ifd.c, ifd.pollcache, r) {
      return Refused;
    }
    var a := N.Nothing;
    if Reweighs(r) {
      Reweigh(ifd, r, now, f);
    } else if r.Enqueue? || r.Flush? {
      Load(ifd, r, now, f);
    } else if r.Next? {
      a := Dequeue(ifd, r, now, f);
    } else {
      Tick(ifd, r, now, f);
    }
    o := Served(a);
  }

  /**
    Any run from a good state stays good and never panics; `trace` is what it goes through, one step per request.  As
    long as no request changes the weights, the accounts are refilled with the present weighted allotments only; and as
    long as no packet is larger than the largest so far, it stays the largest.
   */
  method Run(ifd: RmIfdat, reqs: seq<(Request, Time)>, f: U.Filter)
    returns (outcomes: seq<Outcome>, ghost trace: seq<Shot>)
    requires Good(ifd) && f.gain > 0 && forall i :: 0 <= i < |reqs| ==> reqs[i].1.sec > 0
    modifies ifd
    ensures Good(ifd) && |outcomes| == |reqs| == |trace| - 1 && Served(N.Panic) !in outcomes
    ensures trace[0] == old(ShotOf(ifd)) && trace[|reqs|] == ShotOf(ifd)
    ensures forall i :: 0 <= i < |reqs| ==>
      Stepped(trace[i], reqs[i].0, reqs[i].1, outcomes[i], trace[i + 1], LimitsOf(ifd, f))
    ensures (forall i :: 0 <= i < |reqs| ==> !Reweighs(reqs[i].0)) && old(Allotted(ifd.l.turn, ifd.c.wAllotment)) ==>
      Allotted(ifd.l.turn, ifd.c.wAllotment) && InBudget(ifd.l.charged, ifd.c.wAllotment, ifd.largest)
    ensures (forall i :: 0 <= i < |reqs| ==> !Oversized(reqs[i].0, old(ifd.largest))) ==>
      ifd.largest == old(ifd.largest)
  {
    outcomes, trace := [], [ShotOf(ifd)];
    for i := 0 to |reqs|
      invariant Good(ifd) && |outcomes| == i == |trace| - 1 && Served(N.Panic) !in outcomes
      invariant trace[0] == old(ShotOf(ifd)) && trace[i] == ShotOf(ifd)
      invariant forall j :: 0 <= j < i ==>
        Stepped(trace[j], reqs[j].0, reqs[j].1, outcomes[j], trace[j + 1], LimitsOf(ifd, f))
      invariant (forall j :: 0 <= j < i ==> !Reweighs(reqs[j].0)) && old(Allotted(ifd.l.turn, ifd.c.wAllotment)) ==>
        Allotted(ifd.l.turn, ifd.c.wAllotment)
      invariant (forall j :: 0 <= j < i ==> !Oversized(reqs[j].0, old(ifd.largest))) ==> ifd.largest == old(ifd.largest)
    {
      var o := Serve(ifd, reqs[i].0, reqs[i].1, f);
      outcomes, trace := outcomes + [o], trace + [ShotOf(ifd)];
    }
    if Allotted(ifd.l.turn, ifd.c.wAllotment) {
      B.Budget(ifd);
    }
  }
}
