/**
  What becomes of the packets of a class over a run of the scheduler: they leave in the order they came, by being sent
  or by being dropped from the head, and none is lost or made up.
 */
module CbqFlow {
  import opened CbqState
  import opened CbqHistory
  import HF = HashFair
  import N = CbqNext
  import R = CbqRun
  import Q = CbqQueue
  import U = CbqUtil
  import D = CbqDriver

  function QueueOf(x: Shot, c: nat): seq<Packet> { if c < |x.q| then x.q[c] else [] }

  predicate Red(x: Shot, c: nat) { c < |x.c.conf| && x.c.conf[c].red }

  function LimitOf(x: Shot, c: nat): nat { if c < |x.c.qlimit| then x.c.qlimit[c] else 0 }

  /** A packet that left its queue: to the driver, or not. */
  datatype Fate = Sent(m: Packet) | Dropped(m: Packet)

  function Packets(fs: seq<Fate>): (r: seq<Packet>)
    ensures |r| == |fs| && forall i :: 0 <= i < |fs| ==> r[i] == fs[i].m
  {
    seq(|fs|, i requires 0 <= i < |fs| => fs[i].m)
  }

  function AllDropped(q: seq<Packet>): (r: seq<Fate>)
    ensures |r| == |q| && forall i :: 0 <= i < |q| ==> r[i] == Dropped(q[i])
  {
    seq(|q|, i requires 0 <= i < |q| => Dropped(q[i]))
  }

  /** What class c gives away in one step: what it is seen to send, what it has to drop for an arrival at its limit, and
      everything when it is flushed or deleted. */
  function Leaves(x: Shot, r: Request, o: Outcome, y: Shot, c: nat): seq<Fate> {
    if !o.Served? then []
    else if r.Next? && r.op.Remove? && o.a.Got? && |QueueOf(y, c)| < |QueueOf(x, c)| then [Sent(o.a.m)]
    else if r.Enqueue? && r.cl == c && !Red(x, c) && |QueueOf(x, c)| >= LimitOf(x, c) then
      [Dropped((QueueOf(x, c) + [r.m])[0])]
    else if (r.Flush? || r.Delete?) && r.cl == c then AllDropped(QueueOf(x, c))
    else []
  }

  /** What is queued for class c in one step; a red queue may refuse it. */
  function Comes(x: Shot, r: Request, o: Outcome, c: nat): seq<Packet> {
    if o.Served? && r.Enqueue? && r.cl == c && (Red(x, c) ==> HF.Admits(QueueOf(x, c), LimitOf(x, c), r.m))
    then [r.m] else []
  }

  // ---------------------------------------------------------------- one step

  lemma ConfStays(x: Shot, r: Request, now: Time, o: Outcome, y: Shot, l: Limits, c: nat)
    requires Stepped(x, r, now, o, y, l)
    ensures c < |x.c.conf| ==> c < |y.c.conf| && y.c.conf[c] == x.c.conf[c]
    ensures c >= |x.q| ==> QueueOf(y, c) == []
  {
  }

  /** The queue of a class that is not red: what it held and what came is what left and what it holds. */
  lemma StepInOrder(x: Shot, r: Request, now: Time, o: Outcome, y: Shot, l: Limits, c: nat)
    requires Stepped(x, r, now, o, y, l) && !Red(x, c)
    ensures Packets(Leaves(x, r, o, y, c)) + QueueOf(y, c) == QueueOf(x, c) + Comes(x, r, o, c)
  {
    if Legal(x.c, x.pollcache, r) && r.Enqueue? && r.cl == c {
      Q.EnqueueOrder(QueueOf(x, c), false, LimitOf(x, c), r.m);
      assert y.q[c] == Q.Enqueued(QueueOf(x, c), false, LimitOf(x, c), r.m);
    } else {
      Untouched(x, r, now, o, y, l, c);
    }
  }

  /** Without an arrival, what leaves and what stays is what was there. */
  lemma Untouched(x: Shot, r: Request, now: Time, o: Outcome, y: Shot, l: Limits, c: nat)
    requires Stepped(x, r, now, o, y, l) && !(o.Served? && r.Enqueue? && r.cl == c)
    ensures Packets(Leaves(x, r, o, y, c)) + QueueOf(y, c) == QueueOf(x, c) && Comes(x, r, o, c) == []
  {
    if o.Served? && r.Next? {
      HeadLeaves(x, r, now, o, y, l, c);
    }
  }

  /** A dequeue takes the head of one class and leaves the others alone. */
  lemma HeadLeaves(x: Shot, r: Request, now: Time, o: Outcome, y: Shot, l: Limits, c: nat)
    requires Stepped(x, r, now, o, y, l) && o.Served? && r.Next?
    ensures Packets(Leaves(x, r, o, y, c)) + QueueOf(y, c) == QueueOf(x, c)
  {
    if |x.driver| < l.maxqueued {
      var v: View, why: R.Reason :| Shows(x, now, v) && Explained(x, r.op, now, v, why, o.a, y, l);
      assert HeadTaken(x, r.op, now, why.cl, o.a, y);
      if r.op.Remove? && o.a.Got? && c == why.cl {
        assert QueueOf(x, c) == [o.a.m] + QueueOf(y, c);
      }
    }
  }

  lemma OfHostSplits(a: seq<Packet>, b: seq<Packet>, x: seq<Packet>, g: HF.Hash)
    requires a + b == x
    ensures HF.OfHost(a, g) + HF.OfHost(b, g) == HF.OfHost(x, g)
  {
    HF.OfHostConcat(a, b, g);
  }

  /** The same for a red queue, host by host. */
  lemma StepInHostOrder(x: Shot, r: Request, now: Time, o: Outcome, y: Shot, l: Limits, c: nat, g: HF.Hash)
    requires Stepped(x, r, now, o, y, l) && Red(x, c) && HF.Fair(HF.Hashes(QueueOf(x, c)))
    ensures HF.OfHost(Packets(Leaves(x, r, o, y, c)), g) + HF.OfHost(QueueOf(y, c), g)
         == HF.OfHost(QueueOf(x, c), g) + HF.OfHost(Comes(x, r, o, c), g)
  {
    if Legal(x.c, x.pollcache, r) && r.Enqueue? && r.cl == c {
      Q.EnqueueOrder(QueueOf(x, c), true, LimitOf(x, c), r.m);
      assert y.q[c] == Q.Enqueued(QueueOf(x, c), true, LimitOf(x, c), r.m);
      HF.OfHostOne(r.m, g);
      assert Leaves(x, r, o, y, c) == [] && HF.OfHost([], g) == [];
    } else {
      Untouched(x, r, now, o, y, l, c);
      OfHostSplits(Packets(Leaves(x, r, o, y, c)), QueueOf(y, c), QueueOf(x, c), g);
      assert HF.OfHost([], g) == [];
    }
  }

  lemma StepStaysFair(x: Shot, r: Request, now: Time, o: Outcome, y: Shot, l: Limits)
    requires Stepped(x, r, now, o, y, l) && AllFair(x.c.conf, x.q)
    ensures AllFair(y.c.conf, y.q)
  {
    if Legal(x.c, x.pollcache, r) {
      if r.Enqueue? {
        Q.EnqueueFair(x.c.conf, x.q, r.cl, x.c.qlimit[r.cl], r.m);
      } else {
        forall c | 0 <= c < |y.c.conf| && y.c.conf[c].red ensures HF.Fair(HF.Hashes(y.q[c])) {
          Untouched(x, r, now, o, y, l, c);
          FairTail(x, r, now, o, y, l, c);
        }
      }
    }
  }

  /** A queue that gives away its head, or everything, stays fair. */
  lemma FairSuffix(left: seq<Packet>, q': seq<Packet>, q: seq<Packet>)
    requires left + q' == q && HF.Fair(HF.Hashes(q)) && (|left| <= 1 || q' == [])
    ensures HF.Fair(HF.Hashes(q'))
  {
    if |left| == 1 {
      HF.TailKeepsFair(HF.Hashes(q));
      assert HF.Hashes(q') == HF.Hashes(q)[1..];
    } else if left == [] {
      assert q' == q;
    }
  }

  lemma FewLeave(x: Shot, r: Request, now: Time, o: Outcome, y: Shot, l: Limits, c: nat)
    requires Stepped(x, r, now, o, y, l)
    ensures |Packets(Leaves(x, r, o, y, c))| <= 1 || QueueOf(y, c) == []
  {
  }

  lemma FairTail(x: Shot, r: Request, now: Time, o: Outcome, y: Shot, l: Limits, c: nat)
    requires Stepped(x, r, now, o, y, l) && AllFair(x.c.conf, x.q) && c < |y.q| && c < |y.c.conf|
    requires y.c.conf[c].red && Packets(Leaves(x, r, o, y, c)) + QueueOf(y, c) == QueueOf(x, c)
    ensures HF.Fair(HF.Hashes(y.q[c]))
  {
    FewLeave(x, r, now, o, y, l, c);
    ConfStays(x, r, now, o, y, l, c);
    if c < |x.q| {
      FairQueue(x, r, now, o, y, l, c);
      FairSuffix(Packets(Leaves(x, r, o, y, c)), QueueOf(y, c), QueueOf(x, c));
    }
  }

  lemma StepWithinLimit(x: Shot, r: Request, now: Time, o: Outcome, y: Shot, l: Limits, c: nat)
    requires Stepped(x, r, now, o, y, l)
    ensures |QueueOf(y, c)| <= if |QueueOf(x, c)| > LimitOf(x, c) then |QueueOf(x, c)| else LimitOf(x, c)
  {
    if Legal(x.c, x.pollcache, r) && r.Enqueue? && r.cl == c {
      Q.EnqueueOrder(QueueOf(x, c), Red(x, c), LimitOf(x, c), r.m);
    } else {
      Untouched(x, r, now, o, y, l, c);
    }
  }

  // ---------------------------------------------------------------- over a run

  /** The run goes through these. */
  ghost predicate Through(trace: seq<Shot>, reqs: seq<(Request, Time)>, outcomes: seq<Outcome>, l: Limits) {
    && |outcomes| == |reqs| == |trace| - 1
    && forall i {:trigger reqs[i]} :: 0 <= i < |reqs| ==>
      Stepped(trace[i], reqs[i].0, reqs[i].1, outcomes[i], trace[i + 1], l)
  }

  /** What has left class c after n steps, in order. */
  function Left(trace: seq<Shot>, reqs: seq<(Request, Time)>, outcomes: seq<Outcome>, n: nat, c: nat): seq<Fate>
    requires |outcomes| == |reqs| == |trace| - 1 && n <= |reqs|
  {
    if n == 0 then []
    else Left(trace, reqs, outcomes, n - 1, c)
         + Leaves(trace[n - 1], reqs[n - 1].0, outcomes[n - 1], trace[n], c)
  }

  /** What has come for it. */
  function Come(trace: seq<Shot>, reqs: seq<(Request, Time)>, outcomes: seq<Outcome>, n: nat, c: nat): seq<Packet>
    requires |outcomes| == |reqs| == |trace| - 1 && n <= |reqs|
  {
    if n == 0 then []
    else Come(trace, reqs, outcomes, n - 1, c) + Comes(trace[n - 1], reqs[n - 1].0, outcomes[n - 1], c)
  }

  lemma RedStays(trace: seq<Shot>, reqs: seq<(Request, Time)>, outcomes: seq<Outcome>, l: Limits, n: nat, c: nat)
    requires Through(trace, reqs, outcomes, l) && n < |reqs|
    ensures Red(trace[n], c) ==> Red(trace[n + 1], c)
    ensures !Red(trace[n], c) && Red(trace[n + 1], c) ==> c >= |trace[n].c.conf|
  {
    ConfStays(trace[n], reqs[n].0, reqs[n].1, outcomes[n], trace[n + 1], l, c);
  }

  lemma PacketsConcat(a: seq<Fate>, b: seq<Fate>)
    ensures Packets(a + b) == Packets(a) + Packets(b)
  {
  }

  lemma Chain(a: seq<Packet>, b: seq<Packet>, q': seq<Packet>, q: seq<Packet>, k: seq<Packet>, q0: seq<Packet>,
              p: seq<Packet>)
    requires a + q == q0 + p && b + q' == q + k
    ensures (a + b) + q' == q0 + (p + k)
  {
    assert (a + b) + q' == a + (b + q') == (a + q) + k == q0 + (p + k);
  }

  /** First in, first out: over any run, what has left a class that is not red and what is still queued is exactly what
      was queued at first and what came since, in order. */
  lemma {:induction false} ClassIsFifo(trace: seq<Shot>, reqs: seq<(Request, Time)>, outcomes: seq<Outcome>, l: Limits,
                                       n: nat, c: nat)
    requires Through(trace, reqs, outcomes, l) && n <= |reqs| && !Red(trace[n], c)
    ensures Packets(Left(trace, reqs, outcomes, n, c)) + QueueOf(trace[n], c)
         == QueueOf(trace[0], c) + Come(trace, reqs, outcomes, n, c)
  {
    if n > 0 {
      var x, y, r, o := trace[n - 1], trace[n], reqs[n - 1].0, outcomes[n - 1];
      assert Stepped(x, r, reqs[n - 1].1, o, y, l);
      RedStays(trace, reqs, outcomes, l, n - 1, c);
      ClassIsFifo(trace, reqs, outcomes, l, n - 1, c);
      StepInOrder(x, r, reqs[n - 1].1, o, y, l, c);
      PacketsConcat(Left(trace, reqs, outcomes, n - 1, c), Leaves(x, r, o, y, c));
      Chain(Packets(Left(trace, reqs, outcomes, n - 1, c)), Packets(Leaves(x, r, o, y, c)), QueueOf(y, c),
            QueueOf(x, c), Comes(x, r, o, c), QueueOf(trace[0], c), Come(trace, reqs, outcomes, n - 1, c));
    } else {
      assert QueueOf(trace[0], c) + [] == QueueOf(trace[0], c);
    }
  }

  lemma {:induction false} StaysFair(trace: seq<Shot>, reqs: seq<(Request, Time)>, outcomes: seq<Outcome>, l: Limits,
                                     n: nat)
    requires Through(trace, reqs, outcomes, l) && n <= |reqs| && AllFair(trace[0].c.conf, trace[0].q)
    ensures AllFair(trace[n].c.conf, trace[n].q)
  {
    if n > 0 {
      StaysFair(trace, reqs, outcomes, l, n - 1);
      StepStaysFair(trace[n - 1], reqs[n - 1].0, reqs[n - 1].1, outcomes[n - 1], trace[n], l);
    }
  }

  lemma ChainOfHost(a: seq<Packet>, b: seq<Packet>, q': seq<Packet>, q: seq<Packet>, k: seq<Packet>, q0: seq<Packet>,
                    p: seq<Packet>, g: HF.Hash)
    requires HF.OfHost(a, g) + HF.OfHost(q, g) == HF.OfHost(q0, g) + HF.OfHost(p, g)
    requires HF.OfHost(b, g) + HF.OfHost(q', g) == HF.OfHost(q, g) + HF.OfHost(k, g)
    ensures HF.OfHost(a + b, g) + HF.OfHost(q', g) == HF.OfHost(q0, g) + HF.OfHost(p + k, g)
  {
    HF.OfHostConcat(a, b, g);
    HF.OfHostConcat(p, k, g);
    Chain(HF.OfHost(a, g), HF.OfHost(b, g), HF.OfHost(q', g), HF.OfHost(q, g), HF.OfHost(k, g), HF.OfHost(q0, g),
          HF.OfHost(p, g));
  }

  /** A red class is first in, first out host by host. */
  lemma {:induction false} HostsAreFifo(trace: seq<Shot>, reqs: seq<(Request, Time)>, outcomes: seq<Outcome>, l: Limits,
                                        n: nat, c: nat, g: HF.Hash)
    requires Through(trace, reqs, outcomes, l) && n <= |reqs| && Red(trace[n], c)
    requires AllFair(trace[0].c.conf, trace[0].q)
    ensures HF.OfHost(Packets(Left(trace, reqs, outcomes, n, c)), g) + HF.OfHost(QueueOf(trace[n], c), g)
         == HF.OfHost(QueueOf(trace[0], c), g) + HF.OfHost(Come(trace, reqs, outcomes, n, c), g)
  {
    if n == 0 {
      assert HF.OfHost([], g) == [];
    } else if Red(trace[n - 1], c) {
      HostsAreFifo(trace, reqs, outcomes, l, n - 1, c, g);
      HostStep(trace, reqs, outcomes, l, n, c, g);
    } else {
      RedStays(trace, reqs, outcomes, l, n - 1, c);
      Newborn(trace, reqs, outcomes, l, n, c);
      assert HF.OfHost([], g) == [];
    }
  }

  lemma HostStep(trace: seq<Shot>, reqs: seq<(Request, Time)>, outcomes: seq<Outcome>, l: Limits, n: nat, c: nat,
                 g: HF.Hash)
    requires Through(trace, reqs, outcomes, l) && 0 < n <= |reqs| && Red(trace[n - 1], c)
    requires AllFair(trace[0].c.conf, trace[0].q)
    requires HF.OfHost(Packets(Left(trace, reqs, outcomes, n - 1, c)), g) + HF.OfHost(QueueOf(trace[n - 1], c), g)
          == HF.OfHost(QueueOf(trace[0], c), g) + HF.OfHost(Come(trace, reqs, outcomes, n - 1, c), g)
    ensures HF.OfHost(Packets(Left(trace, reqs, outcomes, n, c)), g) + HF.OfHost(QueueOf(trace[n], c), g)
         == HF.OfHost(QueueOf(trace[0], c), g) + HF.OfHost(Come(trace, reqs, outcomes, n, c), g)
  {
    var x, y, r, o := trace[n - 1], trace[n], reqs[n - 1].0, outcomes[n - 1];
    assert Stepped(x, r, reqs[n - 1].1, o, y, l);
    StaysFair(trace, reqs, outcomes, l, n - 1);
    ConfStays(x, r, reqs[n - 1].1, o, y, l, c);
    FairQueue(x, r, reqs[n - 1].1, o, y, l, c);
    StepInHostOrder(x, r, reqs[n - 1].1, o, y, l, c, g);
    PacketsConcat(Left(trace, reqs, outcomes, n - 1, c), Leaves(x, r, o, y, c));
    ChainOfHost(Packets(Left(trace, reqs, outcomes, n - 1, c)), Packets(Leaves(x, r, o, y, c)), QueueOf(y, c),
                QueueOf(x, c), Comes(x, r, o, c), QueueOf(trace[0], c), Come(trace, reqs, outcomes, n - 1, c), g);
  }

  lemma FairQueue(x: Shot, r: Request, now: Time, o: Outcome, y: Shot, l: Limits, c: nat)
    requires AllFair(x.c.conf, x.q) && Red(x, c)
    ensures HF.Fair(HF.Hashes(QueueOf(x, c)))
  {
  }

  /** A class that was not there before has had no packets. */
  lemma {:induction false} Newborn(trace: seq<Shot>, reqs: seq<(Request, Time)>, outcomes: seq<Outcome>, l: Limits,
                                   n: nat, c: nat)
    requires Through(trace, reqs, outcomes, l) && 0 < n <= |reqs| && c >= |trace[n - 1].c.conf|
    ensures Left(trace, reqs, outcomes, n, c) == [] && Come(trace, reqs, outcomes, n, c) == []
    ensures QueueOf(trace[0], c) == [] && QueueOf(trace[n], c) == []
  {
    var x, y, r, o := trace[n - 1], trace[n], reqs[n - 1].0, outcomes[n - 1];
    assert Stepped(x, r, reqs[n - 1].1, o, y, l);
    NothingYet(x, r, reqs[n - 1].1, o, y, l, c);
    if n > 1 {
      assert Stepped(trace[n - 2], reqs[n - 2].0, reqs[n - 2].1, outcomes[n - 2], x, l);
      ConfStays(trace[n - 2], reqs[n - 2].0, reqs[n - 2].1, outcomes[n - 2], x, l, c);
      Newborn(trace, reqs, outcomes, l, n - 1, c);
    } else {
      assert Left(trace, reqs, outcomes, 0, c) == [] && Come(trace, reqs, outcomes, 0, c) == [];
    }
  }

  lemma NothingYet(x: Shot, r: Request, now: Time, o: Outcome, y: Shot, l: Limits, c: nat)
    requires Stepped(x, r, now, o, y, l) && c >= |x.c.conf|
    ensures Leaves(x, r, o, y, c) == [] && Comes(x, r, o, c) == [] && QueueOf(y, c) == []
    ensures QueueOf(x, c) == []
  {
  }

  /** A class never holds more packets than it did at first, or than its largest limit on the way. */
  lemma {:induction false} StaysWithin(trace: seq<Shot>, reqs: seq<(Request, Time)>, outcomes: seq<Outcome>, l: Limits,
                                       n: nat, c: nat, most: nat)
    requires Through(trace, reqs, outcomes, l) && n <= |reqs| && |QueueOf(trace[0], c)| <= most
    requires forall i :: 0 <= i < n ==> LimitOf(trace[i], c) <= most
    ensures |QueueOf(trace[n], c)| <= most
  {
    if n > 0 {
      StaysWithin(trace, reqs, outcomes, l, n - 1, c, most);
      assert LimitOf(trace[n - 1], c) <= most;
      StepWithinLimit(trace[n - 1], reqs[n - 1].0, reqs[n - 1].1, outcomes[n - 1], trace[n], l, c);
    }
  }

  /** What a dequeue hands out has left the queue of exactly one class, and the driver has it as one of that class. */
  lemma SentByOne(x: Shot, r: Request, now: Time, o: Outcome, y: Shot, l: Limits) returns (c: nat)
    requires Stepped(x, r, now, o, y, l) && o.Served? && r.Next? && r.op.Remove? && o.a.Got?
    ensures Leaves(x, r, o, y, c) == [Sent(o.a.m)] && y.driver == x.driver + [D.Job(c, o.a.m.len, now)]
    ensures forall d: nat :: d != c ==> Leaves(x, r, o, y, d) == []
  {
    var v: View, why: R.Reason :| Shows(x, now, v) && Explained(x, r.op, now, v, why, o.a, y, l);
    assert HeadTaken(x, r.op, now, why.cl, o.a, y);
    c := why.cl;
    assert QueueOf(x, c) == [o.a.m] + QueueOf(y, c);
    forall d: nat | d != c ensures Leaves(x, r, o, y, d) == [] {
      assert QueueOf(y, d) == QueueOf(x, d);
    }
  }

  /** First in, first out after n steps, for a class of either kind. */
  ghost predicate Fifo(trace: seq<Shot>, reqs: seq<(Request, Time)>, outcomes: seq<Outcome>, n: nat, c: nat)
    requires |outcomes| == |reqs| == |trace| - 1 && n <= |reqs|
  {
    var left, come := Packets(Left(trace, reqs, outcomes, n, c)), Come(trace, reqs, outcomes, n, c);
    if Red(trace[n], c) then
      forall g :: HF.OfHost(left, g) + HF.OfHost(QueueOf(trace[n], c), g)
               == HF.OfHost(QueueOf(trace[0], c), g) + HF.OfHost(come, g)
    else left + QueueOf(trace[n], c) == QueueOf(trace[0], c) + come
  }

  lemma RunIsFifo(trace: seq<Shot>, reqs: seq<(Request, Time)>, outcomes: seq<Outcome>, l: Limits, n: nat, c: nat)
    requires Through(trace, reqs, outcomes, l) && n <= |reqs| && AllFair(trace[0].c.conf, trace[0].q)
    ensures Fifo(trace, reqs, outcomes, n, c)
  {
    if Red(trace[n], c) {
      forall g: HF.Hash
        ensures HF.OfHost(Packets(Left(trace, reqs, outcomes, n, c)), g) + HF.OfHost(QueueOf(trace[n], c), g)
             == HF.OfHost(QueueOf(trace[0], c), g) + HF.OfHost(Come(trace, reqs, outcomes, n, c), g)
      {
        HostsAreFifo(trace, reqs, outcomes, l, n, c, g);
      }
    } else {
      ClassIsFifo(trace, reqs, outcomes, l, n, c);
    }
  }

  /** Any run of the scheduler: at every moment of it every class is first in, first out. */
  method RunInOrder(ifd: RmIfdat, reqs: seq<(Request, Time)>, f: U.Filter)
    returns (outcomes: seq<Outcome>, ghost trace: seq<Shot>)
    requires Good(ifd) && f.gain > 0 && forall i :: 0 <= i < |reqs| ==> reqs[i].1.sec > 0
    modifies ifd
    ensures Good(ifd) && Through(trace, reqs, outcomes, LimitsOf(ifd, f)) && Served(N.Panic) !in outcomes
    ensures trace[0] == old(ShotOf(ifd)) && trace[|reqs|] == ShotOf(ifd)
    ensures forall n: nat, c: nat {:trigger Fifo(trace, reqs, outcomes, n, c)} ::
      n <= |reqs| ==> Fifo(trace, reqs, outcomes, n, c)
  {
    outcomes, trace := CbqHistory.Run(ifd, reqs, f);
    forall n: nat, c: nat {:trigger Fifo(trace, reqs, outcomes, n, c)} | n <= |reqs|
      ensures Fifo(trace, reqs, outcomes, n, c)
    {
      RunIsFifo(trace, reqs, outcomes, LimitsOf(ifd, f), n, c);
    }
  }
}
