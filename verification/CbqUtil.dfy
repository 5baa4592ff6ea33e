/**
  What a completed transmission does: the estimators of the class and its ancestors, the cutoff, and the slot.
 */
module CbqUtil {
  import opened CbqState
  import T = CbqTree

  // ---------------------------------------------------------------- satisfied classes

  /** A leaf with a backlog that is awake. */
  predicate Waiting(c: Classes, q: seq<seq<Packet>>, timing: seq<Timing>, d: nat)
    requires |c.conf| == |c.depth| == |q| == |timing| && d < |c.conf|
  {
    c.depth[d] == 0 && !timing[d].sleeping && q[d] != []
  }

  /** Every class has its children behind it in the order of creation. */
  ghost predicate Forward(c: Classes) {
    |c.children| == |c.conf| && forall p :: 0 <= p < |c.children| ==> Younger(c.children[p], p, |c.conf|)
  }

  ghost predicate Younger(s: seq<nat>, p: nat, n: nat) {
    forall j :: 0 <= j < |s| ==> p < s[j] < n
  }

  /** rmc_satisfied for a list of children, from position j on. */
  function AllSatisfied(c: Classes, q: seq<seq<Packet>>, timing: seq<Timing>, now: Time, s: seq<nat>, p: nat): bool
    requires |c.conf| == |c.depth| == |q| == |timing| && Forward(c) && Younger(s, p, |c.conf|) && p < |c.conf|
    decreases |c.conf| - p, |s|
  {
    s == [] || (Satisfied(c, q, timing, now, s[0]) && AllSatisfied(c, q, timing, now, s[1..], p))
  }

  /** rmc_satisfied */
  function Satisfied(c: Classes, q: seq<seq<Packet>>, timing: seq<Timing>, now: Time, cl: nat): bool
    requires |c.conf| == |c.depth| == |q| == |timing| && Forward(c) && cl < |c.conf|
    decreases |c.conf| - cl
  {
    if Before(now, timing[cl].undertime) then true
    else if c.depth[cl] == 0 then !Waiting(c, q, timing, cl)
    else
      assert Younger(c.children[cl], cl, |c.conf|);
      AllSatisfied(c, q, timing, now, c.children[cl], cl)
  }

  /** From d up to cl nobody is over the limit. */
  ghost predicate Reaches(c: Classes, timing: seq<Timing>, now: Time, d: nat, cl: nat)
    requires |c.conf| == |timing| && d < |c.conf| && Ordered(c.conf)
  {
    assert Linked(c.conf, d);
    && !Before(now, timing[d].undertime)
    && (d == cl || (c.conf[d].parent != -1 && Reaches(c, timing, now, c.conf[d].parent, cl)))
  }

  lemma {:induction false} ReachesUp(c: Classes, timing: seq<Timing>, now: Time, d: nat, k: nat)
    requires |c.conf| == |timing| && d < |c.conf| && k < |c.conf| && Ordered(c.conf) && Reaches(c, timing, now, d, k)
    requires c.conf[k].parent != -1 && Linked(c.conf, k) && !Before(now, timing[c.conf[k].parent].undertime)
    ensures Reaches(c, timing, now, d, c.conf[k].parent)
  {
    assert Linked(c.conf, d);
    if d != k {
      ReachesUp(c, timing, now, c.conf[d].parent, k);
    }
  }

  /** A class is unsatisfied because of some leaf below it that waits and could send at its own expense. */
  lemma {:induction false} Unsatisfied(c: Classes, q: seq<seq<Packet>>, timing: seq<Timing>, now: Time, cl: nat)
    returns (d: nat)
    requires Tree(c.conf, c.live, c.children) && Forward(c) && |c.conf| == |c.depth| == |q| == |timing|
    requires cl < |c.conf| && c.live[cl] && !Satisfied(c, q, timing, now, cl)
    ensures d < |c.conf| && c.live[d] && Waiting(c, q, timing, d) && Reaches(c, timing, now, d, cl)
    decreases |c.conf| - cl
  {
    assert Linked(c.conf, cl);
    if c.depth[cl] == 0 {
      return cl;
    }
    assert Younger(c.children[cl], cl, |c.conf|);
    T.ChildrenOf(c.conf, c.live, c.children, cl);
    var j := UnsatisfiedChild(c, q, timing, now, c.children[cl], cl);
    var k := c.children[cl][j];
    d := Unsatisfied(c, q, timing, now, k);
    assert Linked(c.conf, k);
    ReachesUp(c, timing, now, d, k);
  }

  lemma {:induction false} UnsatisfiedChild(c: Classes, q: seq<seq<Packet>>, timing: seq<Timing>, now: Time,
                                            s: seq<nat>, p: nat)
    returns (j: nat)
    requires |c.conf| == |c.depth| == |q| == |timing| && Forward(c) && Younger(s, p, |c.conf|) && p < |c.conf|
    requires !AllSatisfied(c, q, timing, now, s, p)
    ensures j < |s| && !Satisfied(c, q, timing, now, s[j])
  {
    if !Satisfied(c, q, timing, now, s[0]) {
      j := 0;
    } else {
      var i := UnsatisfiedChild(c, q, timing, now, s[1..], p);
      j := i + 1;
    }
  }

  lemma {:induction false} ChildCounts(c: Classes, q: seq<seq<Packet>>, timing: seq<Timing>, now: Time, s: seq<nat>,
                                      p: nat, j: nat)
    requires |c.conf| == |c.depth| == |q| == |timing| && Forward(c) && Younger(s, p, |c.conf|) && p < |c.conf|
    requires j < |s| && !Satisfied(c, q, timing, now, s[j])
    ensures !AllSatisfied(c, q, timing, now, s, p)
  {
    if j > 0 {
      ChildCounts(c, q, timing, now, s[1..], p, j - 1);
    }
  }

  /** And every such leaf makes all classes it reaches unsatisfied. */
  lemma {:induction false} WaitingShows(c: Classes, q: seq<seq<Packet>>, timing: seq<Timing>, now: Time, d: nat,
                                        cl: nat)
    requires Tree(c.conf, c.live, c.children) && DepthsExact(c.live, c.children, c.depth, -1) && Forward(c)
    requires |c.conf| == |c.depth| == |q| == |timing| && d < |c.conf| && cl < |c.conf|
    requires c.live[d] && Reaches(c, timing, now, d, cl) && !Satisfied(c, q, timing, now, d)
    ensures !Satisfied(c, q, timing, now, cl)
    decreases d
  {
    assert Linked(c.conf, d);
    if d != cl {
      var p := c.conf[d].parent;
      var j := T.ChildPlace(c.conf, c.live, c.children, d);
      assert DepthOk(c.children, c.depth, p) && Younger(c.children[p], p, |c.conf|);
      ChildCounts(c, q, timing, now, c.children[p], p, j);
      WaitingShows(c, q, timing, now, p, cl);
    }
  }

  lemma ChildrenForward(c: Classes)
    requires Tree(c.conf, c.live, c.children)
    ensures Forward(c)
  {
    forall p | 0 <= p < |c.children| ensures Younger(c.children[p], p, |c.conf|) {
      if c.live[p] {
        T.ChildrenOf(c.conf, c.live, c.children, p);
      }
    }
  }

  /** A class is satisfied exactly when no waiting leaf reaches it. */
  lemma SatisfiedExactly(c: Classes, q: seq<seq<Packet>>, timing: seq<Timing>, now: Time, cl: nat)
    requires Tree(c.conf, c.live, c.children) && DepthsExact(c.live, c.children, c.depth, -1)
    requires |c.conf| == |q| == |timing| && cl < |c.conf| && c.live[cl]
    ensures Forward(c)
    ensures Satisfied(c, q, timing, now, cl) <==>
      forall d :: 0 <= d < |c.conf| && c.live[d] && Waiting(c, q, timing, d) ==> !Reaches(c, timing, now, d, cl)
  {
    ChildrenForward(c);
    if !Satisfied(c, q, timing, now, cl) {
      var d := Unsatisfied(c, q, timing, now, cl);
    }
    forall d | 0 <= d < |c.conf| && c.live[d] && Waiting(c, q, timing, d) && Reaches(c, timing, now, d, cl)
      ensures !Satisfied(c, q, timing, now, cl)
    {
      WaitingShows(c, q, timing, now, d, cl);
    }
  }

  /** The first k classes of a ring are satisfied. */
  ghost predicate RingSatisfied(c: Classes, q: seq<seq<Packet>>, timing: seq<Timing>, now: Time, r: seq<nat>, k: nat)
    requires |c.conf| == |c.depth| == |q| == |timing| && Forward(c)
  {
    k <= |r| && Within(r, |c.conf|) && forall x :: 0 <= x < k ==> Satisfied(c, q, timing, now, r[x])
  }

  /** The class at place k of the ring of priority i is the first unsatisfied one by priority and ring order. */
  ghost predicate FirstUnsatisfied(c: Classes, q: seq<seq<Packet>>, timing: seq<Timing>, now: Time,
                                   rings: seq<seq<nat>>, i: nat, k: nat)
    requires |c.conf| == |c.depth| == |q| == |timing| && Forward(c)
  {
    && i < |rings| && k < |rings[i]| && RingSatisfied(c, q, timing, now, rings[i], k)
    && rings[i][k] < |c.conf| && !Satisfied(c, q, timing, now, rings[i][k])
    && forall j :: i < j < |rings| ==> RingSatisfied(c, q, timing, now, rings[j], |rings[j]|)
  }

  /** The depth of the first unsatisfied class, or the largest cutoff if every class is satisfied. */
  ghost predicate TopLevel(c: Classes, q: seq<seq<Packet>>, timing: seq<Timing>, now: Time, rings: seq<seq<nat>>,
                           maxDepth: nat, cutoff: nat)
    requires |c.conf| == |c.depth| == |q| == |timing| && Forward(c)
  {
    || (cutoff == maxDepth && forall j :: 0 <= j < |rings| ==> RingSatisfied(c, q, timing, now, rings[j], |rings[j]|))
    || (exists i: nat, k: nat :: FirstUnsatisfied(c, q, timing, now, rings, i, k) && cutoff == c.depth[rings[i][k]])
  }

  /** rmc_tl_satisfied: the cutoff becomes the depth of the first unsatisfied class, by priority and ring order. */
  method TlSatisfied(c: Classes, q: seq<seq<Packet>>, timing: seq<Timing>, now: Time, active: seq<int>, maxDepth: nat,
                     ghost rings: seq<seq<nat>>)
    returns (cutoff: nat)
    requires |c.depth| == |q| == |timing| == |c.conf| && Forward(c) && AllRings(rings, c.conf, c.live, c.peer, active)
    ensures TopLevel(c, q, timing, now, rings, maxDepth, cutoff)
  {
    ghost var k;
    var pri := |active|;
    while pri > 0
      invariant 0 <= pri <= |rings|
      invariant forall j :: pri <= j < |rings| ==> RingSatisfied(c, q, timing, now, rings[j], |rings[j]|)
    {
      ghost var r := rings[pri - 1];
      assert RingOk(r, pri - 1, c.conf, c.live, c.peer, active[pri - 1]);
      var p := active[pri - 1];
      k := 0;
      var more := p != -1;
      while more
        invariant k <= |r| && (if more then k < |r| && p == r[k] else k == |r|)
        invariant RingSatisfied(c, q, timing, now, r, k)
        decreases |r| - k, more
      {
        if !Satisfied(c, q, timing, now, p) {
          assert FirstUnsatisfied(c, q, timing, now, rings, pri - 1, k);
          return c.depth[p];
        }
        assert c.peer[r[k]] == r[Succ(k, |r|)];
        p := c.peer[p];
        k := k + 1;
        more := p != active[pri - 1];
      }
      pri := pri - 1;
    }
    cutoff := maxDepth;
  }

  // ---------------------------------------------------------------- the estimators

  /** NSEC_TO_USEC */
  function NsecToUsec(t: nat): (u: nat) { t / 1024 + t / 65536 + t / 131072 }

  /** The approximation never exceeds a thousandth, and falls short of 131/131072 by less than 3. */
  lemma NsecToUsecBounds(t: nat)
    ensures 1000 * NsecToUsec(t) <= t
    ensures 131 * t < 131072 * (NsecToUsec(t) + 3)
  {
  }

  /** What the estimator needs from elsewhere: 2^RM_FILTER_GAIN, RM_POWER and TV_DELTA. */
  datatype Filter = Filter(gain: nat, power: int, delta: (Time, Time) -> int)

  /** One class's estimator after a packet of that length was sent at `sent`, done at `ifnow`. */
  function Estimate(t: Timing, e: Estimator, f: Filter, sent: Time, ifnow: Time, len: nat): (r: Timing)
    requires f.gain > 0 && e.minidle <= 0 < e.maxidle
    ensures Temperate(e, r.avgidle)
    ensures r.avgidle > 0 ==> !r.sleeping && forall now: Time :: !Over(r, now)
    ensures r.avgidle <= 0 ==> r.sleeping == t.sleeping
  {
    var idle, pktTime := f.delta(ifnow, t.last), NsecToUsec(len * e.nsPerByte);
    var avg0 := if idle >= 2_000_000 then e.maxidle else t.avgidle;
    var avg := avg0 + (idle - pktTime - avg0 / f.gain);
    var done := t.(last := ifnow, lastPkttime := pktTime);
    if avg <= 0 then
      var low := if avg < e.minidle then e.minidle else avg;
      done.(avgidle := low, undertime := AddDelta(sent, pktTime + (1 - f.power) * low / f.gain))
    else
      done.(avgidle := if avg > e.maxidle then e.maxidle else avg, undertime := t.undertime.(sec := 0),
            sleeping := false)
  }

  /** The estimator has not run. */
  predicate SameEstimate(t0: Timing, t1: Timing) { t1.avgidle == t0.avgidle && t1.last == t0.last }

  /** When the link will be done with a packet handed to it at `sent`. */
  function Finished(f: Filter, sent: Time, ifnow: Time, pktTime: nat, maxiftime: int): Time {
    if !Before(sent, ifnow) then AddDelta(sent, pktTime)
    else if f.delta(ifnow, sent) + pktTime < maxiftime then AddDelta(ifnow, pktTime)
    else AddDelta(sent, maxiftime)
  }

  lemma {:induction false} BranchBelow(conf: seq<Conf>, cl: int, c: nat)
    requires OnBranch(conf, cl, c)
    ensures c <= cl
    decreases cl
  {
    if cl != c {
      BranchBelow(conf, conf[cl].parent, c);
    }
  }

  /** The estimators of the class and its ancestors run, no others. */
  method RunEstimators(conf: seq<Conf>, est: seq<Estimator>, timing0: seq<Timing>, f: Filter, sent: Time, ifnow: Time,
                       len: nat, cl0: int)
    returns (timing: seq<Timing>)
    requires |conf| == |est| == |timing0| && Ordered(conf) && -1 <= cl0 < |conf| && f.gain > 0
    requires forall c :: 0 <= c < |est| ==> est[c].minidle <= 0 < est[c].maxidle
    ensures |timing| == |timing0|
    ensures forall c :: 0 <= c < |conf| ==>
      timing[c] == (if OnBranch(conf, cl0, c) then Estimate(timing0[c], est[c], f, sent, ifnow, len) else timing0[c])
  {
    timing := timing0;
    var cl := cl0;
    while cl != -1
      invariant -1 <= cl < |conf| && |timing| == |timing0|
      invariant forall c :: 0 <= c < |conf| ==>
        timing[c] == (if OnBranch(conf, cl0, c) && !OnBranch(conf, cl, c)
                      then Estimate(timing0[c], est[c], f, sent, ifnow, len) else timing0[c])
      invariant forall c :: 0 <= c < |conf| && OnBranch(conf, cl, c) ==> OnBranch(conf, cl0, c)
      decreases cl
    {
      assert Linked(conf, cl);
      ghost var up := conf[cl].parent;
      assert !OnBranch(conf, up, cl) by {
        if OnBranch(conf, up, cl) {
          BranchBelow(conf, up, cl);
        }
      }
      assert OnBranch(conf, cl, cl);
      timing := timing[cl := Estimate(timing[cl], est[cl], f, sent, ifnow, len)];
      cl := conf[cl].parent;
    }
  }

  // ---------------------------------------------------------------- the operations

  lemma SlotFreed(sent: seq<int>, qi: nat, qo: nat, queued: nat)
    requires InUse(sent, qi, qo, queued) && sent[qo] != -1
    ensures queued > 0 && InUse(sent[qo := -1], qi, Slot(qo + 1, |sent|), queued - 1)
    ensures (qo + 1) % |sent| == Slot(qo + 1, |sent|)
  {
  }

  /** The cutoff after a transmission.  Only one at the expense of a lender within the cutoff changes it: to the
      lender's depth while it may lend again, else to what the first unsatisfied class asks for. */
  ghost predicate CutoffAfter(c: Classes, q: seq<seq<Packet>>, timing: seq<Timing>, sent: Time, cl: nat, borrowed: int,
                              cutoff0: nat, rings: seq<seq<nat>>, maxDepth: nat, cutoff: nat)
    requires |c.depth| == |q| == |timing| == |c.conf| && cl < |c.conf| && -1 <= borrowed < |c.conf|
  {
    if borrowed == -1 || cutoff0 < c.depth[borrowed] then cutoff == cutoff0
    else if q[cl] != [] && !Before(sent, timing[borrowed].undertime) then cutoff == c.depth[borrowed]
    else Forward(c) && TopLevel(c, q, timing, sent, rings, maxDepth, cutoff)
  }

  method UtilCutoff(c: Classes, q: seq<seq<Packet>>, timing: seq<Timing>, sent: Time, cl: nat, borrowed: int,
                    cutoff0: nat, active: seq<int>, maxDepth: nat, ghost rings: seq<seq<nat>>)
    returns (cutoff: nat)
    requires |c.depth| == |q| == |timing| == |c.conf| && Tree(c.conf, c.live, c.children) && cl < |c.conf|
    requires AllRings(rings, c.conf, c.live, c.peer, active) && -1 <= borrowed < |c.conf|
    ensures CutoffAfter(c, q, timing, sent, cl, borrowed, cutoff0, rings, maxDepth, cutoff)
  {
    cutoff := cutoff0;
    if borrowed != -1 && cutoff >= c.depth[borrowed] {
      if q[cl] == [] || Before(sent, timing[borrowed].undertime) {
        ChildrenForward(c);
        cutoff := TlSatisfied(c, q, timing, sent, active, maxDepth, rings);
      } else {
        cutoff := c.depth[borrowed];
      }
    }
  }

  /** rmc_update_class_util: the oldest packet is done.  If there is none, nothing happens. */
  method UpdateClassUtil(ifd: RmIfdat, f: Filter)
    requires ifd.Inv() && ifd.Tempered() && f.gain > 0
    modifies ifd`t, ifd`s, ifd`cutoff
    ensures ifd.Inv() && ifd.Tempered() && ifd.t.bytesAlloc == old(ifd.t.bytesAlloc)
    ensures old(ifd.s.queued) == 0 ==> ifd.t == old(ifd.t) && ifd.s == old(ifd.s) && ifd.cutoff == old(ifd.cutoff)
    ensures old(ifd.s.queued) > 0 ==> (var s := old(ifd.s);
      && 0 <= s.sent[s.qo] < |ifd.c.conf|
      && ifd.s == s.(sent := s.sent[s.qo := -1], borrowed := s.borrowed[s.qo := -1], qo := (s.qo + 1) % ifd.maxqueued,
                     queued := s.queued - 1, ifnow := ifd.s.ifnow)
      && ifd.s.ifnow == Finished(f, s.sentAt[s.qo], s.ifnow, NsecToUsec(s.curlen[s.qo] * ifd.nsPerByte), ifd.maxiftime)
      && (forall c :: 0 <= c < |ifd.c.conf| ==>
           ifd.t.timing[c] == (if OnBranch(ifd.c.conf, s.sent[s.qo], c)
                               then Estimate(old(ifd.t.timing)[c], ifd.c.est[c], f, s.sentAt[s.qo], ifd.s.ifnow,
                                             s.curlen[s.qo])
                               else old(ifd.t.timing)[c]))
      && CutoffAfter(ifd.c, ifd.b.q, ifd.t.timing, s.sentAt[s.qo], s.sent[s.qo], s.borrowed[s.qo], old(ifd.cutoff),
                     ifd.g.rings, ifd.maxDepth, ifd.cutoff))
  {
    var c, s, t := ifd.c, ifd.s, ifd.t;
    var cl := s.sent[s.qo];
    if cl == -1 {
      return;
    }
    SlotFreed(s.sent, s.qi, s.qo, s.queued);
    var sent, len, borrowed := s.sentAt[s.qo], s.curlen[s.qo], s.borrowed[s.qo];
    var ifnow := Finished(f, sent, s.ifnow, NsecToUsec(len * ifd.nsPerByte), ifd.maxiftime);
    var timing := RunEstimators(c.conf, c.est, t.timing, f, sent, ifnow, len, cl);
    var cutoff := UtilCutoff(c, ifd.b.q, timing, sent, cl, borrowed, ifd.cutoff, ifd.p.active, ifd.maxDepth,
                             ifd.g.rings);
    ifd.t := t.(timing := timing);
    ifd.cutoff := cutoff;
    ifd.s := s.(sent := s.sent[s.qo := -1], borrowed := s.borrowed[s.qo := -1], qo := (s.qo + 1) % ifd.maxqueued,
                queued := s.queued - 1, ifnow := ifnow);
  }

  /** rmc_restart: a class whose time has come is awake and under its limit again. */
  method Restart(ifd: RmIfdat, cl: nat)
    requires ifd.Inv() && cl < |ifd.c.conf|
    modifies ifd`t
    ensures ifd.Inv() && (old(ifd.Tempered()) ==> ifd.Tempered())
    ensures |ifd.t.timing| == |old(ifd.t.timing)|
    ensures ifd.t == old(ifd.t).(timing := old(ifd.t.timing)[cl := ifd.t.timing[cl]])
    ensures !ifd.t.timing[cl].sleeping && SameEstimate(old(ifd.t.timing)[cl], ifd.t.timing[cl])
    ensures old(ifd.t.timing)[cl].sleeping ==> forall now: Time :: !Over(ifd.t.timing[cl], now)
    ensures !old(ifd.t.timing)[cl].sleeping ==> ifd.t == old(ifd.t)
  {
    var t := ifd.t.timing[cl];
    if t.sleeping {
      ifd.t := ifd.t.(timing := ifd.t.timing[cl := t.(sleeping := false, undertime := t.undertime.(sec := 0))]);
    }
  }
}
