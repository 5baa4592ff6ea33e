/**
  The state of the class-based queueing scheduler: classes in a tree and on one peer ring per priority,
  what lets a class send, and what every operation keeps true.

  Classes are numbered in the order they are created; -1 is the null pointer.  The fields of a class are
  columns indexed by its number.
 */
module CbqState {
  import opened Wrappers
  import HF = HashFair
  type Packet = HF.Packet

  datatype Time = Time(sec: int, usec: nat)

  /** TV_LT */
  predicate Before(a: Time, b: Time) { a.sec < b.sec || (a.sec == b.sec && a.usec < b.usec) }

  /** The microseconds up to a time. */
  function Micros(a: Time): int { a.sec * 1_000_000 + a.usec }

  /** TV_ADD_DELTA, for any number of microseconds. */
  function AddDelta(a: Time, delta: int): (b: Time)
    ensures Micros(b) == Micros(a) + delta && b.usec < 1_000_000
    ensures delta > 0 ==> Before(a, b)
  {
    Time(a.sec + (a.usec + delta) / 1_000_000, (a.usec + delta) % 1_000_000)
  }

  const NS_PER_SEC: nat := 1_000_000_000

  /** What never changes in a class. */
  datatype Conf = Conf(pri: nat, parent: int, borrow: int, red: bool)

  /** The clock of a class. */
  datatype Timing = Timing(undertime: Time, overtime: Time, last: Time, lastPkttime: int, sleeping: bool, avgidle: int)

  datatype Estimator = Estimator(minidle: int, maxidle: int, offtime: int, nsPerByte: nat)

  /** A class is created after its parent and after whoever it may borrow from. */
  predicate Linked(conf: seq<Conf>, c: nat)
    requires c < |conf|
  {
    -1 <= conf[c].parent < c && -1 <= conf[c].borrow < c
  }

  ghost predicate Ordered(conf: seq<Conf>) {
    forall c {:trigger Linked(conf, c)} :: 0 <= c < |conf| ==> Linked(conf, c)
  }

  /** b is c or one of its ancestors. */
  predicate OnBranch(conf: seq<Conf>, c: int, b: nat)
    decreases c
  {
    0 <= c < |conf| && (b == c || (-1 <= conf[c].parent < c && OnBranch(conf, conf[c].parent, b)))
  }

  /** A class may borrow from an ancestor. */
  ghost predicate Loan(conf: seq<Conf>, c: nat) {
    c < |conf| && (conf[c].borrow >= 0 ==> OnBranch(conf, conf[c].parent, conf[c].borrow))
  }

  ghost predicate Loans(conf: seq<Conf>) {
    forall c {:trigger Loan(conf, c)} :: 0 <= c < |conf| ==> Loan(conf, c)
  }

  // ---------------------------------------------------------------- who can send

  /** The class is over its limit: its undertime is set and not reached yet. */
  predicate Over(t: Timing, now: Time) { t.undertime.sec != 0 && Before(now, t.undertime) }

  /** What decides who can send at some moment: who is over the limit, and who can send at no cutoff. */
  datatype Sight = Sight(conf: seq<Conf>, depth: seq<nat>, over: seq<bool>, dry: seq<bool>)

  type View = v: Sight | |v.conf| == |v.depth| == |v.over| == |v.dry| && Ordered(v.conf)
    witness Sight([], [], [], [])

  /** The class or a lender on its borrow chain, none of them deeper than the cutoff, is under its limit. */
  ghost predicate ChainUnder(v: View, cutoff: nat, c: int) {
    && 0 <= c < |v.conf| && Linked(v.conf, c)
    && var b := v.conf[c].borrow;
    !v.over[c] || (b != -1 && v.depth[b] <= cutoff && ChainUnder(v, cutoff, b))
  }

  /** The class and everyone it can borrow from are over their limits. */
  ghost predicate WholeChainOver(v: View, c: int) {
    && 0 <= c < |v.conf| && Linked(v.conf, c)
    && v.over[c] && (v.conf[c].borrow == -1 || WholeChainOver(v, v.conf[c].borrow))
  }

  /** The chain is over its limits up to a lender the cutoff excludes. */
  ghost predicate ChainCut(v: View, cutoff: nat, c: int) {
    && 0 <= c < |v.conf| && Linked(v.conf, c)
    && var b := v.conf[c].borrow;
    v.over[c] && b != -1 && (v.depth[b] > cutoff || ChainCut(v, cutoff, b))
  }

  /** A class below the root that is over its limit and asleep, or has its whole chain over limit. */
  ghost predicate Dry(v: View, c: int, asleep: bool) {
    0 <= c < |v.conf| && v.conf[c].parent != -1 && v.over[c] && (asleep || WholeChainOver(v, c))
  }

  ghost predicate SeesClass(v: View, c: nat, t: Timing, now: Time)
    requires c < |v.conf|
  {
    v.over[c] == Over(t, now) && v.dry[c] == Dry(v, c, t.sleeping)
  }

  /** The view is what the clocks of the classes show at time `now`. */
  ghost predicate Sees(v: View, timing: seq<Timing>, now: Time) {
    |timing| == |v.conf| && forall c :: 0 <= c < |timing| ==> SeesClass(v, c, timing[c], now)
  }

  /** There is exactly one view of a state. */
  lemma Look(conf: seq<Conf>, depth: seq<nat>, timing: seq<Timing>, now: Time) returns (v: View)
    requires |conf| == |depth| == |timing| && Ordered(conf)
    ensures v.conf == conf && v.depth == depth && Sees(v, timing, now)
    ensures forall w: View :: w.conf == conf && w.depth == depth && Sees(w, timing, now) ==> w == v
  {
    var over := seq(|conf|, c requires 0 <= c < |conf| => Over(timing[c], now));
    var v0: View := Sight(conf, depth, over, over);
    var dry := seq(|conf|, c requires 0 <= c < |conf| => Dry(v0, c, timing[c].sleeping));
    v := Sight(conf, depth, over, dry);
    forall c | 0 <= c < |conf| ensures SeesClass(v, c, timing[c], now) {
      SameChain(v, v0, c);
    }
    forall w: View | w.conf == conf && w.depth == depth && Sees(w, timing, now) ensures w == v {
      assert forall c :: 0 <= c < |conf| ==> SeesClass(w, c, timing[c], now);
      assert w.over == v.over;
      forall c | 0 <= c < |conf| ensures w.dry[c] == v.dry[c] {
        SameChain(w, v, c);
      }
      assert w.dry == v.dry;
    }
  }

  lemma {:induction false} SameChain(v: View, w: View, c: int)
    requires v.conf == w.conf && v.over == w.over
    ensures WholeChainOver(v, c) == WholeChainOver(w, c)
    decreases c
  {
    if 0 <= c < |v.conf| && Linked(v.conf, c) && v.conf[c].borrow != -1 {
      SameChain(v, w, v.conf[c].borrow);
    }
  }

  /** A chain not under limit is over limit to the top, or cut off. */
  lemma {:induction false} ChainCases(v: View, cutoff: nat, c: nat)
    requires c < |v.conf|
    ensures !ChainUnder(v, cutoff, c) <==> WholeChainOver(v, c) || ChainCut(v, cutoff, c)
  {
    assert Linked(v.conf, c);
    if v.conf[c].borrow != -1 {
      ChainCases(v, cutoff, v.conf[c].borrow);
    }
  }

  /** What rmc_under_limit answers for a class: the root always sends, a sleeping class once its time has
      come, any other class if its borrow chain lets it. */
  ghost predicate CanSend(v: View, cutoff: nat, c: int) {
    0 <= c < |v.conf| && (v.conf[c].parent == -1 || (!v.dry[c] && ChainUnder(v, cutoff, c)))
  }

  /** A larger cutoff lets more classes send. */
  lemma {:induction false} CutoffGrows(v: View, lo: nat, hi: nat, c: int)
    requires lo <= hi
    ensures ChainUnder(v, lo, c) ==> ChainUnder(v, hi, c)
    ensures CanSend(v, lo, c) ==> CanSend(v, hi, c)
    decreases c
  {
    if 0 <= c < |v.conf| && Linked(v.conf, c) && v.conf[c].borrow != -1 {
      CutoffGrows(v, lo, hi, v.conf[c].borrow);
    }
  }

  /** The first class of the borrow chain that is under its limit, if there is one. */
  ghost function Lender(v: View, c: int): (r: int)
    ensures r <= c || r == -1
    ensures r != -1 ==> 0 <= r < |v.conf| && !v.over[r]
  {
    if !(0 <= c < |v.conf| && Linked(v.conf, c)) then -1 else if !v.over[c] then c else Lender(v, v.conf[c].borrow)
  }

  // ---------------------------------------------------------------- what is kept

  /** A class's children are exactly the live classes whose parent it is. */
  ghost predicate TreeAt(conf: seq<Conf>, live: seq<bool>, children: seq<seq<nat>>, c: nat)
    requires |conf| == |live| == |children| && c < |conf| && Linked(conf, c)
  {
    && NoDup(children[c])
    && (forall k :: k in children[c] ==> k < |conf| && live[k] && conf[k].parent == c)
    && (conf[c].parent != -1 ==> live[conf[c].parent] && c in children[conf[c].parent])
  }

  ghost predicate Tree(conf: seq<Conf>, live: seq<bool>, children: seq<seq<nat>>) {
    && |conf| == |live| == |children| && Ordered(conf) && Loans(conf)
    && (forall c :: 0 <= c < |conf| && !live[c] ==> children[c] == [])
    && forall c {:trigger TreeAt(conf, live, children, c)} ::
         0 <= c < |conf| && live[c] && Linked(conf, c) ==> TreeAt(conf, live, children, c)
  }

  function MaxDepth(s: seq<nat>, depth: seq<nat>): (m: nat)
    requires Within(s, |depth|)
    ensures forall k :: 0 <= k < |s| ==> depth[s[k]] <= m
    ensures if s == [] then m == 0 else exists k :: 0 <= k < |s| && depth[s[k]] == m
  {
    if s == [] then 0
    else
      var m, d := MaxDepth(s[..|s| - 1], depth), depth[s[|s| - 1]];
      if d > m then d else m
  }

  /** depth is 0 for a childless class and one more than the largest child depth otherwise. */
  ghost predicate DepthOk(children: seq<seq<nat>>, depth: seq<nat>, c: nat)
    requires |children| == |depth| && c < |depth|
  {
    && Within(children[c], |depth|)
    && depth[c] == if children[c] == [] then 0 else 1 + MaxDepth(children[c], depth)
  }

  /** Every live class has its exact depth, except perhaps `but`. */
  ghost predicate DepthsExact(live: seq<bool>, children: seq<seq<nat>>, depth: seq<nat>, but: int) {
    && |live| == |children| == |depth|
    && forall c :: 0 <= c < |live| && live[c] && c != but ==> DepthOk(children, depth, c)
  }

  function Succ(k: nat, n: nat): nat { if k + 1 == n then 0 else k + 1 }

  /** The peer pointers form a cycle of exactly one priority's classes; `r` reads it from the active class. */
  ghost predicate RingOk(r: seq<nat>, i: nat, conf: seq<Conf>, live: seq<bool>, peer: seq<nat>, active: int) {
    && |conf| == |live| == |peer|
    && Members(r, i, conf, live) && Cycle(r, peer, active)
    && (forall c {:trigger c in r} :: 0 <= c < |conf| && live[c] && conf[c].pri == i ==> c in r)
  }

  ghost predicate Members(r: seq<nat>, i: nat, conf: seq<Conf>, live: seq<bool>) {
    && |conf| == |live|
    && forall k :: 0 <= k < |r| ==> r[k] < |conf| && live[r[k]] && conf[r[k]].pri == i
  }

  ghost predicate Cycle(r: seq<nat>, peer: seq<nat>, active: int) {
    && NoDup(r) && Within(r, |peer|)
    && active == (if r == [] then -1 else r[0])
    && forall k {:trigger peer[r[k]]} :: 0 <= k < |r| ==> peer[r[k]] == r[Succ(k, |r|)]
  }

  predicate Within(r: seq<nat>, n: nat) { forall k :: 0 <= k < |r| ==> r[k] < n }

  function Sum(r: seq<nat>, col: seq<nat>): (n: nat)
    requires Within(r, |col|)
  {
    if r == [] then 0 else Sum(r[..|r| - 1], col) + col[r[|r| - 1]]
  }

  lemma {:induction false} SumConcat(a: seq<nat>, b: seq<nat>, col: seq<nat>)
    requires Within(a, |col|) && Within(b, |col|)
    ensures Sum(a + b, col) == Sum(a, col) + Sum(b, col)
  {
    if b == [] {
      assert a + b == a;
    } else {
      assert (a + b)[..|a + b| - 1] == a + b[..|b| - 1];
      SumConcat(a, b[..|b| - 1], col);
    }
  }

  ghost function Backlogged(conf: seq<Conf>, live: seq<bool>, q: seq<seq<Packet>>, i: nat): set<nat>
    requires |conf| == |live| == |q|
  {
    set c: nat | c < |conf| && live[c] && conf[c].pri == i && q[c] != []
  }

  // ---------------------------------------------------------------- the interface

  /** How the classes are set up and linked. */
  datatype Classes = Classes(conf: seq<Conf>, live: seq<bool>, peer: seq<nat>, children: seq<seq<nat>>, depth: seq<nat>,
                             qlimit: seq<nat>, allotment: seq<nat>, wAllotment: seq<nat>, est: seq<Estimator>)

  /** The queues of the classes, and how many are not empty at each priority. */
  datatype Backlog = Backlog(q: seq<seq<Packet>>, na: seq<int>)

  /** The peer rings and their weights; weight is M_. */
  datatype Levels = Levels(active: seq<int>, num: seq<int>, alloc: seq<int>, weight: seq<nat>)

  /** The clocks and accounts of the classes. */
  datatype Turns = Turns(timing: seq<Timing>, bytesAlloc: seq<int>)

  /** Packets handed to the driver; sent is class_ and sentAt is now_. */
  datatype Slots = Slots(qi: nat, qo: nat, queued: nat, sent: seq<int>, curlen: seq<nat>, borrowed: seq<int>,
                         sentAt: seq<Time>, ifnow: Time)

  /** The peer rings, read from the active class. */
  datatype Order = Order(rings: seq<seq<nat>>)

  /** For each account what it was last refilled with, and what it has paid since.  Both start over when the search
      passes the class (its pointer `cl` clears the account) and when a used-up account is refilled; by then active_
      has moved past the class.  active_ may still name a class whose account was cleared, so it is the search's
      pointer that bounds what a class pays in one turn. */
  datatype Ledger = Ledger(turn: seq<nat>, charged: seq<nat>)

  class RmIfdat {
    const maxPrio: nat
    const maxDepth: nat
    const maxqueued: nat
    const maxpkt: nat
    const wrr: bool
    const efficient: bool
    const nsPerByte: nat
    const maxiftime: int

    var c: Classes
    var b: Backlog
    var p: Levels
    var t: Turns
    var s: Slots
    var cutoff: nat
    var pollcache: int
    ghost var g: Order
    ghost var l: Ledger
    ghost var largest: nat         // the length of the largest packet so far, at least maxpkt

    constructor (maxPrio: nat, maxDepth: nat, maxqueued: nat, maxpkt: nat, wrr: bool, efficient: bool,
                 nsPerByte: nat, maxiftime: int)
      requires maxPrio > 0 && maxqueued > 0 && maxpkt > 0 && nsPerByte > 0
      ensures this.maxPrio == maxPrio && this.maxDepth == maxDepth && this.maxqueued == maxqueued
      ensures this.maxpkt == maxpkt && this.wrr == wrr && this.efficient == efficient
      ensures this.nsPerByte == nsPerByte && this.maxiftime == maxiftime
      ensures largest == maxpkt && Inv() && Accounts() && Fits() && c.conf == [] && pollcache == -1
      ensures cutoff == maxDepth && s.queued == 0
    {
      this.maxPrio, this.maxDepth, this.maxqueued, this.maxpkt := maxPrio, maxDepth, maxqueued, maxpkt;
      this.wrr, this.efficient, this.nsPerByte, this.maxiftime := wrr, efficient, nsPerByte, maxiftime;
      c, t, cutoff, pollcache := Classes([], [], [], [], [], [], [], [], []), Turns([], []), maxDepth, -1;
      b := Backlog([], seq(maxPrio, _ => 0));
      p := Levels(seq(maxPrio, _ => -1), seq(maxPrio, _ => 0), seq(maxPrio, _ => 0), seq(maxPrio, _ => 0));
      s := Slots(0, 0, 0, seq(maxqueued, _ => -1), seq(maxqueued, _ => 0), seq(maxqueued, _ => -1),
                 seq(maxqueued, _ => Time(0, 0)), Time(0, 0));
      g, l, largest := Order(seq(maxPrio, _ => [])), Ledger([], []), maxpkt;
    }

    /** One entry per class and one per priority. */
    ghost predicate Shape()
      reads this`c, this`b, this`t, this`l, this`p, this`g
    {
      && |c.conf| == |c.live| == |c.peer| == |c.children| == |c.depth| == |b.q| == |c.qlimit|
      && |c.conf| == |c.allotment| == |c.wAllotment| == |c.est|
      && |c.conf| == |t.bytesAlloc| == |t.timing| == |l.turn| == |l.charged|
      && maxPrio > 0 && maxpkt > 0
      && |p.active| == |b.na| == |p.num| == |p.alloc| == |p.weight| == |g.rings| == maxPrio
    }

    /** The slots in use are the `queued` ones from qo on, and they name classes. */
    ghost predicate SlotsOk()
      reads this`c, this`s
    {
      && |s.sent| == |s.curlen| == |s.borrowed| == |s.sentAt| == maxqueued
      && InUse(s.sent, s.qi, s.qo, s.queued) && Names(s.sent, |c.conf|) && Names(s.borrowed, |c.conf|)
    }

    ghost predicate Rings()
      reads this`c, this`p, this`g
    {
      |g.rings| == maxPrio && AllRings(g.rings, c.conf, c.live, c.peer, p.active)
    }

    /** na_[i] is the exact number of backlogged classes at priority i. */
    ghost predicate Backlogs()
      reads this`c, this`b
    {
      |b.na| == maxPrio && AllBacklogs(c.conf, c.live, b.q, b.na)
    }

    /** Under WRR num_[i] and alloc_[i] are the exact count and sum of allotments, and the weights follow. */
    ghost predicate Weights()
      reads this`g, this`p, this`c
    {
      && |g.rings| == maxPrio && maxpkt > 0
      && (wrr ==> AllWeights(g.rings, p.num, p.alloc, p.weight, c.allotment, c.wAllotment, maxpkt))
    }

    /** Every red queue is one red_addq has filled. */
    ghost predicate Queues()
      reads this`c, this`b
    {
      AllFair(c.conf, b.q)
    }

    /** What every operation keeps. */
    ghost predicate Inv()
      reads this`c, this`b, this`t, this`l, this`p, this`g, this`s
    {
      && Shape() && SlotsOk() && Tree(c.conf, c.live, c.children) && DepthsExact(c.live, c.children, c.depth, -1)
      && Rings() && Backlogs() && Weights() && Queues()
    }

    /** An account never owes a whole packet, and what it has paid since it was refilled is covered. */
    ghost predicate Accounts()
      reads this`t, this`l, this`largest
    {
      largest > 0 && Covered(t.bytesAlloc, l.turn, l.charged, largest)
    }

    /** No queued packet is larger than the largest so far. */
    ghost predicate Fits()
      reads this`b, this`largest
    {
      Fitting(b.q, largest)
    }

    /** The estimates stay within their limits. */
    ghost predicate Tempered()
      reads this`c, this`t
    {
      |c.est| == |t.timing| && forall x :: 0 <= x < |c.est| ==> Temperate(c.est[x], t.timing[x].avgidle)
    }

    /** A polled class has something to send. */
    ghost predicate Polled()
      reads this`pollcache, this`b, this`c
    {
      && -1 <= pollcache
      && (pollcache != -1 ==> pollcache < |b.q| == |c.live| && c.live[pollcache] && b.q[pollcache] != [])
    }
  }

  predicate Temperate(e: Estimator, avgidle: int) {
    e.minidle <= 0 < e.maxidle && e.minidle <= avgidle <= e.maxidle
  }

  ghost predicate Covered(bytesAlloc: seq<int>, turn: seq<nat>, charged: seq<nat>, largest: nat) {
    && |bytesAlloc| == |turn| == |charged|
    && forall c :: 0 <= c < |bytesAlloc| ==> Account(bytesAlloc[c], turn[c], charged[c], largest)
  }

  /** What an account was refilled with covers what it has paid since and what is left; it owes less than a packet. */
  ghost predicate Account(bytesAlloc: int, turn: nat, charged: nat, largest: nat) {
    bytesAlloc + largest > 0 && charged + bytesAlloc <= turn
  }

  ghost predicate Fitting(q: seq<seq<Packet>>, largest: nat) {
    forall c :: 0 <= c < |q| ==> Short(q[c], largest)
  }

  ghost predicate Short(s: seq<Packet>, largest: nat) {
    forall j :: 0 <= j < |s| ==> s[j].len <= largest
  }

  /** How an account and its ledger may move while a search goes on: not at all; cleared, because the search passed
      the class over; or refilled with the weighted allotment w, because the account was used up or cleared. */
  ghost predicate Anew(b0: int, b1: int, turn0: nat, turn1: nat, charged0: nat, charged1: nat, w: nat) {
    || (b1 == b0 && turn1 == turn0 && charged1 == charged0)
    || (b1 == 0 && turn1 == 0 && charged1 == 0)
    || (b1 > 0 && turn1 == w && charged1 == 0 && (b1 == w || (b0 <= 0 && b1 == b0 + w)))
  }

  ghost predicate Turning(b0: seq<int>, l0: Ledger, b1: seq<int>, l1: Ledger, w: seq<nat>) {
    && |b0| == |b1| == |l0.turn| == |l1.turn| == |l0.charged| == |l1.charged| == |w|
    && forall c {:trigger b1[c]} {:trigger l1.turn[c]} {:trigger l1.charged[c]} :: 0 <= c < |b1| ==>
         Anew(b0[c], b1[c], l0.turn[c], l1.turn[c], l0.charged[c], l1.charged[c], w[c])
  }

  /** As Turning, and then the class cl has sent a packet of that length, which its account has paid if there was
      anything left in it; cl is -1 if nothing was sent. */
  ghost predicate Billed(b0: seq<int>, l0: Ledger, b1: seq<int>, l1: Ledger, w: seq<nat>, cl: int, len: nat) {
    && |b0| == |b1| == |l0.turn| == |l1.turn| == |l0.charged| == |l1.charged| == |w|
    && forall c {:trigger b1[c]} {:trigger l1.turn[c]} {:trigger l1.charged[c]} :: 0 <= c < |b1| ==>
         BilledOne(b0[c], b1[c], l0.turn[c], l1.turn[c], l0.charged[c], l1.charged[c], w[c], if c == cl then len else 0)
  }

  ghost predicate BilledOne(b0: int, b1: int, turn0: nat, turn1: nat, charged0: nat, charged1: nat, w: nat, len: nat) {
    || (b1 + len > 0 && charged1 >= len && Anew(b0, b1 + len, turn0, turn1, charged0, charged1 - len, w))
    || ((b1 <= 0 || len == 0) && Anew(b0, b1, turn0, turn1, charged0, charged1, w))
  }

  /** Every account was last refilled with its present weighted allotment, or not since it was cleared.  New weights
      end this until the account is visited again. */
  ghost predicate Allotted(turn: seq<nat>, w: seq<nat>) {
    |turn| == |w| && forall c :: 0 <= c < |turn| ==> turn[c] == 0 || turn[c] == w[c]
  }

  /** Since it was refilled or cleared, no account has paid for more than its weighted allotment and a packet less
      a byte. */
  ghost predicate InBudget(charged: seq<nat>, w: seq<nat>, largest: nat) {
    |charged| == |w| && forall c :: 0 <= c < |charged| ==> charged[c] < w[c] + largest
  }

  ghost predicate Counted(r: seq<nat>, allotment: seq<nat>, num: int, alloc: int) {
    && Within(r, |allotment|)
    && num == |r| && alloc == Sum(r, allotment)
  }

  ghost predicate Weighed(r: seq<nat>, allotment: seq<nat>, wAllotment: seq<nat>, weight: nat, maxpkt: nat)
    requires |allotment| == |wAllotment| && maxpkt > 0
  {
    && Within(r, |allotment|)
    && weight == (if r == [] then 0 else Quot(Sum(r, allotment), |r| * maxpkt))
    && forall k :: 0 <= k < |r| ==> wAllotment[r[k]] == if weight == 0 then 0 else Quot(allotment[r[k]], weight)
  }

  ghost predicate AllRings(rings: seq<seq<nat>>, conf: seq<Conf>, live: seq<bool>, peer: seq<nat>, active: seq<int>) {
    && |active| == |rings|
    && (forall c :: 0 <= c < |conf| ==> conf[c].pri < |rings|)
    && forall i {:trigger RingOk(rings[i], i, conf, live, peer, active[i])} ::
         0 <= i < |rings| ==> RingOk(rings[i], i, conf, live, peer, active[i])
  }

  /** The position k places after another on a ring of slots. */
  function Slot(k: nat, n: nat): nat { if k < n then k else k - n }

  /** Exactly the `queued` slots from qo on are taken, and qi is the next. */
  ghost predicate InUse(sent: seq<int>, qi: nat, qo: nat, queued: nat) {
    && qi < |sent| && qo < |sent| && queued <= |sent| && qi == Slot(qo + queued, |sent|)
    && forall k :: 0 <= k < |sent| ==> (sent[k] != -1 <==> (if k < qo then k + |sent| else k) < qo + queued)
  }

  /** The entries are classes or null. */
  ghost predicate Names(s: seq<int>, n: nat) { forall k :: 0 <= k < |s| ==> -1 <= s[k] < n }

  ghost predicate AllFair(conf: seq<Conf>, q: seq<seq<Packet>>) {
    && |conf| == |q|
    && forall c {:trigger HF.Fair(HF.Hashes(q[c]))} :: 0 <= c < |conf| && conf[c].red ==> HF.Fair(HF.Hashes(q[c]))
  }

  ghost predicate AllBacklogs(conf: seq<Conf>, live: seq<bool>, q: seq<seq<Packet>>, na: seq<int>) {
    && |conf| == |live| == |q|
    && forall i {:trigger Backlogged(conf, live, q, i)} :: 0 <= i < |na| ==> na[i] == |Backlogged(conf, live, q, i)|
  }

  lemma OwnBacklog(conf: seq<Conf>, live: seq<bool>, q: seq<seq<Packet>>, c: nat, x: seq<Packet>)
    requires |conf| == |live| == |q| && c < |conf| && live[c]
    ensures |Backlogged(conf, live, q[c := x], conf[c].pri)|
         == |Backlogged(conf, live, q, conf[c].pri)| + Full(x) - Full(q[c])
  {
    var i := conf[c].pri;
    var b, b' := Backlogged(conf, live, q, i), Backlogged(conf, live, q[c := x], i);
    SameButOne(b, b', c);
  }

  /** Two sets that agree except perhaps on c. */
  lemma SameButOne(a: set<nat>, b: set<nat>, c: nat)
    requires forall x :: x != c ==> (x in a <==> x in b)
    ensures |b| == |a| + (if c in b then 1 else 0) - if c in a then 1 else 0
  {
    assert a - {c} == b - {c};
    assert |a - {c}| == |a| - (if c in a then 1 else 0);
    assert |b - {c}| == |b| - (if c in b then 1 else 0);
  }

  lemma OtherBacklog(conf: seq<Conf>, live: seq<bool>, q: seq<seq<Packet>>, c: nat, x: seq<Packet>, j: nat)
    requires |conf| == |live| == |q| && c < |conf| && j != conf[c].pri
    ensures Backlogged(conf, live, q[c := x], j) == Backlogged(conf, live, q, j)
  {
  }

  /** Changing one queue moves its class into or out of the backlog. */
  lemma BacklogUpdate(conf: seq<Conf>, live: seq<bool>, q: seq<seq<Packet>>, na: seq<int>, c: nat, x: seq<Packet>)
    requires AllBacklogs(conf, live, q, na) && c < |conf| && live[c] && conf[c].pri < |na|
    ensures AllBacklogs(conf, live, q[c := x], na[conf[c].pri := na[conf[c].pri] + Full(x) - Full(q[c])])
  {
    var i := conf[c].pri;
    OwnBacklog(conf, live, q, c, x);
    assert na[i] == |Backlogged(conf, live, q, i)|;
    forall j | 0 <= j < |na| && j != i ensures na[j] == |Backlogged(conf, live, q[c := x], j)| {
      OtherBacklog(conf, live, q, c, x, j);
      assert na[j] == |Backlogged(conf, live, q, j)|;
    }
  }

  function Full(x: seq<Packet>): int { if x == [] then 0 else 1 }

  ghost predicate AllWeights(rings: seq<seq<nat>>, num: seq<int>, alloc: seq<int>, weight: seq<nat>,
                             allotment: seq<nat>, wAllotment: seq<nat>, maxpkt: nat)
    requires maxpkt > 0
  {
    && |rings| == |num| == |alloc| == |weight| && |allotment| == |wAllotment|
    && forall i {:trigger Counted(rings[i], allotment, num[i], alloc[i])} :: 0 <= i < |rings| ==>
         Counted(rings[i], allotment, num[i], alloc[i]) && Weighed(rings[i], allotment, wAllotment, weight[i], maxpkt)
  }

  function Quot(a: nat, b: nat): (r: nat)
    ensures b != 0 ==> r * b <= a < r * b + b
  {
    if b == 0 then 0 else a / b
  }
}
