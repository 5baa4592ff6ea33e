/**
  Creating, changing and deleting classes: rmc_init, rmc_newclass, rmc_modclass and rmc_delete_class.
 */
module CbqSetup {
  import opened CbqState
  import HF = HashFair
  import opened CbqTree
  import opened CbqRings
  import opened CbqWeights

  // ---------------------------------------------------------------- a new class

  function ChildAdded(children: seq<seq<nat>>, parent: int, c: nat): seq<seq<nat>>
    requires -1 <= parent < |children|
  {
    if parent == -1 then children else children[parent := [c] + children[parent]]
  }

  /** A new class may borrow from nobody or from one of its ancestors. */
  predicate MayBorrow(conf: seq<Conf>, parent: int, borrow: int) {
    borrow == -1 || (borrow >= 0 && OnBranch(conf, parent, borrow))
  }

  /** Ancestors stay ancestors when classes are added. */
  lemma {:induction false} BranchStays(conf: seq<Conf>, x: Conf, c: int, b: nat)
    requires OnBranch(conf, c, b)
    ensures OnBranch(conf + [x], c, b) && b <= c
    decreases c
  {
    if b != c {
      BranchStays(conf, x, conf[c].parent, b);
    }
  }

  lemma JoinTree(conf: seq<Conf>, live: seq<bool>, children: seq<seq<nat>>, x: Conf)
    requires Tree(conf, live, children) && -1 <= x.parent < |conf| && MayBorrow(conf, x.parent, x.borrow)
    requires x.parent != -1 ==> live[x.parent]
    ensures Tree(conf + [x], live + [true], ChildAdded(children, x.parent, |conf|) + [[]])
  {
    var n := |conf|;
    var conf', live', children' := conf + [x], live + [true], ChildAdded(children, x.parent, n) + [[]];
    forall c | 0 <= c <= n ensures Linked(conf', c) && Loan(conf', c) {
      assert c < n ==> Linked(conf, c) && Loan(conf, c);
      if conf'[c].borrow >= 0 {
        BranchStays(conf, x, conf'[c].parent, conf'[c].borrow);
      }
    }
    forall c | 0 <= c <= n && live'[c] && Linked(conf', c) ensures TreeAt(conf', live', children', c) {
      if c < n {
        assert Linked(conf, c) && TreeAt(conf, live, children, c);
        ChildrenOf(conf, live, children, c);
      }
    }
  }

  /** A new class does not change the depth of anyone but its parent. */
  lemma JoinDepths(conf: seq<Conf>, live: seq<bool>, children: seq<seq<nat>>, depth: seq<nat>, x: Conf)
    requires Tree(conf, live, children) && DepthsExact(live, children, depth, -1) && -1 <= x.parent < |conf|
    ensures DepthsExact(live + [true], ChildAdded(children, x.parent, |conf|) + [[]], depth + [0], x.parent)
  {
    var children', depth' := ChildAdded(children, x.parent, |conf|) + [[]], depth + [0];
    forall c | 0 <= c <= |conf| && (live + [true])[c] && c != x.parent ensures DepthOk(children', depth', c) {
      if c < |conf| {
        assert DepthOk(children, depth, c);
        SameMax(children[c], depth, depth');
      }
    }
  }

  /** The parent of a new class has the right depth already unless it had no children. */
  lemma JoinLags(conf: seq<Conf>, live: seq<bool>, children: seq<seq<nat>>, depth: seq<nat>, x: Conf)
    requires Tree(conf, live, children) && DepthsExact(live, children, depth, -1) && 0 <= x.parent < |conf|
    requires live[x.parent] && children[x.parent] != []
    ensures DepthOk(ChildAdded(children, x.parent, |conf|) + [[]], depth + [0], x.parent)
  {
    var n, p := |conf|, x.parent;
    var s, s', d := children[p], [n] + children[p], depth + [0];
    assert DepthOk(children, depth, p);
    var m := MaxDepth(s, depth);
    var k :| 0 <= k < |s| && depth[s[k]] == m;
    forall j | 0 <= j < |s'| ensures s'[j] <= n && d[s'[j]] <= m {
    }
    MaxIs(s', d, m, k + 1);
    assert (ChildAdded(children, p, n) + [[]])[p] == s';
  }

  lemma JoinLagging(conf: seq<Conf>, live: seq<bool>, children: seq<seq<nat>>, depth: seq<nat>, x: Conf)
    requires Tree(conf, live, children) && DepthsExact(live, children, depth, -1) && -1 <= x.parent < |conf|
    requires MayBorrow(conf, x.parent, x.borrow) && (x.parent != -1 ==> live[x.parent])
    ensures Linked(conf + [x], |conf|)
    ensures Lagging(conf + [x], ChildAdded(children, x.parent, |conf|) + [[]], depth + [0], |conf|)
  {
    if x.borrow >= 0 {
      BranchStays(conf, x, x.parent, x.borrow);
    }
    if x.parent != -1 {
      assert DepthOk(children, depth, x.parent);
      ChildrenOf(conf, live, children, x.parent);
      if children[x.parent] != [] {
        JoinLags(conf, live, children, depth, x);
      }
    }
  }

  lemma JoinBacklogs(conf: seq<Conf>, live: seq<bool>, q: seq<seq<Packet>>, na: seq<int>, x: Conf)
    requires AllBacklogs(conf, live, q, na) && AllFair(conf, q)
    ensures AllBacklogs(conf + [x], live + [true], q + [[]], na) && AllFair(conf + [x], q + [[]])
  {
    forall i | 0 <= i < |na| ensures na[i] == |Backlogged(conf + [x], live + [true], q + [[]], i)| {
      assert Backlogged(conf + [x], live + [true], q + [[]], i) == Backlogged(conf, live, q, i);
    }
    forall c | 0 <= c <= |conf| && (conf + [x])[c].red ensures HF.Fair(HF.Hashes((q + [[]])[c])) {
      if c < |conf| {
        assert HF.Fair(HF.Hashes(q[c]));
      }
    }
  }

  lemma JoinCounts(rings: seq<seq<nat>>, allotment: seq<nat>, num: seq<int>, alloc: seq<int>, i: nat, a: nat)
    requires i < |rings| == |num| == |alloc|
    requires forall j :: 0 <= j < |rings| ==> Counted(rings[j], allotment, num[j], alloc[j])
    ensures forall j {:trigger rings[i := rings[i] + [|allotment|]][j]} :: 0 <= j < |rings| ==>
      Counted(rings[i := rings[i] + [|allotment|]][j], allotment + [a], num[i := num[i] + 1][j],
              alloc[i := alloc[i] + a][j])
  {
    SumJoined(rings[i], allotment, a);
    forall j | 0 <= j < |rings| && j != i ensures Counted(rings[j], allotment + [a], num[j], alloc[j]) {
      assert Counted(rings[j], allotment, num[j], alloc[j]);
      SameSum(rings[j], allotment, allotment + [a]);
    }
  }

  // ---------------------------------------------------------------- parameters of a class

  /** C's division of signed integers. */
  function TruncDiv(a: int, b: nat): int
    requires b > 0
  {
    if a >= 0 then a / b else -((-a) / b)
  }

  /** A product of unsigned 32-bit numbers. */
  function Times32(a: int, b: nat): nat { (a * b) % 0x1_0000_0000 }

  /** The estimator's limits scaled to the speed of the class; 2^RM_FILTER_GAIN is `gain`. */
  function Scaled(maxidle: nat, minidle: int, offtime: nat, nsPerByte: nat, gain: nat): (e: Estimator)
    requires gain > 0
    ensures e.minidle <= 0 < e.maxidle && e.offtime > 0
  {
    var lo, hi, off := TruncDiv(minidle * nsPerByte, 8), Times32(maxidle, nsPerByte) / 8,
        Times32(offtime, nsPerByte) / 8 / gain;
    Estimator(if lo > 0 then 0 else lo, if hi == 0 then 1 else hi, if off == 0 then 1 else off, nsPerByte)
  }

  /** Each limit is the parameter times the speed of the class, over 8 and for the offtime over 2^RM_FILTER_GAIN as
      well, rounded towards 0; products of unsigned numbers are taken modulo 2^32, and a limit of 0 becomes 1. */
  lemma ScaledBounds(maxidle: nat, minidle: int, offtime: nat, nsPerByte: nat, gain: nat)
    requires gain > 0
    ensures var e := Scaled(maxidle, minidle, offtime, nsPerByte, gain);
            var hi, off := maxidle * nsPerByte % 0x1_0000_0000, offtime * nsPerByte % 0x1_0000_0000;
            && e.nsPerByte == nsPerByte
            && (hi >= 8 ==> 8 * e.maxidle <= hi < 8 * (e.maxidle + 1)) && (hi < 8 ==> e.maxidle == 1)
            && (off >= 8 * gain ==> 8 * (gain * e.offtime) <= off < 8 * (gain * (e.offtime + 1)))
            && (off < 8 * gain ==> e.offtime == 1)
            && (minidle >= 0 ==> e.minidle == 0)
            && (minidle < 0 ==> 8 * -e.minidle <= -minidle * nsPerByte < 8 * (-e.minidle + 1))
  {
    var off := offtime * nsPerByte % 0x1_0000_0000;
    Eighths(off, gain);
    Signs(minidle, nsPerByte);
  }

  lemma Signs(a: int, b: nat)
    ensures -a * b == -(a * b) && (a >= 0 ==> a * b >= 0) && (a <= 0 ==> a * b <= 0)
  {
  }

  /** Dividing by 8 and then by g is dividing by 8 g. */
  lemma Eighths(x: nat, g: nat)
    requires g > 0
    ensures 8 * (g * (x / 8 / g)) <= x < 8 * (g * (x / 8 / g + 1))
    ensures x / 8 / g == 0 <==> x < 8 * g
  {
    var y := x / 8;
    assert y == g * (y / g) + y % g && x == 8 * y + x % 8;
    assert g * (y / g + 1) == g * (y / g) + g;
    if y < g {
      assert y / g == 0;
    }
  }

  /** rmc_modclass multiplies minidle as an unsigned number, so that a negative limit is lost: it becomes 0. */
  function Rescaled(maxidle: nat, minidle: int, offtime: nat, nsPerByte: nat, gain: nat): (e: Estimator)
    requires gain > 0
    ensures e == Scaled(maxidle, 0, offtime, nsPerByte, gain)
  {
    var lo := Times32(minidle, nsPerByte) / 8;
    Scaled(maxidle, minidle, offtime, nsPerByte, gain).(minidle := if lo > 0 then 0 else lo)
  }

  /** rmc_modclass sets the limits rmc_newclass would have set exactly if that limit is not negative: the product
      has to stay above -8, which truncation takes to 0. */
  lemma KeepsMinidle(maxidle: nat, minidle: int, offtime: nat, nsPerByte: nat, gain: nat)
    requires gain > 0
    ensures Rescaled(maxidle, minidle, offtime, nsPerByte, gain) == Scaled(maxidle, minidle, offtime, nsPerByte, gain)
       <==> minidle * nsPerByte > -8
  {
  }

  /** A class of 10 Mbit/s with a limit of -1000 loses it. */
  lemma LosesMinidle(maxidle: nat, offtime: nat, gain: nat)
    requires gain > 0
    ensures Scaled(maxidle, -1000, offtime, 800, gain).minidle == -100_000
    ensures Rescaled(maxidle, -1000, offtime, 800, gain).minidle == 0
  {
    assert -1000 * 800 == -800_000;
  }

  /** The clock of a class that has sent nothing yet. */
  function Unused(maxidle: int): Timing { Timing(Time(0, 0), Time(0, 0), Time(0, 0), 0, false, maxidle) }

  /** The tree with a new class in it, and the depths of its branch. */
  method PlantClass(c: Classes, x: Conf) returns (children: seq<seq<nat>>, depth: seq<nat>)
    requires Tree(c.conf, c.live, c.children) && DepthsExact(c.live, c.children, c.depth, -1)
    requires -1 <= x.parent < |c.conf| && (x.parent != -1 ==> c.live[x.parent])
    requires MayBorrow(c.conf, x.parent, x.borrow)
    ensures children == ChildAdded(c.children, x.parent, |c.conf|) + [[]]
    ensures Tree(c.conf + [x], c.live + [true], children) && DepthsExact(c.live + [true], children, depth, -1)
  {
    JoinTree(c.conf, c.live, c.children, x);
    JoinDepths(c.conf, c.live, c.children, c.depth, x);
    JoinLagging(c.conf, c.live, c.children, c.depth, x);
    children := ChildAdded(c.children, x.parent, |c.conf|) + [[]];
    depth := DepthCompute(c.conf + [x], c.live + [true], children, c.depth + [0], |c.conf|);
  }

  /** The rings with a new class on one of them. */
  method RingIn(c: Classes, active0: seq<int>, ghost rings: seq<seq<nat>>, x: Conf)
    returns (peer: seq<nat>, active: seq<int>)
    requires AllRings(rings, c.conf, c.live, c.peer, active0) && |c.conf| == |c.live| == |c.peer| && x.pri < |rings|
    ensures AllRings(rings[x.pri := rings[x.pri] + [|c.conf|]], c.conf + [x], c.live + [true], peer, active)
    ensures |peer| == |c.conf| + 1
  {
    var n, i := |c.conf|, x.pri;
    assert RingOk(rings[i], i, c.conf, c.live, c.peer, active0[i]);
    JoinRings(rings, c.conf, c.live, c.peer, active0, x);
    peer, active := c.peer + [n], active0;
    if active[i] != -1 {
      var last := LastPeer(c.peer, active[i], rings[i]);
      peer := (c.peer + [active[i]])[last := n];
    } else {
      active := active[i := n];
    }
    assert peer == Joined(rings[i], c.peer);
    assert active == active0[i := if rings[i] == [] then n else active0[i]];
  }

  /** Counts, sums and weights with a new class of allotment a at priority i. */
  method WeighIn(p: Levels, ghost rings: seq<seq<nat>>, ghost conf: seq<Conf>, ghost live: seq<bool>, peer: seq<nat>,
                 active: seq<int>, allotment: seq<nat>, w0: seq<nat>, i: nat, a: nat, maxpkt: nat)
    returns (num: seq<int>, alloc: seq<int>, weight: seq<nat>, w: seq<nat>)
    requires maxpkt > 0 && AllWeights(rings, p.num, p.alloc, p.weight, allotment, w0, maxpkt) && i < |rings|
    requires AllRings(rings[i := rings[i] + [|allotment|]], conf, live, peer, active) && |conf| == |allotment| + 1
    ensures AllWeights(rings[i := rings[i] + [|allotment|]], num, alloc, weight, allotment + [a], w, maxpkt)
  {
    JoinCounts(rings, allotment, p.num, p.alloc, i, a);
    num, alloc := p.num[i := p.num[i] + 1], p.alloc[i := p.alloc[i] + a];
    weight, w := SetWeights(rings[i := rings[i] + [|allotment|]], conf, live, peer, active, num, alloc,
                            allotment + [a], w0 + [0], maxpkt);
  }

  /** The classes and the rings with a new class in them. */
  method Grow(wrr: bool, maxpkt: nat, c: Classes, p: Levels, ghost rings: seq<seq<nat>>, x: Conf, maxq: nat, a: nat,
              e: Estimator)
    returns (c1: Classes, p1: Levels)
    requires Tree(c.conf, c.live, c.children) && DepthsExact(c.live, c.children, c.depth, -1) && x.pri < |rings|
    requires |c.conf| == |c.live| == |c.peer| == |c.allotment| == |c.wAllotment| && maxpkt > 0
    requires -1 <= x.parent < |c.conf| && (x.parent != -1 ==> c.live[x.parent]) && MayBorrow(c.conf, x.parent, x.borrow)
    requires AllRings(rings, c.conf, c.live, c.peer, p.active)
    requires wrr ==> AllWeights(rings, p.num, p.alloc, p.weight, c.allotment, c.wAllotment, maxpkt)
    ensures c1 == Classes(c.conf + [x], c.live + [true], c1.peer, ChildAdded(c.children, x.parent, |c.conf|) + [[]],
                          c1.depth, c.qlimit + [maxq], c.allotment + [a], c1.wAllotment, c.est + [e])
    ensures |c1.peer| == |c1.depth| == |c1.wAllotment| == |c.conf| + 1
    ensures Tree(c1.conf, c1.live, c1.children) && DepthsExact(c1.live, c1.children, c1.depth, -1)
    ensures AllRings(rings[x.pri := rings[x.pri] + [|c.conf|]], c1.conf, c1.live, c1.peer, p1.active)
    ensures if wrr then AllWeights(rings[x.pri := rings[x.pri] + [|c.conf|]], p1.num, p1.alloc, p1.weight, c1.allotment,
                                   c1.wAllotment, maxpkt)
            else p1 == p.(active := p1.active)
  {
    var peer, active := RingIn(c, p.active, rings, x);
    var children, depth := PlantClass(c, x);
    var num, alloc, weight, w := p.num, p.alloc, p.weight, c.wAllotment + [0];
    if wrr {
      num, alloc, weight, w := WeighIn(p, rings, c.conf + [x], c.live + [true], peer, active, c.allotment, c.wAllotment,
                                       x.pri, a, maxpkt);
    }
    c1 := Classes(c.conf + [x], c.live + [true], peer, children, depth, c.qlimit + [maxq], c.allotment + [a], w,
                  c.est + [e]);
    p1 := Levels(active, num, alloc, weight);
  }

  /** rmc_newclass: the class joins its ring as the last one and heads its parent's children. */
  method NewClass(ifd: RmIfdat, pri: nat, parent: int, borrow: int, red: bool, nsPerByte: nat, maxq: nat,
                  maxidle: nat, minidle: int, offtime: nat, gain: nat)
    returns (cl: int)
    requires ifd.Inv() && ifd.Accounts() && nsPerByte > 0 && gain > 0
    requires -1 <= parent < |ifd.c.conf| && (parent != -1 ==> ifd.c.live[parent])
    requires MayBorrow(ifd.c.conf, parent, borrow)
    modifies ifd`c, ifd`b, ifd`p, ifd`t, ifd`l, ifd`g
    ensures ifd.Inv() && ifd.Accounts() && (old(ifd.Tempered()) ==> ifd.Tempered())
    ensures pri >= ifd.maxPrio ==> cl == -1 && ifd.c == old(ifd.c) && ifd.b == old(ifd.b) && ifd.p == old(ifd.p)
                                   && ifd.t == old(ifd.t) && ifd.l == old(ifd.l) && ifd.g == old(ifd.g)
    ensures pri < ifd.maxPrio ==>
      && cl == |old(ifd.c.conf)|
      && ifd.c == Classes(old(ifd.c.conf) + [Conf(pri, parent, borrow, red)], old(ifd.c.live) + [true], ifd.c.peer,
                          ChildAdded(old(ifd.c.children), parent, cl) + [[]], ifd.c.depth, old(ifd.c.qlimit) + [maxq],
                          old(ifd.c.allotment) + [NS_PER_SEC / nsPerByte], ifd.c.wAllotment,
                          old(ifd.c.est) + [Scaled(maxidle, minidle, offtime, nsPerByte, gain)])
      && ifd.b == old(ifd.b).(q := old(ifd.b.q) + [[]])
      && ifd.g.rings == old(ifd.g.rings)[pri := old(ifd.g.rings)[pri] + [cl]]
      && (!ifd.wrr ==> ifd.p == old(ifd.p).(active := ifd.p.active))
      && ifd.t == Turns(old(ifd.t.timing) + [Unused(Scaled(maxidle, minidle, offtime, nsPerByte, gain).maxidle)],
                        old(ifd.t.bytesAlloc) + [0])
  {
    if pri >= ifd.maxPrio {
      return -1;
    }
    var c, b, p, t := ifd.c, ifd.b, ifd.p, ifd.t;
    ghost var rings, l := ifd.g.rings, ifd.l;
    var x, a, e := Conf(pri, parent, borrow, red), NS_PER_SEC / nsPerByte,
        Scaled(maxidle, minidle, offtime, nsPerByte, gain);
    cl := |c.conf|;
    JoinBacklogs(c.conf, c.live, b.q, b.na, x);
    var c1, p1 := Grow(ifd.wrr, ifd.maxpkt, c, p, rings, x, maxq, a, e);
    ifd.c := c1;
    ifd.b := Backlog(b.q + [[]], b.na);
    ifd.p := p1;
    ifd.t := Turns(t.timing + [Unused(e.maxidle)], t.bytesAlloc + [0]);
    ifd.l := Ledger(l.turn + [0], l.charged + [0]);
    ifd.g := Order(rings[pri := rings[pri] + [|c.conf|]]);
  }

  /** rmc_init: an interface with its root class. */
  method Init(maxPrio: nat, maxDepth: nat, maxqueued: nat, maxpkt: nat, wrr: bool, efficient: bool, nsPerByte: nat,
              maxiftime: int, maxq: nat, maxidle: nat, minidle: int, offtime: nat, gain: nat)
    returns (ifd: RmIfdat)
    requires maxPrio > 0 && maxqueued > 0 && maxpkt > 0 && nsPerByte > 0 && gain > 0
    ensures fresh(ifd) && ifd.Inv() && ifd.Accounts() && ifd.Fits() && ifd.Tempered() && ifd.Polled()
    ensures SingleRoot(ifd.c.conf, ifd.c.live)
    ensures |ifd.c.conf| == 1 && ifd.b.q == [[]] && ifd.cutoff == maxDepth && ifd.s.queued == 0
  {
    ifd := new RmIfdat(maxPrio, maxDepth, maxqueued, maxpkt, wrr, efficient, nsPerByte, maxiftime);
    var root := NewClass(ifd, 0, -1, -1, false, nsPerByte, maxq, maxidle, minidle, offtime, gain);
  }

  // ---------------------------------------------------------------- deleting a class

  function ChildRemoved(children: seq<seq<nat>>, parent: int, k: nat): seq<seq<nat>>
    requires -1 <= parent < |children| && (parent != -1 ==> k < |children[parent]|)
  {
    if parent == -1 then children else children[parent := Without(children[parent], k)]
  }

  lemma LeaveTree(conf: seq<Conf>, live: seq<bool>, children: seq<seq<nat>>, cl: nat, k: nat)
    requires Tree(conf, live, children) && cl < |conf| && live[cl] && children[cl] == [] && Linked(conf, cl)
    requires conf[cl].parent != -1 ==> k < |children[conf[cl].parent]| && children[conf[cl].parent][k] == cl
    ensures Tree(conf, live[cl := false], ChildRemoved(children, conf[cl].parent, k))
  {
    var p := conf[cl].parent;
    var live', children' := live[cl := false], ChildRemoved(children, p, k);
    assert TreeAt(conf, live, children, cl);
    if p != -1 {
      assert Linked(conf, p) && TreeAt(conf, live, children, p);
      LeftMembers(children[p], k, cl);
    }
    forall c | 0 <= c < |conf| && live'[c] && Linked(conf, c) ensures TreeAt(conf, live', children', c) {
      assert TreeAt(conf, live, children, c);
    }
  }

  /** Deleting a class does not change the depth of anyone but its parent. */
  lemma LeaveDepths(conf: seq<Conf>, live: seq<bool>, children: seq<seq<nat>>, depth: seq<nat>, cl: nat, k: nat)
    requires Tree(conf, live, children) && DepthsExact(live, children, depth, -1) && cl < |conf| && Linked(conf, cl)
    requires conf[cl].parent != -1 ==> k < |children[conf[cl].parent]|
    ensures DepthsExact(live[cl := false], ChildRemoved(children, conf[cl].parent, k), depth, conf[cl].parent)
  {
    forall c | 0 <= c < |conf| && live[c] && c != conf[cl].parent
      ensures DepthOk(ChildRemoved(children, conf[cl].parent, k), depth, c)
    {
      assert DepthOk(children, depth, c);
    }
  }

  /** The tree without a childless class, and the depths above it. */
  method UprootClass(c: Classes, cl: nat) returns (children: seq<seq<nat>>, depth: seq<nat>)
    requires Tree(c.conf, c.live, c.children) && DepthsExact(c.live, c.children, c.depth, -1)
    requires cl < |c.conf| && c.live[cl] && c.children[cl] == []
    ensures Tree(c.conf, c.live[cl := false], children) && DepthsExact(c.live[cl := false], children, depth, -1)
    ensures forall x :: 0 <= x < |children| && x != c.conf[cl].parent ==> children[x] == c.children[x]
  {
    var p, k := c.conf[cl].parent, 0;
    assert Linked(c.conf, cl) && TreeAt(c.conf, c.live, c.children, cl);
    children := c.children;
    if p != -1 {
      ghost var place := ChildPlace(c.conf, c.live, c.children, cl);
      while children[p][k] != cl
        invariant k <= place < |children[p]| && children[p][place] == cl
        decreases |children[p]| - k
      {
        k := k + 1;
      }
      children := children[p := Without(children[p], k)];
    }
    LeaveTree(c.conf, c.live, c.children, cl, k);
    LeaveDepths(c.conf, c.live, c.children, c.depth, cl, k);
    depth := DepthRecompute(c.conf, c.live[cl := false], children, c.depth, p);
  }

  /** The rings without one class. */
  method RingOut(c: Classes, active0: seq<int>, ghost rings: seq<seq<nat>>, cl: nat, ghost k: nat)
    returns (peer: seq<nat>, active: seq<int>)
    requires AllRings(rings, c.conf, c.live, c.peer, active0) && |c.conf| == |c.live| == |c.peer| && cl < |c.conf|
    requires c.conf[cl].pri < |rings| && k < |rings[c.conf[cl].pri]| && rings[c.conf[cl].pri][k] == cl
    ensures AllRings(rings[c.conf[cl].pri := Without(rings[c.conf[cl].pri], k)], c.conf, c.live[cl := false], peer,
                     active)
    ensures |peer| == |c.peer|
  {
    var i := c.conf[cl].pri;
    ghost var r := rings[i];
    assert RingOk(r, i, c.conf, c.live, c.peer, active0[i]);
    assert c.peer[r[0]] == r[Succ(0, |r|)];
    LeaveRings(rings, c.conf, c.live, c.peer, active0, cl, k);
    peer, active := c.peer, active0;
    if active[i] != peer[active[i]] {
      var p := PeerBefore(peer, active[i], cl, r, k);
      peer := peer[p := peer[cl]];
      if active[i] == cl {
        active := active[i := peer[cl]];
      }
    } else {
      active := active[i := -1];
    }
    AloneInRing(r, c.peer, active0[i], k);
    assert active == active0[i := NewActive(r, k, c.peer, active0[i])];
  }

  /** A class that is its own peer is alone on its ring. */
  lemma AloneInRing(r: seq<nat>, peer: seq<nat>, active: int, k: nat)
    requires Cycle(r, peer, active) && k < |r|
    ensures peer[active] == active <==> |r| == 1
    ensures |r| == 1 ==> peer[Preceding(r, k) := peer[r[k]]] == peer
    ensures |r| > 1 ==> r[k] != Preceding(r, k)
  {
    assert peer[r[0]] == r[Succ(0, |r|)];
    assert peer[r[k]] == r[Succ(k, |r|)];
  }

  lemma LeaveCounts(rings: seq<seq<nat>>, allotment: seq<nat>, num: seq<int>, alloc: seq<int>, i: nat, k: nat)
    requires i < |rings| == |num| == |alloc| && k < |rings[i]| && rings[i][k] < |allotment|
    requires forall j :: 0 <= j < |rings| ==> Counted(rings[j], allotment, num[j], alloc[j])
    ensures forall j {:trigger rings[i := Without(rings[i], k)][j]} :: 0 <= j < |rings| ==>
      Counted(rings[i := Without(rings[i], k)][j], allotment, num[i := num[i] - 1][j],
              alloc[i := alloc[i] - allotment[rings[i][k]]][j])
  {
    assert Counted(rings[i], allotment, num[i], alloc[i]);
    SumWithout(rings[i], allotment, k);
    forall j | 0 <= j < |rings| && j != i ensures Counted(rings[j], allotment, num[j], alloc[j]) {
    }
  }

  /** Counts, sums and weights without the class at position k of a ring. */
  method WeighOut(p: Levels, ghost rings: seq<seq<nat>>, ghost conf: seq<Conf>, ghost live: seq<bool>, peer: seq<nat>,
                  active: seq<int>, allotment: seq<nat>, w0: seq<nat>, i: nat, cl: nat, ghost k: nat, maxpkt: nat)
    returns (num: seq<int>, alloc: seq<int>, weight: seq<nat>, w: seq<nat>)
    requires maxpkt > 0 && AllWeights(rings, p.num, p.alloc, p.weight, allotment, w0, maxpkt) && i < |rings|
    requires k < |rings[i]| && rings[i][k] == cl && cl < |allotment|
    requires AllRings(rings[i := Without(rings[i], k)], conf, live, peer, active) && |conf| == |allotment|
    ensures AllWeights(rings[i := Without(rings[i], k)], num, alloc, weight, allotment, w, maxpkt)
  {
    LeaveCounts(rings, allotment, p.num, p.alloc, i, k);
    num, alloc := p.num[i := p.num[i] - 1], p.alloc[i := p.alloc[i] - allotment[cl]];
    weight, w := SetWeights(rings[i := Without(rings[i], k)], conf, live, peer, active, num, alloc, allotment, w0,
                            maxpkt);
  }

  /** rmc_dropall and then forgetting the class: the backlog counts stay exact. */
  lemma LeaveBacklogs(conf: seq<Conf>, live: seq<bool>, q: seq<seq<Packet>>, na: seq<int>, cl: nat)
    requires AllBacklogs(conf, live, q, na) && cl < |conf| && q[cl] == []
    ensures AllBacklogs(conf, live[cl := false], q, na)
  {
    forall i | 0 <= i < |na| ensures na[i] == |Backlogged(conf, live[cl := false], q, i)| {
      assert Backlogged(conf, live[cl := false], q, i) == Backlogged(conf, live, q, i);
    }
  }

  lemma EmptyIsFair(conf: seq<Conf>, q: seq<seq<Packet>>, c: nat)
    requires AllFair(conf, q) && c < |q|
    ensures AllFair(conf, q[c := []])
  {
    forall x | 0 <= x < |conf| && conf[x].red ensures HF.Fair(HF.Hashes(q[c := []][x])) {
      if x != c {
        assert HF.Fair(HF.Hashes(q[x]));
      }
    }
  }

  /** rmc_dropall */
  method DropAll(ifd: RmIfdat, cl: nat)
    requires ifd.Inv() && cl < |ifd.c.conf| && ifd.c.live[cl]
    modifies ifd`b
    ensures ifd.Inv() && ifd.b.q == old(ifd.b.q)[cl := []]
    ensures ifd.b.na == old(ifd.b.na)[ifd.c.conf[cl].pri := ifd.b.na[ifd.c.conf[cl].pri]]
  {
    var b, i := ifd.b, ifd.c.conf[cl].pri;
    BacklogUpdate(ifd.c.conf, ifd.c.live, b.q, b.na, cl, []);
    EmptyIsFair(ifd.c.conf, b.q, cl);
    if b.q[cl] != [] {
      ifd.b := Backlog(b.q[cl := []], b.na[i := b.na[i] - 1]);
    }
  }

  /**
    rmc_delete_class, for a class without children.  A poll cache that names the class is left dangling, so the
    cache is good afterwards only if it names another class.
   */
  method DeleteClass(ifd: RmIfdat, cl: nat) returns (ghost k: nat)
    requires ifd.Inv() && ifd.Accounts() && cl < |ifd.c.conf| && ifd.c.live[cl] && ifd.c.children[cl] == []
    modifies ifd`c, ifd`b, ifd`p, ifd`g
    ensures ifd.Inv() && ifd.Accounts()
    ensures ifd.c == old(ifd.c).(live := old(ifd.c.live)[cl := false], peer := ifd.c.peer, children := ifd.c.children,
                                 depth := ifd.c.depth, wAllotment := ifd.c.wAllotment)
    ensures ifd.b.q == old(ifd.b.q)[cl := []]
    ensures var i := ifd.c.conf[cl].pri;
      && i < |old(ifd.g.rings)| && k < |old(ifd.g.rings)[i]| && old(ifd.g.rings)[i][k] == cl
      && ifd.g.rings == old(ifd.g.rings)[i := Without(old(ifd.g.rings)[i], k)]
    ensures !ifd.wrr ==> ifd.p == old(ifd.p).(active := ifd.p.active)
    ensures old(ifd.Polled()) && ifd.pollcache != cl ==> ifd.Polled()
  {
    DropAll(ifd, cl);
    var c, p := ifd.c, ifd.p;
    ghost var rings := ifd.g.rings;
    k := RingPlace(ifd, cl);
    var i := c.conf[cl].pri;
    LeaveBacklogs(c.conf, c.live, ifd.b.q, ifd.b.na, cl);
    var children, depth := UprootClass(c, cl);
    var peer, active := RingOut(c, p.active, rings, cl, k);
    var num, alloc, weight, w := p.num, p.alloc, p.weight, c.wAllotment;
    if ifd.wrr {
      num, alloc, weight, w := WeighOut(p, rings, c.conf, c.live[cl := false], peer, active, c.allotment, w, i, cl, k,
                                        ifd.maxpkt);
    }
    ifd.c := c.(live := c.live[cl := false], peer := peer, children := children, depth := depth, wAllotment := w);
    ifd.p := Levels(active, num, alloc, weight);
    ifd.g := Order(rings[i := Without(rings[i], k)]);
  }

  // ---------------------------------------------------------------- changing a class

  lemma ChangedCounts(rings: seq<seq<nat>>, conf: seq<Conf>, live: seq<bool>, peer: seq<nat>, active: seq<int>,
                      allotment: seq<nat>, num: seq<int>, alloc: seq<int>, i: nat, k: nat, a: nat)
    requires AllRings(rings, conf, live, peer, active) && |conf| == |allotment| && |num| == |alloc| == |rings|
    requires i < |rings| && k < |rings[i]| && rings[i][k] < |allotment|
    requires forall j :: 0 <= j < |rings| ==> Counted(rings[j], allotment, num[j], alloc[j])
    ensures var cl := rings[i][k]; forall j {:trigger rings[j]} :: 0 <= j < |rings| ==>
      Counted(rings[j], allotment[cl := a], num[j], alloc[i := alloc[i] + a - allotment[cl]][j])
  {
    var cl := rings[i][k];
    assert RingOk(rings[i], i, conf, live, peer, active[i]) && Counted(rings[i], allotment, num[i], alloc[i]);
    SumChanged(rings[i], allotment, k, a);
    forall j | 0 <= j < |rings| && j != i ensures Counted(rings[j], allotment[cl := a], num[j], alloc[j]) {
      assert Counted(rings[j], allotment, num[j], alloc[j]);
      forall y | 0 <= y < |rings[j]| ensures rings[j][y] != cl {
        OtherRing(rings, conf, live, peer, active, i, j, y);
      }
      SameSum(rings[j], allotment, allotment[cl := a]);
    }
  }

  /** rmc_modclass: new speed, queue limit and estimator limits. */
  method ModClass(ifd: RmIfdat, cl: nat, nsPerByte: nat, maxq: nat, maxidle: nat, minidle: int, offtime: nat, gain: nat)
    requires ifd.Inv() && ifd.Accounts() && cl < |ifd.c.conf| && ifd.c.live[cl] && nsPerByte > 0 && gain > 0
    modifies ifd`c, ifd`p, ifd`t
    ensures ifd.Inv() && ifd.Accounts() && (old(ifd.Tempered()) ==> ifd.Tempered())
    ensures ifd.c == old(ifd.c).(allotment := old(ifd.c.allotment)[cl := NS_PER_SEC / nsPerByte],
                                 qlimit := old(ifd.c.qlimit)[cl := maxq],
                                 est := old(ifd.c.est)[cl := Rescaled(maxidle, minidle, offtime, nsPerByte, gain)],
                                 wAllotment := ifd.c.wAllotment)
    ensures ifd.t == old(ifd.t).(timing := old(ifd.t.timing)[cl := 
      old(ifd.t.timing)[cl].(avgidle := Rescaled(maxidle, minidle, offtime, nsPerByte, gain).maxidle)])
    ensures ifd.p == old(ifd.p).(alloc := ifd.p.alloc, weight := ifd.p.weight) && (!ifd.wrr ==> ifd.p == old(ifd.p))
  {
    var c, p, t, a := ifd.c, ifd.p, ifd.t, NS_PER_SEC / nsPerByte;
    var e := Rescaled(maxidle, minidle, offtime, nsPerByte, gain);
    ghost var rings := ifd.g.rings;
    ghost var k := RingPlace(ifd, cl);
    var i := c.conf[cl].pri;
    var alloc, weight, w := p.alloc, p.weight, c.wAllotment;
    if ifd.wrr {
      ChangedCounts(rings, c.conf, c.live, c.peer, p.active, c.allotment, p.num, alloc, i, k, a);
      alloc := alloc[i := alloc[i] + a - c.allotment[cl]];
      weight, w := SetWeights(rings, c.conf, c.live, c.peer, p.active, p.num, alloc, c.allotment[cl := a], w,
                              ifd.maxpkt);
    }
    ifd.c := c.(allotment := c.allotment[cl := a], qlimit := c.qlimit[cl := maxq], est := c.est[cl := e],
                wAllotment := w);
    ifd.p := p.(alloc := alloc, weight := weight);
    ifd.t := t.(timing := t.timing[cl := t.timing[cl].(avgidle := e.maxidle)]);
  }
}
