/**
  The class tree: the depths, which both repairs keep exact although they stop early.
 */
module CbqTree {
  import opened CbqState

  /** Depths of classes other than the children do not matter. */
  lemma {:induction false} SameMax(s: seq<nat>, d: seq<nat>, d': seq<nat>)
    requires Within(s, |d|) && |d'| >= |d| && forall k :: 0 <= k < |s| ==> d'[s[k]] == d[s[k]]
    ensures MaxDepth(s, d') == MaxDepth(s, d)
  {
    if s != [] {
      SameMax(s[..|s| - 1], d, d');
    }
  }

  /** A value that every element reaches at most and one does is the maximum. */
  lemma MaxIs(s: seq<nat>, depth: seq<nat>, m: nat, k: nat)
    requires Within(s, |depth|) && k < |s| && depth[s[k]] == m
    requires forall j :: 0 <= j < |s| ==> depth[s[j]] <= m
    ensures MaxDepth(s, depth) == m
  {
  }

  /** The parent of t may lag behind t, but not behind any other child. */
  ghost predicate Lagging(conf: seq<Conf>, children: seq<seq<nat>>, depth: seq<nat>, t: nat)
    requires t < |conf| == |children| == |depth| && Linked(conf, t)
  {
    var p := conf[t].parent;
    p != -1 ==>
      && Within(children[p], |depth|)
      && (forall j :: 0 <= j < |children[p]| && children[p][j] != t ==> depth[children[p][j]] < depth[p])
      && (depth[t] >= depth[p] || DepthOk(children, depth, p))
  }

  /** A child's place among its parent's children. */
  lemma ChildPlace(conf: seq<Conf>, live: seq<bool>, children: seq<seq<nat>>, t: nat) returns (k: nat)
    requires Tree(conf, live, children) && t < |conf| && live[t] && conf[t].parent != -1
    ensures Linked(conf, t) && live[conf[t].parent]
    ensures k < |children[conf[t].parent]| && children[conf[t].parent][k] == t
  {
    assert Linked(conf, t) && TreeAt(conf, live, children, t);
    k :| 0 <= k < |children[conf[t].parent]| && children[conf[t].parent][k] == t;
  }

  /** All of a class's children name it as their parent. */
  lemma ChildrenOf(conf: seq<Conf>, live: seq<bool>, children: seq<seq<nat>>, p: nat)
    requires Tree(conf, live, children) && p < |conf| && live[p]
    ensures Within(children[p], |conf|)
    ensures forall j :: 0 <= j < |children[p]| ==>
      var c := children[p][j]; live[c] && conf[c].parent == p && c > p
  {
    assert Linked(conf, p) && TreeAt(conf, live, children, p);
    forall j | 0 <= j < |children[p]|
      ensures children[p][j] < |conf| && live[children[p][j]] && conf[children[p][j]].parent == p < children[p][j]
    {
      assert children[p][j] in children[p];
      assert Linked(conf, children[p][j]);
    }
  }

  /** Changing one depth leaves exact every class that is not its parent. */
  lemma OtherDepths(conf: seq<Conf>, live: seq<bool>, children: seq<seq<nat>>, depth: seq<nat>, p: nat, d: nat, x: nat)
    requires Tree(conf, live, children) && |depth| == |conf| && p < |conf| && x < |conf| && live[x] && x != p
    requires conf[p].parent != x && DepthOk(children, depth, x)
    ensures DepthOk(children, depth[p := d], x)
  {
    ChildrenOf(conf, live, children, x);
    assert forall j :: 0 <= j < |children[x]| ==> children[x][j] != p;
    SameMax(children[x], depth, depth[p := d]);
  }

  /** One step up: the parent catches up with t, and now its own parent may lag. */
  lemma CatchUp(conf: seq<Conf>, live: seq<bool>, children: seq<seq<nat>>, depth: seq<nat>, t: nat)
    requires Tree(conf, live, children) && t < |conf| && live[t] && Linked(conf, t) && |depth| == |conf|
    requires conf[t].parent != -1 && depth[t] >= depth[conf[t].parent] && Lagging(conf, children, depth, t)
    requires DepthsExact(live, children, depth, conf[t].parent)
    ensures var p := conf[t].parent; var d := depth[p := depth[t] + 1];
            && live[p] && Linked(conf, p) && Lagging(conf, children, d, p)
            && DepthsExact(live, children, d, conf[p].parent)
  {
    var p := conf[t].parent;
    var d := depth[p := depth[t] + 1];
    var k := ChildPlace(conf, live, children, t);
    ChildrenOf(conf, live, children, p);
    MaxIs(children[p], d, depth[t], k);
    assert DepthOk(children, d, p) && Linked(conf, p);
    forall x | 0 <= x < |conf| && live[x] && x != conf[p].parent ensures DepthOk(children, d, x) {
      if x != p {
        OtherDepths(conf, live, children, depth, p, depth[t] + 1, x);
      }
    }
    if conf[p].parent != -1 {
      StillLagging(conf, live, children, depth, p, depth[t] + 1);
    }
  }

  lemma StillLagging(conf: seq<Conf>, live: seq<bool>, children: seq<seq<nat>>, depth: seq<nat>, p: nat, d: nat)
    requires Tree(conf, live, children) && p < |conf| && live[p] && Linked(conf, p) && |depth| == |conf|
    requires conf[p].parent != -1 && d > depth[p] && DepthsExact(live, children, depth, p)
    ensures Lagging(conf, children, depth[p := d], p)
  {
    var g := conf[p].parent;
    var k := ChildPlace(conf, live, children, p);
    ChildrenOf(conf, live, children, g);
    assert DepthOk(children, depth, g);
    if d < depth[g] {
      var m := MaxDepth(children[g], depth);
      var j :| 0 <= j < |children[g]| && depth[children[g][j]] == m;
      assert children[g][j] != p;
      MaxIs(children[g], depth[p := d], m, j);
    }
  }

  /** rmc_depth_compute: after cl was linked in, the depths up its branch catch up. */
  method DepthCompute(conf: seq<Conf>, ghost live: seq<bool>, ghost children: seq<seq<nat>>, depth0: seq<nat>, cl: nat)
    returns (depth: seq<nat>)
    requires Tree(conf, live, children) && cl < |conf| == |depth0| && live[cl] && Linked(conf, cl)
    requires DepthsExact(live, children, depth0, conf[cl].parent) && Lagging(conf, children, depth0, cl)
    ensures DepthsExact(live, children, depth, -1)
  {
    depth := depth0;
    var t: int := cl;
    while t != -1
      invariant -1 <= t < |conf| == |depth|
      invariant t != -1 ==> live[t] && Linked(conf, t) && Lagging(conf, children, depth, t)
      invariant DepthsExact(live, children, depth, if t == -1 then -1 else conf[t].parent)
    {
      var p := conf[t].parent;
      if p != -1 && depth[t] >= depth[p] {
        CatchUp(conf, live, children, depth, t);
        depth := depth[p := depth[t] + 1];
        t := p;
      } else {
        t := -1;
      }
    }
  }

  /** rmc_depth_recompute: after a child of cl was unlinked, the depths above shrink, until one does not change. */
  method DepthRecompute(conf: seq<Conf>, ghost live: seq<bool>, children: seq<seq<nat>>, depth0: seq<nat>, cl: int)
    returns (depth: seq<nat>)
    requires Tree(conf, live, children) && -1 <= cl < |conf| == |depth0| && (cl != -1 ==> live[cl])
    requires DepthsExact(live, children, depth0, cl)
    ensures DepthsExact(live, children, depth, -1)
  {
    depth := depth0;
    var p := cl;
    while p != -1
      invariant -1 <= p < |conf| == |depth| && (p != -1 ==> live[p])
      invariant DepthsExact(live, children, depth, p)
      decreases p
    {
      ChildrenOf(conf, live, children, p);
      ghost var before := depth;
      if children[p] == [] {
        depth := depth[p := 0];
      } else {
        var cdepth, j := 0, 0;
        while j < |children[p]|
          invariant j <= |children[p]| && cdepth == MaxDepth(children[p][..j], depth)
        {
          assert children[p][..j + 1][..j] == children[p][..j];
          if depth[children[p][j]] > cdepth {
            cdepth := depth[children[p][j]];
          }
          j := j + 1;
        }
        assert children[p][..j] == children[p];
        if depth[p] == cdepth + 1 {
          return;
        }
        depth := depth[p := cdepth + 1];
      }
      Recomputed(conf, live, children, before, p, depth[p]);
      p := conf[p].parent;
    }
  }

  lemma Recomputed(conf: seq<Conf>, live: seq<bool>, children: seq<seq<nat>>, depth: seq<nat>, p: nat, d: nat)
    requires Tree(conf, live, children) && p < |conf| == |depth| && live[p] && DepthsExact(live, children, depth, p)
    requires Within(children[p], |depth|) && d == if children[p] == [] then 0 else 1 + MaxDepth(children[p], depth)
    ensures Linked(conf, p) && (conf[p].parent != -1 ==> live[conf[p].parent])
    ensures DepthsExact(live, children, depth[p := d], conf[p].parent)
  {
    ChildrenOf(conf, live, children, p);
    assert Linked(conf, p) && TreeAt(conf, live, children, p);
    SameMax(children[p], depth, depth[p := d]);
    forall x | 0 <= x < |conf| && live[x] && x != conf[p].parent ensures DepthOk(children, depth[p := d], x) {
      if x != p {
        OtherDepths(conf, live, children, depth, p, d, x);
      }
    }
  }

  // ---------------------------------------------------------------- what depths are for

  /** Up a branch everybody is live, and the depth grows. */
  lemma {:induction false} BranchDeepens(conf: seq<Conf>, live: seq<bool>, children: seq<seq<nat>>, depth: seq<nat>,
                                         c: nat, b: nat)
    requires Tree(conf, live, children) && DepthsExact(live, children, depth, -1) && OnBranch(conf, c, b) && live[c]
    ensures b < |conf| && live[b] && depth[c] <= depth[b]
  {
    if b != c {
      var k := ChildPlace(conf, live, children, c);
      assert DepthOk(children, depth, conf[c].parent);
      BranchDeepens(conf, live, children, depth, conf[c].parent, b);
    }
  }

  /** A live class borrows from a live, deeper one. */
  lemma LenderDeeper(conf: seq<Conf>, live: seq<bool>, children: seq<seq<nat>>, depth: seq<nat>, c: nat)
    requires Tree(conf, live, children) && DepthsExact(live, children, depth, -1)
    requires c < |conf| && live[c] && conf[c].borrow != -1
    ensures Linked(conf, c) && conf[c].parent != -1 && live[conf[c].borrow] && depth[c] < depth[conf[c].borrow]
  {
    assert Linked(conf, c) && Loan(conf, c);
    var k := ChildPlace(conf, live, children, c);
    assert DepthOk(children, depth, conf[c].parent);
    BranchDeepens(conf, live, children, depth, conf[c].parent, conf[c].borrow);
  }

  /** Every class has the root above it if the root is the only class without a parent. */
  ghost predicate SingleRoot(conf: seq<Conf>, live: seq<bool>) {
    && |conf| == |live| && |conf| > 0 && live[0]
    && forall c :: 0 <= c < |conf| && live[c] && conf[c].parent == -1 ==> c == 0
  }

  /** No class is deeper than the root. */
  lemma {:induction false} RootIsDeepest(conf: seq<Conf>, live: seq<bool>, children: seq<seq<nat>>, depth: seq<nat>,
                                         c: nat)
    requires Tree(conf, live, children) && DepthsExact(live, children, depth, -1) && SingleRoot(conf, live)
    requires c < |conf| && live[c]
    ensures depth[c] <= depth[0] && (c != 0 ==> depth[c] < depth[0])
  {
    if c != 0 {
      var k := ChildPlace(conf, live, children, c);
      assert DepthOk(children, depth, conf[c].parent);
      RootIsDeepest(conf, live, children, depth, conf[c].parent);
    }
  }

  /** At a cutoff as deep as the root, no borrow chain of a live class is cut. */
  lemma {:induction false} NothingCut(v: View, live: seq<bool>, children: seq<seq<nat>>, cutoff: nat, c: nat)
    requires Tree(v.conf, live, children) && DepthsExact(live, children, v.depth, -1) && SingleRoot(v.conf, live)
    requires c < |v.conf| && live[c] && cutoff >= v.depth[0]
    ensures !ChainCut(v, cutoff, c)
  {
    assert Linked(v.conf, c);
    var b := v.conf[c].borrow;
    if b != -1 {
      LenderDeeper(v.conf, live, children, v.depth, c);
      RootIsDeepest(v.conf, live, children, v.depth, b);
      NothingCut(v, live, children, cutoff, b);
    }
  }
}
