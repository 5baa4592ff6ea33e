/**
  rmc_wrr_set_weights, and what its two roundings leave of the shares.
 */
module CbqWeights {
  import opened CbqState

  /** Weights of a ring do not depend on other classes' columns. */
  lemma {:induction false} SameSum(r: seq<nat>, col: seq<nat>, col': seq<nat>)
    requires Within(r, |col|) && |col'| >= |col| && forall k :: 0 <= k < |r| ==> col'[r[k]] == col[r[k]]
    ensures Sum(r, col') == Sum(r, col)
  {
    if r != [] {
      SameSum(r[..|r| - 1], col, col');
    }
  }

  /** The weights of one ring: a walk around it. */
  method RingWeights(ghost r: seq<nat>, peer: seq<nat>, active: int, allotment: seq<nat>, w0: seq<nat>, m: nat)
    returns (w: seq<nat>)
    requires Cycle(r, peer, active) && |peer| == |allotment| == |w0| && -1 <= active
    ensures |w| == |w0|
    ensures forall k :: 0 <= k < |r| ==> w[r[k]] == if m == 0 then 0 else Quot(allotment[r[k]], m)
    ensures forall c :: 0 <= c < |w0| && c !in r ==> w[c] == w0[c]
  {
    w := w0;
    if active != -1 {
      var cl: nat := active;
      ghost var k := 0;
      var more := true;
      while more
        invariant |w| == |w0| && k <= |r| && (if more then k < |r| && cl == r[k] else k == |r|)
        invariant forall j :: 0 <= j < k ==> w[r[j]] == if m == 0 then 0 else Quot(allotment[r[j]], m)
        invariant forall c :: 0 <= c < |w0| && c !in r ==> w[c] == w0[c]
        decreases |r| - k, more
      {
        w := w[cl := if m == 0 then 0 else Quot(allotment[cl], m)];
        assert peer[r[k]] == r[Succ(k, |r|)];
        k := k + 1;
        cl := peer[cl];
        more := cl != active;
      }
    }
  }

  /** rmc_wrr_set_weights */
  method SetWeights(ghost rings: seq<seq<nat>>, ghost conf: seq<Conf>, ghost live: seq<bool>, peer: seq<nat>,
                    active: seq<int>, num: seq<int>, alloc: seq<int>, allotment: seq<nat>, w0: seq<nat>, maxpkt: nat)
    returns (weight: seq<nat>, w: seq<nat>)
    requires AllRings(rings, conf, live, peer, active) && |conf| == |allotment| == |w0| && maxpkt > 0
    requires |num| == |alloc| == |rings|
    requires forall i :: 0 <= i < |rings| ==> Counted(rings[i], allotment, num[i], alloc[i])
    ensures AllWeights(rings, num, alloc, weight, allotment, w, maxpkt)
  {
    weight, w := [], w0;
    while |weight| < |num|
      invariant |weight| <= |num| && |w| == |w0|
      invariant forall i :: 0 <= i < |weight| ==> Weighed(rings[i], allotment, w, weight[i], maxpkt)
    {
      ghost var i, before, done := |weight|, w, weight;
      assert RingOk(rings[i], i, conf, live, peer, active[i]);
      assert Counted(rings[i], allotment, num[i], alloc[i]);
      var m := if num[|weight|] == 0 then 0 else Quot(alloc[|weight|], num[|weight|] * maxpkt);
      assert active[i] >= -1;
      w := RingWeights(rings[i], peer, active[|weight|], allotment, w, m);
      weight := weight + [m];
      forall j | 0 <= j < i ensures Weighed(rings[j], allotment, w, weight[j], maxpkt) {
        assert RingOk(rings[j], j, conf, live, peer, active[j]);
        assert Weighed(rings[j], allotment, before, done[j], maxpkt);
        forall k | 0 <= k < |rings[j]| ensures w[rings[j][k]] == before[rings[j][k]] {
          OtherRing(rings, conf, live, peer, active, i, j, k);
        }
      }
      assert Weighed(rings[i], allotment, w, m, maxpkt);
    }
  }

  /** Rings of different priorities share no class. */
  lemma OtherRing(rings: seq<seq<nat>>, conf: seq<Conf>, live: seq<bool>, peer: seq<nat>, active: seq<int>,
                  i: nat, j: nat, k: nat)
    requires AllRings(rings, conf, live, peer, active) && i < |rings| && j < |rings| && i != j && k < |rings[j]|
    ensures rings[j][k] < |conf| && rings[j][k] !in rings[i]
  {
    assert RingOk(rings[i], i, conf, live, peer, active[i]) && RingOk(rings[j], j, conf, live, peer, active[j]);
  }

  // ---------------------------------------------------------------- the shares

  lemma QuotBounds(a: nat, n: nat, m: nat)
    requires n > 0 && m > 0
    ensures Quot(a, n * m) * n * m <= a < Quot(a, n * m) * n * m + n * m
  {
    assert Quot(a, n * m) * (n * m) == Quot(a, n * m) * n * m;
    assert n * m != 0;
  }

  /** Each rounding down of a share loses less than one part. */
  lemma {:induction false} SharesLose(r: seq<nat>, allotment: seq<nat>, w: seq<nat>, m: nat)
    requires Within(r, |allotment|) && |w| == |allotment| && m > 0
    requires forall k :: 0 <= k < |r| ==> w[r[k]] == Quot(allotment[r[k]], m)
    ensures Sum(r, w) * m <= Sum(r, allotment)
    ensures r != [] ==> Sum(r, allotment) < Sum(r, w) * m + |r| * m
  {
    if r != [] {
      var t := r[..|r| - 1];
      SharesLose(t, allotment, w, m);
      var x := r[|r| - 1];
      ShareStep(Sum(t, allotment), Sum(t, w), allotment[x], w[x], |t|, m);
    }
  }

  lemma ShareStep(a: nat, s: nat, b: nat, w: nat, n: nat, m: nat)
    requires s * m <= a && (n == 0 ==> a == 0 && s == 0) && (n > 0 ==> a < s * m + n * m) && w * m <= b < w * m + m
    ensures (s + w) * m <= a + b < (s + w) * m + (n + 1) * m
  {
    assert (s + w) * m == s * m + w * m;
    assert (n + 1) * m == n * m + m;
  }

  /**
    Whenever a priority's weight is positive, the weighted allotments of its classes add up to at least one
    largest packet each, up to rounding, and to less than two.
   */
  lemma WeightBounds(r: seq<nat>, allotment: seq<nat>, w: seq<nat>, weight: nat, maxpkt: nat)
    requires |allotment| == |w| && maxpkt > 0 && Weighed(r, allotment, w, weight, maxpkt) && weight > 0
    ensures r != []
    ensures |r| * (maxpkt - 1) < Sum(r, w) < 2 * |r| * maxpkt
  {
    var a, n := Sum(r, allotment), |r|;
    QuotBounds(a, n, maxpkt);
    SharesLose(r, allotment, w, weight);
    LowerShare(a, n, maxpkt, weight, Sum(r, w));
    UpperShare(a, n, maxpkt, weight, Sum(r, w));
  }

  lemma LowerShare(a: nat, n: nat, maxpkt: nat, weight: nat, s: nat)
    requires n > 0 && maxpkt > 0 && weight > 0
    requires weight * n * maxpkt <= a && a < s * weight + n * weight
    ensures n * (maxpkt - 1) < s
  {
    assert weight * n * maxpkt == n * maxpkt * weight;
    assert s * weight + n * weight == (s + n) * weight;
    Cancel(n * maxpkt, s + n, weight);
    assert n * (maxpkt - 1) == n * maxpkt - n;
  }

  lemma UpperShare(a: nat, n: nat, maxpkt: nat, weight: nat, s: nat)
    requires n > 0 && maxpkt > 0 && weight > 0
    requires a < weight * n * maxpkt + n * maxpkt && s * weight <= a
    ensures s < 2 * n * maxpkt
  {
    var x := n * maxpkt;
    assert weight * n * maxpkt == x * weight;
    assert x * weight >= x;
    assert 2 * x * weight == x * weight + x * weight;
    Cancel(s, 2 * x, weight);
    assert 2 * n * maxpkt == 2 * x;
  }

  lemma Times(x: nat, y: nat, z: nat)
    requires x <= y
    ensures x * z <= y * z
  {
    assert y * z == x * z + (y - x) * z;
  }

  lemma Cancel(x: nat, y: nat, z: nat)
    requires x * z < y * z
    ensures x < y
  {
    if x >= y {
      Times(y, x, z);
    }
  }
}
