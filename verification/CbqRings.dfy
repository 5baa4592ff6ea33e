/**
  Joining and leaving a peer ring, and what that does to the sums over it.
 */
module CbqRings {
  import opened Wrappers
  import opened CbqState
  import W = CbqWeights

  /** A live class has a place on its ring. */
  lemma RingPlace(ifd: RmIfdat, cl: nat) returns (k: nat)
    requires ifd.Rings() && cl < |ifd.c.conf| == |ifd.c.live| && ifd.c.live[cl]
    ensures ifd.c.conf[cl].pri < ifd.maxPrio && k < |ifd.g.rings[ifd.c.conf[cl].pri]|
    ensures ifd.g.rings[ifd.c.conf[cl].pri][k] == cl
  {
    var i := ifd.c.conf[cl].pri;
    assert RingOk(ifd.g.rings[i], i, ifd.c.conf, ifd.c.live, ifd.c.peer, ifd.p.active[i]);
    assert cl in ifd.g.rings[i];
    k :| 0 <= k < |ifd.g.rings[i]| && ifd.g.rings[i][k] == cl;
  }

  // ---------------------------------------------------------------- joining

  /** The walk to the last class of a ring. */
  method LastPeer(peer: seq<nat>, first: nat, ghost r: seq<nat>) returns (last: nat)
    requires Cycle(r, peer, first)
    ensures r != [] && last == r[|r| - 1]
  {
    last := first;
    ghost var k := 0;
    assert peer[r[0]] == r[Succ(0, |r|)];
    while peer[last] != first
      invariant k < |r| && last == r[k] && peer[r[k]] == r[Succ(k, |r|)]
      decreases |r| - k
    {
      last := peer[last];
      k := k + 1;
      assert peer[r[k]] == r[Succ(k, |r|)];
    }
  }

  /** The peer pointers after a class numbered |peer| was appended to the ring r. */
  function Joined(r: seq<nat>, peer: seq<nat>): seq<nat>
    requires Within(r, |peer|)
  {
    if r == [] then peer + [|peer|] else (peer + [r[0]])[r[|r| - 1] := |peer|]
  }

  lemma JoinCycle(r: seq<nat>, peer: seq<nat>, active: int)
    requires Cycle(r, peer, active)
    ensures Cycle(r + [|peer|], Joined(r, peer), if r == [] then |peer| else active)
  {
    var n, r', peer' := |peer|, r + [|peer|], Joined(r, peer);
    forall k | 0 <= k < |r'| ensures peer'[r'[k]] == r'[Succ(k, |r'|)] {
      if k < |r| - 1 {
        assert peer[r[k]] == r[Succ(k, |r|)] && r[k] != r[|r| - 1];
      }
    }
  }

  /** Pointers outside the ring do not matter. */
  lemma SameCycle(r: seq<nat>, peer: seq<nat>, peer': seq<nat>, active: int)
    requires Cycle(r, peer, active) && |peer'| >= |peer| && forall k :: 0 <= k < |r| ==> peer'[r[k]] == peer[r[k]]
    ensures Cycle(r, peer', active)
  {
    forall k | 0 <= k < |r| ensures peer'[r[k]] == r[Succ(k, |r|)] {
      assert peer[r[k]] == r[Succ(k, |r|)];
    }
  }

  /** The other rings do not notice. */
  lemma JoinElsewhere(rings: seq<seq<nat>>, conf: seq<Conf>, live: seq<bool>, peer: seq<nat>, active: seq<int>, x: Conf,
                      j: nat)
    requires AllRings(rings, conf, live, peer, active) && |conf| == |live| == |peer| && x.pri < |rings|
    requires j < |rings| && j != x.pri && Within(rings[x.pri], |peer|)
    ensures RingOk(rings[j], j, conf + [x], live + [true], Joined(rings[x.pri], peer), active[j])
  {
    var r, peer' := rings[j], Joined(rings[x.pri], peer);
    assert RingOk(r, j, conf, live, peer, active[j]);
    forall k | 0 <= k < |r| ensures peer'[r[k]] == peer[r[k]] {
      W.OtherRing(rings, conf, live, peer, active, x.pri, j, k);
    }
    SameCycle(r, peer, peer', active[j]);
  }

  lemma JoinRings(rings: seq<seq<nat>>, conf: seq<Conf>, live: seq<bool>, peer: seq<nat>, active: seq<int>, x: Conf)
    requires AllRings(rings, conf, live, peer, active) && |conf| == |live| == |peer| && x.pri < |rings|
    ensures Within(rings[x.pri], |peer|)
    ensures var i := x.pri; var r := rings[i];
            AllRings(rings[i := r + [|conf|]], conf + [x], live + [true], Joined(r, peer),
                     active[i := if r == [] then |conf| else active[i]])
  {
    var i := x.pri;
    var r := rings[i];
    assert RingOk(r, i, conf, live, peer, active[i]);
    JoinCycle(r, peer, active[i]);
    forall c | 0 <= c <= |conf| && (live + [true])[c] && (conf + [x])[c].pri == i ensures c in r + [|conf|] {
      if c < |conf| {
        assert c in r;
      }
    }
    forall j | 0 <= j < |rings| && j != i
      ensures RingOk(rings[j], j, conf + [x], live + [true], Joined(r, peer), active[j])
    {
      JoinElsewhere(rings, conf, live, peer, active, x, j);
    }
  }

  // ---------------------------------------------------------------- leaving

  /** The walk to the class before cl, starting anywhere on the ring. */
  method PeerBefore(peer: seq<nat>, first: nat, cl: nat, ghost r: seq<nat>, ghost k: nat) returns (p: nat)
    requires Cycle(r, peer, first) && k < |r| && r[k] == cl
    ensures p == r[if k == 0 then |r| - 1 else k - 1]
  {
    p := first;
    ghost var j := 0;
    assert peer[r[0]] == r[Succ(0, |r|)];
    while peer[p] != cl
      invariant j < |r| && p == r[j] && peer[r[j]] == r[Succ(j, |r|)]
      invariant k == 0 || j <= k - 1
      decreases |r| - j
    {
      p := peer[p];
      j := j + 1;
      assert peer[r[j]] == r[Succ(j, |r|)];
    }
    assert r[Succ(j, |r|)] == r[k];
  }

  function Without(r: seq<nat>, k: nat): (s: seq<nat>)
    requires k < |r|
    ensures |s| == |r| - 1 && forall j {:trigger s[j]} :: 0 <= j < |s| ==> s[j] == r[if j < k then j else j + 1]
  {
    r[..k] + r[k + 1..]
  }

  function Preceding(r: seq<nat>, k: nat): nat
    requires k < |r|
  {
    r[if k == 0 then |r| - 1 else k - 1]
  }

  function NewActive(r: seq<nat>, k: nat, peer: seq<nat>, active: int): int
    requires k < |r| && Within(r, |peer|)
  {
    if |r| == 1 then -1 else if active == r[k] then peer[r[k]] else active
  }

  lemma LeaveCycle(r: seq<nat>, peer: seq<nat>, active: int, k: nat)
    requires Cycle(r, peer, active) && k < |r|
    ensures Cycle(Without(r, k), peer[Preceding(r, k) := peer[r[k]]], NewActive(r, k, peer, active))
  {
    var s, peer' := Without(r, k), peer[Preceding(r, k) := peer[r[k]]];
    assert peer[r[k]] == r[Succ(k, |r|)];
    forall j | 0 <= j < |s| ensures peer'[s[j]] == s[Succ(j, |s|)] {
      var x := if j < k then j else j + 1;
      assert peer[r[x]] == r[Succ(x, |r|)];
    }
  }

  lemma LeaveRings(rings: seq<seq<nat>>, conf: seq<Conf>, live: seq<bool>, peer: seq<nat>, active: seq<int>, cl: nat,
                   k: nat)
    requires AllRings(rings, conf, live, peer, active) && |conf| == |live| == |peer| && cl < |conf|
    requires conf[cl].pri < |rings| && k < |rings[conf[cl].pri]| && rings[conf[cl].pri][k] == cl
    ensures var i := conf[cl].pri; var r := rings[i];
            Within(r, |peer|) && Preceding(r, k) < |peer| &&
            AllRings(rings[i := Without(r, k)], conf, live[cl := false], peer[Preceding(r, k) := peer[cl]],
                     active[i := NewActive(r, k, peer, active[i])])
  {
    var i := conf[cl].pri;
    var r := rings[i];
    assert RingOk(r, i, conf, live, peer, active[i]);
    LeaveCycle(r, peer, active[i], k);
    var rings', active' := rings[i := Without(r, k)], active[i := NewActive(r, k, peer, active[i])];
    var live', peer' := live[cl := false], peer[Preceding(r, k) := peer[cl]];
    forall j | 0 <= j < |rings| ensures RingOk(rings'[j], j, conf, live', peer', active'[j]) {
      assert RingOk(rings[j], j, conf, live, peer, active[j]);
      if j == i {
        LeftMembers(r, k, cl);
      } else {
        OtherLeaves(rings, conf, live, peer, active, i, j, k);
      }
    }
  }

  /** A departure from one ring is not seen in another. */
  lemma OtherLeaves(rings: seq<seq<nat>>, conf: seq<Conf>, live: seq<bool>, peer: seq<nat>, active: seq<int>, i: nat,
                    j: nat, k: nat)
    requires AllRings(rings, conf, live, peer, active) && i < |rings| && j < |rings| && i != j && k < |rings[i]|
    requires Within(rings[i], |peer|) && |live| == |peer| && Preceding(rings[i], k) < |peer|
    ensures RingOk(rings[j], j, conf, live[rings[i][k] := false],
                   peer[Preceding(rings[i], k) := peer[rings[i][k]]], active[j])
  {
    var peer' := peer[Preceding(rings[i], k) := peer[rings[i][k]]];
    assert RingOk(rings[i], i, conf, live, peer, active[i]) && RingOk(rings[j], j, conf, live, peer, active[j]);
    forall y | 0 <= y < |rings[j]| ensures peer'[rings[j][y]] == peer[rings[j][y]] {
      W.OtherRing(rings, conf, live, peer, active, i, j, y);
    }
    SameCycle(rings[j], peer, peer', active[j]);
  }

  lemma LeftMembers(r: seq<nat>, k: nat, cl: nat)
    requires k < |r| && r[k] == cl && NoDup(r)
    ensures forall c :: c in Without(r, k) <==> c in r && c != cl
  {
    var s := Without(r, k);
    forall c ensures c in s <==> c in r && c != cl {
      if c in r && c != cl {
        var x :| 0 <= x < |r| && r[x] == c;
        assert s[if x < k then x else x - 1] == c;
      }
    }
  }

  // ---------------------------------------------------------------- sums

  lemma SumJoined(r: seq<nat>, col: seq<nat>, a: nat)
    requires Within(r, |col|)
    ensures Within(r + [|col|], |col| + 1) && Sum(r + [|col|], col + [a]) == Sum(r, col) + a
  {
    W.SameSum(r, col, col + [a]);
    assert (r + [|col|])[..|r|] == r;
  }

  lemma {:induction false} SumWithout(r: seq<nat>, col: seq<nat>, k: nat)
    requires Within(r, |col|) && k < |r|
    ensures Within(Without(r, k), |col|) && Sum(Without(r, k), col) == Sum(r, col) - col[r[k]]
  {
    var n := |r| - 1;
    if k == n {
      assert Without(r, k) == r[..n];
    } else {
      SumWithout(r[..n], col, k);
      assert Without(r, k)[..n - 1] == Without(r[..n], k);
    }
  }

  lemma SumChanged(r: seq<nat>, col: seq<nat>, k: nat, a: nat)
    requires Within(r, |col|) && NoDup(r) && k < |r|
    ensures Sum(r, col[r[k] := a]) == Sum(r, col) - col[r[k]] + a
  {
    var col' := col[r[k] := a];
    SumWithout(r, col, k);
    SumWithout(r, col', k);
    W.SameSum(Without(r, k), col, col');
  }
}
