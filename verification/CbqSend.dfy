/**
  Taking a packet out of a class: what the end of a dequeue does to the queue, the account, the ring and the
  slots, and that all of it keeps the invariant.
 */
module CbqSend {
  import opened CbqState
  import HF = HashFair

  function Around(j: nat, k: nat, n: nat): nat
    requires j < n && k <= n
  {
    if j + k < n then j + k else j + k - n
  }

  /** Turning the ring so that it starts at another class. */
  function Turned(r: seq<nat>, k: nat): (t: seq<nat>)
    requires k <= |r|
    ensures |t| == |r| && forall j {:trigger t[j]} :: 0 <= j < |t| ==> t[j] == r[Around(j, k, |r|)]
  {
    r[k..] + r[..k]
  }

  lemma TurnedCycle(r: seq<nat>, k: nat, peer: seq<nat>, active: int)
    requires Cycle(r, peer, active) && k < |r|
    ensures Cycle(Turned(r, k), peer, r[k])
  {
    var t, n := Turned(r, k), |r|;
    forall j | 0 <= j < n ensures peer[t[j]] == t[Succ(j, n)] {
      var x := Around(j, k, n);
      assert peer[r[x]] == r[Succ(x, n)];
      assert Succ(x, n) == Around(Succ(j, n), k, n);
    }
    forall a, b | 0 <= a < b < n ensures t[a] != t[b] {
      var x, y := Around(a, k, n), Around(b, k, n);
      assert if x < y then r[x] != r[y] else r[y] != r[x];
    }
  }

  lemma TurnedRing(r: seq<nat>, k: nat, i: nat, conf: seq<Conf>, live: seq<bool>, peer: seq<nat>, active: int)
    requires RingOk(r, i, conf, live, peer, active) && k < |r|
    ensures RingOk(Turned(r, k), i, conf, live, peer, r[k])
  {
    var t := Turned(r, k);
    TurnedCycle(r, k, peer, active);
    assert forall c :: c in r <==> c in r[k..] || c in r[..k] by {
      assert r == r[..k] + r[k..];
    }
  }

  lemma TurnedWeights(r: seq<nat>, k: nat, allotment: seq<nat>, wAllotment: seq<nat>, num: int, alloc: int, weight: nat,
                      maxpkt: nat)
    requires k <= |r| && |allotment| == |wAllotment| && maxpkt > 0
    requires Counted(r, allotment, num, alloc) && Weighed(r, allotment, wAllotment, weight, maxpkt)
    ensures Counted(Turned(r, k), allotment, num, alloc) && Weighed(Turned(r, k), allotment, wAllotment, weight, maxpkt)
  {
    SumConcat(r[..k], r[k..], allotment);
    SumConcat(r[k..], r[..k], allotment);
    assert r[..k] + r[k..] == r;
  }

  lemma RingUpdate(rings: seq<seq<nat>>, conf: seq<Conf>, live: seq<bool>, peer: seq<nat>, active: seq<int>, i: nat,
                   k: nat)
    requires AllRings(rings, conf, live, peer, active) && i < |rings| && k < |rings[i]|
    ensures AllRings(rings[i := Turned(rings[i], k)], conf, live, peer, active[i := rings[i][k]])
  {
    TurnedRing(rings[i], k, i, conf, live, peer, active[i]);
  }

  lemma WeightUpdate(rings: seq<seq<nat>>, num: seq<int>, alloc: seq<int>, weight: seq<nat>, allotment: seq<nat>,
                     wAllotment: seq<nat>, maxpkt: nat, i: nat, k: nat, wrr: bool)
    requires maxpkt > 0 && i < |rings| && k <= |rings[i]|
    requires wrr ==> AllWeights(rings, num, alloc, weight, allotment, wAllotment, maxpkt)
    ensures wrr ==> AllWeights(rings[i := Turned(rings[i], k)], num, alloc, weight, allotment, wAllotment, maxpkt)
  {
    if wrr {
      assert Counted(rings[i], allotment, num[i], alloc[i]);
      TurnedWeights(rings[i], k, allotment, wAllotment, num[i], alloc[i], weight[i], maxpkt);
    }
  }

  /** The pointer of a class's ring goes to the class or past it. */
  lemma Proceeded(rings: seq<seq<nat>>, c: Classes, p: Levels, maxpkt: nat, wrr: bool, cl: nat, k: nat, past: bool)
    returns (ring: seq<nat>)
    requires AllRings(rings, c.conf, c.live, c.peer, p.active) && maxpkt > 0
    requires cl < |c.conf| && c.conf[cl].pri < |rings|
    requires wrr ==> AllWeights(rings, p.num, p.alloc, p.weight, c.allotment, c.wAllotment, maxpkt)
    requires k < |rings[c.conf[cl].pri]| && rings[c.conf[cl].pri][k] == cl
    ensures cl < |c.peer|
    ensures var i := c.conf[cl].pri;
            AllRings(rings[i := ring], c.conf, c.live, c.peer, p.active[i := if past then c.peer[cl] else cl])
    ensures wrr ==>
      AllWeights(rings[c.conf[cl].pri := ring], p.num, p.alloc, p.weight, c.allotment, c.wAllotment, maxpkt)
  {
    var i := c.conf[cl].pri;
    var r := rings[i];
    assert RingOk(r, i, c.conf, c.live, c.peer, p.active[i]);
    assert c.peer[r[k]] == r[Succ(k, |r|)];
    var j := if past then Succ(k, |r|) else k;
    RingUpdate(rings, c.conf, c.live, c.peer, p.active, i, j);
    WeightUpdate(rings, p.num, p.alloc, p.weight, c.allotment, c.wAllotment, maxpkt, i, j, wrr);
    ring := Turned(r, j);
  }

  // ---------------------------------------------------------------- queue, account and slot

  lemma TailHashes(q: seq<Packet>)
    requires q != []
    ensures HF.Hashes(q[1..]) == HF.Hashes(q)[1..]
  {
  }

  /** Taking the head keeps a red queue fair. */
  lemma QueueTail(conf: seq<Conf>, q: seq<seq<Packet>>, c: nat)
    requires AllFair(conf, q) && c < |q| && q[c] != []
    ensures AllFair(conf, q[c := q[c][1..]])
  {
    if conf[c].red {
      TailHashes(q[c]);
      HF.TailKeepsFair(HF.Hashes(q[c]));
    }
  }

  /** Under weighted round robin the account pays for a packet if it has anything left. */
  function Paid(wrr: bool, account: int, len: nat): int { if wrr && account > 0 then account - len else account }

  lemma ChargeCovered(bytesAlloc: seq<int>, turn: seq<nat>, charged: seq<nat>, largest: nat, c: nat, len: nat,
                      wrr: bool)
    requires Covered(bytesAlloc, turn, charged, largest) && c < |turn| && len <= largest
    ensures Covered(bytesAlloc[c := Paid(wrr, bytesAlloc[c], len)], turn,
                    charged[c := charged[c] + if wrr && bytesAlloc[c] > 0 then len else 0], largest)
  {
    assert Account(bytesAlloc[c], turn[c], charged[c], largest);
  }

  /** The ledger after a class has sent. */
  function Charged(l: Ledger, c: nat, account: int, len: nat): Ledger
    requires c < |l.charged|
  {
    l.(charged := l.charged[c := l.charged[c] + if account > 0 then len else 0])
  }

  lemma BillOne(b0: seq<int>, l0: Ledger, b: seq<int>, l: Ledger, w: seq<nat>, c: nat, len: nat)
    requires Turning(b0, l0, b, l, w) && c < |b|
    ensures Billed(b0, l0, b[c := Paid(true, b[c], len)], Charged(l, c, b[c], len), w, c, len)
  {
    var b', l' := b[c := Paid(true, b[c], len)], Charged(l, c, b[c], len);
    forall d | 0 <= d < |b|
      ensures BilledOne(b0[d], b'[d], l0.turn[d], l'.turn[d], l0.charged[d], l'.charged[d], w[d],
                        if d == c then len else 0)
    {
      assert Anew(b0[d], b[d], l0.turn[d], l.turn[d], l0.charged[d], l.charged[d], w[d]);
    }
  }

  lemma BillNone(b0: seq<int>, l0: Ledger, b: seq<int>, l: Ledger, w: seq<nat>)
    requires Turning(b0, l0, b, l, w)
    ensures Billed(b0, l0, b, l, w, -1, 0)
  {
    forall d | 0 <= d < |b|
      ensures BilledOne(b0[d], b[d], l0.turn[d], l.turn[d], l0.charged[d], l.charged[d], w[d], 0)
    {
      assert Anew(b0[d], b[d], l0.turn[d], l.turn[d], l0.charged[d], l.charged[d], w[d]);
    }
  }

  /** Between changes of the weights, no account pays for more than its weighted allotment and a packet less a byte
      from one refill or clearing to the next. */
  lemma Budget(ifd: RmIfdat)
    requires ifd.Accounts() && Allotted(ifd.l.turn, ifd.c.wAllotment)
    ensures InBudget(ifd.l.charged, ifd.c.wAllotment, ifd.largest)
  {
    forall c | 0 <= c < |ifd.l.charged| ensures ifd.l.charged[c] < ifd.c.wAllotment[c] + ifd.largest {
      assert Account(ifd.t.bytesAlloc[c], ifd.l.turn[c], ifd.l.charged[c], ifd.largest);
    }
  }

  /** Searching and sending refill accounts with nothing else. */
  lemma StaysAllotted(b0: seq<int>, l0: Ledger, b1: seq<int>, l1: Ledger, w: seq<nat>, cl: int, len: nat)
    requires Billed(b0, l0, b1, l1, w, cl, len) && Allotted(l0.turn, w)
    ensures Allotted(l1.turn, w)
  {
    forall c | 0 <= c < |b1| ensures l1.turn[c] == 0 || l1.turn[c] == w[c] {
      assert BilledOne(b0[c], b1[c], l0.turn[c], l1.turn[c], l0.charged[c], l1.charged[c], w[c],
                       if c == cl then len else 0);
    }
  }

  lemma SlotTaken(sent: seq<int>, qi: nat, qo: nat, queued: nat, cl: nat)
    requires InUse(sent, qi, qo, queued) && queued < |sent|
    ensures InUse(sent[qi := cl], Slot(qi + 1, |sent|), qo, queued + 1)
    ensures (qi + 1) % |sent| == Slot(qi + 1, |sent|)
  {
  }
}
