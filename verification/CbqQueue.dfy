/**
  Putting packets into class queues: rmc_queue_packet, with its guess at the cutoff.
 */
module CbqQueue {
  import opened CbqState
  import HF = HashFair
  import T = CbqTree

  // ---------------------------------------------------------------- the queue

  /** What _rmc_addq and the drop after it leave of a queue: a red queue takes the packet where red_addq puts it
      if it takes it at all; any other appends it and loses its head when it has grown over its limit. */
  function Enqueued(q: seq<Packet>, red: bool, limit: nat, m: Packet): (r: seq<Packet>)
    ensures q != [] ==> r != []
  {
    if red then
      if HF.Admits(q, limit, m) then HF.InsertAt(q, HF.Place(HF.Hashes(q), m.hash), m) else q
    else if |q| + 1 > limit then (q + [m])[1..]
    else q + [m]
  }

  /** Whether the packet was queued without a drop. */
  predicate Kept(q: seq<Packet>, red: bool, limit: nat, m: Packet) {
    if red then HF.Admits(q, limit, m) else |q| < limit
  }

  /** A red queue never has to drop its head: what it takes fits. */
  lemma RedNeverDrops(q: seq<Packet>, limit: nat, m: Packet)
    requires HF.Admits(q, limit, m)
    ensures |Enqueued(q, true, limit, m)| <= limit
    ensures q != [] ==> Enqueued(q, true, limit, m)[0] == q[0]
  {
  }

  /** A queue that is not red takes the packet at its end, and with its limit reached its head is dropped.  A red queue
      that takes the packet keeps its hosts apart and puts it behind all packets of its own host.  No queue grows beyond
      its limit. */
  lemma EnqueueOrder(q: seq<Packet>, red: bool, limit: nat, m: Packet)
    ensures var r := Enqueued(q, red, limit, m);
      && |r| <= (if |q| > limit then |q| else limit)
      && (!red && |q| < limit ==> r == q + [m])
      && (!red && |q| >= limit ==> [(q + [m])[0]] + r == q + [m])
      && (red && !HF.Admits(q, limit, m) ==> r == q)
      && (red && HF.Admits(q, limit, m) && HF.Fair(HF.Hashes(q)) ==>
            forall g :: HF.OfHost(r, g) == HF.OfHost(q, g) + if m.hash == g then [m] else [])
  {
    if red && HF.Admits(q, limit, m) && HF.Fair(HF.Hashes(q)) {
      forall g ensures HF.OfHost(Enqueued(q, red, limit, m), g) == HF.OfHost(q, g) + if m.hash == g then [m] else [] {
        HF.EnqueueAppendsToHost(q, m, g);
        HF.OfHostOne(m, g);
      }
    }
  }

  lemma EnqueueFair(conf: seq<Conf>, q: seq<seq<Packet>>, c: nat, limit: nat, m: Packet)
    requires AllFair(conf, q) && c < |q|
    ensures AllFair(conf, q[c := Enqueued(q[c], conf[c].red, limit, m)])
  {
    var x := Enqueued(q[c], conf[c].red, limit, m);
    if conf[c].red && HF.Admits(q[c], limit, m) {
      assert HF.Fair(HF.Hashes(q[c]));
      HF.HashesOfOneInsert(q[c], HF.Place(HF.Hashes(q[c]), m.hash), m);
      HF.PlaceKeepsFair(HF.Hashes(q[c]), m.hash);
    }
    forall y | 0 <= y < |conf| && conf[y].red ensures HF.Fair(HF.Hashes(q[c := x][y])) {
      assert HF.Fair(HF.Hashes(q[y]));
    }
  }

  /** The new packet may be the largest so far. */
  lemma EnqueueFits(q: seq<seq<Packet>>, c: nat, red: bool, limit: nat, m: Packet, largest: nat)
    requires c < |q|
    ensures var most := if m.len > largest then m.len else largest;
            Fitting(q, largest) ==> Fitting(q[c := Enqueued(q[c], red, limit, m)], most)
  {
    var x := Enqueued(q[c], red, limit, m);
    forall j | 0 <= j < |x| ensures x[j] == m || exists k :: 0 <= k < |q[c]| && q[c][k] == x[j] {
      if x[j] != m {
        assert x[j] in q[c];
      }
    }
    if Fitting(q, largest) {
      assert Short(q[c], largest);
      forall d | 0 <= d < |q| && d != c ensures Short(q[d], if m.len > largest then m.len else largest) {
        assert Short(q[d], largest);
      }
    }
  }

  // ---------------------------------------------------------------- the cutoff

  /** The depth of the first lender up the chain that is under its limit, if that lowers the cutoff. */
  function LenderCutoff(c: Classes, timing: seq<Timing>, now: Time, cutoff: nat, b: int): (k: nat)
    requires |c.conf| == |c.depth| == |timing| && -1 <= b < |c.conf| && Ordered(c.conf)
    ensures k <= cutoff
    decreases b
  {
    if b == -1 || c.depth[b] >= cutoff then cutoff
    else if Before(timing[b].undertime, now) then c.depth[b]
    else
      assert Linked(c.conf, b);
      LenderCutoff(c, timing, now, cutoff, c.conf[b].borrow)
  }

  /** The cutoff after a packet came in for a class. */
  function ArrivalCutoff(c: Classes, timing: seq<Timing>, now: Time, cutoff: nat, cl: nat): (k: nat)
    requires |c.conf| == |c.depth| == |timing| && cl < |c.conf| && Ordered(c.conf)
    ensures k <= cutoff
  {
    assert Linked(c.conf, cl);
    if Before(timing[cl].undertime, now) then (if c.depth[cl] < cutoff then c.depth[cl] else cutoff)
    else LenderCutoff(c, timing, now, cutoff, c.conf[cl].borrow)
  }

  /** Class x is under its limit, and every class from b up the borrow chain before it is over its own. */
  ghost predicate FirstUnder(c: Classes, timing: seq<Timing>, now: Time, b: int, x: nat)
    requires |c.conf| == |timing| && -1 <= b < |c.conf| && Ordered(c.conf)
    decreases b
  {
    && b != -1
    && if Before(timing[b].undertime, now) then x == b
       else
         assert Linked(c.conf, b);
         FirstUnder(c, timing, now, c.conf[b].borrow, x)
  }

  /** An arrival lowers the cutoff only to the depth of the first class up the chain that is under its limit, and lowers
      it to its own depth at least if the class itself is. */
  lemma ArrivalCutoffIs(c: Classes, timing: seq<Timing>, now: Time, cutoff: nat, cl: nat)
    requires |c.conf| == |c.depth| == |timing| && cl < |c.conf| && Ordered(c.conf)
    ensures var k := ArrivalCutoff(c, timing, now, cutoff, cl);
      && (k < cutoff ==> exists x: nat :: x <= cl && FirstUnder(c, timing, now, cl, x) && k == c.depth[x])
      && (Before(timing[cl].undertime, now) ==> k <= c.depth[cl])
  {
    assert Linked(c.conf, cl);
    if Before(timing[cl].undertime, now) {
      assert FirstUnder(c, timing, now, cl, cl);
    } else if ArrivalCutoff(c, timing, now, cutoff, cl) < cutoff {
      var x := LenderFound(c, timing, now, cutoff, c.conf[cl].borrow);
      assert FirstUnder(c, timing, now, cl, x);
    }
  }

  lemma {:induction false} LenderFound(c: Classes, timing: seq<Timing>, now: Time, cutoff: nat, b: int) returns (x: nat)
    requires |c.conf| == |c.depth| == |timing| && -1 <= b < |c.conf| && Ordered(c.conf)
    requires LenderCutoff(c, timing, now, cutoff, b) < cutoff
    ensures x <= b && FirstUnder(c, timing, now, b, x) && LenderCutoff(c, timing, now, cutoff, b) == c.depth[x]
    decreases b
  {
    assert Linked(c.conf, b);
    if Before(timing[b].undertime, now) {
      x := b;
    } else {
      x := LenderFound(c, timing, now, cutoff, c.conf[b].borrow);
    }
  }

  method AdjustCutoff(c: Classes, timing: seq<Timing>, now: Time, cutoff: nat, cl: nat) returns (k: nat)
    requires |c.conf| == |c.depth| == |timing| && cl < |c.conf| && Ordered(c.conf)
    ensures k == ArrivalCutoff(c, timing, now, cutoff, cl)
  {
    k := cutoff;
    if cutoff > 0 {
      assert Linked(c.conf, cl);
      if Before(timing[cl].undertime, now) {
        if k > c.depth[cl] {
          k := c.depth[cl];
        }
      } else {
        var borrow := c.conf[cl].borrow;
        while borrow != -1 && c.depth[borrow] < cutoff
          invariant -1 <= borrow < |c.conf|
          invariant LenderCutoff(c, timing, now, cutoff, c.conf[cl].borrow) ==
            LenderCutoff(c, timing, now, cutoff, borrow)
          decreases borrow
        {
          if Before(timing[borrow].undertime, now) {
            return c.depth[borrow];
          }
          assert Linked(c.conf, borrow);
          borrow := c.conf[borrow].borrow;
        }
      }
    }
  }

  lemma {:induction false} LenderStays(c: Classes, timing: seq<Timing>, now: Time, cutoff: nat, b: nat)
    requires Tree(c.conf, c.live, c.children) && DepthsExact(c.live, c.children, c.depth, -1) && |timing| == |c.conf|
    requires b < |c.conf| && c.live[b] && c.depth[b] <= cutoff
    ensures c.depth[b] <= LenderCutoff(c, timing, now, cutoff, b)
  {
    assert Linked(c.conf, b);
    var g := c.conf[b].borrow;
    if g != -1 {
      T.LenderDeeper(c.conf, c.live, c.children, c.depth, b);
      if c.depth[g] <= cutoff {
        LenderStays(c, timing, now, cutoff, g);
      }
    }
  }

  lemma {:induction false} LenderOpens(v: View, c: Classes, timing: seq<Timing>, now: Time, cutoff: nat, b: nat)
    requires Tree(c.conf, c.live, c.children) && DepthsExact(c.live, c.children, c.depth, -1) && Sees(v, timing, now)
    requires v.conf == c.conf && v.depth == c.depth && now.sec > 0
    requires b < |c.conf| && c.live[b] && c.depth[b] <= cutoff && ChainUnder(v, cutoff, b)
    ensures ChainUnder(v, LenderCutoff(c, timing, now, cutoff, b), b)
  {
    assert SeesClass(v, b, timing[b], now) && Linked(c.conf, b);
    if v.over[b] {
      var g := c.conf[b].borrow;
      T.LenderDeeper(c.conf, c.live, c.children, c.depth, b);
      LenderStays(c, timing, now, cutoff, g);
      LenderOpens(v, c, timing, now, cutoff, g);
    }
  }

  /** However an arrival lowers the cutoff, the class it is for may still send if it could before. */
  lemma ArrivalOpens(v: View, c: Classes, timing: seq<Timing>, now: Time, cutoff: nat, cl: nat)
    requires Tree(c.conf, c.live, c.children) && DepthsExact(c.live, c.children, c.depth, -1) && Sees(v, timing, now)
    requires v.conf == c.conf && v.depth == c.depth && now.sec > 0 && cl < |c.conf| && c.live[cl]
    requires CanSend(v, cutoff, cl)
    ensures CanSend(v, ArrivalCutoff(c, timing, now, cutoff, cl), cl)
  {
    assert SeesClass(v, cl, timing[cl], now) && Linked(c.conf, cl);
    var b := c.conf[cl].borrow;
    if c.conf[cl].parent != -1 && v.over[cl] {
      T.LenderDeeper(c.conf, c.live, c.children, c.depth, cl);
      LenderStays(c, timing, now, cutoff, b);
      LenderOpens(v, c, timing, now, cutoff, b);
    }
  }

  // ---------------------------------------------------------------- the operation

  /** rmc_queue_packet */
  method QueuePacket(ifd: RmIfdat, cl: nat, m: Packet, now: Time) returns (kept: bool)
    requires ifd.Inv() && cl < |ifd.c.conf| && ifd.c.live[cl]
    modifies ifd`b, ifd`cutoff, ifd`largest
    ensures ifd.largest == if m.len > old(ifd.largest) then m.len else old(ifd.largest)
    ensures (old(ifd.Accounts()) ==> ifd.Accounts()) && (old(ifd.Fits()) ==> ifd.Fits())
    ensures ifd.Inv() && ifd.cutoff == ArrivalCutoff(ifd.c, ifd.t.timing, now, old(ifd.cutoff), cl)
    ensures ifd.b.q == old(ifd.b.q)[cl := Enqueued(old(ifd.b.q)[cl], ifd.c.conf[cl].red, ifd.c.qlimit[cl], m)]
    ensures !ifd.c.conf[cl].red && |old(ifd.b.q)[cl]| < ifd.c.qlimit[cl] ==> ifd.b.q[cl] == old(ifd.b.q)[cl] + [m]
    ensures !ifd.c.conf[cl].red && |old(ifd.b.q)[cl]| >= ifd.c.qlimit[cl] ==>
      ifd.b.q[cl] == (old(ifd.b.q)[cl] + [m])[1..]
    ensures kept <==> Kept(old(ifd.b.q)[cl], ifd.c.conf[cl].red, ifd.c.qlimit[cl], m)
    ensures old(ifd.Polled()) ==> ifd.Polled()
  {
    var c, q, na := ifd.c, ifd.b.q[cl], ifd.b.na;
    var i, limit, empty := c.conf[cl].pri, c.qlimit[cl], q == [];
    ghost var x := Enqueued(q, c.conf[cl].red, limit, m);
    BacklogUpdate(c.conf, c.live, ifd.b.q, na, cl, x);
    EnqueueFair(c.conf, ifd.b.q, cl, limit, m);
    EnqueueFits(ifd.b.q, cl, c.conf[cl].red, limit, m, ifd.largest);
    ifd.largest := if m.len > ifd.largest then m.len else ifd.largest;
    ifd.cutoff := AdjustCutoff(c, ifd.t.timing, now, ifd.cutoff, cl);
    if c.conf[cl].red {
      if !HF.Admits(q, limit, m) {
        assert ifd.b.q[cl := x] == ifd.b.q && na[i := na[i]] == na;
        return false;
      }
      q := HF.InsertAt(q, HF.Place(HF.Hashes(q), m.hash), m);
    } else {
      q := q + [m];
    }
    if empty {
      na := na[i := na[i] + 1];
    }
    kept := true;
    if |q| > limit {
      q := q[1..];
      if q == [] {
        na := na[i := na[i] - 1];
      }
      kept := false;
    }
    assert q == x && na == ifd.b.na[i := ifd.b.na[i] + Full(x) - Full(ifd.b.q[cl])];
    ifd.b := Backlog(ifd.b.q[cl := q], na);
  }
}
