/**
  The value-level meaning of the hash-fair queue: where red_addq puts a packet, and why the queue
  that results interleaves hosts.  A queue is read head first.
 */
module HashFair {
  import opened Wrappers

  /** A host is known only by its 32-bit hash (for IPv4, the address itself). */
  type Hash = h: nat | h < TWO_TO_32

  /** The number of queued packets one host may hold. */
  const HOST_LIMIT: nat := 500

  // ---------------------------------------------------------------- the gap test

  /** The test red_addq applies to the gap between neighbours hashed p and i for a packet hashed m. */
  predicate Accepts(p: Hash, i: Hash, m: Hash) {
    && i != m
    && p != m
    && (|| p == i
        || (i > m && p < m)
        || (p > i && ((p < m && i < m) || (p > m && i > m))))
  }

  /** How far hash x lies clockwise of m on the circle of 2^32 hashes. */
  function Dist(x: Hash, m: Hash): (d: nat)
    ensures d < TWO_TO_32
    ensures (m + d) % TWO_TO_32 == x
  {
    if x >= m then x - m else x + TWO_TO_32 - m
  }

  /** The three-way test says that the clockwise walk from p to i passes strictly over m. */
  lemma AcceptsIsCyclicBetween(p: Hash, i: Hash, m: Hash)
    ensures Accepts(p, i, m) <==> p != m && i != m && Dist(p, m) >= Dist(i, m)
  {
  }

  /** Putting m into a gap that accepts it creates no gap that accepts a hash the old one refused. */
  lemma SplitGap(p: Hash, i: Hash, m: Hash, y: Hash)
    requires Accepts(p, i, m) && !Accepts(p, i, y)
    ensures !Accepts(p, m, y) && !Accepts(m, i, y)
  {
  }

  // ---------------------------------------------------------------- where a packet goes

  /** The gap in front of position k accepts m. */
  predicate GapAt(h: seq<Hash>, k: nat, m: Hash)
    requires 1 <= k < |h|
  {
    Accepts(h[k - 1], h[k], m)
  }

  /** The first gap at or after k that accepts m, as the index the packet will have; the end if none. */
  function Scan(h: seq<Hash>, m: Hash, k: nat): (r: nat)
    requires 1 <= k <= |h|
    ensures k <= r <= |h|
    ensures forall j :: k <= j < r ==> !GapAt(h, j, m)
    ensures r < |h| ==> GapAt(h, r, m)
    decreases |h| - k
  {
    if k == |h| || GapAt(h, k, m) then k else Scan(h, m, k + 1)
  }

  function Place(h: seq<Hash>, m: Hash): (r: nat)
    ensures r <= |h|
    ensures h != [] ==> r >= 1
    ensures forall j :: 1 <= j < r ==> !GapAt(h, j, m)
    ensures 1 <= r < |h| ==> GapAt(h, r, m)
  {
    if h == [] then 0 else Scan(h, m, 1)
  }

  function InsertAt<T>(s: seq<T>, k: nat, x: T): (r: seq<T>)
    requires k <= |s|
    ensures |r| == |s| + 1
  {
    s[..k] + [x] + s[k..]
  }

  function Count(h: seq<Hash>, g: Hash): (c: nat)
    ensures c <= |h|
  {
    if h == [] then 0 else Count(h[..|h| - 1], g) + if h[|h| - 1] == g then 1 else 0
  }

  lemma {:induction false} CountConcat(a: seq<Hash>, b: seq<Hash>, g: Hash)
    ensures Count(a + b, g) == Count(a, g) + Count(b, g)
  {
    if b == [] {
      assert a + b == a;
    } else {
      var c := b[..|b| - 1];
      CountConcat(a, c, g);
      assert (a + b)[..|a + b| - 1] == a + c;
    }
  }

  lemma CountInsert(h: seq<Hash>, k: nat, m: Hash, g: Hash)
    requires k <= |h|
    ensures Count(InsertAt(h, k, m), g) == Count(h, g) + if g == m then 1 else 0
  {
    CountConcat(h[..k], [m], g);
    CountConcat(h[..k] + [m], h[k..], g);
    CountConcat(h[..k], h[k..], g);
    assert h == h[..k] + h[k..];
    assert Count([], g) == 0;
    assert Count([m], g) == if g == m then 1 else 0;
  }

  // ---------------------------------------------------------------- the standing invariant

  /** No gap in front of position t accepts hash y. */
  ghost predicate Closed(h: seq<Hash>, t: nat, y: Hash)
    requires t <= |h|
  {
    forall k :: 1 <= k < t ==> !GapAt(h, k, y)
  }

  ghost predicate ClosedToOwn(h: seq<Hash>, t: nat)
    requires t < |h|
  {
    Closed(h, t, h[t])
  }

  /** For every queued packet, no gap before it accepts its hash. */
  ghost predicate Fair(h: seq<Hash>) {
    forall t :: 0 <= t < |h| ==> ClosedToOwn(h, t)
  }

  /** Splitting a gap that accepts m keeps every packet behind it closed. */
  lemma ClosedInsert(h: seq<Hash>, k: nat, m: Hash, t: nat, y: Hash)
    requires 1 <= k <= t < |h|
    requires h[t] == y
    requires GapAt(h, k, m)
    requires Closed(h, t, y)
    ensures Closed(InsertAt(h, k, m), t + 1, y)
  {
    var h' := InsertAt(h, k, m);
    forall j | 1 <= j < t + 1 ensures !GapAt(h', j, y) {
      if j < k {
        assert !GapAt(h, j, y);
      } else if j <= k + 1 {
        assert k < t ==> !GapAt(h, k, y);
        SplitGap(h[k - 1], h[k], m, y);
      } else {
        assert !GapAt(h, j - 1, y);
      }
    }
  }

  /** An enqueue keeps the invariant. */
  lemma PlaceKeepsFair(h: seq<Hash>, m: Hash)
    requires Fair(h)
    ensures Fair(InsertAt(h, Place(h, m), m))
  {
    var k := Place(h, m);
    var h' := InsertAt(h, k, m);
    forall t | 0 <= t < |h'| ensures ClosedToOwn(h', t) {
      if t <= k {
        assert t < k ==> ClosedToOwn(h, t);
        forall j | 1 <= j < t ensures !GapAt(h', j, h'[t]) {
          assert !GapAt(h, j, h'[t]);
        }
      } else {
        assert ClosedToOwn(h, t - 1);
        ClosedInsert(h, k, m, t - 1, h[t - 1]);
      }
    }
  }

  /** A dequeue keeps the invariant. */
  lemma TailKeepsFair(h: seq<Hash>)
    requires Fair(h) && h != []
    ensures Fair(h[1..])
  {
    var r := h[1..];
    forall t | 0 <= t < |r| ensures ClosedToOwn(r, t) {
      assert ClosedToOwn(h, t + 1);
      forall j | 1 <= j < t ensures !GapAt(r, j, r[t]) {
        assert !GapAt(h, j + 1, h[t + 1]);
      }
    }
  }

  /** In a closed prefix the clockwise distance from y grows from one foreign packet to the next,
      so a foreign hash shows up at most once between two packets of y. */
  lemma {:induction false} ClosedCounts(h: seq<Hash>, t: nat, y: Hash, g: Hash)
    requires t <= |h| && Closed(h, t, y) && g != y
    ensures Count(h[..t], g)
         <= Count(h[..t], y) + if t > 0 && h[t - 1] != y && Dist(h[t - 1], y) >= Dist(g, y) then 1 else 0
  {
    if t > 0 {
      ClosedCounts(h, t - 1, y, g);
      assert h[..t][..t - 1] == h[..t - 1];
      if t > 1 {
        assert !GapAt(h, t - 1, y);
        AcceptsIsCyclicBetween(h[t - 2], h[t - 1], y);
      }
    }
  }

  /** Fairness: with j packets of its own host ahead, a packet has at most j+1 of any other host ahead. */
  lemma FairShare(h: seq<Hash>, t: nat, g: Hash)
    requires Fair(h) && t < |h| && g != h[t]
    ensures Count(h[..t], g) <= Count(h[..t], h[t]) + 1
  {
    assert ClosedToOwn(h, t);
    ClosedCounts(h, t, h[t], g);
  }

  /** A new packet lands behind every queued packet of its host, so counting only up to the place
      where the walk stops counts them all. */
  lemma PlaceBehindOwnHost(h: seq<Hash>, m: Hash)
    requires Fair(h)
    ensures forall t :: 0 <= t < |h| && h[t] == m ==> t < Place(h, m)
    ensures Count(h[..Place(h, m)], m) == Count(h, m)
  {
    var k := Place(h, m);
    forall t | 0 <= t < |h| && h[t] == m ensures t < k {
      assert ClosedToOwn(h, t);
    }
    CountConcat(h[..k], h[k..], m);
    assert h == h[..k] + h[k..];
    NoneCounted(h[k..], m);
  }

  lemma {:induction false} NoneCounted(h: seq<Hash>, m: Hash)
    requires forall t :: 0 <= t < |h| ==> h[t] != m
    ensures Count(h, m) == 0
  {
    if h != [] {
      NoneCounted(h[..|h| - 1], m);
    }
  }

  // ---------------------------------------------------------------- runs

  datatype Packet = Packet(hash: Hash, len: nat, tag: int)

  datatype Event = Enqueue(pkt: Packet) | Dequeue

  /** Everything that left the queue so far, in order of leaving, and what is still queued. */
  datatype System = System(gone: seq<Packet>, queue: seq<Packet>) {
    function History(): seq<Packet> { gone + queue }
  }

  function Hashes(q: seq<Packet>): (h: seq<Hash>)
    ensures |h| == |q|
    ensures forall i :: 0 <= i < |q| ==> h[i] == q[i].hash
  {
    seq(|q|, i requires 0 <= i < |q| => q[i].hash)
  }

  /** red_addq refuses a packet when the queue is full or its host already holds the cap. */
  predicate Admits(q: seq<Packet>, limit: nat, p: Packet) {
    |q| < limit && Count(Hashes(q), p.hash) < HOST_LIMIT
  }

  function Step(s: System, limit: nat, e: Event): System {
    match e
    case Enqueue(p) =>
      if Admits(s.queue, limit, p)
      then s.(queue := InsertAt(s.queue, Place(Hashes(s.queue), p.hash), p))
      else s
    case Dequeue =>
      if s.queue == [] then s else System(s.gone + [s.queue[0]], s.queue[1..])
  }

  function Run(s: System, limit: nat, es: seq<Event>): System {
    if es == [] then s else Step(Run(s, limit, es[..|es| - 1]), limit, es[|es| - 1])
  }

  const EMPTY := System([], [])

  ghost predicate Bounded(q: seq<Packet>, limit: nat) {
    |q| <= limit && forall g: Hash :: Count(Hashes(q), g) <= HOST_LIMIT
  }

  lemma StepKeepsInvariant(s: System, limit: nat, e: Event)
    requires Fair(Hashes(s.queue)) && Bounded(s.queue, limit)
    ensures Fair(Hashes(Step(s, limit, e).queue)) && Bounded(Step(s, limit, e).queue, limit)
    ensures e.Enqueue? && s.queue != [] ==> Step(s, limit, e).queue[0] == s.queue[0]
  {
    var h := Hashes(s.queue);
    match e
    case Enqueue(p) =>
      if Admits(s.queue, limit, p) {
        var k := Place(h, p.hash);
        assert Hashes(InsertAt(s.queue, k, p)) == InsertAt(h, k, p.hash);
        PlaceKeepsFair(h, p.hash);
        forall g: Hash ensures Count(InsertAt(h, k, p.hash), g) <= HOST_LIMIT {
          CountInsert(h, k, p.hash, g);
        }
      }
    case Dequeue =>
      if s.queue != [] {
        assert Hashes(s.queue[1..]) == h[1..];
        TailKeepsFair(h);
        forall g: Hash ensures Count(h[1..], g) <= HOST_LIMIT {
          CountConcat(h[..1], h[1..], g);
          assert h == h[..1] + h[1..];
        }
      }
  }

  /** Over every run from the empty queue: the fairness invariant, the host cap and the limit hold. */
  lemma {:induction false} RunKeepsInvariant(limit: nat, es: seq<Event>)
    ensures Fair(Hashes(Run(EMPTY, limit, es).queue)) && Bounded(Run(EMPTY, limit, es).queue, limit)
  {
    if es != [] {
      RunKeepsInvariant(limit, es[..|es| - 1]);
      StepKeepsInvariant(Run(EMPTY, limit, es[..|es| - 1]), limit, es[|es| - 1]);
    }
  }

  /** Fairness in every reachable queue. */
  lemma RunIsFair(limit: nat, es: seq<Event>, t: nat, g: Hash)
    requires t < |Run(EMPTY, limit, es).queue|
    requires g != Run(EMPTY, limit, es).queue[t].hash
    ensures var q := Run(EMPTY, limit, es).queue;
            Count(Hashes(q[..t]), g) <= Count(Hashes(q[..t]), q[t].hash) + 1
  {
    var q := Run(EMPTY, limit, es).queue;
    RunKeepsInvariant(limit, es);
    FairShare(Hashes(q), t, g);
    assert Hashes(q)[..t] == Hashes(q[..t]);
  }

  // ---------------------------------------------------------------- first in, first out per host

  function OfHost(q: seq<Packet>, g: Hash): seq<Packet> {
    if q == [] then []
    else OfHost(q[..|q| - 1], g) + if q[|q| - 1].hash == g then [q[|q| - 1]] else []
  }

  lemma {:induction false} OfHostConcat(a: seq<Packet>, b: seq<Packet>, g: Hash)
    ensures OfHost(a + b, g) == OfHost(a, g) + OfHost(b, g)
  {
    if b == [] {
      assert a + b == a;
    } else {
      var c := b[..|b| - 1];
      OfHostConcat(a, c, g);
      assert (a + b)[..|a + b| - 1] == a + c;
    }
  }

  lemma {:induction false} OfHostNone(q: seq<Packet>, g: Hash)
    requires forall t :: 0 <= t < |q| ==> q[t].hash != g
    ensures OfHost(q, g) == []
  {
    if q != [] {
      OfHostNone(q[..|q| - 1], g);
    }
  }

  lemma OfHostOne(p: Packet, g: Hash)
    ensures OfHost([p], g) == if p.hash == g then [p] else []
  {
    assert [p][..0] == [];
  }

  /** The packets a run let in, in order of arrival. */
  function Accepted(limit: nat, es: seq<Event>): seq<Packet> {
    if es == [] then []
    else
      var e := es[|es| - 1];
      var before := es[..|es| - 1];
      Accepted(limit, before) +
      if e.Enqueue? && Admits(Run(EMPTY, limit, before).queue, limit, e.pkt) then [e.pkt] else []
  }

  lemma OfHostInsert(q: seq<Packet>, k: nat, p: Packet, g: Hash)
    requires k <= |q|
    requires p.hash == g ==> OfHost(q[k..], g) == []
    ensures OfHost(InsertAt(q, k, p), g) == OfHost(q, g) + OfHost([p], g)
  {
    var a, b := q[..k], q[k..];
    assert q == a + b;
    OfHostConcat(a, b, g);
    OfHostConcat(a + [p], b, g);
    OfHostConcat(a, [p], g);
    OfHostOne(p, g);
    if p.hash != g {
      assert OfHost(a, g) + [] == OfHost(a, g);
    }
  }

  lemma EnqueueAppendsToHost(q: seq<Packet>, p: Packet, g: Hash)
    requires Fair(Hashes(q))
    ensures OfHost(InsertAt(q, Place(Hashes(q), p.hash), p), g) == OfHost(q, g) + OfHost([p], g)
  {
    var k := Place(Hashes(q), p.hash);
    if g == p.hash {
      PlaceBehindOwnHost(Hashes(q), p.hash);
      OfHostNone(q[k..], g);
    }
    OfHostInsert(q, k, p, g);
  }

  /** Conservation and per-host order over every run: for each host, what has left followed by what
      is still queued is exactly what was let in, in order of arrival. */
  lemma {:induction false} HostIsFifo(limit: nat, es: seq<Event>, g: Hash)
    ensures OfHost(Run(EMPTY, limit, es).History(), g) == OfHost(Accepted(limit, es), g)
  {
    if es != [] {
      var before := es[..|es| - 1];
      var e := es[|es| - 1];
      HostIsFifo(limit, before, g);
      RunKeepsInvariant(limit, before);
      StepIsFifo(Run(EMPTY, limit, before), limit, e, g);
      var more := if e.Enqueue? && Admits(Run(EMPTY, limit, before).queue, limit, e.pkt) then [e.pkt] else [];
      OfHostConcat(Accepted(limit, before), more, g);
    }
  }

  lemma StepIsFifo(s: System, limit: nat, e: Event, g: Hash)
    requires Fair(Hashes(s.queue))
    ensures OfHost(Step(s, limit, e).History(), g)
         == OfHost(s.History(), g) +
            if e.Enqueue? && Admits(s.queue, limit, e.pkt) then OfHost([e.pkt], g) else []
  {
    match e
    case Enqueue(p) =>
      if Admits(s.queue, limit, p) {
        OfHostConcat(s.gone, s.queue, g);
        OfHostConcat(s.gone, Step(s, limit, e).queue, g);
        EnqueueAppendsToHost(s.queue, p, g);
      }
    case Dequeue =>
      if s.queue != [] {
        assert s.gone + [s.queue[0]] + s.queue[1..] == s.gone + s.queue;
      }
  }

  // ---------------------------------------------------------------- how long a packet waits

  /** Where the packet at history index t is after one event. */
  function Track(s: System, limit: nat, e: Event, t: nat): nat {
    if e.Enqueue? && Admits(s.queue, limit, e.pkt)
       && |s.gone| + Place(Hashes(s.queue), e.pkt.hash) <= t
    then t + 1 else t
  }

  function TrackRun(s: System, limit: nat, es: seq<Event>, t: nat): nat {
    if es == [] then t
    else Track(Run(s, limit, es[..|es| - 1]), limit, es[|es| - 1], TrackRun(s, limit, es[..|es| - 1], t))
  }

  /** What every event keeps for the packet tracked at history index t. */
  ghost predicate Waiting(s: System, t: nat, x: Packet, own: nat) {
    t < |s.History()| && s.History()[t] == x && Ahead(Hashes(s.History()), t, x.hash, own)
  }

  /** No gap in front of t accepts y, and `own` packets of y are ahead. */
  ghost predicate Ahead(h: seq<Hash>, t: nat, y: Hash, own: nat) {
    t <= |h| && Closed(h, t, y) && Count(h[..t], y) == own
  }

  /** An arrival put in front of a waiting packet is of another host and keeps it closed. */
  lemma ArrivalKeepsWaiting(gone: seq<Hash>, hq: seq<Hash>, m: Hash, t: nat, y: Hash)
    requires Fair(hq) && hq != []
    requires |gone| + Place(hq, m) <= t < |gone + hq| && (gone + hq)[t] == y
    requires Closed(gone + hq, t, y)
    ensures m != y
    ensures Closed(InsertAt(gone + hq, |gone| + Place(hq, m), m), t + 1, y)
  {
    var r := Place(hq, m);
    var k := |gone| + r;
    var h := gone + hq;
    assert h[k - 1] == hq[r - 1] && h[k] == hq[r];
    assert GapAt(hq, r, m);
    ClosedInsert(h, k, m, t, y);
    PlaceBehindOwnHost(hq, m);
    assert hq[t - |gone|] == y;
  }

  /** An arrival behind a waiting packet changes nothing in front of it. */
  lemma ArrivalBehind(h: seq<Hash>, k: nat, m: Hash, t: nat, y: Hash)
    requires t < k <= |h| && Closed(h, t, y)
    ensures Closed(InsertAt(h, k, m), t, y) && InsertAt(h, k, m)[..t] == h[..t]
  {
    forall j | 1 <= j < t ensures !GapAt(InsertAt(h, k, m), j, y) {
      assert !GapAt(h, j, y);
    }
  }

  /** An arrival in front of it adds one packet of another host. */
  lemma ArrivalAhead(h: seq<Hash>, k: nat, m: Hash, t: nat, g: Hash)
    requires k <= t <= |h|
    ensures Count(InsertAt(h, k, m)[..t + 1], g) == Count(h[..t], g) + if g == m then 1 else 0
  {
    CountInsert(h[..t], k, m, g);
    assert InsertAt(h, k, m)[..t + 1] == InsertAt(h[..t], k, m);
  }

  lemma HashesOfOneInsert(b: seq<Packet>, k: nat, p: Packet)
    requires k <= |b|
    ensures Hashes(InsertAt(b, k, p)) == InsertAt(Hashes(b), k, p.hash)
    ensures InsertAt(b, k, p)[k] == p && InsertAt(Hashes(b), k, p.hash)[k] == p.hash
  {
  }

  lemma HashesOfInsert(a: seq<Packet>, b: seq<Packet>, k: nat, p: Packet)
    requires k <= |b|
    ensures a + InsertAt(b, k, p) == InsertAt(a + b, |a| + k, p)
    ensures Hashes(a + InsertAt(b, k, p)) == InsertAt(Hashes(a) + Hashes(b), |a| + k, p.hash)
    ensures Hashes(a + b) == Hashes(a) + Hashes(b)
  {
    assert a + InsertAt(b, k, p) == InsertAt(a + b, |a| + k, p);
    var l, r := Hashes(a + InsertAt(b, k, p)), InsertAt(Hashes(a) + Hashes(b), |a| + k, p.hash);
    forall i | 0 <= i < |l| ensures l[i] == r[i] {
    }
  }

  lemma InsertAtIndex<T>(s: seq<T>, k: nat, x: T, t: nat)
    requires k <= |s| && t < |s|
    ensures InsertAt(s, k, x)[if t < k then t else t + 1] == s[t]
  {
  }

  /** An admitted packet joins the history where it joins the queue. */
  lemma EnqueuedHistory(s: System, limit: nat, p: Packet)
    requires Admits(s.queue, limit, p)
    ensures var k := |s.gone| + Place(Hashes(s.queue), p.hash); var s' := Step(s, limit, Enqueue(p));
            && k <= |s.History()| && s'.History() == InsertAt(s.History(), k, p)
            && Hashes(s'.History()) == InsertAt(Hashes(s.gone) + Hashes(s.queue), k, p.hash)
    ensures Hashes(s.History()) == Hashes(s.gone) + Hashes(s.queue)
  {
    HashesOfInsert(s.gone, s.queue, Place(Hashes(s.queue), p.hash), p);
  }

  /** An arrival keeps a packet waiting, one place further back if it is put in front of it. */
  lemma ArrivalKeepsAhead(gone: seq<Hash>, hq: seq<Hash>, m: Hash, t: nat, y: Hash, own: nat)
    requires Fair(hq) && t < |gone + hq| && (gone + hq)[t] == y && Ahead(gone + hq, t, y, own)
    ensures var k := |gone| + Place(hq, m);
            Ahead(InsertAt(gone + hq, k, m), if t < k then t else t + 1, y, own)
  {
    var k := |gone| + Place(hq, m);
    if t < k {
      ArrivalBehind(gone + hq, k, m, t, y);
    } else {
      ArrivalKeepsWaiting(gone, hq, m, t, y);
      ArrivalAhead(gone + hq, k, m, t, y);
    }
  }

  lemma EnqueueKeepsWaiting(s: System, limit: nat, p: Packet, t: nat, x: Packet, own: nat)
    requires Fair(Hashes(s.queue)) && Waiting(s, t, x, own) && Admits(s.queue, limit, p)
    ensures Waiting(Step(s, limit, Enqueue(p)), Track(s, limit, Enqueue(p), t), x, own)
  {
    EnqueuedHistory(s, limit, p);
    InsertAtIndex(s.History(), |s.gone| + Place(Hashes(s.queue), p.hash), p, t);
    ArrivalKeepsAhead(Hashes(s.gone), Hashes(s.queue), p.hash, t, x.hash, own);
  }

  lemma StepKeepsWaiting(s: System, limit: nat, e: Event, t: nat, x: Packet, own: nat)
    requires Fair(Hashes(s.queue)) && Waiting(s, t, x, own)
    ensures Waiting(Step(s, limit, e), Track(s, limit, e, t), x, own)
  {
    if e.Enqueue? && Admits(s.queue, limit, e.pkt) {
      EnqueueKeepsWaiting(s, limit, e.pkt, t, x, own);
    } else {
      assert Step(s, limit, e).History() == s.History();
    }
  }

  lemma {:induction false} RunKeepsWaiting(s: System, limit: nat, es: seq<Event>, t: nat, x: Packet, own: nat)
    requires Fair(Hashes(s.queue)) && Bounded(s.queue, limit) && Waiting(s, t, x, own)
    ensures Fair(Hashes(Run(s, limit, es).queue)) && Bounded(Run(s, limit, es).queue, limit)
    ensures Waiting(Run(s, limit, es), TrackRun(s, limit, es, t), x, own)
  {
    if es != [] {
      var before := es[..|es| - 1];
      RunKeepsWaiting(s, limit, before, t, x, own);
      StepKeepsInvariant(Run(s, limit, before), limit, es[|es| - 1]);
      StepKeepsWaiting(Run(s, limit, before), limit, es[|es| - 1], TrackRun(s, limit, before, t), x, own);
    }
  }

  /** The state right after x arrives, with the record of departures started afresh. */
  function Arrival(limit: nat, pre: seq<Event>, x: Packet): System {
    System([], Step(Run(EMPTY, limit, pre), limit, Enqueue(x)).queue)
  }

  lemma NothingGone(q: seq<Packet>)
    ensures System([], q).History() == q
  {
  }

  lemma NewcomerWaits(q: seq<Packet>, x: Packet)
    requires Fair(Hashes(q))
    ensures
      var h := Hashes(q);
      var k := Place(h, x.hash);
      Waiting(System([], InsertAt(q, k, x)), k, x, Count(h, x.hash))
  {
    var h := Hashes(q);
    var k := Place(h, x.hash);
    NothingGone(InsertAt(q, k, x));
    HashesOfOneInsert(q, k, x);
    PlaceBehindOwnHost(h, x.hash);
    PlaceKeepsFair(h, x.hash);
    assert ClosedToOwn(InsertAt(h, k, x.hash), k);
    assert InsertAt(h, k, x.hash)[..k] == h[..k];
  }

  lemma ArrivalWaits(limit: nat, pre: seq<Event>, x: Packet)
    requires Admits(Run(EMPTY, limit, pre).queue, limit, x)
    ensures
      var h := Hashes(Run(EMPTY, limit, pre).queue);
      var s := Arrival(limit, pre, x);
      && Fair(Hashes(s.queue)) && Bounded(s.queue, limit)
      && Waiting(s, Place(h, x.hash), x, Count(h, x.hash))
  {
    RunKeepsInvariant(limit, pre);
    StepKeepsInvariant(Run(EMPTY, limit, pre), limit, Enqueue(x));
    NewcomerWaits(Run(EMPTY, limit, pre).queue, x);
  }

  /** Fairness over time: a packet that finds `own` packets of its host queued sees, over the whole rest
      of any run, at most own+1 packets of any other host leave before it, however many arrive in the
      meantime; and exactly `own` of its own host do. */
  lemma OvertakingIsBounded(limit: nat, pre: seq<Event>, x: Packet, post: seq<Event>, g: Hash)
    requires Admits(Run(EMPTY, limit, pre).queue, limit, x) && g != x.hash
    ensures
      var h := Hashes(Run(EMPTY, limit, pre).queue);
      var own := Count(h, x.hash);
      var s := Arrival(limit, pre, x);
      var t := TrackRun(s, limit, post, Place(h, x.hash));
      var all := Run(s, limit, post).History();
      && t < |all| && all[t] == x
      && Count(Hashes(all)[..t], x.hash) == own
      && Count(Hashes(all)[..t], g) <= own + 1
  {
    var h := Hashes(Run(EMPTY, limit, pre).queue);
    var s := Arrival(limit, pre, x);
    ArrivalWaits(limit, pre, x);
    RunKeepsWaiting(s, limit, post, Place(h, x.hash), x, Count(h, x.hash));
    var t := TrackRun(s, limit, post, Place(h, x.hash));
    ClosedCounts(Hashes(Run(s, limit, post).History()), t, x.hash, g);
  }
}
