/**
  The packet queue of a class: a circular, singly linked list of mbufs known by its tail, and the
  hash-fair enqueue that walks it.  `pkts` is the queue read from head to tail.
 */
module ClassQueue {
  import opened HashFair

  /** What the hash of a packet is taken from. */
  datatype Header =
    | Stale                       // the cached header pointer is outside the mbuf chain
    | Ipv4(src: Hash, dst: Hash)
    | OtherVersion

  const HASH_STUB: Hash := 0x0100007f

  /** hfq_pkt_hash: the source address of an IPv4 packet if the ECN flag is set, else the destination. */
  function PacketHash(hdr: Header, ecn: bool): Hash {
    match hdr
    case Stale => HASH_STUB
    case Ipv4(src, dst) => if ecn then src else dst
    case OtherVersion => HASH_STUB
  }

  /** Two IPv4 packets are of one host exactly if their sources are the same, with the ECN flag, or their
      destinations, without it; all others go under one stub. */
  lemma HashNamesHost(src: Hash, dst: Hash, src': Hash, dst': Hash)
    ensures PacketHash(Ipv4(src, dst), true) == PacketHash(Ipv4(src', dst'), true) <==> src == src'
    ensures PacketHash(Ipv4(src, dst), false) == PacketHash(Ipv4(src', dst'), false) <==> dst == dst'
    ensures forall e, e' :: PacketHash(Stale, e) == PacketHash(OtherVersion, e')
  {
  }

  class Mbuf {
    var next: Mbuf?
    var qid: Hash
    var hdr: Header
    var len: nat

    constructor (hdr: Header, len: nat)
      ensures this.hdr == hdr && this.len == len
    {
      this.hdr, this.len := hdr, len;
      next, qid := null, 0;
    }
  }

  /** The queue without its element at k. */
  function RemoveAt<T>(s: seq<T>, k: nat): (r: seq<T>)
    requires k < |s|
    ensures |r| == |s| - 1
  {
    s[..k] + s[k + 1..]
  }

  class Queue {
    var tail: Mbuf?
    var qlen: int
    var qlim: nat
    ghost var pkts: seq<Mbuf>

    ghost predicate Valid()
      reads this, pkts
    {
      && qlen == |pkts|
      && (tail == null <==> pkts == [])
      && (forall i, j :: 0 <= i < j < |pkts| ==> pkts[i] != pkts[j])
      && (pkts != [] ==> tail == pkts[|pkts| - 1] && tail.next == pkts[0])
      && (forall i :: 0 <= i < |pkts| - 1 ==> pkts[i].next == pkts[i + 1])
    }

    ghost function HashSeq(): (h: seq<Hash>)
      reads this, pkts
      ensures |h| == |pkts|
      ensures forall i :: 0 <= i < |pkts| ==> h[i] == pkts[i].qid
    {
      seq(|pkts|, i requires 0 <= i < |pkts| reads this, pkts => pkts[i].qid)
    }

    constructor (limit: nat)
      ensures Valid() && pkts == [] && qlim == limit
    {
      tail, qlen, qlim, pkts := null, 0, limit, [];
    }

    /** _addq */
    method AddQ(m: Mbuf)
      requires Valid() && m !in pkts
      modifies this`tail, this`qlen, this`pkts, m`next, pkts`next
      ensures Valid() && pkts == old(pkts) + [m]
    {
      var m0 := tail;
      if m0 != null {
        m.next := m0.next;
        m0.next := m;
      } else {
        m.next := m;
      }
      tail := m;
      qlen := qlen + 1;
      pkts := pkts + [m];
    }

    /** _insq: after `memb`, or at the head if it is null. */
    method InsQ(m: Mbuf, memb: Mbuf?, ghost k: nat)
      requires Valid() && m !in pkts
      requires k <= |pkts|
      requires if memb == null then k == 0 else k > 0 && pkts[k - 1] == memb
      modifies this`tail, this`qlen, this`pkts, m`next, pkts`next
      ensures Valid() && pkts == InsertAt(old(pkts), k, m)
    {
      if memb != null {
        m.next := memb.next;
        memb.next := m;
        if tail == memb {
          tail := m;
        }
      } else {
        if tail != null {
          m.next := tail.next;
        } else {
          tail := m;
        }
        tail.next := m;
      }
      qlen := qlen + 1;
      pkts := InsertAt(pkts, k, m);
    }

    /** _getq */
    method GetQ() returns (r: Mbuf?)
      requires Valid()
      modifies this`tail, this`qlen, this`pkts, pkts`next
      ensures Valid()
      ensures old(pkts) == [] ==> r == null && pkts == []
      ensures old(pkts) != [] ==> r == old(pkts)[0] && pkts == old(pkts)[1..] && r.next == null
    {
      var m := tail;
      if m == null {
        return null;
      }
      r := m.next;
      if r != m {
        m.next := r.next;
      } else {
        tail := null;
      }
      qlen := qlen - 1;
      pkts := pkts[1..];
      r.next := null;
    }

    /** Unlinks the element at k, whose predecessor on the ring is `prev`. */
    method Unlink(m: Mbuf, prev: Mbuf, ghost k: nat)
      requires Valid() && k < |pkts| && m == pkts[k]
      requires prev == pkts[if k == 0 then |pkts| - 1 else k - 1]
      modifies this`tail, this`qlen, this`pkts, pkts`next
      ensures Valid() && pkts == RemoveAt(old(pkts), k)
      ensures m.next == old(m.next) || |old(pkts)| == 1
    {
      prev.next := m.next;
      if prev == m {
        tail := null;
      } else if tail == m {
        tail := prev;
      }
      qlen := qlen - 1;
      pkts := RemoveAt(pkts, k);
    }

    /** _getq_tail */
    method GetQTail() returns (r: Mbuf?)
      requires Valid()
      modifies this`tail, this`qlen, this`pkts, pkts`next
      ensures Valid()
      ensures old(pkts) == [] ==> r == null && pkts == []
      ensures old(pkts) != [] ==>
        r == old(pkts)[|old(pkts)| - 1] && pkts == old(pkts)[..|old(pkts)| - 1] && r.next == null
    {
      var m := tail;
      if m == null {
        return null;
      }
      var prev, m0 := m, m.next;
      ghost var k := 0;
      while m0 != m
        invariant 0 <= k < |pkts| && m0 == pkts[k]
        invariant prev == pkts[if k == 0 then |pkts| - 1 else k - 1]
        decreases |pkts| - k
      {
        prev := m0;
        m0 := m0.next;
        k := k + 1;
      }
      Unlink(m, prev, k);
      m.next := null;
      r := m;
    }

    /** _getq_random: `n` is the draw, between 1 and the queue length. */
    method GetQRandom(n: nat) returns (r: Mbuf?)
      requires Valid()
      requires pkts != [] ==> 1 <= n <= |pkts|
      modifies this`tail, this`qlen, this`pkts, pkts`next
      ensures Valid()
      ensures old(pkts) == [] ==> r == null && pkts == []
      ensures old(pkts) != [] ==>
        r == old(pkts)[n - 1] && pkts == RemoveAt(old(pkts), n - 1) && r.next == null
    {
      var m := tail;
      if m == null {
        return null;
      }
      if m.next == m {
        tail := null;
        qlen := qlen - 1;
        pkts := RemoveAt(pkts, n - 1);
      } else {
        var prev := m;
        for i := 0 to n
          invariant m == pkts[if i == 0 then |pkts| - 1 else i - 1]
          invariant i > 0 ==> prev == pkts[if i == 1 then |pkts| - 1 else i - 2]
        {
          prev := m;
          m := m.next;
        }
        Unlink(m, prev, n - 1);
      }
      m.next := null;
      r := m;
    }

    /** _removeq: the caller passes a queued packet. */
    method RemoveQ(m: Mbuf, ghost at: nat)
      requires Valid() && at < |pkts| && pkts[at] == m
      modifies this`tail, this`qlen, this`pkts, pkts`next
      ensures Valid() && pkts == RemoveAt(old(pkts), at)
    {
      var prev, m0 := tail, tail.next;
      ghost var k := 0;
      while m0 != m
        invariant 0 <= k <= at && m0 == pkts[k]
        invariant prev == pkts[if k == 0 then |pkts| - 1 else k - 1]
        decreases |pkts| - k
      {
        prev := m0;
        m0 := m0.next;
        k := k + 1;
      }
      Unlink(m, prev, k);
    }

    /** _flushq */
    method FlushQ()
      requires Valid()
      modifies this`tail, this`qlen, this`pkts, pkts`next
      ensures Valid() && pkts == []
    {
      var m := GetQ();
      while m != null
        invariant Valid() && |pkts| <= |old(pkts)| && pkts == old(pkts)[|old(pkts)| - |pkts|..]
        invariant m == null ==> pkts == []
        decreases |pkts| + if m == null then 0 else 1
      {
        m := GetQ();
      }
    }
  }
}
