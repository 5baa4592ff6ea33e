/**
  Traffic counters: sorted buckets of 64 entries, filled by binary search, with a spare block to swap in when a
  bucket is full.  Blocks of memory are numbered.
 */
module KeepStat {
  import opened Wrappers

  const BLOCK: nat := 64           // BACKETLEN
  const BUCKETS: nat := 768        // three tables of 256
  const TWO_TO_64: nat := 0x1_0000_0000_0000_0000

  /** A pair of addresses as stored: 64-bit numbers. */
  datatype Key = Key(from: nat, to: nat)

  datatype Entry = Entry(key: Key, packets: nat, bytes: nat)

  /** A 32-bit address word read as a signed int and stored in 64 bits. */
  function SignExtend(w: nat): nat
    requires w < TWO_TO_32
  {
    if w >= 0x8000_0000 then w + TWO_TO_64 - TWO_TO_32 else w
  }

  predicate IsWord(x: nat) { x < 0x8000_0000 || TWO_TO_64 - 0x8000_0000 <= x < TWO_TO_64 }

  /** The difference of two stored words, truncated to an int, is zero only for equal words. */
  lemma TruncatedDifference(a: nat, b: nat)
    requires IsWord(a) && IsWord(b)
    ensures (a - b) % TWO_TO_32 == 0 <==> a == b
  {
  }

  /** The bucket of a pair: the exclusive or of the last octets. */
  function BucketOf(from: nat, to: nat): (h: nat)
    requires from < TWO_TO_32 && to < TWO_TO_32
    ensures h < 256
  {
    var a, b := (from / 0x100_0000) as bv8, (to / 0x100_0000) as bv8;
    (a ^ b) as nat
  }

  /** The hash of a stored pair. */
  function HashOf(k: Key): nat { BucketOf(k.from % TWO_TO_32, k.to % TWO_TO_32) }

  lemma OffsetKept(base: nat, x: nat)
    requires base in {0, 256, 512} && x < 256
    ensures (base + x) % 256 == x
  {
    assert base + x == x || base + x == 256 + x || base + x == 512 + x;
  }

  lemma HashOfStored(from: nat, to: nat)
    requires from < TWO_TO_32 && to < TWO_TO_32
    ensures HashOf(Key(SignExtend(from), SignExtend(to))) == BucketOf(from, to)
  {
    assert SignExtend(from) % TWO_TO_32 == from && SignExtend(to) % TWO_TO_32 == to;
  }

  predicate Less(a: Key, b: Key) { a.from < b.from || (a.from == b.from && a.to < b.to) }

  /** The sign of the source's comparison. */
  function Compare(a: Key, b: Key): int {
    if (a.from - b.from) % TWO_TO_32 == 0 then
      if (a.to - b.to) % TWO_TO_32 == 0 then 0 else if a.to > b.to then 1 else -1
    else if a.from > b.from then 1
    else -1
  }

  predicate Stored(k: Key) { IsWord(k.from) && IsWord(k.to) }

  lemma CompareIsLess(a: Key, b: Key)
    requires Stored(a) && Stored(b)
    ensures Compare(a, b) == 0 <==> a == b
    ensures Compare(a, b) > 0 <==> Less(b, a)
  {
    TruncatedDifference(a.from, b.from);
    TruncatedDifference(a.to, b.to);
  }

  /** Packets and bytes, counted modulo 2^64. */
  datatype Total = Total(packets: nat, bytes: nat)

  function Plus(t: Total, len: nat): Total {
    Total((t.packets + 1) % TWO_TO_64, (t.bytes + len) % TWO_TO_64)
  }

  type Totals = map<Key, Total>

  /** What has been seen of each pair, one packet later. */
  function Seen(t: Totals, k: Key, len: nat): Totals {
    t[k := if k in t then Plus(t[k], len) else Total(1, len % TWO_TO_64)]
  }

  // ---------------------------------------------------------------- one bucket

  ghost predicate Sorted(s: seq<Entry>) {
    forall i, j :: 0 <= i < j < |s| ==> Less(s[i].key, s[j].key)
  }

  ghost predicate Holds(s: seq<Entry>, t: Totals) {
    && |t| == |s|
    && (forall i :: 0 <= i < |s| ==> s[i].key in t && t[s[i].key] == Total(s[i].packets, s[i].bytes))
    && (forall k :: k in t ==> exists i :: 0 <= i < |s| && s[i].key == k)
  }

  /** The entries of a bucket: sorted, and adding up to what was seen. */
  ghost predicate BucketOk(s: seq<Entry>, t: Totals) {
    |s| < BLOCK && Sorted(s) && Holds(s, t) && forall i :: 0 <= i < |s| ==> Stored(s[i].key)
  }

  /** The binary search: the key's entry, or the place where it belongs. */
  method Find(s: seq<Entry>, k: Key) returns (found: bool, at: nat)
    requires Sorted(s) && Stored(k) && forall i :: 0 <= i < |s| ==> Stored(s[i].key)
    ensures found ==> at < |s| && s[at].key == k
    ensures !found ==> Gap(s, at, k)
  {
    var base: nat, lim: nat := 0, |s|;
    while lim != 0
      invariant base + lim <= |s|
      invariant forall i :: 0 <= i < base ==> Less(s[i].key, k)
      invariant forall i :: base + lim <= i < |s| ==> Less(k, s[i].key)
    {
      var p := base + lim / 2;
      var cmp := Compare(k, s[p].key);
      CompareIsLess(k, s[p].key);
      if cmp == 0 {
        return true, p;
      }
      if cmp > 0 {
        base := p + 1;
        lim := lim - 1;
      }
      lim := lim / 2;
    }
    return false, base;
  }

  function Bumped(e: Entry, len: nat): Entry {
    e.(packets := (e.packets + 1) % TWO_TO_64, bytes := (e.bytes + len) % TWO_TO_64)
  }

  lemma SameKeys(s: seq<Entry>, e: Entry, at: nat)
    requires at < |s| && Sorted(s) && e.key == s[at].key
    ensures Sorted(s[at := e]) && forall i :: 0 <= i < |s| ==> s[at := e][i].key == s[i].key
    ensures forall i :: 0 <= i < |s| && i != at ==> s[i].key != s[at].key
  {
    forall i | 0 <= i < |s| && i != at ensures s[i].key != s[at].key {
      assert if i < at then Less(s[i].key, s[at].key) else Less(s[at].key, s[i].key);
    }
  }

  lemma BumpCounts(s: seq<Entry>, t: Totals, at: nat, len: nat)
    requires Holds(s, t) && at < |s| && forall i :: 0 <= i < |s| && i != at ==> s[i].key != s[at].key
    ensures Holds(s[at := Bumped(s[at], len)], Seen(t, s[at].key, len))
  {
    var e := Bumped(s[at], len);
    var s', t' := s[at := e], Seen(t, s[at].key, len);
    assert t' == t[e.key := Total(e.packets, e.bytes)];
    assert t'.Keys == t.Keys && |t'| == |t'.Keys| == |t.Keys| == |t|;
    forall i | 0 <= i < |s'| ensures s'[i].key in t' && t'[s'[i].key] == Total(s'[i].packets, s'[i].bytes) {
      if i != at {
        assert s'[i] == s[i];
      }
    }
    forall k | k in t' ensures exists i :: 0 <= i < |s'| && s'[i].key == k {
      var i :| 0 <= i < |s| && s[i].key == k;
      assert s'[i].key == k;
    }
  }

  lemma BumpHolds(s: seq<Entry>, t: Totals, at: nat, len: nat)
    requires BucketOk(s, t) && at < |s|
    ensures BucketOk(s[at := Bumped(s[at], len)], Seen(t, s[at].key, len))
  {
    SameKeys(s, Bumped(s[at], len), at);
    BumpCounts(s, t, at, len);
  }

  function Inserted(s: seq<Entry>, at: nat, e: Entry): (r: seq<Entry>)
    requires at <= |s|
    ensures |r| == |s| + 1 && r[at] == e
    ensures forall i {:trigger r[i]} :: 0 <= i < |r| && i != at ==> r[i] == s[if i < at then i else i - 1]
  {
    s[..at] + [e] + s[at..]
  }

  /** The place of a key that is not there yet. */
  ghost predicate Gap(s: seq<Entry>, at: nat, k: Key) {
    && at <= |s| && Stored(k)
    && (forall i :: 0 <= i < at ==> Less(s[i].key, k)) && (forall i :: at <= i < |s| ==> Less(k, s[i].key))
  }

  lemma InsertSorted(s: seq<Entry>, at: nat, e: Entry)
    requires Sorted(s) && Gap(s, at, e.key) && forall i :: 0 <= i < |s| ==> Stored(s[i].key)
    ensures Sorted(Inserted(s, at, e)) && forall i :: 0 <= i < |s| + 1 ==> Stored(Inserted(s, at, e)[i].key)
  {
    var r := Inserted(s, at, e);
    forall i, j | 0 <= i < j < |r| ensures Less(r[i].key, r[j].key) {
      var x, y := if i < at then i else i - 1, if j < at then j else j - 1;
      if i != at && j != at {
        assert Less(s[x].key, s[y].key);
      }
    }
  }

  lemma InsertedKeys(s: seq<Entry>, at: nat, e: Entry, x: Key)
    requires at <= |s| && (x == e.key || exists i :: 0 <= i < |s| && s[i].key == x)
    ensures exists i :: 0 <= i < |s| + 1 && Inserted(s, at, e)[i].key == x
  {
    var r := Inserted(s, at, e);
    if x == e.key {
      assert r[at].key == x;
    } else {
      var i :| 0 <= i < |s| && s[i].key == x;
      assert r[if i < at then i else i + 1].key == x;
    }
  }

  lemma InsertHolds(s: seq<Entry>, t: Totals, at: nat, e: Entry)
    requires Holds(s, t) && Gap(s, at, e.key)
    ensures e.key !in t && Holds(Inserted(s, at, e), t[e.key := Total(e.packets, e.bytes)])
  {
    var r, t' := Inserted(s, at, e), t[e.key := Total(e.packets, e.bytes)];
    assert forall i :: 0 <= i < |s| ==> s[i].key != e.key;
    assert t'.Keys == t.Keys + {e.key};
    forall i | 0 <= i < |r| ensures r[i].key in t' && t'[r[i].key] == Total(r[i].packets, r[i].bytes) {
      if i != at {
        assert r[i] == s[if i < at then i else i - 1];
      }
    }
    forall x | x in t' ensures exists i :: 0 <= i < |r| && r[i].key == x {
      InsertedKeys(s, at, e, x);
    }
  }

  // ---------------------------------------------------------------- all buckets

  /** Memory: blocks of 64 entries; for each bucket the block it uses and how many entries are in use; a spare. */
  datatype Memory = Memory(mem: seq<seq<Entry>>, ptr: seq<nat>, len: seq<nat>, spare: nat)

  /** No two buckets share a block, and the spare is nobody's. */
  ghost predicate Apart(m: Memory) {
    && |m.mem| == BUCKETS + 1 && |m.ptr| == |m.len| == BUCKETS && m.spare <= BUCKETS
    && (forall b :: 0 <= b <= BUCKETS ==> |m.mem[b]| == BLOCK)
    && (forall b :: 0 <= b < BUCKETS ==> m.ptr[b] <= BUCKETS && m.ptr[b] != m.spare && m.len[b] < BLOCK)
    && (forall a, b :: 0 <= a < b < BUCKETS ==> m.ptr[a] != m.ptr[b])
  }

  /** The entries in use in a bucket. */
  function Bucket(m: Memory, b: nat): seq<Entry>
    requires |m.ptr| == |m.len| == BUCKETS && b < BUCKETS && m.ptr[b] < |m.mem| && m.len[b] <= |m.mem[m.ptr[b]]|
  {
    m.mem[m.ptr[b]][..m.len[b]]
  }

  ghost predicate AllOk(m: Memory, totals: seq<Totals>) {
    && Apart(m) && |totals| == BUCKETS
    && forall b {:trigger totals[b]} :: 0 <= b < BUCKETS ==> BucketOk(Bucket(m, b), totals[b])
  }

  /** The table that begins at bucket `base`. */
  function TableAt(m: Memory, base: nat): (t: seq<seq<Entry>>)
    requires Apart(m) && base <= 512
    ensures |t| == 256 && forall b :: 0 <= b < 256 ==> t[b] == Bucket(m, base + b)
  {
    seq(256, b requires 0 <= b < 256 => Bucket(m, base + b))
  }

  function NoEntries(): (t: seq<seq<Entry>>)
    ensures |t| == 256 && forall b :: 0 <= b < 256 ==> t[b] == []
  {
    seq(256, _ => [])
  }

  /** No other bucket than b has changed. */
  ghost predicate OnlyAt(b: nat, m: Memory, m': Memory)
    requires Apart(m) && Apart(m')
  {
    forall c :: 0 <= c < BUCKETS && c != b ==> Bucket(m', c) == Bucket(m, c)
  }

  lemma SameTable(m: Memory, m': Memory, base: nat, b: nat)
    requires Apart(m) && Apart(m') && base <= 512 && OnlyAt(b, m, m') && !(base <= b < base + 256)
    ensures TableAt(m', base) == TableAt(m, base)
  {
  }

  /** A bucket holds only pairs of its hash. */
  ghost predicate Home(totals: seq<Totals>) {
    forall b, k :: 0 <= b < |totals| && k in totals[b] ==> HashOf(k) == b % 256
  }

  /** What has been seen in a bucket since it was last emptied. */
  function Counted(t: Totals, k: Key, len: nat): Totals {
    var t' := Seen(t, k, len);
    if |t'| == BLOCK then map[] else t'
  }

  lemma HomeKept(totals: seq<Totals>, b: nat, k: Key, len: nat)
    requires Home(totals) && b < |totals| && HashOf(k) == b % 256
    ensures Home(totals[b := Counted(totals[b], k, len)])
  {
    var totals' := totals[b := Counted(totals[b], k, len)];
    forall c, x | 0 <= c < |totals'| && x in totals'[c] ensures HashOf(x) == c % 256 {
      if x != k || c != b {
        assert x in totals[c];
      }
    }
  }

  /** The table that begins at `prn` is empty. */
  function Unprinted(totals: seq<Totals>, prn: nat): (r: seq<Totals>)
    ensures |r| == |totals| &&
            forall b :: 0 <= b < |r| ==> r[b] == if prn <= b < prn + 256 then map[] else totals[b]
  {
    seq(|totals|, b requires 0 <= b < |totals| => if prn <= b < prn + 256 then map[] else totals[b])
  }

  /** Where the tables of passed, blocked and printed packets begin: the first and the last may change places. */
  predicate Placed(pass: nat, block: nat, prn: nat) {
    block == 256 && ((pass == 0 && prn == 512) || (pass == 512 && prn == 0))
  }

  class Stats {
    var m: Memory
    var pass: nat                  // where in the tables the three kinds of buckets begin
    var block: nat
    var prn: nat
    ghost var totals: seq<Totals>

    /** init_mem */
    constructor ()
      ensures Valid() && (forall b :: 0 <= b < BUCKETS ==> totals[b] == map[] && m.len[b] == 0)
      ensures pass == 0 && block == 256 && prn == 512
    {
      var zero := seq(BLOCK, _ => Entry(Key(0, 0), 0, 0));
      m := Memory(seq(BUCKETS + 1, _ => zero), seq(BUCKETS, b => b), seq(BUCKETS, _ => 0), BUCKETS);
      pass, block, prn := 0, 256, 512;
      totals := seq(BUCKETS, _ => map[]);
    }

    ghost predicate Valid()
      reads this
    {
      && AllOk(m, totals) && Home(totals)
      && Placed(pass, block, prn)
    }

    /** A packet of a pair is counted in a bucket. */
    method Count(k: Key, b: nat, len: nat)
      requires AllOk(m, totals) && Stored(k) && b < BUCKETS
      modifies this`m, this`totals
      ensures AllOk(m, totals) && totals == old(totals)[b := Counted(old(totals)[b], k, len)]
      ensures OnlyAt(b, old(m), m)
    {
      var m0, p, n := m, m.ptr[b], m.len[b];
      assert BucketOk(Bucket(m0, b), totals[b]);
      var found, at := Find(m0.mem[p][..n], k);
      if found {
        BumpedBucket(m0, totals, b, at, len);
        m := m0.(mem := m0.mem[p := m0.mem[p][at := Bumped(m0.mem[p][at], len)]]);
      } else {
        var s := m0.mem[p][..at] + [Entry(k, 1, len % TWO_TO_64)] + m0.mem[p][at..BLOCK - 1];
        MovedUp(m0.mem[p], n, at, Entry(k, 1, len % TWO_TO_64));
        GrownBucket(m0, totals, b, at, k, len, s);
        if n + 1 < BLOCK {
          m := m0.(mem := m0.mem[p := s], len := m0.len[b := n + 1]);
        } else {
          m := Memory(m0.mem[p := s], m0.ptr[b := m0.spare], m0.len[b := 0], p);
        }
      }
      totals := totals[b := Counted(totals[b], k, len)];
    }

    /** keepstat_ip on the table that begins at `base`. */
    method KeepIp(from: nat, to: nat, len: nat, base: nat)
      requires Valid() && from < TWO_TO_32 && to < TWO_TO_32 && (base == pass || base == block)
      modifies this`m, this`totals
      ensures Valid()
      ensures var b := base + BucketOf(from, to); var k := Key(SignExtend(from), SignExtend(to));
              HashOf(k) == b % 256 && totals == old(totals)[b := Counted(old(totals)[b], k, len)]
      ensures OnlyAt(base + BucketOf(from, to), old(m), m)
    {
      var k, b := Key(SignExtend(from), SignExtend(to)), base + BucketOf(from, to);
      HashOfStored(from, to);
      OffsetKept(base, BucketOf(from, to));
      HomeKept(totals, b, k, len);
      Count(k, b, len);
    }

    /** The STAT command: the live table and the one being printed change places. */
    method Swap()
      requires Valid()
      modifies this`pass, this`prn
      ensures Valid() && pass == old(prn) && prn == old(pass)
    {
      pass, prn := prn, pass;
    }

    /** The end of a dump: the printed table is empty again. */
    method ClearPrinted()
      requires Valid()
      modifies this`m, this`totals
      ensures Valid() && totals == Unprinted(old(totals), prn)
      ensures forall b :: 0 <= b < BUCKETS ==>
        Bucket(m, b) == if prn <= b < prn + 256 then [] else old(Bucket(m, b))
    {
      ghost var m0, t0 := m, totals;
      var len, lo := m.len, prn;
      m := m.(len := seq(BUCKETS, b requires 0 <= b < BUCKETS => if lo <= b < lo + 256 then 0 else len[b]));
      totals := Unprinted(t0, lo);
      forall b | 0 <= b < BUCKETS ensures BucketOk(Bucket(m, b), totals[b]) {
        assert BucketOk(Bucket(m0, b), t0[b]);
      }
    }
  }

  /** Writing one bucket's block leaves the other buckets alone. */
  lemma Rewritten(m: Memory, totals: seq<Totals>, b: nat, s: seq<Entry>, n: nat, t: Totals)
    requires AllOk(m, totals) && b < BUCKETS && |s| == BLOCK && n < BLOCK && BucketOk(s[..n], t)
    ensures var m' := m.(mem := m.mem[m.ptr[b] := s], len := m.len[b := n]);
            AllOk(m', totals[b := t]) && OnlyAt(b, m, m')
    ensures m.len[b] == n ==> m.len[b := n] == m.len
  {
    var m' := m.(mem := m.mem[m.ptr[b] := s], len := m.len[b := n]);
    forall c | 0 <= c < BUCKETS ensures BucketOk(Bucket(m', c), totals[b := t][c]) {
      assert BucketOk(Bucket(m, c), totals[c]);
      if c != b {
        assert m.ptr[c] != m.ptr[b];
      }
    }
  }

  /** A full bucket gives up its block for the spare one. */
  lemma SwappedOut(m: Memory, totals: seq<Totals>, b: nat, s: seq<Entry>)
    requires AllOk(m, totals) && b < BUCKETS && |s| == BLOCK
    ensures var m' := Memory(m.mem[m.ptr[b] := s], m.ptr[b := m.spare], m.len[b := 0], m.ptr[b]);
            AllOk(m', totals[b := map[]]) && OnlyAt(b, m, m')
  {
    var m' := Memory(m.mem[m.ptr[b] := s], m.ptr[b := m.spare], m.len[b := 0], m.ptr[b]);
    forall c | 0 <= c < BUCKETS ensures BucketOk(Bucket(m', c), totals[b := map[]][c]) {
      assert BucketOk(Bucket(m, c), totals[c]);
      if c != b {
        assert m.ptr[c] != m.ptr[b];
      }
    }
  }

  /** An entry counts another packet. */
  lemma BumpedBucket(m: Memory, totals: seq<Totals>, b: nat, at: nat, len: nat)
    requires AllOk(m, totals) && b < BUCKETS && at < m.len[b]
    ensures var p := m.ptr[b]; var k := m.mem[p][at].key;
            var m' := m.(mem := m.mem[p := m.mem[p][at := Bumped(m.mem[p][at], len)]]);
            k in totals[b] && |Seen(totals[b], k, len)| < BLOCK
            && AllOk(m', totals[b := Seen(totals[b], k, len)]) && OnlyAt(b, m, m')
  {
    var p, n := m.ptr[b], m.len[b];
    var s := m.mem[p][at := Bumped(m.mem[p][at], len)];
    assert BucketOk(Bucket(m, b), totals[b]);
    BumpHolds(m.mem[p][..n], totals[b], at, len);
    assert s[..n] == m.mem[p][..n][at := Bumped(m.mem[p][at], len)];
    Rewritten(m, totals, b, s, n, Seen(totals[b], m.mem[p][at].key, len));
  }

  /** What memmove makes of a block: the entries in use with a new one among them. */
  lemma MovedUp(s: seq<Entry>, n: nat, at: nat, e: Entry)
    requires |s| == BLOCK && at <= n < BLOCK
    ensures var r := s[..at] + [e] + s[at..BLOCK - 1]; |r| == BLOCK && r[..n + 1] == Inserted(s[..n], at, e)
  {
    var r := s[..at] + [e] + s[at..BLOCK - 1];
    assert s[at..BLOCK - 1][..n - at] == s[..n][at..];
  }

  /** A new entry goes in, and if that fills the block the bucket starts over with the spare. */
  lemma GrownBucket(m: Memory, totals: seq<Totals>, b: nat, at: nat, k: Key, len: nat, s: seq<Entry>)
    requires AllOk(m, totals) && b < BUCKETS && Gap(Bucket(m, b), at, k) && |s| == BLOCK
    requires s[..m.len[b] + 1] == Inserted(Bucket(m, b), at, Entry(k, 1, len % TWO_TO_64))
    ensures var p := m.ptr[b]; var n := m.len[b];
            var m' := if n + 1 < BLOCK then m.(mem := m.mem[p := s], len := m.len[b := n + 1])
                      else Memory(m.mem[p := s], m.ptr[b := m.spare], m.len[b := 0], p);
            AllOk(m', totals[b := Counted(totals[b], k, len)]) && OnlyAt(b, m, m')
  {
    assert BucketOk(Bucket(m, b), totals[b]);
    GrownOk(Bucket(m, b), totals[b], at, k, len);
    if m.len[b] + 1 < BLOCK {
      Rewritten(m, totals, b, s, m.len[b] + 1, Counted(totals[b], k, len));
    } else {
      SwappedOut(m, totals, b, s);
    }
  }

  lemma GrownOk(u: seq<Entry>, t: Totals, at: nat, k: Key, len: nat)
    requires BucketOk(u, t) && Gap(u, at, k)
    ensures if |u| + 1 < BLOCK then BucketOk(Inserted(u, at, Entry(k, 1, len % TWO_TO_64)), Counted(t, k, len))
            else Counted(t, k, len) == map[]
  {
    InsertSorted(u, at, Entry(k, 1, len % TWO_TO_64));
    InsertHolds(u, t, at, Entry(k, 1, len % TWO_TO_64));
  }

  // ---------------------------------------------------------------- over a run

  /** A packet of a bucket: its pair and its length. */
  datatype Sighting = Sighting(key: Key, len: nat)

  function Packets(ps: seq<Sighting>, k: Key): nat {
    if ps == [] then 0 else Packets(ps[..|ps| - 1], k) + if ps[|ps| - 1].key == k then 1 else 0
  }

  function Bytes(ps: seq<Sighting>, k: Key): nat {
    if ps == [] then 0 else Bytes(ps[..|ps| - 1], k) + if ps[|ps| - 1].key == k then ps[|ps| - 1].len else 0
  }

  /** The counters say, for every pair seen, how many packets and bytes of it there were. */
  ghost predicate Exact(t: Totals, ps: seq<Sighting>) {
    forall k :: (k in t <==> Packets(ps, k) > 0)
                && (k in t ==> t[k] == Total(Packets(ps, k) % TWO_TO_64, Bytes(ps, k) % TWO_TO_64))
  }

  lemma ModPlus(a: nat, b: nat)
    ensures (a % TWO_TO_64 + b) % TWO_TO_64 == (a + b) % TWO_TO_64
  {
  }

  lemma {:induction false} NoneSeen(ps: seq<Sighting>, k: Key)
    requires Packets(ps, k) == 0
    ensures Bytes(ps, k) == 0
  {
    if ps != [] {
      NoneSeen(ps[..|ps| - 1], k);
    }
  }

  lemma OneMore(ps: seq<Sighting>, p: Sighting, k: Key)
    ensures Packets(ps + [p], k) == Packets(ps, k) + if p.key == k then 1 else 0
    ensures Bytes(ps + [p], k) == Bytes(ps, k) + if p.key == k then p.len else 0
  {
    assert (ps + [p])[..|ps|] == ps;
  }

  lemma SeenIsExact(t: Totals, ps: seq<Sighting>, p: Sighting)
    requires Exact(t, ps)
    ensures Exact(Seen(t, p.key, p.len), ps + [p])
  {
    var t', qs := Seen(t, p.key, p.len), ps + [p];
    forall k ensures (k in t' <==> Packets(qs, k) > 0)
                     && (k in t' ==> t'[k] == Total(Packets(qs, k) % TWO_TO_64, Bytes(qs, k) % TWO_TO_64)) {
      OneMore(ps, p, k);
      if k == p.key {
        if k in t {
          ModPlus(Packets(ps, k), 1);
          ModPlus(Bytes(ps, k), p.len);
        } else {
          NoneSeen(ps, k);
        }
      }
    }
  }

  /** What can happen to the counters: a packet that was passed or blocked, the STAT command, the end of a dump. */
  datatype Event = Packet(from: Word, to: Word, len: nat, blocked: bool) | Stat | DumpEnds

  type Word = w: nat | w < TWO_TO_32

  /** What the counters stand for, and where the three tables begin. */
  datatype Book = Book(totals: seq<Totals>, pass: nat, block: nat, prn: nat)

  /** The bucket a packet is counted in, and what of it is counted. */
  function Target(k: Book, e: Event): nat
    requires e.Packet?
  {
    (if e.blocked then k.block else k.pass) + BucketOf(e.from, e.to)
  }

  function Sighted(e: Event): Sighting
    requires e.Packet?
  {
    Sighting(Key(SignExtend(e.from), SignExtend(e.to)), e.len)
  }

  function Printed(k: Book, b: nat): bool { k.prn <= b < k.prn + 256 }

  function Next(k: Book, e: Event): Book {
    if e.Stat? then k.(pass := k.prn, prn := k.pass)
    else if e.DumpEnds? then k.(totals := Unprinted(k.totals, k.prn))
    else if Target(k, e) < |k.totals| then
      k.(totals := k.totals[Target(k, e) := Counted(k.totals[Target(k, e)], Sighted(e).key, e.len)])
    else k
  }

  function NewBook(): Book { Book(seq(BUCKETS, _ => map[]), 0, 256, 512) }

  function After(es: seq<Event>): (k: Book)
    ensures |k.totals| == BUCKETS && Placed(k.pass, k.block, k.prn)
  {
    if es == [] then NewBook() else Next(After(es[..|es| - 1]), es[|es| - 1])
  }

  /** The event is a packet for bucket b. */
  predicate Hits(k: Book, e: Event, b: nat) { e.Packet? && Target(k, e) == b }

  /** The packets for bucket b from event `cut` on, in order. */
  function Landed(es: seq<Event>, b: nat, cut: nat): seq<Sighting> {
    if |es| <= cut then []
    else
      var before, e := es[..|es| - 1], es[|es| - 1];
      Landed(before, b, cut) + if Hits(After(before), e, b) then [Sighted(e)] else []
  }

  /** The event before position cut emptied bucket b (a dump of its table ended, or it was a packet that made it 64
      pairs), or nothing came before. */
  ghost predicate Emptied(es: seq<Event>, b: nat, cut: nat) {
    && b < BUCKETS && cut <= |es|
    && (cut == 0 || Empties(After(es[..cut - 1]), es[cut - 1], b))
  }

  ghost predicate Empties(k: Book, e: Event, b: nat)
    requires b < |k.totals|
  {
    || (e.DumpEnds? && Printed(k, b))
    || (Hits(k, e, b) && |Seen(k.totals[b], Sighted(e).key, e.len)| == BLOCK)
  }

  /** No event from position cut on empties bucket b. */
  ghost predicate Unbroken(es: seq<Event>, b: nat, cut: nat)
    requires b < BUCKETS
  {
    forall j :: cut <= j < |es| ==> !Empties(After(es[..j]), es[j], b)
  }

  /** The counters of a bucket are exactly the totals of the packets for it since the last event that emptied it. */
  ghost predicate CountsSince(es: seq<Event>, b: nat, t: Totals) {
    exists cut: nat :: Emptied(es, b, cut) && Unbroken(es, b, cut) && Exact(t, Landed(es, b, cut))
  }

  lemma EarlierStays(es: seq<Event>, e: Event, b: nat, cut: nat)
    requires Emptied(es, b, cut)
    ensures Emptied(es + [e], b, cut)
    ensures Landed(es + [e], b, cut) == Landed(es, b, cut) + if Hits(After(es), e, b) then [Sighted(e)] else []
  {
    assert (es + [e])[..|es|] == es;
    if cut > 0 {
      assert (es + [e])[..cut - 1] == es[..cut - 1] && (es + [e])[cut - 1] == es[cut - 1];
    }
  }

  /** An event that does not empty the bucket counts at most one more packet. */
  lemma Unemptied(k: Book, e: Event, b: nat)
    requires |k.totals| == BUCKETS && b < BUCKETS && !Empties(k, e, b)
    ensures Next(k, e).totals[b] == if Hits(k, e, b) then Seen(k.totals[b], Sighted(e).key, e.len) else k.totals[b]
  {
  }

  lemma JustEmptied(k: Book, e: Event, b: nat)
    requires |k.totals| == BUCKETS && b < BUCKETS && Empties(k, e, b)
    ensures Next(k, e).totals[b] == map[]
  {
  }

  lemma StaysUnbroken(es: seq<Event>, e: Event, b: nat, cut: nat)
    requires b < BUCKETS && Unbroken(es, b, cut) && !Empties(After(es), e, b)
    ensures Unbroken(es + [e], b, cut)
  {
    forall j | cut <= j < |es + [e]| ensures !Empties(After((es + [e])[..j]), (es + [e])[j], b) {
      assert (es + [e])[..j] == es[..j];
      assert es[..|es|] == es;
    }
  }

  lemma GoesOn(es: seq<Event>, e: Event, b: nat, cut: nat)
    requires Emptied(es, b, cut) && Unbroken(es, b, cut) && Exact(After(es).totals[b], Landed(es, b, cut))
    requires !Empties(After(es), e, b)
    ensures Emptied(es + [e], b, cut) && Unbroken(es + [e], b, cut)
    ensures Exact(Next(After(es), e).totals[b], Landed(es + [e], b, cut))
  {
    EarlierStays(es, e, b, cut);
    StaysUnbroken(es, e, b, cut);
    Unemptied(After(es), e, b);
    if Hits(After(es), e, b) {
      SeenIsExact(After(es).totals[b], Landed(es, b, cut), Sighted(e));
    } else {
      assert Landed(es, b, cut) + [] == Landed(es, b, cut);
    }
  }

  lemma AfterOne(es: seq<Event>, e: Event)
    ensures After(es + [e]) == Next(After(es), e)
  {
    assert (es + [e])[..|es|] == es;
  }

  /** One more event: the bucket goes on counting, or it was emptied just now. */
  lemma NextIsExact(es: seq<Event>, e: Event, b: nat)
    requires b < BUCKETS && CountsSince(es, b, After(es).totals[b])
    ensures CountsSince(es + [e], b, After(es + [e]).totals[b])
  {
    AfterOne(es, e);
    if Empties(After(es), e, b) {
      JustEmptied(After(es), e, b);
      assert (es + [e])[..|es|] == es;
      assert Emptied(es + [e], b, |es| + 1) && Unbroken(es + [e], b, |es| + 1);
      assert Exact(map[], Landed(es + [e], b, |es| + 1));
    } else {
      var cut: nat :| Emptied(es, b, cut) && Unbroken(es, b, cut) && Exact(After(es).totals[b], Landed(es, b, cut));
      GoesOn(es, e, b, cut);
    }
  }

  /** Over any run, the counters of every bucket are exact since it was last emptied. */
  lemma {:induction false} RunIsExact(es: seq<Event>, b: nat)
    requires b < BUCKETS
    ensures CountsSince(es, b, After(es).totals[b])
  {
    if es == [] {
      assert Emptied(es, b, 0) && Unbroken(es, b, 0) && Exact(map[], Landed(es, b, 0));
    } else {
      RunIsExact(es[..|es| - 1], b);
      assert es[..|es| - 1] + [es[|es| - 1]] == es;
      NextIsExact(es[..|es| - 1], es[|es| - 1], b);
    }
  }

  lemma BrokenBy(es: seq<Event>, b: nat, cut: nat, earlier: nat)
    requires Emptied(es, b, cut) && earlier < cut
    ensures !Unbroken(es, b, earlier)
  {
    assert Empties(After(es[..cut - 1]), es[cut - 1], b);
  }

  lemma LastOnce(es: seq<Event>, b: nat, cut: nat, cut': nat)
    requires Emptied(es, b, cut) && Unbroken(es, b, cut) && Emptied(es, b, cut') && Unbroken(es, b, cut')
    ensures cut == cut'
  {
    if cut < cut' {
      BrokenBy(es, b, cut', cut);
    } else if cut' < cut {
      BrokenBy(es, b, cut, cut');
    }
  }

  lemma ExactOnce(t: Totals, t': Totals, ps: seq<Sighting>)
    requires Exact(t, ps) && Exact(t', ps)
    ensures t == t'
  {
    assert forall k :: k in t <==> k in t';
  }

  /** No other counters would do: the last emptying is one event only. */
  lemma CountsOnce(es: seq<Event>, b: nat, t: Totals, t': Totals)
    requires CountsSince(es, b, t) && CountsSince(es, b, t')
    ensures t == t'
  {
    var cut: nat :| Emptied(es, b, cut) && Unbroken(es, b, cut) && Exact(t, Landed(es, b, cut));
    var cut': nat :| Emptied(es, b, cut') && Unbroken(es, b, cut') && Exact(t', Landed(es, b, cut'));
    LastOnce(es, b, cut, cut');
    ExactOnce(t, t', Landed(es, b, cut));
  }

  /** What the counters stand for. */
  ghost function BookOf(st: Stats): Book
    reads st
  {
    Book(st.totals, st.pass, st.block, st.prn)
  }

  lemma NextPacket(k: Book, e: Event)
    requires e.Packet? && Target(k, e) < |k.totals|
    ensures Next(k, e) ==
      k.(totals := k.totals[Target(k, e) := Counted(k.totals[Target(k, e)], Sighted(e).key, e.len)])
  {
  }

  /** A packet that was passed or blocked: keepstat_ip with the table for it. */
  method Observe(st: Stats, e: Event)
    requires st.Valid() && e.Packet?
    modifies st`m, st`totals
    ensures st.Valid() && BookOf(st) == Next(old(BookOf(st)), e)
    ensures TableAt(st.m, st.prn) == TableAt(old(st.m), st.prn)
    ensures e.blocked ==> TableAt(st.m, st.pass) == TableAt(old(st.m), st.pass)
  {
    ghost var m0, k := st.m, BookOf(st);
    var base := if e.blocked then st.block else st.pass;
    st.KeepIp(e.from, e.to, e.len, base);
    NextPacket(k, e);
    SameTable(m0, st.m, st.prn, Target(k, e));
    if e.blocked {
      SameTable(m0, st.m, st.pass, Target(k, e));
    }
  }

  /** The STAT command. */
  method SetAside(st: Stats)
    requires st.Valid()
    modifies st`pass, st`prn
    ensures st.Valid() && BookOf(st) == Next(old(BookOf(st)), Stat)
    ensures TableAt(st.m, st.prn) == TableAt(st.m, old(st.pass)) && TableAt(st.m, st.pass) == TableAt(st.m, old(st.prn))
  {
    st.Swap();
  }

  /** The end of a dump. */
  method EndDump(st: Stats)
    requires st.Valid()
    modifies st`m, st`totals
    ensures st.Valid() && BookOf(st) == Next(old(BookOf(st)), DumpEnds)
    ensures TableAt(st.m, st.prn) == NoEntries()
    ensures TableAt(st.m, st.pass) == TableAt(old(st.m), st.pass)
  {
    st.ClearPrinted();
  }

  method Handle(st: Stats, e: Event)
    requires st.Valid()
    modifies st
    ensures st.Valid() && BookOf(st) == Next(old(BookOf(st)), e)
  {
    if e.Packet? {
      Observe(st, e);
    } else if e.Stat? {
      SetAside(st);
    } else {
      EndDump(st);
    }
  }

  /**
    Any run of keepstat_ip, STAT and ends of dumps.  The counters of every bucket are exactly the totals of the packets
    hashed to it since it was last emptied, and only pairs of its hash are in it.
   */
  method Run(es: seq<Event>) returns (st: Stats)
    ensures fresh(st) && st.Valid() && BookOf(st) == After(es)
    ensures forall b :: 0 <= b < BUCKETS ==> CountsSince(es, b, st.totals[b])
  {
    st := new Stats();
    assert st.totals == NewBook().totals;
    for i := 0 to |es|
      invariant fresh(st) && st.Valid() && BookOf(st) == After(es[..i])
    {
      Handle(st, es[i]);
      assert es[..i + 1][..i] == es[..i];
    }
    assert es[..|es|] == es;
    forall b | 0 <= b < BUCKETS ensures CountsSince(es, b, st.totals[b]) {
      RunIsExact(es, b);
    }
  }
}
