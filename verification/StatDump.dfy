/**
  The resumable dump: write_stat_to_buf fills a buffer with whole lines, and says where to go on.
 */
module StatDump {
  import opened Wrappers

  import F = FtpMessages
  import K = KeepStat

  type Entry = K.Entry
  type Table = t: seq<seq<Entry>> | |t| == 256 witness seq(256, _ => [])

  // ---------------------------------------------------------------- one line

  /** An address word, printed octet by octet as it lies in memory. */
  function Dotted(w: nat): string {
    F.Dec(w % 256) + "." + F.Dec(w / 256 % 256) + "." + F.Dec(w / 0x1_0000 % 256) + "." + F.Dec(w / 0x100_0000 % 256)
  }

  /** The line of an entry; only the low 32 bits of a stored address count. */
  function Line(e: Entry): string {
    Dotted(e.key.from % TWO_TO_32) + "\t" + Dotted(e.key.to % TWO_TO_32) + "\t"
    + F.Dec(e.packets) + "\t" + F.Dec(e.bytes) + "\n"
  }

  lemma OctetLength(n: nat)
    requires n < 256
    ensures |F.Dec(n)| <= 3
  {
    assert F.Pow10(3) == 10 * F.Pow10(2) == 100 * F.Pow10(1) == 1000;
    F.DecWidth(n, 3);
  }

  lemma DottedLength(w: nat)
    ensures |Dotted(w)| <= 15
  {
    OctetLength(w % 256);
    OctetLength(w / 256 % 256);
    OctetLength(w / 0x1_0000 % 256);
    OctetLength(w / 0x100_0000 % 256);
  }

  lemma CounterLength(n: nat)
    requires n < K.TWO_TO_64
    ensures |F.Dec(n)| <= 20
  {
    assert F.Pow10(5) == 10 * F.Pow10(4) == 100 * F.Pow10(3) == 1000 * F.Pow10(2) == 1_0000 * F.Pow10(1) == 10_0000;
    assert F.Pow10(10) == 10 * F.Pow10(9) == 100 * F.Pow10(8) == 1000 * F.Pow10(7)
      == 1_0000 * F.Pow10(6) == 10_0000 * F.Pow10(5);
    assert F.Pow10(15) == 10 * F.Pow10(14) == 100 * F.Pow10(13) == 1000 * F.Pow10(12)
      == 1_0000 * F.Pow10(11) == 10_0000 * F.Pow10(10);
    assert F.Pow10(20) == 10 * F.Pow10(19) == 100 * F.Pow10(18) == 1000 * F.Pow10(17)
      == 1_0000 * F.Pow10(16) == 10_0000 * F.Pow10(15);
    F.DecWidth(n, 20);
  }

  predicate Counters(e: Entry) { e.packets < K.TWO_TO_64 && e.bytes < K.TWO_TO_64 }

  /** No line is longer than 74 characters. */
  lemma LineLength(e: Entry)
    requires Counters(e)
    ensures |Line(e)| <= 74
  {
    DottedLength(e.key.from % TWO_TO_32);
    DottedLength(e.key.to % TWO_TO_32);
    CounterLength(e.packets);
    CounterLength(e.bytes);
  }

  // ---------------------------------------------------------------- all lines

  type Format = Entry -> string

  /** One line per entry, in order. */
  function Lines(f: Format, es: seq<Entry>): string {
    if es == [] then "" else Lines(f, es[..|es| - 1]) + f(es[|es| - 1])
  }

  /** The entries of all buckets from bn on. */
  function From(t: seq<seq<Entry>>, bn: nat): seq<Entry>
    decreases |t| - bn
  {
    if bn >= |t| then [] else t[bn] + From(t, bn + 1)
  }

  /** The entries from entry bi of bucket bn on. */
  function Remaining(t: seq<seq<Entry>>, bn: nat, bi: nat): seq<Entry> {
    if bn < |t| && bi <= |t[bn]| then t[bn][bi..] + From(t, bn + 1) else []
  }

  lemma Assoc(a: seq<Entry>, b: seq<Entry>, c: seq<Entry>)
    ensures a + (b + c) == (a + b) + c
  {
  }

  lemma Chars(a: string, b: string, c: string)
    ensures a + (b + c) == (a + b) + c
  {
  }

  lemma LinesPush(f: Format, b: seq<Entry>, lo: nat, hi: nat)
    requires lo <= hi < |b|
    ensures Lines(f, b[lo..hi + 1]) == Lines(f, b[lo..hi]) + f(b[hi])
  {
    assert b[lo..hi + 1][..hi - lo] == b[lo..hi];
  }

  lemma SplitBucket(t: seq<seq<Entry>>, bn: nat, lo: nat, hi: nat)
    requires bn < |t| && lo <= hi <= |t[bn]|
    ensures Remaining(t, bn, lo) == t[bn][lo..hi] + Remaining(t, bn, hi)
    ensures hi < |t[bn]| ==> Remaining(t, bn, hi) != [] && Remaining(t, bn, hi)[0] == t[bn][hi]
  {
    assert t[bn][lo..] == t[bn][lo..hi] + t[bn][hi..];
    Assoc(t[bn][lo..hi], t[bn][hi..], From(t, bn + 1));
  }

  lemma NextBucket(t: seq<seq<Entry>>, bn: nat)
    requires bn < |t|
    ensures Remaining(t, bn, |t[bn]|) == Remaining(t, bn + 1, 0)
  {
    assert t[bn][|t[bn]|..] == [];
    if bn + 1 < |t| {
      assert t[bn + 1][0..] == t[bn + 1];
    }
  }

  lemma {:induction false} LinesConcat(f: Format, a: seq<Entry>, b: seq<Entry>)
    ensures Lines(f, a + b) == Lines(f, a) + Lines(f, b)
  {
    if b == [] {
      assert a + b == a;
    } else {
      var c := b[..|b| - 1];
      assert (a + b)[..|a + b| - 1] == a + c;
      LinesConcat(f, a, c);
    }
  }

  /** The inner loop: the lines of one bucket, as far as they fit. */
  method WriteBucket(f: Format, b: seq<Entry>, buf0: string, lo: nat, bufsize: nat) returns (buf: string, hi: nat)
    requires lo <= |b| && |buf0| <= bufsize
    ensures lo <= hi <= |b| && buf == buf0 + Lines(f, b[lo..hi]) && |buf| <= bufsize
    ensures hi < |b| ==> |buf| + |f(b[hi])| >= bufsize
  {
    buf, hi := buf0, lo;
    while hi < |b|
      invariant lo <= hi <= |b| && buf == buf0 + Lines(f, b[lo..hi]) && |buf| <= bufsize
    {
      var line := f(b[hi]);
      if |line| >= bufsize - |buf| {
        break;
      }
      LinesPush(f, b, lo, hi);
      Chars(buf0, Lines(f, b[lo..hi]), line);
      buf := buf + line;
      hi := hi + 1;
    }
  }

  /** The lines of entries lo to hi of a bucket follow those already written. */
  lemma Advanced(f: Format, t: Table, start: string, all: seq<Entry>, was: seq<Entry>, bn: nat, lo: nat, hi: nat,
                 buf: string)
    requires bn < 256 && lo <= hi <= |t[bn]| && all == was + Remaining(t, bn, lo)
    requires buf == (start + Lines(f, was)) + Lines(f, t[bn][lo..hi])
    ensures all == (was + t[bn][lo..hi]) + Remaining(t, bn, hi) && buf == start + Lines(f, was + t[bn][lo..hi])
    ensures if hi == |t[bn]| then Remaining(t, bn, hi) == Remaining(t, bn + 1, 0)
            else Remaining(t, bn, hi) != [] && Remaining(t, bn, hi)[0] == t[bn][hi]
  {
    SplitBucket(t, bn, lo, hi);
    Assoc(was, t[bn][lo..hi], Remaining(t, bn, hi));
    LinesConcat(f, was, t[bn][lo..hi]);
    Chars(start, Lines(f, was), Lines(f, t[bn][lo..hi]));
    if hi == |t[bn]| {
      NextBucket(t, bn);
    }
  }

  /**
    write_stat_to_buf.  The buffer gets whole lines for the next entries; it stops before the first line that does
    not fit, or when there are no entries left, and then it starts over.
   */
  method WriteStat(f: Format, t: Table, buf0: string, bn0: nat, bi0: nat, bufsize: nat)
    returns (buf: string, bn: nat, bi: nat, more: bool, ghost done: seq<Entry>)
    requires bn0 < 256 && bi0 <= |t[bn0]| && |buf0| <= bufsize
    ensures buf == buf0 + Lines(f, done) && |buf| <= bufsize && bn < 256 && bi <= |t[bn]|
    ensures Remaining(t, bn0, bi0) == done + if more then Remaining(t, bn, bi) else []
    ensures !more ==> bn == 0 && bi == 0
    ensures more ==> Remaining(t, bn, bi) != [] && |buf| + |f(Remaining(t, bn, bi)[0])| >= bufsize
  {
    buf, bn, bi, done := buf0, bn0, bi0, [];
    ghost var all := Remaining(t, bn0, bi0);
    while bn < 256
      invariant bn <= 256 && (if bn < 256 then bi <= |t[bn]| else bi == 0)
      invariant buf == buf0 + Lines(f, done) && |buf| <= bufsize
      invariant all == done + Remaining(t, bn, bi)
      decreases 256 - bn
    {
      ghost var lo: nat := bi;
      buf, bi := WriteBucket(f, t[bn], buf, bi, bufsize);
      Advanced(f, t, buf0, all, done, bn, lo, bi, buf);
      done := done + t[bn][lo..bi];
      if bi == |t[bn]| {
        bi := 0;
        bn := bn + 1;
      } else {
        return buf, bn, bi, true, done;
      }
    }
    bn, more := 0, false;
  }

  ghost predicate AllFit(f: Format, es: seq<Entry>, bufsize: nat) {
    forall i :: 0 <= i < |es| ==> |f(es[i])| < bufsize
  }

  /** One piece of a dump: `rest` was still to come, `done` is in this piece, `rest'` is left. */
  lemma Piece(f: Format, all: seq<Entry>, emitted: seq<Entry>, rest: seq<Entry>, done: seq<Entry>, rest': seq<Entry>,
              out: string, bufsize: nat, stuck: bool)
    requires all == emitted + rest && rest == done + rest' && out == Lines(f, emitted) && AllFit(f, all, bufsize)
    requires stuck ==> rest' != [] && |Lines(f, done)| + |f(rest'[0])| >= bufsize
    ensures all == (emitted + done) + rest' && out + Lines(f, done) == Lines(f, emitted + done)
    ensures stuck ==> done != []
  {
    Assoc(emitted, done, rest');
    LinesConcat(f, emitted, done);
    if stuck {
      assert rest'[0] == all[|emitted| + |done|];
    }
  }

  /** However often the dump is interrupted by a full buffer, the pieces together are the lines of all entries,
      once each and in order; and it does not take forever if every line fits an empty buffer. */
  method WholeDump(f: Format, t: Table, bufsize: nat) returns (out: string)
    requires AllFit(f, Remaining(t, 0, 0), bufsize)
    ensures out == Lines(f, Remaining(t, 0, 0))
  {
    ghost var all, emitted := Remaining(t, 0, 0), [];
    var bn: nat, bi: nat, more := 0, 0, true;
    ghost var rest := all;
    out := "";
    while more
      invariant bn < 256 && bi <= |t[bn]| && out == Lines(f, emitted) && all == emitted + rest
      invariant rest == if more then Remaining(t, bn, bi) else []
      decreases more, |rest|
    {
      var buf;
      ghost var done, was := [], rest;
      buf, bn, bi, more, done := WriteStat(f, t, "", bn, bi, bufsize);
      assert "" + Lines(f, done) == Lines(f, done);
      rest := if more then Remaining(t, bn, bi) else [];
      Piece(f, all, emitted, was, done, rest, out, bufsize, more);
      emitted := emitted + done;
      out := out + buf;
    }
    assert emitted + [] == emitted;
  }

  /** So the server's buffer of 32768 characters is large enough for every dump. */
  lemma BufferSuffices(t: Table)
    requires forall i :: 0 <= i < |Remaining(t, 0, 0)| ==> Counters(Remaining(t, 0, 0)[i])
    ensures AllFit(Line, Remaining(t, 0, 0), 32768)
  {
    var es := Remaining(t, 0, 0);
    forall i | 0 <= i < |es| ensures |Line(es[i])| < 32768 {
      LineLength(es[i]);
    }
  }
}
