/**
  What a client can read from a dump: the text gives back every pair of addresses with its packets and bytes.
 */
module StatText {
  import opened Wrappers
  import opened StatDump
  import F = FtpMessages
  import K = KeepStat

  // ---------------------------------------------------------------- reading

  /** A number, and the character that ends it. */
  datatype Field = Field(number: nat, stop: char)

  /** The numbers of a text, each with the character behind it, up to where no number follows. */
  ghost function Fields(s: string): (r: seq<Field>)
    decreases |s|
  {
    if !F.Numbered(s) then []
    else
      var n := F.DigitCount(s);
      [Field(F.Numeral(s[..n]), s[n])] + Fields(s[n + 1..])
  }

  /** A line as a client understands it: two addresses, packets and bytes. */
  datatype Account = Account(from: nat, to: nat, packets: nat, bytes: nat)

  /** Four octets between dots, the first one lowest in memory; `last` stands behind them. */
  predicate IsAddress(f: seq<Field>, last: char) {
    && |f| == 4 && (forall i :: 0 <= i < 4 ==> f[i].number < 0x100)
    && f[0].stop == f[1].stop == f[2].stop == '.' && f[3].stop == last
  }

  function AddressOf(f: seq<Field>): nat
    requires |f| == 4
  {
    f[0].number + 0x100 * (f[1].number + 0x100 * (f[2].number + 0x100 * f[3].number))
  }

  /** Ten numbers that make a line: tabs between the columns, and a newline at the end. */
  predicate IsLine(f: seq<Field>) {
    && |f| == 10 && IsAddress(f[..4], '\t') && IsAddress(f[4..8], '\t')
    && f[8].stop == '\t' && f[9].stop == '\n'
  }

  /** Line after line, as long as they are lines. */
  function Accounts(f: seq<Field>): seq<Account>
    decreases |f|
  {
    if |f| < 10 || !IsLine(f[..10]) then []
    else [Account(AddressOf(f[..4]), AddressOf(f[4..8]), f[8].number, f[9].number)] + Accounts(f[10..])
  }

  ghost function Reading(text: string): seq<Account> { Accounts(Fields(text)) }

  // ---------------------------------------------------------------- one line

  /** What the line of an entry is to say. */
  function AccountOf(e: Entry): Account {
    Account(e.key.from % TWO_TO_32, e.key.to % TWO_TO_32, e.packets, e.bytes)
  }

  lemma {:induction false} CountDigits(a: string, c: char, rest: string)
    requires F.Digits(a) && !F.IsDigit(c)
    ensures F.DigitCount(a + ([c] + rest)) == |a|
  {
    var s := a + ([c] + rest);
    if a == [] {
      assert s[0] == c;
    } else {
      assert s[0] == a[0] && s[1..] == a[1..] + ([c] + rest);
      CountDigits(a[1..], c, rest);
    }
  }

  lemma Parts(a: string, c: char, rest: string)
    ensures var s := a + ([c] + rest);
            |s| > |a| && s[..|a|] == a && s[|a|] == c && s[|a| + 1..] == rest
  {
  }

  /** A number in decimal digits. */
  ghost predicate Writes(a: string, n: nat) { a != "" && F.Digits(a) && F.Numeral(a) == n }

  lemma FirstField(a: string, n: nat, c: char, rest: string)
    requires Writes(a, n) && !F.IsDigit(c)
    ensures Fields(a + ([c] + rest)) == [Field(n, c)] + Fields(rest)
  {
    CountDigits(a, c, rest);
    Parts(a, c, rest);
    assert F.Numbered(a + ([c] + rest));
  }

  lemma TwoFields(a: string, b: string, m: nat, n: nat, x: char, y: char, rest: string)
    requires Writes(a, m) && Writes(b, n) && !F.IsDigit(x) && !F.IsDigit(y)
    ensures Fields(a + ([x] + (b + ([y] + rest)))) == [Field(m, x), Field(n, y)] + Fields(rest)
  {
    FirstField(b, n, y, rest);
    FirstField(a, m, x, b + ([y] + rest));
  }

  /** The four octets of a word, and what they make. */
  function Octets(w: nat, last: char): seq<Field> {
    [Field(w % 256, '.'), Field(w / 256 % 256, '.'), Field(w / 0x1_0000 % 256, '.'), Field(w / 0x100_0000 % 256, last)]
  }

  lemma OctetsAreAddress(w: nat, last: char)
    requires w < TWO_TO_32
    ensures IsAddress(Octets(w, last), last) && AddressOf(Octets(w, last)) == w
  {
    var a := w / 256;
    var b := a / 256;
    assert w / 0x1_0000 == b && w / 0x100_0000 == b / 256;
    assert w == w % 256 + 256 * a && a == a % 256 + 256 * b && b == b % 256 + 256 * (b / 256);
  }

  /** Four columns, each with what ends it. */
  lemma Columns(a: string, x: string, b: string, y: string, c: string, z: string, d: string, l: string, rest: string)
    ensures a + x + b + y + c + z + d + (l + rest) == a + (x + (b + (y + (c + (z + (d + (l + rest)))))))
    ensures a + x + b + y + c + z + d + l + rest == a + x + b + y + c + z + d + (l + rest)
  {
    Chars(a, x, b + (y + (c + (z + (d + (l + rest))))));
    Chars(a + x, b, y + (c + (z + (d + (l + rest)))));
    Chars(a + x + b, y, c + (z + (d + (l + rest))));
    Chars(a + x + b + y, c, z + (d + (l + rest)));
    Chars(a + x + b + y + c, z, d + (l + rest));
    Chars(a + x + b + y + c + z, d, l + rest);
    Chars(a + x + b + y + c + z + d, l, rest);
  }

  /** Four octets in a row. */
  lemma FourOctets(a: string, b: string, c: string, d: string, w: nat, last: char, rest: string)
    requires Writes(a, w % 256) && Writes(b, w / 256 % 256) && Writes(c, w / 0x1_0000 % 256)
    requires Writes(d, w / 0x100_0000 % 256) && !F.IsDigit(last)
    ensures Fields(a + (['.'] + (b + (['.'] + (c + (['.'] + (d + ([last] + rest)))))))) ==
      Octets(w, last) + Fields(rest)
  {
    var i, j, k, l := w % 256, w / 256 % 256, w / 0x1_0000 % 256, w / 0x100_0000 % 256;
    TwoFields(c, d, k, l, '.', last, rest);
    TwoFields(a, b, i, j, '.', '.', c + (['.'] + (d + ([last] + rest))));
    Joined(Field(i, '.'), Field(j, '.'), Field(k, '.'), Field(l, last), Fields(rest));
  }

  lemma Joined(a: Field, b: Field, c: Field, d: Field, rest: seq<Field>)
    ensures [a, b] + ([c, d] + rest) == [a, b, c, d] + rest
  {
  }

  lemma DottedReads(w: nat, last: char, rest: string)
    requires !F.IsDigit(last)
    ensures Fields(Dotted(w) + ([last] + rest)) == Octets(w, last) + Fields(rest)
  {
    var a, b := F.Dec(w % 256), F.Dec(w / 256 % 256);
    var c, d := F.Dec(w / 0x1_0000 % 256), F.Dec(w / 0x100_0000 % 256);
    F.DecReads(w % 256);
    F.DecReads(w / 256 % 256);
    F.DecReads(w / 0x1_0000 % 256);
    F.DecReads(w / 0x100_0000 % 256);
    Columns(a, ".", b, ".", c, ".", d, [last], rest);
    FourOctets(a, b, c, d, w, last, rest);
  }

  /** The fields of a line. */
  lemma LineReads(e: Entry, rest: string)
    ensures Fields(Line(e) + rest) ==
      Octets(e.key.from % TWO_TO_32, '\t') + (Octets(e.key.to % TWO_TO_32, '\t') +
      ([Field(e.packets, '\t'), Field(e.bytes, '\n')] + Fields(rest)))
  {
    var a, b, p, y := e.key.from % TWO_TO_32, e.key.to % TWO_TO_32, F.Dec(e.packets), F.Dec(e.bytes);
    Columns(Dotted(a), "\t", Dotted(b), "\t", p, "\t", y, "\n", rest);
    F.DecReads(e.packets);
    F.DecReads(e.bytes);
    TwoFields(p, y, e.packets, e.bytes, '\t', '\n', rest);
    DottedReads(b, '\t', p + ("\t" + (y + ("\n" + rest))));
    DottedReads(a, '\t', Dotted(b) + ("\t" + (p + ("\t" + (y + ("\n" + rest))))));
  }

  /** The line of an entry is read as its two addresses, its packets and its bytes, whatever follows. */
  lemma LineTells(e: Entry, rest: string)
    ensures Reading(Line(e) + rest) == [AccountOf(e)] + Reading(rest)
  {
    var a, b := Octets(e.key.from % TWO_TO_32, '\t'), Octets(e.key.to % TWO_TO_32, '\t');
    var f := Fields(Line(e) + rest);
    LineReads(e, rest);
    OctetsAreAddress(e.key.from % TWO_TO_32, '\t');
    OctetsAreAddress(e.key.to % TWO_TO_32, '\t');
    assert f[..4] == a && f[4..8] == b && f[10..] == Fields(rest);
    assert f[..10][..4] == a && f[..10][4..8] == b;
  }

  /** Two stored words with the same low half are the same. */
  lemma LowHalfTells(a: nat, b: nat)
    requires K.IsWord(a) && K.IsWord(b) && a % TWO_TO_32 == b % TWO_TO_32
    ensures a == b
  {
    K.TruncatedDifference(a, b);
  }

  lemma AccountTells(e: Entry, e': Entry)
    requires K.Stored(e.key) && K.Stored(e'.key) && AccountOf(e) == AccountOf(e')
    ensures e == e'
  {
    LowHalfTells(e.key.from, e'.key.from);
    LowHalfTells(e.key.to, e'.key.to);
  }

  /** No two stored entries share a line. */
  lemma LineIsUnique(e: Entry, e': Entry)
    requires K.Stored(e.key) && K.Stored(e'.key) && Line(e) == Line(e')
    ensures e == e'
  {
    assert Line(e) + "" == Line(e') + "";
    LineTells(e, "");
    LineTells(e', "");
    assert ([AccountOf(e)] + Reading(""))[0] == ([AccountOf(e')] + Reading(""))[0];
    AccountTells(e, e');
  }

  // ---------------------------------------------------------------- a whole dump

  function AccountsOf(es: seq<Entry>): (r: seq<Account>)
    ensures |r| == |es| && forall i :: 0 <= i < |es| ==> r[i] == AccountOf(es[i])
  {
    seq(|es|, i requires 0 <= i < |es| => AccountOf(es[i]))
  }

  lemma FrontLine(es: seq<Entry>)
    requires es != []
    ensures Lines(Line, es) == Line(es[0]) + Lines(Line, es[1..])
  {
    var e, rest := es[0], es[1..];
    assert es == [e] + rest;
    LinesConcat(Line, [e], rest);
    LinesPush(Line, [e], 0, 0);
    assert [e][0..1] == [e] && [e][0..0] == [];
    assert "" + Line(e) == Line(e);
  }

  lemma FrontAccount(es: seq<Entry>)
    requires es != []
    ensures AccountsOf(es) == [AccountOf(es[0])] + AccountsOf(es[1..])
  {
  }

  /** The text of a dump is read as one account for each entry, in order. */
  lemma {:induction false} TextTells(es: seq<Entry>)
    ensures Reading(Lines(Line, es)) == AccountsOf(es)
  {
    if es == [] {
      assert Reading("") == [];
    } else {
      FrontLine(es);
      FrontAccount(es);
      LineTells(es[0], Lines(Line, es[1..]));
      TextTells(es[1..]);
    }
  }

  /** Two tables of stored entries with the same text have the same entries. */
  lemma TextIsUnique(es: seq<Entry>, es': seq<Entry>)
    requires forall i :: 0 <= i < |es| ==> K.Stored(es[i].key)
    requires forall i :: 0 <= i < |es'| ==> K.Stored(es'[i].key)
    requires Lines(Line, es) == Lines(Line, es')
    ensures es == es'
  {
    TextTells(es);
    TextTells(es');
    forall i | 0 <= i < |es| ensures es[i] == es'[i] {
      assert AccountsOf(es)[i] == AccountsOf(es')[i];
      AccountTells(es[i], es'[i]);
    }
  }

  // ---------------------------------------------------------------- the counters of a moment

  /** Only stored pairs are counted, each in the bucket of its hash. */
  ghost predicate Pairs(totals: seq<K.Totals>) {
    forall b, k :: 0 <= b < |totals| && k in totals[b] ==> K.Stored(k) && K.HashOf(k) == b % 256
  }

  lemma NextPairs(k: K.Book, e: K.Event)
    requires Pairs(k.totals) && K.Placed(k.pass, k.block, k.prn)
    ensures Pairs(K.Next(k, e).totals)
  {
    if e.Packet? && K.Target(k, e) < |k.totals| {
      var at, p, totals' := K.Target(k, e), K.Sighted(e).key, K.Next(k, e).totals;
      K.HashOfStored(e.from, e.to);
      K.OffsetKept(if e.blocked then k.block else k.pass, K.BucketOf(e.from, e.to));
      forall b, x | 0 <= b < |totals'| && x in totals'[b] ensures K.Stored(x) && K.HashOf(x) == b % 256 {
        if b != at || x != p {
          assert x in k.totals[b];
        }
      }
    }
  }

  lemma {:induction false} PairsStay(es: seq<K.Event>)
    ensures Pairs(K.After(es).totals)
  {
    if es != [] {
      PairsStay(es[..|es| - 1]);
      NextPairs(K.After(es[..|es| - 1]), es[|es| - 1]);
    }
  }

  /** The pair of two address words, as it is stored. */
  function PairOf(from: K.Word, to: K.Word): K.Key { K.Key(K.SignExtend(from), K.SignExtend(to)) }

  lemma {:induction false} EntryPlace(t: Table, bn: nat, b: nat, i: nat) returns (n: nat)
    requires bn <= b < 256 && i < |t[b]|
    ensures n < |From(t, bn)| && From(t, bn)[n] == t[b][i]
    decreases 256 - bn
  {
    if bn == b {
      n := i;
    } else {
      var m := EntryPlace(t, bn + 1, b, i);
      n := |t[bn]| + m;
    }
  }

  lemma {:induction false} EntryOrigin(t: Table, bn: nat, n: nat) returns (b: nat, i: nat)
    requires bn <= 256 && n < |From(t, bn)|
    ensures bn <= b < 256 && i < |t[b]| && From(t, bn)[n] == t[b][i]
    decreases 256 - bn
  {
    if n < |t[bn]| {
      b, i := bn, n;
    } else {
      b, i := EntryOrigin(t, bn + 1, n - |t[bn]|);
    }
  }

  lemma WholeTable(t: Table)
    ensures Remaining(t, 0, 0) == From(t, 0)
  {
    assert t[0][0..] == t[0];
  }

  /** The table read from the text has the pair with these counters. */
  ghost predicate Reports(text: string, from: K.Word, to: K.Word, t: K.Total) {
    Account(from, to, t.packets, t.bytes) in Reading(text)
  }

  lemma Reported(t: Table, totals: seq<K.Totals>, base: nat, from: K.Word, to: K.Word)
    requires base in {0, 256, 512} && |totals| == K.BUCKETS && Pairs(totals)
    requires forall b :: 0 <= b < 256 ==> K.Holds(t[b], totals[base + b])
    ensures var k, h := PairOf(from, to), base + K.BucketOf(from, to);
      forall u: K.Total ::
        Reports(Lines(Line, Remaining(t, 0, 0)), from, to, u) <==> k in totals[h] && totals[h][k] == u
  {
    var k, b := PairOf(from, to), K.BucketOf(from, to);
    TextTells(Remaining(t, 0, 0));
    WholeTable(t);
    forall u: K.Total
      ensures Reports(Lines(Line, Remaining(t, 0, 0)), from, to, u) <==>
              k in totals[base + b] && totals[base + b][k] == u
    {
      if k in totals[base + b] && totals[base + b][k] == u {
        Told(t, totals, base, from, to, u);
      }
      if Reports(Lines(Line, Remaining(t, 0, 0)), from, to, u) {
        Meant(t, totals, base, from, to, u);
      }
    }
  }

  lemma Told(t: Table, totals: seq<K.Totals>, base: nat, from: K.Word, to: K.Word, u: K.Total)
    requires base in {0, 256, 512} && |totals| == K.BUCKETS && Pairs(totals)
    requires var b := K.BucketOf(from, to); K.Holds(t[b], totals[base + b])
    requires var h := base + K.BucketOf(from, to); PairOf(from, to) in totals[h] && totals[h][PairOf(from, to)] == u
    ensures Account(from, to, u.packets, u.bytes) in AccountsOf(From(t, 0))
  {
    var b := K.BucketOf(from, to);
    var i :| 0 <= i < |t[b]| && t[b][i].key == PairOf(from, to);
    var n := EntryPlace(t, 0, b, i);
    assert AccountsOf(From(t, 0))[n] == AccountOf(t[b][i]);
    LowHalf(from);
    LowHalf(to);
  }

  lemma LowHalf(w: K.Word)
    ensures K.SignExtend(w) % TWO_TO_32 == w && K.IsWord(K.SignExtend(w))
  {
  }

  lemma Meant(t: Table, totals: seq<K.Totals>, base: nat, from: K.Word, to: K.Word, u: K.Total)
    requires base in {0, 256, 512} && |totals| == K.BUCKETS && Pairs(totals)
    requires forall b :: 0 <= b < 256 ==> K.Holds(t[b], totals[base + b])
    requires Account(from, to, u.packets, u.bytes) in AccountsOf(From(t, 0))
    ensures var h := base + K.BucketOf(from, to);
            PairOf(from, to) in totals[h] && totals[h][PairOf(from, to)] == u
  {
    var n :| 0 <= n < |From(t, 0)| && AccountsOf(From(t, 0))[n] == Account(from, to, u.packets, u.bytes);
    var b, i := EntryOrigin(t, 0, n);
    var e := t[b][i];
    assert K.Holds(t[b], totals[base + b]) && e.key in totals[base + b];
    assert K.Stored(e.key) && K.HashOf(e.key) == (base + b) % 256;
    assert AccountOf(e) == Account(from, to, u.packets, u.bytes);
    LowHalf(from);
    LowHalf(to);
    LowHalfTells(e.key.from, K.SignExtend(from));
    LowHalfTells(e.key.to, K.SignExtend(to));
    K.HashOfStored(from, to);
    K.OffsetKept(base, b);
  }
}
