/**
  Incremental Internet checksums (section 2 of RFC 1071, section 3 of RFC 1624).  Words are 16-bit
  values in network order; a checksum field is right when the sum of all covered words, itself
  included, is a multiple of 65535.
 */
module Checksum {

  type Word = w: nat | w < 0x1_0000
  type Dword = d: nat | d < 0x1_0000_0000

  /** Equal as one's-complement sums. */
  predicate Cong(x: int, y: int) { (x - y) % 65535 == 0 }

  lemma CongTrans(x: int, y: int, z: int)
    requires Cong(x, y) && Cong(y, z)
    ensures Cong(x, z) && Cong(z, x)
  {
  }

  /** The sum of the two words of an address, a sequence number or an acknowledgment. */
  function Words(d: Dword): (s: nat)
    ensures s <= 131070
  {
    d / 0x1_0000 + d % 0x1_0000
  }

  lemma WordsCong(d: Dword)
    ensures Cong(Words(d), d)
  {
  }

  /** Reading words in the other byte order multiplies every sum by 256, so nothing here depends on it. */
  lemma SwapIsScaling(w: Word)
    ensures Cong((w % 0x100) * 0x100 + w / 0x100, 0x100 * w)
  {
    var hi, lo := w / 0x100, w % 0x100;
    assert w == 0x100 * hi + lo;
    assert lo * 0x100 + hi - 0x100 * w == -65535 * hi;
  }

  /** acc = (acc >> 16) + (acc & 0xffff); acc += acc >> 16; and the low half of it. */
  function Fold(acc: nat): (w: Word)
    requires acc < 0x8000_0000
    ensures Cong(w, acc)
    ensures w == 0 <==> acc == 0
  {
    var a := acc / 0x1_0000 + acc % 0x1_0000;
    (a + a / 0x1_0000) % 0x1_0000
  }

  /** The checksum field after the accumulated change: what ADJUST_CHECKSUM leaves behind. */
  function Adjusted(acc: int, cksum: Word): (r: Word)
    requires -0x8000_0000 < acc + cksum < 0x8000_0000
    ensures Cong(r, acc + cksum)
  {
    var sum := acc + cksum;
    if sum < 0 then CongNegate(Fold(-sum), -sum); 65535 - Fold(-sum) else Fold(sum)
  }

  lemma CongNegate(x: int, y: int)
    requires Cong(x, y)
    ensures Cong(65535 - x, -y)
  {
  }

  lemma CongFlip(x: int)
    ensures Cong(x, 0) <==> Cong(-x, 0)
  {
  }

  /** Exactly when an adjusted checksum comes out as zero. */
  lemma AdjustedIsZero(acc: int, cksum: Word)
    requires -0x8000_0000 < acc + cksum < 0x8000_0000
    ensures Adjusted(acc, cksum) == 0 <==> acc + cksum <= 0 && Cong(acc + cksum, 0)
  {
    var sum := acc + cksum;
    if sum < 0 {
      NegatedFoldIsZero(-sum);
      CongFlip(sum);
    }
  }

  /** A nonzero checksum can come out as zero, which for UDP means no checksum. */
  lemma NonzeroCanVanish()
    ensures Adjusted(-1, 1) == 0 && Adjusted(-65536, 1) == 0
  {
    AdjustedIsZero(-1, 1);
    AdjustedIsZero(-65536, 1);
    CongFlip(65535);
  }

  lemma NegatedFoldIsZero(n: nat)
    requires 0 < n < 0x8000_0000
    ensures 65535 - Fold(n) == 0 <==> Cong(n, 0)
  {
    var f := Fold(n);
    assert 0 < f <= 65535;
    assert Cong(f, 0) <==> f == 65535;
    if Cong(n, 0) {
      CongTrans(f, n, 0);
    }
    if f == 65535 {
      assert Cong(n, f) by { CongTrans(f, n, n); }
      CongTrans(n, f, 0);
    }
  }

  /** The folding both update routines end with. */
  method FoldSigned(acc0: int) returns (cksum: Word)
    requires -0x8000_0000 < acc0 < 0x8000_0000
    ensures cksum == Adjusted(acc0, 0)
  {
    var acc := acc0;
    if acc < 0 {
      acc := -acc;
      acc := acc / 0x1_0000 + acc % 0x1_0000;
      acc := acc + acc / 0x1_0000;
      cksum := 65535 - acc % 0x1_0000;
    } else {
      acc := acc / 0x1_0000 + acc % 0x1_0000;
      acc := acc + acc / 0x1_0000;
      cksum := acc % 0x1_0000;
    }
  }

  /** The ADJUST_CHECKSUM macro: two folds are enough for every accumulator a caller can build up. */
  method AdjustChecksum(acc: int, cksum0: Word) returns (cksum: Word)
    requires -0x8000_0000 < acc + cksum0 < 0x8000_0000
    ensures cksum == Adjusted(acc, cksum0)
  {
    cksum := FoldSigned(acc + cksum0);
  }

  /** Subtracting the new words and adding the old ones keeps the covered sum, whatever else is covered. */
  lemma AdjustKeepsSum(rest: int, old': int, new': int, cksum: Word)
    requires -0x8000_0000 < old' - new' + cksum < 0x8000_0000
    ensures Cong(rest + new' + Adjusted(old' - new', cksum), rest + old' + cksum)
  {
  }

  function Sum(ws: seq<Word>): (s: nat)
    ensures s <= 65535 * |ws|
  {
    if ws == [] then 0 else Sum(ws[..|ws| - 1]) + ws[|ws| - 1]
  }

  /** DifferentialChecksum over n words. */
  method DifferentialChecksum(cksum0: Word, new': seq<Word>, old': seq<Word>) returns (cksum: Word)
    requires |new'| == |old'| <= 0x4000
    ensures cksum == Adjusted(Sum(old') - Sum(new'), cksum0)
  {
    var accumulate: int := cksum0;
    for i := 0 to |new'|
      invariant accumulate == cksum0 + Sum(old'[..i]) - Sum(new'[..i])
    {
      accumulate := accumulate - new'[i];
      accumulate := accumulate + old'[i];
      assert new'[..i + 1][..i] == new'[..i] && old'[..i + 1][..i] == old'[..i];
    }
    assert new'[..|new'|] == new' && old'[..|new'|] == old';
    cksum := FoldSigned(accumulate);
  }

  function WordSeq(d: Dword): seq<Word> { [d / 0x1_0000, d % 0x1_0000] }

  lemma SumWords(d: Dword)
    ensures Sum(WordSeq(d)) == Words(d)
  {
    var ws := WordSeq(d);
    assert ws[..1] == [d / 0x1_0000];
    assert ws[..1][..0] == [];
  }

  type Byte = b: nat | b < 0x100

  /** The words of a block of bytes; an odd last byte is the high half of one more word. */
  function WordsOf(bs: seq<Byte>): (ws: seq<Word>)
    ensures |ws| == (|bs| + 1) / 2
  {
    seq((|bs| + 1) / 2, k requires 0 <= k < (|bs| + 1) / 2 =>
      Pair(bs[2 * k], if 2 * k + 1 < |bs| then bs[2 * k + 1] else 0))
  }

  function Pair(hi: Byte, lo: Byte): Word {
    var h: nat := hi;
    h * 0x100 + lo
  }

  /** Folding and complementing a sum makes up what it lacks to a multiple of 65535. */
  function Complement(n: nat): (c: Word)
    requires n < 0x8000_0000
    ensures Cong(n + c, 0)
  {
    var f := Fold(n);
    assert n + (65535 - f) == (n - f) + 65535;
    65535 - f
  }

  lemma SumInRange(ws: seq<Word>)
    requires |ws| <= 0x8000
    ensures Sum(ws) < 0x8000_0000
  {
    assert 65535 * |ws| <= 65535 * 0x8000;
  }

  /** The from-scratch checksum of a block of words makes the covered sum a multiple of 65535. */
  function InternetChecksum(ws: seq<Word>): (c: Word)
    requires |ws| <= 0x8000
    ensures Cong(Sum(ws) + c, 0)
  {
    SumInRange(ws);
    Complement(Sum(ws))
  }

  /** The loop over pairs of bytes; an odd last byte is left. */
  method AddPairs(bs: seq<Byte>) returns (sum: nat, at: nat)
    requires |bs| <= 0x1_0000
    ensures at == |bs| - |bs| % 2 && sum == Sum(WordsOf(bs)[..at / 2])
  {
    sum, at := 0, 0;
    var nbytes := |bs|;
    ghost var ws, i := WordsOf(bs), 0;
    while nbytes > 1
      invariant at == 2 * i && nbytes == |bs| - at >= 0 && i <= |ws|
      invariant sum == Sum(ws[..i])
      decreases nbytes
    {
      assert ws[..i + 1][..i] == ws[..i];
      sum := sum + Pair(bs[at], bs[at + 1]);
      at, nbytes, i := at + 2, nbytes - 2, i + 1;
    }
    assert |bs| % 2 == nbytes && at / 2 == i;
  }

  /** PacketAliasInternetChecksum */
  method ComputeChecksum(bs: seq<Byte>) returns (c: Word)
    requires |bs| <= 0x1_0000
    ensures c == InternetChecksum(WordsOf(bs))
  {
    var sum, at := AddPairs(bs);
    ghost var ws := WordsOf(bs);
    if at < |bs| {
      sum := sum + Pair(bs[at], 0);
      assert ws[..|ws| - 1] == ws[..at / 2] && ws[|ws| - 1] == Pair(bs[at], 0);
    } else {
      assert ws[..at / 2] == ws;
    }
    SumInRange(ws);
    c := FinishChecksum(sum);
  }

  /** Rolling the carries over and complementing. */
  method FinishChecksum(sum0: nat) returns (c: Word)
    requires sum0 < 0x8000_0000
    ensures c == Complement(sum0)
  {
    var sum := sum0 / 0x1_0000 + sum0 % 0x1_0000;
    sum := sum + sum / 0x1_0000;
    c := 65535 - sum % 0x1_0000;
  }

  /** mark_ecn's update when the traffic class byte changes: HC' = ~(~HC + ~m + m'). */
  function EcnMarked(cksum: Word, otos: nat, tos: nat): (r: Word)
    requires otos < 0x100 && tos < 0x100
    ensures Cong(r + tos, cksum + otos)
  {
    65535 - Fold(65535 - cksum + (65535 - otos) + tos)
  }

  /** IPTOS_ECN_CE */
  const ECN_CE: nat := 3

  /** Sets both ECN bits of the byte. */
  function SetCe(tos: nat): (r: nat)
    requires tos < 0x100
    ensures r < 0x100 && r % 4 == 3 && r / 4 == tos / 4
  {
    tos - tos % 4 + ECN_CE
  }

  /** mark_ecn on an IPv4 header: whether the packet is marked, and the new traffic class and checksum. */
  method MarkEcn(ecn4: bool, version: nat, tos: nat, cksum: Word) returns (marked: bool, tos': nat, cksum': Word)
    requires tos < 0x100
    ensures marked <==> ecn4 && version == 4 && tos % 4 != 0
    ensures tos' < 0x100 && tos' == if marked then SetCe(tos) else tos
    ensures Cong(cksum' + tos', cksum + tos)
  {
    marked, tos', cksum' := false, tos, cksum;
    if ecn4 {
      if version != 4 || tos % 4 == 0 {
        return;
      }
      marked := true;
      if tos % 4 == ECN_CE {
        return;
      }
      tos' := SetCe(tos);
      var sum := 65535 - cksum;
      sum := sum + (65535 - tos) + tos';
      sum := sum / 0x1_0000 + sum % 0x1_0000;
      sum := sum + sum / 0x1_0000;
      cksum' := 65535 - sum % 0x1_0000;
      assert cksum' == EcnMarked(cksum, tos, tos');
    }
  }
}
