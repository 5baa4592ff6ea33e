/**
  The packet rewrites of alias.c: UDP, TCP and ICMP echo packets in both directions, and ICMP errors,
  for packets that no application helper edits and no proxy rule redirects.
 */
module NatPackets {
  import opened Checksum
  import opened LinkTable
  import opened NatEngine
  import SeqTranslate

  /** HandedOver: an application helper edits the payload from here on, which is not modelled. */
  datatype Verdict = Ok | Ignored | HandedOver

  class Packet {
    var src: Addr
    var dst: Addr
    var sport: Port                // for ICMP echo, the identifier
    var dport: Port
    var seqno: Dword
    var ackno: Dword
    var sum: Word                  // the UDP, TCP or ICMP checksum field
    var ipSum: Word
    const syn: bool
    const fin: bool
    const rst: bool
    const rest: nat                // the sum of all other words the transport checksum covers
    const ipRest: nat              // the sum of all other words of the IP header

    constructor (src: Addr, dst: Addr, sport: Port, dport: Port, seqno: Dword, ackno: Dword,
                 sum: Word, ipSum: Word, syn: bool, fin: bool, rst: bool, rest: nat, ipRest: nat)
      ensures this.src == src && this.dst == dst && this.sport == sport && this.dport == dport
      ensures this.seqno == seqno && this.ackno == ackno && this.sum == sum && this.ipSum == ipSum
      ensures this.syn == syn && this.fin == fin && this.rst == rst && this.rest == rest && this.ipRest == ipRest
    {
      this.src, this.dst, this.sport, this.dport := src, dst, sport, dport;
      this.seqno, this.ackno, this.sum, this.ipSum := seqno, ackno, sum, ipSum;
      this.syn, this.fin, this.rst, this.rest, this.ipRest := syn, fin, rst, rest, ipRest;
    }

    /** The sum a UDP or TCP checksum makes right: pseudo-header, ports, numbers, the field and the rest. */
    ghost function Covered(): int
      reads this
    {
      Words(src) + Words(dst) + sport + dport + Words(seqno) + Words(ackno) + sum + rest
    }

    /** The sum an ICMP checksum makes right. */
    ghost function CoveredIcmp(): int
      reads this
    {
      sport + sum + rest
    }

    ghost function CoveredIp(): int
      reads this
    {
      Words(src) + Words(dst) + ipSum + ipRest
    }
  }

  // ---------------------------------------------------------------- which packets

  /** Outgoing CUSeeMe, NetBIOS and TFTP packets get special processing. */
  predicate UdpHelperOut(sport: Port, dport: Port) {
    dport in {7648, 137, 138, 69} || sport in {137, 138}
  }

  /** Incoming CUSeeMe and NetBIOS packets do; here dport is already the inside port. */
  predicate UdpHelperIn(sport: Port, dport: Port) {
    dport in {7648, 137, 138} || sport in {137, 138}
  }

  /** Outgoing FTP, IRC, RTSP and PPTP packets get special processing; incoming ones only PPTP. */
  predicate TcpHelperOut(sport: Port, dport: Port) {
    dport in {21, 6667, 6668, 554, 7070, 1723} || sport in {21, 554, 7070, 1723}
  }

  // ---------------------------------------------------------------- TCP state

  /** SetStateIn and SetStateOut: the state on one side and the expiry both sides give. */
  function ExpireAfter(now: TcpState, other: TcpState, was: int): int {
    if now == Disconnected then (if other != Connected then 10 else 90)
    else if other == Connected then 86400 else was
  }

  /** TcpMonitorIn and TcpMonitorOut: what the flags make of one side's state. */
  function Monitored(s: TcpState, syn: bool, fin: bool, rst: bool): TcpState {
    match s
    case NotConnected => if rst then Disconnected else if syn then Connected else NotConnected
    case Connected => if fin || rst then Disconnected else Connected
    case Disconnected => Disconnected
  }

  /** What the monitor looks at in a packet. */
  datatype Flags = Flags(syn: bool, fin: bool, rst: bool)

  /** One side after a sequence of packets. */
  function StateAfter(fs: seq<Flags>): TcpState {
    if fs == [] then NotConnected
    else var f := fs[|fs| - 1]; Monitored(StateAfter(fs[..|fs| - 1]), f.syn, f.fin, f.rst)
  }

  ghost predicate Opened(fs: seq<Flags>) { exists i :: 0 <= i < |fs| && fs[i].syn }

  /** Packet i ends the connection: it resets it, or finishes one that was opened before. */
  ghost predicate EndsAt(fs: seq<Flags>, i: nat)
    requires i < |fs|
  {
    fs[i].rst || (fs[i].fin && Opened(fs[..i]))
  }

  ghost predicate Ended(fs: seq<Flags>) { exists i :: 0 <= i < |fs| && EndsAt(fs, i) }

  /** A side is connected exactly if it has been opened and not ended. */
  lemma {:induction false} ConnectedExactly(fs: seq<Flags>)
    ensures StateAfter(fs) == Disconnected <==> Ended(fs)
    ensures StateAfter(fs) == Connected <==> Opened(fs) && !Ended(fs)
  {
    if fs != [] {
      var n := |fs| - 1;
      var before := fs[..n];
      ConnectedExactly(before);
      assert Opened(fs) <==> Opened(before) || fs[n].syn by {
        if Opened(before) {
          var i :| 0 <= i < |before| && before[i].syn;
          assert fs[i].syn;
        }
      }
      assert Ended(fs) <==> Ended(before) || EndsAt(fs, n) by {
        forall i | 0 <= i < n ensures EndsAt(fs, i) <==> EndsAt(before, i) {
          assert fs[..i] == before[..i];
        }
      }
    }
  }

  method MonitorIn(link: AliasLink, p: Packet)
    modifies link`stateIn, link`expireTime
    ensures link.stateIn == Monitored(old(link.stateIn), p.syn, p.fin, p.rst)
    ensures link.expireTime == if link.stateIn == old(link.stateIn) then old(link.expireTime)
                               else ExpireAfter(link.stateIn, link.stateOut, old(link.expireTime))
  {
    var next := Monitored(link.stateIn, p.syn, p.fin, p.rst);
    if next != link.stateIn {
      link.expireTime := ExpireAfter(next, link.stateOut, link.expireTime);
      link.stateIn := next;
    }
  }

  method MonitorOut(link: AliasLink, p: Packet)
    modifies link`stateOut, link`expireTime
    ensures link.stateOut == Monitored(old(link.stateOut), p.syn, p.fin, p.rst)
    ensures link.expireTime == if link.stateOut == old(link.stateOut) then old(link.expireTime)
                               else ExpireAfter(link.stateOut, link.stateIn, old(link.expireTime))
  {
    var next := Monitored(link.stateOut, p.syn, p.fin, p.rst);
    if next != link.stateOut {
      link.expireTime := ExpireAfter(next, link.stateIn, link.expireTime);
      link.stateOut := next;
    }
  }

  // ---------------------------------------------------------------- UDP

  function OutKeyOf(p: Packet, linkType: nat): OutKey
    reads p
  {
    OutKey(p.src, p.dst, p.sport, if linkType == ICMP then NO_DEST_PORT else p.dport, linkType)
  }

  function InKeyFor(p: Packet, linkType: nat): InKey
    reads p
  {
    if linkType == ICMP then InKey(p.src, p.dst, NO_DEST_PORT, p.sport, linkType)
    else InKey(p.src, p.dst, p.sport, p.dport, linkType)
  }

  /** The IP checksum after an address changed, through DifferentialChecksum; `rest` is everything else
      the header sums. */
  method ReplaceWords(ipSum: Word, new': Addr, old': Addr, ghost rest: int) returns (r: Word)
    ensures Cong(rest + Words(new') + r, rest + Words(old') + ipSum)
  {
    SumWords(new');
    SumWords(old');
    AdjustKeepsSum(rest, Words(old'), Words(new'), ipSum);
    r := DifferentialChecksum(ipSum, WordSeq(new'), WordSeq(old'));
  }

  lemma CongShift(x: int, base: int, u: int, v: int)
    requires Cong(x, base + u)
    ensures Cong(x, base + v) <==> Cong(u, v)
  {
  }

  lemma SameAddress(a: Addr, b: Addr)
    ensures Cong(Words(a), Words(b)) <==> Cong(a, b)
  {
    var x, y := Words(a), Words(b);
    WordsCong(a);
    WordsCong(b);
    CongBoth(x, y, a, b);
  }

  lemma CongBoth(x: int, y: int, u: int, v: int)
    requires Cong(x, u) && Cong(y, v)
    ensures Cong(x, y) <==> Cong(u, v)
  {
  }

  /** The part of UdpAliasOut that rewrites the packet. */
  method RewriteUdpOut(p: Packet, aliasAddr: Addr, aliasPort: Port)
    modifies p`src, p`sport, p`sum, p`ipSum
    ensures p.src == aliasAddr && p.sport == aliasPort
    ensures old(p.sum) == 0 ==> p.sum == 0
    ensures old(p.sum) != 0 ==> Cong(p.Covered(), old(p.Covered()))
    ensures Cong(p.CoveredIp(), old(p.CoveredIp()))
  {
    if p.sum != 0 {
      var accumulate: int := p.sport;
      accumulate := accumulate - aliasPort;
      accumulate := accumulate + Words(p.src);
      accumulate := accumulate - Words(aliasAddr);
      ghost var rest := Words(p.dst) + p.dport + Words(p.seqno) + Words(p.ackno) + p.rest;
      AdjustKeepsSum(rest, p.sport + Words(p.src), aliasPort + Words(aliasAddr), p.sum);
      p.sum := AdjustChecksum(accumulate, p.sum);
    }
    p.sport := aliasPort;
    p.ipSum := ReplaceWords(p.ipSum, aliasAddr, p.src, Words(p.dst) + p.ipRest);
    p.src := aliasAddr;
  }

  /** The part of UdpAliasIn that rewrites the packet.  The checksum is adjusted by the link's alias
      address, whatever address the packet carries. */
  method RewriteUdpIn(p: Packet, aliasAddr: Addr, originalAddr: Addr, originalPort: Port)
    modifies p`dst, p`dport, p`sum, p`ipSum
    ensures p.dst == originalAddr && p.dport == originalPort
    ensures old(p.sum) == 0 ==> p.sum == 0
    ensures old(p.sum) != 0 ==> (Cong(p.Covered(), old(p.Covered())) <==> Cong(aliasAddr, old(p.dst)))
    ensures Cong(p.CoveredIp(), old(p.CoveredIp()))
  {
    ghost var before := p.Covered();
    ghost var oldDst, oldSum := p.dst, p.sum;
    var aliasPort := p.dport;
    p.dport := originalPort;
    if p.sum != 0 {
      var accumulate: int := aliasPort;
      accumulate := accumulate - p.dport;
      accumulate := accumulate + Words(aliasAddr);
      accumulate := accumulate - Words(originalAddr);
      p.sum := AdjustChecksum(accumulate, p.sum);
    }
    p.ipSum := ReplaceWords(p.ipSum, originalAddr, p.dst, Words(p.src) + p.ipRest);
    p.dst := originalAddr;
    if oldSum != 0 {
      UdpInSum(before - aliasPort - Words(oldDst) - oldSum, aliasPort, aliasAddr, originalPort, originalAddr, oldDst,
               oldSum);
    }
  }

  /** Adjusting by an address the sum does not contain is right exactly if the two count the same. */
  lemma UdpInSum(rest: int, aliasPort: Port, aliasAddr: Addr, port: Port, addr: Addr, dst: Addr, sum: Word)
    ensures var r := Adjusted(aliasPort + Words(aliasAddr) - (port + Words(addr)), sum);
            Cong(rest + port + Words(addr) + r, rest + aliasPort + Words(dst) + sum) <==> Cong(aliasAddr, dst)
  {
    InSum(rest, aliasPort, Words(aliasAddr), port + Words(addr), Words(dst), sum);
    SameAddress(aliasAddr, dst);
  }

  /** A packet to 0.0.0.0 is taken for one to the default alias address.  If that is 10.0.0.1, say, the sum a UDP or
      TCP packet had is lost, whatever the rest of the packet. */
  lemma WildcardLosesSum(rest: int, aliasPort: Port, port: Port, addr: Addr, sum: Word)
    ensures var alias: Addr := 0x0A00_0001;
            !Cong(rest + port + Words(addr) + Adjusted(aliasPort + Words(alias) - (port + Words(addr)), sum),
                  rest + aliasPort + Words(ANY) + sum)
  {
    UdpInSum(rest, aliasPort, 0x0A00_0001, port, addr, ANY, sum);
  }

  /** UdpAliasOut; `link` is the link the packet went through. */
  method UdpAliasOut(db: AliasDb, p: Packet, d: Draws) returns (v: Verdict, ghost link: AliasLink?)
    requires db.Valid() && d.Enough() && !UdpHelperOut(p.sport, p.dport)
    modifies db`tableOut, db`tableIn, db`count, db`live, db.live`timestamp
    modifies p`src, p`sport, p`sum, p`ipSum
    ensures db.Valid() && fresh(db.live - old(db.live))
    ensures link == null ==> unchanged(p)
    ensures link == null <==> v.Ignored? || db.mode.proxyOnly
    ensures !v.HandedOver?
    ensures link != null ==>
      && link in db.live && p.src == AliasAddress(link, db.aliasAddress) && p.sport == link.aliasPort
      && (old(p.sum) == 0 ==> p.sum == 0)
      && (old(p.sum) != 0 ==> Cong(p.Covered(), old(p.Covered())))
      && Cong(p.CoveredIp(), old(p.CoveredIp()))
    ensures old(Clean(db)) && p.dst != ANY && p.dport != 0 ==>
      && Clean(db) && old(db.live) <= db.live
      && (link != null ==> SendsAs(link, old(OutKeyOf(p, UDP)), db.aliasAddress))
      && (link == null && !db.mode.proxyOnly ==> old(NoPort(db, OutKeyOf(p, UDP), d)))
  {
    link := null;
    if db.mode.proxyOnly {
      return Ok, null;
    }
    var l := FindOut(db, OutKeyOf(p, UDP), true, d);
    if l == null {
      return Ignored, null;
    }
    RewriteUdpOut(p, AliasAddress(l, db.aliasAddress), l.aliasPort);
    v, link := Ok, l;
  }

  /** The end of UdpAliasIn: the packet is rewritten. */
  method DeliverUdp(db: AliasDb, p: Packet, aliasAddr: Addr, ghost own: Addr, originalAddr: Addr, originalPort: Port)
    requires aliasAddr == if p.dst == ANY then own else p.dst
    requires db.Valid()
    modifies p`dst, p`dport, p`sum, p`ipSum
    ensures db.Valid() && (old(Clean(db)) ==> Clean(db))
    ensures p.dst == originalAddr && p.dport == originalPort
    ensures old(p.sum) == 0 ==> p.sum == 0
    ensures old(p.sum) != 0 ==> (Cong(p.Covered(), old(p.Covered())) <==> old(p.dst) != ANY || Cong(own, 0))
    ensures Cong(p.CoveredIp(), old(p.CoveredIp()))
  {
    RewriteUdpIn(p, aliasAddr, originalAddr, originalPort);
  }

  /** Whether an incoming packet is answered: some link answers for it, or one is made. */
  ghost predicate Answered(db: AliasDb, key: InKey, create: bool)
    requires db.Valid()
    reads db, db.Logs()
  {
    db.Answer(key) != null || (create && !db.mode.denyIncoming)
  }

  /** The link that is made for an unsolicited packet: under its own key, for the target host and the same port. */
  ghost predicate MadeFor(link: AliasLink, db: AliasDb, key: InKey, redirected: bool) {
    && InKeyOf(link) == key && link.srcPort == key.aliasPort
    && (redirected || link.srcAddr == Target(db, key.alias))
  }

  /** Whether a whole address is redirected. */
  ghost predicate Redirects(db: AliasDb, alias: Addr)
    requires db.Valid()
    reads db, db.Logs()
  {
    db.Answer(InKey(ANY, alias, 0, 0, LINK_ADDR)) != null
  }

  /** UdpAliasIn */
  method UdpAliasIn(db: AliasDb, p: Packet, d: Draws) returns (v: Verdict, ghost link: AliasLink?)
    requires db.Valid() && d.Enough()
    modifies db`tableOut, db`tableIn, db`count, db`live, db.live`timestamp, db.live`server
    modifies p`dst, p`dport, p`sum, p`ipSum
    ensures db.Valid() && fresh(db.live - old(db.live))
    ensures link == null || v.HandedOver? ==> unchanged(p)
    ensures link == null <==> v.Ignored? || db.mode.proxyOnly
    ensures v.Ignored? <==> !db.mode.proxyOnly && !old(Answered(db, InKeyFor(p, UDP), true))
    ensures link == null ==> db.live == old(db.live) && db.tableIn == old(db.tableIn)
    ensures link != null && old(db.Answer(InKeyFor(p, UDP))) == null ==>
      && fresh(link) && db.live == old(db.live) + {link}
      && MadeFor(link, db, old(InKeyFor(p, UDP)), old(Redirects(db, p.dst)))
    ensures v.HandedOver? ==> link != null && UdpHelperIn(p.sport, link.srcPort)
    ensures link != null && v.Ok? ==>
      && link in db.live && p.dst == OriginalAddress(link, db.aliasAddress) && p.dport == link.srcPort
      && (old(p.sum) == 0 ==> p.sum == 0)
      && (old(p.sum) != 0 ==>
            (Cong(p.Covered(), old(p.Covered())) <==> old(p.dst) != ANY || Cong(db.aliasAddress, 0)))
      && Cong(p.CoveredIp(), old(p.CoveredIp()))
    ensures old(Clean(db) && Proper(db, InKeyFor(p, UDP))) ==>
      Clean(db) && old(db.live) <= db.live && (link != null ==> InKeyOf(link) == old(InKeyFor(p, UDP)))
    ensures old(Clean(db) && Proper(db, InKeyFor(p, UDP))) && !db.mode.proxyOnly ==>
      (forall l :: l in old(db.live) && InKeyOf(l) == old(InKeyFor(p, UDP)) ==> link == l)
  {
    link := null;
    if db.mode.proxyOnly {
      return Ok, null;
    }
    var l := FindIn(db, InKeyFor(p, UDP), true, d);
    if l == null {
      return Ignored, null;
    }
    link := l;
    if UdpHelperIn(p.sport, l.srcPort) {
      return HandedOver, l;
    }
    DeliverUdp(db, p, AliasAddress(l, db.aliasAddress), db.aliasAddress, OriginalAddress(l, db.aliasAddress),
               l.srcPort);
    v := Ok;
  }

  // ---------------------------------------------------------------- TCP

  /** A sequence or acknowledgment number moved by delta, and what that takes out of the sum. */
  method MoveNumber(number: Dword, delta: int) returns (moved: Dword, change: int)
    ensures moved == SeqTranslate.Wrap(number + delta)
    ensures change == Words(number) - Words(moved)
  {
    moved, change := number, 0;
    if delta != 0 {
      moved := SeqTranslate.Wrap(number + delta);
      change := Words(number) - Words(moved);
    }
  }

  /** The packet's transport sum after ports, an address and a number changed, in terms of what changed. */
  lemma TcpOutSum(rest: int, sport: Port, src: Addr, seqno: Dword, port: Port, alias: Addr,
                  moved: Dword, sum: Word)
    ensures var r := Adjusted(sport - port + Words(src) - Words(alias) + (Words(seqno) - Words(moved)), sum);
            Cong(rest + port + Words(alias) + Words(moved) + r, rest + sport + Words(src) + Words(seqno) + sum)
  {
    var a: int, b: int, c: int, e: int := Words(src), Words(alias), Words(seqno), Words(moved);
    AdjustKeepsSum(rest, sport + a + c, port + b + e, sum);
    assert sport - port + a - b + (c - e) == (sport + a + c) - (port + b + e);
  }

  method RewriteTcpOut(p: Packet, aliasAddr: Addr, aliasPort: Port, delta: int)
    modifies p`src, p`sport, p`seqno, p`sum, p`ipSum
    ensures p.src == aliasAddr && p.sport == aliasPort
    ensures p.seqno == SeqTranslate.Wrap(old(p.seqno) + delta)
    ensures Cong(p.Covered(), old(p.Covered())) && Cong(p.CoveredIp(), old(p.CoveredIp()))
  {
    var accumulate: int := p.sport;
    ghost var sport, src, seqno, sum := p.sport, p.src, p.seqno, p.sum;
    p.sport := aliasPort;
    accumulate := accumulate - p.sport;
    accumulate := accumulate + Words(p.src) - Words(aliasAddr);
    var moved, change := MoveNumber(p.seqno, delta);
    accumulate := accumulate + change;
    p.seqno := moved;
    p.sum := AdjustChecksum(accumulate, p.sum);
    p.ipSum := AdjustIp(p.ipSum, p.src, aliasAddr, Words(p.dst) + p.ipRest);
    p.src := aliasAddr;
    TcpOutSum(Words(p.dst) + p.dport + Words(p.ackno) + p.rest, sport, src, seqno, aliasPort, aliasAddr, moved, sum);
  }

  /** The IP checksum after an address changed. */
  method AdjustIp(ipSum: Word, was: Addr, now: Addr, ghost rest: int) returns (r: Word)
    ensures Cong(rest + Words(now) + r, rest + Words(was) + ipSum)
  {
    AdjustKeepsSum(rest, Words(was), Words(now), ipSum);
    r := AdjustChecksum(Words(was) - Words(now), ipSum);
  }

  /** As UdpInSum, with an acknowledgment moved as well. */
  lemma TcpInSum(rest: int, dport: Port, alias: Addr, ackno: Dword, port: Port, addr: Addr,
                 moved: Dword, dst: Addr, sum: Word)
    ensures var r := Adjusted(dport - port + Words(alias) - Words(addr) + (Words(ackno) - Words(moved)), sum);
            Cong(rest + port + Words(addr) + Words(moved) + r, rest + dport + Words(dst) + Words(ackno) + sum)
            <==> Cong(alias, dst)
  {
    InSum(rest, dport + Words(ackno), Words(alias), port + Words(addr) + Words(moved), Words(dst), sum);
    assert dport - port + Words(alias) - Words(addr) + (Words(ackno) - Words(moved))
        == dport + Words(ackno) + Words(alias) - (port + Words(addr) + Words(moved));
    SameAddress(alias, dst);
  }

  /** Adjusting from out + a to into keeps the sum rest + out + f exactly if a and f count the same. */
  lemma InSum(rest: int, out: int, a: int, into: int, f: int, sum: Word)
    requires 0 <= out <= 600000 && 0 <= into <= 600000 && -131070 <= a <= 400000
    ensures Cong(rest + into + Adjusted(out + a - into, sum), rest + f + out + sum) <==> Cong(a, f)
  {
    AdjustKeepsSum(rest, out + a, into, sum);
    CongShift(rest + into + Adjusted(out + a - into, sum), rest + out + sum, a, f);
  }

  method RewriteTcpIn(p: Packet, aliasAddr: Addr, originalAddr: Addr, originalPort: Port, delta: int)
    modifies p`dst, p`dport, p`ackno, p`sum, p`ipSum
    ensures p.dst == originalAddr && p.dport == originalPort
    ensures p.ackno == SeqTranslate.Wrap(old(p.ackno) - delta)
    ensures Cong(p.Covered(), old(p.Covered())) <==> Cong(aliasAddr, old(p.dst))
    ensures Cong(p.CoveredIp(), old(p.CoveredIp()))
  {
    var accumulate: int := p.dport;
    ghost var dport, dst, ackno, sum := p.dport, p.dst, p.ackno, p.sum;
    p.dport := originalPort;
    accumulate := accumulate - p.dport;
    accumulate := accumulate + Words(aliasAddr) - Words(originalAddr);
    var moved, change := MoveNumber(p.ackno, -delta);
    accumulate := accumulate + change;
    p.ackno := moved;
    p.sum := AdjustChecksum(accumulate, p.sum);
    p.ipSum := AdjustIp(p.ipSum, p.dst, originalAddr, Words(p.src) + p.ipRest);
    p.dst := originalAddr;
    TcpInSum(Words(p.src) + p.sport + Words(p.seqno) + p.rest, dport, aliasAddr, ackno, originalPort, originalAddr,
             moved, dst, sum);
  }

  /** The growth a link adds to a sequence number, or takes off an acknowledgment: what its records say, if
      anything was edited on it at all. */
  ghost function LinkGrowth(link: AliasLink, pos: Dword, outgoing: bool): int
    reads if link.tcp == null then {} else {link.tcp, link.tcp.ack}
  {
    if link.tcp == null || !link.tcp.ackModified then 0 else SeqTranslate.DeltaAt(link.tcp.ack[..], pos, outgoing)
  }

  /** A sequence number at position s of the stream, after the edits `es`: it is moved by the growth of all edits that
      end by s, as long as the last of them is among those kept. */
  ghost function MovedOut(es: seq<SeqTranslate.Edit>, s: int, was: Dword): Dword {
    var n := SeqTranslate.Passed(es, s, true);
    if |es| < n + SeqTranslate.SLOTS then SeqTranslate.Wrap(s + SeqTranslate.Growth(es[..n])) else was
  }

  /** An acknowledgment of position a of the stream the receiver sees is moved back. */
  ghost function MovedIn(es: seq<SeqTranslate.Edit>, a: int, was: Dword): Dword {
    var n := SeqTranslate.Passed(es, a, false);
    if |es| < n + SeqTranslate.SLOTS then SeqTranslate.Wrap(a - SeqTranslate.Growth(es[..n])) else was
  }

  ghost predicate Advanced(es: seq<SeqTranslate.Edit>, was: Dword, now: Dword) {
    forall s: int {:trigger SeqTranslate.InWindow(es, s, true)} ::
      was == SeqTranslate.Wrap(s) && SeqTranslate.InWindow(es, s, true) ==> now == MovedOut(es, s, was)
  }

  ghost predicate Receded(es: seq<SeqTranslate.Edit>, was: Dword, now: Dword) {
    forall a: int {:trigger SeqTranslate.InWindow(es, a, false)} ::
      was == SeqTranslate.Wrap(a) && SeqTranslate.InWindow(es, a, false) ==> now == MovedIn(es, a, was)
  }

  /** A sequence number after it has gone out through a link, and an acknowledgment after it has come in. */
  ghost function SeqOut(link: AliasLink, seqno: Dword): Dword
    reads if link.tcp == null then {} else {link.tcp, link.tcp.ack}
  {
    SeqTranslate.Wrap(seqno + LinkGrowth(link, seqno, true))
  }

  ghost function AckIn(link: AliasLink, ackno: Dword): Dword
    reads if link.tcp == null then {} else {link.tcp, link.tcp.ack}
  {
    SeqTranslate.Wrap(ackno - LinkGrowth(link, ackno, false))
  }

  lemma DeltaIsGrowth(link: AliasLink, s: int, outgoing: bool)
    requires link.HasLog() && SeqTranslate.InWindow(link.tcp.edits, s, outgoing)
    ensures var es := link.tcp.edits; var n := SeqTranslate.Passed(es, s, outgoing);
            LinkGrowth(link, SeqTranslate.Wrap(s), outgoing) ==
            if |es| < n + SeqTranslate.SLOTS then SeqTranslate.Growth(es[..n]) else 0
  {
    var es := link.tcp.edits;
    assert es[..0] == [];
    if link.tcp.ackModified {
      SeqTranslate.NearestIsLast(link.tcp.ack[..], es, s, outgoing);
    }
  }

  lemma MovedNumber(number: Dword, s: int, growth: int)
    requires number == SeqTranslate.Wrap(s)
    ensures SeqTranslate.Wrap(number + growth) == SeqTranslate.Wrap(s + growth)
    ensures SeqTranslate.Wrap(number - growth) == SeqTranslate.Wrap(s - growth)
    ensures growth == 0 ==> SeqTranslate.Wrap(number + growth) == SeqTranslate.Wrap(number - growth) == number
  {
    SeqTranslate.WrapAdd(s, growth);
    SeqTranslate.WrapAdd(s, -growth);
  }

  lemma SeqAt(link: AliasLink, s: int)
    requires link.HasLog() && SeqTranslate.InWindow(link.tcp.edits, s, true)
    ensures var number := SeqTranslate.Wrap(s); SeqOut(link, number) == MovedOut(link.tcp.edits, s, number)
  {
    var number := SeqTranslate.Wrap(s);
    DeltaIsGrowth(link, s, true);
    MovedNumber(number, s, LinkGrowth(link, number, true));
  }

  lemma AckAt(link: AliasLink, a: int)
    requires link.HasLog() && SeqTranslate.InWindow(link.tcp.edits, a, false)
    ensures var number := SeqTranslate.Wrap(a); AckIn(link, number) == MovedIn(link.tcp.edits, a, number)
  {
    var number := SeqTranslate.Wrap(a);
    DeltaIsGrowth(link, a, false);
    MovedNumber(number, a, LinkGrowth(link, number, false));
  }

  /** What a link does to numbers is what its edits ask for. */
  lemma NumbersFollowEdits(link: AliasLink, number: Dword)
    requires link.HasLog()
    ensures Advanced(link.tcp.edits, number, SeqOut(link, number))
    ensures Receded(link.tcp.edits, number, AckIn(link, number))
  {
    forall s: int | number == SeqTranslate.Wrap(s) && SeqTranslate.InWindow(link.tcp.edits, s, true)
      ensures SeqOut(link, number) == MovedOut(link.tcp.edits, s, number)
    {
      SeqAt(link, s);
    }
    forall a: int | number == SeqTranslate.Wrap(a) && SeqTranslate.InWindow(link.tcp.edits, a, false)
      ensures AckIn(link, number) == MovedIn(link.tcp.edits, a, number)
    {
      AckAt(link, a);
    }
  }

  method LinkDelta(link: AliasLink, pos: Dword, outgoing: bool) returns (delta: int)
    requires link.HasLog()
    ensures delta == LinkGrowth(link, pos, outgoing)
  {
    delta := 0;
    if link.tcp.ackModified {
      delta := link.tcp.Search(pos, outgoing);
    }
  }

  /** Finds or makes the link of an outgoing TCP packet, tracks its state and looks up the growth. */
  method TcpLinkOut(db: AliasDb, p: Packet, d: Draws) returns (l: AliasLink?, growth: int)
    requires db.Valid() && d.Enough()
    modifies db`tableOut, db`tableIn, db`count, db`live, db.live`timestamp, db.live`stateOut, db.live`expireTime
    ensures db.Valid() && fresh(db.live - old(db.live)) && unchanged(p)
    ensures l != null ==> l in db.live && l.HasLog() && growth == LinkGrowth(l, p.seqno, true)
    ensures old(Clean(db)) && p.dst != ANY && p.dport != 0 ==>
      && Clean(db) && old(db.live) <= db.live && (l != null ==> SendsAs(l, OutKeyOf(p, TCP), db.aliasAddress))
      && (l == null ==> old(NoPort(db, OutKeyOf(p, TCP), d)))
  {
    growth := 0;
    l := FindOut(db, OutKeyOf(p, TCP), true, d);
    if l != null {
      MonitorOut(l, p);
      growth := LinkDelta(l, p.seqno, true);
    }
  }

  /** The end of TcpAliasOut: the packet is rewritten. */
  method SendTcp(p: Packet, l: AliasLink, aliasAddr: Addr, growth: int)
    requires growth == LinkGrowth(l, p.seqno, true)
    requires l.HasLog()
    modifies p`src, p`sport, p`seqno, p`sum, p`ipSum
    ensures p.src == aliasAddr && p.sport == l.aliasPort
    ensures l.HasLog() && Advanced(l.tcp.edits, old(p.seqno), p.seqno)
    ensures Cong(p.Covered(), old(p.Covered())) && Cong(p.CoveredIp(), old(p.CoveredIp()))
  {
    NumbersFollowEdits(l, p.seqno);
    ghost var es, moved := l.tcp.edits, SeqOut(l, p.seqno);
    RewriteTcpOut(p, aliasAddr, l.aliasPort, growth);
    assert p.seqno == moved && l.tcp.edits == es;
  }

  /** TcpAliasOut without transparent proxying. */
  method TcpAliasOut(db: AliasDb, p: Packet, d: Draws) returns (v: Verdict, ghost link: AliasLink?)
    requires db.Valid() && d.Enough() && !TcpHelperOut(p.sport, p.dport)
    modifies db`tableOut, db`tableIn, db`count, db`live, db.live`timestamp, db.live`stateOut, db.live`expireTime
    modifies p`src, p`sport, p`seqno, p`sum, p`ipSum
    ensures db.Valid() && fresh(db.live - old(db.live))
    ensures link == null ==> unchanged(p)
    ensures link == null <==> v.Ignored? || db.mode.proxyOnly
    ensures !v.HandedOver?
    ensures link != null ==>
      && link in db.live && p.src == AliasAddress(link, db.aliasAddress) && p.sport == link.aliasPort
      && link.HasLog() && Advanced(link.tcp.edits, old(p.seqno), p.seqno)
      && Cong(p.Covered(), old(p.Covered())) && Cong(p.CoveredIp(), old(p.CoveredIp()))
    ensures old(Clean(db)) && p.dst != ANY && p.dport != 0 ==>
      && Clean(db) && old(db.live) <= db.live
      && (link != null ==> SendsAs(link, old(OutKeyOf(p, TCP)), db.aliasAddress))
      && (link == null && !db.mode.proxyOnly ==> old(NoPort(db, OutKeyOf(p, TCP), d)))
  {
    link := null;
    if db.mode.proxyOnly {
      return Ok, null;
    }
    var l, growth := TcpLinkOut(db, p, d);
    if l == null {
      return Ignored, null;
    }
    SendTcp(p, l, AliasAddress(l, db.aliasAddress), growth);
    v, link := Ok, l;
  }

  /** Finds or makes the link of an incoming TCP packet and looks up the growth. */
  method TcpLinkIn(db: AliasDb, p: Packet, d: Draws) returns (l: AliasLink?, growth: int)
    requires db.Valid() && d.Enough()
    modifies db`tableOut, db`tableIn, db`count, db`live
    modifies db.live`timestamp, db.live`server
    ensures db.Valid() && fresh(db.live - old(db.live)) && unchanged(p)
    ensures l != null ==> l in db.live && l.HasLog() && growth == LinkGrowth(l, p.ackno, false)
    ensures l != null ==> AliasAddress(l, db.aliasAddress) == if p.dst == ANY then db.aliasAddress else p.dst
    ensures l == null <==> !old(Answered(db, InKeyFor(p, TCP), !db.mode.proxyOnly))
    ensures l == null ==> db.live == old(db.live) && db.tableIn == old(db.tableIn)
    ensures l != null && old(db.Answer(InKeyFor(p, TCP))) == null ==>
      && fresh(l) && db.live == old(db.live) + {l}
      && MadeFor(l, db, old(InKeyFor(p, TCP)), old(Redirects(db, p.dst)))
    ensures old(Clean(db)) && Proper(db, InKeyFor(p, TCP)) ==>
      && Clean(db) && old(db.live) <= db.live && (l != null ==> InKeyOf(l) == InKeyFor(p, TCP))
      && (forall m :: m in old(db.live) && InKeyOf(m) == InKeyFor(p, TCP) ==> l == m)
  {
    growth := 0;
    l := FindIn(db, InKeyFor(p, TCP), !db.mode.proxyOnly, d);
    if l != null {
      growth := LinkDelta(l, p.ackno, false);
    }
  }

  /** The end of TcpAliasIn: the packet is rewritten and the link watches the connection. */
  method DeliverTcp(db: AliasDb, p: Packet, l: AliasLink, aliasAddr: Addr, ghost own: Addr, originalAddr: Addr,
                    growth: int)
    requires aliasAddr == (if p.dst == ANY then own else p.dst) && growth == LinkGrowth(l, p.ackno, false)
    requires l.HasLog() && db.Valid()
    modifies p`dst, p`dport, p`ackno, p`sum, p`ipSum, l`stateIn, l`expireTime
    ensures p.dst == originalAddr && p.dport == l.srcPort
    ensures db.Valid() && (old(Clean(db)) ==> Clean(db))
    ensures l.HasLog() && Receded(l.tcp.edits, old(p.ackno), p.ackno)
    ensures Cong(p.Covered(), old(p.Covered())) <==> old(p.dst) != ANY || Cong(own, 0)
    ensures Cong(p.CoveredIp(), old(p.CoveredIp()))
  {
    NumbersFollowEdits(l, p.ackno);
    ghost var es, moved := l.tcp.edits, AckIn(l, p.ackno);
    RewriteTcpIn(p, aliasAddr, originalAddr, l.srcPort, growth);
    MonitorIn(l, p);
    assert p.ackno == moved && l.tcp.edits == es;
  }

  /** TcpAliasIn without transparent proxying; in proxy-only mode no link is created. */
  method TcpAliasIn(db: AliasDb, p: Packet, d: Draws) returns (v: Verdict, ghost link: AliasLink?)
    requires db.Valid() && d.Enough() && p.sport != 1723 && p.dport != 1723
    modifies db`tableOut, db`tableIn, db`count, db`live
    modifies db.live`timestamp, db.live`server, db.live`stateIn, db.live`expireTime
    modifies p`dst, p`dport, p`ackno, p`sum, p`ipSum
    ensures db.Valid() && fresh(db.live - old(db.live))
    ensures link == null ==> unchanged(p) && db.live == old(db.live) && db.tableIn == old(db.tableIn)
    ensures link == null <==> v.Ignored?
    ensures v.Ignored? <==> !old(Answered(db, InKeyFor(p, TCP), !db.mode.proxyOnly))
    ensures link != null && old(db.Answer(InKeyFor(p, TCP))) == null ==>
      && fresh(link) && db.live == old(db.live) + {link}
      && MadeFor(link, db, old(InKeyFor(p, TCP)), old(Redirects(db, p.dst)))
    ensures !v.HandedOver?
    ensures link != null ==>
      && link in db.live && p.dst == OriginalAddress(link, db.aliasAddress) && p.dport == link.srcPort
      && link.HasLog() && Receded(link.tcp.edits, old(p.ackno), p.ackno)
      && (Cong(p.Covered(), old(p.Covered())) <==> old(p.dst) != ANY || Cong(db.aliasAddress, 0))
      && Cong(p.CoveredIp(), old(p.CoveredIp()))
    ensures old(Clean(db) && Proper(db, InKeyFor(p, TCP))) ==>
      && Clean(db) && old(db.live) <= db.live && (link != null ==> InKeyOf(link) == old(InKeyFor(p, TCP)))
      && (forall l :: l in old(db.live) && InKeyOf(l) == old(InKeyFor(p, TCP)) ==> link == l)
  {
    var l, growth := TcpLinkIn(db, p, d);
    v, link := Ignored, l;
    if l != null {
      DeliverTcp(db, p, l, AliasAddress(l, db.aliasAddress), db.aliasAddress, OriginalAddress(l, db.aliasAddress),
                 growth);
      v := Ok;
    }
  }

  // ---------------------------------------------------------------- ICMP echo

  method RewriteEchoOut(p: Packet, aliasAddr: Addr, aliasId: Port)
    modifies p`src, p`sport, p`sum, p`ipSum
    ensures p.src == aliasAddr && p.sport == aliasId
    ensures Cong(p.CoveredIcmp(), old(p.CoveredIcmp())) && Cong(p.CoveredIp(), old(p.CoveredIp()))
  {
    AdjustKeepsSum(p.rest, p.sport, aliasId, p.sum);
    p.sum := AdjustChecksum(p.sport - aliasId, p.sum);
    p.sport := aliasId;
    p.ipSum := ReplaceWords(p.ipSum, aliasAddr, p.src, Words(p.dst) + p.ipRest);
    p.src := aliasAddr;
  }

  method RewriteEchoIn(p: Packet, originalAddr: Addr, originalId: Port)
    modifies p`dst, p`sport, p`sum, p`ipSum
    ensures p.dst == originalAddr && p.sport == originalId
    ensures Cong(p.CoveredIcmp(), old(p.CoveredIcmp())) && Cong(p.CoveredIp(), old(p.CoveredIp()))
  {
    AdjustKeepsSum(p.rest, p.sport, originalId, p.sum);
    p.sum := AdjustChecksum(p.sport - originalId, p.sum);
    p.sport := originalId;
    p.ipSum := ReplaceWords(p.ipSum, originalAddr, p.dst, Words(p.src) + p.ipRest);
    p.dst := originalAddr;
  }

  /** IcmpAliasOut1: the identifier and the source address of an echo packet. */
  method IcmpAliasOut1(db: AliasDb, p: Packet, d: Draws) returns (v: Verdict, ghost link: AliasLink?)
    requires db.Valid() && d.Enough()
    modifies db`tableOut, db`tableIn, db`count, db`live, db.live`timestamp
    modifies p`src, p`sport, p`sum, p`ipSum
    ensures db.Valid() && fresh(db.live - old(db.live))
    ensures link == null ==> unchanged(p)
    ensures link == null <==> v.Ignored?
    ensures !v.HandedOver?
    ensures link != null ==>
      && link in db.live && p.src == AliasAddress(link, db.aliasAddress) && p.sport == link.aliasPort
      && Cong(p.CoveredIcmp(), old(p.CoveredIcmp())) && Cong(p.CoveredIp(), old(p.CoveredIp()))
    ensures old(Clean(db)) && p.dst != ANY ==>
      && Clean(db) && old(db.live) <= db.live
      && (link != null ==> SendsAs(link, old(OutKeyOf(p, ICMP)), db.aliasAddress))
      && (link == null ==> old(NoPort(db, OutKeyOf(p, ICMP), d)))
  {
    var l := FindOut(db, OutKeyOf(p, ICMP), true, d);
    if l == null {
      return Ignored, null;
    }
    RewriteEchoOut(p, AliasAddress(l, db.aliasAddress), l.aliasPort);
    v, link := Ok, l;
  }

  /** IcmpAliasIn1 */
  method IcmpAliasIn1(db: AliasDb, p: Packet, d: Draws) returns (v: Verdict, ghost link: AliasLink?)
    requires db.Valid() && d.Enough()
    modifies db`tableOut, db`tableIn, db`count, db`live, db.live`timestamp, db.live`server
    modifies p`dst, p`sport, p`sum, p`ipSum
    ensures db.Valid() && fresh(db.live - old(db.live))
    ensures link == null ==> unchanged(p) && db.live == old(db.live) && db.tableIn == old(db.tableIn)
    ensures link == null <==> v.Ignored?
    ensures v.Ignored? <==> !old(Answered(db, InKeyFor(p, ICMP), true))
    ensures link != null && old(db.Answer(InKeyFor(p, ICMP))) == null ==>
      && fresh(link) && db.live == old(db.live) + {link}
      && MadeFor(link, db, old(InKeyFor(p, ICMP)), old(Redirects(db, p.dst)))
    ensures !v.HandedOver?
    ensures link != null ==>
      && link in db.live && p.dst == OriginalAddress(link, db.aliasAddress) && p.sport == link.srcPort
      && Cong(p.CoveredIcmp(), old(p.CoveredIcmp())) && Cong(p.CoveredIp(), old(p.CoveredIp()))
    ensures old(Clean(db) && Proper(db, InKeyFor(p, ICMP))) ==>
      && Clean(db) && old(db.live) <= db.live && (link != null ==> InKeyOf(link) == old(InKeyFor(p, ICMP)))
      && (forall l :: l in old(db.live) && InKeyOf(l) == old(InKeyFor(p, ICMP)) ==> link == l)
  {
    var l := FindIn(db, InKeyFor(p, ICMP), true, d);
    if l == null {
      return Ignored, null;
    }
    RewriteEchoIn(p, OriginalAddress(l, db.aliasAddress), l.srcPort);
    v, link := Ok, l;
  }

  // ---------------------------------------------------------------- ICMP errors

  /** An ICMP error and the datagram it quotes.  `isrc`, `idst`, `isport` and `idport` are the quoted
      header's; for a quoted echo packet the identifier is `iid` and the ports are not there. */
  class IcmpError {
    var src: Addr
    var dst: Addr
    var ipSum: Word
    var sum: Word
    const proto: nat
    const echo: bool               // a quoted ICMP packet is an echo or timestamp request
    var isrc: Addr
    var idst: Addr
    var isport: Port
    var idport: Port
    var iid: Port
    const rest: nat
    const ipRest: nat

    constructor (src: Addr, dst: Addr, ipSum: Word, sum: Word, proto: nat, echo: bool, isrc: Addr, idst: Addr,
                 isport: Port, idport: Port, iid: Port, rest: nat, ipRest: nat)
      ensures this.src == src && this.dst == dst && this.proto == proto && this.echo == echo
      ensures this.isrc == isrc && this.idst == idst && this.isport == isport && this.idport == idport
      ensures this.iid == iid
      ensures this.ipSum == ipSum && this.sum == sum && this.rest == rest && this.ipRest == ipRest
    {
      this.src, this.dst, this.ipSum, this.sum, this.proto, this.echo := src, dst, ipSum, sum, proto, echo;
      this.isrc, this.idst, this.isport, this.idport, this.iid := isrc, idst, isport, idport, iid;
      this.rest, this.ipRest := rest, ipRest;
    }

    ghost function Covered(): int
      reads this
    {
      Words(isrc) + Words(idst) + (if proto == ICMP then iid else isport + idport) + sum + rest
    }

    ghost function CoveredIp(): int
      reads this
    {
      Words(src) + Words(dst) + ipSum + ipRest
    }

    /** The quoted packet is one that has a link. */
    predicate Quotes() { proto == UDP || proto == TCP || (proto == ICMP && echo) }

    /** The key of the link a quoted outgoing packet went through. */
    function QuotedInKey(): InKey
      reads this
    {
      if proto == ICMP then InKey(idst, isrc, NO_DEST_PORT, iid, proto) else InKey(idst, isrc, idport, isport, proto)
    }

    /** The key of the link a quoted incoming packet went through. */
    function QuotedOutKey(): OutKey
      reads this
    {
      if proto == ICMP then OutKey(idst, isrc, iid, NO_DEST_PORT, proto) else OutKey(idst, isrc, idport, isport, proto)
    }
  }

  /** The ICMP checksum after a quoted address and a quoted port or identifier changed. */
  lemma QuotedSum(rest: int, was: Addr, now: Addr, port: Port, port': Port, sum: Word)
    ensures var r := Adjusted(Words(was) - Words(now) + port - port', sum);
            Cong(rest + Words(now) + port' + r, rest + Words(was) + port + sum)
  {
    var a: int, b: int := Words(was), Words(now);
    AdjustKeepsSum(rest, a + port, b + port', sum);
    assert a - b + port - port' == (a + port) - (b + port');
  }

  /** IcmpAliasIn2: an error about a packet that went out gets the inside address and port back, outside
      and inside the quoted header; no link is made for it. */
  method IcmpAliasIn2(db: AliasDb, e: IcmpError, d: Draws) returns (v: Verdict, ghost link: AliasLink?)
    requires db.Valid() && d.Enough()
    modifies db`tableOut, db`tableIn, db`count, db`live, db.live`timestamp, db.live`server
    modifies e`dst, e`isrc, e`isport, e`iid, e`sum, e`ipSum
    ensures db.Valid() && db.live == old(db.live) && db.tableIn == old(db.tableIn)
    ensures link == null <==> v.Ignored?
    ensures v.Ignored? <==> !e.Quotes() || old(db.Answer(e.QuotedInKey())) == null
    ensures link == null ==> unchanged(e)
    ensures !v.HandedOver?
    ensures link != null ==>
      && e.Quotes() && link in db.live
      && e.dst == e.isrc == OriginalAddress(link, db.aliasAddress)
      && (if e.proto == ICMP then e.iid == link.srcPort && e.isport == old(e.isport)
          else e.isport == link.srcPort && e.iid == old(e.iid))
      && Cong(e.Covered(), old(e.Covered())) && Cong(e.CoveredIp(), old(e.CoveredIp()))
    ensures old(Clean(db)) && e.Quotes() && old(Proper(db, e.QuotedInKey())) ==>
      && Clean(db) && old(db.live) <= db.live
      && (forall l :: l in old(db.live) && InKeyOf(l) == old(e.QuotedInKey()) ==> link == l)
  {
    if !e.Quotes() {
      return Ignored, null;
    }
    var l := FindIn(db, e.QuotedInKey(), false, d);
    if l == null {
      return Ignored, null;
    }
    RewriteErrorIn(e, OriginalAddress(l, db.aliasAddress), l.srcPort);
    v, link := Ok, l;
  }

  method RewriteErrorIn(e: IcmpError, addr: Addr, port: Port)
    modifies e`dst, e`isrc, e`isport, e`iid, e`sum, e`ipSum
    ensures e.dst == e.isrc == addr
    ensures if e.proto == ICMP then e.iid == port && e.isport == old(e.isport)
            else e.isport == port && e.iid == old(e.iid)
    ensures Cong(e.Covered(), old(e.Covered())) && Cong(e.CoveredIp(), old(e.CoveredIp()))
  {
    var was := if e.proto == ICMP then e.iid else e.isport;
    QuotedSum(Words(e.idst) + (if e.proto == ICMP then 0 else e.idport) + e.rest, e.isrc, addr, was, port, e.sum);
    e.sum := AdjustChecksum(Words(e.isrc) - Words(addr) + was - port, e.sum);
    e.ipSum := ReplaceWords(e.ipSum, addr, e.dst, Words(e.src) + e.ipRest);
    e.dst := addr;
    e.isrc := addr;
    if e.proto == ICMP {
      e.iid := port;
    } else {
      e.isport := port;
    }
  }

  /** IcmpAliasOut2: an error about a packet that came in quotes the alias; the outer source changes only
      if the error comes from the host the packet was for. */
  method IcmpAliasOut2(db: AliasDb, e: IcmpError, d: Draws) returns (v: Verdict, ghost link: AliasLink?)
    requires db.Valid() && d.Enough()
    modifies db`tableOut, db`tableIn, db`count, db`live, db.live`timestamp
    modifies e`src, e`idst, e`idport, e`iid, e`sum, e`ipSum
    ensures db.Valid() && db.live == old(db.live) && db.tableIn == old(db.tableIn)
    ensures link == null <==> v.Ignored?
    ensures link == null ==> unchanged(e)
    ensures !v.HandedOver?
    ensures link != null ==>
      && e.Quotes() && link in db.live
      && e.idst == AliasAddress(link, db.aliasAddress)
      && e.src == (if old(e.src) == old(e.idst) then e.idst else old(e.src))
      && (if e.proto == ICMP then e.iid == link.aliasPort && e.idport == old(e.idport)
          else e.idport == link.aliasPort && e.iid == old(e.iid))
      && Cong(e.Covered(), old(e.Covered())) && Cong(e.CoveredIp(), old(e.CoveredIp()))
    ensures old(Clean(db)) && e.Quotes() && old(e.QuotedOutKey()).dst != ANY && old(e.QuotedOutKey()).dport != 0 ==>
      Clean(db) && old(db.live) <= db.live && (link != null ==> SendsAs(link, old(e.QuotedOutKey()), db.aliasAddress))
  {
    if !e.Quotes() {
      return Ignored, null;
    }
    var l := FindOut(db, e.QuotedOutKey(), false, d);
    if l == null {
      return Ignored, null;
    }
    RewriteErrorOut(e, AliasAddress(l, db.aliasAddress), l.aliasPort);
    v, link := Ok, l;
  }

  /** The destination quoted, and the ICMP checksum over it. */
  method RewriteQuotedOut(e: IcmpError, addr: Addr, port: Port)
    modifies e`idst, e`idport, e`iid, e`sum
    ensures e.idst == addr && Cong(e.Covered(), old(e.Covered()))
    ensures if e.proto == ICMP then e.iid == port && e.idport == old(e.idport)
            else e.idport == port && e.iid == old(e.iid)
  {
    var was := if e.proto == ICMP then e.iid else e.idport;
    QuotedSum(Words(e.isrc) + (if e.proto == ICMP then 0 else e.isport) + e.rest, e.idst, addr, was, port, e.sum);
    e.sum := AdjustChecksum(Words(e.idst) - Words(addr) + was - port, e.sum);
    e.idst := addr;
    if e.proto == ICMP {
      e.iid := port;
    } else {
      e.idport := port;
    }
  }

  method RewriteErrorOut(e: IcmpError, addr: Addr, port: Port)
    modifies e`src, e`idst, e`idport, e`iid, e`sum, e`ipSum
    ensures e.idst == addr && e.src == (if old(e.src) == old(e.idst) then addr else old(e.src))
    ensures if e.proto == ICMP then e.iid == port && e.idport == old(e.idport)
            else e.idport == port && e.iid == old(e.iid)
    ensures Cong(e.Covered(), old(e.Covered())) && Cong(e.CoveredIp(), old(e.CoveredIp()))
  {
    var fromTarget := e.src == e.idst;
    RewriteQuotedOut(e, addr, port);
    if fromTarget {
      e.ipSum := ReplaceWords(e.ipSum, addr, e.src, Words(e.dst) + e.ipRest);
      e.src := addr;
    }
  }
}
