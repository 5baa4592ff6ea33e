/**
  Runs of the engine without redirects, proxies or partially specified links, and what they keep: a packet
  sent out and the mirrored reply that comes back any time later.
 */
module NatRoundTrip {
  import opened Checksum
  import opened LinkTable
  import opened NatEngine
  import opened NatPackets
  import SeqTranslate

  datatype Header = Header(src: Addr, dst: Addr, sport: Port, dport: Port, seqno: Dword, ackno: Dword,
                           sum: Word, ipSum: Word, syn: bool, fin: bool, rst: bool, rest: nat, ipRest: nat)
  {
    /** The sums the checksums make right, as NatPackets has them. */
    function Covered(): int { Words(src) + Words(dst) + sport + dport + Words(seqno) + Words(ackno) + sum + rest }

    function CoveredIcmp(): int { sport + sum + rest }

    function CoveredIp(): int { Words(src) + Words(dst) + ipSum + ipRest }
  }

  /** The packet has these fields. */
  ghost predicate Carries(p: Packet, h: Header)
    reads p
  {
    && p.src == h.src && p.dst == h.dst && p.sport == h.sport && p.dport == h.dport
    && p.seqno == h.seqno && p.ackno == h.ackno && p.sum == h.sum && p.ipSum == h.ipSum
    && p.syn == h.syn && p.fin == h.fin && p.rst == h.rst && p.rest == h.rest && p.ipRest == h.ipRest
  }

  /** What can happen to the engine: a packet in either direction, a clock tick, a cleanup sweep. */
  datatype Op =
    | UdpOut(h: Header) | UdpIn(h: Header)
    | TcpOut(h: Header) | TcpIn(h: Header)
    | EchoOut(h: Header) | EchoIn(h: Header)
    | Tick(now: int)
    | Sweep

  /** The run stays clear of partial links and of application helpers. */
  predicate Ordinary(op: Op, aliasAddress: Addr) {
    match op
    case UdpOut(h) => h.dst != ANY && h.dport != 0 && !UdpHelperOut(h.sport, h.dport)
    case UdpIn(h) => h.src != ANY && h.sport != 0 && (h.dst != ANY || aliasAddress == ANY)
    case TcpOut(h) => h.dst != ANY && h.dport != 0 && !TcpHelperOut(h.sport, h.dport)
    case TcpIn(h) => h.src != ANY && h.sport !in {0, 1723} && h.dport != 1723 && (h.dst != ANY || aliasAddress == ANY)
    case EchoOut(h) => h.dst != ANY
    case EchoIn(h) => h.src != ANY && (h.dst != ANY || aliasAddress == ANY)
    case Tick(_) => true
    case Sweep => true
  }

  method Make(h: Header) returns (p: Packet)
    ensures fresh(p) && Carries(p, h)
  {
    p := new Packet(h.src, h.dst, h.sport, h.dport, h.seqno, h.ackno, h.sum, h.ipSum, h.syn, h.fin, h.rst, h.rest,
                    h.ipRest);
  }

  /** The outgoing key of a packet. */
  function KeyOf(op: Op): OutKey
    requires op.UdpOut? || op.TcpOut? || op.EchoOut?
  {
    if op.EchoOut? then OutKey(op.h.src, op.h.dst, op.h.sport, NO_DEST_PORT, ICMP)
    else OutKey(op.h.src, op.h.dst, op.h.sport, op.h.dport, if op.UdpOut? then UDP else TCP)
  }

  /** The packet left through the link, under its alias, and if there is none as it was. */
  ghost predicate SentThrough(sent: Packet, op: Op, db: AliasDb, link: AliasLink?)
    requires op.UdpOut? || op.TcpOut? || op.EchoOut?
    reads sent, db`live
  {
    && sent.dst == op.h.dst && sent.dport == op.h.dport
    && (link != null ==> link in db.live && SendsAs(link, KeyOf(op), db.aliasAddress)
                         && sent.src == AliasAddress(link, db.aliasAddress) && sent.sport == link.aliasPort)
  }

  method SendUdp(db: AliasDb, op: Op, d: Draws) returns (sent: Packet, ghost link: AliasLink?)
    requires Clean(db) && Ordinary(op, db.aliasAddress) && d.Enough() && op.UdpOut?
    modifies db`tableOut, db`tableIn, db`count, db`live, db.live
    ensures Clean(db) && fresh(db.live - old(db.live)) && old(db.live) <= db.live && fresh(sent)
    ensures SentThrough(sent, op, db, link)
    ensures link == null ==> db.mode.proxyOnly || old(NoPort(db, KeyOf(op), d))
  {
    sent := Make(op.h);
    var v;
    v, link := UdpAliasOut(db, sent, d);
  }

  method SendTcpOut(db: AliasDb, op: Op, d: Draws) returns (sent: Packet, ghost link: AliasLink?)
    requires Clean(db) && Ordinary(op, db.aliasAddress) && d.Enough() && op.TcpOut?
    modifies db`tableOut, db`tableIn, db`count, db`live, db.live
    ensures Clean(db) && fresh(db.live - old(db.live)) && old(db.live) <= db.live && fresh(sent)
    ensures SentThrough(sent, op, db, link)
    ensures link == null ==> db.mode.proxyOnly || old(NoPort(db, KeyOf(op), d))
    ensures link != null ==> link.HasLog() && Advanced(link.tcp.edits, op.h.seqno, sent.seqno)
  {
    sent := Make(op.h);
    var v;
    v, link := TcpAliasOut(db, sent, d);
  }

  method SendEcho(db: AliasDb, op: Op, d: Draws) returns (sent: Packet, ghost link: AliasLink?)
    requires Clean(db) && Ordinary(op, db.aliasAddress) && d.Enough() && op.EchoOut?
    modifies db`tableOut, db`tableIn, db`count, db`live, db.live
    ensures Clean(db) && fresh(db.live - old(db.live)) && old(db.live) <= db.live && fresh(sent)
    ensures SentThrough(sent, op, db, link)
    ensures link == null ==> db.mode.proxyOnly || old(NoPort(db, KeyOf(op), d))
  {
    sent := Make(op.h);
    var v;
    v, link := IcmpAliasOut1(db, sent, d);
  }

  /** Sends a packet of the given kind out; the header it goes out with, and its link. */
  method SendOut(db: AliasDb, op: Op, d: Draws) returns (sent: Packet, ghost link: AliasLink?)
    requires Clean(db) && Ordinary(op, db.aliasAddress) && d.Enough()
    requires op.UdpOut? || op.TcpOut? || op.EchoOut?
    modifies db`tableOut, db`tableIn, db`count, db`live, db.live
    ensures Clean(db) && fresh(db.live - old(db.live)) && old(db.live) <= db.live && fresh(sent)
    ensures SentThrough(sent, op, db, link)
    ensures link == null ==> db.mode.proxyOnly || old(NoPort(db, KeyOf(op), d))
    ensures link != null && op.TcpOut? ==> link.HasLog() && Advanced(link.tcp.edits, op.h.seqno, sent.seqno)
  {
    if op.UdpOut? {
      sent, link := SendUdp(db, op, d);
    } else if op.TcpOut? {
      sent, link := SendTcpOut(db, op, d);
    } else {
      sent, link := SendEcho(db, op, d);
    }
  }

  method ReceiveUdp(db: AliasDb, op: Op, d: Draws)
    requires Clean(db) && Ordinary(op, db.aliasAddress) && d.Enough() && op.UdpIn?
    modifies db`tableOut, db`tableIn, db`count, db`live, db.live
    ensures Clean(db) && fresh(db.live - old(db.live)) && old(db.live) <= db.live
  {
    var p := Make(op.h);
    var v, link := UdpAliasIn(db, p, d);
  }

  method ReceiveTcp(db: AliasDb, op: Op, d: Draws)
    requires Clean(db) && Ordinary(op, db.aliasAddress) && d.Enough() && op.TcpIn?
    modifies db`tableOut, db`tableIn, db`count, db`live, db.live
    ensures Clean(db) && fresh(db.live - old(db.live)) && old(db.live) <= db.live
  {
    var p := Make(op.h);
    var v, link := TcpAliasIn(db, p, d);
  }

  method ReceiveEcho(db: AliasDb, op: Op, d: Draws)
    requires Clean(db) && Ordinary(op, db.aliasAddress) && d.Enough() && op.EchoIn?
    modifies db`tableOut, db`tableIn, db`count, db`live, db.live
    ensures Clean(db) && fresh(db.live - old(db.live)) && old(db.live) <= db.live
  {
    var p := Make(op.h);
    var v, link := IcmpAliasIn1(db, p, d);
  }

  /** The clock, and the chain the next sweep looks at. */
  function Clock(now: int, op: Op): int { if op.Tick? then op.now else now }

  function Swept(i: nat, op: Op): nat { if op.Sweep? then (i + 1) % OUT_SIZE else i }

  function ClockAfter(now: int, ops: seq<Op>): int {
    if ops == [] then now else Clock(ClockAfter(now, ops[..|ops| - 1]), ops[|ops| - 1])
  }

  function SweptAfter(i: nat, ops: seq<Op>): nat {
    if ops == [] then i else Swept(SweptAfter(i, ops[..|ops| - 1]), ops[|ops| - 1])
  }

  /** What a sweep looks at: the age of each link, and the time. */
  datatype Age = Age(timestamp: int, expireTime: int, connected: bool, permanent: bool)

  datatype Moment = Moment(live: set<AliasLink>, now: int, always: bool, ages: map<AliasLink, Age>)

  ghost function AgeOf(l: AliasLink): Age
    reads l
  {
    Age(l.timestamp, l.expireTime, l.stateIn == l.stateOut == Connected, l.permanent)
  }

  ghost function MomentOf(db: AliasDb): Moment
    reads db, db.live
  {
    Moment(db.live, db.timeStamp, db.deleteAllLinks, map l | l in db.live :: AgeOf(l))
  }

  /** A link that has not been used for its time, unless it is a TCP link with both sides connected, or permanent. */
  ghost predicate Overdue(m: Moment, l: AliasLink) {
    && l in m.live && l in m.ages
    && m.now - m.ages[l].timestamp > m.ages[l].expireTime
    && (l.linkType == TCP ==> !m.ages[l].connected) && (m.always || !m.ages[l].permanent)
  }

  /** A sweep takes away exactly the overdue links of chain i, and nothing else takes any. */
  ghost predicate Passes(m: Moment, op: Op, i: nat, m': Moment) {
    if op.Sweep? then m'.live == set l | l in m.live && !(l.OutSlot() == i && Overdue(m, l))
    else m.live <= m'.live
  }

  lemma SweepPasses(db: AliasDb, m': Moment)
    requires db.Valid() && m'.live == db.live - db.DoomedIn(db.tableOut[db.cleanupIndex])
    ensures Passes(MomentOf(db), Sweep, db.cleanupIndex, m')
  {
  }

  /** Every ordinary step keeps the table clean: links stay fully specified and no two of them share
      (type, alias address, alias port, destination address, destination port). */
  method Perform(db: AliasDb, op: Op, d: Draws)
    requires Clean(db) && Ordinary(op, db.aliasAddress) && d.Enough()
    modifies db, db.live
    ensures Clean(db) && fresh(db.live - old(db.live)) && db.mode == old(db.mode)
    ensures !op.Sweep? ==> old(db.live) <= db.live
    ensures db.timeStamp == Clock(old(db.timeStamp), op) && db.cleanupIndex == Swept(old(db.cleanupIndex), op)
    ensures op.Sweep? ==> db.live == old(db.live) - old(db.DoomedIn(db.tableOut[db.cleanupIndex]))
    ensures Passes(old(MomentOf(db)), op, old(db.cleanupIndex), MomentOf(db))
  {
    match op {
      case Tick(now) => db.timeStamp := now;
      case Sweep =>
        SweepPasses(db, MomentOf(db).(live := db.live - db.DoomedIn(db.tableOut[db.cleanupIndex])));
        db.IncrementalCleanup();
      case UdpIn(_) => ReceiveUdp(db, op, d);
      case TcpIn(_) => ReceiveTcp(db, op, d);
      case EchoIn(_) => ReceiveEcho(db, op, d);
      case _ =>
        ghost var link;
        var sent;
        sent, link := SendOut(db, op, d);
    }
  }

  predicate NoSweep(ops: seq<Op>) { Sweep !in ops }

  /** Any run of ordinary steps; `trace` is what it goes through.  Only a sweep takes links away, and only those that
      are overdue in the chain it has come to. */
  method RunAll(db: AliasDb, ops: seq<Op>, ds: seq<Draws>) returns (ghost trace: seq<Moment>)
    requires Clean(db) && |ds| == |ops|
    requires forall i :: 0 <= i < |ops| ==> Ordinary(ops[i], db.aliasAddress) && ds[i].Enough()
    modifies db, db.live
    ensures Clean(db) && fresh(db.live - old(db.live)) && db.mode == old(db.mode)
    ensures NoSweep(ops) ==> old(db.live) <= db.live
    ensures db.timeStamp == ClockAfter(old(db.timeStamp), ops)
    ensures db.cleanupIndex == SweptAfter(old(db.cleanupIndex), ops)
    ensures |trace| == |ops| + 1 && trace[0] == old(MomentOf(db)) && trace[|ops|] == MomentOf(db)
    ensures forall i :: 0 <= i < |ops| ==>
      Passes(trace[i], ops[i], SweptAfter(old(db.cleanupIndex), ops[..i]), trace[i + 1])
  {
    trace := [MomentOf(db)];
    for i := 0 to |ops|
      invariant Clean(db) && fresh(db.live - old(db.live)) && db.mode == old(db.mode)
      invariant NoSweep(ops) ==> old(db.live) <= db.live
      invariant db.timeStamp == ClockAfter(old(db.timeStamp), ops[..i])
      invariant db.cleanupIndex == SweptAfter(old(db.cleanupIndex), ops[..i])
      invariant |trace| == i + 1 && trace[0] == old(MomentOf(db)) && trace[i] == MomentOf(db)
      invariant forall k :: 0 <= k < i ==>
        Passes(trace[k], ops[k], SweptAfter(old(db.cleanupIndex), ops[..k]), trace[k + 1])
    {
      Perform(db, ops[i], ds[i]);
      assert ops[..i + 1][..i] == ops[..i];
      trace := trace + [MomentOf(db)];
    }
    assert ops[..|ops|] == ops;
  }

  /** The incoming key of a reply to what this link sends is the link's own. */
  lemma ReplyFindsLink(db: AliasDb, l: AliasLink)
    requires Clean(db) && l in db.live
    ensures AliasAddress(l, db.aliasAddress) == l.aliasAddr
    ensures Proper(db, InKeyOf(l))
  {
  }

  /** A link gives back the source address it was made for exactly if that address is not the wildcard. */
  lemma OriginalIsSource(l: AliasLink, key: OutKey, aliasAddress: Addr)
    requires SendsAs(l, key, aliasAddress)
    ensures OriginalAddress(l, aliasAddress) == key.src <==> key.src != ANY || aliasAddress == ANY
  {
  }

  /** The reply reached the host that sent the packet: its port always, its address exactly if that was
      not the wildcard. */
  ghost predicate Delivered(addr: Addr, port: Port, key: OutKey, aliasAddress: Addr) {
    port == key.sport && (addr == key.src <==> key.src != ANY || aliasAddress == ANY)
  }

  /** Sends a packet of the given kind and lets an ordinary run follow; the header it went out with. */
  method SendAndRun(db: AliasDb, op: Op, ops: seq<Op>, ds: seq<Draws>, d: Draws)
    returns (sent: Packet, ghost link: AliasLink?)
    requires op.UdpOut? || op.TcpOut? || op.EchoOut?
    requires Clean(db) && Ordinary(op, db.aliasAddress) && !db.mode.proxyOnly && d.Enough()
    requires |ds| == |ops| && forall i :: 0 <= i < |ops| ==> Ordinary(ops[i], db.aliasAddress) && ds[i].Enough()
    modifies db, db.live
    ensures Clean(db) && fresh(db.live - old(db.live)) && db.mode == old(db.mode) && fresh(sent)
    ensures sent.dst == op.h.dst && sent.dport == op.h.dport
    ensures if link == null then old(NoPort(db, KeyOf(op), d)) else SendsAs(link, KeyOf(op), db.aliasAddress)
    ensures link != null && NoSweep(ops) ==> link in db.live
    ensures link != null ==> sent.src == AliasAddress(link, db.aliasAddress) && sent.sport == link.aliasPort
    ensures link != null && op.TcpOut? ==> link.HasLog() && Advanced(link.tcp.edits, op.h.seqno, sent.seqno)
  {
    sent, link := SendOut(db, op, d);
    ghost var trace := RunAll(db, ops, ds);
  }

  /** The link a packet went out through, if it is still there, is the one its reply asks for. */
  ghost predicate Expects(db: AliasDb, link: AliasLink?, key: OutKey, asked: InKey)
    reads db
  {
    link != null && link in db.live ==> SendsAs(link, key, db.aliasAddress) && asked == InKeyOf(link)
  }

  lemma SentExpects(db: AliasDb, link: AliasLink?, key: OutKey, asked: InKey)
    requires Clean(db)
    requires link != null ==> SendsAs(link, key, db.aliasAddress)
    requires link != null ==>
      asked == InKey(key.dst, AliasAddress(link, db.aliasAddress), key.dport, link.aliasPort, key.linkType)
    ensures Expects(db, link, key, asked)
  {
    if link != null && link in db.live {
      ReplyFindsLink(db, link);
    }
  }

  /** The reply a packet that left as `sent` gets: addressed back, and whatever else its sender puts into it. */
  function Mirror(src: Addr, dst: Addr, sport: Port, dport: Port, back: Header): Header {
    back.(src := dst, dst := src, sport := dport, dport := sport)
  }

  /** What was asked is the mirror image of a packet of this outgoing key, as it left through the link. */
  ghost predicate Answers(asked: Header, back: Header, link: AliasLink, key: OutKey, aliasAddress: Addr) {
    asked == Mirror(AliasAddress(link, aliasAddress), key.dst, link.aliasPort, key.dport, back)
  }

  /** The packet is the reply `asked`, readdressed to the host that sent the packet of this key, with its UDP and IP
      sums kept. */
  ghost predicate UdpDelivered(p: Packet, asked: Header, key: OutKey, aliasAddress: Addr)
    reads p
  {
    && Delivered(p.dst, p.dport, key, aliasAddress)
    && p.src == asked.src && p.sport == asked.sport && p.rest == asked.rest && p.ipRest == asked.ipRest
    && (asked.sum == 0 ==> p.sum == 0) && (asked.sum != 0 ==> Cong(p.Covered(), asked.Covered()))
    && Cong(p.CoveredIp(), asked.CoveredIp())
  }

  method DeliverUdp(db: AliasDb, reply: Packet, ghost asked: Header, ghost link: AliasLink?, ghost key: OutKey,
                    d: Draws)
    returns (v: Verdict)
    requires Clean(db) && !db.mode.proxyOnly && d.Enough() && Carries(reply, asked)
    requires Expects(db, link, key, InKeyFor(reply, UDP))
    modifies db, db.live, reply
    ensures db.Valid() && fresh(db.live - old(db.live)) && (link != null && old(link in db.live) ==> link in db.live)
    ensures link != null && old(link in db.live) ==>
      if v.HandedOver? then UdpHelperIn(key.dport, key.sport)
      else v.Ok? && UdpDelivered(reply, asked, key, db.aliasAddress)
  {
    ghost var alive := link != null && link in db.live;
    if alive {
      ReplyFindsLink(db, link);
      OriginalIsSource(link, key, db.aliasAddress);
    }
    assert reply.Covered() == asked.Covered() && reply.CoveredIp() == asked.CoveredIp();
    ghost var answer;
    v, answer := UdpAliasIn(db, reply, d);
    assert alive ==> answer == link;
  }

  /** As UdpDelivered; the acknowledgment is moved back by the growth of the link's edits behind it. */
  ghost predicate TcpDelivered(p: Packet, asked: Header, es: seq<SeqTranslate.Edit>, key: OutKey, aliasAddress: Addr)
    reads p
  {
    && Delivered(p.dst, p.dport, key, aliasAddress)
    && p.src == asked.src && p.sport == asked.sport && p.rest == asked.rest && p.ipRest == asked.ipRest
    && p.seqno == asked.seqno && Receded(es, asked.ackno, p.ackno)
    && Cong(p.Covered(), asked.Covered()) && Cong(p.CoveredIp(), asked.CoveredIp())
  }

  method DeliverTcp(db: AliasDb, reply: Packet, ghost asked: Header, ghost link: AliasLink?, ghost key: OutKey,
                    d: Draws)
    returns (v: Verdict)
    requires Clean(db) && d.Enough() && Carries(reply, asked) && Expects(db, link, key, InKeyFor(reply, TCP))
    requires reply.sport != 1723 && reply.dport != 1723
    modifies db, db.live, reply
    ensures db.Valid() && fresh(db.live - old(db.live)) && (link != null && old(link in db.live) ==> link in db.live)
    ensures link != null && old(link in db.live) ==>
      v.Ok? && link.HasLog() && TcpDelivered(reply, asked, link.tcp.edits, key, db.aliasAddress)
  {
    ghost var alive := link != null && link in db.live;
    if alive {
      ReplyFindsLink(db, link);
      OriginalIsSource(link, key, db.aliasAddress);
    }
    assert reply.Covered() == asked.Covered() && reply.CoveredIp() == asked.CoveredIp();
    ghost var answer;
    v, answer := TcpAliasIn(db, reply, d);
    assert alive ==> answer == link;
  }

  /** As UdpDelivered, on the identifier. */
  ghost predicate EchoDelivered(p: Packet, asked: Header, key: OutKey, aliasAddress: Addr)
    reads p
  {
    && Delivered(p.dst, p.sport, key, aliasAddress)
    && p.src == asked.src && p.rest == asked.rest && p.ipRest == asked.ipRest
    && Cong(p.CoveredIcmp(), asked.CoveredIcmp()) && Cong(p.CoveredIp(), asked.CoveredIp())
  }

  method DeliverEcho(db: AliasDb, reply: Packet, ghost asked: Header, ghost link: AliasLink?, ghost key: OutKey,
                     d: Draws)
    returns (v: Verdict)
    requires Clean(db) && d.Enough() && Carries(reply, asked) && Expects(db, link, key, InKeyFor(reply, ICMP))
    modifies db, db.live, reply
    ensures db.Valid() && fresh(db.live - old(db.live)) && (link != null && old(link in db.live) ==> link in db.live)
    ensures link != null && old(link in db.live) ==> v.Ok? && EchoDelivered(reply, asked, key, db.aliasAddress)
  {
    ghost var alive := link != null && link in db.live;
    if alive {
      ReplyFindsLink(db, link);
      OriginalIsSource(link, key, db.aliasAddress);
    }
    assert reply.CoveredIcmp() == asked.CoveredIcmp() && reply.CoveredIp() == asked.CoveredIp();
    ghost var answer;
    v, answer := IcmpAliasIn1(db, reply, d);
    assert alive ==> answer == link;
  }

  // ---------------------------------------------------------------- the round trips

  /**
    The UDP round trip.  A packet is sent out; any ordinary run follows; then the mirrored reply comes in, with any
    contents its sender likes (`back`).  Unless no alias port was left, there is a link for the packet, which only a
    sweep can take away; and as long as it lives, the reply is readdressed to the host the packet came from.  (A host
    that sends from the CUSeeMe port gets its replies through that helper.)
   */
  method UdpRoundTrip(db: AliasDb, out: Header, ops: seq<Op>, ds: seq<Draws>, back: Header, d: Draws, d': Draws)
    returns (reply: Packet, v: Verdict, ghost link: AliasLink?, ghost asked: Header)
    requires Clean(db) && Ordinary(UdpOut(out), db.aliasAddress) && !db.mode.proxyOnly && d.Enough() && d'.Enough()
    requires |ds| == |ops| && forall i :: 0 <= i < |ops| ==> Ordinary(ops[i], db.aliasAddress) && ds[i].Enough()
    modifies db, db.live
    ensures link == null ==> old(NoPort(db, KeyOf(UdpOut(out)), d))
    ensures link != null ==> SendsAs(link, KeyOf(UdpOut(out)), db.aliasAddress) && (NoSweep(ops) ==> link in db.live)
    ensures link != null ==> Answers(asked, back, link, KeyOf(UdpOut(out)), db.aliasAddress)
    ensures link != null && link in db.live ==>
      if v.HandedOver? then out.sport == 7648
      else v.Ok? && UdpDelivered(reply, asked, KeyOf(UdpOut(out)), db.aliasAddress)
  {
    var sent;
    sent, link := SendAndRun(db, UdpOut(out), ops, ds, d);
    asked := Mirror(sent.src, sent.dst, sent.sport, sent.dport, back);
    reply := Make(Mirror(sent.src, sent.dst, sent.sport, sent.dport, back));
    SentExpects(db, link, KeyOf(UdpOut(out)), InKeyFor(reply, UDP));
    v := DeliverUdp(db, reply, asked, link, KeyOf(UdpOut(out)), d');
  }

  /** Position s lies from the end of edit k, which is kept, up to the start of the next one. */
  ghost predicate BehindEdit(es: seq<SeqTranslate.Edit>, k: nat, s: int) {
    && k < |es| <= k + SeqTranslate.SLOTS && es[k].End() <= s && (k + 1 < |es| ==> s <= es[k + 1].start)
    && SeqTranslate.InWindow(es, s, true)
    && SeqTranslate.InWindow(es, s + SeqTranslate.Growth(es[..k + 1]), false)
  }

  /** Position s leaves as s + D, where D is the growth of the edits behind it, and an acknowledgment of s + D reaches
      the host as one of s; without edits nothing is moved. */
  ghost predicate AcksReturn(es: seq<SeqTranslate.Edit>, seqno: Dword, sent: Dword, came: Dword, given: Dword) {
    && (es == [] ==> sent == seqno && given == came)
    && forall k: nat, s: int {:trigger BehindEdit(es, k, s)} :: BehindEdit(es, k, s) ==>
         var d := SeqTranslate.Growth(es[..k + 1]);
         && (seqno == SeqTranslate.Wrap(s) ==> sent == SeqTranslate.Wrap(s + d))
         && (came == SeqTranslate.Wrap(s + d) ==> given == SeqTranslate.Wrap(s))
  }

  lemma NumbersReturn(es: seq<SeqTranslate.Edit>, seqno: Dword, sent: Dword, came: Dword, given: Dword)
    requires SeqTranslate.Ordered(es) && Advanced(es, seqno, sent) && Receded(es, came, given)
    ensures AcksReturn(es, seqno, sent, came, given)
  {
    if es == [] {
      assert SeqTranslate.InWindow(es, seqno, true) && SeqTranslate.InWindow(es, came, false);
      assert SeqTranslate.Wrap(seqno) == seqno && SeqTranslate.Wrap(came) == came;
    }
    forall k: nat, s: int {:trigger BehindEdit(es, k, s)} | BehindEdit(es, k, s)
      ensures var d := SeqTranslate.Growth(es[..k + 1]);
         && (seqno == SeqTranslate.Wrap(s) ==> sent == SeqTranslate.Wrap(s + d))
         && (came == SeqTranslate.Wrap(s + d) ==> given == SeqTranslate.Wrap(s))
    {
      SeqTranslate.SamePassed(es, k, s);
    }
  }

  /** The TCP round trip; `sentSeq` is the sequence number the packet left with.  An alias port that is the PPTP control
      port goes to that helper. */
  method TcpRoundTrip(db: AliasDb, out: Header, ops: seq<Op>, ds: seq<Draws>, back: Header, d: Draws, d': Draws)
    returns (reply: Packet, v: Verdict, sentSeq: Dword, ghost link: AliasLink?, ghost asked: Header)
    requires Clean(db) && Ordinary(TcpOut(out), db.aliasAddress) && !db.mode.proxyOnly && d.Enough() && d'.Enough()
    requires |ds| == |ops| && forall i :: 0 <= i < |ops| ==> Ordinary(ops[i], db.aliasAddress) && ds[i].Enough()
    modifies db, db.live
    ensures link == null ==> old(NoPort(db, KeyOf(TcpOut(out)), d))
    ensures link != null ==> SendsAs(link, KeyOf(TcpOut(out)), db.aliasAddress) && (NoSweep(ops) ==> link in db.live)
    ensures link != null ==> Answers(asked, back, link, KeyOf(TcpOut(out)), db.aliasAddress)
    ensures link != null && link in db.live ==>
      if v.HandedOver? then link.aliasPort == 1723
      else && v.Ok? && link.HasLog() && TcpDelivered(reply, asked, link.tcp.edits, KeyOf(TcpOut(out)), db.aliasAddress)
           && AcksReturn(link.tcp.edits, out.seqno, sentSeq, asked.ackno, reply.ackno)
  {
    var sent;
    sent, link := SendAndRun(db, TcpOut(out), ops, ds, d);
    sentSeq := sent.seqno;
    asked := Mirror(sent.src, sent.dst, sent.sport, sent.dport, back);
    reply := Make(Mirror(sent.src, sent.dst, sent.sport, sent.dport, back));
    if sent.sport == 1723 {
      v := HandedOver;
    } else {
      SentExpects(db, link, KeyOf(TcpOut(out)), InKeyFor(reply, TCP));
      ghost var alive := link != null && link in db.live;
      v := DeliverTcp(db, reply, asked, link, KeyOf(TcpOut(out)), d');
      if alive {
        NumbersReturn(link.tcp.edits, out.seqno, sentSeq, asked.ackno, reply.ackno);
      }
    }
  }

  /** The ICMP echo round trip, on the identifier, which a reply repeats. */
  method EchoRoundTrip(db: AliasDb, out: Header, ops: seq<Op>, ds: seq<Draws>, back: Header, d: Draws, d': Draws)
    returns (reply: Packet, v: Verdict, ghost link: AliasLink?, ghost asked: Header)
    requires Clean(db) && Ordinary(EchoOut(out), db.aliasAddress) && !db.mode.proxyOnly && d.Enough() && d'.Enough()
    requires |ds| == |ops| && forall i :: 0 <= i < |ops| ==> Ordinary(ops[i], db.aliasAddress) && ds[i].Enough()
    modifies db, db.live
    ensures link == null ==> old(NoPort(db, KeyOf(EchoOut(out)), d))
    ensures link != null ==> SendsAs(link, KeyOf(EchoOut(out)), db.aliasAddress) && (NoSweep(ops) ==> link in db.live)
    ensures link != null ==>
      asked == back.(src := out.dst, dst := AliasAddress(link, db.aliasAddress), sport := link.aliasPort)
    ensures link != null && link in db.live ==>
      v.Ok? && EchoDelivered(reply, asked, KeyOf(EchoOut(out)), db.aliasAddress)
  {
    var sent;
    sent, link := SendAndRun(db, EchoOut(out), ops, ds, d);
    asked := back.(src := sent.dst, dst := sent.src, sport := sent.sport);
    reply := Make(back.(src := sent.dst, dst := sent.src, sport := sent.sport));
    SentExpects(db, link, KeyOf(EchoOut(out)), InKeyFor(reply, ICMP));
    v := DeliverEcho(db, reply, asked, link, KeyOf(EchoOut(out)), d');
  }

  // ---------------------------------------------------------------- errors about what was sent

  /** The fields of an ICMP error: the quoted header's begin with i. */
  datatype Quote = Quote(src: Addr, dst: Addr, ipSum: Word, sum: Word, isrc: Addr, idst: Addr, isport: Port,
                         idport: Port, iid: Port, rest: nat, ipRest: nat)
  {
    function Covered(icmp: bool): int {
      Words(isrc) + Words(idst) + (if icmp then iid else isport + idport) + sum + rest
    }

    function CoveredIp(): int { Words(src) + Words(dst) + ipSum + ipRest }
  }

  ghost predicate CarriesQuote(e: IcmpError, q: Quote)
    reads e
  {
    && e.src == q.src && e.dst == q.dst && e.ipSum == q.ipSum && e.sum == q.sum && e.isrc == q.isrc && e.idst == q.idst
    && e.isport == q.isport && e.idport == q.idport && e.iid == q.iid && e.rest == q.rest && e.ipRest == q.ipRest
  }

  /** The error is `asked`, readdressed to the host that sent the packet of this key and quoting the packet as that
      host sent it, with its ICMP and IP sums kept. */
  ghost predicate ErrorDelivered(e: IcmpError, asked: Quote, key: OutKey, aliasAddress: Addr)
    reads e
  {
    && e.dst == e.isrc && Delivered(e.isrc, if e.proto == ICMP then e.iid else e.isport, key, aliasAddress)
    && e.src == asked.src && e.idst == asked.idst && e.idport == asked.idport
    && (if e.proto == ICMP then e.isport == asked.isport else e.iid == asked.iid)
    && e.rest == asked.rest && e.ipRest == asked.ipRest
    && Cong(e.Covered(), asked.Covered(e.proto == ICMP)) && Cong(e.CoveredIp(), asked.CoveredIp())
  }

  method DeliverError(db: AliasDb, e: IcmpError, ghost asked: Quote, ghost link: AliasLink?, ghost key: OutKey,
                      d: Draws)
    returns (v: Verdict)
    requires Clean(db) && d.Enough() && e.Quotes() && CarriesQuote(e, asked) && Expects(db, link, key, e.QuotedInKey())
    modifies db, db.live, e
    ensures db.Valid() && fresh(db.live - old(db.live)) && (link != null && old(link in db.live) ==> link in db.live)
    ensures link != null && old(link in db.live) ==> v.Ok? && ErrorDelivered(e, asked, key, db.aliasAddress)
  {
    ghost var alive := link != null && link in db.live;
    if alive {
      ReplyFindsLink(db, link);
      OriginalIsSource(link, key, db.aliasAddress);
    }
    assert e.Covered() == asked.Covered(e.proto == ICMP) && e.CoveredIp() == asked.CoveredIp();
    ghost var answer;
    v, answer := IcmpAliasIn2(db, e, d);
    assert alive ==> answer == link;
  }

  /** The error quotes a packet of this outgoing key as it left through the link. */
  ghost predicate QuotesSent(asked: Quote, link: AliasLink, key: OutKey, aliasAddress: Addr) {
    && asked.isrc == asked.dst == AliasAddress(link, aliasAddress) && asked.idst == key.dst
    && asked.isport == asked.iid == link.aliasPort && (key.linkType != ICMP ==> asked.idport == key.dport)
  }

  /** An error a router sends back about a rewritten packet, whatever its sums, is delivered to the host the packet
      came from, and quotes the packet as that host sent it. */
  method ErrorRoundTrip(db: AliasDb, op: Op, ops: seq<Op>, ds: seq<Draws>, back: Quote, d: Draws, d': Draws)
    returns (e: IcmpError, v: Verdict, ghost link: AliasLink?, ghost asked: Quote)
    requires op.UdpOut? || op.TcpOut? || op.EchoOut?
    requires Clean(db) && Ordinary(op, db.aliasAddress) && !db.mode.proxyOnly && d.Enough() && d'.Enough()
    requires |ds| == |ops| && forall i :: 0 <= i < |ops| ==> Ordinary(ops[i], db.aliasAddress) && ds[i].Enough()
    modifies db, db.live
    ensures link == null ==> old(NoPort(db, KeyOf(op), d))
    ensures link != null ==> SendsAs(link, KeyOf(op), db.aliasAddress) && (NoSweep(ops) ==> link in db.live)
    ensures asked == back.(dst := asked.dst, isrc := asked.isrc, idst := asked.idst, isport := asked.isport,
                           idport := asked.idport, iid := asked.iid)
    ensures link != null ==> QuotesSent(asked, link, KeyOf(op), db.aliasAddress)
    ensures link != null && link in db.live ==>
      v.Ok? && e.proto == KeyOf(op).linkType && ErrorDelivered(e, asked, KeyOf(op), db.aliasAddress)
  {
    var sent;
    sent, link := SendAndRun(db, op, ops, ds, d);
    e := new IcmpError(back.src, sent.src, back.ipSum, back.sum, KeyOf(op).linkType, true, sent.src, sent.dst,
                       sent.sport, sent.dport, sent.sport, back.rest, back.ipRest);
    asked := back.(dst := sent.src, isrc := sent.src, idst := sent.dst, isport := sent.sport, idport := sent.dport,
                   iid := sent.sport);
    SentExpects(db, link, KeyOf(op), e.QuotedInKey());
    v := DeliverError(db, e, asked, link, KeyOf(op), d');
  }
}
