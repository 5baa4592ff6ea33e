/**
  The table of aliasing links: every link sits in one chain of the output table and one of the input
  table, and a hashed lookup answers as a scan of all links would.

  Addresses and ports are the values of the packet fields in network order.
 */
module LinkTable {
  import opened Wrappers
  import opened Checksum
  import opened SeqTranslate

  type Addr = Dword
  type Port = Checksum.Word

  const ANY: Addr := 0                       // INADDR_ANY
  const ADDR_NONE: Addr := 0xffff_ffff       // INADDR_NONE
  const OUT_SIZE: nat := 101                 // LINK_TABLE_OUT_SIZE
  const IN_SIZE: nat := 4001                 // LINK_TABLE_IN_SIZE
  const TRIALS: nat := 20                    // GET_NEW_PORT_MAX_ATTEMPTS
  const PORT_BASE: nat := 0x8000             // ALIAS_PORT_BASE
  const GET_ALIAS_PORT: int := -1
  const NO_DEST_PORT: Port := 1

  // link types
  const ICMP: nat := 1
  const TCP: nat := 6
  const UDP: nat := 17
  const IPPROTO_MAX: nat := 256
  const FRAGMENT_ID: nat := IPPROTO_MAX + 1
  const FRAGMENT_PTR: nat := IPPROTO_MAX + 2
  const LINK_ADDR: nat := IPPROTO_MAX + 3
  const PPTP: nat := IPPROTO_MAX + 4

  datatype TcpState = NotConnected | Connected | Disconnected

  /** The counters; LINK_ADDR links are not counted. */
  datatype Tally = TIcmp | TUdp | TTcp | TPptp | TFragId | TFragPtr | TProto | TNone

  function TallyOf(linkType: nat): Tally {
    if linkType == ICMP then TIcmp
    else if linkType == UDP then TUdp
    else if linkType == TCP then TTcp
    else if linkType == PPTP then TPptp
    else if linkType == FRAGMENT_ID then TFragId
    else if linkType == FRAGMENT_PTR then TFragPtr
    else if linkType == LINK_ADDR then TNone
    else TProto
  }

  function InitialExpire(linkType: nat): nat {
    if linkType == TCP then 300
    else if linkType == FRAGMENT_ID then 10
    else if linkType == FRAGMENT_PTR then 30
    else 60
  }

  /** StartPointIn, with the sum taken in a 32-bit unsigned int. */
  function StartPointIn(aliasAddr: Addr, aliasPort: Port, linkType: nat): (n: nat)
    ensures n < IN_SIZE
  {
    (aliasAddr + (if linkType != PPTP then aliasPort else 0) + linkType) % 0x1_0000_0000 % IN_SIZE
  }

  /** StartPointOut */
  function StartPointOut(src: Addr, dst: Addr, sport: Port, dport: Port, linkType: nat): (n: nat)
    ensures n < OUT_SIZE
  {
    (src + dst + (if linkType != PPTP then sport + dport else 0) + linkType) % 0x1_0000_0000 % OUT_SIZE
  }

  datatype Server = Server(addr: Addr, port: Port)

  class AliasLink {
    const linkType: nat
    const srcAddr: Addr
    const dstAddr: Addr
    const aliasAddr: Addr
    const srcPort: Port
    const dstPort: Port
    const aliasPort: Port
    var timestamp: int
    var expireTime: int
    var permanent: bool
    var server: seq<Server>                  // the circular pool, current server first
    var stateIn: TcpState
    var stateOut: TcpState
    const tcp: TcpDat?

    constructor (linkType: nat, srcAddr: Addr, dstAddr: Addr, aliasAddr: Addr,
                 srcPort: Port, dstPort: Port, aliasPort: Port, timestamp: int, tcp: TcpDat?)
      ensures this.linkType == linkType && this.srcAddr == srcAddr && this.dstAddr == dstAddr
      ensures this.aliasAddr == aliasAddr && this.srcPort == srcPort && this.dstPort == dstPort
      ensures this.aliasPort == aliasPort && this.timestamp == timestamp && this.tcp == tcp
      ensures permanent == (linkType == PPTP) && server == []
      ensures stateIn == stateOut == NotConnected && expireTime == InitialExpire(linkType)
    {
      this.linkType, this.srcAddr, this.dstAddr, this.aliasAddr := linkType, srcAddr, dstAddr, aliasAddr;
      this.srcPort, this.dstPort, this.aliasPort, this.timestamp := srcPort, dstPort, aliasPort, timestamp;
      this.tcp := tcp;
      permanent, server := linkType == PPTP, [];
      stateIn, stateOut, expireTime := NotConnected, NotConnected, InitialExpire(linkType);
    }

    /** LINK_PARTIALLY_SPECIFIED */
    predicate Partial() { dstAddr == ANY || dstPort == 0 }

    /** A TCP link has its log of edits. */
    ghost predicate HasLog()
      reads if tcp == null then {} else {tcp, tcp.ack}
    {
      tcp != null && tcp.Valid()
    }

    function InSlot(): nat { StartPointIn(aliasAddr, aliasPort, linkType) }

    function OutSlot(): nat { StartPointOut(srcAddr, dstAddr, srcPort, dstPort, linkType) }
  }

  /** What an outgoing lookup asks for. */
  datatype OutKey = OutKey(src: Addr, dst: Addr, sport: Port, dport: Port, linkType: nat) {
    function Slot(): nat { StartPointOut(src, dst, sport, dport, linkType) }

    predicate SameFields(l: AliasLink) {
      l.srcAddr == src && l.dstAddr == dst && l.srcPort == sport && l.dstPort == dport && l.linkType == linkType
    }
  }

  /** What an incoming lookup asks for. */
  datatype InKey = InKey(dst: Addr, alias: Addr, dport: Port, aliasPort: Port, linkType: nat) {
    function Slot(): nat { StartPointIn(alias, aliasPort, linkType) }

    /** How well a link answers: 0 fully specified, 1 destination port unknown, 2 destination address
        unknown, 3 both unknown, 4 not at all. */
    function Rank(l: AliasLink): (r: nat)
      ensures r <= 4
    {
      var noAddr := dst == ANY || l.dstAddr == ANY;
      var noPort := dport == 0 || l.dstPort == 0;
      if l.aliasAddr != alias || l.aliasPort != aliasPort || l.linkType != linkType then 4
      else if !noAddr && !noPort then (if l.dstAddr == dst && l.dstPort == dport then 0 else 4)
      else if noAddr && noPort then 3
      else if noAddr then (if l.dstPort == dport then 2 else 4)
      else if l.dstAddr == dst then 1 else 4
    }

    predicate Partial() { dst == ANY || dport == 0 }
  }

  function InKeyOf(l: AliasLink): InKey {
    InKey(l.dstAddr, l.aliasAddr, l.dstPort, l.aliasPort, l.linkType)
  }

  /** The results of random() and of GetSocket, in the order they are asked for. */
  datatype Draws = Draws(rnd: seq<nat>, socks: seq<bool>) {
    ghost predicate Enough() { |rnd| > TRIALS && |socks| > TRIALS }
  }

  datatype Mode = Mode(samePorts: bool, useSockets: bool, denyIncoming: bool, proxyOnly: bool)

  /** LIST_REMOVE */
  function Unlisted<T(==)>(s: seq<T>, x: T): (r: seq<T>)
    ensures forall y :: y in r ==> y in s && y != x
    ensures forall y :: y in s && y != x ==> y in r
  {
    if s == [] then [] else if s[0] == x then Unlisted(s[1..], x) else [s[0]] + Unlisted(s[1..], x)
  }

  lemma {:induction false} UnlistedNoDup<T>(s: seq<T>, x: T)
    requires NoDup(s)
    ensures NoDup(Unlisted(s, x))
  {
    if s != [] {
      assert NoDup(s[1..]);
      UnlistedNoDup(s[1..], x);
      assert forall i :: 1 <= i < |s| ==> s[i] != s[0];
      assert s[0] !in s[1..];
    }
  }

  /** A table holds each of the given links once, in the chain its key hashes to, and nothing else. */
  ghost predicate Indexes(table: seq<seq<AliasLink>>, live: set<AliasLink>, slot: AliasLink -> nat) {
    && (forall l :: l in live ==> slot(l) < |table| && l in table[slot(l)])
    && (forall i :: 0 <= i < |table| ==> NoDup(table[i]))
    && (forall i, l :: 0 <= i < |table| && l in table[i] ==> l in live && slot(l) == i)
  }

  lemma IndexesInsert(table: seq<seq<AliasLink>>, live: set<AliasLink>, slot: AliasLink -> nat, l: AliasLink)
    requires Indexes(table, live, slot) && l !in live && slot(l) < |table|
    ensures Indexes(table[slot(l) := [l] + table[slot(l)]], live + {l}, slot)
  {
  }

  lemma IndexesRemove(table: seq<seq<AliasLink>>, live: set<AliasLink>, slot: AliasLink -> nat, l: AliasLink)
    requires Indexes(table, live, slot) && l in live
    ensures Indexes(table[slot(l) := Unlisted(table[slot(l)], l)], live - {l}, slot)
  {
    UnlistedNoDup(table[slot(l)], l);
  }

  ghost function OfTally(live: set<AliasLink>, t: Tally): set<AliasLink> {
    set l | l in live && TallyOf(l.linkType) == t
  }

  ghost predicate Counts(count: map<Tally, int>, live: set<AliasLink>) {
    forall t :: t != TNone ==> t in count && count[t] == |OfTally(live, t)|
  }

  lemma CountsInsert(count: map<Tally, int>, live: set<AliasLink>, l: AliasLink)
    requires Counts(count, live) && l !in live
    ensures var t := TallyOf(l.linkType);
            Counts(if t == TNone then count else count[t := count[t] + 1], live + {l})
  {
    var t := TallyOf(l.linkType);
    forall u: Tally ensures OfTally(live + {l}, u) == if u == t then OfTally(live, u) + {l} else OfTally(live, u) {
    }
  }

  lemma CountsRemove(count: map<Tally, int>, live: set<AliasLink>, l: AliasLink)
    requires Counts(count, live) && l in live
    ensures var t := TallyOf(l.linkType);
            Counts(if t == TNone then count else count[t := count[t] - 1], live - {l})
  {
    var t := TallyOf(l.linkType);
    forall u: Tally ensures OfTally(live - {l}, u) == if u == t then OfTally(live, u) - {l} else OfTally(live, u) {
    }
  }

  class AliasDb {
    var tableOut: seq<seq<AliasLink>>
    var tableIn: seq<seq<AliasLink>>
    var count: map<Tally, int>
    var timeStamp: int
    var cleanupIndex: nat
    var deleteAllLinks: bool
    var mode: Mode
    const aliasAddress: Addr
    const targetAddress: Addr
    ghost var live: set<AliasLink>

    /** The logs of edits of the links. */
    ghost function Logs(): set<object>
      reads this
    {
      (set l | l in live && l.tcp != null :: l.tcp) + (set l | l in live && l.tcp != null :: l.tcp.ack)
    }

    ghost predicate Valid()
      reads this, Logs()
    {
      && |tableOut| == OUT_SIZE && |tableIn| == IN_SIZE && cleanupIndex < OUT_SIZE
      && Indexes(tableOut, live, (l: AliasLink) => l.OutSlot())
      && Indexes(tableIn, live, (l: AliasLink) => l.InSlot())
      && Counts(count, live)
      && (forall l :: l in live && l.linkType == TCP ==> l.HasLog())
    }

    constructor (aliasAddress: Addr, targetAddress: Addr, mode: Mode, now: int)
      ensures Valid() && live == {} && timeStamp == now && this.mode == mode && !deleteAllLinks
      ensures this.aliasAddress == aliasAddress && this.targetAddress == targetAddress
    {
      this.aliasAddress, this.targetAddress, this.mode := aliasAddress, targetAddress, mode;
      timeStamp, cleanupIndex, deleteAllLinks := now, 0, false;
      tableOut := seq(OUT_SIZE, _ => []);
      tableIn := seq(IN_SIZE, _ => []);
      count := map[TIcmp := 0, TUdp := 0, TTcp := 0, TPptp := 0, TFragId := 0, TFragPtr := 0, TProto := 0];
      live := {};
    }

    // -------------------------------------------------------------- lookups

    /** The chain search of _FindLinkOut. */
    method FindExactOut(key: OutKey) returns (r: AliasLink?)
      requires Valid()
      modifies live`timestamp
      ensures Valid()
      ensures r == null <==> forall l :: l in live && key.SameFields(l) ==> l.server != []
      ensures r != null ==> r in live && key.SameFields(r) && r.server == [] && r.timestamp == timeStamp
      ensures forall l :: l in live && l != r ==> l.timestamp == old(l.timestamp)
    {
      var chain := tableOut[key.Slot()];
      var i := 0;
      while i < |chain|
        invariant 0 <= i <= |chain|
        invariant forall k :: 0 <= k < i ==> !(key.SameFields(chain[k]) && chain[k].server == [])
        invariant forall l :: l in live ==> l.timestamp == old(l.timestamp)
      {
        var l := chain[i];
        if key.SameFields(l) && l.server == [] {
          l.timestamp := timeStamp;
          return l;
        }
        i := i + 1;
      }
      r := null;
      assert forall l :: l in live && key.SameFields(l) ==> l in chain;
    }

    /** The chain search of _FindLinkIn: the first link of the best rank. */
    method FindBestIn(key: InKey) returns (r: AliasLink?)
      requires Valid()
      modifies live`timestamp
      ensures Valid()
      ensures r == BestIn(tableIn[key.Slot()], key)
      ensures r == null <==> forall l :: l in live ==> key.Rank(l) == 4
      ensures r != null ==> r in live && key.Rank(r) < 4 && forall l :: l in live ==> key.Rank(r) <= key.Rank(l)
      ensures r != null && key.Rank(r) == 0 ==> r.timestamp == timeStamp
      ensures forall l :: l in live && (l != r || key.Rank(l) != 0) ==> l.timestamp == old(l.timestamp)
    {
      var chain := tableIn[key.Slot()];
      var full: AliasLink?, unknownAll: AliasLink?, unknownAddr: AliasLink?, unknownPort: AliasLink? :=
        null, null, null, null;
      var i := 0;
      while i < |chain| && full == null
        invariant 0 <= i <= |chain|
        invariant full == FirstIn(chain, i, key, 0)
        invariant full == null ==> unknownPort == FirstIn(chain, i, key, 1)
        invariant full == null ==> unknownAddr == FirstIn(chain, i, key, 2)
        invariant full == null ==> unknownAll == FirstIn(chain, i, key, 3)
      {
        var l := chain[i];
        var noAddr := key.dst == ANY || l.dstAddr == ANY;
        var noPort := key.dport == 0 || l.dstPort == 0;
        var alias := l.aliasAddr == key.alias && l.aliasPort == key.aliasPort && l.linkType == key.linkType;
        if !noAddr && !noPort {
          if alias && l.dstAddr == key.dst && l.dstPort == key.dport {
            full := l;
          }
        } else if noAddr && noPort {
          if alias && unknownAll == null {
            unknownAll := l;
          }
        } else if noAddr {
          if alias && l.dstPort == key.dport && unknownAddr == null {
            unknownAddr := l;
          }
        } else {
          if alias && l.dstAddr == key.dst && unknownPort == null {
            unknownPort := l;
          }
        }
        i := i + 1;
      }
      BestInIsBest(tableIn, live, key);
      if full != null {
        FirstInStays(chain, i, |chain|, key, 0);
        full.timestamp := timeStamp;
        r := full;
      } else if unknownPort != null {
        r := unknownPort;
      } else if unknownAddr != null {
        r := unknownAddr;
      } else {
        r := unknownAll;
      }
    }

    /** What FindLinkIn answers when it is not asked to replace partial links. */
    ghost function Answer(key: InKey): (r: AliasLink?)
      requires Valid()
      reads this, Logs()
    {
      AnswerIn(tableIn, aliasAddress, key)
    }

    /** FindLinkIn without replacement: the default alias address also finds links that name none. */
    method LookupIn(key: InKey) returns (r: AliasLink?)
      requires Valid()
      modifies live`timestamp
      ensures Valid() && r == Answer(key) && (r != null ==> r in live)
    {
      r := FindBestIn(key);
      if r == null && aliasAddress != ANY && key.alias == aliasAddress {
        r := FindBestIn(key.(alias := ANY));
      }
    }

    // -------------------------------------------------------------- adding and deleting

    ghost predicate CanUse(key: InKey)
      requires Valid()
      reads this, Logs()
    {
      Usable(tableIn, aliasAddress, key)
    }

    /** The port an automatic choice comes to: the first one tried that suits. */
    ghost function Choice(key: InKey, srcPort: Port, d: Draws): (r: Option<Port>)
      requires Valid() && d.Enough()
      reads this, Logs()
      ensures r.Some? ==> CanUse(key.(aliasPort := r.value))
    {
      var i := FirstTrial(tableIn, aliasAddress, mode, key, srcPort, d, 0);
      if i == TRIALS then None else Some(Candidate(mode, srcPort, d, i))
    }

    /** The body of GetNewPort's loop: whether the candidate is taken; `bound` is what GetSocket would answer. */
    method TryPort(key: InKey, candidate: Port, bound: bool) returns (taken: bool)
      requires Valid()
      modifies live`timestamp
      ensures taken <==> Usable(tableIn, aliasAddress, key.(aliasPort := candidate)) && (Binds(mode, key) ==> bound)
    {
      taken := false;
      var found := LookupIn(key.(aliasPort := candidate));
      if found == null || (!key.Partial() && found.Partial()) {
        if mode.useSockets && key.Partial() && (key.linkType == TCP || key.linkType == UDP) {
          taken := bound;
        } else {
          taken := true;
        }
      }
    }

    /** The search loop of GetNewPort. */
    method SearchPort(key: InKey, srcPort: Port, first: Port, d: Draws) returns (port: Option<Port>)
      requires Valid() && d.Enough() && first == Candidate(mode, srcPort, d, 0)
      modifies live`timestamp
      ensures port == Choice(key, srcPort, d)
    {
      ghost var table, m := tableIn, mode;
      var candidate := first;
      var i := 0;
      while i < TRIALS
        invariant i <= TRIALS && candidate == Candidate(m, srcPort, d, i)
        invariant FirstTrial(table, aliasAddress, m, key, srcPort, d, 0) ==
          FirstTrial(table, aliasAddress, m, key, srcPort, d, i)
      {
        var taken := TryPort(key, candidate, d.socks[i]);
        if taken {
          return Some(candidate);
        }
        i := i + 1;
        candidate := d.rnd[i] % PORT_BASE + PORT_BASE;
      }
      port := None;
    }

    /** GetNewPort; `key` carries the link's fields, its aliasPort is not looked at. */
    method GetNewPort(key: InKey, srcPort: Port, param: int, d: Draws) returns (port: Option<Port>)
      requires Valid() && d.Enough()
      modifies live`timestamp
      ensures port == if param == GET_ALIAS_PORT then Choice(key, srcPort, d)
                      else if 0 <= param < 0x1_0000 then Some(param) else None
    {
      if param == GET_ALIAS_PORT {
        var first: Port := if mode.samePorts then srcPort else d.rnd[0] % PORT_BASE + PORT_BASE;
        port := SearchPort(key, srcPort, first, d);
      } else if 0 <= param < 0x1_0000 {
        port := Some(param);
      } else {
        port := None;
      }
    }

    /** AddLink */
    method AddLink(key: OutKey, alias: Addr, param: int, d: Draws) returns (r: AliasLink?)
      requires Valid() && d.Enough()
      modifies this`tableOut, this`tableIn, this`count, this`live, live`timestamp
      ensures Valid()
      ensures r == null ==> live == old(live) && tableOut == old(tableOut) && tableIn == old(tableIn)
      ensures fresh(live - old(live))
      ensures (if r == null then None else Some(r.aliasPort)) ==
        if param == GET_ALIAS_PORT then old(Choice(InKey(key.dst, alias, key.dport, 0, key.linkType), key.sport, d))
        else if 0 <= param < 0x1_0000 then Some(param) else None
      ensures r != null ==> fresh(r) && live == old(live) + {r} && key.SameFields(r) && r.aliasAddr == alias
      ensures r != null ==> r.server == [] && r.timestamp == timeStamp && (r.permanent <==> key.linkType == PPTP)
      ensures r != null ==> r.expireTime == InitialExpire(key.linkType)
      ensures r != null ==> r.stateIn == NotConnected && r.stateOut == NotConnected
      ensures r != null ==> (r.tcp != null <==> key.linkType == TCP)
      ensures r != null && r.tcp != null ==> fresh(r.tcp) && fresh(r.tcp.ack) && r.tcp.Valid() && !r.tcp.ackModified
    {
      var inKey := InKey(key.dst, alias, key.dport, 0, key.linkType);
      var port := GetNewPort(inKey, key.sport, param, d);
      if port == None {
        return null;
      }
      r := Enlist(key, alias, port.value);
    }

    /** A new link with these fields joins the table. */
    method Enlist(key: OutKey, alias: Addr, port: Port) returns (r: AliasLink)
      requires Valid()
      modifies this`tableOut, this`tableIn, this`count, this`live
      ensures Valid() && fresh(r) && live == old(live) + {r}
      ensures key.SameFields(r) && r.aliasAddr == alias && r.aliasPort == port
      ensures r.server == [] && r.timestamp == timeStamp && (r.permanent <==> key.linkType == PPTP)
      ensures r.expireTime == InitialExpire(key.linkType)
      ensures r.stateIn == NotConnected && r.stateOut == NotConnected
      ensures r.tcp != null <==> key.linkType == TCP
      ensures r.tcp != null ==> fresh(r.tcp) && fresh(r.tcp.ack) && r.tcp.Valid() && !r.tcp.ackModified
    {
      var aux: TcpDat? := null;
      if key.linkType == TCP {
        aux := new TcpDat();
      }
      r := new AliasLink(key.linkType, key.src, key.dst, alias, key.sport, key.dport, port, timeStamp, aux);
      Register(r);
    }

    /** Counts a new link and puts it at the head of its two chains. */
    method Register(r: AliasLink)
      requires Valid() && r !in live && (r.linkType == TCP ==> r.HasLog())
      modifies this`tableOut, this`tableIn, this`count, this`live
      ensures Valid() && live == old(live) + {r}
    {
      var t := TallyOf(r.linkType);
      CountsInsert(count, live, r);
      IndexesInsert(tableOut, live, (l: AliasLink) => l.OutSlot(), r);
      IndexesInsert(tableIn, live, (l: AliasLink) => l.InSlot(), r);
      if t != TNone {
        count := count[t := count[t] + 1];
      }
      tableOut := tableOut[r.OutSlot() := [r] + tableOut[r.OutSlot()]];
      tableIn := tableIn[r.InSlot() := [r] + tableIn[r.InSlot()]];
      live := live + {r};
    }

    /** DeleteLink */
    method DeleteLink(link: AliasLink)
      requires Valid() && link in live
      modifies this`tableOut, this`tableIn, this`count, this`live
      ensures Valid()
      ensures live == if link.permanent && !deleteAllLinks then old(live) else old(live) - {link}
    {
      if !deleteAllLinks && link.permanent {
        return;
      }
      var t := TallyOf(link.linkType);
      CountsRemove(count, live, link);
      IndexesRemove(tableOut, live, (l: AliasLink) => l.OutSlot(), link);
      IndexesRemove(tableIn, live, (l: AliasLink) => l.InSlot(), link);
      tableOut := tableOut[link.OutSlot() := Unlisted(tableOut[link.OutSlot()], link)];
      tableIn := tableIn[link.InSlot() := Unlisted(tableIn[link.InSlot()], link)];
      if t != TNone {
        count := count[t := count[t] - 1];
      }
      live := live - {link};
    }

    /** ReLink: a permanent link stays beside its replacement. */
    method ReLink(old': AliasLink, key: OutKey, alias: Addr, port: Port, d: Draws) returns (r: AliasLink)
      requires Valid() && old' in live && d.Enough()
      modifies this`tableOut, this`tableIn, this`count, this`live, live`timestamp
      ensures Valid() && fresh(r) && key.SameFields(r) && r.aliasAddr == alias && r.aliasPort == port
      ensures r.server == []
      ensures live == (if old'.permanent && !deleteAllLinks then old(live) else old(live) - {old'}) + {r}
    {
      var added := AddLink(key, alias, port, d);
      r := added;
      DeleteLink(old');
    }

    // -------------------------------------------------------------- lookups that replace partial links

    /** The partial links that may stand in for an outgoing key, in the order they are tried. */
    function PartialKeys(key: OutKey): seq<OutKey> {
      (if key.dport != 0 && key.dst != ANY then [key.(dport := 0), key.(dst := ANY)] else []) +
      (if key.dport != 0 || key.dst != ANY then [key.(dst := ANY, dport := 0)] else [])
    }

    /** Link r with key's fields and l's alias has taken the place of the partial link l. */
    ghost predicate Replaces(l: AliasLink, key: OutKey, r: AliasLink, before: set<AliasLink>, after: set<AliasLink>,
                             always: bool)
      reads l
    {
      && l.Partial() && l.srcAddr == key.src && l.srcPort == key.sport && l.linkType == key.linkType
      && r.aliasAddr == l.aliasAddr && r.aliasPort == l.aliasPort
      && after == (if l.permanent && !always then before else before - {l}) + {r}
    }

    /** The searches for a partial link that may stand in for an outgoing key. */
    method FindPartialOut(key: OutKey) returns (r: AliasLink?)
      requires Valid()
      modifies live`timestamp
      ensures r == null <==>
        forall k, l :: k in PartialKeys(key) && l in live && k.SameFields(l) ==> l.server != []
      ensures r != null ==> r in live && r.Partial() && r.server == []
      ensures r != null ==> r.srcAddr == key.src && r.srcPort == key.sport && r.linkType == key.linkType
    {
      r := null;
      if key.dport != 0 && key.dst != ANY {
        r := FindExactOut(key.(dport := 0));
        if r == null {
          r := FindExactOut(key.(dst := ANY));
        }
      }
      if r == null && (key.dport != 0 || key.dst != ANY) {
        r := FindExactOut(key.(dst := ANY, dport := 0));
      }
    }

    /** _FindLinkOut: an exact match if there is one anywhere; else, if asked to, the first partial match
        is replaced by an exact link with its alias. */
    method FindLinkOut1(key: OutKey, replace: bool, d: Draws) returns (r: AliasLink?)
      requires Valid() && d.Enough()
      modifies this`tableOut, this`tableIn, this`count, this`live, live`timestamp
      ensures Valid()
      ensures r != null ==> r in live && key.SameFields(r) && r.server == []
      ensures (exists l :: l in old(live) && key.SameFields(l) && old(l.server) == [])
              ==> r != null && r in old(live)
      ensures r == null || r in old(live) ==> live == old(live) && tableIn == old(tableIn)
      ensures r == null && replace ==>
        (forall k, l :: k in PartialKeys(key) && l in old(live) && k.SameFields(l) ==> old(l.server) != [])
      ensures r != null && r !in old(live) ==>
        fresh(r) && replace && (exists l :: l in old(live) && Replaces(l, key, r, old(live), live, deleteAllLinks))
    {
      r := FindExactOut(key);
      if r == null && replace {
        var partial := FindPartialOut(key);
        if partial != null {
          r := ReLink(partial, key, partial.aliasAddr, partial.aliasPort, d);
          assert Replaces(partial, key, r, old(live), live, deleteAllLinks);
        }
      }
    }

    /** FindLinkOut: the default alias address also stands for links that name no source. */
    method FindLinkOut(key: OutKey, replace: bool, d: Draws) returns (r: AliasLink?)
      requires Valid() && d.Enough()
      modifies this`tableOut, this`tableIn, this`count, this`live, live`timestamp
      ensures Valid()
      ensures r != null ==> r in live && r.server == []
      ensures r != null ==>
        (key.SameFields(r) || (aliasAddress != ANY && key.src == aliasAddress && key.(src := ANY).SameFields(r)))
      ensures (exists l :: l in old(live) && key.SameFields(l) && old(l.server) == []) ==>
                r != null && key.SameFields(r) && r in old(live)
      ensures r == null || r in old(live) ==> live == old(live) && tableIn == old(tableIn)
      ensures r == null ==> forall l :: l in old(live) && key.SameFields(l) ==> old(l.server) != []
      ensures r != null && r !in old(live) ==> fresh(r) && replace && (exists l :: l in old(live) && l.Partial())
      ensures fresh(live - old(live))
    {
      r := FindLinkOut1(key, replace, d);
      if r == null && aliasAddress != ANY && key.src == aliasAddress {
        r := FindLinkOut1(key.(src := ANY), replace, d);
      }
    }

    /** _FindLinkIn: the best answer; if asked to, a partial link or a server pool is replaced by a fully
        specified link, and the pool moves on to its next server. */
    method FindLinkIn1(key: InKey, replace: bool, d: Draws) returns (r: AliasLink?)
      requires Valid() && d.Enough()
      modifies this`tableOut, this`tableIn, this`count, this`live, live`timestamp, live`server
      ensures Valid()
      ensures r != null ==> r.linkType == key.linkType && r.aliasAddr == key.alias && r in live
      ensures var best := old(BestIn(tableIn[key.Slot()], key));
        && (best == null <==> r == null)
        && (r != null && !(replace && (best.Partial() || old(best.server) != [])) ==> r == best)
        && (r == null || r == best ==>
              (live == old(live) && tableIn == old(tableIn) && forall l :: l in live ==> l.server == old(l.server)))
        && (r != null && replace && (best.Partial() || old(best.server) != []) ==>
              && fresh(r) && r.aliasAddr == key.alias && r.aliasPort == key.aliasPort
              && r.dstAddr == key.dst && r.dstPort == key.dport && r.linkType == key.linkType
              && (var from := if old(best.server) != [] then old(best.server)[0]
                              else Server(best.srcAddr, best.srcPort);
                  r.srcAddr == from.addr && r.srcPort == from.port)
              && live == (if best.permanent && !deleteAllLinks then old(live) else old(live) - {best}) + {r})
    {
      r := FindBestIn(key);
      if r != null && replace && (r.Partial() || r.server != []) {
        var from := Server(r.srcAddr, r.srcPort);
        if r.server != [] {
          from := r.server[0];
          r.server := r.server[1..] + [r.server[0]];
        }
        r := ReLink(r, OutKey(from.addr, key.dst, from.port, key.dport, key.linkType), key.alias, key.aliasPort, d);
      }
    }

    /** FindLinkIn */
    method FindLinkIn(key: InKey, replace: bool, d: Draws) returns (r: AliasLink?)
      requires Valid() && d.Enough()
      modifies this`tableOut, this`tableIn, this`count, this`live, live`timestamp, live`server
      ensures Valid() && fresh(live - old(live))
      ensures r == null <==> old(Answer(key)) == null
      ensures r != null ==> r in live && r.linkType == key.linkType
      ensures r != null ==>
        r.aliasAddr == key.alias || (r.aliasAddr == ANY && aliasAddress != ANY && key.alias == aliasAddress)
      ensures r == null || r == old(Answer(key)) ==>
        (live == old(live) && tableIn == old(tableIn) && forall l :: l in live ==> l.server == old(l.server))
      ensures var best := old(Answer(key));
        && (r != null && !(replace && (best.Partial() || old(best.server) != [])) ==> r == best)
        && (r != null && replace && (best.Partial() || old(best.server) != []) ==>
              && fresh(r) && (r.aliasAddr == key.alias || r.aliasAddr == ANY) && r.aliasPort == key.aliasPort
              && r.dstAddr == key.dst && r.dstPort == key.dport && r.linkType == key.linkType
              && live == (if best.permanent && !deleteAllLinks then old(live) else old(live) - {best}) + {r})
    {
      r := FindLinkIn1(key, replace, d);
      if r == null && aliasAddress != ANY && key.alias == aliasAddress {
        r := FindLinkIn1(key.(alias := ANY), replace, d);
      }
    }

    /** FindOriginalAddress: the inside host an alias address belongs to. */
    method FindOriginalAddress(alias: Addr) returns (a: Addr)
      requires Valid()
      modifies live`timestamp, live`server
      ensures Valid()
      ensures old(Answer(InKey(ANY, alias, 0, 0, LINK_ADDR))) == null ==>
        a == (if targetAddress == ANY then alias
              else if targetAddress == ADDR_NONE then aliasAddress else targetAddress)
      ensures old(Answer(InKey(ANY, alias, 0, 0, LINK_ADDR))) == null ==>
        forall l :: l in live ==> l.server == old(l.server)
    {
      var link := LookupIn(InKey(ANY, alias, 0, 0, LINK_ADDR));
      if link == null {
        a := if targetAddress == ANY then alias
             else if targetAddress == ADDR_NONE then aliasAddress else targetAddress;
      } else {
        a := NextServer(link);
      }
    }

    /** The host a redirected address is for: the next server of the pool, or the source of the link. */
    method NextServer(link: AliasLink) returns (a: Addr)
      requires Valid() && link in live
      modifies link`server
      ensures Valid()
    {
      if link.server != [] {
        a := link.server[0].addr;
        link.server := link.server[1..] + [link.server[0]];
      } else {
        a := if link.srcAddr == ANY then aliasAddress else link.srcAddr;
      }
    }

    /** FindAliasAddress: the address an inside host is shown under. */
    method FindAliasAddress(original: Addr, d: Draws) returns (a: Addr)
      requires Valid() && d.Enough()
      modifies this`tableOut, this`tableIn, this`count, this`live, live`timestamp
      ensures Valid() && live == old(live) && tableIn == old(tableIn)
      ensures (forall l :: l in live ==> !l.Partial()) ==> a == aliasAddress
    {
      var link := FindLinkOut(OutKey(original, ANY, 0, 0, LINK_ADDR), false, d);
      a := if link == null || link.aliasAddr == ANY then aliasAddress else link.aliasAddr;
    }

    // -------------------------------------------------------------- expiry

    /** The links one sweep of a chain removes: expired, except a TCP link with both sides connected. */
    predicate Stale(l: AliasLink)
      reads this`timeStamp, l
    {
      && timeStamp - l.timestamp > l.expireTime
      && (l.linkType == TCP ==> l.stateIn != Connected || l.stateOut != Connected)
    }

    /** A stale link is removed unless it is permanent. */
    predicate Doomed(l: AliasLink)
      reads this`timeStamp, this`deleteAllLinks, l
    {
      Stale(l) && (deleteAllLinks || !l.permanent)
    }

    ghost function DoomedIn(chain: seq<AliasLink>): set<AliasLink>
      reads this`timeStamp, this`deleteAllLinks, chain
    {
      set l | l in chain && Doomed(l)
    }

    /** The body of the sweep, for one link. */
    method SweepOne(link: AliasLink)
      requires Valid() && link in live
      modifies this`tableOut, this`tableIn, this`count, this`live
      ensures Valid() && live == if Doomed(link) then old(live) - {link} else old(live)
    {
      if link.linkType == TCP {
        if timeStamp - link.timestamp > link.expireTime {
          if link.stateIn != Connected || link.stateOut != Connected {
            DeleteLink(link);
          }
        }
      } else if timeStamp - link.timestamp > link.expireTime {
        DeleteLink(link);
      }
    }

    /** The sweep of a chain. */
    method SweepChain(chain: seq<AliasLink>)
      requires Valid() && NoDup(chain) && forall l :: l in chain ==> l in live
      modifies this`tableOut, this`tableIn, this`count, this`live
      ensures Valid() && live == old(live) - DoomedIn(chain)
    {
      ghost var doomed := DoomedIn(chain);
      var i := 0;
      while i < |chain|
        invariant 0 <= i <= |chain| && Valid()
        invariant live == old(live) - Among(chain[..i], doomed)
      {
        assert chain[i] !in chain[..i];
        assert chain[i] in doomed <==> Doomed(chain[i]);
        SweepOne(chain[i]);
        assert chain[..i + 1] == chain[..i] + [chain[i]];
        i := i + 1;
      }
      assert chain[..|chain|] == chain && Among(chain, doomed) == doomed;
    }

    /** IncrementalCleanup sweeps one chain of the output table and moves on to the next. */
    method IncrementalCleanup()
      requires Valid()
      modifies this`tableOut, this`tableIn, this`count, this`live, this`cleanupIndex
      ensures Valid()
      ensures cleanupIndex == (old(cleanupIndex) + 1) % OUT_SIZE
      ensures live == old(live) - DoomedIn(old(tableOut[cleanupIndex]))
    {
      var chain := tableOut[cleanupIndex];
      cleanupIndex := cleanupIndex + 1;
      if cleanupIndex == OUT_SIZE {
        cleanupIndex := 0;
      }
      SweepChain(chain);
    }
  }

  ghost function Among(chain: seq<AliasLink>, some: set<AliasLink>): set<AliasLink> {
    set l | l in chain && l in some
  }

  /** The first link of the given rank among the first n of a chain. */
  function FirstIn(chain: seq<AliasLink>, n: nat, key: InKey, rank: nat): (r: AliasLink?)
    requires n <= |chain|
    ensures r == null <==> forall j :: 0 <= j < n ==> key.Rank(chain[j]) != rank
    ensures r != null ==> r in chain && key.Rank(r) == rank
  {
    if n == 0 then null
    else
      var r := FirstIn(chain, n - 1, key, rank);
      if r != null then r else if key.Rank(chain[n - 1]) == rank then chain[n - 1] else null
  }

  /** What a lookup answers from the whole input table; the default alias address also finds links that name none. */
  function AnswerIn(table: seq<seq<AliasLink>>, aliasAddress: Addr, key: InKey): (r: AliasLink?)
    requires |table| == IN_SIZE
  {
    var r := BestIn(table[key.Slot()], key);
    if r == null && aliasAddress != ANY && key.alias == aliasAddress
    then BestIn(table[key.(alias := ANY).Slot()], key.(alias := ANY)) else r
  }

  /** A port can be used when nothing answers for it, or only a partial link does and the new link is fully
      specified. */
  ghost predicate Usable(table: seq<seq<AliasLink>>, aliasAddress: Addr, key: InKey)
    requires |table| == IN_SIZE
  {
    var r := AnswerIn(table, aliasAddress, key);
    r == null || (!key.Partial() && r.Partial())
  }

  /** The i-th port GetNewPort tries. */
  function Candidate(mode: Mode, srcPort: Port, d: Draws, i: nat): Port
    requires i < |d.rnd|
  {
    if i == 0 && mode.samePorts then srcPort else d.rnd[i] % PORT_BASE + PORT_BASE
  }

  /** A socket has to be bound for the link. */
  predicate Binds(mode: Mode, key: InKey) {
    mode.useSockets && key.Partial() && (key.linkType == TCP || key.linkType == UDP)
  }

  /** The i-th port is taken if it can be used and, where a socket has to be bound, that works. */
  ghost predicate Suits(table: seq<seq<AliasLink>>, aliasAddress: Addr, mode: Mode, key: InKey, srcPort: Port, d: Draws,
                        i: nat)
    requires |table| == IN_SIZE && d.Enough() && i < TRIALS
  {
    Usable(table, aliasAddress, key.(aliasPort := Candidate(mode, srcPort, d, i))) && (Binds(mode, key) ==> d.socks[i])
  }

  /** The first trial from the i-th on whose port suits; TRIALS if there is none. */
  ghost function FirstTrial(table: seq<seq<AliasLink>>, aliasAddress: Addr, mode: Mode, key: InKey, srcPort: Port,
                            d: Draws, i: nat): (r: nat)
    requires |table| == IN_SIZE && d.Enough() && i <= TRIALS
    ensures i <= r <= TRIALS
    ensures r < TRIALS ==> Suits(table, aliasAddress, mode, key, srcPort, d, r)
    ensures forall j :: i <= j < r ==> !Suits(table, aliasAddress, mode, key, srcPort, d, j)
    decreases TRIALS - i
  {
    if i == TRIALS || Suits(table, aliasAddress, mode, key, srcPort, d, i) then i
    else FirstTrial(table, aliasAddress, mode, key, srcPort, d, i + 1)
  }

  /** Where ports are to stay the same, a port that suits is kept; every other choice is at least ALIAS_PORT_BASE. */
  lemma KeepsPort(table: seq<seq<AliasLink>>, aliasAddress: Addr, mode: Mode, key: InKey, srcPort: Port, d: Draws)
    requires |table| == IN_SIZE && d.Enough()
    ensures var i := FirstTrial(table, aliasAddress, mode, key, srcPort, d, 0);
      && (mode.samePorts && Usable(table, aliasAddress, key.(aliasPort := srcPort)) && (Binds(mode, key) ==> d.socks[0])
          ==> i < TRIALS && Candidate(mode, srcPort, d, i) == srcPort)
      && (i < TRIALS ==> PORT_BASE <= Candidate(mode, srcPort, d, i) || (mode.samePorts && i == 0))
  {
    if mode.samePorts && Usable(table, aliasAddress, key.(aliasPort := srcPort)) && (Binds(mode, key) ==> d.socks[0]) {
      assert Suits(table, aliasAddress, mode, key, srcPort, d, 0);
    }
  }

  /** What a lookup answers from a chain: the first link of the best rank present. */
  function BestIn(chain: seq<AliasLink>, key: InKey): (r: AliasLink?) {
    var full := FirstIn(chain, |chain|, key, 0);
    var noPort := FirstIn(chain, |chain|, key, 1);
    var noAddr := FirstIn(chain, |chain|, key, 2);
    if full != null then full
    else if noPort != null then noPort
    else if noAddr != null then noAddr
    else FirstIn(chain, |chain|, key, 3)
  }

  /** The scan of one chain answers for the whole table: no link anywhere is of a better rank. */
  lemma BestInIsBest(table: seq<seq<AliasLink>>, live: set<AliasLink>, key: InKey)
    requires |table| == IN_SIZE && Indexes(table, live, (l: AliasLink) => l.InSlot())
    ensures var r := BestIn(table[key.Slot()], key);
            if r == null then forall l :: l in live ==> key.Rank(l) == 4
            else r in live && key.Rank(r) < 4 && forall l :: l in live ==> key.Rank(r) <= key.Rank(l)
  {
    var chain := table[key.Slot()];
    forall l | l in live && key.Rank(l) < 4 ensures l in chain {
      assert l.InSlot() == key.Slot();
    }
  }

  /** Once a full match is found the rest of the chain does not matter. */
  lemma {:induction false} FirstInStays(chain: seq<AliasLink>, i: nat, n: nat, key: InKey, rank: nat)
    requires i <= n <= |chain| && FirstIn(chain, i, key, rank) != null
    ensures FirstIn(chain, n, key, rank) == FirstIn(chain, i, key, rank)
  {
    if i < n {
      FirstInStays(chain, i, n - 1, key, rank);
    }
  }
}
