/**
  Address translation of UDP, TCP and ICMP packets over the link table, and the round trip: what goes
  out is rewritten, and the mirrored reply is rewritten back.
 */
module NatEngine {
  import opened Wrappers
  import opened LinkTable

  // ---------------------------------------------------------------- links in use

  /** GetOriginalAddress */
  function OriginalAddress(l: AliasLink, aliasAddress: Addr): Addr {
    if l.srcAddr == ANY then aliasAddress else l.srcAddr
  }

  /** GetAliasAddress */
  function AliasAddress(l: AliasLink, aliasAddress: Addr): Addr {
    if l.aliasAddr == ANY then aliasAddress else l.aliasAddr
  }

  /** No two links answer for the same fully specified incoming key. */
  ghost predicate UniqueIn(live: set<AliasLink>) {
    forall l, m :: l in live && m in live && InKeyOf(l) == InKeyOf(m) ==> l == m
  }

  /** A table reached without redirects, server pools or partially specified links. */
  ghost predicate Clean(db: AliasDb)
    reads db, db.Logs(), db.live`server
  {
    && db.Valid()
    && (forall l :: l in db.live ==> Plain(l, db.aliasAddress))
    && UniqueIn(db.live)
  }

  /** A link of ordinary traffic, with both ends known. */
  ghost predicate Plain(l: AliasLink, aliasAddress: Addr)
    reads l`server
  {
    && !l.Partial() && l.server == []
    && (l.aliasAddr != ANY || aliasAddress == ANY)
    && Traffic(l.linkType)
  }

  predicate Traffic(linkType: nat) { linkType == UDP || linkType == TCP || linkType == ICMP }

  /** In a clean table a link is the answer to its own incoming key. */
  lemma AnswerIsUnique(db: AliasDb, key: InKey)
    requires Clean(db) && !key.Partial()
    ensures var r := db.Answer(key);
            && (r != null ==> r in db.live && key.Rank(r) == 0 && InKeyOf(r) == key)
            && (r == null ==> forall l :: l in db.live ==> InKeyOf(l) != key)
            && (forall l :: l in db.live && InKeyOf(l) == key ==> r == l)
  {
    BestInIsBest(db.tableIn, db.live, key);
    var any := key.(alias := ANY);
    BestInIsBest(db.tableIn, db.live, any);
  }

  /** In a clean table a port GetNewPort hands out is free for its destination. */
  lemma UsableIsFree(db: AliasDb)
    requires Clean(db)
    ensures forall k: InKey :: !k.Partial() && db.CanUse(k) ==> NobodyAnswers(db.live, k)
  {
    forall k: InKey | !k.Partial() && db.CanUse(k) ensures NobodyAnswers(db.live, k) {
      AnswerIsUnique(db, k);
    }
  }

  ghost predicate NobodyAnswers(live: set<AliasLink>, key: InKey) {
    forall l :: l in live ==> InKeyOf(l) != key
  }

  /** A link added under a key nobody answers for keeps the table clean. */
  lemma StaysClean(db: AliasDb, before: set<AliasLink>, r: AliasLink)
    requires db.Valid() && db.live == before + {r}
    requires forall l :: l in before ==> Plain(l, db.aliasAddress)
    requires UniqueIn(before) && Plain(r, db.aliasAddress)
    requires NobodyAnswers(before, InKeyOf(r))
    ensures Clean(db)
  {
  }

  // ---------------------------------------------------------------- finding or making the link of a packet

  predicate Trial(i: nat) { i < TRIALS }

  /** None of the alias ports GetNewPort tries for this outgoing key under an alias address suits; `own` is the default
      alias address. */
  ghost predicate Exhausted(table: seq<seq<AliasLink>>, own: Addr, alias: Addr, mode: Mode, key: OutKey, d: Draws)
    requires |table| == IN_SIZE && d.Enough()
  {
    forall i {:trigger Trial(i)} :: Trial(i) ==>
      !Suits(table, own, mode, InKey(key.dst, alias, key.dport, 0, key.linkType), key.sport, d, i)
  }

  ghost predicate NoPort(db: AliasDb, key: OutKey, d: Draws)
    requires db.Valid() && d.Enough()
    reads db, db.Logs()
  {
    Exhausted(db.tableIn, db.aliasAddress, db.aliasAddress, db.mode, key, d)
  }

  /** The automatic choice of a port fails exactly if every trial does. */
  lemma ChoiceFails(db: AliasDb, key: OutKey, alias: Addr, d: Draws)
    requires db.Valid() && d.Enough()
    ensures Exhausted(db.tableIn, db.aliasAddress, alias, db.mode, key, d) <==>
      db.Choice(InKey(key.dst, alias, key.dport, 0, key.linkType), key.sport, d) == None
  {
    var i := FirstTrial(db.tableIn, db.aliasAddress, db.mode, InKey(key.dst, alias, key.dport, 0, key.linkType),
                        key.sport, d, 0);
    if i < TRIALS {
      assert Trial(i);
    }
  }

  /** AddLink on an alias port GetNewPort picks keeps a clean table clean. */
  method AddPicked(db: AliasDb, key: OutKey, alias: Addr, ghost clean: bool, d: Draws) returns (r: AliasLink?)
    requires db.Valid() && d.Enough() && Traffic(key.linkType)
    requires clean ==> Clean(db) && key.dst != ANY && key.dport != 0 && alias == db.aliasAddress
    modifies db`tableOut, db`tableIn, db`count, db`live, db.live`timestamp
    ensures db.Valid() && fresh(db.live - old(db.live)) && old(db.live) <= db.live
    ensures r != null ==> fresh(r) && db.live == old(db.live) + {r} && key.SameFields(r)
    ensures r == null ==> db.live == old(db.live) && db.tableIn == old(db.tableIn)
    ensures r == null <==> Exhausted(old(db.tableIn), db.aliasAddress, alias, db.mode, key, d)
    ensures clean ==> Clean(db)
  {
    ghost var before := db.live;
    if clean {
      UsableIsFree(db);
    }
    ChoiceFails(db, key, alias, d);
    r := db.AddLink(key, alias, GET_ALIAS_PORT, d);
    if clean && r != null {
      assert NobodyAnswers(before, InKey(key.dst, alias, key.dport, r.aliasPort, key.linkType));
      StaysClean(db, before, r);
    }
  }

  /** A new link for an outgoing packet, under the alias address of its host. */
  method AddOut(db: AliasDb, key: OutKey, d: Draws) returns (r: AliasLink?)
    requires db.Valid() && d.Enough() && Traffic(key.linkType)
    modifies db`tableOut, db`tableIn, db`count, db`live, db.live`timestamp
    ensures db.Valid() && fresh(db.live - old(db.live)) && old(db.live) <= db.live
    ensures r != null ==> fresh(r) && db.live == old(db.live) + {r} && key.SameFields(r)
    ensures r == null ==> db.live == old(db.live) && db.tableIn == old(db.tableIn)
    ensures r == null ==> exists alias :: Exhausted(old(db.tableIn), db.aliasAddress, alias, db.mode, key, d)
    ensures old(Clean(db)) && key.dst != ANY && key.dport != 0 ==> Clean(db) && (r == null <==> old(NoPort(db, key, d)))
  {
    ghost var clean := Clean(db) && key.dst != ANY && key.dport != 0;
    var alias := db.FindAliasAddress(key.src, d);
    if clean {
      assert Clean(db);
    }
    r := AddPicked(db, key, alias, clean, d);
  }

  /** FindUdpTcpOut, and FindIcmpOut, which does not replace partial links. */
  method FindOut(db: AliasDb, key: OutKey, create: bool, d: Draws) returns (r: AliasLink?)
    requires db.Valid() && d.Enough()
    requires Traffic(key.linkType)
    modifies db`tableOut, db`tableIn, db`count, db`live, db.live`timestamp
    ensures db.Valid() && fresh(db.live - old(db.live))
    ensures r != null ==> r in db.live && r.linkType == key.linkType
    ensures (exists l :: l in old(db.live) && key.SameFields(l) && old(l.server) == []) ==>
      r != null && key.SameFields(r) && r in old(db.live)
    ensures r == null || !create ==> db.live == old(db.live) && db.tableIn == old(db.tableIn)
    ensures r == null && create ==> exists alias :: Exhausted(old(db.tableIn), db.aliasAddress, alias, db.mode, key, d)
    ensures old(Clean(db)) && key.dst != ANY && key.dport != 0 ==>
      && Clean(db) && old(db.live) <= db.live
      && (r != null ==> SendsAs(r, key, db.aliasAddress))
      && (r == null && create ==> old(NoPort(db, key, d)))
      && (r == null ==> forall l :: l in old(db.live) ==> !key.SameFields(l))
  {
    ghost var clean := Clean(db) && key.dst != ANY && key.dport != 0;
    r := db.FindLinkOut(key, create && key.linkType != ICMP, d);
    if clean {
      assert Clean(db);
    }
    if r == null && create {
      r := AddOut(db, key, d);
    }
  }

  /** The link carries packets of this outgoing key. */
  ghost predicate SendsAs(l: AliasLink, key: OutKey, aliasAddress: Addr) {
    && l.dstAddr == key.dst && l.dstPort == key.dport && l.srcPort == key.sport && l.linkType == key.linkType
    && (l.srcAddr == key.src || (l.srcAddr == ANY && aliasAddress != ANY && key.src == aliasAddress))
  }

  /** A key with both ends known. */
  ghost predicate Proper(db: AliasDb, key: InKey) {
    !key.Partial() && (key.alias != ANY || db.aliasAddress == ANY)
  }

  /** The host an unsolicited packet is for, unless the whole address is redirected. */
  function Target(db: AliasDb, alias: Addr): Addr {
    if db.targetAddress == ANY then alias
    else if db.targetAddress == ADDR_NONE then db.aliasAddress else db.targetAddress
  }

  /** A new link for an incoming packet nobody answers for: its own port, to the target host. */
  method AddIn(db: AliasDb, key: InKey, d: Draws) returns (r: AliasLink)
    requires db.Valid() && d.Enough() && Traffic(key.linkType)
    modifies db`tableOut, db`tableIn, db`count, db`live, db.live`timestamp, db.live`server
    ensures db.Valid() && fresh(db.live - old(db.live))
    ensures fresh(r) && db.live == old(db.live) + {r} && InKeyOf(r) == key && r.srcPort == key.aliasPort
    ensures old(db.Answer(InKey(ANY, key.alias, 0, 0, LINK_ADDR))) == null ==> r.srcAddr == Target(db, key.alias)
    ensures old(Clean(db) && NobodyAnswers(db.live, key)) && Proper(db, key) ==>
      Clean(db) && old(db.live) <= db.live
  {
    ghost var clean := Clean(db) && Proper(db, key) && NobodyAnswers(db.live, key);
    if clean {
      NoAddrLinks(db, key.alias);
    }
    var target := db.FindOriginalAddress(key.alias);
    if clean {
      assert Clean(db);
    }
    r := AddFor(db, key, target, clean, d);
  }

  /** AddLink under the packet's own key keeps a clean table clean. */
  method AddFor(db: AliasDb, key: InKey, target: Addr, ghost clean: bool, d: Draws) returns (r: AliasLink)
    requires db.Valid() && d.Enough() && Traffic(key.linkType)
    requires clean ==> Clean(db) && Proper(db, key) && NobodyAnswers(db.live, key)
    modifies db`tableOut, db`tableIn, db`count, db`live, db.live`timestamp
    ensures db.Valid() && fresh(r) && db.live == old(db.live) + {r}
    ensures InKeyOf(r) == key && r.srcPort == key.aliasPort && r.srcAddr == target
    ensures clean ==> Clean(db)
  {
    ghost var before := db.live;
    var added := db.AddLink(OutKey(target, key.dst, key.aliasPort, key.dport, key.linkType), key.alias, key.aliasPort,
                            d);
    r := added;
    if clean {
      StaysClean(db, before, r);
    }
  }

  /** No ordinary link redirects a whole address. */
  lemma NoAddrLinks(db: AliasDb, alias: Addr)
    requires Clean(db)
    ensures db.Answer(InKey(ANY, alias, 0, 0, LINK_ADDR)) == null
  {
    BestInIsBest(db.tableIn, db.live, InKey(ANY, alias, 0, 0, LINK_ADDR));
    BestInIsBest(db.tableIn, db.live, InKey(ANY, ANY, 0, 0, LINK_ADDR));
  }

  /** FindUdpTcpIn, and FindIcmpIn, which does not replace partial links. */
  method FindIn(db: AliasDb, key: InKey, create: bool, d: Draws) returns (r: AliasLink?)
    requires db.Valid() && d.Enough() && Traffic(key.linkType)
    modifies db`tableOut, db`tableIn, db`count, db`live, db.live`timestamp, db.live`server
    ensures db.Valid() && fresh(db.live - old(db.live))
    ensures r != null ==> r in db.live && r.linkType == key.linkType
    ensures r != null ==> AliasAddress(r, db.aliasAddress) == if key.alias == ANY then db.aliasAddress else key.alias
    ensures r == null <==> old(db.Answer(key)) == null && (!create || db.mode.denyIncoming)
    ensures r == null || !create ==> db.live == old(db.live) && db.tableIn == old(db.tableIn)
    ensures !create ==> r == old(db.Answer(key))
    ensures r != null && old(db.Answer(key)) == null ==>
      && fresh(r) && db.live == old(db.live) + {r} && InKeyOf(r) == key && r.srcPort == key.aliasPort
      && (old(db.Answer(InKey(ANY, key.alias, 0, 0, LINK_ADDR))) == null ==> r.srcAddr == Target(db, key.alias))
    ensures old(Clean(db)) && Proper(db, key) ==>
      && Clean(db) && old(db.live) <= db.live
      && (r != null ==> InKeyOf(r) == key)
      && (forall l :: l in old(db.live) && InKeyOf(l) == key ==> r == l && db.live == old(db.live))
  {
    ghost var clean := Clean(db) && Proper(db, key);
    if clean {
      AnswerIsUnique(db, key);
    }
    r := db.FindLinkIn(key, create && key.linkType != ICMP, d);
    if clean {
      assert Clean(db);
    }
    if r == null && create && !db.mode.denyIncoming {
      r := AddIn(db, key, d);
    }
  }
}
