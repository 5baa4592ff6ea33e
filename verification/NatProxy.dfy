/**
  Transparent proxying of TCP (alias.c): a connection is redirected to a proxy server on its way out, and what the
  server answers looks as if it came from where the connection was meant to go.  How a packet is given a link is
  NatPackets; here is what happens to the packet and to its checksums.
 */
module NatProxy {
  import opened Checksum
  import opened LinkTable
  import opened NatPackets
  import SeqTranslate

  /** What a link remembers of a redirected connection; a link that is not redirected has both as 0. */
  datatype Meant = Meant(addr: Addr, port: Port)

  /** The sums kept by replacing one port and one address. */
  lemma RedirectSum(rest: int, port: Port, addr: Addr, newPort: Port, newAddr: Addr, sum: Word)
    ensures var r := Adjusted(port - newPort + Words(addr) - Words(newAddr), sum);
            Cong(rest + newPort + Words(newAddr) + r, rest + port + Words(addr) + sum)
  {
    AdjustKeepsSum(rest, port + Words(addr), newPort + Words(newAddr), sum);
    assert port - newPort + Words(addr) - Words(newAddr) == port + Words(addr) - (newPort + Words(newAddr));
  }

  /** The beginning of TcpAliasOut for a packet that a proxy rule sends to a server. */
  method RedirectOut(p: Packet, server: Addr, serverPort: Port) returns (meant: Meant)
    modifies p`dst, p`dport, p`sum, p`ipSum
    ensures meant == Meant(old(p.dst), old(p.dport))
    ensures p.dst == server && p.dport == serverPort
    ensures Cong(p.Covered(), old(p.Covered())) && Cong(p.CoveredIp(), old(p.CoveredIp()))
  {
    meant := Meant(p.dst, p.dport);
    var accumulate: int := p.dport;
    RedirectSum(Words(p.src) + p.sport + Words(p.seqno) + Words(p.ackno) + p.rest, p.dport, p.dst, serverPort, server,
                p.sum);
    p.dport := serverPort;
    accumulate := accumulate - p.dport;
    accumulate := accumulate + Words(p.dst) - Words(server);
    p.sum := AdjustChecksum(accumulate, p.sum);
    p.ipSum := AdjustIp(p.ipSum, p.dst, server, Words(p.src) + p.ipRest);
    p.dst := server;
  }

  /** Whether the adjustment for an answer is right, if the packet carried `src` and `dst`: with a port remembered
      the sum is adjusted by the address remembered, but the packet takes that address only if it is not 0. */
  predicate AdjustsRight(alias: Addr, dst: Addr, src: Addr, meant: Meant) {
    if (meant.port != 0) == (meant.addr != ANY) then Cong(Words(alias), Words(dst))
    else if meant.port != 0 then Cong(Words(alias) + Words(src), Words(dst))
    else Cong(Words(alias) + Words(meant.addr), Words(dst) + Words(src))
  }

  /** The words the adjustment for an answer takes for those of the destination. */
  function Taken(alias: Addr, src: Addr, meant: Meant): (a: int)
    ensures -131070 <= a <= 262140
  {
    var s: int, m: int := Words(src), Words(meant.addr);
    Words(alias) + (if meant.port != 0 then s - m else 0)
  }

  /** The words that should have been taken, when the source has become `now`. */
  function Due(dst: Addr, src: Addr, now: Addr): int {
    var s: int, n: int := Words(src), Words(now);
    Words(dst) + (s - n)
  }

  lemma SameDifference(x: int, y: int, u: int, v: int)
    requires x - y == u - v
    ensures Cong(x, y) <==> Cong(u, v)
  {
  }

  lemma RightAdjustment(alias: Addr, dst: Addr, src: Addr, meant: Meant)
    ensures var now := if meant.addr != ANY then meant.addr else src;
            AdjustsRight(alias, dst, src, meant) <==> Cong(Taken(alias, src, meant), Due(dst, src, now))
  {
    var taken, due := Taken(alias, src, meant), Due(dst, src, if meant.addr != ANY then meant.addr else src);
    if (meant.port != 0) == (meant.addr != ANY) {
      SameDifference(taken, due, Words(alias), Words(dst));
    } else if meant.port != 0 {
      SameDifference(taken, due, Words(alias) + Words(src), Words(dst));
    } else {
      SameDifference(taken, due, Words(alias) + Words(meant.addr), Words(dst) + Words(src));
    }
  }

  /** What a packet's sum has become is right exactly if the adjustment was. */
  lemma Restored(rest: int, out: int, into: int, alias: Addr, dst: Addr, src: Addr, meant: Meant, now: Addr, sum: Word)
    requires 0 <= out <= 600000 && 0 <= into <= 600000 && now == if meant.addr != ANY then meant.addr else src
    ensures AdjustsRight(alias, dst, src, meant) <==>
            Cong(rest + into + Adjusted(out + Taken(alias, src, meant) - into, sum),
                 rest + Due(dst, src, now) + out + sum)
  {
    InSum(rest, out, Taken(alias, src, meant), into, Due(dst, src, now), sum);
    RightAdjustment(alias, dst, src, meant);
  }

  /** The beginning of RestoreIn: ports, acknowledgment and the TCP checksum. */
  method RestorePorts(p: Packet, aliasAddr: Addr, originalAddr: Addr, originalPort: Port, meant: Meant, delta: int)
    modifies p`sport, p`dport, p`ackno, p`sum
    ensures p.dport == originalPort && p.sport == if meant.port != 0 then meant.port else old(p.sport)
    ensures p.ackno == SeqTranslate.Wrap(old(p.ackno) - delta)
    ensures p.sum == Adjusted(old(p.dport + p.sport + Words(p.ackno)) + Taken(aliasAddr, p.src, meant)
                              - (p.dport + p.sport + Words(p.ackno) + Words(originalAddr)), old(p.sum))
  {
    var accumulate: int := p.dport;
    p.dport := originalPort;
    accumulate := accumulate - p.dport;
    accumulate := accumulate + Words(aliasAddr) - Words(originalAddr);
    if meant.port != 0 {
      accumulate := accumulate + p.sport;
      p.sport := meant.port;
      accumulate := accumulate - p.sport;
      accumulate := accumulate + Words(p.src) - Words(meant.addr);
    }
    var moved, change := MoveNumber(p.ackno, -delta);
    accumulate := accumulate + change;
    p.ackno := moved;
    p.sum := AdjustChecksum(accumulate, p.sum);
  }

  /** What TcpAliasIn does to a packet, proxy or not: `meant` is what the link remembers. */
  method RestoreIn(p: Packet, aliasAddr: Addr, originalAddr: Addr, originalPort: Port, meant: Meant, delta: int)
    modifies p`src, p`sport, p`dst, p`dport, p`ackno, p`sum, p`ipSum
    ensures p.dst == originalAddr && p.dport == originalPort
    ensures p.src == if meant.addr != ANY then meant.addr else old(p.src)
    ensures p.sport == if meant.port != 0 then meant.port else old(p.sport)
    ensures p.ackno == SeqTranslate.Wrap(old(p.ackno) - delta)
    ensures Cong(p.Covered(), old(p.Covered())) <==> AdjustsRight(aliasAddr, old(p.dst), old(p.src), meant)
    ensures Cong(p.CoveredIp(), old(p.CoveredIp()))
  {
    ghost var before := p.Covered();
    ghost var dst, src, out, sum := p.dst, p.src, p.dport + p.sport + Words(p.ackno), p.sum;
    RestorePorts(p, aliasAddr, originalAddr, originalPort, meant, delta);
    ghost var into := p.dport + p.sport + Words(p.ackno) + Words(originalAddr);
    RestoreAddresses(p, originalAddr, meant);
    ghost var rest := Words(p.src) + Words(p.seqno) + p.rest;
    assert before == rest + Due(dst, src, p.src) + out + sum;
    assert p.Covered() == rest + into + p.sum;
    Restored(rest, out, into, aliasAddr, dst, src, meant, p.src, sum);
  }

  /** The rest of RestoreIn: both addresses go into one adjustment of the IP checksum. */
  method RestoreAddresses(p: Packet, originalAddr: Addr, meant: Meant)
    modifies p`src, p`dst, p`ipSum
    ensures p.dst == originalAddr && p.src == if meant.addr != ANY then meant.addr else old(p.src)
    ensures Cong(p.CoveredIp(), old(p.CoveredIp()))
  {
    ghost var was := Words(p.src) + Words(p.dst);
    var accumulate: int := Words(p.dst);
    p.dst := originalAddr;
    accumulate := accumulate - Words(p.dst);
    if meant.addr != ANY {
      accumulate := accumulate + Words(p.src);
      p.src := meant.addr;
      accumulate := accumulate - Words(p.src);
    }
    AdjustKeepsSum(p.ipRest, was, Words(p.src) + Words(p.dst), p.ipSum);
    p.ipSum := AdjustChecksum(accumulate, p.ipSum);
  }

  /** TcpAliasOut's rewrites of a redirected packet, one after the other. */
  method SendRedirected(p: Packet, server: Addr, serverPort: Port, aliasAddr: Addr, aliasPort: Port, growth: int)
    returns (meant: Meant)
    modifies p`src, p`sport, p`dst, p`dport, p`seqno, p`sum, p`ipSum
    ensures meant == Meant(old(p.dst), old(p.dport))
    ensures p.src == aliasAddr && p.sport == aliasPort && p.dst == server && p.dport == serverPort
    ensures p.seqno == SeqTranslate.Wrap(old(p.seqno) + growth)
    ensures Cong(p.Covered(), old(p.Covered())) && Cong(p.CoveredIp(), old(p.CoveredIp()))
  {
    ghost var c0, i0 := p.Covered(), p.CoveredIp();
    meant := RedirectOut(p, server, serverPort);
    ghost var c1, i1 := p.Covered(), p.CoveredIp();
    RewriteTcpOut(p, aliasAddr, aliasPort, growth);
    CongChain(p.Covered(), c1, c0);
    CongChain(p.CoveredIp(), i1, i0);
  }

  lemma CongChain(x: int, y: int, z: int)
    requires Cong(x, y) && Cong(y, z)
    ensures Cong(x, z)
  {
  }

  lemma Cancelled(a: int, s: int, m: int)
    ensures Cong(a, a) && (Cong(a + m, a + s) <==> Cong(m, s)) && (Cong(s, m) <==> Cong(m, s))
  {
    SameDifference(a + m, a + s, m, s);
    CongFlip(m - s);
  }

  lemma AnswerAdjustsRight(alias: Addr, server: Addr, meant: Meant)
    ensures AdjustsRight(alias, alias, server, meant) <==>
            (meant.addr != ANY <==> meant.port != 0) || Cong(Words(meant.addr), Words(server))
  {
    var a, s, m := Words(alias), Words(server), Words(meant.addr);
    Cancelled(a, s, m);
    if meant.port != 0 && meant.addr == ANY {
      assert m == 0;
      SameDifference(a + s, a, s, m);
    }
  }

  /** A client opens a connection to somewhere; it is redirected and sent out under the link's alias.  Whatever the
      server answers to that packet reaches the client, and comes from where the client meant to go, except for an
      address or a port of 0, which stay the server's. */
  method ProxyRoundTrip(p: Packet, server: Addr, serverPort: Port, aliasAddr: Addr, aliasPort: Port, growth: int,
                        q: Packet, behind: int)
    requires p != q
    requires q.src == server && q.sport == serverPort && q.dst == aliasAddr && q.dport == aliasPort
    modifies p`src, p`sport, p`dst, p`dport, p`seqno, p`sum, p`ipSum
    modifies q`src, q`sport, q`dst, q`dport, q`ackno, q`sum, q`ipSum
    ensures p.dst == old(q.src) && p.dport == old(q.sport) && p.src == old(q.dst) && p.sport == old(q.dport)
    ensures q.dst == old(p.src) && q.dport == old(p.sport)
    ensures old(p.dst) != ANY ==> q.src == old(p.dst)
    ensures old(p.dport) != 0 ==> q.sport == old(p.dport)
    ensures Cong(p.Covered(), old(p.Covered())) && Cong(p.CoveredIp(), old(p.CoveredIp()))
    ensures Cong(q.Covered(), old(q.Covered())) <==>
            (old(p.dst) != ANY <==> old(p.dport) != 0) || Cong(Words(old(p.dst)), Words(server))
    ensures Cong(q.CoveredIp(), old(q.CoveredIp()))
  {
    var src, sport := p.src, p.sport;
    var meant := SendRedirected(p, server, serverPort, aliasAddr, aliasPort, growth);
    RestoreIn(q, aliasAddr, src, sport, meant, behind);
    AnswerAdjustsRight(aliasAddr, server, meant);
  }
}
