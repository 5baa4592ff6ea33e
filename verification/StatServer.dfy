/**
  The statistics server: three connections at most, each a small state machine, and one of them at a time may dump
  the table that was set aside for it, while packets go on being counted in the live one.
 */
module StatServer {
  import opened Wrappers
  import opened StatDump
  import K = KeepStat

  const MAX: nat := 3              // MAX_ACT_CONN
  const AUTH_TMOUT: int := 10
  const READ_TMOUT: int := 300

  datatype St = Start | WaitAuth | WriteData | ReadData | Authorized | WriteError | SendStat | CloseConn

  /** A connection; buf is what is left to write, and taken what the socket has accepted so far. */
  datatype Conn = Conn(fd: int, state: St, nstate: St, timeout: int, reading: bool, buf: string, bn: nat, bi: nat,
                       taken: string)
  {
    /** Everything the server has had to say on this connection. */
    function Said(): string { taken + buf }
  }

  function NewConn(fd: int): Conn { Conn(fd, Start, Start, AUTH_TMOUT, false, "", 0, 0, "") }

  datatype State = State(client: seq<Conn>, nos: nat, statsock: int)

  // ---------------------------------------------------------------- what is kept

  predicate Dumping(c: Conn) { c.state == SendStat || (c.state == WriteData && c.nstate == SendStat) }

  /** The connection is past the digest check, or will be when its buffer is empty. */
  predicate Trusted(c: Conn) {
    var st := if c.state == WriteData then c.nstate else c.state;
    st == Authorized || st == SendStat || st == WriteError
  }

  /** The connection will be closed when its buffer is empty. */
  predicate Leaving(c: Conn) { c.state == CloseConn || (c.state == WriteData && c.nstate == CloseConn) }

  /** The states in which a connection waits for a command. */
  predicate Listening(c: Conn) { c.state == WaitAuth || c.state == Authorized || c.state == ReadData }

  /** An open connection waits for a command, or has something to write. */
  predicate Waits(c: Conn) { c.fd >= 0 ==> if c.reading then Listening(c) else c.state == WriteData }

  /** An open connection dumps exactly if statsock names it; it is at some place of the printed table then, and at the
      beginning otherwise.  Only a connection that writes or dumps has anything left to write. */
  ghost predicate ConnOk(c: Conn, statsock: int, t: Table, bufsize: nat) {
    c.fd >= 0 ==>
      && |c.buf| <= bufsize && (c.state != WriteData && c.state != SendStat ==> c.buf == "")
      && (Dumping(c) <==> c.fd == statsock)
      && (if Dumping(c) then c.bn < 256 && c.bi <= |t[c.bn]| else c.bn == 0 && c.bi == 0)
  }

  /** 1 for an open connection. */
  function Open(c: Conn): nat { if c.fd >= 0 then 1 else 0 }

  /** No two open connections share a socket. */
  ghost predicate Distinct(client: seq<Conn>) {
    forall i, j :: 0 <= i < j < |client| && client[i].fd >= 0 ==> client[i].fd != client[j].fd
  }

  /** At most one connection dumps from the printed table t, and statsock names nobody else. */
  ghost predicate Ok(s: State, t: Table, bufsize: nat) {
    && |s.client| == MAX && bufsize > 0 && s.statsock >= -1
    && s.nos == Open(s.client[0]) + Open(s.client[1]) + Open(s.client[2])
    && Distinct(s.client)
    && (forall i :: 0 <= i < MAX ==> s.client[i].fd >= -1 && ConnOk(s.client[i], s.statsock, t, bufsize))
    && (s.statsock == -1 || exists i :: 0 <= i < MAX && s.client[i].fd == s.statsock)
  }

  // ---------------------------------------------------------------- texts

  function Append(buf: string, text: string, bufsize: nat): (r: string)
    ensures |buf| <= bufsize ==> |r| <= bufsize
  {
    if |buf| + |text| >= bufsize then buf else buf + text
  }

  datatype Err = OkErr | AuthTimeout | Timeout | Invalid | NotAuthorized | Unknown | Lock | Stop

  /** get_err */
  function Message(e: Err): string {
    match e
    case OkErr => "200 - OK\n"
    case NotAuthorized => "202 - You are not authtorized\n"
    case Unknown => "203 - Command unknown\n"
    case Invalid => "204 - Invalid command\n"
    case AuthTimeout => "205 - Authtorization timeout\n"
    case Lock => "206 - Other client uses this resource\n"
    case Timeout => "208 - Connection timeout\n"
    case Stop => "220 - Daemon exiting...\n"
  }

  datatype Cmd = Auth(matches: bool) | Stat | Reply(text: string) | Nop | Quit | UnknownCmd

  /** What a read of the socket brings: the end, an error or half a line, or a command. */
  datatype Input = Eof | Partial | Command(cmd: Cmd)

  /** What select reports of a connection. */
  datatype Io = Quiet | Took(n: int) | Read(input: Input)

  // ---------------------------------------------------------------- what a connection does next

  function Closed(c: Conn): Conn { c.(fd := -1) }

  /** A text goes out, and then the connection is in state `next`. */
  function Replied(c: Conn, text: string, bufsize: nat, next: St): Conn {
    c.(buf := Append(c.buf, text, bufsize), nstate := next, state := WriteData)
  }

  /** A connection that does not dump before select. */
  function Readied(c: Conn, challenge: string, bufsize: nat): Conn {
    match c.state
    case Start => c.(buf := challenge, nstate := WaitAuth, state := WriteData, reading := false)
    case ReadData => c.(reading := true)
    case WaitAuth => if c.timeout <= 0 then Closed(c) else c.(reading := true)
    case Authorized => if c.timeout <= 0 then Closed(c) else c.(reading := true)
    case WriteError => Replied(c, Message(OkErr), bufsize, Authorized).(reading := false)
    case WriteData => c.(reading := false)
    case SendStat => c
    case CloseConn => Closed(c)
  }

  /** A connection that waits for its client is closed exactly if its time is up, and any other only if it is to be. */
  lemma ReadiedKeeps(c: Conn, challenge: string, bufsize: nat)
    requires c.fd >= 0
    ensures Readied(c, challenge, bufsize).fd >= 0 <==>
            !((c.state == WaitAuth || c.state == Authorized) && c.timeout <= 0) && c.state != CloseConn
    ensures Readied(c, challenge, bufsize).fd >= 0 ==> Readied(c, challenge, bufsize).fd == c.fd
    ensures Readied(c, challenge, bufsize).fd >= 0 && Listening(c) ==> Readied(c, challenge, bufsize).reading
  {
  }

  /** A trusted connection after a command other than AUTH; `locked` says that somebody dumps. */
  function Obeyed(c: Conn, cmd: Cmd, locked: bool, stamp: string, bufsize: nat): Conn {
    match cmd
    case UnknownCmd => Replied(c, Message(Unknown), bufsize, c.state)
    case Stat =>
      if locked then Replied(c.(timeout := READ_TMOUT), Message(Lock), bufsize, c.state)
      else Replied(c.(timeout := READ_TMOUT), stamp, bufsize, c.state).(state := SendStat)
    case Reply(text) => Replied(c.(timeout := READ_TMOUT), text, bufsize, CloseConn)
    case Nop => c.(timeout := READ_TMOUT)
    case Quit => Closed(c)
    case Auth(_) => Closed(c)
  }

  /** A connection after something was read from it. */
  function AfterRead(c: Conn, input: Input, locked: bool, stamp: string, bufsize: nat): Conn {
    match input
    case Eof => Closed(c)
    case Partial => c
    case Command(cmd) =>
      if cmd == Auth(true) && c.state == WaitAuth then
        Replied(c.(timeout := READ_TMOUT), Message(OkErr), bufsize, Authorized)
      else if c.state != Authorized then Closed(c)
      else Obeyed(c, cmd, locked, stamp, bufsize)
  }

  /** n characters went out; once the buffer is empty the connection moves on. */
  function Wrote(c: Conn, n: nat): Conn
    requires n <= |c.buf|
  {
    c.(taken := c.taken + c.buf[..n], buf := c.buf[n..], state := if c.buf[n..] == "" then c.nstate else WriteData)
  }

  /** What a connection has been told, and what the rest of table t would add. */
  function Promise(f: Format, c: Conn, t: Table): string { c.Said() + Lines(f, Remaining(t, c.bn, c.bi)) }

  // ---------------------------------------------------------------- what the server does next

  /** What the server is seen by: its connections, the printed and the live table, and what has happened to the
      counters so far. */
  datatype Shot = Shot(client: seq<Conn>, statsock: int, prn: Table, live: Table, es: seq<K.Event>)

  /** What happens: a packet arrives, a connection is made, a connection is made ready for select, or gets on. */
  datatype Act =
    | Arrive(from: K.Word, to: K.Word, len: nat, blocked: bool)
    | Connect(fd: int)
    | Ready(i: nat, challenge: string)
    | Move(i: nat, io: Io, stamp: string)

  /** A connection is closed, and gives up the dump if it has it. */
  function Hung(x: Shot, i: nat): Shot
    requires i < |x.client|
  {
    x.(client := x.client[i := Closed(x.client[i])],
       statsock := if x.statsock == x.client[i].fd then -1 else x.statsock)
  }

  /** The next line of the dump does not fit the buffer any more. */
  ghost predicate Full(f: Format, c: Conn, t: Table, bufsize: nat) {
    var rest := Remaining(t, c.bn, c.bi);
    rest != [] && |c.buf| + |f(rest[0])| >= bufsize
  }

  /** A piece of the dump goes into the buffer; the last piece makes all of it said, and ends the dump. */
  ghost predicate Dumped(f: Format, bufsize: nat, x: Shot, i: nat, y: Shot)
    requires i < |x.client|
  {
    i < |y.client| && var c := x.client[i]; var c' := y.client[i];
    var rest := c.(state := WriteData, reading := false, nstate := c'.nstate, buf := c'.buf, bn := c'.bn, bi := c'.bi);
    if y.statsock == x.statsock then
      && y == x.(client := x.client[i := rest.(nstate := SendStat)])
      && Promise(f, c', x.prn) == Promise(f, c, x.prn) && Full(f, c', x.prn, bufsize)
    else
      && y == x.(client := x.client[i := rest.(nstate := CloseConn, bn := 0, bi := 0)], statsock := -1,
                 prn := K.NoEntries(), es := x.es + [K.DumpEnds])
      && c'.Said() == Promise(f, c, x.prn)
  }

  /** Connection i has the dump, and ends it. */
  ghost predicate Ending(x: Shot, i: nat, y: Shot)
    requires i < |x.client|
  {
    x.client[i].fd >= 0 && x.client[i].fd == x.statsock != y.statsock
  }

  /** STAT from a trusted connection, when nobody dumps. */
  predicate Begins(x: Shot, i: nat, input: Input)
    requires i < |x.client|
  {
    input == Command(Stat) && x.client[i].state == Authorized && x.statsock < 0
  }

  /** A connection is made ready for select. */
  ghost predicate Prepared(f: Format, bufsize: nat, x: Shot, i: nat, challenge: string, y: Shot)
    requires i < |x.client|
  {
    var c := x.client[i];
    if c.fd < 0 then y == x
    else if c.fd != x.statsock then y == x.(client := x.client[i := Readied(c, challenge, bufsize)])
    else if c.state == SendStat then Dumped(f, bufsize, x, i, y)
    else y == x.(client := x.client[i := c.(reading := false)])
  }

  /** Something was read; STAT from a trusted connection, when nobody dumps, sets the live table aside for it. */
  ghost predicate Heard(bufsize: nat, x: Shot, i: nat, input: Input, stamp: string, y: Shot)
    requires i < |x.client|
  {
    var c := x.client[i];
    var client := x.client[i := AfterRead(c, input, x.statsock >= 0, stamp, bufsize)];
    if Begins(x, i, input) then y == Shot(client, c.fd, x.live, x.prn, x.es + [K.Stat])
    else y == x.(client := client)
  }

  function Clamp(n: int, hi: nat): int { if n > hi then hi else if n < 0 then -1 else n }

  /** A connection gets on, if it is ready for what it waits for. */
  ghost predicate Moved(bufsize: nat, x: Shot, i: nat, io: Io, stamp: string, y: Shot)
    requires i < |x.client|
  {
    var c := x.client[i];
    if c.fd >= 0 && !c.reading && c.state == WriteData && io.Took? then
      var n := Clamp(io.n, |c.buf|);
      y == if n == -1 then Hung(x, i) else x.(client := x.client[i := Wrote(c, n)])
    else if c.fd >= 0 && c.reading && Listening(c) && io.Read? then Heard(bufsize, x, i, io.input, stamp, y)
    else y == x
  }

  /** A connection that accept has made gets the first free place, if there is one; a socket in use is not made. */
  ghost predicate Joined(x: Shot, fd: int, y: Shot) {
    if fd < 0 || (exists j :: 0 <= j < |x.client| && x.client[j].fd == fd)
              || (forall j :: 0 <= j < |x.client| ==> x.client[j].fd != -1) then y == x
    else exists i :: 0 <= i < |x.client| && x.client[i].fd == -1 && (forall j :: 0 <= j < i ==> x.client[j].fd != -1)
                     && y == x.(client := x.client[i := NewConn(fd)])
  }

  lemma NotJoined(x: Shot, fd: int)
    requires fd < 0 || (exists j :: 0 <= j < |x.client| && x.client[j].fd == fd)
          || (forall j :: 0 <= j < |x.client| ==> x.client[j].fd != -1)
    ensures Joined(x, fd, x)
  {
  }

  lemma JoinsAt(x: Shot, fd: int, i: int)
    requires fd >= 0 && (forall j :: 0 <= j < |x.client| ==> x.client[j].fd != fd)
    requires 0 <= i < |x.client| && x.client[i].fd == -1 && forall j :: 0 <= j < i ==> x.client[j].fd != -1
    ensures Joined(x, fd, x.(client := x.client[i := NewConn(fd)]))
  {
  }

  ghost predicate Acted(f: Format, bufsize: nat, x: Shot, a: Act, y: Shot) {
    match a
    case Arrive(from, to, len, blocked) =>
      y == x.(live := if blocked then x.live else y.live, es := x.es + [K.Packet(from, to, len, blocked)])
    case Connect(fd) => Joined(x, fd, y)
    case Ready(i, challenge) => i < |x.client| && Prepared(f, bufsize, x, i, challenge, y)
    case Move(i, io, stamp) => i < |x.client| && Moved(bufsize, x, i, io, stamp, y)
  }

  // ---------------------------------------------------------------- lemmas

  /** The connections from lo to hi wait for select. */
  ghost predicate Waiting(client: seq<Conn>, lo: nat, hi: nat)
  {
    hi <= |client| && forall j {:trigger Waits(client[j])} :: lo <= j < hi ==> Waits(client[j])
  }

  lemma ReadiedOk(c: Conn, statsock: int, t: Table, bufsize: nat, challenge: string)
    requires ConnOk(c, statsock, t, bufsize) && c.fd >= 0 && c.fd != statsock && |challenge| < bufsize
    ensures c.state != SendStat && Waits(Readied(c, challenge, bufsize))
    ensures Readied(c, challenge, bufsize).fd >= 0 ==>
      Readied(c, challenge, bufsize).fd == c.fd && ConnOk(Readied(c, challenge, bufsize), statsock, t, bufsize)
  {
  }

  lemma ObeyedOk(c: Conn, statsock: int, t: Table, bufsize: nat, cmd: Cmd, locked: bool, stamp: string)
    requires ConnOk(c, statsock, t, bufsize) && c.fd >= 0 && c.state == Authorized && (cmd == Stat ==> locked)
    ensures c.fd != statsock
    ensures var c' := Obeyed(c, cmd, locked, stamp, bufsize);
            c'.fd >= 0 ==> c'.fd == c.fd && ConnOk(c', statsock, t, bufsize)
  {
  }

  /** A connection may change its ways as long as it keeps its socket. */
  lemma Mutter(s: State, t: Table, bufsize: nat, i: nat, c: Conn)
    requires Ok(s, t, bufsize) && i < MAX && c.fd == s.client[i].fd && ConnOk(c, s.statsock, t, bufsize)
    ensures Ok(s.(client := s.client[i := c]), t, bufsize)
  {
    if s.statsock != -1 {
      var j :| 0 <= j < MAX && s.client[j].fd == s.statsock;
      assert s.client[i := c][j].fd == s.statsock;
    }
  }

  lemma Admitted(s: State, t: Table, bufsize: nat, i: nat, fd: int)
    requires Ok(s, t, bufsize) && i < MAX && s.client[i].fd == -1 && fd >= 0
    requires forall j :: 0 <= j < MAX ==> s.client[j].fd != fd
    ensures Ok(s.(client := s.client[i := NewConn(fd)], nos := s.nos + 1), t, bufsize)
  {
    var client := s.client[i := NewConn(fd)];
    assert Distinct(client);
    if s.statsock != -1 {
      var j :| 0 <= j < MAX && s.client[j].fd == s.statsock;
      assert client[j].fd == s.statsock;
    }
  }

  lemma Hangup(s: State, t: Table, bufsize: nat, i: nat)
    requires Ok(s, t, bufsize) && i < MAX && s.client[i].fd >= 0
    ensures s.nos > 0
    ensures Ok(s.(client := s.client[i := Closed(s.client[i])], nos := s.nos - 1,
                  statsock := if s.statsock == s.client[i].fd then -1 else s.statsock), t, bufsize)
  {
    var client := s.client[i := Closed(s.client[i])];
    assert Distinct(client);
    if s.statsock != -1 && s.statsock != s.client[i].fd {
      var j :| 0 <= j < MAX && s.client[j].fd == s.statsock;
      assert client[j].fd == s.statsock;
    }
  }

  /** The dump passes to connection i, and with it another table. */
  lemma Handover(s: State, t: Table, bufsize: nat, i: nat, c: Conn, t': Table)
    requires Ok(s, t, bufsize) && i < MAX && s.statsock < 0 && s.client[i].fd >= 0
    requires c == s.client[i].(state := SendStat, nstate := c.nstate, timeout := c.timeout, buf := c.buf)
    requires |c.buf| <= bufsize
    ensures Ok(s.(client := s.client[i := c], statsock := c.fd), t', bufsize)
  {
    var client := s.client[i := c];
    assert ConnOk(s.client[i], s.statsock, t, bufsize);
    forall j | 0 <= j < MAX ensures client[j].fd >= -1 && ConnOk(client[j], c.fd, t', bufsize) {
      assert ConnOk(s.client[j], s.statsock, t, bufsize);
    }
    assert client[i].fd == c.fd;
  }

  /** Nobody dumps any more, so that the printed table does not matter. */
  lemma Released(s: State, t: Table, bufsize: nat, i: nat, c: Conn, t': Table)
    requires Ok(s, t, bufsize) && i < MAX && s.client[i].fd == s.statsock >= 0
    requires c.fd == s.client[i].fd && |c.buf| <= bufsize && c.state == WriteData && c.nstate != SendStat
    requires c.bn == c.bi == 0
    ensures Ok(s.(client := s.client[i := c], statsock := -1), t', bufsize)
  {
    var client := s.client[i := c];
    forall j | 0 <= j < MAX ensures client[j].fd >= -1 && ConnOk(client[j], -1, t', bufsize) {
      assert ConnOk(s.client[j], s.statsock, t, bufsize);
    }
  }

  /** A piece of the dump takes nothing from what was promised and adds nothing. */
  lemma Kept(f: Format, t: Table, c: Conn, c': Conn, done: seq<Entry>)
    requires c'.taken == c.taken && c'.buf == c.buf + Lines(f, done)
    requires Remaining(t, c.bn, c.bi) == done + Remaining(t, c'.bn, c'.bi)
    ensures Promise(f, c', t) == Promise(f, c, t)
  {
    var rest := Remaining(t, c'.bn, c'.bi);
    LinesConcat(f, done, rest);
    Regroup(c.taken, c.buf, Lines(f, done), Lines(f, rest));
  }

  lemma Regroup(a: string, b: string, c: string, d: string)
    ensures (a + (b + c)) + d == (a + b) + (c + d)
  {
  }

  /** The last piece fulfils it. */
  lemma Fulfilled(f: Format, t: Table, c: Conn, c': Conn)
    requires c'.taken == c.taken && c'.buf == c.buf + Lines(f, Remaining(t, c.bn, c.bi))
    ensures c'.Said() == Promise(f, c, t)
  {
    Chars(c.taken, c.buf, Lines(f, Remaining(t, c.bn, c.bi)));
  }

  /** Writing takes characters from the buffer and loses none. */
  lemma Drained(c: Conn, n: nat, statsock: int, t: Table, bufsize: nat)
    requires ConnOk(c, statsock, t, bufsize) && c.fd >= 0 && c.state == WriteData && n <= |c.buf|
    ensures Wrote(c, n).Said() == c.Said() && ConnOk(Wrote(c, n), statsock, t, bufsize)
  {
    assert c.buf == c.buf[..n] + c.buf[n..];
    Chars(c.taken, c.buf[..n], c.buf[n..]);
  }

  // ---------------------------------------------------------------- the connections

  /** The array of connections.  Its methods are told what the server was seen by, as far as that is more than the
      connections, and say what it is seen by then; the tables are the server's. */
  class Clients {
    const bufsize: nat
    const format: Format
    var s: State

    constructor (format: Format, bufsize: nat)
      requires bufsize > 0
      ensures this.format == format && this.bufsize == bufsize
      ensures s.statsock == -1 && |s.client| == MAX && forall i :: 0 <= i < MAX ==> s.client[i] == NewConn(-1)
      ensures forall t :: Ok(s, t, bufsize)
    {
      this.format, this.bufsize := format, bufsize;
      s := State(seq(MAX, _ => NewConn(-1)), 0, -1);
    }

    /** The connections are as seen, and in order. */
    ghost predicate At(x: Shot)
      reads this
    {
      x.client == s.client && x.statsock == s.statsock && Ok(s, x.prn, bufsize)
    }

    /** get_new_conn, for a connection that accept has made. */
    method Accept(fd: int, ghost x: Shot) returns (ghost slot: int)
      requires At(x) && fd >= 0 && forall i :: 0 <= i < MAX ==> s.client[i].fd != fd
      modifies this
      ensures slot == -1 <==> old(s.nos) == MAX
      ensures slot == -1 ==> s == old(s) && forall j :: 0 <= j < MAX ==> s.client[j].fd != -1
      ensures slot != -1 ==>
        && 0 <= slot < MAX && x.client[slot].fd == -1 && s.nos == old(s.nos) + 1
        && (forall j :: 0 <= j < slot ==> x.client[j].fd != -1)
        && At(x.(client := x.client[slot := NewConn(fd)]))
    {
      slot := -1;
      if s.nos < MAX {
        var i := 0;
        while s.client[i].fd != -1
          invariant 0 <= i < MAX && forall j :: 0 <= j < i ==> s.client[j].fd != -1
          decreases MAX - i
        {
          i := i + 1;
        }
        Admitted(s, x.prn, bufsize, i, fd);
        s := s.(client := s.client[i := NewConn(fd)], nos := s.nos + 1);
        slot := i;
      }
    }

    /** close_conn */
    method Close(i: nat, ghost x: Shot)
      requires At(x) && i < MAX && s.client[i].fd >= 0
      modifies this
      ensures At(Hung(x, i)) && s.nos == old(s.nos) - 1
    {
      Hangup(s, x.prn, bufsize, i);
      s := s.(client := s.client[i := Closed(s.client[i])], nos := s.nos - 1,
              statsock := if s.statsock == s.client[i].fd then -1 else s.statsock);
    }

    /** A connection changes; nothing else does. */
    method Set(i: nat, c: Conn, ghost x: Shot)
      requires At(x) && i < MAX && c.fd == s.client[i].fd && ConnOk(c, s.statsock, x.prn, bufsize)
      modifies this
      ensures At(x.(client := x.client[i := c])) && s.nos == old(s.nos)
    {
      Mutter(s, x.prn, bufsize, i, c);
      s := s.(client := s.client[i := c]);
    }

    /** The next piece of the dump of table t; `over` says that it was the last. */
    method Dump(i: nat, t: Table, ghost x: Shot) returns (over: bool, ghost y: Shot)
      requires At(x) && i < MAX && s.client[i].state == SendStat && s.client[i].fd == s.statsock >= 0 && t == x.prn
      modifies this
      ensures At(y) && Dumped(format, bufsize, x, i, y) && (over <==> y.statsock != x.statsock)
    {
      var c := s.client[i];
      assert ConnOk(c, s.statsock, t, bufsize);
      var buf, bn, bi, more;
      ghost var done;
      buf, bn, bi, more, done := WriteStat(format, t, c.buf, c.bn, c.bi, bufsize);
      var c' := c.(buf := buf, bn := bn, bi := bi, state := WriteData, reading := false,
                   nstate := if more then SendStat else CloseConn);
      y, over := x.(client := x.client[i := c']), !more;
      if more {
        Kept(format, t, c, c', done);
        Set(i, c', x);
      } else {
        assert done + [] == done;
        Fulfilled(format, t, c, c');
        Released(s, t, bufsize, i, c', K.NoEntries());
        s := s.(client := s.client[i := c'], statsock := -1);
        y := y.(statsock := -1, prn := K.NoEntries(), es := x.es + [K.DumpEnds]);
      }
    }

    /**
      The first loop of serve_conn, for one connection: what it waits for next.  Only the dumping connection gets
      lines, and only the end of its dump empties the printed table; by then everything has been said.
     */
    method Prepare(i: nat, challenge: string, t: Table, ghost x: Shot) returns (over: bool, ghost y: Shot)
      requires At(x) && i < MAX && |challenge| < bufsize && t == x.prn
      modifies this
      ensures At(y) && Prepared(format, bufsize, x, i, challenge, y) && Waits(s.client[i])
      ensures over <==> Ending(x, i, y)
      ensures y == if over then Shot(y.client, -1, K.NoEntries(), x.live, x.es + [K.DumpEnds])
                   else x.(client := y.client, statsock := y.statsock)
    {
      var c := s.client[i];
      over, y := false, x;
      if c.fd < 0 {
        return;
      }
      assert ConnOk(c, s.statsock, t, bufsize);
      if c.fd != s.statsock {
        ReadiedOk(c, s.statsock, t, bufsize, challenge);
      }
      match c.state {
        case Start =>
          Set(i, c.(buf := challenge, nstate := WaitAuth, state := WriteData, reading := false), x);
        case ReadData =>
          Set(i, c.(reading := true), x);
        case WaitAuth =>
          if c.timeout <= 0 { Close(i, x); } else { Set(i, c.(reading := true), x); }
        case Authorized =>
          if c.timeout <= 0 { Close(i, x); } else { Set(i, c.(reading := true), x); }
        case WriteError =>
          Set(i, c.(buf := Append(c.buf, Message(OkErr), bufsize), nstate := Authorized, state := WriteData,
                    reading := false), x);
        case SendStat =>
          over, y := Dump(i, t, x);
          return;
        case WriteData =>
          Set(i, c.(reading := false), x);
        case CloseConn =>
          Close(i, x);
      }
      y := Like(x);
    }

    /** write_data_to_sock and what follows: the socket took the first n characters, or failed. */
    method Written(i: nat, n: int, ghost x: Shot)
      requires At(x) && i < MAX && s.client[i].fd >= 0 && s.client[i].state == WriteData
      requires n == -1 || 0 <= n <= |s.client[i].buf|
      modifies this
      ensures At(if n == -1 then Hung(x, i) else x.(client := x.client[i := Wrote(x.client[i], n)]))
      ensures s.client[i].Said() == old(s.client[i]).Said()
    {
      if n == -1 {
        Close(i, x);
      } else {
        Drained(s.client[i], n, s.statsock, x.prn, bufsize);
        Set(i, Wrote(s.client[i], n), x);
      }
    }

    /** The STAT command, when nobody else dumps: connection i is to dump the table that has been live. */
    method BeginDump(i: nat, stamp: string, ghost x: Shot) returns (ghost y: Shot)
      requires At(x) && i < MAX && s.client[i].fd >= 0 && s.client[i].state == Authorized && s.statsock < 0
      modifies this
      ensures At(y) && Heard(bufsize, x, i, Command(Stat), stamp, y)
    {
      var c := s.client[i];
      assert ConnOk(c, s.statsock, x.prn, bufsize);
      var c' := c.(timeout := READ_TMOUT, buf := Append(c.buf, stamp, bufsize), nstate := Authorized,
                   state := SendStat);
      Handover(s, x.prn, bufsize, i, c', x.live);
      s := s.(client := s.client[i := c'], statsock := c.fd);
      y := Shot(s.client, s.statsock, x.live, x.prn, x.es + [K.Stat]);
    }

    /** A command other than authorization, on a connection that is trusted; `begun` says that a dump begins. */
    method Obey(i: nat, cmd: Cmd, stamp: string, ghost x: Shot) returns (begun: bool, ghost y: Shot)
      requires At(x) && i < MAX && s.client[i].fd >= 0 && s.client[i].state == Authorized && !cmd.Auth?
      modifies this
      ensures At(y) && Heard(bufsize, x, i, Command(cmd), stamp, y)
      ensures begun <==> cmd.Stat? && x.statsock < 0
    {
      var c := s.client[i];
      begun := cmd.Stat? && s.statsock < 0;
      if begun {
        y := BeginDump(i, stamp, x);
        return;
      }
      ObeyedOk(c, s.statsock, x.prn, bufsize, cmd, s.statsock >= 0, stamp);
      match cmd {
        case UnknownCmd =>
          Set(i, c.(buf := Append(c.buf, Message(Unknown), bufsize), nstate := c.state, state := WriteData), x);
        case Stat =>
          Set(i, c.(timeout := READ_TMOUT, buf := Append(c.buf, Message(Lock), bufsize), nstate := c.state,
                    state := WriteData), x);
        case Reply(text) =>
          Set(i, c.(timeout := READ_TMOUT, buf := Append(c.buf, text, bufsize), nstate := CloseConn,
                    state := WriteData), x);
        case Nop =>
          Set(i, c.(timeout := READ_TMOUT), x);
        case Quit =>
          Close(i, x);
      }
      y := Like(x);
    }

    /** The AUTH command: the right digest, once, at the right time; anything else ends the connection. */
    method Authorize(i: nat, matches: bool, ghost x: Shot)
      requires At(x) && i < MAX && s.client[i].fd >= 0 && Listening(s.client[i])
      modifies this
      ensures At(x.(client := x.client[i :=
        if matches && x.client[i].state == WaitAuth
        then Replied(x.client[i].(timeout := READ_TMOUT), Message(OkErr), bufsize, Authorized)
        else Closed(x.client[i])]))
      ensures Trusted(s.client[i]) && s.client[i].fd >= 0 ==> matches && x.client[i].state == WaitAuth
    {
      var c := s.client[i];
      assert ConnOk(c, s.statsock, x.prn, bufsize);
      if c.state != WaitAuth || !matches {
        Close(i, x);
      } else {
        Set(i, c.(buf := Append(c.buf, Message(OkErr), bufsize), nstate := Authorized, state := WriteData,
                  timeout := READ_TMOUT), x);
      }
    }

    /** What serve_conn does with what it has read from a connection. */
    method Received(i: nat, input: Input, stamp: string, ghost x: Shot) returns (begun: bool, ghost y: Shot)
      requires At(x) && i < MAX && s.client[i].fd >= 0 && Listening(s.client[i])
      modifies this
      ensures At(y) && Heard(bufsize, x, i, input, stamp, y) && (begun <==> Begins(x, i, input))
    {
      assert ConnOk(s.client[i], s.statsock, x.prn, bufsize);
      begun, y := false, x;
      if input.Partial? {
        return;
      }
      if input.Eof? {
        Close(i, x);
      } else if input.cmd.Auth? {
        Authorize(i, input.cmd.matches, x);
      } else if s.client[i].state != Authorized {
        Close(i, x);
      } else {
        begun, y := Obey(i, input.cmd, stamp, x);
        return;
      }
      y := Like(x);
    }

    /** One connection gets on, if it is ready for what it waits for. */
    method Step(i: nat, io: Io, stamp: string, ghost x: Shot) returns (begun: bool, ghost y: Shot)
      requires At(x) && i < MAX && Waits(s.client[i])
      modifies this
      ensures At(y) && Moved(bufsize, x, i, io, stamp, y)
      ensures begun <==> x.client[i].fd >= 0 && x.client[i].reading && io.Read? && Begins(x, i, io.input)
      ensures y == if begun then Shot(y.client, y.statsock, x.live, x.prn, x.es + [K.Stat])
                   else x.(client := y.client, statsock := y.statsock)
    {
      var c := s.client[i];
      begun, y := false, x;
      if c.fd >= 0 && !c.reading && io.Took? {
        var n := Clamp(io.n, |c.buf|);
        Written(i, n, x);
        y := if n == -1 then Hung(x, i) else x.(client := x.client[i := Wrote(x.client[i], n)]);
      } else if c.fd >= 0 && c.reading && io.Read? {
        begun, y := Received(i, io.input, stamp, x);
      }
    }

    /** What is seen of a server with the same tables. */
    ghost function Like(x: Shot): Shot
      reads this
    {
      x.(client := s.client, statsock := s.statsock)
    }
  }

  // ---------------------------------------------------------------- the server

  class Server {
    const clients: Clients
    const st: K.Stats
    ghost var now: Shot            // what it is seen by

    constructor (format: Format, bufsize: nat)
      requires bufsize > 0
      ensures Valid() && fresh(clients) && fresh(st) && clients.format == format && clients.bufsize == bufsize
      ensures now.es == [] && now.statsock == -1 && |now.client| == MAX
      ensures forall i :: 0 <= i < MAX ==> now.client[i] == NewConn(-1)
    {
      clients := new Clients(format, bufsize);
      st := new K.Stats();
      new;
      now := Shot(clients.s.client, -1, K.TableAt(st.m, st.prn), K.TableAt(st.m, st.pass), []);
      assert st.totals == K.NewBook().totals;
    }

    /** The counters are what their history makes of them, and the tables are two of theirs. */
    ghost predicate Backs(es: seq<K.Event>, prn: Table, live: Table)
      reads st
    {
      && st.Valid() && K.BookOf(st) == K.After(es)
      && prn == K.TableAt(st.m, st.prn) && live == K.TableAt(st.m, st.pass)
    }

    ghost predicate Kept()
      reads this, st
    {
      Backs(now.es, now.prn, now.live)
    }

    /** Looking(0) shows the counters, and Looking(1) the connections. */
    ghost predicate Valid()
      reads this, st, clients
    {
      && |now.client| == MAX
      && forall u: int {:trigger Looking(u)} :: Looking(u) ==> (u == 0 ==> Kept()) && (u == 1 ==> clients.At(now))
    }

    /** keepstat_ip: the packet is counted, in whatever block of the shared memory; the printed table stays as it is. */
    method Capture(from: K.Word, to: K.Word, len: nat, blocked: bool)
      requires Valid()
      modifies this, st`m, st`totals
      ensures Valid() && now.es == old(now.es) + [K.Packet(from, to, len, blocked)]
      ensures Acted(clients.format, clients.bufsize, old(now), Arrive(from, to, len, blocked), now)
    {
      assert Looking(0) && Looking(1);
      K.AfterOne(now.es, K.Packet(from, to, len, blocked));
      K.Observe(st, K.Packet(from, to, len, blocked));
      now := now.(live := K.TableAt(st.m, st.pass), es := now.es + [K.Packet(from, to, len, blocked)]);
    }

    /** The printed and the live table change places. */
    method SetAside()
      requires Kept()
      modifies this, st`pass, st`prn
      ensures Kept() && now == old(now).(prn := old(now.live), live := old(now.prn), es := old(now.es) + [K.Stat])
    {
      K.AfterOne(now.es, K.Stat);
      K.SetAside(st);
      now := now.(prn := now.live, live := now.prn, es := now.es + [K.Stat]);
    }

    /** The printed table is emptied. */
    method Clear()
      requires Kept()
      modifies this, st`m, st`totals
      ensures Kept() && now == old(now).(prn := K.NoEntries(), es := old(now.es) + [K.DumpEnds])
    {
      K.AfterOne(now.es, K.DumpEnds);
      K.EndDump(st);
      now := now.(prn := K.NoEntries(), es := now.es + [K.DumpEnds]);
    }

    /** A connection is made, unless its socket is in use. */
    method Join(fd: int)
      requires Valid()
      modifies this, clients
      ensures Valid() && Acted(clients.format, clients.bufsize, old(now), Connect(fd), now)
    {
      assert Looking(1);
      if fd < 0 || clients.s.client[0].fd == fd || clients.s.client[1].fd == fd || clients.s.client[2].fd == fd {
        NotJoined(now, fd);
      } else {
        ghost var slot := clients.Accept(fd, now);
        if slot == -1 {
          NotJoined(now, fd);
        } else {
          JoinsAt(now, fd, slot);
          now := now.(client := now.client[slot := NewConn(fd)]);
        }
      }
      assert clients.At(now);
    }

    /** A connection is made ready for select; the end of the dump empties the printed table. */
    method Prepare(i: nat, challenge: string)
      requires Valid() && i < MAX && |challenge| < clients.bufsize
      modifies this, clients, st`m, st`totals
      ensures Valid() && now.client == old(now.client)[i := now.client[i]] && Waits(now.client[i])
      ensures Acted(clients.format, clients.bufsize, old(now), Ready(i, challenge), now)
    {
      assert Looking(0) && Looking(1);
      var over;
      ghost var y;
      over, y := clients.Prepare(i, challenge, K.TableAt(st.m, st.prn), now);
      if over {
        Clear();
      }
      now := y;
      assert Kept() && clients.At(now);
    }

    /** A connection gets on; the beginning of a dump sets the live table aside. */
    method Step(i: nat, io: Io, stamp: string)
      requires Valid() && i < MAX && Waits(now.client[i])
      modifies this, clients, st`pass, st`prn
      ensures Valid() && now.client == old(now.client)[i := now.client[i]]
      ensures Acted(clients.format, clients.bufsize, old(now), Move(i, io, stamp), now)
    {
      assert Looking(0) && Looking(1);
      var begun;
      ghost var y;
      begun, y := clients.Step(i, io, stamp, now);
      if begun {
        SetAside();
      }
      now := y;
      assert Kept() && clients.At(now);
    }

    /** What is seen of the server is in order. */
    lemma Seen()
      requires Valid()
      ensures Sane(now, clients.bufsize)
    {
      assert Looking(0) && Looking(1);
      forall b | 0 <= b < 256 ensures Tallied(now, b) {
        BucketTallied(now, st.m, st.totals, b);
      }
    }

    /** One more connection is made ready. */
    method PrepareNext(i: nat, challenge: string, ghost x: Shot)
      requires Valid() && i < MAX && |challenge| < clients.bufsize && Waiting(now.client, 0, i)
      requires Led(clients.format, clients.bufsize, x, Readies(challenge, i), now)
      modifies this, clients, st`m, st`totals
      ensures Valid() && Waiting(now.client, 0, i + 1)
      ensures Led(clients.format, clients.bufsize, x, Readies(challenge, i + 1), now)
    {
      ghost var before := now;
      Prepare(i, challenge);
      Seen();
      LedOn(clients.format, clients.bufsize, x, Readies(challenge, i), before, Ready(i, challenge), now);
    }

    /** The first loop of serve_conn. */
    method PrepareAll(challenge: string)
      requires Valid() && |challenge| < clients.bufsize
      modifies this, clients, st`m, st`totals
      ensures Valid() && Waiting(now.client, 0, MAX)
      ensures Led(clients.format, clients.bufsize, old(now), Readies(challenge, MAX), now)
    {
      ghost var x := now;
      NotLed(clients.format, clients.bufsize, x);
      for i := 0 to MAX
        invariant Valid() && Waiting(now.client, 0, i)
        invariant Led(clients.format, clients.bufsize, x, Readies(challenge, i), now)
      {
        PrepareNext(i, challenge, x);
      }
    }

    /** One more connection gets on. */
    method StepNext(i: nat, ios: Reports, stamp: string, ghost x: Shot)
      requires Valid() && i < MAX && Waiting(now.client, i, MAX)
      requires Led(clients.format, clients.bufsize, x, Moves(ios, stamp, i), now)
      modifies this, clients, st`pass, st`prn
      ensures Valid() && Waiting(now.client, i + 1, MAX)
      ensures Led(clients.format, clients.bufsize, x, Moves(ios, stamp, i + 1), now)
    {
      ghost var before := now;
      Step(i, ios[i], stamp);
      Seen();
      LedOn(clients.format, clients.bufsize, x, Moves(ios, stamp, i), before, Move(i, ios[i], stamp), now);
    }

    /** The second loop. */
    method StepAll(ios: Reports, stamp: string)
      requires Valid() && Waiting(now.client, 0, MAX)
      modifies this, clients, st`pass, st`prn
      ensures Valid() && Led(clients.format, clients.bufsize, old(now), Moves(ios, stamp, MAX), now)
    {
      ghost var x := now;
      NotLed(clients.format, clients.bufsize, x);
      for i := 0 to MAX
        invariant Valid() && Waiting(now.client, i, MAX)
        invariant Led(clients.format, clients.bufsize, x, Moves(ios, stamp, i), now)
      {
        StepNext(i, ios, stamp, x);
      }
    }

    /** One call of serve_conn: every open connection is made ready for select, and then those that are ready for
        what they wait for get on. */
    method ServeConn(challenge: string, ios: Reports, stamp: string)
      requires Valid() && |challenge| < clients.bufsize
      modifies this, clients, st
      ensures Valid()
      ensures Led(clients.format, clients.bufsize, old(now), Readies(challenge, MAX) + Moves(ios, stamp, MAX), now)
    {
      ghost var x := now;
      PrepareAll(challenge);
      ghost var y := now;
      StepAll(ios, stamp);
      LedFurther(clients.format, clients.bufsize, x, Readies(challenge, MAX), y, Moves(ios, stamp, MAX), now);
    }

    /** One round of the main loop. */
    method Handle(e: Call)
      requires Valid() && Fit(e, clients.bufsize)
      modifies this, clients, st
      ensures Valid() && Led(clients.format, clients.bufsize, old(now), Acts(e), now)
    {
      ghost var x := now;
      match e
      case Packet(from, to, len, blocked) =>
        Capture(from, to, len, blocked);
        Seen();
        LedOnce(clients.format, clients.bufsize, x, Arrive(from, to, len, blocked), now);
      case Peer(fd) =>
        Join(fd);
        Seen();
        LedOnce(clients.format, clients.bufsize, x, Connect(fd), now);
      case Serve(challenge, ios, stamp) =>
        ServeConn(challenge, ios, stamp);
    }
  }

  // ---------------------------------------------------------------- over a run

  /** A bucket of the live table has one entry for each pair that was counted in it since it was last emptied, with
      the exact totals. */
  ghost predicate Tallied(x: Shot, b: nat)
    requires b < 256
  {
    var k := K.After(x.es);
    K.Holds(x.live[b], k.totals[k.pass + b]) && K.CountsSince(x.es, k.pass + b, k.totals[k.pass + b])
  }

  lemma BucketTallied(x: Shot, m: K.Memory, totals: seq<K.Totals>, b: nat)
    requires K.AllOk(m, totals) && K.After(x.es).totals == totals && b < 256
    requires x.live == K.TableAt(m, K.After(x.es).pass)
    ensures Tallied(x, b)
  {
    var base := K.After(x.es).pass;
    assert K.BucketOk(K.Bucket(m, base + b), totals[base + b]);
    K.RunIsExact(x.es, base + b);
  }

  ghost predicate Sane(x: Shot, bufsize: nat) {
    && |x.client| == MAX && Distinct(x.client)
    && (x.statsock == -1 || (x.statsock >= 0 && exists i :: 0 <= i < MAX && x.client[i].fd == x.statsock))
    && (forall i :: 0 <= i < MAX ==> ConnOk(x.client[i], x.statsock, x.prn, bufsize))
    && (forall b :: 0 <= b < 256 ==> Tallied(x, b))
  }

  /** One act, which leaves everything in order.  What that means has to be asked for by Looking(0): a proof about runs
      is not to look into each of their steps. */
  ghost predicate Last(f: Format, bufsize: nat, x: Shot, a: Act, y: Shot) {
    forall u: int {:trigger Looking(u)} :: Looking(u) ==> Acted(f, bufsize, x, a, y) && Sane(y, bufsize)
  }

  /** What is seen before, between and after the acts, from x on. */
  ghost predicate Traced(f: Format, bufsize: nat, x: Shot, acts: seq<Act>, trace: seq<Shot>) {
    && |trace| == |acts| + 1 && trace[0] == x
    && forall k {:trigger acts[k]} :: 0 <= k < |acts| ==> Last(f, bufsize, trace[k], acts[k], trace[k + 1])
  }

  /** The acts lead from x to y, and everything is in order on the way. */
  ghost predicate Led(f: Format, bufsize: nat, x: Shot, acts: seq<Act>, y: Shot) {
    exists trace :: Traced(f, bufsize, x, acts, trace) && trace[|acts|] == y
  }

  lemma NotLed(f: Format, bufsize: nat, x: Shot)
    ensures Led(f, bufsize, x, [], x)
  {
    assert Traced(f, bufsize, x, [], [x]);
  }

  lemma LedOnce(f: Format, bufsize: nat, x: Shot, a: Act, y: Shot)
    requires Last(f, bufsize, x, a, y)
    ensures Led(f, bufsize, x, [a], y)
  {
    assert Traced(f, bufsize, x, [a], [x, y]);
  }

  lemma LedOn(f: Format, bufsize: nat, x: Shot, acts: seq<Act>, m: Shot, a: Act, y: Shot)
    requires Led(f, bufsize, x, acts, m) && Last(f, bufsize, m, a, y)
    ensures Led(f, bufsize, x, acts + [a], y)
  {
    var trace :| Traced(f, bufsize, x, acts, trace) && trace[|acts|] == m;
    var more, acts' := trace + [y], acts + [a];
    forall k | 0 <= k < |acts'| ensures Last(f, bufsize, more[k], acts'[k], more[k + 1]) {
      if k < |acts| {
        assert Last(f, bufsize, trace[k], acts[k], trace[k + 1]);
      }
    }
    assert Traced(f, bufsize, x, acts', more);
  }

  lemma TracedFurther(f: Format, bufsize: nat, x: Shot, acts: seq<Act>, trace: seq<Shot>, next: seq<Act>,
                      trace': seq<Shot>, k: nat)
    requires Traced(f, bufsize, x, acts, trace) && Traced(f, bufsize, trace[|acts|], next, trace')
    requires k < |acts + next|
    ensures Last(f, bufsize, (trace + trace'[1..])[k], (acts + next)[k], (trace + trace'[1..])[k + 1])
  {
    var all, n := trace + trace'[1..], |acts|;
    if k < n {
      assert all[k] == trace[k] && all[k + 1] == trace[k + 1] && (acts + next)[k] == acts[k];
    } else {
      var h := k - n;
      assert all[k] == trace'[h] && all[k + 1] == trace'[h + 1] && (acts + next)[k] == next[h];
    }
  }

  lemma LedFurther(f: Format, bufsize: nat, x: Shot, acts: seq<Act>, m: Shot, next: seq<Act>, y: Shot)
    requires Led(f, bufsize, x, acts, m) && Led(f, bufsize, m, next, y)
    ensures Led(f, bufsize, x, acts + next, y)
  {
    var trace :| Traced(f, bufsize, x, acts, trace) && trace[|acts|] == m;
    var trace' :| Traced(f, bufsize, m, next, trace') && trace'[|next|] == y;
    var all, acts' := trace + trace'[1..], acts + next;
    forall k | 0 <= k < |acts'| ensures Last(f, bufsize, all[k], acts'[k], all[k + 1]) {
      TracedFurther(f, bufsize, x, acts, trace, next, trace', k);
    }
    assert Traced(f, bufsize, x, acts', all) && all[|acts'|] == y;
  }

  /** The first n connections are made ready. */
  function Readies(challenge: string, n: nat): seq<Act> {
    if n == 0 then [] else Readies(challenge, n - 1) + [Ready(n - 1, challenge)]
  }

  /** The first n connections get on. */
  function Moves(ios: Reports, stamp: string, n: nat): seq<Act>
    requires n <= MAX
  {
    if n == 0 then [] else Moves(ios, stamp, n - 1) + [Move(n - 1, ios[n - 1], stamp)]
  }

  /** What the main loop calls. */
  datatype Call =
    | Packet(from: K.Word, to: K.Word, len: nat, blocked: bool)
    | Peer(fd: int)
    | Serve(challenge: string, ios: Reports, stamp: string)

  /** What select reports of each connection. */
  type Reports = ios: seq<Io> | |ios| == MAX witness seq(MAX, _ => Quiet)

  predicate Fit(e: Call, bufsize: nat) { e.Serve? ==> |e.challenge| < bufsize }

  function Acts(e: Call): seq<Act> {
    match e
    case Packet(from, to, len, blocked) => [Arrive(from, to, len, blocked)]
    case Peer(fd) => [Connect(fd)]
    case Serve(challenge, ios, stamp) => Readies(challenge, MAX) + Moves(ios, stamp, MAX)
  }
}
