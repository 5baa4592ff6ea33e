/**
  The FTP helper: the four parsers that read an address and a port out of a control message, the four
  messages it prints, and the proof that each parser reads back what its printer wrote.
 */
module FtpMessages {

  import opened Wrappers

  datatype Kind = PortCommand | EprtCommand | Reply227 | Reply229

  /** The variables of a parser: `pos` is the C variable `state`. */
  datatype Cursor = Cursor(pos: int, addr: nat, port: nat, octet: nat, delim: char)

  predicate IsDigit(c: char) { '0' <= c <= '9' }

  predicate IsSpace(c: char) { c == ' ' || 9 as char <= c <= 13 as char }

  function Digit(c: char): (d: nat)
    requires IsDigit(c)
    ensures d < 10
  {
    c as int - '0' as int
  }

  // Arithmetic of the C types the parsers use.
  function U8(x: nat): (r: nat) ensures r < 0x100 { x % 0x100 }
  function U16(x: nat): (r: nat) ensures r < 0x1_0000 { x % 0x1_0000 }
  function U32(x: nat): (r: nat) ensures r < 0x1_0000_0000 { x % 0x1_0000_0000 }

  // ---------------------------------------------------------------- one character

  function Literal(st: Cursor, c: char, expected: char): Option<Cursor> {
    if c == expected then Some(st.(pos := st.pos + 1)) else None
  }

  function FirstDigit(st: Cursor, c: char): Option<Cursor> {
    if IsDigit(c) then Some(st.(octet := Digit(c), pos := st.pos + 1)) else None
  }

  function NextDigit(st: Cursor, c: char): Cursor
    requires IsDigit(c)
  {
    st.(octet := U8(10 * st.octet + Digit(c)))
  }

  function CloseAddr(st: Cursor): Cursor {
    st.(addr := U32(st.addr * 0x100 + st.octet), pos := st.pos + 1)
  }

  function ClosePort(st: Cursor): Cursor {
    st.(port := U16(st.port * 0x100 + st.octet), pos := st.pos + 1)
  }

  function FirstPortDigit(st: Cursor, c: char): Option<Cursor> {
    if IsDigit(c) then Some(st.(port := Digit(c), pos := st.pos + 1)) else None
  }

  function NextPortDigit(st: Cursor, c: char): Cursor
    requires IsDigit(c)
  {
    st.(port := U16(10 * st.port + Digit(c)))
  }

  function Start(k: Kind): Cursor {
    Cursor(if k.PortCommand? || k.EprtCommand? then -4 else -3, 0, 0, 0, '|')
  }

  function Magic(k: Kind): string {
    match k
    case PortCommand => "PORT"
    case EprtCommand => "EPRT"
    case Reply227 => "227"
    case Reply229 => "229"
  }

  function MinLength(k: Kind): nat {
    match k
    case PortCommand => 18
    case EprtCommand => 18
    case Reply227 => 17
    case Reply229 => 11
  }

  function Final(k: Kind): int { if k.Reply229? then 7 else 13 }

  /** What one character does to a parser; None is `return 0`. */
  function Step(k: Kind, st: Cursor, c: char): Option<Cursor> {
    if st.pos < 0 then
      if st.pos < -|Magic(k)| then Some(st) else Literal(st, c, Magic(k)[st.pos + |Magic(k)|])
    else
      match k
      case PortCommand => StepPort(st, c)
      case EprtCommand => StepEprt(st, c)
      case Reply227 => Step227(st, c)
      case Reply229 => Step229(st, c)
  }

  function StepPort(st: Cursor, c: char): Option<Cursor> {
    if st.pos == 0 then
      if IsSpace(c) then Some(st) else FirstDigit(st.(pos := 1), c)
    else if st.pos in {1, 3, 5, 7, 9, 11} then FirstDigit(st, c)
    else if st.pos in {2, 4, 6, 8} then
      if IsDigit(c) then Some(NextDigit(st, c)) else if c == ',' then Some(CloseAddr(st)) else None
    else if st.pos in {10, 12} then
      if IsDigit(c) then Some(NextDigit(st, c))
      else if c == ',' || st.pos == 12 then Some(ClosePort(st)) else None
    else Some(st)
  }

  function StepEprt(st: Cursor, c: char): Option<Cursor> {
    if st.pos == 0 then
      if IsSpace(c) then Some(st) else Some(st.(delim := c, pos := 1))
    else if st.pos == 1 then Literal(st, c, '1')
    else if st.pos == 2 then Literal(st, c, st.delim)
    else if st.pos in {3, 5, 7, 9} then FirstDigit(st, c)
    else if st.pos in {4, 6, 8, 10} then
      if IsDigit(c) then Some(NextDigit(st, c))
      else if c == '.' || st.pos == 10 then Some(CloseAddr(st)) else None
    else if st.pos == 11 then FirstPortDigit(st, c)
    else if st.pos == 12 then
      if IsDigit(c) then Some(NextPortDigit(st, c)) else Literal(st, c, st.delim)
    else Some(st)
  }

  function Step227(st: Cursor, c: char): Option<Cursor> {
    if st.pos == 0 then
      if c == '(' then Some(st.(pos := 1)) else Some(st)
    else if st.pos in {1, 3, 5, 7, 9, 11} then FirstDigit(st, c)
    else if st.pos in {2, 4, 6, 8} then
      if IsDigit(c) then Some(NextDigit(st, c)) else if c == ',' then Some(CloseAddr(st)) else None
    else if st.pos in {10, 12} then
      if IsDigit(c) then Some(NextDigit(st, c))
      else if c == ',' || (st.pos == 12 && c == ')') then Some(ClosePort(st)) else None
    else Some(st)
  }

  function Step229(st: Cursor, c: char): Option<Cursor> {
    if st.pos == 0 then
      if c == '(' then Some(st.(pos := 1)) else Some(st)
    else if st.pos == 1 then Some(st.(delim := c, pos := 2))
    else if st.pos in {2, 3} then Literal(st, c, st.delim)
    else if st.pos == 4 then FirstPortDigit(st, c)
    else if st.pos == 5 then
      if IsDigit(c) then Some(NextPortDigit(st, c)) else Literal(st, c, st.delim)
    else if st.pos == 6 then Literal(st, c, ')')
    else Some(st)
  }

  // ---------------------------------------------------------------- a whole message

  function Run(k: Kind, st: Cursor, s: string): Option<Cursor>
    decreases s
  {
    if s == [] then Some(st)
    else match Step(k, st, s[0])
      case None => None
      case Some(st') => Run(k, st', s[1..])
  }

  /** The cursor a parser ends with when it accepts the message. */
  function Parse(k: Kind, s: string): Option<Cursor> {
    if |s| < MinLength(k) then None
    else match Run(k, Start(k), s)
      case None => None
      case Some(st) => if st.pos == Final(k) then Some(st) else None
  }

  // ---------------------------------------------------------------- the formats

  /** What a message is made of: blanks; text up to a parenthesis; a character that becomes the delimiter; a given
      character; the delimiter again; a number that is a byte of the address or of the port, with the characters that
      may end it (none given: anything may); and a whole port number, which the delimiter ends. */
  datatype Item = Blanks | Text | Opening | Given(c: char) | Again | AddrByte(ends: string) | PortByte(ends: string)
                | WholePort

  function Format(k: Kind): seq<Item> {
    match k
    case PortCommand =>
      [Blanks, AddrByte(","), AddrByte(","), AddrByte(","), AddrByte(","), PortByte(","), PortByte("")]
    case Reply227 =>
      [Text, AddrByte(","), AddrByte(","), AddrByte(","), AddrByte(","), PortByte(","), PortByte(",)")]
    case EprtCommand =>
      [Blanks, Opening, Given('1'), Again, AddrByte("."), AddrByte("."), AddrByte("."), AddrByte(""), WholePort]
    case Reply229 => [Text, Opening, Again, Again, WholePort, Given(')')]
  }

  ghost predicate Digits(s: string) { forall i :: 0 <= i < |s| ==> IsDigit(s[i]) }

  ghost function Numeral(s: string): nat
    requires Digits(s)
  {
    if s == [] then 0 else 10 * Numeral(s[..|s| - 1]) + Digit(s[|s| - 1])
  }

  /** How many digits come first. */
  function DigitCount(s: string): (n: nat)
    ensures n <= |s| && (forall i :: 0 <= i < n ==> IsDigit(s[i])) && (n < |s| ==> !IsDigit(s[n]))
  {
    if s == [] || !IsDigit(s[0]) then 0 else 1 + DigitCount(s[1..])
  }

  ghost predicate Ends(ends: string, c: char) { ends == "" || c in ends }

  predicate Skips(lead: Item, c: char) { if lead.Blanks? then IsSpace(c) else c != '(' }

  /** How many characters of a lead come first. */
  function SkipCount(lead: Item, s: string): (n: nat)
    ensures n <= |s| && (forall j :: 0 <= j < n ==> Skips(lead, s[j])) && (n < |s| ==> !Skips(lead, s[n]))
  {
    if s == [] || !Skips(lead, s[0]) then 0 else 1 + SkipCount(lead, s[1..])
  }

  /** A number, and something else behind it. */
  predicate Numbered(s: string) { 0 < DigitCount(s) < |s| }

  /** The items from the i-th on lead from an address and a port to a' and p'; bytes are read modulo 256, an address
      has 32 bits and a port 16, and what follows the last item does not count. */
  ghost predicate Matches(f: seq<Item>, i: nat, s: string, addr: nat, port: nat, delim: char, a': nat, p': nat)
    decreases |f| - i
  {
    var n := DigitCount(s);
    if i >= |f| then addr == a' && port == p'
    else match f[i]
      case Blanks => Matches(f, i + 1, s[SkipCount(f[i], s)..], addr, port, delim, a', p')
      case Text =>
        var t := s[SkipCount(f[i], s)..];
        t != [] && Matches(f, i + 1, t[1..], addr, port, delim, a', p')
      case Opening => s != [] && Matches(f, i + 1, s[1..], addr, port, s[0], a', p')
      case Given(c) => s != [] && s[0] == c && Matches(f, i + 1, s[1..], addr, port, delim, a', p')
      case Again => s != [] && s[0] == delim && Matches(f, i + 1, s[1..], addr, port, delim, a', p')
      case AddrByte(ends) =>
        && Numbered(s) && Ends(ends, s[n])
        && Matches(f, i + 1, s[n + 1..], U32(addr * 0x100 + U8(Numeral(s[..n]))), port, delim, a', p')
      case PortByte(ends) =>
        && Numbered(s) && Ends(ends, s[n])
        && Matches(f, i + 1, s[n + 1..], addr, U16(port * 0x100 + U8(Numeral(s[..n]))), delim, a', p')
      case WholePort =>
        && Numbered(s) && s[n] == delim
        && Matches(f, i + 1, s[n + 1..], addr, U16(Numeral(s[..n])), delim, a', p')
  }

  /** A message of the kind that carries an address (0 in a 229 reply, which has none) and a port. */
  ghost predicate Message(k: Kind, s: string, a: nat, p: nat) {
    |s| >= MinLength(k) && Magic(k) <= s && Matches(Format(k), 0, s[|Magic(k)|..], 0, 0, '|', a, p)
  }

  class FtpParser {
    var trueAddr: nat
    var truePort: nat

    constructor () { trueAddr, truePort := 0, 0; }

    /** The loop that ParseFtpPortCommand, ParseFtpEprtCommand, ParseFtp227Reply and ParseFtp229Reply
        share.  Only an accepted message changes the remembered address and port, and a 229 reply
        carries no address. */
    method ParseMessage(k: Kind, s: string) returns (ok: bool)
      modifies this
      ensures ok <==> exists a, p :: Message(k, s, a, p)
      ensures ok ==> exists a :: Message(k, s, a, truePort) && trueAddr == (if k.Reply229? then old(trueAddr) else a)
      ensures !ok ==> trueAddr == old(trueAddr) && truePort == old(truePort)
      ensures ok <==> Parse(k, s).Some?
      ensures truePort == if ok then Parse(k, s).value.port else old(truePort)
      ensures trueAddr == if ok && !k.Reply229? then Parse(k, s).value.addr else old(trueAddr)
    {
      Accepted(k, s);
      if |s| < MinLength(k) {
        return false;
      }
      var st := Start(k);
      for i := 0 to |s|
        invariant Run(k, Start(k), s) == Run(k, st, s[i..])
        invariant truePort == old(truePort) && trueAddr == old(trueAddr)
      {
        assert s[i..][0] == s[i] && s[i..][1..] == s[i + 1..];
        var next := Step(k, st, s[i]);
        if next.None? {
          return false;
        }
        st := next.value;
      }
      ok := st.pos == Final(k);
      if ok {
        truePort := st.port;
        if !k.Reply229? {
          trueAddr := st.addr;
        }
        assert Message(k, s, st.addr, truePort);
      }
    }
  }

  // ---------------------------------------------------------------- printing

  /** Decimal digits, as printf("%d") writes them. */
  function Dec(n: nat): (s: string)
    ensures |s| >= 1
  {
    if n < 10 then [('0' as int + n) as char] else Dec(n / 10) + [('0' as int + n % 10) as char]
  }

  datatype Address = Address(a1: nat, a2: nat, a3: nat, a4: nat) {
    ghost predicate Valid() { a1 < 0x100 && a2 < 0x100 && a3 < 0x100 && a4 < 0x100 }

    function Value(): nat { ((a1 * 0x100 + a2) * 0x100 + a3) * 0x100 + a4 }
  }

  function Number(n: nat, sep: char, rest: string): string { Dec(n) + ([sep] + rest) }

  /** The four numbers of an address. */
  function Four(a: Address, sep: char, last: char, rest: string): string {
    Number(a.a1, sep, Number(a.a2, sep, Number(a.a3, sep, Number(a.a4, last, rest))))
  }

  /** The six numbers of a PORT command or a 227 reply. */
  function Six(a: Address, port: nat, last: char, rest: string): string {
    Four(a, ',', ',', Number(port / 0x100, ',', Number(port % 0x100, last, rest)))
  }

  /** NewFtpMessage's four formats. */
  function Print(k: Kind, a: Address, port: nat): string {
    match k
    case PortCommand => "PORT" + (" " + Six(a, port, '\r', "\n"))
    case Reply227 => "227" + (" Entering Passive Mode " + ("(" + Six(a, port, ')', "\r\n")))
    case EprtCommand =>
      "EPRT" + (" " + ("|1|" + Four(a, '.', '|', Number(port, '|', "\r\n"))))
    case Reply229 =>
      "229" + (" Entering Extended Passive Mode " + ("(|||" + Number(port, '|', ")\r\n")))
  }

  // ---------------------------------------------------------------- the parsers accept these formats

  /** The state of a parser when it comes to the i-th item. */
  function Place(k: Kind, i: nat): int {
    match k
    case EprtCommand => if i == 0 then 0 else if i <= 4 then i - 1 else 2 * i - 5
    case Reply229 => if i <= 4 then i else i + 1
    case _ => if i == 0 then 0 else 2 * i - 1
  }

  ghost predicate Accepts(k: Kind, st: Cursor, s: string, a: nat, p: nat) {
    var r := Run(k, st, s);
    r.Some? && r.value.pos == Final(k) && r.value.addr == a && r.value.port == p
  }

  lemma {:induction false} RunConcat(k: Kind, st: Cursor, x: string, y: string)
    ensures Run(k, st, x + y) ==
      match Run(k, st, x)
      case None => None
      case Some(st') => Run(k, st', y)
    decreases x
  {
    if x == [] {
      assert x + y == y;
    } else {
      assert (x + y)[0] == x[0] && (x + y)[1..] == x[1..] + y;
      match Step(k, st, x[0])
      case None =>
      case Some(st') => RunConcat(k, st', x[1..], y);
    }
  }

  lemma RunOne(k: Kind, st: Cursor, c: char)
    ensures Run(k, st, [c]) == Step(k, st, c)
  {
    assert [c][1..] == [];
  }

  lemma RunLast(k: Kind, st: Cursor, x: string, c: char)
    ensures Run(k, st, x + [c]) ==
      match Run(k, st, x)
      case None => None
      case Some(st') => Step(k, st', c)
  {
    RunConcat(k, st, x, [c]);
    match Run(k, st, x)
    case None =>
    case Some(st') => RunOne(k, st', c);
  }

  /** A character the parser has to see next. */
  lemma RunFirst(k: Kind, st: Cursor, c: char, rest: string)
    ensures Run(k, st, [c] + rest) ==
      match Step(k, st, c)
      case None => None
      case Some(st') => Run(k, st', rest)
  {
    assert ([c] + rest)[1..] == rest;
  }

  predicate OctetField(k: Kind, pos: int) {
    match k
    case PortCommand => pos in {1, 3, 5, 7, 9, 11}
    case Reply227 => pos in {1, 3, 5, 7, 9, 11}
    case EprtCommand => pos in {3, 5, 7, 9}
    case Reply229 => false
  }

  predicate PortField(k: Kind, pos: int) { (k.EprtCommand? && pos == 11) || (k.Reply229? && pos == 4) }

  /** Once a parser has what it wants it ignores the rest. */
  lemma {:induction false} IgnoreRest(k: Kind, st: Cursor, rest: string)
    requires st.pos == Final(k)
    ensures Run(k, st, rest) == Some(st)
  {
    if rest != [] {
      IgnoreRest(k, st, rest[1..]);
    }
  }

  /** The cursor behind a number. */
  ghost function Past(k: Kind, st: Cursor, s: string): Cursor
    requires Digits(s)
  {
    if OctetField(k, st.pos) then st.(pos := st.pos + 1, octet := U8(Numeral(s)))
    else st.(pos := st.pos + 1, port := U16(Numeral(s)))
  }

  ghost predicate Field(k: Kind, pos: int) { OctetField(k, pos) || PortField(k, pos) }

  /** A digit is taken in, at the start of a number or later. */
  lemma TakeDigit(k: Kind, st: Cursor, c: char)
    requires IsDigit(c)
    ensures OctetField(k, st.pos) ==> Step(k, st, c) == Some(st.(pos := st.pos + 1, octet := Digit(c)))
    ensures OctetField(k, st.pos - 1) ==> Step(k, st, c) == Some(st.(octet := U8(10 * st.octet + Digit(c))))
    ensures PortField(k, st.pos) ==> Step(k, st, c) == Some(st.(pos := st.pos + 1, port := Digit(c)))
    ensures PortField(k, st.pos - 1) ==> Step(k, st, c) == Some(st.(port := U16(10 * st.port + Digit(c))))
  {
  }

  lemma WrapsOnce(x: nat, d: nat)
    ensures U8(10 * U8(x) + d) == U8(10 * x + d)
  {
    var q, r := x / 0x100, x % 0x100;
    assert 10 * x + d == 10 * r + d + 0x100 * (10 * q);
  }

  lemma WrapsOnce16(x: nat, d: nat)
    ensures U16(10 * U16(x) + d) == U16(10 * x + d)
  {
    var q, r := x / 0x1_0000, x % 0x1_0000;
    assert 10 * x + d == 10 * r + d + 0x1_0000 * (10 * q);
  }

  lemma OneMore(k: Kind, st: Cursor, s: string, c: char)
    requires Field(k, st.pos) && Digits(s) && IsDigit(c)
    ensures Digits(s + [c])
    ensures Step(k, if s == [] then st else Past(k, st, s), c) == Some(Past(k, st, s + [c]))
  {
    assert (s + [c])[..|s|] == s;
    WrapsOnce(Numeral(s), Digit(c));
    WrapsOnce16(Numeral(s), Digit(c));
    TakeDigit(k, if s == [] then st else Past(k, st, s), c);
  }

  lemma {:induction false} RunDigits(k: Kind, st: Cursor, s: string)
    requires Field(k, st.pos) && s != [] && Digits(s)
    ensures Run(k, st, s) == Some(Past(k, st, s))
    decreases s
  {
    var t, c := s[..|s| - 1], s[|s| - 1];
    assert s == t + [c];
    OneMore(k, st, t, c);
    if t == [] {
      RunOne(k, st, c);
    } else {
      RunDigits(k, st, t);
      RunLast(k, st, t, c);
    }
  }

  /** At a number the parser reads all of its digits, and it does not accept without one or with nothing behind. */
  lemma RunField(k: Kind, st: Cursor, s: string, a: nat, p: nat)
    requires Field(k, st.pos)
    ensures var n := DigitCount(s);
            if 0 < n < |s| then Run(k, st, s) == Run(k, Past(k, st, s[..n]), s[n..]) else !Accepts(k, st, s, a, p)
  {
    var n := DigitCount(s);
    if n > 0 {
      assert s == s[..n] + s[n..];
      RunDigits(k, st, s[..n]);
      RunConcat(k, st, s[..n], s[n..]);
    } else if s != [] {
      assert Step(k, st, s[0]).None?;
    }
  }

  /** The character behind a byte. */
  lemma CloseByte(k: Kind, i: nat, st: Cursor, c: char)
    requires i < |Format(k)| && (Format(k)[i].AddrByte? || Format(k)[i].PortByte?) && st.pos == Place(k, i) + 1
    requires !IsDigit(c)
    ensures OctetField(k, Place(k, i)) && Place(k, i + 1) == st.pos + 1
    ensures Step(k, st, c) == if !Ends(Format(k)[i].ends, c) then None
                              else Some(if Format(k)[i].AddrByte? then CloseAddr(st) else ClosePort(st))
  {
  }

  function Closed(it: Item, st: Cursor): Cursor { if it.AddrByte? then CloseAddr(st) else ClosePort(st) }

  lemma MatchesByte(f: seq<Item>, i: nat, k: Kind, st: Cursor, s: string, a: nat, p: nat)
    requires i < |f| && (f[i].AddrByte? || f[i].PortByte?) && OctetField(k, st.pos)
    ensures var n := DigitCount(s);
            Matches(f, i, s, st.addr, st.port, st.delim, a, p) <==>
            Numbered(s) && Ends(f[i].ends, s[n]) &&
            (var next := Closed(f[i], Past(k, st, s[..n]));
             Matches(f, i + 1, s[n + 1..], next.addr, next.port, next.delim, a, p))
  {
  }

  lemma AcceptsByte(k: Kind, i: nat, st: Cursor, s: string, a: nat, p: nat)
    requires i < |Format(k)| && (Format(k)[i].AddrByte? || Format(k)[i].PortByte?) && st.pos == Place(k, i)
    ensures OctetField(k, st.pos) && Place(k, i + 1) == st.pos + 2
    ensures var n := DigitCount(s);
            Accepts(k, st, s, a, p) <==>
            Numbered(s) && Ends(Format(k)[i].ends, s[n]) &&
            Accepts(k, Closed(Format(k)[i], Past(k, st, s[..n])), s[n + 1..], a, p)
  {
    var n := DigitCount(s);
    assert OctetField(k, st.pos);
    RunField(k, st, s, a, p);
    if 0 < n < |s| {
      assert s[n..] == [s[n]] + s[n + 1..];
      RunFirst(k, Past(k, st, s[..n]), s[n], s[n + 1..]);
      CloseByte(k, i, Past(k, st, s[..n]), s[n]);
    }
  }

  lemma AcceptsPort(k: Kind, st: Cursor, s: string, a: nat, p: nat)
    requires PortField(k, st.pos)
    ensures var n := DigitCount(s);
            Accepts(k, st, s, a, p) <==>
            Numbered(s) && s[n] == st.delim &&
            Accepts(k, Past(k, st, s[..n]).(pos := st.pos + 2), s[n + 1..], a, p)
  {
    var n := DigitCount(s);
    RunField(k, st, s, a, p);
    if 0 < n < |s| {
      assert s[n..] == [s[n]] + s[n + 1..];
      RunFirst(k, Past(k, st, s[..n]), s[n], s[n + 1..]);
    }
  }

  lemma FollowsByte(k: Kind, i: nat, st: Cursor, s: string, a: nat, p: nat)
    requires i < |Format(k)| && (Format(k)[i].AddrByte? || Format(k)[i].PortByte?) && st.pos == Place(k, i)
    ensures Accepts(k, st, s, a, p) <==> Matches(Format(k), i, s, st.addr, st.port, st.delim, a, p)
    decreases |Format(k)| - i, 0
  {
    AcceptsByte(k, i, st, s, a, p);
    MatchesByte(Format(k), i, k, st, s, a, p);
    if Numbered(s) {
      var n := DigitCount(s);
      Follows(k, i + 1, Closed(Format(k)[i], Past(k, st, s[..n])), s[n + 1..], a, p);
    }
  }

  lemma FollowsPort(k: Kind, i: nat, st: Cursor, s: string, a: nat, p: nat)
    requires i < |Format(k)| && Format(k)[i].WholePort? && st.pos == Place(k, i)
    ensures Accepts(k, st, s, a, p) <==> Matches(Format(k), i, s, st.addr, st.port, st.delim, a, p)
    decreases |Format(k)| - i, 0
  {
    AcceptsPort(k, st, s, a, p);
    if Numbered(s) {
      var n := DigitCount(s);
      Follows(k, i + 1, Past(k, st, s[..n]).(pos := st.pos + 2), s[n + 1..], a, p);
    }
  }

  lemma {:induction false} RunSkip(k: Kind, st: Cursor, s: string)
    requires st.pos == 0 && forall j :: 0 <= j < |s| ==> Skips(Format(k)[0], s[j])
    ensures Run(k, st, s) == Some(st)
  {
    if s != [] {
      RunSkip(k, st, s[1..]);
    }
  }

  /** Blanks, and text up to a parenthesis, are skipped. */
  lemma FollowsSkip(k: Kind, st: Cursor, s: string, a: nat, p: nat)
    requires st.pos == 0
    ensures Accepts(k, st, s, a, p) <==> Matches(Format(k), 0, s, st.addr, st.port, st.delim, a, p)
  {
    var n := SkipCount(Format(k)[0], s);
    assert s == s[..n] + s[n..];
    RunSkip(k, st, s[..n]);
    RunConcat(k, st, s[..n], s[n..]);
    if n < |s| {
      Entered(k, st, s[n], s[n + 1..]);
      assert s[n..] == [s[n]] + s[n + 1..];
      Follows(k, 1, st.(pos := Place(k, 1)), s[if Format(k)[0].Blanks? then n else n + 1..], a, p);
    }
  }

  lemma Entered(k: Kind, st: Cursor, c: char, rest: string)
    requires st.pos == 0 && !Skips(Format(k)[0], c)
    ensures Run(k, st, [c] + rest) ==
      Run(k, st.(pos := Place(k, 1)), if Format(k)[0].Blanks? then [c] + rest else rest)
  {
    RunFirst(k, st, c, rest);
    RunFirst(k, st.(pos := Place(k, 1)), c, rest);
  }

  /** Which characters the other items are. */
  ghost predicate Fits(it: Item, delim: char, c: char) {
    it.Opening? || (it.Given? && c == it.c) || (it.Again? && c == delim)
  }

  lemma StepOne(k: Kind, i: nat, st: Cursor, c: char)
    requires 0 < i < |Format(k)| && (Format(k)[i].Opening? || Format(k)[i].Given? || Format(k)[i].Again?)
    requires st.pos == Place(k, i) && (k.EprtCommand? && i == 1 ==> !IsSpace(c))
    ensures Place(k, i + 1) == st.pos + 1
    ensures Step(k, st, c) == if !Fits(Format(k)[i], st.delim, c) then None
      else Some(st.(pos := st.pos + 1, delim := if Format(k)[i].Opening? then c else st.delim))
  {
  }

  lemma FollowsOne(k: Kind, i: nat, st: Cursor, s: string, a: nat, p: nat)
    requires 0 < i < |Format(k)| && (Format(k)[i].Opening? || Format(k)[i].Given? || Format(k)[i].Again?)
    requires st.pos == Place(k, i) && (k.EprtCommand? && i == 1 ==> s != [] && !IsSpace(s[0]))
    ensures Accepts(k, st, s, a, p) <==> Matches(Format(k), i, s, st.addr, st.port, st.delim, a, p)
    decreases |Format(k)| - i, 0
  {
    if s != [] {
      StepOne(k, i, st, s[0]);
      if Fits(Format(k)[i], st.delim, s[0]) {
        Follows(k, i + 1, Step(k, st, s[0]).value, s[1..], a, p);
      }
    }
  }

  /** From the i-th item on, a parser accepts exactly what matches the rest of its format. */
  lemma {:induction false} Follows(k: Kind, i: nat, st: Cursor, s: string, a: nat, p: nat)
    requires 0 < i <= |Format(k)| && st.pos == Place(k, i)
    requires k.EprtCommand? && i == 1 ==> s != [] && !IsSpace(s[0])
    ensures Accepts(k, st, s, a, p) <==> Matches(Format(k), i, s, st.addr, st.port, st.delim, a, p)
    decreases |Format(k)| - i, 1
  {
    if i == |Format(k)| {
      IgnoreRest(k, st, s);
    } else {
      var it := Format(k)[i];
      if it.AddrByte? || it.PortByte? {
        FollowsByte(k, i, st, s, a, p);
      } else if it.WholePort? {
        FollowsPort(k, i, st, s, a, p);
      } else {
        FollowsOne(k, i, st, s, a, p);
      }
    }
  }

  lemma {:induction false} RunMagic(k: Kind, i: nat, s: string)
    requires i <= |Magic(k)|
    ensures var m := Magic(k)[i..]; var st := Start(k).(pos := i - |Magic(k)|);
            if m <= s then Run(k, st, s) == Run(k, Start(k).(pos := 0), s[|m|..])
            else Run(k, st, s).None? || Run(k, st, s).value.pos < 0
    decreases |Magic(k)| - i
  {
    var m, st := Magic(k)[i..], Start(k).(pos := i - |Magic(k)|);
    if i < |Magic(k)| && s != [] {
      assert m == [m[0]] + Magic(k)[i + 1..] && s == [s[0]] + s[1..];
      assert m <= s <==> m[0] == s[0] && Magic(k)[i + 1..] <= s[1..];
      if m[0] == s[0] {
        RunMagic(k, i + 1, s[1..]);
      }
    }
  }

  /** A parser accepts exactly the messages of its format, and takes address and port from them. */
  lemma ParsesFormat(k: Kind, s: string, a: nat, p: nat)
    ensures Parse(k, s).Some? && Parse(k, s).value.addr == a && Parse(k, s).value.port == p <==> Message(k, s, a, p)
  {
    RunMagic(k, 0, s);
    assert Magic(k)[0..] == Magic(k);
    if Magic(k) <= s {
      FollowsSkip(k, Start(k).(pos := 0), s[|Magic(k)|..], a, p);
    }
  }

  lemma Accepted(k: Kind, s: string)
    ensures Parse(k, s).Some? <==> exists a, p :: Message(k, s, a, p)
    ensures Parse(k, s).Some? ==> Message(k, s, Parse(k, s).value.addr, Parse(k, s).value.port)
  {
    if Parse(k, s).Some? {
      ParsesFormat(k, s, Parse(k, s).value.addr, Parse(k, s).value.port);
    }
    if a, p :| Message(k, s, a, p) {
      ParsesFormat(k, s, a, p);
    }
  }

  /** A message can be read in one way only. */
  lemma OneReading(k: Kind, s: string, a: nat, p: nat, a': nat, p': nat)
    requires Message(k, s, a, p) && Message(k, s, a', p')
    ensures a == a' && p == p'
  {
    ParsesFormat(k, s, a, p);
    ParsesFormat(k, s, a', p');
  }

  // ---------------------------------------------------------------- reading back

  lemma {:induction false} DecReads(n: nat)
    ensures Digits(Dec(n)) && Numeral(Dec(n)) == n
  {
    if n >= 10 {
      DecReads(n / 10);
      assert Dec(n)[..|Dec(n)| - 1] == Dec(n / 10);
    } else {
      assert Dec(n)[..0] == [];
    }
  }

  /** Reading the decimal digits of an octet stores the octet. */
  lemma ReadOctet(k: Kind, st: Cursor, n: nat)
    requires OctetField(k, st.pos) && n < 0x100
    ensures Run(k, st, Dec(n)) == Some(st.(pos := st.pos + 1, octet := n))
  {
    DecReads(n);
    RunDigits(k, st, Dec(n));
  }

  lemma ReadPort(k: Kind, st: Cursor, n: nat)
    requires PortField(k, st.pos) && n < 0x1_0000
    ensures Run(k, st, Dec(n)) == Some(st.(pos := st.pos + 1, port := n))
  {
    DecReads(n);
    RunDigits(k, st, Dec(n));
  }

  predicate AddrSeparator(k: Kind, pos: int, sep: char) {
    if k.EprtCommand? then sep == if pos == 9 then '|' else '.' else pos <= 7 && sep == ','
  }

  lemma AddrSep(k: Kind, st: Cursor, sep: char)
    requires OctetField(k, st.pos - 1) && AddrSeparator(k, st.pos - 1, sep)
    requires st.addr < 0x100_0000 && st.octet < 0x100
    ensures Step(k, st, sep) == Some(st.(pos := st.pos + 1, addr := st.addr * 0x100 + st.octet))
  {
  }

  predicate PortSeparator(k: Kind, pos: int, sep: char) {
    && (k.PortCommand? || k.Reply227?)
    && if pos == 9 then sep == ',' else pos == 11 && sep == if k.PortCommand? then '\r' else ')'
  }

  lemma PortSep(k: Kind, st: Cursor, sep: char)
    requires PortSeparator(k, st.pos - 1, sep) && st.port < 0x100 && st.octet < 0x100
    ensures Step(k, st, sep) == Some(st.(pos := st.pos + 1, port := st.port * 0x100 + st.octet))
  {
  }

  /** A number, its separator, and the rest. */
  lemma ReadAddrPart(k: Kind, st: Cursor, n: nat, sep: char, rest: string)
    requires OctetField(k, st.pos) && n < 0x100
    requires AddrSeparator(k, st.pos, sep)
    requires st.addr < 0x100_0000
    ensures Run(k, st, Number(n, sep, rest))
         == Run(k, st.(pos := st.pos + 2, addr := st.addr * 0x100 + n, octet := n), rest)
  {
    ReadOctet(k, st, n);
    RunConcat(k, st, Dec(n), [sep] + rest);
    RunFirst(k, st.(pos := st.pos + 1, octet := n), sep, rest);
    AddrSep(k, st.(pos := st.pos + 1, octet := n), sep);
  }

  lemma ReadPortPart(k: Kind, st: Cursor, n: nat, sep: char, rest: string)
    requires PortSeparator(k, st.pos, sep) && n < 0x100
    requires st.port < 0x100
    ensures Run(k, st, Number(n, sep, rest))
         == Run(k, st.(pos := st.pos + 2, port := st.port * 0x100 + n, octet := n), rest)
  {
    ReadOctet(k, st, n);
    RunConcat(k, st, Dec(n), [sep] + rest);
    RunFirst(k, st.(pos := st.pos + 1, octet := n), sep, rest);
    PortSep(k, st.(pos := st.pos + 1, octet := n), sep);
  }

  lemma ReadWholePort(k: Kind, st: Cursor, n: nat, rest: string)
    requires PortField(k, st.pos) && n < 0x1_0000 && st.delim == '|'
    ensures Run(k, st, Number(n, '|', rest)) == Run(k, st.(pos := st.pos + 2, port := n), rest)
  {
    ReadPort(k, st, n);
    RunConcat(k, st, Dec(n), ['|'] + rest);
    RunFirst(k, st.(pos := st.pos + 1, port := n), '|', rest);
  }

  lemma AfterMagic(k: Kind, rest: string)
    ensures Run(k, Start(k), Magic(k) + rest) == Run(k, Start(k).(pos := 0), rest)
  {
    assert Magic(k)[0..] == Magic(k) && (Magic(k) + rest)[|Magic(k)|..] == rest;
    RunMagic(k, 0, Magic(k) + rest);
  }

  /** Text up to the opening parenthesis is skipped. */
  lemma SkipText(k: Kind, st: Cursor, text: string, rest: string)
    requires (k.Reply227? || k.Reply229?) && st.pos == 0 && '(' !in text
    ensures Run(k, st, text + rest) == Run(k, st, rest)
  {
    RunSkip(k, st, text);
    RunConcat(k, st, text, rest);
  }

  lemma ReadPair(k: Kind, st: Cursor, x: nat, y: nat, sep: char, sep': char, rest: string)
    requires OctetField(k, st.pos) && AddrSeparator(k, st.pos, sep)
    requires OctetField(k, st.pos + 2) && AddrSeparator(k, st.pos + 2, sep')
    requires x < 0x100 && y < 0x100 && st.addr < 0x1_0000
    ensures Run(k, st, Number(x, sep, Number(y, sep', rest)))
         == Run(k, st.(pos := st.pos + 4, addr := (st.addr * 0x100 + x) * 0x100 + y, octet := y), rest)
  {
    ReadAddrPart(k, st, x, sep, Number(y, sep', rest));
    ReadAddrPart(k, st.(pos := st.pos + 2, addr := st.addr * 0x100 + x, octet := x), y, sep', rest);
  }

  /** Four octets and their separators leave the address behind. */
  lemma ReadFour(k: Kind, st: Cursor, a: Address, sep: char, last: char, rest: string)
    requires if k.EprtCommand? then st.pos == 3 && sep == '.' && last == '|'
             else (k.PortCommand? || k.Reply227?) && st.pos == 1 && sep == ',' && last == ','
    requires a.Valid() && st.addr == 0
    ensures Run(k, st, Four(a, sep, last, rest))
         == Run(k, st.(pos := st.pos + 8, addr := a.Value(), octet := a.a4), rest)
  {
    ReadPair(k, st, a.a1, a.a2, sep, sep, Number(a.a3, sep, Number(a.a4, last, rest)));
    ReadPair(k, st.(pos := st.pos + 4, addr := a.a1 * 0x100 + a.a2, octet := a.a2), a.a3, a.a4, sep, last, rest);
  }

  /** The two halves of a port. */
  lemma ReadTwo(k: Kind, st: Cursor, port: nat, last: char, rest: string)
    requires (k.PortCommand? || k.Reply227?) && st.pos == 9 && st.port == 0
    requires port < 0x1_0000 && last == if k.PortCommand? then '\r' else ')'
    ensures Run(k, st, Number(port / 0x100, ',', Number(port % 0x100, last, rest)))
         == Some(st.(pos := 13, port := port, octet := port % 0x100))
  {
    ReadPortPart(k, st, port / 0x100, ',', Number(port % 0x100, last, rest));
    var s1 := st.(pos := 11, port := port / 0x100, octet := port / 0x100);
    ReadPortPart(k, s1, port % 0x100, last, rest);
    IgnoreRest(k, st.(pos := 13, port := port, octet := port % 0x100), rest);
  }

  lemma ReadSix(k: Kind, st: Cursor, a: Address, port: nat, last: char, rest: string)
    requires (k.PortCommand? || k.Reply227?) && st.pos == 1 && st.addr == 0 && st.port == 0
    requires a.Valid() && port < 0x1_0000 && last == if k.PortCommand? then '\r' else ')'
    ensures var r := Run(k, st, Six(a, port, last, rest));
            r.Some? && r.value.pos == 13 && r.value.addr == a.Value() && r.value.port == port
  {
    ReadFour(k, st, a, ',', ',', Number(port / 0x100, ',', Number(port % 0x100, last, rest)));
    ReadTwo(k, st.(pos := 9, addr := a.Value(), octet := a.a4), port, last, rest);
  }

  lemma ReadEprt(st: Cursor, a: Address, port: nat)
    requires st.pos == 3 && st.addr == 0 && st.delim == '|'
    requires a.Valid() && port < 0x1_0000
    ensures var r := Run(EprtCommand, st, Four(a, '.', '|', Number(port, '|', "\r\n")));
            r.Some? && r.value.pos == 13 && r.value.addr == a.Value() && r.value.port == port
  {
    ReadFour(EprtCommand, st, a, '.', '|', Number(port, '|', "\r\n"));
    var s4 := st.(pos := 11, addr := a.Value(), octet := a.a4);
    ReadWholePort(EprtCommand, s4, port, "\r\n");
    IgnoreRest(EprtCommand, s4.(pos := 13, port := port), "\r\n");
  }

  lemma PrintLongEnough(k: Kind, a: Address, port: nat)
    ensures |Print(k, a, port)| >= MinLength(k)
  {
  }

  lemma ReadPortCommand(a: Address, port: nat)
    requires a.Valid() && port < 0x1_0000
    ensures ReadsBack(PortCommand, a, port)
  {
    var k := PortCommand;
    var st := Start(k).(pos := 0);
    var six := Six(a, port, '\r', "\n");
    AfterMagic(k, " " + six);
    RunFirst(k, st, ' ', six);
    PortLeadingDigit(st, a, port);
    ReadSix(k, st.(pos := 1), a, port, '\r', "\n");
  }

  lemma Read227(a: Address, port: nat)
    requires a.Valid() && port < 0x1_0000
    ensures ReadsBack(Reply227, a, port)
  {
    var k := Reply227;
    var st := Start(k).(pos := 0);
    var six := Six(a, port, ')', "\r\n");
    AfterMagic(k, " Entering Passive Mode " + ("(" + six));
    SkipText(k, st, " Entering Passive Mode ", "(" + six);
    RunFirst(k, st, '(', six);
    ReadSix(k, st.(pos := 1), a, port, ')', "\r\n");
  }

  lemma ReadEprtCommand(a: Address, port: nat)
    requires a.Valid() && port < 0x1_0000
    ensures ReadsBack(EprtCommand, a, port)
  {
    var k := EprtCommand;
    var st := Start(k).(pos := 0);
    var body := Four(a, '.', '|', Number(port, '|', "\r\n"));
    AfterMagic(k, " " + ("|1|" + body));
    RunFirst(k, st, ' ', "|1|" + body);
    RunThree(k, st, '|', '1', '|', body);
    ReadEprt(st.(pos := 3), a, port);
  }

  lemma Read229(a: Address, port: nat)
    requires a.Valid() && port < 0x1_0000
    ensures ReadsBack(Reply229, a, port)
  {
    var k := Reply229;
    var st := Start(k).(pos := 0);
    var body := Number(port, '|', ")\r\n");
    AfterMagic(k, " Entering Extended Passive Mode " + ("(|||" + body));
    SkipText(k, st, " Entering Extended Passive Mode ", "(|||" + body);
    assert "(|||" + body == ['('] + ("|||" + body);
    RunFirst(k, st, '(', "|||" + body);
    RunThree(k, st.(pos := 1), '|', '|', '|', body);
    ReadWholePort(k, st.(pos := 4), port, ")\r\n");
    assert ")\r\n" == [')'] + "\r\n";
    RunFirst(k, st.(pos := 6, port := port), ')', "\r\n");
    IgnoreRest(k, st.(pos := 7, port := port), "\r\n");
  }

  lemma RunThree(k: Kind, st: Cursor, c1: char, c2: char, c3: char, rest: string)
    requires Step(k, st, c1).Some? && Step(k, Step(k, st, c1).value, c2).Some?
    requires Step(k, Step(k, Step(k, st, c1).value, c2).value, c3).Some?
    ensures Run(k, st, [c1, c2, c3] + rest) == Run(k, Step(k, Step(k, Step(k, st, c1).value, c2).value, c3).value, rest)
  {
    assert [c1, c2, c3] + rest == [c1] + ([c2] + ([c3] + rest));
    RunFirst(k, st, c1, [c2] + ([c3] + rest));
    RunFirst(k, Step(k, st, c1).value, c2, [c3] + rest);
    RunFirst(k, Step(k, Step(k, st, c1).value, c2).value, c3, rest);
  }

  /** After the blanks of a PORT command the first digit is read as if the parser were already inside. */
  lemma PortLeadingDigit(st: Cursor, a: Address, port: nat)
    requires st.pos == 0 && a.Valid()
    ensures Run(PortCommand, st, Six(a, port, '\r', "\n")) == Run(PortCommand, st.(pos := 1), Six(a, port, '\r', "\n"))
  {
    var s := Six(a, port, '\r', "\n");
    DecReads(a.a1);
    assert s[0] == Dec(a.a1)[0];
  }

  /** The parser ends where it should, with the port and (where the message carries one) the address. */
  ghost predicate ReadsBack(k: Kind, a: Address, port: nat) {
    var r := Run(k, Start(k), Print(k, a, port));
    && r.Some? && r.value.pos == Final(k) && r.value.port == port
    && (!k.Reply229? ==> r.value.addr == a.Value())
  }

  /** The buffer NewFtpMessage prints into holds this many characters. */
  const MAX_MESSAGE_SIZE: nat := 128

  lemma {:induction false} DecWidth(n: nat, w: nat)
    requires w > 0 && n < Pow10(w)
    ensures |Dec(n)| <= w
  {
    if n >= 10 {
      DecWidth(n / 10, w - 1);
    }
  }

  function Pow10(w: nat): (p: nat) ensures p >= 1 { if w == 0 then 1 else 10 * Pow10(w - 1) }

  /** No message is cut short by the buffer. */
  lemma PrintFits(k: Kind, a: Address, port: nat)
    requires a.Valid() && port < 0x1_0000
    ensures |Print(k, a, port)| <= MAX_MESSAGE_SIZE
  {
    assert Pow10(3) == 1000 && Pow10(5) == 100_000;
    DecWidth(a.a1, 3);
    DecWidth(a.a2, 3);
    DecWidth(a.a3, 3);
    DecWidth(a.a4, 3);
    DecWidth(port / 0x100, 3);
    DecWidth(port % 0x100, 3);
    DecWidth(port, 5);
  }

  /** Each message fits its buffer, and its parser accepts it and gets back the address (where the message
      carries one) and the port, for every IPv4 address and every 16-bit port. */
  lemma PrintThenParse(k: Kind, a: Address, port: nat)
    requires a.Valid() && port < 0x1_0000
    ensures |Print(k, a, port)| <= MAX_MESSAGE_SIZE
    ensures var r := Parse(k, Print(k, a, port));
            && r.Some? && r.value.port == port
            && (!k.Reply229? ==> r.value.addr == a.Value())
  {
    PrintFits(k, a, port);
    PrintLongEnough(k, a, port);
    match k
    case PortCommand => ReadPortCommand(a, port);
    case EprtCommand => ReadEprtCommand(a, port);
    case Reply227 => Read227(a, port);
    case Reply229 => Read229(a, port);
  }
}
