/**
  Choosing the next packet: rmc_under_limit, and one pass of the weighted round-robin scan over a ring.
 */
module CbqDequeue {
  import opened Wrappers
  import opened CbqState

  // ---------------------------------------------------------------- one class

  /** rmc_delay_action: an overlimit class goes to sleep; its time may only move further away. */
  function DelayAction(t: Timing, offtime: int): (r: Timing)
    ensures r.sleeping && (r.undertime == t.undertime || Before(t.undertime, r.undertime))
    ensures Micros(r.undertime) == Micros(t.undertime) + if offtime > t.lastPkttime then offtime - t.lastPkttime else 0
    ensures r.last == t.last && r.lastPkttime == t.lastPkttime && r.avgidle == t.avgidle && r.overtime == t.overtime
  {
    var extradelay := offtime - t.lastPkttime;
    t.(sleeping := true, undertime := if extradelay > 0 then AddDelta(t.undertime, extradelay) else t.undertime)
  }

  /** The view is of this interface; none of this changes during a search. */
  ghost predicate Static(ifd: RmIfdat, v: View, now: Time)
    reads ifd`c
  {
    now.sec > 0 && v.conf == ifd.c.conf && v.depth == ifd.c.depth && |ifd.c.est| == |ifd.c.conf|
  }

  /** Changing the clock of one class keeps the view if the class looks the same. */
  lemma SeesUpdate(v: View, timing: seq<Timing>, now: Time, c: nat, t: Timing)
    requires Sees(v, timing, now) && c < |timing| && SeesClass(v, c, t, now)
    ensures Sees(v, timing[c := t], now)
  {
  }

  ghost predicate Settled(over: bool, t0: Timing, t1: Timing) {
    (over && t0.sleeping ==> t1.sleeping) && t1.avgidle == t0.avgidle && t1.last == t0.last
  }

  /** Whoever is over the limit and was asleep still is, and the estimates have not changed. */
  ghost predicate StillAsleep(v: View, t0: seq<Timing>, t1: seq<Timing>) {
    && |t0| == |t1| == |v.conf|
    && forall c :: 0 <= c < |t0| ==> Settled(v.over[c], t0[c], t1[c])
  }

  /** Where the clocks, the accounts and the ledger stood at some point of a search. */
  datatype Mark = Mark(timing: seq<Timing>, accounts: seq<int>, ledger: Ledger)

  /** Since that point nobody over the limit has woken, and accounts have moved only as a search may move them. */
  ghost predicate Since(ifd: RmIfdat, v: View, m: Mark)
    reads ifd`c, ifd`t, ifd`l
  {
    && StillAsleep(v, m.timing, ifd.t.timing)
    && Turning(m.accounts, m.ledger, ifd.t.bytesAlloc, ifd.l, ifd.c.wAllotment)
  }

  lemma TurningTrans(b0: seq<int>, l0: Ledger, b1: seq<int>, l1: Ledger, b2: seq<int>, l2: Ledger, w: seq<nat>)
    requires Turning(b0, l0, b1, l1, w) && Turning(b1, l1, b2, l2, w)
    ensures Turning(b0, l0, b2, l2, w)
  {
    forall c | 0 <= c < |b2| ensures Anew(b0[c], b2[c], l0.turn[c], l2.turn[c], l0.charged[c], l2.charged[c], w[c]) {
      assert Anew(b0[c], b1[c], l0.turn[c], l1.turn[c], l0.charged[c], l1.charged[c], w[c]);
      assert Anew(b1[c], b2[c], l1.turn[c], l2.turn[c], l1.charged[c], l2.charged[c], w[c]);
    }
  }

  /** One account moves on. */
  lemma TurningStep(b0: seq<int>, l0: Ledger, b: seq<int>, l: Ledger, w: seq<nat>, c: nat, b': int, turn: nat,
                    charged: nat)
    requires Turning(b0, l0, b, l, w) && c < |b| && Anew(b[c], b', l.turn[c], turn, l.charged[c], charged, w[c])
    ensures Turning(b0, l0, b[c := b'], Ledger(l.turn[c := turn], l.charged[c := charged]), w)
  {
    var l' := Ledger(l.turn[c := turn], l.charged[c := charged]);
    forall d | 0 <= d < |b|
      ensures Anew(b[d], b[c := b'][d], l.turn[d], l'.turn[d], l.charged[d], l'.charged[d], w[d]) {
    }
    TurningTrans(b0, l0, b, l, b[c := b'], l', w);
  }

  /** A refused class is asleep, or the cutoff stops it. */
  ghost predicate Stopped(v: View, cutoff: nat, c: nat, asleep: bool) {
    c < |v.conf| && v.over[c] && (asleep || ChainCut(v, cutoff, c))
  }

  /** Who lends the class its turn: nobody if it is under its own limit. */
  ghost function LentBy(v: View, c: int): int {
    if 0 <= c < |v.conf| && v.conf[c].parent != -1 && v.over[c] then Lender(v, c) else -1
  }

  /** The last class of the borrow chain. */
  ghost function Top(v: View, c: int): (r: int)
    ensures r <= c || r == -1
    ensures r != -1 ==> 0 <= r < |v.conf|
  {
    if !(0 <= c < |v.conf| && Linked(v.conf, c)) then -1
    else if v.conf[c].borrow == -1 then c
    else Top(v, v.conf[c].borrow)
  }

  /** How long a class sleeps: the offtime of the top of its borrow chain, unless there is no other class on it
      or the top is itself as overloaded as it can be. */
  function Offtime(timing: seq<Timing>, est: seq<Estimator>, p: nat, top: int): int
    requires p < |timing| == |est| && top < |est|
  {
    if top < 0 || top == p || timing[top].avgidle == est[top].minidle then est[p].offtime else est[top].offtime
  }

  /**
    The clock of a class after the test: a sleeper whose time has come wakes; a class falls asleep if its whole
    chain is over limit and within the cutoff; nothing else changes.
   */
  ghost function Tested(v: View, cutoff: nat, p: nat, timing: seq<Timing>, est: seq<Estimator>, now: Time): Timing
    requires p < |v.conf| == |timing| == |est|
  {
    var t := timing[p];
    if v.conf[p].parent == -1 then t
    else if t.sleeping then
      if Before(now, t.undertime) then t else t.(sleeping := false, undertime := t.undertime.(sec := 0))
    else if WholeChainOver(v, p) && !ChainCut(v, cutoff, p) then
      DelayAction(t.(overtime := now), Offtime(timing, est, p, Top(v, p)))
    else t
  }

  /** A class that falls asleep sleeps its own offtime if it borrows from nobody, or if the last lender of its chain is
      at its lowest average, and that lender's offtime otherwise; what its last packet took counts towards it. */
  lemma SleepsFor(v: View, cutoff: nat, p: nat, timing: seq<Timing>, est: seq<Estimator>, now: Time)
    requires p < |v.conf| == |timing| == |est| && v.conf[p].parent != -1 && !timing[p].sleeping
    requires WholeChainOver(v, p) && !ChainCut(v, cutoff, p)
    ensures var r, top := Tested(v, cutoff, p, timing, est, now), Top(v, p);
      && r.sleeping && 0 <= top <= p && v.conf[top].borrow == -1 && (top == p <==> v.conf[p].borrow == -1)
      && var off := if v.conf[p].borrow != -1 && timing[top].avgidle != est[top].minidle then est[top].offtime
                    else est[p].offtime;
         Micros(r.undertime) - Micros(timing[p].undertime) ==
           if off > timing[p].lastPkttime then off - timing[p].lastPkttime else 0
  {
    TopOfChain(v, p);
  }

  lemma {:induction false} TopOfChain(v: View, c: nat)
    requires c < |v.conf|
    ensures 0 <= Top(v, c) <= c && v.conf[Top(v, c)].borrow == -1 && (Top(v, c) == c <==> v.conf[c].borrow == -1)
  {
    assert Linked(v.conf, c);
    if v.conf[c].borrow != -1 {
      TopOfChain(v, v.conf[c].borrow);
    }
  }

  /** rmc_under_limit.  Whoever is over the limit stays so, and whoever may send still may. */
  method UnderLimit(ifd: RmIfdat, p: nat, now: Time, ghost v: View) returns (sends: bool)
    requires Static(ifd, v, now) && Sees(v, ifd.t.timing, now) && p < |ifd.c.conf| && ifd.s.qi < |ifd.s.borrowed|
    modifies ifd`s, ifd`t
    ensures Sees(v, ifd.t.timing, now)
    ensures ifd.t == old(ifd.t).(timing := old(ifd.t.timing)[
      p := Tested(v, ifd.cutoff, p, old(ifd.t.timing), ifd.c.est, now)])
    ensures Settled(v.over[p], old(ifd.t.timing)[p], ifd.t.timing[p])
    ensures sends <==> CanSend(v, ifd.cutoff, p)
    ensures !sends ==> Stopped(v, ifd.cutoff, p, ifd.t.timing[p].sleeping)
    ensures ifd.s.qi == old(ifd.s.qi)
    ensures ifd.s == old(ifd.s).(borrowed := old(ifd.s.borrowed)[ifd.s.qi := if sends then LentBy(v, p) else -1])
  {
    ghost var k := ifd.cutoff;
    assert SeesClass(v, p, ifd.t.timing[p], now);
    ifd.s := ifd.s.(borrowed := ifd.s.borrowed[ifd.s.qi := -1]);
    if ifd.c.conf[p].parent == -1 {
      return true;
    }
    var t := ifd.t.timing[p];
    assert Linked(v.conf, p);
    if t.sleeping {
      if Before(now, t.undertime) {
        return false;
      }
      SeesUpdate(v, ifd.t.timing, now, p, t.(sleeping := false, undertime := t.undertime.(sec := 0)));
      ifd.t := ifd.t.(timing := ifd.t.timing[p := t.(sleeping := false, undertime := t.undertime.(sec := 0))]);
      return true;
    }
    var top := -1;
    var cl: int := p;
    while Over(ifd.t.timing[cl], now)
      invariant 0 <= cl <= p && -1 <= top <= p
      invariant SeesClass(v, cl, ifd.t.timing[cl], now)
      invariant ChainUnder(v, k, p) <==> ChainUnder(v, k, cl)
      invariant ChainCut(v, k, cl) <==> ChainCut(v, k, p)
      invariant WholeChainOver(v, cl) <==> WholeChainOver(v, p)
      invariant cl != p ==> v.over[p]
      invariant Lender(v, p) == Lender(v, cl) && Top(v, p) == Top(v, cl)
      invariant top == if cl == p then -1 else cl
      decreases cl
    {
      assert Linked(v.conf, cl);
      cl := ifd.c.conf[cl].borrow;
      if cl == -1 || ifd.c.depth[cl] > ifd.cutoff {
        if cl != -1 {
          return false;
        }
        if top != -1 && ifd.t.timing[top].avgidle == ifd.c.est[top].minidle {
          top := -1;
        }
        var r := DelayAction(t.(overtime := now), if top != -1 then ifd.c.est[top].offtime else ifd.c.est[p].offtime);
        SeesUpdate(v, ifd.t.timing, now, p, r);
        ifd.t := ifd.t.(timing := ifd.t.timing[p := r]);
        ChainCases(v, k, p);
        return false;
      }
      top := cl;
      assert SeesClass(v, cl, ifd.t.timing[cl], now);
    }
    assert Linked(v.conf, cl) && !v.over[cl] && ChainUnder(v, k, p) && !WholeChainOver(v, cl);
    if cl != p {
      ifd.s := ifd.s.(borrowed := ifd.s.borrowed[ifd.s.qi := cl]);
    }
    sends := true;
  }

  /** The lender is noted in the slot, which was empty. */
  function Lent(borrowed: seq<int>, qi: nat, lender: int): (r: seq<int>)
    ensures |r| == |borrowed|
  {
    if lender != -1 && qi < |borrowed| then borrowed[qi := lender] else borrowed
  }

  /** The clock of a class after the condition of the scan. */
  ghost function Judged(v: View, cutoff: nat, c: nat, timing: seq<Timing>, est: seq<Estimator>, now: Time): Timing
    requires c < |v.conf| == |timing| == |est|
  {
    if timing[c].undertime.sec == 0 then timing[c] else Tested(v, cutoff, c, timing, est, now)
  }

  /** The condition of the scan: a class whose undertime is unset is not asked. */
  method Judge(ifd: RmIfdat, cl: nat, now: Time, ghost v: View) returns (sends: bool)
    requires Static(ifd, v, now) && Sees(v, ifd.t.timing, now) && cl < |ifd.c.conf|
    requires ifd.s.qi < |ifd.s.borrowed| && ifd.s.borrowed[ifd.s.qi] == -1
    modifies ifd`s, ifd`t
    ensures Sees(v, ifd.t.timing, now)
    ensures ifd.t == old(ifd.t).(timing := old(ifd.t.timing)[
      cl := Judged(v, ifd.cutoff, cl, old(ifd.t.timing), ifd.c.est, now)])
    ensures Settled(v.over[cl], old(ifd.t.timing)[cl], ifd.t.timing[cl])
    ensures sends <==> CanSend(v, ifd.cutoff, cl)
    ensures !sends ==> Stopped(v, ifd.cutoff, cl, ifd.t.timing[cl].sleeping)
    ensures ifd.s == old(ifd.s).(borrowed := Lent(old(ifd.s.borrowed), ifd.s.qi, if sends then LentBy(v, cl) else -1))
  {
    sends := true;
    assert SeesClass(v, cl, ifd.t.timing[cl], now) && Linked(v.conf, cl);
    if ifd.t.timing[cl].undertime.sec != 0 {
      sends := UnderLimit(ifd, cl, now, v);
    }
  }

  // ---------------------------------------------------------------- one pass over a ring

  /** The account a visit tops up: only outside the second pass and only when it is used up. */
  function Refill(second: bool, account: int, allotment: nat): int {
    if !second && account <= 0 then account + allotment else account
  }

  /** What stays fixed while a pass goes round a ring; `was` are the accounts it began with. */
  datatype Circuit = Circuit(v: View, cutoff: nat, q: seq<seq<Packet>>, allotment: seq<nat>, was: seq<int>,
                             second: bool)

  type Pass = p: Circuit | |p.q| == |p.allotment| == |p.was| == |p.v.conf|
    witness Circuit(Sight([], [], [], []), 0, [], [], [], false)

  /** A backlogged class that may send. */
  ghost predicate Eligible(p: Pass, c: nat) {
    c < |p.q| && p.q[c] != [] && CanSend(p.v, p.cutoff, c)
  }

  ghost function Refilled(p: Pass, c: nat): int {
    if c < |p.q| then Refill(p.second, p.was[c], p.allotment[c]) else 0
  }

  /** A class the pass may stop at. */
  ghost predicate Choice(p: Pass, c: nat) {
    Eligible(p, c) && (p.second || Refilled(p, c) > 0)
  }

  /** A class the pass has visited and not chosen: `short` says that some class lacked allotment by now,
      `noted` that some borrowing candidate is known. */
  ghost predicate Skipped(p: Pass, c: nat, asleep: bool, short: bool, noted: bool) {
    c < |p.q| && p.q[c] != [] ==>
      if CanSend(p.v, p.cutoff, c) then short && !p.second && Refilled(p, c) <= 0
      else Stopped(p.v, p.cutoff, c, asleep) && (p.v.conf[c].borrow != -1 ==> noted)
  }

  /** A backlogged class that is over its limit and may borrow. */
  ghost predicate Candidate(v: View, q: seq<seq<Packet>>, live: seq<bool>, c: int) {
    0 <= c < |q| && c < |live| && c < |v.conf| && live[c] && q[c] != [] && v.conf[c].borrow != -1 && v.over[c]
  }

  /** The pass is over this interface; none of this changes during a search at one cutoff. */
  ghost predicate About(p: Pass, ifd: RmIfdat, now: Time)
    reads ifd`c, ifd`b, ifd`cutoff
  {
    && Static(ifd, p.v, now) && |ifd.c.live| == |ifd.c.conf|
    && p.q == ifd.b.q && p.allotment == ifd.c.wAllotment && p.cutoff == ifd.cutoff
  }

  /** Clearing or topping up an account starts a new turn of it. */
  method SetAccount(ifd: RmIfdat, cl: nat, b: int, w: nat)
    requires ifd.Accounts() && cl < |ifd.t.bytesAlloc| && ifd.largest + b > 0 && b <= w
    modifies ifd`t, ifd`l
    ensures ifd.Accounts() && ifd.t == old(ifd.t).(bytesAlloc := old(ifd.t.bytesAlloc)[cl := b])
    ensures cl < |ifd.l.turn| == |ifd.l.charged|
    ensures ifd.l == Ledger(old(ifd.l.turn)[cl := w], old(ifd.l.charged)[cl := 0])
  {
    NewTurn(ifd.t.bytesAlloc, ifd.l.turn, ifd.l.charged, ifd.largest, cl, b, w);
    ifd.t := ifd.t.(bytesAlloc := ifd.t.bytesAlloc[cl := b]);
    ifd.l := Ledger(ifd.l.turn[cl := w], ifd.l.charged[cl := 0]);
  }

  lemma NewTurn(bytesAlloc: seq<int>, turn: seq<nat>, charged: seq<nat>, largest: nat, c: nat, b: int, w: nat)
    requires Covered(bytesAlloc, turn, charged, largest) && c < |turn| && largest + b > 0 && b <= w
    ensures Covered(bytesAlloc[c := b], turn[c := w], charged[c := 0], largest)
  {
  }

  /** A visited class that has packets is judged. */
  method Offer(ifd: RmIfdat, cl: nat, second: bool, short0: bool, first0: int, now: Time, ghost p: Pass)
    returns (chosen: bool, short: bool, first: int)
    requires About(p, ifd, now) && Sees(p.v, ifd.t.timing, now) && cl < |ifd.c.conf| == |ifd.t.bytesAlloc|
    requires ifd.c.live[cl]
    requires ifd.s.qi < |ifd.s.borrowed| && ifd.s.borrowed[ifd.s.qi] == -1
    requires p.second == second && ifd.t.bytesAlloc[cl] == Refilled(p, cl) && ifd.b.q[cl] != []
    modifies ifd`s, ifd`t
    ensures Sees(p.v, ifd.t.timing, now)
    ensures ifd.t == old(ifd.t).(timing := old(ifd.t.timing)[cl := ifd.t.timing[cl]])
    ensures Settled(p.v.over[cl], old(ifd.t.timing)[cl], ifd.t.timing[cl])
    ensures ifd.s == old(ifd.s).(
      borrowed := Lent(old(ifd.s.borrowed), ifd.s.qi, if chosen then LentBy(p.v, cl) else -1))
    ensures chosen ==> Choice(p, cl) && short == short0 && first == first0
    ensures !chosen ==> Skipped(p, cl, ifd.t.timing[cl].sleeping, short, first != -1)
    ensures !chosen ==> short == (short0 || Eligible(p, cl))
    ensures first == first0 || (first0 == -1 && Candidate(p.v, p.q, ifd.c.live, first))
  {
    chosen, short, first := false, short0, first0;
    var sends := Judge(ifd, cl, now, p.v);
    if sends {
      if ifd.t.bytesAlloc[cl] > 0 || second {
        return true, short0, first0;
      }
      short := true;
      ifd.s := ifd.s.(borrowed := ifd.s.borrowed[ifd.s.qi := -1]);
    } else if first == -1 && ifd.c.conf[cl].borrow != -1 {
      first := cl;
    }
  }

  /** Visiting one class: refill, judge, and say whether it is chosen. */
  method Visit(ifd: RmIfdat, cl: nat, second: bool, short0: bool, first0: int, now: Time, ghost p: Pass)
    returns (chosen: bool, short: bool, first: int)
    requires About(p, ifd, now) && Sees(p.v, ifd.t.timing, now) && ifd.Accounts()
    requires cl < |ifd.c.conf| == |ifd.t.bytesAlloc| && ifd.c.live[cl]
    requires ifd.s.qi < |ifd.s.borrowed| && ifd.s.borrowed[ifd.s.qi] == -1
    requires p.second == second && ifd.t.bytesAlloc[cl] == p.was[cl]
    modifies ifd`s, ifd`t, ifd`l
    ensures Sees(p.v, ifd.t.timing, now) && ifd.Accounts()
    ensures ifd.t == Turns(old(ifd.t.timing)[cl := ifd.t.timing[cl]],
                           old(ifd.t.bytesAlloc)[cl := if chosen then Refilled(p, cl) else 0])
    ensures Settled(p.v.over[cl], old(ifd.t.timing)[cl], ifd.t.timing[cl])
    ensures ifd.s == old(ifd.s).(
      borrowed := Lent(old(ifd.s.borrowed), ifd.s.qi, if chosen then LentBy(p.v, cl) else -1))
    ensures |old(ifd.l.turn)| == |old(ifd.l.charged)| == |ifd.c.conf|
    ensures var turn := if !chosen then 0 else if !second && p.was[cl] <= 0 then ifd.c.wAllotment[cl]
                        else old(ifd.l.turn)[cl];
            var charged := if chosen && (second || p.was[cl] > 0) then old(ifd.l.charged)[cl] else 0;
            ifd.l == Ledger(old(ifd.l.turn)[cl := turn], old(ifd.l.charged)[cl := charged])
    ensures chosen ==> Choice(p, cl) && short == short0 && first == first0
    ensures !chosen ==> Skipped(p, cl, ifd.t.timing[cl].sleeping, short, first != -1)
    ensures !chosen ==> short == (short0 || Eligible(p, cl))
    ensures first == first0 || (first0 == -1 && Candidate(p.v, p.q, ifd.c.live, first))
  {
    chosen, short, first := false, short0, first0;
    assert Account(ifd.t.bytesAlloc[cl], ifd.l.turn[cl], ifd.l.charged[cl], ifd.largest);
    if !second && ifd.t.bytesAlloc[cl] <= 0 {
      SetAccount(ifd, cl, ifd.t.bytesAlloc[cl] + ifd.c.wAllotment[cl], ifd.c.wAllotment[cl]);
    }
    if ifd.b.q[cl] != [] {
      chosen, short, first := Offer(ifd, cl, second, short0, first0, now, p);
    }
    if !chosen {
      SetAccount(ifd, cl, 0, 0);
    }
  }

  /** The first k classes of the ring were visited and skipped; the accounts of the others, except perhaps
      `but`, are as they were. */
  ghost predicate Scanned(p: Pass, r: seq<nat>, k: nat, timing: seq<Timing>, accounts: seq<int>,
                          short: bool, noted: bool, but: int)
  {
    && Within(r, |p.q|) && k <= |r| && |timing| == |accounts| == |p.q|
    && (forall j :: 0 <= j < k ==> accounts[r[j]] == 0 && Skipped(p, r[j], timing[r[j]].sleeping, short, noted))
    && (forall j :: k <= j < |r| && r[j] != but ==> accounts[r[j]] == p.was[r[j]])
  }

  /** Skipping one more class. */
  lemma ScanStep(p: Pass, r: seq<nat>, k: nat, timing: seq<Timing>, accounts: seq<int>, short: bool, noted: bool,
                 t: Timing, short': bool, noted': bool)
    requires k < |r| && NoDup(r) && Scanned(p, r, k, timing, accounts, short, noted, -1)
    requires Skipped(p, r[k], t.sleeping, short', noted') && (short ==> short') && (noted ==> noted')
    ensures Scanned(p, r, k + 1, timing[r[k] := t], accounts[r[k] := 0], short', noted', -1)
  {
  }

  /** Stopping at a class. */
  lemma ScanStop(p: Pass, r: seq<nat>, k: nat, timing: seq<Timing>, accounts: seq<int>, short: bool, noted: bool,
                 t: Timing, a: int)
    requires k < |r| && NoDup(r) && Scanned(p, r, k, timing, accounts, short, noted, -1)
    ensures Scanned(p, r, k, timing[r[k] := t], accounts[r[k] := a], short, noted, r[k])
  {
  }

  /** The accounts at other priorities are untouched. */
  ghost predicate Elsewhere(conf: seq<Conf>, i: nat, was: seq<int>, accounts: seq<int>) {
    && |was| == |accounts| == |conf|
    && forall c :: 0 <= c < |conf| && conf[c].pri != i ==> accounts[c] == was[c]
  }

  /** What a scan of priority i keeps; Looking shows it: the loop need not look into it. */
  ghost predicate Scanning(ifd: RmIfdat, i: nat, now: Time, p: Pass, m0: Mark)
    reads ifd`c, ifd`t, ifd`l, ifd`largest
  {
    forall u: int {:trigger Looking(u)} :: Looking(u) ==>
      && Sees(p.v, ifd.t.timing, now) && ifd.Accounts() && Since(ifd, p.v, m0)
      && Elsewhere(ifd.c.conf, i, p.was, ifd.t.bytesAlloc)
  }

  /** The body of the do-while loop: one more class of the ring is skipped, or the scan stops at it. */
  method ScanOne(ifd: RmIfdat, cl: nat, second: bool, short0: bool, first0: int, now: Time, ghost p: Pass,
                 ghost r: seq<nat>, ghost k: nat, ghost lacking0: nat, ghost m0: Mark)
    returns (picked: bool, short: bool, first: int, ghost lacking: nat)
    requires About(p, ifd, now) && cl < |ifd.c.conf| && Scanning(ifd, ifd.c.conf[cl].pri, now, p, m0)
    requires ifd.s.qi < |ifd.s.borrowed| && ifd.s.borrowed[ifd.s.qi] == -1 && p.second == second
    requires Scanned(p, r, k, ifd.t.timing, ifd.t.bytesAlloc, short0, first0 != -1, -1)
    requires k < |r| && NoDup(r) && cl == r[k] && ifd.c.live[cl]
    requires short0 ==> lacking0 < k && Eligible(p, r[lacking0])
    modifies ifd`s, ifd`t, ifd`l
    ensures Scanning(ifd, ifd.c.conf[cl].pri, now, p, m0)
    ensures Scanned(p, r, if picked then k else k + 1, ifd.t.timing, ifd.t.bytesAlloc, short, first != -1,
                    if picked then cl else -1)
    ensures picked ==> Choice(p, cl) && ifd.t.bytesAlloc[cl] == Refilled(p, cl)
    ensures ifd.s == old(ifd.s).(
      borrowed := Lent(old(ifd.s.borrowed), ifd.s.qi, if picked then LentBy(p.v, cl) else -1))
    ensures short ==> lacking < |r| && lacking < (if picked then k else k + 1) && Eligible(p, r[lacking])
    ensures first == first0 || (first0 == -1 && Candidate(p.v, p.q, ifd.c.live, first))
  {
    assert Looking(0);
    ghost var timing, accounts, ledger := ifd.t.timing, ifd.t.bytesAlloc, ifd.l;
    picked, short, first := Visit(ifd, cl, second, short0, first0, now, p);
    lacking := if short0 then lacking0 else k;
    TurningStep(m0.accounts, m0.ledger, accounts, ledger, ifd.c.wAllotment, cl, ifd.t.bytesAlloc[cl], ifd.l.turn[cl],
                ifd.l.charged[cl]);
    if picked {
      ScanStop(p, r, k, timing, accounts, short0, first0 != -1, ifd.t.timing[cl], ifd.t.bytesAlloc[cl]);
    } else {
      ScanStep(p, r, k, timing, accounts, short0, first0 != -1, ifd.t.timing[cl], short, first != -1);
    }
  }

  /** Where a pass ended: at the class at position k, or past the last one.  If a class that may send was
      found short of allotment, it is at `lacking`. */
  ghost predicate Ended(p: Pass, r: seq<nat>, k: nat, chosen: int, short: bool, lacking: nat) {
    && (if chosen == -1 then k == |r| else k < |r| && chosen == r[k] && Choice(p, chosen))
    && (short ==> lacking < k && lacking < |r| && Eligible(p, r[lacking]))
  }

  /** Following peer_ from place k goes to the next place, or to the active class at the end. */
  lemma NextInRing(r: seq<nat>, peer: seq<nat>, active: int, k: nat)
    requires Cycle(r, peer, active) && k < |r|
    ensures r[k] < |peer| && (peer[r[k]] == active <==> k + 1 == |r|)
    ensures k + 1 < |r| ==> peer[r[k]] == r[k + 1]
  {
    assert peer[r[k]] == r[Succ(k, |r|)];
  }

  /** One pass of the do-while loop over the ring of priority i. */
  method WrrScan(ifd: RmIfdat, i: nat, second: bool, first0: int, now: Time, ghost p: Pass, ghost m0: Mark)
    returns (chosen: int, short: bool, first: int, ghost k: nat, ghost lacking: nat)
    requires About(p, ifd, now) && Sees(p.v, ifd.t.timing, now) && ifd.Accounts() && Since(ifd, p.v, m0)
    requires ifd.s.qi < |ifd.s.borrowed| && ifd.s.borrowed[ifd.s.qi] == -1 && p.was == ifd.t.bytesAlloc
    requires p.second == second
    requires i < |ifd.g.rings| == |ifd.p.active| && ifd.g.rings[i] != []
    requires Members(ifd.g.rings[i], i, ifd.c.conf, ifd.c.live) && Cycle(ifd.g.rings[i], ifd.c.peer, ifd.p.active[i])
    modifies ifd`s, ifd`t, ifd`l
    ensures Sees(p.v, ifd.t.timing, now) && ifd.Accounts() && Since(ifd, p.v, m0)
    ensures Elsewhere(ifd.c.conf, i, p.was, ifd.t.bytesAlloc)
    ensures Ended(p, ifd.g.rings[i], k, chosen, short, lacking)
    ensures Scanned(p, ifd.g.rings[i], k, ifd.t.timing, ifd.t.bytesAlloc, short, first != -1, chosen)
    ensures chosen != -1 ==> ifd.t.bytesAlloc[chosen] == Refilled(p, chosen)
    ensures ifd.s == old(ifd.s).(borrowed := Lent(old(ifd.s.borrowed), ifd.s.qi, LentBy(p.v, chosen)))
    ensures first == first0 || (first0 == -1 && Candidate(p.v, p.q, ifd.c.live, first))
  {
    ghost var r := ifd.g.rings[i];
    var peer, active := ifd.c.peer, ifd.p.active[i];
    var cl: nat := active;
    chosen, short, first := -1, false, first0;
    k, lacking := 0, 0;
    var more := true;
    while more
      invariant Scanning(ifd, i, now, p, m0)
      invariant k <= |r| && (more ==> k < |r| && cl == r[k] && chosen == -1)
      invariant !more && chosen == -1 ==> k == |r|
      invariant chosen != -1 ==> k < |r| && chosen == r[k] && Choice(p, chosen)
      invariant short ==> lacking < k && Eligible(p, r[lacking])
      invariant Scanned(p, r, k, ifd.t.timing, ifd.t.bytesAlloc, short, first != -1, chosen)
      invariant chosen != -1 ==> ifd.t.bytesAlloc[chosen] == Refilled(p, chosen)
      invariant ifd.s == old(ifd.s).(borrowed := Lent(old(ifd.s.borrowed), ifd.s.qi, LentBy(p.v, chosen)))
      invariant first == first0 || (first0 == -1 && Candidate(p.v, p.q, ifd.c.live, first))
      decreases more, |r| - k
    {
      var picked;
      picked, short, first, lacking := ScanOne(ifd, cl, second, short, first, now, p, r, k, lacking, m0);
      if picked {
        chosen, more := cl, false;
      } else {
        NextInRing(r, peer, active, k);
        k, cl := k + 1, peer[cl];
        more := cl != active;
      }
    }
    assert Looking(0);
  }
}
