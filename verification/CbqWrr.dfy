/**
  The weighted round-robin search: both passes at one priority, all priorities, and all cutoffs.
 */
module CbqWrr {
  import opened Wrappers
  import opened CbqState
  import opened CbqDequeue

  // ---------------------------------------------------------------- one priority

  /** The class weighted round-robin picks: the first of the ring that may send and has allotment left, and if
      no class of the ring has, the first that may send. */
  ghost predicate Picked(p: Pass, r: seq<nat>, k: nat) {
    && k < |r| && Eligible(p, r[k])
    && (|| (Choice(p, r[k]) && forall j :: 0 <= j < k ==> !Choice(p, r[j]))
        || (forall j :: 0 <= j < |r| ==> !Choice(p, r[j]) && (j < k ==> !Eligible(p, r[j]))))
  }

  /** The account a picked class sends from: topped up if that helped, otherwise cleared. */
  ghost function TurnAccount(p: Pass, c: nat): int {
    if Choice(p, c) then Refilled(p, c) else 0
  }

  /** A backlogged class may not send, and that is because it is asleep or the cutoff is in effect. */
  ghost predicate Refused(v: View, cutoff: nat, c: nat, backlogged: bool, asleep: bool, noted: bool) {
    backlogged && c < |v.conf| ==>
      !CanSend(v, cutoff, c) && Stopped(v, cutoff, c, asleep) && (v.conf[c].borrow != -1 ==> noted)
  }

  ghost predicate RingRefused(v: View, cutoff: nat, r: seq<nat>, q: seq<seq<Packet>>, timing: seq<Timing>,
                              noted: bool) {
    && Within(r, |q|) && |q| == |timing|
    && forall j :: 0 <= j < |r| ==> Refused(v, cutoff, r[j], q[r[j]] != [], timing[r[j]].sleeping, noted)
  }

  ghost predicate Cleared(r: seq<nat>, accounts: seq<int>) {
    Within(r, |accounts|) && forall j :: 0 <= j < |r| ==> accounts[r[j]] == 0
  }

  /** The second pass chooses the first class that may send. */
  lemma SecondPass(p: Pass, p': Pass, r: seq<nat>, k: nat, k': nat, chosen: int, timing: seq<Timing>,
                   accounts: seq<int>, timing': seq<Timing>, accounts': seq<int>, short': bool,
                   noted: bool, noted': bool, lacking: nat, lacking': nat)
    requires NoDup(r) && !p.second && p'.second && p'.was == accounts
    requires p'.v == p.v && p'.cutoff == p.cutoff && p'.q == p.q && p'.allotment == p.allotment
    requires Ended(p, r, k, -1, true, lacking) && Scanned(p, r, k, timing, accounts, true, noted, -1)
    requires Ended(p', r, k', chosen, short', lacking')
    requires Scanned(p', r, k', timing', accounts', short', noted', chosen)
    ensures chosen != -1 && Picked(p, r, k') && TurnAccount(p, r[k']) == Refilled(p', chosen)
  {
    assert chosen != -1 || Skipped(p', r[lacking], timing'[r[lacking]].sleeping, short', noted');
    forall j | 0 <= j < |r| ensures !Choice(p, r[j]) {
      assert Skipped(p, r[j], timing[r[j]].sleeping, true, noted);
    }
    forall j | 0 <= j < k' ensures !Eligible(p, r[j]) {
      assert Skipped(p', r[j], timing'[r[j]].sleeping, short', noted');
    }
  }

  /** What a search that found its class in the first pass, or no class at all, has shown. */
  lemma FirstPass(p: Pass, r: seq<nat>, k: nat, chosen: int, timing: seq<Timing>, accounts: seq<int>, short: bool,
                  noted: bool, lacking: nat)
    requires !p.second && Ended(p, r, k, chosen, short, lacking)
    requires Scanned(p, r, k, timing, accounts, short, noted, chosen)
    ensures chosen != -1 ==> Picked(p, r, k) && TurnAccount(p, chosen) == Refilled(p, chosen)
    ensures chosen == -1 && !short ==> RingRefused(p.v, p.cutoff, r, p.q, timing, noted) && Cleared(r, accounts)
  {
    forall j | 0 <= j < k ensures !Choice(p, r[j]) {
      assert Skipped(p, r[j], timing[r[j]].sleeping, short, noted);
    }
    if chosen == -1 && !short {
      forall j | 0 <= j < |r| ensures Refused(p.v, p.cutoff, r[j], p.q[r[j]] != [], timing[r[j]].sleeping, noted) {
        assert Skipped(p, r[j], timing[r[j]].sleeping, short, noted);
      }
    }
  }

  /** Up to two passes over one priority.  The second pass never comes away empty. */
  method WrrPriority(ifd: RmIfdat, i: nat, first0: int, now: Time, ghost p: Pass, ghost m0: Mark)
    returns (chosen: int, first: int, ghost k: nat)
    requires About(p, ifd, now) && Sees(p.v, ifd.t.timing, now) && ifd.Accounts() && Since(ifd, p.v, m0)
    requires ifd.s.qi < |ifd.s.borrowed| && ifd.s.borrowed[ifd.s.qi] == -1 && p.was == ifd.t.bytesAlloc && !p.second
    requires i < |ifd.g.rings| == |ifd.p.active| && ifd.g.rings[i] != []
    requires Members(ifd.g.rings[i], i, ifd.c.conf, ifd.c.live) && Cycle(ifd.g.rings[i], ifd.c.peer, ifd.p.active[i])
    modifies ifd`s, ifd`t, ifd`l
    ensures Sees(p.v, ifd.t.timing, now) && ifd.Accounts() && Since(ifd, p.v, m0)
    ensures Elsewhere(ifd.c.conf, i, p.was, ifd.t.bytesAlloc)
    ensures chosen != -1 ==> Picked(p, ifd.g.rings[i], k) && chosen == ifd.g.rings[i][k]
    ensures chosen != -1 ==> ifd.t.bytesAlloc[chosen] == TurnAccount(p, chosen)
    ensures chosen == -1 ==> RingRefused(p.v, p.cutoff, ifd.g.rings[i], p.q, ifd.t.timing, first != -1)
    ensures chosen == -1 ==> Cleared(ifd.g.rings[i], ifd.t.bytesAlloc)
    ensures ifd.s == old(ifd.s).(borrowed := Lent(old(ifd.s.borrowed), ifd.s.qi, LentBy(p.v, chosen)))
    ensures first == first0 || (first0 == -1 && Candidate(p.v, p.q, ifd.c.live, first))
  {
    ghost var r := ifd.g.rings[i];
    var short: bool;
    ghost var lacking: nat;
    chosen, short, first, k, lacking := WrrScan(ifd, i, false, first0, now, p, m0);
    FirstPass(p, r, k, chosen, ifd.t.timing, ifd.t.bytesAlloc, short, first != -1, lacking);
    if chosen == -1 && short {
      ghost var timing, accounts, noted := ifd.t.timing, ifd.t.bytesAlloc, first != -1;
      ghost var p': Pass := p.(second := true, was := accounts);
      ghost var k', lacking';
      chosen, short, first, k', lacking' := WrrScan(ifd, i, true, first, now, p', m0);
      SecondPass(p, p', r, k, k', chosen, timing, accounts, ifd.t.timing, ifd.t.bytesAlloc, short, noted, first != -1,
                 lacking, lacking');
      k := k';
    }
  }

  // ---------------------------------------------------------------- all priorities

  ghost predicate AllRefused(v: View, cutoff: nat, lo: nat, live: seq<bool>, q: seq<seq<Packet>>, timing: seq<Timing>,
                             noted: bool)
  {
    && |live| == |q| == |timing| == |v.conf|
    && forall c :: 0 <= c < |live| && live[c] && lo <= v.conf[c].pri ==>
         Refused(v, cutoff, c, q[c] != [], timing[c].sleeping, noted)
  }

  lemma AsleepTrans(v: View, t0: seq<Timing>, t1: seq<Timing>, t2: seq<Timing>)
    requires StillAsleep(v, t0, t1) && StillAsleep(v, t1, t2)
    ensures StillAsleep(v, t0, t2)
  {
  }

  lemma SinceTrans(ifd: RmIfdat, v: View, m0: Mark, m1: Mark)
    requires StillAsleep(v, m0.timing, m1.timing) && Since(ifd, v, m1)
    requires Turning(m0.accounts, m0.ledger, m1.accounts, m1.ledger, ifd.c.wAllotment)
    ensures Since(ifd, v, m0)
  {
    AsleepTrans(v, m0.timing, m1.timing, ifd.t.timing);
    TurningTrans(m0.accounts, m0.ledger, m1.accounts, m1.ledger, ifd.t.bytesAlloc, ifd.l, ifd.c.wAllotment);
  }

  /** A class that was refused still is, as long as it sleeps on. */
  lemma RefusalsLast(v: View, cutoff: nat, lo: nat, live: seq<bool>, q: seq<seq<Packet>>, t0: seq<Timing>,
                     t1: seq<Timing>, noted0: bool, noted1: bool)
    requires StillAsleep(v, t0, t1) && (noted0 ==> noted1)
    requires AllRefused(v, cutoff, lo, live, q, t0, noted0)
    ensures AllRefused(v, cutoff, lo, live, q, t1, noted1)
  {
    forall c | 0 <= c < |live| && live[c] && lo <= v.conf[c].pri
      ensures Refused(v, cutoff, c, q[c] != [], t1[c].sleeping, noted1)
    {
      assert Refused(v, cutoff, c, q[c] != [], t0[c].sleeping, noted0);
    }
  }

  /** One more priority is refused. */
  lemma RefuseLevel(v: View, cutoff: nat, i: nat, live: seq<bool>, q: seq<seq<Packet>>, timing: seq<Timing>,
                    noted: bool, r: seq<nat>)
    requires AllRefused(v, cutoff, i + 1, live, q, timing, noted) && RingRefused(v, cutoff, r, q, timing, noted)
    requires forall c :: 0 <= c < |live| && live[c] && v.conf[c].pri == i && q[c] != [] ==> c in r
    ensures AllRefused(v, cutoff, i, live, q, timing, noted)
  {
    forall c | 0 <= c < |live| && live[c] && i <= v.conf[c].pri
      ensures Refused(v, cutoff, c, q[c] != [], timing[c].sleeping, noted)
    {
      if v.conf[c].pri == i && q[c] != [] {
        assert c in r;
      }
    }
  }

  /** A priority whose backlog count is zero has nobody to send; one with a backlog has a ring. */
  lemma BacklogShows(ifd: RmIfdat, i: nat)
    requires ifd.Backlogs() && ifd.Rings() && i < ifd.maxPrio
    ensures ifd.b.na[i] == 0 <==>
      forall c :: 0 <= c < |ifd.b.q| && ifd.c.live[c] && ifd.c.conf[c].pri == i ==> ifd.b.q[c] == []
    ensures ifd.b.na[i] != 0 ==> ifd.g.rings[i] != []
  {
    var b := Backlogged(ifd.c.conf, ifd.c.live, ifd.b.q, i);
    assert RingOk(ifd.g.rings[i], i, ifd.c.conf, ifd.c.live, ifd.c.peer, ifd.p.active[i]);
    if ifd.b.na[i] == 0 {
      assert b == {};
      forall c | 0 <= c < |ifd.b.q| && ifd.c.live[c] && ifd.c.conf[c].pri == i ensures ifd.b.q[c] == [] {
        assert c !in b;
      }
    } else {
      assert b != {};
      var c :| c in b;
      assert c in ifd.g.rings[i];
    }
  }

  /** Only the accounts of the ring matter for the choice. */
  lemma SamePick(p: Pass, p': Pass, r: seq<nat>, k: nat)
    requires p'.v == p.v && p'.cutoff == p.cutoff && p'.q == p.q && p'.allotment == p.allotment && p'.second == p.second
    requires Within(r, |p.q|) && forall j :: 0 <= j < |r| ==> p'.was[r[j]] == p.was[r[j]]
    requires Picked(p, r, k)
    ensures Picked(p', r, k) && TurnAccount(p', r[k]) == TurnAccount(p, r[k])
  {
    assert forall j :: 0 <= j < |r| ==> Choice(p', r[j]) == Choice(p, r[j]) && Eligible(p', r[j]) == Eligible(p, r[j]);
  }

  /** The class a search returns: picked from its ring, with nobody of higher priority able to send. */
  ghost predicate Found(ifd: RmIfdat, p: Pass, chosen: int, k: nat, noted: bool)
    reads ifd`c, ifd`g, ifd`t
  {
    && 0 <= chosen < |p.q| == |ifd.t.bytesAlloc|
    && var i := p.v.conf[chosen].pri;
    && i < |ifd.g.rings| && Picked(p, ifd.g.rings[i], k) && chosen == ifd.g.rings[i][k]
    && ifd.t.bytesAlloc[chosen] == TurnAccount(p, chosen)
    && AllRefused(p.v, p.cutoff, i + 1, ifd.c.live, p.q, ifd.t.timing, noted)
  }

  /** The accounts of all classes at priorities with a backlog, from lo on, are used up. */
  ghost predicate Spent(conf: seq<Conf>, live: seq<bool>, na: seq<int>, accounts: seq<int>, lo: nat) {
    && |live| == |conf| == |accounts|
    && forall c :: 0 <= c < |conf| && live[c] && lo <= conf[c].pri < |na| && na[conf[c].pri] != 0 ==> accounts[c] == 0
  }

  /** Where a round stands that has refused everyone from priority lo on; `p` is how it began. */
  ghost predicate Down(ifd: RmIfdat, p: Pass, lo: nat, noted: bool)
    reads ifd`c, ifd`b, ifd`t
  {
    && |ifd.c.conf| == |p.was|
    && Spent(ifd.c.conf, ifd.c.live, ifd.b.na, ifd.t.bytesAlloc, lo)
    && AllRefused(p.v, p.cutoff, lo, ifd.c.live, p.q, ifd.t.timing, noted)
    && forall c :: 0 <= c < |ifd.c.conf| && ifd.c.conf[c].pri < lo ==> ifd.t.bytesAlloc[c] == p.was[c]
  }

  lemma LevelRefused(ifd: RmIfdat, p: Pass, i: nat, noted: bool, was: seq<int>, timing: seq<Timing>, noted0: bool)
    requires i < ifd.maxPrio == |ifd.b.na| && ifd.Rings() && ifd.c.conf == p.v.conf
    requires Elsewhere(ifd.c.conf, i, was, ifd.t.bytesAlloc) && StillAsleep(p.v, timing, ifd.t.timing)
    requires AllRefused(p.v, p.cutoff, i + 1, ifd.c.live, p.q, timing, noted0) && (noted0 ==> noted)
    requires forall c :: 0 <= c < |ifd.c.conf| && ifd.c.conf[c].pri <= i ==> was[c] == p.was[c]
    requires Spent(ifd.c.conf, ifd.c.live, ifd.b.na, was, i + 1) && Cleared(ifd.g.rings[i], ifd.t.bytesAlloc)
    requires RingRefused(p.v, p.cutoff, ifd.g.rings[i], p.q, ifd.t.timing, noted)
    ensures Down(ifd, p, i, noted)
  {
    var r := ifd.g.rings[i];
    assert RingOk(r, i, ifd.c.conf, ifd.c.live, ifd.c.peer, ifd.p.active[i]);
    RefusalsLast(p.v, p.cutoff, i + 1, ifd.c.live, p.q, timing, ifd.t.timing, noted0, noted);
    RefuseLevel(p.v, p.cutoff, i, ifd.c.live, p.q, ifd.t.timing, noted, r);
    forall c | 0 <= c < |ifd.c.conf| && ifd.c.live[c] && i <= ifd.c.conf[c].pri < |ifd.b.na|
        && ifd.b.na[ifd.c.conf[c].pri] != 0
      ensures ifd.t.bytesAlloc[c] == 0
    {
      if ifd.c.conf[c].pri == i {
        assert c in r;
      }
    }
  }

  /** A round passes a priority without a backlog. */
  lemma LevelIdle(ifd: RmIfdat, p: Pass, i: nat, noted: bool)
    requires i < ifd.maxPrio && ifd.Rings() && ifd.Backlogs() && ifd.c.conf == p.v.conf && ifd.b.q == p.q
    requires Down(ifd, p, i + 1, noted) && ifd.b.na[i] == 0
    ensures Down(ifd, p, i, noted)
  {
    BacklogShows(ifd, i);
    RefuseLevel(p.v, p.cutoff, i, ifd.c.live, p.q, ifd.t.timing, noted, []);
  }

  /** A round comes to the next priority. */
  method WrrLevel(ifd: RmIfdat, i: nat, first0: int, now: Time, ghost p: Pass, ghost m0: Mark)
    returns (chosen: int, first: int, ghost k: nat)
    requires About(p, ifd, now) && Sees(p.v, ifd.t.timing, now) && ifd.Accounts() && Since(ifd, p.v, m0)
    requires ifd.s.qi < |ifd.s.borrowed| && ifd.s.borrowed[ifd.s.qi] == -1 && !p.second
    requires |ifd.c.conf| == |ifd.t.bytesAlloc|
    requires i < ifd.maxPrio && ifd.Rings() && ifd.Backlogs() && Down(ifd, p, i + 1, first0 != -1)
    modifies ifd`s, ifd`t, ifd`l
    ensures Sees(p.v, ifd.t.timing, now) && ifd.Accounts() && Since(ifd, p.v, m0)
    ensures |ifd.c.conf| == |ifd.t.bytesAlloc|
    ensures if chosen != -1 then Found(ifd, p, chosen, k, first != -1) else Down(ifd, p, i, first != -1)
    ensures ifd.s == old(ifd.s).(borrowed := Lent(old(ifd.s.borrowed), ifd.s.qi, LentBy(p.v, chosen)))
    ensures first == first0 || (first0 == -1 && Candidate(p.v, p.q, ifd.c.live, first))
  {
    if ifd.b.na[i] == 0 {
      LevelIdle(ifd, p, i, first0 != -1);
      return -1, first0, 0;
    }
    BacklogShows(ifd, i);
    assert RingOk(ifd.g.rings[i], i, ifd.c.conf, ifd.c.live, ifd.c.peer, ifd.p.active[i]);
    ghost var timing, was := ifd.t.timing, ifd.t.bytesAlloc;
    ghost var m1 := Mark(timing, was, ifd.l);
    ghost var p0: Pass := p.(was := was);
    chosen, first, k := WrrPriority(ifd, i, first0, now, p0, m1);
    SinceTrans(ifd, p.v, m0, m1);
    if chosen != -1 {
      SamePick(p0, p, ifd.g.rings[i], k);
      RefusalsLast(p.v, p.cutoff, i + 1, ifd.c.live, p.q, timing, ifd.t.timing, first0 != -1, first != -1);
    } else {
      LevelRefused(ifd, p, i, first != -1, was, timing, first0 != -1);
    }
  }

  /** One round over all priorities, highest first, leaving out those with no backlog. */
  method WrrRound(ifd: RmIfdat, first0: int, now: Time, ghost p: Pass, ghost m0: Mark)
    returns (chosen: int, first: int, ghost k: nat)
    requires About(p, ifd, now) && Sees(p.v, ifd.t.timing, now) && ifd.Accounts() && Since(ifd, p.v, m0)
    requires ifd.s.qi < |ifd.s.borrowed| && ifd.s.borrowed[ifd.s.qi] == -1 && !p.second && p.was == ifd.t.bytesAlloc
    requires ifd.Rings() && ifd.Backlogs()
    modifies ifd`s, ifd`t, ifd`l
    ensures Sees(p.v, ifd.t.timing, now) && ifd.Accounts() && Since(ifd, p.v, m0)
    ensures |ifd.c.conf| == |ifd.t.bytesAlloc|
    ensures if chosen != -1 then Found(ifd, p, chosen, k, first != -1) else Down(ifd, p, 0, first != -1)
    ensures ifd.s == old(ifd.s).(borrowed := Lent(old(ifd.s.borrowed), ifd.s.qi, LentBy(p.v, chosen)))
    ensures first == first0 || (first0 == -1 && Candidate(p.v, p.q, ifd.c.live, first))
  {
    chosen, first, k := -1, first0, 0;
    var i := ifd.maxPrio;
    while i > 0 && chosen == -1
      invariant 0 <= i <= ifd.maxPrio && |ifd.c.conf| == |ifd.t.bytesAlloc|
      invariant Sees(p.v, ifd.t.timing, now) && ifd.Accounts() && Since(ifd, p.v, m0)
      invariant if chosen != -1 then Found(ifd, p, chosen, k, first != -1) else Down(ifd, p, i, first != -1)
      invariant ifd.s == old(ifd.s).(borrowed := Lent(old(ifd.s.borrowed), ifd.s.qi, LentBy(p.v, chosen)))
      invariant first == first0 || (first0 == -1 && Candidate(p.v, p.q, ifd.c.live, first))
    {
      i := i - 1;
      chosen, first, k := WrrLevel(ifd, i, first, now, p, m0);
    }
  }

  // ---------------------------------------------------------------- all cutoffs

  /** No backlogged class may send at this cutoff. */
  ghost predicate NobodySends(v: View, cutoff: nat, live: seq<bool>, q: seq<seq<Packet>>) {
    forall c :: 0 <= c < |live| && c < |q| && live[c] && q[c] != [] ==> !CanSend(v, cutoff, c)
  }

  /** The cutoff was raised from lo to hi one step at a time, each time because nobody could send. */
  ghost predicate Raised(v: View, lo: nat, hi: nat, live: seq<bool>, q: seq<seq<Packet>>) {
    lo <= hi && forall k: nat :: lo <= k < hi ==> NobodySends(v, k, live, q)
  }

  lemma RaiseOnce(v: View, lo: nat, hi: nat, live: seq<bool>, q: seq<seq<Packet>>, timing: seq<Timing>, noted: bool)
    requires AllRefused(v, hi, 0, live, q, timing, noted) && Raised(v, lo, hi, live, q)
    ensures Raised(v, lo, hi + 1, live, q)
  {
    forall c | 0 <= c < |live| && live[c] && q[c] != [] ensures !CanSend(v, hi, c) {
      assert Refused(v, hi, c, q[c] != [], timing[c].sleeping, noted);
    }
    assert NobodySends(v, hi, live, q);
  }

  /** The accounts a round begins with: untouched in the first round, used up in later ones. */
  ghost predicate Began(ifd: RmIfdat, accounts: seq<int>, cutoff: nat, cutoff0: nat, accounts0: seq<int>)
    reads ifd`c, ifd`b
  {
    if cutoff == cutoff0 then accounts == accounts0 else Spent(ifd.c.conf, ifd.c.live, ifd.b.na, accounts, 0)
  }

  /** A search is over: it has found a class, or it has refused everyone and no higher cutoff was left to try. */
  ghost predicate Tried(ifd: RmIfdat, p: Pass, chosen: int, first: int, k: nat)
    reads ifd`c, ifd`b, ifd`g, ifd`t, ifd`cutoff
  {
    && p.cutoff == ifd.cutoff
    && if chosen != -1 then Found(ifd, p, chosen, k, first != -1)
       else Down(ifd, p, 0, first != -1) && (first != -1 ==> ifd.c.depth != [] && ifd.cutoff >= ifd.c.depth[0])
  }

  /** The body of the retry loop: one round, and if nobody may send but some candidate could borrow further up,
      the cutoff is raised for another.  The search began at m0 with cutoff0. */
  method WrrTry(ifd: RmIfdat, first0: int, now: Time, ghost v: View,
                ghost m0: Mark, ghost cutoff0: nat)
    returns (chosen: int, first: int, more: bool, ghost k: nat, ghost p: Pass)
    requires Static(ifd, v, now)
    requires |ifd.c.live| == |ifd.b.q| == |ifd.c.wAllotment| == |ifd.t.bytesAlloc| == |ifd.c.conf| > 0
    requires Sees(v, ifd.t.timing, now) && ifd.Accounts() && Since(ifd, v, m0)
    requires ifd.Rings() && ifd.Backlogs() && ifd.s.qi < |ifd.s.borrowed| && ifd.s.borrowed[ifd.s.qi] == -1
    requires Raised(v, cutoff0, ifd.cutoff, ifd.c.live, ifd.b.q)
    requires Began(ifd, ifd.t.bytesAlloc, ifd.cutoff, cutoff0, m0.accounts)
    modifies ifd`s, ifd`t, ifd`l, ifd`cutoff
    ensures Sees(v, ifd.t.timing, now) && ifd.Accounts() && Since(ifd, v, m0)
    ensures |ifd.c.conf| == |ifd.t.bytesAlloc| && Raised(v, cutoff0, ifd.cutoff, ifd.c.live, ifd.b.q)
    ensures more ==> ifd.cutoff == old(ifd.cutoff) + 1 <= ifd.c.depth[0]
    ensures more ==> Began(ifd, ifd.t.bytesAlloc, ifd.cutoff, cutoff0, m0.accounts) && chosen == -1
    ensures !more ==> ifd.cutoff == old(ifd.cutoff) && Began(ifd, p.was, ifd.cutoff, cutoff0, m0.accounts)
    ensures p == Circuit(v, p.cutoff, ifd.b.q, ifd.c.wAllotment, p.was, false)
    ensures !more ==> Tried(ifd, p, chosen, first, k)
    ensures ifd.s == old(ifd.s).(borrowed := Lent(old(ifd.s.borrowed), ifd.s.qi, LentBy(v, chosen)))
    ensures first == first0 || (first0 == -1 && Candidate(v, ifd.b.q, ifd.c.live, first))
  {
    p := Circuit(v, ifd.cutoff, ifd.b.q, ifd.c.wAllotment, ifd.t.bytesAlloc, false);
    chosen, first, k := WrrRound(ifd, first0, now, p, m0);
    more := false;
    if chosen == -1 && first != -1 && ifd.cutoff < ifd.c.depth[0] {
      RaiseOnce(v, cutoff0, ifd.cutoff, ifd.c.live, ifd.b.q, ifd.t.timing, first != -1);
      ifd.cutoff := ifd.cutoff + 1;
      more := true;
    }
  }

  /** The search with its retries.  The cutoff is raised at most to the depth of the root. */
  method WrrFind(ifd: RmIfdat, now: Time, ghost v: View) returns (chosen: int, first: int, ghost k: nat, ghost p: Pass)
    requires Static(ifd, v, now)
    requires |ifd.c.live| == |ifd.b.q| == |ifd.c.wAllotment| == |ifd.t.bytesAlloc| == |ifd.c.conf| > 0
    requires Sees(v, ifd.t.timing, now) && ifd.Accounts()
    requires ifd.Rings() && ifd.Backlogs() && ifd.s.qi < |ifd.s.borrowed| && ifd.s.borrowed[ifd.s.qi] == -1
    modifies ifd`s, ifd`t, ifd`l, ifd`cutoff
    ensures Sees(v, ifd.t.timing, now) && ifd.Accounts()
    ensures Since(ifd, v, Mark(old(ifd.t.timing), old(ifd.t.bytesAlloc), old(ifd.l)))
    ensures |ifd.c.conf| == |ifd.t.bytesAlloc| && Raised(v, old(ifd.cutoff), ifd.cutoff, ifd.c.live, ifd.b.q)
    ensures ifd.cutoff == old(ifd.cutoff) || ifd.cutoff <= ifd.c.depth[0]
    ensures p == Circuit(v, p.cutoff, ifd.b.q, ifd.c.wAllotment, p.was, false)
    ensures Began(ifd, p.was, ifd.cutoff, old(ifd.cutoff), old(ifd.t.bytesAlloc))
    ensures Tried(ifd, p, chosen, first, k)
    ensures ifd.s == old(ifd.s).(borrowed := Lent(old(ifd.s.borrowed), ifd.s.qi, LentBy(v, chosen)))
    ensures first == -1 || Candidate(v, ifd.b.q, ifd.c.live, first)
  {
    ghost var m0, b0, cutoff0 := Mark(ifd.t.timing, ifd.t.bytesAlloc, ifd.l), ifd.t.bytesAlloc, ifd.cutoff;
    var more := true;
    chosen, first, k, p := -1, -1, 0, Circuit(v, ifd.cutoff, ifd.b.q, ifd.c.wAllotment, b0, false);
    while more
      invariant Sees(v, ifd.t.timing, now) && ifd.Accounts() && Since(ifd, v, m0)
      invariant |ifd.c.conf| == |ifd.t.bytesAlloc| && Raised(v, cutoff0, ifd.cutoff, ifd.c.live, ifd.b.q)
      invariant ifd.cutoff == cutoff0 || ifd.cutoff <= ifd.c.depth[0]
      invariant Began(ifd, if more then ifd.t.bytesAlloc else p.was, ifd.cutoff, cutoff0, m0.accounts)
      invariant if more then chosen == -1 else Tried(ifd, p, chosen, first, k)
      invariant ifd.s == old(ifd.s).(borrowed := Lent(old(ifd.s.borrowed), ifd.s.qi, LentBy(v, chosen)))
      invariant p == Circuit(v, p.cutoff, ifd.b.q, ifd.c.wAllotment, p.was, false)
      invariant first == -1 || Candidate(v, ifd.b.q, ifd.c.live, first)
      decreases ifd.c.depth[0] - ifd.cutoff, more
    {
      chosen, first, more, k, p := WrrTry(ifd, first, now, v, m0, cutoff0);
    }
  }
}
