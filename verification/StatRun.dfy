/**
  Runs of the statistics server: packets, connections and calls of serve_conn in any order.  A client that asks for the
  counters has shown the right digest before, and is told the exact counters of the moment it asked.
 */
module StatRun {
  import opened Wrappers
  import opened StatDump
  import opened StatServer
  import K = KeepStat
  import X = StatText

  // ---------------------------------------------------------------- what a step does to one connection

  predicate Dumps(x: Shot, h: nat) { h < |x.client| && x.statsock >= 0 && x.client[h].fd == x.statsock }

  predicate Reads(a: Act, h: nat, cmd: Cmd) { a.Move? && a.i == h && a.io == Read(Command(cmd)) }

  /** What is done for another connection, or for a packet, does not change this one, unless it is a new one. */
  lemma ForAnother(f: Format, bufsize: nat, x: Shot, a: Act, y: Shot, h: nat)
    requires Sane(x, bufsize) && Acted(f, bufsize, x, a, y) && h < MAX && !((a.Ready? || a.Move?) && a.i == h)
    ensures |y.client| == MAX && (Dumps(x, h) <==> Dumps(y, h)) && (Dumps(x, h) ==> y.prn == x.prn)
    ensures y.client[h] == x.client[h] || (x.client[h].fd == -1 && y.client[h].fd >= 0 && y.client[h].state == Start)
  {
    assert ConnOk(x.client[h], x.statsock, x.prn, bufsize);
  }

  /** Only STAT makes a connection dump, and then it is to dump what has been live. */
  lemma StepBegins(f: Format, bufsize: nat, x: Shot, a: Act, y: Shot, h: nat)
    requires Sane(x, bufsize) && Acted(f, bufsize, x, a, y) && h < MAX && !Dumps(x, h) && Dumps(y, h)
    ensures Reads(a, h, Stat) && x.client[h].state == Authorized && x.client[h].fd >= 0 && y.prn == x.live
    ensures y.client[h] == Obeyed(x.client[h], Stat, false, a.stamp, bufsize)
    ensures y.client[h].bn == y.client[h].bi == 0
    ensures |a.stamp| < bufsize ==> y.client[h].Said() == x.client[h].Said() + a.stamp
  {
    if (a.Ready? || a.Move?) && a.i == h {
      assert ConnOk(x.client[h], x.statsock, x.prn, bufsize);
    } else {
      ForAnother(f, bufsize, x, a, y, h);
    }
  }

  /** While a connection dumps, what it was promised stays the same, and so does the table. */
  lemma StepGoes(f: Format, bufsize: nat, x: Shot, a: Act, y: Shot, h: nat)
    requires Sane(x, bufsize) && Acted(f, bufsize, x, a, y) && Dumps(x, h) && Dumps(y, h)
    ensures y.prn == x.prn && Promise(f, y.client[h], y.prn) == Promise(f, x.client[h], x.prn)
  {
    var c := x.client[h];
    assert ConnOk(c, x.statsock, x.prn, bufsize);
    if a.Move? && a.i == h && a.io.Took? && c.state == WriteData && Clamp(a.io.n, |c.buf|) >= 0 {
      Drained(c, Clamp(a.io.n, |c.buf|), x.statsock, x.prn, bufsize);
    }
  }

  /** A connection that stops to dump and is not closed has been told all it was promised. */
  lemma StepEnds(f: Format, bufsize: nat, x: Shot, a: Act, y: Shot, h: nat)
    requires Sane(x, bufsize) && Acted(f, bufsize, x, a, y) && Dumps(x, h) && !Dumps(y, h)
    requires h < |y.client| && y.client[h].fd >= 0
    ensures y.client[h].Said() == Promise(f, x.client[h], x.prn) && Leaving(y.client[h])
  {
    assert ConnOk(x.client[h], x.statsock, x.prn, bufsize);
  }

  /** A connection that is to be closed writes what it has to say first, unless writing fails. */
  lemma StepLeaves(f: Format, bufsize: nat, x: Shot, a: Act, y: Shot, h: nat)
    requires Sane(x, bufsize) && Acted(f, bufsize, x, a, y) && h < MAX && x.client[h].fd >= 0 && Leaving(x.client[h])
    ensures y.client[h].Said() == x.client[h].Said() && (y.client[h].fd >= 0 ==> Leaving(y.client[h]))
    ensures y.client[h].fd < 0 ==>
      y.client[h].buf == "" || (a.Move? && a.i == h && a.io.Took? && a.io.n < 0)
  {
    var c := x.client[h];
    if (a.Ready? || a.Move?) && a.i == h {
      assert ConnOk(c, x.statsock, x.prn, bufsize);
      if a.Move? && a.io.Took? && c.state == WriteData && Clamp(a.io.n, |c.buf|) >= 0 {
        Drained(c, Clamp(a.io.n, |c.buf|), x.statsock, x.prn, bufsize);
      }
    } else {
      ForAnother(f, bufsize, x, a, y, h);
    }
  }

  /** Only the right digest, at the right time, makes a connection trusted. */
  lemma StepTrusts(f: Format, bufsize: nat, x: Shot, a: Act, y: Shot, h: nat)
    requires Sane(x, bufsize) && Acted(f, bufsize, x, a, y) && h < MAX && |y.client| == MAX
    requires y.client[h].fd >= 0 && Trusted(y.client[h]) && !(x.client[h].fd >= 0 && Trusted(x.client[h]))
    ensures Reads(a, h, Auth(true)) && x.client[h].state == WaitAuth && x.client[h].fd == y.client[h].fd
  {
    if (a.Ready? || a.Move?) && a.i == h {
      assert ConnOk(x.client[h], x.statsock, x.prn, bufsize);
    } else {
      ForAnother(f, bufsize, x, a, y, h);
    }
  }

  /** An open connection keeps its socket until it is closed. */
  lemma StepKeepsSocket(f: Format, bufsize: nat, x: Shot, a: Act, y: Shot, h: nat)
    requires Sane(x, bufsize) && Acted(f, bufsize, x, a, y) && h < MAX
    requires x.client[h].fd >= 0 && h < |y.client| && y.client[h].fd >= 0
    ensures y.client[h].fd == x.client[h].fd
  {
    if (a.Ready? || a.Move?) && a.i == h {
      assert ConnOk(x.client[h], x.statsock, x.prn, bufsize);
    } else {
      ForAnother(f, bufsize, x, a, y, h);
    }
  }

  // ---------------------------------------------------------------- over a run

  /** Every step of a run. */
  lemma StepOf(f: Format, bufsize: nat, x: Shot, acts: seq<Act>, trace: seq<Shot>, k: nat)
    requires Traced(f, bufsize, x, acts, trace) && Sane(x, bufsize) && k <= |acts|
    ensures Sane(trace[k], bufsize)
    ensures k < |acts| ==> Acted(f, bufsize, trace[k], acts[k], trace[k + 1]) && Sane(trace[k + 1], bufsize)
  {
    assert Looking(0);
    if k > 0 {
      assert Last(f, bufsize, trace[k - 1], acts[k - 1], trace[k - 1 + 1]);
    }
    if k < |acts| {
      assert Last(f, bufsize, trace[k], acts[k], trace[k + 1]);
    }
  }

  /** Between act i and act j connection h begins to dump and ends it, and it is still open then. */
  ghost predicate Spans(trace: seq<Shot>, h: nat, i: nat, j: nat) {
    && h < MAX && i < j && j + 1 < |trace|
    && !Dumps(trace[i], h) && (forall k :: i < k <= j ==> Dumps(trace[k], h)) && !Dumps(trace[j + 1], h)
    && h < |trace[j + 1].client| && trace[j + 1].client[h].fd >= 0
  }

  /** What a connection is to have been told by the end of its dump of table t, after what it has been told already. */
  ghost function Due(f: Format, c: Conn, t: Table): string { c.Said() + Lines(f, Remaining(t, 0, 0)) }

  /** Connection h dumps table t, and what it has been told and the rest of the table make `due`. */
  ghost predicate Owes(f: Format, x: Shot, h: nat, t: Table, due: string) {
    forall u: int {:trigger Looking(u)} :: Looking(u) ==>
      h < |x.client| && x.prn == t && Promise(f, x.client[h], t) == due
  }

  lemma PromiseBegins(f: Format, bufsize: nat, x: Shot, acts: seq<Act>, trace: seq<Shot>, h: nat, i: nat)
    requires Traced(f, bufsize, x, acts, trace) && Sane(x, bufsize) && h < MAX && i < |acts|
    requires !Dumps(trace[i], h) && Dumps(trace[i + 1], h)
    ensures Owes(f, trace[i + 1], h, trace[i].live, Due(f, trace[i + 1].client[h], trace[i].live))
  {
    StepOf(f, bufsize, x, acts, trace, i);
    StepBegins(f, bufsize, trace[i], acts[i], trace[i + 1], h);
  }

  lemma PromiseGoes(f: Format, bufsize: nat, x: Shot, acts: seq<Act>, trace: seq<Shot>, h: nat, k: nat, t: Table,
                    due: string)
    requires Traced(f, bufsize, x, acts, trace) && Sane(x, bufsize) && k < |acts|
    requires Dumps(trace[k], h) && Dumps(trace[k + 1], h) && Owes(f, trace[k], h, t, due)
    ensures Owes(f, trace[k + 1], h, t, due)
  {
    assert Looking(0);
    StepOf(f, bufsize, x, acts, trace, k);
    StepGoes(f, bufsize, trace[k], acts[k], trace[k + 1], h);
  }

  lemma {:induction false} Promised(f: Format, bufsize: nat, x: Shot, acts: seq<Act>, trace: seq<Shot>, h: nat, i: nat,
                                    k: nat, t: Table, due: string)
    requires Traced(f, bufsize, x, acts, trace) && Sane(x, bufsize) && i < k < |trace|
    requires Owes(f, trace[i + 1], h, t, due) && forall m :: i < m <= k ==> Dumps(trace[m], h)
    ensures Owes(f, trace[k], h, t, due)
    decreases k
  {
    if k > i + 1 {
      Promised(f, bufsize, x, acts, trace, h, i, k - 1, t, due);
      PromiseGoes(f, bufsize, x, acts, trace, h, k - 1, t, due);
    }
  }

  /** Connection h has been told exactly the stamp and the lines of the table that was live when it asked. */
  ghost predicate Whole(f: Format, bufsize: nat, acts: seq<Act>, trace: seq<Shot>, h: nat, i: nat, j: nat)
    requires h < MAX && i < j && j + 1 < |trace| && |trace| == |acts| + 1
  {
    && |trace[i].client| == |trace[i + 1].client| == |trace[j + 1].client| == MAX
    && Reads(acts[i], h, Stat)
    && (|acts[i].stamp| < bufsize ==> trace[i + 1].client[h].Said() == trace[i].client[h].Said() + acts[i].stamp)
    && trace[j + 1].client[h].Said() == Due(f, trace[i + 1].client[h], trace[i].live) && Leaving(trace[j + 1].client[h])
  }

  lemma DumpIsWhole(f: Format, bufsize: nat, x: Shot, acts: seq<Act>, trace: seq<Shot>, h: nat, i: nat, j: nat)
    requires Traced(f, bufsize, x, acts, trace) && Sane(x, bufsize) && Spans(trace, h, i, j)
    ensures Whole(f, bufsize, acts, trace, h, i, j)
    ensures trace[i].client[h].fd >= 0 && trace[i].client[h].state == Authorized
  {
    StepOf(f, bufsize, x, acts, trace, i);
    StepBegins(f, bufsize, trace[i], acts[i], trace[i + 1], h);
    DumpIsPaid(f, bufsize, x, acts, trace, h, i, j);
  }

  lemma DumpIsPaid(f: Format, bufsize: nat, x: Shot, acts: seq<Act>, trace: seq<Shot>, h: nat, i: nat, j: nat)
    requires Traced(f, bufsize, x, acts, trace) && Sane(x, bufsize) && Spans(trace, h, i, j)
    ensures |trace[j + 1].client| == MAX && Leaving(trace[j + 1].client[h])
    ensures trace[j + 1].client[h].Said() == Due(f, trace[i + 1].client[h], trace[i].live)
  {
    var due := Due(f, trace[i + 1].client[h], trace[i].live);
    PromiseBegins(f, bufsize, x, acts, trace, h, i);
    Promised(f, bufsize, x, acts, trace, h, i, j, trace[i].live, due);
    StepOf(f, bufsize, x, acts, trace, j);
    StepEnds(f, bufsize, trace[j], acts[j], trace[j + 1], h);
    assert Looking(0);
  }

  /** Connection h has shown the right digest, on the socket it has at j. */
  ghost predicate Vouched(acts: seq<Act>, trace: seq<Shot>, h: nat, j: nat)
    requires j < |trace| == |acts| + 1
  {
    exists a: nat :: a < j && Shown(acts, trace, h, a, j)
  }

  ghost predicate Shown(acts: seq<Act>, trace: seq<Shot>, h: nat, a: nat, j: nat)
    requires a < j < |trace| == |acts| + 1
  {
    && Reads(acts[a], h, Auth(true)) && h < |trace[a].client| && trace[a].client[h].state == WaitAuth
    && forall k :: a <= k <= j ==> h < |trace[k].client| && Same(trace, h, k, j)
  }

  ghost predicate Same(trace: seq<Shot>, h: nat, k: nat, j: nat)
    requires k < |trace| && j < |trace| && h < |trace[k].client|
  {
    h < |trace[j].client| && trace[k].client[h].fd == trace[j].client[h].fd >= 0
  }

  /** Nobody is connected. */
  predicate Unused(x: Shot) { forall i :: 0 <= i < |x.client| ==> x.client[i].fd < 0 }

  lemma {:induction false} TrustIsEarned(f: Format, bufsize: nat, x: Shot, acts: seq<Act>, trace: seq<Shot>, h: nat,
                                         j: nat)
    requires Traced(f, bufsize, x, acts, trace) && Sane(x, bufsize) && Unused(x) && h < MAX && j < |trace|
    requires h < |trace[j].client| && trace[j].client[h].fd >= 0 && Trusted(trace[j].client[h])
    ensures Vouched(acts, trace, h, j)
    decreases j
  {
    if j > 0 {
      StepOf(f, bufsize, x, acts, trace, j - 1);
      var c := trace[j - 1].client[h];
      if c.fd >= 0 && Trusted(c) {
        TrustIsEarned(f, bufsize, x, acts, trace, h, j - 1);
        StepKeepsSocket(f, bufsize, trace[j - 1], acts[j - 1], trace[j], h);
        var a: nat :| a < j - 1 && Shown(acts, trace, h, a, j - 1);
        StillShown(acts, trace, h, a, j);
      } else {
        StepTrusts(f, bufsize, trace[j - 1], acts[j - 1], trace[j], h);
        assert Shown(acts, trace, h, j - 1, j);
      }
    }
  }

  lemma StillShown(acts: seq<Act>, trace: seq<Shot>, h: nat, a: nat, j: nat)
    requires a < j - 1 && j < |trace| == |acts| + 1 && Shown(acts, trace, h, a, j - 1)
    requires h < |trace[j - 1].client| && h < |trace[j].client|
    requires trace[j].client[h].fd == trace[j - 1].client[h].fd >= 0
    ensures Shown(acts, trace, h, a, j)
  {
    forall k | a <= k <= j ensures h < |trace[k].client| && Same(trace, h, k, j) {
      if k < j {
        assert Same(trace, h, k, j - 1);
      }
    }
  }

  /** From j to k connection h is open and to be closed, and then it is. */
  ghost predicate Departs(trace: seq<Shot>, h: nat, j: nat, k: nat) {
    && h < MAX && j <= k && k + 1 < |trace|
    && (forall m :: j <= m <= k ==> h < |trace[m].client| && trace[m].client[h].fd >= 0)
    && Leaving(trace[j].client[h]) && h < |trace[k + 1].client| && trace[k + 1].client[h].fd < 0
  }

  lemma {:induction false} SaysOn(f: Format, bufsize: nat, x: Shot, acts: seq<Act>, trace: seq<Shot>, h: nat, j: nat,
                                  k: nat)
    requires Traced(f, bufsize, x, acts, trace) && Sane(x, bufsize) && h < MAX && j <= k < |trace|
    requires forall m :: j <= m <= k ==> h < |trace[m].client| && trace[m].client[h].fd >= 0
    requires Leaving(trace[j].client[h])
    ensures Leaving(trace[k].client[h]) && trace[k].client[h].Said() == trace[j].client[h].Said()
    decreases k
  {
    if j < k {
      SaysOn(f, bufsize, x, acts, trace, h, j, k - 1);
      StepOf(f, bufsize, x, acts, trace, k - 1);
      StepLeaves(f, bufsize, trace[k - 1], acts[k - 1], trace[k], h);
    }
  }

  ghost predicate Delivered(acts: seq<Act>, trace: seq<Shot>, h: nat, j: nat, k: nat)
    requires |trace| == |acts| + 1 && Departs(trace, h, j, k)
  {
    || trace[k + 1].client[h].taken == trace[j].client[h].Said()
    || (acts[k].Move? && acts[k].i == h && acts[k].io.Took? && acts[k].io.n < 0)
  }

  /** The socket has taken everything when the connection is closed, unless writing to it has failed. */
  lemma AllDelivered(f: Format, bufsize: nat, x: Shot, acts: seq<Act>, trace: seq<Shot>, h: nat, j: nat, k: nat)
    requires Traced(f, bufsize, x, acts, trace) && Sane(x, bufsize) && Departs(trace, h, j, k)
    ensures Delivered(acts, trace, h, j, k)
  {
    SaysOn(f, bufsize, x, acts, trace, h, j, k);
    StepOf(f, bufsize, x, acts, trace, k);
    StepLeaves(f, bufsize, trace[k], acts[k], trace[k + 1], h);
    assert trace[k + 1].client[h].taken + "" == trace[k + 1].client[h].taken;
  }

  // ---------------------------------------------------------------- the main loop

  function AllActs(calls: seq<Call>): seq<Act> {
    if calls == [] then [] else AllActs(calls[..|calls| - 1]) + Acts(calls[|calls| - 1])
  }

  /** Every dump in the run that ends with its connection open is whole and exact, and went to a client that had shown
      the right digest on the same socket. */
  ghost predicate Faithful(f: Format, bufsize: nat, acts: seq<Act>, trace: seq<Shot>)
    requires |trace| == |acts| + 1
  {
    forall h: nat, i: nat, j: nat :: Spans(trace, h, i, j) ==>
      && Whole(f, bufsize, acts, trace, h, i, j) && Vouched(acts, trace, h, i)
      && forall b :: 0 <= b < 256 ==> Tallied(trace[i], b)
  }

  /** The client has got everything when the server closes a connection, unless writing has failed. */
  ghost predicate Complete(acts: seq<Act>, trace: seq<Shot>)
    requires |trace| == |acts| + 1
  {
    forall h: nat, j: nat, k: nat {:trigger Departs(trace, h, j, k)} :: Departs(trace, h, j, k) ==>
      Delivered(acts, trace, h, j, k)
  }

  lemma RunIsComplete(f: Format, bufsize: nat, x: Shot, acts: seq<Act>, trace: seq<Shot>)
    requires Traced(f, bufsize, x, acts, trace) && Sane(x, bufsize)
    ensures Complete(acts, trace)
  {
    forall h: nat, j: nat, k: nat {:trigger Departs(trace, h, j, k)} | Departs(trace, h, j, k)
      ensures Delivered(acts, trace, h, j, k)
    {
      AllDelivered(f, bufsize, x, acts, trace, h, j, k);
    }
  }

  lemma RunIsFaithful(f: Format, bufsize: nat, x: Shot, acts: seq<Act>, trace: seq<Shot>)
    requires Traced(f, bufsize, x, acts, trace) && Sane(x, bufsize) && Unused(x)
    ensures Faithful(f, bufsize, acts, trace)
  {
    forall h: nat, i: nat, j: nat | Spans(trace, h, i, j)
      ensures Whole(f, bufsize, acts, trace, h, i, j) && Vouched(acts, trace, h, i)
      ensures forall b :: 0 <= b < 256 ==> Tallied(trace[i], b)
    {
      DumpIsWhole(f, bufsize, x, acts, trace, h, i, j);
      TrustIsEarned(f, bufsize, x, acts, trace, h, i);
      StepOf(f, bufsize, x, acts, trace, i);
    }
  }

  /**
    Any run of the main loop.  A client that stays connected from STAT to the end of its dump is told the stamp and then
    one line for each entry of the table that was live at STAT, once and in order, whatever packets arrive and whatever
    other clients do meanwhile; the entries are the exact counts of that moment; and it has shown the right digest.
   */
  method Run(format: Format, bufsize: nat, calls: seq<Call>) returns (sv: Server, ghost trace: seq<Shot>)
    requires bufsize > 0 && forall k :: 0 <= k < |calls| ==> Fit(calls[k], bufsize)
    ensures fresh(sv) && sv.Valid()
    ensures |trace| == |AllActs(calls)| + 1 && Unused(trace[0]) && trace[0].es == [] && Sane(trace[0], bufsize)
    ensures Traced(format, bufsize, trace[0], AllActs(calls), trace) && trace[|AllActs(calls)|] == sv.now
    ensures Faithful(format, bufsize, AllActs(calls), trace) && Complete(AllActs(calls), trace)
  {
    sv := new Server(format, bufsize);
    ghost var x := sv.now;
    sv.Seen();
    NotLed(format, bufsize, x);
    for n := 0 to |calls|
      invariant fresh(sv) && fresh(sv.st) && fresh(sv.clients) && sv.Valid()
      invariant sv.clients.format == format && sv.clients.bufsize == bufsize
      invariant Led(format, bufsize, x, AllActs(calls[..n]), sv.now)
    {
      ghost var y := sv.now;
      sv.Handle(calls[n]);
      LedFurther(format, bufsize, x, AllActs(calls[..n]), y, Acts(calls[n]), sv.now);
      assert calls[..n + 1][..n] == calls[..n];
    }
    assert calls[..|calls|] == calls;
    ghost var t :| Traced(format, bufsize, x, AllActs(calls), t) && t[|AllActs(calls)|] == sv.now;
    trace := t;
    RunIsFaithful(format, bufsize, x, AllActs(calls), trace);
    RunIsComplete(format, bufsize, x, AllActs(calls), trace);
  }

  // ---------------------------------------------------------------- what the client can read

  /** So many packets and bytes of the pair have been counted in its live bucket since that was last emptied. */
  ghost predicate Counted(es: seq<K.Event>, from: K.Word, to: K.Word, t: K.Total) {
    CountedIn(es, K.After(es).pass + K.BucketOf(from, to), X.PairOf(from, to), t)
  }

  ghost predicate CountedIn(es: seq<K.Event>, b: nat, k: K.Key, t: K.Total) {
    exists cut: nat :: CountedFrom(es, b, cut, k, t)
  }

  ghost predicate CountedFrom(es: seq<K.Event>, b: nat, cut: nat, k: K.Key, t: K.Total) {
    && K.Emptied(es, b, cut) && K.Unbroken(es, b, cut)
    && var ps := K.Landed(es, b, cut);
    && K.Packets(ps, k) > 0
    && t == K.Total(K.Packets(ps, k) % K.TWO_TO_64, K.Bytes(ps, k) % K.TWO_TO_64)
  }

  lemma TotalAtCut(es: seq<K.Event>, b: nat, cut: nat, k: K.Key, t: K.Totals, u: K.Total)
    requires K.Emptied(es, b, cut) && K.Unbroken(es, b, cut) && K.Exact(t, K.Landed(es, b, cut))
    ensures CountedFrom(es, b, cut, k, u) <==> k in t && t[k] == u
  {
    assert k in t <==> K.Packets(K.Landed(es, b, cut), k) > 0;
  }

  lemma TotalIsCounted(es: seq<K.Event>, b: nat, k: K.Key, t: K.Totals, u: K.Total)
    requires K.CountsSince(es, b, t)
    ensures CountedIn(es, b, k, u) <==> k in t && t[k] == u
  {
    var cut: nat :| K.Emptied(es, b, cut) && K.Unbroken(es, b, cut) && K.Exact(t, K.Landed(es, b, cut));
    TotalAtCut(es, b, cut, k, t, u);
    if CountedIn(es, b, k, u) {
      var c: nat :| CountedFrom(es, b, c, k, u);
      K.LastOnce(es, b, cut, c);
    }
  }

  /** The text gives exactly the counters of the moment x: a pair has a line if it was counted, with what was counted of
      it, and no pair has another. */
  ghost predicate Legible(x: Shot, text: string) {
    forall from: K.Word, to: K.Word, t: K.Total {:trigger X.Reports(text, from, to, t)} ::
      X.Reports(text, from, to, t) <==> Counted(x.es, from, to, t)
  }

  lemma TableIsLegible(x: Shot)
    requires forall b :: 0 <= b < 256 ==> Tallied(x, b)
    ensures Legible(x, Lines(Line, Remaining(x.live, 0, 0)))
  {
    forall from: K.Word, to: K.Word, t: K.Total
      ensures X.Reports(Lines(Line, Remaining(x.live, 0, 0)), from, to, t) <==> Counted(x.es, from, to, t)
    {
      PairIsReported(x, from, to, t);
      PairIsCounted(x, from, to, t);
    }
  }

  /** The live table has the pair with these counters. */
  ghost predicate Listed(x: Shot, from: K.Word, to: K.Word, t: K.Total) {
    var k, p := K.After(x.es), X.PairOf(from, to);
    p in k.totals[k.pass + K.BucketOf(from, to)] && k.totals[k.pass + K.BucketOf(from, to)][p] == t
  }

  lemma PairIsReported(x: Shot, from: K.Word, to: K.Word, t: K.Total)
    requires forall b :: 0 <= b < 256 ==> Tallied(x, b)
    ensures X.Reports(Lines(Line, Remaining(x.live, 0, 0)), from, to, t) <==> Listed(x, from, to, t)
  {
    var k := K.After(x.es);
    X.PairsStay(x.es);
    forall b | 0 <= b < 256 ensures K.Holds(x.live[b], k.totals[k.pass + b]) {
      assert Tallied(x, b);
    }
    X.Reported(x.live, k.totals, k.pass, from, to);
  }

  lemma PairIsCounted(x: Shot, from: K.Word, to: K.Word, t: K.Total)
    requires Tallied(x, K.BucketOf(from, to))
    ensures Counted(x.es, from, to, t) <==> Listed(x, from, to, t)
  {
    var k := K.After(x.es);
    var b := k.pass + K.BucketOf(from, to);
    TotalIsCounted(x.es, b, X.PairOf(from, to), k.totals[b], t);
  }

  /** Every dump that ends with its connection open has told its client, after the stamp, a text that gives exactly the
      counters of the moment it asked. */
  ghost predicate ToldExactly(trace: seq<Shot>) {
    forall h: nat, i: nat, j: nat :: Spans(trace, h, i, j) ==> Tells(trace, h, i, j)
  }

  ghost predicate Tells(trace: seq<Shot>, h: nat, i: nat, j: nat)
    requires i < j && j + 1 < |trace|
  {
    && |trace[i + 1].client| == |trace[j + 1].client| == MAX && h < MAX
    && exists text :: trace[j + 1].client[h].Said() == trace[i + 1].client[h].Said() + text && Legible(trace[i], text)
  }

  lemma DumpIsRead(bufsize: nat, x: Shot, acts: seq<Act>, trace: seq<Shot>, h: nat, i: nat, j: nat)
    requires Traced(Line, bufsize, x, acts, trace) && Sane(x, bufsize) && Spans(trace, h, i, j)
    ensures Tells(trace, h, i, j)
  {
    DumpIsWhole(Line, bufsize, x, acts, trace, h, i, j);
    StepOf(Line, bufsize, x, acts, trace, i);
    TableIsLegible(trace[i]);
  }

  lemma RunIsRead(bufsize: nat, x: Shot, acts: seq<Act>, trace: seq<Shot>)
    requires Traced(Line, bufsize, x, acts, trace) && Sane(x, bufsize)
    ensures ToldExactly(trace)
  {
    forall h: nat, i: nat, j: nat | Spans(trace, h, i, j) ensures Tells(trace, h, i, j) {
      DumpIsRead(bufsize, x, acts, trace, h, i, j);
    }
  }

  /** The run of the real server, which prints with write_stat_to_buf's format. */
  method RunInPrint(bufsize: nat, calls: seq<Call>) returns (sv: Server, ghost trace: seq<Shot>)
    requires bufsize > 0 && forall k :: 0 <= k < |calls| ==> Fit(calls[k], bufsize)
    ensures fresh(sv) && sv.Valid()
    ensures |trace| == |AllActs(calls)| + 1 && Unused(trace[0]) && trace[0].es == []
    ensures Traced(Line, bufsize, trace[0], AllActs(calls), trace) && trace[|AllActs(calls)|] == sv.now
    ensures Faithful(Line, bufsize, AllActs(calls), trace) && Complete(AllActs(calls), trace)
    ensures ToldExactly(trace)
  {
    sv, trace := Run(Line, bufsize, calls);
    RunIsRead(bufsize, trace[0], AllActs(calls), trace);
  }
}
