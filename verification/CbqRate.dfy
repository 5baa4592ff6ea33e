/**
  What the estimators of rmc_update_class_util measure: how the average idle time of a class moves, what its undertime
  is good for, and how fast a class can send that stays under its limit.
 */
module CbqRate {
  import opened CbqState
  import opened CbqUtil
  import opened CbqHistory
  import F = CbqFlow
  import R = CbqRun

  // ---------------------------------------------------------------- one estimate

  /** The time a packet of this length takes at the rate of the class, in microseconds. */
  function PacketTime(e: Estimator, len: nat): nat { NsecToUsec(len * e.nsPerByte) }

  lemma LongerTakesLonger(e: Estimator, len: nat, len': nat)
    requires len <= len'
    ensures PacketTime(e, len) <= PacketTime(e, len')
  {
    var a, b := len * e.nsPerByte, len' * e.nsPerByte;
    assert b - a == (len' - len) * e.nsPerByte >= 0;
    Shifts(a, b);
  }

  lemma Shifts(a: nat, b: nat)
    requires a <= b
    ensures NsecToUsec(a) <= NsecToUsec(b)
  {
    Quotients(a, b, 1024);
    Quotients(a, b, 65536);
    Quotients(a, b, 131072);
  }

  /** The average after one more gap, before it is kept within its limits: an old average fades by 1/gain. */
  function Moved(avg: int, gap: int, gain: nat): int
    requires gain > 0
  {
    avg + gap - avg / gain
  }

  lemma MovedGrows(avg: int, gap: int, avg': int, gap': int, gain: nat)
    requires gain > 0 && avg <= avg' && gap <= gap'
    ensures Moved(avg, gap, gain) <= Moved(avg', gap', gain)
  {
    var d := avg' - avg;
    assert avg' / gain <= avg / gain + d by { Fades(avg, d, gain); }
  }

  lemma Fades(a: int, d: nat, gain: nat)
    requires gain > 0
    ensures a / gain <= (a + d) / gain <= a / gain + d
  {
    Floor(a, gain);
    Floor(a + d, gain);
    Quotients(a, a + d, gain);
    AtMost(a / gain, (a + d) / gain, a, d, gain);
  }

  lemma AtMost(q: int, p: int, a: int, d: nat, g: nat)
    requires g > 0 && a < g * q + g && g * p <= a + d
    ensures p <= q + d
  {
    Scaling(g, 1, d);
    assert g * (q + d) == g * q + g * d;
    Below(p, q + d, g);
  }

  lemma Floor(x: int, g: nat)
    requires g > 0
    ensures g * (x / g) <= x < g * (x / g) + g
  {
  }

  /** Multiples compare as what they are multiples of. */
  lemma Below(p: int, q: int, g: nat)
    requires g * p < g * q + g
    ensures p <= q
  {
    if p >= q + 1 {
      Multiples(q + 1, p, g);
    }
  }

  lemma Multiples(x: int, y: int, g: nat)
    requires x <= y
    ensures g * x <= g * y
  {
    assert g * y - g * x == g * (y - x);
  }

  lemma Quotients(a: int, b: int, g: nat)
    requires g > 0 && a <= b
    ensures a / g <= b / g
  {
    Floor(a, g);
    Floor(b, g);
    Below(a / g, b / g, g);
  }

  lemma Scaling(g: nat, x: nat, d: nat)
    requires g >= x
    ensures g * d >= x * d
  {
  }

  lemma Quotient(x: int, q: int, r: nat, g: nat)
    requires x == g * q + r && r < g
    ensures x / g == q
  {
    Floor(x, g);
    Below(x / g, q, g);
    Below(q, x / g, g);
  }

  /** What an estimate makes of the average. */
  lemma AverageAfter(t: Timing, e: Estimator, f: Filter, sent: Time, ifnow: Time, len: nat)
    requires f.gain > 0 && e.minidle <= 0 < e.maxidle
    ensures var idle := f.delta(ifnow, t.last);
            var avg := Moved(if idle >= 2_000_000 then e.maxidle else t.avgidle, idle - PacketTime(e, len), f.gain);
            Estimate(t, e, f, sent, ifnow, len).avgidle ==
              if avg < e.minidle then e.minidle else if avg > e.maxidle then e.maxidle else avg
  {
  }

  /** A longer gap never makes the average smaller, nor a longer packet larger; and inside its limits the average moves
      by exactly the difference. */
  lemma EstimateGrows(t: Timing, e: Estimator, f: Filter, sent: Time, ifnow: Time, len: nat, sent': Time, ifnow': Time,
                      len': nat)
    requires f.gain > 0 && e.minidle <= 0 < e.maxidle && Temperate(e, t.avgidle)
    requires f.delta(ifnow, t.last) <= f.delta(ifnow', t.last) && len' <= len
    ensures var a, a' := Estimate(t, e, f, sent, ifnow, len).avgidle, Estimate(t, e, f, sent', ifnow', len').avgidle;
            && a <= a'
            && (f.delta(ifnow', t.last) < 2_000_000 && e.minidle < a && a' < e.maxidle ==>
                  a' - a == f.delta(ifnow', t.last) - f.delta(ifnow, t.last) + PacketTime(e, len) - PacketTime(e, len'))
  {
    var idle, idle' := f.delta(ifnow, t.last), f.delta(ifnow', t.last);
    LongerTakesLonger(e, len', len);
    MovedGrows(if idle >= 2_000_000 then e.maxidle else t.avgidle, idle - PacketTime(e, len),
               if idle' >= 2_000_000 then e.maxidle else t.avgidle, idle' - PacketTime(e, len'), f.gain);
    AverageAfter(t, e, f, sent, ifnow, len);
    AverageAfter(t, e, f, sent', ifnow', len');
  }

  /** From average 0 the class comes over its limit exactly if the gap is no longer than the packet takes at its rate,
      and goes below 0 exactly if it is shorter. */
  lemma FromZero(t: Timing, e: Estimator, f: Filter, sent: Time, ifnow: Time, len: nat)
    requires f.gain > 0 && e.minidle <= 0 < e.maxidle && t.avgidle == 0 && f.delta(ifnow, t.last) < 2_000_000
    ensures var a := Estimate(t, e, f, sent, ifnow, len).avgidle;
            && (a <= 0 <==> f.delta(ifnow, t.last) <= PacketTime(e, len))
            && (a < 0 <==> e.minidle < 0 && f.delta(ifnow, t.last) < PacketTime(e, len))
  {
    AverageAfter(t, e, f, sent, ifnow, len);
  }

  /** A class that comes over its limit may send again a packet's time after `sent`, and later the more it is over. */
  lemma WaitAfter(t: Timing, e: Estimator, f: Filter, sent: Time, ifnow: Time, len: nat)
    requires f.gain > 0 && e.minidle <= 0 < e.maxidle && Estimate(t, e, f, sent, ifnow, len).avgidle <= 0
    ensures var r := Estimate(t, e, f, sent, ifnow, len);
            var wait := Micros(r.undertime) - Micros(sent);
            && wait == PacketTime(e, len) + (1 - f.power) * r.avgidle / f.gain
            && (f.power >= 1 ==> wait >= PacketTime(e, len))
            && (f.power == f.gain ==> wait == PacketTime(e, len) - r.avgidle + r.avgidle / f.gain)
  {
    var low := Estimate(t, e, f, sent, ifnow, len).avgidle;
    if f.power >= 1 {
      Penalty(f.power, low, f.gain);
    }
    if f.power == f.gain {
      FullPower(low, f.gain);
    }
  }

  lemma Penalty(power: int, low: int, gain: nat)
    requires power >= 1 && low <= 0 && gain > 0
    ensures (1 - power) * low / gain >= 0
  {
    var x := (1 - power) * low;
    assert x == (power - 1) * (-low) >= 0;
    Floor(x, gain);
    Below(0, x / gain, gain);
  }

  lemma FullPower(low: int, gain: nat)
    requires gain > 0
    ensures (1 - gain) * low / gain == low / gain - low
  {
    var q, m := low / gain, low % gain;
    assert low == gain * q + m;
    assert (1 - gain) * low == gain * (q - low) + m;
    Quotient((1 - gain) * low, q - low, m, gain);
  }

  /** With RM_POWER at 2^RM_FILTER_GAIN, waiting that long before the next packet of the same length is done makes the
      average exactly 0. */
  lemma WaitMakesZero(t: Timing, e: Estimator, f: Filter, sent: Time, ifnow: Time, len: nat, sent': Time, ifnow': Time)
    requires f.gain > 0 && f.power == f.gain && e.minidle <= 0 < e.maxidle
    requires Estimate(t, e, f, sent, ifnow, len).avgidle <= 0
    requires var r := Estimate(t, e, f, sent, ifnow, len);
             f.delta(ifnow', ifnow) == Micros(r.undertime) - Micros(sent) < 2_000_000
    ensures Estimate(Estimate(t, e, f, sent, ifnow, len), e, f, sent', ifnow', len).avgidle == 0
  {
    var r := Estimate(t, e, f, sent, ifnow, len);
    WaitAfter(t, e, f, sent, ifnow, len);
    assert r.last == ifnow;
    AverageAfter(r, e, f, sent', ifnow', len);
  }

  // ---------------------------------------------------------------- the link

  /** The link is done with a packet a packet's time after the later of the two: when it was handed over, and when the
      link was done with the one before; but if it had to wait, never more than maxiftime after it was handed over. */
  lemma DoneAfter(f: Filter, sent: Time, ifnow: Time, pktTime: nat, maxiftime: int)
    requires Before(sent, ifnow) ==> f.delta(ifnow, sent) == Micros(ifnow) - Micros(sent)
    requires sent.usec < 1_000_000 && ifnow.usec < 1_000_000
    ensures var done := Finished(f, sent, ifnow, pktTime, maxiftime);
            var start := if Micros(sent) < Micros(ifnow) then Micros(ifnow) else Micros(sent);
            if Micros(sent) < Micros(ifnow) && start + pktTime > Micros(sent) + maxiftime
            then Micros(done) == Micros(sent) + maxiftime else Micros(done) == start + pktTime
  {
  }

  // ---------------------------------------------------------------- the rate of a class

  function Positive(a: int): nat { if a > 0 then a else 0 }

  /** A packet that leaves the class under its limit was paid for: by the idle time before it, by what the class had
      saved, and after a gap of two seconds by a fresh start. */
  lemma PaidFor(t: Timing, e: Estimator, f: Filter, sent: Time, ifnow: Time, len: nat)
    requires f.gain > 0 && e.minidle <= 0 < e.maxidle
    ensures var a, idle := Estimate(t, e, f, sent, ifnow, len).avgidle, f.delta(ifnow, t.last);
            a > 0 ==> PacketTime(e, len) + a <= Positive(t.avgidle) + idle + if idle >= 2_000_000 then e.maxidle else 0
  {
    var idle := f.delta(ifnow, t.last);
    var avg0 := if idle >= 2_000_000 then e.maxidle else t.avgidle;
    AverageAfter(t, e, f, sent, ifnow, len);
    Faded(avg0, f.gain);
  }

  /** Fading takes no average above what it was, or above 0. */
  lemma Faded(avg: int, gain: nat)
    requires gain > 0
    ensures avg - avg / gain <= Positive(avg)
  {
    if avg >= 0 {
      Quotients(0, avg, gain);
    } else {
      Floor(avg, gain);
      Raised(avg, avg / gain, gain);
    }
  }

  lemma Raised(avg: int, q: int, gain: nat)
    requires gain > 0 && avg < 0 && avg < gain * q + gain
    ensures avg - q <= 0
  {
    Scaling(gain, 1, -avg);
    assert gain * avg == -(gain * (-avg));
    Below(avg, q, gain);
  }

  /** The packet that is done in this step is one of class c or of a class below it. */
  predicate Charges(x: Shot, r: Request, o: Outcome, c: nat) {
    o.Served? && r.Complete? && x.driver != [] && OnBranch(x.c.conf, x.driver[0].cl, c)
  }

  /** Only a packet that is done runs the estimator of the class, as long as the class is not modified. */
  lemma StepEstimates(x: Shot, r: Request, now: Time, o: Outcome, y: Shot, l: Limits, c: nat)
    requires Stepped(x, r, now, o, y, l) && c < |x.timing| && !(r.Modify? && r.cl == c)
    ensures c < |x.c.est| && c < |y.timing| && c < |y.c.est| && y.c.est[c] == x.c.est[c]
    ensures !Charges(x, r, o, c) ==> SameEstimate(x.timing[c], y.timing[c])
    ensures Charges(x, r, o, c) ==>
      && l.f.gain > 0 && x.c.est[c].minidle <= 0 < x.c.est[c].maxidle
      && y.timing[c] == Estimate(x.timing[c], x.c.est[c], l.f, x.driver[0].at, y.ifnow, x.driver[0].len)
  {
    if Legal(x.c, x.pollcache, r) && r.Next? && |x.driver| < l.maxqueued {
      var v: View, why: R.Reason :| Shows(x, now, v) && Explained(x, r.op, now, v, why, o.a, y, l);
      assert HeadTaken(x, r.op, now, why.cl, o.a, y) && SameEstimates(x.timing, y.timing);
    }
  }

  /** What a class has sent: bytes and packets, the time they take at its rate, and how often it started afresh. */
  datatype Tally = Tally(bytes: nat, packets: nat, time: nat, resets: nat)

  function Added(s: Tally, x: Shot, r: Request, o: Outcome, y: Shot, l: Limits, c: nat): Tally {
    if Charges(x, r, o, c) && c < |x.timing| && c < |x.c.est| then
      var len := x.driver[0].len;
      Tally(s.bytes + len, s.packets + 1, s.time + PacketTime(x.c.est[c], len),
            s.resets + if l.f.delta(y.ifnow, x.timing[c].last) >= 2_000_000 then 1 else 0)
    else s
  }

  function TallyAfter(trace: seq<Shot>, reqs: seq<(Request, Time)>, outcomes: seq<Outcome>, l: Limits, n: nat, c: nat)
    : Tally
    requires |outcomes| == |reqs| == |trace| - 1 && n <= |reqs|
  {
    if n == 0 then Tally(0, 0, 0, 0)
    else Added(TallyAfter(trace, reqs, outcomes, l, n - 1, c), trace[n - 1], reqs[n - 1].0, outcomes[n - 1], trace[n],
               l, c)
  }

  /** In this step the class is not modified, and if a packet of it is done it stays under its limit, by a clock that
      does not run ahead. */
  ghost predicate Tame(x: Shot, r: Request, o: Outcome, y: Shot, l: Limits, c: nat) {
    && !(r.Modify? && r.cl == c)
    && (Charges(x, r, o, c) && c < |x.timing| && c < |y.timing| ==>
          && y.timing[c].avgidle > 0
          && l.f.delta(y.ifnow, x.timing[c].last) <= Micros(y.ifnow) - Micros(x.timing[c].last))
  }

  ghost predicate TameRun(trace: seq<Shot>, reqs: seq<(Request, Time)>, outcomes: seq<Outcome>, l: Limits, n: nat,
                          c: nat)
    requires |outcomes| == |reqs| == |trace| - 1 && n <= |reqs|
  {
    forall i {:trigger reqs[i]} :: 0 <= i < n ==> Tame(trace[i], reqs[i].0, outcomes[i], trace[i + 1], l, c)
  }

  /** The class is there after n steps, with the estimator it had at first. */
  ghost predicate Keeps(trace: seq<Shot>, n: nat, c: nat) {
    && n < |trace| && c < |trace[0].timing| && c < |trace[0].c.est| && c < |trace[n].timing| && c < |trace[n].c.est|
    && trace[n].c.est[c] == trace[0].c.est[c]
  }

  /** What the packets took at the rate of the class is covered: by what it had saved at first, by the time that has
      passed for it since, and by a fresh start for every gap of two seconds. */
  ghost predicate Covers(t0: Timing, e: Estimator, t: Timing, s: Tally) {
    s.time + Positive(t.avgidle) <= Positive(t0.avgidle) + (Micros(t.last) - Micros(t0.last)) + s.resets * e.maxidle
  }

  lemma OneMore(resets: nat, maxidle: int)
    ensures (resets + 1) * maxidle == resets * maxidle + maxidle
  {
  }

  lemma CoversOne(t0: Timing, e: Estimator, f: Filter, t: Timing, sent: Time, ifnow: Time, len: nat, s: Tally)
    requires f.gain > 0 && e.minidle <= 0 < e.maxidle && Covers(t0, e, t, s)
    requires Estimate(t, e, f, sent, ifnow, len).avgidle > 0
    requires f.delta(ifnow, t.last) <= Micros(ifnow) - Micros(t.last)
    ensures Covers(t0, e, Estimate(t, e, f, sent, ifnow, len),
                   Tally(s.bytes + len, s.packets + 1, s.time + PacketTime(e, len),
                         s.resets + if f.delta(ifnow, t.last) >= 2_000_000 then 1 else 0))
  {
    PaidFor(t, e, f, sent, ifnow, len);
    OneMore(s.resets, e.maxidle);
  }

  lemma RateStep(x: Shot, r: Request, now: Time, o: Outcome, y: Shot, l: Limits, c: nat, t0: Timing, s: Tally)
    requires Stepped(x, r, now, o, y, l) && c < |x.timing| && c < |x.c.est| && Tame(x, r, o, y, l, c)
    requires Covers(t0, x.c.est[c], x.timing[c], s)
    ensures c < |y.timing| && c < |y.c.est| && y.c.est[c] == x.c.est[c]
    ensures Covers(t0, x.c.est[c], y.timing[c], Added(s, x, r, o, y, l, c))
  {
    StepEstimates(x, r, now, o, y, l, c);
    if Charges(x, r, o, c) {
      CoversOne(t0, x.c.est[c], l.f, x.timing[c], x.driver[0].at, y.ifnow, x.driver[0].len, s);
    }
  }

  lemma {:induction false} RateRun(trace: seq<Shot>, reqs: seq<(Request, Time)>, outcomes: seq<Outcome>, l: Limits,
                                   n: nat, c: nat)
    requires F.Through(trace, reqs, outcomes, l) && n <= |reqs| && TameRun(trace, reqs, outcomes, l, n, c)
    requires Keeps(trace, 0, c)
    ensures Keeps(trace, n, c)
    ensures Covers(trace[0].timing[c], trace[0].c.est[c], trace[n].timing[c],
                   TallyAfter(trace, reqs, outcomes, l, n, c))
  {
    if n > 0 {
      RateRun(trace, reqs, outcomes, l, n - 1, c);
      assert Stepped(trace[n - 1], reqs[n - 1].0, reqs[n - 1].1, outcomes[n - 1], trace[n], l);
      assert Tame(trace[n - 1], reqs[n - 1].0, outcomes[n - 1], trace[n], l, c);
      RateStep(trace[n - 1], reqs[n - 1].0, reqs[n - 1].1, outcomes[n - 1], trace[n], l, c, trace[0].timing[c],
               TallyAfter(trace, reqs, outcomes, l, n - 1, c));
    } else {
      assert 0 * trace[0].c.est[c].maxidle == 0;
    }
  }

  /** The time counted for packets falls short of 131/131072 of their nanoseconds by less than 3 for each. */
  ghost predicate Timed(s: Tally, ns: nat) { 131 * (s.bytes * ns) <= 131072 * (s.time + 3 * s.packets) }

  lemma TimedOne(s: Tally, len: nat, ns: nat, resets: nat)
    requires Timed(s, ns)
    ensures Timed(Tally(s.bytes + len, s.packets + 1, s.time + NsecToUsec(len * ns), resets), ns)
  {
    NsecToUsecBounds(len * ns);
    assert (s.bytes + len) * ns == s.bytes * ns + len * ns;
  }

  lemma {:induction false} RunIsTimed(trace: seq<Shot>, reqs: seq<(Request, Time)>, outcomes: seq<Outcome>, l: Limits,
                                      n: nat, c: nat)
    requires F.Through(trace, reqs, outcomes, l) && n <= |reqs| && TameRun(trace, reqs, outcomes, l, n, c)
    requires Keeps(trace, 0, c)
    ensures Timed(TallyAfter(trace, reqs, outcomes, l, n, c), trace[0].c.est[c].nsPerByte)
  {
    var ns := trace[0].c.est[c].nsPerByte;
    if n > 0 {
      RunIsTimed(trace, reqs, outcomes, l, n - 1, c);
      RateRun(trace, reqs, outcomes, l, n - 1, c);
      AddedTimed(trace[n - 1], reqs[n - 1].0, outcomes[n - 1], trace[n], l, c,
                 TallyAfter(trace, reqs, outcomes, l, n - 1, c));
    } else {
      assert 0 * ns == 0;
    }
  }

  lemma AddedTimed(x: Shot, r: Request, o: Outcome, y: Shot, l: Limits, c: nat, s: Tally)
    requires c < |x.timing| && c < |x.c.est| && Timed(s, x.c.est[c].nsPerByte)
    ensures Timed(Added(s, x, r, o, y, l, c), x.c.est[c].nsPerByte)
  {
    if Charges(x, r, o, c) {
      TimedOne(s, x.driver[0].len, x.c.est[c].nsPerByte, Added(s, x, r, o, y, l, c).resets);
    }
  }

  /** The rate law.  Over any run in which a class, with the classes below it, stays under its limit whenever a packet
      is done, its bytes take no longer at its rate than the time that has passed, what it had saved, a fresh start for
      every gap of two seconds, and 3 microseconds of rounding for each packet. */
  lemma RateLaw(trace: seq<Shot>, reqs: seq<(Request, Time)>, outcomes: seq<Outcome>, l: Limits, n: nat, c: nat)
    requires F.Through(trace, reqs, outcomes, l) && n <= |reqs| && TameRun(trace, reqs, outcomes, l, n, c)
    requires c < |trace[0].timing| && c < |trace[0].c.est|
    ensures Keeps(trace, n, c)
    ensures var s, e := TallyAfter(trace, reqs, outcomes, l, n, c), trace[0].c.est[c];
            var passed := Micros(trace[n].timing[c].last) - Micros(trace[0].timing[c].last);
            131 * (s.bytes * e.nsPerByte) <=
              131072 * (passed + Positive(trace[0].timing[c].avgidle) + s.resets * e.maxidle + 3 * s.packets)
  {
    RateRun(trace, reqs, outcomes, l, n, c);
    RunIsTimed(trace, reqs, outcomes, l, n, c);
  }
}
