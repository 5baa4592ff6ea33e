/**
  The packets handed to the driver: the slots in use, oldest first, are a queue.
 */
module CbqDriver {
  import opened CbqState
  import N = CbqNext

  /** A packet with the driver: its class, its length, and when it was handed over. */
  datatype Job = Job(cl: int, len: nat, at: Time)

  ghost predicate InOrder(s: Slots) {
    InUse(s.sent, s.qi, s.qo, s.queued) && |s.sent| == |s.curlen| == |s.sentAt|
  }

  function JobAt(s: Slots, k: nat): Job
    requires k < |s.sent| == |s.curlen| == |s.sentAt|
  {
    Job(s.sent[k], s.curlen[k], s.sentAt[k])
  }

  /** The packets with the driver. */
  ghost function Jobs(s: Slots): (r: seq<Job>)
    requires InOrder(s)
    ensures |r| == s.queued && forall i :: 0 <= i < |r| ==> r[i] == JobAt(s, Slot(s.qo + i, |s.sent|))
  {
    seq(s.queued, i requires 0 <= i < s.queued => JobAt(s, Slot(s.qo + i, |s.sent|)))
  }

  lemma SlotsApart(qo: nat, i: nat, j: nat, n: nat)
    requires i < j <= n && qo < n && j - i < n
    ensures Slot(qo + i, n) != Slot(qo + j, n)
  {
  }

  /** A packet that is handed over is the last. */
  lemma HandedLast(s: Slots, cl: int, m: Packet, now: Time, s0: Slots)
    requires InOrder(s0) && s0.queued < |s0.sent| && s == N.SlotFilled(s0, cl, m, now) && InOrder(s)
    ensures Jobs(s) == Jobs(s0) + [Job(cl, m.len, now)]
  {
    var n := |s0.sent|;
    forall i | 0 <= i < s.queued ensures Jobs(s)[i] == (Jobs(s0) + [Job(cl, m.len, now)])[i] {
      if i < s0.queued {
        SlotsApart(s0.qo, i, s0.queued, n);
        assert Slot(s0.qo + i, n) != s0.qi;
      } else {
        assert Slot(s0.qo + i, n) == s0.qi;
      }
    }
  }

  /** A packet that is done is the first. */
  lemma DoneFirst(s: Slots, s0: Slots)
    requires InOrder(s0) && InOrder(s) && s0.queued > 0
    requires s == s0.(sent := s0.sent[s0.qo := -1], borrowed := s.borrowed, qo := (s0.qo + 1) % |s0.sent|,
                      queued := s0.queued - 1, ifnow := s.ifnow)
    ensures Jobs(s) == Jobs(s0)[1..] && Jobs(s0)[0] == JobAt(s0, s0.qo)
  {
    var n := |s0.sent|;
    assert s.qo == Slot(s0.qo + 1, n);
    forall i | 0 <= i < s.queued ensures Jobs(s)[i] == Jobs(s0)[i + 1] {
      SlotsApart(s0.qo, 0, i + 1, n);
      assert Slot(s.qo + i, n) == Slot(s0.qo + (i + 1), n);
    }
  }

  /** Noting a lender in a slot changes nothing. */
  lemma SameJobs(s: Slots, s0: Slots)
    requires InOrder(s0) && s == s0.(borrowed := s.borrowed)
    ensures InOrder(s) && Jobs(s) == Jobs(s0)
  {
    forall i | 0 <= i < s.queued ensures Jobs(s)[i] == Jobs(s0)[i] {
      assert JobAt(s, Slot(s.qo + i, |s.sent|)) == JobAt(s0, Slot(s0.qo + i, |s0.sent|));
    }
  }
}
