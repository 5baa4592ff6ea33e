# Models and proofs for rlgw

This project models the hard parts of four programs of the repository in Dafny and proves properties of the models:

* the class-based queueing scheduler with a hash-fair queue (`src/ffq`),
* the address translation engine (`src/tunneld/libalias`),
* the fixed-point power table of RED (`src/ffq/freebsd/altq_red.c`),
* the traffic statistics server (`src/ipstatd`).

`dafny verify dfyconfig.toml` checks everything.  Code that changes things step by step is modelled by methods over
classes, fields and loops, each proved against a specification; what the source promises is proved about those
specifications.

## How it is organised

| files | what they model |
|---|---|
| ClassQueue, HashFair, HashFairQueue | the circular packet list, where a packet is inserted, and why that is fair |
| CbqState, CbqDequeue, CbqWrr, CbqPrr, CbqNext, CbqRun | who can send, the two searches for the next packet, dequeue and poll |
| CbqTree, CbqRings, CbqWeights, CbqSetup | depths, peer rings and weights while classes come, change and go |
| CbqQueue, CbqUtil, CbqSend, CbqDriver, CbqHistory | queueing, completion, bookkeeping, and runs of all operations |
| CbqFlow, CbqRate | over those runs: the order of the packets of a class, and how fast it can send |
| PowTable | repeated squaring with truncation |
| Checksum, SeqTranslate, LinkTable, NatEngine, NatPackets, NatRoundTrip, NatProxy, FtpMessages | the translation engine |
| KeepStat, StatDump, StatText, StatServer, StatRun | counters, the resumable dump, what can be read from it, the connections, and runs of the whole server |
| Wrappers | the width of a 32-bit word, an optional value, and sequences without repetition |

Main results, in words:

* **Fairness.**  In every run of the hash-fair queue, a queued packet with j packets of its own host ahead of it has at
  most j + 1 packets of any other single host ahead of it, no matter how many of those arrive later; each host stays
  first in, first out.
* **Scheduling.**  The packet a dequeue returns comes from a class that can send at the final cutoff, no backlogged class
  of higher priority can, and nobody at all could at any lower cutoff that was tried.  If nobody can send at all, every
  backlogged class is asleep until later.  The search terminates, and a dequeue panics exactly when the class in the poll
  cache has lost its packets in between.  Over any run that does not take the packets of a polled class away, all
  bookkeeping stays exact and no dequeue panics, however long the packets are.  Between changes of the weights, a class
  pays from one refill of its account for at most its weighted allotment and one packet less a byte.  Over any run what
  has left a class and what is still queued is what came for it, in order (for a hash-fair class, host by host), and only
  an arrival at the limit, a flush or a deletion drops packets.  As long as a class stays under its limit, its bytes take
  no longer at its rate than the time that has passed, what it had saved, a fresh start for every gap of two seconds, and
  a rounding for each packet.
* **Translation.**  The two hash chains of every link agree with the set of links, so that a chain search is a search of
  the whole table; in runs without partial links, every reply that mirrors a packet sent out is delivered to the host
  and port it came from, whatever ordinary traffic happened in between, as long as the link lives.  Its numbers move by
  exactly the growth of the edits on the link that lie behind them, and acknowledgments of moved numbers move back.  A
  packet nobody answers for is let in exactly if incoming packets are not denied.
* **Statistics.**  Each counter is the exact total since its bucket was last emptied.  In any run of the server, whatever
  packets arrive and whatever other clients do meanwhile, a client that stays connected from STAT to the end of its dump
  has shown the right digest, on the same socket, and is told the stamp and then one line for each entry of the table
  that was live at STAT, once and in order, each with the exact counts of that moment; read column by column, the text
  gives back exactly those counts.

Where code and documentation disagree, the code is modelled:

* `rmc_modclass` multiplies `minidle` as an unsigned number and then clips it at 0, so a negative limit becomes 0;
  `rmc_newclass` keeps it (`CbqSetup.KeepsMinidle` says exactly when they agree, `CbqSetup.LosesMinidle` gives a case).
* An incremental checksum of a nonzero value can come out as 0, which for UDP means "no checksum"
  (`Checksum.AdjustedIsZero` says exactly when, `Checksum.NonzeroCanVanish` gives two cases).
* The checksum of an incoming UDP or TCP packet is adjusted with the alias address of the link, not with the destination
  of the packet.  The two are the same except for packets to 0.0.0.0, which are taken for packets to the default alias
  address; only those lose their sum, and only if that address is not a multiple of 65535 (`NatPackets.UdpAliasIn`,
  `NatPackets.TcpAliasIn`; `NatPackets.WildcardLosesSum` gives a case).
* The log of edits keeps three of them; the growth behind an older one is forgotten (`SeqTranslate.LookupIsRight` says
  exactly when a lookup is right, `SeqTranslate.LookupForgets` gives a case where it is not, and
  `SeqTranslate.ForgottenRing` a log like that).
* An address that equals the wildcard 0.0.0.0 is not restored by the round trip unless the default alias address is
  0.0.0.0 too (`NatEngine.OriginalAddress`, `NatRoundTrip.OriginalIsSource`).
* The comment that the drop of a class queue is not called for red queues is proved (`CbqQueue.RedNeverDrops`).

## Conventions

Addresses, ports and 16-bit words are taken in network order; reading them in host order scales every word by 256 modulo
65535, which changes no congruence (`Checksum.SwapIsScaling`).  Integers are unbounded except where the width matters and
is written out: hashes and sequence numbers modulo 2^32, 16-bit words, 64-bit counters, the unsigned products of the class
parameters.  `RM_MAXPRIO`, `RM_MAXDEPTH`, `RM_FILTER_GAIN`, `RM_POWER` and `TV_DELTA` are parameters, because
altq_rmclass.h is not part of this model; `TV_LT` and `TV_ADD_DELTA` are the usual order and addition of times, and the
clock is past second 0, which marks a time that is not set.  A class borrows from its ancestors only, as the comments
of altq_rmclass.c have it.
The scheduler's classes are numbered in the order of their creation and their fields are columns of records that the
interface object updates; a null pointer is -1. `maxpkt_` sets the weights and bounds no packet: the accounts are
bounded by the largest packet so far, which the model keeps as a ghost. A class's refill lasts until the pointer of the
search (`cl` at altq_rmclass.c:988-989) passes the class; the ring's own pointer `active_` may still name a class that
was passed over. A packet of the scheduler is a hash, a length and a tag; a class queue there is the sequence that the
linked list of ClassQueue is proved to implement.

## Model

| member | source | states |
|---|---|---|
| HashFair.AcceptsIsCyclicBetween | src/ffq/altq/altq_red.c:385-392 | the three-way test of the walk holds exactly when both neighbours differ from the new hash and it lies between them going round the circle of hashes |
| HashFair.SplitGap | src/ffq/altq/altq_red.c:385-392 | a gap that takes m but not y leaves two gaps that do not take y either |
| HashFair.Scan | src/ffq/altq/altq_red.c:366-393 | the first gap from k on that takes the hash, or the end |
| HashFair.ClosedInsert | src/ffq/altq/altq_red.c:359-393 | an insertion before a packet opens no gap before it for its own hash |
| HashFair.PlaceKeepsFair | src/ffq/altq/altq_red.c:359-422 | inserting where the walk says keeps every queued packet free of gaps ahead that would take its hash |
| HashFair.TailKeepsFair | src/ffq/altq/altq_red.c:359-422 | taking the head keeps that invariant |
| HashFair.ClosedCounts | src/ffq/altq/altq_red.c:359-393 | without a gap for y, another hash g occurs at most once more often than y |
| HashFair.FairShare | src/ffq/altq/altq_red.c:359-422 | a packet with j of its own hash ahead has at most j + 1 of any other hash ahead |
| HashFair.PlaceBehindOwnHost | src/ffq/altq/altq_red.c:366-393 | the place is behind every queued packet of the same hash, so the walk has counted them all when it stops |
| HashFair.StepKeepsInvariant | src/ffq/altq/altq_red.c:338-422 | one enqueue or dequeue keeps fairness, the queue limit and the cap of 500 per hash; an enqueue on a nonempty queue leaves the head alone |
| HashFair.RunKeepsInvariant | src/ffq/altq/altq_red.c:338-422 | so does every run |
| HashFair.RunIsFair | src/ffq/altq/altq_red.c:338-422 | after every run the share ahead of a packet is bounded as above |
| HashFair.HostIsFifo | src/ffq/altq/altq_red.c:338-422 | over every run the packets of one host leave in the order they were accepted |
| HashFair.OvertakingIsBounded | src/ffq/altq/altq_red.c:338-422 | however many packets arrive after it, a packet is preceded over its whole life by at most one more packet of any other host than of its own |
| ClassQueue.Queue.AddQ | src/ffq/altq/altq_classq.h:93-106 | appends to the list |
| ClassQueue.Queue.InsQ | src/ffq/altq/altq_classq.h:108-123 | inserts behind the given member, or at the head |
| ClassQueue.Queue.GetQ | src/ffq/altq/altq_classq.h:125-140 | takes the head, or returns null |
| ClassQueue.Queue.GetQTail | src/ffq/altq/altq_classq.h:142-162 | takes the last element; its walk ends |
| ClassQueue.Queue.GetQRandom | src/ffq/altq/altq_classq.h:164-189 | takes exactly the n-th element for a draw of n |
| ClassQueue.Queue.RemoveQ | src/ffq/altq/altq_classq.h:191-207 | removes exactly the given member |
| ClassQueue.Queue.FlushQ | src/ffq/altq/altq_classq.h:209-216 | empties the list |
| ClassQueue.HashNamesHost | src/ffq/altq/altq_red.c:263-295 | with the ECN flag packets go by their source, without it by their destination, and all that are not IPv4 under one hash |
| HashFairQueue.Walk | src/ffq/altq/altq_red.c:359-393 | the do-while walk over the ring finds the place and the exact number of queued packets of the host |
| HashFairQueue.RedAddQ | src/ffq/altq/altq_red.c:310-422 | the linked queue becomes the fair insertion of the packet, which is refused exactly when the queue is full or its host at the cap |
| HashFairQueue.RedGetQ | src/ffq/altq/altq_red.c:441-460 | takes the head and keeps the queue fair |
| CbqState.Look | src/ffq/altq/altq_rmclass.c:836-899 | every state has exactly one view: who is over limit and who can send at no cutoff |
| CbqState.ChainCases | src/ffq/altq/altq_rmclass.c:862-895 | a borrow chain is not under limit exactly if it is over limit to its top or cut off by the cutoff |
| CbqState.CutoffGrows | src/ffq/altq/altq_rmclass.c:863-871 | a larger cutoff lets at least as many classes send |
| CbqState.BacklogUpdate | src/ffq/altq/altq_rmclass.c:754-767 | changing one queue moves the exact backlog count of its priority by one if it became empty or stopped being so |
| CbqDequeue.DelayAction | src/ffq/altq/altq_rmclass.c:1425-1485 | an overlimit class goes to sleep, and the time it waits for moves away by exactly the microseconds by which its offtime exceeds the time of its last packet |
| CbqDequeue.SleepsFor | src/ffq/altq/altq_rmclass.c:836-899 | whose offtime a class that falls asleep sleeps: its own if it borrows from nobody or the last lender of its chain is at its lowest average, that lender's otherwise |
| CbqDequeue.UnderLimit | src/ffq/altq/altq_rmclass.c:836-899 | answers exactly whether the class can send at this cutoff, notes the first lender under limit, and changes nobody's ability to send; a refused class is asleep or cut off; only a sleeper whose time has come wakes, and only a class whose whole chain is over limit falls asleep, for the offtime of the top of its chain |
| CbqDequeue.Visit | src/ffq/altq/altq_rmclass.c:969-989 | tops up a used-up account with its weighted allotment outside the second pass, and either stops at the class or clears its account and says why |
| CbqDequeue.WrrScan | src/ffq/altq/altq_rmclass.c:967-990 | one pass of the ring stops at the first class that may send and has allotment, or has skipped them all for a reason each; every account is left alone, cleared, or refilled with the present weighted allotment |
| CbqWrr.SecondPass | src/ffq/altq/altq_rmclass.c:992-997 | if the first pass found a class short of allotment, the second pass always finds one, the first that may send |
| CbqWrr.FirstPass | src/ffq/altq/altq_rmclass.c:965-997 | a first pass without a shortage has refused every backlogged class |
| CbqWrr.WrrPriority | src/ffq/altq/altq_rmclass.c:953-998 | the two passes pick the first class with allotment that may send, or failing that the first that may send, and the account it sends from |
| CbqWrr.BacklogShows | src/ffq/altq/altq_rmclass.c:953-955 | a priority is skipped exactly when none of its classes has a packet |
| CbqWrr.WrrRound | src/ffq/altq/altq_rmclass.c:953-998 | a round finds a class with nobody above it able to send, or refuses everyone |
| CbqWrr.WrrFind | src/ffq/altq/altq_rmclass.c:946-1009 | the retries end; the cutoff rises one step at a time, each time because nobody could send, and at most to the depth of the root |
| CbqPrr.PrrScan | src/ffq/altq/altq_rmclass.c:1098-1110 | one pass of the ring without accounts |
| CbqPrr.PrrFresh | src/ffq/altq/altq_rmclass.c:1074-1172 | the same promise for packet-by-packet round robin: the first class of its ring that may send, nobody above it, nobody at a lower cutoff |
| CbqNext.Fallback | src/ffq/altq/altq_rmclass.c:1011-1031 | when nobody can send the cutoff is reset; under link efficiency the candidate sends at its lender's expense |
| CbqNext.Send | src/ffq/altq/altq_rmclass.c:1036-1059 | the whole new state after a packet of any length leaves: queue, count, account, ring and slot; what an account pays since its refill stays below the refill plus one largest packet |
| CbqNext.WrrFresh | src/ffq/altq/altq_rmclass.c:918-1066 | dequeue or poll with a search: the class is the one weighted round robin grants; accounts are cleared, refilled with the weighted allotment, and charged for the packet sent, and nothing else |
| CbqNext.Cached | src/ffq/altq/altq_rmclass.c:930-941 | removing a polled packet takes it without a search; the panic happens exactly if its queue has become empty |
| CbqSend.Budget | src/ffq/altq/altq_rmclass.c:969-989 | between changes of the weights no account pays for more than its w_allotment_ and one largest packet less a byte before it is refilled or cleared |
| CbqSend.StaysAllotted | src/ffq/altq/altq_rmclass.c:969-1042 | searching, charging and sending keep every refill equal to the present w_allotment_ |
| CbqRun.IdleMeansAsleep | src/ffq/altq/altq_rmclass.c:998-1020 | if the search comes away empty under a single root, every backlogged class is asleep until later and can send at no cutoff |
| CbqRun.DequeueNext | src/ffq/altq/altq_rmclass.c:1188-1197 | the answer, its justification and its effect, for both disciplines, packets of any length, a full downstream and a cached class; refills stay equal to the weighted allotments |
| CbqRun.PollThenRemove | src/ffq/altq/altq_rmclass.c:930-941 | a poll that returns a packet, followed by a remove, returns the same packet, whatever the clock says |
| CbqTree.DepthCompute | src/ffq/altq/altq_rmclass.c:431-447 | after a class was linked in, every depth is exact again although the walk stops early |
| CbqTree.DepthRecompute | src/ffq/altq/altq_rmclass.c:457-483 | the same after a class was unlinked |
| CbqTree.RootIsDeepest | src/ffq/altq/altq_rmclass.c:1005 | under a single root no class is deeper than the root, so its depth is where raising the cutoff may stop |
| CbqTree.NothingCut | src/ffq/altq/altq_rmclass.c:863-871 | at that cutoff no borrow chain is cut |
| CbqWeights.SetWeights | src/ffq/altq/altq_rmclass.c:376-412 | every weight and weighted allotment, by a walk of every ring |
| CbqWeights.WeightBounds | src/ffq/altq/altq_rmclass.c:376-412 | whenever M is positive, num (maxpkt - 1) < sum of w_allotment < 2 num maxpkt |
| CbqRings.LastPeer | src/ffq/altq/altq_rmclass.c:283-288 | the walk ends at the last class of the ring |
| CbqRings.JoinRings | src/ffq/altq/altq_rmclass.c:283-292 | a new class is the last of its ring, and all rings stay cycles of exactly their classes |
| CbqRings.LeaveRings | src/ffq/altq/altq_rmclass.c:557-577 | so they do without a deleted class |
| CbqSetup.Rescaled | src/ffq/altq/altq_rmclass.c:337-340 | the class parameters rmc_modclass computes are those of a class with minidle 0 |
| CbqSetup.KeepsMinidle | src/ffq/altq/altq_rmclass.c:226-229 | rmc_modclass sets the limits rmc_newclass would have set exactly if minidle times the nanoseconds per byte is above -8 |
| CbqSetup.LosesMinidle | src/ffq/altq/altq_rmclass.c:337-340 | a limit of -1000 on a class of 10 Mbit/s becomes 0 |
| CbqSetup.ScaledBounds | src/ffq/altq/altq_rmclass.c:226-246 | the limits of a new class are its parameters times its nanoseconds per byte over 8 (the offtime over 2^RM_FILTER_GAIN too), rounded towards 0, with the unsigned products modulo 2^32 |
| CbqSetup.NewClass | src/ffq/altq/altq_rmclass.c:174-316 | a class is created with every invariant kept, last on its ring and first among its parent's children, or refused for its priority |
| CbqSetup.ModClass | src/ffq/altq/altq_rmclass.c:318-365 | a class is changed with every invariant kept |
| CbqSetup.DeleteClass | src/ffq/altq/altq_rmclass.c:512-613 | a childless class leaves its ring and its parent, its packets are dropped, every invariant is kept |
| CbqSetup.DropAll | src/ffq/altq/altq_rmclass.c:1402-1411 | a queue is emptied and the count stays exact |
| CbqSetup.Init | src/ffq/altq/altq_rmclass.c:632-691 | the invariants hold at the beginning |
| CbqQueue.RedNeverDrops | src/ffq/altq/altq_rmclass.c:1561-1569 | a red queue takes only what fits, so the drop after it never happens |
| CbqQueue.EnqueueOrder | src/ffq/altq/altq_rmclass.c:709-769 | below its limit a class that is not red takes the packet at its end, at its limit it loses its head; a red class refuses it or puts it behind all packets of its host; no queue grows beyond its limit |
| CbqQueue.ArrivalCutoffIs | src/ffq/altq/altq_rmclass.c:720-742 | the cutoff falls only to the depth of the first class up the borrow chain that is under its limit, and at least to that of the class itself if it is |
| CbqQueue.ArrivalOpens | src/ffq/altq/altq_rmclass.c:720-742 | however an arrival lowers the cutoff, its class can still send if it could before |
| CbqQueue.QueuePacket | src/ffq/altq/altq_rmclass.c:709-769 | the packet goes to the end, and at the limit the head is dropped, unless the class is red; the count, cutoff and answer; a polled class keeps a packet |
| CbqUtil.SatisfiedExactly | src/ffq/altq/altq_rmclass.c:803-828 | a class is satisfied exactly when no awake backlogged leaf reaches it through classes under their limits |
| CbqUtil.TlSatisfied | src/ffq/altq/altq_rmclass.c:777-797 | the cutoff becomes the depth of the first unsatisfied class by priority and ring order, or the largest if all are satisfied |
| CbqUtil.NsecToUsecBounds | src/ffq/altq/altq_rmclass.c:1207-1211 | the shifts approximate a thousandth from below |
| CbqUtil.Estimate | src/ffq/altq/altq_rmclass.c:1277-1326 | the estimate stays between minidle and maxidle; a positive one wakes the class and puts it under its limit (CbqRate says how it moves) |
| CbqUtil.RunEstimators | src/ffq/altq/altq_rmclass.c:1277-1340 | exactly the class and its ancestors are updated |
| CbqUtil.UpdateClassUtil | src/ffq/altq/altq_rmclass.c:1212-1379 | the oldest slot is released, its class and the ancestors charged, the cutoff set to the lender's depth or the first unsatisfied class's, every invariant kept; with no slot in use nothing happens |
| CbqUtil.Restart | src/ffq/altq/altq_rmclass.c:1503-1522 | a sleeping class wakes under its limit, any other is left alone |
| CbqDriver.HandedLast | src/ffq/altq/altq_rmclass.c:1037-1065 | a packet handed to the driver joins the end of those it has |
| CbqDriver.DoneFirst | src/ffq/altq/altq_rmclass.c:1372-1379 | the packet that is done is the oldest of them |
| CbqRate.EstimateGrows | src/ffq/altq/altq_rmclass.c:1277-1325 | the average idle time never falls with a longer gap nor rises with a longer packet, and between its limits moves by exactly the difference |
| CbqRate.FromZero | src/ffq/altq/altq_rmclass.c:1277-1325 | from average 0 a class is over its limit exactly if the gap is no longer than the packet takes at its rate |
| CbqRate.WaitAfter | src/ffq/altq/altq_rmclass.c:1299-1314 | how far undertime lies behind the time the packet was sent, and never less than the packet takes |
| CbqRate.WaitMakesZero | src/ffq/altq/altq_rmclass.c:1310-1314 | if RM_POWER is 2^RM_FILTER_GAIN, a class that waits that long makes its average exactly 0 |
| CbqRate.DoneAfter | src/ffq/altq/altq_rmclass.c:1240-1275 | the link is done with a packet a packet's time after the later of its handing over and the end of the one before, but at most maxiftime after its handing over if it had to wait |
| CbqRate.RateLaw | src/ffq/altq/altq_rmclass.c:1212-1340 | over any run in which a class stays under its limit whenever a packet of it or of a class below it is done, the bytes done are bounded by the time passed at its rate, what it had saved, one fresh start for each gap of two seconds, and a rounding for each packet |
| CbqHistory.Run | src/ffq/altq/altq_rmclass.c:174-1522 | any run of creating, changing, deleting, queueing (packets of any length), flushing, dequeueing, completing and waking keeps every invariant and never panics, as long as a polled class is neither deleted nor flushed; each step does to the queues what its request says; every dequeue with a free slot is answered by the polled class, by a class that can send while no backlogged class above it can, or, all backlogged classes being asleep, by nobody or the candidate of link efficiency; while no weights change every account stays within its budget |
| CbqHistory.Serve | src/ffq/altq/altq_rmclass.c:174-1522 | one request: refused, with nothing changed, exactly if its caller must not make it; otherwise classes, queues, slots and the polled class become what the request says, and the answer of a dequeue is justified by priorities and clocks as in Run |
| CbqFlow.ClassIsFifo | src/ffq/altq/altq_rmclass.c:709-769 | over any run, what has left a class that is not red, sent or dropped, followed by its queue is what was queued at first and what came since, in order |
| CbqFlow.HostsAreFifo | src/ffq/altq/altq_rmclass.c:709-769 | the same for a red class, for the packets of each host |
| CbqFlow.StaysWithin | src/ffq/altq/altq_rmclass.c:764-769 | a queue never holds more packets than at first, or than the largest limit its class has had |
| CbqFlow.SentByOne | src/ffq/altq/altq_rmclass.c:1037-1065 | a packet handed out has left the queue of exactly one class, and the driver has it as one of that class |
| CbqFlow.RunInOrder | src/ffq/altq/altq_rmclass.c:174-1522 | the real scheduler, driven by any requests, keeps every class first in, first out at every moment |
| PowTable.EntryApprox | src/ffq/freebsd/altq_red.c:823-832 | entry i is 4096 q^(2^i) less an error of at most 2^i - 1 |
| PowTable.FirstEntryIsBase | src/ffq/freebsd/altq_red.c:823-828 | the table starts from 4096 (1 - 1/weight), rounded down |
| PowTable.EntryFalls | src/ffq/freebsd/altq_red.c:829-835 | entries strictly decrease until they are 0 |
| PowTable.TableDies | src/ffq/freebsd/altq_red.c:829-835 | whatever the weight, an entry within the table is 0 |
| PowTable.Wtab.constructor | src/ffq/freebsd/altq_red.c:808-839 | the table holds those entries and w_param_max is positive |
| PowTable.Wtab.PowW | src/ffq/freebsd/altq_red.c:860-884 | 4096 q^n - n <= pow_w <= 4096 q^n for every n >= 0, the early return included |
| PowTable.ZeroIsClose | src/ffq/freebsd/altq_red.c:868-870 | returning 0 from w_param_max on is within the error bound |
| Checksum.Adjusted | src/tunneld/libalias/alias_local.h:65-78 | the adjusted checksum is congruent to accumulator plus checksum modulo 65535 |
| Checksum.AdjustChecksum | src/tunneld/libalias/alias_local.h:65-78 | the two folds of the macro suffice for every accumulator in range, of either sign |
| Checksum.AdjustKeepsSum | src/tunneld/libalias/alias_local.h:65-78 | adding old words and subtracting new ones keeps the covered sum |
| Checksum.AdjustedIsZero | src/tunneld/libalias/alias_local.h:65-78 | exactly when an adjusted checksum is 0 |
| Checksum.NonzeroCanVanish | src/tunneld/libalias/alias_local.h:65-78 | two adjustments that turn a nonzero checksum into 0 |
| Checksum.DifferentialChecksum | src/tunneld/libalias/alias_util.c:142-168 | the word-by-word update equals one adjustment by the difference of the sums |
| Checksum.InternetChecksum | src/tunneld/libalias/alias_util.c:62-83 | the from-scratch checksum makes the covered sum a multiple of 65535 |
| Checksum.ComputeChecksum | src/tunneld/libalias/alias_util.c:62-83 | the loop over the bytes, an odd one padded, computes that checksum for every IP packet length |
| Checksum.MarkEcn | src/ffq/freebsd/altq_red.c:684-748 | an IPv4 packet that carries ECN is marked and its covered sum kept |
| SeqTranslate.SeqDiffInWindow | src/tunneld/libalias/alias_db.c:475-486 | the signed 32-bit difference is the true one inside a window of 2^31 |
| SeqTranslate.NearestIsLast | src/tunneld/libalias/alias_db.c:2058-2158 | the nearest record behind a position is that of the last edit behind it, across wrap of numbers and ring |
| SeqTranslate.TcpDat.GetDeltaSeqOut | src/tunneld/libalias/alias_db.c:2109-2158 | the growth of all edits ending by the position, while the last of them is kept |
| SeqTranslate.TcpDat.GetDeltaAckIn | src/tunneld/libalias/alias_db.c:2058-2107 | the same for a position of the stream the receiver sees |
| SeqTranslate.TcpDat.AddSeq | src/tunneld/libalias/alias_db.c:2160-2193 | recording an edit in the circular log |
| SeqTranslate.TcpDat.RecordEdit | src/tunneld/libalias/alias_ftp.c:556-563 | an edit is recorded with the growth so far plus its own, and the link is marked: it is marked exactly if it has edits |
| SeqTranslate.TranslationInverts | src/tunneld/libalias/alias_db.c:2058-2193 | between two edits, sequence numbers move by D and acknowledgments of the moved numbers move back by the same D |
| SeqTranslate.LookupIsRight | src/tunneld/libalias/alias_db.c:2058-2193 | what the circular log says of a position inside the window is the total growth behind it exactly if the last edit behind is among the last three, or that growth is 0 |
| SeqTranslate.LookupForgets | src/tunneld/libalias/alias_db.c:2160-2193 | after four edits a position behind the first only is not moved, although the stream had grown there |
| SeqTranslate.SendAndAck | src/tunneld/libalias/alias_db.c:2058-2193 | a number sent and its acknowledgment, in the 32-bit fields |
| LinkTable.BestInIsBest | src/tunneld/libalias/alias_db.c:1254-1377 | the best link of one chain is a best link of the whole table, by specificity |
| LinkTable.AliasDb.FindExactOut | src/tunneld/libalias/alias_db.c:1167-1196 | finds an exact match exactly if one exists anywhere |
| LinkTable.AliasDb.FindBestIn | src/tunneld/libalias/alias_db.c:1254-1329 | a match of the best specificity over the whole table |
| LinkTable.AliasDb.GetNewPort | src/tunneld/libalias/alias_db.c:585-695 | an automatic choice is the first port tried that nothing answers for, or only a partial link the new link outranks, and that can be bound where that is asked for; there is none exactly if no trial suits |
| LinkTable.KeepsPort | src/tunneld/libalias/alias_db.c:585-695 | where ports are to stay the same a port that suits is kept, and any other choice is at least ALIAS_PORT_BASE |
| LinkTable.AliasDb.AddLink | src/tunneld/libalias/alias_db.c:993-1140 | a new link with these fields joins both indexes and the counters; none is made exactly if no port was found |
| LinkTable.AliasDb.DeleteLink | src/tunneld/libalias/alias_db.c:914-990 | a link leaves both indexes and the counters unless it is permanent |
| LinkTable.AliasDb.ReLink | src/tunneld/libalias/alias_db.c:1142-1166 | the replacement is there and the old link gone, unless permanent |
| LinkTable.AliasDb.FindLinkOut1 | src/tunneld/libalias/alias_db.c:1168-1221 | an exact match if there is one, else a partial link replaced by an exact one with its alias |
| LinkTable.AliasDb.FindLinkIn1 | src/tunneld/libalias/alias_db.c:1254-1377 | the best match, under exactly the alias address asked for; a partial link or a server pool is replaced by a full link |
| LinkTable.AliasDb.IncrementalCleanup | src/tunneld/libalias/alias_db.c:868-911 | removes exactly the expired links of one chain, sparing connected TCP links |
| NatEngine.AnswerIsUnique | src/tunneld/libalias/alias_db.c:1379-1407 | in a clean table a full incoming key is answered by the one link that has it |
| NatEngine.StaysClean | src/tunneld/libalias/alias_db.c:585-695 | a link added on a free port keeps incoming keys distinct |
| NatEngine.FindOut | src/tunneld/libalias/alias_db.c:1454-1476 | the link found or made for an outgoing packet is one for its key; an exact match is always found, none is made unless asked for, and if that is asked for there is none only if no port is left |
| NatEngine.FindIn | src/tunneld/libalias/alias_db.c:1582-1622 | there is no link exactly if nothing answers and none is to be made or incoming packets are denied; a link made is for the key and the target host; none is made unless asked for; the live link with the packet's key is the one found; in every table the alias address of the link is the destination of the packet, the default one for 0.0.0.0 |
| NatPackets.UdpAliasOut | src/tunneld/libalias/alias.c:808-882 | source rewritten to the alias, both covered sums kept |
| NatPackets.UdpAliasIn | src/tunneld/libalias/alias.c:734-805 | ignored, with packet and table unchanged, exactly if nothing answers and incoming packets are denied; otherwise the destination is rewritten to the original, or to the target host for an unsolicited packet, the IP sum kept; a UDP sum is kept exactly unless the packet was sent to 0.0.0.0 and the default alias address is not a multiple of 65535 |
| NatPackets.WildcardLosesSum | src/tunneld/libalias/alias.c:734-805 | a packet to 0.0.0.0 taken for one to the alias address 10.0.0.1 loses its sum, whatever it carries |
| NatPackets.TcpAliasOut | src/tunneld/libalias/alias.c:999-1158 | source rewritten, the sequence number moved by the growth of the link's edits that end by it, both sums kept |
| NatPackets.TcpAliasIn | src/tunneld/libalias/alias.c:886-996 | ignored exactly if nothing answers and incoming packets are denied or only proxied ones are wanted; destination rewritten, the acknowledgment moved back by the growth of the edits behind it, the sums as for UDP |
| NatPackets.NumbersFollowEdits | src/tunneld/libalias/alias.c:952-958 | what a link does to a number is to move it by the growth of the edits behind it, as long as the last of them is kept; without edits nothing is moved |
| NatPackets.ConnectedExactly | src/tunneld/libalias/alias.c:162-203 | one side of a connection is taken for connected exactly if it was opened and then neither finished nor reset |
| NatPackets.IcmpAliasOut1 | src/tunneld/libalias/alias.c:461-500 | identifier and source of an echo packet rewritten, sums kept |
| NatPackets.IcmpAliasIn1 | src/tunneld/libalias/alias.c:268-312 | ignored exactly if nothing answers and incoming packets are denied; identifier and destination rewritten back, sums kept |
| NatPackets.IcmpAliasIn2 | src/tunneld/libalias/alias.c:314-421 | an error about a packet sent out quotes it as the host sent it, both sums kept; no link is ever made, and one that nothing answers for is ignored |
| NatPackets.IcmpAliasOut2 | src/tunneld/libalias/alias.c:502-625 | an error about a packet that came in quotes the alias, both sums kept; no link is ever made |
| NatRoundTrip.RunAll | src/tunneld/libalias/alias_db.c:868-1661 | any run without redirects, proxies, helpers or partial links keeps incoming keys distinct; in every step of its trace only a sweep removes links, and exactly those of the chain it has come to that are expired and not connected TCP links |
| NatRoundTrip.OriginalIsSource | src/tunneld/libalias/alias_db.c:1952-1960 | a link gives back its source address exactly if that is not the wildcard |
| NatRoundTrip.UdpRoundTrip | src/tunneld/libalias/alias.c:734-882 | unless no port was left the packet has a link, which only a sweep can take away; while it lives, every reply that mirrors the packet sent out, whatever it carries, reaches the host and port the packet came from, its sums kept |
| NatRoundTrip.TcpRoundTrip | src/tunneld/libalias/alias.c:886-1158 | the same for TCP, with any sequence number and flags; a position behind an edit leaves moved by the growth D of the edits behind it, and an acknowledgment of that reaches the host as one of the position |
| NatRoundTrip.EchoRoundTrip | src/tunneld/libalias/alias.c:268-500 | the same for every echo reply with the identifier sent out |
| NatRoundTrip.ErrorRoundTrip | src/tunneld/libalias/alias.c:314-421 | every ICMP error that quotes the packet as it was sent out, UDP, TCP or echo, reaches the host that sent it and quotes it as the host sent it, its sums kept |
| NatProxy.RedirectOut | src/tunneld/libalias/alias.c:1018-1050 | a packet redirected to a proxy server keeps both covered sums, and where it was meant to go is remembered |
| NatProxy.RestoreIn | src/tunneld/libalias/alias.c:913-989 | an incoming packet is restored, proxied or not: the address and the port remembered replace the source, each unless it is 0; the IP sum is kept, and the TCP sum exactly if the alias address counts the same as the destination, with what the two different tests for 0 add on either side |
| NatProxy.ProxyRoundTrip | src/tunneld/libalias/alias.c:886-1158 | whatever the proxy server answers to a redirected packet reaches the client, from the address and port the client meant; its TCP sum is kept exactly if both of these are 0 or neither is, or the address counts the same as the server's |
| FtpMessages.FtpParser.ParseMessage | src/tunneld/libalias/alias_ftp.c:171-458 | the character loops of the four parsers: a message is accepted exactly if it has the format of its kind, and only then its address (if it has one) and port are remembered |
| FtpMessages.ParsesFormat | src/tunneld/libalias/alias_ftp.c:171-458 | the state machine of a parser accepts exactly the messages of its format, an ordered list of literals, blanks, delimiters and numbers, and takes from them the address modulo 2^32 and the port modulo 2^16 |
| FtpMessages.OneReading | src/tunneld/libalias/alias_ftp.c:171-458 | a message can be read in one way only |
| FtpMessages.PrintThenParse | src/tunneld/libalias/alias_ftp.c:508-546 | each of the four messages, for every IPv4 address and every port, is accepted by its parser and gives them back |
| KeepStat.CompareIsLess | src/ipstatd/src/ipstatd.c:361-378 | the truncated differences of the comparison order 64-bit keys as meant |
| KeepStat.Find | src/ipstatd/src/ipstatd.c:358-384 | the binary search finds the entry of a key or the place where it belongs |
| KeepStat.Stats.constructor | src/ipstatd/src/ipstatd.c:82-126 | 768 buckets and a spare on distinct blocks, all empty |
| KeepStat.Stats.KeepIp | src/ipstatd/src/ipstatd.c:341-403 | one packet is counted in the bucket of its hash and nowhere else; buckets hold only pairs of their hash and stay sorted and apart; a full bucket starts over on the spare block |
| KeepStat.Stats.Swap | src/ipstatd/src/net.c:731-745 | STAT exchanges the live table and the printed one |
| KeepStat.Stats.ClearPrinted | src/ipstatd/src/net.c:545-550 | the end of a dump empties the printed table and no other |
| KeepStat.RunIsExact | src/ipstatd/src/ipstatd.c:341-403 | over any run of packets, STAT commands and ends of dumps, a bucket counts exactly the packets hashed to it since it was last emptied: after an event that emptied it, with none since |
| KeepStat.CountsOnce | src/ipstatd/src/ipstatd.c:341-403 | no other counters are exact since the last emptying |
| KeepStat.Observe | src/ipstatd/src/ipstatd.c:341-486 | a packet is counted in the table it belongs to, and changes no bucket of the printed table; a blocked one changes none of the live table either |
| KeepStat.Run | src/ipstatd/src/ipstatd.c:341-403 | the real tables, driven by such a run, hold exactly those counts |
| StatDump.WriteStat | src/ipstatd/src/net.c:64-105 | whole lines of the next entries, as many as fit, and where to go on |
| StatDump.WholeDump | src/ipstatd/src/net.c:64-105 | however often it is interrupted, the pieces are the lines of all entries, once each and in order |
| StatDump.BufferSuffices | src/ipstatd/src/net.c:77-90 | no line is longer than 74 characters, so a drained buffer always takes one |
| StatText.LineTells | src/ipstatd/src/net.c:77-87 | the numbers of a line, with tabs and dots between them, are the octets of the low 32 bits of both addresses, the packets and the bytes |
| StatText.LineIsUnique | src/ipstatd/src/net.c:77-87 | no two different stored entries share a line |
| StatText.TextTells | src/ipstatd/src/net.c:64-105 | a whole dump is read as one account for each entry, in order |
| StatText.TextIsUnique | src/ipstatd/src/net.c:64-105 | two tables with the same text have the same entries |
| StatServer.Clients.Accept | src/ipstatd/src/net.c:379-423 | a new connection takes the first free place, starts untrusted and disturbs nobody; with none free nothing changes |
| StatServer.Clients.Close | src/ipstatd/src/net.c:879-903 | a closed connection gives up the dump if it had it |
| StatServer.Clients.Dump | src/ipstatd/src/net.c:536-567 | a piece of the dump keeps what was said and the rest of the table together the same and fills the buffer; when the dump ends everything has been said |
| StatServer.Clients.Prepare | src/ipstatd/src/net.c:466-581 | what each state of a connection waits for; only the connection that dumps changes the printed table, and only at the end |
| StatServer.ReadiedKeeps | src/ipstatd/src/net.c:485-531 | a connection that waits for its client is closed exactly if its time is up, and any other only if it is to be |
| StatServer.Clients.Written | src/ipstatd/src/net.c:585-593 | what the socket takes comes off the buffer and nothing is lost |
| StatServer.Clients.Authorize | src/ipstatd/src/net.c:652-703 | a connection becomes trusted only by the right digest at the right time; anything else ends it |
| StatServer.Clients.Received | src/ipstatd/src/net.c:593-800 | what each command makes of its connection; only a trusted connection begins a dump, only if nobody dumps, and then the live table is set aside |
| StatServer.Fulfilled | src/ipstatd/src/net.c:64-105 | a connection that is given the lines of all remaining entries has been told all it was promised |
| StatServer.Kept | src/ipstatd/src/net.c:64-105 | a piece of the dump takes nothing from what was promised and adds nothing |
| StatServer.Server.Capture | src/ipstatd/src/ipstatd.c:341-403 | a packet counted by keepstat_ip, in the memory both tables share and with the spare block, leaves every connection and every entry of the printed table alone |
| StatServer.Server.Prepare | src/ipstatd/src/net.c:466-581 | making a connection ready changes the counters only by the end of its dump, which empties the printed table |
| StatServer.Server.Step | src/ipstatd/src/net.c:582-806 | a connection that gets on changes the counters only by STAT, which makes the table that was live the printed one |
| StatServer.Server.ServeConn | src/ipstatd/src/net.c:453-806 | one call makes each open connection ready in turn and then lets each get on that is ready for what it waits for; after each of these steps at most one connection dumps, the one statsock names, and every live counter is exact |
| StatRun.StepBegins | src/ipstatd/src/net.c:724-745 | only STAT, on an authorized connection, makes it dump, from the first entry of what was live |
| StatRun.StepGoes | src/ipstatd/src/net.c:453-806 | while a connection dumps, neither packets nor other connections change the table or what it was promised |
| StatRun.StepEnds | src/ipstatd/src/net.c:536-567 | a connection that stops to dump and is still open has been told all of it and is to be closed |
| StatRun.StepTrusts | src/ipstatd/src/net.c:652-703 | only the right digest makes a connection trusted |
| StatRun.DumpIsWhole | src/ipstatd/src/net.c:64-806 | a dump that goes on for any number of steps is the same as one written at once: the stamp, and then the lines of the whole table as it was at STAT |
| StatRun.TrustIsEarned | src/ipstatd/src/net.c:453-806 | whoever is trusted at any moment of a run has shown the right digest on the socket it still has |
| StatRun.AllDelivered | src/ipstatd/src/net.c:536-592 | the socket has taken all the server had to say when it closes such a connection, unless writing to it has failed |
| StatRun.RunIsFaithful | src/ipstatd/src/net.c:453-806 | in every run of steps, each dump that ends with its connection open is whole, exact and earned |
| StatRun.Run | src/ipstatd/src/ipstatd.c:300-403 | the real server, driven by any sequence of packets, connections and calls of serve_conn, goes through such a run only |
| StatRun.TableIsLegible | src/ipstatd/src/net.c:64-105 | the text of a table reports a pair with some packets and bytes exactly if so many were counted of it since its bucket was last emptied |
| StatRun.RunInPrint | src/ipstatd/src/ipstatd.c:300-403 | in every run of the server that prints with its own format, a client that stays connected to the end of its dump has been told a text that gives exactly the counters of the moment of STAT |

## Left out

- Kernel and system effects: allocation failure, interrupt levels, callouts and timers, the clock (a parameter), sockets, select and poll readiness (parameters), logging, packet capture.
- altq_rmclass.h is not part of this model; its constants and TV_DELTA are parameters, and the statistics counters and trace hooks are omitted.
- The scheduler's classes are records in numbered columns, not linked heap objects: aliasing between class pointers and freed memory is not captured. Deleting a class whose packets are still with the driver leaves its number in the slots, where the source leaves dangling pointers.
- CbqQueue: a red queue of the scheduler is the sequence HashFairQueue implements; RIO queues and clearing the DS field are omitted.
- CbqDequeue.DelayAction: the callout that wakes the class is omitted; waking is Restart.
- The fixed overlimit action of a class is the delay action; rmc_root_overlimit is never reached because a class without a parent is never refused (CbqDequeue.UnderLimit).
- CbqRate.RateLaw: TV_DELTA is a parameter that is not to run ahead of the clock; while a class is over its limit its average is cut off at minidle, so that there is no such bound.
- CbqHistory.Run: a request its caller must not make is refused in the model, where the source goes on with it; flushing a polled class makes the next remove panic (CbqNext.Cached).
- The twins in src/ffq/freebsd of altq_rmclass.c, altq_classq.h and red_addq are the same algorithms; the flow valve there is dead code.
- PowTable.Wtab.constructor: the reference counts of shared tables are omitted.
- ClassQueue.Queue.GetQRandom: the random draw is a parameter.
- HashFairQueue.RedGetQ: the idle mark of RED and its time are omitted.
- HashFairQueue.RedAddQ: reading the addresses out of the packet header is a function of header fields; log messages are omitted.
- LinkTable.AliasDb.GetNewPort: the random draws and whether a socket could be bound are parameters.
- LinkTable: firewall holes, fragment links, PPTP call identifiers, protocol links and server pool setup are omitted; the expire time of address and PPTP links, which the source leaves unset, is taken as 60.
- LinkTable.AliasDb.IncrementalCleanup: the schedule on which HouseKeeping calls it is omitted.
- Checksum.MarkEcn: missing or stale packet tags and the IPv6 case are omitted.
- NatPackets: packets for application helpers (CUSeeMe, IRC, NetBIOS, RTSP, PPTP, FTP payload) are handed over; redirected packets are NatProxy's.
- NatProxy: which packets a proxy rule redirects, and telling the server the destination in the packet (ProxyModify), are omitted; that the link keeps what it is to remember is taken for granted.
- NatPackets.UdpAliasIn: a UDP checksum that becomes 0 is not replaced by 65535, as in the source.
- NatRoundTrip.TcpRoundTrip: the edits of a link are those it has; recording one (SeqTranslate.TcpDat.RecordEdit) is not a step of the run, for the helper that does it edits the payload.
- NatRoundTrip: the default alias address and the target address do not change during a run.
- FtpMessages: assembling the packet around the new message is omitted.
- KeepStat.Stats.KeepIp: contents of a full bucket are lost, as in the source; packet lengths are not negative.
- StatServer: the texts of the load, port, protocol and help replies are parameters, the stop command and the debug commands are omitted, reading half a line is an input that changes nothing, and the countdown of timeouts is omitted.
- StatServer.Server.Join: a descriptor returned by accept is not in use; in the model nothing happens if it is.
- StatRun.Run: a stamp too long for the buffer is cut short by the source and omitted by the model.
- The other programs of the repository (billing, user interface, mail, traffic monitors, login tools) are omitted.
