/** The promises of the WORK protocol, in every state that the server can reach. */
module WorkTheorems {
  import opened WorkProtocol
  import opened WorkEffects
  import opened WorkInvariant
  import opened WorkSteps
  import opened Server
  import S = Search

  lemma ClientInv(sys: System, i: nat)
    requires Reachable(sys) && i < |sys.clients|
    ensures Inv(sys.clients[i])
  {
    hide Reachable, Inv, LiveWorks;
    ReachableInv(sys);
  }

  predicate Alive(t: Thread)
  {
    t.phase != Dead && t.phase != Pending
  }

  /** At most one command thread of a slot is alive, although a flag of 0 does not mean
      that the slot is idle. */
  lemma OneThreadPerSlot(sys: System, i: nat, u: nat, v: nat)
    requires Reachable(sys) && i < |sys.clients|
    requires u < |sys.clients[i].threads| && v < |sys.clients[i].threads|
    requires Alive(sys.clients[i].threads[u]) && Alive(sys.clients[i].threads[v])
    requires sys.clients[i].threads[u].slot == sys.clients[i].threads[v].slot
    ensures u == v
  {
    hide Reachable, ThreadsOk, OwnedOk, QueueOk, HeadsOk, HistoryOk, RepliesOk, PermitsOk;
    ClientInv(sys, i);
    SlotIsExclusive(sys.clients[i], u, v);
  }

  /** The threads of the first n slots that have not ended. */
  ghost function LiveBelow(c: Client, n: nat): (s: set<nat>)
  {
    set u: nat | u < |c.threads| && c.threads[u].phase != Dead && c.threads[u].slot < n
  }

  predicate LivesIn(c: Client, u: nat, slot: nat)
  {
    u < |c.threads| && c.threads[u].phase != Dead && c.threads[u].slot == slot
  }

  lemma LiveNext(c: Client, n: nat)
    requires OwnedOk(c)
    ensures |LiveBelow(c, n + 1)| <= |LiveBelow(c, n)| + 1
  {
    hide OwnedOk;
    if u: nat :| LivesIn(c, u, n) {
      forall v: nat | LivesIn(c, v, n) ensures v == u { SlotIsExclusive(c, u, v); }
      forall v | v in LiveBelow(c, n + 1) ensures v in LiveBelow(c, n) + {u} {
        if v !in LiveBelow(c, n) { assert LivesIn(c, v, n); }
      }
      assert LiveBelow(c, n + 1) == LiveBelow(c, n) + {u};
    } else {
      forall v | v in LiveBelow(c, n + 1) ensures v in LiveBelow(c, n) { assert !LivesIn(c, v, n); }
      assert LiveBelow(c, n + 1) == LiveBelow(c, n);
    }
  }

  lemma {:induction false} OnePerSlot(c: Client, n: nat)
    requires OwnedOk(c)
    ensures |LiveBelow(c, n)| <= n
  {
    hide OwnedOk;
    if n == 0 {
      assert LiveBelow(c, n) == {};
    } else {
      OnePerSlot(c, n - 1);
      LiveNext(c, n - 1);
    }
  }

  /** A client has 20 slots, so no more than 20 command threads that have not ended. */
  lemma TwentySlots(sys: System, i: nat)
    requires Reachable(sys) && i < |sys.clients|
    ensures var c := sys.clients[i];
            && |c.flags| == 20 && |c.pool| == 20
            && |set u: nat | u < |c.threads| && c.threads[u].phase != Dead| <= 20
  {
    hide Reachable, OwnedOk, QueueOk, HeadsOk, HistoryOk, RepliesOk, PermitsOk, S.Inv;
    ClientInv(sys, i);
    var c := sys.clients[i];
    OnePerSlot(c, 20);
    assert (set u: nat | u < |c.threads| && c.threads[u].phase != Dead) == LiveBelow(c, 20);
  }

  /** The queue never holds a slot number twice. */
  lemma QueueHasNoDuplicates(sys: System, i: nat, k: nat, l: nat)
    requires Reachable(sys) && i < |sys.clients| && k < l < |sys.clients[i].queue|
    ensures sys.clients[i].queue[k] != sys.clients[i].queue[l]
  {
    hide Reachable, ThreadsOk, OwnedOk, HeadsOk, RepliesOk, PermitsOk;
    ClientInv(sys, i);
    var c := sys.clients[i];
    QueuedIncreasing(c);
    if c.queue[k] == c.queue[l] {
      SlotIsExclusive(c, c.queued[k], c.queued[l]);
    }
  }

  /** Although the check of the head and the removal are separate critical sections,
      the removal takes out the caller's own id. */
  lemma PopTakesOwnId(sys: System, i: nat, u: nat)
    requires Reachable(sys) && i < |sys.clients| && In(sys.clients[i], u, Popping)
    ensures var c := sys.clients[i];
            c.queue != [] && c.queue[0] == c.threads[u].slot && c.queued != [] && c.queued[0] == u
  {
    hide Reachable, PermitsOk, S.Inv;
    ClientInv(sys, i);
    var c := sys.clients[i];
    ThreadIsOk(c, u);
    FirstInQueue(c, u);
  }

  // ------------------------------------------------------------ order of replies

  predicate IsSubsequence(s: seq<nat>, t: seq<nat>)
  {
    if s == [] then true
    else if t == [] then false
    else if s[0] == t[0] then IsSubsequence(s[1..], t[1..])
    else IsSubsequence(s, t[1..])
  }

  lemma {:induction false} IncreasingSubsequence(s: seq<nat>, t: seq<nat>)
    requires Increasing(s) && Increasing(t) && forall i :: 0 <= i < |s| ==> s[i] in t
    ensures IsSubsequence(s, t)
    decreases |t|
  {
    if s != [] {
      assert s[0] in t;
      var s', t' := s[1..], t[1..];
      assert Increasing(s') && Increasing(t');
      if s[0] == t[0] {
        forall i | 0 <= i < |s'| ensures s'[i] in t' {
          assert s'[i] == s[i + 1] && s[i + 1] in t && s[0] < s[i + 1];
        }
        IncreasingSubsequence(s', t');
      } else {
        forall i | 0 <= i < |s| ensures s[i] in t' {
          assert s[i] in t && s[0] in t;
          var k :| 0 <= k < |t| && t[k] == s[0];
          assert t[0] < t[k];
        }
        IncreasingSubsequence(s, t');
      }
    }
  }

  function Senders(replies: seq<Reply>): (s: seq<nat>)
    ensures |s| == |replies|
    ensures forall i :: 0 <= i < |replies| ==> s[i] == replies[i].uid
  {
    seq(|replies|, i requires 0 <= i < |replies| => replies[i].uid)
  }

  /** Works leave the queue in the order they were admitted, each work replies at most
      once, and the replies go out in the order of admission. */
  lemma RepliesFollowAdmission(sys: System, i: nat)
    requires Reachable(sys) && i < |sys.clients|
    ensures var c := sys.clients[i];
            && c.admitted == c.popped + c.queued
            && |c.queue| == |c.queued|
            && (forall k :: 0 <= k < |c.queue| ==> c.queued[k] < |c.threads| && c.queue[k] == c.threads[c.queued[k]].slot)
            && Increasing(c.admitted)
            && Increasing(Senders(c.replies))
            && IsSubsequence(Senders(c.replies), c.admitted)
  {
    hide Reachable, ThreadsOk, OwnedOk, HeadsOk, PermitsOk, Queued;
    ClientInv(sys, i);
    var c := sys.clients[i];
    IncreasingSubsequence(Senders(c.replies), c.admitted);
  }

  /** Every reply carries a nonce that the check accepts for its work, from the range
      that was asked for, and the least such nonce of the interval it was found in. */
  lemma RepliesAreSolutions(sys: System, i: nat, k: nat)
    requires Reachable(sys) && i < |sys.clients| && k < |sys.clients[i].replies|
    ensures var c := sys.clients[i]; var r := c.replies[k];
            && r.uid < |c.threads|
            && var job := c.threads[r.uid].job; var writer := c.threads[r.uid].search.writer;
            && S.JobOk(job)
            && r.nonce != 0 && job.accepts(r.nonce) && job.n <= r.nonce < S.MAX64
            && writer < job.threads && S.InRange(job.n, job.threads, writer, r.nonce)
            && forall x: nat :: S.InRange(job.n, job.threads, writer, x) && job.accepts(x) ==> r.nonce <= x
  {
    hide Reachable, ThreadsOk, OwnedOk, QueueOk, HeadsOk, HistoryOk, PermitsOk, S.Inv;
    ClientInv(sys, i);
    var c := sys.clients[i];
    var t := c.threads[c.replies[k].uid];
    ThreadIsOk(c, c.replies[k].uid);
    S.WriteOnce(t.job, t.search, []);
  }

  // ------------------------------------------------------------ permits and the work count

  ghost function SearchingUids(c: Client): (s: set<nat>)
  {
    set u: nat | u < |c.threads| && c.threads[u].phase == Searching
  }

  /** The works that were cancelled between sem_wait and sem_post. */
  ghost function LeakedUids(c: Client): (s: set<nat>)
  {
    set u: nat | u < |c.threads| && c.threads[u].leaked
  }

  /** Three permits: in the semaphore, with a searching work, or lost with a work that
      was cancelled while it searched. */
  lemma PermitAccounting(c: Client)
    requires Inv(c)
    ensures c.permits + |SearchingUids(c)| + |LeakedUids(c)| == PERMITS
  {
    hide SlotsOk, OwnedOk, QueueOk, HeadsOk, HistoryOk, RepliesOk, S.Inv;
    assert SearchingUids(c) !! LeakedUids(c);
    assert Holders(c) == SearchingUids(c) + LeakedUids(c);
  }

  lemma PermitsBound(sys: System, i: nat)
    requires Reachable(sys) && i < |sys.clients|
    ensures var c := sys.clients[i];
            && c.permits + |SearchingUids(c)| + |LeakedUids(c)| == 3
            && |SearchingUids(c)| <= 3
  {
    hide Reachable, Inv;
    ClientInv(sys, i);
    PermitAccounting(sys.clients[i]);
  }

  /** A work that is cancelled while it searches takes its permit along. */
  lemma CancelLosesPermit(c: Client, count: int, u: nat)
    requires Inv(c) && In(c, u, Searching) && c.threads[u].request
    ensures Enabled(c, Cancel(u)) && u !in LeakedUids(c)
    ensures LeakedUids(Apply(c, count, Cancel(u))) == LeakedUids(c) + {u}
    ensures Apply(c, count, Cancel(u)).permits == c.permits
  {
    hide Inv;
    ThreadIsOk(c, u);
  }

  /** A lost permit stays lost. */
  lemma LeaksStay(c: Client, count: int, a: Action)
    requires Inv(c) && Enabled(c, a)
    ensures LeakedUids(c) <= LeakedUids(Apply(c, count, a))
  {
    hide Inv, S.Next, S.Initial;
    forall u: nat | u in LeakedUids(c) ensures u in LeakedUids(Apply(c, count, a)) {
      ThreadIsOk(c, u);
      LeakStays(c, count, a, u);
    }
  }

  lemma LeakStays(c: Client, count: int, a: Action, u: nat)
    requires Enabled(c, a) && u < |c.threads| && c.threads[u].leaked && ThreadOk(c.threads[u])
    ensures u < |Apply(c, count, a).threads| && Apply(c, count, a).threads[u].leaked
  {
    hide ThreadOk, Enabled, Apply, Acted, CanAct, Victim;
    SeenFrom(c, count, a, u);
    if !OfClient(a) && Actor(c, a) == u { LeakedActed(c.threads[u], a); }
  }

  lemma LeakedActed(t: Thread, a: Action)
    requires !OfClient(a) && CanAct(t, a) && t.leaked && ThreadOk(t)
    ensures Acted(t, a).leaked
  {
    hide S.Enabled, S.Next, S.JobOk, S.Inv, AllStopped;
  }

  /** After three such cancellations the client's semaphore is empty for good: no work
      of this client will ever search again. */
  lemma ThreeLeaksStarve(c: Client, count: int, a: Action, u: nat)
    requires Inv(c) && |LeakedUids(c)| == PERMITS && Enabled(c, a)
    ensures c.permits == 0 && SearchingUids(c) == {} && a != TakePermit(u)
    ensures |LeakedUids(Apply(c, count, a))| == PERMITS
  {
    hide Core, S.Inv, S.Next, S.Initial, Apply;
    PermitAccounting(c);
    StepInv(c, count, a);
    PermitAccounting(Apply(c, count, a));
    LeaksStay(c, count, a);
    Subset(LeakedUids(c), LeakedUids(Apply(c, count, a)));
  }

  /** So it is in every state that can still be reached. */
  lemma {:induction false} StarvedForever(sys: System, events: seq<Event>, i: nat)
    requires SysInv(sys) && IsRun(sys, events) && i < |sys.clients| && |LeakedUids(sys.clients[i])| == PERMITS
    ensures var sys' := After(sys, events);
            i < |sys'.clients| && sys'.clients[i].permits == 0 && SearchingUids(sys'.clients[i]) == {}
    decreases |events|
  {
    hide Inv, LeakedUids, SearchingUids, LiveWorks, Enabled, Apply;
    var c := sys.clients[i];
    assert Inv(c);
    if events == [] {
      StarvedNow(c);
    } else {
      var e := events[0];
      HappenInv(sys, e);
      if e.Act? && e.c == i { ThreeLeaksStarve(c, sys.count, e.a, 0); }
      StarvedForever(Happen(sys, e), events[1..], i);
    }
  }

  lemma StarvedNow(c: Client)
    requires Inv(c) && |LeakedUids(c)| == PERMITS
    ensures c.permits == 0 && SearchingUids(c) == {}
  {
    hide Inv;
    PermitAccounting(c);
  }

  lemma {:induction false} Subset(a: set<nat>, b: set<nat>)
    requires a <= b
    ensures |a| <= |b|
  {
    if a != {} {
      var x :| x in a;
      Subset(a - {x}, b - {x});
    }
  }

  /** The global work count is the number of admitted works, over all clients, whose
      cleanup has not begun, and stays between 0 and 10. */
  lemma WorkCountIsExact(sys: System)
    requires Reachable(sys)
    ensures sys.count == |LiveWorks(sys.clients)| && 0 <= sys.count <= 10
  {
    hide Reachable, Inv, LiveWorks;
    ReachableInv(sys);
  }

  /** A WORK that the client is ready for is admitted if and only if the count is below
      10; one that is not changes neither queue nor count, and its thread is no WORK. */
  lemma AdmittedIff(c: Client, count: int, job: S.Job)
    requires c.pc.Ready? && S.RangeOk(job.n, job.threads)
    ensures Enabled(c, WorkCommand(job))
    ensures var c' := Apply(c, count, WorkCommand(job));
            && |c'.threads| == |c.threads| + 1
            && (c'.threads[|c.threads|].kind == Work <==> count < 10)
            && (c'.admitted == c.admitted + [|c.threads|] <==> count < 10)
            && (CountAfter(c, count, WorkCommand(job)) == count + 1 <==> count < 10)
            && (count >= 10 ==> c'.queue == c.queue && c'.admitted == c.admitted && CountAfter(c, count, WorkCommand(job)) == count)
  {
    hide S.Initial;
  }
}
