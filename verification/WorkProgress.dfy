/** Whether the works of a client get on: as long as a permit is left, somebody can
    always move; when all three are lost, exactly the blocked works stay where they are. */
module WorkProgress {
  import opened WorkProtocol
  import opened WorkEffects
  import opened WorkInvariant
  import opened WorkSteps
  import opened Server
  import opened WorkTheorems
  import S = Search

  // ------------------------------------------------------------ progress

  /** An action of thread u as a WORK. */
  predicate ActionOf(a: Action, u: nat)
  {
    match a
    case Start(v) => v == u
    case TakePermit(v) => v == u
    case SearchStep(v, _) => v == u
    case PostPermit(v) => v == u
    case SeeTurn(v) => v == u
    case Send(v) => v == u
    case BeginCleanup(v) => v == u
    case JoinBatches(v) => v == u
    case SeeCleanupTurn(v) => v == u
    case Pop(v) => v == u
    case _ => false
  }

  /** The client's thread creation, or some step of a queued work, can be taken now. */
  ghost predicate CanProgress(c: Client)
  {
    Enabled(c, Spawn) || exists u: nat, a: Action :: u in c.queued && ActionOf(a, u) && Enabled(c, a)
  }

  /** A searching work has tried its whole range without a result. */
  ghost predicate SomeExhausted(c: Client)
  {
    exists u: nat :: In(c, u, Searching) && S.Exhausted(c.threads[u].search)
  }

  lemma Witness(c: Client, u: nat, a: Action)
    requires u in c.queued && ActionOf(a, u) && Enabled(c, a)
    ensures CanProgress(c)
  {
  }

  lemma QueuedIsListed(c: Client, u: nat)
    requires Inv(c) && u < |c.threads| && Queued(c.threads[u])
    ensures u in c.queued
  {
    hide ThreadsOk, OwnedOk, HeadsOk, HistoryOk, RepliesOk, PermitsOk, Queued;
  }

  /** A searching work can go on searching, or post its permit, or is exhausted. */
  lemma SearchingCanProgress(c: Client, u: nat)
    requires Inv(c) && In(c, u, Searching)
    ensures CanProgress(c) || SomeExhausted(c)
  {
    hide Core, PermitsOk, CanProgress;
    ThreadIsOk(c, u);
    QueuedIsListed(c, u);
    var t := c.threads[u];
    var s := t.search;
    if s.made < |s.batches| {
      Witness(c, u, SearchStep(u, S.Make));
    } else if s.solution != 0 {
      Witness(c, u, PostPermit(u));
    } else if !S.Exhausted(s) {
      var i: nat :| i < |s.batches| && s.batches[i].pc != S.Stopped;
      var step := S.BatchCanStep(t.job, s, i);
      Witness(c, u, SearchStep(u, step));
    } else {
      assert SomeExhausted(c);
    }
  }

  lemma JoiningCanProgress(c: Client, u: nat)
    requires Inv(c) && In(c, u, JoiningBatches) && u in c.queued
    ensures CanProgress(c)
  {
    hide Core, PermitsOk, CanProgress;
    ThreadIsOk(c, u);
    var t := c.threads[u];
    if AllStopped(t.search) {
      Witness(c, u, JoinBatches(u));
    } else {
      var i: nat :| i < t.search.made && i < |t.search.batches| && t.search.batches[i].pc != S.Stopped;
      var step := S.BatchCanStep(t.job, t.search, i);
      Witness(c, u, SearchStep(u, step));
    }
  }

  /** Without a permit in the semaphore, somebody is searching or all were lost. */
  lemma WaitingCanProgress(c: Client, u: nat)
    requires Inv(c) && In(c, u, Waiting) && u in c.queued && |LeakedUids(c)| < PERMITS
    ensures CanProgress(c) || SomeExhausted(c)
  {
    hide Core, PermitsOk, CanProgress, SomeExhausted;
    if c.permits > 0 {
      Witness(c, u, TakePermit(u));
    } else {
      PermitAccounting(c);
      assert SearchingUids(c) != {};
      var v :| v in SearchingUids(c);
      SearchingCanProgress(c, v);
    }
  }

  lemma HeadFacts(c: Client)
    requires Inv(c) && c.queue != []
    ensures c.queued != [] && c.queued[0] < |c.threads|
    ensures var u := c.queued[0]; Queued(c.threads[u]) && HeadIs(c, u)
    ensures c.threads[c.queued[0]].phase == Pending ==> Enabled(c, Spawn)
  {
    hide ThreadsOk, HeadsOk, HistoryOk, RepliesOk, PermitsOk;
    assert Owned(c, c.queued[0]);
  }

  /** The head of the queue is never kept waiting by another queued work: while a
      permit is left, some step can be taken or a work has no solution. */
  lemma ClientProgress(c: Client)
    requires Inv(c) && c.queue != [] && |LeakedUids(c)| < PERMITS
    ensures CanProgress(c) || SomeExhausted(c)
  {
    hide Core, PermitsOk, CanProgress, SomeExhausted, LeakedUids;
    HeadFacts(c);
    var u := c.queued[0];
    match c.threads[u].phase
    case Pending => SpawnProgress(c);
    case Starting => Witness(c, u, Start(u));
    case Waiting => WaitingCanProgress(c, u);
    case Searching => SearchingCanProgress(c, u);
    case AwaitingTurn => Witness(c, u, SeeTurn(u));
    case Sending => Witness(c, u, Send(u));
    case Sent => Witness(c, u, BeginCleanup(u));
    case JoiningBatches => JoiningCanProgress(c, u);
    case CleanupTurn => Witness(c, u, SeeCleanupTurn(u));
    case Popping => Witness(c, u, Pop(u));
    case _ => assert false;
  }

  lemma SpawnProgress(c: Client)
    requires Enabled(c, Spawn)
    ensures CanProgress(c)
  {
  }

  /** No circular wait: as long as fewer than three works were cancelled while they
      searched, a non-empty queue means that the client or a queued work can move, or
      that a work has no solution to find. */
  lemma NoCircularWait(sys: System, i: nat)
    requires Reachable(sys) && i < |sys.clients| && sys.clients[i].queue != []
    requires |LeakedUids(sys.clients[i])| < PERMITS
    ensures CanProgress(sys.clients[i]) || SomeExhausted(sys.clients[i])
  {
    hide Reachable, Inv, CanProgress, SomeExhausted, LeakedUids;
    ClientInv(sys, i);
    ClientProgress(sys.clients[i]);
  }

  /** A queued work that cannot take a step: it waits for a permit, or it is not at the
      head, waits to be, and its batch threads have ended. */
  ghost predicate Blocked(c: Client, u: nat)
    requires u < |c.threads|
  {
    var t := c.threads[u];
    || t.phase == Waiting
    || (t.phase == AwaitingTurn && !HeadIs(c, u) && AllStopped(t.search))
    || (t.phase == CleanupTurn && !HeadIs(c, u))
  }

  /** The bound is sharp: once three permits are lost the client can move if and only if
      it is creating a thread or some queued work is not blocked. */
  lemma StarvedProgressIff(c: Client)
    requires Inv(c) && |LeakedUids(c)| == PERMITS
    ensures CanProgress(c) <==>
              c.pc.Spawning? || exists u: nat :: u in c.queued && u < |c.threads| && !Blocked(c, u)
  {
    hide Inv, LeakedUids, CanProgress, Blocked;
    StarvedNow(c);
    if c.pc.Spawning? { SpawningCan(c); }
    if u: nat :| u in c.queued && u < |c.threads| && !Blocked(c, u) {
      UnblockedCan(c, u);
    }
    if CanProgress(c) && !c.pc.Spawning? {
      var u, a := MovesBecause(c);
      QueuedIsThread(c, u);
      ThreadIsOk(c, u);
      BlockedCannot(c, u, a);
    }
  }

  lemma StarvedIsStuck(sys: System, i: nat)
    requires Reachable(sys) && i < |sys.clients| && |LeakedUids(sys.clients[i])| == PERMITS
    ensures var c := sys.clients[i];
            !CanProgress(c) <==> !c.pc.Spawning? && forall u: nat :: u in c.queued && u < |c.threads| ==> Blocked(c, u)
  {
    hide Reachable, Inv, LeakedUids, CanProgress, Blocked;
    ClientInv(sys, i);
    StarvedProgressIff(sys.clients[i]);
  }

  lemma SpawningCan(c: Client)
    requires Inv(c) && c.pc.Spawning?
    ensures CanProgress(c)
  {
    hide ThreadsOk, QueueOk, HeadsOk, HistoryOk, RepliesOk, PermitsOk;
    SpawnProgress(c);
  }

  lemma MovesBecause(c: Client) returns (u: nat, a: Action)
    requires CanProgress(c) && !c.pc.Spawning?
    ensures u in c.queued && ActionOf(a, u) && Enabled(c, a)
  {
    u, a :| u in c.queued && ActionOf(a, u) && Enabled(c, a);
  }

  lemma QueuedIsThread(c: Client, u: nat)
    requires Inv(c) && u in c.queued
    ensures u < |c.threads| && Queued(c.threads[u])
  {
    hide ThreadsOk, OwnedOk, HeadsOk, HistoryOk, RepliesOk, PermitsOk;
  }

  lemma BlockedCannot(c: Client, u: nat, a: Action)
    requires c.permits == 0 && u < |c.threads| && ActionOf(a, u) && Enabled(c, a)
    requires ThreadOk(c.threads[u])
    ensures !Blocked(c, u)
  {
    hide S.Inv;
    if a.SearchStep? && a.step != S.Make { LiveBatch(c.threads[u], a.step); }
  }

  /** A step of a batch thread means that some batch thread is there and not ended. */
  lemma LiveBatch(t: Thread, step: S.Step)
    requires ThreadOk(t) && S.Enabled(t.search, step) && step != S.Make && step != S.Cancel
    ensures !AllStopped(t.search)
  {
    assert S.BatchOk(t.job, t.search, step.i);
    assert step.i < t.search.made;
  }

  lemma UnblockedCan(c: Client, u: nat)
    requires Inv(c) && u in c.queued && u < |c.threads| && !Blocked(c, u)
    requires c.permits == 0 && SearchingUids(c) == {}
    ensures CanProgress(c)
  {
    hide Core, PermitsOk, CanProgress;
    ThreadIsOk(c, u);
    QueuedIsThread(c, u);
    assert u !in SearchingUids(c);
    match c.threads[u].phase
    case Pending => PendingSpawns(c, u);
    case Starting => Witness(c, u, Start(u));
    case AwaitingTurn => AwaitingCan(c, u);
    case Sending => Witness(c, u, Send(u));
    case Sent => Witness(c, u, BeginCleanup(u));
    case JoiningBatches => JoiningCanProgress(c, u);
    case CleanupTurn => Witness(c, u, SeeCleanupTurn(u));
    case Popping => Witness(c, u, Pop(u));
    case _ => assert false;
  }

  lemma PendingSpawns(c: Client, u: nat)
    requires Inv(c) && In(c, u, Pending)
    ensures CanProgress(c)
  {
    hide ThreadsOk, QueueOk, HeadsOk, HistoryOk, RepliesOk, PermitsOk;
    assert Owned(c, u);
    SpawnProgress(c);
  }

  lemma AwaitingCan(c: Client, u: nat)
    requires Inv(c) && In(c, u, AwaitingTurn) && u in c.queued && (HeadIs(c, u) || !AllStopped(c.threads[u].search))
    ensures CanProgress(c)
  {
    hide Core, PermitsOk, CanProgress;
    ThreadIsOk(c, u);
    var t := c.threads[u];
    if HeadIs(c, u) {
      Witness(c, u, SeeTurn(u));
    } else {
      var i: nat :| i < t.search.made && i < |t.search.batches| && t.search.batches[i].pc != S.Stopped;
      var step := S.BatchCanStep(t.job, t.search, i);
      Witness(c, u, SearchStep(u, step));
    }
  }

  /** So the work at the head of a client that cannot move waits for a permit. */
  lemma StuckHeadWaits(sys: System, i: nat)
    requires Reachable(sys) && i < |sys.clients| && |LeakedUids(sys.clients[i])| == PERMITS
    requires sys.clients[i].queue != [] && !CanProgress(sys.clients[i])
    ensures var c := sys.clients[i]; c.queued != [] && In(c, c.queued[0], Waiting)
  {
    hide Reachable, Inv, LeakedUids, CanProgress;
    ClientInv(sys, i);
    var c := sys.clients[i];
    HeadFacts(c);
    StarvedProgressIff(c);
    assert Blocked(c, c.queued[0]);
  }

  /** With three permits lost, a waiting head stays where it is: only its own
      cancellation changes that. */
  ghost predicate HeadStuck(c: Client, u: nat)
  {
    |LeakedUids(c)| == PERMITS && c.queued != [] && c.queued[0] == u && In(c, u, Waiting)
  }

  lemma HeadStaysStep(c: Client, count: int, a: Action, u: nat)
    requires Inv(c) && HeadStuck(c, u) && Enabled(c, a) && a != Cancel(u)
    ensures HeadStuck(Apply(c, count, a), u)
  {
    hide Inv, LeakedUids, Enabled, Apply, Acted, CanAct, Victim;
    ThreeLeaksStarve(c, count, a, u);
    SeenFrom(c, count, a, u);
    if !OfClient(a) && Actor(c, a) == u { WaitingOnly(c.threads[u], a); }
    QueueEffect(c, count, a);
    if a.Pop? { PopIsHead(c, a.u); }
  }

  lemma WaitingOnly(t: Thread, a: Action)
    requires t.phase == Waiting && !OfClient(a) && CanAct(t, a)
    ensures a.TakePermit? || a.Cancel?
  {
  }

  lemma PopIsHead(c: Client, v: nat)
    requires Inv(c) && Enabled(c, Pop(v))
    ensures c.queued != [] && c.queued[0] == v && c.threads[v].phase == Popping
  {
    hide PermitsOk, S.Inv;
    ThreadIsOk(c, v);
    FirstInQueue(c, v);
  }

  lemma {:induction false} HeadStaysForever(sys: System, events: seq<Event>, i: nat, u: nat)
    requires SysInv(sys) && IsRun(sys, events) && i < |sys.clients| && HeadStuck(sys.clients[i], u)
    requires Act(i, Cancel(u)) !in events
    ensures var sys' := After(sys, events); i < |sys'.clients| && HeadStuck(sys'.clients[i], u)
    decreases |events|
  {
    hide Inv, HeadStuck, LiveWorks, Enabled, Apply;
    if events != [] {
      var e := events[0];
      HappenInv(sys, e);
      assert Inv(sys.clients[i]);
      if e.Act? && e.c == i { HeadStaysStep(sys.clients[i], sys.count, e.a, u); }
      HeadStaysForever(Happen(sys, e), events[1..], i, u);
    }
  }

  /** A work that is searching and exhausted has no solution among the nonces it was
      given, except where 0 is one: then in the interval that holds 0. */
  lemma ExhaustedHasNoSolution(sys: System, i: nat, u: nat, x: nat)
    requires Reachable(sys) && i < |sys.clients| && In(sys.clients[i], u, Searching)
    requires S.Exhausted(sys.clients[i].threads[u].search)
    requires sys.clients[i].threads[u].job.n <= x < S.MAX64
    ensures var job := sys.clients[i].threads[u].job;
            S.JobOk(job) && (job.accepts(x) ==> job.n == 0 && job.accepts(0) && S.SameRange(job, 0, x))
  {
    hide Reachable, Inv, S.Inv, S.SameRange;
    ClientInv(sys, i);
    ThreadIsOk(sys.clients[i], u);
    var t := sys.clients[i].threads[u];
    JobIsOk(t);
    S.ExhaustedMeansNone(t.job, t.search, x);
  }

  lemma JobIsOk(t: Thread)
    requires ThreadOk(t)
    ensures S.JobOk(t.job)
  {
    hide S.BatchOk, S.SolutionOk;
  }
}
