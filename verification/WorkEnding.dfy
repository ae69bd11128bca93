/** Without new commands the server comes to rest: every run is bounded, and at rest
    every work has replied or was cancelled, unless a search found nothing or the
    client has lost its three permits. */
module WorkEnding {
  import opened Containers
  import opened Slots
  import opened WorkProtocol
  import opened WorkEffects
  import opened WorkInvariant
  import opened WorkSteps
  import opened Server
  import opened WorkTheorems
  import opened WorkProgress
  import opened WorkReplies
  import S = Search

  // ------------------------------------------------------------ one thread

  function PhaseRank(p: Phase): (r: nat)
  {
    match p
    case Pending => 14
    case Starting => 13
    case Handling => 13
    case Aborting => 13
    case Waiting => 12
    case Searching => 11
    case AwaitingTurn => 10
    case Sending => 9
    case Sent => 8
    case JoiningBatches => 7
    case CleanupTurn => 6
    case Popping => 5
    case Resetting => 4
    case Wrapping => 3
    case Exiting => 2
    case Dead => 1
  }

  /** What a thread has left to do: its phases, its search, and being asked to end. */
  ghost function Rest(t: Thread): (r: int)
    requires ThreadOk(t)
  {
    PhaseRank(t.phase) + (if t.request then 0 else 1) + S.TotalWeight(t.job, t.search, t.job.threads)
  }

  lemma RestPositive(t: Thread)
    requires ThreadOk(t)
    ensures Rest(t) > 0
  {
    S.WeightNotNegative(t.job, t.search, t.job.threads);
  }

  lemma {:induction false} SameBatches(job: S.Job, s: S.State, s': S.State, k: nat)
    requires S.JobOk(job) && s.batches == s'.batches && k <= |s.batches|
    ensures S.TotalWeight(job, s', k) == S.TotalWeight(job, s, k)
  {
    if k > 0 { SameBatches(job, s, s', k - 1); }
  }

  lemma ActedKeepsBatches(t: Thread, a: Action)
    requires !OfClient(a) && CanAct(t, a) && !a.SearchStep?
    ensures var t' := Acted(t, a);
            t'.job == t.job && t'.search.batches == t.search.batches && t'.request == t.request
  {
    hide S.Enabled, S.Next, S.JobOk, AllStopped;
  }

  lemma ActedLowersRank(t: Thread, a: Action)
    requires !OfClient(a) && CanAct(t, a) && !a.SearchStep?
    ensures PhaseRank(Acted(t, a).phase) < PhaseRank(t.phase)
  {
    hide S.Enabled, S.Next, S.JobOk, AllStopped;
    match a
    case Spawn => assert Acted(t, a).phase == PhaseOfKind(t.kind);
    case Cancel(_) => assert Cancellable(t.phase);
    case _ =>
  }

  /** Every step of a command thread leaves it less to do. */
  lemma ActedLowers(t: Thread, a: Action)
    requires !OfClient(a) && CanAct(t, a) && ThreadOk(t) && ThreadOk(Acted(t, a))
    ensures Rest(Acted(t, a)) < Rest(t)
  {
    hide S.Next, AllStopped, S.BatchOk, S.SolutionOk, S.TotalWeight;
    if a.SearchStep? {
      S.StepLowersWeight(t.job, t.search, a.step);
    } else {
      ActedKeepsBatches(t, a);
      ActedLowersRank(t, a);
      SameBatches(t.job, t.search, Acted(t, a).search, t.job.threads);
    }
  }

  // ------------------------------------------------------------ one client

  ghost predicate AllOk(threads: seq<Thread>)
  {
    forall u: nat :: u < |threads| ==> ThreadOk(threads[u])
  }

  ghost function SumRest(threads: seq<Thread>): (r: int)
    requires AllOk(threads)
    ensures r >= 0
  {
    if threads == [] then 0
    else
      RestPositive(threads[|threads| - 1]);
      SumRest(threads[..|threads| - 1]) + Rest(threads[|threads| - 1])
  }

  lemma {:induction false} SumUpdate(threads: seq<Thread>, u: nat, t: Thread)
    requires AllOk(threads) && u < |threads| && ThreadOk(t)
    ensures AllOk(threads[u := t])
    ensures SumRest(threads[u := t]) == SumRest(threads) - Rest(threads[u]) + Rest(t)
  {
    hide ThreadOk, Rest;
    var n, threads' := |threads| - 1, threads[u := t];
    assert AllOk(threads');
    if u == n {
      assert threads'[..n] == threads[..n];
    } else {
      SumUpdate(threads[..n], u, t);
      assert threads'[..n] == threads[..n][u := t];
    }
  }

  /** What the client thread has left to do without a new command. */
  function PcRank(pc: Pc): (r: nat)
  {
    match pc
    case Closed => 0
    case Closing(s) => if s < SLOTS then 2 * (SLOTS - s) + 1 else 1
    case ClosingJoin(s) => if s < SLOTS then 2 * (SLOTS - s) else 2
    case Idle => 2 * SLOTS + 2
    case Spawning(_, _) => 2 * SLOTS + 3
    case Ready(_) => 2 * SLOTS + 4
    case Joining(_) => 2 * SLOTS + 5
    case Acquired(_) => 2 * SLOTS + 6
  }

  ghost function ClientRest(c: Client): (r: int)
    requires AllOk(c.threads)
    ensures r >= 0
  {
    PcRank(c.pc) + SumRest(c.threads)
  }

  /** No new command, and no request to a thread that has been asked already. */
  predicate Quiet(c: Client, a: Action)
    requires Enabled(c, a)
  {
    && !a.Acquire? && !a.WorkCommand? && !a.OtherCommand?
    && (a.AbortOne? ==> Victim(c, a).Some? && !c.threads[Victim(c, a).value].request)
  }

  lemma InvThreads(c: Client)
    requires Inv(c)
    ensures AllOk(c.threads) && |c.flags| == SLOTS
  {
    hide ThreadOk, OwnedOk, QueueOk, HeadsOk, HistoryOk, RepliesOk, PermitsOk;
  }

  lemma PcLowers(c: Client, a: Action)
    requires Enabled(c, a) && Quiet(c, a) && |c.flags| == SLOTS
    ensures PcRank(PcAfter(c, a)) <= PcRank(c.pc)
    ensures OfClient(a) && !a.AbortOne? ==> PcRank(PcAfter(c, a)) < PcRank(c.pc)
  {
    hide S.Enabled, AllStopped, HeadIs, Joinable, FirstFree, Victim;
  }

  lemma AskedLowers(threads: seq<Thread>, victim: Option<nat>)
    requires AllOk(threads) && (victim.Some? ==> victim.value < |threads|)
    ensures AllOk(Asked(threads, victim)) && SumRest(Asked(threads, victim)) <= SumRest(threads)
    ensures victim.Some? && !threads[victim.value].request ==> SumRest(Asked(threads, victim)) < SumRest(threads)
  {
    hide SumRest;
    if victim.Some? {
      var t := threads[victim.value];
      AskedThread(t);
      SumUpdate(threads, victim.value, t.(request := true));
    }
  }

  lemma AskedThread(t: Thread)
    requires ThreadOk(t)
    ensures ThreadOk(t.(request := true))
    ensures Rest(t.(request := true)) == Rest(t) - if t.request then 0 else 1
  {
    hide S.Inv, S.TotalWeight;
  }

  /** Every quiet action of a client leaves it less to do. */
  lemma QuietLowers(c: Client, count: int, a: Action)
    requires Inv(c) && Enabled(c, a) && Quiet(c, a)
    ensures AllOk(c.threads) && AllOk(Apply(c, count, a).threads)
    ensures ClientRest(Apply(c, count, a)) < ClientRest(c)
  {
    hide Inv, Enabled, Apply, Acted, CanAct, Victim, PcRank, PcAfter, SumRest, AllOk, S.Initial;
    var c' := Apply(c, count, a);
    InvThreads(c);
    StepInv(c, count, a);
    InvThreads(c');
    ClientPartsEffect(c, count, a);
    PcLowers(c, a);
    if OfClient(a) {
      ClientEffect(c, count, a);
      assert Created(c, count, a) == [];
      assert c'.threads == Asked(c.threads, Victim(c, a));
      AskedLowers(c.threads, Victim(c, a));
    } else {
      ThreadEffect(c, count, a);
      ActorLowers(c.threads, Actor(c, a), a, c'.threads);
    }
  }

  lemma ActorLowers(threads: seq<Thread>, u: nat, a: Action, threads': seq<Thread>)
    requires AllOk(threads) && u < |threads| && !OfClient(a) && CanAct(threads[u], a)
    requires threads' == threads[u := Acted(threads[u], a)] && AllOk(threads')
    ensures SumRest(threads') < SumRest(threads)
  {
    hide SumRest, Rest, Acted, CanAct, ThreadOk;
    assert ThreadOk(threads'[u]);
    ActedLowers(threads[u], a);
    SumUpdate(threads, u, Acted(threads[u], a));
  }

  // ------------------------------------------------------------ the server

  ghost predicate ClientsOk(clients: seq<Client>)
  {
    forall i: nat :: i < |clients| ==> AllOk(clients[i].threads)
  }

  ghost function ServerRest(clients: seq<Client>): (r: int)
    requires ClientsOk(clients)
    ensures r >= 0
  {
    if clients == [] then 0 else ServerRest(clients[..|clients| - 1]) + ClientRest(clients[|clients| - 1])
  }

  lemma {:induction false} ServerUpdate(clients: seq<Client>, i: nat, c: Client)
    requires ClientsOk(clients) && i < |clients| && AllOk(c.threads)
    ensures ClientsOk(clients[i := c])
    ensures ServerRest(clients[i := c]) == ServerRest(clients) - ClientRest(clients[i]) + ClientRest(c)
  {
    hide AllOk, ClientRest;
    var n, clients' := |clients| - 1, clients[i := c];
    assert ClientsOk(clients');
    if i == n {
      assert clients'[..n] == clients[..n];
    } else {
      ServerUpdate(clients[..n], i, c);
      assert clients'[..n] == clients[..n][i := c];
    }
  }

  lemma SysThreads(sys: System)
    requires SysInv(sys)
    ensures ClientsOk(sys.clients)
  {
    hide Inv, AllOk, LiveWorks;
    forall i: nat | i < |sys.clients| ensures AllOk(sys.clients[i].threads) {
      InvThreads(sys.clients[i]);
    }
  }

  ghost predicate QuietEvent(sys: System, e: Event)
  {
    CanHappen(sys, e) && e.Act? && Quiet(sys.clients[e.c], e.a)
  }

  lemma QuietEventLowers(sys: System, e: Event)
    requires SysInv(sys) && QuietEvent(sys, e)
    ensures SysInv(Happen(sys, e)) && ClientsOk(sys.clients) && ClientsOk(Happen(sys, e).clients)
    ensures ServerRest(Happen(sys, e).clients) < ServerRest(sys.clients)
  {
    hide Inv, AllOk, ClientRest, Quiet, Enabled, Apply, LiveWorks, ServerRest;
    HappenInv(sys, e);
    SysThreads(sys);
    SysThreads(Happen(sys, e));
    assert Inv(sys.clients[e.c]);
    QuietLowers(sys.clients[e.c], sys.count, e.a);
    ServerUpdate(sys.clients, e.c, Apply(sys.clients[e.c], sys.count, e.a));
  }

  /** A run without new commands, new clients, or repeated requests. */
  ghost predicate QuietRun(sys: System, events: seq<Event>)
    decreases |events|
  {
    events == [] || (QuietEvent(sys, events[0]) && QuietRun(Happen(sys, events[0]), events[1..]))
  }

  /** Every such run is bounded by what is left to do. */
  lemma {:induction false} QuietRunsEnd(sys: System, events: seq<Event>)
    requires SysInv(sys) && QuietRun(sys, events)
    ensures IsRun(sys, events) && ClientsOk(sys.clients) && |events| <= ServerRest(sys.clients)
    decreases |events|
  {
    hide SysInv, Happen, ServerRest, ClientsOk, Quiet;
    SysThreads(sys);
    if events != [] {
      QuietEventLowers(sys, events[0]);
      QuietRunsEnd(Happen(sys, events[0]), events[1..]);
    }
  }

  // ------------------------------------------------------------ rest

  /** What goes on by itself: no command, no ABRT at work, and nobody hangs up. */
  predicate GoesOn(e: Event)
  {
    e.Act? && !e.a.Acquire? && !e.a.WorkCommand? && !e.a.OtherCommand? && !e.a.AbortOne? && !e.a.Hangup?
  }

  predicate AllGoOn(events: seq<Event>)
  {
    forall k :: 0 <= k < |events| ==> GoesOn(events[k])
  }

  /** Nothing goes on by itself any more. Clients may be connected and idle. */
  ghost predicate AtRest(sys: System)
  {
    forall e :: GoesOn(e) ==> !CanHappen(sys, e)
  }

  lemma GoingOnIsQuiet(sys: System, e: Event)
    requires CanHappen(sys, e) && GoesOn(e)
    ensures QuietEvent(sys, e)
  {
    hide Enabled, Victim;
  }

  /** From every state the server comes to rest by itself: without a command, without
      an ABRT and without anybody hanging up. */
  lemma {:induction false} RestIsReached(sys: System) returns (events: seq<Event>)
    requires SysInv(sys)
    ensures AllGoOn(events) && IsRun(sys, events) && AtRest(After(sys, events))
    decreases (SysThreads(sys); ServerRest(sys.clients))
  {
    hide SysInv, Happen, CanHappen, ServerRest, ClientsOk, GoesOn;
    SysThreads(sys);
    if AtRest(sys) {
      events := [];
    } else {
      var e :| GoesOn(e) && CanHappen(sys, e);
      GoingOnIsQuiet(sys, e);
      QuietEventLowers(sys, e);
      var rest := RestIsReached(Happen(sys, e));
      events := [e] + rest;
      assert events[1..] == rest;
    }
  }

  /** What keeps a client from getting on: a work has searched its whole range without a
      result, or all three permits are lost. */
  ghost predicate HeldUp(c: Client)
  {
    SomeExhausted(c) || |LeakedUids(c)| >= PERMITS
  }

  lemma ProgressGoesOn(sys: System, i: nat)
    requires i < |sys.clients| && CanProgress(sys.clients[i])
    ensures !AtRest(sys)
  {
    hide Enabled;
    var c := sys.clients[i];
    if Enabled(c, Spawn) {
      assert GoesOn(Act(i, Spawn)) && CanHappen(sys, Act(i, Spawn));
    } else {
      var u: nat, a: Action :| u in c.queued && ActionOf(a, u) && Enabled(c, a);
      assert GoesOn(Act(i, a)) && CanHappen(sys, Act(i, a));
    }
  }

  /** At rest a client's queue is empty, or it is held up. */
  lemma RestMeansDone(sys: System, i: nat)
    requires Reachable(sys) && AtRest(sys) && i < |sys.clients|
    ensures sys.clients[i].queue == [] || HeldUp(sys.clients[i])
  {
    hide Reachable, Inv, AtRest, CanProgress, SomeExhausted, LeakedUids;
    if sys.clients[i].queue != [] && |LeakedUids(sys.clients[i])| < PERMITS {
      NoCircularWait(sys, i);
      if CanProgress(sys.clients[i]) { ProgressGoesOn(sys, i); }
    }
  }

  /** Then every work that was ever admitted has replied if and only if it was not
      cancelled. */
  lemma EveryWorkAnswered(sys: System, i: nat, u: nat)
    requires Reachable(sys) && AtRest(sys) && i < |sys.clients| && u in sys.clients[i].admitted
    requires !HeldUp(sys.clients[i])
    ensures u < |sys.clients[i].threads|
    ensures u in Repliers(sys.clients[i].replies) <==> !sys.clients[i].threads[u].cancelled
  {
    hide Reachable, AtRest, HeldUp, Increasing, IsSubsequence, Repliers;
    RestMeansDone(sys, i);
    RepliesFollowAdmission(sys, i);
    var c := sys.clients[i];
    assert c.queued == [];
    assert c.popped + [] == c.popped;
    RepliesIffNotCancelled(sys, i, u);
  }
}
