/** A run in which three works are cancelled while they search, after which no work of
    the client ever searches again. */
module LostPermits {
  import opened Containers
  import opened Slots
  import opened WorkProtocol
  import opened Server
  import opened WorkTheorems
  import opened WorkProgress
  import opened WorkRuns
  import S = Search

  /** Work i, searching, in slot i; `asked` says whether an ABRT has asked it to end. */
  ghost function Searcher(i: nat, job: S.Job, asked: bool): (t: Thread)
    requires S.JobOk(job)
  {
    NewThread(i, Work, job).(phase := Searching, request := asked)
  }

  /** The same work after its cancellation. */
  ghost function Gone(i: nat, job: S.Job): (t: Thread)
    requires S.JobOk(job)
  {
    var t := Searcher(i, job, true);
    t.(phase := Dead, cancelled := true, leaked := true, search := t.search.(cancelled := true))
  }

  function Ids(lo: nat, hi: nat): (s: seq<nat>)
    requires lo <= hi
  {
    seq(hi - lo, i requires 0 <= i < hi - lo => lo + i)
  }

  // ------------------------------------------------------------ three works search

  ghost function Searchers(n: nat, job: S.Job): (c: Client)
    requires n <= 3 && S.JobOk(job)
  {
    Client(Idle, Flags(0, n), Pool(n), seq(n, i requires 0 <= i < n => Searcher(i, job, false)),
           Ids(0, n), 3 - n, Ids(0, n), Ids(0, n), [], [], {})
  }

  lemma OneMoreSearches(n: nat, job: S.Job)
    requires n < 3 && S.JobOk(job)
    ensures Leads(Alone(Searchers(n, job), n), Alone(Searchers(n + 1, job), n + 1), false)
  {
    hide Leads, S.Initial, S.JobOk, Enabled, Apply;
    var c := Searchers(n, job);
    FirstFreeIs(c.flags, n);
    BringUp(c, n, n, job, false);
    var c1 := WithWaiter(c, n, job);
    GetPermit(c1, n + 1, n, false);
    var c2 := Move(c1, n, Searching).(permits := c1.permits - 1);
    SameSearchers(c2, n + 1, job);
    LeadsOn(Alone(c, n), Alone(c1, n + 1), Alone(c2, n + 1), false);
  }

  lemma SameSearchers(c: Client, n: nat, job: S.Job)
    requires n <= 3 && S.JobOk(job)
    requires c.pc == Idle && c.permits == 3 - n && c.popped == [] && c.replies == [] && c.joined == {}
    requires c.flags == Flags(0, n) && c.pool == Pool(n)
    requires c.queue == Ids(0, n) && c.queued == Ids(0, n) && c.admitted == Ids(0, n)
    requires |c.threads| == n && forall i :: 0 <= i < n ==> c.threads[i] == Searcher(i, job, false)
    ensures c == Searchers(n, job)
  {
    hide Searcher, Flags, Pool, Ids;
    assert c.threads == Searchers(n, job).threads;
  }

  // ------------------------------------------------------------ they are cancelled

  ghost function ThreadAt(i: nat, asked: nat, gone: nat, job: S.Job): (t: Thread)
    requires S.JobOk(job)
  {
    if i == 3 then NewThread(3, Abort, NO_JOB).(phase := Aborting)
    else if i < gone then Gone(i, job) else Searcher(i, job, i < asked)
  }

  /** Of the three works the first `asked` were asked to end, and the first `gone` of
      those have ended; the ABRT, thread 3 in slot 3, is still at work. */
  ghost function Aborting3(asked: nat, gone: nat, job: S.Job): (c: Client)
    requires gone <= asked <= 3 && S.JobOk(job)
  {
    Client(Idle, Flags(gone, 4), Pool(4),
           seq(4, i requires 0 <= i < 4 => ThreadAt(i, asked, gone, job)),
           Ids(gone, 3), 0, Ids(gone, 3), Ids(0, 3), Ids(0, gone), [], {})
  }

  lemma AbortStarts(job: S.Job)
    requires S.JobOk(job)
    ensures Leads(Alone(Searchers(3, job), 3), Alone(Aborting3(0, 0, job), 3), false)
  {
    hide Leads, S.Initial, S.JobOk, Enabled, Apply;
    var c := Searchers(3, job);
    FirstFreeIs(c.flags, 3);
    OpenSlot(c, 3, 3, false);
    var c1 := Opened(c, 3);
    StartCommand(c1, 3, 3, Abort, false);
    var c2 := WithCommand(c1, 3, Abort);
    var d := Aborting3(0, 0, job);
    assert forall i: nat :: i < 4 ==> c2.threads[i] == d.threads[i];
    assert c2.threads == d.threads;
    assert c2.queue == d.queue && c2.popped == d.popped;
    assert c2.flags == Flags(0, 4) && c2.pool == Pool(4);
    LeadsOn(Alone(c, 3), Alone(c1, 3), Alone(c2, 3), false);
  }

  lemma OneMoreAsked(asked: nat, job: S.Job)
    requires asked < 3 && S.JobOk(job)
    ensures Leads(Alone(Aborting3(asked, 0, job), 3), Alone(Aborting3(asked + 1, 0, job), 3), false)
  {
    hide Leads, S.Initial, S.JobOk;
    var c, d := Aborting3(asked, 0, job), Aborting3(asked + 1, 0, job);
    assert c.queue[asked] == asked && c.pool[asked] == Some(asked);
    var threads := c.threads[asked := c.threads[asked].(request := true)];
    assert forall i: nat :: i < 4 ==> threads[i] == d.threads[i];
    assert threads == d.threads;
    Act1(c, 3, AbortOne(3, asked), d, 3, false);
  }

  /** A searching work that has made no batches and is at the head of the queue is
      cancelled, cleans up, and ends. */
  ghost function Left(c: Client, u: nat): (c': Client)
    requires u < |c.threads| && c.queue != [] && c.queued != [] && c.threads[u].slot < |c.flags|
  {
    var t := c.threads[u];
    c.(threads := c.threads[u := t.(phase := Dead, cancelled := true, leaked := true, search := t.search.(cancelled := true))],
       queue := c.queue[1..], queued := c.queued[1..], popped := c.popped + [u], flags := c.flags[t.slot := 0])
  }

  ghost function CancelledAt(c: Client, u: nat, phase: Phase): (c': Client)
    requires u < |c.threads|
  {
    var t := c.threads[u];
    Set(c, u, t.(phase := phase, cancelled := true, leaked := true, search := t.search.(cancelled := true)))
  }

  lemma CancelAndJoin(c: Client, count: int, u: nat)
    requires In(c, u, Searching) && c.threads[u].request && c.threads[u].search.made == 0
    ensures Leads(Alone(c, count), Alone(CancelledAt(c, u, CleanupTurn), count - 1), false)
  {
    hide Leads;
    Act1(c, count, Cancel(u), CancelledAt(c, u, JoiningBatches), count - 1, false);
    ThenAct(Alone(c, count), CancelledAt(c, u, JoiningBatches), count - 1, JoinBatches(u),
            CancelledAt(c, u, CleanupTurn), count - 1, false);
  }

  lemma PopAndReset(c: Client, count: int, u: nat)
    requires u < |c.threads| && c.queue != [] && c.queued != [] && c.queue[0] == c.threads[u].slot < |c.flags|
    ensures Leads(Alone(CancelledAt(c, u, CleanupTurn), count), Alone(Left(c, u), count), false)
  {
    hide Leads, Enabled, Apply;
    var c1 := CancelledAt(c, u, CleanupTurn);
    var c2 := Popped(c1, u);
    LeaveQueue(c1, count, u, false);
    ResetOnce(c2, count, u, false);
    assert Move(c2, u, Dead).threads == Left(c, u).threads;
    LeadsOn(Alone(c1, count), Alone(c2, count), Alone(Left(c, u), count), false);
  }

  lemma OneMoreGone(gone: nat, job: S.Job)
    requires gone < 3 && S.JobOk(job)
    ensures Leads(Alone(Aborting3(3, gone, job), 3 - gone), Alone(Aborting3(3, gone + 1, job), 2 - gone), false)
  {
    hide Leads, S.JobOk, Enabled, Apply;
    var c, d := Aborting3(3, gone, job), Aborting3(3, gone + 1, job);
    assert c.threads[gone] == Searcher(gone, job, true);
    CancelAndJoin(c, 3 - gone, gone);
    PopAndReset(c, 2 - gone, gone);
    LeadsOn(Alone(c, 3 - gone), Alone(CancelledAt(c, gone, CleanupTurn), 2 - gone), Alone(Left(c, gone), 2 - gone), false);
    GoneIsNext(gone, job);
  }

  lemma GoneIsNext(gone: nat, job: S.Job)
    requires gone < 3 && S.JobOk(job)
    ensures Left(Aborting3(3, gone, job), gone) == Aborting3(3, gone + 1, job)
  {
    hide S.Initial, S.JobOk;
    var c, d := Aborting3(3, gone, job), Aborting3(3, gone + 1, job);
    var l := Left(c, gone);
    assert forall i: nat :: i < 4 ==> l.threads[i] == d.threads[i];
    assert l.threads == d.threads && l.flags == d.flags;
    assert l.queue == d.queue && l.queued == d.queued && l.popped == d.popped;
  }

  // ------------------------------------------------------------ a fourth work waits

  /** The ABRT has ended too. */
  ghost function AllGone(job: S.Job): (c: Client)
    requires S.JobOk(job)
  {
    var c := Aborting3(3, 3, job);
    c.(threads := c.threads[3 := c.threads[3].(phase := Dead)], flags := Flags(0, 0))
  }

  lemma AbortEnds(job: S.Job)
    requires S.JobOk(job)
    ensures Leads(Alone(Aborting3(3, 3, job), 0), Alone(AllGone(job), 0), false)
  {
    hide Leads, S.Initial, S.JobOk;
    var c := Aborting3(3, 3, job);
    var t := c.threads[3];
    assert t == ThreadAt(3, 3, 3, job);
    assert c.flags[3 := 0] == Flags(0, 0);
    EndCommand(c, 0, 3, false);
  }

  ghost function FourthWaits(job: S.Job): (c: Client)
    requires S.JobOk(job)
  {
    WithWaiter(AllGone(job), 0, job)
  }

  lemma FourthStarts(job: S.Job)
    requires S.JobOk(job)
    ensures Leads(Alone(AllGone(job), 0), Alone(FourthWaits(job), 1), false)
  {
    hide Leads, S.Initial, S.JobOk, Enabled, Apply;
    var c := AllGone(job);
    FirstFreeIs(c.flags, 0);
    assert c.threads[0 := c.threads[0].(request := true)] == c.threads;
    BringUp(c, 0, 0, job, false);
  }

  // ------------------------------------------------------------ together

  lemma AllGoneReached(job: S.Job)
    requires S.JobOk(job)
    ensures Reachable(Alone(AllGone(job), 0))
  {
    hide Leads, Reachable, Searchers, Aborting3, AllGone, S.JobOk;
    FirstConnect();
    NobodySearches(job);
    OneMoreSearches(0, job);
    LeadsReach(Alone(Searchers(0, job), 0), Alone(Searchers(1, job), 1), false);
    OneMoreSearches(1, job);
    LeadsReach(Alone(Searchers(1, job), 1), Alone(Searchers(2, job), 2), false);
    OneMoreSearches(2, job);
    LeadsReach(Alone(Searchers(2, job), 2), Alone(Searchers(3, job), 3), false);
    AbortStarts(job);
    LeadsReach(Alone(Searchers(3, job), 3), Alone(Aborting3(0, 0, job), 3), false);
    OneMoreAsked(0, job);
    LeadsReach(Alone(Aborting3(0, 0, job), 3), Alone(Aborting3(1, 0, job), 3), false);
    OneMoreAsked(1, job);
    LeadsReach(Alone(Aborting3(1, 0, job), 3), Alone(Aborting3(2, 0, job), 3), false);
    OneMoreAsked(2, job);
    LeadsReach(Alone(Aborting3(2, 0, job), 3), Alone(Aborting3(3, 0, job), 3), false);
    OneMoreGone(0, job);
    LeadsReach(Alone(Aborting3(3, 0, job), 3), Alone(Aborting3(3, 1, job), 2), false);
    OneMoreGone(1, job);
    LeadsReach(Alone(Aborting3(3, 1, job), 2), Alone(Aborting3(3, 2, job), 1), false);
    OneMoreGone(2, job);
    LeadsReach(Alone(Aborting3(3, 2, job), 1), Alone(Aborting3(3, 3, job), 0), false);
    AbortEnds(job);
    LeadsReach(Alone(Aborting3(3, 3, job), 0), Alone(AllGone(job), 0), false);
  }

  lemma NobodySearches(job: S.Job)
    requires S.JobOk(job)
    ensures InitialClient() == Searchers(0, job)
  {
    var c := InitialClient();
    assert c.flags == Flags(0, 0) && c.pool == Pool(0);
  }

  lemma FourthIs(job: S.Job)
    requires S.JobOk(job)
    ensures var c := FourthWaits(job);
            && |c.threads| == 5 && c.pc == Idle && c.queued == [4] && c.permits == 0
            && c.threads[4].phase == Waiting && !c.threads[4].request && !c.threads[4].leaked
            && (forall u: nat :: u < 4 ==> c.threads[u].phase == Dead && (c.threads[u].leaked <==> u < 3))
  {
    hide S.Initial, S.JobOk;
    var d := AllGone(job);
    assert forall u: nat :: u < 3 ==> d.threads[u] == Gone(u, job);
    assert d.queued == [];
  }

  lemma OnlyCommands(c: Client, a: Action)
    requires |c.threads| == 5 && c.pc == Idle && c.permits == 0 && c.threads[4].phase == Waiting && !c.threads[4].request
    requires forall u: nat :: u < 4 ==> c.threads[u].phase == Dead
    requires Enabled(c, a)
    ensures a.Acquire? || a.Hangup?
  {
    hide S.Enabled, AllStopped, HeadIs, Joinable, FirstFree;
  }

  /** A state that can be reached: three works were cancelled while they searched, a
      fourth waits alone in the queue, and nothing at all can happen to this client but
      a new command or the end of the connection. */
  lemma ThreePermitsLost(job: S.Job) returns (c: Client)
    requires S.JobOk(job)
    ensures Reachable(Alone(c, 1))
    ensures LeakedUids(c) == {0, 1, 2} && |LeakedUids(c)| == PERMITS
    ensures c.queued == [4] && HeadStuck(c, 4) && !CanProgress(c)
    ensures forall a :: Enabled(c, a) ==> a.Acquire? || a.Hangup?
  {
    hide Leads, Reachable, FourthWaits, AllGone, Enabled;
    c := FourthWaits(job);
    AllGoneReached(job);
    FourthStarts(job);
    LeadsReach(Alone(AllGone(job), 0), Alone(c, 1), false);
    FourthIs(job);
    assert LeakedUids(c) == {0, 1, 2};
    forall a | Enabled(c, a) ensures a.Acquire? || a.Hangup? {
      OnlyCommands(c, a);
    }
  }
}
