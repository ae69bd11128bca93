/** A run in which an ABRT ends a WORK that has found its nonce and waits for its turn
    behind another one. */
module AbortRun {
  import opened Containers
  import opened Slots
  import opened WorkProtocol
  import opened Server
  import opened WorkTheorems
  import opened WorkReplies
  import opened WorkRuns
  import opened WindowRun
  import opened LostPermits
  import S = Search

  // ------------------------------------------------------------ the scene

  /** The work at the head, in slot 0; it makes no batches. */
  ghost function HeadWork(job: S.Job, phase: Phase, asked: bool, cancelled: bool): (t: Thread)
    requires S.JobOk(job)
  {
    var s := S.Initial(job);
    Thread(0, Work, phase, asked, cancelled, cancelled, false, job, if cancelled then s.(cancelled := true) else s)
  }

  /** The work behind it, in slot 1. */
  ghost function NextWork(job: S.Job, phase: Phase, asked: bool, cancelled: bool, search: S.State): (t: Thread)
  {
    Thread(1, Work, phase, asked, cancelled, false, false, job, search)
  }

  /** The ABRT, in slot 2. */
  ghost function AbortThread(): (t: Thread)
  {
    NewThread(2, Abort, NO_JOB).(phase := Aborting)
  }

  /** Both works are queued. */
  ghost function Two(a: Thread, b: Thread, permits: nat): (c: Client)
  {
    Client(Idle, Flags(0, 2), Pool(2), [a, b], Ids(0, 2), permits, Ids(0, 2), Ids(0, 2), [], [], {})
  }

  /** The same with the ABRT at work, after the first `gone` works have left the queue. */
  ghost function Scene(a: Thread, b: Thread, permits: nat, gone: nat): (c: Client)
    requires gone <= 2
  {
    Client(Idle, Flags(gone, 3), Pool(3), [a, b, AbortThread()], Ids(gone, 2), permits, Ids(gone, 2), Ids(0, 2), Ids(0, gone), [], {})
  }

  // ------------------------------------------------------------ both search

  lemma SecondSearches(first: S.Job, job: S.Job)
    requires S.JobOk(first) && Quick(job)
    ensures var c := Two(HeadWork(first, Searching, false, false), NextWork(job, Searching, false, false, S.OneBatch(S.NotMade, 0, job.n, 0)), 1);
            Leads(Alone(Searchers(1, first), 1), Alone(c, 2), false)
  {
    hide Leads, Enabled, Apply, S.Initial, S.Next;
    var c0 := Searchers(1, first);
    FirstFreeIs(c0.flags, 1);
    BringUp(c0, 1, 1, job, false);
    var c1 := WithWaiter(c0, 1, job);
    GetPermit(c1, 2, 1, false);
    var c2 := Move(c1, 1, Searching).(permits := c1.permits - 1);
    S.FirstTrySteps(job);
    SameTwo(c2, HeadWork(first, Searching, false, false), NextWork(job, Searching, false, false, S.OneBatch(S.NotMade, 0, job.n, 0)), 1);
    LeadsOn(Alone(c0, 1), Alone(c1, 2), Alone(c2, 2), false);
  }

  lemma SameTwo(c: Client, a: Thread, b: Thread, permits: nat)
    requires c.pc == Idle && c.permits == permits && c.popped == [] && c.replies == [] && c.joined == {}
    requires c.flags == Flags(0, 2) && c.pool == Pool(2)
    requires c.queue == Ids(0, 2) && c.queued == Ids(0, 2) && c.admitted == Ids(0, 2)
    requires |c.threads| == 2 && c.threads[0] == a && c.threads[1] == b
    ensures c == Two(a, b, permits)
  {
    hide Flags, Pool, Ids;
    assert c.threads == [a, b];
  }

  // ------------------------------------------------------------ the second finds its nonce

  lemma NextSearchAct(a: Thread, b: Thread, step: S.Step, search: S.State)
    requires b.phase == Searching && b.kind == Work && S.JobOk(b.job) && |b.search.batches| == b.job.threads
    requires S.Enabled(b.search, step) && step != S.Cancel && search == S.Next(b.job, b.search, step)
    ensures Leads(Alone(Two(a, b, 1), 2), Alone(Two(a, b.(search := search), 1), 2), false)
  {
    hide Leads, S.Next, S.Enabled, Enabled, Apply;
    Searches(Two(a, b, 1), 2, 1, step, search, false);
    assert Set(Two(a, b, 1), 1, b.(search := search)).threads == [a, b.(search := search)];
  }

  lemma SecondFinds(a: Thread, job: S.Job)
    requires Quick(job)
    ensures Leads(Alone(Two(a, NextWork(job, Searching, false, false, S.OneBatch(S.NotMade, 0, job.n, 0)), 1), 2),
                  Alone(Two(a, NextWork(job, Searching, false, false, Done(job, false)), 1), 2), false)
  {
    hide Leads, S.Next, S.Initial;
    var n := job.n;
    S.FirstTrySteps(job);
    var b0 := NextWork(job, Searching, false, false, S.OneBatch(S.NotMade, 0, n, 0));
    var b1, b2, b3 := b0.(search := S.OneBatch(S.Checking, 1, n, 0)), b0.(search := S.OneBatch(S.Testing, 1, n, 0)), b0.(search := S.OneBatch(S.Found, 1, n, 0));
    NextSearchAct(a, b0, S.Make, b1.search);
    NextSearchAct(a, b1, S.Check(0), b2.search);
    NextSearchAct(a, b2, S.Test(0), b3.search);
    NextSearchAct(a, b3, S.Write(0), Done(job, false));
    LeadsOn(Alone(Two(a, b0, 1), 2), Alone(Two(a, b1, 1), 2), Alone(Two(a, b2, 1), 2), false);
    LeadsOn(Alone(Two(a, b0, 1), 2), Alone(Two(a, b2, 1), 2), Alone(Two(a, b3, 1), 2), false);
    LeadsOn(Alone(Two(a, b0, 1), 2), Alone(Two(a, b3, 1), 2), Alone(Two(a, b0.(search := Done(job, false)), 1), 2), false);
  }

  /** It gives its permit back and waits for its turn. */
  lemma SecondPosts(a: Thread, job: S.Job)
    requires Quick(job)
    ensures Leads(Alone(Two(a, NextWork(job, Searching, false, false, Done(job, false)), 1), 2),
                  Alone(Two(a, NextWork(job, AwaitingTurn, false, false, Done(job, false)), 2), 2), false)
  {
    hide Leads;
    var b := NextWork(job, Searching, false, false, Done(job, false));
    var c, d := Two(a, b, 1), Two(a, b.(phase := AwaitingTurn), 2);
    assert c.threads[1 := b.(phase := AwaitingTurn)] == d.threads;
    Act1(c, 2, PostPermit(1), d, 2, false);
  }

  // ------------------------------------------------------------ both are asked to end

  lemma AbortComes(a: Thread, b: Thread)
    requires a.slot == 0 && b.slot == 1
    ensures Leads(Alone(Two(a, b, 2), 2), Alone(Scene(a, b, 2, 0), 2), false)
  {
    hide Leads, S.Initial, Enabled, Apply;
    var c, d := Two(a, b, 2), Scene(a, b, 2, 0);
    FirstFreeIs(c.flags, 2);
    OpenSlot(c, 2, 2, false);
    var c1 := Opened(c, 2);
    StartCommand(c1, 2, 2, Abort, false);
    var c2 := WithCommand(c1, 2, Abort);
    assert c2.flags == d.flags && c2.pool == d.pool;
    assert c2.threads == d.threads;
    assert c2.popped == d.popped && c2.queue == d.queue && c2.queued == d.queued;
    LeadsOn(Alone(c, 2), Alone(c1, 2), Alone(c2, 2), false);
  }

  lemma BothAsked(a: Thread, b: Thread)
    requires a.slot == 0 && b.slot == 1
    ensures Leads(Alone(Scene(a, b, 2, 0), 2), Alone(Scene(a.(request := true), b.(request := true), 2, 0), 2), false)
  {
    hide Leads, S.Initial;
    var c, c1 := Scene(a, b, 2, 0), Scene(a.(request := true), b, 2, 0);
    var d := Scene(a.(request := true), b.(request := true), 2, 0);
    assert c.queue[0] == 0 && c.pool[0] == Some(0) && c.queue[1] == 1 && c.pool[1] == Some(1);
    assert c.threads[0 := a.(request := true)] == c1.threads;
    Act1(c, 2, AbortOne(2, 0), c1, 2, false);
    assert c1.threads[1 := b.(request := true)] == d.threads;
    ThenAct(Alone(c, 2), c1, 2, AbortOne(2, 1), d, 2, false);
  }

  // ------------------------------------------------------------ both end

  /** The second one is cancelled where it waits, with its permit given back. */
  lemma SecondEnds(a: Thread, job: S.Job)
    requires Quick(job)
    ensures Leads(Alone(Scene(a, NextWork(job, AwaitingTurn, true, false, Done(job, false)), 2, 0), 2),
                  Alone(Scene(a, NextWork(job, CleanupTurn, true, true, Done(job, true)), 2, 0), 1), false)
  {
    hide Leads;
    var c := Scene(a, NextWork(job, AwaitingTurn, true, false, Done(job, false)), 2, 0);
    var c1 := Scene(a, NextWork(job, JoiningBatches, true, true, Done(job, true)), 2, 0);
    var c2 := Scene(a, NextWork(job, CleanupTurn, true, true, Done(job, true)), 2, 0);
    assert c.threads[1 := c1.threads[1]] == c1.threads;
    Act1(c, 2, Cancel(1), c1, 1, false);
    SecondJoins(a, c1.threads[1]);
    LeadsOn(Alone(c, 2), Alone(c1, 1), Alone(c2, 1), false);
  }

  lemma SecondJoins(a: Thread, b: Thread)
    requires b.phase == JoiningBatches && AllStopped(b.search)
    ensures Leads(Alone(Scene(a, b, 2, 0), 1), Alone(Scene(a, b.(phase := CleanupTurn), 2, 0), 1), false)
  {
    hide Leads, AllStopped;
    var c, d := Scene(a, b, 2, 0), Scene(a, b.(phase := CleanupTurn), 2, 0);
    assert c.threads[1 := d.threads[1]] == d.threads;
    Act1(c, 1, JoinBatches(1), d, 1, false);
  }

  lemma HeadEnds(first: S.Job, b: Thread)
    requires S.JobOk(first)
    ensures Leads(Alone(Scene(HeadWork(first, Searching, true, false), b, 2, 0), 1),
                  Alone(Scene(HeadWork(first, CleanupTurn, true, true), b, 2, 0), 0), false)
  {
    hide Leads, S.JobOk, Enabled, Apply;
    var c, d := Scene(HeadWork(first, Searching, true, false), b, 2, 0), Scene(HeadWork(first, CleanupTurn, true, true), b, 2, 0);
    CancelAndJoin(c, 1, 0);
    assert CancelledAt(c, 0, CleanupTurn).threads == d.threads;
  }

  /** The work at the head of those left pops itself and ends. */
  lemma HeadLeaves(a: Thread, b: Thread, gone: nat)
    requires gone < 2 && a.slot == 0 && b.slot == 1
    requires var t := if gone == 0 then a else b; t.phase == CleanupTurn && t.cancelled
    ensures Leads(Alone(Scene(a, b, 2, gone), 0),
                  Alone(Scene(if gone == 0 then a.(phase := Dead) else a, if gone == 1 then b.(phase := Dead) else b, 2, gone + 1), 0), false)
  {
    hide Leads, Enabled, Apply, S.Initial;
    var c := Scene(a, b, 2, gone);
    var d := Scene(if gone == 0 then a.(phase := Dead) else a, if gone == 1 then b.(phase := Dead) else b, 2, gone + 1);
    LeaveQueue(c, 0, gone, false);
    var c1 := Popped(c, gone);
    ResetOnce(c1, 0, gone, false);
    var c2 := Ending(c1, gone, Dead);
    assert c2.threads == d.threads;
    assert c2.flags == d.flags && c2.queue == d.queue && c2.queued == d.queued && c2.popped == d.popped;
    LeadsOn(Alone(c, 0), Alone(c1, 0), Alone(c2, 0), false);
  }

  // ------------------------------------------------------------ together

  /** The second work waits for its turn while the first one searches. */
  ghost function Behind(first: S.Job, job: S.Job): (c: Client)
    requires S.JobOk(first)
  {
    Two(HeadWork(first, Searching, false, false), NextWork(job, AwaitingTurn, false, false, Done(job, false)), 2)
  }

  lemma BehindReached(first: S.Job, job: S.Job)
    requires S.JobOk(first) && Quick(job)
    ensures Reachable(Alone(Behind(first, job), 2))
  {
    hide Leads, Reachable, Searchers, Two, HeadWork, S.JobOk;
    FirstConnect();
    NobodySearches(first);
    OneMoreSearches(0, first);
    LeadsReach(Alone(Searchers(0, first), 0), Alone(Searchers(1, first), 1), false);
    SecondSearches(first, job);
    var a := HeadWork(first, Searching, false, false);
    var c0 := Two(a, NextWork(job, Searching, false, false, S.OneBatch(S.NotMade, 0, job.n, 0)), 1);
    var c1 := Two(a, NextWork(job, Searching, false, false, Done(job, false)), 1);
    LeadsReach(Alone(Searchers(1, first), 1), Alone(c0, 2), false);
    SecondFinds(a, job);
    LeadsReach(Alone(c0, 2), Alone(c1, 2), false);
    SecondPosts(a, job);
    LeadsReach(Alone(c1, 2), Alone(Behind(first, job), 2), false);
  }

  /** Both are asked to end. */
  ghost function BothRequested(first: S.Job, job: S.Job): (c: Client)
    requires S.JobOk(first)
  {
    Scene(HeadWork(first, Searching, true, false), NextWork(job, AwaitingTurn, true, false, Done(job, false)), 2, 0)
  }

  lemma BothRequestedReached(first: S.Job, job: S.Job)
    requires S.JobOk(first) && Quick(job)
    ensures Reachable(Alone(BothRequested(first, job), 2))
  {
    hide Leads, Reachable, Two, Scene, S.JobOk;
    BehindReached(first, job);
    var a, b := HeadWork(first, Searching, false, false), NextWork(job, AwaitingTurn, false, false, Done(job, false));
    AbortComes(a, b);
    LeadsReach(Alone(Behind(first, job), 2), Alone(Scene(a, b, 2, 0), 2), false);
    BothAsked(a, b);
    LeadsReach(Alone(Scene(a, b, 2, 0), 2), Alone(BothRequested(first, job), 2), false);
  }

  ghost function BothEnded(first: S.Job, job: S.Job): (c: Client)
    requires S.JobOk(first)
  {
    Scene(HeadWork(first, Dead, true, true), NextWork(job, Dead, true, true, Done(job, true)), 2, 2)
  }

  lemma BothEnd(first: S.Job, job: S.Job)
    requires S.JobOk(first) && Quick(job)
    ensures Leads(Alone(BothRequested(first, job), 2), Alone(BothEnded(first, job), 0), false)
  {
    hide Leads, Scene, S.JobOk;
    var a := HeadWork(first, Searching, true, false);
    var a', b' := HeadWork(first, CleanupTurn, true, true), NextWork(job, CleanupTurn, true, true, Done(job, true));
    var c0 := Alone(BothRequested(first, job), 2);
    SecondEnds(a, job);
    HeadEnds(first, b');
    LeadsOn(c0, Alone(Scene(a, b', 2, 0), 1), Alone(Scene(a', b', 2, 0), 0), false);
    HeadLeaves(a', b', 0);
    var a'' := a'.(phase := Dead);
    LeadsOn(c0, Alone(Scene(a', b', 2, 0), 0), Alone(Scene(a'', b', 2, 1), 0), false);
    HeadLeaves(a'', b', 1);
    LeadsOn(c0, Alone(Scene(a'', b', 2, 1), 0), Alone(BothEnded(first, job), 0), false);
  }

  /** Work 0 searches at the head, work 1 behind it has found its nonce, posted its permit
      and waits for its turn, and an ABRT asks both to end. From that state, which the
      server can reach, a run ends both: the queue is empty, nobody has replied, and only
      the permit of work 0, which was searching, is lost. */
  lemma AbortSilencesFound(first: S.Job, job: S.Job) returns (c: Client, d: Client)
    requires S.JobOk(first) && Quick(job)
    ensures Reachable(Alone(c, 2)) && In(c, 0, Searching) && In(c, 1, AwaitingTurn) && c.queued == [0, 1]
    ensures c.threads[1].search.solution == job.n && c.threads[0].request && c.threads[1].request
    ensures Leads(Alone(c, 2), Alone(d, 0), false) && Reachable(Alone(d, 0))
    ensures d.queue == [] && d.popped == [0, 1] && Repliers(d.replies) == {}
    ensures In(d, 1, Dead) && d.threads[1].cancelled && LeakedUids(d) == {0}
  {
    hide Leads, Reachable;
    c, d := BothRequested(first, job), BothEnded(first, job);
    BothRequestedReached(first, job);
    BothEnd(first, job);
    LeadsReach(Alone(c, 2), Alone(d, 0), false);
    assert LeakedUids(d) == {0} by { assert d.threads[0].leaked && !d.threads[1].leaked && !d.threads[2].leaked; }
  }
}
