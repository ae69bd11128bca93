/** Runs to the end of a connection: one that a work blocks for ever, one that a thread
    past its handler outlives, and one that a live WORK outlives. */
module TeardownRuns {
  import opened Containers
  import opened Slots
  import opened WorkProtocol
  import opened Server
  import opened WorkRuns
  import opened WindowRun
  import S = Search

  lemma Anyway(sys: System, sys': System)
    requires Leads(sys, sys', true)
    ensures Leads(sys, sys', false)
  {
  }

  lemma HangsUp(c: Client, count: int)
    requires c.pc == Idle
    ensures Leads(Alone(c, count), Alone(c.(pc := Closing(0)), count), false)
  {
    hide Leads;
    assert c.threads + [] == c.threads;
    Act1(c, count, Hangup, c.(pc := Closing(0)), count, false);
  }

  // ------------------------------------------------------------ nobody is waited for

  /** With no flag up the client thread passes all slots and is done. */
  lemma {:induction false} PassAll(c: Client, count: int, k: nat)
    requires c.pc == Closing(k) && k <= |c.flags| && forall s :: k <= s < |c.flags| ==> c.flags[s] == 0
    ensures Leads(Alone(c, count), Alone(c.(pc := Closed), count), false)
    decreases |c.flags| - k
  {
    hide Leads;
    assert c.threads + [] == c.threads;
    if k == |c.flags| {
      Act1(c, count, CloseSlot, c.(pc := Closed), count, false);
    } else {
      var d := c.(pc := Closing(k + 1));
      Act1(c, count, CloseSlot, d, count, false);
      PassAll(d, count, k + 1);
      LeadsOn(Alone(c, count), Alone(d, count), Alone(c.(pc := Closed), count), false);
    }
  }

  lemma CloseUnflagged(c: Client, count: int)
    requires c.pc == Idle && c.flags == Flags(0, 0) && Leads(EMPTY, Alone(c, count), true)
    ensures Leads(EMPTY, Alone(c.(pc := Closed), count), false)
  {
    hide Leads, Enabled, Apply;
    Anyway(EMPTY, Alone(c, count));
    HangsUp(c, count);
    var d := c.(pc := Closing(0));
    PassAll(d, count, 0);
    LeadsOn(EMPTY, Alone(c, count), Alone(d, count), false);
    LeadsOn(EMPTY, Alone(d, count), Alone(c.(pc := Closed), count), false);
  }

  /** The connection of a WORK between its two flag resets ends: the thread is left
      behind, with its second reset still to come. */
  lemma WrapperOutlives(job: S.Job) returns (c: Client)
    requires Quick(job)
    ensures Leads(EMPTY, Alone(c, 0), false) && c.pc.Closed? && In(c, 0, Wrapping)
  {
    hide Leads, Enabled, Apply;
    BetweenResetsReached(job);
    CloseUnflagged(BetweenResets(job), 0);
    c := BetweenResets(job).(pc := Closed);
  }

  /** After a slot was taken in the window, a live WORK that nobody asked to end outlives
      its connection. */
  lemma WorkOutlives(job: S.Job) returns (c: Client)
    requires Quick(job)
    ensures Leads(EMPTY, Alone(c, 1), false) && c.pc.Closed?
    ensures In(c, 1, Waiting) && c.threads[1].kind == Work && !c.threads[1].request
  {
    hide Leads, Unflagged, Enabled, Apply;
    UnflaggedReached(job);
    UnflaggedIs(job);
    CloseUnflagged(Unflagged(job), 1);
    c := Unflagged(job).(pc := Closed);
  }

  // ------------------------------------------------------------ a work in the way

  /** A search with one batch and an empty range. */
  ghost predicate Barren(job: S.Job)
  {
    job.threads == 1 && job.n == S.MAX64
  }

  lemma BarrenSteps(job: S.Job)
    requires Barren(job)
    ensures S.Initial(job) == S.OneBatch(S.NotMade, 0, job.n, 0)
    ensures S.Next(job, S.OneBatch(S.NotMade, 0, job.n, 0), S.Make) == S.OneBatch(S.Checking, 1, job.n, 0)
    ensures S.Next(job, S.OneBatch(S.Checking, 1, job.n, 0), S.Check(0)) == S.OneBatch(S.Stopped, 1, job.n, 0)
  {
    assert S.Initial(job).batches == [S.Batch(S.NotMade, job.n)];
  }

  /** A command in slot 0, and a WORK in slot 1 that waits for a permit. */
  ghost function Before(job: S.Job): (c: Client)
    requires Barren(job)
  {
    WithWaiter(WithCommand(Opened(InitialClient(), 0), 0, Other), 1, job)
  }

  lemma BeforeReached(job: S.Job)
    requires Barren(job)
    ensures Reachable(Alone(Before(job), 1))
  {
    hide Leads, Reachable, Enabled, Apply, S.Initial;
    var c0 := InitialClient();
    var c1 := Opened(c0, 0);
    var c2 := WithCommand(c1, 0, Other);
    FirstConnect();
    FirstFreeIs(c0.flags, 0);
    OpenSlot(c0, 0, 0, false);
    LeadsReach(Alone(c0, 0), Alone(c1, 0), false);
    StartCommand(c1, 0, 0, Other, false);
    LeadsReach(Alone(c1, 0), Alone(c2, 0), false);
    FirstFreeIs(c2.flags, 1);
    BringUp(c2, 0, 1, job, false);
    LeadsReach(Alone(c2, 0), Alone(Before(job), 1), false);
  }

  /** The WORK of slot 1, with its search in the given state. */
  ghost function InVain(job: S.Job, phase: Phase, search: S.State): (t: Thread)
  {
    Thread(1, Work, phase, false, false, false, false, job, search)
  }

  ghost function Past(phase: Phase): (t: Thread)
  {
    NewThread(0, Other, NO_JOB).(phase := phase)
  }

  lemma BeforeIs(job: S.Job)
    requires Barren(job)
    ensures var c := Before(job);
            && c.pc == Idle && c.flags == Flags(0, 2) && c.pool == Pool(2) && c.joined == {}
            && c.threads == [Past(Handling), InVain(job, Waiting, S.OneBatch(S.NotMade, 0, job.n, 0))]
            && c.queue == [1] && c.queued == [1] && c.permits == 3
  {
    hide S.Initial;
    BarrenSteps(job);
    var c := Before(job);
    assert c.flags == Flags(0, 2) && c.pool == Pool(2);
    assert c.threads == [Past(Handling), InVain(job, Waiting, S.OneBatch(S.NotMade, 0, job.n, 0))];
  }

  /** It searches its range in vain. */
  lemma SearchInVain(c: Client, job: S.Job) returns (d: Client)
    requires Barren(job) && c.permits == 3
    requires c.threads == [Past(Handling), InVain(job, Waiting, S.OneBatch(S.NotMade, 0, job.n, 0))]
    ensures Leads(Alone(c, 1), Alone(d, 1), false)
    ensures d == c.(permits := 2, threads := [Past(Handling), InVain(job, Searching, S.OneBatch(S.Stopped, 1, job.n, 0))])
  {
    hide Leads, Enabled, Apply, S.Initial, S.Next, Past;
    BarrenSteps(job);
    var s0, s1, s2 := S.OneBatch(S.NotMade, 0, job.n, 0), S.OneBatch(S.Checking, 1, job.n, 0), S.OneBatch(S.Stopped, 1, job.n, 0);
    var c0 := c.(permits := 2, threads := [Past(Handling), InVain(job, Searching, s0)]);
    var c1 := c0.(threads := [Past(Handling), InVain(job, Searching, s1)]);
    d := c0.(threads := [Past(Handling), InVain(job, Searching, s2)]);
    GetPermit(c, 1, 1, false);
    Searches(c0, 1, 1, S.Make, s1, false);
    Searches(c1, 1, 1, S.Check(0), s2, false);
    assert Move(c, 1, Searching).threads == c0.threads;
    assert Set(c0, 1, c1.threads[1]).threads == c1.threads && Set(c1, 1, d.threads[1]).threads == d.threads;
    LeadsOn(Alone(c, 1), Alone(c0, 1), Alone(c1, 1), false);
    LeadsOn(Alone(c, 1), Alone(c1, 1), Alone(d, 1), false);
  }

  /** The command of slot 0 ends, and a WORK starts there, behind the first. */
  lemma SecondInLine(c: Client, job: S.Job, second: S.Job) returns (d: Client)
    requires Barren(job) && S.JobOk(second)
    requires c.pc == Idle && c.flags == Flags(0, 2) && c.pool == Pool(2) && c.joined == {}
    requires c.threads == [Past(Handling), InVain(job, Searching, S.OneBatch(S.Stopped, 1, job.n, 0))]
    requires c.queue == [1] && c.queued == [1] && c.permits == 2
    ensures Leads(Alone(c, 1), Alone(d, 2), false)
    ensures d.pc == Idle && d.flags == Flags(0, 2) && d.pool == Pool(2)[0 := Some(2)]
    ensures d.threads == [Past(Dead).(request := true), c.threads[1], NewThread(0, Work, second).(phase := Waiting)]
    ensures d.queue == [1, 0] && d.queued == [1, 2] && d.permits == 2
  {
    hide Leads, Enabled, Apply, S.Initial, S.JobOk;
    EndCommand(c, 1, 0, false);
    var c1 := Ending(c, 0, Dead);
    assert c1.threads == [Past(Dead), c.threads[1]];
    FirstFreeIs(c1.flags, 0);
    BringUp(c1, 1, 0, second, false);
    d := WithWaiter(c1, 0, second);
    assert d.flags == Flags(0, 2);
    LeadsOn(Alone(c, 1), Alone(c1, 1), Alone(d, 2), false);
  }

  /** The client hangs up and asks the WORK of slot 0 to end. */
  lemma AsksTheSecond(c: Client) returns (d: Client)
    requires c.pc == Idle && c.flags == Flags(0, 2) && c.pool == Pool(2)[0 := Some(2)] && |c.threads| == 3
    ensures Leads(Alone(c, 2), Alone(d, 2), false)
    ensures d == c.(pc := ClosingJoin(0), threads := c.threads[2 := c.threads[2].(request := true)])
  {
    hide Leads;
    HangsUp(c, 2);
    var c1 := c.(pc := Closing(0));
    d := c.(pc := ClosingJoin(0), threads := c.threads[2 := c.threads[2].(request := true)]);
    assert d.threads + [] == d.threads;
    Act1(c1, 2, CloseSlot, d, 2, false);
    LeadsOn(Alone(c, 2), Alone(c1, 2), Alone(d, 2), false);
  }

  /** That WORK is cancelled and waits for its turn to leave the queue. */
  lemma SecondWaits(c: Client, second: S.Job) returns (d: Client)
    requires S.JobOk(second) && |c.threads| == 3
    requires c.threads[2] == NewThread(0, Work, second).(phase := Waiting, request := true)
    ensures Leads(Alone(c, 2), Alone(d, 1), false)
    ensures |d.threads| == 3 && d == c.(threads := c.threads[2 := d.threads[2]])
    ensures d.threads[2].phase == CleanupTurn && d.threads[2].cancelled && d.threads[2].slot == 0 && d.threads[2].kind == Work
  {
    hide Leads;
    var t := EnterCleanup(c.threads[2]).(cancelled := true);
    var c1 := Set(c, 2, t);
    d := Set(c, 2, t.(phase := CleanupTurn));
    Act1(c, 2, Cancel(2), c1, 1, false);
    assert c1.threads[2 := t.(phase := CleanupTurn)] == d.threads;
    ThenAct(Alone(c, 2), c1, 1, JoinBatches(2), d, 1, false);
  }

  /** Nothing can happen to such a client any more. */
  lemma AllBlocked(c: Client, a: Action)
    requires c.pc == ClosingJoin(0) && |c.pool| == SLOTS && c.pool[0] == Some(2) && |c.threads| == 3 && c.queue == [1, 0]
    requires c.threads[0].phase == Dead
    requires c.threads[1].phase == Searching && !c.threads[1].request && S.Exhausted(c.threads[1].search)
    requires c.threads[2].phase == CleanupTurn && c.threads[2].slot == 0
    ensures !Enabled(c, a)
  {
    hide FirstFree;
  }

  /** A run to an end of connection that never gets through: the client thread waits for
      a cancelled WORK, that WORK waits in the queue behind one that has searched in vain,
      and nobody has asked that one to end. Nothing at all can happen to this client. */
  lemma TeardownBlocked(job: S.Job, second: S.Job) returns (c: Client)
    requires Barren(job) && S.JobOk(second)
    ensures Reachable(Alone(c, 1)) && c.pc == ClosingJoin(0) && c.queued == [1, 2]
    ensures In(c, 2, CleanupTurn) && c.threads[2].cancelled && c.threads[2].slot == 0
    ensures In(c, 1, Searching) && S.Exhausted(c.threads[1].search) && !c.threads[1].request
    ensures forall a :: !Enabled(c, a)
  {
    hide Leads, Reachable, Before, Enabled, Apply, S.Initial, S.JobOk;
    var c0 := Before(job);
    BeforeReached(job);
    BeforeIs(job);
    var c1 := SearchInVain(c0, job);
    LeadsReach(Alone(c0, 1), Alone(c1, 1), false);
    var c2 := SecondInLine(c1, job, second);
    LeadsReach(Alone(c1, 1), Alone(c2, 2), false);
    var c3 := AsksTheSecond(c2);
    LeadsReach(Alone(c2, 2), Alone(c3, 2), false);
    c := SecondWaits(c3, second);
    LeadsReach(Alone(c3, 2), Alone(c, 1), false);
    forall a ensures !Enabled(c, a) { AllBlocked(c, a); }
  }

  /** Such a client stays as it is in every run, whatever the others do. */
  lemma {:induction false} BlockedForever(sys: System, events: seq<Event>, i: nat)
    requires IsRun(sys, events) && i < |sys.clients| && forall a :: !Enabled(sys.clients[i], a)
    ensures i < |After(sys, events).clients| && After(sys, events).clients[i] == sys.clients[i]
    decreases |events|
  {
    hide Enabled, Apply;
    if events != [] { BlockedForever(Happen(sys, events[0]), events[1..], i); }
  }
}
