/** A run without ABRT and without hangup in which a WORK is cancelled, because the
    client took its slot between the two flag resets of the WORK before. */
module WindowRun {
  import opened Containers
  import opened Slots
  import opened WorkProtocol
  import opened Server
  import opened WorkRuns
  import opened DoubleReset
  import S = Search

  /** A search that ends at once with a result. */
  ghost predicate Quick(job: S.Job)
  {
    S.FirstTry(job) && job.n != 0
  }

  // ------------------------------------------------------------ the first work

  ghost function First(job: S.Job, phase: Phase, search: S.State, sent: bool): (t: Thread)
  {
    Thread(0, Work, phase, false, false, false, sent, job, search)
  }

  /** The client with only this work, still in the queue. */
  ghost function Solo(t: Thread, permits: nat, replies: seq<Reply>): (c: Client)
  {
    Client(Idle, Flags(0, 1), Pool(1), [t], [0], permits, [0], [0], [], replies, {})
  }

  ghost function Searching1(job: S.Job, pc: S.BatchPc, made: nat, solution: nat): (c: Client)
  {
    Solo(First(job, Searching, S.OneBatch(pc, made, job.n, solution), false), 2, [])
  }

  lemma FirstSearches(job: S.Job)
    requires Quick(job)
    ensures Leads(EMPTY, Alone(Searching1(job, S.NotMade, 0, 0), 1), true)
  {
    hide Leads, Enabled, Apply, S.Initial;
    var c0 := InitialClient();
    FirstConnect();
    FirstFreeIs(c0.flags, 0);
    BringUp(c0, 0, 0, job, true);
    var c1 := WithWaiter(c0, 0, job);
    LeadsOn(EMPTY, Alone(c0, 0), Alone(c1, 1), true);
    GetPermit(c1, 1, 0, true);
    SoloIs(job);
    LeadsOn(EMPTY, Alone(c1, 1), Alone(Searching1(job, S.NotMade, 0, 0), 1), true);
  }

  lemma SoloIs(job: S.Job)
    requires Quick(job)
    ensures Move(WithWaiter(InitialClient(), 0, job), 0, Searching).(permits := 2) == Searching1(job, S.NotMade, 0, 0)
  {
    hide S.Initial;
    S.FirstTrySteps(job);
    var c, d := Move(WithWaiter(InitialClient(), 0, job), 0, Searching), Searching1(job, S.NotMade, 0, 0);
    assert c.flags == d.flags && c.pool == d.pool && c.threads == d.threads;
    assert c.queue == d.queue && c.queued == d.queued && c.admitted == d.admitted;
  }

  lemma SearchAct(t: Thread, permits: nat, step: S.Step, search: S.State)
    requires t.phase == Searching && t.kind == Work && S.JobOk(t.job) && |t.search.batches| == t.job.threads
    requires S.Enabled(t.search, step) && step != S.Cancel && search == S.Next(t.job, t.search, step)
    ensures Leads(Alone(Solo(t, permits, []), 1), Alone(Solo(t.(search := search), permits, []), 1), true)
  {
    hide Leads, S.Next, S.Enabled, Enabled, Apply;
    Searches(Solo(t, permits, []), 1, 0, step, search, true);
    assert Set(Solo(t, permits, []), 0, t.(search := search)).threads == [t.(search := search)];
  }

  lemma FirstFinds(job: S.Job)
    requires Quick(job)
    ensures Leads(Alone(Searching1(job, S.NotMade, 0, 0), 1), Alone(Searching1(job, S.Stopped, 1, job.n), 1), true)
  {
    hide Leads, S.Next, S.Initial;
    var n := job.n;
    S.FirstTrySteps(job);
    var s0, s1, s2, s3 := S.OneBatch(S.NotMade, 0, n, 0), S.OneBatch(S.Checking, 1, n, 0), S.OneBatch(S.Testing, 1, n, 0), S.OneBatch(S.Found, 1, n, 0);
    SearchAct(First(job, Searching, s0, false), 2, S.Make, s1);
    SearchAct(First(job, Searching, s1, false), 2, S.Check(0), s2);
    SearchAct(First(job, Searching, s2, false), 2, S.Test(0), s3);
    SearchAct(First(job, Searching, s3, false), 2, S.Write(0), S.OneBatch(S.Stopped, 1, n, n));
    var c0, c1, c2, c3 := Searching1(job, S.NotMade, 0, 0), Searching1(job, S.Checking, 1, 0), Searching1(job, S.Testing, 1, 0), Searching1(job, S.Found, 1, 0);
    LeadsOn(Alone(c0, 1), Alone(c1, 1), Alone(c2, 1), true);
    LeadsOn(Alone(c0, 1), Alone(c2, 1), Alone(c3, 1), true);
    LeadsOn(Alone(c0, 1), Alone(c3, 1), Alone(Searching1(job, S.Stopped, 1, n), 1), true);
  }

  ghost function Done(job: S.Job, cancelled: bool): (s: S.State)
  {
    S.OneBatch(S.Stopped, 1, job.n, job.n).(cancelled := cancelled)
  }

  lemma FirstReplies(job: S.Job)
    requires Quick(job)
    ensures Leads(Alone(Searching1(job, S.Stopped, 1, job.n), 1),
                  Alone(Solo(First(job, Sent, Done(job, false), true), 3, [Reply(0, job.n)]), 1), true)
  {
    hide Leads;
    var s := Done(job, false);
    var c := Searching1(job, S.Stopped, 1, job.n);
    var c1, c2 := Solo(First(job, AwaitingTurn, s, false), 3, []), Solo(First(job, Sending, s, false), 3, []);
    Act1(c, 1, PostPermit(0), c1, 1, true);
    ThenAct(Alone(c, 1), c1, 1, SeeTurn(0), c2, 1, true);
    ThenAct(Alone(c, 1), c2, 1, Send(0), Solo(First(job, Sent, s, true), 3, [Reply(0, job.n)]), 1, true);
  }

  /** After the first of the two resets: the flag is down, the thread has not ended. */
  ghost function BetweenResets(job: S.Job): (c: Client)
  {
    Client(Idle, Flags(0, 0), Pool(1), [First(job, Wrapping, Done(job, true), true)], [], 3, [], [0], [0], [Reply(0, job.n)], {})
  }

  lemma FirstCleansUp(job: S.Job)
    requires Quick(job)
    ensures Leads(Alone(Solo(First(job, Sent, Done(job, false), true), 3, [Reply(0, job.n)]), 1),
                  Alone(Solo(First(job, CleanupTurn, Done(job, true), true), 3, [Reply(0, job.n)]), 0), true)
  {
    hide Leads;
    var r, s := [Reply(0, job.n)], Done(job, true);
    var c, c1 := Solo(First(job, Sent, Done(job, false), true), 3, r), Solo(First(job, JoiningBatches, s, true), 3, r);
    Act1(c, 1, BeginCleanup(0), c1, 0, true);
    ThenAct(Alone(c, 1), c1, 0, JoinBatches(0), Solo(First(job, CleanupTurn, s, true), 3, r), 0, true);
  }

  lemma FirstLeaves(job: S.Job)
    requires Quick(job)
    ensures Leads(Alone(Solo(First(job, CleanupTurn, Done(job, true), true), 3, [Reply(0, job.n)]), 0),
                  Alone(BetweenResets(job), 0), true)
  {
    hide Leads, Enabled, Apply;
    var c := Solo(First(job, CleanupTurn, Done(job, true), true), 3, [Reply(0, job.n)]);
    LeaveQueue(c, 0, 0, true);
    var c1 := Popped(c, 0);
    ResetOnce(c1, 0, 0, true);
    assert c1.flags[0 := 0] == Flags(0, 0);
    assert c1.queue == [] && c1.queued == [] && c1.popped == [0];
    assert Move(c1, 0, Wrapping).threads == BetweenResets(job).threads;
    LeadsOn(Alone(c, 0), Alone(c1, 0), Alone(BetweenResets(job), 0), true);
  }

  // ------------------------------------------------------------ the second work

  /** The old thread in its phase, with the client at pc and the flag of slot 0 as given. */
  ghost function Race(job: S.Job, phase: Phase, asked: bool, pc: Pc, flag: nat): (c: Client)
  {
    BetweenResets(job).(pc := pc, flags := Flags(0, flag), joined := if pc.Ready? then {0} else {},
                        threads := [First(job, phase, Done(job, true), true).(request := asked)])
  }

  lemma RaceIsRun(job: S.Job)
    requires Quick(job)
    ensures InWindow(BetweenResets(job))
    ensures Leads(Alone(BetweenResets(job), 0), Alone(Race(job, Wrapping, true, Joining(0), 1), 0), true)
  {
    hide Leads;
    var c, c1, c2 := BetweenResets(job), Race(job, Wrapping, false, Acquired(0), 1), Race(job, Wrapping, true, Joining(0), 1);
    FirstFreeIs(c.flags, 0);
    assert Taken(c.flags) == Flags(0, 1);
    Act1(c, 0, Acquire, c1, 0, true);
    assert c1.threads[0 := c1.threads[0].(request := true)] == c2.threads;
    ThenAct(Alone(c, 0), c1, 0, CancelOld, c2, 0, true);
  }

  lemma RaceEnds(job: S.Job)
    requires Quick(job)
    ensures Leads(Alone(Race(job, Wrapping, true, Joining(0), 1), 0), Alone(Race(job, Dead, true, Ready(0), 0), 0), true)
  {
    hide Leads, Enabled, Apply;
    var c, c1 := Race(job, Wrapping, true, Joining(0), 1), Race(job, Dead, true, Joining(0), 0);
    WrapUp(c, 0, 0, true);
    assert c.flags[0 := 0] == Flags(0, 0);
    assert Ending(c, 0, Dead).threads == c1.threads;
    JoinsOld(c1, 0, 0, true);
    assert JoinedWith(c1, 0) == {0};
    LeadsOn(Alone(c, 0), Alone(c1, 0), Alone(Race(job, Dead, true, Ready(0), 0), 0), true);
  }

  /** A second WORK waits for a permit in slot 0, which is flagged free. */
  ghost function Unflagged(job: S.Job): (c: Client)
    requires S.JobOk(job)
  {
    var c := Admitted(Race(job, Dead, true, Ready(0), 0), 0, job);
    Spawned(c, c.threads[1], Waiting)
  }

  lemma BetweenResetsReached(job: S.Job)
    requires Quick(job)
    ensures Leads(EMPTY, Alone(BetweenResets(job), 0), true)
  {
    hide Leads, Enabled, Apply, Searching1, Solo, First, Done, BetweenResets;
    FirstSearches(job);
    FirstFinds(job);
    LeadsOn(EMPTY, Alone(Searching1(job, S.NotMade, 0, 0), 1), Alone(Searching1(job, S.Stopped, 1, job.n), 1), true);
    FirstReplies(job);
    var c1 := Solo(First(job, Sent, Done(job, false), true), 3, [Reply(0, job.n)]);
    LeadsOn(EMPTY, Alone(Searching1(job, S.Stopped, 1, job.n), 1), Alone(c1, 1), true);
    FirstCleansUp(job);
    var c2 := Solo(First(job, CleanupTurn, Done(job, true), true), 3, [Reply(0, job.n)]);
    LeadsOn(EMPTY, Alone(c1, 1), Alone(c2, 0), true);
    FirstLeaves(job);
    LeadsOn(EMPTY, Alone(c2, 0), Alone(BetweenResets(job), 0), true);
  }

  lemma UnflaggedReached(job: S.Job)
    requires Quick(job)
    ensures Leads(EMPTY, Alone(Unflagged(job), 1), true)
  {
    hide Leads, Enabled, Apply, First, Done, BetweenResets;
    BetweenResetsReached(job);
    RaceIsRun(job);
    RaceEnds(job);
    var c3, c4 := Race(job, Wrapping, true, Joining(0), 1), Race(job, Dead, true, Ready(0), 0);
    LeadsOn(EMPTY, Alone(BetweenResets(job), 0), Alone(c3, 0), true);
    LeadsOn(EMPTY, Alone(c3, 0), Alone(c4, 0), true);
    SecondStarts(job);
    LeadsOn(EMPTY, Alone(c4, 0), Alone(Unflagged(job), 1), true);
  }

  lemma SecondStarts(job: S.Job)
    requires Quick(job)
    ensures Leads(Alone(Race(job, Dead, true, Ready(0), 0), 0), Alone(Unflagged(job), 1), true)
  {
    hide Leads, Enabled, Apply, S.Initial;
    var c := Race(job, Dead, true, Ready(0), 0);
    Admit(c, 0, 0, job, true);
    var c1 := Admitted(c, 0, job);
    StartWork(c1, 1, true);
    LeadsOn(Alone(c, 0), Alone(c1, 1), Alone(Unflagged(job), 1), true);
  }

  lemma UnflaggedIs(job: S.Job)
    requires Quick(job)
    ensures var c := Unflagged(job);
            && c.pc == Idle && In(c, 1, Waiting) && c.threads[1].kind == Work && c.threads[1].slot == 0
            && !c.threads[1].request && !c.threads[1].cancelled
            && c.flags == Flags(0, 0) && |c.pool| == SLOTS && c.pool[0] == Some(1)
  {
    hide S.Initial;
  }

  /** The next command takes the same slot and asks the live WORK to end. */
  lemma NextTakesSlot(c: Client) returns (d: Client)
    requires c.pc == Idle && In(c, 1, Waiting) && c.flags == Flags(0, 0) && |c.pool| == SLOTS && c.pool[0] == Some(1)
    ensures Leads(Alone(c, 1), Alone(d, 0), true) && 1 < |d.threads| && d.threads[1].cancelled
  {
    hide Leads;
    FirstFreeIs(c.flags, 0);
    var t := c.threads[1].(request := true);
    var c1 := c.(pc := Acquired(0), flags := c.flags[0 := 1]);
    var c2 := Set(c1, 1, t).(pc := Joining(0));
    d := Set(c2, 1, EnterCleanup(t).(cancelled := true, leaked := false));
    Act1(c, 1, Acquire, c1, 1, true);
    ThenAct(Alone(c, 1), c1, 1, CancelOld, c2, 1, true);
    ThenAct(Alone(c, 1), c2, 1, Cancel(1), d, 0, true);
  }

  /** The failing run. Without ABRT and without hangup a WORK runs in a slot that is
      flagged free, because the second reset of the WORK before cleared its flag; the
      next command takes the slot and the live WORK is cancelled. */
  lemma WindowCancelsWork(job: S.Job) returns (c: Client, d: Client)
    requires Quick(job)
    ensures Leads(EMPTY, Alone(c, 1), true) && Leads(Alone(c, 1), Alone(d, 0), true)
    ensures In(c, 1, Waiting) && c.threads[1].kind == Work && !IsFlagged(c, c.threads[1].slot) && !c.threads[1].request
    ensures 1 < |d.threads| && d.threads[1].cancelled
  {
    hide Leads, Unflagged;
    c := Unflagged(job);
    UnflaggedReached(job);
    UnflaggedIs(job);
    d := NextTakesSlot(c);
  }
}
