/** A run in which one client brings the global work count to its limit. */
module FullServer {
  import opened Containers
  import opened Slots
  import opened WorkProtocol
  import opened Server
  import opened WorkRuns
  import opened LostPermits
  import S = Search

  /** Work i waits in slot i. */
  ghost function Waiter(i: nat, job: S.Job): (t: Thread)
    requires S.JobOk(job)
  {
    NewThread(i, Work, job).(phase := Waiting)
  }

  ghost function Waiters(n: nat, job: S.Job): (c: Client)
    requires n <= 10 && S.JobOk(job)
  {
    Client(Idle, Flags(0, n), Pool(n), seq(n, i requires 0 <= i < n => Waiter(i, job)),
           Ids(0, n), 3, Ids(0, n), Ids(0, n), [], [], {})
  }

  lemma OneMoreWaits(n: nat, job: S.Job)
    requires n < 10 && S.JobOk(job)
    ensures Leads(Alone(Waiters(n, job), n), Alone(Waiters(n + 1, job), n + 1), true)
  {
    hide Leads, S.Initial, S.JobOk, Enabled, Apply;
    var c, d := Waiters(n, job), Waiters(n + 1, job);
    FirstFreeIs(c.flags, n);
    BringUp(c, n, n, job, true);
    var c1 := WithWaiter(c, n, job);
    assert c1.threads == d.threads;
    assert c1.flags == d.flags && c1.pool == d.pool;
    assert c1.queue == d.queue && c1.queued == d.queued && c1.admitted == d.admitted;
  }

  lemma {:induction false} WaitersReached(n: nat, job: S.Job)
    requires n <= 10 && S.JobOk(job)
    ensures Reachable(Alone(Waiters(n, job), n))
  {
    hide Leads, Reachable, Waiters, S.JobOk;
    if n == 0 {
      FirstConnect();
      NobodyWaits(n, job);
    } else {
      WaitersReached(n - 1, job);
      OneMoreWaits(n - 1, job);
      LeadsReach(Alone(Waiters(n - 1, job), n - 1), Alone(Waiters(n, job), n), true);
    }
  }

  lemma NobodyWaits(n: nat, job: S.Job)
    requires n == 0 && S.JobOk(job)
    ensures InitialClient() == Waiters(n, job)
  {
    var c := InitialClient();
    assert c.flags == Flags(0, 0) && c.pool == Pool(0);
  }

  /** Ten works are alive at once, in a state that the server can reach. */
  lemma TenWorks(job: S.Job) returns (c: Client)
    requires S.JobOk(job)
    ensures Reachable(Alone(c, 10)) && |c.queue| == 10 && |c.threads| == 10
    ensures forall u: nat :: u < 10 ==> In(c, u, Waiting) && c.threads[u].kind == Work
  {
    hide Reachable;
    var n := 10;
    c := Waiters(n, job);
    WaitersReached(n, job);
  }
}
