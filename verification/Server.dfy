/** All clients of the server together with the global work count, and what holds in
    every state that any interleaving of their threads can reach. */
module Server {
  import opened WorkProtocol
  import opened WorkEffects
  import opened WorkInvariant
  import opened WorkSteps
  import S = Search

  datatype System = System(clients: seq<Client>, count: int)

  datatype Event = Connect | Act(c: nat, a: Action)

  predicate CanHappen(sys: System, e: Event)
  {
    e.Act? ==> e.c < |sys.clients| && Enabled(sys.clients[e.c], e.a)
  }

  ghost function Happen(sys: System, e: Event): (sys': System)
    requires CanHappen(sys, e)
  {
    match e
    case Connect => sys.(clients := sys.clients + [InitialClient()])
    case Act(c, a) =>
      System(sys.clients[c := Apply(sys.clients[c], sys.count, a)], CountAfter(sys.clients[c], sys.count, a))
  }

  ghost predicate IsRun(sys: System, events: seq<Event>)
    decreases |events|
  {
    events == [] || (CanHappen(sys, events[0]) && IsRun(Happen(sys, events[0]), events[1..]))
  }

  ghost function After(sys: System, events: seq<Event>): (sys': System)
    requires IsRun(sys, events)
    decreases |events|
  {
    if events == [] then sys else After(Happen(sys, events[0]), events[1..])
  }

  const EMPTY: System := System([], 0)

  /** Some interleaving of steps leads from the empty server to sys. */
  ghost predicate Reachable(sys: System)
  {
    exists events :: IsRun(EMPTY, events) && After(EMPTY, events) == sys
  }

  // ------------------------------------------------------------ the work count

  ghost function CountedUids(c: Client): (s: set<nat>)
  {
    set u: nat | u < |c.threads| && Counted(c.threads[u])
  }

  /** The admitted works of all clients whose cleanup has not begun. */
  ghost function LiveWorks(clients: seq<Client>): (s: set<(nat, nat)>)
  {
    set c: nat, u: nat | c < |clients| && u in CountedUids(clients[c]) :: (c, u)
  }

  ghost predicate SysInv(sys: System)
  {
    && (forall c: nat :: c < |sys.clients| ==> Inv(sys.clients[c]))
    && sys.count == |LiveWorks(sys.clients)|
    && sys.count <= LIMIT
  }

  lemma CountedActed(t: Thread, a: Action)
    requires !OfClient(a) && CanAct(t, a)
    ensures Counted(Acted(t, a)) <==> Counted(t) && !a.BeginCleanup? && !a.Cancel?
  {
    hide S.Enabled, S.Next, S.JobOk, AllStopped;
  }

  /** The work that an action takes off the count. */
  predicate TakesOff(a: Action, u: nat)
  {
    (a.BeginCleanup? || a.Cancel?) && a.u == u
  }

  lemma CountedAfter(c: Client, count: int, a: Action, u: nat)
    requires Enabled(c, a) && u < |c.threads|
    ensures u < |Apply(c, count, a).threads|
    ensures Counted(Apply(c, count, a).threads[u]) <==> Counted(c.threads[u]) && !TakesOff(a, u)
  {
    hide Enabled, Apply, Acted, CanAct, Victim;
    SeenFrom(c, count, a, u);
    if OfClient(a) {
      assert !TakesOff(a, u);
    } else if Actor(c, a) == u {
      CountedActed(c.threads[u], a);
    } else {
      assert !TakesOff(a, u);
    }
  }

  /** A new thread counts if and only if it is an admitted WORK. */
  lemma CountedCreated(c: Client, count: int, a: Action, u: nat)
    requires Enabled(c, a) && |c.threads| <= u < |Apply(c, count, a).threads|
    ensures u == |c.threads| && (Counted(Apply(c, count, a).threads[u]) <==> a.WorkCommand? && count < LIMIT)
  {
    hide Apply, Victim, S.Initial, S.JobOk;
    SeenNew(c, count, a, u);
  }

  lemma AdmittedIsNew(c: Client, count: int, a: Action)
    requires Enabled(c, a) && a.WorkCommand?
    ensures |Apply(c, count, a).threads| == |c.threads| + 1
  {
    hide Enabled, Apply, Victim;
    ClientEffect(c, count, a);
  }

  lemma CleanupWasCounted(c: Client, a: Action)
    requires Inv(c) && Enabled(c, a) && (a.BeginCleanup? || a.Cancel?)
    ensures a.u in CountedUids(c)
  {
    hide Core, PermitsOk, S.Inv;
    ThreadIsOk(c, a.u);
  }

  /** Admission adds one work to the count, the start of a cleanup takes its own off,
      and nothing else changes who is counted. */
  lemma CountedChanges(c: Client, count: int, a: Action)
    requires Inv(c) && Enabled(c, a)
    ensures CountedUids(Apply(c, count, a)) ==
              if a.WorkCommand? && count < LIMIT then CountedUids(c) + {|c.threads|}
              else if a.BeginCleanup? || a.Cancel? then CountedUids(c) - {a.u}
              else CountedUids(c)
  {
    hide Inv, Enabled, Apply, Counted;
    var c' := Apply(c, count, a);
    if a.WorkCommand? { AdmittedIsNew(c, count, a); }
    forall u: nat
      ensures u in CountedUids(c') <==>
                (u in CountedUids(c) && !TakesOff(a, u)) || (a.WorkCommand? && count < LIMIT && u == |c.threads|)
    {
      if u < |c.threads| { CountedAfter(c, count, a, u); }
      else if u < |c'.threads| { CountedCreated(c, count, a, u); }
    }
  }

  lemma LiveWorksSame(clients: seq<Client>, c: nat, d: Client)
    requires c < |clients| && CountedUids(d) == CountedUids(clients[c])
    ensures LiveWorks(clients[c := d]) == LiveWorks(clients)
  {
    hide CountedUids;
  }

  lemma LiveWorksAdd(clients: seq<Client>, c: nat, d: Client, u: nat)
    requires c < |clients| && u !in CountedUids(clients[c]) && CountedUids(d) == CountedUids(clients[c]) + {u}
    ensures |LiveWorks(clients[c := d])| == |LiveWorks(clients)| + 1
  {
    hide CountedUids;
    assert LiveWorks(clients[c := d]) == LiveWorks(clients) + {(c, u)};
  }

  lemma LiveWorksRemove(clients: seq<Client>, c: nat, d: Client, u: nat)
    requires c < |clients| && u in CountedUids(clients[c]) && CountedUids(d) == CountedUids(clients[c]) - {u}
    ensures |LiveWorks(clients[c := d])| == |LiveWorks(clients)| - 1
  {
    hide CountedUids;
    assert LiveWorks(clients[c := d]) == LiveWorks(clients) - {(c, u)};
  }

  lemma LiveWorksConnect(clients: seq<Client>)
    ensures LiveWorks(clients + [InitialClient()]) == LiveWorks(clients)
  {
    assert CountedUids(InitialClient()) == {};
    hide CountedUids;
  }

  lemma CountStep(sys: System, e: Event)
    requires SysInv(sys) && CanHappen(sys, e)
    ensures var sys' := Happen(sys, e); sys'.count == |LiveWorks(sys'.clients)| && sys'.count <= LIMIT
  {
    hide Inv, LiveWorks, CountedUids, Enabled, Apply;
    if e == Connect {
      LiveWorksConnect(sys.clients);
    } else {
      var c := sys.clients[e.c];
      assert Inv(c);
      var d := Apply(c, sys.count, e.a);
      CountedChanges(c, sys.count, e.a);
      if e.a.WorkCommand? && sys.count < LIMIT {
        FreshUid(c);
        LiveWorksAdd(sys.clients, e.c, d, |c.threads|);
      } else if e.a.BeginCleanup? || e.a.Cancel? {
        CleanupWasCounted(c, e.a);
        LiveWorksRemove(sys.clients, e.c, d, e.a.u);
      } else {
        LiveWorksSame(sys.clients, e.c, d);
      }
    }
  }

  lemma FreshUid(c: Client)
    ensures |c.threads| !in CountedUids(c)
  {
  }

  lemma HappenInv(sys: System, e: Event)
    requires SysInv(sys) && CanHappen(sys, e)
    ensures SysInv(Happen(sys, e))
  {
    hide Inv, LiveWorks, Enabled, Apply;
    CountStep(sys, e);
    if e == Connect {
      InitialInv();
    } else {
      assert Inv(sys.clients[e.c]);
      StepInv(sys.clients[e.c], sys.count, e.a);
    }
  }

  lemma {:induction false} RunInv(sys: System, events: seq<Event>)
    requires SysInv(sys) && IsRun(sys, events)
    ensures SysInv(After(sys, events))
    decreases |events|
  {
    hide SysInv;
    if events != [] {
      HappenInv(sys, events[0]);
      RunInv(Happen(sys, events[0]), events[1..]);
    }
  }

  lemma ReachableInv(sys: System)
    requires Reachable(sys)
    ensures SysInv(sys)
  {
    var events :| IsRun(EMPTY, events) && After(EMPTY, events) == sys;
    assert LiveWorks(EMPTY.clients) == {};
    RunInv(EMPTY, events);
  }
}
