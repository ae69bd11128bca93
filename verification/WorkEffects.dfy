/** What an action does, seen from one part of a client: from one thread, from the flags
    and the place of the client thread, from the queue and from the replies. */
module WorkEffects {
  import opened Slots
  import opened Containers
  import opened WorkProtocol
  import S = Search

  // ------------------------------------------------------------ one thread

  lemma ActorCan(c: Client, a: Action)
    requires Enabled(c, a) && !OfClient(a)
    ensures Actor(c, a) < |c.threads| && CanAct(c.threads[Actor(c, a)], a)
  {
    hide S.Enabled, FirstFree, AllStopped, Joinable, HeadIs;
  }

  /** An action of a command thread changes that thread and no other. */
  lemma ThreadEffect(c: Client, count: int, a: Action)
    requires Enabled(c, a) && !OfClient(a)
    ensures Actor(c, a) < |c.threads| && CanAct(c.threads[Actor(c, a)], a)
    ensures Apply(c, count, a).threads == c.threads[Actor(c, a) := Acted(c.threads[Actor(c, a)], a)]
  {
    hide S.Enabled, S.Next, S.Initial, S.JobOk, FirstFree, Taken, Request, AllStopped, Joinable, HeadIs, CanAct;
    ActorCan(c, a);
  }

  /** An action of the client thread requests at most one cancellation and creates at
      most one thread. */
  lemma ClientEffect(c: Client, count: int, a: Action)
    requires Enabled(c, a) && OfClient(a)
    ensures Apply(c, count, a).threads == Asked(c.threads, Victim(c, a)) + Created(c, count, a)
  {
    hide S.Enabled, S.Next, S.Initial, S.JobOk, FirstFree, Taken, AllStopped, Joinable, HeadIs;
  }

  /** Thread u afterwards: it acted, its cancellation was requested, or it is as before. */
  ghost function ThreadAfter(c: Client, a: Action, u: nat): (t: Thread)
    requires Enabled(c, a) && u < |c.threads|
  {
    hide Enabled, CanAct;
    if OfClient(a) then
      if Victim(c, a) == Some(u) then c.threads[u].(request := true) else c.threads[u]
    else if Actor(c, a) == u then
      ActorCan(c, a);
      Acted(c.threads[u], a)
    else c.threads[u]
  }

  /** Every action, seen from one thread that was there before. */
  lemma SeenFrom(c: Client, count: int, a: Action, u: nat)
    requires Enabled(c, a) && u < |c.threads|
    ensures u < |Apply(c, count, a).threads| && Apply(c, count, a).threads[u] == ThreadAfter(c, a, u)
    ensures !OfClient(a) && Actor(c, a) == u ==> CanAct(c.threads[u], a)
  {
    hide Enabled, Apply, Victim, Actor, Acted, CanAct, Created;
    if OfClient(a) { ClientEffect(c, count, a); } else { ThreadEffect(c, count, a); }
  }

  lemma SeenNew(c: Client, count: int, a: Action, u: nat)
    requires Enabled(c, a) && |c.threads| <= u < |Apply(c, count, a).threads|
    ensures Created(c, count, a) == [Apply(c, count, a).threads[u]] && u == |c.threads|
  {
    hide Enabled, Apply, Victim, Actor, Acted, CanAct, Created;
    if OfClient(a) { ClientEffect(c, count, a); } else { ThreadEffect(c, count, a); }
  }

  // ------------------------------------------------------------ flags, place, replies

  /** Only Acquire raises a flag, only the two resets lower one, and only the client
      thread moves itself; only Spawn changes the pool. */
  lemma ClientPartsEffect(c: Client, count: int, a: Action)
    requires Enabled(c, a)
    ensures Apply(c, count, a).flags == FlagsAfter(c, a)
    ensures Apply(c, count, a).pc == PcAfter(c, a)
    ensures Apply(c, count, a).pool == if a.Spawn? then c.pool[c.pc.slot := Some(c.pc.uid)] else c.pool
    ensures Apply(c, count, a).joined == if a.JoinOld? || a.CloseJoin? then JoinedWith(c, c.pc.slot) else c.joined
  {
    hide S.Enabled, S.Next, S.Initial, S.JobOk, FirstFree, Taken, AllStopped, Joinable, HeadIs;
  }

  /** Only admission lengthens the queue and only Pop shortens it. */
  lemma QueueEffect(c: Client, count: int, a: Action)
    requires Enabled(c, a)
    ensures Apply(c, count, a).queued ==
              if a.Pop? then (if c.queued == [] then [] else c.queued[1..])
              else if a.WorkCommand? && count < LIMIT then c.queued + [|c.threads|] else c.queued
  {
    hide S.Enabled, S.Next, S.Initial, S.JobOk, FirstFree, Taken, AllStopped, Joinable, HeadIs;
  }

  /** Only Send replies, and only the two semaphore calls change the permits. */
  lemma ReplyEffect(c: Client, count: int, a: Action)
    requires Enabled(c, a)
    ensures Apply(c, count, a).replies ==
              if a.Send? then c.replies + [Reply(a.u, c.threads[a.u].search.solution)] else c.replies
    ensures Apply(c, count, a).permits ==
              if a.TakePermit? then c.permits - 1 else if a.PostPermit? then c.permits + 1 else c.permits
  {
    hide S.Enabled, S.Next, S.Initial, S.JobOk, FirstFree, Taken, AllStopped, Joinable, HeadIs;
  }
}
