/** What the search of a WORK line looks for and what it does not miss, told by the
    fields of the line and the rule in plain numbers. */
module LineSearch {
  import opened Containers
  import opened Bytes
  import opened Target
  import opened Sha256Spec
  import opened ProofOfWork
  import opened Messages
  import opened EndToEnd
  import opened WorkProtocol
  import opened WorkInvariant
  import opened WorkSteps
  import V = Server
  import W = WorkTheorems
  import S = Search

  /** The values of a line with another nonce. */
  function Trying(d: string, seed: string, n: string, t: string, x: uint64): (f: Fields)
    requires WellFormed(d, seed, n, t)
    ensures |f.rawSeed| == 64
  {
    LineFields(d, seed, n, t).(nonce := x)
  }

  /** The search of a line starts at its third field, makes as many batches as its fourth
      says, and accepts exactly the nonces that meet the target. */
  lemma SearchOfLine(d: string, seed: string, n: string, t: string, x: uint64)
    requires WellFormed(d, seed, n, t)
    ensures ParseHex(d) < 0x1_0000_0000
    ensures var job := WorkJob(LineFields(d, seed, n, t));
            && job.n == ParseHex(n) && job.threads == ParseHex(t)
            && (job.accepts(x) <==>
                  Val(Sha256(Sha256(SeedBytes(seed) + ToBytes(Encoded(x), 8)))) < TargetValue(ParseHex(d)))
            && (job.accepts(x) <==> MeetsTarget(Trying(d, seed, n, t, x)))
  {
    hide ParseHex, Sha256, Val, SeedBytes, ToBytes, Encoded, TargetValue, Accepted, TargetBytes, Ntohl, AllHex, IsWord;
    FieldBounds(d, n);
    OkayMeans(LineFields(d, seed, n, t).(nonce := x));
  }

  /** In every reachable state, a WORK of a well-formed line whose batches have all ended
      without a solution and without being cancelled leaves no solution between its start
      nonce and 2^64 - 1, apart from the interval in which it accepted the nonce 0. */
  lemma NothingMissed(sys: V.System, i: nat, u: nat, d: string, seed: string, n: string, t: string, x: uint64)
    requires V.Reachable(sys) && i < |sys.clients| && u < |sys.clients[i].threads|
    requires WellFormed(d, seed, n, t) && sys.clients[i].threads[u].job == WorkJob(LineFields(d, seed, n, t))
    requires S.Exhausted(sys.clients[i].threads[u].search) && !sys.clients[i].threads[u].search.cancelled
    requires ParseHex(n) <= x < 0xffff_ffff_ffff_ffff
    ensures MeetsTarget(Trying(d, seed, n, t, x)) ==>
              && ParseHex(n) == 0 && MeetsTarget(Trying(d, seed, n, t, 0))
              && S.JobOk(WorkJob(LineFields(d, seed, n, t))) && S.SameRange(WorkJob(LineFields(d, seed, n, t)), 0, x)
  {
    hide V.Reachable, Inv, S.Inv, S.SameRange, S.Exhausted, S.JobOk, ParseHex, WorkJob, Trying, MeetsTarget, IsWord, AllHex, Sha256, Val, TargetValue, SeedBytes, ToBytes, Encoded;
    var c := sys.clients[i];
    W.ClientInv(sys, i);
    ThreadIsOk(c, u);
    SearchOfLine(d, seed, n, t, x);
    SearchOfLine(d, seed, n, t, 0);
    LineJobOk(d, seed, n, t);
    S.ExhaustedMeansNone(c.threads[u].job, c.threads[u].search, x);
  }

  lemma LineJobOk(d: string, seed: string, n: string, t: string)
    requires WellFormed(d, seed, n, t)
    ensures S.JobOk(WorkJob(LineFields(d, seed, n, t)))
  {
    hide ParseHex, AnsweredOkay, AllHex, IsWord;
    FieldBounds(d, n);
  }

  /** With one batch every reply is the least solution from the start nonce on. */
  lemma LeastReply(sys: V.System, i: nat, k: nat, d: string, seed: string, n: string, t: string, x: uint64)
    requires V.Reachable(sys) && i < |sys.clients| && k < |sys.clients[i].replies|
    requires WellFormed(d, seed, n, t) && ParseHex(t) == 1
    requires var r := sys.clients[i].replies[k];
             r.uid < |sys.clients[i].threads|
             && sys.clients[i].threads[r.uid].job == WorkJob(LineFields(d, seed, n, t))
    ensures var nonce := sys.clients[i].replies[k].nonce;
            && ParseHex(n) <= nonce < 0xffff_ffff_ffff_ffff
            && MeetsTarget(Trying(d, seed, n, t, nonce))
            && (ParseHex(n) <= x && MeetsTarget(Trying(d, seed, n, t, x)) ==> nonce <= x)
  {
    hide V.Reachable, ParseHex, WorkJob, Trying, MeetsTarget, IsWord, AllHex, Sha256, Val, TargetValue, SeedBytes, ToBytes, Encoded;
    W.RepliesAreSolutions(sys, i, k);
    var r := sys.clients[i].replies[k];
    SearchOfLine(d, seed, n, t, r.nonce);
    SearchOfLine(d, seed, n, t, x);
    LineJobOk(d, seed, n, t);
    OneRange(WorkJob(LineFields(d, seed, n, t)), sys.clients[i].threads[r.uid].search.writer, x);
  }

  /** One batch has one interval, from the first nonce to 2^64 - 1. */
  lemma OneRange(job: S.Job, writer: nat, x: nat)
    requires S.JobOk(job) && job.threads == 1 && writer < job.threads
    ensures job.n <= x < S.MAX64 <==> S.InRange(job.n, job.threads, writer, x)
  {
  }
}
