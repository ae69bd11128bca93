/** From a WORK line to the answer that its own reply would get: parsing, search,
    protocol, printing, framing and verification together. */
module EndToEnd {
  import opened Containers
  import opened Bytes
  import opened Target
  import opened Sha256Spec
  import opened ProofOfWork
  import opened Messages
  import F = Framing
  import S = Search
  import V = Server
  import W = WorkTheorems

  /** The rule in plain numbers: the double hash of the seed and the nonce that get_x
      encodes, against mantissa times 256^(exponent - 3). */
  predicate MeetsTarget(f: Fields)
    requires |f.rawSeed| == 64
  {
    Val(Sha256(Sha256(SeedBytes(f.rawSeed) + ToBytes(Encoded(f.nonce), 8)))) < TargetValue(f.difficulty)
  }

  lemma OkayMeans(f: Fields)
    requires |f.rawSeed| == 64
    ensures AnsweredOkay(f) <==>
              Val(Sha256(Sha256(SeedBytes(f.rawSeed) + ToBytes(Encoded(f.nonce), 8)))) < TargetValue(f.difficulty)
    ensures AnsweredOkay(f) <==> MeetsTarget(f)
  {
    hide Sha256, TargetBytes, TargetValue, Encoded, Val, ToBytes, Ntohl;
    TargetExact(f.difficulty);
    AcceptedSolves(TargetBytes(Ntohl(f.difficulty)), SeedBytes(f.rawSeed), f.nonce);
  }

  /** The fields that the check of a SOLN line uses, if the line determines them. With
      a field that cannot be read, or a seed that does not fill its 64 characters or
      overruns them, the source goes on with memory that the line does not determine. */
  function SolnFields(cmd: string): (r: Option<Fields>)
    requires |cmd| >= 5
    ensures r.Some? ==> |r.value.rawSeed| == 64
  {
    match ScanFields(cmd[5..], false)
    case None => None
    case Some(f) => if |f.rawSeed| == 64 then Some(f) else None
  }

  /** soln_handler: Some(true) for OKAY, Some(false) for ERRO, None where the line does
      not determine the answer. */
  method SolnHandler(cmd: string) returns (okay: Option<bool>)
    requires Dispatch(cmd) == Soln
    ensures okay.Some? <==> SolnFields(cmd).Some?
    ensures okay.Some? ==>
              var f := SolnFields(cmd).value;
              okay.value <==>
                Val(Sha256(Sha256(SeedBytes(f.rawSeed) + ToBytes(Encoded(f.nonce), 8)))) < TargetValue(f.difficulty)
  {
    hide ScanFields, TargetBytes, TargetValue, Accepted, Sha256, Val, ToBytes, Encoded, Ntohl;
    var fields := SolnFields(cmd);
    if fields == None {
      return None;
    }
    OkayMeans(fields.value);
    var target := GetTarget(Ntohl(fields.value.difficulty));
    var seed := Hstob(fields.value.rawSeed);
    var r := IsValidSoln(target, seed[..], fields.value.nonce);
    okay := Some(r == -1);
  }

  lemma FieldBounds(d: string, n: string)
    requires |d| == 8 && |n| == 16 && AllHex(d) && AllHex(n)
    ensures ParseHex(d) < 0x1_0000_0000 && ParseHex(n) < 0x1_00000000_00000000
  {
    hide ParseHex, Pow16;
    Pow16Values();
    ParseBound(d);
    ParseBound(n);
  }

  /** The values of the fields of a WORK line. */
  function LineFields(d: string, seed: string, n: string, t: string): (f: Fields)
    requires WellFormed(d, seed, n, t)
  {
    FieldBounds(d, n);
    Fields(ParseHex(d), seed, ParseHex(n), ParseHex(t))
  }

  /** A well-formed WORK line is dispatched as a WORK, its values are what is read from
      it, and they describe a search that can be started. */
  lemma WorkLineIsRead(d: string, seed: string, n: string, t: string)
    requires WellFormed(d, seed, n, t)
    ensures |WorkText(d, seed, n, t)| == 98 && Dispatch(WorkText(d, seed, n, t)) == WorkLine
    ensures ScanFields(WorkText(d, seed, n, t)[5..], true) == Some(LineFields(d, seed, n, t))
    ensures S.JobOk(WorkJob(LineFields(d, seed, n, t)))
  {
    hide ParseHex, ScanFields, Dispatch, AnsweredOkay, AllHex, IsWord;
    WorkScan(d, seed, n, t);
  }

  /** Whatever cuts the reply is read in, it arrives as one line, is dispatched as a
      SOLN, parses to the difficulty and seed of the WORK, and is answered OKAY. */
  ghost predicate AcceptedWhenReturned(f: Fields, nonce: uint64)
  {
    var line := SolnText(f.difficulty, f.rawSeed, nonce);
    && |line + "\r\n"| == 97
    && (forall chunks :: (forall r :: r in chunks ==> F.NulFree(r)) && Concat(chunks) == line + "\r\n" ==>
          F.Split(F.Received(chunks)) == F.Frames([line], ""))
    && Dispatch(line) == Soln
    && ScanFields(line[5..], false) == Some(Fields(f.difficulty, f.rawSeed, nonce, 0))
    && AnsweredOkay(Fields(f.difficulty, f.rawSeed, nonce, 0))
  }

  lemma SolnArrives(difficulty: word, seed: string, nonce: uint64, chunks: seq<string>)
    requires |seed| == 64 && IsWord(seed) && (forall r :: r in chunks ==> F.NulFree(r))
    requires Concat(chunks) == SolnText(difficulty, seed, nonce) + "\r\n"
    ensures F.Split(F.Received(chunks)) == F.Frames([SolnText(difficulty, seed, nonce)], "")
  {
    hide SolnText;
    SolnHasNoBreak(difficulty, seed, nonce);
    OneCommand(SolnText(difficulty, seed, nonce));
    F.NulFreeReads(chunks);
  }

  /** Every nonce that the search of a WORK accepts comes back as OKAY. */
  lemma FoundIsAccepted(f: Fields, nonce: uint64)
    requires |f.rawSeed| == 64 && IsWord(f.rawSeed) && WorkJob(f).accepts(nonce)
    ensures AcceptedWhenReturned(f, nonce)
  {
    hide SolnText, ScanFields, Dispatch, Accepted, TargetBytes, IsWord, SeedBytes, Ntohl;
    var line := SolnText(f.difficulty, f.rawSeed, nonce);
    SolnScan(f.difficulty, f.rawSeed, nonce);
    forall chunks | (forall r :: r in chunks ==> F.NulFree(r)) && Concat(chunks) == line + "\r\n"
      ensures F.Split(F.Received(chunks)) == F.Frames([line], "")
    {
      SolnArrives(f.difficulty, f.rawSeed, nonce, chunks);
    }
  }

  /** In every reachable state, every reply to a well-formed WORK line carries a nonce
      from the asked-for range, and fed back to the server it is answered OKAY. */
  lemma ReplyIsAccepted(sys: V.System, i: nat, k: nat, d: string, seed: string, n: string, t: string)
    requires V.Reachable(sys) && i < |sys.clients| && k < |sys.clients[i].replies|
    requires WellFormed(d, seed, n, t)
    requires var r := sys.clients[i].replies[k];
             r.uid < |sys.clients[i].threads|
             && sys.clients[i].threads[r.uid].job == WorkJob(LineFields(d, seed, n, t))
    ensures var nonce := sys.clients[i].replies[k].nonce;
            && ParseHex(n) <= nonce < S.MAX64
            && AcceptedWhenReturned(LineFields(d, seed, n, t), nonce)
            && MeetsTarget(LineFields(d, seed, n, t).(nonce := nonce))
  {
    hide V.Reachable, AcceptedWhenReturned, AnsweredOkay, MeetsTarget, ParseHex, S.InRange;
    W.RepliesAreSolutions(sys, i, k);
    var f := LineFields(d, seed, n, t);
    var nonce := sys.clients[i].replies[k].nonce;
    FoundIsAccepted(f, nonce);
    OkayMeans(f.(nonce := nonce));
  }
}
