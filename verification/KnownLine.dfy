/** The line of output/sol1-out.txt, character by character: what it is read as, that it
    is what a reply with these values looks like, and that it is answered OKAY. */
module KnownLine {
  import opened Bits
  import opened Bytes
  import opened Containers
  import opened Target
  import opened ProofOfWork
  import opened Sha256Spec
  import opened HashAnswers
  import opened Messages
  import opened EndToEnd
  import opened LineSearch
  import opened WorkProtocol
  import opened WorkRuns
  import opened WindowRun
  import V = Server

  const SEED_TEXT: string :=
    ("00000000" + "19d6689c" + "085ae165" + "831e934f") + ("f763ae46" + "a218a6c1" + "72b3f1b6" + "0a8ce26f")

  const LINE: string := "SOLN " + "1fffffff" + " " + SEED_TEXT + " " + "1000000023212147"

  // ------------------------------------------------------------ its numbers

  lemma FourDigits(s: string)
    requires |s| == 4 && AllHex(s)
    ensures ParseHex(s) == 0x1000 * HexValue(s[0]) + 0x100 * HexValue(s[1]) + 0x10 * HexValue(s[2]) + HexValue(s[3])
  {
    hide HexValue, ParseHex;
    LastDigit(s, s[..3]);
    LastDigit(s[..3], s[..2]);
    LastDigit(s[..2], s[..1]);
    LastDigit(s[..1], []);
    NoDigits([]);
  }

  lemma LastDigit(s: string, p: string)
    requires s != [] && AllHex(s) && p == s[..|s| - 1]
    ensures ParseHex(s) == 16 * ParseHex(p) + HexValue(s[|s| - 1])
  {
  }

  lemma FourMore(p: string, s: string)
    requires AllHex(p) && AllHex(s) && |s| == 4
    ensures ParseHex(p + s) == 0x1_0000 * ParseHex(p) + ParseHex(s)
  {
    hide HexValue, ParseHex;
    FourDigits(s);
    LastDigit(p + s, p + s[..3]);
    LastDigit(p + s[..3], p + s[..2]);
    LastDigit(p + s[..2], p + s[..1]);
    LastDigit(p + s[..1], p);
  }

  lemma DifficultyDigits()
    ensures ParseHex("1fffffff") == 0x1fffffff
  {
    hide ParseHex;
    FourDigits("1fff");
    FourDigits("ffff");
    assert "1fffffff" == "1fff" + "ffff";
    FourMore("1fff", "ffff");
  }

  lemma NonceDigits()
    ensures ParseHex("1000000023212147") == 0x1000000023212147
  {
    hide ParseHex;
    FourDigits("1000");
    FourDigits("0000");
    FourDigits("2321");
    FourDigits("2147");
    FourMore("1000", "0000");
    FourMore("1000" + "0000", "2321");
    FourMore("1000" + "0000" + "2321", "2147");
    assert "1000000023212147" == "1000" + "0000" + "2321" + "2147";
  }

  lemma PrintedDigits()
    ensures PrintHex(0x1fffffff, 8) == "1fffffff" && PrintHex(0x1000000023212147, 16) == "1000000023212147"
  {
    hide ParseHex, PrintHex;
    DifficultyDigits();
    NonceDigits();
    PrintParse("1fffffff");
    PrintParse("1000000023212147");
  }

  // ------------------------------------------------------------ its seed

  /** The bytes that pairs of digits stand for. */
  function PairBytes(s: string): (b: seq<byte>)
    requires |s| % 2 == 0
    ensures |b| == |s| / 2
  {
    seq(|s| / 2, i requires 0 <= i < |s| / 2 => HexPair(s[2 * i], s[2 * i + 1]))
  }

  /** Eight digits that write the word z. */
  predicate Writes(s: string, z: bv32)
  {
    |s| == 8 && AllHex(s) && PairBytes(s) == BytesOf(z)
  }

  lemma WritesIff(s: string, z: bv32)
    requires |s| == 8 && AllHex(s)
    requires BytesOf(z) == [HexPair(s[0], s[1]), HexPair(s[2], s[3]), HexPair(s[4], s[5]), HexPair(s[6], s[7])]
    ensures Writes(s, z)
  {
    hide HexPair, BytesOf, AllHex;
  }

  lemma PairsConcat(s: string, t: string)
    requires |s| % 2 == 0 && |t| % 2 == 0
    ensures PairBytes(s + t) == PairBytes(s) + PairBytes(t)
  {
    hide HexPair;
  }

  lemma Part0() ensures Writes("00000000", 0x00000000) { hide BytesOf; SeedFirst(); WritesIff("00000000", 0x00000000); }
  lemma Part1() ensures Writes("19d6689c", 0x19d6689c) { hide BytesOf; SeedFirst(); WritesIff("19d6689c", 0x19d6689c); }
  lemma Part2() ensures Writes("085ae165", 0x085ae165) { hide BytesOf; SeedFirst(); WritesIff("085ae165", 0x085ae165); }
  lemma Part3() ensures Writes("831e934f", 0x831e934f) { hide BytesOf; SeedFirst(); WritesIff("831e934f", 0x831e934f); }
  lemma Part4() ensures Writes("f763ae46", 0xf763ae46) { hide BytesOf; SeedLast(); WritesIff("f763ae46", 0xf763ae46); }
  lemma Part5() ensures Writes("a218a6c1", 0xa218a6c1) { hide BytesOf; SeedLast(); WritesIff("a218a6c1", 0xa218a6c1); }
  lemma Part6() ensures Writes("72b3f1b6", 0x72b3f1b6) { hide BytesOf; SeedLast(); WritesIff("72b3f1b6", 0x72b3f1b6); }
  lemma Part7() ensures Writes("0a8ce26f", 0x0a8ce26f) { hide BytesOf; SeedLast(); WritesIff("0a8ce26f", 0x0a8ce26f); }

  /** Two texts of pairs, and the bytes that they write. */
  predicate WritesBytes(s: string, b: seq<byte>)
  {
    |s| % 2 == 0 && AllHex(s) && PairBytes(s) == b
  }

  lemma WritesConcat(s: string, b: seq<byte>, t: string, c: seq<byte>)
    requires WritesBytes(s, b) && WritesBytes(t, c)
    ensures WritesBytes(s + t, b + c)
  {
    hide HexPair;
    PairsConcat(s, t);
  }

  lemma FourWrite(a: string, b: string, c: string, d: string, w: bv32, x: bv32, y: bv32, z: bv32)
    requires Writes(a, w) && Writes(b, x) && Writes(c, y) && Writes(d, z)
    ensures |a + b + c + d| == 32
    ensures WritesBytes(a + b + c + d, BytesOf(w) + BytesOf(x) + BytesOf(y) + BytesOf(z))
  {
    hide BytesOf, PairBytes, AllHex;
    WritesConcat(a, BytesOf(w), b, BytesOf(x));
    WritesConcat(a + b, BytesOf(w) + BytesOf(x), c, BytesOf(y));
    WritesConcat(a + b + c, BytesOf(w) + BytesOf(x) + BytesOf(y), d, BytesOf(z));
  }

  lemma SeedWritten()
    ensures |SEED_TEXT| == 64 && WritesBytes(SEED_TEXT, SEED)
  {
    hide BytesOf, Writes, WritesBytes, SEED;
    SeedBytesOf();
    Part0();
    Part1();
    Part2();
    Part3();
    Part4();
    Part5();
    Part6();
    Part7();
    FourWrite("00000000", "19d6689c", "085ae165", "831e934f", 0x00000000, 0x19d6689c, 0x085ae165, 0x831e934f);
    FourWrite("f763ae46", "a218a6c1", "72b3f1b6", "0a8ce26f", 0xf763ae46, 0xa218a6c1, 0x72b3f1b6, 0x0a8ce26f);
    WritesConcat("00000000" + "19d6689c" + "085ae165" + "831e934f",
                 BytesOf(0x00000000) + BytesOf(0x19d6689c) + BytesOf(0x085ae165) + BytesOf(0x831e934f),
                 "f763ae46" + "a218a6c1" + "72b3f1b6" + "0a8ce26f",
                 BytesOf(0xf763ae46) + BytesOf(0xa218a6c1) + BytesOf(0x72b3f1b6) + BytesOf(0x0a8ce26f));
  }

  lemma HexIsWord(s: string)
    requires AllHex(s)
    ensures IsWord(s)
  {
  }

  lemma SeedText()
    ensures |SEED_TEXT| == 64 && IsWord(SEED_TEXT) && SeedBytes(SEED_TEXT) == SEED
  {
    hide HexPair, SEED, SEED_TEXT, AllHex, IsWord;
    SeedWritten();
    HexIsWord(SEED_TEXT);
    assert SeedBytes(SEED_TEXT) == PairBytes(SEED_TEXT);
  }

  // ------------------------------------------------------------ what it is read as

  lemma LineIsPrinted(d: word, n: uint64)
    requires d == 0x1fffffff && n == 0x1000000023212147
    ensures SolnText(d, SEED_TEXT, n) == LINE
  {
    hide PrintHex, Ntohl, SEED_TEXT;
    PrintedDigits();
    NtohlTwice(d);
  }

  /** The line is what a reply with these values looks like, and it is read as a SOLN
      with these values. */
  lemma LineIsRead()
    ensures Dispatch(LINE) == Soln
    ensures var r := ScanFields(LINE[5..], false);
            r.Some? && r.value.difficulty == 0x1fffffff && r.value.rawSeed == SEED_TEXT && r.value.nonce == 0x1000000023212147
  {
    hide Dispatch, ScanFields, SolnText, IsWord, SEED_TEXT, SeedBytes;
    var d: word, n: uint64 := 0x1fffffff, 0x1000000023212147;
    SeedText();
    LineIsPrinted(d, n);
    SolnScan(d, SEED_TEXT, n);
  }

  // ------------------------------------------------------------ what it is answered

  lemma Pow2At224(k: nat)
    requires k == 224
    ensures Pow2(k) == 0x1_00000000_00000000_00000000_00000000_00000000_00000000_00000000
  {
    hide Pow2;
    var j := 32;
    Pow2At32();
    Pow2Double(j, 0x1_0000_0000);
    Pow2Double(2 * j, 0x1_00000000_00000000);
    Pow2Add(4 * j, 2 * j);
    Pow2Add(6 * j, j);
  }

  /** The target is 0xffffff followed by 28 bytes. */
  lemma TargetOfLine(v: word, k: nat)
    requires v == 0x1fffffff && k == 224
    ensures TargetValue(v) == 0xffffff * Pow2(k)
  {
    hide Pow2;
    Pow2At224(k);
    assert 8 * (v / 0x100_0000 - 3) == k;
  }

  lemma HeadOfDigest()
    ensures |OUTER_DIGEST| == 32 && OUTER_DIGEST[..4] == [0x00, 0xe3, 0x60, 0x72]
  {
  }

  lemma DigestBelow(k: nat)
    requires k == 224
    ensures |OUTER_DIGEST| == 32 && Val(OUTER_DIGEST) < 0xffffff * Pow2(k)
  {
    hide Pow2, Val, OUTER_DIGEST;
    HeadOfDigest();
    var head, tail := OUTER_DIGEST[..4], OUTER_DIGEST[4..];
    assert OUTER_DIGEST == head + tail;
    FourVal(head);
    ValConcat(head, tail);
    ValBound(tail);
    ShlIsMul(Val(head), k);
    MulLower(Val(head), 0xffffff, Pow2(k));
  }

  lemma NonceBytes(n: nat)
    requires n == 0x1000000023212147
    ensures ToBytes(n, 8) == NONCE
  {
    hide Val, ToBytes, Pow2;
    var k := 32;
    assert NONCE == NONCE[..4] + NONCE[4..];
    FourVal(NONCE[..4]);
    FourVal(NONCE[4..]);
    ValConcat(NONCE[..4], NONCE[4..]);
    ShlIsMul(Val(NONCE[..4]), k);
    Pow2At32();
    ValBound(NONCE);
    DecodeEncode(n, 8);
    ValInjective(ToBytes(n, 8), NONCE);
  }

  /** The double hash of these values is below the target. */
  lemma ValuesAreOkay(f: Fields)
    requires f.difficulty == 0x1fffffff && f.rawSeed == SEED_TEXT && f.nonce == 0x1000000023212147
    ensures |f.rawSeed| == 64 && AnsweredOkay(f)
  {
    hide Sha256, Val, TargetValue, SeedBytes, AnsweredOkay, ToBytes, SEED_TEXT, SEED, NONCE, OUTER_DIGEST, Pow2;
    var k := 224;
    SeedText();
    NonceBytes(f.nonce);
    assert Encoded(f.nonce) == f.nonce;
    DoubleHash();
    DigestBelow(k);
    TargetOfLine(f.difficulty, k);
    OkayMeans(f);
  }

  /** The line of output/sol1-out.txt is answered OKAY. */
  lemma LineIsOkay()
    ensures SolnFields(LINE).Some? && AnsweredOkay(SolnFields(LINE).value)
  {
    hide ScanFields, AnsweredOkay, Dispatch, SEED_TEXT;
    LineIsRead();
    SeedText();
    ValuesAreOkay(SolnFields(LINE).value);
  }

  // ------------------------------------------------------------ a WORK that starts there

  lemma OneDigits()
    ensures ParseHex("01") == 1
  {
    hide ParseHex;
    LastDigit("01", "0");
    LastDigit("0", []);
    NoDigits([]);
  }

  lemma WorkWellFormed()
    ensures WellFormed("1fffffff", SEED_TEXT, "1000000023212147", "01")
  {
    hide ParseHex, SEED_TEXT, IsWord;
    SeedText();
    OneDigits();
  }

  /** The values of the WORK of output/work1-out.txt, with the solution as its first nonce. */
  function StartValues(): (f: Fields)
    ensures |f.rawSeed| == 64
  {
    WorkWellFormed();
    LineFields("1fffffff", SEED_TEXT, "1000000023212147", "01")
  }

  lemma StartValuesAre()
    ensures var f := StartValues();
            f.difficulty == 0x1fffffff && f.rawSeed == SEED_TEXT && f.nonce == 0x1000000023212147 && f.threads == 1
  {
    hide ParseHex, SEED_TEXT, WellFormed;
    DifficultyDigits();
    NonceDigits();
    OneDigits();
    WorkWellFormed();
  }

  /** Every reply to that WORK, in every state that the server can reach, carries its first
      nonce, and there is a run in which it is sent. */
  lemma FirstNonceIsReply(sys: V.System, i: nat, k: nat)
    requires V.Reachable(sys) && i < |sys.clients| && k < |sys.clients[i].replies|
    requires var r := sys.clients[i].replies[k];
             r.uid < |sys.clients[i].threads| && sys.clients[i].threads[r.uid].job == WorkJob(StartValues())
    ensures sys.clients[i].replies[k].nonce == 0x1000000023212147
  {
    hide V.Reachable, ParseHex, WorkJob, AnsweredOkay, MeetsTarget, SEED_TEXT, WellFormed, SeedBytes;
    WorkWellFormed();
    StartValuesAre();
    var f := StartValues();
    ValuesAreOkay(f);
    OkayMeans(f);
    LeastReply(sys, i, k, "1fffffff", SEED_TEXT, "1000000023212147", "01", f.nonce);
  }

  lemma FirstNonceIsSent() returns (c: Client)
    ensures V.Reachable(Alone(c, 0))
    ensures |c.threads| == 1 && c.threads[0].job == WorkJob(StartValues())
    ensures c.replies == [Reply(0, 0x1000000023212147)]
  {
    hide Leads, AnsweredOkay, SEED_TEXT, StartValues, V.IsRun, V.After;
    StartValuesAre();
    var f := StartValues();
    ValuesAreOkay(f);
    var job := WorkJob(f);
    assert Quick(job);
    BetweenResetsReached(job);
    c := BetweenResets(job);
    FromEmpty(Alone(c, 0));
  }

  lemma FromEmpty(sys: V.System)
    requires Leads(V.EMPTY, sys, true)
    ensures V.Reachable(sys)
  {
    hide V.IsRun, V.After;
  }
}
