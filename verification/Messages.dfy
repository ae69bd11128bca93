/** The WORK and SOLN lines: what sscanf reads from them, what sprintf writes, how a
    line is dispatched, and what a SOLN is answered. */
module Messages {
  import opened Containers
  import opened Bits
  import opened Bytes
  import opened Uint256
  import opened Target
  import opened ProofOfWork
  import F = Framing
  import S = Search

  // ------------------------------------------------------------ hexadecimal

  predicate IsHex(c: char)
  {
    '0' <= c <= '9' || 'a' <= c <= 'f' || 'A' <= c <= 'F'
  }

  function HexValue(c: char): (v: nat)
    requires IsHex(c)
    ensures v < 16
  {
    if c <= '9' then c as int - '0' as int
    else if c <= 'F' then c as int - 'A' as int + 10
    else c as int - 'a' as int + 10
  }

  function HexDigit(v: nat): (c: char)
    requires v < 16
    ensures IsHex(c) && HexValue(c) == v
  {
    if v < 10 then (v + '0' as int) as char else (v - 10 + 'a' as int) as char
  }

  /** The digits in both cases, each in the place of its value, and no other character. */
  lemma HexDigits(v: nat)
    requires v < 16
    ensures IsHex("0123456789abcdef"[v]) && HexValue("0123456789abcdef"[v]) == v
    ensures IsHex("0123456789ABCDEF"[v]) && HexValue("0123456789ABCDEF"[v]) == v
    ensures HexDigit(v) == "0123456789abcdef"[v]
  {
  }

  lemma IsHexIff(c: char)
    ensures IsHex(c) <==> c in "0123456789abcdef" || c in "0123456789ABCDEF"
  {
  }

  predicate AllHex(s: string)
  {
    forall i :: 0 <= i < |s| ==> IsHex(s[i])
  }

  function ParseHex(s: string): (n: nat)
    requires AllHex(s)
  {
    if s == [] then 0 else 16 * ParseHex(s[..|s| - 1]) + HexValue(s[|s| - 1])
  }

  function Pow16(w: nat): (p: nat)
    ensures p >= 1
  {
    if w == 0 then 1 else 16 * Pow16(w - 1)
  }

  /** `%08x` and `%016lx`: w digits, which is all of n when n < 16^w. */
  function PrintHex(n: nat, w: nat): (s: string)
    ensures |s| == w && AllHex(s)
  {
    if w == 0 then [] else PrintHex(n / 16, w - 1) + [HexDigit(n % 16)]
  }

  lemma {:induction false} ParsePrint(n: nat, w: nat)
    requires n < Pow16(w)
    ensures ParseHex(PrintHex(n, w)) == n
  {
    if w > 0 {
      ParsePrint(n / 16, w - 1);
      var s := PrintHex(n, w);
      assert s[..w - 1] == PrintHex(n / 16, w - 1);
    }
  }

  predicate IsLower(c: char)
  {
    IsHex(c) && !('A' <= c <= 'F')
  }

  lemma DigitBack(c: char)
    requires IsLower(c)
    ensures HexDigit(HexValue(c)) == c
  {
  }

  /** Digits printed from the number that they denote are the same digits, if they were
      lower-case. */
  lemma {:induction false} PrintParse(s: string)
    requires AllHex(s) && forall i :: 0 <= i < |s| ==> IsLower(s[i])
    ensures PrintHex(ParseHex(s), |s|) == s
  {
    hide HexDigit, HexValue, IsLower;
    if s != [] {
      var p, c := s[..|s| - 1], s[|s| - 1];
      PrintParse(p);
      DigitBack(c);
      assert (16 * ParseHex(p) + HexValue(c)) / 16 == ParseHex(p);
      assert s == p + [c];
    }
  }

  lemma {:induction false} ParseBound(s: string)
    requires AllHex(s)
    ensures ParseHex(s) < Pow16(|s|)
  {
    if s != [] { ParseBound(s[..|s| - 1]); }
  }

  lemma Pow16Values()
    ensures Pow16(2) == 0x100 && Pow16(8) == 0x1_0000_0000 && Pow16(16) == 0x1_00000000_00000000
  {
  }

  // ------------------------------------------------------------ sscanf

  predicate IsSpace(c: char)
  {
    c == ' ' || 9 as char <= c <= 13 as char
  }

  function SkipSpace(s: string): (r: string)
    ensures |r| <= |s|
  {
    if s != [] && IsSpace(s[0]) then SkipSpace(s[1..]) else s
  }

  /** The length of the hexadecimal digits at the front of s. */
  function HexRun(s: string): (k: nat)
    ensures k <= |s| && AllHex(s[..k])
  {
    if s != [] && IsHex(s[0]) then
      var k := 1 + HexRun(s[1..]);
      assert forall i :: 1 <= i < k ==> s[i] == s[1..][i - 1];
      k
    else 0
  }

  /** The length of what is before the first white space of s. */
  function WordRun(s: string): (k: nat)
    ensures k <= |s|
  {
    if s != [] && !IsSpace(s[0]) then 1 + WordRun(s[1..]) else 0
  }

  /** A conversion and what it leaves to be scanned. */
  datatype Scanned<T> = NoMatch | Match(value: T, rest: string)

  function SkipSign(s: string): (r: string)
    ensures |r| <= |s|
  {
    if s != [] && (s[0] == '+' || s[0] == '-') then s[1..] else s
  }

  /** A `0x` that digits follow is not part of the number. */
  function SkipPrefix(s: string): (r: string)
    ensures |r| <= |s|
  {
    if |s| >= 3 && s[0] == '0' && (s[1] == 'x' || s[1] == 'X') && IsHex(s[2]) then s[2..] else s
  }

  /** What the C library makes of the digits: at most 2^64 - 1, negated modulo 2^64
      after a minus sign, and cut to the size of the variable. */
  function Stored(n: nat, negative: bool, size: nat): (v: nat)
    requires size > 0
  {
    var m := if n >= S.TWO_64 then S.MAX64 else if negative then (S.TWO_64 - n) % S.TWO_64 else n;
    m % size
  }

  /** `%x` and `%lx` into an unsigned integer of the given size. */
  function ScanHex(s: string, size: nat): (r: Scanned<nat>)
    requires size > 0
  {
    var t := SkipSpace(s);
    var u := SkipPrefix(SkipSign(t));
    var k := HexRun(u);
    if k == 0 then NoMatch else Match(Stored(ParseHex(u[..k]), t[0] == '-', size), u[k..])
  }

  /** `%s` */
  function ScanWord(s: string): (r: Scanned<string>)
  {
    var t := SkipSpace(s);
    var k := WordRun(t);
    if k == 0 then NoMatch else Match(t[..k], t[k..])
  }

  datatype Fields = Fields(difficulty: word, rawSeed: string, nonce: uint64, threads: nat)

  /** `sscanf(command_str + 5, "%x %s %lx", ...)`, and for a WORK the fourth `%x`. */
  function ScanFields(s: string, withThreads: bool): (r: Option<Fields>)
  {
    match ScanHex(s, 0x1_0000_0000)
    case NoMatch => None
    case Match(d, s1) =>
      match ScanWord(s1)
      case NoMatch => None
      case Match(raw, s2) =>
        match ScanHex(s2, 0x1_00000000_00000000)
        case NoMatch => None
        case Match(n, s3) =>
          if !withThreads then Some(Fields(d, raw, n, 0))
          else
            match ScanHex(s3, 0x1_0000_0000)
            case NoMatch => None
            case Match(t, _) => Some(Fields(d, raw, n, t))
  }

  lemma HexNotSpace(c: char)
    requires IsHex(c)
    ensures !IsSpace(c)
  {
  }

  /** The scanner stops where the digits end. */
  lemma {:induction false} HexRunStops(h: string, rest: string)
    requires AllHex(h) && (rest == [] || !IsHex(rest[0]))
    ensures HexRun(h + rest) == |h|
  {
    if h == [] {
      assert h + rest == rest;
    } else {
      assert (h + rest)[1..] == h[1..] + rest;
      HexRunStops(h[1..], rest);
    }
  }

  /** A word that `%s` reads whole: no white space and no NUL. */
  predicate IsWord(s: string)
  {
    forall i :: 0 <= i < |s| ==> !IsSpace(s[i]) && s[i] != '\0'
  }

  lemma {:induction false} WordRunStops(h: string, rest: string)
    requires IsWord(h) && (rest == [] || IsSpace(rest[0]))
    ensures WordRun(h + rest) == |h|
  {
    if h == [] {
      assert h + rest == rest;
    } else {
      assert (h + rest)[1..] == h[1..] + rest;
      WordRunStops(h[1..], rest);
    }
  }

  /** A leading blank, a field of digits, and then the end or another blank. */
  predicate FieldEnds(rest: string)
  {
    rest == [] || rest[0] == ' '
  }

  lemma SkipOne(h: string, rest: string)
    requires h != [] && !IsSpace(h[0])
    ensures SkipSpace(h + rest) == h + rest
    ensures SkipSpace(" " + h + rest) == h + rest
  {
    assert (h + rest)[0] == h[0];
    assert (" " + h + rest)[1..] == h + rest;
  }

  /** A field of digits has neither sign nor prefix. */
  lemma SkipNothing(h: string, rest: string)
    requires h != [] && AllHex(h) && FieldEnds(rest)
    ensures SkipSign(h + rest) == h + rest && SkipPrefix(h + rest) == h + rest
  {
    var s := h + rest;
    assert s[0] == h[0];
    if |s| >= 3 { assert s[1] == if |h| >= 2 then h[1] else rest[0]; }
  }

  lemma ScanHexField(h: string, rest: string, size: nat)
    requires h != [] && AllHex(h) && ParseHex(h) < S.TWO_64 && FieldEnds(rest) && size > 0
    ensures ScanHex(h + rest, size) == Match(ParseHex(h) % size, rest)
    ensures ScanHex(" " + h + rest, size) == Match(ParseHex(h) % size, rest)
  {
    hide ParseHex, SkipSign, SkipPrefix, SkipSpace, HexRun;
    HexNotSpace(h[0]);
    assert (h + rest)[0] == h[0] != '-';
    SkipOne(h, rest);
    SkipNothing(h, rest);
    HexRunStops(h, rest);
    assert (h + rest)[..|h|] == h && (h + rest)[|h|..] == rest;
  }

  lemma ScanWordField(h: string, rest: string)
    requires h != [] && IsWord(h) && FieldEnds(rest)
    ensures ScanWord(" " + h + rest) == Match(h, rest)
  {
    SkipOne(h, rest);
    WordRunStops(h, rest);
    assert (h + rest)[..|h|] == h && (h + rest)[|h|..] == rest;
  }

  /** White space before a conversion is skipped: the six characters that the C library
      calls space, and no others. */
  lemma SpacesAreSkipped(c: char, s: string, size: nat)
    requires size > 0
    ensures IsSpace(c) <==> c in " \t\n\r" || c == 11 as char || c == 12 as char
    ensures IsSpace(c) ==> ScanHex([c] + s, size) == ScanHex(s, size) && ScanWord([c] + s) == ScanWord(s)
  {
    hide ParseHex, HexRun, WordRun, SkipSign, SkipPrefix, Stored;
    assert ([c] + s)[1..] == s;
  }

  /** What a conversion makes of s when sign and prefix are off and the digits h follow. */
  lemma ScanAfter(s: string, h: string, rest: string, size: nat)
    requires s != [] && !IsSpace(s[0]) && SkipPrefix(SkipSign(s)) == h + rest && size > 0
    requires h != [] && AllHex(h) && FieldEnds(rest) && ParseHex(h) < S.TWO_64
    ensures ScanHex(s, size) ==
              Match((if s[0] == '-' then (S.TWO_64 - ParseHex(h)) % S.TWO_64 else ParseHex(h)) % size, rest)
  {
    hide ParseHex, SkipSign, SkipPrefix, HexRun;
    HexRunStops(h, rest);
    assert (h + rest)[..|h|] == h && (h + rest)[|h|..] == rest;
  }

  lemma PrefixIsSkipped(u: string)
    requires u != [] && IsHex(u[0])
    ensures SkipPrefix("0x" + u) == u && SkipPrefix("0X" + u) == u
  {
    assert ("0x" + u)[2] == u[0] && ("0X" + u)[2] == u[0];
    assert ("0x" + u)[2..] == u && ("0X" + u)[2..] == u;
  }

  lemma SignIsSkipped(u: string)
    ensures SkipSign("+" + u) == u && SkipSign("-" + u) == u
    ensures SkipSign("0x" + u) == "0x" + u && SkipSign("0X" + u) == "0X" + u
  {
    assert ("+" + u)[1..] == u && ("-" + u)[1..] == u;
  }

  /** What the digits may be preceded by: a sign, or `0x` in either case, or both. */
  lemma SignsAndPrefixes(h: string, rest: string, size: nat)
    requires h != [] && AllHex(h) && ParseHex(h) < S.TWO_64 && FieldEnds(rest) && size > 0
    ensures ScanHex("+" + (h + rest), size) == Match(ParseHex(h) % size, rest)
    ensures ScanHex("0x" + (h + rest), size) == Match(ParseHex(h) % size, rest)
    ensures ScanHex("0X" + (h + rest), size) == Match(ParseHex(h) % size, rest)
    ensures ScanHex("-" + (h + rest), size) == Match((S.TWO_64 - ParseHex(h)) % S.TWO_64 % size, rest)
    ensures ScanHex("-" + ("0x" + (h + rest)), size) == Match((S.TWO_64 - ParseHex(h)) % S.TWO_64 % size, rest)
  {
    hide ParseHex, ScanHex, SkipSign, SkipPrefix, AllHex;
    var u := h + rest;
    assert u[0] == h[0] && IsHex(u[0]) by { FirstIsHex(h); }
    SkipNothing(h, rest);
    PrefixIsSkipped(u);
    SignIsSkipped(u);
    SignIsSkipped("0x" + u);
    ScanAfter("+" + u, h, rest, size);
    ScanAfter("0x" + u, h, rest, size);
    ScanAfter("0X" + u, h, rest, size);
    ScanAfter("-" + u, h, rest, size);
    ScanAfter("-" + ("0x" + u), h, rest, size);
  }

  lemma FirstIsHex(h: string)
    requires h != [] && AllHex(h)
    ensures IsHex(h[0])
  {
  }

  /** A minus sign negates modulo the size of the variable, and a number beyond 64 bits
      leaves all ones, in each of the sizes that are used. */
  lemma StoredIs(n: nat, size: nat)
    requires size == 0x100 || size == 0x1_0000_0000 || size == 0x1_00000000_00000000
    ensures n < S.TWO_64 ==> Stored(n, false, size) == n % size && (Stored(n, true, size) + n) % size == 0
    ensures n >= S.TWO_64 ==> Stored(n, false, size) == Stored(n, true, size) == size - 1
  {
    hide Stored;
    if n >= S.TWO_64 {
      Saturated(n, size);
    } else {
      var k := if size == 0x100 then 0x1_000000_00000000 else if size == 0x1_0000_0000 then 0x1_0000_0000 else 1;
      assert k * size == S.TWO_64;
      Negated(n, size, k);
    }
  }

  lemma Saturated(n: nat, size: nat)
    requires n >= S.TWO_64 && (size == 0x100 || size == 0x1_0000_0000 || size == 0x1_00000000_00000000)
    ensures Stored(n, false, size) == Stored(n, true, size) == size - 1
  {
  }

  lemma Negated(n: nat, size: nat, k: nat)
    requires n < S.TWO_64 && size > 0 && k * size == S.TWO_64
    ensures Stored(n, false, size) == n % size && (Stored(n, true, size) + n) % size == 0
  {
    var m := (S.TWO_64 - n) % S.TWO_64;
    var q, r := Divide(m, size);
    if n == 0 {
      DivModUnique(0, size, 0, 0);
    } else {
      assert m == S.TWO_64 - n;
      assert (k - q) * size == k * size - q * size == r + n;
      Multiple(r + n, size, k - q);
    }
  }

  lemma Multiple(x: nat, size: nat, c: int)
    requires size > 0 && x == c * size
    ensures x % size == 0
  {
    if c < 0 {
      MulLower(0, -c, size);
    } else {
      DivModUnique(x, size, c, 0);
    }
  }

  // ------------------------------------------------------------ hstob

  /** `%2hhx` into a byte that was 0, on two characters that are not white space: two
      digits, one digit, a sign and a digit, or nothing that can be read. */
  function HexPair(a: char, b: char): (v: byte)
  {
    if IsHex(a) then (if IsHex(b) then 16 * HexValue(a) + HexValue(b) else HexValue(a))
    else if a == '+' && IsHex(b) then HexValue(b)
    else if a == '-' && IsHex(b) then (256 - HexValue(b)) % 256
    else 0
  }

  /** That is the general conversion on these two characters, cut to a byte. */
  lemma PairIsScan(a: char, b: char)
    requires !IsSpace(a)
    ensures HexPair(a, b) == match ScanHex([a, b], 0x100) case NoMatch => 0 case Match(v, _) => v
  {
    hide ParseHex, HexValue, HexRun, IsHex;
    var s := [a, b];
    assert s[1..] == [b];
    RunOfOne(b);
    RunOfTwo(a, b);
    OneDigit(a);
    OneDigit(b);
    TwoDigits(a, b);
    assert s[..2] == s && [b][..1] == [b] && s[..1] == [a];
    if a == '+' || a == '-' { SignIsNoDigit(a); }
  }

  lemma SignIsNoDigit(c: char)
    requires c == '+' || c == '-'
    ensures !IsHex(c)
  {
  }

  lemma RunOfOne(c: char)
    ensures HexRun([c]) == if IsHex(c) then 1 else 0
  {
    assert [c][1..] == [];
  }

  lemma RunOfTwo(a: char, b: char)
    ensures HexRun([a, b]) == if IsHex(a) then 1 + HexRun([b]) else 0
  {
    assert [a, b][1..] == [b];
  }

  lemma OneDigit(c: char)
    ensures IsHex(c) ==> AllHex([c]) && ParseHex([c]) == HexValue(c)
  {
    if IsHex(c) {
      NoDigits([]);
      assert [c][..0] == [];
    }
  }

  lemma TwoDigits(a: char, b: char)
    ensures IsHex(a) && IsHex(b) ==> AllHex([a, b]) && ParseHex([a, b]) == 16 * HexValue(a) + HexValue(b)
  {
    if IsHex(a) && IsHex(b) {
      OneDigit(a);
      assert [a, b][..1] == [a];
    }
  }

  function SeedBytes(raw: string): (s: buffer)
    requires |raw| == 64
  {
    seq(32, i requires 0 <= i < 32 => HexPair(raw[2 * i], raw[2 * i + 1]))
  }

  method Hstob(hex: string) returns (val: array<byte>)
    requires |hex| == 64
    ensures fresh(val) && val.Length == 32 && val[..] == SeedBytes(hex)
  {
    val := new byte[32](_ => 0);
    var pos := 0;
    for count := 0 to 32
      invariant pos == 2 * count
      invariant forall k :: 0 <= k < count ==> val[k] == SeedBytes(hex)[k]
    {
      val[count] := HexPair(hex[pos], hex[pos + 1]);
      pos := pos + 2;
    }
  }

  lemma {:induction false} SeedPrefix(raw: string, k: nat)
    requires |raw| == 64 && AllHex(raw) && k <= 32
    ensures Val(SeedBytes(raw)[..k]) == ParseHex(raw[..2 * k])
  {
    hide ParseHex, HexPair;
    if k == 0 {
      NoDigits(raw[..2 * k]);
    } else {
      SeedPrefix(raw, k - 1);
      PairStep(raw, 2 * (k - 1));
      assert SeedBytes(raw)[..k][..k - 1] == SeedBytes(raw)[..k - 1];
    }
  }

  lemma NoDigits(s: string)
    requires s == []
    ensures ParseHex(s) == 0
  {
  }

  lemma PairStep(raw: string, i: nat)
    requires AllHex(raw) && i + 2 <= |raw|
    ensures ParseHex(raw[..i + 2]) == 256 * ParseHex(raw[..i]) + HexPair(raw[i], raw[i + 1])
  {
    assert raw[..i + 2][..i + 1] == raw[..i + 1];
    assert raw[..i + 1][..i] == raw[..i];
  }

  /** The seed is the number that its 64 digits denote, big-endian. */
  lemma SeedIsNumber(raw: string)
    requires |raw| == 64 && AllHex(raw)
    ensures Val(SeedBytes(raw)) == ParseHex(raw)
  {
    hide Val, ParseHex;
    var k := |SeedBytes(raw)|;
    SeedPrefix(raw, k);
    assert SeedBytes(raw)[..k] == SeedBytes(raw) && raw[..2 * k] == raw;
  }

  // ------------------------------------------------------------ lines

  datatype Handler = Ping | Pong | Okay | Erro | Soln | Slep | Abrt | WorkLine | Unknown

  /** What the comparisons see: the first four characters if a blank follows them. */
  function Verb(cmd: string): (v: string)
  {
    if |cmd| > 4 && cmd[4] == ' ' then cmd[..4] else cmd
  }

  /** handler.c:148-197 */
  function Dispatch(cmd: string): (h: Handler)
  {
    var v, len := Verb(cmd), |cmd|;
    if v == "PING" && len == 4 then Ping
    else if v == "PONG" && len == 4 then Pong
    else if v == "OKAY" && len == 4 then Okay
    else if v == "ERRO" && len == 4 then Erro
    else if v == "SOLN" && len == 95 then Soln
    else if v == "SLEP" && len == 4 then Slep
    else if v == "ABRT" && len == 4 then Abrt
    else if v == "WORK" && len == 98 then WorkLine
    else Unknown
  }

  /** Which lines each handler gets. */
  lemma DispatchIff(cmd: string)
    ensures Dispatch(cmd) == Ping <==> cmd == "PING"
    ensures Dispatch(cmd) == Pong <==> cmd == "PONG"
    ensures Dispatch(cmd) == Okay <==> cmd == "OKAY"
    ensures Dispatch(cmd) == Erro <==> cmd == "ERRO"
    ensures Dispatch(cmd) == Slep <==> cmd == "SLEP"
    ensures Dispatch(cmd) == Abrt <==> cmd == "ABRT"
    ensures Dispatch(cmd) == Soln <==> |cmd| == 95 && cmd[..5] == "SOLN "
    ensures Dispatch(cmd) == WorkLine <==> |cmd| == 98 && cmd[..5] == "WORK "
  {
    if |cmd| > 4 {
      VerbFits(cmd, "SOLN");
      VerbFits(cmd, "WORK");
    }
  }

  /** The comparison of the first four characters and a blank. */
  lemma VerbFits(cmd: string, name: string)
    requires |cmd| > 4 && |name| == 4
    ensures Verb(cmd) == name <==> cmd[..5] == name + " "
  {
    assert cmd[..5] == cmd[..4] + [cmd[4]];
    if cmd[..5] == name + " " {
      assert cmd[4] == (name + " ")[4] == ' ';
      assert cmd[..4] == (name + " ")[..4] == name;
    }
  }

  /** The fields of a line have the documented widths; all but the seed, which may be
      any word, are hexadecimal digits. */
  predicate WellFormed(d: string, seed: string, n: string, t: string)
  {
    && |d| == 8 && |seed| == 64 && |n| == 16 && |t| == 2
    && AllHex(d) && IsWord(seed) && AllHex(n) && AllHex(t) && ParseHex(t) >= 1
  }

  function WorkText(d: string, seed: string, n: string, t: string): (line: string)
  {
    "WORK " + (d + (" " + seed + (" " + n + (" " + t + ""))))
  }

  /** work_handler.c:181-185, without the CRLF; htonl undoes the ntohl of the parse. */
  function SolnText(difficulty: word, seed: string, solution: uint64): (line: string)
  {
    "SOLN " + (PrintHex(Ntohl(Ntohl(difficulty)), 8) + (" " + seed + (" " + PrintHex(solution, 16) + "")))
  }

  /** soln_handler answers OKAY. */
  predicate AnsweredOkay(f: Fields)
  {
    && |f.rawSeed| == 64
    && Accepted(TargetBytes(Ntohl(f.difficulty)), SeedBytes(f.rawSeed), f.nonce)
  }

  lemma WorkScan(d: string, seed: string, n: string, t: string)
    requires WellFormed(d, seed, n, t)
    ensures Dispatch(WorkText(d, seed, n, t)) == WorkLine
    ensures ParseHex(d) < 0x1_0000_0000 && ParseHex(n) < 0x1_00000000_00000000 && 1 <= ParseHex(t) < 0x100
    ensures ScanFields(WorkText(d, seed, n, t)[5..], true) == Some(Fields(ParseHex(d), seed, ParseHex(n), ParseHex(t)))
  {
    hide ParseHex, ScanHex, ScanWord, AllHex, IsWord, Pow16;
    var s3 := " " + t + "";
    var s2 := " " + n + s3;
    var s1 := " " + seed + s2;
    var line := WorkText(d, seed, n, t);
    assert line[..4] == "WORK" && line[4] == ' ' && |line| == 98;
    assert line[5..] == d + s1;
    Pow16Values();
    ParseBound(d);
    ParseBound(n);
    ParseBound(t);
    ScanHexField(d, s1, 0x1_0000_0000);
    ScanWordField(seed, s2);
    ScanHexField(n, s3, 0x1_00000000_00000000);
    ScanHexField(t, "", 0x1_0000_0000);
  }

  /** A SOLN line is recognised, and parsing it gives back what was printed. */
  lemma SolnScan(difficulty: word, seed: string, solution: uint64)
    requires |seed| == 64 && IsWord(seed)
    ensures |SolnText(difficulty, seed, solution)| == 95 && Dispatch(SolnText(difficulty, seed, solution)) == Soln
    ensures ScanFields(SolnText(difficulty, seed, solution)[5..], false) == Some(Fields(difficulty, seed, solution, 0))
  {
    hide ParseHex, PrintHex, ScanHex, ScanWord, AllHex, IsWord, Pow16, Ntohl;
    NtohlTwice(difficulty);
    var d, n := PrintHex(difficulty, 8), PrintHex(solution, 16);
    var s2 := " " + n + "";
    var s1 := " " + seed + s2;
    var line := SolnText(difficulty, seed, solution);
    assert line[..4] == "SOLN" && line[4] == ' ' && |line| == 95;
    assert line[5..] == d + s1;
    Pow16Values();
    ParsePrint(difficulty, 8);
    ParsePrint(solution, 16);
    ScanHexField(d, s1, 0x1_0000_0000);
    ScanWordField(seed, s2);
    ScanHexField(n, "", 0x1_00000000_00000000);
  }

  // ------------------------------------------------------------ the work of a line

  /** The nonces that the search of a WORK with these fields accepts. */
  ghost function WorkJob(f: Fields): (job: S.Job)
    requires |f.rawSeed| == 64
  {
    S.Job((x: nat) => x < 0x1_00000000_00000000 && AnsweredOkay(f.(nonce := x)), f.nonce, f.threads)
  }

  /** No CRLF is hidden in a line without line breaks. */
  lemma OneCommand(line: string)
    requires forall i :: 0 <= i < |line| ==> line[i] != '\r'
    ensures F.Split(line + "\r\n") == F.Frames([line], "")
  {
    assert !F.HasCrlf(line) && !F.HasCrlf("");
    var f := F.Frames([line], "");
    assert F.Joined(f.commands) == line + "\r\n" + F.Joined(f.commands[1..]);
    assert F.Joined(f.commands) + "" == line + "\r\n";
    F.SplitIsUnique(line + "\r\n", f);
  }

  lemma SolnHasNoBreak(difficulty: word, seed: string, solution: uint64)
    requires |seed| == 64 && IsWord(seed)
    ensures forall i :: 0 <= i < |SolnText(difficulty, seed, solution)| ==> SolnText(difficulty, seed, solution)[i] != '\r'
  {
    hide PrintHex, Ntohl;
  }
}
