/** Turning what arrives on a connection into commands: the growing buffer of
    handler_helper.c and the read loop of client_handler. */
module Framing {
  import opened Containers

  // ------------------------------------------------------------ specification

  predicate CrlfAt(s: string, i: nat)
  {
    i + 1 < |s| && s[i] == '\r' && s[i + 1] == '\n'
  }

  ghost predicate HasCrlf(s: string)
  {
    exists i: nat :: CrlfAt(s, i)
  }

  /** The position of the first CRLF at or after i, or |s| if there is none. */
  function FindFrom(s: string, i: nat): (k: nat)
    requires i <= |s|
    ensures i <= k <= |s|
    ensures k < |s| ==> CrlfAt(s, k)
    ensures forall j: nat :: i <= j < k ==> !CrlfAt(s, j)
    decreases |s| - i
  {
    if i + 1 >= |s| then |s| else if CrlfAt(s, i) then i else FindFrom(s, i + 1)
  }

  datatype Frames = Frames(commands: seq<string>, rest: string)

  /** The stream cut at each first CRLF. */
  function Split(s: string): (f: Frames)
  {
    var i := FindFrom(s, 0);
    if i == |s| then Frames([], s)
    else
      var f := Split(s[i + 2..]);
      Frames([s[..i]] + f.commands, f.rest)
  }

  /** Commands each followed by CRLF. */
  function Joined(commands: seq<string>): (s: string)
  {
    if commands == [] then [] else commands[0] + "\r\n" + Joined(commands[1..])
  }

  /** No command and no leftover contains a CRLF. */
  ghost predicate Clean(f: Frames)
  {
    (forall c :: c in f.commands ==> !HasCrlf(c)) && !HasCrlf(f.rest)
  }

  lemma FindIsFirst(s: string, k: nat)
    requires CrlfAt(s, k) && forall j: nat :: j < k ==> !CrlfAt(s, j)
    ensures FindFrom(s, 0) == k
  {
    var i := FindFrom(s, 0);
    assert !(i < k);
    assert !(k < i);
  }

  lemma PrefixIsClean(s: string, i: nat)
    requires i <= |s| && forall j: nat :: j < i ==> !CrlfAt(s, j)
    ensures !HasCrlf(s[..i])
  {
    if HasCrlf(s[..i]) {
      var j: nat :| CrlfAt(s[..i], j);
      assert CrlfAt(s, j);
    }
  }

  /** Nothing is lost, nothing is invented, and every cut is at a CRLF. */
  lemma {:induction false} SplitIsLossless(s: string)
    ensures Joined(Split(s).commands) + Split(s).rest == s
    ensures Clean(Split(s))
    decreases |s|
  {
    var i := FindFrom(s, 0);
    PrefixIsClean(s, i);
    if i == |s| {
      assert s[..i] == s;
      assert Joined([]) + s == s;
    } else {
      var tail := s[i + 2..];
      SplitIsLossless(tail);
      CutIsLossless(s, i, Split(tail));
    }
  }

  lemma CutIsLossless(s: string, i: nat, f: Frames)
    requires CrlfAt(s, i) && !HasCrlf(s[..i])
    requires Joined(f.commands) + f.rest == s[i + 2..] && Clean(f)
    ensures var g := Frames([s[..i]] + f.commands, f.rest);
            Joined(g.commands) + g.rest == s && Clean(g)
  {
    assert ([s[..i]] + f.commands)[1..] == f.commands;
    assert s == s[..i] + "\r\n" + s[i + 2..];
    assert s[..i] + "\r\n" + (Joined(f.commands) + f.rest) == (s[..i] + "\r\n" + Joined(f.commands)) + f.rest;
  }

  lemma SplitStep(s: string)
    ensures var i := FindFrom(s, 0);
            Split(s) == if i == |s| then Frames([], s)
                        else var f := Split(s[i + 2..]); Frames([s[..i]] + f.commands, f.rest)
  {
  }

  /** There is only one way to cut the stream cleanly. */
  lemma {:induction false} SplitIsUnique(s: string, f: Frames)
    requires Joined(f.commands) + f.rest == s && Clean(f)
    ensures Split(s) == f
    decreases |f.commands|
  {
    if f.commands == [] {
      assert s == f.rest;
    } else {
      var c, cs := f.commands[0], f.commands[1..];
      var tail := Joined(cs) + f.rest;
      assert s == c + "\r\n" + tail;
      FirstCutIs(s, c, tail);
      SplitIsUnique(tail, Frames(cs, f.rest));
      assert f.commands == [c] + cs;
    }
  }

  lemma FirstCutIs(s: string, c: string, tail: string)
    requires s == c + "\r\n" + tail && !HasCrlf(c)
    ensures FindFrom(s, 0) == |c| < |s| && s[..|c|] == c && s[|c| + 2..] == tail
  {
    assert CrlfAt(s, |c|);
    forall j: nat | j < |c| ensures !CrlfAt(s, j) {
      assert CrlfAt(s, j) && j + 1 < |c| ==> CrlfAt(c, j);
    }
    FindIsFirst(s, |c|);
  }

  /** Cutting what has arrived so far and then the leftover with more input is
      cutting everything at once. */
  lemma {:induction false} SplitAppend(s: string, t: string)
    ensures var f := Split(s); var g := Split(f.rest + t);
            Split(s + t) == Frames(f.commands + g.commands, g.rest)
    decreases |s|
  {
    hide Split;
    SplitStep(s);
    var i := FindFrom(s, 0);
    if i == |s| {
      assert [] + Split(s + t).commands == Split(s + t).commands;
    } else {
      var tail := s[i + 2..];
      SplitAppend(tail, t);
      CutAppend(s, t, i);
      SplitStep(s + t);
      var f, g := Split(tail), Split(Split(tail).rest + t);
      assert [s[..i]] + (f.commands + g.commands) == ([s[..i]] + f.commands) + g.commands;
    }
  }

  lemma CutAppend(s: string, t: string, i: nat)
    requires i == FindFrom(s, 0) < |s|
    ensures FindFrom(s + t, 0) == i && (s + t)[..i] == s[..i] && (s + t)[i + 2..] == s[i + 2..] + t
  {
    var u := s + t;
    assert CrlfAt(u, i);
    forall j: nat | j < i ensures !CrlfAt(u, j) {
      assert CrlfAt(u, j) ==> CrlfAt(s, j);
    }
    FindIsFirst(u, i);
  }

  // ------------------------------------------------------------ reads as C strings

  /** `strlen`: the bytes of a read before its first NUL; the receive buffer is
      cleared before each read and longer than any read. */
  function StrLen(s: string): (n: nat)
    ensures n <= |s|
    ensures forall i :: 0 <= i < n ==> s[i] != '\0'
    ensures n < |s| ==> s[n] == '\0'
  {
    if s == [] || s[0] == '\0' then 0 else 1 + StrLen(s[1..])
  }

  /** The bytes that a sequence of reads adds to the buffer. */
  function Received(chunks: seq<string>): (s: string)
  {
    if chunks == [] then []
    else
      var last := chunks[|chunks| - 1];
      Received(chunks[..|chunks| - 1]) + last[..StrLen(last)]
  }

  predicate NulFree(s: string)
  {
    forall i :: 0 <= i < |s| ==> s[i] != '\0'
  }

  lemma {:induction false} NulFreeReads(chunks: seq<string>)
    requires forall r :: r in chunks ==> NulFree(r)
    ensures Received(chunks) == Concat(chunks)
  {
    if chunks != [] {
      var n := |chunks| - 1;
      NulFreeReads(chunks[..n]);
      var last := chunks[n];
      assert last in chunks;
      assert StrLen(last) == |last|;
      assert last[..|last|] == last;
    }
  }

  // ------------------------------------------------------------ the buffer

  class CommandBuffer {
    var str: array<char>  // *full_cmd_str, of *str_len characters
    var used: nat         // *used_len

    ghost predicate Valid()
      reads this
    {
      used <= str.Length && 0 < str.Length
    }

    ghost function Contents(): (s: string)
      reads this, str
      requires Valid()
    {
      str[..used]
    }

    constructor ()
      ensures Valid() && fresh(str) && Contents() == []
    {
      str := new char[128];
      used := 0;
    }

    method HasCommand() returns (found: bool)
      requires Valid()
      ensures found <==> FindFrom(Contents(), 0) < used
    {
      var i := 0;
      while i < used - 1
        invariant 0 <= i && (used > 0 ==> i < used)
        invariant forall j: nat :: j < i ==> !CrlfAt(Contents(), j)
      {
        if str[i] == '\r' && str[i + 1] == '\n' {
          assert CrlfAt(Contents(), i);
          return true;
        }
        assert !CrlfAt(Contents(), i);
        i := i + 1;
      }
      assert forall j: nat :: j < used ==> !CrlfAt(Contents(), j);
      return false;
    }

    /** Copies the characters after position i + 1 to the front of a new buffer. */
    method Shift(i: nat)
      requires Valid() && i + 2 <= used
      modifies this
      ensures Valid() && fresh(str) && str.Length == old(str.Length)
      ensures Contents() == old(Contents())[i + 2..]
    {
      var len := str.Length;
      var rest := new char[len];
      forall k | 0 <= k < len - i - 2 { rest[k] := str[i + 2 + k]; }
      str := rest;
      used := used - (i + 2);
    }

    method GetCommand() returns (cmd: Option<string>)
      requires Valid()
      modifies this
      ensures Valid() && (str == old(str) || fresh(str))
      ensures var s := old(Contents()); var i := FindFrom(s, 0);
              if i == |s| then cmd == None && Contents() == s
              else cmd == Some(s[..i]) && Contents() == s[i + 2..]
    {
      ghost var s := Contents();
      var i := 0;
      while i < used - 1
        invariant 0 <= i && (used > 0 ==> i < used)
        invariant forall j: nat :: j < i ==> !CrlfAt(s, j)
        invariant Valid() && str == old(str) && Contents() == s
      {
        if str[i] == '\r' && str[i + 1] == '\n' {
          FindIsFirst(s, i);
          cmd := Some(str[..i]);
          assert str[..i] == s[..i];
          Shift(i);
          return;
        }
        i := i + 1;
      }
      assert forall j: nat :: j < |s| ==> !CrlfAt(s, j);
      return None;
    }

    /** Doubles the buffer until the read fits (handler_helper.c:144-147). */
    method Grow(need: nat)
      requires Valid()
      modifies this
      ensures Valid() && str.Length >= need && used == old(used)
      ensures str == old(str) || fresh(str)
      ensures Contents() == old(Contents())
    {
      ghost var s := Contents();
      while str.Length < need
        invariant Valid() && used == old(used) && Contents() == s
        invariant str == old(str) || fresh(str)
        decreases need - str.Length
      {
        var bigger := new char[2 * str.Length];
        forall k | 0 <= k < str.Length { bigger[k] := str[k]; }
        str := bigger;
      }
    }

    method Join(chunk: string)
      requires Valid()
      modifies this, str
      ensures Valid() && (str == old(str) || fresh(str))
      ensures Contents() == old(Contents()) + chunk[..StrLen(chunk)]
    {
      ghost var s := Contents();
      var len := StrLen(chunk);
      Grow(used + len + 1);
      assert str[..used] == s;
      forall k | 0 <= k < len { str[used + k] := chunk[k]; }
      assert str[..used] == s;
      used := used + len;
      assert str[..used] == s + chunk[..len];
    }
  }

  /** The inner loop at handler.c:104: every complete command is taken out. */
  method Drain(b: CommandBuffer) returns (cmds: seq<string>)
    requires b.Valid()
    modifies b
    ensures b.Valid() && (b.str == old(b.str) || fresh(b.str))
    ensures cmds == Split(old(b.Contents())).commands
    ensures b.Contents() == Split(old(b.Contents())).rest
    ensures FindFrom(b.Contents(), 0) == b.used
  {
    hide Split;
    cmds := [];
    ghost var s := b.Contents();
    SplitStep(s);
    var cmd := b.GetCommand();
    while cmd.Some?
      invariant b.Valid() && (b.str == old(b.str) || fresh(b.str))
      invariant cmd.None? ==> FindFrom(b.Contents(), 0) == b.used && cmds == Split(s).commands && b.Contents() == Split(s).rest
      invariant cmd.Some? ==> var f := Split(b.Contents()); Split(s) == Frames(cmds + ([cmd.value] + f.commands), f.rest)
      decreases b.used, cmd.Some?
    {
      ghost var t := b.Contents();
      SplitStep(t);
      assert cmds + ([cmd.value] + Split(t).commands) == (cmds + [cmd.value]) + Split(t).commands;
      cmds := cmds + [cmd.value];
      cmd := b.GetCommand();
      assert cmds + [] == cmds;
    }
  }

  /** The outer loop of client_handler over the reads it makes. */
  method ReadCommands(chunks: seq<string>) returns (cmds: seq<string>, rest: string)
    ensures Frames(cmds, rest) == Split(Received(chunks))
  {
    var b := new CommandBuffer();
    cmds := [];
    var k := 0;
    while k < |chunks|
      invariant 0 <= k <= |chunks|
      invariant fresh(b) && fresh(b.str) && b.Valid()
      invariant FindFrom(b.Contents(), 0) == b.used
      invariant Split(Received(chunks[..k])) == Frames(cmds, b.Contents())
    {
      var has := b.HasCommand();
      assert !has;
      ghost var before := b.Contents();
      ghost var chunk := chunks[k][..StrLen(chunks[k])];
      SplitAppend(Received(chunks[..k]), chunk);
      assert chunks[..k + 1][..k] == chunks[..k];
      if !has {
        b.Join(chunks[k]);
        k := k + 1;
      }
      var more := Drain(b);
      cmds := cmds + more;
    }
    assert chunks[..|chunks|] == chunks;
    rest := b.str[..b.used];
  }

  /** Framing does not depend on how the stream was cut into reads. */
  lemma ChunkingIsIrrelevant(chunks: seq<string>, others: seq<string>)
    requires forall r :: r in chunks ==> NulFree(r)
    requires forall r :: r in others ==> NulFree(r)
    requires Concat(chunks) == Concat(others)
    ensures Split(Received(chunks)) == Split(Received(others))
    ensures var f := Split(Received(chunks)); Joined(f.commands) + f.rest == Concat(chunks)
  {
    NulFreeReads(chunks);
    NulFreeReads(others);
    SplitIsLossless(Concat(chunks));
  }
}
