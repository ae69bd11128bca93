/** The slot flags of threads.c: 0 for a free slot, anything else for a taken one. */
module Slots {

  /** The lowest free slot, or -1. */
  function FirstFree(flags: seq<int>): (r: int)
    ensures -1 <= r < |flags|
    ensures r >= 0 ==> flags[r] == 0 && forall i :: 0 <= i < r ==> flags[i] != 0
    ensures r == -1 <==> forall i :: 0 <= i < |flags| ==> flags[i] != 0
  {
    if flags == [] then -1
    else if flags[0] == 0 then 0
    else
      var r := FirstFree(flags[1..]);
      assert forall i :: 1 <= i < |flags| ==> flags[i] == flags[1..][i - 1];
      if r == -1 then -1 else r + 1
  }

  /** The flags after the lowest free slot has been taken. */
  function Taken(flags: seq<int>): (r: seq<int>)
    ensures |r| == |flags|
  {
    if FirstFree(flags) == -1 then flags else flags[FirstFree(flags) := 1]
  }

  function CountFree(flags: seq<int>): (n: nat)
    ensures n <= |flags|
  {
    if flags == [] then 0
    else CountFree(flags[..|flags| - 1]) + if flags[|flags| - 1] == 0 then 1 else 0
  }

  method InitAvailFlags(count: nat) returns (flags: array<int>)
    ensures fresh(flags) && flags.Length == count
    ensures forall i :: 0 <= i < count ==> flags[i] == 0
  {
    flags := new int[count](_ => 0);
  }

  lemma FirstFreeIs(flags: seq<int>, i: nat)
    requires i < |flags| && flags[i] == 0 && forall j :: 0 <= j < i ==> flags[j] != 0
    ensures FirstFree(flags) == i
  {
    var r := FirstFree(flags);
    assert r != -1;
  }

  method GetAvailThread(flags: array<int>) returns (val: int)
    modifies flags
    ensures val == FirstFree(old(flags[..]))
    ensures flags[..] == Taken(old(flags[..]))
  {
    val := -1;
    for i := 0 to flags.Length
      invariant val == -1 && flags[..] == old(flags[..])
      invariant forall j :: 0 <= j < i ==> flags[j] != 0
    {
      if flags[i] == 0 {
        FirstFreeIs(flags[..], i);
        flags[i] := 1;
        val := i;
        break;
      }
    }
  }

  method CountAvailThread(flags: array<int>) returns (t: nat)
    ensures t == CountFree(flags[..])
  {
    t := 0;
    for i := 0 to flags.Length
      invariant t == CountFree(flags[..i])
    {
      if flags[i] == 0 {
        t := t + 1;
      }
      assert flags[..i + 1][..i] == flags[..i];
    }
    assert flags[..flags.Length] == flags[..];
  }

  /** Answers 1 or -1 and never 0, the value that handler.c:96 tests for. */
  method CheckAvailThread(flags: array<int>) returns (val: int)
    ensures val == if FirstFree(flags[..]) == -1 then -1 else 1
  {
    val := -1;
    for i := 0 to flags.Length
      invariant val == -1
      invariant forall j :: 0 <= j < i ==> flags[j] != 0
    {
      if flags[i] == 0 {
        FirstFreeIs(flags[..], i);
        val := 1;
        return;
      }
    }
  }

  method ResetFlag(flags: array<int>, i: nat)
    requires i < flags.Length
    modifies flags
    ensures flags[..] == old(flags[..])[i := 0]
  {
    flags[i] := 0;
  }

  /** Taking a slot uses up exactly one free slot, and only if there is one. */
  lemma TakenCount(flags: seq<int>)
    ensures CountFree(Taken(flags)) == if CountFree(flags) == 0 then 0 else CountFree(flags) - 1
    ensures FirstFree(flags) == -1 <==> CountFree(flags) == 0
  {
    CountFreeZero(flags);
    if FirstFree(flags) >= 0 {
      CountFreeUpdate(flags, FirstFree(flags));
    }
  }

  lemma {:induction false} CountFreeZero(flags: seq<int>)
    ensures CountFree(flags) == 0 <==> forall i :: 0 <= i < |flags| ==> flags[i] != 0
  {
    if flags != [] {
      var n := |flags| - 1;
      CountFreeZero(flags[..n]);
      assert forall i :: 0 <= i < n ==> flags[i] == flags[..n][i];
    }
  }

  lemma {:induction false} CountFreeUpdate(flags: seq<int>, k: nat)
    requires k < |flags| && flags[k] == 0
    ensures CountFree(flags[k := 1]) == CountFree(flags) - 1
  {
    var n := |flags| - 1;
    if k == n {
      assert flags[k := 1][..n] == flags[..n];
    } else {
      assert flags[k := 1][..n] == flags[..n][k := 1];
      CountFreeUpdate(flags[..n], k);
    }
  }
}
