/** The linked list of thread ids that orders a client's work (handler_helper.c). */
module TidQueue {

  class Node {
    var threadId: int
    var next: Node?

    constructor (tid: int)
      ensures threadId == tid && next == null
    {
      threadId := tid;
      next := null;
    }
  }

  class Queue {
    var head: Node?

    /** The nodes from the head on. */
    ghost var spine: seq<Node>

    ghost predicate Valid()
      reads this, spine
    {
      && head == (if spine == [] then null else spine[0])
      && (forall i, j :: 0 <= i < j < |spine| ==> spine[i] != spine[j])
      && (forall i :: 0 <= i < |spine| - 1 ==> spine[i].next == spine[i + 1])
      && (spine != [] ==> spine[|spine| - 1].next == null)
    }

    ghost function Tids(): (s: seq<int>)
      reads this, spine
      ensures |s| == |spine|
    {
      seq(|spine|, i requires 0 <= i < |spine| reads this, spine => spine[i].threadId)
    }

    constructor ()
      ensures Valid() && Tids() == []
    {
      head := null;
      spine := [];
    }

    /** `push_tid`: walk to the last node and hang the new one behind it. */
    method Push(tid: int)
      requires Valid()
      modifies this, spine
      ensures Valid() && Tids() == old(Tids()) + [tid]
      ensures fresh(set n | n in spine && n !in old(spine))
    {
      var node := new Node(tid);
      if head != null {
        var curr: Node := head;
        ghost var k := 0;
        while curr.next != null
          invariant Valid() && 0 <= k < |spine| && curr == spine[k]
          invariant k < |spine| - 1 ==> curr.next == spine[k + 1]
          decreases |spine| - k
        {
          curr := curr.next;
          k := k + 1;
        }
        curr.next := node;
      } else {
        head := node;
      }
      ghost var before := spine;
      spine := spine + [node];
      assert forall i :: 0 <= i < |before| ==> spine[i] == before[i] && spine[i].threadId == old(before[i].threadId);
    }

    /** `rm_tid`: unlink the head, if there is one. */
    method Remove()
      requires Valid()
      modifies this
      ensures Valid()
      ensures Tids() == if old(Tids()) == [] then [] else old(Tids())[1..]
    {
      if head != null {
        head := head.next;
        ghost var before := spine;
        spine := spine[1..];
        assert forall i :: 0 <= i < |spine| ==> spine[i] == before[i + 1];
      }
    }

    /** `get_tid`: the id at the head, -1 on an empty queue. */
    method Head() returns (val: int)
      requires Valid()
      ensures val == if Tids() == [] then -1 else Tids()[0]
    {
      val := -1;
      if head != null {
        val := head.threadId;
      }
    }
  }
}
