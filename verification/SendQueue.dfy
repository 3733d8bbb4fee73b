/** The send queue of fz_common.h: an intrusive singly linked list with head and tail.

    `push`, `pop` and `is_empty` are taken as the atomic critical sections they are
    meant to be; see README.md for the locking the code really does. */
module SendQueue {
  import opened Words

  /** What the queue hands on: a buffer owned by the pusher and its length. */
  datatype Container<T> = Container(data: T, len: nat)

  class Node<T> {
    const container: Container<T>
    var next: Node?<T>

    constructor (c: Container<T>)
      ensures container == c && next == null
    {
      container, next := c, null;
    }
  }

  class QList<T> {
    var head: Node?<T>
    var tail: Node?<T>
    var count: nat
    /** The nodes from head to tail. */
    ghost var spine: seq<Node<T>>

    ghost predicate Valid()
      reads this, spine
    {
      && (forall i, j :: 0 <= i < j < |spine| ==> spine[i] != spine[j])
      && (forall i :: 0 <= i < |spine| - 1 ==> spine[i].next == spine[i + 1])
      && (spine != [] ==> spine[|spine| - 1].next == null)
      && head == (if spine == [] then null else spine[0])
      && tail == (if spine == [] then null else spine[|spine| - 1])
      && count == |spine|
    }

    /** What is queued, oldest first. */
    ghost function Contents(): seq<Container<T>>
      reads this
    {
      seq(|spine|, i requires 0 <= i < |spine| reads this => spine[i].container)
    }

    constructor ()
      ensures Valid() && Contents() == [] && spine == []
    {
      head, tail, count, spine := null, null, 0, [];
    }

    method Push(p: T, l: nat)
      requires Valid()
      modifies this, spine
      ensures Valid() && Contents() == old(Contents()) + [Container(p, l)]
      ensures exists n :: fresh(n) && spine == old(spine) + [n]
    {
      var insert := new Node(Container(p, l));
      if tail != null {
        tail.next := insert;
        tail := tail.next;
      } else {
        tail := insert;
        head := tail;
      }
      count := count + 1;
      spine := spine + [insert];
    }

    /** The oldest container, or None when the queue is empty. */
    method Pop() returns (r: Option<Container<T>>)
      requires Valid()
      modifies this
      ensures Valid()
      ensures match r
              case None => old(Contents()) == [] && spine == old(spine)
              case Some(c) => old(Contents()) == [c] + Contents() && old(spine) != [] && spine == old(spine)[1..]
    {
      if head == null {
        return None;
      }
      r := Some(head.container);
      ghost var all := spine;
      assert |all| > 1 ==> all[0].next == all[1];
      if head.next != null {
        head := head.next;
      } else {
        tail := null;
        head := null;
      }
      count := count - 1;
      spine := all[1..];
      assert forall i :: 0 <= i < |spine| ==> spine[i] == all[i + 1];
    }

    method IsEmpty() returns (b: bool)
      requires Valid()
      ensures b <==> Contents() == []
    {
      b := head == null;
    }

    method Size() returns (n: nat)
      requires Valid()
      ensures n == |Contents()|
    {
      n := count;
    }

    /** Frees what is left, oldest first; `count` goes down on every round. */
    method Destroy() returns (freed: seq<Container<T>>)
      requires Valid()
      modifies this
      ensures Valid() && Contents() == [] && freed == old(Contents())
    {
      freed := [];
      var empty := IsEmpty();
      while !empty
        invariant Valid()
        invariant freed + Contents() == old(Contents())
        invariant empty <==> Contents() == []
        decreases count
      {
        var p := Pop();
        match p {
          case None =>
          case Some(c) => freed := freed + [c];
        }
        empty := IsEmpty();
      }
    }
  }
}
