/** The players' list of event groups: a static head, a sequence counter, and nodes
    appended by walking to the end. */
module EventList {
  import opened Words
  import opened EventFile

  class Node {
    const seqNo: nat
    const entry: Entry
    var next: Node?

    constructor (seqNo: nat, entry: Entry)
      ensures this.seqNo == seqNo && this.entry == entry && next == null
    {
      this.seqNo, this.entry, next := seqNo, entry, null;
    }
  }

  class List {
    var head: Node?
    var seqNumber: nat
    /** The nodes from the head on. */
    ghost var spine: seq<Node>
    ghost var repr: set<object>
    /** The groups in the list, in order. */
    ghost var contents: seq<Entry>

    /** The chain is the spine, and sequence numbers are 0, 1, 2, ... along it. */
    ghost predicate Linked()
      reads this, repr
    {
      && this in repr && (forall i :: 0 <= i < |spine| ==> spine[i] in repr)
      && (forall i, j :: 0 <= i < j < |spine| ==> spine[i] != spine[j])
      && (forall i :: 0 <= i < |spine| - 1 ==> spine[i].next == spine[i + 1])
      && (spine != [] ==> spine[|spine| - 1].next == null)
      && head == (if spine == [] then null else spine[0])
      && |contents| == |spine|
      && (forall i :: 0 <= i < |spine| ==> spine[i].seqNo == i && spine[i].entry == contents[i])
    }

    ghost predicate Valid()
      reads this, repr
    {
      Linked() && seqNumber == |spine|
    }

    constructor ()
      ensures Valid() && contents == [] && fresh(repr)
    {
      head, seqNumber, spine := null, 0, [];
      repr, contents := {this}, [];
    }

    /** Walks to the end of the chain. */
    method Last() returns (t: Node)
      requires Valid() && head != null
      ensures t == spine[|spine| - 1]
    {
      t := head;
      ghost var i := 0;
      while t.next != null
        invariant 0 <= i < |spine| && t == spine[i]
        invariant t.next == if i < |spine| - 1 then spine[i + 1] else null
        decreases |spine| - i
      {
        t := t.next;
        i := i + 1;
      }
    }

    /** Links a node behind the last one. */
    method Append(p: Node)
      requires Valid() && p !in repr && p.next == null && p.seqNo == |spine|
      modifies repr
      ensures seqNumber == old(seqNumber) && spine == old(spine) + [p] && contents == old(contents) + [p.entry]
      ensures repr == old(repr) + {p} && Linked()
    {
      if head == null {
        head := p;
      } else {
        var t := Last();
        ghost var all := spine;
        t.next := p;
        assert forall k :: 0 <= k < |all| - 1 ==> all[k].next == all[k + 1];
      }
      spine, repr, contents := spine + [p], repr + {p}, contents + [p.entry];
    }

    /** `insert_event_list`: appends, and returns the new number of groups. */
    method Insert(entry: Entry) returns (count: nat)
      requires Valid()
      modifies repr
      ensures Valid() && contents == old(contents) + [entry] && count == |contents|
      ensures fresh(repr - old(repr))
    {
      var p := new Node(seqNumber, entry);
      Append(p);
      seqNumber := seqNumber + 1;
      count := GetCount();
    }

    method GetCount() returns (count: nat)
      requires Valid()
      ensures count == |contents|
    {
      count := 0;
      var p := head;
      while p != null
        invariant 0 <= count <= |spine|
        invariant p == if count < |spine| then spine[count] else null
        decreases |spine| - count
      {
        p := p.next;
        count := count + 1;
      }
    }

    /** `get_event_data`: the group with a sequence number, if there is one. */
    method GetEventData(seqNo: int) returns (r: Option<Entry>)
      requires Valid()
      ensures r == if 0 <= seqNo < |contents| then Some(contents[seqNo]) else None
    {
      var p := head;
      ghost var i := 0;
      while p != null
        invariant 0 <= i <= |spine| && (0 <= seqNo < |spine| ==> i <= seqNo)
        invariant p == if i < |spine| then spine[i] else null
        decreases |spine| - i
      {
        if p.seqNo == seqNo {
          return Some(p.entry);
        }
        p := p.next;
        i := i + 1;
      }
      return None;
    }

    /** `destroy_event_list`: releases every group once, in order, and numbering starts
        again at 0. */
    method Destroy() returns (freed: seq<Entry>)
      requires Valid()
      modifies this
      ensures Valid() && contents == [] && repr == {this} && freed == old(contents)
    {
      freed := [];
      var p := head;
      while p != null
        invariant |freed| <= |spine| && freed == contents[..|freed|]
        invariant p == if |freed| < |spine| then spine[|freed|] else null
        decreases |spine| - |freed|
      {
        var r: Node := p;
        p := p.next;
        freed := freed + [r.entry];
      }
      head := null;
      seqNumber := 0;
      spine, repr, contents := [], {this}, [];
    }
  }
}
