/** The memory queue: a doubly linked list that refines a sequence. */
module MemoryQueue {
  import opened Common

  class Link<T> {
    var d: T
    var next: Link?<T>
    var prev: Link?<T>

    constructor (x: T)
      ensures d == x && next == null && prev == null
    {
      d, next, prev := x, null, null;
    }
  }

  ghost function NodeAt<T>(nodes: seq<Link<T>>, i: int): Link?<T> {
    if 0 <= i < |nodes| then nodes[i] else null
  }

  /** The nodes are linked both ways in this order. */
  ghost predicate Chained<T>(nodes: seq<Link<T>>)
    reads nodes
  {
    && (forall i, j :: 0 <= i < j < |nodes| ==> nodes[i] != nodes[j])
    && (forall i :: 0 <= i < |nodes| ==> LinkedAt(nodes, i))
  }

  ghost predicate LinkedAt<T>(nodes: seq<Link<T>>, i: nat)
    requires i < |nodes|
    reads nodes
  {
    nodes[i].next == NodeAt(nodes, i + 1) && nodes[i].prev == NodeAt(nodes, i - 1)
  }

  ghost function Data<T>(nodes: seq<Link<T>>): (s: seq<T>)
    reads nodes
    ensures |s| == |nodes| && forall i :: 0 <= i < |nodes| ==> s[i] == nodes[i].d
  {
    if nodes == [] then [] else [nodes[0].d] + Data(nodes[1..])
  }

  /** What a walk of n `next` links collects. */
  ghost function Forward<T>(p: Link?<T>, nodes: seq<Link<T>>, n: nat): seq<T>
    reads nodes
  {
    if n == 0 || p == null || p !in nodes then [] else [p.d] + Forward(p.next, nodes, n - 1)
  }

  /** What a walk of n `prev` links collects. */
  ghost function Backward<T>(p: Link?<T>, nodes: seq<Link<T>>, n: nat): seq<T>
    reads nodes
  {
    if n == 0 || p == null || p !in nodes then [] else [p.d] + Backward(p.prev, nodes, n - 1)
  }

  function Reverse<X>(s: seq<X>): (r: seq<X>)
    ensures |r| == |s|
  {
    if s == [] then [] else [s[|s| - 1]] + Reverse(s[..|s| - 1])
  }

  lemma {:induction false} ForwardIsData<T>(nodes: seq<Link<T>>, i: nat)
    requires Chained(nodes) && i <= |nodes|
    ensures Forward(NodeAt(nodes, i), nodes, |nodes| - i) == Data(nodes)[i..]
    decreases |nodes| - i
  {
    hide Data;
    if i >= |nodes| {
    } else {
      assert LinkedAt(nodes, i) && nodes[i] in nodes;
      ForwardIsData(nodes, i + 1);
      assert Data(nodes)[i..] == [nodes[i].d] + Data(nodes)[i + 1..];
    }
  }

  lemma {:induction false} BackwardIsReverse<T>(nodes: seq<Link<T>>, i: nat)
    requires Chained(nodes) && i <= |nodes|
    ensures Backward(NodeAt(nodes, i - 1), nodes, i) == Reverse(Data(nodes)[..i])
  {
    hide Data;
    if i == 0 {
    } else {
      assert LinkedAt(nodes, i - 1) && nodes[i - 1] in nodes;
      BackwardIsReverse(nodes, i - 1);
      assert Data(nodes)[..i][..i - 1] == Data(nodes)[..i - 1];
    }
  }

  /** The place of the first element equal to d, or the length. */
  function First<T(==)>(s: seq<T>, d: T): (k: nat)
    ensures k <= |s| && (k < |s| ==> s[k] == d) && forall i :: 0 <= i < k ==> s[i] != d
  {
    if s == [] || s[0] == d then 0 else 1 + First(s[1..], d)
  }

  class MemQ<T(==)> {
    var head: Link?<T>
    var tail: Link?<T>
    var items: int
    ghost var nodes: seq<Link<T>>

    ghost predicate Valid()
      reads this, nodes
    {
      && items == |nodes| && head == NodeAt(nodes, 0) && tail == NodeAt(nodes, |nodes| - 1)
      && Chained(nodes)
    }

    ghost function Contents(): (s: seq<T>)
      reads this, nodes
    {
      Data(nodes)
    }

    /** The two walks give the same sequence, forwards and backwards. */
    lemma BothWalks()
      requires Valid()
      ensures items == |Contents()|
      ensures Forward(head, nodes, |nodes|) == Contents()
      ensures Backward(tail, nodes, |nodes|) == Reverse(Contents())
    {
      ForwardIsData(nodes, 0);
      BackwardIsReverse(nodes, |nodes|);
      assert Contents()[..|nodes|] == Contents();
    }

    constructor ()
      ensures Valid() && Contents() == [] && nodes == []
    {
      head, tail, items, nodes := null, null, 0, [];
    }

    method Insert(d: T)
      requires Valid()
      modifies this, nodes
      ensures Valid() && Contents() == old(Contents()) + [d]
      ensures |nodes| == |old(nodes)| + 1 && nodes[..|old(nodes)|] == old(nodes) && fresh(nodes[|old(nodes)|])
    {
      hide Data, Forward, Backward;
      ghost var before := nodes;
      items := items + 1;
      var item := new Link(d);
      if tail == null {
        head, tail := item, item;
      } else {
        tail.next := item;
        item.prev := tail;
        tail := item;
      }
      nodes := nodes + [item];
      forall i | 0 <= i < |nodes| ensures LinkedAt(nodes, i) {
        if i < |before| { assert old(LinkedAt(before, i)); }
      }
    }

    method Lookup(d: T) returns (found: bool)
      requires Valid()
      ensures found <==> d in Contents()
    {
      var p, k := Find(d);
      found := p != null;
    }

    /** The walk that every operation by value starts with. */
    method Find(d: T) returns (stepper: Link?<T>, ghost k: nat)
      requires Valid()
      ensures k == First(Contents(), d) && stepper == NodeAt(nodes, k)
      ensures stepper != null <==> d in Contents()
      ensures stepper != null ==> k < |nodes| && nodes[k] == stepper
    {
      stepper, k := head, 0;
      while stepper != null
        invariant k <= |nodes| && stepper == NodeAt(nodes, k)
        invariant forall i :: 0 <= i < k ==> Contents()[i] != d
        decreases |nodes| - k
      {
        if stepper.d == d {
          FirstIs(Contents(), d, k);
          return;
        }
        assert LinkedAt(nodes, k);
        stepper := stepper.next;
        k := k + 1;
      }
      FirstIs(Contents(), d, k);
    }

    /** Replace, of a node. */
    method ReplaceNode(stepper: Link<T>, d2: T, ghost k: nat)
      requires Valid() && k < |nodes| && nodes[k] == stepper
      modifies stepper`d
      ensures Valid() && Contents() == old(Contents())[k := d2]
    {
      stepper.d := d2;
      forall i | 0 <= i < |nodes| ensures LinkedAt(nodes, i) {
        assert old(LinkedAt(nodes, i));
      }
    }

    method Replace(d: T, d2: T) returns (ok: bool)
      requires Valid()
      modifies nodes
      ensures Valid() && ok == (d in old(Contents()))
      ensures Contents() == if ok then old(Contents())[First(old(Contents()), d) := d2] else old(Contents())
    {
      var stepper;
      ghost var k;
      stepper, k := Find(d);
      if stepper == null { return false; }
      ReplaceNode(stepper, d2, k);
      ok := true;
    }

    /** Remove, of a node. */
    method RemoveNode(stepper: Link<T>, ghost k: nat)
      requires Valid() && k < |nodes| && nodes[k] == stepper
      modifies this, nodes
      ensures Valid() && nodes == Without(old(nodes), k) && Contents() == Without(old(Contents()), k)
      ensures forall n :: n in old(nodes) ==> n.d == old(n.d)
    {
      hide Data, Forward, Backward;
      items := items - 1;
      if stepper == tail {
        UnlinkTail();
      } else if stepper == head {
        UnlinkHead();
      } else {
        UnlinkInner(stepper, k);
      }
      assert Contents() == Without(old(Contents()), k);
    }

    /** What holds once an element is counted out but still linked. */
    ghost predicate Uncounted()
      reads this, nodes
    {
      && nodes != [] && items + 1 == |nodes| && head == NodeAt(nodes, 0) && tail == NodeAt(nodes, |nodes| - 1)
      && Chained(nodes)
    }

    method UnlinkTail()
      requires Uncounted()
      modifies this, nodes
      ensures Valid() && nodes == old(nodes)[..|old(nodes)| - 1]
      ensures forall n :: n in old(nodes) ==> n.d == old(n.d)
    {
      hide Data, Forward, Backward;
      ghost var before := nodes;
      assert LinkedAt(nodes, |nodes| - 1);
      if tail == head {
        head, tail := null, null;
      } else {
        tail := tail.prev;
        tail.next := null;
      }
      nodes := nodes[..|nodes| - 1];
      forall i | 0 <= i < |nodes| ensures LinkedAt(nodes, i) {
        assert old(LinkedAt(before, i));
      }
    }

    method UnlinkHead()
      requires Uncounted() && |nodes| > 1
      modifies this, nodes
      ensures Valid() && nodes == old(nodes)[1..]
      ensures forall n :: n in old(nodes) ==> n.d == old(n.d)
    {
      hide Data, Forward, Backward;
      ghost var before := nodes;
      assert LinkedAt(nodes, 0);
      head := head.next;
      head.prev := null;
      nodes := nodes[1..];
      forall i | 0 <= i < |nodes| ensures LinkedAt(nodes, i) {
        assert old(LinkedAt(before, i + 1));
      }
    }

    method UnlinkInner(stepper: Link<T>, ghost k: nat)
      requires Uncounted() && 0 < k < |nodes| - 1 && nodes[k] == stepper
      modifies this, nodes
      ensures Valid() && nodes == Without(old(nodes), k)
      ensures forall n :: n in old(nodes) ==> n.d == old(n.d)
    {
      hide Data, Forward, Backward;
      ghost var before := nodes;
      assert LinkedAt(nodes, k);
      stepper.next.prev := stepper.prev;
      stepper.prev.next := stepper.next;
      nodes := Without(nodes, k);
      forall i | 0 <= i < |nodes| ensures LinkedAt(nodes, i) {
        var j := if i < k then i else i + 1;
        assert old(LinkedAt(before, j)) && nodes[i] == before[j];
      }
    }

    /** Remove, of the first element equal to d. */
    method Remove(d: T) returns (ok: bool)
      requires Valid()
      modifies this, nodes
      ensures Valid() && ok == (d in old(Contents()))
      ensures Contents() == if ok then Without(old(Contents()), First(old(Contents()), d)) else old(Contents())
    {
      var stepper;
      ghost var k;
      stepper, k := Find(d);
      if stepper == null { return false; }
      RemoveNode(stepper, k);
      ok := true;
    }

    /** The neighbours of a node. */
    lemma Beside(k: nat)
      requires Valid() && k < |nodes|
      ensures nodes[k].prev != null <==> k > 0
      ensures k > 0 ==> nodes[k].prev in nodes && nodes[k].prev.d == Contents()[k - 1]
      ensures nodes[k].next != null <==> k + 1 < |nodes|
      ensures k + 1 < |nodes| ==> nodes[k].next in nodes && nodes[k].next.d == Contents()[k + 1]
    {
      assert LinkedAt(nodes, k);
    }

    /** RemoveGetPrev: also the element before, if there is one. */
    method RemoveGetPrev(d: T) returns (ok: bool, d2: Option<T>)
      requires Valid()
      modifies this, nodes
      ensures Valid() && ok == (d in old(Contents()))
      ensures Contents() == if ok then Without(old(Contents()), First(old(Contents()), d)) else old(Contents())
      ensures d2 == if ok && First(old(Contents()), d) > 0 then Some(old(Contents())[First(old(Contents()), d) - 1])
              else None
    {
      hide Valid, Chained, NodeAt, Data, First, Without;
      var stepper;
      ghost var k;
      stepper, k := Find(d);
      if stepper == null { return false, None; }
      Beside(k);
      var prev := stepper.prev;
      RemoveNode(stepper, k);
      ok, d2 := true, if prev != null then Some(prev.d) else None;
    }

    /** RemoveGetNext: also the element after, if there is one. */
    method RemoveGetNext(d: T) returns (ok: bool, d2: Option<T>)
      requires Valid()
      modifies this, nodes
      ensures Valid() && ok == (d in old(Contents()))
      ensures Contents() == if ok then Without(old(Contents()), First(old(Contents()), d)) else old(Contents())
      ensures d2 == if ok && First(old(Contents()), d) + 1 < |old(Contents())|
                    then Some(old(Contents())[First(old(Contents()), d) + 1]) else None
    {
      hide Valid, Chained, NodeAt, Data, First, Without;
      var stepper;
      ghost var k;
      stepper, k := Find(d);
      if stepper == null { return false, None; }
      Beside(k);
      var next := stepper.next;
      RemoveNode(stepper, k);
      ok, d2 := true, if next != null then Some(next.d) else None;
    }

    method RemoveTail()
      requires Valid()
      modifies this, nodes
      ensures Valid()
      ensures Contents() == if old(Contents()) == [] then [] else old(Contents())[..|old(Contents())| - 1]
    {
      if tail != null {
        items := items - 1;
        UnlinkTail();
      }
    }

    method GetMin() returns (d: Option<T>)
      requires Valid()
      ensures d == if Contents() == [] then None else Some(Contents()[0])
    {
      d := if items == 0 then None else Some(head.d);
    }

    method GetTail() returns (d: Option<T>)
      requires Valid()
      ensures d == if Contents() == [] then None else Some(Contents()[|Contents()| - 1])
    {
      d := if items == 0 then None else Some(tail.d);
    }
  }

  lemma FirstIs<T>(s: seq<T>, d: T, k: nat)
    requires k <= |s| && (k < |s| ==> s[k] == d) && forall i :: 0 <= i < k ==> s[i] != d
    ensures First(s, d) == k && (k < |s| <==> d in s)
  {}
}
