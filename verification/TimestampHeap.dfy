/** The timestamp heap: a priority queue in two parallel arrays. */
module TimestampHeap {
  import opened Common

  function Parent(i: nat): (p: nat)
    requires i > 0
    ensures p < i
  {
    (i - 1) / 2
  }

  /** Every timestamp is at least its parent's. */
  ghost predicate Ordered<T>(s: seq<(int, T)>) {
    forall i :: 0 < i < |s| ==> s[Parent(i)].0 <= s[i].0
  }

  /** No timestamp is below the root's. */
  lemma {:induction false} RootIsLeast<T>(s: seq<(int, T)>, i: nat)
    requires Ordered(s) && i < |s|
    ensures s[0].0 <= s[i].0
  {
    if i == 0 {
    } else {
      RootIsLeast(s, Parent(i));
    }
  }

  /** Heap order except that `hole` may be below its parent; its children are
      not below its parent. */
  ghost predicate OrderedButUp<T>(s: seq<(int, T)>, hole: nat) {
    && (forall i :: 0 < i < |s| && i != hole ==> s[Parent(i)].0 <= s[i].0)
    && (forall i :: 0 < i < |s| && Parent(i) == hole && hole > 0 ==> s[Parent(hole)].0 <= s[i].0)
  }

  /** Heap order except that the children of `hole` may be below it; they are
      not below its parent. */
  ghost predicate OrderedButDown<T>(s: seq<(int, T)>, hole: nat) {
    && (forall i :: 0 < i < |s| && Parent(i) != hole ==> s[Parent(i)].0 <= s[i].0)
    && (forall i :: 0 < i < |s| && Parent(i) == hole && 0 < hole < |s| ==> s[Parent(hole)].0 <= s[i].0)
  }

  function Swap<X>(s: seq<X>, i: nat, j: nat): (r: seq<X>)
    requires i < |s| && j < |s|
    ensures |r| == |s|
  {
    s[i := s[j]][j := s[i]]
  }

  lemma SwapKeeps<X>(s: seq<X>, i: nat, j: nat)
    requires i < |s| && j < |s|
    ensures multiset(Swap(s, i, j)) == multiset(s)
  {}

  lemma SiftUp<T>(s: seq<(int, T)>, hole: nat)
    requires OrderedButUp(s, hole) && 0 < hole < |s| && s[hole].0 < s[Parent(hole)].0
    ensures OrderedButUp(Swap(s, hole, Parent(hole)), Parent(hole))
  {
    hide Parent;
    var p := Parent(hole);
    var r := Swap(s, hole, p);
    forall i | 0 < i < |r| && i != p ensures r[Parent(i)].0 <= r[i].0 {}
    forall i | 0 < i < |r| && Parent(i) == p && p > 0 ensures r[Parent(p)].0 <= r[i].0 {
      assert s[Parent(p)].0 <= s[p].0;
    }
  }

  lemma SiftUpDone<T>(s: seq<(int, T)>, hole: nat)
    requires OrderedButUp(s, hole) && (hole == 0 || hole >= |s| || s[Parent(hole)].0 <= s[hole].0)
    ensures Ordered(s)
  {}

  /** Moving the smaller child up. */
  lemma SiftDown<T>(s: seq<(int, T)>, hole: nat, child: nat)
    requires OrderedButDown(s, hole) && 0 < child < |s| && Parent(child) == hole && s[child].0 < s[hole].0
    requires forall i :: 0 < i < |s| && Parent(i) == hole ==> s[child].0 <= s[i].0
    ensures OrderedButDown(Swap(s, hole, child), child)
  {
    hide Parent;
    var r := Swap(s, hole, child);
    forall i | 0 < i < |r| && Parent(i) != child ensures r[Parent(i)].0 <= r[i].0 {}
  }

  lemma SiftDownDone<T>(s: seq<(int, T)>, hole: nat)
    requires OrderedButDown(s, hole)
    requires forall i :: 0 < i < |s| && Parent(i) == hole ==> s[hole].0 <= s[i].0
    ensures Ordered(s)
  {}

  lemma OnlyChildren(hole: nat)
    ensures forall i :: i > 0 ==> (Parent(i) == hole <==> i == 2 * hole + 1 || i == 2 * hole + 2)
  {}

  /** Putting the last element in place of the first takes the first away. */
  lemma RootRemoved<X>(s: seq<X>)
    requires |s| > 0
    ensures multiset(s[0 := s[|s| - 1]][..|s| - 1]) + multiset{s[0]} == multiset(s)
  {
    var n := |s| - 1;
    if n > 0 {
      assert s[0 := s[n]][..n] == [s[n]] + s[1..n];
      assert s == [s[0]] + s[1..n] + [s[n]];
    } else {
      assert s == [s[0]];
    }
  }

  class Heap<T(0)> {
    const size: nat
    const obj: array<T>
    const ord: array<int>
    var used: nat

    /** The live elements, each timestamp with its object. */
    ghost function Items(): (s: seq<(int, T)>)
      requires Fits()
      reads this, obj, ord
      ensures |s| == used && forall i :: 0 <= i < used ==> s[i] == (ord[i], obj[i])
    {
      seq(used, i requires 0 <= i < used && Fits() reads this, obj, ord => (ord[i], obj[i]))
    }

    ghost predicate Fits()
      reads this
    {
      obj.Length == size && ord.Length == size && used <= size && (obj as object) != ord
    }

    ghost predicate Valid()
      reads this, obj, ord
    {
      Fits() && Ordered(Items())
    }

    constructor (sz: nat)
      ensures Valid() && size == sz && used == 0 && fresh(obj) && fresh(ord)
    {
      size, used := sz, 0;
      obj := new T[sz];
      ord := new int[sz];
    }

    /** One step of either sift: two slots trade places. */
    method Exchange(i: nat, j: nat)
      requires Fits() && i < used && j < used
      modifies obj, ord
      ensures Items() == Swap(old(Items()), i, j)
    {
      obj[i], obj[j] := obj[j], obj[i];
      ord[i], ord[j] := ord[j], ord[i];
    }

    /** insert: add an element unless the heap is full. */
    method Insert(ts: int, o: T) returns (ok: bool)
      requires Valid()
      modifies this`used, obj, ord
      ensures Valid() && ok == (old(used) < size)
      ensures ok ==> used == old(used) + 1 && multiset(Items()) == multiset(old(Items())) + multiset{(ts, o)}
      ensures !ok ==> used == old(used) && Items() == old(Items())
    {
      if used >= size { return false; }
      hide Parent;
      ghost var before := Items();
      obj[used], ord[used] := o, ts;
      var step: nat := used;
      used := used + 1;
      assert Items() == before + [(ts, o)];
      ghost var all := multiset(Items());
      while step > 0 && ts < ord[Parent(step)]
        invariant step < used == old(used) + 1 <= size && Items()[step].0 == ts
        invariant OrderedButUp(Items(), step) && multiset(Items()) == all
      {
        var par := Parent(step);
        SiftUp(Items(), step);
        SwapKeeps(Items(), step, par);
        Exchange(step, par);
        step := par;
      }
      SiftUpDone(Items(), step);
      ok := true;
    }

    /** GetMin: take an element with the least timestamp. */
    method GetMin() returns (ans: int, min: Option<T>)
      requires Valid()
      modifies this`used, obj, ord
      ensures Valid() && (min.None? <==> old(used) == 0)
      ensures min.None? ==> ans == -1 && used == 0
      ensures min.Some? ==>
                && used + 1 == old(used)
                && multiset(Items()) + multiset{(ans, min.value)} == multiset(old(Items()))
                && forall x :: x in old(Items()) ==> ans <= x.0
    {
      if used == 0 { return -1, None; }
      min := Some(obj[0]);
      ans := ord[0];
      RootLeast();
      RootRemoved(Items());
      ghost var before := Items();
      used := used - 1;
      if used > 0 {
        obj[0], ord[0] := obj[used], ord[used];
        assert Items() == before[0 := before[used]][..used];
        SiftRoot();
      } else {
        assert Items() == before[0 := before[0]][..0];
      }
    }

    lemma RootLeast()
      requires Valid() && used > 0
      ensures forall x :: x in Items() ==> ord[0] <= x.0
    {
      forall x | x in Items() ensures ord[0] <= x.0 {
        var i :| 0 <= i < used && Items()[i] == x;
        RootIsLeast(Items(), i);
      }
    }

    /** The sift down from the root. */
    method SiftRoot()
      requires Fits() && 0 < used < size && OrderedButDown(Items(), 0)
      modifies obj, ord
      ensures Valid() && multiset(Items()) == multiset(old(Items()))
    {
      hide Ordered, OrderedButDown;
      var ts := ord[0];
      var posn: nat := 0;
      while 2 * posn + 1 < used
        invariant posn < used && ord[posn] == ts
        invariant OrderedButDown(Items(), posn) && multiset(Items()) == multiset(old(Items()))
        decreases used - posn
      {
        var next, done := Descend(ts, posn);
        if done { return; }
        posn := next;
      }
      OnlyChildren(posn);
      SiftDownDone(Items(), posn);
    }

    /** One level of the sift. A missing right child is filled, outside the
        live slots, with a copy of the parent, so that it is never chosen. */
    method Descend(ts: int, posn: nat) returns (next: nat, done: bool)
      requires Fits() && 2 * posn + 1 < used < size && ord[posn] == ts && OrderedButDown(Items(), posn)
      modifies obj, ord
      ensures multiset(Items()) == multiset(old(Items()))
      ensures done ==> Ordered(Items())
      ensures !done ==> posn < next < used && ord[next] == ts && OrderedButDown(Items(), next)
    {
      hide Ordered, OrderedButDown;
      var l, r := 2 * posn + 1, 2 * posn + 2;
      ghost var items := Items();
      if r >= used {
        ord[r], obj[r] := ord[posn], obj[posn];
        assert Items() == items;
      }
      var lts, rts := ord[l], ord[r];
      var code := (if lts < ts then 4 else 0) + (if rts < ts then 2 else 0) + (if lts < rts then 1 else 0);
      OnlyChildren(posn);
      done := code == 0 || code == 1;
      if done {
        next := posn;
        SiftDownDone(items, posn);
        return;
      }
      next := if code == 2 || code == 3 || code == 6 then r else l;
      SiftDown(items, posn, next);
      SwapKeeps(items, posn, next);
      Exchange(posn, next);
    }
  }
}
