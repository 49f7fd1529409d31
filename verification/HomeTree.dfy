/** The tree that maps address ranges to home nodes. */
module HomeTree {
  import opened Common

  class Item {
    const start: int
    const end: int
    const node: int
    var left: Item?
    var right: Item?

    constructor (start: int, end: int, node: int)
      ensures this.start == start && this.end == end && this.node == node && left == null && right == null
    {
      this.start, this.end, this.node := start, end, node;
      left, right := null, null;
    }

    predicate Covers(addr: int) {
      start <= addr <= end
    }
  }

  /** What the proofs know of an item: the items from it down, and its parent. */
  datatype Place = Place(sub: set<Item>, parent: Item?)

  type Layout = map<Item, Place>

  ghost function Sub(t: Layout, p: Item?): set<Item> {
    if p != null && p in t then t[p].sub else {}
  }

  ghost predicate ChildOk(t: Layout, c: Item?, n: Item) {
    c != null ==> c in t && t[c].parent == n && c in t[c].sub && t[c].sub <= t.Keys
  }

  /** The set s is n, the ranges l below it, the ranges r above it, and `more`. */
  ghost predicate Splits(s: set<Item>, n: Item, l: set<Item>, r: set<Item>, more: set<Item>) {
    && s == {n} + l + r + more && n !in l && n !in r && l !! r
    && (forall m :: m in l ==> m.end < n.start)
    && (forall m :: m in r ==> n.end < m.start)
  }

  lemma JoinLeft(s: set<Item>, n: Item, l: set<Item>, r: set<Item>, more: set<Item>)
    requires Splits(s, n, l, r, more) && more !! r && n !in more && forall m :: m in more ==> m.end < n.start
    ensures Splits(s, n, l + more, r, {})
  {}

  lemma JoinRight(s: set<Item>, n: Item, l: set<Item>, r: set<Item>, more: set<Item>)
    requires Splits(s, n, l, r, more) && more !! l && n !in more && forall m :: m in more ==> n.end < m.start
    ensures Splits(s, n, l, r + more, {})
  {}

  /** Item n and its children agree: its set is itself, theirs and `more`. */
  ghost predicate NodeOk(t: Layout, n: Item, more: set<Item>)
    reads n
  {
    && n in t && n.start <= n.end && t[n].sub <= t.Keys
    && ChildOk(t, n.left, n) && ChildOk(t, n.right, n)
    && Splits(t[n].sub, n, Sub(t, n.left), Sub(t, n.right), more)
  }

  /** Every item agrees with its children; p has `more` besides. */
  ghost predicate OkBut(t: Layout, p: Item?, more: set<Item>)
    reads t.Keys
  {
    forall n :: n in t ==> NodeOk(t, n, if n == p then more else {})
  }

  // ---------- reading one item ----------

  lemma ItemOk(t: Layout, p: Item?, more: set<Item>, n: Item)
    requires OkBut(t, p, more) && n in t
    ensures NodeOk(t, n, if n == p then more else {})
  {}

  lemma Smaller<T>(a: set<T>, b: set<T>, x: T)
    requires a <= b && x in b && x !in a
    ensures |a| < |b|
  {
    SubsetSize(a, b - {x});
  }

  /** A child is below its parent, and in no other place. */
  lemma ChildIsBelow(t: Layout, n: Item, more: set<Item>, c: Item)
    requires NodeOk(t, n, more) && (c == n.left || c == n.right)
    ensures c in t && t[c].parent == n && t[c].sub <= t.Keys && |t[c].sub| < |t[n].sub|
    ensures c != n && n !in t[c].sub && n.left != n.right && c in Sub(t, c) && Sub(t, c) == t[c].sub
  {
    Smaller(t[c].sub, t[n].sub, n);
  }

  lemma OnlyParent(t: Layout, n: Item, more: set<Item>, c: Item)
    requires NodeOk(t, n, more) && (c !in t || t[c].parent != n)
    ensures n.left != c && n.right != c
  {}

  /** An address that item p does not cover is covered on one side only. */
  lemma OneSide(t: Layout, p: Item, addr: int)
    requires NodeOk(t, p, {}) && !p.Covers(addr)
    ensures forall n :: n in t[p].sub && n.Covers(addr) ==> n in Sub(t, if addr < p.start then p.left else p.right)
  {}

  /** Two ranges in one tree do not meet. */
  lemma {:induction false} Disjoint(t: Layout, p: Item, a: Item, b: Item)
    requires p in t && OkBut(t, null, {})
    requires a in t[p].sub && b in t[p].sub && a != b
    ensures a.end < b.start || b.end < a.start
    decreases |t[p].sub|
  {
    hide OkBut;
    ItemOk(t, null, {}, p);
    ItemOk(t, null, {}, a);
    ItemOk(t, null, {}, b);
    if a in Sub(t, p.left) && b in Sub(t, p.left) {
      ChildIsBelow(t, p, {}, p.left);
      Disjoint(t, p.left, a, b);
    } else if a in Sub(t, p.right) && b in Sub(t, p.right) {
      ChildIsBelow(t, p, {}, p.right);
      Disjoint(t, p.right, a, b);
    }
  }

  // ---------- taking an item out ----------

  /** Where Delete finds the item: at the root, or on one side of another. */
  datatype Side = AtRoot | OnLeft | OnRight

  /** Item p is about to go and c to take its place: the rest agrees, and c has
      all that p had. */
  ghost predicate Loose(t: Layout, p: Item, c: Item?)
    reads t.Keys
  {
    && p in t && ChildOk(t, c, p) && t[p].sub == {p} + Sub(t, c) && p !in Sub(t, c) && t[p].sub <= t.Keys
    && forall n :: n in t && n != p ==> NodeOk(t, n, {})
  }

  ghost function Removed(t: Layout, p: Item, c: Item?): Layout
    requires p in t
  {
    map n | n in t && n != p :: Place(t[n].sub - {p}, if n == c then t[p].parent else t[n].parent)
  }

  lemma SplitsMinus(s: set<Item>, n: Item, l: set<Item>, r: set<Item>, p: Item)
    requires Splits(s, n, l, r, {}) && n != p
    ensures Splits(s - {p}, n, l - {p}, r - {p}, {})
  {}

  lemma RemovedPlace(t: Layout, p: Item, c: Item?, n: Item, d: Item?)
    requires p in t && ChildOk(t, d, n) && d != p && n != p && (d != null && d == c ==> t[p].parent == n)
    ensures ChildOk(Removed(t, p, c), d, n) && Sub(Removed(t, p, c), d) == Sub(t, d) - {p}
  {}

  lemma RemovedElsewhere(t: Layout, p: Item, c: Item?, n: Item)
    requires NodeOk(t, n, {}) && p in t && n != p && n.left != p && n.right != p
    requires c != null ==> c in t && t[c].parent == p
    ensures NodeOk(Removed(t, p, c), n, {})
  {
    hide Splits;
    if c != null { OnlyParent(t, n, {}, c); }
    RemovedPlace(t, p, c, n, n.left);
    RemovedPlace(t, p, c, n, n.right);
    SplitsMinus(t[n].sub, n, Sub(t, n.left), Sub(t, n.right), p);
  }

  /** The place that c takes over from p. */
  lemma TakenOver(t: Layout, p: Item, c: Item?, x: Item)
    requires Loose(t, p, c) && x in t && x != p && t[p].parent == x && (x.left == p || x.right == p)
    ensures var t' := Removed(t, p, c);
            ChildOk(t', c, x) && Sub(t', c) == Sub(t, p) - {p} && x !in Sub(t', c)
    ensures NodeOk(t, x, {}) && x.left != x.right
  {
    assert NodeOk(t, x, {});
  }

  /** The rest of the tree once c took the place of p below x. */
  lemma RemovedRest(t: Layout, p: Item, c: Item?, x: Item?)
    requires Loose(t, p, c) && t[p].parent == x
    ensures forall n :: n in Removed(t, p, c) && n != x ==> NodeOk(Removed(t, p, c), n, {})
  {
    hide NodeOk, Sub;
    forall n | n in Removed(t, p, c) && n != x ensures NodeOk(Removed(t, p, c), n, {}) {
      OnlyParent(t, n, {}, p);
      RemovedElsewhere(t, p, c, n);
    }
  }

  /** An item with one child at most gives way to that child. */
  lemma LooseOne(t: Layout, p: Item, c: Item?)
    requires OkBut(t, null, {}) && p in t && ((p.right == null && c == p.left) || (p.left == null && c == p.right))
    ensures Loose(t, p, c)
  {
    assert NodeOk(t, p, {});
  }

  lemma RootKept(t: Layout, root: Item?, p: Item, c: Item?)
    requires RootOk(t, root) && Loose(t, p, c) && t[p].parent != null
    ensures RootOk(Removed(t, p, c), root)
  {}

  lemma RootGone(t: Layout, p: Item, c: Item?)
    requires RootOk(t, p) && Loose(t, p, c)
    ensures if c == null then Removed(t, p, c) == map[] else RootOk(Removed(t, p, c), c)
  {
    var t' := Removed(t, p, c);
    assert t'.Keys == t.Keys - {p};
    if c == null {
      assert t.Keys == {p};
    }
  }

  /** Linking c in below x instead of p. */
  method LinkInstead(ghost t: Layout, p: Item, c: Item?, x: Item, left: bool)
    requires Loose(t, p, c) && x in t && x != p && t[p].parent == x && (if left then x.left == p else x.right == p)
    modifies x
    ensures NodeOk(Removed(t, p, c), x, {})
  {
    hide Splits;
    TakenOver(t, p, c, x);
    SplitsMinus(t[x].sub, x, Sub(t, x.left), Sub(t, x.right), p);
    if left {
      RemovedPlace(t, p, c, x, x.right);
      x.left := c;
    } else {
      RemovedPlace(t, p, c, x, x.left);
      x.right := c;
    }
  }

  // ---------- changing the layout ----------

  /** An item is not disturbed by a change to others than itself and its children. */
  lemma Undisturbed(t: Layout, t': Layout, n: Item, more: set<Item>)
    requires NodeOk(t, n, more) && t.Keys <= t'.Keys && t'[n].sub == t[n].sub
    requires n.left != null && n.left in t ==> t'[n.left] == t[n.left]
    requires n.right != null && n.right in t ==> t'[n.right] == t[n.right]
    ensures NodeOk(t', n, more)
  {}

  /** The new range is counted in at p and above, and not yet below p. */
  ghost predicate Entering(t: Layout, p: Item, lnew: Item)
    reads t.Keys
  {
    && OkBut(t, p, {lnew}) && p in t && lnew in t && p != lnew && t[lnew] == Place({lnew}, null)
    && lnew !in Sub(t, p.left) && lnew !in Sub(t, p.right)
    && forall n :: n in t && n != lnew ==> lnew.end < n.start || n.end < lnew.start
  }

  ghost function Entered(t: Layout, root: Item, lnew: Item): Layout
    requires root in t
  {
    t[lnew := Place({lnew}, null)][root := Place(t[root].sub + {lnew}, null)]
  }

  ghost function Descended(t: Layout, p: Item, c: Item, more: set<Item>): Layout
    requires c in t
  {
    t[c := Place(t[c].sub + more, p)]
  }

  ghost predicate Leaf(lnew: Item)
    reads lnew
  {
    lnew.left == null && lnew.right == null && lnew.start <= lnew.end
  }

  lemma EnterOk(t: Layout, root: Item, lnew: Item)
    requires OkBut(t, null, {}) && root in t && t[root] == Place(t.Keys, null) && lnew !in t && Leaf(lnew)
    requires forall n :: n in t ==> lnew.end < n.start || n.end < lnew.start
    ensures Entering(Entered(t, root, lnew), root, lnew)
  {
    hide NodeOk;
    var t' := Entered(t, root, lnew);
    forall n | n in t' ensures NodeOk(t', n, if n == root then {lnew} else {}) {
      if n == lnew {
        LeafOk(t', lnew);
      } else if n == root {
        EnterRoot(t, root, lnew);
      } else {
        OnlyParent(t, n, {}, root);
        OnlyParent(t, n, {}, lnew);
        Undisturbed(t, t', n, {});
      }
    }
    NotBelow(t, root, lnew);
    OnlyParent(t, root, {}, root);
  }

  lemma NotBelow(t: Layout, n: Item, lnew: Item)
    requires NodeOk(t, n, {}) && lnew !in t
    ensures lnew !in Sub(t, n.left) && lnew !in Sub(t, n.right) && n.left != lnew && n.right != lnew
  {}

  lemma LeafOk(t: Layout, lnew: Item)
    requires Leaf(lnew) && lnew in t && t[lnew].sub == {lnew}
    ensures NodeOk(t, lnew, {})
  {}

  lemma EnterRoot(t: Layout, root: Item, lnew: Item)
    requires NodeOk(t, root, {}) && t[root] == Place(t.Keys, null) && lnew !in t
    ensures NodeOk(Entered(t, root, lnew), root, {lnew})
  {
    OnlyParent(t, root, {}, root);
  }

  lemma DescendOk(t: Layout, p: Item, c: Item, lnew: Item)
    requires Entering(t, p, lnew)
    requires (c == p.left && lnew.end < p.start) || (c == p.right && p.end < lnew.start)
    ensures c in t && t[c].parent == p && Entering(Descended(t, p, c, {lnew}), c, lnew)
    ensures |Descended(t, p, c, {lnew})[c].sub| < |t[p].sub|
  {
    hide NodeOk, Sub, ChildOk;
    ItemOk(t, p, {lnew}, p);
    ChildIsBelow(t, p, {lnew}, c);
    DescendShrinks(t, p, c, lnew);
    var t' := Descended(t, p, c, {lnew});
    forall n | n in t' ensures NodeOk(t', n, if n == c then {lnew} else {}) {
      if n == p {
        DescendParent(t, p, c, {lnew});
      } else if n == c {
        DescendChild(t, p, c, {lnew});
      } else {
        OnlyParent(t, n, {}, c);
        Undisturbed(t, t', n, {});
      }
    }
    NotInside(t, p, c, {lnew});
  }

  lemma DescendShrinks(t: Layout, p: Item, c: Item, lnew: Item)
    requires NodeOk(t, p, {lnew}) && (c == p.left || c == p.right) && lnew != p
    ensures c in t && |t[c].sub + {lnew}| < |t[p].sub|
  {
    Smaller(t[c].sub + {lnew}, t[p].sub, p);
  }

  lemma NotInside(t: Layout, p: Item, c: Item, more: set<Item>)
    requires NodeOk(t, c, {}) && more !! t[c].sub
    ensures var t' := Descended(t, p, c, more); more !! Sub(t', c.left) && more !! Sub(t', c.right)
  {
    assert c.left != c && c.right != c;
  }

  lemma DescendParent(t: Layout, p: Item, c: Item, more: set<Item>)
    requires NodeOk(t, p, more) && more <= t.Keys && p !in more && more !! Sub(t, p.left) && more !! Sub(t, p.right)
    requires (c == p.left && forall m :: m in more ==> m.end < p.start)
             || (c == p.right && forall m :: m in more ==> p.end < m.start)
    ensures c in t && NodeOk(Descended(t, p, c, more), p, {})
  {
    hide Splits, Sub, ChildOk;
    ChildIsBelow(t, p, more, c);
    DescendPlace(t, p, c, more, p.left);
    DescendPlace(t, p, c, more, p.right);
    if c == p.left {
      JoinLeft(t[p].sub, p, Sub(t, p.left), Sub(t, p.right), more);
    } else {
      JoinRight(t[p].sub, p, Sub(t, p.left), Sub(t, p.right), more);
    }
  }

  lemma DescendPlace(t: Layout, p: Item, c: Item, more: set<Item>, o: Item?)
    requires c in t && more <= t.Keys && ChildOk(t, c, p) && ChildOk(t, o, p)
    ensures ChildOk(Descended(t, p, c, more), o, p) && Descended(t, p, c, more).Keys == t.Keys
    ensures Sub(Descended(t, p, c, more), o) == if o == c then Sub(t, o) + more else Sub(t, o)
  {}

  lemma DescendChild(t: Layout, p: Item, c: Item, more: set<Item>)
    requires NodeOk(t, c, {}) && more <= t.Keys && t[c].parent == p && p != c
    ensures NodeOk(Descended(t, p, c, more), c, more)
  {
    OnlyParent(t, c, {}, c);
  }

  /** The branches for overlaps are not taken. */
  lemma Sides(t: Layout, p: Item, lnew: Item)
    requires Entering(t, p, lnew)
    ensures lnew.start < p.start ==> lnew.end < p.start
    ensures lnew.start > p.start ==> p.end < lnew.start
    ensures lnew.start != p.start
    ensures NodeOk(t, p, {lnew}) && NodeOk(t, lnew, {})
  {
    assert NodeOk(t, p, {lnew}) && NodeOk(t, lnew, {});
  }

  class Tree {
    var root: Item?
    ghost var layout: Layout

    ghost predicate Valid()
      reads this, layout.Keys
    {
      && (root == null <==> layout == map[])
      && (root != null ==> root in layout && layout[root] == Place(layout.Keys, null))
      && OkBut(layout, null, {})
    }

    constructor ()
      ensures Valid() && layout == map[]
    {
      root, layout := null, map[];
    }

    /** The ranges of two items do not hold the same address. */
    lemma OneHome(a: Item, b: Item, addr: int)
      requires Valid() && a in layout && b in layout && a.Covers(addr) && b.Covers(addr)
      ensures a == b
    {
      if a != b { Disjoint(layout, root, a, b); }
    }

    /** LookupAddrNode: the node of the range that holds the address. */
    method Lookup(addr: int) returns (node: Option<int>)
      requires Valid()
      ensures node.None? ==> forall n :: n in layout ==> !n.Covers(addr)
      ensures node.Some? ==> exists n :: n in layout && n.Covers(addr) && n.node == node.value
    {
      hide OkBut, NodeOk;
      var p := root;
      while p != null
        invariant p != null ==> p in layout
        invariant forall n :: n in layout && n.Covers(addr) ==> n in Sub(layout, p)
        decreases p != null, |Sub(layout, p)|
      {
        ItemOk(layout, null, {}, p);
        if p.start <= addr && p.end >= addr {
          return Some(p.node);
        }
        OneSide(layout, p, addr);
        if addr < p.start {
          if p.left != null { ChildIsBelow(layout, p, {}, p.left); }
          p := p.left;
        } else {
          if p.right != null { ChildIsBelow(layout, p, {}, p.right); }
          p := p.right;
        }
      }
      node := None;
    }

    /** InsertList of a range that meets no stored one. At every item the new
        range is wholly on one side, so none of the branches for overlaps is
        taken. */
    method Insert(lnew: Item)
      requires Valid() && lnew !in layout && Leaf(lnew)
      requires forall n :: n in layout ==> lnew.end < n.start || n.end < lnew.start
      modifies this, layout.Keys
      ensures Valid() && layout.Keys == old(layout.Keys) + {lnew}
    {
      hide OkBut, NodeOk, Sub, ChildOk, Entering, Entered;
      if root == null {
        root, layout := lnew, map[lnew := Place({lnew}, null)];
        AloneOk(lnew);
        return;
      }
      EnterOk(layout, root, lnew);
      EnterKeeps(layout, root, lnew);
      layout := Entered(layout, root, lnew);
      var p := root;
      while p != null
        invariant root == old(root) && RootOk(layout, root) && layout.Keys == old(layout.Keys) + {lnew} && Leaf(lnew)
        invariant if p == null then OkBut(layout, null, {}) else p in layout && p != lnew && Entering(layout, p, lnew)
        decreases p != null, if p != null && p in layout then |layout[p].sub| else 0
      {
        p := Pass(p, lnew);
      }
    }

    /** Delete: take the item out that is at the root, or at one side of x. */
    method Delete(x: Item?, side: Side) returns (ok: bool)
      requires Valid() && (side != AtRoot ==> x != null && x in layout)
      modifies this, layout.Keys
      ensures ok <==> old(ChildAt(x, side)) != null
      ensures Valid() && layout.Keys == old(layout.Keys) - {old(ChildAt(x, side))}
    {
      hide OkBut, NodeOk, Sub, ChildOk;
      var p := ChildAt(x, side);
      if p == null { return false; }
      if side != AtRoot {
        ItemOk(layout, null, {}, x);
        ChildIsBelow(layout, x, {}, p);
      }
      if p.right == null {
        LooseOne(layout, p, p.left);
        Relink(x, side, p, p.left);
      } else if p.left == null {
        LooseOne(layout, p, p.right);
        Relink(x, side, p, p.right);
      } else {
        Splice(p);
        Relink(x, side, p, p.right);
      }
      ok := true;
    }

    function ChildAt(x: Item?, side: Side): Item?
      reads this, x
    {
      match side
      case AtRoot => root
      case OnLeft => if x != null then x.left else null
      case OnRight => if x != null then x.right else null
    }

    /** Making c the child where p was. */
    method Relink(x: Item?, side: Side, p: Item, c: Item?)
      requires RootOk(layout, root) && Loose(layout, p, c) && ChildAt(x, side) == p
      requires side != AtRoot ==> x != null && x in layout && x != p && layout[p].parent == x
      modifies this, if side == AtRoot then {} else {x}
      ensures Valid() && layout == Removed(old(layout), p, c)
    {
      hide NodeOk;
      ghost var t := layout;
      RemovedRest(t, p, c, layout[p].parent);
      if side == OnLeft {
        RootKept(t, root, p, c);
        LinkInstead(t, p, c, x, true);
      } else if side == OnRight {
        RootKept(t, root, p, c);
        LinkInstead(t, p, c, x, false);
      } else {
        RootGone(t, p, c);
        root := c;
      }
      layout := Removed(t, p, c);
    }

    /** Hanging p's left child below the leftmost item of its right child. */
    method Splice(p: Item)
      requires RootOk(layout, root) && OkBut(layout, null, {}) && p in layout && p.left != null && p.right != null
      modifies this`layout, layout.Keys
      ensures RootOk(layout, root) && Loose(layout, p, p.right) && layout.Keys == old(layout.Keys)
      ensures layout[p] == old(layout[p])
      ensures forall n :: n in layout ==> n.right == old(n.right) && (old(n.left) != null ==> n.left == old(n.left))
    {
      hide Splicing, HandedOver, RootOk, OkBut, Loose;
      SpliceStart(layout, p);
      ghost var more := layout[p.left].sub;
      var q := p.right;
      DownKeeps(layout, root, p, q, p, more);
      layout := Descended(layout, p, q, more);
      while q.left != null
        invariant q in layout && Splicing(layout, p, q, more) && RootOk(layout, root) && HandedOver(layout, p, more, q)
        invariant layout.Keys == old(layout.Keys) && layout[p] == old(layout[p])
        modifies this`layout
        decreases |layout[q].sub|
      {
        SpliceDown(layout, p, q, more);
        DownKeeps(layout, root, p, q.left, q, more);
        layout := Descended(layout, q, q.left, more);
        q := q.left;
      }
      EndKeeps(layout, root, p, q, more);
      SpliceEnd(layout, p, q, more);
      layout := layout[p.left := Place(more, q)];
    }

    /** One turn of the loop: link the new range in, or go one level down. */
    method Pass(p: Item, lnew: Item) returns (next: Item?)
      requires Entering(layout, p, lnew) && Leaf(lnew) && RootOk(layout, root)
      modifies this`layout, p
      ensures RootOk(layout, root) && layout.Keys == old(layout.Keys) && Leaf(lnew)
      ensures if next == null then OkBut(layout, null, {})
              else
                next in layout && next != lnew && Entering(layout, next, lnew)
                && |layout[next].sub| < |old(layout[p].sub)|
    {
      hide OkBut, NodeOk, Sub, ChildOk;
      Sides(layout, p, lnew);
      if lnew.start < p.start {
        if p.left != null {
          next := p.left;
        } else {
          next := null;
          Attach(layout, p, lnew);
        }
      } else if lnew.start > p.start {
        if p.right != null {
          next := p.right;
        } else {
          next := null;
          Attach(layout, p, lnew);
        }
      } else {
        assert false;
      }
      if next == null {
        layout := layout[lnew := Place({lnew}, p)];
      } else {
        DescendOk(layout, p, next, lnew);
        layout := Descended(layout, p, next, {lnew});
      }
    }
  }

  // ---------- deletion with two children ----------

  /** Item p keeps its left range set `more` besides handing it to q, which is
      on the left spine of p's right child. */
  ghost predicate Splicing(t: Layout, p: Item, q: Item, more: set<Item>)
    reads t.Keys
  {
    && p in t && q in t && q != p && more <= t.Keys && p !in more && q !in more && t[q].parent != null
    && (forall n :: n in t && n != p ==> NodeOk(t, n, if n == q then more else {}))
    && more !! Sub(t, q.left) && more !! Sub(t, q.right)
    && (forall m, n :: m in more && n in t[q].sub && n !in more ==> m.end < n.start)
    && p !in t[q].sub
  }

  /** All that p had is now below its right child; its left child is still its own. */
  ghost predicate HandedOver(t: Layout, p: Item, more: set<Item>, q: Item)
    reads p
  {
    && p in t && p.left != null && p.right != null && p.left in t && p.right in t && p.left != q
    && t[p.left] == Place(more, p) && p.left in more
    && t[p.right].parent == p && p.right in t[p.right].sub && t[p.right].sub <= t.Keys
    && t[p].sub == {p} + t[p.right].sub && t[p].sub <= t.Keys && p !in t[p.right].sub && p.left != p.right
  }

  lemma SpliceStart(t: Layout, p: Item)
    requires OkBut(t, null, {}) && p in t && p.left != null && p.right != null
    ensures p.left in t && p.right in t && p.right != p && t[p.right].parent == p
    ensures var more := t[p.left].sub; var t' := Descended(t, p, p.right, more);
            Splicing(t', p, p.right, more) && HandedOver(t', p, more, p.right)
  {
    hide NodeOk;
    ItemOk(t, null, {}, p);
    ChildIsBelow(t, p, {}, p.left);
    ChildIsBelow(t, p, {}, p.right);
    StartFacts(t, p);
    var q, more := p.right, t[p.left].sub;
    var t' := Descended(t, p, q, more);
    forall n | n in t' && n != p ensures NodeOk(t', n, if n == q then more else {}) {
      ItemOk(t, null, {}, n);
      if n == q {
        DescendChild(t, p, q, more);
      } else {
        OnlyParent(t, n, {}, q);
        Undisturbed(t, t', n, {});
      }
    }
    NotInside(t, p, q, more);
  }

  lemma StartFacts(t: Layout, p: Item)
    requires NodeOk(t, p, {}) && p.left != null && p.right != null
    ensures p.left in t && p.right in t && t[p.left].sub !! t[p.right].sub && p.left != p.right
    ensures t[p].sub == {p} + (t[p.right].sub + t[p.left].sub) && t[p.left].parent == p
    ensures p.right !in t[p.left].sub && p.left in t[p.left].sub && p.right in t[p.right].sub
    ensures forall m, n :: m in t[p.left].sub && n in t[p.right].sub ==> m.end < n.start
  {}

  /** The last step: linking the left child in below q. */
  method SpliceEnd(ghost t: Layout, p: Item, q: Item, ghost more: set<Item>)
    requires Splicing(t, p, q, more) && HandedOver(t, p, more, q) && q.left == null
    modifies q
    ensures q.left == p.left && q.right == old(q.right)
    ensures Loose(t[p.left := Place(more, q)], p, p.right)
  {
    hide NodeOk, Splicing, HandedOver, Loose;
    AtBottom(t, p, q, more);
    EndOthers(t, p, q, more);
    SpliceLink(t, p, q, more);
    EndLoose(t, p, q, more);
  }

  lemma EndOthers(t: Layout, p: Item, q: Item, more: set<Item>)
    requires Splicing(t, p, q, more) && HandedOver(t, p, more, q)
    ensures forall n :: n in t && n != p && n != q ==> NodeOk(t[p.left := Place(more, q)], n, {})
  {
    hide NodeOk;
    forall n | n in t && n != p && n != q ensures NodeOk(t[p.left := Place(more, q)], n, {}) {
      OnlyParent(t, n, {}, p.left);
      Undisturbed(t, t[p.left := Place(more, q)], n, {});
    }
  }

  lemma EndLoose(t: Layout, p: Item, q: Item, more: set<Item>)
    requires HandedOver(t, p, more, q) && q in t
    requires forall n :: n in t && n != p ==> NodeOk(t[p.left := Place(more, q)], n, {})
    ensures Loose(t[p.left := Place(more, q)], p, p.right)
  {
    hide NodeOk;
  }

  lemma AtBottom(t: Layout, p: Item, q: Item, more: set<Item>)
    requires Splicing(t, p, q, more)
    ensures NodeOk(t, q, more) && forall m :: m in more ==> m.end < q.start
    ensures q in t && q != p && more <= t.Keys && q !in more && more !! Sub(t, q.right)
  {
    assert NodeOk(t, q, more);
  }

  method SpliceLink(ghost t: Layout, p: Item, q: Item, ghost more: set<Item>)
    requires NodeOk(t, q, more) && HandedOver(t, p, more, q) && q.left == null && q != p
    requires more <= t.Keys && q !in more && more !! Sub(t, q.right) && forall m :: m in more ==> m.end < q.start
    modifies q
    ensures q.left == p.left && q.right == old(q.right)
    ensures NodeOk(t[p.left := Place(more, q)], q, {})
  {
    hide Splits;
    OnlyParent(t, q, more, p.left);
    JoinLeft(t[q].sub, q, {}, Sub(t, q.right), more);
    assert {} + more == more;
    q.left := p.left;
  }

  lemma SpliceDown(t: Layout, p: Item, q: Item, more: set<Item>)
    requires Splicing(t, p, q, more) && q.left != null
    ensures q.left in t && |t[q.left].sub + more| < |t[q].sub| && q.left != p && t[q.left].parent == q && q != p
    ensures HandedOver(t, p, more, q) ==> HandedOver(Descended(t, q, q.left, more), p, more, q.left)
    ensures Splicing(Descended(t, q, q.left, more), p, q.left, more)
  {
    hide NodeOk, Sub, ChildOk;
    var c := q.left;
    SpliceFacts(t, p, q, more);
    ChildIsBelow(t, q, more, c);
    var t' := Descended(t, q, c, more);
    forall n | n in t' && n != p ensures NodeOk(t', n, if n == c then more else {}) {
      if n == q {
        DescendParent(t, q, c, more);
      } else if n == c {
        DescendChild(t, q, c, more);
      } else {
        OnlyParent(t, n, {}, c);
        Undisturbed(t, t', n, {});
      }
    }
    NotInside(t, q, c, more);
  }

  /** The root and p are not on the way down. */
  lemma DownKeeps(t: Layout, root: Item?, p: Item, c: Item, n: Item, more: set<Item>)
    requires RootOk(t, root) && p in t && c in t && t[c].parent == n && c != p
    ensures RootOk(Descended(t, n, c, more), root) && Descended(t, n, c, more).Keys == t.Keys
    ensures Descended(t, n, c, more)[p] == t[p]
  {}

  lemma EndKeeps(t: Layout, root: Item?, p: Item, q: Item, more: set<Item>)
    requires RootOk(t, root) && HandedOver(t, p, more, q) && Splicing(t, p, q, more)
    ensures RootOk(t[p.left := Place(more, q)], root) && t[p.left := Place(more, q)].Keys == t.Keys
    ensures t[p.left := Place(more, q)][p] == t[p] && q in t && q != p
  {}

  lemma SpliceFacts(t: Layout, p: Item, q: Item, more: set<Item>)
    requires Splicing(t, p, q, more) && q.left != null
    ensures q.left in t && q.left != p && q.left !in more && NodeOk(t, q, more) && NodeOk(t, q.left, {})
    ensures t[q.left].sub !! more && t[q.left].sub <= t[q].sub && |t[q.left].sub + more| < |t[q].sub|
    ensures q in t[q].sub && forall m :: m in more ==> m.end < q.start
  {
    assert NodeOk(t, q, more);
    Smaller(t[q.left].sub + more, t[q].sub, q);
  }

  ghost predicate RootOk(t: Layout, root: Item?) {
    root != null && root in t && t[root] == Place(t.Keys, null)
  }

  lemma EnterKeeps(t: Layout, root: Item, lnew: Item)
    requires RootOk(t, root) && lnew !in t
    ensures RootOk(Entered(t, root, lnew), root) && Entered(t, root, lnew).Keys == t.Keys + {lnew}
  {}

  lemma AloneOk(lnew: Item)
    requires Leaf(lnew)
    ensures OkBut(map[lnew := Place({lnew}, null)], null, {})
  {
    LeafOk(map[lnew := Place({lnew}, null)], lnew);
  }

  /** Linking the new range in below p. */
  method Attach(ghost t: Layout, p: Item, lnew: Item)
    requires Entering(t, p, lnew) && Leaf(lnew)
    requires if lnew.start < p.start then p.left == null && lnew.end < p.start
             else p.right == null && p.end < lnew.start
    modifies p
    ensures OkBut(t[lnew := Place({lnew}, p)], null, {})
  {
    hide NodeOk;
    ghost var t' := t[lnew := Place({lnew}, p)];
    forall n | n in t && n != p ensures NodeOk(t', n, {}) {
      ItemOk(t, p, {lnew}, n);
      OnlyParent(t, n, {}, lnew);
      if n == lnew { LeafOk(t', lnew); } else { Undisturbed(t, t', n, {}); }
    }
    Link(t, p, lnew);
  }

  method Link(ghost t: Layout, p: Item, lnew: Item)
    requires NodeOk(t, p, {lnew}) && lnew in t && lnew != p && t[lnew] == Place({lnew}, null)
    requires lnew !in Sub(t, p.left) && lnew !in Sub(t, p.right)
    requires if lnew.start < p.start then p.left == null && lnew.end < p.start
             else p.right == null && p.end < lnew.start
    modifies p
    ensures NodeOk(t[lnew := Place({lnew}, p)], p, {})
  {
    OnlyParent(t, p, {lnew}, lnew);
    if lnew.start < p.start {
      p.left := lnew;
    } else {
      p.right := lnew;
    }
  }
}
