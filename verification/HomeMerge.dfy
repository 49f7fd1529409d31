/** The home tree on values, when every range belongs to one node: overlapping
    ranges merge. */
module HomeMerge {

  datatype Range = Range(start: nat, end: nat)

  datatype Ranges = Nil | Fork(left: Ranges, item: Range, right: Ranges)

  function Size(t: Ranges): nat {
    match t
    case Nil => 0
    case Fork(l, _, r) => Size(l) + 1 + Size(r)
  }

  predicate StartsAt(t: Ranges, a: nat) {
    match t
    case Nil => false
    case Fork(l, p, r) => p.start == a || StartsAt(l, a) || StartsAt(r, a)
  }

  predicate Holds(x: Range, a: nat) {
    x.start <= a <= x.end
  }

  /** Some range of the tree holds address a. */
  predicate Covers(t: Ranges, a: nat) {
    match t
    case Nil => false
    case Fork(l, p, r) => Holds(p, a) || Covers(l, a) || Covers(r, a)
  }

  /** All ranges lie strictly below, or strictly above, address a. */
  predicate Below(t: Ranges, a: nat) {
    match t
    case Nil => true
    case Fork(l, p, r) => p.end < a && Below(l, a) && Below(r, a)
  }

  predicate Above(t: Ranges, a: nat) {
    match t
    case Nil => true
    case Fork(l, p, r) => a < p.start && Above(l, a) && Above(r, a)
  }

  /** Non-empty ranges in search order, no two of which meet. */
  predicate Ordered(t: Ranges) {
    match t
    case Nil => true
    case Fork(l, p, r) => p.start <= p.end && Below(l, p.start) && Above(r, p.end) && Ordered(l) && Ordered(r)
  }

  /** LookupAddrNode: down the tree by the start of each range. */
  function Found(t: Ranges, a: nat): bool {
    match t
    case Nil => false
    case Fork(l, p, r) => if Holds(p, a) then true else if a < p.start then Found(l, a) else Found(r, a)
  }

  // ---------- Delete ----------

  /** The tree l under the leftmost place of t. */
  function Graft(t: Ranges, l: Ranges): Ranges {
    match t
    case Nil => l
    case Fork(tl, p, tr) => Fork(Graft(tl, l), p, tr)
  }

  /** The tree without its root. */
  function Unroot(l: Ranges, r: Ranges): Ranges {
    if r == Nil then l else if l == Nil then r else Graft(r, l)
  }

  // ---------- InsertList ----------

  /** One walk down the tree: the new range found its place; or a range was
      taken out and others are to be inserted from the root, in order. */
  datatype Walk = Placed(t: Ranges) | Again(t: Ranges, todo: seq<Range>)

  function Under(w: Walk, f: Ranges -> Ranges): Walk {
    match w
    case Placed(t) => Placed(f(t))
    case Again(t, todo) => Again(f(t), todo)
  }

  function Max(a: nat, b: nat): nat {
    if a >= b then a else b
  }

  function Down(t: Ranges, x: Range): Walk
    requires x.start <= x.end && Ordered(t)
    decreases t, x.end - x.start
  {
    match t
    case Nil => Placed(Fork(Nil, x, Nil))
    case Fork(l, p, r) =>
      if x.start < p.start then
        if x.end > p.start then Again(Unroot(l, r), [Range(x.start, Max(x.end, p.end))])
        else
          var x' := if x.end == p.start then Range(x.start, x.end - 1) else x;
          Under(Down(l, x'), l' => Fork(l', p, r))
      else if x.start > p.start then
        if p.end > x.start then Again(Unroot(l, r), [Range(p.start, Max(p.end, x.end))])
        else
          var p' := if p.end == x.start then Range(p.start, p.end - 1) else p;
          Under(Down(r, x), r' => Fork(l, p', r'))
      else if x.start < x.end && p.start < p.end then Again(Unroot(l, r), [Range(p.start, Max(p.end, x.end))])
      else if x.start == x.end && p.start == p.end then Placed(t)
      else if x.start == x.end then Again(Unroot(l, r), [Range(p.start + 1, p.end), x])
      else Down(t, Range(x.start + 1, x.end))
  }

  // ---------- what a walk keeps ----------

  /** What holds of a tree, in terms of its root and its parts. */
  lemma RootFacts(l: Ranges, p: Range, r: Ranges)
    ensures forall a: nat :: Covers(Fork(l, p, r), a) <==> Holds(p, a) || Covers(l, a) || Covers(r, a)
    ensures forall a: nat :: StartsAt(Fork(l, p, r), a) <==> p.start == a || StartsAt(l, a) || StartsAt(r, a)
    ensures forall a: nat :: Below(Fork(l, p, r), a) <==> p.end < a && Below(l, a) && Below(r, a)
    ensures forall a: nat :: Above(Fork(l, p, r), a) <==> a < p.start && Above(l, a) && Above(r, a)
    ensures Ordered(Fork(l, p, r)) <==>
              p.start <= p.end && Below(l, p.start) && Above(r, p.end) && Ordered(l) && Ordered(r)
  {}

  lemma NilFacts()
    ensures Ordered(Nil) && Size(Nil) == 0
    ensures forall a: nat :: !Covers(Nil, a) && !StartsAt(Nil, a) && Below(Nil, a) && Above(Nil, a)
  {}

  lemma {:induction false} BelowMore(t: Ranges, a: nat, b: nat)
    requires Below(t, a) && a <= b
    ensures Below(t, b)
  {
    match t
    case Nil =>
    case Fork(l, _, r) => BelowMore(l, a, b); BelowMore(r, a, b);
  }

  lemma {:induction false} AboveMore(t: Ranges, a: nat, b: nat)
    requires Above(t, a) && b <= a
    ensures Above(t, b)
  {
    match t
    case Nil =>
    case Fork(l, _, r) => AboveMore(l, a, b); AboveMore(r, a, b);
  }

  lemma {:induction false} NoStartBelow(t: Ranges, k: nat)
    requires Below(t, k) && Ordered(t)
    ensures forall a: nat :: k <= a ==> !StartsAt(t, a)
  {
    match t
    case Nil =>
    case Fork(l, _, r) => NoStartBelow(l, k); NoStartBelow(r, k);
  }

  lemma {:induction false} NoStartAbove(t: Ranges, k: nat)
    requires Above(t, k) && Ordered(t)
    ensures forall a: nat :: a <= k ==> !StartsAt(t, a)
  {
    match t
    case Nil =>
    case Fork(l, _, r) => NoStartAbove(l, k); NoStartAbove(r, k);
  }

  /** The tree t' has what is in t, or in l, and nothing else. */
  ghost predicate Joined(t': Ranges, t: Ranges, l: Ranges) {
    && Ordered(t') && Size(t') == Size(t) + Size(l)
    && (forall a: nat :: Covers(t', a) <==> Covers(t, a) || Covers(l, a))
    && (forall a: nat :: StartsAt(t', a) <==> StartsAt(t, a) || StartsAt(l, a))
    && (forall a: nat :: Below(t, a) && Below(l, a) ==> Below(t', a))
    && (forall a: nat :: Above(t, a) && Above(l, a) ==> Above(t', a))
  }

  lemma {:induction false} GraftJoins(t: Ranges, l: Ranges, k: nat)
    requires Ordered(t) && Ordered(l) && Below(l, k) && Above(t, k) && t != Nil
    ensures Joined(Graft(t, l), t, l)
  {
    hide Covers, StartsAt, Below, Above, Ordered;
    NilFacts();
    var Fork(tl, p, tr) := t;
    RootFacts(tl, p, tr);
    RootFacts(Graft(tl, l), p, tr);
    BelowMore(l, k, p.start);
    if tl == Nil {
    } else {
      GraftJoins(tl, l, k);
    }
  }

  /** Deleting the root takes out that range and no other. */
  lemma UnrootKeeps(l: Ranges, p: Range, r: Ranges)
    requires Ordered(Fork(l, p, r))
    ensures Joined(Unroot(l, r), r, l)
    ensures forall a: nat :: p.start <= a <= p.end ==> !StartsAt(Unroot(l, r), a)
  {
    hide Covers, StartsAt, Below, Above, Ordered;
    NilFacts();
    RootFacts(l, p, r);
    BelowMore(l, p.start, p.end);
    if r != Nil && l != Nil { GraftJoins(r, l, p.end); }
    NoStartBelow(l, p.start);
    NoStartAbove(r, p.end);
  }

  ghost predicate AnyHolds(todo: seq<Range>, a: nat) {
    exists i :: 0 <= i < |todo| && Holds(todo[i], a)
  }

  /** What a walk with x leaves of the tree t. */
  ghost predicate Walked(t: Ranges, x: Range, w: Walk) {
    && Ordered(w.t)
    && match w
       case Placed(t') =>
         && Size(t') <= Size(t) + 1
         && (forall a: nat :: Covers(t', a) <==> Covers(t, a) || Holds(x, a))
         && (forall a: nat :: Below(t, a) && x.end < a ==> Below(t', a))
         && (forall a: nat :: Above(t, a) && a < x.start ==> Above(t', a))
         && (!StartsAt(t, x.start) ==> forall a: nat :: StartsAt(t', a) ==> StartsAt(t, a) || a == x.start)
       case Again(t', todo) =>
         && Size(t') == Size(t) - 1
         && (forall a: nat :: Covers(t', a) || AnyHolds(todo, a) <==> Covers(t, a) || Holds(x, a))
         && (forall a: nat :: Below(t, a) ==> Below(t', a))
         && (forall a: nat :: Above(t, a) ==> Above(t', a))
         && (forall a: nat :: StartsAt(t', a) ==> StartsAt(t, a))
         && Sound(t, x, t', todo)
  }

  /** The ranges to be inserted again. If there are two, either the second is
      the new range and the first no longer starts where it does, or the new
      range has become shorter. */
  ghost predicate Sound(t: Ranges, x: Range, t': Ranges, todo: seq<Range>) {
    if |todo| == 1 then
      && todo[0].start <= todo[0].end
      && (!StartsAt(t, x.start) ==>
            !StartsAt(t', todo[0].start) && (StartsAt(t, todo[0].start) || todo[0].start == x.start))
    else
      && |todo| == 2 && StartsAt(t, x.start)
      && todo[0].start <= todo[0].end && todo[1].start <= todo[1].end
      && !StartsAt(t', todo[0].start)
      && (forall a: nat :: (Below(t, a) ==> todo[0].end < a) && (Above(t, a) ==> a < todo[0].start))
      && if todo[1] == x then !StartsAt(t', x.start) && todo[0].start != x.start
         else todo[1].end - todo[1].start < x.end - x.start
  }

  lemma {:induction false} DownKeeps(t: Ranges, x: Range)
    requires x.start <= x.end && Ordered(t)
    ensures Walked(t, x, Down(t, x))
    decreases t, x.end - x.start
  {
    hide Covers, StartsAt, Below, Above, Ordered, Walked;
    match t
    case Nil => LeafPlaced(x);
    case Fork(l, p, r) =>
      RootFacts(l, p, r);
      UnrootKeeps(l, p, r);
      if x.start < p.start {
        if x.end > p.start {
          Merged(l, p, r, x, Range(x.start, Max(x.end, p.end)));
        } else {
          var x' := if x.end == p.start then Range(x.start, x.end - 1) else x;
          DownKeeps(l, x');
          WalkedLeft(l, p, r, x, x', Down(l, x'));
        }
      } else if x.start > p.start {
        if p.end > x.start {
          Merged(l, p, r, x, Range(p.start, Max(p.end, x.end)));
        } else {
          var p' := if p.end == x.start then Range(p.start, p.end - 1) else p;
          DownKeeps(r, x);
          WalkedRight(l, p, p', r, x, Down(r, x));
        }
      } else if x.start < x.end && p.start < p.end {
        Merged(l, p, r, x, Range(p.start, Max(p.end, x.end)));
      } else if x.start == x.end && p.start == p.end {
        Known(l, p, r, x);
      } else if x.start == x.end {
        Shortened(l, p, r, x);
      } else {
        DownKeeps(t, Range(x.start + 1, x.end));
        Trimmed(l, p, r, x, Down(t, Range(x.start + 1, x.end)));
      }
  }

  lemma LeafPlaced(x: Range)
    requires x.start <= x.end
    ensures Walked(Nil, x, Placed(Fork(Nil, x, Nil)))
  {
    hide Covers, StartsAt, Below, Above, Ordered;
    NilFacts();
    RootFacts(Nil, x, Nil);
  }

  /** The root is the very address. */
  lemma Known(l: Ranges, p: Range, r: Ranges, x: Range)
    requires Ordered(Fork(l, p, r)) && x == p
    ensures Walked(Fork(l, p, r), x, Placed(Fork(l, p, r)))
  {
    hide Covers, StartsAt, Below, Above, Ordered;
    RootFacts(l, p, r);
  }

  /** The root is the first address of the new range. */
  lemma Trimmed(l: Ranges, p: Range, r: Ranges, x: Range, w: Walk)
    requires Ordered(Fork(l, p, r)) && p.start == p.end == x.start < x.end
    requires Walked(Fork(l, p, r), Range(x.start + 1, x.end), w)
    ensures Walked(Fork(l, p, r), x, w)
  {
    hide Covers, StartsAt, Below, Above, Ordered;
    RootFacts(l, p, r);
  }

  /** The root and the new range meet: y holds what either of them holds. */
  lemma Merged(l: Ranges, p: Range, r: Ranges, x: Range, y: Range)
    requires Ordered(Fork(l, p, r)) && Joined(Unroot(l, r), r, l)
    requires forall a: nat :: p.start <= a <= p.end ==> !StartsAt(Unroot(l, r), a)
    requires forall a: nat :: Holds(y, a) <==> Holds(p, a) || Holds(x, a)
    requires y.start <= y.end && (y.start == p.start || y.start == x.start)
    ensures Walked(Fork(l, p, r), x, Again(Unroot(l, r), [y]))
  {
    hide Covers, StartsAt, Below, Above, Ordered;
    RootFacts(l, p, r);
    assert forall a: nat :: AnyHolds([y], a) <==> Holds(y, a) by {
      assert [y][0] == y;
    }
  }

  /** The new range is the first address of the root. */
  lemma Shortened(l: Ranges, p: Range, r: Ranges, x: Range)
    requires Ordered(Fork(l, p, r)) && Joined(Unroot(l, r), r, l) && x.start == x.end == p.start < p.end
    requires forall a: nat :: p.start <= a <= p.end ==> !StartsAt(Unroot(l, r), a)
    ensures Walked(Fork(l, p, r), x, Again(Unroot(l, r), [Range(p.start + 1, p.end), x]))
  {
    hide Covers, StartsAt, Below, Above, Ordered;
    RootFacts(l, p, r);
    var todo := [Range(p.start + 1, p.end), x];
    assert forall a: nat :: AnyHolds(todo, a) <==> Holds(todo[0], a) || Holds(todo[1], a);
  }

  lemma WalkedLeft(l: Ranges, p: Range, r: Ranges, x: Range, x': Range, w: Walk)
    requires Ordered(Fork(l, p, r)) && Walked(l, x', w) && x.start == x'.start <= x'.end < p.start && x'.end <= x.end
    requires forall a: nat :: Holds(x, a) || Holds(p, a) <==> Holds(x', a) || Holds(p, a)
    requires x == x' || Holds(p, x.end)
    ensures Walked(Fork(l, p, r), x, Under(w, l' => Fork(l', p, r)))
  {
    hide Covers, StartsAt, Below, Above, Ordered;
    RootFacts(l, p, r);
    RootFacts(w.t, p, r);
    NoStartBelow(l, p.start);
    NoStartAbove(r, p.end);
  }

  lemma WalkedRight(l: Ranges, p: Range, p': Range, r: Ranges, x: Range, w: Walk)
    requires Ordered(Fork(l, p, r)) && Walked(r, x, w) && p.start == p'.start <= p'.end < x.start
    requires p'.end <= p.end <= x.start
    requires forall a: nat :: Holds(x, a) || Holds(p, a) <==> Holds(x, a) || Holds(p', a)
    ensures Walked(Fork(l, p, r), x, Under(w, r' => Fork(l, p', r')))
  {
    hide Covers, StartsAt, Below, Above, Ordered;
    RootFacts(l, p, r);
    RootFacts(l, p', w.t);
    AboveMore(r, p.end, p'.end);
    NoStartBelow(l, p.start);
    NoStartAbove(r, p.end);
  }

  // ---------- InsertList as a whole ----------

  /** It ends, keeps the search order, and covers what was covered and the new
      range. */
  function InsertList(t: Ranges, x: Range): (r: Ranges)
    requires Ordered(t) && x.start <= x.end
    ensures Ordered(r) && Size(r) <= Size(t) + 1
    ensures forall a: nat :: Covers(r, a) <==> Covers(t, a) || Holds(x, a)
    ensures !StartsAt(t, x.start) ==> forall a: nat :: StartsAt(r, a) ==> StartsAt(t, a) || a == x.start
    decreases Size(t), x.end - x.start, StartsAt(t, x.start)
  {
    DownKeeps(t, x);
    match Down(t, x)
    case Placed(t') => t'
    case Again(t', todo) =>
      if |todo| == 1 then InsertList(t', todo[0]) else InsertList(InsertList(t', todo[0]), todo[1])
  }

  lemma {:induction false} FoundIsCovered(t: Ranges, a: nat)
    requires Ordered(t)
    ensures Found(t, a) <==> Covers(t, a)
  {
    match t
    case Nil =>
    case Fork(l, p, r) =>
      FoundIsCovered(l, a);
      FoundIsCovered(r, a);
      if p.start <= a { NotBelow(l, p.start, a); }
      if a <= p.end { NotAbove(r, p.end, a); }
  }

  lemma {:induction false} NotBelow(t: Ranges, k: nat, a: nat)
    requires Below(t, k) && k <= a
    ensures !Covers(t, a)
  {
    match t
    case Nil =>
    case Fork(l, _, r) => NotBelow(l, k, a); NotBelow(r, k, a);
  }

  lemma {:induction false} NotAbove(t: Ranges, k: nat, a: nat)
    requires Above(t, k) && a <= k
    ensures !Covers(t, a)
  {
    match t
    case Nil =>
    case Fork(l, _, r) => NotAbove(l, k, a); NotAbove(r, k, a);
  }

  /** With one node, an address is found afterwards if and only if it was found
      before or is in the new range, however the ranges overlap. */
  lemma MergeIsUnion(t: Ranges, x: Range, a: nat)
    requires Ordered(t) && x.start <= x.end
    ensures Found(InsertList(t, x), a) <==> Found(t, a) || Holds(x, a)
  {
    FoundIsCovered(t, a);
    FoundIsCovered(InsertList(t, x), a);
  }
}
