/** The linked lists of the directory: the pending buffer and the ready queue,
    and the hash chains of the line table. */
module DirLists {
  import opened Common
  import opened DirTypes
  import opened DirMachine
  import opened Bits

  // ---------- the pending buffer and the ready queue ----------

  class Cell {
    const req: Req
    var next: Cell?

    constructor (req: Req)
      ensures this.req == req && next == null
    {
      this.req, next := req, null;
    }
  }

  ghost function CellAt(cells: seq<Cell>, i: int): Cell? {
    if 0 <= i < |cells| then cells[i] else null
  }

  ghost predicate NextOk(cells: seq<Cell>, i: nat)
    requires i < |cells|
    reads cells[i]
  {
    cells[i].next == CellAt(cells, i + 1)
  }

  /** The cells are linked in this order. */
  ghost predicate Chained(cells: seq<Cell>)
    reads cells
  {
    && (forall i, j :: 0 <= i < j < |cells| ==> cells[i] != cells[j])
    && (forall i :: 0 <= i < |cells| ==> NextOk(cells, i))
  }

  ghost function Reqs(cells: seq<Cell>): (s: seq<Req>)
    ensures |s| == |cells| && forall i :: 0 <= i < |cells| ==> s[i] == cells[i].req
  {
    seq(|cells|, i requires 0 <= i < |cells| => cells[i].req)
  }

  /** The part of the directory that queues requests: the pending buffer with
      its two ends, and the queue of requests that are ready. */
  class Queues {
    var bufHead: Cell?
    var bufTail: Cell?
    var readyHead: Cell?
    var readyTail: Cell?
    var bufszRdy: int
    ghost var buf: seq<Cell>
    ghost var rdy: seq<Cell>

    ghost predicate Valid()
      reads this, buf, rdy
    {
      && bufHead == CellAt(buf, 0) && bufTail == CellAt(buf, |buf| - 1) && Chained(buf)
      && readyHead == CellAt(rdy, 0) && readyTail == CellAt(rdy, |rdy| - 1) && Chained(rdy)
      && bufszRdy == |rdy|
      && forall i, j :: 0 <= i < |buf| && 0 <= j < |rdy| ==> buf[i] != rdy[j]
    }

    constructor ()
      ensures Valid() && buf == [] && rdy == []
    {
      bufHead, bufTail, readyHead, readyTail, bufszRdy := null, null, null, null, 0;
      buf, rdy := [], [];
    }

    /** DirAddBuf: at the tail of the pending buffer. */
    method AddBuf(cell: Cell)
      requires Valid() && cell !in buf && cell !in rdy
      modifies this`bufHead, this`bufTail, this`buf, cell, buf
      ensures Valid() && buf == old(buf) + [cell]
      ensures Reqs(buf) == Reqs(old(buf)) + [cell.req]
    {
      ghost var before := buf;
      if bufTail != null {
        bufTail.next := cell;
        bufTail := cell;
      } else {
        bufHead := cell;
        bufTail := cell;
      }
      cell.next := null;
      buf := buf + [cell];
      forall i | 0 <= i < |buf| ensures NextOk(buf, i) {
        if i < |before| { assert old(NextOk(before, i)); }
      }
      forall i | 0 <= i < |rdy| ensures NextOk(rdy, i) {
        assert old(NextOk(rdy, i));
      }
    }

    /** DirQueueAdd on the ready queue. Only an empty queue makes it clear the
        link of the new request, which therefore has to be clear otherwise. */
    method QueueAdd(cell: Cell)
      requires Valid() && cell !in buf && cell !in rdy && (rdy != [] ==> cell.next == null)
      modifies this`readyHead, this`readyTail, this`bufszRdy, this`rdy, cell, rdy
      ensures Valid() && rdy == old(rdy) + [cell]
    {
      ghost var before := rdy;
      if readyHead == null {
        readyHead, readyTail := cell, cell;
        cell.next := null;
      } else {
        readyTail.next := cell;
        readyTail := cell;
      }
      bufszRdy := bufszRdy + 1;
      rdy := rdy + [cell];
      forall i | 0 <= i < |rdy| ensures NextOk(rdy, i) {
        if i < |before| { assert old(NextOk(before, i)); }
      }
      forall i | 0 <= i < |buf| ensures NextOk(buf, i) {
        assert old(NextOk(buf, i));
      }
    }

    /** DirQueueRm on the ready queue. */
    method QueueRm() returns (cell: Cell?)
      requires Valid()
      modifies this`readyHead, this`readyTail, this`bufszRdy, this`rdy, rdy
      ensures Valid() && cell == old(CellAt(rdy, 0))
      ensures rdy == if old(rdy) == [] then [] else old(rdy)[1..]
      ensures cell != null ==> cell.next == null
    {
      cell := readyHead;
      if cell == null { return; }
      ghost var before := rdy;
      assert NextOk(rdy, 0);
      readyHead := readyHead.next;
      if cell.next == null {
        readyTail := null;
      } else {
        cell.next := null;
      }
      bufszRdy := bufszRdy - 1;
      rdy := rdy[1..];
      forall i | 0 <= i < |rdy| ensures NextOk(rdy, i) {
        assert old(NextOk(before, i + 1));
      }
      forall i | 0 <= i < |buf| ensures NextOk(buf, i) {
        assert old(NextOk(buf, i));
      }
    }

    /** Taking one request out of the pending buffer; it keeps no link. */
    method Unlink(temp: Cell, prev: Cell?, ghost k: nat) returns (next: Cell?)
      requires Valid() && k < |buf| && temp == buf[k] && prev == CellAt(buf, k - 1)
      modifies this`bufHead, this`bufTail, this`buf, buf
      ensures Valid() && buf == Without(old(buf), k) && temp.next == null && temp !in buf && temp !in rdy
      ensures next == CellAt(buf, k)
    {
      ghost var before := buf;
      assert NextOk(buf, k);
      if prev != null {
        prev.next := temp.next;
      } else {
        bufHead := temp.next;
      }
      next := temp.next;
      if temp.next == null {
        bufTail := prev;
      } else {
        temp.next := null;
      }
      buf := Without(buf, k);
      forall i | 0 <= i < |buf| ensures NextOk(buf, i) {
        var j := if i < k then i else i + 1;
        assert old(NextOk(before, j)) && buf[i] == before[j];
      }
      forall i | 0 <= i < |rdy| ensures NextOk(rdy, i) {
        assert old(NextOk(rdy, i));
      }
    }

    /** From the pending buffer to the end of the ready queue. */
    method Move(temp: Cell, prev: Cell?, ghost k: nat, ghost all: set<Cell>) returns (next: Cell?)
      requires Valid() && k < |buf| && temp == buf[k] && prev == CellAt(buf, k - 1) && From(buf, all) && From(rdy, all)
      modifies this, all
      ensures Valid() && buf == Without(old(buf), k) && rdy == old(rdy) + [temp] && next == CellAt(buf, k)
      ensures prev == CellAt(buf, k - 1)
      ensures |buf| + 1 == |old(buf)|
      ensures From(buf, all) && From(rdy, all)
    {
      next := Unlink(temp, prev, k);
      QueueAdd(temp);
    }

    /** One turn of the loop of DirCheckBuf. */
    method Turn(temp: Cell, prev: Cell?, tag: Tag, ghost k: nat, ghost all: set<Cell>)
        returns (next: Cell?, last: Cell?, ghost k': nat)
      requires Valid() && k < |buf| && temp == buf[k] && prev == CellAt(buf, k - 1) && From(buf, all) && From(rdy, all)
      modifies this, all
      ensures Valid() && k' <= |buf| && next == CellAt(buf, k') && last == CellAt(buf, k' - 1)
      ensures if temp.req.tag == tag
              then k' == k && buf == Without(old(buf), k) && rdy == old(rdy) + [temp]
              else k' == k + 1 && buf == old(buf) && rdy == old(rdy)
      ensures From(buf, all) && From(rdy, all)
    {
      if temp.req.tag == tag {
        k' := k;
        next := Move(temp, prev, k, all);
        last := prev;
      } else {
        assert NextOk(buf, k);
        k', next, last := k + 1, temp.next, temp;
      }
    }

    /** DirCheckBuf: the requests on a tag move, in order, from the pending
        buffer to the end of the ready queue; the others stay, in order. */
    method CheckBuf(tag: Tag)
      requires Valid()
      modifies this, buf, rdy
      ensures Valid()
      ensures Reqs(buf) == NotOfTag(Reqs(old(buf)), tag)
      ensures Reqs(rdy) == Reqs(old(rdy)) + OfTag(Reqs(old(buf)), tag)
    {
      hide Valid, OfTag, NotOfTag, Reqs;
      CheckAll(tag, (set c | c in buf) + (set c | c in rdy));
    }

    method CheckAll(tag: Tag, ghost all: set<Cell>)
      requires Valid() && From(buf, all) && From(rdy, all)
      modifies this, all
      ensures Valid()
      ensures Reqs(buf) == NotOfTag(Reqs(old(buf)), tag)
      ensures Reqs(rdy) == Reqs(old(rdy)) + OfTag(Reqs(old(buf)), tag)
    {
      ghost var before, first := buf, rdy;
      var temp, prev := bufHead, null;
      assert temp == CellAt(buf, 0);
      hide Parted, Valid, OfTag, NotOfTag, Reqs, From, Without;
      ghost var k, i := 0, 0;
      PartedStart(buf, rdy, tag);
      while temp != null
        invariant Valid() && 0 <= k <= |buf| && temp == CellAt(buf, k) && prev == CellAt(buf, k - 1)
        invariant Parted(before, first, buf, rdy, k, i, tag) && |before| - i == |buf| - k
        invariant From(buf, all) && From(rdy, all)
        decreases |buf| - k
      {
        PartedNext(before, first, buf, rdy, k, i, tag);
        temp, prev, k := Turn(temp, prev, tag, k, all);
        i := i + 1;
      }
      PartedEnd(before, first, buf, rdy, i, tag);
    }
  }

  ghost predicate From(s: seq<Cell>, all: set<Cell>) {
    forall j :: 0 <= j < |s| ==> s[j] in all
  }

  /** The first i requests have been looked at: those on the tag are at the end
      of the ready queue, the others are the first k of the buffer. */
  ghost predicate Parted(before: seq<Cell>, first: seq<Cell>, buf: seq<Cell>, rdy: seq<Cell>, k: nat, i: nat,
                         tag: Tag) {
    && i <= |before| && k <= |buf| && buf[k..] == before[i..]
    && Reqs(buf[..k]) == NotOfTag(Reqs(before)[..i], tag)
    && Reqs(rdy) == Reqs(first) + OfTag(Reqs(before)[..i], tag)
  }

  lemma PartedStart(buf: seq<Cell>, rdy: seq<Cell>, tag: Tag)
    ensures Parted(buf, rdy, buf, rdy, 0, 0, tag)
  {}

  lemma PartedMove(before: seq<Cell>, first: seq<Cell>, buf: seq<Cell>, rdy: seq<Cell>, k: nat, i: nat, tag: Tag)
    requires Parted(before, first, buf, rdy, k, i, tag) && k < |buf| && buf[k].req.tag == tag
    ensures Parted(before, first, Without(buf, k), rdy + [buf[k]], k, i + 1, tag)
  {
    var r := Reqs(before);
    assert buf[k] == before[i] && r[..i + 1][..i] == r[..i];
    assert Without(buf, k)[..k] == buf[..k];
    assert Reqs(rdy + [buf[k]]) == Reqs(rdy) + [r[i]];
  }

  lemma PartedKeep(before: seq<Cell>, first: seq<Cell>, buf: seq<Cell>, rdy: seq<Cell>, k: nat, i: nat, tag: Tag)
    requires Parted(before, first, buf, rdy, k, i, tag) && k < |buf| && buf[k].req.tag != tag
    ensures Parted(before, first, buf, rdy, k + 1, i + 1, tag)
  {
    var r := Reqs(before);
    assert buf[k] == before[i] && r[..i + 1][..i] == r[..i];
    assert Reqs(buf[..k + 1]) == Reqs(buf[..k]) + [r[i]];
  }

  lemma PartedNext(before: seq<Cell>, first: seq<Cell>, buf: seq<Cell>, rdy: seq<Cell>, k: nat, i: nat, tag: Tag)
    requires Parted(before, first, buf, rdy, k, i, tag) && k < |buf|
    ensures if buf[k].req.tag == tag
            then Parted(before, first, Without(buf, k), rdy + [buf[k]], k, i + 1, tag) && |Without(buf, k)| + 1 == |buf|
            else Parted(before, first, buf, rdy, k + 1, i + 1, tag)
  {
    if buf[k].req.tag == tag {
      PartedMove(before, first, buf, rdy, k, i, tag);
    } else {
      PartedKeep(before, first, buf, rdy, k, i, tag);
    }
  }

  lemma PartedEnd(before: seq<Cell>, first: seq<Cell>, buf: seq<Cell>, rdy: seq<Cell>, i: nat, tag: Tag)
    requires Parted(before, first, buf, rdy, |buf|, i, tag) && i == |before|
    ensures Reqs(buf) == NotOfTag(Reqs(before), tag)
    ensures Reqs(rdy) == Reqs(first) + OfTag(Reqs(before), tag)
  {
    assert buf[..|buf|] == buf && Reqs(before)[..i] == Reqs(before);
  }

  // ---------- the line table ----------

  const HASH_IDX_MASK: nat := 0x3FF

  function Index(tag: Tag): (i: nat)
    ensures i < HASH_IDX_MASK + 1
  {
    MaskIsRemainder(tag);
    And(tag, HASH_IDX_MASK)
  }

  lemma MaskIsRemainder(tag: Tag)
    ensures And(tag, HASH_IDX_MASK) == tag % 1024
  {
    assert Pow2(5) == 32;
    PowerSum(5, 5);
    AndMask(tag, 10);
  }

  class Entry {
    const tag: Tag
    var line: Line
    var next: Entry?

    constructor (tag: Tag, next: Entry?)
      ensures this.tag == tag && this.next == next && line == FRESH_LINE
    {
      this.tag, this.next, line := tag, next, FRESH_LINE;
    }
  }

  ghost function EntryAt(chain: seq<Entry>, k: int): Entry? {
    if 0 <= k < |chain| then chain[k] else null
  }

  ghost predicate EntryOk(chain: seq<Entry>, k: nat)
    requires k < |chain|
    reads chain[k]
  {
    chain[k].next == EntryAt(chain, k + 1)
  }

  /** The chain of bucket i: its entries linked in order, each in the right
      bucket and the only one of its tag. */
  ghost predicate ChainOk(chain: seq<Entry>, i: nat)
    reads chain
  {
    (forall k :: 0 <= k < |chain| ==> EntryOk(chain, k)) && Sorted(chain, i)
  }

  ghost predicate Sorted(chain: seq<Entry>, i: nat) {
    && (forall k :: 0 <= k < |chain| ==> Index(chain[k].tag) == i)
    && (forall k, l :: 0 <= k < l < |chain| ==> chain[k].tag != chain[l].tag)
  }

  ghost function All(chains: seq<seq<Entry>>): set<Entry> {
    set i, k | 0 <= i < |chains| && 0 <= k < |chains[i]| :: chains[i][k]
  }

  class LineTable {
    const heads: array<Entry?>
    ghost var chains: seq<seq<Entry>>

    ghost predicate Valid()
      reads this, heads, All(chains)
    {
      && heads.Length == HASH_IDX_MASK + 1 == |chains|
      && forall i :: 0 <= i < |chains| ==> heads[i] == EntryAt(chains[i], 0) && ChainOk(chains[i], i)
    }

    constructor ()
      ensures Valid() && fresh(heads) && All(chains) == {}
    {
      heads := new Entry?[HASH_IDX_MASK + 1](_ => null);
      chains := seq(HASH_IDX_MASK + 1, _ => []);
    }

    /** No tag has two entries. */
    lemma OnePerTag(x: Entry, y: Entry)
      requires Valid() && x in All(chains) && y in All(chains) && x.tag == y.tag
      ensures x == y
    {
      var i, k :| 0 <= i < |chains| && 0 <= k < |chains[i]| && chains[i][k] == x;
      var j, l :| 0 <= j < |chains| && 0 <= l < |chains[j]| && chains[j][l] == y;
      assert ChainOk(chains[i], i) && ChainOk(chains[j], j);
      assert i == Index(chains[i][k].tag) == j;
      assert ChainOk(chains[i], i);
    }

    /** The walk down the chain of a tag. */
    method Walk(tag: Tag) returns (temp: Entry?, prev: Entry?, ghost k: nat)
      requires Valid()
      ensures var chain := chains[Index(tag)];
              && k <= |chain| && temp == EntryAt(chain, k) && prev == EntryAt(chain, k - 1)
              && (temp == null ==> k == |chain|) && (temp != null ==> temp.tag == tag)
              && forall j :: 0 <= j < k ==> chain[j].tag != tag
    {
      ghost var chain := chains[Index(tag)];
      temp, prev, k := heads[Index(tag)], null, 0;
      assert ChainOk(chain, Index(tag));
      while temp != null
        invariant k <= |chain| && temp == EntryAt(chain, k) && prev == EntryAt(chain, k - 1)
        invariant forall j :: 0 <= j < k ==> chain[j].tag != tag
        decreases |chain| - k
      {
        if temp.tag == tag { return; }
        assert EntryOk(chain, k);
        prev := temp;
        temp := temp.next;
        k := k + 1;
      }
    }

    /** A fresh uncached line at the head of its chain. */
    method Prepend(tag: Tag) returns (e: Entry)
      requires Valid() && forall k :: 0 <= k < |chains[Index(tag)]| ==> chains[Index(tag)][k].tag != tag
      modifies this`chains, heads
      ensures Valid() && fresh(e) && e.tag == tag && e.line == FRESH_LINE && heads[Index(tag)] == e
      ensures chains == old(chains)[Index(tag) := [e] + old(chains)[Index(tag)]]
    {
      ghost var chain, before := chains[Index(tag)], chains;
      assert ChainOk(chain, Index(tag));
      e := new Entry(tag, heads[Index(tag)]);
      heads[Index(tag)] := e;
      chains := chains[Index(tag) := [e] + chain];
      forall k | 0 <= k < |chain| + 1 ensures EntryOk([e] + chain, k) {
        if k > 0 { assert old(EntryOk(chain, k - 1)); }
      }
      forall j | 0 <= j < |chains| ensures heads[j] == EntryAt(chains[j], 0) && ChainOk(chains[j], j) {
        if j != Index(tag) { assert old(ChainOk(before[j], j)); }
      }
    }

    /** An entry to the head of its chain. */
    method MoveToFront(tag: Tag, temp: Entry, prev: Entry?, ghost k: nat)
      requires Valid() && k < |chains[Index(tag)]| && chains[Index(tag)][k] == temp && temp.tag == tag
      requires prev == EntryAt(chains[Index(tag)], k - 1)
      modifies this`chains, heads, temp`next, if prev != null then {prev} else {}
      ensures Valid() && heads[Index(tag)] == temp
      ensures chains == old(chains)[Index(tag) := [temp] + Without(old(chains)[Index(tag)], k)]
      ensures prev != null ==> prev.line == old(prev.line)
    {
      ghost var i := Index(tag);
      ghost var chain, before := chains[i], chains;
      ghost var front := [temp] + Without(chain, k);
      assert ChainOk(chain, i) && EntryOk(chain, k);
      if prev != null {
        prev.next := temp.next;
        temp.next := heads[Index(tag)];
        heads[Index(tag)] := temp;
      }
      chains := chains[i := front];
      FrontTags(chain, i, k);
      forall j | 0 <= j < |before| && j != i ensures temp !in before[j] && prev !in before[j] {
        Elsewhere(before[j], j, i, temp);
        if prev != null { Elsewhere(before[j], j, i, prev); }
      }
      Distinct(chain, i);
      hide All, Sorted;
      forall l | 0 <= l < |front| ensures EntryOk(front, l) {
        var o := if l == 0 then k else if l <= k then l - 1 else l;
        assert front[l] == chain[o] && old(EntryOk(chain, o));
      }
      forall j | 0 <= j < |chains| ensures heads[j] == EntryAt(chains[j], 0) && ChainOk(chains[j], j) {
        if j != i {
          forall l | 0 <= l < |before[j]| ensures EntryOk(before[j], l) {
            assert old(EntryOk(before[j], l)) && before[j][l] in before[j];
          }
        }
      }
    }

    /** A tag that its chain does not hold is nowhere. */
    lemma NoneOfTag(tag: Tag)
      requires Valid() && forall k :: 0 <= k < |chains[Index(tag)]| ==> chains[Index(tag)][k].tag != tag
      ensures forall x :: x in All(chains) ==> x.tag != tag
    {
      forall x | x in All(chains) ensures x.tag != tag {
        var i, k :| 0 <= i < |chains| && 0 <= k < |chains[i]| && chains[i][k] == x;
        assert ChainOk(chains[i], i) && Index(chains[i][k].tag) == i;
      }
    }

    /** DirHashLookup_FM: the entry of a tag, moved to the head of its chain;
        a fresh uncached line if the tag has none. */
    method Lookup(tag: Tag) returns (e: Entry)
      requires Valid()
      modifies this`chains, heads, All(chains)
      ensures Valid() && e.tag == tag && heads[Index(tag)] == e
      ensures All(chains) == old(All(chains)) + {e}
      ensures fresh(e) <==> forall x :: x in old(All(chains)) ==> x.tag != tag
      ensures fresh(e) ==> e.line == FRESH_LINE
      ensures forall x :: x in old(All(chains)) ==> x.line == old(x.line)
    {
      var temp, prev;
      ghost var k;
      temp, prev, k := Walk(tag);
      ghost var i, before := Index(tag), chains;
      if temp == null {
        NoneOfTag(tag);
        e := Prepend(tag);
        AllUpdate(before, i, [e] + before[i], e);
      } else {
        MoveToFront(tag, temp, prev, k);
        e := temp;
        AllUpdate(before, i, [temp] + Without(before[i], k), temp);
      }
    }
  }

  lemma FrontTags(chain: seq<Entry>, i: nat, k: nat)
    requires k < |chain| && Sorted(chain, i)
    ensures var front := [chain[k]] + Without(chain, k);
            Sorted(front, i) &&
            forall l :: 0 <= l < |front| ==> front[l] == chain[if l == 0 then k else if l <= k then l - 1 else l]
  {}

  lemma Distinct(chain: seq<Entry>, i: nat)
    requires Sorted(chain, i)
    ensures forall k, l :: 0 <= k < l < |chain| ==> chain[k] != chain[l]
  {}

  lemma Elsewhere(chain: seq<Entry>, j: nat, i: nat, e: Entry)
    requires Sorted(chain, j) && Index(e.tag) == i && i != j
    ensures e !in chain
  {}

  /** One chain with an entry more, or in another order. */
  lemma AllUpdate(chains: seq<seq<Entry>>, i: nat, chain: seq<Entry>, e: Entry)
    requires i < |chains| && forall x :: x in chain <==> x in chains[i] || x == e
    ensures All(chains[i := chain]) == All(chains) + {e}
  {
    var now := chains[i := chain];
    forall x | x in All(now) ensures x in All(chains) + {e} {
      var j, k :| 0 <= j < |now| && 0 <= k < |now[j]| && now[j][k] == x;
      if j == i {
        assert x in chain;
        if x != e { InAll(chains, i, x); }
      } else {
        assert chains[j][k] == x;
      }
    }
    forall x | x in All(chains) ensures x in All(now) {
      var j, k :| 0 <= j < |chains| && 0 <= k < |chains[j]| && chains[j][k] == x;
      assert j == i ==> x in chain;
      InAll(now, j, x);
    }
    assert e in chain;
    InAll(now, i, e);
  }

  lemma InAll(chains: seq<seq<Entry>>, j: nat, x: Entry)
    requires j < |chains| && x in chains[j]
    ensures x in All(chains)
  {
    var k :| 0 <= k < |chains[j]| && chains[j][k] == x;
  }
}
