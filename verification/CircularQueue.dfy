/** The circular queue: a bounded sequence in a ring whose size is a power of
    two, with binary search. */
module CircularQueue {
  import opened Common
  import opened Bits

  /** `x - 1` on 32-bit unsigned words. */
  function Dec(x: nat): nat {
    if x == 0 then WORD - 1 else x - 1
  }

  /** One round of a ring of n slots is the same slot. */
  function Wrap(x: nat, n: nat): (r: nat)
    requires n > 0 && x < 2 * n
    ensures r < n
  {
    if x < n then x else x - n
  }

  /** The place `ind` after the head, going round the ring either way. */
  function Slot(ind: int, n: nat): (r: nat)
    requires n > 0
    ensures r < n && (0 <= ind < n ==> r == ind)
  {
    ind % n
  }

  lemma MaskWraps(x: nat, k: nat)
    requires x < 2 * Pow2(k)
    ensures And(x, Pow2(k) - 1) == Wrap(x, Pow2(k))
  {
    AndMask(x, k);
    var n := Pow2(k);
    DivUnique(x, n, if x < n then 0 else 1, Wrap(x, n));
  }

  lemma BitsOf(n: nat) returns (k: nat)
    requires IsPow2(n) && n < WORD
    ensures Pow2(k) == n && k <= 32
  {
    k :| Pow2(k) == n;
    WordSize();
    if k > 32 { Pow2Grows(32, k); }
  }

  /** Going back from slot 0 leads to the last slot, the wrap-around included. */
  lemma MaskBack(x: nat, k: nat)
    requires x < Pow2(k) && k <= 32
    ensures And(Dec(x), Pow2(k) - 1) == if x == 0 then Pow2(k) - 1 else x - 1
  {
    WordSize();
    AndMask(Dec(x), k);
    if x == 0 {
      PowerSum(32 - k, k);
      AllOnes(Pow2(32 - k), Pow2(k));
    } else {
      DivUnique(x - 1, Pow2(k), 0, x - 1);
    }
  }

  /** Masked, an index relative to the head goes round the ring, whatever its
      sign. */
  lemma MaskSlot(head: nat, ind: int, k: nat)
    requires head < Pow2(k) && k <= 32
    ensures And((head + ind) % WORD, Pow2(k) - 1) == Wrap(head + Slot(ind, Pow2(k)), Pow2(k))
  {
    WordSize();
    PowerSum(32 - k, k);
    AndMask((head + ind) % WORD, k);
    RemainderOfRemainder(head + ind, Pow2(32 - k), Pow2(k));
    RemainderOfSum(head, ind, Pow2(k));
  }

  lemma RemainderOfRemainder(x: int, a: nat, b: nat)
    requires a > 0 && b > 0 && a * b > 0
    ensures x % (a * b) % b == x % b
  {
    var q, r := x / (a * b), x % (a * b);
    assert x == (q * a) * b + r;
    SameRemainder(r, q * a, b);
  }

  /** Adding a multiple of the divisor leaves the remainder. */
  lemma SameRemainder(r: int, q: int, b: nat)
    requires b > 0
    ensures (q * b + r) % b == r % b
  {
    var m, m' := (q * b + r) / b, r / b;
    var n, n' := (q * b + r) % b, r % b;
    assert m * b + n == q * b + m' * b + n';
    Distribute(m, q + m', b);
    Distribute(q + m', m, b);
    if m > q + m' { AtLeastOnce(m - q - m', b); } else if m < q + m' { AtLeastOnce(q + m' - m, b); }
  }

  lemma RemainderOfSum(head: nat, ind: int, n: nat)
    requires head < n
    ensures (head + ind) % n == Wrap(head + ind % n, n)
  {
    var i := ind % n;
    assert ind == (ind / n) * n + i;
    SameRemainder(head + i, ind / n, n);
    DivUnique(head + i, n, if head + i < n then 0 else 1, Wrap(head + i, n));
  }

  lemma AllOnes(a: nat, b: nat)
    requires a > 0 && b > 0 && a * b > 0
    ensures (a * b - 1) % b == b - 1
  {
    assert a * b - 1 == (a - 1) * b + (b - 1);
    DivUnique(a * b - 1, b, a - 1, b - 1);
  }

  /** The elements compare with the key in ascending order. */
  ghost predicate SortedFor<T, K>(s: seq<T>, key: K, diff: (T, K) -> int) {
    forall i, j :: 0 <= i < j < |s| ==>
      (diff(s[j], key) <= 0 ==> diff(s[i], key) <= 0) && (diff(s[j], key) < 0 ==> diff(s[i], key) < 0)
  }

  class Circq<T(0)> {
    const max: nat
    const sz: nat
    const mask: nat
    const arr: array<T>
    var head: nat
    var tail: nat
    var cnt: nat
    ghost const bits: nat

    ghost predicate Geometry() {
      sz == arr.Length == Pow2(bits) && bits <= 32 && mask == sz - 1 && max <= sz
    }

    ghost predicate Valid()
      reads this
    {
      Geometry() && head < sz && cnt <= max && tail == Wrap(head + cnt, sz)
    }

    /** The n elements from the head on. */
    ghost function FromHead(n: nat): (s: seq<T>)
      requires Geometry() && head < sz && n <= sz
      reads this, arr
      ensures |s| == n && forall i :: 0 <= i < n ==> s[i] == arr[Wrap(head + i, sz)]
    {
      seq(n, i requires 0 <= i < n && Geometry() && head < sz && n <= sz reads this, arr => arr[Wrap(head + i, sz)])
    }

    ghost function Contents(): seq<T>
      requires Valid()
      reads this, arr
    {
      FromHead(cnt)
    }

    constructor (s: nat)
      requires s < WORD / 2
      ensures Valid() && Contents() == [] && max == s && fresh(arr) && (sz == 1 || sz < 2 * s)
    {
      max := s;
      var n := Normalize(s);
      sz, mask := n, n - 1;
      arr := new T[n];
      head, tail, cnt := 0, 0, 0;
      ghost var k := BitsOf(n);
      bits := k;
      new;
    }

    /** Insert: at the tail, unless the queue is full. */
    method Insert(d: T) returns (ok: bool)
      requires Valid()
      modifies this`tail, this`cnt, arr
      ensures Valid() && ok == (|old(Contents())| < max)
      ensures Contents() == if ok then old(Contents()) + [d] else old(Contents())
    {
      hide And, Pow2, Dec;
      if cnt == max { return false; }
      ghost var before := Contents();
      cnt := cnt + 1;
      arr[tail] := d;
      MaskWraps(tail + 1, bits);
      tail := And(tail + 1, mask);
      assert Contents() == before + [d];
      ok := true;
    }

    method InsertAtHead(d: T) returns (ok: bool)
      requires Valid()
      modifies this`head, this`cnt, arr
      ensures Valid() && ok == (|old(Contents())| < max)
      ensures Contents() == if ok then [d] + old(Contents()) else old(Contents())
    {
      hide And, Pow2, Dec;
      if cnt == max { return false; }
      ghost var before := Contents();
      cnt := cnt + 1;
      MaskBack(head, bits);
      head := And(Dec(head), mask);
      arr[head] := d;
      assert Contents() == [d] + before;
      ok := true;
    }

    /** Delete: take the head. */
    method Delete() returns (d: Option<T>)
      requires Valid()
      modifies this`head, this`cnt
      ensures Valid() && (d.None? <==> old(Contents()) == [])
      ensures d.None? ==> Contents() == old(Contents())
      ensures d.Some? ==> old(Contents()) == [d.value] + Contents()
    {
      hide And, Pow2, Dec;
      if cnt == 0 { return None; }
      ghost var before := Contents();
      cnt := cnt - 1;
      d := Some(arr[head]);
      MaskWraps(head + 1, bits);
      head := And(head + 1, mask);
      assert before == [d.value] + Contents();
    }

    method DeleteFromTail() returns (d: Option<T>)
      requires Valid()
      modifies this`tail, this`cnt
      ensures Valid() && (d.None? <==> old(Contents()) == [])
      ensures d.None? ==> Contents() == old(Contents())
      ensures d.Some? ==> old(Contents()) == Contents() + [d.value]
    {
      hide And, Pow2, Dec;
      if cnt == 0 { return None; }
      ghost var before := Contents();
      cnt := cnt - 1;
      MaskBack(tail, bits);
      tail := And(Dec(tail), mask);
      d := Some(arr[tail]);
      assert before == Contents() + [d.value];
    }

    method PeekHead() returns (d: Option<T>)
      requires Valid()
      ensures d == if Contents() == [] then None else Some(Contents()[0])
    {
      d := if cnt == 0 then None else Some(arr[head]);
      assert cnt > 0 ==> Contents()[0] == arr[head];
    }

    method PeekTail() returns (d: Option<T>)
      requires Valid()
      ensures d == if Contents() == [] then None else Some(Contents()[|Contents()| - 1])
    {
      hide And, Pow2, Dec;
      if cnt == 0 { return None; }
      MaskBack(tail, bits);
      d := Some(arr[And(Dec(tail), mask)]);
    }

    /** Element `ind` from the head. A negative `ind` is not refused: it counts
        slots of the ring back from the head. */
    method PeekElt(ind: int) returns (d: Option<T>)
      requires Valid() && -ind <= WORD
      ensures d == if ind < cnt then Some(FromHead(sz)[Slot(ind, sz)]) else None
      ensures 0 <= ind ==> d == if ind < |Contents()| then Some(Contents()[ind]) else None
    {
      hide And, Pow2, Dec, Slot;
      if cnt <= ind { return None; }
      MaskSlot(head, ind, bits);
      d := Some(arr[And((head + ind) % WORD, mask)]);
    }

    method SetElt(d: T, ind: int) returns (ok: bool)
      requires Valid() && -ind <= WORD
      modifies arr
      ensures Valid() && ok == (ind < |old(Contents())|)
      ensures FromHead(sz) == if ok then old(FromHead(sz))[Slot(ind, sz) := d] else old(FromHead(sz))
      ensures 0 <= ind ==> Contents() == if ok then old(Contents())[ind := d] else old(Contents())
    {
      hide And, Pow2, Dec, Slot;
      if cnt <= ind { return false; }
      ghost var before, ring := Contents(), FromHead(sz);
      MaskSlot(head, ind, bits);
      arr[And((head + ind) % WORD, mask)] := d;
      assert FromHead(sz) == ring[Slot(ind, sz) := d];
      if 0 <= ind {
        assert Contents() == before[ind := d];
      }
      ok := true;
    }

    // ---------- binary search ----------

    /** What the searches look through. An empty queue has its head at its tail,
        like a full one, and the searches go through every slot of the ring,
        whatever it was left with. */
    ghost function Searched(): (s: seq<T>)
      requires Valid()
      reads this, arr
      ensures Contents() != [] ==> s == Contents()
    {
      FromHead(if cnt == 0 then sz else cnt)
    }

    /** The first and last position of a search, before masking. */
    method Bounds() returns (lo: int, hi: int)
      requires Valid()
      ensures lo == head && hi == head + |Searched()| - 1
    {
      lo, hi := head, tail - 1;
      if hi < lo {
        hi := hi + sz;
      }
    }

    method At(mid: nat) returns (d: T)
      requires Valid() && head <= mid < head + |Searched()|
      ensures d == Searched()[mid - head]
    {
      hide And, Pow2;
      MaskWraps(mid, bits);
      d := arr[And(mid, mask)];
    }

    /** Search: an element equal to the key, and its place from the head. */
    method Search<K>(key: K, diff: (T, K) -> int) returns (out: Option<T>, posn: int)
      requires Valid()
      ensures out.Some? ==> 0 <= posn < |Searched()| && Searched()[posn] == out.value && diff(out.value, key) == 0
      ensures SortedFor(Searched(), key, diff) ==> (out.Some? <==> Present(Searched(), key, diff))
    {
      hide SortedFor, Within, Searched, Pow2;
      ghost var s := Searched();
      var lo, hi := Bounds();
      var lbnd := lo;
      posn := 0;
      WithinAll(s, key, diff);
      while lo <= hi
        invariant lbnd <= lo && hi < lbnd + |s| && Within(s, key, diff, lo - lbnd, hi - lbnd)
        decreases hi - lo
      {
        var mid := (lo + hi) / 2;
        var d := At(mid);
        var res := diff(d, key);
        if res == 0 {
          return Some(d), mid - lbnd;
        }
        Narrow(s, key, diff, lo - lbnd, hi - lbnd, mid - lbnd);
        if res < 0 {
          lo := mid + 1;
        } else {
          hi := mid - 1;
        }
      }
      WithinNothing(s, key, diff, lo - lbnd, hi - lbnd);
      out := None;
    }

    /** Search2: two neighbouring elements equal to the key. */
    method Search2<K>(key: K, diff: (T, K) -> int) returns (found: bool, out1: Option<T>, out2: Option<T>)
      requires Valid()
      ensures found ==> out1.Some? && out2.Some? && diff(out1.value, key) == 0 && diff(out2.value, key) == 0
      ensures found ==> Neighbours(Searched(), out1.value, out2.value)
      ensures SortedFor(Searched(), key, diff) ==> (found <==> PresentTwice(Searched(), key, diff))
    {
      hide SortedFor, Within, Searched, Pow2, Neighbours, PresentTwice, Present;
      ghost var s := Searched();
      found, out1, out2 := false, None, None;
      var lo, hi := Bounds();
      var lbnd, hbnd := lo, hi;
      WithinAll(s, key, diff);
      while lo <= hi
        invariant lbnd <= lo && hi < lbnd + |s| && Within(s, key, diff, lo - lbnd, hi - lbnd)
        decreases hi - lo
      {
        var mid := (lo + hi) / 2;
        var d := At(mid);
        var res := diff(d, key);
        if res == 0 {
          out1 := Some(d);
          found, out2 := Neighbour(key, diff, mid, lbnd, hbnd);
          return;
        }
        Narrow(s, key, diff, lo - lbnd, hi - lbnd, mid - lbnd);
        if res < 0 {
          lo := mid + 1;
        } else {
          hi := mid - 1;
        }
      }
      WithinNothing(s, key, diff, lo - lbnd, hi - lbnd);
    }

    /** The element before or after one that is equal to the key. */
    method Neighbour<K>(key: K, diff: (T, K) -> int, mid: int, lbnd: int, hbnd: int)
      returns (found: bool, out2: Option<T>)
      requires Valid() && lbnd == head && hbnd == head + |Searched()| - 1 && lbnd <= mid <= hbnd
      requires diff(Searched()[mid - lbnd], key) == 0
      ensures found ==> out2.Some? && diff(out2.value, key) == 0
      ensures found ==> Neighbours(Searched(), Searched()[mid - lbnd], out2.value)
      ensures SortedFor(Searched(), key, diff) ==> (found <==> PresentTwice(Searched(), key, diff))
    {
      hide SortedFor, Searched, Pow2;
      ghost var s := Searched();
      var t := mid - 1;
      if lbnd <= t <= hbnd {
        var o2 := At(t);
        if diff(o2, key) == 0 { return true, Some(o2); }
      }
      t := mid + 1;
      if lbnd <= t <= hbnd {
        var o2 := At(t);
        if diff(o2, key) == 0 { return true, Some(o2); }
      }
      Alone(s, key, diff, mid - lbnd);
      found, out2 := false, None;
    }
  }

  /** A search of an emptied queue can find the element that was taken out. */
  method StaleElementIsFound() returns (out: Option<int>, left: Option<int>)
    ensures left == None && out == Some(7)
  {
    var q := new Circq<int>(1);
    var ok := q.Insert(7);
    assert q.Contents()[0] == q.arr[0];
    var d := q.Delete();
    left := q.PeekHead();
    var diff := (x: int, key: int) => x - key;
    var posn;
    assert q.Searched()[0] == 7 && diff(7, 7) == 0;
    out, posn := q.Search(7, diff);
    assert q.Searched()[posn] == 7;
  }

  ghost predicate Present<T, K>(s: seq<T>, key: K, diff: (T, K) -> int) {
    exists i :: 0 <= i < |s| && diff(s[i], key) == 0
  }

  ghost predicate PresentTwice<T, K>(s: seq<T>, key: K, diff: (T, K) -> int) {
    exists i, j :: 0 <= i < j < |s| && diff(s[i], key) == 0 && diff(s[j], key) == 0
  }

  ghost predicate Neighbours<T>(s: seq<T>, x: T, y: T) {
    exists i :: 0 < i < |s| && ((s[i - 1] == x && s[i] == y) || (s[i - 1] == y && s[i] == x))
  }

  /** If the elements are in order, those equal to the key are from place a to place b. */
  ghost predicate Within<T, K>(s: seq<T>, key: K, diff: (T, K) -> int, a: int, b: int) {
    SortedFor(s, key, diff) ==>
      forall i :: 0 <= i < |s| ==> (i < a ==> diff(s[i], key) < 0) && (i > b ==> diff(s[i], key) > 0)
  }

  lemma WithinAll<T, K>(s: seq<T>, key: K, diff: (T, K) -> int)
    ensures Within(s, key, diff, 0, |s| - 1)
  {}

  lemma Narrow<T, K>(s: seq<T>, key: K, diff: (T, K) -> int, a: int, b: int, m: int)
    requires Within(s, key, diff, a, b) && 0 <= m < |s| && diff(s[m], key) != 0
    ensures diff(s[m], key) < 0 ==> Within(s, key, diff, m + 1, b)
    ensures diff(s[m], key) > 0 ==> Within(s, key, diff, a, m - 1)
  {}

  lemma WithinNothing<T, K>(s: seq<T>, key: K, diff: (T, K) -> int, a: int, b: int)
    requires Within(s, key, diff, a, b) && a > b
    ensures SortedFor(s, key, diff) ==> !Present(s, key, diff) && !PresentTwice(s, key, diff)
  {}

  lemma Alone<T, K>(s: seq<T>, key: K, diff: (T, K) -> int, m: int)
    requires 0 <= m < |s| && diff(s[m], key) == 0
    requires (m > 0 ==> diff(s[m - 1], key) != 0) && (m + 1 < |s| ==> diff(s[m + 1], key) != 0)
    ensures SortedFor(s, key, diff) ==> !PresentTwice(s, key, diff)
  {
    if SortedFor(s, key, diff) {
      forall i | 0 <= i < |s| && i != m ensures diff(s[i], key) != 0 {
        assert i < m - 1 ==> diff(s[m - 1], key) < 0;
        assert i > m + 1 ==> diff(s[m + 1], key) > 0;
      }
    }
  }
}
