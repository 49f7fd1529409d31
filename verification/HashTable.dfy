/** The double-hashing table with tombstones: it refines a finite map. */
module HashTables {
  import opened Common
  import opened Bits

  datatype Bucket<K, V> = Empty | Ignore | Full(key: K, info: V)

  const MIN_SIZE: nat := 4

  // ---------- the probe sequence ----------

  /** The i-th slot probed from `h` in steps of `a` around `n` slots. */
  function Pos(h: nat, a: nat, n: nat, i: nat): nat
    requires n > 0
    decreases i
  {
    if i == 0 then h else (Pos(h, a, n, i - 1) + a) % n
  }

  lemma {:induction false} PosInRange(h: nat, a: nat, n: nat, i: nat)
    requires h < n
    ensures Pos(h, a, n, i) < n
  {}

  /** i steps of `a` from `h` are q rounds of `n` and then `r`. */
  ghost predicate Wound(h: nat, a: nat, n: nat, i: nat, q: nat, r: nat) {
    h + i * a == q * n + r
  }

  lemma NotWound(h: nat, a: nat, n: nat)
    ensures Wound(h, a, n, 0, 0, h)
  {}

  lemma WindOne(h: nat, a: nat, n: nat, i: nat, q: nat, r: nat, c: nat, d: nat)
    requires Wound(h, a, n, i, q, r) && r + a == c * n + d
    ensures Wound(h, a, n, i + 1, q + c, d)
  {
    assert (i + 1) * a == i * a + a;
    assert (q + c) * n == q * n + c * n;
  }

  lemma Divided(x: nat, n: nat)
    requires n > 0
    ensures x == (x / n) * n + x % n
  {}

  /** After i steps the probe is i times the step away. */
  lemma {:induction false} PosIs(h: nat, a: nat, n: nat, i: nat) returns (q: nat)
    requires h < n
    ensures Wound(h, a, n, i, q, Pos(h, a, n, i))
  {
    hide Wound;
    if i == 0 {
      q := 0;
      NotWound(h, a, n);
    } else {
      q := PosIs(h, a, n, i - 1);
      var r := Pos(h, a, n, i - 1);
      Divided(r + a, n);
      WindOne(h, a, n, i - 1, q, r, (r + a) / n, (r + a) % n);
      q := q + (r + a) / n;
    }
  }

  ghost predicate Inverse(a: nat, x: nat, q: nat, p: nat) {
    a * x == 1 + q * p
  }

  lemma InverseOfOne(a: nat)
    requires a > 0
    ensures Inverse(a, 1, a - 1, 1)
  {}

  lemma HalfTimes(q: nat, p: nat)
    requires q % 2 == 0
    ensures (q / 2) * (2 * p) == q * p
  {
    assert (q / 2) * (2 * p) == ((q / 2) * 2) * p;
  }

  lemma InverseAdd(a: nat, x: nat, q: nat, p: nat)
    requires Inverse(a, x, q, p)
    ensures Inverse(a, x + p, q + a, p)
  {
    assert a * (x + p) == a * x + a * p;
    assert (q + a) * p == q * p + a * p;
  }

  lemma InverseHalf(a: nat, x: nat, q: nat, p: nat)
    requires Inverse(a, x, q, p) && q % 2 == 0
    ensures Inverse(a, x, q / 2, 2 * p)
  {
    HalfTimes(q, p);
  }

  /** An odd step has an inverse modulo a power of two. */
  lemma {:induction false} OddInverse(a: nat, m: nat) returns (x: nat, q: nat)
    requires a % 2 == 1
    ensures Inverse(a, x, q, Pow2(m))
  {
    hide Inverse;
    if m == 0 {
      x, q := 1, a - 1;
      InverseOfOne(a);
    } else {
      x, q := OddInverse(a, m - 1);
      if q % 2 == 1 {
        InverseAdd(a, x, q, Pow2(m - 1));
        x, q := x + Pow2(m - 1), q + a;
      }
      InverseHalf(a, x, q, Pow2(m - 1));
      q := q / 2;
    }
  }

  lemma SameRemainder(x: nat, y: nat, d: nat, c: nat)
    requires d > 0 && x == y + c * d
    ensures x % d == y % d
  {
    assert y == (y / d) * d + y % d;
    assert x == (y / d + c) * d + y % d;
    DivUnique(x, d, y / d + c, y % d);
  }

  lemma {:induction false} PosRemainder(h: nat, a: nat, n: nat, i: nat)
    requires h < n
    ensures Pos(h, a, n, i) == (h + i * a) % n
  {
    var q := PosIs(h, a, n, i);
    PosInRange(h, a, n, i);
    DivUnique(h + i * a, n, q, Pos(h, a, n, i));
  }

  /** An odd step visits every slot of a table whose size is a power of two
      within one round. */
  lemma EverySlotProbed(h: nat, a: nat, m: nat, p: nat) returns (i: nat)
    requires h < Pow2(m) && p < Pow2(m) && a % 2 == 1
    ensures i < Pow2(m) && Pos(h, a, Pow2(m), i) == p
  {
    var n := Pow2(m);
    var x, q := OddInverse(a, m);
    var d := p + n - h;
    var far := d * x;
    i := far % n;
    ReducedSteps(h, a, n, d, x, q, p);
    PosRemainder(h, a, n, i);
    assert p == 0 * n + p;
    DivUnique(p, n, 0, p);
  }

  lemma Expand(d: nat, a: nat, x: nat, q: nat, n: nat)
    requires a * x == 1 + q * n
    ensures (d * x) * a == d + (d * q) * n
  {
    assert (d * x) * a == d * (a * x);
    assert d * (1 + q * n) == d + d * (q * n);
    assert d * (q * n) == (d * q) * n;
  }

  lemma Regroup(t: nat, n: nat, i: nat, a: nat)
    ensures (t * n + i) * a == i * a + (t * a) * n
  {
    assert (t * n + i) * a == (t * n) * a + i * a;
    assert (t * n) * a == (t * a) * n;
  }

  lemma Round(p: nat, n: nat, c: nat)
    ensures p + n + c * n == p + (1 + c) * n
  {}

  /** `far` steps lead to `p`, and so does their number modulo the size. */
  lemma ReducedSteps(h: nat, a: nat, n: nat, d: nat, x: nat, q: nat, p: nat)
    requires 0 < n && Inverse(a, x, q, n) && d + h == p + n
    ensures (h + ((d * x) % n) * a) % n == p % n
  {
    var far := d * x;
    LeadsThere(h, a, n, d, x, q, p, far);
    Divided(far, n);
    SameAfterRounds(h, a, n, far, far / n, far % n);
  }

  lemma LeadsThere(h: nat, a: nat, n: nat, d: nat, x: nat, q: nat, p: nat, far: nat)
    requires 0 < n && Inverse(a, x, q, n) && d + h == p + n && far == d * x
    ensures (h + far * a) % n == p % n
  {
    Expand(d, a, x, q, n);
    Round(p, n, d * q);
    SameRemainder(h + far * a, p, n, 1 + d * q);
  }

  lemma SameAfterRounds(h: nat, a: nat, n: nat, far: nat, t: nat, i: nat)
    requires 0 < n && far == t * n + i
    ensures (h + i * a) % n == (h + far * a) % n
  {
    Regroup(t, n, i, a);
    SameRemainder(h + far * a, h + i * a, n, t * a);
  }

  // ---------- counting buckets ----------

  datatype Kind = IsEmpty | IsIgnore | IsFull

  function KindOf<K, V>(b: Bucket<K, V>): Kind {
    match b
    case Empty => IsEmpty
    case Ignore => IsIgnore
    case Full(_, _) => IsFull
  }

  function Tally<K, V>(b: Bucket<K, V>, k: Kind): nat {
    if KindOf(b) == k then 1 else 0
  }

  ghost function Count<K, V>(b: seq<Bucket<K, V>>, k: Kind): nat {
    if b == [] then 0 else Count(b[..|b| - 1], k) + Tally(b[|b| - 1], k)
  }

  lemma {:induction false} CountUpdate<K, V>(b: seq<Bucket<K, V>>, i: nat, x: Bucket<K, V>, k: Kind)
    requires i < |b|
    ensures Count(b[i := x], k) + Tally(b[i], k) == Count(b, k) + Tally(x, k)
  {
    var front := b[..|b| - 1];
    if i == |b| - 1 {
      assert b[i := x][..|b| - 1] == front;
    } else {
      CountUpdate(front, i, x, k);
      assert b[i := x][..|b| - 1] == front[i := x];
    }
  }

  lemma {:induction false} CountsAll<K, V>(b: seq<Bucket<K, V>>)
    ensures Count(b, IsEmpty) + Count(b, IsIgnore) + Count(b, IsFull) == |b|
  {
    if b == [] {
    } else {
      CountsAll(b[..|b| - 1]);
    }
  }

  lemma {:induction false} CountWitness<K, V>(b: seq<Bucket<K, V>>, k: Kind) returns (i: nat)
    requires Count(b, k) > 0
    ensures i < |b| && KindOf(b[i]) == k
  {
    if KindOf(b[|b| - 1]) == k {
      i := |b| - 1;
    } else {
      i := CountWitness(b[..|b| - 1], k);
    }
  }

  lemma {:induction false} CountNone<K, V>(b: seq<Bucket<K, V>>, k: Kind)
    requires forall i :: 0 <= i < |b| ==> KindOf(b[i]) != k
    ensures Count(b, k) == 0
  {
    if b == [] {
    } else {
      CountNone(b[..|b| - 1], k);
    }
  }

  lemma {:induction false} CountFresh<K, V>(b: seq<Bucket<K, V>>)
    requires forall i :: 0 <= i < |b| ==> b[i] == Empty
    ensures Count(b, IsEmpty) == |b| && Count(b, IsIgnore) == 0 && Count(b, IsFull) == 0
  {
    CountNone(b, IsIgnore);
    CountNone(b, IsFull);
    CountsAll(b);
  }

  // ---------- where a key sits ----------

  /** Step i of a probe ends at the key's bucket and met no empty one. */
  ghost predicate Placed<K, V>(b: seq<Bucket<K, V>>, h: nat, a: nat, i: nat, k: K, v: V)
    requires |b| > 0
  {
    && Pos(h, a, |b|, i) < |b| && b[Pos(h, a, |b|, i)] == Full(k, v)
    && NoEmptyBefore(b, h, a, i)
  }

  ghost predicate NoEmptyBefore<K, V>(b: seq<Bucket<K, V>>, h: nat, a: nat, i: nat)
    requires |b| > 0
  {
    forall j :: 0 <= j < i ==> Pos(h, a, |b|, j) < |b| && b[Pos(h, a, |b|, j)] != Empty
  }

  ghost predicate Findable<K, V>(b: seq<Bucket<K, V>>, h: nat, a: nat, k: K, v: V)
    requires |b| > 0
  {
    exists i: nat :: i < |b| && Placed(b, h, a, i, k, v)
  }

  /** Every full slot is an entry of the map, and no key sits in two. */
  ghost predicate EntriesOf<K, V>(b: seq<Bucket<K, V>>, m: map<K, V>) {
    && (forall p :: 0 <= p < |b| && b[p].Full? ==> b[p].key in m && m[b[p].key] == b[p].info)
    && (forall p, q :: 0 <= p < |b| && 0 <= q < |b| && b[p].Full? && b[q].Full? && b[p].key == b[q].key ==> p == q)
  }

  /** Every entry of the map is found by its probe. */
  ghost predicate AllFindable<K, V>(b: seq<Bucket<K, V>>, h: K -> nat, a: K -> nat, m: map<K, V>)
    requires |b| > 0
  {
    forall k :: k in m ==> Findable(b, h(k), a(k), k, m[k])
  }

  /** The slots hold exactly the map. */
  ghost predicate Represents<K, V>(b: seq<Bucket<K, V>>, h: K -> nat, a: K -> nat, m: map<K, V>) {
    |b| > 0 && EntriesOf(b, m) && AllFindable(b, h, a, m)
  }

  /** A slot other than the key's own, not made empty, does not disturb it. */
  lemma StillFindable<K, V>(b: seq<Bucket<K, V>>, p: nat, x: Bucket<K, V>, h: nat, a: nat, k: K, v: V)
    requires p < |b| && Findable(b, h, a, k, v) && x != Empty && b[p] != Full(k, v)
    ensures Findable(b[p := x], h, a, k, v)
  {
    var i: nat :| i < |b| && Placed(b, h, a, i, k, v);
    assert Placed(b[p := x], h, a, i, k, v);
  }

  /** Filling an empty slot that ends the probe of a new key. */
  lemma FillRepresents<K, V>(b: seq<Bucket<K, V>>, h: K -> nat, a: K -> nat, m: map<K, V>, k: K, v: V, i: nat)
    requires Represents(b, h, a, m) && k !in m && i < |b| && NoEmptyBefore(b, h(k), a(k), i)
    requires Pos(h(k), a(k), |b|, i) < |b| && b[Pos(h(k), a(k), |b|, i)] == Empty
    ensures Represents(b[Pos(h(k), a(k), |b|, i) := Full(k, v)], h, a, m[k := v])
  {
    var p := Pos(h(k), a(k), |b|, i);
    var b' := b[p := Full(k, v)];
    assert Placed(b', h(k), a(k), i, k, v);
    forall c | c in m ensures Findable(b', h(c), a(c), c, m[c]) {
      StillFindable(b, p, Full(k, v), h(c), a(c), c, m[c]);
    }
  }

  /** Replacing a full slot by a tombstone forgets its key. */
  lemma ForgetRepresents<K, V>(b: seq<Bucket<K, V>>, h: K -> nat, a: K -> nat, m: map<K, V>, p: nat)
    requires Represents(b, h, a, m) && p < |b| && b[p].Full?
    ensures b[p].key in m && Represents(b[p := Ignore], h, a, m - {b[p].key})
  {
    var b', m' := b[p := Ignore], m - {b[p].key};
    forall c | c in m' ensures Findable(b', h(c), a(c), c, m'[c]) {
      StillFindable(b, p, Ignore, h(c), a(c), c, m[c]);
    }
  }

  /** Giving a full slot another info changes that entry. */
  lemma ReplaceRepresents<K, V>(b: seq<Bucket<K, V>>, h: K -> nat, a: K -> nat, m: map<K, V>, p: nat, v: V)
    requires Represents(b, h, a, m) && p < |b| && b[p].Full?
    ensures b[p].key in m && Represents(b[p := Full(b[p].key, v)], h, a, m[b[p].key := v])
  {
    var k := b[p].key;
    var b' := b[p := Full(k, v)];
    forall c | c in m[k := v] ensures Findable(b', h(c), a(c), c, m[k := v][c]) {
      if c == k {
        var i: nat :| i < |b| && Placed(b, h(k), a(k), i, k, m[k]);
        assert Placed(b', h(k), a(k), i, k, v);
      } else {
        StillFindable(b, p, Full(k, v), h(c), a(c), c, m[c]);
      }
    }
  }

  // ---------- the table ----------

  class HashTable<K(!new, ==), V(0)> {
    const hash1: (K, nat) -> nat
    const hash2: (K, nat) -> nat
    var size: nat
    var used: nat
    var ignores: nat
    var empty: nat
    var cursor: nat
    var buckets: array<Bucket<K, V>>
    ghost var Contents: map<K, V>

    /** What the user of the table owes it: a first hash in range, and an odd
        second one. */
    ghost predicate HashOk() {
      forall k: K, n: nat :: IsPow2(n) ==> hash1(k, n) < n && hash2(k, n) % 2 == 1
    }

    ghost function Home(n: nat): K -> nat { k => hash1(k, n) }

    ghost function Step(n: nat): K -> nat { k => hash2(k, n) }

    /** The counters agree with the slots. */
    ghost predicate Counted()
      reads this, buckets
    {
      && size == buckets.Length && IsPow2(size) && size >= MIN_SIZE
      && used == Count(buckets[..], IsFull) && ignores == Count(buckets[..], IsIgnore)
      && empty == Count(buckets[..], IsEmpty)
    }

    /** What holds even between an insertion and its check for empty slots. */
    ghost predicate Sound()
      reads this, buckets
    {
      && HashOk() && Counted()
      && used == |Contents|
      && Represents(buckets[..], Home(size), Step(size), Contents)
    }

    ghost predicate Valid()
      reads this, buckets
    {
      Sound() && empty >= size / 4
    }

    /** startout: an empty table of a given power of two. */
    method StartOut(sz: nat)
      requires HashOk() && IsPow2(sz) && sz >= MIN_SIZE
      modifies this
      ensures fresh(buckets) && Valid() && Contents == map[] && size == sz && empty == sz && ignores == 0 && used == 0
    {
      size := sz;
      buckets := new Bucket<K, V>[sz](_ => Empty);
      ignores, empty, used := 0, sz, 0;
      Contents := map[];
      CountFresh(buckets[..]);
    }

    constructor (h1: (K, nat) -> nat, h2: (K, nat) -> nat)
      requires forall k: K, n: nat :: IsPow2(n) ==> h1(k, n) < n && h2(k, n) % 2 == 1
      ensures hash1 == h1 && hash2 == h2 && fresh(buckets) && Valid() && Contents == map[]
    {
      hash1, hash2 := h1, h2;
      buckets := new Bucket<K, V>[0];
      new;
      MinSizeIsPow2();
      StartOut(MIN_SIZE);
    }

    /** The next slot of a probe, by masking. */
    method Advance(pos: nat, adv: nat, ghost h: nat, ghost i: nat) returns (next: nat)
      requires Counted() && pos == Pos(h, adv, size, i)
      ensures next == Pos(h, adv, size, i + 1) && next < size
    {
      ghost var m: nat :| Pow2(m) == size;
      AndMask(pos + adv, m);
      next := And(pos + adv, size - 1);
    }

    /** The probe loop that lookup, assign and remove share: stop at the key or
        at an empty slot. */
    method Probe(k: K) returns (found: bool, hashpos: nat)
      requires HashOk() && Counted()
      ensures found ==> hashpos < size && buckets[hashpos].Full? && buckets[hashpos].key == k
      ensures !found ==> Absent(buckets[..], hash1(k, size), hash2(k, size), k)
    {
      hashpos := hash1(k, size);
      var hashadv := hash2(k, size);
      var attempts := 0;
      ghost var b, h := buckets[..], hashpos;
      while attempts < size
        invariant 0 <= attempts <= size
        invariant hashpos == Pos(h, hashadv, size, attempts) && hashpos < size
        invariant Missed(b, h, hashadv, attempts, k)
      {
        assert buckets[hashpos] == b[hashpos];
        match buckets[hashpos] {
          case Empty =>
            return false, hashpos;
          case Full(key, _) => if key == k { return true, hashpos; }
          case Ignore =>
        }
        MissedNext(b, h, hashadv, attempts, k);
        hashpos := Advance(hashpos, hashadv, h, attempts);
        attempts := attempts + 1;
      }
      found := false;
    }

    method Find(k: K) returns (found: bool, hashpos: nat)
      requires Valid()
      ensures found <==> k in Contents
      ensures found ==> hashpos < size && buckets[hashpos].Full? && buckets[hashpos].key == k
    {
      found, hashpos := Probe(k);
      if found {
        assert buckets[..][hashpos].Full?;
      } else {
        AbsentIsNotThere(buckets[..], k, Contents, Home(size), Step(size));
      }
    }

    /** lookup. */
    method Lookup(k: K) returns (info: Option<V>)
      requires Valid()
      ensures info == if k in Contents then Some(Contents[k]) else None
    {
      var found, pos := Find(k);
      info := if found then Some(buckets[pos].info) else None;
    }

    /** assign: change an entry that is there. */
    method Assign(k: K, info: V) returns (ok: bool)
      requires Valid()
      modifies this`Contents, buckets
      ensures Valid() && ok == (k in old(Contents))
      ensures Contents == if ok then old(Contents)[k := info] else old(Contents)
    {
      var found, pos := Find(k);
      if !found { return false; }
      Overwrite(pos, info);
      ok := true;
    }

    /** Giving the bucket of a key another info. */
    method Overwrite(pos: nat, info: V)
      requires Valid() && pos < size && buckets[pos].Full?
      modifies this`Contents, buckets
      ensures Valid() && old(buckets[pos].key) in old(Contents)
      ensures Contents == old(Contents)[old(buckets[pos].key) := info]
    {
      hide Represents;
      ghost var b, k := buckets[..], buckets[pos].key;
      assert b[pos] == buckets[pos];
      ReplaceRepresents(b, Home(size), Step(size), Contents, pos, info);
      SameSize(Contents, k, info);
      CountsUpdate(b, pos, Full(k, info));
      buckets[pos] := Full(buckets[pos].key, info);
      assert buckets[..] == b[pos := Full(k, info)];
      Contents := Contents[k := info];
    }

    /** Setting the empty bucket that ends the probe of a new key. */
    method Fill(k: K, info: V, pos: nat, ghost i: nat)
      requires Sound() && k !in Contents && i < size && pos < size && buckets[pos].Empty?
      requires pos == Pos(hash1(k, size), hash2(k, size), size, i)
      requires NoEmptyBefore(buckets[..], hash1(k, size), hash2(k, size), i)
      modifies this`used, this`empty, this`Contents, buckets
      ensures Sound() && Contents == old(Contents)[k := info]
      ensures used == old(used) + 1 && empty + 1 == old(empty)
    {
      hide Represents;
      ghost var b := buckets[..];
      FillRepresents(b, Home(size), Step(size), Contents, k, info, i);
      CountsUpdate(b, pos, Full(k, info));
      buckets[pos] := Full(k, info);
      assert buckets[..] == b[pos := Full(k, info)];
      Contents := Contents[k := info];
      used := used + 1;
      empty := empty - 1;
    }

    /** The two probe loops of insert. Because an odd step visits every slot
        and some slot is empty, the probe always ends at an empty slot: neither
        branch for a full round can be taken, so no tombstone is used again. */
    method FindFree(k: K) returns (hashpos: nat, ghost i: nat)
      requires HashOk() && Counted() && empty > 0
      ensures i < size && hashpos < size && buckets[hashpos].Empty?
      ensures hashpos == Pos(hash1(k, size), hash2(k, size), size, i)
      ensures NoEmptyBefore(buckets[..], hash1(k, size), hash2(k, size), i)
    {
      hashpos := hash1(k, size);
      var hashadv := hash2(k, size);
      var attempts := 0;
      ghost var b, h := buckets[..], hashpos;
      assert hashpos == Pos(h, hashadv, size, 0);
      hide Pos;
      SomeEmptyIsMet(b, h, hashadv);
      while attempts < size && buckets[hashpos].Full?
        invariant 0 <= attempts <= size
        invariant hashpos == Pos(h, hashadv, size, attempts) && hashpos < size
        invariant NoEmptyBefore(b, h, hashadv, attempts)
      {
        assert b[hashpos] == buckets[hashpos];
        hashpos := Advance(hashpos, hashadv, h, attempts);
        attempts := attempts + 1;
      }
      if attempts == size {
        assert false;
      } else if buckets[hashpos].Ignore? {
        while attempts < size && !buckets[hashpos].Empty?
          invariant 0 <= attempts <= size
          invariant hashpos == Pos(h, hashadv, size, attempts) && hashpos < size
          invariant NoEmptyBefore(b, h, hashadv, attempts)
        {
          assert b[hashpos] == buckets[hashpos];
          hashpos := Advance(hashpos, hashadv, h, attempts);
          attempts := attempts + 1;
        }
        if attempts == size {
          assert false;
        }
      }
      i := attempts;
    }

    /** insert of a key that is not there. */
    method Insert(k: K, info: V) returns (ok: bool)
      requires Valid() && k !in Contents
      modifies this, buckets
      ensures ok && Valid() && Contents == old(Contents)[k := info]
      ensures buckets == old(buckets) || fresh(buckets)
      ensures old(empty) - 1 >= old(size) / 4 ==>
                && buckets == old(buckets) && size == old(size) && ignores == old(ignores)
                && used == old(used) + 1 && empty + 1 == old(empty)
      decreases if empty - 1 >= size / 4 then 1 else 4
    {
      hide Represents, HashOk;
      ghost var i;
      var hashpos;
      hashpos, i := FindFree(k);
      Fill(k, info, hashpos, i);
      Loosen();
      ok := true;
    }

    /** loosen: rehash when fewer than a quarter of the slots are empty. */
    method Loosen()
      requires Sound()
      modifies this, buckets
      ensures Valid() && Contents == old(Contents)
      ensures buckets == old(buckets) || fresh(buckets)
      ensures old(empty) >= old(size) / 4 ==> unchanged(this) && unchanged(buckets)
      decreases if empty < size / 4 then 3 else 0
    {
      if empty < size / 4 {
        Rehash();
      }
    }

    /** The copy of the old slots that rehash works from. */
    method CopyOut() returns (old_: array<Bucket<K, V>>)
      ensures fresh(old_) && old_[..] == buckets[..]
    {
      old_ := new Bucket<K, V>[buckets.Length](_ => Empty);
      var i := 0;
      while i < old_.Length
        invariant 0 <= i <= old_.Length
        invariant old_[..i] == buckets[..i]
        modifies old_
      {
        old_[i] := buckets[i];
        i := i + 1;
      }
    }

    /** rehash: insert every entry again into a fresh table of at least twice
        as many slots; none of these insertions rehashes. */
    method Rehash()
      requires Sound()
      modifies this, buckets
      ensures Valid() && Contents == old(Contents)
      ensures fresh(buckets) && ignores == 0 && 2 * empty >= size
      decreases 2, 1
    {
      hide Represents;
      ghost var b, m, n0 := buckets[..], Contents, size;
      var old_ := CopyOut();
      var nu := Normalize(2 * used);
      var resultSize := if nu > MIN_SIZE then nu else MIN_SIZE;
      MinSizeIsPow2();
      StartOut(resultSize);
      Reinsert(old_, m, Home(n0), Step(n0));
    }

    method Reinsert(from: array<Bucket<K, V>>, ghost m: map<K, V>, ghost home: K -> nat, ghost step: K -> nat)
      requires Valid() && Contents == map[] && ignores == 0 && used == 0 && empty == size
      requires from != buckets && Represents(from[..], home, step, m) && size >= 2 * Count(from[..], IsFull)
      modifies this, buckets
      ensures Valid() && Contents == m && ignores == 0 && 2 * empty >= size
      ensures buckets == old(buckets)
      decreases 2, 0
    {
      hide Represents, HashOk, Valid, Sound, Counted, Collected;
      ghost var b := from[..];
      var i := 0;
      NoneCollected(b, m);
      while i < from.Length
        invariant 0 <= i <= from.Length
        invariant Valid() && buckets == old(buckets) && from[..] == b
        invariant size == old(size) && ignores == 0 && empty + used == size
        invariant used == Count(b[..i], IsFull)
        invariant Collected(b, i, Contents, m)
      {
        CountNext(b, i, IsFull);
        assert from[i] == b[i];
        if from[i].Full? {
          CollectNext(b, i, Contents, m, home, step);
          var ok := Insert(from[i].key, from[i].info);
        } else {
          CollectSkip(b, i, Contents, m);
        }
        i := i + 1;
      }
      CountNext(b, from.Length, IsFull);
      CollectedIsAll(b, home, step, Contents, m);
    }

    /** pack: rehash when more than a quarter of the slots are tombstones. */
    method Pack()
      requires Valid()
      modifies this, buckets
      ensures Valid() && Contents == old(Contents)
      ensures buckets == old(buckets) || fresh(buckets)
      ensures 4 * ignores <= size + 3
    {
      if ignores > size / 4 {
        Rehash();
      }
    }

    /** Turning a full bucket into a tombstone. */
    method Bury(pos: nat)
      requires Valid() && pos < size && buckets[pos].Full?
      modifies this`used, this`ignores, this`Contents, buckets
      ensures Valid() && buckets[..] == old(buckets[..])[pos := Ignore]
      ensures Contents == old(Contents) - {old(buckets[pos].key)}
    {
      hide Represents;
      ghost var b, k := buckets[..], buckets[pos].key;
      assert b[pos] == buckets[pos];
      ForgetRepresents(b, Home(size), Step(size), Contents, pos);
      CountsUpdate(b, pos, Ignore);
      SmallerMap(Contents, k);
      buckets[pos] := Ignore;
      assert buckets[..] == b[pos := Ignore];
      Contents := Contents - {k};
      ignores := ignores + 1;
      used := used - 1;
    }

    /** remove. */
    method Remove(k: K) returns (ok: bool)
      requires Valid()
      modifies this, buckets
      ensures Valid() && ok == (k in old(Contents)) && Contents == old(Contents) - {k}
      ensures buckets == old(buckets) || fresh(buckets)
    {
      hide Represents, HashOk, Counted;
      var found, pos := Find(k);
      if !found {
        return false;
      }
      Bury(pos);
      Pack();
      ok := true;
    }

    // ---------- the destructive iterator ----------

    /** The iterator stands at a full slot, or past the end, and has left no
        full slot behind. */
    ghost predicate Walking(more: bool)
      reads this, buckets
    {
      && Valid() && cursor <= size && more == (cursor < size)
      && (forall p :: 0 <= p < cursor ==> !buckets[p].Full?)
      && (more ==> buckets[cursor].Full?)
    }

    /** seek: on to the next full slot. */
    method Seek()
      requires Valid() && cursor < size
      modifies this`cursor
      ensures old(cursor) < cursor <= size
      ensures forall p :: old(cursor) < p < cursor ==> !buckets[p].Full?
      ensures cursor < size ==> buckets[cursor].Full?
    {
      hide Represents, HashOk;
      cursor := cursor + 1;
      while cursor < size
        invariant old(cursor) < cursor <= size
        invariant forall p :: old(cursor) < p < cursor ==> !buckets[p].Full?
      {
        if buckets[cursor].Full? { return; }
        cursor := cursor + 1;
      }
    }

    method StartIterator() returns (more: bool)
      requires Valid()
      modifies this, buckets
      ensures Walking(more) && Contents == old(Contents) && (buckets == old(buckets) || fresh(buckets))
      ensures cursor <= size
    {
      hide Represents, HashOk;
      Pack();
      cursor := 0;
      if !buckets[0].Full? {
        Seek();
      }
      more := cursor < size;
    }

    /** The destructive dereference. */
    method Deref() returns (info: V, ghost key: K)
      requires Valid() && cursor < size && buckets[cursor].Full?
      modifies this`used, this`ignores, this`Contents, buckets
      ensures Valid() && key in old(Contents) && info == old(Contents)[key]
      ensures Contents == old(Contents) - {key} && buckets[..] == old(buckets[..])[cursor := Ignore]
    {
      assert buckets[..][cursor] == buckets[cursor];
      key := buckets[cursor].key;
      info := buckets[cursor].info;
      Bury(cursor);
    }

    /** One dereference and one increment of the iterator. */
    method Take() returns (info: V, ghost key: K, more: bool)
      requires Walking(true)
      modifies this`used, this`ignores, this`Contents, this`cursor, buckets
      ensures Walking(more) && old(cursor) < cursor <= size
      ensures key in old(Contents) && info == old(Contents)[key] && Contents == old(Contents) - {key}
    {
      hide Represents, HashOk;
      ghost var b := buckets[..];
      info, key := Deref();
      Seek();
      more := cursor < size;
    }

    lemma WalkedOut()
      requires Walking(false)
      ensures Valid() && Contents == map[]
    {
      NothingLeft(buckets[..], Home(size), Step(size), Contents);
    }

    /** A whole walk with the iterator meets every entry exactly once and
        leaves the table empty. */
    method Drain() returns (infos: seq<V>, ghost keys: seq<K>)
      requires Valid()
      modifies this, buckets
      ensures Valid() && Contents == map[]
      ensures Delivered(old(Contents), map[], infos, keys)
    {
      hide Valid, Walking, Delivered;
      ghost var m := Contents;
      infos, keys := [], [];
      NothingDelivered<K, V>(m);
      var more := StartIterator();
      while more
        invariant Walking(more) && (buckets == old(buckets) || fresh(buckets))
        invariant cursor <= size && Delivered(m, Contents, infos, keys)
        decreases size - cursor
      {
        ghost var c := Contents;
        var info;
        ghost var key;
        info, key, more := Take();
        DeliverNext(m, c, infos, keys, key, info);
        infos, keys := infos + [info], keys + [key];
      }
      WalkedOut();
    }
  }

  ghost predicate Distinct<T>(s: seq<T>) {
    forall i, j :: 0 <= i < j < |s| ==> s[i] != s[j]
  }

  /** The map `m` is what is left in `c` and the infos delivered, each once. */
  ghost predicate Delivered<K(!new), V>(m: map<K, V>, c: map<K, V>, infos: seq<V>, keys: seq<K>) {
    && |infos| == |keys| && Distinct(keys)
    && (forall k :: k in m <==> k in keys || k in c)
    && (forall k :: k in c ==> k !in keys && k in m && c[k] == m[k])
    && (forall i :: 0 <= i < |keys| ==> keys[i] in m && infos[i] == m[keys[i]])
  }

  lemma NothingDelivered<K(!new), V>(m: map<K, V>)
    ensures Delivered(m, m, [], [])
  {}

  lemma DeliverNext<K(!new), V>(m: map<K, V>, c: map<K, V>, infos: seq<V>, keys: seq<K>, k: K, info: V)
    requires Delivered(m, c, infos, keys) && k in c && info == c[k]
    ensures Delivered(m, c - {k}, infos + [info], keys + [k])
  {
    forall x ensures x in keys + [k] <==> x in keys || x == k {
      if x == k { assert (keys + [k])[|keys|] == k; }
    }
  }

  lemma NothingLeft<K, V>(b: seq<Bucket<K, V>>, h: K -> nat, a: K -> nat, m: map<K, V>)
    requires Represents(b, h, a, m)
    ensures m != map[] ==> exists p :: 0 <= p < |b| && b[p].Full?
  {
    if m != map[] {
      var k :| k in m;
      var i: nat :| i < |b| && Placed(b, h(k), a(k), i, k, m[k]);
      assert b[Pos(h(k), a(k), |b|, i)].Full?;
    }
  }

  lemma SameSize<K, V>(m: map<K, V>, k: K, v: V)
    requires k in m
    ensures |m[k := v]| == |m|
  {
    assert m[k := v].Keys == m.Keys;
  }

  lemma SmallerMap<K, V>(m: map<K, V>, k: K)
    requires k in m
    ensures |m - {k}| + 1 == |m|
  {
    assert (m - {k}).Keys == m.Keys - {k};
  }

  /** An odd probe of a table with an empty slot meets one within a round. */
  lemma SomeEmptyIsMet<K, V>(b: seq<Bucket<K, V>>, h: nat, a: nat)
    requires IsPow2(|b|) && h < |b| && a % 2 == 1 && Count(b, IsEmpty) > 0
    ensures !NoEmptyBefore(b, h, a, |b|)
  {
    var p := CountWitness(b, IsEmpty);
    var m: nat :| Pow2(m) == |b|;
    var i := EverySlotProbed(h, a, m, p);
  }

  lemma {:induction false} CountNext<K, V>(b: seq<Bucket<K, V>>, i: nat, k: Kind)
    requires i <= |b|
    ensures i < |b| ==> Count(b[..i + 1], k) == Count(b[..i], k) + Tally(b[i], k)
    ensures Count(b[..i], k) <= Count(b, k)
    ensures i < |b| ==> Count(b[..i + 1], k) <= Count(b, k)
    ensures i == |b| ==> Count(b[..i], k) == Count(b, k)
    decreases |b| - i
  {
    if i < |b| {
      assert b[..i + 1][..i] == b[..i];
      CountNext(b, i + 1, k);
    } else {
      assert b[..i] == b;
    }
  }

  /** The entries in the first `i` slots are those already in `c`. */
  ghost predicate Collected<K, V>(b: seq<Bucket<K, V>>, i: nat, c: map<K, V>, m: map<K, V>) {
    && i <= |b|
    && (forall k :: k in c ==> k in m && c[k] == m[k])
    && (forall p :: 0 <= p < i && b[p].Full? ==> b[p].key in c)
    && (forall p :: i <= p < |b| && b[p].Full? ==> b[p].key !in c)
  }

  lemma NoneCollected<K, V>(b: seq<Bucket<K, V>>, m: map<K, V>)
    ensures Collected(b, 0, map[], m)
  {}

  lemma CollectSkip<K, V>(b: seq<Bucket<K, V>>, i: nat, c: map<K, V>, m: map<K, V>)
    requires i < |b| && !b[i].Full? && Collected(b, i, c, m)
    ensures Collected(b, i + 1, c, m)
  {}

  lemma CollectNext<K, V>(b: seq<Bucket<K, V>>, i: nat, c: map<K, V>, m: map<K, V>, h: K -> nat, a: K -> nat)
    requires Represents(b, h, a, m) && i < |b| && b[i].Full? && Collected(b, i, c, m)
    ensures b[i].key !in c && Collected(b, i + 1, c[b[i].key := b[i].info], m)
  {}

  lemma CollectedIsAll<K, V>(b: seq<Bucket<K, V>>, h: K -> nat, a: K -> nat, c: map<K, V>, m: map<K, V>)
    requires Represents(b, h, a, m) && Collected(b, |b|, c, m)
    ensures c == m
  {
    forall k | k in m ensures k in c {
      var i: nat :| i < |b| && Placed(b, h(k), a(k), i, k, m[k]);
    }
  }

  lemma MinSizeIsPow2()
    ensures IsPow2(MIN_SIZE)
  {
    assert Pow2(2) == 4;
  }

  lemma CountsUpdate<K, V>(b: seq<Bucket<K, V>>, i: nat, x: Bucket<K, V>)
    requires i < |b|
    ensures forall k :: Count(b[i := x], k) + Tally(b[i], k) == Count(b, k) + Tally(x, k)
  {
    forall k ensures Count(b[i := x], k) + Tally(b[i], k) == Count(b, k) + Tally(x, k) {
      CountUpdate(b, i, x, k);
    }
  }

  /** The first `n` steps of a probe met neither an empty slot nor the key. */
  ghost predicate Missed<K, V>(b: seq<Bucket<K, V>>, h: nat, a: nat, n: nat, k: K)
    requires |b| > 0
  {
    NoEmptyBefore(b, h, a, n)
    && forall j :: 0 <= j < n ==> !(b[Pos(h, a, |b|, j)].Full? && b[Pos(h, a, |b|, j)].key == k)
  }

  lemma MissedNext<K, V>(b: seq<Bucket<K, V>>, h: nat, a: nat, n: nat, k: K)
    requires |b| > 0 && Missed(b, h, a, n, k) && Pos(h, a, |b|, n) < |b|
    requires var x := b[Pos(h, a, |b|, n)]; x != Empty && !(x.Full? && x.key == k)
    ensures Missed(b, h, a, n + 1, k)
  {}

  /** A probe for the key ran to an empty slot, or all the way round. */
  ghost predicate Absent<K, V>(b: seq<Bucket<K, V>>, h: nat, a: nat, k: K)
    requires |b| > 0
  {
    exists n: nat :: Missed(b, h, a, n, k) && (n == |b| || (Pos(h, a, |b|, n) < |b| && b[Pos(h, a, |b|, n)] == Empty))
  }

  /** A key that its probe finds is not one that its probe misses. */
  lemma FindableIsNotAbsent<K, V>(b: seq<Bucket<K, V>>, h: nat, a: nat, k: K, v: V)
    requires |b| > 0 && Findable(b, h, a, k, v)
    ensures !Absent(b, h, a, k)
  {
    var i: nat :| i < |b| && Placed(b, h, a, i, k, v);
    forall n: nat | Missed(b, h, a, n, k)
      ensures n < |b| && !(Pos(h, a, |b|, n) < |b| && b[Pos(h, a, |b|, n)] == Empty)
    {
      assert n <= i;
    }
  }

  lemma AbsentIsNotThere<K, V>(b: seq<Bucket<K, V>>, k: K, m: map<K, V>, home: K -> nat, step: K -> nat)
    requires Represents(b, home, step, m) && Absent(b, home(k), step(k), k)
    ensures k !in m
  {
    forall v | Findable(b, home(k), step(k), k, v) ensures false {
      FindableIsNotAbsent(b, home(k), step(k), k, v);
    }
  }
}
