/** Cache set replacement: ages as a recency order, and the choice of a victim. */
module Replacement {
  import opened Common
  import opened Bits

  datatype LineState = Invalid | PrCl | ShCl | PrDy | ShDy

  datatype Policy = Lru | Fifo | OtherPolicy

  datatype Way = Way(tag: int, age: nat, st: LineState, mshrOut: bool)

  /** The most lines that one piece of the line array holds. */
  const SUB_SZ: nat := 2048

  // ---------- the ages of one set ----------

  /** The ages of n ways are 1 to n in some order. */
  ghost predicate Perm(ages: seq<nat>) {
    && (forall i :: 0 <= i < |ages| ==> 1 <= ages[i] <= |ages|)
    && (forall i, j :: 0 <= i < j < |ages| ==> ages[i] != ages[j])
  }

  /** Way w becomes the youngest; those that were younger age by one. */
  ghost function Touch(ages: seq<nat>, w: nat): (r: seq<nat>)
    requires w < |ages|
    ensures |r| == |ages|
  {
    seq(|ages|, i requires 0 <= i < |ages| =>
      if ages[i] < ages[w] then ages[i] + 1 else if i == w then 1 else ages[i])
  }

  /** A touch moves one way to the front and keeps the order of the others. */
  lemma TouchOrder(ages: seq<nat>, w: nat)
    requires w < |ages| && Perm(ages)
    ensures Perm(Touch(ages, w)) && Touch(ages, w)[w] == 1
    ensures forall i :: 0 <= i < |ages| && i != w ==> Touch(ages, w)[i] > 1
    ensures forall i, j :: 0 <= i < |ages| && 0 <= j < |ages| && i != w && j != w ==>
                             (ages[i] < ages[j] <==> Touch(ages, w)[i] < Touch(ages, w)[j])
  {}

  /** Step t of a history is the last touch of way w. */
  ghost predicate LastTouch(hist: seq<nat>, w: nat, t: nat) {
    t < |hist| && hist[t] == w && w !in hist[t + 1..]
  }

  /** The distinct ways touched after step t. */
  ghost function Since(hist: seq<nat>, t: nat): set<nat>
    requires t < |hist|
  {
    set k | t < k < |hist| :: hist[k]
  }

  /** Way w was touched at step t and x was not touched after that. */
  ghost predicate Newer(hist: seq<nat>, w: nat, x: nat, t: nat) {
    LastTouch(hist, w, t) && x != w && x !in hist[t + 1..]
  }

  /** The ages tell how recently each way was touched: a way touched more
      recently than another is younger, and a touched way's age is one more
      than the number of distinct ways touched since. */
  ghost predicate Recency(ages: seq<nat>, hist: seq<nat>) {
    && (forall t :: 0 <= t < |hist| ==> hist[t] < |ages|)
    && (forall w, x, t :: 0 <= w < |ages| && 0 <= x < |ages| && Newer(hist, w, x, t) ==> ages[w] < ages[x])
    && (forall w, t :: 0 <= w < |ages| && LastTouch(hist, w, t) ==> ages[w] == 1 + |Since(hist, t)|)
  }

  /** One more touch only adds to what was touched since step t. */
  lemma SinceNext(hist: seq<nat>, y: nat, t: nat)
    requires t < |hist|
    ensures Since(hist + [y], t) == Since(hist, t) + {y}
    ensures (hist + [y])[t + 1..] == hist[t + 1..] + [y]
    ensures forall x :: x in Since(hist, t) <==> x in hist[t + 1..]
  {
    var more := hist + [y];
    assert more[|hist|] == y;
    forall x | x in Since(hist, t) ensures x in Since(more, t) && x in hist[t + 1..] {
      var k :| t < k < |hist| && hist[k] == x;
      assert more[k] == x && hist[t + 1..][k - t - 1] == x;
    }
    forall x | x in hist[t + 1..] ensures x in Since(hist, t) {
      var k :| 0 <= k < |hist| - t - 1 && hist[t + 1..][k] == x;
      assert hist[t + 1 + k] == x;
    }
    forall x | x in Since(more, t) ensures x in Since(hist, t) + {y} {
      var k :| t < k < |more| && more[k] == x;
      if k < |hist| { assert hist[k] == x; }
    }
  }

  /** A way other than the new one was last touched where it was before. */
  lemma EarlierTouch(hist: seq<nat>, y: nat, w: nat, t: nat)
    requires LastTouch(hist + [y], w, t)
    ensures if w == y then t == |hist| else LastTouch(hist, w, t)
  {
    var more := hist + [y];
    assert more[|hist|] == y;
    if t < |hist| {
      SinceNext(hist, y, t);
      assert more[t + 1..][|hist| - t - 1] == y;
    }
  }

  /** A way touched since step t has a last touch after t. */
  lemma {:induction false} LastOf(hist: seq<nat>, y: nat, t: nat) returns (u: nat)
    requires t < |hist| && y in hist[t + 1..]
    ensures t < u && LastTouch(hist, y, u)
  {
    var front := hist[..|hist| - 1];
    assert hist == front + [hist[|hist| - 1]];
    if hist[|hist| - 1] == y {
      u := |hist| - 1;
    } else {
      var k :| 0 <= k < |hist| - t - 1 && hist[t + 1..][k] == y;
      assert front[t + 1..][k] == y;
      u := LastOf(front, y, t);
      assert hist[u + 1..] == front[u + 1..] + [hist[|hist| - 1]];
    }
  }

  /** The order part survives a touch. */
  lemma TouchKeepsNewer(ages: seq<nat>, hist: seq<nat>, y: nat, w: nat, x: nat, t: nat)
    requires Perm(ages) && Recency(ages, hist) && y < |ages| && w < |ages| && x < |ages|
    requires Newer(hist + [y], w, x, t)
    ensures Touch(ages, y)[w] < Touch(ages, y)[x]
  {
    TouchOrder(ages, y);
    EarlierTouch(hist, y, w, t);
    if w != y {
      SinceNext(hist, y, t);
      assert (hist[t + 1..] + [y])[|hist| - t - 1] == y;
      assert Newer(hist, w, x, t);
    }
  }

  /** The count part survives a touch. */
  lemma TouchKeepsAge(ages: seq<nat>, hist: seq<nat>, y: nat, w: nat, t: nat)
    requires Perm(ages) && Recency(ages, hist) && y < |ages| && w < |ages|
    requires LastTouch(hist + [y], w, t)
    ensures Touch(ages, y)[w] == 1 + |Since(hist + [y], t)|
  {
    EarlierTouch(hist, y, w, t);
    if w == y {
      assert Since(hist + [y], t) == {};
    } else {
      SinceNext(hist, y, t);
      if y in hist[t + 1..] {
        var u := LastOf(hist, y, t);
        LaterSuffix(hist, w, t, u);
        assert Since(hist, t) + {y} == Since(hist, t);
        assert Newer(hist, y, w, u);
      } else {
        assert Newer(hist, w, y, t);
      }
    }
  }

  lemma LaterSuffix(hist: seq<nat>, w: nat, t: nat, u: nat)
    requires t < u < |hist| && w !in hist[t + 1..]
    ensures w !in hist[u + 1..]
  {
    assert hist[u + 1..] == hist[t + 1..][u - t..];
  }

  /** Over whole runs, the ages stay a recency order. */
  lemma TouchKeepsRecency(ages: seq<nat>, hist: seq<nat>, y: nat)
    requires Perm(ages) && Recency(ages, hist) && y < |ages|
    ensures Perm(Touch(ages, y)) && Recency(Touch(ages, y), hist + [y])
  {
    TouchOrder(ages, y);
    var now, more := Touch(ages, y), hist + [y];
    forall w, x, t | 0 <= w < |now| && 0 <= x < |now| && Newer(more, w, x, t) ensures now[w] < now[x] {
      TouchKeepsNewer(ages, hist, y, w, x, t);
    }
    forall w, t | 0 <= w < |now| && LastTouch(more, w, t) ensures now[w] == 1 + |Since(more, t)| {
      TouchKeepsAge(ages, hist, y, w, t);
    }
  }

  /** The ages that init_cache gives a set. */
  ghost function InitialAges(n: nat): seq<nat> {
    seq(n, k => k + 1)
  }

  ghost function AgesAfter(n: nat, hist: seq<nat>): (ages: seq<nat>)
    requires forall t :: 0 <= t < |hist| ==> hist[t] < n
    ensures |ages| == n
  {
    if hist == [] then InitialAges(n)
    else Touch(AgesAfter(n, hist[..|hist| - 1]), hist[|hist| - 1])
  }

  /** Any run of touches from the initial ages. */
  lemma {:induction false} RunIsRecency(n: nat, hist: seq<nat>)
    requires forall t :: 0 <= t < |hist| ==> hist[t] < n
    ensures Perm(AgesAfter(n, hist)) && Recency(AgesAfter(n, hist), hist)
  {
    if hist == [] {
    } else {
      var front := hist[..|hist| - 1];
      RunIsRecency(n, front);
      TouchKeepsRecency(AgesAfter(n, front), front, hist[|hist| - 1]);
      assert hist == front + [hist[|hist| - 1]];
    }
  }

  // ---------- the victim ----------

  /** The order in which states are given up. */
  function Rank(st: LineState): nat {
    match st
    case Invalid => 0
    case ShCl => 1
    case PrCl => 2
    case PrDy => 3
    case ShDy => 3
  }

  /** Ways with an outstanding upgrade stay, except in a write-through first level. */
  predicate Eligible(w: Way, wt: bool) {
    !w.mshrOut || wt
  }

  /** Way v may be given up, and no other way that may is to be given up before
      it: INVALID ways go first, then SH_CL, then PR_CL, then the dirty ones, and
      within these the oldest. */
  ghost predicate IsVictim(ways: seq<Way>, wt: bool, v: nat) {
    && v < |ways| && (ways[v].mshrOut ==> wt)
    && forall w :: 0 <= w < |ways| && (ways[w].mshrOut ==> wt) ==> GoesBefore(ways[v], ways[w])
  }

  predicate GoesBefore(v: Way, w: Way) {
    match w.st
    case Invalid => v.st == Invalid && w.age <= v.age
    case ShCl => v.st == Invalid || (v.st == ShCl && w.age <= v.age)
    case PrCl => v.st == Invalid || v.st == ShCl || (v.st == PrCl && w.age <= v.age)
    case _ => v.st == Invalid || v.st == ShCl || v.st == PrCl || w.age <= v.age
  }

  ghost function AgesOf(ways: seq<Way>): (ages: seq<nat>)
    ensures |ages| == |ways|
  {
    seq(|ways|, i requires 0 <= i < |ways| => ways[i].age)
  }

  lemma VictimIsUnique(ways: seq<Way>, wt: bool, v: nat, v': nat)
    requires Perm(AgesOf(ways)) && IsVictim(ways, wt, v) && IsVictim(ways, wt, v')
    ensures v == v'
  {
    assert AgesOf(ways)[v] == ways[v].age && AgesOf(ways)[v'] == ways[v'].age;
  }

  lemma OneVictim(d: seq<Way>, n: nat, hist: seq<seq<nat>>, s: nat, wt: bool, v: nat)
    requires AllRecent(d, n, hist) && s < |hist| && IsVictim(Slice(d, s, n), wt, v)
    ensures forall v': nat :: IsVictim(Slice(d, s, n), wt, v') ==> v' == v
  {
    forall v': nat | IsVictim(Slice(d, s, n), wt, v') ensures v' == v {
      VictimIsUnique(Slice(d, s, n), wt, v, v');
    }
  }

  predicate IsDirty(st: LineState) {
    st == PrDy || st == ShDy
  }

  /** A way that may be given up, in state `st`. */
  ghost predicate Offered(ways: seq<Way>, wt: bool, st: LineState) {
    exists w :: 0 <= w < |ways| && ways[w].st == st && (!ways[w].mshrOut || wt)
  }

  /** The state of way v is the first on offer of INVALID, SH_CL, PR_CL and the
      dirty states. */
  ghost predicate StateOrder(ways: seq<Way>, wt: bool, v: nat) {
    && v < |ways|
    && (ways[v].st == Invalid <==> Offered(ways, wt, Invalid))
    && (ways[v].st == ShCl <==> !Offered(ways, wt, Invalid) && Offered(ways, wt, ShCl))
    && (ways[v].st == PrCl <==>
          !Offered(ways, wt, Invalid) && !Offered(ways, wt, ShCl) && Offered(ways, wt, PrCl))
    && (IsDirty(ways[v].st) <==>
          !Offered(ways, wt, Invalid) && !Offered(ways, wt, ShCl) && !Offered(ways, wt, PrCl))
  }

  lemma VictimByState(ways: seq<Way>, wt: bool, v: nat)
    requires IsVictim(ways, wt, v)
    ensures StateOrder(ways, wt, v)
  {
    assert Offered(ways, wt, ways[v].st);
  }

  /** The victim was touched less recently than every other way on offer in its
      state, the dirty states counting as one. */
  lemma VictimIsLeastRecent(ways: seq<Way>, wt: bool, hist: seq<nat>, v: nat, w: nat, t: nat)
    requires Perm(AgesOf(ways)) && Recency(AgesOf(ways), hist) && IsVictim(ways, wt, v)
    requires w < |ways| && w != v && (ways[w].mshrOut ==> wt)
    requires ways[w].st == ways[v].st || (IsDirty(ways[w].st) && IsDirty(ways[v].st))
    requires LastTouch(hist, v, t)
    ensures w in hist[t + 1..]
  {
    assert AgesOf(ways)[v] == ways[v].age && AgesOf(ways)[w] == ways[w].age;
    assert w !in hist[t + 1..] ==> Newer(hist, v, w, t);
  }

  /** Every way has an upgrade outstanding, and that protects it. */
  ghost predicate NoCandidate(ways: seq<Way>, wt: bool) {
    forall w :: 0 <= w < |ways| ==> ways[w].mshrOut && !wt
  }

  /** The best eligible way of one rank among the first i, as the loop keeps it. */
  ghost predicate BestOf(ways: seq<Way>, wt: bool, i: nat, rank: nat, best: int, age: nat) {
    && i <= |ways|
    && (if best == -1 then age == 0 else
          0 <= best < i && Eligible(ways[best], wt) && Rank(ways[best].st) == rank && ways[best].age == age)
    && (forall w :: 0 <= w < i && Eligible(ways[w], wt) && Rank(ways[w].st) == rank ==>
          best != -1 && ways[w].age <= age)
  }

  lemma NothingSeen(ways: seq<Way>, wt: bool)
    ensures forall q :: 0 <= q < 4 ==> BestOf(ways, wt, 0, q, -1, 0)
  {}

  lemma NextBest(ways: seq<Way>, wt: bool, i: nat, rank: nat, best: int, age: nat)
    requires i < |ways| && ways[i].age > 0 && BestOf(ways, wt, i, rank, best, age)
    ensures var w := ways[i];
            if Eligible(w, wt) && Rank(w.st) == rank && age < w.age
            then BestOf(ways, wt, i + 1, rank, i, w.age)
            else BestOf(ways, wt, i + 1, rank, best, age)
  {}

  /** The best of the first rank that has one is the victim. */
  lemma BestIsVictim(ways: seq<Way>, wt: bool, rank: nat, best: nat, age: nat)
    requires BestOf(ways, wt, |ways|, rank, best, age)
    requires forall q :: 0 <= q < rank ==> BestOf(ways, wt, |ways|, q, -1, 0)
    ensures IsVictim(ways, wt, best) && best < |ways| && !NoCandidate(ways, wt)
  {
    forall w | 0 <= w < |ways| && Eligible(ways[w], wt) ensures rank <= Rank(ways[w].st) {
      assert Rank(ways[w].st) < rank ==> BestOf(ways, wt, |ways|, Rank(ways[w].st), -1, 0);
    }
  }

  lemma NoneEligible(ways: seq<Way>, wt: bool)
    requires forall q :: 0 <= q < 4 ==> BestOf(ways, wt, |ways|, q, -1, 0)
    ensures NoCandidate(ways, wt)
  {
    forall w | 0 <= w < |ways| ensures !Eligible(ways[w], wt) {
      assert BestOf(ways, wt, |ways|, Rank(ways[w].st), -1, 0);
    }
  }

  // ---------- the lines of the whole cache ----------

  /** The first line of set s. */
  function Base(s: nat, n: nat): nat {
    s * n
  }

  /** The lines of set s. */
  ghost function Slice(d: seq<Way>, s: nat, n: nat): seq<Way> {
    if Base(s, n) + n <= |d| then d[Base(s, n)..Base(s, n) + n] else []
  }

  /** The lines of set s are inside the line array. */
  lemma {:induction false} Window(s: nat, numSets: nat, n: nat)
    requires s < numSets
    ensures Base(s, n) + n <= Base(numSets, n)
  {
    assert Base(numSets, n) == Base(numSets - 1, n) + n;
    if s < numSets - 1 { Window(s, numSets - 1, n); }
  }

  /** Different sets have no line in common. */
  lemma Apart(s: nat, t: nat, n: nat)
    requires s < t
    ensures Base(s, n) + n <= Base(t, n)
  {
    Window(s, t, n);
  }

  /** Every set's ages are a permutation, and a recency order of its history. */
  ghost predicate AllRecent(d: seq<Way>, n: nat, hist: seq<seq<nat>>) {
    && |d| == Base(|hist|, n)
    && forall s :: 0 <= s < |hist| ==> Perm(AgesOf(Slice(d, s, n))) && Recency(AgesOf(Slice(d, s, n)), hist[s])
  }

  ghost predicate AllPerm(d: seq<Way>, n: nat, numSets: nat) {
    |d| == Base(numSets, n) && forall s :: 0 <= s < numSets ==> Perm(AgesOf(Slice(d, s, n)))
  }

  function Renewed(w: Way, age: nat, mine: bool): Way {
    if w.age < age then w.(age := w.age + 1) else if mine then w.(age := 1) else w
  }

  /** The lines after line idx was made the youngest of the n lines from lo on. */
  ghost function TouchWindow(d: seq<Way>, lo: nat, n: nat, idx: nat): (r: seq<Way>)
    ensures |r| == |d|
  {
    var age := if idx < |d| then d[idx].age else 0;
    seq(|d|, i requires 0 <= i < |d| => if lo <= i < lo + n then Renewed(d[i], age, i == idx) else d[i])
  }

  lemma TouchSlice(d: seq<Way>, lo: nat, n: nat, w: nat)
    requires lo + n <= |d| && w < n
    ensures AgesOf(TouchWindow(d, lo, n, lo + w)[lo..lo + n]) == Touch(AgesOf(d[lo..lo + n]), w)
  {
    var now, was := TouchWindow(d, lo, n, lo + w)[lo..lo + n], d[lo..lo + n];
    forall i | 0 <= i < n ensures AgesOf(now)[i] == Touch(AgesOf(was), w)[i] {
      assert was[i] == d[lo + i] && was[w] == d[lo + w];
    }
  }

  /** In its own set the line is touched. */
  lemma TouchInSet(d: seq<Way>, s: nat, n: nat, w: nat)
    requires Base(s, n) + n <= |d| && w < n
    ensures AgesOf(Slice(TouchWindow(d, Base(s, n), n, Base(s, n) + w), s, n)) == Touch(AgesOf(Slice(d, s, n)), w)
  {
    hide Base, TouchWindow, Touch;
    TouchSlice(d, Base(s, n), n, w);
  }

  /** In the other sets nothing changes. */
  lemma OtherSets(d: seq<Way>, r: seq<Way>, s: nat, t: nat, n: nat)
    requires |d| == |r| && s != t
    requires forall i :: 0 <= i < |d| && !(Base(s, n) <= i < Base(s, n) + n) ==> r[i] == d[i]
    ensures Slice(r, t, n) == Slice(d, t, n)
  {
    hide Base;
    if s < t { Apart(s, t, n); } else { Apart(t, s, n); }
  }

  lemma TouchKeepsAll(d: seq<Way>, n: nat, hist: seq<seq<nat>>, s: nat, w: nat)
    requires AllRecent(d, n, hist) && s < |hist| && w < n && Base(s, n) + n <= |d|
    ensures AllRecent(TouchWindow(d, Base(s, n), n, Base(s, n) + w), n, hist[s := hist[s] + [w]])
  {
    hide Base, Perm, Recency;
    var r, more := TouchWindow(d, Base(s, n), n, Base(s, n) + w), hist[s := hist[s] + [w]];
    forall t | 0 <= t < |hist|
      ensures Perm(AgesOf(Slice(r, t, n))) && Recency(AgesOf(Slice(r, t, n)), more[t])
    {
      if t == s {
        TouchInSet(d, s, n, w);
        TouchKeepsRecency(AgesOf(Slice(d, s, n)), hist[s], w);
      } else {
        OtherSets(d, r, s, t, n);
      }
    }
  }

  // ---------- the cache ----------

  datatype Choice = Victim(index: nat) | NoReplace | UnknownPolicy

  datatype Presence = Hit(index: nat) | PresentMiss(index: nat) | TotalMiss

  class Cache {
    const setsz: nat
    const numSets: nat
    const policy: Policy
    const writeThroughL1: bool
    const blockBits: nat
    const setBits: nat
    const data: array<Way>
    /** For every set, the ways that became its youngest, in order. */
    ghost var hist: seq<seq<nat>>

    ghost predicate Valid()
      reads this, data
    {
      setsz > 0 && |hist| == numSets && data.Length == Base(numSets, setsz) && AllRecent(data[..], setsz, hist)
    }

    /** Line `index` is in set `s`. */
    ghost predicate InSet(index: nat, s: nat) {
      s < numSets && Base(s, setsz) <= index < Base(s, setsz) + setsz
    }

    /** init_cache: every line invalid, the ages of a set 1, 2 and so on. */
    constructor (setsz: nat, numSets: nat, policy: Policy, writeThroughL1: bool, blockBits: nat, setBits: nat)
      requires setsz > 0 && Pow2(setBits) <= numSets
      ensures Valid() && fresh(data) && hist == seq(numSets, _ => [])
      ensures this.setsz == setsz && this.numSets == numSets && this.policy == policy
      ensures this.writeThroughL1 == writeThroughL1 && this.blockBits == blockBits && this.setBits == setBits
      ensures forall i :: 0 <= i < data.Length ==> data[i].st == Invalid && data[i].tag == -1 && !data[i].mshrOut
      ensures forall t :: 0 <= t < numSets ==> AgesOf(Slice(data[..], t, setsz)) == InitialAges(setsz)
      ensures forall i :: 0 <= i < data.Length ==> data[i].age == i % setsz + 1
    {
      this.setsz, this.numSets, this.policy, this.writeThroughL1 := setsz, numSets, policy, writeThroughL1;
      this.blockBits, this.setBits := blockBits, setBits;
      data := new Way[Base(numSets, setsz)];
      hist := seq(numSets, _ => []);
      new;
      InitLines();
      AllInitial(data[..], setsz, hist);
      AgesInPlace(data[..], numSets, setsz);
    }

    /** The lines of the set that begins at line j. */
    method InitSet(j: nat)
      requires j + setsz <= data.Length
      modifies data
      ensures forall i :: 0 <= i < j ==> data[i] == old(data[i])
      ensures forall i :: j <= i < j + setsz ==> data[i] == Way(-1, i - j + 1, Invalid, false)
    {
      var k := 0;
      while k < setsz
        invariant 0 <= k <= setsz
        invariant forall i :: 0 <= i < j ==> data[i] == old(data[i])
        invariant forall i :: j <= i < j + k ==> data[i] == Way(-1, i - j + 1, Invalid, false)
      {
        data[j + k] := Way(-1, k + 1, Invalid, false);
        k := k + 1;
      }
    }

    method InitLines()
      requires setsz > 0 && data.Length == Base(numSets, setsz)
      modifies data
      ensures forall t :: 0 <= t < numSets ==> AgesOf(Slice(data[..], t, setsz)) == InitialAges(setsz)
      ensures forall i :: 0 <= i < data.Length ==> data[i].st == Invalid && data[i].tag == -1 && !data[i].mshrOut
    {
      var j := 0;
      ghost var s := 0;
      assert Base(s, setsz) == 0;
      hide Base, Slice, AgesOf, InitialAges;
      while j < data.Length
        invariant s <= numSets && j == Base(s, setsz) && j <= data.Length
        invariant forall t :: 0 <= t < s ==> AgesOf(Slice(data[..], t, setsz)) == InitialAges(setsz)
        invariant forall i :: 0 <= i < j ==> data[i].st == Invalid && data[i].tag == -1 && !data[i].mshrOut
        decreases numSets - s
      {
        BaseNext(s, numSets, setsz);
        ghost var d := data[..];
        InitSet(j);
        SetDone(d, data[..], s, setsz);
        j := j + setsz;
        s := s + 1;
      }
      if s < numSets { BaseNext(s, numSets, setsz); }
    }

    /** notpres: the tag and set of an address, and where its line is. */
    method NotPres(address: int) returns (tag: int, set_: nat, p: Presence)
      requires Valid() && Pow2(setBits) <= numSets
      ensures set_ < Pow2(setBits)
      ensures Located(address, blockBits, setBits, tag, set_)
      ensures match p
              case Hit(i) => FirstOf(i, set_, tag) && data[i].st != Invalid
              case PresentMiss(i) => FirstOf(i, set_, tag) && data[i].st == Invalid
              case TotalMiss => forall i: nat :: InSet(i, set_) && i < data.Length ==> data[i].tag != tag
    {
      tag := address / Pow2(blockBits + setBits);
      set_ := address / Pow2(blockBits) % Pow2(setBits);
      SplitAddress(address, blockBits, setBits);
      Window(set_, numSets, setsz);
      hide Base, Located;
      var temp := Base(set_, setsz);
      var i := 0;
      while i < setsz
        invariant 0 <= i <= setsz && temp == Base(set_, setsz) + i
        invariant forall k :: Base(set_, setsz) <= k < temp ==> data[k].tag != tag
      {
        if data[temp].tag == tag {
          if data[temp].st != Invalid { return tag, set_, Hit(temp); }
          return tag, set_, PresentMiss(temp);
        }
        temp := temp + 1;
        i := i + 1;
      }
      p := TotalMiss;
    }

    /** Line i is the first of its set with this tag. */
    ghost predicate FirstOf(i: nat, s: nat, tag: int)
      reads data
    {
      && InSet(i, s) && i < data.Length && data[i].tag == tag
      && forall k: nat :: InSet(k, s) && k < i ==> data[k].tag != tag
    }

    /** The loop that every age update shares. */
    method Renew(lo: nat, index: nat)
      requires lo + setsz <= data.Length && index < data.Length
      modifies data
      ensures data[..] == TouchWindow(old(data[..]), lo, setsz, index)
    {
      ghost var d := data[..];
      var age := data[index].age;
      var i := 0;
      while i < setsz
        invariant 0 <= i <= setsz
        invariant forall j :: 0 <= j < data.Length ==>
                                data[j] == if lo <= j < lo + i then Renewed(d[j], age, j == index) else d[j]
      {
        data[lo + i] := Renewed(data[lo + i], age, lo + i == index);
        i := i + 1;
      }
    }

    /** hit_update. In a cache too large for one piece the loop starts at line
        `set` instead of at the first line of the set. */
    method HitUpdate(index: nat, set_: nat)
      requires Valid() && InSet(index, set_)
      modifies this`hist, data
      ensures !policy.Lru? ==> Valid() && unchanged(this) && unchanged(data)
      ensures policy.Lru? ==>
                var lo := if data.Length <= SUB_SZ then Base(set_, setsz) else set_;
                lo + setsz <= data.Length && data[..] == TouchWindow(old(data[..]), lo, setsz, index)
      ensures policy.Lru? && (data.Length <= SUB_SZ || set_ == 0 || setsz == 1) ==>
                Valid() && hist == old(hist)[set_ := old(hist)[set_] + [index - Base(set_, setsz)]]
    {
      hide Base, AllRecent, TouchWindow;
      Window(set_, numSets, setsz);
      StartInside(set_, setsz);
      if policy.Lru? {
        ghost var d := data[..];
        var lo := if data.Length <= SUB_SZ then Base(set_, setsz) else set_;
        Renew(lo, index);
        if lo == Base(set_, setsz) {
          TouchKeepsAll(d, setsz, hist, set_, index - Base(set_, setsz));
          hist := hist[set_ := hist[set_] + [index - Base(set_, setsz)]];
        }
      }
    }

    /** premiss_ageupdate. */
    method PremissUpdate(setInd: nat)
      requires Valid() && setInd < data.Length
      modifies this`hist, data
      ensures Valid() && InSet(setInd, setInd / setsz)
      ensures !policy.Lru? ==> unchanged(this) && unchanged(data)
      ensures policy.Lru? ==> data[..] == TouchWindow(old(data[..]), Base(setInd / setsz, setsz), setsz, setInd)
      ensures policy.Lru? ==> hist == old(hist)[setInd / setsz := old(hist)[setInd / setsz] + [setInd % setsz]]
    {
      hide Base, AllRecent, TouchWindow;
      SetOf(setInd, numSets, setsz);
      ghost var s := setInd / setsz;
      Window(s, numSets, setsz);
      if policy.Lru? {
        ghost var d := data[..];
        Renew(Base(setInd / setsz, setsz), setInd);
        TouchKeepsAll(d, setsz, hist, s, setInd % setsz);
        hist := hist[s := hist[s] + [setInd % setsz]];
      }
    }

    /** The search of miss_ageupdate: the oldest candidate of each kind, and
        the first kind that has one. */
    method PickVictim(base: nat, ghost s: nat) returns (victim: int)
      requires Valid() && s < numSets && base == Base(s, setsz) && base + setsz <= data.Length
      ensures victim == -1 <==> NoCandidate(Slice(data[..], s, setsz), writeThroughL1)
      ensures victim != -1 ==> 0 <= victim < setsz && IsVictim(Slice(data[..], s, setsz), writeThroughL1, victim)
    {
      hide Base, Recency, IsVictim, BestOf, NoCandidate;
      NothingSeen(Slice(data[..], s, setsz), writeThroughL1);
      ghost var ways, wt := Slice(data[..], s, setsz), writeThroughL1;
      assert Perm(AgesOf(ways));
      var bestinv, bestclean, bestprivate, bestdirty := -1, -1, -1, -1;
      var invAge: nat, cleanAge: nat, privateAge: nat, dirtyAge: nat := 0, 0, 0, 0;
      var i := 0;
      while i < setsz
        invariant 0 <= i <= setsz
        invariant BestOf(ways, wt, i, 0, bestinv, invAge) && BestOf(ways, wt, i, 1, bestclean, cleanAge)
        invariant BestOf(ways, wt, i, 2, bestprivate, privateAge) && BestOf(ways, wt, i, 3, bestdirty, dirtyAge)
        invariant bestinv >= -1 && bestclean >= -1 && bestprivate >= -1 && bestdirty >= -1
        invariant (bestinv == -1 ==> invAge == 0) && (bestclean == -1 ==> cleanAge == 0)
        invariant (bestprivate == -1 ==> privateAge == 0) && (bestdirty == -1 ==> dirtyAge == 0)
      {
        var w := data[base + i];
        assert w == ways[i] && AgesOf(ways)[i] == w.age;
        NextBest(ways, wt, i, 0, bestinv, invAge);
        NextBest(ways, wt, i, 1, bestclean, cleanAge);
        NextBest(ways, wt, i, 2, bestprivate, privateAge);
        NextBest(ways, wt, i, 3, bestdirty, dirtyAge);
        if !w.mshrOut || writeThroughL1 {
          match w.st {
            case Invalid =>
              if invAge < w.age { invAge, bestinv := w.age, i; }
            case ShCl =>
              if cleanAge < w.age { cleanAge, bestclean := w.age, i; }
            case PrCl =>
              if privateAge < w.age { privateAge, bestprivate := w.age, i; }
            case PrDy =>
              if dirtyAge < w.age { dirtyAge, bestdirty := w.age, i; }
            case ShDy =>
              if dirtyAge < w.age { dirtyAge, bestdirty := w.age, i; }
          }
        }
        i := i + 1;
      }
      if bestinv != -1 {
        BestIsVictim(ways, wt, 0, bestinv, invAge);
        victim := bestinv;
      } else if bestclean != -1 {
        BestIsVictim(ways, wt, 1, bestclean, cleanAge);
        victim := bestclean;
      } else if bestprivate != -1 {
        BestIsVictim(ways, wt, 2, bestprivate, privateAge);
        victim := bestprivate;
      } else if bestdirty != -1 {
        BestIsVictim(ways, wt, 3, bestdirty, dirtyAge);
        victim := bestdirty;
      } else {
        NoneEligible(ways, wt);
        victim := -1;
      }
    }

    /** miss_ageupdate of a finite cache. */
    method MissUpdate(base: nat, ghost s: nat) returns (r: Choice)
      requires Valid() && s < numSets && base == Base(s, setsz)
      modifies this`hist, data
      ensures Valid()
      ensures r.UnknownPolicy? <==> setsz > 1 && policy.OtherPolicy?
      ensures r.NoReplace? <==>
                !r.UnknownPolicy? && NoCandidate(old(Slice(data[..], s, setsz)), writeThroughL1)
      ensures !r.Victim? ==> unchanged(this) && unchanged(data)
      ensures r.Victim? ==>
                && InSet(r.index, s)
                && IsVictim(old(Slice(data[..], s, setsz)), writeThroughL1, r.index - base)
                && StateOrder(old(Slice(data[..], s, setsz)), writeThroughL1, r.index - base)
                && (forall v: nat :: IsVictim(old(Slice(data[..], s, setsz)), writeThroughL1, v) ==>
                      v == r.index - base)
                && data[..] == TouchWindow(old(data[..]), base, setsz, r.index)
                && hist == old(hist)[s := old(hist)[s] + [r.index - base]]
    {
      hide Base, AllRecent, TouchWindow, IsVictim, StateOrder, Slice;
      Window(s, numSets, setsz);
      ghost var d := data[..];
      if setsz == 1 {
        OneWay(d, hist, s, writeThroughL1);
        if data[base].mshrOut && !writeThroughL1 { return NoReplace; }
        r := Victim(base);
      } else {
        if policy.OtherPolicy? { return UnknownPolicy; }
        var victim := PickVictim(base, s);
        if victim == -1 { return NoReplace; }
        r := Victim(base + victim);
        Renew(base, base + victim);
      }
      OneVictim(d, setsz, hist, s, writeThroughL1, r.index - base);
      VictimByState(Slice(d, s, setsz), writeThroughL1, r.index - base);
      TouchKeepsAll(d, setsz, hist, s, r.index - base);
      hist := hist[s := hist[s] + [r.index - base]];
    }
  }

  /** In a set of one way, that way is the victim, and its age stays 1. */
  lemma OneWay(d: seq<Way>, hist: seq<seq<nat>>, s: nat, wt: bool)
    requires AllRecent(d, 1, hist) && s < |hist| && Base(s, 1) < |d|
    ensures |Slice(d, s, 1)| == 1 && Slice(d, s, 1)[0] == d[Base(s, 1)]
    ensures Eligible(d[Base(s, 1)], wt) ==> IsVictim(Slice(d, s, 1), wt, 0)
    ensures NoCandidate(Slice(d, s, 1), wt) <==> !Eligible(d[Base(s, 1)], wt)
    ensures TouchWindow(d, Base(s, 1), 1, Base(s, 1)) == d
  {
    var ways := Slice(d, s, 1);
    assert Perm(AgesOf(ways)) && AgesOf(ways)[0] == ways[0].age;
  }

  lemma StartInside(s: nat, n: nat)
    requires n > 0
    ensures s <= Base(s, n) && (s == 0 || n == 1 ==> s == Base(s, n))
  {
    assert Base(s, n) == s + s * (n - 1);
  }

  lemma SetOf(i: nat, numSets: nat, n: nat)
    requires n > 0 && i < Base(numSets, n)
    ensures i / n < numSets && i == Base(i / n, n) + i % n && Base(i / n, n) <= i < Base(i / n, n) + n
  {
    if i / n >= numSets {
      if numSets < i / n { Apart(numSets, i / n, n); }
      assert false;
    }
  }

  lemma BaseNext(s: nat, numSets: nat, n: nat)
    requires s < numSets
    ensures Base(s, n) + n == Base(s + 1, n) && Base(s, n) + n <= Base(numSets, n)
  {
    Window(s, numSets, n);
    assert (s + 1) * n == s * n + n;
  }

  lemma SetDone(d: seq<Way>, r: seq<Way>, s: nat, n: nat)
    requires |d| == |r| && Base(s, n) + n <= |d|
    requires forall i :: 0 <= i < Base(s, n) ==> r[i] == d[i]
    requires forall i :: Base(s, n) <= i < Base(s, n) + n ==> r[i].age == i - Base(s, n) + 1
    ensures AgesOf(Slice(r, s, n)) == InitialAges(n)
    ensures forall t :: 0 <= t < s ==> Slice(r, t, n) == Slice(d, t, n)
  {
    hide Base;
    forall t | 0 <= t < s ensures Slice(r, t, n) == Slice(d, t, n) {
      Apart(t, s, n);
    }
  }

  lemma AgesInPlace(d: seq<Way>, numSets: nat, n: nat)
    requires n > 0 && |d| == Base(numSets, n)
    requires forall t :: 0 <= t < numSets ==> AgesOf(Slice(d, t, n)) == InitialAges(n)
    ensures forall i :: 0 <= i < |d| ==> d[i].age == i % n + 1
  {
    hide Base;
    forall i | 0 <= i < |d| ensures d[i].age == i % n + 1 {
      SetOf(i, numSets, n);
      Window(i / n, numSets, n);
      AgeAt(d, i / n, n, InitialAges(n), i % n);
    }
  }

  lemma AllInitial(d: seq<Way>, n: nat, hist: seq<seq<nat>>)
    requires |d| == Base(|hist|, n)
    requires forall s :: 0 <= s < |hist| ==> hist[s] == [] && AgesOf(Slice(d, s, n)) == InitialAges(n)
    ensures AllRecent(d, n, hist)
  {
    RunIsRecency(n, []);
  }

  lemma Nest(x: int, b: nat, c: nat, q: int, r: nat, t: int, u: nat)
    requires x == q * b + r && q == t * c + u
    ensures x == t * (b * c) + (u * b + r)
  {
    assert (t * c + u) * b == (t * c) * b + u * b;
    assert (t * c) * b == t * (b * c);
  }

  lemma FloorTwice(x: int, b: nat, c: nat)
    requires b > 0 && c > 0
    ensures x / b / c == x / (b * c)
  {
    var q, r := x / b, x % b;
    Nest(x, b, c, q, r, q / c, q % c);
    AtLeastOnce(c - q % c, b);
    Distribute(c, q % c, b);
    FloorIs(x, b * c, q / c, q % c * b + r);
  }

  lemma FloorIs(x: int, d: nat, q: int, r: nat)
    requires d > 0 && r < d && x == q * d + r
    ensures x / d == q
  {
    var e := q - x / d;
    assert x == x / d * d + x % d;
    assert e * d == q * d - x / d * d;
    if e >= 1 { AtLeastOnce(e, d); } else if e <= -1 { AtLeastOnce(-e, d); }
  }

  /** The address is its tag, then its set, then its place in the line. */
  ghost predicate Located(address: int, blockBits: nat, setBits: nat, tag: int, s: nat) {
    Joins(address, Pow2(blockBits), Pow2(setBits), tag, s)
  }

  ghost predicate Joins(x: int, b: nat, c: nat, tag: int, s: nat)
    requires b > 0
  {
    x == (tag * c + s) * b + x % b
  }

  lemma SplitBy(x: int, b: nat, c: nat)
    requires b > 0 && c > 0
    ensures Joins(x, b, c, x / b / c, x / b % c)
  {
    var y := x / b;
    assert y == y / c * c + y % c;
  }

  lemma SplitAddress(address: int, blockBits: nat, setBits: nat)
    ensures Located(address, blockBits, setBits, address / Pow2(blockBits + setBits),
            address / Pow2(blockBits) % Pow2(setBits))
  {
    hide Joins;
    var b, c := Pow2(blockBits), Pow2(setBits);
    PowerSum(blockBits, setBits);
    FloorTwice(address, b, c);
    SplitBy(address, b, c);
  }

  /** Only the ages matter to the recency order: tags and states may change. */
  lemma OnlyAgesMatter(d: seq<Way>, r: seq<Way>, n: nat, hist: seq<seq<nat>>)
    requires AllRecent(d, n, hist) && |d| == |r| && forall i :: 0 <= i < |d| ==> r[i].age == d[i].age
    ensures AllRecent(r, n, hist)
  {
    hide Perm, Recency, Base;
    forall s | 0 <= s < |hist| ensures AgesOf(Slice(r, s, n)) == AgesOf(Slice(d, s, n)) {}
  }

  // ---------- hits in a cache of more than one piece ----------

  /** A hit in set s, with the loop starting at line lo, keeps every set's ages
      a permutation, whatever they are and whichever line of the set was hit. */
  ghost predicate HitKeepsAges(numSets: nat, n: nat, s: nat, lo: nat) {
    forall d: seq<Way>, idx: nat ::
      AllPerm(d, n, numSets) && Base(s, n) <= idx < Base(s, n) + n ==> AllPerm(TouchWindow(d, lo, n, idx), n, numSets)
  }

  lemma TouchKeepsPerm(d: seq<Way>, numSets: nat, n: nat, s: nat, w: nat)
    requires AllPerm(d, n, numSets) && s < numSets && w < n
    ensures AllPerm(TouchWindow(d, Base(s, n), n, Base(s, n) + w), n, numSets)
  {
    Window(s, numSets, n);
    hide Base, Perm;
    var r := TouchWindow(d, Base(s, n), n, Base(s, n) + w);
    forall t | 0 <= t < numSets ensures Perm(AgesOf(Slice(r, t, n))) {
      if t == s {
        TouchInSet(d, s, n, w);
        TouchOrder(AgesOf(Slice(d, s, n)), w);
      } else {
        OtherSets(d, r, s, t, n);
      }
    }
  }

  lemma RightStart(numSets: nat, n: nat, s: nat)
    requires s < numSets
    ensures HitKeepsAges(numSets, n, s, Base(s, n))
  {
    hide Base;
    forall d: seq<Way>, idx: nat | AllPerm(d, n, numSets) && Base(s, n) <= idx < Base(s, n) + n
      ensures AllPerm(TouchWindow(d, Base(s, n), n, idx), n, numSets)
    {
      TouchKeepsPerm(d, numSets, n, s, idx - Base(s, n));
    }
  }

  /** The ages 1 to n, with n - 1 moved to way p. */
  ghost function Swapped(n: nat, p: nat, k: nat): nat
    requires n >= 2
  {
    if k == p then n - 1 else if k == n - 2 then p + 1 else k + 1
  }

  /** Every set with those ages. */
  ghost function SwappedLines(numSets: nat, n: nat, p: nat): (d: seq<Way>)
    requires n >= 2
    ensures |d| == Base(numSets, n)
  {
    seq(Base(numSets, n), i requires 0 <= i < Base(numSets, n) => Way(-1, Swapped(n, p, i % n), Invalid, false))
  }

  lemma SwappedAt(numSets: nat, n: nat, p: nat, t: nat, k: nat)
    requires n >= 2 && t < numSets && k < n
    ensures Base(t, n) + k < Base(numSets, n)
    ensures SwappedLines(numSets, n, p)[Base(t, n) + k].age == Swapped(n, p, k)
  {
    Window(t, numSets, n);
    DivUnique(Base(t, n) + k, n, t, k);
  }

  lemma SwappedIsPerm(numSets: nat, n: nat, p: nat)
    requires n >= 2 && p < n
    ensures AllPerm(SwappedLines(numSets, n, p), n, numSets)
  {
    var d := SwappedLines(numSets, n, p);
    forall t | 0 <= t < numSets ensures Perm(AgesOf(Slice(d, t, n))) {
      hide Base, SwappedLines;
      Window(t, numSets, n);
      forall k | 0 <= k < n ensures AgesOf(Slice(d, t, n))[k] == Swapped(n, p, k) {
        SwappedAt(numSets, n, p, t, k);
      }
    }
  }

  lemma EarlierSet(s: nat, n: nat)
    requires s > 0 && n >= 2
    ensures s / n < s && s == Base(s / n, n) + s % n && s % n < n
  {}

  /** Line s, which is way p of a set before s, grows as old as the oldest way
      of that set. */
  lemma TwoOldest(d: seq<Way>, numSets: nat, n: nat, s: nat, q: nat, p: nat, oldest: nat, idx: nat)
    requires |d| == Base(numSets, n) && q < s < numSets && s == Base(q, n) + p && p < n && oldest < n && p != oldest
    requires Base(s, n) <= idx < Base(s, n) + n <= |d| && Base(q, n) + n <= |d|
    requires d[idx].age == n && d[s].age == n - 1 && d[Base(q, n) + oldest].age == n
    ensures !AllPerm(TouchWindow(d, s, n, idx), n, numSets)
  {
    hide Base;
    var r := TouchWindow(d, s, n, idx);
    Window(q, numSets, n);
    Apart(q, s, n);
    assert r[s].age == n && r[Base(q, n) + oldest].age == n;
    assert AgesOf(Slice(r, q, n))[p] == n && AgesOf(Slice(r, q, n))[oldest] == n;
  }

  lemma WrongStart(numSets: nat, n: nat, s: nat)
    requires 0 < s < numSets && n >= 2
    ensures !HitKeepsAges(numSets, n, s, s)
  {
    hide Base, SwappedLines;
    var q, p := s / n, s % n;
    var oldest := if p == n - 1 then n - 2 else n - 1;
    var d := SwappedLines(numSets, n, p);
    EarlierSet(s, n);
    SwappedIsPerm(numSets, n, p);
    SwappedAt(numSets, n, p, s, oldest);
    SwappedAt(numSets, n, p, q, p);
    SwappedAt(numSets, n, p, q, oldest);
    Window(s, numSets, n);
    TwoOldest(d, numSets, n, s, q, p, oldest, Base(s, n) + oldest);
  }

  // ---------- every order of ages comes about ----------

  /** The ages of the first k ways. */
  ghost function FirstAges(ages: seq<nat>, k: nat): set<nat>
    requires k <= |ages|
  {
    set i | 0 <= i < k :: ages[i]
  }

  lemma {:induction false} FirstAgesSize(ages: seq<nat>, k: nat)
    requires Perm(ages) && k <= |ages|
    ensures |FirstAges(ages, k)| == k
  {
    if k == 0 {
      assert FirstAges(ages, 0) == {};
    } else {
      FirstAgesSize(ages, k - 1);
      assert FirstAges(ages, k) == FirstAges(ages, k - 1) + {ages[k - 1]};
    }
  }

  /** The ages 1 to n. */
  ghost function UpTo(n: nat): set<nat> {
    if n == 0 then {} else UpTo(n - 1) + {n}
  }

  lemma {:induction false} UpToIs(n: nat)
    ensures |UpTo(n)| == n && forall a: nat :: a in UpTo(n) <==> 1 <= a <= n
  {
    if n == 0 {
    } else {
      UpToIs(n - 1);
    }
  }

  lemma AgeTaken(ages: seq<nat>, a: nat) returns (w: nat)
    requires Perm(ages) && 1 <= a <= |ages|
    ensures w < |ages| && ages[w] == a
  {
    FirstAgesSize(ages, |ages|);
    UpToIs(|ages|);
    if a !in FirstAges(ages, |ages|) {
      SubsetSize(FirstAges(ages, |ages|), UpTo(|ages|) - {a});
    }
    w :| w < |ages| && ages[w] == a;
  }

  /** Each way touched once, the oldest first. */
  ghost predicate OldestFirst(ages: seq<nat>, hist: seq<nat>) {
    |hist| == |ages| && forall t :: 0 <= t < |hist| ==> hist[t] < |ages| && ages[hist[t]] == |ages| - t
  }

  lemma {:induction false} TouchOrderOf(ages: seq<nat>, k: nat) returns (hist: seq<nat>)
    requires Perm(ages) && k <= |ages|
    ensures |hist| == k && forall t :: 0 <= t < k ==> hist[t] < |ages| && ages[hist[t]] == |ages| - t
  {
    if k == 0 {
      hist := [];
    } else {
      var front := TouchOrderOf(ages, k - 1);
      var w := AgeTaken(ages, |ages| - (k - 1));
      hist := front + [w];
    }
  }

  lemma {:induction false} SinceCounts(ages: seq<nat>, hist: seq<nat>, t: nat)
    requires OldestFirst(ages, hist) && t < |hist|
    ensures |Since(hist, t)| == |hist| - 1 - t
    decreases |hist| - t
  {
    if t + 1 == |hist| {
      assert Since(hist, t) == {};
    } else {
      SinceCounts(ages, hist, t + 1);
      assert hist[t + 1] !in Since(hist, t + 1);
      assert Since(hist, t) == Since(hist, t + 1) + {hist[t + 1]};
    }
  }

  lemma TouchedOnce(ages: seq<nat>, hist: seq<nat>, t: nat)
    requires OldestFirst(ages, hist) && t < |hist|
    ensures LastTouch(hist, hist[t], t)
  {}

  /** Every permutation is the ages of some history: touch the ways in order,
      the oldest first. */
  lemma {:induction false} EveryOrderIsReached(ages: seq<nat>) returns (hist: seq<nat>)
    requires Perm(ages)
    ensures (forall t :: 0 <= t < |hist| ==> hist[t] < |ages|) && AgesAfter(|ages|, hist) == ages
  {
    hist := TouchOrderOf(ages, |ages|);
    RunIsRecency(|ages|, hist);
    var now := AgesAfter(|ages|, hist);
    forall w | 0 <= w < |ages| ensures now[w] == ages[w] {
      var t := |ages| - ages[w];
      assert hist[t] == w;
      TouchedOnce(ages, hist, t);
      SinceCounts(ages, hist, t);
    }
  }

  /** The lines after a list of present misses, each of which makes a line the
      youngest of its set. */
  ghost function AfterMisses(d: seq<Way>, n: nat, misses: seq<nat>): (r: seq<Way>)
    requires n > 0
    ensures |r| == |d|
    decreases |misses|
  {
    if misses == [] then d
    else
      var i := misses[|misses| - 1];
      TouchWindow(AfterMisses(d, n, misses[..|misses| - 1]), Base(i / n, n), n, i)
  }

  lemma {:induction false} MissesConcat(d: seq<Way>, n: nat, a: seq<nat>, b: seq<nat>)
    requires n > 0
    ensures AfterMisses(d, n, a + b) == AfterMisses(AfterMisses(d, n, a), n, b)
    decreases |b|
  {
    hide Base, TouchWindow;
    if b == [] {
      assert a + b == a;
    } else {
      var front, last := b[..|b| - 1], b[|b| - 1];
      MissesConcat(d, n, a, front);
      assert (a + b)[..|a + b| - 1] == a + front;
    }
  }

  /** Present misses in set s, one way of it after the other. */
  ghost function MissesIn(s: nat, n: nat, hist: seq<nat>): seq<nat> {
    if hist == [] then [] else MissesIn(s, n, hist[..|hist| - 1]) + [Base(s, n) + hist[|hist| - 1]]
  }

  lemma {:induction false} MissesTouch(d: seq<Way>, numSets: nat, n: nat, s: nat, hist: seq<nat>)
    requires n > 0 && |d| == Base(numSets, n) && s < numSets && forall t :: 0 <= t < |hist| ==> hist[t] < n
    requires AgesOf(Slice(d, s, n)) == InitialAges(n)
    ensures var r := AfterMisses(d, n, MissesIn(s, n, hist));
            && AgesOf(Slice(r, s, n)) == AgesAfter(n, hist)
            && forall t :: 0 <= t < numSets && t != s ==> Slice(r, t, n) == Slice(d, t, n)
    decreases |hist|
  {
    hide Base, Slice, TouchWindow, AgesOf, Touch;
    if hist == [] {
      assert MissesIn(s, n, hist) == [];
    } else {
      var front, w := hist[..|hist| - 1], hist[|hist| - 1];
      MissesTouch(d, numSets, n, s, front);
      var misses, d' := MissesIn(s, n, hist), AfterMisses(d, n, MissesIn(s, n, front));
      assert misses[..|misses| - 1] == MissesIn(s, n, front);
      Window(s, numSets, n);
      WayOfSet(s, n, w);
      TouchInSet(d', s, n, w);
      OnlyThatSet(d', numSets, s, n, w);
    }
  }

  lemma WayOfSet(s: nat, n: nat, w: nat)
    requires w < n
    ensures (Base(s, n) + w) / n == s
  {
    DivUnique(Base(s, n) + w, n, s, w);
  }

  lemma OnlyThatSet(d: seq<Way>, numSets: nat, s: nat, n: nat, w: nat)
    requires |d| == Base(numSets, n) && s < numSets && w < n
    ensures forall t :: 0 <= t < numSets && t != s ==>
                          Slice(TouchWindow(d, Base(s, n), n, Base(s, n) + w), t, n) == Slice(d, t, n)
  {
    forall t | 0 <= t < numSets && t != s
      ensures Slice(TouchWindow(d, Base(s, n), n, Base(s, n) + w), t, n) == Slice(d, t, n)
    {
      OtherSets(d, TouchWindow(d, Base(s, n), n, Base(s, n) + w), s, t, n);
    }
  }

  /** Present misses bring the first k sets, one after the other, to the same
      order of ages. */
  lemma {:induction false} MissesReach(d: seq<Way>, numSets: nat, n: nat, k: nat, ages: seq<nat>)
    returns (misses: seq<nat>)
    requires n > 0 && |d| == Base(numSets, n) && k <= numSets && Perm(ages) && |ages| == n
    requires forall t :: 0 <= t < numSets ==> AgesOf(Slice(d, t, n)) == InitialAges(n)
    ensures var r := AfterMisses(d, n, misses);
            forall t :: 0 <= t < numSets ==> AgesOf(Slice(r, t, n)) == if t < k then ages else InitialAges(n)
  {
    hide Base, Slice, AgesOf, Perm;
    if k == 0 {
      misses := [];
    } else {
      var front := MissesReach(d, numSets, n, k - 1, ages);
      var hist := EveryOrderIsReached(ages);
      misses := front + MissesIn(k - 1, n, hist);
      MissesConcat(d, n, front, MissesIn(k - 1, n, hist));
      MissesTouch(AfterMisses(d, n, front), numSets, n, k - 1, hist);
    }
  }

  /** From the lines as init_cache leaves them, some present misses and one hit
      with the wrong starting line end with two ways of one age in a set. */
  lemma {:induction false} WrongStartHappens(d: seq<Way>, numSets: nat, n: nat, s: nat) returns (misses: seq<nat>,
      idx: nat)
    requires 0 < s < numSets && n >= 2 && |d| == Base(numSets, n)
    requires forall t :: 0 <= t < numSets ==> AgesOf(Slice(d, t, n)) == InitialAges(n)
    ensures Base(s, n) <= idx < Base(s, n) + n
    ensures !AllPerm(TouchWindow(AfterMisses(d, n, misses), s, n, idx), n, numSets)
  {
    hide Base, Perm, AllPerm, Swapped, AgesOf, Slice;
    var q, p := s / n, s % n;
    EarlierSet(s, n);
    var ages := seq(n, k requires 0 <= k < n && n >= 2 => Swapped(n, p, k));
    SwappedAges(n, p, ages);
    misses := MissesReach(d, numSets, n, numSets, ages);
    assert forall t :: 0 <= t < numSets ==> AgesOf(Slice(AfterMisses(d, n, misses), t, n)) == ages;
    idx := Base(s, n) + OldestIn(n, p);
    SwappedBreaks(AfterMisses(d, n, misses), numSets, n, s, q, p, ages);
  }

  /** The way that is oldest when way p has age n - 1. */
  function OldestIn(n: nat, p: nat): nat
    requires n >= 2
  {
    if p == n - 1 then n - 2 else n - 1
  }

  lemma SwappedBreaks(r: seq<Way>, numSets: nat, n: nat, s: nat, q: nat, p: nat, ages: seq<nat>)
    requires 0 < s < numSets && n >= 2 && |r| == Base(numSets, n) && p < n && q < s && s == Base(q, n) + p
    requires |ages| == n && forall k :: 0 <= k < n ==> ages[k] == Swapped(n, p, k)
    requires forall t :: 0 <= t < numSets ==> AgesOf(Slice(r, t, n)) == ages
    ensures !AllPerm(TouchWindow(r, s, n, Base(s, n) + OldestIn(n, p)), n, numSets)
  {
    hide Base, AllPerm, AgesOf, Slice;
    var oldest := OldestIn(n, p);
    Window(s, numSets, n);
    Window(q, numSets, n);
    AgeAt(r, s, n, ages, oldest);
    AgeAt(r, q, n, ages, p);
    AgeAt(r, q, n, ages, oldest);
    TwoOldest(r, numSets, n, s, q, p, oldest, Base(s, n) + oldest);
  }

  lemma SwappedAges(n: nat, p: nat, ages: seq<nat>)
    requires n >= 2 && p < n && |ages| == n && forall k :: 0 <= k < n ==> ages[k] == Swapped(n, p, k)
    ensures Perm(ages)
  {}

  lemma AgeAt(d: seq<Way>, s: nat, n: nat, ages: seq<nat>, k: nat)
    requires Base(s, n) + n <= |d| && AgesOf(Slice(d, s, n)) == ages && k < n
    ensures |ages| == n && d[Base(s, n) + k].age == ages[k]
  {
    assert AgesOf(Slice(d, s, n))[k] == Slice(d, s, n)[k].age;
  }

  /** In a cache too large for one piece, hits are sure to keep the ages of
      every set exactly when the set is the first one or has a single way. */
  lemma LargeCacheHits(numSets: nat, n: nat, s: nat)
    requires s < numSets && n > 0
    ensures HitKeepsAges(numSets, n, s, s) <==> s == 0 || n == 1
  {
    if s == 0 || n == 1 {
      StartInside(s, n);
      RightStart(numSets, n, s);
    } else {
      WrongStart(numSets, n, s);
    }
  }
}
