/** The sharer bit vector of a directory line: 32 nodes to a word, with a
    running count of the bits set. */
module SharerVector {
  import opened DirTypes
  import opened LineSpec
  import opened LineSafety
  import LineTheorems
  import opened Bits

  type Word = w: nat | w < 0x1_0000_0000

  /** The nodes whose bit is set. */
  function Members(v: seq<nat>): set<Node> {
    set n | 0 <= n < 32 * |v| && Bit(v[n / 32], n % 32)
  }

  lemma WordBits(v: seq<nat>, i: nat, w: nat, n: nat)
    requires i < |v| && n < 32 * |v|
    ensures n in Members(v[i := w]) <==> if n / 32 == i then Bit(w, n % 32) else n in Members(v)
  {}

  /** Setting one bit adds one node. */
  lemma SetBitAdds(v: seq<nat>, node: nat)
    requires node < 32 * |v|
    ensures Members(v[node / 32 := Or(v[node / 32], Pow2(node % 32))]) == Members(v) + {node}
  {
    var i, j := node / 32, node % 32;
    var v' := v[i := Or(v[i], Pow2(j))];
    forall n | 0 <= n < 32 * |v| ensures n in Members(v') <==> n in Members(v) + {node} {
      WordBits(v, i, Or(v[i], Pow2(j)), n);
      if n / 32 == i {
        BitOfOr(v[i], Pow2(j), n % 32);
        BitOfPow2(j, n % 32);
      }
    }
  }

  /** Clearing one bit removes one node. */
  lemma ClearBitRemoves(v: seq<nat>, node: nat)
    requires node < 32 * |v|
    ensures Members(v[node / 32 := AndNot(v[node / 32], Pow2(node % 32))]) == Members(v) - {node}
  {
    var i, j := node / 32, node % 32;
    var v' := v[i := AndNot(v[i], Pow2(j))];
    forall n | 0 <= n < 32 * |v| ensures n in Members(v') <==> n in Members(v) - {node} {
      WordBits(v, i, AndNot(v[i], Pow2(j)), n);
      if n / 32 == i {
        BitOfAndNot(v[i], Pow2(j), n % 32);
        BitOfPow2(j, n % 32);
      }
    }
  }

  /** A vector whose words are all 0 but one, which holds one bit. */
  lemma OneBit(v: seq<nat>, node: nat)
    requires node < 32 * |v|
    requires forall i :: 0 <= i < |v| ==> v[i] == if i == node / 32 then Pow2(node % 32) else 0
    ensures Members(v) == {node}
  {
    forall n | 0 <= n < 32 * |v| ensures Bit(v[n / 32], n % 32) <==> n == node {
      BitOfPow2(node % 32, n % 32);
      BitOfZero(n % 32);
    }
    assert node in Members(v);
  }

  lemma NoBits(v: seq<nat>)
    requires forall i :: 0 <= i < |v| ==> v[i] == 0
    ensures Members(v) == {}
  {
    forall n | 0 <= n < 32 * |v| ensures !Bit(v[n / 32], n % 32) {
      BitOfZero(n % 32);
    }
  }

  lemma {:induction false} OrFits(w: nat, m: nat, k: nat)
    requires w < Pow2(k) && m < Pow2(k)
    ensures Or(w, m) < Pow2(k)
    decreases k
  {
    if k == 0 {
    } else {
      OrFits(w / 2, m / 2, k - 1);
    }
  }

  lemma {:induction false} AndNotFits(w: nat, m: nat)
    ensures AndNot(w, m) <= w
  {
    if w == 0 {
    } else {
      AndNotFits(w / 2, m / 2);
    }
  }

  /** A single bit of a word, and the word with it set, are words. */
  lemma WordWithBit(w: Word, j: nat)
    requires j < 32
    ensures Pow2(j) < 0x1_0000_0000 && Or(w, Pow2(j)) < 0x1_0000_0000 && AndNot(w, Pow2(j)) < 0x1_0000_0000
  {
    WordSize();
    Pow2Grows(j, 31);
    OrFits(w, Pow2(j), 32);
    AndNotFits(w, Pow2(j));
  }

  /** The members below `n`. */
  function Below(s: set<Node>, n: nat): set<Node> {
    set k | k in s && k < n
  }

  lemma BelowNext(s: set<Node>, me: Node, n: nat)
    ensures Below(s, n + 1) == (if n in s then Below(s, n) + {n} else Below(s, n))
    ensures OthersBelow(s, me, n + 1) == OthersBelow(s, me, n) + (if n in s && n != me then [n] else [])
  {}

  /** A stretch without members adds nothing. */
  lemma {:induction false} SkipGap(s: set<Node>, me: Node, lo: nat, hi: nat)
    requires lo <= hi && forall k :: lo <= k < hi ==> k !in s
    ensures Below(s, hi) == Below(s, lo) && OthersBelow(s, me, hi) == OthersBelow(s, me, lo)
    decreases hi - lo
  {
    if lo >= hi {
    } else {
      SkipGap(s, me, lo, hi - 1);
      BelowNext(s, me, hi - 1);
    }
  }

  lemma ZeroWord(v: seq<nat>, i: nat)
    requires i < |v| && v[i] == 0
    ensures forall n :: 32 * i <= n < 32 * i + 32 ==> n !in Members(v)
  {
    forall n | 32 * i <= n < 32 * i + 32 ensures n !in Members(v) {
      BitOfZero(n % 32);
    }
  }

  /** DirFind_FM after the nodes below `n`. */
  ghost predicate Progress(s: set<Node>, me: Node, withArray: bool, n: nat, find: nat, nodeAry: seq<Node>,
                           nodeCopy: bool) {
    && find == |Below(s, n)|
    && (withArray ==> nodeAry == OthersBelow(s, me, n) && nodeCopy == (me in Below(s, n)))
    && (!withArray ==> nodeAry == [] && nodeCopy == (Below(s, n) != {}))
  }

  lemma ProgressPast(s: set<Node>, me: Node, withArray: bool, n: nat, find: nat, nodeAry: seq<Node>, nodeCopy: bool)
    requires Progress(s, me, withArray, n, find, nodeAry, nodeCopy)
    ensures n !in s ==> Progress(s, me, withArray, n + 1, find, nodeAry, nodeCopy)
    ensures n in s && withArray && n != me ==> Progress(s, me, withArray, n + 1, find + 1, nodeAry + [n], nodeCopy)
    ensures n in s && !(withArray && n != me) ==> Progress(s, me, withArray, n + 1, find + 1, nodeAry, true)
  {
    BelowNext(s, me, n);
  }

  lemma BitTest(v: seq<nat>, i: nat, k: nat)
    requires i < |v| && k < 32
    ensures And(v[i], Pow2(k)) != 0 <==> i * 32 + k in Members(v)
  {
    AndPow2(v[i], k);
    assert (i * 32 + k) / 32 == i && (i * 32 + k) % 32 == k;
  }

  class Vector {
    const numNodes: nat
    const words: array<Word>
    var numsharers: int

    ghost predicate Valid()
      reads this, words
    {
      && numNodes <= 32 * words.Length
      && (forall n :: n in Sharers() ==> n < numNodes)
      && numsharers == |Sharers()|
    }

    ghost function Sharers(): set<Node>
      reads this, words
    {
      Members(words[..])
    }

    /** An empty vector of as many words as the nodes need. */
    constructor (numNodes: nat)
      ensures Valid() && fresh(words) && this.numNodes == numNodes && Sharers() == {}
    {
      this.numNodes := numNodes;
      var vecIndex := numNodes / 32 + (if numNodes % 32 != 0 then 1 else 0);
      words := new Word[vecIndex](_ => 0);
      numsharers := 0;
      new;
      NoBits(words[..]);
    }

    /** DirAdd_FM; false for an invalid node index.  `oursAlone`: the node was
        the one sharer before. */
    method Add(node: Node) returns (ok: bool, oursAlone: bool)
      requires Valid()
      modifies this`numsharers, words
      ensures Valid() && ok == (node < numNodes)
      ensures Sharers() == old(Sharers()) + (if ok then {node} else {})
      ensures ok ==> oursAlone == (old(Sharers()) == {node})
    {
      if node >= numNodes { return false, false; }
      ghost var before := words[..];
      var i, j := node / 32, node % 32;
      AndPow2(words[i], j);
      var hadIt := And(words[i], Pow2(j)) != 0;
      assert hadIt == (node in Members(before));
      oursAlone := hadIt && numsharers == 1;
      if oursAlone { Alone(Members(before), node); }
      assert hadIt ==> Members(before) + {node} == Members(before);
      if !hadIt { numsharers := numsharers + 1; }
      WordWithBit(words[i], j);
      SetBitAdds(before, node);
      words[i] := Or(words[i], Pow2(j));
      assert words[..] == before[i := Or(before[i], Pow2(j))];
      ok := true;
    }

    lemma Alone(s: set<Node>, n: Node)
      requires n in s && |s| == 1
      ensures s == {n}
    {
      assert |s - {n}| == 0;
    }

    /** DirRmAllAdd_FM: the node alone. */
    method RmAllAdd(node: Node) returns (ok: bool)
      requires Valid()
      modifies this`numsharers, words
      ensures Valid() && ok == (node < numNodes)
      ensures Sharers() == if ok then {node} else old(Sharers())
    {
      if node >= numNodes { return false; }
      var i, j := node / 32, node % 32;
      WordWithBit(0, j);
      numsharers := 1;
      words[i] := Pow2(j);
      var k := 0;
      while k < i
        modifies words
        invariant 0 <= k <= i && words[i] == Pow2(j)
        invariant forall m :: 0 <= m < k ==> words[m] == 0
      {
        words[k] := 0;
        k := k + 1;
      }
      k := i + 1;
      while k < words.Length
        modifies words
        invariant i + 1 <= k <= words.Length && words[i] == Pow2(j)
        invariant forall m :: 0 <= m < k && m != i ==> words[m] == 0
      {
        words[k] := 0;
        k := k + 1;
      }
      OneBit(words[..], node);
      ok := true;
    }

    /** DirRmAll_FM: nobody. */
    method RmAll(node: Node) returns (ok: bool)
      requires Valid()
      modifies this`numsharers, words
      ensures Valid() && ok == (node < numNodes)
      ensures Sharers() == if ok then {} else old(Sharers())
    {
      if node >= numNodes { return false; }
      numsharers := 0;
      var k := 0;
      while k < words.Length
        modifies words
        invariant 0 <= k <= words.Length
        invariant forall m :: 0 <= m < k ==> words[m] == 0
      {
        words[k] := 0;
        k := k + 1;
      }
      NoBits(words[..]);
      ok := true;
    }

    /** DirRm_FM: all but the node. */
    method Rm(node: Node) returns (ok: bool)
      requires Valid()
      modifies this`numsharers, words
      ensures Valid() && ok == (node < numNodes)
      ensures Sharers() == old(Sharers()) - (if ok then {node} else {})
    {
      if node >= numNodes { return false; }
      ghost var before := words[..];
      var i, j := node / 32, node % 32;
      AndPow2(words[i], j);
      assert (And(words[i], Pow2(j)) != 0) == (node in Members(before));
      if And(words[i], Pow2(j)) != 0 {
        numsharers := numsharers - 1;
      }
      WordWithBit(words[i], j);
      ClearBitRemoves(before, node);
      words[i] := AndNot(words[i], Pow2(j));
      assert words[..] == before[i := AndNot(before[i], Pow2(j))];
      ok := true;
    }

    /** DirFind_FM.  With a node array, the sharers other than `nodeNum`, in
        ascending order, and whether `nodeNum` is one; without, `nodeCopy` only
        says whether there is any sharer at all.  Either way the number of
        sharers. */
    method Find(nodeNum: Node, withArray: bool) returns (find: nat, nodeAry: seq<Node>, nodeCopy: bool)
      requires Valid()
      ensures find == |Sharers()|
      ensures withArray ==> nodeAry == OthersBelow(Sharers(), nodeNum, numNodes) && nodeCopy == (nodeNum in Sharers())
      ensures !withArray ==> nodeAry == [] && nodeCopy == (Sharers() != {})
    {
      ghost var s := Sharers();
      find, nodeAry, nodeCopy := 0, [], false;
      var i := 0;
      while i < words.Length
        invariant 0 <= i <= words.Length
        invariant Progress(s, nodeNum, withArray, 32 * i, find, nodeAry, nodeCopy)
      {
        if words[i] != 0 {
          find, nodeAry, nodeCopy := FindInWord(i, nodeNum, withArray, find, nodeAry, nodeCopy);
        } else {
          ZeroWord(words[..], i);
          SkipGap(s, nodeNum, 32 * i, 32 * i + 32);
        }
        i := i + 1;
      }
      assert Below(s, 32 * words.Length) == s;
      SkipGap(s, nodeNum, numNodes, 32 * words.Length);
    }

    /** The inner loop of DirFind_FM: one word, with a bit that moves up. */
    method FindInWord(i: nat, nodeNum: Node, withArray: bool, find0: nat, nodeAry0: seq<Node>, nodeCopy0: bool)
      returns (find: nat, nodeAry: seq<Node>, nodeCopy: bool)
      requires i < words.Length && Progress(Sharers(), nodeNum, withArray, 32 * i, find0, nodeAry0, nodeCopy0)
      ensures Progress(Sharers(), nodeNum, withArray, 32 * i + 32, find, nodeAry, nodeCopy)
    {
      find, nodeAry, nodeCopy := find0, nodeAry0, nodeCopy0;
      ghost var s := Sharers();
      var j, k := 1, 0;
      while k < 32
        invariant 0 <= k <= 32 && j == Pow2(k)
        invariant Progress(s, nodeNum, withArray, 32 * i + k, find, nodeAry, nodeCopy)
      {
        var node := i * 32 + k;
        BitTest(words[..], i, k);
        ProgressPast(s, nodeNum, withArray, node, find, nodeAry, nodeCopy);
        if And(words[i], j) != 0 {
          if withArray && node != nodeNum {
            nodeAry := nodeAry + [node];
          } else {
            nodeCopy := true;
          }
          find := find + 1;
        }
        j := 2 * j;
        k := k + 1;
      }
    }
  }

  // ---------- the lists DirFind_FM makes ----------

  /** DirFind_FM's list is ascending and holds exactly the sharers other than
      the requester; with the requester's own bit it accounts for the whole
      count. */
  lemma {:induction false} FindIsExact(s: set<Node>, me: Node, p: Params)
    requires forall n :: n in s ==> n < p.numNodes
    ensures var r := OthersBelow(s, me, p.numNodes);
            && (set n | n in r) == s - {me}
            && (forall i, j :: 0 <= i < j < |r| ==> r[i] < r[j])
            && |r| + (if me in s then 1 else 0) == |s|
  {
    NodeArray(s, me, p);
    OthersListed(s, me, p.numNodes);
    LineTheorems.OthersAsSet(s, me, OthersBelow(s, me, p.numNodes));
  }
}
