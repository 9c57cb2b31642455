/**
  The merkle tree of pending locks (raiden/transfer/merkle_tree.py) and the two operations that
  derive a new tree from an old one (raiden/transfer/channel.py). Everything is proved for every
  strict total order on digests.
 */
module MerkleTree {
  import opened Wrappers
  import opened Hashes

  datatype Tree = Tree(layers: seq<seq<Hash>>)

  /** A tree that `merkleroot` accepts: there are layers and the last of them is not empty. */
  type MerkleTreeState = t: Tree | t.layers != [] && t.layers[|t.layers| - 1] != []
    witness Tree([[], [EMPTY_MERKLE_ROOT]])

  datatype MerkleError = NoElements | DuplicatedElement

  const EMPTY_TREE: MerkleTreeState := Tree([[], [EMPTY_MERKLE_ROOT]])

  function Leaves(t: MerkleTreeState): seq<Hash> {
    t.layers[0]
  }

  function Root(t: MerkleTreeState): Hash {
    t.layers[|t.layers| - 1][0]
  }

  function HashPair(less: Order, first: Hash, second: Option<Hash>): Hash {
    match second
    case None => first
    case Some(second) => if less(second, first) then Pair(second, first) else Pair(first, second)
  }

  /** Hashes neighbours pairwise; with an odd number of elements the last one has no partner. */
  function NextLayer(less: Order, layer: seq<Hash>): (next: seq<Hash>)
    ensures |next| == (|layer| + 1) / 2
  {
    if layer == [] then []
    else if |layer| == 1 then [HashPair(less, layer[0], None)]
    else [HashPair(less, layer[0], Some(layer[1]))] + NextLayer(less, layer[2..])
  }

  function Layers(less: Order, leaves: seq<Hash>): (layers: seq<seq<Hash>>)
    ensures layers != [] && layers[0] == leaves
    ensures leaves != [] ==> |layers[|layers| - 1]| == 1
    decreases |leaves|
  {
    if |leaves| <= 1 then [leaves] else [leaves] + Layers(less, NextLayer(less, leaves))
  }

  function Insert(less: Order, h: Hash, s: seq<Hash>): seq<Hash> {
    if s == [] || !less(s[0], h) then [h] + s else [s[0]] + Insert(less, h, s[1..])
  }

  function Sort(less: Order, s: seq<Hash>): seq<Hash> {
    if s == [] then [] else Insert(less, s[0], Sort(less, s[1..]))
  }

  predicate Distinct(s: seq<Hash>) {
    s == [] || (s[0] !in s[1..] && Distinct(s[1..]))
  }

  predicate StrictlySorted(less: Order, s: seq<Hash>) {
    forall i, j :: 0 <= i < j < |s| ==> less(s[i], s[j])
  }

  function Elements(s: seq<Hash>): set<Hash> {
    set h | h in s
  }

  /** Builds the layers from the leaves to the root, one pass over a layer for each new one. */
  method ComputeLayers(less: Order, elements: seq<Hash>) returns (r: Result<seq<seq<Hash>>, MerkleError>)
    ensures elements == [] ==> r == Failure(NoElements)
    ensures elements != [] && !Distinct(elements) ==> r == Failure(DuplicatedElement)
    ensures elements != [] && Distinct(elements) ==> r == Success(Layers(less, Sort(less, elements)))
  {
    if elements == [] {
      return Failure(NoElements);
    }
    if |Elements(elements)| != |elements| {
      DistinctIffNoneLost(elements);
      return Failure(DuplicatedElement);
    }
    DistinctIffNoneLost(elements);
    SortPermutes(less, elements);
    var tree := HashUpwards(less, Sort(less, elements));
    return Success(tree);
  }

  /** The loop of `compute_layers`: from sorted leaves up to a layer with a single digest. */
  method HashUpwards(less: Order, leaves: seq<Hash>) returns (tree: seq<seq<Hash>>)
    requires leaves != []
    ensures tree == Layers(less, leaves)
  {
    var layer := leaves;
    tree := [leaves];
    ghost var below: seq<seq<Hash>> := [];
    assert below + [layer] == tree && below + Layers(less, layer) == Layers(less, leaves);
    while |layer| > 1
      invariant layer != []
      invariant tree == below + [layer]
      invariant below + Layers(less, layer) == Layers(less, leaves)
      decreases |layer|
    {
      var next := NextLayer(less, layer);
      ConcatAssociates(below, [layer], Layers(less, next));
      below := tree;
      layer := next;
      tree := tree + [layer];
    }
  }

  lemma ConcatAssociates<T>(a: seq<T>, b: seq<T>, c: seq<T>)
    ensures a + (b + c) == a + b + c
  {
  }

  /** The elements survive as a set of the same size exactly when none is repeated. */
  lemma {:induction false} DistinctIffNoneLost(s: seq<Hash>)
    ensures |Elements(s)| <= |s|
    ensures Distinct(s) <==> |Elements(s)| == |s|
  {
    if s != [] {
      DistinctIffNoneLost(s[1..]);
      ElementsOfCons(s);
    }
  }

  lemma ElementsOfCons(s: seq<Hash>)
    requires s != []
    ensures Elements(s) == {s[0]} + Elements(s[1..])
  {
    assert s == [s[0]] + s[1..];
  }

  // ---------------------------------------------------------------- sorting

  lemma {:induction false} InsertPermutes(less: Order, h: Hash, s: seq<Hash>)
    ensures multiset(Insert(less, h, s)) == multiset(s) + multiset{h}
  {
    if !(s == [] || !less(s[0], h)) {
      InsertPermutes(less, h, s[1..]);
      assert s == [s[0]] + s[1..];
    }
  }

  lemma {:induction false} SortPermutes(less: Order, s: seq<Hash>)
    ensures multiset(Sort(less, s)) == multiset(s)
    ensures |Sort(less, s)| == |s|
    ensures Elements(Sort(less, s)) == Elements(s)
  {
    if s != [] {
      SortPermutes(less, s[1..]);
      InsertPermutes(less, s[0], Sort(less, s[1..]));
      assert s == [s[0]] + s[1..];
    }
    PermutationsAgree(Sort(less, s), s);
  }

  lemma PermutationsAgree(a: seq<Hash>, b: seq<Hash>)
    requires multiset(a) == multiset(b)
    ensures |a| == |b| && Elements(a) == Elements(b)
  {
    assert |multiset(a)| == |multiset(b)|;
    assert forall h :: h in a <==> h in multiset(a);
    assert forall h :: h in b <==> h in multiset(b);
  }

  lemma {:induction false} InsertSorts(less: Order, h: Hash, s: seq<Hash>)
    requires IsStrictTotalOrder(less) && StrictlySorted(less, s) && h !in s
    ensures StrictlySorted(less, Insert(less, h, s))
  {
    if s == [] {
    } else if !less(s[0], h) {
      assert less(h, s[0]);
      forall j | 0 <= j < |s| ensures less(h, s[j]) {
        assert j == 0 || less(s[0], s[j]);
      }
    } else {
      var rest := s[1..];
      InsertSorts(less, h, rest);
      InsertPermutes(less, h, rest);
      var inserted := Insert(less, h, rest);
      forall x | x in inserted ensures less(s[0], x) {
        assert x in multiset(inserted);
        assert x == h || x in rest;
      }
    }
  }

  lemma {:induction false} SortSorts(less: Order, s: seq<Hash>)
    requires IsStrictTotalOrder(less) && Distinct(s)
    ensures StrictlySorted(less, Sort(less, s))
  {
    if s != [] {
      SortSorts(less, s[1..]);
      SortPermutes(less, s[1..]);
      assert s[0] !in Elements(Sort(less, s[1..]));
      InsertSorts(less, s[0], Sort(less, s[1..]));
    }
  }

  /** A strictly sorted list is determined by its elements. */
  lemma {:induction false} SortedIsUnique(less: Order, a: seq<Hash>, b: seq<Hash>)
    requires IsStrictTotalOrder(less)
    requires StrictlySorted(less, a) && StrictlySorted(less, b)
    requires Elements(a) == Elements(b)
    ensures a == b
  {
    EmptyIffNoElements(a);
    EmptyIffNoElements(b);
    if a != [] {
      SmallestIsFirst(less, a, b);
      SmallestIsFirst(less, b, a);
      assert a[0] == b[0];
      RestIsSorted(less, a);
      RestIsSorted(less, b);
      SortedIsUnique(less, a[1..], b[1..]);
      assert a == [a[0]] + a[1..] && b == [b[0]] + b[1..];
    }
  }

  lemma EmptyIffNoElements(s: seq<Hash>)
    ensures s == [] <==> Elements(s) == {}
  {
    if s != [] {
      assert s[0] in Elements(s);
    }
  }

  lemma SmallestIsFirst(less: Order, a: seq<Hash>, b: seq<Hash>)
    requires IsStrictTotalOrder(less) && StrictlySorted(less, a) && a != [] && b != []
    requires Elements(b) <= Elements(a)
    ensures a[0] == b[0] || less(a[0], b[0])
  {
    assert b[0] in Elements(b);
  }

  lemma RestIsSorted(less: Order, a: seq<Hash>)
    requires IsStrictTotalOrder(less) && StrictlySorted(less, a) && a != []
    ensures StrictlySorted(less, a[1..])
    ensures Elements(a[1..]) == Elements(a) - {a[0]}
  {
    assert a == [a[0]] + a[1..];
    assert forall i :: 0 < i < |a| ==> less(a[0], a[i]);
  }

  // ---------------------------------------------------------------- layers

  /** Each layer is the pairwise hash of the one below it, and the last layer is a single digest. */
  lemma {:induction false} LayersHalve(less: Order, leaves: seq<Hash>, k: nat)
    requires leaves != []
    ensures var layers := Layers(less, leaves);
      && |layers[|layers| - 1]| == 1
      && (k < |layers| - 1 ==>
           && layers[k + 1] == NextLayer(less, layers[k])
           && |layers[k]| > 1
           && |layers[k + 1]| == (|layers[k]| + 1) / 2)
    decreases |leaves|
  {
    if |leaves| > 1 && k > 0 {
      LayersHalve(less, NextLayer(less, leaves), k - 1);
    }
  }

  /** The digest of two siblings: the smaller one goes first. */
  ghost predicate IsDigestOf(less: Order, digest: Hash, a: Hash, b: Hash) {
    if less(b, a) then digest == Pair(b, a) else digest == Pair(a, b)
  }

  /** Each digest of a layer is that of its two children, or the one child carried up. */
  ghost predicate IsAbove(less: Order, layer: seq<Hash>, below: seq<Hash>, i: nat)
    requires i < |layer| && |layer| == (|below| + 1) / 2
  {
    if 2 * i + 1 < |below| then IsDigestOf(less, layer[i], below[2 * i], below[2 * i + 1])
    else layer[i] == below[2 * i]
  }

  lemma {:induction false} NextLayerIsAbove(less: Order, layer: seq<Hash>, i: nat)
    requires i < |NextLayer(less, layer)|
    ensures IsAbove(less, NextLayer(less, layer), layer, i)
    decreases |layer|
  {
    if i > 0 {
      NextLayerIsAbove(less, layer[2..], i - 1);
    }
  }

  lemma LayersStep(less: Order, leaves: seq<Hash>)
    requires |leaves| > 1
    ensures Layers(less, leaves) == [leaves] + Layers(less, NextLayer(less, leaves))
  {
  }

  /** In every tree, each layer above the leaves pairs the layer below it, smaller digest first. */
  lemma {:induction false} LayersPairNeighbours(less: Order, leaves: seq<Hash>, k: nat, i: nat)
    requires k + 1 < |Layers(less, leaves)| && i < |Layers(less, leaves)[k + 1]|
    ensures PairsNeighbours(less, Layers(less, leaves), k, i)
    decreases k
  {
    LayersStep(less, leaves);
    var next := NextLayer(less, leaves);
    var above := Layers(less, next);
    if k == 0 {
      NextLayerIsAbove(less, leaves, i);
      PairsInBottom(less, leaves, next, above, i);
    } else {
      LayersPairNeighbours(less, next, k - 1, i);
      PairsFurtherUp(less, leaves, above, k, i);
    }
  }

  ghost predicate PairsNeighbours(less: Order, layers: seq<seq<Hash>>, k: nat, i: nat)
    requires k + 1 < |layers| && i < |layers[k + 1]|
  {
    |layers[k + 1]| == (|layers[k]| + 1) / 2 && IsAbove(less, layers[k + 1], layers[k], i)
  }

  lemma PairsInBottom(less: Order, leaves: seq<Hash>, next: seq<Hash>, above: seq<seq<Hash>>, i: nat)
    requires above != [] && above[0] == next && i < |next| == (|leaves| + 1) / 2 && IsAbove(less, next, leaves, i)
    ensures PairsNeighbours(less, [leaves] + above, 0, i)
  {
  }

  lemma PairsFurtherUp(less: Order, leaves: seq<Hash>, above: seq<seq<Hash>>, k: nat, i: nat)
    requires 0 < k < |above| && i < |above[k]| && PairsNeighbours(less, above, k - 1, i)
    ensures PairsNeighbours(less, [leaves] + above, k, i)
  {
  }

  /** The order of two siblings does not matter. */
  lemma SiblingsCommute(less: Order, a: Hash, b: Hash, digest: Hash)
    requires IsStrictTotalOrder(less)
    ensures NextLayer(less, [a, b]) == [digest] <==> NextLayer(less, [b, a]) == [digest]
    ensures less(a, b) ==> NextLayer(less, [a, b]) == [Pair(a, b)]
  {
    assert [a, b][2..] == [] && [b, a][2..] == [];
  }

  /** The leaves found by undoing every pair hash below a digest. */
  ghost function LeavesUnder(h: Hash): multiset<Hash> {
    match h
    case Zero => multiset{}
    case Leaf(_) => multiset{h}
    case Pair(first, second) => LeavesUnder(first) + LeavesUnder(second)
  }

  ghost function LeavesUnderAll(layer: seq<Hash>): multiset<Hash> {
    if layer == [] then multiset{} else LeavesUnder(layer[0]) + LeavesUnderAll(layer[1..])
  }

  lemma {:induction false} NextLayerKeepsLeaves(less: Order, layer: seq<Hash>)
    ensures LeavesUnderAll(NextLayer(less, layer)) == LeavesUnderAll(layer)
  {
    if |layer| >= 2 {
      NextLayerKeepsLeaves(less, layer[2..]);
      assert layer[1..][0] == layer[1] && layer[1..][1..] == layer[2..];
      var next := NextLayer(less, layer);
      assert next[1..] == NextLayer(less, layer[2..]);
    }
  }

  lemma {:induction false} RootKeepsLeaves(less: Order, leaves: seq<Hash>)
    requires leaves != []
    ensures LeavesUnder(Root(Tree(Layers(less, leaves)))) == LeavesUnderAll(leaves)
    decreases |leaves|
  {
    if |leaves| == 1 {
      assert leaves[1..] == [];
    } else {
      var next := NextLayer(less, leaves);
      RootKeepsLeaves(less, next);
      NextLayerKeepsLeaves(less, leaves);
      RootOfNextLayer(less, leaves);
    }
  }

  lemma RootOfNextLayer(less: Order, leaves: seq<Hash>)
    requires |leaves| > 1
    ensures Root(Tree(Layers(less, leaves))) == Root(Tree(Layers(less, NextLayer(less, leaves))))
  {
    var above := Layers(less, NextLayer(less, leaves));
    assert Layers(less, leaves) == [leaves] + above;
    assert ([leaves] + above)[|above|] == above[|above| - 1];
  }

  lemma {:induction false} LeavesAreTheirOwn(leaves: seq<Hash>)
    requires forall h :: h in leaves ==> h.Leaf?
    ensures LeavesUnderAll(leaves) == multiset(leaves)
  {
    if leaves != [] {
      LeavesAreTheirOwn(leaves[1..]);
      assert leaves[0] in leaves;
      assert leaves == [leaves[0]] + leaves[1..];
    }
  }

  /** Two non-empty lists of leaves of any lengths with the same root are permutations of each other. */
  lemma RootDeterminesLeaves(less: Order, a: seq<Hash>, b: seq<Hash>)
    requires a != [] && b != []
    requires forall h :: h in a + b ==> h.Leaf?
    requires Root(Tree(Layers(less, a))) == Root(Tree(Layers(less, b)))
    ensures multiset(a) == multiset(b)
  {
    assert forall h :: h in a ==> h in a + b;
    assert forall h :: h in b ==> h in a + b;
    RootKeepsLeaves(less, a);
    RootKeepsLeaves(less, b);
    LeavesAreTheirOwn(a);
    LeavesAreTheirOwn(b);
  }

  // ---------------------------------------------------------------- adding and removing a leaf

  function RemoveFirst(s: seq<Hash>, h: Hash): seq<Hash> {
    if s == [] then [] else if s[0] == h then s[1..] else [s[0]] + RemoveFirst(s[1..], h)
  }

  function ComputeMerkletreeWith(less: Order, t: MerkleTreeState, lockhash: Hash): Option<MerkleTreeState> {
    if lockhash in Leaves(t) then None
    else
      SortPermutes(less, Leaves(t) + [lockhash]);
      Some(Tree(Layers(less, Sort(less, Leaves(t) + [lockhash]))))
  }

  function ComputeMerkletreeWithout(less: Order, t: MerkleTreeState, lockhash: Hash): Option<MerkleTreeState> {
    if lockhash !in Leaves(t) then None
    else
      var rest := RemoveFirst(Leaves(t), lockhash);
      SortPermutes(less, rest);
      if rest == [] then Some(EMPTY_TREE) else Some(Tree(Layers(less, Sort(less, rest))))
  }

  /** The tree over exactly the given set of leaves. */
  ghost predicate IsTreeOf(less: Order, t: MerkleTreeState, s: set<Hash>) {
    && Elements(Leaves(t)) == s
    && StrictlySorted(less, Leaves(t))
    && t == if s == {} then EMPTY_TREE else Tree(Layers(less, Leaves(t)))
  }

  /** The tree is a function of the set of leaves: arrival order leaves no trace. */
  lemma TreeIsUnique(less: Order, t: MerkleTreeState, u: MerkleTreeState, s: set<Hash>)
    requires IsStrictTotalOrder(less) && IsTreeOf(less, t, s) && IsTreeOf(less, u, s)
    ensures t == u
  {
    SortedIsUnique(less, Leaves(t), Leaves(u));
  }

  /** Two lists of distinct elements of one set, in whatever order, give the same layers. */
  lemma LayersDependOnElements(less: Order, a: seq<Hash>, b: seq<Hash>)
    requires IsStrictTotalOrder(less) && Distinct(a) && Distinct(b) && Elements(a) == Elements(b)
    ensures Layers(less, Sort(less, a)) == Layers(less, Sort(less, b))
  {
    SortPermutes(less, a);
    SortPermutes(less, b);
    SortSorts(less, a);
    SortSorts(less, b);
    SortedIsUnique(less, Sort(less, a), Sort(less, b));
  }

  lemma WithAddsLeaf(less: Order, t: MerkleTreeState, s: set<Hash>, lockhash: Hash)
    requires IsStrictTotalOrder(less) && IsTreeOf(less, t, s)
    ensures var r := ComputeMerkletreeWith(less, t, lockhash);
      && (r == None <==> lockhash in s)
      && (r.Some? ==> IsTreeOf(less, r.value, s + {lockhash}))
  {
    if lockhash !in s {
      var leaves := Leaves(t) + [lockhash];
      SortedIsDistinct(less, Leaves(t));
      assert lockhash !in Elements(Leaves(t));
      AppendDistinct(Leaves(t), lockhash);
      SortSorts(less, leaves);
      SortPermutes(less, leaves);
      assert lockhash in s + {lockhash};
    }
  }

  lemma WithoutRemovesLeaf(less: Order, t: MerkleTreeState, s: set<Hash>, lockhash: Hash)
    requires IsStrictTotalOrder(less) && IsTreeOf(less, t, s)
    ensures var r := ComputeMerkletreeWithout(less, t, lockhash);
      && (r == None <==> lockhash !in s)
      && (r.Some? ==> IsTreeOf(less, r.value, s - {lockhash}))
  {
    if lockhash in s {
      SortedIsDistinct(less, Leaves(t));
      var rest := RemoveFirst(Leaves(t), lockhash);
      RemoveFirstRemoves(Leaves(t), lockhash);
      SortSorts(less, rest);
      SortPermutes(less, rest);
      assert rest != [] ==> rest[0] in Elements(rest);
    }
  }

  lemma {:induction false} SortedIsDistinct(less: Order, s: seq<Hash>)
    requires IsStrictTotalOrder(less) && StrictlySorted(less, s)
    ensures Distinct(s)
  {
    if s != [] {
      RestIsSorted(less, s);
      SortedIsDistinct(less, s[1..]);
      assert s[0] !in Elements(s[1..]);
    }
  }

  lemma {:induction false} AppendDistinct(s: seq<Hash>, h: Hash)
    requires Distinct(s) && h !in s
    ensures Distinct(s + [h])
    ensures Elements(s + [h]) == Elements(s) + {h}
  {
    if s != [] {
      AppendDistinct(s[1..], h);
      assert (s + [h])[1..] == s[1..] + [h];
    }
  }

  lemma {:induction false} RemoveFirstRemoves(s: seq<Hash>, h: Hash)
    requires Distinct(s)
    ensures Distinct(RemoveFirst(s, h))
    ensures Elements(RemoveFirst(s, h)) == Elements(s) - {h}
  {
    if s != [] {
      ElementsOfCons(s);
      var kept := RemoveFirst(s[1..], h);
      if s[0] != h {
        RemoveFirstRemoves(s[1..], h);
        assert s[0] !in Elements(kept);
        ElementsOfCons([s[0]] + kept);
        assert ([s[0]] + kept)[1..] == kept;
      } else {
        assert h !in Elements(s[1..]);
      }
    }
  }

  /** Removing a leaf right after adding it gives back the tree it was added to. */
  lemma AddThenRemove(less: Order, t: MerkleTreeState, s: set<Hash>, lockhash: Hash)
    requires IsStrictTotalOrder(less) && IsTreeOf(less, t, s) && lockhash !in s
    ensures var added := ComputeMerkletreeWith(less, t, lockhash);
      added.Some? && ComputeMerkletreeWithout(less, added.value, lockhash) == Some(t)
  {
    WithAddsLeaf(less, t, s, lockhash);
    var added := ComputeMerkletreeWith(less, t, lockhash).value;
    WithoutRemovesLeaf(less, added, s + {lockhash}, lockhash);
    assert s + {lockhash} - {lockhash} == s;
    TreeIsUnique(less, t, ComputeMerkletreeWithout(less, added, lockhash).value, s);
  }

  /** Over leaf digests, two trees have the same root exactly when they have the same leaves. */
  lemma SameRootIffSameLeaves(less: Order, t: MerkleTreeState, s: set<Hash>, u: MerkleTreeState, r: set<Hash>)
    requires IsStrictTotalOrder(less) && IsTreeOf(less, t, s) && IsTreeOf(less, u, r)
    requires forall h :: h in s + r ==> h.Leaf?
    ensures Root(t) == Root(u) <==> s == r
  {
    if s == r {
      TreeIsUnique(less, t, u, s);
    } else if Root(t) == Root(u) {
      assert forall h :: h in Leaves(t) ==> h in s;
      assert forall h :: h in Leaves(u) ==> h in r;
      if s == {} {
        RootKeepsLeaves(less, Leaves(u));
        LeavesAreTheirOwn(Leaves(u));
      } else if r == {} {
        RootKeepsLeaves(less, Leaves(t));
        LeavesAreTheirOwn(Leaves(t));
      } else {
        RootDeterminesLeaves(less, Leaves(t), Leaves(u));
        assert forall h :: h in Leaves(t) <==> h in multiset(Leaves(t));
        assert forall h :: h in Leaves(u) <==> h in multiset(Leaves(u));
      }
      assert false;
    }
  }
}
