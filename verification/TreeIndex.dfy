/** The per-block indexes both ledgers cache beside the tree: subtree sizes and child lists. */
module TreeIndex {
  import opened BlockTree
  import opened Transactions

  ghost function WeightOf(t: Tree, h: Hash): nat
    requires WellFormed(t)
  {
    |Subtree(t, h)|
  }

  lemma {:induction false} SameRoot(t: Tree, a: Hash, h: Hash)
    requires WellFormed(t) && h in t.born && a in Anc(t, h) && a in t.born
    ensures Root(t, a) == Root(t, h)
    decreases t.born[h]
  {
    if a != h {
      SameRoot(t, a, t.parent[h]);
    }
  }

  lemma {:induction false} RootIsGenesis(t: Tree, g: Hash)
    requires WellFormed(t) && g in t.born && Root(t, g) == g
    ensures g !in t.parent && Anc(t, g) == {g}
  {
    RootIsAncestor(t, g);
  }

  lemma {:induction false} AncSubset(t: Tree, a: Hash, h: Hash)
    requires WellFormed(t) && h in t.born && a in t.born && a in Anc(t, h)
    ensures Anc(t, a) <= Anc(t, h)
  {
    forall x | x in Anc(t, a) ensures x in Anc(t, h) {
      AncTransitive(t, x, a, h);
    }
  }

  lemma {:induction false} StepDown(t: Tree, h: Hash, x: Hash)
    requires WellFormed(t) && h in t.born && x in t.parent && x in Anc(t, h)
    ensures Anc(t, h) - Anc(t, t.parent[x]) == (Anc(t, h) - Anc(t, x)) + {x}
  {
    if x in Anc(t, t.parent[x]) {
      AncOlder(t, x, t.parent[x]);
    }
  }

  // A new block adds one to the weight of each of its ancestors and of itself, and to nothing else.
  lemma {:induction false} GraftWeight(t: Tree, h: Hash, p: Hash, n: nat, x: Hash)
    requires Grafts(t, h, p, n) && WellFormed(Graft(t, h, p, n))
    ensures h in Graft(t, h, p, n).born
    ensures WeightOf(Graft(t, h, p, n), x) == WeightOf(t, x) + (if x in Anc(Graft(t, h, p, n), h) then 1 else 0)
  {
    GraftSubtree(t, h, p, n, x);
  }

  lemma {:induction false} UnbornWeighsNothing(t: Tree, h: Hash)
    requires WellFormed(t) && h !in t.born
    ensures WeightOf(t, h) == 0
  {
    forall y | y in Subtree(t, h) ensures false {
      AncOlder(t, h, y);
    }
    assert Subtree(t, h) == {};
  }

  lemma {:induction false} WeightPositive(t: Tree, h: Hash)
    requires WellFormed(t) && h in t.born
    ensures WeightOf(t, h) >= 1
  {
    assert h in Subtree(t, h);
  }

  // The entry of a map of slices; an absent key reads as the empty slice.
  function At<K, V>(m: map<K, seq<V>>, k: K): seq<V> { if k in m then m[k] else [] }

  // The entry of a map of counters; an absent key reads as zero.
  function Count<K>(m: map<K, nat>, k: K): nat { if k in m then m[k] else 0 }

  ghost predicate WeightsAgree(t: Tree, weight: map<Hash, nat>)
    requires WellFormed(t)
  {
    forall h <- t.parent :: Count(weight, h) == WeightOf(t, h)
  }

  ghost predicate PathsAgree(t: Tree, path: map<Hash, seq<Hash>>) {
    forall h :: Elements(At(path, h)) == Children(t, h) && |At(path, h)| == |Children(t, h)|
  }

  lemma {:induction false} WeightsAfterGraft(t: Tree, weight: map<Hash, nat>, weight': map<Hash, nat>, h: Hash, p: Hash, n: nat)
    requires Grafts(t, h, p, n) && WellFormed(Graft(t, h, p, n)) && h in Graft(t, h, p, n).born
    requires WeightsAgree(t, weight) && forall x <- weight :: x in t.parent
    requires forall x :: Count(weight', x) == Count(weight, x)
                + (if x in Graft(t, h, p, n).parent && x in Anc(Graft(t, h, p, n), h) then 1 else 0)
    ensures WeightsAgree(Graft(t, h, p, n), weight')
  {
    UnbornWeighsNothing(t, h);
    forall x | x in Graft(t, h, p, n).parent ensures Count(weight', x) == WeightOf(Graft(t, h, p, n), x) {
      GraftWeight(t, h, p, n, x);
    }
  }

  lemma {:induction false} GraftChildren(t: Tree, h: Hash, p: Hash, n: nat, x: Hash)
    requires Grafts(t, h, p, n)
    ensures Children(Graft(t, h, p, n), x) == if x == p then Children(t, x) + {h} else Children(t, x)
    ensures h !in Children(t, x)
  {}

  lemma {:induction false} PathsAfterGraft(t: Tree, path: map<Hash, seq<Hash>>, h: Hash, p: Hash, n: nat)
    requires Grafts(t, h, p, n) && PathsAgree(t, path)
    ensures PathsAgree(Graft(t, h, p, n), path[p := At(path, p) + [h]])
  {
    hide Children, Graft, Grafts, Elements;
    var t' := Graft(t, h, p, n);
    var path' := path[p := At(path, p) + [h]];
    forall x ensures Elements(At(path', x)) == Children(t', x) && |At(path', x)| == |Children(t', x)| {
      GraftChildren(t, h, p, n, x);
      assert Elements(At(path, x)) == Children(t, x);
      if x == p {
        ElementsAppend(At(path, p), h);
      }
    }
  }

  ghost predicate Ascending(t: Tree, hs: seq<Hash>) {
    forall i, j | 0 <= i < j < |hs| :: hs[i] in t.born && hs[j] in t.born && t.born[hs[i]] < t.born[hs[j]]
  }

  // Children are listed in the order in which they arrived.
  ghost predicate InOrder(t: Tree, path: map<Hash, seq<Hash>>) {
    forall h :: Ascending(t, At(path, h))
  }

  lemma {:induction false} OrderAfterGraft(t: Tree, path: map<Hash, seq<Hash>>, h: Hash, p: Hash, n: nat)
    requires Grafts(t, h, p, n) && PathsAgree(t, path) && InOrder(t, path)
    ensures InOrder(Graft(t, h, p, n), path[p := At(path, p) + [h]])
  {
    hide Ascending;
    var t', path' := Graft(t, h, p, n), path[p := At(path, p) + [h]];
    forall x ensures Ascending(t', At(path', x)) {
      assert Elements(At(path, x)) == Children(t, x);
      OneMoreArrived(t, At(path, x), h, p, n);
    }
  }

  lemma {:induction false} OneMoreArrived(t: Tree, hs: seq<Hash>, h: Hash, p: Hash, n: nat)
    requires Grafts(t, h, p, n) && Ascending(t, hs) && forall x <- Elements(hs) :: x in t.born
    ensures Ascending(Graft(t, h, p, n), hs) && Ascending(Graft(t, h, p, n), hs + [h])
  {
    forall i | 0 <= i < |hs| ensures hs[i] in t.born && hs[i] != h {
      assert hs[i] in Elements(hs);
    }
  }
}
