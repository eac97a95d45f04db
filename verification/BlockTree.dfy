/** Block trees: every block but a genesis points at one parent.
    Both ledgers of the repository (the GHOST chain of monoxide and the DAG ledger of Monosulfide)
    keep such a tree, its subtree sizes ("weights") and a current tip. */
module BlockTree {
  // Hashes are collision-free identifiers.
  type Hash = nat

  // parent maps every block but a genesis to its parent; born numbers the blocks by arrival.
  datatype Tree = Tree(parent: map<Hash, Hash>, born: map<Hash, nat>)

  // A parent is stored before its children.
  ghost predicate WellFormed(t: Tree) {
    forall h <- t.parent :: h in t.born && t.parent[h] in t.born && t.born[t.parent[h]] < t.born[h]
  }

  // The blocks on the way from h to its genesis, both included.
  ghost function Anc(t: Tree, h: Hash): set<Hash>
    requires WellFormed(t) && h in t.born
    decreases t.born[h]
  {
    if h in t.parent then {h} + Anc(t, t.parent[h]) else {h}
  }

  // The genesis block h descends from.
  ghost function Root(t: Tree, h: Hash): Hash
    requires WellFormed(t) && h in t.born
    decreases t.born[h]
  {
    if h in t.parent then Root(t, t.parent[h]) else h
  }

  ghost function Children(t: Tree, h: Hash): set<Hash> {
    set c | c in t.parent && t.parent[c] == h
  }

  // h and everything built on it.
  ghost function Subtree(t: Tree, h: Hash): set<Hash>
    requires WellFormed(t)
  {
    set x | x in t.born && h in Anc(t, x)
  }

  // t with the new block h on top of p.
  ghost function Graft(t: Tree, h: Hash, p: Hash, n: nat): Tree {
    Tree(t.parent[h := p], t.born[h := n])
  }

  ghost predicate Grafts(t: Tree, h: Hash, p: Hash, n: nat) {
    && WellFormed(t) && h !in t.born && p in t.born
    && forall x <- t.born :: t.born[x] < n
  }

  lemma {:induction false} AncOlder(t: Tree, a: Hash, h: Hash)
    requires WellFormed(t) && h in t.born && a in Anc(t, h)
    ensures a in t.born && t.born[a] <= t.born[h]
    ensures t.born[a] == t.born[h] ==> a == h
    decreases t.born[h]
  {
    if a != h {
      AncOlder(t, a, t.parent[h]);
    }
  }

  lemma {:induction false} AncTransitive(t: Tree, a: Hash, b: Hash, c: Hash)
    requires WellFormed(t) && c in t.born && b in Anc(t, c) && b in t.born && a in Anc(t, b)
    ensures a in Anc(t, c)
    decreases t.born[c]
  {
    if b != c {
      AncTransitive(t, a, b, t.parent[c]);
    }
  }

  // The ancestors of a block form a chain: of two of them, one is an ancestor of the other.
  lemma {:induction false} AncChain(t: Tree, a: Hash, b: Hash, c: Hash)
    requires WellFormed(t) && c in t.born && a in Anc(t, c) && b in Anc(t, c)
    ensures a in t.born && b in t.born
    ensures a in Anc(t, b) || b in Anc(t, a)
    decreases t.born[c]
  {
    AncOlder(t, a, c);
    AncOlder(t, b, c);
    if a != c && b != c {
      AncChain(t, a, b, t.parent[c]);
    }
  }

  lemma {:induction false} RootIsAncestor(t: Tree, h: Hash)
    requires WellFormed(t) && h in t.born
    ensures Root(t, h) in Anc(t, h) && Root(t, h) in t.born && Root(t, h) !in t.parent
    decreases t.born[h]
  {
    if h in t.parent {
      RootIsAncestor(t, t.parent[h]);
    }
  }

  // Every proper ancestor of h that is on the way to a is h's way down: the child of a towards h.
  lemma {:induction false} ChildTowards(t: Tree, a: Hash, h: Hash) returns (c: Hash)
    requires WellFormed(t) && h in t.born && a in Anc(t, h) && a != h
    ensures c in t.parent && c in t.born && t.parent[c] == a && c in Anc(t, h)
    decreases t.born[h]
  {
    if t.parent[h] == a {
      c := h;
    } else {
      c := ChildTowards(t, a, t.parent[h]);
    }
  }

  // Two different children of one block never have a descendant in common.
  lemma {:induction false} SiblingsApart(t: Tree, c: Hash, d: Hash, h: Hash)
    requires WellFormed(t) && h in t.born && c in Anc(t, h) && d in Anc(t, h)
    requires c in t.parent && d in t.parent && t.parent[c] == t.parent[d]
    ensures c == d
  {
    AncChain(t, c, d, h);
    if c != d {
      if c in Anc(t, d) {
        AncOlder(t, c, t.parent[d]);
      } else {
        AncOlder(t, d, t.parent[c]);
      }
      assert false;
    }
  }

  lemma {:induction false} GraftWellFormed(t: Tree, h: Hash, p: Hash, n: nat)
    requires Grafts(t, h, p, n)
    ensures WellFormed(Graft(t, h, p, n))
  {}

  // A new block leaves the history of every stored block as it was.
  lemma {:induction false} GraftAnc(t: Tree, h: Hash, p: Hash, n: nat, x: Hash)
    requires Grafts(t, h, p, n) && WellFormed(Graft(t, h, p, n)) && x in t.born
    ensures Anc(Graft(t, h, p, n), x) == Anc(t, x)
    ensures Root(Graft(t, h, p, n), x) == Root(t, x)
    decreases t.born[x]
  {
    if x in t.parent {
      GraftAnc(t, h, p, n, t.parent[x]);
    }
  }

  // ... and enlarges by itself exactly the subtrees of its own ancestors.
  lemma {:induction false} GraftSubtree(t: Tree, h: Hash, p: Hash, n: nat, x: Hash)
    requires Grafts(t, h, p, n) && WellFormed(Graft(t, h, p, n))
    ensures h in Graft(t, h, p, n).born
    ensures h !in Subtree(t, x)
    ensures Subtree(Graft(t, h, p, n), x) ==
            if x in Anc(Graft(t, h, p, n), h) then Subtree(t, x) + {h} else Subtree(t, x)
  {
    var g := Graft(t, h, p, n);
    forall y | y in t.born ensures y in Subtree(g, x) <==> y in Subtree(t, x) {
      GraftAnc(t, h, p, n, y);
    }
    forall y | y in g.born ensures y == h || y in t.born {}
  }
}
