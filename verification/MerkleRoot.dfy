/** The root over transaction or sub-block hashes (Tx/transaction.go:32-52), and what it binds; the
    hash function is a parameter. */
module MerkleRoot {
  import opened Content
  import opened Transactions

  const HASH_SIZE := 32

  ghost predicate HashSized(H: Bytes -> Bytes) { forall b :: |H(b)| == HASH_SIZE }

  // All strings have that size.
  predicate Sized(hashes: seq<Bytes>, size: nat) { forall i | 0 <= i < |hashes| :: |hashes[i]| == size }

  // The i-th pair; the last string is paired with itself when it has no partner.
  function Pair(hashes: seq<Bytes>, i: nat): Bytes
    requires 2 * i < |hashes|
  {
    hashes[2 * i] + hashes[if 2 * i + 1 < |hashes| then 2 * i + 1 else 2 * i]
  }

  function NextLevel(H: Bytes -> Bytes, hashes: seq<Bytes>): (next: seq<Bytes>)
    ensures |next| == (|hashes| + 1) / 2
    ensures forall i | 0 <= i < |next| :: next[i] == H(Pair(hashes, i))
  {
    seq((|hashes| + 1) / 2, i requires 0 <= i < (|hashes| + 1) / 2 => H(Pair(hashes, i)))
  }

  function Root(H: Bytes -> Bytes, hashes: seq<Bytes>): Option<Bytes>
    decreases |hashes|
  {
    if |hashes| == 0 then None
    else if |hashes| == 1 then Some(hashes[0])
    else Root(H, NextLevel(H, hashes))
  }

  method GenMPTRoot(H: Bytes -> Bytes, leaves: seq<Bytes>) returns (root: Option<Bytes>)
    ensures root == Root(H, leaves)
  {
    if |leaves| == 0 {
      return None;
    }
    var hashes := leaves;
    while |hashes| > 1
      invariant |hashes| >= 1 && Root(H, hashes) == Root(H, leaves)
      decreases |hashes|
    {
      ghost var before := hashes;
      if |hashes| % 2 != 0 {
        hashes := hashes + [hashes[|hashes| - 1]];
      }
      var newLevel: seq<Bytes> := [];
      var i := 0;
      while i < |hashes|
        invariant 0 <= i <= |hashes| && i % 2 == 0 && |newLevel| == i / 2
        invariant forall k | 0 <= k < |newLevel| :: newLevel[k] == H(Pair(before, k))
      {
        var combined := hashes[i] + hashes[i + 1];
        assert combined == Pair(before, i / 2);
        var newHash := H(combined);
        newLevel := newLevel + [newHash];
        i := i + 2;
      }
      assert newLevel == NextLevel(H, before);
      hashes := newLevel;
    }
    return Some(hashes[0]);
  }

  // The strings hashed on the way to the root.
  function Inputs(H: Bytes -> Bytes, hashes: seq<Bytes>): set<Bytes>
    decreases |hashes|
  {
    if |hashes| <= 1 then {}
    else (set i | 0 <= i < (|hashes| + 1) / 2 :: Pair(hashes, i)) + Inputs(H, NextLevel(H, hashes))
  }

  // Two different lists of equal length with equal roots give two inputs on which the hash collides.
  lemma {:induction false} EqualRootsCollide(H: Bytes -> Bytes, a: seq<Bytes>, b: seq<Bytes>, size: nat) returns (x: Bytes, y: Bytes)
    requires HashSized(H) && Sized(a, size) && Sized(b, size) && |a| == |b|
    requires Root(H, a) == Root(H, b) && a != b
    ensures x in Inputs(H, a) && y in Inputs(H, b) && x != y && H(x) == H(y)
    decreases |a|
  {
    if |a| <= 1 {
      RootOfFew(H, a, b);
    }
    var na, nb := NextLevel(H, a), NextLevel(H, b);
    if na != nb {
      x, y := EqualRootsCollide(H, na, nb, HASH_SIZE);
    } else {
      var i :| 0 <= i < |a| && a[i] != b[i];
      var p := i / 2;
      x, y := Pair(a, p), Pair(b, p);
      assert na[p] == nb[p];
      HalvesDiffer(a, b, size, i);
    }
  }

  lemma {:induction false} RootOfFew(H: Bytes -> Bytes, a: seq<Bytes>, b: seq<Bytes>)
    requires |a| == |b| <= 1
    ensures Root(H, a) == Root(H, b) ==> a == b
  {
    if |a| == 1 && a[0] == b[0] {
      assert a == [a[0]] && b == [b[0]];
    }
  }

  lemma {:induction false} HalvesDiffer(a: seq<Bytes>, b: seq<Bytes>, size: nat, i: nat)
    requires Sized(a, size) && Sized(b, size) && |a| == |b| && i < |a| && a[i] != b[i]
    ensures Pair(a, i / 2) != Pair(b, i / 2)
  {
    var x, y, j := Pair(a, i / 2), Pair(b, i / 2), 2 * (i / 2);
    var k := if j + 1 < |a| then j + 1 else j;
    assert x[..size] == a[j] && y[..size] == b[j];
    assert x[size..] == a[k] && y[size..] == b[k];
  }

  function Power2(k: nat): nat { if k == 0 then 1 else 2 * Power2(k - 1) }

  // The root of two halves of full size is the hash of their roots, left before right.
  lemma {:induction false} RootOfHalves(H: Bytes -> Bytes, a: seq<Bytes>, b: seq<Bytes>, k: nat)
    requires |a| == |b| == Power2(k)
    ensures Root(H, a).Some? && Root(H, b).Some? && Root(H, a + b) == Some(H(Root(H, a).value + Root(H, b).value))
    decreases k
  {
    if k == 0 {
      assert NextLevel(H, a + b) == [H(a[0] + b[0])];
    } else {
      var na, nb := NextLevel(H, a), NextLevel(H, b);
      RootOfHalves(H, na, nb, k - 1);
      forall i | 0 <= i < |a| ensures Pair(a + b, i) == if i < |na| then Pair(a, i) else Pair(b, i - |na|) {
      }
      assert NextLevel(H, a + b) == na + nb;
      PowerPositive(k);
    }
  }

  lemma {:induction false} PowerPositive(k: nat)
    ensures Power2(k) >= 1
  {
    if k > 0 {
      PowerPositive(k - 1);
    }
  }

  // Doubling the last of an odd number of strings keeps the root.
  lemma {:induction false} DoubledLastKeepsRoot(H: Bytes -> Bytes, a: seq<Bytes>)
    requires |a| > 1 && |a| % 2 == 1
    ensures Root(H, a + [a[|a| - 1]]) == Root(H, a)
  {
    var b := a + [a[|a| - 1]];
    forall i | 0 <= i < (|a| + 1) / 2 ensures Pair(b, i) == Pair(a, i) {
    }
    assert NextLevel(H, b) == NextLevel(H, a);
  }

  ghost predicate Collides(H: Bytes -> Bytes, inputs: set<Bytes>) {
    exists x, y :: x in inputs && y in inputs && x != y && H(x) == H(y)
  }

  // A root shared by different lists of m and n hashes comes from a collision among the strings
  // hashed on the way to it.
  ghost predicate Binds(H: Bytes -> Bytes, m: nat, n: nat) {
    forall a, b | |a| == m && |b| == n && Sized(a, HASH_SIZE) && Sized(b, HASH_SIZE) && Root(H, a) == Root(H, b) && a != b ::
      Collides(H, Inputs(H, a) + Inputs(H, b))
  }

  // Whatever the hash function: the root binds the list when the length is known, and never binds
  // two different lengths.
  lemma {:induction false} BindsIff(H: Bytes -> Bytes, m: nat, n: nat)
    requires HashSized(H)
    ensures Binds(H, m, n) <==> m == n || m == 0 || n == 0
  {
    hide Inputs, Root, Sized;
    if m == n {
      forall a, b | |a| == m && |b| == n && Sized(a, HASH_SIZE) && Sized(b, HASH_SIZE) && Root(H, a) == Root(H, b) && a != b
        ensures Collides(H, Inputs(H, a) + Inputs(H, b))
      {
        var x, y := EqualRootsCollide(H, a, b, HASH_SIZE);
      }
    } else if m > 0 && n > 0 {
      var core := InjectiveCore(H, AllStrings(HASH_SIZE)) by { AllStringsStable(H); }
      var a, b := SameRoot(H, core, m, n);
      DoublesDoNotCollide(H, core, Inputs(H, a) + Inputs(H, b));
    } else {
      EmptyRoot(H, m, n);
    }
  }

  lemma {:induction false} EmptyRoot(H: Bytes -> Bytes, m: nat, n: nat)
    requires m != n && (m == 0 || n == 0)
    ensures Binds(H, m, n)
  {
    forall a, b | |a| == m && |b| == n ensures Root(H, a) != Root(H, b) {
      RootExists(H, a);
      RootExists(H, b);
    }
  }

  lemma {:induction false} RootExists(H: Bytes -> Bytes, a: seq<Bytes>)
    ensures Root(H, a) == None <==> a == []
    decreases |a|
  {
    if |a| > 1 {
      RootExists(H, NextLevel(H, a));
    }
  }

  // What one level makes of a list of equal strings.
  function Up(H: Bytes -> Bytes, c: Bytes): Bytes { H(c + c) }

  function Iterate(H: Bytes -> Bytes, c: Bytes, k: nat): Bytes
    decreases k
  {
    if k == 0 then c else Iterate(H, Up(H, c), k - 1)
  }

  function Levels(m: nat): nat { if m <= 1 then 0 else 1 + Levels((m + 1) / 2) }

  function Repeat(c: Bytes, m: nat): seq<Bytes> { seq(m, _ => c) }

  ghost predicate Stable(H: Bytes -> Bytes, s: set<Bytes>) {
    forall c <- s :: |c| == HASH_SIZE && Up(H, c) in s
  }

  ghost predicate Injective(H: Bytes -> Bytes, s: set<Bytes>) {
    forall c, d | c in s && d in s && Up(H, c) == Up(H, d) :: c == d
  }

  ghost function AllStrings(n: nat): set<Bytes> {
    if n == 0 then {[]} else set s, b: Byte | s in AllStrings(n - 1) && 0 <= b < 256 :: s + [b]
  }

  lemma {:induction false} AllStringsHas(s: Bytes, n: nat)
    ensures s in AllStrings(n) <==> |s| == n
    decreases n
  {
    if n > 0 {
      forall t: Bytes ensures t in AllStrings(n - 1) <==> |t| == n - 1 {
        AllStringsHas(t, n - 1);
      }
      if |s| == n {
        assert s == s[..n - 1] + [s[n - 1]];
      }
    }
  }

  lemma {:induction false} AllStringsStable(H: Bytes -> Bytes)
    requires HashSized(H)
    ensures Stable(H, AllStrings(HASH_SIZE)) && AllStrings(HASH_SIZE) != {}
  {
    hide AllStrings;
    forall s: Bytes ensures s in AllStrings(HASH_SIZE) <==> |s| == HASH_SIZE {
      AllStringsHas(s, HASH_SIZE);
    }
    assert H([]) in AllStrings(HASH_SIZE);
  }

  ghost function Image(H: Bytes -> Bytes, s: set<Bytes>): set<Bytes> { set c | c in s :: Up(H, c) }

  lemma {:induction false} ImageSize(H: Bytes -> Bytes, s: set<Bytes>)
    ensures |Image(H, s)| <= |s|
  {
    if s != {} {
      var c :| c in s;
      ImageSize(H, s - {c});
      ImageSplit(H, s, c);
    }
  }

  lemma {:induction false} ImageSplit(H: Bytes -> Bytes, s: set<Bytes>, c: Bytes)
    requires c in s
    ensures Image(H, s) == Image(H, s - {c}) + {Up(H, c)}
  {
    hide Up;
  }

  lemma {:induction false} ImageShrinks(H: Bytes -> Bytes, s: set<Bytes>, c: Bytes, d: Bytes)
    requires c in s && d in s && c != d && Up(H, c) == Up(H, d)
    ensures |Image(H, s)| < |s|
  {
    hide Up;
    ImageSplit(H, s, c);
    assert d in s - {c};
    assert Up(H, d) in Image(H, s - {c});
    assert Image(H, s) == Image(H, s - {c});
    ImageSize(H, s - {c});
  }

  lemma {:induction false} ImageStable(H: Bytes -> Bytes, s: set<Bytes>)
    requires Stable(H, s) && s != {}
    ensures Stable(H, Image(H, s)) && Image(H, s) != {}
  {
    hide Up;
    var c :| c in s;
    assert Up(H, c) in Image(H, s);
  }

  // On a finite set each pass that is not injective loses a string, so an injective one is reached.
  lemma {:induction false} InjectiveCore(H: Bytes -> Bytes, s: set<Bytes>) returns (core: set<Bytes>)
    requires Stable(H, s) && s != {}
    ensures core != {} && Stable(H, core) && Injective(H, core)
    decreases |s|
  {
    hide Stable, Up, Image;
    if Injective(H, s) {
      core := s;
    } else {
      var c, d :| c in s && d in s && Up(H, c) == Up(H, d) && c != d;
      ImageShrinks(H, s, c, d);
      ImageStable(H, s);
      core := InjectiveCore(H, Image(H, s));
    }
  }

  lemma {:induction false} IterateOnce(H: Bytes -> Bytes, c: Bytes, j: nat, k: nat)
    ensures Iterate(H, Iterate(H, c, j), k) == Iterate(H, c, j + k)
    decreases j
  {
    if j > 0 {
      IterateOnce(H, Up(H, c), j - 1, k);
    }
  }

  lemma {:induction false} IterateStays(H: Bytes -> Bytes, s: set<Bytes>, c: Bytes, k: nat)
    requires Stable(H, s) && c in s
    ensures Iterate(H, c, k) in s
    decreases k
  {
    if k > 0 {
      IterateStays(H, s, Up(H, c), k - 1);
    }
  }

  ghost function Doubles(s: set<Bytes>): set<Bytes> { set c | c in s :: c + c }

  lemma {:induction false} RootOfRepeat(H: Bytes -> Bytes, s: set<Bytes>, c: Bytes, m: nat)
    requires Stable(H, s) && c in s && m > 0
    ensures Root(H, Repeat(c, m)) == Some(Iterate(H, c, Levels(m)))
    ensures Inputs(H, Repeat(c, m)) <= Doubles(s)
    decreases m
  {
    if m > 1 {
      assert NextLevel(H, Repeat(c, m)) == Repeat(Up(H, c), (m + 1) / 2);
      RootOfRepeat(H, s, Up(H, c), (m + 1) / 2);
      assert c + c in Doubles(s);
    }
  }

  // Lists of any two lengths that have one root, made of doubled strings only.
  lemma {:induction false} SameRoot(H: Bytes -> Bytes, s: set<Bytes>, m: nat, n: nat) returns (a: seq<Bytes>, b: seq<Bytes>)
    requires Stable(H, s) && s != {} && m > 0 && n > 0
    ensures |a| == m && |b| == n && Sized(a, HASH_SIZE) && Sized(b, HASH_SIZE) && Root(H, a) == Root(H, b)
    ensures Inputs(H, a) + Inputs(H, b) <= Doubles(s)
    decreases Levels(n)
  {
    hide Inputs, Root;
    if Levels(m) < Levels(n) {
      b, a := SameRoot(H, s, n, m);
    } else {
      var c :| c in s;
      var k := Levels(m) - Levels(n);
      var d := Iterate(H, c, k);
      IterateStays(H, s, c, k);
      IterateOnce(H, c, k, Levels(n));
      RootOfRepeat(H, s, c, m);
      RootOfRepeat(H, s, d, n);
      a, b := Repeat(c, m), Repeat(d, n);
    }
  }

  lemma {:induction false} DoublesDoNotCollide(H: Bytes -> Bytes, s: set<Bytes>, inputs: set<Bytes>)
    requires Injective(H, s) && inputs <= Doubles(s)
    ensures !Collides(H, inputs)
  {
    forall x, y | x in inputs && y in inputs && H(x) == H(y) ensures x == y {
      var c :| c in s && x == c + c;
      var d :| d in s && y == d + d;
      assert Up(H, c) == Up(H, d);
    }
  }

  function Hashes(H: Bytes -> Bytes, heads: seq<Bytes>): (r: seq<Bytes>)
    ensures |r| == |heads| && forall i | 0 <= i < |r| :: r[i] == H(heads[i])
  {
    seq(|heads|, i requires 0 <= i < |heads| => H(heads[i]))
  }

  // A received block is checked against the root in its header; None is an index out of range.
  // Missing sub-blocks leave an empty string.
  method VerifyRemoteBlock(H: Bytes -> Bytes, subBlocks: seq<Bytes>, shardAmount: nat, subBlockRoot: Option<Bytes>) returns (ok: Option<bool>)
    ensures ok == None <==> |subBlocks| > shardAmount
    ensures ok == Some(true) && |subBlocks| == shardAmount ==> subBlockRoot == Root(H, Hashes(H, subBlocks))
    ensures |subBlocks| == shardAmount && subBlockRoot == Root(H, Hashes(H, subBlocks)) ==> ok == Some(true)
  {
    var hashes: seq<Bytes> := seq(shardAmount, _ => []);
    for i := 0 to |subBlocks|
      invariant |hashes| == shardAmount && i <= shardAmount && forall k | 0 <= k < i :: hashes[k] == H(subBlocks[k])
    {
      if i >= |hashes| {
        return None;
      }
      hashes := hashes[i := H(subBlocks[i])];
    }
    assert |subBlocks| == shardAmount ==> hashes == Hashes(H, subBlocks);
    var root := GenMPTRoot(H, hashes);
    return Some(subBlockRoot == root);
  }

  // With the number of shards fixed, two different lists of sub-block heads with the same root give
  // a collision of the hash.
  lemma {:induction false} SubBlockRootBindsHeads(H: Bytes -> Bytes, heads: seq<Bytes>, others: seq<Bytes>) returns (x: Bytes, y: Bytes)
    requires HashSized(H) && |heads| == |others| && heads != others
    requires Root(H, Hashes(H, heads)) == Root(H, Hashes(H, others))
    ensures x != y && H(x) == H(y)
  {
    var a, b := Hashes(H, heads), Hashes(H, others);
    if a == b {
      var i :| 0 <= i < |heads| && heads[i] != others[i];
      assert a[i] == b[i];
      x, y := heads[i], others[i];
    } else {
      x, y := EqualRootsCollide(H, a, b, HASH_SIZE);
    }
  }
}
