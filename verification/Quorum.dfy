/** Quorum sizes of a domain of n running nodes (idChain/IdChain.go:99-127, pyramid/PyrShard.go). */
module Quorum {
  // The number of faulty nodes a domain of n nodes is meant to survive.
  function MaliciousAmount(n: nat): int { (n + 2) / 3 - 1 }

  // It is the largest f for which n is more than three times f.
  lemma {:induction false} MaliciousIsLargest(n: nat, f: nat)
    requires n >= 1
    ensures 0 <= MaliciousAmount(n) && (3 * f < n <==> f <= MaliciousAmount(n))
  {
    if f < (n + 2) / 3 {
      assert 3 * f <= 3 * ((n + 2) / 3) - 3;
    }
  }

  function Threshold(n: nat): (t: nat)
    ensures n >= 1 ==> n - MaliciousAmount(n) == t <= n // the honest nodes alone can reach it
    ensures n >= 1 ==> t > MaliciousAmount(n) // and the faulty ones alone cannot
  {
    n - MaliciousAmount(n)
  }

  datatype NodeState = NodeState(activating: bool, sleeping: bool) {
    predicate IsRunning() { !sleeping && activating }
  }

  method RunningNodeAmount(nodeMap: map<nat, NodeState>) returns (ret: nat)
    ensures ret == |set k | k in nodeMap && nodeMap[k].IsRunning()|
  {
    ret := 0;
    var todo := nodeMap.Keys;
    while todo != {}
      invariant todo <= nodeMap.Keys
      invariant ret == |set k | k in nodeMap.Keys - todo && nodeMap[k].IsRunning()|
    {
      var k :| k in todo;
      ghost var counted := set j | j in nodeMap.Keys - todo && nodeMap[j].IsRunning();
      todo := todo - {k};
      ghost var counted' := set j | j in nodeMap.Keys - todo && nodeMap[j].IsRunning();
      if nodeMap[k].IsRunning() {
        ret := ret + 1;
        assert counted' == counted + {k};
      } else {
        assert counted' == counted;
      }
    }
    assert (set k | k in nodeMap.Keys - todo && nodeMap[k].IsRunning()) == set k | k in nodeMap && nodeMap[k].IsRunning();
  }

  lemma {:induction false} SizeOfUnion<T>(a: set<T>, b: set<T>)
    ensures |a + b| + |a * b| == |a| + |b|
  {}

  lemma {:induction false} SizeOfSubset<T>(a: set<T>, b: set<T>)
    requires a <= b
    ensures |a| <= |b|
  {
    assert b == a + (b - a);
  }

  // Two vote sets of Threshold size share more nodes than can be faulty.
  lemma {:induction false} QuorumsIntersect<T>(nodes: set<T>, a: set<T>, b: set<T>)
    requires nodes != {} && a <= nodes && b <= nodes && |a| >= Threshold(|nodes|) && |b| >= Threshold(|nodes|)
    ensures |a * b| > MaliciousAmount(|nodes|)
  {
    SizeOfUnion(a, b);
    SizeOfSubset(a + b, nodes);
  }

  // A vote set of Threshold size contains at least Threshold - f honest nodes, so at least one.
  lemma {:induction false} HonestInQuorum<T>(nodes: set<T>, honest: set<T>, a: set<T>)
    requires nodes != {} && a <= nodes && honest <= nodes && |a| >= Threshold(|nodes|)
    requires |nodes - honest| <= MaliciousAmount(|nodes|)
    ensures |a * honest| >= Threshold(|nodes|) - MaliciousAmount(|nodes|) > 0
  {
    assert a == a * honest + (a - honest);
    SizeOfSubset(a - honest, nodes - honest);
  }
}
