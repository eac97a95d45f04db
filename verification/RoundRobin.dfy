/** The round-robin choice of transactions for a block (Tx/TxPool.go:100-122, 152-172). */
module RoundRobin {
  function Min(a: nat, b: nat): nat { if a < b then a else b }

  function Sum(ks: seq<nat>): nat {
    if ks == [] then 0 else Sum(ks[..|ks| - 1]) + ks[|ks| - 1]
  }

  function Lengths<T>(lists: seq<seq<T>>): (l: seq<nat>)
    ensures |l| == |lists| && forall i | 0 <= i < |l| :: l[i] == |lists[i]|
  {
    seq(|lists|, i requires 0 <= i < |lists| => |lists[i]|)
  }

  predicate Within(lens: seq<nat>, ks: seq<nat>) {
    |ks| == |lens| && forall i | 0 <= i < |ks| :: ks[i] <= lens[i]
  }

  // How many are taken of each list: as many in total as fit and exist, and a list that is not
  // exhausted is at most one behind the lists before it and not behind those after it.
  predicate Fair(lens: seq<nat>, max: nat, ks: seq<nat>) {
    && Within(lens, ks)
    && Sum(ks) == Min(max, Sum(lens))
    && forall i, j | 0 <= i < |ks| && 0 <= j < |ks| && ks[i] < lens[i] :: ks[j] <= ks[i] + (if j < i then 1 else 0)
  }

  lemma {:induction false} SumUpdate(ks: seq<nat>, i: nat, v: nat)
    requires i < |ks|
    ensures Sum(ks[i := v]) == Sum(ks) - ks[i] + v
    decreases |ks|
  {
    var n := |ks| - 1;
    if i < n {
      SumUpdate(ks[..n], i, v);
      assert ks[i := v][..n] == ks[..n][i := v];
    } else {
      assert ks[i := v][..n] == ks[..n];
    }
  }

  lemma {:induction false} SumMonotone(a: seq<nat>, b: seq<nat>)
    requires Within(b, a)
    ensures Sum(a) <= Sum(b) && (Sum(a) == Sum(b) ==> a == b)
  {
    if a != [] {
      var n := |a| - 1;
      SumMonotone(a[..n], b[..n]);
      if Sum(a) == Sum(b) {
        assert a == a[..n] + [a[n]] && b == b[..n] + [b[n]];
      }
    }
  }

  lemma {:induction false} LargerSomewhere(a: seq<nat>, b: seq<nat>) returns (i: nat)
    requires |a| == |b| && Sum(a) <= Sum(b) && a != b
    ensures i < |a| && a[i] < b[i]
  {
    if forall i | 0 <= i < |a| :: b[i] <= a[i] {
      SumMonotone(b, a);
      assert false;
    }
    i :| 0 <= i < |a| && a[i] < b[i];
  }

  // There is only one fair choice.
  lemma {:induction false} FairIsUnique(lens: seq<nat>, max: nat, a: seq<nat>, b: seq<nat>)
    requires Fair(lens, max, a) && Fair(lens, max, b)
    ensures a == b
  {
    hide Sum;
    if a != b {
      var i := LargerSomewhere(a, b);
      var j := LargerSomewhere(b, a);
    }
  }

  // The counts when the lists before dest have been served in this round.
  function Level(lens: seq<nat>, round: nat, dest: nat): (ks: seq<nat>)
    ensures |ks| == |lens| && forall i | 0 <= i < |ks| :: ks[i] == Min(lens[i], if i < dest then round + 1 else round)
  {
    seq(|lens|, i requires 0 <= i < |lens| => Min(lens[i], if i < dest then round + 1 else round))
  }

  lemma {:induction false} LevelStep(lens: seq<nat>, round: nat, dest: nat)
    requires dest < |lens|
    ensures var a, b := Level(lens, round, dest), Level(lens, round, dest + 1);
            b == (if lens[dest] > round then a[dest := round + 1] else a)
            && Sum(b) == Sum(a) + (if lens[dest] > round then 1 else 0)
  {
    var a, b := Level(lens, round, dest), Level(lens, round, dest + 1);
    SumUpdate(a, dest, round + 1);
    if lens[dest] > round {
      assert b == a[dest := round + 1];
    } else {
      assert b == a;
    }
  }

  lemma {:induction false} SumZeros(ks: seq<nat>)
    requires forall i | 0 <= i < |ks| :: ks[i] == 0
    ensures Sum(ks) == 0
  {
    if ks != [] {
      SumZeros(ks[..|ks| - 1]);
    }
  }

  // Stopping because the block is full, or because a round found nothing, leaves a fair choice.
  lemma {:induction false} StopIsFair(lens: seq<nat>, max: nat, round: nat, dest: nat)
    requires dest <= |lens|
    requires Sum(Level(lens, round, dest)) <= max
    requires Sum(Level(lens, round, dest)) == max || forall i | 0 <= i < |lens| :: lens[i] <= round
    ensures Fair(lens, max, Level(lens, round, dest))
  {
    hide Sum;
    var ks := Level(lens, round, dest);
    SumMonotone(ks, lens);
    if forall i | 0 <= i < |lens| :: lens[i] <= round {
      assert ks == lens;
    }
  }

  // What is taken, in the order of taking.
  function Interleaved<T>(lists: seq<seq<T>>, round: nat, dest: nat): seq<T>
    requires dest <= |lists|
    decreases round, dest
  {
    if dest > 0 then
      Interleaved(lists, round, dest - 1) + (if |lists[dest - 1]| > round then [lists[dest - 1][round]] else [])
    else if round > 0 then Interleaved(lists, round - 1, |lists|)
    else []
  }

  predicate Fits<T>(lists: seq<seq<T>>, ks: seq<nat>) {
    |ks| == |lists| && forall i | 0 <= i < |ks| :: ks[i] <= |lists[i]|
  }

  // The beginnings of the lists, of the lengths ks, all together.
  function Prefixes<T>(lists: seq<seq<T>>, ks: seq<nat>): multiset<T>
    requires Fits(lists, ks)
    decreases |lists|
  {
    if lists == [] then multiset{}
    else
      var n := |lists| - 1;
      Prefixes(lists[..n], ks[..n]) + multiset(lists[n][..ks[n]])
  }

  lemma {:induction false} PrefixesStep<T>(lists: seq<seq<T>>, ks: seq<nat>, i: nat)
    requires Fits(lists, ks) && i < |lists| && ks[i] < |lists[i]|
    ensures Fits(lists, ks[i := ks[i] + 1])
    ensures Prefixes(lists, ks[i := ks[i] + 1]) == Prefixes(lists, ks) + multiset{lists[i][ks[i]]}
    decreases |lists|
  {
    var n := |lists| - 1;
    var more := ks[i := ks[i] + 1];
    var head, few := lists[..n], ks[..n];
    if i < n {
      PrefixesStep(head, few, i);
      assert more[..n] == few[i := few[i] + 1];
      assert lists[n][..more[n]] == lists[n][..ks[n]];
    } else {
      assert more[..n] == few;
      OneMore(lists[n], ks[n]);
    }
  }

  lemma {:induction false} OneMore<T>(list: seq<T>, k: nat)
    requires k < |list|
    ensures multiset(list[..k + 1]) == multiset(list[..k]) + multiset{list[k]}
  {
    assert list[..k + 1] == list[..k] + [list[k]];
  }

  lemma {:induction false} PrefixesZero<T>(lists: seq<seq<T>>, ks: seq<nat>)
    requires Fits(lists, ks) && forall i | 0 <= i < |ks| :: ks[i] == 0
    ensures Prefixes(lists, ks) == multiset{}
    decreases |lists|
  {
    if lists != [] {
      var n := |lists| - 1;
      PrefixesZero(lists[..n], ks[..n]);
    }
  }

  ghost predicate Flattened<T>(lists: seq<seq<T>>, ks: seq<nat>, flat: seq<T>) {
    Fits(lists, ks) && multiset(flat) == Prefixes(lists, ks) && |flat| == Sum(ks)
  }

  lemma {:induction false} FlattenedStep<T>(lists: seq<seq<T>>, ks: seq<nat>, flat: seq<T>, i: nat)
    requires Flattened(lists, ks, flat) && i < |lists| && ks[i] < |lists[i]|
    ensures Flattened(lists, ks[i := ks[i] + 1], flat + [lists[i][ks[i]]])
  {
    hide Sum, Prefixes;
    PrefixesStep(lists, ks, i);
    SumUpdate(ks, i, ks[i] + 1);
    Appended(flat, lists[i][ks[i]]);
  }

  lemma {:induction false} FlattenedStart<T>(lists: seq<seq<T>>)
    ensures Flattened(lists, Level(Lengths(lists), 0, 0), [])
  {
    PrefixesZero(lists, Level(Lengths(lists), 0, 0));
    SumZeros(Level(Lengths(lists), 0, 0));
  }

  // The flat sequence holds exactly the beginnings of the lists.
  lemma {:induction false} InterleavedIsPrefixes<T>(lists: seq<seq<T>>, round: nat, dest: nat)
    requires dest <= |lists|
    ensures Flattened(lists, Level(Lengths(lists), round, dest), Interleaved(lists, round, dest))
    decreases round, dest
  {
    hide Flattened, Interleaved, Level, Lengths, Sum;
    InterleavedCases(lists, round, dest);
    var lens := Lengths(lists);
    if dest > 0 {
      InterleavedIsPrefixes(lists, round, dest - 1);
      LevelStep(lens, round, dest - 1);
      ServedNext(lists, round, dest - 1);
      if |lists[dest - 1]| > round {
        FlattenedStep(lists, Level(lens, round, dest - 1), Interleaved(lists, round, dest - 1), dest - 1);
      }
    } else if round > 0 {
      InterleavedIsPrefixes(lists, round - 1, |lists|);
      RoundEnds(lens, round - 1);
      ServedNext(lists, round, 0);
    } else {
      FlattenedStart(lists);
    }
  }

  lemma {:induction false} ServedNext<T>(lists: seq<seq<T>>, round: nat, dest: nat)
    ensures |Lengths(lists)| == |lists| && |Level(Lengths(lists), round, dest)| == |lists|
    ensures dest < |lists| ==> Lengths(lists)[dest] == |lists[dest]| && Level(Lengths(lists), round, dest)[dest] == Min(|lists[dest]|, round)
  {
  }

  lemma {:induction false} RoundEnds(lens: seq<nat>, round: nat)
    ensures Level(lens, round, |lens|) == Level(lens, round + 1, 0)
  {
  }

  lemma {:induction false} InterleavedCases<T>(lists: seq<seq<T>>, round: nat, dest: nat)
    requires dest <= |lists|
    ensures Interleaved(lists, 0, 0) == []
    ensures dest == 0 && round > 0 ==> Interleaved(lists, round, 0) == Interleaved(lists, round - 1, |lists|)
    ensures dest > 0 ==> Interleaved(lists, round, dest) ==
                           Interleaved(lists, round, dest - 1) + (if |lists[dest - 1]| > round then [lists[dest - 1][round]] else [])
    ensures dest > 0 && |lists[dest - 1]| <= round ==> Interleaved(lists, round, dest) == Interleaved(lists, round, dest - 1)
  {
  }

  lemma {:induction false} Appended<T>(s: seq<T>, x: T)
    ensures multiset(s + [x]) == multiset(s) + multiset{x}
  {
  }

  // A fair choice, list by list: a beginning of each list.
  ghost predicate PerListChoice<T>(lists: seq<seq<T>>, max: nat, chosen: seq<seq<T>>) {
    && Fair(Lengths(lists), max, Lengths(chosen)) && |chosen| == |lists|
    && forall i | 0 <= i < |lists| :: chosen[i] <= lists[i]
  }

  // A fair choice in the order of taking.
  ghost predicate FlatChoice<T>(lists: seq<seq<T>>, max: nat, chosen: seq<T>) {
    exists round: nat, dest: nat :: dest <= |lists| && FlatAt(lists, max, round, dest) && chosen == Interleaved(lists, round, dest)
  }

  ghost predicate FlatAt<T>(lists: seq<seq<T>>, max: nat, round: nat, dest: nat) {
    Fair(Lengths(lists), max, Level(Lengths(lists), round, dest))
  }

  // Later in the rounds means longer.
  lemma {:induction false} InterleavedGrows<T>(lists: seq<seq<T>>, r1: nat, d1: nat, r2: nat, d2: nat)
    requires d1 <= |lists| && d2 <= |lists| && (r1 < r2 || (r1 == r2 && d1 <= d2))
    ensures Interleaved(lists, r1, d1) <= Interleaved(lists, r2, d2)
    decreases r2, d2
  {
    hide Interleaved;
    InterleavedCases(lists, r2, d2);
    if r1 != r2 || d1 != d2 {
      if d2 > 0 {
        InterleavedGrows(lists, r1, d1, r2, d2 - 1);
      } else {
        InterleavedGrows(lists, r1, d1, r2 - 1, |lists|);
      }
    }
  }

  // There is only one fair choice in this order.
  lemma {:induction false} FlatChoiceIsUnique<T>(lists: seq<seq<T>>, max: nat, a: seq<T>, b: seq<T>)
    requires FlatChoice(lists, max, a) && FlatChoice(lists, max, b)
    ensures a == b
  {
    hide Interleaved, Level, Sum, Prefixes;
    var r1: nat, d1: nat :| d1 <= |lists| && FlatAt(lists, max, r1, d1) && a == Interleaved(lists, r1, d1);
    var r2: nat, d2: nat :| d2 <= |lists| && FlatAt(lists, max, r2, d2) && b == Interleaved(lists, r2, d2);
    InterleavedIsPrefixes(lists, r1, d1);
    InterleavedIsPrefixes(lists, r2, d2);
    if r1 < r2 || (r1 == r2 && d1 <= d2) {
      InterleavedGrows(lists, r1, d1, r2, d2);
    } else {
      InterleavedGrows(lists, r2, d2, r1, d1);
    }
  }

  // The two forms choose the same.
  lemma {:induction false} SameChoice<T>(lists: seq<seq<T>>, max: nat, perList: seq<seq<T>>, flat: seq<T>)
    requires PerListChoice(lists, max, perList) && FlatChoice(lists, max, flat)
    ensures Fits(lists, Lengths(perList)) && multiset(flat) == Prefixes(lists, Lengths(perList))
    ensures forall i | 0 <= i < |lists| :: perList[i] == lists[i][..|perList[i]|]
  {
    hide Interleaved, Level, Sum, Prefixes;
    var r: nat, d: nat :| d <= |lists| && FlatAt(lists, max, r, d) && flat == Interleaved(lists, r, d);
    InterleavedIsPrefixes(lists, r, d);
    FairIsUnique(Lengths(lists), max, Level(Lengths(lists), r, d), Lengths(perList));
  }

  // The selected beginnings have these lengths.
  ghost predicate Beginnings<T>(lists: seq<seq<T>>, ks: seq<nat>, chosen: seq<seq<T>>) {
    Fits(lists, ks) && |chosen| == |lists| && forall i | 0 <= i < |lists| :: chosen[i] == lists[i][..ks[i]]
  }

  lemma {:induction false} BeginningsChosen<T>(lists: seq<seq<T>>, max: nat, ks: seq<nat>, chosen: seq<seq<T>>)
    requires Fair(Lengths(lists), max, ks) && Beginnings(lists, ks, chosen)
    ensures PerListChoice(lists, max, chosen)
  {
    assert ks == Lengths(chosen);
  }

  lemma {:induction false} BeginningsStart<T>(lists: seq<seq<T>>, chosen: seq<seq<T>>)
    requires |chosen| == |lists| && forall i | 0 <= i < |lists| :: chosen[i] == []
    ensures Beginnings(lists, Level(Lengths(lists), 0, 0), chosen) && Sum(Level(Lengths(lists), 0, 0)) == 0
  {
    SumZeros(Level(Lengths(lists), 0, 0));
  }

  lemma {:induction false} BeginningsStep<T>(lists: seq<seq<T>>, round: nat, dest: nat, chosen: seq<seq<T>>)
    requires dest < |lists| && Beginnings(lists, Level(Lengths(lists), round, dest), chosen)
    ensures var more := if |lists[dest]| > round then chosen[dest := chosen[dest] + [lists[dest][round]]] else chosen;
            Beginnings(lists, Level(Lengths(lists), round, dest + 1), more)
  {
    hide Lengths;
    LengthsAre(lists);
    if |lists[dest]| > round {
      assert lists[dest][..round + 1] == lists[dest][..round] + [lists[dest][round]];
    }
  }

  lemma {:induction false} LengthsAre<T>(lists: seq<seq<T>>)
    ensures |Lengths(lists)| == |lists| && forall i | 0 <= i < |lists| :: Lengths(lists)[i] == |lists[i]|
  {
  }

  // The loop of PackageRelayTxs.
  method SelectPerList<T>(lists: seq<seq<T>>, max: nat) returns (chosen: seq<seq<T>>)
    ensures PerListChoice(lists, max, chosen)
  {
    hide Sum, Level, Beginnings, Fair, Lengths, PerListChoice;
    ghost var lens := Lengths(lists);
    LengthsAre(lists);
    chosen := seq(|lists|, _ => []);
    var cnt, round := 0, 0;
    ghost var r, d := 0, 0;
    BeginningsStart(lists, chosen);
    while cnt < max
      invariant d <= |lists| && cnt == Sum(Level(lens, r, d)) <= max && Beginnings(lists, Level(lens, r, d), chosen)
      invariant |chosen| == |lists| && (cnt < max ==> r == round && d == 0)
      decreases max - cnt
    {
      var roundAdd := false;
      var dest := 0;
      ghost var before := cnt;
      while dest < |lists|
        invariant 0 <= dest <= |lists| && |chosen| == |lists| && before <= cnt < max
        invariant cnt == Sum(Level(lens, round, dest)) && Beginnings(lists, Level(lens, round, dest), chosen)
        invariant roundAdd <==> before < cnt
        invariant !roundAdd ==> forall i | 0 <= i < dest :: lens[i] <= round
      {
        LevelStep(lens, round, dest);
        BeginningsStep(lists, round, dest, chosen);
        if |lists[dest]| > round {
          chosen := chosen[dest := chosen[dest] + [lists[dest][round]]];
          roundAdd := true;
          cnt := cnt + 1;
        }
        dest := dest + 1;
        if cnt >= max {
          break;
        }
      }
      r, d := round, dest;
      if roundAdd == false {
        break;
      }
      if d == |lists| {
        RoundEnds(lens, round);
        r, d := round + 1, 0;
      }
      round := round + 1;
    }
    StopIsFair(lens, max, r, d);
    BeginningsChosen(lists, max, Level(lens, r, d), chosen);
  }

  // The loop of PackageCrossTxs.
  method SelectFlat<T>(lists: seq<seq<T>>, max: nat) returns (chosen: seq<T>)
    ensures FlatChoice(lists, max, chosen)
  {
    hide Sum, Level, Flattened, Fair, Lengths, Interleaved;
    ghost var lens := Lengths(lists);
    LengthsAre(lists);
    chosen := [];
    var current: nat := 0;
    ghost var r: nat, d: nat := 0, 0;
    SumStart(lens);
    InterleavedCases(lists, 0, 0);
    while |chosen| < max
      invariant d <= |lists| && chosen == Interleaved(lists, r, d) && |chosen| == Sum(Level(lens, r, d)) <= max
      invariant |chosen| < max ==> r == current && d == 0
      decreases max - |chosen|
    {
      var roundAdded := false;
      var i := 0;
      ghost var before := |chosen|;
      while i < |lists|
        invariant 0 <= i <= |lists| && before <= |chosen| < max
        invariant chosen == Interleaved(lists, current, i) && |chosen| == Sum(Level(lens, current, i))
        invariant roundAdded <==> before < |chosen|
        invariant !roundAdded ==> forall k | 0 <= k < i :: lens[k] <= current
      {
        LevelStep(lens, current, i);
        InterleavedCases(lists, current, i + 1);
        var group := lists[i];
        i := i + 1;
        if current < |group| {
          chosen := chosen + [group[current]];
          roundAdded := true;
          if |chosen| >= max {
            break;
          }
        }
      }
      r, d := current, i;
      if !roundAdded {
        break;
      }
      if d == |lists| {
        RoundEnds(lens, current);
        InterleavedCases(lists, current + 1, 0);
        r, d := current + 1, 0;
      }
      current := current + 1;
    }
    StopIsFair(lens, max, r, d);
    assert FlatAt(lists, max, r, d);
  }

  lemma {:induction false} SumStart(lens: seq<nat>)
    ensures Sum(Level(lens, 0, 0)) == 0
  {
    SumZeros(Level(lens, 0, 0));
  }
}
