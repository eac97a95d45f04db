/** The transaction pool (Tx/TxPool.go): one list per sender and recipient shard. A list is a map
    keyed by hash, so it is modelled as a set and iterated in any order. */
module TxPool {
  import opened Graph
  import opened Relay
  import opened RoundRobin
  import opened Routes
  import opened Transactions

  type Lists = l: seq<seq<set<Transaction>>> | forall i | 0 <= i < |l| :: |l[i]| == |l| witness []

  // Every transaction lies in the list of its shards.
  predicate Sorted(lists: Lists) {
    forall i, j | 0 <= i < |lists| && 0 <= j < |lists| ::
      forall tx <- lists[i][j] :: SInShard(tx, |lists|) == i && RInShard(tx, |lists|) == j
  }

  function Contents(lists: Lists): (c: set<Transaction>)
    ensures forall tx :: tx in c <==> exists i, j | 0 <= i < |lists| && 0 <= j < |lists| :: tx in lists[i][j]
  {
    set i, j, tx | 0 <= i < |lists| && 0 <= j < |lists| && tx in lists[i][j] :: tx
  }

  function Put(lists: Lists, s: nat, r: nat, tx: Transaction): (l: Lists)
    requires s < |lists| && r < |lists|
    ensures |l| == |lists|
    ensures forall i, j | 0 <= i < |l| && 0 <= j < |l| :: l[i][j] == if i == s && j == r then lists[i][j] + {tx} else lists[i][j]
  {
    lists[s := lists[s][r := lists[s][r] + {tx}]]
  }

  lemma {:induction false} PutContents(lists: Lists, s: nat, r: nat, tx: Transaction)
    requires s < |lists| && r < |lists|
    ensures Contents(Put(lists, s, r, tx)) == Contents(lists) + {tx}
  {
    var l := Put(lists, s, r, tx);
    forall x | x in Contents(lists) + {tx} ensures x in Contents(l) {
      if x == tx {
        assert x in l[s][r];
      } else {
        var i, j :| 0 <= i < |lists| && 0 <= j < |lists| && x in lists[i][j];
        assert x in l[i][j];
      }
    }
    forall x | x in Contents(l) ensures x in Contents(lists) + {tx} {
      var i, j :| 0 <= i < |l| && 0 <= j < |l| && x in l[i][j];
      if x != tx {
        assert x in lists[i][j];
      }
    }
  }

  lemma {:induction false} PutLists(lists: Lists, s: nat, r: nat, tx: Transaction)
    requires s < |lists| && r < |lists|
    ensures Put(lists, s, r, tx) == lists[s := lists[s][r := lists[s][r] + {tx}]] && |Put(lists, s, r, tx)| == |lists|
  {
  }

  lemma {:induction false} PutSorted(lists: Lists, tx: Transaction)
    requires Sorted(lists) && |lists| > 0
    ensures Sorted(Put(lists, SInShard(tx, |lists|), RInShard(tx, |lists|), tx))
  {
    hide SInShard, RInShard;
  }

  // Both shards of a transaction exist.
  lemma {:induction false} ShardsExist(tx: Transaction, n: nat)
    requires n > 0
    ensures SInShard(tx, n) < n && RInShard(tx, n) < n
  {
    hide ParseHex;
  }

  method Enumerate(s: set<Transaction>) returns (list: seq<Transaction>)
    ensures multiset(list) == multiset(s)
  {
    var rest := s;
    list := [];
    while rest != {}
      invariant rest <= s && multiset(list) + multiset(rest) == multiset(s)
      decreases |rest|
    {
      var tx :| tx in rest;
      rest := rest - {tx};
      list := list + [tx];
    }
  }

  lemma {:induction false} NothingTouches(sd: Matrix, k: nat, txs: seq<Transaction>)
    requires k < |sd|
    ensures Elements(Touching(sd, k, txs[..0])) == {}
  {
  }

  lemma {:induction false} NoElements()
    ensures Elements<Transaction>([]) == {}
  {
  }

  lemma {:induction false} TouchesNext(sd: Matrix, k: nat, txs: seq<Transaction>, m: nat)
    requires k < |sd| && m < |txs|
    ensures var touches := sd[k][SInShard(txs[m], |sd|)] || sd[k][RInShard(txs[m], |sd|)];
            Elements(Touching(sd, k, txs[..m + 1])) == Elements(Touching(sd, k, txs[..m])) + (if touches then {txs[m]} else {})
  {
    hide SInShard, RInShard;
    assert txs[..m + 1][..m] == txs[..m];
    ElementsAppend(Touching(sd, k, txs[..m]), txs[m]);
  }

  // The transactions a shard has to send.
  function RowCount(row: seq<set<Transaction>>): nat {
    if row == [] then 0 else RowCount(row[..|row| - 1]) + |row[|row| - 1]|
  }

  // The pooled transactions that shard s sends.
  function SentBy(lists: Lists, s: nat): set<Transaction>
    requires |lists| > 0
  {
    set tx | tx in Contents(lists) && SInShard(tx, |lists|) == s
  }

  // Those for a recipient shard below k.
  function SentBelow(lists: Lists, s: nat, k: nat): set<Transaction>
    requires |lists| > 0
  {
    set tx | tx in SentBy(lists, s) && RInShard(tx, |lists|) < k
  }

  lemma {:induction false} InItsList(lists: Lists, tx: Transaction)
    requires Sorted(lists) && |lists| > 0
    ensures SInShard(tx, |lists|) < |lists| && RInShard(tx, |lists|) < |lists|
    ensures tx in Contents(lists) <==> tx in lists[SInShard(tx, |lists|)][RInShard(tx, |lists|)]
  {
    ShardsExist(tx, |lists|);
    hide SInShard, RInShard;
  }

  lemma {:induction false} SentNext(lists: Lists, s: nat, k: nat)
    requires Sorted(lists) && s < |lists| && k < |lists|
    ensures SentBelow(lists, s, k + 1) == SentBelow(lists, s, k) + lists[s][k] && SentBelow(lists, s, k) !! lists[s][k]
  {
    hide SInShard, RInShard, Contents;
    forall tx | tx in lists[s][k] ensures SInShard(tx, |lists|) == s && RInShard(tx, |lists|) == k {
    }
    forall tx ensures tx in SentBelow(lists, s, k + 1) <==> tx in SentBelow(lists, s, k) || tx in lists[s][k] {
      InItsList(lists, tx);
    }
  }

  lemma {:induction false} RowPart(lists: Lists, s: nat, k: nat)
    requires Sorted(lists) && s < |lists| && k <= |lists|
    ensures RowCount(lists[s][..k]) == |SentBelow(lists, s, k)|
  {
    if k > 0 {
      hide Sorted, SentBelow;
      RowPart(lists, s, k - 1);
      SentNext(lists, s, k - 1);
      assert lists[s][..k][..k - 1] == lists[s][..k - 1];
    } else {
      assert SentBelow(lists, s, 0) == {};
    }
  }

  // A row counts the pooled transactions its shard sends.
  lemma {:induction false} RowCountIsSent(lists: Lists, s: nat)
    requires Sorted(lists) && s < |lists|
    ensures RowCount(lists[s]) == |SentBy(lists, s)|
  {
    hide SInShard, RInShard, Contents, Sorted;
    RowPart(lists, s, |lists|);
    assert lists[s][..|lists|] == lists[s];
    forall tx ensures RInShard(tx, |lists|) < |lists| {
      InItsList(lists, tx);
    }
    assert SentBelow(lists, s, |lists|) == SentBy(lists, s);
  }

  // Of the first n shards that qualify, best sends the most, and is the first to do so.
  ghost predicate IsBest(lists: Lists, controls: seq<bool>, optimise: bool, n: nat, best: int)
    requires |controls| == |lists| && n <= |lists|
  {
    if best == -1 then (n > 0 ==> optimise) && forall s | 0 <= s < n :: !controls[s]
    else
      && 0 <= best < n && (optimise ==> controls[best])
      && forall s | 0 <= s < n && (optimise ==> controls[s]) ::
           RowCount(lists[s]) <= RowCount(lists[best]) && (s < best ==> RowCount(lists[s]) < RowCount(lists[best]))
  }

  lemma {:induction false} NoneYet(lists: Lists, controls: seq<bool>, optimise: bool)
    requires |controls| == |lists|
    ensures IsBest(lists, controls, optimise, 0, -1)
  {
  }

  lemma {:induction false} BestSoFar(lists: Lists, controls: seq<bool>, optimise: bool, n: nat, best: int)
    requires |controls| == |lists| && n < |lists| && IsBest(lists, controls, optimise, n, best)
    ensures (optimise && !controls[n]) || (best != -1 && RowCount(lists[n]) <= RowCount(lists[best])) ==>
              IsBest(lists, controls, optimise, n + 1, best)
    ensures (optimise ==> controls[n]) && (best == -1 || RowCount(lists[n]) > RowCount(lists[best])) ==>
              IsBest(lists, controls, optimise, n + 1, n)
  {
    hide RowCount;
  }

  lemma {:induction false} SomeBest(lists: Lists, controls: seq<bool>, optimise: bool, best: int)
    requires |controls| == |lists| > 0 && IsBest(lists, controls, optimise, |lists|, best)
    requires optimise ==> exists s | 0 <= s < |controls| :: controls[s]
    ensures 0 <= best < |lists|
  {
  }

  // The pairs of different held chains below (i, j), in order, each with its transactions.
  ghost predicate Grouped(lists: Lists, controls: seq<bool>, candidates: seq<seq<Transaction>>, pairs: seq<(nat, nat)>, i: nat, j: nat)
    requires |controls| == |lists|
  {
    && |pairs| == |candidates|
    && (forall k | 0 <= k < |pairs| ::
          && pairs[k].0 < |lists| && pairs[k].1 < |lists|
          && multiset(candidates[k]) == multiset(lists[pairs[k].0][pairs[k].1]))
    && (forall a: nat, b: nat :: (a, b) in pairs <==>
          a < |lists| && b < |lists| && a != b && controls[a] && controls[b] && (a < i || (a == i && b < j)))
    && forall k, m | 0 <= k < m < |pairs| :: pairs[k] != pairs[m]
  }

  lemma {:induction false} GroupOne(lists: Lists, controls: seq<bool>, candidates: seq<seq<Transaction>>, pairs: seq<(nat, nat)>, i: nat, j: nat, txs: seq<Transaction>)
    requires |controls| == |lists| && i < |lists| && j < |lists| && i != j && controls[i] && controls[j]
    requires Grouped(lists, controls, candidates, pairs, i, j) && multiset(txs) == multiset(lists[i][j])
    ensures Grouped(lists, controls, candidates + [txs], pairs + [(i, j)], i, j + 1)
  {
    assert (i, j) !in pairs;
    var more := pairs + [(i, j)];
    assert more[|pairs|] == (i, j);
    forall k, m | 0 <= k < m < |more| ensures more[k] != more[m] {
      assert more[k] in pairs;
    }
  }

  lemma {:induction false} GroupNone(lists: Lists, controls: seq<bool>)
    requires |controls| == |lists|
    ensures Grouped(lists, controls, [], [], 0, 0)
  {
  }

  lemma {:induction false} GroupSkip(lists: Lists, controls: seq<bool>, candidates: seq<seq<Transaction>>, pairs: seq<(nat, nat)>, i: nat, j: nat)
    requires |controls| == |lists| && i < |lists| && j < |lists|
    requires Grouped(lists, controls, candidates, pairs, i, j)
    ensures i == j || !controls[i] || !controls[j] ==> Grouped(lists, controls, candidates, pairs, i, j + 1)
  {
  }

  lemma {:induction false} GroupRow(lists: Lists, controls: seq<bool>, candidates: seq<seq<Transaction>>, pairs: seq<(nat, nat)>, i: nat)
    requires |controls| == |lists| && i < |lists|
    requires Grouped(lists, controls, candidates, pairs, i, |lists|)
    ensures Grouped(lists, controls, candidates, pairs, i + 1, 0)
  {
  }

  class Pool {
    const localIndex: nat
    const config: PyramidConfig
    var txLists: Lists
    var controls: seq<bool>

    ghost predicate Valid()
      reads this, config
    {
      && config.Valid()
      && |txLists| == |config.shardDistribution| == |controls|
      && localIndex < |txLists|
      && Sorted(txLists)
    }

    constructor (localIndex: nat, config: PyramidConfig)
      requires config.Valid() && localIndex < |config.shardDistribution|
      ensures Valid() && this.localIndex == localIndex && this.config == config
      ensures Contents(txLists) == {} && controls == config.shardDistribution[localIndex]
    {
      this.localIndex, this.config := localIndex, config;
      var n := |config.shardDistribution|;
      txLists := seq(n, _ => seq(n, _ => {}));
      controls := config.shardDistribution[localIndex];
    }

    // One list.append: the transaction goes to the list of its shards.
    method Store(tx: Transaction)
      requires Valid()
      modifies this`txLists
      ensures Valid() && |txLists| == |old(txLists)|
      ensures Contents(txLists) == old(Contents(txLists)) + {tx}
    {
      hide SInShard, RInShard, Contents, Sorted, Put;
      var s, r := SInShard(tx, |txLists|), RInShard(tx, |txLists|);
      ShardsExist(tx, |txLists|);
      PutSorted(txLists, tx);
      PutContents(txLists, s, r, tx);
      PutLists(txLists, s, r, tx);
      txLists := txLists[s := txLists[s][r := txLists[s][r] + {tx}]];
    }

    // The pyramid branch of Append: on a route, the relays that touch a chain this shard holds;
    // elsewhere the transaction itself, if the shard holds the sender's or recipient's chain.
    method Append(tx: Transaction, adds: seq<Address>)
      requires Valid() && |adds| == |txLists| && controls == config.shardDistribution[localIndex]
      modifies this`txLists
      ensures Valid()
      ensures var s, r := SInShard(tx, |adds|), RInShard(tx, |adds|);
              Contents(txLists) == old(Contents(txLists)) + Elements(
                Taken(config.shardDistribution, localIndex, tx, adds, config.shardRoute[s][r], config.shardRoute[r][s]))
      ensures var s, r := SInShard(tx, |adds|), RInShard(tx, |adds|);
              config.shardRoute[s][r] == None ==>
                forall x :: x in Contents(txLists) <==> x in old(Contents(txLists)) || (x == tx && (controls[s] || controls[r]))
    {
      hide SInShard, RInShard, Contents, Sorted, IsEntry, Relays, HoldsOnRoute, Touching;
      var s, r := SInShard(tx, |adds|), RInShard(tx, |adds|);
      ShardsExist(tx, |adds|);
      EntryInRange(config.shardDistribution, s, r, config.shardRoute[s][r]);
      if config.shardRoute[s][r] == None {
        NoRouteTaken(config.shardDistribution, tx, adds, config.shardRoute[r][s], localIndex);
      }
      var onRoute := config.InRoute(localIndex, r, s);
      if onRoute {
        var txs := config.SplitRelay(tx, adds);
        NothingTouches(config.shardDistribution, localIndex, txs);
        for k := 0 to |txs|
          invariant Valid() && |txLists| == |adds|
          invariant Contents(txLists) == old(Contents(txLists)) + Elements(Touching(config.shardDistribution, localIndex, txs[..k]))
        {
          var hop := txs[k];
          TouchesNext(config.shardDistribution, localIndex, txs, k);
          ShardsExist(hop, |adds|);
          if config.shardDistribution[localIndex][SInShard(hop, |adds|)] || config.shardDistribution[localIndex][RInShard(hop, |adds|)] {
            Store(hop);
          }
        }
        assert txs[..|txs|] == txs;
      } else if controls[s] || controls[r] {
        Store(tx);
        assert Elements([tx]) == {tx};
      } else {
        NoElements();
      }
    }

    // The shard with the most transactions to send; -1 if this shard may pack for none.
    method FindBest(optimise: bool) returns (ret: int)
      requires Valid()
      ensures IsBest(txLists, controls, optimise, |txLists|, ret)
    {
      hide Sorted, IsBest, RowCount;
      var maxCnt: int := -1;
      ret := -1;
      NoneYet(txLists, controls, optimise);
      for s := 0 to |txLists|
        invariant IsBest(txLists, controls, optimise, s, ret) && -1 <= ret < s
        invariant maxCnt == if ret == -1 then -1 else RowCount(txLists[ret])
      {
        BestSoFar(txLists, controls, optimise, s, ret);
        if optimise && !controls[s] {
          continue;
        }
        var row := txLists[s];
        var cnt := CountRow(row);
        if cnt > maxCnt {
          maxCnt := cnt;
          ret := s;
        }
      }
    }

    method CountRow(row: seq<set<Transaction>>) returns (cnt: nat)
      ensures cnt == RowCount(row)
    {
      cnt := 0;
      for j := 0 to |row|
        invariant cnt == RowCount(row[..j])
      {
        cnt := cnt + |row[j]|;
        assert row[..j + 1][..j] == row[..j];
      }
      assert row[..|row|] == row;
    }

    // For each recipient shard a beginning of its list, together a fair choice.
    method PackageRelayTxs(optimise: bool, max: nat) returns (transactions: seq<seq<Transaction>>, bestIndex: nat)
      requires Valid() && (optimise ==> exists s | 0 <= s < |controls| :: controls[s])
      ensures bestIndex < |txLists| && IsBest(txLists, controls, optimise, |txLists|, bestIndex)
      ensures RelayChoice(txLists[bestIndex], max, transactions)
    {
      hide PerListChoice, Lengths, IsBest, Sorted;
      var best := FindBest(optimise);
      SomeBest(txLists, controls, optimise, best);
      bestIndex := best;
      var candidateGroups: seq<seq<Transaction>> := [];
      for dest := 0 to |txLists|
        invariant |candidateGroups| == dest
        invariant forall j | 0 <= j < dest :: multiset(candidateGroups[j]) == multiset(txLists[bestIndex][j])
      {
        var txs := Enumerate(txLists[bestIndex][dest]);
        candidateGroups := candidateGroups + [txs];
      }
      transactions := SelectPerList(candidateGroups, max);
      assert Enumerated(txLists[bestIndex], candidateGroups);
    }

    // The transactions between two different chains this shard holds, chosen in the same way.
    method PackageCrossTxs(max: nat) returns (transactions: seq<Transaction>)
      requires Valid()
      ensures CrossChoice(txLists, controls, max, transactions)
    {
      hide FlatChoice, Sorted, Grouped, Lengths;
      var candidateGroups: seq<seq<Transaction>> := [];
      ghost var pairs: seq<(nat, nat)> := [];
      GroupNone(txLists, controls);
      for i := 0 to |txLists|
        invariant Grouped(txLists, controls, candidateGroups, pairs, i, 0)
      {
        for j := 0 to |txLists|
          invariant Grouped(txLists, controls, candidateGroups, pairs, i, j)
        {
          GroupSkip(txLists, controls, candidateGroups, pairs, i, j);
          if i == j {
            continue;
          }
          if controls[i] && controls[j] {
            var txs := Enumerate(txLists[i][j]);
            GroupOne(txLists, controls, candidateGroups, pairs, i, j, txs);
            candidateGroups := candidateGroups + [txs];
            pairs := pairs + [(i, j)];
          }
        }
        GroupRow(txLists, controls, candidateGroups, pairs, i);
      }
      transactions := SelectFlat(candidateGroups, max);
    }
  }

  // The lists in some order of iteration.
  ghost predicate Enumerated(row: seq<set<Transaction>>, candidates: seq<seq<Transaction>>) {
    |candidates| == |row| && forall j | 0 <= j < |row| :: multiset(candidates[j]) == multiset(row[j])
  }

  ghost predicate RelayChoice(row: seq<set<Transaction>>, max: nat, chosen: seq<seq<Transaction>>) {
    exists candidates :: Enumerated(row, candidates) && PerListChoice(candidates, max, chosen)
  }

  ghost predicate CrossChoice(lists: Lists, controls: seq<bool>, max: nat, chosen: seq<Transaction>)
    requires |controls| == |lists|
  {
    exists candidates, pairs :: Grouped(lists, controls, candidates, pairs, |lists|, 0) && FlatChoice(candidates, max, chosen)
  }

  function Sizes(row: seq<set<Transaction>>): (l: seq<nat>)
    ensures |l| == |row| && forall i | 0 <= i < |l| :: l[i] == |row[i]|
  {
    seq(|row|, i requires 0 <= i < |row| => |row[i]|)
  }

  // Only pooled transactions are chosen, none twice, and how many of each list is determined.
  lemma {:induction false} RelayChoiceIsFair(row: seq<set<Transaction>>, max: nat, chosen: seq<seq<Transaction>>)
    requires RelayChoice(row, max, chosen)
    ensures Fair(Sizes(row), max, Lengths(chosen)) && |chosen| == |row|
    ensures forall j | 0 <= j < |row| :: multiset(chosen[j]) <= multiset(row[j])
  {
    hide Fair;
    var candidates :| Enumerated(row, candidates) && PerListChoice(candidates, max, chosen);
    forall j | 0 <= j < |row| ensures |candidates[j]| == |row[j]| && multiset(chosen[j]) <= multiset(row[j]) {
      EnumeratedOnce(row[j], candidates[j]);
      assert candidates[j] == chosen[j] + candidates[j][|chosen[j]|..];
    }
    assert Lengths(candidates) == Sizes(row);
  }

  lemma {:induction false} EnumeratedOnce(s: set<Transaction>, list: seq<Transaction>)
    requires multiset(list) == multiset(s)
    ensures |list| == |s|
  {
    assert |multiset(list)| == |list| && |multiset(s)| == |s|;
  }

  // A chosen transaction goes between two different chains the shard holds.
  lemma {:induction false} CrossChoiceIsHeld(lists: Lists, controls: seq<bool>, max: nat, chosen: seq<Transaction>, tx: Transaction)
    requires |controls| == |lists| > 0 && Sorted(lists) && CrossChoice(lists, controls, max, chosen) && tx in chosen
    ensures var s, r := SInShard(tx, |lists|), RInShard(tx, |lists|);
            s < |lists| && r < |lists| && s != r && controls[s] && controls[r] && tx in lists[s][r]
  {
    hide SInShard, RInShard, Interleaved, Level, Fair;
    var candidates, pairs :| Grouped(lists, controls, candidates, pairs, |lists|, 0) && FlatChoice(candidates, max, chosen);
    var round: nat, dest: nat :| dest <= |candidates| && FlatAt(candidates, max, round, dest) && chosen == Interleaved(candidates, round, dest);
    var k := FromSomeList(candidates, round, dest, tx);
    assert tx in multiset(candidates[k]);
    assert pairs[k] in pairs;
  }

  lemma {:induction false} FromSomeList(lists: seq<seq<Transaction>>, round: nat, dest: nat, tx: Transaction) returns (k: nat)
    requires dest <= |lists| && tx in Interleaved(lists, round, dest)
    ensures k < |lists| && tx in lists[k]
    decreases round, dest
  {
    InterleavedCases(lists, round, dest);
    if dest > 0 {
      if tx in Interleaved(lists, round, dest - 1) {
        k := FromSomeList(lists, round, dest - 1, tx);
      } else {
        k := dest - 1;
      }
    } else {
      k := FromSomeList(lists, round - 1, |lists|, tx);
    }
  }
}
