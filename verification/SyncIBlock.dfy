/** Blocks of remote shards are appended once enough nodes acknowledged them and their parent is
    stored (Comm/PyramidComm/SyncIBlock.go, pyramid/PyrChain.go:174-211). */
module SyncIBlock {
  import opened CausalSync
  import opened Transactions

  // The local copy of the chains. Transactions and storage are left out.
  class PyrChain {
    var blocks: map<Hash, StdBlock>
    var topBlockHash: map<Shard, Hash>
    var topHashToBeConfirmed: set<Shard>

    constructor (genesis: map<Hash, StdBlock>, tops: map<Shard, Hash>)
      ensures blocks == genesis && topBlockHash == tops && topHashToBeConfirmed == {}
    {
      blocks, topBlockHash, topHashToBeConfirmed := genesis, tops, {};
    }

    // A block whose transactions do not match its root is dropped.
    method Append(block: StdBlock, sid: Shard)
      modifies this
      ensures blocks == if block.legal then old(blocks)[block.hash := block] else old(blocks)
      ensures topBlockHash == if block.legal then old(topBlockHash)[sid := block.hash] else old(topBlockHash)
      ensures topHashToBeConfirmed == old(topHashToBeConfirmed)
    {
      if block.legal {
        blocks := blocks[block.hash := block];
        topBlockHash := topBlockHash[sid := block.hash];
      }
    }
  }

  // What a node of a remote shard sends: its main node the block, the others its hash.
  datatype Content = Full(block: StdBlock) | Digest(hash: Hash)

  function HashOf(c: Content): Hash { if c.Full? then c.block.hash else c.hash }

  // One call of the chain's Append: with how many acks, and what was needed.
  datatype Entry = Entry(shard: Shard, hash: Hash, acks: nat, threshold: nat)

  function WaitingIn(reqCnt: map<Shard, map<Hash, nat>>, blocks: map<Shard, map<Hash, StdBlock>>, s: Shard): Waiting {
    Waiting(s, if s in reqCnt then reqCnt[s] else map[], if s in blocks then blocks[s] else map[])
  }

  lemma {:induction false} WaitingWithout(reqCnt: map<Shard, map<Hash, nat>>, blocks: map<Shard, map<Hash, StdBlock>>, s: Shard, h: Hash)
    requires s in reqCnt && s in blocks
    ensures var c, b := reqCnt[s := reqCnt[s] - {h}], blocks[s := blocks[s] - {h}];
            && WaitingIn(c, b, s) == WaitingIn(reqCnt, blocks, s).Without(h)
            && c - {s} == reqCnt - {s} && b - {s} == blocks - {s} && c.Keys == reqCnt.Keys && b.Keys == blocks.Keys
            && (Keyed(blocks) ==> Keyed(b))
  {
  }

  predicate Keyed(blocks: map<Shard, map<Hash, StdBlock>>) {
    forall s, h | s in blocks && h in blocks[s] :: blocks[s][h].hash == h
  }

  // A pending hash is not finished, and its count is that of the acks counted.
  predicate Pending(reqCnt: map<Shard, map<Hash, nat>>, finish: map<Shard, set<Hash>>, counted: map<(Shard, Hash), nat>) {
    forall s, h | s in reqCnt && h in reqCnt[s] ::
      s in finish && h !in finish[s] && (s, h) in counted && counted[(s, h)] == reqCnt[s][h]
  }

  lemma {:induction false} KeyedAt(blocks: map<Shard, map<Hash, StdBlock>>, s: Shard, h: Hash)
    requires Keyed(blocks) && s in blocks && h in blocks[s]
    ensures blocks[s][h].hash == h
  {
  }

  // The log holds each finished hash once and no other, with enough acks, all of them counted.
  ghost predicate Logged(finish: map<Shard, set<Hash>>, counted: map<(Shard, Hash), nat>, log: seq<Entry>) {
    && (forall i, j | 0 <= i < j < |log| :: (log[i].shard, log[i].hash) != (log[j].shard, log[j].hash))
    && (forall s, h | s in finish && h in finish[s] :: InLog(log, s, h))
    && forall i | 0 <= i < |log| :: EntryOk(finish, counted, log[i])
  }

  ghost predicate InLog(log: seq<Entry>, s: Shard, h: Hash) {
    exists i | 0 <= i < |log| :: log[i].shard == s && log[i].hash == h
  }

  predicate EntryOk(finish: map<Shard, set<Hash>>, counted: map<(Shard, Hash), nat>, e: Entry) {
    && e.shard in finish && e.hash in finish[e.shard] && e.acks >= e.threshold
    && (e.shard, e.hash) in counted && counted[(e.shard, e.hash)] == e.acks
  }

  lemma {:induction false} PendingAfterAppend(reqCnt: map<Shard, map<Hash, nat>>, finish: map<Shard, set<Hash>>,
                                              counted: map<(Shard, Hash), nat>, s: Shard, h: Hash)
    requires Pending(reqCnt, finish, counted) && s in reqCnt && s in finish
    ensures Pending(reqCnt[s := reqCnt[s] - {h}], finish[s := finish[s] + {h}], counted)
  {
  }

  lemma {:induction false} PendingAt(reqCnt: map<Shard, map<Hash, nat>>, finish: map<Shard, set<Hash>>,
                                     counted: map<(Shard, Hash), nat>, s: Shard, h: Hash)
    requires Pending(reqCnt, finish, counted) && s in reqCnt && h in reqCnt[s]
    ensures s in finish && h !in finish[s] && (s, h) in counted && counted[(s, h)] == reqCnt[s][h]
  {
  }

  lemma {:induction false} LoggedAfterAppend(finish: map<Shard, set<Hash>>, counted: map<(Shard, Hash), nat>, log: seq<Entry>, e: Entry)
    requires Logged(finish, counted, log) && e.shard in finish && e.hash !in finish[e.shard]
    requires EntryOk(finish[e.shard := finish[e.shard] + {e.hash}], counted, e)
    ensures Logged(finish[e.shard := finish[e.shard] + {e.hash}], counted, log + [e])
  {
    var f, l := finish[e.shard := finish[e.shard] + {e.hash}], log + [e];
    forall i | 0 <= i < |l| ensures EntryOk(f, counted, l[i]) {
      if i < |log| {
        assert EntryOk(finish, counted, log[i]);
      }
    }
    forall i, j | 0 <= i < j < |l| ensures (l[i].shard, l[i].hash) != (l[j].shard, l[j].hash) {
      assert EntryOk(finish, counted, log[i]);
    }
    forall s, h | s in f && h in f[s] ensures InLog(l, s, h) {
      if s == e.shard && h == e.hash {
        assert l[|log|] == e;
      } else {
        assert InLog(log, s, h);
        var i :| 0 <= i < |log| && log[i].shard == s && log[i].hash == h;
        assert l[i] == log[i];
      }
    }
  }

  // An ack for a hash that is not finished.
  lemma {:induction false} ValidAfterAck(reqCnt: map<Shard, map<Hash, nat>>, finish: map<Shard, set<Hash>>,
                                         counted: map<(Shard, Hash), nat>, log: seq<Entry>, s: Shard, h: Hash)
    requires Pending(reqCnt, finish, counted) && Logged(finish, counted, log)
    requires s in reqCnt && s in finish && h !in finish[s]
    ensures var more := Increment(reqCnt[s], h);
            && Pending(reqCnt[s := more], finish, counted[(s, h) := more[h]])
            && Logged(finish, counted[(s, h) := more[h]], log)
  {
    var n := Increment(reqCnt[s], h)[h];
    forall i | 0 <= i < |log| ensures EntryOk(finish, counted[(s, h) := n], log[i]) {
      assert EntryOk(finish, counted, log[i]);
    }
  }

  lemma {:induction false} ValidAfterOpening(reqCnt: map<Shard, map<Hash, nat>>, finish: map<Shard, set<Hash>>,
                                             counted: map<(Shard, Hash), nat>, log: seq<Entry>, s: Shard)
    requires Pending(reqCnt, finish, counted) && Logged(finish, counted, log) && s !in reqCnt && s !in finish
    ensures Pending(reqCnt[s := map[]], finish[s := {}], counted) && Logged(finish[s := {}], counted, log)
  {
    forall i | 0 <= i < |log| ensures EntryOk(finish[s := {}], counted, log[i]) {
      assert EntryOk(finish, counted, log[i]);
    }
    forall t, h | t in finish[s := {}] && h in finish[s := {}][t] ensures InLog(log, t, h) {
      assert t in finish && h in finish[t];
    }
  }

  class SyncIBlockCom {
    const chain: PyrChain
    var reqCnt: map<Shard, map<Hash, nat>>
    var blocks: map<Shard, map<Hash, StdBlock>>
    var finish: map<Shard, set<Hash>>
    ghost var counted: map<(Shard, Hash), nat>
    ghost var log: seq<Entry>

    ghost predicate Valid()
      reads this
    {
      reqCnt.Keys == blocks.Keys == finish.Keys && Keyed(blocks) && Pending(reqCnt, finish, counted) && Logged(finish, counted, log)
    }

    ghost function WaitingOf(s: Shard): Waiting
      reads this`reqCnt, this`blocks
    {
      WaitingIn(reqCnt, blocks, s)
    }

    constructor (chain: PyrChain)
      ensures Valid() && this.chain == chain && reqCnt == map[] && log == []
    {
      this.chain := chain;
      reqCnt, blocks, finish := map[], map[], map[];
      counted, log := map[], [];
    }

    // One turn of the draining loop that appends.
    method AppendOne(rid: Shard, threshold: nat, hash: Hash)
      requires Valid() && rid in reqCnt && WaitingOf(rid).Ready(threshold, chain.blocks.Keys, hash)
      modifies this`reqCnt, this`blocks, this`finish, this`log, chain
      ensures Valid()
      ensures WaitingOf(rid) == old(WaitingOf(rid)).Without(hash)
      ensures chain.blocks.Keys == old(WaitingOf(rid)).StoredWith(old(chain.blocks.Keys), hash)
      ensures reqCnt - {rid} == old(reqCnt) - {rid} && blocks - {rid} == old(blocks) - {rid}
      ensures reqCnt.Keys == old(reqCnt).Keys && finish == Finished(old(finish), rid, [hash])
      ensures log == old(log) + [Entry(rid, hash, old(reqCnt)[rid][hash], threshold)]
    {
      hide Pending, Logged, Keyed, Waiting.Without;
      var block := blocks[rid][hash];
      assert block.hash == hash by { KeyedAt(blocks, rid, hash); }
      WaitingWithout(reqCnt, blocks, rid, hash);
      FinishedHash(finish, rid, hash);
      PendingAt(reqCnt, finish, counted, rid, hash);
      PendingAfterAppend(reqCnt, finish, counted, rid, hash);
      ghost var entry := Entry(rid, hash, reqCnt[rid][hash], threshold);
      LoggedAfterAppend(finish, counted, log, entry);
      chain.Append(block, rid);
      blocks := blocks[rid := blocks[rid] - {hash}];
      reqCnt := reqCnt[rid := reqCnt[rid] - {hash}];
      finish := finish[rid := finish[rid] + {hash}];
      log := log + [entry];
    }

    // Appends exactly the blocks that can be drained, each after its parent, and leaves none ready;
    // the order in which the map is iterated does not matter.
    method CheckBlock(rid: Shard, threshold: nat) returns (ghost order: seq<Hash>)
      requires Valid()
      modifies this`reqCnt, this`blocks, this`finish, this`log, chain
      ensures Valid()
      ensures Swept(old(WaitingOf(rid)), old(chain.blocks.Keys), threshold, order, WaitingOf(rid), chain.blocks.Keys)
      ensures reqCnt - {rid} == old(reqCnt) - {rid} && blocks - {rid} == old(blocks) - {rid}
      ensures reqCnt.Keys == old(reqCnt).Keys && finish == Finished(old(finish), rid, order)
      ensures log == old(log) + Entries(old(WaitingOf(rid)), threshold, order)
      decreases |WaitingOf(rid).cnt|
    {
      hide Pending, Logged, Keyed, Swept, Finished, Waiting.StoredWith, Waiting.Without, Entries;
      ghost var w, stored := WaitingOf(rid), chain.blocks.Keys;
      order := [];
      if rid in reqCnt {
        var todo := reqCnt[rid].Keys;
        while todo != {}
          invariant todo <= reqCnt[rid].Keys
          invariant forall h | h in reqCnt[rid] && h !in todo :: !w.Ready(threshold, stored, h)
        {
          var hash :| hash in todo;
          todo := todo - {hash};
          var cnt := reqCnt[rid][hash];
          if hash !in blocks[rid] || cnt < threshold {
            continue;
          }
          var block := blocks[rid][hash];
          if rid in block.parents && block.parents[rid] in chain.blocks {
            SmallerWaiting(w, hash);
            ghost var f := finish;
            AppendOne(rid, threshold, hash);
            ghost var later := CheckBlock(rid, threshold);
            order := [hash] + later;
            SweptOnce(w, stored, threshold, hash, later, WaitingOf(rid), chain.blocks.Keys);
            FinishedOnce(f, rid, hash, later);
            return;
          }
        }
      }
      NothingSwept(w, stored, threshold, finish);
    }

    // An ack. The main node of the remote shard sends the block, which must continue the local
    // top, be the confirmed cross block, or be known already; the others send its hash.
    method HandleRequest(rid: Shard, contents: Content, threshold: nat) returns (ok: bool, ghost order: seq<Hash>)
      requires Valid()
      modifies this, chain
      ensures Valid()
      ensures ok <==> contents.Digest? || Fits(rid, contents.block, old(chain.blocks), old(chain.topBlockHash), old(chain.topHashToBeConfirmed))
      ensures !ok || HashOf(contents) in FinishedBy(old(finish), rid) ==> order == [] && log == old(log) && chain.blocks == old(chain.blocks)
      ensures ok && HashOf(contents) !in FinishedBy(old(finish), rid) ==>
                && var acked := Acked(old(WaitingOf(rid)), contents);
                && Swept(acked, old(chain.blocks.Keys), threshold, order, WaitingOf(rid), chain.blocks.Keys)
                && log == old(log) + Entries(acked, threshold, order)
      ensures ok && HashOf(contents) !in FinishedBy(finish, rid) ==> OneMoreAck(old(WaitingOf(rid)).cnt, WaitingOf(rid).cnt, HashOf(contents))
      ensures ok && HashOf(contents) in FinishedBy(finish, rid) && HashOf(contents) !in FinishedBy(old(finish), rid) ==>
                Entry(rid, HashOf(contents), AckCount(old(WaitingOf(rid)).cnt, HashOf(contents)) + 1, threshold) in log
      ensures reqCnt - {rid} == old(reqCnt) - {rid} && blocks - {rid} == old(blocks) - {rid}
      ensures finish - {rid} == old(finish) - {rid} && FinishedBy(finish, rid) == FinishedBy(old(finish), rid) + Elements(order)
    {
      hide Pending, Logged, Keyed, Swept, Entries, Finished, Recorded, Increment;
      order := [];
      Open(rid);
      var accepted := Receive(rid, contents);
      if !accepted {
        return false, [];
      }
      var hash := HashOf(contents);
      if hash in finish[rid] {
        return true, [];
      }
      Count(rid, hash);
      assert WaitingOf(rid) == Acked(old(WaitingOf(rid)), contents);
      ghost var f := finish;
      order := CheckBlock(rid, threshold);
      FinishedIn(f, rid, order);
      AckIsCounted(old(WaitingOf(rid)), contents, old(chain.blocks.Keys), threshold, order, WaitingOf(rid), chain.blocks.Keys);
      LoggedLast(old(log), log, Entries(Acked(old(WaitingOf(rid)), contents), threshold, order));
      ok := true;
    }

    // The first message of a shard creates its maps.
    method Open(rid: Shard)
      requires Valid()
      modifies this`reqCnt, this`blocks, this`finish
      ensures Valid() && rid in reqCnt && WaitingOf(rid) == old(WaitingOf(rid)) && FinishedBy(finish, rid) == FinishedBy(old(finish), rid)
      ensures reqCnt - {rid} == old(reqCnt) - {rid} && blocks - {rid} == old(blocks) - {rid} && finish - {rid} == old(finish) - {rid}
    {
      hide Pending, Logged;
      if rid !in reqCnt {
        ValidAfterOpening(reqCnt, finish, counted, log, rid);
        blocks := blocks[rid := map[]];
        reqCnt := reqCnt[rid := map[]];
        finish := finish[rid := {}];
      }
    }

    method Receive(rid: Shard, contents: Content) returns (ok: bool)
      requires Valid() && rid in reqCnt
      modifies this`blocks
      ensures Valid()
      ensures ok <==> contents.Digest? || Fits(rid, contents.block, chain.blocks, chain.topBlockHash, chain.topHashToBeConfirmed)
      ensures WaitingOf(rid) == if ok then old(WaitingOf(rid)).(blocks := Recorded(old(WaitingOf(rid)).blocks, contents)) else old(WaitingOf(rid))
      ensures blocks - {rid} == old(blocks) - {rid}
    {
      hide Pending, Logged;
      if contents.Full? {
        var block := contents.block;
        if block.hash !in chain.blocks {
          if Lookup(chain.topBlockHash, rid) != Lookup(block.parents, rid) &&
             !(rid in chain.topHashToBeConfirmed && Lookup(chain.topBlockHash, rid) == Some(block.hash)) {
            return false;
          }
        }
        blocks := blocks[rid := Recorded(blocks[rid], contents)];
      }
      return true;
    }

    method Count(rid: Shard, hash: Hash)
      requires Valid() && rid in reqCnt && hash !in finish[rid]
      modifies this`reqCnt, this`counted
      ensures Valid()
      ensures WaitingOf(rid) == old(WaitingOf(rid)).(cnt := Increment(old(WaitingOf(rid)).cnt, hash))
      ensures rid in reqCnt && reqCnt - {rid} == old(reqCnt) - {rid}
    {
      hide Pending, Logged;
      ValidAfterAck(reqCnt, finish, counted, log, rid, hash);
      reqCnt := reqCnt[rid := Increment(reqCnt[rid], hash)];
      counted := counted[(rid, hash) := reqCnt[rid][hash]];
    }
  }

  function Increment(cnt: map<Hash, nat>, h: Hash): map<Hash, nat> {
    cnt[h := if h in cnt then cnt[h] + 1 else 1]
  }

  function Lookup(m: map<Shard, Hash>, s: Shard): Option<Hash> { if s in m then Some(m[s]) else None }

  predicate Fits(rid: Shard, block: StdBlock, blocks: map<Hash, StdBlock>, tops: map<Shard, Hash>, unconfirmed: set<Shard>) {
    || block.hash in blocks
    || Lookup(tops, rid) == Lookup(block.parents, rid)
    || (rid in unconfirmed && Lookup(tops, rid) == Some(block.hash))
  }

  function Recorded(blocks: map<Hash, StdBlock>, c: Content): map<Hash, StdBlock> {
    if c.Full? then blocks[c.block.hash := c.block] else blocks
  }

  // One more ack is counted, and the block recorded if it came along.
  function Acked(w: Waiting, c: Content): Waiting {
    var h := HashOf(c);
    Waiting(w.shard, Increment(w.cnt, h), Recorded(w.blocks, c))
  }

  function AckCount(cnt: map<Hash, nat>, h: Hash): nat { if h in cnt then cnt[h] else 0 }

  predicate OneMoreAck(cnt: map<Hash, nat>, cnt': map<Hash, nat>, h: Hash) {
    h in cnt' && cnt'[h] == AckCount(cnt, h) + 1
  }

  // A hash that is not appended yet has one ack more; one that is appended was so with that many.
  lemma {:induction false} AckIsCounted(w: Waiting, c: Content, stored: set<Hash>, threshold: nat, order: seq<Hash>, w': Waiting, stored': set<Hash>)
    requires Swept(Acked(w, c), stored, threshold, order, w', stored')
    ensures HashOf(c) !in order ==> OneMoreAck(w.cnt, w'.cnt, HashOf(c))
    ensures HashOf(c) in order ==>
              Entry(w.shard, HashOf(c), AckCount(w.cnt, HashOf(c)) + 1, threshold) in Entries(Acked(w, c), threshold, order)
  {
    hide Drained, Recorded;
    var h, acked := HashOf(c), Acked(w, c);
    assert h in acked.cnt && acked.cnt[h] == AckCount(w.cnt, h) + 1;
    if h in order {
      var i :| 0 <= i < |order| && order[i] == h;
      assert Entries(acked, threshold, order)[i] == Entry(w.shard, h, acked.cnt[h], threshold);
    }
  }

  lemma {:induction false} LoggedLast(log: seq<Entry>, log': seq<Entry>, entries: seq<Entry>)
    requires log' == log + entries
    ensures forall e <- entries :: e in log'
  {
  }

  // Each drainable block once, after its parent.
  ghost predicate Drained(w: Waiting, stored: set<Hash>, threshold: nat, order: seq<Hash>) {
    && Elements(order) == w.Drain(threshold, stored)
    && (forall i, j | 0 <= i < j < |order| :: order[i] != order[j])
    && w.Causal(stored, order)
  }

  function Entries(w: Waiting, threshold: nat, order: seq<Hash>): (r: seq<Entry>)
    ensures |r| == |order|
  {
    seq(|order|, i requires 0 <= i < |order| =>
      Entry(w.shard, order[i], if order[i] in w.cnt then w.cnt[order[i]] else 0, threshold))
  }

  lemma {:induction false} SmallerWaiting(w: Waiting, h: Hash)
    requires h in w.cnt
    ensures |w.Without(h).cnt| < |w.cnt|
  {
    assert w.cnt.Keys == w.Without(h).cnt.Keys + {h};
  }

  // The drainable blocks were appended in that order, and none is ready now.
  ghost predicate Swept(w: Waiting, stored: set<Hash>, threshold: nat, order: seq<Hash>, w': Waiting, stored': set<Hash>) {
    && Drained(w, stored, threshold, order)
    && w' == w.WithoutAll(order) && stored' == w.StoredAfter(stored, order)
    && forall h | h in w'.cnt :: !w'.Ready(threshold, stored', h)
  }

  function FinishedBy(finish: map<Shard, set<Hash>>, s: Shard): set<Hash> { if s in finish then finish[s] else {} }

  function Finished(finish: map<Shard, set<Hash>>, s: Shard, order: seq<Hash>): map<Shard, set<Hash>> {
    if s in finish then finish[s := finish[s] + Elements(order)] else finish
  }

  lemma {:induction false} FinishedHash(finish: map<Shard, set<Hash>>, s: Shard, h: Hash)
    requires s in finish
    ensures Finished(finish, s, [h]) == finish[s := finish[s] + {h}]
  {
    assert Elements([h]) == {h} by {
      ElementsCons(h, []);
      assert [h] + [] == [h];
    }
  }

  lemma {:induction false} FinishedIn(finish: map<Shard, set<Hash>>, s: Shard, order: seq<Hash>)
    requires s in finish
    ensures var f := Finished(finish, s, order); f - {s} == finish - {s} && FinishedBy(f, s) == FinishedBy(finish, s) + Elements(order)
  {
  }

  lemma {:induction false} FinishedOnce(finish: map<Shard, set<Hash>>, s: Shard, h: Hash, later: seq<Hash>)
    ensures Finished(Finished(finish, s, [h]), s, later) == Finished(finish, s, [h] + later)
  {
    ElementsCons(h, []);
    ElementsCons(h, later);
    assert [h] + [] == [h];
    if s in finish {
      assert finish[s] + Elements([h]) + Elements(later) == finish[s] + Elements([h] + later);
    }
  }

  lemma {:induction false} NothingSwept(w: Waiting, stored: set<Hash>, threshold: nat, finish: map<Shard, set<Hash>>)
    requires forall h | h in w.cnt :: !w.Ready(threshold, stored, h)
    ensures Swept(w, stored, threshold, [], w, stored) && Finished(finish, w.shard, []) == finish
    ensures Entries(w, threshold, []) == []
  {
    NothingReady(w, threshold, stored);
    if w.shard in finish {
      assert finish[w.shard] + Elements([]) == finish[w.shard];
    }
  }

  // A block appended, and then all others that can be drained.
  lemma {:induction false} SweptOnce(w: Waiting, stored: set<Hash>, threshold: nat, h: Hash, later: seq<Hash>, w': Waiting, stored': set<Hash>)
    requires w.Ready(threshold, stored, h)
    requires Swept(w.Without(h), w.StoredWith(stored, h), threshold, later, w', stored')
    ensures Swept(w, stored, threshold, [h] + later, w', stored')
    ensures h in w.cnt && Entries(w, threshold, [h] + later) == [Entry(w.shard, h, w.cnt[h], threshold)] + Entries(w.Without(h), threshold, later)
  {
    hide Waiting.Drain, Waiting.StoredAfter, Waiting.Causal, Waiting.StoredWith, Entries;
    var order := [h] + later;
    DrainStep(w, threshold, stored, h);
    WaitedFor(w.Without(h), threshold, w.StoredWith(stored, h));
    forall x | x in later ensures x in w.Without(h).cnt {
      assert x in Elements(later);
    }
    SameOrder(w, h, w.StoredWith(stored, h), later);
    Consed(w, stored, h, later);
    ElementsCons(h, later);
    EntriesCons(w, threshold, h, later);
    var gone, rest := set x | x in order, set x | x in later;
    assert gone == {h} + rest;
    assert w.cnt - gone == w.cnt - {h} - rest && w.blocks - gone == w.blocks - {h} - rest;
  }

  lemma {:induction false} EntriesCons(w: Waiting, threshold: nat, h: Hash, later: seq<Hash>)
    requires h in w.cnt && h !in later
    ensures Entries(w, threshold, [h] + later) == [Entry(w.shard, h, w.cnt[h], threshold)] + Entries(w.Without(h), threshold, later)
  {
  }

  lemma {:induction false} ElementsCons(h: Hash, later: seq<Hash>)
    ensures Elements([h] + later) == {h} + Elements(later)
  {
    assert ([h] + later)[0] == h;
    forall x | x in later ensures x in [h] + later {}
  }

  lemma {:induction false} WaitedFor(w: Waiting, threshold: nat, stored: set<Hash>)
    ensures w.Drain(threshold, stored) <= w.cnt.Keys
  {
  }

  lemma {:induction false} Consed(w: Waiting, stored: set<Hash>, h: Hash, later: seq<Hash>)
    ensures w.StoredAfter(stored, [h] + later) == w.StoredAfter(w.StoredWith(stored, h), later)
    ensures w.Causal(stored, [h] + later) <==> w.ParentStored(stored, h) && w.Causal(w.StoredWith(stored, h), later)
  {
    assert ([h] + later)[1..] == later;
  }

  // A block that is gone plays no part in an order of the others.
  lemma {:induction false} SameOrder(w: Waiting, h: Hash, stored: set<Hash>, order: seq<Hash>)
    requires w.Without(h).Causal(stored, order)
    ensures w.Causal(stored, order) && w.StoredAfter(stored, order) == w.Without(h).StoredAfter(stored, order)
    decreases order
  {
    if order != [] {
      var x := order[0];
      assert w.StoredWith(stored, x) == w.Without(h).StoredWith(stored, x);
      SameOrder(w, h, w.StoredWith(stored, x), order[1..]);
    }
  }
}
