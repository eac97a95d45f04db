/** Mutual exclusion of the cross-shard lock: b-shards that control overlapping sets of i-shards,
    FIFO links between their main nodes, and any interleaving of the steps of all shards.
    The cross block itself is prepared at the i-shards, executed node by node at the b-shard
    (Opts/Op_PyCrossCommit.go), reported to the i-shards (Comm/PyramidComm/CrossReply.go), and
    appended there (Opts/Op_PyAppendCrossBlock.go), which releases the lock. */
module LockSafety {
  import opened Transactions
  import opened Quorum
  import opened CrossLock

  // Which i-shards each b-shard controls, and how many nodes it has.
  datatype Topology = Topology(related: map<Shard, set<Shard>>, nodes: map<Shard, nat>) {
    // b-shards are not i-shards of others.
    ghost predicate Ok() {
      && related.Keys == nodes.Keys
      && forall b <- related :: related[b] != {} && related[b] !! related.Keys && nodes[b] >= 1
    }

    function T(b: Shard): nat
      requires b in nodes
    {
      Threshold(nodes[b])
    }
  }

  // Where a b-shard's request stands: before it, at its first wait, woken from it, at its second
  // wait, woken from that, and with the cross block under way.
  datatype PC = Idle | Asking | Answered | Confirming | Locked | Crossing

  // A request of a b-shard, which is also the identity of the cross block it leads to.
  datatype Round = Round(b: Shard, n: nat)

  // stale counts the earlier attempts that still have to clear the activating flag.
  datatype BShard = BShard(com: Com, pc: PC, round: nat, stale: nat)

  // holder remembers for which request the i-shard was linked; processing is the cross block it has
  // prepared; replies counts the nodes that reported its execution.
  datatype IShard = IShard(com: Com, holder: Option<Round>, processing: Option<Round>, replies: map<Round, nat>, scheduled: nat)

  datatype Link = Link(b: Shard, i: Shard)

  datatype System = System(topo: Topology, bs: map<Shard, BShard>, ish: map<Shard, IShard>,
                           toI: map<Link, seq<ToI>>, toB: map<Link, seq<ToB>>,
                           crossed: set<Round>, commits: map<Round, set<nat>>, pending: map<(Shard, Round), nat>)

  function CountOf<K>(m: map<K, nat>, k: K): nat { if k in m then m[k] else 0 }

  function CommitsOf(m: map<Round, set<nat>>, r: Round): set<nat> { if r in m then m[r] else {} }

  datatype Step =
    | Request(b: Shard)
    | IReceives(l: Link)
    | BReceives(l: Link)
    | Resume(b: Shard)
    | ClearFlag(b: Shard)
    | Schedule(b: Shard)
    | Respond(i: Shard, hash: Hash)
    | PrepareBlock(i: Shard, r: Round)
    | CommitAtNode(r: Round, k: nat)
    | Reply(i: Shard, r: Round)
    | AppendBlock(i: Shard)

  ghost predicate Enabled(s: System, step: Step) {
    match step
    case Request(b) => b in s.bs && s.bs[b].pc == Idle
    case IReceives(l) => l in s.toI && s.toI[l] != [] && l.i in s.ish && l in s.toB
    case BReceives(l) => l in s.toB && s.toB[l] != [] && l.b in s.bs && l.b in s.topo.related
    case Resume(b) => b in s.bs && s.bs[b].pc == Answered
    case ClearFlag(b) => b in s.bs && s.bs[b].stale > 0
    case Schedule(b) => b in s.bs && s.bs[b].pc == Locked
    case Respond(i, _) =>
      i in s.ish && s.ish[i].com.delayed > 0 && s.ish[i].com.bMainNode.Some? && Link(s.ish[i].com.bMainNode.value, i) in s.toB
    case PrepareBlock(i, r) =>
      i in s.ish && r in s.crossed && r.b in s.topo.related && i in s.topo.related[r.b]
      && s.ish[i].processing == None && CommitsOf(s.commits, r) == {}
    case CommitAtNode(r, k) =>
      && r in s.crossed && r.b in s.topo.related && r.b in s.topo.nodes && r.b in s.bs
      && k < s.topo.nodes[r.b] && k !in CommitsOf(s.commits, r)
      && (k == 0 ==> s.bs[r.b].pc == Crossing && s.bs[r.b].round == r.n)
      && (CommitsOf(s.commits, r) == {} ==> forall i <- s.topo.related[r.b] :: i in s.ish && s.ish[i].processing == Some(r))
    case Reply(i, r) => i in s.ish && r.b in s.topo.nodes && CountOf(s.pending, (i, r)) > 0
    case AppendBlock(i) => i in s.ish && s.ish[i].scheduled > 0 && s.ish[i].processing.Some?
  }

  // b's message goes out on each of its links.
  function Broadcast(toI: map<Link, seq<ToI>>, b: Shard, m: ToI): (toI': map<Link, seq<ToI>>)
    ensures toI'.Keys == toI.Keys
    ensures forall l <- toI :: toI'[l] == if l.b == b then toI[l] + [m] else toI[l]
  {
    map l | l in toI :: if l.b == b then toI[l] + [m] else toI[l]
  }

  function Woken(pc: PC, awake: bool): PC {
    if !awake then pc else match pc case Asking => Answered case Confirming => Locked case _ => pc
  }

  function IAfter(i: IShard, b: Shard, m: ToI): (IShard, seq<ToB>) {
    match m
    case Ask(n) =>
      var (c, out) := Grant(i.com, b);
      (i.(com := c, holder := if out == Granted then Some(Round(b, n)) else i.holder), [out])
    case Confirm => (i.(com := Settle(i.com, b, true)), [])
    case Release =>
      var c := Settle(i.com, b, false);
      (i.(com := c, holder := if c.innerBlocked then i.holder else None), [])
  }

  function BAfter(b: BShard, related: nat, i: Shard, m: ToB): BShard {
    var (c, awake) := match m
      case Granted => Answer(b.com, related, i, true)
      case Refused => Answer(b.com, related, i, false)
      case Top(hash) => TakeTop(b.com, related, i, hash);
    b.(com := c, pc := Woken(b.pc, awake))
  }

  function DoRequest(s: System, b: Shard): System
    requires b in s.bs
  {
    var x := s.bs[b];
    s.(bs := s.bs[b := BShard(Begin(x.com), Asking, x.round + 1, x.stale)], toI := Broadcast(s.toI, b, Ask(x.round + 1)))
  }

  function DoIReceives(s: System, l: Link): System
    requires l in s.toI && s.toI[l] != [] && l.i in s.ish && l in s.toB
  {
    var (i, out) := IAfter(s.ish[l.i], l.b, s.toI[l][0]);
    s.(ish := s.ish[l.i := i], toI := s.toI[l := s.toI[l][1..]], toB := s.toB[l := s.toB[l] + out])
  }

  function DoBReceives(s: System, l: Link): System
    requires l in s.toB && s.toB[l] != [] && l.b in s.bs && l.b in s.topo.related
  {
    s.(bs := s.bs[l.b := BAfter(s.bs[l.b], |s.topo.related[l.b]|, l.i, s.toB[l][0])], toB := s.toB[l := s.toB[l][1..]])
  }

  // The woken request: on to the second wait, or over.
  function Resumed(x: BShard): BShard {
    if x.com.success then x.(com := Decide(x.com).0, pc := Confirming)
    else x.(com := Decide(x.com).0, pc := Idle, stale := x.stale + 1)
  }

  function DoResume(s: System, b: Shard): System
    requires b in s.bs
  {
    s.(bs := s.bs[b := Resumed(s.bs[b])], toI := Broadcast(s.toI, b, Decide(s.bs[b].com).1))
  }

  function DoClearFlag(s: System, b: Shard): System
    requires b in s.bs && s.bs[b].stale > 0
  {
    s.(bs := s.bs[b := s.bs[b].(com := s.bs[b].com.(activating := false), stale := s.bs[b].stale - 1)])
  }

  function DoSchedule(s: System, b: Shard): System
    requires b in s.bs
  {
    s.(bs := s.bs[b := s.bs[b].(com := s.bs[b].com.(activating := false), pc := Crossing)],
       crossed := s.crossed + {Round(b, s.bs[b].round)})
  }

  function DoRespond(s: System, i: Shard, hash: Hash): System
    requires i in s.ish && s.ish[i].com.delayed > 0 && s.ish[i].com.bMainNode.Some? && Link(s.ish[i].com.bMainNode.value, i) in s.toB
  {
    var l := Link(s.ish[i].com.bMainNode.value, i);
    s.(ish := s.ish[i := s.ish[i].(com := Flush(s.ish[i].com))], toB := s.toB[l := s.toB[l] + [Top(hash)]])
  }

  function DoPrepareBlock(s: System, i: Shard, r: Round): System
    requires i in s.ish
  {
    s.(ish := s.ish[i := s.ish[i].(processing := Some(r))])
  }

  // One more report of r is on its way to each of the i-shards.
  function Reported(pending: map<(Shard, Round), nat>, related: set<Shard>, r: Round): (pending': map<(Shard, Round), nat>)
    ensures forall i: Shard, q: Round ::
              CountOf(pending', (i, q)) == CountOf(pending, (i, q)) + (if q == r && i in related then 1 else 0)
  {
    pending + map i | i in related :: (i, r) := CountOf(pending, (i, r)) + 1
  }

  // The main node of b executes the cross block and unblocks b itself.
  function Committed(x: BShard): BShard { x.(com := Done(x.com), pc := Idle) }

  function DoCommitAtNode(s: System, r: Round, k: nat): System
    requires r.b in s.topo.related && r.b in s.bs
  {
    s.(commits := s.commits[r := CommitsOf(s.commits, r) + {k}],
       pending := Reported(s.pending, s.topo.related[r.b], r),
       bs := if k == 0 then s.bs[r.b := Committed(s.bs[r.b])] else s.bs)
  }

  // A report counts while a cross block is being processed; the Threshold-th schedules the append.
  function Replied(topo: Topology, y: IShard, r: Round): IShard
    requires r.b in topo.nodes
  {
    var cnt := CountOf(y.replies, r) + 1;
    if y.processing == None then y
    else y.(replies := y.replies[r := cnt], scheduled := if cnt == topo.T(r.b) then y.scheduled + 1 else y.scheduled)
  }

  function DoReply(s: System, i: Shard, r: Round): System
    requires i in s.ish && r.b in s.topo.nodes && CountOf(s.pending, (i, r)) > 0
  {
    s.(ish := s.ish[i := Replied(s.topo, s.ish[i], r)], pending := s.pending[(i, r) := CountOf(s.pending, (i, r)) - 1])
  }

  function DoAppendBlock(s: System, i: Shard): System
    requires i in s.ish && s.ish[i].scheduled > 0
  {
    var y := s.ish[i];
    s.(ish := s.ish[i := y.(com := Done(y.com), processing := None, holder := None, scheduled := y.scheduled - 1)])
  }

  ghost function Do(s: System, step: Step): System
    requires Enabled(s, step)
  {
    match step
    case Request(b) => DoRequest(s, b)
    case IReceives(l) => DoIReceives(s, l)
    case BReceives(l) => DoBReceives(s, l)
    case Resume(b) => DoResume(s, b)
    case ClearFlag(b) => DoClearFlag(s, b)
    case Schedule(b) => DoSchedule(s, b)
    case Respond(i, hash) => DoRespond(s, i, hash)
    case PrepareBlock(i, r) => DoPrepareBlock(s, i, r)
    case CommitAtNode(r, k) => DoCommitAtNode(s, r, k)
    case Reply(i, r) => DoReply(s, i, r)
    case AppendBlock(i) => DoAppendBlock(s, i)
  }

  ghost predicate Init(s: System) {
    && s.topo.Ok()
    && s.bs == (map b | b in s.topo.related :: BShard(START, Idle, 0, 0))
    && (forall i <- s.ish :: s.ish[i] == IShard(START, None, None, map[], 0))
    && s.toI.Keys == s.toB.Keys
    && (forall b: Shard, i: Shard :: Link(b, i) in s.toI <==> b in s.topo.related && i in s.topo.related[b])
    && (forall l <- s.toI :: l.i in s.ish && s.toI[l] == [] && s.toB[l] == [])
    && s.crossed == {} && s.commits == map[] && s.pending == map[]
  }

  ghost predicate IsRun(run: seq<System>, steps: seq<Step>) {
    && |run| == |steps| + 1 && Init(run[0])
    && forall k: nat | k < |steps| :: Enabled(run[k], steps[k]) && run[k + 1] == Do(run[k], steps[k])
  }

  // What a b-shard and one of its i-shards know of each other, with the messages between them.
  ghost predicate PairOk(b: Shard, i: Shard, x: BShard, y: IShard, q: seq<ToI>, a: seq<ToB>) {
    var held := y.holder == Some(Round(b, x.round));
    var linked := y.com.bMainNode == Some(b);
    var acked := i in x.com.acks;
    match x.pc
    case Idle => a == [] && ((q == [] && !linked) || q == [Release])
    case Asking =>
      || (q == [Ask(x.round)] && a == [] && !acked && !linked && !held)
      || (q == [Release, Ask(x.round)] && a == [] && !acked && !held)
      || (q == [] && a == [Granted] && !acked && linked && held)
      || (q == [] && a == [Refused] && !acked && !linked && !held)
      || (q == [] && a == [] && (linked <==> held) && (acked && x.com.success ==> held))
    case Answered => q == [] && a == [] && (linked <==> held) && (x.com.success ==> held)
    case Confirming =>
      held && (
        || (q == [Confirm] && a == [] && !acked && linked && y.com.delayed == 0)
        || (q == [] && a == [] && !acked && linked && y.com.delayed == 1)
        || (q == [] && |a| == 1 && a[0].Top? && !acked && !linked)
        || (q == [] && a == [] && acked && !linked))
    case Locked => held && q == [] && a == [] && !linked
    case Crossing => q == [] && a == [] && !linked
  }

  ghost predicate BOk(topo: Topology, b: Shard, x: BShard) {
    && b in topo.related && x.com.acks <= topo.related[b]
    && (x.pc == Answered ==> x.com.acks == {})
    && (x.pc in {Confirming, Locked, Crossing} ==> x.com.innerBlocked)
  }

  // The i-shard's own state is coherent.
  ghost predicate IOk(topo: Topology, bs: map<Shard, BShard>, crossed: set<Round>, i: Shard, y: IShard) {
    && (y.holder == None <==> !y.com.innerBlocked)
    && (y.holder.Some? ==> y.holder.value.b in bs && y.holder.value.b in topo.related && y.holder.value.b in topo.nodes
                           && i in topo.related[y.holder.value.b] && y.holder.value.n <= bs[y.holder.value.b].round)
    && (y.com.bMainNode.Some? ==> y.holder.Some? && y.holder.value.b == y.com.bMainNode.value && y.holder.value !in crossed)
    && (y.com.delayed > 0 ==> y.com.delayed == 1 && y.com.bMainNode.Some? && bs[y.com.bMainNode.value].pc == Confirming)
    && (y.processing.Some? ==> y.holder == y.processing && y.processing.value in crossed)
    && (forall r: Round | CountOf(y.replies, r) > 0 :: r in crossed)
    && (y.scheduled > 0 ==> y.scheduled == 1 && y.processing.Some? && CountOf(y.replies, y.processing.value) >= topo.T(y.processing.value.b))
  }

  // A crossed request is that of a shard whose request has got through.
  ghost predicate CrossedOk(bs: map<Shard, BShard>, r: Round) {
    r.b in bs && r.n <= bs[r.b].round && (r.n == bs[r.b].round ==> bs[r.b].pc in {Crossing, Idle})
  }

  // Until Threshold nodes have reported the cross block, the i-shard is held for it.
  ghost predicate ReportOk(topo: Topology, commits: map<Round, set<nat>>, pending: map<(Shard, Round), nat>, r: Round, i: Shard, y: IShard) {
    && r.b in topo.nodes
    && (CountOf(y.replies, r) < topo.T(r.b) ==> y.holder == Some(r))
    && CountOf(pending, (i, r)) + CountOf(y.replies, r) <= |CommitsOf(commits, r)|
  }

  ghost predicate Shape(s: System) {
    && s.topo.Ok() && s.bs.Keys == s.topo.related.Keys
    && s.toI.Keys == s.toB.Keys
    && (forall b: Shard, i: Shard :: Link(b, i) in s.toI <==> b in s.topo.related && i in s.topo.related[b])
    && (forall l <- s.toI :: l.i in s.ish)
  }

  ghost predicate Pairs(s: System)
    requires Shape(s)
  {
    forall l <- s.toI :: PairOk(l.b, l.i, s.bs[l.b], s.ish[l.i], s.toI[l], s.toB[l])
  }

  ghost predicate Reports(s: System)
    requires Shape(s)
  {
    forall r <- s.crossed, i: Shard | r.b in s.topo.related && i in s.topo.related[r.b] ::
      i in s.ish && ReportOk(s.topo, s.commits, s.pending, r, i, s.ish[i])
  }

  ghost predicate Parts(s: System)
    requires Shape(s)
  {
    && (forall b <- s.bs :: BOk(s.topo, b, s.bs[b]))
    && (forall i <- s.ish :: IOk(s.topo, s.bs, s.crossed, i, s.ish[i]))
    && (forall r <- s.crossed :: CrossedOk(s.bs, r))
    && s.commits.Keys <= s.crossed
    && (forall i: Shard, r: Round | CountOf(s.pending, (i, r)) > 0 :: r in s.crossed && Link(r.b, i) in s.toI)
  }

  ghost predicate Inv(s: System) {
    Shape(s) && Parts(s) && Pairs(s) && Reports(s)
  }

  // The request r has passed its first wait with success, and its cross block has not been
  // executed by Threshold nodes yet.
  ghost predicate Owns(s: System, r: Round)
    requires Shape(s)
  {
    r.b in s.bs && r.b in s.topo.nodes && (
      || (r.n == s.bs[r.b].round && ((s.bs[r.b].pc == Answered && s.bs[r.b].com.success) || s.bs[r.b].pc in {Confirming, Locked}))
      || (r in s.crossed && |CommitsOf(s.commits, r)| < s.topo.T(r.b)))
  }

  lemma {:induction false} InitOk(s: System)
    requires Init(s)
    ensures Inv(s)
  {
    hide PairOk, BOk, IOk, CrossedOk, ReportOk, Topology.Ok;
    forall l | l in s.toI ensures PairOk(l.b, l.i, s.bs[l.b], s.ish[l.i], s.toI[l], s.toB[l]) {
      FreshPair(l.b, l.i);
    }
    forall b | b in s.bs ensures BOk(s.topo, b, s.bs[b]) {
      FreshShards(s.topo, s.bs, b, 0);
    }
    forall i | i in s.ish ensures IOk(s.topo, s.bs, s.crossed, i, s.ish[i]) {
      FreshShards(s.topo, s.bs, 0, i);
    }
  }

  lemma {:induction false} FreshPair(b: Shard, i: Shard)
    ensures PairOk(b, i, BShard(START, Idle, 0, 0), IShard(START, None, None, map[], 0), [], [])
  {}

  lemma {:induction false} FreshShards(topo: Topology, bs: map<Shard, BShard>, b: Shard, i: Shard)
    ensures b in topo.related ==> BOk(topo, b, BShard(START, Idle, 0, 0))
    ensures IOk(topo, bs, {}, i, IShard(START, None, None, map[], 0))
  {}

  // Every i-shard an owner controls is held for it and blocked; while the owner has not confirmed
  // yet, the i-shard is linked to it.
  lemma {:induction false} OwnerHolds(s: System, r: Round, i: Shard)
    requires Inv(s) && Owns(s, r) && r.b in s.topo.related && i in s.topo.related[r.b]
    ensures i in s.ish && s.ish[i].holder == Some(r) && s.ish[i].com.innerBlocked
    ensures r.n == s.bs[r.b].round && s.bs[r.b].pc == Answered ==> s.ish[i].com.bMainNode == Some(r.b)
  {
    hide Enabled, Do, PairOk, IOk, CrossedOk, ReportOk, BOk;
    var l := Link(r.b, i);
    LinkFacts(s, l);
    var x := s.bs[r.b];
    if r.n == x.round && x.pc !in {Crossing, Idle} {
      CrossedNotAnswered(s.bs, s.crossed, r);
      HeldBy(r.b, i, x, s.ish[i], s.toI[l], s.toB[l]);
    } else {
      CrossedFacts(s, r, i);
      LessThan(s.topo, s.commits, s.pending, r, i, s.ish[i]);
    }
    Blocked(s.topo, s.bs, s.crossed, i, s.ish[i]);
  }

  // What the invariant says of one link.
  lemma {:induction false} LinkFacts(s: System, l: Link)
    requires Inv(s) && l in s.toI
    ensures l.b in s.bs && l.b in s.topo.related && l.b in s.topo.nodes && l.i in s.topo.related[l.b] && l.i in s.ish && l in s.toB
    ensures PairOk(l.b, l.i, s.bs[l.b], s.ish[l.i], s.toI[l], s.toB[l])
    ensures BOk(s.topo, l.b, s.bs[l.b]) && IOk(s.topo, s.bs, s.crossed, l.i, s.ish[l.i])
    ensures |s.topo.related[l.b]| > 0
  {
    hide PairOk, IOk, BOk, CrossedOk, ReportOk;
    assert Link(l.b, l.i) == l;
    assert s.topo.related[l.b] != {};
  }

  lemma {:induction false} CrossedFacts(s: System, r: Round, i: Shard)
    requires Inv(s) && r in s.crossed && r.b in s.topo.related && i in s.topo.related[r.b]
    ensures CrossedOk(s.bs, r) && i in s.ish && r.b in s.topo.nodes
    ensures ReportOk(s.topo, s.commits, s.pending, r, i, s.ish[i])
  {
    hide PairOk, IOk, BOk, CrossedOk, ReportOk;
  }

  lemma {:induction false} LessThan(topo: Topology, commits: map<Round, set<nat>>, pending: map<(Shard, Round), nat>, r: Round, i: Shard, y: IShard)
    requires ReportOk(topo, commits, pending, r, i, y)
    ensures |CommitsOf(commits, r)| < topo.T(r.b) ==> y.holder == Some(r)
  {}

  lemma {:induction false} HeldBy(b: Shard, i: Shard, x: BShard, y: IShard, q: seq<ToI>, a: seq<ToB>)
    requires PairOk(b, i, x, y, q, a)
    requires (x.pc == Answered && x.com.success) || x.pc in {Confirming, Locked}
    ensures y.holder == Some(Round(b, x.round)) && (x.pc == Answered ==> y.com.bMainNode == Some(b))
  {}

  lemma {:induction false} Blocked(topo: Topology, bs: map<Shard, BShard>, crossed: set<Round>, i: Shard, y: IShard)
    requires IOk(topo, bs, crossed, i, y)
    ensures y.holder.Some? ==> y.com.innerBlocked
  {}

  lemma {:induction false} CrossedNotAnswered(bs: map<Shard, BShard>, crossed: set<Round>, r: Round)
    requires forall c <- crossed :: CrossedOk(bs, c)
    requires r.b in bs && r.n == bs[r.b].round && bs[r.b].pc !in {Crossing, Idle}
    ensures r !in crossed
  {}

  // Two requests that share an i-shard are never both past their first wait with success while
  // their cross blocks are not executed.
  lemma {:induction false} Exclusion(s: System, r1: Round, r2: Round, i: Shard)
    requires Inv(s) && Owns(s, r1) && Owns(s, r2)
    requires r1.b in s.topo.related && r2.b in s.topo.related && i in s.topo.related[r1.b] && i in s.topo.related[r2.b]
    ensures r1 == r2
  {
    OwnerHolds(s, r1, i);
    OwnerHolds(s, r2, i);
  }

  // ---- b-shard steps on one link ----

  lemma {:induction false} PairRequest(b: Shard, i: Shard, x: BShard, y: IShard, q: seq<ToI>, a: seq<ToB>)
    requires PairOk(b, i, x, y, q, a) && x.pc == Idle
    requires y.holder.Some? && y.holder.value.b == b ==> y.holder.value.n <= x.round
    ensures PairOk(b, i, BShard(Begin(x.com), Asking, x.round + 1, x.stale), y, q + [Ask(x.round + 1)], a)
  {
    if q == [] {
      assert q + [Ask(x.round + 1)] == [Ask(x.round + 1)];
    }
  }

  lemma {:induction false} PairResume(b: Shard, i: Shard, x: BShard, y: IShard, q: seq<ToI>, a: seq<ToB>)
    requires PairOk(b, i, x, y, q, a) && x.pc == Answered && x.com.acks == {}
    requires x.com.success ==> y.com.delayed == 0
    ensures PairOk(b, i, Resumed(x), y, q + [Decide(x.com).1], a)
  {
    assert q + [Decide(x.com).1] == [Decide(x.com).1];
  }

  // Does this message complete the acknowledgements?
  function Wakes(x: BShard, related: nat, j: Shard, m: ToB): bool {
    if m.Top? then |x.com.acks + {j}| == related else x.com.activating && |x.com.acks + {j}| == related
  }

  // The link a message to b came in on.
  lemma {:induction false} PairReceiving(b: Shard, i: Shard, x: BShard, y: IShard, q: seq<ToI>, a: seq<ToB>, related: nat)
    requires PairOk(b, i, x, y, q, a) && a != []
    ensures x.pc == Asking || x.pc == Confirming
    ensures a[0].Top? <==> x.pc == Confirming
    ensures PairOk(b, i, BAfter(x, related, i, a[0]), y, q, a[1..])
  {
    assert a[1..] == [];
  }

  // The other links of b.
  lemma {:induction false} PairReceivingElsewhere(b: Shard, i: Shard, x: BShard, y: IShard, q: seq<ToI>, a: seq<ToB>, related: nat, j: Shard, m: ToB)
    requires PairOk(b, i, x, y, q, a) && i != j
    requires x.pc == Asking || x.pc == Confirming
    requires m.Top? <==> x.pc == Confirming
    requires Wakes(x, related, j, m) ==> i in x.com.acks
    ensures PairOk(b, i, BAfter(x, related, j, m), y, q, a)
  {}

  // ---- i-shard steps ----

  // What a pair knows of its i-shard is only whether it is held for, or linked to, this b-shard.
  lemma {:induction false} PairUnaffected(b: Shard, i: Shard, x: BShard, y: IShard, y': IShard, q: seq<ToI>, a: seq<ToB>)
    requires PairOk(b, i, x, y, q, a)
    requires x.pc !in {Idle, Crossing} ==> (y.holder == Some(Round(b, x.round)) <==> y'.holder == Some(Round(b, x.round)))
    requires y.com.bMainNode == Some(b) <==> y'.com.bMainNode == Some(b)
    requires y.com.bMainNode == Some(b) ==> y.com.delayed == y'.com.delayed
    ensures PairOk(b, i, x, y', q, a)
  {}

  // What an i-shard is sure of by itself, for the b-shard x = bs[b].
  ghost predicate Coherent(b: Shard, x: BShard, y: IShard) {
    && (y.holder == None <==> !y.com.innerBlocked)
    && (y.holder.Some? && y.holder.value.b == b ==> y.holder.value.n <= x.round)
    && (y.com.bMainNode.Some? ==> y.holder.Some? && y.holder.value.b == y.com.bMainNode.value)
  }

  lemma {:induction false} IOkCoherent(topo: Topology, bs: map<Shard, BShard>, crossed: set<Round>, i: Shard, y: IShard, b: Shard)
    requires IOk(topo, bs, crossed, i, y) && b in bs
    ensures Coherent(b, bs[b], y)
  {}

  // A message to i on its own link.
  lemma {:induction false} PairHandling(b: Shard, i: Shard, x: BShard, y: IShard, q: seq<ToI>, a: seq<ToB>)
    requires PairOk(b, i, x, y, q, a) && q != [] && Coherent(b, x, y)
    ensures x.pc in {Idle, Asking, Confirming}
    ensures PairOk(b, i, x, IAfter(y, b, q[0]).0, q[1..], a + IAfter(y, b, q[0]).1)
  {
    assert a == [] && forall out: seq<ToB> :: a + out == out;
    assert q[1..] == [] || q[1..] == [Ask(x.round)];
    match q[0]
    case Ask(n) =>
    case Confirm =>
    case Release =>
  }

  // ... seen from another b-shard that controls i.
  lemma {:induction false} HandlingElsewhere(b: Shard, y: IShard, m: ToI, c: Shard, x: BShard)
    requires c != b && Coherent(b, x, y)
    ensures var y' := IAfter(y, b, m).0;
            && (forall n: nat :: y.holder == Some(Round(c, n)) <==> y'.holder == Some(Round(c, n)))
            && (y.com.bMainNode == Some(c) <==> y'.com.bMainNode == Some(c))
            && (y.com.bMainNode == Some(c) ==> y.com.delayed == y'.com.delayed)
  {
    match m
    case Ask(n) =>
    case Confirm =>
    case Release =>
  }

  lemma {:induction false} IOkAfterMessage(topo: Topology, bs: map<Shard, BShard>, crossed: set<Round>, b: Shard, i: Shard, y: IShard, q: seq<ToI>, a: seq<ToB>)
    requires IOk(topo, bs, crossed, i, y) && b in bs && PairOk(b, i, bs[b], y, q, a) && q != []
    requires b in topo.related && b in topo.nodes && i in topo.related[b]
    requires forall c <- crossed :: CrossedOk(bs, c)
    ensures IOk(topo, bs, crossed, i, IAfter(y, b, q[0]).0)
    ensures IAfter(y, b, q[0]).0.replies == y.replies
    ensures forall r <- crossed :: y.holder == Some(r) ==> IAfter(y, b, q[0]).0.holder == Some(r)
  {
    if bs[b].pc !in {Crossing, Idle} {
      CrossedNotAnswered(bs, crossed, Round(b, bs[b].round));
    }
    match q[0]
    case Ask(n) =>
    case Confirm =>
    case Release =>
  }

  lemma {:induction false} SameReports(s: System, r: Round, i: Shard, y': IShard)
    requires Inv(s) && r in s.crossed && r.b in s.topo.related && i in s.topo.related[r.b] && i in s.ish
    requires y'.replies == s.ish[i].replies
    requires s.ish[i].holder == Some(r) ==> y'.holder == Some(r)
    ensures ReportOk(s.topo, s.commits, s.pending, r, i, y')
  {
    assert ReportOk(s.topo, s.commits, s.pending, r, i, s.ish[i]);
  }

  // ---- every step keeps the invariant ----

  lemma {:induction false} ShardFacts(s: System, i: Shard)
    requires Inv(s) && i in s.ish
    ensures IOk(s.topo, s.bs, s.crossed, i, s.ish[i])
  {
    hide IOk, BOk, CrossedOk, PairOk, ReportOk;
  }

  lemma {:induction false} BFacts(s: System, b: Shard)
    requires Inv(s) && b in s.bs
    ensures BOk(s.topo, b, s.bs[b]) && b in s.topo.related && b in s.topo.nodes
  {
    hide IOk, BOk, CrossedOk, PairOk, ReportOk;
  }

  lemma {:induction false} RoundFacts(s: System, r: Round)
    requires Inv(s)
    ensures r in s.crossed ==> CrossedOk(s.bs, r) && r.b in s.topo.nodes && r.b in s.topo.related
    ensures r !in s.crossed ==> CommitsOf(s.commits, r) == {} && forall i: Shard :: CountOf(s.pending, (i, r)) == 0
    ensures s.commits.Keys <= s.crossed
    ensures forall i: Shard | CountOf(s.pending, (i, r)) > 0 :: r in s.crossed && Link(r.b, i) in s.toI
  {
    hide IOk, BOk, PairOk, ReportOk;
  }

  lemma {:induction false} ShapeKept(s: System, s': System)
    requires Shape(s) && s'.topo == s.topo && s'.bs.Keys == s.bs.Keys && s'.ish.Keys == s.ish.Keys
    requires s'.toI.Keys == s.toI.Keys && s'.toB.Keys == s.toB.Keys
    ensures Shape(s')
    ensures forall l <- s'.toI :: l.b in s'.bs && l.i in s'.ish && l in s'.toB
  {
    hide Topology.Ok;
    ShapeLinks(s');
  }

  lemma {:induction false} ShapeLinks(s: System)
    requires Shape(s)
    ensures s.toI.Keys == s.toB.Keys
    ensures forall l <- s.toI :: l.b in s.bs && l.i in s.ish && l in s.toB
    ensures forall b <- s.topo.related, i <- s.topo.related[b] :: Link(b, i) in s.toI
  {
    hide Topology.Ok;
    forall l | l in s.toI ensures l.b in s.bs {
      assert Link(l.b, l.i) == l;
    }
  }

  // ---- b asks ----

  lemma {:induction false} RequestPairs(s: System, b: Shard)
    requires Inv(s) && b in s.bs && s.bs[b].pc == Idle
    ensures Shape(DoRequest(s, b)) && Pairs(DoRequest(s, b))
  {
    hide Shape, Broadcast, PairOk, IOk, BOk, Parts, Reports, Begin;
    var s' := DoRequest(s, b);
    ShapeKept(s, s');
    forall l | l in s'.toI ensures PairOk(l.b, l.i, s'.bs[l.b], s'.ish[l.i], s'.toI[l], s'.toB[l]) {
      LinkFacts(s, l);
      if l.b == b {
        IOkCoherent(s.topo, s.bs, s.crossed, l.i, s.ish[l.i], b);
        PairRequest(b, l.i, s.bs[b], s.ish[l.i], s.toI[l], s.toB[l]);
      }
    }
  }

  lemma {:induction false} RequestParts(s: System, b: Shard)
    requires Inv(s) && b in s.bs && s.bs[b].pc == Idle && Shape(DoRequest(s, b))
    ensures Parts(DoRequest(s, b)) && Reports(DoRequest(s, b))
  {
    hide Shape, Broadcast, PairOk, IOk, BOk, CrossedOk, ReportOk, Pairs, Begin;
    var s' := DoRequest(s, b);
    forall i | i in s'.ish ensures IOk(s'.topo, s'.bs, s'.crossed, i, s'.ish[i]) {
      ShardFacts(s, i);
      IOkLater(s.topo, s.bs, s'.bs, s.crossed, i, s.ish[i], b);
    }
    BOkRequest(s.topo, b, s.bs[b]);
    forall r | r in s'.crossed ensures CrossedOk(s'.bs, r) {
      CrossedLater(s.bs, s'.bs, r, b);
    }
  }

  lemma {:induction false} BOkRequest(topo: Topology, b: Shard, x: BShard)
    requires BOk(topo, b, x)
    ensures BOk(topo, b, BShard(Begin(x.com), Asking, x.round + 1, x.stale))
  {}

  // b moves on from a state in which no i-shard has a delayed response for it.
  lemma {:induction false} IOkLater(topo: Topology, bs: map<Shard, BShard>, bs': map<Shard, BShard>, crossed: set<Round>, i: Shard, y: IShard, b: Shard)
    requires IOk(topo, bs, crossed, i, y) && b in bs && b in bs' && bs' == bs[b := bs'[b]]
    requires bs'[b].round >= bs[b].round
    requires y.com.delayed > 0 && y.com.bMainNode == Some(b) ==> bs[b].pc != Confirming || bs'[b].pc == Confirming
    ensures IOk(topo, bs', crossed, i, y)
  {}

  lemma {:induction false} CrossedLater(bs: map<Shard, BShard>, bs': map<Shard, BShard>, r: Round, b: Shard)
    requires CrossedOk(bs, r) && b in bs && b in bs' && bs' == bs[b := bs'[b]]
    requires bs'[b].round > bs[b].round || (bs'[b].round == bs[b].round && (bs[b].pc in {Crossing, Idle} ==> bs'[b].pc in {Crossing, Idle}))
    ensures CrossedOk(bs', r)
  {}

  // ---- i handles a message ----

  lemma {:induction false} IReceivesPairs(s: System, l: Link)
    requires Inv(s) && l in s.toI && s.toI[l] != []
    ensures l in s.toB && l.i in s.ish && Shape(DoIReceives(s, l)) && Pairs(DoIReceives(s, l))
  {
    hide Shape, Broadcast, PairOk, IOk, BOk, Parts, Reports, IAfter;
    LinkFacts(s, l);
    var s' := DoIReceives(s, l);
    ShapeKept(s, s');
    var b, x, y := l.b, s.bs[l.b], s.ish[l.i];
    IOkCoherent(s.topo, s.bs, s.crossed, l.i, y, b);
    PairHandling(b, l.i, x, y, s.toI[l], s.toB[l]);
    forall k | k in s'.toI ensures PairOk(k.b, k.i, s'.bs[k.b], s'.ish[k.i], s'.toI[k], s'.toB[k]) {
      LinkFacts(s, k);
      if k != l && k.i == l.i {
        HandlingElsewhere(b, y, s.toI[l][0], k.b, x);
        PairUnaffected(k.b, k.i, s.bs[k.b], y, s'.ish[l.i], s.toI[k], s.toB[k]);
      }
    }
  }

  lemma {:induction false} IReceivesParts(s: System, l: Link)
    requires Inv(s) && l in s.toI && s.toI[l] != [] && l in s.toB && l.i in s.ish && Shape(DoIReceives(s, l))
    ensures Parts(DoIReceives(s, l)) && Reports(DoIReceives(s, l))
  {
    hide Shape, Broadcast, PairOk, IOk, BOk, CrossedOk, ReportOk, Pairs, IAfter;
    var s' := DoIReceives(s, l);
    LinkFacts(s, l);
    IOkAfterMessage(s.topo, s.bs, s.crossed, l.b, l.i, s.ish[l.i], s.toI[l], s.toB[l]);
    forall r, i: Shard | r in s'.crossed && r.b in s'.topo.related && i in s'.topo.related[r.b]
      ensures i in s'.ish && ReportOk(s'.topo, s'.commits, s'.pending, r, i, s'.ish[i])
    {
      CrossedFacts(s, r, i);
      SameReports(s, r, i, s'.ish[i]);
    }
  }

  // ---- b handles a message ----

  lemma {:induction false} AllAcked(acks: set<Shard>, j: Shard, related: set<Shard>)
    requires acks <= related && j in related && |acks + {j}| == |related|
    ensures related <= acks + {j}
  {
    SizeOfSubset(acks + {j}, related);
    assert related == (acks + {j}) + (related - (acks + {j}));
  }

  lemma {:induction false} BReceivesPairs(s: System, l: Link)
    requires Inv(s) && l in s.toB && s.toB[l] != []
    ensures l.b in s.bs && l.b in s.topo.related && Shape(DoBReceives(s, l)) && Pairs(DoBReceives(s, l))
    ensures s.bs[l.b].pc in {Asking, Confirming} && (s.toB[l][0].Top? <==> s.bs[l.b].pc == Confirming)
  {
    hide Shape, Broadcast, PairOk, IOk, BOk, Parts, Reports, BAfter, Wakes;
    ShapeLinks(s);
    LinkFacts(s, l);
    var s' := DoBReceives(s, l);
    ShapeKept(s, s');
    var b, x, m, n := l.b, s.bs[l.b], s.toB[l][0], |s.topo.related[l.b]|;
    PairReceiving(b, l.i, x, s.ish[l.i], s.toI[l], s.toB[l], n);
    forall k | k in s'.toI ensures PairOk(k.b, k.i, s'.bs[k.b], s'.ish[k.i], s'.toI[k], s'.toB[k]) {
      LinkFacts(s, k);
      if k != l && k.b == b {
        WakesAfterAll(s.topo, b, x, l.i, m, k.i);
        PairReceivingElsewhere(b, k.i, x, s.ish[k.i], s.toI[k], s.toB[k], n, l.i, m);
      }
    }
  }

  lemma {:induction false} BReceivesParts(s: System, l: Link)
    requires Inv(s) && l in s.toB && s.toB[l] != [] && l.b in s.bs && l.b in s.topo.related
    requires Shape(DoBReceives(s, l)) && Pairs(DoBReceives(s, l))
    requires s.bs[l.b].pc in {Asking, Confirming} && (s.toB[l][0].Top? <==> s.bs[l.b].pc == Confirming)
    ensures Parts(DoBReceives(s, l)) && Reports(DoBReceives(s, l))
  {
    hide Shape, Broadcast, PairOk, IOk, BOk, CrossedOk, ReportOk, BAfter, Wakes;
    var s' := DoBReceives(s, l);
    var b, x, m, n := l.b, s.bs[l.b], s.toB[l][0], |s.topo.related[l.b]|;
    ShapeLinks(s);
    LinkFacts(s, l);
    AfterMessage(x, n, l.i, m);
    BOkAfterMessage(s.topo, b, x, l.i, m);
    forall i | i in s'.ish ensures IOk(s'.topo, s'.bs, s'.crossed, i, s'.ish[i]) {
      ShardFacts(s, i);
      if s.ish[i].com.delayed > 0 && s.ish[i].com.bMainNode == Some(b) {
        DelayedLink(s, b, i);
        assert PairOk(b, i, s'.bs[b], s.ish[i], s'.toI[Link(b, i)], s'.toB[Link(b, i)]);
        DelayedMeansWaiting(b, i, s'.bs[b], s.ish[i], s'.toI[Link(b, i)], s'.toB[Link(b, i)]);
      }
      IOkLater(s.topo, s.bs, s'.bs, s.crossed, i, s.ish[i], b);
    }
    forall r | r in s'.crossed ensures CrossedOk(s'.bs, r) {
      CrossedLater(s.bs, s'.bs, r, b);
    }
  }

  lemma {:induction false} AfterMessage(x: BShard, related: nat, j: Shard, m: ToB)
    ensures BAfter(x, related, j, m).round == x.round
    ensures x.pc == Asking && !m.Top? ==> BAfter(x, related, j, m).pc in {Asking, Answered}
    ensures x.pc == Confirming && m.Top? ==> BAfter(x, related, j, m).pc in {Confirming, Locked}
  {}

  lemma {:induction false} WakesAfterAll(topo: Topology, b: Shard, x: BShard, j: Shard, m: ToB, i: Shard)
    requires BOk(topo, b, x) && j in topo.related[b] && i in topo.related[b] && i != j
    ensures Wakes(x, |topo.related[b]|, j, m) ==> i in x.com.acks
  {
    if Wakes(x, |topo.related[b]|, j, m) {
      AllAcked(x.com.acks, j, topo.related[b]);
    }
  }

  lemma {:induction false} BOkAfterMessage(topo: Topology, b: Shard, x: BShard, j: Shard, m: ToB)
    requires BOk(topo, b, x) && j in topo.related[b] && x.pc in {Asking, Confirming}
    requires m.Top? <==> x.pc == Confirming
    ensures BOk(topo, b, BAfter(x, |topo.related[b]|, j, m))
  {}

  lemma {:induction false} DelayedLink(s: System, b: Shard, i: Shard)
    requires Inv(s) && i in s.ish && s.ish[i].com.bMainNode == Some(b)
    ensures Link(b, i) in s.toI && Link(b, i) in s.toB && b in s.bs && s.ish[i].com.delayed <= 1
    ensures s.ish[i].com.delayed > 0 ==> s.bs[b].pc == Confirming
  {
    hide PairOk, BOk, CrossedOk, ReportOk;
    ShardFacts(s, i);
  }

  // A linked i-shard has not responded, so its b-shard cannot have been woken from its second wait.
  lemma {:induction false} DelayedMeansWaiting(b: Shard, i: Shard, x: BShard, y: IShard, q: seq<ToI>, a: seq<ToB>)
    requires PairOk(b, i, x, y, q, a) && y.com.bMainNode == Some(b)
    ensures x.pc !in {Locked, Crossing}
  {}

  // ---- b goes on after its first wait ----

  lemma {:induction false} ResumePairs(s: System, b: Shard)
    requires Inv(s) && b in s.bs && s.bs[b].pc == Answered
    ensures Shape(DoResume(s, b)) && Pairs(DoResume(s, b))
  {
    hide Shape, Broadcast, PairOk, IOk, BOk, Parts, Reports, Resumed, Decide;
    var s' := DoResume(s, b);
    ShapeKept(s, s');
    forall l | l in s'.toI ensures PairOk(l.b, l.i, s'.bs[l.b], s'.ish[l.i], s'.toI[l], s'.toB[l]) {
      LinkFacts(s, l);
      if l.b == b {
        NoneDelayed(s, b, l.i);
        PairResume(b, l.i, s.bs[b], s.ish[l.i], s.toI[l], s.toB[l]);
      }
    }
  }

  lemma {:induction false} NoneDelayed(s: System, b: Shard, i: Shard)
    requires Inv(s) && Link(b, i) in s.toI && b in s.bs && s.bs[b].pc == Answered && i in s.ish
    ensures s.bs[b].com.acks == {}
    ensures s.bs[b].com.success ==> s.ish[i].com.delayed == 0
  {
    hide PairOk, IOk, CrossedOk, ReportOk;
    LinkFacts(s, Link(b, i));
    if s.bs[b].com.success {
      HeldBy(b, i, s.bs[b], s.ish[i], s.toI[Link(b, i)], s.toB[Link(b, i)]);
      DelayedLink(s, b, i);
    }
  }

  lemma {:induction false} ResumeParts(s: System, b: Shard)
    requires Inv(s) && b in s.bs && s.bs[b].pc == Answered && Shape(DoResume(s, b))
    ensures Parts(DoResume(s, b)) && Reports(DoResume(s, b))
  {
    hide Shape, Broadcast, PairOk, IOk, BOk, CrossedOk, ReportOk, Pairs, Resumed, Decide;
    var s' := DoResume(s, b);
    BFacts(s, b);
    AfterResume(s.topo, b, s.bs[b]);
    forall i | i in s'.ish ensures IOk(s'.topo, s'.bs, s'.crossed, i, s'.ish[i]) {
      ShardFacts(s, i);
      IOkLater(s.topo, s.bs, s'.bs, s.crossed, i, s.ish[i], b);
    }
    forall r | r in s'.crossed ensures CrossedOk(s'.bs, r) {
      CrossedLater(s.bs, s'.bs, r, b);
    }
  }

  lemma {:induction false} AfterResume(topo: Topology, b: Shard, x: BShard)
    requires BOk(topo, b, x)
    ensures BOk(topo, b, Resumed(x)) && Resumed(x).round == x.round
  {}

  // ---- an earlier attempt clears the flag ----

  lemma {:induction false} ClearFlagOk(s: System, b: Shard)
    requires Inv(s) && b in s.bs && s.bs[b].stale > 0
    ensures Inv(DoClearFlag(s, b))
  {
    hide Shape, Broadcast, PairOk, IOk, BOk, CrossedOk, ReportOk;
    var s' := DoClearFlag(s, b);
    ShapeKept(s, s');
    var x, x' := s.bs[b], s'.bs[b];
    forall l | l in s'.toI ensures PairOk(l.b, l.i, s'.bs[l.b], s'.ish[l.i], s'.toI[l], s'.toB[l]) {
      LinkFacts(s, l);
      if l.b == b {
        FlagIrrelevant(b, l.i, x, x', s.ish[l.i], s.toI[l], s.toB[l]);
      }
    }
    BFacts(s, b);
    BOkFlag(s.topo, b, x, x');
    forall i | i in s'.ish ensures IOk(s'.topo, s'.bs, s'.crossed, i, s'.ish[i]) {
      ShardFacts(s, i);
      IOkLater(s.topo, s.bs, s'.bs, s.crossed, i, s.ish[i], b);
    }
    forall r | r in s'.crossed ensures CrossedOk(s'.bs, r) {
      RoundFacts(s, r);
      CrossedLater(s.bs, s'.bs, r, b);
    }
  }

  lemma {:induction false} FlagIrrelevant(b: Shard, i: Shard, x: BShard, x': BShard, y: IShard, q: seq<ToI>, a: seq<ToB>)
    requires PairOk(b, i, x, y, q, a) && x' == x.(com := x.com.(activating := x'.com.activating), stale := x'.stale)
    ensures PairOk(b, i, x', y, q, a)
  {}

  lemma {:induction false} BOkFlag(topo: Topology, b: Shard, x: BShard, x': BShard)
    requires BOk(topo, b, x) && x' == x.(com := x.com.(activating := x'.com.activating), stale := x'.stale)
    ensures BOk(topo, b, x')
  {}

  // ---- b schedules the cross block ----

  lemma {:induction false} SchedulePairs(s: System, b: Shard)
    requires Inv(s) && b in s.bs && s.bs[b].pc == Locked
    ensures Shape(DoSchedule(s, b)) && Pairs(DoSchedule(s, b))
  {
    hide Shape, Broadcast, PairOk, IOk, BOk, Parts, Reports;
    var s' := DoSchedule(s, b);
    ShapeKept(s, s');
    forall l | l in s'.toI ensures PairOk(l.b, l.i, s'.bs[l.b], s'.ish[l.i], s'.toI[l], s'.toB[l]) {
      LinkFacts(s, l);
      if l.b == b {
        PairSchedule(b, l.i, s.bs[b], s.ish[l.i], s.toI[l], s.toB[l]);
      }
    }
  }

  lemma {:induction false} PairSchedule(b: Shard, i: Shard, x: BShard, y: IShard, q: seq<ToI>, a: seq<ToB>)
    requires PairOk(b, i, x, y, q, a) && x.pc == Locked
    ensures PairOk(b, i, x.(com := x.com.(activating := false), pc := Crossing), y, q, a)
    ensures y.holder == Some(Round(b, x.round)) && y.com.bMainNode != Some(b)
  {}

  lemma {:induction false} ScheduleParts(s: System, b: Shard)
    requires Inv(s) && b in s.bs && s.bs[b].pc == Locked && Shape(DoSchedule(s, b))
    ensures Parts(DoSchedule(s, b)) && Reports(DoSchedule(s, b))
  {
    hide Shape, Broadcast, PairOk, IOk, BOk, CrossedOk, ReportOk, Pairs;
    var s' := DoSchedule(s, b);
    var r0 := Round(b, s.bs[b].round);
    ShapeLinks(s);
    BFacts(s, b);
    BOkSchedule(s.topo, b, s.bs[b]);
    CrossedNotAnswered(s.bs, s.crossed, r0);
    RoundFacts(s, r0);
    forall i | i in s'.ish ensures IOk(s'.topo, s'.bs, s'.crossed, i, s'.ish[i]) {
      ShardFacts(s, i);
      var y := s.ish[i];
      if y.com.bMainNode == Some(b) {
        DelayedLink(s, b, i);
        LinkFacts(s, Link(b, i));
        PairSchedule(b, i, s.bs[b], y, s.toI[Link(b, i)], s.toB[Link(b, i)]);
      }
      IOkSchedule(s.topo, s.bs, s'.bs, s.crossed, i, y, b);
    }
    forall r | r in s'.crossed ensures CrossedOk(s'.bs, r) {
      if r != r0 {
        CrossedLater(s.bs, s'.bs, r, b);
      } else {
        CrossedNow(s'.bs, b);
      }
    }
    forall r, i: Shard | r in s'.crossed && r.b in s'.topo.related && i in s'.topo.related[r.b]
      ensures i in s'.ish && ReportOk(s'.topo, s'.commits, s'.pending, r, i, s'.ish[i])
    {
      if r != r0 {
        CrossedFacts(s, r, i);
      } else {
        var l := Link(b, i);
        assert l in s.toI;
        LinkFacts(s, l);
        PairSchedule(b, i, s.bs[b], s.ish[i], s.toI[l], s.toB[l]);
        ReportStarts(s.topo, s.bs, s.crossed, s.commits, s.pending, r0, i, s.ish[i]);
      }
    }
  }

  lemma {:induction false} BOkSchedule(topo: Topology, b: Shard, x: BShard)
    requires BOk(topo, b, x) && x.pc == Locked
    ensures BOk(topo, b, x.(com := x.com.(activating := false), pc := Crossing))
  {}

  lemma {:induction false} CrossedNow(bs: map<Shard, BShard>, b: Shard)
    requires b in bs && bs[b].pc == Crossing
    ensures CrossedOk(bs, Round(b, bs[b].round))
  {}

  lemma {:induction false} IOkSchedule(topo: Topology, bs: map<Shard, BShard>, bs': map<Shard, BShard>, crossed: set<Round>, i: Shard, y: IShard, b: Shard)
    requires IOk(topo, bs, crossed, i, y) && b in bs && bs[b].pc == Locked
    requires bs' == bs[b := bs[b].(com := bs[b].com.(activating := false), pc := Crossing)]
    requires y.com.bMainNode != Some(b)
    ensures IOk(topo, bs', crossed + {Round(b, bs[b].round)}, i, y)
  {}

  lemma {:induction false} ReportStarts(topo: Topology, bs: map<Shard, BShard>, crossed: set<Round>, commits: map<Round, set<nat>>,
                                        pending: map<(Shard, Round), nat>, r: Round, i: Shard, y: IShard)
    requires IOk(topo, bs, crossed, i, y) && r !in crossed && y.holder == Some(r) && r.b in topo.nodes
    requires CountOf(pending, (i, r)) == 0
    ensures ReportOk(topo, commits, pending, r, i, y)
  {
    assert CountOf(y.replies, r) == 0;
  }

  // ---- i sends its delayed response ----

  // An i-shard never responds without a link.
  lemma {:induction false} DelayedIsLinked(s: System, i: Shard)
    requires Inv(s) && i in s.ish && s.ish[i].com.delayed > 0
    ensures s.ish[i].com.bMainNode.Some? && Link(s.ish[i].com.bMainNode.value, i) in s.toB
  {
    hide Shape, PairOk, BOk, CrossedOk, ReportOk;
    ShardFacts(s, i);
    ShapeLinks(s);
    DelayedLink(s, s.ish[i].com.bMainNode.value, i);
  }

  lemma {:induction false} PairRespond(b: Shard, i: Shard, x: BShard, y: IShard, q: seq<ToI>, a: seq<ToB>, hash: Hash)
    requires PairOk(b, i, x, y, q, a) && x.pc == Confirming && y.com.bMainNode == Some(b) && y.com.delayed == 1
    ensures PairOk(b, i, x, y.(com := Flush(y.com)), q, a + [Top(hash)])
  {
    assert a + [Top(hash)] == [Top(hash)];
  }

  lemma {:induction false} RespondOk(s: System, i: Shard, hash: Hash)
    requires Inv(s) && i in s.ish && s.ish[i].com.delayed > 0
    requires s.ish[i].com.bMainNode.Some? && Link(s.ish[i].com.bMainNode.value, i) in s.toB
    ensures Inv(DoRespond(s, i, hash))
  {
    hide Shape, PairOk, IOk, BOk, CrossedOk, ReportOk, Flush;
    var s' := DoRespond(s, i, hash);
    ShapeLinks(s);
    ShapeKept(s, s');
    var y, b := s.ish[i], s.ish[i].com.bMainNode.value;
    DelayedLink(s, b, i);
    AfterFlush(y);
    forall l | l in s'.toI ensures PairOk(l.b, l.i, s'.bs[l.b], s'.ish[l.i], s'.toI[l], s'.toB[l]) {
      LinkFacts(s, l);
      if l.i == i {
        if l.b == b {
          assert l == Link(b, i);
          PairRespond(b, i, s.bs[b], y, s.toI[l], s.toB[l], hash);
        } else {
          PairUnaffected(l.b, i, s.bs[l.b], y, s'.ish[i], s.toI[l], s.toB[l]);
        }
      }
    }
    ShardFacts(s, i);
    IOkFlush(s.topo, s.bs, s.crossed, i, y);
    forall r, j: Shard | r in s'.crossed && r.b in s'.topo.related && j in s'.topo.related[r.b]
      ensures j in s'.ish && ReportOk(s'.topo, s'.commits, s'.pending, r, j, s'.ish[j])
    {
      CrossedFacts(s, r, j);
      SameReports(s, r, j, s'.ish[j]);
    }
  }

  lemma {:induction false} AfterFlush(y: IShard)
    requires y.com.delayed > 0 && y.com.bMainNode.Some?
    ensures Flush(y.com).bMainNode == None
  {}

  lemma {:induction false} IOkFlush(topo: Topology, bs: map<Shard, BShard>, crossed: set<Round>, i: Shard, y: IShard)
    requires IOk(topo, bs, crossed, i, y) && y.com.delayed > 0 && y.com.bMainNode.Some?
    ensures IOk(topo, bs, crossed, i, y.(com := Flush(y.com)))
  {}

  // ---- steps that change one i-shard but not what its pairs know ----

  lemma {:induction false} PairsKept(s: System, s': System, i: Shard)
    requires Inv(s) && i in s.ish && i in s'.ish && s'.topo == s.topo && s'.bs == s.bs && s'.toI == s.toI && s'.toB == s.toB
    requires s'.ish == s.ish[i := s'.ish[i]]
    requires s'.ish[i].com == s.ish[i].com && s'.ish[i].holder == s.ish[i].holder
    ensures Shape(s') && Pairs(s')
  {
    hide Shape, PairOk, IOk, BOk, CrossedOk, ReportOk;
    ShapeLinks(s);
    ShapeKept(s, s');
    forall l | l in s'.toI ensures PairOk(l.b, l.i, s'.bs[l.b], s'.ish[l.i], s'.toI[l], s'.toB[l]) {
      LinkFacts(s, l);
      if l.i == i {
        PairUnaffected(l.b, i, s.bs[l.b], s.ish[i], s'.ish[i], s.toI[l], s.toB[l]);
      }
    }
  }

  // ---- i prepares the cross block ----

  lemma {:induction false} PrepareBlockOk(s: System, i: Shard, r: Round)
    requires Inv(s) && i in s.ish && r in s.crossed && r.b in s.topo.related && i in s.topo.related[r.b]
    requires s.ish[i].processing == None && CommitsOf(s.commits, r) == {}
    ensures Inv(DoPrepareBlock(s, i, r))
  {
    hide Shape, Pairs, Parts, Reports;
    PairsKept(s, DoPrepareBlock(s, i, r), i);
    PrepareParts(s, i, r);
  }

  lemma {:induction false} PrepareParts(s: System, i: Shard, r: Round)
    requires Inv(s) && i in s.ish && r in s.crossed && r.b in s.topo.related && i in s.topo.related[r.b]
    requires s.ish[i].processing == None && CommitsOf(s.commits, r) == {} && Shape(DoPrepareBlock(s, i, r))
    ensures Parts(DoPrepareBlock(s, i, r)) && Reports(DoPrepareBlock(s, i, r))
  {
    hide Shape, PairOk, IOk, BOk, CrossedOk, ReportOk, Pairs;
    var s' := DoPrepareBlock(s, i, r);
    ShardFacts(s, i);
    CrossedFacts(s, r, i);
    IOkPrepare(s.topo, s.bs, s.crossed, s.commits, s.pending, i, s.ish[i], r);
    forall q, j: Shard | q in s'.crossed && q.b in s'.topo.related && j in s'.topo.related[q.b]
      ensures j in s'.ish && ReportOk(s'.topo, s'.commits, s'.pending, q, j, s'.ish[j])
    {
      CrossedFacts(s, q, j);
      SameReports(s, q, j, s'.ish[j]);
    }
  }

  lemma {:induction false} IOkPrepare(topo: Topology, bs: map<Shard, BShard>, crossed: set<Round>, commits: map<Round, set<nat>>,
                                      pending: map<(Shard, Round), nat>, i: Shard, y: IShard, r: Round)
    requires IOk(topo, bs, crossed, i, y) && r in crossed && ReportOk(topo, commits, pending, r, i, y)
    requires CommitsOf(commits, r) == {} && y.processing == None
    ensures IOk(topo, bs, crossed, i, y.(processing := Some(r)))
  {
    assert CountOf(y.replies, r) == 0;
    ThresholdPositive(topo.nodes[r.b]);
  }

  lemma {:induction false} ThresholdPositive(n: nat)
    ensures Threshold(n) >= 1
  {}

  // ---- a node of b executes the cross block ----

  lemma {:induction false} CommitPairs(s: System, r: Round, k: nat)
    requires Inv(s) && r in s.crossed && r.b in s.topo.related && r.b in s.bs && k !in CommitsOf(s.commits, r)
    requires k == 0 ==> s.bs[r.b].pc == Crossing && s.bs[r.b].round == r.n
    ensures Shape(DoCommitAtNode(s, r, k)) && Pairs(DoCommitAtNode(s, r, k))
  {
    hide Shape, PairOk, IOk, BOk, CrossedOk, ReportOk, Parts, Reports, Committed, Reported;
    var s' := DoCommitAtNode(s, r, k);
    ShapeKept(s, s');
    forall l | l in s'.toI ensures PairOk(l.b, l.i, s'.bs[l.b], s'.ish[l.i], s'.toI[l], s'.toB[l]) {
      LinkFacts(s, l);
      if k == 0 && l.b == r.b {
        PairCommit(l.b, l.i, s.bs[r.b], s.ish[l.i], s.toI[l], s.toB[l]);
      }
    }
  }

  lemma {:induction false} PairCommit(b: Shard, i: Shard, x: BShard, y: IShard, q: seq<ToI>, a: seq<ToB>)
    requires PairOk(b, i, x, y, q, a) && x.pc == Crossing
    ensures PairOk(b, i, Committed(x), y, q, a)
  {}

  lemma {:induction false} CommitParts(s: System, r: Round, k: nat)
    requires Inv(s) && r in s.crossed && r.b in s.topo.related && r.b in s.bs && k !in CommitsOf(s.commits, r)
    requires k == 0 ==> s.bs[r.b].pc == Crossing && s.bs[r.b].round == r.n
    requires Shape(DoCommitAtNode(s, r, k))
    ensures Parts(DoCommitAtNode(s, r, k))
  {
    hide Shape, PairOk, IOk, BOk, CrossedOk, ReportOk, Pairs, Reports, Committed, Reported;
    var s' := DoCommitAtNode(s, r, k);
    ShapeLinks(s);
    BFacts(s, r.b);
    BOkCommit(s.topo, r.b, s.bs[r.b]);
    forall i | i in s'.ish ensures IOk(s'.topo, s'.bs, s'.crossed, i, s'.ish[i]) {
      ShardFacts(s, i);
      if k == 0 {
        IOkLater(s.topo, s.bs, s'.bs, s.crossed, i, s.ish[i], r.b);
      }
    }
    forall q | q in s'.crossed ensures CrossedOk(s'.bs, q) {
      RoundFacts(s, q);
      if k == 0 {
        CrossedLater(s.bs, s'.bs, q, r.b);
      }
    }
    forall i: Shard, q: Round | CountOf(s'.pending, (i, q)) > 0 ensures q in s'.crossed && Link(q.b, i) in s'.toI {
      RoundFacts(s, q);
    }
  }

  lemma {:induction false} BOkCommit(topo: Topology, b: Shard, x: BShard)
    requires BOk(topo, b, x)
    ensures BOk(topo, b, Committed(x)) && Committed(x).round == x.round && Committed(x).pc == Idle
  {}

  lemma {:induction false} CommitReports(s: System, r: Round, k: nat)
    requires Inv(s) && r in s.crossed && r.b in s.topo.related && r.b in s.bs && k !in CommitsOf(s.commits, r)
    requires k == 0 ==> s.bs[r.b].pc == Crossing && s.bs[r.b].round == r.n
    requires Shape(DoCommitAtNode(s, r, k))
    ensures Reports(DoCommitAtNode(s, r, k))
  {
    hide Shape, PairOk, IOk, BOk, CrossedOk, Pairs, Parts, Committed, Reported;
    var s' := DoCommitAtNode(s, r, k);
    forall q, i: Shard | q in s'.crossed && q.b in s'.topo.related && i in s'.topo.related[q.b]
      ensures i in s'.ish && ReportOk(s'.topo, s'.commits, s'.pending, q, i, s'.ish[i])
    {
      CrossedFacts(s, q, i);
      assert |CommitsOf(s.commits, r) + {k}| == |CommitsOf(s.commits, r)| + 1;
    }
  }

  // ---- a report of execution arrives at i ----

  lemma {:induction false} ReplyPairs(s: System, i: Shard, r: Round)
    requires Inv(s) && i in s.ish && r.b in s.topo.nodes && CountOf(s.pending, (i, r)) > 0
    ensures Shape(DoReply(s, i, r)) && Pairs(DoReply(s, i, r))
  {
    hide Inv, Shape, Pairs, Replied;
    RepliedKeeps(s.topo, s.ish[i], r);
    PairsKept(s, DoReply(s, i, r), i);
  }

  lemma {:induction false} ReplyParts(s: System, i: Shard, r: Round)
    requires Inv(s) && i in s.ish && r.b in s.topo.nodes && CountOf(s.pending, (i, r)) > 0 && Shape(DoReply(s, i, r))
    ensures Parts(DoReply(s, i, r))
  {
    hide Shape, PairOk, IOk, BOk, CrossedOk, ReportOk, Pairs, Reports, Replied;
    var s' := DoReply(s, i, r);
    RoundFacts(s, r);
    ShardFacts(s, i);
    LinkFacts(s, Link(r.b, i));
    CrossedFacts(s, r, i);
    IOkReplied(s.topo, s.bs, s.crossed, s.commits, s.pending, i, s.ish[i], r);
    forall j: Shard, q: Round | CountOf(s'.pending, (j, q)) > 0 ensures q in s'.crossed && Link(q.b, j) in s'.toI {
      RoundFacts(s, q);
    }
  }

  lemma {:induction false} ReplyReports(s: System, i: Shard, r: Round)
    requires Inv(s) && i in s.ish && r.b in s.topo.nodes && CountOf(s.pending, (i, r)) > 0 && Shape(DoReply(s, i, r))
    ensures Reports(DoReply(s, i, r))
  {
    hide Shape, PairOk, IOk, BOk, CrossedOk, ReportOk, Pairs, Parts, Replied;
    var s' := DoReply(s, i, r);
    forall q, j: Shard | q in s'.crossed && q.b in s'.topo.related && j in s'.topo.related[q.b]
      ensures j in s'.ish && ReportOk(s'.topo, s'.commits, s'.pending, q, j, s'.ish[j])
    {
      CrossedFacts(s, q, j);
      ReportReplied(s.topo, s.commits, s.pending, q, j, s.ish[j], i, r);
    }
  }

  lemma {:induction false} RepliedKeeps(topo: Topology, y: IShard, r: Round)
    requires r.b in topo.nodes
    ensures Replied(topo, y, r).com == y.com && Replied(topo, y, r).holder == y.holder
  {}

  lemma {:induction false} IOkReplied(topo: Topology, bs: map<Shard, BShard>, crossed: set<Round>, commits: map<Round, set<nat>>,
                                      pending: map<(Shard, Round), nat>, i: Shard, y: IShard, r: Round)
    requires IOk(topo, bs, crossed, i, y) && r in crossed && r.b in topo.nodes && ReportOk(topo, commits, pending, r, i, y)
    ensures IOk(topo, bs, crossed, i, Replied(topo, y, r))
  {
    var y' := Replied(topo, y, r);
    forall q: Round | CountOf(y'.replies, q) > 0 ensures q in crossed {
      if q != r {
        assert CountOf(y'.replies, q) == CountOf(y.replies, q);
      }
    }
  }

  lemma {:induction false} ReportReplied(topo: Topology, commits: map<Round, set<nat>>, pending: map<(Shard, Round), nat>,
                                         q: Round, j: Shard, y: IShard, i: Shard, r: Round)
    requires ReportOk(topo, commits, pending, q, j, y) && r.b in topo.nodes && CountOf(pending, (i, r)) > 0
    ensures ReportOk(topo, commits, pending[(i, r) := CountOf(pending, (i, r)) - 1], q, j, if j == i then Replied(topo, y, r) else y)
  {}

  // ---- i appends the cross block and is free again ----

  lemma {:induction false} AppendPairs(s: System, i: Shard)
    requires Inv(s) && i in s.ish && s.ish[i].scheduled > 0
    ensures Shape(DoAppendBlock(s, i)) && Pairs(DoAppendBlock(s, i))
  {
    hide Shape, PairOk, IOk, BOk, CrossedOk, ReportOk, Parts, Reports, Done;
    var s' := DoAppendBlock(s, i);
    ShapeKept(s, s');
    ShardFacts(s, i);
    var y := s.ish[i];
    ReadyToAppend(s.topo, s.bs, s.crossed, i, y);
    RoundFacts(s, y.holder.value);
    forall l | l in s'.toI ensures PairOk(l.b, l.i, s'.bs[l.b], s'.ish[l.i], s'.toI[l], s'.toB[l]) {
      LinkFacts(s, l);
      if l.i == i {
        HolderIsThrough(s.bs, y.holder.value);
        PairUnaffected(l.b, i, s.bs[l.b], y, s'.ish[i], s.toI[l], s.toB[l]);
      }
    }
  }

  lemma {:induction false} AppendParts(s: System, i: Shard)
    requires Inv(s) && i in s.ish && s.ish[i].scheduled > 0 && Shape(DoAppendBlock(s, i))
    ensures Parts(DoAppendBlock(s, i)) && Reports(DoAppendBlock(s, i))
  {
    hide Shape, PairOk, IOk, BOk, CrossedOk, ReportOk, Pairs, Done;
    var s' := DoAppendBlock(s, i);
    var y := s.ish[i];
    ShardFacts(s, i);
    ReadyToAppend(s.topo, s.bs, s.crossed, i, y);
    IOkAppend(s.topo, s.bs, s.crossed, i, y);
    forall r, j: Shard | r in s'.crossed && r.b in s'.topo.related && j in s'.topo.related[r.b]
      ensures j in s'.ish && ReportOk(s'.topo, s'.commits, s'.pending, r, j, s'.ish[j])
    {
      CrossedFacts(s, r, j);
      if j == i {
        ReportAppend(s.topo, s.commits, s.pending, r, i, y, y.holder.value);
      }
    }
  }

  lemma {:induction false} ReadyToAppend(topo: Topology, bs: map<Shard, BShard>, crossed: set<Round>, i: Shard, y: IShard)
    requires IOk(topo, bs, crossed, i, y) && y.scheduled > 0
    ensures y.processing.Some? && y.holder == y.processing && y.holder.value in crossed && y.com.bMainNode == None
    ensures y.holder.value.b in topo.nodes && CountOf(y.replies, y.holder.value) >= topo.T(y.holder.value.b)
    ensures Done(y.com).bMainNode == None
  {}

  lemma {:induction false} HolderIsThrough(bs: map<Shard, BShard>, r: Round)
    requires CrossedOk(bs, r)
    ensures r.n == bs[r.b].round ==> bs[r.b].pc in {Crossing, Idle}
  {}

  lemma {:induction false} IOkAppend(topo: Topology, bs: map<Shard, BShard>, crossed: set<Round>, i: Shard, y: IShard)
    requires IOk(topo, bs, crossed, i, y) && y.scheduled > 0
    ensures IOk(topo, bs, crossed, i, y.(com := Done(y.com), processing := None, holder := None, scheduled := y.scheduled - 1))
  {}

  lemma {:induction false} ReportAppend(topo: Topology, commits: map<Round, set<nat>>, pending: map<(Shard, Round), nat>,
                                        r: Round, i: Shard, y: IShard, h: Round)
    requires ReportOk(topo, commits, pending, r, i, y) && y.holder == Some(h) && h.b in topo.nodes
    requires CountOf(y.replies, h) >= topo.T(h.b) && y.scheduled > 0
    ensures ReportOk(topo, commits, pending, r, i, y.(com := Done(y.com), processing := None, holder := None, scheduled := y.scheduled - 1))
  {}

  // ---- all steps, all runs ----

  lemma {:induction false} StepOk(s: System, step: Step)
    requires Inv(s) && Enabled(s, step)
    ensures Inv(Do(s, step))
  {
    hide Shape, Parts, Pairs, Reports, DoRequest, DoIReceives, DoBReceives, DoResume, DoClearFlag, DoSchedule, DoRespond,
      DoPrepareBlock, DoCommitAtNode, DoReply, DoAppendBlock;
    match step
    case Request(b) => RequestPairs(s, b); RequestParts(s, b);
    case IReceives(l) => IReceivesPairs(s, l); IReceivesParts(s, l);
    case BReceives(l) => Received(s, l); BReceivesPairs(s, l); BReceivesParts(s, l);
    case Resume(b) => ResumePairs(s, b); ResumeParts(s, b);
    case ClearFlag(b) => ClearFlagOk(s, b);
    case Schedule(b) => SchedulePairs(s, b); ScheduleParts(s, b);
    case Respond(i, hash) => RespondOk(s, i, hash);
    case PrepareBlock(i, r) => PrepareBlockOk(s, i, r);
    case CommitAtNode(r, k) => CommitPairs(s, r, k); CommitParts(s, r, k); CommitReports(s, r, k);
    case Reply(i, r) => ReplyPairs(s, i, r); ReplyParts(s, i, r); ReplyReports(s, i, r);
    case AppendBlock(i) => AppendPairs(s, i); AppendParts(s, i);
  }

  lemma {:induction false} Received(s: System, l: Link)
    requires Inv(s) && l in s.toB
    ensures l in s.toI
  {
    hide Parts, Pairs, Reports;
  }

  lemma {:induction false} RunOk(run: seq<System>, steps: seq<Step>, k: nat)
    requires IsRun(run, steps) && k < |run|
    ensures Inv(run[k])
  {
    hide Inv, Init, Do, Enabled;
    if k == 0 {
      InitOk(run[0]);
    } else {
      RunOk(run, steps, k - 1);
      StepOk(run[k - 1], steps[k - 1]);
    }
  }

  // In every state of every run: an owner has all its i-shards held for it and blocked, and no
  // other request that shares one of them is an owner.
  lemma {:induction false} LockExclusion(run: seq<System>, steps: seq<Step>, k: nat, r1: Round, r2: Round, i: Shard)
    requires IsRun(run, steps) && k < |run| && Shape(run[k]) && Owns(run[k], r1) && Owns(run[k], r2)
    requires r1.b in run[k].topo.related && r2.b in run[k].topo.related
    requires i in run[k].topo.related[r1.b] && i in run[k].topo.related[r2.b]
    ensures r1 == r2
    ensures i in run[k].ish && run[k].ish[i].holder == Some(r1) && run[k].ish[i].com.innerBlocked
  {
    RunOk(run, steps, k);
    Exclusion(run[k], r1, r2, i);
    OwnerHolds(run[k], r1, i);
  }

  // An i-shard is set free only once Threshold nodes of the holding b-shard have executed the block.
  lemma {:induction false} FreedAfterThreshold(run: seq<System>, steps: seq<Step>, k: nat, i: Shard)
    requires IsRun(run, steps) && k < |run| && i in run[k].ish && run[k].ish[i].scheduled > 0
    ensures run[k].ish[i].holder.Some?
    ensures var r := run[k].ish[i].holder.value;
            r.b in run[k].topo.nodes && r in run[k].crossed && |CommitsOf(run[k].commits, r)| >= run[k].topo.T(r.b)
  {
    RunOk(run, steps, k);
    var s := run[k];
    ShardFacts(s, i);
    ReadyToAppend(s.topo, s.bs, s.crossed, i, s.ish[i]);
    CrossedFacts(s, s.ish[i].holder.value, i);
  }
}
