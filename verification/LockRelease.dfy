/** No shard stays locked for a request that is over: in every run of the cross-shard lock, a held i-shard
    is held for a request in progress, or is about to be told, or waits for its cross block; the
    executions of that block all reach it; and Threshold of them schedule the append that frees it. */
module LockRelease {
  import opened Transactions
  import opened CrossLock
  import opened LockSafety

  // Why an i-shard is held for the request r of b-shard x, given the messages q on the way to it.
  ghost predicate HeldOk(crossed: set<Round>, r: Round, x: BShard, y: IShard, q: seq<ToI>) {
    || r in crossed
    || (r.n == x.round && x.pc in {Confirming, Locked})
    || (y.com.bMainNode == Some(r.b) && ((r.n == x.round && x.pc in {Asking, Answered}) || Release in q))
  }

  ghost predicate LinkHeld(crossed: set<Round>, b: Shard, x: BShard, y: IShard, q: seq<ToI>) {
    y.holder.Some? && y.holder.value.b == b ==> HeldOk(crossed, y.holder.value, x, y, q)
  }

  ghost predicate Justified(s: System)
    requires Shape(s)
  {
    forall l <- s.toI :: LinkHeld(s.crossed, l.b, s.bs[l.b], s.ish[l.i], s.toI[l])
  }

  // The i-shard's link, block and holder go together.
  ghost predicate Coherent(y: IShard) {
    && (y.holder == None <==> !y.com.innerBlocked)
    && (y.com.bMainNode.Some? ==> y.holder.Some? && y.holder.value.b == y.com.bMainNode.value)
  }

  lemma {:induction false} HeldCoherent(topo: Topology, bs: map<Shard, BShard>, crossed: set<Round>, i: Shard, y: IShard)
    requires IOk(topo, bs, crossed, i, y)
    ensures Coherent(y)
  {}

  // A message of b itself: a grant is for the current request, and a release frees a linked shard.
  lemma {:induction false} HeldAfterMessage(crossed: set<Round>, b: Shard, i: Shard, x: BShard, y: IShard, q: seq<ToI>, a: seq<ToB>)
    requires PairOk(b, i, x, y, q, a) && q != [] && Coherent(y) && LinkHeld(crossed, b, x, y, q)
    ensures LinkHeld(crossed, b, x, IAfter(y, b, q[0]).0, q[1..])
  {
    assert x.pc == Asking && q == [Release, Ask(x.round)] ==> q[1..] == [Ask(x.round)];
  }

  // A message of another b-shard leaves a held i-shard alone.
  lemma {:induction false} HeldForOther(crossed: set<Round>, b: Shard, x: BShard, y: IShard, q: seq<ToI>, c: Shard, m: ToI)
    requires Coherent(y) && LinkHeld(crossed, b, x, y, q) && c != b
    ensures LinkHeld(crossed, b, x, IAfter(y, c, m).0, q)
  {}

  lemma {:induction false} IReceivesHeld(s: System, l: Link)
    requires Inv(s) && Justified(s) && l in s.toI && s.toI[l] != [] && l in s.toB && l.i in s.ish && Shape(DoIReceives(s, l))
    ensures Justified(DoIReceives(s, l))
  {
    hide PairOk, IOk, BOk, CrossedOk, ReportOk, LinkHeld, IAfter, Inv, Shape;
    var s' := DoIReceives(s, l);
    assert Shape(s) by { ShapeOf(s); }
    JustifiedLinks(s);
    ShapeLinks(s');
    LinkFacts(s, l);
    HeldCoherent(s.topo, s.bs, s.crossed, l.i, s.ish[l.i]);
    forall k | k in s'.toI ensures LinkHeld(s'.crossed, k.b, s'.bs[k.b], s'.ish[k.i], s'.toI[k]) {
      if k == l {
        HeldAfterMessage(s.crossed, l.b, l.i, s.bs[l.b], s.ish[l.i], s.toI[l], s.toB[l]);
      } else if k.i == l.i {
        HeldForOther(s.crossed, k.b, s.bs[k.b], s.ish[k.i], s.toI[k], l.b, s.toI[l][0]);
      }
    }
  }

  // What b knows of the request only moves forward, and what it sends is only added.
  ghost predicate MovesOn(b: Shard, x: BShard, x': BShard, q: seq<ToI>, q': seq<ToI>, crossed: set<Round>, crossed': set<Round>) {
    && crossed <= crossed' && q <= q'
    && (x.pc in {Confirming, Locked} ==> (x'.pc in {Confirming, Locked} && x'.round == x.round) || Round(b, x.round) in crossed')
    && (x.pc in {Asking, Answered} ==>
          x'.round == x.round && (x'.pc in {Asking, Answered, Confirming, Locked} || q' == q + [Release]))
  }

  lemma {:induction false} HeldMovesOn(b: Shard, x: BShard, x': BShard, y: IShard, q: seq<ToI>, q': seq<ToI>, crossed: set<Round>, crossed': set<Round>)
    requires LinkHeld(crossed, b, x, y, q) && MovesOn(b, x, x', q, q', crossed, crossed')
    ensures LinkHeld(crossed', b, x', y, q')
  {
    if y.holder.Some? && y.holder.value.b == b {
      var r := y.holder.value;
      assert r == Round(b, r.n);
      if Release in q {
        var k :| 0 <= k < |q| && q[k] == Release;
        assert q'[k] == Release;
      }
      if q' == q + [Release] {
        assert q'[|q|] == Release;
      }
    }
  }

  // A step that changes one b-shard and adds messages.
  lemma {:induction false} BStepHeld(s: System, s': System, b: Shard)
    requires Shape(s) && Justified(s) && Shape(s') && s'.ish == s.ish && s'.toI.Keys == s.toI.Keys && b in s.bs && b in s'.bs
    requires s'.bs == s.bs[b := s'.bs[b]] && s.crossed <= s'.crossed
    requires forall l <- s.toI ::
               if l.b == b then MovesOn(b, s.bs[b], s'.bs[b], s.toI[l], s'.toI[l], s.crossed, s'.crossed) else s'.toI[l] == s.toI[l]
    ensures Justified(s')
  {
    hide LinkHeld, Shape, MovesOn;
    ShapeLinks(s);
    ShapeLinks(s');
    JustifiedLinks(s);
    forall l | l in s'.toI ensures LinkHeld(s'.crossed, l.b, s'.bs[l.b], s'.ish[l.i], s'.toI[l]) {
      if l.b == b {
        HeldMovesOn(b, s.bs[b], s'.bs[b], s.ish[l.i], s.toI[l], s'.toI[l], s.crossed, s'.crossed);
      } else {
        HeldStays(s.crossed, s'.crossed, l.b, s.bs[l.b], s.ish[l.i], s.toI[l]);
      }
    }
  }

  lemma {:induction false} JustifiedLinks(s: System)
    requires Shape(s) && Justified(s)
    ensures forall l <- s.toI :: l.b in s.bs && l.i in s.ish && LinkHeld(s.crossed, l.b, s.bs[l.b], s.ish[l.i], s.toI[l])
  {
    hide LinkHeld;
    ShapeLinks(s);
  }

  lemma {:induction false} HeldStays(crossed: set<Round>, crossed': set<Round>, b: Shard, x: BShard, y: IShard, q: seq<ToI>)
    requires LinkHeld(crossed, b, x, y, q) && crossed <= crossed'
    ensures LinkHeld(crossed', b, x, y, q)
  {}

  // The steps of b-shards.
  lemma {:induction false} RequestHeld(s: System, b: Shard)
    requires Inv(s) && Justified(s) && b in s.bs && s.bs[b].pc == Idle && Shape(DoRequest(s, b))
    ensures Justified(DoRequest(s, b))
  {
    hide PairOk, IOk, BOk, CrossedOk, ReportOk, LinkHeld, Justified, Shape, Begin;
    BStepHeld(s, DoRequest(s, b), b);
  }

  lemma {:induction false} BReceivesHeld(s: System, l: Link)
    requires Inv(s) && Justified(s) && l in s.toB && s.toB[l] != [] && l.b in s.bs && l.b in s.topo.related && Shape(DoBReceives(s, l))
    ensures Justified(DoBReceives(s, l))
  {
    hide PairOk, IOk, BOk, CrossedOk, ReportOk, LinkHeld, Justified, Shape, Answer, TakeTop;
    BStepHeld(s, DoBReceives(s, l), l.b);
  }

  lemma {:induction false} ResumeHeld(s: System, b: Shard)
    requires Inv(s) && Justified(s) && b in s.bs && s.bs[b].pc == Answered && Shape(DoResume(s, b))
    ensures Justified(DoResume(s, b))
  {
    hide PairOk, IOk, BOk, CrossedOk, ReportOk, LinkHeld, Justified, Shape;
    BStepHeld(s, DoResume(s, b), b);
  }

  lemma {:induction false} ScheduleHeld(s: System, b: Shard)
    requires Inv(s) && Justified(s) && b in s.bs && s.bs[b].pc == Locked && Shape(DoSchedule(s, b))
    ensures Justified(DoSchedule(s, b))
  {
    hide PairOk, IOk, BOk, CrossedOk, ReportOk, LinkHeld, Justified, Shape;
    BStepHeld(s, DoSchedule(s, b), b);
  }

  lemma {:induction false} ClearFlagHeld(s: System, b: Shard)
    requires Inv(s) && Justified(s) && b in s.bs && s.bs[b].stale > 0 && Shape(DoClearFlag(s, b))
    ensures Justified(DoClearFlag(s, b))
  {
    hide PairOk, IOk, BOk, CrossedOk, ReportOk, LinkHeld, Justified, Shape;
    BStepHeld(s, DoClearFlag(s, b), b);
  }

  lemma {:induction false} CommitHeld(s: System, r: Round, k: nat)
    requires Inv(s) && Justified(s) && r.b in s.topo.related && r.b in s.bs && (k == 0 ==> s.bs[r.b].pc == Crossing)
    requires Shape(DoCommitAtNode(s, r, k))
    ensures Justified(DoCommitAtNode(s, r, k))
  {
    hide PairOk, IOk, BOk, CrossedOk, ReportOk, LinkHeld, Justified, Shape, Reported;
    var s' := DoCommitAtNode(s, r, k);
    assert s'.bs == s.bs[r.b := s'.bs[r.b]];
    BStepHeld(s, s', r.b);
  }

  // Those of i-shards: the link to a confirming b-shard ends, or nothing of interest changes.
  lemma {:induction false} IStepHeld(s: System, s': System, i: Shard)
    requires Inv(s) && Justified(s) && Shape(s') && i in s.ish && i in s'.ish
    requires s'.bs == s.bs && s'.toI == s.toI && s'.crossed == s.crossed && s'.ish == s.ish[i := s'.ish[i]]
    requires s'.ish[i].holder == None || (s'.ish[i].holder == s.ish[i].holder && s'.ish[i].com.bMainNode == s.ish[i].com.bMainNode)
    ensures Justified(s')
  {
    hide LinkHeld, Inv, Shape;
    assert Shape(s) by { ShapeOf(s); }
    JustifiedLinks(s);
    ShapeLinks(s');
    forall l | l in s'.toI ensures LinkHeld(s'.crossed, l.b, s'.bs[l.b], s'.ish[l.i], s'.toI[l]) {
      if l.i == i {
        HeldUnchanged(s.crossed, l.b, s.bs[l.b], s.ish[i], s'.ish[i], s.toI[l]);
      }
    }
  }

  lemma {:induction false} HeldUnchanged(crossed: set<Round>, b: Shard, x: BShard, y: IShard, y': IShard, q: seq<ToI>)
    requires LinkHeld(crossed, b, x, y, q)
    requires y'.holder == None || (y'.holder == y.holder && y'.com.bMainNode == y.com.bMainNode)
    ensures LinkHeld(crossed, b, x, y', q)
  {}

  lemma {:induction false} ShapeOf(s: System)
    requires Inv(s)
    ensures Shape(s)
  {}

  lemma {:induction false} RespondHeld(s: System, i: Shard, hash: Hash)
    requires Inv(s) && Justified(s) && i in s.ish && s.ish[i].com.delayed > 0 && s.ish[i].com.bMainNode.Some?
    requires Link(s.ish[i].com.bMainNode.value, i) in s.toB && Shape(DoRespond(s, i, hash))
    ensures Justified(DoRespond(s, i, hash))
  {
    hide PairOk, IOk, BOk, CrossedOk, ReportOk, LinkHeld, Parts, Pairs, Reports, Flush;
    var s' := DoRespond(s, i, hash);
    JustifiedLinks(s);
    ShapeLinks(s);
    ShardFacts(s, i);
    DelayedLink(s, s.ish[i].com.bMainNode.value, i);
    forall l | l in s'.toI ensures LinkHeld(s'.crossed, l.b, s'.bs[l.b], s'.ish[l.i], s'.toI[l]) {
      if l.i == i {
        LinkFacts(s, l);
        HeldAfterResponse(s.topo, s.bs, s.crossed, l.b, i, s.bs[l.b], s.ish[i], s.toI[l], s.toB[l]);
      }
    }
  }

  lemma {:induction false} HeldAfterResponse(topo: Topology, bs: map<Shard, BShard>, crossed: set<Round>, b: Shard, i: Shard, x: BShard,
                                             y: IShard, q: seq<ToI>, a: seq<ToB>)
    requires IOk(topo, bs, crossed, i, y) && b in bs && x == bs[b] && PairOk(b, i, x, y, q, a) && LinkHeld(crossed, b, x, y, q)
    requires y.com.delayed > 0 && y.com.bMainNode.Some?
    ensures LinkHeld(crossed, b, x, y.(com := Flush(y.com)), q)
  {}

  lemma {:induction false} StepJustified(s: System, step: Step)
    requires Inv(s) && Justified(s) && Enabled(s, step)
    ensures Inv(Do(s, step)) && Justified(Do(s, step))
  {
    hide Inv, Shape, Justified, DoRequest, DoIReceives, DoBReceives, DoResume, DoClearFlag, DoSchedule, DoRespond, DoPrepareBlock,
      DoCommitAtNode, DoReply, DoAppendBlock;
    StepOk(s, step);
    ShapeOf(Do(s, step));
    match step
    case Request(b) => RequestHeld(s, b);
    case IReceives(l) => IReceivesHeld(s, l);
    case BReceives(l) => BReceivesHeld(s, l);
    case Resume(b) => ResumeHeld(s, b);
    case ClearFlag(b) => ClearFlagHeld(s, b);
    case Schedule(b) => ScheduleHeld(s, b);
    case Respond(i, hash) => RespondHeld(s, i, hash);
    case PrepareBlock(i, r) => PrepareHeld(s, i, r);
    case CommitAtNode(r, k) => CommitHeld(s, r, k);
    case Reply(i, r) => ReplyHeld(s, i, r);
    case AppendBlock(i) => AppendHeld(s, i);
  }

  lemma {:induction false} PrepareHeld(s: System, i: Shard, r: Round)
    requires Inv(s) && Justified(s) && i in s.ish && Shape(DoPrepareBlock(s, i, r))
    ensures Justified(DoPrepareBlock(s, i, r))
  {
    hide Inv, Shape, Justified;
    IStepHeld(s, DoPrepareBlock(s, i, r), i);
  }

  lemma {:induction false} ReplyHeld(s: System, i: Shard, r: Round)
    requires Inv(s) && Justified(s) && i in s.ish && r.b in s.topo.nodes && CountOf(s.pending, (i, r)) > 0 && Shape(DoReply(s, i, r))
    ensures Justified(DoReply(s, i, r))
  {
    hide Inv, Shape, Justified;
    IStepHeld(s, DoReply(s, i, r), i);
  }

  lemma {:induction false} AppendHeld(s: System, i: Shard)
    requires Inv(s) && Justified(s) && i in s.ish && s.ish[i].scheduled > 0 && Shape(DoAppendBlock(s, i))
    ensures Justified(DoAppendBlock(s, i))
  {
    hide Inv, Shape, Justified;
    IStepHeld(s, DoAppendBlock(s, i), i);
  }

  lemma {:induction false} RunJustified(run: seq<System>, steps: seq<Step>, k: nat)
    requires IsRun(run, steps) && k < |run|
    ensures Inv(run[k]) && Justified(run[k])
  {
    hide Inv, Init, Do, Enabled, Justified;
    if k == 0 {
      InitOk(run[0]);
      StartJustified(run[0]);
    } else {
      RunJustified(run, steps, k - 1);
      StepJustified(run[k - 1], steps[k - 1]);
    }
  }

  lemma {:induction false} StartJustified(s: System)
    requires Init(s) && Inv(s)
    ensures Justified(s)
  {
    hide PairOk, IOk, BOk, CrossedOk, ReportOk;
    ShapeLinks(s);
  }

  // In every state of every run: a held i-shard is held for the current request of its b-shard, or
  // the b-shard's release is on its way, or the request has become a cross block.
  lemma {:induction false} HeldForAReason(run: seq<System>, steps: seq<Step>, k: nat, i: Shard)
    requires IsRun(run, steps) && k < |run| && i in run[k].ish && run[k].ish[i].holder.Some?
    ensures var s, r := run[k], run[k].ish[i].holder.value;
            && r.b in s.bs && Link(r.b, i) in s.toI
            && (r in s.crossed || (r.n == s.bs[r.b].round && s.bs[r.b].pc in {Asking, Answered, Confirming, Locked})
                || Release in s.toI[Link(r.b, i)])
  {
    hide PairOk, BOk, CrossedOk, ReportOk, Do, Enabled, Init;
    RunJustified(run, steps, k);
    var s, r := run[k], run[k].ish[i].holder.value;
    ShardFacts(s, i);
    ShapeLinks(s);
    assert LinkHeld(s.crossed, r.b, s.bs[r.b], s.ish[i], s.toI[Link(r.b, i)]);
  }

  // Likewise, inner transactions of an i-shard are blocked only then.
  lemma {:induction false} BlockedForAReason(run: seq<System>, steps: seq<Step>, k: nat, i: Shard)
    requires IsRun(run, steps) && k < |run| && i in run[k].ish
    ensures run[k].ish[i].com.innerBlocked <==> run[k].ish[i].holder.Some?
  {
    hide Do, Enabled, Init, PairOk, BOk, CrossedOk, ReportOk;
    RunJustified(run, steps, k);
    ShardFacts(run[k], i);
  }

  // ---- the append is scheduled as soon as enough nodes have reported ----

  ghost predicate Due(topo: Topology, y: IShard) {
    y.processing.Some? && y.processing.value.b in topo.nodes && CountOf(y.replies, y.processing.value) >= topo.T(y.processing.value.b) ==>
      y.scheduled > 0
  }

  lemma {:induction false} DueReplied(topo: Topology, y: IShard, r: Round)
    requires Due(topo, y) && r.b in topo.nodes
    ensures Due(topo, Replied(topo, y, r))
  {}

  lemma {:induction false} DueMessage(topo: Topology, y: IShard, b: Shard, m: ToI)
    requires Due(topo, y)
    ensures Due(topo, IAfter(y, b, m).0)
  {}

  lemma {:induction false} DuePrepared(s: System, i: Shard, r: Round)
    requires Inv(s) && i in s.ish && r in s.crossed && r.b in s.topo.related && i in s.topo.related[r.b] && CommitsOf(s.commits, r) == {}
    ensures Due(s.topo, s.ish[i].(processing := Some(r)))
  {
    hide PairOk, IOk, BOk, CrossedOk, Pairs, Parts;
    CrossedFacts(s, r, i);
    ThresholdPositive(s.topo.nodes[r.b]);
    BStored(s, r.b);
  }

  lemma {:induction false} BStored(s: System, b: Shard)
    requires Inv(s) && b in s.topo.related
    ensures b in s.topo.nodes && s.topo.nodes[b] >= 1
  {
    hide Parts, Pairs, Reports;
  }

  lemma {:induction false} StepDue(s: System, step: Step, i: Shard)
    requires Inv(s) && Enabled(s, step) && i in s.ish && Due(s.topo, s.ish[i])
    ensures i in Do(s, step).ish && Due(s.topo, Do(s, step).ish[i]) && Do(s, step).topo == s.topo
  {
    hide Inv, Due, Replied, IAfter, Broadcast, Reported, BAfter, Resumed, Flush;
    match step
    case Request(b) =>
    case IReceives(l) => if l.i == i { DueMessage(s.topo, s.ish[l.i], l.b, s.toI[l][0]); }
    case BReceives(l) =>
    case Resume(b) =>
    case ClearFlag(b) =>
    case Schedule(b) =>
    case Respond(j, hash) => DueFlush(s.topo, s.ish[j]);
    case PrepareBlock(j, r) => if j == i { DuePrepared(s, j, r); }
    case CommitAtNode(r, k) =>
    case Reply(j, r) => if j == i { DueReplied(s.topo, s.ish[j], r); }
    case AppendBlock(j) => DueDone(s.topo, s.ish[j]);
  }

  lemma {:induction false} DueFlush(topo: Topology, y: IShard)
    requires y.com.delayed > 0 && y.com.bMainNode.Some?
    ensures Due(topo, y) ==> Due(topo, y.(com := Flush(y.com)))
  {}

  lemma {:induction false} DueDone(topo: Topology, y: IShard)
    requires y.scheduled > 0
    ensures Due(topo, y.(com := Done(y.com), processing := None, holder := None, scheduled := y.scheduled - 1))
  {}

  lemma {:induction false} RunDue(run: seq<System>, steps: seq<Step>, k: nat, i: Shard)
    requires IsRun(run, steps) && k < |run| && i in run[k].ish
    ensures Due(run[k].topo, run[k].ish[i])
  {
    hide Inv, Enabled, Due;
    if k == 0 {
      assert Due(run[0].topo, IShard(START, None, None, map[], 0)) by { NothingDue(run[0].topo); }
    } else {
      RunOk(run, steps, k - 1);
      SameShards(run, steps, k - 1, i);
      RunDue(run, steps, k - 1, i);
      StepDue(run[k - 1], steps[k - 1], i);
    }
  }

  lemma {:induction false} NothingDue(topo: Topology)
    ensures Due(topo, IShard(START, None, None, map[], 0))
  {}

  lemma {:induction false} SameShards(run: seq<System>, steps: seq<Step>, k: nat, i: Shard)
    requires IsRun(run, steps) && k < |steps| && i in run[k + 1].ish
    ensures i in run[k].ish
  {
    hide Init, Enabled, Do;
    assert Enabled(run[k], steps[k]) && run[k + 1] == Do(run[k], steps[k]);
    SameKeys(run[k], steps[k]);
  }

  lemma {:induction false} SameKeys(s: System, step: Step)
    requires Enabled(s, step)
    ensures Do(s, step).ish.Keys == s.ish.Keys
  {
    hide IAfter, Replied, Broadcast, Reported, BAfter, Resumed, Flush, Decide, CommitsOf, CountOf;
    match step
    case Request(b) =>
    case IReceives(l) =>
    case BReceives(l) =>
    case Resume(b) =>
    case ClearFlag(b) =>
    case Schedule(b) =>
    case Respond(j, hash) =>
    case PrepareBlock(j, r) =>
    case CommitAtNode(r, k) =>
    case Reply(j, r) =>
    case AppendBlock(j) =>
  }

  // The append is scheduled exactly when Threshold nodes have reported the block being processed.
  lemma {:induction false} ScheduledIff(run: seq<System>, steps: seq<Step>, k: nat, i: Shard)
    requires IsRun(run, steps) && k < |run| && i in run[k].ish
    ensures var y := run[k].ish[i];
            y.scheduled > 0 <==>
            && y.processing.Some? && y.processing.value.b in run[k].topo.nodes
            && CountOf(y.replies, y.processing.value) >= run[k].topo.T(y.processing.value.b)
  {
    hide PairOk, BOk, CrossedOk, ReportOk, Do, Enabled, Init;
    RunOk(run, steps, k);
    RunDue(run, steps, k, i);
    ShardFacts(run[k], i);
  }

  // ---- a b-shard's own block ----

  ghost predicate OwnBlock(x: BShard) { x.com.innerBlocked ==> x.pc in {Confirming, Locked, Crossing} }

  lemma {:induction false} StepOwnBlock(s: System, step: Step, b: Shard)
    requires Inv(s) && Enabled(s, step) && b in s.bs && OwnBlock(s.bs[b])
    ensures b in Do(s, step).bs && OwnBlock(Do(s, step).bs[b])
  {
    hide Inv, IAfter, Replied, Broadcast, Reported, Flush, CommitsOf, CountOf;
    match step
    case Request(c) =>
    case IReceives(l) =>
    case BReceives(l) => if l.b == b { OwnBlockMessage(s.bs[l.b], |s.topo.related[l.b]|, l.i, s.toB[l][0]); }
    case Resume(c) =>
    case ClearFlag(c) =>
    case Schedule(c) =>
    case Respond(j, hash) =>
    case PrepareBlock(j, r) =>
    case CommitAtNode(r, k) =>
    case Reply(j, r) =>
    case AppendBlock(j) =>
  }

  lemma {:induction false} OwnBlockMessage(x: BShard, related: nat, j: Shard, m: ToB)
    requires OwnBlock(x)
    ensures OwnBlock(BAfter(x, related, j, m))
  {}

  lemma {:induction false} RunOwnBlock(run: seq<System>, steps: seq<Step>, k: nat, b: Shard)
    requires IsRun(run, steps) && k < |run| && b in run[k].bs
    ensures OwnBlock(run[k].bs[b])
  {
    hide Inv, Enabled, OwnBlock, Do;
    if k == 0 {
      assert OwnBlock(BShard(START, Idle, 0, 0)) by { NoOwnBlock(); }
    } else {
      RunOk(run, steps, k - 1);
      assert Enabled(run[k - 1], steps[k - 1]) && run[k] == Do(run[k - 1], steps[k - 1]);
      SameBs(run[k - 1], steps[k - 1]);
      RunOwnBlock(run, steps, k - 1, b);
      StepOwnBlock(run[k - 1], steps[k - 1], b);
    }
  }

  lemma {:induction false} NoOwnBlock()
    ensures OwnBlock(BShard(START, Idle, 0, 0))
  {}

  lemma {:induction false} SameBs(s: System, step: Step)
    requires Enabled(s, step)
    ensures Do(s, step).bs.Keys == s.bs.Keys
  {
    hide IAfter, Replied, Broadcast, Reported, BAfter, Resumed, Flush, Decide, CommitsOf, CountOf;
    match step
    case Request(b) =>
    case IReceives(l) =>
    case BReceives(l) =>
    case Resume(b) =>
    case ClearFlag(b) =>
    case Schedule(b) =>
    case Respond(j, hash) =>
    case PrepareBlock(j, r) =>
    case CommitAtNode(r, k) =>
    case Reply(j, r) =>
    case AppendBlock(j) =>
  }

  // In every run, a b-shard blocks its own inner transactions exactly from its confirmation to the
  // execution of the cross block at its main.
  lemma {:induction false} OwnBlockIff(run: seq<System>, steps: seq<Step>, k: nat, b: Shard)
    requires IsRun(run, steps) && k < |run| && b in run[k].bs
    ensures run[k].bs[b].com.innerBlocked <==> run[k].bs[b].pc in {Confirming, Locked, Crossing}
  {
    hide PairOk, IOk, CrossedOk, ReportOk, Do, Enabled, Init;
    RunOk(run, steps, k);
    RunOwnBlock(run, steps, k, b);
    BFacts(run[k], b);
  }

  // ---- no report is lost ----

  // Every execution of the block being processed has been counted or is on its way.
  ghost predicate AllReported(s: System, i: Shard)
    requires i in s.ish
  {
    var y := s.ish[i];
    y.processing.Some? ==>
      CountOf(s.pending, (i, y.processing.value)) + CountOf(y.replies, y.processing.value) == |CommitsOf(s.commits, y.processing.value)|
  }

  lemma {:induction false} PrepareReported(s: System, i: Shard, r: Round)
    requires Inv(s) && i in s.ish && r in s.crossed && r.b in s.topo.related && i in s.topo.related[r.b] && CommitsOf(s.commits, r) == {}
    ensures AllReported(DoPrepareBlock(s, i, r), i)
  {
    hide PairOk, IOk, BOk, CrossedOk, Pairs, Parts;
    CrossedFacts(s, r, i);
  }

  lemma {:induction false} CommitReported(s: System, r: Round, k: nat, i: Shard)
    requires Inv(s) && r.b in s.topo.related && r.b in s.bs && k !in CommitsOf(s.commits, r) && i in s.ish && AllReported(s, i)
    ensures AllReported(DoCommitAtNode(s, r, k), i)
  {
    hide Inv, Committed, Reported, CountOf;
    ProcessingRelated(s, i);
    var y := s.ish[i];
    if y.processing == Some(r) {
      assert |CommitsOf(s.commits, r) + {k}| == |CommitsOf(s.commits, r)| + 1;
    }
  }

  lemma {:induction false} ProcessingRelated(s: System, i: Shard)
    requires Inv(s) && i in s.ish
    ensures var p := s.ish[i].processing; p.Some? ==> p.value.b in s.topo.related && i in s.topo.related[p.value.b]
  {
    hide PairOk, BOk, CrossedOk, ReportOk, Pairs, Reports;
    ShardFacts(s, i);
  }

  lemma {:induction false} ReplyReported(s: System, j: Shard, r: Round, i: Shard)
    requires j in s.ish && r.b in s.topo.nodes && CountOf(s.pending, (j, r)) > 0 && i in s.ish && AllReported(s, i)
    ensures i in DoReply(s, j, r).ish && AllReported(DoReply(s, j, r), i)
  {
    hide CommitsOf;
  }

  lemma {:induction false} StepReported(s: System, step: Step, i: Shard)
    requires Inv(s) && Enabled(s, step) && i in s.ish && AllReported(s, i)
    ensures i in Do(s, step).ish && AllReported(Do(s, step), i)
  {
    hide Inv, Replied, IAfter, Broadcast, Reported, BAfter, Resumed, Flush, Committed, Decide, Begin, CountOf, CommitsOf;
    match step
    case Request(b) =>
    case IReceives(l) => SameCounts(s.ish[l.i], l.b, s.toI[l][0]);
    case BReceives(l) =>
    case Resume(b) =>
    case ClearFlag(b) =>
    case Schedule(b) =>
    case Respond(j, hash) =>
    case PrepareBlock(j, r) => if j == i { PrepareReported(s, j, r); }
    case CommitAtNode(r, k) => CommitReported(s, r, k, i);
    case Reply(j, r) => ReplyReported(s, j, r, i);
    case AppendBlock(j) =>
  }

  lemma {:induction false} SameCounts(y: IShard, b: Shard, m: ToI)
    ensures IAfter(y, b, m).0.processing == y.processing && IAfter(y, b, m).0.replies == y.replies
  {}

  // In every run, the executions of the cross block an i-shard processes are all counted there or
  // reported to it.
  lemma {:induction false} NoReportLost(run: seq<System>, steps: seq<Step>, k: nat, i: Shard)
    requires IsRun(run, steps) && k < |run| && i in run[k].ish
    ensures AllReported(run[k], i)
  {
    hide Inv, Enabled, Do, CommitsOf, CountOf;
    if k > 0 {
      RunOk(run, steps, k - 1);
      SameShards(run, steps, k - 1, i);
      NoReportLost(run, steps, k - 1, i);
      assert Enabled(run[k - 1], steps[k - 1]) && run[k] == Do(run[k - 1], steps[k - 1]);
      StepReported(run[k - 1], steps[k - 1], i);
    }
  }
}
