/** No proposal is forgotten: in every run, an honest replica that has been given the main's proposal
    for its current sequence number, then or early, has taken it up and has said so. */
module PbftUptake {
  import opened Pbft
  import opened PbftSafety
  import opened Quorum
  import opened Transactions

  // What a replica keeps of proposals: under their own numbers, none ahead of its time, and a
  // proposal it has taken up has been answered.
  ghost predicate Clean(d: Domain, net: set<Message>, r: Replica) {
    && PrePresOk(net, r.prePreMsgs) && (forall k <- r.prePreMsgs :: r.prePreMsgs[k].seqId == k)
    && (!r.crashed ==>
          if r.id == d.main then forall k <- r.prePreMsgs :: k <= r.sequence
          else (forall k <- r.proposalPool :: k <= r.sequence) && Answered(net, r))
  }

  ghost predicate Answered(net: set<Message>, r: Replica) {
    r.sequence in r.proposalPool && r.proposalPool[r.sequence].Some? ==>
      Prepare(r.id, r.sequence, Digest(r.proposalPool[r.sequence].value)) in net
  }

  // A stored proposal for the current number has been taken up.
  ghost predicate TakenUp(r: Replica) {
    !r.crashed && r.sequence in r.prePreMsgs ==> r.sequence in r.proposalPool
  }

  lemma {:induction false} CleanGrows(d: Domain, net: set<Message>, net': set<Message>, r: Replica)
    requires Clean(d, net, r) && net <= net'
    ensures Clean(d, net', r)
  {}

  lemma {:induction false} SameProposals(d: Domain, net: set<Message>, r: Replica, r': Replica)
    requires r'.id == r.id && r'.sequence == r.sequence && r'.prePreMsgs == r.prePreMsgs && r'.proposalPool == r.proposalPool
    requires r.crashed ==> r'.crashed
    ensures Clean(d, net, r) ==> Clean(d, net, r')
    ensures TakenUp(r) ==> TakenUp(r')
  {}

  lemma {:induction false} SaidByMain(c: Context, m: Message)
    requires c.Ok() && m.PrePrepare? && m in c.net && m.sender == c.d.main
    ensures m.seqId < |c.p| && m.digest == Digest(m.request)
  {
    assert Truthful(c.d, c.honest, c.p, c.net, m);
  }

  lemma {:induction false} PrePrepareTakenUp(c: Context, r: Replica, m: Message, verified: bool)
    requires c.Ok() && m.PrePrepare? && m in c.net && Clean(c.d, c.net, r) && (TakenUp(r) || m.seqId == r.sequence)
    requires r.id == c.d.main ==> |c.p| <= r.sequence + 1
    ensures var res := HandlePrePrepare(c.d, r, m, verified);
            Clean(c.d, c.net + Elements(res.out), res.r) && TakenUp(res.r)
  {
    hide NetOk, Setting, Truthful, Respond;
    if m.seqId in r.prePreMsgs && m.sender != c.d.main {
      CrashClean(c.d, c.net, r);
      CleanGrows(c.d, c.net, c.net + Elements([]), Crash(r));
    } else {
      RespondTakenUp(c, r, m, verified);
    }
  }

  lemma {:induction false} CrashClean(d: Domain, net: set<Message>, r: Replica)
    requires PrePresOk(net, r.prePreMsgs) && forall k <- r.prePreMsgs :: r.prePreMsgs[k].seqId == k
    ensures Clean(d, net, Crash(r)) && TakenUp(Crash(r))
  {}

  lemma {:induction false} ReceiveClean(net: set<Message>, r: Replica, m: Message)
    requires PrePresOk(net, r.prePreMsgs) && (forall k <- r.prePreMsgs :: r.prePreMsgs[k].seqId == k) && m.PrePrepare? && m in net
    ensures var r2 := Receive(r, m);
            PrePresOk(net, r2.prePreMsgs) && forall k <- r2.prePreMsgs :: r2.prePreMsgs[k].seqId == k
  {}

  // Ignored: an early proposal is only kept, and an old one changes nothing.
  lemma {:induction false} IgnoreTakenUp(c: Context, r: Replica, m: Message)
    requires m.PrePrepare? && Clean(c.d, c.net, r) && (TakenUp(r) || m.seqId == r.sequence)
    requires m in c.net && m.digest == Digest(m.request) && m.seqId < |c.p| && (r.id == c.d.main ==> |c.p| <= r.sequence + 1)
    requires Verify(c.d, Receive(r, m), m) == Ignore
    ensures Clean(c.d, c.net, Receive(r, m)) && TakenUp(Receive(r, m))
  {
    ReceiveClean(c.net, r, m);
    hide PrePresOk;
  }

  // Accepted: it is for the current number.
  lemma {:induction false} AcceptIsCurrent(c: Context, r: Replica, m: Message)
    requires m.PrePrepare? && m in c.net && Clean(c.d, c.net, r) && !r.crashed && Verify(c.d, Receive(r, m), m) == Accept
    requires m.seqId < |c.p| && (r.id == c.d.main ==> |c.p| <= r.sequence + 1)
    ensures m.seqId == r.sequence && Clean(c.d, c.net, Receive(r, m))
  {
    ReceiveClean(c.net, r, m);
    hide PrePresOk;
  }

  lemma {:induction false} RespondTakenUp(c: Context, r: Replica, m: Message, verified: bool)
    requires c.Ok() && m.PrePrepare? && m in c.net && Clean(c.d, c.net, r) && (TakenUp(r) || m.seqId == r.sequence)
    requires r.id == c.d.main ==> |c.p| <= r.sequence + 1
    ensures var res := Respond(c.d, Receive(r, m), m, verified);
            Clean(c.d, c.net + Elements(res.out), res.r) && TakenUp(res.r)
  {
    hide Context.Ok, PrePresOk, Clean, TakenUp, Accepted, Receive;
    var r2 := Receive(r, m);
    CleanParts(c.d, c.net, r);
    ReceiveClean(c.net, r, m);
    match Verify(c.d, r2, m)
    case Panic =>
      CrashClean(c.d, c.net, r2);
      CleanGrows(c.d, c.net, c.net + Elements([]), Crash(r2));
    case Ignore =>
      SaidByMain(c, m);
      IgnoreTakenUp(c, r, m);
      CleanGrows(c.d, c.net, c.net + Elements([]), r2);
    case Accept =>
      if r.crashed {
        assert r2.crashed by { ReceiveKeeps(r, m); }
        CrashedStays(c, r2, m, verified);
      } else {
        SaidByMain(c, m);
        AcceptIsCurrent(c, r, m);
        assert r2.sequence == r.sequence by { ReceiveKeeps(r, m); }
        AcceptTakenUp(c, r2, m, verified);
      }
  }

  lemma {:induction false} ReceiveKeeps(r: Replica, m: Message)
    ensures Receive(r, m).crashed == r.crashed && Receive(r, m).sequence == r.sequence
  {}

  lemma {:induction false} CleanParts(d: Domain, net: set<Message>, r: Replica)
    requires Clean(d, net, r)
    ensures PrePresOk(net, r.prePreMsgs) && forall k <- r.prePreMsgs :: r.prePreMsgs[k].seqId == k
  {}

  lemma {:induction false} CrashedStays(c: Context, r: Replica, m: Message, verified: bool)
    requires m.PrePrepare? && r.crashed && PrePresOk(c.net, r.prePreMsgs) && forall k <- r.prePreMsgs :: r.prePreMsgs[k].seqId == k
    ensures var r', out := Accepted(r, m, verified), if verified then [Prepare(r.id, m.seqId, m.digest)] else [];
            Clean(c.d, c.net + Elements(out), r') && TakenUp(r')
  {}

  lemma {:induction false} AcceptTakenUp(c: Context, r: Replica, m: Message, verified: bool)
    requires m.PrePrepare? && m.seqId == r.sequence && m.digest == Digest(m.request) && Clean(c.d, c.net, r)
    ensures var r', out := Accepted(r, m, verified), if verified then [Prepare(r.id, m.seqId, m.digest)] else [];
            Clean(c.d, c.net + Elements(out), r') && TakenUp(r')
  {
    assert [Prepare(r.id, m.seqId, m.digest)][0] == Prepare(r.id, m.seqId, m.digest);
  }

  // Executing opens the next round: a proposal that came early is taken up then.
  lemma {:induction false} ExecuteTakenUp(c: Context, r: Replica, verified: bool)
    requires c.Ok() && Clean(c.d, c.net, r)
    ensures var res := Execute(c.d, r, verified);
            Clean(c.d, c.net + Elements(res.out), res.r) && TakenUp(res.r)
  {
    hide Context.Ok, PrePresOk, Clean, TakenUp, HandlePrePrepare, Advance, Crash, Elements;
    var s := r.sequence;
    CleanParts(c.d, c.net, r);
    Nothing(c.net);
    if s !in r.proposalPool || r.proposalPool[s] == None {
      CrashClean(c.d, c.net, r.(isReply := r.isReply + {s}));
    } else {
      var r1 := Advance(r, r.proposalPool[s].value);
      AdvanceClean(c.d, c.net, r, r.proposalPool[s].value);
      if r.id == c.d.main {
        CrashClean(c.d, c.net, r1);
      } else if s + 1 in r1.prePreMsgs {
        StoredInNet(c.net, r1, s + 1);
        PrePrepareTakenUp(c, r1, r1.prePreMsgs[s + 1], verified);
      }
    }
  }

  lemma {:induction false} Nothing(net: set<Message>)
    ensures net + Elements([]) == net
  {
    assert Elements<Message>([]) == {};
  }

  lemma {:induction false} StoredInNet(net: set<Message>, r: Replica, k: Seq)
    requires PrePresOk(net, r.prePreMsgs) && (forall j <- r.prePreMsgs :: r.prePreMsgs[j].seqId == j) && k in r.prePreMsgs
    ensures r.prePreMsgs[k].PrePrepare? && r.prePreMsgs[k] in net && r.prePreMsgs[k].seqId == k
  {}

  lemma {:induction false} AdvanceClean(d: Domain, net: set<Message>, r: Replica, req: Request)
    requires Clean(d, net, r)
    ensures var r1 := Advance(r, req);
            && r1.sequence == r.sequence + 1 && r1.id == r.id && Clean(d, net, r1) && Clean(d, net, r1.(enabled := true))
            && PrePresOk(net, r1.prePreMsgs) && (forall k <- r1.prePreMsgs :: r1.prePreMsgs[k].seqId == k)
            && (r.id == d.main ==> TakenUp(r1.(enabled := true)))
            && (r.sequence + 1 in r1.prePreMsgs || TakenUp(r1))
            && (r.sequence + 1 in r1.prePreMsgs ==> r1.prePreMsgs[r.sequence + 1].PrePrepare?)
  {}

  lemma {:induction false} CommitLoopTakenUp(c: Context, r: Replica, votes: map<Node, Digest>, order: seq<Node>, verified: bool)
    requires c.Ok() && Clean(c.d, c.net, r) && TakenUp(r) && forall v <- order :: v in votes
    ensures var l := CommitLoop(c.d, r, votes, order, verified);
            Clean(c.d, c.net + Elements(l.out), l.r) && TakenUp(l.r) && (!l.stopped ==> l.out == [])
  {
    hide Context.Ok, Clean, TakenUp, Execute;
    if order == [] {
      CleanGrows(c.d, c.net, c.net + Elements([]), r);
    } else {
      var rest, v := order[..|order| - 1], order[|order| - 1];
      CommitLoopTakenUp(c, r, votes, rest, verified);
      var before := CommitLoop(c.d, r, votes, rest, verified);
      if !before.stopped {
        assert c.net + Elements([]) == c.net by { Nothing(c.net); }
        var r1 := before.r.(cntCommitConfirm := AddVoter(before.r.cntCommitConfirm, votes[v], v));
        SameProposals(c.d, c.net, before.r, r1);
        ExecuteTakenUp(c, r1, verified);
      }
    }
  }

  lemma {:induction false} CommitMsgsTakenUp(c: Context, r: Replica, ch: Choice)
    requires c.Ok() && Clean(c.d, c.net, r) && TakenUp(r) && CommitChoice(c.d, r, ch)
    ensures var res := HandleCommitMsgs(c.d, r, ch);
            Clean(c.d, c.net + Elements(res.out), res.r) && TakenUp(res.r)
  {
    hide Context.Ok, Clean, TakenUp, CommitLoop;
    var votes := VotesAt(r.commitMsgs, r.sequence);
    if |votes| >= c.d.T() {
      CommitLoopTakenUp(c, r, votes, ch.commits, ch.verified);
    } else {
      Nothing(c.net);
    }
  }

  lemma {:induction false} PrepareLoopTakenUp(c: Context, r: Replica, votes: map<Node, Digest>, order: seq<Node>)
    requires Clean(c.d, c.net, r) && TakenUp(r) && r.sequence in r.proposalPool && forall v <- order :: v in votes
    ensures var l := PrepareLoop(c.d, r, votes, order);
            Clean(c.d, c.net, l.r) && TakenUp(l.r)
  {
    hide Clean, TakenUp, PrepareVote;
    if order != [] {
      var rest, v := order[..|order| - 1], order[|order| - 1];
      PrepareLoopTakenUp(c, r, votes, rest);
      var before := PrepareLoop(c.d, r, votes, rest);
      if !before.stopped {
        VoteKeepsProposals(c.d, before.r, v, votes[v]);
        SameProposals(c.d, c.net, before.r, PrepareVote(c.d, before.r, v, votes[v]).r);
      }
    }
  }

  lemma {:induction false} VoteKeepsProposals(d: Domain, r: Replica, voter: Node, key: Digest)
    requires r.sequence in r.proposalPool
    ensures var r' := PrepareVote(d, r, voter, key).r;
            && r'.id == r.id && r'.sequence == r.sequence && r'.prePreMsgs == r.prePreMsgs && r'.proposalPool == r.proposalPool
            && (r.crashed ==> r'.crashed)
  {
    hide AddVoter, Domain.T;
    var r1 := r.(cntPrepareConfirm := AddVoter(r.cntPrepareConfirm, key, voter));
    if key in r.isCommitBroadcast {
    } else if r.proposalPool[r.sequence] == None {
    } else if key in r1.cntPrepareConfirm && |r1.cntPrepareConfirm[key]| >= d.T() {
    }
  }

  lemma {:induction false} PrepareMsgsTakenUp(c: Context, r: Replica, ch: Choice)
    requires c.Ok() && Clean(c.d, c.net, r) && TakenUp(r) && PrepareChoice(c.d, r, ch)
    ensures var res := HandlePrepareMsgs(c.d, r, ch);
            Clean(c.d, c.net + Elements(res.out), res.r) && TakenUp(res.r)
  {
    hide Context.Ok, Clean, TakenUp, PrepareLoop, CommitChoice, HandleCommitMsgs, Iterates;
    Nothing(c.net);
    var votes := VotesAt(r.prepareMsgs, r.sequence);
    if |votes| >= c.d.T() && r.sequence in r.proposalPool {
      PrepareLoopTakenUp(c, r, votes, ch.prepares);
      var l := PrepareLoop(c.d, r, votes, ch.prepares);
      if l.out != [] {
        CommitMsgsTakenUp(c, l.r, ch);
        var res := HandleCommitMsgs(c.d, l.r, ch);
        MoreSaid(c.net, l.out, res.out);
        CleanGrows(c.d, c.net + Elements(res.out), c.net + Elements(l.out + res.out), res.r);
      }
    }
  }

  lemma {:induction false} MoreSaid(net: set<Message>, a: seq<Message>, b: seq<Message>)
    ensures net + Elements(b) <= net + Elements(a + b)
  {}

  // No message, in no order, makes a replica forget a proposal.
  lemma {:induction false} HandleTakenUp(c: Context, r: Replica, m: Message, ch: Choice)
    requires c.Ok() && c.Rep(r) && m in c.net && Handles(c.d, r, m, ch) && Clean(c.d, c.net, r) && TakenUp(r)
    ensures var res := HandleMsg(c.d, r, m, ch);
            Clean(c.d, c.net + Elements(res.out), res.r) && TakenUp(res.r)
  {
    hide Context.Ok, Clean, TakenUp, HandlePrePrepare, HandlePrepareMsgs, HandleCommitMsgs, PrepareChoice, CommitChoice;
    Nothing(c.net);
    match m
    case PrePrepare(_, _, _, _) =>
      MainBehind(c, r);
      PrePrepareTakenUp(c, r, m, ch.verified);
    case Prepare(_, _, _) =>
      if !(StatusAt(r, m.seqId) in {Prepared, Committed}) {
        SameProposals(c.d, c.net, r, StorePrepare(r, m));
        PrepareMsgsTakenUp(c, StorePrepare(r, m), ch);
      }
    case Commit(_, _, _) =>
      if StatusAt(r, m.seqId) != Committed {
        SameProposals(c.d, c.net, r, StoreCommit(r, m));
        CommitMsgsTakenUp(c, StoreCommit(r, m), ch);
      }
  }

  lemma {:induction false} MainBehind(c: Context, r: Replica)
    requires c.Rep(r)
    ensures r.id == c.d.main ==> |c.p| <= r.sequence + 1
  {
    hide LogOk, PoolOk, PrePresOk, PreparesOk, CommitsOk;
  }

  ghost predicate NoneForgotten(s: System) {
    s.reps.Keys == s.honest && forall i <- s.honest :: s.reps[i].id == i && Clean(s.d, s.net, s.reps[i]) && TakenUp(s.reps[i])
  }

  lemma {:induction false} NextKeeps(s: System, s': System)
    requires Inv(s) && NoneForgotten(s) && Next(s, s')
    ensures NoneForgotten(s')
  {
    hide Inv, NoneForgotten, Deliver, MainProposes, FaultySends;
    if i, m, ch :| Deliver(s, s', i, m, ch) {
      DeliverKeeps(s, s', i, m, ch);
    } else if req :| MainProposes(s, s', req) {
      ProposeKeeps(s, s', req);
    } else {
      var m :| FaultySends(s, s', m);
      FaultyKeeps(s, s', m);
    }
  }

  lemma {:induction false} DeliverKeeps(s: System, s': System, i: Node, m: Message, ch: Choice)
    requires Inv(s) && NoneForgotten(s) && Deliver(s, s', i, m, ch)
    ensures NoneForgotten(s')
  {
    hide Clean, TakenUp, RepOk, NetOk, Setting, HandleMsg, Handles;
    var c := Context(s.d, s.honest, s.proposals, s.net);
    HandleTakenUp(c, s.reps[i], m, ch);
    HandleMsgOk(c, s.reps[i], m, ch);
    forall j | j in s.honest ensures Clean(s.d, s'.net, s'.reps[j]) && TakenUp(s'.reps[j]) {
      if j != i {
        CleanGrows(s.d, s.net, s'.net, s.reps[j]);
      }
    }
  }

  lemma {:induction false} ProposeKeeps(s: System, s': System, req: Request)
    requires Inv(s) && NoneForgotten(s) && MainProposes(s, s', req)
    ensures NoneForgotten(s')
  {
    hide Clean, TakenUp, RepOk, NetOk, Setting, Propose;
    var main := s.d.main;
    assert s'.d == s.d && s'.honest == s.honest && s.net <= s'.net;
    ProposeTakenUp(s.d, s.net, s.reps[main], req);
    forall j | j in s.honest ensures s'.reps[j].id == j && Clean(s.d, s'.net, s'.reps[j]) && TakenUp(s'.reps[j]) {
      if j == main {
        CleanGrows(s.d, s.net, s'.net, s'.reps[j]);
      } else {
        CleanGrows(s.d, s.net, s'.net, s.reps[j]);
      }
    }
  }

  lemma {:induction false} ProposeTakenUp(d: Domain, net: set<Message>, r: Replica, req: Request)
    requires r.id == d.main && r.enabled && Clean(d, net, r)
    ensures var r' := Propose(r, req).r;
            r'.id == r.id && Clean(d, net, r') && TakenUp(r')
  {}

  lemma {:induction false} FaultyKeeps(s: System, s': System, m: Message)
    requires NoneForgotten(s) && FaultySends(s, s', m)
    ensures NoneForgotten(s')
  {
    hide Clean, TakenUp;
    forall j | j in s.honest ensures Clean(s.d, s'.net, s.reps[j]) {
      CleanGrows(s.d, s.net, s'.net, s.reps[j]);
    }
  }

  lemma {:induction false} RunKeeps(run: seq<System>, k: nat)
    requires IsRun(run) && k < |run|
    ensures NoneForgotten(run[k])
  {
    hide NoneForgotten, Inv, Next;
    if k == 0 {
      InitKeeps(run[0]);
    } else {
      RunOk(run, k - 1);
      RunKeeps(run, k - 1);
      NextKeeps(run[k - 1], run[k]);
    }
  }

  lemma {:induction false} InitKeeps(s: System)
    requires Init(s)
    ensures NoneForgotten(s)
  {
    hide Clean, TakenUp, Setting;
    forall i | i in s.honest ensures Clean(s.d, s.net, s.reps[i]) && TakenUp(s.reps[i]) {
      NewClean(s.d, s.net, i);
    }
  }

  lemma {:induction false} NewClean(d: Domain, net: set<Message>, i: Node)
    ensures Clean(d, net, NewReplica(i)) && TakenUp(NewReplica(i)) && NewReplica(i).id == i
  {}

  // In every state of every run: an honest replica that still runs and has been given the proposal
  // for its current number has taken it up; and one that has taken up a proposal that passed its
  // check has answered it.
  lemma {:induction false} ProposalIsTakenUp(run: seq<System>, k: nat, i: Node)
    requires IsRun(run) && k < |run| && i in run[k].honest
    ensures i in run[k].reps
    ensures var r := run[k].reps[i];
            !r.crashed && r.sequence in r.prePreMsgs ==> r.sequence in r.proposalPool
    ensures var r := run[k].reps[i];
            !r.crashed && i != run[k].d.main && r.sequence in r.proposalPool && r.proposalPool[r.sequence].Some? ==>
              Prepare(i, r.sequence, Digest(r.proposalPool[r.sequence].value)) in run[k].net
  {
    hide IsRun, PrePresOk;
    RunKeeps(run, k);
  }

  // The handler itself: a proposal that came early is taken up by the step that ends the round
  // before it, and answered if it passes its check.
  lemma {:induction false} EarlyIsTakenUp(d: Domain, r: Replica, verified: bool, m: Message)
    requires r.id != d.main && r.sequence in r.proposalPool && r.proposalPool[r.sequence].Some?
    requires r.sequence + 1 !in r.proposalPool && r.sequence + 1 in r.prePreMsgs && r.prePreMsgs[r.sequence + 1] == m
    requires m.PrePrepare? && m.sender == d.main && m.seqId == r.sequence + 1 && m.digest == Digest(m.request)
    ensures var res := Execute(d, r, verified);
            && res.r.sequence == m.seqId && res.r.executed == r.executed + [r.proposalPool[r.sequence].value]
            && m.seqId in res.r.proposalPool && res.r.proposalPool[m.seqId] == (if verified then Some(m.request) else None)
            && StatusAt(res.r, m.seqId) == Unprepared && m.seqId !in res.r.isReply
            && StatusAt(res.r, r.sequence) == Committed && r.sequence in res.r.isReply
            && res.out == (if verified then [Prepare(r.id, m.seqId, m.digest)] else [])
  {
    var r1 := Advance(r, r.proposalPool[r.sequence].value);
    assert Execute(d, r, verified) == HandlePrePrepare(d, r1, m, verified);
    assert HandlePrePrepare(d, r1, m, verified).r == Accepted(r1, m, verified);
  }
}
