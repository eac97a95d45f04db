/** Agreement of a PBFT domain with a fixed, honest proposer and at most f other, arbitrary nodes,
    over every run and every delivery order. Messages are never lost from the set of messages sent,
    may be delivered any number of times, and carry their true sender. */
module PbftSafety {
  import opened Quorum
  import opened Pbft
  import opened Transactions

  // reps are the honest replicas; proposals is what the main has proposed, in order.
  datatype System = System(d: Domain, honest: set<Node>, reps: map<Node, Replica>, net: set<Message>, proposals: seq<Request>)

  ghost function Nodes(d: Domain): set<Node> { FirstNodes(d.n) }

  ghost function FirstNodes(n: nat): (nodes: set<Node>)
    ensures |nodes| == n && forall i: Node :: i in nodes <==> i < n
  {
    if n == 0 then {} else FirstNodes(n - 1) + {n - 1}
  }

  ghost predicate Setting(d: Domain, honest: set<Node>) {
    d.main in honest && honest <= Nodes(d) && |Nodes(d) - honest| <= MaliciousAmount(d.n)
  }

  ghost predicate Init(s: System) {
    && Setting(s.d, s.honest)
    && s.reps == (map i | i in s.honest :: NewReplica(i))
    && s.net == {} && s.proposals == []
  }

  ghost predicate Deliver(s: System, s': System, i: Node, m: Message, ch: Choice) {
    && i in s.honest && i in s.reps && !s.reps[i].crashed && m in s.net && Handles(s.d, s.reps[i], m, ch)
    && var res := HandleMsg(s.d, s.reps[i], m, ch);
       s' == s.(reps := s.reps[i := res.r], net := s.net + Elements(res.out))
  }

  // The main takes its lock, pops a proposal that prepares successfully, and sends it.
  ghost predicate MainProposes(s: System, s': System, req: Request) {
    && s.d.main in s.reps && !s.reps[s.d.main].crashed && s.reps[s.d.main].enabled
    && var res := Propose(s.reps[s.d.main], req);
       s' == s.(reps := s.reps[s.d.main := res.r], net := s.net + Elements(res.out), proposals := s.proposals + [req])
  }

  ghost predicate FaultySends(s: System, s': System, m: Message) {
    m.sender in Nodes(s.d) - s.honest && s' == s.(net := s.net + {m})
  }

  ghost predicate Next(s: System, s': System) {
    || (exists i, m, ch :: Deliver(s, s', i, m, ch))
    || (exists req :: MainProposes(s, s', req))
    || (exists m :: FaultySends(s, s', m))
  }

  ghost predicate IsRun(run: seq<System>) {
    run != [] && Init(run[0]) && forall k: nat | k + 1 < |run| :: Next(run[k], run[k + 1])
  }

  ghost function PrepareSenders(net: set<Message>, s: Seq): set<Node> {
    set m | m in net && m.Prepare? && m.seqId == s :: m.sender
  }

  ghost function CommitSenders(net: set<Message>, s: Seq): set<Node> {
    set m | m in net && m.Commit? && m.seqId == s :: m.sender
  }

  // What honest nodes have said.
  ghost predicate Truthful(d: Domain, honest: set<Node>, p: seq<Request>, net: set<Message>, m: Message) {
    && m.sender in Nodes(d)
    && (m.PrePrepare? && m.sender == d.main ==> m.seqId < |p| && m.request == p[m.seqId] && m.digest == Digest(m.request))
    && (m.Prepare? && m.sender in honest ==> m.seqId < |p| && m.digest == Digest(p[m.seqId]))
    && (m.Commit? && m.sender in honest ==> |PrepareSenders(net, m.seqId)| >= d.T())
  }

  ghost predicate NetOk(d: Domain, honest: set<Node>, p: seq<Request>, net: set<Message>) {
    forall m <- net :: Truthful(d, honest, p, net, m)
  }

  // The main's lock is held exactly while its last proposal is not executed.
  ghost predicate LockOk(d: Domain, p: seq<Request>, id: Node, sequence: Seq, enabled: bool) {
    id == d.main ==> |p| == sequence + (if enabled then 0 else 1)
  }

  ghost predicate LogOk(d: Domain, p: seq<Request>, net: set<Message>, sequence: Seq, executed: seq<Request>) {
    && sequence <= |p| && executed == p[..sequence]
    && forall s: nat | s < sequence :: |CommitSenders(net, s)| >= d.T()
  }

  ghost predicate PoolOk(p: seq<Request>, pool: map<Seq, Option<Request>>) {
    forall s <- pool | pool[s].Some? :: s < |p| && pool[s].value == p[s]
  }

  ghost predicate PrePresOk(net: set<Message>, msgs: map<Seq, Message>) {
    forall s <- msgs :: msgs[s].PrePrepare? && msgs[s] in net
  }

  ghost predicate PreparesOk(net: set<Message>, msgs: map<Seq, map<Node, Digest>>) {
    forall s <- msgs :: msgs[s].Keys <= PrepareSenders(net, s)
  }

  ghost predicate CommitsOk(net: set<Message>, msgs: map<Seq, map<Node, Digest>>) {
    forall s <- msgs :: msgs[s].Keys <= CommitSenders(net, s)
  }

  ghost predicate RepOk(d: Domain, p: seq<Request>, net: set<Message>, r: Replica) {
    && LockOk(d, p, r.id, r.sequence, r.enabled) && LogOk(d, p, net, r.sequence, r.executed) && PoolOk(p, r.proposalPool)
    && PrePresOk(net, r.prePreMsgs) && PreparesOk(net, r.prepareMsgs) && CommitsOk(net, r.commitMsgs)
  }

  ghost predicate Inv(s: System) {
    && Setting(s.d, s.honest)
    && s.reps.Keys == s.honest
    && NetOk(s.d, s.honest, s.proposals, s.net)
    && forall i <- s.honest :: s.reps[i].id == i && RepOk(s.d, s.proposals, s.net, s.reps[i])
  }

  // A step of an honest replica in context: what it may rely on, and what it must deliver.
  datatype Context = Context(d: Domain, honest: set<Node>, p: seq<Request>, net: set<Message>) {
    ghost predicate Ok() { Setting(d, honest) && NetOk(d, honest, p, net) }

    ghost predicate Rep(r: Replica) { r.id in honest && RepOk(d, p, net, r) }

    ghost predicate Out(r: Replica, out: seq<Message>) {
      forall m <- out :: m.sender == r.id && Truthful(d, honest, p, net, m) && !m.PrePrepare?
    }

    ghost predicate Res(r: Replica, res: Result) {
      res.r.id == r.id && Rep(res.r) && Out(r, res.out)
    }
  }

  lemma {:induction false} PrePrepareOk(c: Context, r: Replica, m: Message, verified: bool)
    requires c.Ok() && c.Rep(r) && m.PrePrepare? && m in c.net
    ensures c.Res(r, HandlePrePrepare(c.d, r, m, verified))
  {
    assert PrePresOk(c.net, r.prePreMsgs[m.seqId := m]);
    hide LockOk, LogOk, PoolOk, PreparesOk, CommitsOk, PrePresOk, NetOk, Setting, Truthful, Respond;
    if m.seqId in r.prePreMsgs && m.sender != c.d.main {
      assert c.Rep(Crash(r));
    } else {
      assert c.Rep(Receive(r, m));
      RespondOk(c, Receive(r, m), m, verified);
    }
  }

  lemma {:induction false} RespondOk(c: Context, r: Replica, m: Message, verified: bool)
    requires c.Ok() && c.Rep(r) && m.PrePrepare? && m in c.net
    ensures c.Res(r, Respond(c.d, r, m, verified))
  {
    hide LockOk, LogOk, PoolOk, PreparesOk, CommitsOk, PrePresOk, NetOk, Setting, Truthful, Accepted;
    match Verify(c.d, r, m)
    case Panic => assert c.Rep(Crash(r));
    case Ignore =>
    case Accept => AcceptOk(c, r, m, verified);
  }

  lemma {:induction false} AcceptOk(c: Context, r: Replica, m: Message, verified: bool)
    requires c.Ok() && c.Rep(r) && m.PrePrepare? && m in c.net && Verify(c.d, r, m) == Accept
    ensures c.Rep(Accepted(r, m, verified)) && Accepted(r, m, verified).id == r.id
    ensures Truthful(c.d, c.honest, c.p, c.net, Prepare(r.id, m.seqId, m.digest))
  {
    hide LockOk, LogOk, PreparesOk, CommitsOk, PrePresOk, PoolOk, NetOk, Setting, Truthful;
    MainSaid(c, r, m);
    PoolGrows(c.p, r.proposalPool, m.seqId, if verified then Some(m.request) else None);
  }

  lemma {:induction false} MainSaid(c: Context, r: Replica, m: Message)
    requires c.Ok() && r.id in c.honest && m.PrePrepare? && m in c.net && m.sender == c.d.main
    ensures m.seqId < |c.p| && m.request == c.p[m.seqId]
    ensures Truthful(c.d, c.honest, c.p, c.net, Prepare(r.id, m.seqId, m.digest))
  {
    assert Truthful(c.d, c.honest, c.p, c.net, m);
    hide NetOk;
  }

  lemma {:induction false} PoolGrows(p: seq<Request>, pool: map<Seq, Option<Request>>, s: Seq, entry: Option<Request>)
    requires PoolOk(p, pool) && (entry.Some? ==> s < |p| && entry.value == p[s])
    ensures PoolOk(p, pool[s := entry])
  {
  }

  // Executing what is stored for the current sequence number, once enough nodes have committed to it.
  lemma {:induction false} ExecuteOk(c: Context, r: Replica, verified: bool)
    requires c.Ok() && c.Rep(r) && |CommitSenders(c.net, r.sequence)| >= c.d.T()
    ensures c.Res(r, Execute(c.d, r, verified))
  {
    hide NetOk, HandlePrePrepare, Truthful, Setting, LogOk, PoolOk, PreparesOk, CommitsOk, PrePresOk, LockOk, Advance;
    var s := r.sequence;
    if s in r.proposalPool && r.proposalPool[s].Some? {
      var r1 := Advance(r, r.proposalPool[s].value);
      AdvanceOk(c, r);
      if r.id == c.d.main {
        assert Execute(c.d, r, verified) == Result(r1.(enabled := true), []);
      } else if s + 1 in r1.prePreMsgs && r1.prePreMsgs[s + 1].PrePrepare? {
        StoredPrePrepare(c.net, r1.prePreMsgs, s + 1);
        PrePrepareOk(c, r1, r1.prePreMsgs[s + 1], verified);
      } else {
        assert Execute(c.d, r, verified) == Result(r1, []);
      }
    } else {
      assert c.Rep(Crash(r.(isReply := r.isReply + {s})));
    }
  }

  // The main executes only while its lock is held, and releases it then.
  lemma {:induction false} AdvanceOk(c: Context, r: Replica)
    requires c.Ok() && c.Rep(r) && |CommitSenders(c.net, r.sequence)| >= c.d.T()
    requires r.sequence in r.proposalPool && r.proposalPool[r.sequence].Some?
    ensures var r1 := Advance(r, r.proposalPool[r.sequence].value);
            && r1.id == r.id && r1.enabled == r.enabled
            && (r.id == c.d.main ==> !r.enabled)
            && c.Rep(if r.id == c.d.main then r1.(enabled := true) else r1)
  {
    hide NetOk, Truthful, Setting;
    var s := r.sequence;
    var r1 := Advance(r, r.proposalPool[s].value);
    assert r.proposalPool[s].value == c.p[s];
    assert c.p[..s + 1] == c.p[..s] + [c.p[s]];
    assert LogOk(c.d, c.p, c.net, s + 1, r1.executed);
    assert r.id == c.d.main ==> !r.enabled && LockOk(c.d, c.p, r.id, s + 1, true);
    assert r.id != c.d.main ==> LockOk(c.d, c.p, r.id, s + 1, r.enabled);
    assert PrePresOk(c.net, r1.prePreMsgs) && PreparesOk(c.net, r1.prepareMsgs) && CommitsOk(c.net, r1.commitMsgs);
    hide LogOk, PoolOk, PreparesOk, CommitsOk, PrePresOk, LockOk;
  }

  lemma {:induction false} StoredPrePrepare(net: set<Message>, msgs: map<Seq, Message>, s: Seq)
    requires PrePresOk(net, msgs) && s in msgs
    ensures msgs[s].PrePrepare? && msgs[s] in net
  {}

  lemma {:induction false} CommitLoopOk(c: Context, r: Replica, votes: map<Node, Digest>, order: seq<Node>, verified: bool)
    requires c.Ok() && c.Rep(r) && |CommitSenders(c.net, r.sequence)| >= c.d.T() && forall v <- order :: v in votes
    ensures var l := CommitLoop(c.d, r, votes, order, verified);
            c.Res(r, Result(l.r, l.out)) && (!l.stopped ==> l.r.sequence == r.sequence)
  {
    if order != [] {
      var rest, v := order[..|order| - 1], order[|order| - 1];
      CommitLoopOk(c, r, votes, rest, verified);
      var before := CommitLoop(c.d, r, votes, rest, verified);
      if !before.stopped {
        ExecuteOk(c, before.r.(cntCommitConfirm := AddVoter(before.r.cntCommitConfirm, votes[v], v)), verified);
      }
    }
  }

  lemma {:induction false} CommitMsgsOk(c: Context, r: Replica, ch: Choice)
    requires c.Ok() && c.Rep(r) && CommitChoice(c.d, r, ch)
    ensures c.Res(r, HandleCommitMsgs(c.d, r, ch))
  {
    var votes := VotesAt(r.commitMsgs, r.sequence);
    if |votes| >= c.d.T() {
      VotersSent(votes, CommitSenders(c.net, r.sequence));
      CommitLoopOk(c, r, votes, ch.commits, ch.verified);
    }
  }

  lemma {:induction false} VotersSent(votes: map<Node, Digest>, senders: set<Node>)
    requires votes.Keys <= senders
    ensures |votes| <= |senders|
  {
    SizeOfSubset(votes.Keys, senders);
    assert |votes| == |votes.Keys|;
  }

  lemma {:induction false} PrepareLoopOk(c: Context, r: Replica, votes: map<Node, Digest>, order: seq<Node>)
    requires c.Ok() && c.Rep(r) && r.sequence in r.proposalPool && |PrepareSenders(c.net, r.sequence)| >= c.d.T()
    requires forall v <- order :: v in votes
    ensures var l := PrepareLoop(c.d, r, votes, order);
            c.Res(r, Result(l.r, l.out))
  {
    hide RepOk, NetOk, Setting, PrepareVote;
    if order != [] {
      var rest, v := order[..|order| - 1], order[|order| - 1];
      PrepareLoopOk(c, r, votes, rest);
      var before := PrepareLoop(c.d, r, votes, rest);
      if !before.stopped {
        PrepareVoteOk(c, before.r, v, votes[v]);
      }
    }
  }

  lemma {:induction false} PrepareVoteOk(c: Context, r: Replica, voter: Node, key: Digest)
    requires c.Ok() && c.Rep(r) && r.sequence in r.proposalPool && |PrepareSenders(c.net, r.sequence)| >= c.d.T()
    ensures var l := PrepareVote(c.d, r, voter, key);
            c.Res(r, Result(l.r, l.out))
  {
    assert r.id in Nodes(c.d);
    assert PreparesOk(c.net, r.prepareMsgs - {r.sequence});
    hide LockOk, LogOk, PoolOk, PreparesOk, CommitsOk, PrePresOk, NetOk, Setting, Nodes, CommitSenders, PrepareSenders;
    var r1 := r.(cntPrepareConfirm := AddVoter(r.cntPrepareConfirm, key, voter));
    assert c.Rep(r1) && c.Rep(Crash(r1));
    if key in r.isCommitBroadcast {
    } else if r.proposalPool[r.sequence] == None {
    } else if |r1.cntPrepareConfirm[key]| >= c.d.T() {
      assert c.Rep(Broadcasting(r1, key));
    }
  }

  lemma {:induction false} PrepareMsgsOk(c: Context, r: Replica, ch: Choice)
    requires c.Ok() && c.Rep(r) && PrepareChoice(c.d, r, ch)
    ensures c.Res(r, HandlePrepareMsgs(c.d, r, ch))
  {
    var votes := VotesAt(r.prepareMsgs, r.sequence);
    if |votes| >= c.d.T() && r.sequence in r.proposalPool {
      VotersSent(votes, PrepareSenders(c.net, r.sequence));
      PrepareLoopOk(c, r, votes, ch.prepares);
      var l := PrepareLoop(c.d, r, votes, ch.prepares);
      if l.out != [] {
        CommitMsgsOk(c, l.r, ch);
      }
    }
  }

  // No message, in no order, breaks what an honest replica keeps.
  lemma {:induction false} HandleMsgOk(c: Context, r: Replica, m: Message, ch: Choice)
    requires c.Ok() && c.Rep(r) && m in c.net && Handles(c.d, r, m, ch)
    ensures c.Res(r, HandleMsg(c.d, r, m, ch))
  {
    match m
    case PrePrepare(_, _, _, _) => PrePrepareOk(c, r, m, ch.verified);
    case Prepare(_, _, _) =>
      if !(StatusAt(r, m.seqId) in {Prepared, Committed}) {
        assert c.Rep(StorePrepare(r, m));
        PrepareMsgsOk(c, StorePrepare(r, m), ch);
      }
    case Commit(_, _, _) =>
      if StatusAt(r, m.seqId) != Committed {
        assert c.Rep(StoreCommit(r, m));
        CommitMsgsOk(c, StoreCommit(r, m), ch);
      }
  }

  // More messages and more proposals never undo what held.
  lemma {:induction false} SendersGrow(net: set<Message>, net': set<Message>, s: Seq)
    requires net <= net'
    ensures PrepareSenders(net, s) <= PrepareSenders(net', s) && |PrepareSenders(net, s)| <= |PrepareSenders(net', s)|
    ensures CommitSenders(net, s) <= CommitSenders(net', s) && |CommitSenders(net, s)| <= |CommitSenders(net', s)|
  {
    SizeOfSubset(PrepareSenders(net, s), PrepareSenders(net', s));
    SizeOfSubset(CommitSenders(net, s), CommitSenders(net', s));
  }

  lemma {:induction false} TruthfulGrows(d: Domain, honest: set<Node>, p: seq<Request>, p': seq<Request>, net: set<Message>, net': set<Message>, m: Message)
    requires net <= net' && p <= p' && Truthful(d, honest, p, net, m)
    ensures Truthful(d, honest, p', net', m)
  {
    SendersGrow(net, net', m.seqId);
  }

  lemma {:induction false} RepGrows(d: Domain, p: seq<Request>, p': seq<Request>, net: set<Message>, net': set<Message>, r: Replica)
    requires net <= net' && p <= p' && RepOk(d, p, net, r) && LockOk(d, p', r.id, r.sequence, r.enabled)
    ensures RepOk(d, p', net', r)
  {
    forall s: Seq
      ensures PrepareSenders(net, s) <= PrepareSenders(net', s) && CommitSenders(net, s) <= CommitSenders(net', s)
      ensures |CommitSenders(net, s)| <= |CommitSenders(net', s)|
    {
      SendersGrow(net, net', s);
    }
  }

  lemma {:induction false} NetGrows(d: Domain, honest: set<Node>, p: seq<Request>, p': seq<Request>, net: set<Message>, out: set<Message>)
    requires p <= p' && NetOk(d, honest, p, net)
    requires forall m <- out :: Truthful(d, honest, p', net, m)
    ensures NetOk(d, honest, p', net + out)
  {
    forall m | m in net + out ensures Truthful(d, honest, p', net + out, m) {
      if m in net {
        TruthfulGrows(d, honest, p, p', net, net + out, m);
      } else {
        TruthfulGrows(d, honest, p', p', net, net + out, m);
      }
    }
  }

  lemma {:induction false} InitOk(s: System)
    requires Init(s)
    ensures Inv(s)
  {}

  lemma {:induction false} DeliverOk(s: System, s': System, i: Node, m: Message, ch: Choice)
    requires Inv(s) && Deliver(s, s', i, m, ch)
    ensures Inv(s') && s.reps[i].executed <= s'.reps[i].executed
  {
    var c := Context(s.d, s.honest, s.proposals, s.net);
    var res := HandleMsg(s.d, s.reps[i], m, ch);
    HandleMsgOk(c, s.reps[i], m, ch);
    NetGrows(s.d, s.honest, s.proposals, s.proposals, s.net, Elements(res.out));
    forall j | j in s.honest ensures s'.reps[j].id == j && RepOk(s.d, s.proposals, s'.net, s'.reps[j]) {
      RepGrows(s.d, s.proposals, s.proposals, s.net, s'.net, s'.reps[j]);
    }
    SequenceGrows(s.d, s.reps[i], m, ch);
  }

  lemma {:induction false} ProposeOk(s: System, s': System, req: Request)
    requires Inv(s) && MainProposes(s, s', req)
    ensures Inv(s')
  {
    var main := s.d.main;
    var r := s.reps[main];
    var res := Propose(r, req);
    assert RepOk(s.d, s.proposals, s.net, r);
    var m := PrePrepare(main, r.sequence, req, Digest(req));
    assert Elements(res.out) == {m};
    NetGrows(s.d, s.honest, s.proposals, s'.proposals, s.net, {m});
    forall j | j in s.honest ensures s'.reps[j].id == j && RepOk(s.d, s'.proposals, s'.net, s'.reps[j]) {
      if j != main {
        assert RepOk(s.d, s.proposals, s.net, s.reps[j]);
        RepGrows(s.d, s.proposals, s'.proposals, s.net, s'.net, s.reps[j]);
      } else {
        MainAfterPropose(s.d, s.proposals, s.net, s'.net, r, req);
      }
    }
  }

  lemma {:induction false} MainAfterPropose(d: Domain, p: seq<Request>, net: set<Message>, net': set<Message>, r: Replica, req: Request)
    requires RepOk(d, p, net, r) && net <= net' && r.id == d.main && r.enabled
    ensures RepOk(d, p + [req], net', Propose(r, req).r)
  {
    var r' := Propose(r, req).r;
    assert PoolOk(p + [req], r'.proposalPool);
    assert LockOk(d, p + [req], r'.id, r'.sequence, r'.enabled);
    forall s: Seq
      ensures PrepareSenders(net, s) <= PrepareSenders(net', s) && CommitSenders(net, s) <= CommitSenders(net', s)
      ensures |CommitSenders(net, s)| <= |CommitSenders(net', s)|
    {
      SendersGrow(net, net', s);
    }
  }

  lemma {:induction false} FaultyOk(s: System, s': System, m: Message)
    requires Inv(s) && FaultySends(s, s', m)
    ensures Inv(s')
  {
    NetGrows(s.d, s.honest, s.proposals, s.proposals, s.net, {m});
    forall j | j in s.honest ensures RepOk(s.d, s.proposals, s'.net, s'.reps[j]) {
      RepGrows(s.d, s.proposals, s.proposals, s.net, s'.net, s.reps[j]);
    }
  }

  lemma {:induction false} NextOk(s: System, s': System)
    requires Inv(s) && Next(s, s')
    ensures Inv(s')
  {
    if i, m, ch :| Deliver(s, s', i, m, ch) {
      DeliverOk(s, s', i, m, ch);
    } else if req :| MainProposes(s, s', req) {
      ProposeOk(s, s', req);
    } else {
      var m :| FaultySends(s, s', m);
      FaultyOk(s, s', m);
    }
  }

  // Nothing executed, or one request more.
  ghost predicate OneStep(r: Replica, r': Replica) {
    || (r'.sequence == r.sequence && r'.executed == r.executed)
    || (r'.sequence == r.sequence + 1 && |r'.executed| == |r.executed| + 1 && r.executed <= r'.executed)
  }

  // The sequence number and the log only move forward, by one request at a time.
  lemma {:induction false} SequenceGrows(d: Domain, r: Replica, m: Message, ch: Choice)
    requires Handles(d, r, m, ch)
    ensures OneStep(r, HandleMsg(d, r, m, ch).r)
  {
    hide HandlePrePrepare, HandleCommitMsgs, PrepareLoop, CommitChoice, Iterates;
    match m
    case PrePrepare(_, _, _, _) => PrePrepareKeepsLog(d, r, m, ch.verified);
    case Prepare(_, _, _) =>
      if !(StatusAt(r, m.seqId) in {Prepared, Committed}) {
        var r1 := StorePrepare(r, m);
        var votes := VotesAt(r1.prepareMsgs, r1.sequence);
        if |votes| >= d.T() && r1.sequence in r1.proposalPool {
          PrepareLoopKeepsLog(d, r1, votes, ch.prepares);
          var l := PrepareLoop(d, r1, votes, ch.prepares);
          if l.out != [] {
            CommitMsgsStep(d, l.r, ch);
          }
        }
      }
    case Commit(_, _, _) =>
      if StatusAt(r, m.seqId) != Committed {
        CommitMsgsStep(d, StoreCommit(r, m), ch);
      }
  }

  lemma {:induction false} PrePrepareKeepsLog(d: Domain, r: Replica, m: Message, verified: bool)
    requires m.PrePrepare?
    ensures var r' := HandlePrePrepare(d, r, m, verified).r;
            r'.sequence == r.sequence && r'.executed == r.executed
  {
    hide Respond;
    if m.seqId in r.prePreMsgs && m.sender != d.main {
    } else {
      RespondKeepsLog(d, Receive(r, m), m, verified);
      assert Receive(r, m).executed == r.executed;
    }
  }

  lemma {:induction false} RespondKeepsLog(d: Domain, r: Replica, m: Message, verified: bool)
    requires m.PrePrepare?
    ensures var r' := Respond(d, r, m, verified).r;
            r'.sequence == r.sequence && r'.executed == r.executed
  {
    hide Verify, Accepted;
    match Verify(d, r, m)
    case Panic => CrashKeepsLog(r);
    case Ignore =>
    case Accept => AcceptedKeepsLog(r, m, verified);
  }

  lemma {:induction false} AcceptedKeepsLog(r: Replica, m: Message, verified: bool)
    requires m.PrePrepare?
    ensures Accepted(r, m, verified).executed == r.executed && Accepted(r, m, verified).sequence == r.sequence
  {}

  lemma {:induction false} CrashKeepsLog(r: Replica)
    ensures Crash(r).executed == r.executed && Crash(r).sequence == r.sequence
  {}

  lemma {:induction false} PrepareLoopKeepsLog(d: Domain, r: Replica, votes: map<Node, Digest>, order: seq<Node>)
    requires r.sequence in r.proposalPool && forall v <- order :: v in votes
    ensures var r' := PrepareLoop(d, r, votes, order).r;
            r'.sequence == r.sequence && r'.executed == r.executed
  {
    if order != [] {
      var rest, v := order[..|order| - 1], order[|order| - 1];
      PrepareLoopKeepsLog(d, r, votes, rest);
      var before := PrepareLoop(d, r, votes, rest);
      if !before.stopped {
        PrepareVoteKeepsLog(d, before.r, v, votes[v]);
      }
    }
  }

  lemma {:induction false} PrepareVoteKeepsLog(d: Domain, r: Replica, voter: Node, key: Digest)
    requires r.sequence in r.proposalPool
    ensures var r' := PrepareVote(d, r, voter, key).r;
            r'.sequence == r.sequence && r'.executed == r.executed
  {
    var r1 := r.(cntPrepareConfirm := AddVoter(r.cntPrepareConfirm, key, voter));
    if key in r.isCommitBroadcast {
    } else if r.proposalPool[r.sequence] == None {
    } else if |r1.cntPrepareConfirm[key]| >= d.T() {
    }
  }

  lemma {:induction false} CommitMsgsStep(d: Domain, r: Replica, ch: Choice)
    requires CommitChoice(d, r, ch)
    ensures OneStep(r, HandleCommitMsgs(d, r, ch).r)
  {
    var votes := VotesAt(r.commitMsgs, r.sequence);
    if |votes| >= d.T() {
      CommitLoopStep(d, r, votes, ch.commits, ch.verified);
    }
  }

  lemma {:induction false} CommitLoopStep(d: Domain, r: Replica, votes: map<Node, Digest>, order: seq<Node>, verified: bool)
    requires forall v <- order :: v in votes
    ensures var l := CommitLoop(d, r, votes, order, verified);
            if l.stopped then OneStep(r, l.r) else l.r.sequence == r.sequence && l.r.executed == r.executed
  {
    hide Execute;
    if order != [] {
      var rest, v := order[..|order| - 1], order[|order| - 1];
      CommitLoopStep(d, r, votes, rest, verified);
      var before := CommitLoop(d, r, votes, rest, verified);
      ExecuteStep(d, before.r.(cntCommitConfirm := AddVoter(before.r.cntCommitConfirm, votes[v], v)), verified);
    }
  }

  lemma {:induction false} ExecuteStep(d: Domain, r: Replica, verified: bool)
    ensures OneStep(r, Execute(d, r, verified).r)
  {
    hide HandlePrePrepare, Advance, OneStep;
    var s := r.sequence;
    if s in r.proposalPool && r.proposalPool[s].Some? {
      var r1 := Advance(r, r.proposalPool[s].value);
      AdvanceStep(r, r.proposalPool[s].value);
      OneStepThenSame(r, r1, Execute(d, r, verified).r);
      if r.id != d.main && s + 1 in r1.prePreMsgs && r1.prePreMsgs[s + 1].PrePrepare? {
        PrePrepareKeepsLog(d, r1, r1.prePreMsgs[s + 1], verified);
      }
    } else {
      NoStep(r, Execute(d, r, verified).r);
    }
  }

  lemma {:induction false} AdvanceStep(r: Replica, req: Request)
    ensures OneStep(r, Advance(r, req))
  {}

  lemma {:induction false} NoStep(r: Replica, r': Replica)
    ensures r'.sequence == r.sequence && r'.executed == r.executed ==> OneStep(r, r')
  {}

  lemma {:induction false} OneStepThenSame(r: Replica, r1: Replica, r': Replica)
    requires OneStep(r, r1)
    ensures r'.sequence == r1.sequence && r'.executed == r1.executed ==> OneStep(r, r')
  {}

  lemma {:induction false} RunOk(run: seq<System>, k: nat)
    requires IsRun(run) && k < |run|
    ensures Inv(run[k])
  {
    if k == 0 {
      InitOk(run[0]);
    } else {
      RunOk(run, k - 1);
      NextOk(run[k - 1], run[k]);
    }
  }

  // Agreement: in every state of every run, what an honest replica has executed is, in order and
  // without a gap, a prefix of what the main proposed; so any two honest logs agree.
  lemma {:induction false} Agreement(run: seq<System>, k: nat, i: Node, j: Node)
    requires IsRun(run) && k < |run| && i in run[k].honest && j in run[k].honest
    ensures i in run[k].reps && j in run[k].reps
    ensures |run[k].reps[i].executed| == run[k].reps[i].sequence && run[k].reps[i].executed <= run[k].proposals
    ensures run[k].reps[i].executed <= run[k].reps[j].executed || run[k].reps[j].executed <= run[k].reps[i].executed
  {
    RunOk(run, k);
    assert RepOk(run[k].d, run[k].proposals, run[k].net, run[k].reps[i]);
    assert RepOk(run[k].d, run[k].proposals, run[k].net, run[k].reps[j]);
  }

  // The propose lock makes the main's proposal for a sequence number unique.
  lemma {:induction false} OneProposalPerSequence(run: seq<System>, k: nat, m1: Message, m2: Message)
    requires IsRun(run) && k < |run| && m1 in run[k].net && m2 in run[k].net && m1.PrePrepare? && m2.PrePrepare?
    requires m1.sender == run[k].d.main == m2.sender && m1.seqId == m2.seqId
    ensures m1 == m2
  {
    RunOk(run, k);
    var s := run[k];
    assert Truthful(s.d, s.honest, s.proposals, s.net, m1) && Truthful(s.d, s.honest, s.proposals, s.net, m2);
  }

  // The lock is never released twice: a main that executes a request holds it.
  lemma {:induction false} MainHoldsLock(run: seq<System>, k: nat)
    requires IsRun(run) && k < |run|
    ensures run[k].d.main in run[k].reps
    ensures var r := run[k].reps[run[k].d.main];
            r.sequence in r.proposalPool && r.proposalPool[r.sequence].Some? ==> !r.enabled
  {
    RunOk(run, k);
    var s := run[k];
    assert RepOk(s.d, s.proposals, s.net, s.reps[s.d.main]);
  }

  // An executed request was accepted, under its own sequence number, by at least Threshold - f
  // honest replicas.
  lemma {:induction false} ExecutedIsAccepted(run: seq<System>, k: nat, i: Node, q: Seq) returns (backers: set<Node>)
    requires IsRun(run) && k < |run| && i in run[k].honest
    requires i in run[k].reps && q < run[k].reps[i].sequence
    ensures q < |run[k].proposals| && q < |run[k].reps[i].executed| && run[k].reps[i].executed[q] == run[k].proposals[q]
    ensures backers <= run[k].honest && |backers| >= Threshold(run[k].d.n) - MaliciousAmount(run[k].d.n)
    ensures forall b <- backers :: Prepare(b, q, Digest(run[k].proposals[q])) in run[k].net
  {
    RunOk(run, k);
    var s := run[k];
    hide IsRun;
    assert RepOk(s.d, s.proposals, s.net, s.reps[i]);
    assert LogOk(s.d, s.proposals, s.net, s.reps[i].sequence, s.reps[i].executed);
    hide RepOk;
    backers := Backers(s, q);
  }

  // Commits by Threshold nodes at q rest on prepares of honest nodes for the main's proposal at q.
  lemma {:induction false} Backers(s: System, q: Seq) returns (backers: set<Node>)
    requires Inv(s) && q < |s.proposals| && |CommitSenders(s.net, q)| >= s.d.T()
    ensures backers <= s.honest && |backers| >= Threshold(s.d.n) - MaliciousAmount(s.d.n)
    ensures forall b <- backers :: Prepare(b, q, Digest(s.proposals[q])) in s.net
  {
    hide RepOk;
    SendersAreNodes(s, q);
    HonestInQuorum(Nodes(s.d), s.honest, CommitSenders(s.net, q));
    var h :| h in CommitSenders(s.net, q) * s.honest;
    var m :| m in s.net && m.Commit? && m.seqId == q && m.sender == h;
    assert Truthful(s.d, s.honest, s.proposals, s.net, m);
    HonestInQuorum(Nodes(s.d), s.honest, PrepareSenders(s.net, q));
    backers := PrepareSenders(s.net, q) * s.honest;
    forall b | b in backers ensures Prepare(b, q, Digest(s.proposals[q])) in s.net {
      var pm :| pm in s.net && pm.Prepare? && pm.seqId == q && pm.sender == b;
      assert Truthful(s.d, s.honest, s.proposals, s.net, pm);
    }
  }

  lemma {:induction false} SendersAreNodes(s: System, q: Seq)
    requires Inv(s)
    ensures PrepareSenders(s.net, q) <= Nodes(s.d) && CommitSenders(s.net, q) <= Nodes(s.d)
  {
    forall m | m in s.net ensures m.sender in Nodes(s.d) {
      assert Truthful(s.d, s.honest, s.proposals, s.net, m);
    }
  }
}
