/** The replica object with its maps and handlers (consensus_shard/pbft). Every handler is tied to
    the function of the same name on replica states. Messages sent are returned. */
module PbftReplica {
  import opened Quorum
  import opened Pbft
  import opened Transactions

  // order lists, without repetition, the voters that are not to be visited any more.
  ghost predicate Visited(order: seq<Node>, votes: map<Node, Digest>, todo: set<Node>) {
    && todo <= votes.Keys && Elements(order) == votes.Keys - todo
    && forall i, j | 0 <= i < j < |order| :: order[i] != order[j]
  }

  lemma {:induction false} VisitNone(votes: map<Node, Digest>)
    ensures Visited([], votes, votes.Keys)
  {}

  lemma {:induction false} VisitOne(order: seq<Node>, votes: map<Node, Digest>, todo: set<Node>, v: Node)
    requires Visited(order, votes, todo) && v in todo
    ensures v in votes && Visited(order + [v], votes, todo - {v}) && (order + [v])[..|order|] == order
    ensures forall x <- order + [v] :: x in votes
  {
    ElementsAppend(order, v);
    assert v !in Elements(order);
    forall x | x in order + [v] ensures x in votes {
      assert x in Elements(order + [v]);
    }
  }

  lemma {:induction false} VisitedIterates(order: seq<Node>, votes: map<Node, Digest>, todo: set<Node>)
    requires Visited(order, votes, todo)
    ensures Iterates(order, votes, true) && (todo == {} ==> Iterates(order, votes, false))
  {
    forall x | x in order ensures x in votes {
      assert x in Elements(order);
    }
  }

  class ConPbft {
    const id: Node
    const domain: Domain
    var sequence: Seq
    var PrePreMsgs: map<Seq, Message>
    var PrepareMsgs: map<Seq, map<Node, Digest>>
    var cntPrepareConfirm: map<Digest, set<Node>>
    var CommitMsgs: map<Seq, map<Node, Digest>>
    var cntCommitConfirm: map<Digest, set<Node>>
    var isCommitBroadcast: set<Digest>
    var proposalPool: map<Seq, Option<Request>>
    var proposalStatus: map<Seq, Status>
    var isReply: set<Seq>
    var enabled: bool
    var crashed: bool
    ghost var executed: seq<Request>

    ghost function State(): Replica
      reads this
    {
      Replica(id, sequence, PrePreMsgs, PrepareMsgs, cntPrepareConfirm, CommitMsgs, cntCommitConfirm, isCommitBroadcast,
              proposalPool, proposalStatus, isReply, enabled, crashed, executed)
    }

    constructor (id: Node, domain: Domain)
      ensures State() == NewReplica(id) && this.domain == domain && this.id == id
    {
      this.id, this.domain := id, domain;
      sequence, PrePreMsgs, PrepareMsgs, CommitMsgs := 0, map[], map[], map[];
      cntPrepareConfirm, cntCommitConfirm, isCommitBroadcast := map[], map[], {};
      proposalPool, proposalStatus, isReply := map[], map[], {};
      enabled, crashed, executed := true, false, [];
    }

    // Pbft1_Propose.go:9-31. pop is what the buffer yields, prepared whether the operation prepares.
    // A free lock is taken; it stays taken only if a proposal goes out.
    method ProposeNext(pop: Option<Request>, prepared: bool) returns (out: seq<Message>)
      requires enabled
      modifies this
      ensures pop.Some? && prepared ==> Result(State(), out) == Propose(old(State()), pop.value)
      ensures pop == None || !prepared ==> State() == old(State()) && out == []
    {
      enabled := false;
      if pop == None {
        enabled := true;
        return [];
      }
      if !prepared {
        enabled := true;
        return [];
      }
      var req := pop.value;
      proposalPool := proposalPool[sequence := Some(req)];
      out := [PrePrepare(id, sequence, req, Digest(req))];
    }

    method HandlePrePrepare(m: Message, verified: bool) returns (out: seq<Message>)
      requires m.PrePrepare?
      modifies this
      ensures Result(State(), out) == Pbft.HandlePrePrepare(domain, old(State()), m, verified)
    {
      hide Accepted;
      out := [];
      if m.seqId !in PrePreMsgs {
        PrePreMsgs := PrePreMsgs[m.seqId := m];
      } else if m.sender != domain.main {
        crashed := true;
        return;
      }
      var verdict := Check(m);
      match verdict
      case Panic => crashed := true;
      case Ignore =>
      case Accept =>
        AcceptProposal(m, verified);
        if verified {
          out := [Prepare(id, m.seqId, m.digest)];
        }
    }

    method AcceptProposal(m: Message, verified: bool)
      requires m.PrePrepare?
      modifies this
      ensures State() == Accepted(old(State()), m, verified)
    {
      proposalPool := proposalPool[m.seqId := Some(m.request)];
      proposalStatus := proposalStatus[m.seqId := Unprepared];
      isReply := isReply - {m.seqId};
      if !verified {
        proposalPool := proposalPool[m.seqId := None];
      }
      assert proposalPool == old(proposalPool)[m.seqId := if verified then Some(m.request) else None];
      assert proposalStatus == old(proposalStatus)[m.seqId := Unprepared];
      assert isReply == old(isReply) - {m.seqId};
    }

    method Check(m: Message) returns (v: Verdict)
      requires m.PrePrepare?
      ensures v == Verify(domain, State(), m)
    {
      if m.sender != domain.main {
        return Panic;
      }
      if m.digest != Digest(m.request) {
        return Ignore;
      }
      if sequence < m.seqId {
        if m.seqId !in proposalPool {
          if sequence + 1 == m.seqId {
            return Ignore;
          } else {
            return Panic;
          }
        }
      } else if sequence > m.seqId {
        return Ignore;
      }
      return Accept;
    }

    method HandleCommit(m: Message, verified: bool) returns (out: seq<Message>, ghost ch: Choice)
      requires m.Commit?
      modifies this
      ensures HandleCommitChoice(domain, old(State()), m, ch)
      ensures Result(State(), out) == Pbft.HandleCommit(domain, old(State()), m, ch)
    {
      if m.seqId in proposalStatus && proposalStatus[m.seqId] == Committed {
        ch := Choice([], [], verified);
        return [], ch;
      }
      CommitMsgs := CommitMsgs[m.seqId := VotesAt(CommitMsgs, m.seqId)[m.sender := m.digest]];
      assert State() == StoreCommit(old(State()), m);
      out, ch := HandleCommitMsgs([], verified);
    }

    method HandleCommitMsgs(ghost prepares: seq<Node>, verified: bool) returns (out: seq<Message>, ghost ch: Choice)
      modifies this
      ensures CommitChoice(domain, old(State()), ch) && ch.prepares == prepares && ch.verified == verified
      ensures Result(State(), out) == Pbft.HandleCommitMsgs(domain, old(State()), ch)
    {
      hide CommitVote, Visited, Iterates;
      ghost var r0 := State();
      var votes := VotesAt(CommitMsgs, sequence);
      out := [];
      ch := Choice(prepares, [], verified);
      if |votes| < Threshold(domain.n) {
        return;
      }
      var todo := votes.Keys;
      ghost var order: seq<Node> := [];
      VisitNone(votes);
      while todo != {}
        invariant Visited(order, votes, todo) && forall v <- order :: v in votes
        invariant CommitLoop(domain, r0, votes, order, verified) == Loop(State(), [], false)
        invariant sequence == r0.sequence && out == []
      {
        var v :| v in todo;
        var key := votes[v];
        VisitOne(order, votes, todo, v);
        todo := todo - {v};
        order := order + [v];
        var stopped;
        out, stopped := CountCommit(v, key, verified);
        if stopped {
          VisitedIterates(order, votes, todo);
          ch := Choice(prepares, order, verified);
          return;
        }
      }
      VisitedIterates(order, votes, todo);
      ch := Choice(prepares, order, verified);
    }

    method CountCommit(v: Node, key: Digest, verified: bool) returns (out: seq<Message>, stopped: bool)
      modifies this
      ensures CommitVote(domain, old(State()), v, key, verified) == Loop(State(), out, stopped)
      ensures !stopped ==> sequence == old(sequence) && out == []
    {
      hide Execute;
      out, stopped := [], false;
      cntCommitConfirm := AddVoter(cntCommitConfirm, key, v);
      if |cntCommitConfirm[key]| >= Threshold(domain.n) && sequence !in isReply && key in isCommitBroadcast {
        stopped := true;
        out := ExecuteNext(verified);
      }
    }

    // The body of the quorum branch: execute, forget the round, move on.
    method ExecuteNext(verified: bool) returns (out: seq<Message>)
      modifies this
      ensures Result(State(), out) == Execute(domain, old(State()), verified)
    {
      hide Pbft.HandlePrePrepare, Advance;
      ghost var r := State();
      AdvancedSequence(r);
      out := [];
      var s := sequence;
      if s !in proposalPool || proposalPool[s] == None {
        isReply := isReply + {s};
        crashed := true;
        assert Execute(domain, r, verified) == Result(State(), []);
        return;
      }
      CloseRound(proposalPool[s].value);
      ghost var r1 := State();
      if id != domain.main {
        if sequence in PrePreMsgs && PrePreMsgs[sequence].PrePrepare? {
          out := HandlePrePrepare(PrePreMsgs[sequence], verified);
          assert Execute(domain, r, verified) == Pbft.HandlePrePrepare(domain, r1, r1.prePreMsgs[s + 1], verified);
        } else {
          assert Execute(domain, r, verified) == Result(r1, []);
        }
      } else if enabled {
        crashed := true;
        assert Execute(domain, r, verified) == Result(Crash(r1), []);
      } else {
        enabled := true;
        assert Execute(domain, r, verified) == Result(r1.(enabled := true), []);
      }
    }

    method CloseRound(req: Request)
      modifies this
      ensures State() == Advance(old(State()), req)
    {
      ForgetRound(sequence);
      executed := executed + [req];
      proposalStatus := proposalStatus[sequence := Committed];
      isReply := isReply + {sequence};
      sequence := sequence + 1;
    }

    method ForgetRound(s: Seq)
      modifies this
      ensures State() == Forget(old(State()), s)
    {
      PrePreMsgs := PrePreMsgs - {s};
      PrepareMsgs := PrepareMsgs - {s};
      CommitMsgs := CommitMsgs - {s};
    }

    method HandlePrepare(m: Message, verified: bool) returns (out: seq<Message>, ghost ch: Choice)
      requires m.Prepare?
      modifies this
      ensures HandlePrepareChoice(domain, old(State()), m, ch)
      ensures Result(State(), out) == Pbft.HandlePrepare(domain, old(State()), m, ch)
    {
      if m.seqId in proposalStatus && proposalStatus[m.seqId] in {Prepared, Committed} {
        ch := Choice([], [], verified);
        return [], ch;
      }
      PrepareMsgs := PrepareMsgs[m.seqId := VotesAt(PrepareMsgs, m.seqId)[m.sender := m.digest]];
      assert State() == StorePrepare(old(State()), m);
      out, ch := HandlePrepareMsgs(verified);
    }

    method HandlePrepareMsgs(verified: bool) returns (out: seq<Message>, ghost ch: Choice)
      modifies this
      ensures PrepareChoice(domain, old(State()), ch)
      ensures Result(State(), out) == Pbft.HandlePrepareMsgs(domain, old(State()), ch)
    {
      hide CommitLoop, Iterates;
      ghost var r0 := State();
      var votes := VotesAt(PrepareMsgs, sequence);
      out := [];
      ch := Choice([], [], verified);
      if |votes| < Threshold(domain.n) {
        return;
      }
      if sequence !in proposalPool {
        return;
      }
      var stopped;
      out, stopped, ch := CountPrepares(votes, verified);
      if out != [] {
        ghost var order := ch.prepares;
        var more;
        more, ch := HandleCommitMsgs(order, verified);
        out := out + more;
      }
    }

    method CountPrepares(votes: map<Node, Digest>, verified: bool) returns (out: seq<Message>, stopped: bool, ghost ch: Choice)
      requires sequence in proposalPool
      modifies this
      ensures (forall v <- ch.prepares :: v in votes) && ch.verified == verified && Iterates(ch.prepares, votes, stopped)
      ensures PrepareLoop(domain, old(State()), votes, ch.prepares) == Loop(State(), out, stopped)
    {
      hide PrepareVote, Visited, Iterates;
      ghost var r0 := State();
      out, stopped := [], false;
      var todo := votes.Keys;
      ghost var order: seq<Node> := [];
      VisitNone(votes);
      while todo != {}
        invariant Visited(order, votes, todo) && forall v <- order :: v in votes
        invariant PrepareLoop(domain, r0, votes, order) == Loop(State(), [], false)
        invariant sequence == r0.sequence && proposalPool == r0.proposalPool && out == [] && !stopped
      {
        var v :| v in todo;
        var key := votes[v];
        VisitOne(order, votes, todo, v);
        todo := todo - {v};
        order := order + [v];
        out, stopped := CountPrepare(v, key);
        if stopped {
          VisitedIterates(order, votes, todo);
          ch := Choice(order, [], verified);
          return;
        }
      }
      VisitedIterates(order, votes, todo);
      ch := Choice(order, [], verified);
    }

    method CountPrepare(v: Node, key: Digest) returns (out: seq<Message>, stopped: bool)
      requires sequence in proposalPool
      modifies this
      ensures PrepareVote(domain, old(State()), v, key) == Loop(State(), out, stopped)
    {
      hide Broadcasting;
      ghost var r := State();
      out, stopped := [], true;
      cntPrepareConfirm := AddVoter(cntPrepareConfirm, key, v);
      ghost var r1 := State();
      assert r1 == r.(cntPrepareConfirm := AddVoter(r.cntPrepareConfirm, key, v));
      if key in isCommitBroadcast {
        assert PrepareVote(domain, r, v, key) == Loop(r1, [], true);
      } else if proposalPool[sequence] == None {
        crashed := true;
        assert PrepareVote(domain, r, v, key) == Loop(Crash(r1), [], true);
      } else if |cntPrepareConfirm[key]| >= Threshold(domain.n) {
        out := [Commit(id, sequence, key)];
        Broadcast(key);
        assert PrepareVote(domain, r, v, key) == Loop(Broadcasting(r1, key), [Commit(r.id, r.sequence, key)], true);
      } else {
        stopped := false;
        assert PrepareVote(domain, r, v, key) == Loop(r1, [], false);
      }
    }

    method Broadcast(key: Digest)
      modifies this
      ensures State() == Broadcasting(old(State()), key)
    {
      isCommitBroadcast := isCommitBroadcast + {key};
      proposalStatus := proposalStatus[sequence := Prepared];
      PrepareMsgs := PrepareMsgs - {sequence};
    }
  }

  lemma {:induction false} AdvancedSequence(r: Replica)
    ensures forall req :: Advance(r, req).sequence == r.sequence + 1
  {}
}
