/** The states PbftSafety speaks of are reached: any quorum of honest nodes with the main executes any
    sequence of different requests, whatever the other nodes do not send, and also when some of them
    get a proposal before they have finished the round before it. */
module PbftProgress {
  import opened Pbft
  import opened PbftSafety
  import opened Quorum
  import opened Transactions

  ghost predicate Distinct<T>(q: seq<T>) { forall a, b | 0 <= a < b < |q| :: q[a] != q[b] }

  function Digests(log: seq<Request>): set<Digest> { set req | req in log :: Digest(req) }

  // The round for request req under number n, carried by the nodes of q in this order.
  datatype Round = Round(d: Domain, honest: set<Node>, q: seq<Node>, n: Seq, req: Request) {
    ghost predicate Ok() {
      && Setting(d, honest) && |q| == d.T() && d.main in q
      && (forall i <- q :: i in honest)
      && Distinct(q)
    }

    function Key(): Digest { Digest(req) }

    function PP(): Message { PrePrepare(d.main, n, req, Key()) }

    function First(k: nat): set<Node>
      requires k <= |q|
    {
      Elements(q[..k])
    }

    function Votes(k: nat): map<Node, Digest>
      requires k <= |q|
    {
      map i | i in First(k) :: Key()
    }

    // The votes for this round after k of them, without an entry before the first one.
    function Box(m: map<Seq, map<Node, Digest>>, k: nat): map<Seq, map<Node, Digest>>
      requires k <= |q|
    {
      if k == 0 then m else m[n := Votes(k)]
    }

    function Order(): Choice { Choice(q, q, true) }

    // Where a replica stands that has executed log and knows nothing of later rounds but next.
    ghost predicate At(r: Replica, log: seq<Request>) {
      && !r.crashed && r.sequence == n && r.executed == log
      && (forall k: Seq | k > n :: k !in r.proposalPool && k !in r.proposalStatus)
      && (forall k: Seq | k >= n :: k !in r.prepareMsgs && k !in r.commitMsgs && k !in r.isReply)
      && r.cntCommitConfirm.Keys <= Digests(log)
    }

    ghost predicate Unvoted(r: Replica, log: seq<Request>) {
      r.cntPrepareConfirm.Keys <= Digests(log) && r.isCommitBroadcast <= Digests(log)
    }

    // Nothing of this round has come.
    ghost predicate Idle(r: Replica, log: seq<Request>) {
      && At(r, log) && Unvoted(r, log) && n !in r.proposalPool && n !in r.proposalStatus
      && (forall k: Seq | k >= n :: k !in r.prePreMsgs)
      && (r.id == d.main ==> r.enabled)
    }

    // The main has sent the proposal.
    ghost predicate Proposed(r: Replica, log: seq<Request>) {
      && At(r, log) && Unvoted(r, log) && r.id == d.main && !r.enabled && n !in r.proposalStatus
      && n in r.proposalPool && r.proposalPool[n] == Some(req)
      && forall k: Seq | k >= n :: k !in r.prePreMsgs
    }

    ghost predicate Stored(r: Replica, log: seq<Request>) {
      && At(r, log) && Unvoted(r, log) && StatusAt(r, n) == Unprepared
      && n in r.proposalPool && r.proposalPool[n] == Some(req)
      && (forall k: Seq | k > n :: k !in r.prePreMsgs)
      && (r.id == d.main ==> !r.enabled)
    }

    // Prepared, and next is what is known of the next proposal.
    ghost predicate Voted(r: Replica, log: seq<Request>, next: Option<Message>) {
      && At(r, log) && StatusAt(r, n) == Prepared
      && n in r.proposalPool && r.proposalPool[n] == Some(req)
      && r.cntPrepareConfirm.Keys <= Digests(log + [req]) && r.isCommitBroadcast <= Digests(log + [req]) && Key() in r.isCommitBroadcast
      && (forall k: Seq | k > n + 1 :: k !in r.prePreMsgs)
      && (if next == None then n + 1 !in r.prePreMsgs else n + 1 in r.prePreMsgs && r.prePreMsgs[n + 1] == next.value)
      && (r.id == d.main ==> !r.enabled)
    }
  }

  // ---- one replica ----

  lemma {:induction false} PrefixGrows(q: seq<Node>, k: nat)
    requires Distinct(q) && k < |q|
    ensures Elements(q[..k + 1]) == Elements(q[..k]) + {q[k]} && q[k] !in Elements(q[..k])
  {
    assert q[..k + 1] == q[..k] + [q[k]];
    ElementsAppend(q[..k], q[k]);
  }

  lemma {:induction false} PrefixSize(q: seq<Node>, k: nat)
    requires Distinct(q) && k <= |q|
    ensures |Elements(q[..k])| == k
  {
    hide Elements;
    if k == 0 {
      EmptyElements(q);
    } else {
      PrefixSize(q, k - 1);
      PrefixGrows(q, k - 1);
    }
  }

  lemma {:induction false} EmptyElements<T>(q: seq<T>)
    ensures Elements(q[..0]) == {}
  {
  }

  lemma {:induction false} FirstGrows(rd: Round, k: nat)
    requires rd.Ok() && k < |rd.q|
    ensures rd.First(k + 1) == rd.First(k) + {rd.q[k]} && rd.q[k] !in rd.First(k)
    ensures k == 0 ==> rd.First(k) == {}
  {
    hide Elements, Setting, Distinct;
    PrefixGrows(rd.q, k);
    EmptyElements(rd.q);
  }

  lemma {:induction false} FirstSize(rd: Round, k: nat)
    requires rd.Ok() && k <= |rd.q|
    ensures |rd.First(k)| == |rd.Votes(k)| == k
  {
    hide Elements, Setting, Distinct;
    PrefixSize(rd.q, k);
    assert rd.Votes(k).Keys == rd.First(k);
    assert |rd.Votes(k)| == |rd.Votes(k).Keys|;
  }

  lemma {:induction false} AcceptResult(rd: Round, r: Replica, log: seq<Request>)
    requires rd.Proposed(r, log) || (rd.Idle(r, log) && r.id != rd.d.main)
    ensures var res := HandlePrePrepare(rd.d, r, rd.PP(), true);
            res.out == [Prepare(r.id, rd.n, rd.Key())] && res.r.id == r.id && rd.Stored(res.r, log)
  {
    hide Round.Unvoted;
    assert HandlePrePrepare(rd.d, r, rd.PP(), true).r == Accepted(Receive(r, rd.PP()), rd.PP(), true);
    SameVotes(rd, r, Accepted(Receive(r, rd.PP()), rd.PP(), true), log);
  }

  lemma {:induction false} SameVotes(rd: Round, r: Replica, r': Replica, log: seq<Request>)
    requires r'.cntPrepareConfirm == r.cntPrepareConfirm && r'.isCommitBroadcast == r.isCommitBroadcast
    ensures rd.Unvoted(r, log) ==> rd.Unvoted(r', log)
  {}

  // The next proposal comes before the round is over: it is kept for later.
  lemma {:induction false} EarlyResult(rd: Round, next: Round, r: Replica, log: seq<Request>)
    requires rd.Voted(r, log, None) && r.id != rd.d.main && next.d == rd.d && next.n == rd.n + 1
    ensures var res := HandlePrePrepare(rd.d, r, next.PP(), true);
            res.out == [] && res.r == r.(prePreMsgs := r.prePreMsgs[next.n := next.PP()]) && rd.Voted(res.r, log, Some(next.PP()))
  {
    assert HandlePrePrepare(rd.d, r, next.PP(), true).r == r.(prePreMsgs := r.prePreMsgs[next.n := next.PP()]);
  }

  // r with k votes of one kind received.
  function Holding(rd: Round, r: Replica, k: nat): Replica
    requires k <= |rd.q|
  {
    r.(prepareMsgs := rd.Box(r.prepareMsgs, k))
  }

  function Waiting(rd: Round, r: Replica, k: nat): Replica
    requires k <= |rd.q|
  {
    r.(commitMsgs := rd.Box(r.commitMsgs, k))
  }

  // The votes counted by the loop over the first k voters.
  function Counted(rd: Round, m: map<Digest, set<Node>>, k: nat): map<Digest, set<Node>>
    requires k <= |rd.q|
  {
    if k == 0 then m else m[rd.Key() := rd.First(k)]
  }

  lemma {:induction false} CountNext(rd: Round, m: map<Digest, set<Node>>, k: nat)
    requires rd.Ok() && k < |rd.q| && rd.Key() !in m
    ensures AddVoter(Counted(rd, m, k), rd.Key(), rd.q[k]) == Counted(rd, m, k + 1)
    ensures rd.Key() in Counted(rd, m, k + 1) && |Counted(rd, m, k + 1)[rd.Key()]| == k + 1
  {
    hide Round.Ok, Round.First, Round.Votes;
    FirstGrows(rd, k);
    FirstSize(rd, k + 1);
  }

  lemma {:induction false} NoneCounted(rd: Round, m: map<Digest, set<Node>>)
    ensures Counted(rd, m, 0) == m
  {
  }

  lemma {:induction false} VotesNext(rd: Round, k: nat)
    requires rd.Ok() && k < |rd.q|
    ensures rd.Votes(k)[rd.q[k] := rd.Key()] == rd.Votes(k + 1) && (k == 0 ==> rd.Votes(k) == map[])
  {
    hide Round.Ok, Round.First;
    FirstGrows(rd, k);
  }

  lemma {:induction false} BoxNext(rd: Round, m: map<Seq, map<Node, Digest>>, k: nat)
    requires rd.Ok() && k < |rd.q| && rd.n !in m
    ensures rd.Box(m, k)[rd.n := VotesAt(rd.Box(m, k), rd.n)[rd.q[k] := rd.Key()]] == rd.Box(m, k + 1)
    ensures VotesAt(rd.Box(m, k + 1), rd.n) == rd.Votes(k + 1) && |rd.Votes(k + 1)| == k + 1
  {
    hide Round.Ok, Round.First, Round.Votes;
    FirstSize(rd, k + 1);
    VotesNext(rd, k);
    if k == 0 {
      assert VotesAt(m, rd.n) == map[];
    } else {
      assert VotesAt(rd.Box(m, k), rd.n) == rd.Votes(k);
      assert m[rd.n := rd.Votes(k)][rd.n := rd.Votes(k + 1)] == m[rd.n := rd.Votes(k + 1)];
    }
  }

  lemma {:induction false} Prefixes(rd: Round, k: nat)
    requires rd.Ok() && 0 < k <= |rd.q|
    ensures rd.q[..k][..k - 1] == rd.q[..k - 1] && rd.q[..k][k - 1] == rd.q[k - 1]
    ensures forall v <- rd.q[..k] :: v in rd.Votes(|rd.q|)
    ensures rd.q[k - 1] in rd.Votes(|rd.q|) && rd.Votes(|rd.q|)[rd.q[k - 1]] == rd.Key()
    ensures rd.q[..|rd.q|] == rd.q
  {
  }

  // No vote twice, and every one counted.
  lemma {:induction false} OrderIterates(rd: Round, stopped: bool)
    requires rd.Ok()
    ensures Iterates(rd.q, rd.Votes(|rd.q|), stopped)
  {
    hide Setting, Domain.T;
    assert rd.q[..|rd.q|] == rd.q;
  }

  // What the loops need to know of the replica.
  ghost predicate CanPrepare(rd: Round, r: Replica) {
    && r.sequence == rd.n && rd.n in r.proposalPool && r.proposalPool[rd.n] == Some(rd.req)
    && rd.Key() !in r.isCommitBroadcast && rd.Key() !in r.cntPrepareConfirm
  }

  lemma {:induction false} PrepareCounts(rd: Round, r: Replica, k: nat)
    requires rd.Ok() && k < |rd.q| && CanPrepare(rd, r)
    ensures (forall v <- rd.q[..k] :: v in rd.Votes(|rd.q|))
    ensures PrepareLoop(rd.d, r, rd.Votes(|rd.q|), rd.q[..k]) == Loop(r.(cntPrepareConfirm := Counted(rd, r.cntPrepareConfirm, k)), [], false)
  {
    hide Setting, Distinct, Domain.T, AddVoter, Counted, Round.Votes;
    if k == 0 {
      NoneCounted(rd, r.cntPrepareConfirm);
    } else {
      PrepareCounts(rd, r, k - 1);
      CountNext(rd, r.cntPrepareConfirm, k - 1);
      Prefixes(rd, k);
    }
  }

  // The last vote completes the quorum.
  lemma {:induction false} PrepareQuorum(rd: Round, r: Replica)
    requires rd.Ok() && CanPrepare(rd, r)
    ensures (forall v <- rd.q :: v in rd.Votes(|rd.q|))
    ensures PrepareLoop(rd.d, r, rd.Votes(|rd.q|), rd.q)
            == Loop(Broadcasting(r.(cntPrepareConfirm := Counted(rd, r.cntPrepareConfirm, |rd.q|)), rd.Key()), [Commit(r.id, rd.n, rd.Key())], true)
  {
    hide Setting, Distinct, Domain.T, AddVoter, Counted, Round.Votes, Broadcasting;
    var n := |rd.q|;
    PrepareCounts(rd, r, n - 1);
    CountNext(rd, r.cntPrepareConfirm, n - 1);
    Prefixes(rd, n);
  }

  ghost predicate CanCommit(rd: Round, r: Replica) {
    && r.sequence == rd.n && rd.n !in r.isReply && rd.Key() in r.isCommitBroadcast && rd.Key() !in r.cntCommitConfirm
  }

  lemma {:induction false} CommitCounts(rd: Round, r: Replica, k: nat)
    requires rd.Ok() && k < |rd.q| && CanCommit(rd, r)
    ensures (forall v <- rd.q[..k] :: v in rd.Votes(|rd.q|))
    ensures CommitLoop(rd.d, r, rd.Votes(|rd.q|), rd.q[..k], true) == Loop(r.(cntCommitConfirm := Counted(rd, r.cntCommitConfirm, k)), [], false)
  {
    hide Setting, Distinct, Domain.T, AddVoter, Counted, Round.Votes, Execute;
    if k == 0 {
      NoneCounted(rd, r.cntCommitConfirm);
    } else {
      CommitCounts(rd, r, k - 1);
      CountNext(rd, r.cntCommitConfirm, k - 1);
      Prefixes(rd, k);
    }
  }

  lemma {:induction false} CommitQuorum(rd: Round, r: Replica)
    requires rd.Ok() && CanCommit(rd, r)
    ensures (forall v <- rd.q :: v in rd.Votes(|rd.q|))
    ensures var e := Execute(rd.d, r.(cntCommitConfirm := Counted(rd, r.cntCommitConfirm, |rd.q|)), true);
            CommitLoop(rd.d, r, rd.Votes(|rd.q|), rd.q, true) == Loop(e.r, e.out, true)
  {
    hide Setting, Distinct, Domain.T, AddVoter, Counted, Round.Votes, Execute;
    var n := |rd.q|;
    CommitCounts(rd, r, n - 1);
    CountNext(rd, r.cntCommitConfirm, n - 1);
    Prefixes(rd, n);
  }

  lemma {:induction false} FreshKey(rd: Round, log: seq<Request>)
    requires rd.req !in log
    ensures rd.Key() !in Digests(log) && Digests(log) <= Digests(log + [rd.req]) && rd.Key() in Digests(log + [rd.req])
  {
    assert (log + [rd.req])[|log|] == rd.req;
  }

  // A stored proposal meets what the prepare loop needs, with any votes received.
  lemma {:induction false} StoredCanPrepare(rd: Round, r: Replica, log: seq<Request>, k: nat)
    requires rd.Stored(r, log) && rd.req !in log && k <= |rd.q|
    ensures CanPrepare(rd, Holding(rd, r, k)) && StatusAt(Holding(rd, r, k), rd.n) == Unprepared && rd.n !in r.prepareMsgs
    ensures Holding(rd, r, 0) == r && !Holding(rd, r, k).crashed
    ensures VotesAt(Holding(rd, r, k).commitMsgs, rd.n) == map[]
  {
    FreshKey(rd, log);
    hide Digests, Round.Votes;
  }

  function VotedOf(rd: Round, r: Replica): Replica {
    Broadcasting(Holding(rd, r, |rd.q|).(cntPrepareConfirm := Counted(rd, r.cntPrepareConfirm, |rd.q|)), rd.Key())
  }

  lemma {:induction false} VotedOfIs(rd: Round, r: Replica, log: seq<Request>)
    requires rd.Stored(r, log) && rd.req !in log
    ensures rd.Voted(VotedOf(rd, r), log, None) && VotedOf(rd, r).id == r.id
  {
    FreshKey(rd, log);
    hide Digests, Round.Votes, Round.First;
  }

  lemma {:induction false} HoldingNext(rd: Round, r: Replica, k: nat)
    requires rd.Ok() && k < |rd.q| && rd.n !in r.prepareMsgs
    ensures StorePrepare(Holding(rd, r, k), Prepare(rd.q[k], rd.n, rd.Key())) == Holding(rd, r, k + 1)
    ensures VotesAt(Holding(rd, r, k + 1).prepareMsgs, rd.n) == rd.Votes(k + 1) && |rd.Votes(k + 1)| == k + 1
  {
    hide Round.Ok, Round.Box, Round.Votes;
    BoxNext(rd, r.prepareMsgs, k);
  }

  // The handler waits below the quorum, and commits with the vote that completes it.
  lemma {:induction false} PrepareResult(rd: Round, r: Replica, log: seq<Request>, k: nat)
    requires rd.Ok() && k < |rd.q| && rd.Stored(r, log) && rd.req !in log
    ensures var m := Prepare(rd.q[k], rd.n, rd.Key());
            && HandlePrepareChoice(rd.d, Holding(rd, r, k), m, rd.Order())
            && HandlePrepare(rd.d, Holding(rd, r, k), m, rd.Order())
               == if k + 1 < |rd.q| then Result(Holding(rd, r, k + 1), []) else Result(VotedOf(rd, r), [Commit(r.id, rd.n, rd.Key())])
  {
    hide Setting, Distinct, Domain.T, Round.Stored, Holding, Round.Votes, VotesAt, PrepareLoop, StorePrepare, StatusAt, Iterates, Broadcasting;
    StoredCanPrepare(rd, r, log, k);
    StoredCanPrepare(rd, r, log, k + 1);
    HoldingNext(rd, r, k);
    OrderIterates(rd, true);
    HoldingSame(rd, r, k + 1);
    PrepareQuorum(rd, Holding(rd, r, |rd.q|)) by { StoredCanPrepare(rd, r, log, |rd.q|); }
    HoldingSame(rd, r, |rd.q|);
  }

  lemma {:induction false} HoldingSame(rd: Round, r: Replica, k: nat)
    requires k <= |rd.q|
    ensures Holding(rd, r, k).cntPrepareConfirm == r.cntPrepareConfirm && Holding(rd, r, k).id == r.id
    ensures Broadcasting(Holding(rd, r, k).(cntPrepareConfirm := Counted(rd, r.cntPrepareConfirm, k)), rd.Key()).sequence == r.sequence
    ensures Broadcasting(Holding(rd, r, k).(cntPrepareConfirm := Counted(rd, r.cntPrepareConfirm, k)), rd.Key()).commitMsgs == r.commitMsgs
    ensures Holding(rd, r, k).commitMsgs == r.commitMsgs && Holding(rd, r, k).sequence == r.sequence
  {}

  lemma {:induction false} VotedCanCommit(rd: Round, r: Replica, log: seq<Request>, next: Option<Message>, k: nat)
    requires rd.Voted(r, log, next) && rd.req !in log && k <= |rd.q|
    ensures CanCommit(rd, Waiting(rd, r, k)) && StatusAt(Waiting(rd, r, k), rd.n) == Prepared && rd.n !in r.commitMsgs
    ensures Waiting(rd, r, 0) == r && !Waiting(rd, r, k).crashed
    ensures Waiting(rd, r, k).cntCommitConfirm == r.cntCommitConfirm && Waiting(rd, r, k).id == r.id && Waiting(rd, r, k).sequence == rd.n
  {
    FreshKey(rd, log);
    hide Digests, Round.Votes;
  }

  lemma {:induction false} WaitingNext(rd: Round, r: Replica, k: nat)
    requires rd.Ok() && k < |rd.q| && rd.n !in r.commitMsgs
    ensures StoreCommit(Waiting(rd, r, k), Commit(rd.q[k], rd.n, rd.Key())) == Waiting(rd, r, k + 1)
    ensures VotesAt(Waiting(rd, r, k + 1).commitMsgs, rd.n) == rd.Votes(k + 1) && |rd.Votes(k + 1)| == k + 1
  {
    hide Round.Ok, Round.Box, Round.Votes;
    BoxNext(rd, r.commitMsgs, k);
  }

  // What the last vote makes of a prepared replica.
  function Finished(rd: Round, r: Replica): Result {
    Execute(rd.d, Waiting(rd, r, |rd.q|).(cntCommitConfirm := Counted(rd, r.cntCommitConfirm, |rd.q|)), true)
  }

  // The handler waits below the quorum, and executes with the vote that completes it.
  lemma {:induction false} CommitResult(rd: Round, r: Replica, log: seq<Request>, next: Option<Message>, k: nat)
    requires rd.Ok() && k < |rd.q| && rd.Voted(r, log, next) && rd.req !in log
    ensures var m := Commit(rd.q[k], rd.n, rd.Key());
            && HandleCommitChoice(rd.d, Waiting(rd, r, k), m, rd.Order())
            && HandleCommit(rd.d, Waiting(rd, r, k), m, rd.Order())
               == if k + 1 < |rd.q| then Result(Waiting(rd, r, k + 1), []) else Finished(rd, r)
  {
    hide Setting, Distinct, Domain.T, Round.Voted, Waiting, Round.Votes, VotesAt, CommitLoop, StoreCommit, StatusAt, Iterates, Execute;
    VotedCanCommit(rd, r, log, next, k);
    VotedCanCommit(rd, r, log, next, k + 1);
    WaitingNext(rd, r, k);
    OrderIterates(rd, true);
    CommitQuorum(rd, Waiting(rd, r, |rd.q|)) by { VotedCanCommit(rd, r, log, next, |rd.q|); }
    VotedCanCommit(rd, r, log, next, |rd.q|);
  }

  function Ended(rd: Round, r: Replica): Replica {
    Advance(Waiting(rd, r, |rd.q|).(cntCommitConfirm := Counted(rd, r.cntCommitConfirm, |rd.q|)), rd.req)
  }

  lemma {:induction false} FinishedAlone(rd: Round, r: Replica, log: seq<Request>)
    requires rd.Voted(r, log, None)
    ensures Finished(rd, r) == Result(if r.id == rd.d.main then Ended(rd, r).(enabled := true) else Ended(rd, r), [])
  {
    hide Digests, Round.Votes, Round.First, Round.Box, Counted, Round.Key;
  }

  lemma {:induction false} EndedAt(rd: Round, next: Round, r: Replica, log: seq<Request>)
    requires rd.Voted(r, log, None) && rd.req !in log && next.n == rd.n + 1
    ensures next.At(Ended(rd, r), log + [rd.req]) && next.Unvoted(Ended(rd, r), log + [rd.req]) && Ended(rd, r).id == r.id
    ensures next.n !in Ended(rd, r).proposalPool && next.n !in Ended(rd, r).proposalStatus
    ensures forall k: Seq | k >= next.n :: k !in Ended(rd, r).prePreMsgs
    ensures StatusAt(Ended(rd, r), rd.n) == Committed && rd.n in Ended(rd, r).isReply
  {
    FreshKey(rd, log);
    hide Digests, Round.Votes, Round.First;
  }

  // After the round, a replica that knows nothing of the next one is idle; the main's lock is free.
  lemma {:induction false} EndedIdle(rd: Round, next: Round, r: Replica, log: seq<Request>)
    requires rd.Voted(r, log, None) && rd.req !in log && next.d == rd.d && next.n == rd.n + 1
    ensures var res := Finished(rd, r);
            res.out == [] && res.r.id == r.id && next.Idle(res.r, log + [rd.req])
  {
    FinishedAlone(rd, r, log);
    EndedAt(rd, next, r, log);
    hide Ended, Finished, Round.Voted, Digests;
  }

  lemma {:induction false} FinishedTakesUp(rd: Round, next: Round, r: Replica, log: seq<Request>)
    requires rd.Voted(r, log, Some(next.PP())) && next.d == rd.d && next.n == rd.n + 1 && r.id != rd.d.main
    ensures Finished(rd, r) == Result(Accepted(Ended(rd, r), next.PP(), true), [Prepare(r.id, next.n, next.Key())])
  {
    hide Digests, Round.Votes, Round.First, Round.Box, Counted, Accepted;
    assert Finished(rd, r) == HandlePrePrepare(rd.d, Ended(rd, r), next.PP(), true);
  }

  // One that got the next proposal early takes it up at once, and says so.
  lemma {:induction false} EndedStored(rd: Round, next: Round, r: Replica, log: seq<Request>)
    requires rd.Voted(r, log, Some(next.PP())) && rd.req !in log && next.d == rd.d && next.n == rd.n + 1 && r.id != rd.d.main
    ensures var res := Finished(rd, r);
            res.out == [Prepare(r.id, next.n, next.Key())] && res.r.id == r.id && next.Stored(res.r, log + [rd.req])
  {
    FreshKey(rd, log);
    FinishedTakesUp(rd, next, r, log);
    hide Digests, Round.Votes, Round.First, Finished, Round.PP;
  }

  // ---- the domain ----

  // Node i is still in round n and already has the next proposal.
  ghost predicate EarlyAt(s: System, n: Seq, i: Node) {
    i in s.reps && s.reps[i].sequence == n && n + 1 in s.reps[i].prePreMsgs
  }

  ghost predicate Seen(run: seq<System>, n: Seq, i: Node) { exists k | 0 <= k < |run| :: EarlyAt(run[k], n, i) }

  // A run ends in s in which each of these nodes got a proposal early in that round.
  ghost predicate EndsIn(run: seq<System>, s: System, early: set<(Seq, Node)>) {
    && IsRun(run) && run[|run| - 1] == s && run[0].d == s.d && run[0].honest == s.honest
    && forall p <- early :: Seen(run, p.0, p.1)
  }

  ghost predicate Reached(s: System, early: set<(Seq, Node)>) { exists run :: EndsIn(run, s, early) }

  lemma {:induction false} ReachNext(s: System, s': System, early: set<(Seq, Node)>)
    requires Reached(s, early) && Next(s, s') && s'.d == s.d && s'.honest == s.honest
    ensures Reached(s', early)
  {
    hide Next, Init, EarlyAt;
    var run :| EndsIn(run, s, early);
    var run' := run + [s'];
    forall k: nat | k + 1 < |run'| ensures Next(run'[k], run'[k + 1]) {
      if k + 1 < |run| {
        assert Next(run[k], run[k + 1]);
      }
    }
    forall p | p in early ensures Seen(run', p.0, p.1) {
      var k :| 0 <= k < |run| && EarlyAt(run[k], p.0, p.1);
      assert run'[k] == run[k];
    }
    assert EndsIn(run', s', early);
  }

  lemma {:induction false} ReachEarly(s: System, early: set<(Seq, Node)>, n: Seq, i: Node)
    requires Reached(s, early) && EarlyAt(s, n, i)
    ensures Reached(s, early + {(n, i)})
  {
    hide IsRun, EarlyAt;
    var run :| EndsIn(run, s, early);
    assert |run| > 0 by { NonemptyRun(run); }
    assert EarlyAt(run[|run| - 1], n, i);
    assert EndsIn(run, s, early + {(n, i)});
  }

  lemma {:induction false} NonemptyRun(run: seq<System>)
    requires IsRun(run)
    ensures |run| > 0
  {}

  // A reached state in which only honest nodes have spoken.
  ghost predicate World(s: System, rd: Round, early: set<(Seq, Node)>) {
    && Reached(s, early) && s.d == rd.d && s.honest == rd.honest && s.reps.Keys == s.honest
    && (forall i <- s.reps :: s.reps[i].id == i)
    && forall m <- s.net :: m.sender in s.honest
  }

  ghost function After(s: System, i: Node, res: Result): System {
    s.(reps := s.reps[i := res.r], net := s.net + Elements(res.out))
  }

  lemma {:induction false} DeliverOne(s: System, rd: Round, early: set<(Seq, Node)>, i: Node, m: Message, ch: Choice, res: Result)
    requires World(s, rd, early) && i in s.reps && !s.reps[i].crashed && m in s.net
    requires Handles(s.d, s.reps[i], m, ch) && HandleMsg(s.d, s.reps[i], m, ch) == res
    requires res.r.id == i && forall o <- res.out :: o.sender in s.honest
    ensures World(After(s, i, res), rd, early)
  {
    hide Reached, HandleMsg, Handles;
    var s' := After(s, i, res);
    assert Deliver(s, s', i, m, ch);
    ReachNext(s, s', early);
  }

  lemma {:induction false} SameReps(s: System, i: Node)
    requires i in s.reps
    ensures s.(reps := s.reps[i := s.reps[i]]) == s && s.net + {} == s.net
  {
    assert s.reps[i := s.reps[i]] == s.reps;
  }

  lemma {:induction false} OneElement(m: Message)
    ensures Elements([m]) == {m}
  {
    assert [m][0] == m;
  }

  lemma {:induction false} NoElement()
    ensures Elements<Message>([]) == {}
  {
  }

  // Node i receives the first k prepares.
  lemma {:induction false} PrepareSome(s: System, rd: Round, early: set<(Seq, Node)>, log: seq<Request>, i: Node, k: nat)
    requires World(s, rd, early) && rd.Ok() && i in s.reps && rd.Stored(s.reps[i], log) && rd.req !in log && k < |rd.q|
    requires forall j <- rd.q :: Prepare(j, rd.n, rd.Key()) in s.net
    ensures World(s.(reps := s.reps[i := Holding(rd, s.reps[i], k)]), rd, early)
    decreases k
  {
    hide Round.Ok, Round.Stored, World, Holding, HandlePrepare, HandlePrepareChoice, Elements;
    var r := s.reps[i];
    assert r.id == i && s.d == rd.d by { WorldFacts(s, rd, early, i); }
    StoredCanPrepare(rd, r, log, 0);
    SameReps(s, i);
    if k > 0 {
      PrepareSome(s, rd, early, log, i, k - 1);
      StoredCanPrepare(rd, r, log, k - 1);
      PrepareResult(rd, r, log, k - 1);
      HoldingSame(rd, r, k);
      NoElement();
      var t, res := s.(reps := s.reps[i := Holding(rd, r, k - 1)]), Result(Holding(rd, r, k), []);
      DeliverOne(t, rd, early, i, Prepare(rd.q[k - 1], rd.n, rd.Key()), rd.Order(), res);
      assert After(t, i, res) == s.(reps := s.reps[i := Holding(rd, r, k)]);
    }
  }

  lemma {:induction false} WorldFacts(s: System, rd: Round, early: set<(Seq, Node)>, i: Node)
    requires World(s, rd, early) && i in s.reps
    ensures s.reps[i].id == i && s.d == rd.d && s.honest == rd.honest && s.reps.Keys == s.honest
  {}

  lemma {:induction false} PrepareNode(s: System, rd: Round, early: set<(Seq, Node)>, log: seq<Request>, i: Node)
    requires World(s, rd, early) && rd.Ok() && i in s.reps && rd.Stored(s.reps[i], log) && rd.req !in log
    requires forall j <- rd.q :: Prepare(j, rd.n, rd.Key()) in s.net
    ensures World(After(s, i, Result(VotedOf(rd, s.reps[i]), [Commit(i, rd.n, rd.Key())])), rd, early)
  {
    hide Round.Stored, World, Holding, HandlePrepare, HandlePrepareChoice, Elements, VotedOf, Setting, Distinct;
    var r, k := s.reps[i], |rd.q| - 1;
    WorldFacts(s, rd, early, i);
    PrepareSome(s, rd, early, log, i, k);
    StoredCanPrepare(rd, r, log, k);
    PrepareResult(rd, r, log, k);
    VotedOfIs(rd, r, log);
    var t, res := s.(reps := s.reps[i := Holding(rd, r, k)]), Result(VotedOf(rd, r), [Commit(i, rd.n, rd.Key())]);
    DeliverOne(t, rd, early, i, Prepare(rd.q[k], rd.n, rd.Key()), rd.Order(), res);
    assert After(t, i, res) == After(s, i, res);
  }

  lemma {:induction false} CommitSome(s: System, rd: Round, early: set<(Seq, Node)>, log: seq<Request>, next: Option<Message>, i: Node, k: nat)
    requires World(s, rd, early) && rd.Ok() && i in s.reps && rd.Voted(s.reps[i], log, next) && rd.req !in log && k < |rd.q|
    requires forall j <- rd.q :: Commit(j, rd.n, rd.Key()) in s.net
    ensures World(s.(reps := s.reps[i := Waiting(rd, s.reps[i], k)]), rd, early)
    decreases k
  {
    hide Round.Ok, Round.Voted, World, Waiting, HandleCommit, HandleCommitChoice, Elements;
    var r := s.reps[i];
    WorldFacts(s, rd, early, i);
    VotedCanCommit(rd, r, log, next, 0);
    SameReps(s, i);
    if k > 0 {
      CommitSome(s, rd, early, log, next, i, k - 1);
      VotedCanCommit(rd, r, log, next, k - 1);
      VotedCanCommit(rd, r, log, next, k);
      CommitResult(rd, r, log, next, k - 1);
      NoElement();
      var t, res := s.(reps := s.reps[i := Waiting(rd, r, k - 1)]), Result(Waiting(rd, r, k), []);
      DeliverOne(t, rd, early, i, Commit(rd.q[k - 1], rd.n, rd.Key()), rd.Order(), res);
      assert After(t, i, res) == s.(reps := s.reps[i := Waiting(rd, r, k)]);
    }
  }

  lemma {:induction false} CommitNode(s: System, rd: Round, early: set<(Seq, Node)>, log: seq<Request>, next: Option<Message>, i: Node)
    requires World(s, rd, early) && rd.Ok() && i in s.reps && rd.Voted(s.reps[i], log, next) && rd.req !in log
    requires forall j <- rd.q :: Commit(j, rd.n, rd.Key()) in s.net
    requires Finished(rd, s.reps[i]).r.id == i && forall o <- Finished(rd, s.reps[i]).out :: o.sender in s.honest
    ensures World(After(s, i, Finished(rd, s.reps[i])), rd, early)
  {
    hide Round.Voted, World, Waiting, HandleCommit, HandleCommitChoice, Elements, Finished, Setting, Distinct;
    var r, k := s.reps[i], |rd.q| - 1;
    WorldFacts(s, rd, early, i);
    CommitSome(s, rd, early, log, next, i, k);
    VotedCanCommit(rd, r, log, next, k);
    CommitResult(rd, r, log, next, k);
    var t, res := s.(reps := s.reps[i := Waiting(rd, r, k)]), Finished(rd, r);
    DeliverOne(t, rd, early, i, Commit(rd.q[k], rd.n, rd.Key()), rd.Order(), res);
    assert After(t, i, res) == After(s, i, res);
  }

  // From s to s' only the nodes of who have changed, and messages have been added.
  ghost predicate Frame(s: System, s': System, who: set<Node>) {
    && s'.d == s.d && s'.honest == s.honest && s'.proposals == s.proposals && s'.reps.Keys == s.reps.Keys && s.net <= s'.net
    && forall i <- s.reps | i !in who :: s'.reps[i] == s.reps[i]
  }

  lemma {:induction false} FrameNone(s: System)
    ensures Frame(s, s, {})
  {}

  lemma {:induction false} FrameOne(s: System, t: System, who: set<Node>, i: Node, res: Result)
    requires Frame(s, t, who) && i in t.reps
    ensures Frame(s, After(t, i, res), who + {i})
    ensures After(t, i, res).reps[i] == res.r && t.net <= After(t, i, res).net && forall m <- res.out :: m in After(t, i, res).net
    ensures forall j <- t.reps | j != i :: After(t, i, res).reps[j] == t.reps[j]
  {}

  // The node still has to accept the proposal, or has done so.
  ghost predicate Ready(rd: Round, r: Replica, log: seq<Request>, net: set<Message>) {
    || rd.Proposed(r, log)
    || (rd.Idle(r, log) && r.id != rd.d.main)
    || (rd.Stored(r, log) && Prepare(r.id, rd.n, rd.Key()) in net)
  }

  lemma {:induction false} AcceptNode(s: System, rd: Round, early: set<(Seq, Node)>, log: seq<Request>, i: Node) returns (s': System)
    requires World(s, rd, early) && i in s.reps && Ready(rd, s.reps[i], log, s.net) && rd.PP() in s.net
    ensures World(s', rd, early) && Frame(s, s', {i})
    ensures i in s'.reps && rd.Stored(s'.reps[i], log) && Prepare(i, rd.n, rd.Key()) in s'.net
  {
    hide World, Round.Stored, HandlePrePrepare, Round.Idle, Round.Proposed;
    WorldFacts(s, rd, early, i);
    FrameNone(s);
    if rd.Stored(s.reps[i], log) && Prepare(i, rd.n, rd.Key()) in s.net {
      s' := s;
    } else {
      var res := HandlePrePrepare(rd.d, s.reps[i], rd.PP(), true);
      AcceptResult(rd, s.reps[i], log);
      NotCrashed(rd, s.reps[i], log);
      DeliverOne(s, rd, early, i, rd.PP(), rd.Order(), res);
      FrameOne(s, s, {}, i, res);
      s' := After(s, i, res);
    }
  }

  lemma {:induction false} NotCrashed(rd: Round, r: Replica, log: seq<Request>)
    ensures rd.Proposed(r, log) || rd.Idle(r, log) ==> !r.crashed
    ensures forall next :: rd.Voted(r, log, next) ==> !r.crashed && r.sequence == rd.n
  {}

  lemma {:induction false} FrameJoin(s: System, t: System, s': System, a: set<Node>, b: set<Node>)
    requires Frame(s, t, a) && Frame(t, s', b)
    ensures Frame(s, s', a + b)
  {}

  // The first k nodes accept.
  lemma {:induction false} AcceptAll(s: System, rd: Round, early: set<(Seq, Node)>, log: seq<Request>, k: nat) returns (s': System)
    requires World(s, rd, early) && rd.Ok() && k <= |rd.q| && rd.PP() in s.net
    requires forall i <- rd.q :: i in s.reps && Ready(rd, s.reps[i], log, s.net)
    ensures World(s', rd, early) && Frame(s, s', rd.First(k))
    ensures forall i <- rd.First(k) :: i in s'.reps && rd.Stored(s'.reps[i], log) && Prepare(i, rd.n, rd.Key()) in s'.net
  {
    hide World, Round.Stored, Ready, Round.First, Setting, Distinct;
    if k == 0 {
      s' := s;
      assert rd.First(0) == {} by { EmptyElements(rd.q); NoneFirst(rd); }
    } else {
      var t := AcceptAll(s, rd, early, log, k - 1);
      var i := rd.q[k - 1];
      FirstGrows(rd, k - 1);
      assert t.reps[i] == s.reps[i];
      ReadyGrows(rd, s.reps[i], log, s.net, t.net);
      s' := AcceptNode(t, rd, early, log, i);
      FrameJoin(s, t, s', rd.First(k - 1), {i});
    }
  }

  lemma {:induction false} NoneFirst(rd: Round)
    ensures rd.First(0) == {}
  {
    EmptyElements(rd.q);
  }

  lemma {:induction false} AllFirst(rd: Round)
    ensures forall i :: i in rd.First(|rd.q|) <==> i in rd.q
  {
    assert rd.q[..|rd.q|] == rd.q;
  }

  lemma {:induction false} ReadyGrows(rd: Round, r: Replica, log: seq<Request>, net: set<Message>, net': set<Message>)
    requires Ready(rd, r, log, net) && net <= net'
    ensures Ready(rd, r, log, net')
  {
    hide Round.Stored, Round.Idle, Round.Proposed;
  }

  // They prepare.
  lemma {:induction false} PrepareAll(s: System, rd: Round, early: set<(Seq, Node)>, log: seq<Request>, k: nat) returns (s': System)
    requires World(s, rd, early) && rd.Ok() && k <= |rd.q| && rd.req !in log
    requires forall i <- rd.q :: i in s.reps && rd.Stored(s.reps[i], log) && Prepare(i, rd.n, rd.Key()) in s.net
    ensures World(s', rd, early) && Frame(s, s', rd.First(k))
    ensures forall i <- rd.First(k) :: i in s'.reps && rd.Voted(s'.reps[i], log, None) && Commit(i, rd.n, rd.Key()) in s'.net
  {
    hide World, Round.Stored, Round.Voted, Round.First, Setting, Distinct, VotedOf;
    if k == 0 {
      s' := s;
      NoneFirst(rd);
    } else {
      var t := PrepareAll(s, rd, early, log, k - 1);
      var i := rd.q[k - 1];
      FirstGrows(rd, k - 1);
      assert t.reps[i] == s.reps[i];
      PrepareNode(t, rd, early, log, i);
      VotedOfIs(rd, t.reps[i], log);
      var res := Result(VotedOf(rd, t.reps[i]), [Commit(i, rd.n, rd.Key())]);
      FrameOne(s, t, rd.First(k - 1), i, res);
      s' := After(t, i, res);
      assert Commit(i, rd.n, rd.Key()) in res.out;
    }
  }

  // Those of the first k that are in who get the next proposal early.
  ghost predicate Told(rd: Round, next: Round, r: Replica, log: seq<Request>, who: set<Node>) {
    rd.Voted(r, log, if r.id in who then Some(next.PP()) else None)
  }

  function EarlyOnes(n: Seq, who: set<Node>): set<(Seq, Node)> { set i | i in who :: (n, i) }

  lemma {:induction false} TellNode(s: System, rd: Round, next: Round, early: set<(Seq, Node)>, log: seq<Request>, i: Node) returns (s': System)
    requires World(s, rd, early) && i in s.reps && rd.Voted(s.reps[i], log, None) && i != rd.d.main
    requires next.PP() in s.net && next.d == rd.d && next.n == rd.n + 1
    ensures World(s', rd, early + {(rd.n, i)}) && Frame(s, s', {i})
    ensures i in s'.reps && s'.reps[i].id == i && rd.Voted(s'.reps[i], log, Some(next.PP()))
  {
    hide Reached, Round.Voted, HandlePrePrepare;
    var r := s.reps[i];
    var res := HandlePrePrepare(rd.d, r, next.PP(), true);
    EarlyResult(rd, next, r, log);
    NotCrashed(rd, r, log);
    DeliverOne(s, rd, early, i, next.PP(), rd.Order(), res);
    FrameNone(s);
    FrameOne(s, s, {}, i, res);
    s' := After(s, i, res);
    assert EarlyAt(s', rd.n, i);
    ReachEarly(s', early, rd.n, i);
  }

  lemma {:induction false} TellAll(s: System, rd: Round, next: Round, early: set<(Seq, Node)>, log: seq<Request>, who: set<Node>, k: nat)
    returns (s': System)
    requires World(s, rd, early) && rd.Ok() && k <= |rd.q| && rd.d.main !in who
    requires next.PP() in s.net && next.d == rd.d && next.n == rd.n + 1
    requires forall i <- rd.q | i != rd.d.main :: i in s.reps && rd.Voted(s.reps[i], log, None)
    ensures World(s', rd, early + EarlyOnes(rd.n, who * rd.First(k))) && Frame(s, s', who * rd.First(k))
    ensures forall i <- who * rd.First(k) :: i in s'.reps && rd.Voted(s'.reps[i], log, Some(next.PP()))
  {
    hide World, Round.Voted, Round.First, Setting, Distinct;
    if k == 0 {
      s' := s;
      NoneFirst(rd);
      assert early + EarlyOnes(rd.n, who * rd.First(0)) == early;
    } else {
      var t := TellAll(s, rd, next, early, log, who, k - 1);
      var i := rd.q[k - 1];
      FirstGrows(rd, k - 1);
      var before := who * rd.First(k - 1);
      if i in who {
        assert who * rd.First(k) == before + {i};
        assert t.reps[i] == s.reps[i];
        s' := TellNode(t, rd, next, early + EarlyOnes(rd.n, before), log, i);
        FrameJoin(s, t, s', before, {i});
        assert early + EarlyOnes(rd.n, before) + {(rd.n, i)} == early + EarlyOnes(rd.n, who * rd.First(k));
      } else {
        assert who * rd.First(k) == before;
        s' := t;
      }
    }
  }

  lemma {:induction false} CommitOther(s: System, rd: Round, next: Round, early: set<(Seq, Node)>, log: seq<Request>, who: set<Node>, i: Node)
    returns (s': System)
    requires World(s, rd, early) && rd.Ok() && rd.req !in log && next.d == rd.d && next.n == rd.n + 1
    requires i in s.reps && i != rd.d.main && rd.Voted(s.reps[i], log, if i in who then Some(next.PP()) else None)
    requires forall j <- rd.q :: Commit(j, rd.n, rd.Key()) in s.net
    ensures World(s', rd, early) && Frame(s, s', {i})
    ensures i in s'.reps && Ready(next, s'.reps[i], log + [rd.req], s'.net)
  {
    hide World, Round.Voted, Round.Idle, Round.Stored, Round.Proposed, Finished, Setting, Distinct;
    WorldFacts(s, rd, early, i);
    var r := s.reps[i];
    var res := Finished(rd, r);
    if i in who {
      EndedStored(rd, next, r, log);
    } else {
      EndedIdle(rd, next, r, log);
    }
    CommitNode(s, rd, early, log, if i in who then Some(next.PP()) else None, i);
    FrameNone(s);
    FrameOne(s, s, {}, i, res);
    s' := After(s, i, res);
    assert i in who ==> Prepare(i, next.n, next.Key()) in res.out;
  }

  lemma {:induction false} CommitOthers(s: System, rd: Round, next: Round, early: set<(Seq, Node)>, log: seq<Request>, who: set<Node>, k: nat)
    returns (s': System)
    requires World(s, rd, early) && rd.Ok() && k <= |rd.q| && rd.req !in log && next.d == rd.d && next.n == rd.n + 1
    requires forall i <- rd.q | i != rd.d.main :: i in s.reps && rd.Voted(s.reps[i], log, if i in who then Some(next.PP()) else None)
    requires forall j <- rd.q :: Commit(j, rd.n, rd.Key()) in s.net
    ensures World(s', rd, early) && Frame(s, s', rd.First(k) - {rd.d.main})
    ensures forall i <- rd.First(k) - {rd.d.main} :: i in s'.reps && Ready(next, s'.reps[i], log + [rd.req], s'.net)
  {
    hide World, Round.Voted, Ready, Round.First, Setting, Distinct;
    var main := rd.d.main;
    if k == 0 {
      s' := s;
      NoneFirst(rd);
    } else {
      var t := CommitOthers(s, rd, next, early, log, who, k - 1);
      var i, before := rd.q[k - 1], rd.First(k - 1) - {main};
      FirstGrows(rd, k - 1);
      if i == main {
        assert rd.First(k) - {main} == before;
        s' := t;
      } else {
        assert rd.First(k) - {main} == before + {i};
        assert t.reps[i] == s.reps[i];
        s' := CommitOther(t, rd, next, early, log, who, i);
        FrameJoin(s, t, s', before, {i});
        forall j | j in before ensures Ready(next, s'.reps[j], log + [rd.req], s'.net) {
          ReadyGrows(next, t.reps[j], log + [rd.req], t.net, s'.net);
        }
      }
    }
  }

  // The round has begun: the proposal is out.
  ghost predicate Start(s: System, rd: Round, log: seq<Request>) {
    && s.proposals == log + [rd.req] && rd.PP() in s.net
    && forall i <- rd.q :: i in s.reps && Ready(rd, s.reps[i], log, s.net)
  }

  // The main has executed the request and is free; the others of q are about to.
  ghost predicate Halfway(s: System, rd: Round, next: Round, log: seq<Request>) {
    && s.proposals == log + [rd.req]
    && rd.d.main in s.reps && next.Idle(s.reps[rd.d.main], log + [rd.req])
    && (forall i <- rd.q | i != rd.d.main :: i in s.reps && rd.Voted(s.reps[i], log, None))
    && forall i <- rd.q :: Commit(i, rd.n, rd.Key()) in s.net
  }

  lemma {:induction false} FirstHalf(s: System, rd: Round, next: Round, early: set<(Seq, Node)>, log: seq<Request>) returns (s': System)
    requires World(s, rd, early) && rd.Ok() && rd.req !in log && Start(s, rd, log) && next.d == rd.d && next.n == rd.n + 1
    ensures World(s', rd, early) && Halfway(s', rd, next, log)
  {
    hide World, Ready, Round.Stored, Round.Voted, Round.Idle, Round.First, Setting, Distinct, Finished;
    var main := rd.d.main;
    AllFirst(rd);
    var s1 := AcceptAll(s, rd, early, log, |rd.q|);
    var s2 := PrepareAll(s1, rd, early, log, |rd.q|);
    WorldFacts(s2, rd, early, main);
    var res := Finished(rd, s2.reps[main]);
    EndedIdle(rd, next, s2.reps[main], log);
    CommitNode(s2, rd, early, log, None, main);
    FrameNone(s2);
    FrameOne(s2, s2, {}, main, res);
    s' := After(s2, main, res);
  }

  lemma {:induction false} OtherRound(s: System, rd: Round, next: Round, early: set<(Seq, Node)>)
    requires World(s, rd, early) && next.d == rd.d && next.honest == rd.honest
    ensures World(s, next, early)
  {}

  lemma {:induction false} ProposeResult(rd: Round, r: Replica, log: seq<Request>)
    requires rd.Idle(r, log) && r.id == rd.d.main
    ensures r.enabled && !r.crashed
    ensures var res := Propose(r, rd.req);
            res.out == [rd.PP()] && res.r.id == r.id && rd.Proposed(res.r, log)
  {
    SameVotes(rd, r, Propose(r, rd.req).r, log);
    hide Digests;
  }

  // The main proposes.
  lemma {:induction false} ProposeNode(s: System, rd: Round, early: set<(Seq, Node)>, log: seq<Request>) returns (s': System)
    requires World(s, rd, early) && rd.d.main in s.reps && rd.Idle(s.reps[rd.d.main], log) && s.proposals == log
    ensures World(s', rd, early) && Frame(s, s'.(proposals := s.proposals), {rd.d.main}) && s'.proposals == log + [rd.req]
    ensures rd.d.main in s'.reps && rd.Proposed(s'.reps[rd.d.main], log) && rd.PP() in s'.net
  {
    hide Reached, Round.Idle, Round.Proposed, Propose, Round.PP;
    var main := rd.d.main;
    ProposeResult(rd, s.reps[main], log);
    var res := Propose(s.reps[main], rd.req);
    OneElement(rd.PP());
    assert rd.PP().sender == main by { Sender(rd); }
    s' := After(s, main, res).(proposals := s.proposals + [rd.req]);
    ProposalIsStep(s, s', rd.req);
    ReachNext(s, s', early);
  }

  lemma {:induction false} Sender(rd: Round)
    ensures rd.PP().sender == rd.d.main
  {}

  lemma {:induction false} ProposalIsStep(s: System, s': System, req: Request)
    requires MainProposes(s, s', req)
    ensures Next(s, s')
  {
  }

  // One round, from proposal to proposal; the nodes of who get the second one early.
  lemma {:induction false} RunRound(s: System, rd: Round, next: Round, early: set<(Seq, Node)>, log: seq<Request>, who: set<Node>)
    returns (s': System)
    requires World(s, rd, early) && rd.Ok() && rd.req !in log && Start(s, rd, log)
    requires next == Round(rd.d, rd.honest, rd.q, rd.n + 1, next.req) && who <= Elements(rd.q) - {rd.d.main}
    ensures World(s', next, early + EarlyOnes(rd.n, who)) && Start(s', next, log + [rd.req])
  {
    hide World, Ready, Round.Voted, Round.Idle, Round.Proposed, Round.First, Setting, Distinct, Elements, Start, Round.PP;
    var main := rd.d.main;
    AllFirst(rd);
    InElements(rd.q);
    var t := FirstHalf(s, rd, next, early, log);
    OtherRound(t, rd, next, early);
    var t1 := ProposeNode(t, next, early, log + [rd.req]);
    OtherRound(t1, next, rd, early);
    assert who * rd.First(|rd.q|) == who;
    var t2 := TellAll(t1, rd, next, early, log, who, |rd.q|);
    var early' := early + EarlyOnes(rd.n, who);
    forall i | i in rd.q && i != main ensures i in t2.reps && rd.Voted(t2.reps[i], log, if i in who then Some(next.PP()) else None) {
    }
    s' := CommitOthers(t2, rd, next, early', log, who, |rd.q|);
    OtherRound(s', rd, next, early');
    forall i | i in rd.q ensures i in s'.reps && Ready(next, s'.reps[i], log + [rd.req], s'.net) {
      if i == main {
        ProposedIsReady(next, s'.reps[i], log + [rd.req], s'.net);
      }
    }
    Started(s', next, log + [rd.req]);
  }

  lemma {:induction false} InElements(q: seq<Node>)
    ensures forall i :: i in Elements(q) <==> i in q
  {}

  lemma {:induction false} ProposedIsReady(rd: Round, r: Replica, log: seq<Request>, net: set<Message>)
    ensures rd.Proposed(r, log) ==> Ready(rd, r, log, net)
  {
    hide Round.Proposed;
  }

  lemma {:induction false} Started(s: System, rd: Round, log: seq<Request>)
    requires s.proposals == log + [rd.req] && rd.PP() in s.net && forall i <- rd.q :: i in s.reps && Ready(rd, s.reps[i], log, s.net)
    ensures Start(s, rd, log)
  {
    hide Ready;
  }

  // ---- all rounds ----

  ghost predicate Plan(d: Domain, honest: set<Node>, q: seq<Node>, reqs: seq<Request>, who: seq<set<Node>>) {
    && (forall n: nat | n < |reqs| :: Round(d, honest, q, n, reqs[n]).Ok())
    && Distinct(reqs) && |who| == |reqs| && forall n | 0 <= n < |who| :: who[n] <= Elements(q) - {d.main}
  }

  // The early arrivals of the first n rounds.
  function EarlyBefore(who: seq<set<Node>>, n: nat): set<(Seq, Node)>
    requires n <= |who|
  {
    if n == 0 then {} else EarlyBefore(who, n - 1) + EarlyOnes(n - 1, who[n - 1])
  }

  lemma {:induction false} EarlyHas(who: seq<set<Node>>, n: nat, k: nat, i: Node)
    requires k < n <= |who| && i in who[k]
    ensures (k, i) in EarlyBefore(who, n)
  {
    if k < n - 1 {
      EarlyHas(who, n - 1, k, i);
    } else {
      assert (k, i) in EarlyOnes(k, who[k]);
    }
  }

  lemma {:induction false} InitWorld(rd: Round) returns (s: System)
    requires rd.Ok() && rd.n == 0
    ensures World(s, rd, {}) && s.proposals == [] && forall i <- s.reps :: rd.Idle(s.reps[i], []) && s.reps[i].id == i
  {
    hide Setting, Distinct, Next;
    s := System(rd.d, rd.honest, map i | i in rd.honest :: NewReplica(i), {}, []);
    assert Init(s);
    assert IsRun([s]);
    assert EndsIn([s], s, {});
  }

  lemma {:induction false} FirstStart(rd: Round) returns (s: System)
    requires rd.Ok() && rd.n == 0
    ensures World(s, rd, {}) && Start(s, rd, [])
  {
    hide World, Round.Idle, Round.Proposed, Setting, Distinct, Start, Ready, Round.PP;
    var main := rd.d.main;
    var t := InitWorld(rd);
    WorldMembers(t, rd, {});
    s := ProposeNode(t, rd, {}, []);
    assert s.proposals == [] + [rd.req];
    forall i | i in rd.q ensures i in s.reps && Ready(rd, s.reps[i], [], s.net) {
      if i == main {
        ProposedIsReady(rd, s.reps[i], [], s.net);
      } else {
        assert s.reps[i] == t.reps[i];
        IdleIsReady(rd, s.reps[i], [], s.net);
      }
    }
    Started(s, rd, []);
  }

  lemma {:induction false} WorldMembers(s: System, rd: Round, early: set<(Seq, Node)>)
    requires World(s, rd, early) && rd.Ok()
    ensures forall i <- rd.q :: i in s.reps && s.reps[i].id == i
    ensures rd.d.main in s.reps
  {
    hide Reached, Setting, Distinct;
  }

  lemma {:induction false} IdleIsReady(rd: Round, r: Replica, log: seq<Request>, net: set<Message>)
    ensures rd.Idle(r, log) && r.id != rd.d.main ==> Ready(rd, r, log, net)
  {
    hide Round.Idle;
  }

  lemma {:induction false} NotYet(reqs: seq<Request>, n: nat)
    requires Distinct(reqs) && n < |reqs|
    ensures reqs[n] !in reqs[..n] && reqs[..n] + [reqs[n]] == reqs[..n + 1]
  {
  }

  // Round n begins after n rounds in which the nodes of who got the next proposal early.
  lemma {:induction false} RunTo(d: Domain, honest: set<Node>, q: seq<Node>, reqs: seq<Request>, who: seq<set<Node>>, n: nat)
    returns (s: System)
    requires Plan(d, honest, q, reqs, who) && n < |reqs|
    ensures World(s, Round(d, honest, q, n, reqs[n]), EarlyBefore(who, n)) && Start(s, Round(d, honest, q, n, reqs[n]), reqs[..n])
    decreases n
  {
    hide World, Round.Ok, Start, Distinct, EarlyOnes;
    var rd := Round(d, honest, q, n, reqs[n]);
    if n == 0 {
      s := FirstStart(rd);
      assert reqs[..0] == [];
    } else {
      var before := Round(d, honest, q, n - 1, reqs[n - 1]);
      NotYet(reqs, n - 1);
      var t := RunTo(d, honest, q, reqs, who, n - 1);
      s := RunRound(t, before, rd, EarlyBefore(who, n - 1), reqs[..n - 1], who[n - 1]);
    }
  }

  lemma {:induction false} ReadyHasExecuted(rd: Round, r: Replica, log: seq<Request>, net: set<Message>)
    requires Ready(rd, r, log, net) || rd.Idle(r, log)
    ensures r.executed == log && !r.crashed && (rd.Idle(r, log) && r.id == rd.d.main ==> r.enabled)
  {}

  ghost predicate AllExecuted(s: System, q: set<Node>, reqs: seq<Request>) {
    && s.proposals == reqs
    && (forall i <- q :: i in s.reps && s.reps[i].executed == reqs && !s.reps[i].crashed)
    && s.d.main in s.reps && s.reps[s.d.main].enabled
    && forall m <- s.net :: m.sender in s.honest
  }

  lemma {:induction false} LastRound(s: System, rd: Round, early: set<(Seq, Node)>, log: seq<Request>) returns (s': System)
    requires World(s, rd, early) && rd.Ok() && rd.req !in log && Start(s, rd, log)
    ensures World(s', rd, early) && AllExecuted(s', Elements(rd.q), log + [rd.req])
  {
    hide Reached, Ready, Round.Voted, Round.Idle, Round.Proposed, Round.First, Setting, Distinct, Elements, Start, Round.PP;
    var main := rd.d.main;
    var next := Round(rd.d, rd.honest, rd.q, rd.n + 1, rd.req);
    AllFirst(rd);
    InElements(rd.q);
    var t := FirstHalf(s, rd, next, early, log);
    s' := CommitOthers(t, rd, next, early, log, {}, |rd.q|);
    WorldMembers(s', rd, early);
    forall i | i in rd.q ensures i in s'.reps && s'.reps[i].executed == log + [rd.req] && !s'.reps[i].crashed && (i == main ==> s'.reps[i].enabled) {
      ReadyHasExecuted(next, s'.reps[i], log + [rd.req], s'.net);
    }
  }

  lemma {:induction false} ListOf(s: set<Node>) returns (q: seq<Node>)
    ensures Distinct(q) && Elements(q) == s && |q| == |s|
    decreases |s|
  {
    if s == {} {
      q := [];
    } else {
      var i :| i in s;
      var rest := ListOf(s - {i});
      ElementsAppend(rest, i);
      q := rest + [i];
      InElements(rest);
    }
  }

  // Honest nodes suffice for a quorum with the main.
  lemma {:induction false} QuorumExists(d: Domain, honest: set<Node>) returns (q: set<Node>)
    requires Setting(d, honest)
    ensures d.main in q && q <= honest && |q| == d.T()
  {
    assert Nodes(d) == honest + (Nodes(d) - honest);
    assert |Nodes(d)| == |honest| + |Nodes(d) - honest|;
    q := Grow(honest, d.main, d.T());
  }

  lemma {:induction false} Grow(honest: set<Node>, main: Node, n: nat) returns (q: set<Node>)
    requires main in honest && 0 < n <= |honest|
    ensures main in q && q <= honest && |q| == n
    decreases n
  {
    if n == 1 {
      q := {main};
    } else {
      var rest := Grow(honest, main, n - 1);
      if honest <= rest {
        SizeOfSubset(honest, rest);
      }
      var i :| i in honest && i !in rest;
      q := rest + {i};
    }
  }

  // Whatever quorum of honest nodes with the main, whatever different requests, and whichever of its
  // nodes get the next proposal before they finish a round: a run with no word from faulty nodes in
  // which all of the quorum execute all the requests in order.
  lemma {:induction false} QuorumExecutes(d: Domain, honest: set<Node>, q: set<Node>, reqs: seq<Request>, early: seq<set<Node>>)
    returns (run: seq<System>)
    requires Setting(d, honest) && d.main in q && q <= honest && |q| == d.T()
    requires Distinct(reqs) && |early| == |reqs| && forall n | 0 <= n < |early| :: early[n] <= q - {d.main}
    ensures IsRun(run) && run[0].d == d && run[0].honest == honest
    ensures AllExecuted(run[|run| - 1], q, reqs)
    ensures forall n: nat, i | n + 1 < |reqs| && i in early[n] :: Seen(run, n, i)
  {
    hide IsRun, Setting, Distinct, Elements, Seen;
    var list := ListOf(q);
    InElements(list);
    if reqs == [] {
      var rd := Round(d, honest, list, 0, Request("", [], 0));
      var s := InitWorld(rd);
      WorldMembers(s, rd, {});
      forall i | i in q ensures s.reps[i].executed == [] && !s.reps[i].crashed && (i == d.main ==> s.reps[i].enabled) {
        ReadyHasExecuted(rd, s.reps[i], [], s.net);
      }
      run := RunOf(s, {});
    } else {
      var n := |reqs| - 1;
      var rd := Round(d, honest, list, n, reqs[n]);
      assert Plan(d, honest, list, reqs, early);
      var t := RunTo(d, honest, list, reqs, early, n);
      NotYet(reqs, n);
      assert reqs[..n + 1] == reqs;
      var s := LastRound(t, rd, EarlyBefore(early, n), reqs[..n]);
      run := RunOf(s, EarlyBefore(early, n));
      forall k: nat, i | k + 1 < |reqs| && i in early[k] ensures Seen(run, k, i) {
        EarlyHas(early, n, k, i);
      }
    }
  }

  lemma {:induction false} RunOf(s: System, early: set<(Seq, Node)>) returns (run: seq<System>)
    requires Reached(s, early)
    ensures IsRun(run) && run[|run| - 1] == s && run[0].d == s.d && run[0].honest == s.honest
    ensures forall p <- early :: Seen(run, p.0, p.1)
  {
    hide Init, Next, Seen;
    run :| EndsIn(run, s, early);
  }
}
