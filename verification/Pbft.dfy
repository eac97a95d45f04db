/** The normal case of the PBFT replica (consensus_shard/pbft/Pbft1_Propose.go to Pbft4_Commit.go)
    as functions on replica states. A panic of the source is a crashed replica, which takes no
    further step. Map iteration orders and the outcome of the application's Verify are choices. */
module Pbft {
  import opened Quorum
  import opened Transactions

  type Node = nat
  type Seq = nat

  datatype Request = Request(kind: string, content: seq<nat>, time: nat)

  // A collision-free digest of a request.
  datatype Digest = Digest(of: Request)

  datatype Message =
    | PrePrepare(sender: Node, seqId: Seq, request: Request, digest: Digest)
    | Prepare(sender: Node, seqId: Seq, digest: Digest)
    | Commit(sender: Node, seqId: Seq, digest: Digest)

  datatype Status = Unknown | Unprepared | Prepared | Committed

  // n running nodes, one of which proposes.
  datatype Domain = Domain(n: nat, main: Node) {
    function T(): nat { Threshold(n) }
  }

  // What the environment decides during one step.
  datatype Choice = Choice(prepares: seq<Node>, commits: seq<Node>, verified: bool)

  datatype Replica = Replica(
    id: Node,
    sequence: Seq,
    prePreMsgs: map<Seq, Message>,
    prepareMsgs: map<Seq, map<Node, Digest>>, // the vote of each sender
    cntPrepareConfirm: map<Digest, set<Node>>,
    commitMsgs: map<Seq, map<Node, Digest>>,
    cntCommitConfirm: map<Digest, set<Node>>,
    isCommitBroadcast: set<Digest>,
    proposalPool: map<Seq, Option<Request>>,
    proposalStatus: map<Seq, Status>,
    isReply: set<Seq>,
    enabled: bool, // proposeLock is free
    crashed: bool,
    executed: seq<Request>)

  datatype Result = Result(r: Replica, out: seq<Message>)

  // A loop over votes: its state so far, and whether it has returned.
  datatype Loop = Loop(r: Replica, out: seq<Message>, stopped: bool)

  function StatusAt(r: Replica, s: Seq): Status { if s in r.proposalStatus then r.proposalStatus[s] else Unknown }

  function VotesAt<K>(m: map<K, map<Node, Digest>>, k: K): map<Node, Digest> { if k in m then m[k] else map[] }

  function AddVoter(m: map<Digest, set<Node>>, key: Digest, voter: Node): map<Digest, set<Node>> {
    m[key := (if key in m then m[key] else {}) + {voter}]
  }

  function Crash(r: Replica): Replica { r.(crashed := true) }

  function NewReplica(id: Node): Replica {
    Replica(id, 0, map[], map[], map[], map[], map[], {}, map[], map[], {}, true, false, [])
  }

  // Takes the propose lock and sends req under the current sequence number.
  function Propose(r: Replica, req: Request): Result
    requires r.enabled
  {
    Result(r.(enabled := false, proposalPool := r.proposalPool[r.sequence := Some(req)]),
           [PrePrepare(r.id, r.sequence, req, Digest(req))])
  }

  // Pbft2_PrePrepare.go:118-149: accepted, ignored, or a panic.
  datatype Verdict = Accept | Ignore | Panic

  function Verify(d: Domain, r: Replica, m: Message): Verdict
    requires m.PrePrepare?
  {
    if m.sender != d.main then Panic
    else if m.digest != Digest(m.request) then Ignore
    else if r.sequence < m.seqId && m.seqId !in r.proposalPool then
      if r.sequence + 1 == m.seqId then Ignore else Panic
    else if r.sequence > m.seqId then Ignore
    else Accept
  }

  // m becomes the proposal of its sequence number; one that fails the application's check leaves nil.
  function Accepted(r: Replica, m: Message, verified: bool): Replica
    requires m.PrePrepare?
  {
    r.(proposalPool := r.proposalPool[m.seqId := if verified then Some(m.request) else None],
       proposalStatus := r.proposalStatus[m.seqId := Unprepared],
       isReply := r.isReply - {m.seqId})
  }

  // Keeps the first pre-prepare of its sequence number.
  function Receive(r: Replica, m: Message): Replica {
    if m.seqId in r.prePreMsgs then r else r.(prePreMsgs := r.prePreMsgs[m.seqId := m])
  }

  function Respond(d: Domain, r: Replica, m: Message, verified: bool): Result
    requires m.PrePrepare?
  {
    match Verify(d, r, m)
    case Panic => Result(Crash(r), [])
    case Ignore => Result(r, [])
    case Accept => Result(Accepted(r, m, verified), if verified then [Prepare(r.id, m.seqId, m.digest)] else [])
  }

  function HandlePrePrepare(d: Domain, r: Replica, m: Message, verified: bool): Result
    requires m.PrePrepare?
  {
    if m.seqId in r.prePreMsgs && m.sender != d.main then Result(Crash(r), [])
    else Respond(d, Receive(r, m), m, verified)
  }

  // req is executed under the current sequence number, whose round is forgotten.
  function Advance(r: Replica, req: Request): Replica {
    var s := r.sequence;
    Forget(r, s).(executed := r.executed + [req], proposalStatus := r.proposalStatus[s := Committed],
                  isReply := r.isReply + {s}, sequence := s + 1)
  }

  function Forget(r: Replica, s: Seq): Replica {
    r.(prePreMsgs := r.prePreMsgs - {s}, prepareMsgs := r.prepareMsgs - {s}, commitMsgs := r.commitMsgs - {s})
  }

  // Executes the request stored for the current sequence number and moves on to the next one.
  function Execute(d: Domain, r: Replica, verified: bool): Result {
    var s := r.sequence;
    if s !in r.proposalPool || r.proposalPool[s] == None then Result(Crash(r.(isReply := r.isReply + {s})), [])
    else
      var r1 := Advance(r, r.proposalPool[s].value);
      if r.id != d.main then
        if s + 1 in r1.prePreMsgs && r1.prePreMsgs[s + 1].PrePrepare? then HandlePrePrepare(d, r1, r1.prePreMsgs[s + 1], verified)
        else Result(r1, [])
      else if r1.enabled then Result(Crash(r1), []) // unlocking a free lock is fatal
      else Result(r1.(enabled := true), [])
  }

  // One round of the loop in HandleCommitMsgs.
  function CommitVote(d: Domain, r: Replica, voter: Node, key: Digest, verified: bool): Loop {
    var r1 := r.(cntCommitConfirm := AddVoter(r.cntCommitConfirm, key, voter));
    if |r1.cntCommitConfirm[key]| >= d.T() && r.sequence !in r.isReply && key in r.isCommitBroadcast then
      var e := Execute(d, r1, verified);
      Loop(e.r, e.out, true)
    else Loop(r1, [], false)
  }

  function CommitLoop(d: Domain, r: Replica, votes: map<Node, Digest>, order: seq<Node>, verified: bool): Loop
    requires forall v <- order :: v in votes
  {
    if order == [] then Loop(r, [], false)
    else
      var before := CommitLoop(d, r, votes, order[..|order| - 1], verified);
      var v := order[|order| - 1];
      if before.stopped then before else CommitVote(d, before.r, v, votes[v], verified)
  }

  // The order is one of map iteration: no voter twice, and all of them unless the loop returned.
  ghost predicate Iterates(order: seq<Node>, votes: map<Node, Digest>, stopped: bool) {
    && (forall v <- order :: v in votes)
    && (forall i, j | 0 <= i < j < |order| :: order[i] != order[j])
    && (!stopped ==> Elements(order) == votes.Keys)
  }

  ghost predicate CommitChoice(d: Domain, r: Replica, ch: Choice) {
    var votes := VotesAt(r.commitMsgs, r.sequence);
    |votes| >= d.T() ==>
      && (forall v <- ch.commits :: v in votes)
      && Iterates(ch.commits, votes, CommitLoop(d, r, votes, ch.commits, ch.verified).stopped)
  }

  ghost function HandleCommitMsgs(d: Domain, r: Replica, ch: Choice): Result
    requires CommitChoice(d, r, ch)
  {
    var votes := VotesAt(r.commitMsgs, r.sequence);
    if |votes| < d.T() then Result(r, [])
    else
      var l := CommitLoop(d, r, votes, ch.commits, ch.verified);
      Result(l.r, l.out)
  }

  function StoreCommit(r: Replica, m: Message): Replica
    requires m.Commit?
  {
    r.(commitMsgs := r.commitMsgs[m.seqId := VotesAt(r.commitMsgs, m.seqId)[m.sender := m.digest]])
  }

  ghost predicate HandleCommitChoice(d: Domain, r: Replica, m: Message, ch: Choice)
    requires m.Commit?
  {
    StatusAt(r, m.seqId) != Committed ==> CommitChoice(d, StoreCommit(r, m), ch)
  }

  ghost function HandleCommit(d: Domain, r: Replica, m: Message, ch: Choice): Result
    requires m.Commit? && HandleCommitChoice(d, r, m, ch)
  {
    if StatusAt(r, m.seqId) == Committed then Result(r, []) else HandleCommitMsgs(d, StoreCommit(r, m), ch)
  }

  // The current proposal is prepared, under key.
  function Broadcasting(r: Replica, key: Digest): Replica {
    r.(isCommitBroadcast := r.isCommitBroadcast + {key},
       proposalStatus := r.proposalStatus[r.sequence := Prepared],
       prepareMsgs := r.prepareMsgs - {r.sequence})
  }

  // One round of the loop in HandlePrepareMsgs, up to the nested HandleCommitMsgs.
  function PrepareVote(d: Domain, r: Replica, voter: Node, key: Digest): Loop
    requires r.sequence in r.proposalPool
  {
    var r1 := r.(cntPrepareConfirm := AddVoter(r.cntPrepareConfirm, key, voter));
    if key in r.isCommitBroadcast then Loop(r1, [], true)
    else if r.proposalPool[r.sequence] == None then Loop(Crash(r1), [], true)
    else if |r1.cntPrepareConfirm[key]| >= d.T() then
      Loop(Broadcasting(r1, key), [Commit(r.id, r.sequence, key)], true)
    else Loop(r1, [], false)
  }

  function PrepareLoop(d: Domain, r: Replica, votes: map<Node, Digest>, order: seq<Node>): (l: Loop)
    requires r.sequence in r.proposalPool && forall v <- order :: v in votes
    ensures !l.stopped ==> l.r.sequence == r.sequence && l.r.proposalPool == r.proposalPool && l.out == []
  {
    if order == [] then Loop(r, [], false)
    else
      var before := PrepareLoop(d, r, votes, order[..|order| - 1]);
      var v := order[|order| - 1];
      if before.stopped then before else PrepareVote(d, before.r, v, votes[v])
  }

  ghost predicate PrepareChoice(d: Domain, r: Replica, ch: Choice) {
    var votes := VotesAt(r.prepareMsgs, r.sequence);
    |votes| >= d.T() && r.sequence in r.proposalPool ==>
      && (forall v <- ch.prepares :: v in votes)
      && var l := PrepareLoop(d, r, votes, ch.prepares);
         Iterates(ch.prepares, votes, l.stopped) && (l.out != [] ==> CommitChoice(d, l.r, ch))
  }

  ghost function HandlePrepareMsgs(d: Domain, r: Replica, ch: Choice): Result
    requires PrepareChoice(d, r, ch)
  {
    var votes := VotesAt(r.prepareMsgs, r.sequence);
    if |votes| < d.T() || r.sequence !in r.proposalPool then Result(r, [])
    else
      var l := PrepareLoop(d, r, votes, ch.prepares);
      if l.out == [] then Result(l.r, [])
      else
        var c := HandleCommitMsgs(d, l.r, ch);
        Result(c.r, l.out + c.out)
  }

  function StorePrepare(r: Replica, m: Message): Replica
    requires m.Prepare?
  {
    r.(prepareMsgs := r.prepareMsgs[m.seqId := VotesAt(r.prepareMsgs, m.seqId)[m.sender := m.digest]])
  }

  ghost predicate HandlePrepareChoice(d: Domain, r: Replica, m: Message, ch: Choice)
    requires m.Prepare?
  {
    !(StatusAt(r, m.seqId) in {Prepared, Committed}) ==> PrepareChoice(d, StorePrepare(r, m), ch)
  }

  ghost function HandlePrepare(d: Domain, r: Replica, m: Message, ch: Choice): Result
    requires m.Prepare? && HandlePrepareChoice(d, r, m, ch)
  {
    if StatusAt(r, m.seqId) in {Prepared, Committed} then Result(r, []) else HandlePrepareMsgs(d, StorePrepare(r, m), ch)
  }

  ghost predicate Handles(d: Domain, r: Replica, m: Message, ch: Choice) {
    match m
    case PrePrepare(_, _, _, _) => true
    case Prepare(_, _, _) => HandlePrepareChoice(d, r, m, ch)
    case Commit(_, _, _) => HandleCommitChoice(d, r, m, ch)
  }

  // ConPbft.go:72-88.
  ghost function HandleMsg(d: Domain, r: Replica, m: Message, ch: Choice): Result
    requires Handles(d, r, m, ch)
  {
    match m
    case PrePrepare(_, _, _, _) => HandlePrePrepare(d, r, m, ch.verified)
    case Prepare(_, _, _) => HandlePrepare(d, r, m, ch)
    case Commit(_, _, _) => HandleCommit(d, r, m, ch)
  }
}
