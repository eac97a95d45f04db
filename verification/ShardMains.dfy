/** The main nodes of a b-shard and of an i-shard as objects, whose methods are the local parts of the
    steps in LockSafety: the lock handlers (Comm/PyramidComm/CrossLock.go), the count of reported
    executions (Comm/PyramidComm/CrossReply.go), and the operations that end a cross block
    (Opts/Op_PyAppendCrossBlock.go, Opts/Op_PyCrossCommit.go). */
module ShardMains {
  import opened CrossLock
  import opened LockSafety
  import opened ProposalBuffer
  import opened Transactions

  class IShardMain {
    const topo: Topology
    const lock: CrossLockCom
    var processingBlock: Option<Round>
    var reqCnt: map<Round, nat>
    var scheduled: nat
    ghost var holder: Option<Round>

    ghost predicate Valid()
      reads this, lock, lock.buffer
    {
      lock.Valid() && !lock.isB
    }

    ghost function State(): IShard
      reads this, lock
    {
      IShard(lock.State(), holder, processingBlock, reqCnt, scheduled)
    }

    constructor (topo: Topology, lock: CrossLockCom)
      requires lock.Valid() && !lock.isB
      ensures Valid() && this.topo == topo && this.lock == lock
      ensures State() == IShard(lock.State(), None, None, map[], 0)
    {
      this.topo, this.lock := topo, lock;
      processingBlock, reqCnt, scheduled, holder := None, map[], 0, None;
    }

    // A message of b-shard b, up to and including the answer.
    method Receive(b: Shard, m: ToI) returns (out: seq<ToB>)
      requires Valid()
      modifies this`holder, lock`bMainNode, lock`innerBlocked, lock`delayed, lock.buffer`priorThreshold
      ensures Valid() && (State(), out) == IAfter(old(State()), b, m)
      ensures m == Release && old(lock.bMainNode) == Some(b) ==>
                !lock.innerBlocked && lock.bMainNode == None && holder == None && lock.buffer.priorThreshold == LOWEST_PRIORITY
    {
      match m
      case Ask(n) =>
        var answer := lock.HandleRequestAtI(b);
        if answer == Granted {
          holder := Some(Round(b, n));
        }
        out := [answer];
      case Confirm =>
        lock.HandleResponseAtI(b, true);
        out := [];
      case Release =>
        lock.HandleResponseAtI(b, false);
        holder := if lock.innerBlocked then holder else None;
        out := [];
    }

    // The delayed response: the top hash goes to the linked b-shard, and the link ends.
    method Respond(localHash: Hash) returns (to: Shard, out: ToB)
      requires Valid() && lock.delayed > 0 && lock.bMainNode.Some?
      modifies lock`bMainNode, lock`delayed
      ensures var y := old(State()); Valid() && State() == y.(com := Flush(y.com)) && Some(to) == y.com.bMainNode && out == Top(localHash)
    {
      to, out := lock.Response(localHash);
    }

    // The cross block of r becomes the block being processed.
    method PrepareBlock(r: Round)
      requires Valid()
      modifies this`processingBlock
      ensures Valid() && State() == old(State()).(processing := Some(r))
    {
      processingBlock := Some(r);
    }

    // A node of r's b-shard reports that it has executed the cross block.
    method HandleReply(r: Round) returns (ok: bool)
      requires Valid() && r.b in topo.nodes
      modifies this`reqCnt, this`scheduled
      ensures Valid() && State() == Replied(topo, old(State()), r) && (ok <==> processingBlock.Some?)
      ensures ok ==> scheduled == old(scheduled) + if CountOf(old(reqCnt), r) + 1 == topo.T(r.b) then 1 else 0
    {
      if processingBlock == None {
        return false;
      }
      reqCnt := reqCnt[r := CountOf(reqCnt, r) + 1];
      if reqCnt[r] == topo.T(r.b) {
        scheduled := scheduled + 1;
      }
      return true;
    }

    // The scheduled operation appends the cross block and sets the shard free.
    method ExecuteAppend()
      requires Valid() && scheduled > 0
      modifies this, lock`bMainNode, lock`innerBlocked, lock.buffer`priorThreshold
      ensures Valid()
      ensures var y := old(State()); State() == y.(com := Done(y.com), processing := None, holder := None, scheduled := y.scheduled - 1)
    {
      processingBlock := None;
      lock.HandleOwnResponse();
      holder := None;
      scheduled := scheduled - 1;
    }
  }

  class BShardMain {
    const lock: CrossLockCom
    var pc: PC
    var round: nat
    var stale: nat

    ghost predicate Valid()
      reads this, lock, lock.buffer
    {
      lock.Valid() && lock.isB
    }

    ghost function State(): BShard
      reads this, lock
    {
      BShard(lock.State(), pc, round, stale)
    }

    constructor (lock: CrossLockCom)
      requires lock.Valid() && lock.isB
      ensures Valid() && this.lock == lock && State() == BShard(lock.State(), Idle, 0, 0)
    {
      this.lock := lock;
      pc, round, stale := Idle, 0, 0;
    }

    method Request() returns (out: ToI)
      requires Valid()
      modifies this`pc, this`round, lock`acks, lock`activating, lock`success
      ensures Valid() && out == Ask(round)
      ensures var x := old(State()); State() == BShard(Begin(x.com), Asking, x.round + 1, x.stale)
    {
      round := round + 1;
      pc := Asking;
      out := lock.Request(round);
    }

    // An answer or a top hash of i-shard i; the last one wakes the request.
    method Receive(i: Shard, m: ToB)
      requires Valid()
      modifies this`pc, lock`acks, lock`success, lock`topBlockHash
      ensures Valid() && State() == BAfter(old(State()), |lock.relatedIShard|, i, m)
    {
      var awake;
      match m {
        case Granted => awake := lock.HandleRequestAtB(i, true);
        case Refused => awake := lock.HandleRequestAtB(i, false);
        case Top(hash) => awake := lock.HandleResponseAtB(i, hash);
      }
      pc := Woken(pc, awake);
    }

    // What the woken request does next; a refused one ends, and clears the flag later.
    method Resume() returns (out: ToI)
      requires Valid()
      modifies this`pc, this`stale, lock`innerBlocked, lock.buffer`priorThreshold
      ensures Valid() && State() == Resumed(old(State())) && out == Decide(old(State()).com).1
    {
      var success := lock.success;
      out := lock.Resume();
      if success {
        pc := Confirming;
      } else {
        pc := Idle;
        stale := stale + 1;
      }
    }

    // Woken from the second wait: the cross block is scheduled.
    method Schedule()
      requires Valid()
      modifies this`pc, lock`activating
      ensures var x := old(State()); Valid() && State() == x.(com := x.com.(activating := false), pc := Crossing)
    {
      pc := Crossing;
      lock.activating := false;
    }

    // A refused request ends only after its successor may have started.
    method ClearFlag()
      requires Valid() && stale > 0
      modifies this`stale, lock`activating
      ensures var x := old(State()); Valid() && State() == x.(com := x.com.(activating := false), stale := x.stale - 1)
    {
      stale := stale - 1;
      lock.activating := false;
    }

    // The main node executes the cross commit.
    method ExecuteCommit()
      requires Valid()
      modifies this`pc, lock`bMainNode, lock`innerBlocked, lock.buffer`priorThreshold
      ensures Valid() && State() == Committed(old(State()))
    {
      lock.HandleOwnResponse();
      pc := Idle;
    }
  }
}
