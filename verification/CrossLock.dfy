/** The lock exchange between one b-shard main and one i-shard main (Comm/PyramidComm/CrossLock.go)
    as functions on the state of one communicator, and the communicator object itself. */
module CrossLock {
  import opened Transactions
  import opened ProposalBuffer

  type Shard = nat
  type Hash = nat

  // From a b-shard to an i-shard: the request, and the success or fail response to its answers.
  datatype ToI = Ask(round: nat) | Confirm | Release

  // From an i-shard to a b-shard: the answer to a request, and the top hash once confirmed.
  datatype ToB = Granted | Refused | Top(hash: Hash)

  // One shard main's communicator; bMainNode is the b-shard an i-shard is linked to, delayed the
  // number of responses waiting in the communication buffer.
  datatype Com = Com(acks: set<Shard>, success: bool, activating: bool,
                     bMainNode: Option<Shard>, innerBlocked: bool, delayed: nat, tops: map<Shard, Hash>)

  const START := Com({}, false, false, None, false, 0, map[])

  function Blocked(c: Com): Com { c.(innerBlocked := true) }

  function Unblocked(c: Com): Com { c.(innerBlocked := false) }

  // b-shard: a request goes out to every related i-shard.
  function Begin(c: Com): Com { c.(acks := {}, activating := true, success := true) }

  // b-shard: an answer comes in; the last one wakes the request up.
  function Answer(c: Com, related: nat, i: Shard, granted: bool): (Com, bool) {
    if !c.activating then (c, false)
    else
      var c1 := c.(success := c.success && granted, acks := c.acks + {i});
      if |c1.acks| == related then (c1.(acks := {}), true) else (c1, false)
  }

  // b-shard: what the woken request sends.
  function Decide(c: Com): (Com, ToI) {
    if c.success then (Blocked(c), Confirm) else (c, Release)
  }

  // i-shard: links to the first b-shard that asks while nothing is blocked.
  function Grant(c: Com, b: Shard): (Com, ToB) {
    if c.bMainNode == None && !c.innerBlocked then (Blocked(c.(bMainNode := Some(b))), Granted) else (c, Refused)
  }

  // i-shard: the b-shard's response to the answers; those of other b-shards are ignored.
  function Settle(c: Com, b: Shard, confirmed: bool): Com {
    if (c.innerBlocked && c.bMainNode != Some(b)) || c.bMainNode == None then c
    else if confirmed then c.(delayed := c.delayed + 1)
    else Unblocked(c).(bMainNode := None)
  }

  // i-shard: a delayed response goes out. The source dereferences the link.
  function Flush(c: Com): Com
    requires c.delayed > 0 && c.bMainNode.Some?
  {
    c.(delayed := c.delayed - 1, bMainNode := None)
  }

  // b-shard: a top hash comes in; the last one wakes the request up again.
  function TakeTop(c: Com, related: nat, i: Shard, hash: Hash): (Com, bool) {
    var c1 := c.(tops := c.tops[i := hash], acks := c.acks + {i});
    if |c1.acks| == related then (c1.(acks := {}), true) else (c1, false)
  }

  // Both: the shard tells itself that the cross block is done.
  function Done(c: Com): Com { Unblocked(c).(bMainNode := None) }

  class CrossLockCom {
    const isB: bool
    const relatedIShard: set<Shard>
    const buffer: ProposalBuffer
    var acks: set<Shard>
    var success: bool
    var activating: bool
    var bMainNode: Option<Shard>
    var innerBlocked: bool
    var delayed: nat
    var topBlockHash: map<Shard, Hash>

    ghost function State(): Com
      reads this
    {
      Com(acks, success, activating, bMainNode, innerBlocked, delayed, topBlockHash)
    }

    // While internal transactions are blocked, the buffer's threshold is below their priority.
    ghost predicate Valid()
      reads this, buffer
    {
      && buffer.Valid()
      && (innerBlocked ==> buffer.priorThreshold <= CROSS_PRIORITY)
    }

    constructor (isB: bool, relatedIShard: set<Shard>, buffer: ProposalBuffer)
      requires buffer.Valid()
      ensures Valid() && State() == START && this.isB == isB && this.relatedIShard == relatedIShard && this.buffer == buffer
    {
      this.isB, this.relatedIShard, this.buffer := isB, relatedIShard, buffer;
      acks, success, activating, bMainNode, innerBlocked, delayed, topBlockHash := {}, false, false, None, false, 0, map[];
    }

    method BlockInner()
      requires Valid()
      modifies this`innerBlocked, buffer`priorThreshold
      ensures Valid() && State() == Blocked(old(State())) && buffer.priorThreshold == CROSS_PRIORITY
    {
      buffer.SetThreshold(CROSS_PRIORITY);
      innerBlocked := true;
    }

    method UnblockInner()
      requires Valid()
      modifies this`innerBlocked, buffer`priorThreshold
      ensures Valid() && State() == Unblocked(old(State())) && buffer.priorThreshold == LOWEST_PRIORITY
    {
      buffer.SetThreshold(LOWEST_PRIORITY);
      innerBlocked := false;
    }

    // The queue yields no proposal of normal priority or less urgent while the lock is in force.
    method PopWhileBlocked() returns (p: Option<Proposal>)
      requires Valid()
      modifies buffer`pros
      ensures Valid() && State() == old(State())
      ensures innerBlocked && p.Some? ==> Prio(buffer.priority, p.value) < NORMAL_PRIORITY
    {
      p := buffer.Pop();
    }

    // A b-shard's request, up to its first wait; round counts its requests.
    method Request(round: nat) returns (out: ToI)
      requires Valid() && isB
      modifies this`acks, this`activating, this`success
      ensures Valid() && State() == Begin(old(State())) && out == Ask(round)
      ensures acks == {} && activating && success
    {
      acks := {};
      activating := true;
      success := true;
      out := Ask(round);
    }

    // The rest of the request once every related i-shard has answered.
    method Resume() returns (out: ToI)
      requires Valid() && isB
      modifies this`innerBlocked, buffer`priorThreshold
      ensures Valid() && (State(), out) == Decide(old(State()))
      ensures old(success) ==> out == Confirm && innerBlocked && buffer.priorThreshold == CROSS_PRIORITY
      ensures !old(success) ==> out == Release && State() == old(State()) && buffer.priorThreshold == old(buffer.priorThreshold)
    {
      if success {
        BlockInner();
        out := Confirm;
      } else {
        out := Release;
      }
    }

    method HandleRequestAtB(from: Shard, granted: bool) returns (awake: bool)
      requires Valid() && isB
      modifies this`acks, this`success
      ensures Valid() && (State(), awake) == Answer(old(State()), |relatedIShard|, from, granted)
      ensures activating ==> (success <==> old(success) && granted) && (awake <==> |old(acks) + {from}| == |relatedIShard|)
      ensures activating ==> acks == if awake then {} else old(acks) + {from}
      ensures !activating ==> !awake && State() == old(State())
    {
      awake := false;
      if activating == false {
        return;
      }
      if !granted {
        success := false;
      }
      acks := acks + {from};
      if |acks| == |relatedIShard| {
        acks := {};
        awake := true;
      }
    }

    method HandleRequestAtI(from: Shard) returns (out: ToB)
      requires Valid() && !isB
      modifies this`bMainNode, this`innerBlocked, buffer`priorThreshold
      ensures Valid() && (State(), out) == Grant(old(State()), from)
      ensures out == Granted <==> old(bMainNode == None && !innerBlocked)
      ensures out == Granted ==> bMainNode == Some(from) && innerBlocked && buffer.priorThreshold == CROSS_PRIORITY
      ensures out != Granted ==> out == Refused && State() == old(State()) && buffer.priorThreshold == old(buffer.priorThreshold)
    {
      if bMainNode == None && !innerBlocked {
        bMainNode := Some(from);
        BlockInner();
        out := Granted;
      } else {
        out := Refused;
      }
    }

    method HandleResponseAtI(from: Shard, confirmed: bool)
      requires Valid() && !isB
      modifies this`bMainNode, this`innerBlocked, this`delayed, buffer`priorThreshold
      ensures Valid() && State() == Settle(old(State()), from, confirmed)
      ensures old(bMainNode) == Some(from) && !confirmed ==>
                !innerBlocked && bMainNode == None && buffer.priorThreshold == LOWEST_PRIORITY && delayed == old(delayed)
      ensures old(bMainNode) == Some(from) && confirmed ==>
                innerBlocked == old(innerBlocked) && bMainNode == Some(from) && delayed == old(delayed) + 1
      ensures old(bMainNode == None || (innerBlocked && bMainNode != Some(from))) ==>
                State() == old(State()) && buffer.priorThreshold == old(buffer.priorThreshold)
    {
      if (innerBlocked && bMainNode != Some(from)) || bMainNode == None {
        return;
      }
      if confirmed {
        delayed := delayed + 1;
      } else {
        UnblockInner();
        bMainNode := None;
      }
    }

    // The delayed response of an i-shard.
    method Response(localHash: Hash) returns (to: Shard, out: ToB)
      requires Valid() && !isB && delayed > 0 && bMainNode.Some?
      modifies this`bMainNode, this`delayed
      ensures Valid() && State() == Flush(old(State())) && Some(to) == old(bMainNode) && out == Top(localHash)
    {
      delayed := delayed - 1;
      to, out := bMainNode.value, Top(localHash);
      bMainNode := None;
    }

    method HandleResponseAtB(from: Shard, hash: Hash) returns (awake: bool)
      requires Valid() && isB
      modifies this`acks, this`topBlockHash
      ensures Valid() && (State(), awake) == TakeTop(old(State()), |relatedIShard|, from, hash)
      ensures topBlockHash == old(topBlockHash)[from := hash] && (awake <==> |old(acks) + {from}| == |relatedIShard|)
      ensures acks == if awake then {} else old(acks) + {from}
    {
      awake := false;
      topBlockHash := topBlockHash[from := hash];
      acks := acks + {from};
      if |acks| == |relatedIShard| {
        acks := {};
        awake := true;
      }
    }

    // The message a shard sends itself after it has appended the cross block.
    method HandleOwnResponse()
      requires Valid()
      modifies this`bMainNode, this`innerBlocked, buffer`priorThreshold
      ensures Valid() && State() == Done(old(State()))
      ensures !innerBlocked && bMainNode == None && buffer.priorThreshold == LOWEST_PRIORITY
    {
      UnblockInner();
      bMainNode := None;
    }
  }
}
