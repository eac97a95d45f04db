# Verified model of the Monosulfide emulator

Monosulfide emulates sharded blockchains. This project models its decision-making cores in Dafny and
proves what they are for:

- the cross-shard block DAG of Monosulfide, its indexes, its re-linearisation and its transaction pool
  (`BlockTree`, `TreeIndex`, `FideDag`, `Relinearise`, `LateSibling`, `MonosulfideChain`);
- the GHOST ledger of Monoxide (`MonoxideChain`, on the same trees);
- the normal case of the PBFT replica, agreement over all runs of n replicas, and runs that execute any
  requests without the faulty ones (`Quorum`, `Pbft`, `PbftReplica`, `PbftSafety`, `PbftUptake`,
  `PbftProgress`);
- the cross-shard lock of Pyramid, mutual exclusion and release over all runs (`CrossLock`,
  `LockSafety`, `LockRelease`, `ShardMains`);
- the proposal queue, the message codec and the migration built on both (`ProposalBuffer`, `Content`,
  `Migration`);
- routing and relays, difficulty targets, block synchronisation, packaging and Merkle roots (`Graph`,
  `BreadthFirst`, `Routes`, `Relay`, `Shifts`, `CompactBits`, `CausalSync`, `SyncIBlock`, `RoundRobin`,
  `TxPool`, `MerkleRoot`, with `Transactions`).

## How to read it

Code that changes state is a class whose methods are proved against functions on values; the properties
of runs are lemmas about those functions (`PbftProgress` and `LockExample` show that such runs exist).
The large ledgers keep one invariant (`Valid`, `Inv`) that the constructor establishes and every method
keeps, so it holds in every run of calls.

- Block and transaction hashes are collision-free numbers. `MerkleRoot` instead takes an arbitrary hash
  function and exhibits a collision, since no injective fixed-size hash exists.
- `born` numbers blocks by arrival. It is ghost state: a block arrives after its parent and its
  references, which makes the trees and the DAG well-founded. A received block is assumed to have a
  fresh hash and stored references of the right shard (`Accepts`, `Shaped`), as the code does without
  checking it.
- A panic of the source is an outcome: `ok == false`, `None`, or a crashed replica that takes no
  further step.
- Map iteration order is an arbitrary choice (`:|`), so every theorem holds for all orders. A range over
  a map that gains entries may or may not visit the new ones.
- Clocks are parameters, and so are the outcomes of an operation's `Prepare` and `Verify`.
- A transaction list of the pool is a map keyed by hash, so it is a set; a pool whose lists are not told
  apart is one set of transactions, since the list of a transaction is a function of it.
- In the protocols each handler is one atomic step. PBFT messages form a set: they may arrive in any
  order and more than once, and carry their true sender. The links of the lock protocol are FIFO queues.

Behaviour that may surprise and that the model keeps, because the code has it: `CheckSign` removes a
signature but checks nothing about the signer; the losing branch of a Monoxide fork takes its block's
transactions out of the pool although the block is not adopted; a migration message announces the
number of proposals before any is popped; and a pool looks up the route from the recipient's shard to
the sender's, where the relays follow the one from the sender's to the recipient's.

## Model

| member | source | states |
|---|---|---|
| FideDag.ForkFreePast | Monosulfide/MonosulfideChain.go:109-142 | If every stored block passed the reference check, each shard-j block in the causal past of a block is an ancestor of that block's shard-j reference |
| FideDag.NoForkInPast | Monosulfide/MonosulfideChain.go:124-142 | Of any two blocks of one shard in a block's past, one descends from the other: no past holds a fork |
| FideDag.PlusConsistent | Monosulfide/MonosulfideChain.go:144-164 | Storing a fresh block that passed the check keeps every stored block's references consistent |
| FideDag.BlockOnCut | Monosulfide/MonosulfideChain.go:63-107 | A block that refers to exactly the tops passes the reference check if and only if the tops are a consistent cut, and always takes the fast path |
| FideDag.FastPathKeepsCut | Monosulfide/MonosulfideChain.go:167-175 | Moving one top by the fast path keeps the cut of tops consistent |
| Relinearise.ProcessOk | Monosulfide/MonosulfideChain.go:402-422 | Processing an unlocked ready block keeps the invariant of the scan: each block once and after its references, reached exactly when all its references are processed, children locked exactly when there are several |
| Relinearise.ChooseOk | Monosulfide/MonosulfideChain.go:423-448 | Unlocking a heaviest ready block throws out only rivals of its shard that weigh no more, and keeps the invariant |
| Relinearise.ScannedOk | Monosulfide/MonosulfideChain.go:400-449 | Every state of every scan, for any order of iteration, satisfies the invariant |
| Relinearise.ForksAreDecided | Monosulfide/MonosulfideChain.go:406-411 | A processed block that has siblings was chosen by the unlocking step |
| Relinearise.ChosenIsHeaviest | Monosulfide/MonosulfideChain.go:423-439 | When a block is chosen, everything ready is locked, nothing ready is heavier, and nothing equally heavy is older |
| Relinearise.LosersStayOut | Monosulfide/MonosulfideChain.go:440-447 | When a block is chosen, every other ready block of its shard is processed in no state of the scan |
| Relinearise.ForksAreTakenOnce | Monosulfide/MonosulfideChain.go:400-449 | Of two siblings in the order, the second had a reference that came no earlier than the first: siblings that are ready together are never both processed |
| Relinearise.OnlyForksAreDecided | Monosulfide/MonosulfideChain.go:406-411 | Only blocks that have siblings are ever locked, chosen or dropped |
| LateSibling.LighterSiblingIsTop | Monosulfide/MonosulfideChain.go:400-449 | Six consistent blocks on which a complete scan ends on the lighter of two siblings, and the tops are no consistent cut |
| Relinearise.LeftOut | Monosulfide/MonosulfideChain.go:400-449 | When the scan ends, every block left out was discarded for a processed block of its shard of at least its weight, or reaches such a block by references |
| Relinearise.LastIsTop | Monosulfide/MonosulfideChain.go:390-393 | The top of a shard is the genesis or the last block of that shard in the order |
| MonosulfideChain.NoTxLost | Monosulfide/MonosulfideChain.go:450-473 | Whatever tops are switched to, every transaction in the pool or on a current chain is afterwards in the pool or on a current chain |
| MonosulfideChain.TipKeepsTxs | Monosulfide/MonosulfideChain.go:173-175 | Extending a top moves the block's transactions from the pool to that chain and loses none |
| MonosulfideChain.SwitchTopKeepsTxs | Monosulfide/MonosulfideChain.go:452-470 | Rolling one top back and forward conserves pool plus chain |
| MonosulfideChain.SwitchTopMoves | Monosulfide/MonosulfideChain.go:454-469 | After one top has moved, a transaction is pooled if and only if it was, or an abandoned block carries it, and no adopted block does |
| MonosulfideChain.TxsAreCarried | Block/SpiralBlock.go:42-52 | A block's transactions are those in the bodies of its sub-blocks, missing bodies aside |
| MonosulfideChain.RefsAfterPlus | Monosulfide/MonosulfideChain.go:157-159 | The referrer lists hold each block once per slot in which it refers to the key |
| MonosulfideChain.IndexedAfterPlus | Monosulfide/MonosulfideChain.go:155-165 | After the index updates of one block, weights are subtree sizes, and child and referrer lists are those of the larger DAG |
| MonosulfideChain.MonosulfideChain.constructor | Monosulfide/MonosulfideChain.go:332-376 | A ledger of the shared genesis satisfies the invariant, and its tops are a consistent cut |
| MonosulfideChain.MonosulfideChain.Anc | Monosulfide/MonosulfideChain.go:109-122 | The walk to the genesis returns exactly the ancestors, the block and the genesis included |
| MonosulfideChain.MonosulfideChain.Valid | Monosulfide/MonosulfideChain.go:124-142 | True if and only if what each referenced block refers to is on the chain of the corresponding reference |
| MonosulfideChain.MonosulfideChain.VerifyBlock | Monosulfide/MonosulfideChain.go:189-196 | Accepts if and only if the sub-block root matches and the references are consistent |
| MonosulfideChain.MonosulfideChain.GenerateBlock | Monosulfide/MonosulfideChain.go:63-107 | Nothing for an empty pool; otherwise a block whose sub-blocks hold the tops, the packaged lists and the roots of those, with a matching root, that passes the check if and only if the tops are a consistent cut |
| MonosulfideChain.MonosulfideChain.AddTx | Tx/TxPool.go:40-70 | A pooled transaction is remembered as one that must never be lost |
| MonosulfideChain.MonosulfideChain.Append | Monosulfide/MonosulfideChain.go:144-187 | Keeps the invariant (indexes exact, all blocks consistent, no transaction ever pooled lost); new stamps on exactly the block's chain; fast path exactly when the block extends the tops, and then exact tops and pool; otherwise the outcome of a complete scan that decides forks once |
| MonosulfideChain.MonosulfideChain.Store | Monosulfide/MonosulfideChain.go:154-165 | The incremental updates of weights, children and referrers agree with the recomputed ones |
| MonosulfideChain.MonosulfideChain.Good | Monosulfide/MonosulfideChain.go:167-173 | True if and only if the block extends its shard's top and refers only to blocks on current chains |
| MonosulfideChain.MonosulfideChain.FindBestBranches | Monosulfide/MonosulfideChain.go:382-474 | Terminates for every iteration order; tops come from a complete causal scan in which siblings ready together are never both processed, the pool follows them exactly, and nothing pooled is lost |
| MonosulfideChain.MonosulfideChain.Linearise | Monosulfide/MonosulfideChain.go:383-449 | The worklist with reference counts and locks takes exactly the steps of the scan and ends with no block ready; the measure is (unprocessed blocks, locked removable blocks) |
| MonosulfideChain.MonosulfideChain.Heaviest | Monosulfide/MonosulfideChain.go:424-439 | The choice is a heaviest removable block, and of those one with the oldest stamp |
| MonosulfideChain.MonosulfideChain.MoveTop | Monosulfide/MonosulfideChain.go:454-469 | A transaction is pooled afterwards if and only if it was, or an abandoned block carries it, and no adopted block does |
| MonoxideChain.TipExtensionIsHead | monoxide/monoxideChain.go:82-85 | Extending the head makes the new block the head that GHOST selects on the whole tree |
| MonoxideChain.TipIsOnlyHead | monoxide/monoxideChain.go:82-86 | The fast path gives what the full search would: after a tip extension the new block is the only GHOST head that keeps ties |
| MonoxideChain.OtherHeadsStay | monoxide/monoxideChain.go:66-81 | A block of one shard leaves the heads of all others as GHOST selects them |
| MonoxideChain.ReorgMargin | monoxide/monoxideChain.go:86-109 | A branch is left only for one that contains the new block and outweighs it by exactly one |
| MonoxideChain.SwitchHasMargin | monoxide/monoxideChain.go:86-109 | So at every reported fork point |
| MonoxideChain.HeadChangesIff | monoxide/monoxideChain.go:145-175 | Off the head, a block changes the head if and only if, before it is stored, its branch is as heavy as the current chain at some fork |
| MonoxideChain.HeadIsUnique | monoxide/monoxideChain.go:145-175 | The fork choice is a function of the tree and the current head: the GHOST rule, ties kept, and among other equals the first to arrive |
| MonoxideChain.CopiesAreRelays | Tx/TxPool.go:290-305 | After a tip extension a transaction is pooled if and only if it was and is not in the block, or it is the relay of a transaction of the block between two shards that is no relay itself |
| MonoxideChain.RelayOnce | Tx/TxPool.go:290-305 | A relay goes to the recipient's shard and is not relayed again |
| TreeIndex.OrderAfterGraft | monoxide/monoxideChain.go:77 | Children stay listed in the order of their arrival |
| MonoxideChain.NothingLostIff | monoxide/monoxideChain.go:82-108 | Pool plus current chain loses no pooled transaction if and only if, judged on the ledger before the call, the block extends the head, its branch ties with the current chain at a fork, or it brings no pooled transaction that the current chain lacks |
| MonoxideChain.LosingForkLoses | monoxide/monoxideChain.go:101-106 | A rival of the head for which the only pooled transaction is lost |
| MonoxideChain.OnChainLeafIsHead | monoxide/monoxideChain.go:154-174 | A walk that never left the current chain ended at the current head |
| MonoxideChain.Chain.constructor | monoxide/monoxideChain.go:177-206 | A ledger of genesis blocks satisfies the invariant |
| MonoxideChain.Chain.Append | monoxide/monoxideChain.go:66-113 | Keeps the invariant: every cached weight is a subtree size and every cached head is the leaf GHOST selects, on the fast path and both slow branches; other heads stay; the head switches if and only if the block's branch tied at a fork; fork point, margin, both tie rules and exact pool, relays included |
| MonoxideChain.Chain.FindTop | monoxide/monoxideChain.go:145-175 | Terminates at the GHOST head; the fork is absent if and only if the head is unchanged, and otherwise the deepest common ancestor; ties keep the current chain, and elsewhere the first to arrive wins |
| MonoxideChain.Chain.BestChild | monoxide/monoxideChain.go:156-167 | A heaviest child, on the current chain if one of the heaviest is, and otherwise the first of them to arrive |
| MonoxideChain.Chain.SwitchPool | monoxide/monoxideChain.go:88-100 | The pool becomes (pool plus abandoned) minus adopted |
| MonoxideChain.Chain.VerifyBlock | monoxide/monoxideChain.go:115-134 | Accepts if and only if both roots match |
| TreeIndex.GraftWeight | monoxide/monoxideChain.go:78-81 | A new leaf adds one to the subtree size of exactly its ancestors and itself |
| TreeIndex.WeightsAfterGraft | monoxide/monoxideChain.go:78-81 | Counting up along the chain keeps all cached weights equal to subtree sizes |
| Quorum.Threshold | idChain/IdChain.go:99-102 | More than the faulty nodes, and reachable without them |
| Quorum.MaliciousIsLargest | idChain/IdChain.go:99-102 | The number of nodes that may be faulty is the largest f with n > 3f |
| Quorum.RunningNodeAmount | idChain/IdChain.go:109-117 | Counts exactly the running nodes |
| Quorum.QuorumsIntersect | idChain/IdChain.go:99-107 | Two vote sets of Threshold size share more than f nodes |
| Quorum.HonestInQuorum | idChain/IdChain.go:99-107 | A vote set of Threshold size holds at least Threshold minus f honest nodes |
| PbftReplica.ConPbft.ProposeNext | consensus_shard/pbft/Pbft1_Propose.go:9-31 | Takes the lock and keeps it only if a proposal went out under the current sequence number |
| PbftReplica.ConPbft.HandlePrePrepare | consensus_shard/pbft/Pbft2_PrePrepare.go:63-116 | The method's state and messages are those of the replica function used in the run proofs |
| PbftReplica.ConPbft.HandlePrepare | consensus_shard/pbft/Pbft3_Prepare.go:44-128 | Likewise, for every order of iterating the votes |
| PbftReplica.ConPbft.HandleCommit | consensus_shard/pbft/Pbft4_Commit.go:42-114 | Likewise |
| PbftReplica.ConPbft.ExecuteNext | consensus_shard/pbft/Pbft4_Commit.go:85-111 | Likewise for execution, sequence advance and release of the lock |
| PbftSafety.HandleMsgOk | consensus_shard/pbft/ConPbft.go:72-88 | No message, in no order, breaks what an honest replica keeps: its log is a prefix of the main's proposals, each entry committed to by Threshold nodes |
| PbftSafety.RunOk | consensus_shard/pbft/Pbft4_Commit.go:42-114 | The invariant holds in every state of every run with at most f arbitrary nodes other than the main |
| PbftSafety.Agreement | consensus_shard/pbft/Pbft4_Commit.go:84-98 | In every run, honest logs are gapless prefixes of the main's proposals, so of any two one is a prefix of the other |
| PbftSafety.SequenceGrows | consensus_shard/pbft/Pbft4_Commit.go:84-98 | One message executes at most one request, and sequence and log only move forward |
| PbftSafety.OneProposalPerSequence | consensus_shard/pbft/Pbft1_Propose.go:9-31 | The propose lock makes the main's proposal for a sequence number unique |
| PbftSafety.MainHoldsLock | consensus_shard/pbft/Pbft4_Commit.go:107-109 | The main holds the lock whenever it could execute, so it never releases a free one |
| PbftSafety.ExecutedIsAccepted | consensus_shard/pbft/Pbft3_Prepare.go:114-125 | An executed request was accepted under its own sequence number by at least Threshold minus f honest replicas |
| PbftUptake.HandleTakenUp | consensus_shard/pbft/Pbft4_Commit.go:84-110 | No message, in no order, makes a replica forget a proposal it has been given |
| PbftUptake.ProposalIsTakenUp | consensus_shard/pbft/Pbft4_Commit.go:101-106 | In every run a running honest replica that was given the main's proposal for its current number, then or early, has taken it up, and has answered it if it passed its check |
| PbftUptake.EarlyIsTakenUp | consensus_shard/pbft/Pbft4_Commit.go:84-107 | Executing takes a proposal that came early up under the next number, unprepared, and answers it |
| PbftProgress.EarlyResult | consensus_shard/pbft/Pbft2_PrePrepare.go:118-149 | The next proposal, come before the round is over, is kept and nothing else changes |
| PbftProgress.PrepareResult | consensus_shard/pbft/Pbft3_Prepare.go:44-128 | In any round, the handler waits below the quorum and commits with the vote that completes it |
| PbftProgress.CommitResult | consensus_shard/pbft/Pbft4_Commit.go:42-114 | In any round, the handler waits below the quorum and executes with the vote that completes it |
| PbftProgress.EndedIdle | consensus_shard/pbft/Pbft4_Commit.go:84-112 | After a round a replica is ready for the next one with nothing of the old one left in the way, and the main's lock is free |
| PbftProgress.QuorumExecutes | consensus_shard/pbft/Pbft4_Commit.go:56-114 | For every setting, every quorum of honest nodes with the main, every sequence of different requests, and every choice of nodes that get the next proposal early, there is a run with no message of a faulty node in which the whole quorum executes all requests in order |
| PbftProgress.QuorumExists | idChain/IdChain.go:99-107 | Such a quorum exists in every setting |
| CrossLock.CrossLockCom.Request | Comm/PyramidComm/CrossLock.go:74-86 | Starts a request: no acks, success assumed |
| CrossLock.CrossLockCom.Resume | Comm/PyramidComm/CrossLock.go:87-97 | After the first wait: blocks inner transactions and confirms, or releases |
| CrossLock.CrossLockCom.HandleRequestAtB | Comm/PyramidComm/CrossLock.go:110-134 | Counts an answer, remembers a refusal, and wakes the request when all have answered |
| CrossLock.CrossLockCom.HandleRequestAtI | Comm/PyramidComm/CrossLock.go:135-152 | Links and blocks if free, refuses otherwise |
| CrossLock.CrossLockCom.HandleResponseAtI | Comm/PyramidComm/CrossLock.go:217-232 | Ignores all but the linked shard; confirms or sets free |
| CrossLock.CrossLockCom.HandleResponseAtB | Comm/PyramidComm/CrossLock.go:203-216 | Takes over the top hash and wakes the request when all have locked |
| CrossLock.CrossLockCom.HandleOwnResponse | Comm/PyramidComm/CrossLock.go:194-202 | Lifts the block and the link |
| CrossLock.CrossLockCom.PopWhileBlocked | Comm/PyramidComm/CrossLock.go:237-251 | While inner transactions are blocked, the queue yields no proposal of normal or lower urgency |
| LockSafety.OwnerHolds | Comm/PyramidComm/CrossLock.go:74-153 | A b-shard past its first wait with success has every related i-shard held for it and blocked, and linked to it until it confirms |
| LockSafety.Exclusion | Comm/PyramidComm/CrossLock.go:74-233 | Two requests that share an i-shard are never both past that point |
| LockSafety.StepOk | Comm/PyramidComm/CrossLock.go:74-233 | Each of the eleven kinds of step keeps the invariant of all links, shards and counts |
| LockSafety.RunOk | Comm/PyramidComm/CrossLock.go:74-233 | So it holds in every state of every run, for any number of b- and i-shards |
| LockSafety.LockExclusion | Comm/PyramidComm/CrossLock.go:74-233 | In every run, until Threshold nodes have executed the first one's cross commit, no other request sharing an i-shard is past its first wait with success |
| LockSafety.FreedAfterThreshold | Comm/PyramidComm/CrossReply.go:31-50 | An i-shard about to release has been told by, and is preceded by, Threshold executions of the holder's block |
| LockSafety.DelayedIsLinked | Comm/PyramidComm/CrossLock.go:175-184 | The delayed response never finds the link missing |
| LockRelease.HeldForAReason | Comm/PyramidComm/CrossLock.go:219-231 | In every run, a held i-shard is held for the current request of its b-shard, or the release is on its way, or the request has become a cross block |
| LockRelease.BlockedForAReason | Comm/PyramidComm/CrossLock.go:236-254 | In every run, inner transactions of an i-shard are blocked exactly while it is held |
| LockRelease.ScheduledIff | Comm/PyramidComm/CrossReply.go:31-50 | In every run, the append of the block being processed is scheduled exactly when Threshold nodes have reported it |
| LockRelease.NoReportLost | Comm/PyramidComm/CrossReply.go:18-50 | In every run, the executions of the cross block an i-shard processes are all counted there or on their way to it |
| LockRelease.OwnBlockIff | Comm/PyramidComm/CrossLock.go:236-254 | In every run, a b-shard blocks its own inner transactions exactly from its confirmation to the execution of the cross block at its main |
| LockSafety.AppendParts | Opts/Op_PyAppendCrossBlock.go:34-46 | Appending the cross block and lifting the lock at an i-shard keeps the shards' part of the invariant |
| LockSafety.CommitReports | Opts/Op_PyCrossCommit.go:29-43 | Executing the cross commit at a node keeps reports and executions in step |
| LockExample.LockIsTaken | Comm/PyramidComm/CrossLock.go:74-152 | A run that puts a b-shard past its first wait with success, so the theorems speak of reachable states |
| ShardMains.IShardMain.Receive | Comm/PyramidComm/CrossLock.go:135-232 | The i-shard's handlers are the local part of a step of the runs |
| ShardMains.IShardMain.HandleReply | Comm/PyramidComm/CrossReply.go:31-50 | Counts a reported execution while a block is being processed and schedules the append at exactly the Threshold-th |
| ShardMains.IShardMain.ExecuteAppend | Opts/Op_PyAppendCrossBlock.go:34-46 | Ends the cross block and sets the shard free |
| ShardMains.BShardMain.Receive | Comm/PyramidComm/CrossLock.go:114-134 | The b-shard's handlers are the local part of a step of the runs |
| ShardMains.BShardMain.Resume | Comm/PyramidComm/CrossLock.go:87-99 | Confirms and waits again, or gives up and starts over |
| ShardMains.BShardMain.Schedule | Comm/PyramidComm/CrossLock.go:90-98 | Woken from the second wait, the cross block is scheduled |
| ShardMains.BShardMain.ExecuteCommit | Opts/Op_PyCrossCommit.go:34-40 | The main node's part of the cross commit lifts its own block |
| ProposalBuffer.RootIsLeast | Proposals/ProposalBuffer.go:61-64 | Heap order makes the first slot a least-priority proposal |
| ProposalBuffer.RiseOnce | Proposals/ProposalBuffer.go:75-86 | One upward swap moves the only violation to the father |
| ProposalBuffer.SinkOnce | Proposals/ProposalBuffer.go:106-121 | One downward swap with the smaller child moves the only violation to that child |
| ProposalBuffer.RemoveRoot | Proposals/ProposalBuffer.go:102-104 | Overwriting the root with the last proposal removes exactly the root |
| ProposalBuffer.ProposalBuffer.Push | Proposals/ProposalBuffer.go:70-87 | Keeps the heap and adds exactly one occurrence |
| ProposalBuffer.ProposalBuffer.Pop | Proposals/ProposalBuffer.go:89-124 | Nil if and only if every proposal is above the threshold; otherwise a least-priority one, removed once |
| ProposalBuffer.ProposalBuffer.SetPriority | Proposals/ProposalBuffer.go:25-27 | Keeps the heap if no queued proposal changes its priority |
| Content.EscapeTabIsOnePass | message/Content.go:11-15 | The two replacement passes are one per-byte escape |
| Content.ParseInverts | message/Content.go:66-94 | Parsing the encoding of any non-empty list of byte strings gives the list back |
| Content.AppendEncodes | message/Content.go:40-51 | Appending to an encoding gives the encoding of the longer list |
| Content.EncodingInjective | message/Content.go:31-38 | Two lists have the same encoding if and only if they are equal, the empty list and the list of one empty string aside |
| Content.CheckAfterSign | message/Content.go:96-122 | Checking a signed encoding returns the name and restores the encoding byte for byte |
| Content.CanonicalIff | message/Content.go:66-94 | The encodings of lists are exactly the byte strings in which every escape is followed by tab or backslash |
| Content.SignRestoresIff | message/Content.go:96-122 | For arbitrary content the bytes are restored if and only if every escape in them is followed by tab or backslash; then the name is returned too |
| Content.OpenEscapeIsLost | message/Content.go:76-82 | An escape left open at the end is lost |
| Content.ByteContent.Append | message/Content.go:40-51 | The loop appends the escaped strings in place |
| Content.ByteContent.ParseContent | message/Content.go:66-94 | The loop with the escape flag computes the parse |
| Content.ByteContent.SignWith | message/Content.go:96-99 | Appends the name to the content, which CheckSignature takes off again |
| Content.ByteContent.CheckSignature | message/Content.go:101-122 | Takes the last string off and re-encodes the others |
| Migration.UintRoundTrip | crypt/toolFuncs.go:12-24 | Eight big-endian bytes restore every 64-bit number |
| Migration.ParseMsgInverts | Comm/IdChainComm/Com_ProposalBufferMigrate.go:61-81 | A message is parsed to the proposals it holds if and only if it announces as many; one announcing more makes the receiver panic |
| Migration.SealIsTransparent | launch/msgLaunch.go:165-166 | Two signatures are taken off in reverse order and leave the content as it was |
| Migration.MigrationRoundTrip | Comm/IdChainComm/Com_ProposalBufferMigrate.go:41-81 | The two together: what is read out of the sealed message is what was put in |
| Migration.MigrateProCom.GenerateMsg | Comm/IdChainComm/Com_ProposalBufferMigrate.go:41-59 | Encodes all proposals the threshold lets out, in non-decreasing priority, and leaves exactly the others |
| Migration.MigrateProCom.ParseMessage | Comm/IdChainComm/Com_ProposalBufferMigrate.go:61-81 | The loops with a moving index compute the parse, an index out of range included |
| Migration.MigrateProCom.HandleRequest | Comm/IdChainComm/Com_ProposalBufferMigrate.go:83-97 | The new main queues exactly the parsed proposals |
| Migration.Migrate | Comm/IdChainComm/Com_ProposalBufferMigrate.go:26-97 | A migration succeeds if and only if the sender's threshold holds nothing back; then the sender ends empty and the receiver gains exactly its proposals |
| Graph.Dfs | config/pyramidConfig.go:24-32 | Marks only shards reachable from the start and leaves no neighbour of a newly marked one unmarked |
| Graph.CheckConnectivity | config/pyramidConfig.go:35-45 | No error if and only if shard 0 reaches every shard; otherwise the first it does not reach |
| Graph.FirstShortestIsUnique | config/pyramidConfig.go:81-128 | There is one first shortest road |
| BreadthFirst.RoadEnd | config/pyramidConfig.go:94-124 | Every road no longer than the depth of the queue's head ends at a shard already seen, no deeper than the road is long |
| BreadthFirst.PathIsFirst | config/pyramidConfig.go:116-123 | Among roads of its length, the path found turns to lower shards first |
| BreadthFirst.ArrivalIsFirstShortest | config/pyramidConfig.go:94-114 | The path at arrival is the first shortest road |
| BreadthFirst.SearchIsComplete | config/pyramidConfig.go:94-127 | A search that runs dry without the target proves that it cannot be reached |
| Routes.PyramidConfig.FindRoute | config/pyramidConfig.go:81-128 | Returns the first shortest road, compressed, or nothing if and only if there is none |
| Routes.PyramidConfig.Route | config/pyramidConfig.go:48-79 | A table entry exists exactly for pairs that are neither equal, linked nor jointly held, and is their route |
| Routes.PyramidConfig.InRoute | config/pyramidConfig.go:130-141 | True if and only if the shard holds a chain on the route |
| Routes.PyramidConfig.SplitRelay | Tx/transaction.go:144-153 | One relay for each hop of the route |
| Routes.CompressHop | config/pyramidConfig.go:105-112 | Every hop of the compressed path is a link, or skips one shard that holds both its ends |
| Routes.CompressCovers | config/pyramidConfig.go:105-112 | Of two neighbours on the path at least one survives |
| Routes.CompressIff | config/pyramidConfig.go:105-112 | An inner shard of the road is taken out if and only if it holds both its neighbours and the one before it stays |
| Routes.RouteIsDetermined | config/pyramidConfig.go:81-128 | The contract of FindRoute leaves no choice |
| Routes.RouteIsPackable | config/pyramidConfig.go:81-128 | A route keeps both ends, is no longer than any road, and some shard holds both ends of every hop |
| Relay.DefaultAddressInShard | config/pyramidConfig.go:184-200 | The default address of a shard belongs to that shard |
| Relay.RelaysReachRecipient | Tx/transaction.go:144-158 | On a connected graph the relays lead from the sender's to the recipient's shard, chain, keep value and nonce, and each can be packed; without a route, the transaction itself can be |
| Relay.NoRouteTaken | Tx/TxPool.go:59-62 | A transaction that needs no route is pooled as it is, exactly where its sender's or its recipient's chain is held |
| Relay.InnerTxIsTaken | Tx/TxPool.go:59-62 | So it is in the pool of some shard that can pack it |
| Relay.RelayIsTakenIff | Tx/TxPool.go:46-58 | Of a transaction that needs a route, a shard takes relays only, and takes one if and only if it holds an end of it and is on the route back |
| Relay.KeptHopIsTaken | Tx/TxPool.go:46-63 | For a transaction that needs a route: a pool that can pack a hop takes its relay if and only if some shard that holds both ends of the hop is also on the route back |
| Relay.OnlyInnerHopsAreLost | Tx/TxPool.go:46-57 | All hops of a transaction are kept if and only if all hops between inner shards are |
| Relay.EveryRelayTakenIff | Tx/TxPool.go:46-63 | On a connected graph every relay of a transaction is taken by a pool that can pack it if and only if each hop between inner shards has a holder of both ends on the route back |
| Relay.SameRoadKeepsHops | config/pyramidConfig.go:105-112 | If both directions take the same road, every hop is kept, although each direction compresses it differently |
| Relay.HopCanBeLost | Tx/TxPool.go:46-63 | A connected graph of six shards on which, whatever is sent from shard 0 to shard 1, the relay of one hop is taken by no pool that can pack it |
| CompactBits.RoundTripIff | crypt/Hash.go:46-97 | Decoding the encoding gives the target rounded down to a multiple of 256^(size-3) if and only if the size fits a byte |
| CompactBits.RoundingErrorSmall | crypt/Hash.go:59-66 | What rounding drops, times 2^15, is less than the target |
| CompactBits.CompactMonotone | crypt/Hash.go:46-79 | Encoding is monotone, and equal encodings mean equal rounded targets |
| CompactBits.ReencodeIsStable | crypt/Hash.go:46-97 | Encoding the decoded encoding gives it back |
| CompactBits.NormalisedRoundTripIff | crypt/Hash.go:82-97 | A 32-bit pattern survives decoding and encoding if and only if it is normalised |
| CompactBits.BigToCompact | crypt/Hash.go:46-79 | The code's steps, byte count first and sign-bit correction after, compute the encoding |
| CompactBits.CompactToBig | crypt/Hash.go:82-97 | The code's steps compute the decoding |
| CausalSync.DrainStep | Comm/PyramidComm/SyncIBlock.go:107-124 | Appending one ready block leaves exactly the other drainable blocks drainable, so the order does not matter |
| CausalSync.DrainedIsQuiet | Comm/PyramidComm/SyncIBlock.go:107-124 | Nothing is left to drain if and only if no block is ready |
| SyncIBlock.SweptOnce | Comm/PyramidComm/SyncIBlock.go:114-122 | One append followed by the recursive call is a complete causal sweep |
| SyncIBlock.SyncIBlockCom.CheckBlock | Comm/PyramidComm/SyncIBlock.go:107-124 | Terminates; appends each drainable block once, after its parent, with at least Threshold acks counted, and no other; leaves none ready |
| SyncIBlock.SyncIBlockCom.HandleRequest | Comm/PyramidComm/SyncIBlock.go:52-105 | Counts one ack, or rejects a block that does not fit; pending and finished hashes stay disjoint and no hash is appended twice in any run |
| SyncIBlock.PyrChain.Append | pyramid/PyrChain.go:174-185 | Stores the block and moves the shard's top if and only if its root matches |
| RoundRobin.FairIsUnique | Tx/TxPool.go:86-173 | The number taken from each list is determined by the total and by no list lagging more than its turn |
| RoundRobin.FlatChoiceIsUnique | Tx/TxPool.go:151-172 | The flat choice is determined, order included |
| RoundRobin.SameChoice | Tx/TxPool.go:86-173 | The flat choice holds exactly the beginnings that the choice list by list takes |
| RoundRobin.InterleavedIsPrefixes | Tx/TxPool.go:152-172 | The flat form holds exactly the beginnings of the lists |
| RoundRobin.SelectPerList | Tx/TxPool.go:102-122 | A beginning of each list, min(max, total) in all, fairly |
| RoundRobin.SelectFlat | Tx/TxPool.go:151-172 | The same choice, in round-robin order |
| TxPool.Pool.Append | Tx/TxPool.go:40-63 | Adds exactly what the pyramid rule takes, each transaction to the list of its shards |
| TxPool.Pool.FindBest | Tx/TxPool.go:269-288 | The first admissible shard that sends most, or -1 if there is none |
| TxPool.RowCountIsSent | Tx/TxPool.go:269-288 | What FindBest counts is the number of pooled transactions the shard sends |
| TxPool.Pool.PackageRelayTxs | Tx/TxPool.go:86-125 | A fair choice from the lists of the best shard |
| TxPool.Pool.PackageCrossTxs | Tx/TxPool.go:127-173 | A fair choice from exactly the lists between two different chains this shard holds |
| TxPool.RelayChoiceIsFair | Tx/TxPool.go:86-125 | Only pooled transactions of the row are packaged, none twice, and the number from each list is the fair one |
| TxPool.CrossChoiceIsHeld | Tx/TxPool.go:134-173 | Every packaged transaction is pooled and goes between two different chains this shard holds |
| MerkleRoot.GenMPTRoot | Tx/transaction.go:32-52 | Terminates and computes the root with the last hash doubled on odd levels |
| MerkleRoot.RootOfHalves | Tx/transaction.go:32-52 | The root of two lists of equal power-of-two length, one after the other, is the hash of their two roots in that order |
| MerkleRoot.EqualRootsCollide | Tx/transaction.go:32-52 | Two different lists of equal length and equal-sized entries with one root yield a collision of the hash among the strings hashed on the way |
| MerkleRoot.DoubledLastKeepsRoot | Tx/transaction.go:38-41 | Doubling the last of an odd number of entries keeps the root |
| MerkleRoot.BindsIff | Tx/transaction.go:32-52 | For every hash function: a root shared by different lists of m and n hashes always comes from a collision on the way to it if and only if m and n are equal or one is zero |
| MerkleRoot.VerifyRemoteBlock | Monosulfide/MonosulfideChain.go:202-213 | With the full number of sub-blocks, accepts if and only if the root is that of their hashes |
| MerkleRoot.SubBlockRootBindsHeads | Monosulfide/MonosulfideChain.go:202-213 | Two different lists of sub-block heads with one root yield a collision of the hash |

## Left out

- MonosulfideChain.MonosulfideChain.FindBestBranches: does not say that the tops are heaviest paths or a consistent cut, because a sibling whose references complete late can still be processed and overwrite the top (`LateSibling` gives the blocks); siblings that are ready together are decided for good.
- MonosulfideChain.MonosulfideChain.GenerateBlock: takes the packaged transactions, the block id and the shard as parameters; the mark for a finished run is not modelled.
- MonoxideChain.NothingLostIff: conservation fails for some blocks and is stated with its exact condition on the ledger before the call, because the losing branch of a fork removes the block's transactions and relay copies are made on tip extension only.
- PbftSafety.RunOk: assumes an honest main, because HandlePrePrepare processes a second proposal of the main for the same sequence number again.
- PbftSafety.ExecutedIsAccepted: does not claim Threshold matching commits or prepares for the executed request, because votes are counted by digest only, over all sequence numbers.
- PbftProgress.QuorumExecutes: the requests differ, because a digest that was broadcast once is never prepared again; that every run makes progress is not claimed.
- PbftReplica.ConPbft.HandlePrepare: all senders are running nodes; waiting and preparing nodes, view change, replies and resetting the sequence number are not modelled.
- LockSafety.RunOk: assumes FIFO links between the main nodes, as separate connections do not guarantee; that every request ends, random back-off and sleeping are not modelled.
- LockSafety.FreedAfterThreshold: each i-shard is one node, its main. The prepare phase of a cross block is one step per i-shard, and no node executes the cross commit before all related i-shards have taken it, which is what the acknowledgements in Comm/PyramidComm/CrossPrepare.go:76-92 wait for; an i-shard's own internal blocks are not modelled: they use the same processing block (Opts/Op_PyInternalTx.go:37, 48 and 60), and it is assumed that none is under way from the preparation of a cross block to its release, since inner proposals are blocked meanwhile and the response waits for the proposal in progress.
- CrossLock.CrossLockCom.Request: the two waits on the condition variable are the places between Request, Resume and the schedule step; a retry is a new request.
- ProposalBuffer.ProposalBuffer.SetPriority: says nothing when a queued proposal changes its priority, because the queue is not rearranged.
- Migration.Migrate: no push or pop runs meanwhile, and the message reaches the new main; a node that is not the main forwards it.
- Relay.HopCanBeLost: the exact condition (`KeptHopIsTaken`, `EveryRelayTakenIff`) looks at the route back; no condition on the graph alone is claimed.
- SyncIBlock.PyrChain.Append: the extra tops that a cross block moves, the pool and the storage are not modelled; acks are counted as the code does, by message and not by sender.
- TxPool.Pool.Append: the other two branches store the transaction itself and are not repeated here.
- CompactBits.BigToCompact: targets are not negative.
- MonosulfideChain.MonosulfideChain.AddTx: a pool is one set of transactions in this module.
- Fields that hold Go maps and slices are `map`, `seq` and `set` values that the methods reassign, so aliasing of stored blocks and slices is not modelled, nor is `Light`, which clears bodies in place.
- TCP, queues of outgoing messages, JSON and gob encodings, bolt storage, CSV output, RSA keys and the launch code: input and output.
- Mutexes and condition variables other than the propose lock: handlers are atomic steps.
- Balances, nonces, state roots and the validity of transactions: stubs in the source.
- IsValidBlock, PackageInnerTxs, PackageTxsFrom and the counters used for output: they would add only easy members.
