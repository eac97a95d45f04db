/** A run in which a b-shard takes its i-shard: the states that LockSafety speaks of are reached. */
module LockExample {
  import opened CrossLock
  import opened LockSafety
  import opened Quorum
  import opened Transactions

  // One b-shard, 0, of one node, which controls one i-shard, 1.
  const PAIR := Topology(map[0 := {1}], map[0 := 1])

  const LINK := Link(0, 1)

  function Pair(b: BShard, i: IShard, q: seq<ToI>, a: seq<ToB>): System {
    System(PAIR, map[0 := b], map[1 := i], map[LINK := q], map[LINK := a], {}, map[], map[])
  }

  const FIRST := Round(0, 1)
  const FREE := IShard(START, None, None, map[], 0)
  const HELD := IShard(Com({}, false, false, Some(0), true, 0, map[]), Some(FIRST), None, map[], 0)
  const ASKED := Com({}, true, true, None, false, 0, map[])

  lemma {:induction false} PairStarts()
    ensures Init(Pair(BShard(START, Idle, 0, 0), FREE, [], []))
  {
    assert PAIR.Ok();
  }

  lemma {:induction false} PairAsks()
    ensures var s := Pair(BShard(START, Idle, 0, 0), FREE, [], []);
            Enabled(s, Request(0)) && Do(s, Request(0)) == Pair(BShard(ASKED, Asking, 1, 0), FREE, [Ask(1)], [])
  {
    var s := Pair(BShard(START, Idle, 0, 0), FREE, [], []);
    var none: seq<ToI> := [];
    assert none + [Ask(1)] == [Ask(1)];
    assert Broadcast(s.toI, 0, Ask(1)) == map[LINK := [Ask(1)]];
  }

  lemma {:induction false} PairGrants()
    ensures var s := Pair(BShard(ASKED, Asking, 1, 0), FREE, [Ask(1)], []);
            Enabled(s, IReceives(LINK)) && Do(s, IReceives(LINK)) == Pair(BShard(ASKED, Asking, 1, 0), HELD, [], [Granted])
  {
    var none: seq<ToB> := [];
    assert none + [Granted] == [Granted];
    assert [Ask(1)][1..] == [];
  }

  lemma {:induction false} PairAnswers()
    ensures var s := Pair(BShard(ASKED, Asking, 1, 0), HELD, [], [Granted]);
            Enabled(s, BReceives(LINK)) && Do(s, BReceives(LINK)) == Pair(BShard(ASKED, Answered, 1, 0), HELD, [], [])
  {
    var (c, awake) := Answer(ASKED, 1, 1, true);
    assert ASKED.acks + {1} == {1} && awake;
  }

  // Request, grant and answer put the b-shard past its first wait with success.
  lemma {:induction false} LockIsTaken() returns (run: seq<System>, steps: seq<Step>)
    ensures IsRun(run, steps) && |run| == 4 && Shape(run[3]) && Owns(run[3], FIRST)
  {
    hide Init, Do, Enabled;
    PairStarts();
    PairAsks();
    PairGrants();
    PairAnswers();
    steps := [Request(0), IReceives(LINK), BReceives(LINK)];
    run := [Pair(BShard(START, Idle, 0, 0), FREE, [], []), Pair(BShard(ASKED, Asking, 1, 0), FREE, [Ask(1)], []),
            Pair(BShard(ASKED, Asking, 1, 0), HELD, [], [Granted]), Pair(BShard(ASKED, Answered, 1, 0), HELD, [], [])];
    assert PAIR.Ok();
  }
}
