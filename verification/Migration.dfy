/** Moving the unproposed proposals of a replaced main node to the new one
    (Comm/IdChainComm/Com_ProposalBufferMigrate.go), inside the signature envelope of the network. */
module Migration {
  import opened Content
  import opened ProposalBuffer
  import opened Transactions

  const UINT64_SIZE: int := 0x1_0000_0000_0000_0000

  // The k lowest bytes of n, most significant first.
  function BigEndian(n: nat, k: nat): (b: Bytes)
    ensures |b| == k
  {
    if k == 0 then [] else BigEndian(n / 256, k - 1) + [n % 256]
  }

  function BigEndianValue(b: Bytes): nat {
    if b == [] then 0 else 256 * BigEndianValue(b[..|b| - 1]) + b[|b| - 1]
  }

  function Pow256(k: nat): nat { if k == 0 then 1 else 256 * Pow256(k - 1) }

  lemma {:induction false} BigEndianRoundTrip(n: nat, k: nat)
    requires n < Pow256(k)
    ensures BigEndianValue(BigEndian(n, k)) == n
    decreases k
  {
    if k > 0 {
      BigEndianRoundTrip(n / 256, k - 1);
    }
  }

  function UintToBytes(n: nat): Bytes { BigEndian(n, 8) }

  // Reads eight bytes; the source panics when there are fewer.
  function BytesToUint(b: Bytes): Option<nat> {
    if |b| < 8 then None else Some(BigEndianValue(b[..8]))
  }

  lemma {:induction false} UintRoundTrip(n: nat)
    requires n < UINT64_SIZE
    ensures BytesToUint(UintToBytes(n)) == Some(n)
  {
    assert Pow256(8) == UINT64_SIZE by {
      assert Pow256(4) == 0x1_0000_0000;
    }
    BigEndianRoundTrip(n, 8);
    assert UintToBytes(n)[..8] == UintToBytes(n);
  }

  function OneProposal(p: Proposal): seq<Bytes> { [p.reqType, UintToBytes(|p.vars|)] + p.vars }

  function Serialised(ps: seq<Proposal>): seq<Bytes> {
    if ps == [] then [] else Serialised(ps[..|ps| - 1]) + OneProposal(ps[|ps| - 1])
  }

  // The strings of a migration message that announces num proposals and holds ps.
  function MessageStrings(num: nat, ps: seq<Proposal>): seq<Bytes> { [UintToBytes(num)] + Serialised(ps) }

  // The lengths of Go slices fit 64 bits.
  predicate Encodable(p: Proposal) { |p.vars| < UINT64_SIZE }

  // The proposal at contents[cnt..] and the index behind it; None is an index out of range.
  function ParseOne(contents: seq<Bytes>, cnt: nat): Option<(Proposal, nat)> {
    if cnt + 1 >= |contents| then None
    else
      match BytesToUint(contents[cnt + 1])
      case None => None
      case Some(n) =>
        if cnt + 2 + n > |contents| then None
        else Some((Proposal(contents[cnt], contents[cnt + 2..cnt + 2 + n]), cnt + 2 + n))
  }

  // The first amount proposals of a message, and the index behind them.
  function ParseMany(contents: seq<Bytes>, amount: nat): Option<(seq<Proposal>, nat)> {
    if amount == 0 then Some(([], 1))
    else
      match ParseMany(contents, amount - 1)
      case None => None
      case Some((ps, cnt)) =>
        match ParseOne(contents, cnt)
        case None => None
        case Some((p, next)) => Some((ps + [p], next))
  }

  function ParseMsg(contents: seq<Bytes>): Option<seq<Proposal>> {
    if contents == [] then None
    else
      match BytesToUint(contents[0])
      case None => None
      case Some(amount) => Proposals(ParseMany(contents, amount))
  }

  function Proposals(r: Option<(seq<Proposal>, nat)>): Option<seq<Proposal>> {
    match r case None => None case Some((ps, _)) => Some(ps)
  }

  lemma {:induction false} FailureStays(contents: seq<Bytes>, k: nat, n: nat)
    requires k <= n && ParseMany(contents, k) == None
    ensures ParseMany(contents, n) == None
    decreases n
  {
    if k < n {
      FailureStays(contents, k, n - 1);
    }
  }

  lemma {:induction false} ParseOneInverts(head: seq<Bytes>, p: Proposal, rest: seq<Bytes>)
    requires Encodable(p)
    ensures ParseOne(head + OneProposal(p) + rest, |head|) == Some((p, |head| + |OneProposal(p)|))
  {
    hide UintToBytes, BytesToUint;
    var c := head + OneProposal(p) + rest;
    UintRoundTrip(|p.vars|);
    assert c[|head| + 2..|head| + 2 + |p.vars|] == p.vars;
  }

  lemma {:induction false} ParseManyInverts(first: Bytes, ps: seq<Proposal>, rest: seq<Bytes>)
    requires forall p <- ps :: Encodable(p)
    ensures ParseMany([first] + Serialised(ps) + rest, |ps|) == Some((ps, 1 + |Serialised(ps)|))
    decreases |ps|
  {
    hide ParseOne, OneProposal;
    if ps != [] {
      var most, p := ps[..|ps| - 1], ps[|ps| - 1];
      var head := [first] + Serialised(most);
      SplitLast(first, ps, rest);
      ParseManyInverts(first, most, OneProposal(p) + rest);
      ParseOneInverts(head, p, rest);
    } else {
      assert Serialised(ps) == [];
    }
  }

  lemma {:induction false} SplitLast(first: Bytes, ps: seq<Proposal>, rest: seq<Bytes>)
    requires ps != []
    ensures var most, p := ps[..|ps| - 1], ps[|ps| - 1];
            var head := [first] + Serialised(most);
            && [first] + Serialised(ps) + rest == head + (OneProposal(p) + rest) == head + OneProposal(p) + rest
            && |head| + |OneProposal(p)| == 1 + |Serialised(ps)| && most + [p] == ps
  {
    hide OneProposal;
  }

  // A message is understood exactly when it announces as many proposals as it holds; one that
  // announces more makes the receiver panic.
  lemma {:induction false} ParseMsgInverts(num: nat, ps: seq<Proposal>)
    requires |ps| <= num < UINT64_SIZE && forall p <- ps :: Encodable(p)
    ensures ParseMsg(MessageStrings(num, ps)) == if num == |ps| then Some(ps) else None
  {
    hide UintToBytes, BytesToUint, Serialised, ParseMany;
    var c := MessageStrings(num, ps);
    UintRoundTrip(num);
    ParseManyInverts(UintToBytes(num), ps, []);
    assert c + [] == c;
    if num > |ps| {
      NothingBehind(c, |ps|);
      FailureStays(c, |ps| + 1, num);
    }
  }

  lemma {:induction false} NothingBehind(contents: seq<Bytes>, k: nat)
    requires var r := ParseMany(contents, k); r.Some? && r.value.1 == |contents|
    ensures ParseMany(contents, k + 1) == None
  {
  }

  // The network signs with the name of the node, then with the id of the consensus; the receiver
  // takes both off again.
  function Sealed(content: Bytes, name: Bytes, conId: Bytes): Bytes { Sign(Sign(content, name), conId) }

  function Unsealed(content: Bytes): Bytes { CheckSign(CheckSign(content).1).1 }

  lemma {:induction false} SealIsTransparent(msgs: seq<Bytes>, name: Bytes, conId: Bytes)
    requires msgs != []
    ensures var s := Sealed(NewByteContent(msgs), name, conId);
            && CheckSign(s).0 == conId && CheckSign(CheckSign(s).1).0 == name
            && Unsealed(s) == NewByteContent(msgs)
  {
    hide Sign, CheckSign, NewByteContent;
    SignEncodes(msgs, name);
    CheckAfterSign(msgs + [name], conId);
    CheckAfterSign(msgs, name);
  }

  // What the receiver reads out of the sealed message is what was put in.
  lemma {:induction false} MigrationRoundTrip(num: nat, ps: seq<Proposal>, name: Bytes, conId: Bytes)
    requires |ps| <= num < UINT64_SIZE && forall p <- ps :: Encodable(p)
    ensures var received := Unsealed(Sealed(NewByteContent(MessageStrings(num, ps)), name, conId));
            ParseMsg(Parse(received)) == if num == |ps| then Some(ps) else None
  {
    hide Sealed, Unsealed, Parse, NewByteContent, ParseMsg, UintToBytes;
    var strings := MessageStrings(num, ps);
    SealIsTransparent(strings, name, conId);
    ParseInverts(strings);
    ParseMsgInverts(num, ps);
  }

  predicate Sorted(ps: seq<Proposal>, priority: map<Bytes, int>) {
    forall i, j | 0 <= i < j < |ps| :: Prio(priority, ps[i]) <= Prio(priority, ps[j])
  }

  // ps were popped in order of urgency and none is held back; those left are no more urgent.
  ghost predicate PoppedFirst(ps: seq<Proposal>, left: multiset<Proposal>, priority: map<Bytes, int>, threshold: int) {
    && Sorted(ps, priority)
    && (forall p <- ps :: Prio(priority, p) <= threshold)
    && (forall p, q | p in ps && q in left :: Prio(priority, p) <= Prio(priority, q))
  }

  lemma {:induction false} NothingPopped(left: multiset<Proposal>, priority: map<Bytes, int>, threshold: int)
    ensures PoppedFirst([], left, priority, threshold)
  {
  }

  lemma {:induction false} PoppedSorted(ps: seq<Proposal>, left: multiset<Proposal>, priority: map<Bytes, int>, threshold: int)
    requires PoppedFirst(ps, left, priority, threshold)
    ensures Sorted(ps, priority) && forall p <- ps :: Prio(priority, p) <= threshold
  {
  }

  lemma {:induction false} PopNext(ps: seq<Proposal>, p: Proposal, left: multiset<Proposal>, priority: map<Bytes, int>, threshold: int)
    requires PoppedFirst(ps, left, priority, threshold) && p in left && Prio(priority, p) <= threshold
    requires forall q <- left :: Prio(priority, p) <= Prio(priority, q)
    ensures PoppedFirst(ps + [p], left - multiset{p}, priority, threshold)
    ensures multiset(ps + [p]) + (left - multiset{p}) == multiset(ps) + left
  {
    hide Prio;
    assert multiset(ps + [p]) == multiset(ps) + multiset{p};
    forall q | q in left - multiset{p} ensures q in left {}
  }

  // The next proposal popped is appended to those already written.
  lemma {:induction false} WriteOne(num: nat, ps: seq<Proposal>, p: Proposal)
    ensures AppendByteContent(AppendByteContent(AppendByteContent(NewByteContent(MessageStrings(num, ps)),
              [p.reqType]), [UintToBytes(|p.vars|)]), p.vars) == NewByteContent(MessageStrings(num, ps + [p]))
  {
    hide AppendByteContent, NewByteContent, UintToBytes;
    var s := MessageStrings(num, ps);
    AppendEncodes(s, [p.reqType]);
    AppendEncodes(s + [p.reqType], [UintToBytes(|p.vars|)]);
    AppendEncodes(s + [p.reqType] + [UintToBytes(|p.vars|)], p.vars);
    assert (ps + [p])[..|ps|] == ps;
    assert s + [p.reqType] + [UintToBytes(|p.vars|)] + p.vars == MessageStrings(num, ps + [p]);
  }

  class MigrateProCom {
    const buffer: ProposalBuffer

    constructor (buffer: ProposalBuffer)
      ensures this.buffer == buffer
    {
      this.buffer := buffer;
    }

    // Pops every proposal that the threshold lets out; ps are those, in the order of popping.
    method GenerateMsg(num: nat) returns (content: Bytes, ghost ps: seq<Proposal>)
      requires buffer.Valid()
      modifies buffer`pros
      ensures buffer.Valid()
      ensures content == NewByteContent(MessageStrings(num, ps))
      ensures Sorted(ps, buffer.priority)
      ensures multiset(ps) + Contents(buffer.pros) == old(Contents(buffer.pros))
      ensures forall p <- ps :: Prio(buffer.priority, p) <= buffer.priorThreshold
      ensures forall p <- Contents(buffer.pros) :: Prio(buffer.priority, p) > buffer.priorThreshold
    {
      hide Contents, NewByteContent, AppendByteContent, UintToBytes, MessageStrings, PoppedFirst, Prio;
      content := NewByteContent([UintToBytes(num)]);
      ps := [];
      EmptyMessage(num);
      NothingPopped(Contents(buffer.pros), buffer.priority, buffer.priorThreshold);
      while true
        invariant buffer.Valid()
        invariant content == NewByteContent(MessageStrings(num, ps))
        invariant PoppedFirst(ps, Contents(buffer.pros), buffer.priority, buffer.priorThreshold)
        invariant multiset(ps) + Contents(buffer.pros) == old(Contents(buffer.pros))
        decreases |Contents(buffer.pros)|
      {
        ghost var before := Contents(buffer.pros);
        var pro := buffer.Pop();
        if pro == None {
          PoppedSorted(ps, before, buffer.priority, buffer.priorThreshold);
          break;
        }
        var p := pro.value;
        content := AppendByteContent(content, [p.reqType]);
        content := AppendByteContent(content, [UintToBytes(|p.vars|)]);
        content := AppendByteContent(content, p.vars);
        WriteOne(num, ps, p);
        PopNext(ps, p, before, buffer.priority, buffer.priorThreshold);
        assert |before - multiset{p}| == |before| - 1;
        ps := ps + [p];
      }
    }

    // The strings of a received message, parsed with a moving index; None is a panic.
    method ParseMessage(contents: seq<Bytes>) returns (r: Option<seq<Proposal>>)
      ensures r == ParseMsg(contents)
    {
      hide BytesToUint;
      if |contents| == 0 {
        return None;
      }
      var amount := BytesToUint(contents[0]);
      if amount == None {
        return None;
      }
      var cnt := 1;
      var proposals: seq<Proposal> := [];
      var i := 0;
      while i < amount.value
        invariant 0 <= i <= amount.value
        invariant ParseMany(contents, i) == Some((proposals, cnt))
      {
        var p := ParseAt(contents, cnt);
        if p == None {
          FailureStays(contents, i + 1, amount.value);
          return None;
        }
        proposals := proposals + [p.value.0];
        cnt := p.value.1;
        i := i + 1;
      }
      return Some(proposals);
    }

    // One round of the loop above: request type, number of parameters, parameters.
    method ParseAt(contents: seq<Bytes>, start: nat) returns (r: Option<(Proposal, nat)>)
      ensures r == ParseOne(contents, start)
    {
      hide BytesToUint;
      var cnt := start;
      if cnt >= |contents| {
        return None;
      }
      var reqType := contents[cnt];
      var vars: seq<Bytes> := [];
      cnt := cnt + 1;
      if cnt >= |contents| {
        return None;
      }
      var read := BytesToUint(contents[cnt]);
      if read == None {
        return None;
      }
      var paramAmount := read.value;
      cnt := cnt + 1;
      while paramAmount != 0
        invariant start + 2 <= cnt <= |contents| && paramAmount >= 0
        invariant cnt + paramAmount == start + 2 + read.value && vars == contents[start + 2..cnt]
        decreases paramAmount
      {
        paramAmount := paramAmount - 1;
        if cnt >= |contents| {
          return None;
        }
        vars := vars + [contents[cnt]];
        cnt := cnt + 1;
      }
      return Some((Proposal(reqType, vars), cnt));
    }

    // The old main node's side; nothing is sent while it is still the main node.
    method Request(isMain: bool, name: Bytes, conId: Bytes) returns (sent: Option<Bytes>, ghost ps: seq<Proposal>)
      requires buffer.Valid()
      modifies buffer`pros
      ensures buffer.Valid()
      ensures isMain ==> sent == None && ps == [] && buffer.pros == old(buffer.pros)
      ensures !isMain ==>
                && sent == Some(Sealed(NewByteContent(MessageStrings(|old(Contents(buffer.pros))|, ps)), name, conId))
                && Sorted(ps, buffer.priority)
                && multiset(ps) + Contents(buffer.pros) == old(Contents(buffer.pros))
                && (forall p <- ps :: Prio(buffer.priority, p) <= buffer.priorThreshold)
                && (forall p <- Contents(buffer.pros) :: Prio(buffer.priority, p) > buffer.priorThreshold)
    {
      hide Contents, Sealed, MessageStrings, NewByteContent;
      if isMain {
        return None, [];
      }
      var amount := buffer.Amount();
      var content, popped := GenerateMsg(amount);
      ps := popped;
      sent := Some(Sealed(content, name, conId));
    }

    // The new main node's side: the proposals are queued; None is a panic. Another node forwards.
    method HandleRequest(content: Bytes, isMain: bool) returns (queued: Option<seq<Proposal>>)
      requires buffer.Valid()
      modifies buffer`pros
      ensures buffer.Valid()
      ensures queued == if isMain then ParseMsg(Parse(content)) else Some([])
      ensures Contents(buffer.pros) ==
                old(Contents(buffer.pros)) + (if queued.Some? then multiset(queued.value) else multiset{})
    {
      hide Contents, ParseMsg, Parse;
      if !isMain {
        return Some([]);
      }
      queued := ParseMessage(Parse(content));
      if queued == None {
        return;
      }
      var ps := queued.value;
      assert ps[..0] == [];
      for i := 0 to |ps|
        invariant buffer.Valid()
        invariant Contents(buffer.pros) == old(Contents(buffer.pros)) + multiset(ps[..i])
      {
        buffer.Push(ps[i]);
        assert ps[..i + 1] == ps[..i] + [ps[i]];
      }
      assert ps[..|ps|] == ps;
    }
  }

  lemma {:induction false} EmptyMessage(num: nat)
    ensures NewByteContent([UintToBytes(num)]) == NewByteContent(MessageStrings(num, []))
  {
    hide UintToBytes, NewByteContent;
    assert MessageStrings(num, []) == [UintToBytes(num)];
  }

  // A whole migration: it goes through exactly when the sender's threshold holds nothing back, and
  // then moves the sender's proposals to the receiver.
  method Migrate(from: MigrateProCom, to: MigrateProCom, name: Bytes, conId: Bytes) returns (moved: bool)
    requires from.buffer != to.buffer && from.buffer.Valid() && to.buffer.Valid()
    requires |Contents(from.buffer.pros)| < UINT64_SIZE && forall p <- Contents(from.buffer.pros) :: Encodable(p)
    modifies from.buffer`pros, to.buffer`pros
    ensures from.buffer.Valid() && to.buffer.Valid()
    ensures moved <==> forall p <- old(Contents(from.buffer.pros)) :: Prio(from.buffer.priority, p) <= from.buffer.priorThreshold
    ensures moved ==> Contents(from.buffer.pros) == multiset{}
    ensures Contents(to.buffer.pros) ==
              old(Contents(to.buffer.pros)) + (if moved then old(Contents(from.buffer.pros)) else multiset{})
  {
    hide Contents, Sealed, Unsealed, Parse, NewByteContent, MessageStrings, ParseMsg;
    ghost var all := Contents(from.buffer.pros);
    var sent, ps := from.Request(false, name, conId);
    ghost var left := Contents(from.buffer.pros);
    assert |ps| + |left| == |all| by { assert |multiset(ps) + left| == |all|; }
    forall p | p in ps ensures Encodable(p) {
      assert p in multiset(ps) + left;
    }
    MigrationRoundTrip(|all|, ps, name, conId);
    var queued := to.HandleRequest(Unsealed(sent.value), true);
    moved := queued.Some?;
    if |ps| == |all| {
      assert left == multiset{};
      assert multiset(ps) == all;
    } else {
      assert left != multiset{};
      var p :| p in left;
      assert p in multiset(ps) + left;
    }
  }
}
