/** The message codec (message/Content.go): a list of byte strings joined by tabs, with tab and
    backslash escaped by a backslash. */
module Content {
  type Byte = b: int | 0 <= b < 256
  type Bytes = seq<Byte>

  const ESC: Byte := 92
  const TAB: Byte := 9

  // Every occurrence of the byte c becomes r.
  function ReplaceAll(s: Bytes, c: Byte, r: Bytes): Bytes {
    if s == [] then [] else ReplaceAll(s[..|s| - 1], c, r) + (if s[|s| - 1] == c then r else [s[|s| - 1]])
  }

  // First all backslashes are doubled, then all tabs get a backslash.
  function EscapeTab(s: Bytes): Bytes {
    ReplaceAll(ReplaceAll(s, ESC, [ESC, ESC]), TAB, [ESC, TAB])
  }

  // The same in one pass: tab and backslash get a backslash, all other bytes stay.
  function Escape(s: Bytes): Bytes {
    if s == [] then [] else Escape(s[..|s| - 1]) + EscapeByte(s[|s| - 1])
  }

  function EscapeByte(b: Byte): Bytes {
    if b == ESC || b == TAB then [ESC, b] else [b]
  }

  lemma {:induction false} ReplaceAllAppend(s: Bytes, t: Bytes, c: Byte, r: Bytes)
    ensures ReplaceAll(s + t, c, r) == ReplaceAll(s, c, r) + ReplaceAll(t, c, r)
  {
    if t == [] {
      assert s + t == s;
    } else {
      ReplaceAllAppend(s, t[..|t| - 1], c, r);
      assert (s + t)[..|s + t| - 1] == s + t[..|t| - 1];
    }
  }

  function Doubled(b: Byte): Bytes {
    if b == ESC then [ESC, ESC] else [b]
  }

  lemma {:induction false} ReplaceOne(b: Byte, c: Byte, r: Bytes)
    ensures ReplaceAll([b], c, r) == if b == c then r else [b]
  {
    assert [b][..0] == [];
    assert ReplaceAll([b][..0], c, r) == [];
  }

  lemma {:induction false} TwoPassesOnByte(b: Byte)
    ensures ReplaceAll(Doubled(b), TAB, [ESC, TAB]) == EscapeByte(b)
  {
    ReplaceOne(b, TAB, [ESC, TAB]);
    if b == ESC {
      ReplaceAllAppend([ESC], [ESC], TAB, [ESC, TAB]);
      assert [ESC] + [ESC] == [ESC, ESC];
    }
  }

  lemma {:induction false} EscapeTabIsOnePass(s: Bytes)
    ensures EscapeTab(s) == Escape(s)
  {
    if s != [] {
      var rest, b := s[..|s| - 1], s[|s| - 1];
      EscapeTabIsOnePass(rest);
      ReplaceAllAppend(ReplaceAll(rest, ESC, [ESC, ESC]), Doubled(b), TAB, [ESC, TAB]);
      TwoPassesOnByte(b);
      assert ReplaceAll(s, ESC, [ESC, ESC]) == ReplaceAll(rest, ESC, [ESC, ESC]) + Doubled(b);
    }
  }

  function Join(parts: seq<Bytes>): Bytes {
    if parts == [] then []
    else if |parts| == 1 then parts[0]
    else Join(parts[..|parts| - 1]) + [TAB] + parts[|parts| - 1]
  }

  function EscapeAll(msgs: seq<Bytes>): seq<Bytes> {
    seq(|msgs|, i requires 0 <= i < |msgs| => EscapeTab(msgs[i]))
  }

  function NewByteContent(msgs: seq<Bytes>): Bytes { Join(EscapeAll(msgs)) }

  function AppendByteContent(content: Bytes, msgs: seq<Bytes>): Bytes {
    if msgs == [] then content else content + [TAB] + Join(EscapeAll(msgs))
  }

  // The parser after some input: the strings so far, and whether the last byte was an open escape.
  datatype Parser = Parser(msgs: seq<Bytes>, escMod: bool)

  const START := Parser([[]], false)

  function Extend(msgs: seq<Bytes>, b: Byte): seq<Bytes>
    requires msgs != []
  {
    msgs[|msgs| - 1 := msgs[|msgs| - 1] + [b]]
  }

  // An escape that is not followed by tab or backslash stays open.
  function Feed(p: Parser, b: Byte): (p': Parser)
    requires p.msgs != []
    ensures p'.msgs != []
  {
    if b == ESC then
      if p.escMod then Parser(Extend(p.msgs, b), false) else Parser(p.msgs, true)
    else if b == TAB then
      if p.escMod then Parser(Extend(p.msgs, b), false) else Parser(p.msgs + [[]], false)
    else Parser(Extend(p.msgs, b), p.escMod)
  }

  function Run(p: Parser, s: Bytes): (p': Parser)
    requires p.msgs != []
    ensures p'.msgs != []
  {
    if s == [] then p else Feed(Run(p, s[..|s| - 1]), s[|s| - 1])
  }

  function Parse(s: Bytes): seq<Bytes> { Run(START, s).msgs }

  lemma {:induction false} RunAppend(p: Parser, s: Bytes, t: Bytes)
    requires p.msgs != []
    ensures Run(p, s + t) == Run(Run(p, s), t)
  {
    if t == [] {
      assert s + t == s;
    } else {
      RunAppend(p, s, t[..|t| - 1]);
      assert (s + t)[..|s + t| - 1] == s + t[..|t| - 1];
    }
  }

  // Reading an escaped string adds exactly that string to the last one.
  lemma {:induction false} RunEscaped(msgs: seq<Bytes>, s: Bytes)
    requires msgs != []
    ensures Run(Parser(msgs, false), Escape(s)) == Parser(msgs[|msgs| - 1 := msgs[|msgs| - 1] + s], false)
  {
    hide Feed, EscapeByte;
    if s == [] {
      assert msgs[|msgs| - 1] + s == msgs[|msgs| - 1];
    } else {
      var rest, b := s[..|s| - 1], s[|s| - 1];
      RunEscaped(msgs, rest);
      var p := Run(Parser(msgs, false), Escape(rest));
      RunAppend(Parser(msgs, false), Escape(rest), EscapeByte(b));
      RunByte(p, b);
      assert msgs[|msgs| - 1] + rest + [b] == msgs[|msgs| - 1] + s by { assert rest + [b] == s; }
    }
  }

  lemma {:induction false} RunByte(p: Parser, b: Byte)
    requires p.msgs != [] && !p.escMod
    ensures Run(p, EscapeByte(b)) == Parser(Extend(p.msgs, b), false)
  {
    if b == ESC || b == TAB {
      assert [ESC] + [b] == [ESC, b];
      RunAppend(p, [ESC], [b]);
      RunOne(p, ESC);
      RunOne(Parser(p.msgs, true), b);
    } else {
      RunOne(p, b);
    }
  }

  lemma {:induction false} EncodeLast(msgs: seq<Bytes>, last: Bytes)
    requires msgs != []
    ensures NewByteContent(msgs + [last]) == NewByteContent(msgs) + [TAB] + EscapeTab(last)
  {
    hide EscapeTab;
    var longer := EscapeAll(msgs + [last]);
    assert longer[..|msgs|] == EscapeAll(msgs);
    assert longer[|msgs|] == EscapeTab(last);
  }

  lemma {:induction false} EncodeOne(msg: Bytes)
    ensures NewByteContent([msg]) == EscapeTab(msg)
  {
    hide EscapeTab;
    assert EscapeAll([msg]) == [EscapeTab(msg)];
  }

  lemma {:induction false} RunOne(p: Parser, b: Byte)
    requires p.msgs != []
    ensures Run(p, [b]) == Feed(p, b)
  {
    hide Feed;
    assert [b][..0] == [];
    assert Run(p, [b][..0]) == p;
  }

  // Parsing an encoded list gives the list back.
  lemma {:induction false} ParseInverts(msgs: seq<Bytes>)
    requires msgs != []
    ensures Run(START, NewByteContent(msgs)) == Parser(msgs, false)
    ensures Parse(NewByteContent(msgs)) == msgs
  {
    hide Run, EscapeTab, Escape, NewByteContent;
    var n := |msgs| - 1;
    var rest, last := msgs[..n], msgs[n];
    EscapeTabIsOnePass(last);
    var empty: Bytes := [];
    assert empty + last == last;
    if n == 0 {
      EncodeOne(last);
      RunEscaped([[]], last);
      assert msgs == [last] == [empty][0 := empty + last];
    } else {
      ParseInverts(rest);
      assert rest + [last] == msgs;
      EncodeLast(rest, last);
      var content := NewByteContent(rest);
      RunAppend(START, content + [TAB], Escape(last));
      RunAppend(START, content, [TAB]);
      RunOne(Parser(rest, false), TAB);
      RunEscaped(rest + [[]], last);
      assert (rest + [empty])[n := empty + last] == msgs;
    }
  }

  // Appending to encoded content encodes the longer list.
  lemma {:induction false} AppendEncodes(a: seq<Bytes>, b: seq<Bytes>)
    requires a != []
    ensures AppendByteContent(NewByteContent(a), b) == NewByteContent(a + b)
    decreases |b|
  {
    hide EscapeTab;
    if b == [] {
      assert a + b == a;
    } else {
      var n := |b| - 1;
      var rest, last := b[..n], b[n];
      assert a + b == a + rest + [last] && b == rest + [last];
      AppendEncodes(a, rest);
      EncodeLast(a + rest, last);
      if n == 0 {
        assert a + rest == a && b == [last];
        EncodeOne(last);
      } else {
        EncodeLast(rest, last);
        AppendSplit(NewByteContent(a), NewByteContent(rest), EscapeTab(last));
      }
    }
  }

  lemma {:induction false} AppendSplit(a: Bytes, b: Bytes, c: Bytes)
    ensures a + [TAB] + (b + [TAB] + c) == (a + [TAB] + b) + [TAB] + c
  {
  }

  // The empty list and the list of one empty string have the same encoding; all others differ.
  lemma {:induction false} EncodingInjective(a: seq<Bytes>, b: seq<Bytes>)
    ensures NewByteContent(a) == NewByteContent(b) <==> a == b || (a in {[], [[]]} && b in {[], [[]]})
  {
    EmptyEncoding();
    ParseInverts(if a == [] then [[]] else a);
    ParseInverts(if b == [] then [[]] else b);
  }

  lemma {:induction false} EmptyEncoding()
    ensures NewByteContent([]) == NewByteContent([[]]) == []
  {
    assert EscapeAll([[]]) == [[]];
  }

  function Sign(content: Bytes, name: Bytes): Bytes { AppendByteContent(content, [name]) }

  const ERROR: Bytes := [69, 82, 82, 79, 82]

  // Takes the last string off as the signature and encodes the others again.
  function CheckSign(content: Bytes): (Bytes, Bytes) {
    if content == [] then (ERROR, content)
    else
      var contents := Parse(content);
      var rest := if |contents| > 1 then contents[1..|contents| - 1] else [];
      (contents[|contents| - 1], AppendAll(NewByteContent([contents[0]]), rest))
  }

  // One AppendByteContent per string.
  function AppendAll(content: Bytes, msgs: seq<Bytes>): Bytes {
    if msgs == [] then content else AppendByteContent(AppendAll(content, msgs[..|msgs| - 1]), [msgs[|msgs| - 1]])
  }

  lemma {:induction false} AppendAllEncodes(a: seq<Bytes>, b: seq<Bytes>)
    requires a != []
    ensures AppendAll(NewByteContent(a), b) == NewByteContent(a + b)
    decreases |b|
  {
    if b == [] {
      assert a + b == a;
    } else {
      var n := |b| - 1;
      AppendAllEncodes(a, b[..n]);
      AppendEncodes(a + b[..n], [b[n]]);
      assert a + b[..n] + [b[n]] == a + b;
    }
  }

  // Content that is the encoding of some list.
  predicate Canonical(content: Bytes) { content == NewByteContent(Parse(content)) }

  lemma {:induction false} EncodedIsCanonical(msgs: seq<Bytes>)
    ensures Canonical(NewByteContent(msgs))
  {
    EmptyEncoding();
    ParseInverts(if msgs == [] then [[]] else msgs);
  }

  lemma {:induction false} SignEncodes(msgs: seq<Bytes>, name: Bytes)
    requires msgs != []
    ensures Sign(NewByteContent(msgs), name) == NewByteContent(msgs + [name])
    ensures Sign(NewByteContent(msgs), name) != []
  {
    AppendEncodes(msgs, [name]);
  }

  // Checking a signed encoding returns the name and restores the encoding byte for byte.
  lemma {:induction false} CheckAfterSign(msgs: seq<Bytes>, name: Bytes)
    ensures CheckSign(Sign(NewByteContent(msgs), name)) == (name, NewByteContent(msgs))
  {
    EmptyEncoding();
    var m := if msgs == [] then [[]] else msgs;
    SignEncodes(m, name);
    ParseInverts(m + [name]);
    AppendAllEncodes([m[0]], m[1..]);
    assert [m[0]] + m[1..] == m;
    assert (m + [name])[1..|m|] == m[1..];
  }

  // Every escape is followed by tab or backslash; esc says that one is open in front of c.
  predicate Closed(c: Bytes, esc: bool) {
    if c == [] then !esc
    else if esc then c[0] in {ESC, TAB} && Closed(c[1..], false)
    else Closed(c[1..], c[0] == ESC)
  }

  lemma {:induction false} ClosedAppend(a: Bytes, b: Bytes, esc: bool)
    requires Closed(a, esc) && Closed(b, false)
    ensures Closed(a + b, esc)
  {
    if a == [] {
      assert a + b == b;
    } else {
      ClosedAppend(a[1..], b, !esc && a[0] == ESC);
      assert (a + b)[1..] == a[1..] + b;
    }
  }

  lemma {:induction false} EscapedIsClosed(s: Bytes)
    ensures Closed(Escape(s), false)
  {
    if s != [] {
      var b := s[|s| - 1];
      EscapedIsClosed(s[..|s| - 1]);
      assert Closed([], false);
      assert [b][1..] == [] && [ESC, b][1..] == [b];
      ClosedAppend(Escape(s[..|s| - 1]), EscapeByte(b), false);
    }
  }

  lemma {:induction false} EncodingIsClosed(msgs: seq<Bytes>)
    ensures Closed(NewByteContent(msgs), false)
  {
    hide EscapeTab, Escape, NewByteContent;
    if msgs == [] {
      EmptyEncoding();
    } else {
      var n := |msgs| - 1;
      var rest, last := msgs[..n], msgs[n];
      EscapeTabIsOnePass(last);
      EscapedIsClosed(last);
      if n == 0 {
        EncodeOne(last);
        assert msgs == [last];
      } else {
        EncodeLast(rest, last);
        assert rest + [last] == msgs;
        EncodingIsClosed(rest);
        assert Closed([TAB], false) by { assert [TAB][1..] == []; }
        ClosedAppend(NewByteContent(rest), [TAB], false);
        ClosedAppend(NewByteContent(rest) + [TAB], EscapeTab(last), false);
      }
    }
  }

  lemma {:induction false} EncodeExtend(msgs: seq<Bytes>, b: Byte)
    requires msgs != []
    ensures NewByteContent(Extend(msgs, b)) == NewByteContent(msgs) + EscapeByte(b)
  {
    hide EscapeTab, NewByteContent, EscapeByte;
    var n := |msgs| - 1;
    var rest, last := msgs[..n], msgs[n];
    EscapeTabIsOnePass(last);
    EscapeTabIsOnePass(last + [b]);
    assert (last + [b])[..|last|] == last;
    if n == 0 {
      assert msgs == [last] && Extend(msgs, b) == [last + [b]];
      EncodeOne(last);
      EncodeOne(last + [b]);
    } else {
      assert msgs == rest + [last] && Extend(msgs, b) == rest + [last + [b]];
      EncodeLast(rest, last);
      EncodeLast(rest, last + [b]);
    }
  }

  // What has been read so far is the encoding of the strings so far, plus an open escape.
  predicate ReadAs(u: Bytes, p: Parser) {
    p.msgs != [] && Run(START, u) == p && u == NewByteContent(p.msgs) + if p.escMod then [ESC] else []
  }

  lemma {:induction false} ReadOne(u: Bytes, p: Parser, b: Byte)
    requires ReadAs(u, p) && (p.escMod ==> b in {ESC, TAB})
    ensures ReadAs(u + [b], Feed(p, b))
  {
    hide NewByteContent, EscapeTab;
    assert (u + [b])[..|u|] == u;
    if b != ESC || p.escMod {
      EncodeExtend(p.msgs, b);
      EncodeLast(p.msgs, []);
      assert EscapeTab([]) == [] by { EscapeTabIsOnePass([]); }
      assert [ESC] + [b] == [ESC, b];
    }
  }

  lemma {:induction false} ClosedIsCanonical(u: Bytes, p: Parser, c: Bytes)
    requires ReadAs(u, p) && Closed(c, p.escMod)
    ensures Canonical(u + c)
    decreases |c|
  {
    hide NewByteContent, Run;
    if c == [] {
      assert u + c == u == NewByteContent(Parse(u)) by { assert NewByteContent(p.msgs) + [] == NewByteContent(p.msgs); }
    } else {
      ReadOne(u, p, c[0]);
      ClosedIsCanonical(u + [c[0]], Feed(p, c[0]), c[1..]);
      assert u + [c[0]] + c[1..] == u + c;
    }
  }

  // The encodings are the byte strings that leave no escape open.
  lemma {:induction false} CanonicalIff(content: Bytes)
    ensures Canonical(content) <==> Closed(content, false)
  {
    if Canonical(content) {
      EncodingIsClosed(Parse(content));
    }
    if Closed(content, false) {
      EmptyEncoding();
      ClosedIsCanonical([], START, content);
      assert [] + content == content;
    }
  }

  // For other content it holds exactly when each escape in it is followed by tab or backslash.
  lemma {:induction false} SignRestoresIff(content: Bytes, name: Bytes)
    ensures CheckSign(Sign(content, name)).1 == content <==> Closed(content, false)
    ensures Closed(content, false) ==> CheckSign(Sign(content, name)).0 == name
  {
    hide Closed, Run, NewByteContent;
    CanonicalIff(content);
    if Canonical(content) {
      CheckAfterSign(Parse(content), name);
    }
    var signed := Sign(content, name);
    assert signed != [];
    var contents := Parse(signed);
    var rest := if |contents| > 1 then contents[1..|contents| - 1] else [];
    AppendAllEncodes([contents[0]], rest);
    EncodedIsCanonical([contents[0]] + rest);
  }

  // An escape left open at the end: signing then loses the byte.
  lemma {:induction false} OpenEscapeIsLost(name: Bytes)
    ensures !Closed([ESC], false) && CheckSign(Sign([ESC], name)).1 != [ESC]
  {
    assert [ESC][1..] == [];
    SignRestoresIff([ESC], name);
  }

  // The byte slice with its methods, which change it in place.
  class ByteContent {
    var bytes: Bytes

    constructor (msgs: seq<Bytes>)
      ensures bytes == NewByteContent(msgs)
    {
      bytes := NewByteContent(msgs);
    }

    method Append(msgs: seq<Bytes>)
      modifies this
      ensures bytes == AppendByteContent(old(bytes), msgs)
    {
      if |msgs| == 0 {
        return;
      }
      var escapedMsgs: seq<Bytes> := [];
      for i := 0 to |msgs|
        invariant |escapedMsgs| == i && forall k | 0 <= k < i :: escapedMsgs[k] == EscapeTab(msgs[k])
        invariant bytes == old(bytes)
      {
        escapedMsgs := escapedMsgs + [EscapeTab(msgs[i])];
      }
      assert escapedMsgs == EscapeAll(msgs);
      bytes := bytes + [TAB];
      bytes := bytes + Join(escapedMsgs);
    }

    method ParseContent() returns (msgs: seq<Bytes>)
      ensures msgs == Parse(bytes)
    {
      msgs := [[]];
      var escMod := false;
      assert bytes[..0] == [];
      for i := 0 to |bytes|
        invariant msgs != [] && Run(START, bytes[..i]) == Parser(msgs, escMod)
      {
        var b := bytes[i];
        assert bytes[..i + 1][..i] == bytes[..i];
        if b == ESC {
          if escMod == true {
            msgs := Extend(msgs, b);
            escMod := false;
          } else {
            escMod := true;
          }
        } else if b == TAB {
          if escMod == true {
            msgs := Extend(msgs, b);
            escMod := false;
          } else {
            msgs := msgs + [[]];
          }
        } else {
          msgs := Extend(msgs, b);
        }
      }
      assert bytes[..|bytes|] == bytes;
    }

    method SignWith(name: Bytes)
      modifies this
      ensures bytes == Sign(old(bytes), name)
    {
      Append([name]);
    }

    method CheckSignature() returns (signature: Bytes)
      modifies this
      ensures (signature, bytes) == CheckSign(old(bytes))
    {
      if bytes == [] {
        return ERROR;
      }
      var contents := ParseContent();
      assert contents != [];
      signature := contents[|contents| - 1];
      var temp := NewByteContent([contents[0]]);
      var rest := if |contents| > 1 then contents[1..|contents| - 1] else [];
      var i := 1;
      assert rest[..0] == [];
      while i < |contents| - 1
        invariant 1 <= i <= |rest| + 1
        invariant temp == AppendAll(NewByteContent([contents[0]]), rest[..i - 1])
      {
        assert rest[..i][..i - 1] == rest[..i - 1] && rest[i - 1] == contents[i];
        temp := AppendByteContent(temp, [contents[i]]);
        i := i + 1;
      }
      assert rest[..i - 1] == rest;
      bytes := temp;
    }
  }
}
