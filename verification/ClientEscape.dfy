/** console-client.c: the two ways a user can leave the client from the keyboard. */
module SshEscapes {
  import opened Bytes
  import opened Wires

  const CR: byte := 13
  const TILDE: byte := 126
  const DOT: byte := 46

  datatype ProcessRc = ProcessOk | ProcessErr | ProcessEsc

  /** `state` is the last byte of the sequence recognised so far, or 0. */
  datatype Progress = Progress(state: byte, out: seq<byte>, escaped: bool)

  function Step(p: Progress, c: byte): Progress {
    if p.escaped || (c == DOT && p.state == TILDE) then p.(escaped := true)
    else if c == TILDE && p.state == CR then p.(state := TILDE)
    else Progress(if c == CR then CR else 0, p.out + [c], false)
  }

  /** What the recogniser makes of a whole input, from a given state. */
  function Recognise(state: byte, s: seq<byte>): Progress {
    if s == [] then Progress(state, [], false) else Step(Recognise(state, s[..|s| - 1]), s[|s| - 1])
  }

  lemma RecognisePush(state: byte, s: seq<byte>, c: byte)
    ensures Recognise(state, s + [c]) == Step(Recognise(state, s), c)
  {
    assert (s + [c])[..|s|] == s;
  }

  /** Chunks are one stream: nothing after an escape matters, and otherwise the state carries over. */
  lemma {:induction false} RecogniseResumes(state: byte, a: seq<byte>, b: seq<byte>)
    ensures var p, q := Recognise(state, a), Recognise(Recognise(state, a).state, b);
            Recognise(state, a + b) == if p.escaped then p else Progress(q.state, p.out + q.out, q.escaped)
  {
    if b == [] {
      assert a + b == a;
    } else {
      var front, c := b[..|b| - 1], b[|b| - 1];
      RecogniseResumes(state, a, front);
      assert a + b == (a + front) + [c];
      RecognisePush(state, a + front, c);
    }
  }

  // ---- the reference: CR ~ . in the text -----------------------------------------------

  predicate EscapeAt(s: seq<byte>, k: int) {
    0 <= k && k + 2 < |s| && s[k] == CR && s[k + 1] == TILDE && s[k + 2] == DOT
  }

  ghost predicate HasEscape(s: seq<byte>) { exists k :: EscapeAt(s, k) }

  /** The text with every tilde directly after a CR deleted. */
  function Stripped(s: seq<byte>): seq<byte> {
    if s == [] then []
    else Stripped(s[..|s| - 1]) +
         (if s[|s| - 1] == TILDE && 2 <= |s| && s[|s| - 2] == CR then [] else [s[|s| - 1]])
  }

  /** The state the recogniser should be in: how much of CR ~ the text ends with. */
  function Tail(s: seq<byte>): byte {
    if s == [] then 0
    else if s[|s| - 1] == CR then CR
    else if s[|s| - 1] == TILDE && 2 <= |s| && s[|s| - 2] == CR then TILDE
    else 0
  }

  lemma EscapePush(s: seq<byte>, c: byte)
    ensures HasEscape(s + [c]) <==> HasEscape(s) || (c == DOT && Tail(s) == TILDE)
  {
    var t := s + [c];
    if HasEscape(s) {
      var k :| EscapeAt(s, k);
      assert EscapeAt(t, k);
    }
    if c == DOT && Tail(s) == TILDE {
      assert EscapeAt(t, |s| - 2);
    }
    if HasEscape(t) {
      var k :| EscapeAt(t, k);
      if k + 3 <= |s| {
        assert EscapeAt(s, k);
      }
    }
  }

  /** Exactness before any escape: the escape is seen iff it is there, and the rest is forwarded. */
  lemma {:induction false} EscapeIsExact(s: seq<byte>)
    ensures Recognise(0, s).escaped <==> HasEscape(s)
    ensures !HasEscape(s) ==> Recognise(0, s) == Progress(Tail(s), Stripped(s), false)
  {
    if s == [] {
    } else {
      var front, c := s[..|s| - 1], s[|s| - 1];
      EscapeIsExact(front);
      assert front + [c] == s;
      EscapePush(front, c);
    }
  }

  /** At the first escape: forwarded is the text before its tilde, stripped. */
  lemma {:induction false} EscapeForwards(s: seq<byte>, k: nat)
    requires EscapeAt(s, k) && forall j :: 0 <= j < k ==> !EscapeAt(s, j)
    ensures Recognise(0, s).escaped && Recognise(0, s).out == Stripped(s[..k + 1])
  {
    var upto := s[..k + 2];
    if HasEscape(upto) {
      var j :| EscapeAt(upto, j);
      assert EscapeAt(s, j);
    }
    EscapeIsExact(upto);
    assert upto[..k + 1] == s[..k + 1] && Stripped(upto) == Stripped(s[..k + 1]) + [];
    assert s == upto + s[k + 2..];
    RecogniseResumes(0, upto, s[k + 2..]);
    DotFirst(s[k + 2..]);
  }

  lemma {:induction false} DotFirst(s: seq<byte>)
    requires s != [] && s[0] == DOT
    ensures Recognise(TILDE, s) == Progress(TILDE, [], true)
  {
    assert s == [DOT] + s[1..];
    RecogniseResumes(TILDE, [DOT], s[1..]);
    RecognisePush(TILDE, [], DOT);
    assert [] + [DOT] == [DOT];
  }

  /** The client, recognising CR ~ . typed by the user. */
  class SshClient {
    var state: byte
    /** The connection to the server. */
    var wire: Wire
    ghost var input: seq<byte>

    /** Everything typed so far has been recognised and forwarded as one stream. */
    ghost predicate Valid()
      reads this
    {
      Recognise(0, input) == Progress(state, wire.sent, false)
    }

    constructor (script: seq<Outcome>)
      ensures Valid() && input == [] && wire.sent == []
    {
      state := 0;
      wire := Wire(script, [], []);
      input := [];
    }

    /** process_ssh_tty on one read. */
    method Process(buf: seq<byte>) returns (rc: ProcessRc)
      requires Valid()
      modifies this
      ensures input == old(input) + buf
      ensures rc == ProcessOk ==> Valid()
      ensures rc == ProcessEsc ==> Recognise(0, input).escaped && wire.sent == Recognise(0, input).out
      ensures rc == ProcessErr <==> Refused(Answers(old(wire), wire))
    {
      hide Recognise, Later, Refused, Answers;
      NothingRefused(wire);
      ghost var was := state;
      RecogniseResumes(0, input, buf);
      input := input + buf;
      var start := 0;
      RecogniseNothing(was);
      assert buf[..0] == [] && wire.sent + buf[0..0] == wire.sent + [];
      for i := 0 to |buf|
        invariant start <= i && (state == TILDE ==> start == i) && input == old(input) + buf
        invariant Forwarding(was, old(wire.sent), wire.sent, buf, start, i, state)
        invariant Later(old(wire), wire) && !Refused(Answers(old(wire), wire))
      {
        ForwardStep(was, old(wire.sent), wire.sent, buf, start, i, state);
        var c := buf[i];
        if c == DOT && state == TILDE {
          return ProcessEsc;
        }
        if c == TILDE && state == CR {
          state := TILDE;
          var ok;
          ghost var mid := wire;
          wire, ok := WriteBuf(wire, buf[start..i]);
          RefusedSum(old(wire), mid, wire);
          if ok < 0 {
            return ProcessErr;
          }
          start := i + 1;
        } else {
          state := if c == CR then CR else 0;
        }
      }
      assert buf[..|buf|] == buf && buf[start..|buf|] == buf[start..];
      var ok;
      ghost var mid := wire;
      wire, ok := WriteBuf(wire, buf[start..]);
      RefusedSum(old(wire), mid, wire);
      rc := if ok < 0 then ProcessErr else ProcessOk;
    }
  }

  /** What is on the wire and what is held back from `start` on is what has been recognised. */
  ghost predicate Forwarding(was: byte, sent0: seq<byte>, sent: seq<byte>, buf: seq<byte>, start: nat, i: nat, state: byte)
    requires start <= i <= |buf|
  {
    var p := Recognise(was, buf[..i]);
    !p.escaped && state == p.state && sent + buf[start..i] == sent0 + p.out
  }

  lemma RecogniseNothing(state: byte)
    ensures Recognise(state, []) == Progress(state, [], false)
  {
  }

  lemma ForwardStep(was: byte, sent0: seq<byte>, sent: seq<byte>, buf: seq<byte>, start: nat, i: nat, state: byte)
    requires start <= i < |buf| && Forwarding(was, sent0, sent, buf, start, i, state)
    ensures buf[i] == DOT && state == TILDE && start == i ==>
              Recognise(was, buf).escaped && sent == sent0 + Recognise(was, buf).out
    ensures buf[i] == TILDE && state == CR ==>
              Forwarding(was, sent0, sent + buf[start..i], buf, i + 1, i + 1, TILDE)
    ensures !(buf[i] == DOT && state == TILDE) && !(buf[i] == TILDE && state == CR) ==>
              Forwarding(was, sent0, sent, buf, start, i + 1, if buf[i] == CR then CR else 0)
  {
    var c := buf[i];
    assert buf[..i] + [c] == buf[..i + 1];
    RecognisePush(was, buf[..i], c);
    hide Recognise;
    if c == DOT && state == TILDE {
      assert buf[..i + 1] + buf[i + 1..] == buf;
      RecogniseResumes(was, buf[..i + 1], buf[i + 1..]);
    } else if c == TILDE && state == CR {
      assert buf[i + 1..i + 1] == [];
    } else {
      assert sent + buf[start..i + 1] == sent + buf[start..i] + [c];
    }
  }
}

module StringEscapes {
  import opened Bytes
  import opened Wires
  import SshEscapes

  datatype Match = Match(pos: nat, out: seq<byte>, escaped: bool)

  /** One byte of process_str_tty: a match advances, a mismatch starts over after this byte. */
  function Step(esc: seq<byte>, m: Match, c: byte): Match {
    if m.escaped then m
    else
      var pos := if m.pos < |esc| && c == esc[m.pos] then m.pos + 1 else 0;
      Match(pos, m.out + [c], pos == |esc|)
  }

  function Scan(esc: seq<byte>, pos: nat, s: seq<byte>): Match {
    if s == [] then Match(pos, [], false) else Step(esc, Scan(esc, pos, s[..|s| - 1]), s[|s| - 1])
  }

  lemma ScanPush(esc: seq<byte>, pos: nat, s: seq<byte>, c: byte)
    ensures Scan(esc, pos, s + [c]) == Step(esc, Scan(esc, pos, s), c)
  {
    assert (s + [c])[..|s|] == s;
  }

  lemma {:induction false} ScanResumes(esc: seq<byte>, pos: nat, a: seq<byte>, b: seq<byte>)
    ensures var m, n := Scan(esc, pos, a), Scan(esc, Scan(esc, pos, a).pos, b);
            Scan(esc, pos, a + b) == if m.escaped then m else Match(n.pos, m.out + n.out, n.escaped)
  {
    if b == [] {
      assert a + b == a;
    } else {
      var front, c := b[..|b| - 1], b[|b| - 1];
      ScanResumes(esc, pos, a, front);
      assert a + b == (a + front) + [c];
      ScanPush(esc, pos, a + front, c);
    }
  }

  /**
   * Soundness: the position stays inside the escape and is backed by the bytes just seen;
   * what is forwarded is a prefix of the input; and an escape verdict means that prefix
   * ends with the escape string.
   */
  lemma {:induction false} ScanIsSound(esc: seq<byte>, s: seq<byte>)
    requires esc != []
    ensures var m := Scan(esc, 0, s);
            && m.out <= s && m.pos <= |esc| && EndsWith(m.out, esc[..m.pos])
            && (m.escaped <==> m.pos == |esc|)
            && (!m.escaped ==> m.out == s)
  {
    if s == [] {
    } else {
      hide EndsWith;
      var front, c := s[..|s| - 1], s[|s| - 1];
      ScanIsSound(esc, front);
      assert s == front + [c];
      EndsWithNothing(s);
      var m := Scan(esc, 0, front);
      if !m.escaped && c == esc[m.pos] {
        assert esc[..m.pos + 1] == esc[..m.pos] + [c];
        EndsWithPush(front, esc[..m.pos], [c]);
      }
    }
  }

  ghost predicate OccursAt(esc: seq<byte>, s: seq<byte>, k: int) {
    0 <= k && k + |esc| <= |s| && s[k..k + |esc|] == esc
  }

  ghost predicate Occurs(esc: seq<byte>, s: seq<byte>) { exists k :: OccursAt(esc, s, k) }

  /** All bytes of the escape are the same. */
  ghost predicate Constant(esc: seq<byte>) {
    forall i :: 0 <= i < |esc| ==> esc[i] == esc[0]
  }

  /** An escape verdict is never wrong. */
  lemma EscapeOccurs(esc: seq<byte>, s: seq<byte>)
    requires esc != [] && Scan(esc, 0, s).escaped
    ensures Occurs(esc, s)
  {
    ScanIsSound(esc, s);
    var out := Scan(esc, 0, s).out;
    assert esc[..|esc|] == esc;
    assert s[|out| - |esc|..|out|] == out[|out| - |esc|..];
    assert OccursAt(esc, s, |out| - |esc|);
  }

  /** The run of bytes equal to `a` at the end of `s`. */
  function Run(a: byte, s: seq<byte>): nat {
    if s == [] || s[|s| - 1] != a then 0 else 1 + Run(a, s[..|s| - 1])
  }

  lemma {:induction false} RunCovers(a: byte, s: seq<byte>, n: nat)
    requires n <= |s| && forall i :: |s| - n <= i < |s| ==> s[i] == a
    ensures n <= Run(a, s)
  {
    if n > 0 {
      RunCovers(a, s[..|s| - 1], n - 1);
    }
  }

  /** Over a constant escape the position is the length of the run, so nothing is missed. */
  lemma {:induction false} ConstantMissesNothing(esc: seq<byte>, s: seq<byte>)
    requires esc != [] && Constant(esc) && !Scan(esc, 0, s).escaped
    ensures Scan(esc, 0, s).pos == Run(esc[0], s) && !Occurs(esc, s)
  {
    if s == [] {
    } else {
      var front, c := s[..|s| - 1], s[|s| - 1];
      ConstantMissesNothing(esc, front);
      ScanBounds(esc, front);
      ScanBounds(esc, s);
      hide Scan;
      if Occurs(esc, s) {
        LastOccurrence(esc, s);
      }
    }
  }

  /** An occurrence that was not there a byte ago ends here. */
  lemma LastOccurrence(esc: seq<byte>, s: seq<byte>)
    requires esc != [] && s != [] && Constant(esc) && Occurs(esc, s) && !Occurs(esc, s[..|s| - 1])
    ensures |esc| <= Run(esc[0], s)
  {
    var front := s[..|s| - 1];
    var k :| OccursAt(esc, s, k);
    if k + |esc| <= |front| {
      assert front[k..k + |esc|] == s[k..k + |esc|];
      assert OccursAt(esc, front, k);
    } else {
      forall i | |s| - |esc| <= i < |s| ensures s[i] == esc[0] {
        assert s[k..k + |esc|][i - k] == esc[i - k];
      }
      RunCovers(esc[0], s, |esc|);
    }
  }

  lemma {:induction false} ScanIsSlow(esc: seq<byte>, pos: nat, s: seq<byte>)
    requires pos + |s| < |esc|
    ensures !Scan(esc, pos, s).escaped && Scan(esc, pos, s).pos <= pos + |s|
  {
    if s != [] {
      ScanIsSlow(esc, pos, s[..|s| - 1]);
    }
  }

  lemma {:induction false} ScanPrefix(esc: seq<byte>, k: nat)
    requires k < |esc|
    ensures Scan(esc, 0, esc[..k]) == Match(k, esc[..k], false)
  {
    if k > 0 {
      ScanPrefix(esc, k - 1);
      assert esc[..k] == esc[..k - 1] + [esc[k - 1]];
      ScanPush(esc, 0, esc[..k - 1], esc[k - 1]);
    }
  }

  /** Where the first byte of the escape stops repeating, doubling it hides the escape. */
  lemma DoubledStartIsMissed(esc: seq<byte>, k: nat)
    requires 0 < k < |esc| && esc[k] != esc[0] && forall i :: 0 <= i < k ==> esc[i] == esc[0]
    ensures var s := [esc[0]] + esc; Occurs(esc, s) && !Scan(esc, 0, s).escaped
  {
    hide Scan;
    var s := [esc[0]] + esc;
    assert s[1..1 + |esc|] == esc && OccursAt(esc, s, 1);
    assert s[..k] == esc[..k];
    ScanPrefix(esc, k);
    assert s[..k + 1] == s[..k] + [esc[k - 1]];
    ScanPush(esc, 0, s[..k], esc[k - 1]);
    assert s == s[..k + 1] + s[k + 1..];
    ScanResumes(esc, 0, s[..k + 1], s[k + 1..]);
    ScanIsSlow(esc, 0, s[k + 1..]);
  }

  lemma FirstChange(esc: seq<byte>) returns (k: nat)
    requires !Constant(esc)
    ensures 0 < k < |esc| && esc[k] != esc[0] && forall i :: 0 <= i < k ==> esc[i] == esc[0]
  {
    k := 1;
    while esc[k] == esc[0]
      invariant 0 < k < |esc| && forall i :: 0 <= i < k ==> esc[i] == esc[0]
      decreases |esc| - k
    {
      k := k + 1;
    }
  }

  /**
   * The recogniser finds its escape in every input that contains it if and only if all
   * bytes of the escape are equal.
   */
  lemma CompleteIffConstant(esc: seq<byte>)
    requires esc != []
    ensures (forall s :: Scan(esc, 0, s).escaped <==> Occurs(esc, s)) <==> Constant(esc)
  {
    if Constant(esc) {
      forall s ensures Scan(esc, 0, s).escaped <==> Occurs(esc, s) {
        if Scan(esc, 0, s).escaped {
          EscapeOccurs(esc, s);
        } else {
          ConstantMissesNothing(esc, s);
        }
      }
    } else {
      var k := FirstChange(esc);
      DoubledStartIsMissed(esc, k);
    }
  }

  /** The client with a configured escape string. */
  class StringClient {
    const esc: seq<byte>
    var pos: nat
    var wire: Wire
    ghost var input: seq<byte>

    ghost predicate Valid()
      reads this
    {
      esc != [] && Scan(esc, 0, input) == Match(pos, wire.sent, false)
    }

    constructor (esc: seq<byte>, script: seq<Outcome>)
      requires esc != []
      ensures Valid() && this.esc == esc && input == []
    {
      this.esc := esc;
      pos := 0;
      wire := Wire(script, [], []);
      input := [];
    }

    /** process_str_tty on one read. */
    method Process(buf: seq<byte>) returns (rc: SshEscapes.ProcessRc)
      requires Valid()
      modifies this
      ensures input == old(input) + buf
      ensures rc.ProcessOk? ==> Valid()
      ensures rc.ProcessEsc? ==> Scan(esc, 0, input).escaped && wire.sent == Scan(esc, 0, input).out
      ensures rc.ProcessErr? <==> Refused(Answers(old(wire), wire))
    {
      hide Scan;
      ghost var was := pos;
      ScanResumes(esc, 0, input, buf);
      ScanBounds(esc, input);
      input := input + buf;
      rc := SshEscapes.ProcessOk;
      var i := 0;
      ScanNothing(esc, was);
      assert buf[..0] == [];
      while i < |buf| && rc == SshEscapes.ProcessOk
        invariant i <= |buf| && input == old(input) + buf && wire == old(wire) && !rc.ProcessErr?
        invariant Scan(esc, was, buf[..i]) == Match(pos, buf[..i], rc.ProcessEsc?)
        invariant rc.ProcessOk? ==> pos < |esc|
      {
        assert buf[..i] + [buf[i]] == buf[..i + 1];
        ScanPush(esc, was, buf[..i], buf[i]);
        pos := if buf[i] == esc[pos] then pos + 1 else 0;
        if pos == |esc| {
          rc := SshEscapes.ProcessEsc;
        }
        i := i + 1;
      }
      assert buf == buf[..i] + buf[i..];
      ScanResumes(esc, was, buf[..i], buf[i..]);
      ScanNothing(esc, pos);
      var ok;
      wire, ok := WriteBuf(wire, buf[..i]);
      if ok < 0 {
        return SshEscapes.ProcessErr;
      }
    }
  }

  lemma ScanNothing(esc: seq<byte>, pos: nat)
    ensures Scan(esc, pos, []) == Match(pos, [], false)
  {
  }

  lemma ScanBounds(esc: seq<byte>, s: seq<byte>)
    requires esc != [] && !Scan(esc, 0, s).escaped
    ensures Scan(esc, 0, s).pos < |esc|
  {
    ScanIsSound(esc, s);
  }
}
