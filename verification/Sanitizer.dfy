/** text-log-handler.c, sanitize_to_ascii_ansi: the escape-sequence automaton. */
module Sanitizers {
  import opened Bytes

  datatype Mode = Normal | Esc | Csi | Osc | Dcs | Sos | Pm | Apc | StringEnd

  const NEWLINE: byte := 10
  const BEL: byte := 7
  const ESC: byte := 27
  const BACKSLASH: byte := 92

  predicate Printable(c: byte) { 32 <= c <= 126 || c == NEWLINE }

  /** The automaton's move on one byte. */
  function Next(m: Mode, c: byte): Mode {
    match m
    case Normal => if c == ESC then Esc else Normal
    case Esc =>
      if c == 91 then Csi            // [
      else if c == 93 then Osc       // ]
      else if c == 80 then Dcs       // P
      else if c == 88 then Sos       // X
      else if c == 94 then Pm        // ^
      else if c == 95 then Apc       // _
      else Normal
    case Csi => if 0x40 <= c <= 0x7E then Normal else Csi
    case Osc => if c == BEL then Normal else if c == ESC then StringEnd else Osc
    case StringEnd => if c == BACKSLASH then Normal else Osc
    case _ => if c == ESC then StringEnd else m
  }

  /** Only normal mode lets a byte through. */
  function Emit(m: Mode, c: byte): (r: seq<byte>) {
    if m.Normal? && Printable(c) then [c] else []
  }

  /** The mode after one pass over the whole of `s`. */
  function Run(m: Mode, s: seq<byte>): Mode {
    if s == [] then m else Next(Run(m, s[..|s| - 1]), s[|s| - 1])
  }

  /** The output of one pass over the whole of `s`. */
  function Out(m: Mode, s: seq<byte>): (r: seq<byte>)
    ensures |r| <= |s|
  {
    if s == [] then [] else Out(m, s[..|s| - 1]) + Emit(Run(m, s[..|s| - 1]), s[|s| - 1])
  }

  lemma Nothing(m: Mode)
    ensures Run(m, []) == m && Out(m, []) == []
  {
  }

  lemma Push(m: Mode, s: seq<byte>, c: byte)
    ensures Run(m, s + [c]) == Next(Run(m, s), c)
    ensures Out(m, s + [c]) == Out(m, s) + Emit(Run(m, s), c)
  {
    assert (s + [c])[..|s|] == s;
  }

  /** The automaton resumes: two pieces one after the other are one pass over their sum. */
  lemma {:induction false} Resumes(m: Mode, a: seq<byte>, b: seq<byte>)
    ensures Run(m, a + b) == Run(Run(m, a), b)
    ensures Out(m, a + b) == Out(m, a) + Out(Run(m, a), b)
  {
    if b == [] {
      assert a + b == a;
    } else {
      hide *;
      var front, c := b[..|b| - 1], b[|b| - 1];
      Resumes(m, a, front);
      Push(m, a + front, c);
      Push(Run(m, a), front, c);
      Assoc(a, front, [c]);
      assert front + [c] == b;
      Assoc(Out(m, a), Out(Run(m, a), front), Emit(Run(m, a + front), c));
    }
  }

  /** Pieces sanitised one at a time, the mode carried over. */
  function RunPieces(m: Mode, pieces: seq<seq<byte>>): (Mode, seq<byte>) {
    if pieces == [] then (m, [])
    else
      var (n, out) := RunPieces(m, pieces[..|pieces| - 1]);
      (Run(n, pieces[|pieces| - 1]), out + Out(n, pieces[|pieces| - 1]))
  }

  /** Chunk independence: the way a stream is cut shows neither in the output nor in the mode. */
  lemma {:induction false} ChunkIndependence(m: Mode, pieces: seq<seq<byte>>)
    ensures RunPieces(m, pieces) == (Run(m, Join(pieces)), Out(m, Join(pieces)))
  {
    if pieces != [] {
      ChunkIndependence(m, pieces[..|pieces| - 1]);
      Resumes(m, Join(pieces[..|pieces| - 1]), pieces[|pieces| - 1]);
    }
  }

  /** How much of `data` the loop reads before its output buffer of `cap` bytes stops it. */
  ghost function Read(m: Mode, data: seq<byte>, cap: nat): (k: nat)
    requires 0 < cap
    ensures k <= |data|
  {
    if data == [] then 0
    else
      var k := Read(m, data[..|data| - 1], cap);
      if k == |data| - 1 && |Out(m, data[..k])| < cap - 1 then k + 1 else k
  }

  /** sanitize_to_ascii_ansi, with its output cap. */
  method Sanitize(data: seq<byte>, cap: nat, mode: Mode) returns (out: seq<byte>, mode': Mode)
    requires 0 < cap
    ensures out == Out(mode, data[..Read(mode, data, cap)]) && |out| < cap
    ensures mode' == Run(mode, data[..Read(mode, data, cap)])
  {
    out, mode' := [], mode;
    var i := 0;
    assert data[..0] == [];
    hide Run, Out, Read, Next;
    while i < |data| && |out| < cap - 1
      invariant 0 <= i <= |data| && |out| < cap
      invariant Read(mode, data[..i], cap) == i
      invariant out == Out(mode, data[..i]) && mode' == Run(mode, data[..i])
    {
      ReadStep(mode, data, cap, i);
      out := out + Emit(mode', data[i]);
      mode' := Next(mode', data[i]);
      i := i + 1;
    }
    ReadStops(mode, data, cap, i);
  }

  lemma ReadStep(m: Mode, data: seq<byte>, cap: nat, i: nat)
    requires 0 < cap && i < |data| && Read(m, data[..i], cap) == i && |Out(m, data[..i])| < cap - 1
    ensures Read(m, data[..i + 1], cap) == i + 1
    ensures Run(m, data[..i + 1]) == Next(Run(m, data[..i]), data[i])
    ensures Out(m, data[..i + 1]) == Out(m, data[..i]) + Emit(Run(m, data[..i]), data[i])
  {
    hide Run, Out, Next;
    assert data[..i + 1][..i] == data[..i];
    assert data[..i + 1][..|data[..i + 1]| - 1] == data[..i];
    Push(m, data[..i], data[i]);
    assert data[..i] + [data[i]] == data[..i + 1];
  }

  lemma {:induction false} ReadStops(m: Mode, data: seq<byte>, cap: nat, i: nat)
    requires 0 < cap && i <= |data| && Read(m, data[..i], cap) == i
    requires i == |data| || |Out(m, data[..i])| == cap - 1
    ensures Read(m, data, cap) == i
    decreases |data|
  {
    if i == |data| {
      assert data[..i] == data;
    } else {
      var front := data[..|data| - 1];
      assert front[..i] == data[..i];
      ReadStops(m, front, cap, i);
    }
  }

  /** A piece shorter than the buffer is always read to its end. */
  lemma {:induction false} ShortPieces(m: Mode, data: seq<byte>, cap: nat)
    requires |data| < cap
    ensures Read(m, data, cap) == |data|
  {
    if data != [] {
      ShortPieces(m, data[..|data| - 1], cap);
      assert data[..|data| - 1][..|data| - 1] == data[..|data| - 1];
    }
  }

  /** Nothing is held back exactly when the automaton starts in normal mode and all is printable. */
  lemma {:induction false} FullOutput(m: Mode, s: seq<byte>)
    requires s != []
    ensures |Out(m, s)| == |s| <==> m.Normal? && forall i :: 0 <= i < |s| ==> Printable(s[i])
    ensures |Out(m, s)| == |s| ==> Run(m, s) == Normal
  {
    var front, c := s[..|s| - 1], s[|s| - 1];
    Nothing(m);
    if front != [] {
      FullOutput(m, front);
      assert forall i :: 0 <= i < |front| ==> s[i] == front[i];
    }
  }

  /** Everything before the last byte will be let through. */
  ghost predicate Fills(m: Mode, data: seq<byte>) {
    m.Normal? && forall i :: 0 <= i < |data| - 1 ==> Printable(data[i])
  }

  lemma CapReads(m: Mode, data: seq<byte>)
    requires 1 < |data|
    ensures Read(m, data, |data|) == if Fills(m, data) then |data| - 1 else |data|
    ensures Fills(m, data) ==> Run(m, data[..|data| - 1]) == Normal
  {
    var cap := |data|;
    var front := data[..cap - 1];
    ShortPieces(m, front, cap);
    FullOutput(m, front);
    assert forall i :: 0 <= i < cap - 1 ==> front[i] == data[i];
    hide Run, Out, Next;
    assert front[..cap - 1] == front;
  }

  /**
   * A piece as long as the buffer, the longest the poll function passes.  The loop stops one
   * byte early exactly when the automaton starts in normal mode and every byte before the
   * last is printable; the piece is then sanitised as one whole pass would exactly when the
   * byte left unread would have changed nothing.
   */
  lemma CapIsExact(m: Mode, data: seq<byte>)
    requires 1 < |data|
    ensures var cap := |data|;
            var k := Read(m, data, cap);
            && k == (if Fills(m, data) then cap - 1 else cap)
            && (Out(m, data[..k]) == Out(m, data) && Run(m, data[..k]) == Run(m, data)
                <==> !Fills(m, data) || !(Printable(data[cap - 1]) || data[cap - 1] == ESC))
  {
    var cap := |data|;
    CapReads(m, data);
    hide Fills, Read, Run, Out;
    var front, c := data[..cap - 1], data[cap - 1];
    Push(m, front, c);
    assert front + [c] == data && data[..cap] == data;
  }

  /** Two printable bytes and a buffer of two: the second does not come out. */
  lemma LastByteIsLost()
    ensures Read(Normal, [65, 66], 2) == 1 && Out(Normal, [65, 66]) == [65, 66] && Out(Normal, [65]) == [65]
  {
    CapReads(Normal, [65, 66]);
    hide Run, Out;
    One(Normal, 65);
    Two(Normal, 65, 66);
  }

  // ---- the log without its escape sequences -----------------------------------------

  /** [ ] P X ^ _ */
  const INTRODUCERS: set<byte> := {91, 93, 80, 88, 94, 95}

  /** What follows a control sequence: it ends with the first byte in 0x40 to 0x7E. */
  ghost function AfterSequence(s: seq<byte>): (rest: seq<byte>)
    ensures |rest| <= |s|
  {
    if s == [] then [] else if 0x40 <= s[0] <= 0x7E then s[1..] else AfterSequence(s[1..])
  }

  /**
   * What follows a string: it ends with ESC \, or with BEL where `bel`.  After ESC and any
   * other byte it goes on as an operating system command, which BEL ends.
   */
  ghost function AfterString(s: seq<byte>, bel: bool): (rest: seq<byte>)
    ensures |rest| <= |s|
  {
    if s == [] then []
    else if s[0] == BEL && bel then s[1..]
    else if s[0] != ESC then AfterString(s[1..], bel)
    else if |s| == 1 then []
    else if s[1] == BACKSLASH then s[2..]
    else AfterString(s[2..], true)
  }

  /** The text, read from the front, with every escape sequence skipped as a whole. */
  ghost function Strip(s: seq<byte>): seq<byte>
    decreases |s|
  {
    if s == [] then []
    else if s[0] != ESC then (if Printable(s[0]) then [s[0]] else []) + Strip(s[1..])
    else if |s| == 1 then []
    else if s[1] == 91 then Strip(AfterSequence(s[2..]))
    else if s[1] in INTRODUCERS then Strip(AfterString(s[2..], s[1] == 93))
    else Strip(s[2..])
  }

  /** The automaton, from the front. */
  lemma Front(m: Mode, s: seq<byte>)
    requires s != []
    ensures Out(m, s) == Emit(m, s[0]) + Out(Next(m, s[0]), s[1..])
  {
    hide Run, Out, Next;
    One(m, s[0]);
    Resumes(m, [s[0]], s[1..]);
    assert [s[0]] + s[1..] == s;
  }

  lemma {:induction false} SequenceSkipped(s: seq<byte>)
    ensures Out(Csi, s) == Out(Normal, AfterSequence(s))
  {
    Nothing(Csi);
    Nothing(Normal);
    if s != [] {
      hide Run, Out;
      Front(Csi, s);
      SequenceSkipped(s[1..]);
    }
  }

  predicate StringMode(m: Mode) { m.Osc? || m.Dcs? || m.Sos? || m.Pm? || m.Apc? }

  /** A byte of a string: it stays one, or BEL ends it. */
  lemma StringByte(m: Mode, s: seq<byte>)
    requires StringMode(m) && s != [] && s[0] != ESC
    ensures Out(m, s) == Out(if s[0] == BEL && m.Osc? then Normal else m, s[1..])
  {
    hide Run, Out;
    Front(m, s);
  }

  /** ESC in a string, and the byte after it. */
  lemma StringEscape(m: Mode, s: seq<byte>)
    requires StringMode(m) && 2 <= |s| && s[0] == ESC
    ensures Out(m, s) == Out(if s[1] == BACKSLASH then Normal else Osc, s[2..])
  {
    hide Run, Out;
    Front(m, s);
    Front(StringEnd, s[1..]);
    assert s[1..][1..] == s[2..];
  }

  lemma {:induction false} StringSkipped(m: Mode, s: seq<byte>)
    requires StringMode(m)
    ensures Out(m, s) == Out(Normal, AfterString(s, m.Osc?))
    decreases |s|
  {
    Nothing(m);
    Nothing(Normal);
    if s == [ESC] {
      One(m, ESC);
      assert Emit(m, ESC) == [];
    }
    hide Run, Out, Next, Emit;
    if s != [] && s[0] != ESC {
      StringByte(m, s);
      StringSkipped(m, s[1..]);
    } else if 2 <= |s| {
      StringEscape(m, s);
      StringSkipped(Osc, s[2..]);
    } else if s != [] {
      assert s == [ESC];
    }
  }

  /** ESC in the text, and the byte after it. */
  lemma TextEscape(s: seq<byte>)
    requires 2 <= |s| && s[0] == ESC
    ensures Out(Normal, s) == Out(Next(Esc, s[1]), s[2..])
    ensures if s[1] == 91 then Next(Esc, s[1]) == Csi
            else if s[1] in INTRODUCERS then StringMode(Next(Esc, s[1])) && (Next(Esc, s[1]) == Osc <==> s[1] == 93)
            else Next(Esc, s[1]) == Normal
  {
    hide Run, Out;
    Front(Normal, s);
    Front(Esc, s[1..]);
    assert s[1..][1..] == s[2..];
  }

  lemma TextByte(s: seq<byte>)
    requires s != [] && s[0] != ESC
    ensures Out(Normal, s) == (if Printable(s[0]) then [s[0]] else []) + Out(Normal, s[1..])
  {
    hide Run, Out;
    Front(Normal, s);
  }

  /** The automaton, mode by mode, is that reading. */
  lemma {:induction false} SanitisingStrips(s: seq<byte>)
    ensures Out(Normal, s) == Strip(s)
    decreases |s|
  {
    Nothing(Normal);
    if s == [ESC] {
      One(Normal, ESC);
      assert Emit(Normal, ESC) == [];
    }
    hide Run, Out, Next, Emit;
    if s != [] && s[0] != ESC {
      TextByte(s);
      SanitisingStrips(s[1..]);
    } else if 2 <= |s| {
      TextEscape(s);
      if s[1] == 91 {
        SequenceSkipped(s[2..]);
        SanitisingStrips(AfterSequence(s[2..]));
      } else if s[1] in INTRODUCERS {
        StringSkipped(Next(Esc, s[1]), s[2..]);
        SanitisingStrips(AfterString(s[2..], s[1] == 93));
      } else {
        SanitisingStrips(s[2..]);
      }
    } else if s != [] {
      assert s == [ESC];
    }
  }

  // ---- what comes out -------------------------------------------------------------

  /** `a` is what is left of `b` after striking out some of its bytes. */
  ghost predicate Subsequence(a: seq<byte>, b: seq<byte>) {
    || a == []
    || (b != [] && (|| Subsequence(a, b[..|b| - 1])
                    || (a[|a| - 1] == b[|b| - 1] && Subsequence(a[..|a| - 1], b[..|b| - 1]))))
  }

  lemma {:induction false} OutputIsClean(m: Mode, s: seq<byte>)
    ensures Subsequence(Out(m, s), s)
    ensures forall k :: 0 <= k < |Out(m, s)| ==> Printable(Out(m, s)[k])
  {
    if s != [] {
      var front := s[..|s| - 1];
      OutputIsClean(m, front);
      if Emit(Run(m, front), s[|s| - 1]) != [] {
        assert Out(m, s)[..|Out(m, s)| - 1] == Out(m, front);
      } else {
        assert Out(m, s) == Out(m, front);
      }
    }
  }

  // ---- what vanishes --------------------------------------------------------------

  /** Section 5.4 of ECMA-48: parameter bytes, intermediate bytes, one final byte. */
  ghost predicate ControlSequence(e: seq<byte>) {
    && 3 <= |e| && e[0] == ESC && e[1] == 91
    && 0x40 <= e[|e| - 1] <= 0x7E
    && Body(e[2..|e| - 1])
  }

  ghost predicate Body(body: seq<byte>) { exists k :: ParametersThenIntermediates(body, k) }

  ghost predicate ParametersThenIntermediates(body: seq<byte>, k: nat) {
    && k <= |body|
    && (forall i :: 0 <= i < k ==> 0x30 <= body[i] <= 0x3F)
    && (forall i :: k <= i < |body| ==> 0x20 <= body[i] <= 0x2F)
  }

  /** Section 5.6 of ECMA-48: DCS, SOS, PM or APC, a payload without ESC, ST. */
  ghost predicate ControlString(e: seq<byte>) {
    && 4 <= |e| && e[0] == ESC && e[1] in {80, 88, 94, 95}
    && (forall i :: 2 <= i < |e| - 2 ==> e[i] != ESC)
    && e[|e| - 2] == ESC && e[|e| - 1] == BACKSLASH
  }

  /** An operating system command, closed by ST or by BEL. */
  ghost predicate OscString(e: seq<byte>) {
    && 3 <= |e| && e[0] == ESC && e[1] == 93
    && exists n :: OscClosedAt(e, n)
  }

  ghost predicate OscClosedAt(e: seq<byte>, n: nat) {
    && 2 <= n <= |e|
    && (e[n..] == [BEL] || e[n..] == [ESC, BACKSLASH])
    && (forall i :: 2 <= i < n ==> e[i] != ESC && e[i] != BEL)
  }

  /** ESC and any byte that introduces neither a control sequence nor a string. */
  ghost predicate ShortEscape(e: seq<byte>) {
    |e| == 2 && e[0] == ESC && e[1] !in INTRODUCERS
  }

  ghost predicate Erasable(e: seq<byte>) {
    ControlSequence(e) || ControlString(e) || OscString(e) || ShortEscape(e)
  }

  lemma {:induction false} Swallows(m: Mode, s: seq<byte>)
    requires !m.Normal? && forall i :: 0 <= i < |s| ==> Next(m, s[i]) == m
    ensures Run(m, s) == m && Out(m, s) == []
  {
    if s != [] {
      Swallows(m, s[..|s| - 1]);
    }
  }

  /** ESC, an introducer, a payload the mode swallows, a terminator that emits nothing. */
  lemma Vanishes(intro: seq<byte>, payload: seq<byte>, end: seq<byte>, m: Mode)
    requires |intro| == 2 && intro[0] == ESC && Next(Esc, intro[1]) == m && !m.Normal?
    requires forall i :: 0 <= i < |payload| ==> Next(m, payload[i]) == m
    requires Run(m, end) == Normal && Out(m, end) == []
    ensures Run(Normal, intro + payload + end) == Normal && Out(Normal, intro + payload + end) == []
  {
    Introduced(intro, m);
    Swallows(m, payload);
    hide Run, Out, Next;
    Resumes(Normal, intro, payload);
    Resumes(Normal, intro + payload, end);
  }

  lemma VanishesAt(e: seq<byte>, m: Mode, n: nat)
    requires 2 <= n <= |e| && e[0] == ESC && Next(Esc, e[1]) == m && !m.Normal?
    requires forall i :: 2 <= i < n ==> Next(m, e[i]) == m
    requires Run(m, e[n..]) == Normal && Out(m, e[n..]) == []
    ensures Run(Normal, e) == Normal && Out(Normal, e) == []
  {
    hide Run, Out;
    var payload := e[2..n];
    assert forall i :: 0 <= i < |payload| ==> payload[i] == e[i + 2];
    hide Next;
    Vanishes(e[..2], payload, e[n..], m);
    assert e == e[..2] + payload + e[n..];
  }

  lemma One(m: Mode, c: byte)
    ensures Run(m, [c]) == Next(m, c) && Out(m, [c]) == Emit(m, c)
  {
    Nothing(m);
    hide Run, Out, Next;
    Push(m, [], c);
    assert [] + [c] == [c];
  }

  lemma Two(m: Mode, c: byte, d: byte)
    ensures Run(m, [c, d]) == Next(Next(m, c), d)
    ensures Out(m, [c, d]) == Emit(m, c) + Emit(Next(m, c), d)
  {
    hide Run, Out, Next;
    One(m, c);
    Push(m, [c], d);
    assert [c] + [d] == [c, d];
  }

  lemma Introduced(e: seq<byte>, m: Mode)
    requires |e| == 2 && e[0] == ESC && Next(Esc, e[1]) == m
    ensures Run(Normal, e) == m && Out(Normal, e) == []
  {
    Two(Normal, e[0], e[1]);
    hide Run, Out;
    assert e == [e[0], e[1]];
  }

  lemma Terminators(m: Mode)
    ensures Run(m, [ESC, BACKSLASH]) == Next(Next(m, ESC), BACKSLASH)
    ensures !m.Normal? && Next(m, ESC) == StringEnd ==> Out(m, [ESC, BACKSLASH]) == []
    ensures forall c: byte :: Run(m, [c]) == Next(m, c) && Out(m, [c]) == Emit(m, c)
  {
    hide Run, Out;
    Two(m, ESC, BACKSLASH);
    forall c: byte ensures Run(m, [c]) == Next(m, c) && Out(m, [c]) == Emit(m, c) {
      One(m, c);
    }
  }

  lemma ErasableVanishes(e: seq<byte>)
    requires Erasable(e)
    ensures Run(Normal, e) == Normal && Out(Normal, e) == []
  {
    hide Run, Out;
    if ControlSequence(e) {
      var body := e[2..|e| - 1];
      assert forall i :: 2 <= i < |e| - 1 ==> e[i] == body[i - 2];
      assert e[|e| - 1..] == [e[|e| - 1]];
      Terminators(Csi);
      VanishesAt(e, Csi, |e| - 1);
    } else if ControlString(e) {
      var m := Next(Esc, e[1]);
      assert e[|e| - 2..] == [ESC, BACKSLASH];
      Terminators(m);
      VanishesAt(e, m, |e| - 2);
    } else if OscString(e) {
      var n :| OscClosedAt(e, n);
      Terminators(Osc);
      VanishesAt(e, Osc, n);
    } else {
      Two(Normal, e[0], e[1]);
      assert e == [e[0], e[1]];
    }
  }

  /** A stretch of text and the escape sequence inserted after it (or none). */
  datatype Segment = Segment(text: seq<byte>, escape: seq<byte>)

  ghost function Plain(segments: seq<Segment>): seq<byte> {
    if segments == [] then [] else Plain(segments[..|segments| - 1]) + segments[|segments| - 1].text
  }

  ghost function Decorated(segments: seq<Segment>): seq<byte> {
    if segments == [] then []
    else Decorated(segments[..|segments| - 1]) + segments[|segments| - 1].text + segments[|segments| - 1].escape
  }

  /** Every insertion is well formed and made where the automaton is in normal mode. */
  ghost predicate WellPlaced(m: Mode, segments: seq<Segment>) {
    segments == [] ||
    (var last := segments[|segments| - 1].escape;
     && WellPlaced(m, segments[..|segments| - 1])
     && (last == [] || (Erasable(last) && Run(m, Plain(segments)) == Normal)))
  }

  /** Escape erasure: decorations show neither in the log nor in the automaton's mode. */
  lemma {:induction false} EscapeErasure(m: Mode, segments: seq<Segment>)
    requires WellPlaced(m, segments)
    ensures Run(m, Decorated(segments)) == Run(m, Plain(segments))
    ensures Out(m, Decorated(segments)) == Out(m, Plain(segments))
  {
    hide Run, Out, Erasable;
    if segments != [] {
      var front, last := segments[..|segments| - 1], segments[|segments| - 1];
      EscapeErasure(m, front);
      Resumes(m, Plain(front), last.text);
      Resumes(m, Decorated(front), last.text);
      var before := Decorated(front) + last.text;
      if last.escape == [] {
        assert Decorated(segments) == before;
      } else {
        ErasableVanishes(last.escape);
        Resumes(m, before, last.escape);
      }
    }
  }
}
