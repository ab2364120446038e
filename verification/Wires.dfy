/**
 * Descriptors as the handlers see them: a finite script of what the kernel will answer,
 * and everything it has accepted so far.  Past the end of its script a descriptor takes all
 * it is given, so quantifying over scripts quantifies over every finite behaviour.
 */
module Wires {
  import opened Bytes

  datatype Outcome = Accepted(n: nat) | WouldBlock | Interrupted | Broken

  /** `used` is what the kernel has answered so far. */
  datatype Wire = Wire(script: seq<Outcome>, sent: seq<byte>, used: seq<Outcome>)

  /** How many of the answers were EINTR. */
  ghost function Interruptions(answers: seq<Outcome>): nat {
    if answers == [] then 0
    else Interruptions(answers[..|answers| - 1]) + if answers[|answers| - 1].Interrupted? then 1 else 0
  }

  lemma AnswersOne(used: seq<Outcome>, o: Outcome)
    ensures Interruptions(used + [o]) == Interruptions(used) + if o.Interrupted? then 1 else 0
  {
    assert (used + [o])[..|used|] == used;
  }

  lemma {:induction false} NoneInterrupted(answers: seq<Outcome>)
    ensures Interruptions(answers) == 0 <==> Interrupted !in answers
  {
    if answers != [] {
      var front := answers[..|answers| - 1];
      NoneInterrupted(front);
      assert answers == front + [answers[|answers| - 1]];
    }
  }

  lemma {:induction false} InterruptionsAdd(a: seq<Outcome>, b: seq<Outcome>)
    ensures Interruptions(a + b) == Interruptions(a) + Interruptions(b)
  {
    if b == [] {
      assert a + b == a;
    } else {
      InterruptionsAdd(a, b[..|b| - 1]);
      assert (a + b)[..|a + b| - 1] == a + b[..|b| - 1];
    }
  }

  /** The answers given between two states of a descriptor. */
  ghost function Answers(w: Wire, v: Wire): seq<Outcome> {
    if |v.script| <= |w.script| then w.script[..|w.script| - |v.script|] else []
  }

  lemma NoAnswers(w: Wire)
    ensures Answers(w, w) == [] && Interruptions([]) == 0
  {
  }

  lemma FirstAnswer(w: Wire, v: Wire, r: Wire)
    requires w.script != [] && v.script == w.script[1..] && |r.script| <= |v.script|
    ensures Answers(w, r) == [w.script[0]] + Answers(v, r)
    ensures Interruptions(Answers(w, r)) == Interruptions(Answers(v, r)) + if w.script[0].Interrupted? then 1 else 0
  {
    InterruptionsAdd([w.script[0]], Answers(v, r));
    AnswersOne([], w.script[0]);
    assert [] + [w.script[0]] == [w.script[0]];
  }

  /**
   * `sent` is the stream from `from` to `at`, sent with `n` steps back of one byte: at the
   * last of them the position was `a`, and sending went on from `a - 1`.
   */
  ghost predicate Resent(sent: seq<byte>, stream: seq<byte>, from: nat, at: nat, n: nat)
    decreases n
  {
    && from <= at <= |stream|
    && if n == 0 then sent == stream[from..at]
       else
         var m := n - 1;
         exists a: nat, s: seq<byte> ::
           from < a <= at + 1 && a <= |stream| && Resent(s, stream, from, a, m) && sent == s + stream[a - 1..at]
  }

  lemma ResentFrom(sent: seq<byte>, stream: seq<byte>, from: nat, at: nat, n: nat, a: nat, s: seq<byte>)
    requires 0 < n && from < a <= at + 1 && a <= |stream| && at <= |stream| && from <= at
    requires Resent(s, stream, from, a, n - 1) && sent == s + stream[a - 1..at]
    ensures Resent(sent, stream, from, at, n)
  {
    var m := n - 1;
    assert Resent(s, stream, from, a, m);
  }

  lemma ResentAt(sent: seq<byte>, stream: seq<byte>, from: nat, at: nat, n: nat) returns (a: nat, s: seq<byte>)
    requires Resent(sent, stream, from, at, n) && 0 < n
    ensures from < a <= at + 1 && a <= |stream| && from <= at <= |stream|
    ensures Resent(s, stream, from, a, n - 1) && sent == s + stream[a - 1..at]
  {
    var m := n - 1;
    a, s :| from < a <= at + 1 && a <= |stream| && Resent(s, stream, from, a, m) && sent == s + stream[a - 1..at];
  }

  lemma Onwards(s: seq<byte>, stream: seq<byte>, i: nat, j: nat, k: nat)
    requires i <= j <= k <= |stream|
    ensures stream[i..j] + stream[j..k] == stream[i..k]
    ensures (s + stream[i..j]) + stream[j..k] == s + stream[i..k]
  {
  }

  lemma ResentMore(sent: seq<byte>, stream: seq<byte>, from: nat, at: nat, n: nat, k: nat)
    requires Resent(sent, stream, from, at, n) && at + k <= |stream|
    ensures Resent(sent + stream[at..at + k], stream, from, at + k, n)
  {
    if n == 0 {
      Onwards([], stream, from, at, at + k);
    } else {
      ResentOn(sent, stream, from, at, n, k);
    }
  }

  lemma ResentOn(sent: seq<byte>, stream: seq<byte>, from: nat, at: nat, n: nat, k: nat)
    requires Resent(sent, stream, from, at, n) && at + k <= |stream| && 0 < n
    ensures Resent(sent + stream[at..at + k], stream, from, at + k, n)
  {
    hide Resent;
    var a, s := ResentAt(sent, stream, from, at, n);
    Onwards(s, stream, a - 1, at, at + k);
    ResentFrom(sent + stream[at..at + k], stream, from, at + k, n, a, s);
  }

  lemma ResentBack(sent: seq<byte>, stream: seq<byte>, from: nat, at: nat, n: nat)
    requires Resent(sent, stream, from, at, n) && from < at
    ensures Resent(sent, stream, from, at - 1, n + 1)
  {
    assert sent == sent + stream[at - 1..at - 1];
    ResentFrom(sent, stream, from, at - 1, n + 1, at, sent);
  }

  lemma {:induction false} ResentLength(sent: seq<byte>, stream: seq<byte>, from: nat, at: nat, n: nat)
    requires Resent(sent, stream, from, at, n)
    ensures |sent| == at - from + n
    decreases n
  {
    if n > 0 {
      var a, s := ResentAt(sent, stream, from, at, n);
      ResentLength(s, stream, from, a, n - 1);
    }
  }

  lemma {:induction false} ResentGrows(sent: seq<byte>, stream: seq<byte>, data: seq<byte>, from: nat, at: nat, n: nat)
    requires Resent(sent, stream, from, at, n)
    ensures Resent(sent, stream + data, from, at, n)
    decreases n
  {
    if n == 0 {
      assert (stream + data)[from..at] == stream[from..at];
    } else {
      hide Resent;
      var a, s := ResentAt(sent, stream, from, at, n);
      ResentGrows(s, stream, data, from, a, n - 1);
      assert (stream + data)[a - 1..at] == stream[a - 1..at];
      ResentFrom(sent, stream + data, from, at, n, a, s);
    }
  }

  /** The descriptor has been sent the stream from `from` to `at`, one byte repeated per interruption. */
  ghost predicate Reached(w: Wire, stream: seq<byte>, from: nat, at: nat) {
    Resent(w.sent, stream, from, at, Interruptions(w.used))
  }

  lemma ReachedExactly(w: Wire, stream: seq<byte>, from: nat, at: nat)
    requires Reached(w, stream, from, at)
    ensures |w.sent| == at - from + Interruptions(w.used)
    ensures Interruptions(w.used) == 0 ==> w.sent == stream[from..at]
  {
    ResentLength(w.sent, stream, from, at, Interruptions(w.used));
  }

  lemma PieceMiddle(stream: seq<byte>, at: nat, data: seq<byte>, pos: nat, n: nat)
    requires IsPiece(stream, at, data) && pos + n <= |data|
    ensures at + pos + n <= |stream| && data[pos..][..n] == stream[at + pos..at + pos + n]
  {
  }

  /** The same descriptor, some answers later. */
  ghost predicate Later(w: Wire, v: Wire) {
    w.used <= v.used && v.used + v.script == w.used + w.script
  }

  lemma LaterTrans(u: Wire, v: Wire, w: Wire)
    requires Later(u, v) && Later(v, w)
    ensures Later(u, w)
  {
  }

  /** Only the answers matter, not what was sent. */
  lemma LaterSame(u: Wire, v: Wire, w: Wire)
    requires Later(v, w) && u.script == v.script && u.used == v.used
    ensures Later(u, w)
  {
  }

  lemma LaterScript(w: Wire, v: Wire)
    requires Later(w, v)
    ensures |v.script| <= |w.script| && w.script == Answers(w, v) + v.script && v.used == w.used + Answers(w, v)
  {
    var n := |v.used| - |w.used|;
    assert |w.script| == n + |v.script|;
    assert (w.used + w.script)[|w.used|..] == w.script;
    assert (v.used + v.script)[|w.used|..] == v.used[|w.used|..] + v.script;
    assert w.script[..n] == v.used[|w.used|..];
  }

  /** What ends a send for good; EAGAIN only if it was to block. */
  predicate Fatal(o: Outcome, block: bool) {
    o.Broken? || o == Accepted(0) || (o.WouldBlock? && block)
  }

  /** The kernel has something in store that may end a send. */
  ghost predicate Faulty(script: seq<Outcome>, block: bool) {
    exists o :: o in script && (Fatal(o, block) || o.Interrupted?)
  }

  lemma FaultyLater(w: Wire, v: Wire, block: bool)
    requires Later(w, v) && Faulty(v.script, block)
    ensures Faulty(w.script, block)
  {
    LaterScript(w, v);
    var o :| o in v.script && (Fatal(o, block) || o.Interrupted?);
    assert o in w.script;
  }

  datatype Attempt = Attempt(wire: Wire, outcome: Outcome)

  /** One write() or send() of `data`: the kernel takes at most what it is given. */
  function Write(w: Wire, data: seq<byte>): (a: Attempt)
    ensures a.outcome.Accepted? ==> a.outcome.n <= |data| && a.wire.sent == w.sent + data[..a.outcome.n]
    ensures !a.outcome.Accepted? ==> a.wire.sent == w.sent
    ensures w.sent <= a.wire.sent && Later(w, a.wire)
    ensures Interruptions(a.wire.used) == Interruptions(w.used) + if a.outcome.Interrupted? then 1 else 0
    ensures w.script == [] ==> a.wire.script == [] && a.outcome == Accepted(|data|)
    ensures w.script != [] && data != [] ==> a.wire.script == w.script[1..] && Alike(a.outcome, w.script[0])
  {
    if w.script == [] then
      assert data[..|data|] == data;
      Attempt(w.(sent := w.sent + data), Accepted(|data|))
    else
      AnswersOne(w.used, w.script[0]);
      assert w.script == [w.script[0]] + w.script[1..];
      assert w.used + [w.script[0]] + w.script[1..] == w.used + w.script;
      var rest := w.(script := w.script[1..], used := w.used + [w.script[0]]);
      match w.script[0]
      case Accepted(n) =>
        var k := if n < |data| then n else |data|;
        Attempt(rest.(sent := w.sent + data[..k]), Accepted(k))
      case _ => Attempt(rest, w.script[0])
  }

  /** The same answer, as far as it decides what the caller does next. */
  ghost predicate Alike(a: Outcome, b: Outcome) {
    if b.Accepted? then a.Accepted? && (a.n == 0 <==> b.n == 0) else a == b
  }

  /** `again`: send_all stopped on EAGAIN and marked the client blocked. */
  datatype Sent = Sent(wire: Wire, rc: int, again: bool)

  /**
   * The loop of send_all from `pos` on.  An interrupted send adds its -1 to `pos`: past
   * the first byte the previous one is sent again, at the first byte `pos` wraps to
   * SIZE_MAX, which ends the loop and reads as -1.
   */
  function Sending(w: Wire, data: seq<byte>, pos: nat, block: bool): (r: Sent)
    requires pos <= |data|
    ensures r.rc <= |data|
    ensures block && 0 <= r.rc ==> r.rc == |data|
    ensures r.again ==> !block && 0 <= r.rc
    ensures 0 <= r.rc && !r.again ==> r.rc == |data|
    ensures w.sent <= r.wire.sent && |r.wire.script| <= |w.script| && Later(w, r.wire)
    decreases |w.script|, |data| - pos
  {
    if pos == |data| then Sent(w, pos, false)
    else
      var a := Write(w, data[pos..]);
      match a.outcome
      case Accepted(n) => if n == 0 then Sent(a.wire, -1, false) else Sending(a.wire, data, pos + n, block)
      case WouldBlock => if block then Sent(a.wire, -1, false) else Sent(a.wire, pos, true)
      case Interrupted => if pos == 0 then Sent(a.wire, -1, false) else Sending(a.wire, data, pos - 1, block)
      case Broken => Sent(a.wire, -1, false)
  }

  /** send_all. */
  method SendAll(w: Wire, data: seq<byte>, block: bool) returns (r: Sent)
    ensures r == Sending(w, data, 0, block)
  {
    hide Write, Interruptions, Later, Alike;
    var wire, pos := w, 0;
    while pos < |data|
      invariant pos <= |data|
      invariant Sending(wire, data, pos, block) == Sending(w, data, 0, block)
      decreases |wire.script|, |data| - pos
    {
      var a := Write(wire, data[pos..]);
      match a.outcome {
        case Accepted(n) =>
          if n == 0 {
            return Sent(a.wire, -1, false);
          }
          pos := pos + n;
        case WouldBlock =>
          if block {
            return Sent(a.wire, -1, false);
          }
          return Sent(a.wire, pos, true);
        case Interrupted =>
          if pos == 0 {
            return Sent(a.wire, -1, false);
          }
          pos := pos - 1;
        case Broken =>
          return Sent(a.wire, -1, false);
      }
      wire := a.wire;
    }
    return Sent(wire, pos, false);
  }

  lemma Splice(sent: seq<byte>, data: seq<byte>, pos: nat, n: nat, end: nat)
    requires pos + n <= end <= |data|
    ensures sent + data[pos..][..n] + data[pos + n..end] == sent + data[pos..end]
  {
  }

  /**
   * What each step of the loop does to the answers: the first one answers this send, the
   * rest belong to the loop from there on.
   */
  lemma SendStep(w: Wire, data: seq<byte>, pos: nat, r: Wire)
    requires pos < |data| && w.script != []
    requires Later(Write(w, data[pos..]).wire, r)
    ensures var v := Write(w, data[pos..]).wire;
            && Answers(w, r) == [w.script[0]] + Answers(v, r)
            && Interruptions(Answers(w, r)) == Interruptions(Answers(v, r)) + (if w.script[0].Interrupted? then 1 else 0)
            && (Answers(v, r) != [] ==> Last(Answers(w, r)) == Last(Answers(v, r)))
  {
    hide Write, Interruptions;
    var v := Write(w, data[pos..]).wire;
    LaterScript(v, r);
    FirstAnswer(w, v, r);
  }

  ghost function Last(answers: seq<Outcome>): Outcome
    requires answers != []
  {
    answers[|answers| - 1]
  }

  /**
   * The kernel's answers between `w` and the end of the loop, and what they come to.  It fails
   * if the last answer is fatal, or if it was interrupted at the first byte, which is to say
   * that more sends were interrupted than bytes had been taken.  It marks the client blocked
   * if the last answer is EAGAIN and it was not to block.
   */
  ghost predicate Verdict(w: Wire, r: Sent, pos: nat, block: bool) {
    var ans := Answers(w, r.wire);
    var taken := |r.wire.sent| - |w.sent|;
    && (r.rc < 0 <==> pos + taken < Interruptions(ans) || (ans != [] && Fatal(Last(ans), block)))
    && (r.again <==> ans != [] && Last(ans).WouldBlock? && !block)
  }

  /** A send that went on. */
  lemma VerdictGoesOn(w: Wire, data: seq<byte>, pos: nat, next: nat, r: Sent, block: bool)
    requires pos < |data| && w.script != [] && Later(Write(w, data[pos..]).wire, r.wire)
    requires var a := Write(w, data[pos..]);
             && (if a.outcome.Accepted? then 0 < a.outcome.n && next == pos + a.outcome.n
                 else a.outcome.Interrupted? && next == pos - 1)
             && Verdict(a.wire, r, next, block)
    ensures Verdict(w, r, pos, block)
  {
    hide Write, Interruptions, Later, Answers, Alike;
    var a := Write(w, data[pos..]);
    SendStep(w, data, pos, r.wire);
    SameKind(a.outcome, w.script[0]);
    NoneYet();
  }

  /** A send that was the last. */
  lemma VerdictStops(w: Wire, data: seq<byte>, pos: nat, r: Sent, block: bool)
    requires pos < |data| && w.script != [] && r.wire == Write(w, data[pos..]).wire
    requires var o := Write(w, data[pos..]).outcome;
             && (o.Interrupted? ==> pos == 0) && (o.Accepted? ==> o.n == 0)
             && (r.rc < 0 <==> Fatal(o, block) || o.Interrupted?) && (r.again <==> o.WouldBlock? && !block)
    ensures Verdict(w, r, pos, block)
  {
    hide Write, Interruptions, Later, Answers, Alike;
    LaterRefl(r.wire);
    NoneYet();
    SendStep(w, data, pos, r.wire);
    SameKind(Write(w, data[pos..]).outcome, w.script[0]);
  }

  lemma NoneYet()
    ensures Interruptions([]) == 0
  {
  }

  /** Nothing left to send. */
  lemma VerdictAtEnd(w: Wire, data: seq<byte>, block: bool)
    ensures Verdict(w, Sending(w, data, |data|, block), |data|, block)
  {
    NoAnswers(w);
  }

  /** No answer left: everything is taken. */
  lemma VerdictExhausted(w: Wire, data: seq<byte>, pos: nat, block: bool)
    requires pos < |data| && w.script == []
    ensures Verdict(w, Sending(w, data, pos, block), pos, block)
  {
    var a := Write(w, data[pos..]);
    NoAnswers(w);
    NoneLeft(w, a.wire, a.wire);
    NoAnswers(a.wire);
    hide Write, Interruptions, Later, Answers, Alike;
    assert Sending(w, data, pos, block) == Sending(a.wire, data, |data|, block) == Sent(a.wire, |data|, false);
  }

  /** When send_all fails and when it gives up for now, on the kernel's answers alone. */
  lemma {:induction false} SendVerdict(w: Wire, data: seq<byte>, pos: nat, block: bool)
    requires pos <= |data|
    ensures Verdict(w, Sending(w, data, pos, block), pos, block)
    decreases |w.script|, |data| - pos
  {
    hide Write, Interruptions, Later, Answers, Alike, Verdict;
    if pos == |data| {
      VerdictAtEnd(w, data, block);
    } else if w.script == [] {
      VerdictExhausted(w, data, pos, block);
    } else {
      var a := Write(w, data[pos..]);
      var r := Sending(w, data, pos, block);
      match a.outcome {
        case Accepted(n) =>
          if n > 0 {
            SendVerdict(a.wire, data, pos + n, block);
            VerdictGoesOn(w, data, pos, pos + n, r, block);
          } else {
            VerdictStops(w, data, pos, r, block);
          }
        case Interrupted =>
          if pos > 0 {
            SendVerdict(a.wire, data, pos - 1, block);
            VerdictGoesOn(w, data, pos, pos - 1, r, block);
          } else {
            VerdictStops(w, data, pos, r, block);
          }
        case _ =>
          VerdictStops(w, data, pos, r, block);
      }
    }
  }

  /** So a send that fails has met a fault. */
  lemma SendFault(w: Wire, data: seq<byte>, block: bool)
    requires Sending(w, data, 0, block).rc < 0
    ensures Faulty(w.script, block)
  {
    hide Sending, Interruptions;
    var r := Sending(w, data, 0, block);
    var ans := Answers(w, r.wire);
    SendVerdict(w, data, 0, block);
    NoneInterrupted(ans);
    LaterScript(w, r.wire);
    if Interrupted in ans {
      assert Interrupted in w.script;
    } else {
      assert Last(ans) in ans && Last(ans) in w.script;
    }
  }

  /**
   * send_all promises to deliver a prefix of the buffer and return its length.  Every
   * interrupted send delivers one byte more than it accounts for.
   */
  lemma {:induction false} SendCounts(w: Wire, data: seq<byte>, pos: nat, block: bool)
    requires pos <= |data| && 0 <= Sending(w, data, pos, block).rc
    ensures var r := Sending(w, data, pos, block);
            var n := Interruptions(Answers(w, r.wire));
            && |r.wire.sent| == |w.sent| + r.rc - pos + n
            && (n == 0 ==> pos <= r.rc && r.wire.sent == w.sent + data[pos..r.rc])
    decreases |w.script|, |data| - pos
  {
    hide Write, Interruptions, Answers, Later, Alike;
    NoAnswers(w);
    if pos < |data| {
      var a := Write(w, data[pos..]);
      var r := Sending(w, data, pos, block);
      if w.script != [] {
        SameKind(a.outcome, w.script[0]);
      }
      match a.outcome {
        case Accepted(n) =>
          SendCounts(a.wire, data, pos + n, block);
          if w.script == [] {
            NoneLeft(w, a.wire, r.wire);
          } else {
            SendStep(w, data, pos, r.wire);
          }
          if Interruptions(Answers(w, r.wire)) == 0 {
            Splice(w.sent, data, pos, n, r.rc);
          }
        case Interrupted =>
          SendCounts(a.wire, data, pos - 1, block);
          SendStep(w, data, pos, r.wire);
        case WouldBlock =>
          NoAnswers(a.wire);
          LaterRefl(a.wire);
          SendStep(w, data, pos, a.wire);
        case Broken =>
      }
    }
  }

  lemma SameKind(a: Outcome, b: Outcome)
    requires Alike(a, b)
    ensures a.Interrupted? <==> b.Interrupted?
    ensures a.WouldBlock? <==> b.WouldBlock?
    ensures a.Broken? <==> b.Broken?
    ensures forall block :: Fatal(a, block) <==> Fatal(b, block)
  {
  }

  lemma NoneLeft(w: Wire, v: Wire, r: Wire)
    requires w.script == v.script == []
    ensures Answers(w, r) == Answers(v, r)
  {
  }

  /** It keeps the promise exactly when the kernel interrupts none of its sends. */
  lemma SendIsExact(w: Wire, data: seq<byte>, block: bool)
    requires 0 <= Sending(w, data, 0, block).rc
    ensures var r := Sending(w, data, 0, block);
            r.wire.sent == w.sent + data[..r.rc] <==> Interrupted !in Answers(w, r.wire)
  {
    hide Sending;
    SendCounts(w, data, 0, block);
    NoneInterrupted(Answers(w, Sending(w, data, 0, block).wire));
  }

  /** Where one send leaves the descriptor. */
  lemma SendMoves(w: Wire, data: seq<byte>, pos: nat, stream: seq<byte>, from: nat, at: nat)
    requires pos < |data| && from <= at && IsPiece(stream, at, data) && Reached(w, stream, from, at + pos)
    ensures var a := Write(w, data[pos..]);
            match a.outcome
            case Accepted(n) => Reached(a.wire, stream, from, at + pos + n)
            case Interrupted => pos > 0 ==> Reached(a.wire, stream, from, at + pos - 1)
            case _ => Reached(a.wire, stream, from, at + pos)
  {
    hide Resent, Interruptions, IsPiece, Write, Later, Alike;
    var a := Write(w, data[pos..]);
    match a.outcome {
      case Accepted(n) =>
        PieceMiddle(stream, at, data, pos, n);
        ResentMore(w.sent, stream, from, at + pos, Interruptions(w.used), n);
      case Interrupted =>
        if pos > 0 {
          ResentBack(w.sent, stream, from, at + pos, Interruptions(w.used));
        }
      case _ =>
    }
  }

  /**
   * Whatever the kernel answers, the descriptor is left where the count says it is: the
   * stream up to there, with one byte repeated for each interrupted send.
   */
  lemma {:induction false} SendReaches(w: Wire, data: seq<byte>, pos: nat, block: bool, stream: seq<byte>, from: nat, at: nat)
    requires pos <= |data| && 0 <= Sending(w, data, pos, block).rc
    requires from <= at && IsPiece(stream, at, data) && Reached(w, stream, from, at + pos)
    ensures var r := Sending(w, data, pos, block);
            Reached(r.wire, stream, from, at + r.rc)
    decreases |w.script|, |data| - pos
  {
    hide Reached, IsPiece, Write, Later, Alike, Interruptions;
    if pos < |data| {
      SendMoves(w, data, pos, stream, from, at);
      var a := Write(w, data[pos..]);
      match a.outcome {
        case Accepted(n) => SendReaches(a.wire, data, pos + n, block, stream, from, at);
        case Interrupted => SendReaches(a.wire, data, pos - 1, block, stream, from, at);
        case _ =>
      }
    }
  }

  /** Two bytes; the kernel takes one, is interrupted, and takes what it is then given. */
  const SIGNALLED := [Accepted(1), Interrupted, Accepted(2)]
  const PAIR: seq<byte> := [65, 66]

  lemma SignalledSends()
    ensures Write(Wire(SIGNALLED, [], []), PAIR) == Attempt(Wire(SIGNALLED[1..], [65], SIGNALLED[..1]), Accepted(1))
    ensures Write(Wire(SIGNALLED[1..], [65], SIGNALLED[..1]), PAIR[1..])
              == Attempt(Wire(SIGNALLED[2..], [65], SIGNALLED[..2]), Interrupted)
    ensures Write(Wire(SIGNALLED[2..], [65], SIGNALLED[..2]), PAIR)
              == Attempt(Wire([], [65, 65, 66], SIGNALLED), Accepted(2))
  {
    hide Interruptions;
    assert SIGNALLED[1..][1..] == SIGNALLED[2..] && SIGNALLED[2..][1..] == [];
    assert [] + SIGNALLED[..1] == [SIGNALLED[0]] && SIGNALLED[..1] + [SIGNALLED[1]] == SIGNALLED[..2];
    assert SIGNALLED[..2] + [SIGNALLED[2]] == SIGNALLED;
    assert PAIR[..1] == [65] && PAIR[..2] == PAIR && [65] + PAIR == [65, 65, 66];
  }

  /** The first byte is delivered twice. */
  lemma InterruptionResends()
    ensures Sending(Wire(SIGNALLED, [], []), PAIR, 0, false) == Sent(Wire([], [65, 65, 66], SIGNALLED), 2, false)
  {
    SignalledSends();
    hide Write, Interruptions;
    var w1, w2 := Wire(SIGNALLED[1..], [65], SIGNALLED[..1]), Wire(SIGNALLED[2..], [65], SIGNALLED[..2]);
    assert PAIR[0..] == PAIR;
    assert Sending(w2, PAIR, 0, false) == Sent(Wire([], [65, 65, 66], SIGNALLED), 2, false);
    assert Sending(w1, PAIR, 1, false) == Sending(w2, PAIR, 0, false);
  }

  /** A signal before the first byte of any data fails the whole send. */
  lemma InterruptionFails(w: Wire, data: seq<byte>, block: bool)
    requires w.script != [] && w.script[0].Interrupted? && data != []
    ensures Sending(w, data, 0, block).rc == -1
  {
  }

  /** Some, but not all, of `data` has been added. */
  ghost predicate Partial(sent0: seq<byte>, sent: seq<byte>, data: seq<byte>) {
    exists k :: 0 <= k < |data| && sent == sent0 + data[..k]
  }

  /** One of the answers to a write is not that bytes were taken. */
  ghost predicate Refused(answers: seq<Outcome>) {
    exists o :: o in answers && (!o.Accepted? || o.n == 0)
  }

  lemma RefusedLater(w: Wire, v: Wire)
    requires Later(w, v) && (Refused(v.script) || Refused(Answers(w, v)))
    ensures Refused(w.script)
  {
    LaterScript(w, v);
  }

  /**
   * write_buf_to_fd (util.c): everything is written, or the call fails with a proper prefix
   * written; it fails exactly when one of the answers is not that bytes were taken.
   */
  method WriteBuf(w: Wire, data: seq<byte>) returns (wire: Wire, rc: int)
    ensures rc == 0 || rc == -1
    ensures rc == 0 ==> wire.sent == w.sent + data
    ensures rc == -1 ==> Partial(w.sent, wire.sent, data)
    ensures Later(w, wire) && (rc == -1 <==> Refused(Answers(w, wire)))
  {
    hide Write, Later;
    wire := w;
    var pos: nat := 0;
    assert Later(w, w) && Answers(w, w) == [] by { LaterRefl(w); }
    while pos < |data|
      invariant pos <= |data| && wire.sent == w.sent + data[..pos]
      invariant Later(w, wire) && !Refused(Answers(w, wire))
      decreases |wire.script|, |data| - pos
    {
      var a := Write(wire, data[pos..]);
      LaterTrans(w, wire, a.wire);
      OneMore(w, wire, a.wire, a.outcome);
      wire := a.wire;
      if !a.outcome.Accepted? || a.outcome.n == 0 {
        return wire, -1;
      }
      Splice(w.sent, data, 0, pos, pos + a.outcome.n);
      pos := pos + a.outcome.n;
    }
    return wire, 0;
  }

  lemma LaterRefl(w: Wire)
    ensures Later(w, w) && Answers(w, w) == []
  {
  }

  lemma NothingRefused(w: Wire)
    ensures Later(w, w) && !Refused(Answers(w, w))
  {
  }

  lemma AnswersSum(u: Wire, v: Wire, w: Wire)
    requires Later(u, v) && Later(v, w)
    ensures Answers(u, w) == Answers(u, v) + Answers(v, w)
  {
    LaterTrans(u, v, w);
    LaterScript(u, v);
    LaterScript(v, w);
    LaterScript(u, w);
  }

  lemma RefusedSum(u: Wire, v: Wire, w: Wire)
    requires Later(u, v) && Later(v, w)
    ensures Later(u, w) && (Refused(Answers(u, w)) <==> Refused(Answers(u, v)) || Refused(Answers(v, w)))
  {
    LaterTrans(u, v, w);
    AnswersSum(u, v, w);
  }

  /** One more answer, unless the script has run out. */
  lemma AnswersGrow(w: Wire, v: Wire, u: Wire)
    requires Later(w, v) && u.script == if v.script == [] then [] else v.script[1..]
    ensures Answers(w, u) == Answers(w, v) + if v.script == [] then [] else [v.script[0]]
  {
    LaterScript(w, v);
  }

  lemma OneMore(w: Wire, v: Wire, u: Wire, o: Outcome)
    requires Later(w, v)
    requires if v.script == [] then u.script == [] && o.Accepted? && o.n > 0
             else u.script == v.script[1..] && Alike(o, v.script[0])
    ensures Refused(Answers(w, u)) <==> Refused(Answers(w, v)) || !o.Accepted? || o.n == 0
  {
    AnswersGrow(w, v, u);
  }
}
