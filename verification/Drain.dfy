/** socket-handler.c, the send loop of client_drain_queue. */
module SocketDrains {
  import opened Bytes
  import opened RingBuffers
  import opened Wires

  /**
   * Peek and send piece by piece.  Whatever the kernel answers, a forced drain that
   * succeeds has sent at least `force` bytes, an unforced one has sent everything or
   * stopped because the socket would block, and the socket is where the count says.  It
   * fails only on a fault of the kernel, or if there is less than `force` to send.
   */
  method DrainLoop(rb: RingBuffer, r: nat, w: Wire, force: nat)
    returns (wire: Wire, rc: int, total: nat, again: bool)
    requires rb.Valid() && r in rb.heap && Reached(w, rb.stream, rb.heap[r].from, rb.heap[r].at)
    ensures rc == 0 || rc == -1
    ensures w.sent <= wire.sent && Later(w, wire)
    ensures rc == -1 ==> Faulty(w.script, 0 < force) || rb.Unread(r) < force
    ensures again ==> WouldBlock in Answers(w, wire)
    ensures rc == 0 ==> total <= rb.Unread(r) && Reached(wire, rb.stream, rb.heap[r].from, rb.heap[r].at + total)
    ensures rc == 0 && 0 < force ==> force <= total && !again
    ensures rc == 0 && force == 0 ==> again || total == rb.Unread(r)
  {
    hide RingBuffer.Valid, Reached, IsPiece, Sending, Later, Faulty, Answers;
    LaterRefl(w);
    wire, total, again := w, 0, false;
    rb.Bounds(r);
    var wlen := 0;
    while true
      invariant total <= rb.Unread(r) && 0 <= wlen && (0 < force ==> total < force && !again)
      invariant w.sent <= wire.sent && Later(w, wire) && (again ==> WouldBlock in Answers(w, wire))
      invariant Reached(wire, rb.stream, rb.heap[r].from, rb.heap[r].at + total)
      decreases |wire.script|, rb.Unread(r) - total
    {
      var data := rb.Peek(r, total);
      if data == [] {
        break;
      }
      var s := SendAll(wire, data, 0 < force);
      LaterTrans(w, wire, s.wire);
      AnswersSum(w, wire, s.wire);
      SendBlocks(wire, data, 0 < force);
      if s.rc < 0 {
        SendFault(wire, data, 0 < force);
        FaultyLater(w, wire, 0 < force);
      } else {
        SendReaches(wire, data, 0, 0 < force, rb.stream, rb.heap[r].from, rb.heap[r].at + total);
      }
      wire, again, wlen := s.wire, again || s.again, s.rc;
      if wlen <= 0 {
        break;
      }
      total := total + wlen;
      if 0 < force <= total {
        break;
      }
    }
    rc := if wlen < 0 || (0 < force && total < force) then -1 else 0;
  }

  lemma SendBlocks(w: Wire, data: seq<byte>, block: bool)
    ensures var r := Sending(w, data, 0, block); r.again ==> WouldBlock in Answers(w, r.wire)
  {
    hide Sending, Interruptions;
    SendVerdict(w, data, 0, block);
    var r := Sending(w, data, 0, block);
    if r.again {
      assert Last(Answers(w, r.wire)) in Answers(w, r.wire);
    }
  }
}
