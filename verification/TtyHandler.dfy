/** tty-handler.c: the local tty that mirrors a console. */
module TtyHandlers {
  import opened Bytes
  import opened Seqs
  import opened Modular
  import opened RingBuffers
  import opened PollTables
  import opened Pollers
  import opened Wires

  function Min(a: int, b: int): int { if a < b then a else b }

  /** `total` bytes of the stream from `at` have been written. */
  ghost predicate Delivered(sent0: seq<byte>, sent: seq<byte>, stream: seq<byte>, at: nat, total: nat) {
    at + total <= |stream| && sent == sent0 + stream[at..at + total]
  }

  lemma DeliveredNothing(sent: seq<byte>, stream: seq<byte>, at: nat)
    requires at <= |stream|
    ensures Delivered(sent, sent, stream, at, 0)
  {
  }

  lemma DeliveredMore(sent0: seq<byte>, sent: seq<byte>, stream: seq<byte>, at: nat, total: nat, buf: seq<byte>, n: nat)
    requires Delivered(sent0, sent, stream, at, total) && IsPiece(stream, at + total, buf) && n <= |buf|
    ensures Delivered(sent0, sent + buf[..n], stream, at, total + n)
  {
    Extend(sent0, stream, at, at + total, buf, n);
  }

  class TtyHandler {
    const rb: RingBuffer
    const pl: PollerSet
    const poller: nat
    const rbc: nat
    /** fd_flags, of which only O_NONBLOCK matters. */
    var nonblocking: bool
    var blocked: bool
    var wire: Wire

    /** The handler's consumer and poller are both registered, the latter watching for output iff blocked. */
    ghost predicate Attached()
      reads this, rb, rb.buf, pl, pl.table
    {
      && rb.Valid() && pl.Valid()
      && rbc in rb.heap
      && poller in pl.heap && poller in pl.watch
      && pl.watch[poller].events == Interest(blocked)
    }

    constructor (rb: RingBuffer, pl: PollerSet, poller: nat, rbc: nat, script: seq<Outcome>)
      ensures this.rb == rb && this.pl == pl && this.poller == poller && this.rbc == rbc
      ensures nonblocking && !blocked && wire == Wire(script, [], [])
    {
      this.rb := rb;
      this.pl := pl;
      this.poller := poller;
      this.rbc := rbc;
      nonblocking := true;
      blocked := false;
      wire := Wire(script, [], []);
    }

    /** tty_set_fd_blocking. */
    method SetFdBlocking(fdBlocking: bool)
      modifies `nonblocking
      ensures nonblocking == !fdBlocking
    {
      if nonblocking == fdBlocking {
        nonblocking := !fdBlocking;
      }
    }

    /** tty_set_blocked: the flag and the slot's POLLOUT change together. */
    method SetBlocked(blocked: bool)
      requires Attached()
      modifies `blocked, pl`watch, pl.table
      ensures Attached() && this.blocked == blocked
      ensures Rearmed(old(pl.watch), pl.watch, poller)
      ensures Untouched(old(pl.table.slots), old(pl.table.holder), pl.table.slots, pl.table.holder, pl.me)
    {
      hide RingBuffer.Valid, PollerSet.Valid, Untouched, Interest;
      if blocked == this.blocked {
        pl.Quiet();
        return;
      }
      this.blocked := blocked;
      pl.SetEvents(poller, Interest(blocked));
    }

    /**
     * tty_drain_queue.  Forced, it writes in blocking mode and stops as soon as `force`
     * bytes are out; unforced, it writes until the queue is empty or the tty blocks.
     */
    method DrainQueue(force: nat) returns (rc: int)
      requires Attached()
      modifies this, rb`heap, pl`watch, pl.table
      ensures Attached() && (rc == 0 || rc == -1)
      ensures Consumed(old(rb.heap), rb.heap, rbc)
      ensures Later(old(wire), wire) && (rc == -1 ==> rb.heap == old(rb.heap))
      ensures var answers := Answers(old(wire), wire);
              && (rc == -1 <==> Broken in answers || (0 < force && WouldBlock in answers))
              && (force == 0 ==> (blocked <==> old(blocked) || WouldBlock in answers))
      ensures rc == 0 ==> rb.heap[rbc].at <= |rb.stream|
      ensures rc == 0 ==> wire.sent == old(wire.sent) + rb.stream[old(rb.heap[rbc].at)..rb.heap[rbc].at]
      ensures rc == 0 && 0 < force ==> rb.heap[rbc].at - old(rb.heap[rbc].at) == Min(force, old(rb.Unread(rbc)))
      ensures rc == 0 && 0 < force ==> nonblocking && blocked == old(blocked)
      ensures rc == 0 && force == 0 ==> blocked || rb.Unread(rbc) == 0
      ensures Rearmed(old(pl.watch), pl.watch, poller)
      ensures Untouched(old(pl.table.slots), old(pl.table.holder), pl.table.slots, pl.table.holder, pl.me)
    {
      hide RingBuffer.Valid, RingBuffer.View, PollerSet.Valid, Untouched, Interest, Later, Answers;
      LaterRefl(wire);
      pl.Quiet();
      rb.Bounds(rbc);
      if 0 < force {
        SetFdBlocking(true);
      } else if blocked {
        assert rb.stream[rb.heap[rbc].at..rb.heap[rbc].at] == [];
        return 0;
      }
      var total, again;
      wire, rc, total, again := WriteLoop(rb, rbc, wire, force);
      if again {
        SetBlocked(true);
      }
      if rc == 0 {
        rb.Commit(rbc, total);
        if 0 < force {
          SetFdBlocking(false);
        }
      }
    }
  }

  /** The write loop of tty_drain_queue; `again` is the EAGAIN exit, which blocks the handler. */
  method WriteLoop(rb: RingBuffer, r: nat, w: Wire, force: nat)
    returns (wire: Wire, rc: int, total: nat, again: bool)
    requires rb.Valid() && r in rb.heap
    ensures rc == 0 || rc == -1
    ensures again ==> rc == 0 && force == 0
    ensures rc == 0 ==> total <= rb.Unread(r) && Delivered(w.sent, wire.sent, rb.stream, rb.heap[r].at, total)
    ensures rc == 0 && 0 < force ==> total == Min(force, rb.Unread(r))
    ensures rc == 0 && force == 0 ==> again || total == rb.Unread(r)
    ensures Later(w, wire)
    ensures rc == -1 <==> Broken in Answers(w, wire) || (0 < force && WouldBlock in Answers(w, wire))
    ensures again <==> force == 0 && WouldBlock in Answers(w, wire)
  {
    hide RingBuffer.Valid, Write, IsPiece, Delivered, Wrap, Later, Answers, Interruptions, Alike;
    LaterRefl(w);
    rb.Bounds(r);
    DeliveredNothing(w.sent, rb.stream, rb.heap[r].at);
    wire, total, again := w, 0, false;
    ghost var at := rb.heap[r].at;
    while true
      invariant total <= rb.Unread(r) && (0 < force ==> total < force)
      invariant Delivered(w.sent, wire.sent, rb.stream, at, total)
      invariant Later(w, wire) && Broken !in Answers(w, wire) && WouldBlock !in Answers(w, wire)
      decreases |wire.script|, rb.Unread(r) - total
    {
      var buf := rb.Peek(r, total);
      if buf == [] {
        return wire, 0, total, false;
      }
      if 0 < force < total + |buf| {
        PieceFront(rb.stream, at + total, buf, force - total);
        buf := buf[..force - total];
      }
      var a := Write(wire, buf);
      LaterTrans(w, wire, a.wire);
      AnswersGrow(w, wire, a.wire);
      if wire.script != [] {
        SameKind(a.outcome, wire.script[0]);
      }
      match a.outcome {
        case Interrupted =>
        case WouldBlock => return a.wire, if force == 0 then 0 else -1, total, force == 0;
        case Broken => return a.wire, -1, total, false;
        case Accepted(n) =>
          DeliveredMore(w.sent, wire.sent, rb.stream, at, total, buf, n);
          total := total + n;
      }
      wire := a.wire;
      if 0 < force <= total {
        return wire, 0, total, false;
      }
    }
  }
}
