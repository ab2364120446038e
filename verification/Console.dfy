/**
 * A console: its ring, its pollers, its socket clients and the handlers beside them
 * (socket-handler.c, and ringbuffer_queue, which calls back into all of them).
 */
module Consoles {
  import opened Bytes
  import opened Seqs
  import opened RingBuffers
  import opened Timevals
  import opened PollTables
  import opened Pollers
  import opened Wires
  import opened SocketDrains
  import opened Links
  import opened TtyHandlers
  import opened LogFiles
  import opened LogHandlers
  import opened Modular
  import opened TextLogHandlers

  /** SOCKET_HANDLER_PKT_US_TIMEOUT. */
  const FLUSH_TIMEOUT := Timeval(0, 4000)

  /** enum poller_ret, without POLLER_EXIT, which no handler returns. */
  datatype PollerRet = PollerOk | PollerRemove

  /** recv() on a client's socket, once input is reported: EAGAIN, end or error, or bytes for the tty. */
  datatype Received = NothingYet | Hangup | Bytes(data: seq<byte>)

  /** The local tty, if configured: its descriptor and what the kernel will answer on it. */
  datatype LocalTty = LocalTty(fd: nat, script: seq<Outcome>)

  /** A log, if configured: its size, what is on disk at startup, and how its writes will go. */
  datatype LogConfig = LogConfig(size: nat, pagesize: nat, files: Files, script: seq<Outcome>, renames: seq<bool>, opens: seq<bool>,
                                 dates: seq<Option<Text>>)

  ghost function WorldOf(clients: map<nat, Client>, pl: PollerSet, rb: RingBuffer,
                         tty: TtyHandler?, log: LogHandler?, text: TextLogHandler?, listener: nat): World
    reads pl, rb, tty
  {
    World(clients, pl.heap, pl.watch, rb.heap, rb.stream,
          if tty == null then NoTty else Tty(tty.rbc, tty.poller, tty.blocked),
          if log == null then None else Some(log.rbc),
          if text == null then None else Some(text.rbc), listener)
  }

  /** A consumer that has registered and read nothing yet. */
  ghost predicate Starting(rb: RingBuffer, r: nat)
    reads rb
  {
    r in rb.heap && rb.heap[r].got == [] && rb.heap[r].from == |rb.stream|
  }

  /** socket_init and tty_init, as far as a console's own structures go. */
  method InitListenerAndTty(rb: RingBuffer, pl: PollerSet, sd: nat, local: Option<LocalTty>)
    returns (listener: nat, tty: TtyHandler?)
    requires rb.Valid() && pl.Valid() && pl.heap == map[] && rb.heap == map[] && pl.watch == map[]
    modifies rb`consumers, rb`heap, rb`next, pl, pl.table
    ensures rb.Valid() && pl.Valid() && (tty != null ==> fresh(tty) && tty.rb == rb && tty.pl == pl)
    ensures tty != null ==> tty.wire.sent == [] && Starting(rb, tty.rbc)
    ensures tty != null <==> local.Some?
    ensures tty != null ==> tty.wire.script == local.value.script && tty.poller in pl.watch && pl.watch[tty.poller].fd == local.value.fd
    ensures listener in pl.watch && pl.watch[listener] == Watch(sd, Interest(false))
    ensures var w := WorldOf(map[], pl, rb, tty, null, null, listener); Tied(w, {}, {}) && Awake(w, {})
    ensures forall p :: p in pl.heap ==> !pl.heap[p].remove
    ensures Untouched(old(pl.table.slots), old(pl.table.holder), pl.table.slots, pl.table.holder, pl.me)
  {
    hide RingBuffer.Valid, PollerSet.Valid, Tied, Awake, Untouched, Interest;
    listener := pl.next;
    EmptyWorld(rb.stream, listener);
    ghost var w := WorldOf(map[], pl, rb, null, null, null, listener);
    var p := pl.Register(ForListener, false, sd, Interest(false));
    AddListenerKeeps(w, p, pl.heap[p], pl.watch[p]);
    tty := null;
    if local.Some? {
      w := WorldOf(map[], pl, rb, null, null, null, listener);
      ghost var slots, holder := pl.table.slots, pl.table.holder;
      var q := pl.Register(ForTty, false, local.value.fd, Interest(false));
      UntouchedTrans(old(pl.table.slots), old(pl.table.holder), slots, holder, pl.table.slots, pl.table.holder, pl.me);
      var r := rb.Register(ForTty);
      AddTtyKeeps(w, q, pl.heap[q], local.value.fd, r, rb.heap[r]);
      tty := new TtyHandler(rb, pl, q, r, local.value.script);
    }
  }

  /** log_init. */
  method InitLog(rb: RingBuffer, pl: PollerSet, ghost listener: nat, tty: TtyHandler?, raw: Option<LogConfig>)
    returns (log: LogHandler?)
    requires rb.Valid()
    requires var w := WorldOf(map[], pl, rb, tty, null, null, listener); Tied(w, {}, {}) && Awake(w, {})
    modifies rb`consumers, rb`heap, rb`next
    ensures rb.Valid()
    ensures var w := WorldOf(map[], pl, rb, tty, log, null, listener); Tied(w, {}, {}) && Awake(w, {})
    ensures log != null ==> fresh(log) && log.rb == rb && log.Valid() && log.rbc in rb.heap && Starting(rb, log.rbc)
    ensures forall r :: r in old(rb.heap) ==> r in rb.heap && rb.heap[r] == old(rb.heap)[r]
    ensures LogAs(log, raw)
    ensures log != null ==> log.pieces == [] && log.file.script == raw.value.script
  {
    hide RingBuffer.Valid, Tied, Awake, LogHandler.Valid;
    log := null;
    if raw.Some? {
      ghost var w := WorldOf(map[], pl, rb, tty, null, null, listener);
      var r := rb.Register(ForLog);
      AddLogKeeps(w, r, rb.heap[r]);
      log := new LogHandler(rb, r, raw.value.size, raw.value.files, raw.value.script, raw.value.renames, raw.value.opens);
    }
  }

  /** text_log_init. */
  method InitTextLog(rb: RingBuffer, pl: PollerSet, ghost listener: nat, tty: TtyHandler?, log: LogHandler?, lines: Option<LogConfig>)
    returns (text: TextLogHandler?)
    requires rb.Valid()
    requires var w := WorldOf(map[], pl, rb, tty, log, null, listener); Tied(w, {}, {}) && Awake(w, {})
    modifies rb`consumers, rb`heap, rb`next
    ensures rb.Valid()
    ensures var w := WorldOf(map[], pl, rb, tty, log, text, listener); Tied(w, {}, {}) && Awake(w, {})
    ensures forall r :: r in old(rb.heap) ==> r in rb.heap && rb.heap[r] == old(rb.heap)[r]
    ensures text != null ==> fresh(text) && text.rb == rb && text.Valid() && text.rbc in rb.heap
                             && Starting(rb, text.rbc) && text.seen == []
    ensures TextAs(text, lines) && (text != null ==> text.file.script == lines.value.script)
  {
    hide RingBuffer.Valid, Tied, Awake, TextLogHandler.Valid;
    text := null;
    if lines.Some? {
      ghost var w := WorldOf(map[], pl, rb, tty, log, null, listener);
      var r := rb.Register(ForTextLog);
      AddLogKeeps(w, r, rb.heap[r]);
      text := new TextLogHandler(rb, r, lines.value.size, lines.value.pagesize, lines.value.files, lines.value.script,
                                 lines.value.renames, lines.value.opens, lines.value.dates);
    }
  }

  /** handlers_init: the handlers a console is configured with. */
  method InitHandlers(rb: RingBuffer, pl: PollerSet, sd: nat, local: Option<LocalTty>,
                      raw: Option<LogConfig>, lines: Option<LogConfig>)
    returns (listener: nat, tty: TtyHandler?, log: LogHandler?, text: TextLogHandler?)
    requires rb.Valid() && pl.Valid() && pl.heap == map[] && rb.heap == map[] && pl.watch == map[]
    modifies rb`consumers, rb`heap, rb`next, pl, pl.table
    ensures rb.Valid() && pl.Valid()
    ensures tty != null ==> fresh(tty) && tty.rb == rb && tty.pl == pl && tty.wire.sent == [] && Starting(rb, tty.rbc)
    ensures log != null ==> fresh(log) && log.rb == rb && log.Valid() && Starting(rb, log.rbc) && log.pieces == []
    ensures text != null ==> fresh(text) && text.rb == rb && text.Valid() && Starting(rb, text.rbc) && text.seen == []
    ensures var w := WorldOf(map[], pl, rb, tty, log, text, listener); Tied(w, {}, {}) && Awake(w, {})
    ensures forall p :: p in pl.heap ==> !pl.heap[p].remove
    ensures (tty != null <==> local.Some?) && LogAs(log, raw) && TextAs(text, lines)
    ensures listener in pl.watch && pl.watch[listener] == Watch(sd, Interest(false))
    ensures tty != null ==> tty.wire.script == local.value.script && tty.poller in pl.watch && pl.watch[tty.poller].fd == local.value.fd
    ensures log != null ==> log.file.script == raw.value.script
    ensures text != null ==> text.file.script == lines.value.script
    ensures Untouched(old(pl.table.slots), old(pl.table.holder), pl.table.slots, pl.table.holder, pl.me)
  {
    hide RingBuffer.Valid, PollerSet.Valid, Tied, Awake, Untouched, LogHandler.Valid, TextLogHandler.Valid;
    listener, tty := InitListenerAndTty(rb, pl, sd, local);
    log := InitLog(rb, pl, listener, tty, raw);
    text := InitTextLog(rb, pl, listener, tty, log, lines);
  }

  /** The client has been sent everything, or its socket has answered since `w` that it takes no more for now. */
  ghost predicate DrainedSince(k: Client, heap: map<nat, Consumer>, n: nat, w: Wire) {
    && k.rbc.Some? && k.rbc.value in heap
    && (heap[k.rbc.value].at == n || (k.blocked && WouldBlock in Answers(w, k.wire)))
  }

  lemma DrainedBefore(k0: Client, k: Client, heap: map<nat, Consumer>, n: nat, w: Wire)
    requires DrainedSince(k, heap, n, k0.wire) && Later(w, k0.wire) && Later(k0.wire, k.wire)
    ensures DrainedSince(k, heap, n, w)
  {
    AnswersSum(w, k0.wire, k.wire);
  }

  ghost predicate LogAs(log: LogHandler?, raw: Option<LogConfig>) {
    && (log != null <==> raw.Some?)
    && (log != null ==>
          && log.maxsize == MaxSize(raw.value.size, PAGE_SIZE) && log.found == raw.value.files
          && log.renames == raw.value.renames && log.opens == raw.value.opens)
  }

  ghost predicate TextAs(text: TextLogHandler?, lines: Option<LogConfig>) {
    && (text != null <==> lines.Some?)
    && (text != null ==>
          && text.maxsize == MaxSize(lines.value.size, lines.value.pagesize) && text.found == lines.value.files
          && text.renames == lines.value.renames && text.opens == lines.value.opens && text.dates == lines.value.dates)
  }

  /** A console as the server sees it. */
  datatype View = View(stream: seq<byte>, size: nat, clients: map<nat, Client>, next: nat, pollers: map<nat, Poller>, cells: seq<nat>)

  class Console {
    const rb: RingBuffer
    const pl: PollerSet
    const tty: TtyHandler?
    const log: LogHandler?
    const text: TextLogHandler?
    /** The poller of the listening socket. */
    const listener: nat
    /** struct socket_handler: the array of client pointers and the clients. */
    var order: seq<nat>
    var clients: map<nat, Client>
    var next: nat

    ghost function W(): World
      reads this, rb, pl, tty
    {
      WorldOf(clients, pl, rb, tty, log, text, listener)
    }

    /** The objects a console is made of; the slot table is shared. */
    ghost function Repr(): set<object> {
      {this, rb, rb.buf, pl} + (if tty == null then {} else {tty})
      + (if log == null then {} else {log}) + (if text == null then {} else {text})
    }

    /** The containers are sound, whatever they hold. */
    ghost predicate Sound()
      reads this, rb, rb.buf, pl, pl.table
    {
      && rb.Valid() && pl.Valid() && Listed(order, clients, next)
      && (tty != null ==> tty.rb == rb && tty.pl == pl)
      && (log != null ==> log.rb == rb)
      && (text != null ==> text.rb == rb)
    }

    /** Both logs have been given exactly what their consumers have committed, from the first byte on. */
    ghost predicate LogsOk(heap: map<nat, Consumer>, orphans: set<nat>)
      reads log, text
    {
      && (log != null && log.rbc in heap && log.rbc !in orphans && heap[log.rbc].owner == ForLog ==>
            log.Valid() && Join(log.pieces) == heap[log.rbc].got && heap[log.rbc].from == 0)
      && (text != null && text.rbc in heap && text.rbc !in orphans && heap[text.rbc].owner == ForTextLog ==>
            text.Valid() && text.seen == heap[text.rbc].got && heap[text.rbc].from == 0)
    }

    /** So has the local tty. */
    ghost predicate TtyOk(heap: map<nat, Consumer>, orphans: set<nat>)
      reads tty
    {
      tty != null && tty.rbc in heap && tty.rbc !in orphans && heap[tty.rbc].owner == ForTty ==>
        tty.wire.sent == heap[tty.rbc].got && heap[tty.rbc].from == 0
    }

    ghost predicate Mirrored(heap: map<nat, Consumer>, orphans: set<nat>)
      reads log, text, tty
    {
      LogsOk(heap, orphans) && TtyOk(heap, orphans)
    }

    /**
     * The console's invariant.  Between events nothing is stray, orphaned or dozing; in the
     * middle of one, the parameters say what is.
     */
    ghost predicate Good(stray: set<nat>, orphans: set<nat>, dozing: set<nat>)
      reads Repr(), pl.table
    {
      && Sound() && Mirrored(rb.heap, orphans)
      && Tied(W(), stray, orphans) && Awake(W(), dozing)
    }

    /** The handlers are those the configuration asks for, over the files it names. */
    ghost predicate Configured(local: Option<LocalTty>, raw: Option<LogConfig>, lines: Option<LogConfig>) {
      (tty != null <==> local.Some?) && LogAs(log, raw) && TextAs(text, lines)
    }

    ghost function Snapshot(): Snap
      reads this, pl, pl.table
    {
      Snap(pl.table.slots, pl.table.holder, pl.pollers, pl.heap, clients)
    }

    lemma Still()
      requires pl.Valid()
      ensures Follows(Snapshot(), Snapshot(), pl.me) && pl.watch.Keys == pl.heap.Keys
    {
      hide PollerSet.Valid, Untouched;
      pl.Quiet();
      ShiftedRefl(pl.pollers);
    }

    lemma MirrorsMove(heap0: map<nat, Consumer>, heap: map<nat, Consumer>, r: nat)
      requires LogsOk(heap0, {}) && Consumed(heap0, heap, r)
      requires heap0[r].owner.ForClient? || heap0[r].owner.ForTty?
      ensures LogsOk(heap, {}) && (TtyOk(heap0, {}) && heap0[r].owner.ForClient? ==> TtyOk(heap, {}))
    {
      hide LogHandler.Valid, TextLogHandler.Valid;
    }

    lemma MirrorsDrop(heap: map<nat, Consumer>, r: nat, orphans: set<nat>)
      requires LogsOk(heap, orphans) && (TtyOk(heap, orphans) || (tty != null && tty.rbc == r))
      ensures Mirrored(heap - {r}, orphans) && (orphans <= {r} ==> Mirrored(heap, {r}) && Mirrored(heap - {r}, {}))
    {
      hide LogHandler.Valid, TextLogHandler.Valid;
    }

    lemma MirrorsAdd(heap: map<nat, Consumer>, r: nat, y: Consumer)
      requires Mirrored(heap, {}) && r !in heap && y.owner.ForClient?
      ensures Mirrored(heap[r := y], {})
    {
      hide LogHandler.Valid, TextLogHandler.Valid;
    }

    /**
     * console_init: the ring, the listening socket, and whichever handlers the
     * configuration asks for.
     */
    constructor (me: nat, table: PollTable, size: nat, sd: nat, local: Option<LocalTty>,
                 raw: Option<LogConfig>, lines: Option<LogConfig>)
      requires 0 < size && table.Valid() && forall j :: j in table.holder ==> !Mine(table.holder[j], me)
      modifies table
      ensures Good({}, {}, {}) && fresh(Repr()) && pl.me == me && pl.table == table
      ensures rb.size == size && rb.stream == [] && clients == map[] && Configured(local, raw, lines)
      ensures listener in pl.watch && pl.watch[listener] == Watch(sd, Interest(false))
      ensures tty != null ==> tty.wire.script == local.value.script && tty.poller in pl.watch && pl.watch[tty.poller].fd == local.value.fd
      ensures log != null ==> log.file.script == raw.value.script
      ensures text != null ==> text.file.script == lines.value.script
      ensures forall p :: p in pl.heap ==> !pl.heap[p].remove
      ensures Untouched(old(table.slots), old(table.holder), table.slots, table.holder, me)
    {
      hide RingBuffer.Valid, PollerSet.Valid, Tied, Awake, Untouched, LogHandler.Valid, TextLogHandler.Valid, Wrap, Backed, LogAs,
           TextAs, Interest;
      var ring := new RingBuffer(size);
      var set_ := new PollerSet(me, table);
      var lid, th, lh, xh := InitHandlers(ring, set_, sd, local, raw, lines);
      listener := lid;
      rb, pl, tty, log, text := ring, set_, th, lh, xh;
      order, clients, next := [], map[], 0;
      new;
      hide LogsOk, TtyOk, Starting;
      StartsMirrored();
    }

    lemma StartsMirrored()
      requires rb.stream == []
      requires tty != null ==> Starting(rb, tty.rbc) && tty.wire.sent == []
      requires log != null ==> Starting(rb, log.rbc) && log.Valid() && log.pieces == []
      requires text != null ==> Starting(rb, text.rbc) && text.Valid() && text.seen == []
      ensures Mirrored(rb.heap, {})
    {
      hide LogHandler.Valid, TextLogHandler.Valid;
    }

    /** client_set_blocked: the flag and the slot's POLLOUT change together. */
    method SetBlocked(c: nat, blocked: bool)
      requires Sound() && c in clients && Linked(W(), c, {}, {})
      modifies `clients, pl`watch, pl.table
      ensures Sound() && W() == Drain(old(W()), c, old(clients[c]).(blocked := blocked), rb.heap)
      ensures Follows(old(Snapshot()), Snapshot(), pl.me)
    {
      hide RingBuffer.Valid, PollerSet.Valid, Listed, Untouched, Interest, Wired;
      Still();
      var k := clients[c];
      ListedUpdate(order, clients, next, c, k.(blocked := blocked));
      if k.blocked != blocked {
        clients := clients[c := k.(blocked := blocked)];
        pl.SetEvents(k.poller.value, Interest(blocked));
      }
    }

    ghost predicate Drained(c: nat, w: Wire)
      reads this, rb
    {
      c in clients && DrainedSince(clients[c], rb.heap, |rb.stream|, w)
    }

    /** A drain that fails does so for a fault of the kernel, or because it was asked for too much. */
    ghost predicate Blames(script: seq<Outcome>, rc: int, force: nat, unread: int) {
      rc == -1 ==> Faulty(script, 0 < force) || unread < force
    }

    /** The sending half of client_drain_queue: everything but the commit. */
    method ClientSend(c: nat, force: nat) returns (rc: int, total: nat)
      requires Sound() && c in clients && Linked(W(), c, {}, {})
      modifies `clients, pl`watch, pl.table
      ensures Sound() && (rc == 0 || rc == -1)
      ensures c in clients && clients[c] == old(clients[c]).(blocked := clients[c].blocked, wire := clients[c].wire)
      ensures W() == Drain(old(W()), c, clients[c], rb.heap)
      ensures clients[c].wire.used + clients[c].wire.script == clients[c].script
      ensures Blames(old(clients[c].wire.script), rc, force, rb.Unread(clients[c].rbc.value))
      ensures clients[c].blocked ==> old(clients[c].blocked) || WouldBlock in Answers(old(clients[c].wire), clients[c].wire)
      ensures rc == 0 ==>
                var x := rb.heap[clients[c].rbc.value];
                total <= rb.Unread(clients[c].rbc.value) && Reached(clients[c].wire, rb.stream, x.from, x.at + total)
      ensures rc == 0 && 0 < force ==> clients[c].blocked == old(clients[c].blocked) && force <= total
      ensures rc == 0 && force == 0 ==> clients[c].blocked || total == rb.Unread(clients[c].rbc.value)
      ensures Follows(old(Snapshot()), Snapshot(), pl.me)
    {
      hide RingBuffer.Valid, PollerSet.Valid, Listed, Interest, Reached, Wrap, Follows, Answers;
      Still();
      DrainNothing(W(), c);
      var k := clients[c];
      var wire, again;
      wire, rc, total, again := DrainLoop(rb, k.rbc.value, k.wire, force);
      if again {
        SetBlocked(c, true);
      }
      k := clients[c].(wire := wire);
      ListedUpdate(order, clients, next, c, k);
      FollowsUpdate(old(Snapshot()), Snapshot(), c, k, pl.me);
      clients := clients[c := k];
    }

    /** client_drain_queue. */
    method ClientDrain(c: nat, force: nat) returns (rc: int)
      requires Sound() && c in clients && Linked(W(), c, {}, {})
      modifies `clients, rb`heap, pl`watch, pl.table
      ensures Sound() && (rc == 0 || rc == -1)
      ensures c in clients && clients[c] == old(clients[c]).(blocked := clients[c].blocked, wire := clients[c].wire)
      ensures W() == Drain(old(W()), c, clients[c], rb.heap)
      ensures Consumed(old(rb.heap), rb.heap, clients[c].rbc.value)
      ensures rc == -1 ==> rb.heap == old(rb.heap)
      ensures Blames(old(clients[c].wire.script), rc, force, old(rb.Unread(clients[c].rbc.value)))
      ensures clients[c].blocked ==> old(clients[c].blocked) || WouldBlock in Answers(old(clients[c].wire), clients[c].wire)
      ensures rc == 0 ==> Wired(clients[c], rb.heap[clients[c].rbc.value], rb.stream)
      ensures rc == 0 && 0 < force ==> clients[c].blocked == old(clients[c].blocked)
      ensures rc == 0 && force == 0 && !old(clients[c].blocked) ==> Drained(c, old(clients[c].wire))
      ensures rc == 0 && 0 < force ==> old(rb.heap[clients[c].rbc.value].at) + force <= rb.heap[clients[c].rbc.value].at
      ensures rc == 0 && force == 0 ==> clients[c].blocked || rb.Unread(clients[c].rbc.value) == 0
      ensures Follows(old(Snapshot()), Snapshot(), pl.me)
    {
      hide RingBuffer.Valid, RingBuffer.View, PollerSet.Valid, Listed, Interest, Reached, Circular, Follows, Answers;
      var r := clients[c].rbc.value;
      if force == 0 && clients[c].blocked {
        Still();
        DrainNothing(W(), c);
        return 0;
      }
      var total;
      rc, total := ClientSend(c, force);
      if rc == 0 {
        rb.Commit(r, total);
      }
    }

    /** client_close: the poller and the consumer go unless a NULL says someone else takes them. */
    method ClientClose(c: nat)
      requires Sound() && c in clients
      requires clients[c].poller.Some? ==> clients[c].poller.value in pl.heap
      requires clients[c].rbc.Some? ==> clients[c].rbc.value in rb.heap
      modifies `order, `clients, rb`consumers, rb`heap, pl, pl.table
      ensures Sound()
      ensures clients == old(clients) - {c} && |order| < |old(order)|
      ensures var k := old(clients[c]);
              && W() == old(W()).(clients := clients, pollers := pl.heap, watch := pl.watch, consumers := rb.heap)
              && pl.heap == Freed(old(pl.heap), k.poller) && pl.watch == Freed(old(pl.watch), k.poller)
              && rb.heap == Freed(old(rb.heap), k.rbc)
              && (k.rbc.None? ==> rb.consumers == old(rb.consumers))
              && (k.poller.None? ==> pl.pollers == old(pl.pollers))
      ensures Follows(old(Snapshot()), Snapshot(), pl.me)
    {
      hide RingBuffer.Valid, PollerSet.Valid, Listed, Untouched, Shifted, Reclaimable, Lasting;
      Still();
      LastingRemove(clients, c);
      var k := clients[c];
      pl.UnregisterIf(k.poller);
      rb.UnregisterIf(k.rbc);
      IsListed(order, clients, next, c);
      var idx := Find(order, c);
      ListedRemove(order, clients, next, idx);
      clients := clients - {c};
      order := RemoveAt(order, idx);
    }

    /** The client's flush timer is set for 4 ms after `now`. */
    ghost predicate Deadline(c: nat, now: Timeval)
      reads this, pl
    {
      && c in clients && clients[c].poller.Some? && clients[c].poller.value in pl.heap
      && now.Normal() && pl.heap[clients[c].poller.value].timeout.Us() == now.Us() + 4000
    }

    /** Less than a packet unread: arm the flush timer and wait. */
    method ClientWaits(c: nat, ghost dozing: set<nat>) returns (ghost now: Timeval)
      requires Good({}, {}, dozing) && c in clients && Linked(W(), c, {}, {})
      requires rb.Unread(clients[c].rbc.value) < PKT_SIZE
      modifies pl`heap
      ensures Good({}, {}, dozing - {clients[c].rbc.value})
      ensures Deadline(c, now)
      ensures Follows(old(Snapshot()), Snapshot(), pl.me)
    {
      hide RingBuffer.Valid, PollerSet.Valid, Listed, Interest, Wired, LogsOk, TtyOk, Tied, Awake, Untouched, Shifted;
      Still();
      ghost var w := W();
      var p, r := clients[c].poller.value, clients[c].rbc.value;
      now := pl.SetTimeout(p, FLUSH_TIMEOUT);
      RetimeTied(w, p, pl.heap[p].timeout, {});
      RetimeAwake(w, p, pl.heap[p].timeout, dozing, r);
      Wake(W(), r, dozing + {r});
      Doze(W(), dozing + {r} - {r}, dozing - {r});
    }

    /** client_ringbuffer_poll. */
    method ClientRingPoll(c: nat, force: nat, ghost dozing: set<nat>) returns (ok: bool, ghost now: Timeval)
      requires Good({}, {}, dozing) && c in clients && Linked(W(), c, {}, {})
      requires 0 < force ==> clients[c].rbc.value !in dozing
      modifies `order, `clients, rb`consumers, rb`heap, pl, pl.table
      ensures var r := old(clients[c].rbc.value);
              && Consumed(old(rb.heap), rb.heap, r) && rb.consumers == old(rb.consumers)
              && (if ok then Good({}, {}, dozing - {r}) else Good({}, {r}, dozing + {r}))
              && (ok && 0 < force ==> old(rb.heap[clients[c].rbc.value].at) + force <= rb.heap[r].at)
              && (force == 0 && old(rb.Unread(clients[c].rbc.value)) < PKT_SIZE ==>
                    ok && rb.heap == old(rb.heap) && clients == old(clients) && Deadline(c, now))
      ensures ok ==> clients.Keys == old(clients.Keys)
      ensures ok && 0 < force ==> clients[c].blocked == old(clients[c].blocked)
      ensures ok && force == 0 && old(rb.Unread(clients[c].rbc.value)) >= PKT_SIZE && !old(clients[c].blocked) ==>
                Drained(c, old(clients[c].wire))
      ensures force <= old(rb.Unread(clients[c].rbc.value)) ==> Stays(old(clients), clients, 0 < force)
      ensures Follows(old(Snapshot()), Snapshot(), pl.me)
    {
      hide RingBuffer.Valid, PollerSet.Valid, Listed, Interest, Wired, LogsOk, TtyOk, Tied, Awake, Follows;
      Still();
      ghost var w := W();
      var p, r := clients[c].poller.value, clients[c].rbc.value;
      if force == 0 && rb.Len(r) < PKT_SIZE {
        now := ClientWaits(c, dozing);
        ok := true;
        return;
      }
      now := CLEARED;
      ok := true;
      var rc := ClientDrain(c, force);
      if rc != 0 {
        ghost var snap := Snapshot();
        ClientLeavesRing(c, w, p, r, dozing);
        FollowsTrans(old(Snapshot()), snap, Snapshot(), pl.me);
        ok := false;
        return;
      }
      DrainTied(w, c, clients[c], rb.heap);
      DrainSettles(w, c, clients[c], rb.heap, force, dozing);
      MirrorsMove(old(rb.heap), rb.heap, r);
    }

    /** The failure path of client_ringbuffer_poll: rbc set to NULL, then client_close. */
    method ClientLeavesRing(c: nat, ghost w: World, p: nat, r: nat, ghost dozing: set<nat>)
      requires Sound() && Mirrored(rb.heap, {}) && Tied(w, {}, {}) && Awake(w, dozing)
      requires c in w.clients && w.clients[c].poller == Some(p) && w.clients[c].rbc == Some(r)
      requires c in clients && clients[c].poller == Some(p) && p in pl.heap
      requires W() == Drain(w, c, clients[c], w.consumers)
      modifies `order, `clients, rb`consumers, rb`heap, pl, pl.table
      ensures Good({}, {r}, dozing + {r}) && rb.heap == old(rb.heap) && rb.consumers == old(rb.consumers)
      ensures clients == old(clients) - {c}
      ensures Follows(old(Snapshot()), Snapshot(), pl.me)
    {
      hide RingBuffer.Valid, PollerSet.Valid, Listed, Interest, LogsOk, TtyOk, Tied, Awake, Follows;
      ListedUpdate(order, clients, next, c, clients[c].(rbc := None));
      Still();
      FollowsUpdate(Snapshot(), Snapshot(), c, clients[c].(rbc := None), pl.me);
      FreedUpdate(clients, c, clients[c].(rbc := None));
      FreedUpdate(w.clients, c, clients[c]);
      FreedUpdate(w.watch, p, pl.watch[p]);
      clients := clients[c := clients[c].(rbc := None)];
      ghost var snap := Snapshot();
      ClientClose(c);
      FollowsTrans(old(Snapshot()), snap, Snapshot(), pl.me);
      CloseFromRingKeeps(w, c, p, r, dozing);
      MirrorsDrop(rb.heap, r, {});
    }

    /** The local tty is given up only for an error, or for EAGAIN where it was to block. */
    ghost predicate TtyBlames(rc: int, force: nat, script: seq<Outcome>) {
      rc == -1 ==> Broken in script || (0 < force && WouldBlock in script)
    }

    /** tty_drain_queue, in terms of the console. */
    method TtyDrain(force: nat) returns (rc: int)
      requires Sound() && TtyLinked(W(), {}, {}) && TtyOk(rb.heap, {})
      modifies tty, rb`heap, pl`watch, pl.table
      ensures Sound() && (rc == 0 || rc == -1)
      ensures rc == 0 ==> TtyOk(rb.heap, {})
      ensures tty.poller in old(pl.watch) && W() == DrainTty(old(W()), tty.blocked, rb.heap)
      ensures Consumed(old(rb.heap), rb.heap, tty.rbc)
      ensures rc == 0 && 0 < force ==> tty.blocked == old(tty.blocked)
      ensures rc == 0 && 0 < force <= old(rb.Unread(tty.rbc)) ==> old(rb.heap[tty.rbc].at) + force == rb.heap[tty.rbc].at
      ensures TtyBlames(rc, force, old(tty.wire.script))
      ensures rc == 0 && force == 0 ==> tty.blocked || rb.Unread(tty.rbc) == 0
      ensures rc == 0 && force == 0 && !old(tty.blocked) ==> TtyDrained(old(tty.wire))
      ensures Follows(old(Snapshot()), Snapshot(), pl.me)
    {
      hide RingBuffer.Valid, PollerSet.Valid, Listed, Untouched, Interest, Shifted;
      ShiftedRefl(pl.pollers);
      ghost var x := rb.heap[tty.rbc];
      rb.Bounds(tty.rbc);
      rc := tty.DrainQueue(force);
      LaterScript(old(tty.wire), tty.wire);
      if rc == 0 {
        rb.Bounds(tty.rbc);
        Slices(rb.stream, x.from, x.at, rb.heap[tty.rbc].at);
      }
    }

    /** tty_ringbuffer_poll. */
    method TtyRingPoll(force: nat, ghost dozing: set<nat>) returns (ok: bool)
      requires Good({}, {}, dozing) && TtyLinked(W(), {}, {})
      requires 0 < force ==> tty.rbc !in dozing && force <= rb.Unread(tty.rbc)
      modifies tty, rb`heap, pl, pl.table
      ensures Consumed(old(rb.heap), rb.heap, tty.rbc)
      ensures if ok then Good({}, {}, dozing - {tty.rbc}) else Good({}, {tty.rbc}, dozing + {tty.rbc})
      ensures ok && 0 < force ==> old(rb.heap[tty.rbc].at) + force == rb.heap[tty.rbc].at
      ensures TtyBlames(if ok then 0 else -1, force, old(tty.wire.script))
      ensures Follows(old(Snapshot()), Snapshot(), pl.me)
    {
      hide RingBuffer.Valid, PollerSet.Valid, Listed, Interest, LogsOk, TtyOk, Tied, Awake, TtyLinked, Reclaimable, Follows;
      ghost var w := W();
      TtyOwns(w);
      var rc := TtyDrain(force);
      MirrorsMove(old(rb.heap), rb.heap, tty.rbc);
      if rc != 0 {
        DrainTtyKeeps(w, tty.blocked, rb.heap, dozing);
        ghost var snap := Snapshot();
        TtyLeavesRing(dozing + {tty.rbc});
        FollowsTrans(old(Snapshot()), snap, Snapshot(), pl.me);
        return false;
      }
      DrainTtySettles(w, tty.blocked, rb.heap, force, dozing);
      return true;
    }

    /** The failure path of tty_ringbuffer_poll: the poller goes at once. */
    method TtyLeavesRing(ghost dozing: set<nat>)
      requires Sound() && LogsOk(rb.heap, {}) && Tied(W(), {}, {}) && Awake(W(), dozing)
      requires TtyLinked(W(), {}, {}) && tty.rbc in dozing
      modifies pl, pl.table
      ensures Good({}, {tty.rbc}, dozing)
      ensures Follows(old(Snapshot()), Snapshot(), pl.me)
    {
      hide RingBuffer.Valid, PollerSet.Valid, Listed, Untouched, Interest, LogsOk, TtyOk, Tied, Awake, Shifted, Reclaimable;
      TtyFromRingKeeps(W(), dozing);
      Doze(W().(pollers := pl.heap - {tty.poller}, watch := pl.watch - {tty.poller}), dozing + {tty.rbc}, dozing);
      MirrorsDrop(rb.heap, tty.rbc, {});
      ghost var i := pl.Unregister(tty.poller);
      ShiftedRemove(old(pl.pollers), i);
    }

    /** log_ringbuffer_poll, in terms of the console. */
    method LogRingPoll(r: nat, ghost dozing: set<nat>) returns (ok: bool)
      requires Good({}, {}, dozing) && r in rb.heap && log != null && log.rbc == r && rb.heap[r].owner == ForLog
      modifies rb`heap, log
      ensures Consumed(old(rb.heap), rb.heap, r)
      ensures if ok then Good({}, {}, dozing - {r}) && rb.Unread(r) == 0 else Good({}, {r}, dozing + {r})
      ensures !ok ==> false in log.opens || Refused(old(log.file.script))
    {
      hide RingBuffer.Valid, PollerSet.Valid, Listed, LogHandler.Valid, TextLogHandler.Valid, Tied, Awake, Join;
      ghost var w := W();
      rb.Bounds(r);
      ok := log.Poll();
      rb.Bounds(r);
      DrainLogKeeps(w, r, rb.heap, dozing);
      if ok {
        AllGot(rb.stream, old(rb.heap[r]), rb.heap[r]);
        Wake(W(), r, dozing + {r});
        Doze(W(), dozing + {r} - {r}, dozing - {r});
      }
    }

    /** text_log_ringbuffer_poll, in terms of the console. */
    method TextRingPoll(r: nat, ghost dozing: set<nat>) returns (ok: bool)
      requires Good({}, {}, dozing) && r in rb.heap && TextShort()
      requires text != null && text.rbc == r && rb.heap[r].owner == ForTextLog
      modifies rb`heap, text
      ensures Consumed(old(rb.heap), rb.heap, r)
      ensures if ok then Good({}, {}, dozing - {r}) && rb.Unread(r) == 0 else Good({}, {r}, dozing + {r})
      ensures !ok ==> false in text.opens || Refused(old(text.file.script))
    {
      hide RingBuffer.Valid, PollerSet.Valid, Listed, LogHandler.Valid, TextLogHandler.Valid, Tied, Awake, Join;
      ghost var w := W();
      rb.Bounds(r);
      ok := text.Poll();
      rb.Bounds(r);
      DrainLogKeeps(w, r, rb.heap, dozing);
      if ok {
        AllGot(rb.stream, old(rb.heap[r]), rb.heap[r]);
        Wake(W(), r, dozing + {r});
        Doze(W(), dozing + {r} - {r}, dozing - {r});
      }
    }

    /** What the text log has yet to read fits its buffers. */
    ghost predicate TextShort()
      reads this, rb, text
    {
      text != null && text.rbc in rb.heap && rb.heap[text.rbc].owner == ForTextLog ==> rb.Unread(text.rbc) < BUF_SIZE
    }

    /** poll_fn(poll_data, force): the callback of whichever handler owns the consumer. */
    method PollConsumer(r: nat, force: nat, ghost dozing: set<nat>) returns (ok: bool)
      requires Good({}, {}, dozing) && r in rb.heap && TextShort() && force <= rb.Unread(r)
      requires 0 < force ==> r !in dozing
      modifies `order, `clients, rb`consumers, rb`heap, pl, pl.table, tty, log, text
      ensures Consumed(old(rb.heap), rb.heap, r) && rb.consumers == old(rb.consumers)
      ensures if ok then Good({}, {}, dozing - {r}) else Good({}, {r}, dozing + {r})
      ensures ok && 0 < force ==> old(rb.heap[r].at) + force <= rb.heap[r].at
      ensures ok && 0 < force && old(rb.heap[r].owner) == ForTty ==> old(rb.heap[r].at) + force == rb.heap[r].at
      ensures Stays(old(clients), clients, 0 < force)
      ensures Follows(old(Snapshot()), Snapshot(), pl.me)
    {
      hide RingBuffer.Valid, PollerSet.Valid, Listed, LogsOk, TtyOk, Tied, Awake, Linked, TtyLinked, Follows, Faulty;
      Still();
      OwnerOf(W(), r);
      match rb.heap[r].owner {
        case ForClient(c) =>
          ghost var now;
          ok, now := ClientRingPoll(c, force, dozing);
        case ForTty => ok := TtyRingPoll(force, dozing);
        case ForLog => ok := LogRingPoll(r, dozing);
        case ForTextLog => ok := TextRingPoll(r, dozing);
      }
    }

    /** ringbuffer_consumer_ensure_space. */
    method EnsureSpace(r: nat, len: nat) returns (ok: bool)
      requires Good({}, {}, {}) && r in rb.heap && TextShort() && len < rb.size
      modifies `order, `clients, rb`consumers, rb`heap, pl, pl.table, tty, log, text
      ensures Consumed(old(rb.heap), rb.heap, r) && rb.consumers == old(rb.consumers)
      ensures if ok then Good({}, {}, {}) && rb.Unread(r) + len < rb.size else Good({}, {r}, {r})
      ensures old(rb.Unread(r)) + len < rb.size ==> ok && rb.heap == old(rb.heap) && clients == old(clients)
      ensures ok && old(rb.Unread(r)) + len >= rb.size && rb.heap[r].owner == ForTty ==> rb.Unread(r) + len == rb.size - 1
      ensures Stays(old(clients), clients, true)
      ensures Follows(old(Snapshot()), Snapshot(), pl.me)
    {
      hide RingBuffer.Valid, PollerSet.Valid, Listed, LogsOk, TtyOk, Tied, Awake, Follows, Faulty;
      if rb.Space(r) >= len {
        Still();
        return true;
      }
      var force := len - rb.Space(r);
      ok := PollConsumer(r, force, {});
      assert {} - {r} == {} && {} + {r} == {r};
    }

    /** Unregistering a consumer its handler has given up. */
    method DropOrphan(r: nat, ghost dozing: set<nat>) returns (ghost i: nat)
      requires Good({}, {r}, dozing) && r in rb.heap
      modifies rb`consumers, rb`heap
      ensures Good({}, {}, dozing - {r}) && rb.heap == old(rb.heap) - {r}
      ensures i < |old(rb.consumers)| && old(rb.consumers)[i] == r && rb.consumers == RemoveAt(old(rb.consumers), i)
    {
      hide RingBuffer.Valid, PollerSet.Valid, Listed, LogsOk, TtyOk, Tied, Awake;
      DropConsumerKeeps(W(), r, dozing);
      MirrorsDrop(rb.heap, r, {r});
      i := rb.Unregister(r);
    }

    /** One turn of the forcing loop: consumer `i` has room afterwards, or has been dropped. */
    method RoomForOne(i: nat, len: nat) returns (next: nat)
      requires Good({}, {}, {}) && TextShort() && len < rb.size && i < |rb.consumers|
      requires Room(rb.consumers[..i], rb.heap, |rb.stream|, rb.size, len)
      modifies `order, `clients, rb`consumers, rb`heap, pl, pl.table, tty, log, text
      ensures Good({}, {}, {}) && TextShort() && next <= |rb.consumers|
      ensures Room(rb.consumers[..next], rb.heap, |rb.stream|, rb.size, len)
      ensures |rb.consumers| - next < |old(rb.consumers)| - i
      ensures Survivors(old(rb.heap), rb.heap) && Stays(old(clients), clients, true)
      ensures Room(old(rb.consumers), old(rb.heap), |rb.stream|, rb.size, len) ==>
                clients == old(clients) && rb.heap == old(rb.heap) && rb.consumers == old(rb.consumers)
      ensures Follows(old(Snapshot()), Snapshot(), pl.me)
    {
      hide RingBuffer.Valid, PollerSet.Valid, Listed, LogsOk, TtyOk, Tied, Awake, Room, Survivors, Follows, Stays;
      rb.Lists();
      ListedOnce(rb.consumers, rb.heap, rb.next, i, i);
      RoomNone(rb.consumers, rb.heap, 0, 0, 0);
      var r := rb.consumers[i];
      if Room(rb.consumers, rb.heap, |rb.stream|, rb.size, len) {
        RoomAt(rb.consumers, i, rb.heap, |rb.stream|, rb.size, len);
      }
      var ok := EnsureSpace(r, len);
      rb.Lists();
      RoomMoved(rb.consumers[..i], old(rb.heap), rb.heap, r, |rb.stream|, rb.size, len);
      SurvivorsMoved(old(rb.heap), old(rb.heap), rb.heap, r);
      if ok {
        RoomPush(rb.consumers, i, rb.heap, |rb.stream|, rb.size, len);
        next := i + 1;
      } else {
        ListedOnce(rb.consumers, rb.heap, rb.next, i, i);
        RoomDrop(rb.consumers, i, rb.heap, |rb.stream|, rb.size, len);
        ghost var k := DropOrphan(r, {r});
        ListedOnce(old(rb.consumers), old(rb.heap), rb.next, i, k);
        assert {r} - {r} == {};
        next := i;
      }
    }

    /**
     * The first loop of ringbuffer_queue: make room for `len` bytes in front of every
     * consumer, dropping those whose handler fails.
     */
    method MakeRoom(len: nat)
      requires Good({}, {}, {}) && TextShort() && len < rb.size
      modifies `order, `clients, rb`consumers, rb`heap, pl, pl.table, tty, log, text
      ensures Good({}, {}, {}) && TextShort()
      ensures Room(rb.consumers, rb.heap, |rb.stream|, rb.size, len)
      ensures Survivors(old(rb.heap), rb.heap)
      ensures Stays(old(clients), clients, true)
      ensures Room(old(rb.consumers), old(rb.heap), |rb.stream|, rb.size, len) ==> clients == old(clients)
      ensures Follows(old(Snapshot()), Snapshot(), pl.me)
    {
      hide RingBuffer.Valid, PollerSet.Valid, Listed, LogsOk, TtyOk, Tied, Awake, Room, Survivors, Follows, Faulty;
      Still();
      ghost var roomy := Room(rb.consumers, rb.heap, |rb.stream|, rb.size, len);
      RoomNone(rb.consumers, rb.heap, |rb.stream|, rb.size, len);
      var i := 0;
      while i < |rb.consumers|
        invariant Good({}, {}, {}) && TextShort() && 0 <= i <= |rb.consumers|
        invariant Room(rb.consumers[..i], rb.heap, |rb.stream|, rb.size, len)
        invariant Survivors(old(rb.heap), rb.heap) && Stays(old(clients), clients, true)
        invariant roomy ==> clients == old(clients) && rb.heap == old(rb.heap) && rb.consumers == old(rb.consumers)
        invariant Follows(old(Snapshot()), Snapshot(), pl.me)
        decreases |rb.consumers| - i
      {
        ghost var snap, heap := Snapshot(), rb.heap;
        FollowsLasting(old(Snapshot()), snap, pl.me);
        i := RoomForOne(i, len);
        StaysTrans(old(clients), snap.clients, clients, true);
        SurvivorsTrans(old(rb.heap), heap, rb.heap);
        FollowsTrans(old(Snapshot()), snap, Snapshot(), pl.me);
      }
      assert rb.consumers[..i] == rb.consumers;
    }

    /** One turn of the notifying loop: the next index to visit is one further, or the same if consumer `i` was dropped. */
    method NotifyOne(i: nat) returns (next: nat)
      requires i < |rb.consumers| && Good({}, {}, Elements(rb.consumers[i..])) && TextShort()
      modifies `order, `clients, rb`consumers, rb`heap, pl, pl.table, tty, log, text
      ensures next <= |rb.consumers| && Good({}, {}, Elements(rb.consumers[next..])) && TextShort()
      ensures |rb.consumers| - next < |old(rb.consumers)| - i
      ensures Survivors(old(rb.heap), rb.heap) && Stays(old(clients), clients, false)
      ensures Follows(old(Snapshot()), Snapshot(), pl.me)
    {
      hide RingBuffer.Valid, PollerSet.Valid, Listed, LogsOk, TtyOk, Tied, Awake, Follows, Survivors, Stays;
      rb.Lists();
      ListedOnce(rb.consumers, rb.heap, rb.next, i, i);
      ElementsStep(rb.consumers, i);
      RoomNone(rb.consumers, rb.heap, 0, 0, 0);
      var r := rb.consumers[i];
      ghost var dozing := Elements(rb.consumers[i..]);
      rb.Bounds(r);
      var ok := PollConsumer(r, 0, dozing);
      SurvivorsMoved(old(rb.heap), old(rb.heap), rb.heap, r);
      if ok {
        next := i + 1;
        Doze(W(), dozing - {r}, Elements(rb.consumers[next..]));
      } else {
        next := i;
        ghost var k := DropOrphan(r, dozing + {r});
        ListedOnce(old(rb.consumers), old(rb.heap), rb.next, i, k);
        Doze(W(), dozing + {r} - {r}, Elements(rb.consumers[next..]));
      }
    }

    /**
     * The second loop of ringbuffer_queue: tell every consumer, unforced, that there is
     * something to read, dropping those whose handler fails.
     */
    method NotifyAll()
      requires Good({}, {}, Elements(rb.consumers)) && TextShort()
      modifies `order, `clients, rb`consumers, rb`heap, pl, pl.table, tty, log, text
      ensures Good({}, {}, {})
      ensures Survivors(old(rb.heap), rb.heap) && Stays(old(clients), clients, false)
      ensures Follows(old(Snapshot()), Snapshot(), pl.me)
    {
      hide RingBuffer.Valid, PollerSet.Valid, Listed, LogsOk, TtyOk, Tied, Awake, Survivors, Follows, Faulty;
      Still();
      RoomNone(rb.consumers, rb.heap, 0, 0, 0);
      var i: nat := 0;
      assert rb.consumers[0..] == rb.consumers;
      while i < |rb.consumers|
        invariant i <= |rb.consumers| && Good({}, {}, Elements(rb.consumers[i..])) && TextShort()
        invariant Survivors(old(rb.heap), rb.heap) && Stays(old(clients), clients, false)
        invariant Follows(old(Snapshot()), Snapshot(), pl.me)
        decreases |rb.consumers| - i
      {
        ghost var snap, heap := Snapshot(), rb.heap;
        FollowsLasting(old(Snapshot()), snap, pl.me);
        i := NotifyOne(i);
        StaysTrans(old(clients), snap.clients, clients, false);
        FollowsTrans(old(Snapshot()), snap, Snapshot(), pl.me);
        SurvivorsTrans(old(rb.heap), heap, rb.heap);
      }
      assert Elements(rb.consumers[i..]) == {};
    }

    /**
     * ringbuffer_queue.  Whatever the handlers' descriptors do, the bytes are appended to
     * the stream unless there are as many of them as the ring is large, and every consumer
     * still registered afterwards has been told.
     */
    method Queue(data: seq<byte>) returns (rc: int)
      requires Good({}, {}, {}) && |data| < BUF_SIZE
      modifies `order, `clients, rb, rb.buf, pl, pl.table, tty, log, text
      ensures Good({}, {}, {})
      ensures rc == if |data| < rb.size then 0 else -1
      ensures rb.stream == if |data| < rb.size then old(rb.stream) + data else old(rb.stream)
      ensures Survivors(old(rb.heap), rb.heap)
      ensures Stays(old(clients), clients, !old(Room(rb.consumers, rb.heap, |rb.stream|, rb.size, |data|)))
      ensures Follows(old(Snapshot()), Snapshot(), pl.me)
    {
      hide RingBuffer.Valid, PollerSet.Valid, Listed, LogsOk, TtyOk, Tied, Awake, Survivors, Room, Follows, Faulty;
      if |data| >= rb.size || |data| == 0 {
        Still();
        RoomNone(rb.consumers, rb.heap, 0, 0, 0);
        assert rb.stream + [] == rb.stream;
        return if |data| >= rb.size then -1 else 0;
      }
      TextIdle();
      MakeRoom(|data|);
      TextIdle();
      ghost var heap := rb.heap;
      ghost var snap := Snapshot();
      rb.Lists();
      RoomAll(rb.consumers, rb.heap, rb.next, |rb.stream|, rb.size, |data|);
      GrowTied(W(), data);
      AllDoze(W().(stream := rb.stream + data), rb.consumers, rb.next);
      FollowsLasting(old(Snapshot()), snap, pl.me);
      rb.Append(data);
      NotifyAll();
      StaysForced(snap.clients, clients);
      StaysTrans(old(clients), snap.clients, clients, true);
      FollowsTrans(old(Snapshot()), snap, Snapshot(), pl.me);
      SurvivorsTrans(old(rb.heap), heap, rb.heap);
      return 0;
    }

    /** Between events the text log has nothing left to read. */
    lemma TextIdle()
      requires Good({}, {}, {})
      ensures text != null && text.rbc in rb.heap && rb.heap[text.rbc].owner == ForTextLog ==> rb.Unread(text.rbc) == 0
    {
      hide RingBuffer.Valid, PollerSet.Valid, Listed, LogsOk, TtyOk, Tied;
      if text != null && text.rbc in rb.heap {
        assert Settled(W(), text.rbc);
      }
    }

    /** client_close at the end of a poller callback: poller set to NULL first, and left to call_pollers. */
    method ClientLeavesPoller(c: nat, ghost w: World, p: nat, r: nat, ghost dozing: set<nat>)
      requires Sound() && Mirrored(rb.heap, {}) && Tied(w, {}, {}) && Awake(w, dozing) && dozing <= {r}
      requires c in w.clients && w.clients[c].poller == Some(p) && w.clients[c].rbc == Some(r)
      requires c in clients && clients[c] == w.clients[c].(blocked := clients[c].blocked, wire := clients[c].wire)
      requires W() == Drain(w, c, clients[c], w.consumers) && r in rb.heap
      modifies `order, `clients, rb`consumers, rb`heap, pl, pl.table
      ensures Good({p}, {}, {}) && clients == old(clients) - {c}
      ensures pl.pollers == old(pl.pollers) && pl.heap == old(pl.heap)
      ensures Follows(old(Snapshot()), Snapshot(), pl.me)
    {
      hide RingBuffer.Valid, PollerSet.Valid, Listed, Interest, LogsOk, TtyOk, Tied, Awake, Follows;
      ghost var k := w.clients[c].(blocked := clients[c].blocked);
      DrainKeeps(w, c, k, dozing);
      CloseFromPollerKeeps(Drain(w, c, k, w.consumers), c, p, r, dozing + {r});
      ListedUpdate(order, clients, next, c, clients[c].(poller := None));
      Still();
      FollowsUpdate(Snapshot(), Snapshot(), c, clients[c].(poller := None), pl.me);
      FreedUpdate(clients, c, clients[c].(poller := None));
      FreedUpdate(w.clients, c, clients[c]);
      FreedUpdate(w.clients, c, k);
      MirrorsDrop(rb.heap, r, {});
      clients := clients[c := clients[c].(poller := None)];
      ghost var snap := Snapshot();
      ClientClose(c);
      FollowsTrans(old(Snapshot()), snap, Snapshot(), pl.me);
      assert dozing + {r} - {r} == {};
    }

    /** client_timeout; call_pollers has just cleared the timer. */
    method ClientTimeout(c: nat, p: nat, r: nat) returns (ret: PollerRet)
      requires Good({}, {}, {r}) && c in clients && Linked(W(), c, {}, {})
      requires clients[c].poller == Some(p) && clients[c].rbc == Some(r)
      modifies `order, `clients, rb`consumers, rb`heap, pl, pl.table
      ensures if ret == PollerOk then Good({}, {}, {}) else Good({p}, {}, {})
      ensures ret == PollerOk ==>
                if old(clients[c].blocked) then clients == old(clients) && rb.heap == old(rb.heap) else Drained(c, old(clients[c].wire))
      ensures Leaves(ret, c, old(clients), clients)
      ensures pl.pollers == old(pl.pollers) && pl.heap == old(pl.heap)
      ensures Follows(old(Snapshot()), Snapshot(), pl.me)
    {
      hide RingBuffer.Valid, PollerSet.Valid, Listed, Interest, LogsOk, TtyOk, Tied, Awake, Wired, Linked, Follows;
      ghost var w := W();
      ClientOwns(w, c);
      Still();
      ret := PollerOk;
      if clients[c].blocked {
        WakeBlocked(w, c);
        return;
      }
      ret := ClientFlush(c, p, r);
    }

    /** A drain from a poller callback closes this client for a fault of the kernel, and otherwise nobody. */
    ghost predicate Leaves(ret: PollerRet, c: nat, before: map<nat, Client>, after: map<nat, Client>) {
      if ret == PollerOk then after.Keys == before.Keys
      else c in before && after == before - {c} && Faulty(before[c].wire.script, false)
    }

    /** Drain without force from a poller callback, closing the client if that fails. */
    method ClientFlush(c: nat, p: nat, r: nat) returns (ret: PollerRet)
      requires Good({}, {}, {r}) && c in clients && Linked(W(), c, {}, {})
      requires clients[c].poller == Some(p) && clients[c].rbc == Some(r)
      modifies `order, `clients, rb`consumers, rb`heap, pl, pl.table
      ensures if ret == PollerOk then Good({}, {}, {}) else Good({p}, {}, {})
      ensures ret == PollerOk && !old(clients[c].blocked) ==> Drained(c, old(clients[c].wire))
      ensures Leaves(ret, c, old(clients), clients)
      ensures pl.pollers == old(pl.pollers) && pl.heap == old(pl.heap)
      ensures Follows(old(Snapshot()), Snapshot(), pl.me)
    {
      hide RingBuffer.Valid, PollerSet.Valid, Listed, Interest, LogsOk, TtyOk, Tied, Awake, Wired, Linked, Follows, Faulty;
      ghost var w := W();
      ClientOwns(w, c);
      rb.Bounds(r);
      var rc := ClientDrain(c, 0);
      if rc != 0 {
        ghost var snap := Snapshot();
        ClientLeavesPoller(c, w, p, r, {r});
        assert clients == old(clients) - {c};
        FollowsTrans(old(Snapshot()), snap, Snapshot(), pl.me);
        return PollerRemove;
      }
      DrainTied(w, c, clients[c], rb.heap);
      DrainSettles(w, c, clients[c], rb.heap, 0, {r});
      MirrorsMove(old(rb.heap), rb.heap, r);
      assert {r} - {r} == {};
      return PollerOk;
    }

    /** Neither the clients, nor what is read, nor what is watched has changed. */
    twostate predicate Same()
      reads this, rb, pl
    {
      clients == old(clients) && rb.heap == old(rb.heap) && pl.watch == old(pl.watch) && pl.heap == old(pl.heap)
    }

    /** client_poll; `received` is what recv() gives, if anything is to be read. */
    method ClientPoll(c: nat, revents: int, received: Received) returns (ret: PollerRet)
      requires Good({}, {}, {}) && c in clients && Linked(W(), c, {}, {})
      modifies `order, `clients, rb`consumers, rb`heap, pl, pl.table
      ensures var p := old(clients[c].poller.value);
              if ret == PollerOk then Good({}, {}, {}) else Good({p}, {}, {})
      ensures HasIn(revents) && received.Hangup? ==> ret == PollerRemove && clients == old(clients) - {c}
      ensures HasIn(revents) && received.NothingYet? ==> ret == PollerOk && Same()
      ensures !HasIn(revents) || received.Bytes? ==>
                if HasOut(revents) then Leaves(ret, c, old(clients), clients) && (ret == PollerOk ==> Drained(c, old(clients[c].wire)))
                else ret == PollerOk && Same()
      ensures pl.pollers == old(pl.pollers) && pl.heap == old(pl.heap)
      ensures Follows(old(Snapshot()), Snapshot(), pl.me)
    {
      hide RingBuffer.Valid, PollerSet.Valid, Listed, Interest, LogsOk, TtyOk, Tied, Awake, Wired, Linked, Follows;
      ghost var w := W();
      ClientOwns(w, c);
      DrainNothing(w, c);
      Still();
      ret := PollerOk;
      var p, r := clients[c].poller.value, clients[c].rbc.value;
      if HasIn(revents) {
        match received {
          case NothingYet => return;
          case Hangup =>
            ClientLeavesPoller(c, w, p, r, {});
            return PollerRemove;
          case Bytes(_) =>
        }
      }
      if HasOut(revents) {
        ghost var k := clients[c].(blocked := false);
        SetBlocked(c, false);
        DrainKeeps(w, c, k, {});
        assert {} + {r} == {r};
        ghost var snap := Snapshot();
        ret := ClientFlush(c, p, r);
        FollowsTrans(old(Snapshot()), snap, Snapshot(), pl.me);
      }
    }

    /**
     * The end of socket_poll and of dbus_create_socket_consumer: a client for the accepted
     * descriptor, with its poller and its consumer.
     */
    method AddClient(fd: nat, script: seq<Outcome>) returns (c: nat)
      requires Good({}, {}, {})
      modifies this, rb`consumers, rb`heap, rb`next, pl, pl.table
      ensures Good({}, {}, {}) && c !in old(clients) && c in clients && clients == old(clients)[c := clients[c]]
      ensures c == old(next) && next == c + 1
      ensures clients[c].wire == Wire(script, [], []) && clients[c].since == |rb.stream| && clients[c].script == script
      ensures |pl.pollers| == |old(pl.pollers)| + 1 && pl.pollers[..|old(pl.pollers)|] == old(pl.pollers)
      ensures var p := pl.pollers[|old(pl.pollers)|];
              p in pl.heap && p !in old(pl.heap) && !pl.heap[p].remove && pl.heap[p].owner == ForClient(c) && !pl.heap[p].timeout.IsSet()
      ensures forall p :: p in old(pl.heap) ==> p in pl.heap && pl.heap[p] == old(pl.heap)[p]
      ensures forall p :: p in pl.heap && p !in old(pl.heap) ==> p == pl.pollers[|old(pl.pollers)|] && !pl.heap[p].remove
      ensures Untouched(old(pl.table.slots), old(pl.table.holder), pl.table.slots, pl.table.holder, pl.me)
    {
      hide RingBuffer.Valid, PollerSet.Valid, Listed, LogsOk, TtyOk, Tied, Awake, Untouched, Interest, Wired, Reached;
      ghost var w := W();
      c := next;
      next := next + 1;
      var p := pl.Register(ForClient(c), true, fd, Interest(false));
      var r := rb.Register(ForClient(c));
      var k := Client(Some(p), Some(r), fd, false, Wire(script, [], []), |rb.stream|, script);
      ListedPush(order, clients, c, k);
      WiredAtFirst(k, rb.heap[r], rb.stream);
      AddClientKeeps(w, c, k, pl.heap[p], rb.heap[r], {});
      MirrorsAdd(old(rb.heap), r, rb.heap[r]);
      order := order + [c];
      clients := clients[c := k];
    }

    /** How a client leaves a deselected console: sent everything, or blocked, or for a fault of the kernel. */
    ghost predicate Parted(before: Client, last: Client, stream: seq<byte>) {
      Carries(before, last) &&
      (last.blocked || Faulty(before.wire.script, false) || Reached(last.wire, stream, last.since, |stream|))
    }

    /** socket_deselect: flush and close every client; `gone` is how each was left. */
    method Deselect() returns (ghost gone: map<nat, Client>)
      requires Good({}, {}, {})
      modifies `order, `clients, rb`consumers, rb`heap, pl, pl.table
      ensures Good({}, {}, {}) && clients == map[]
      ensures gone.Keys == old(clients).Keys && forall c :: c in gone ==> Parted(old(clients)[c], gone[c], rb.stream)
      ensures Follows(old(Snapshot()), Snapshot(), pl.me)
    {
      hide RingBuffer.Valid, PollerSet.Valid, LogsOk, TtyOk, Tied, Awake, Follows, Parted;
      Still();
      gone := map[];
      while |order| > 0
        invariant Good({}, {}, {}) && Follows(old(Snapshot()), Snapshot(), pl.me)
        invariant gone.Keys + clients.Keys == old(clients).Keys
        invariant forall c :: c in clients ==> clients[c] == old(clients)[c]
        invariant forall c :: c in gone ==> Parted(old(clients)[c], gone[c], rb.stream)
        decreases |order|
      {
        ghost var snap := Snapshot();
        ghost var c, last := DropFirst();
        gone := gone[c := last];
        FollowsTrans(old(Snapshot()), snap, Snapshot(), pl.me);
      }
    }

    /** One turn of socket_deselect: a last unforced drain, whatever comes of it, then client_close. */
    method DropFirst() returns (ghost gone: nat, ghost last: Client)
      requires Good({}, {}, {}) && 0 < |order|
      modifies `order, `clients, rb`consumers, rb`heap, pl, pl.table
      ensures Good({}, {}, {}) && |order| < |old(order)|
      ensures gone in old(clients) && clients == old(clients) - {gone} && Parted(old(clients)[gone], last, rb.stream)
      ensures Follows(old(Snapshot()), Snapshot(), pl.me)
    {
      hide RingBuffer.Valid, PollerSet.Valid, Listed, LogsOk, TtyOk, Tied, Awake, Follows, Interest, Reached, Answers, Faulty;
      ghost var w := W();
      ListedOnce(order, clients, next, 0, 0);
      var c := order[0];
      LinkOf(w, c);
      ghost var p, r := clients[c].poller.value, clients[c].rbc.value;
      rb.Bounds(r);
      var rc := ClientDrain(c, 0);
      gone, last := c, clients[c];
      MirrorsMove(old(rb.heap), rb.heap, r);
      FreedUpdate(w.clients, c, clients[c]);
      FreedUpdate(w.watch, p, pl.watch[p]);
      ConsumedAway(w.consumers, rb.heap, r);
      CloseFromRingKeeps(w, c, p, r, {});
      DropConsumerKeeps(CloseFromRing(w, c, p), r, {} + {r});
      MirrorsDrop(rb.heap, r, {});
      ghost var snap := Snapshot();
      FollowsLasting(old(Snapshot()), snap, pl.me);
      ClientClose(c);
      FollowsTrans(old(Snapshot()), snap, Snapshot(), pl.me);
      assert {} + {r} - {r} == {};
    }

    /** The local tty has been written everything, or has answered since `w` that it takes no more for now. */
    ghost predicate TtyDrained(w: Wire)
      reads this, rb, tty
    {
      && tty != null && tty.rbc in rb.heap
      && (rb.Unread(tty.rbc) == 0 || (tty.blocked && WouldBlock in Answers(w, tty.wire)))
    }

    /** tty_poll; `readable` is whether read() on the local tty returns bytes. */
    method TtyPoll(revents: int, readable: bool) returns (ret: PollerRet)
      requires Good({}, {}, {}) && TtyLinked(W(), {}, {})
      modifies tty, rb`consumers, rb`heap, pl`watch, pl.table
      ensures if ret == PollerOk then Good({}, {}, {}) else Good({tty.poller}, {}, {})
      ensures HasIn(revents) && !readable ==> ret == PollerRemove
      ensures ret == PollerOk && HasOut(revents) ==> TtyDrained(old(tty.wire))
      ensures ret == PollerRemove ==> (HasIn(revents) && !readable) || (HasOut(revents) && Broken in old(tty.wire.script))
      ensures ret == PollerOk && !HasOut(revents) ==> Same() && tty.blocked == old(tty.blocked)
      ensures Follows(old(Snapshot()), Snapshot(), pl.me)
    {
      hide RingBuffer.Valid, PollerSet.Valid, Listed, LogsOk, TtyOk, Tied, Awake, Follows, TtyLinked;
      ghost var w := W();
      Still();
      if HasIn(revents) && !readable {
        TtyLeavesPoller({});
        return PollerRemove;
      }
      ret := PollerOk;
      if HasOut(revents) {
        TtySetBlocked(false);
        TtyOwns(w);
        ConsumedRefl(w.consumers, tty.rbc);
        DrainTtyKeeps(w, false, w.consumers, {});
        assert {} + {tty.rbc} == {tty.rbc};
        ghost var snap := Snapshot();
        ret := TtyFlush();
        FollowsTrans(old(Snapshot()), snap, Snapshot(), pl.me);
      }
    }

    /** tty_set_blocked, in terms of the console. */
    method TtySetBlocked(blocked: bool)
      requires Sound() && TtyLinked(W(), {}, {}) && TtyOk(rb.heap, {})
      modifies tty`blocked, pl`watch, pl.table
      ensures tty.blocked == blocked
      ensures Sound() && TtyOk(rb.heap, {})
      ensures tty.poller in old(pl.watch) && W() == DrainTty(old(W()), blocked, rb.heap)
      ensures Follows(old(Snapshot()), Snapshot(), pl.me)
    {
      hide RingBuffer.Valid, PollerSet.Valid, Listed, Untouched, Interest, Shifted;
      ShiftedRefl(pl.pollers);
      tty.SetBlocked(blocked);
    }

    method TtyFlush() returns (ret: PollerRet)
      requires TtyLinked(W(), {}, {}) && Good({}, {}, {tty.rbc})
      modifies tty, rb`consumers, rb`heap, pl`watch, pl.table
      ensures if ret == PollerOk then Good({}, {}, {}) else Good({tty.poller}, {}, {}) && Broken in old(tty.wire.script)
      ensures ret == PollerOk && !old(tty.blocked) ==> TtyDrained(old(tty.wire))
      ensures Follows(old(Snapshot()), Snapshot(), pl.me)
    {
      hide RingBuffer.Valid, PollerSet.Valid, Listed, LogsOk, TtyOk, Tied, Awake, Follows, TtyLinked, Interest;
      ghost var w := W();
      TtyOwns(w);
      var rc := TtyDrain(0);
      MirrorsMove(old(rb.heap), rb.heap, tty.rbc);
      if rc != 0 {
        DrainTtyKeeps(w, tty.blocked, rb.heap, {tty.rbc});
        Doze(W(), {tty.rbc} + {tty.rbc}, {tty.rbc});
        ghost var snap := Snapshot();
        TtyLeavesPoller({tty.rbc});
        return PollerRemove;
      }
      DrainTtySettles(w, tty.blocked, rb.heap, 0, {tty.rbc});
      assert {tty.rbc} - {tty.rbc} == {};
      return PollerOk;
    }

    /** The error path of tty_poll: the consumer goes at once, the poller is left to call_pollers. */
    method TtyLeavesPoller(ghost dozing: set<nat>)
      requires Sound() && LogsOk(rb.heap, {}) && Tied(W(), {}, {}) && Awake(W(), dozing)
      requires TtyLinked(W(), {}, {}) && dozing <= {tty.rbc}
      modifies rb`consumers, rb`heap
      ensures Good({tty.poller}, {}, {})
    {
      hide RingBuffer.Valid, PollerSet.Valid, Listed, LogsOk, TtyOk, Tied, Awake;
      TtyFromPollerKeeps(W(), dozing);
      MirrorsDrop(rb.heap, tty.rbc, {});
      var _ := rb.Unregister(tty.rbc);
      assert dozing - {tty.rbc} == {};
    }

    /** call_pollers clearing an expired timer: until its callback has run, the client may doze. */
    method ClearTimer(c: nat, p: nat, r: nat)
      requires Good({}, {}, {}) && c in clients && Linked(W(), c, {}, {})
      requires clients[c].poller == Some(p) && clients[c].rbc == Some(r)
      modifies pl`heap
      ensures Good({}, {}, {r}) && Linked(W(), c, {}, {})
      ensures p in old(pl.heap) && pl.heap == old(pl.heap)[p := old(pl.heap)[p].(timeout := CLEARED)]
      ensures Follows(old(Snapshot()), Snapshot(), pl.me)
    {
      hide RingBuffer.Valid, PollerSet.Valid, Listed, LogsOk, TtyOk, Tied, Awake, Untouched, Shifted;
      Still();
      RetimeTied(W(), p, CLEARED, {});
      RetimeAwake(W(), p, CLEARED, {}, r);
      assert {} + {r} == {r};
      pl.Update(p, pl.heap[p].(timeout := CLEARED));
    }

    /** call_pollers flagging a poller whose callback returned POLLER_REMOVE. */
    method SetFlag(p: nat)
      requires Good({p}, {}, {}) && p in pl.heap
      modifies pl`heap
      ensures Good({}, {}, {}) && pl.heap == old(pl.heap)[p := old(pl.heap)[p].(remove := true)]
    {
      hide RingBuffer.Valid, PollerSet.Valid, Listed, LogsOk, TtyOk, Tied, Awake;
      pl.NormalTimeout(p);
      FlagKeeps(W(), p, {});
      pl.Update(p, pl.heap[p].(remove := true));
    }

    /** call_pollers on a client's events: client_poll, and the flag if it says so. */
    method CallClient(c: nat, p: nat, revents: int, received: Received) returns (ret: PollerRet)
      requires Good({}, {}, {}) && c in clients && Linked(W(), c, {}, {}) && clients[c].poller == Some(p)
      modifies `order, `clients, rb`consumers, rb`heap, pl, pl.table
      ensures Good({}, {}, {}) && Lasting(old(clients), clients) && pl.pollers == old(pl.pollers)
      ensures p in old(pl.heap) && p in pl.heap && pl.heap[p].owner == old(pl.heap)[p].owner
      ensures pl.heap == if ret == PollerOk then old(pl.heap) else old(pl.heap)[p := old(pl.heap)[p].(remove := true)]
      ensures HasIn(revents) && received.Hangup? ==> ret == PollerRemove && clients == old(clients) - {c}
      ensures HasIn(revents) && received.NothingYet? ==> ret == PollerOk && Same()
      ensures !HasIn(revents) || received.Bytes? ==>
                if HasOut(revents) then Leaves(ret, c, old(clients), clients) && (ret == PollerOk ==> Drained(c, old(clients[c].wire)))
                else ret == PollerOk && Same()
      ensures Untouched(old(pl.table.slots), old(pl.table.holder), pl.table.slots, pl.table.holder, pl.me)
    {
      hide Sound, LogsOk, TtyOk, Tied, Awake, Linked, Untouched, Shifted, SameFlags, Lasting, Faulty;
      ClientOwns(W(), c);
      ret := ClientPoll(c, revents, received);
      if ret == PollerRemove {
        SetFlag(p);
      }
    }

    /** The same on the local tty's: tty_poll. */
    method CallTty(p: nat, revents: int, readable: bool) returns (ret: PollerRet)
      requires Good({}, {}, {}) && TtyLinked(W(), {}, {}) && tty.poller == p
      modifies tty, rb`consumers, rb`heap, pl, pl.table
      ensures Good({}, {}, {}) && pl.pollers == old(pl.pollers)
      ensures p in old(pl.heap) && p in pl.heap
      ensures pl.heap == if ret == PollerOk then old(pl.heap) else old(pl.heap)[p := old(pl.heap)[p].(remove := true)]
      ensures HasIn(revents) && !readable ==> ret == PollerRemove
      ensures ret == PollerOk && HasOut(revents) ==> TtyDrained(old(tty.wire))
      ensures ret == PollerRemove ==> (HasIn(revents) && !readable) || (HasOut(revents) && Broken in old(tty.wire.script))
      ensures Untouched(old(pl.table.slots), old(pl.table.holder), pl.table.slots, pl.table.holder, pl.me)
    {
      hide Sound, LogsOk, TtyOk, Tied, Awake, Untouched, Shifted, SameFlags, Lasting;
      ret := TtyPoll(revents, readable);
      if ret == PollerRemove {
        SetFlag(p);
      }
    }

    /** call_pollers on an expired timer: clear it, client_timeout, and the flag if it says so. */
    method ExpireTimer(c: nat, p: nat) returns (ret: PollerRet)
      requires Good({}, {}, {}) && c in clients && Linked(W(), c, {}, {}) && clients[c].poller == Some(p)
      modifies `order, `clients, rb`consumers, rb`heap, pl, pl.table
      ensures Good({}, {}, {}) && Lasting(old(clients), clients) && pl.pollers == old(pl.pollers)
      ensures p in old(pl.heap) && p in pl.heap && pl.heap == old(pl.heap)[p := pl.heap[p]]
      ensures pl.heap[p].owner == old(pl.heap)[p].owner && Leaves(ret, c, old(clients), clients)
      ensures if ret == PollerOk then pl.heap[p].timeout == CLEARED else pl.heap[p].remove
      ensures ret == PollerOk ==>
                if old(clients[c].blocked) then clients == old(clients) && rb.heap == old(rb.heap) else Drained(c, old(clients[c].wire))
      ensures Untouched(old(pl.table.slots), old(pl.table.holder), pl.table.slots, pl.table.holder, pl.me)
    {
      hide Sound, LogsOk, TtyOk, Tied, Awake, Linked, Untouched, Shifted, SameFlags, Faulty;
      ClientOwns(W(), c);
      var r := clients[c].rbc.value;
      ClearTimer(c, p, r);
      ghost var slots, holder := pl.table.slots, pl.table.holder;
      ret := ClientTimeout(c, p, r);
      UntouchedTrans(old(pl.table.slots), old(pl.table.holder), slots, holder, pl.table.slots, pl.table.holder, pl.me);
      if ret == PollerRemove {
        SetFlag(p);
      }
    }

    /** The removal pass at the end of call_pollers. */
    method Purge()
      requires Good({}, {}, {})
      modifies pl, pl.table
      ensures Good({}, {}, {}) && forall p :: p in pl.heap ==> !pl.heap[p].remove
      ensures pl.pollers == Kept(old(pl.pollers), old(pl.heap))
      ensures forall p :: p in pl.heap ==> p in old(pl.heap) && pl.heap[p] == old(pl.heap)[p]
      ensures Untouched(old(pl.table.slots), old(pl.table.holder), pl.table.slots, pl.table.holder, pl.me)
    {
      hide RingBuffer.Valid, PollerSet.Valid, Listed, LogsOk, TtyOk, Tied, Awake, Untouched;
      ghost var w := W();
      pl.Quiet();
      pl.RemoveFlagged();
      pl.Quiet();
      PurgeKeeps(w, pl.heap, pl.watch, {});
    }

    ghost function Viewed(): View
      reads Repr()
    {
      View(rb.stream, rb.size, clients, next, pl.heap, pl.pollers)
    }

    /** poll() leaves a console good. */
    twostate lemma Repolled()
      requires old(Good({}, {}, {})) && forall o :: o in Repr() ==> unchanged(o)
      requires SameWatch(old(pl.table.slots), pl.table.slots) && pl.table.holder == old(pl.table.holder)
      ensures Good({}, {}, {})
    {
      hide RingBuffer.Valid, Listed, AllNormal, LogsOk, TtyOk, Tied, Awake, Holds, SameWatch, Backed;
      assert this in Repr() && rb in Repr() && rb.buf in Repr() && pl in Repr();
      assert (tty != null ==> tty in Repr()) && (log != null ==> log in Repr()) && (text != null ==> text in Repr());
      PollHolds(pl.me, pl.heap, pl.watch, old(pl.table.slots), pl.table.slots, pl.table.holder);
    }

    lemma InRepr()
      ensures this in Repr() && rb in Repr() && pl in Repr()
    {
    }

    /** Steps of another console, whatever they do to the shared table, leave this one good. */
    twostate lemma Undisturbed(other: nat)
      requires old(Good({}, {}, {})) && pl.me != other
      requires forall o :: o in Repr() ==> unchanged(o)
      requires Untouched(old(pl.table.slots), old(pl.table.holder), pl.table.slots, pl.table.holder, other)
      ensures Good({}, {}, {})
    {
      hide RingBuffer.Valid, Listed, AllNormal, LogsOk, TtyOk, Tied, Awake, Holds;
      assert this in Repr() && rb in Repr() && rb.buf in Repr() && pl in Repr();
      assert (tty != null ==> tty in Repr()) && (log != null ==> log in Repr()) && (text != null ==> text in Repr());
      OthersHold(other, pl.me, pl.heap, pl.watch, old(pl.table.slots), old(pl.table.holder), pl.table.slots, pl.table.holder);
    }
  }

  /** A log that has read to the end has everything its consumer got. */
  lemma AllGot(stream: seq<byte>, x0: Consumer, x: Consumer)
    requires x0.from == x.from <= x0.at <= x.at == |stream|
    requires x0.got == stream[x0.from..x0.at] && x.got == stream[x.from..x.at]
    ensures x0.got + stream[x0.at..] == x.got
  {
    assert stream[x.from..] == stream[x.from..x0.at] + stream[x0.at..];
  }
}
