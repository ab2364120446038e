/**
 * Who owns what in a console: clients, their pollers, their ring consumers, and the
 * handlers beside them.  The invariant and what each step of the code does to it are
 * stated on values, so that the methods of the console only have to name the step.
 */
module Links {
  import opened Bytes
  import opened Seqs
  import opened RingBuffers
  import opened Timevals
  import opened PollTables
  import opened Pollers
  import opened Wires

  /** SOCKET_HANDLER_PKT_SIZE: below this a client waits for more, or for its timer. */
  const PKT_SIZE := 512

  /**
   * struct client; a NULL pointer is None.  `since` is how long the stream was when it
   * connected, `script` all that the kernel will ever answer on its socket.
   */
  datatype Client = Client(poller: Option<nat>, rbc: Option<nat>, fd: nat, blocked: bool, wire: Wire,
                           ghost since: nat, ghost script: seq<Outcome>)

  datatype Tty = NoTty | Tty(rbc: nat, poller: nat, blocked: bool)

  /** The linked structures of one console, and the stream they read. */
  datatype World = World(clients: map<nat, Client>,
                         pollers: map<nat, Poller>, watch: map<nat, Watch>,
                         consumers: map<nat, Consumer>, stream: seq<byte>,
                         tty: Tty, log: Option<nat>, text: Option<nat>, listener: nat)

  /**
   * The socket has received the stream since the client connected, up to what the client
   * has committed, with one byte repeated for each EINTR among the kernel's answers so far.
   */
  ghost predicate Wired(k: Client, x: Consumer, stream: seq<byte>) {
    && k.wire.used + k.wire.script == k.script
    && x.from == k.since
    && Reached(k.wire, stream, x.from, x.at)
  }

  /** A client, its poller, its slot and its consumer all point at each other. */
  ghost predicate Linked(w: World, c: nat, stray: set<nat>, orphans: set<nat>)
    requires c in w.clients
  {
    var k := w.clients[c];
    && k.poller.Some? && k.rbc.Some?
    && k.poller.value in w.pollers && k.poller.value !in stray
    && w.pollers[k.poller.value].owner == ForClient(c)
    && !w.pollers[k.poller.value].remove && w.pollers[k.poller.value].hasTimeout
    && k.poller.value in w.watch && w.watch[k.poller.value] == Watch(k.fd, Interest(k.blocked))
    && k.rbc.value in w.consumers && k.rbc.value !in orphans
    && w.consumers[k.rbc.value].owner == ForClient(c)
    && Wired(k, w.consumers[k.rbc.value], w.stream)
  }

  ghost predicate TtyLinked(w: World, stray: set<nat>, orphans: set<nat>) {
    && w.tty.Tty?
    && w.tty.poller in w.pollers && w.tty.poller !in stray
    && w.pollers[w.tty.poller].owner == ForTty && !w.pollers[w.tty.poller].remove
    && w.tty.poller in w.watch && w.watch[w.tty.poller].events == Interest(w.tty.blocked)
    && w.tty.rbc in w.consumers && w.tty.rbc !in orphans && w.consumers[w.tty.rbc].owner == ForTty
  }

  ghost predicate PollerLinked(w: World, p: nat, stray: set<nat>, orphans: set<nat>)
    requires p in w.pollers
  {
    match w.pollers[p].owner
    case ForClient(c) => c in w.clients && w.clients[c].poller == Some(p)
    case ForTty => TtyLinked(w, stray, orphans) && w.tty.poller == p && !w.pollers[p].hasTimeout
    case ForListener => w.listener == p && !w.pollers[p].hasTimeout
    case _ => false
  }

  ghost predicate ConsumerLinked(w: World, r: nat, stray: set<nat>, orphans: set<nat>)
    requires r in w.consumers
  {
    match w.consumers[r].owner
    case ForClient(c) => c in w.clients && w.clients[c].rbc == Some(r)
    case ForTty => TtyLinked(w, stray, orphans) && w.tty.rbc == r
    case ForLog => w.log == Some(r)
    case ForTextLog => w.text == Some(r)
    case ForListener => false
  }

  /**
   * Everything is linked, except pollers flagged for removal, the `stray` pollers about to
   * be flagged, and the `orphans`: consumers the ring is about to unregister.
   */
  ghost predicate Tied(w: World, stray: set<nat>, orphans: set<nat>) {
    && (forall c :: c in w.clients ==> Linked(w, c, stray, orphans))
    && (forall p :: p in w.pollers && !w.pollers[p].remove && p !in stray ==> PollerLinked(w, p, stray, orphans))
    && (forall r :: r in w.consumers && r !in orphans ==> ConsumerLinked(w, r, stray, orphans))
  }

  /** No unread byte is forgotten: whoever has some will be woken by POLLOUT or by a timer. */
  ghost predicate Settled(w: World, r: nat)
    requires r in w.consumers
  {
    var unread := |w.stream| - w.consumers[r].at;
    match w.consumers[r].owner
    case ForClient(c) =>
      && c in w.clients && w.clients[c].poller.Some? && w.clients[c].poller.value in w.pollers
      && (unread > 0 ==> w.clients[c].blocked || w.pollers[w.clients[c].poller.value].timeout.IsSet())
      && (!w.clients[c].blocked ==> unread < PKT_SIZE)
    case ForTty => unread > 0 ==> w.tty.Tty? && w.tty.blocked
    case ForLog => unread == 0
    case ForTextLog => unread == 0
    case ForListener => false
  }

  /** Everyone has been told of the last bytes queued, except the consumers still `dozing`. */
  ghost predicate Awake(w: World, dozing: set<nat>) {
    forall r :: r in w.consumers && r !in dozing ==> Settled(w, r)
  }

  // ---- what a step of one console may do to the rest -----------------------------------

  datatype Snap = Snap(slots: seq<Slot>, holder: map<nat, Holder>, cells: seq<nat>, pollers: map<nat, Poller>, clients: map<nat, Client>)

  /** The same connection, further on: what has been sent on it is never taken back. */
  ghost predicate Carries(a: Client, b: Client) {
    b.since == a.since && b.script == a.script && b.fd == a.fd && a.wire.sent <= b.wire.sent && Later(a.wire, b.wire)
  }

  ghost predicate Lasting(a: map<nat, Client>, b: map<nat, Client>) {
    forall c :: c in b ==> c in a && Carries(a[c], b[c])
  }

  ghost predicate SameFlags(pollers0: map<nat, Poller>, pollers: map<nat, Poller>) {
    forall p :: p in pollers ==>
      p in pollers0 && pollers[p].remove == pollers0[p].remove && pollers[p].owner == pollers0[p].owner
  }

  /**
   * Other holders' slots are untouched; this console may have lost pollers and clients but
   * has gained none, and no poller has been flagged.
   */
  ghost predicate Follows(a: Snap, b: Snap, me: nat) {
    Untouched(a.slots, a.holder, b.slots, b.holder, me) && Dwindles(a, b)
  }

  ghost predicate Dwindles(a: Snap, b: Snap) {
    Shifted(a.cells, b.cells) && SameFlags(a.pollers, b.pollers) && Lasting(a.clients, b.clients)
  }

  /** Who is gone has a fault of the kernel on its socket to thank for it; where `forced`, EAGAIN is one. */
  ghost predicate Stays(a: map<nat, Client>, b: map<nat, Client>, forced: bool) {
    forall c :: c in a ==> c in b || Faulty(a[c].wire.script, forced)
  }

  lemma StaysTrans(a: map<nat, Client>, b: map<nat, Client>, c: map<nat, Client>, forced: bool)
    requires Lasting(a, b) && Stays(a, b, forced) && Stays(b, c, forced)
    ensures Stays(a, c, forced)
  {
    hide Faulty, Later;
    forall k | k in a && k !in c ensures Faulty(a[k].wire.script, forced) {
      if k in b {
        FaultyLater(a[k].wire, b[k].wire, forced);
      }
    }
  }

  lemma StaysForced(a: map<nat, Client>, b: map<nat, Client>)
    requires Stays(a, b, false)
    ensures Stays(a, b, true)
  {
    forall k | k in a && k !in b ensures Faulty(a[k].wire.script, true) {
      var o :| o in a[k].wire.script && (Fatal(o, false) || o.Interrupted?);
    }
  }

  lemma LastingRemove(a: map<nat, Client>, c: nat)
    ensures Lasting(a, a - {c})
  {
  }

  lemma FollowsLasting(a: Snap, b: Snap, me: nat)
    requires Follows(a, b, me)
    ensures Lasting(a.clients, b.clients)
  {
  }

  lemma FollowsUpdate(a: Snap, b: Snap, c: nat, k: Client, me: nat)
    requires Follows(a, b, me) && c in b.clients && Carries(b.clients[c], k)
    ensures Follows(a, b.(clients := b.clients[c := k]), me)
  {
    hide Untouched, Shifted, SameFlags;
  }

  lemma FollowsTrans(a: Snap, b: Snap, c: Snap, me: nat)
    requires Follows(a, b, me) && Follows(b, c, me)
    ensures Follows(a, c, me)
  {
    hide Dwindles;
    UntouchedTrans(a.slots, a.holder, b.slots, b.holder, c.slots, c.holder, me);
    DwindlesTrans(a, b, c);
  }

  lemma DwindlesTrans(a: Snap, b: Snap, c: Snap)
    requires Dwindles(a, b) && Dwindles(b, c)
    ensures Dwindles(a, c)
  {
    ShiftedTrans(a.cells, b.cells, c.cells);
    hide Shifted;
  }

  // ---- one client drains ------------------------------------------------------------

  ghost function Drain(w: World, c: nat, k: Client, consumers: map<nat, Consumer>): World
    requires k.poller.Some?
  {
    w.(clients := w.clients[c := k],
       watch := w.watch[k.poller.value := Watch(k.fd, Interest(k.blocked))],
       consumers := consumers)
  }

  lemma DrainNothing(w: World, c: nat)
    requires c in w.clients && Linked(w, c, {}, {})
    ensures Drain(w, c, w.clients[c], w.consumers) == w
  {
    var k := w.clients[c];
    assert w.clients[c := k] == w.clients && w.watch[k.poller.value := w.watch[k.poller.value]] == w.watch;
  }

  lemma DrainOther(w: World, c: nat, k: Client, consumers: map<nat, Consumer>, b: nat)
    requires c in w.clients && b in w.clients && b != c && Linked(w, c, {}, {}) && Linked(w, b, {}, {})
    requires k.rbc == w.clients[c].rbc && k.poller == w.clients[c].poller
    requires Consumed(w.consumers, consumers, k.rbc.value)
    ensures Linked(Drain(w, c, k, consumers), b, {}, {})
  {
    hide Interest, Wired;
    assert w.clients[b].rbc != k.rbc && w.clients[b].poller != k.poller;
  }

  lemma DrainTied(w: World, c: nat, k: Client, consumers: map<nat, Consumer>)
    requires Tied(w, {}, {}) && c in w.clients
    requires k == w.clients[c].(blocked := k.blocked, wire := k.wire)
    requires k.rbc.Some? && k.poller.Some? && Consumed(w.consumers, consumers, k.rbc.value)
    requires Wired(k, consumers[k.rbc.value], w.stream)
    ensures Tied(Drain(w, c, k, consumers), {}, {})
  {
    var v := Drain(w, c, k, consumers);
    hide Interest, Wired;
    assert Linked(w, c, {}, {});
    forall b | b in v.clients ensures Linked(v, b, {}, {}) {
      if b != c {
        DrainOther(w, c, k, consumers, b);
      }
    }
    hide Linked, PollerLinked, ConsumerLinked;
    DrainBack(w, c, k, consumers);
    DrainRead(w, c, k, consumers);
  }

  lemma DrainBack(w: World, c: nat, k: Client, consumers: map<nat, Consumer>)
    requires Tied(w, {}, {}) && c in w.clients && Linked(w, c, {}, {})
    requires k.rbc == w.clients[c].rbc && k.poller == w.clients[c].poller
    requires Consumed(w.consumers, consumers, k.rbc.value)
    ensures var v := Drain(w, c, k, consumers);
            forall p :: p in v.pollers && !v.pollers[p].remove ==> PollerLinked(v, p, {}, {})
  {
    DrainLocal(w, c, k, consumers);
    hide TtyLinked, Linked, ConsumerLinked;
    var v := Drain(w, c, k, consumers);
    forall p | p in v.pollers && !v.pollers[p].remove ensures PollerLinked(v, p, {}, {}) {
      assert PollerLinked(w, p, {}, {});
    }
  }

  lemma DrainRead(w: World, c: nat, k: Client, consumers: map<nat, Consumer>)
    requires Tied(w, {}, {}) && c in w.clients && Linked(w, c, {}, {})
    requires k.rbc == w.clients[c].rbc && k.poller == w.clients[c].poller
    requires Consumed(w.consumers, consumers, k.rbc.value)
    ensures var v := Drain(w, c, k, consumers);
            forall r :: r in v.consumers ==> ConsumerLinked(v, r, {}, {})
  {
    DrainLocal(w, c, k, consumers);
    hide TtyLinked, Linked, PollerLinked;
    var v := Drain(w, c, k, consumers);
    forall r | r in v.consumers ensures ConsumerLinked(v, r, {}, {}) {
      assert ConsumerLinked(w, r, {}, {});
    }
  }

  lemma DrainLocal(w: World, c: nat, k: Client, consumers: map<nat, Consumer>)
    requires c in w.clients && Linked(w, c, {}, {})
    requires k.rbc == w.clients[c].rbc && k.poller == w.clients[c].poller
    requires Consumed(w.consumers, consumers, k.rbc.value)
    ensures TtyLinked(w, {}, {}) ==> TtyLinked(Drain(w, c, k, consumers), {}, {})
  {
    hide Interest, Wired;
  }

  /** Changing only a client's blocked flag, and its slot with it. */
  lemma DrainKeeps(w: World, c: nat, k: Client, dozing: set<nat>)
    requires Tied(w, {}, {}) && Awake(w, dozing) && c in w.clients
    requires k == w.clients[c].(blocked := k.blocked)
    ensures k.poller.Some? && k.rbc.Some?
    ensures var v := Drain(w, c, k, w.consumers);
            Tied(v, {}, {}) && Awake(v, dozing + {k.rbc.value}) && Linked(v, c, {}, {})
  {
    hide Interest;
    assert Linked(w, c, {}, {});
    assert Consumed(w.consumers, w.consumers, k.rbc.value);
    DrainTied(w, c, k, w.consumers);
    DrainAwake(w, c, k, w.consumers, dozing);
  }

  lemma LinkOf(w: World, c: nat)
    requires Tied(w, {}, {}) && c in w.clients
    ensures Linked(w, c, {}, {})
  {
  }

  lemma ClientOwns(w: World, c: nat)
    requires c in w.clients && Linked(w, c, {}, {})
    ensures var k := w.clients[c];
            && k.poller.Some? && k.poller.value in w.pollers
            && k.rbc.Some? && k.rbc.value in w.consumers && w.consumers[k.rbc.value].owner == ForClient(c)
  {
  }

  /** A blocked client needs no timer. */
  lemma WakeBlocked(w: World, c: nat)
    requires c in w.clients && Linked(w, c, {}, {}) && w.clients[c].blocked
    requires Awake(w, {w.clients[c].rbc.value})
    ensures Awake(w, {})
  {
    hide Interest, Wired;
    var r := w.clients[c].rbc.value;
    assert Settled(w, r);
    Wake(w, r, {r});
    assert {r} - {r} == {};
  }

  lemma DrainAwake(w: World, c: nat, k: Client, consumers: map<nat, Consumer>, dozing: set<nat>)
    requires Tied(w, {}, {}) && Awake(w, dozing) && c in w.clients
    requires k == w.clients[c].(blocked := k.blocked, wire := k.wire)
    requires k.rbc.Some? && k.poller.Some? && Consumed(w.consumers, consumers, k.rbc.value)
    ensures Awake(Drain(w, c, k, consumers), dozing + {k.rbc.value})
  {
    hide Interest, Wired;
    var v := Drain(w, c, k, consumers);
    assert Linked(w, c, {}, {});
    forall r | r in v.consumers && r !in dozing + {k.rbc.value} ensures Settled(v, r) {
      assert Settled(w, r) && ConsumerLinked(w, r, {}, {});
    }
  }

  /** Waking one consumer. */
  lemma Wake(w: World, r: nat, dozing: set<nat>)
    requires Awake(w, dozing) && r in w.consumers && Settled(w, r)
    ensures Awake(w, dozing - {r})
  {
  }

  /** A drain that succeeds leaves its consumer settled: blocked, emptied, or no worse than before. */
  lemma DrainSettles(w: World, c: nat, k: Client, consumers: map<nat, Consumer>, force: nat, dozing: set<nat>)
    requires Tied(w, {}, {}) && Awake(w, dozing) && c in w.clients
    requires k == w.clients[c].(blocked := k.blocked, wire := k.wire)
    requires k.rbc.Some? && k.poller.Some? && Consumed(w.consumers, consumers, k.rbc.value)
    requires if force == 0 then k.blocked || consumers[k.rbc.value].at == |w.stream|
             else k.rbc.value !in dozing && k.blocked == w.clients[c].blocked
    ensures Awake(Drain(w, c, k, consumers), dozing - {k.rbc.value})
  {
    hide Interest, Wired;
    var r := k.rbc.value;
    var v := Drain(w, c, k, consumers);
    DrainAwake(w, c, k, consumers, dozing);
    assert Linked(w, c, {}, {});
    if force != 0 {
      assert Settled(w, r);
    }
    assert Settled(v, r);
    Wake(v, r, dozing + {r});
    Doze(v, dozing + {r} - {r}, dozing - {r});
  }

  lemma Doze(w: World, dozing: set<nat>, more: set<nat>)
    requires Awake(w, dozing) && dozing <= more
    ensures Awake(w, more)
  {
  }

  // ---- timers -----------------------------------------------------------------------

  ghost function Retime(w: World, p: nat, t: Timeval): World
    requires p in w.pollers
  {
    w.(pollers := w.pollers[p := w.pollers[p].(timeout := t)])
  }

  lemma RetimeTied(w: World, p: nat, t: Timeval, stray: set<nat>)
    requires Tied(w, stray, {}) && p in w.pollers
    ensures Tied(Retime(w, p, t), stray, {})
  {
    hide Interest, Wired;
    var v := Retime(w, p, t);
    forall b | b in v.clients ensures Linked(v, b, stray, {}) {
      assert Linked(w, b, stray, {});
    }
    forall q | q in v.pollers && !v.pollers[q].remove && q !in stray ensures PollerLinked(v, q, stray, {}) {
      assert PollerLinked(w, q, stray, {});
    }
    forall r | r in v.consumers ensures ConsumerLinked(v, r, stray, {}) {
      assert ConsumerLinked(w, r, stray, {});
    }
  }

  /** Only the poller's own client can lose its wake-up when its timer changes. */
  lemma RetimeAwake(w: World, p: nat, t: Timeval, dozing: set<nat>, r: nat)
    requires Tied(w, {}, {}) && Awake(w, dozing) && p in w.pollers && !w.pollers[p].remove
    requires w.pollers[p].owner.ForClient? && w.pollers[p].owner.id in w.clients
    requires w.clients[w.pollers[p].owner.id].rbc == Some(r)
    ensures Awake(Retime(w, p, t), dozing + {r})
  {
    hide Interest, Wired;
    var v := Retime(w, p, t);
    var c := w.pollers[p].owner.id;
    assert PollerLinked(w, p, {}, {}) && Linked(w, c, {}, {});
    forall q | q in v.consumers && q !in dozing + {r} ensures Settled(v, q) {
      assert Settled(w, q) && ConsumerLinked(w, q, {}, {});
    }
  }

  // ---- closing ----------------------------------------------------------------------

  /** client_close as the ring's poll reaches it: the consumer is left for the ring. */
  ghost function CloseFromRing(w: World, c: nat, p: nat): World {
    w.(clients := w.clients - {c}, pollers := w.pollers - {p}, watch := w.watch - {p})
  }

  lemma CloseFromRingLinks(w: World, c: nat, p: nat, r: nat)
    requires Tied(w, {}, {}) && c in w.clients
    requires w.clients[c].poller == Some(p) && w.clients[c].rbc == Some(r)
    ensures var v := CloseFromRing(w, c, p);
            && (forall b :: b in v.clients ==> Linked(v, b, {}, {r})) && (TtyLinked(w, {}, {}) ==> TtyLinked(v, {}, {r}))
  {
    hide Interest, Wired, PollerLinked, ConsumerLinked;
    var v := CloseFromRing(w, c, p);
    assert Linked(w, c, {}, {});
    forall b | b in v.clients ensures Linked(v, b, {}, {r}) {
      assert Linked(w, b, {}, {});
    }
  }

  lemma CloseFromRingBack(w: World, c: nat, p: nat, r: nat)
    requires Tied(w, {}, {}) && c in w.clients && Linked(w, c, {}, {})
    requires w.clients[c].poller == Some(p) && w.clients[c].rbc == Some(r)
    requires TtyLinked(w, {}, {}) ==> TtyLinked(CloseFromRing(w, c, p), {}, {r})
    ensures var v := CloseFromRing(w, c, p);
            forall q :: q in v.pollers && !v.pollers[q].remove ==> PollerLinked(v, q, {}, {r})
  {
    hide Linked, TtyLinked, ConsumerLinked;
    var v := CloseFromRing(w, c, p);
    forall q | q in v.pollers && !v.pollers[q].remove ensures PollerLinked(v, q, {}, {r}) {
      assert PollerLinked(w, q, {}, {});
    }
  }

  lemma CloseFromRingRead(w: World, c: nat, p: nat, r: nat)
    requires Tied(w, {}, {}) && c in w.clients && Linked(w, c, {}, {})
    requires w.clients[c].poller == Some(p) && w.clients[c].rbc == Some(r)
    requires TtyLinked(w, {}, {}) ==> TtyLinked(CloseFromRing(w, c, p), {}, {r})
    ensures var v := CloseFromRing(w, c, p);
            forall q :: q in v.consumers && q != r ==> ConsumerLinked(v, q, {}, {r})
  {
    hide Linked, TtyLinked, PollerLinked;
    var v := CloseFromRing(w, c, p);
    forall q | q in v.consumers && q != r ensures ConsumerLinked(v, q, {}, {r}) {
      assert ConsumerLinked(w, q, {}, {});
    }
  }

  lemma CloseFromRingKeeps(w: World, c: nat, p: nat, r: nat, dozing: set<nat>)
    requires Tied(w, {}, {}) && Awake(w, dozing) && c in w.clients
    requires w.clients[c].poller == Some(p) && w.clients[c].rbc == Some(r)
    ensures Tied(CloseFromRing(w, c, p), {}, {r}) && Awake(CloseFromRing(w, c, p), dozing + {r})
  {
    var v := CloseFromRing(w, c, p);
    CloseFromRingLinks(w, c, p, r);
    LinkOf(w, c);
    hide Linked, TtyLinked, PollerLinked, ConsumerLinked, Settled;
    CloseFromRingBack(w, c, p, r);
    CloseFromRingRead(w, c, p, r);
    forall q | q in v.consumers && q !in dozing + {r} ensures Settled(v, q) {
      SettledWithout(w, c, p, r, q);
    }
  }

  lemma SettledWithout(w: World, c: nat, p: nat, r: nat, q: nat)
    requires Tied(w, {}, {}) && c in w.clients && w.clients[c].poller == Some(p) && w.clients[c].rbc == Some(r)
    requires q in w.consumers && q != r && Settled(w, q)
    ensures Settled(CloseFromRing(w, c, p), q)
  {
    hide Interest, Wired, TtyLinked, PollerLinked;
    assert ConsumerLinked(w, q, {}, {}) && Linked(w, c, {}, {});
    if w.consumers[q].owner.ForClient? {
      assert Linked(w, w.consumers[q].owner.id, {}, {});
    }
  }

  /** client_close as a poller's callback reaches it: the poller is left for call_pollers. */
  ghost function CloseFromPoller(w: World, c: nat, r: nat): World {
    w.(clients := w.clients - {c}, consumers := w.consumers - {r})
  }

  lemma CloseFromPollerLinks(w: World, c: nat, p: nat, r: nat)
    requires Tied(w, {}, {}) && c in w.clients
    requires w.clients[c].poller == Some(p) && w.clients[c].rbc == Some(r)
    ensures var v := CloseFromPoller(w, c, r);
            && (forall b :: b in v.clients ==> Linked(v, b, {p}, {})) && (TtyLinked(w, {}, {}) ==> TtyLinked(v, {p}, {}))
  {
    hide Interest, Wired, PollerLinked, ConsumerLinked;
    var v := CloseFromPoller(w, c, r);
    assert Linked(w, c, {}, {});
    forall b | b in v.clients ensures Linked(v, b, {p}, {}) {
      assert Linked(w, b, {}, {});
    }
  }

  lemma CloseFromPollerBack(w: World, c: nat, p: nat, r: nat)
    requires Tied(w, {}, {}) && c in w.clients && Linked(w, c, {}, {})
    requires w.clients[c].poller == Some(p) && w.clients[c].rbc == Some(r)
    requires TtyLinked(w, {}, {}) ==> TtyLinked(CloseFromPoller(w, c, r), {p}, {})
    ensures var v := CloseFromPoller(w, c, r);
            forall q :: q in v.pollers && !v.pollers[q].remove && q != p ==> PollerLinked(v, q, {p}, {})
  {
    hide Linked, TtyLinked, ConsumerLinked;
    var v := CloseFromPoller(w, c, r);
    forall q | q in v.pollers && !v.pollers[q].remove && q != p ensures PollerLinked(v, q, {p}, {}) {
      assert PollerLinked(w, q, {}, {});
    }
  }

  lemma CloseFromPollerRead(w: World, c: nat, p: nat, r: nat, dozing: set<nat>)
    requires Tied(w, {}, {}) && Awake(w, dozing) && c in w.clients && Linked(w, c, {}, {})
    requires w.clients[c].poller == Some(p) && w.clients[c].rbc == Some(r)
    requires TtyLinked(w, {}, {}) ==> TtyLinked(CloseFromPoller(w, c, r), {p}, {})
    ensures var v := CloseFromPoller(w, c, r);
            forall q :: q in v.consumers ==> ConsumerLinked(v, q, {p}, {}) && (q !in dozing - {r} ==> Settled(v, q))
  {
    hide Linked, TtyLinked, PollerLinked;
    var v := CloseFromPoller(w, c, r);
    forall q | q in v.consumers ensures ConsumerLinked(v, q, {p}, {}) && (q !in dozing - {r} ==> Settled(v, q)) {
      assert ConsumerLinked(w, q, {}, {});
      if q !in dozing {
        assert Settled(w, q);
      }
    }
  }

  lemma CloseFromPollerKeeps(w: World, c: nat, p: nat, r: nat, dozing: set<nat>)
    requires Tied(w, {}, {}) && Awake(w, dozing) && c in w.clients
    requires w.clients[c].poller == Some(p) && w.clients[c].rbc == Some(r)
    ensures Tied(CloseFromPoller(w, c, r), {p}, {}) && Awake(CloseFromPoller(w, c, r), dozing - {r})
  {
    CloseFromPollerLinks(w, c, p, r);
    LinkOf(w, c);
    hide Linked, TtyLinked, PollerLinked, ConsumerLinked, Settled;
    CloseFromPollerBack(w, c, p, r);
    CloseFromPollerRead(w, c, p, r, dozing);
  }

  /** ringbuffer_consumer_unregister. */
  ghost function DropConsumer(w: World, r: nat): World {
    w.(consumers := w.consumers - {r})
  }

  lemma DropConsumerKeeps(w: World, r: nat, dozing: set<nat>)
    requires Tied(w, {}, {r}) && Awake(w, dozing)
    ensures Tied(DropConsumer(w, r), {}, {}) && Awake(DropConsumer(w, r), dozing - {r})
  {
    hide Interest, Wired;
    var v := DropConsumer(w, r);
    forall b | b in v.clients ensures Linked(v, b, {}, {}) {
      assert Linked(w, b, {}, {r});
    }
    forall q | q in v.pollers && !v.pollers[q].remove ensures PollerLinked(v, q, {}, {}) {
      assert PollerLinked(w, q, {}, {r});
    }
    forall q | q in v.consumers ensures ConsumerLinked(v, q, {}, {}) {
      assert ConsumerLinked(w, q, {}, {r});
    }
    forall q | q in v.consumers && q !in dozing - {r} ensures Settled(v, q) {
      assert Settled(w, q);
    }
  }

  // ---- flags ------------------------------------------------------------------------

  ghost function Flag(w: World, p: nat): World
    requires p in w.pollers
  {
    w.(pollers := w.pollers[p := w.pollers[p].(remove := true)])
  }

  lemma FlagKeeps(w: World, p: nat, dozing: set<nat>)
    requires Tied(w, {p}, {}) && Awake(w, dozing) && p in w.pollers
    ensures Tied(Flag(w, p), {}, {}) && Awake(Flag(w, p), dozing)
  {
    hide Interest, Wired;
    var v := Flag(w, p);
    forall b | b in v.clients ensures Linked(v, b, {}, {}) {
      assert Linked(w, b, {p}, {});
    }
    forall q | q in v.pollers && !v.pollers[q].remove ensures PollerLinked(v, q, {}, {}) {
      assert PollerLinked(w, q, {p}, {});
    }
    forall q | q in v.consumers ensures ConsumerLinked(v, q, {}, {}) {
      assert ConsumerLinked(w, q, {p}, {});
    }
    forall q | q in v.consumers && q !in dozing ensures Settled(v, q) {
      assert Settled(w, q) && ConsumerLinked(w, q, {p}, {});
    }
  }

  lemma PurgeKeeps(w: World, pollers: map<nat, Poller>, watch: map<nat, Watch>, dozing: set<nat>)
    requires Tied(w, {}, {}) && Awake(w, dozing)
    requires forall p :: p in pollers <==> p in w.pollers && !w.pollers[p].remove
    requires forall p :: p in pollers ==> pollers[p] == w.pollers[p] && p in watch && p in w.watch && watch[p] == w.watch[p]
    ensures Tied(w.(pollers := pollers, watch := watch), {}, {})
    ensures Awake(w.(pollers := pollers, watch := watch), dozing)
  {
    hide Interest, Wired;
    var v := w.(pollers := pollers, watch := watch);
    forall b | b in v.clients ensures Linked(v, b, {}, {}) {
      assert Linked(w, b, {}, {});
    }
    forall q | q in v.pollers && !v.pollers[q].remove ensures PollerLinked(v, q, {}, {}) {
      assert PollerLinked(w, q, {}, {});
    }
    forall q | q in v.consumers ensures ConsumerLinked(v, q, {}, {}) {
      assert ConsumerLinked(w, q, {}, {});
    }
    forall q | q in v.consumers && q !in dozing ensures Settled(v, q) {
      assert Settled(w, q) && ConsumerLinked(w, q, {}, {});
    }
  }

  // ---- a new client, new bytes --------------------------------------------------------

  ghost function AddClient(w: World, c: nat, k: Client, x: Poller, y: Consumer): World
    requires k.poller.Some? && k.rbc.Some?
  {
    w.(clients := w.clients[c := k],
       pollers := w.pollers[k.poller.value := x],
       watch := w.watch[k.poller.value := Watch(k.fd, Interest(k.blocked))],
       consumers := w.consumers[k.rbc.value := y])
  }

  ghost predicate Admissible(w: World, c: nat, k: Client, x: Poller, y: Consumer) {
    && c !in w.clients
    && k.poller.Some? && k.poller.value !in w.pollers && k.rbc.Some? && k.rbc.value !in w.consumers
    && x.owner == ForClient(c) && x.hasTimeout && !x.remove
    && y.owner == ForClient(c) && y.at == |w.stream| && Wired(k, y, w.stream) && !k.blocked
  }

  lemma AddClientLinks(w: World, c: nat, k: Client, x: Poller, y: Consumer)
    requires Tied(w, {}, {}) && Admissible(w, c, k, x, y)
    ensures var v := AddClient(w, c, k, x, y);
            (forall b :: b in v.clients ==> Linked(v, b, {}, {})) && (TtyLinked(w, {}, {}) ==> TtyLinked(v, {}, {}))
  {
    hide Interest, Wired, PollerLinked, ConsumerLinked;
    var v := AddClient(w, c, k, x, y);
    forall b | b in v.clients ensures Linked(v, b, {}, {}) {
      if b != c {
        assert Linked(w, b, {}, {});
      }
    }
  }

  lemma AddClientKeeps(w: World, c: nat, k: Client, x: Poller, y: Consumer, dozing: set<nat>)
    requires Tied(w, {}, {}) && Awake(w, dozing) && Admissible(w, c, k, x, y)
    ensures Tied(AddClient(w, c, k, x, y), {}, {}) && Awake(AddClient(w, c, k, x, y), dozing)
  {
    hide Interest, Wired, Linked, TtyLinked;
    var v := AddClient(w, c, k, x, y);
    AddClientLinks(w, c, k, x, y);
    forall q | q in v.pollers && !v.pollers[q].remove ensures PollerLinked(v, q, {}, {}) {
      if q != k.poller.value {
        assert PollerLinked(w, q, {}, {});
      }
    }
    forall q | q in v.consumers ensures ConsumerLinked(v, q, {}, {}) {
      if q != k.rbc.value {
        assert ConsumerLinked(w, q, {}, {});
      }
    }
    forall q | q in v.consumers && q !in dozing ensures Settled(v, q) {
      if q != k.rbc.value {
        SettledBeside(w, c, k, x, y, q);
      }
    }
  }

  lemma SettledBeside(w: World, c: nat, k: Client, x: Poller, y: Consumer, q: nat)
    requires Tied(w, {}, {}) && Admissible(w, c, k, x, y) && q in w.consumers && Settled(w, q)
    ensures Settled(AddClient(w, c, k, x, y), q)
  {
    hide Interest, Wired, TtyLinked, PollerLinked;
    assert ConsumerLinked(w, q, {}, {});
    if w.consumers[q].owner.ForClient? {
      assert Linked(w, w.consumers[q].owner.id, {}, {});
    }
  }

  lemma WiredAtFirst(k: Client, y: Consumer, stream: seq<byte>)
    requires k.wire == Wire(k.script, [], []) && k.since == y.from == y.at == |stream|
    ensures Wired(k, y, stream)
  {
    assert [] + k.script == k.script;
  }

  /** What socket_init registers: the listening socket's poller. */
  lemma AddListenerKeeps(w: World, p: nat, x: Poller, watch: Watch)
    requires Tied(w, {}, {}) && Awake(w, {}) && p !in w.pollers && p == w.listener
    requires x.owner == ForListener && !x.hasTimeout
    ensures var v := w.(pollers := w.pollers[p := x], watch := w.watch[p := watch]);
            Tied(v, {}, {}) && Awake(v, {})
  {
    hide Interest, Wired;
    var v := w.(pollers := w.pollers[p := x], watch := w.watch[p := watch]);
    forall b | b in v.clients ensures Linked(v, b, {}, {}) {
      assert Linked(w, b, {}, {});
    }
    forall q | q in v.pollers && !v.pollers[q].remove ensures PollerLinked(v, q, {}, {}) {
      if q != p {
        assert PollerLinked(w, q, {}, {});
      }
    }
    forall q | q in v.consumers ensures ConsumerLinked(v, q, {}, {}) && Settled(v, q) {
      assert ConsumerLinked(w, q, {}, {}) && Settled(w, q);
    }
  }

  /** What tty_init registers. */
  lemma AddTtyKeeps(w: World, p: nat, x: Poller, fd: int, r: nat, y: Consumer)
    requires Tied(w, {}, {}) && Awake(w, {}) && p !in w.pollers && r !in w.consumers && w.tty.NoTty?
    requires x.owner == ForTty && !x.hasTimeout && !x.remove && y.owner == ForTty && y.at == |w.stream|
    ensures var v := w.(pollers := w.pollers[p := x], watch := w.watch[p := Watch(fd, Interest(false))],
                        consumers := w.consumers[r := y], tty := Tty(r, p, false));
            Tied(v, {}, {}) && Awake(v, {})
  {
    hide Interest, Wired;
    var v := w.(pollers := w.pollers[p := x], watch := w.watch[p := Watch(fd, Interest(false))],
                consumers := w.consumers[r := y], tty := Tty(r, p, false));
    forall b | b in v.clients ensures Linked(v, b, {}, {}) {
      assert Linked(w, b, {}, {});
    }
    forall q | q in v.pollers && !v.pollers[q].remove ensures PollerLinked(v, q, {}, {}) {
      if q != p {
        assert PollerLinked(w, q, {}, {});
      }
    }
    forall q | q in v.consumers ensures ConsumerLinked(v, q, {}, {}) && Settled(v, q) {
      if q != r {
        assert ConsumerLinked(w, q, {}, {}) && Settled(w, q);
      }
    }
  }

  /** What log_init and text_log_init register. */
  lemma AddLogKeeps(w: World, r: nat, y: Consumer)
    requires Tied(w, {}, {}) && Awake(w, {}) && r !in w.consumers && y.at == |w.stream|
    requires (y.owner == ForLog && w.log == None) || (y.owner == ForTextLog && w.text == None)
    ensures var v := if y.owner == ForLog then w.(consumers := w.consumers[r := y], log := Some(r))
                     else w.(consumers := w.consumers[r := y], text := Some(r));
            Tied(v, {}, {}) && Awake(v, {})
  {
    hide Interest, Wired;
    var v := if y.owner == ForLog then w.(consumers := w.consumers[r := y], log := Some(r))
             else w.(consumers := w.consumers[r := y], text := Some(r));
    forall b | b in v.clients ensures Linked(v, b, {}, {}) {
      assert Linked(w, b, {}, {});
    }
    forall q | q in v.pollers && !v.pollers[q].remove ensures PollerLinked(v, q, {}, {}) {
      assert PollerLinked(w, q, {}, {});
    }
    forall q | q in v.consumers ensures ConsumerLinked(v, q, {}, {}) && Settled(v, q) {
      if q != r {
        assert ConsumerLinked(w, q, {}, {}) && Settled(w, q);
      }
    }
  }

  lemma EmptyWorld(stream: seq<byte>, listener: nat)
    ensures var w := World(map[], map[], map[], map[], stream, NoTty, None, None, listener);
            Tied(w, {}, {}) && Awake(w, {})
  {
  }

  /** Queuing bytes moves nothing but the end of the stream; everyone then dozes. */
  lemma GrowTied(w: World, data: seq<byte>)
    requires Tied(w, {}, {})
    ensures Tied(w.(stream := w.stream + data), {}, {})
  {
    hide Resent, Interest;
    var v := w.(stream := w.stream + data);
    forall b | b in v.clients ensures Linked(v, b, {}, {}) {
      assert Linked(w, b, {}, {});
      var k := w.clients[b];
      var x := w.consumers[k.rbc.value];
      ResentGrows(k.wire.sent, w.stream, data, x.from, x.at, Interruptions(k.wire.used));
    }
    hide Linked;
    forall q | q in v.pollers && !v.pollers[q].remove ensures PollerLinked(v, q, {}, {}) {
      assert PollerLinked(w, q, {}, {});
    }
    forall q | q in v.consumers ensures ConsumerLinked(v, q, {}, {}) {
      assert ConsumerLinked(w, q, {}, {});
    }
  }

  lemma AllDoze(w: World, cells: seq<nat>, next: nat)
    requires Listed(cells, w.consumers, next)
    ensures Awake(w, Elements(cells))
  {
  }

  // ---- the other handlers -------------------------------------------------------------

  ghost function DrainTty(w: World, blocked: bool, consumers: map<nat, Consumer>): World
    requires w.tty.Tty? && w.tty.poller in w.watch
  {
    w.(tty := w.tty.(blocked := blocked),
       watch := w.watch[w.tty.poller := w.watch[w.tty.poller].(events := Interest(blocked))],
       consumers := consumers)
  }

  lemma DrainTtyKeeps(w: World, blocked: bool, consumers: map<nat, Consumer>, dozing: set<nat>)
    requires Tied(w, {}, {}) && Awake(w, dozing) && TtyLinked(w, {}, {})
    requires Consumed(w.consumers, consumers, w.tty.rbc)
    ensures Tied(DrainTty(w, blocked, consumers), {}, {})
    ensures TtyLinked(DrainTty(w, blocked, consumers), {}, {})
    ensures Awake(DrainTty(w, blocked, consumers), dozing + {w.tty.rbc})
  {
    hide Interest, Wired;
    var v := DrainTty(w, blocked, consumers);
    forall b | b in v.clients ensures Linked(v, b, {}, {}) {
      assert Linked(w, b, {}, {});
    }
    forall q | q in v.pollers && !v.pollers[q].remove ensures PollerLinked(v, q, {}, {}) {
      assert PollerLinked(w, q, {}, {});
    }
    forall q | q in v.consumers ensures ConsumerLinked(v, q, {}, {}) {
      assert ConsumerLinked(w, q, {}, {});
    }
    forall q | q in v.consumers && q !in dozing + {w.tty.rbc} ensures Settled(v, q) {
      assert Settled(w, q) && ConsumerLinked(w, q, {}, {});
    }
  }

  lemma DrainTtySettles(w: World, blocked: bool, consumers: map<nat, Consumer>, force: nat, dozing: set<nat>)
    requires Tied(w, {}, {}) && Awake(w, dozing) && TtyLinked(w, {}, {})
    requires Consumed(w.consumers, consumers, w.tty.rbc)
    requires if force == 0 then blocked || consumers[w.tty.rbc].at == |w.stream|
             else w.tty.rbc !in dozing && blocked == w.tty.blocked
    ensures Tied(DrainTty(w, blocked, consumers), {}, {})
    ensures Awake(DrainTty(w, blocked, consumers), dozing - {w.tty.rbc})
  {
    hide Tied;
    var v, r := DrainTty(w, blocked, consumers), w.tty.rbc;
    DrainTtyKeeps(w, blocked, consumers, dozing);
    if force != 0 {
      assert Settled(w, r);
    }
    assert Settled(v, r);
    Wake(v, r, dozing + {r});
    Doze(v, dozing + {r} - {r}, dozing - {r});
  }

  lemma TtyOwns(w: World)
    requires TtyLinked(w, {}, {})
    ensures w.tty.Tty? && w.tty.poller in w.watch && w.tty.rbc in w.consumers && w.consumers[w.tty.rbc].owner == ForTty
  {
  }

  /** tty_ringbuffer_poll failing: the poller goes, the consumer is left for the ring. */
  lemma TtyFromRingKeeps(w: World, dozing: set<nat>)
    requires Tied(w, {}, {}) && Awake(w, dozing) && TtyLinked(w, {}, {})
    ensures var v := w.(pollers := w.pollers - {w.tty.poller}, watch := w.watch - {w.tty.poller});
            Tied(v, {}, {w.tty.rbc}) && Awake(v, dozing + {w.tty.rbc})
  {
    hide Interest, Wired;
    var p, r := w.tty.poller, w.tty.rbc;
    var v := w.(pollers := w.pollers - {p}, watch := w.watch - {p});
    forall b | b in v.clients ensures Linked(v, b, {}, {r}) {
      assert Linked(w, b, {}, {});
    }
    forall q | q in v.pollers && !v.pollers[q].remove ensures PollerLinked(v, q, {}, {r}) {
      assert PollerLinked(w, q, {}, {});
    }
    forall q | q in v.consumers && q !in {r} ensures ConsumerLinked(v, q, {}, {r}) {
      assert ConsumerLinked(w, q, {}, {});
    }
    forall q | q in v.consumers && q !in dozing + {r} ensures Settled(v, q) {
      assert Settled(w, q) && ConsumerLinked(w, q, {}, {});
    }
  }

  /** tty_poll failing: the consumer goes, the poller is left for call_pollers. */
  lemma TtyFromPollerKeeps(w: World, dozing: set<nat>)
    requires Tied(w, {}, {}) && Awake(w, dozing) && TtyLinked(w, {}, {})
    ensures var v := DropConsumer(w, w.tty.rbc);
            Tied(v, {w.tty.poller}, {}) && Awake(v, dozing - {w.tty.rbc})
  {
    hide Interest, Wired;
    var p, r := w.tty.poller, w.tty.rbc;
    var v := DropConsumer(w, r);
    forall b | b in v.clients ensures Linked(v, b, {p}, {}) {
      assert Linked(w, b, {}, {});
    }
    forall q | q in v.pollers && !v.pollers[q].remove && q !in {p} ensures PollerLinked(v, q, {p}, {}) {
      assert PollerLinked(w, q, {}, {});
    }
    forall q | q in v.consumers ensures ConsumerLinked(v, q, {p}, {}) {
      assert ConsumerLinked(w, q, {}, {});
    }
    forall q | q in v.consumers && q !in dozing - {r} ensures Settled(v, q) {
      assert Settled(w, q);
    }
  }

  /** A log handler reads on; on failure its consumer is left for the ring. */
  lemma DrainLogKeeps(w: World, r: nat, consumers: map<nat, Consumer>, dozing: set<nat>)
    requires Tied(w, {}, {}) && Awake(w, dozing) && r in w.consumers
    requires w.consumers[r].owner.ForLog? || w.consumers[r].owner.ForTextLog?
    requires Consumed(w.consumers, consumers, r)
    ensures var v := w.(consumers := consumers);
            Tied(v, {}, {}) && Tied(v, {}, {r}) && Awake(v, dozing + {r})
  {
    hide Wired;
    var v := w.(consumers := consumers);
    forall b | b in v.clients ensures Linked(v, b, {}, {}) && Linked(v, b, {}, {r}) {
      assert Linked(w, b, {}, {});
    }
    forall q | q in v.pollers && !v.pollers[q].remove
      ensures PollerLinked(v, q, {}, {}) && PollerLinked(v, q, {}, {r})
    {
      assert PollerLinked(w, q, {}, {});
    }
    forall q | q in v.consumers
      ensures ConsumerLinked(v, q, {}, {}) && (q != r ==> ConsumerLinked(v, q, {}, {r}))
    {
      assert ConsumerLinked(w, q, {}, {});
    }
    forall q | q in v.consumers && q !in dozing + {r} ensures Settled(v, q) {
      assert Settled(w, q) && ConsumerLinked(w, q, {}, {});
    }
  }

  /** The consumer's owner, as the ring's callback finds it. */
  lemma OwnerOf(w: World, r: nat)
    requires Tied(w, {}, {}) && r in w.consumers
    ensures match w.consumers[r].owner
            case ForClient(c) => c in w.clients && Linked(w, c, {}, {}) && w.clients[c].rbc == Some(r)
            case ForTty => TtyLinked(w, {}, {}) && w.tty.Tty? && w.tty.rbc == r
            case ForLog => w.log == Some(r)
            case ForTextLog => w.text == Some(r)
            case ForListener => false
  {
    assert ConsumerLinked(w, r, {}, {});
  }

  /** The poller's owner, as call_pollers finds it. */
  lemma PollerOwner(w: World, p: nat)
    requires Tied(w, {}, {}) && p in w.pollers && !w.pollers[p].remove
    ensures match w.pollers[p].owner
            case ForClient(c) => c in w.clients && Linked(w, c, {}, {}) && w.clients[c].poller == Some(p)
            case ForTty => TtyLinked(w, {}, {}) && w.tty.Tty? && w.tty.poller == p && !w.pollers[p].hasTimeout
            case ForListener => w.listener == p && !w.pollers[p].hasTimeout
            case _ => false
  {
    assert PollerLinked(w, p, {}, {});
  }

  // ---- what the invariant means -------------------------------------------------------

  ghost function ClientPollers(w: World): set<nat> {
    set p | p in w.pollers && w.pollers[p].owner.ForClient?
  }

  ghost function ClientConsumers(w: World): set<nat> {
    set r | r in w.consumers && w.consumers[r].owner.ForClient?
  }

  ghost predicate Joined(w: World, c: nat)
    requires c in w.clients
  {
    && w.clients[c].poller.Some? && w.clients[c].poller.value in ClientPollers(w)
    && w.clients[c].rbc.Some? && w.clients[c].rbc.value in ClientConsumers(w)
  }

  /**
   * Ownership bijection: with nothing flagged, clients, their pollers and their ring
   * consumers correspond one to one, in both directions.
   */
  lemma Bijection(w: World)
    requires Tied(w, {}, {}) && forall p :: p in w.pollers ==> !w.pollers[p].remove
    ensures forall c :: c in w.clients ==> Joined(w, c)
    ensures forall p :: p in ClientPollers(w) ==> exists c :: c in w.clients && w.clients[c].poller == Some(p)
    ensures forall r :: r in ClientConsumers(w) ==> exists c :: c in w.clients && w.clients[c].rbc == Some(r)
    ensures forall b, c :: b in w.clients && c in w.clients && b != c ==>
              w.clients[b].poller != w.clients[c].poller && w.clients[b].rbc != w.clients[c].rbc
  {
    hide Wired, Interest;
    forall c | c in w.clients ensures Joined(w, c) {
      assert Linked(w, c, {}, {});
    }
    forall p | p in ClientPollers(w) ensures exists c :: c in w.clients && w.clients[c].poller == Some(p) {
      assert PollerLinked(w, p, {}, {});
    }
    forall r | r in ClientConsumers(w) ensures exists c :: c in w.clients && w.clients[c].rbc == Some(r) {
      assert ConsumerLinked(w, r, {}, {});
    }
    forall b, c | b in w.clients && c in w.clients && b != c
      ensures w.clients[b].poller != w.clients[c].poller && w.clients[b].rbc != w.clients[c].rbc
    {
      assert Linked(w, b, {}, {}) && Linked(w, c, {}, {});
    }
  }

  /**
   * No lost wake-up: every client with unread bytes is blocked with POLLOUT armed in its
   * slot, or has its flush timer set; an unblocked client has less than a packet unread;
   * and `blocked` is exactly POLLOUT in the slot's events.
   */
  lemma NoLostWakeup(w: World, c: nat)
    requires Tied(w, {}, {}) && Awake(w, {}) && c in w.clients
    ensures var k := w.clients[c];
            k.poller.Some? && k.rbc.Some? && k.rbc.value in w.consumers && k.poller.value in w.pollers
            && k.poller.value in w.watch
    ensures var k := w.clients[c];
            var unread := |w.stream| - w.consumers[k.rbc.value].at;
            && (k.blocked <==> HasOut(w.watch[k.poller.value].events))
            && (unread > 0 ==> HasOut(w.watch[k.poller.value].events) || w.pollers[k.poller.value].timeout.IsSet())
            && (!k.blocked ==> unread < PKT_SIZE)
  {
    assert Linked(w, c, {}, {});
    assert Settled(w, w.clients[c].rbc.value);
  }
}
