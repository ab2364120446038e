/** timeval arithmetic as <sys/time.h> defines it: two fields, carry and borrow by hand. */
module Timevals {
  datatype Timeval = Timeval(sec: int, usec: int) {
    predicate Normal() { 0 <= sec && 0 <= usec < 1_000_000 }

    /** timerisset */
    predicate IsSet() { sec != 0 || usec != 0 }

    /** timercmp(this, t, <) */
    predicate Before(t: Timeval) {
      if sec == t.sec then usec < t.usec else sec < t.sec
    }

    /** The instant, in microseconds. */
    function Us(): int { sec * 1_000_000 + usec }
  }

  const CLEARED := Timeval(0, 0)

  /** timeradd */
  function Add(a: Timeval, b: Timeval): (r: Timeval)
    requires a.Normal() && b.Normal()
    ensures r.Normal() && r.Us() == a.Us() + b.Us()
  {
    if a.usec + b.usec >= 1_000_000
    then Timeval(a.sec + b.sec + 1, a.usec + b.usec - 1_000_000)
    else Timeval(a.sec + b.sec, a.usec + b.usec)
  }

  /** timersub */
  function Sub(a: Timeval, b: Timeval): (r: Timeval)
    requires a.Normal() && b.Normal()
    ensures 0 <= r.usec < 1_000_000 && r.Us() == a.Us() - b.Us()
  {
    if a.usec - b.usec < 0
    then Timeval(a.sec - b.sec - 1, a.usec - b.usec + 1_000_000)
    else Timeval(a.sec - b.sec, a.usec - b.usec)
  }

  lemma BeforeIsEarlier(a: Timeval, b: Timeval)
    requires a.Normal() && b.Normal()
    ensures a.Before(b) <==> a.Us() < b.Us()
  {
  }

  /** get_current_time: any reading of the monotonic clock. */
  method CurrentTime() returns (now: Timeval)
    ensures now.Normal()
  {
    assert Timeval(0, 0).Normal();
    var t: Timeval :| t.Normal();
    now := t;
  }
}

/**
 * console-server.c, the table handed to poll(): released slots are marked and reused, so
 * a slot index is the only handle on a slot.
 */
module PollTables {
  const POLLIN := 1
  const POLLOUT := 4

  predicate HasIn(events: int) { events % 2 == 1 }

  predicate HasOut(events: int) { (events / 4) % 2 == 1 }

  /** The events a handler asks for: input always, output only while it is blocked. */
  function Interest(blocked: bool): (events: int)
    ensures HasIn(events) && (HasOut(events) <==> blocked)
  {
    if blocked then POLLIN + POLLOUT else POLLIN
  }

  datatype Slot = Slot(fd: int, events: int, revents: int)

  /** `~0` stored in the 16-bit revents field. */
  const ALL_ONES := -1

  predicate Reclaimable(s: Slot) {
    s.fd == -1 && s.events == 0 && s.revents == ALL_ONES
  }

  /** Who holds a slot: the upstream tty, the bus, or a poller of a console. */
  datatype Holder = UpstreamTty | Bus | PollerOf(console: nat, poller: nat)

  /** Every held slot exists and watches a real descriptor. */
  ghost predicate Backed(slots: seq<Slot>, holder: map<nat, Holder>) {
    forall j :: j in holder ==> j < |slots| && 0 <= slots[j].fd
  }

  /** Nothing but console `me`'s own pollers has gained, lost or seen a change in a slot. */
  ghost predicate Untouched(slots0: seq<Slot>, holder0: map<nat, Holder>,
                            slots: seq<Slot>, holder: map<nat, Holder>, me: nat) {
    && Backed(slots0, holder0) && Backed(slots, holder)
    && (forall j :: j in holder0 && !Mine(holder0[j], me) ==>
          j in holder && holder[j] == holder0[j] && slots[j] == slots0[j])
    && (forall j :: j in holder && !Mine(holder[j], me) ==> j in holder0 && holder0[j] == holder[j])
  }

  ghost predicate Mine(h: Holder, me: nat) { h.PollerOf? && h.console == me }

  /** Only revents have been rewritten. */
  ghost predicate SameWatch(slots0: seq<Slot>, slots: seq<Slot>) {
    |slots| == |slots0| &&
    forall j :: 0 <= j < |slots| ==> slots[j].fd == slots0[j].fd && slots[j].events == slots0[j].events
  }

  class PollTable {
    var slots: seq<Slot>
    ghost var holder: map<nat, Holder>

    ghost predicate Valid()
      reads this
    {
      Backed(slots, holder)
    }

    constructor ()
      ensures Valid() && slots == [] && holder == map[]
    {
      slots := [];
      holder := map[];
    }

    /** console_server_find_released_pollfd. */
    method FindReleased() returns (index: int)
      ensures -1 <= index < |slots|
      ensures index >= 0 ==> Reclaimable(slots[index])
      ensures forall j :: 0 <= j < (if index < 0 then |slots| else index) ==> !Reclaimable(slots[j])
    {
      for i := 0 to |slots|
        invariant forall j :: 0 <= j < i ==> !Reclaimable(slots[j])
      {
        if Reclaimable(slots[i]) {
          return i;
        }
      }
      return -1;
    }

    /** console_server_request_pollfd: reuse a released slot, or grow the table by one. */
    method Request(fd: int, events: int, ghost h: Holder) returns (index: nat)
      requires Valid() && 0 <= fd
      modifies this
      ensures Valid()
      ensures index !in old(holder) && holder == old(holder)[index := h]
      ensures index <= |old(slots)| && |slots| == (if index < |old(slots)| then |old(slots)| else index + 1)
      ensures index < |old(slots)| ==> Reclaimable(old(slots)[index])
      ensures forall j :: 0 <= j < index ==> !Reclaimable(old(slots)[j])
      ensures slots[index] == Slot(fd, events, 0)
      ensures forall j :: 0 <= j < |old(slots)| && j != index ==> slots[j] == old(slots)[j]
    {
      var i := FindReleased();
      if i < 0 {
        i := |slots|;
        slots := slots + [Slot(-1, 0, 0)];
      }
      index := i;
      slots := slots[index := Slot(fd, events, 0)];
      holder := holder[index := h];
    }

    /** console_server_release_pollfd: a checked index, then the mark Reclaimable looks for. */
    method Release(index: nat) returns (rc: int)
      requires Valid()
      modifies this
      ensures Valid()
      ensures rc == if index < |old(slots)| then 0 else -1
      ensures holder == old(holder) - {index}
      ensures slots == if index < |old(slots)| then old(slots)[index := Slot(-1, 0, ALL_ONES)] else old(slots)
    {
      holder := holder - {index};
      if index >= |slots| {
        return -1;
      }
      slots := slots[index := Slot(-1, 0, ALL_ONES)];
      return 0;
    }

    /**
     * poll(): rewrites revents only, and a negative descriptor reports nothing; one that fails,
     * as on EINTR, leaves the table alone.
     */
    method Poll() returns (ok: bool)
      requires Valid()
      modifies `slots
      ensures Valid() && SameWatch(old(slots), slots)
      ensures ok ==> forall j :: 0 <= j < |slots| && slots[j].fd < 0 ==> slots[j].revents == 0
      ensures !ok ==> slots == old(slots)
    {
      ok := *;
      if !ok {
        return;
      }
      var i := 0;
      while i < |slots|
        invariant 0 <= i <= |slots| && SameWatch(old(slots), slots)
        invariant forall j :: 0 <= j < i && slots[j].fd < 0 ==> slots[j].revents == 0
      {
        var r: nat := *;
        slots := slots[i := slots[i].(revents := if slots[i].fd < 0 then 0 else r)];
        i := i + 1;
      }
    }
  }

  lemma UntouchedRefl(slots: seq<Slot>, holder: map<nat, Holder>, me: nat)
    requires Backed(slots, holder)
    ensures Untouched(slots, holder, slots, holder, me)
  {
  }

  lemma UntouchedTrans(s0: seq<Slot>, h0: map<nat, Holder>, s1: seq<Slot>, h1: map<nat, Holder>,
                       s2: seq<Slot>, h2: map<nat, Holder>, me: nat)
    requires Untouched(s0, h0, s1, h1, me) && Untouched(s1, h1, s2, h2, me)
    ensures Untouched(s0, h0, s2, h2, me)
  {
  }
}
