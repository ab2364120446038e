/**
 * console-server.c, the poller half of a console: registration over the shared slot
 * table, deferred removal, and the poll timeout.
 */
module Pollers {
  import opened Seqs
  import opened RingBuffers
  import opened Timevals
  import opened PollTables

  /** `hasTimeout` stands for a non-NULL timeout function. */
  datatype Poller = Poller(owner: Owner, hasTimeout: bool, timeout: Timeval, remove: bool, slot: nat)

  /** What the slot table watches on a poller's behalf. */
  datatype Watch = Watch(fd: int, events: int)

  /** From `watch0` to `watch` only poller `p`'s events have changed. */
  ghost predicate Rearmed(watch0: map<nat, Watch>, watch: map<nat, Watch>, p: nat) {
    && p in watch0 && p in watch
    && watch == watch0[p := watch0[p].(events := watch[p].events)]
  }

  /** Pollers of console `me` and the slots held in its name correspond one to one. */
  ghost predicate Holds(me: nat, heap: map<nat, Poller>, watch: map<nat, Watch>,
                        slots: seq<Slot>, holder: map<nat, Holder>) {
    && watch.Keys == heap.Keys
    && (forall p :: p in heap ==>
          && heap[p].slot in holder && holder[heap[p].slot] == PollerOf(me, p)
          && heap[p].slot < |slots|
          && watch[p] == Watch(slots[heap[p].slot].fd, slots[heap[p].slot].events))
    && (forall j :: j in holder && Mine(holder[j], me) ==>
          holder[j].poller in heap && heap[holder[j].poller].slot == j)
  }

  ghost predicate AllNormal(heap: map<nat, Poller>) {
    forall p :: p in heap ==> heap[p].timeout.Normal()
  }

  class PollerSet {
    const me: nat
    const table: PollTable
    /** The array of poller pointers, and the structures they point to. */
    var pollers: seq<nat>
    var heap: map<nat, Poller>
    var next: nat
    ghost var watch: map<nat, Watch>

    ghost predicate Valid()
      reads this, table
    {
      && table.Valid()
      && Listed(pollers, heap, next)
      && AllNormal(heap)
      && Holds(me, heap, watch, table.slots, table.holder)
    }

    constructor (me: nat, table: PollTable)
      requires table.Valid() && forall j :: j in table.holder ==> !Mine(table.holder[j], me)
      ensures Valid() && this.me == me && this.table == table
      ensures pollers == [] && heap == map[] && watch == map[]
    {
      this.me := me;
      this.table := table;
      pollers := [];
      heap := map[];
      next := 0;
      watch := map[];
    }

    lemma Quiet()
      requires Valid()
      ensures Untouched(table.slots, table.holder, table.slots, table.holder, me)
      ensures watch.Keys == heap.Keys
    {
      UntouchedRefl(table.slots, table.holder, me);
    }

    lemma NormalTimeout(p: nat)
      requires Valid() && p in heap
      ensures heap[p].timeout.Normal()
    {
    }

    /** console_poller_register. */
    method Register(owner: Owner, hasTimeout: bool, fd: int, events: int) returns (p: nat)
      requires Valid() && 0 <= fd
      modifies this, table
      ensures Valid()
      ensures p == old(next) < next && p !in old(heap)
      ensures pollers == old(pollers) + [p]
      ensures p in heap && heap == old(heap)[p := Poller(owner, hasTimeout, CLEARED, false, heap[p].slot)]
      ensures watch == old(watch)[p := Watch(fd, events)]
      ensures Untouched(old(table.slots), old(table.holder), table.slots, table.holder, me)
    {
      hide Backed, Listed, AllNormal, Holds, Untouched;
      p := next;
      var index := table.Request(fd, events, PollerOf(me, p));
      var x := Poller(owner, hasTimeout, CLEARED, false, index);
      ListedPush(pollers, heap, next, x);
      RequestHolds(me, heap, watch, old(table.slots), old(table.holder), table.slots, table.holder, p, x);
      NormalUpdate(heap, p, x);
      next := next + 1;
      pollers := pollers + [p];
      heap := heap[p := x];
      watch := watch[p := Watch(fd, events)];
    }

    /** console_poller_unregister: search, memmove, release of the slot, free. */
    method Unregister(p: nat) returns (ghost i: nat)
      requires Valid() && p in heap
      modifies this, table
      ensures Valid()
      ensures i < |old(pollers)| && old(pollers)[i] == p
      ensures pollers == RemoveAt(old(pollers), i)
      ensures heap == old(heap) - {p} && watch == old(watch) - {p} && next == old(next)
      ensures table.holder == old(table.holder) - {old(heap[p].slot)}
      ensures old(heap[p].slot) < |table.slots| && Reclaimable(table.slots[old(heap[p].slot)])
      ensures Untouched(old(table.slots), old(table.holder), table.slots, table.holder, me)
    {
      hide Backed, AllNormal, Untouched, Holds, Listed;
      IsListed(pollers, heap, next, p);
      var k := Find(pollers, p);
      var slot := heap[p].slot;
      i := k;
      ListedRemove(pollers, heap, next, k);
      ReleaseHolds(me, heap, watch, table.slots, table.holder, p);
      NormalRemove(heap, p);
      pollers := RemoveAt(pollers, k);
      var _ := table.Release(slot);
      heap := heap - {p};
      watch := watch - {p};
    }

    /** The unregister behind a NULL check. */
    method UnregisterIf(p: Option<nat>)
      requires Valid() && (p.Some? ==> p.value in heap)
      modifies this, table
      ensures Valid() && next == old(next)
      ensures heap == Freed(old(heap), p) && watch == Freed(old(watch), p)
      ensures p.None? ==> pollers == old(pollers)
      ensures Shifted(old(pollers), pollers)
      ensures Untouched(old(table.slots), old(table.holder), table.slots, table.holder, me)
    {
      hide Valid, Untouched, Reclaimable, Shifted;
      Quiet();
      ShiftedRefl(pollers);
      if p.Some? {
        ghost var i := Unregister(p.value);
        ShiftedRemove(old(pollers), i);
      }
    }

    /** console_poller_set_events. */
    method SetEvents(p: nat, events: int)
      requires Valid() && p in heap
      modifies `watch, table
      ensures Valid()
      ensures Rearmed(old(watch), watch, p) && watch[p].events == events
      ensures Untouched(old(table.slots), old(table.holder), table.slots, table.holder, me)
    {
      hide Backed, AllNormal, Listed, Untouched;
      Quiet();
      var slot := heap[p].slot;
      var s := table.slots[slot].(events := events);
      hide Holds;
      EventsHold(me, heap, watch, table.slots, table.holder, p, events);
      table.slots := table.slots[slot := s];
      watch := watch[p := watch[p].(events := events)];
    }

    /** console_poller_set_timeout. */
    method SetTimeout(p: nat, tv: Timeval) returns (ghost now: Timeval)
      requires Valid() && p in heap && tv.Normal()
      modifies `heap
      ensures Valid()
      ensures p in heap && heap == old(heap)[p := old(heap[p]).(timeout := heap[p].timeout)]
      ensures now.Normal() && heap[p].timeout.Us() == now.Us() + tv.Us()
    {
      hide Backed, AllNormal, Listed, Holds, Timeval.Before;
      var read := CurrentTime();
      now := read;
      Update(p, heap[p].(timeout := Add(read, tv)));
    }

    /** The scan inside the removal pass. */
    method FindFlagged() returns (i: int)
      requires Valid()
      ensures -1 <= i < |pollers|
      ensures i >= 0 ==> pollers[i] in heap && heap[pollers[i]].remove
      ensures i < 0 ==> forall p :: p in heap ==> !heap[p].remove
    {
      hide Backed, AllNormal, Holds;
      for k := 0 to |pollers|
        invariant forall j :: 0 <= j < k ==> !heap[pollers[j]].remove
      {
        if heap[pollers[k]].remove {
          return k;
        }
      }
      return -1;
    }

    /**
     * The removal pass of call_pollers: find a flagged poller, unregister it, start over.
     * What is left is the unflagged pollers in their order, and of this console's slots
     * exactly those of the flagged pollers have been given back.
     */
    method RemoveFlagged()
      requires Valid()
      modifies this, table
      ensures Valid() && next == old(next)
      ensures pollers == Kept(old(pollers), old(heap))
      ensures forall p :: p in heap <==> p in old(heap) && !old(heap)[p].remove
      ensures forall p :: p in heap ==> heap[p] == old(heap)[p] && watch[p] == old(watch)[p]
      ensures forall p :: p in old(heap) ==> (old(heap)[p].slot in table.holder <==> !old(heap)[p].remove)
      ensures Untouched(old(table.slots), old(table.holder), table.slots, table.holder, me)
    {
      hide Backed, AllNormal, Untouched, Holds, Listed;
      UntouchedRefl(table.slots, table.holder, me);
      while true
        invariant Valid() && next == old(next)
        invariant Kept(pollers, heap) == Kept(old(pollers), old(heap))
        invariant SubMap(heap, old(heap)) && SubMap(watch, old(watch))
        invariant forall p :: p in old(heap) && p !in heap ==> old(heap)[p].remove
        invariant Untouched(old(table.slots), old(table.holder), table.slots, table.holder, me)
        decreases |pollers|
      {
        var i := FindFlagged();
        if i < 0 {
          break;
        }
        SubMapDrop(heap, old(heap), pollers[i]);
        SubMapDrop(watch, old(watch), pollers[i]);
        ghost var slots, holder, cells, pointed := table.slots, table.holder, pollers, heap;
        ghost var k := Unregister(pollers[i]);
        KeptDrop(cells, pointed, next, k);
        UntouchedTrans(old(table.slots), old(table.holder), slots, holder, table.slots, table.holder, me);
      }
      KeptAll(pollers, heap, next);
      WatchesKeys(me, heap, watch, table.slots, table.holder);
      ReleasedExactly(me, old(heap), old(watch), old(table.slots), old(table.holder),
                      heap, watch, table.slots, table.holder);
    }

    /** get_poll_timeout: how long the poll may sleep, in milliseconds. */
    method PollTimeout(now: Timeval) returns (ms: int)
      requires Valid() && now.Normal()
      ensures ms >= -1
      ensures ms == -1 <==> forall p :: p in heap ==> !Armed(heap[p])
      ensures ms >= 0 ==> exists p :: p in heap && Armed(heap[p]) && Earliest(heap, heap[p].timeout)
                                      && ms == Max(0, heap[p].timeout.Us() - now.Us()) / 1000
    {
      hide Backed, Holds, Add, Sub, Timeval.Before, Timeval.Us, Timeval.IsSet, Listed, Earliest, Max;
      AllListed(pollers, heap, next);
      var earliest: Option<nat> := None;
      for i := 0 to |pollers|
        invariant earliest == None ==> forall j :: 0 <= j < i ==> !Armed(heap[pollers[j]])
        invariant earliest.Some? ==> earliest.value in heap && Armed(heap[earliest.value])
        invariant earliest.Some? ==> forall j :: 0 <= j < i && Armed(heap[pollers[j]]) ==>
                    heap[earliest.value].timeout.Us() <= heap[pollers[j]].timeout.Us()
      {
        var p := pollers[i];
        if earliest.Some? {
          BeforeIsEarlier(heap[p].timeout, heap[earliest.value].timeout);
        }
        if Armed(heap[p]) && (earliest.None? || heap[p].timeout.Before(heap[earliest.value].timeout)) {
          earliest := Some(p);
        }
      }
      if earliest.None? {
        return -1;
      }
      var deadline := heap[earliest.value].timeout;
      EarliestListed(pollers, heap, next, deadline);
      ms := Remaining(deadline, now);
    }

    /** A write to a poller structure that leaves its slot alone. */
    method Update(p: nat, x: Poller)
      requires Valid() && p in heap && x.slot == heap[p].slot && x.timeout.Normal()
      modifies `heap
      ensures Valid() && heap == old(heap)[p := x]
    {
      hide Backed, AllNormal, Listed, Holds;
      ListedUpdate(pollers, heap, next, p, x);
      UpdateHolds(me, heap, watch, table.slots, table.holder, p, x);
      NormalUpdate(heap, p, x);
      heap := heap[p := x];
    }
  }

  predicate Armed(p: Poller) { p.hasTimeout && p.timeout.IsSet() }

  function Max(a: int, b: int): int { if a < b then b else a }

  ghost predicate Earliest(heap: map<nat, Poller>, deadline: Timeval) {
    forall q :: q in heap && Armed(heap[q]) ==> deadline.Us() <= heap[q].timeout.Us()
  }

  /** The interval from `now` to the deadline, and 0 once it has passed. */
  function Remaining(deadline: Timeval, now: Timeval): (ms: int)
    requires deadline.Normal() && now.Normal()
    ensures 0 <= ms == Max(0, deadline.Us() - now.Us()) / 1000
  {
    if now.Before(deadline) then
      var interval := Sub(deadline, now);
      interval.sec * 1000 + interval.usec / 1000
    else 0
  }

  lemma EarliestListed(cells: seq<nat>, heap: map<nat, Poller>, next: nat, deadline: Timeval)
    requires Listed(cells, heap, next)
    requires forall j :: 0 <= j < |cells| && Armed(heap[cells[j]]) ==>
               deadline.Us() <= heap[cells[j]].timeout.Us()
    ensures Earliest(heap, deadline)
  {
  }

  /**
   * A poll of `ms` milliseconds wakes no later than any armed deadline, and less than a
   * millisecond before the earliest one.
   */
  lemma NeverOversleeps(heap: map<nat, Poller>, p: nat, now: Timeval, ms: int)
    requires p in heap && Armed(heap[p]) && Earliest(heap, heap[p].timeout)
    requires ms == Max(0, heap[p].timeout.Us() - now.Us()) / 1000
    ensures forall q :: q in heap && Armed(heap[q]) ==> ms * 1000 <= Max(0, heap[q].timeout.Us() - now.Us())
    ensures Max(0, heap[p].timeout.Us() - now.Us()) < ms * 1000 + 1000
  {
  }

  ghost predicate SubMap<T>(m: map<nat, T>, n: map<nat, T>) {
    forall p :: p in m ==> p in n && m[p] == n[p]
  }

  lemma SubMapDrop<T>(m: map<nat, T>, n: map<nat, T>, p: nat)
    requires SubMap(m, n)
    ensures SubMap(m - {p}, n)
  {
  }

  /** The array with the flagged pollers filtered out. */
  ghost function Kept(cells: seq<nat>, heap: map<nat, Poller>): seq<nat> {
    if cells == [] then []
    else (if cells[0] in heap && !heap[cells[0]].remove then [cells[0]] else []) + Kept(cells[1..], heap)
  }

  lemma {:induction false} KeptSame(cells: seq<nat>, heap: map<nat, Poller>, r: nat)
    requires r !in cells
    ensures Kept(cells, heap - {r}) == Kept(cells, heap)
  {
    if cells != [] {
      KeptSame(cells[1..], heap, r);
    }
  }

  lemma {:induction false} KeptRemoveAt(cells: seq<nat>, heap: map<nat, Poller>, i: nat)
    requires i < |cells| && Distinct(cells) && cells[i] in heap && heap[cells[i]].remove
    ensures Kept(RemoveAt(cells, i), heap - {cells[i]}) == Kept(cells, heap)
  {
    if i == 0 {
      assert RemoveAt(cells, 0) == cells[1..];
      KeptSame(cells[1..], heap, cells[0]);
    } else {
      KeptRemoveAt(cells[1..], heap, i - 1);
      assert RemoveAt(cells, i) == [cells[0]] + RemoveAt(cells[1..], i - 1);
    }
  }

  lemma KeptDrop(cells: seq<nat>, heap: map<nat, Poller>, next: nat, i: nat)
    requires Listed(cells, heap, next) && i < |cells| && cells[i] in heap && heap[cells[i]].remove
    ensures Kept(RemoveAt(cells, i), heap - {cells[i]}) == Kept(cells, heap)
  {
    KeptRemoveAt(cells, heap, i);
  }

  lemma {:induction false} KeptEvery(cells: seq<nat>, heap: map<nat, Poller>)
    requires forall x :: x in cells ==> x in heap && !heap[x].remove
    ensures Kept(cells, heap) == cells
  {
    if cells != [] {
      KeptEvery(cells[1..], heap);
    }
  }

  lemma KeptAll(cells: seq<nat>, heap: map<nat, Poller>, next: nat)
    requires Listed(cells, heap, next) && forall p :: p in heap ==> !heap[p].remove
    ensures Kept(cells, heap) == cells
  {
    KeptEvery(cells, heap);
  }

  lemma WatchesKeys(me: nat, heap: map<nat, Poller>, watch: map<nat, Watch>,
                    slots: seq<Slot>, holder: map<nat, Holder>)
    requires Holds(me, heap, watch, slots, holder)
    ensures watch.Keys == heap.Keys
  {
  }

  lemma ReleasedExactly(me: nat, heap0: map<nat, Poller>, watch0: map<nat, Watch>,
                        slots0: seq<Slot>, holder0: map<nat, Holder>,
                        heap: map<nat, Poller>, watch: map<nat, Watch>,
                        slots: seq<Slot>, holder: map<nat, Holder>)
    requires Holds(me, heap0, watch0, slots0, holder0) && Holds(me, heap, watch, slots, holder)
    requires Untouched(slots0, holder0, slots, holder, me) && SubMap(heap, heap0)
    requires forall p :: p in heap <==> p in heap0 && !heap0[p].remove
    ensures forall p :: p in heap0 ==> (heap0[p].slot in holder <==> !heap0[p].remove)
  {
  }

  lemma NormalUpdate(heap: map<nat, Poller>, p: nat, x: Poller)
    requires AllNormal(heap) && x.timeout.Normal()
    ensures AllNormal(heap[p := x])
  {
  }

  lemma NormalRemove(heap: map<nat, Poller>, p: nat)
    requires AllNormal(heap)
    ensures AllNormal(heap - {p})
  {
  }

  lemma RequestHolds(me: nat, heap: map<nat, Poller>, watch: map<nat, Watch>,
                     slots0: seq<Slot>, holder0: map<nat, Holder>,
                     slots: seq<Slot>, holder: map<nat, Holder>, p: nat, x: Poller)
    requires Backed(slots0, holder0) && Backed(slots, holder)
    requires Holds(me, heap, watch, slots0, holder0) && p !in heap
    requires x.slot !in holder0 && holder == holder0[x.slot := PollerOf(me, p)]
    requires |slots0| <= |slots| && x.slot < |slots|
    requires forall j :: 0 <= j < |slots0| && j != x.slot ==> slots[j] == slots0[j]
    ensures Holds(me, heap[p := x], watch[p := Watch(slots[x.slot].fd, slots[x.slot].events)], slots, holder)
    ensures Untouched(slots0, holder0, slots, holder, me)
  {
  }

  lemma ReleaseHolds(me: nat, heap: map<nat, Poller>, watch: map<nat, Watch>,
                     slots: seq<Slot>, holder: map<nat, Holder>, p: nat)
    requires Backed(slots, holder) && Holds(me, heap, watch, slots, holder) && p in heap
    ensures heap[p].slot < |slots|
    ensures Holds(me, heap - {p}, watch - {p}, slots[heap[p].slot := Slot(-1, 0, ALL_ONES)], holder - {heap[p].slot})
    ensures Untouched(slots, holder, slots[heap[p].slot := Slot(-1, 0, ALL_ONES)], holder - {heap[p].slot}, me)
  {
  }

  lemma EventsHold(me: nat, heap: map<nat, Poller>, watch: map<nat, Watch>,
                   slots: seq<Slot>, holder: map<nat, Holder>, p: nat, events: int)
    requires Backed(slots, holder) && Holds(me, heap, watch, slots, holder) && p in heap
    ensures heap[p].slot < |slots|
    ensures var after := slots[heap[p].slot := slots[heap[p].slot].(events := events)];
            && Backed(after, holder)
            && Holds(me, heap, watch[p := watch[p].(events := events)], after, holder)
            && Untouched(slots, holder, after, holder, me)
  {
  }

  lemma UpdateHolds(me: nat, heap: map<nat, Poller>, watch: map<nat, Watch>,
                    slots: seq<Slot>, holder: map<nat, Holder>, p: nat, x: Poller)
    requires Holds(me, heap, watch, slots, holder) && p in heap && x.slot == heap[p].slot
    ensures Holds(me, heap[p := x], watch, slots, holder)
  {
  }

  lemma PollHolds(me: nat, heap: map<nat, Poller>, watch: map<nat, Watch>,
                  slots0: seq<Slot>, slots: seq<Slot>, holder: map<nat, Holder>)
    requires Holds(me, heap, watch, slots0, holder) && Backed(slots0, holder) && SameWatch(slots0, slots)
    ensures Holds(me, heap, watch, slots, holder) && Backed(slots, holder)
  {
  }

  /** Work done for one console leaves every other console's pollers and slots as they were. */
  lemma OthersHold(me: nat, other: nat, heap: map<nat, Poller>, watch: map<nat, Watch>,
                   slots0: seq<Slot>, holder0: map<nat, Holder>, slots: seq<Slot>, holder: map<nat, Holder>)
    requires me != other && Holds(other, heap, watch, slots0, holder0)
    requires Untouched(slots0, holder0, slots, holder, me)
    ensures Holds(other, heap, watch, slots, holder)
  {
  }
}
