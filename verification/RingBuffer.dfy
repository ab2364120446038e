/**
 * ringbuffer.c: one writer, any number of readers, each with its own position in a
 * shared circular buffer.
 *
 * The specification is a plain stream: `stream` is every byte ever queued and a consumer
 * is a pair of offsets into it (`from`, where it registered, and `at`, how far it has
 * committed).  The buffer, the tail and the positions are only residues of that stream.
 */
module RingBuffers {
  import opened Bytes
  import opened Seqs
  import opened Modular

  /** The handler a poller or a ring consumer calls back (poll_data in the source). */
  datatype Owner = ForClient(id: nat) | ForTty | ForLog | ForTextLog | ForListener

  /**
   * `got` is what the consumer was handed and has committed, copied out of the buffer at
   * each commit.
   */
  datatype Consumer = Consumer(pos: nat, owner: Owner, ghost from: nat, ghost at: nat, ghost got: seq<byte>)

  ghost predicate Tracks(c: Consumer, size: nat, stream: seq<byte>)
    requires 0 < size
  {
    && c.from <= c.at <= |stream| < c.at + size
    && c.pos == Wrap(c.at, size)
    && c.got == stream[c.from..c.at]
  }

  ghost predicate AllTrack(heap: map<nat, Consumer>, size: nat, stream: seq<byte>)
    requires 0 < size
  {
    forall r :: r in heap ==> Tracks(heap[r], size, stream)
  }

  /** The buffer holds the last |buf| bytes of the stream, each at its residue. */
  ghost predicate Window(buf: seq<byte>, stream: seq<byte>)
    requires 0 < |buf|
  {
    forall j {:trigger stream[j]} ::
      0 <= j < |stream| && |stream| <= j + |buf| ==> buf[Wrap(j, |buf|)] == stream[j]
  }

  /** From `heap0` to `heap` only consumer `r` has moved, and only forward. */
  ghost predicate Consumed(heap0: map<nat, Consumer>, heap: map<nat, Consumer>, r: nat) {
    && heap.Keys == heap0.Keys && r in heap
    && (forall q :: q in heap && q != r ==> heap[q] == heap0[q])
    && heap[r].owner == heap0[r].owner && heap[r].from == heap0[r].from
    && heap0[r].at <= heap[r].at
  }

  lemma ConsumedRefl(heap: map<nat, Consumer>, r: nat)
    requires r in heap
    ensures Consumed(heap, heap, r)
  {
  }

  lemma ConsumedAway(heap0: map<nat, Consumer>, heap: map<nat, Consumer>, r: nat)
    requires Consumed(heap0, heap, r)
    ensures heap - {r} == heap0 - {r}
  {
  }

  /** Each of `cells` leaves room for `len` more bytes. */
  ghost predicate Room(cells: seq<nat>, heap: map<nat, Consumer>, n: nat, size: nat, len: nat) {
    forall r :: r in cells ==> r in heap && n - heap[r].at + len < size
  }

  lemma RoomNone(cells: seq<nat>, heap: map<nat, Consumer>, n: nat, size: nat, len: nat)
    ensures Room(cells[..0], heap, n, size, len) && Survivors(heap, heap)
  {
  }

  lemma RoomAt(cells: seq<nat>, i: nat, heap: map<nat, Consumer>, n: nat, size: nat, len: nat)
    requires Room(cells, heap, n, size, len) && i < |cells|
    ensures cells[i] in heap && n - heap[cells[i]].at + len < size
  {
  }

  lemma RoomMoved(cells: seq<nat>, heap0: map<nat, Consumer>, heap: map<nat, Consumer>, r: nat,
                  n: nat, size: nat, len: nat)
    requires Room(cells, heap0, n, size, len) && Consumed(heap0, heap, r)
    ensures Room(cells, heap, n, size, len)
  {
  }

  lemma RoomPush(cells: seq<nat>, i: nat, heap: map<nat, Consumer>, n: nat, size: nat, len: nat)
    requires i < |cells| && Room(cells[..i], heap, n, size, len)
    requires cells[i] in heap && n - heap[cells[i]].at + len < size
    ensures Room(cells[..i + 1], heap, n, size, len)
  {
    assert cells[..i + 1] == cells[..i] + [cells[i]];
  }

  lemma RoomDrop(cells: seq<nat>, i: nat, heap: map<nat, Consumer>, n: nat, size: nat, len: nat)
    requires i < |cells| && cells[i] !in cells[..i] && Room(cells[..i], heap, n, size, len)
    ensures Room(RemoveAt(cells, i)[..i], heap - {cells[i]}, n, size, len)
  {
    assert RemoveAt(cells, i)[..i] == cells[..i];
  }

  lemma RoomAll(cells: seq<nat>, heap: map<nat, Consumer>, next: nat, n: nat, size: nat, len: nat)
    requires Listed(cells, heap, next) && Room(cells, heap, n, size, len)
    ensures forall r :: r in heap ==> n - heap[r].at + len < size
  {
  }

  lemma SurvivorsTrans(heap0: map<nat, Consumer>, heap1: map<nat, Consumer>, heap: map<nat, Consumer>)
    requires Survivors(heap0, heap1) && Survivors(heap1, heap)
    ensures Survivors(heap0, heap)
  {
  }

  /** Consumers may have gone or moved forward since `heap0`; those left are the same readers. */
  ghost predicate Survivors(heap0: map<nat, Consumer>, heap: map<nat, Consumer>) {
    forall r :: r in heap ==>
      r in heap0 && heap[r].owner == heap0[r].owner && heap[r].from == heap0[r].from && heap0[r].at <= heap[r].at
  }

  lemma SurvivorsMoved(heap0: map<nat, Consumer>, heap1: map<nat, Consumer>, heap: map<nat, Consumer>, r: nat)
    requires Survivors(heap0, heap1) && Consumed(heap1, heap, r)
    ensures Survivors(heap0, heap) && Survivors(heap0, heap - {r})
  {
  }

  class RingBuffer {
    const size: nat
    const buf: array<byte>
    var tail: nat
    /** The array of consumer pointers, and the structures they point to. */
    var consumers: seq<nat>
    var heap: map<nat, Consumer>
    /** The allocator: the next unused address. */
    var next: nat
    ghost var stream: seq<byte>

    ghost predicate Valid()
      reads this, buf
    {
      && 0 < size == buf.Length
      && tail == Wrap(|stream|, size)
      && Listed(consumers, heap, next)
      && AllTrack(heap, size, stream)
      && Window(buf[..], stream)
    }

    /** Bytes queued and not yet committed by `r`, in terms of the stream. */
    ghost function Unread(r: nat): int
      requires r in heap
      reads this
    {
      |stream| - heap[r].at
    }

    /** ringbuffer_len. */
    function Len(r: nat): (n: nat)
      requires Valid() && r in heap
      reads this, buf
      ensures n == Unread(r) < size
    {
      hide Window, Listed;
      Distance(heap[r].at, |stream|, size);
      if heap[r].pos <= tail then tail - heap[r].pos else tail + size - heap[r].pos
    }

    /** ringbuffer_space. */
    function Space(r: nat): (n: nat)
      requires Valid() && r in heap
      reads this, buf
      ensures n + Unread(r) == size - 1
    {
      hide Window, Listed, AllTrack;
      size - Len(r) - 1
    }

    /** The unread bytes as they lie in the buffer, walked circularly from `pos`. */
    ghost function View(r: nat): seq<byte>
      requires Valid() && r in heap
      reads this, buf
    {
      Circular(buf[..], heap[r].pos, Len(r))
    }

    constructor (size: nat)
      requires 0 < size
      ensures Valid() && fresh(buf) && this.size == size
      ensures stream == [] && consumers == [] && heap == map[]
    {
      this.size := size;
      buf := new byte[size];
      tail := 0;
      consumers := [];
      heap := map[];
      next := 0;
      stream := [];
    }

    /** ringbuffer_consumer_register. */
    method Register(owner: Owner) returns (r: nat)
      requires Valid()
      modifies `consumers, `heap, `next
      ensures Valid()
      ensures r == old(next) < next && r !in old(heap)
      ensures consumers == old(consumers) + [r]
      ensures heap == old(heap)[r := Consumer(tail, owner, |stream|, |stream|, [])]
    {
      hide Window, Listed, AllTrack;
      r := next;
      var c := Consumer(tail, owner, |stream|, |stream|, []);
      ListedPush(consumers, heap, next, c);
      RegisterTracks(heap, size, stream, r, c);
      next := next + 1;
      consumers := consumers + [r];
      heap := heap[r := c];
    }

    /** ringbuffer_consumer_unregister: the search, the memmove and the free. */
    method Unregister(r: nat) returns (ghost i: nat)
      requires Valid() && r in heap
      modifies `consumers, `heap
      ensures Valid()
      ensures i < |old(consumers)| && old(consumers)[i] == r
      ensures consumers == RemoveAt(old(consumers), i)
      ensures heap == old(heap) - {r}
    {
      hide Window, AllTrack;
      var k := Find(consumers, r);
      hide Listed;
      i := k;
      ListedRemove(consumers, heap, next, k);
      UnregisterTracks(heap, size, stream, r);
      consumers := RemoveAt(consumers, k);
      heap := heap - {r};
    }

    /** The unregister behind a NULL check. */
    method UnregisterIf(r: Option<nat>)
      requires Valid() && (r.Some? ==> r.value in heap)
      modifies `consumers, `heap
      ensures Valid() && heap == Freed(old(heap), r)
      ensures r.None? ==> consumers == old(consumers)
    {
      if r.Some? {
        var _ := Unregister(r.value);
      }
    }

    /**
     * ringbuffer_dequeue_peek: the longest contiguous piece of the unread bytes from
     * `offset` on.  It stops at the end of the stream or at the end of the buffer.
     */
    method Peek(r: nat, offset: nat) returns (data: seq<byte>)
      requires Valid() && r in heap
      ensures |data| == 0 <==> offset >= Unread(r)
      ensures data != [] ==> offset + |data| <= Unread(r)
      ensures data != [] ==> IsPiece(stream, heap[r].at + offset, data)
      ensures data != [] ==> offset + |data| == Unread(r) || Wrap(heap[r].at + offset + |data|, size) == 0
    {
      hide Window, Listed, AllTrack, Remainder, Wrap, IsPiece;
      TrackOf(heap, size, stream, r);
      if offset >= Len(r) {
        return [];
      }
      var pos := Remainder(heap[r].pos + offset, size);
      Advance(heap[r].at, offset, size);
      ghost var a := heap[r].at + offset;
      var len := if pos <= tail then tail - pos else size - pos;
      PieceLength(a, |stream|, size);
      PieceOfWindow(buf[..], stream, a, len);
      data := buf[pos..pos + len];
      assert data == buf[..][pos..pos + len];
    }

    /** ringbuffer_dequeue_commit. */
    method Commit(r: nat, len: nat)
      requires Valid() && r in heap && len <= Unread(r)
      modifies `heap
      ensures Valid()
      ensures Consumed(old(heap), heap, r) && heap[r].at == old(heap[r].at) + len
      ensures heap[r].got == old(heap[r].got) + old(View(r)[..len])
      ensures heap[r].at <= |stream| && heap[r].got == old(heap[r].got) + stream[old(heap[r].at)..heap[r].at]
    {
      hide Window, Listed, AllTrack, Remainder, Wrap;
      ViewIsPending(r);
      TrackOf(heap, size, stream, r);
      Advance(heap[r].at, len, size);
      ghost var part := View(r)[..len];
      var c := heap[r].(pos := Remainder(heap[r].pos + len, size),
                        at := heap[r].at + len, got := heap[r].got + part);
      CommitTracks(heap, size, stream, r, len, c);
      ListedUpdate(consumers, heap, next, r, c);
      heap := heap[r := c];
    }

    /**
     * The write in the middle of ringbuffer_queue: up to the end of the buffer, then from
     * its start.  It needs the space the forced drains before it have made.
     */
    method Append(data: seq<byte>)
      requires Valid() && |data| < size
      requires forall r :: r in heap ==> Unread(r) + |data| < size
      modifies `tail, `stream, buf
      ensures Valid()
      ensures stream == old(stream) + data
    {
      hide Window, Listed, AllTrack, Remainder, Wrap;
      ghost var before := buf[..];
      var len := |data|;
      var start := tail;
      var wlen := if len < size - start then len else size - start;
      forall k | 0 <= k < wlen { buf[start + k] := data[k]; }
      tail := Remainder(tail + wlen, size);
      var rest := len - wlen;
      forall k | 0 <= k < rest { buf[k] := data[wlen + k]; }
      tail := tail + rest;
      WindowMoves(before, buf[..], stream, data);
      Step(|stream|, len, size);
      FirstLap(start + wlen, size);
      AppendTracks(heap, size, stream, data);
      stream := stream + data;
    }

    lemma Lists()
      requires Valid()
      ensures Listed(consumers, heap, next)
    {
    }

    /** The bounds a consumer's offsets keep. */
    lemma Bounds(r: nat)
      requires Valid() && r in heap
      ensures heap[r].from <= heap[r].at <= |stream| < heap[r].at + size
      ensures heap[r].got == stream[heap[r].from..heap[r].at]
    {
      TrackOf(heap, size, stream, r);
    }

    /** The circular view is the pending part of the stream, and completes what was committed. */
    lemma ViewIsPending(r: nat)
      requires Valid() && r in heap
      ensures View(r) == stream[heap[r].at..]
      ensures heap[r].got + View(r) == stream[heap[r].from..]
    {
      hide Listed;
      CircularWindow(buf[..], stream, heap[r].at);
      hide Window;
      assert stream[heap[r].from..] == stream[heap[r].from..heap[r].at] + stream[heap[r].at..];
    }
  }

  ghost function Circular(buf: seq<byte>, pos: nat, len: nat): (s: seq<byte>)
    requires 0 < |buf|
    ensures |s| == len
  {
    seq(len, k requires 0 <= k < len => buf[Wrap(pos + k, |buf|)])
  }

  lemma RegisterTracks(heap: map<nat, Consumer>, size: nat, stream: seq<byte>, r: nat, c: Consumer)
    requires 0 < size && AllTrack(heap, size, stream) && Tracks(c, size, stream)
    ensures AllTrack(heap[r := c], size, stream)
  {
  }

  lemma UnregisterTracks(heap: map<nat, Consumer>, size: nat, stream: seq<byte>, r: nat)
    requires 0 < size && AllTrack(heap, size, stream)
    ensures AllTrack(heap - {r}, size, stream)
  {
  }

  lemma CommitTracks(heap: map<nat, Consumer>, size: nat, stream: seq<byte>, r: nat, len: nat, c: Consumer)
    requires 0 < size && AllTrack(heap, size, stream) && r in heap && heap[r].at + len <= |stream|
    requires c.from == heap[r].from && c.at == heap[r].at + len && c.pos == Wrap(c.at, size)
    requires c.got == heap[r].got + stream[heap[r].at..][..len]
    ensures AllTrack(heap[r := c], size, stream)
  {
    var b := heap[r];
    assert Tracks(b, size, stream);
    Slices(stream, b.from, b.at, c.at);
  }

  lemma AppendTracks(heap: map<nat, Consumer>, size: nat, stream: seq<byte>, data: seq<byte>)
    requires 0 < size && AllTrack(heap, size, stream)
    requires forall r :: r in heap ==> |stream| + |data| < heap[r].at + size
    ensures AllTrack(heap, size, stream + data)
  {
    forall r | r in heap ensures Tracks(heap[r], size, stream + data) {
      assert (stream + data)[heap[r].from..heap[r].at] == stream[heap[r].from..heap[r].at];
    }
  }

  lemma TrackOf(heap: map<nat, Consumer>, size: nat, stream: seq<byte>, r: nat)
    requires 0 < size && AllTrack(heap, size, stream) && r in heap
    ensures Tracks(heap[r], size, stream)
  {
  }

  /** A piece from `a` runs to the end of the stream or to the end of the buffer. */
  lemma PieceLength(a: nat, n: nat, size: nat)
    requires 0 < size && a < n < a + size
    ensures Wrap(a, size) != Wrap(n, size)
    ensures Wrap(a, size) < Wrap(n, size) ==> Wrap(n, size) - Wrap(a, size) == n - a
    ensures Wrap(a, size) > Wrap(n, size) ==>
              0 < size - Wrap(a, size) <= n - a && Wrap(a + (size - Wrap(a, size)), size) == 0
  {
    Distance(a, n, size);
    Step(a, size - Wrap(a, size), size);
  }

  lemma CircularWindow(buf: seq<byte>, stream: seq<byte>, a: nat)
    requires 0 < |buf| && Window(buf, stream) && a <= |stream| < a + |buf|
    ensures Circular(buf, Wrap(a, |buf|), |stream| - a) == stream[a..]
  {
    forall k | 0 <= k < |stream| - a
      ensures Circular(buf, Wrap(a, |buf|), |stream| - a)[k] == stream[a..][k]
    {
      Step(a, k, |buf|);
      Advance(a, k, |buf|);
      assert stream[a..][k] == stream[a + k];
    }
  }

  /** A piece that does not cross the end of the buffer is read as it stands. */
  lemma PieceOfWindow(buf: seq<byte>, stream: seq<byte>, a: nat, len: nat)
    requires 0 < |buf| && Window(buf, stream)
    requires |stream| <= a + |buf| && a + len <= |stream| && Wrap(a, |buf|) + len <= |buf|
    ensures IsPiece(stream, a, buf[Wrap(a, |buf|)..Wrap(a, |buf|) + len])
  {
    var p := Wrap(a, |buf|);
    var piece, part := buf[p..p + len], stream[a..a + len];
    forall k | 0 <= k < len ensures piece[k] == part[k] {
      Step(a, k, |buf|);
      assert part[k] == stream[a + k];
    }
  }

  /** A byte just written is found at its residue. */
  lemma NewByte(before: seq<byte>, stream: seq<byte>, data: seq<byte>, j: nat)
    requires 0 < |before| && |data| < |before| && |stream| <= j < |stream| + |data|
    ensures Written(before, Wrap(|stream|, |before|), data, Wrap(j, |before|)) == data[j - |stream|]
  {
    hide Wrap;
    Step(|stream|, j - |stream|, |before|);
  }

  /** A byte still in the window was not overwritten. */
  lemma OldByte(before: seq<byte>, stream: seq<byte>, data: seq<byte>, j: nat)
    requires 0 < |before| && |data| < |before| && j < |stream| && |stream| + |data| <= j + |before|
    ensures Written(before, Wrap(|stream|, |before|), data, Wrap(j, |before|)) == before[Wrap(j, |before|)]
  {
    hide Wrap;
    if |stream| < j + |before| {
      Distance(j, |stream|, |before|);
    }
  }

  lemma WindowMoves(before: seq<byte>, after: seq<byte>, stream: seq<byte>, data: seq<byte>)
    requires 0 < |before| == |after| && |data| < |before| && Window(before, stream)
    requires forall p :: 0 <= p < |after| ==> after[p] == Written(before, Wrap(|stream|, |before|), data, p)
    ensures Window(after, stream + data)
  {
    hide Written, Wrap;
    var n := |before|;
    var both := stream + data;
    forall j | 0 <= j < |both| && |both| <= j + n ensures after[Wrap(j, n)] == both[j] {
      if j >= |stream| {
        NewByte(before, stream, data, j);
      } else {
        assert before[Wrap(j, n)] == stream[j];
        OldByte(before, stream, data, j);
      }
    }
  }

  /** What the two copies leave at buffer index `p`. */
  ghost function Written(before: seq<byte>, tail: nat, data: seq<byte>, p: nat): byte
    requires p < |before| && tail < |before| && |data| < |before|
  {
    if tail <= p < tail + |data| then data[p - tail]
    else if p + |before| < tail + |data| then data[p + |before| - tail]
    else before[p]
  }
}
