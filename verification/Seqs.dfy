/** Small facts about sequences, used by every array of pointers in the server. */
module Seqs {

  datatype Option<+T> = None | Some(value: T)

  ghost predicate Distinct<T>(s: seq<T>) {
    forall i, j :: 0 <= i < j < |s| ==> s[i] != s[j]
  }

  /** What `memmove` over slot `i` leaves of an array. */
  function RemoveAt<T>(s: seq<T>, i: nat): (r: seq<T>)
    requires i < |s|
  {
    s[..i] + s[i + 1..]
  }

  /** `b` is `a` after some removals: everything has stayed or moved towards the front. */
  ghost predicate Shifted(a: seq<nat>, b: seq<nat>) {
    |b| <= |a| && forall k :: 0 <= k < |b| ==> b[k] in a[k..]
  }

  lemma ShiftedRefl(a: seq<nat>)
    ensures Shifted(a, a)
  {
    forall k | 0 <= k < |a| ensures a[k] in a[k..] {
      assert a[k..][0] == a[k];
    }
  }

  lemma ShiftedRemove(a: seq<nat>, i: nat)
    requires i < |a|
    ensures Shifted(a, RemoveAt(a, i))
  {
    var b := RemoveAt(a, i);
    forall k | 0 <= k < |b| ensures b[k] in a[k..] {
      assert b[k] == if k < i then a[k..][0] else a[k..][1];
    }
  }

  ghost function Elements(s: seq<nat>): set<nat> { set x | x in s }

  /** Taking cell `i` off the list of cells still to visit, or out of the array. */
  lemma ElementsStep(s: seq<nat>, i: nat)
    requires i < |s|
    ensures Elements(s[i..]) - {s[i]} <= Elements(s[i + 1..])
    ensures RemoveAt(s, i)[i..] == s[i + 1..]
  {
    assert s[i..] == [s[i]] + s[i + 1..];
  }

  lemma RemoveAtDistinct<T>(s: seq<T>, i: nat)
    requires i < |s| && Distinct(s)
    ensures Distinct(RemoveAt(s, i))
    ensures forall x :: x in RemoveAt(s, i) <==> x in s && x != s[i]
  {
    var r := RemoveAt(s, i);
    forall k | 0 <= k < |s| && k != i ensures s[k] in r {
      assert r[if k < i then k else k - 1] == s[k];
    }
  }

  /**
   * An array of pointers and the heap they point into: each live structure is listed
   * exactly once, and every address is below the allocator's next one.
   */
  ghost predicate Listed<T>(cells: seq<nat>, heap: map<nat, T>, next: nat) {
    && Distinct(cells)
    && (forall r :: r in cells <==> r in heap)
    && (forall r :: r in heap ==> r < next)
  }

  lemma ListedPush<T>(cells: seq<nat>, heap: map<nat, T>, next: nat, x: T)
    requires Listed(cells, heap, next)
    ensures next !in heap && Listed(cells + [next], heap[next := x], next + 1)
  {
    PushDistinct(cells, next);
  }

  lemma ListedRemove<T>(cells: seq<nat>, heap: map<nat, T>, next: nat, k: nat)
    requires Listed(cells, heap, next) && k < |cells|
    ensures Listed(RemoveAt(cells, k), heap - {cells[k]}, next)
  {
    RemoveAtDistinct(cells, k);
  }

  lemma ListedUpdate<T>(cells: seq<nat>, heap: map<nat, T>, next: nat, r: nat, x: T)
    requires Listed(cells, heap, next) && r in heap
    ensures Listed(cells, heap[r := x], next)
  {
  }

  lemma IsListed<T>(cells: seq<nat>, heap: map<nat, T>, next: nat, r: nat)
    requires Listed(cells, heap, next)
    ensures r in cells <==> r in heap
  {
  }

  lemma ListedOnce<T>(cells: seq<nat>, heap: map<nat, T>, next: nat, i: nat, k: nat)
    requires Listed(cells, heap, next) && i < |cells| && k < |cells| && cells[i] == cells[k]
    ensures i == k && cells[i] in heap && cells[i] !in cells[..i]
  {
    forall j | 0 <= j < i ensures cells[..i][j] != cells[i] {
      assert cells[j] != cells[i];
    }
  }

  /**
   * A walk that goes on from cell `k` to cell `k + 1` after cell `j` was taken out visits the
   * one that came next exactly when `j` was further on.
   */
  lemma RemovalSkips(cells: seq<nat>, j: nat, k: nat)
    requires Distinct(cells) && j < |cells| && k + 1 < |cells|
    ensures cells[k + 1] in RemoveAt(cells, j)[k + 1..] <==> k + 1 < j
  {
    var rest := RemoveAt(cells, j);
    if k + 1 < j {
      assert rest[k + 1..][0] == cells[k + 1];
    } else {
      forall m | k + 1 <= m < |rest| ensures rest[m] != cells[k + 1] {
        assert rest[m] == cells[m + 1];
      }
    }
  }

  lemma ShiftedTrans(a: seq<nat>, b: seq<nat>, c: seq<nat>)
    requires Shifted(a, b) && Shifted(b, c)
    ensures Shifted(a, c)
  {
    forall k | 0 <= k < |c| ensures c[k] in a[k..] {
      var j :| 0 <= j < |b[k..]| && b[k..][j] == c[k];
      var i :| 0 <= i < |a[k + j..]| && a[k + j..][i] == b[k + j];
      assert a[k..][j + i] == c[k];
    }
  }

  lemma AllListed<T>(cells: seq<nat>, heap: map<nat, T>, next: nat)
    requires Listed(cells, heap, next)
    ensures forall j :: 0 <= j < |cells| ==> cells[j] in heap
    ensures forall r :: r in heap ==> exists j :: 0 <= j < |cells| && cells[j] == r
  {
  }

  /** The heap after freeing what a possibly NULL pointer points to. */
  function Freed<T>(heap: map<nat, T>, pointer: Option<nat>): map<nat, T> {
    if pointer.Some? then heap - {pointer.value} else heap
  }

  lemma FreedUpdate<T>(heap: map<nat, T>, r: nat, x: T)
    ensures heap[r := x] - {r} == heap - {r}
  {
  }

  /** The linear search every unregister starts with. */
  method Find(s: seq<nat>, x: nat) returns (k: nat)
    requires x in s
    ensures k < |s| && s[k] == x
  {
    k := 0;
    while s[k] != x
      invariant k < |s| && x in s[k..]
      decreases |s| - k
    {
      k := k + 1;
    }
  }

  lemma PushDistinct<T>(s: seq<T>, x: T)
    requires Distinct(s) && x !in s
    ensures Distinct(s + [x])
    ensures forall y :: y in s + [x] <==> y in s || y == x
  {
  }
}

/** Bytes, and who a poller or a ring consumer works for. */
module Bytes {
  type byte = b: int | 0 <= b < 256

  /** Concatenation of a list of pieces. */
  function Join(pieces: seq<seq<byte>>): (r: seq<byte>) {
    if pieces == [] then [] else Join(pieces[..|pieces| - 1]) + pieces[|pieces| - 1]
  }

  lemma JoinPush(pieces: seq<seq<byte>>, last: seq<byte>)
    ensures Join(pieces + [last]) == Join(pieces) + last
  {
    assert (pieces + [last])[..|pieces|] == pieces;
  }

  ghost predicate EndsWith(s: seq<byte>, t: seq<byte>) {
    |t| <= |s| && s[|s| - |t|..] == t
  }

  lemma EndsWithNothing(s: seq<byte>)
    ensures EndsWith(s, [])
  {
  }

  lemma SuffixTrans(s: seq<byte>, t: seq<byte>, u: seq<byte>)
    requires EndsWith(s, t) && EndsWith(t, u)
    ensures EndsWith(s, u)
  {
    var m := |t| - |u|;
    assert s[|s| - |t|..][m..] == s[|s| - |u|..];
  }

  lemma SuffixNested(s: seq<byte>, t: seq<byte>, u: seq<byte>)
    requires EndsWith(s, t) && EndsWith(s, u) && |u| <= |t|
    ensures EndsWith(t, u)
  {
    var m := |t| - |u|;
    assert s[|s| - |t|..][m..] == s[|s| - |u|..];
  }

  lemma SuffixOfSum(s: seq<byte>, t: seq<byte>)
    ensures EndsWith(s + t, t)
  {
  }

  lemma EndsWithPush(s: seq<byte>, t: seq<byte>, piece: seq<byte>)
    requires EndsWith(s, t)
    ensures EndsWith(s + piece, t + piece)
  {
    assert (s + piece)[|s| - |t|..] == s[|s| - |t|..] + piece;
  }

  lemma Slices(s: seq<byte>, a: nat, b: nat, c: nat)
    requires a <= b <= c <= |s|
    ensures s[a..b] + s[b..c] == s[a..c] && s[b..][..c - b] == s[b..c]
  {
  }

  lemma Assoc(a: seq<byte>, b: seq<byte>, c: seq<byte>)
    ensures (a + b) + c == a + (b + c)
  {
  }

  /** `piece` is what the stream holds from offset `a` on. */
  ghost predicate IsPiece(stream: seq<byte>, a: nat, piece: seq<byte>) {
    a + |piece| <= |stream| && piece == stream[a..a + |piece|]
  }

  lemma PieceFront(stream: seq<byte>, a: nat, piece: seq<byte>, n: nat)
    requires IsPiece(stream, a, piece) && n <= |piece|
    ensures IsPiece(stream, a, piece[..n])
  {
  }

  /** The next `n` bytes of a stream, appended to what was taken from it so far. */
  lemma Extend(taken: seq<byte>, stream: seq<byte>, at: nat, mid: nat, piece: seq<byte>, n: nat)
    requires at <= mid && IsPiece(stream, mid, piece) && n <= |piece|
    ensures mid + |piece| <= |stream|
    ensures taken + stream[at..mid] + piece[..n] == taken + stream[at..mid + n]
    ensures n == |piece| ==> taken + stream[at..mid] + piece == taken + stream[at..mid + n]
  {
    assert piece[..|piece|] == piece;
  }
}

/** The arithmetic of the ring's positions. */
module Modular {

  /** `a` modulo `n`, by laps. */
  ghost function Wrap(a: nat, n: nat): (r: nat)
    requires 0 < n
    ensures r < n
  {
    if a < n then a else Wrap(a - n, n)
  }

  /** `Wrap` is the remainder operator of the source. */
  lemma {:induction false} IsRemainder(a: nat, n: nat)
    requires 0 < n
    ensures a % n == Wrap(a, n)
  {
    if a >= n {
      IsRemainder(a - n, n);
      var q := (a - n) / n;
      assert a == n * (q + 1) + (a - n) % n;
      Quotient(a, n, q + 1, (a - n) % n);
    }
  }

  lemma Quotient(a: nat, n: nat, q: nat, r: nat)
    requires r < n && a == n * q + r
    ensures a % n == r
  {
    var d := a / n - q;
    assert n * d == r - a % n;
    Scale(n, 1, d);
    Scale(n, d, -1);
  }

  lemma Scale(n: nat, x: int, y: int)
    ensures x <= y ==> n * x <= n * y
  {
  }

  /** A step of at most a lap either stays in the lap or wraps once. */
  lemma {:induction false} Step(a: nat, k: nat, n: nat)
    requires 0 < n && k <= n
    ensures Wrap(a + k, n) == if Wrap(a, n) + k < n then Wrap(a, n) + k else Wrap(a, n) + k - n
  {
    if a >= n {
      Step(a - n, k, n);
    }
  }

  lemma FirstLap(a: nat, n: nat)
    requires 0 < n && a <= n
    ensures Wrap(a, n) == if a < n then a else 0
  {
  }

  /** Stepping from the residue is stepping from the position. */
  lemma Advance(a: nat, k: nat, n: nat)
    requires 0 < n && k <= n
    ensures Wrap(Wrap(a, n) + k, n) == Wrap(a + k, n)
  {
    Step(a, k, n);
    Step(Wrap(a, n), k, n);
  }

  /** The remainder operator of the source. */
  function Remainder(a: nat, n: nat): (r: nat)
    requires 0 < n
    ensures r == Wrap(a, n)
  {
    IsRemainder(a, n);
    a % n
  }

  /** Two positions less than a lap apart: their residues give back the distance. */
  lemma {:induction false} Distance(a: nat, b: nat, n: nat)
    requires 0 < n && a <= b < a + n
    ensures Wrap(a, n) <= Wrap(b, n) ==> b - a == Wrap(b, n) - Wrap(a, n)
    ensures Wrap(a, n) > Wrap(b, n) ==> b - a == Wrap(b, n) + n - Wrap(a, n)
  {
    Step(a, b - a, n);
  }
}
