/** log-handler.c and rotate_single_file: a size-bounded log with one rotated predecessor. */
module LogFiles {
  import opened Bytes

  /** What is on disk under the two names. */
  datatype Files = Files(rotated: seq<byte>, current: seq<byte>)

  /** The last `n` bytes, or all of them. */
  function Tail(s: seq<byte>, n: nat): (t: seq<byte>)
    ensures |t| == if |s| > n then n else |s|
  {
    if |s| > n then s[|s| - n..] else s
  }

  /** rename() may fail; the new file is truncated all the same. */
  function Rotate(f: Files, renamed: bool): Files {
    Files(if renamed then f.current else f.rotated, [])
  }

  predicate Overflows(f: Files, max: nat, piece: seq<byte>) {
    |f.current| + |Tail(piece, max)| > max
  }

  /** log_data, when its writes go through. */
  function Put(f: Files, max: nat, piece: seq<byte>, renamed: bool): Files {
    var g := if Overflows(f, max, piece) then Rotate(f, renamed) else f;
    g.(current := g.current + Tail(piece, max))
  }

  /** log_create: what the handler starts from, given what it finds in the log file. */
  function Create(f: Files, max: nat, renamed: bool): Files {
    if |f.current| >= max then Rotate(f, renamed) else f
  }

  /** The size bound, and the current file is always the end of what was logged. */
  ghost predicate Sound(f: Files, logged: seq<byte>, max: nat) {
    |f.current| <= max && EndsWith(logged, f.current)
  }

  /** The two files together still end with the last min(total, max) bytes logged. */
  ghost predicate Retains(f: Files, logged: seq<byte>, max: nat) {
    EndsWith(f.rotated + f.current, Tail(logged, max))
  }

  /** Why they do: the current file alone reaches back far enough, or the pair is unbroken and does. */
  ghost predicate Intact(f: Files, logged: seq<byte>, max: nat) {
    || |f.current| >= |Tail(logged, max)|
    || (EndsWith(logged, f.rotated + f.current) && |f.rotated + f.current| >= max)
  }

  lemma IntactRetains(f: Files, logged: seq<byte>, max: nat)
    requires Sound(f, logged, max) && Intact(f, logged, max)
    ensures Retains(f, logged, max)
  {
    var both, t := f.rotated + f.current, Tail(logged, max);
    assert EndsWith(logged, t);
    hide EndsWith;
    if |f.current| >= |t| {
      SuffixNested(logged, f.current, t);
      SuffixOfSum(f.rotated, f.current);
      SuffixTrans(both, f.current, t);
    } else {
      SuffixNested(logged, both, t);
    }
  }

  lemma TailOfLong(logged: seq<byte>, piece: seq<byte>, max: nat)
    requires |piece| >= max
    ensures Tail(logged + piece, max) == Tail(piece, max)
  {
  }

  lemma PutSound(f: Files, logged: seq<byte>, max: nat, piece: seq<byte>, renamed: bool)
    requires Sound(f, logged, max)
    ensures Sound(Put(f, max, piece, renamed), logged + piece, max)
  {
    if |piece| > max {
      assert EndsWith(logged + piece, Tail(piece, max));
    } else if Overflows(f, max, piece) {
      assert EndsWith(logged + piece, piece);
    } else {
      EndsWithPush(logged, f.current, piece);
    }
  }

  /** A piece that does not rotate leaves the pair as far-reaching as it was. */
  lemma PutStays(f: Files, logged: seq<byte>, max: nat, piece: seq<byte>)
    requires Sound(f, logged, max) && Intact(f, logged, max) && |f.current| + |piece| <= max
    ensures Intact(f.(current := f.current + piece), logged + piece, max)
  {
    hide EndsWith;
    if |f.current| < |Tail(logged, max)| {
      EndsWithPush(logged, f.rotated + f.current, piece);
      Assoc(f.rotated, f.current, piece);
    }
  }

  /** A piece that rotates leaves the old file and itself, which reach far enough. */
  lemma PutTurns(f: Files, logged: seq<byte>, max: nat, piece: seq<byte>)
    requires Sound(f, logged, max) && |piece| <= max < |f.current| + |piece|
    ensures Intact(Files(f.current, piece), logged + piece, max)
  {
    hide EndsWith;
    EndsWithPush(logged, f.current, piece);
  }

  /**
   * Retention survives every piece, of any length, unless a rename fails; and the first
   * rotation whose rename succeeds restores it.
   */
  lemma PutIntact(f: Files, logged: seq<byte>, max: nat, piece: seq<byte>, renamed: bool)
    requires Sound(f, logged, max)
    requires if Overflows(f, max, piece) then renamed else Intact(f, logged, max)
    ensures Intact(Put(f, max, piece, renamed), logged + piece, max)
  {
    TailOfShort(piece, max);
    if |piece| > max {
      TailOfLong(logged, piece, max);
    }
    hide EndsWith, Tail, Intact;
    if |piece| > max {
      TailReaches(f, logged + piece, max, piece, renamed);
    } else if Overflows(f, max, piece) {
      PutTurns(f, logged, max, piece);
      assert [] + piece == piece;
    } else {
      PutStays(f, logged, max, piece);
    }
  }

  lemma TailOfShort(piece: seq<byte>, max: nat)
    ensures |piece| <= max ==> Tail(piece, max) == piece
  {
  }

  /** A piece longer than the log fills the file by itself. */
  lemma TailReaches(f: Files, logged: seq<byte>, max: nat, piece: seq<byte>, renamed: bool)
    requires |piece| > max && Tail(logged, max) == Tail(piece, max)
    ensures Intact(Put(f, max, piece, renamed), logged, max)
  {
    hide EndsWith;
  }

  lemma CreateIntact(f: Files, max: nat, renamed: bool)
    ensures Sound(Create(f, max, renamed), f.current, max)
    ensures renamed || |f.current| < max ==> Intact(Create(f, max, renamed), f.current, max)
  {
    assert f.current + [] == f.current;
    SuffixOfSum([], f.current);
    assert [] + f.current == f.current;
    SuffixOfSum(f.current, []);
  }

  // ---- whole runs -------------------------------------------------------------------

  /** The kernel's answer to rename number `k`; those past the end of the list succeed. */
  predicate Renames(answers: seq<bool>, k: nat) { k < |answers| ==> answers[k] }

  /** The files, and how many rotations they have been through. */
  datatype Log = Log(files: Files, rotations: nat)

  function PutLog(l: Log, max: nat, piece: seq<byte>, answers: seq<bool>): Log {
    Log(Put(l.files, max, piece, Renames(answers, l.rotations)),
        l.rotations + if Overflows(l.files, max, piece) then 1 else 0)
  }

  function CreateLog(found: Files, max: nat, answers: seq<bool>): Log {
    Log(Create(found, max, Renames(answers, 0)), if |found.current| >= max then 1 else 0)
  }

  /** A run of log_data over any pieces, on whatever the log file held at startup. */
  function PutAll(found: Files, max: nat, pieces: seq<seq<byte>>, answers: seq<bool>): Log {
    if pieces == [] then CreateLog(found, max, answers)
    else PutLog(PutAll(found, max, pieces[..|pieces| - 1], answers), max, pieces[|pieces| - 1], answers)
  }

  lemma PutAllPush(found: Files, max: nat, pieces: seq<seq<byte>>, piece: seq<byte>, answers: seq<bool>)
    ensures PutAll(found, max, pieces + [piece], answers)
              == PutLog(PutAll(found, max, pieces, answers), max, piece, answers)
  {
    assert (pieces + [piece])[..|pieces|] == pieces;
  }

  /** The last rename succeeded, or there was none. */
  predicate LastRenamed(l: Log, answers: seq<bool>) {
    l.rotations == 0 || Renames(answers, l.rotations - 1)
  }

  /** Log retention over whole runs, from whatever the log file held at startup. */
  lemma Retention(found: Files, max: nat, pieces: seq<seq<byte>>, answers: seq<bool>)
    ensures var l := PutAll(found, max, pieces, answers);
            var logged := found.current + Join(pieces);
            && Sound(l.files, logged, max)
            && (LastRenamed(l, answers) ==> Retains(l.files, logged, max))
            && (false !in answers ==> LastRenamed(l, answers))
  {
    hide Sound, Intact, Retains, PutAll;
    RunIntact(found, max, pieces, answers);
    var l := PutAll(found, max, pieces, answers);
    if LastRenamed(l, answers) {
      IntactRetains(l.files, found.current + Join(pieces), max);
    }
  }

  lemma {:induction false} RunIntact(found: Files, max: nat, pieces: seq<seq<byte>>, answers: seq<bool>)
    ensures var l := PutAll(found, max, pieces, answers);
            var logged := found.current + Join(pieces);
            Sound(l.files, logged, max) && (LastRenamed(l, answers) ==> Intact(l.files, logged, max))
  {
    hide Sound, Intact, Put, Create;
    if pieces == [] {
      CreateIntact(found, max, Renames(answers, 0));
      assert found.current + Join([]) == found.current;
    } else {
      var front, last := pieces[..|pieces| - 1], pieces[|pieces| - 1];
      RunIntact(found, max, front, answers);
      var l, before := PutAll(found, max, front, answers), found.current + Join(front);
      PutSound(l.files, before, max, last, Renames(answers, l.rotations));
      if LastRenamed(PutLog(l, max, last, answers), answers) {
        PutIntact(l.files, before, max, last, Renames(answers, l.rotations));
      }
      Assoc(found.current, Join(front), last);
    }
  }

  // ---- failed renames ---------------------------------------------------------------

  lemma TailOfSum(logged: seq<byte>, piece: seq<byte>, max: nat)
    requires |piece| <= max
    ensures Tail(logged + piece, max) == Tail(logged, max - |piece|) + piece
  {
  }

  lemma CommonSuffix(s: seq<byte>, t: seq<byte>, piece: seq<byte>)
    ensures EndsWith(s + piece, t + piece) <==> EndsWith(s, t)
  {
    if |t| <= |s| {
      assert (s + piece)[|s| - |t|..] == s[|s| - |t|..] + piece;
      assert (s[|s| - |t|..] + piece)[..|t|] == s[|s| - |t|..] && (t + piece)[..|t|] == t;
    }
  }

  lemma TailOfSuffix(s: seq<byte>, t: seq<byte>, n: nat)
    requires EndsWith(s, t) && (n <= |t| || |s| == |t|)
    ensures Tail(s, n) == Tail(t, n)
  {
  }

  /**
   * A failed rename loses the file that was to be rotated.  The promise is kept exactly
   * when that does not matter: the piece fills the log by itself, or the older rotated
   * file happens to end with the very bytes that are still owed.
   */
  lemma FailedRenameLoses(f: Files, logged: seq<byte>, max: nat, piece: seq<byte>)
    requires Sound(f, logged, max) && Overflows(f, max, piece)
    ensures var kept := Retains(Put(f, max, piece, false), logged + piece, max);
            kept <==> |piece| >= max || EndsWith(f.rotated, Tail(f.current, max - |piece|))
  {
    if |piece| >= max {
      TailOfLong(logged, piece, max);
      hide Tail;
      assert [] + Tail(piece, max) == Tail(piece, max);
      SuffixOfSum(f.rotated, Tail(piece, max));
    } else {
      TailOfSum(logged, piece, max);
      TailOfSuffix(logged, f.current, max - |piece|);
      TailOfShort(piece, max);
      hide EndsWith, Tail;
      assert [] + piece == piece;
      CommonSuffix(f.rotated, Tail(f.current, max - |piece|), piece);
    }
  }

  /** Nothing rotated before, ten bytes of log, a full file and one byte more: nine are lost. */
  lemma RenameLosesNine()
    ensures var f := Files([], [1, 2, 3, 4, 5, 6, 7, 8, 9, 10]);
            Overflows(f, 10, [11]) && !Retains(Put(f, 10, [11], false), f.current + [11], 10)
  {
    var f := Files([], [1, 2, 3, 4, 5, 6, 7, 8, 9, 10]);
    assert f.current[0..] == f.current;
    FailedRenameLoses(f, f.current, 10, [11]);
  }
}

module LogHandlers {
  import opened Bytes
  import opened Wires
  import opened RingBuffers
  import opened LogFiles

  /** The floor log_init puts under the configured size. */
  function MaxSize(logsize: nat, pagesize: nat): (max: nat)
    ensures max > pagesize && max >= logsize && (logsize > pagesize ==> max == logsize)
  {
    if logsize <= pagesize then pagesize + 1 else logsize
  }

  const PAGE_SIZE := 4096

  class LogHandler {
    const rb: RingBuffer
    const rbc: nat
    const maxsize: nat
    var size: nat
    /** The open log file: its bytes are what the descriptor has accepted. */
    var file: Wire
    var rotated: seq<byte>
    /** Rotations so far, and the kernel's answers to their renames and to opening the new file. */
    var rotations: nat
    const renames: seq<bool>
    const opens: seq<bool>
    /** The files found at startup, and the pieces logged since. */
    ghost const found: Files
    ghost var pieces: seq<seq<byte>>

    ghost function OnDisk(): Files
      reads this
    {
      Files(rotated, file.sent)
    }

    /** The files are what the run of all pieces so far makes of those found. */
    ghost predicate Valid()
      reads this
    {
      size == |file.sent| && Log(OnDisk(), rotations) == PutAll(found, maxsize, pieces, renames)
    }

    /** log_init and log_create, over an existing log file `found`. */
    constructor (rb: RingBuffer, rbc: nat, logsize: nat, found: Files, script: seq<Outcome>, renames: seq<bool>, opens: seq<bool>)
      ensures Valid() && this.rb == rb && this.rbc == rbc && maxsize == MaxSize(logsize, PAGE_SIZE)
      ensures this.found == found && this.renames == renames && this.opens == opens && file.script == script && pieces == []
    {
      hide Create;
      var max := MaxSize(logsize, PAGE_SIZE);
      var l := CreateLog(found, max, renames);
      this.rb := rb;
      this.rbc := rbc;
      maxsize := max;
      size, file, rotated := |l.files.current|, Wire(script, l.files.current, []), l.files.rotated;
      rotations := l.rotations;
      this.renames := renames;
      this.opens := opens;
      this.found := found;
      pieces := [];
    }

    /** log_trim. */
    method Trim() returns (rc: int)
      modifies `size, `file, `rotated, `rotations
      ensures rc == if Renames(opens, old(rotations)) then 0 else -1
      ensures file.script == old(file.script) && file.used == old(file.used)
      ensures rc == 0 ==> OnDisk() == Rotate(old(OnDisk()), Renames(renames, old(rotations)))
      ensures rc == 0 ==> rotations == old(rotations) + 1 && size == 0
    {
      if Renames(renames, rotations) {
        rotated := file.sent;
      }
      rotations := rotations + 1;
      if !Renames(opens, rotations - 1) {
        return -1;
      }
      file := Wire(file.script, [], file.used);
      size := 0;
      return 0;
    }

    /** log_data. */
    method LogData(buf: seq<byte>) returns (rc: int)
      requires Valid()
      modifies this
      ensures rc == 0 || rc == -1
      ensures rc == 0 ==> Valid() && pieces == old(pieces) + [buf]
      ensures Later(old(file), file) && (rc == -1 ==> false in opens || Refused(old(file.script)))
    {
      hide PutAll, Tail, Partial, Later, Answers, Refused;
      LaterRefl(file);
      PutAllPush(found, maxsize, pieces, buf, renames);
      var data := Tail(buf, maxsize);
      if size + |data| > maxsize {
        rc := Trim();
        LaterRefl(file);
        LaterSame(old(file), file, file);
        if rc != 0 {
          return;
        }
      }
      ghost var before := file;
      file, rc := WriteBuf(file, data);
      LaterSame(old(file), before, file);
      if rc != 0 {
        RefusedLater(before, file);
        return;
      }
      size := size + |data|;
      pieces := pieces + [buf];
    }

    /** log_ringbuffer_poll: log and commit piece by piece until the queue is empty. */
    method Poll() returns (ok: bool)
      requires Valid() && rb.Valid() && rbc in rb.heap
      modifies this, rb`heap
      ensures rb.Valid() && Consumed(old(rb.heap), rb.heap, rbc)
      ensures ok ==> Valid() && rb.Unread(rbc) == 0 && old(pieces) <= pieces
      ensures ok ==> Join(pieces) == old(Join(pieces)) + rb.stream[old(rb.heap[rbc].at)..]
      ensures Later(old(file), file) && (!ok ==> false in opens || Refused(old(file.script)))
    {
      hide RingBuffer.Valid, RingBuffer.View, Valid, IsPiece, Join, Later, Refused;
      LaterRefl(file);
      rb.Bounds(rbc);
      ghost var at := rb.heap[rbc].at;
      while true
        invariant rb.Valid() && Valid() && Consumed(old(rb.heap), rb.heap, rbc) && old(pieces) <= pieces
        invariant rb.heap[rbc].at <= |rb.stream| && Later(old(file), file)
        invariant Join(pieces) == old(Join(pieces)) + rb.stream[at..rb.heap[rbc].at]
        decreases rb.Unread(rbc)
      {
        var buf := rb.Peek(rbc, 0);
        if buf == [] {
          return true;
        }
        JoinPush(pieces, buf);
        ghost var before := file;
        var rc := LogData(buf);
        LaterTrans(old(file), before, file);
        if rc != 0 {
          if Refused(before.script) {
            RefusedLater(old(file), before);
          }
          return false;
        }
        Extend(old(Join(pieces)), rb.stream, at, rb.heap[rbc].at, buf, |buf|);
        rb.Commit(rbc, |buf|);
      }
    }
  }
}
