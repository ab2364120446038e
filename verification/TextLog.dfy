/** text-log-handler.c, the line assembler: newlines and hard wraps. */
module LineAssembly {
  import opened Bytes
  import opened Sanitizers

  /** sizeof(linebuf) - 1: the longest body a line can have. */
  const WIDTH := 8191

  datatype Lines = Lines(bodies: seq<seq<byte>>, pending: seq<byte>)

  /** append_char_and_maybe_flush, as far as the text goes. */
  function Feed(l: Lines, c: byte): Lines {
    if c == NEWLINE then Lines(l.bodies + [l.pending], [])
    else if |l.pending| >= WIDTH then Lines(l.bodies + [l.pending], [c])
    else l.(pending := l.pending + [c])
  }

  function Assemble(s: seq<byte>): Lines {
    if s == [] then Lines([], []) else Feed(Assemble(s[..|s| - 1]), s[|s| - 1])
  }

  lemma AssemblePush(s: seq<byte>, c: byte)
    ensures Assemble(s + [c]) == Feed(Assemble(s), c)
  {
    assert (s + [c])[..|s|] == s;
  }

  // ---- the reference: split at newlines, then cut each line every WIDTH bytes -------

  /** The text between newlines; the last entry is the unfinished line. */
  ghost function Split(s: seq<byte>): (r: seq<seq<byte>>)
    ensures r != []
  {
    if s == [] then [[]]
    else
      var front, c := Split(s[..|s| - 1]), s[|s| - 1];
      if c == NEWLINE then front + [[]] else front[..|front| - 1] + [front[|front| - 1] + [c]]
  }

  /** A line cut into bodies: all but the last are WIDTH long, and only an empty line has an empty one. */
  ghost function Cut(line: seq<byte>): (r: seq<seq<byte>>)
    ensures r != []
  {
    if |line| <= WIDTH then [line] else [line[..WIDTH]] + Cut(line[WIDTH..])
  }

  ghost function CutAll(lines: seq<seq<byte>>): seq<seq<byte>> {
    if lines == [] then [] else CutAll(lines[..|lines| - 1]) + Cut(lines[|lines| - 1])
  }

  lemma {:induction false} CutPush(line: seq<byte>, c: byte)
    ensures var r := Cut(line);
            var last := r[|r| - 1];
            |last| <= WIDTH &&
            Cut(line + [c]) == if |last| < WIDTH then r[..|r| - 1] + [last + [c]] else r + [[c]]
  {
    if |line| > WIDTH {
      CutPush(line[WIDTH..], c);
      assert (line + [c])[..WIDTH] == line[..WIDTH];
      assert (line + [c])[WIDTH..] == line[WIDTH..] + [c];
      var r := Cut(line[WIDTH..]);
      assert ([line[..WIDTH]] + r)[..|r|] == [line[..WIDTH]] + r[..|r| - 1];
    } else if |line| == WIDTH {
      assert (line + [c])[..WIDTH] == line && (line + [c])[WIDTH..] == [c];
    }
  }

  lemma CutAllLast(lines: seq<seq<byte>>, last: seq<byte>)
    ensures CutAll(lines + [last]) == CutAll(lines) + Cut(last)
  {
    assert (lines + [last])[..|lines|] == lines;
  }

  /** Breaks fall exactly at newlines and at hard wraps. */
  lemma {:induction false} AssemblyIsSplitAndCut(s: seq<byte>)
    ensures CutAll(Split(s)) == Assemble(s).bodies + [Assemble(s).pending]
  {
    if s == [] {
      var none: seq<seq<byte>> := [];
      CutAllLast(none, []);
      assert none + [[]] == [[]];
    } else {
      AssemblyIsSplitAndCut(s[..|s| - 1]);
      AssemblyStep(Split(s[..|s| - 1]), Assemble(s[..|s| - 1]), s[|s| - 1]);
    }
  }

  lemma AssemblyStep(lines: seq<seq<byte>>, l: Lines, c: byte)
    requires lines != [] && CutAll(lines) == l.bodies + [l.pending]
    ensures CutAll(if c == NEWLINE then lines + [[]] else lines[..|lines| - 1] + [lines[|lines| - 1] + [c]])
            == Feed(l, c).bodies + [Feed(l, c).pending]
  {
    hide Cut, CutAll;
    var init, last := lines[..|lines| - 1], lines[|lines| - 1];
    CutAllLast(init, last);
    assert init + [last] == lines;
    LastOfSum(CutAll(init), Cut(last), l.bodies, l.pending);
    CutAllLast(lines, []);
    CutEmpty();
    CutAllLast(init, last + [c]);
    CutPush(last, c);
  }

  lemma CutEmpty()
    ensures Cut([]) == [[]]
  {
  }

  lemma LastOfSum<T>(a: seq<T>, b: seq<T>, c: seq<T>, x: T)
    requires a + b == c + [x] && b != []
    ensures b[|b| - 1] == x && a + b[..|b| - 1] == c
  {
    assert (a + b)[|a| + |b| - 1] == x;
    assert (a + b)[..|a| + |b| - 1] == a + b[..|b| - 1];
  }

  ghost function WithoutNewlines(s: seq<byte>): seq<byte> {
    if s == [] then []
    else WithoutNewlines(s[..|s| - 1]) + (if s[|s| - 1] == NEWLINE then [] else [s[|s| - 1]])
  }

  /** Nothing is lost and nothing is added: the bodies and the pending text are the text. */
  lemma {:induction false} AssemblyConserves(s: seq<byte>)
    ensures Join(Assemble(s).bodies) + Assemble(s).pending == WithoutNewlines(s)
    ensures |Assemble(s).pending| <= WIDTH && NEWLINE !in Assemble(s).pending
    ensures forall b :: b in Assemble(s).bodies ==> |b| <= WIDTH && NEWLINE !in b
  {
    if s != [] {
      AssemblyConserves(s[..|s| - 1]);
      var l := Assemble(s[..|s| - 1]);
      JoinPush(l.bodies, l.pending);
    }
  }

  /** Newlines in a stretch of file. */
  ghost function Newlines(s: seq<byte>): nat {
    if s == [] then 0 else Newlines(s[..|s| - 1]) + if s[|s| - 1] == NEWLINE then 1 else 0
  }

  lemma {:induction false} NewlinesAdd(a: seq<byte>, b: seq<byte>)
    ensures Newlines(a + b) == Newlines(a) + Newlines(b)
  {
    if b == [] {
      assert a + b == a;
    } else {
      NewlinesAdd(a, b[..|b| - 1]);
      assert (a + b)[..|a + b| - 1] == a + b[..|b| - 1];
    }
  }

  lemma {:induction false} NoNewlines(s: seq<byte>)
    requires NEWLINE !in s
    ensures Newlines(s) == 0
  {
    if s != [] {
      NoNewlines(s[..|s| - 1]);
    }
  }
}

/** text-log-handler.c: the handler around the automaton, the assembler and the files. */
module TextLogHandlers {
  import opened Bytes
  import opened Seqs
  import opened Wires
  import opened RingBuffers
  import opened LogFiles
  import opened Sanitizers
  import opened LineAssembly
  import LogHandlers

  /** sizeof(ascii_buf) and sizeof(linebuf). */
  const BUF_SIZE := 8192

  /** Text without a newline, such as a date. */
  type Text = s: seq<byte> | NEWLINE !in s

  /** A line of the log, and the lines one after the other. */
  ghost function Line(stamp: seq<byte>, body: seq<byte>): seq<byte> { stamp + body + [NEWLINE] }

  ghost function Page(stamps: seq<seq<byte>>, bodies: seq<seq<byte>>): seq<byte>
    requires |stamps| == |bodies|
  {
    if bodies == [] then []
    else
      var n := |bodies| - 1;
      Page(stamps[..n], bodies[..n]) + Line(stamps[n], bodies[n])
  }

  lemma PagePush(stamps: seq<seq<byte>>, bodies: seq<seq<byte>>, stamp: seq<byte>, body: seq<byte>)
    requires |stamps| == |bodies|
    ensures Page(stamps + [stamp], bodies + [body]) == Page(stamps, bodies) + Line(stamp, body)
  {
    assert (stamps + [stamp])[..|bodies|] == stamps && (bodies + [body])[..|bodies|] == bodies;
  }

  lemma NothingYet(found: seq<byte>)
    ensures Run(Normal, []) == Normal && Assemble(Out(Normal, [])) == Lines([], [])
    ensures Newlines([]) == 0 && Join([]) == Page([], []) && found + [] == found
  {
  }

  lemma LineParts(page: seq<byte>, stamp: seq<byte>, body: seq<byte>)
    ensures page + stamp + body + [NEWLINE] == page + Line(stamp, body)
    ensures page + [] == page && page + stamp + [] == page + stamp
  {
  }

  class TextLogHandler {
    const rb: RingBuffer
    const rbc: nat
    const maxsize: nat
    var size: nat
    var file: Wire
    var rotated: seq<byte>
    var mode: Mode
    var linebuf: seq<byte>
    var lineCount: nat
    /** The bytes the automaton has read. */
    ghost var seen: seq<byte>
    /** The bodies flushed so far. */
    ghost var bodies: seq<seq<byte>>
    /** The timestamps they were flushed with, and the line numbers in these. */
    ghost var stamps: seq<seq<byte>>
    ghost var numbers: seq<nat>
    /** What formatting the date will give, flush by flush, and how many flushes there were. */
    const dates: seq<Option<Text>>
    var flushes: nat
    /** Rotations so far, and the kernel's answers to their renames and to opening the new file. */
    var rotations: nat
    const renames: seq<bool>
    const opens: seq<bool>
    /** The files found at startup, and the pieces written since. */
    ghost const found: Files
    ghost var pieces: seq<seq<byte>>
    /** What this handler has written to the current file, since startup or the last rotation. */
    ghost var written: seq<byte>

    ghost function OnDisk(): Files
      reads `rotated, `file
    {
      Files(rotated, file.sent)
    }

    /** What the current file held before this handler wrote to it. */
    ghost function Opened(): seq<byte>
      reads `rotations
    {
      if rotations == 0 then found.current else []
    }

    ghost predicate Valid()
      reads this
    {
      && OnFile()
      && mode == Run(Normal, seen)
      && Lines(bodies, linebuf) == Assemble(Out(Normal, seen))
      && Paged()
    }

    /** What was written is the page of the lines flushed, each under its date and a number. */
    ghost predicate Paged()
      reads `stamps, `bodies, `pieces, `numbers, `flushes
    {
      flushes == |stamps| == |bodies| && Join(pieces) == Page(stamps, bodies) && Dated(stamps, numbers, dates)
    }

    /** The files are what the run of all pieces so far makes of those found. */
    ghost predicate Holding()
      reads `size, `file, `rotated, `rotations, `pieces, `written
    {
      && size == |file.sent|
      && Log(OnDisk(), rotations) == PutAll(found, maxsize, pieces, renames)
      && file.sent == Opened() + written
    }

    /** The kernel will refuse a write to the log, or to open a new file. */
    ghost predicate Troubled(w: Wire) {
      false in opens || Refused(w.script)
    }

    lemma StillTroubled(w: Wire, v: Wire)
      ensures Later(v, v) && (Later(w, v) && Troubled(v) ==> Troubled(w))
    {
      LaterRefl(v);
      if Later(w, v) && Refused(v.script) {
        RefusedLater(w, v);
      }
    }

    /** The files' part of the invariant, on which the writes work. */
    ghost predicate OnFile()
      reads this
    {
      0 < maxsize && Holding() && lineCount == Newlines(written) && NEWLINE !in linebuf
    }

    constructor (rb: RingBuffer, rbc: nat, logsize: nat, pagesize: nat, found: Files, script: seq<Outcome>, renames: seq<bool>, opens: seq<bool>,
                 dates: seq<Option<Text>>)
      ensures Valid() && this.rb == rb && this.rbc == rbc && maxsize == LogHandlers.MaxSize(logsize, pagesize)
      ensures seen == [] && this.dates == dates && this.found == found && this.renames == renames && this.opens == opens && file.script == script
    {
      hide Tail, Newlines, Run, Out, Assemble, Page, Join;
      var max := LogHandlers.MaxSize(logsize, pagesize);
      var l := CreateLog(found, max, renames);
      NothingYet(l.files.current);
      this.rb := rb;
      this.rbc := rbc;
      maxsize := max;
      size, file, rotated := |l.files.current|, Wire(script, l.files.current, []), l.files.rotated;
      rotations := l.rotations;
      this.renames := renames;
      this.opens := opens;
      this.dates, flushes, numbers := dates, 0, [];
      this.found := found;
      mode, linebuf, lineCount := Normal, [], 0;
      seen, bodies, stamps, pieces, written := [], [], [], [], [];
    }

    /** text_logger_trim. */
    method Trim() returns (rc: int)
      modifies `size, `file, `rotated, `rotations, `lineCount, `written
      ensures rc == if Renames(opens, old(rotations)) then 0 else -1
      ensures file.script == old(file.script) && file.used == old(file.used)
      ensures rc == 0 ==> OnDisk() == Rotate(old(OnDisk()), Renames(renames, old(rotations)))
      ensures rc == 0 ==> rotations == old(rotations) + 1 && size == 0 && lineCount == 0 && written == []
    {
      if Renames(renames, rotations) {
        rotated := file.sent;
      }
      rotations := rotations + 1;
      if !Renames(opens, rotations - 1) {
        return -1;
      }
      file := Wire(file.script, [], file.used);
      size, lineCount := 0, 0;
      written := [];
      return 0;
    }

    /** text_logger_write_data. */
    method WriteData(buf: seq<byte>) returns (rc: int)
      requires Holding()
      modifies `size, `file, `rotated, `rotations, `lineCount, `written, `pieces
      ensures rc == 0 || rc == -1
      ensures rc == 0 ==> Holding() && pieces == old(pieces) + [buf]
      ensures Later(old(file), file) && (rc == -1 ==> Troubled(old(file)))
      ensures rc == 0 ==> if Overflows(old(OnDisk()), maxsize, buf)
                          then written == Tail(buf, maxsize) && lineCount == 0
                          else written == old(written) + Tail(buf, maxsize) && lineCount == old(lineCount)
    {
      hide PutAll, Tail, Partial, Later, Answers, Refused;
      LaterRefl(file);
      PutAllPush(found, maxsize, pieces, buf, renames);
      var data := Tail(buf, maxsize);
      if size + |data| > maxsize {
        rc := Trim();
        LaterRefl(file);
        LaterSame(old(file), file, file);
        if rc != 0 {
          return;
        }
      }
      Assoc(Opened(), written, data);
      ghost var before := file;
      file, rc := WriteBuf(file, data);
      LaterSame(old(file), before, file);
      if rc != 0 {
        RefusedLater(before, file);
        return;
      }
      written := written + data;
      size := size + |data|;
      pieces := pieces + [buf];
    }

    /** Any text without a newline may be written without upsetting the line count. */
    method WriteText(buf: seq<byte>) returns (rc: int)
      requires OnFile() && NEWLINE !in buf
      modifies `size, `file, `rotated, `rotations, `lineCount, `written, `pieces
      ensures rc == 0 || rc == -1
      ensures rc == 0 ==> OnFile() && Join(pieces) == old(Join(pieces)) + buf
      ensures Later(old(file), file) && (rc == -1 ==> Troubled(old(file)))
    {
      hide Later, Troubled, Holding, Newlines, Join;
      NewlinesAdd(written, Tail(buf, maxsize));
      NoNewlines(Tail(buf, maxsize));
      JoinPush(pieces, buf);
      rc := WriteData(buf);
    }

    /** The stamp, if any, and the line, if any. */
    method WriteParts(stamp: seq<byte>, body: seq<byte>) returns (rc: int)
      requires OnFile() && NEWLINE !in stamp && NEWLINE !in body
      modifies `size, `file, `rotated, `rotations, `lineCount, `written, `pieces
      ensures rc == 0 || rc == -1
      ensures rc == 0 ==> OnFile() && Join(pieces) == old(Join(pieces)) + stamp + body
      ensures Later(old(file), file) && (rc == -1 ==> Troubled(old(file)))
    {
      hide Later, Troubled, Holding, Newlines, Join;
      LineParts(Join(pieces), stamp, body);
      StillTroubled(file, file);
      rc := 0;
      if |stamp| > 0 {
        rc := WriteText(stamp);
        if rc != 0 {
          return;
        }
      }
      if |body| > 0 {
        ghost var mid := file;
        rc := WriteText(body);
        StillTroubled(old(file), mid);
        LaterTrans(old(file), mid, file);
      }
    }

    /**
     * flush_line: the stamp with the line's number, the line, a newline.  After it the line
     * count is again the number of newlines this handler has put in the current file,
     * wherever in the line a rotation fell.
     */
    method FlushLine() returns (rc: int, ghost stamp: seq<byte>)
      requires OnFile()
      modifies `size, `file, `rotated, `rotations, `lineCount, `written, `pieces, `linebuf, `bodies, `stamps, `numbers, `flushes
      ensures rc == 0 || rc == -1
      ensures rc == 0 ==> OnFile() && linebuf == [] && bodies == old(bodies) + [old(linebuf)]
      ensures rc == 0 ==> stamp == Timestamp(NextDate(dates, old(flushes)), old(lineCount)) && flushes == old(flushes) + 1
      ensures rc == 0 ==> stamps == old(stamps) + [stamp] && numbers == old(numbers) + [old(lineCount)]
      ensures rc == 0 ==> Join(pieces) == old(Join(pieces)) + Line(stamp, old(linebuf))
      ensures Later(old(file), file) && (rc == -1 ==> Troubled(old(file)))
    {
      hide Later, Troubled, Holding, Newlines, Join, Timestamp, NextDate, Put;
      var text := Timestamp(NextDate(dates, flushes), lineCount);
      stamp := text;
      LineParts(Join(pieces), stamp, linebuf);
      rc := WriteParts(text, linebuf);
      if rc != 0 {
        return;
      }
      ghost var before, mid := written, file;
      JoinPush(pieces, [NEWLINE]);
      rc := WriteData([NEWLINE]);
      StillTroubled(old(file), mid);
      LaterTrans(old(file), mid, file);
      if rc != 0 {
        return;
      }
      assert Tail([NEWLINE], maxsize) == [NEWLINE];
      NewlinesAdd(before, [NEWLINE]);
      OneNewline();
      bodies := bodies + [linebuf];
      stamps := stamps + [stamp];
      numbers := numbers + [old(lineCount)];
      flushes := flushes + 1;
      linebuf := [];
      lineCount := lineCount + 1;
    }

    /** append_char_and_maybe_flush. */
    method AppendChar(c: byte) returns (rc: int)
      requires OnFile() && Paged()
      modifies `size, `file, `rotated, `rotations, `lineCount, `written, `pieces, `linebuf, `bodies, `stamps, `numbers, `flushes
      ensures rc == 0 || rc == -1
      ensures rc == 0 ==> OnFile() && Lines(bodies, linebuf) == Feed(Lines(old(bodies), old(linebuf)), c)
      ensures rc == 0 ==> Paged()
      ensures Later(old(file), file) && (rc == -1 ==> Troubled(old(file)))
    {
      hide Later, Troubled, Holding, Newlines, Line, Page, Join, Timestamp, Dated;
      ghost var stamp;
      StillTroubled(file, file);
      if c == NEWLINE {
        rc, stamp := FlushLine();
        PagePush(old(stamps), old(bodies), stamp, old(linebuf));
        DatedPush(old(stamps), old(numbers), dates, old(lineCount));
        return;
      }
      if |linebuf| >= BUF_SIZE - 1 {
        rc, stamp := FlushLine();
        if rc != 0 {
          return;
        }
        PagePush(old(stamps), old(bodies), stamp, old(linebuf));
        DatedPush(old(stamps), old(numbers), dates, old(lineCount));
      }
      linebuf := linebuf + [c];
      rc := 0;
    }

    /** The body of the poll loop on one piece of at most BUF_SIZE bytes. */
    method Consume(chunk: seq<byte>) returns (rc: int)
      requires Valid()
      modifies this
      ensures rc == 0 || rc == -1
      ensures rc == 0 ==> Valid() && seen == old(seen) + chunk[..Read(old(mode), chunk, BUF_SIZE)]
      ensures Later(old(file), file) && (rc == -1 ==> Troubled(old(file)))
    {
      hide Later, Troubled, Holding, Newlines, Feed, Run, Out, Read, Paged;
      var ascii, next := Sanitize(chunk, BUF_SIZE, mode);
      ghost var used := chunk[..Read(mode, chunk, BUF_SIZE)];
      ghost var text := Out(Normal, seen);
      Resumes(Normal, seen, used);
      assert text + ascii[..0] == text;
      StillTroubled(file, file);
      for i := 0 to |ascii|
        invariant OnFile() && mode == old(mode) && seen == old(seen) && Later(old(file), file)
        invariant Paged()
        invariant Lines(bodies, linebuf) == Assemble(text + ascii[..i])
      {
        AssemblePush(text + ascii[..i], ascii[i]);
        assert text + ascii[..i] + [ascii[i]] == text + ascii[..i + 1];
        ghost var mid := file;
        rc := AppendChar(ascii[i]);
        StillTroubled(old(file), mid);
        LaterTrans(old(file), mid, file);
        if rc != 0 {
          return;
        }
      }
      assert text + ascii[..|ascii|] == text + ascii;
      mode := next;
      seen := seen + used;
      rc := 0;
    }

    /** text_log_ringbuffer_poll. */
    method Poll() returns (ok: bool)
      requires Valid() && rb.Valid() && rbc in rb.heap
      modifies this, rb`heap
      ensures rb.Valid() && Consumed(old(rb.heap), rb.heap, rbc)
      ensures ok ==> Valid() && rb.Unread(rbc) == 0
      ensures ok && old(rb.Unread(rbc)) < BUF_SIZE ==> seen == old(seen) + rb.stream[old(rb.heap[rbc].at)..]
      ensures Later(old(file), file) && (!ok ==> Troubled(old(file)))
    {
      hide Later, Troubled, RingBuffer.Valid, RingBuffer.View, Valid, IsPiece;
      StillTroubled(file, file);
      rb.Bounds(rbc);
      ghost var at := rb.heap[rbc].at;
      ghost var short := rb.Unread(rbc) < BUF_SIZE;
      while true
        invariant rb.Valid() && Valid() && Consumed(old(rb.heap), rb.heap, rbc)
        invariant rb.heap[rbc].at <= |rb.stream| && Later(old(file), file)
        invariant short ==> seen == old(seen) + rb.stream[at..rb.heap[rbc].at]
        decreases rb.Unread(rbc)
      {
        var buf := rb.Peek(rbc, 0);
        if buf == [] {
          return true;
        }
        ghost var mid := file;
        var rc := ConsumePiece(buf);
        StillTroubled(old(file), mid);
        LaterTrans(old(file), mid, file);
        if rc != 0 {
          return false;
        }
        Extend(old(seen), rb.stream, at, rb.heap[rbc].at, buf, |buf|);
        rb.Commit(rbc, |buf|);
      }
    }

    /** One contiguous piece of the ring, in chunks of at most BUF_SIZE bytes. */
    method ConsumePiece(buf: seq<byte>) returns (rc: int)
      requires Valid()
      modifies this
      ensures rc == 0 || rc == -1
      ensures rc == 0 ==> Valid()
      ensures rc == 0 && |buf| < BUF_SIZE ==> seen == old(seen) + buf
      ensures Later(old(file), file) && (rc == -1 ==> Troubled(old(file)))
    {
      hide Later, Troubled, Valid, Read;
      StillTroubled(file, file);
      var offset := 0;
      while offset < |buf|
        invariant offset <= |buf| && Valid() && Later(old(file), file)
        invariant offset == 0 ==> seen == old(seen)
        invariant 0 < offset && |buf| < BUF_SIZE ==> offset == |buf| && seen == old(seen) + buf
      {
        var size := if |buf| - offset > BUF_SIZE then BUF_SIZE else |buf| - offset;
        var chunk := buf[offset..offset + size];
        if |buf| < BUF_SIZE {
          assert chunk == buf;
          ShortPieces(mode, chunk, BUF_SIZE);
        }
        ghost var mid := file;
        rc := Consume(chunk);
        StillTroubled(old(file), mid);
        LaterTrans(old(file), mid, file);
        if rc != 0 {
          return;
        }
        offset := offset + size;
      }
      rc := 0;
    }
  }

  lemma OneNewline()
    ensures Newlines([NEWLINE]) == 1
  {
    assert [NEWLINE][..0] == [];
  }

  function Digits(n: nat): (s: seq<byte>)
    ensures forall k :: 0 <= k < |s| ==> 48 <= s[k] <= 57
  {
    (if n < 10 then [] else Digits(n / 10)) + [48 + n % 10]
  }

  function Zeros(k: nat): (s: seq<byte>)
    ensures |s| == k && forall i :: 0 <= i < k ==> s[i] == 48
  {
    if k == 0 then [] else Zeros(k - 1) + [48]
  }

  /** The number in decimal, in at least seven digits. */
  function Padded(n: nat): (s: seq<byte>)
    ensures forall k :: 0 <= k < |s| ==> 48 <= s[k] <= 57
  {
    var digits := Digits(n);
    Zeros(if |digits| < 7 then 7 - |digits| else 0) + digits
  }

  const SPACE: byte := 32

  /** The digits say the number. */
  ghost function Value(digits: seq<byte>): int {
    if digits == [] then 0 else 10 * Value(digits[..|digits| - 1]) + digits[|digits| - 1] as int - 48
  }

  lemma {:induction false} DigitsSay(n: nat)
    ensures Value(Digits(n)) == n && Digits(n) != []
  {
    var front := if n < 10 then [] else Digits(n / 10);
    assert Digits(n)[..|Digits(n)| - 1] == front;
    if n >= 10 {
      DigitsSay(n / 10);
    }
  }

  lemma {:induction false} ZerosSay(k: nat, digits: seq<byte>)
    ensures Value(Zeros(k) + digits) == Value(digits)
    decreases |digits|, k
  {
    var zeros := Zeros(k);
    if digits != [] {
      ZerosSay(k, digits[..|digits| - 1]);
      assert (zeros + digits)[..|zeros + digits| - 1] == zeros + digits[..|digits| - 1];
    } else if k > 0 {
      ZerosSay(k - 1, []);
      assert (zeros + [])[..k - 1] == Zeros(k - 1) + [];
    }
  }

  /** The number printed is the number meant, in at least seven digits. */
  lemma PaddedSays(n: nat)
    ensures Value(Padded(n)) == n && |Padded(n)| >= 7
  {
    DigitsSay(n);
    hide Digits, Value, Zeros;
    var digits := Digits(n);
    ZerosSay(if |digits| < 7 then 7 - |digits| else 0, digits);
  }

  /** generate_timestamp_text: the date, then the number between spaces; nothing if the date cannot be formatted. */
  function Timestamp(date: Option<Text>, n: nat): (stamp: seq<byte>)
    ensures NEWLINE !in stamp
  {
    if date.None? then [] else date.value + [SPACE] + Padded(n) + [SPACE]
  }

  /** Reading a timestamp back. */
  lemma TimestampReads(date: Text, n: nat)
    ensures var stamp := Timestamp(Some(date), n);
            var d := |date|;
            && d + 9 <= |stamp| && stamp[..d] == date && stamp[d] == SPACE && stamp[|stamp| - 1] == SPACE
            && Value(stamp[d + 1..|stamp| - 1]) == n
  {
    PaddedSays(n);
    hide Padded, Value;
    var stamp := Timestamp(Some(date), n);
    assert stamp[|date| + 1..|stamp| - 1] == Padded(n);
  }

  function NextDate(dates: seq<Option<Text>>, k: nat): Option<Text> { if k < |dates| then dates[k] else None }

  ghost predicate Dated(stamps: seq<seq<byte>>, numbers: seq<nat>, dates: seq<Option<Text>>) {
    && |numbers| == |stamps|
    && forall k :: 0 <= k < |stamps| ==> stamps[k] == Timestamp(NextDate(dates, k), numbers[k])
  }

  lemma DatedPush(stamps: seq<seq<byte>>, numbers: seq<nat>, dates: seq<Option<Text>>, n: nat)
    requires Dated(stamps, numbers, dates)
    ensures Dated(stamps + [Timestamp(NextDate(dates, |stamps|), n)], numbers + [n], dates)
  {
  }
}
