/**
 * console-server.c and console-mux.c: the consoles behind one upstream tty, the mux that
 * selects one of them, and the event loop.
 */
module Servers {
  import opened Bytes
  import opened Seqs
  import opened RingBuffers
  import opened Timevals
  import opened PollTables
  import opened Pollers
  import opened Wires
  import opened Links
  import opened LogFiles
  import opened LogHandlers
  import opened Sanitizers
  import opened LineAssembly
  import opened TextLogHandlers
  import opened Consoles
  import opened MuxLines

  /**
   * What happens to the server as a whole.  A banner whose timestamp fails is `Unstamped`; an
   * attempt to switch that fails at the mux lines is `LinesFailed`.
   */
  datatype Happening =
    | TtyRead(data: seq<byte>)
    | Activated(console: nat)
    | Banner(console: nat, stamp: seq<byte>, connected: bool)
    | Unstamped(console: nat)
    | LinesFailed(console: nat)

  ghost function ActiveAfter(history: seq<Happening>): Option<nat> {
    if history == [] then None
    else match history[|history| - 1]
      case Activated(i) => Some(i)
      case _ => ActiveAfter(history[..|history| - 1])
  }

  /**
   * What console `i` should have been fed: the tty reads made while it was active, and its
   * own banners.  A ring refuses a piece as long as itself.
   */
  ghost function Fed(history: seq<Happening>, i: nat, size: nat): seq<byte> {
    if history == [] then []
    else
      var before, last := history[..|history| - 1], history[|history| - 1];
      Fed(before, i, size) + match last
        case TtyRead(data) => if ActiveAfter(before) == Some(i) && |data| < size then data else []
        case Activated(_) => []
        case Banner(j, stamp, connected) =>
          var text := BannerText(stamp, Message(connected));
          if j == i && |text| < size then text else []
        case Unstamped(_) => []
        case LinesFailed(_) => []
  }

  /** The last attempt to switch went through. */
  ghost predicate SyncedAfter(history: seq<Happening>) {
    history != [] &&
    var last := history[|history| - 1];
    last.Activated? || (!last.LinesFailed? && SyncedAfter(history[..|history| - 1]))
  }

  /** How many attempts did not. */
  ghost function Failures(history: seq<Happening>): nat {
    if history == [] then 0
    else Failures(history[..|history| - 1]) + if history[|history| - 1].LinesFailed? then 1 else 0
  }

  /** What was read from the upstream tty. */
  ghost function ReadsIn(history: seq<Happening>): seq<seq<byte>> {
    if history == [] then []
    else
      var last := history[|history| - 1];
      ReadsIn(history[..|history| - 1]) + if last.TtyRead? then [last.data] else []
  }

  /** The buffer run_console_iteration reads the tty into. */
  const READ_SIZE := 4096

  type Input = s: seq<byte> | |s| <= READ_SIZE

  /** What read() number `k` on the upstream tty gives; past the end of the list, end of file. */
  function NextRead(inputs: seq<Input>, k: nat): Input { if k < |inputs| then inputs[k] else [] }

  /** The first `n` reads, without those that gave nothing. */
  ghost function ReadsTaken(inputs: seq<Input>, n: nat): seq<seq<byte>> {
    if n == 0 then []
    else ReadsTaken(inputs, n - 1) + if NextRead(inputs, n - 1) == [] then [] else [NextRead(inputs, n - 1)]
  }

  /** What the bus has for the server: nothing of interest, or a Connect call, for which a socket pair can be made or not. */
  datatype BusCall = Other | ConnectTo(console: nat, paired: bool)

  function NextCall(calls: seq<BusCall>, k: nat): BusCall { if k < |calls| then calls[k] else Other }

  lemma Switches(history: seq<Happening>, last: Happening)
    ensures ReadsIn(history + [last]) == ReadsIn(history) + if last.TtyRead? then [last.data] else []
    ensures DatesIn(history + [last])
              == DatesIn(history) + if last.Banner? then [Some(last.stamp)] else if last.Unstamped? then [None] else []
    ensures SyncedAfter(history + [last]) <==> last.Activated? || (!last.LinesFailed? && SyncedAfter(history))
    ensures Failures(history + [last]) == Failures(history) + if last.LinesFailed? then 1 else 0
  {
    assert (history + [last])[..|history|] == history;
  }

  /** If no attempt has failed, having an active console is being in sync with the mux. */
  lemma {:induction false} NoFailureInSync(history: seq<Happening>)
    requires Failures(history) == 0
    ensures SyncedAfter(history) <==> ActiveAfter(history).Some?
  {
    if history != [] {
      NoFailureInSync(history[..|history| - 1]);
    }
  }

  /** Every banner tells the truth: CONNECTED to the console just selected, DISCONNECTED to any other. */
  ghost predicate Truthful(history: seq<Happening>) {
    history == [] ||
    var before, last := history[..|history| - 1], history[|history| - 1];
    Truthful(before) && (last.Banner? ==> last.connected == (ActiveAfter(before) == Some(last.console)))
  }

  /** The consoles that were to be told something, in order. */
  ghost function Addressed(history: seq<Happening>): seq<nat> {
    if history == [] then []
    else
      var last := history[|history| - 1];
      Addressed(history[..|history| - 1]) + if last.Banner? || last.Unstamped? then [last.console] else []
  }

  /** All of the first `n` consoles but `i`, in order. */
  ghost function Others(i: nat, n: nat): seq<nat> {
    if n == 0 then [] else Others(i, n - 1) + if n - 1 == i then [] else [n - 1]
  }

  lemma {:induction false} OthersAre(i: nat, n: nat)
    ensures forall j: nat :: j in Others(i, n) <==> j < n && j != i
  {
    if n > 0 {
      OthersAre(i, n - 1);
    }
  }

  /**
   * The documentation has a console told that it is disconnected if it was connected before.
   * With `a` connected before and `i` selected, that is who is told exactly when there are
   * no more than two consoles.
   */
  lemma OnlyTheConnectedIsTold(a: nat, i: nat, n: nat)
    requires a < n && i < n && a != i
    ensures (forall j :: j in Others(i, n) ==> j == a) <==> n <= 2
  {
    OthersAre(i, n);
    if n > 2 {
      var j := if a != 0 && i != 0 then 0 else if a != 1 && i != 1 then 1 else 2;
      assert j in Others(i, n);
    }
  }

  /** Three consoles, the first connected, the second selected: the third is told too. */
  lemma ThirdIsTold()
    ensures Others(1, 3) == [0, 2]
  {
    assert Others(1, 1) == [0] && Others(1, 2) == [0];
  }

  /** "[obmc-console] " */
  const BANNER: seq<byte> := [91, 111, 98, 109, 99, 45, 99, 111, 110, 115, 111, 108, 101, 93, 32]
  const SPACE: byte := 32
  /** "CONNECTED" and "DISCONNECTED" */
  const CONNECTED: seq<byte> := [67, 79, 78, 78, 69, 67, 84, 69, 68]
  const DISCONNECTED: seq<byte> := [68, 73, 83, 67, 79, 78, 78, 69, 67, 84, 69, 68]

  function Message(connected: bool): seq<byte> { if connected then CONNECTED else DISCONNECTED }

  function BannerText(stamp: seq<byte>, message: seq<byte>): seq<byte> {
    BANNER + stamp + [SPACE] + message + [10]
  }

  /** What console_timestamp fits into its 32-byte buffer. */
  type Date = s: seq<byte> | |s| < 32

  /** What formatting date number `k` gives; past the end of the list it fails. */
  function NextStamp(stamps: seq<Option<Date>>, k: nat): Option<Date> { if k < |stamps| then stamps[k] else None }

  /** What console_print_timestamped does with it. */
  ghost function Told(j: nat, stamp: Option<Date>, connected: bool): Happening {
    if stamp.Some? then Banner(j, stamp.value, connected) else Unstamped(j)
  }

  /** The dates of all banners, whether they could be formatted or not. */
  ghost function DatesIn(history: seq<Happening>): seq<Option<seq<byte>>> {
    if history == [] then []
    else
      var before, last := history[..|history| - 1], history[|history| - 1];
      DatesIn(before) + if last.Banner? then [Some(last.stamp)] else if last.Unstamped? then [None] else []
  }

  ghost function DatesTaken(stamps: seq<Option<Date>>, n: nat): seq<Option<seq<byte>>> {
    if n == 0 then []
    else
      var date := NextStamp(stamps, n - 1);
      DatesTaken(stamps, n - 1) + [if date.Some? then Some(date.value) else None]
  }

  function Ascii(s: string): (r: seq<byte>)
    requires forall i :: 0 <= i < |s| ==> s[i] < 128 as char
    ensures |r| == |s| && forall i :: 0 <= i < |s| ==> r[i] == s[i] as int
  {
    seq(|s|, i requires 0 <= i < |s| => s[i] as int)
  }

  lemma BannerSpelled()
    ensures BANNER == Ascii("[obmc-console] ")
  {
  }

  lemma ConnectedSpelled()
    ensures [SPACE] + CONNECTED + [10] == Ascii(" CONNECTED\n")
  {
  }

  lemma DisconnectedSpelled()
    ensures [SPACE] + DISCONNECTED + [10] == Ascii(" DISCONNECTED\n")
  {
  }

  /** The banners, as they read. */
  lemma BannerReads(stamp: seq<byte>, connected: bool)
    ensures BannerText(stamp, Message(connected))
              == Ascii("[obmc-console] ") + stamp + if connected then Ascii(" CONNECTED\n") else Ascii(" DISCONNECTED\n")
  {
    BannerSpelled();
    ConnectedSpelled();
    DisconnectedSpelled();
    hide Ascii;
    var message := Message(connected);
    assert BannerText(stamp, message) == (BANNER + stamp) + ([SPACE] + message + [10]);
  }

  lemma FedBanner(history: seq<Happening>, j: nat, stamp: seq<byte>, connected: bool)
    ensures ActiveAfter(history + [Banner(j, stamp, connected)]) == ActiveAfter(history)
    ensures var text := BannerText(stamp, Message(connected));
            forall i: nat, size: nat :: Fed(history + [Banner(j, stamp, connected)], i, size)
              == Fed(history, i, size) + if j == i && |text| < size then text else []
  {
    assert (history + [Banner(j, stamp, connected)])[..|history|] == history;
  }

  lemma FedNothing(history: seq<Happening>, last: Happening)
    requires last.Unstamped? || last.LinesFailed?
    ensures ActiveAfter(history + [last]) == ActiveAfter(history)
    ensures forall i: nat, size: nat :: Fed(history + [last], i, size) == Fed(history, i, size)
  {
    assert (history + [last])[..|history|] == history;
    forall i: nat, size: nat ensures Fed(history + [last], i, size) == Fed(history, i, size) {
      assert Fed(history, i, size) + [] == Fed(history, i, size);
    }
  }

  lemma Tells(history: seq<Happening>, last: Happening)
    requires Truthful(history)
    requires last.Banner? ==> last.connected == (ActiveAfter(history) == Some(last.console))
    ensures Truthful(history + [last])
    ensures Addressed(history + [last]) == Addressed(history) + if last.Banner? || last.Unstamped? then [last.console] else []
  {
    assert (history + [last])[..|history|] == history;
  }

  lemma FedTty(history: seq<Happening>, data: seq<byte>)
    ensures ActiveAfter(history + [TtyRead(data)]) == ActiveAfter(history)
    ensures forall i: nat, size: nat :: Fed(history + [TtyRead(data)], i, size)
              == Fed(history, i, size) + if ActiveAfter(history) == Some(i) && |data| < size then data else []
  {
    assert (history + [TtyRead(data)])[..|history|] == history;
  }

  lemma FedActivated(history: seq<Happening>, k: nat)
    ensures ActiveAfter(history + [Activated(k)]) == Some(k)
    ensures forall i: nat, size: nat :: Fed(history + [Activated(k)], i, size) == Fed(history, i, size)
  {
    assert (history + [Activated(k)])[..|history|] == history;
    forall i: nat, size: nat ensures Fed(history + [Activated(k)], i, size) == Fed(history, i, size) {
      assert Fed(history, i, size) + [] == Fed(history, i, size);
    }
  }

  ghost predicate Streams(views: seq<View>, history: seq<Happening>) {
    forall i :: 0 <= i < |views| ==> views[i].stream == Fed(history, i, views[i].size)
  }

  /** Only console `only` has clients. */
  ghost predicate Exclusive(views: seq<View>, only: Option<nat>) {
    forall i :: 0 <= i < |views| && only != Some(i) ==> views[i].clients == map[]
  }

  ghost predicate Unflagged(views: seq<View>, busy: int) {
    forall i, p :: 0 <= i < |views| && i != busy && p in views[i].pollers ==> !views[i].pollers[p].remove
  }

  /** While `synced`: exclusivity, and the lines show the index. */
  ghost predicate Selected(views: seq<View>, active: Option<nat>, synced: bool,
                           hasMux: bool, lines: seq<bool>, muxIndex: seq<nat>) {
    && (active == None ==> Exclusive(views, None))
    && (synced ==> active.Some? && active.value < |muxIndex| && Exclusive(views, active)
                   && (hasMux ==> Shows(lines, muxIndex[active.value])))
  }

  /** Pollers and clients may have gone, none has come, and no flag has changed. */
  ghost predicate Dwindled(a: View, b: View) {
    && Shifted(a.cells, b.cells) && SameFlags(a.pollers, b.pollers) && Lasting(a.clients, b.clients)
    && a.size == b.size && a.next == b.next && a.stream <= b.stream
  }

  /**
   * Later in the same run: the stream has grown, and a client that was there before is still
   * owed the same bytes and has kept all it was sent.
   */
  ghost predicate Onward(a: View, b: View) {
    && a.stream <= b.stream && a.next <= b.next && a.size == b.size
    && forall c :: c in b.clients && c < a.next ==> c in a.clients && Carries(a.clients[c], b.clients[c])
  }

  ghost predicate Continues(history0: seq<Happening>, views0: seq<View>, history: seq<Happening>, views: seq<View>) {
    && history0 <= history && |views| == |views0|
    && forall i :: 0 <= i < |views| ==> Onward(views0[i], views[i])
  }

  lemma ContinuesRefl(history: seq<Happening>, views: seq<View>)
    ensures Continues(history, views, history, views)
  {
  }

  lemma Recorded(history: seq<Happening>, views: seq<View>, last: Happening)
    ensures Continues(history, views, history + [last], views)
  {
  }

  lemma ContinuesTrans(h0: seq<Happening>, v0: seq<View>, h1: seq<Happening>, v1: seq<View>, h: seq<Happening>, v: seq<View>)
    requires Continues(h0, v0, h1, v1) && Continues(h1, v1, h, v)
    ensures Continues(h0, v0, h, v)
  {
    hide Carries;
    forall i | 0 <= i < |v| ensures Onward(v0[i], v[i]) {
      OnwardTrans(v0[i], v1[i], v[i]);
    }
  }

  lemma OnwardTrans(a: View, b: View, c: View)
    requires Onward(a, b) && Onward(b, c)
    ensures Onward(a, c)
  {
  }

  lemma DwindledOnward(a: View, b: View)
    requires Dwindled(a, b)
    ensures Onward(a, b)
  {
    hide Shifted, SameFlags;
  }

  lemma ContinuesAt(h0: seq<Happening>, views: seq<View>, i: nat, b: View, h: seq<Happening>)
    requires h0 <= h && i < |views| && Onward(views[i], b)
    ensures Continues(h0, views, h, views[i := b])
  {
  }

  ghost predicate Appended(a: View, b: View, data: seq<byte>) {
    Dwindled(a, b) && b.stream == a.stream + if |data| < a.size then data else []
  }

  lemma DwindledRefl(a: View)
    ensures Dwindled(a, a)
  {
    ShiftedRefl(a.cells);
  }

  /** Losing pollers and clients on one console upsets neither the selection nor the flags. */
  lemma StillSelected(views: seq<View>, j: nat, b: View, busy: int, active: Option<nat>, synced: bool,
                      hasMux: bool, lines: seq<bool>, muxIndex: seq<nat>)
    requires j < |views| && Dwindled(views[j], b) && Unflagged(views, busy)
    requires Selected(views, active, synced, hasMux, lines, muxIndex)
    ensures Unflagged(views[j := b], busy) && Selected(views[j := b], active, synced, hasMux, lines, muxIndex)
  {
    hide Shifted, Shows;
  }

  /** A banner on console `j` is what the history says it is. */
  lemma StillFed(views: seq<View>, history: seq<Happening>, j: nat, b: View, stamp: seq<byte>, connected: bool)
    requires j < |views| && Streams(views, history) && Appended(views[j], b, BannerText(stamp, Message(connected)))
    ensures Streams(views[j := b], history + [Banner(j, stamp, connected)])
    ensures ActiveAfter(history + [Banner(j, stamp, connected)]) == ActiveAfter(history)
  {
    hide Fed, Shifted, SameFlags, BannerText;
    FedBanner(history, j, stamp, connected);
    var after, told := views[j := b], history + [Banner(j, stamp, connected)];
    forall i | 0 <= i < |after| ensures after[i].stream == Fed(told, i, after[i].size) {
      assert views[i].stream == Fed(history, i, views[i].size);
    }
  }

  lemma SelectFirst(views: seq<View>, active: Option<nat>, i: nat, hasMux: bool, lines: seq<bool>, muxIndex: seq<nat>)
    requires Selected(views, active, false, hasMux, lines, muxIndex) && i < |muxIndex|
    requires hasMux ==> Shows(lines, muxIndex[i])
    ensures Selected(views, Some(i), false, hasMux, lines, muxIndex)
    ensures active == None ==> Selected(views, Some(i), true, hasMux, lines, muxIndex)
  {
    hide Shows;
  }

  lemma SelectOnly(views: seq<View>, i: nat, hasMux: bool, lines: seq<bool>, muxIndex: seq<nat>)
    requires Exclusive(views, Some(i)) && i < |muxIndex| && (hasMux ==> Shows(lines, muxIndex[i]))
    ensures Selected(views, Some(i), true, hasMux, lines, muxIndex)
  {
    hide Shows;
  }

  lemma StreamsSame(views: seq<View>, history: seq<Happening>, j: nat, b: View)
    requires j < |views| && Streams(views, history) && b.stream == views[j].stream && b.size == views[j].size
    ensures Streams(views[j := b], history)
  {
    hide Fed;
  }

  lemma StreamsFedNothing(views: seq<View>, history: seq<Happening>, last: Happening)
    requires Streams(views, history) && (last.Unstamped? || last.LinesFailed?)
    ensures Streams(views, history + [last]) && ActiveAfter(history + [last]) == ActiveAfter(history)
  {
    hide Fed;
    FedNothing(history, last);
  }

  lemma StreamsSaid(views: seq<View>, history: seq<Happening>, k: nat)
    requires Streams(views, history)
    ensures Streams(views, history + [Activated(k)])
  {
    hide Fed;
    FedActivated(history, k);
  }

  ghost predicate Live(v: View) {
    Distinct(v.cells) && forall k :: 0 <= k < |v.cells| ==> v.cells[k] in v.pollers
  }

  /** From cell `k` on: pollers still to be called, none flagged; none listening, if that one is behind us. */
  ghost predicate Fresh(v: View, k: nat, listened: bool) {
    forall m :: k <= m < |v.cells| ==>
      && v.cells[m] in v.pollers && !v.pollers[v.cells[m]].remove
      && (listened ==> !v.pollers[v.cells[m]].owner.ForListener?)
  }

  lemma FreshDwindles(a: View, b: View, k: nat)
    requires Fresh(a, k, true) && Dwindled(a, b) && Live(b)
    ensures Fresh(b, k, true)
  {
    forall m | k <= m < |b.cells|
      ensures b.cells[m] in b.pollers && !b.pollers[b.cells[m]].remove && !b.pollers[b.cells[m]].owner.ForListener?
    {
      var j :| 0 <= j < |a.cells[m..]| && a.cells[m..][j] == b.cells[m];
      assert a.cells[m + j] == b.cells[m];
    }
  }

  lemma FreshGrows(a: View, b: View, k: nat)
    requires Fresh(a, k, true) && |b.cells| == |a.cells| + 1 && b.cells[..|a.cells|] == a.cells
    requires forall p :: p in a.pollers ==> p in b.pollers && b.pollers[p] == a.pollers[p]
    requires b.cells[|a.cells|] in b.pollers && !b.pollers[b.cells[|a.cells|]].remove
             && b.pollers[b.cells[|a.cells|]].owner.ForClient?
    ensures Fresh(b, k, true)
  {
    forall m | k <= m < |b.cells|
      ensures b.cells[m] in b.pollers && !b.pollers[b.cells[m]].remove && !b.pollers[b.cells[m]].owner.ForListener?
    {
      if m < |a.cells| {
        assert b.cells[m] == a.cells[m];
      }
    }
  }

  lemma StillSelectedGrown(views: seq<View>, i: nat, b: View, busy: int, active: Option<nat>, synced: bool,
                           hasMux: bool, lines: seq<bool>, muxIndex: seq<nat>)
    requires i < |views| && Unflagged(views, busy) && Selected(views, active, synced, hasMux, lines, muxIndex)
    requires active.Some? && (synced ==> active == Some(i))
    requires forall p :: p in b.pollers ==> (p in views[i].pollers && b.pollers[p] == views[i].pollers[p]) || !b.pollers[p].remove
    ensures Unflagged(views[i := b], busy) && Selected(views[i := b], active, synced, hasMux, lines, muxIndex)
  {
    hide Shows;
  }

  /** No timer of this poller is due at `now`, or the poller is on its way out. */
  ghost predicate Done(x: Poller, now: Timeval) {
    x.remove || (Armed(x) ==> now.Us() < x.timeout.Us())
  }

  ghost predicate DoneTo(v: View, k: nat, now: Timeval) {
    forall m :: 0 <= m < k && m < |v.cells| ==> v.cells[m] in v.pollers && Done(v.pollers[v.cells[m]], now)
  }

  /** One more poller, at the end of the array and without a timer set. */
  ghost predicate Grown(a: View, b: View) {
    && |b.cells| == |a.cells| + 1 && b.cells[..|a.cells|] == a.cells
    && (forall p :: p in a.pollers ==> p in b.pollers && b.pollers[p] == a.pollers[p])
    && b.cells[|a.cells|] in b.pollers && !Armed(b.pollers[b.cells[|a.cells|]])
  }

  /** No timer is set at all. */
  ghost predicate Idle(v: View) {
    forall m :: 0 <= m < |v.cells| ==>
      v.cells[m] in v.pollers && (v.pollers[v.cells[m]].remove || !Armed(v.pollers[v.cells[m]]))
  }

  /** What a connection does to the timers of a console. */
  ghost predicate Calm(a: View, b: View) {
    b == a || Grown(a, b) || Idle(b)
  }

  lemma DoneCalm(a: View, b: View, k: nat, now: Timeval)
    requires DoneTo(a, k, now) && Calm(a, b) && k <= |a.cells|
    ensures DoneTo(b, k, now)
  {
    if Grown(a, b) {
      forall m | 0 <= m < k && m < |b.cells| ensures b.cells[m] in b.pollers && Done(b.pollers[b.cells[m]], now) {
        assert b.cells[m] == b.cells[..|a.cells|][m];
      }
    }
  }

  lemma IdleGrown(a: View, b: View)
    requires Idle(a) && Grown(a, b)
    ensures Idle(b)
  {
    forall m | 0 <= m < |a.cells| ensures b.cells[m] == a.cells[m] {
      assert b.cells[m] == b.cells[..|a.cells|][m];
    }
  }

  lemma CalmRefl(a: View)
    ensures Calm(a, a)
  {
  }

  lemma DoneNone(v: View, now: Timeval)
    ensures DoneTo(v, 0, now)
  {
  }

  /** The flagged pollers are gone, the others as they were. */
  ghost predicate Purged(a: View, b: View) {
    forall p :: p in b.pollers ==> p in a.pollers && b.pollers[p] == a.pollers[p] && !b.pollers[p].remove
  }

  lemma DonePurged(a: View, b: View, k: nat, now: Timeval)
    requires DoneTo(a, k, now) && |a.cells| <= k && Purged(a, b) && forall p :: p in a.pollers ==> p in a.cells
    ensures forall p :: p in b.pollers && Armed(b.pollers[p]) ==> now.Us() < b.pollers[p].timeout.Us()
  {
    forall p | p in b.pollers && Armed(b.pollers[p]) ensures now.Us() < b.pollers[p].timeout.Us() {
      assert p in a.cells;
    }
  }

  /** One callback: only its own poller has changed. */
  lemma DoneStep(a: View, b: View, k: nat, now: Timeval)
    requires DoneTo(a, k, now) && Live(a) && k < |a.cells| && b.cells == a.cells && a.cells[k] in b.pollers
    requires b.pollers == a.pollers[a.cells[k] := b.pollers[a.cells[k]]] && Done(b.pollers[a.cells[k]], now)
    ensures DoneTo(b, k + 1, now)
  {
  }

  lemma DoneListener(a: View, b: View, k: nat, now: Timeval)
    requires k < |a.cells| && a.cells[k] in a.pollers && !a.pollers[a.cells[k]].hasTimeout
    ensures DoneTo(a, k, now) && Calm(a, b) ==> DoneTo(b, k + 1, now)
  {
    hide Calm;
    if DoneTo(a, k, now) && Calm(a, b) {
      DoneCalm(a, b, k + 1, now);
    }
  }

  /** A poller's callback has run: the array is as it was, and only that poller may now be flagged. */
  ghost predicate Called(a: View, b: View, p: nat, ret: PollerRet) {
    && b.cells == a.cells && b.stream == a.stream && b.size == a.size && b.next == a.next && Lasting(a.clients, b.clients)
    && b.pollers.Keys == a.pollers.Keys
    && (forall q :: q in b.pollers ==> b.pollers[q].owner == a.pollers[q].owner)
    && (forall q :: q in b.pollers && q != p ==> b.pollers[q].remove == a.pollers[q].remove)
  }

  lemma CalledOnward(h: seq<Happening>, views: seq<View>, i: nat, b: View, p: nat, ret: PollerRet)
    requires i < |views| && Called(views[i], b, p, ret)
    ensures Continues(h, views, h, views[i := b])
  {
    ContinuesAt(h, views, i, b, h);
  }

  lemma StillSelectedCalled(views: seq<View>, i: nat, b: View, p: nat, ret: PollerRet, active: Option<nat>, synced: bool,
                            hasMux: bool, lines: seq<bool>, muxIndex: seq<nat>)
    requires i < |views| && Unflagged(views, i) && Selected(views, active, synced, hasMux, lines, muxIndex)
    requires Called(views[i], b, p, ret)
    ensures Unflagged(views[i := b], i) && Selected(views[i := b], active, synced, hasMux, lines, muxIndex)
  {
    hide Shows;
  }

  lemma FreshSame(a: View, b: View, k: nat, listened: bool)
    requires Fresh(a, k, listened) && b.cells == a.cells && b.pollers == a.pollers
    ensures Fresh(b, k, listened)
  {
  }

  lemma OnlyOnce(v: View, k: nat, listened: bool)
    requires Fresh(v, k, listened) && k < |v.cells|
    ensures v.cells[k] in v.pollers && (v.pollers[v.cells[k]].owner.ForListener? ==> !listened)
  {
  }

  lemma FreshNext(v: View, k: nat, listened: bool)
    requires Fresh(v, k, listened)
    ensures Fresh(v, k + 1, listened)
  {
  }

  /** There is one listening poller, so past its cell there is none. */
  lemma OneListener(w: World, v: View, k: nat, listened: bool)
    requires Tied(w, {}, {}) && v.pollers == w.pollers && Live(v) && Fresh(v, k, listened)
    requires k < |v.cells| && v.pollers[v.cells[k]].owner.ForListener?
    ensures Fresh(v, k + 1, true)
  {
    hide Linked, TtyLinked;
    forall m | k <= m < |v.cells| && v.pollers[v.cells[m]].owner.ForListener? ensures m == k {
      PollerOwner(w, v.cells[m]);
      PollerOwner(w, v.cells[k]);
    }
  }

  lemma FreshCalled(a: View, b: View, p: nat, ret: PollerRet, k: nat, listened: bool)
    requires Fresh(a, k, listened) && Live(a) && Called(a, b, p, ret) && k < |a.cells| && a.cells[k] == p
    ensures Fresh(b, k + 1, listened)
  {
  }

  lemma StartFresh(views: seq<View>, i: nat)
    requires i < |views| && Unflagged(views, -1) && Live(views[i])
    ensures Fresh(views[i], 0, false) && Unflagged(views, i)
  {
  }

  lemma PurgedSelected(views: seq<View>, i: nat, b: View, active: Option<nat>, synced: bool,
                       hasMux: bool, lines: seq<bool>, muxIndex: seq<nat>)
    requires i < |views| && Unflagged(views, i) && Selected(views, active, synced, hasMux, lines, muxIndex)
    requires b.clients == views[i].clients && forall p :: p in b.pollers ==> !b.pollers[p].remove
    ensures Unflagged(views[i := b], -1) && Selected(views[i := b], active, synced, hasMux, lines, muxIndex)
  {
    hide Shows;
  }

  lemma TtyFed(views: seq<View>, history: seq<Happening>, i: nat, b: View, data: seq<byte>)
    requires i < |views| && Streams(views, history) && Appended(views[i], b, data) && ActiveAfter(history) == Some(i)
    ensures Streams(views[i := b], history + [TtyRead(data)])
    ensures ActiveAfter(history + [TtyRead(data)]) == Some(i)
  {
    hide Fed, Shifted, SameFlags;
    FedTty(history, data);
    var after, told := views[i := b], history + [TtyRead(data)];
    forall j | 0 <= j < |after| ensures after[j].stream == Fed(told, j, after[j].size) {
      assert views[j].stream == Fed(history, j, views[j].size);
    }
  }

  /**
   * All that the world has in store for the server itself: answers to setting a line, what the
   * upstream tty and the bus give, and what formatting a date gives.
   */
  datatype Outside = Outside(answers: seq<bool>, inputs: seq<Input>, calls: seq<BusCall>, stamps: seq<Option<Date>>)

  /** A sleep of `ms` from `now` on, or -1 for ever, ends before every deadline and less than a millisecond before the first. */
  ghost predicate Sleeps(heap: map<nat, Poller>, now: Timeval, ms: int) {
    if ms < 0 then forall p :: p in heap ==> !Armed(heap[p])
    else
      && (forall p :: p in heap && Armed(heap[p]) ==> ms * 1000 <= Max(0, heap[p].timeout.Us() - now.Us()))
      && exists p :: p in heap && Armed(heap[p]) && Max(0, heap[p].timeout.Us() - now.Us()) < ms * 1000 + 1000
  }

  lemma SleepsWell(heap: map<nat, Poller>, now: Timeval, ms: int)
    requires ms >= -1 && (ms == -1 <==> forall p :: p in heap ==> !Armed(heap[p]))
    requires ms >= 0 ==> exists p :: p in heap && Armed(heap[p]) && Earliest(heap, heap[p].timeout)
                                     && ms == Max(0, heap[p].timeout.Us() - now.Us()) / 1000
    ensures Sleeps(heap, now, ms)
  {
    if ms >= 0 {
      var p :| p in heap && Armed(heap[p]) && Earliest(heap, heap[p].timeout)
               && ms == Max(0, heap[p].timeout.Us() - now.Us()) / 1000;
      NeverOversleeps(heap, p, now, ms);
    }
  }

  /** A connection: its descriptor, and what the kernel will answer on it. */
  datatype Arrival = Arrival(fd: nat, script: seq<Outcome>)

  /** What the kernel answers a callback that asks: accept(), recv() on a client, read() on the local tty. */
  datatype Reply = Reply(accepted: Option<Arrival>, received: Received, readable: bool)

  /** 0, 1, ... below `n`. */
  ghost function UpTo(n: nat): seq<nat> {
    if n == 0 then [] else UpTo(n - 1) + [n - 1]
  }

  lemma LastingRefl(clients: map<nat, Client>)
    ensures Lasting(clients, clients)
  {
  }

  lemma StaysRefl(clients: map<nat, Client>)
    ensures Stays(clients, clients, true)
  {
  }

  /** One section of the configuration. */
  datatype ConsoleConfig = ConsoleConfig(size: nat, sd: nat, muxIndex: nat, local: Option<LocalTty>,
                                         raw: Option<LogConfig>, lines: Option<LogConfig>)

  function MuxIndices(configs: seq<ConsoleConfig>): (indices: seq<nat>)
    ensures |indices| == |configs| && forall i :: 0 <= i < |configs| ==> indices[i] == configs[i].muxIndex
  {
    seq(|configs|, i requires 0 <= i < |configs| => configs[i].muxIndex)
  }

  /** console_server_add_consoles: the consoles, one after the other, over the shared table. */
  method BuildConsoles(table: PollTable, configs: seq<ConsoleConfig>)
    returns (consoles: seq<Console>, ghost home: map<object, nat>)
    requires table.Valid() && forall j :: j in table.holder ==> !table.holder[j].PollerOf?
    requires forall i :: 0 <= i < |configs| ==> 0 < configs[i].size
    modifies table
    ensures |consoles| == |configs| && fresh(home.Keys) && table.Valid()
    ensures forall i :: 0 <= i < |consoles| ==>
              && consoles[i].pl.me == i && consoles[i].pl.table == table
              && consoles[i].Repr() <= home.Keys && (forall o :: o in consoles[i].Repr() ==> home[o] == i)
              && consoles[i].Good({}, {}, {}) && Pristine(consoles[i].Viewed())
              && consoles[i].rb.size == configs[i].size
              && consoles[i].Configured(configs[i].local, configs[i].raw, configs[i].lines)
    ensures forall j :: j in old(table.holder) ==> j in table.holder && table.holder[j] == old(table.holder)[j]
    ensures StillHeld(old(table.slots), old(table.holder), table.slots)
  {
    hide Console.Good, Console.Repr, Backed, Console.Configured;
    consoles, home := [], map[];
    while |consoles| < |configs|
      invariant |consoles| <= |configs| && fresh(home.Keys) && table.Valid()
      invariant forall i :: 0 <= i < |consoles| ==>
                  && consoles[i].pl.me == i && consoles[i].pl.table == table
                  && consoles[i].Repr() <= home.Keys && (forall o :: o in consoles[i].Repr() ==> home[o] == i)
                  && consoles[i].Good({}, {}, {}) && Pristine(consoles[i].Viewed())
                  && consoles[i].rb.size == configs[i].size
                  && consoles[i].Configured(configs[i].local, configs[i].raw, configs[i].lines)
      invariant forall j :: j in table.holder && table.holder[j].PollerOf? ==> table.holder[j].console < |consoles|
      invariant forall j :: j in old(table.holder) ==> j in table.holder && table.holder[j] == old(table.holder)[j]
      invariant StillHeld(old(table.slots), old(table.holder), table.slots)
    {
      var k := |consoles|;
      label Before:
      ghost var slots, holder := table.slots, table.holder;
      var c := new Console(k, table, configs[k].size, configs[k].sd, configs[k].local, configs[k].raw, configs[k].lines);
      forall i | 0 <= i < k ensures consoles[i].Good({}, {}, {}) && Pristine(consoles[i].Viewed()) {
        consoles[i].Undisturbed@Before(k);
      }
      KeptStill(old(table.slots), old(table.holder), slots, holder, table.slots, table.holder, k);
      home := home + (map o | o in c.Repr() :: k);
      consoles := consoles + [c];
    }
  }

  /** The slots held at first are as they were. */
  ghost predicate StillHeld(slots0: seq<Slot>, holder0: map<nat, Holder>, slots: seq<Slot>) {
    forall j :: j in holder0 && j < |slots0| ==> j < |slots| && slots[j] == slots0[j]
  }

  lemma KeptStill(slots0: seq<Slot>, holder0: map<nat, Holder>, slots1: seq<Slot>, holder1: map<nat, Holder>,
                  slots2: seq<Slot>, holder2: map<nat, Holder>, k: nat)
    requires StillHeld(slots0, holder0, slots1) && Untouched(slots1, holder1, slots2, holder2, k)
    requires forall j :: j in holder0 ==> !holder0[j].PollerOf? && j in holder1 && holder1[j] == holder0[j]
    ensures StillHeld(slots0, holder0, slots2)
  {
  }

  ghost predicate Watches(slots: seq<Slot>, j: nat, fd: nat) {
    j < |slots| && slots[j].fd == fd && slots[j].events == POLLIN
  }

  /** A console that has just been set up. */
  ghost predicate Pristine(v: View) {
    v.stream == [] && v.clients == map[] && forall p :: p in v.pollers ==> !v.pollers[p].remove
  }

  class Server {
    const table: PollTable
    const consoles: seq<Console>
    const muxIndex: seq<nat>
    const hasMux: bool
    /** Which console an object belongs to. */
    ghost const home: map<object, nat>
    const ttySlot: nat
    const busSlot: nat
    var lines: seq<bool>
    var active: Option<nat>
    ghost var history: seq<Happening>
    /** The kernel's answers to setting a line, one attempt after the other, and how many were made. */
    const answers: seq<bool>
    var asked: nat
    /** What the upstream tty and the bus will give, and how much of it was taken. */
    const inputs: seq<Input>
    var taken: nat
    const calls: seq<BusCall>
    var served: nat
    const stamps: seq<Option<Date>>
    var stamped: nat
    const ttyFd: nat
    const busFd: nat
    /** Whose pollers were called, one walk after the other. */
    ghost var walks: seq<nat>

    /** The consoles are separate, and know their place and the shared table. */
    ghost predicate Layout() {
      && |muxIndex| == |consoles|
      && (forall i :: 0 <= i < |consoles| ==>
            consoles[i].pl.me == i && consoles[i].pl.table == table)
      && (forall i, o :: 0 <= i < |consoles| && o in consoles[i].Repr() ==> o in home && home[o] == i)
      && table !in home && this !in home
    }

    ghost predicate AllGood()
      requires Layout()
      reads home.Keys, table
    {
      forall i :: 0 <= i < |consoles| ==> consoles[i].Good({}, {}, {})
    }

    lemma Apart()
      requires Layout()
      ensures this !in home && table !in home && |muxIndex| == |consoles|
    {
    }

    lemma InHome(j: nat)
      requires Layout() && j < |consoles|
      ensures consoles[j].Repr() <= home.Keys
    {
      hide Console.Repr;
    }

    /** The upstream tty and the bus keep the slots they were given, and these watch their descriptors. */
    ghost predicate Fixed()
      reads table
    {
      && table.Valid()
      && ttySlot in table.holder && table.holder[ttySlot] == UpstreamTty && Watches(table.slots, ttySlot, ttyFd)
      && busSlot in table.holder && table.holder[busSlot] == Bus && Watches(table.slots, busSlot, busFd)
    }

    /** The consoles, as far as the server's own invariant is concerned. */
    ghost function Views(): (views: seq<View>)
      requires Layout()
      reads home.Keys
      ensures |views| == |consoles|
      ensures forall i :: 0 <= i < |consoles| ==> views[i] == consoles[i].Viewed()
    {
      seq(|consoles|, i requires 0 <= i < |consoles| reads home.Keys => consoles[i].Viewed())
    }

    /**
     * The server's invariant; `busy` is the console whose pollers are being called, or -1, and
     * `synced` whether only the active console has clients and the lines show its index.
     */
    ghost predicate Core(busy: int, synced: bool)
      reads this, home.Keys, table
    {
      && Layout() && AllGood() && Fixed()
      && Streams(Views(), history) && Unflagged(Views(), busy)
      && Selected(Views(), active, synced, hasMux, lines, muxIndex)
      && Truthful(history)
      && active == ActiveAfter(history) && (active.Some? ==> active.value < |consoles|)
      && Failures(history) == Refusals(answers, asked) && (!hasMux ==> asked == 0)
      && ReadsIn(history) == ReadsTaken(inputs, taken) && DatesIn(history) == DatesTaken(stamps, stamped)
    }

    /** It is, whenever the last attempt to switch went through. */
    ghost predicate Inv(busy: int)
      reads this, home.Keys, table
    {
      Core(busy, SyncedAfter(history))
    }

    /**
     * console_server_init: the upstream tty's slot, the bus's slot, the consoles, and the
     * first activation.  If the lines cannot be set, no console is active and the server
     * does not run.
     */
    constructor (ttyFd: nat, busFd: nat, configs: seq<ConsoleConfig>, gpios: Option<nat>, first: nat, outside: Outside)
      requires first < |configs| && forall i :: 0 <= i < |configs| ==> 0 < configs[i].size
      ensures Inv(-1) && |consoles| == |configs| && fresh(home.Keys) && fresh(table)
      ensures Outside(answers, inputs, calls, stamps) == outside && hasMux == gpios.Some?
      ensures taken == 0 && served == 0 && this.ttyFd == ttyFd && this.busFd == busFd
      ensures forall i :: 0 <= i < |consoles| ==> muxIndex[i] == configs[i].muxIndex
      ensures forall i :: 0 <= i < |consoles| ==>
                consoles[i].rb.size == configs[i].size
                && consoles[i].Configured(configs[i].local, configs[i].raw, configs[i].lines)
      ensures active == if gpios.Some? && Refuses(outside.answers, 0, gpios.value) then None else Some(first)
      ensures SyncedAfter(history) <==> active.Some?
      ensures gpios.Some? ==> |lines| == gpios.value && (active.Some? ==> asked == |lines|)
    {
      hide Console.Good, Console.Repr, Backed, Console.Configured, Streams, Selected, Unflagged, Truthful, SyncedAfter, Failures,
           ActiveAfter, ReadsIn, ReadsTaken, DatesIn, DatesTaken, Refuses, Dwindled, Continues, Pristine;
      var t := new PollTable();
      var ts := t.Request(ttyFd, POLLIN, UpstreamTty);
      var bs := t.Request(busFd, POLLIN, Bus);
      ghost var h;
      var cs;
      cs, h := BuildConsoles(t, configs);
      table, ttySlot, busSlot, consoles, home := t, ts, bs, cs, h;
      muxIndex := MuxIndices(configs);
      hasMux := gpios.Some?;
      answers, asked := outside.answers, 0;
      inputs, taken, calls, served := outside.inputs, 0, outside.calls, 0;
      stamps, stamped, walks := outside.stamps, 0, [];
      this.ttyFd, this.busFd := ttyFd, busFd;
      lines := if gpios.Some? then seq(gpios.value, _ => false) else [];
      active, history := None, [];
      new;
      StartsRight();
      var status := Activate(first, -1);
    }

    lemma StartsRight()
      requires Layout() && AllGood() && Fixed() && active == None && history == [] && asked == 0 && taken == 0 && stamped == 0
      requires forall i :: 0 <= i < |consoles| ==> Pristine(consoles[i].Viewed())
      ensures Inv(-1)
    {
      hide Console.Good, AllGood, Fixed, Layout;
      assert forall i :: 0 <= i < |Views()| ==> Pristine(Views()[i]);
    }

    /** A step of console `i` that leaves it good leaves all consoles good, and the fixed slots alone. */
    twostate lemma Steps(i: nat)
      requires Layout() && i < |consoles| && old(AllGood()) && consoles[i].Good({}, {}, {}) && old(Fixed())
      requires forall o :: o in home && home[o] != i ==> unchanged(o)
      requires Untouched(old(table.slots), old(table.holder), table.slots, table.holder, i)
      ensures AllGood() && Fixed() && Views() == old(Views())[i := consoles[i].Viewed()]
      ensures ttySlot < |table.slots| && busSlot < |table.slots| && ttySlot < |old(table.slots)| && busSlot < |old(table.slots)|
      ensures table.slots[ttySlot] == old(table.slots)[ttySlot] && table.slots[busSlot] == old(table.slots)[busSlot]
    {
      hide Console.Good, Console.Repr;
      FixedStay(old(table.slots), old(table.holder), table.slots, table.holder, i, ttySlot, busSlot);
      hide Untouched;
      forall j | 0 <= j < |consoles| && j != i
        ensures consoles[j].Good({}, {}, {}) && consoles[j].Viewed() == old(consoles[j].Viewed())
      {
        assert forall o :: o in consoles[j].Repr() ==> o in home && home[o] == j;
        assert forall o :: o in home && home[o] == j ==> unchanged(o);
        consoles[j].InRepr();
        consoles[j].Undisturbed(i);
      }
    }

    /** ringbuffer_queue on one console's ring. */
    method QueueOn(i: nat, data: seq<byte>) returns (rc: int)
      requires Layout() && i < |consoles| && AllGood() && Fixed() && |data| < BUF_SIZE
      modifies consoles[i].Repr(), table
      ensures AllGood() && Fixed() && Views() == old(Views())[i := Views()[i]]
      ensures rc == if |data| < consoles[i].rb.size then 0 else -1
      ensures Appended(old(Views()[i]), Views()[i], data) && Stays(old(Views()[i]).clients, Views()[i].clients, true)
      ensures busSlot < |table.slots| && busSlot < |old(table.slots)| && table.slots[busSlot] == old(table.slots)[busSlot]
    {
      hide Console.Good, Untouched, Backed, Shifted, SameFlags, Stays;
      ghost var forced := !Room(consoles[i].rb.consumers, consoles[i].rb.heap, |consoles[i].rb.stream|, consoles[i].rb.size, |data|);
      rc := consoles[i].Queue(data);
      if !forced {
        StaysForced(old(consoles[i].clients), consoles[i].clients);
      }
      Steps(i);
    }

    /** console_print_timestamped: a banner on one console's ring, unless the clock cannot be formatted. */
    method Announce(j: nat, message: seq<byte>, busy: int, ghost synced: bool)
      requires Core(busy, synced) && j < |consoles| && message == Message(active == Some(j))
      modifies consoles[j].Repr(), table, `history, `stamped
      ensures Core(busy, synced) && Addressed(history) == Addressed(old(history)) + [j]
      ensures history == old(history) + [Told(j, NextStamp(stamps, old(stamped)), active == Some(j))] && stamped == old(stamped) + 1
      ensures old(history) <= history && (SyncedAfter(history) <==> SyncedAfter(old(history)))
      ensures Views() == old(Views())[j := Views()[j]] && Dwindled(old(Views()[j]), Views()[j])
    {
      hide AllGood, Dwindled, Layout, Streams, Selected, Unflagged, Fixed, ActiveAfter, Truthful, Addressed, SyncedAfter,
           Failures, ReadsIn, ReadsTaken, DatesIn, DatesTaken, BannerText, Message, Told;
      var stamp := NextStamp(stamps, stamped);
      if stamp.None? {
        LeaveUntold(j, busy, synced);
      } else {
        Print(j, stamp.value, message, busy, synced);
      }
    }

    /** Nothing is printed without a date. */
    method LeaveUntold(j: nat, busy: int, ghost synced: bool)
      requires Core(busy, synced) && j < |consoles| && NextStamp(stamps, stamped) == None
      modifies `history, `stamped
      ensures Core(busy, synced) && Addressed(history) == Addressed(old(history)) + [j]
      ensures history == old(history) + [Told(j, NextStamp(stamps, old(stamped)), active == Some(j))] && stamped == old(stamped) + 1
      ensures old(history) <= history && (SyncedAfter(history) <==> SyncedAfter(old(history)))
      ensures Views() == old(Views())[j := Views()[j]] && Dwindled(old(Views()[j]), Views()[j])
    {
      hide AllGood, Dwindled, Layout, Streams, Selected, Unflagged, Fixed, ActiveAfter, Truthful, Addressed, SyncedAfter,
           Failures, ReadsIn, ReadsTaken, DatesIn;
      Apart();
      ghost var last := Unstamped(j);
      DwindledRefl(Views()[j]);
      assert Views() == Views()[j := Views()[j]];
      StreamsFedNothing(Views(), history, last);
      Tells(history, last);
      Switches(history, last);
      stamped := stamped + 1;
      history := history + [last];
    }

    /** The banner is queued. */
    method Print(j: nat, date: Date, message: seq<byte>, busy: int, ghost synced: bool)
      requires Core(busy, synced) && j < |consoles| && message == Message(active == Some(j))
      requires NextStamp(stamps, stamped) == Some(date)
      modifies consoles[j].Repr(), table, `history, `stamped
      ensures Core(busy, synced) && Addressed(history) == Addressed(old(history)) + [j]
      ensures history == old(history) + [Told(j, NextStamp(stamps, old(stamped)), active == Some(j))] && stamped == old(stamped) + 1
      ensures old(history) <= history && (SyncedAfter(history) <==> SyncedAfter(old(history)))
      ensures Views() == old(Views())[j := Views()[j]] && Dwindled(old(Views()[j]), Views()[j])
    {
      hide AllGood, Dwindled, Layout, Streams, Selected, Unflagged, Fixed, ActiveAfter, Truthful, Addressed, SyncedAfter,
           Failures, ReadsIn, ReadsTaken, DatesIn, Stays;
      Apart();
      var text := BannerText(date, message);
      var _ := QueueOn(j, text);
      ghost var last := Banner(j, date, active == Some(j));
      StillSelected(old(Views()), j, Views()[j], busy, active, synced, hasMux, lines, muxIndex);
      StillFed(old(Views()), history, j, Views()[j], date, active == Some(j));
      Tells(history, last);
      Switches(history, last);
      stamped := stamped + 1;
      history := history + [last];
    }

    /** The deselect callback of console `j`: its clients are flushed and closed. */
    method DeselectOn(j: nat, busy: int, ghost synced: bool) returns (ghost gone: map<nat, Client>)
      requires Core(busy, synced) && j < |consoles|
      modifies consoles[j].Repr(), table
      ensures Core(busy, synced)
      ensures Views() == old(Views())[j := Views()[j]] && Dwindled(old(Views()[j]), Views()[j])
      ensures Views()[j].clients == map[] && gone.Keys == old(Views()[j]).clients.Keys
      ensures forall c :: c in gone ==> consoles[j].Parted(old(Views()[j]).clients[c], gone[c], Views()[j].stream)
    {
      hide Console.Parted, Console.Good, Shifted, SameFlags, Untouched, Backed, Streams, Selected, Unflagged, ActiveAfter, Truthful, Failures, Lasting, ReadsIn, ReadsTaken, DatesIn, DatesTaken;
      gone := consoles[j].Deselect();
      Steps(j);
      StillSelected(old(Views()), j, Views()[j], busy, active, synced, hasMux, lines, muxIndex);
      StreamsSame(old(Views()), history, j, Views()[j]);
    }

    /** console_mux_set_lines: line k gets bit k of the index; it stops at the first line that cannot be set. */
    method SetLines(i: nat) returns (status: int)
      requires i < |muxIndex|
      modifies `lines, `asked
      ensures |lines| == |old(lines)|
      ensures status == if Refuses(answers, old(asked), |lines|) then -1 else 0
      ensures status == 0 ==> Shows(lines, muxIndex[i]) && asked == old(asked) + |lines|
      ensures Refusals(answers, asked) == Refusals(answers, old(asked)) + if status == 0 then 0 else 1
    {
      hide Bit;
      for k := 0 to |lines|
        invariant |lines| == |old(lines)| && asked == old(asked) + k
        invariant forall m :: 0 <= m < k ==> lines[m] == Bit(muxIndex[i], m)
        invariant forall m :: old(asked) <= m < asked ==> Accepts(answers, m)
        invariant Refusals(answers, asked) == Refusals(answers, old(asked))
      {
        var accepted := Accepts(answers, asked);
        asked := asked + 1;
        if !accepted {
          return -1;
        }
        lines := lines[k := Bit(muxIndex[i], k)];
      }
      return 0;
    }

    /** The loop of console_mux_activate: every other console is told, then emptied of clients. */
    method DisconnectOthers(i: nat, busy: int)
      requires Core(busy, false) && i < |consoles| && active == Some(i)
      modifies home.Keys, table, `history, `stamped
      ensures Core(busy, false) && Exclusive(Views(), Some(i)) && Views()[i] == old(Views()[i])
      ensures Addressed(history) == Addressed(old(history)) + Others(i, |consoles|)
      ensures SyncedAfter(history) <==> SyncedAfter(old(history))
      ensures Continues(old(history), old(Views()), history, Views())
    {
      hide AllGood, Dwindled, Layout, Streams, Selected, Unflagged, Fixed, ActiveAfter, Truthful, Addressed, SyncedAfter,
           Failures, Onward, Continues, ReadsIn, ReadsTaken, DatesIn, DatesTaken;
      Apart();
      ContinuesRefl(history, Views());
      for j := 0 to |consoles|
        invariant Core(busy, false) && Views()[i] == old(Views()[i])
        invariant Addressed(history) == Addressed(old(history)) + Others(i, j)
        invariant SyncedAfter(history) <==> SyncedAfter(old(history))
        invariant Continues(old(history), old(Views()), history, Views())
        invariant forall m :: 0 <= m < j && m != i ==> Views()[m].clients == map[]
      {
        if j != i {
          InHome(j);
          ghost var h, v := history, Views();
          TellAndDeselect(j, busy);
          ContinuesTrans(old(history), old(Views()), h, v, history, Views());
        }
      }
    }

    /** One turn of it. */
    method TellAndDeselect(j: nat, busy: int)
      requires Core(busy, false) && j < |consoles| && active.Some? && active != Some(j)
      modifies consoles[j].Repr(), table, `history, `stamped
      ensures Core(busy, false) && Addressed(history) == Addressed(old(history)) + [j]
      ensures SyncedAfter(history) <==> SyncedAfter(old(history))
      ensures Views() == old(Views())[j := Views()[j]] && Views()[j].clients == map[]
      ensures Continues(old(history), old(Views()), history, Views())
    {
      hide AllGood, Dwindled, Layout, Streams, Selected, Unflagged, Fixed, ActiveAfter, Truthful, Addressed, SyncedAfter,
           Failures, Onward, Continues, ReadsIn, ReadsTaken, DatesIn, DatesTaken;
      Apart();
      Announce(j, DISCONNECTED, busy, false);
      ghost var v := Views();
      DwindledOnward(old(Views()[j]), v[j]);
      ghost var gone := DeselectOn(j, busy, false);
      DwindledOnward(v[j], Views()[j]);
      OnwardTrans(old(Views()[j]), v[j], Views()[j]);
      ContinuesAt(old(history), old(Views()), j, Views()[j], history);
    }

    /** The lines have been set for console `i`, or the attempt recorded. */
    method TryLines(i: nat, busy: int) returns (status: int)
      requires Core(busy, false) && i < |consoles|
      modifies `lines, `asked, `history
      ensures Core(busy, false) && Views() == old(Views()) && |lines| == |old(lines)|
      ensures status == if hasMux && Refuses(answers, old(asked), |lines|) then -1 else 0
      ensures status == 0 && hasMux ==> asked == old(asked) + |lines|
      ensures if status == 0 then history == old(history) && (hasMux ==> Shows(lines, muxIndex[i]))
              else history == old(history) + [LinesFailed(i)] && !SyncedAfter(history)
    {
      hide AllGood, Layout, Streams, Unflagged, Fixed, ActiveAfter, Shows, Truthful, SyncedAfter, Failures, Refusals, Refuses, ReadsIn, ReadsTaken, DatesIn, DatesTaken;
      Apart();
      status := 0;
      if hasMux {
        status := SetLines(i);
        if status != 0 {
          StreamsFedNothing(Views(), history, LinesFailed(i));
          Tells(history, LinesFailed(i));
          Switches(history, LinesFailed(i));
          history := history + [LinesFailed(i)];
        }
      }
    }

    /**
     * console_mux_activate.  It fails exactly when another console is active and the kernel
     * refuses one of the lines.
     */
    method Activate(i: nat, busy: int) returns (status: int)
      requires Inv(busy) && i < |consoles|
      modifies this, home.Keys, table
      ensures Inv(busy) && Dwindled(old(Views()[i]), Views()[i])
      ensures taken == old(taken) && served == old(served) && walks == old(walks)
      ensures Continues(old(history), old(Views()), history, Views())
      ensures status == if old(active) != Some(i) && hasMux && Refuses(answers, old(asked), |old(lines)|) then -1 else 0
      ensures status == -1 ==> active == old(active) && Views() == old(Views()) && history == old(history) + [LinesFailed(i)]
      ensures status == -1 ==> !SyncedAfter(history)
      ensures status == 0 ==> active == Some(i)
      ensures |lines| == |old(lines)| && (status == 0 && old(active) != Some(i) && hasMux ==> asked == old(asked) + |lines|)
      ensures status == 0 && old(active) == Some(i) ==>
                Views() == old(Views()) && lines == old(lines) && history == old(history)
      ensures status == 0 && old(active) != Some(i) ==>
                && SyncedAfter(history)
                && Addressed(history) == Addressed(old(history)) + if old(active) == None then [] else Others(i, |consoles|) + [i]
    {
      hide AllGood, Dwindled, Layout, Streams, Unflagged, Fixed, ActiveAfter, Shows, Truthful, Addressed, SyncedAfter, Failures,
           Onward, Continues, Refuses, ReadsIn, ReadsTaken, DatesIn, DatesTaken;
      Apart();
      DwindledRefl(Views()[i]);
      ContinuesRefl(history, Views());
      if active == Some(i) {
        return 0;
      }
      status := TryLines(i, busy);
      if status == 0 {
        Switch(i, busy);
      } else {
        Recorded(old(history), Views(), LinesFailed(i));
      }
    }

    /** The active console changes; the very first one has nobody to be exclusive against. */
    method SetActive(i: nat, busy: int)
      requires Core(busy, false) && i < |consoles|
      requires hasMux ==> Shows(lines, muxIndex[i])
      modifies `active, `history
      ensures Core(busy, old(active) == None) && Views() == old(Views()) && active == Some(i)
      ensures history == old(history) + [Activated(i)] && SyncedAfter(history)
      ensures Addressed(history) == Addressed(old(history))
    {
      hide AllGood, Layout, Streams, Unflagged, Fixed, ActiveAfter, Shows, Selected, Truthful, Addressed, SyncedAfter, Failures, ReadsIn, ReadsTaken, DatesIn, DatesTaken;
      Apart();
      SelectFirst(Views(), active, i, hasMux, lines, muxIndex);
      FedActivated(history, i);
      StreamsSaid(Views(), history, i);
      Tells(history, Activated(i));
      Switches(history, Activated(i));
      active := Some(i);
      history := history + [Activated(i)];
    }

    /** The rest of console_mux_activate, once the lines are set. */
    method Switch(i: nat, busy: int)
      requires Core(busy, false) && i < |consoles| && active != Some(i)
      requires hasMux ==> Shows(lines, muxIndex[i])
      modifies `active, `history, `stamped, home.Keys, table
      ensures Inv(busy) && Dwindled(old(Views()[i]), Views()[i]) && active == Some(i) && SyncedAfter(history)
      ensures Continues(old(history), old(Views()), history, Views())
      ensures Addressed(history) == Addressed(old(history)) + if old(active) == None then [] else Others(i, |consoles|) + [i]
    {
      hide AllGood, Dwindled, Layout, Streams, Unflagged, Fixed, ActiveAfter, Shows, Selected, Truthful, Addressed, SyncedAfter,
           Failures, Onward, Continues, ReadsIn, ReadsTaken, DatesIn, DatesTaken;
      Apart();
      DwindledRefl(Views()[i]);
      var firstActivation := active == None;
      Recorded(history, Views(), Activated(i));
      SetActive(i, busy);
      if firstActivation {
        return;
      }
      ghost var h, v := history, Views();
      DisconnectOthers(i, busy);
      ContinuesTrans(old(history), v, h, v, history, Views());
      h, v := history, Views();
      InHome(i);
      SelectOnly(Views(), i, hasMux, lines, muxIndex);
      Announce(i, CONNECTED, busy, true);
      DwindledOnward(v[i], Views()[i]);
      ContinuesAt(h, v, i, Views()[i], history);
      ContinuesTrans(old(history), old(Views()), h, v, history, Views());
    }

    /** A console's array of pollers points at its pollers, each once. */
    lemma CellsAll(i: nat)
      requires Layout() && AllGood() && i < |consoles|
      ensures forall p :: p in Views()[i].pollers ==> p in Views()[i].cells
    {
      hide Tied, Awake, RingBuffer.Valid, Console.LogsOk, Console.TtyOk, Holds, AllNormal;
      var c := consoles[i];
      assert c.Good({}, {}, {});
    }

    lemma CellsLive(i: nat)
      requires Layout() && AllGood() && i < |consoles|
      ensures Live(Views()[i])
    {
      hide Tied, Awake, RingBuffer.Valid, Console.LogsOk, Console.TtyOk, Holds, AllNormal;
      var c := consoles[i];
      assert c.Good({}, {}, {});
    }

    /** A console without clients has no timer to run. */
    lemma EmptyIdle(i: nat, before: View)
      requires Layout() && AllGood() && i < |consoles| && before.clients == map[] && Dwindled(before, Views()[i])
      ensures Idle(Views()[i])
    {
      hide Awake, RingBuffer.Valid, Console.LogsOk, Console.TtyOk, AllNormal, Linked, TtyLinked, Shifted, SameFlags;
      CellsLive(i);
      var con := consoles[i];
      assert con.Good({}, {}, {});
      forall p | p in con.pl.heap && !con.pl.heap[p].remove ensures !Armed(con.pl.heap[p]) {
        PollerOwner(con.W(), p);
      }
    }

    /** Client `c` of console `i` has just connected, and is owed what is queued from now on. */
    ghost predicate Joins(i: nat, c: nat)
      requires i < |consoles|
      reads consoles[i], consoles[i].rb
    {
      c in consoles[i].clients && consoles[i].clients[c].wire.sent == []
      && consoles[i].clients[c].since == |consoles[i].rb.stream|
    }

    /** The client structures socket_poll and dbus_create_socket_consumer end by setting up. */
    method AddClientOn(i: nat, fd: nat, script: seq<Outcome>, busy: int, ghost k: nat) returns (c: nat)
      requires Inv(busy) && i < |consoles| && active.Some? && (SyncedAfter(history) ==> active == Some(i))
      requires Fresh(Views()[i], k, true)
      modifies consoles[i].Repr(), table
      ensures Inv(busy) && Fresh(Views()[i], k, true) && Joins(i, c) && c in Views()[i].clients
      ensures Grown(old(Views()[i]), Views()[i])
      ensures Views() == old(Views())[i := Views()[i]] && Onward(old(Views()[i]), Views()[i])
    {
      hide Console.Good, Untouched, Backed, Streams, Selected, Unflagged, ActiveAfter, Fresh, Truthful, SyncedAfter, Failures, ReadsIn, ReadsTaken, DatesIn, DatesTaken;
      c := consoles[i].AddClient(fd, script);
      Steps(i);
      FreshGrows(old(Views()[i]), Views()[i], k);
      StreamsSame(old(Views()), history, i, Views()[i]);
      StillSelectedGrown(old(Views()), i, Views()[i], busy, active, SyncedAfter(history), hasMux, lines, muxIndex);
    }

    /**
     * socket_poll: a connection switches the mux to this console, then becomes one of its
     * clients.  `accepted` is the descriptor accept() gives, if any, and what the kernel will
     * answer on it.
     */
    method SocketPoll(i: nat, revents: int, accepted: Option<Arrival>, busy: int, ghost k: nat)
      requires Inv(busy) && i < |consoles| && active.Some? && Fresh(Views()[i], k, true)
      modifies this, home.Keys, table
      ensures Inv(busy) && active.Some? && Fresh(Views()[i], k, true) && walks == old(walks)
      ensures taken == old(taken) && served == old(served)
      ensures Continues(old(history), old(Views()), history, Views())
      ensures SyncedAfter(old(history)) || old(active) == Some(i) ==> Calm(old(Views()[i]), Views()[i])
      ensures HasIn(revents) && accepted.Some? ==> exists c :: Joins(i, c)
      ensures !HasIn(revents) || accepted.None? ==> Views() == old(Views()) && history == old(history) && active == old(active)
    {
      hide AllGood, Layout, Streams, Selected, Unflagged, Fixed, ActiveAfter, Dwindled, Fresh, Truthful, SyncedAfter, Failures,
           Continues, Onward, Refuses, Exclusive, Joins, Grown, Idle, ReadsIn, ReadsTaken, DatesIn, DatesTaken;
      ContinuesRefl(history, Views());
      if !HasIn(revents) {
        return;
      }
      if accepted.None? {
        return;
      }
      var c := Connect(i, accepted.value, busy, k);
    }

    /**
     * A new client of console `i`, from accept() or over the bus.  A failed switch does not
     * stop it: from a state in sync with the mux, exclusivity then holds exactly when the
     * switch went through, that is, unless another console was active and the kernel refused
     * one of the lines.
     */
    method Connect(i: nat, arrival: Arrival, busy: int, ghost k: nat) returns (c: nat)
      requires Inv(busy) && i < |consoles| && active.Some? && Fresh(Views()[i], k, true)
      modifies this, home.Keys, table
      ensures Inv(busy) && active.Some? && Fresh(Views()[i], k, true) && Joins(i, c) && walks == old(walks)
      ensures taken == old(taken) && served == old(served)
      ensures Continues(old(history), old(Views()), history, Views())
      ensures SyncedAfter(old(history)) || old(active) == Some(i) ==> Calm(old(Views()[i]), Views()[i])
      ensures var refused := old(active) != Some(i) && hasMux && Refuses(answers, old(asked), |old(lines)|);
              && active == (if refused then old(active) else Some(i))
              && (SyncedAfter(old(history)) ==> (Exclusive(Views(), active) <==> !refused))
    {
      hide AllGood, Layout, Streams, Unflagged, Fixed, ActiveAfter, Dwindled, Fresh, Truthful, Joins, SyncedAfter, Failures,
           Continues, Onward, Refuses, Shows, Grown, Idle, ReadsIn, ReadsTaken, DatesIn, DatesTaken;
      var status := Activate(i, busy);
      ghost var h, v := history, Views();
      if SyncedAfter(old(history)) && old(active) != Some(i) {
        EmptyIdle(i, old(Views()[i]));
      }
      CellsLive(i);
      FreshDwindles(old(Views()[i]), Views()[i], k);
      InHome(i);
      Apart();
      c := AddClientOn(i, arrival.fd, arrival.script, busy, k);
      if Idle(v[i]) {
        IdleGrown(v[i], Views()[i]);
      }
      ContinuesAt(h, v, i, Views()[i], history);
      ContinuesTrans(old(history), old(Views()), h, v, history, Views());
    }

    /** call_pollers on a client's poller that has events: client_poll, and the flag if it says so. */
    method ClientEvent(i: nat, p: nat, c: nat, revents: int, received: Received) returns (ret: PollerRet)
      requires Inv(i) && i < |consoles| && p in consoles[i].pl.heap
      requires c in consoles[i].clients && Linked(consoles[i].W(), c, {}, {}) && consoles[i].clients[c].poller == Some(p)
      modifies consoles[i].Repr(), table
      ensures Inv(i) && Called(old(Views()[i]), Views()[i], p, ret) && Views() == old(Views())[i := Views()[i]]
      ensures ret == PollerOk ==> consoles[i].pl.heap == old(consoles[i].pl.heap)
      ensures ret == PollerRemove ==> p in Views()[i].pollers && Views()[i].pollers[p].remove
      ensures Views()[i].pollers == old(Views()[i].pollers)[p := Views()[i].pollers[p]]
      ensures HasIn(revents) && received.Hangup? ==> ret == PollerRemove && c !in consoles[i].clients
      ensures HasIn(revents) && received.NothingYet? ==> ret == PollerOk && Views() == old(Views())
      ensures ret == PollerOk && HasOut(revents) && (!HasIn(revents) || received.Bytes?) ==>
                consoles[i].Drained(c, old(consoles[i].clients[c].wire))
      ensures ret == PollerRemove ==>
                (HasIn(revents) && received.Hangup?) || (HasOut(revents) && Faulty(old(consoles[i].clients[c].wire.script), false))
    {
      hide Untouched, Backed, Streams, Selected, Unflagged, ActiveAfter, Truthful, SyncedAfter, Failures, Lasting, ReadsIn,
           ReadsTaken, DatesIn, DatesTaken, Console.Good, Linked, Faulty, Console.Drained;
      ret := consoles[i].CallClient(c, p, revents, received);
      Steps(i);
      StillSelectedCalled(old(Views()), i, Views()[i], p, ret, active, SyncedAfter(history), hasMux, lines, muxIndex);
      StreamsSame(old(Views()), history, i, Views()[i]);
    }

    /** The same for the local tty's poller: tty_poll. */
    method TtyEvent(i: nat, p: nat, revents: int, readable: bool) returns (ret: PollerRet)
      requires Inv(i) && i < |consoles| && p in consoles[i].pl.heap
      requires TtyLinked(consoles[i].W(), {}, {}) && consoles[i].tty.poller == p
      modifies consoles[i].Repr(), table
      ensures Inv(i) && Called(old(Views()[i]), Views()[i], p, ret) && Views() == old(Views())[i := Views()[i]]
      ensures ret == PollerOk ==> consoles[i].pl.heap == old(consoles[i].pl.heap)
      ensures ret == PollerRemove ==> p in Views()[i].pollers && Views()[i].pollers[p].remove
      ensures Views()[i].pollers == old(Views()[i].pollers)[p := Views()[i].pollers[p]]
      ensures HasIn(revents) && !readable ==> ret == PollerRemove
      ensures ret == PollerOk && HasOut(revents) ==> consoles[i].TtyDrained(old(consoles[i].tty.wire))
    {
      hide Untouched, Backed, Streams, Selected, Unflagged, ActiveAfter, Truthful, SyncedAfter, Failures, Lasting, ReadsIn,
           ReadsTaken, DatesIn, DatesTaken, Console.Good, TtyLinked, Console.TtyDrained;
      LastingRefl(consoles[i].clients);
      ret := consoles[i].CallTty(p, revents, readable);
      Steps(i);
      StillSelectedCalled(old(Views()), i, Views()[i], p, ret, active, SyncedAfter(history), hasMux, lines, muxIndex);
      StreamsSame(old(Views()), history, i, Views()[i]);
    }

    /** call_pollers on an expired timer: clear it, client_timeout, and the flag if it says so. */
    method ClientTimer(i: nat, p: nat, c: nat) returns (ret: PollerRet)
      requires Inv(i) && i < |consoles| && p in consoles[i].pl.heap
      requires c in consoles[i].clients && Linked(consoles[i].W(), c, {}, {}) && consoles[i].clients[c].poller == Some(p)
      modifies consoles[i].Repr(), table
      ensures Inv(i) && Called(old(Views()[i]), Views()[i], p, ret) && Views() == old(Views())[i := Views()[i]]
      ensures p in Views()[i].pollers && Views()[i].pollers == old(Views()[i].pollers)[p := Views()[i].pollers[p]]
      ensures ret == PollerOk ==> Expired(i, c)
      ensures if ret == PollerOk then Views()[i].pollers[p].timeout == CLEARED
              else Views()[i].pollers[p].remove && Faulty(old(consoles[i].clients[c].wire.script), false)
    {
      hide Untouched, Backed, Streams, Selected, Unflagged, ActiveAfter, Truthful, SyncedAfter, Failures, Lasting, ReadsIn, ReadsTaken, DatesIn, DatesTaken, Console.Good, Linked;
      ret := consoles[i].ExpireTimer(c, p);
      Steps(i);
      StillSelectedCalled(old(Views()), i, Views()[i], p, ret, active, SyncedAfter(history), hasMux, lines, muxIndex);
      StreamsSame(old(Views()), history, i, Views()[i]);
    }

    /** What call_pollers knows of the poller in cell `k`. */
    lemma OwnerAt(i: nat, k: nat, listened: bool)
      requires Layout() && AllGood() && i < |consoles|
      requires k < |consoles[i].pl.pollers| && Fresh(Views()[i], k, listened)
      ensures Live(Views()[i])
      ensures var c := consoles[i];
              var p := c.pl.pollers[k];
              && p in c.pl.heap && !c.pl.heap[p].remove && c.pl.heap[p].slot < |table.slots|
              && match c.pl.heap[p].owner
                 case ForClient(b) => b in c.clients && Linked(c.W(), b, {}, {}) && c.clients[b].poller == Some(p)
                 case ForTty => TtyLinked(c.W(), {}, {}) && c.tty != null && c.tty.poller == p && !c.pl.heap[p].hasTimeout
                 case ForListener => c.listener == p && !c.pl.heap[p].hasTimeout && Fresh(Views()[i], k + 1, true)
                 case _ => false
    {
      hide Awake, RingBuffer.Valid, Console.LogsOk, Console.TtyOk, AllNormal, Linked, TtyLinked;
      CellsLive(i);
      var c := consoles[i];
      var p := c.pl.pollers[k];
      assert c.Good({}, {}, {});
      hide Listed;
      PollerOwner(c.W(), p);
      if c.pl.heap[p].owner.ForListener? {
        OneListener(c.W(), Views()[i], k, listened);
      }
    }

    /**
     * The event half of call_pollers' loop body: without events nothing happens; otherwise the
     * poller's callback runs, on the events of its own slot.
     */
    method CallEvent(i: nat, k: nat, reply: Reply, ghost listened: bool) returns (ret: PollerRet)
      requires Inv(i) && i < |consoles| && active.Some?
      requires k < |consoles[i].pl.pollers| && Fresh(Views()[i], k, listened)
      requires consoles[i].pl.pollers[k] in consoles[i].pl.heap
      modifies this, home.Keys, table
      ensures Inv(i) && active.Some? && Continues(old(history), old(Views()), history, Views()) && walks == old(walks)
      ensures taken == old(taken) && served == old(served)
      ensures EventRan(i, k, ret, reply)
      ensures var listener := old(consoles[i].pl.heap[consoles[i].pl.pollers[k]].owner.ForListener?);
              && Fresh(Views()[i], k + 1, listened || listener)
              && (listener ==> ret == PollerOk)
              && (listener && (SyncedAfter(old(history)) || old(active) == Some(i)) ==> Calm(old(Views()[i]), Views()[i]))
              && (!listener ==> Stepped(i, k) && consoles[i].pl.pollers == old(consoles[i].pl.pollers))
              && (!listener && ret == PollerOk ==> consoles[i].pl.heap == old(consoles[i].pl.heap))
              && (!listener && ret == PollerRemove ==> Views()[i].pollers[old(consoles[i].pl.pollers[k])].remove)
    {
      hide AllGood, Layout, Streams, Selected, Unflagged, Fixed, ActiveAfter, Fresh, Linked, TtyLinked, Live, Truthful,
           SyncedAfter, Failures, Continues, Calm, ReadsIn, ReadsTaken, DatesIn, DatesTaken, Joins, Faulty;
      ContinuesRefl(history, Views());
      CalmRefl(Views()[i]);
      OwnerAt(i, k, listened);
      InHome(i);
      Apart();
      FreshNext(Views()[i], k, listened);
      var c := consoles[i];
      var p := c.pl.pollers[k];
      ret := PollerOk;
      var revents := table.slots[c.pl.heap[p].slot].revents;
      if revents != 0 {
        match c.pl.heap[p].owner {
          case ForListener =>
            SocketPoll(i, revents, reply.accepted, i, k + 1);
            return;
          case ForClient(b) =>
            ret := ClientEvent(i, p, b, revents, reply.received);
          case ForTty =>
            ret := TtyEvent(i, p, revents, reply.readable);
        }
        FreshCalled(old(Views()[i]), Views()[i], p, ret, k, listened);
        CalledOnward(history, old(Views()), i, Views()[i], p, ret);
      }
    }

    /** Nothing beyond console `i` has changed, and of its pollers only the one in cell `k`. */
    twostate predicate Stepped(i: nat, k: nat)
      requires Layout() && i < |consoles|
      requires k < |old(consoles[i].pl.pollers)|
      reads this, home.Keys
    {
      var p := old(consoles[i].pl.pollers[k]);
      && history == old(history) && active == old(active) && p in Views()[i].pollers
      && Views() == old(Views())[i := Views()[i]] && Lasting(old(Views()[i]).clients, Views()[i].clients)
      && Views()[i].stream == old(Views()[i]).stream
      && Views()[i].pollers == old(Views()[i].pollers)[p := Views()[i].pollers[p]]
    }

    /** What the callback of the poller in cell `k` owes to the events in its slot and to the kernel's reply. */
    twostate predicate EventRan(i: nat, k: nat, ret: PollerRet, reply: Reply)
      requires Layout() && i < |consoles|
      requires k < |old(consoles[i].pl.pollers)| && old(consoles[i].pl.pollers[k]) in old(consoles[i].pl.heap)
      requires old(consoles[i].pl.heap[consoles[i].pl.pollers[k]].slot) < |old(table.slots)|
      reads this, home.Keys
    {
      var con := consoles[i];
      var p := old(con.pl.pollers[k]);
      var revents := old(table.slots[con.pl.heap[p].slot].revents);
      && (revents == 0 ==> ret == PollerOk && Views() == old(Views()) && history == old(history) && active == old(active))
      && (ret == PollerRemove ==> p in Views()[i].pollers && Views()[i].pollers[p].remove)
      && match old(con.pl.heap[p].owner)
         case ForListener => HasIn(revents) && reply.accepted.Some? ==> exists c :: Joins(i, c)
         case ForTty =>
           && (HasIn(revents) && !reply.readable ==> ret == PollerRemove)
           && (HasOut(revents) && ret == PollerOk && con.tty != null ==> con.TtyDrained(old(con.tty.wire)))
         case ForClient(c) =>
           && (HasIn(revents) && reply.received.Hangup? ==> ret == PollerRemove && c !in con.clients)
           && (HasIn(revents) && reply.received.NothingYet? ==> ret == PollerOk && Views() == old(Views()))
           && (HasOut(revents) && (!HasIn(revents) || reply.received.Bytes?) && ret == PollerOk ==>
                 c in old(con.clients) && con.Drained(c, old(con.clients)[c].wire))
           && (ret == PollerRemove && !(HasIn(revents) && reply.received.Hangup?) ==>
                 HasOut(revents) && c in old(con.clients) && Faulty(old(con.clients)[c].wire.script, false))
         case _ => true
    }

    /** What an expired timer owes its client: it is drained, unless it waits for POLLOUT anyway. */
    twostate predicate Expired(i: nat, c: nat)
      requires i < |consoles|
      reads this, consoles[i], consoles[i].rb
    {
      c in old(consoles[i].clients) &&
      var k := old(consoles[i].clients)[c];
      if k.blocked then consoles[i].clients == old(consoles[i].clients) && consoles[i].rb.heap == old(consoles[i].rb.heap)
      else consoles[i].Drained(c, k.wire)
    }

    /**
     * The timer half: exactly if the poller's deadline has come, its timer is cleared and its
     * client flushed, or the client is closed for a fault of the kernel and the poller flagged.
     */
    method CallTimer(i: nat, k: nat, now: Timeval, ghost listened: bool)
      requires Inv(i) && i < |consoles| && now.Normal()
      requires k < |consoles[i].pl.pollers| && Fresh(Views()[i], k, listened)
      requires consoles[i].pl.pollers[k] in consoles[i].pl.heap
      modifies consoles[i].Repr(), table
      ensures Inv(i) && Fresh(Views()[i], k + 1, listened) && Continues(history, old(Views()), history, Views())
      ensures consoles[i].pl.pollers == old(consoles[i].pl.pollers) && Stepped(i, k)
      ensures var p := old(consoles[i].pl.pollers[k]);
              var x := old(consoles[i].pl.heap)[p];
              if Armed(x) && x.timeout.Us() <= now.Us() then
                && x.owner.ForClient? && p in Views()[i].pollers
                && (Views()[i].pollers[p].remove || (Expired(i, x.owner.id) && !Views()[i].pollers[p].timeout.IsSet()))
              else Views() == old(Views()) && consoles[i].Same() && table.slots == old(table.slots)
    {
      hide AllGood, Layout, Streams, Selected, Unflagged, Fixed, ActiveAfter, Fresh, Linked, TtyLinked, Live, Truthful,
           SyncedAfter, Failures, Continues, ReadsIn, ReadsTaken, DatesIn, DatesTaken, Expired;
      ContinuesRefl(history, Views());
      OwnerAt(i, k, listened);
      FreshNext(Views()[i], k, listened);
      var p := consoles[i].pl.pollers[k];
      var x := consoles[i].pl.heap[p];
      NormalAt(i, p);
      BeforeIsEarlier(now, x.timeout);
      if Armed(x) && !now.Before(x.timeout) {
        FireTimer(i, k, x.owner.id, listened);
      } else {
        assert Views() == Views()[i := Views()[i]];
      }
    }

    /** A timer that is due. */
    method FireTimer(i: nat, k: nat, c: nat, ghost listened: bool)
      requires Inv(i) && i < |consoles|
      requires k < |consoles[i].pl.pollers| && Fresh(Views()[i], k, listened) && Live(Views()[i])
      requires consoles[i].pl.pollers[k] in consoles[i].pl.heap && c in consoles[i].clients
      requires Linked(consoles[i].W(), c, {}, {}) && consoles[i].clients[c].poller == Some(consoles[i].pl.pollers[k])
      modifies consoles[i].Repr(), table
      ensures Inv(i) && Fresh(Views()[i], k + 1, listened) && Continues(history, old(Views()), history, Views())
      ensures consoles[i].pl.pollers == old(consoles[i].pl.pollers) && Stepped(i, k)
      ensures var p := old(consoles[i].pl.pollers[k]);
              && p in Views()[i].pollers
              && (Views()[i].pollers[p].remove || (Expired(i, c) && !Views()[i].pollers[p].timeout.IsSet()))
    {
      hide AllGood, Layout, Streams, Selected, Unflagged, Fixed, ActiveAfter, Fresh, Linked, TtyLinked, Live, Truthful,
           SyncedAfter, Failures, Continues, ReadsIn, ReadsTaken, DatesIn, DatesTaken, Faulty, Expired;
      var p := consoles[i].pl.pollers[k];
      var ret := ClientTimer(i, p, c);
      FreshCalled(old(Views()[i]), Views()[i], p, ret, k, listened);
      CalledOnward(history, old(Views()), i, Views()[i], p, ret);
    }

    lemma NormalAt(i: nat, p: nat)
      requires Layout() && AllGood() && i < |consoles| && p in consoles[i].pl.heap
      ensures consoles[i].pl.heap[p].timeout.Normal()
    {
      hide Tied, Awake, RingBuffer.Valid, Console.LogsOk, Console.TtyOk, Listed, Holds;
      var c := consoles[i];
      assert c.Good({}, {}, {});
    }

    /** The body of call_pollers' loop: afterwards this poller is done, unless it was a listener that shifted the array. */
    method CallOne(i: nat, k: nat, now: Timeval, reply: Reply, ghost listened: bool)
      requires Inv(i) && i < |consoles| && active.Some? && now.Normal()
      requires k < |consoles[i].pl.pollers| && Fresh(Views()[i], k, listened)
      requires consoles[i].pl.pollers[k] in consoles[i].pl.heap
      modifies this, home.Keys, table
      ensures Inv(i) && active.Some? && Continues(old(history), old(Views()), history, Views()) && walks == old(walks)
      ensures taken == old(taken) && served == old(served)
      ensures var listener := old(consoles[i].pl.heap[consoles[i].pl.pollers[k]].owner.ForListener?);
              && Fresh(Views()[i], k + 1, listened || listener)
              && (!listener ==> history == old(history) && active == old(active))
              && (!listener ==> consoles[i].pl.pollers == old(consoles[i].pl.pollers))
      ensures EventSeen(i, k, reply)
      ensures var listener := old(consoles[i].pl.heap[consoles[i].pl.pollers[k]].owner.ForListener?);
              var calm := listener ==> SyncedAfter(old(history)) || old(active) == Some(i);
              calm && DoneTo(old(Views()[i]), k, now) ==> DoneTo(Views()[i], k + 1, now)
    {
      hide AllGood, Layout, Streams, Selected, Unflagged, Fixed, ActiveAfter, Live, Linked, TtyLinked, Truthful, SyncedAfter,
           Failures, Continues, DoneTo, Calm, ReadsIn, ReadsTaken, DatesIn, DatesTaken, Fresh, Answers, DrainedSince, Lasting;
      ContinuesRefl(history, Views());
      OwnerAt(i, k, listened);
      InHome(i);
      Apart();
      var p := consoles[i].pl.pollers[k];
      var x := consoles[i].pl.heap[p];
      WatchesReal(i, p);
      if table.slots[x.slot].fd < 0 {
        assert false;
      }
      var ret := CallEvent(i, k, reply, listened);
      if x.owner.ForListener? {
        DoneListener(old(Views()[i]), Views()[i], k, now);
      } else {
        ghost var v, heap := Views(), consoles[i].rb.heap;
        if ret == PollerOk && x.hasTimeout {
          FreshSame(old(Views()[i]), Views()[i], k, listened);
          CallTimer(i, k, now, listened);
          ContinuesTrans(old(history), old(Views()), history, v, history, Views());
          ClientStays(old(Views()[i]).clients, v[i].clients, Views()[i].clients, x.owner, heap, consoles[i].rb.heap, |Views()[i].stream|);
        }
        DoneAfter(i, old(Views()[i]), Views()[i], k, now);
      }
    }

    /** A client drained by its event is still drained after its timer, if that ran, has drained it again. */
    lemma ClientStays(a: map<nat, Client>, b: map<nat, Client>, c: map<nat, Client>, owner: Owner,
                      heap0: map<nat, Consumer>, heap: map<nat, Consumer>, n: nat)
      requires Lasting(a, b) && Lasting(b, c)
      ensures owner.ForClient? && owner.id in c && owner.id in a && owner.id in b ==>
                var k := owner.id;
                && (b == c && heap == heap0 && DrainedSince(b[k], heap0, n, a[k].wire) ==> DrainedSince(c[k], heap, n, a[k].wire))
                && (DrainedSince(c[k], heap, n, b[k].wire) ==> DrainedSince(c[k], heap, n, a[k].wire))
    {
      if owner.ForClient? && owner.id in c && owner.id in a && owner.id in b {
        var k := owner.id;
        if DrainedSince(c[k], heap, n, b[k].wire) {
          DrainedBefore(b[k], c[k], heap, n, a[k].wire);
        }
      }
    }

    lemma DoneAfter(i: nat, a: View, b: View, k: nat, now: Timeval)
      requires Live(a) && k < |a.cells| && b.cells == a.cells && a.cells[k] in b.pollers
      requires b.pollers == a.pollers[a.cells[k] := b.pollers[a.cells[k]]] && Done(b.pollers[a.cells[k]], now)
      ensures DoneTo(a, k, now) ==> DoneTo(b, k + 1, now)
    {
      if DoneTo(a, k, now) {
        DoneStep(a, b, k, now);
      }
    }

    /** What is left of the events in the slot of the poller in cell `k` once its turn is over. */
    twostate predicate EventSeen(i: nat, k: nat, reply: Reply)
      requires Layout() && i < |consoles|
      requires k < |old(consoles[i].pl.pollers)| && old(consoles[i].pl.pollers[k]) in old(consoles[i].pl.heap)
      requires old(consoles[i].pl.heap[consoles[i].pl.pollers[k]].slot) < |old(table.slots)|
      reads this, home.Keys
    {
      var con := consoles[i];
      var p := old(con.pl.pollers[k]);
      var revents := old(table.slots[con.pl.heap[p].slot].revents);
      match old(con.pl.heap[p].owner)
      case ForListener => HasIn(revents) && reply.accepted.Some? ==> exists c :: Joins(i, c)
      case ForTty =>
        && (HasIn(revents) && !reply.readable ==> p in con.pl.heap && con.pl.heap[p].remove)
        && (HasOut(revents) && con.tty != null ==> (p in con.pl.heap && con.pl.heap[p].remove) || con.TtyDrained(old(con.tty.wire)))
      case ForClient(c) =>
        && (HasIn(revents) && reply.received.Hangup? ==> p in con.pl.heap && con.pl.heap[p].remove && c !in con.clients)
        && (HasOut(revents) && (!HasIn(revents) || reply.received.Bytes?) ==>
              || (p in con.pl.heap && con.pl.heap[p].remove)
              || (c in old(con.clients) && con.Drained(c, old(con.clients)[c].wire)))
      case _ => true
    }

    /** A poller's slot always watches a descriptor, so the walk skips none for having been released. */
    lemma WatchesReal(i: nat, p: nat)
      requires Layout() && AllGood() && i < |consoles| && p in consoles[i].pl.heap
      ensures consoles[i].pl.heap[p].slot < |table.slots| && 0 <= table.slots[consoles[i].pl.heap[p].slot].fd
    {
      hide Tied, Awake, RingBuffer.Valid, Console.LogsOk, Console.TtyOk, Listed, AllNormal;
      var c := consoles[i];
      assert c.Good({}, {}, {});
    }

    /**
     * The walk of call_pollers.  The array may lose pollers under it, and a new connection
     * adds one at its end; it terminates because the listening poller is met only once.
     */
    method WalkPollers(i: nat, now: Timeval) returns (k: nat)
      requires Inv(-1) && i < |consoles| && active.Some? && now.Normal()
      modifies this, home.Keys, table
      ensures Inv(i) && active.Some? && Continues(old(history), old(Views()), history, Views()) && walks == old(walks)
      ensures |consoles[i].pl.pollers| <= k && taken == old(taken) && served == old(served)
      ensures SyncedAfter(old(history)) || old(active) == Some(i) ==> DoneTo(Views()[i], k, now)
    {
      hide AllGood, Layout, Streams, Selected, Fixed, ActiveAfter, Live, Truthful, SyncedAfter, Failures, Continues, DoneTo,
           ReadsIn, ReadsTaken, DatesIn, DatesTaken;
      Apart();
      ContinuesRefl(history, Views());
      CellsLive(i);
      StartFresh(Views(), i);
      DoneNone(Views()[i], now);
      hide Unflagged, Fresh;
      k := 0;
      ghost var listened := false;
      ghost var calm := SyncedAfter(history) || active == Some(i);
      while k < |consoles[i].pl.pollers|
        invariant Inv(i) && active.Some? && Fresh(Views()[i], k, listened) && walks == old(walks)
        invariant taken == old(taken) && served == old(served)
        invariant Continues(old(history), old(Views()), history, Views())
        invariant !listened ==> history == old(history) && active == old(active)
        invariant calm ==> DoneTo(Views()[i], k, now)
        decreases !listened, |consoles[i].pl.pollers| - k
      {
        OwnerAt(i, k, listened);
        ghost var p := consoles[i].pl.pollers[k];
        ghost var listener := consoles[i].pl.heap[p].owner.ForListener?;
        OnlyOnce(Views()[i], k, listened);
        ghost var h, v := history, Views();
        var reply: Reply := *;
        CallOne(i, k, now, reply, listened);
        ContinuesTrans(old(history), old(Views()), h, v, history, Views());
        listened := listened || listener;
        k := k + 1;
      }
    }

    /**
     * call_pollers: the walk, then the removal pass.  Unless the server is out of sync with
     * the mux and this console not the active one, no timer of this console that is due at
     * `now` is left.
     */
    method CallPollers(i: nat, now: Timeval)
      requires Inv(-1) && i < |consoles| && active.Some? && now.Normal()
      modifies this, home.Keys, table
      ensures Inv(-1) && active.Some? && Continues(old(history), old(Views()), history, Views())
      ensures walks == old(walks) + [i] && taken == old(taken) && served == old(served)
      ensures SyncedAfter(old(history)) || old(active) == Some(i) ==>
                forall p :: p in consoles[i].pl.heap && Armed(consoles[i].pl.heap[p]) ==>
                  now.Us() < consoles[i].pl.heap[p].timeout.Us()
    {
      hide AllGood, Layout, Streams, Selected, Unflagged, Fixed, ActiveAfter, Truthful, SyncedAfter, Failures, Continues, DoneTo,
           ReadsIn, ReadsTaken, DatesIn, DatesTaken;
      var k := WalkPollers(i, now);
      Apart();
      InHome(i);
      ghost var v := Views();
      CellsAll(i);
      PurgeOn(i);
      ContinuesTrans(old(history), old(Views()), history, v, history, Views());
      walks := walks + [i];
      if SyncedAfter(old(history)) || old(active) == Some(i) {
        DonePurged(v[i], Views()[i], k, now);
      }
    }

    /** The removal pass, after which no console has a flagged poller. */
    method PurgeOn(i: nat)
      requires Inv(i) && i < |consoles|
      modifies consoles[i].Repr(), table
      ensures Inv(-1) && Continues(history, old(Views()), history, Views())
      ensures consoles[i].pl.pollers == Kept(old(consoles[i].pl.pollers), old(consoles[i].pl.heap))
      ensures Purged(old(Views()[i]), Views()[i])
    {
      hide Console.Good, Untouched, Backed, Streams, Selected, ActiveAfter, Kept, Truthful, SyncedAfter, Failures, ReadsIn, ReadsTaken, DatesIn, DatesTaken;
      consoles[i].Purge();
      Steps(i);
      StreamsSame(old(Views()), history, i, Views()[i]);
      PurgedSelected(old(Views()), i, Views()[i], active, SyncedAfter(history), hasMux, lines, muxIndex);
      ContinuesAt(history, old(Views()), i, Views()[i], history);
    }

    lemma PollersValid(i: nat)
      requires Layout() && AllGood() && i < |consoles|
      ensures consoles[i].pl.Valid()
    {
      hide PollerSet.Valid, Tied, Awake, RingBuffer.Valid, Console.LogsOk, Console.TtyOk, Listed;
      var c := consoles[i];
      assert c.Good({}, {}, {});
    }

    /** poll() over the whole table. */
    method PollAll(timeout: int) returns (ok: bool)
      requires Inv(-1) && timeout >= -1
      modifies table
      ensures Inv(-1) && Views() == old(Views())
      ensures ttySlot < |table.slots| && busSlot < |table.slots|
    {
      hide Console.Good, Console.Repr, SameWatch, Backed, Streams, Selected, Unflagged, ActiveAfter, Truthful, SyncedAfter,
           Failures, ReadsIn, ReadsTaken, DatesIn, DatesTaken;
      ok := table.Poll();
      forall i | 0 <= i < |consoles| ensures consoles[i].Good({}, {}, {}) && consoles[i].Viewed() == old(consoles[i].Viewed()) {
        assert forall o :: o in consoles[i].Repr() ==> o in home;
        assert forall o :: o in home ==> unchanged(o);
        consoles[i].Repolled();
      }
      assert Views() == old(Views());
    }

    /**
     * The upstream tty is readable: what read() gives goes to the active console, and to no
     * other; end of file and an error end the server.
     */
    method TtyInput() returns (rc: int)
      requires Inv(-1) && active.Some?
      modifies home.Keys, table, `history, `taken
      ensures Inv(-1) && taken == old(taken) + 1
      ensures Continues(old(history), old(Views()), history, Views())
      ensures var data := NextRead(inputs, old(taken));
              && history == (if data == [] then old(history) else old(history) + [TtyRead(data)])
              && rc == (if 0 < |data| < consoles[active.value].rb.size then 0 else -1)
      ensures OnlyQueued(active.value)
      ensures busSlot < |table.slots| && busSlot < |old(table.slots)| && table.slots[busSlot] == old(table.slots)[busSlot]
    {
      hide AllGood, Dwindled, Layout, Streams, Selected, Unflagged, ActiveAfter, Truthful, SyncedAfter, Failures, Onward, Stays,
           ReadsIn, DatesIn, DatesTaken, Continues;
      Apart();
      var i := active.value;
      if NextRead(inputs, taken) == [] {
        taken := taken + 1;
        assert Views() == old(Views()) && Views() == Views()[i := Views()[i]];
        DwindledRefl(Views()[i]);
        StaysRefl(Views()[i].clients);
        ContinuesRefl(history, Views());
        return -1;
      }
      InHome(i);
      rc := TtyQueue(i, NextRead(inputs, taken));
    }

    /** What was read is queued. */
    method TtyQueue(i: nat, data: seq<byte>) returns (rc: int)
      requires Inv(-1) && active == Some(i) && i < |consoles| && data != [] && data == NextRead(inputs, taken)
      modifies consoles[i].Repr(), table, `history, `taken
      ensures Inv(-1) && taken == old(taken) + 1 && history == old(history) + [TtyRead(data)]
      ensures Continues(old(history), old(Views()), history, Views())
      ensures rc == if |data| < consoles[i].rb.size then 0 else -1
      ensures OnlyQueued(i)
      ensures busSlot < |table.slots| && busSlot < |old(table.slots)| && table.slots[busSlot] == old(table.slots)[busSlot]
    {
      hide AllGood, Dwindled, Layout, Streams, Selected, Unflagged, ActiveAfter, Truthful, SyncedAfter, Failures, Onward, Stays,
           ReadsIn, DatesIn, DatesTaken, Continues, Fixed;
      Apart();
      rc := QueueOn(i, data);
      StillSelected(old(Views()), i, Views()[i], -1, active, SyncedAfter(history), hasMux, lines, muxIndex);
      TtyFed(old(Views()), history, i, Views()[i], data);
      Tells(history, TtyRead(data));
      Switches(history, TtyRead(data));
      taken := taken + 1;
      history := history + [TtyRead(data)];
      DwindledOnward(old(Views()[i]), Views()[i]);
      ContinuesAt(old(history), old(Views()), i, Views()[i], history);
    }

    /** Only console `i` has changed, and only as queuing allows: it has gained nobody, and lost nobody without a fault. */
    twostate predicate OnlyQueued(i: nat)
      requires Layout() && i < |consoles|
      reads this, home.Keys
    {
      && Views() == old(Views())[i := Views()[i]] && Dwindled(old(Views()[i]), Views()[i])
      && Stays(old(Views()[i]).clients, Views()[i].clients, true)
    }

    /**
     * The front half of run_console_iteration: the upstream tty is read exactly if its slot
     * has events, then a bus message is taken exactly if the bus's slot has.
     */
    method RunSources() returns (rc: int)
      requires Inv(-1) && active.Some?
      modifies this, home.Keys, table
      ensures Inv(-1) && active.Some? && Continues(old(history), old(Views()), history, Views()) && walks == old(walks)
      ensures ttySlot < |old(table.slots)| && busSlot < |old(table.slots)|
      ensures var readable := old(table.slots)[ttySlot].revents != 0;
              var data := NextRead(inputs, old(taken));
              var lost := readable && !(0 < |data| < consoles[old(active).value].rb.size);
              var called := !lost && old(table.slots)[busSlot].revents != 0;
              && taken == old(taken) + (if readable then 1 else 0)
              && served == old(served) + (if called then 1 else 0)
              && rc == (if lost then -1 else 0)
              && (!called ==> active == old(active) && lines == old(lines) && asked == old(asked))
              && (!called ==> OnlyQueued(old(active).value))
              && (!called && !readable ==> Views() == old(Views()) && history == old(history))
    {
      hide AllGood, Layout, Streams, Selected, Unflagged, ActiveAfter, Truthful, SyncedAfter, Failures, Continues, Dwindled, Stays,
           ReadsIn, ReadsTaken, DatesIn, DatesTaken;
      Apart();
      ContinuesRefl(history, Views());
      DwindledRefl(Views()[active.value]);
      StaysRefl(Views()[active.value].clients);
      assert Views() == Views()[active.value := Views()[active.value]];
      if table.slots[ttySlot].revents != 0 {
        rc := TtyInput();
        if rc != 0 {
          return -1;
        }
      }
      if table.slots[busSlot].revents != 0 {
        ghost var h, v := history, Views();
        BusMessage();
        ContinuesTrans(old(history), old(Views()), h, v, history, Views());
      }
      return 0;
    }

    /** The back half: every console's pollers, in order. */
    method RunConsoles(now: Timeval) returns (rc: int)
      requires Inv(-1) && active.Some? && now.Normal()
      modifies this, home.Keys, table
      ensures Inv(-1) && active.Some? && Continues(old(history), old(Views()), history, Views())
      ensures taken == old(taken) && served == old(served)
      ensures exists n: nat :: n <= |consoles| && (rc == 0 ==> n == |consoles|) && walks == old(walks) + UpTo(n)
    {
      hide AllGood, Layout, Streams, Selected, Unflagged, Fixed, ActiveAfter, Truthful, SyncedAfter, Failures, Continues, ReadsIn,
           ReadsTaken, DatesIn, DatesTaken;
      Apart();
      ContinuesRefl(history, Views());
      for i := 0 to |consoles|
        invariant Inv(-1) && active.Some? && Continues(old(history), old(Views()), history, Views())
        invariant walks == old(walks) + UpTo(i) && taken == old(taken) && served == old(served)
      {
        var sigint: bool := *;
        if consoles[i].rb.size < READ_SIZE || sigint {
          return -1;
        }
        ghost var h, v := history, Views();
        CallPollers(i, now);
        ContinuesTrans(old(history), old(Views()), h, v, history, Views());
      }
      return 0;
    }

    /**
     * run_console_iteration.  `sleep` is what poll() is given at `now`, the first thing read
     * off the clock; `polled` is the table it leaves, unless it fails.
     */
    method RunIteration() returns (rc: int, ghost now: Timeval, ghost sleep: int, ghost polled: Option<seq<Slot>>)
      requires Inv(-1) && active.Some?
      modifies this, home.Keys, table
      ensures Inv(-1) && active.Some? && Continues(old(history), old(Views()), history, Views())
      ensures rc == 0 ==> walks == old(walks) + if polled.Some? then UpTo(|consoles|) else []
      ensures polled.Some? ==> ttySlot < |polled.value| && busSlot < |polled.value|
      ensures rc == 0 ==> taken == old(taken) + if polled.Some? && polled.value[ttySlot].revents != 0 then 1 else 0
      ensures rc == 0 ==> served == old(served) + if polled.Some? && polled.value[busSlot].revents != 0 then 1 else 0
      ensures Sleeps(old(consoles[active.value].pl.heap), now, sleep)
    {
      hide AllGood, Layout, Streams, Selected, Unflagged, Fixed, ActiveAfter, Truthful, SyncedAfter, Failures, Continues, ReadsIn,
           ReadsTaken, DatesIn, DatesTaken;
      Apart();
      ContinuesRefl(history, Views());
      var start := CurrentTime();
      PollersValid(active.value);
      var timeout := consoles[active.value].pl.PollTimeout(start);
      now, sleep := start, timeout;
      SleepsWell(consoles[active.value].pl.heap, start, timeout);
      var ok := PollAll(timeout);
      polled := if ok then Some(table.slots) else None;
      var interrupted, signalled: bool := *, *;
      if signalled {
        rc := -1;
        return;
      }
      if !ok {
        rc := if interrupted then 0 else -1;
        return;
      }
      rc := RunSources();
      if rc == 0 {
        ghost var h, v := history, Views();
        rc := RunConsoles(start);
        ContinuesTrans(old(history), old(Views()), h, v, history, Views());
      }
    }

    /**
     * sd_bus_process: one message, possibly a Connect call for one of the consoles.  The
     * console is activated even if no socket pair can be made for the client.
     */
    method BusMessage()
      requires Inv(-1) && active.Some?
      modifies this, home.Keys, table
      ensures Inv(-1) && active.Some? && Continues(old(history), old(Views()), history, Views())
      ensures taken == old(taken) && served == old(served) + 1 && walks == old(walks)
      ensures match NextCall(calls, old(served))
              case Other => Views() == old(Views()) && history == old(history) && active == old(active) && lines == old(lines)
              case ConnectTo(i, paired) => i < |consoles| ==>
                var refused := old(active) != Some(i) && hasMux && Refuses(answers, old(asked), |old(lines)|);
                active == (if refused then old(active) else Some(i)) && (paired ==> exists c :: Joins(i, c))
    {
      hide AllGood, Layout, Streams, Selected, Unflagged, ActiveAfter, Fixed, Truthful, SyncedAfter, Failures, Continues, Refuses,
           Exclusive, Dwindled, Joins, ReadsIn, ReadsTaken, DatesIn, DatesTaken, Calm;
      Apart();
      ContinuesRefl(history, Views());
      var call := NextCall(calls, served);
      served := served + 1;
      assert Views() == old(Views());
      if call.ConnectTo? && call.console < |consoles| {
        if call.paired {
          var fd: nat :| 0 <= fd;
          var script: seq<Outcome> := *;
          var _ := Connect(call.console, Arrival(fd, script), -1, |Views()[call.console].cells|);
        } else {
          var _ := Activate(call.console, -1);
        }
      }
    }

    /** run_server, for any number of iterations. */
    method Run(iterations: nat)
      requires Inv(-1) && active.Some?
      modifies this, home.Keys, table
      ensures Inv(-1) && active.Some? && Continues(old(history), old(Views()), history, Views())
    {
      hide AllGood, Layout, Streams, Selected, Unflagged, ActiveAfter, Fixed, Truthful, SyncedAfter, Failures, Continues;
      ContinuesRefl(history, Views());
      for n := 0 to iterations
        invariant Inv(-1) && active.Some? && Continues(old(history), old(Views()), history, Views())
      {
        ghost var h, v := history, Views();
        ghost var now, sleep, polled;
        var rc;
        rc, now, sleep, polled := RunIteration();
        ContinuesTrans(old(history), old(Views()), h, v, history, Views());
        if rc != 0 {
          return;
        }
      }
    }

    // ---- what holds between any two events of any run --------------------------------

    /**
     * Mux exclusivity: whenever the last attempt to switch went through, only the active
     * console has clients, and the lines, read LSB first, spell its index.
     */
    lemma OnlyActiveHasClients(i: nat, c: nat)
      requires Inv(-1) && SyncedAfter(history) && i < |consoles| && c in consoles[i].clients
      ensures active == Some(i)
      ensures hasMux ==> Spelled(lines) == muxIndex[i] % Pow2(|lines|)
    {
      assert c in Views()[i].clients;
      if hasMux {
        LinesSpellIndex(lines, muxIndex[i]);
      }
    }

    /** Over a run in which the kernel refuses no line, and without a mux, it always went through. */
    lemma NoRefusalInSync()
      requires Inv(-1) && active.Some? && (!hasMux || false !in answers)
      ensures SyncedAfter(history)
    {
      hide Layout, AllGood, Fixed, Streams, Selected, Unflagged, Truthful, ActiveAfter, SyncedAfter, Failures, ReadsIn, ReadsTaken, DatesIn, DatesTaken;
      if hasMux {
        NeverRefused(answers, asked);
      }
      NoFailureInSync(history);
    }

    /** Slots never alias: pollers of all consoles, the upstream tty and the bus each have their own. */
    lemma SlotsApart(i: nat, p: nat, j: nat, q: nat)
      requires Inv(-1) && i < |consoles| && j < |consoles| && (i != j || p != q)
      requires p in consoles[i].pl.heap && q in consoles[j].pl.heap
      ensures var s, t := consoles[i].pl.heap[p].slot, consoles[j].pl.heap[q].slot;
              s < |table.slots| && 0 <= table.slots[s].fd && s != t && s != ttySlot && s != busSlot && ttySlot != busSlot
    {
      hide Streams, Selected, Unflagged, ActiveAfter, Truthful, Console.Good, Listed, AllNormal;
      PollersValid(i);
      PollersValid(j);
    }

    /**
     * Ownership: the array of clients lists each client once, and clients, their pollers and
     * their consumers correspond one to one.
     */
    lemma OwnersMatch(i: nat)
      requires Inv(-1) && i < |consoles|
      ensures var con := consoles[i];
              var w := con.W();
              && Listed(con.order, con.clients, con.next) && Listed(con.pl.pollers, con.pl.heap, con.pl.next)
              && Listed(con.rb.consumers, con.rb.heap, con.rb.next)
              && (forall c :: c in w.clients ==> Joined(w, c))
              && (forall p :: p in ClientPollers(w) ==> exists c :: c in w.clients && w.clients[c].poller == Some(p))
              && (forall r :: r in ClientConsumers(w) ==> exists c :: c in w.clients && w.clients[c].rbc == Some(r))
              && (forall b, c :: b in w.clients && c in w.clients && b != c ==>
                    w.clients[b].poller != w.clients[c].poller && w.clients[b].rbc != w.clients[c].rbc)
    {
      hide Streams, Selected, ActiveAfter, Truthful, Tied, Awake, Listed, Console.LogsOk, Console.TtyOk, Holds, AllNormal,
           Window, AllTrack, Joined, ClientPollers, ClientConsumers;
      var con := consoles[i];
      assert con.Good({}, {}, {}) && con.Viewed() == Views()[i];
      assert forall p :: p in Views()[i].pollers ==> !Views()[i].pollers[p].remove;
      Bijection(con.W());
    }

    /** No lost wake-up, in terms of the slot table that is handed to poll(). */
    lemma NobodyForgotten(i: nat, c: nat)
      requires Inv(-1) && i < |consoles| && c in consoles[i].clients
      ensures var con := consoles[i];
              var k := con.clients[c];
              && k.poller.Some? && k.poller.value in con.pl.heap && k.rbc.Some? && k.rbc.value in con.rb.heap
              && con.pl.heap[k.poller.value].slot < |table.slots|
      ensures var con := consoles[i];
              var k := con.clients[c];
              var slot := table.slots[con.pl.heap[k.poller.value].slot];
              var unread := con.rb.Unread(k.rbc.value);
              && slot.fd == k.fd && (k.blocked <==> HasOut(slot.events))
              && (unread > 0 ==> HasOut(slot.events) || con.pl.heap[k.poller.value].timeout.IsSet())
              && (unread >= PKT_SIZE ==> HasOut(slot.events))
    {
      hide Streams, Selected, Unflagged, ActiveAfter, Truthful, Tied, Awake, Listed, Console.LogsOk, Console.TtyOk, AllNormal,
           RingBuffer.Valid, HasOut;
      var con := consoles[i];
      assert con.Good({}, {}, {});
      NoLostWakeup(con.W(), c);
      LinkOf(con.W(), c);
    }

    /**
     * What a client's socket has received, and what is still in the ring for it, is what the
     * history says its console was fed since the client connected.  Each EINTR among the
     * kernel's answers on that socket has repeated one byte; without any, it is exact.
     */
    lemma ClientReceives(i: nat, c: nat)
      requires Inv(-1) && i < |consoles| && c in consoles[i].clients
      ensures var con := consoles[i];
              var k := con.clients[c];
              var fed := Fed(history, i, con.rb.size);
              && con.rb.Valid() && k.rbc.Some? && k.rbc.value in con.rb.heap && k.since <= |fed|
              && k.wire.used + k.wire.script == k.script
              && Resent(k.wire.sent, fed, k.since, |fed| - con.rb.Unread(k.rbc.value), Interruptions(k.wire.used))
              && |k.wire.sent| + con.rb.Unread(k.rbc.value) == |fed| - k.since + Interruptions(k.wire.used)
              && (Interrupted !in k.wire.used ==> k.wire.sent + con.rb.View(k.rbc.value) == fed[k.since..])
    {
      hide Resent, Interruptions, Selected, Unflagged, ActiveAfter, Truthful, Fed, Awake, RingBuffer.Valid, RingBuffer.View, PollerSet.Valid,
           Console.LogsOk, Console.TtyOk, Listed, Interest;
      var con := consoles[i];
      assert con.Good({}, {}, {}) && con.Viewed() == Views()[i];
      assert Linked(con.W(), c, {}, {});
      con.rb.Bounds(con.clients[c].rbc.value);
      con.rb.ViewIsPending(con.clients[c].rbc.value);
      NoneInterrupted(con.clients[c].wire.used);
      ReachedExactly(con.clients[c].wire, con.rb.stream, con.clients[c].since, con.rb.heap[con.clients[c].rbc.value].at);
    }

    /** The same for the local tty, from the start of the run. */
    lemma TtyReceives(i: nat)
      requires Inv(-1) && i < |consoles| && consoles[i].tty != null
      ensures var con := consoles[i];
              var tty := con.tty;
              tty.rbc in con.rb.heap && con.rb.heap[tty.rbc].owner == ForTty ==>
                con.rb.Valid() && tty.wire.sent + con.rb.View(tty.rbc) == Fed(history, i, con.rb.size)
    {
      hide Selected, Unflagged, ActiveAfter, Truthful, Fed, Awake, Tied, RingBuffer.Valid, RingBuffer.View,
           PollerSet.Valid, Console.LogsOk, Listed;
      var con := consoles[i];
      assert con.Good({}, {}, {}) && con.Viewed() == Views()[i];
      if con.tty.rbc in con.rb.heap {
        con.rb.ViewIsPending(con.tty.rbc);
        assert con.rb.stream[0..] == con.rb.stream;
      }
    }

    /**
     * The log has been given everything, and its files are what a run of log_data over it
     * leaves: the current one is the end of it, and the two keep the last of it unless the
     * last rename failed.
     */
    lemma LogReceives(i: nat)
      requires Inv(-1) && i < |consoles| && consoles[i].log != null
      ensures var con := consoles[i];
              var log := con.log;
              var all := log.found.current + Fed(history, i, con.rb.size);
              log.rbc in con.rb.heap && con.rb.heap[log.rbc].owner == ForLog ==>
                && Join(log.pieces) == Fed(history, i, con.rb.size)
                && Log(log.OnDisk(), log.rotations) == PutAll(log.found, log.maxsize, log.pieces, log.renames)
                && LogFiles.Sound(log.OnDisk(), all, log.maxsize)
                && (log.rotations == 0 || Renames(log.renames, log.rotations - 1) ==> Retains(log.OnDisk(), all, log.maxsize))
                && (false !in log.renames ==> Retains(log.OnDisk(), all, log.maxsize))
    {
      hide Selected, Unflagged, ActiveAfter, Truthful, Fed, Tied, RingBuffer.Valid, PollerSet.Valid, Console.TtyOk,
           Listed, LogFiles.Sound, Retains, TextLogHandler.Valid, PutAll, Join;
      var con := consoles[i];
      var log := con.log;
      assert con.Good({}, {}, {}) && con.Viewed() == Views()[i];
      if log.rbc in con.rb.heap && con.rb.heap[log.rbc].owner == ForLog {
        assert Settled(con.W(), log.rbc);
        con.rb.Bounds(log.rbc);
        assert con.rb.stream[0..|con.rb.stream|] == con.rb.stream;
        Retention(log.found, log.maxsize, log.pieces, log.renames);
      }
    }

    /**
     * The text log is one pass of the sanitiser and the line assembler over everything the
     * console was fed, however the ring cut it up; its files are what a run over the page
     * leaves; and line_count is the newlines it has put in the current file.
     */
    lemma TextLogReceives(i: nat)
      requires Inv(-1) && i < |consoles| && consoles[i].text != null
      ensures var con := consoles[i];
              var text := con.text;
              text.rbc in con.rb.heap && con.rb.heap[text.rbc].owner == ForTextLog ==>
                && Lines(text.bodies, text.linebuf) == Assemble(Strip(Fed(history, i, con.rb.size)))
                && |text.stamps| == |text.bodies| && Join(text.pieces) == Page(text.stamps, text.bodies)
                && Log(text.OnDisk(), text.rotations) == PutAll(text.found, text.maxsize, text.pieces, text.renames)
      ensures var con := consoles[i];
              var text := con.text;
              text.rbc in con.rb.heap && con.rb.heap[text.rbc].owner == ForTextLog ==>
                var all := text.found.current + Join(text.pieces);
                && LogFiles.Sound(text.OnDisk(), all, text.maxsize)
                && (text.rotations == 0 || Renames(text.renames, text.rotations - 1) ==> Retains(text.OnDisk(), all, text.maxsize))
                && (false !in text.renames ==> Retains(text.OnDisk(), all, text.maxsize))
                && text.file.sent == text.Opened() + text.written && text.lineCount == Newlines(text.written)
    {
      hide Selected, Unflagged, ActiveAfter, Truthful, Fed, Tied, RingBuffer.Valid, PollerSet.Valid, Console.TtyOk,
           Listed, LogFiles.Sound, Retains, LogHandler.Valid, Assemble, Out, Sanitizers.Run, Page, PutAll, Join, Newlines;
      var con := consoles[i];
      var text := con.text;
      assert con.Good({}, {}, {}) && con.Viewed() == Views()[i];
      if text.rbc in con.rb.heap && con.rb.heap[text.rbc].owner == ForTextLog {
        assert Settled(con.W(), text.rbc);
        con.rb.Bounds(text.rbc);
        assert con.rb.stream[0..|con.rb.stream|] == con.rb.stream;
        Retention(text.found, text.maxsize, text.pieces, text.renames);
        SanitisingStrips(con.rb.stream);
      }
    }
  }

  /**
   * Two consoles and one line, which the kernel sets at startup and refuses to set again: a
   * connection to the second console leaves it a client although the first is active.
   */
  method RefusedSwitchShares(configs: seq<ConsoleConfig>) returns (s: Server)
    requires |configs| == 2 && forall i :: 0 <= i < |configs| ==> 0 < configs[i].size
    ensures s.Inv(-1) && s.active == Some(0) && !Exclusive(s.Views(), s.active)
  {
    hide Server.AllGood, Server.Layout, Streams, Selected, Unflagged, Server.Fixed, ActiveAfter, Truthful, SyncedAfter, Failures,
         Continues, Server.Joins, Exclusive, ReadsIn, ReadsTaken, DatesIn, DatesTaken, Calm;
    var answers := [true, false];
    s := new Server(0, 1, configs, Some(1), 0, Outside(answers, [], [], []));
    assert !Accepts(answers, 1) && Refuses(answers, 1, 1);
    var c := s.Connect(1, Arrival(2, []), -1, |s.Views()[1].cells|);
  }

  lemma FixedStay(slots0: seq<Slot>, holder0: map<nat, Holder>, slots: seq<Slot>, holder: map<nat, Holder>,
                  i: nat, tty: nat, bus: nat)
    requires Untouched(slots0, holder0, slots, holder, i)
    requires tty in holder0 && holder0[tty] == UpstreamTty && bus in holder0 && holder0[bus] == Bus
    ensures Backed(slots, holder)
    ensures tty in holder && holder[tty] == UpstreamTty && bus in holder && holder[bus] == Bus
    ensures tty < |slots0| && tty < |slots| && slots[tty] == slots0[tty]
    ensures bus < |slots0| && bus < |slots| && slots[bus] == slots0[bus]
  {
  }
}
