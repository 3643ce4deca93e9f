/** Double-buffered asynchronous reading, as a machine on values (aweb/asyncio.c, MODE_READ).

    One packet travels between the program and the file handler.  While the program drains one
    buffer, the handler may at any moment fill the other.  The claims are that the bytes
    delivered are the successive bytes of the file whatever the handler's timing, and that a
    seek moves to where it should.
 */
module AsyncReading {
  import opened Basics
  import opened Packets

  datatype Link = Link(
    file: seq<byte>,
    size: nat,                // of a buffer
    bufs: seq<seq<byte>>,
    offsetBuf: nat,           // af_Offset points into this buffer,
    offset: nat,              // at this index
    bytesLeft: nat,
    cur: nat,                 // the buffer the packet fills
    seekOffset: nat,          // bytes to skip when the packet arrives
    pending: bool,            // the program believes the packet is out
    packet: Packet,
    res1: int,                // the answer in the packet
    pos: nat,                 // the position of the file handle
    outcomes: seq<Outcome>,   // what happens to the packets to come; after that all is well
    fetch: nat,               // where in the file the packet's data begins
    lo: nat)                  // from here on, the buffer being read holds bytes of the file
  {
    function ChunkLen(): int { Min(size, |file| - fetch) }

    function Skip(): int { Min(seekOffset, ChunkLen()) }

    /** The position in the file of the next byte the program will read. */
    function At(): int { fetch - bytesLeft + Skip() }

    /** Nothing is left over from an earlier seek or from a read that met the end of the file:
        all of the buffer being read is known to hold bytes of the file. */
    predicate Settled() { seekOffset == 0 && lo == 0 }

    predicate Failed() { packet.Home? && res1 < 0 }

    /** The program would wait for a packet that is not out. */
    predicate Stuck() { pending && packet.Home? }
  }

  /** The bytes b[x..y] are those of the file, in a row, up to `end`. */
  ghost predicate Holds(file: seq<byte>, b: seq<byte>, x: nat, y: nat, end: nat) {
    x <= y <= |b| && y - x <= end <= |file| && b[x..y] == file[end - (y - x)..end]
  }

  ghost predicate Shape(v: Link) {
    && 2 <= v.size < 0x8000_0000 && |v.bufs| == 2 && |v.bufs[0]| == |v.bufs[1]| == v.size
    && v.cur < 2 && v.fetch <= |v.file|
  }

  /** From index `lo` on, what the buffer being read holds comes right before the packet's data
      in the file.  It is never the buffer that the handler fills. */
  ghost predicate Window(v: Link)
    requires Shape(v)
  {
    && v.lo <= v.offset && v.bytesLeft <= v.fetch
    && (v.bytesLeft > 0 ==> v.seekOffset == 0)
    && (v.offsetBuf == 1 - v.cur || (v.offsetBuf == v.cur == 0 && v.offset + v.bytesLeft == v.lo))
    && Holds(v.file, v.bufs[v.offsetBuf], v.lo, v.offset + v.bytesLeft, v.fetch)
  }

  ghost predicate Answered(v: Link)
    requires Shape(v)
  {
    v.res1 == v.ChunkLen() && v.pos == v.fetch + v.res1 && Holds(v.file, v.bufs[v.cur], 0, v.res1, v.pos)
  }

  ghost predicate Ok(v: Link) {
    && Shape(v) && Window(v)
    && match v.packet
       case InFlight => v.pending && v.pos == v.fetch
       case Replied =>
         v.pending && if v.res1 < 0 then v.pos == v.fetch && v.outcomes != [] && v.outcomes[0].Error? else Answered(v)
       case Home =>
         v.pos == v.fetch && (v.res1 < 0 || (v.res1 == 0 && v.fetch == |v.file|))
  }

  // ------------------------------------------------------------------------
  // The handler, and waiting for it

  /** The handler answers the packet.  It reads from the file position, and advances it. */
  function Handle(v: Link): Link
    requires |v.bufs| == 2 && v.cur < 2 && v.pos <= |v.file|
  {
    if v.outcomes != [] && v.outcomes[0].Error? then v.(packet := Replied, res1 := -1)
    else
      var n := Min(v.size, |v.file| - v.pos);
      var b := v.bufs[v.cur];
      v.(packet := Replied, res1 := n, pos := v.pos + n,
         outcomes := if v.outcomes == [] then [] else v.outcomes[1..],
         bufs := v.bufs[v.cur := if n <= |b| then v.file[v.pos..v.pos + n] + b[n..] else b])
  }

  lemma FilledHolds(file: seq<byte>, b: seq<byte>, pos: nat, n: nat)
    requires pos + n <= |file| && n <= |b|
    ensures Holds(file, file[pos..pos + n] + b[n..], 0, n, pos + n)
  {
  }

  /** The window does not depend on the buffer that is being filled. */
  lemma WindowKept(v: Link, w: Link)
    requires Shape(v) && Window(v) && Shape(w)
    requires w == v.(bufs := w.bufs, packet := w.packet, res1 := w.res1, pos := w.pos, outcomes := w.outcomes)
    requires w.bufs[1 - v.cur] == v.bufs[1 - v.cur]
    ensures Window(w)
  {
  }

  lemma HandleFills(v: Link)
    requires Ok(v) && v.packet.InFlight? && !(v.outcomes != [] && v.outcomes[0].Error?)
    ensures var n, w := Min(v.size, |v.file| - v.pos), Handle(v);
            && w.packet.Replied? && w.res1 == n && w.pos == v.pos + n
            && w.bufs == v.bufs[v.cur := v.file[v.pos..v.pos + n] + v.bufs[v.cur][n..]] && Shape(w)
  {
  }

  lemma HandleOk(v: Link)
    requires Ok(v) && v.packet.InFlight?
    ensures Ok(Handle(v)) && Handle(v).packet.Replied?
  {
    if !(v.outcomes != [] && v.outcomes[0].Error?) {
      HandleFills(v);
      WindowKept(v, Handle(v));
      FilledHolds(v.file, v.bufs[v.cur], v.pos, Handle(v).res1);
    }
  }

  /** The handler may have had its turn. */
  ghost predicate Ticked(v: Link, w: Link) {
    && w == v.(bufs := w.bufs, packet := w.packet, res1 := w.res1, pos := w.pos, outcomes := w.outcomes)
    && |v.bufs| == |w.bufs| == 2 && (v.cur < 2 ==> w.bufs[1 - v.cur] == v.bufs[1 - v.cur])
    && (v.Failed() <==> w.Failed()) && (v.Stuck() <==> w.Stuck())
    && (Calm(v.outcomes) ==> Calm(w.outcomes)) && (NoRetry(v.outcomes) ==> NoRetry(w.outcomes))
  }

  lemma HandleTicks(v: Link)
    requires Ok(v) && v.packet.InFlight?
    ensures Ticked(v, Handle(v))
  {
    if v.outcomes != [] {
      TailForeseen(v.outcomes);
    }
  }

  /** The answer, as soon as there is one. */
  function Handled(v: Link): Link
    requires Ok(v)
  {
    if v.packet.InFlight? then Handle(v) else v
  }

  function TakePacket(v: Link, again: bool): Link {
    v.(packet := Home, pending := again)
  }

  /** Wait until the packet is back with an answer that the user takes.  A retry sends the
      packet again, and leaves it marked as out. */
  function Await(v: Link, again: bool): Link
    requires Ok(v) && v.pending && !v.packet.Home?
    decreases |v.outcomes|
  {
    HandledOk(v);
    var w := Handled(v);
    if w.res1 >= 0 then TakePacket(w, again)
    else
      if w.outcomes[0].retry then Await(Resent(w), true) else TakePacket(w.(outcomes := w.outcomes[1..]), again)
  }

  /** If no packet is out, the previous result stays, so an error stays an error. */
  function Wait(v: Link): Link
    requires Ok(v) && !v.Stuck()
  {
    if v.pending then Await(v, false) else v
  }

  lemma HandledOk(v: Link)
    requires Ok(v) && v.pending && !v.packet.Home?
    ensures Ok(Handled(v)) && Handled(v).packet.Replied? && |Handled(v).outcomes| <= |v.outcomes|
  {
    if v.packet.InFlight? {
      HandleOk(v);
    }
  }

  /** What a wait leaves: the packet is home with data or an error, and nothing that the
      program was reading has changed. */
  ghost predicate Arrived(v: Link, w: Link) {
    && Shape(w) && Window(w) && w.packet.Home?
    && w == v.(bufs := w.bufs, pending := w.pending, packet := Home, res1 := w.res1, pos := w.pos, outcomes := w.outcomes)
    && (if w.res1 < 0 then w.pos == w.fetch else Answered(w))
  }

  /** Errors and retries come only from the outcomes. */
  ghost predicate Foreseen(v: Link, w: Link) {
    && (Calm(v.outcomes) ==> Calm(w.outcomes) && (w.res1 < 0 ==> v.Failed()))
    && (NoRetry(v.outcomes) ==> NoRetry(w.outcomes) && !w.pending)
    && (v.Failed() ==> w == v)
  }

  lemma HandledArrives(v: Link, again: bool, os: seq<Outcome>)
    requires Ok(v) && v.pending && !v.packet.Home?
    ensures Arrived(v, TakePacket(Handled(v), again).(outcomes := os))
  {
    HandledOk(v);
  }

  lemma ArrivedFrom(v: Link, x: Link, w: Link)
    requires Arrived(x, w)
    requires x == v.(bufs := x.bufs, pending := x.pending, packet := x.packet, res1 := x.res1, pos := x.pos, outcomes := x.outcomes)
    ensures Arrived(v, w)
  {
  }

  function Resent(w: Link): Link
    requires w.outcomes != []
  {
    w.(outcomes := w.outcomes[1..], packet := InFlight)
  }

  lemma RetryOk(v: Link)
    requires Ok(v) && v.pending && !v.packet.Home? && Handled(v).res1 < 0
    ensures Handled(v).outcomes != []
    ensures var x := Resent(Handled(v));
            && Ok(x) && x.pending && x.packet.InFlight? && |x.outcomes| < |v.outcomes|
            && x == v.(bufs := x.bufs, pending := x.pending, packet := x.packet, res1 := x.res1, pos := x.pos, outcomes := x.outcomes)
  {
    HandledOk(v);
  }

  lemma {:induction false} AwaitArrives(v: Link, again: bool)
    requires Ok(v) && v.pending && !v.packet.Home?
    ensures Arrived(v, Await(v, again))
    decreases |v.outcomes|
  {
    HandledOk(v);
    var w := Handled(v);
    if w.res1 >= 0 {
      HandledArrives(v, again, w.outcomes);
    } else if w.outcomes[0].retry {
      RetryOk(v);
      AwaitArrives(Resent(w), true);
      ArrivedFrom(v, Resent(w), Await(Resent(w), true));
    } else {
      HandledArrives(v, again, w.outcomes[1..]);
    }
  }

  lemma HandledForeseen(v: Link)
    requires Ok(v) && v.pending && !v.packet.Home?
    ensures var w := Handled(v);
            && (Calm(v.outcomes) ==> Calm(w.outcomes) && w.res1 >= 0)
            && (NoRetry(v.outcomes) ==> NoRetry(w.outcomes))
            && (w.res1 < 0 ==> w.outcomes != [] && w.outcomes[0].Error?)
  {
    HandledOk(v);
    if v.outcomes != [] {
      TailForeseen(v.outcomes);
    }
  }

  lemma {:induction false} AwaitForeseen(v: Link, again: bool)
    requires Ok(v) && v.pending && !v.packet.Home?
    ensures var w := Await(v, again);
            && (Calm(v.outcomes) ==> Calm(w.outcomes) && w.res1 >= 0)
            && (NoRetry(v.outcomes) ==> NoRetry(w.outcomes) && w.pending == again)
    decreases |v.outcomes|
  {
    HandledOk(v);
    HandledForeseen(v);
    var w := Handled(v);
    if w.res1 < 0 {
      TailForeseen(w.outcomes);
      RetryOk(v);
      if w.outcomes[0].retry {
        AwaitForeseen(Resent(w), true);
      }
    }
  }

  lemma WaitArrives(v: Link)
    requires Ok(v) && !v.Stuck()
    ensures Arrived(v, Wait(v)) && Foreseen(v, Wait(v))
  {
    if v.pending {
      AwaitArrives(v, false);
      AwaitForeseen(v, false);
    }
  }

  /** After a retry the packet stays marked as out. */
  lemma {:induction false} AwaitStuck(v: Link)
    requires Ok(v) && v.pending && !v.packet.Home?
    ensures Await(v, true).Stuck()
    decreases |v.outcomes|
  {
    var w := Handled(v);
    HandledOk(v);
    if w.res1 < 0 && w.outcomes[0].retry {
      RetryOk(v);
      AwaitStuck(Resent(w));
    }
  }

  /** A wait leaves the packet at home and still marked as out if and only if the user asks for a
      retry in it. */
  lemma StuckExactly(v: Link)
    requires Ok(v) && v.pending && v.packet.InFlight?
    ensures Wait(v).Stuck() <==> v.outcomes != [] && v.outcomes[0] == Error(true)
  {
    var w := Handled(v);
    HandledOk(v);
    if w.res1 < 0 && w.outcomes[0].retry {
      RetryOk(v);
      AwaitStuck(Resent(w));
    }
  }

  // ------------------------------------------------------------------------
  // Moving through the buffers

  /** Go over to the buffer that was filled meanwhile, and have the other one filled. */
  function Swap(v: Link): Link
    requires v.cur < 2 && v.res1 > 0
  {
    var skip := Min(v.seekOffset, v.res1);
    v.(packet := InFlight, pending := true, offsetBuf := v.cur, offset := skip, cur := 1 - v.cur,
       bytesLeft := v.res1 - skip, seekOffset := 0, fetch := v.fetch + v.res1, lo := 0)
  }

  lemma SwapOk(v: Link, w: Link)
    requires Ok(v) && v.bytesLeft == 0 && Arrived(v, w) && w.res1 > 0
    ensures Ok(Swap(w)) && Swap(w).Settled() && Swap(w).At() == v.At() && !Swap(w).Stuck() && !Swap(w).Failed()
    ensures Swap(w).fetch == v.fetch + w.res1 && w.res1 == v.ChunkLen()
  {
  }

  /** At the end of the file, or after an error, nothing moves. */
  lemma EndOk(v: Link, w: Link)
    requires Ok(v) && v.bytesLeft == 0 && Arrived(v, w) && w.res1 <= 0
    ensures Ok(w) && w.At() == v.At() && (w.res1 == 0 ==> w.At() == |w.file|)
  {
  }

  function Taken(v: Link, n: nat): Link
    requires n <= v.bytesLeft
  {
    v.(bytesLeft := v.bytesLeft - n, offset := v.offset + n)
  }

  /** Empty the buffer being read without moving the pointer into it. */
  function Drained(v: Link): Link {
    v.(bytesLeft := 0, lo := if v.bytesLeft > 0 then v.offset else v.lo)
  }

  function Unread(v: Link, n: nat): seq<byte>
    requires Ok(v) && n <= v.bytesLeft
  {
    v.bufs[v.offsetBuf][v.offset..v.offset + n]
  }

  lemma UnreadIsNext(v: Link, n: nat)
    requires Ok(v) && n <= v.bytesLeft
    ensures 0 <= v.At() <= v.At() + n <= |v.file| && Unread(v, n) == v.file[v.At()..v.At() + n]
  {
    var b, hi := v.bufs[v.offsetBuf], v.offset + v.bytesLeft;
    var base := v.fetch - (hi - v.lo);
    forall i | v.offset <= i < v.offset + n
      ensures b[i] == v.file[base + i - v.lo]
    {
      assert b[v.lo..hi][i - v.lo] == v.file[base..v.fetch][i - v.lo];
    }
  }

  lemma TakenOk(v: Link, n: nat)
    requires Ok(v) && n <= v.bytesLeft
    ensures Ok(Taken(v, n)) && Taken(v, n).At() == v.At() + n
  {
  }

  lemma DrainedOk(v: Link)
    requires Ok(v)
    ensures Ok(Drained(v)) && Drained(v).At() == v.At() + v.bytesLeft
  {
  }

  /** With data in the packet the retry is harmless, for then it is sent again.  After the refill the
      program would wait for a packet that never comes if and only if the user asked for a retry and
      the wait ended with nothing: at the end of the file, or with an error after all. */
  lemma RefillSticks(v: Link)
    requires Ok(v) && v.pending && v.packet.InFlight? && v.bytesLeft == 0
    ensures Refill(v).Stuck() <==> v.outcomes != [] && v.outcomes[0] == Error(true) && Wait(v).res1 <= 0
  {
    StuckExactly(v);
    WaitArrives(v);
  }

  // ------------------------------------------------------------------------
  // Timing

  /** Taking bytes and emptying the buffer do not touch what the handler works on. */
  predicate Aside(v: Link, w: Link) {
    w == v.(bytesLeft := w.bytesLeft, offset := w.offset, lo := w.lo)
  }

  /** What v has become, with the place in the buffer of w. */
  function PlacedAs(v: Link, w: Link): Link { v.(bytesLeft := w.bytesLeft, offset := w.offset, lo := w.lo) }

  lemma HandledAside(v: Link, w: Link)
    requires Ok(v) && Ok(w) && Aside(v, w)
    ensures Handled(w) == PlacedAs(Handled(v), w) && Aside(Handled(v), Handled(w))
  {
  }

  lemma ResentAside(v: Link, w: Link)
    requires Aside(v, w) && v.outcomes != []
    ensures Aside(Resent(v), Resent(w))
  {
  }

  lemma {:induction false} AwaitAside(v: Link, w: Link, again: bool)
    requires Ok(v) && Ok(w) && Aside(v, w) && v.pending && !v.packet.Home?
    ensures Await(w, again) == PlacedAs(Await(v, again), w)
    decreases |v.outcomes|
  {
    HandledAside(v, w);
    HandledOk(v);
    HandledOk(w);
    var x, y := Handled(v), Handled(w);
    if x.res1 < 0 && x.outcomes[0].retry {
      RetryOk(v);
      RetryOk(w);
      ResentAside(x, y);
      AwaitAside(Resent(x), Resent(y), true);
    }
  }

  lemma HandleEarly(v: Link)
    requires Ok(v) && v.packet.InFlight?
    ensures Ok(Handle(v)) && Wait(Handle(v)) == Wait(v)
  {
    HandleOk(v);
  }

  /** It does not matter whether the handler answers before, between or after what the program takes
      from its buffer, nor how often the packet is sent again: the wait ends in the same state. */
  lemma TimingIsImmaterial(v: Link, w: Link)
    requires Ok(v) && v.packet.InFlight? && Ok(w) && Aside(v, w)
    ensures Handle(w) == PlacedAs(Handle(v), w) && Ok(Handle(w))
    ensures Wait(Handle(w)) == Wait(w) && Wait(w) == PlacedAs(Wait(v), w)
  {
    HandleEarly(w);
    AwaitAside(v, w, false);
  }

  /** What the program does to its buffer while the packet is out is of that kind. */
  lemma ReadingIsAside(v: Link, n: nat)
    requires Ok(v) && n <= v.bytesLeft
    ensures Ok(Taken(v, n)) && Aside(v, Taken(v, n)) && Ok(Drained(v)) && Aside(v, Drained(v))
  {
    TakenOk(v, n);
    DrainedOk(v);
  }

  // ------------------------------------------------------------------------
  // Reading

  /** How many bytes the buffer being read will hold when the next byte is taken from it. */
  function Stock(v: Link): int {
    if v.bytesLeft > 0 then v.bytesLeft
    else if v.ChunkLen() > v.Skip() then v.ChunkLen() - v.Skip()
    else Min(v.size, |v.file| - v.fetch - v.ChunkLen())
  }

  /** From v to w the program got exactly `data`, the bytes of the file that come next. */
  ghost predicate Moved(v: Link, w: Link, data: seq<byte>) {
    && Ok(v) && Ok(w) && w.file == v.file && w.size == v.size
    && 0 <= v.At() <= w.At() <= |v.file| && data == v.file[v.At()..w.At()]
    && (Calm(v.outcomes) ==> Calm(w.outcomes) && (w.Failed() ==> v.Failed()))
    && (NoRetry(v.outcomes) ==> NoRetry(w.outcomes) && !w.Stuck())
    && (v.Failed() ==> w.Failed())
  }

  /** Refill the buffer being read, which is empty. */
  function Refill(v: Link): Link
    requires Ok(v) && !v.Stuck()
  {
    WaitArrives(v);
    if Wait(v).res1 > 0 then Swap(Wait(v)) else Wait(v)
  }

  lemma RefillOk(v: Link)
    requires Ok(v) && v.bytesLeft == 0 && !v.Stuck()
    ensures var w := Refill(v);
            && Moved(v, w, []) && w.At() == v.At()
            && (Wait(v).res1 > 0 ==> w.Settled() && !w.Stuck() && v.fetch < w.fetch && Stock(w) == Stock(v))
            && (Wait(v).res1 == 0 ==> w.At() == |w.file|)
            && (Wait(v).res1 < 0 ==> w.Failed())
  {
    WaitArrives(v);
    AtInFile(v);
    if Wait(v).res1 > 0 {
      SwapOk(v, Wait(v));
    } else {
      EndOk(v, Wait(v));
    }
  }

  lemma AtInFile(v: Link)
    requires Ok(v)
    ensures 0 <= v.At() <= v.At() + v.bytesLeft <= |v.file|
  {
  }

  lemma MovedTick(v: Link, u: Link, w: Link, data: seq<byte>)
    requires Moved(v, u, data) && Ticked(u, w) && Ok(w)
    ensures Moved(v, w, data) && Stock(w) == Stock(u) && w.At() == u.At()
  {
  }

  lemma MovedOn(u: Link, v: Link, w: Link, d: seq<byte>, e: seq<byte>)
    requires Moved(u, v, d) && Moved(v, w, e)
    ensures Moved(u, w, d + e)
  {
    SlicesJoin(v.file, u.At(), v.At(), w.At());
  }

  lemma SlicesJoin<T>(s: seq<T>, a: nat, b: nat, c: nat)
    requires a <= b <= c <= |s|
    ensures s[a..c] == s[a..b] + s[b..c]
  {
  }

  lemma TakenMoves(v: Link, n: nat)
    requires Ok(v) && n <= v.bytesLeft && !v.Stuck()
    ensures Moved(v, Taken(v, n), Unread(v, n))
  {
    TakenOk(v, n);
    UnreadIsNext(v, n);
  }

  lemma DrainedMoves(v: Link)
    requires Ok(v) && !v.Stuck()
    ensures Moved(v, Drained(v), Unread(v, v.bytesLeft))
    ensures v.bytesLeft == 0 ==> Stock(Drained(v)) == Stock(v)
  {
    DrainedOk(v);
    UnreadIsNext(v, v.bytesLeft);
  }

  /** Empty the buffer, let the handler have its turn, and refill: nothing is lost or repeated. */
  ghost predicate Round(v: Link, w: Link, bytes: int, data: seq<byte>) {
    && Moved(v, w, data)
    && (bytes > 0 ==> w.Settled() && !w.Stuck() && v.fetch < w.fetch && (data == [] ==> Stock(w) == Stock(v)))
    && (bytes == 0 ==> w.At() == |w.file|)
    && (bytes < 0 ==> w.Failed())
  }

  lemma RoundOk(v: Link, u: Link)
    requires Ok(v) && !v.Stuck() && Ok(u) && Ticked(Drained(v), u)
    ensures u.bytesLeft == 0 && !u.Stuck()
    ensures Round(v, Refill(u), Wait(u).res1, Unread(v, v.bytesLeft))
  {
    var d := Unread(v, v.bytesLeft);
    DrainedMoves(v);
    MovedTick(v, Drained(v), u, d);
    RefillOk(u);
    MovedOn(v, u, Refill(u), d, []);
    assert d + [] == d;
  }

  /** A read of n bytes answers r: all of them, or fewer because the file ends, or an error. */
  ghost predicate Reads(v: Link, w: Link, n: nat, r: int, data: seq<byte>) {
    && Moved(v, w, data) && (r == |data| || r == -1) && (if r == n then |data| == n else |data| < n)
    && (r == n ==> !w.Stuck() && (v.Settled() || v.bytesLeft < n ==> w.Settled()))
    && (0 <= r < n ==> w.At() == |w.file|)
    && (r < 0 ==> w.Failed())
    && (v.bytesLeft == 0 && n == r == 1 ==> w.bytesLeft == Stock(v) - 1)
  }

  ghost predicate ReadsChar(v: Link, w: Link, r: int) {
    if 0 <= r < 256 then Reads(v, w, 1, 1, [r as byte])
    else r == -1 && Moved(v, w, []) && (w.Failed() || w.At() == |w.file|)
  }

  /** In the midst of a read: n bytes are still wanted. */
  ghost predicate Reading(v: Link, u: Link, numBytes: nat, n: nat, again: bool, data: seq<byte>) {
    && Moved(v, u, data) && !u.Stuck() && |data| + n == numBytes
    && (if again then u.Settled() && v.bytesLeft < numBytes && n > 0 else u == v && n == numBytes)
    && (data == [] && v.bytesLeft == 0 ==> Stock(u) == Stock(v))
  }

  lemma ReadingBegins(v: Link, numBytes: nat)
    requires Ok(v) && !v.Stuck()
    ensures Reading(v, v, numBytes, numBytes, false, [])
  {
    AtInFile(v);
  }

  lemma ReadingGoesOn(v: Link, u: Link, w: Link, numBytes: nat, n: nat, again: bool, d: seq<byte>, bytes: int, e: seq<byte>)
    requires Reading(v, u, numBytes, n, again, d) && |e| == u.bytesLeft < n && Round(u, w, bytes, e)
    ensures bytes > 0 ==> Reading(v, w, numBytes, n - |e|, true, d + e)
    ensures bytes <= 0 ==> Reads(v, w, numBytes, if bytes == 0 then |d + e| else -1, d + e)
  {
    MovedOn(v, u, w, d, e);
  }

  lemma ReadingEnds(v: Link, u: Link, numBytes: nat, n: nat, again: bool, d: seq<byte>)
    requires Reading(v, u, numBytes, n, again, d) && n <= u.bytesLeft
    ensures Reads(v, Taken(u, n), numBytes, numBytes, d + Unread(u, n))
  {
    TakenMoves(u, n);
    MovedOn(v, u, Taken(u, n), d, Unread(u, n));
  }

  /** Whatever calls are made, and in whatever order, what they get are the successive bytes of
      the file; once its end is reached, there is nothing more. */
  lemma {:induction false} CallsReadOn(states: seq<Link>, parts: seq<seq<byte>>)
    requires |states| == |parts| + 1 && Ok(states[0])
    requires forall i :: 0 <= i < |parts| ==> Moved(states[i], states[i + 1], parts[i])
    ensures 0 <= states[0].At() <= |states[0].file|
    ensures Concat(parts) <= states[0].file[states[0].At()..]
    ensures states[|parts|].At() == states[0].At() + |Concat(parts)|
  {
    AtInFile(states[0]);
    if parts != [] {
      var u, w := states[1], states[0];
      CallsReadOn(states[1..], parts[1..]);
      assert w.file[w.At()..] == parts[0] + u.file[u.At()..];
    }
  }
}
