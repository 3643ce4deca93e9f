/** Double-buffered asynchronous writing, as a machine on values (aweb/asyncio.c, MODE_WRITE and
    MODE_APPEND).  What the program has handed over is on the disk, in the packet, or in the
    current buffer; nothing is lost, repeated or moved, unless closing the file says so. */
module AsyncWriting {
  import opened Packets

  datatype Sink = Sink(
    size: nat,                // of a buffer
    bufs: seq<seq<byte>>,
    offset: nat,              // af_Offset points into the current buffer, here
    bytesLeft: nat,           // room in the current buffer
    cur: nat,                 // the buffer the program fills
    pending: bool,
    packet: Packet,
    packetBuf: nat,           // the buffer the packet writes
    res1: int,
    outcomes: seq<Outcome>,
    disk: seq<byte>)
  {
    predicate Failed() { packet.Home? && res1 < 0 }

    /** The packet's buffer has not reached the disk yet. */
    predicate OnTheWay() { packet.InFlight? || (packet.Replied? && res1 < 0) }

    /** Everything handed over so far, wherever it is. */
    ghost function Written(): seq<byte>
      requires Intact(this)
    {
      disk + (if OnTheWay() then bufs[packetBuf] else []) + bufs[cur][..offset]
    }
  }

  ghost predicate Intact(v: Sink) {
    && v.size > 0 && |v.bufs| == 2 && |v.bufs[0]| == |v.bufs[1]| == v.size
    && v.cur < 2 && v.packetBuf < 2 && v.bytesLeft <= v.size && v.offset == v.size - v.bytesLeft
  }

  /** The packet never writes the buffer that the program fills. */
  ghost predicate Sound(v: Sink) {
    && Intact(v) && NoRetry(v.outcomes) && v.res1 >= -1
    && (v.packet.Home? <==> !v.pending)
    && (v.pending ==> v.packetBuf == 1 - v.cur)
    && (v.packet.Replied? && v.res1 < 0 ==> v.outcomes != [] && v.outcomes[0].Error?)
  }

  // ------------------------------------------------------------------------
  // The handler, and waiting for it

  /** The handler answers the packet.  It writes a full buffer at the end of the file. */
  function Handle(v: Sink): Sink
    requires v.packetBuf < |v.bufs|
  {
    if v.outcomes != [] && v.outcomes[0].Error? then v.(packet := Replied, res1 := -1)
    else v.(packet := Replied, res1 := v.size, disk := v.disk + v.bufs[v.packetBuf],
            outcomes := if v.outcomes == [] then [] else v.outcomes[1..])
  }

  function Handled(v: Sink): Sink
    requires v.packetBuf < |v.bufs|
  {
    if v.packet.InFlight? then Handle(v) else v
  }

  function TakePacket(v: Sink, again: bool): Sink {
    v.(packet := Home, pending := again)
  }

  function Send(v: Sink, b: nat): Sink {
    v.(packet := InFlight, packetBuf := b, pending := true)
  }

  ghost predicate Out(v: Sink) {
    && v.packetBuf < |v.bufs| && v.cur < |v.bufs| && !v.packet.Home?
    && (v.packet.Replied? && v.res1 < 0 ==> v.outcomes != [] && v.outcomes[0].Error?)
  }

  /** Wait for the packet.  A retry sends the current buffer, whichever the packet had. */
  function Await(v: Sink, again: bool): Sink
    requires Out(v)
    decreases |v.outcomes|
  {
    var w := Handled(v);
    if w.res1 >= 0 then TakePacket(w, again)
    else
      var x := w.(outcomes := w.outcomes[1..]);
      if w.outcomes[0].retry then Await(Send(x, x.cur), true) else TakePacket(x, again)
  }

  /** If no packet is out, the previous result stays, so an error stays an error. */
  function Wait(v: Sink): Sink
    requires v.pending ==> Out(v)
  {
    if v.pending then Await(v, false) else v
  }

  /** Between v and w the handler may have had its turn, and the program may have waited. */
  ghost predicate Settles(v: Sink, w: Sink) {
    && Sound(v) && Sound(w) && (v.Failed() ==> w == v)
    && w == v.(pending := w.pending, packet := w.packet, res1 := w.res1, outcomes := w.outcomes, disk := w.disk)
    && (Calm(v.outcomes) ==> Calm(w.outcomes) && (w.Failed() ==> v.Failed()))
    && (!w.Failed() ==> w.Written() == v.Written())
  }

  lemma HandleSettles(v: Sink)
    requires Sound(v) && v.packet.InFlight?
    ensures Settles(v, Handle(v))
  {
    if v.outcomes != [] {
      TailForeseen(v.outcomes);
    }
  }

  lemma WaitSettles(v: Sink)
    requires Sound(v)
    ensures Settles(v, Wait(v)) && Wait(v).packet.Home?
  {
    if v.outcomes != [] {
      TailForeseen(v.outcomes);
    }
  }

  /** A retry that then succeeds writes the current buffer in place of the packet's: the chunk
      on its way is lost, unless both buffers hold the same. */
  lemma RetryWritesTheWrongBuffer(v: Sink)
    requires Intact(v) && v.pending && v.packet.InFlight? && v.packetBuf == 1 - v.cur
    requires |v.outcomes| > 1 && v.outcomes[0] == Error(true) && v.outcomes[1].Done?
    ensures Wait(v).disk == v.disk + v.bufs[v.cur]
    ensures Wait(v).disk == v.disk + v.bufs[v.packetBuf] <==> v.bufs[0] == v.bufs[1]
  {
    var x := Send(Handle(v).(outcomes := v.outcomes[1..]), v.cur);
    assert Await(v, false) == Await(x, true) == TakePacket(Handle(x), true);
    assert (v.disk + v.bufs[v.cur])[|v.disk|..] == v.bufs[v.cur];
    assert (v.disk + v.bufs[1 - v.cur])[|v.disk|..] == v.bufs[1 - v.cur];
  }

  // ------------------------------------------------------------------------
  // Writing

  /** Bytes copied to where af_Offset points. */
  function Copied(v: Sink, part: seq<byte>): Sink
    requires v.cur < |v.bufs| && v.offset + |part| <= |v.bufs[v.cur]|
  {
    var b := v.bufs[v.cur];
    v.(bufs := v.bufs[v.cur := b[..v.offset] + part + b[v.offset + |part|..]])
  }

  /** Send the full buffer, and go on in the other one. */
  function Swap(v: Sink): Sink
    requires v.cur < 2
  {
    Send(v, v.cur).(cur := 1 - v.cur, offset := 0, bytesLeft := v.size)
  }

  function Advanced(v: Sink, n: nat): Sink
    requires n <= v.bytesLeft
  {
    v.(offset := v.offset + n, bytesLeft := v.bytesLeft - n)
  }

  /** From v to w the program handed over `data`.  If it then has not seen an error, all of it
      is in its place. */
  ghost predicate Wrote(v: Sink, w: Sink, data: seq<byte>, r: int) {
    && Sound(v) && Sound(w) && w.size == v.size && (v.Failed() ==> w.Failed())
    && (Calm(v.outcomes) ==> Calm(w.outcomes) && (w.Failed() ==> v.Failed()))
    && (r == |data| || (r == -1 && w.Failed()))
    && (!w.Failed() ==> w.Written() == v.Written() + data)
  }

  lemma PutWrites(v: Sink, part: seq<byte>)
    requires Sound(v) && |part| <= v.bytesLeft
    ensures Wrote(v, Advanced(Copied(v, part), |part|), part, |part|)
  {
    var b := v.bufs[v.cur];
    assert (b[..v.offset] + part + b[v.offset + |part|..])[..v.offset + |part|] == b[..v.offset] + part;
  }

  lemma CopySound(v: Sink, part: seq<byte>)
    requires Sound(v) && |part| <= v.bytesLeft
    ensures Sound(Copied(v, part))
  {
  }

  /** Fill the buffer up, wait, and send it. */
  lemma RoundWrites(v: Sink, part: seq<byte>, u: Sink, w: Sink)
    requires Sound(v) && |part| == v.bytesLeft && Settles(Copied(v, part), u) && w == Wait(u)
    ensures w.cur < 2 && (w.res1 >= 0 ==> Wrote(v, Swap(w), part, |part|))
    ensures w.res1 < 0 ==> Wrote(v, w, part, -1)
  {
    var b := v.bufs[v.cur];
    var full := b[..v.offset] + part + b[v.offset + |part|..];
    assert full[..v.size] == full == b[..v.offset] + part;
    WaitSettles(u);
  }

  lemma WroteBoth(u: Sink, v: Sink, w: Sink, d: seq<byte>, e: seq<byte>, r: int)
    requires Wrote(u, v, d, |d|) && Wrote(v, w, e, r)
    ensures Wrote(u, w, d + e, if r < 0 then -1 else |d| + |e|)
  {
  }

  /** The file as closing leaves it: the last chunk is written at once, if nothing failed
      before.  When that fails, `part` bytes of it are there. */
  function Closed(v: Sink, ok: bool, part: nat): (int, seq<byte>)
    requires Sound(v)
  {
    WaitSettles(v);
    var w := Wait(v);
    var rest := w.bufs[w.cur][..w.offset];
    if w.res1 < 0 then (-1, w.disk)
    else if ok then (|rest|, w.disk + rest)
    else (-1, w.disk + if part <= |rest| then rest[..part] else rest)
  }

  lemma CloseKeepsAll(v: Sink, ok: bool, part: nat)
    requires Sound(v)
    ensures Closed(v, ok, part).0 >= 0 ==> !v.Failed() && ok && Closed(v, ok, part).1 == v.Written()
    ensures Calm(v.outcomes) && !v.Failed() && ok ==> Closed(v, ok, part).0 >= 0
  {
    WaitSettles(v);
  }

  /** Whatever is written, in whatever portions: if closing reports no error, then no write did,
      and the file is what it was when opened followed by all that was written. */
  lemma {:induction false} WritesAddUp(states: seq<Sink>, datas: seq<seq<byte>>, rs: seq<int>, ok: bool, part: nat)
    requires |states| == |datas| + 1 == |rs| + 1 && Sound(states[0])
    requires forall i :: 0 <= i < |datas| ==> Wrote(states[i], states[i + 1], datas[i], rs[i])
    ensures Sound(states[|datas|])
    ensures var c := Closed(states[|datas|], ok, part);
            && (c.0 >= 0 ==> (forall i :: 0 <= i < |rs| ==> rs[i] == |datas[i]|) && !states[0].Failed()
                             && c.1 == states[0].Written() + Concat(datas))
            && (Calm(states[0].outcomes) && !states[0].Failed() && ok ==> c.0 >= 0)
  {
    if datas == [] {
      CloseKeepsAll(states[0], ok, part);
      assert states[0].Written() + Concat(datas) == states[0].Written();
    } else {
      WritesAddUp(states[1..], datas[1..], rs[1..], ok, part);
      assert states[1..][|datas| - 1] == states[|datas|];
      var c := Closed(states[|datas|], ok, part);
      if c.0 >= 0 {
        forall i | 0 <= i < |rs|
          ensures rs[i] == |datas[i]|
        {
          if i > 0 {
            assert rs[1..][i - 1] == |datas[1..][i - 1]|;
          } else {
            assert !states[1].Failed();
          }
        }
        assert states[1].Written() == states[0].Written() + datas[0];
      }
    }
  }
}
