/** The asynchronous read handle: fields, two buffers and copy loops (aweb/asyncio.c).
    `View` gives its state as a value of `AsyncReading`. */
module AsyncReader {
  import opened Basics
  import opened Packets
  import opened AsyncReading
  import opened AsyncLines
  import opened AsyncSeeking

  class AsyncFile {
    const blockSize: nat
    const bufferSize: nat
    const buf0: array<byte>
    const buf1: array<byte>
    var offsetBuf: nat
    var offset: nat
    var bytesLeft: nat
    var currentBuf: nat
    var seekOffset: nat
    var packetPending: bool
    // the packet, and the handler's side
    var packet: Packet
    var packetBuf: nat
    var res1: int
    const file: seq<byte>
    var pos: nat
    var outcomes: seq<Outcome>
    ghost var fetch: nat
    ghost var lo: nat

    ghost predicate Fixed() {
      buf0 != buf1 && buf0.Length == buf1.Length == bufferSize && 0 < blockSize <= bufferSize
    }

    ghost function Bufs(): seq<seq<byte>>
      reads buf0, buf1
    {
      [buf0[..], buf1[..]]
    }

    ghost function View(): Link
      reads this, buf0, buf1
    {
      Link(file, bufferSize, Bufs(), offsetBuf, offset, bytesLeft, currentBuf, seekOffset,
           packetPending, packet, res1, pos, outcomes, fetch, lo)
    }

    ghost predicate Valid()
      reads this, buf0, buf1
    {
      Fixed() && packetBuf == currentBuf && Ok(View())
    }

    constructor Open(file: seq<byte>, bufferSize: nat, blockSize: nat, outcomes: seq<Outcome>)
      requires 0 < blockSize && 0 < bufferSize && 2 <= RoundUp(bufferSize, blockSize) < 0x8000_0000
      ensures Valid() && fresh(buf0) && fresh(buf1)
      ensures this.bufferSize == RoundUp(bufferSize, blockSize)
      ensures View().Settled() && View().At() == 0 && !View().Stuck() && !View().Failed()
      ensures this.file == file && this.outcomes == outcomes
    {
      this.file, this.blockSize, this.outcomes := file, blockSize, outcomes;
      var size := RoundUp(bufferSize, blockSize);
      this.bufferSize := size;
      buf0 := new byte[size];
      buf1 := new byte[size];
      offsetBuf, offset, bytesLeft, currentBuf, seekOffset := 0, 0, 0, 0, 0;
      packet, packetBuf, packetPending, res1, pos := InFlight, 0, true, 0, 0;
      fetch, lo := 0, 0;
    }

    function Buf(i: nat): array<byte> {
      if i == 0 then buf0 else buf1
    }

    // ----------------------------------------------------------------------
    // Packets

    /** DMA into the packet's buffer. */
    method Fill(n: nat)
      requires Fixed() && packetBuf == currentBuf < 2 && n <= bufferSize && pos + n <= |file|
      modifies Buf(currentBuf)
      ensures Bufs() == old(Bufs())[currentBuf := file[pos..pos + n] + old(Bufs())[currentBuf][n..]]
    {
      var b := Buf(packetBuf);
      forall i | 0 <= i < n {
        b[i] := file[pos + i];
      }
      assert b[..] == file[pos..pos + n] + old(b[..])[n..];
      assert buf0[..] == if currentBuf == 0 then b[..] else old(buf0[..]);
      assert buf1[..] == if currentBuf == 0 then old(buf1[..]) else b[..];
    }

    /** The handler's turn: it fills the packet's buffer. */
    method HandlerStep()
      requires Fixed() && packetBuf == currentBuf < 2 && pos <= |file|
      modifies `packet, `res1, `pos, `outcomes, Buf(currentBuf)
      ensures View() == Handle(old(View()))
    {
      if outcomes != [] && outcomes[0].Error? {
        res1 := -1;
      } else {
        if outcomes != [] {
          outcomes := outcomes[1..];
        }
        var n := Min(bufferSize, |file| - pos);
        Fill(n);
        res1, pos := n, pos + n;
      }
      packet := Replied;
    }

    /** The handler may or may not have its turn here. */
    method Tick()
      requires Valid()
      modifies `packet, `res1, `pos, `outcomes, Buf(currentBuf)
      ensures Valid() && Ticked(old(View()), View())
    {
      if * {
        if packet.InFlight? {
          HandleOk(View());
          HandleTicks(View());
          HandlerStep();
        }
      }
    }

    method SendPacket(b: nat)
      modifies `packet, `packetBuf, `packetPending
      ensures packet.InFlight? && packetBuf == b && packetPending
    {
      packetBuf, packet, packetPending := b, InFlight, true;
    }

    /** Take the packet from the port, once the handler has put it there. */
    method Receive(ghost v: Link) returns (bytes: int)
      requires Fixed() && packetBuf == currentBuf && Ok(v) && v.pending && !v.packet.Home?
      requires View() == v.(pending := packetPending)
      modifies `packet, `res1, `pos, `outcomes, Buf(currentBuf)
      ensures View() == Handled(v).(packet := Home, pending := packetPending) && bytes == res1
    {
      if packet.InFlight? {
        HandlerStep();
      }
      packet, bytes := Home, res1;
    }

    /** One round of waiting: the answer is taken, or the packet sent again. */
    method WaitOnce(ghost v: Link) returns (bytes: int, again: bool, ghost w: Link)
      requires Fixed() && packetBuf == currentBuf && Ok(v) && v.pending && !v.packet.Home?
      requires View() == v.(pending := packetPending)
      modifies `packet, `packetPending, `packetBuf, `res1, `pos, `outcomes, Buf(currentBuf)
      ensures packetBuf == currentBuf && bytes == res1
      ensures !again ==> View() == Await(v, old(packetPending))
      ensures again ==> Ok(w) && w.pending && !w.packet.Home? && View() == w.(pending := packetPending)
      ensures again ==> Await(w, packetPending) == Await(v, old(packetPending)) && |w.outcomes| < |v.outcomes|
    {
      HandledOk(v);
      w := v;
      again := false;
      bytes := Receive(v);
      if bytes < 0 {
        RetryOk(v);
        w := Resent(Handled(v));
        again := outcomes[0].retry;
        outcomes := outcomes[1..];
        if again {
          SendPacket(currentBuf);
        }
      }
    }

    /** Wait for the packet to come back. */
    method WaitPacket() returns (bytes: int)
      requires Valid() && !View().Stuck()
      modifies `packet, `packetPending, `packetBuf, `res1, `pos, `outcomes, Buf(currentBuf)
      ensures View() == Wait(old(View())) && bytes == res1 && packetBuf == currentBuf
    {
      bytes := res1;
      if packetPending {
        ghost var v := View();
        packetPending := false;
        var again := true;
        while again
          invariant packetBuf == currentBuf && (!again ==> bytes == res1)
          invariant again ==> Ok(v) && v.pending && !v.packet.Home? && View() == v.(pending := packetPending)
          invariant if again then Await(v, packetPending) == Wait(old(View())) else View() == Wait(old(View()))
          decreases again, |v.outcomes|
        {
          bytes, again, v := WaitOnce(v);
        }
      }
    }

    // ----------------------------------------------------------------------
    // Reading

    /** Wait for the next chunk, go over to it, and have the other buffer filled. */
    method NextBuffer() returns (bytes: int)
      requires Valid() && bytesLeft == 0 && !View().Stuck()
      modifies this, buf0, buf1
      ensures packetBuf == currentBuf && View() == Refill(old(View())) && bytes == Wait(old(View())).res1
    {
      WaitArrives(View());
      bytes := WaitPacket();
      if bytes > 0 {
        SwapBuffers(bytes);
      }
    }

    method SwapBuffers(bytes: nat)
      requires Fixed() && currentBuf < 2 && bytes == res1 > 0
      modifies this
      ensures packetBuf == currentBuf && View() == Swap(old(View()))
    {
      SendPacket(1 - currentBuf);
      GoOver(bytes);
    }

    /** Read on in the buffer that arrived, after the bytes to skip. */
    method GoOver(bytes: nat)
      requires Fixed() && currentBuf < 2
      modifies `seekOffset, `fetch, `lo, `offsetBuf, `offset, `currentBuf, `bytesLeft
      ensures var v, skip := old(View()), Min(old(seekOffset), bytes);
              View() == v.(offsetBuf := v.cur, offset := skip, cur := 1 - v.cur, bytesLeft := bytes - skip, seekOffset := 0,
                           fetch := v.fetch + bytes, lo := 0)
    {
      if seekOffset > bytes {
        seekOffset := bytes;
      }
      fetch, lo := fetch + bytes, 0;
      offsetBuf, offset := currentBuf, seekOffset;
      currentBuf := 1 - currentBuf;
      bytesLeft := bytes - seekOffset;
      seekOffset := 0;
    }

    /** Copy out what is left in the buffer, and mark it empty. */
    method Drain() returns (data: seq<byte>)
      requires Valid()
      modifies `bytesLeft, `lo
      ensures View() == Drained(old(View())) && data == Unread(old(View()), old(bytesLeft))
    {
      data := Buf(offsetBuf)[offset..offset + bytesLeft];
      lo := if bytesLeft > 0 then offset else lo;
      bytesLeft := 0;
    }

    /** Copy out n bytes, and step over them. */
    method Take(n: nat) returns (data: seq<byte>)
      requires Valid() && n <= bytesLeft
      modifies `bytesLeft, `offset
      ensures View() == Taken(old(View()), n) && data == Unread(old(View()), n)
    {
      data := Buf(offsetBuf)[offset..offset + n];
      bytesLeft, offset := bytesLeft - n, offset + n;
    }

    method ReadRound() returns (bytes: int, data: seq<byte>)
      requires Valid() && !View().Stuck()
      modifies this, buf0, buf1
      ensures packetBuf == currentBuf && |data| == old(bytesLeft)
      ensures Round(old(View()), View(), bytes, data)
    {
      ghost var v := View();
      DrainedOk(v);
      data := Drain();
      Tick();
      RoundOk(v, View());
      bytes := NextBuffer();
    }

    method ReadAsync(numBytes: nat) returns (r: int, data: seq<byte>)
      requires Valid() && !View().Stuck()
      modifies this, buf0, buf1
      ensures packetBuf == currentBuf && Reads(old(View()), View(), numBytes, r, data)
    {
      ghost var v, again := View(), false;
      var n: nat := numBytes;
      data := [];
      ReadingBegins(v, numBytes);
      while n > bytesLeft
        invariant packetBuf == currentBuf && Reading(v, View(), numBytes, n, again, data)
        decreases |file| - fetch
      {
        ghost var u := View();
        var bytes, part := ReadRound();
        ReadingGoesOn(v, u, View(), numBytes, n, again, data, bytes, part);
        data, n, again := data + part, n - |part|, true;
        if bytes <= 0 {
          return if bytes == 0 then |data| else -1, data;
        }
      }
      ReadingEnds(v, View(), numBytes, n, again, data);
      var rest := Take(n);
      return numBytes, data + rest;
    }

    method ReadCharAsync() returns (r: int)
      requires Valid() && !View().Stuck()
      modifies this, buf0, buf1
      ensures packetBuf == currentBuf && ReadsChar(old(View()), View(), r)
    {
      ghost var v := View();
      if bytesLeft > 0 {
        ReadingBegins(v, 1);
        ReadingEnds(v, v, 1, 1, false, []);
        var one := Take(1);
        assert one == [one[0]] == [] + Unread(v, 1);
        return one[0] as int;
      }
      var n, data := ReadAsync(1);
      if n > 0 {
        assert data == [data[0]];
        return data[0] as int;
      }
      assert data == [];
      return -1;
    }

    // ----------------------------------------------------------------------
    // Lines

    /** Copy bytes out of the buffer up to a newline, but at most `count`. */
    method CopyLine(count: nat) returns (part: seq<byte>)
      requires Valid() && count <= bytesLeft
      ensures part == LineOf(Unread(View(), bytesLeft), count)
    {
      ghost var a := Unread(View(), bytesLeft);
      var b := Buf(offsetBuf);
      var i := 0;
      part := [];
      assert |a| == bytesLeft && forall k :: 0 <= k < bytesLeft ==> a[k] == b[offset + k];
      while i < count && b[offset + i] != NEWLINE
        invariant i <= count && part == a[..i] && NoNewline(part)
      {
        assert a[..i + 1] == a[..i] + [b[offset + i]];
        part, i := part + [b[offset + i]], i + 1;
      }
      LineBegins(a[..count], part, count);
      LineCut(a, count);
      if i < count {
        part := part + [NEWLINE];
      }
    }

    /** The part of a line that is in the buffer. */
    method LineFromBuffer(ghost v: Link, numBytes: nat, n: int, line: seq<byte>) returns (got: seq<byte>, done: bool)
      requires packetBuf == currentBuf && Fixed() && numBytes >= 2 && Lining(v, View(), numBytes, n, line) && bytesLeft > 0
      modifies `bytesLeft, `offset
      ensures done ==> ReadsLine(v, View(), numBytes, got)
      ensures !done ==> Lining(v, View(), numBytes, n - (|got| - |line|), got) && bytesLeft == 0 && |got| >= |line|
    {
      ghost var u := View();
      var part := CopyLine(if n <= 0 then 0 else Min(n, bytesLeft));
      LiningTakes(v, u, numBytes, n, line, part);
      var taken := Take(|part|);
      got := line + part;
      done := |part| >= n || part[|part| - 1] == NEWLINE;
    }

    /** One more byte, which gets the next chunk. */
    method LineFromFile(ghost v: Link, numBytes: nat, n: int, line: seq<byte>) returns (got: seq<byte>, done: bool)
      requires packetBuf == currentBuf && Fixed() && numBytes >= 2 && Lining(v, View(), numBytes, n, line) && bytesLeft == 0
      modifies this, buf0, buf1
      ensures packetBuf == currentBuf
      ensures done ==> ReadsLine(v, View(), numBytes, got)
      ensures !done ==> Lining(v, View(), numBytes, n - 1, got) && |got| == |line| + 1
    {
      ghost var u := View();
      var r, one := ReadAsync(1);
      LiningReads(v, u, View(), numBytes, n, line, r, one);
      got := line + one;
      done := r < 1 || one[0] == NEWLINE;
      assert r == 1 ==> one == [one[0]];
    }

    method LineRound(ghost v: Link, numBytes: nat, n: int, line: seq<byte>) returns (got: seq<byte>, done: bool)
      requires packetBuf == currentBuf && Fixed() && numBytes >= 2 && Lining(v, View(), numBytes, n, line)
      modifies this, buf0, buf1
      ensures packetBuf == currentBuf
      ensures done ==> ReadsLine(v, View(), numBytes, got)
      ensures !done ==> Lining(v, View(), numBytes, n - (|got| - |line|), got) && |got| > |line|
    {
      got, done := line, false;
      if bytesLeft > 0 {
        got, done := LineFromBuffer(v, numBytes, n, line);
      }
      if !done {
        got, done := LineFromFile(v, numBytes, n - (|got| - |line|), got);
      }
    }

    /** Read a line.  None stands for the null pointer. */
    method FGetsLenAsync(numBytes: int) returns (r: Option<seq<byte>>)
      requires Valid() && !View().Stuck()
      modifies this, buf0, buf1
      ensures packetBuf == currentBuf
      ensures numBytes <= 1 ==> r.None? && View() == old(View())
      ensures numBytes > 1 ==> ReadsLine(old(View()), View(), numBytes, if r.None? then [] else r.value) && r != Some([])
    {
      if numBytes <= 1 {
        return None;
      }
      ghost var v := View();
      var line, done := [], false;
      AtInFile(v);
      while !done
        invariant packetBuf == currentBuf
        invariant if done then ReadsLine(v, View(), numBytes, line)
                  else Lining(v, View(), numBytes, numBytes - 1 - |line|, line)
        decreases if done then 0 else numBytes + 1 - |line|
      {
        line, done := LineRound(v, numBytes, numBytes - 1 - |line|, line);
      }
      return if line == [] then None else Some(line);
    }

    // ----------------------------------------------------------------------
    // Seeking

    /** Start reading again from the block with the target. */
    method Restart(target: int)
      requires currentBuf < 2 && blockSize > 0 && 0 <= CDiv(target, blockSize) * blockSize
      modifies this
      ensures packetBuf == currentBuf && View() == FarSeek(old(View()), blockSize, target)
    {
      var round := CDiv(target, blockSize) * blockSize;
      pos := round;
      SendPacket(0);
      seekOffset, bytesLeft, currentBuf := ULong(target - round), 0, 0;
      fetch, lo := round, offset;
    }

    /** Move within the buffer being read, as if the packet had not come yet. */
    method RequeuePacket(diff: int)
      modifies this
      ensures packetBuf == old(packetBuf) && currentBuf == old(currentBuf) && View() == Requeue(old(View()), diff)
    {
      packet, packetPending := Replied, true;
      bytesLeft := if diff <= bytesLeft then bytesLeft - diff else 0;
      offset := if offset + diff >= 0 then offset + diff else 0;
    }

    /** Go over to the buffer that arrived, past what is not wanted of it. */
    method JumpAhead(diff: int)
      requires currentBuf < 2 && bytesLeft < diff <= bytesLeft + res1 && 0 <= res1
      modifies this
      ensures packetBuf == currentBuf && View() == Jump(old(View()), diff)
    {
      SendPacket(1 - currentBuf);
      fetch, lo := fetch + res1, 0;
      offsetBuf, offset := currentBuf, diff - bytesLeft;
      currentBuf := 1 - currentBuf;
      bytesLeft := res1 - (diff - bytesLeft);
    }

    method SeekArrived(target: int, current: int) returns (ok: bool)
      requires currentBuf < 2 && packetBuf == currentBuf && 0 <= res1 && 0 < blockSize && current == Current(View())
      modifies this
      ensures packetBuf == currentBuf
      ensures match Seek(old(View()), blockSize, target)
              case Some(x) => ok && View() == x
              case None => !ok && View() == old(View()).(res1 := -1)
    {
      var minBuf := current - (offsetBuf * bufferSize + offset - (1 - currentBuf) * bufferSize);
      var maxBuf := current + bytesLeft + res1;
      var diff := target - current;
      ok := true;
      if target < minBuf || target >= maxBuf {
        var round := CDiv(target, blockSize) * blockSize;
        if 0 <= round <= |file| {
          Restart(target);
        } else {
          res1, ok := -1, false;
        }
      } else if target < current || diff <= bytesLeft {
        RequeuePacket(diff);
      } else {
        JumpAhead(diff);
      }
    }

    method SeekAsync(position: int, mode: SeekMode) returns (r: int)
      requires Valid() && !View().Stuck()
      modifies this, buf0, buf1
      ensures packetBuf == currentBuf
      ensures var w := Wait(old(View())); w.res1 < 0 ==> r == -1 && View() == w
      ensures var w := Wait(old(View())); w.res1 >= 0 && w.cur < 2 ==>
                match Seek(w, blockSize, Target(w, position, mode))
                case Some(x) => r == Current(w) && View() == x
                case None => r == -1 && View() == w.(res1 := -1)
    {
      var bytes := WaitPacket();
      if bytes < 0 {
        return -1;
      }
      var current := pos - (bytesLeft + bytes);
      var target := match mode
        case FromStart => position
        case FromCurrent => current + position
        case FromEnd => |file| + position;
      var ok := SeekArrived(target, current);
      r := if ok then current else -1;
    }
  }
}
