/** The asynchronous write handle: fields, two buffers and copy loops (aweb/asyncio.c).
    `View` gives its state as a value of `AsyncWriting`. */
module AsyncWriter {
  import opened Packets
  import opened AsyncWriting

  class AsyncFile {
    const bufferSize: nat
    const buf0: array<byte>
    const buf1: array<byte>
    var offset: nat
    var bytesLeft: nat
    var currentBuf: nat
    var packetPending: bool
    var packet: Packet
    var packetBuf: nat
    var res1: int
    var outcomes: seq<Outcome>
    var disk: seq<byte>

    ghost predicate Fixed() {
      buf0 != buf1 && buf0.Length == buf1.Length == bufferSize
    }

    ghost function Bufs(): seq<seq<byte>>
      reads buf0, buf1
    {
      [buf0[..], buf1[..]]
    }

    ghost function View(): Sink
      reads this, buf0, buf1
    {
      Sink(bufferSize, Bufs(), offset, bytesLeft, currentBuf, packetPending, packet, packetBuf, res1, outcomes, disk)
    }

    ghost predicate Valid()
      reads this, buf0, buf1
    {
      Fixed() && Sound(View())
    }

    /** Open for writing, or at the end of what is there. */
    constructor Open(old_: seq<byte>, append: bool, bufferSize: nat, blockSize: nat, outcomes: seq<Outcome>)
      requires 0 < blockSize && 0 < bufferSize && NoRetry(outcomes)
      ensures Valid() && fresh(buf0) && fresh(buf1) && !View().Failed() && this.outcomes == outcomes
      ensures View().Written() == if append then old_ else []
    {
      var size := RoundUp(bufferSize, blockSize);
      this.bufferSize := size;
      buf0 := new byte[size];
      buf1 := new byte[size];
      offset, bytesLeft, currentBuf := 0, size, 0;
      packet, packetBuf, packetPending, res1 := Home, 0, false, 0;
      this.outcomes := outcomes;
      disk := if append then old_ else [];
      new;
      assert View().Written() == disk;
    }

    function Buf(i: nat): array<byte> {
      if i == 0 then buf0 else buf1
    }

    /** The handler's turn: it writes the packet's buffer at the end of the file. */
    method HandlerStep()
      requires packetBuf < 2
      modifies `packet, `res1, `disk, `outcomes
      ensures View() == Handle(old(View()))
    {
      if outcomes != [] && outcomes[0].Error? {
        res1 := -1;
      } else {
        if outcomes != [] {
          outcomes := outcomes[1..];
        }
        res1, disk := bufferSize, disk + Buf(packetBuf)[..];
      }
      packet := Replied;
    }

    /** The handler may or may not have its turn here. */
    method Tick()
      requires Valid()
      modifies `packet, `res1, `disk, `outcomes
      ensures Settles(old(View()), View())
    {
      if * {
        if packet.InFlight? {
          HandleSettles(View());
          HandlerStep();
        }
      }
    }

    method SendPacket(b: nat)
      modifies `packet, `packetBuf, `packetPending
      ensures View() == Send(old(View()), b)
    {
      packetBuf, packet, packetPending := b, InFlight, true;
    }

    /** One round of waiting: the answer is taken, or the packet sent again. */
    method WaitOnce(ghost v: Sink) returns (bytes: int, again: bool, ghost w: Sink)
      requires Out(v) && View() == v.(pending := packetPending)
      modifies `packet, `packetPending, `packetBuf, `res1, `disk, `outcomes
      ensures bytes == res1
      ensures !again ==> View() == Await(v, old(packetPending))
      ensures again ==> Out(w) && View() == w.(pending := packetPending) && |w.outcomes| < |v.outcomes|
      ensures again ==> Await(w, packetPending) == Await(v, old(packetPending))
    {
      if packet.InFlight? {
        HandlerStep();
      }
      packet, bytes, again, w := Home, res1, false, v;
      if bytes < 0 {
        again := outcomes[0].retry;
        outcomes := outcomes[1..];
        if again {
          SendPacket(currentBuf);
          w := View();
        }
      }
    }

    method WaitPacket() returns (bytes: int)
      requires packetPending ==> Out(View())
      modifies `packet, `packetPending, `packetBuf, `res1, `disk, `outcomes
      ensures View() == Wait(old(View())) && bytes == res1
    {
      bytes := res1;
      if packetPending {
        ghost var v := View();
        packetPending := false;
        var again := true;
        while again
          invariant !again ==> bytes == res1
          invariant again ==> Out(v) && View() == v.(pending := packetPending)
          invariant if again then Await(v, packetPending) == Wait(old(View())) else View() == Wait(old(View()))
          decreases again, |v.outcomes|
        {
          bytes, again, v := WaitOnce(v);
        }
      }
    }

    /** Copy bytes to where the offset points. */
    method CopyMem(part: seq<byte>)
      requires Fixed() && currentBuf < 2 && offset + |part| <= bufferSize
      modifies Buf(currentBuf)
      ensures View() == Copied(old(View()), part)
    {
      var b := Buf(currentBuf);
      forall i | 0 <= i < |part| {
        b[offset + i] := part[i];
      }
      assert b[..] == old(b[..])[..offset] + part + old(b[..])[offset + |part|..];
      assert buf0[..] == if currentBuf == 0 then b[..] else old(buf0[..]);
      assert buf1[..] == if currentBuf == 0 then old(buf1[..]) else b[..];
    }

    /** Step over what was copied. */
    method Advance(n: nat)
      requires n <= bytesLeft
      modifies `offset, `bytesLeft
      ensures View() == Advanced(old(View()), n)
    {
      offset, bytesLeft := offset + n, bytesLeft - n;
    }

    /** Send the full buffer, and go on in the other one. */
    method SwapBuffers()
      requires currentBuf < 2
      modifies this
      ensures View() == Swap(old(View()))
    {
      SendPacket(currentBuf);
      currentBuf := 1 - currentBuf;
      offset, bytesLeft := 0, bufferSize;
    }

    /** Fill the buffer up, wait for the other one, and send this one. */
    method WriteRound(part: seq<byte>) returns (ok: bool)
      requires Valid() && |part| == bytesLeft
      modifies this, buf0, buf1
      ensures Wrote(old(View()), View(), part, if ok then |part| else -1) && (ok ==> bytesLeft == bufferSize)
    {
      ghost var v := View();
      CopyMem(part);
      CopySound(v, part);
      Tick();
      ghost var u := View();
      WaitSettles(u);
      var bytes := WaitPacket();
      RoundWrites(v, part, u, View());
      ok := bytes >= 0;
      if ok {
        SwapBuffers();
      }
    }

    method WriteAsync(data: seq<byte>) returns (r: int)
      requires Valid()
      modifies this, buf0, buf1
      ensures Wrote(old(View()), View(), data, r)
    {
      ghost var v := View();
      var done := 0;
      while |data| - done > bytesLeft
        invariant done <= |data| && Wrote(v, View(), data[..done], done)
        invariant bytesLeft == 0 ==> done == 0
        decreases |data| - done, bufferSize - bytesLeft
      {
        var part := data[done..done + bytesLeft];
        ghost var u := View();
        var ok := WriteRound(part);
        WroteBoth(v, u, View(), data[..done], part, if ok then |part| else -1);
        assert data[..done] + part == data[..done + |part|];
        if !ok {
          return -1;
        }
        done := done + |part|;
      }
      ghost var u := View();
      var rest := data[done..];
      PutWrites(u, rest);
      CopyMem(rest);
      Advance(|rest|);
      WroteBoth(v, u, View(), data[..done], rest, |rest|);
      assert data[..done] + rest == data;
      return |data|;
    }

    method WriteCharAsync(ch: byte) returns (r: int)
      requires Valid()
      modifies this, buf0, buf1
      ensures Wrote(old(View()), View(), [ch], r)
    {
      if bytesLeft > 0 {
        PutWrites(View(), [ch]);
        CopyMem([ch]);
        Advance(1);
        return 1;
      }
      r := WriteAsync([ch]);
    }

    /** Flush and close.  The outcome of the last write is `ok`. */
    method CloseAsync(ok: bool, part: nat) returns (r: int)
      requires Valid()
      modifies this
      ensures (r, disk) == Closed(old(View()), ok, part)
    {
      WaitSettles(View());
      r := WaitPacket();
      if r >= 0 {
        var rest := Buf(currentBuf)[..bufferSize - bytesLeft];
        assert rest == Bufs()[currentBuf][..offset];
        if ok {
          r, disk := |rest|, disk + rest;
        } else {
          r, disk := -1, disk + if part <= |rest| then rest[..part] else rest;
        }
      }
    }
  }
}
