/** Seeking while a packet is out (aweb/asyncio.c, SeekAsync in read mode), on values. */
module AsyncSeeking {
  import opened Basics
  import opened Packets
  import opened AsyncReading

  datatype SeekMode = FromStart | FromCurrent | FromEnd

  /** Division as C does it: toward zero. */
  function CDiv(a: int, b: int): int
    requires b > 0
  {
    if a >= 0 then a / b else -(-a / b)
  }

  /** A negative number stored as an unsigned 32-bit one. */
  function ULong(a: int): nat {
    a % 0x1_0000_0000
  }

  /** Where the program thinks it is. */
  function Current(w: Link): int {
    w.pos - (w.bytesLeft + w.res1)
  }

  function Target(w: Link, position: int, mode: SeekMode): int {
    match mode
    case FromStart => position
    case FromCurrent => Current(w) + position
    case FromEnd => |w.file| + position
  }

  /** The lowest position the program thinks is in its buffers.  The two buffers lie one after
      the other in memory. */
  function MinBuf(w: Link): int {
    Current(w) - (w.offsetBuf * w.size + w.offset - (1 - w.cur) * w.size)
  }

  predicate IsFar(w: Link, target: int) {
    target < MinBuf(w) || target >= Current(w) + w.bytesLeft + w.res1
  }

  function Restarted(w: Link, round: nat, skip: nat): Link {
    w.(pos := round, fetch := round, packet := InFlight, pending := true, cur := 0,
       seekOffset := skip, bytesLeft := 0, lo := w.offset)
  }

  /** Move the file pointer to the block with the target, and start reading there. */
  function FarSeek(w: Link, block: nat, target: int): Link
    requires block > 0 && 0 <= CDiv(target, block) * block
  {
    var round := CDiv(target, block) * block;
    Restarted(w, round, ULong(target - round))
  }

  /** Put the packet back in the port, and move within the buffer being read. */
  function Requeue(w: Link, diff: int): Link {
    w.(packet := Replied, pending := true,
       bytesLeft := if diff <= w.bytesLeft then w.bytesLeft - diff else 0,
       offset := if w.offset + diff >= 0 then w.offset + diff else 0)
  }

  /** Go over to the buffer that arrived, and skip to the target in it. */
  function Jump(w: Link, diff: int): Link
    requires w.cur < 2 && w.bytesLeft < diff <= w.bytesLeft + w.res1 && 0 <= w.res1
  {
    var d := diff - w.bytesLeft;
    w.(packet := InFlight, pending := true, offsetBuf := w.cur, offset := d, cur := 1 - w.cur,
       bytesLeft := w.res1 - d, fetch := w.fetch + w.res1, lo := 0)
  }

  /** What a seek does once the packet is home.  None means that moving the file pointer failed. */
  function Seek(w: Link, block: nat, target: int): Option<Link>
    requires 0 < block && w.cur < 2 && 0 <= w.res1
  {
    var diff := target - Current(w);
    if IsFar(w, target) then
      var round := CDiv(target, block) * block;
      if 0 <= round <= |w.file| then Some(FarSeek(w, block, target)) else None
    else if target < Current(w) || diff <= w.bytesLeft then Some(Requeue(w, diff))
    else Some(Jump(w, diff))
  }

  lemma RoundDown(target: nat, block: nat)
    requires 0 < block
    ensures 0 <= CDiv(target, block) * block <= target < CDiv(target, block) * block + block
  {
    assert target == target / block * block + target % block;
  }

  lemma RoundUpToZero(target: int, block: int)
    requires 0 < block && target < 0
    ensures CDiv(target, block) * block <= 0
    ensures -block < target ==> CDiv(target, block) == 0
    ensures target <= -block ==> CDiv(target, block) * block < 0
  {
    assert -target == -target / block * block + -target % block;
    if target <= -block {
      assert -target / block >= 1;
    }
  }

  lemma SkipInBlock(target: int, block: nat)
    requires 0 < block < 0x8000_0000 && 0 <= CDiv(target, block) * block
    ensures var round := CDiv(target, block) * block;
            if target >= 0 then round <= target < round + block && ULong(target - round) == target - round
            else round == 0 && ULong(target - round) >= 0x8000_0000
  {
    if target >= 0 {
      RoundDown(target, block);
    } else {
      RoundUpToZero(target, block);
    }
  }

  lemma RestartOk(v: Link, w: Link, round: nat, skip: nat)
    requires Ok(v) && Arrived(v, w) && round <= |w.file|
    ensures var x := Restarted(w, round, skip);
            Ok(x) && !x.Stuck() && x.At() == round + Min(skip, Min(w.size, |w.file| - round))
  {
  }

  lemma FarSeekOk(v: Link, w: Link, block: nat, target: int)
    requires Ok(v) && Arrived(v, w) && w.res1 >= 0 && 0 < block <= w.size
    requires var round := CDiv(target, block) * block; 0 <= round <= |w.file|
    ensures var x := FarSeek(w, block, target);
            && Ok(x) && !x.Stuck()
            && (0 <= target <= |w.file| ==> x.At() == target)
            && (target > |w.file| ==> x.At() == |w.file|)
            && (target < 0 ==> x.At() == Min(w.size, |w.file|))
  {
    var round := CDiv(target, block) * block;
    SkipInBlock(target, block);
    RestartOk(v, w, round, ULong(target - round));
  }

  lemma RequeueOk(v: Link, w: Link, target: int)
    requires Ok(v) && v.Settled() && Arrived(v, w) && w.res1 >= 0
    requires !IsFar(w, target) && (target < Current(w) || target - Current(w) <= w.bytesLeft)
    ensures var x := Requeue(w, target - Current(w));
            Ok(x) && !x.Stuck() && x.At() == target && x.Settled()
  {
  }

  lemma JumpOk(v: Link, w: Link, target: int)
    requires Ok(v) && v.Settled() && Arrived(v, w) && w.res1 >= 0
    requires !IsFar(w, target) && target >= Current(w) && target - Current(w) > w.bytesLeft
    ensures var x := Jump(w, target - Current(w));
            Ok(x) && !x.Stuck() && x.At() == target && x.Settled()
  {
  }

  lemma SeekIsOneOf(w: Link, block: nat, target: int)
    requires 0 < block && w.cur < 2 && 0 <= w.res1 && 0 <= target
    ensures IsFar(w, target) ==>
              var round := CDiv(target, block) * block;
              && 0 <= round
              && Seek(w, block, target) == (if round <= |w.file| then Some(FarSeek(w, block, target)) else None)
    ensures !IsFar(w, target) ==>
              Seek(w, block, target) == if target < Current(w) || target - Current(w) <= w.bytesLeft
                                        then Some(Requeue(w, target - Current(w))) else Some(Jump(w, target - Current(w)))
  {
    RoundDown(target, block);
  }

  /** A far seek needs no settled state. */
  lemma SeekGoesFar(v: Link, w: Link, block: nat, target: nat)
    requires Ok(v) && Arrived(v, w) && w.res1 >= 0 && 0 < block <= w.size && IsFar(w, target) && target <= |w.file|
    ensures 0 <= CDiv(target, block) * block && Seek(w, block, target) == Some(FarSeek(w, block, target))
    ensures var x := FarSeek(w, block, target); Ok(x) && !x.Stuck() && x.At() == target
  {
    SeekIsOneOf(w, block, target);
    RoundDown(target, block);
    FarSeekOk(v, w, block, target);
  }

  /** From a settled state, a seek to any place in the file gets there: by moving the file
      pointer, by moving within the buffer being read, or by going over to the buffer that
      arrived.  Past the end it goes to the end, or fails. */
  lemma SeekGetsThere(v: Link, w: Link, block: nat, target: nat)
    requires Ok(v) && v.Settled() && Arrived(v, w) && w.res1 >= 0 && 0 < block <= w.size
    ensures Current(w) == v.At()
    ensures target <= |w.file| ==> Seek(w, block, target).Some?
    ensures Seek(w, block, target).Some? ==>
              var x := Seek(w, block, target).value;
              Ok(x) && !x.Stuck() && x.At() == Min(target, |w.file|)
  {
    SeekIsOneOf(w, block, target);
    RoundDown(target, block);
    if IsFar(w, target) {
      if Seek(w, block, target).Some? {
        FarSeekOk(v, w, block, target);
      }
    } else if target < Current(w) || target - Current(w) <= w.bytesLeft {
      RequeueOk(v, w, target);
    } else {
      JumpOk(v, w, target);
    }
  }

  // ------------------------------------------------------------------------
  // Seeks that go wrong

  /** What would be read from a state on, whether or not that is right. */
  function Stream(x: Link): seq<byte> {
    (if x.offsetBuf < |x.bufs| && x.offset + x.bytesLeft <= |x.bufs[x.offsetBuf]|
     then x.bufs[x.offsetBuf][x.offset..x.offset + x.bytesLeft] else [])
    + if 0 <= x.fetch + x.Skip() <= |x.file| then x.file[x.fetch + x.Skip()..] else []
  }

  lemma StreamOfOk(x: Link)
    requires Ok(x)
    ensures 0 <= x.At() <= |x.file| && Stream(x) == x.file[x.At()..]
  {
    UnreadIsNext(x, x.bytesLeft);
    assert x.file[x.At()..] == x.file[x.At()..x.At() + x.bytesLeft] + x.file[x.At() + x.bytesLeft..];
  }

  /** A read that met the end of the file leaves the pointer behind.  A seek back to a place
      that the program then thinks is in the buffer gives bytes from further up in the file;
      a seek to any other place gets there. */
  lemma SeekAfterShortRead(v: Link, block: nat, target: nat)
    requires Ok(v) && v.packet.Home? && v.res1 == 0 && v.seekOffset == 0 && v.bytesLeft == 0
    requires v.offsetBuf == 1 - v.cur && v.lo == v.offset && 0 < block <= v.size && target <= |v.file|
    ensures Seek(v, block, target).Some?
    ensures var x := Seek(v, block, target).value;
            if |v.file| - v.offset <= target < |v.file|
            then Stream(x) == v.bufs[v.offsetBuf][v.offset - (|v.file| - target)..v.offset]
            else Ok(x) && Stream(x) == v.file[target..]
  {
    SeekIsOneOf(v, block, target);
    RoundDown(target, block);
    if IsFar(v, target) {
      FarSeekOk(v, v, block, target);
      StreamOfOk(FarSeek(v, block, target));
    }
  }

  /** For instance: of a file of three bytes, read one, then ask for more than there are, then
      go back to the last byte.  What comes is the first byte. */
  lemma SeekBackGoesAstray(junk: seq<byte>)
    requires |junk| == 16
    ensures var v := Link([1, 2, 3], 16, [junk, junk], 0, 0, 0, 0, 0, true, InFlight, 0, 0, [], 0, 0);
            && Ok(v) && v.Settled() && Wait(v).res1 == 3
            && var u := Drained(Taken(Swap(Wait(v)), 1));
            && Ok(u) && !u.Stuck() && Wait(u).res1 == 0 && Wait(u).cur < 2
            && var x := Seek(Wait(u), 16, 2);
            && x.Some? && Stream(x.value) == [1]
  {
    var v := Link([1, 2, 3], 16, [junk, junk], 0, 0, 0, 0, 0, true, InFlight, 0, 0, [], 0, 0);
    var b: seq<byte> := [1, 2, 3] + junk[3..];
    var w := Link([1, 2, 3], 16, [b, junk], 0, 0, 0, 0, 0, false, Home, 3, 3, [], 0, 0);
    assert v.file[0..3] + junk[3..] == b && v.bufs[0 := b] == w.bufs;
    assert Handle(v) == w.(packet := Replied, pending := true);
    assert Wait(v) == w;
    var u := Link([1, 2, 3], 16, [b, junk], 0, 1, 0, 1, 0, true, InFlight, 3, 3, [], 3, 1);
    assert Drained(Taken(Swap(w), 1)) == u;
    assert b[1..3] == [1, 2, 3][1..3];
    ThenAstray(b, junk);
  }

  lemma ThenAstray(b: seq<byte>, junk: seq<byte>)
    requires |b| == |junk| == 16 && b[..3] == [1, 2, 3]
    ensures var u := Link([1, 2, 3], 16, [b, junk], 0, 1, 0, 1, 0, true, InFlight, 3, 3, [], 3, 1);
            && Ok(u) && !u.Stuck() && Wait(u).res1 == 0 && Wait(u).cur < 2
            && var x := Seek(Wait(u), 16, 2);
            && x.Some? && Stream(x.value) == [1]
  {
    var u := Link([1, 2, 3], 16, [b, junk], 0, 1, 0, 1, 0, true, InFlight, 3, 3, [], 3, 1);
    var w := u.(packet := Home, pending := false, res1 := 0);
    assert u.file[3..3] + junk[0..] == junk && u.bufs[1 := junk] == u.bufs;
    assert Handle(u) == u.(packet := Replied, res1 := 0);
    assert Wait(u) == w;
    SeekAfterShortRead(w, 16, 2);
    assert b[0..1] == b[..3][0..1];
  }

  /** The packet is back with data, and the buffer being read is used up. */
  ghost predicate UsedUp(w: Link) { Shape(w) && Window(w) && w.bytesLeft == 0 && w.res1 >= 0 && Answered(w) }

  /** What the program takes for the bytes of the file from the target on: bytes of the buffer that
      arrived, or of the one that is used up. */
  function Near(w: Link, target: nat): seq<byte>
    requires Shape(w) && w.offsetBuf < 2
  {
    if target > w.fetch then if target <= w.fetch + w.res1 <= |w.file| then w.file[target..w.fetch + w.res1] else []
    else if w.fetch - target <= w.offset <= w.size then w.bufs[w.offsetBuf][w.offset - (w.fetch - target)..w.offset]
    else []
  }

  lemma JumpStreams(w: Link, target: nat)
    requires UsedUp(w) && w.fetch < target <= w.fetch + w.res1
    ensures var x := Jump(w, target - w.fetch);
            && x.fetch == w.fetch + w.res1 && x.seekOffset == w.seekOffset
            && Stream(x) == w.file[target..x.fetch] + w.file[x.fetch + x.Skip()..]
  {
    var b, d := w.bufs[w.cur], target - w.fetch;
    assert b[0..w.res1][d..] == w.file[w.fetch..w.fetch + w.res1][d..];
    assert b[d..w.res1] == b[0..w.res1][d..];
  }

  lemma RequeueBack(w: Link, target: nat)
    requires UsedUp(w) && !IsFar(w, target) && target <= w.fetch
    ensures w.fetch - target <= w.offset
    ensures Requeue(w, target - w.fetch) ==
      w.(packet := Replied, pending := true, bytesLeft := w.fetch - target, offset := w.offset - (w.fetch - target))
  {
  }

  lemma RequeueStreams(w: Link, target: nat)
    requires UsedUp(w) && !IsFar(w, target) && target <= w.fetch
    ensures var x := Requeue(w, target - w.fetch);
            && x.fetch == w.fetch && x.seekOffset == w.seekOffset && |Near(w, target)| == w.fetch - target
            && Stream(x) == Near(w, target) + w.file[x.fetch + x.Skip()..]
  {
    RequeueBack(w, target);
  }

  /** After a seek that moved the file pointer, before anything is read, the bytes to skip are not
      forgotten.  A second seek that moves the pointer again gets there.  One that does not loses as
      many bytes after those near the target, or if it goes back, gives what was in the buffer
      before the first seek. */
  lemma SecondSeek(v: Link, w: Link, block: nat, target: nat)
    requires Ok(v) && v.bytesLeft == 0 && Arrived(v, w) && w.res1 >= 0 && 0 < block <= w.size && target <= |w.file|
    ensures Seek(w, block, target).Some?
    ensures var x := Seek(w, block, target).value;
            if IsFar(w, target) then Ok(x) && Stream(x) == w.file[target..]
            else NearStream(w, target, x)
  {
    SeekIsOneOf(w, block, target);
    RoundDown(target, block);
    if IsFar(w, target) {
      FarSeekOk(v, w, block, target);
      StreamOfOk(FarSeek(w, block, target));
    } else {
      NearSeek(w, block, target);
    }
  }

  /** The stream goes on from the bytes near the target, less what is still to be skipped. */
  ghost predicate NearStream(w: Link, target: nat, x: Link)
    requires Shape(w) && w.offsetBuf < 2 && w.res1 >= 0
  {
    && x.seekOffset == w.seekOffset && x.fetch == (if target > w.fetch then w.fetch + w.res1 else w.fetch)
    && target <= x.fetch && |Near(w, target)| == x.fetch - target && 0 <= x.Skip() && x.fetch + x.Skip() <= |w.file|
    && Stream(x) == Near(w, target) + w.file[x.fetch + x.Skip()..]
  }

  lemma NearSeek(w: Link, block: nat, target: nat)
    requires UsedUp(w) && !IsFar(w, target) && 0 < block
    ensures Seek(w, block, target).Some? && NearStream(w, target, Seek(w, block, target).value)
  {
    assert Current(w) == w.fetch;
    if target > w.fetch {
      JumpNear(w, target);
    } else {
      RequeueNear(w, target);
    }
  }

  lemma JumpNear(w: Link, target: nat)
    requires UsedUp(w) && w.fetch < target <= w.fetch + w.res1
    ensures NearStream(w, target, Jump(w, target - w.fetch))
  {
    JumpStreams(w, target);
  }

  lemma RequeueNear(w: Link, target: nat)
    requires UsedUp(w) && !IsFar(w, target) && target <= w.fetch
    ensures NearStream(w, target, Requeue(w, target - w.fetch))
  {
    RequeueStreams(w, target);
  }

  lemma PartsFit(file: seq<byte>, a: seq<byte>, target: nat, k: nat, skip: nat)
    requires target <= k && k + skip <= |file| && |a| == k - target
    ensures a + file[k + skip..] == file[target..] <==> skip == 0 && a == file[target..k]
  {
    if a + file[k + skip..] == file[target..] {
      assert |a + file[k + skip..]| == |file| - target - skip;
      assert a == file[target..][..|a|];
    }
    if a == file[target..k] && skip == 0 {
      assert file[target..] == file[target..k] + file[k..];
    }
  }

  /** So the second seek leads to the rest of the file exactly if it moves the file pointer, or has
      nothing to skip and does not go back to bytes that are not of the file. */
  lemma SecondSeekExact(v: Link, w: Link, block: nat, target: nat)
    requires Ok(v) && v.bytesLeft == 0 && Arrived(v, w) && w.res1 >= 0 && 0 < block <= w.size && target <= |w.file|
    ensures Seek(w, block, target).Some?
    ensures var x := Seek(w, block, target).value;
            Stream(x) == w.file[target..] <==>
              IsFar(w, target) || (x.Skip() == 0 && (target < w.fetch ==> Near(w, target) == w.file[target..w.fetch]))
  {
    SecondSeek(v, w, block, target);
    if !IsFar(w, target) {
      NearExact(w, target, Seek(w, block, target).value);
    }
  }

  lemma NearExact(w: Link, target: nat, x: Link)
    requires Shape(w) && w.offsetBuf < 2 && w.res1 >= 0 && target <= |w.file| && NearStream(w, target, x)
    ensures Stream(x) == w.file[target..] <==> x.Skip() == 0 && (target < w.fetch ==> Near(w, target) == w.file[target..w.fetch])
  {
    PartsFit(w.file, Near(w, target), target, x.fetch, x.Skip());
    if target == w.fetch {
      assert Near(w, target) == [];
    }
  }

  /** Going back no further than to where the buffer is known to hold bytes of the file is right if
      there is nothing to skip. */
  lemma NearIsRight(w: Link, target: nat)
    requires UsedUp(w) && w.fetch - (w.offset - w.lo) <= target < w.fetch
    ensures Near(w, target) == w.file[target..w.fetch]
  {
    var b, d := w.bufs[w.offsetBuf], w.offset - (w.fetch - target);
    assert b[w.lo..w.offset][d - w.lo..] == b[d..w.offset];
  }
}
