/** Reading and writing the cache registration through an asynchronous file (aweb/cache.c). */
module RegistryFile {
  import opened Basics
  import opened Packets
  import opened AsyncReading
  import opened AsyncLines
  import opened RegistryCodec
  import R = AsyncReader

  datatype Ret<+T> = OKAY(value: T) | EOF | ERROR

  ghost predicate Usable(v: Link) { Ok(v) && !v.Stuck() && NoRetry(v.outcomes) }

  ghost predicate Ready(fh: R.AsyncFile)
    reads fh, fh.buf0, fh.buf1
  {
    fh.Fixed() && fh.packetBuf == fh.currentBuf && Usable(fh.View())
  }

  /** What is left to read. */
  ghost function Rest(v: Link): seq<byte>
    requires Ok(v)
  {
    AtInFile(v);
    v.file[v.At()..]
  }

  /** The program read on from v to w. */
  ghost predicate Went(v: Link, w: Link) {
    && Usable(v) && Usable(w) && w.file == v.file && w.size == v.size && v.At() <= w.At() && (v.Failed() ==> w.Failed())
    && (Calm(v.outcomes) ==> Calm(w.outcomes) && (w.Failed() ==> v.Failed()))
  }

  /** A read function gave what is there, unless there was an input error. */
  ghost predicate Follows<T>(v: Link, w: Link, r: Ret<T>, g: Got<T>) {
    && Went(v, w)
    && (w.Failed() || match r
                      case OKAY(x) => g == Okay(x, Rest(w))
                      case EOF => g.Eof?
                      case ERROR => g.Bad?)
  }

  lemma MovedWent(v: Link, w: Link, d: seq<byte>)
    requires Moved(v, w, d) && Usable(v)
    ensures Went(v, w) && d <= Rest(v) && Rest(w) == Rest(v)[|d|..]
  {
  }

  lemma WentOn(u: Link, v: Link, w: Link)
    requires Went(u, v) && Went(v, w)
    ensures Went(u, w)
  {
  }

  /** One byte, or -1. */
  ghost predicate ByteRead(v: Link, w: Link, r: int) {
    && Went(v, w) && -1 <= r < 256
    && (if r < 0 then w.Failed() || Rest(v) == Rest(w) == [] else Rest(v) == [r as byte] + Rest(w))
  }

  method ReadByte(fh: R.AsyncFile) returns (r: int)
    requires Ready(fh)
    modifies fh, fh.buf0, fh.buf1
    ensures Ready(fh) && ByteRead(old(fh.View()), fh.View(), r)
  {
    ghost var v := fh.View();
    r := fh.ReadCharAsync();
    MovedWent(v, fh.View(), if r < 0 then [] else [r as byte]);
  }

  /** Some bytes were read. */
  ghost predicate BytesRead(v: Link, w: Link, bs: seq<byte>) {
    Went(v, w) && Rest(v) == bs + Rest(w)
  }

  lemma OneMore(v: Link, u: Link, w: Link, bs: seq<byte>, r: int)
    requires BytesRead(v, u, bs) && ByteRead(u, w, r)
    ensures Went(v, w)
    ensures r >= 0 ==> BytesRead(v, w, bs + [r as byte])
    ensures r < 0 ==> w.Failed() || Rest(v) == bs
  {
    WentOn(v, u, w);
    if r >= 0 {
      assert bs + ([r as byte] + Rest(w)) == bs + [r as byte] + Rest(w);
    }
  }

  /** The next byte of a number of which `bs` was read already. */
  method ReadNext(fh: R.AsyncFile, ghost v: Link, ghost bs: seq<byte>) returns (r: int)
    requires Ready(fh) && BytesRead(v, fh.View(), bs)
    modifies fh, fh.buf0, fh.buf1
    ensures Ready(fh) && Went(v, fh.View()) && -1 <= r < 256
    ensures r >= 0 ==> BytesRead(v, fh.View(), bs + [r as byte])
    ensures r < 0 ==> fh.View().Failed() || Rest(v) == bs
  {
    ghost var u := fh.View();
    r := ReadByte(fh);
    OneMore(v, u, fh.View(), bs, r);
  }

  /** The rest of a number; here the file may not end. */
  method ReadRemaining(fh: R.AsyncFile, ghost v: Link, bs: seq<byte>) returns (ret: Ret<ulong>)
    requires Ready(fh) && 0 < |bs| <= 4 && BytesRead(v, fh.View(), bs)
    modifies fh, fh.buf0, fh.buf1
    ensures Ready(fh) && Follows(v, fh.View(), ret, Get32(Rest(v)))
    ensures ret.OKAY? ==> |Rest(fh.View())| < |Rest(v)|
    decreases 4 - |bs|
  {
    if |bs| == 4 {
      assert bs == [bs[0], bs[1], bs[2], bs[3]];
      FourBytes(v, fh.View(), bs[0], bs[1], bs[2], bs[3]);
      return OKAY(Number(bs[0], bs[1], bs[2], bs[3]));
    }
    var b := ReadNext(fh, v, bs);
    if b < 0 {
      return ERROR;
    }
    ret := ReadRemaining(fh, v, bs + [b as byte]);
  }

  method Read32Bit(fh: R.AsyncFile) returns (ret: Ret<ulong>)
    requires Ready(fh)
    modifies fh, fh.buf0, fh.buf1
    ensures Ready(fh) && Follows(old(fh.View()), fh.View(), ret, Get32(Rest(old(fh.View()))))
    ensures ret.OKAY? ==> |Rest(fh.View())| < |Rest(old(fh.View()))|
  {
    ghost var v := fh.View();
    assert [] + Rest(v) == Rest(v);
    var b := ReadNext(fh, v, []);
    if b < 0 {
      return EOF;
    }
    assert [] + [b as byte] == [b as byte];
    ret := ReadRemaining(fh, v, [b as byte]);
  }

  lemma FourBytes(v: Link, w: Link, b0: byte, b1: byte, b2: byte, b3: byte)
    requires BytesRead(v, w, [b0, b1, b2, b3])
    ensures Follows(v, w, OKAY(Number(b0, b1, b2, b3)), Get32(Rest(v)))
  {
  }

  /** The numbers of an entry or a header, one after the other. */
  method Read32Bits(fh: R.AsyncFile, n: nat) returns (ret: Ret<seq<ulong>>)
    requires Ready(fh)
    modifies fh, fh.buf0, fh.buf1
    ensures Ready(fh) && Follows(old(fh.View()), fh.View(), ret, Get32s(Rest(old(fh.View())), n))
    ensures ret.OKAY? ==> |ret.value| == n && (n > 0 ==> |Rest(fh.View())| < |Rest(old(fh.View()))|)
    decreases n
  {
    if n == 0 {
      return OKAY([]);
    }
    ghost var v := fh.View();
    var first := Read32Bit(fh);
    if !first.OKAY? {
      NumbersMissing(v, fh.View(), n, first);
      return if first.EOF? then EOF else ERROR;
    }
    ghost var u := fh.View();
    var more := Read32Bits(fh, n - 1);
    ret := if more.OKAY? then OKAY([first.value] + more.value) else ERROR;
    NumbersFollow(v, u, fh.View(), n, first.value, more, ret);
  }

  lemma NumbersMissing(v: Link, u: Link, n: nat, first: Ret<ulong>)
    requires n > 0 && Usable(v) && !first.OKAY? && Follows(v, u, first, Get32(Rest(v)))
    ensures Follows<seq<ulong>>(v, u, if first.EOF? then EOF else ERROR, Get32s(Rest(v), n))
  {
  }

  /** A number, and then the others or something wrong. */
  lemma NumbersFollow(v: Link, u: Link, w: Link, n: nat, first: ulong, more: Ret<seq<ulong>>, all: Ret<seq<ulong>>)
    requires n > 0 && Usable(v) && Usable(u) && Follows(v, u, OKAY(first), Get32(Rest(v))) && Follows(u, w, more, Get32s(Rest(u), n - 1))
    requires all == if more.OKAY? then OKAY([first] + more.value) else ERROR
    ensures Follows(v, w, all, Get32s(Rest(v), n))
  {
    WentOn(v, u, w);
  }

  // ------------------------------------------------------------------------
  // Strings

  /** From u to w another line, or piece of one, was read of the string that began at v, and before
      which `str` was put together. */
  ghost predicate PieceWent(v: Link, u: Link, w: Link, line: seq<byte>, str: seq<byte>) {
    && Ok(u) && Went(v, w) && (line != [] ==> |Rest(w)| < |Rest(u)|)
    && (w.Failed() ||
          GetString(Rest(v), []) ==
            if line == [] then Eof
            else if line[|line| - 1] == NEWLINE then Okay(str + CString(line[..|line| - 1]), Rest(w))
            else GetString(Rest(w), str + CString(line)))
  }

  lemma PieceRead(v: Link, u: Link, w: Link, line: seq<byte>, str: seq<byte>)
    requires Went(v, u) && (u.Failed() || GetString(Rest(v), []) == GetString(Rest(u), str))
    requires ReadsLine(u, w, READBUF_LEN, line)
    ensures PieceWent(v, u, w, line, str)
  {
    MovedWent(u, w, line);
    WentOn(v, u, w);
    if !w.Failed() {
      StringStep(Rest(u), line, str);
    }
  }

  lemma StringStep(s: seq<byte>, line: seq<byte>, str: seq<byte>)
    requires line == LineOf(s, READBUF_LEN - 1) && |line| <= |s|
    ensures GetString(s, str) ==
      if line == [] then Eof
      else if line[|line| - 1] == NEWLINE then Okay(str + CString(line[..|line| - 1]), s[|line|..])
      else GetString(s[|line|..], str + CString(line))
  {
  }

  /** As much of the string was read as `str` holds. */
  ghost predicate StringSoFar(v: Link, w: Link, str: seq<byte>) {
    Went(v, w) && (w.Failed() || GetString(Rest(v), []) == GetString(Rest(w), str))
  }

  method ReadPiece(fh: R.AsyncFile, ghost v: Link, ghost str: seq<byte>) returns (line: Option<seq<byte>>)
    requires Ready(fh) && StringSoFar(v, fh.View(), str)
    modifies fh, fh.buf0, fh.buf1
    ensures Ready(fh) && line != Some([])
    ensures PieceWent(v, old(fh.View()), fh.View(), if line.None? then [] else line.value, str)
  {
    ghost var u := fh.View();
    line := fh.FGetsLenAsync(READBUF_LEN);
    PieceRead(v, u, fh.View(), if line.None? then [] else line.value, str);
  }

  method Readstring(fh: R.AsyncFile) returns (ret: Ret<seq<byte>>)
    requires Ready(fh)
    modifies fh, fh.buf0, fh.buf1
    ensures Ready(fh) && Follows(old(fh.View()), fh.View(), ret, GetString(Rest(old(fh.View())), []))
  {
    ghost var v := fh.View();
    var str := [];
    while true
      invariant Ready(fh) && StringSoFar(v, fh.View(), str)
      decreases |Rest(fh.View())|
    {
      var line := ReadPiece(fh, v, str);
      if line.None? {
        return EOF;
      }
      var n := |line.value|;
      if line.value[n - 1] == NEWLINE {
        return OKAY(str + CString(line.value[..n - 1]));
      }
      str := str + CString(line.value);
    }
  }

  /** The strings of an entry, one after the other. */
  method Readstrings(fh: R.AsyncFile, n: nat) returns (ret: Ret<seq<seq<byte>>>)
    requires Ready(fh)
    modifies fh, fh.buf0, fh.buf1
    ensures Ready(fh) && Follows(old(fh.View()), fh.View(), ret, GetStrings(Rest(old(fh.View())), n))
    ensures ret.OKAY? ==> |ret.value| == n
    decreases n
  {
    if n == 0 {
      return OKAY([]);
    }
    ghost var v := fh.View();
    var first := Readstring(fh);
    if !first.OKAY? {
      return ERROR;
    }
    ghost var u := fh.View();
    var more := Readstrings(fh, n - 1);
    WentOn(v, u, fh.View());
    ret := if more.OKAY? then OKAY([first.value] + more.value) else ERROR;
  }

  // ------------------------------------------------------------------------
  // Entries and the header

  method ReadCRegStruct(fh: R.AsyncFile) returns (ret: Ret<Entry>)
    requires Ready(fh)
    modifies fh, fh.buf0, fh.buf1
    ensures Ready(fh) && Follows(old(fh.View()), fh.View(), ret, GetEntry(Rest(old(fh.View()))))
    ensures ret.OKAY? ==> |Rest(fh.View())| < |Rest(old(fh.View()))|
  {
    ghost var v := fh.View();
    var numbers := Read32Bits(fh, 5);
    if !numbers.OKAY? {
      return if numbers.EOF? then EOF else ERROR;
    }
    ghost var u := fh.View();
    var kind := ReadByte(fh);
    if kind < 0 {
      WentOn(v, u, fh.View());
      return ERROR;
    }
    ghost var w := fh.View();
    var strings := Readstrings(fh, if IsMoved(kind as byte) then 5 else 4);
    ret := if strings.OKAY? then OKAY(MakeEntry(numbers.value, kind as byte, strings.value)) else ERROR;
    EntryFollows(v, u, w, fh.View(), numbers.value, kind as byte, strings, ret);
  }

  /** The numbers and the kind, and then the strings or something wrong. */
  lemma EntryFollows(v: Link, u: Link, w: Link, x: Link, ns: seq<ulong>, kind: byte, strings: Ret<seq<seq<byte>>>, all: Ret<Entry>)
    requires Usable(v) && Usable(u) && Usable(w) && |ns| == 5 && (strings.OKAY? ==> |strings.value| == if IsMoved(kind) then 5 else 4)
    requires Follows(v, u, OKAY(ns), Get32s(Rest(v), 5)) && ByteRead(u, w, kind as int)
    requires Follows(w, x, strings, GetStrings(Rest(w), if IsMoved(kind) then 5 else 4))
    requires all == if strings.OKAY? then OKAY(MakeEntry(ns, kind, strings.value)) else ERROR
    ensures Follows(v, x, all, GetEntry(Rest(v)))
  {
    WentOn(v, u, w);
    WentOn(v, w, x);
  }

  /** The header is read, and found good or not. */
  ghost predicate HeaderRead(v: Link, w: Link, lastnr: Option<ulong>) {
    && Went(v, w)
    && (w.Failed() || if lastnr.None? then GetRegistry(Rest(v)) == (None, Listing([], false))
                      else GetRegistry(Rest(v)) == (lastnr, GetAll(Rest(w))))
  }

  lemma LabelRead(v: Link, w: Link, r: int, magic: seq<byte>)
    requires Usable(v) && Reads(v, w, 4, r, magic)
    ensures Went(v, w)
    ensures !w.Failed() ==> (r == 4 && magic == MAGICLABEL <==> |Rest(v)| >= 4 && Rest(v)[..4] == MAGICLABEL)
    ensures r == 4 ==> Rest(w) == Rest(v)[4..]
  {
    MovedWent(v, w, magic);
    if r != 4 && !w.Failed() {
      assert Rest(w) == [];
    }
  }

  method ReadCHdrStruct(fh: R.AsyncFile) returns (lastnr: Option<ulong>)
    requires Ready(fh)
    modifies fh, fh.buf0, fh.buf1
    ensures Ready(fh) && HeaderRead(old(fh.View()), fh.View(), lastnr)
  {
    ghost var v := fh.View();
    var r, magic := fh.ReadAsync(4);
    LabelRead(v, fh.View(), r, magic);
    if r != 4 {
      return None;
    }
    ghost var u := fh.View();
    var numbers := Read32Bits(fh, 2);
    WentOn(v, u, fh.View());
    if !numbers.OKAY? || magic != MAGICLABEL || numbers.value[0] != CACHEVERSION {
      return None;
    }
    return Some(numbers.value[1]);
  }
}
