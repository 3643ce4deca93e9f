/** Writing the cache registration through an asynchronous file (aweb/cache.c). */
module RegistryWriter {
  import opened Packets
  import opened AsyncWriting
  import opened RegistryCodec
  import W = AsyncWriter

  /** The bytes were written, as far as the program can tell if `ok`; for certain if the file has
      not failed. */
  ghost predicate Puts(v: Sink, w: Sink, data: seq<byte>, ok: bool) {
    Wrote(v, w, data, if ok then |data| else -1)
  }

  lemma PutsBoth(u: Sink, v: Sink, w: Sink, d: seq<byte>, e: seq<byte>, ok: bool)
    requires Puts(u, v, d, true) && Puts(v, w, e, ok)
    ensures Puts(u, w, d + e, ok)
  {
    WroteBoth(u, v, w, d, e, if ok then |e| else -1);
  }

  lemma PutsNoMore(u: Sink, v: Sink, d: seq<byte>, e: seq<byte>)
    requires Puts(u, v, d, false)
    ensures Puts(u, v, e, false)
  {
  }

  /** The bytes were handed over; nobody looked whether that went well. */
  ghost predicate Hands(v: Sink, w: Sink, data: seq<byte>) {
    Puts(v, w, data, true) || Puts(v, w, data, false)
  }

  lemma HandsBoth(u: Sink, v: Sink, w: Sink, d: seq<byte>, e: seq<byte>)
    requires Hands(u, v, d) && Hands(v, w, e)
    ensures Hands(u, w, d + e)
  {
  }

  lemma HandsNothing(v: Sink)
    requires Sound(v)
    ensures Hands(v, v, [])
  {
    if !v.Failed() {
      assert v.Written() + [] == v.Written();
    }
  }

  method Write8bit(fh: W.AsyncFile, val: byte) returns (ok: bool)
    requires fh.Valid()
    modifies fh, fh.buf0, fh.buf1
    ensures fh.Fixed() && Puts(old(fh.View()), fh.View(), [val], ok)
  {
    var r := fh.WriteCharAsync(val);
    ok := r != -1;
  }

  /** Write the bytes one by one, up to the first that fails. */
  method WriteBytes(fh: W.AsyncFile, bs: seq<byte>) returns (ok: bool)
    requires fh.Valid() && bs != []
    modifies fh, fh.buf0, fh.buf1
    ensures fh.Fixed() && Puts(old(fh.View()), fh.View(), bs, ok)
    decreases |bs|
  {
    ghost var v := fh.View();
    ok := Write8bit(fh, bs[0]);
    if !ok {
      PutsNoMore(v, fh.View(), [bs[0]], bs);
    } else if |bs| > 1 {
      ghost var u := fh.View();
      ok := WriteBytes(fh, bs[1..]);
      PutsBoth(v, u, fh.View(), [bs[0]], bs[1..], ok);
      assert [bs[0]] + bs[1..] == bs;
    } else {
      assert bs == [bs[0]];
    }
  }

  method Write32bit(fh: W.AsyncFile, val: ulong) returns (ok: bool)
    requires fh.Valid()
    modifies fh, fh.buf0, fh.buf1
    ensures fh.Fixed() && Puts(old(fh.View()), fh.View(), Put32(val), ok)
  {
    ok := WriteBytes(fh, Put32(val));
  }

  method Writestring(fh: W.AsyncFile, str: seq<byte>) returns (ok: bool)
    requires fh.Valid()
    modifies fh, fh.buf0, fh.buf1
    ensures fh.Fixed() && Puts(old(fh.View()), fh.View(), PutString(str), ok)
  {
    ghost var v := fh.View();
    var r := fh.WriteAsync(str);
    if r == -1 {
      PutsNoMore(v, fh.View(), str, PutString(str));
      return false;
    }
    ghost var u := fh.View();
    ok := Write8bit(fh, NEWLINE);
    PutsBoth(v, u, fh.View(), str, [NEWLINE], ok);
  }

  method Write32bits(fh: W.AsyncFile, vals: seq<ulong>) returns (ok: bool)
    requires fh.Valid() && vals != []
    modifies fh, fh.buf0, fh.buf1
    ensures fh.Fixed() && Puts(old(fh.View()), fh.View(), Put32s(vals), ok)
    decreases |vals|
  {
    ghost var v := fh.View();
    ok := Write32bit(fh, vals[0]);
    if !ok {
      PutsNoMore(v, fh.View(), Put32(vals[0]), Put32s(vals));
    } else if |vals| > 1 {
      ghost var u := fh.View();
      ok := Write32bits(fh, vals[1..]);
      PutsBoth(v, u, fh.View(), Put32(vals[0]), Put32s(vals[1..]), ok);
    } else {
      assert Put32(vals[0]) + [] == Put32(vals[0]);
    }
  }

  method Writestrings(fh: W.AsyncFile, strs: seq<seq<byte>>) returns (ok: bool)
    requires fh.Valid() && strs != []
    modifies fh, fh.buf0, fh.buf1
    ensures fh.Fixed() && Puts(old(fh.View()), fh.View(), PutStrings(strs), ok)
    decreases |strs|
  {
    ghost var v := fh.View();
    ok := Writestring(fh, strs[0]);
    if !ok {
      PutsNoMore(v, fh.View(), PutString(strs[0]), PutStrings(strs));
    } else if |strs| > 1 {
      ghost var u := fh.View();
      ok := Writestrings(fh, strs[1..]);
      PutsBoth(v, u, fh.View(), PutString(strs[0]), PutStrings(strs[1..]), ok);
    } else {
      assert PutString(strs[0]) + [] == PutString(strs[0]);
    }
  }

  method WriteCRegStruct(fh: W.AsyncFile, cre: Entry) returns (ok: bool)
    requires fh.Valid()
    modifies fh, fh.buf0, fh.buf1
    ensures fh.Fixed() && Puts(old(fh.View()), fh.View(), PutEntry(cre), ok)
  {
    ghost var v := fh.View();
    ok := Write32bits(fh, Numbers(cre));
    if !ok {
      PutsNoMore(v, fh.View(), Put32s(Numbers(cre)), PutEntry(cre));
      return;
    }
    ghost var u := fh.View();
    ok := Write8bit(fh, cre.kind);
    PutsBoth(v, u, fh.View(), Put32s(Numbers(cre)), [cre.kind], ok);
    if !ok {
      PutsNoMore(v, fh.View(), Put32s(Numbers(cre)) + [cre.kind], PutEntry(cre));
      return;
    }
    ghost var w := fh.View();
    ok := Writestrings(fh, Strings(cre));
    PutsBoth(v, w, fh.View(), Put32s(Numbers(cre)) + [cre.kind], PutStrings(Strings(cre)), ok);
  }

  method WriteCHdrStruct(fh: W.AsyncFile, lastnr: ulong) returns (ok: bool)
    requires fh.Valid()
    modifies fh, fh.buf0, fh.buf1
    ensures fh.Fixed() && Puts(old(fh.View()), fh.View(), PutHeader(lastnr), ok)
  {
    ghost var v := fh.View();
    var r := fh.WriteAsync(MAGICLABEL);
    if r != |MAGICLABEL| {
      PutsNoMore(v, fh.View(), MAGICLABEL, PutHeader(lastnr));
      return false;
    }
    ghost var u := fh.View();
    var numbers := [CACHEVERSION, lastnr];
    ok := Write32bits(fh, numbers);
    PutsBoth(v, u, fh.View(), MAGICLABEL, Put32s(numbers), ok);
    TwoNumbers(CACHEVERSION, lastnr);
    assert PutHeader(lastnr) == MAGICLABEL + Put32s(numbers);
  }
}
