/** The cache registration file, byte by byte (aweb/cache.c): big-endian numbers, newline
    terminated strings read in chunks of 31 bytes, a header, and entries up to the end. */
module RegistryCodec {
  import opened Basics
  import opened Packets
  import opened AsyncLines

  type ulong = x: int | 0 <= x < 0x1_0000_0000

  const READBUF_LEN := 32
  const MAGICLABEL: seq<byte> := [65, 87, 67, 82]
  const CACHEVERSION: ulong := 6

  const COTYPE_MOVED: byte := 1
  const COTYPE_TEMPMOVED: byte := 2
  const COTYPE_DEL: byte := 3
  const MAX_COTYPE: byte := 3

  datatype Entry = Entry(
    nr: ulong, date: ulong, expires: ulong, cachedate: ulong, size: ulong, kind: byte,
    mimetype: seq<byte>, charset: seq<byte>, etag: seq<byte>, url: seq<byte>, movedto: seq<byte>)

  /** What a read function returns, and where it leaves the stream. */
  datatype Got<+T> = Okay(value: T, rest: seq<byte>) | Eof | Bad

  predicate IsMoved(kind: byte) { kind == COTYPE_MOVED || kind == COTYPE_TEMPMOVED }

  // ------------------------------------------------------------------------
  // Writing

  function Put32(v: ulong): seq<byte> {
    [(v / 0x100_0000) as byte, (v / 0x1_0000 % 0x100) as byte, (v / 0x100 % 0x100) as byte, (v % 0x100) as byte]
  }

  function Put32s(vs: seq<ulong>): seq<byte> {
    if vs == [] then [] else Put32(vs[0]) + Put32s(vs[1..])
  }

  function PutString(s: seq<byte>): seq<byte> { s + [NEWLINE] }

  function PutStrings(ss: seq<seq<byte>>): seq<byte> {
    if ss == [] then [] else PutString(ss[0]) + PutStrings(ss[1..])
  }

  function Numbers(e: Entry): seq<ulong> { [e.nr, e.date, e.expires, e.cachedate, e.size] }

  function Strings(e: Entry): seq<seq<byte>> {
    [e.mimetype, e.charset, e.etag, e.url] + if IsMoved(e.kind) then [e.movedto] else []
  }

  function PutEntry(e: Entry): (r: seq<byte>)
    ensures r != []
  {
    Put32s(Numbers(e)) + [e.kind] + PutStrings(Strings(e))
  }

  function PutAll(es: seq<Entry>): seq<byte> {
    if es == [] then [] else PutEntry(es[0]) + PutAll(es[1..])
  }

  function PutHeader(lastnr: ulong): seq<byte> {
    MAGICLABEL + Put32(CACHEVERSION) + Put32(lastnr)
  }

  function PutRegistry(lastnr: ulong, es: seq<Entry>): seq<byte> { PutHeader(lastnr) + PutAll(es) }

  // ------------------------------------------------------------------------
  // Reading

  function Number(b0: byte, b1: byte, b2: byte, b3: byte): ulong {
    b0 as int * 0x100_0000 + b1 as int * 0x1_0000 + b2 as int * 0x100 + b3 as int
  }

  function Get32(s: seq<byte>): Got<ulong> {
    if s == [] then Eof else if |s| < 4 then Bad else Okay(Number(s[0], s[1], s[2], s[3]), s[4..])
  }

  /** Only at its very beginning may an entry meet the end of the file. */
  function Get32s(s: seq<byte>, n: nat): (r: Got<seq<ulong>>)
    ensures r.Okay? ==> |r.value| == n && |r.rest| <= |s| && (n > 0 ==> |r.rest| < |s|)
  {
    if n == 0 then Okay([], s)
    else match Get32(s)
      case Okay(v, t) => (match Get32s(t, n - 1)
        case Okay(vs, u) => Okay([v] + vs, u)
        case _ => Bad)
      case Eof => Eof
      case Bad => Bad
  }

  /** A C string ends before the first NUL. */
  function CString(s: seq<byte>): seq<byte> {
    if s == [] || s[0] == 0 then [] else [s[0]] + CString(s[1..])
  }

  /** A string is put together from the lines and pieces of lines that fit the buffer. */
  function GetString(s: seq<byte>, sofar: seq<byte>): (r: Got<seq<byte>>)
    ensures r.Okay? ==> |r.rest| < |s|
  {
    var piece := LineOf(s, READBUF_LEN - 1);
    LinePart(s, s, READBUF_LEN - 1);
    if piece == [] then Eof
    else if piece[|piece| - 1] == NEWLINE then Okay(sofar + CString(piece[..|piece| - 1]), s[|piece|..])
    else GetString(s[|piece|..], sofar + CString(piece))
  }

  function GetStrings(s: seq<byte>, n: nat): (r: Got<seq<seq<byte>>>)
    ensures r.Okay? ==> |r.value| == n && |r.rest| <= |s|
    decreases n
  {
    if n == 0 then Okay([], s)
    else match GetString(s, [])
      case Okay(v, t) => (match GetStrings(t, n - 1)
        case Okay(vs, u) => Okay([v] + vs, u)
        case _ => Bad)
      case _ => Bad
  }

  function MakeEntry(ns: seq<ulong>, kind: byte, ss: seq<seq<byte>>): Entry
    requires |ns| == 5 && |ss| == if IsMoved(kind) then 5 else 4
  {
    Entry(ns[0], ns[1], ns[2], ns[3], ns[4], kind, ss[0], ss[1], ss[2], ss[3], if IsMoved(kind) then ss[4] else [])
  }

  function GetEntry(s: seq<byte>): (r: Got<Entry>)
    ensures r.Okay? ==> |r.rest| < |s|
  {
    match Get32s(s, 5)
    case Okay(ns, t) =>
      (if t == [] then Bad
       else match GetStrings(t[1..], if IsMoved(t[0]) then 5 else 4)
         case Okay(ss, u) => Okay(MakeEntry(ns, t[0], ss), u)
         case _ => Bad)
    case Eof => Eof
    case Bad => Bad
  }

  /** The entries up to the end, or up to where something is wrong. */
  datatype Listing = Listing(entries: seq<Entry>, ok: bool)

  function GetAll(s: seq<byte>): Listing
    decreases |s|
  {
    match GetEntry(s)
    case Okay(e, t) =>
      (if e.kind > MAX_COTYPE then Listing([], false)
       else var more := GetAll(t); Listing([e] + more.entries, more.ok))
    case Eof => Listing([], true)
    case Bad => Listing([], false)
  }

  /** The last number used, if the header is good, and the entries. */
  function GetRegistry(s: seq<byte>): (Option<ulong>, Listing) {
    var none := (None, Listing([], false));
    if |s| < 4 || s[..4] != MAGICLABEL then none
    else match Get32s(s[4..], 2)
      case Okay(ns, t) => if ns[0] == CACHEVERSION then (Some(ns[1]), GetAll(t)) else none
      case _ => none
  }

  // ------------------------------------------------------------------------
  // What was written is read back

  /** No newline, and no NUL. */
  predicate Plain(s: seq<byte>) { NEWLINE !in s && 0 !in s }

  predicate Writable(e: Entry) {
    && e.kind <= MAX_COTYPE && Plain(e.mimetype) && Plain(e.charset) && Plain(e.etag) && Plain(e.url)
    && Plain(e.movedto) && (!IsMoved(e.kind) ==> e.movedto == [])
  }

  lemma NumberBack(v: ulong, t: seq<byte>)
    ensures Get32(Put32(v) + t) == Okay(v, t)
  {
    var s := Put32(v);
    assert (s + t)[4..] == t;
    assert v / 0x1_0000 % 0x100 == v / 0x1_0000 - v / 0x100_0000 * 0x100;
    assert v / 0x100 % 0x100 == v / 0x100 - v / 0x1_0000 * 0x100;
    assert v % 0x100 == v - v / 0x100 * 0x100;
  }

  lemma {:induction false} NumbersBack(vs: seq<ulong>, t: seq<byte>)
    ensures Get32s(Put32s(vs) + t, |vs|) == Okay(vs, t)
  {
    if vs == [] {
      assert Put32s(vs) + t == t;
    } else {
      assert Put32s(vs) + t == Put32(vs[0]) + (Put32s(vs[1..]) + t);
      NumberBack(vs[0], Put32s(vs[1..]) + t);
      NumbersBack(vs[1..], t);
      assert [vs[0]] + vs[1..] == vs;
    }
  }

  lemma {:induction false} NumbersCut(vs: seq<ulong>, p: seq<byte>)
    requires p < Put32s(vs)
    ensures Get32s(p, |vs|) == if p == [] then Eof else Bad
  {
    if |p| >= 4 {
      var first, q := Put32(vs[0]), p[4..];
      assert Put32s(vs) == first + Put32s(vs[1..]);
      assert p == first + q && q < Put32s(vs[1..]);
      NumberBack(vs[0], q);
      NumbersCut(vs[1..], q);
    }
  }

  lemma {:induction false} PlainIsCString(s: seq<byte>)
    requires Plain(s)
    ensures CString(s) == s
  {
    if s != [] {
      PlainIsCString(s[1..]);
    }
  }

  lemma {:induction false} StringBack(s: seq<byte>, t: seq<byte>, sofar: seq<byte>)
    requires Plain(s)
    ensures GetString(PutString(s) + t, sofar) == Okay(sofar + s, t)
    decreases |s|
  {
    var all, n := PutString(s) + t, READBUF_LEN - 1;
    var piece := LineOf(all, n);
    if |s| < n {
      LineBegins(all, s, n);
      assert all[|s|..] == [NEWLINE] + t;
      assert piece == s + [NEWLINE];
      assert piece[..|piece| - 1] == s && all[|piece|..] == t;
      PlainIsCString(s);
    } else {
      LineBegins(all, s[..n], n);
      assert piece == s[..n];
      PlainIsCString(s[..n]);
      assert all[n..] == PutString(s[n..]) + t;
      StringBack(s[n..], t, sofar + s[..n]);
      assert sofar + s[..n] + s[n..] == sofar + s;
    }
  }

  lemma {:induction false} StringCut(p: seq<byte>, sofar: seq<byte>)
    requires NEWLINE !in p
    ensures GetString(p, sofar) == Eof
    decreases |p|
  {
    var piece := LineOf(p, READBUF_LEN - 1);
    LinePart(p, p, READBUF_LEN - 1);
    if piece != [] {
      assert piece[|piece| - 1] in p;
      StringCut(p[|piece|..], sofar + CString(piece));
    }
  }

  lemma {:induction false} StringsBack(ss: seq<seq<byte>>, t: seq<byte>)
    requires forall s <- ss :: Plain(s)
    ensures GetStrings(PutStrings(ss) + t, |ss|) == Okay(ss, t)
  {
    if ss == [] {
      assert PutStrings(ss) + t == t;
    } else {
      assert PutStrings(ss) + t == PutString(ss[0]) + (PutStrings(ss[1..]) + t);
      StringBack(ss[0], PutStrings(ss[1..]) + t, []);
      StringsBack(ss[1..], t);
      assert [] + ss[0] == ss[0] && [ss[0]] + ss[1..] == ss;
    }
  }

  lemma {:induction false} StringsCut(ss: seq<seq<byte>>, p: seq<byte>)
    requires (forall s <- ss :: Plain(s)) && p < PutStrings(ss)
    ensures GetStrings(p, |ss|) == Bad
  {
    var first := PutString(ss[0]);
    if |p| < |first| {
      assert ss[0] in ss;
      forall i | 0 <= i < |p|
        ensures p[i] != NEWLINE
      {
        assert p[i] == PutStrings(ss)[i] == ss[0][i] && ss[0][i] in ss[0];
      }
      StringCut(p, []);
    } else {
      assert p == first + p[|first|..];
      StringBack(ss[0], p[|first|..], []);
      StringsCut(ss[1..], p[|first|..]);
    }
  }

  lemma StringsPlain(e: Entry)
    requires Writable(e)
    ensures forall s <- Strings(e) :: Plain(s)
    ensures |Strings(e)| == (if IsMoved(e.kind) then 5 else 4) && MakeEntry(Numbers(e), e.kind, Strings(e)) == e
  {
  }

  /** An entry is read part by part. */
  lemma EntryParts(s: seq<byte>, ns: seq<ulong>, rest: seq<byte>, ss: seq<seq<byte>>, t: seq<byte>)
    requires Get32s(s, 5) == Okay(ns, rest) && rest != []
    requires GetStrings(rest[1..], if IsMoved(rest[0]) then 5 else 4) == Okay(ss, t)
    ensures GetEntry(s) == Okay(MakeEntry(ns, rest[0], ss), t)
  {
  }

  lemma PartsTogether<T>(a: seq<T>, x: T, b: seq<T>, t: seq<T>)
    ensures a + [x] + b + t == a + ([x] + (b + t))
    ensures ([x] + (b + t))[0] == x && ([x] + (b + t))[1..] == b + t
  {
  }

  lemma EntryBack(e: Entry, t: seq<byte>)
    requires Writable(e)
    ensures GetEntry(PutEntry(e) + t) == Okay(e, t)
  {
    var ns, ss := Numbers(e), Strings(e);
    PartsTogether(Put32s(ns), e.kind, PutStrings(ss), t);
    NumbersBack(ns, [e.kind] + (PutStrings(ss) + t));
    StringsPlain(e);
    StringsBack(ss, t);
    EntryParts(PutEntry(e) + t, ns, [e.kind] + (PutStrings(ss) + t), ss, t);
  }

  lemma EntryCut(e: Entry, p: seq<byte>)
    requires Writable(e) && p < PutEntry(e)
    ensures GetEntry(p) == if p == [] then Eof else Bad
  {
    var ns := Put32s(Numbers(e));
    if |p| < |ns| {
      NumbersCut(Numbers(e), p);
    } else {
      assert p == ns + p[|ns|..];
      NumbersBack(Numbers(e), p[|ns|..]);
      if |p| > |ns| {
        var q := p[|ns|..];
        assert q[0] == e.kind && q[1..] < PutStrings(Strings(e));
        StringsPlain(e);
        StringsCut(Strings(e), q[1..]);
      }
    }
  }

  /** How many of the entries are complete in the first n bytes. */
  function Complete(es: seq<Entry>, n: nat): (k: nat)
    ensures k <= |es|
  {
    if es == [] || n < |PutEntry(es[0])| then 0 else 1 + Complete(es[1..], n - |PutEntry(es[0])|)
  }

  /** What there is to read of entries of which only p is there. */
  ghost predicate ReadsComplete(es: seq<Entry>, p: seq<byte>) {
    var k := Complete(es, |p|);
    && GetAll(p) == Listing(es[..k], p == PutAll(es[..k]))
    && PutAll(es[..k]) <= p && (k < |es| ==> p < PutAll(es[..k + 1]))
  }

  /** A file cut short anywhere gives the complete entries before the cut, and then an error,
      unless the cut is right between two entries. */
  lemma {:induction false} AllCut(es: seq<Entry>, p: seq<byte>)
    requires (forall e <- es :: Writable(e)) && p <= PutAll(es)
    ensures ReadsComplete(es, p)
  {
    if es != [] {
      var first := PutEntry(es[0]);
      if |p| < |first| {
        assert p == PutAll(es)[..|p|] == first[..|p|];
        FirstCut(es, p);
      } else {
        var q := p[|first|..];
        assert p == first + q && q <= PutAll(es[1..]);
        AllCut(es[1..], q);
        RestCut(es, q);
      }
    }
  }

  lemma RestCut(es: seq<Entry>, q: seq<byte>)
    requires es != [] && Writable(es[0]) && ReadsComplete(es[1..], q)
    ensures ReadsComplete(es, PutEntry(es[0]) + q)
  {
    var first := PutEntry(es[0]);
    FirstBack(es[0], q);
    AllCutStep(es, q, Complete(es[1..], |q|));
    assert |first + q| - |first| == |q| && Complete(es, |first + q|) == 1 + Complete(es[1..], |q|);
  }

  lemma FirstBack(e: Entry, q: seq<byte>)
    requires Writable(e)
    ensures GetAll(PutEntry(e) + q) == Listing([e] + GetAll(q).entries, GetAll(q).ok)
  {
    EntryBack(e, q);
  }

  lemma FirstCut(es: seq<Entry>, p: seq<byte>)
    requires es != [] && Writable(es[0]) && p < PutEntry(es[0])
    ensures Complete(es, |p|) == 0 && GetAll(p) == Listing([], p == []) && p < PutAll(es[..1])
    ensures PutAll(es[..0]) == []
  {
    EntryCut(es[0], p);
    PutAllPrefix(es, 1);
  }

  lemma AllCutStep(es: seq<Entry>, q: seq<byte>, k: nat)
    requires es != [] && k < |es| && PutAll(es[1..][..k]) <= q && (k + 1 < |es| ==> q < PutAll(es[1..][..k + 1]))
    ensures [es[0]] + es[1..][..k] == es[..k + 1]
    ensures var p := PutEntry(es[0]) + q;
            && PutAll(es[..k + 1]) <= p && (p == PutAll(es[..k + 1]) <==> q == PutAll(es[1..][..k]))
            && (k + 1 < |es| ==> p < PutAll(es[..k + 2]))
  {
    PutAllPrefix(es, k + 1);
    var first := PutEntry(es[0]);
    if first + q == first + PutAll(es[1..][..k]) {
      assert q == (first + q)[|first|..];
    }
    if k + 1 < |es| {
      PutAllPrefix(es, k + 2);
    }
  }

  lemma PutAllPrefix(es: seq<Entry>, k: nat)
    requires 0 < k <= |es|
    ensures es[..k] == [es[0]] + es[1..][..k - 1]
    ensures PutAll(es[..k]) == PutEntry(es[0]) + PutAll(es[1..][..k - 1])
  {
    assert es[..k][1..] == es[1..][..k - 1];
  }

  lemma {:induction false} PutAllBoth(es: seq<Entry>, fs: seq<Entry>)
    ensures PutAll(es + fs) == PutAll(es) + PutAll(fs)
  {
    if es == [] {
      assert es + fs == fs;
    } else {
      assert (es + fs)[1..] == es[1..] + fs && (es + fs)[0] == es[0];
      PutAllBoth(es[1..], fs);
      calc {
        PutAll(es + fs);
        PutEntry(es[0]) + PutAll((es + fs)[1..]);
        PutEntry(es[0]) + (PutAll(es[1..]) + PutAll(fs));
        PutAll(es) + PutAll(fs);
      }
    }
  }

  lemma AllBack(es: seq<Entry>)
    requires forall e <- es :: Writable(e)
    ensures GetAll(PutAll(es)) == Listing(es, true)
  {
    var k := Complete(es, |PutAll(es)|);
    var m := if k < |es| then k + 1 else k;
    assert es[..m] + es[m..] == es;
    PutAllBoth(es[..m], es[m..]);
    AllCut(es, PutAll(es));
    assert es[..k] == es;
  }

  lemma TwoNumbers(a: ulong, b: ulong)
    ensures Put32s([a, b]) == Put32(a) + Put32(b)
  {
    assert [a, b][1..] == [b] && [b][1..] == [];
    assert Put32s([b]) == Put32(b) + Put32s([]);
  }

  lemma HeaderBack(lastnr: ulong, q: seq<byte>)
    ensures GetRegistry(PutHeader(lastnr) + q) == (Some(lastnr), GetAll(q))
  {
    var ns := [CACHEVERSION, lastnr];
    TwoNumbers(CACHEVERSION, lastnr);
    assert (PutHeader(lastnr) + q)[4..] == Put32s(ns) + q;
    NumbersBack(ns, q);
  }

  lemma HeaderCut(lastnr: ulong, p: seq<byte>)
    requires p < PutHeader(lastnr)
    ensures GetRegistry(p) == (None, Listing([], false))
  {
    if |p| >= 4 {
      var ns := [CACHEVERSION, lastnr];
      TwoNumbers(CACHEVERSION, lastnr);
      assert p[4..] < Put32s(ns);
      NumbersCut(ns, p[4..]);
    }
  }

  /** A whole registration file: it is read back, and if it was cut short, all the entries that
      are complete are, and no other. */
  lemma RegistryCut(lastnr: ulong, es: seq<Entry>, p: seq<byte>)
    requires (forall e <- es :: Writable(e)) && p <= PutRegistry(lastnr, es)
    ensures var h := |PutHeader(lastnr)|;
            if |p| < h then GetRegistry(p) == (None, Listing([], false))
            else GetRegistry(p) == (Some(lastnr), GetAll(p[h..])) && ReadsComplete(es, p[h..])
    ensures p == PutRegistry(lastnr, es) ==> GetRegistry(p) == (Some(lastnr), Listing(es, true))
  {
    var h := PutHeader(lastnr);
    if |p| < |h| {
      assert p == PutRegistry(lastnr, es)[..|p|] == h[..|p|];
      HeaderCut(lastnr, p);
    } else {
      var q := p[|h|..];
      assert p == h + q && q <= PutAll(es);
      HeaderBack(lastnr, q);
      AllCut(es, q);
      AllBack(es);
    }
  }

  // ------------------------------------------------------------------------
  // Whatever was read can be written

  lemma {:induction false} CStringPlain(s: seq<byte>)
    requires NEWLINE !in s
    ensures Plain(CString(s))
  {
    if s != [] && s[0] != 0 {
      CStringPlain(s[1..]);
    }
  }

  lemma {:induction false} StringReadPlain(s: seq<byte>, sofar: seq<byte>)
    requires Plain(sofar)
    ensures var r := GetString(s, sofar); r.Okay? ==> Plain(r.value)
    decreases |s|
  {
    var n := READBUF_LEN - 1;
    var piece := LineOf(s, n);
    LinePart(s, s, n);
    if piece != [] {
      if piece[|piece| - 1] == NEWLINE {
        CStringPlain(piece[..|piece| - 1]);
      } else {
        assert NoNewline(piece);
        CStringPlain(piece);
        StringReadPlain(s[|piece|..], sofar + CString(piece));
      }
    }
  }

  lemma {:induction false} StringsReadPlain(s: seq<byte>, n: nat)
    ensures var r := GetStrings(s, n); r.Okay? ==> forall v <- r.value :: Plain(v)
    decreases n
  {
    if n > 0 {
      StringReadPlain(s, []);
      if GetString(s, []).Okay? {
        StringsReadPlain(GetString(s, []).rest, n - 1);
      }
    }
  }

  lemma EntryReadWritable(s: seq<byte>)
    ensures var r := GetEntry(s); r.Okay? && r.value.kind <= MAX_COTYPE ==> Writable(r.value)
  {
    var g := Get32s(s, 5);
    if g.Okay? && g.rest != [] {
      StringsReadPlain(g.rest[1..], if IsMoved(g.rest[0]) then 5 else 4);
    }
  }

  lemma {:induction false} AllReadWritable(s: seq<byte>)
    ensures forall e <- GetAll(s).entries :: Writable(e)
    decreases |s|
  {
    EntryReadWritable(s);
    var r := GetEntry(s);
    if r.Okay? {
      AllReadWritable(r.rest);
    }
  }
}
