/** A registration file with part of an entry at its end (aweb/cache.c): what is read from it, and
    what becomes of entries that are appended to it. */
module RegistryTorn {
  import opened Basics
  import opened Packets
  import opened RegistryCodec

  ghost predicate AllWritable(log: seq<Entry>) { forall e <- log :: Writable(e) }

  lemma Together<T>(a: seq<T>, b: seq<T>, c: seq<T>)
    ensures a + (b + c) == a + b + c
  {
  }

  lemma FirstThen(e: Entry, q: seq<byte>, es: seq<Entry>, x: Listing)
    requires Writable(e) && GetAll(q) == Listing(es + x.entries, x.ok)
    ensures GetAll(PutEntry(e) + q) == Listing([e] + es + x.entries, x.ok)
  {
    FirstBack(e, q);
    Together([e], es, x.entries);
  }

  /** Whatever follows, the whole entries before it are read. */
  lemma {:induction false} AllThen(log: seq<Entry>, x: seq<byte>)
    requires AllWritable(log)
    ensures GetAll(PutAll(log) + x) == Listing(log + GetAll(x).entries, GetAll(x).ok)
  {
    if log == [] {
      assert PutAll(log) + x == x && log + GetAll(x).entries == GetAll(x).entries;
    } else {
      Together(PutEntry(log[0]), PutAll(log[1..]), x);
      AllThen(log[1..], x);
      FirstThen(log[0], PutAll(log[1..]) + x, log[1..], GetAll(x));
      assert [log[0]] + log[1..] == log;
    }
  }

  lemma RegistryThen(lastnr: ulong, log: seq<Entry>, x: seq<byte>)
    requires AllWritable(log)
    ensures GetRegistry(PutRegistry(lastnr, log) + x) == (Some(lastnr), Listing(log + GetAll(x).entries, GetAll(x).ok))
  {
    var q := PutAll(log) + x;
    AllThen(log, x);
    Together(PutHeader(lastnr), PutAll(log), x);
    HeaderThen(lastnr, q, PutRegistry(lastnr, log) + x);
  }

  lemma HeaderThen(lastnr: ulong, q: seq<byte>, s: seq<byte>)
    requires s == PutHeader(lastnr) + q
    ensures GetRegistry(s) == (Some(lastnr), GetAll(q))
  {
    HeaderBack(lastnr, q);
  }

  lemma ReadsWhole(lastnr: ulong, log: seq<Entry>)
    requires AllWritable(log)
    ensures GetRegistry(PutRegistry(lastnr, log)) == (Some(lastnr), Listing(log, true))
  {
    RegistryCut(lastnr, log, PutRegistry(lastnr, log));
  }

  lemma EntryTorn(e: Entry, k: nat)
    requires Writable(e) && k <= |PutEntry(e)|
    ensures GetAll(PutEntry(e)[..k]).entries == if k == |PutEntry(e)| then [e] else []
  {
    var x := PutEntry(e)[..k];
    if k < |PutEntry(e)| {
      EntryCut(e, x);
    } else {
      assert x == PutEntry(e) + [];
      FirstBack(e, []);
    }
  }

  /** The journal, and k bytes of an entry. */
  ghost predicate Torn(awcu: seq<byte>, lastnr: ulong, log: seq<Entry>, e: Entry, k: nat) {
    && AllWritable(log) && Writable(e) && k <= |PutEntry(e)|
    && awcu == PutRegistry(lastnr, log) + PutEntry(e)[..k]
  }

  /** A journal with part of an entry at its end reads as the journal without it. */
  lemma ReadsTorn(awcu: seq<byte>, lastnr: ulong, log: seq<Entry>, e: Entry, k: nat)
    requires Torn(awcu, lastnr, log, e, k)
    ensures GetRegistry(awcu).1.entries == if k == |PutEntry(e)| then log + [e] else log
  {
    RegistryThen(lastnr, log, PutEntry(e)[..k]);
    EntryTorn(e, k);
    assert log + [] == log;
  }

  lemma Joined<T>(a: seq<T>, x: seq<T>, j: nat, k: nat)
    requires j <= k <= |x|
    ensures a + x[..j] + x[j..k] == a + x[..k]
  {
  }

  lemma TornGrows(awcu: seq<byte>, lastnr: ulong, log: seq<Entry>, e: Entry, j: nat, k: nat)
    requires Torn(awcu, lastnr, log, e, j) && j <= k <= |PutEntry(e)|
    ensures Torn(awcu + PutEntry(e)[j..k], lastnr, log, e, k)
  {
    Joined(PutRegistry(lastnr, log), PutEntry(e), j, k);
  }

  lemma OneMore(lastnr: ulong, log: seq<Entry>, e: Entry)
    ensures PutRegistry(lastnr, log + [e]) == PutRegistry(lastnr, log) + PutEntry(e)
  {
    PutAllBoth(log, [e]);
    assert [e][1..] == [] && PutAll([e]) == PutEntry(e) + PutAll([]);
    assert PutAll([e]) == PutEntry(e);
    Together(PutHeader(lastnr), PutAll(log), PutEntry(e));
  }

  // ------------------------------------------------------------------------
  // Appending to it

  lemma {:induction false} NumbersThere(s: seq<byte>, n: nat)
    requires |s| >= 4 * n
    ensures Get32s(s, n).Okay? && Get32s(s, n).rest == s[4 * n..]
  {
    if n > 0 {
      NumbersThere(s[4..], n - 1);
      assert s[4..][4 * (n - 1)..] == s[4 * n..];
    }
  }

  /** The kind of what begins there, whatever it is, is its byte 20. */
  lemma KindTooLarge(s: seq<byte>)
    requires |s| > 20 && s[20] > MAX_COTYPE
    ensures GetAll(s) == Listing([], false)
  {
    NumbersThere(s, 5);
    assert s[20..][0] == s[20];
  }

  lemma {:induction false} NumbersLength(vs: seq<ulong>)
    ensures |Put32s(vs)| == 4 * |vs|
  {
    if vs != [] {
      NumbersLength(vs[1..]);
    }
  }

  lemma EntryLength(e: Entry)
    ensures |PutEntry(e)| > 20
  {
    NumbersLength(Numbers(e));
  }

  /** Behind up to twenty bytes of another entry an entry is never read, and nothing after it
      either, when its byte that comes to lie where the kind should be is too large for one. */
  lemma LostBehindTorn(lastnr: ulong, log: seq<Entry>, e: Entry, k: nat, f: Entry, more: seq<byte>)
    requires AllWritable(log) && 0 < k <= 20 && k <= |PutEntry(e)|
    requires 20 - k < |PutEntry(f)| && PutEntry(f)[20 - k] > MAX_COTYPE
    ensures GetRegistry(PutRegistry(lastnr, log) + (PutEntry(e)[..k] + PutEntry(f) + more)).1 == Listing(log, false)
  {
    var x := PutEntry(e)[..k] + PutEntry(f) + more;
    EntryLength(f);
    assert |x| > 20 && x[20] == PutEntry(f)[20 - k];
    KindTooLarge(x);
    RegistryThen(lastnr, log, x);
    assert log + [] == log;
  }

  /** One byte is enough, for most sizes of the page. */
  lemma SizeAsKind(f: Entry)
    ensures |PutEntry(f)| > 20 && PutEntry(f)[19] as int == f.size % 0x100
  {
    EntryLength(f);
    LastNumber([f.nr, f.date, f.expires, f.cachedate], f.size);
    NumbersLength([f.nr, f.date, f.expires, f.cachedate]);
    assert Numbers(f) == [f.nr, f.date, f.expires, f.cachedate] + [f.size];
  }

  lemma {:induction false} LastNumber(vs: seq<ulong>, v: ulong)
    ensures Put32s(vs + [v]) == Put32s(vs) + Put32(v)
  {
    if vs == [] {
      assert vs + [v] == [v] && [v][1..] == [];
      assert Put32s([v]) == Put32(v) + Put32s([]);
    } else {
      assert (vs + [v])[1..] == vs[1..] + [v];
      LastNumber(vs[1..], v);
    }
  }
}
