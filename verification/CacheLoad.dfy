/** What start-up makes of a journal, and what it needs of the journal for that to be in order
    (aweb/cache.c). */
module CacheLoad {
  import opened Basics
  import opened Packets
  import opened RegistryCodec
  import opened CacheMemory
  import opened Journal
  import opened CacheRun
  import opened CacheNumbers

  /** The memory that reading a registration file makes. */
  function Read(s: seq<byte>, today: nat): Memory {
    var (lastnr, listing) := GetRegistry(s);
    Replay(EMPTY.(lastnr := if lastnr.Some? then lastnr.value else 0), listing.entries, today)
  }

  /** The entries that had not expired. */
  function Live(d: map<Url, Entry>, day: nat): map<Url, Entry> {
    map u | u in d && !Expired(d[u], day) :: d[u]
  }

  /** The journal is tidy on that day and later. */
  ghost predicate StaysTidy(es: seq<Entry>, day: nat) { forall today: nat :: day <= today ==> Tidy(map[], es, today) }

  /** From that day on the journal has one entry at a time for each url, each with its number. */
  ghost predicate Good(es: seq<Entry>, day: nat) { StaysTidy(es, day) && OwnNumbers(es, day) }

  lemma GoodLater(es: seq<Entry>, day: nat, today: nat)
    requires Good(es, day) && day <= today
    ensures Good(es, today)
  {
    OwnNumbersLater(es, day, today);
  }

  lemma {:induction false} TidyOneMore(d: map<Url, Entry>, es: seq<Entry>, e: Entry, today: nat)
    requires Tidy(d, es, today) && (IsDel(e) || Current(Denotes(d, es), e.url, today).None?)
    ensures Tidy(d, es + [e], today)
    decreases |es|
  {
    if es == [] {
      assert es + [e] == [e] && [e][1..] == [];
      assert Tidy(Effect(d, e), [], today);
    } else {
      assert (es + [e])[1..] == es[1..] + [e];
      TidyOneMore(Effect(d, es[0]), es[1..], e, today);
    }
  }

  // ------------------------------------------------------------------------
  // The memory that was read

  /** The memory of a program that has just started. */
  ghost predicate Fresh(m: Memory, es: seq<Entry>, day: nat) {
    && Sound(m) && Shadowless(m) && Quiet(m)
    && InStep(m, Live(Denotes(map[], es), day)) && NumbersFit(m, es, day)
  }

  lemma {:induction false} ReplaySane(m: Memory, es: seq<Entry>, today: nat)
    requires Sane(m) && forall e <- es :: Writable(e)
    ensures Sane(Replay(m, es, today))
    decreases |es|
  {
    if es != [] {
      assert Writable(es[0]);
      ApplySane(m, es[0], today);
      ReplaySane(Apply(m, es[0], today), es[1..], today);
    }
  }

  lemma ApplySane(m: Memory, e: Entry, today: nat)
    requires Sane(m) && Writable(e)
    ensures Sane(Apply(m, e, today))
  {
    var w := Apply(m, e, today);
    forall o <- w.objs
      ensures Plain(o.url)
    {
      assert o in m.objs || o.url == e.url || exists p <- m.objs :: p.url == o.url;
    }
  }

  lemma {:induction false} ReplayKnows(m: Memory, es: seq<Entry>, today: nat)
    ensures m.lastnr <= Replay(m, es, today).lastnr
    ensures forall e <- es :: Counts(e, today) ==> e.nr <= Replay(m, es, today).lastnr
    decreases |es|
  {
    if es != [] {
      ReplayKnows(Apply(m, es[0], today), es[1..], today);
      assert forall e <- es :: e == es[0] || e in es[1..];
    }
  }

  lemma QuietInStep(m: Memory, want: map<Url, Entry>)
    requires Valid(m) && Shadowless(m) && Quiet(m) && Agrees(m, want)
    ensures InStep(m, want)
  {
    forall u <- want
      ensures want[u].url == u && HasHolder(m, want[u])
    {
      assert Lookup(m, u) == Some(want[u]);
      var i := Find(m.objs, u);
      assert Owns(m, i, m.objs[i].cache.value) && Sits(m, m.objs[i].cache.value);
      assert Finished(m, m.objs[i].cache.value);
    }
    forall id: nat | Finished(m, id)
      ensures m.cells[id].entry.url in want
    {
      assert Sits(m, id) && IsCurrent(m, id);
      assert Lookup(m, m.cells[id].entry.url).Some?;
    }
  }

  lemma RegistryReadWritable(s: seq<byte>)
    ensures forall e <- GetRegistry(s).1.entries :: Writable(e)
  {
    if |s| >= 4 && Get32s(s[4..], 2).Okay? {
      AllReadWritable(Get32s(s[4..], 2).rest);
    }
  }

  /** Whatever is in the file, what is read from it can be written, and what is found is what had
      not expired. */
  lemma ReadHolds(s: seq<byte>, today: nat)
    ensures Valid(Read(s, today)) && Sane(Read(s, today)) && Quiet(Read(s, today))
    ensures Holds(Read(s, today), Denotes(map[], GetRegistry(s).1.entries), today)
  {
    var (lastnr, listing) := GetRegistry(s);
    var m := EMPTY.(lastnr := if lastnr.Some? then lastnr.value else 0);
    ReplayValid(m, listing.entries, today);
    ReplayDenotes(m, map[], listing.entries, today);
    RegistryReadWritable(s);
    ReplaySane(m, listing.entries, today);
  }

  lemma HoldsAgrees(m: Memory, d: map<Url, Entry>, today: nat)
    requires Holds(m, d, today)
    ensures Agrees(m, Live(d, today))
  {
    forall u
      ensures Lookup(m, u) == if u in Live(d, today) then Some(Live(d, today)[u]) else None
    {
      assert Lookup(m, u) == Current(d, u, today);
    }
  }

  /** A good journal is read to a memory that is in order and in step with it. */
  lemma ReadFresh(s: seq<byte>, today: nat)
    requires Good(GetRegistry(s).1.entries, today)
    ensures Fresh(Read(s, today), GetRegistry(s).1.entries, today)
  {
    var (lastnr, listing) := GetRegistry(s);
    var m0 := EMPTY.(lastnr := if lastnr.Some? then lastnr.value else 0);
    var m, es := Read(s, today), listing.entries;
    ReadHolds(s, today);
    TidyIsShadowless(m0, map[], es, today);
    assert [] + es == es;
    ReplayNumbered(m0, [], es, today);
    HoldsAgrees(m, Denotes(map[], es), today);
    QuietInStep(m, Live(Denotes(map[], es), today));
    ReplayKnows(m0, es, today);
  }

  // ------------------------------------------------------------------------
  // A compacted journal is good

  ghost predicate DistinctUrls(es: seq<Entry>) { forall i, j :: 0 <= i < j < |es| ==> es[i].url != es[j].url }

  lemma {:induction false} DistinctUrlsTidy(d: map<Url, Entry>, es: seq<Entry>, today: nat)
    requires Adds(es) && DistinctUrls(es) && forall e <- es :: e.url !in d
    ensures Tidy(d, es, today)
    decreases |es|
  {
    if es != [] {
      assert !IsDel(es[0]) && es[0].url !in d;
      var rest := es[1..];
      forall k | 0 <= k < |rest|
        ensures rest[k].url !in Effect(d, es[0]) && !IsDel(rest[k])
      {
        assert rest[k] == es[k + 1];
      }
      DistinctUrlsTidy(Effect(d, es[0]), rest, today);
    }
  }

  lemma SavedDistinctUrls(m: Memory)
    requires Valid(m) && Shadowless(m)
    ensures DistinctUrls(Saved(m))
  {
    AttachedDistinct(m, m.lru);
    forall i, j | 0 <= i < j < |Saved(m)|
      ensures Saved(m)[i].url != Saved(m)[j].url
    {
      SavedIs(m, i);
      SavedIs(m, j);
    }
  }

  lemma SavedGood(m: Memory, day: nat)
    requires Sound(m) && Shadowless(m)
    ensures Good(Saved(m), day) && forall e <- Saved(m) :: Writable(e)
  {
    SavedAdds(m);
    SavedDistinctUrls(m);
    SavedOwnNumbers(m, day);
    forall today: nat | day <= today
      ensures Tidy(map[], Saved(m), today)
    {
      DistinctUrlsTidy(map[], Saved(m), today);
    }
    forall p: nat | p < |Saved(m)|
      ensures Writable(Saved(m)[p])
    {
      SavedIs(m, p);
    }
  }

  /** If exactly the recorded pages are attached, a compacted journal is as good as the old one. */
  lemma SettledFits(m: Memory, want: map<Url, Entry>, day: nat)
    requires Sound(m) && Shadowless(m) && InStep(m, want) && Settled(m, want)
    ensures Denotes(map[], Saved(m)) == want && NumbersFit(m, Saved(m), day)
  {
    CompactionExact(m, want);
    forall id <- m.lru | IsCurrent(m, id)
      ensures m.cells[id].done
    {
      HolderOf(m, want, id);
    }
    CompactionFits(m, day);
  }

  lemma QuietSettled(m: Memory, want: map<Url, Entry>)
    requires Sound(m) && Shadowless(m) && InStep(m, want) && Quiet(m)
    ensures Settled(m, want)
  {
    forall id <- m.lru
      ensures m.cells[id].entry in want.Values
    {
      assert Sits(m, id) && Finished(m, id) && IsCurrent(m, id);
      var u := m.cells[id].entry.url;
      var x: nat :| Finished(m, x) && m.cells[x].entry == want[u];
      assert Sits(m, x) && IsCurrent(m, x);
      assert x == id;
    }
  }
}
