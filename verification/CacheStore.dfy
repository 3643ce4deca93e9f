/** The cache in memory: the url objects, the cache list and the running total of sizes, and what
    the program does to them and to the journal (aweb/cache.c, aweb/url.c). */
module CacheStore {
  import opened Basics
  import opened Packets
  import opened RegistryCodec
  import opened RegistryFile
  import opened RegistryWriter
  import opened CacheMemory
  import opened Journal
  import opened CacheRun
  import opened CacheNumbers
  import opened CacheSizes
  import opened CacheLoad
  import A = AsyncWriting
  import R = AsyncReader
  import W = AsyncWriter

  class Cache {
    var objs: seq<UrlObject>
    var cells: seq<CacheObject>
    var lru: seq<nat>
    var cachenr: nat
    var cadisksize: int
    var initializing: bool
    var journal: seq<Entry>           // what was appended to AWCU since it was read or written anew
    ghost var base: map<Url, Entry>   // what it meant then

    function View(): Memory
      reads this
    {
      Memory(objs, cells, lru, cachenr)
    }

    ghost predicate Inv()
      reads this
    {
      Tallies(View(), cadisksize)
    }

    /** The cache of a running program. */
    ghost predicate InOrder()
      reads this
    {
      !initializing && Runs(View(), cadisksize)
    }

    /** The journal means the finished pages that are there. */
    ghost predicate UpToDate()
      reads this
    {
      Keeps(View(), base, journal)
    }

    constructor ()
      ensures Inv() && View() == EMPTY && journal == [] && initializing
    {
      objs, cells, lru, cachenr, cadisksize, initializing, journal := [], [], [], 0, 0, true, [];
      base := map[];
    }

    /** The newest object of that url, or -1. */
    method FindUrl(url: Url) returns (i: int)
      ensures i == Find(objs, url)
    {
      i := |objs| - 1;
      while i >= 0 && objs[i].url != url
        invariant -1 <= i < |objs| && forall k :: i < k < |objs| ==> objs[k].url != url
      {
        i := i - 1;
      }
      FindIs(objs, url, i);
    }

    /** The place of a cache object in the list. */
    method FindPlace(id: nat) returns (p: nat)
      requires id in lru
      ensures p < |lru| && lru[p] == id && p == PlaceOf(lru, id)
    {
      p := 0;
      while lru[p] != id
        invariant p < |lru| && id in lru[p..] && PlaceOf(lru, id) == p + PlaceOf(lru[p..], id)
        decreases |lru| - p
      {
        p := p + 1;
      }
    }

    /** Take a cache object out of the list and out of its url object. */
    method Unlink(id: nat)
      requires Inv() && id in lru
      modifies this
      ensures Sits(old(View()), id) && View() == Dispose(old(View()), id) && Inv()
      ensures cadisksize == old(cadisksize) - old(cells)[id].entry.size
      ensures initializing == old(initializing) && journal == old(journal) && base == old(base)
    {
      ghost var m := View();
      var p := FindPlace(id);
      Disposed(m, cadisksize, id, p);
      var i := cells[id].owner;
      lru := lru[..p] + lru[p + 1..];
      cadisksize := cadisksize - cells[id].entry.size;
      if objs[i].cache == Some(id) {
        objs := objs[i := objs[i].(cache := None)];
      }
      assert View() == Dispose(m, id);
    }

    /** And record that if it has a file, unless this is start-up. */
    method Disposecache(id: nat)
      requires Inv() && id in lru
      modifies this
      ensures Sits(old(View()), id) && View() == Dispose(old(View()), id) && Inv()
      ensures cadisksize == old(cadisksize) - old(cells)[id].entry.size
      ensures initializing == old(initializing) && base == old(base)
      ensures journal == if initializing then old(journal) else old(journal) + Record(old(View()), Drop(id))
    {
      assert id in lru && Sits(View(), id);
      var cac := cells[id];
      Unlink(id);
      if !initializing {
        journal := journal + if cac.named then [DelOf(cac.entry)] else [];
      }
    }

    /** Afterwards the journal is up to date exactly if the page was not the one of its url that
        finished last while an older one is there. */
    method Adisposeobject(id: nat)
      requires InOrder() && id in lru
      modifies this
      ensures InOrder() && Sits(old(View()), id) && View() == Dispose(old(View()), id) && base == old(base)
      ensures journal == old(journal) + Record(old(View()), Drop(id))
      ensures old(UpToDate()) ==> (UpToDate() <==> Orderly(old(View()), Denotes(base, old(journal)), Drop(id)))
    {
      assert id in lru && Sits(View(), id);
      DropRuns(View(), cadisksize, base, journal, id);
      Disposecache(id);
    }

    // ----------------------------------------------------------------------
    // Start-up

    /** One entry of the registration. */
    method TakeEntry(e: Entry, today: nat)
      requires Inv() && initializing
      modifies this
      ensures Inv() && initializing && View() == Apply(old(View()), e, today) && journal == old(journal)
    {
      ghost var m := View();
      ApplyValid(m, e, today);
      if IsDel(e) {
        var i := FindUrl(e.url);
        if i < 0 {
          objs := objs + [UrlObject(e.url, None)];
          EntriesSame(m, View(), lru);
        } else if objs[i].cache.Some? {
          var id := objs[i].cache.value;
          assert Owns(m, i, id) && Sits(m, id);
          if cells[id].entry.nr == e.nr {
            Disposecache(id);
          }
        }
      } else if Expired(e, today) {
        objs := objs + [UrlObject(e.url, None)];
        EntriesSame(m, View(), lru);
      } else {
        AddEntry(e);
      }
    }

    /** A url object and a cache object, the last of the list. */
    method AddEntry(e: Entry)
      requires Inv() && !IsDel(e)
      modifies this
      ensures Inv() && initializing == old(initializing) && View() == Added(old(View()), e) && journal == old(journal)
    {
      ghost var m := View();
      SavedAdded(m, e);
      SumBoth(Entries(m), [e]);
      lru := lru + [|cells|];
      cells := cells + [CacheObject(|objs|, e, true, true)];
      objs := objs + [UrlObject(e.url, Some(|cells| - 1))];
      cadisksize := cadisksize + e.size;
      if e.nr > cachenr {
        cachenr := e.nr;
      }
      assert View() == Added(m, e);
    }

    /** Read one entry and do what it says; `more` tells whether to go on, and if not, `ok`
        whether the file was in order. */
    method ReadOneEntry(fh: R.AsyncFile, today: nat) returns (more: bool, ok: bool)
      requires Inv() && initializing && Ready(fh)
      modifies this, fh, fh.buf0, fh.buf1
      ensures Inv() && initializing && journal == old(journal)
      ensures Ready(fh) && Went(old(fh.View()), fh.View())
      ensures more ==> |Rest(fh.View())| < |Rest(old(fh.View()))|
      ensures !fh.View().Failed() ==>
        OneRead(old(View()), View(), GetAll(Rest(old(fh.View()))), GetAll(Rest(fh.View())), today, more, ok)
    {
      var ret := ReadCRegStruct(fh);
      more := ret.OKAY? && ret.value.kind <= MAX_COTYPE;
      ok := ret.EOF?;
      if more {
        TakeEntry(ret.value, today);
      }
    }

    method ReadEntries(fh: R.AsyncFile, today: nat) returns (ok: bool)
      requires Inv() && initializing && Ready(fh)
      modifies this, fh, fh.buf0, fh.buf1
      ensures Inv() && initializing && journal == old(journal)
      ensures Ready(fh) && Went(old(fh.View()), fh.View())
      ensures !fh.View().Failed() ==>
        && View() == Replay(old(View()), GetAll(Rest(old(fh.View()))).entries, today)
        && ok == GetAll(Rest(old(fh.View()))).ok
    {
      ghost var v, m, all := fh.View(), View(), GetAll(Rest(fh.View()));
      var more := true;
      ok := true;
      while more
        invariant Inv() && initializing && journal == old(journal) && Ready(fh) && Went(v, fh.View())
        invariant fh.View().Failed() || Joins(m, View(), all, GetAll(Rest(fh.View())), today, more, ok)
        decreases more, |Rest(fh.View())|
      {
        ghost var u, w := fh.View(), View();
        more, ok := ReadOneEntry(fh, today);
        WentOn(v, u, fh.View());
        if !fh.View().Failed() {
          JoinsOn(m, w, View(), all, GetAll(Rest(u)), GetAll(Rest(fh.View())), today, more, ok);
        }
      }
    }

    /** Read the registration.  The result says whether it was in order. */
    method Readcachereg(fh: R.AsyncFile, today: nat) returns (ok: bool)
      requires Inv() && initializing && View() == EMPTY && Ready(fh)
      modifies this, fh, fh.buf0, fh.buf1
      ensures Inv() && initializing && journal == old(journal)
      ensures Ready(fh) && Went(old(fh.View()), fh.View())
      ensures !fh.View().Failed() ==>
        View() == Read(Rest(old(fh.View())), today) && ok == GetRegistry(Rest(old(fh.View()))).1.ok
    {
      ghost var v := fh.View();
      var header := ReadCHdrStruct(fh);
      if header.None? {
        return false;
      }
      cachenr := header.value;
      assert Entries(View()) == [];
      ghost var u := fh.View();
      ok := ReadEntries(fh, today);
      WentOn(v, u, fh.View());
    }

    /** After start-up from a good registration the cache is in order, with distinct numbers, and
        the journal means what is in it. */
    method Initcache(fh: R.AsyncFile, today: nat) returns (ok: bool)
      requires Inv() && initializing && View() == EMPTY && journal == [] && Ready(fh)
      modifies this, fh, fh.buf0, fh.buf1
      ensures Inv() && !initializing && journal == []
      ensures var s := Rest(old(fh.View()));
              !fh.View().Failed() ==>
                && View() == Read(s, today) && ok == GetRegistry(s).1.ok
                && base == Live(Denotes(map[], GetRegistry(s).1.entries), today)
                && (Good(GetRegistry(s).1.entries, today) ==> InOrder() && UpToDate() && Quiet(View()))
    {
      ghost var s := Rest(fh.View());
      ok := Readcachereg(fh, today);
      initializing := false;
      base := Live(Denotes(map[], GetRegistry(s).1.entries), today);
      if Good(GetRegistry(s).1.entries, today) {
        ReadFresh(s, today);
      }
    }

    // ----------------------------------------------------------------------
    // Compaction

    /** The url's current cache object is written after those before it, any other is not. */
    method WriteOne(fh: W.AsyncFile, p: nat, ghost u: A.Sink)
      requires Inv() && fh.Valid() && p < |lru| && Hands(u, fh.View(), Written(View(), p))
      modifies fh, fh.buf0, fh.buf1
      ensures fh.Fixed() && Hands(u, fh.View(), Written(View(), p + 1))
    {
      ghost var w, m := fh.View(), View();
      var id := lru[p];
      assert id in lru && Sits(m, id);
      OneMoreWritten(m, p);
      if objs[cells[id].owner].cache == Some(id) {
        var good := WriteCRegStruct(fh, cells[id].entry);
        HandsBoth(u, w, fh.View(), Written(m, p), PutEntry(cells[id].entry));
      }
    }

    /** Write the snapshot.  What the writes answer is not looked at. */
    method WriteSnapshot(fh: W.AsyncFile)
      requires Inv() && cachenr < 0x1_0000_0000 && fh.Valid()
      modifies fh, fh.buf0, fh.buf1
      ensures fh.Fixed() && Hands(old(fh.View()), fh.View(), PutRegistry(cachenr, Saved(View())))
    {
      ghost var v := fh.View();
      var ok := WriteCHdrStruct(fh, cachenr);
      ghost var u := fh.View();
      HandsNothing(u);
      var p := 0;
      NoneWritten(View());
      while p < |lru|
        invariant p <= |lru| && fh.Fixed() && Hands(u, fh.View(), Written(View(), p))
      {
        WriteOne(fh, p, u);
        p := p + 1;
      }
      AllWritten(View());
      HandsBoth(v, u, fh.View(), PutHeader(cachenr), PutAll(Saved(View())));
    }

    /** Write AWCR anew.  If `saved`, all of it is there; then, and only then, AWCU is deleted. */
    method Savecachereg(bufferSize: nat, blockSize: nat, outcomes: seq<Outcome>, ok: bool, part: nat)
      returns (awcr: seq<byte>, saved: bool)
      requires Inv() && cachenr < 0x1_0000_0000 && 0 < blockSize && 0 < bufferSize && NoRetry(outcomes)
      ensures saved ==> awcr == PutRegistry(cachenr, Saved(View()))
      ensures Calm(outcomes) && ok ==> saved
    {
      var fh := new W.AsyncFile.Open([], false, bufferSize, blockSize, outcomes);
      WriteSnapshot(fh);
      A.CloseKeepsAll(fh.View(), ok, part);
      ghost var w := fh.View();
      var r := fh.CloseAsync(ok, part);
      awcr, saved := fh.disk, r >= 0;
      assert [] + PutRegistry(cachenr, Saved(View())) == PutRegistry(cachenr, Saved(View()));
    }

    /** Compaction: the new journal means the same as the old one if and only if exactly the
        finished pages are attached. */
    method Compact(bufferSize: nat, blockSize: nat, outcomes: seq<Outcome>, ok: bool, part: nat)
      returns (awcr: seq<byte>, saved: bool)
      requires InOrder() && 0 < blockSize && 0 < bufferSize && NoRetry(outcomes)
      modifies this
      ensures InOrder() && View() == old(View())
      ensures if saved then awcr == PutRegistry(cachenr, Saved(View())) && journal == [] && base == Denotes(map[], Saved(View()))
              else journal == old(journal) && base == old(base)
      ensures var want := Denotes(old(base), old(journal));
              saved && old(UpToDate()) ==> (base == want <==> Settled(View(), want)) && (base == want ==> UpToDate())
    {
      ghost var want := Denotes(base, journal);
      awcr, saved := Savecachereg(bufferSize, blockSize, outcomes, ok, part);
      if saved {
        base := Denotes(map[], Saved(View()));
        journal := [];
        if InStep(View(), want) {
          CompactionExact(View(), want);
        }
      }
    }

    // ----------------------------------------------------------------------
    // Pages come, grow, are touched and go

    /** A url object for a url that has none. */
    method Newurl(url: Url)
      requires InOrder() && Find(objs, url) < 0 && Plain(url)
      modifies this
      ensures InOrder() && View() == Do(old(View()), Meet(url)) && journal == old(journal) && base == old(base)
      ensures old(UpToDate()) ==> UpToDate()
    {
      ghost var m := View();
      OpRuns(m, cadisksize, base, journal, Meet(url));
      objs := objs + [UrlObject(url, None)];
      assert View() == Do(m, Meet(url));
    }

    /** A new cache object, the last of the list, with the next number; no url object points to it. */
    method Newcache(i: nat) returns (id: nat)
      requires InOrder() && IsNewest(View(), i) && cachenr < 0xffff_ffff
      modifies this
      ensures InOrder() && View() == Do(old(View()), Verify(i)) && journal == old(journal) && base == old(base)
      ensures id == |old(cells)|
      ensures old(UpToDate()) ==> UpToDate()
    {
      ghost var m := View();
      OpRuns(m, cadisksize, base, journal, Verify(i));
      id := |cells|;
      cachenr := cachenr + 1;
      cells := cells + [CacheObject(i, NewEntry(cachenr, objs[i].url), false, false)];
      lru := lru + [id];
      assert View() == Do(m, Verify(i));
    }

    /** A url object takes a cache object of its own. */
    method Adopt(id: nat)
      requires InOrder() && id in lru && Sits(View(), id)
      modifies this
      ensures InOrder() && View() == Do(old(View()), CacheRun.Adopt(id)) && journal == old(journal) && base == old(base)
      ensures old(UpToDate()) ==> UpToDate()
    {
      ghost var m := View();
      OpRuns(m, cadisksize, base, journal, CacheRun.Adopt(id));
      var i := cells[id].owner;
      objs := objs[i := objs[i].(cache := Some(id))];
      assert View() == Do(m, CacheRun.Adopt(id));
    }

    /** For a reload, a url object lets go of its cache object. */
    method SetAside(i: nat)
      requires InOrder() && i < |objs|
      modifies this
      ensures InOrder() && View() == Do(old(View()), CacheRun.SetAside(i)) && journal == old(journal) && base == old(base)
      ensures old(UpToDate()) ==> UpToDate()
    {
      ghost var m := View();
      OpRuns(m, cadisksize, base, journal, CacheRun.SetAside(i));
      objs := objs[i := objs[i].(cache := None)];
      assert View() == Do(m, CacheRun.SetAside(i));
    }

    /** A page is fetched. */
    method Fetch(i: nat)
      requires InOrder() && IsNewest(View(), i) && cachenr < 0xffff_ffff
      modifies this
      ensures InOrder() && View() == Do(old(View()), CacheRun.Fetch(i)) && journal == old(journal) && base == old(base)
      ensures old(UpToDate()) ==> UpToDate()
    {
      MadeLast(View(), i);
      var id := Newcache(i);
      Adopt(id);
    }

    /** Headers came in for a page that is arriving, and `length` bytes of data. */
    method Srcupdate(id: nat, e: Entry, data: bool, length: nat)
      requires InOrder() && Updates(View(), id, e) && e.size == cells[id].entry.size
      requires e.size + length < 0x1_0000_0000 && (length > 0 ==> data)
      modifies this
      ensures InOrder() && View() == Do(old(View()), Arrive(id, e.(size := e.size + length), data))
      ensures journal == old(journal) && base == old(base)
      ensures old(UpToDate()) ==> UpToDate()
    {
      ghost var m := View();
      var f := e.(size := e.size + length);
      OpRuns(m, cadisksize, base, journal, Arrive(id, f, data));
      var cac := cells[id];
      cells := cells[id := CacheObject(cac.owner, f, cac.named || data, false)];
      cadisksize := cadisksize + length;
      assert View() == Do(m, Arrive(id, f, data));
    }

    /** All of the page has arrived: its file is closed, and its entry appended to the journal. */
    method Finished(id: nat, e: Entry)
      requires InOrder() && Updates(View(), id, e) && e.size == cells[id].entry.size
      modifies this
      ensures InOrder() && View() == Do(old(View()), Finish(id, e)) && journal == old(journal) + [e] && base == old(base)
      ensures old(UpToDate()) ==> UpToDate()
    {
      ghost var m := View();
      OpRuns(m, cadisksize, base, journal, Finish(id, e));
      cells := cells[id := CacheObject(cells[id].owner, e, true, true)];
      journal := journal + [e];
      assert View() == Do(m, Finish(id, e));
    }

    /** The page was touched: it goes to the end of the list, the others keep their order. */
    method Touched(id: nat)
      requires InOrder() && id in lru
      modifies this
      ensures InOrder() && View() == Do(old(View()), Touch(id)) && journal == old(journal) && base == old(base)
      ensures old(UpToDate()) ==> UpToDate()
      ensures exists p: nat :: p < |old(lru)| && old(lru)[p] == id && lru == old(lru)[..p] + old(lru)[p + 1..] + [id]
    {
      ghost var m := View();
      OpRuns(m, cadisksize, base, journal, Touch(id));
      var p := FindPlace(id);
      WithoutAt(lru, id, p);
      lru := lru[..p] + lru[p + 1..] + [lru[p]];
      assert View() == Do(m, Touch(id));
    }

    /** One turn of the walk through the list: the current cache object of the url of the one at place p
        is disposed of.  The result is the place of what was next, or `stray` if that is gone. */
    method FlushOne(p: nat) returns (next: nat, stray: bool)
      requires InOrder() && p < |lru|
      modifies this
      ensures InOrder() && base == old(base) && Turned(old(View()), p, View(), next, stray)
      ensures journal == old(journal) + TurnLog(old(View()), p)
    {
      var id := lru[p];
      assert Sits(View(), id);
      var cac := objs[cells[id].owner].cache;
      next, stray := p + 1, false;
      if cac.Some? {
        assert Owns(View(), cells[id].owner, cac.value);
        var q := FindPlace(cac.value);
        Adisposeobject(cac.value);
        stray := q == p + 1;
        next := if q <= p then p else p + 1;
      }
    }

    /** Delete what was touched longest ago, until the rest fits, or the walk is over. */
    method Flushexcess(max: int) returns (stray: bool)
      requires InOrder()
      modifies this
      ensures InOrder() && base == old(base)
      ensures var f := Flush(old(View()), 0, max);
              View() == f.mem && journal == old(journal) + f.log && stray == f.stray
      ensures old(UpToDate() && AllCurrent(View(), lru)) ==> UpToDate() && !stray && (cadisksize <= max || lru == [])
    {
      ghost var m, log := View(), [];
      var p: nat := 0;
      stray := false;
      while p < |lru| && cadisksize > max && !stray
        invariant InOrder() && base == old(base) && p <= |lru|
        invariant journal == old(journal) + log
        invariant Flush(m, 0, max) == if stray then Flushed(View(), log, true) else Before(log, Flush(View(), p, max))
        decreases |lru| - p
      {
        ghost var w, k, here := View(), p, TurnLog(View(), p);
        p, stray := FlushOne(p);
        FlushTurn(w, k, View(), p, stray, max);
        Together(old(journal), log, here);
        Together(log, here, Flush(View(), p, max).log);
        log := log + here;
      }
      assert log + [] == log;
      if InStep(m, Denotes(base, old(journal))) && AllCurrent(m, m.lru) {
        FlushInStep(m, Denotes(base, old(journal)), max);
        DenotesOn(base, old(journal), log);
        FlushFits(m, max);
      }
    }

    /** The end of a page: it is recorded, and what is too much by now goes.  Unless a page is being
        reloaded or verified the journal stays up to date. */
    method Endofpage(id: nat, e: Entry, max: int) returns (stray: bool)
      requires InOrder() && Updates(View(), id, e) && e.size == cells[id].entry.size
      modifies this
      ensures InOrder() && base == old(base)
      ensures Can(old(View()), Finish(id, e))
      ensures var m := Do(old(View()), Finish(id, e));
              && Valid(m) && View() == Flush(m, 0, max).mem && stray == Flush(m, 0, max).stray
              && journal == old(journal) + [e] + Flush(m, 0, max).log
      ensures old(UpToDate() && AllCurrent(View(), lru)) ==> UpToDate() && !stray && (cadisksize <= max || lru == [])
    {
      ghost var m := View();
      Finished(id, e);
      if AllCurrent(m, m.lru) {
        SameCurrent(m, id, e);
      }
      stray := Flushexcess(max);
    }
  }

  lemma SameCurrent(m: Memory, id: nat, e: Entry)
    requires Sound(m) && Updates(m, id, e) && AllCurrent(m, m.lru)
    ensures Valid(Do(m, Finish(id, e))) && AllCurrent(Do(m, Finish(id, e)), m.lru)
  {
    OpSound(m, Finish(id, e));
    assert forall x <- m.lru :: Sits(m, x);
  }

  /** An entry is appended to AWCU.  If closing succeeds, all of it is there; nobody looks. */
  method Addregentry(awcu: seq<byte>, e: Entry, bufferSize: nat, blockSize: nat, outcomes: seq<Outcome>, ok: bool, part: nat)
    returns (file: seq<byte>, r: int)
    requires 0 < blockSize && 0 < bufferSize && NoRetry(outcomes)
    ensures r >= 0 ==> file == awcu + PutEntry(e)
    ensures Calm(outcomes) && ok ==> r >= 0
  {
    var fh := new W.AsyncFile.Open(awcu, true, bufferSize, blockSize, outcomes);
    var good := WriteCRegStruct(fh, e);
    A.CloseKeepsAll(fh.View(), ok, part);
    r := fh.CloseAsync(ok, part);
    file := fh.disk;
  }

  /** The sizes of what is in the list add up to that. */
  ghost predicate Tallies(m: Memory, size: int) { Valid(m) && size == Total(m) }

  lemma Disposed(m: Memory, size: int, id: nat, p: nat)
    requires Tallies(m, size) && p < |m.lru| && m.lru[p] == id
    ensures Sits(m, id) && Tallies(Dispose(m, id), size - m.cells[id].entry.size)
    ensures var i, objs := m.cells[id].owner, m.objs;
            Dispose(m, id) == Memory(if objs[i].cache == Some(id) then objs[i := objs[i].(cache := None)] else objs, m.cells,
                                     m.lru[..p] + m.lru[p + 1..], m.lastnr)
  {
    DisposeEntries(m, p);
  }

  lemma MadeLast(m: Memory, i: nat)
    requires Valid(m) && i < |m.objs| && m.lastnr < 0xffff_ffff
    ensures Sits(Made(m, i), |m.cells|) && Made(m, i).cells[|m.cells|].owner == i && |m.cells| in Made(m, i).lru
  {
    assert Made(m, i).lru[|m.lru|] == |m.cells|;
  }

  /** A running program's memory, and the total of the sizes in it. */
  ghost predicate Runs(m: Memory, size: int) { Sound(m) && Shadowless(m) && size == Total(m) }

  /** The journal since the map was right means the finished pages that there are. */
  ghost predicate Keeps(m: Memory, base: map<Url, Entry>, log: seq<Entry>) { InStep(m, Denotes(base, log)) }

  /** How much an operation adds to the total. */
  function Growth(m: Memory, op: Op): int {
    match op
    case Arrive(id, e, _) => if id < |m.cells| then e.size - m.cells[id].entry.size else 0
    case Finish(id, e) => if id < |m.cells| then e.size - m.cells[id].entry.size else 0
    case _ => 0
  }

  lemma OpSize(m: Memory, op: Op)
    requires Sound(m) && Can(m, op) && !op.Drop?
    ensures Valid(Do(m, op)) && Total(Do(m, op)) == Total(m) + Growth(m, op)
  {
    OpSound(m, op);
    if op.Fetch? {
      MadeSound(m, op.i);
      MadeEntries(m, op.i);
      EntriesSame(Made(m, op.i), Do(m, op), Do(m, op).lru);
    } else if op.Verify? {
      MadeEntries(m, op.i);
    } else if op.Arrive? {
      UpdatedEntries(m, PlaceOf(m.lru, op.id), op.e, op.opens, false);
    } else if op.Finish? {
      UpdatedEntries(m, PlaceOf(m.lru, op.id), op.e, true, true);
    } else if op.Touch? {
      TouchEntries(m, PlaceOf(m.lru, op.id));
    } else {
      EntriesSame(m, Do(m, op), m.lru);
    }
  }

  /** Every operation of a running program leaves the cache in order, and the journal up to date. */
  lemma OpRuns(m: Memory, size: int, base: map<Url, Entry>, log: seq<Entry>, op: Op)
    requires Runs(m, size) && Can(m, op) && !op.Drop?
    ensures Runs(Do(m, op), size + Growth(m, op))
    ensures Keeps(m, base, log) ==> Keeps(Do(m, op), base, if op.Finish? then log + [op.e] else log)
  {
    assert log + [] == log;
    OpSize(m, op);
    OpSound(m, op);
    OpShadowless(m, op);
    if Keeps(m, base, log) {
      OpInStep(m, Denotes(base, log), op);
      DenotesOn(base, log, Record(m, op));
    }
  }

  lemma DropRuns(m: Memory, size: int, base: map<Url, Entry>, log: seq<Entry>, id: nat)
    requires Runs(m, size) && id in m.lru && Sits(m, id)
    ensures Runs(Dispose(m, id), size - m.cells[id].entry.size)
    ensures Keeps(m, base, log) ==>
      (Keeps(Dispose(m, id), base, log + Record(m, Drop(id))) <==> Orderly(m, Denotes(base, log), Drop(id)))
  {
    DisposeEntries(m, PlaceOf(m.lru, id));
    OpSound(m, Drop(id));
    OpShadowless(m, Drop(id));
    if Keeps(m, base, log) {
      OpInStep(m, Denotes(base, log), Drop(id));
      DenotesOn(base, log, Record(m, Drop(id)));
    }
  }

  // ------------------------------------------------------------------------
  // Reading entry by entry

  /** An entry was read and done, or there was none. */
  ghost predicate OneRead(m: Memory, w: Memory, all: Listing, rest: Listing, today: nat, more: bool, ok: bool) {
    if more then
      && all.entries != [] && w == Apply(m, all.entries[0], today)
      && all.entries[1..] == rest.entries && all.ok == rest.ok
    else w == m && all == Listing([], ok)
  }

  /** What is still to be read leads to the same as all there was. */
  ghost predicate Joins(m: Memory, w: Memory, all: Listing, rest: Listing, today: nat, more: bool, ok: bool) {
    if more then Replay(m, all.entries, today) == Replay(w, rest.entries, today) && all.ok == rest.ok
    else w == Replay(m, all.entries, today) && ok == all.ok
  }

  lemma JoinsOn(m: Memory, u: Memory, w: Memory, all: Listing, here: Listing, rest: Listing, today: nat, more: bool, ok: bool)
    requires Joins(m, u, all, here, today, true, true) && OneRead(u, w, here, rest, today, more, ok)
    ensures Joins(m, w, all, rest, today, more, ok)
  {
  }

  // ------------------------------------------------------------------------
  // Writing entry by entry

  /** What is written of the first p of the list. */
  ghost function Written(m: Memory, p: nat): seq<byte>
    requires Valid(m) && p <= |m.lru|
  {
    PutAll(EntriesOf(m, AttachedFirst(m, p)))
  }

  ghost function AttachedFirst(m: Memory, p: nat): (r: seq<nat>)
    requires Valid(m) && p <= |m.lru|
    ensures forall id <- r :: id < |m.cells|
  {
    assert forall id <- m.lru[..p] :: id in m.lru;
    Attached(m, m.lru[..p])
  }

  lemma NoneWritten(m: Memory)
    requires Valid(m)
    ensures Written(m, 0) == []
  {
    assert m.lru[..0] == [];
  }

  lemma AllWritten(m: Memory)
    requires Valid(m)
    ensures Written(m, |m.lru|) == PutAll(Saved(m))
  {
    assert m.lru[..|m.lru|] == m.lru;
  }

  lemma OneMoreAttached(m: Memory, p: nat)
    requires Valid(m) && p < |m.lru| && Sits(m, m.lru[p])
    ensures AttachedFirst(m, p + 1) == AttachedFirst(m, p) + if IsCurrent(m, m.lru[p]) then [m.lru[p]] else []
  {
    var a, id := m.lru[..p], m.lru[p];
    assert m.lru[..p + 1] == a + [id];
    assert forall x <- a :: x in m.lru;
    AttachedBoth(m, a, [id]);
    assert [id][1..] == [];
  }

  lemma OneMoreWritten(m: Memory, p: nat)
    requires Valid(m) && p < |m.lru| && Sits(m, m.lru[p])
    ensures Written(m, p + 1) == Written(m, p) + if IsCurrent(m, m.lru[p]) then PutEntry(m.cells[m.lru[p]].entry) else []
  {
    OneMoreAttached(m, p);
    var ids, e := AttachedFirst(m, p), m.cells[m.lru[p]].entry;
    if IsCurrent(m, m.lru[p]) {
      assert EntriesOf(m, ids + [m.lru[p]]) == EntriesOf(m, ids) + [e];
      PutAllBoth(EntriesOf(m, ids), [e]);
      assert [e][1..] == [] && PutAll([e]) == PutEntry(e) + PutAll([]);
    } else {
      assert ids + [] == ids;
    }
  }

  // ------------------------------------------------------------------------
  // Deleting turn by turn

  function Before(log: seq<Entry>, f: Flushed): Flushed { f.(log := log + f.log) }

  ghost function TurnLog(m: Memory, p: nat): seq<Entry>
    requires Valid(m) && p < |m.lru|
  {
    assert Sits(m, m.lru[p]);
    match m.objs[m.cells[m.lru[p]].owner].cache
    case None => []
    case Some(x) => Record(m, Drop(x))
  }

  ghost predicate Turned(m: Memory, p: nat, w: Memory, next: nat, stray: bool)
    requires Valid(m) && p < |m.lru|
  {
    assert Sits(m, m.lru[p]);
    var i := m.cells[m.lru[p]].owner;
    match m.objs[i].cache
    case None => w == m && next == p + 1 && !stray
    case Some(x) =>
      assert Owns(m, i, x);
      var q := PlaceOf(m.lru, x);
      w == Dispose(m, x) && stray == (q == p + 1) && next == if q <= p then p else p + 1
  }

  lemma FlushTurn(m: Memory, p: nat, w: Memory, next: nat, stray: bool, max: int)
    requires Valid(m) && p < |m.lru| && Total(m) > max && Turned(m, p, w, next, stray)
    ensures Valid(w) && next <= |w.lru| && |w.lru| - next < |m.lru| - p
    ensures Flush(m, p, max) == if stray then Flushed(w, TurnLog(m, p), true) else Before(TurnLog(m, p), Flush(w, next, max))
  {
    assert Sits(m, m.lru[p]);
    var i := m.cells[m.lru[p]].owner;
    if m.objs[i].cache.Some? {
      TurnDeletes(m, i);
    } else {
      assert [] + Flush(w, next, max).log == Flush(w, next, max).log;
    }
  }

  lemma TurnDeletes(m: Memory, i: nat)
    requires Valid(m) && i < |m.objs| && m.objs[i].cache.Some?
    ensures var x := m.objs[i].cache.value;
            Owns(m, i, x) && Sits(m, x) && Valid(Dispose(m, x)) && |Dispose(m, x).lru| == |m.lru| - 1
  {
    assert Owns(m, i, m.objs[i].cache.value);
    DisposeList(m, PlaceOf(m.lru, m.objs[i].cache.value));
  }

  lemma Together(a: seq<Entry>, b: seq<Entry>, c: seq<Entry>)
    ensures a + (b + c) == a + b + c
  {
  }

  lemma FlushFits(m: Memory, max: int)
    requires Valid(m) && AllCurrent(m, m.lru)
    ensures var w := Flush(m, 0, max).mem; Valid(w) && (Total(w) <= max || w.lru == [])
  {
    var k := Excess(Entries(m), max);
    assert forall id <- m.lru[..k] :: id in m.lru;
    FlushExact(m, max);
    DropFirstList(m, k);
  }
}
