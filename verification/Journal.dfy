/** The cache registration as a journal (aweb/cache.c): entries are appended as pages come and
    go, replayed at start-up, and compacted into a fresh file from the cache list. */
module Journal {
  import opened Basics
  import opened Packets
  import opened RegistryCodec
  import opened CacheMemory

  // ------------------------------------------------------------------------
  // Replay

  /** A page read from the registration gets a url object of its own. */
  function Added(m: Memory, e: Entry): Memory {
    Memory(m.objs + [UrlObject(e.url, Some(|m.cells|))], m.cells + [CacheObject(|m.objs|, e, true, true)],
           m.lru + [|m.cells|], if m.lastnr < e.nr then e.nr else m.lastnr)
  }

  /** What reading one entry does. */
  function Apply(m: Memory, e: Entry, today: nat): Memory {
    if IsDel(e) then
      var i := Find(m.objs, e.url);
      if i < 0 then m.(objs := m.objs + [UrlObject(e.url, None)])
      else
        var c := m.objs[i].cache;
        if c.Some? && Sits(m, c.value) && m.cells[c.value].entry.nr == e.nr then Dispose(m, c.value) else m
    else if Expired(e, today) then m.(objs := m.objs + [UrlObject(e.url, None)])
    else Added(m, e)
  }

  function Replay(m: Memory, es: seq<Entry>, today: nat): Memory
    decreases |es|
  {
    if es == [] then m else Replay(Apply(m, es[0], today), es[1..], today)
  }

  /** All that are in the list are attached, and were recorded. */
  ghost predicate Quiet(m: Memory)
    requires Valid(m)
  {
    forall id <- m.lru :: IsCurrent(m, id) && m.cells[id].done && m.cells[id].named
  }

  lemma MetValid(m: Memory, u: Url)
    requires Valid(m)
    ensures var w := m.(objs := m.objs + [UrlObject(u, None)]);
            Valid(w) && forall id <- m.lru :: IsCurrent(w, id) <==> IsCurrent(m, id)
  {
  }

  lemma AddedValid(m: Memory, e: Entry)
    requires Valid(m) && !IsDel(e)
    ensures var w := Added(m, e);
            && Valid(w) && AllSit(w, m.lru) && (forall id <- m.lru :: IsCurrent(w, id) <==> IsCurrent(m, id))
            && Sits(w, |m.cells|) && IsCurrent(w, |m.cells|)
  {
    assert forall id <- m.lru :: Sits(m, id);
    DistinctAppend(m.lru, |m.cells|);
    forall id <- m.lru
      ensures Sits(Added(m, e), id) && (IsCurrent(Added(m, e), id) <==> IsCurrent(m, id))
    {
      assert Sits(m, id);
    }
  }

  lemma ApplyValid(m: Memory, e: Entry, today: nat)
    requires Valid(m)
    ensures Valid(Apply(m, e, today)) && (Quiet(m) ==> Quiet(Apply(m, e, today)))
  {
    if IsDel(e) {
      var i := Find(m.objs, e.url);
      if i >= 0 && m.objs[i].cache.Some? {
        assert Owns(m, i, m.objs[i].cache.value);
        DisposeValid(m, m.objs[i].cache.value);
      } else {
        MetValid(m, e.url);
      }
    } else if Expired(e, today) {
      MetValid(m, e.url);
    } else {
      AddedValid(m, e);
    }
  }

  lemma {:induction false} ReplayValid(m: Memory, es: seq<Entry>, today: nat)
    requires Valid(m)
    ensures Valid(Replay(m, es, today)) && (Quiet(m) ==> Quiet(Replay(m, es, today)))
    decreases |es|
  {
    if es != [] {
      ApplyValid(m, es[0], today);
      ReplayValid(Apply(m, es[0], today), es[1..], today);
    }
  }

  // ------------------------------------------------------------------------
  // What a journal means

  /** Which entry a url has, going by the journal alone: the one added last, unless that was
      deleted. */
  function Effect(d: map<Url, Entry>, e: Entry): map<Url, Entry> {
    if !IsDel(e) then d[e.url := e]
    else if e.url in d && d[e.url].nr == e.nr then d - {e.url}
    else d
  }

  function Denotes(d: map<Url, Entry>, es: seq<Entry>): map<Url, Entry>
    decreases |es|
  {
    if es == [] then d else Denotes(Effect(d, es[0]), es[1..])
  }

  /** The memory has for every url what the map says, save for what had expired. */
  ghost predicate Holds(m: Memory, d: map<Url, Entry>, today: nat) {
    forall u :: Lookup(m, u) == Current(d, u, today)
  }

  function Current(d: map<Url, Entry>, u: Url, today: nat): Option<Entry> {
    if u in d && !Expired(d[u], today) then Some(d[u]) else None
  }

  lemma LookupMet(m: Memory, o: UrlObject, u: Url)
    requires o.cache.None?
    ensures Lookup(m.(objs := m.objs + [o]), u) == if u == o.url then None else Lookup(m, u)
  {
    FindAppended(m.objs, o, u);
  }

  lemma LookupAdded(m: Memory, e: Entry, u: Url)
    requires Valid(m)
    ensures Lookup(Added(m, e), u) == if u == e.url then Some(e) else Lookup(m, u)
  {
    FindAppended(m.objs, UrlObject(e.url, Some(|m.cells|)), u);
    var i := Find(m.objs, u);
    if i >= 0 && m.objs[i].cache.Some? {
      assert Owns(m, i, m.objs[i].cache.value);
    }
  }

  lemma LookupDisposed(m: Memory, i: nat, u: Url)
    requires Valid(m) && i < |m.objs| && i == Find(m.objs, m.objs[i].url) && m.objs[i].cache.Some?
    ensures Sits(m, m.objs[i].cache.value)
    ensures Lookup(Dispose(m, m.objs[i].cache.value), u) == if u == m.objs[i].url then None else Lookup(m, u)
  {
    var id := m.objs[i].cache.value;
    assert Owns(m, i, id) && Sits(m, id);
    SameUrls(m.objs, Dispose(m, id).objs, u);
  }

  /** What one entry does to what is found. */
  lemma ApplyLookup(m: Memory, e: Entry, today: nat, u: Url)
    requires Valid(m)
    ensures Lookup(Apply(m, e, today), u) ==
      if u != e.url then Lookup(m, u)
      else if IsDel(e) then
        (if Lookup(m, u).Some? && Lookup(m, u).value.nr == e.nr then None else Lookup(m, u))
      else if Expired(e, today) then None else Some(e)
  {
    var i := Find(m.objs, e.url);
    if IsDel(e) && i >= 0 {
      if m.objs[i].cache.Some? {
        LookupDisposed(m, i, u);
      }
    } else if IsDel(e) || Expired(e, today) {
      LookupMet(m, UrlObject(e.url, None), u);
    } else {
      LookupAdded(m, e, u);
    }
  }

  lemma ApplyHolds(m: Memory, d: map<Url, Entry>, e: Entry, today: nat)
    requires Valid(m) && Holds(m, d, today)
    ensures Holds(Apply(m, e, today), Effect(d, e), today)
  {
    forall u
      ensures Lookup(Apply(m, e, today), u) == Current(Effect(d, e), u, today)
    {
      ApplyLookup(m, e, today, u);
      assert Lookup(m, u) == Current(d, u, today);
    }
  }

  /** Replaying a journal gives every url the entry that the journal means it to have. */
  lemma {:induction false} ReplayDenotes(m: Memory, d: map<Url, Entry>, es: seq<Entry>, today: nat)
    requires Valid(m) && Holds(m, d, today)
    ensures Holds(Replay(m, es, today), Denotes(d, es), today)
    decreases |es|
  {
    if es != [] {
      ApplyValid(m, es[0], today);
      ApplyHolds(m, d, es[0], today);
      ReplayDenotes(Apply(m, es[0], today), Effect(d, es[0]), es[1..], today);
    }
  }

  lemma {:induction false} DenotesBoth(d: map<Url, Entry>, es: seq<Entry>, e: Entry)
    ensures Denotes(d, es + [e]) == Effect(Denotes(d, es), e)
    decreases |es|
  {
    if es == [] {
      assert ([e])[1..] == [];
      assert Denotes(d, [] + [e]) == Denotes(Effect(d, e), []);
    } else {
      assert (es + [e])[1..] == es[1..] + [e] && (es + [e])[0] == es[0];
      DenotesBoth(Effect(d, es[0]), es[1..], e);
    }
  }

  /** When a page is replaced, it does not matter to what the journal means whether the new
      entry comes before or after the deletion of the old one. */
  lemma OrderIsImmaterial(d: map<Url, Entry>, add: Entry, del: Entry, post: seq<Entry>)
    requires !IsDel(add) && IsDel(del) && add.url == del.url && add.nr != del.nr
    requires add.url in d && d[add.url].nr == del.nr
    ensures Denotes(d, [add, del] + post) == Denotes(d, [del, add] + post)
    ensures Denotes(d, [add, del] + post) == Denotes(d[add.url := add], post)
  {
    assert ([add, del] + post)[1..] == [del] + post && ([del] + post)[1..] == post;
    assert ([del, add] + post)[1..] == [add] + post && ([add] + post)[1..] == post;
    assert (d - {add.url})[add.url := add] == d[add.url := add];
  }

  // ------------------------------------------------------------------------
  // Compaction

  ghost predicate Adds(es: seq<Entry>) { forall e <- es :: !IsDel(e) }

  function Unexpired(es: seq<Entry>, today: nat): seq<Entry> {
    if es == [] then []
    else (if Expired(es[0], today) then [] else [es[0]]) + Unexpired(es[1..], today)
  }

  lemma SavedAdds(m: Memory)
    requires Valid(m)
    ensures Adds(Saved(m))
  {
  }

  lemma EntriesSame(m: Memory, w: Memory, ids: seq<nat>)
    requires forall id <- ids :: id < |m.cells| && id < |w.cells| && m.cells[id].entry == w.cells[id].entry
    ensures EntriesOf(m, ids) == EntriesOf(w, ids)
  {
  }

  lemma SavedMet(m: Memory, u: Url)
    requires Valid(m)
    ensures var w := m.(objs := m.objs + [UrlObject(u, None)]); Valid(w) && Saved(w) == Saved(m)
  {
    MetValid(m, u);
    var w := m.(objs := m.objs + [UrlObject(u, None)]);
    AttachedSame(m, w, m.lru);
  }

  lemma AttachedAdded(m: Memory, e: Entry)
    requires Valid(m) && !IsDel(e)
    ensures var w := Added(m, e);
            Valid(w) && Attached(w, w.lru) == Attached(m, m.lru) + [|m.cells|]
  {
    var w, id := Added(m, e), |m.cells|;
    AddedValid(m, e);
    AttachedSame(m, w, m.lru);
    AttachedBoth(w, m.lru, [id]);
    AllAttached(w, [id]);
  }

  lemma EntriesAdded(m: Memory, e: Entry, ids: seq<nat>)
    requires forall id <- ids :: id < |m.cells|
    ensures forall id <- ids + [|m.cells|] :: id < |Added(m, e).cells|
    ensures EntriesOf(Added(m, e), ids + [|m.cells|]) == EntriesOf(m, ids) + [e]
  {
  }

  lemma SavedAdded(m: Memory, e: Entry)
    requires Valid(m) && !IsDel(e)
    ensures Valid(Added(m, e)) && Saved(Added(m, e)) == Saved(m) + [e] && Entries(Added(m, e)) == Entries(m) + [e]
  {
    AttachedAdded(m, e);
    EntriesAdded(m, e, Attached(m, m.lru));
    EntriesAdded(m, e, m.lru);
  }

  lemma SavedApplied(m: Memory, e: Entry, today: nat)
    requires Valid(m) && !IsDel(e)
    ensures Valid(Apply(m, e, today))
    ensures Saved(Apply(m, e, today)) == Saved(m) + if Expired(e, today) then [] else [e]
  {
    SavedMet(m, e.url);
    SavedAdded(m, e);
    assert Saved(m) + [] == Saved(m);
  }

  /** Replaying a compacted journal puts the attached pages in the list again, in the same order. */
  lemma {:induction false} CompactionKeepsOrder(m: Memory, es: seq<Entry>, today: nat)
    requires Valid(m) && Adds(es)
    ensures Valid(Replay(m, es, today))
    ensures Saved(Replay(m, es, today)) == Saved(m) + Unexpired(es, today)
    decreases |es|
  {
    if es == [] {
      assert Saved(m) + [] == Saved(m);
    } else {
      var w := Apply(m, es[0], today);
      assert !IsDel(es[0]);
      SavedApplied(m, es[0], today);
      assert Adds(es[1..]);
      CompactionKeepsOrder(w, es[1..], today);
      Regroup(Saved(m), if Expired(es[0], today) then [] else [es[0]], Unexpired(es[1..], today));
    }
  }

  lemma Regroup<T>(a: seq<T>, b: seq<T>, c: seq<T>)
    ensures a + b + c == a + (b + c)
  {
  }

  /** The last entry of that url, or -1. */
  function Last(es: seq<Entry>, url: Url): (i: int)
    ensures -1 <= i < |es| && (i >= 0 ==> es[i].url == url)
    ensures forall k :: i < k < |es| ==> es[k].url != url
  {
    LastWhere(es, (e: Entry) => e.url == url)
  }

  lemma LastIs(es: seq<Entry>, u: Url, i: int)
    requires -1 <= i < |es| && (i >= 0 ==> es[i].url == u)
    requires forall k :: i < k < |es| ==> es[k].url != u
    ensures Last(es, u) == i
  {
  }

  lemma LastOfRest(es: seq<Entry>, u: Url)
    requires es != []
    ensures var j := Last(es[1..], u);
            Last(es, u) == if j >= 0 then j + 1 else if es[0].url == u then 0 else -1
  {
    var j := Last(es[1..], u);
    assert forall k :: 0 < k < |es| ==> es[k] == es[1..][k - 1];
    LastIs(es, u, if j >= 0 then j + 1 else if es[0].url == u then 0 else -1);
  }

  lemma {:induction false} AddsDenote(d: map<Url, Entry>, es: seq<Entry>, u: Url)
    requires Adds(es)
    ensures var i := Last(es, u);
            if i >= 0 then u in Denotes(d, es) && Denotes(d, es)[u] == es[i]
            else (u in Denotes(d, es) <==> u in d) && (u in d ==> Denotes(d, es)[u] == d[u])
    decreases |es|
  {
    if es != [] {
      assert !IsDel(es[0]);
      LastOfRest(es, u);
      AddsDenote(Effect(d, es[0]), es[1..], u);
    }
  }

  ghost predicate Agrees(m: Memory, d: map<Url, Entry>) {
    forall u :: Lookup(m, u) == if u in d then Some(d[u]) else None
  }

  ghost predicate DistinctNumbers(m: Memory)
    requires Valid(m)
  {
    forall a, b :: a in m.lru && b in m.lru && a != b ==> m.cells[a].entry.nr != m.cells[b].entry.nr
  }

  /** The url object of the saved entry at p. */
  ghost function SavedOwner(m: Memory, p: nat): nat
    requires Valid(m) && p < |Saved(m)|
  {
    SavedIs(m, p);
    m.cells[Attached(m, m.lru)[p]].owner
  }

  /** What the program finds for the url is saved too, and not before this entry. */
  ghost predicate HasHeir(m: Memory, p: nat)
    requires Valid(m) && p < |Saved(m)|
  {
    exists q :: p <= q < |Saved(m)| && SavedOwner(m, q) == Find(m.objs, Saved(m)[p].url)
  }

  ghost predicate NoOrphans(m: Memory)
    requires Valid(m)
  {
    forall p :: 0 <= p < |Saved(m)| ==> HasHeir(m, p)
  }

  lemma NoOrphansKeepMap(m: Memory)
    requires Valid(m) && NoOrphans(m)
    ensures Agrees(m, Denotes(map[], Saved(m)))
  {
    var d := Denotes(map[], Saved(m));
    SavedAdds(m);
    forall u
      ensures Lookup(m, u) == if u in d then Some(d[u]) else None
    {
      NoOrphansLast(m, u);
      AddsDenote(map[], Saved(m), u);
    }
  }

  /** Compaction keeps what is found for every url exactly if there are no orphans. */
  lemma CompactionKeepsMap(m: Memory)
    requires Valid(m) && DistinctNumbers(m)
    ensures Agrees(m, Denotes(map[], Saved(m))) <==> NoOrphans(m)
  {
    var d := Denotes(map[], Saved(m));
    SavedAdds(m);
    if NoOrphans(m) {
      NoOrphansKeepMap(m);
    }
    if Agrees(m, d) {
      forall p | 0 <= p < |Saved(m)|
        ensures HasHeir(m, p)
      {
        var u := Saved(m)[p].url;
        AddsDenote(map[], Saved(m), u);
        assert Lookup(m, u) == Some(d[u]);
        CurrentIsSaved(m, u);
      }
    }
  }

  /** The place among the saved of what a url object points to. */
  lemma SavedPlace(m: Memory, i: nat) returns (q: nat)
    requires Valid(m) && i < |m.objs| && m.objs[i].cache.Some?
    ensures var ids := Attached(m, m.lru);
            && q < |ids| && ids[q] == m.objs[i].cache.value && ids[q] < |m.cells| && m.cells[ids[q]].owner == i
            && Saved(m)[q] == m.cells[ids[q]].entry && Saved(m)[q].url == m.objs[i].url
  {
    assert Owns(m, i, m.objs[i].cache.value) && Sits(m, m.objs[i].cache.value);
    q := PlaceIn(Attached(m, m.lru), m.objs[i].cache.value);
  }

  lemma SavedIs(m: Memory, p: nat)
    requires Valid(m) && p < |Attached(m, m.lru)|
    ensures var ids := Attached(m, m.lru);
            && ids[p] in m.lru && Sits(m, ids[p]) && IsCurrent(m, ids[p])
            && Saved(m)[p] == m.cells[ids[p]].entry && Saved(m)[p].url == m.objs[m.cells[ids[p]].owner].url
  {
    assert Attached(m, m.lru)[p] in Attached(m, m.lru);
  }

  lemma CurrentIsSaved(m: Memory, u: Url)
    requires Valid(m) && DistinctNumbers(m) && Lookup(m, u).Some?
    requires Last(Saved(m), u) >= 0 && Lookup(m, u).value == Saved(m)[Last(Saved(m), u)]
    ensures SavedOwner(m, Last(Saved(m), u)) == Find(m.objs, u)
  {
    var q := SavedPlace(m, Find(m.objs, u));
    SavedIs(m, Last(Saved(m), u));
    SavedIs(m, q);
  }

  lemma NoOrphansLast(m: Memory, u: Url)
    requires Valid(m) && NoOrphans(m)
    ensures var p := Last(Saved(m), u); Lookup(m, u) == if p >= 0 then Some(Saved(m)[p]) else None
  {
    var p, j := Last(Saved(m), u), Find(m.objs, u);
    if p >= 0 {
      assert HasHeir(m, p);
      var q :| p <= q < |Saved(m)| && SavedOwner(m, q) == Find(m.objs, Saved(m)[p].url);
      SavedIs(m, q);
      assert Saved(m)[q].url == u && q == p;
    } else if j >= 0 && m.objs[j].cache.Some? {
      var q := SavedPlace(m, j);
    }
  }

  // ------------------------------------------------------------------------
  // Where orphans come from

  /** Every listed cache object belongs to the newest object of its url. */
  ghost predicate Shadowless(m: Memory) {
    forall id <- m.lru :: Sits(m, id) ==> m.cells[id].owner == Find(m.objs, m.cells[id].entry.url)
  }

  /** A page is only added when its url has none. */
  ghost predicate Tidy(d: map<Url, Entry>, es: seq<Entry>, today: nat)
    decreases |es|
  {
    es == [] || ((IsDel(es[0]) || Current(d, es[0].url, today).None?) && Tidy(Effect(d, es[0]), es[1..], today))
  }

  lemma ShadowlessNoOrphans(m: Memory)
    requires Valid(m) && Shadowless(m)
    ensures NoOrphans(m)
  {
    forall p | 0 <= p < |Saved(m)|
      ensures HasHeir(m, p)
    {
      SavedIs(m, p);
      assert SavedOwner(m, p) == Find(m.objs, Saved(m)[p].url);
    }
  }

  /** If deletions are recorded before what replaces them, there are never any orphans. */
  lemma {:induction false} TidyIsShadowless(m: Memory, d: map<Url, Entry>, es: seq<Entry>, today: nat)
    requires Valid(m) && Quiet(m) && Shadowless(m) && Holds(m, d, today) && Tidy(d, es, today)
    ensures Valid(Replay(m, es, today)) && Shadowless(Replay(m, es, today))
    decreases |es|
  {
    if es != [] {
      var w := Apply(m, es[0], today);
      assert Lookup(m, es[0].url) == Current(d, es[0].url, today);
      ApplyValid(m, es[0], today);
      ApplyShadowless(m, es[0], today);
      ApplyHolds(m, d, es[0], today);
      TidyIsShadowless(w, Effect(d, es[0]), es[1..], today);
    }
  }

  lemma AddedShadowless(m: Memory, e: Entry)
    requires Valid(m) && Quiet(m) && Shadowless(m) && !IsDel(e) && Lookup(m, e.url).None?
    ensures Shadowless(Added(m, e))
  {
    var w := Added(m, e);
    AddedValid(m, e);
    forall id <- w.lru
      ensures w.cells[id].owner == Find(w.objs, w.cells[id].entry.url)
    {
      FindAppended(m.objs, w.objs[|m.objs|], w.cells[id].entry.url);
      if id in m.lru {
        CurrentNotFound(m, id, e.url);
      }
    }
  }

  /** A url for which nothing is found has nothing in the list. */
  lemma CurrentNotFound(m: Memory, id: nat, u: Url)
    requires Valid(m) && Quiet(m) && Shadowless(m) && Lookup(m, u).None? && id in m.lru
    ensures Sits(m, id) && m.cells[id].entry.url != u
  {
    assert Sits(m, id) && IsCurrent(m, id);
  }

  lemma MetShadowless(m: Memory, u: Url)
    requires Valid(m) && Quiet(m) && Shadowless(m) && Lookup(m, u).None?
    ensures Shadowless(m.(objs := m.objs + [UrlObject(u, None)]))
  {
    forall id <- m.lru
      ensures Find(m.objs + [UrlObject(u, None)], m.cells[id].entry.url) == m.cells[id].owner
    {
      CurrentNotFound(m, id, u);
      FindAppended(m.objs, UrlObject(u, None), m.cells[id].entry.url);
    }
  }

  lemma DisposedShadowless(m: Memory, id: nat)
    requires Valid(m) && Shadowless(m) && id in m.lru && Sits(m, id)
    ensures Shadowless(Dispose(m, id))
  {
    var w := Dispose(m, id);
    forall x <- w.lru | Sits(w, x)
      ensures w.cells[x].owner == Find(w.objs, w.cells[x].entry.url)
    {
      assert Sits(m, x);
      SameUrls(m.objs, w.objs, w.cells[x].entry.url);
    }
  }

  lemma ApplyShadowless(m: Memory, e: Entry, today: nat)
    requires Valid(m) && Quiet(m) && Shadowless(m) && (IsDel(e) || Lookup(m, e.url).None?)
    ensures Shadowless(Apply(m, e, today))
  {
    if !IsDel(e) {
      MetShadowless(m, e.url);
      AddedShadowless(m, e);
    } else {
      var i := Find(m.objs, e.url);
      if i < 0 {
        MetShadowless(m, e.url);
      } else if m.objs[i].cache.Some? {
        assert Owns(m, i, m.objs[i].cache.value);
        DisposedShadowless(m, m.objs[i].cache.value);
      }
    }
  }

  lemma DelMisses(m: Memory, del: Entry, today: nat)
    requires Valid(m) && IsDel(del) && Find(m.objs, del.url) >= 0
    requires Lookup(m, del.url).None? || Lookup(m, del.url).value.nr != del.nr
    ensures Apply(m, del, today) == m
  {
    var i := Find(m.objs, del.url);
    if m.objs[i].cache.Some? {
      assert Owns(m, i, m.objs[i].cache.value);
    }
  }

  lemma FindAdded(m: Memory, e: Entry, today: nat)
    requires !IsDel(e)
    ensures Find(Apply(m, e, today).objs, e.url) == |m.objs|
  {
    var w := Apply(m, e, today);
    FindAppended(m.objs, w.objs[|m.objs|], e.url);
  }

  lemma ReplayTwo(m: Memory, e: Entry, f: Entry, today: nat)
    ensures Replay(m, [e, f], today) == Apply(Apply(m, e, today), f, today)
  {
    assert [e, f][1..] == [f] && [f][1..] == [];
    assert Replay(Apply(m, e, today), [f], today) == Replay(Apply(Apply(m, e, today), f, today), [], today);
  }

  /** Recorded the other way around, the old entry stays in the cache list for ever. */
  lemma AddFirstLeavesTheOld(m: Memory, old_: Entry, add: Entry, del: Entry, today: nat)
    requires Valid(m) && !IsDel(add) && IsDel(del) && add.url == del.url && add.nr != del.nr == old_.nr
    requires Lookup(m, add.url) == Some(old_)
    ensures Valid(Replay(m, [add, del], today))
    ensures old_ in Saved(Replay(m, [add, del], today))
  {
    var w := Apply(m, add, today);
    var q := SavedPlace(m, Find(m.objs, add.url));
    SavedApplied(m, add, today);
    assert Saved(w)[q] == old_;
    ApplyLookup(m, add, today, add.url);
    FindAdded(m, add, today);
    DelMisses(w, del, today);
    ReplayTwo(m, add, del, today);
  }

  /** And once the new one has expired, compaction brings the old one back. */
  lemma OrphansComeBack(old_: Entry, add: Entry, del: Entry, today: nat)
    requires !IsDel(old_) && !IsDel(add) && IsDel(del) && old_.url == add.url == del.url && add.nr != del.nr == old_.nr
    requires !Expired(old_, today) && Expired(add, today)
    ensures var m := Replay(EMPTY, [old_, add, del], today);
            && Valid(m) && Lookup(m, old_.url) == None && Saved(m) == [old_]
            && Lookup(Replay(EMPTY, Saved(m), today), old_.url) == Some(old_)
  {
    var m1 := Apply(EMPTY, old_, today);
    var m2 := Apply(m1, add, today);
    SavedApplied(EMPTY, old_, today);
    SavedApplied(m1, add, today);
    ApplyLookup(EMPTY, old_, today, old_.url);
    ApplyLookup(m1, add, today, add.url);
    FindAdded(m1, add, today);
    DelMisses(m2, del, today);
    ReplayTwo(m1, add, del, today);
    assert [old_, add, del][1..] == [add, del];
    assert Replay(EMPTY, [old_], today) == m1 by {
      assert [old_][1..] == [];
    }
  }
}
