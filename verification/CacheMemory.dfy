/** The cache in memory (aweb/cache.c, aweb/url.c): url objects, and a list of cache objects, least
    recently touched first.  A url object points to its current cache object, but while a page is
    reloaded or verified the list has other cache objects of the same url object too. */
module CacheMemory {
  import opened Basics
  import opened Packets
  import opened RegistryCodec

  type Url = seq<byte>

  /** `cache` is the place of the current cache object among all there ever were. */
  datatype UrlObject = UrlObject(url: Url, cache: Option<nat>)

  /** `named`: its file was opened.  `done`: all of the page has arrived, and that was recorded. */
  datatype CacheObject = CacheObject(owner: nat, entry: Entry, named: bool, done: bool)

  /** The url objects in the order they were made; all cache objects ever made; the list of those
      there are, by their place among them; and the last entry number used. */
  datatype Memory = Memory(objs: seq<UrlObject>, cells: seq<CacheObject>, lru: seq<nat>, lastnr: nat)

  const EMPTY := Memory([], [], [], 0)

  predicate IsDel(e: Entry) { e.kind == COTYPE_DEL }

  predicate Expired(e: Entry, today: nat) { e.expires != 0 && e.expires <= today }

  predicate Sits(m: Memory, id: nat) {
    && id < |m.cells| && m.cells[id].owner < |m.objs|
    && !IsDel(m.cells[id].entry) && m.cells[id].entry.url == m.objs[m.cells[id].owner].url
  }

  /** The url object of a cache object points to it. */
  predicate IsCurrent(m: Memory, id: nat)
    requires Sits(m, id)
  {
    m.objs[m.cells[id].owner].cache == Some(id)
  }

  ghost predicate AllSit(m: Memory, ids: seq<nat>) { forall id <- ids :: Sits(m, id) }

  ghost predicate Valid(m: Memory) {
    && Distinct(m.lru) && AllSit(m, m.lru)
    && (forall i :: 0 <= i < |m.objs| && m.objs[i].cache.Some? ==> Owns(m, i, m.objs[i].cache.value))
  }

  predicate Owns(m: Memory, i: nat, id: nat) { id in m.lru && id < |m.cells| && m.cells[id].owner == i }

  /** The newest object of that url, or -1. */
  function Find(objs: seq<UrlObject>, url: Url): (i: int)
    ensures -1 <= i < |objs| && (i >= 0 ==> objs[i].url == url)
    ensures forall k :: i < k < |objs| ==> objs[k].url != url
  {
    LastWhere(objs, (o: UrlObject) => o.url == url)
  }

  lemma FindIs(objs: seq<UrlObject>, url: Url, i: int)
    requires -1 <= i < |objs| && (i >= 0 ==> objs[i].url == url)
    requires forall k :: i < k < |objs| ==> objs[k].url != url
    ensures Find(objs, url) == i
  {
  }

  lemma SameUrls(a: seq<UrlObject>, b: seq<UrlObject>, u: Url)
    requires |a| == |b| && forall i :: 0 <= i < |a| ==> a[i].url == b[i].url
    ensures Find(a, u) == Find(b, u)
  {
    FindIs(b, u, Find(a, u));
  }

  lemma FindAppended(objs: seq<UrlObject>, o: UrlObject, u: Url)
    ensures Find(objs + [o], u) == if u == o.url then |objs| else Find(objs, u)
  {
    FindIs(objs + [o], u, if u == o.url then |objs| else Find(objs, u));
  }

  /** What the program has cached for a url. */
  function Lookup(m: Memory, url: Url): Option<Entry> {
    var i := Find(m.objs, url);
    if i < 0 || m.objs[i].cache.None? || m.objs[i].cache.value >= |m.cells| then None
    else Some(m.cells[m.objs[i].cache.value].entry)
  }

  // ------------------------------------------------------------------------
  // Lists of places

  function Without(s: seq<nat>, x: nat): (r: seq<nat>)
    ensures forall y :: y in r <==> y in s && y != x
  {
    if s == [] then [] else if s[0] == x then Without(s[1..], x) else [s[0]] + Without(s[1..], x)
  }

  lemma {:induction false} WithoutDistinct(s: seq<nat>, x: nat)
    requires Distinct(s)
    ensures Distinct(Without(s, x))
  {
    if s != [] {
      var r := Without(s[1..], x);
      WithoutDistinct(s[1..], x);
      forall k | 0 <= k < |r|
        ensures r[k] != s[0]
      {
        assert r[k] in s[1..];
      }
    }
  }

  lemma {:induction false} WithoutNone(s: seq<nat>, x: nat)
    requires x !in s
    ensures Without(s, x) == s
  {
    if s != [] {
      WithoutNone(s[1..], x);
      assert s[0] in s && [s[0]] + s[1..] == s;
    }
  }

  lemma {:induction false} WithoutAt(s: seq<nat>, x: nat, p: nat)
    requires Distinct(s) && p < |s| && s[p] == x
    ensures Without(s, x) == s[..p] + s[p + 1..]
  {
    if p == 0 {
      assert x !in s[1..];
      WithoutNone(s[1..], x);
    } else {
      WithoutAt(s[1..], x, p - 1);
      assert s[0] != s[p];
      assert s[..p] == [s[0]] + s[1..][..p - 1] && s[p + 1..] == s[1..][p..];
    }
  }

  lemma DistinctAppend<T>(s: seq<T>, x: T)
    requires Distinct(s) && x !in s
    ensures Distinct(s + [x])
  {
  }

  lemma PlaceIn(s: seq<nat>, x: nat) returns (p: nat)
    requires x in s
    ensures p < |s| && s[p] == x
  {
    p :| 0 <= p < |s| && s[p] == x;
  }

  // ------------------------------------------------------------------------
  // The entries of the list

  function EntriesOf(m: Memory, ids: seq<nat>): (r: seq<Entry>)
    requires forall id <- ids :: id < |m.cells|
    ensures |r| == |ids| && forall p :: 0 <= p < |r| ==> ids[p] in ids && r[p] == m.cells[ids[p]].entry
  {
    seq(|ids|, p requires 0 <= p < |ids| => var id := ids[p]; assert id in ids; m.cells[id].entry)
  }

  /** All that are in the list. */
  ghost function Entries(m: Memory): seq<Entry>
    requires Valid(m)
  {
    EntriesOf(m, m.lru)
  }

  /** Those of the list that their url objects point to. */
  ghost function Attached(m: Memory, ids: seq<nat>): (r: seq<nat>)
    requires AllSit(m, ids)
    ensures forall id :: id in r <==> id in ids && IsCurrent(m, id)
  {
    if ids == [] then []
    else
      var id := ids[0];
      assert id in ids && forall x <- ids[1..] :: x in ids;
      (if IsCurrent(m, id) then [id] else []) + Attached(m, ids[1..])
  }

  /** What compaction writes: the entries of the attached cache objects, in the order of the list. */
  ghost function Saved(m: Memory): seq<Entry>
    requires Valid(m)
  {
    EntriesOf(m, Attached(m, m.lru))
  }

  lemma {:induction false} AttachedDistinct(m: Memory, ids: seq<nat>)
    requires AllSit(m, ids) && Distinct(ids)
    ensures Distinct(Attached(m, ids))
  {
    if ids != [] {
      assert forall x <- ids[1..] :: x in ids;
      var r := Attached(m, ids[1..]);
      AttachedDistinct(m, ids[1..]);
      forall k | 0 <= k < |r|
        ensures r[k] != ids[0]
      {
        assert r[k] in r;
      }
    }
  }

  lemma {:induction false} AttachedBoth(m: Memory, a: seq<nat>, b: seq<nat>)
    requires AllSit(m, a) && AllSit(m, b)
    ensures AllSit(m, a + b) && Attached(m, a + b) == Attached(m, a) + Attached(m, b)
  {
    if a == [] {
      assert a + b == b;
    } else {
      assert (a + b)[0] == a[0] && (a + b)[1..] == a[1..] + b;
      AttachedBoth(m, a[1..], b);
    }
  }

  /** If every cache object of a list is current, all are attached. */
  lemma {:induction false} AllAttached(m: Memory, ids: seq<nat>)
    requires AllSit(m, ids) && forall id <- ids :: IsCurrent(m, id)
    ensures Attached(m, ids) == ids
  {
    if ids != [] {
      assert ids[0] in ids && forall x <- ids[1..] :: x in ids;
      AllAttached(m, ids[1..]);
      assert [ids[0]] + ids[1..] == ids;
    }
  }

  /** The list as seen from another memory in which the same are current. */
  lemma {:induction false} AttachedSame(m: Memory, w: Memory, ids: seq<nat>)
    requires AllSit(m, ids) && AllSit(w, ids) && forall id <- ids :: IsCurrent(m, id) == IsCurrent(w, id)
    ensures Attached(m, ids) == Attached(w, ids)
  {
    if ids != [] {
      assert ids[0] in ids && forall x <- ids[1..] :: x in ids;
      AttachedSame(m, w, ids[1..]);
    }
  }

  // ------------------------------------------------------------------------
  // Disposing of a cache object

  /** The cache object leaves the list, and its url object if that points to it. */
  function Dispose(m: Memory, id: nat): Memory
    requires Sits(m, id)
  {
    var i := m.cells[id].owner;
    m.(objs := if m.objs[i].cache == Some(id) then m.objs[i := m.objs[i].(cache := None)] else m.objs,
       lru := Without(m.lru, id))
  }

  lemma DisposeValid(m: Memory, id: nat)
    requires Valid(m) && id in m.lru
    ensures Valid(Dispose(m, id))
    ensures forall x <- Dispose(m, id).lru :: Sits(m, x) && (IsCurrent(Dispose(m, id), x) <==> IsCurrent(m, x))
  {
    WithoutDistinct(m.lru, id);
    var w := Dispose(m, id);
    forall x <- w.lru
      ensures Sits(m, x) && Sits(w, x) && (IsCurrent(w, x) <==> IsCurrent(m, x))
    {
      assert x in m.lru && x != id;
    }
  }
}
