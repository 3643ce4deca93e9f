/** The sizes of the cached pages, and what is deleted when they are too much (aweb/cache.c). */
module CacheSizes {
  import opened Basics
  import opened Packets
  import opened RegistryCodec
  import opened CacheMemory
  import opened Journal
  import opened CacheRun

  function Sum(es: seq<Entry>): (n: nat) {
    if es == [] then 0 else es[0].size + Sum(es[1..])
  }

  lemma {:induction false} SumBoth(es: seq<Entry>, fs: seq<Entry>)
    ensures Sum(es + fs) == Sum(es) + Sum(fs)
  {
    if es == [] {
      assert es + fs == fs;
    } else {
      assert (es + fs)[1..] == es[1..] + fs;
      SumBoth(es[1..], fs);
    }
  }

  /** All that are in the list take room on the disk, attached or not. */
  ghost function Total(m: Memory): nat
    requires Valid(m)
  {
    Sum(Entries(m))
  }

  lemma SumParted(s: seq<Entry>, p: nat)
    requires p < |s|
    ensures Sum(s) == Sum(s[..p]) + s[p].size + Sum(s[p + 1..])
    ensures Sum(s[..p] + s[p + 1..]) == Sum(s) - s[p].size
  {
    var a, b, c := s[..p], [s[p]], s[p + 1..];
    assert s == a + (b + c);
    SumBoth(a, b + c);
    SumBoth(b, c);
    SumBoth(a, c);
    assert b[1..] == [];
  }

  lemma SumReplaced(s: seq<Entry>, p: nat, e: Entry)
    requires p < |s|
    ensures Sum(s[p := e]) == Sum(s) - s[p].size + e.size
  {
    var t := s[p := e];
    SumParted(s, p);
    SumParted(t, p);
    assert t[..p] == s[..p] && t[p + 1..] == s[p + 1..];
  }

  lemma SumMoved(s: seq<Entry>, p: nat)
    requires p < |s|
    ensures Sum(s[..p] + s[p + 1..] + [s[p]]) == Sum(s)
  {
    SumParted(s, p);
    SumBoth(s[..p] + s[p + 1..], [s[p]]);
  }

  // ------------------------------------------------------------------------
  // What the operations do to the list

  lemma EntriesWithout(m: Memory, ids: seq<nat>, p: nat, rest: seq<nat>)
    requires p < |ids| && rest == ids[..p] + ids[p + 1..]
    requires (forall id <- ids :: id < |m.cells|) && forall id <- rest :: id < |m.cells|
    ensures EntriesOf(m, rest) == EntriesOf(m, ids)[..p] + EntriesOf(m, ids)[p + 1..]
  {
  }

  lemma DisposeList(m: Memory, p: nat)
    requires Valid(m) && p < |m.lru|
    ensures Sits(m, m.lru[p]) && Valid(Dispose(m, m.lru[p]))
    ensures Dispose(m, m.lru[p]).lru == m.lru[..p] + m.lru[p + 1..]
  {
    assert m.lru[p] in m.lru;
    DisposeValid(m, m.lru[p]);
    WithoutAt(m.lru, m.lru[p], p);
  }

  /** Disposing of a cache object takes its entry out of the list, and leaves the others as they are. */
  lemma DisposeEntries(m: Memory, p: nat)
    requires Valid(m) && p < |m.lru|
    ensures Sits(m, m.lru[p]) && Valid(Dispose(m, m.lru[p]))
    ensures Dispose(m, m.lru[p]).lru == m.lru[..p] + m.lru[p + 1..]
    ensures Entries(Dispose(m, m.lru[p])) == Entries(m)[..p] + Entries(m)[p + 1..]
    ensures Total(Dispose(m, m.lru[p])) == Total(m) - Entries(m)[p].size
  {
    DisposeList(m, p);
    var w := Dispose(m, m.lru[p]);
    EntriesWithout(m, m.lru, p, w.lru);
    EntriesSame(m, w, w.lru);
    SumParted(Entries(m), p);
  }

  lemma DisposeFirst(m: Memory)
    requires Valid(m) && m.lru != []
    ensures Sits(m, m.lru[0]) && Valid(Dispose(m, m.lru[0]))
    ensures Dispose(m, m.lru[0]).lru == m.lru[1..] && Entries(Dispose(m, m.lru[0])) == Entries(m)[1..]
  {
    DisposeEntries(m, 0);
    NoneBefore(m.lru);
    NoneBefore(Entries(m));
  }

  lemma NoneBefore<T>(s: seq<T>)
    requires s != []
    ensures s[..0] + s[0 + 1..] == s[1..]
  {
  }

  lemma UpdatedEntries(m: Memory, p: nat, e: Entry, opens: bool, done: bool)
    requires Valid(m) && p < |m.lru| && m.lru[p] < |m.cells| && Valid(Updated(m, m.lru[p], e, opens, done))
    ensures Entries(Updated(m, m.lru[p], e, opens, done)) == Entries(m)[p := e]
    ensures Total(Updated(m, m.lru[p], e, opens, done)) == Total(m) - Entries(m)[p].size + e.size
  {
    SumReplaced(Entries(m), p, e);
  }

  lemma EntriesMoved(m: Memory, ids: seq<nat>, p: nat, moved: seq<nat>)
    requires p < |ids| && moved == ids[..p] + ids[p + 1..] + [ids[p]]
    requires (forall id <- ids :: id < |m.cells|) && forall id <- moved :: id < |m.cells|
    ensures var s := EntriesOf(m, ids); EntriesOf(m, moved) == s[..p] + s[p + 1..] + [s[p]]
  {
  }

  lemma TouchEntries(m: Memory, p: nat)
    requires Valid(m) && p < |m.lru| && Valid(m.(lru := Without(m.lru, m.lru[p]) + [m.lru[p]]))
    ensures var w, s := m.(lru := Without(m.lru, m.lru[p]) + [m.lru[p]]), Entries(m);
            && w.lru == m.lru[..p] + m.lru[p + 1..] + [m.lru[p]]
            && Entries(w) == s[..p] + s[p + 1..] + [s[p]] && Total(w) == Total(m)
  {
    var w := m.(lru := Without(m.lru, m.lru[p]) + [m.lru[p]]);
    WithoutAt(m.lru, m.lru[p], p);
    EntriesMoved(m, m.lru, p, w.lru);
    EntriesSame(m, w, w.lru);
    SumMoved(Entries(m), p);
  }

  lemma MadeEntries(m: Memory, i: nat)
    requires Valid(m) && i < |m.objs| && m.lastnr < 0xffff_ffff && Valid(Made(m, i))
    ensures Entries(Made(m, i)) == Entries(m) + [NewEntry(m.lastnr + 1, m.objs[i].url)] && Total(Made(m, i)) == Total(m)
  {
    assert forall id <- m.lru :: Sits(m, id);
    SumBoth(Entries(m), [NewEntry(m.lastnr + 1, m.objs[i].url)]);
  }

  // ------------------------------------------------------------------------
  // Deleting what is too much

  /** `stray`: the walk would go on from an object that was just disposed of. */
  datatype Flushed = Flushed(mem: Memory, log: seq<Entry>, stray: bool)

  /** From place p on, for each object of the list the cache of its url is deleted, until the rest
      fits. */
  ghost function Flush(m: Memory, p: nat, max: int): Flushed
    requires Valid(m) && p <= |m.lru|
    decreases |m.lru| - p
  {
    if p == |m.lru| || Total(m) <= max then Flushed(m, [], false)
    else
      var id := m.lru[p];
      assert Sits(m, id);
      var i := m.cells[id].owner;
      match m.objs[i].cache
      case None => Flush(m, p + 1, max)
      case Some(x) =>
        assert Owns(m, i, x);
        var q := PlaceOf(m.lru, x);
        DisposeEntries(m, q);
        var w, log := Dispose(m, x), Record(m, Drop(x));
        if q == p + 1 then Flushed(w, log, true)
        else
          var f := Flush(w, if q <= p then p else p + 1, max);
          f.(log := log + f.log)
  }

  function PlaceOf(s: seq<nat>, x: nat): (p: nat)
    requires x in s
    ensures p < |s| && s[p] == x
  {
    if s[0] == x then 0 else 1 + PlaceOf(s[1..], x)
  }

  lemma PlaceIs(s: seq<nat>, p: nat)
    requires Distinct(s) && p < |s|
    ensures PlaceOf(s, s[p]) == p
  {
  }

  /** How many must go from the front of the list before the rest fits. */
  function Excess(s: seq<Entry>, max: int): (k: nat)
    ensures k <= |s| && (k == |s| || Sum(s[k..]) <= max)
    ensures forall j :: 0 <= j < k ==> Sum(s[j..]) > max
  {
    if s == [] || Sum(s) <= max then 0
    else
      var k := Excess(s[1..], max);
      assert forall j :: 0 < j <= |s| ==> s[j..] == s[1..][j - 1..];
      k + 1
  }

  /** The first k of the list are gone. */
  ghost function DropFirst(m: Memory, k: nat): Memory
    requires Valid(m) && k <= |m.lru|
    decreases k
  {
    if k == 0 then m
    else
      DisposeFirst(m);
      DropFirst(Dispose(m, m.lru[0]), k - 1)
  }

  ghost function DropLog(m: Memory, ids: seq<nat>): seq<Entry> {
    if ids == [] then [] else Record(m, Drop(ids[0])) + DropLog(m, ids[1..])
  }

  lemma {:induction false} DropLogSame(m: Memory, w: Memory, ids: seq<nat>)
    requires w.cells == m.cells
    ensures DropLog(w, ids) == DropLog(m, ids)
  {
    if ids != [] {
      DropLogSame(m, w, ids[1..]);
    }
  }

  ghost predicate AllCurrent(m: Memory, ids: seq<nat>)
    requires AllSit(m, ids)
  {
    forall id <- ids :: IsCurrent(m, id)
  }

  /** An object that its url does not point to is never deleted. */
  lemma {:induction false} StaysListed(m: Memory, p: nat, max: int, id: nat)
    requires Valid(m) && p <= |m.lru| && id in m.lru && Sits(m, id) && !IsCurrent(m, id)
    ensures id in Flush(m, p, max).mem.lru
    decreases |m.lru| - p
  {
    if p < |m.lru| && Total(m) > max {
      assert Sits(m, m.lru[p]);
      var i := m.cells[m.lru[p]].owner;
      if m.objs[i].cache.None? {
        StaysListed(m, p + 1, max, id);
      } else {
        var x := m.objs[i].cache.value;
        assert Owns(m, i, x);
        var q := PlaceOf(m.lru, x);
        DisposeEntries(m, q);
        assert id != x;
        if q != p + 1 {
          StaysListed(Dispose(m, x), if q <= p then p else p + 1, max, id);
        }
      }
    }
  }

  /** One step, when the first of the list is its url's current one. */
  lemma FlushFirst(m: Memory, max: int)
    requires Valid(m) && m.lru != [] && Total(m) > max && Sits(m, m.lru[0]) && IsCurrent(m, m.lru[0])
    ensures var w := Dispose(m, m.lru[0]);
            && Valid(w) && w.lru == m.lru[1..] && Entries(w) == Entries(m)[1..]
            && Flush(m, 0, max) == (var f := Flush(w, 0, max); f.(log := Record(m, Drop(m.lru[0])) + f.log))
            && forall id <- w.lru :: Sits(w, id) && Sits(m, id) && (IsCurrent(w, id) <==> IsCurrent(m, id))
  {
    PlaceIs(m.lru, 0);
    DisposeFirst(m);
    DisposeValid(m, m.lru[0]);
  }

  lemma ExcessFirst(s: seq<Entry>, max: int)
    requires s != [] && Sum(s) > max
    ensures Excess(s, max) == Excess(s[1..], max) + 1
  {
  }

  lemma {:induction false} FlushCurrent(m: Memory, k: nat, max: int)
    requires Valid(m) && k == Excess(Entries(m), max) && AllSit(m, m.lru[..k]) && AllCurrent(m, m.lru[..k])
    ensures Flush(m, 0, max) == Flushed(DropFirst(m, k), DropLog(m, m.lru[..k]), false)
    decreases |m.lru|
  {
    if k > 0 {
      assert Entries(m)[0..] == Entries(m);
      FirstCurrent(m, m.lru[..k]);
      FlushFirst(m, max);
      ExcessFirst(Entries(m), max);
      var w := Dispose(m, m.lru[0]);
      RestCurrent(m, w, k);
      FlushCurrent(w, k - 1, max);
      DropLogSame(m, w, w.lru[..k - 1]);
      assert DropFirst(m, k) == DropFirst(w, k - 1);
      assert DropLog(m, m.lru[..k]) == Record(m, Drop(m.lru[0])) + DropLog(w, w.lru[..k - 1]);
    }
  }

  lemma FirstCurrent(m: Memory, ids: seq<nat>)
    requires ids != [] && AllSit(m, ids) && AllCurrent(m, ids)
    ensures Sits(m, ids[0]) && IsCurrent(m, ids[0])
  {
    assert ids[0] in ids;
  }

  lemma RestCurrent(m: Memory, w: Memory, k: nat)
    requires 0 < k <= |m.lru| && w.lru == m.lru[1..] && AllSit(m, m.lru[..k]) && AllCurrent(m, m.lru[..k])
    requires forall id <- w.lru :: Sits(w, id) && Sits(m, id) && (IsCurrent(w, id) <==> IsCurrent(m, id))
    ensures m.lru[..k][1..] == w.lru[..k - 1] && AllSit(w, w.lru[..k - 1]) && AllCurrent(w, w.lru[..k - 1])
  {
    assert m.lru[..k][1..] == w.lru[..k - 1];
    assert forall id <- w.lru[..k - 1] :: id in m.lru[..k] && id in w.lru;
  }

  /** The list of w is that of m without its first k. */
  ghost predicate IsRest(m: Memory, w: Memory, k: nat)
    requires Valid(m) && k <= |m.lru|
  {
    Valid(w) && w.lru == m.lru[k..] && Entries(w) == Entries(m)[k..]
  }

  lemma RestOfRest(m: Memory, v: Memory, w: Memory, k: nat)
    requires Valid(m) && Valid(v) && 0 < k <= |m.lru| && v.lru == m.lru[1..] && Entries(v) == Entries(m)[1..]
    requires IsRest(v, w, k - 1)
    ensures IsRest(m, w, k)
  {
  }

  lemma AllIsRest(m: Memory)
    requires Valid(m)
    ensures IsRest(m, m, 0)
  {
  }

  lemma {:induction false} DropFirstList(m: Memory, k: nat)
    requires Valid(m) && k <= |m.lru|
    ensures IsRest(m, DropFirst(m, k), k)
    decreases k
  {
    if k == 0 {
      AllIsRest(m);
    } else {
      DisposeFirst(m);
      DropFirstList(Dispose(m, m.lru[0]), k - 1);
      RestOfRest(m, Dispose(m, m.lru[0]), DropFirst(m, k), k);
    }
  }

  /** What is deleted is the shortest prefix of the list that brings the total within the limit,
      or all of it, if and only if every object of that prefix is its url's current one. */
  lemma FlushExact(m: Memory, max: int)
    requires Valid(m)
    ensures var k, f := Excess(Entries(m), max), Flush(m, 0, max);
            (!f.stray && f.mem.lru == m.lru[k..]) <==> AllCurrent(m, m.lru[..k])
    ensures var k, f := Excess(Entries(m), max), Flush(m, 0, max);
            AllCurrent(m, m.lru[..k]) ==> f == Flushed(DropFirst(m, k), DropLog(m, m.lru[..k]), false)
  {
    var k, f := Excess(Entries(m), max), Flush(m, 0, max);
    if AllCurrent(m, m.lru[..k]) {
      FlushCurrent(m, k, max);
      DropFirstList(m, k);
    } else {
      var id :| id in m.lru[..k] && !IsCurrent(m, id);
      StaysListed(m, 0, max, id);
      assert id !in m.lru[k..];
    }
  }

  // ------------------------------------------------------------------------
  // During a reload

  /** The first of the list was set aside for a reload, and its url has a new cache object. */
  ghost predicate Reloading(m: Memory, a: nat, b: nat) {
    && Valid(m) && m.lru != [] && m.lru[0] == a && Sits(m, a) && b in m.lru && Sits(m, b) && a != b
    && m.cells[a].owner == m.cells[b].owner && IsCurrent(m, b)
  }

  /** Every reload of what was touched longest ago leads there. */
  lemma ReloadLeadsThere(m: Memory, a: nat)
    requires Sound(m) && Shadowless(m) && m.lru != [] && m.lru[0] == a && Sits(m, a) && IsCurrent(m, a)
    requires m.lastnr < 0xffff_ffff
    ensures var i := m.cells[a].owner;
            && Can(m, SetAside(i)) && Can(Do(m, SetAside(i)), Fetch(i))
            && var w := Do(Do(m, SetAside(i)), Fetch(i));
            Reloading(w, a, |m.cells|) && Total(w) == Total(m)
  {
    var i := m.cells[a].owner;
    OpSound(m, SetAside(i));
    var v := Do(m, SetAside(i));
    SameUrls(m.objs, v.objs, m.objs[i].url);
    OpSound(v, Fetch(i));
    MadeSound(v, i);
    MadeEntries(v, i);
    var w := Do(v, Fetch(i));
    assert Entries(w) == Entries(Made(v, i)) && Entries(v) == Entries(m);
    assert a in m.lru;
  }

  lemma {:induction false} NothingComes(m: Memory, p: nat, max: int, id: nat)
    requires Valid(m) && p <= |m.lru| && id !in m.lru
    ensures id !in Flush(m, p, max).mem.lru
    decreases |m.lru| - p
  {
    if p < |m.lru| && Total(m) > max {
      assert Sits(m, m.lru[p]);
      var i := m.cells[m.lru[p]].owner;
      if m.objs[i].cache.None? {
        NothingComes(m, p + 1, max, id);
      } else {
        var x := m.objs[i].cache.value;
        assert Owns(m, i, x);
        var q := PlaceOf(m.lru, x);
        DisposeEntries(m, q);
        if q != p + 1 {
          NothingComes(Dispose(m, x), if q <= p then p else p + 1, max, id);
        }
      }
    }
  }

  /** Then the new page is deleted and the old one stays, even when the old one was touched longest
      ago and would do.  If the new one is next in the list, the walk is lost. */
  lemma FlushKeepsOldest(m: Memory, a: nat, b: nat, max: int)
    requires Reloading(m, a, b) && Total(m) > max
    ensures a in Flush(m, 0, max).mem.lru && b !in Flush(m, 0, max).mem.lru
    ensures Flush(m, 0, max).log != [] || !m.cells[b].named
    ensures m.lru[1] == b ==> Flush(m, 0, max).stray
  {
    StaysListed(m, 0, max, a);
    var q := PlaceOf(m.lru, b);
    DisposeEntries(m, q);
    PlaceIs(m.lru, 1);
    NothingComes(Dispose(m, b), 1, max, b);
  }

  /** And if both had arrived, the journal no longer has the page that is still there. */
  lemma FlushForgetsOldest(m: Memory, want: map<Url, Entry>, a: nat, b: nat)
    requires Reloading(m, a, b) && Sound(m) && InStep(m, want) && Finished(m, a) && m.cells[b].entry in want.Values
    ensures !InStep(Dispose(m, b), Denotes(want, Record(m, Drop(b))))
  {
    OpInStep(m, want, Drop(b));
    assert m.cells[a].entry.url == m.cells[b].entry.url;
  }

  // ------------------------------------------------------------------------
  // Otherwise

  lemma CurrentIsOrderly(m: Memory, want: map<Url, Entry>, id: nat)
    requires Valid(m) && Shadowless(m) && AllCurrent(m, m.lru) && id in m.lru && Sits(m, id)
    ensures Orderly(m, want, Drop(id))
  {
    forall x: nat | Finished(m, x) && x != id
      ensures m.cells[x].entry.url != m.cells[id].entry.url
    {
      assert Sits(m, x) && IsCurrent(m, x) && IsCurrent(m, id);
    }
  }

  /** While no page is reloaded or verified, the journal keeps up with what is deleted. */
  lemma {:induction false} FlushInStep(m: Memory, want: map<Url, Entry>, max: int)
    requires Sound(m) && Shadowless(m) && AllCurrent(m, m.lru) && InStep(m, want)
    ensures var f := Flush(m, 0, max);
            Sound(f.mem) && Shadowless(f.mem) && AllCurrent(f.mem, f.mem.lru) && InStep(f.mem, Denotes(want, f.log)) && !f.stray
    decreases |m.lru|
  {
    if m.lru != [] && Total(m) > max {
      var id := m.lru[0];
      assert id in m.lru && Sits(m, id);
      FlushFirst(m, max);
      OpSound(m, Drop(id));
      OpShadowless(m, Drop(id));
      CurrentIsOrderly(m, want, id);
      OpInStep(m, want, Drop(id));
      var w := Dispose(m, id);
      assert forall x <- w.lru :: x in m.lru;
      FlushInStep(w, Denotes(want, Record(m, Drop(id))), max);
      DenotesOn(want, Record(m, Drop(id)), Flush(w, 0, max).log);
    }
  }
}
