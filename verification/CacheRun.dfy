/** What a running program does to its cache (aweb/cache.c, aweb/url.c), one operation at a time,
    and what it records of that in the journal. */
module CacheRun {
  import opened Basics
  import opened Packets
  import opened RegistryCodec
  import opened CacheMemory
  import opened Journal

  datatype Op =
    | Meet(url: Url)                // a url object is made
    | Fetch(i: nat)                 // a page is fetched: its url object gets a new cache object
    | Verify(i: nat)                // a cache object is made on the side
    | SetAside(i: nat)              // for a reload, the url object lets go of its cache object
    | Adopt(id: nat)                // a url object takes one that was on the side, or takes it back
    | Arrive(id: nat, e: Entry, opens: bool)   // headers came in, or data, which opens the file
    | Finish(id: nat, e: Entry)     // all of the page has arrived
    | Drop(id: nat)                 // a cache object is disposed of
    | Touch(id: nat)                // a page was used: it goes to the end of the list

  function NewEntry(nr: ulong, url: Url): Entry {
    Entry(nr, 0, 0, 0, 0, 0, [], [], [], url, [])
  }

  /** The same page, with other attributes. */
  predicate Updates(m: Memory, id: nat, e: Entry) {
    && id in m.lru && id < |m.cells| && !m.cells[id].done
    && e.nr == m.cells[id].entry.nr && e.url == m.cells[id].entry.url && !IsDel(e) && Writable(e)
  }

  /** The url object that is found for its url. */
  predicate IsNewest(m: Memory, i: nat) { i < |m.objs| && i == Find(m.objs, m.objs[i].url) }

  ghost predicate Can(m: Memory, op: Op) {
    match op
    case Meet(u) => Find(m.objs, u) < 0 && Plain(u)
    case Fetch(i) => IsNewest(m, i) && m.lastnr < 0xffff_ffff
    case Verify(i) => IsNewest(m, i) && m.lastnr < 0xffff_ffff
    case SetAside(i) => i < |m.objs|
    case Adopt(id) => id in m.lru && Sits(m, id)
    case Arrive(id, e, _) => Updates(m, id, e)
    case Finish(id, e) => Updates(m, id, e)
    case Drop(id) => id in m.lru && Sits(m, id)
    case Touch(id) => id in m.lru
  }

  function Made(m: Memory, i: nat): Memory
    requires i < |m.objs| && m.lastnr < 0xffff_ffff
  {
    Memory(m.objs, m.cells + [CacheObject(i, NewEntry(m.lastnr + 1, m.objs[i].url), false, false)],
           m.lru + [|m.cells|], m.lastnr + 1)
  }

  function Pointed(m: Memory, i: nat, c: Option<nat>): Memory
    requires i < |m.objs|
  {
    m.(objs := m.objs[i := m.objs[i].(cache := c)])
  }

  function Updated(m: Memory, id: nat, e: Entry, opens: bool, done: bool): Memory
    requires id < |m.cells|
  {
    m.(cells := m.cells[id := m.cells[id].(entry := e, named := m.cells[id].named || opens, done := done)])
  }

  ghost function Do(m: Memory, op: Op): Memory
    requires Can(m, op)
  {
    match op
    case Meet(u) => m.(objs := m.objs + [UrlObject(u, None)])
    case Fetch(i) => Pointed(Made(m, i), i, Some(|m.cells|))
    case Verify(i) => Made(m, i)
    case SetAside(i) => Pointed(m, i, None)
    case Adopt(id) => Pointed(m, m.cells[id].owner, Some(id))
    case Arrive(id, e, opens) => Updated(m, id, e, opens, false)
    case Finish(id, e) => Updated(m, id, e, true, true)
    case Drop(id) => Dispose(m, id)
    case Touch(id) => m.(lru := Without(m.lru, id) + [id])
  }

  /** The journal's record that an entry is gone. */
  function DelOf(e: Entry): Entry { e.(kind := COTYPE_DEL, movedto := []) }

  /** What is appended to the journal. */
  function Record(m: Memory, op: Op): seq<Entry> {
    match op
    case Finish(_, e) => [e]
    case Drop(id) => if id < |m.cells| && m.cells[id].named then [DelOf(m.cells[id].entry)] else []
    case _ => []
  }

  // ------------------------------------------------------------------------
  // Every operation keeps the memory in order

  /** Cache objects have numbers of their own, none above the last one used. */
  ghost predicate Numbered(m: Memory)
    requires Valid(m)
  {
    DistinctNumbers(m) && forall id <- m.lru :: m.cells[id].entry.nr <= m.lastnr
  }

  /** What there is can be written; what is done has a file. */
  ghost predicate Sane(m: Memory) {
    && m.lastnr < 0x1_0000_0000 && (forall o <- m.objs :: Plain(o.url))
    && forall c <- m.cells :: Writable(c.entry) && (c.done ==> c.named)
  }

  ghost predicate Sound(m: Memory) { Valid(m) && Numbered(m) && Sane(m) }

  lemma MadeSound(m: Memory, i: nat)
    requires Sound(m) && i < |m.objs| && m.lastnr < 0xffff_ffff
    ensures Sound(Made(m, i)) && |m.cells| !in m.lru
  {
    assert forall id <- m.lru :: Sits(m, id);
    DistinctAppend(m.lru, |m.cells|);
    var w := Made(m, i);
    assert m.objs[i] in m.objs;
    forall id <- w.lru
      ensures Sits(w, id) && (id != |m.cells| ==> id in m.lru)
    {
    }
  }

  lemma PointedSound(m: Memory, i: nat, c: Option<nat>)
    requires Sound(m) && i < |m.objs| && (c.Some? ==> Owns(m, i, c.value))
    ensures Sound(Pointed(m, i, c))
  {
    var w := Pointed(m, i, c);
    forall id <- w.lru
      ensures Sits(w, id)
    {
      assert Sits(m, id);
    }
    forall o <- w.objs
      ensures Plain(o.url)
    {
      if o == m.objs[i].(cache := c) {
        assert m.objs[i] in m.objs;
      }
    }
  }

  lemma UpdatedSound(m: Memory, id: nat, e: Entry, opens: bool, done: bool)
    requires Sound(m) && Updates(m, id, e) && (done ==> opens)
    ensures Sound(Updated(m, id, e, opens, done))
  {
    var w := Updated(m, id, e, opens, done);
    assert Sits(m, id);
    forall x <- w.lru
      ensures Sits(w, x) && w.cells[x].entry.nr == m.cells[x].entry.nr && w.cells[x].owner == m.cells[x].owner
    {
      assert Sits(m, x);
    }
  }

  lemma DropSound(m: Memory, id: nat)
    requires Sound(m) && id in m.lru && Sits(m, id)
    ensures Sound(Dispose(m, id))
  {
    DisposeValid(m, id);
    var w := Dispose(m, id);
    forall o <- w.objs
      ensures Plain(o.url)
    {
      var i := m.cells[id].owner;
      assert o in m.objs || o == m.objs[i].(cache := None);
      assert m.objs[i] in m.objs;
    }
  }

  lemma TouchSound(m: Memory, id: nat)
    requires Sound(m) && id in m.lru
    ensures Sound(m.(lru := Without(m.lru, id) + [id]))
    ensures forall x :: x in Without(m.lru, id) + [id] <==> x in m.lru
  {
    WithoutDistinct(m.lru, id);
    DistinctAppend(Without(m.lru, id), id);
    var w := m.(lru := Without(m.lru, id) + [id]);
    assert forall x <- w.lru :: x in m.lru && (Sits(m, x) ==> Sits(w, x));
    assert forall i :: 0 <= i < |m.objs| && m.objs[i].cache.Some? ==> Owns(m, i, m.objs[i].cache.value);
  }

  lemma MeetSound(m: Memory, u: Url)
    requires Sound(m) && Plain(u)
    ensures Sound(m.(objs := m.objs + [UrlObject(u, None)]))
  {
    MetValid(m, u);
  }

  lemma OpSound(m: Memory, op: Op)
    requires Sound(m) && Can(m, op)
    ensures Sound(Do(m, op))
  {
    match op
    case Meet(u) => MeetSound(m, u);
    case Fetch(i) =>
      MadeSound(m, i);
      PointedSound(Made(m, i), i, Some(|m.cells|));
    case Verify(i) => MadeSound(m, i);
    case SetAside(i) => PointedSound(m, i, None);
    case Adopt(id) => PointedSound(m, m.cells[id].owner, Some(id));
    case Arrive(id, e, opens) => UpdatedSound(m, id, e, opens, false);
    case Finish(id, e) => UpdatedSound(m, id, e, true, true);
    case Drop(id) => DropSound(m, id);
    case Touch(id) => TouchSound(m, id);
  }

  // ------------------------------------------------------------------------
  // The journal keeps up with the memory

  ghost predicate Finished(m: Memory, id: nat) { id in m.lru && id < |m.cells| && m.cells[id].done }

  ghost predicate HasHolder(m: Memory, e: Entry) { exists id: nat :: Finished(m, id) && m.cells[id].entry == e }

  /** The map has the finished pages of the list, and for each url the one finished last. */
  ghost predicate InStep(m: Memory, want: map<Url, Entry>) {
    && (forall u <- want :: want[u].url == u && HasHolder(m, want[u]))
    && (forall id: nat :: Finished(m, id) ==> m.cells[id].entry.url in want)
  }

  /** The page finished last is not disposed of while an older one of the same url is there. */
  ghost predicate Orderly(m: Memory, want: map<Url, Entry>, op: Op) {
    op.Drop? && op.id < |m.cells| && m.cells[op.id].entry in want.Values ==>
      forall x: nat :: Finished(m, x) && x != op.id ==> m.cells[x].entry.url != m.cells[op.id].entry.url
  }

  lemma SameFinished(m: Memory, w: Memory, want: map<Url, Entry>)
    requires InStep(m, want)
    requires forall id: nat :: Finished(w, id) <==> Finished(m, id)
    requires forall id: nat :: Finished(m, id) ==> id < |w.cells| && w.cells[id].entry == m.cells[id].entry
    ensures InStep(w, want)
  {
    forall u <- want
      ensures HasHolder(w, want[u])
    {
      var id: nat :| Finished(m, id) && m.cells[id].entry == want[u];
      assert Finished(w, id);
    }
  }

  lemma FinishInStep(m: Memory, want: map<Url, Entry>, id: nat, e: Entry)
    requires Sound(m) && InStep(m, want) && Updates(m, id, e)
    ensures InStep(Updated(m, id, e, true, true), want[e.url := e])
  {
    var w, d := Updated(m, id, e, true, true), want[e.url := e];
    assert Finished(w, id);
    forall u <- d
      ensures d[u].url == u && HasHolder(w, d[u])
    {
      if u != e.url {
        var x: nat :| Finished(m, x) && m.cells[x].entry == want[u];
        assert Finished(w, x) && w.cells[x].entry == want[u];
      }
    }
    forall x: nat | Finished(w, x)
      ensures w.cells[x].entry.url in d
    {
      assert x != id ==> Finished(m, x);
    }
  }

  /** Which cache object has the entry of a url, by its number. */
  lemma HolderOf(m: Memory, want: map<Url, Entry>, id: nat)
    requires Sound(m) && InStep(m, want) && id in m.lru && Sits(m, id)
    ensures var e := m.cells[id].entry;
            (e.url in want && want[e.url].nr == e.nr) <==> e in want.Values
    ensures m.cells[id].entry in want.Values ==> Finished(m, id) && want[m.cells[id].entry.url] == m.cells[id].entry
  {
    var e := m.cells[id].entry;
    if e.url in want && want[e.url].nr == e.nr {
      var x: nat :| Finished(m, x) && m.cells[x].entry == want[e.url];
      assert x == id;
      assert e == want[e.url] && e in want.Values;
    }
    if e in want.Values {
      var u :| u in want && want[u] == e;
      var x: nat :| Finished(m, x) && m.cells[x].entry == want[u];
      assert x == id;
    }
  }

  lemma DropInStep(m: Memory, want: map<Url, Entry>, id: nat)
    requires Sound(m) && InStep(m, want) && id in m.lru && Sits(m, id)
    ensures InStep(Dispose(m, id), Denotes(want, Record(m, Drop(id)))) <==> Orderly(m, want, Drop(id))
  {
    DropDenotes(m, want, id);
    if m.cells[id].entry in want.Values {
      HolderOf(m, want, id);
      LatestDropped(m, want, id);
    } else {
      assert forall x: nat :: Finished(Dispose(m, id), x) <==> Finished(m, x) && x != id;
      HoldersStay(m, want, id);
    }
  }

  lemma HoldersStay(m: Memory, want: map<Url, Entry>, id: nat)
    requires Sits(m, id) && InStep(m, want)
    ensures forall u <- want :: want[u] != m.cells[id].entry ==> HasHolder(Dispose(m, id), want[u])
  {
    forall u | u in want && want[u] != m.cells[id].entry
      ensures HasHolder(Dispose(m, id), want[u])
    {
      var x: nat :| Finished(m, x) && m.cells[x].entry == want[u];
      assert Finished(Dispose(m, id), x);
    }
  }

  lemma LatestDropped(m: Memory, want: map<Url, Entry>, id: nat)
    requires Sits(m, id) && id in m.lru && InStep(m, want)
    requires m.cells[id].entry.url in want && want[m.cells[id].entry.url] == m.cells[id].entry
    ensures InStep(Dispose(m, id), want - {m.cells[id].entry.url}) <==> Orderly(m, want, Drop(id))
  {
    var u, w := m.cells[id].entry.url, Dispose(m, id);
    assert m.cells[id].entry in want.Values;
    assert forall x: nat :: Finished(w, x) <==> Finished(m, x) && x != id;
    HoldersStay(m, want, id);
    if !Orderly(m, want, Drop(id)) {
      var x: nat :| Finished(m, x) && x != id && m.cells[x].entry.url == u;
      assert Finished(w, x) && u !in want - {u};
    }
  }

  lemma DropDenotes(m: Memory, want: map<Url, Entry>, id: nat)
    requires Sound(m) && InStep(m, want) && id in m.lru && Sits(m, id)
    ensures Denotes(want, Record(m, Drop(id))) == if m.cells[id].entry in want.Values then want - {m.cells[id].entry.url} else want
  {
    var e := m.cells[id].entry;
    HolderOf(m, want, id);
    if m.cells[id].named {
      DenotesOne(want, DelOf(e));
    } else {
      assert m.cells[id] in m.cells;
    }
  }

  /** Whatever the program does, the journal means the finished pages that there are, and for each
      url the one finished last; unless it disposes of that one while an older one is there. */
  lemma OpInStep(m: Memory, want: map<Url, Entry>, op: Op)
    requires Sound(m) && Can(m, op) && InStep(m, want)
    ensures InStep(Do(m, op), Denotes(want, Record(m, op))) <==> Orderly(m, want, op)
  {
    match op
    case Finish(id, e) =>
      DenotesOne(want, e);
      FinishInStep(m, want, id, e);
    case Drop(id) => DropInStep(m, want, id);
    case _ => OtherInStep(m, want, op);
  }

  lemma DenotesOne(d: map<Url, Entry>, e: Entry)
    ensures Denotes(d, [e]) == Effect(d, e)
  {
    assert [e][1..] == [];
    assert Denotes(d, [e]) == Denotes(Effect(d, e), []);
  }

  lemma OtherInStep(m: Memory, want: map<Url, Entry>, op: Op)
    requires Sound(m) && Can(m, op) && InStep(m, want) && !op.Finish? && !op.Drop?
    ensures InStep(Do(m, op), want)
  {
    if op.Touch? {
      TouchSound(m, op.id);
    }
    SameFinished(m, Do(m, op), want);
  }

  // ------------------------------------------------------------------------
  // Only the newest url object of a url has cache objects

  lemma SameOwners(m: Memory, w: Memory)
    requires Valid(m) && Valid(w) && Shadowless(m)
    requires |w.objs| == |m.objs| && forall i :: 0 <= i < |m.objs| ==> w.objs[i].url == m.objs[i].url
    requires forall id <- w.lru :: id in m.lru && w.cells[id].owner == m.cells[id].owner
    ensures Shadowless(w)
  {
    forall id <- w.lru
      ensures w.cells[id].owner == Find(w.objs, w.cells[id].entry.url)
    {
      assert Sits(m, id) && Sits(w, id);
      SameUrls(m.objs, w.objs, w.cells[id].entry.url);
    }
  }

  lemma MadeShadowless(m: Memory, i: nat, c: Option<nat>)
    requires Sound(m) && Shadowless(m) && IsNewest(m, i) && m.lastnr < 0xffff_ffff
    ensures Shadowless(Pointed(Made(m, i), i, c)) && Shadowless(Made(m, i))
  {
    var w, v := Pointed(Made(m, i), i, c), Made(m, i);
    forall id <- w.lru
      ensures Sits(v, id) ==> v.cells[id].owner == Find(v.objs, v.cells[id].entry.url) == Find(w.objs, w.cells[id].entry.url)
    {
      SameUrls(m.objs, w.objs, w.cells[id].entry.url);
      if id in m.lru {
        assert Sits(m, id);
      }
    }
  }

  lemma MeetShadowless(m: Memory, u: Url)
    requires Sound(m) && Shadowless(m) && Find(m.objs, u) < 0
    ensures Shadowless(m.(objs := m.objs + [UrlObject(u, None)]))
  {
    var w := m.(objs := m.objs + [UrlObject(u, None)]);
    forall id <- m.lru
      ensures w.cells[id].owner == Find(w.objs, w.cells[id].entry.url)
    {
      assert Sits(m, id);
      FindAppended(m.objs, UrlObject(u, None), m.cells[id].entry.url);
    }
  }

  /** No operation makes a shadow. */
  lemma OpShadowless(m: Memory, op: Op)
    requires Sound(m) && Can(m, op) && Shadowless(m)
    ensures Shadowless(Do(m, op))
  {
    OpSound(m, op);
    match op
    case Meet(u) => MeetShadowless(m, u);
    case Fetch(i) => MadeShadowless(m, i, Some(|m.cells|));
    case Verify(i) => MadeShadowless(m, i, None);
    case Touch(id) =>
      TouchSound(m, id);
      SameOwners(m, Do(m, op));
    case _ => SameOwners(m, Do(m, op));
  }

  // ------------------------------------------------------------------------
  // What compaction keeps while pages arrive

  /** Exactly the recorded pages are attached. */
  ghost predicate Settled(m: Memory, want: map<Url, Entry>)
    requires Valid(m)
  {
    forall id <- m.lru :: IsCurrent(m, id) <==> m.cells[id].entry in want.Values
  }

  lemma SettledAgrees(m: Memory, want: map<Url, Entry>)
    requires Sound(m) && Shadowless(m) && InStep(m, want) && Settled(m, want)
    ensures Agrees(m, want)
  {
    forall u
      ensures Lookup(m, u) == if u in want then Some(want[u]) else None
    {
      var i := Find(m.objs, u);
      if i >= 0 && m.objs[i].cache.Some? {
        var id := m.objs[i].cache.value;
        assert Owns(m, i, id) && Sits(m, id) && IsCurrent(m, id);
        HolderOf(m, want, id);
      }
      if u in want {
        var x: nat :| Finished(m, x) && m.cells[x].entry == want[u];
        assert want[u] in want.Values && Sits(m, x);
      }
    }
  }

  lemma AgreesSettled(m: Memory, want: map<Url, Entry>)
    requires Sound(m) && Shadowless(m) && InStep(m, want) && Agrees(m, want)
    ensures Settled(m, want)
  {
    forall id <- m.lru
      ensures IsCurrent(m, id) <==> m.cells[id].entry in want.Values
    {
      assert Sits(m, id);
      var u := m.cells[id].entry.url;
      assert Lookup(m, u) == if u in want then Some(want[u]) else None;
      HolderOf(m, want, id);
      if m.cells[id].entry in want.Values {
        var i := Find(m.objs, u);
        assert Owns(m, i, m.objs[i].cache.value);
      }
    }
  }

  lemma AgreesSame(m: Memory, a: map<Url, Entry>, b: map<Url, Entry>)
    requires Agrees(m, a) && Agrees(m, b)
    ensures a == b
  {
    forall u
      ensures (u in a <==> u in b) && (u in a ==> a[u] == b[u])
    {
      assert Lookup(m, u) == (if u in a then Some(a[u]) else None);
      assert Lookup(m, u) == (if u in b then Some(b[u]) else None);
    }
  }

  /** A compacted journal means what was recorded exactly if what was recorded is what is attached:
      no page is arriving in the place of its url's entry, and none is set aside. */
  lemma CompactionExact(m: Memory, want: map<Url, Entry>)
    requires Sound(m) && Shadowless(m) && InStep(m, want)
    ensures Denotes(map[], Saved(m)) == want <==> Settled(m, want)
  {
    ShadowlessNoOrphans(m);
    NoOrphansKeepMap(m);
    if Settled(m, want) {
      SettledAgrees(m, want);
      AgreesSame(m, want, Denotes(map[], Saved(m)));
    } else if Agrees(m, want) {
      AgreesSettled(m, want);
    }
  }

  /** No recorded page is set aside. */
  ghost predicate NoneAside(m: Memory, want: map<Url, Entry>)
    requires Valid(m)
  {
    forall id <- m.lru :: m.cells[id].entry in want.Values ==> IsCurrent(m, id)
  }

  ghost predicate Includes(d: map<Url, Entry>, want: map<Url, Entry>) { forall u <- want :: u in d && d[u] == want[u] }

  /** Every recorded page is still found after a compaction if and only if none of them is set
      aside; pages that are arriving for other urls do no harm to that. */
  lemma CompactionFinds(m: Memory, want: map<Url, Entry>)
    requires Sound(m) && Shadowless(m) && InStep(m, want)
    ensures Includes(Denotes(map[], Saved(m)), want) <==> NoneAside(m, want)
  {
    ShadowlessNoOrphans(m);
    NoOrphansKeepMap(m);
    AgreesIncludes(m, Denotes(map[], Saved(m)), want);
  }

  lemma AgreesIncludes(m: Memory, d: map<Url, Entry>, want: map<Url, Entry>)
    requires Sound(m) && Shadowless(m) && InStep(m, want) && Agrees(m, d)
    ensures Includes(d, want) <==> NoneAside(m, want)
  {
    if NoneAside(m, want) {
      forall u <- want
        ensures u in d && d[u] == want[u]
      {
        HolderFound(m, want, u);
        assert Lookup(m, u) == if u in d then Some(d[u]) else None;
      }
    }
    if Includes(d, want) {
      forall id <- m.lru | m.cells[id].entry in want.Values
        ensures IsCurrent(m, id)
      {
        assert Sits(m, id);
        HolderOf(m, want, id);
        FoundIsCurrent(m, d, id);
      }
    }
  }

  lemma HolderFound(m: Memory, want: map<Url, Entry>, u: Url)
    requires Valid(m) && Shadowless(m) && InStep(m, want) && u in want && NoneAside(m, want)
    ensures Lookup(m, u) == Some(want[u])
  {
    var x: nat :| Finished(m, x) && m.cells[x].entry == want[u];
    assert want[u] in want.Values && Sits(m, x) && IsCurrent(m, x);
  }

  lemma FoundIsCurrent(m: Memory, d: map<Url, Entry>, id: nat)
    requires Sound(m) && Agrees(m, d) && id in m.lru && Sits(m, id)
    requires var e := m.cells[id].entry; e.url in d && d[e.url] == e
    ensures IsCurrent(m, id)
  {
    var u := m.cells[id].entry.url;
    assert Lookup(m, u) == Some(d[u]);
    var i := Find(m.objs, u);
    assert Owns(m, i, m.objs[i].cache.value);
  }

  // ------------------------------------------------------------------------
  // Runs

  /** The operations can be done one after the other, and none breaks the order. */
  ghost predicate CanAll(m: Memory, want: map<Url, Entry>, ops: seq<Op>)
    decreases |ops|
  {
    ops == [] ||
    (Can(m, ops[0]) && Orderly(m, want, ops[0]) && CanAll(Do(m, ops[0]), Denotes(want, Record(m, ops[0])), ops[1..]))
  }

  /** The memory after all operations, and what they append to the journal. */
  ghost function DoAll(m: Memory, want: map<Url, Entry>, ops: seq<Op>): (Memory, seq<Entry>)
    requires CanAll(m, want, ops)
    decreases |ops|
  {
    if ops == [] then (m, [])
    else
      var (w, log) := DoAll(Do(m, ops[0]), Denotes(want, Record(m, ops[0])), ops[1..]);
      (w, Record(m, ops[0]) + log)
  }

  lemma {:induction false} DenotesOn(d: map<Url, Entry>, es: seq<Entry>, fs: seq<Entry>)
    ensures Denotes(d, es + fs) == Denotes(Denotes(d, es), fs)
    decreases |es|
  {
    if es == [] {
      assert es + fs == fs;
    } else {
      assert (es + fs)[1..] == es[1..] + fs;
      DenotesOn(Effect(d, es[0]), es[1..], fs);
    }
  }

  /** The journal of any run of the program means what its memory has. */
  lemma {:induction false} RunInStep(m: Memory, want: map<Url, Entry>, ops: seq<Op>)
    requires Sound(m) && Shadowless(m) && InStep(m, want) && CanAll(m, want, ops)
    ensures var (w, log) := DoAll(m, want, ops); Sound(w) && Shadowless(w) && InStep(w, Denotes(want, log))
    decreases |ops|
  {
    if ops != [] {
      OpSound(m, ops[0]);
      OpShadowless(m, ops[0]);
      OpInStep(m, want, ops[0]);
      var w, d := Do(m, ops[0]), Denotes(want, Record(m, ops[0]));
      RunInStep(w, d, ops[1..]);
      DenotesOn(want, Record(m, ops[0]), DoAll(w, d, ops[1..]).1);
    }
  }

  /** Replaying the journal of a run that began with nothing finds, for every url, the page that
      finished last and is still there, if it has not expired. */
  lemma ReplayFindsFinished(ops: seq<Op>, today: nat, u: Url)
    requires CanAll(EMPTY, map[], ops)
    ensures var (w, log) := DoAll(EMPTY, map[], ops);
            && InStep(w, Denotes(map[], log))
            && Lookup(Replay(EMPTY, log, today), u) == Current(Denotes(map[], log), u, today)
            && (u in Denotes(map[], log) <==> exists id: nat :: Finished(w, id) && w.cells[id].entry.url == u)
  {
    RunInStep(EMPTY, map[], ops);
    var (w, log) := DoAll(EMPTY, map[], ops);
    ReplayDenotes(EMPTY, map[], log, today);
    var d := Denotes(map[], log);
    if u in d {
      assert HasHolder(w, d[u]);
    }
  }
}
