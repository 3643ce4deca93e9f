/** The numbers of the cache entries: which journals give each entry a number of its own
    (aweb/cache.c).  The number names the file that the page is in. */
module CacheNumbers {
  import opened Basics
  import opened Packets
  import opened RegistryCodec
  import opened CacheMemory
  import opened Journal
  import opened CacheRun

  /** The entry gets into the cache if it is read on that day. */
  predicate Counts(e: Entry, day: nat) { !IsDel(e) && !Expired(e, day) }

  /** No number is given to two entries. */
  ghost predicate OwnNumbers(es: seq<Entry>, day: nat) {
    forall i, j :: 0 <= i < j < |es| && Counts(es[i], day) && Counts(es[j], day) ==> es[i].nr != es[j].nr
  }

  ghost predicate HasNumber(es: seq<Entry>, day: nat, nr: nat) { exists e <- es :: Counts(e, day) && e.nr == nr }

  lemma OwnNumbersLater(es: seq<Entry>, day: nat, today: nat)
    requires OwnNumbers(es, day) && day <= today
    ensures OwnNumbers(es, today)
  {
  }

  lemma OwnNumbersAppend(es: seq<Entry>, e: Entry, day: nat)
    requires OwnNumbers(es, day) && (Counts(e, day) ==> !HasNumber(es, day, e.nr))
    ensures OwnNumbers(es + [e], day)
  {
  }

  // ------------------------------------------------------------------------
  // What is read from a journal

  /** What is listed came from the journal. */
  ghost predicate FromJournal(m: Memory, pre: seq<Entry>, day: nat)
    requires Valid(m)
  {
    forall id <- m.lru :: m.cells[id].entry in pre && Counts(m.cells[id].entry, day)
  }

  lemma AddedNumbered(m: Memory, pre: seq<Entry>, e: Entry, day: nat)
    requires Valid(m) && Numbered(m) && FromJournal(m, pre, day) && Counts(e, day) && OwnNumbers(pre + [e], day)
    ensures Valid(Added(m, e)) && Numbered(Added(m, e)) && FromJournal(Added(m, e), pre + [e], day)
  {
    AddedValid(m, e);
    var w := Added(m, e);
    forall id <- m.lru
      ensures w.cells[id].entry == m.cells[id].entry && m.cells[id].entry.nr != e.nr
    {
      assert Sits(m, id);
      var k :| 0 <= k < |pre| && pre[k] == m.cells[id].entry;
      assert (pre + [e])[k] == pre[k] && (pre + [e])[|pre|] == e;
    }
  }

  lemma ApplyNumbered(m: Memory, pre: seq<Entry>, e: Entry, day: nat)
    requires Valid(m) && Numbered(m) && FromJournal(m, pre, day) && OwnNumbers(pre + [e], day)
    ensures Valid(Apply(m, e, day)) && Numbered(Apply(m, e, day)) && FromJournal(Apply(m, e, day), pre + [e], day)
  {
    ApplyValid(m, e, day);
    if Counts(e, day) {
      AddedNumbered(m, pre, e, day);
    } else {
      assert forall id <- Apply(m, e, day).lru :: id in m.lru;
    }
  }

  /** A journal that gives every entry a number of its own is replayed to a memory in which the
      listed entries have distinct numbers, none above the last one used. */
  lemma {:induction false} ReplayNumbered(m: Memory, pre: seq<Entry>, es: seq<Entry>, day: nat)
    requires Valid(m) && Numbered(m) && FromJournal(m, pre, day) && OwnNumbers(pre + es, day)
    ensures Valid(Replay(m, es, day)) && Numbered(Replay(m, es, day))
    decreases |es|
  {
    if es != [] {
      assert pre + es == pre + [es[0]] + es[1..];
      assert OwnNumbers(pre + [es[0]], day) by {
        assert pre + [es[0]] == (pre + es)[..|pre| + 1];
      }
      ApplyNumbered(m, pre, es[0], day);
      ReplayNumbered(Apply(m, es[0], day), pre + [es[0]], es[1..], day);
    }
  }

  // ------------------------------------------------------------------------
  // What the program appends

  /** The journal's numbers are its own, and known to the program; and no page that is still
      arriving has one of them. */
  ghost predicate NumbersFit(m: Memory, es: seq<Entry>, day: nat)
    requires Valid(m)
  {
    && OwnNumbers(es, day)
    && (forall e <- es :: Counts(e, day) ==> e.nr <= m.lastnr)
    && forall id <- m.lru :: !m.cells[id].done ==> !HasNumber(es, day, m.cells[id].entry.nr)
  }

  lemma MadeFits(m: Memory, es: seq<Entry>, day: nat, i: nat, c: Option<nat>)
    requires Sound(m) && NumbersFit(m, es, day) && i < |m.objs| && m.lastnr < 0xffff_ffff
    requires Valid(Pointed(Made(m, i), i, c))
    ensures NumbersFit(Pointed(Made(m, i), i, c), es, day)
  {
    var w := Pointed(Made(m, i), i, c);
    forall id <- w.lru | !w.cells[id].done
      ensures !HasNumber(es, day, w.cells[id].entry.nr)
    {
      if id in m.lru {
        assert Sits(m, id);
      }
    }
  }

  lemma FinishFits(m: Memory, es: seq<Entry>, day: nat, id: nat, e: Entry)
    requires Sound(m) && NumbersFit(m, es, day) && Updates(m, id, e)
    requires Valid(Updated(m, id, e, true, true))
    ensures NumbersFit(Updated(m, id, e, true, true), es + [e], day)
  {
    var w := Updated(m, id, e, true, true);
    OwnNumbersAppend(es, e, day);
    forall x <- w.lru | !w.cells[x].done
      ensures !HasNumber(es + [e], day, w.cells[x].entry.nr)
    {
      assert Sits(m, x) && x != id;
    }
  }

  lemma DelFits(m: Memory, es: seq<Entry>, day: nat, del: Entry)
    requires Valid(m) && NumbersFit(m, es, day) && IsDel(del)
    ensures NumbersFit(m, es + [del], day)
  {
    OwnNumbersAppend(es, del, day);
    forall nr: nat | HasNumber(es + [del], day, nr)
      ensures HasNumber(es, day, nr)
    {
      var e :| e in es + [del] && Counts(e, day) && e.nr == nr;
      assert e in es;
    }
  }

  /** Fewer pages or the same in another order. */
  lemma FewerFit(m: Memory, w: Memory, es: seq<Entry>, day: nat)
    requires Valid(m) && Valid(w) && NumbersFit(m, es, day) && w.lastnr == m.lastnr
    requires forall id <- w.lru :: id in m.lru && w.cells[id].done == m.cells[id].done && w.cells[id].entry.nr == m.cells[id].entry.nr
    ensures NumbersFit(w, es, day)
  {
  }

  /** Whatever the program does, the numbers in its journal stay distinct. */
  lemma OpFits(m: Memory, op: Op, es: seq<Entry>, day: nat)
    requires Sound(m) && Can(m, op) && NumbersFit(m, es, day)
    ensures Valid(Do(m, op)) && NumbersFit(Do(m, op), es + Record(m, op), day)
  {
    OpSound(m, op);
    assert es + [] == es;
    match op
    case Fetch(i) => MadeFits(m, es, day, i, Some(|m.cells|));
    case Verify(i) => MadeFits(m, es, day, i, m.objs[i].cache);
      assert Pointed(Made(m, i), i, m.objs[i].cache) == Made(m, i);
    case Finish(id, e) => FinishFits(m, es, day, id, e);
    case Drop(id) =>
      FewerFit(m, Dispose(m, id), es, day);
      if m.cells[id].named {
        DelFits(Dispose(m, id), es, day, DelOf(m.cells[id].entry));
      }
    case Touch(id) =>
      TouchSound(m, id);
      FewerFit(m, Do(m, op), es, day);
    case _ => FewerFit(m, Do(m, op), es, day);
  }

  // ------------------------------------------------------------------------
  // Compaction

  /** No page that is still arriving would be written. */
  ghost predicate NoneArriving(m: Memory, day: nat)
    requires Valid(m)
  {
    forall id <- m.lru :: IsCurrent(m, id) && !Expired(m.cells[id].entry, day) ==> m.cells[id].done
  }

  lemma SavedOwnNumbers(m: Memory, day: nat)
    requires Valid(m) && Numbered(m)
    ensures OwnNumbers(Saved(m), day) && forall e <- Saved(m) :: e.nr <= m.lastnr
  {
    var ids := Attached(m, m.lru);
    AttachedDistinct(m, m.lru);
    forall p, q | 0 <= p < q < |ids|
      ensures Saved(m)[p].nr != Saved(m)[q].nr
    {
      SavedIs(m, p);
      SavedIs(m, q);
    }
    forall p: nat | p < |ids|
      ensures Saved(m)[p].nr <= m.lastnr
    {
      SavedIs(m, p);
    }
  }

  /** A compacted journal can be appended to with distinct numbers exactly if it was written while
      no page was arriving in the place of its url's entry. */
  lemma CompactionFits(m: Memory, day: nat)
    requires Valid(m) && Numbered(m)
    ensures NumbersFit(m, Saved(m), day) <==> NoneArriving(m, day)
  {
    SavedOwnNumbers(m, day);
    forall id <- m.lru
      ensures Sits(m, id) && (HasNumber(Saved(m), day, m.cells[id].entry.nr) <==>
                              IsCurrent(m, id) && !Expired(m.cells[id].entry, day))
    {
      SavedNumber(m, day, id);
    }
  }

  lemma SavedNumber(m: Memory, day: nat, id: nat)
    requires Valid(m) && Numbered(m) && id in m.lru && Sits(m, id)
    ensures HasNumber(Saved(m), day, m.cells[id].entry.nr) <==> IsCurrent(m, id) && !Expired(m.cells[id].entry, day)
  {
    var nr := m.cells[id].entry.nr;
    if HasNumber(Saved(m), day, nr) {
      var e :| e in Saved(m) && Counts(e, day) && e.nr == nr;
      var p :| 0 <= p < |Saved(m)| && Saved(m)[p] == e;
      SavedIs(m, p);
    }
    if IsCurrent(m, id) {
      var q := PlaceIn(Attached(m, m.lru), id);
      assert Saved(m)[q] == m.cells[id].entry && Saved(m)[q] in Saved(m);
    }
  }

  lemma UnexpiredIs(es: seq<Entry>, day: nat)
    ensures forall e :: e in Unexpired(es, day) <==> e in es && !Expired(e, day)
  {
  }

  lemma {:induction false} UnexpiredBoth(es: seq<Entry>, fs: seq<Entry>, day: nat)
    ensures Unexpired(es + fs, day) == Unexpired(es, day) + Unexpired(fs, day)
  {
    if es == [] {
      assert es + fs == fs;
    } else {
      assert (es + fs)[1..] == es[1..] + fs;
      UnexpiredBoth(es[1..], fs, day);
    }
  }

  /** If a page is arriving while the journal is compacted, then when it has arrived its number is
      there twice, and after the next start-up two pages have the same file. */
  lemma ArrivalThroughCompaction(m: Memory, id: nat, e: Entry, today: nat)
    requires Sound(m) && Updates(m, id, e) && Sits(m, id) && IsCurrent(m, id)
    requires !Expired(m.cells[id].entry, today) && !Expired(e, today)
    ensures var log := Saved(m) + Record(m, Finish(id, e));
            && !OwnNumbers(log, today)
            && Valid(Replay(EMPTY, log, today)) && !DistinctNumbers(Replay(EMPTY, log, today))
  {
    var q := PlaceIn(Attached(m, m.lru), id);
    SavedIs(m, q);
    SavedAdds(m);
    assert (Saved(m) + [e])[q] == Saved(m)[q] && (Saved(m) + [e])[|Saved(m)|] == e;
    ReplayedTwice(Saved(m), q, e, today);
  }

  lemma ReplayedTwice(s: seq<Entry>, q: nat, e: Entry, today: nat)
    requires Adds(s) && !IsDel(e) && q < |s| && s[q].nr == e.nr && !Expired(s[q], today) && !Expired(e, today)
    ensures var w := Replay(EMPTY, s + [e], today); Valid(w) && !DistinctNumbers(w)
  {
    var w, t := Replay(EMPTY, s + [e], today), Unexpired(s, today);
    CompactionKeepsOrder(EMPTY, s + [e], today);
    UnexpiredBoth(s, [e], today);
    UnexpiredIs(s, today);
    assert [e][1..] == [] && Unexpired([e], today) == [e] && Saved(EMPTY) == [];
    assert Saved(w) == t + [e];
    assert s[q] in t;
    var p :| 0 <= p < |t| && t[p] == s[q];
    TwiceSaved(w, p, |t|);
  }

  lemma TwiceSaved(w: Memory, p: nat, q: nat)
    requires Valid(w) && p < q < |Saved(w)| && Saved(w)[p].nr == Saved(w)[q].nr
    ensures !DistinctNumbers(w)
  {
    AttachedDistinct(w, w.lru);
    SavedIs(w, p);
    SavedIs(w, q);
  }
}
