/** What becomes of floats that were placed above the line a restart goes back to. */
module LayoutRestartFloats {
  import opened Basics
  import opened Margins
  import opened Layout
  import opened LayoutRun
  import opened LayoutRestart

  // ------------------------------------------------------------------------
  // Where a run puts floats

  lemma FinishKeeps(C: seq<Child>, p: Page, s: State, r: Room, k: Cursor, i: nat)
    requires s.child <= k.ch <= |C| == |k.slots| && (k.ch == |C| ==> k.result.Fits?) && (k.result.Floating? ==> C[k.ch].Box?)
    requires i < |C| && C[i].Box? && k.slots[i].Aligned? && (k.result.Floating? ==> i != k.ch)
    ensures |Finish(C, p, s, r, k).slots| == |C| && Finish(C, p, s, r, k).slots[i] == k.slots[i]
  {
  }

  lemma PassKeeps(C: seq<Child>, p: Page, s: State, i: nat)
    requires WellFormed(C, s) && s.child < |C| && i < |C| && C[i].Box? && s.slots[i].Aligned?
    ensures |Pass(C, p, s).slots| == |C| && Pass(C, p, s).slots[i] == s.slots[i]
  {
    LineScanOk(C, p, s);
    LineScanKeeps(C, p, s);
    FinishKeeps(C, p, s, RoomFor(C, p, s), LineScan(C, p, s), i);
  }

  /** A float that was placed stays there. */
  lemma {:induction false} RunKeeps(C: seq<Child>, p: Page, s: State, i: nat)
    requires Ready(C, s) && i < |C| && C[i].Box? && s.slots[i].Aligned?
    ensures Run(C, p, s).slots[i] == s.slots[i]
    decreases |C| - s.child, Unplaced(C, s.slots, s.child), OpenCount(s), Force01(s)
  {
    if s.child < |C| {
      PassProgress(C, p, s);
      PassKeeps(C, p, s, i);
      RunKeeps(C, p, Pass(C, p, s), i);
    }
  }

  /** A pass places floats at or below where it begins. */
  lemma PassPlaces(C: seq<Child>, p: Page, s: State, i: nat)
    requires Ready(C, s) && s.child < |C| && i < |C| && C[i].Floats() && !s.slots[i].Aligned?
    ensures |Pass(C, p, s).slots| == |C|
    ensures var a := Pass(C, p, s).slots[i];
            a.Aligned? ==> a.y >= s.y && LineScan(C, p, s).result.Floating? && LineScan(C, p, s).ch == i
  {
    PassWellFormed(C, p, s);
    LineScanOk(C, p, s);
    LineScanKeeps(C, p, s);
    RoomOk(C, p, s);
    var k := LineScan(C, p, s);
    assert s.child <= i < k.ch ==> Visited(C, k.slots, i);
    assert i == k.ch && (k.result.Fits? || k.result.Newline?) ==> Visited(C, k.slots, i);
  }

  lemma {:induction false} RunPlaces(C: seq<Child>, p: Page, s: State, i: nat)
    requires Ready(C, s) && i < |C| && C[i].Floats() && !s.slots[i].Aligned?
    ensures Run(C, p, s).slots[i].Aligned? ==> Run(C, p, s).slots[i].y >= s.y
    decreases |C| - s.child, Unplaced(C, s.slots, s.child), OpenCount(s), Force01(s)
  {
    if s.child < |C| {
      PassProgress(C, p, s);
      PassPlaces(C, p, s, i);
      PassGoesDown(C, p, s);
      if Pass(C, p, s).slots[i].Aligned? {
        RunKeeps(C, p, Pass(C, p, s), i);
      } else {
        RunPlaces(C, p, Pass(C, p, s), i);
      }
    }
  }

  // ------------------------------------------------------------------------
  // A float that still stands has a margin

  ghost predicate Reaches(ms: seq<Margin>, bottom: int) { exists m <- ms :: m.y >= bottom }

  ghost predicate Marked(c: Child, a: Slot, y: int, lm: seq<Margin>, rm: seq<Margin>)
    requires c.Box? && a.Aligned?
  {
    a.y <= y && (a.y + c.h > y ==> Reaches(lm, a.y + c.h) || Reaches(rm, a.y + c.h))
  }

  ghost predicate AllMarked(C: seq<Child>, s: State) {
    |s.slots| == |C| && forall i :: 0 <= i < |C| && C[i].Floats() && s.slots[i].Aligned? ==> Marked(C[i], s.slots[i], s.y, s.lm, s.rm)
  }

  lemma OpenReaches(ms: seq<Margin>, y: int, bottom: int)
    requires Staircase(ms) && Reaches(ms, bottom) && y < bottom
    ensures Reaches(Open(ms, y), bottom)
  {
    OpenStaircase(ms, y);
    var m :| m in ms && m.y >= bottom;
    assert m in Open(ms, y);
  }

  lemma AddReaches(ms: seq<Margin>, y: int, w: nat, indent: int, bottom: int)
    requires Staircase(ms)
    ensures Reaches(Add(ms, y, w, indent), y)
    ensures Reaches(ms, bottom) ==> Reaches(Add(ms, y, w, indent), bottom)
  {
    assert Add(ms, y, w, indent)[0].y == y && Add(ms, y, w, indent)[0] in Add(ms, y, w, indent);
    if Reaches(ms, bottom) && y < bottom {
      OpenReaches(ms, y, bottom);
      var m :| m in Open(ms, y) && m.y >= bottom;
      assert m in Add(ms, y, w, indent);
    }
  }

  /** Going down keeps the mark. */
  lemma MarkedDown(c: Child, a: Slot, y: int, lm: seq<Margin>, rm: seq<Margin>, z: int, y': int)
    requires c.Box? && a.Aligned? && Marked(c, a, y, lm, rm) && Staircase(lm) && Staircase(rm) && y <= z <= y'
    ensures Marked(c, a, y', Open(lm, z), Open(rm, z))
  {
    var bottom := a.y + c.h;
    if bottom > y' {
      if Reaches(lm, bottom) {
        OpenReaches(lm, z, bottom);
      } else {
        OpenReaches(rm, z, bottom);
      }
    }
  }

  lemma FloatMarked(C: seq<Child>, s: State, r: Room, k: Cursor, c: Child, a: Slot)
    requires k.ch < |C| == |k.slots| && C[k.ch].Box? && Staircase(r.lm) && Staircase(r.rm)
    requires c.Box? && a.Aligned?
    requires Marked(c, a, r.y, r.lm, r.rm) || (c == C[k.ch] && a.y == r.y)
    ensures var t := PlaceFloat(C, s, r, k); Marked(c, a, t.y, t.lm, t.rm)
  {
    AddedMarked(r.lm, r.rm, r.y, C[k.ch], r.left, c, a);
  }

  lemma AddedMarked(lm: seq<Margin>, rm: seq<Margin>, y: int, f: Child, indent: int, c: Child, a: Slot)
    requires Staircase(lm) && Staircase(rm) && f.Box? && c.Box? && a.Aligned?
    requires Marked(c, a, y, lm, rm) || (c == f && a.y == y)
    ensures Marked(c, a, y, if f.role.FloatRight? then lm else Add(lm, y + f.h, f.w, indent),
                   if f.role.FloatRight? then Add(rm, y + f.h, f.w, indent) else rm)
  {
    if f.role.FloatRight? {
      AddReaches(rm, y + f.h, f.w, indent, a.y + c.h);
    } else {
      AddReaches(lm, y + f.h, f.w, indent, a.y + c.h);
    }
  }

  lemma PassMarksFloat(C: seq<Child>, p: Page, s: State, i: nat)
    requires Ready(C, s) && s.child < |C| && AllMarked(C, s) && LineScan(C, p, s).result.Floating?
    requires i < |C| && C[i].Floats() && |Pass(C, p, s).slots| == |C| && Pass(C, p, s).slots[i].Aligned?
    ensures var t := Pass(C, p, s); Marked(C[i], t.slots[i], t.y, t.lm, t.rm)
  {
    LineScanOk(C, p, s);
    RoomOk(C, p, s);
    var r, k := RoomFor(C, p, s), LineScan(C, p, s);
    if s.slots[i].Aligned? {
      PassKeeps(C, p, s, i);
      MarkedDown(C[i], s.slots[i], s.y, s.lm, s.rm, r.y, r.y);
    } else {
      PassPlaces(C, p, s, i);
    }
    FloatMarked(C, s, r, k, C[i], Pass(C, p, s).slots[i]);
  }

  lemma PassMarksRest(C: seq<Child>, p: Page, s: State, i: nat)
    requires Ready(C, s) && s.child < |C| && AllMarked(C, s) && !LineScan(C, p, s).result.Floating?
    requires i < |C| && C[i].Floats() && |Pass(C, p, s).slots| == |C| && Pass(C, p, s).slots[i].Aligned?
    ensures var t := Pass(C, p, s); Marked(C[i], t.slots[i], t.y, t.lm, t.rm)
  {
    LineScanOk(C, p, s);
    RoomOk(C, p, s);
    if s.slots[i].Aligned? {
      PassKeeps(C, p, s, i);
      PassRoom(C, p, s);
      MarkedDown(C[i], s.slots[i], s.y, s.lm, s.rm, RoomFor(C, p, s).y, Pass(C, p, s).y);
    } else {
      PassPlaces(C, p, s, i);
    }
  }

  /** Without a float, a pass leaves the margins of its room, and ends at or below it. */
  lemma PassRoom(C: seq<Child>, p: Page, s: State)
    requires Ready(C, s) && s.child < |C| && !LineScan(C, p, s).result.Floating?
    ensures var r, t := RoomFor(C, p, s), Pass(C, p, s); t.lm == r.lm && t.rm == r.rm && r.y <= t.y
  {
    LineScanOk(C, p, s);
    RoomOk(C, p, s);
    MoveDownFinds(p, s, RoomFor(C, p, s), LineScan(C, p, s));
    FinishRoom(C, p, s, RoomFor(C, p, s), LineScan(C, p, s));
  }

  lemma FinishRoom(C: seq<Child>, p: Page, s: State, r: Room, k: Cursor)
    requires s.child <= k.ch <= |C| == |k.slots| && (k.ch == |C| ==> k.result.Fits?) && !k.result.Floating?
    requires r.y <= MoveDown(p, s, r, k).y
    ensures var t := Finish(C, p, s, r, k); t.lm == r.lm && t.rm == r.rm && r.y <= t.y
  {
  }

  lemma PassMarks(C: seq<Child>, p: Page, s: State)
    requires Ready(C, s) && s.child < |C| && AllMarked(C, s)
    ensures AllMarked(C, Pass(C, p, s))
  {
    PassWellFormed(C, p, s);
    var t := Pass(C, p, s);
    forall i | 0 <= i < |C| && C[i].Floats() && t.slots[i].Aligned?
      ensures Marked(C[i], t.slots[i], t.y, t.lm, t.rm)
    {
      if LineScan(C, p, s).result.Floating? {
        PassMarksFloat(C, p, s, i);
      } else {
        PassMarksRest(C, p, s, i);
      }
    }
  }

  lemma {:induction false} LineStartMarked(C: seq<Child>, p: Page, s: State, n: nat)
    requires Ready(C, s) && AllMarked(C, s) && |s.lines| <= n < |Run(C, p, s).lines|
    ensures AllMarked(C, LineStart(C, p, s, n))
    decreases |C| - s.child, Unplaced(C, s.slots, s.child), OpenCount(s), Force01(s)
  {
    PassProgress(C, p, s);
    PassLines(C, p, s);
    if |Pass(C, p, s).lines| <= n {
      PassMarks(C, p, s);
      LineStartMarked(C, p, Pass(C, p, s), n);
    }
  }

  lemma NoneReach(ms: seq<Margin>, y: int, bottom: int)
    requires Staircase(ms) && Open(ms, y) == [] && Reaches(ms, bottom)
    ensures bottom <= y
  {
    OpenStaircase(ms, y);
  }

  // ------------------------------------------------------------------------
  // A float above the restarted line

  ghost predicate HasHeights(C: seq<Child>) { forall i :: 0 <= i < |C| && C[i].Floats() ==> C[i].h > 0 }

  /** A float with a height that was placed ahead of the restarted line is above it. */
  lemma PendingAbove(C: seq<Child>, p: Page)
    requires Trim(Full(C, p).lines) != [] && RestartedAt(C, p).pending.Some? && HasHeights(C)
    ensures var t := RestartedAt(C, p);
            var f := t.pending.value;
            f < |C| && C[f].Floats() && t.slots[f].Aligned? && t.slots[f].y < RoomFor(C, p, t).y
  {
    var t, n := RestartedAt(C, p), |Trim(Full(C, p).lines)| - 1;
    TrimIn(Full(C, p).lines);
    LineStartMarked(C, p, Start(C, p), n);
    LineStartRecorded(C, p, Start(C, p), n);
    RoomEmpty(C, p, t);
  }

  lemma RoomEmpty(C: seq<Child>, p: Page, t: State)
    requires Ready(C, t) && t.child < |C| && AllMarked(C, t) && t.pending.Some? && HasHeights(C)
    requires RoomFor(C, p, t).lm == [] && RoomFor(C, p, t).rm == []
    ensures var f := t.pending.value;
            f < |C| && C[f].Floats() && t.slots[f].Aligned? && t.slots[f].y < RoomFor(C, p, t).y
  {
    RoomOk(C, p, t);
    var f, y := t.pending.value, RoomFor(C, p, t).y;
    assert Visited(C, t.slots, f);
    var bottom := t.slots[f].y + C[f].h;
    if bottom > t.y {
      if Reaches(t.lm, bottom) {
        NoneReach(t.lm, y, bottom);
      } else {
        NoneReach(t.rm, y, bottom);
      }
    }
  }

  /** A state in which a layout begins anew at a line. */
  ghost predicate Anew(C: seq<Child>, r: State, child: nat, y: int, lines: seq<Line>) {
    && r.child == child && r.y == y && r.lines == lines && |r.slots| == |C| && child <= |C|
    && r.lm == [] && r.rm == [] && !r.more && !r.retry && !r.force && r.pending.None? && !r.soft
    && (forall i :: 0 <= i < child ==> r.slots[i].Aligned?) && forall i :: child <= i < |C| ==> r.slots[i].Fresh?
  }

  lemma AnewReady(C: seq<Child>, r: State, child: nat, y: int, lines: seq<Line>)
    requires Anew(C, r, child, y, lines)
    ensures Ready(C, r)
  {
  }

  lemma RestartAnew(C: seq<Child>, p: Page, lines: seq<Line>, slots: seq<Slot>)
    requires |slots| <= |C| && (forall l <- lines :: l.child <= |slots|) && Trim(lines) != []
    requires forall i :: 0 <= i < |slots| ==> slots[i].Aligned?
    ensures var kept, n := Trim(lines), |Trim(lines)| - 1;
            Anew(C, Restart(C, p, lines, slots), kept[n].child, kept[n].y, kept[..n])
  {
    TrimIn(lines);
  }

  /** The restarted layout can always run, and begins at the remembered y with everything from the
      restarted line on to be laid out again. */
  lemma RestartReady(C: seq<Child>, D: seq<Child>, p: Page)
    requires Trim(Full(C, p).lines) != []
    ensures var u, t := Full(C, p), RestartedAt(C, p);
            var r := Restart(C + D, p, u.lines, u.slots);
            Ready(C + D, r) && Anew(C + D, r, t.child, RoomFor(C, p, t).y, t.lines)
  {
    var u := Full(C, p);
    LayoutEnds(C, p);
    TrimIn(u.lines);
    LineStartRecorded(C, p, Start(C, p), |Trim(u.lines)| - 1);
    RestartAnew(C + D, p, u.lines, u.slots);
    var r := Restart(C + D, p, u.lines, u.slots);
    AnewReady(C + D, r, r.child, r.y, r.lines);
  }

  /** If a float was placed above the restarted line, ahead of it, the restarted layout puts it at that
      line or below, whatever is appended, and so disagrees with a layout from the top. */
  lemma PendingDiffers(C: seq<Child>, D: seq<Child>, p: Page)
    requires Trim(Full(C, p).lines) != [] && LedAlike(C, D, RestartedAt(C, p).child)
    requires var t := RestartedAt(C, p);
             && t.pending.Some? && t.pending.value < |C| && C[t.pending.value].Floats()
             && t.slots[t.pending.value].Aligned? && t.slots[t.pending.value].y < RoomFor(C, p, t).y
    ensures var u := Full(C, p);
            var r := Restart(C + D, p, u.lines, u.slots);
            Ready(C + D, r) && Hard(Run(C + D, p, r)) != Hard(Full(C + D, p))
  {
    var u, t := Full(C, p), RestartedAt(C, p);
    var f := t.pending.value;
    RestartReady(C, D, p);
    RestartReached(C, D, p);
    RunKeeps(C + D, p, Ext(t, |D|), f);
    RunPlaces(C + D, p, Restart(C + D, p, u.lines, u.slots), f);
  }
}
