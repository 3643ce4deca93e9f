/** A layout after children were appended restarts at a remembered line instead of the top.

    Lines that begin inside a broken-off line (MORE) or beside a float (MARGIN) are dropped
    from the end of the index, the last line left is dropped too, and layout goes on from
    there.  The claim is that this gives the positions, the lines and the height that a layout
    from the top gives for the longer body.
 */
module LayoutRestart {
  import opened Basics
  import opened Margins
  import opened Layout
  import opened LayoutRun

  // ------------------------------------------------------------------------
  // The restart

  /** The line index without the trailing lines that cannot be restarted at. */
  function Trim(lines: seq<Line>): seq<Line> {
    if lines != [] && (lines[|lines| - 1].more || lines[|lines| - 1].margin)
    then Trim(lines[..|lines| - 1]) else lines
  }

  function FreshFrom(slots: seq<Slot>, from: nat, n: nat): (r: seq<Slot>)
    requires from <= |slots| <= n
  {
    slots[..from] + seq(n - from, _ => Fresh)
  }

  /** The state in which a layout of a changed body C begins, given the line index and the
      places the previous layout left. */
  function Restart(C: seq<Child>, p: Page, lines: seq<Line>, slots: seq<Slot>): State
    requires |slots| <= |C|
    requires forall l <- lines :: l.child <= |slots|
  {
    var kept := Trim(lines);
    if kept == [] then Start(C, p)
    else
      TrimIn(lines);
      var l := kept[|kept| - 1];
      State(l.child, l.y, false, false, false, None, false, [], [], kept[..|kept| - 1],
            FreshFrom(slots, l.child, |C|))
  }

  lemma {:induction false} TrimIn(lines: seq<Line>)
    ensures Trim(lines) <= lines
    ensures Trim(lines) != [] ==> var l := Trim(lines)[|Trim(lines)| - 1]; l in lines && !l.more && !l.margin
  {
    if lines != [] && (lines[|lines| - 1].more || lines[|lines| - 1].margin) {
      TrimIn(lines[..|lines| - 1]);
    }
  }

  // ------------------------------------------------------------------------
  // A pass that ends inside C does not see what comes after C

  function Ext(s: State, n: nat): State {
    s.(slots := s.slots + seq(n, _ => Fresh))
  }

  function ExtCursor(k: Cursor, n: nat): Cursor {
    k.(slots := k.slots + seq(n, _ => Fresh))
  }

  lemma {:induction false} SeekPrefix(C: seq<Child>, D: seq<Child>, i: nat)
    requires i <= |C| && SeekVisible(C, i) < |C|
    ensures SeekVisible(C + D, i) == SeekVisible(C, i)
    decreases |C| - i
  {
    if !C[i].visible {
      SeekPrefix(C, D, i + 1);
    }
  }

  /** Two children that give a line the same room. */
  predicate Alike(c: Child, d: Child) {
    && c.left == d.left && c.right == d.right && c.halign == d.halign
    && (c.IsBullet() <==> d.IsBullet()) && (c.IsBullet() ==> c.w == d.w)
  }

  /** Lines that begin before child n are led alike whether D follows or not.  Only a line without a
      visible child in C can be led by a child of D. */
  ghost predicate LedAlike(C: seq<Child>, D: seq<Child>, n: nat) {
    forall i :: 0 <= i < n && i < |C| ==> Alike(C[Leader(C, i)], (C + D)[Leader(C + D, i)])
  }

  lemma VisibleLeads(C: seq<Child>, D: seq<Child>, n: nat)
    requires n < |C| && SeekVisible(C, n) < |C|
    ensures LedAlike(C, D, n + 1)
  {
    forall i | 0 <= i <= n
      ensures Alike(C[Leader(C, i)], (C + D)[Leader(C + D, i)])
    {
      SeekMonotone(C, i, n);
      SeekPrefix(C, D, i);
    }
  }

  lemma RoomPrefix(C: seq<Child>, D: seq<Child>, p: Page, s: State)
    requires s.child < |C| && Alike(C[Leader(C, s.child)], (C + D)[Leader(C + D, s.child)])
    ensures RoomFor(C + D, p, Ext(s, |D|)) == RoomFor(C, p, s)
  {
    RoomSame(C, C + D, p, s, Ext(s, |D|));
  }

  /** The room depends on the leading child, and on nothing else of the body. */
  lemma RoomSame(C: seq<Child>, E: seq<Child>, p: Page, s: State, t: State)
    requires s.child < |C| && t.child < |E| && Alike(C[Leader(C, s.child)], E[Leader(E, t.child)])
    requires s.y == t.y && s.retry == t.retry && s.lm == t.lm && s.rm == t.rm
    ensures RoomFor(C, p, s) == RoomFor(E, p, t)
  {
  }

  lemma ScanChildPrefix(C: seq<Child>, D: seq<Child>, r: Room, force: bool, k: Cursor)
    requires k.ch < |C| == |k.slots|
    ensures var (k', stop) := ScanChild(C, r, force, k);
            ScanChild(C + D, r, force, ExtCursor(k, |D|)) == (ExtCursor(k', |D|), stop)
  {
    var (k', stop) := ScanChild(C, r, force, k);
    var x := seq(|D|, _ => Fresh);
    var slot := SlotAfter(C[k.ch], k.slots[k.ch], k.startx, k.retry || k.pending.Some?);
    assert (k.slots + x)[k.ch := slot] == k.slots[k.ch := slot] + x;
  }

  lemma {:induction false} ScanPrefix(C: seq<Child>, D: seq<Child>, r: Room, force: bool, k: Cursor)
    requires k.ch <= |C| == |k.slots|
    requires Scan(C, r, force, k).ch < |C|
    ensures Scan(C + D, r, force, ExtCursor(k, |D|)) == ExtCursor(Scan(C, r, force, k), |D|)
    decreases |C| - k.ch
  {
    ScanChildPrefix(C, D, r, force, k);
    var (k1, stop) := ScanChild(C, r, force, k);
    if !stop {
      ScanPrefix(C, D, r, force, k1);
    }
  }

  lemma AlignPrefix(C: seq<Child>, D: seq<Child>, slots: seq<Slot>, from: nat, to: nat, dx: int, y: int, b: int)
    requires to <= |C| == |slots|
    ensures var x := seq(|D|, _ => Fresh);
            AlignRange(C + D, slots + x, from, to, dx, y, b) == AlignRange(C, slots, from, to, dx, y, b) + x
  {
  }

  lemma FinishLinePrefix(C: seq<Child>, D: seq<Child>, p: Page, s: State, r: Room, k: Cursor, next: nat, more: bool, soft: bool)
    requires next <= |C| == |k.slots|
    ensures FinishLine(C + D, p, Ext(s, |D|), r, ExtCursor(k, |D|), next, more, soft)
         == Ext(FinishLine(C, p, s, r, k, next, more, soft), |D|)
  {
    AlignPrefix(C, D, k.slots, s.child, next, Shift(r.halign, k.endx, r.width), r.y, Max(0, k.above + k.below) - k.below - 1);
  }

  lemma PlaceFloatPrefix(C: seq<Child>, D: seq<Child>, s: State, r: Room, k: Cursor)
    requires k.ch < |C| == |k.slots| && C[k.ch].Box?
    ensures PlaceFloat(C + D, Ext(s, |D|), r, ExtCursor(k, |D|)) == Ext(PlaceFloat(C, s, r, k), |D|)
  {
    var x, a := seq(|D|, _ => Fresh), Aligned(FloatX(C[k.ch], r, k.startx), r.y);
    assert (k.slots + x)[k.ch := a] == k.slots[k.ch := a] + x;
  }

  lemma FinishPrefix(C: seq<Child>, D: seq<Child>, E: seq<Child>, p: Page, s: State, r: Room, k: Cursor)
    requires E == C + D && s.child <= k.ch < |C| == |k.slots|
    requires k.result.Floating? ==> C[k.ch].Box? && E[k.ch].Box?
    ensures Finish(E, p, Ext(s, |D|), r, ExtCursor(k, |D|)) == Ext(Finish(C, p, s, r, k), |D|)
  {
    match k.result
    case Fits => FinishLinePrefix(C, D, p, s, r, k, k.ch + 1, false, true);
    case Newline(_, _) => FinishLinePrefix(C, D, p, s, r, k, k.ch + 1, false, k.soft);
    case NoFit => FinishLinePrefix(C, D, p, s, r, k, k.ch, true, true);
    case Floating => PlaceFloatPrefix(C, D, s, r, k);
  }

  lemma PassPrefix(C: seq<Child>, D: seq<Child>, p: Page, s: State)
    requires s.child < |C| == |s.slots| && Alike(C[Leader(C, s.child)], (C + D)[Leader(C + D, s.child)])
    requires LineScan(C, p, s).ch < |C|
    ensures Pass(C + D, p, Ext(s, |D|)) == Ext(Pass(C, p, s), |D|)
  {
    RoomPrefix(C, D, p, s);
    var r := RoomFor(C, p, s);
    ScanShape(C, r, s.force, StartCursor(s, r));
    ScanPrefix(C, D, r, s.force, StartCursor(s, r));
    FinishPrefix(C, D, C + D, p, s, r, LineScan(C, p, s));
  }

  // ------------------------------------------------------------------------
  // The pass that added a given line

  ghost predicate SameBelow(a: seq<Slot>, b: seq<Slot>, n: nat) {
    n <= |a| && n <= |b| && forall i :: 0 <= i < n ==> a[i] == b[i]
  }

  lemma PassLines(C: seq<Child>, p: Page, s: State)
    requires Ready(C, s) && s.child < |C|
    ensures var t := Pass(C, p, s);
            && s.lines <= t.lines && |t.lines| <= |s.lines| + 1
            && (|t.lines| > |s.lines| ==>
                  && s.child < t.child
                  && t.lines[|s.lines|] == Line(s.child, RoomFor(C, p, s).y, LineScan(C, p, s).endx + p.hmargin, s.more,
                                                RoomFor(C, p, s).lm != [] || RoomFor(C, p, s).rm != []))
            && (|t.lines| == |s.lines| ==> t.child == s.child && t.more)
            && SameBelow(t.slots, s.slots, s.child)
  {
    LineScanOk(C, p, s);
    LineScanKeeps(C, p, s);
    FinishOk(C, p, s, RoomFor(C, p, s), LineScan(C, p, s));
    var t := Pass(C, p, s);
  }

  lemma {:induction false} RunLines(C: seq<Child>, p: Page, s: State)
    requires Ready(C, s)
    ensures var t := Run(C, p, s); s.lines <= t.lines && SameBelow(t.slots, s.slots, s.child)
    decreases |C| - s.child, Unplaced(C, s.slots, s.child), OpenCount(s), Force01(s)
  {
    if s.child < |C| {
      PassProgress(C, p, s);
      PassLines(C, p, s);
      RunLines(C, p, Pass(C, p, s));
    }
  }

  ghost predicate LinesWithin(lines: seq<Line>, n: nat) {
    forall l <- lines :: l.child < n
  }

  lemma {:induction false} RunLinesWithin(C: seq<Child>, p: Page, s: State)
    requires Ready(C, s) && LinesWithin(s.lines, |C|)
    ensures LinesWithin(Run(C, p, s).lines, |C|)
    decreases |C| - s.child, Unplaced(C, s.slots, s.child), OpenCount(s), Force01(s)
  {
    if s.child < |C| {
      PassProgress(C, p, s);
      PassLines(C, p, s);
      var t := Pass(C, p, s);
      assert t.lines == s.lines || t.lines == s.lines + [t.lines[|s.lines|]];
      RunLinesWithin(C, p, t);
    }
  }

  /** The state at the start of the pass that added line n to the index. */
  function LineStart(C: seq<Child>, p: Page, s: State, n: nat): (t: State)
    requires Ready(C, s) && |s.lines| <= n < |Run(C, p, s).lines|
    ensures Ready(C, t) && s.child <= t.child < |C| && |t.lines| == n
    ensures |Pass(C, p, t).lines| > n
    decreases |C| - s.child, Unplaced(C, s.slots, s.child), OpenCount(s), Force01(s)
  {
    PassProgress(C, p, s);
    PassLines(C, p, s);
    if |Pass(C, p, s).lines| > n then s else LineStart(C, p, Pass(C, p, s), n)
  }

  /** Line n records where its pass began, and everything before it is final. */
  lemma {:induction false} LineStartRecorded(C: seq<Child>, p: Page, s: State, n: nat)
    requires Ready(C, s) && |s.lines| <= n < |Run(C, p, s).lines|
    ensures var t, u := LineStart(C, p, s, n), Run(C, p, s);
            && u.lines[..n] == t.lines
            && SameBelow(u.slots, t.slots, t.child)
            && u.lines[n] == Line(t.child, RoomFor(C, p, t).y, LineScan(C, p, t).endx + p.hmargin, t.more,
                                  RoomFor(C, p, t).lm != [] || RoomFor(C, p, t).rm != [])
    decreases |C| - s.child, Unplaced(C, s.slots, s.child), OpenCount(s), Force01(s)
  {
    PassProgress(C, p, s);
    PassLines(C, p, s);
    var s' := Pass(C, p, s);
    RunLines(C, p, s);
    if |s'.lines| > n {
      RunLines(C, p, s');
    } else {
      LineStartRecorded(C, p, s', n);
    }
  }

  /** A line that was begun anew keeps that mark. */
  lemma {:induction false} MoreStays(C: seq<Child>, p: Page, s: State, n: nat)
    requires Ready(C, s) && |s.lines| <= n < |Run(C, p, s).lines| && s.more
    ensures var t := LineStart(C, p, s, n); t.more || s.child < t.child
    decreases |C| - s.child, Unplaced(C, s.slots, s.child), OpenCount(s), Force01(s)
  {
    PassProgress(C, p, s);
    PassLines(C, p, s);
    var s' := Pass(C, p, s);
    if |s'.lines| == |s.lines| {
      MoreStays(C, p, s', n);
    }
  }

  /** Until the pass of line n, the layout of C + D goes through the same states as that of C. */
  lemma {:induction false} RunPrefix(C: seq<Child>, D: seq<Child>, p: Page, s: State, n: nat)
    requires Ready(C, s) && |s.lines| <= n < |Run(C, p, s).lines|
    requires var t := LineStart(C, p, s, n); LedAlike(C, D, if t.more then t.child + 1 else t.child)
    requires Ready(C + D, Ext(s, |D|))
    ensures var t := Ext(LineStart(C, p, s, n), |D|);
            Ready(C + D, t) && Run(C + D, p, Ext(s, |D|)) == Run(C + D, p, t)
    decreases |C| - s.child, Unplaced(C, s.slots, s.child), OpenCount(s), Force01(s)
  {
    PassProgress(C, p, s);
    PassLines(C, p, s);
    var s' := Pass(C, p, s);
    if |s'.lines| <= n {
      if |s'.lines| == |s.lines| {
        MoreStays(C, p, s', n);
      }
      assert s'.child < |C|;
      StopsInside(C, p, s);
      PassPrefix(C, D, p, s);
      PassProgress(C + D, p, Ext(s, |D|));
      RunPrefix(C, D, p, s', n);
    }
  }

  /** A pass that leaves children of C over ends at a child of C. */
  lemma StopsInside(C: seq<Child>, p: Page, s: State)
    requires Ready(C, s) && s.child < |C| && Pass(C, p, s).child < |C|
    ensures LineScan(C, p, s).ch < |C|
  {
    LineScanOk(C, p, s);
  }

  // ------------------------------------------------------------------------
  // What the restart forgets

  /** From child i on there are clearing line breaks, if any, and then a plain line break.
      After a line that was broken off without a line break, the plain one is swallowed. */
  predicate Swallows(C: seq<Child>, i: nat)
    decreases |C| - i
  {
    i < |C| && C[i].Break? &&
    (C[i].PlainNewline() || ((C[i].clearLeft || C[i].clearRight) && Swallows(C, i + 1)))
  }

  function Hard(s: State): State { s.(soft := false) }

  lemma ScanForget(C: seq<Child>, r: Room, force: bool, k: Cursor)
    requires k.ch < |C| == |k.slots| && !C[k.ch].PlainNewline()
    ensures var a, b := Scan(C, r, force, k), Scan(C, r, force, k.(soft := false));
            && a.(soft := false) == b.(soft := false)
            && (a.soft != b.soft ==> a.ch == k.ch && (a.result.Newline? ==> C[k.ch].Break? && (C[k.ch].clearLeft || C[k.ch].clearRight)))
  {
    ScanChildForget(C, r, force, k);
  }

  /** Only a plain line break looks at how the line before it ended. */
  lemma ScanChildForget(C: seq<Child>, r: Room, force: bool, k: Cursor)
    requires k.ch < |C| == |k.slots| && !C[k.ch].PlainNewline()
    ensures var (a, s) := ScanChild(C, r, force, k);
            var (b, s') := ScanChild(C, r, force, k.(soft := false));
            && s == s' && (if s then a.(soft := false) == b.(soft := false) && a.ch == b.ch == k.ch else a == b)
            && (s && a.soft != b.soft && a.result.Newline? ==> C[k.ch].Break? && (C[k.ch].clearLeft || C[k.ch].clearRight))
  {
  }

  function HardCursor(k: Cursor): Cursor { k.(soft := false) }

  lemma FinishLineHard(C: seq<Child>, p: Page, s: State, r: Room, k: Cursor, next: nat, more: bool, soft: bool, soft': bool)
    requires next <= |C| == |k.slots|
    ensures Hard(FinishLine(C, p, s, r, k, next, more, soft)) == Hard(FinishLine(C, p, Hard(s), r, HardCursor(k), next, more, soft'))
  {
  }

  lemma FinishHard(C: seq<Child>, p: Page, s: State, r: Room, k: Cursor, t: State, u: State)
    requires s.child <= k.ch <= |C| == |k.slots| && (k.ch == |C| ==> k.result.Fits?)
    requires k.result.Floating? ==> C[k.ch].Box?
    requires t == Finish(C, p, s, r, k) && u == Finish(C, p, Hard(s), r, HardCursor(k))
    ensures Hard(t) == Hard(u)
  {
    if k.result.Fits? {
      FinishLineHard(C, p, s, r, k, if k.ch < |C| then k.ch + 1 else k.ch, false, true, true);
    } else if k.result.Newline? {
      FinishLineHard(C, p, s, r, k, k.ch + 1, false, k.soft, false);
    } else if k.result.NoFit? && k.ch != s.child {
      FinishLineHard(C, p, s, r, k, k.ch, true, true, true);
    }
  }

  lemma FinishForget(C: seq<Child>, p: Page, s: State, r: Room, k: Cursor)
    requires s.child <= k.ch <= |C| == |k.slots| && (k.ch == |C| ==> k.result.Fits?)
    requires k.result.Floating? ==> C[k.ch].Box?
    ensures Hard(Finish(C, p, s, r, k)) == Hard(Finish(C, p, Hard(s), r, HardCursor(k)))
    ensures k.result.Fits? || (k.result.NoFit? && k.ch != s.child) ==> Finish(C, p, s, r, k).soft
    ensures k.result.Newline? ==> Finish(C, p, s, r, k).soft == k.soft && Finish(C, p, s, r, k).child == k.ch + 1
    ensures k.result.Floating? || (k.result.NoFit? && k.ch == s.child) ==>
              Finish(C, p, s, r, k).soft == k.soft && Finish(C, p, s, r, k).child == s.child
  {
    FinishHard(C, p, s, r, k, Finish(C, p, s, r, k), Finish(C, p, Hard(s), r, HardCursor(k)));
  }

  lemma LineScanForget(C: seq<Child>, p: Page, s: State)
    requires s.child < |C| == |s.slots| && !C[s.child].PlainNewline()
    ensures RoomFor(C, p, Hard(s)) == RoomFor(C, p, s)
    ensures var a, b := LineScan(C, p, s), LineScan(C, p, Hard(s));
            && HardCursor(a) == HardCursor(b)
            && (a.soft != b.soft ==>
                  a.ch == s.child && (a.result.Newline? ==> C[a.ch].Break? && (C[a.ch].clearLeft || C[a.ch].clearRight)))
  {
    var r := RoomFor(C, p, s);
    assert RoomFor(C, p, Hard(s)) == r;
    assert StartCursor(Hard(s), r) == HardCursor(StartCursor(s, r));
    ScanForget(C, r, s.force, StartCursor(s, r));
  }

  lemma PassForget(C: seq<Child>, p: Page, s: State)
    requires WellFormed(C, s) && WellFormed(C, Hard(s)) && s.child < |C| && !Swallows(C, s.child)
    ensures var a, b := Pass(C, p, s), Pass(C, p, Hard(s));
            Hard(a) == Hard(b) && (a.soft != b.soft ==> !Swallows(C, a.child))
  {
    var r, k, k' := RoomFor(C, p, s), LineScan(C, p, s), LineScan(C, p, Hard(s));
    LineScanForget(C, p, s);
    PassFinishes(C, p, s);
    PassFinishes(C, p, Hard(s));
    assert k.ch == k'.ch && k.result == k'.result && k.slots == k'.slots;
    FinishForget(C, p, s, r, k);
    FinishForget(C, p, Hard(s), r, k');
  }

  /** If nothing is swallowed, forgetting that the line before ended softly changes nothing. */
  lemma {:induction false} RunForget(C: seq<Child>, p: Page, s: State)
    requires Ready(C, s) && Ready(C, Hard(s)) && !Swallows(C, s.child)
    ensures Hard(Run(C, p, s)) == Hard(Run(C, p, Hard(s)))
    decreases |C| - s.child, Unplaced(C, s.slots, s.child), OpenCount(s), Force01(s)
  {
    if s.child < |C| {
      PassProgress(C, p, s);
      PassProgress(C, p, Hard(s));
      PassForget(C, p, s);
      var a, b := Pass(C, p, s), Pass(C, p, Hard(s));
      if a.soft != b.soft {
        RunForget(C, p, if a.soft then a else b);
      }
    }
  }

  // ------------------------------------------------------------------------
  // The claim

  /** The line index and the places that a layout of C from the top leaves. */
  function Full(C: seq<Child>, p: Page): (t: State)
    ensures Ready(C, t) && t.child == |C|
    ensures LinesWithin(t.lines, |C|)
  {
    LayoutEnds(C, p);
    RunLinesWithin(C, p, Start(C, p));
    Run(C, p, Start(C, p))
  }

  /** The state in which the layout of C from the top began the line a restart goes back to. */
  ghost function RestartedAt(C: seq<Child>, p: Page): (t: State)
    requires Trim(Full(C, p).lines) != []
    ensures Ready(C, t) && t.child < |C|
  {
    LayoutEnds(C, p);
    TrimIn(Full(C, p).lines);
    LineStart(C, p, Start(C, p), |Trim(Full(C, p).lines)| - 1)
  }

  /** The restart knows everything about that state but whether the line before ended softly. */
  lemma RestartState(C: seq<Child>, D: seq<Child>, p: Page)
    requires Trim(Full(C, p).lines) != [] && RestartedAt(C, p).pending.None?
    ensures var u, t := Full(C, p), RestartedAt(C, p);
            var r := Restart(C + D, p, u.lines, u.slots);
            && RoomFor(C, p, t).lm == [] && RoomFor(C, p, t).rm == []
            && r == Ext(t, |D|).(y := RoomFor(C, p, t).y, soft := false, lm := [], rm := [])
  {
    var u, t := Full(C, p), RestartedAt(C, p);
    var n := |Trim(u.lines)| - 1;
    TrimIn(u.lines);
    LineStartRecorded(C, p, Start(C, p), n);
    var r := Restart(C + D, p, u.lines, u.slots);
    assert r.lines == t.lines;
    assert forall i :: t.child <= i < |C| ==> t.slots[i] == Fresh;
    SlotsAgain(u.slots, t.slots, t.child, |D|);
  }

  lemma SlotsAgain(a: seq<Slot>, b: seq<Slot>, from: nat, n: nat)
    requires from <= |a| == |b| && SameBelow(a, b, from) && forall i :: from <= i < |b| ==> b[i] == Fresh
    ensures FreshFrom(a, from, |a| + n) == b + seq(n, _ => Fresh)
  {
  }

  lemma ReadyExt(C: seq<Child>, D: seq<Child>, s: State)
    requires Ready(C, s) && s.child < |C| && !s.retry && !s.more
    ensures Ready(C + D, Ext(s, |D|)) && Ready(C + D, Hard(Ext(s, |D|)))
  {
    forall i | s.child <= i < |C + D|
      ensures if Before(s.pending, i) then Visited(C + D, Ext(s, |D|).slots, i) else Ext(s, |D|).slots[i].Fresh?
    {
      if i < |C| {
        assert Before(s.pending, i) ==> Visited(C, s.slots, i);
      }
    }
  }

  /** Dropping the ended margins and going down to where the line will be changes nothing. */
  lemma PassFromRoom(C: seq<Child>, p: Page, s: State)
    requires s.child < |C| == |s.slots| && !s.retry
    requires RoomFor(C, p, s).lm == [] && RoomFor(C, p, s).rm == []
    ensures var s' := s.(y := RoomFor(C, p, s).y, lm := [], rm := []);
            Pass(C, p, s') == Pass(C, p, s)
  {
    var r := RoomFor(C, p, s);
    var s' := s.(y := r.y, lm := [], rm := []);
    assert RoomFor(C, p, s') == r;
    assert StartCursor(s', r) == StartCursor(s, r);
  }

  lemma RestartedUnflagged(C: seq<Child>, p: Page)
    requires Trim(Full(C, p).lines) != []
    ensures !RestartedAt(C, p).more && !RestartedAt(C, p).retry
  {
    var n := |Trim(Full(C, p).lines)| - 1;
    LayoutEnds(C, p);
    TrimIn(Full(C, p).lines);
    LineStartRecorded(C, p, Start(C, p), n);
  }

  lemma StartExt(C: seq<Child>, D: seq<Child>, p: Page)
    ensures Start(C + D, p) == Ext(Start(C, p), |D|)
  {
  }

  /** A layout of the longer body from the top comes through that state. */
  lemma RestartReached(C: seq<Child>, D: seq<Child>, p: Page)
    requires Trim(Full(C, p).lines) != []
    requires LedAlike(C, D, RestartedAt(C, p).child)
    ensures var t := Ext(RestartedAt(C, p), |D|); Ready(C + D, t) && Full(C + D, p) == Run(C + D, p, t)
  {
    StartExt(C, D, p);
    LayoutEnds(C, p);
    LayoutEnds(C + D, p);
    RestartedUnflagged(C, p);
    TrimIn(Full(C, p).lines);
    RunPrefix(C, D, p, Start(C, p), |Trim(Full(C, p).lines)| - 1);
  }

  lemma RoomSoft(C: seq<Child>, p: Page, s: State)
    requires s.child < |C|
    ensures RoomFor(C, p, Hard(s)) == RoomFor(C, p, s)
  {
  }

  /** The lines before that of t are led as before, and that of t begins where it did. */
  ghost predicate SameStart(C: seq<Child>, D: seq<Child>, p: Page, t: State) {
    && t.child < |C| && LedAlike(C, D, t.child)
    && RoomFor(C + D, p, Ext(t, |D|)).y == RoomFor(C, p, t).y
  }

  /** That is so if some child from there on is visible. */
  lemma VisibleStart(C: seq<Child>, D: seq<Child>, p: Page, t: State)
    requires t.child < |C| && SeekVisible(C, t.child) < |C|
    ensures SameStart(C, D, p, t)
  {
    VisibleLeads(C, D, t.child);
    RoomPrefix(C, D, p, t);
  }

  lemma {:induction false} NothingOpen(ms: seq<Margin>, y: int, indent: int)
    requires Open(ms, y) == []
    ensures FindIndent(ms, y, indent) == y
  {
    if ms != [] {
      NothingOpen(ms[1..], y, indent);
    }
  }

  lemma ClearRoom(C: seq<Child>, p: Page, s: State)
    requires s.child < |C| && Open(s.lm, s.y) == []
    ensures RoomFor(C, p, s).y == s.y
  {
    var c := C[Leader(C, s.child)];
    NothingOpen(s.lm, s.y, c.left);
    NothingOpen(s.lm, s.y, c.left + 1);
  }

  /** It is so as well, visible or not, if no left margin is open where the line before ended. */
  lemma ClearStart(C: seq<Child>, D: seq<Child>, p: Page, t: State)
    requires t.child < |C| && Open(t.lm, t.y) == [] && LedAlike(C, D, t.child)
    ensures SameStart(C, D, p, t)
  {
    ClearRoom(C, p, t);
    ClearRoom(C + D, p, Ext(t, |D|));
  }

  /** The restart runs on like a layout from the top that has forgotten just that. */
  lemma RestartResumes(C: seq<Child>, D: seq<Child>, p: Page)
    requires Trim(Full(C, p).lines) != []
    requires SameStart(C, D, p, RestartedAt(C, p))
    requires RestartedAt(C, p).pending.None?
    ensures var u, t := Full(C, p), Ext(RestartedAt(C, p), |D|);
            var r := Restart(C + D, p, u.lines, u.slots);
            && Ready(C + D, r) && Ready(C + D, Hard(t))
            && Run(C + D, p, r) == Run(C + D, p, Hard(t))
  {
    var u, t := Full(C, p), RestartedAt(C, p);
    RestartedUnflagged(C, p);
    RestartState(C, D, p);
    RoomSoft(C + D, p, Ext(t, |D|));
    ReadyExt(C, D, t);
    RoomsOpen(C, C + D, p, t, Hard(Ext(t, |D|)));
    ResumeFrom(C + D, p, Hard(Ext(t, |D|)), Restart(C + D, p, u.lines, u.slots));
  }

  lemma RoomsOpen(C: seq<Child>, E: seq<Child>, p: Page, s: State, t: State)
    requires s.child < |C| && t.child < |E| && s.lm == t.lm && s.rm == t.rm
    requires RoomFor(C, p, s).y == RoomFor(E, p, t).y
    ensures RoomFor(C, p, s).lm == RoomFor(E, p, t).lm && RoomFor(C, p, s).rm == RoomFor(E, p, t).rm
  {
  }

  lemma ResumeFrom(C: seq<Child>, p: Page, h: State, r: State)
    requires Ready(C, h) && h.child < |C| && !h.retry && !h.force && h.pending.None?
    requires RoomFor(C, p, h).lm == [] && RoomFor(C, p, h).rm == []
    requires r == h.(y := RoomFor(C, p, h).y, lm := [], rm := [])
    ensures Ready(C, r) && Run(C, p, r) == Run(C, p, h)
  {
    PassFromRoom(C, p, h);
  }

  /** After children are appended to a body laid out from the top, a restarted layout gives
      the places, the line index, the final y and the margins of a layout of the longer body
      from the top, unless the restarted line begins elsewhere, a float was placed ahead of it, or
      it begins by swallowing a line break. */
  lemma RestartAgrees(C: seq<Child>, D: seq<Child>, p: Page)
    requires Trim(Full(C, p).lines) != [] ==>
      && SameStart(C, D, p, RestartedAt(C, p))
      && RestartedAt(C, p).pending.None?
      && !(RestartedAt(C, p).soft && Swallows(C + D, RestartedAt(C, p).child))
    ensures var u := Full(C, p);
            var r := Restart(C + D, p, u.lines, u.slots);
            Ready(C + D, r) && Hard(Run(C + D, p, r)) == Hard(Full(C + D, p))
  {
    LayoutEnds(C + D, p);
    if Trim(Full(C, p).lines) != [] {
      RestartResumes(C, D, p);
      RestartReached(C, D, p);
      var t := Ext(RestartedAt(C, p), |D|);
      if t.soft {
        RunForget(C + D, p, t);
      } else {
        assert Hard(t) == t;
      }
    }
  }
}
