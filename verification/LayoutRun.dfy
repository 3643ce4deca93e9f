/** The whole run of a layout: the outer loop always ends, and every child is placed.

    A child ahead of the current line may already be aligned only because it is a float that
    was placed while an earlier attempt at the line was under way.  `pending` is the last such
    float; up to it every float is aligned and nothing else is, and beyond it nothing has been
    laid out.  This is what keeps a float from being placed twice.
 */
module LayoutRun {
  import opened Basics
  import opened Margins
  import opened Layout

  /** The child was visited, and it is aligned exactly if it floats. */
  ghost predicate Visited(C: seq<Child>, slots: seq<Slot>, i: nat)
    requires i < |C| == |slots|
  {
    !slots[i].Fresh? && (slots[i].Aligned? <==> C[i].Floats())
  }

  ghost predicate Before(pending: Option<nat>, i: nat) {
    pending.Some? && i <= pending.value
  }

  /** What holds of the children from `from` on when none of them has been scanned. */
  ghost predicate Ahead(C: seq<Child>, slots: seq<Slot>, from: nat, pending: Option<nat>, first: nat, more: bool)
    requires |C| == |slots|
  {
    && (pending.Some? ==> from <= pending.value < |C| && C[pending.value].Floats())
    && (forall i :: from <= i < |C| ==>
          if Before(pending, i) then Visited(C, slots, i)
          else slots[i].Fresh? || (i == first && more && slots[i].Laid?))
  }

  ghost predicate WellFormed(C: seq<Child>, s: State) {
    && s.child <= |C| == |s.slots|
    && (forall i :: 0 <= i < s.child ==> s.slots[i].Aligned?)
    && Ahead(C, s.slots, s.child, s.pending, s.child, s.more)
    && (s.retry ==> s.more && s.pending.Some?)
    && (s.force ==> s.more)
  }

  ghost predicate CursorOk(C: seq<Child>, s: State, k: Cursor) {
    && s.child <= k.ch <= |C| == |k.slots|
    && (forall i :: 0 <= i < s.child ==> k.slots[i].Aligned?)
    && (forall i :: s.child <= i < k.ch ==> Visited(C, k.slots, i))
    && Ahead(C, k.slots, k.ch, k.pending, s.child, s.more)
    && (k.retry ==> k.pending.Some?)
  }

  /** What holds when the scan stops at a child instead of going on. */
  ghost predicate StopOk(C: seq<Child>, s: State, k: Cursor) {
    && s.child <= k.ch < |C| == |k.slots|
    && (forall i :: 0 <= i < s.child ==> k.slots[i].Aligned?)
    && (forall i :: s.child <= i < k.ch ==> Visited(C, k.slots, i))
    && Ahead(C, k.slots, k.ch + 1, k.pending, s.child, s.more)
    && (match k.result
        case Fits => Visited(C, k.slots, k.ch)
        case Newline(_, _) => Visited(C, k.slots, k.ch)
        case NoFit => C[k.ch].Box? && k.slots[k.ch].Laid? && (k.pending.Some? ==> !C[k.ch].Floats())
        case Floating => C[k.ch].Floats() && k.slots[k.ch] == Laid(k.startx) && k.pending.None?)
  }

  lemma ScanChildOk(C: seq<Child>, s: State, r: Room, force: bool, k: Cursor)
    requires CursorOk(C, s, k) && k.ch < |C|
    ensures var (k', stop) := ScanChild(C, r, force, k);
            if stop then k'.ch == k.ch && StopOk(C, s, k') else CursorOk(C, s, k')
    ensures force ==> !ScanChild(C, r, force, k).0.result.NoFit?
  {
    var (k', stop) := ScanChild(C, r, force, k);
    forall i | s.child <= i < |C| && i != k.ch
      ensures k'.slots[i] == k.slots[i]
      ensures Visited(C, k'.slots, i) == Visited(C, k.slots, i)
    {
    }
    ScanChildVisits(C, s, r, force, k);
  }

  lemma ScanChildVisits(C: seq<Child>, s: State, r: Room, force: bool, k: Cursor)
    requires CursorOk(C, s, k) && k.ch < |C|
    ensures var (k', stop) := ScanChild(C, r, force, k);
            && |k'.slots| == |C| && k'.ch == (if stop then k.ch else k.ch + 1)
            && (!stop ==> k'.result.Fits?) && (k'.result.Fits? || k'.result.Newline? ==> Visited(C, k'.slots, k.ch))
            && Ahead(C, k'.slots, k.ch + 1, k'.pending, s.child, s.more)
  {
  }

  lemma {:induction false} ScanOk(C: seq<Child>, s: State, r: Room, force: bool, k: Cursor)
    requires CursorOk(C, s, k)
    requires k.result.Fits?
    ensures var k' := Scan(C, r, force, k);
            if k'.ch == |C| then CursorOk(C, s, k') && k'.result.Fits? else StopOk(C, s, k')
    ensures force ==> !Scan(C, r, force, k).result.NoFit?
    decreases |C| - k.ch
  {
    if k.ch < |C| {
      ScanChildOk(C, s, r, force, k);
      var (k1, stop) := ScanChild(C, r, force, k);
      if !stop {
        ScanOk(C, s, r, force, k1);
      }
    }
  }

  lemma StartOk(C: seq<Child>, p: Page, s: State)
    requires WellFormed(C, s) && s.child < |C|
    ensures CursorOk(C, s, StartCursor(s, RoomFor(C, p, s)))
  {
  }

  lemma FinishLineOk(C: seq<Child>, p: Page, s: State, r: Room, k: Cursor, next: nat, more: bool, soft: bool)
    requires s.child <= next <= |C| == |k.slots|
    requires forall i :: 0 <= i < s.child ==> k.slots[i].Aligned?
    requires forall i :: s.child <= i < next ==> !k.slots[i].Fresh?
    requires Ahead(C, k.slots, next, k.pending, next, more)
    ensures WellFormed(C, FinishLine(C, p, s, r, k, next, more, soft))
  {
    var t := FinishLine(C, p, s, r, k, next, more, soft);
    forall i | next <= i < |C|
      ensures t.slots[i] == k.slots[i]
    {
    }
  }

  /** What holds of the cursor when a scan is over. */
  ghost predicate ScanDone(C: seq<Child>, s: State, k: Cursor) {
    && s.child <= k.ch <= |C| == |k.slots|
    && if k.ch == |C| then CursorOk(C, s, k) && k.result.Fits? else StopOk(C, s, k)
  }

  lemma LineScanOk(C: seq<Child>, p: Page, s: State)
    requires WellFormed(C, s) && s.child < |C|
    ensures ScanDone(C, s, LineScan(C, p, s))
    ensures s.force ==> !LineScan(C, p, s).result.NoFit?
  {
    StartOk(C, p, s);
    var r := RoomFor(C, p, s);
    ScanOk(C, s, r, s.force, StartCursor(s, r));
  }

  lemma FinishFitsOk(C: seq<Child>, p: Page, s: State, r: Room, k: Cursor)
    requires WellFormed(C, s) && s.child < |C| && ScanDone(C, s, k) && k.result.Fits?
    ensures WellFormed(C, Finish(C, p, s, r, k)) && s.child < Finish(C, p, s, r, k).child
  {
    assert forall i :: s.child <= i < |C| && Visited(C, k.slots, i) ==> !k.slots[i].Fresh?;
    FinishLineOk(C, p, s, r, k, if k.ch < |C| then k.ch + 1 else k.ch, false, true);
  }

  lemma FinishNewlineOk(C: seq<Child>, p: Page, s: State, r: Room, k: Cursor)
    requires WellFormed(C, s) && s.child < |C| && ScanDone(C, s, k) && k.result.Newline?
    ensures WellFormed(C, Finish(C, p, s, r, k)) && s.child < Finish(C, p, s, r, k).child
  {
    assert forall i :: s.child <= i < |C| && Visited(C, k.slots, i) ==> !k.slots[i].Fresh?;
    FinishLineOk(C, p, s, r, k, k.ch + 1, false, k.soft);
  }

  lemma FinishNoFitOk(C: seq<Child>, p: Page, s: State, r: Room, k: Cursor)
    requires WellFormed(C, s) && s.child < |C| && ScanDone(C, s, k) && k.result.NoFit?
    ensures WellFormed(C, Finish(C, p, s, r, k))
    ensures Finish(C, p, s, r, k).child == k.ch
  {
    assert forall i :: s.child <= i < |C| && Visited(C, k.slots, i) ==> !k.slots[i].Fresh?;
    if k.ch == s.child {
      assert Ahead(C, k.slots, k.ch, k.pending, k.ch, true);
    } else {
      FinishLineOk(C, p, s, r, k, k.ch, true, true);
    }
  }

  lemma FinishOk(C: seq<Child>, p: Page, s: State, r: Room, k: Cursor)
    requires WellFormed(C, s) && s.child < |C| && ScanDone(C, s, k)
    ensures WellFormed(C, Finish(C, p, s, r, k))
    ensures s.child <= Finish(C, p, s, r, k).child
    ensures !k.result.Floating? && !(k.result.NoFit? && k.ch == s.child) ==> s.child < Finish(C, p, s, r, k).child
  {
    match k.result
    case Fits => FinishFitsOk(C, p, s, r, k);
    case Newline(_, _) => FinishNewlineOk(C, p, s, r, k);
    case NoFit => FinishNoFitOk(C, p, s, r, k);
    case Floating => PlaceFloatOk(C, s, r, k);
  }

  lemma PlaceFloatOk(C: seq<Child>, s: State, r: Room, k: Cursor)
    requires WellFormed(C, s) && k.ch < |C| && StopOk(C, s, k) && k.result.Floating?
    ensures WellFormed(C, PlaceFloat(C, s, r, k))
  {
    var t := PlaceFloat(C, s, r, k);
    forall i | s.child <= i < k.ch
      ensures Visited(C, t.slots, i)
    {
      assert Visited(C, k.slots, i);
    }
    assert Visited(C, t.slots, k.ch);
  }

  lemma PassWellFormed(C: seq<Child>, p: Page, s: State)
    requires WellFormed(C, s) && s.child < |C|
    ensures WellFormed(C, Pass(C, p, s))
    ensures s.child <= Pass(C, p, s).child
  {
    LineScanOk(C, p, s);
    FinishOk(C, p, s, RoomFor(C, p, s), LineScan(C, p, s));
  }

  lemma PassFinishes(C: seq<Child>, p: Page, s: State)
    requires WellFormed(C, s) && s.child < |C|
    ensures var k := LineScan(C, p, s);
            && s.child <= k.ch <= |C| == |k.slots| && (k.ch == |C| ==> k.result.Fits?)
            && (k.result.Floating? ==> C[k.ch].Box?)
            && Pass(C, p, s) == Finish(C, p, s, RoomFor(C, p, s), k)
  {
    LineScanOk(C, p, s);
  }

  /** The first child of the line does not fit. */
  predicate MovesDown(C: seq<Child>, p: Page, s: State)
    requires s.child < |C| == |s.slots|
  {
    LineScan(C, p, s).result.NoFit? && LineScan(C, p, s).ch == s.child
  }

  lemma ScanTwo(C: seq<Child>, r: Room, force: bool, k: Cursor, k1: Cursor, k2: Cursor)
    requires k.ch < |C| == |k.slots| && k1.ch < |C| == |k1.slots|
    requires ScanChild(C, r, force, k) == (k1, false) && ScanChild(C, r, force, k1) == (k2, true)
    ensures Scan(C, r, force, k) == k2
  {
    assert Scan(C, r, force, k1) == k2;
  }

  /** A pass whose scan is known. */
  lemma PassIs(C: seq<Child>, p: Page, s: State, r: Room, k: Cursor)
    requires s.child < |C| == |s.slots| && r == RoomFor(C, p, s) && k == Scan(C, r, s.force, StartCursor(s, r))
    requires s.child <= k.ch < |C| && !k.result.Floating?
    ensures Pass(C, p, s) == Finish(C, p, s, r, k)
  {
  }

  // ------------------------------------------------------------------------
  // Termination

  /** The floats from a child on that have not been placed. */
  function Unplaced(C: seq<Child>, slots: seq<Slot>, i: nat): nat
    requires i <= |C| == |slots|
    decreases |C| - i
  {
    if i == |C| then 0
    else (if C[i].Floats() && !slots[i].Aligned? then 1 else 0) + Unplaced(C, slots, i + 1)
  }

  /** The margins still open at the y of the state. */
  function OpenCount(s: State): nat {
    |Open(s.lm, s.y)| + |Open(s.rm, s.y)|
  }

  lemma {:induction false} UnplacedSame(C: seq<Child>, a: seq<Slot>, b: seq<Slot>, i: nat)
    requires i <= |C| == |a| == |b|
    requires forall j :: i <= j < |C| && C[j].Floats() ==> (a[j].Aligned? <==> b[j].Aligned?)
    ensures Unplaced(C, a, i) == Unplaced(C, b, i)
    decreases |C| - i
  {
    if i < |C| {
      UnplacedSame(C, a, b, i + 1);
    }
  }

  lemma {:induction false} UnplacedLess(C: seq<Child>, a: seq<Slot>, b: seq<Slot>, i: nat, f: nat)
    requires i <= f < |C| == |a| == |b|
    requires C[f].Floats() && !a[f].Aligned? && b[f].Aligned?
    requires forall j :: i <= j < |C| && j != f && C[j].Floats() ==> (a[j].Aligned? <==> b[j].Aligned?)
    ensures Unplaced(C, b, i) < Unplaced(C, a, i)
    decreases f - i
  {
    if i == f {
      UnplacedSame(C, a, b, i + 1);
    } else {
      UnplacedLess(C, a, b, i + 1, f);
    }
  }

  /** A scan aligns nothing and moves nothing that is aligned. */
  lemma {:induction false} ScanKeepsAligned(C: seq<Child>, r: Room, force: bool, k: Cursor)
    requires k.ch <= |C| == |k.slots|
    requires k.retry ==> k.pending.Some?
    requires forall j :: k.ch <= j < |C| && k.slots[j].Aligned? ==> C[j].Floats() && Before(k.pending, j)
    ensures forall j :: 0 <= j < |C| ==>
              if k.slots[j].Aligned? then Scan(C, r, force, k).slots[j] == k.slots[j]
              else !Scan(C, r, force, k).slots[j].Aligned?
    ensures forall j :: 0 <= j < k.ch ==> Scan(C, r, force, k).slots[j] == k.slots[j]
    decreases |C| - k.ch
  {
    if k.ch < |C| {
      var (k1, stop) := ScanChild(C, r, force, k);
      if !stop {
        ScanKeepsAligned(C, r, force, k1);
      }
    }
  }

  function Force01(s: State): nat { if s.force then 0 else 1 }

  /** The margins in a state are staircases, with nothing open under force. */
  ghost predicate Sound(s: State) {
    && Staircase(s.lm) && Staircase(s.rm) && DeepestFirst(s.lm)
    && (s.force ==> Open(s.lm, s.y) == [] && Open(s.rm, s.y) == [])
  }

  lemma RoomOk(C: seq<Child>, p: Page, s: State)
    requires s.child < |C| && Sound(s)
    ensures var r := RoomFor(C, p, s);
            && s.y <= r.y
            && Staircase(r.lm) && Staircase(r.rm) && DeepestFirst(r.lm)
            && r.lm == Open(s.lm, r.y) && r.rm == Open(s.rm, r.y)
            && |r.lm| + |r.rm| <= OpenCount(s)
            && (forall m <- r.lm :: m.y > r.y) && (forall m <- r.rm :: m.y > r.y)
            && (forall m <- r.lm :: m in s.lm) && (forall m <- r.rm :: m in s.rm)
            && (!r.bullet ==> forall m <- r.lm :: m.indent <= r.left)
            && (r.bullet && !s.retry ==> forall m <- r.lm :: m.indent < r.left)
            && Open(r.lm, r.y) == r.lm && Open(r.rm, r.y) == r.rm
  {
    var r := RoomFor(C, p, s);
    var c := C[Leader(C, s.child)];
    FindIndentExact(s.lm, s.y, c.left);
    FindIndentExact(s.lm, s.y, c.left + 1);
    OpenStaircase(s.lm, r.y);
    OpenStaircase(s.rm, r.y);
    OpenDeepest(s.lm, r.y);
    OpenShrinks(s.lm, s.y, r.y);
    OpenShrinks(s.rm, s.y, r.y);
    OpenOpen(s.lm, r.y, r.y);
    OpenOpen(s.rm, r.y, r.y);
  }

  /** The indents of the left margins open at a retried bullet are no deeper than its own. */
  ghost predicate RetryIndents(C: seq<Child>, s: State) {
    s.retry && s.child < |C| ==>
      forall m <- Open(s.lm, s.y) :: m.indent <= C[Leader(C, s.child)].left
  }

  lemma RoomIndents(C: seq<Child>, p: Page, s: State)
    requires s.child < |C| && Sound(s) && RetryIndents(C, s)
    ensures forall m <- RoomFor(C, p, s).lm :: m.indent <= RoomFor(C, p, s).left
  {
    RoomOk(C, p, s);
  }

  /** Placing a float keeps the margins in order, whatever the room, if no margin is indented
      deeper than the float. */
  lemma PlacedInOrder(C: seq<Child>, s: State, r: Room, k: Cursor)
    requires s.child <= k.ch < |C| == |k.slots| && C[k.ch].Box?
    requires Staircase(r.lm) && Staircase(r.rm) && DeepestFirst(r.lm) && forall m <- r.lm :: m.indent <= r.left
    ensures var t := PlaceFloat(C, s, r, k); Sound(t) && forall m <- Open(t.lm, t.y) :: m.indent <= r.left
  {
    var c := C[k.ch];
    AddStaircase(r.rm, r.y + c.h, c.w, r.left);
    AddedInOrder(r.lm, r.y, r.y + c.h, c.w, r.left);
    OpenMembers(r.lm, r.y);
  }

  lemma OpenMembers(ms: seq<Margin>, y: int)
    requires Staircase(ms)
    ensures forall m <- Open(ms, y) :: m in ms
  {
    OpenStaircase(ms, y);
  }

  lemma AddedInOrder(ms: seq<Margin>, y: int, bottom: int, w: nat, indent: nat)
    requires Staircase(ms) && DeepestFirst(ms) && forall m <- ms :: m.indent <= indent
    ensures var a := Add(ms, bottom, w, indent);
            Staircase(a) && DeepestFirst(a) && forall m <- Open(a, y) :: m.indent <= indent
  {
    AddStaircase(ms, bottom, w, indent);
    AddDeepest(ms, bottom, w, indent);
    OpenMembers(ms, bottom);
    OpenMembers(Add(ms, bottom, w, indent), y);
  }

  lemma PlaceFloatSound(C: seq<Child>, p: Page, s: State, k: Cursor)
    requires s.child <= k.ch < |C| == |k.slots| && C[k.ch].Box?
    requires Sound(s) && RetryIndents(C, s)
    ensures var t := PlaceFloat(C, s, RoomFor(C, p, s), k); Sound(t) && RetryIndents(C, t)
  {
    RoomIndents(C, p, s);
    RoomOk(C, p, s);
    PlacedInOrder(C, s, RoomFor(C, p, s), k);
  }

  /** Moving down goes at least to the y of the room, and further exactly if some margin is in
      the way. */
  lemma MoveDownFinds(p: Page, s: State, r: Room, k: Cursor)
    requires Staircase(r.lm) && Staircase(r.rm)
    requires (forall m <- r.lm :: m.y > r.y) && forall m <- r.rm :: m.y > r.y
    ensures var t := MoveDown(p, s, r, k);
            var need := k.last - r.base + Indent(r.left) + Indent(r.right) + 2 * p.hmargin;
            && r.y <= t.y && (t.force <==> t.y == r.y)
            && (t.y > r.y <==> (r.lm != [] || r.rm != []) && Head(r.lm) + Head(r.rm) > p.width - need)
            && (t.y == r.y || EndsAt(r.lm, t.y) || EndsAt(r.rm, t.y))
            && (FitsAt(r.lm, r.rm, t.y, p.width - need) || (Open(r.lm, t.y) == [] && Open(r.rm, t.y) == []))
  {
    FindExact(r.lm, r.rm, r.y, p.width - (k.last - r.base + Indent(r.left) + Indent(r.right) + 2 * p.hmargin));
  }

  lemma MoveDownSound(C: seq<Child>, p: Page, s: State, k: Cursor)
    requires s.child < |C| && Sound(s) && k.last > RoomFor(C, p, s).width
    ensures Sound(MoveDown(p, s, RoomFor(C, p, s), k))
  {
    RoomOk(C, p, s);
    MoveDownFinds(p, s, RoomFor(C, p, s), k);
  }

  lemma PassSound(C: seq<Child>, p: Page, s: State)
    requires WellFormed(C, s) && s.child < |C| && Sound(s) && RetryIndents(C, s)
    ensures Sound(Pass(C, p, s)) && RetryIndents(C, Pass(C, p, s))
  {
    LineScanOk(C, p, s);
    var k := LineScan(C, p, s);
    if k.result.Floating? {
      PlaceFloatSound(C, p, s, k);
    } else if k.result.NoFit? && k.ch == s.child {
      ScanShape(C, RoomFor(C, p, s), s.force, StartCursor(s, RoomFor(C, p, s)));
      MoveDownSound(C, p, s, k);
    } else {
      RoomOk(C, p, s);
    }
  }

  // ------------------------------------------------------------------------
  // The run

  ghost predicate Ready(C: seq<Child>, s: State) {
    WellFormed(C, s) && Sound(s) && RetryIndents(C, s)
  }

  /** The measure of the outer loop: children left, floats among them still to be placed,
      margins still open, force not yet asked for. */
  ghost predicate Progress(C: seq<Child>, s: State, t: State)
    requires s.child <= |C| == |s.slots| && t.child <= |C| == |t.slots|
  {
    || s.child < t.child
    || (s.child == t.child &&
        (|| Unplaced(C, t.slots, t.child) < Unplaced(C, s.slots, s.child)
         || (Unplaced(C, t.slots, t.child) == Unplaced(C, s.slots, s.child) &&
             (OpenCount(t) < OpenCount(s) || (OpenCount(t) == OpenCount(s) && t.force && !s.force)))))
  }

  lemma LineScanKeeps(C: seq<Child>, p: Page, s: State)
    requires WellFormed(C, s) && s.child < |C|
    ensures |LineScan(C, p, s).slots| == |C|
    ensures forall j :: 0 <= j < |C| ==>
              if s.slots[j].Aligned? then LineScan(C, p, s).slots[j] == s.slots[j]
              else !LineScan(C, p, s).slots[j].Aligned?
  {
    forall j | s.child <= j < |C| && s.slots[j].Aligned?
      ensures C[j].Floats() && Before(s.pending, j)
    {
      assert Before(s.pending, j) ==> Visited(C, s.slots, j);
    }
    var r := RoomFor(C, p, s);
    ScanKeepsAligned(C, r, s.force, StartCursor(s, r));
  }

  lemma MoveDownProgress(C: seq<Child>, p: Page, s: State)
    requires Ready(C, s) && s.child < |C|
    requires LineScan(C, p, s).result.NoFit? && LineScan(C, p, s).ch == s.child
    ensures WellFormed(C, Pass(C, p, s)) && Progress(C, s, Pass(C, p, s))
  {
    PassWellFormed(C, p, s);
    var r, k := RoomFor(C, p, s), LineScan(C, p, s);
    var t := MoveDown(p, s, r, k);
    LineScanOk(C, p, s);
    LineScanKeeps(C, p, s);
    UnplacedSame(C, s.slots, k.slots, s.child);
    RoomOk(C, p, s);
    FindExact(r.lm, r.rm, r.y, p.width - (k.last - r.base + Indent(r.left) + Indent(r.right) + 2 * p.hmargin));
    assert t.force || OpenCount(t) < |r.lm| + |r.rm|;
    assert t.force ==> OpenCount(t) == |r.lm| + |r.rm|;
  }

  lemma PlaceFloatProgress(C: seq<Child>, p: Page, s: State)
    requires Ready(C, s) && s.child < |C|
    requires LineScan(C, p, s).result.Floating?
    ensures WellFormed(C, Pass(C, p, s)) && Progress(C, s, Pass(C, p, s))
  {
    PassWellFormed(C, p, s);
    var k := LineScan(C, p, s);
    var t := Pass(C, p, s);
    LineScanOk(C, p, s);
    LineScanKeeps(C, p, s);
    UnplacedSame(C, s.slots, k.slots, s.child);
    UnplacedLess(C, k.slots, t.slots, s.child, k.ch);
  }

  /** Every pass makes progress: it consumes children, or places a float, or gets below a
      margin, or is about to be forced. */
  lemma PassProgress(C: seq<Child>, p: Page, s: State)
    requires Ready(C, s) && s.child < |C|
    ensures Ready(C, Pass(C, p, s)) && Progress(C, s, Pass(C, p, s))
  {
    var k := LineScan(C, p, s);
    PassSound(C, p, s);
    PassWellFormed(C, p, s);
    LineScanOk(C, p, s);
    FinishOk(C, p, s, RoomFor(C, p, s), k);
    if k.result.Floating? {
      PlaceFloatProgress(C, p, s);
    } else if k.result.NoFit? && k.ch == s.child {
      MoveDownProgress(C, p, s);
    }
  }

  /** The outer loop, run to its end. */
  function Run(C: seq<Child>, p: Page, s: State): (t: State)
    requires Ready(C, s)
    ensures Ready(C, t) && t.child == |C|
    decreases |C| - s.child, Unplaced(C, s.slots, s.child), OpenCount(s), Force01(s)
  {
    if s.child == |C| then s
    else
      PassProgress(C, p, s);
      Run(C, p, Pass(C, p, s))
  }

  /** The state in which a layout from the top begins. */
  function Start(C: seq<Child>, p: Page): State {
    State(0, p.vmargin, false, false, false, None, false, [], [], [], seq(|C|, _ => Fresh))
  }

  function Height(p: Page, t: State): int {
    Find(t.lm, t.rm, t.y, 0) + p.vmargin
  }

  /** A layout from the top ends, with every child aligned. */
  lemma LayoutEnds(C: seq<Child>, p: Page)
    ensures Ready(C, Start(C, p))
    ensures forall i :: 0 <= i < |C| ==> Run(C, p, Start(C, p)).slots[i].Aligned?
  {
  }

  /** A run of three passes. */
  lemma ThreePasses(C: seq<Child>, p: Page, s0: State, s1: State, s2: State)
    requires Ready(C, s0) && s0.child < |C| && Pass(C, p, s0) == s1
    requires s1.child < |C| == |s1.slots| && Pass(C, p, s1) == s2
    requires s2.child < |C| == |s2.slots| && Pass(C, p, s2).child == |C|
    ensures Ready(C, s1) && Ready(C, s2) && Run(C, p, s0) == Pass(C, p, s2)
  {
    PassProgress(C, p, s0);
    PassProgress(C, p, s1);
    PassProgress(C, p, s2);
    assert Run(C, p, s2) == Run(C, p, Pass(C, p, s2));
    assert Run(C, p, s0) == Run(C, p, s1) == Run(C, p, s2);
  }

  ghost predicate LinesFrom(lines: seq<Line>, y: int) {
    forall l <- lines :: l.y >= y
  }

  lemma {:induction false} RunLinesFrom(C: seq<Child>, p: Page, s: State, y: int)
    requires Ready(C, s) && LinesFrom(s.lines, y) && s.y >= y
    ensures LinesFrom(Run(C, p, s).lines, y) && Run(C, p, s).y >= s.y
    decreases |C| - s.child, Unplaced(C, s.slots, s.child), OpenCount(s), Force01(s)
  {
    if s.child < |C| {
      PassProgress(C, p, s);
      PassGoesDown(C, p, s);
      RunLinesFrom(C, p, Pass(C, p, s), y);
    }
  }

  lemma PassGoesDown(C: seq<Child>, p: Page, s: State)
    requires Ready(C, s) && s.child < |C|
    ensures var t := Pass(C, p, s);
            t.y >= s.y && forall l <- t.lines :: l in s.lines || l.y >= s.y
  {
    RoomOk(C, p, s);
    LineScanOk(C, p, s);
    MoveDownFinds(p, s, RoomFor(C, p, s), LineScan(C, p, s));
    FinishGoesDown(C, p, s, RoomFor(C, p, s), LineScan(C, p, s));
  }

  lemma FinishGoesDown(C: seq<Child>, p: Page, s: State, r: Room, k: Cursor)
    requires s.child <= k.ch <= |C| == |k.slots| && (k.ch == |C| ==> k.result.Fits?) && (k.result.Floating? ==> C[k.ch].Box?)
    requires s.y <= r.y <= MoveDown(p, s, r, k).y
    ensures var t := Finish(C, p, s, r, k);
            t.y >= s.y && forall l <- t.lines :: l in s.lines || l.y >= s.y
  {
  }

  ghost predicate Eating(s: State) {
    forall m <- s.lm + s.rm :: m.eaten > 0
  }

  lemma PassEating(C: seq<Child>, p: Page, s: State)
    requires Ready(C, s) && s.child < |C| && Eating(s)
    requires forall i :: 0 <= i < |C| && C[i].Floats() ==> C[i].w > 0
    ensures Eating(Pass(C, p, s))
  {
    RoomOk(C, p, s);
    LineScanOk(C, p, s);
    PassFinishes(C, p, s);
    var r, k, t := RoomFor(C, p, s), LineScan(C, p, s), Pass(C, p, s);
    assert forall m <- s.lm :: m in s.lm + s.rm;
    assert forall m <- s.rm :: m in s.lm + s.rm;
    if k.result.Floating? {
      PlaceFloatEating(C, s, r, k);
    }
  }

  lemma PlaceFloatEating(C: seq<Child>, s: State, r: Room, k: Cursor)
    requires k.ch < |C| == |k.slots| && C[k.ch].Box? && C[k.ch].w > 0
    requires Staircase(r.lm) && Staircase(r.rm)
    requires (forall m <- r.lm :: m.eaten > 0) && (forall m <- r.rm :: m.eaten > 0)
    ensures Eating(PlaceFloat(C, s, r, k))
  {
    AddMembers(r.lm, r.y + C[k.ch].h, C[k.ch].w, r.left);
    AddMembers(r.rm, r.y + C[k.ch].h, C[k.ch].w, r.left);
    var t := PlaceFloat(C, s, r, k);
    assert (forall m <- t.lm :: m.eaten > 0) && (forall m <- t.rm :: m.eaten > 0);
  }

  /** Unless some float has no width, the height of a body reaches below every float, and the
      margin lists are empty again when a layout is over. */
  lemma {:induction false} MarginsEndEmpty(C: seq<Child>, p: Page, s: State)
    requires Ready(C, s) && Eating(s)
    requires forall i :: 0 <= i < |C| && C[i].Floats() ==> C[i].w > 0
    ensures var t := Run(C, p, s); Open(t.lm, Height(p, t)) == [] && Open(t.rm, Height(p, t)) == []
    decreases |C| - s.child, Unplaced(C, s.slots, s.child), OpenCount(s), Force01(s)
  {
    if s.child < |C| {
      PassProgress(C, p, s);
      PassEating(C, p, s);
      MarginsEndEmpty(C, p, Pass(C, p, s));
    } else {
      FindClearsAll(s.lm, s.rm, s.y, Height(p, s));
    }
  }
}
