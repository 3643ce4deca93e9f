/** Bullets, which are put left of the indent of their line.

    A line led by a bullet goes below the left margins of its own indent, and not only below those of a
    deeper one.  So there is room for a narrow bullet beside every float that stands.  When a float comes
    on the line itself, the line is tried again, and the bullet is skipped: it stays at the x it had, and
    the line is as high as what else is on it.
 */
module LayoutBullets {
  import opened Basics
  import opened Margins
  import opened Layout
  import opened LayoutRun
  import opened LayoutSafety
  import opened LayoutRestartFloats

  // ------------------------------------------------------------------------
  // One float and one bullet

  /** Where a left float goes, and the margin it leaves at the head of the list. */
  lemma LeftFloatLands(C: seq<Child>, p: Page, s: State)
    requires s.child < |C| == |s.slots| && LineScan(C, p, s).result.Floating?
    ensures var r, k, t := RoomFor(C, p, s), LineScan(C, p, s), Pass(C, p, s);
            && k.ch < |C| && C[k.ch].Box? && |t.slots| == |C|
            && (!C[k.ch].role.FloatRight? ==>
                  && t.slots[k.ch] == Aligned(r.base, r.y) && t.lm != []
                  && t.lm[0] == Margin(r.y + C[k.ch].h, C[k.ch].w + Head(r.lm), r.left))
  {
    ScanShape(C, RoomFor(C, p, s), s.force, StartCursor(s, RoomFor(C, p, s)));
  }

  /** A left float was placed from s, and its margin is at the head at the line of u, which a bullet
      leads.  The bullet begins clear of the float if and only if it is narrow enough for the indents
      between them, or the float was not indented. */
  lemma BulletClearExactly(C: seq<Child>, p: Page, s: State, u: State)
    requires s.child < |C| == |s.slots| && LineScan(C, p, s).result.Floating?
    requires LineScan(C, p, s).ch < |C| && C[LineScan(C, p, s).ch].Box? && !C[LineScan(C, p, s).ch].role.FloatRight?
    requires u.child < |C| && RoomFor(C, p, u).bullet
    requires RoomFor(C, p, u).lm != [] && Pass(C, p, s).lm != [] && RoomFor(C, p, u).lm[0] == Pass(C, p, s).lm[0]
    ensures |Pass(C, p, s).slots| == |C| && Pass(C, p, s).slots[LineScan(C, p, s).ch].Aligned?
    ensures var r, r', f := RoomFor(C, p, s), RoomFor(C, p, u), LineScan(C, p, s).ch;
            Pass(C, p, s).slots[f].x + C[f].w <= r'.startx <==>
              C[Leader(C, u.child)].w + 8 <= Indent(r'.left) - Indent(r.left) || r.left == 0
  {
    LeftFloatLands(C, p, s);
  }

  // ------------------------------------------------------------------------
  // The tries of a bullet's line

  /** The line of a bullet is begun, or begun again further down, with no float placed ahead of it. */
  ghost predicate FreshTry(C: seq<Child>, p: Page, s: State) {
    && Ready(C, s) && s.child < |C| && C[s.child].IsBullet() && C[s.child].visible
    && !s.retry && !s.force && s.pending.None?
  }

  lemma FreshRoom(C: seq<Child>, p: Page, s: State)
    requires FreshTry(C, p, s)
    ensures var r, c := RoomFor(C, p, s), C[s.child];
            && r.bullet && r.left == c.left && r.halign == c.halign && s.y <= r.y && r.startx <= r.base
            && r.startx == Max(r.base - Indent(r.left), r.base - 8 - c.w) && r.base == p.hmargin + Head(r.lm) + Indent(r.left)
            && forall m <- r.lm :: m.indent < r.left
  {
    assert SeekVisible(C, s.child) == s.child;
    RoomOk(C, p, s);
  }

  /** What a scan has taken into account stays so, and a float that it stops at fits. */
  lemma {:induction false} ScanGrows(C: seq<Child>, r: Room, force: bool, k: Cursor)
    requires k.ch <= |C| == |k.slots| && k.endx <= k.startx && k.result.Fits?
    ensures var k' := Scan(C, r, force, k);
            && k.above <= k'.above && k.below <= k'.below && k.toph <= k'.toph && k.endx <= k'.endx && k.startx <= k'.startx
            && (forall j :: 0 <= j < k.ch ==> k'.slots[j] == k.slots[j])
            && (k'.result.Floating? ==> k'.ch < |C| && C[k'.ch].Box? && (force || k'.startx + C[k'.ch].w <= r.width))
    decreases |C| - k.ch
  {
    if k.ch < |C| {
      ChildGrows(C, r, force, k);
      var (k1, stop) := ScanChild(C, r, force, k);
      if !stop {
        ScanGrows(C, r, force, k1);
      }
    }
  }

  lemma ChildGrows(C: seq<Child>, r: Room, force: bool, k: Cursor)
    requires k.ch < |C| == |k.slots| && k.endx <= k.startx
    ensures var (k', stop) := ScanChild(C, r, force, k);
            && k.above <= k'.above && k.below <= k'.below && k.toph <= k'.toph && k.endx <= k'.endx && k.startx <= k'.startx
            && |k'.slots| == |C| && (forall j :: 0 <= j < k.ch ==> k'.slots[j] == k.slots[j])
            && (k'.result.Floating? ==> C[k.ch].Box? && (force || k'.startx + C[k.ch].w <= r.width))
            && k'.ch == (if stop then k.ch else k.ch + 1)
            && (!stop ==> k'.result.Fits? && k'.endx <= k'.startx)
  {
  }

  /** Unless the bullet itself does not fit, it is laid out in front of the room, and all else in the
      room. */
  lemma FreshScan(C: seq<Child>, p: Page, s: State)
    requires FreshTry(C, p, s) && !MovesDown(C, p, s)
    ensures var r, k, c := RoomFor(C, p, s), LineScan(C, p, s), C[s.child];
            && s.child < k.ch <= |C| == |k.slots| && k.slots[s.child] == Laid(r.startx)
            && r.startx + c.w <= k.endx && r.startx + c.w <= r.width && Covers(c, k.above, k.below, k.toph)
            && (k.result.Floating? ==>
                  k.ch < |C| && C[k.ch].Box? && r.base <= k.startx && k.startx + C[k.ch].w <= r.width)
  {
    FreshRoom(C, p, s);
    var r := RoomFor(C, p, s);
    var k := StartCursor(s, r);
    FreshBullet(C, r, k);
    var (k1, stop) := ScanChild(C, r, s.force, k);
    if !stop {
      ScanGrows(C, r, s.force, k1);
      ScanShape(C, r, s.force, k1);
    }
  }

  lemma FreshBullet(C: seq<Child>, r: Room, k: Cursor)
    requires k.ch < |C| == |k.slots| && C[k.ch].IsBullet() && C[k.ch].visible && k.bullet && !k.retry && k.pending.None?
    requires k.above == k.below == k.toph == k.endx == 0 && k.startx <= r.base
    ensures var (k1, stop) := ScanChild(C, r, false, k);
            if k.startx + C[k.ch].w > r.width then stop && k1.result.NoFit? && k1.ch == k.ch
            else
              && !stop && k1.ch == k.ch + 1 && k1.result.Fits? && |k1.slots| == |C| && k1.slots[k.ch] == Laid(k.startx)
              && k1.endx == k.startx + C[k.ch].w <= k1.startx && r.base <= k1.startx
              && Covers(C[k.ch], k1.above, k1.below, k1.toph)
  {
  }

  /** The line is tried again because a float came.  The bullet is at x, and the room now begins at
      base or further to the right. */
  ghost predicate Retried(C: seq<Child>, p: Page, s: State, x: int, base: int, y: int) {
    && Ready(C, s) && s.child < |C| && C[s.child].IsBullet() && C[s.child].visible
    && s.retry && !s.force && s.y == y && s.slots[s.child] == Laid(x) && base <= RoomFor(C, p, s).base
  }

  lemma RetriedRoom(C: seq<Child>, p: Page, s: State, x: int, base: int, y: int)
    requires Retried(C, p, s, x, base, y)
    ensures var r := RoomFor(C, p, s);
            r.bullet && r.left == C[s.child].left && r.halign == C[s.child].halign && r.y == y && r.startx <= r.base && base <= r.base
  {
    assert SeekVisible(C, s.child) == s.child;
  }

  lemma RetriedBullet(C: seq<Child>, r: Room, k: Cursor)
    requires k.ch < |C| == |k.slots| && C[k.ch].IsBullet() && C[k.ch].visible && k.bullet && k.retry
    requires k.above == k.below == k.toph == k.endx == 0 && k.startx <= r.base
    ensures var (k1, stop) := ScanChild(C, r, false, k);
            && k1.result.Fits? && k1.slots == k.slots && k1.above == k1.below == k1.toph == 0
            && if stop then k1.ch == k.ch else k1.ch == k.ch + 1 && k1.endx <= k1.startx && r.base <= k1.startx
  {
    assert k.slots[k.ch := k.slots[k.ch]] == k.slots;
  }

  /** The bullet is skipped, and all else is in the room. */
  lemma RetriedScan(C: seq<Child>, p: Page, s: State, x: int, base: int, y: int)
    requires Retried(C, p, s, x, base, y)
    ensures var r, k := RoomFor(C, p, s), LineScan(C, p, s);
            && s.child <= k.ch <= |C| == |k.slots| && k.slots[s.child] == Laid(x) && !MovesDown(C, p, s)
            && 0 <= k.above && 0 <= k.below && (k.ch == s.child ==> k.result.Fits?)
            && (k.result.Floating? ==>
                  k.ch < |C| && C[k.ch].Box? && r.base <= k.startx && k.startx + C[k.ch].w <= r.width)
  {
    RetriedRoom(C, p, s, x, base, y);
    var r := RoomFor(C, p, s);
    var k := StartCursor(s, r);
    RetriedBullet(C, r, k);
    var (k1, stop) := ScanChild(C, r, s.force, k);
    if !stop {
      ScanGrows(C, r, s.force, k1);
      ScanShape(C, r, s.force, k1);
    }
  }

  // ------------------------------------------------------------------------
  // A float comes on the line

  lemma HeadGrows(ms: seq<Margin>, y: int, h: nat, w: nat, indent: int)
    requires Staircase(ms) && Open(ms, y) == ms
    ensures Head(Open(Add(ms, y + h, w, indent), y)) >= Head(ms)
  {
    if h == 0 {
      assert Add(ms, y, w, indent)[1..] == ms;
    }
  }

  /** A float that fits is placed in the room, and leaves a room that begins no further to the left. */
  lemma FloatFits(C: seq<Child>, p: Page, s: State)
    requires Ready(C, s) && s.child < |C| && C[s.child].IsBullet() && C[s.child].visible && LineScan(C, p, s).result.Floating?
    requires var r, k := RoomFor(C, p, s), LineScan(C, p, s);
             s.child < k.ch < |C| && C[k.ch].Box? && r.base <= k.startx && k.startx + C[k.ch].w <= r.width
    ensures var r, k, t := RoomFor(C, p, s), LineScan(C, p, s), Pass(C, p, s);
            && Ready(C, t) && t.child == s.child && t.retry && !t.force && t.y == r.y
            && t.slots == k.slots[k.ch := t.slots[k.ch]] && C[k.ch].Floats() && t.slots[k.ch].Aligned? && r.base <= t.slots[k.ch].x
            && (!C[k.ch].role.FloatRight? ==> t.slots[k.ch].x == r.base)
            && r.base <= RoomFor(C, p, t).base
  {
    PassProgress(C, p, s);
    LineScanOk(C, p, s);
    RoomOk(C, p, s);
    var r, c := RoomFor(C, p, s), C[LineScan(C, p, s).ch];
    HeadGrows(r.lm, r.y, c.h, c.w, r.left);
    assert SeekVisible(C, s.child) == s.child;
  }

  lemma FreshFloats(C: seq<Child>, p: Page, s: State)
    requires FreshTry(C, p, s) && LineScan(C, p, s).result.Floating?
    ensures var r, k, t := RoomFor(C, p, s), LineScan(C, p, s), Pass(C, p, s);
            && Retried(C, p, t, r.startx, r.base, r.y) && t.child == s.child < k.ch < |C| && r.base <= r.width
            && C[k.ch].Floats() && t.slots[k.ch].Aligned? && r.base <= t.slots[k.ch].x
            && (!C[k.ch].role.FloatRight? ==> t.slots[k.ch].x == r.base)
  {
    FreshScan(C, p, s);
    FloatFits(C, p, s);
  }

  lemma RetriedFloats(C: seq<Child>, p: Page, s: State, x: int, base: int, y: int)
    requires Retried(C, p, s, x, base, y) && LineScan(C, p, s).result.Floating?
    ensures var k, t := LineScan(C, p, s), Pass(C, p, s);
            && Retried(C, p, t, x, base, y) && t.child == s.child < k.ch < |C|
            && C[k.ch].Floats() && t.slots[k.ch].Aligned? && base <= t.slots[k.ch].x
  {
    RetriedScan(C, p, s, x, base, y);
    RetriedRoom(C, p, s, x, base, y);
    FloatFits(C, p, s);
  }

  // ------------------------------------------------------------------------
  // The end of the line

  /** The state of the pass that ends the line. */
  ghost function LineEnd(C: seq<Child>, p: Page, s: State): (e: State)
    requires Ready(C, s) && s.child < |C|
    ensures Ready(C, e) && e.child == s.child && Pass(C, p, e).child > s.child
    decreases |C| - s.child, Unplaced(C, s.slots, s.child), OpenCount(s), Force01(s)
  {
    PassProgress(C, p, s);
    if Pass(C, p, s).child > s.child then s else LineEnd(C, p, Pass(C, p, s))
  }

  /** How far the alignment of the line moves what is on it. */
  ghost function Moved(C: seq<Child>, p: Page, e: State): int
    requires e.child < |C| == |e.slots|
  {
    Shift(RoomFor(C, p, e).halign, LineScan(C, p, e).endx, RoomFor(C, p, e).width)
  }

  /** A pass that ends a line. */
  lemma PassEnds(C: seq<Child>, p: Page, s: State)
    requires Ready(C, s) && s.child < |C| && Pass(C, p, s).child > s.child
    ensures var k := LineScan(C, p, s);
            && s.child < Accepted(C, k) <= |C| == |k.slots| && !k.result.Floating?
            && exists more, soft :: Pass(C, p, s) == FinishLine(C, p, s, RoomFor(C, p, s), k, Accepted(C, k), more, soft)
  {
    PassFinishes(C, p, s);
    LineScanOk(C, p, s);
    var r, k := RoomFor(C, p, s), LineScan(C, p, s);
    match k.result
    case Fits => assert Pass(C, p, s) == FinishLine(C, p, s, r, k, Accepted(C, k), false, true);
    case Newline(_, _) => assert Pass(C, p, s) == FinishLine(C, p, s, r, k, Accepted(C, k), false, k.soft);
    case NoFit => assert Pass(C, p, s) == FinishLine(C, p, s, r, k, Accepted(C, k), true, true);
    case Floating =>
  }

  /** The bullet is aligned with what is on the line. */
  lemma EndAligns(C: seq<Child>, p: Page, s: State, x: int)
    requires Ready(C, s) && s.child < |C| && C[s.child].IsBullet() && Pass(C, p, s).child > s.child
    requires |LineScan(C, p, s).slots| == |C| && LineScan(C, p, s).slots[s.child] == Laid(x)
    ensures var r, k, t := RoomFor(C, p, s), LineScan(C, p, s), Pass(C, p, s);
            && |t.slots| == |C| && t.slots[s.child] == AlignedBullet(C[s.child], x + Moved(C, p, s), r.y, k)
            && r.y + LineHeight(k) <= t.y
  {
    PassEnds(C, p, s);
    var r, k := RoomFor(C, p, s), LineScan(C, p, s);
    var more, soft :| Pass(C, p, s) == FinishLine(C, p, s, r, k, Accepted(C, k), more, soft);
    BottomGoesDown(C, p, s, r, k, Accepted(C, k), more, soft);
  }

  function LineHeight(k: Cursor): int { Max(k.toph, Max(0, k.above + k.below)) }

  /** Where the alignment of a line puts a bullet on it. */
  function AlignedBullet(c: Child, x: int, y: int, k: Cursor): (a: Slot)
    requires c.IsBullet()
    ensures a.Aligned? && a.x == x
  {
    Align(c, Laid(x), 0, y, Max(0, k.above + k.below) - k.below - 1)
  }

  /** The bullet is no higher than the line, on the side where it is aligned. */
  predicate Between(c: Child, k: Cursor)
    requires c.IsBullet()
  {
    match c.valign
    case Bottom => c.h <= k.above
    case Middle => c.h / 2 <= k.above && k.above + c.h - c.h / 2 <= LineHeight(k)
    case Top => c.h <= LineHeight(k)
  }

  /** That is exactly when it lies between the top and the bottom of its line. */
  lemma BetweenExactly(c: Child, x: int, y: int, k: Cursor)
    requires c.IsBullet() && 0 <= k.above && 0 <= k.below
    ensures var a := AlignedBullet(c, x, y, k);
            (y <= a.y && a.y + c.h <= y + LineHeight(k)) <==> Between(c, k)
  {
  }

  lemma CoversIsBetween(c: Child, k: Cursor)
    requires c.IsBullet() && Covers(c, k.above, k.below, k.toph)
    ensures Between(c, k)
  {
  }

  // ------------------------------------------------------------------------
  // The bullet and a float on its line

  /** The retried line ends. */
  lemma RetriedEnds(C: seq<Child>, p: Page, s: State, x: int, base: int, y: int)
    requires Retried(C, p, s, x, base, y) && Pass(C, p, s).child > s.child
    ensures var k, t := LineScan(C, p, s), Pass(C, p, s);
            && |t.slots| == |C| && t.slots[s.child] == AlignedBullet(C[s.child], x + Moved(C, p, s), y, k)
            && y + LineHeight(k) <= t.y && 0 <= k.above && 0 <= k.below
  {
    RetriedScan(C, p, s, x, base, y);
    RetriedRoom(C, p, s, x, base, y);
    EndAligns(C, p, s, x);
  }

  /** What the line of a bullet has come to. */
  ghost predicate EndsAs(C: seq<Child>, p: Page, e: State, a: Slot, x: int, base: int, y: int) {
    Retried(C, p, e, x, base, y) && a == AlignedBullet(C[e.child], x + Moved(C, p, e), y, LineScan(C, p, e))
  }

  /** However often the line is tried again, the bullet keeps its x, but for the alignment of the
      line. */
  lemma {:induction false} RetriedStays(C: seq<Child>, p: Page, s: State, x: int, base: int, y: int)
    requires Retried(C, p, s, x, base, y)
    ensures LineEnd(C, p, s).child == s.child && EndsAs(C, p, LineEnd(C, p, s), Run(C, p, s).slots[s.child], x, base, y)
    decreases |C| - s.child, Unplaced(C, s.slots, s.child), OpenCount(s), Force01(s)
  {
    PassProgress(C, p, s);
    var t := Pass(C, p, s);
    if t.child > s.child {
      RetriedEnds(C, p, s, x, base, y);
      RunKeeps(C, p, t, s.child);
    } else {
      StaysRetried(C, p, s, x, base, y);
      RetriedStays(C, p, t, x, base, y);
    }
  }

  lemma StaysRetried(C: seq<Child>, p: Page, s: State, x: int, base: int, y: int)
    requires Retried(C, p, s, x, base, y) && Pass(C, p, s).child == s.child
    ensures Retried(C, p, Pass(C, p, s), x, base, y) && LineScan(C, p, s).result.Floating?
  {
    RetriedScan(C, p, s, x, base, y);
    StaysFloats(C, p, s);
    RetriedFloats(C, p, s, x, base, y);
  }

  /** A pass that does not end the line moves down or places a float. */
  lemma StaysFloats(C: seq<Child>, p: Page, s: State)
    requires Ready(C, s) && s.child < |C| && Pass(C, p, s).child == s.child
    ensures LineScan(C, p, s).result.Floating? || MovesDown(C, p, s)
  {
    LineScanOk(C, p, s);
    FinishOk(C, p, s, RoomFor(C, p, s), LineScan(C, p, s));
  }

  /** A float comes on the line of a bullet. */
  lemma FloatComes(C: seq<Child>, p: Page, s: State)
    requires FreshTry(C, p, s) && LineScan(C, p, s).result.Floating?
    ensures var r, f, t := RoomFor(C, p, s), LineScan(C, p, s).ch, Run(C, p, s);
            && f < |C| && C[f].Floats() && t.slots[f].Aligned? && (!C[f].role.FloatRight? ==> t.slots[f].x == r.base)
            && EndsAs(C, p, LineEnd(C, p, s), t.slots[s.child], r.startx, r.base, r.y) && LineEnd(C, p, s).child == s.child
  {
    PassProgress(C, p, s);
    FreshFloats(C, p, s);
    var r, t := RoomFor(C, p, s), Pass(C, p, s);
    RetriedStays(C, p, t, r.startx, r.base, r.y);
    RunKeeps(C, p, t, LineScan(C, p, s).ch);
  }

  /** If it is a left float, the bullet is clear of it on the left in the end if and only if its width,
      with how far the line was moved, fits the indent; so if the line is not moved, if and only if its
      width does. */
  lemma FloatOnLine(C: seq<Child>, p: Page, s: State)
    requires FreshTry(C, p, s) && LineScan(C, p, s).result.Floating?
    ensures var i, f, t, dx := s.child, LineScan(C, p, s).ch, Run(C, p, s), Moved(C, p, LineEnd(C, p, s));
            && f < |C| && C[f].Floats() && t.slots[i].Aligned? && t.slots[f].Aligned?
            && (!C[f].role.FloatRight? ==>
                  (t.slots[i].x + C[i].w <= t.slots[f].x <==> dx <= 8 && dx + C[i].w <= Indent(C[i].left)))
            && (C[i].halign.AlignLeft? ==> dx == 0)
  {
    FreshRoom(C, p, s);
    FloatComes(C, p, s);
    var r := RoomFor(C, p, s);
    RetriedRoom(C, p, LineEnd(C, p, s), r.startx, r.base, r.y);
  }

  /** And it lies between the top and the bottom of its line if and only if it is no higher than what
      else is on the line. */
  lemma BulletOnLine(C: seq<Child>, p: Page, s: State)
    requires FreshTry(C, p, s) && LineScan(C, p, s).result.Floating?
    ensures var i, t, y, k := s.child, Run(C, p, s), RoomFor(C, p, s).y, LineScan(C, p, LineEnd(C, p, s));
            && t.slots[i].Aligned?
            && ((y <= t.slots[i].y && t.slots[i].y + C[i].h <= y + LineHeight(k)) <==> Between(C[i], k))
  {
    FloatComes(C, p, s);
    var r, e := RoomFor(C, p, s), LineEnd(C, p, s);
    RetriedScan(C, p, e, r.startx, r.base, r.y);
    BetweenExactly(C[s.child], r.startx + Moved(C, p, e), r.y, LineScan(C, p, e));
  }

  // ------------------------------------------------------------------------
  // The bullet and everything else

  /** As bullets are: nine wide, and indented. */
  ghost predicate Narrow(c: Child) { c.IsBullet() && c.visible && c.w <= 32 && c.left >= 1 }

  /** The pass that ends the line of a bullet: the bullet fits the page; and if a float came on the
      line, the line is hardly moved, and the bullet no higher than what else is on it. */
  ghost predicate EndsWell(C: seq<Child>, p: Page, e: State)
    requires Ready(C, e) && e.child < |C| && C[e.child].IsBullet()
  {
    !e.force && (e.retry ==> Moved(C, p, e) <= 8 && Between(C[e.child], LineScan(C, p, e)))
  }

  /** The line begins with bullet i, no float having been placed ahead of it, and ends well. */
  ghost predicate LeadsWell(C: seq<Child>, p: Page, s: State, i: nat)
    requires Ready(C, s)
    decreases |C| - s.child, Unplaced(C, s.slots, s.child), OpenCount(s), Force01(s)
  {
    s.child < |C| &&
    (PassProgress(C, p, s);
     if s.child == i then FreshTry(C, p, s) && EndsWell(C, p, LineEnd(C, p, s))
     else LeadsWell(C, p, Pass(C, p, s), i))
  }

  /** Every float that still stands on the left ends before the bullet. */
  lemma StandingBeforeBullet(C: seq<Child>, p: Page, s: State, rf: bool, j: nat)
    requires FreshTry(C, p, s) && Narrow(C[s.child]) && Safe(C, p, s, rf)
    requires Placed(C, s.slots, j, rf) && C[j].Floats() && !C[j].role.FloatRight?
    requires RoomFor(C, p, s).y < s.slots[j].y + C[j].h
    ensures s.slots[j].x + C[j].w <= RoomFor(C, p, s).startx
  {
    FreshRoom(C, p, s);
    RoomOk(C, p, s);
    var r, c, a := RoomFor(C, p, s), C[j], s.slots[j];
    assert Accounted(p, c, a, s.y, s.lm, s.rm, r.right);
    var m :| m in s.lm && m.y >= a.y + c.h && a.x + c.w <= p.hmargin + m.eaten + 40 * m.indent;
    OpenStaircase(s.lm, r.y);
    assert m in r.lm;
    HeadDominates(r.lm);
  }

  /** Clear of whatever is put between x and right, at y or below. */
  predicate Clear(c: Child, a: Slot, x: int, right: int, y: int)
    requires c.Box? && a.Aligned?
  {
    a.x + c.w <= x || right <= a.x || a.y + c.h <= y
  }

  lemma OldClear(C: seq<Child>, p: Page, s: State, rf: bool, j: nat)
    requires FreshTry(C, p, s) && Narrow(C[s.child]) && Safe(C, p, s, rf) && Placed(C, s.slots, j, rf)
    ensures var r := RoomFor(C, p, s); Clear(C[j], s.slots[j], r.startx, r.width, r.y)
  {
    FreshRoom(C, p, s);
    var r := RoomFor(C, p, s);
    assert Accounted(p, C[j], s.slots[j], s.y, s.lm, s.rm, r.right);
    if C[j].Floats() && r.y < s.slots[j].y + C[j].h {
      if C[j].role.FloatRight? {
        StandingFloat(C, p, s, rf, j);
      } else {
        StandingBeforeBullet(C, p, s, rf, j);
      }
    }
  }

  /** What is placed with the line is in its room, and moved with it. */
  lemma NewInLine(C: seq<Child>, p: Page, s: State, rf: bool, j: nat)
    requires Safe(C, p, s, rf) && s.child < |C| && Pass(C, p, s).child > s.child && |Pass(C, p, s).slots| == |C|
    requires New(C, s.slots, Pass(C, p, s).slots, j, rf)
    ensures RoomFor(C, p, s).base + Moved(C, p, s) <= Pass(C, p, s).slots[j].x
  {
    PassEnds(C, p, s);
    var r, k := RoomFor(C, p, s), LineScan(C, p, s);
    var more, soft :| Pass(C, p, s) == FinishLine(C, p, s, r, k, Accepted(C, k), more, soft);
    ChildPlaced(C, p, s, rf, Accepted(C, k), more, soft, j);
    LineScanRow(C, p, s);
  }

  /** The end of the line of a bullet: where it is, and that everything placed before is clear of it. */
  ghost predicate EndsAt(C: seq<Child>, p: Page, s: State, b: Slot, x: int, right: int, y: int) {
    && Ready(C, s) && s.child < |C| && C[s.child].IsBullet() && Pass(C, p, s).child > s.child
    && |Pass(C, p, s).slots| == |C| && Pass(C, p, s).slots[s.child] == b && b.Aligned?
    && x <= b.x && b.x + C[s.child].w <= right && y <= b.y && b.y + C[s.child].h <= Pass(C, p, s).y
    && b.x + C[s.child].w <= RoomFor(C, p, s).base + Moved(C, p, s)
  }

  lemma FreshEndsAt(C: seq<Child>, p: Page, s: State)
    requires FreshTry(C, p, s) && Narrow(C[s.child]) && Pass(C, p, s).child > s.child
    ensures var r := RoomFor(C, p, s); EndsAt(C, p, s, Pass(C, p, s).slots[s.child], r.startx, r.width, r.y)
  {
    FreshRoom(C, p, s);
    PassEnds(C, p, s);
    NotDown(C, p, s);
    FreshScan(C, p, s);
    var r, k, c := RoomFor(C, p, s), LineScan(C, p, s), C[s.child];
    EndAligns(C, p, s, r.startx);
    ShiftBounds(r.halign, k.endx, r.width);
    CoversIsBetween(c, k);
    BetweenExactly(c, r.startx + Moved(C, p, s), r.y, k);
  }

  lemma NotDown(C: seq<Child>, p: Page, s: State)
    requires Ready(C, s) && s.child < |C| && Pass(C, p, s).child > s.child
    ensures !MovesDown(C, p, s)
  {
    PassFinishes(C, p, s);
  }

  lemma RetriedEndsAt(C: seq<Child>, p: Page, s: State, x: int, base: int, y: int)
    requires Retried(C, p, s, x, base, y) && Pass(C, p, s).child > s.child && x + C[s.child].w + 8 <= base
    requires EndsWell(C, p, s)
    ensures EndsAt(C, p, s, Pass(C, p, s).slots[s.child], x, base, y)
  {
    RetriedEnds(C, p, s, x, base, y);
    var r, k, c := RoomFor(C, p, s), LineScan(C, p, s), C[s.child];
    ShiftBounds(r.halign, k.endx, r.width);
    BetweenExactly(c, x + Moved(C, p, s), y, k);
  }

  lemma {:induction false} RunPlacesBelow(C: seq<Child>, p: Page, s: State, rf: bool, j: nat)
    requires Safe(C, p, s, rf) && (rf ==> RightSteady(C)) && j < |C| && Compared(C[j], rf) && !s.slots[j].Aligned?
    ensures Run(C, p, s).slots[j].Aligned? ==> Run(C, p, s).slots[j].y >= s.y
    decreases |C| - s.child, Unplaced(C, s.slots, s.child), OpenCount(s), Force01(s)
  {
    if s.child < |C| {
      PassProgress(C, p, s);
      PassSafe(C, p, s, rf);
      PassGoesDown(C, p, s);
      var t := Pass(C, p, s);
      if t.slots[j].Aligned? {
        PassPlacesBelow(C, p, s, rf, j);
        RunKeeps(C, p, t, j);
      } else {
        RunPlacesBelow(C, p, t, rf, j);
      }
    }
  }

  /** What is not placed yet will be placed at or below the y of the state. */
  lemma PassPlacesBelow(C: seq<Child>, p: Page, s: State, rf: bool, j: nat)
    requires Safe(C, p, s, rf) && s.child < |C| && |Pass(C, p, s).slots| == |C|
    requires New(C, s.slots, Pass(C, p, s).slots, j, rf)
    ensures Pass(C, p, s).slots[j].y >= s.y
  {
    LineScanOk(C, p, s);
    LineScanKeeps(C, p, s);
    RoomOk(C, p, s);
    var k := LineScan(C, p, s);
    match k.result
    case Floating => FloatLands(C, p, s, rf); FloatFrame(C, p, s, rf);
    case Fits => LinePlaces(C, p, s, rf, if k.ch < |C| then k.ch + 1 else k.ch, false, true);
    case Newline(_, _) => LinePlaces(C, p, s, rf, k.ch + 1, false, k.soft);
    case NoFit =>
      if k.ch != s.child {
        LinePlaces(C, p, s, rf, k.ch, true, true);
      }
  }

  /** Apart in the end, if both are placed. */
  ghost predicate ApartAfter(C: seq<Child>, t: State, i: nat, j: nat) {
    && |t.slots| == |C| && i < |C| && j < |C| && C[i].Box? && C[j].Box? && t.slots[i].Aligned?
    && (t.slots[j].Aligned? ==> Apart(C[i], t.slots[i], C[j], t.slots[j]))
  }

  lemma EndApart(C: seq<Child>, p: Page, s: State, rf: bool, j: nat, b: Slot, x: int, right: int, y: int)
    requires Safe(C, p, s, rf) && (rf ==> RightSteady(C)) && j < |C| && Compared(C[j], rf) && EndsAt(C, p, s, b, x, right, y)
    requires s.slots[j].Aligned? ==> Clear(C[j], s.slots[j], x, right, y)
    ensures ApartAfter(C, Run(C, p, s), s.child, j)
  {
    PassProgress(C, p, s);
    PassSafe(C, p, s, rf);
    var t := Pass(C, p, s);
    RunKeeps(C, p, t, s.child);
    if s.slots[j].Aligned? {
      PassKeeps(C, p, s, j);
      RunKeeps(C, p, t, j);
    } else if t.slots[j].Aligned? {
      NewInLine(C, p, s, rf, j);
      RunKeeps(C, p, t, j);
    } else {
      RunPlacesBelow(C, p, t, rf, j);
    }
  }

  lemma {:induction false} RetriedApart(C: seq<Child>, p: Page, s: State, rf: bool, j: nat, x: int, base: int, y: int)
    requires Retried(C, p, s, x, base, y) && x + C[s.child].w + 8 <= base && EndsWell(C, p, LineEnd(C, p, s))
    requires Safe(C, p, s, rf) && (rf ==> RightSteady(C)) && j < |C| && Compared(C[j], rf)
    requires s.slots[j].Aligned? ==> Clear(C[j], s.slots[j], x, base, y)
    ensures ApartAfter(C, Run(C, p, s), s.child, j)
    decreases |C| - s.child, Unplaced(C, s.slots, s.child), OpenCount(s), Force01(s)
  {
    PassProgress(C, p, s);
    PassSafe(C, p, s, rf);
    var t := Pass(C, p, s);
    if t.child > s.child {
      RetriedEndsAt(C, p, s, x, base, y);
      EndApart(C, p, s, rf, j, t.slots[s.child], x, base, y);
    } else {
      StaysRetried(C, p, s, x, base, y);
      RetriedFloats(C, p, s, x, base, y);
      FloatFrame(C, p, s, rf);
      RetriedApart(C, p, t, rf, j, x, base, y);
    }
  }

  /** A float came on a line that was begun: everything placed so far is clear. */
  lemma FreshClear(C: seq<Child>, p: Page, s: State, rf: bool, j: nat)
    requires FreshTry(C, p, s) && Narrow(C[s.child]) && Safe(C, p, s, rf) && LineScan(C, p, s).result.Floating?
    requires |Pass(C, p, s).slots| == |C| && Placed(C, Pass(C, p, s).slots, j, rf)
    ensures var r := RoomFor(C, p, s); Clear(C[j], Pass(C, p, s).slots[j], r.startx, r.base, r.y)
  {
    FreshFloats(C, p, s);
    FloatFrame(C, p, s, rf);
    if j != LineScan(C, p, s).ch {
      OldClear(C, p, s, rf, j);
    }
  }

  /** Moving down with force, the room is the same. */
  lemma SameRoom(C: seq<Child>, p: Page, s: State)
    requires FreshTry(C, p, s) && MovesDown(C, p, s) && Pass(C, p, s).force
    ensures var r, t := RoomFor(C, p, s), Pass(C, p, s);
            t.child == s.child && !t.retry && t.pending.None? && RoomFor(C, p, t) == r && r.startx + C[s.child].w > r.width
  {
    FreshRoom(C, p, s);
    RoomOk(C, p, s);
    PassFinishes(C, p, s);
    var r := RoomFor(C, p, s);
    MoveDownFinds(p, s, r, LineScan(C, p, s));
    assert r.lm != [] ==> r.lm[0] in r.lm;
    FreshFirst(C, p, s);
  }

  lemma FreshFirst(C: seq<Child>, p: Page, s: State)
    requires FreshTry(C, p, s) && MovesDown(C, p, s)
    ensures var r := RoomFor(C, p, s); LineScan(C, p, s).pending.None? && r.startx + C[s.child].w > r.width
  {
    FreshRoom(C, p, s);
    var r := RoomFor(C, p, s);
    var k := StartCursor(s, r);
    FreshBullet(C, r, k);
    var (k1, stop) := ScanChild(C, r, s.force, k);
    if !stop {
      ScanShape(C, r, s.force, k1);
    }
  }

  /** With force, a bullet that does not fit is all of its line. */
  lemma ForcedEnds(C: seq<Child>, p: Page, t: State)
    requires Ready(C, t) && t.child < |C| && C[t.child].IsBullet() && t.force && !t.retry && t.pending.None?
    requires RoomFor(C, p, t).startx + C[t.child].w > RoomFor(C, p, t).width
    ensures Pass(C, p, t).child > t.child
  {
    var r := RoomFor(C, p, t);
    var (k1, stop) := ScanChild(C, r, true, StartCursor(t, r));
    assert stop && k1.result.Fits? && k1.ch == t.child;
    PassFinishes(C, p, t);
  }

  /** A fresh try that moves down is followed by another, unless the bullet does not fit the page. */
  lemma FreshAgain(C: seq<Child>, p: Page, s: State)
    requires FreshTry(C, p, s) && MovesDown(C, p, s)
    ensures Ready(C, Pass(C, p, s)) && Pass(C, p, s).child == s.child
    ensures !LineEnd(C, p, Pass(C, p, s)).force ==> FreshTry(C, p, Pass(C, p, s))
  {
    PassProgress(C, p, s);
    PassFinishes(C, p, s);
    FreshFirst(C, p, s);
    if Pass(C, p, s).force {
      SameRoom(C, p, s);
      ForcedEnds(C, p, Pass(C, p, s));
    }
  }

  lemma {:induction false} LineApart(C: seq<Child>, p: Page, s: State, rf: bool, j: nat)
    requires FreshTry(C, p, s) && Narrow(C[s.child]) && EndsWell(C, p, LineEnd(C, p, s))
    requires Safe(C, p, s, rf) && (rf ==> RightSteady(C)) && j < |C| && Compared(C[j], rf)
    ensures ApartAfter(C, Run(C, p, s), s.child, j)
    decreases |C| - s.child, Unplaced(C, s.slots, s.child), OpenCount(s), Force01(s)
  {
    PassProgress(C, p, s);
    PassSafe(C, p, s, rf);
    var r, t := RoomFor(C, p, s), Pass(C, p, s);
    if t.child > s.child {
      FreshEndsAt(C, p, s);
      if s.slots[j].Aligned? {
        OldClear(C, p, s, rf, j);
      }
      EndApart(C, p, s, rf, j, t.slots[s.child], r.startx, r.width, r.y);
    } else {
      StaysFloats(C, p, s);
      if MovesDown(C, p, s) {
        FreshAgain(C, p, s);
        LineApart(C, p, t, rf, j);
      } else {
        FreshRoom(C, p, s);
        FreshFloats(C, p, s);
        if t.slots[j].Aligned? {
          FreshClear(C, p, s, rf, j);
        }
        RetriedApart(C, p, t, rf, j, r.startx, r.base, r.y);
      }
    }
  }

  lemma {:induction false} LeaderApart(C: seq<Child>, p: Page, s: State, rf: bool, i: nat, j: nat)
    requires Safe(C, p, s, rf) && (rf ==> RightSteady(C)) && j < |C| && Compared(C[j], rf)
    requires i < |C| && Narrow(C[i]) && LeadsWell(C, p, s, i)
    ensures ApartAfter(C, Run(C, p, s), i, j)
    decreases |C| - s.child, Unplaced(C, s.slots, s.child), OpenCount(s), Force01(s)
  {
    PassProgress(C, p, s);
    PassSafe(C, p, s, rf);
    if s.child == i {
      LineApart(C, p, s, rf, j);
    } else {
      LeaderApart(C, p, Pass(C, p, s), rf, i, j);
    }
  }

  // ------------------------------------------------------------------------
  // Two bullets

  /** The state after the line, and the bullet in it. */
  ghost predicate LineDone(C: seq<Child>, p: Page, s: State, t: State)
    requires Ready(C, s) && s.child < |C|
  {
    && Ready(C, t) && t.child > s.child && Run(C, p, s) == Run(C, p, t) && s.y <= t.y
    && t.slots[s.child].Aligned? && s.y <= t.slots[s.child].y && t.slots[s.child].y + (if C[s.child].Box? then C[s.child].h else 0) <= t.y
  }

  lemma {:induction false} RetriedDone(C: seq<Child>, p: Page, s: State, x: int, base: int, y: int)
    requires Retried(C, p, s, x, base, y) && x + C[s.child].w + 8 <= base && EndsWell(C, p, LineEnd(C, p, s))
    ensures LineDone(C, p, s, Pass(C, p, LineEnd(C, p, s)))
    decreases |C| - s.child, Unplaced(C, s.slots, s.child), OpenCount(s), Force01(s)
  {
    PassProgress(C, p, s);
    PassGoesDown(C, p, s);
    if Pass(C, p, s).child > s.child {
      RetriedEndsAt(C, p, s, x, base, y);
    } else {
      StaysRetried(C, p, s, x, base, y);
      RetriedDone(C, p, Pass(C, p, s), x, base, y);
    }
  }

  lemma {:induction false} BulletDone(C: seq<Child>, p: Page, s: State)
    requires FreshTry(C, p, s) && Narrow(C[s.child]) && EndsWell(C, p, LineEnd(C, p, s))
    ensures LineDone(C, p, s, Pass(C, p, LineEnd(C, p, s)))
    decreases |C| - s.child, Unplaced(C, s.slots, s.child), OpenCount(s), Force01(s)
  {
    PassProgress(C, p, s);
    PassGoesDown(C, p, s);
    FreshRoom(C, p, s);
    var r, t := RoomFor(C, p, s), Pass(C, p, s);
    if t.child > s.child {
      FreshEndsAt(C, p, s);
    } else {
      StaysFloats(C, p, s);
      if MovesDown(C, p, s) {
        FreshAgain(C, p, s);
        BulletDone(C, p, t);
      } else {
        FreshFloats(C, p, s);
        RetriedDone(C, p, t, r.startx, r.base, r.y);
      }
    }
  }

  /** What leads a later line leads it after this one. */
  lemma {:induction false} LeadsOn(C: seq<Child>, p: Page, s: State, j: nat)
    requires Ready(C, s) && s.child < |C| && s.child != j && LeadsWell(C, p, s, j)
    ensures Ready(C, Pass(C, p, LineEnd(C, p, s))) && LeadsWell(C, p, Pass(C, p, LineEnd(C, p, s)), j)
    decreases |C| - s.child, Unplaced(C, s.slots, s.child), OpenCount(s), Force01(s)
  {
    PassProgress(C, p, s);
    if Pass(C, p, s).child == s.child {
      LeadsOn(C, p, Pass(C, p, s), j);
    }
  }

  lemma {:induction false} LaterBelow(C: seq<Child>, p: Page, s: State, j: nat)
    requires Ready(C, s) && j < |C| && Narrow(C[j]) && LeadsWell(C, p, s, j)
    ensures Run(C, p, s).slots[j].Aligned? && Run(C, p, s).slots[j].y >= s.y
    decreases |C| - s.child, Unplaced(C, s.slots, s.child), OpenCount(s), Force01(s)
  {
    PassProgress(C, p, s);
    PassGoesDown(C, p, s);
    if s.child == j {
      BulletDone(C, p, s);
      RunKeeps(C, p, Pass(C, p, LineEnd(C, p, s)), j);
    } else {
      LaterBelow(C, p, Pass(C, p, s), j);
    }
  }

  lemma FirstAbove(C: seq<Child>, p: Page, s: State, j: nat)
    requires Ready(C, s) && s.child < |C| && j < |C| && s.child != j && Narrow(C[s.child]) && Narrow(C[j])
    requires LeadsWell(C, p, s, s.child) && LeadsWell(C, p, s, j)
    ensures ApartAfter(C, Run(C, p, s), s.child, j) && Run(C, p, s).slots[j].Aligned?
  {
    BulletDone(C, p, s);
    LeadsOn(C, p, s, j);
    var t := Pass(C, p, LineEnd(C, p, s));
    RunKeeps(C, p, t, s.child);
    LaterBelow(C, p, t, j);
  }

  lemma {:induction false} LeadersApart(C: seq<Child>, p: Page, s: State, i: nat, j: nat)
    requires Ready(C, s) && i < |C| && j < |C| && i != j && Narrow(C[i]) && Narrow(C[j])
    requires LeadsWell(C, p, s, i) && LeadsWell(C, p, s, j)
    ensures ApartAfter(C, Run(C, p, s), i, j) && Run(C, p, s).slots[j].Aligned?
    decreases |C| - s.child, Unplaced(C, s.slots, s.child), OpenCount(s), Force01(s)
  {
    PassProgress(C, p, s);
    if s.child == i {
      FirstAbove(C, p, s, j);
    } else if s.child == j {
      FirstAbove(C, p, s, i);
    } else {
      LeadersApart(C, p, Pass(C, p, s), i, j);
    }
  }

  /** After a layout from the top a narrow bullet that leads its line is clear of every visible box, of
      other such bullets, and of all floats, those on its line too, if that line ends well; of right
      floats, provided that the right indents never decrease along the body. */
  lemma BulletsApart(C: seq<Child>, p: Page, i: nat, j: nat)
    requires Ready(C, Start(C, p)) && i < |C| && j < |C| && i != j && Narrow(C[i]) && LeadsWell(C, p, Start(C, p), i)
    requires Solid(C[j]) || (Narrow(C[j]) && LeadsWell(C, p, Start(C, p), j))
    requires C[j].role.FloatRight? ==> RightSteady(C)
    ensures var t := Run(C, p, Start(C, p));
            t.slots[i].Aligned? && t.slots[j].Aligned? && Apart(C[i], t.slots[i], C[j], t.slots[j])
  {
    LayoutEnds(C, p);
    if Solid(C[j]) {
      LeaderApart(C, p, Start(C, p), C[j].role.FloatRight?, i, j);
    } else {
      LeadersApart(C, p, Start(C, p), i, j);
    }
  }
}
