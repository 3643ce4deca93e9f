/** Geometric safety: no two visible boxes of a laid-out body overlap, bullets aside.

    The state invariant says that every float still standing at the current y is accounted for
    by a margin: its right edge (left edge, for a right float) lies within what that margin
    has eaten, at the indent the float was placed at.  Left floats are safe whatever the mix
    of indents, because a line first moves below every margin of a deeper indent.  The right
    side has no such move, so there the indents must never decrease.
 */
module LayoutSafety {
  import opened Basics
  import opened Margins
  import opened Layout
  import opened LayoutRun

  /** The children whose places are compared: visible boxes that are not bullets. */
  ghost predicate Solid(c: Child) {
    c.Box? && c.visible && !c.IsBullet()
  }

  /** Right floats are compared too if `rf`. */
  ghost predicate Compared(c: Child, rf: bool) {
    Solid(c) && (c.role.FloatRight? ==> rf)
  }

  ghost predicate Apart(c: Child, a: Slot, d: Child, b: Slot)
    requires c.Box? && d.Box? && a.Aligned? && b.Aligned?
  {
    || a.x + c.w <= b.x || b.x + d.w <= a.x
    || a.y + c.h <= b.y || b.y + d.h <= a.y
  }

  /** The right indents never decrease along the body. */
  ghost predicate RightSteady(C: seq<Child>) {
    forall i, j :: 0 <= i <= j < |C| ==> C[i].right <= C[j].right
  }

  ghost predicate Placed(C: seq<Child>, slots: seq<Slot>, i: int, rf: bool)
    requires |C| == |slots|
  {
    0 <= i < |C| && slots[i].Aligned? && Compared(C[i], rf)
  }

  // ------------------------------------------------------------------------
  // The invariant

  ghost predicate LeftCovered(p: Page, ms: seq<Margin>, bottom: int, edge: int) {
    exists m :: m in ms && m.y >= bottom && edge <= p.hmargin + m.eaten + 40 * m.indent
  }

  ghost predicate RightCovered(p: Page, ms: seq<Margin>, bottom: int, edge: int, right: nat) {
    exists m :: m in ms && m.y >= bottom && edge >= p.width - p.hmargin - m.eaten - 40 * right
  }

  /** One placed child against the current y and the margins. */
  ghost predicate Accounted(p: Page, c: Child, a: Slot, y: int, lm: seq<Margin>, rm: seq<Margin>, right: nat)
    requires c.Box? && a.Aligned?
  {
    if c.Floats() then
      && a.y <= y
      && (a.y + c.h > y ==>
            if c.role.FloatRight? then RightCovered(p, rm, a.y + c.h, a.x, right)
            else LeftCovered(p, lm, a.y + c.h, a.x + c.w))
    else a.y + c.h <= y
  }

  ghost predicate AllAccounted(C: seq<Child>, p: Page, slots: seq<Slot>, y: int,
                               lm: seq<Margin>, rm: seq<Margin>, right: nat, rf: bool)
    requires |C| == |slots|
  {
    forall i :: Placed(C, slots, i, rf) ==> Accounted(p, C[i], slots[i], y, lm, rm, right)
  }

  ghost predicate AllApart(C: seq<Child>, slots: seq<Slot>, rf: bool)
    requires |C| == |slots|
  {
    forall i, j :: 0 <= i < j && Placed(C, slots, i, rf) && Placed(C, slots, j, rf) ==>
      Apart(C[i], slots[i], C[j], slots[j])
  }

  ghost function RightOf(C: seq<Child>, i: nat): nat {
    if i < |C| then C[Leader(C, i)].right else if C == [] then 0 else C[|C| - 1].right
  }

  ghost predicate Safe(C: seq<Child>, p: Page, s: State, rf: bool) {
    && Ready(C, s)
    && AllAccounted(C, p, s.slots, s.y, s.lm, s.rm, RightOf(C, s.child), rf)
    && AllApart(C, s.slots, rf)
  }

  lemma LeaderMonotone(C: seq<Child>, i: nat, j: nat)
    requires i <= j < |C|
    ensures Leader(C, i) <= Leader(C, j)
  {
    SeekMonotone(C, i, j);
    SeekMonotone(C, j, j);
    if SeekVisible(C, i) < |C| && SeekVisible(C, j) == |C| {
      VisibleAtSeek(C, i);
      SeekMonotone(C, j, |C|);
    }
  }

  lemma RightOfMonotone(C: seq<Child>, i: nat, j: nat)
    requires RightSteady(C) && i <= j <= |C|
    ensures RightOf(C, i) <= RightOf(C, j)
  {
    if j < |C| {
      LeaderMonotone(C, i, j);
    }
  }

  /** The first visible child of a line led by a bullet is that bullet. */
  lemma BulletLeads(C: seq<Child>, i: nat, j: nat)
    requires i <= j < |C| && C[Leader(C, i)].IsBullet() && C[j].visible
    requires forall l :: i <= l < j ==> !C[l].visible
    ensures C[j].IsBullet()
  {
    SeekMonotone(C, i, i);
    VisibleAtSeek(C, i);
  }

  // ------------------------------------------------------------------------
  // The children of one line

  ghost predicate InRow(C: seq<Child>, i: int) {
    0 <= i < |C| && Solid(C[i]) && !C[i].Floats()
  }

  /** The solid children of a line run from left to right within the room, up to `limit`. */
  ghost predicate Row(C: seq<Child>, r: Room, force: bool, slots: seq<Slot>, from: nat, to: nat, limit: int)
    requires to <= |C| == |slots|
  {
    && (forall i :: from <= i < to && InRow(C, i) ==>
          && slots[i].Laid? && r.base <= slots[i].x
          && slots[i].x + C[i].w <= limit && (force || slots[i].x + C[i].w <= r.width))
    && (forall i, j :: from <= i < j < to && InRow(C, i) && InRow(C, j) ==>
          slots[i].Laid? && slots[j].Laid? && slots[i].x + C[i].w <= slots[j].x)
  }

  ghost predicate Covers(c: Child, above: int, below: int, toph: int)
    requires c.Box?
  {
    && 0 <= above && 0 <= below
    && match VAlignOf(c)
       case Bottom => c.h <= above
       case Middle => c.h / 2 <= above && c.h - c.h / 2 <= below
       case Top => c.h <= toph
  }

  ghost predicate Tall(C: seq<Child>, from: nat, to: nat, k: Cursor) {
    && 0 <= k.above && 0 <= k.below
    && forall i :: from <= i < to && InRow(C, i) ==> Covers(C[i], k.above, k.below, k.toph)
  }

  ghost predicate RowSoFar(C: seq<Child>, s: State, r: Room, k: Cursor) {
    && s.child <= k.ch <= |C| == |k.slots|
    && Row(C, r, s.force, k.slots, s.child, k.ch, k.endx)
    && Tall(C, s.child, k.ch, k)
    && k.endx <= k.startx
    && (if k.bullet then r.bullet && (forall i :: s.child <= i < k.ch ==> !C[i].visible) else r.base <= k.startx)
  }

  /** How many children of the line the scan has accepted. */
  function Accepted(C: seq<Child>, k: Cursor): nat {
    if k.ch < |C| && (k.result.Fits? || k.result.Newline?) then k.ch + 1 else k.ch
  }

  ghost predicate RowDone(C: seq<Child>, s: State, r: Room, k: Cursor) {
    && s.child <= k.ch <= |C| == |k.slots|
    && Row(C, r, s.force, k.slots, s.child, Accepted(C, k), k.endx)
    && Tall(C, s.child, Accepted(C, k), k)
    && (k.ch < |C| && k.result.Floating? && Solid(C[k.ch]) ==>
          r.base <= k.startx && (s.force || k.startx + C[k.ch].w <= r.width))
  }

  /** A line may be extended by a child that adds nothing, or by one laid out at the limit. */
  lemma RowExtend(C: seq<Child>, r: Room, force: bool, a: seq<Slot>, b: seq<Slot>, from: nat, to: nat, limit: int, limit': int)
    requires from <= to < |C| == |a| == |b| && limit <= limit'
    requires Row(C, r, force, a, from, to, limit)
    requires forall i :: from <= i < to ==> b[i] == a[i]
    requires InRow(C, to) ==>
      && b[to].Laid? && r.base <= b[to].x && limit <= b[to].x && b[to].x + C[to].w <= limit'
      && (force || b[to].x + C[to].w <= r.width)
    ensures Row(C, r, force, b, from, to + 1, limit')
  {
  }

  lemma RowSame(C: seq<Child>, r: Room, force: bool, a: seq<Slot>, b: seq<Slot>, from: nat, to: nat, limit: int)
    requires to <= |C| == |a| == |b|
    requires Row(C, r, force, a, from, to, limit)
    requires forall i :: from <= i < to ==> b[i] == a[i]
    ensures Row(C, r, force, b, from, to, limit)
  {
  }

  lemma TallGrows(C: seq<Child>, from: nat, to: nat, k: Cursor, k': Cursor)
    requires Tall(C, from, to, k) && to <= |C|
    requires k.above <= k'.above && k.below <= k'.below && k.toph <= k'.toph
    ensures Tall(C, from, to, k')
    ensures to < |C| && (InRow(C, to) ==> Covers(C[to], k'.above, k'.below, k'.toph)) ==> Tall(C, from, to + 1, k')
  {
    forall i | from <= i < to && InRow(C, i)
      ensures Covers(C[i], k'.above, k'.below, k'.toph)
    {
      assert Covers(C[i], k.above, k.below, k.toph);
    }
  }

  /** What laying out one child does to the cursor, as far as the row is concerned. */
  ghost predicate Steps(C: seq<Child>, r: Room, force: bool, k: Cursor, k': Cursor, stop: bool)
    requires k.ch < |C|
  {
    var c := C[k.ch];
    && |k'.slots| == |k.slots| == |C|
    && (forall i :: 0 <= i < k.ch ==> k'.slots[i] == k.slots[i])
    && k.above <= k'.above && k.below <= k'.below && k.toph <= k'.toph
    && k'.ch == (if stop then k.ch else k.ch + 1)
    && (!stop ==> k'.result.Fits?)
    && (if k'.result.Fits? || k'.result.Newline? then
          && k.endx <= k'.endx
          && (InRow(C, k.ch) ==>
                && k'.slots[k.ch] == Laid(k.startx) && k'.endx == k.startx + c.w
                && (force || k'.endx <= r.width)
                && Covers(c, k'.above, k'.below, k'.toph))
        else
          && k'.endx == k.endx && k'.startx == k.startx
          && (k'.result.Floating? ==> c.Box? && (force || k.startx + c.w <= r.width)))
    && (!stop ==>
          && k'.endx <= k'.startx && k.startx <= k'.startx
          && (k'.bullet ==> k.bullet && !c.visible)
          && (!k'.bullet && k.bullet ==> r.base <= k'.startx))
  }

  lemma ScanChildSteps(C: seq<Child>, r: Room, force: bool, k: Cursor)
    requires k.ch < |C| == |k.slots| && k.endx <= k.startx && 0 <= k.above && 0 <= k.below
    requires InRow(C, k.ch) ==> !k.slots[k.ch].Aligned?
    ensures var (k', stop) := ScanChild(C, r, force, k); Steps(C, r, force, k, k', stop)
  {
  }

  lemma StepsExtend(C: seq<Child>, s: State, r: Room, k: Cursor, k': Cursor, stop: bool)
    requires s.child <= k.ch < |C| == |k.slots|
    requires Row(C, r, s.force, k.slots, s.child, k.ch, k.endx) && Tall(C, s.child, k.ch, k)
    requires InRow(C, k.ch) ==> r.base <= k.startx
    requires k.endx <= k.startx
    requires Steps(C, r, s.force, k, k', stop)
    ensures var to := if k'.result.Fits? || k'.result.Newline? then k.ch + 1 else k.ch;
            Row(C, r, s.force, k'.slots, s.child, to, k'.endx) && Tall(C, s.child, to, k')
  {
    TallGrows(C, s.child, k.ch, k, k');
    if k'.result.Fits? || k'.result.Newline? {
      RowExtend(C, r, s.force, k.slots, k'.slots, s.child, k.ch, k.endx, k'.endx);
    } else {
      RowSame(C, r, s.force, k.slots, k'.slots, s.child, k.ch, k.endx);
    }
  }

  lemma StepsRow(C: seq<Child>, s: State, r: Room, k: Cursor, k': Cursor, stop: bool)
    requires s.child < |C| && k.ch < |C|
    requires r.bullet ==> C[Leader(C, s.child)].IsBullet()
    requires RowSoFar(C, s, r, k)
    requires Steps(C, r, s.force, k, k', stop)
    ensures if stop then RowDone(C, s, r, k') else RowSoFar(C, s, r, k')
  {
    if C[k.ch].visible && k.bullet {
      BulletLeads(C, s.child, k.ch);
    }
    StepsExtend(C, s, r, k, k', stop);
  }

  lemma {:induction false} ScanRow(C: seq<Child>, s: State, r: Room, k: Cursor)
    requires s.child < |C| && k.ch <= |C| && k.result.Fits?
    requires r.bullet ==> C[Leader(C, s.child)].IsBullet()
    requires CursorOk(C, s, k) && RowSoFar(C, s, r, k)
    ensures RowDone(C, s, r, Scan(C, r, s.force, k))
    decreases |C| - k.ch
  {
    if k.ch < |C| {
      ScanChildOk(C, s, r, s.force, k);
      assert Before(k.pending, k.ch) ==> Visited(C, k.slots, k.ch);
      var (k1, stop) := ScanChild(C, r, s.force, k);
      ScanChildSteps(C, r, s.force, k);
      StepsRow(C, s, r, k, k1, stop);
      if !stop {
        ScanRow(C, s, r, k1);
      }
    }
  }

  lemma LineScanRow(C: seq<Child>, p: Page, s: State)
    requires Ready(C, s) && s.child < |C|
    ensures RowDone(C, s, RoomFor(C, p, s), LineScan(C, p, s))
  {
    var r := RoomFor(C, p, s);
    EatenNonNegative(s.lm, r.y);
    StartOk(C, p, s);
    ScanRow(C, s, r, StartCursor(s, r));
  }

  // ------------------------------------------------------------------------
  // Floats still standing

  /** A float that still stands at the y of the new line leaves the room of that line free,
      and then the line is not forced. */
  lemma StandingFloat(C: seq<Child>, p: Page, s: State, rf: bool, i: nat)
    requires Safe(C, p, s, rf) && s.child < |C|
    requires Placed(C, s.slots, i, rf) && C[i].Floats()
    requires RoomFor(C, p, s).y < s.slots[i].y + C[i].h
    ensures var r := RoomFor(C, p, s);
            && !s.force
            && if C[i].role.FloatRight? then r.width <= s.slots[i].x else s.slots[i].x + C[i].w <= r.base
  {
    var r := RoomFor(C, p, s);
    RoomOk(C, p, s);
    RoomIndents(C, p, s);
    var c, a := C[i], s.slots[i];
    assert Accounted(p, c, a, s.y, s.lm, s.rm, r.right);
    if c.role.FloatRight? {
      var m :| m in s.rm && m.y >= a.y + c.h && a.x >= p.width - p.hmargin - m.eaten - 40 * r.right;
      HeadEatsMost(s.rm, r.y, m);
      HeadEatsMost(s.rm, s.y, m);
    } else {
      var m :| m in s.lm && m.y >= a.y + c.h && a.x + c.w <= p.hmargin + m.eaten + 40 * m.indent;
      HeadEatsMost(s.lm, r.y, m);
      HeadEatsMost(s.lm, s.y, m);
    }
  }

  /** A rectangle placed in the room of the new line is clear of all that was placed before. */
  lemma RoomIsClear(C: seq<Child>, p: Page, s: State, rf: bool, i: nat, c: Child, a: Slot)
    requires Safe(C, p, s, rf) && s.child < |C|
    requires Placed(C, s.slots, i, rf) && c.Box? && a.Aligned?
    requires var r := RoomFor(C, p, s);
             r.y <= a.y && r.base <= a.x && (s.force || a.x + c.w <= r.width)
    ensures Apart(C[i], s.slots[i], c, a) && Apart(c, a, C[i], s.slots[i])
  {
    RoomOk(C, p, s);
    var r := RoomFor(C, p, s);
    assert Accounted(p, C[i], s.slots[i], s.y, s.lm, s.rm, r.right);
    if C[i].Floats() && r.y < s.slots[i].y + C[i].h {
      StandingFloat(C, p, s, rf, i);
    }
  }

  // ------------------------------------------------------------------------
  // One pass keeps the invariant

  lemma LeftStays(p: Page, a: seq<Margin>, b: seq<Margin>, bottom: int, edge: int)
    requires LeftCovered(p, a, bottom, edge)
    requires forall m <- a :: m.y >= bottom ==> m in b
    ensures LeftCovered(p, b, bottom, edge)
  {
    var m :| m in a && m.y >= bottom && edge <= p.hmargin + m.eaten + 40 * m.indent;
    assert m in b;
  }

  lemma RightStays(p: Page, a: seq<Margin>, b: seq<Margin>, bottom: int, edge: int, right: nat, right': nat)
    requires RightCovered(p, a, bottom, edge, right) && right <= right'
    requires forall m <- a :: m.y >= bottom ==> m in b
    ensures RightCovered(p, b, bottom, edge, right')
  {
    var m :| m in a && m.y >= bottom && edge >= p.width - p.hmargin - m.eaten - 40 * right;
    assert m in b;
  }

  /** Going down the page, dropping the margins that have ended, keeps the accounts. */
  lemma AccountsGoDown(p: Page, c: Child, a: Slot, y: int, lm: seq<Margin>, rm: seq<Margin>, right: nat,
                       z: int, y': int, right': nat)
    requires Staircase(lm) && Staircase(rm) && c.Box? && a.Aligned?
    requires y <= z <= y' && (c.role.FloatRight? ==> right <= right')
    requires Accounted(p, c, a, y, lm, rm, right)
    ensures Accounted(p, c, a, y', Open(lm, z), Open(rm, z), right')
  {
    OpenStaircase(lm, z);
    OpenStaircase(rm, z);
    if c.Floats() && a.y + c.h > y' {
      if c.role.FloatRight? {
        RightStays(p, rm, Open(rm, z), a.y + c.h, a.x, right, right');
      } else {
        LeftStays(p, lm, Open(lm, z), a.y + c.h, a.x + c.w);
      }
    }
  }

  /** The margin a float adds covers it, and covers whatever the dropped margins covered. */
  lemma AddCoversLeft(p: Page, lm: seq<Margin>, y: int, w: nat, indent: int, bottom: int, edge: int)
    requires Staircase(lm) && (forall m <- lm :: m.indent <= indent)
    requires LeftCovered(p, lm, bottom, edge)
    ensures LeftCovered(p, Add(lm, y, w, indent), bottom, edge)
  {
    var m :| m in lm && m.y >= bottom && edge <= p.hmargin + m.eaten + 40 * m.indent;
    HeadDominates(lm);
    var ms := Add(lm, y, w, indent);
    if m.y > y {
      OpenStaircase(lm, y);
      assert m in ms;
    } else {
      assert ms[0] in ms;
    }
  }

  lemma AddCoversRight(p: Page, rm: seq<Margin>, y: int, w: nat, indent: int, bottom: int, edge: int, right: nat)
    requires Staircase(rm) && RightCovered(p, rm, bottom, edge, right)
    ensures RightCovered(p, Add(rm, y, w, indent), bottom, edge, right)
  {
    var m :| m in rm && m.y >= bottom && edge >= p.width - p.hmargin - m.eaten - 40 * right;
    HeadDominates(rm);
    var ms := Add(rm, y, w, indent);
    if m.y > y {
      OpenStaircase(rm, y);
      assert m in ms;
    } else {
      assert ms[0] in ms;
    }
  }

  lemma MoveDownSafe(C: seq<Child>, p: Page, s: State, rf: bool)
    requires Safe(C, p, s, rf) && s.child < |C|
    requires LineScan(C, p, s).result.NoFit? && LineScan(C, p, s).ch == s.child
    ensures Safe(C, p, Pass(C, p, s), rf)
  {
    PassProgress(C, p, s);
    LineScanKeeps(C, p, s);
    RoomOk(C, p, s);
    var r, k := RoomFor(C, p, s), LineScan(C, p, s);
    var t := MoveDown(p, s, r, k);
    MoveDownFinds(p, s, r, k);
    forall i | Placed(C, t.slots, i, rf)
      ensures Placed(C, s.slots, i, rf) && t.slots[i] == s.slots[i]
      ensures Accounted(p, C[i], t.slots[i], t.y, t.lm, t.rm, r.right)
    {
      AccountsGoDown(p, C[i], s.slots[i], s.y, s.lm, s.rm, r.right, r.y, t.y, r.right);
    }
  }

  /** The float at the cursor lands inside the room of its line. */
  lemma FloatLands(C: seq<Child>, p: Page, s: State, rf: bool)
    requires Safe(C, p, s, rf) && s.child < |C|
    requires LineScan(C, p, s).result.Floating?
    ensures var r, k, t := RoomFor(C, p, s), LineScan(C, p, s), Pass(C, p, s);
            && k.ch < |C| && C[k.ch].Floats() && t.slots[k.ch].Aligned? && t.slots[k.ch].y == r.y
            && (Solid(C[k.ch]) ==>
                  && Accounted(p, C[k.ch], t.slots[k.ch], t.y, t.lm, t.rm, r.right)
                  && (s.force || (r.base <= t.slots[k.ch].x && t.slots[k.ch].x + C[k.ch].w <= r.width)))
  {
    LineScanOk(C, p, s);
    LineScanRow(C, p, s);
    var r, k := RoomFor(C, p, s), LineScan(C, p, s);
    var t := PlaceFloat(C, s, r, k);
    var c := C[k.ch];
    if c.role.FloatRight? {
      assert t.rm[0] in t.rm;
    } else {
      assert t.lm[0] in t.lm;
    }
    EatenNonNegative(s.lm, r.y);
  }

  /** The accounts of a child placed earlier survive the new margin. */
  lemma AccountsSurviveFloat(p: Page, f: Child, a: Slot, s: State, r: Room, c: Child)
    requires f.Box? && a.Aligned? && c.Box?
    requires Staircase(s.lm) && Staircase(s.rm) && s.y <= r.y
    requires r.lm == Open(s.lm, r.y) && r.rm == Open(s.rm, r.y)
    requires Staircase(r.lm) && Staircase(r.rm) && forall m <- r.lm :: m.indent <= r.left
    requires Accounted(p, f, a, s.y, s.lm, s.rm, r.right)
    ensures Accounted(p, f, a, r.y, if c.role.FloatRight? then r.lm else Add(r.lm, r.y + c.h, c.w, r.left),
                      if c.role.FloatRight? then Add(r.rm, r.y + c.h, c.w, r.left) else r.rm, r.right)
  {
    AccountsGoDown(p, f, a, s.y, s.lm, s.rm, r.right, r.y, r.y, r.right);
    if f.Floats() && a.y + f.h > r.y {
      if f.role.FloatRight? {
        RightSurvives(p, r, c, a.y + f.h, a.x);
      } else {
        LeftSurvives(p, r, c, a.y + f.h, a.x + f.w);
      }
    }
  }

  lemma RightSurvives(p: Page, r: Room, c: Child, bottom: int, edge: int)
    requires c.Box? && Staircase(r.rm) && RightCovered(p, r.rm, bottom, edge, r.right)
    ensures RightCovered(p, if c.role.FloatRight? then Add(r.rm, r.y + c.h, c.w, r.left) else r.rm, bottom, edge, r.right)
  {
    AddCoversRight(p, r.rm, r.y + c.h, c.w, r.left, bottom, edge, r.right);
  }

  lemma LeftSurvives(p: Page, r: Room, c: Child, bottom: int, edge: int)
    requires c.Box? && Staircase(r.lm) && LeftCovered(p, r.lm, bottom, edge) && forall m <- r.lm :: m.indent <= r.left
    ensures LeftCovered(p, if c.role.FloatRight? then r.lm else Add(r.lm, r.y + c.h, c.w, r.left), bottom, edge)
  {
    AddCoversLeft(p, r.lm, r.y + c.h, c.w, r.left, bottom, edge);
  }

  lemma FloatApart(C: seq<Child>, p: Page, s: State, rf: bool, i: nat)
    requires Safe(C, p, s, rf) && s.child < |C|
    requires LineScan(C, p, s).result.Floating?
    requires Placed(C, s.slots, i, rf)
    ensures LineScan(C, p, s).ch < |C| && Pass(C, p, s).slots[LineScan(C, p, s).ch].Aligned?
    ensures var k, t := LineScan(C, p, s), Pass(C, p, s);
            Solid(C[k.ch]) ==>
              && Apart(C[i], s.slots[i], C[k.ch], t.slots[k.ch])
              && Apart(C[k.ch], t.slots[k.ch], C[i], s.slots[i])
  {
    RoomOk(C, p, s);
    FloatLands(C, p, s, rf);
    var r := RoomFor(C, p, s);
    assert Accounted(p, C[i], s.slots[i], s.y, s.lm, s.rm, r.right);
    if C[i].Floats() && s.slots[i].y + C[i].h > r.y {
      StandingFloat(C, p, s, rf, i);
    }
  }

  lemma FloatFrame(C: seq<Child>, p: Page, s: State, rf: bool)
    requires Safe(C, p, s, rf) && s.child < |C|
    requires LineScan(C, p, s).result.Floating?
    ensures var k, t := LineScan(C, p, s), Pass(C, p, s);
            && |t.slots| == |C| && t.child == s.child
            && forall i :: Placed(C, t.slots, i, rf) && i != k.ch ==> Placed(C, s.slots, i, rf) && t.slots[i] == s.slots[i]
  {
    LineScanOk(C, p, s);
    LineScanKeeps(C, p, s);
  }

  lemma PlaceFloatAccounted(C: seq<Child>, p: Page, s: State, rf: bool)
    requires Safe(C, p, s, rf) && s.child < |C|
    requires LineScan(C, p, s).result.Floating?
    ensures var t := Pass(C, p, s);
            |t.slots| == |C| && AllAccounted(C, p, t.slots, t.y, t.lm, t.rm, RightOf(C, s.child), rf)
  {
    FloatFrame(C, p, s, rf);
    var r, k, t := RoomFor(C, p, s), LineScan(C, p, s), Pass(C, p, s);
    forall i | Placed(C, t.slots, i, rf)
      ensures Accounted(p, C[i], t.slots[i], t.y, t.lm, t.rm, r.right)
    {
      if i == k.ch {
        FloatLands(C, p, s, rf);
      } else {
        OthersAccounted(C, p, s, rf, i);
      }
    }
  }

  lemma OthersAccounted(C: seq<Child>, p: Page, s: State, rf: bool, i: nat)
    requires Safe(C, p, s, rf) && s.child < |C| && Placed(C, s.slots, i, rf)
    requires LineScan(C, p, s).result.Floating?
    ensures var t := Pass(C, p, s); Accounted(p, C[i], s.slots[i], t.y, t.lm, t.rm, RoomFor(C, p, s).right)
  {
    RoomOk(C, p, s);
    RoomIndents(C, p, s);
    LineScanOk(C, p, s);
    var r, k := RoomFor(C, p, s), LineScan(C, p, s);
    AccountsAfter(C, p, C[i], s.slots[i], s, r, k);
  }

  lemma AccountsAfter(C: seq<Child>, p: Page, f: Child, a: Slot, s: State, r: Room, k: Cursor)
    requires k.ch < |C| == |k.slots| && C[k.ch].Box? && f.Box? && a.Aligned?
    requires Staircase(s.lm) && Staircase(s.rm) && s.y <= r.y
    requires r.lm == Open(s.lm, r.y) && r.rm == Open(s.rm, r.y)
    requires Staircase(r.lm) && Staircase(r.rm) && forall m <- r.lm :: m.indent <= r.left
    requires Accounted(p, f, a, s.y, s.lm, s.rm, r.right)
    ensures var t := PlaceFloat(C, s, r, k); Accounted(p, f, a, t.y, t.lm, t.rm, r.right)
  {
    AccountsSurviveFloat(p, f, a, s, r, C[k.ch]);
  }

  lemma PlaceFloatSafe(C: seq<Child>, p: Page, s: State, rf: bool)
    requires Safe(C, p, s, rf) && s.child < |C|
    requires LineScan(C, p, s).result.Floating?
    ensures Safe(C, p, Pass(C, p, s), rf)
  {
    PassProgress(C, p, s);
    FloatFrame(C, p, s, rf);
    PlaceFloatAccounted(C, p, s, rf);
    var k, t := LineScan(C, p, s), Pass(C, p, s);
    forall i, j | 0 <= i < j && Placed(C, t.slots, i, rf) && Placed(C, t.slots, j, rf)
      ensures Apart(C[i], t.slots[i], C[j], t.slots[j])
    {
      if i == k.ch {
        FloatApart(C, p, s, rf, j);
      } else if j == k.ch {
        FloatApart(C, p, s, rf, i);
      }
    }
  }

  // ------------------------------------------------------------------------
  // A finished line

  /** Alignment puts a child of the line between its top and its bottom. */
  lemma AlignBetween(c: Child, x: int, dx: int, y: int, above: int, below: int, toph: int)
    requires c.Box? && Covers(c, above, below, toph)
    ensures var bottomh := Max(0, above + below);
            var a := Align(c, Laid(x), dx, y, bottomh - below - 1);
            a.Aligned? && a.x == x + dx && y <= a.y && a.y + c.h <= y + Max(toph, bottomh)
  {
  }

  lemma ShiftBounds(halign: HAlign, endx: int, width: int)
    ensures 0 <= Shift(halign, endx, width)
    ensures Shift(halign, endx, width) > 0 ==> endx + Shift(halign, endx, width) <= width
  {
  }

  ghost predicate New(C: seq<Child>, a: seq<Slot>, b: seq<Slot>, i: int, rf: bool)
    requires |C| == |a| == |b|
  {
    Placed(C, b, i, rf) && !Placed(C, a, i, rf)
  }

  /** A child that is placed with its line lies in its room, between its top and its bottom. */
  ghost predicate InLine(C: seq<Child>, s: State, r: Room, k: Cursor, t: State, next: nat, i: int)
    requires 0 <= i < |C| == |t.slots| && C[i].Box? && t.slots[i].Aligned? && |k.slots| == |C|
  {
    && s.child <= i < next && InRow(C, i) && k.slots[i].Laid?
    && t.slots[i].x == k.slots[i].x + Shift(r.halign, k.endx, r.width)
    && r.y <= t.slots[i].y && t.slots[i].y + C[i].h <= r.y + Max(k.toph, Max(0, k.above + k.below))
  }

  lemma ChildPlaced(C: seq<Child>, p: Page, s: State, rf: bool, next: nat, more: bool, soft: bool, i: nat)
    requires Safe(C, p, s, rf) && s.child < |C|
    requires next == Accepted(C, LineScan(C, p, s)) && next <= |C| == |LineScan(C, p, s).slots|
    requires var t := FinishLine(C, p, s, RoomFor(C, p, s), LineScan(C, p, s), next, more, soft); New(C, s.slots, t.slots, i, rf)
    ensures var r, k := RoomFor(C, p, s), LineScan(C, p, s);
            InLine(C, s, r, k, FinishLine(C, p, s, r, k, next, more, soft), next, i)
  {
    LineScanOk(C, p, s);
    LineScanKeeps(C, p, s);
    LineScanRow(C, p, s);
    var r, k := RoomFor(C, p, s), LineScan(C, p, s);
    assert !k.slots[i].Aligned?;
    assert i < k.ch ==> Visited(C, k.slots, i);
    assert Covers(C[i], k.above, k.below, k.toph);
    AlignBetween(C[i], k.slots[i].x, Shift(r.halign, k.endx, r.width), r.y, k.above, k.below, k.toph);
  }

  lemma OldPlaces(C: seq<Child>, p: Page, s: State, rf: bool, next: nat, more: bool, soft: bool)
    requires Safe(C, p, s, rf) && s.child < |C|
    requires next <= |C| == |LineScan(C, p, s).slots|
    ensures var t := FinishLine(C, p, s, RoomFor(C, p, s), LineScan(C, p, s), next, more, soft);
            forall i :: Placed(C, s.slots, i, rf) ==> Placed(C, t.slots, i, rf) && t.slots[i] == s.slots[i]
  {
    LineScanKeeps(C, p, s);
  }

  lemma BottomGoesDown(C: seq<Child>, p: Page, s: State, r: Room, k: Cursor, next: nat, more: bool, soft: bool)
    requires next <= |C| == |k.slots|
    ensures var bottom := r.y + Max(k.toph, Max(0, k.above + k.below));
            r.y <= bottom <= FinishLine(C, p, s, r, k, next, more, soft).y
  {
  }

  /** In a row shifted as one, what is to the left stays to the left, and in the room. */
  lemma RowShifted(C: seq<Child>, s: State, r: Room, k: Cursor, t: State, next: nat, i: nat, j: nat)
    requires i < |C| == |t.slots| == |k.slots| && j < |C| && next <= |C|
    requires Row(C, r, s.force, k.slots, s.child, next, k.endx)
    requires C[i].Box? && t.slots[i].Aligned? && InLine(C, s, r, k, t, next, i)
    requires C[j].Box? && t.slots[j].Aligned? && InLine(C, s, r, k, t, next, j)
    ensures r.base <= t.slots[i].x && (s.force || t.slots[i].x + C[i].w <= r.width)
    ensures i < j ==> t.slots[i].x + C[i].w <= t.slots[j].x
  {
    ShiftBounds(r.halign, k.endx, r.width);
  }

  /** The children of a finished line lie in its room, one beside the other. */
  lemma LinePlaces(C: seq<Child>, p: Page, s: State, rf: bool, next: nat, more: bool, soft: bool)
    requires Safe(C, p, s, rf) && s.child < |C|
    requires next == Accepted(C, LineScan(C, p, s))
    ensures next <= |C| == |LineScan(C, p, s).slots|
    ensures var r, k := RoomFor(C, p, s), LineScan(C, p, s);
            var t := FinishLine(C, p, s, r, k, next, more, soft);
            var bottom := r.y + Max(k.toph, Max(0, k.above + k.below));
            && r.y <= bottom <= t.y
            && (forall i :: New(C, s.slots, t.slots, i, rf) ==>
                  && s.child <= i < next && !C[i].Floats()
                  && r.base <= t.slots[i].x && (s.force || t.slots[i].x + C[i].w <= r.width)
                  && r.y <= t.slots[i].y && t.slots[i].y + C[i].h <= bottom)
            && (forall i, j :: i < j && New(C, s.slots, t.slots, i, rf) && New(C, s.slots, t.slots, j, rf) ==>
                  t.slots[i].x + C[i].w <= t.slots[j].x)
            && (forall i :: Placed(C, s.slots, i, rf) ==> Placed(C, t.slots, i, rf) && t.slots[i] == s.slots[i])
  {
    LineScanOk(C, p, s);
    LineScanRow(C, p, s);
    var r, k := RoomFor(C, p, s), LineScan(C, p, s);
    var t := FinishLine(C, p, s, r, k, next, more, soft);
    OldPlaces(C, p, s, rf, next, more, soft);
    BottomGoesDown(C, p, s, r, k, next, more, soft);
    forall i, j | New(C, s.slots, t.slots, i, rf) && New(C, s.slots, t.slots, j, rf)
      ensures InLine(C, s, r, k, t, next, i)
      ensures r.base <= t.slots[i].x && (s.force || t.slots[i].x + C[i].w <= r.width)
      ensures i < j ==> t.slots[i].x + C[i].w <= t.slots[j].x
    {
      ChildPlaced(C, p, s, rf, next, more, soft, i);
      ChildPlaced(C, p, s, rf, next, more, soft, j);
      RowShifted(C, s, r, k, t, next, i, j);
    }
  }

  lemma FinishLineSafe(C: seq<Child>, p: Page, s: State, rf: bool, next: nat, more: bool, soft: bool)
    requires Safe(C, p, s, rf) && s.child < |C| && (rf ==> RightSteady(C))
    requires next == Accepted(C, LineScan(C, p, s))
    requires next <= |C| == |LineScan(C, p, s).slots|
    requires Pass(C, p, s) == FinishLine(C, p, s, RoomFor(C, p, s), LineScan(C, p, s), next, more, soft)
    ensures Safe(C, p, Pass(C, p, s), rf)
  {
    PassProgress(C, p, s);
    LinePlaces(C, p, s, rf, next, more, soft);
    RoomOk(C, p, s);
    if rf {
      RightOfMonotone(C, s.child, next);
    }
    var r, t := RoomFor(C, p, s), Pass(C, p, s);
    forall i | Placed(C, t.slots, i, rf)
      ensures Accounted(p, C[i], t.slots[i], t.y, t.lm, t.rm, RightOf(C, next))
    {
      if !New(C, s.slots, t.slots, i, rf) {
        AccountsGoDown(p, C[i], s.slots[i], s.y, s.lm, s.rm, r.right, r.y, t.y, RightOf(C, next));
      }
    }
    forall i, j | 0 <= i < j && Placed(C, t.slots, i, rf) && Placed(C, t.slots, j, rf)
      ensures Apart(C[i], t.slots[i], C[j], t.slots[j])
    {
      if New(C, s.slots, t.slots, i, rf) && !New(C, s.slots, t.slots, j, rf) {
        RoomIsClear(C, p, s, rf, j, C[i], t.slots[i]);
      } else if New(C, s.slots, t.slots, j, rf) && !New(C, s.slots, t.slots, i, rf) {
        RoomIsClear(C, p, s, rf, i, C[j], t.slots[j]);
      }
    }
  }

  lemma PassSafe(C: seq<Child>, p: Page, s: State, rf: bool)
    requires Safe(C, p, s, rf) && s.child < |C| && (rf ==> RightSteady(C))
    ensures Safe(C, p, Pass(C, p, s), rf)
  {
    LineScanOk(C, p, s);
    var k := LineScan(C, p, s);
    match k.result
    case Floating => PlaceFloatSafe(C, p, s, rf);
    case Fits => FinishLineSafe(C, p, s, rf, if k.ch < |C| then k.ch + 1 else k.ch, false, true);
    case Newline(_, _) => FinishLineSafe(C, p, s, rf, k.ch + 1, false, k.soft);
    case NoFit =>
      if k.ch == s.child {
        MoveDownSafe(C, p, s, rf);
      } else {
        FinishLineSafe(C, p, s, rf, k.ch, true, true);
      }
  }

  lemma {:induction false} RunSafe(C: seq<Child>, p: Page, s: State, rf: bool)
    requires Safe(C, p, s, rf) && (rf ==> RightSteady(C))
    ensures Safe(C, p, Run(C, p, s), rf)
    decreases |C| - s.child, Unplaced(C, s.slots, s.child), OpenCount(s), Force01(s)
  {
    if s.child < |C| {
      PassProgress(C, p, s);
      PassSafe(C, p, s, rf);
      RunSafe(C, p, Pass(C, p, s), rf);
    }
  }

  /** A layout from the top puts every visible box that is not a bullet, floating or not, clear
      of every other, whatever the indents; where right floats are concerned, provided that the
      right indents never decrease along the body. */
  lemma NoOverlap(C: seq<Child>, p: Page)
    ensures Ready(C, Start(C, p))
    ensures var t := Run(C, p, Start(C, p));
            forall i, j :: 0 <= i < j < |C| && Solid(C[i]) && Solid(C[j])
                           && (C[i].role.FloatRight? || C[j].role.FloatRight? ==> RightSteady(C)) ==>
              && t.slots[i].Aligned? && t.slots[j].Aligned?
              && Apart(C[i], t.slots[i], C[j], t.slots[j])
  {
    LayoutEnds(C, p);
    var t := Run(C, p, Start(C, p));
    RunSafe(C, p, Start(C, p), false);
    if RightSteady(C) {
      RunSafe(C, p, Start(C, p), true);
    }
    forall i, j | 0 <= i < j < |C| && Solid(C[i]) && Solid(C[j])
                  && (C[i].role.FloatRight? || C[j].role.FloatRight? ==> RightSteady(C))
      ensures Apart(C[i], t.slots[i], C[j], t.slots[j])
    {
      var rf := C[i].role.FloatRight? || C[j].role.FloatRight?;
      assert Placed(C, t.slots, i, rf) && Placed(C, t.slots, j, rf);
    }
  }

  /** Where a right float goes, and the margin it leaves at the head of the list. */
  lemma RightFloatLands(C: seq<Child>, p: Page, s: State)
    requires s.child < |C| == |s.slots| && LineScan(C, p, s).result.Floating?
    ensures var r, k, t := RoomFor(C, p, s), LineScan(C, p, s), Pass(C, p, s);
            && k.ch < |C| && C[k.ch].Box? && |t.slots| == |C|
            && (C[k.ch].role.FloatRight? ==>
                  && t.slots[k.ch] == Aligned(Max(r.width - C[k.ch].w, 0), r.y) && t.rm != []
                  && t.rm[0] == Margin(r.y + C[k.ch].h, C[k.ch].w + Head(r.rm), r.left))
  {
    ScanShape(C, RoomFor(C, p, s), s.force, StartCursor(s, RoomFor(C, p, s)));
  }

  /** A right float was placed from s, and its margin is at the head at the line of u.  That line's
      room is clear of the float if and only if its right indent is at least the one that the float was
      placed at; and if the float was too wide for its own line, if and only if there is no room. */
  lemma RightFloatClearExactly(C: seq<Child>, p: Page, s: State, u: State)
    requires s.child < |C| == |s.slots| && LineScan(C, p, s).result.Floating?
    requires u.child < |C| && LineScan(C, p, s).ch < |C| && C[LineScan(C, p, s).ch].Box?
    requires C[LineScan(C, p, s).ch].role.FloatRight?
    requires RoomFor(C, p, u).rm != [] && Pass(C, p, s).rm != [] && RoomFor(C, p, u).rm[0] == Pass(C, p, s).rm[0]
    ensures |Pass(C, p, s).slots| == |C| && Pass(C, p, s).slots[LineScan(C, p, s).ch].Aligned?
    ensures var r, r', c, a := RoomFor(C, p, s), RoomFor(C, p, u), C[LineScan(C, p, s).ch], Pass(C, p, s).slots[LineScan(C, p, s).ch];
            r'.width <= a.x <==> if c.w <= r.width then r.right <= r'.right else r'.width <= 0
  {
    RightFloatLands(C, p, s);
  }

  const FLOAT_THEN_TEXT := [Box(0, 1, AlignLeft, true, 20, 20, FloatRight, Top), Box(0, 0, AlignLeft, true, 10, 70, Inline, Top)]
  const BARE_PAGE := Page(100, 0, 0)
  const FLOATED := State(0, 0, true, true, false, Some(0), false, [], [Margin(20, 20, 0)], [], [Aligned(40, 0), Fresh])
  const NEXT_LINE := State(1, 0, true, false, false, None, true, [], [Margin(20, 20, 0)],
                           [Line(0, 0, 0, true, true)], [Aligned(40, 0), Laid(0)])

  lemma FloatIsPlaced()
    ensures Pass(FLOAT_THEN_TEXT, BARE_PAGE, Start(FLOAT_THEN_TEXT, BARE_PAGE)) == FLOATED
  {
  }

  const NARROW := Room(0, [], [Margin(20, 20, 0)], 0, 0, 40, 0, 1, AlignLeft, false)
  const RETRIED := Cursor(0, 0, true, true, false, false, Some(0), 0, 0, 0, 0, [Aligned(40, 0), Fresh], Fits, 0)
  const SKIPPED := RETRIED.(ch := 1, retry := false, pending := None)
  const TOO_WIDE := SKIPPED.(slots := [Aligned(40, 0), Laid(0)], result := NoFit, last := 70)

  lemma FloatIsSkipped()
    ensures RoomFor(FLOAT_THEN_TEXT, BARE_PAGE, FLOATED) == NARROW && StartCursor(FLOATED, NARROW) == RETRIED
    ensures ScanChild(FLOAT_THEN_TEXT, NARROW, false, RETRIED) == (SKIPPED, false)
  {
    assert RETRIED.slots[0 := RETRIED.slots[0]] == RETRIED.slots;
  }

  lemma TextIsTooWide()
    ensures ScanChild(FLOAT_THEN_TEXT, NARROW, false, SKIPPED) == (TOO_WIDE, true)
  {
    assert SKIPPED.slots[1 := Laid(0)] == TOO_WIDE.slots;
  }

  lemma TextIsPutOff()
    ensures Finish(FLOAT_THEN_TEXT, BARE_PAGE, FLOATED, NARROW, TOO_WIDE) == NEXT_LINE
  {
    var a := AlignRange(FLOAT_THEN_TEXT, TOO_WIDE.slots, 0, 1, 0, 0, -1);
    assert a[0] == Aligned(40, 0) && a[1] == Laid(0) && |a| == 2;
    assert a == NEXT_LINE.slots;
  }

  lemma TextGoesToNextLine()
    ensures Pass(FLOAT_THEN_TEXT, BARE_PAGE, FLOATED) == NEXT_LINE
  {
    FloatIsSkipped();
    TextIsTooWide();
    ScanTwo(FLOAT_THEN_TEXT, NARROW, false, RETRIED, SKIPPED, TOO_WIDE);
    PassIs(FLOAT_THEN_TEXT, BARE_PAGE, FLOATED, NARROW, TOO_WIDE);
    TextIsPutOff();
  }

  const WIDE := Room(0, [], [Margin(20, 20, 0)], 0, 0, 80, 0, 0, AlignLeft, false)
  const BEGUN := Cursor(1, 0, true, false, false, true, None, 0, 0, 0, 0, [Aligned(40, 0), Laid(0)], Fits, 0)
  const ENDED := Cursor(2, 70, false, false, false, false, None, 0, 0, 10, 70, [Aligned(40, 0), Laid(0)], Fits, 70)

  lemma TextFits()
    ensures RoomFor(FLOAT_THEN_TEXT, BARE_PAGE, NEXT_LINE) == WIDE && StartCursor(NEXT_LINE, WIDE) == BEGUN
    ensures ScanChild(FLOAT_THEN_TEXT, WIDE, false, BEGUN) == (ENDED, false)
  {
    assert BEGUN.slots[1 := Laid(0)] == BEGUN.slots;
  }

  lemma TextOverlaps()
    ensures var t := Pass(FLOAT_THEN_TEXT, BARE_PAGE, NEXT_LINE); t.child == 2 && t.slots == [Aligned(40, 0), Aligned(0, 0)]
  {
    TextFits();
    assert Scan(FLOAT_THEN_TEXT, WIDE, false, ENDED) == ENDED;
    assert LineScan(FLOAT_THEN_TEXT, BARE_PAGE, NEXT_LINE) == ENDED;
    var a := AlignRange(FLOAT_THEN_TEXT, ENDED.slots, 1, 2, 0, 0, -1);
    assert a[0] == Aligned(40, 0) && a[1] == Aligned(0, 0) && |a| == 2;
  }

  /** The condition on right indents is needed: a right float inside a deeper right indent is
      overlapped by the next line, which is not indented on the right. */
  lemma RightIndentsMatter()
    ensures var C, p := FLOAT_THEN_TEXT, BARE_PAGE;
            && Ready(C, Start(C, p))
            && Run(C, p, Start(C, p)).slots == [Aligned(40, 0), Aligned(0, 0)]
            && !Apart(C[0], Aligned(40, 0), C[1], Aligned(0, 0))
  {
    var C, p := FLOAT_THEN_TEXT, BARE_PAGE;
    LayoutEnds(C, p);
    FloatIsPlaced();
    TextGoesToNextLine();
    TextOverlaps();
    ThreePasses(C, p, Start(C, p), FLOATED, NEXT_LINE);
  }
}
