/** What one layout of a body computes (aweb/body.c, aweb/element.c, aweb/break.c).

    The body breaks its children greedily into lines.  Each pass of the outer loop tries one
    line: it finds the y and the horizontal room for it, lets the children lay themselves out
    one by one, and then either aligns the children that fit and starts the next line, or
    tries again from the same child after placing a float, moving down, or asking for force.
 */
module Layout {
  import opened Basics
  import opened Margins

  datatype HAlign = AlignLeft | AlignCenter | AlignRight
  datatype VAlign = Bottom | Middle | Top
  datatype Role = Inline | Bullet | FloatLeft | FloatRight

  /** The attributes of a child that layout reads and never changes. */
  datatype Child =
    | Box(left: nat, right: nat, halign: HAlign, visible: bool, h: nat, w: nat, role: Role, valign: VAlign)
    | Break(left: nat, right: nat, halign: HAlign, visible: bool, h: nat,
            clearLeft: bool, clearRight: bool, wbr: bool)
  {
    predicate Floats() { Box? && (role.FloatLeft? || role.FloatRight?) }

    predicate IsBullet() { Box? && role.Bullet? }

    /** A break that asks for a new line and nothing else. */
    predicate PlainNewline() { Break? && !clearLeft && !clearRight && !wbr }
  }

  /** Where a child is: not laid out, laid out at some x, or aligned at its final place.
      A line break has no x of its own here. */
  datatype Slot = Fresh | Laid(x: int) | Aligned(x: int, y: int)

  datatype Line = Line(child: nat, y: int, w: int, more: bool, margin: bool)

  datatype Page = Page(width: int, hmargin: nat, vmargin: nat)

  /** The state between two passes of the outer loop. */
  datatype State = State(
    child: nat,              // first child of the line to try
    y: int,
    more: bool,              // flags for the next line
    retry: bool,
    force: bool,
    pending: Option<nat>,    // the float that was placed ahead of its line, if any
    soft: bool,              // the previous line ended without a line break
    lm: seq<Margin>,
    rm: seq<Margin>,
    lines: seq<Line>,
    slots: seq<Slot>)

  datatype Result = Fits | NoFit | Floating | Newline(clearLeft: bool, clearRight: bool)

  datatype Reply = Reply(result: Result, endx: int, above: int, below: int, toph: int)

  function Indent(n: nat): int { 40 * n }

  // ------------------------------------------------------------------------
  // The answer of one child

  function VAlignOf(c: Child): VAlign {
    if c.Break? || c.Floats() then Top else c.valign
  }

  predicate Skips(c: Child, slot: Slot, retry: bool) {
    c.Box? && retry && (slot.Aligned? || c.IsBullet())
  }

  function Answer(c: Child, slot: Slot, x: int, width: int, retry: bool, force: bool, first: bool): Reply {
    if c.Break? then
      Reply(if c.wbr && !c.clearLeft && !c.clearRight then Fits else Newline(c.clearLeft, c.clearRight),
            x, 0, 0, if first then c.h else 0)
    else if Skips(c, slot, retry) then
      Reply(Fits, x, 0, 0, 0)
    else
      var result := if x + c.w > width && !force then NoFit else if c.Floats() then Floating else Fits;
      match VAlignOf(c)
      case Bottom => Reply(result, x + c.w, c.h, 0, 0)
      case Middle => Reply(result, x + c.w, c.h / 2, c.h - c.h / 2, 0)
      case Top => Reply(result, x + c.w, 0, 0, c.h)
  }

  function SlotAfter(c: Child, slot: Slot, x: int, retry: bool): Slot {
    if c.Break? then Laid(0) else if Skips(c, slot, retry) then slot else Laid(x)
  }

  /** Alignment leaves a box that is already aligned alone. */
  function Align(c: Child, slot: Slot, dx: int, y: int, baseline: int): Slot {
    if c.Break? then Aligned(0, y)
    else if slot.Aligned? then slot
    else
      var x := if slot.Laid? then slot.x + dx else dx;
      match VAlignOf(c)
      case Bottom => Aligned(x, y + baseline - c.h + 1)
      case Middle => Aligned(x, y + baseline - c.h / 2 + 1)
      case Top => Aligned(x, y)
  }

  // ------------------------------------------------------------------------
  // The room for a line

  datatype Room = Room(y: int, lm: seq<Margin>, rm: seq<Margin>, base: int, startx: int, width: int,
                       left: nat, right: nat, halign: HAlign, bullet: bool)

  function SeekVisible(C: seq<Child>, i: nat): nat
    requires i <= |C|
    ensures i <= SeekVisible(C, i) <= |C|
    decreases |C| - i
  {
    if i == |C| || C[i].visible then i else SeekVisible(C, i + 1)
  }

  lemma {:induction false} SeekMonotone(C: seq<Child>, i: nat, j: nat)
    requires i <= j <= |C|
    ensures SeekVisible(C, i) <= SeekVisible(C, j)
    ensures forall k :: i <= k < SeekVisible(C, i) ==> !C[k].visible
    decreases |C| - i
  {
    if i < |C| && !C[i].visible {
      SeekMonotone(C, i + 1, if i == j then j + 1 else j);
    }
  }

  lemma {:induction false} VisibleAtSeek(C: seq<Child>, i: nat)
    requires i <= |C|
    ensures SeekVisible(C, i) < |C| ==> C[SeekVisible(C, i)].visible
    decreases |C| - i
  {
    if i < |C| && !C[i].visible {
      VisibleAtSeek(C, i + 1);
    }
  }

  /** The child that gives a line its alignment and indents. */
  function Leader(C: seq<Child>, i: nat): nat
    requires i < |C|
    ensures i <= Leader(C, i) < |C|
  {
    var j := SeekVisible(C, i);
    if j == |C| then i else j
  }

  function RoomFor(C: seq<Child>, p: Page, s: State): Room
    requires s.child < |C|
  {
    var c := C[Leader(C, s.child)];
    var y := if c.IsBullet() then (if s.retry then s.y else FindIndent(s.lm, s.y, c.left))
             else FindIndent(s.lm, s.y, c.left + 1);
    var lm, rm := Open(s.lm, y), Open(s.rm, y);
    var base := p.hmargin + Head(lm) + Indent(c.left);
    var startx := if c.IsBullet() then Max(p.hmargin + Head(lm), base - 8 - c.w) else base;
    Room(y, lm, rm, base, startx, p.width - p.hmargin - Head(rm) - Indent(c.right),
         c.left, c.right, c.halign, c.IsBullet())
  }

  // ------------------------------------------------------------------------
  // Scanning the children of a line

  datatype Cursor = Cursor(ch: nat, startx: int, first: bool, retry: bool, bullet: bool, soft: bool,
                           pending: Option<nat>, above: int, below: int, toph: int, endx: int,
                           slots: seq<Slot>, result: Result, last: int)

  function StartCursor(s: State, r: Room): Cursor {
    Cursor(s.child, r.startx, true, s.retry, r.bullet, s.soft, s.pending, 0, 0, 0, 0, s.slots, Fits, 0)
  }

  /** Take the answer of the child at the cursor into account; the flag says whether the line
      ends with that child. */
  function Absorb(c: Child, r: Room, k: Cursor, a: Reply): (Cursor, bool) {
    var swallowed := k.soft && a.result == Newline(false, false);
    var result := if swallowed then Fits else a.result;
    var counts := !swallowed && !a.result.NoFit? && !a.result.Floating?;
    var here := k.pending == Some(k.ch);
    var k' := k.(
      retry := (k.retry || k.pending.Some?) && !here,
      pending := if here then None else k.pending,
      above := if counts then Max(k.above, a.above) else k.above,
      below := if counts then Max(k.below, a.below) else k.below,
      toph := if counts then Max(k.toph, a.toph) else k.toph,
      endx := if counts then a.endx else k.endx,
      result := result,
      last := a.endx);
    if result != Fits || a.endx > r.width then (k', true)
    else
      var x := if a.endx > k.startx then a.endx else k.startx;
      (k'.(ch := k.ch + 1,
           first := k.first && a.endx <= k.startx,
           soft := false,
           startx := if k.bullet && c.visible then Max(x, r.base) else x,
           bullet := k.bullet && !c.visible), false)
  }

  /** Lay out the child at the cursor. */
  function ScanChild(C: seq<Child>, r: Room, force: bool, k: Cursor): (Cursor, bool)
    requires k.ch < |C| == |k.slots|
  {
    var c, slot := C[k.ch], k.slots[k.ch];
    var retry := k.retry || k.pending.Some?;
    var a := Answer(c, slot, k.startx, r.width, retry, force, k.first);
    Absorb(c, r, k.(slots := k.slots[k.ch := SlotAfter(c, slot, k.startx, retry)]), a)
  }

  function Scan(C: seq<Child>, r: Room, force: bool, k: Cursor): Cursor
    requires k.ch <= |C| == |k.slots|
    ensures Scan(C, r, force, k).ch <= |C| == |Scan(C, r, force, k).slots|
    decreases |C| - k.ch
  {
    if k.ch == |C| then k
    else
      var (k', stop) := ScanChild(C, r, force, k);
      if stop then k' else Scan(C, r, force, k')
  }

  // ------------------------------------------------------------------------
  // Ending a pass

  function Shift(halign: HAlign, endx: int, width: int): int {
    if endx >= width then 0
    else match halign
      case AlignLeft => 0
      case AlignCenter => (width - endx) / 2
      case AlignRight => width - endx
  }

  function AlignRange(C: seq<Child>, slots: seq<Slot>, from: nat, to: nat, dx: int, y: int, baseline: int): (r: seq<Slot>)
    requires to <= |C| == |slots|
  {
    seq(|slots|, i requires 0 <= i < |slots| =>
      if from <= i < to then Align(C[i], slots[i], dx, y, baseline) else slots[i])
  }

  /** Align the children before `next`, add the line to the index and go on with `next`. */
  function FinishLine(C: seq<Child>, p: Page, s: State, r: Room, k: Cursor, next: nat, more: bool, soft: bool): State
    requires next <= |C| == |k.slots|
  {
    var bottomh := Max(0, k.above + k.below);
    var y := r.y + Max(k.toph, bottomh);
    State(next,
          if k.result.Newline? then FindClear(r.lm, r.rm, y, k.result.clearLeft, k.result.clearRight) else y,
          more, false, false, k.pending, soft, r.lm, r.rm,
          s.lines + [Line(s.child, r.y, k.endx + p.hmargin, s.more, r.lm != [] || r.rm != [])],
          AlignRange(C, k.slots, s.child, next, Shift(r.halign, k.endx, r.width), r.y, bottomh - k.below - 1))
  }

  function FloatX(c: Child, r: Room, x: int): int
    requires c.Box?
  {
    x + if c.role.FloatRight? then Max(r.width - x - c.w, -x) else r.base - x
  }

  /** Place the float at the cursor now, and retry the line from its first child. */
  function PlaceFloat(C: seq<Child>, s: State, r: Room, k: Cursor): State
    requires k.ch < |C| == |k.slots| && C[k.ch].Box?
  {
    var c := C[k.ch];
    var bottom := r.y + c.h;
    State(s.child, r.y, true, true, false, Some(k.ch), k.soft,
          if c.role.FloatRight? then r.lm else Add(r.lm, bottom, c.w, r.left),
          if c.role.FloatRight? then Add(r.rm, bottom, c.w, r.left) else r.rm,
          s.lines, k.slots[k.ch := Aligned(FloatX(c, r, k.startx), r.y)])
  }

  /** The first child does not fit: move down to where it does, or force it. */
  function MoveDown(p: Page, s: State, r: Room, k: Cursor): State {
    var need := k.last - r.base + Indent(r.left) + Indent(r.right) + 2 * p.hmargin;
    var y := Find(r.lm, r.rm, r.y, p.width - need);
    State(s.child, y, true, false, y <= r.y, k.pending, k.soft, r.lm, r.rm, s.lines, k.slots)
  }

  function Finish(C: seq<Child>, p: Page, s: State, r: Room, k: Cursor): State
    requires s.child <= k.ch <= |C| == |k.slots|
    requires k.ch == |C| ==> k.result.Fits?
    requires k.result.Floating? ==> C[k.ch].Box?
  {
    match k.result
    case Fits => FinishLine(C, p, s, r, k, if k.ch < |C| then k.ch + 1 else k.ch, false, true)
    case Newline(_, _) => FinishLine(C, p, s, r, k, k.ch + 1, false, k.soft)
    case NoFit => if k.ch == s.child then MoveDown(p, s, r, k)
                  else FinishLine(C, p, s, r, k, k.ch, true, true)
    case Floating => PlaceFloat(C, s, r, k)
  }

  function LineScan(C: seq<Child>, p: Page, s: State): Cursor
    requires s.child < |C| == |s.slots|
  {
    var r := RoomFor(C, p, s);
    Scan(C, r, s.force, StartCursor(s, r))
  }

  lemma {:induction false} ScanShape(C: seq<Child>, r: Room, force: bool, k: Cursor)
    requires k.ch <= |C| == |k.slots|
    ensures var k' := Scan(C, r, force, k);
            && k.ch <= k'.ch
            && (k'.ch == |C| && k.result.Fits? ==> k'.result.Fits?)
            && (k.result.Fits? && !k'.result.Fits? ==> k'.ch < |C|)
            && (k.result.Fits? && k'.result.NoFit? ==> !force && k'.last > r.width)
            && (k'.ch < |C| && k'.result.Floating? ==> C[k'.ch].Box?)
    decreases |C| - k.ch
  {
    if k.ch < |C| {
      var (k1, stop) := ScanChild(C, r, force, k);
      if !stop {
        ScanShape(C, r, force, k1);
      }
    }
  }

  /** One pass of the outer loop. */
  function Pass(C: seq<Child>, p: Page, s: State): State
    requires s.child < |C| == |s.slots|
  {
    var r := RoomFor(C, p, s);
    ScanShape(C, r, s.force, StartCursor(s, r));
    Finish(C, p, s, r, LineScan(C, p, s))
  }
}
