/** The body object and its elements, laid out in place (aweb/body.c, aweb/element.c,
    aweb/break.c).  Each method is proved to do what the functions of `Layout` say. */
module Body {
  import opened Basics
  import opened Margins
  import opened Layout
  import opened LayoutRun
  import opened LayoutRestart
  import opened LayoutRoomy

  /** The flags a pass leaves for the next one. */
  datatype Flags = Flags(more: bool, retry: bool, force: bool)

  /** One child of the body: a box or a line break. */
  class Element {
    const c: Child
    var aox: int
    var aoy: int
    var aligned: bool

    constructor (c: Child)
      ensures this.c == c && At(Fresh)
    {
      this.c := c;
      aox, aoy, aligned := 0, 0, false;
    }

    /** Whether the element is where a slot says. */
    ghost predicate At(slot: Slot)
      reads this
    {
      if c.Break? then slot.Aligned? ==> aoy == slot.y
      else match slot
        case Fresh => !aligned
        case Laid(x) => !aligned && aox == x
        case Aligned(x, y) => aligned && aox == x && aoy == y
    }

    method LayoutAt(x: int, width: int, retry: bool, force: bool, first: bool, ghost slot: Slot) returns (a: Reply)
      requires At(slot)
      modifies this
      ensures a == Answer(c, slot, x, width, retry, force, first)
      ensures At(SlotAfter(c, slot, x, retry))
    {
      match c {
        case Break(_, _, _, _, h, clearLeft, clearRight, wbr) =>
          var toph := if first then h else 0;
          var result := if !clearLeft && !clearRight && wbr then Fits else Newline(clearLeft, clearRight);
          a := Reply(result, x, 0, 0, toph);
        case Box(_, _, _, _, h, w, role, valign) =>
          if retry && (aligned || role.Bullet?) {
            a := Reply(Fits, x, 0, 0, 0);
          } else {
            aox := x;
            var result := if aox + w > width && !force then NoFit
                          else if role.FloatLeft? || role.FloatRight? then Floating else Fits;
            var above, below, toph := 0, 0, 0;
            match VAlignOf(c) {
              case Bottom => above := h;
              case Middle => above := h / 2; below := h - above;
              case Top => toph := h;
            }
            a := Reply(result, aox + w, above, below, toph);
            aligned := false;
          }
      }
    }

    method AlignAt(dx: int, y: int, baseline: int, ghost slot: Slot)
      requires At(slot) && !slot.Fresh?
      modifies this
      ensures At(Align(c, slot, dx, y, baseline))
    {
      match c {
        case Break(_, _, _, _, _, _, _, _) =>
          aox := aox + dx;
          aoy := y;
        case Box(_, _, _, _, h, _, _, _) =>
          if !aligned {
            aox := aox + dx;
            match VAlignOf(c) {
              case Bottom => aoy := y + baseline - h + 1;
              case Middle => aoy := y + baseline - h / 2 + 1;
              case Top => aoy := y;
            }
            aligned := true;
          }
      }
    }

    method ResetLayout()
      modifies this
      ensures At(Fresh)
    {
      aligned := false;
    }
  }

  class Body {
    const hmargin: nat
    const vmargin: nat
    var contents: seq<Element>
    var leftmargins: seq<Margin>
    var rightmargins: seq<Margin>
    var lines: seq<Line>
    var changedChild: bool
    var aoh: int
    ghost var placed: seq<Slot>   // where the children that were laid out so far are

    constructor (hmargin: nat, vmargin: nat)
      ensures Valid() && contents == [] && lines == []
    {
      this.hmargin, this.vmargin := hmargin, vmargin;
      contents, leftmargins, rightmargins, lines := [], [], [], [];
      changedChild, aoh, placed := false, 0, [];
    }

    static ghost function Kinds(es: seq<Element>): (C: seq<Child>)
      ensures |C| == |es| && forall i :: 0 <= i < |C| ==> C[i] == es[i].c
    {
      seq(|es|, i requires 0 <= i < |es| => es[i].c)
    }

    ghost predicate Distinct()
      reads this
    {
      forall i, j :: 0 <= i < j < |contents| ==> contents[i] != contents[j]
    }

    ghost predicate AllAt(slots: seq<Slot>)
      reads this, contents
    {
      |slots| <= |contents| && forall i :: 0 <= i < |slots| ==> contents[i].At(slots[i])
    }

    ghost predicate Valid()
      reads this, contents
    {
      && Distinct()
      && AllAt(placed)
      && (forall i :: 0 <= i < |placed| ==> placed[i].Aligned?)
      && (forall l <- lines :: l.child < |placed| && l.y >= 0)
      && Staircase(leftmargins) && Staircase(rightmargins) && DeepestFirst(leftmargins)
    }

    /** The margins, the line index and the variables of the outer loop are those of a state. */
    ghost predicate Matches(s: State, child: nat, y: int, flags: Flags, floatchild: Option<nat>, softnl: bool)
      reads this
    {
      && s.child == child && s.y == y && s.soft == softnl && s.pending == floatchild
      && s.more == flags.more && s.retry == flags.retry && s.force == flags.force
      && s.lm == leftmargins && s.rm == rightmargins && s.lines == lines
    }

    /** Append a child; the next layout of the changed body will lay it out. */
    method AddChild(e: Element)
      requires Valid() && e !in contents
      modifies this
      ensures Valid() && contents == old(contents) + [e] && changedChild
      ensures lines == old(lines) && placed == old(placed)
      ensures leftmargins == old(leftmargins) && rightmargins == old(rightmargins)
    {
      contents := contents + [e];
      changedChild := true;
    }

    // ----------------------------------------------------------------------
    // Margins

    method AddMargin(y: int, eaten: int, indent: int, left: bool)
      modifies `leftmargins, `rightmargins
      ensures leftmargins == if left then Add(old(leftmargins), y, eaten, indent) else old(leftmargins)
      ensures rightmargins == if left then old(rightmargins) else Add(old(rightmargins), y, eaten, indent)
    {
      var list := if left then leftmargins else rightmargins;
      var margin := Margin(y, eaten, indent);
      if list != [] {
        margin := margin.(eaten := eaten + list[0].eaten);
      }
      list := DropEnded(list, y);
      list := [margin] + list;
      if left {
        leftmargins := list;
      } else {
        rightmargins := list;
      }
    }

    static method DropEnded(ms: seq<Margin>, y: int) returns (r: seq<Margin>)
      ensures r == Open(ms, y)
    {
      r := ms;
      while r != [] && r[0].y <= y
        invariant Open(r, y) == Open(ms, y)
        decreases |r|
      {
        r := r[1..];
      }
    }

    method CurrentMargin(y: int) returns (left: int, right: int)
      modifies `leftmargins, `rightmargins
      ensures leftmargins == Open(old(leftmargins), y) && rightmargins == Open(old(rightmargins), y)
      ensures left == EatenAt(old(leftmargins), y) && right == EatenAt(old(rightmargins), y)
    {
      leftmargins := DropEnded(leftmargins, y);
      rightmargins := DropEnded(rightmargins, y);
      left := if leftmargins != [] then leftmargins[0].eaten else 0;
      right := if rightmargins != [] then rightmargins[0].eaten else 0;
    }

    method FindMargin(y: int, eaten: int) returns (r: int)
      ensures r == Find(leftmargins, rightmargins, y, eaten)
    {
      var fy := y;
      var lm, rm := leftmargins, rightmargins;
      while lm != [] || rm != []
        invariant FindFrom(lm, rm, fy, eaten) == FindFrom(leftmargins, rightmargins, y, eaten)
        decreases |lm| + |rm|
      {
        var leaten := if lm != [] then lm[0].eaten else 0;
        var reaten := if rm != [] then rm[0].eaten else 0;
        if leaten + reaten <= eaten {
          break;
        }
        if lm != [] {
          fy := lm[0].y;
          if rm != [] {
            fy := Min(fy, rm[0].y);
          }
        } else {
          fy := rm[0].y;
        }
        if lm != [] && lm[0].y == fy {
          lm := lm[1..];
        }
        if rm != [] && rm[0].y == fy {
          rm := rm[1..];
        }
      }
      r := Max(y, fy);
    }

    method FindClearMargin(y: int, left: bool, right: bool) returns (r: int)
      ensures r == FindClear(leftmargins, rightmargins, y, left, right)
    {
      r := y;
      if left && leftmargins != [] {
        r := Max(r, leftmargins[|leftmargins| - 1].y);
      }
      if right && rightmargins != [] {
        r := Max(r, rightmargins[|rightmargins| - 1].y);
      }
    }

    method FindIndentMargin(y: int, indent: int) returns (r: int)
      ensures r == FindIndent(leftmargins, y, indent)
    {
      r := y;
      var m := 0;
      while m < |leftmargins|
        invariant 0 <= m <= |leftmargins|
        invariant FindIndent(leftmargins[m..], r, indent) == FindIndent(leftmargins, y, indent)
      {
        if leftmargins[m].indent < indent {
          break;
        }
        if leftmargins[m].y > r {
          r := leftmargins[m].y;
        }
        m := m + 1;
      }
    }

    // ----------------------------------------------------------------------
    // Lines

    method RemoveLinesFlags()
      modifies `lines
      ensures lines == Trim(old(lines))
    {
      while lines != [] && (lines[|lines| - 1].more || lines[|lines| - 1].margin)
        invariant Trim(lines) == Trim(old(lines))
        decreases |lines|
      {
        lines := lines[..|lines| - 1];
      }
    }

    /** Remove the lines below y, and all lines at y but the first. */
    method RemoveLinesBelow(y: int)
      modifies `lines
      ensures (forall l <- old(lines) :: l.y > y) ==> lines == []
      ensures lines <= old(lines)
    {
      while lines != [] && lines[|lines| - 1].y > y
        invariant lines <= old(lines)
        invariant (forall l <- old(lines) :: l.y > y) ==> forall l <- lines :: l.y > y
        decreases |lines|
      {
        lines := lines[..|lines| - 1];
      }
      var n := |lines|;
      while n > 0 && lines[n - 1].y == y
        invariant 0 <= n <= |lines| && lines <= old(lines)
        invariant (forall l <- old(lines) :: l.y > y) ==> lines == []
        invariant n == |lines| || (n == |lines| - 1 && (n == 0 || lines[n - 1].y != y))
      {
        if n > 1 && lines[n - 2].y == y {
          lines := lines[..n - 1];
        }
        n := n - 1;
      }
    }

    // ----------------------------------------------------------------------
    // One line

    /** Find the y and the room for the line that begins at `child`. */
    method FindRoom(child: nat, y: int, retry: bool, width: int, ghost C: seq<Child>, ghost s: State) returns (r: Room)
      requires C == Kinds(contents) && child < |C| && s.child == child && s.y == y && s.retry == retry
      requires s.lm == leftmargins && s.rm == rightmargins
      modifies `leftmargins, `rightmargins
      ensures r == RoomFor(C, Page(width, hmargin, vmargin), s)
      ensures leftmargins == r.lm && rightmargins == r.rm
    {
      var ch := child;
      while ch < |contents| && !contents[ch].c.visible
        invariant child <= ch <= |contents|
        invariant SeekVisible(C, ch) == SeekVisible(C, child)
      {
        ch := ch + 1;
      }
      if ch == |contents| {
        ch := child;
      }
      var c := contents[ch].c;
      var bullet := c.IsBullet();
      var y := y;
      if bullet {
        if !retry {
          y := FindIndentMargin(y, c.left);
        }
      } else {
        y := FindIndentMargin(y, c.left + 1);
      }
      var margleft, margright := CurrentMargin(y);
      var startx := hmargin + margleft + Indent(c.left);
      var room := width - hmargin - margright - Indent(c.right);
      if bullet {
        startx := Max(hmargin + margleft, startx - 8 - c.w);
      }
      r := Room(y, leftmargins, rightmargins, hmargin + margleft + Indent(c.left), startx, room,
                c.left, c.right, c.halign, bullet);
    }

    method LayoutChild(ch: nat, x: int, width: int, retry: bool, force: bool, first: bool,
                       ghost C: seq<Child>, ghost slots: seq<Slot>) returns (a: Reply)
      requires C == Kinds(contents) && ch < |C| == |slots|
      requires Distinct() && AllAt(slots)
      modifies contents
      ensures a == Answer(C[ch], slots[ch], x, width, retry, force, first)
      ensures AllAt(slots[ch := SlotAfter(C[ch], slots[ch], x, retry)])
    {
      a := contents[ch].LayoutAt(x, width, retry, force, first, slots[ch]);
    }

    static method AbsorbAnswer(ghost c: Child, visible: bool, r: Room, k: Cursor, a: Reply) returns (k': Cursor, stop: bool)
      requires visible == c.visible
      ensures (k', stop) == Absorb(c, r, k, a)
    {
      k' := k.(retry := k.retry || k.pending.Some?, result := a.result, last := a.endx);
      if k.soft && a.result == Newline(false, false) {
        // a hard line break right after a soft one: ignore it
        k' := k'.(result := Fits);
      } else if !a.result.NoFit? && !a.result.Floating? {
        k' := k'.(above := Max(k.above, a.above), below := Max(k.below, a.below), toph := Max(k.toph, a.toph), endx := a.endx);
      }
      if k.pending == Some(k.ch) {
        k' := k'.(retry := false, pending := None);
      }
      stop := k'.result != Fits || a.endx > r.width;
      if !stop {
        if a.endx > k.startx {
          k' := k'.(startx := a.endx, first := false);
        }
        k' := k'.(soft := false);
        if k.bullet && visible {
          // back to the margin after the bullet, but allow long bullets
          k' := k'.(startx := Max(k'.startx, r.base), bullet := false);
        }
        k' := k'.(ch := k.ch + 1);
      }
    }

    static lemma AbsorbSlots(c: Child, r: Room, k: Cursor, a: Reply, slots: seq<Slot>)
      ensures var (k', stop) := Absorb(c, r, k, a);
              Absorb(c, r, k.(slots := slots), a) == (k'.(slots := slots), stop)
    {
    }

    /** Let one child lay itself out on the line; `stop` says whether the line ends with it. */
    method ScanOne(r: Room, force: bool, k: Cursor, ghost C: seq<Child>, ghost slots: seq<Slot>)
      returns (k': Cursor, stop: bool, ghost slots': seq<Slot>)
      requires C == Kinds(contents) && k.ch < |C| == |slots| && k.slots == []
      requires Distinct() && AllAt(slots)
      modifies contents
      ensures AllAt(slots') && |slots'| == |slots| && k'.slots == []
      ensures (k'.(slots := slots'), stop) == ScanChild(C, r, force, k.(slots := slots))
    {
      var retry := k.retry || k.pending.Some?;
      var a := LayoutChild(k.ch, k.startx, r.width, retry, force, k.first, C, slots);
      slots' := slots[k.ch := SlotAfter(C[k.ch], slots[k.ch], k.startx, retry)];
      k', stop := AbsorbAnswer(C[k.ch], contents[k.ch].c.visible, r, k, a);
      AbsorbSlots(C[k.ch], r, k, a, slots');
    }

    /** Let the children lay themselves out one by one until the line is full. */
    method ScanLine(r: Room, force: bool, start: Cursor, ghost C: seq<Child>, ghost slots: seq<Slot>)
      returns (k: Cursor, ghost slots': seq<Slot>)
      requires C == Kinds(contents) && start.ch <= |C| == |slots| && start.slots == []
      requires Distinct() && AllAt(slots)
      modifies contents
      ensures |slots'| == |C| && AllAt(slots') && k.slots == []
      ensures k.(slots := slots') == Scan(C, r, force, start.(slots := slots))
    {
      k, slots' := start, slots;
      while k.ch < |contents|
        invariant k.ch <= |C| == |slots'| && AllAt(slots') && k.slots == []
        invariant Scan(C, r, force, k.(slots := slots')) == Scan(C, r, force, start.(slots := slots))
        decreases |contents| - k.ch
      {
        var stop;
        k, stop, slots' := ScanOne(r, force, k, C, slots');
        if stop {
          break;
        }
      }
    }

    /** Align the children from `from` up to `end`. */
    method AlignLine(from: nat, end: nat, dx: int, y: int, baseline: int, ghost C: seq<Child>, ghost slots: seq<Slot>)
      requires C == Kinds(contents) && from <= end <= |C| == |slots|
      requires Distinct() && AllAt(slots)
      requires forall i :: from <= i < end ==> !slots[i].Fresh?
      modifies contents
      ensures AllAt(AlignRange(C, slots, from, end, dx, y, baseline))
    {
      var ch := from;
      assert AlignRange(C, slots, from, from, dx, y, baseline) == slots;
      while ch != end
        invariant from <= ch <= end
        invariant AllAt(AlignRange(C, slots, from, ch, dx, y, baseline))
        decreases end - ch
      {
        contents[ch].AlignAt(dx, y, baseline, slots[ch]);
        ch := ch + 1;
      }
    }

    /** Align the children of a line, index the line and find where the next one starts. */
    method EndLine(child: nat, wasMore: bool, r: Room, k: Cursor, next: nat, more: bool, soft: bool,
                   ghost C: seq<Child>, ghost p: Page, ghost s: State, ghost slots: seq<Slot>)
      returns (y: int, ghost t: State)
      requires C == Kinds(contents) && child <= next <= |C| == |slots| && k.slots == []
      requires s.child == child && s.more == wasMore && s.lines == lines && p.hmargin == hmargin
      requires leftmargins == r.lm && rightmargins == r.rm
      requires Distinct() && AllAt(slots)
      requires forall i :: child <= i < next ==> !slots[i].Fresh?
      modifies `lines, contents
      ensures t == FinishLine(C, p, s, r, k.(slots := slots), next, more, soft)
      ensures AllAt(t.slots) && lines == t.lines && y == t.y
    {
      t := FinishLine(C, p, s, r, k.(slots := slots), next, more, soft);
      var bottomh := Max(0, k.above + k.below);
      AlignLine(child, next, Shift(r.halign, k.endx, r.width), r.y, bottomh - k.below - 1, C, slots);
      lines := lines + [Line(child, r.y, k.endx + hmargin, wasMore, leftmargins != [] || rightmargins != [])];
      y := r.y + Max(k.toph, bottomh);
      if k.result.Newline? {
        y := FindClearMargin(y, k.result.clearLeft, k.result.clearRight);
      }
    }

    /** Align a floating child now, and add a margin for it. */
    method PlaceFloatingChild(r: Room, k: Cursor, ghost C: seq<Child>, ghost s: State, ghost slots: seq<Slot>)
      requires C == Kinds(contents) && k.ch < |C| == |slots| && C[k.ch].Floats() && slots[k.ch] == Laid(k.startx)
      requires leftmargins == r.lm && rightmargins == r.rm
      requires Distinct() && AllAt(slots)
      modifies `leftmargins, `rightmargins, contents
      ensures var t := PlaceFloat(C, s, r, k.(slots := slots));
              AllAt(t.slots) && leftmargins == t.lm && rightmargins == t.rm
    {
      var e := contents[k.ch];
      var dx := if e.c.role.FloatRight? then Max(r.width - e.aox - e.c.w, -e.aox) else r.base - e.aox;
      e.AlignAt(dx, r.y, 0, slots[k.ch]);
      AddMargin(e.aoy + e.c.h, e.c.w, r.left, !e.c.role.FloatRight?);
    }

    /** Act on the result of the scan. */
    method FinishPass(r: Room, k: Cursor, child: nat, wasMore: bool, width: int,
                      ghost C: seq<Child>, ghost p: Page, ghost s: State, ghost slots: seq<Slot>)
      returns (child': nat, y: int, flags: Flags, floatchild: Option<nat>, softnl: bool, ghost t: State)
      requires C == Kinds(contents) && p == Page(width, hmargin, vmargin) && child < |C| == |slots| && k.slots == []
      requires s.child == child && s.more == wasMore && s.lines == lines
      requires leftmargins == r.lm && rightmargins == r.rm
      requires Distinct() && AllAt(slots) && ScanDone(C, s, k.(slots := slots))
      modifies `leftmargins, `rightmargins, `lines, contents
      ensures child <= k.ch <= |C| && (k.ch == |C| ==> k.result.Fits?) && (k.result.Floating? ==> C[k.ch].Box?)
      ensures t == Finish(C, p, s, r, k.(slots := slots))
      ensures Matches(t, child', y, flags, floatchild, softnl) && AllAt(t.slots)
    {
      ghost var K := k.(slots := slots);
      assert forall i :: child <= i < |C| && Visited(C, slots, i) ==> !slots[i].Fresh?;
      child', floatchild, softnl, flags := child, k.pending, k.soft, Flags(false, false, false);
      match k.result {
        case Fits =>
          child', softnl := if k.ch < |contents| then k.ch + 1 else k.ch, true;
          y, t := EndLine(child, wasMore, r, k, child', false, true, C, p, s, slots);
        case Newline(_, _) =>
          child' := k.ch + 1;
          y, t := EndLine(child, wasMore, r, k, child', false, k.soft, C, p, s, slots);
        case NoFit =>
          if k.ch == child {
            var need := k.last - r.base + Indent(r.left) + Indent(r.right) + 2 * hmargin;
            y := FindMargin(r.y, width - need);
            flags := Flags(true, false, y <= r.y);
            t := MoveDown(p, s, r, K);
          } else {
            child', flags, softnl := k.ch, Flags(true, false, false), true;
            y, t := EndLine(child, wasMore, r, k, child', true, true, C, p, s, slots);
          }
        case Floating =>
          y, flags, floatchild := r.y, Flags(true, true, false), Some(k.ch);
          PlaceFloatingChild(r, k, C, s, slots);
          t := PlaceFloat(C, s, r, K);
      }
    }

    /** One pass of the outer loop. */
    method LayoutLine(child: nat, y: int, flags: Flags, floatchild: Option<nat>, softnl: bool, width: int,
                      ghost C: seq<Child>, ghost s: State)
      returns (child': nat, y': int, flags': Flags, floatchild': Option<nat>, softnl': bool, ghost t: State)
      requires C == Kinds(contents) && Matches(s, child, y, flags, floatchild, softnl)
      requires Ready(C, s) && child < |C| && Distinct() && AllAt(s.slots)
      modifies `leftmargins, `rightmargins, `lines, contents
      ensures t == Pass(C, Page(width, hmargin, vmargin), s)
      ensures Matches(t, child', y', flags', floatchild', softnl') && AllAt(t.slots)
    {
      ghost var p := Page(width, hmargin, vmargin);
      LineScanOk(C, p, s);
      PassFinishes(C, p, s);
      var r := FindRoom(child, y, flags.retry, width, C, s);
      var start := Cursor(child, r.startx, true, flags.retry, r.bullet, softnl, floatchild, 0, 0, 0, 0, [], Fits, 0);
      assert start.(slots := s.slots) == StartCursor(s, r);
      ghost var slots;
      var k;
      k, slots := ScanLine(r, flags.force, start, C, s.slots);
      child', y', flags', floatchild', softnl', t := FinishPass(r, k, child, flags.more, width, C, p, s, slots);
    }

    /** Where a layout begins: at a remembered line if only what changed is to be laid out, and
        at the top otherwise.  Margins a zero-width float left open are still there. */
    static ghost function Begin(C: seq<Child>, p: Page, changed: bool, lines: seq<Line>, placed: seq<Slot>,
                                lm: seq<Margin>, rm: seq<Margin>): State
      requires |placed| <= |C| && forall l <- lines :: l.child <= |placed|
    {
      (if changed then Restart(C, p, lines, placed) else Start(C, p)).(lm := lm, rm := rm)
    }

    static lemma BeginReady(C: seq<Child>, p: Page, changed: bool, lines: seq<Line>, placed: seq<Slot>,
                            lm: seq<Margin>, rm: seq<Margin>)
      requires |placed| <= |C| && forall l <- lines :: l.child < |placed| && l.y >= 0
      requires forall i :: 0 <= i < |placed| ==> placed[i].Aligned?
      requires Staircase(lm) && Staircase(rm) && DeepestFirst(lm)
      ensures var s := Begin(C, p, changed, lines, placed, lm, rm);
              Ready(C, s) && s.y >= 0 && LinesFrom(s.lines, 0) && LinesWithin(s.lines, |C|)
    {
      TrimIn(lines);
    }

    method ResetFrom(child: nat, ghost slots: seq<Slot>)
      requires child <= |contents| && child <= |slots| <= |contents|
      requires Distinct() && AllAt(slots)
      modifies contents
      ensures AllAt(FreshFrom(slots, child, |contents|))
    {
      var ch := child;
      while ch < |contents|
        invariant child <= ch <= |contents|
        invariant AllAt(slots[..child]) && forall i :: child <= i < ch ==> contents[i].At(Fresh)
      {
        contents[ch].ResetLayout();
        ch := ch + 1;
      }
    }

    /** Find where to begin, and forget what was laid out from there on. */
    method StartLayout(changed: bool, ghost C: seq<Child>, ghost p: Page) returns (child: nat, y: int, ghost s: State)
      requires Valid() && C == Kinds(contents) && p.vmargin == vmargin
      modifies `lines, contents
      ensures s == Begin(C, p, changed, old(lines), placed, leftmargins, rightmargins)
      ensures Matches(s, child, y, Flags(false, false, false), None, false) && AllAt(s.slots)
    {
      s := Begin(C, p, changed, lines, placed, leftmargins, rightmargins);
      if changed {
        TrimIn(lines);
        RemoveLinesFlags();
      } else {
        RemoveLinesBelow(-1);
      }
      child, y := 0, vmargin;
      if lines != [] {
        var line := lines[|lines| - 1];
        child, y := line.child, line.y;
        lines := lines[..|lines| - 1];
      }
      ResetFrom(child, placed);
      assert s.slots == FreshFrom(placed, child, |C|);
    }

    /** The outer loop. */
    method RunLayout(start: nat, starty: int, width: int, ghost C: seq<Child>, ghost s: State) returns (y: int, ghost t: State)
      requires C == Kinds(contents) && Matches(s, start, starty, Flags(false, false, false), None, false)
      requires Ready(C, s) && Distinct() && AllAt(s.slots)
      modifies `leftmargins, `rightmargins, `lines, contents
      ensures t == Run(C, Page(width, hmargin, vmargin), s)
      ensures y == t.y && lines == t.lines && leftmargins == t.lm && rightmargins == t.rm && AllAt(t.slots)
    {
      var child: nat := start;
      var flags, floatchild, softnl := Flags(false, false, false), None, false;
      y, t := starty, s;
      while child < |contents|
        invariant Matches(t, child, y, flags, floatchild, softnl)
        invariant Ready(C, t) && AllAt(t.slots)
        invariant Run(C, Page(width, hmargin, vmargin), t) == Run(C, Page(width, hmargin, vmargin), s)
        decreases |C| - t.child, Unplaced(C, t.slots, t.child), OpenCount(t), Force01(t)
      {
        PassProgress(C, Page(width, hmargin, vmargin), t);
        child, y, flags, floatchild, softnl, t := LayoutLine(child, y, flags, floatchild, softnl, width, C, t);
      }
    }

    /** Include the pending floats in the height, and drop the margins above it. */
    method SettleMargins(y: int)
      modifies `aoh, `leftmargins, `rightmargins
      ensures aoh == Find(old(leftmargins), old(rightmargins), y, 0) + vmargin
      ensures leftmargins == Open(old(leftmargins), aoh) && rightmargins == Open(old(rightmargins), aoh)
    {
      aoh := FindMargin(y, 0);
      aoh := aoh + vmargin;
      var left, right := CurrentMargin(aoh);
    }

    /** The outcome of a layout, as the run from a given state. */
    ghost predicate LaidOut(C: seq<Child>, p: Page, s: State)
      reads this
    {
      Ready(C, s) &&
      var t := Run(C, p, s);
      && lines == t.lines && placed == t.slots && aoh == Height(p, t)
      && leftmargins == Open(t.lm, aoh) && rightmargins == Open(t.rm, aoh)
    }

    lemma LaidOutValid(C: seq<Child>, p: Page, s: State)
      requires Ready(C, s) && s.y >= 0 && LinesFrom(s.lines, 0) && LinesWithin(s.lines, |C|)
      requires LaidOut(C, p, s) && Distinct() && AllAt(placed) && |C| == |contents|
      ensures Valid()
    {
      RunLinesFrom(C, p, s, 0);
      RunLinesWithin(C, p, s);
      var t := Run(C, p, s);
      OpenStaircase(t.lm, aoh);
      OpenStaircase(t.rm, aoh);
      OpenDeepest(t.lm, aoh);
    }

    /** After a layout from the top the next one begins with the lines and places of that layout,
        and without margins, unless some float has no width. */
    lemma LeavesNoMargins(C: seq<Child>, p: Page)
      requires LaidOut(C, p, Start(C, p)) && forall i :: 0 <= i < |C| && C[i].Floats() ==> C[i].w > 0
      ensures leftmargins == [] && rightmargins == [] && lines == Full(C, p).lines && placed == Full(C, p).slots
    {
      MarginsEndEmpty(C, p, Start(C, p));
    }

    /** If only what was appended to a roomy body is laid out, the places, lines and height of the body
        are those of a layout of all of it from the top. */
    lemma ChangeAgrees(C: seq<Child>, D: seq<Child>, p: Page)
      requires Roomy(C, p) && C != [] && C[|C| - 1].visible
      requires LaidOut(C + D, p, Begin(C + D, p, true, Full(C, p).lines, Full(C, p).slots, [], []))
      ensures LaidOut(C + D, p, Start(C + D, p))
    {
      RoomyRestartAgrees(C, D, p);
      var r := Restart(C + D, p, Full(C, p).lines, Full(C, p).slots);
      assert r.(lm := [], rm := []) == r;
      LayoutEnds(C + D, p);
      assert Hard(Run(C + D, p, r)) == Hard(Full(C + D, p));
    }

    method Relayout(width: int, changed: bool)
      requires Valid()
      modifies `leftmargins, `rightmargins, `lines, `aoh, `placed, contents
      ensures AllAt(placed) && |placed| == |contents|
      ensures LaidOut(Kinds(contents), Page(width, hmargin, vmargin),
                      Begin(Kinds(contents), Page(width, hmargin, vmargin), changed,
                            old(lines), old(placed), old(leftmargins), old(rightmargins)))
    {
      ghost var C, p := Kinds(contents), Page(width, hmargin, vmargin);
      BeginReady(C, p, changed, lines, placed, leftmargins, rightmargins);
      var child, y;
      ghost var s, t;
      child, y, s := StartLayout(changed, C, p);
      y, t := RunLayout(child, y, width, C, s);
      EndLayout(y, p, t);
    }

    /** Settle the margins and keep the places. */
    method EndLayout(y: int, ghost p: Page, ghost t: State)
      requires y == t.y && lines == t.lines && leftmargins == t.lm && rightmargins == t.rm && AllAt(t.slots)
      requires p.vmargin == vmargin
      modifies `leftmargins, `rightmargins, `aoh, `placed
      ensures lines == t.lines && placed == t.slots && AllAt(placed) && aoh == Height(p, t)
      ensures leftmargins == Open(t.lm, aoh) && rightmargins == Open(t.rm, aoh)
    {
      SettleMargins(y);
      placed := t.slots;
    }

    /** Lay out the body within a width, from the top or only what changed. */
    method LayoutBody(width: int, changed: bool)
      requires Valid()
      modifies this, contents
      ensures Valid() && contents == old(contents) && changedChild == old(changedChild)
      ensures changed && !changedChild ==> unchanged(`lines, `placed, `aoh, `leftmargins, `rightmargins)
      ensures !changed || changedChild ==>
                LaidOut(Kinds(contents), Page(width, hmargin, vmargin),
                        Begin(Kinds(contents), Page(width, hmargin, vmargin), changed,
                              old(lines), old(placed), old(leftmargins), old(rightmargins)))
    {
      if changed && !changedChild {
        return;
      }
      ghost var C, p := Kinds(contents), Page(width, hmargin, vmargin);
      ghost var s := Begin(C, p, changed, lines, placed, leftmargins, rightmargins);
      BeginReady(C, p, changed, lines, placed, leftmargins, rightmargins);
      Relayout(width, changed);
      LaidOutValid(C, p, s);
    }
  }
}
