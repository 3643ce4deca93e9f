/** The first thing that a run does tells two runs apart: the line it adds, or the float it places. */
module LayoutRestartMarks {
  import opened Basics
  import opened Margins
  import opened Layout
  import opened LayoutRun
  import opened LayoutRestart
  import opened LayoutRestartFloats

  // ------------------------------------------------------------------------
  // The first thing that a run does

  /** The first line a run adds begins where the run begins, and has its mark. */
  lemma {:induction false} NextLine(C: seq<Child>, p: Page, s: State)
    requires Ready(C, s) && s.child < |C|
    ensures var t := Run(C, p, s);
            && |t.lines| > |s.lines| && t.lines[|s.lines|].child == s.child
            && (s.more ==> t.lines[|s.lines|].more)
    decreases |C| - s.child, Unplaced(C, s.slots, s.child), OpenCount(s), Force01(s)
  {
    PassProgress(C, p, s);
    PassLines(C, p, s);
    var s' := Pass(C, p, s);
    RunLines(C, p, s');
    if |s'.lines| == |s.lines| {
      NextLine(C, p, s');
    }
  }

  /** No margins, and no float placed ahead. */
  ghost predicate Bare(C: seq<Child>, s: State) {
    Ready(C, s) && s.child < |C| && s.lm == [] && s.rm == [] && s.pending.None? && !s.retry
  }

  /** The answers do not depend on the y, nor on what was laid out before. */
  lemma {:induction false} ScanBlind(C: seq<Child>, r: Room, r': Room, force: bool, k: Cursor, k': Cursor)
    requires k.ch <= |C| == |k.slots| == |k'.slots| && r.base == r'.base && r.width == r'.width
    requires k.(slots := []) == k'.(slots := []) && !k.retry && k.pending.None?
    ensures var a, b := Scan(C, r, force, k), Scan(C, r', force, k');
            a.(slots := []) == b.(slots := []) && !a.retry && a.pending.None?
    decreases |C| - k.ch
  {
    if k.ch < |C| {
      var (a, stop) := ScanChild(C, r, force, k);
      var (b, stop') := ScanChild(C, r', force, k');
      if !stop {
        ScanBlind(C, r, r', force, a, b);
      }
    }
  }

  lemma BareRoom(C: seq<Child>, p: Page, s: State, t: State)
    requires Bare(C, s) && Bare(C, t) && s.child == t.child
    ensures RoomFor(C, p, s).y == s.y && RoomFor(C, p, s).lm == [] && RoomFor(C, p, s).rm == []
    ensures RoomFor(C, p, t) == RoomFor(C, p, s).(y := t.y)
  {
  }

  /** Two lines that begin with the same child get the same answers. */
  lemma SameScan(C: seq<Child>, p: Page, s: State, t: State)
    requires Bare(C, s) && Bare(C, t) && s.child == t.child && s.force == t.force
    requires s.soft == t.soft || !C[s.child].PlainNewline()
    ensures LineScan(C, p, s).ch == LineScan(C, p, t).ch && LineScan(C, p, s).result == LineScan(C, p, t).result
  {
    BareRoom(C, p, s, t);
    var r, r' := RoomFor(C, p, s), RoomFor(C, p, t);
    var k, k' := StartCursor(s, r), StartCursor(t, r');
    ScanBlind(C, r, r', s.force, k.(soft := t.soft), k');
    if s.soft != t.soft {
      ScanForget(C, r, s.force, k);
      ScanForget(C, r, s.force, k.(soft := t.soft));
    }
  }

  /** A bare line first places a float at its y, or is added there, or is tried again with force. */
  lemma FirstFloat(C: seq<Child>, p: Page, s: State)
    requires Bare(C, s) && LineScan(C, p, s).result.Floating?
    ensures var f, t := LineScan(C, p, s).ch, Run(C, p, s);
            f < |C| && C[f].Floats() && t.slots[f].Aligned? && t.slots[f].y == s.y
  {
    LineScanOk(C, p, s);
    PassProgress(C, p, s);
    BareRoom(C, p, s, s);
    RunKeeps(C, p, Pass(C, p, s), LineScan(C, p, s).ch);
  }

  lemma FirstLine(C: seq<Child>, p: Page, s: State)
    requires Bare(C, s) && !LineScan(C, p, s).result.Floating? && !MovesDown(C, p, s)
    ensures var t := Run(C, p, s);
            |t.lines| > |s.lines| && t.lines[|s.lines|].y == s.y && t.lines[|s.lines|].more == s.more
  {
    PassProgress(C, p, s);
    PassLines(C, p, s);
    PassFinishes(C, p, s);
    LineScanOk(C, p, s);
    FinishOk(C, p, s, RoomFor(C, p, s), LineScan(C, p, s));
    RunLines(C, p, Pass(C, p, s));
    BareRoom(C, p, s, s);
  }

  lemma FirstForce(C: seq<Child>, p: Page, s: State)
    requires Bare(C, s) && MovesDown(C, p, s)
    ensures var t := Pass(C, p, s);
            && Bare(C, t) && t.child == s.child && t.y == s.y && t.force && !s.force && t.lines == s.lines
            && C[s.child].Box? && Run(C, p, s) == Run(C, p, t)
  {
    LineScanOk(C, p, s);
    PassProgress(C, p, s);
    BareRoom(C, p, s, s);
    var r := RoomFor(C, p, s);
    ScanBlind(C, r, r, s.force, StartCursor(s, r), StartCursor(s, r));
  }

  /** Bare lines at different y lead to different layouts, whatever was remembered of the lines before
      them. */
  lemma {:induction false} DifferentMarks(C: seq<Child>, p: Page, s: State, t: State)
    requires Bare(C, s) && Bare(C, t) && s.child == t.child && s.force == t.force && s.lines == t.lines && s.y != t.y
    requires s.soft != t.soft && C[s.child].PlainNewline() ==> s.soft && !t.soft && !t.more
    ensures Hard(Run(C, p, s)) != Hard(Run(C, p, t))
    decreases Force01(s)
  {
    if s.soft != t.soft && C[s.child].PlainNewline() {
      PlainMarks(C, p, s, t);
    } else {
      SameScan(C, p, s, t);
      if LineScan(C, p, s).result.Floating? {
        FirstFloat(C, p, s);
        FirstFloat(C, p, t);
      } else if MovesDown(C, p, s) {
        FirstForce(C, p, s);
        FirstForce(C, p, t);
        DifferentMarks(C, p, Pass(C, p, s), Pass(C, p, t));
      } else {
        FirstLine(C, p, s);
        FirstLine(C, p, t);
      }
    }
  }

  /** With the first line break swallowed, the line either extends past the child after it,
      or holds nothing that has a width. */
  lemma SwallowScan(C: seq<Child>, r: Room, force: bool, k: Cursor)
    requires k.ch < |C| == |k.slots| && k.soft && C[k.ch].PlainNewline() && k.endx == 0 && k.result.Fits?
    ensures var k' := Scan(C, r, force, k);
            k'.endx == 0 || k'.ch > k.ch + 1 || (k'.ch == k.ch + 1 && !k'.result.NoFit?)
    ensures Scan(C, r, force, k).ch == k.ch ==> Scan(C, r, force, k).result.Fits?
    ensures var k' := Scan(C, r, force, k);
            k'.ch == k.ch || (k'.ch == k.ch + 1 && (k'.ch == |C| || k'.result.NoFit?)) ==>
              k'.above == k.above && k'.below == k.below && k'.toph == k.toph
  {
    var (k1, stop) := ScanChild(C, r, force, k);
    if !stop && k1.ch < |C| {
      var (k2, stop2) := ScanChild(C, r, force, k1);
      if !stop2 {
        ScanShape(C, r, force, k2);
      }
    }
  }

  lemma SwallowHard(C: seq<Child>, r: Room, force: bool, k: Cursor)
    requires k.ch < |C| == |k.slots| && k.soft && C[k.ch].PlainNewline() && k.endx == 0 && k.result.Fits?
    ensures var b := Scan(C, r, force, HardCursor(k));
            && b.ch == k.ch && b.result == Newline(false, false) && b.endx == k.startx
            && (k.first && k.toph == 0 && k.above == k.below == 0 ==> b.toph == C[k.ch].h && b.above == b.below == 0)
  {
  }

  /** When the line break is swallowed, what follows is tried on the same line. */
  lemma SwallowStops(C: seq<Child>, p: Page, s: State)
    requires Bare(C, s) && s.soft && C[s.child].PlainNewline()
    ensures !MovesDown(C, p, s)
  {
    LineScanOk(C, p, s);
  }

  lemma HardStops(C: seq<Child>, p: Page, s: State)
    requires Bare(C, s) && !s.soft && C[s.child].PlainNewline()
    ensures LineScan(C, p, s).ch == s.child && LineScan(C, p, s).result == Newline(false, false)
  {
    var r := RoomFor(C, p, s);
    SwallowHard(C, r, s.force, StartCursor(s, r).(soft := true));
    assert HardCursor(StartCursor(s, r).(soft := true)) == StartCursor(s, r);
  }

  /** A float on the line that swallowed the line break makes that line begin anew. */
  lemma SwallowFloat(C: seq<Child>, p: Page, s: State)
    requires Bare(C, s) && LineScan(C, p, s).result.Floating?
    ensures var t := Run(C, p, s); |t.lines| > |s.lines| && t.lines[|s.lines|].more
  {
    LineScanOk(C, p, s);
    PassProgress(C, p, s);
    NextLine(C, p, Pass(C, p, s));
  }

  lemma PlainMarks(C: seq<Child>, p: Page, s: State, t: State)
    requires Bare(C, s) && Bare(C, t) && s.child == t.child && s.lines == t.lines && s.y != t.y
    requires C[s.child].PlainNewline() && s.soft && !t.soft && !t.more
    ensures Hard(Run(C, p, s)) != Hard(Run(C, p, t))
  {
    HardStops(C, p, t);
    FirstLine(C, p, t);
    SwallowStops(C, p, s);
    if LineScan(C, p, s).result.Floating? {
      SwallowFloat(C, p, s);
    } else {
      FirstLine(C, p, s);
    }
  }

  // ------------------------------------------------------------------------
  // A swallowed line break shows

  /** The line that is the line break alone. */
  lemma HardPass(C: seq<Child>, p: Page, s: State)
    requires Bare(C, s) && !s.soft && C[s.child].PlainNewline()
    ensures var n, b := |s.lines|, Pass(C, p, s);
            && b.child == s.child + 1 && !b.soft && !b.more && !b.force && b.lm == b.rm == [] && b.y == s.y + C[s.child].h
            && b.pending.None? && !b.retry
            && b.lines == s.lines + [Line(s.child, s.y, RoomFor(C, p, s).startx + p.hmargin, s.more, false)]
  {
    var r := RoomFor(C, p, s);
    SwallowHard(C, r, s.force, StartCursor(s, r).(soft := true));
    assert HardCursor(StartCursor(s, r).(soft := true)) == StartCursor(s, r);
    PassFinishes(C, p, s);
    BareRoom(C, p, s, s);
    ScanBlind(C, r, r, s.force, StartCursor(s, r), StartCursor(s, r));
  }

  /** The line that swallowed it, if no float comes on it: it goes on past the line break, or has no
      width and no height. */
  lemma SoftPass(C: seq<Child>, p: Page, s: State)
    requires Bare(C, s) && s.soft && C[s.child].PlainNewline() && !LineScan(C, p, s).result.Floating?
    ensures var n, a := |s.lines|, Pass(C, p, s);
            && |a.lines| == n + 1 && a.lm == a.rm == [] && a.pending.None? && !a.retry && !a.force && a.child > s.child
            && (a.child == s.child + 1 ==>
                  && a.lines == s.lines + [Line(s.child, s.y, p.hmargin, s.more, false)]
                  && a.y == s.y && a.soft && (a.more ==> a.child < |C| && C[a.child].Box?))
  {
    var r := RoomFor(C, p, s);
    BareRoom(C, p, s, s);
    PassFinishes(C, p, s);
    LineScanOk(C, p, s);
    SwallowScan(C, r, s.force, StartCursor(s, r));
    ScanBlind(C, r, r, s.force, StartCursor(s, r), StartCursor(s, r));
  }

  /** The line has a width, or the line break that was swallowed has a height. */
  predicate Shows(C: seq<Child>, p: Page, i: nat)
    requires i < |C|
  {
    p.hmargin > 0 || C[i].h > 0
  }

  lemma StartsRight(C: seq<Child>, p: Page, s: State)
    requires Bare(C, s)
    ensures RoomFor(C, p, s).startx >= p.hmargin
  {
  }

  /** The line break alone, with the break swallowed in a and not in b. */
  lemma AloneDiffers(C: seq<Child>, p: Page, a: State, b: State)
    requires Ready(C, a) && Ready(C, b) && a.child == b.child && a.y != b.y && a.lines == b.lines
    requires a.child < |C| ==> Bare(C, a) && Bare(C, b) && a.force == b.force
    requires a.soft && !b.soft && !b.more
    ensures Hard(Run(C, p, a)) != Hard(Run(C, p, b))
  {
    if a.child < |C| {
      DifferentMarks(C, p, a, b);
    }
  }

  lemma LongerDiffers(C: seq<Child>, p: Page, a: State, b: State)
    requires Ready(C, a) && Ready(C, b) && a.child > b.child && |a.lines| == |b.lines|
    ensures Hard(Run(C, p, a)) != Hard(Run(C, p, b))
  {
    NextLine(C, p, b);
    if a.child < |C| {
      NextLine(C, p, a);
    }
  }

  lemma LinesDiffer(C: seq<Child>, p: Page, a: State, b: State)
    requires Ready(C, a) && Ready(C, b) && |a.lines| == |b.lines| && a.lines != b.lines
    ensures Hard(Run(C, p, a)) != Hard(Run(C, p, b))
  {
    RunLines(C, p, a);
    RunLines(C, p, b);
  }

  lemma FloatDiffers(C: seq<Child>, p: Page, s: State, b: State)
    requires Bare(C, s) && LineScan(C, p, s).result.Floating? && Ready(C, b)
    requires |b.lines| == |s.lines| + 1 && !b.lines[|s.lines|].more
    ensures Hard(Run(C, p, s)) != Hard(Run(C, p, b))
  {
    SwallowFloat(C, p, s);
    RunLines(C, p, b);
  }

  lemma PlainDiffers(C: seq<Child>, p: Page, s: State)
    requires Bare(C, s) && Bare(C, Hard(s)) && Shows(C, p, s.child)
    requires s.soft && !s.more && C[s.child].PlainNewline()
    ensures Hard(Run(C, p, s)) != Hard(Run(C, p, Hard(s)))
  {
    PassProgress(C, p, s);
    PassProgress(C, p, Hard(s));
    HardPass(C, p, Hard(s));
    StartsRight(C, p, Hard(s));
    var a, b := Pass(C, p, s), Pass(C, p, Hard(s));
    if LineScan(C, p, s).result.Floating? {
      FloatDiffers(C, p, s, b);
    } else {
      SoftPass(C, p, s);
      if a.child > b.child {
        LongerDiffers(C, p, a, b);
      } else if a.lines != b.lines {
        LinesDiffer(C, p, a, b);
      } else {
        assert a.lines[|s.lines|] == b.lines[|s.lines|];
        AloneDiffers(C, p, a, b);
      }
    }
  }

  /** A clearing line break ends its line the same way, and passes the softness on. */
  lemma ClearPass(C: seq<Child>, p: Page, s: State)
    requires Ready(C, s) && s.child < |C| && s.lm == [] && s.rm == [] && !s.more && s.pending.None?
    requires C[s.child].Break? && (C[s.child].clearLeft || C[s.child].clearRight)
    ensures var a := Pass(C, p, s);
            && a.child == s.child + 1 && a.soft == s.soft && a.lm == [] && a.rm == [] && !a.more && a.pending.None?
  {
  }

  /** The plain line break that is swallowed. */
  function SwallowedAt(C: seq<Child>, i: nat): (j: nat)
    requires Swallows(C, i)
    ensures i <= j < |C| && C[j].PlainNewline()
    decreases |C| - i
  {
    if C[i].PlainNewline() then i else SwallowedAt(C, i + 1)
  }

  lemma {:induction false} SwallowDiffers(C: seq<Child>, p: Page, s: State)
    requires Bare(C, s) && Bare(C, Hard(s)) && s.soft && !s.more
    requires Swallows(C, s.child) && Shows(C, p, SwallowedAt(C, s.child))
    ensures Hard(Run(C, p, s)) != Hard(Run(C, p, Hard(s)))
    decreases |C| - s.child
  {
    if C[s.child].PlainNewline() {
      PlainDiffers(C, p, s);
    } else {
      PassProgress(C, p, s);
      PassProgress(C, p, Hard(s));
      var a, b := Pass(C, p, s), Pass(C, p, Hard(s));
      ClearPass(C, p, s);
      ClearPass(C, p, Hard(s));
      LineScanForget(C, p, s);
      PassFinishes(C, p, s);
      PassFinishes(C, p, Hard(s));
      FinishForget(C, p, s, RoomFor(C, p, s), LineScan(C, p, s));
      FinishForget(C, p, Hard(s), RoomFor(C, p, s), LineScan(C, p, Hard(s)));
      assert b == Hard(a);
      SwallowDiffers(C, p, a);
    }
  }
}
