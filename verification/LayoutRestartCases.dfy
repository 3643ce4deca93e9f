/** Bodies for which a restarted layout disagrees with a layout from the top. */
module LayoutRestartCases {
  import opened Basics
  import opened Margins
  import opened Layout
  import opened LayoutRun
  import opened LayoutRestart
  import opened LayoutRestartFloats
  import opened LayoutRestartMarks
  import opened LayoutRestartExact

  // ------------------------------------------------------------------------
  // Which line a restart goes back to

  ghost predicate Follows(C: seq<Child>, p: Page, s: State, t: State) {
    Ready(C, s) && s.child < |C| && Pass(C, p, s) == t
  }

  /** A pass that adds no line after the first n. */
  lemma OnePass(C: seq<Child>, p: Page, s: State, t: State, n: nat)
    requires Follows(C, p, s, t)
    ensures Ready(C, t) && Run(C, p, s) == Run(C, p, t) && s.lines <= t.lines
    ensures |t.lines| <= n < |Run(C, p, t).lines| ==> LineStart(C, p, s, n) == LineStart(C, p, t, n)
  {
    PassProgress(C, p, s);
    PassLines(C, p, s);
  }

  /** The last pass, if it adds a line that can be restarted at. */
  lemma LastPass(C: seq<Child>, p: Page, s: State, t: State, n: nat)
    requires Follows(C, p, s, t) && t.child == |C| && n == |s.lines| && |t.lines| == n + 1
    ensures Run(C, p, s) == t && LineStart(C, p, s, n) == s
  {
    PassProgress(C, p, s);
    assert Run(C, p, t) == t;
  }

  lemma RestartsThere(C: seq<Child>, p: Page, s: State, t: State)
    requires Ready(C, Start(C, p)) && Full(C, p) == t && |t.lines| == |s.lines| + 1
    requires !t.lines[|s.lines|].more && !t.lines[|s.lines|].margin
    requires LineStart(C, p, Start(C, p), |s.lines|) == s
    ensures Trim(Full(C, p).lines) != [] && RestartedAt(C, p) == s
  {
    assert Trim(t.lines) == t.lines;
  }

  lemma AfterThree(C: seq<Child>, p: Page, s1: State, s2: State, s3: State)
    requires Follows(C, p, Start(C, p), s1) && Follows(C, p, s1, s2) && Follows(C, p, s2, s3)
    requires s3.child == |C| && |s3.lines| == |s2.lines| + 1
    requires !s3.lines[|s2.lines|].more && !s3.lines[|s2.lines|].margin
    ensures Full(C, p) == s3 && Trim(Full(C, p).lines) != [] && RestartedAt(C, p) == s2
  {
    var n := |s2.lines|;
    LastPass(C, p, s2, s3, n);
    OnePass(C, p, s1, s2, n);
    OnePass(C, p, Start(C, p), s1, n);
    RestartsThere(C, p, s2, s3);
  }

  lemma AfterFive(C: seq<Child>, p: Page, s1: State, s2: State, s3: State, s4: State, s5: State)
    requires Follows(C, p, Start(C, p), s1) && Follows(C, p, s1, s2) && Follows(C, p, s2, s3)
    requires Follows(C, p, s3, s4) && Follows(C, p, s4, s5) && s5.child == |C| && |s5.lines| == |s4.lines| + 1
    requires !s5.lines[|s4.lines|].more && !s5.lines[|s4.lines|].margin
    ensures Full(C, p) == s5 && Trim(Full(C, p).lines) != [] && RestartedAt(C, p) == s4
  {
    var n := |s4.lines|;
    LastPass(C, p, s4, s5, n);
    OnePass(C, p, s3, s4, n);
    OnePass(C, p, s2, s3, n);
    OnePass(C, p, s1, s2, n);
    OnePass(C, p, Start(C, p), s1, n);
    RestartsThere(C, p, s4, s5);
  }

  /** A pass whose scan is known. */
  lemma PassBy(C: seq<Child>, p: Page, s: State, r: Room, k: Cursor)
    requires s.child < |C| == |s.slots| && r == RoomFor(C, p, s) && k == Scan(C, r, s.force, StartCursor(s, r))
    requires s.child <= k.ch <= |C| && (k.ch == |C| ==> k.result.Fits?) && (k.result.Floating? ==> C[k.ch].Box?)
    ensures |k.slots| == |C| && Pass(C, p, s) == Finish(C, p, s, r, k)
  {
  }

  // ------------------------------------------------------------------------
  // A line break that is swallowed from the top and not after the restart

  const WIDE_THEN_BREAK := [Box(0, 0, AlignLeft, true, 10, 200, Inline, Top), Break(0, 0, AlignLeft, true, 10, false, false, false)]
  const SMALL_PAGE := Page(100, 4, 0)

  const FORCED := State(0, 0, true, false, true, None, false, [], [], [], [Laid(4), Fresh])
  const BROKEN_OFF := State(1, 10, false, false, false, None, true, [], [], [Line(0, 0, 208, true, false)], [Aligned(4, 0), Fresh])

  lemma WideIsForced()
    ensures Pass(WIDE_THEN_BREAK, SMALL_PAGE, Start(WIDE_THEN_BREAK, SMALL_PAGE)) == FORCED
  {
  }

  const WHOLE := Room(0, [], [], 4, 4, 96, 0, 0, AlignLeft, false)
  const AT_WIDE := Cursor(0, 4, true, false, false, false, None, 0, 0, 0, 0, [Laid(4), Fresh], Fits, 0)
  const WIDE_DONE := AT_WIDE.(toph := 10, endx := 204, last := 204)

  lemma WideIsTaken()
    ensures RoomFor(WIDE_THEN_BREAK, SMALL_PAGE, FORCED) == WHOLE && StartCursor(FORCED, WHOLE) == AT_WIDE
    ensures ScanChild(WIDE_THEN_BREAK, WHOLE, true, AT_WIDE) == (WIDE_DONE, true)
  {
    assert AT_WIDE.slots[0 := Laid(4)] == AT_WIDE.slots;
  }

  lemma WideEndsLine()
    ensures Finish(WIDE_THEN_BREAK, SMALL_PAGE, FORCED, WHOLE, WIDE_DONE) == BROKEN_OFF
  {
    var a := AlignRange(WIDE_THEN_BREAK, WIDE_DONE.slots, 0, 1, 0, 0, -1);
    assert a[0] == Aligned(4, 0) && a[1] == Fresh && |a| == 2;
    assert a == BROKEN_OFF.slots;
  }

  lemma WideIsBrokenOff()
    ensures Pass(WIDE_THEN_BREAK, SMALL_PAGE, FORCED) == BROKEN_OFF
  {
    WideIsTaken();
    PassIs(WIDE_THEN_BREAK, SMALL_PAGE, FORCED, WHOLE, WIDE_DONE);
    WideEndsLine();
  }

  lemma BreakIsSwallowed()
    ensures var t := Pass(WIDE_THEN_BREAK, SMALL_PAGE, BROKEN_OFF);
            t.child == 2 && t.lines == BROKEN_OFF.lines + [Line(1, 10, 4, false, false)]
  {
    var C, p, s := WIDE_THEN_BREAK, SMALL_PAGE, BROKEN_OFF;
    var r := RoomFor(C, p, s);
    var (k, stop) := ScanChild(C, r, false, StartCursor(s, r));
    assert !stop && k.ch == 2 && k.endx == 0;
    assert Scan(C, r, false, StartCursor(s, r)) == Scan(C, r, false, k) == k;
    assert r.lm == [] && r.rm == [];
  }

  /** It does happen: a box wider than the page, then a line break.  The layout from the top
      swallows the break, because the line before was broken off; the restart, which begins at
      the break, lets it make a line of its own. */
  lemma RestartCanDisagree(D: seq<Child>)
    ensures var C, p := WIDE_THEN_BREAK, SMALL_PAGE;
            var u := Full(C, p);
            var r := Restart(C + D, p, u.lines, u.slots);
            Ready(C + D, r) && Hard(Run(C + D, p, r)) != Hard(Full(C + D, p))
  {
    var C, p := WIDE_THEN_BREAK, SMALL_PAGE;
    WideLeadsThere();
    WideShape();
    BreakDisagrees(C, D, p);
  }

  lemma WideShape()
    ensures var C, t := WIDE_THEN_BREAK, BROKEN_OFF;
            HasHeights(C) && SMALL_PAGE.hmargin > 0 && t.child < |C| && t.soft && C[t.child].visible && C[t.child].PlainNewline()
  {
  }

  lemma BreakDisagrees(C: seq<Child>, D: seq<Child>, p: Page)
    requires Trim(Full(C, p).lines) != [] && HasHeights(C) && p.hmargin > 0
    requires var t := RestartedAt(C, p); t.soft && C[t.child].visible && C[t.child].PlainNewline()
    ensures var u := Full(C, p);
            var r := Restart(C + D, p, u.lines, u.slots);
            Ready(C + D, r) && Hard(Run(C + D, p, r)) != Hard(Full(C + D, p))
  {
    WideTelling(C, D, p, RestartedAt(C, p));
    RestartExact(C, D, p);
  }

  lemma WideTelling(C: seq<Child>, D: seq<Child>, p: Page, t: State)
    requires t.child < |C| && |t.slots| == |C| && HasHeights(C) && p.hmargin > 0
    requires C[t.child].visible && C[t.child].PlainNewline()
    ensures Telling(C, D, p, t) && Swallows(C + D, t.child)
  {
    VisibleStart(C, D, p, t);
    assert (C + D)[t.child] == C[t.child];
  }

  lemma WideLeadsThere()
    ensures Trim(Full(WIDE_THEN_BREAK, SMALL_PAGE).lines) != [] && RestartedAt(WIDE_THEN_BREAK, SMALL_PAGE) == BROKEN_OFF
  {
    var C, p := WIDE_THEN_BREAK, SMALL_PAGE;
    WideIsForced();
    WideIsBrokenOff();
    BreakIsSwallowed();
    LayoutEnds(C, p);
    PassProgress(C, p, Start(C, p));
    PassProgress(C, p, FORCED);
    AfterThree(C, p, FORCED, BROKEN_OFF, Pass(C, p, BROKEN_OFF));
  }

  // ------------------------------------------------------------------------
  // A float that was placed above the restarted line

  const SMALL_FLOAT := Box(0, 0, AlignLeft, true, 5, 20, FloatLeft, Top)
  const THEN_FLOAT := WIDE_THEN_BREAK + [SMALL_FLOAT]
  const FORCED_TOO := FORCED.(slots := [Laid(4), Fresh, Fresh])
  const SWALLOWING := BROKEN_OFF.(slots := [Aligned(4, 0), Fresh, Fresh])
  const FLOATED := State(1, 10, true, true, false, Some(2), false, [Margin(15, 20, 0)], [], [Line(0, 0, 208, true, false)],
                         [Aligned(4, 0), Laid(0), Aligned(4, 10)])
  const BELOW := State(2, 20, false, false, false, Some(2), false, [Margin(15, 20, 0)], [],
                       [Line(0, 0, 208, true, false), Line(1, 10, 28, true, true)],
                       [Aligned(4, 0), Aligned(0, 10), Aligned(4, 10)])

  lemma ForcedToo()
    ensures Pass(THEN_FLOAT, SMALL_PAGE, Start(THEN_FLOAT, SMALL_PAGE)) == FORCED_TOO
  {
  }

  const TAKING := AT_WIDE.(slots := [Laid(4), Fresh, Fresh])
  const TAKEN := TAKING.(toph := 10, endx := 204, last := 204)

  lemma SwallowingNext()
    ensures Pass(THEN_FLOAT, SMALL_PAGE, FORCED_TOO) == SWALLOWING
  {
    assert TAKING.slots[0 := Laid(4)] == TAKING.slots;
    assert RoomFor(THEN_FLOAT, SMALL_PAGE, FORCED_TOO) == WHOLE && StartCursor(FORCED_TOO, WHOLE) == TAKING;
    assert ScanChild(THEN_FLOAT, WHOLE, true, TAKING) == (TAKEN, true);
    PassBy(THEN_FLOAT, SMALL_PAGE, FORCED_TOO, WHOLE, TAKEN);
    var a := AlignRange(THEN_FLOAT, TAKEN.slots, 0, 1, 0, 0, -1);
    assert a[0] == Aligned(4, 0) && a[1] == Fresh && a[2] == Fresh && |a| == 3;
    assert a == SWALLOWING.slots;
  }

  const TENTH := WHOLE.(y := 10)
  const AT_BREAK := Cursor(1, 4, true, false, false, true, None, 0, 0, 0, 0, [Aligned(4, 0), Fresh, Fresh], Fits, 0)
  const PAST_BREAK := AT_BREAK.(ch := 2, soft := false, slots := [Aligned(4, 0), Laid(0), Fresh], last := 4)
  const AT_FLOAT := PAST_BREAK.(slots := [Aligned(4, 0), Laid(0), Laid(4)], result := Floating, last := 24)

  lemma BreakThenFloat()
    ensures RoomFor(THEN_FLOAT, SMALL_PAGE, SWALLOWING) == TENTH && StartCursor(SWALLOWING, TENTH) == AT_BREAK
    ensures ScanChild(THEN_FLOAT, TENTH, false, AT_BREAK) == (PAST_BREAK, false)
    ensures ScanChild(THEN_FLOAT, TENTH, false, PAST_BREAK) == (AT_FLOAT, true)
  {
    assert AT_BREAK.slots[1 := Laid(0)] == PAST_BREAK.slots && PAST_BREAK.slots[2 := Laid(4)] == AT_FLOAT.slots;
  }

  lemma FloatedNext()
    ensures Pass(THEN_FLOAT, SMALL_PAGE, SWALLOWING) == FLOATED
  {
    BreakThenFloat();
    ScanTwo(THEN_FLOAT, TENTH, false, AT_BREAK, PAST_BREAK, AT_FLOAT);
    PassBy(THEN_FLOAT, SMALL_PAGE, SWALLOWING, TENTH, AT_FLOAT);
    assert AT_FLOAT.slots[2 := Aligned(4, 10)] == FLOATED.slots;
    assert Add([], 15, 20, 0) == [Margin(15, 20, 0)];
  }

  const BESIDE := Room(10, [Margin(15, 20, 0)], [], 24, 24, 96, 0, 0, AlignLeft, false)
  const AGAIN := Cursor(1, 24, true, true, false, false, Some(2), 0, 0, 0, 0, [Aligned(4, 0), Laid(0), Aligned(4, 10)], Fits, 0)
  const ENDED := AGAIN.(toph := 10, endx := 24, last := 24, result := Newline(false, false))

  lemma BelowNext()
    ensures Pass(THEN_FLOAT, SMALL_PAGE, FLOATED) == BELOW
  {
    assert AGAIN.slots[1 := Laid(0)] == AGAIN.slots;
    assert RoomFor(THEN_FLOAT, SMALL_PAGE, FLOATED) == BESIDE && StartCursor(FLOATED, BESIDE) == AGAIN;
    assert ScanChild(THEN_FLOAT, BESIDE, false, AGAIN) == (ENDED, true);
    PassBy(THEN_FLOAT, SMALL_PAGE, FLOATED, BESIDE, ENDED);
    var a := AlignRange(THEN_FLOAT, ENDED.slots, 1, 2, 0, 10, 9);
    assert a[0] == Aligned(4, 0) && a[1] == Aligned(0, 10) && a[2] == Aligned(4, 10) && |a| == 3;
    assert a == BELOW.slots;
  }

  const TWENTIETH := WHOLE.(y := 20)
  const SKIPPING := Cursor(2, 4, true, false, false, false, Some(2), 0, 0, 0, 0, BELOW.slots, Fits, 0)
  const SKIPPED := SKIPPING.(ch := 3, pending := None, endx := 4, last := 4)

  lemma LineOfFloat()
    ensures var t := Pass(THEN_FLOAT, SMALL_PAGE, BELOW);
            t.child == 3 && t.lines == BELOW.lines + [Line(2, 20, 8, false, false)]
  {
    assert SKIPPING.slots[2 := SKIPPING.slots[2]] == SKIPPING.slots;
    assert RoomFor(THEN_FLOAT, SMALL_PAGE, BELOW) == TWENTIETH && StartCursor(BELOW, TWENTIETH) == SKIPPING;
    assert ScanChild(THEN_FLOAT, TWENTIETH, false, SKIPPING) == (SKIPPED, false);
    assert Scan(THEN_FLOAT, TWENTIETH, false, SKIPPED) == SKIPPED;
    PassBy(THEN_FLOAT, SMALL_PAGE, BELOW, TWENTIETH, SKIPPED);
  }

  lemma FloatLeadsThere()
    ensures Trim(Full(THEN_FLOAT, SMALL_PAGE).lines) != [] && RestartedAt(THEN_FLOAT, SMALL_PAGE) == BELOW
  {
    var C, p := THEN_FLOAT, SMALL_PAGE;
    LayoutEnds(C, p);
    ForcedToo();
    SwallowingNext();
    FloatedNext();
    BelowNext();
    LineOfFloat();
    PassProgress(C, p, Start(C, p));
    PassProgress(C, p, FORCED_TOO);
    PassProgress(C, p, SWALLOWING);
    PassProgress(C, p, FLOATED);
    AfterFive(C, p, FORCED_TOO, SWALLOWING, FLOATED, BELOW, Pass(C, p, BELOW));
  }

  /** With a float behind the line break, the retry for the float forgets that the break was to be
      swallowed.  So the break ends its line, and the float, which is above the next line, belongs to
      it; the restart at that line puts the float lower, whatever is appended. */
  lemma FloatComesDown(D: seq<Child>)
    ensures var C, p := THEN_FLOAT, SMALL_PAGE;
            var u := Full(C, p);
            var r := Restart(C + D, p, u.lines, u.slots);
            Ready(C + D, r) && Hard(Run(C + D, p, r)) != Hard(Full(C + D, p))
  {
    FloatLeadsThere();
    VisibleLeads(THEN_FLOAT, D, 2);
    assert RoomFor(THEN_FLOAT, SMALL_PAGE, BELOW).y == 20;
    PendingDiffers(THEN_FLOAT, D, SMALL_PAGE);
  }

  // ------------------------------------------------------------------------
  // A line without a visible child

  const HIDDEN_END := [Box(1, 0, AlignLeft, true, 30, 20, FloatLeft, Top), Break(1, 0, AlignLeft, true, 10, false, false, false),
                       Box(0, 0, AlignLeft, false, 0, 0, Inline, Top)]
  const PAGE := Page(200, 0, 0)
  const STANDING := State(0, 0, true, true, false, Some(0), false, [Margin(30, 20, 1)], [], [], [Aligned(40, 0), Fresh, Fresh])
  const NEXT_LINE := State(2, 10, false, false, false, None, false, [Margin(30, 20, 1)], [], [Line(0, 0, 60, true, true)],
                           [Aligned(40, 0), Aligned(0, 0), Fresh])

  lemma FloatStands()
    ensures Pass(HIDDEN_END, PAGE, Start(HIDDEN_END, PAGE)) == STANDING
  {
  }

  const FREE := Room(0, [Margin(30, 20, 1)], [], 60, 60, 200, 1, 0, AlignLeft, false)
  const AT_FIRST := Cursor(0, 60, true, true, false, false, Some(0), 0, 0, 0, 0, STANDING.slots, Fits, 0)
  const AT_SECOND := AT_FIRST.(ch := 1, retry := false, pending := None, endx := 60, last := 60)
  const AT_END := AT_SECOND.(slots := [Aligned(40, 0), Laid(0), Fresh], toph := 10, result := Newline(false, false))

  lemma FloatThenBreak()
    ensures RoomFor(HIDDEN_END, PAGE, STANDING) == FREE && StartCursor(STANDING, FREE) == AT_FIRST
    ensures ScanChild(HIDDEN_END, FREE, false, AT_FIRST) == (AT_SECOND, false)
    ensures ScanChild(HIDDEN_END, FREE, false, AT_SECOND) == (AT_END, true)
  {
    assert AT_FIRST.slots[0 := AT_FIRST.slots[0]] == AT_FIRST.slots && AT_SECOND.slots[1 := Laid(0)] == AT_END.slots;
  }

  lemma BreakEndsLine()
    ensures Pass(HIDDEN_END, PAGE, STANDING) == NEXT_LINE
  {
    FloatThenBreak();
    ScanTwo(HIDDEN_END, FREE, false, AT_FIRST, AT_SECOND, AT_END);
    PassBy(HIDDEN_END, PAGE, STANDING, FREE, AT_END);
    var a := AlignRange(HIDDEN_END, AT_END.slots, 0, 2, 0, 0, 9);
    assert a[0] == Aligned(40, 0) && a[1] == Aligned(0, 0) && a[2] == Fresh && |a| == 3;
    assert a == NEXT_LINE.slots;
  }

  const DOWN := Room(30, [], [], 0, 0, 200, 0, 0, AlignLeft, false)
  const AT_HIDDEN := Cursor(2, 0, true, false, false, false, None, 0, 0, 0, 0, NEXT_LINE.slots, Fits, 0)
  const PAST_HIDDEN := AT_HIDDEN.(ch := 3, slots := [Aligned(40, 0), Aligned(0, 0), Laid(0)])

  lemma HiddenGoesDown()
    ensures RoomFor(HIDDEN_END, PAGE, NEXT_LINE) == DOWN
    ensures var t := Pass(HIDDEN_END, PAGE, NEXT_LINE);
            t.child == 3 && t.lines == NEXT_LINE.lines + [Line(2, 30, 0, false, false)]
  {
    assert AT_HIDDEN.slots[2 := Laid(0)] == PAST_HIDDEN.slots;
    assert StartCursor(NEXT_LINE, DOWN) == AT_HIDDEN;
    assert ScanChild(HIDDEN_END, DOWN, false, AT_HIDDEN) == (PAST_HIDDEN, false);
    assert Scan(HIDDEN_END, DOWN, false, PAST_HIDDEN) == PAST_HIDDEN;
    PassBy(HIDDEN_END, PAGE, NEXT_LINE, DOWN, PAST_HIDDEN);
  }

  lemma HiddenLeadsThere()
    ensures Trim(Full(HIDDEN_END, PAGE).lines) != [] && RestartedAt(HIDDEN_END, PAGE) == NEXT_LINE
  {
    var C, p := HIDDEN_END, PAGE;
    LayoutEnds(C, p);
    FloatStands();
    BreakEndsLine();
    HiddenGoesDown();
    PassProgress(C, p, Start(C, p));
    PassProgress(C, p, STANDING);
    AfterThree(C, p, STANDING, NEXT_LINE, Pass(C, p, NEXT_LINE));
  }

  /** Text that is appended after an invisible child of a lesser indent begins beside the float from the
      top, and below it after the restart. */
  lemma HiddenEndDisagrees(w: nat, D: seq<Child>)
    ensures var C, p := HIDDEN_END, PAGE;
            var E := C + ([Box(1, 0, AlignLeft, true, 10, w, Inline, Top)] + D);
            var u := Full(C, p);
            var r := Restart(E, p, u.lines, u.slots);
            Ready(E, r) && Hard(Run(E, p, r)) != Hard(Full(E, p))
  {
    var D' := [Box(1, 0, AlignLeft, true, 10, w, Inline, Top)] + D;
    HiddenLeadsThere();
    HiddenGoesDown();
    HiddenTelling(w, D);
    HigherDisagrees(HIDDEN_END, D', PAGE, NEXT_LINE);
  }

  lemma HigherDisagrees(C: seq<Child>, D: seq<Child>, p: Page, t: State)
    requires Trim(Full(C, p).lines) != [] && t == RestartedAt(C, p)
    requires Telling(C, D, p, t) && !SameStart(C, D, p, t) && !MovesDown(C + D, p, Ext(t, |D|))
    ensures var u := Full(C, p);
            var r := Restart(C + D, p, u.lines, u.slots);
            Ready(C + D, r) && Hard(Run(C + D, p, r)) != Hard(Full(C + D, p))
  {
    RestartExact(C, D, p);
  }

  lemma HiddenTelling(w: nat, D: seq<Child>)
    ensures var C, p, t := HIDDEN_END, PAGE, NEXT_LINE;
            var D' := [Box(1, 0, AlignLeft, true, 10, w, Inline, Top)] + D;
            Telling(C, D', p, t) && !SameStart(C, D', p, t) && !MovesDown(C + D', p, Ext(t, |D'|))
  {
    var C, p, t := HIDDEN_END, PAGE, NEXT_LINE;
    var D' := [Box(1, 0, AlignLeft, true, 10, w, Inline, Top)] + D;
    HiddenGoesDown();
    VisibleLeads(C, D', 1);
    HiddenRoom(w, C + D', Ext(t, |D'|));
    HiddenFits(C + D', p, Ext(t, |D'|));
  }

  lemma HiddenRoom(w: nat, E: seq<Child>, h: State)
    requires |E| > 3 && E[2] == HIDDEN_END[2] && E[3] == Box(1, 0, AlignLeft, true, 10, w, Inline, Top)
    requires h.child == 2 && h.y == 10 && h.lm == [Margin(30, 20, 1)] && h.rm == [] && !h.retry
    ensures var r := RoomFor(E, PAGE, h); r.y == 10 && r.startx == 60 && r.width == 200 && !r.bullet
  {
    assert SeekVisible(E, 3) == 3 && SeekVisible(E, 2) == 3 && Leader(E, 2) == 3;
  }

  lemma HiddenFits(E: seq<Child>, p: Page, h: State)
    requires h.child < |E| == |h.slots| && E[h.child] == HIDDEN_END[2] && !h.retry && h.pending.None?
    requires RoomFor(E, p, h).startx <= RoomFor(E, p, h).width && !RoomFor(E, p, h).bullet
    ensures !MovesDown(E, p, h)
  {
    var r := RoomFor(E, p, h);
    var (k, stop) := ScanChild(E, r, h.force, StartCursor(h, r));
    assert !stop && k.ch == h.child + 1;
    ScanShape(E, r, h.force, k);
  }
}
