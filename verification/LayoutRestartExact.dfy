/** When a restarted layout agrees with a layout from the top, exactly. */
module LayoutRestartExact {
  import opened Basics
  import opened Margins
  import opened Layout
  import opened LayoutRun
  import opened LayoutRestart
  import opened LayoutRestartFloats
  import opened LayoutRestartMarks

  // ------------------------------------------------------------------------
  // The claim

  /** What the condition below needs: floats have heights, a line break that may be swallowed at the
      restarted line shows, and the lines before that one are led as they were. */
  ghost predicate Telling(C: seq<Child>, D: seq<Child>, p: Page, t: State) {
    && t.child < |C| && |t.slots| == |C| && HasHeights(C)
    && (Swallows(C + D, t.child) ==> Shows(C + D, p, SwallowedAt(C + D, t.child)))
    && LedAlike(C, D, t.child)
  }

  /** The line begins higher up, but its first child has no room there, and goes down to y; and there it
      floats, or has no room either. */
  ghost predicate Sinks(E: seq<Child>, p: Page, h: State, y: int) {
    && h.child < |E| == |h.slots| && MovesDown(E, p, h)
    && var q := Pass(E, p, h);
       && q.child == h.child && |q.slots| == |E| && q.y == y
       && (LineScan(E, p, q).result.Floating? || MovesDown(E, p, q))
  }

  lemma HigherFloat(E: seq<Child>, p: Page, h: State, r: State)
    requires Ready(E, h) && Ready(E, r) && h.child == r.child < |E|
    requires RoomFor(E, p, h).y < r.y && LineScan(E, p, h).result.Floating?
    requires forall i :: r.child <= i < |E| ==> r.slots[i].Fresh?
    ensures Hard(Run(E, p, h)) != Hard(Run(E, p, r))
  {
    LineScanOk(E, p, h);
    PassProgress(E, p, h);
    var f := LineScan(E, p, h).ch;
    RunKeeps(E, p, Pass(E, p, h), f);
    RunPlaces(E, p, r, f);
  }

  lemma HigherLine(E: seq<Child>, p: Page, h: State, r: State)
    requires Ready(E, h) && Ready(E, r) && h.child == r.child < |E| && h.lines == r.lines
    requires RoomFor(E, p, h).y < r.y && !MovesDown(E, p, h) && !LineScan(E, p, h).result.Floating?
    ensures Hard(Run(E, p, h)) != Hard(Run(E, p, r))
  {
    LineScanOk(E, p, h);
    PassProgress(E, p, h);
    PassLines(E, p, h);
    FinishOk(E, p, h, RoomFor(E, p, h), LineScan(E, p, h));
    RunLines(E, p, Pass(E, p, h));
    NextLine(E, p, r);
    NewLinesFrom(E, p, r, |r.lines|, r.y);
  }

  /** The indents of the new leader let the line begin higher up than the old one did. */
  lemma HigherDiffers(E: seq<Child>, p: Page, h: State, r: State)
    requires Ready(E, h) && Ready(E, r) && h.child == r.child < |E| && h.lines == r.lines
    requires RoomFor(E, p, h).y < r.y && !MovesDown(E, p, h)
    requires forall i :: r.child <= i < |E| ==> r.slots[i].Fresh?
    ensures Hard(Run(E, p, h)) != Hard(Run(E, p, r))
  {
    if LineScan(E, p, h).result.Floating? {
      HigherFloat(E, p, h, r);
    } else {
      HigherLine(E, p, h, r);
    }
  }

  /** The lines after the first n are at y or below. */
  ghost predicate AddedFrom(lines: seq<Line>, n: nat, y: int) { forall i :: n <= i < |lines| ==> lines[i].y >= y }

  lemma PassAddsFrom(C: seq<Child>, p: Page, s: State, n: nat, y: int)
    requires Ready(C, s) && s.child < |C| && n <= |s.lines| && AddedFrom(s.lines, n, y) && y <= s.y
    ensures AddedFrom(Pass(C, p, s).lines, n, y) && n <= |Pass(C, p, s).lines| && y <= Pass(C, p, s).y
  {
    PassLines(C, p, s);
    RoomOk(C, p, s);
    PassGoesDown(C, p, s);
  }

  lemma {:induction false} NewLinesFrom(C: seq<Child>, p: Page, s: State, n: nat, y: int)
    requires Ready(C, s) && n <= |s.lines| && AddedFrom(s.lines, n, y) && y <= s.y
    ensures AddedFrom(Run(C, p, s).lines, n, y)
    decreases |C| - s.child, Unplaced(C, s.slots, s.child), OpenCount(s), Force01(s)
  {
    if s.child < |C| {
      PassProgress(C, p, s);
      PassAddsFrom(C, p, s, n, y);
      NewLinesFrom(C, p, Pass(C, p, s), n, y);
    }
  }

  /** The room of the longer body's line is never below that of the shorter one's, which has no open
      margins. */
  lemma NeverLower(C: seq<Child>, E: seq<Child>, p: Page, s: State, t: State)
    requires s.child < |C| && t.child < |E| && s.lm == t.lm && s.y == t.y && Sound(s)
    requires RoomFor(C, p, s).lm == []
    ensures RoomFor(E, p, t).y <= RoomFor(C, p, s).y
  {
    RoomOk(C, p, s);
    IndentWithin(s.lm, s.y, E[Leader(E, t.child)].left, RoomFor(C, p, s).y);
    IndentWithin(s.lm, s.y, E[Leader(E, t.child)].left + 1, RoomFor(C, p, s).y);
  }

  lemma {:induction false} IndentWithin(ms: seq<Margin>, y: int, indent: int, z: int)
    requires Open(ms, z) == [] && y <= z
    ensures FindIndent(ms, y, indent) <= z
  {
    if ms != [] {
      IndentWithin(ms[1..], Max(y, ms[0].y), indent, z);
    }
  }

  // ------------------------------------------------------------------------
  // A first child that has no room where the line begins

  /** A state in which a line is begun. */
  ghost predicate Begun(C: seq<Child>, s: State) {
    Ready(C, s) && s.child < |C| && !s.retry && s.pending.None?
  }

  lemma FirstDown(C: seq<Child>, p: Page, s: State)
    requires Begun(C, s)
    ensures var r, c := RoomFor(C, p, s), C[s.child];
            && (MovesDown(C, p, s) <==> c.Box? && !s.force && r.startx + c.w > r.width)
            && (MovesDown(C, p, s) ==>
                  var k := LineScan(C, p, s);
                  && k.last == r.startx + c.w && k.pending.None? && k.soft == s.soft
                  && k.slots == s.slots[s.child := Laid(r.startx)])
  {
    var r := RoomFor(C, p, s);
    var (k1, stop) := ScanChild(C, r, s.force, StartCursor(s, r));
    if !stop {
      ScanShape(C, r, s.force, k1);
    }
  }

  lemma Down(C: seq<Child>, p: Page, s: State)
    requires Begun(C, s) && MovesDown(C, p, s)
    ensures var r, q := RoomFor(C, p, s), Pass(C, p, s);
            && Begun(C, q) && q.child == s.child && q.more && q.lines == s.lines && q.lm == r.lm && q.rm == r.rm
            && q.slots == s.slots[s.child := Laid(r.startx)] && r.y <= q.y && (q.force <==> q.y == r.y)
            && Run(C, p, s) == Run(C, p, q) && C[s.child].Box?
  {
    FirstDown(C, p, s);
    PassProgress(C, p, s);
    PassFinishes(C, p, s);
    RoomOk(C, p, s);
    MoveDownFinds(p, s, RoomFor(C, p, s), LineScan(C, p, s));
  }

  /** The next try begins where the last one moved to. */
  lemma DownRoom(C: seq<Child>, p: Page, s: State)
    requires Begun(C, s) && MovesDown(C, p, s)
    ensures var r, q := RoomFor(C, p, s), Pass(C, p, s);
            var r' := RoomFor(C, p, q);
            && q.child == s.child && r'.y == q.y && r'.lm == Open(r.lm, q.y) && r'.rm == Open(r.rm, q.y)
            && r'.base == p.hmargin + Head(r'.lm) + Indent(r.left) && r'.width == p.width - p.hmargin - Head(r'.rm) - Indent(r.right)
            && r'.startx - r'.base <= r.startx - r.base
  {
    Down(C, p, s);
    RoomOk(C, p, s);
    var r := RoomFor(C, p, s);
    assert r.lm != [] ==> r.lm[0] in r.lm;
    EatenNonNegative(r.lm, r.y);
  }

  /** If margins are still open there, it is where the first child fits. */
  lemma DownFits(C: seq<Child>, p: Page, s: State)
    requires Begun(C, s) && MovesDown(C, p, s)
    requires var q := Pass(C, p, s); Open(RoomFor(C, p, s).lm, q.y) != [] || Open(RoomFor(C, p, s).rm, q.y) != []
    ensures Begun(C, Pass(C, p, s)) && !MovesDown(C, p, Pass(C, p, s))
  {
    Down(C, p, s);
    DownRoom(C, p, s);
    FirstDown(C, p, s);
    FirstDown(C, p, Pass(C, p, s));
    RoomOk(C, p, s);
    MoveDownFinds(p, s, RoomFor(C, p, s), LineScan(C, p, s));
  }

  /** It stays above z if all margins end there or above, and some leader would begin at z. */
  lemma DownAbove(C: seq<Child>, p: Page, s: State, z: int, indent: int)
    requires Begun(C, s) && MovesDown(C, p, s) && z == FindIndent(s.lm, s.y, indent) && Open(s.rm, z) == [] && Open(s.lm, z) == []
    requires RoomFor(C, p, s).y < z
    ensures var q := Pass(C, p, s);
            && Begun(C, q) && q.y <= z && !q.force && (q.y < z ==> Open(RoomFor(C, p, s).lm, q.y) != [])
  {
    Down(C, p, s);
    FirstDown(C, p, s);
    RoomOk(C, p, s);
    var r, q := RoomFor(C, p, s), Pass(C, p, s);
    MoveDownFinds(p, s, r, LineScan(C, p, s));
    if r.lm == [] {
      IndentWithin(s.lm, s.y, indent, r.y);
    }
    OpenStaircase(s.lm, z);
    OpenStaircase(s.rm, z);
    OpenOpen(s.lm, r.y, q.y);
    if Open(s.lm, q.y) == [] {
      IndentWithin(s.lm, s.y, indent, q.y);
    }
  }

  /** Two tries of the same line at the same place, that end the same way. */
  ghost predicate Alongside(C: seq<Child>, a: State, b: State) {
    && Bare(C, a) && Bare(C, b) && a.child == b.child && a.y == b.y && !a.force && !b.force && a.lines == b.lines
    && C[a.child].Box? && SameBut(a.slots, b.slots, a.child)
  }

  ghost predicate SameBut(a: seq<Slot>, b: seq<Slot>, i: nat) {
    |a| == |b| && forall j :: 0 <= j < |a| && j != i ==> a[j] == b[j]
  }

  lemma AlongsideScan(C: seq<Child>, p: Page, a: State, b: State)
    requires Alongside(C, a, b)
    ensures RoomFor(C, p, a) == RoomFor(C, p, b) && HardCursor(LineScan(C, p, a)) == HardCursor(LineScan(C, p, b))
  {
    BareRoom(C, p, a, b);
    var r := RoomFor(C, p, a);
    var k, k' := StartCursor(a, r), StartCursor(b, r);
    assert a.slots[a.child := Laid(r.startx)] == b.slots[a.child := Laid(r.startx)];
    FirstAlike(C, r, k, k');
  }

  /** The first child is laid out again, and what the last line ended with is forgotten. */
  lemma FirstAlike(C: seq<Child>, r: Room, k: Cursor, k': Cursor)
    requires k.ch < |C| == |k.slots| == |k'.slots| && C[k.ch].Box? && !k.retry && k.pending.None? && k.startx == r.startx
    requires k' == k.(slots := k'.slots, soft := k'.soft)
    requires k.slots[k.ch := Laid(r.startx)] == k'.slots[k.ch := Laid(r.startx)]
    ensures HardCursor(Scan(C, r, false, k)) == HardCursor(Scan(C, r, false, k'))
  {
    var (a, stop) := ScanChild(C, r, false, k);
    var (b, stop') := ScanChild(C, r, false, k');
    assert HardCursor(a) == HardCursor(b) && stop == stop' && (!stop ==> a == b);
  }

  lemma AlongsidePass(C: seq<Child>, p: Page, a: State, b: State)
    requires Alongside(C, a, b) && (LineScan(C, p, a).result.Floating? || MovesDown(C, p, a))
    ensures Hard(Pass(C, p, a)) == Hard(Pass(C, p, b)) && Pass(C, p, a).child == a.child
  {
    AlongsideScan(C, p, a, b);
    PassFinishes(C, p, a);
    PassFinishes(C, p, b);
  }

  lemma AlongsideRuns(C: seq<Child>, p: Page, a: State, b: State)
    requires Alongside(C, a, b) && (LineScan(C, p, a).result.Floating? || MovesDown(C, p, a))
    ensures Hard(Run(C, p, a)) == Hard(Run(C, p, b))
  {
    PassProgress(C, p, a);
    PassProgress(C, p, b);
    AlongsidePass(C, p, a, b);
    var u, v := Pass(C, p, a), Pass(C, p, b);
    RunForget(C, p, u);
    RunForget(C, p, v);
  }

  /** The try that moved down goes on like one that begins there if and only if it floats, or has no
      room, there too. */
  lemma AlongsideExactly(C: seq<Child>, p: Page, a: State, b: State)
    requires Alongside(C, a, b) && a.more && !b.more
    ensures Hard(Run(C, p, a)) == Hard(Run(C, p, b)) <==> LineScan(C, p, a).result.Floating? || MovesDown(C, p, a)
  {
    if LineScan(C, p, a).result.Floating? || MovesDown(C, p, a) {
      AlongsideRuns(C, p, a, b);
    } else {
      AlongsideScan(C, p, a, b);
      FirstLine(C, p, a);
      FirstLine(C, p, b);
    }
  }

  // ------------------------------------------------------------------------
  // The condition

  /** A line that would begin higher up, against one that begins at its own y. */
  ghost predicate HigherThan(E: seq<Child>, p: Page, h: State, r: State, indent: int) {
    && Begun(E, h) && Bare(E, r) && h.child == r.child && h.lines == r.lines && !r.more && !r.force && !h.force && h.slots == r.slots
    && (forall i :: r.child <= i < |E| ==> r.slots[i].Fresh?)
    && r.y == FindIndent(h.lm, h.y, indent) && Open(h.lm, r.y) == [] && Open(h.rm, r.y) == []
    && RoomFor(E, p, h).y < r.y
  }

  lemma HigherSinks(E: seq<Child>, p: Page, h: State, r: State, indent: int)
    requires HigherThan(E, p, h, r, indent) && MovesDown(E, p, h)
    ensures Hard(Run(E, p, h)) == Hard(Run(E, p, r)) <==> Sinks(E, p, h, r.y)
  {
    Down(E, p, h);
    DownAbove(E, p, h, r.y, indent);
    DownRoom(E, p, h);
    RoomOk(E, p, h);
    var q := Pass(E, p, h);
    if q.y < r.y {
      DownFits(E, p, h);
      HigherDiffers(E, p, q, r);
    } else {
      OpenOpen(h.lm, RoomFor(E, p, h).y, q.y);
      OpenOpen(h.rm, RoomFor(E, p, h).y, q.y);
      SunkExactly(E, p, q, r);
    }
  }

  lemma SunkExactly(E: seq<Child>, p: Page, q: State, r: State)
    requires Begun(E, q) && Bare(E, r) && q.child == r.child && q.lines == r.lines && q.y == r.y && !q.force && !r.force && q.more && !r.more
    requires RoomFor(E, p, q).y == q.y && RoomFor(E, p, q).lm == [] && RoomFor(E, p, q).rm == [] && E[q.child].Box?
    requires SameBut(q.slots, r.slots, q.child)
    ensures Hard(Run(E, p, q)) == Hard(Run(E, p, r)) <==> LineScan(E, p, q).result.Floating? || MovesDown(E, p, q)
  {
    var a := q.(lm := [], rm := []);
    ResumeFrom(E, p, q, a);
    SameTry(E, p, q, a);
    AlongsideExactly(E, p, a, r);
  }

  lemma SameTry(C: seq<Child>, p: Page, s: State, t: State)
    requires s.child < |C| == |s.slots| && t == s.(lm := [], rm := []) && RoomFor(C, p, s).y == s.y && !s.retry
    requires RoomFor(C, p, s).lm == [] && RoomFor(C, p, s).rm == []
    ensures LineScan(C, p, s) == LineScan(C, p, t)
  {
    assert RoomFor(C, p, t) == RoomFor(C, p, s);
    assert StartCursor(t, RoomFor(C, p, t)) == StartCursor(s, RoomFor(C, p, s));
  }

  /** A restarted layout of a body with children appended agrees with a layout from the top if and only
      if no float was placed ahead of the restarted line, it does not begin by swallowing a line break,
      and it begins where it did, or its first child sinks to there. */
  lemma RestartExact(C: seq<Child>, D: seq<Child>, p: Page)
    requires Trim(Full(C, p).lines) != [] && Telling(C, D, p, RestartedAt(C, p))
    ensures var u, t := Full(C, p), RestartedAt(C, p);
            var r := Restart(C + D, p, u.lines, u.slots);
            && Ready(C + D, r)
            && (Hard(Run(C + D, p, r)) == Hard(Full(C + D, p)) <==>
                  && t.pending.None? && !(t.soft && Swallows(C + D, t.child))
                  && (SameStart(C, D, p, t) || Sinks(C + D, p, Ext(t, |D|), RoomFor(C, p, t).y)))
  {
    var u, t := Full(C, p), RestartedAt(C, p);
    RestartReady(C, D, p);
    if t.pending.Some? {
      PendingAbove(C, p);
      PendingDiffers(C, D, p);
    } else if !SameStart(C, D, p, t) {
      RestartHigher(C, D, p);
    } else if t.soft && Swallows(C + D, t.child) {
      RestartSwallows(C, D, p);
    } else {
      RestartAgrees(C, D, p);
    }
  }

  lemma RestartHigher(C: seq<Child>, D: seq<Child>, p: Page)
    requires Trim(Full(C, p).lines) != []
    requires var t := RestartedAt(C, p); Telling(C, D, p, t) && !SameStart(C, D, p, t) && t.pending.None?
    ensures var u, t := Full(C, p), RestartedAt(C, p);
            var r := Restart(C + D, p, u.lines, u.slots);
            && Ready(C + D, r)
            && (Hard(Run(C + D, p, r)) == Hard(Full(C + D, p)) <==> Sinks(C + D, p, Ext(t, |D|), RoomFor(C, p, t).y))
            && (Sinks(C + D, p, Ext(t, |D|), RoomFor(C, p, t).y) ==> !Swallows(C + D, t.child))
  {
    var indent := RestartHigherThan(C, D, p);
    var t := RestartedAt(C, p);
    RestartReached(C, D, p);
    HigherExactly(C + D, p, Ext(t, |D|), Restart(C + D, p, Full(C, p).lines, Full(C, p).slots), indent);
  }

  lemma RestartHigherThan(C: seq<Child>, D: seq<Child>, p: Page) returns (indent: int)
    requires Trim(Full(C, p).lines) != []
    requires var t := RestartedAt(C, p); LedAlike(C, D, t.child) && !SameStart(C, D, p, t) && t.pending.None?
    ensures var u, t := Full(C, p), RestartedAt(C, p);
            var r := Restart(C + D, p, u.lines, u.slots);
            HigherThan(C + D, p, Ext(t, |D|), r, indent) && r.y == RoomFor(C, p, t).y
  {
    var u, t := Full(C, p), RestartedAt(C, p);
    RestartReady(C, D, p);
    RestartReached(C, D, p);
    RestartState(C, D, p);
    RestartedUnflagged(C, p);
    NeverLower(C, C + D, p, t, Ext(t, |D|));
    indent := HigherIs(C, C + D, p, t, Ext(t, |D|), Restart(C + D, p, u.lines, u.slots));
  }

  lemma HigherExactly(E: seq<Child>, p: Page, h: State, r: State, indent: int)
    requires HigherThan(E, p, h, r, indent)
    ensures Hard(Run(E, p, h)) == Hard(Run(E, p, r)) <==> Sinks(E, p, h, r.y)
    ensures Sinks(E, p, h, r.y) ==> !Swallows(E, h.child)
  {
    FirstDown(E, p, h);
    if MovesDown(E, p, h) {
      HigherSinks(E, p, h, r, indent);
    } else {
      HigherDiffers(E, p, h, r);
    }
  }

  lemma HigherIs(C: seq<Child>, E: seq<Child>, p: Page, t: State, h: State, r: State) returns (indent: int)
    requires t.child < |C| && !t.retry && !t.more && RoomFor(C, p, t).lm == [] && RoomFor(C, p, t).rm == [] && Ready(C, t)
    requires Ready(E, h) && Ready(E, r) && h.child == t.child < |E| && h.y == t.y && h.lm == t.lm && h.rm == t.rm
    requires !h.retry && !h.more && h.pending.None? && RoomFor(E, p, h).y < RoomFor(C, p, t).y
    requires r == h.(y := RoomFor(C, p, t).y, soft := false, lm := [], rm := [])
    requires forall i :: r.child <= i < |E| ==> r.slots[i].Fresh?
    ensures HigherThan(E, p, h, r, indent)
  {
    var c := C[Leader(C, t.child)];
    indent := if c.IsBullet() then c.left else c.left + 1;
  }

  lemma RestartSwallows(C: seq<Child>, D: seq<Child>, p: Page)
    requires Trim(Full(C, p).lines) != []
    requires var t := RestartedAt(C, p);
             && SameStart(C, D, p, t) && t.pending.None? && t.soft && Swallows(C + D, t.child)
             && Shows(C + D, p, SwallowedAt(C + D, t.child))
    ensures var u := Full(C, p);
            var r := Restart(C + D, p, u.lines, u.slots);
            Ready(C + D, r) && Hard(Run(C + D, p, r)) != Hard(Full(C + D, p))
  {
    var u, t := Full(C, p), RestartedAt(C, p);
    RestartResumes(C, D, p);
    RestartReached(C, D, p);
    RestartState(C, D, p);
    RestartedUnflagged(C, p);
    var h := Ext(t, |D|);
    RoomsOpen(C, C + D, p, t, h);
    var s := h.(y := RoomFor(C + D, p, h).y, lm := [], rm := []);
    ResumeFrom(C + D, p, h, s);
    assert Hard(s) == Restart(C + D, p, u.lines, u.slots);
    SwallowDiffers(C + D, p, s);
  }
}
