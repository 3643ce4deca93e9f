/** In a body where every box has room, no layout forces a child and no line is broken off
    in a way the restart would have to remember, so a restarted layout always agrees with a
    layout from the top. */
module LayoutRoomy {
  import opened Basics
  import opened Margins
  import opened Layout
  import opened LayoutRun
  import opened LayoutRestart

  /** Every box fits the page beside the indents of any line, every break is a hard one, and
      bullets are visible and come right at the start of what is visible. */
  ghost predicate Roomy(C: seq<Child>, p: Page) {
    && (forall i, j :: 0 <= i < |C| && 0 <= j < |C| && C[i].Box? ==>
          2 * p.hmargin + Indent(C[j].left) + Indent(C[j].right) + C[i].w <= p.width)
    && (forall i :: 0 <= i < |C| && C[i].Break? ==> !C[i].wbr || C[i].clearLeft || C[i].clearRight)
    && (forall i :: 0 <= i < |C| && C[i].IsBullet() ==> C[i].visible && (i > 0 ==> C[i - 1].visible))
  }

  /** What a run over a roomy body keeps. */
  ghost predicate Tame(C: seq<Child>, p: Page, s: State) {
    && Ready(C, s) && !s.force
    && (s.child < |C| ==>
          && (s.soft ==> s.more && C[s.child].Box?)
          && (s.pending.Some? ==>
                && s.more && (forall i :: s.child <= i < s.pending.value ==> C[i].Box?)
                && (!s.retry ==> !C[s.child].IsBullet() && !s.slots[s.child].Aligned?))
          && (s.retry ==> RoomFor(C, p, s).base <= RoomFor(C, p, s).width))
  }

  lemma InvisibleBefore(C: seq<Child>, i: nat)
    requires i < |C|
    ensures Leader(C, i) > i ==> !C[Leader(C, i) - 1].visible
  {
    SeekMonotone(C, i, i);
  }

  /** A bullet leads a line only from its first place. */
  lemma BulletFirst(C: seq<Child>, p: Page, i: nat)
    requires Roomy(C, p) && i < |C| && C[Leader(C, i)].IsBullet()
    ensures Leader(C, i) == i
  {
    InvisibleBefore(C, i);
  }

  /** What holds while a line of a roomy body is scanned. */
  ghost predicate Calm(C: seq<Child>, s: State, r: Room, k: Cursor) {
    && CursorOk(C, s, k)
    && (k.soft ==> k.ch == s.child && (k.ch < |C| ==> C[k.ch].Box?))
    && (forall i :: s.child <= i < k.ch ==> C[i].Box?)
    && (k.pending.Some? ==> forall i :: s.child <= i < k.pending.value ==> C[i].Box?)
    && (if k.bullet then k.ch == s.child && k.ch < |C| && C[k.ch].visible && C[k.ch].IsBullet() else r.base <= k.startx)
    && (s.retry || (k.ch > s.child && k.pending.Some?) ==> k.startx <= r.width)
    && (k.ch == s.child && k.ch < |C| && !s.retry && k.pending.Some? ==>
          !C[k.ch].IsBullet() && !k.slots[k.ch].Aligned?)
    && (s.retry ==> r.base <= r.width)
    && (k.ch == s.child ==> k.retry == s.retry)
  }

  ghost predicate CalmStop(C: seq<Child>, s: State, r: Room, k: Cursor) {
    && StopOk(C, s, k)
    && !k.result.Fits?
    && (k.soft ==> k.ch == s.child && C[k.ch].Box?)
    && (forall i :: s.child <= i < k.ch ==> C[i].Box?)
    && (k.pending.Some? ==> forall i :: s.child <= i < k.pending.value ==> C[i].Box?)
    && (k.result.Newline? ==> C[k.ch].Break?)
    && (k.result.Floating? ==> r.base <= k.startx && k.startx + C[k.ch].w <= r.width)
    && (k.result.NoFit? ==> !(k.pending.Some? && C[k.ch].IsBullet()))
  }

  lemma ScanChildCalm(C: seq<Child>, p: Page, s: State, r: Room, k: Cursor)
    requires Roomy(C, p) && k.ch < |C| && Calm(C, s, r, k)
    requires k.bullet ==> r.startx <= r.base
    ensures var (k', stop) := ScanChild(C, r, false, k);
            if stop then CalmStop(C, s, r, k') else Calm(C, s, r, k')
  {
    ScanChildOk(C, s, r, false, k);
    assert Before(k.pending, k.ch) ==> Visited(C, k.slots, k.ch);
  }

  /** A scan of a roomy body ends at the end of the body, or at a child that does not fit. */
  lemma {:induction false} ScanCalm(C: seq<Child>, p: Page, s: State, r: Room, k: Cursor)
    requires Roomy(C, p) && Calm(C, s, r, k) && k.result.Fits?
    requires r.bullet ==> r.startx <= r.base
    requires k.bullet ==> r.bullet
    ensures var k' := Scan(C, r, false, k);
            if k'.ch == |C| then k'.result.Fits? && k'.pending.None? && CursorOk(C, s, k') else CalmStop(C, s, r, k')
    decreases |C| - k.ch
  {
    if k.ch < |C| {
      ScanChildCalm(C, p, s, r, k);
      var (k1, stop) := ScanChild(C, r, false, k);
      if !stop {
        ScanCalm(C, p, s, r, k1);
      }
    }
  }

  lemma StartCalm(C: seq<Child>, p: Page, s: State)
    requires Roomy(C, p) && Tame(C, p, s) && s.child < |C|
    ensures var r := RoomFor(C, p, s);
            Calm(C, s, r, StartCursor(s, r)) && (r.bullet ==> r.startx <= r.base)
  {
    StartOk(C, p, s);
    if C[Leader(C, s.child)].IsBullet() {
      BulletFirst(C, p, s.child);
    }
  }

  lemma LineScanCalm(C: seq<Child>, p: Page, s: State)
    requires Roomy(C, p) && Tame(C, p, s) && s.child < |C|
    ensures var r, k := RoomFor(C, p, s), LineScan(C, p, s);
            if k.ch == |C| then k.result.Fits? && k.pending.None? && CursorOk(C, s, k) else CalmStop(C, s, r, k)
  {
    StartCalm(C, p, s);
    var r := RoomFor(C, p, s);
    ScanCalm(C, p, s, r, StartCursor(s, r));
  }

  /** A retried line has the same room, but for what the float has taken. */
  lemma RetryRoom(C: seq<Child>, p: Page, s: State)
    requires Roomy(C, p) && Tame(C, p, s) && s.child < |C| && LineScan(C, p, s).result.Floating?
    ensures var t := Pass(C, p, s);
            t.child == s.child && RoomFor(C, p, t).base <= RoomFor(C, p, t).width
  {
    LineScanCalm(C, p, s);
    RoomOk(C, p, s);
    RoomIndents(C, p, s);
    PassProgress(C, p, s);
    var r, k, t := RoomFor(C, p, s), LineScan(C, p, s), Pass(C, p, s);
    RoomOk(C, p, t);
    FindIndentExact(t.lm, t.y, r.left + 1);
    var r' := RoomFor(C, p, t);
    assert r'.y == r.y;
  }

  /** A first child that does not fit can always move down: some margin is in its way. */
  lemma NeverForced(C: seq<Child>, p: Page, s: State)
    requires Roomy(C, p) && Tame(C, p, s) && s.child < |C|
    requires LineScan(C, p, s).result.NoFit? && LineScan(C, p, s).ch == s.child
    ensures !Pass(C, p, s).force
  {
    LineScanCalm(C, p, s);
    RoomOk(C, p, s);
    var r, k := RoomFor(C, p, s), LineScan(C, p, s);
    FirstEndx(C, r, StartCursor(s, r));
    ScanShape(C, r, false, StartCursor(s, r));
    MoveDownFinds(p, s, r, k);
    MarginInTheWay(C, p, r, k, s.child, Leader(C, s.child));
  }

  /** What would fit without margins does not fit, so there are some. */
  lemma MarginInTheWay(C: seq<Child>, p: Page, r: Room, k: Cursor, i: nat, j: nat)
    requires Roomy(C, p) && i < |C| && j < |C| && C[i].Box? && r.left == C[j].left && r.right == C[j].right
    requires r.base == p.hmargin + Head(r.lm) + Indent(r.left)
    requires r.width == p.width - p.hmargin - Head(r.rm) - Indent(r.right)
    requires r.width < k.last <= r.base + C[i].w
    ensures Head(r.lm) + Head(r.rm) > p.width - (k.last - r.base + Indent(r.left) + Indent(r.right) + 2 * p.hmargin)
    ensures r.lm != [] || r.rm != []
  {
  }

  lemma FirstEndx(C: seq<Child>, r: Room, k: Cursor)
    requires k.ch < |C| == |k.slots|
    ensures var k' := Scan(C, r, false, k);
            k'.result.NoFit? && k'.ch == k.ch ==> C[k.ch].Box? && k'.last == k.startx + C[k.ch].w
  {
    var (k1, stop) := ScanChild(C, r, false, k);
    if !stop {
      ScanShape(C, r, false, k1);
    }
  }

  lemma PassTame(C: seq<Child>, p: Page, s: State)
    requires Roomy(C, p) && Tame(C, p, s) && s.child < |C|
    ensures Tame(C, p, Pass(C, p, s))
  {
    PassProgress(C, p, s);
    LineScanCalm(C, p, s);
    PassFinishes(C, p, s);
    var k := LineScan(C, p, s);
    if k.result.Floating? {
      RetryRoom(C, p, s);
    } else if k.result.NoFit? && k.ch == s.child {
      NeverForced(C, p, s);
    }
  }

  lemma {:induction false} LineStartTame(C: seq<Child>, p: Page, s: State, n: nat)
    requires Roomy(C, p) && Tame(C, p, s) && |s.lines| <= n < |Run(C, p, s).lines|
    ensures Tame(C, p, LineStart(C, p, s, n))
    decreases |C| - s.child, Unplaced(C, s.slots, s.child), OpenCount(s), Force01(s)
  {
    PassProgress(C, p, s);
    PassLines(C, p, s);
    if |Pass(C, p, s).lines| <= n {
      PassTame(C, p, s);
      LineStartTame(C, p, Pass(C, p, s), n);
    }
  }

  /** In a roomy body that ends in a visible child, whatever is appended to it, a restarted
      layout gives the places, the line index, the final y and the margins of a layout from
      the top. */
  lemma RoomyRestartAgrees(C: seq<Child>, D: seq<Child>, p: Page)
    requires Roomy(C, p) && C != [] && C[|C| - 1].visible
    ensures var u := Full(C, p);
            var r := Restart(C + D, p, u.lines, u.slots);
            Ready(C + D, r) && Hard(Run(C + D, p, r)) == Hard(Full(C + D, p))
  {
    if Trim(Full(C, p).lines) != [] {
      RestartedUnflagged(C, p);
      RestartedTame(C, p, RestartedAt(C, p));
      LastVisible(C, RestartedAt(C, p).child);
      VisibleStart(C, D, p, RestartedAt(C, p));
    }
    RestartAgrees(C, D, p);
  }

  lemma RestartedTame(C: seq<Child>, p: Page, t: State)
    requires Roomy(C, p) && Trim(Full(C, p).lines) != [] && t == RestartedAt(C, p)
    ensures Tame(C, p, t)
  {
    LayoutEnds(C, p);
    TrimIn(Full(C, p).lines);
    LineStartTame(C, p, Start(C, p), |Trim(Full(C, p).lines)| - 1);
  }

  lemma {:induction false} LastVisible(C: seq<Child>, i: nat)
    requires i < |C| && C[|C| - 1].visible
    ensures SeekVisible(C, i) < |C|
    decreases |C| - i
  {
    if !C[i].visible {
      LastVisible(C, i + 1);
    }
  }

  // ------------------------------------------------------------------------
  // Appending again and again

  /** The body after all the appends. */
  function Joined(C: seq<Child>, Ds: seq<seq<Child>>): seq<Child> {
    if Ds == [] then C else Joined(C, Ds[..|Ds| - 1]) + Ds[|Ds| - 1]
  }

  /** A body that never ends in an invisible child, whatever part of the appends was made. */
  ghost predicate EndsVisible(C: seq<Child>, Ds: seq<seq<Child>>) {
    C != [] && C[|C| - 1].visible && forall D: seq<Child> <- Ds :: D != [] && D[|D| - 1].visible
  }

  lemma RoomyPrefix(C: seq<Child>, D: seq<Child>, p: Page)
    requires Roomy(C + D, p)
    ensures Roomy(C, p)
  {
    var B := C + D;
    assert forall i :: 0 <= i < |C| ==> B[i] == C[i];
  }

  lemma {:induction false} JoinedVisible(C: seq<Child>, Ds: seq<seq<Child>>)
    requires EndsVisible(C, Ds)
    ensures var B := Joined(C, Ds); B != [] && B[|B| - 1].visible
    decreases |Ds|
  {
    if Ds != [] {
      assert Ds[|Ds| - 1] in Ds;
    }
  }

  /** The layout after the appends, each of which was followed by a restarted layout.  It is that of
      the whole body from the top. */
  ghost function Relaid(C: seq<Child>, Ds: seq<seq<Child>>, p: Page): (u: State)
    requires Roomy(Joined(C, Ds), p) && EndsVisible(C, Ds)
    ensures Hard(u) == Hard(Full(Joined(C, Ds), p))
    decreases |Ds|
  {
    if Ds == [] then Full(C, p)
    else
      var n := |Ds| - 1;
      var B, D := Joined(C, Ds[..n]), Ds[n];
      RoomyPrefix(B, D, p);
      assert forall E <- Ds[..n] :: E in Ds;
      var v := Relaid(C, Ds[..n], p);
      JoinedVisible(C, Ds[..n]);
      RoomyRestartAgrees(B, D, p);
      assert v.lines == Full(B, p).lines && v.slots == Full(B, p).slots;
      Run(B + D, p, Restart(B + D, p, v.lines, v.slots))
  }
}
