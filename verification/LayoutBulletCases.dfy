/** Bullets that are overlapped, because a float came on their line. */
module LayoutBulletCases {
  import opened Basics
  import opened Margins
  import opened Layout
  import opened LayoutRun
  import opened LayoutSafety
  import opened LayoutBullets

  // ------------------------------------------------------------------------
  // A float on the bullet's own line

  lemma TwoPasses(C: seq<Child>, p: Page, s: State, t: State)
    requires C != [] && Pass(C, p, Start(C, p)) == s && s.child < |C| == |s.slots| && Pass(C, p, s) == t && t.child == |C|
    ensures Ready(C, Start(C, p)) && Run(C, p, Start(C, p)) == t
  {
    LayoutEnds(C, p);
    PassProgress(C, p, Start(C, p));
    PassProgress(C, p, s);
    assert Run(C, p, t) == t;
  }

  lemma LastPass(C: seq<Child>, p: Page, s: State, r: Room, k: Cursor)
    requires s.child < |C| == |s.slots| && r == RoomFor(C, p, s) && k == Scan(C, r, s.force, StartCursor(s, r))
    requires k.ch == |C| && k.result.Fits?
    ensures |k.slots| == |C| && Pass(C, p, s) == FinishLine(C, p, s, r, k, |C|, false, true)
  {
  }

  const PAGE := Page(200, 0, 0)
  const WIDE_BULLET := [Box(1, 0, AlignLeft, true, 10, 60, Bullet, Top), Box(1, 0, AlignLeft, true, 30, 20, FloatLeft, Top)]
  const BESIDE := State(0, 0, true, true, false, Some(1), false, [Margin(30, 20, 1)], [], [], [Laid(0), Aligned(40, 0)])

  lemma PassFloats(C: seq<Child>, p: Page, s: State, r: Room, k: Cursor, k1: Cursor, k2: Cursor)
    requires s.child < |C| == |s.slots| && r == RoomFor(C, p, s) && k == StartCursor(s, r)
    requires k1.ch < |C| == |k1.slots| && |k2.slots| == |C| && k2.ch < |C| && C[k2.ch].Box? && k2.result.Floating?
    requires ScanChild(C, r, s.force, k) == (k1, false) && ScanChild(C, r, s.force, k1) == (k2, true)
    ensures Pass(C, p, s) == PlaceFloat(C, s, r, k2)
  {
    ScanTwo(C, r, s.force, k, k1, k2);
  }

  const AT_TOP := Room(0, [], [], 40, 0, 200, 1, 0, AlignLeft, true)
  const BULLET_FIRST := Cursor(0, 0, true, false, true, false, None, 0, 0, 0, 0, [Fresh, Fresh], Fits, 0)
  const FLOAT_NEXT := BULLET_FIRST.(ch := 1, startx := 60, first := false, bullet := false, toph := 10, endx := 60, last := 60,
                                    slots := [Laid(0), Fresh])
  const FLOAT_COMES := FLOAT_NEXT.(slots := [Laid(0), Laid(60)], result := Floating, last := 80)

  lemma WideThenFloat()
    ensures RoomFor(WIDE_BULLET, PAGE, Start(WIDE_BULLET, PAGE)) == AT_TOP
    ensures StartCursor(Start(WIDE_BULLET, PAGE), AT_TOP) == BULLET_FIRST
    ensures ScanChild(WIDE_BULLET, AT_TOP, false, BULLET_FIRST) == (FLOAT_NEXT, false)
    ensures ScanChild(WIDE_BULLET, AT_TOP, false, FLOAT_NEXT) == (FLOAT_COMES, true)
  {
    assert BULLET_FIRST.slots[0 := Laid(0)] == FLOAT_NEXT.slots && FLOAT_NEXT.slots[1 := Laid(60)] == FLOAT_COMES.slots;
    assert Start(WIDE_BULLET, PAGE).slots == BULLET_FIRST.slots;
  }

  lemma FloatBesideBullet()
    ensures Pass(WIDE_BULLET, PAGE, Start(WIDE_BULLET, PAGE)) == BESIDE
  {
    WideThenFloat();
    PassFloats(WIDE_BULLET, PAGE, Start(WIDE_BULLET, PAGE), AT_TOP, BULLET_FIRST, FLOAT_NEXT, FLOAT_COMES);
    assert FLOAT_COMES.slots[1 := Aligned(40, 0)] == BESIDE.slots;
    assert Add([], 30, 20, 1) == [Margin(30, 20, 1)];
  }

  const PUSHED := Room(0, [Margin(30, 20, 1)], [], 60, 20, 200, 1, 0, AlignLeft, true)
  const AT_BULLET := Cursor(0, 20, true, true, true, false, Some(1), 0, 0, 0, 0, BESIDE.slots, Fits, 0)
  const PAST_BULLET := AT_BULLET.(ch := 1, startx := 60, endx := 20, last := 20, bullet := false)
  const PAST_FLOAT := PAST_BULLET.(ch := 2, endx := 60, last := 60, retry := false, pending := None)

  lemma BulletIsSkipped()
    ensures RoomFor(WIDE_BULLET, PAGE, BESIDE) == PUSHED && StartCursor(BESIDE, PUSHED) == AT_BULLET
    ensures ScanChild(WIDE_BULLET, PUSHED, false, AT_BULLET) == (PAST_BULLET, false)
    ensures ScanChild(WIDE_BULLET, PUSHED, false, PAST_BULLET) == (PAST_FLOAT, false)
  {
    assert AT_BULLET.slots[0 := AT_BULLET.slots[0]] == AT_BULLET.slots && AT_BULLET.slots[1 := AT_BULLET.slots[1]] == AT_BULLET.slots;
  }

  lemma ScanBoth(C: seq<Child>, r: Room, force: bool, k: Cursor, k1: Cursor, k2: Cursor)
    requires k.ch < |C| == |k.slots| && k1.ch < |C| == |k1.slots| && k2.ch == |C| == |k2.slots|
    requires ScanChild(C, r, force, k) == (k1, false) && ScanChild(C, r, force, k1) == (k2, false)
    ensures Scan(C, r, force, k) == k2
  {
    assert Scan(C, r, force, k2) == k2;
    assert Scan(C, r, force, k1) == k2;
  }

  lemma WideAligned()
    ensures AlignRange(WIDE_BULLET, [Laid(0), Aligned(40, 0)], 0, 2, 0, 0, -1) == [Aligned(0, 0), Aligned(40, 0)]
  {
    var a := AlignRange(WIDE_BULLET, [Laid(0), Aligned(40, 0)], 0, 2, 0, 0, -1);
    assert a[0] == Aligned(0, 0) && a[1] == Aligned(40, 0) && |a| == 2;
  }

  lemma WideEnds()
    ensures var t := Pass(WIDE_BULLET, PAGE, BESIDE); t.child == 2 && t.slots == [Aligned(0, 0), Aligned(40, 0)]
  {
    BulletIsSkipped();
    ScanBoth(WIDE_BULLET, PUSHED, false, AT_BULLET, PAST_BULLET, PAST_FLOAT);
    LastPass(WIDE_BULLET, PAGE, BESIDE, PUSHED, PAST_FLOAT);
    WideAligned();
  }

  /** The retry for a float leaves the bullet where it was, and a wide one there is under the float. */
  lemma WideBulletOverlaps()
    ensures var C, p := WIDE_BULLET, PAGE;
            && Ready(C, Start(C, p)) && Run(C, p, Start(C, p)).slots == [Aligned(0, 0), Aligned(40, 0)]
            && !Apart(C[0], Aligned(0, 0), C[1], Aligned(40, 0))
  {
    FloatBesideBullet();
    WideEnds();
    TwoPasses(WIDE_BULLET, PAGE, BESIDE, Pass(WIDE_BULLET, PAGE, BESIDE));
  }

  const CENTRED := [Box(1, 0, AlignCenter, true, 10, 9, Bullet, Top), Box(1, 0, AlignCenter, true, 30, 20, FloatLeft, Top),
                    Box(1, 0, AlignCenter, true, 10, 100, Inline, Top)]
  const CENTRED_BESIDE := BESIDE.(slots := [Laid(23), Aligned(40, 0), Fresh])

  const TOP_CENTRED := AT_TOP.(startx := 23, halign := AlignCenter)
  const ONE := BULLET_FIRST.(startx := 23, slots := [Fresh, Fresh, Fresh])
  const TWO := ONE.(ch := 1, startx := 40, first := false, bullet := false, toph := 10, endx := 32, last := 32,
                    slots := [Laid(23), Fresh, Fresh])
  const TWO_FLOATS := TWO.(slots := [Laid(23), Laid(40), Fresh], result := Floating, last := 60)

  lemma CentredThenFloat()
    ensures RoomFor(CENTRED, PAGE, Start(CENTRED, PAGE)) == TOP_CENTRED
    ensures StartCursor(Start(CENTRED, PAGE), TOP_CENTRED) == ONE
    ensures ScanChild(CENTRED, TOP_CENTRED, false, ONE) == (TWO, false)
    ensures ScanChild(CENTRED, TOP_CENTRED, false, TWO) == (TWO_FLOATS, true)
  {
    assert ONE.slots[0 := Laid(23)] == TWO.slots && TWO.slots[1 := Laid(40)] == TWO_FLOATS.slots;
    assert Start(CENTRED, PAGE).slots == ONE.slots;
  }

  lemma FloatBesideCentred()
    ensures Pass(CENTRED, PAGE, Start(CENTRED, PAGE)) == CENTRED_BESIDE
  {
    CentredThenFloat();
    PassFloats(CENTRED, PAGE, Start(CENTRED, PAGE), TOP_CENTRED, ONE, TWO, TWO_FLOATS);
    assert TWO_FLOATS.slots[1 := Aligned(40, 0)] == CENTRED_BESIDE.slots;
    assert Add([], 30, 20, 1) == [Margin(30, 20, 1)];
  }

  const CENTRED_ROOM := PUSHED.(startx := 43, halign := AlignCenter)
  const FIRST := AT_BULLET.(startx := 43, slots := CENTRED_BESIDE.slots)
  const SECOND := FIRST.(ch := 1, startx := 60, endx := 43, last := 43, bullet := false)
  const THIRD := SECOND.(ch := 2, endx := 60, last := 60, retry := false, pending := None, first := false)
  const FOURTH := THIRD.(ch := 3, startx := 160, endx := 160, last := 160, toph := 10, slots := [Laid(23), Aligned(40, 0), Laid(60)])

  lemma CentredIsSkipped()
    ensures RoomFor(CENTRED, PAGE, CENTRED_BESIDE) == CENTRED_ROOM && StartCursor(CENTRED_BESIDE, CENTRED_ROOM) == FIRST
    ensures ScanChild(CENTRED, CENTRED_ROOM, false, FIRST) == (SECOND, false)
  {
    assert FIRST.slots[0 := FIRST.slots[0]] == FIRST.slots;
  }

  lemma CentredGoesOn()
    ensures var (k, stop) := ScanChild(CENTRED, CENTRED_ROOM, false, SECOND);
            !stop && k.(first := false) == THIRD
  {
    assert SECOND.slots[1 := SECOND.slots[1]] == SECOND.slots;
  }

  lemma CentredEnds(first: bool)
    ensures ScanChild(CENTRED, CENTRED_ROOM, false, THIRD.(first := first)) == (FOURTH, false)
  {
    assert THIRD.slots[2 := Laid(60)] == FOURTH.slots;
  }

  lemma CentredMoves()
    ensures var t := Pass(CENTRED, PAGE, CENTRED_BESIDE);
            t.child == 3 && t.slots == [Aligned(43, 0), Aligned(40, 0), Aligned(80, 0)]
  {
    var C := CENTRED;
    CentredIsSkipped();
    CentredGoesOn();
    var k := ScanChild(C, CENTRED_ROOM, false, SECOND).0;
    CentredEnds(k.first);
    assert k == THIRD.(first := k.first);
    assert Scan(C, CENTRED_ROOM, false, FOURTH) == FOURTH;
    assert Scan(C, CENTRED_ROOM, false, k) == FOURTH;
    assert Scan(C, CENTRED_ROOM, false, SECOND) == FOURTH;
    LastPass(C, PAGE, CENTRED_BESIDE, CENTRED_ROOM, FOURTH);
    var a := AlignRange(C, FOURTH.slots, 0, 3, 20, 0, -1);
    assert a[0] == Aligned(43, 0) && a[1] == Aligned(40, 0) && a[2] == Aligned(80, 0) && |a| == 3;
  }

  /** And a narrow one is moved under the float if its line is centred. */
  lemma CentredBulletOverlaps()
    ensures var C, p := CENTRED, PAGE;
            && Ready(C, Start(C, p)) && Run(C, p, Start(C, p)).slots == [Aligned(43, 0), Aligned(40, 0), Aligned(80, 0)]
            && Narrow(C[0]) && !Apart(C[0], Aligned(43, 0), C[1], Aligned(40, 0))
  {
    FloatBesideCentred();
    CentredMoves();
    TwoPasses(CENTRED, PAGE, CENTRED_BESIDE, Pass(CENTRED, PAGE, CENTRED_BESIDE));
  }

  // ------------------------------------------------------------------------
  // A bullet that is higher than what else is on its line

  /** A child that does not end the scan, and one that does. */
  lemma ScanOn(C: seq<Child>, r: Room, force: bool, k: Cursor, k1: Cursor)
    requires k.ch < |C| == |k.slots| && k1.ch <= |C| == |k1.slots| && ScanChild(C, r, force, k) == (k1, false)
    ensures Scan(C, r, force, k) == Scan(C, r, force, k1)
  {
  }

  lemma ScanStops(C: seq<Child>, r: Room, force: bool, k: Cursor, k1: Cursor)
    requires k.ch < |C| == |k.slots| && ScanChild(C, r, force, k) == (k1, true)
    ensures Scan(C, r, force, k) == k1
  {
  }

  /** A pass that ends before the end of the body. */
  lemma PassStops(C: seq<Child>, p: Page, s: State, r: Room, k: Cursor)
    requires s.child < |C| == |s.slots| && r == RoomFor(C, p, s) && k == Scan(C, r, s.force, StartCursor(s, r))
    requires s.child <= k.ch < |C| && k.result.Newline?
    ensures |k.slots| == |C| && Pass(C, p, s) == FinishLine(C, p, s, r, k, k.ch + 1, false, k.soft)
  {
  }

  const RISING := [Box(0, 0, AlignLeft, true, 10, 100, Inline, Bottom), Break(0, 0, AlignLeft, true, 10, false, false, false),
                   Box(1, 0, AlignLeft, true, 9, 9, Bullet, Bottom), Box(1, 0, AlignLeft, true, 30, 20, FloatLeft, Top)]
  const TEXT_LINE: seq<Line> := [Line(0, 0, 100, false, false)]
  const TEXT_DONE := State(2, 10, false, false, false, None, false, [], [], TEXT_LINE, [Aligned(0, 0), Aligned(0, 0), Fresh, Fresh])
  const RISE_AGAIN := State(2, 10, true, true, false, Some(3), false, [Margin(40, 20, 1)], [], TEXT_LINE,
                            [Aligned(0, 0), Aligned(0, 0), Laid(23), Aligned(40, 10)])

  const TEXT_ROOM := Room(0, [], [], 0, 0, 200, 0, 0, AlignLeft, false)
  const AT_TEXT := Cursor(0, 0, true, false, false, false, None, 0, 0, 0, 0, [Fresh, Fresh, Fresh, Fresh], Fits, 0)
  const PAST_TEXT := AT_TEXT.(ch := 1, startx := 100, first := false, above := 10, endx := 100, last := 100,
                              slots := [Laid(0), Fresh, Fresh, Fresh])
  const TEXT_ENDS := PAST_TEXT.(result := Newline(false, false), slots := [Laid(0), Laid(0), Fresh, Fresh])

  lemma TextScan()
    ensures RoomFor(RISING, PAGE, Start(RISING, PAGE)) == TEXT_ROOM && StartCursor(Start(RISING, PAGE), TEXT_ROOM) == AT_TEXT
    ensures Scan(RISING, TEXT_ROOM, false, AT_TEXT) == TEXT_ENDS
  {
    assert Start(RISING, PAGE).slots == AT_TEXT.slots;
    assert AT_TEXT.slots[0 := Laid(0)] == PAST_TEXT.slots && PAST_TEXT.slots[1 := Laid(0)] == TEXT_ENDS.slots;
    ScanOn(RISING, TEXT_ROOM, false, AT_TEXT, PAST_TEXT);
    ScanStops(RISING, TEXT_ROOM, false, PAST_TEXT, TEXT_ENDS);
  }

  lemma TextIsDone()
    ensures Pass(RISING, PAGE, Start(RISING, PAGE)) == TEXT_DONE
  {
    TextScan();
    PassStops(RISING, PAGE, Start(RISING, PAGE), TEXT_ROOM, TEXT_ENDS);
    TextAligned();
  }

  lemma TextAligned()
    ensures AlignRange(RISING, TEXT_ENDS.slots, 0, 2, 0, 0, 9) == TEXT_DONE.slots
  {
    var a := AlignRange(RISING, TEXT_ENDS.slots, 0, 2, 0, 0, 9);
    assert a[0] == Aligned(0, 0) && a[1] == Aligned(0, 0) && a[2] == Fresh && a[3] == Fresh && |a| == 4;
  }

  const RISE_ROOM := Room(10, [], [], 40, 23, 200, 1, 0, AlignLeft, true)
  const AT_RISING := Cursor(2, 23, true, false, true, false, None, 0, 0, 0, 0, TEXT_DONE.slots, Fits, 0)
  const PAST_RISING := AT_RISING.(ch := 3, startx := 40, first := false, bullet := false, above := 9, endx := 32, last := 32,
                                  slots := [Aligned(0, 0), Aligned(0, 0), Laid(23), Fresh])
  const RISE_FLOATS := PAST_RISING.(slots := [Aligned(0, 0), Aligned(0, 0), Laid(23), Laid(40)], result := Floating, last := 60)

  lemma RisingFloats()
    ensures Pass(RISING, PAGE, TEXT_DONE) == RISE_AGAIN
  {
    assert AT_RISING.slots[2 := Laid(23)] == PAST_RISING.slots && PAST_RISING.slots[3 := Laid(40)] == RISE_FLOATS.slots;
    assert RoomFor(RISING, PAGE, TEXT_DONE) == RISE_ROOM && StartCursor(TEXT_DONE, RISE_ROOM) == AT_RISING;
    assert ScanChild(RISING, RISE_ROOM, false, AT_RISING) == (PAST_RISING, false);
    assert ScanChild(RISING, RISE_ROOM, false, PAST_RISING) == (RISE_FLOATS, true);
    PassFloats(RISING, PAGE, TEXT_DONE, RISE_ROOM, AT_RISING, PAST_RISING, RISE_FLOATS);
    assert RISE_FLOATS.slots[3 := Aligned(40, 10)] == RISE_AGAIN.slots;
    assert Add([], 40, 20, 1) == [Margin(40, 20, 1)];
  }

  const RISE_LATER := Room(10, [Margin(40, 20, 1)], [], 60, 43, 200, 1, 0, AlignLeft, true)
  const RISE_FIRST := Cursor(2, 43, true, true, true, false, Some(3), 0, 0, 0, 0, RISE_AGAIN.slots, Fits, 0)
  const RISE_SECOND := RISE_FIRST.(ch := 3, startx := 60, endx := 43, last := 43, bullet := false)
  const RISE_LAST := RISE_SECOND.(ch := 4, endx := 60, last := 60, retry := false, pending := None)

  lemma RisingScan()
    ensures RoomFor(RISING, PAGE, RISE_AGAIN) == RISE_LATER && StartCursor(RISE_AGAIN, RISE_LATER) == RISE_FIRST
    ensures Scan(RISING, RISE_LATER, false, RISE_FIRST) == RISE_LAST
  {
    var a := RISE_AGAIN.slots;
    assert a[2 := a[2]] == a && a[3 := a[3]] == a;
    assert ScanChild(RISING, RISE_LATER, false, RISE_FIRST) == (RISE_SECOND, false);
    assert ScanChild(RISING, RISE_LATER, false, RISE_SECOND) == (RISE_LAST, false);
    ScanBoth(RISING, RISE_LATER, false, RISE_FIRST, RISE_SECOND, RISE_LAST);
  }

  lemma RisingEnds()
    ensures var t := Pass(RISING, PAGE, RISE_AGAIN);
            t.child == 4 && t.slots == [Aligned(0, 0), Aligned(0, 0), Aligned(23, 1), Aligned(40, 10)]
  {
    RisingScan();
    LastPass(RISING, PAGE, RISE_AGAIN, RISE_LATER, RISE_LAST);
    var a := AlignRange(RISING, RISE_LAST.slots, 2, 4, 0, 10, -1);
    assert a[0] == Aligned(0, 0) && a[1] == Aligned(0, 0) && a[2] == Aligned(23, 1) && a[3] == Aligned(40, 10) && |a| == 4;
  }

  /** A bullet as there are, alone on its line with a float: it is put above the line, over the text
      before. */
  lemma BulletRises()
    ensures var C, p := RISING, PAGE;
            && Ready(C, Start(C, p))
            && Run(C, p, Start(C, p)).slots == [Aligned(0, 0), Aligned(0, 0), Aligned(23, 1), Aligned(40, 10)]
            && Narrow(C[2]) && !Apart(C[2], Aligned(23, 1), C[0], Aligned(0, 0))
  {
    TextIsDone();
    RisingFloats();
    RisingEnds();
    LayoutEnds(RISING, PAGE);
    ThreePasses(RISING, PAGE, Start(RISING, PAGE), TEXT_DONE, RISE_AGAIN);
  }

  const TALL := [Box(1, 0, AlignLeft, true, 20, 9, Bullet, Top), Box(1, 0, AlignLeft, true, 5, 20, FloatRight, Top),
                 Break(1, 0, AlignLeft, true, 5, false, false, false), Box(1, 0, AlignLeft, true, 20, 9, Bullet, Top)]
  const TALL_AGAIN := State(0, 0, true, true, false, Some(1), false, [], [Margin(5, 20, 1)], [],
                            [Laid(23), Aligned(180, 0), Fresh, Fresh])
  const TALL_NEXT := State(3, 5, false, false, false, None, false, [], [Margin(5, 20, 1)], [Line(0, 0, 40, true, true)],
                           [Aligned(23, 0), Aligned(180, 0), Aligned(0, 0), Fresh])

  const TALL_ROOM := RISE_ROOM.(y := 0)
  const AT_TALL := Cursor(0, 23, true, false, true, false, None, 0, 0, 0, 0, [Fresh, Fresh, Fresh, Fresh], Fits, 0)
  const PAST_TALL := AT_TALL.(ch := 1, startx := 40, first := false, bullet := false, toph := 20, endx := 32, last := 32,
                              slots := [Laid(23), Fresh, Fresh, Fresh])
  const TALL_FLOATS := PAST_TALL.(slots := [Laid(23), Laid(40), Fresh, Fresh], result := Floating, last := 60)

  lemma TallFloats()
    ensures Pass(TALL, PAGE, Start(TALL, PAGE)) == TALL_AGAIN
  {
    assert Start(TALL, PAGE).slots == AT_TALL.slots;
    assert AT_TALL.slots[0 := Laid(23)] == PAST_TALL.slots && PAST_TALL.slots[1 := Laid(40)] == TALL_FLOATS.slots;
    assert RoomFor(TALL, PAGE, Start(TALL, PAGE)) == TALL_ROOM && StartCursor(Start(TALL, PAGE), TALL_ROOM) == AT_TALL;
    assert ScanChild(TALL, TALL_ROOM, false, AT_TALL) == (PAST_TALL, false);
    assert ScanChild(TALL, TALL_ROOM, false, PAST_TALL) == (TALL_FLOATS, true);
    PassFloats(TALL, PAGE, Start(TALL, PAGE), TALL_ROOM, AT_TALL, PAST_TALL, TALL_FLOATS);
    assert TALL_FLOATS.slots[1 := Aligned(180, 0)] == TALL_AGAIN.slots;
    assert Add([], 5, 20, 1) == [Margin(5, 20, 1)];
  }

  const TALL_LATER := Room(0, [], [Margin(5, 20, 1)], 40, 23, 180, 1, 0, AlignLeft, true)
  const TALL_FIRST := Cursor(0, 23, true, true, true, false, Some(1), 0, 0, 0, 0, TALL_AGAIN.slots, Fits, 0)
  const TALL_SECOND := TALL_FIRST.(ch := 1, startx := 40, endx := 23, last := 23, bullet := false)
  const TALL_THIRD := TALL_SECOND.(ch := 2, endx := 40, last := 40, retry := false, pending := None)
  const TALL_LAST := TALL_THIRD.(toph := 5, result := Newline(false, false), slots := [Laid(23), Aligned(180, 0), Laid(0), Fresh])

  lemma TallScan()
    ensures RoomFor(TALL, PAGE, TALL_AGAIN) == TALL_LATER && StartCursor(TALL_AGAIN, TALL_LATER) == TALL_FIRST
    ensures Scan(TALL, TALL_LATER, false, TALL_FIRST) == TALL_LAST
  {
    var a := TALL_AGAIN.slots;
    assert a[0 := a[0]] == a && a[1 := a[1]] == a && a[2 := Laid(0)] == TALL_LAST.slots;
    assert ScanChild(TALL, TALL_LATER, false, TALL_FIRST) == (TALL_SECOND, false);
    assert ScanChild(TALL, TALL_LATER, false, TALL_SECOND) == (TALL_THIRD, false);
    ScanOn(TALL, TALL_LATER, false, TALL_FIRST, TALL_SECOND);
    ScanOn(TALL, TALL_LATER, false, TALL_SECOND, TALL_THIRD);
    ScanStops(TALL, TALL_LATER, false, TALL_THIRD, TALL_LAST);
  }

  lemma TallEnds()
    ensures Pass(TALL, PAGE, TALL_AGAIN) == TALL_NEXT
  {
    TallScan();
    PassStops(TALL, PAGE, TALL_AGAIN, TALL_LATER, TALL_LAST);
    TallAligned();
  }

  lemma TallAligned()
    ensures AlignRange(TALL, TALL_LAST.slots, 0, 3, 0, 0, -1) == TALL_NEXT.slots
  {
    var a := AlignRange(TALL, TALL_LAST.slots, 0, 3, 0, 0, -1);
    assert a[0] == Aligned(23, 0) && a[1] == Aligned(180, 0) && a[2] == Aligned(0, 0) && a[3] == Fresh && |a| == 4;
  }

  const UNDER_ROOM := RISE_ROOM.(y := 5)
  const AT_UNDER := Cursor(3, 23, true, false, true, false, None, 0, 0, 0, 0, TALL_NEXT.slots, Fits, 0)
  const PAST_UNDER := AT_UNDER.(ch := 4, startx := 40, first := false, bullet := false, toph := 20, endx := 32, last := 32,
                                slots := [Aligned(23, 0), Aligned(180, 0), Aligned(0, 0), Laid(23)])

  lemma UnderEnds()
    ensures var t := Pass(TALL, PAGE, TALL_NEXT);
            t.child == 4 && t.slots == [Aligned(23, 0), Aligned(180, 0), Aligned(0, 0), Aligned(23, 5)]
  {
    assert AT_UNDER.slots[3 := Laid(23)] == PAST_UNDER.slots;
    assert RoomFor(TALL, PAGE, TALL_NEXT) == UNDER_ROOM && StartCursor(TALL_NEXT, UNDER_ROOM) == AT_UNDER;
    assert ScanChild(TALL, UNDER_ROOM, false, AT_UNDER) == (PAST_UNDER, false);
    ScanOn(TALL, UNDER_ROOM, false, AT_UNDER, PAST_UNDER);
    LastPass(TALL, PAGE, TALL_NEXT, UNDER_ROOM, PAST_UNDER);
    var a := AlignRange(TALL, PAST_UNDER.slots, 3, 4, 0, 5, -1);
    assert a[0] == Aligned(23, 0) && a[1] == Aligned(180, 0) && a[2] == Aligned(0, 0) && a[3] == Aligned(23, 5) && |a| == 4;
  }

  /** A bullet higher than what else is on its line reaches into the next line, and overlaps the bullet
      there. */
  lemma BulletsOverlap()
    ensures var C, p := TALL, PAGE;
            && Ready(C, Start(C, p))
            && Run(C, p, Start(C, p)).slots == [Aligned(23, 0), Aligned(180, 0), Aligned(0, 0), Aligned(23, 5)]
            && Narrow(C[0]) && Narrow(C[3]) && !Apart(C[0], Aligned(23, 0), C[3], Aligned(23, 5))
  {
    TallFloats();
    TallEnds();
    UnderEnds();
    LayoutEnds(TALL, PAGE);
    ThreePasses(TALL, PAGE, Start(TALL, PAGE), TALL_AGAIN, TALL_NEXT);
  }
}
