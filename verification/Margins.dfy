/** The two lists of floating margins of a body (aweb/body.c).

    A margin says how much horizontal space floats have eaten on one side, down to the first
    y below it.  The list head is the margin that ends first.  Every list the layout builds is
    a staircase: going down the list, ends strictly increase while the eaten width and the
    indentation level never increase.  That is what makes the greedy scans below exact.
 */
module Margins {
  import opened Basics

  datatype Margin = Margin(y: int, eaten: int, indent: int)

  ghost predicate Staircase(ms: seq<Margin>) {
    ms != [] ==>
      && ms[0].eaten >= 0
      && (|ms| > 1 ==> ms[0].y < ms[1].y && ms[0].eaten >= ms[1].eaten)
      && Staircase(ms[1..])
  }

  ghost predicate DeepestFirst(ms: seq<Margin>) {
    ms != [] ==> (|ms| > 1 ==> ms[0].indent >= ms[1].indent) && DeepestFirst(ms[1..])
  }

  /** The margins still open at y: the leading ones that ended at or above y are dropped. */
  function Open(ms: seq<Margin>, y: int): (r: seq<Margin>)
    ensures |r| <= |ms|
    ensures r != [] ==> r[0].y > y
  {
    if ms == [] || ms[0].y > y then ms else Open(ms[1..], y)
  }

  /** The width eaten by the margin at the head of a list. */
  function Head(ms: seq<Margin>): int {
    if ms == [] then 0 else ms[0].eaten
  }

  /** The width eaten on one side at a given y. */
  function EatenAt(ms: seq<Margin>, y: int): int {
    Head(Open(ms, y))
  }

  /** The list after a float of the given width, ending at y, is added. */
  function Add(ms: seq<Margin>, y: int, width: int, indent: int): seq<Margin> {
    [Margin(y, width + Head(ms), indent)] + Open(ms, y)
  }

  /** Walk both lists down until what is left of them eats no more than the given width. */
  function FindFrom(l: seq<Margin>, r: seq<Margin>, fy: int, eaten: int): int
    decreases |l| + |r|
  {
    if (l == [] && r == []) || Head(l) + Head(r) <= eaten then fy
    else
      var end := FirstEnd(l, r);
      FindFrom(Advance(l, end), Advance(r, end), end, eaten)
  }

  /** Where the first margin of either list ends. */
  function FirstEnd(l: seq<Margin>, r: seq<Margin>): int
    requires l != [] || r != []
  {
    if l == [] then r[0].y else if r == [] then l[0].y else Min(l[0].y, r[0].y)
  }

  function Advance(ms: seq<Margin>, end: int): seq<Margin> {
    if ms != [] && ms[0].y == end then ms[1..] else ms
  }

  function Find(l: seq<Margin>, r: seq<Margin>, y: int, eaten: int): int {
    Max(y, FindFrom(l, r, y, eaten))
  }

  function FindClear(l: seq<Margin>, r: seq<Margin>, y: int, left: bool, right: bool): int {
    var y1 := if left && l != [] then Max(y, l[|l| - 1].y) else y;
    if right && r != [] then Max(y1, r[|r| - 1].y) else y1
  }

  function FindIndent(ms: seq<Margin>, y: int, indent: int): int
  {
    if ms == [] || ms[0].indent < indent then y
    else FindIndent(ms[1..], Max(y, ms[0].y), indent)
  }

  // ------------------------------------------------------------------------
  // The lists stay staircases

  /** The head ends first and eats most. */
  lemma {:induction false} HeadDominates(ms: seq<Margin>)
    requires Staircase(ms) && ms != []
    ensures forall m <- ms :: 0 <= m.eaten <= ms[0].eaten
    ensures forall m <- ms[1..] :: ms[0].y < m.y
    ensures forall m <- ms :: m == ms[0] || m in ms[1..]
  {
    if |ms| > 1 {
      HeadDominates(ms[1..]);
    }
  }

  lemma {:induction false} HeadDeepest(ms: seq<Margin>)
    requires DeepestFirst(ms) && ms != []
    ensures forall m <- ms :: m.indent <= ms[0].indent
  {
    if |ms| > 1 {
      HeadDeepest(ms[1..]);
    }
  }

  lemma {:induction false} OpenStaircase(ms: seq<Margin>, y: int)
    requires Staircase(ms)
    ensures Staircase(Open(ms, y))
    ensures forall m <- Open(ms, y) :: m.y > y && m in ms
    ensures forall m <- ms :: m.y > y ==> m in Open(ms, y)
  {
    if ms != [] {
      HeadDominates(ms);
      if ms[0].y <= y {
        OpenStaircase(ms[1..], y);
      }
    }
  }

  lemma {:induction false} OpenDeepest(ms: seq<Margin>, y: int)
    requires DeepestFirst(ms)
    ensures DeepestFirst(Open(ms, y))
  {
    if ms != [] && ms[0].y <= y {
      OpenDeepest(ms[1..], y);
    }
  }

  lemma AddStaircase(ms: seq<Margin>, y: int, width: nat, indent: int)
    requires Staircase(ms)
    ensures Staircase(Add(ms, y, width, indent))
  {
    OpenStaircase(ms, y);
    if ms != [] {
      HeadDominates(ms);
    }
    var rest := Open(ms, y);
    assert Add(ms, y, width, indent)[1..] == rest;
    assert rest != [] ==> rest[0] in ms;
  }

  /** Adding a float keeps the deepest indent first, provided no margin has a deeper indent. */
  lemma AddDeepest(ms: seq<Margin>, y: int, width: nat, indent: int)
    requires Staircase(ms) && DeepestFirst(ms)
    requires forall m <- ms :: m.indent <= indent
    ensures DeepestFirst(Add(ms, y, width, indent))
    ensures forall m <- Add(ms, y, width, indent) :: m.indent <= indent
  {
    OpenStaircase(ms, y);
    OpenDeepest(ms, y);
    var rest := Open(ms, y);
    assert Add(ms, y, width, indent)[1..] == rest;
    assert rest != [] ==> rest[0] in rest;
  }

  lemma AddMembers(ms: seq<Margin>, y: int, width: nat, indent: int)
    requires Staircase(ms)
    ensures forall m <- Add(ms, y, width, indent) :: m in ms || m.eaten >= width
  {
    OpenStaircase(ms, y);
    EatenNonNegative(ms, y);
    var rest := Open(ms, y);
    assert Staircase(rest) && (ms != [] ==> ms[0].eaten >= 0);
  }

  lemma HeadEatsMost(ms: seq<Margin>, y: int, m: Margin)
    requires Staircase(ms) && m in ms && m.y > y
    ensures m in Open(ms, y) && 0 <= m.eaten <= EatenAt(ms, y)
  {
    OpenStaircase(ms, y);
    HeadDominates(Open(ms, y));
  }

  lemma EatenNonNegative(ms: seq<Margin>, y: int)
    requires Staircase(ms)
    ensures 0 <= EatenAt(ms, y)
  {
    OpenStaircase(ms, y);
  }

  /** Opening is idempotent, and opening further down subsumes opening further up. */
  lemma {:induction false} OpenOpen(ms: seq<Margin>, y: int, z: int)
    requires y <= z
    ensures Open(Open(ms, y), z) == Open(ms, z)
  {
    if ms != [] && ms[0].y <= y {
      OpenOpen(ms[1..], y, z);
    }
  }

  lemma {:induction false} OpenShrinks(ms: seq<Margin>, y: int, z: int)
    requires y <= z
    ensures |Open(ms, z)| <= |Open(ms, y)|
  {
    OpenOpen(ms, y, z);
  }

  // ------------------------------------------------------------------------
  // Find is exact

  ghost predicate EndsAt(ms: seq<Margin>, y: int) { exists m :: m in ms && m.y == y }

  ghost predicate FitsAt(l: seq<Margin>, r: seq<Margin>, z: int, eaten: int) {
    EatenAt(l, z) + EatenAt(r, z) <= eaten
  }

  /** Advancing past the first end is the same as looking below it. */
  lemma AdvanceOpen(ms: seq<Margin>, end: int)
    requires Staircase(ms) && (ms != [] ==> end <= ms[0].y)
    ensures Advance(ms, end) == Open(ms, end) && Staircase(Advance(ms, end))
    ensures forall m <- Advance(ms, end) :: m in ms && m.y > end
  {
    OpenStaircase(ms, end);
    if ms != [] {
      HeadDominates(ms);
    }
  }

  /** The scan stops at the least y where the rest fits, or at the last end if nothing does. */
  lemma {:induction false} FindFromExact(l: seq<Margin>, r: seq<Margin>, fy: int, eaten: int)
    requires Staircase(l) && Staircase(r)
    requires (l != [] ==> fy < l[0].y) && (r != [] ==> fy < r[0].y)
    ensures var q := FindFrom(l, r, fy, eaten);
            && fy <= q
            && (forall z :: fy <= z < q ==> !FitsAt(l, r, z, eaten))
            && (FitsAt(l, r, q, eaten) || (Open(l, q) == [] && Open(r, q) == []))
            && (q > fy ==> (l != [] || r != []) && FirstEnd(l, r) <= q)
            && (q == fy ==> FitsAt(l, r, fy, eaten) || (l == [] && r == []))
            && (q == fy || EndsAt(l, q) || EndsAt(r, q))
    decreases |l| + |r|
  {
    OpenIsAll(l, fy);
    OpenIsAll(r, fy);
    if !((l == [] && r == []) || Head(l) + Head(r) <= eaten) {
      var end := FirstEnd(l, r);
      var l', r' := Advance(l, end), Advance(r, end);
      AdvanceOpen(l, end);
      AdvanceOpen(r, end);
      assert l' != [] ==> l'[0] in l';
      assert r' != [] ==> r'[0] in r';
      FindFromExact(l', r', end, eaten);
      var q := FindFrom(l', r', end, eaten);
      forall z | fy <= z < q
        ensures !FitsAt(l, r, z, eaten)
      {
        if z < end {
          OpenIsAll(l, z);
          OpenIsAll(r, z);
        } else {
          OpenOpen(l, end, z);
          OpenOpen(r, end, z);
          assert !FitsAt(l', r', z, eaten);
        }
      }
      OpenOpen(l, end, q);
      OpenOpen(r, end, q);
      if q == end {
        assert (l != [] && l[0].y == end) || (r != [] && r[0].y == end);
      }
    }
  }

  lemma OpenIsAll(ms: seq<Margin>, y: int)
    requires ms != [] ==> y < ms[0].y
    ensures Open(ms, y) == ms
  {
  }

  /** Find returns the least y, at or below the given one, where the open margins of both
      sides together eat no more than asked, or the lowest margin end if there is no such y.
      It moves down exactly when the margins open at y eat too much. */
  lemma FindExact(l: seq<Margin>, r: seq<Margin>, y: int, eaten: int)
    requires Staircase(l) && Staircase(r)
    requires (l != [] ==> y < l[0].y) && (r != [] ==> y < r[0].y)
    ensures var q := Find(l, r, y, eaten);
            && y <= q
            && (forall z :: y <= z < q ==> !FitsAt(l, r, z, eaten))
            && (FitsAt(l, r, q, eaten) || (Open(l, q) == [] && Open(r, q) == []))
            && (q > y <==> (l != [] || r != []) && Head(l) + Head(r) > eaten)
            && (q > y ==> |Open(l, q)| + |Open(r, q)| < |l| + |r|)
            && (q == y || EndsAt(l, q) || EndsAt(r, q))
  {
    FindFromExact(l, r, y, eaten);
    OpenIsAll(l, y);
    OpenIsAll(r, y);
    var q := Find(l, r, y, eaten);
    if q > y {
      OpenShrinks(l, y, q);
      OpenShrinks(r, y, q);
      var e := FirstEnd(l, r);
      assert (l != [] && l[0].y == e) || (r != [] && r[0].y == e);
      assert !FitsAt(l, r, y, eaten);
    }
  }

  lemma {:induction false} OpenEmpty(ms: seq<Margin>, y: int)
    requires forall m <- ms :: m.y <= y
    ensures Open(ms, y) == []
  {
    if ms != [] {
      OpenEmpty(ms[1..], y);
    }
  }

  lemma {:induction false} EndsFrom(ms: seq<Margin>, end: int)
    requires Staircase(ms) && (ms != [] ==> end <= ms[0].y)
    ensures forall m <- ms :: end <= m.y
  {
    if ms != [] {
      HeadDominates(ms);
    }
  }

  lemma {:induction false} FindFromClearsAll(l: seq<Margin>, r: seq<Margin>, fy: int)
    requires Staircase(l) && Staircase(r)
    requires forall m <- l + r :: m.eaten > 0
    ensures forall m <- l + r :: m.y <= FindFrom(l, r, fy, 0)
    decreases |l| + |r|
  {
    if l != [] || r != [] {
      assert l != [] ==> l[0] in l + r;
      assert r != [] ==> r[0] in l + r;
      EatenNonNegative(l, fy);
      var end := FirstEnd(l, r);
      EndsFrom(l, end);
      EndsFrom(r, end);
      AdvanceOpen(l, end);
      AdvanceOpen(r, end);
      OpenStaircase(l, end);
      OpenStaircase(r, end);
      var l', r' := Advance(l, end), Advance(r, end);
      assert forall m <- l' + r' :: m in l + r;
      FindFromClearsAll(l', r', end);
      assert l' != [] ==> l'[0] in l' + r';
      assert r' != [] ==> r'[0] in l' + r';
      forall m | m in l + r
        ensures m.y <= FindFrom(l, r, fy, 0)
      {
        if m.y > end {
          assert m in l' + r';
        }
      }
    }
  }

  /** If every margin eats something, then Find for nothing eaten gets below all of them. */
  lemma FindClearsAll(l: seq<Margin>, r: seq<Margin>, y: int, z: int)
    requires Staircase(l) && Staircase(r) && Find(l, r, y, 0) <= z
    requires forall m <- l + r :: m.eaten > 0
    ensures Open(l, z) == [] && Open(r, z) == []
  {
    FindFromClearsAll(l, r, y);
    assert forall m <- l :: m in l + r;
    assert forall m <- r :: m in l + r;
    OpenEmpty(l, z);
    OpenEmpty(r, z);
  }

  /** FindIndent stops at the first margin of a lower level; on a staircase that still gives
      the least y, at or below the given one, clear of every margin of that level or deeper. */
  lemma {:induction false} FindIndentExact(ms: seq<Margin>, y: int, indent: int)
    requires Staircase(ms) && DeepestFirst(ms)
    ensures var q := FindIndent(ms, y, indent);
            && y <= q
            && (forall m <- ms :: m.y > q ==> m.indent < indent)
            && (q > y ==> exists m :: m in ms && m.y == q && m.indent >= indent)
  {
    if ms != [] {
      HeadDominates(ms);
      HeadDeepest(ms);
      if ms[0].indent >= indent {
        FindIndentExact(ms[1..], Max(y, ms[0].y), indent);
      }
    }
  }
}
