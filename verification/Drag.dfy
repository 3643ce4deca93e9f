/** Selecting by dragging (aweb/bullet.c, aweb/break.c, aweb/body.c, aweb/event.c): the children of
    a body are highlighted one after the other, by a state machine that stops early. */
module Drag {
  import opened Basics

  datatype Child = Bullet(indent: nat) | Break

  datatype Phase = Before | Render | Reverse | After | Done

  // ------------------------------------------------------------------------
  // One child

  /** The new phase, and whether the bullet is in the range. */
  function Draglimits(isStart: bool, isEnd: bool, phase: Phase, highlighted: bool): (Phase, bool) {
    if isStart then
      match phase
      case Before => (if isEnd then After else Render, true)
      case Reverse => (After, true)
      case _ => (phase, false)
    else if isEnd then
      match phase
      case Before => (Reverse, true)
      case Render => (After, true)
      case _ => (phase, false)
    else
      match phase
      case Before => (Before, false)
      case Render => (Render, true)
      case Reverse => (Reverse, true)
      case After => (if highlighted then After else Done, false)
      case Done => (Done, false)
  }

  /** The new phase, and whether the line break is in the range.  It cannot be highlighted. */
  function Breaklimits(isStart: bool, isEnd: bool, phase: Phase): (Phase, bool) {
    if isStart then
      match phase
      case Before => (if isEnd then After else Render, true)
      case Reverse => (After, true)
      case _ => (phase, false)
    else if isEnd then
      match phase
      case Before => (Reverse, true)
      case Render => (After, true)
      case _ => (phase, false)
    else (phase, phase.Render? || phase.Reverse?)
  }

  function Limits(c: Child, isStart: bool, isEnd: bool, phase: Phase, highlighted: bool): (Phase, bool) {
    if c.Bullet? then Draglimits(isStart, isEnd, phase, highlighted) else Breaklimits(isStart, isEnd, phase)
  }

  // ------------------------------------------------------------------------
  // The range

  /** The place of an object in the body, if there is one. */
  type Place = Option<nat>

  predicate Within(start: Place, end: Place, i: nat) {
    && start.Some? && end.Some?
    && (start.value <= i <= end.value || end.value <= i <= start.value)
  }

  /** Past both ends. */
  predicate Past(start: Place, end: Place, i: nat) {
    start.Some? && end.Some? && start.value < i && end.value < i
  }

  /** What should be highlighted. */
  function Selected(cs: seq<Child>, start: Place, end: Place): (s: seq<bool>) {
    seq(|cs|, i requires 0 <= i < |cs| => cs[i].Bullet? && Within(start, end, i))
  }

  ghost predicate InBody(cs: seq<Child>, start: Place, end: Place) {
    start.Some? == end.Some? && (start.Some? ==> start.value < |cs| && end.value < |cs|)
  }

  /** The phase in which the machine should be before the child at i. */
  function PhaseAt(start: Place, end: Place, i: nat): Phase {
    if start.None? || end.None? || (i <= start.value && i <= end.value) then Before
    else if Past(start, end, i) then After
    else if start.value < i then Render else Reverse
  }

  // ------------------------------------------------------------------------
  // Highlighting all children

  function RenderFrom(cs: seq<Child>, lit: seq<bool>, start: Place, end: Place, i: nat, phase: Phase): (r: seq<bool>)
    requires i <= |cs| == |lit|
    ensures |r| == |cs|
    decreases |cs| - i
  {
    if i == |cs| || phase.Done? then lit
    else
      var (next, hi) := Limits(cs[i], start == Some(i), end == Some(i), phase, lit[i]);
      RenderFrom(cs, if cs[i].Bullet? then lit[i := hi] else lit, start, end, i + 1, next)
  }

  /** Past the range there is no highlighted bullet after one that is not. */
  ghost predicate NoIsland(cs: seq<Child>, lit: seq<bool>, start: Place, end: Place, i: nat)
    requires |cs| == |lit|
  {
    forall j, k :: i <= j < k < |cs| && Past(start, end, j) && cs[j].Bullet? && cs[k].Bullet? && lit[k] ==> lit[j]
  }

  ghost predicate OnlyBullets(cs: seq<Child>, lit: seq<bool>)
    requires |cs| == |lit|
  {
    forall i :: 0 <= i < |cs| && lit[i] ==> cs[i].Bullet?
  }

  lemma LimitsFollow(c: Child, start: Place, end: Place, i: nat, n: nat, highlighted: bool)
    requires start.Some? == end.Some? && (start.Some? ==> start.value < n && end.value < n) && i < n
    ensures var (next, hi) := Limits(c, start == Some(i), end == Some(i), PhaseAt(start, end, i), highlighted);
            && hi == Within(start, end, i)
            && next == if c.Bullet? && !highlighted && Past(start, end, i) then Done else PhaseAt(start, end, i + 1)
  {
  }

  lemma PastUnlit(cs: seq<Child>, lit: seq<bool>, start: Place, end: Place, j: nat, k: nat)
    requires j < k < |cs| == |lit| && OnlyBullets(cs, lit) && NoIsland(cs, lit, start, end, j)
    requires Past(start, end, j) && cs[j].Bullet? && !lit[j]
    ensures !lit[k]
  {
  }

  /** The machine highlights exactly the range, although it stops early. */
  lemma {:induction false} RenderExactly(cs: seq<Child>, lit: seq<bool>, start: Place, end: Place, i: nat)
    requires i <= |cs| == |lit| && InBody(cs, start, end) && OnlyBullets(cs, lit) && NoIsland(cs, lit, start, end, i)
    ensures var r := RenderFrom(cs, lit, start, end, i, PhaseAt(start, end, i));
            forall k :: 0 <= k < |cs| ==> r[k] == if k < i then lit[k] else Selected(cs, start, end)[k]
    decreases |cs| - i
  {
    if i < |cs| {
      LimitsFollow(cs[i], start, end, i, |cs|, lit[i]);
      var (next, hi) := Limits(cs[i], start == Some(i), end == Some(i), PhaseAt(start, end, i), lit[i]);
      var now := if cs[i].Bullet? then lit[i := hi] else lit;
      if next.Done? {
        forall k | i <= k < |cs|
          ensures now[k] == Selected(cs, start, end)[k]
        {
          if k > i {
            PastUnlit(cs, lit, start, end, i, k);
          }
        }
      } else {
        RenderExactly(cs, now, start, end, i + 1);
      }
    }
  }

  /** The machine has stopped, and leaves what is behind the first unlit bullet as it is. */
  lemma {:induction false} StopsAtUnlit(cs: seq<Child>, lit: seq<bool>, start: Place, end: Place, i: nat, j: nat, k: nat)
    requires i <= j < k < |cs| == |lit| && InBody(cs, start, end) && Past(start, end, i) && cs[j].Bullet? && !lit[j]
    ensures RenderFrom(cs, lit, start, end, i, After)[k] == lit[k]
    decreases j - i
  {
    LimitsFollow(cs[i], start, end, i, |cs|, lit[i]);
    if i < j {
      var (next, hi) := Limits(cs[i], start == Some(i), end == Some(i), After, lit[i]);
      if !next.Done? {
        StopsAtUnlit(cs, if cs[i].Bullet? then lit[i := hi] else lit, start, end, i + 1, j, k);
      }
    }
  }

  lemma {:induction false} ReachesPast(cs: seq<Child>, lit: seq<bool>, start: Place, end: Place, i: nat, m: nat)
    returns (past: seq<bool>)
    requires i <= m < |cs| == |lit| && InBody(cs, start, end) && !Past(start, end, i) && Past(start, end, m)
    requires m == 0 || !Past(start, end, m - 1)
    ensures |past| == |cs| && past[m..] == lit[m..]
    ensures RenderFrom(cs, lit, start, end, i, PhaseAt(start, end, i)) == RenderFrom(cs, past, start, end, m, After)
    decreases m - i
  {
    LimitsFollow(cs[i], start, end, i, |cs|, lit[i]);
    var (next, hi) := Limits(cs[i], start == Some(i), end == Some(i), PhaseAt(start, end, i), lit[i]);
    var now := if cs[i].Bullet? then lit[i := hi] else lit;
    assert now[m..] == lit[m..];
    past := now;
    if i + 1 < m {
      past := ReachesPast(cs, now, start, end, i + 1, m);
    }
  }

  /** Stopping early is right exactly if there are no islands past the range. */
  lemma RenderIsRight(cs: seq<Child>, lit: seq<bool>, start: Place, end: Place)
    requires |cs| == |lit| && InBody(cs, start, end) && OnlyBullets(cs, lit)
    ensures RenderFrom(cs, lit, start, end, 0, Before) == Selected(cs, start, end) <==> NoIsland(cs, lit, start, end, 0)
  {
    var r := RenderFrom(cs, lit, start, end, 0, Before);
    assert PhaseAt(start, end, 0) == Before;
    if NoIsland(cs, lit, start, end, 0) {
      RenderExactly(cs, lit, start, end, 0);
      assert r == Selected(cs, start, end);
    } else {
      var j, k :| 0 <= j < k < |cs| && Past(start, end, j) && cs[j].Bullet? && cs[k].Bullet? && lit[k] && !lit[j];
      var m := (if start.value < end.value then end.value else start.value) + 1;
      var now := ReachesPast(cs, lit, start, end, 0, m);
      assert now[j] == now[m..][j - m] && now[k] == now[m..][k - m] && lit[j] == lit[m..][j - m] && lit[k] == lit[m..][k - m];
      StopsAtUnlit(cs, now, start, end, m, j, k);
      assert r[k] && !Selected(cs, start, end)[k];
    }
  }

  /** With the start kept where it is, what was selected before makes no islands. */
  lemma SameStartNoIsland(cs: seq<Child>, start: Place, end: Place, next: Place)
    requires InBody(cs, start, end) && InBody(cs, start, next) && start.Some?
    ensures NoIsland(cs, Selected(cs, start, end), start, next, 0) && OnlyBullets(cs, Selected(cs, start, end))
  {
  }

  /** Nor does anything, if there is no range. */
  lemma NoRangeNoIsland(cs: seq<Child>, lit: seq<bool>)
    requires |cs| == |lit|
    ensures NoIsland(cs, lit, None, None, 0)
  {
  }

  // ------------------------------------------------------------------------
  // Copying

  function Spaces(n: nat): string { if n == 0 then "" else "    " + Spaces(n - 1) }

  /** What a child adds to the clip. */
  function Copied(clip: string, c: Child): string {
    match c
    case Break => clip + "\n"
    case Bullet(indent) =>
      clip + (if indent > 1 && (clip == "" || clip[|clip| - 1] == '\n') then Spaces(indent - 1) else "") + "  o "
  }

  /** The text of the children of a range, in their order. */
  function Clip(clip: string, cs: seq<Child>): string
    decreases |cs|
  {
    if cs == [] then clip else Clip(Copied(clip, cs[0]), cs[1..])
  }

  lemma {:induction false} ClipOne(clip: string, cs: seq<Child>, c: Child)
    ensures Clip(clip, cs + [c]) == Copied(Clip(clip, cs), c)
    decreases |cs|
  {
    if cs == [] {
      assert cs + [c] == [c] && [c][1..] == [];
      assert Clip(clip, [c]) == Clip(Copied(clip, c), []);
    } else {
      assert (cs + [c])[1..] == cs[1..] + [c];
      ClipOne(Copied(clip, cs[0]), cs[1..], c);
    }
  }

  /** The children of the range among the first i. */
  function RangeUpTo(cs: seq<Child>, start: Place, end: Place, i: nat): seq<Child>
    requires i <= |cs|
  {
    if start.None? || end.None? then []
    else
      var lo, hi := Min(start.value, end.value), Min(Max(start.value, end.value) + 1, i);
      if lo < hi then cs[lo..hi] else []
  }

  lemma RangeOne(cs: seq<Child>, start: Place, end: Place, i: nat)
    requires i < |cs|
    ensures RangeUpTo(cs, start, end, i + 1) == RangeUpTo(cs, start, end, i) + if Within(start, end, i) then [cs[i]] else []
  {
  }

  lemma RangeBegins(cs: seq<Child>, start: Place, end: Place)
    ensures Clip("", RangeUpTo(cs, start, end, 0)) == ""
  {
    assert RangeUpTo(cs, start, end, 0) == [];
  }

  lemma RangeIsComplete(cs: seq<Child>, start: Place, end: Place, i: nat)
    requires i <= |cs| && Past(start, end, i)
    ensures RangeUpTo(cs, start, end, i) == RangeUpTo(cs, start, end, |cs|)
  {
  }

  // ------------------------------------------------------------------------
  // The body, and the window that drags over it

  class DragBody {
    const children: seq<Child>
    const highlight: array<bool>
    var dragstart: Place      // the window's
    var dragend: Place

    /** What is highlighted is exactly what lies between the start and the end of the drag. */
    ghost predicate Valid()
      reads this, highlight
    {
      && highlight.Length == |children| && InBody(children, dragstart, dragend)
      && highlight[..] == Selected(children, dragstart, dragend)
    }

    constructor (children: seq<Child>)
      ensures Valid() && this.children == children && dragstart == None && fresh(highlight)
    {
      this.children := children;
      highlight := new bool[|children|](_ => false);
      dragstart, dragend := None, None;
    }

    /** Pass a drag along all children until one says that the rest need not know. */
    method Dragrenderbody(start: Place, end: Place)
      requires highlight.Length == |children| && InBody(children, start, end)
      modifies highlight
      ensures highlight[..] == RenderFrom(children, old(highlight[..]), start, end, 0, Before)
    {
      var phase := Before;
      var i := 0;
      while i < |children| && phase != Done
        invariant i <= |children|
        invariant RenderFrom(children, highlight[..], start, end, i, phase)
               == RenderFrom(children, old(highlight[..]), start, end, 0, Before)
      {
        ghost var lit := highlight[..];
        if children[i].Bullet? {
          var hi;
          phase, hi := Draglimits(start == Some(i), end == Some(i), phase, highlight[i]).0,
                       Draglimits(start == Some(i), end == Some(i), phase, highlight[i]).1;
          highlight[i] := hi;
          assert highlight[..] == lit[i := hi];
        } else {
          phase := Breaklimits(start == Some(i), end == Some(i), phase).0;
        }
        i := i + 1;
      }
    }

    /** The mouse was dragged to an object: it is the end of the range, and the start too if
        there was none. */
    method Dragselect(object_: nat)
      requires Valid() && object_ < |children|
      modifies this, highlight
      ensures Valid() && dragend == Some(object_)
      ensures dragstart == if old(dragstart).None? then Some(object_) else old(dragstart)
    {
      ghost var lit, was, wasEnd := highlight[..], dragstart, dragend;
      dragend := Some(object_);
      if dragstart.None? {
        dragstart := dragend;
      }
      if was.Some? {
        SameStartNoIsland(children, was, wasEnd, dragend);
      } else {
        assert NoIsland(children, lit, dragstart, dragend, 0) && OnlyBullets(children, lit);
      }
      RenderIsRight(children, lit, dragstart, dragend);
      Dragrenderbody(dragstart, dragend);
    }

    /** Nothing is selected any more. */
    method Dragclear()
      requires Valid()
      modifies this, highlight
      ensures Valid() && dragstart == dragend == None
    {
      if dragstart.Some? {
        NoRangeNoIsland(children, highlight[..]);
        RenderIsRight(children, highlight[..], None, None);
        Dragrenderbody(None, None);
        dragstart, dragend := None, None;
      } else {
        assert dragend.None?;
      }
    }

    /** One child of the copy. */
    method CopyChild(i: nat, phase: Phase, clip: string) returns (next: Phase, more: string)
      requires Valid() && i < |children| && phase != Done && phase == PhaseAt(dragstart, dragend, i)
      requires clip == Clip("", RangeUpTo(children, dragstart, dragend, i))
      ensures if next.Done? then Past(dragstart, dragend, i + 1) else next == PhaseAt(dragstart, dragend, i + 1)
      ensures more == Clip("", RangeUpTo(children, dragstart, dragend, i + 1))
    {
      LimitsFollow(children[i], dragstart, dragend, i, |children|, highlight[i]);
      var (after, add) := Limits(children[i], dragstart == Some(i), dragend == Some(i), phase, highlight[i]);
      next := after;
      RangeOne(children, dragstart, dragend, i);
      more := clip;
      if add {
        ClipOne("", RangeUpTo(children, dragstart, dragend, i), children[i]);
        more := Copied(clip, children[i]);
      }
    }

    /** Collect the text of what is selected. */
    method Dragcopybody() returns (clip: string)
      requires Valid()
      ensures clip == Clip("", RangeUpTo(children, dragstart, dragend, |children|))
    {
      clip := "";
      var phase := Before;
      var i := 0;
      RangeBegins(children, dragstart, dragend);
      while i < |children| && phase != Done
        invariant i <= |children|
        invariant if phase.Done? then Past(dragstart, dragend, i) else phase == PhaseAt(dragstart, dragend, i)
        invariant clip == Clip("", RangeUpTo(children, dragstart, dragend, i))
      {
        phase, clip := CopyChild(i, phase, clip);
        i := i + 1;
      }
      if phase.Done? {
        RangeIsComplete(children, dragstart, dragend, i);
      }
    }
  }
}
