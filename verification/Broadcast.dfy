/** Telling all children of the application something, while any of them may remove itself or
    others on hearing it (aweb/application.c). */
module Broadcast {
  import opened Basics

  /** Distinct members of a list are no more than the list has. */
  lemma {:induction false} NoMoreThan(a: seq<nat>, s: seq<nat>)
    requires Distinct(a) && forall x <- a :: x in s
    ensures |a| <= |s|
  {
    if a != [] {
      assert a[0] in s;
      var k :| 0 <= k < |s| && s[k] == a[0];
      var t := s[..k] + s[k + 1..];
      forall i | 0 < i < |a|
        ensures a[i] in t
      {
        assert a[i] in s && a[i] != a[0];
        var j :| 0 <= j < |s| && s[j] == a[i];
        assert t[if j < k then j else j - 1] == a[i];
      }
      NoMoreThan(a[1..], t);
    }
  }

  /** What the nth visit removes. */
  type Removals = nat -> set<nat>

  function GoneBefore(removes: Removals, n: nat): set<nat> {
    if n == 0 then {} else GoneBefore(removes, n - 1) + removes(n - 1)
  }

  lemma {:induction false} GoneWhen(removes: Removals, n: nat, x: nat)
    ensures x in GoneBefore(removes, n) <==> exists m :: 0 <= m < n && x in removes(m)
  {
    if n > 0 {
      GoneWhen(removes, n - 1, x);
    }
  }

  /** Those in `had` were visited, of `all` at first; `left` are still there. */
  ghost predicate Underway(all: seq<nat>, left: seq<nat>, had: seq<nat>, removes: Removals) {
    && Distinct(all) && Distinct(left) && Distinct(had)
    && (forall x <- had :: x in all)
    && (forall x :: x in left <==> x in all && x !in GoneBefore(removes, |had|))
    && (forall m, n :: 0 <= m < n < |had| ==> had[n] !in removes(m))
  }

  lemma VisitOne(all: seq<nat>, left: seq<nat>, had: seq<nat>, c: nat, after: seq<nat>, removes: Removals)
    requires Underway(all, left, had, removes) && c in left && c !in had
    requires Distinct(after) && forall x :: x in after <==> x in left && x !in removes(|had|)
    ensures Underway(all, after, had + [c], removes) && |had| < |all|
  {
    var now := had + [c];
    forall m, n | 0 <= m < n < |now|
      ensures now[n] !in removes(m)
    {
      if n == |had| {
        GoneWhen(removes, |had|, c);
      }
    }
    forall x
      ensures x in after <==> x in all && x !in GoneBefore(removes, |now|)
    {
      assert GoneBefore(removes, |now|) == GoneBefore(removes, |had|) + removes(|had|);
    }
    forall x <- now
      ensures x in all
    {
      assert x in had || x == c;
    }
    NoMoreThan(now, all);
  }

  class Application {
    var children: seq<nat>

    constructor (children: seq<nat>)
      ensures this.children == children
    {
      this.children := children;
    }

    /** Take one child out of the list. */
    method Remchild(child: nat)
      requires Distinct(children)
      modifies this
      ensures Distinct(children) && forall x :: x in children <==> x in old(children) && x != child
    {
      var i := 0;
      while i < |children| && children[i] != child
        invariant i <= |children| && child !in children[..i]
      {
        i := i + 1;
      }
      if i < |children| {
        ghost var s := children;
        children := children[..i] + children[i + 1..];
        assert forall x :: x in s <==> x in s[..i] || x == child || x in s[i + 1..] by {
          assert s == s[..i] + [child] + s[i + 1..];
        }
        assert child !in s[i + 1..];
      } else {
        assert children[..i] == children;
      }
    }

    /** The first child not had yet, or the end of the list. */
    method NextChild(havehad: array<nat>, n: nat) returns (k: nat)
      requires n <= havehad.Length
      ensures k <= |children| && (k < |children| ==> children[k] !in havehad[..n])
      ensures forall j :: 0 <= j < k ==> children[j] in havehad[..n]
    {
      k := 0;
      while k < |children|
        invariant k <= |children| && forall j :: 0 <= j < k ==> children[j] in havehad[..n]
      {
        var i := 0;
        while i < n && havehad[i] != children[k]
          invariant i <= n && children[k] !in havehad[..i]
        {
          i := i + 1;
        }
        if i >= n {
          break;
        }
        assert havehad[..n][i] == children[k];
        k := k + 1;
      }
    }

    /** A child is told, and removes some children. */
    method Visit(gone: set<nat>)
      requires Distinct(children)
      modifies this
      ensures Distinct(children) && forall x :: x in children <==> x in old(children) && x !in gone
    {
      ghost var all := children;
      var todo := gone;
      while todo != {}
        invariant Distinct(children) && todo <= gone
        invariant forall x :: x in children <==> x in all && (x !in gone || x in todo)
        decreases |todo|
      {
        var x :| x in todo;
        Remchild(x);
        todo := todo - {x};
      }
    }

    /** Visit every child, whatever the visits remove.  No child is visited twice, none that is
        gone is visited, and none that stays is left out. */
    method Broadcastsafe(removes: Removals) returns (visited: seq<nat>)
      requires Distinct(children)
      modifies this
      ensures Distinct(visited) && |visited| <= |old(children)| && forall x <- visited :: x in old(children)
      ensures forall m, n :: 0 <= m < n < |visited| ==> visited[n] !in removes(m)
      ensures forall x :: x in children <==> x in old(children) && x !in GoneBefore(removes, |visited|)
      ensures forall x <- children :: x in visited
    {
      ghost var all := children;
      var havehad := new nat[|children|];
      var n: nat, k: nat := 0, 0;
      while k < |children|
        invariant n <= havehad.Length == |all| && Underway(all, children, havehad[..n], removes)
        invariant k < |children| ==> children[k] !in havehad[..n]
        invariant k >= |children| ==> forall x <- children :: x in havehad[..n]
        decreases |all| - n
      {
        var chs := children[k];
        ghost var had, left := havehad[..n], children;
        Visit(removes(n));
        VisitOne(all, left, had, chs, children, removes);
        havehad[n] := chs;
        n := n + 1;
        assert havehad[..n] == had + [chs];
        k := NextChild(havehad, n);
      }
      visited := havehad[..n];
      NoMoreThan(visited, all);
    }
  }
}
