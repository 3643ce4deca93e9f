/** The cookie store (aweb/cookie.c): a list in the order in which cookies are sent, longest path
    first, and a list in the order in which they were last used, which is the order of the file. */
module CookieJar {
  import opened Basics
  import opened CookieText

  datatype Jar = Jar(list: seq<Cookie>, uses: seq<Cookie>)

  const NO_COOKIES := Jar([], [])

  const INPUTBLOCKSIZE := 8192

  /** Domain and name do not mind case, the path does. */
  function KeyOfCookie(c: Cookie): (string, string, string) { (Uppercase(c.domain), c.path, Uppercase(c.name)) }

  predicate SameKey(a: Cookie, b: Cookie) { KeyOfCookie(a) == KeyOfCookie(b) }

  predicate Expired(c: Cookie, today: nat) { c.expires != 0 && c.expires <= today }

  predicate Sorted(s: seq<Cookie>) { forall i, j :: 0 <= i < j < |s| ==> |s[i].path| >= |s[j].path| }

  predicate UniqueKeys(s: seq<Cookie>) { forall i, j :: 0 <= i < j < |s| ==> !SameKey(s[i], s[j]) }

  ghost predicate Valid(j: Jar) {
    Sorted(j.list) && UniqueKeys(j.uses) && multiset(j.list) == multiset(j.uses)
  }

  function Without(s: seq<Cookie>, c: Cookie): seq<Cookie> {
    if s == [] then []
    else (if SameKey(s[0], c) then [] else [s[0]]) + Without(s[1..], c)
  }

  /** Where a cookie goes: before the first with a shorter path. */
  function Place(s: seq<Cookie>, c: Cookie): (n: nat)
    ensures n <= |s| && (n < |s| ==> |s[n].path| < |c.path|)
    ensures forall i :: 0 <= i < n ==> |s[i].path| >= |c.path|
  {
    if s == [] || |s[0].path| < |c.path| then 0 else 1 + Place(s[1..], c)
  }

  function Insert(s: seq<Cookie>, c: Cookie): seq<Cookie> {
    s[..Place(s, c)] + [c] + s[Place(s, c)..]
  }

  /** Remember a cookie in place of any with the same key, unless it has expired. */
  function Add(j: Jar, c: Cookie, today: nat): Jar {
    var list, uses := Without(j.list, c), Without(j.uses, c);
    if Expired(c, today) then Jar(list, uses) else Jar(Insert(list, c), uses + [c])
  }

  // ------------------------------------------------------------------------
  // The lists stay in order

  /** Places in the tail of a list, as places in the list, with the head or without. */
  lemma Shifted<T>(s: seq<T>, t: seq<T>, from: seq<nat>, head: bool) returns (all: seq<nat>)
    requires s != [] && |from| == |t| && forall k :: 0 <= k < |from| ==> from[k] < |s| - 1 && s[1..][from[k]] == t[k]
    requires forall k, l :: 0 <= k < l < |from| ==> from[k] < from[l]
    ensures var r := (if head then [s[0]] else []) + t;
            |all| == |r| && forall k :: 0 <= k < |all| ==> all[k] < |s| && s[all[k]] == r[k]
    ensures forall k, l :: 0 <= k < l < |all| ==> all[k] < all[l]
  {
    var d := if head then 1 else 0;
    var r := (if head then [s[0]] else []) + t;
    all := seq(|r|, k requires 0 <= k < |r| => if k < d then 0 else from[k - d] + 1);
    forall k | 0 <= k < |all|
      ensures all[k] < |s| && s[all[k]] == r[k]
    {
      if k >= d {
        var i := from[k - d];
        assert s[1..][i] == t[k - d] && s[i + 1] == s[1..][i];
      }
    }
    forall k, l | 0 <= k < l < |all|
      ensures all[k] < all[l]
    {
      if k >= d {
        assert from[k - d] < from[l - d];
      }
    }
  }

  /** Where in the list the cookies that stay come from. */
  lemma {:induction false} WithoutFrom(s: seq<Cookie>, c: Cookie) returns (from: seq<nat>)
    ensures |from| == |Without(s, c)| && forall k :: 0 <= k < |from| ==> from[k] < |s| && s[from[k]] == Without(s, c)[k]
    ensures forall k, l :: 0 <= k < l < |from| ==> from[k] < from[l]
    ensures forall x <- Without(s, c) :: !SameKey(x, c)
  {
    if s == [] {
      from := [];
    } else {
      var rest := WithoutFrom(s[1..], c);
      from := Shifted(s, Without(s[1..], c), rest, !SameKey(s[0], c));
    }
  }

  lemma WithoutSome(s: seq<Cookie>, c: Cookie)
    ensures forall x <- Without(s, c) :: !SameKey(x, c)
    ensures Sorted(s) ==> Sorted(Without(s, c))
    ensures UniqueKeys(s) ==> UniqueKeys(Without(s, c))
  {
    var from := WithoutFrom(s, c);
  }

  /** What is removed depends on the cookies alone, not on their order. */
  lemma {:induction false} WithoutCounts(s: seq<Cookie>, c: Cookie, x: Cookie)
    ensures multiset(Without(s, c))[x] == if SameKey(x, c) then 0 else multiset(s)[x]
  {
    if s != [] {
      var rest := s[1..];
      WithoutCounts(rest, c, x);
      assert s == [s[0]] + rest;
      assert multiset(s)[x] == (if x == s[0] then 1 else 0) + multiset(rest)[x];
    }
  }

  lemma InsertAt(s: seq<Cookie>, c: Cookie, k: nat)
    requires k <= |s|
    ensures var n := Place(s, c);
            |Insert(s, c)| == |s| + 1 && Insert(s, c)[k] == if k < n then s[k] else if k == n then c else s[k - 1]
  {
  }

  lemma InsertCounts(s: seq<Cookie>, c: Cookie)
    ensures multiset(Insert(s, c)) == multiset(s) + multiset{c}
  {
    assert s == s[..Place(s, c)] + s[Place(s, c)..];
  }

  lemma InsertSorted(s: seq<Cookie>, c: Cookie)
    requires Sorted(s)
    ensures Sorted(Insert(s, c)) && multiset(Insert(s, c)) == multiset(s) + multiset{c}
  {
    var n, t := Place(s, c), Insert(s, c);
    InsertCounts(s, c);
    forall i, j | 0 <= i < j < |t|
      ensures |t[i].path| >= |t[j].path|
    {
      InsertAt(s, c, i);
      InsertAt(s, c, j);
      if j > n {
        BelowPlace(s, c, j - 1);
      }
    }
  }

  lemma BelowPlace(s: seq<Cookie>, c: Cookie, k: nat)
    requires Sorted(s) && Place(s, c) <= k < |s|
    ensures |s[k].path| < |c.path|
  {
    var n := Place(s, c);
    if n < k {
      assert |s[n].path| >= |s[k].path|;
    }
  }

  lemma WithoutSame(s: seq<Cookie>, t: seq<Cookie>, c: Cookie)
    requires multiset(s) == multiset(t)
    ensures multiset(Without(s, c)) == multiset(Without(t, c))
  {
    forall x
      ensures multiset(Without(s, c))[x] == multiset(Without(t, c))[x]
    {
      WithoutCounts(s, c, x);
      WithoutCounts(t, c, x);
    }
  }

  lemma AppendUnique(s: seq<Cookie>, c: Cookie)
    requires UniqueKeys(s) && forall x <- s :: !SameKey(x, c)
    ensures UniqueKeys(s + [c])
  {
  }

  /** Whatever cookie comes, the keys stay unique and the list stays sorted. */
  lemma AddValid(j: Jar, c: Cookie, today: nat)
    requires Valid(j)
    ensures Valid(Add(j, c, today))
    ensures c in Add(j, c, today).list || Expired(c, today)
  {
    var list, uses := Without(j.list, c), Without(j.uses, c);
    WithoutSome(j.list, c);
    WithoutSome(j.uses, c);
    WithoutSame(j.list, j.uses, c);
    if !Expired(c, today) {
      InsertSorted(list, c);
      AppendUnique(uses, c);
      InsertedIsThere(list, c);
    }
  }

  lemma InsertedIsThere(s: seq<Cookie>, c: Cookie)
    ensures c in Insert(s, c)
  {
    assert Insert(s, c)[Place(s, c)] == c;
  }

  // ------------------------------------------------------------------------
  // Saving and loading

  predicate Saves(c: Cookie, barred: string -> bool) { c.expires != 0 && !barred(c.domain) }

  /** The file that is saved. */
  function Save(uses: seq<Cookie>, cal: Calendar, barred: string -> bool): string {
    if uses == [] then ""
    else (if Saves(uses[0], barred) then Line(uses[0], cal) + "\n" else "") + Save(uses[1..], cal, barred)
  }

  predicate EndsLine(c: char) { c == '\n' || c == '\0' }

  /** One line of a file, if it is complete and fits the buffer, and the rest of the file. */
  function ReadLine(s: string): Option<(string, string)> {
    var n := Span(s, EndsLine);
    if n < INPUTBLOCKSIZE && n < |s| then Some((s[..n], s[n + 1..])) else None
  }

  function LoadRest(j: Jar, s: string, cal: Calendar, today: nat, barred: string -> bool): Jar
    decreases |s|
  {
    match ReadLine(s)
    case None => j
    case Some((line, rest)) =>
      (match Parse(line, cal, today, barred)
       case None => LoadRest(j, rest, cal, today, barred)
       case Some(c) => LoadRest(Add(j, c, today), rest, cal, today, barred))
  }

  predicate OldFormat(s: string) { "AWCK" <= s }

  /** The store that a file makes.  A file that starts like an old one is ignored. */
  function Load(s: string, cal: Calendar, today: nat, barred: string -> bool): Jar {
    if OldFormat(s) then NO_COOKIES else LoadRest(NO_COOKIES, s, cal, today, barred)
  }

  /** The cookies that come back. */
  function Kept(uses: seq<Cookie>, today: nat, barred: string -> bool): seq<Cookie> {
    if uses == [] then []
    else (if Saves(uses[0], barred) && !Expired(uses[0], today) then [uses[0]] else []) + Kept(uses[1..], today, barred)
  }

  /** The line of a cookie can be told from others, and fits the buffer. */
  predicate Fits(c: Cookie, cal: Calendar) {
    Savable(c) && |Line(c, cal)| < INPUTBLOCKSIZE && forall x <- Line(c, cal) :: !EndsLine(x)
  }

  lemma ReadLineBack(line: string, rest: string)
    requires |line| < INPUTBLOCKSIZE && forall x <- line :: !EndsLine(x)
    ensures ReadLine(line + "\n" + rest) == Some((line, rest))
  {
    var s := line + ("\n" + rest);
    SpanIs(line, "\n" + rest, EndsLine);
    assert line + "\n" + rest == s && s[..|line|] == line && s[|line| + 1..] == rest;
  }

  lemma {:induction false} WithoutNone(s: seq<Cookie>, c: Cookie)
    requires forall x <- s :: !SameKey(x, c)
    ensures Without(s, c) == s
  {
    if s != [] {
      assert s[0] in s;
      WithoutNone(s[1..], c);
    }
  }

  lemma {:induction false} LoadSaved(j: Jar, uses: seq<Cookie>, cal: Calendar, today: nat, barred: string -> bool)
    requires Valid(j) && Faithful(cal) && UniqueKeys(j.uses + uses)
    requires forall c <- uses :: Saves(c, barred) ==> Fits(c, cal)
    ensures var k := LoadRest(j, Save(uses, cal, barred), cal, today, barred);
            Valid(k) && k.uses == j.uses + Kept(uses, today, barred)
    decreases |uses|
  {
    if uses == [] {
      assert j.uses + [] == j.uses;
    } else {
      var c, more := uses[0], uses[1..];
      assert uses == [c] + more && c in uses;
      assert forall x <- more :: x in uses;
      if Saves(c, barred) {
        LoadNext(j, c, more, today);
        LoadSaved(Add(j, c, today), more, cal, today, barred);
        LoadOne(j, c, Save(more, cal, barred), cal, today, barred);
        Regroup(j.uses, if Expired(c, today) then [] else [c], Kept(more, today, barred));
      } else {
        UniqueSkip(j.uses, c, more);
        LoadSaved(j, more, cal, today, barred);
        NotSaved(uses, cal, today, barred);
      }
    }
  }

  lemma NotSaved(uses: seq<Cookie>, cal: Calendar, today: nat, barred: string -> bool)
    requires uses != [] && !Saves(uses[0], barred)
    ensures Save(uses, cal, barred) == Save(uses[1..], cal, barred)
    ensures Kept(uses, today, barred) == Kept(uses[1..], today, barred)
  {
    assert "" + Save(uses[1..], cal, barred) == Save(uses[1..], cal, barred);
    assert [] + Kept(uses[1..], today, barred) == Kept(uses[1..], today, barred);
  }

  lemma Regroup(a: seq<Cookie>, b: seq<Cookie>, c: seq<Cookie>)
    ensures a + b + c == a + (b + c)
  {
  }

  lemma LoadOne(j: Jar, c: Cookie, rest: string, cal: Calendar, today: nat, barred: string -> bool)
    requires Faithful(cal) && Fits(c, cal) && Saves(c, barred)
    ensures LoadRest(j, Line(c, cal) + "\n" + rest, cal, today, barred) == LoadRest(Add(j, c, today), rest, cal, today, barred)
  {
    ReadLineBack(Line(c, cal), rest);
    LineParses(c, cal, today, barred);
  }

  lemma UniqueSkip(u: seq<Cookie>, c: Cookie, more: seq<Cookie>)
    requires UniqueKeys(u + ([c] + more))
    ensures UniqueKeys(u + more) && UniqueKeys(u + [c] + more) && forall x <- u :: !SameKey(x, c)
  {
    var all := u + ([c] + more);
    assert u + [c] + more == all;
    forall i, j | 0 <= i < j < |u + more|
      ensures !SameKey((u + more)[i], (u + more)[j])
    {
      assert (u + more)[i] == all[if i < |u| then i else i + 1] && (u + more)[j] == all[if j < |u| then j else j + 1];
    }
    forall i | 0 <= i < |u|
      ensures !SameKey(u[i], c)
    {
      assert all[i] == u[i] && all[|u|] == c;
    }
  }

  lemma LoadNext(j: Jar, c: Cookie, more: seq<Cookie>, today: nat)
    requires Valid(j) && UniqueKeys(j.uses + ([c] + more))
    ensures var k := Add(j, c, today);
            && Valid(k) && k.uses == j.uses + (if Expired(c, today) then [] else [c])
            && UniqueKeys(k.uses + more)
  {
    UniqueSkip(j.uses, c, more);
    WithoutNone(j.uses, c);
    AddValid(j, c, today);
  }

  /** Saving the cookies and loading them again gives the persistent ones back, in the order of
      their use, with unique keys, and sorted for sending; unless the file starts like an old one. */
  lemma SavedAreLoaded(j: Jar, cal: Calendar, today: nat, barred: string -> bool)
    requires Valid(j) && Faithful(cal) && forall c <- j.uses :: Saves(c, barred) ==> Fits(c, cal)
    ensures var s := Save(j.uses, cal, barred);
            var k := Load(s, cal, today, barred);
            Valid(k) && k.uses == if OldFormat(s) then [] else Kept(j.uses, today, barred)
  {
    LoadIntoNone(j.uses, cal, today, barred);
  }

  lemma LoadIntoNone(uses: seq<Cookie>, cal: Calendar, today: nat, barred: string -> bool)
    requires UniqueKeys(uses) && Faithful(cal) && forall c <- uses :: Saves(c, barred) ==> Fits(c, cal)
    ensures var k := LoadRest(NO_COOKIES, Save(uses, cal, barred), cal, today, barred);
            Valid(k) && k.uses == Kept(uses, today, barred) && Valid(NO_COOKIES)
  {
    assert [] + uses == uses;
    LoadSaved(NO_COOKIES, uses, cal, today, barred);
    assert [] + Kept(uses, today, barred) == Kept(uses, today, barred);
  }

  // ------------------------------------------------------------------------
  // Sending

  function Those(s: seq<Cookie>, wanted: Cookie -> bool): seq<Cookie> {
    if s == [] then [] else (if wanted(s[0]) then [s[0]] else []) + Those(s[1..], wanted)
  }

  /** Cookies were used one after the other: each went to the end of the list of uses. */
  function Used(uses: seq<Cookie>, cs: seq<Cookie>): seq<Cookie>
    decreases |cs|
  {
    if cs == [] then uses else Used(Without(uses, cs[0]) + [cs[0]], cs[1..])
  }

  lemma {:induction false} WithoutBoth(s: seq<Cookie>, t: seq<Cookie>, c: Cookie)
    ensures Without(s + t, c) == Without(s, c) + Without(t, c)
  {
    if s == [] {
      assert s + t == t;
    } else {
      assert (s + t)[1..] == s[1..] + t;
      WithoutBoth(s[1..], t, c);
    }
  }

  lemma Grouped(a: seq<Cookie>, b: seq<Cookie>, c: seq<Cookie>)
    ensures a + (b + c) == a + b + c
  {
  }

  lemma {:induction false} ThoseBoth(s: seq<Cookie>, t: seq<Cookie>, wanted: Cookie -> bool)
    ensures Those(s + t, wanted) == Those(s, wanted) + Those(t, wanted)
  {
    if s == [] {
      assert s + t == t;
    } else {
      assert (s + t)[0] == s[0] && (s + t)[1..] == s[1..] + t;
      ThoseBoth(s[1..], t, wanted);
      Grouped(if wanted(s[0]) then [s[0]] else [], Those(s[1..], wanted), Those(t, wanted));
    }
  }

  lemma {:induction false} UsedOne(uses: seq<Cookie>, cs: seq<Cookie>, c: Cookie)
    ensures Used(uses, cs + [c]) == Without(Used(uses, cs), c) + [c]
    decreases |cs|
  {
    if cs == [] {
      assert [c][1..] == [] && cs + [c] == [c];
      assert Used(uses, [c]) == Used(Without(uses, c) + [c], []);
    } else {
      assert (cs + [c])[1..] == cs[1..] + [c] && (cs + [c])[0] == cs[0];
      UsedOne(Without(uses, cs[0]) + [cs[0]], cs[1..], c);
    }
  }

  /** In the end the cookies used are last, in the order in which they were used, and the others
      are before them in the order in which they were. */
  lemma {:induction false} UsedIsLast(uses: seq<Cookie>, cs: seq<Cookie>)
    requires UniqueKeys(cs)
    ensures Used(uses, cs) == WithoutAll(uses, cs) + cs
    decreases |cs|
  {
    if cs == [] {
      assert WithoutAll(uses, cs) + cs == uses;
    } else {
      var c, more := cs[0], cs[1..];
      UsedIsLast(Without(uses, c) + [c], more);
      WithoutAllBoth(Without(uses, c), [c], more);
      assert forall x <- more :: !SameKey(c, x) by {
        assert forall k :: 0 <= k < |more| ==> more[k] == cs[k + 1];
      }
      WithoutAllNone(c, more);
      assert WithoutAll(Without(uses, c), more) + [c] + more == WithoutAll(uses, cs) + cs;
    }
  }

  function WithoutAll(s: seq<Cookie>, cs: seq<Cookie>): seq<Cookie>
    decreases |cs|
  {
    if cs == [] then s else WithoutAll(Without(s, cs[0]), cs[1..])
  }

  lemma {:induction false} WithoutAllBoth(s: seq<Cookie>, t: seq<Cookie>, cs: seq<Cookie>)
    ensures WithoutAll(s + t, cs) == WithoutAll(s, cs) + WithoutAll(t, cs)
    decreases |cs|
  {
    if cs != [] {
      WithoutBoth(s, t, cs[0]);
      WithoutAllBoth(Without(s, cs[0]), Without(t, cs[0]), cs[1..]);
    }
  }

  lemma {:induction false} WithoutAllNone(c: Cookie, cs: seq<Cookie>)
    requires forall x <- cs :: !SameKey(c, x)
    ensures WithoutAll([c], cs) == [c]
    decreases |cs|
  {
    if cs != [] {
      assert cs[0] in cs && [c][1..] == [];
      assert Without([c], cs[0]) == [c] + Without([], cs[0]) == [c];
      WithoutAllNone(c, cs[1..]);
    }
  }

  lemma {:induction false} ThoseFrom(s: seq<Cookie>, wanted: Cookie -> bool) returns (from: seq<nat>)
    ensures |from| == |Those(s, wanted)| && forall k :: 0 <= k < |from| ==> from[k] < |s| && s[from[k]] == Those(s, wanted)[k]
    ensures forall k, l :: 0 <= k < l < |from| ==> from[k] < from[l]
  {
    if s == [] {
      from := [];
    } else {
      var rest := ThoseFrom(s[1..], wanted);
      from := Shifted(s, Those(s[1..], wanted), rest, wanted(s[0]));
    }
  }

  lemma ThoseSome(s: seq<Cookie>, wanted: Cookie -> bool)
    ensures Sorted(s) ==> Sorted(Those(s, wanted))
    ensures UniqueKeys(s) ==> UniqueKeys(Those(s, wanted))
    ensures forall c <- Those(s, wanted) :: c in s
  {
    var from := ThoseFrom(s, wanted);
  }

  lemma UseCounts(uses: seq<Cookie>, c: Cookie, x: Cookie)
    requires UniqueKeys(uses) && c in uses
    ensures multiset(Without(uses, c) + [c])[x] == multiset(uses)[x]
  {
    WithoutCounts(uses, c, x);
    if SameKey(x, c) {
      UniqueCounts(uses, c, x);
    }
  }

  lemma UseKeeps(uses: seq<Cookie>, c: Cookie)
    requires UniqueKeys(uses) && c in uses
    ensures UniqueKeys(Without(uses, c) + [c]) && multiset(Without(uses, c) + [c]) == multiset(uses)
  {
    WithoutSome(uses, c);
    AppendUnique(Without(uses, c), c);
    forall x
      ensures multiset(Without(uses, c) + [c])[x] == multiset(uses)[x]
    {
      UseCounts(uses, c, x);
    }
  }

  lemma UseValid(j: Jar, c: Cookie)
    requires Valid(j) && c in j.list
    ensures Valid(j.(uses := Without(j.uses, c) + [c]))
  {
    assert c in multiset(j.list) && c in multiset(j.uses);
    UseKeeps(j.uses, c);
  }

  lemma UniqueCounts(s: seq<Cookie>, c: Cookie, x: Cookie)
    requires UniqueKeys(s) && c in s && SameKey(x, c)
    ensures multiset(s)[x] == if x == c then 1 else 0
  {
    var k :| 0 <= k < |s| && s[k] == c;
    assert s == s[..k] + [c] + s[k + 1..];
    assert forall i :: 0 <= i < |s| && i != k ==> !SameKey(s[i], c);
    assert x !in s[..k] && x !in s[k + 1..];
  }

  /** The first p cookies were looked at; those that stay are the first k now. */
  ghost predicate Removing(s: seq<Cookie>, r: seq<Cookie>, k: nat, p: nat, c: Cookie) {
    k <= |r| && p <= |s| && r[..k] == Without(s[..p], c) && r[k..] == s[p..]
  }

  lemma RemoveOne(s: seq<Cookie>, r: seq<Cookie>, k: nat, p: nat, c: Cookie)
    requires Removing(s, r, k, p, c) && k < |r|
    ensures if SameKey(r[k], c) then Removing(s, r[..k] + r[k + 1..], k, p + 1, c) else Removing(s, r, k + 1, p + 1, c)
  {
    assert |r[k..]| == |s[p..]| && r[k] == r[k..][0] == s[p..][0] == s[p];
    assert r[k + 1..] == r[k..][1..] && s[p + 1..] == s[p..][1..];
    var one := [s[p]];
    assert s[..p + 1] == s[..p] + one;
    WithoutBoth(s[..p], one, c);
    assert one[1..] == [] && Without(one, c) == (if SameKey(s[p], c) then [] else one) + Without([], c);
    if SameKey(r[k], c) {
      var t := r[..k] + r[k + 1..];
      assert t[..k] == r[..k] && t[k..] == r[k + 1..];
    } else {
      assert r[..k + 1] == r[..k] + one;
    }
  }

  // ------------------------------------------------------------------------
  // The store

  class CookieStore {
    var cookies: seq<Cookie>
    var usenodes: seq<Cookie>

    function View(): Jar
      reads this
    {
      Jar(cookies, usenodes)
    }

    constructor ()
      ensures View() == NO_COOKIES && Valid(View())
    {
      cookies, usenodes := [], [];
    }

    /** Take the cookies with that key out of the list. */
    static method Remove(s: seq<Cookie>, c: Cookie) returns (r: seq<Cookie>)
      ensures r == Without(s, c)
    {
      r := s;
      var k := 0;
      ghost var p := 0;
      assert s[..0] == [] && s[0..] == s;
      while k < |r|
        invariant Removing(s, r, k, p, c)
        decreases |r| - k
      {
        RemoveOne(s, r, k, p, c);
        if SameKey(r[k], c) {
          r := r[..k] + r[k + 1..];
        } else {
          k := k + 1;
        }
        p := p + 1;
      }
      assert s[..p] == s && r[..k] == r;
    }

    /** Put a cookie before the first with a shorter path. */
    static method InsertInOrder(s: seq<Cookie>, c: Cookie) returns (r: seq<Cookie>)
      ensures r == Insert(s, c)
    {
      var k := 0;
      while k < |s| && |s[k].path| >= |c.path|
        invariant k <= Place(s, c)
      {
        k := k + 1;
      }
      r := s[..k] + [c] + s[k..];
    }

    /** Remember this cookie.  Delete any old ones with the same keys. */
    method Addcookie(nck: Cookie, today: nat)
      requires Valid(View())
      modifies this
      ensures View() == Add(old(View()), nck, today) && Valid(View())
    {
      AddValid(View(), nck, today);
      cookies := Remove(cookies, nck);
      usenodes := Remove(usenodes, nck);
      if nck.expires == 0 || nck.expires > today {
        cookies := InsertInOrder(cookies, nck);
        usenodes := usenodes + [nck];
      }
    }

    /** The cookie goes to the end of the list of uses. */
    method Use(ck: Cookie)
      requires Valid(View()) && ck in cookies
      modifies `usenodes
      ensures Valid(View()) && usenodes == Without(old(usenodes), ck) + [ck]
    {
      UseValid(View(), ck);
      usenodes := Remove(usenodes, ck);
      usenodes := usenodes + [ck];
    }

    /** The cookies to send, in the order to send them; each counts as used. */
    method Findcookies(wanted: Cookie -> bool) returns (sent: seq<Cookie>)
      requires Valid(View())
      modifies `usenodes
      ensures Valid(View()) && sent == Those(cookies, wanted) && Sorted(sent)
      ensures usenodes == Used(old(usenodes), sent)
    {
      sent := [];
      var k := 0;
      while k < |cookies|
        invariant k <= |cookies| && Valid(View()) && sent == Those(cookies[..k], wanted)
        invariant usenodes == Used(old(usenodes), sent)
      {
        var ck := cookies[k];
        OneMore(cookies, k, wanted);
        if wanted(ck) {
          UsedOne(old(usenodes), sent, ck);
          Use(ck);
          sent := sent + [ck];
        }
        k := k + 1;
      }
      assert cookies[..k] == cookies;
      ThoseSome(cookies, wanted);
    }
  }

  lemma OneMore(s: seq<Cookie>, k: nat, wanted: Cookie -> bool)
    requires k < |s|
    ensures Those(s[..k + 1], wanted) == Those(s[..k], wanted) + if wanted(s[k]) then [s[k]] else []
  {
    assert s[..k + 1] == s[..k] + [s[k]] && [s[k]][1..] == [];
    ThoseBoth(s[..k], [s[k]], wanted);
    assert Those([s[k]], wanted) == (if wanted(s[k]) then [s[k]] else []) + Those([], wanted);
  }
}
