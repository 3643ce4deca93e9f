/** Runs of the cache registration (aweb/cache.c): one in which a record is lost, and what needs no
    condition on the order of the operations. */
module RecoveryRuns {
  import opened Basics
  import opened Packets
  import opened RegistryCodec
  import opened RegistryTorn
  import opened CacheMemory
  import opened Journal
  import opened CacheRun
  import opened CacheNumbers
  import opened CacheLoad
  import opened Recovery

  // ------------------------------------------------------------------------
  // Between two compactions

  /** All that the journal and what is being appended to it need, to be read. */
  ghost predicate Legible(s: State) {
    && Sound(s.mem) && Same(Stands(s.disk), OnDisk(s), s.day)
    && match s.phase
       case Down => true
       case Idle => true
       case Appending(e, k) => s.disk.awcu.Some? && exists n, log :: Torn(s.disk.awcu.value, n, log, e, k)
       case _ => false
  }

  /** No start-up and no compaction; and nothing is appended to a torn journal. */
  ghost predicate JustAppends(s: State, step: Step) {
    match step
    case Act(op) => forall e <- Record(s.mem, op) :: Appendable(s.disk)
    case Progress(_) => true
    case Appended => true
    case AppendFailed => true
    case Crash => true
    case _ => false
  }

  lemma TornStands(d: Disk, n: ulong, log: seq<Entry>, e: Entry, k: nat)
    requires d.awcu.Some? && Torn(d.awcu.value, n, log, e, k)
    ensures Stands(d) == if k == |PutEntry(e)| then Effect(Denotes(map[], log), e) else Denotes(map[], log)
  {
    ReadsTorn(d.awcu.value, n, log, e, k);
    DenotesBoth(map[], log, e);
  }

  lemma ActLegible(s: State, t: State, op: Op)
    requires Legible(s) && Acts(s, t, op) && JustAppends(s, Act(op))
    ensures Legible(t)
  {
    OpSound(s.mem, op);
    RecordWritable(s.mem, op);
    if Record(s.mem, op) != [] {
      var e := Record(s.mem, op)[0];
      assert e in Record(s.mem, op);
      var n, log := WholeLog(s.disk);
      NothingYet(n, log, e);
    }
  }

  lemma ProgressLegible(s: State, t: State, k: nat)
    requires Legible(s) && Progresses(s, t, k)
    ensures Legible(t)
  {
    var e, j := s.phase.e, s.phase.k;
    var n, log :| Torn(s.disk.awcu.value, n, log, e, j);
    TornGrows(s.disk.awcu.value, n, log, e, j, k);
    TornStands(s.disk, n, log, e, j);
    TornStands(t.disk, n, log, e, k);
    if j < |PutEntry(e)| && k == |PutEntry(e)| {
      EffectSame(Stands(s.disk), s.done, e, s.day);
    }
  }

  lemma StepLegible(s: State, t: State, step: Step)
    requires Legible(s) && Next(s, t, step) && JustAppends(s, step)
    ensures Legible(t) && t.day == s.day
  {
    match step
    case Act(op) => ActLegible(s, t, op);
    case Progress(k) => ProgressLegible(s, t, k);
    case _ =>
  }

  lemma {:induction false} PathLegible(states: seq<State>, steps: seq<Step>, i: nat)
    requires IsPath(states, steps) && i <= |steps| && Legible(states[0])
    requires forall j :: 0 <= j < i ==> JustAppends(states[j], steps[j])
    ensures Legible(states[i]) && states[i].day == states[0].day
  {
    if i > 0 {
      PathLegible(states, steps, i - 1);
      StepLegible(states[i - 1], states[i], steps[i - 1]);
    }
  }

  /** In whatever order pages are finished and disposed of: until the next compaction, a start-up finds
      what was recorded.  Only the compactions need the order. */
  lemma AppendsAreFound(states: seq<State>, steps: seq<Step>, i: nat, today: nat, u: Url)
    requires IsPath(states, steps) && i <= |steps| && Safe(states[0]) && states[0].phase.Idle? && states[0].day <= today
    requires forall j :: 0 <= j < i ==> JustAppends(states[j], steps[j])
    ensures Lookup(Loaded(states[i].disk, today), u) == Current(OnDisk(states[i]), u, today)
  {
    PathLegible(states, steps, i);
    var s := states[i];
    SameLater(Stands(s.disk), OnDisk(s), s.day, today);
    ReadHolds(Found(s.disk), today);
    assert Lookup(Loaded(s.disk, today), u) == Current(Stands(s.disk), u, today);
  }

  // ------------------------------------------------------------------------
  // A run that loses a record

  lemma Joined(a: seq<State>, x: seq<Step>, b: seq<State>, y: seq<Step>)
    requires IsPath(a, x) && IsPath(b, y) && a[|a| - 1] == b[0]
    ensures IsPath(a + b[1..], x + y) && (a + b[1..])[|x|..] == b && (a + b[1..])[..|x| + 1] == a
  {
    var c, z := a + b[1..], x + y;
    forall i | 0 <= i < |z|
      ensures Next(c[i], c[i + 1], z[i])
    {
      if i >= |x| {
        assert c[i] == b[i - |x|] && c[i + 1] == b[i + 1 - |x|];
      }
    }
  }

  /** The first start-up, without any file. */
  lemma FirstStart() returns (states: seq<State>)
    ensures IsPath(states, [Start(0), Progress(|PutHeader(0)|), Created]) && |states| == 4
    ensures states[0] == State(Disk(None, None), Down, EMPTY, map[], map[], 0)
    ensures states[3] == State(Disk(Some(PutHeader(0)), None), Idle, EMPTY, map[], map[], 0)
  {
    var h := PutHeader(0);
    var s := State(Disk(None, None), Down, EMPTY, map[], map[], 0);
    EmptyLog(s.disk);
    assert Live(map[], 0) == map[];
    assert h[..|h|] == h;
    states := [s, s.(disk := Disk(Some([]), None), phase := Creating(0)),
               s.(disk := Disk(Some(h), None), phase := Creating(|h|)), s.(disk := Disk(Some(h), None), phase := Idle)];
  }

  /** A new page. */
  function NewPage(m: Memory, u: Url): Entry
    requires m.lastnr < 0xffff_ffff
  {
    NewEntry(m.lastnr + 1, u).(size := 10)
  }

  function PageOps(m: Memory, u: Url): seq<Op>
    requires m.lastnr < 0xffff_ffff
  {
    [Meet(u), Fetch(|m.objs|), Finish(|m.cells|, NewPage(m, u))]
  }

  lemma PageCan(m: Memory, u: Url)
    requires Sound(m) && Find(m.objs, u) < 0 && Plain(u) && m.lastnr < 0xffff_ffff
    ensures var ops := PageOps(m, u);
            && Can(m, ops[0]) && Can(Do(m, ops[0]), ops[1]) && Can(Do(Do(m, ops[0]), ops[1]), ops[2])
            && Do(Do(Do(m, ops[0]), ops[1]), ops[2]) == Added(m, NewPage(m, u))
  {
    FindAppended(m.objs, UrlObject(u, None), u);
    var m1 := Do(m, Meet(u));
    var m2 := Do(m1, Fetch(|m.objs|));
    assert m2.lru[|m.lru|] == |m.cells| && |m.cells| in m2.lru;
    assert m2.objs == m.objs + [UrlObject(u, Some(|m.cells|))];
  }

  /** It is fetched and finished, and of its record k bytes are written. */
  lemma PagePath(s: State, u: Url, k: nat) returns (states: seq<State>)
    requires s.phase.Idle? && s.disk.awcu.Some? && Sound(s.mem) && Find(s.mem.objs, u) < 0 && Plain(u) && s.mem.lastnr < 0xffff_ffff
    requires k <= |PutEntry(NewPage(s.mem, u))|
    ensures |states| == 5 && states[0] == s
    ensures var ops, e := PageOps(s.mem, u), NewPage(s.mem, u);
            && IsPath(states, [Act(ops[0]), Act(ops[1]), Act(ops[2]), Progress(k)])
            && states[4] == State(s.disk.(awcu := Some(s.disk.awcu.value + PutEntry(e)[..k])), Appending(e, k),
                                  Added(s.mem, e), s.want[u := e], s.done, s.day)
  {
    var ops, e := PageOps(s.mem, u), NewPage(s.mem, u);
    PageCan(s.mem, u);
    DenotesOne(s.want, e);
    var s1 := s.(mem := Do(s.mem, ops[0]));
    var s2 := s1.(mem := Do(s1.mem, ops[1]));
    var s3 := s2.(mem := Added(s.mem, e), want := s.want[u := e], phase := Appending(e, 0));
    assert PutEntry(e)[0..k] == PutEntry(e)[..k];
    var s4 := s3.(disk := s.disk.(awcu := Some(s.disk.awcu.value + PutEntry(e)[..k])), phase := Appending(e, k));
    states := [s, s1, s2, s3, s4];
  }

  lemma {:induction false} PathSafe(states: seq<State>, steps: seq<Step>, i: nat)
    requires IsPath(states, steps) && Safe(states[0]) && i <= |steps|
    requires forall j :: 0 <= j < i ==> Keeps(states[j], steps[j])
    ensures Safe(states[i])
  {
    if i > 0 {
      PathSafe(states, steps, i - 1);
      StepIsSafe(states[i - 1], states[i], steps[i - 1]);
    }
  }

  /** Safely, if no page is recorded for that url, and the journal is whole. */
  lemma PageSafe(states: seq<State>, steps: seq<Step>, u: Url, id: nat, i: nat, e: Entry, k: nat)
    requires |states| == 5 && steps == [Act(Meet(u)), Act(Fetch(i)), Act(Finish(id, e)), Progress(k)] && IsPath(states, steps)
    requires Safe(states[0]) && Appendable(states[0].disk) && Current(states[0].done, e.url, states[0].day).None?
    ensures Safe(states[4])
  {
    assert Next(states[0], states[1], steps[0]) && Next(states[1], states[2], steps[1]);
    FinishKeeps(states[2], id, e);
    PathSafe(states, steps, 4);
  }

  lemma FinishKeeps(s: State, id: nat, e: Entry)
    requires Appendable(s.disk) && Current(s.done, e.url, s.day).None?
    ensures Keeps(s, Act(Finish(id, e)))
  {
  }

  /** The crash, and the start-up of which the compaction fails. */
  lemma TornStart(s: State, e: Entry) returns (states: seq<State>)
    requires s.phase.Appending? && s.disk.awcu.Some? && s.day == 0
    ensures |states| == 4 && states[0] == s && IsPath(states, [Crash, Start(0), SaveFailed])
    ensures states[3].phase.Idle? && states[3].disk == Disk(s.disk.awcu, None) && states[3].mem == Loaded(s.disk, 0)
  {
    var s1 := s.(phase := Down, done := OnDisk(s));
    var s2 := State(s.disk.(awcr := Some([])), Saving(0, false), Loaded(s.disk, 0), Live(Stands(s.disk), 0), Live(s1.done, 0), 0);
    var s3 := s2.(disk := s2.disk.(awcr := None), phase := Idle);
    states := [s, s1, s2, s3];
  }

  lemma DropPath(s: State, del: Entry) returns (states: seq<State>)
    requires s.phase.Idle? && s.disk.awcu.Some? && Can(s.mem, Drop(0)) && Record(s.mem, Drop(0)) == [del]
    ensures |states| == 4 && states[0] == s && IsPath(states, [Act(Drop(0)), Progress(|PutEntry(del)|), Appended])
    ensures states[1].phase == Appending(del, 0)
  {
    var x := PutEntry(del);
    assert x[0..|x|] == x;
    var s1 := s.(mem := Do(s.mem, Drop(0)), want := Denotes(s.want, [del]), phase := Appending(del, 0));
    var s2 := s1.(disk := s.disk.(awcu := Some(s.disk.awcu.value + x)), phase := Appending(del, |x|));
    var s3 := s2.(done := OnDisk(s2), phase := Idle);
    states := [s, s1, s2, s3];
  }

  /** From the torn record on. */
  lemma TornEnd(s: State, n: ulong, e: Entry, f: Entry) returns (states: seq<State>)
    requires s.phase == Appending(f, 1) && s.disk.awcu.Some? && s.day == 0 && Torn(s.disk.awcu.value, n, [e], f, 1)
    requires !IsDel(e) && e.expires == 0
    ensures |states| == 7 && states[0] == s && AppendsToTorn(states, 0, Drop(0))
    ensures states[4].phase == Appending(DelOf(e), 0)
  {
    EntryLength(f);
    ReadsTorn(s.disk.awcu.value, n, [e], f, 1);
    LoadsOne(s.disk, e);
    var a := TornStart(s, e);
    var b := DropPath(a[3], DelOf(e));
    Joined(a, [Crash, Start(0), SaveFailed], b, [Act(Drop(0)), Progress(|PutEntry(DelOf(e))|), Appended]);
    states := a + b[1..];
    assert states[3..] == b && states[4] == b[1];
    Regrouped(Crash, Start(0), SaveFailed, Act(Drop(0)), Progress(|PutEntry(DelOf(e))|), Appended);
  }

  lemma Regrouped<T>(a: T, b: T, c: T, d: T, e: T, f: T)
    ensures [a, b, c] + [d, e, f] == [a, b, c, d, e, f]
  {
  }

  lemma LoadsOne(d: Disk, e: Entry)
    requires Log(d) == [e] && !IsDel(e) && e.expires == 0
    ensures var m := Loaded(d, 0);
            && Can(m, Drop(0)) && Record(m, Drop(0)) == [DelOf(e)] && Lookup(m, e.url) == Some(e)
  {
    var lastnr := GetRegistry(Found(d)).0;
    assert lastnr.Some?;
    var m0 := EMPTY.(lastnr := lastnr.value);
    assert Replay(m0, [e], 0) == Added(m0, e) by {
      assert [e][1..] == [];
      assert Replay(m0, [e], 0) == Replay(Apply(m0, e, 0), [], 0);
    }
    LookupAdded(m0, e, e.url);
    assert 0 in [0];
  }

  lemma StartsSafe(a: seq<State>)
    requires IsPath(a, [Start(0), Progress(|PutHeader(0)|), Created]) && a[0] == State(Disk(None, None), Down, EMPTY, map[], map[], 0)
    ensures Safe(a[3])
  {
    var x := [Start(0), Progress(|PutHeader(0)|), Created];
    EmptyLog(a[0].disk);
    assert Next(a[0], a[1], x[0]) && Next(a[1], a[2], x[1]) && Next(a[2], a[3], x[2]);
    StepIsSafe(a[0], a[1], x[0]);
    StepIsSafe(a[1], a[2], x[1]);
    StepIsSafe(a[2], a[3], x[2]);
  }

  lemma EmptySound()
    ensures Sound(EMPTY)
  {
  }

  lemma WholeAppendable(d: Disk, n: ulong, log: seq<Entry>)
    requires d.awcu == Some(PutRegistry(n, log)) && AllWritable(log)
    ensures Appendable(d)
  {
    assert Whole(d.awcu.value, n, log);
  }

  lemma OneEntry(e: Entry)
    ensures PutRegistry(0, []) == PutHeader(0) && PutRegistry(0, [e]) == PutHeader(0) + PutEntry(e)
    ensures PutEntry(e)[..|PutEntry(e)|] == PutEntry(e)
  {
    OneMore(0, [], e);
    assert [] + [e] == [e];
  }

  /** A page was finished and recorded. */
  lemma FirstPage(s: State, u: Url, e: Entry, x: seq<Step>) returns (states: seq<State>)
    requires s == State(Disk(Some(PutHeader(0)), None), Idle, EMPTY, map[], map[], 0) && Safe(s)
    requires Plain(u) && e == NewPage(EMPTY, u) && x == [Act(Meet(u)), Act(Fetch(0)), Act(Finish(0, e)), Progress(|PutEntry(e)|)]
    ensures |states| == 6 && states[0] == s && Safe(states[5]) && IsPath(states, x + [Appended])
    ensures states[5] == State(Disk(Some(PutRegistry(0, [e])), None), Idle, Added(EMPTY, e), map[u := e], map[u := e], 0)
  {
    EmptySound();
    OneEntry(e);
    WholeAppendable(s.disk, 0, []);
    var b := PagePath(s, u, |PutEntry(e)|);
    PageSafe(b, x, u, 0, 0, e, |PutEntry(e)|);
    states := PageRecorded(b, x, e);
  }

  /** The append ends. */
  lemma PageRecorded(b: seq<State>, x: seq<Step>, e: Entry) returns (states: seq<State>)
    requires IsPath(b, x) && Safe(b[|x|]) && b[|x|].phase == Appending(e, |PutEntry(e)|) && b[|x|].done == map[] && !IsDel(e)
    ensures |states| == |b| + 1 && states[0] == b[0] && IsPath(states, x + [Appended]) && Safe(states[|x| + 1])
    ensures states[|x| + 1] == b[|x|].(done := map[e.url := e], phase := Idle)
  {
    var s := b[|x|];
    var t := s.(done := OnDisk(s), phase := Idle);
    assert map[][e.url := e] == map[e.url := e];
    StepIsSafe(s, t, Appended);
    Joined(b, x, [s, t], [Appended]);
    assert [s, t][1..] == [t];
    states := b + [t];
  }

  lemma OnePageSound(u: Url, v: Url)
    requires Plain(u) && u != v
    ensures var m := Added(EMPTY, NewPage(EMPTY, u)); Sound(m) && Find(m.objs, v) < 0 && |m.objs| == |m.cells| == 1
  {
    EmptySound();
    PageCan(EMPTY, u);
    var ops := PageOps(EMPTY, u);
    OpSound(EMPTY, ops[0]);
    OpSound(Do(EMPTY, ops[0]), ops[1]);
    OpSound(Do(Do(EMPTY, ops[0]), ops[1]), ops[2]);
  }

  /** And of the record of the next one, one byte was written. */
  lemma SecondPage(s: State, u: Url, v: Url, e: Entry, f: Entry, x: seq<Step>) returns (states: seq<State>)
    requires Plain(u) && Plain(v) && u != v && e == NewPage(EMPTY, u) && f == NewPage(Added(EMPTY, e), v) && Safe(s)
    requires s == State(Disk(Some(PutRegistry(0, [e])), None), Idle, Added(EMPTY, e), map[u := e], map[u := e], 0)
    requires x == [Act(Meet(v)), Act(Fetch(1)), Act(Finish(1, f)), Progress(1)]
    ensures |states| == 5 && states[0] == s && Safe(states[4]) && IsPath(states, x)
    ensures states[4].phase == Appending(f, 1) && states[4].disk.awcu.Some? && states[4].day == 0
    ensures states[4].done == map[u := e] && Torn(states[4].disk.awcu.value, 0, [e], f, 1)
  {
    EntryLength(f);
    WholeAppendable(s.disk, 0, [e]);
    OnePageSound(u, v);
    states := PagePath(s, v, 1);
    PageSafe(states, x, v, 1, 1, f, 1);
  }

  lemma JoinedAll(a: seq<State>, x: seq<Step>, b: seq<State>, y: seq<Step>, c: seq<State>, z: seq<Step>, d: seq<State>, w: seq<Step>)
    returns (states: seq<State>, steps: seq<Step>)
    requires IsPath(a, x) && IsPath(b, y) && IsPath(c, z) && IsPath(d, w)
    requires a[|x|] == b[0] && b[|y|] == c[0] && c[|z|] == d[0]
    ensures IsPath(states, steps) && |steps| == |x| + |y| + |z| + |w| && states[0] == a[0]
    ensures states[|x| + |y| + |z|..] == d && states[|x| + |y| + |z|] == d[0] && states[|steps|] == d[|w|]
  {
    var ab, abc := a + b[1..], a + b[1..] + c[1..];
    Joined(a, x, b, y);
    assert ab[|x| + |y|] == b[|y|];
    Joined(ab, x + y, c, z);
    assert abc[|x| + |y| + |z|] == c[|z|];
    Joined(abc, x + y + z, d, w);
    states, steps := abc + d[1..], x + y + z + w;
    assert states[0] == a[0] && states[|x| + |y| + |z|..][|w|] == d[|w|];
  }

  /** For any two urls there is a run that is safe until, near its end, an append to a torn journal
      comes: of two pages the first is recorded, and the second only in part; after
      a crash and a start-up without compaction the first is disposed of.  It is found again. */
  lemma LostRun(u: Url, v: Url) returns (states: seq<State>, steps: seq<Step>)
    requires Plain(u) && Plain(v) && u != v
    ensures IsRun(states, steps) && |steps| == 18 && Safe(states[12]) && AppendsToTorn(states[12..], 0, Drop(0))
    ensures states[18].phase.Idle? && u !in states[18].done
    ensures Lookup(Loaded(states[18].disk, 0), u) == Some(NewPage(EMPTY, u))
  {
    var e := NewPage(EMPTY, u);
    var f := NewPage(Added(EMPTY, e), v);
    var x := [Act(Meet(u)), Act(Fetch(0)), Act(Finish(0, e)), Progress(|PutEntry(e)|)];
    var y := [Act(Meet(v)), Act(Fetch(1)), Act(Finish(1, f)), Progress(1)];
    var a := FirstStart();
    StartsSafe(a);
    var b := FirstPage(a[3], u, e, x);
    var c := SecondPage(b[5], u, v, e, f, y);
    var d := TornEnd(c[4], 0, e, f);
    OneLogged(c[4].disk, e, f);
    LostEnd(d, e);
    states, steps := JoinedAll(a, [Start(0), Progress(|PutHeader(0)|), Created], b, x + [Appended], c, y, d, TornSteps(d));
  }

  ghost function TornSteps(d: seq<State>): seq<Step>
    requires |d| == 7
  {
    [Crash, Start(0), SaveFailed, Act(Drop(0)), Progress(AllOfIt(d)), Appended]
  }

  lemma OneLogged(d: Disk, e: Entry, f: Entry)
    requires d.awcu.Some? && Torn(d.awcu.value, 0, [e], f, 1)
    ensures Log(d) == [e]
  {
    EntryLength(f);
    ReadsTorn(d.awcu.value, 0, [e], f, 1);
  }

  lemma LostEnd(d: seq<State>, e: Entry)
    requires AppendsToTorn(d, 0, Drop(0)) && Safe(d[0]) && d[4].phase == Appending(DelOf(e), 0)
    requires d[0].done == map[e.url := e] && Log(d[0].disk) == [e] && !IsDel(e) && e.expires == 0
    requires d[0].phase.k == 1 && e.size % 0x100 > MAX_COTYPE as int
    ensures d[6].phase.Idle? && e.url !in d[6].done && Lookup(Loaded(d[6].disk, 0), e.url) == Some(e)
  {
    SizeAsKind(DelOf(e));
    TornAppendIsLost(d, 0, Drop(0));
    LoadsOne(d[6].disk, e);
  }
}
