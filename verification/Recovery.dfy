/** What the cache registration survives (aweb/cache.c): the journal AWCU, the snapshot AWCR, every
    operation of the program, and every moment at which it may stop while it works on them. */
module Recovery {
  import opened Basics
  import opened Packets
  import opened RegistryCodec
  import opened RegistryTorn
  import opened CacheMemory
  import opened Journal
  import opened CacheRun
  import opened CacheNumbers
  import opened CacheLoad

  datatype Disk = Disk(awcu: Option<seq<byte>>, awcr: Option<seq<byte>>)

  datatype Phase =
    | Down
    | Creating(k: nat)                 // k bytes of an empty journal are there
    | Idle
    | Appending(e: Entry, k: nat)      // k bytes of the entry are there
    | Saving(k: nat, last: bool)       // k bytes of the snapshot are there; last: the program is about to exit
    | Swapping(last: bool)             // the snapshot is there, the journal is gone

  /** `want` is what the program's operations have made of the cache, `done` what of that was
      recorded, and `day` the day of the last start-up. */
  datatype State =
    State(disk: Disk, phase: Phase, mem: Memory, want: map<Url, Entry>, done: map<Url, Entry>, day: nat)

  datatype Step =
    | Start(today: nat)
    | Progress(upto: nat)
    | Created
    | Act(op: Op)
    | Appended
    | AppendFailed
    | Save(last: bool)
    | SaveFailed
    | DeleteLog
    | Rename
    | Crash

  // ------------------------------------------------------------------------
  // What a start-up finds

  /** The journal is read if there is one, and else the snapshot. */
  function Found(d: Disk): seq<byte> {
    match d.awcu
    case Some(s) => s
    case None => if d.awcr.Some? then d.awcr.value else []
  }

  function Log(d: Disk): seq<Entry> { GetRegistry(Found(d)).1.entries }

  function Stands(d: Disk): map<Url, Entry> { Denotes(map[], Log(d)) }

  function Loaded(d: Disk, today: nat): Memory { Read(Found(d), today) }

  // ------------------------------------------------------------------------
  // Steps

  ghost predicate CanBeSaved(m: Memory) { Valid(m) && m.lastnr < 0x1_0000_0000 }

  ghost function Snapshot(m: Memory): seq<byte>
    requires CanBeSaved(m)
  {
    PutRegistry(m.lastnr, Saved(m))
  }

  /** Start-up. */
  ghost predicate Starts(s: State, t: State, today: nat) {
    && s.phase.Down? && s.day <= today && t.day == today
    && t.mem == Loaded(s.disk, today) && t.want == Live(Stands(s.disk), today) && t.done == Live(s.done, today)
    && if s.disk.awcu.Some? then t.disk == s.disk.(awcr := Some([])) && t.phase == Saving(0, false)
       else if s.disk.awcr.Some? then t.disk == Disk(s.disk.awcr, None) && t.phase == Idle
       else t.disk == Disk(Some([]), None) && t.phase == Creating(0)
  }

  /** Some more of what is being written reaches the disk. */
  ghost predicate Progresses(s: State, t: State, k: nat) {
    && t == s.(disk := t.disk, phase := t.phase)
    && match s.phase
       case Creating(j) =>
         j <= k <= |PutHeader(0)| && t.disk == s.disk.(awcu := Some(PutHeader(0)[..k])) && t.phase == Creating(k)
       case Appending(e, j) =>
         && j <= k <= |PutEntry(e)| && s.disk.awcu.Some?
         && t.disk == s.disk.(awcu := Some(s.disk.awcu.value + PutEntry(e)[j..k])) && t.phase == Appending(e, k)
       case Saving(j, last) =>
         && CanBeSaved(s.mem)
         && j <= k <= |Snapshot(s.mem)| && t.disk == s.disk.(awcr := Some(Snapshot(s.mem)[..k])) && t.phase == Saving(k, last)
       case _ => false
  }

  /** The program does something, and begins to append the record of it, if it makes one. */
  ghost predicate Acts(s: State, t: State, op: Op) {
    && s.phase.Idle? && Can(s.mem, op)
    && t == s.(mem := Do(s.mem, op), phase := t.phase, want := Denotes(s.want, Record(s.mem, op)))
    && t.phase == if Record(s.mem, op) == [] then Idle else Appending(Record(s.mem, op)[0], 0)
  }

  /** What was recorded, with what is being appended once all of it is there. */
  function OnDisk(s: State): map<Url, Entry> {
    if s.phase.Appending? && s.phase.k == |PutEntry(s.phase.e)| then Effect(s.done, s.phase.e) else s.done
  }

  ghost predicate Next(s: State, t: State, step: Step) {
    match step
    case Start(today) => Starts(s, t, today)
    case Progress(k) => Progresses(s, t, k)
    case Created => s.phase == Creating(|PutHeader(0)|) && t == s.(phase := Idle)
    case Act(op) => Acts(s, t, op)
    case Appended =>
      && s.phase.Appending? && s.phase.k == |PutEntry(s.phase.e)| && t == s.(done := OnDisk(s), phase := Idle)
    case AppendFailed => s.phase.Appending? && t == s.(done := OnDisk(s), phase := Idle)
    case Save(last) => s.phase.Idle? && t == s.(disk := s.disk.(awcr := Some([])), phase := Saving(0, last))
    case SaveFailed =>
      s.phase.Saving? && t == s.(disk := s.disk.(awcr := None), phase := if s.phase.last then Down else Idle)
    case DeleteLog =>
      && s.phase.Saving? && CanBeSaved(s.mem) && s.phase.k == |Snapshot(s.mem)|
      && t == s.(disk := s.disk.(awcu := None), done := s.want, phase := Swapping(s.phase.last))
    case Rename =>
      && s.phase.Swapping?
      && t == if s.phase.last then s.(phase := Down) else s.(disk := Disk(s.disk.awcr, None), phase := Idle)
    case Crash => !s.phase.Down? && t == s.(phase := Down, done := OnDisk(s))
  }

  // ------------------------------------------------------------------------
  // When the registration keeps what was recorded

  /** A journal that is not torn. */
  ghost predicate Whole(s: seq<byte>, lastnr: ulong, log: seq<Entry>) { s == PutRegistry(lastnr, log) && AllWritable(log) }

  ghost predicate Appendable(d: Disk) {
    d.awcu.Some? && exists lastnr, log :: Whole(d.awcu.value, lastnr, log)
  }

  /** The conditions on the steps.  Nothing is appended to a torn journal; an added page has none
      recorded for its url; of two pages of the same url the one finished last does not go first; and a
      compaction that succeeds finds exactly the finished pages attached. */
  ghost predicate Keeps(s: State, step: Step) {
    match step
    case Act(op) => Orderly(s.mem, s.want, op) && forall e <- Record(s.mem, op) :: Appendable(s.disk) && IsFree(s.done, e, s.day)
    case DeleteLog => Valid(s.mem) && Settled(s.mem, s.want)
    case _ => true
  }

  predicate IsFree(d: map<Url, Entry>, e: Entry, day: nat) { IsDel(e) || Current(d, e.url, day).None? }

  // ------------------------------------------------------------------------
  // Maps that are the same from some day on

  /** The same, as seen from that day on. */
  ghost predicate Same(a: map<Url, Entry>, b: map<Url, Entry>, day: nat) {
    forall u :: Current(a, u, day) == Current(b, u, day)
  }

  lemma EffectSame(a: map<Url, Entry>, b: map<Url, Entry>, e: Entry, day: nat)
    requires Same(a, b, day)
    ensures Same(Effect(a, e), Effect(b, e), day)
  {
    forall u
      ensures Current(Effect(a, e), u, day) == Current(Effect(b, e), u, day)
    {
      assert Current(a, u, day) == Current(b, u, day);
      assert Current(a, e.url, day) == Current(b, e.url, day);
    }
  }

  lemma SameLater(a: map<Url, Entry>, b: map<Url, Entry>, day: nat, today: nat)
    requires Same(a, b, day) && day <= today
    ensures Same(a, b, today)
  {
    forall u
      ensures Current(a, u, today) == Current(b, u, today)
    {
      assert Current(a, u, day) == Current(b, u, day);
    }
  }

  lemma SameLive(a: map<Url, Entry>, b: map<Url, Entry>, day: nat)
    requires Same(a, b, day)
    ensures Same(a, Live(b, day), day)
  {
    forall u
      ensures Current(a, u, day) == Current(Live(b, day), u, day)
    {
      assert Current(a, u, day) == Current(b, u, day);
    }
  }

  // ------------------------------------------------------------------------
  // What holds at every moment

  /** The program's memory is in order, and goes with the journal. */
  ghost predicate Running(m: Memory, want: map<Url, Entry>, log: seq<Entry>, day: nat) {
    Sound(m) && Shadowless(m) && InStep(m, want) && NumbersFit(m, log, day)
  }

  /** The entry that is being appended goes with the journal that there is. */
  ghost predicate Writing(s: State, n: ulong, log: seq<Entry>, e: Entry, k: nat) {
    && s.disk.awcu.Some? && Torn(s.disk.awcu.value, n, log, e, k)
    && IsFree(Denotes(map[], log), e, s.day) && Good(log, s.day) && Running(s.mem, s.want, log + [e], s.day)
  }

  /** The snapshot has taken the place of the journal. */
  ghost predicate Swapped(s: State)
    requires CanBeSaved(s.mem)
  {
    Running(s.mem, s.want, Saved(s.mem), s.day) && s.disk == Disk(None, Some(Snapshot(s.mem)))
  }

  ghost predicate InOrder(s: State) {
    match s.phase
    case Down => true
    case Creating(k) =>
      && s.done == map[] && k <= |PutHeader(0)| && s.disk.awcu == Some(PutHeader(0)[..k])
      && Running(s.mem, s.want, [], s.day)
    case Idle => s.disk.awcu.Some? && Running(s.mem, s.want, Log(s.disk), s.day)
    case Appending(e, k) => exists n, log :: Writing(s, n, log, e, k)
    case Saving(k, last) =>
      && s.disk.awcu.Some? && Running(s.mem, s.want, Log(s.disk), s.day) && k <= |Snapshot(s.mem)|
      && s.disk.awcr == Some(Snapshot(s.mem)[..k])
    case Swapping(last) => CanBeSaved(s.mem) && Swapped(s)
  }

  /** The journal is good, and stands for what was recorded, and for what is being appended once
      it is all there. */
  ghost predicate Safe(s: State) {
    InOrder(s) && Good(Log(s.disk), s.day) && Same(Stands(s.disk), OnDisk(s), s.day)
  }

  // ------------------------------------------------------------------------
  // Steps keep it

  lemma EmptyLog(d: Disk)
    requires Found(d) == []
    ensures Log(d) == [] && Stands(d) == map[]
  {
  }

  lemma ReadRuns(d: Disk, day: nat, today: nat)
    requires Good(Log(d), day) && day <= today
    ensures Good(Log(d), today) && Running(Loaded(d, today), Live(Stands(d), today), Log(d), today)
  {
    GoodLater(Log(d), day, today);
    ReadFresh(Found(d), today);
  }

  lemma StartIsSafe(s: State, t: State, today: nat)
    requires Safe(s) && Starts(s, t, today)
    ensures Safe(t)
  {
    ReadRuns(s.disk, s.day, today);
    SameLater(Stands(s.disk), s.done, s.day, today);
    SameLive(Stands(s.disk), s.done, today);
    if s.disk.awcu.None? && s.disk.awcr.None? {
      EmptyLog(s.disk);
      EmptyLog(t.disk);
      NothingLive(s.done, today);
      assert PutHeader(0)[..0] == [];
    } else if s.disk.awcu.Some? {
      var x := Snapshot(t.mem);
      assert x[..0] == [];
    }
  }

  /** The compaction of start-up itself always meets its condition. */
  lemma StartIsSettled(s: State, t: State, today: nat)
    requires Safe(s) && Starts(s, t, today)
    ensures Valid(t.mem) && Settled(t.mem, t.want)
  {
    ReadRuns(s.disk, s.day, today);
    ReadHolds(Found(s.disk), today);
    QuietSettled(t.mem, t.want);
  }

  lemma NothingLive(d: map<Url, Entry>, today: nat)
    requires Same(map[], d, today)
    ensures Live(d, today) == map[]
  {
    forall u
      ensures u !in Live(d, today)
    {
      assert Current(map[], u, today) == Current(d, u, today);
    }
  }

  lemma HeaderOnly(k: nat)
    requires k <= |PutHeader(0)|
    ensures GetRegistry(PutHeader(0)[..k]).1.entries == []
  {
    var h := PutHeader(0);
    if k < |h| {
      HeaderCut(0, h[..k]);
    } else {
      assert h[..k] == h + [];
      HeaderBack(0, []);
    }
  }

  lemma CreatingIsSafe(s: State, t: State, k: nat)
    requires Safe(s) && s.phase.Creating? && Progresses(s, t, k)
    ensures Safe(t)
  {
    HeaderOnly(s.phase.k);
    HeaderOnly(k);
  }

  lemma CreatedIsSafe(s: State, t: State)
    requires Safe(s) && Next(s, t, Created)
    ensures Safe(t)
  {
    HeaderOnly(s.phase.k);
  }

  /** With all of the entry there the journal is good, and one longer. */
  lemma OneMoreIsGood(log: seq<Entry>, e: Entry, day: nat, m: Memory, want: map<Url, Entry>)
    requires Good(log, day) && IsFree(Denotes(map[], log), e, day) && Running(m, want, log + [e], day)
    ensures Good(log + [e], day)
  {
    var d := Denotes(map[], log);
    forall today: nat | day <= today
      ensures Tidy(map[], log + [e], today)
    {
      if !IsDel(e) {
        assert Current(d, e.url, day).None? ==> Current(d, e.url, today).None?;
      }
      TidyOneMore(map[], log, e, today);
    }
  }

  lemma OneLess(m: Memory, want: map<Url, Entry>, log: seq<Entry>, e: Entry, day: nat)
    requires Running(m, want, log + [e], day)
    ensures Running(m, want, log, day)
  {
    forall nr: nat | HasNumber(log, day, nr)
      ensures HasNumber(log + [e], day, nr)
    {
      var f :| f in log && Counts(f, day) && f.nr == nr;
      assert f in log + [e];
    }
    assert OwnNumbers(log, day) by {
      assert forall i :: 0 <= i < |log| ==> (log + [e])[i] == log[i];
    }
    assert forall f <- log :: f in log + [e];
  }

  /** How far the entry has got tells what the journal says. */
  lemma WritingLog(s: State, n: ulong, log: seq<Entry>, e: Entry, k: nat)
    requires Writing(s, n, log, e, k)
    ensures Log(s.disk) == if k == |PutEntry(e)| then log + [e] else log
    ensures Stands(s.disk) == if k == |PutEntry(e)| then Effect(Denotes(map[], log), e) else Denotes(map[], log)
    ensures Good(Log(s.disk), s.day) && Running(s.mem, s.want, Log(s.disk), s.day)
  {
    ReadsTorn(s.disk.awcu.value, n, log, e, k);
    DenotesBoth(map[], log, e);
    OneLess(s.mem, s.want, log, e, s.day);
    OneMoreIsGood(log, e, s.day, s.mem, s.want);
  }

  lemma AppendingIsSafe(s: State, t: State, k: nat)
    requires Safe(s) && s.phase.Appending? && Progresses(s, t, k)
    ensures Safe(t)
  {
    var e, j := s.phase.e, s.phase.k;
    var n, log :| Writing(s, n, log, e, j);
    TornGrows(s.disk.awcu.value, n, log, e, j, k);
    assert Writing(t, n, log, e, k);
    WritingLog(s, n, log, e, j);
    WritingLog(t, n, log, e, k);
    if j < |PutEntry(e)| && k == |PutEntry(e)| {
      EffectSame(Stands(s.disk), s.done, e, s.day);
    }
  }

  /** The append ends, well or not, or the program stops in it. */
  lemma AppendEnds(s: State, t: State)
    requires Safe(s) && s.phase.Appending? && t == s.(done := OnDisk(s), phase := t.phase) && (t.phase.Idle? || t.phase.Down?)
    ensures Safe(t)
  {
    var n, log :| Writing(s, n, log, s.phase.e, s.phase.k);
    WritingLog(s, n, log, s.phase.e, s.phase.k);
  }

  lemma ActRuns(m: Memory, want: map<Url, Entry>, log: seq<Entry>, day: nat, op: Op)
    requires Running(m, want, log, day) && Can(m, op) && Orderly(m, want, op)
    ensures Running(Do(m, op), Denotes(want, Record(m, op)), log + Record(m, op), day)
  {
    OpSound(m, op);
    OpShadowless(m, op);
    OpInStep(m, want, op);
    OpFits(m, op, log, day);
  }

  lemma FreeToo(a: map<Url, Entry>, b: map<Url, Entry>, e: Entry, day: nat)
    requires Same(a, b, day) && IsFree(b, e, day)
    ensures IsFree(a, e, day)
  {
    assert Current(a, e.url, day) == Current(b, e.url, day);
  }

  lemma NothingYet(lastnr: ulong, log: seq<Entry>, e: Entry)
    requires AllWritable(log) && Writable(e)
    ensures Torn(PutRegistry(lastnr, log), lastnr, log, e, 0)
  {
    assert PutRegistry(lastnr, log) + PutEntry(e)[..0] == PutRegistry(lastnr, log);
  }

  lemma CanBegin(s: State, t: State, op: Op, e: Entry, n: ulong, log: seq<Entry>)
    requires Running(s.mem, s.want, log, s.day) && Good(log, s.day) && Same(Denotes(map[], log), s.done, s.day)
    requires Acts(s, t, op) && Keeps(s, Act(op)) && Record(s.mem, op) == [e] && Writable(e)
    requires s.disk.awcu == Some(PutRegistry(n, log)) && AllWritable(log)
    ensures Writing(t, n, log, e, 0)
  {
    assert e in Record(s.mem, op);
    ActRuns(s.mem, s.want, log, s.day, op);
    FreeToo(Denotes(map[], log), s.done, e, s.day);
    NothingYet(n, log, e);
  }

  lemma Begun(s: State, t: State, n: ulong, log: seq<Entry>, e: Entry)
    requires Safe(s) && t == s.(mem := t.mem, want := t.want, phase := Appending(e, 0)) && Writing(t, n, log, e, 0)
    requires !s.phase.Appending?
    ensures Safe(t)
  {
  }

  lemma WholeLog(d: Disk) returns (n: ulong, log: seq<Entry>)
    requires Appendable(d)
    ensures d.awcu == Some(PutRegistry(n, log)) && AllWritable(log) && Log(d) == log
  {
    n, log :| Whole(d.awcu.value, n, log);
    ReadsWhole(n, log);
  }

  lemma BeginIsSafe(s: State, t: State, op: Op, e: Entry)
    requires Safe(s) && Acts(s, t, op) && Keeps(s, Act(op)) && Record(s.mem, op) == [e] && Writable(e)
    ensures Safe(t)
  {
    assert e in Record(s.mem, op);
    var n, log := WholeLog(s.disk);
    CanBegin(s, t, op, e, n, log);
    Begun(s, t, n, log, e);
  }

  lemma RecordWritable(m: Memory, op: Op)
    requires Sound(m) && Can(m, op)
    ensures |Record(m, op)| <= 1 && forall e <- Record(m, op) :: Writable(e)
  {
    if op.Drop? {
      assert m.cells[op.id] in m.cells;
    }
  }

  lemma ActQuietly(s: State, t: State, op: Op)
    requires Safe(s) && Acts(s, t, op) && Keeps(s, Act(op)) && Record(s.mem, op) == []
    ensures Safe(t)
  {
    ActRuns(s.mem, s.want, Log(s.disk), s.day, op);
    assert Log(s.disk) + [] == Log(s.disk);
  }

  lemma ActIsSafe(s: State, t: State, op: Op)
    requires Safe(s) && Acts(s, t, op) && Keeps(s, Act(op))
    ensures Safe(t)
  {
    RecordWritable(s.mem, op);
    if Record(s.mem, op) == [] {
      ActQuietly(s, t, op);
    } else {
      assert Record(s.mem, op) == [Record(s.mem, op)[0]];
      BeginIsSafe(s, t, op, Record(s.mem, op)[0]);
    }
  }

  lemma SaveIsSafe(s: State, t: State, last: bool)
    requires Safe(s) && Next(s, t, Save(last))
    ensures Safe(t)
  {
    assert Snapshot(s.mem)[..0] == [];
  }

  lemma SnapshotLog(d: Disk, m: Memory, day: nat)
    requires Sound(m) && Shadowless(m) && Found(d) == Snapshot(m)
    ensures Log(d) == Saved(m) && Good(Log(d), day)
  {
    SavedGood(m, day);
    ReadsWhole(m.lastnr, Saved(m));
  }

  lemma SwappedIsSafe(s: State)
    requires s.phase.Swapping? && CanBeSaved(s.mem) && Swapped(s) && s.done == Denotes(map[], Saved(s.mem))
    ensures Safe(s)
  {
    SnapshotLog(s.disk, s.mem, s.day);
  }

  lemma AllOf<T>(x: seq<T>, k: nat)
    requires k == |x|
    ensures x[..k] == x
  {
  }

  lemma SettledRuns(m: Memory, want: map<Url, Entry>, log: seq<Entry>, day: nat)
    requires Running(m, want, log, day) && Settled(m, want)
    ensures Running(m, want, Saved(m), day) && Denotes(map[], Saved(m)) == want
  {
    SettledFits(m, want, day);
  }

  lemma LogDeleted(s: State, t: State)
    requires Safe(s) && Next(s, t, DeleteLog) && Keeps(s, DeleteLog)
    ensures CanBeSaved(t.mem) && Swapped(t) && t.done == Denotes(map[], Saved(t.mem))
  {
    AllOf(Snapshot(s.mem), s.phase.k);
    SettledRuns(s.mem, s.want, Log(s.disk), s.day);
  }

  lemma DeleteLogIsSafe(s: State, t: State)
    requires Safe(s) && Next(s, t, DeleteLog) && Keeps(s, DeleteLog)
    ensures Safe(t)
  {
    LogDeleted(s, t);
    SwappedIsSafe(t);
  }

  /** Whichever file it is read from, the same journal. */
  lemma SameFile(s: State, t: State)
    requires Safe(s) && Found(t.disk) == Found(s.disk) && OnDisk(s) == t.done && t.day == s.day
    requires t.phase.Down? || (t.phase.Idle? && t.disk.awcu.Some? && Running(t.mem, t.want, Log(s.disk), t.day))
    ensures Safe(t)
  {
    assert Log(t.disk) == Log(s.disk) && Stands(t.disk) == Stands(s.disk);
  }

  lemma SwappedLog(s: State)
    requires CanBeSaved(s.mem) && Swapped(s)
    ensures s.disk.awcu.None? && s.disk.awcr.Some? && Running(s.mem, s.want, Log(s.disk), s.day)
  {
    SnapshotLog(s.disk, s.mem, s.day);
  }

  lemma RenameIsSafe(s: State, t: State)
    requires Safe(s) && Next(s, t, Rename)
    ensures Safe(t)
  {
    SwappedLog(s);
    SameFile(s, t);
  }

  lemma CrashIsSafe(s: State, t: State)
    requires Safe(s) && Next(s, t, Crash)
    ensures Safe(t)
  {
    if s.phase.Appending? {
      AppendEnds(s, t);
    } else {
      SameFile(s, t);
    }
  }

  lemma ProgressIsSafe(s: State, t: State, k: nat)
    requires Safe(s) && Progresses(s, t, k)
    ensures Safe(t)
  {
    if s.phase.Creating? {
      CreatingIsSafe(s, t, k);
    } else if s.phase.Appending? {
      AppendingIsSafe(s, t, k);
    }
  }

  /** No step of any operation, append, compaction, start-up or exit, whether it fails or not, nor a
      crash in it, loses what was recorded, if it keeps to the conditions. */
  lemma StepIsSafe(s: State, t: State, step: Step)
    requires Safe(s) && Next(s, t, step) && Keeps(s, step)
    ensures Safe(t)
  {
    match step
    case Start(today) => StartIsSafe(s, t, today);
    case Progress(k) => ProgressIsSafe(s, t, k);
    case Created => CreatedIsSafe(s, t);
    case Act(op) => ActIsSafe(s, t, op);
    case Appended => AppendEnds(s, t);
    case AppendFailed => AppendEnds(s, t);
    case Save(last) => SaveIsSafe(s, t, last);
    case SaveFailed =>
    case DeleteLog => DeleteLogIsSafe(s, t);
    case Rename => RenameIsSafe(s, t);
    case Crash => CrashIsSafe(s, t);
  }

  // ------------------------------------------------------------------------
  // Runs

  ghost predicate IsPath(states: seq<State>, steps: seq<Step>) {
    |states| == |steps| + 1 && forall i :: 0 <= i < |steps| ==> Next(states[i], states[i + 1], steps[i])
  }

  /** A run begins without any file. */
  ghost predicate IsRun(states: seq<State>, steps: seq<Step>) {
    IsPath(states, steps) && states[0].disk == Disk(None, None) && states[0].phase.Down? && states[0].done == map[]
  }

  /** Wherever a run of the program stops, between file operations or in the middle of one, the
      next start-up finds what was recorded, and of the record in progress all or nothing. */
  lemma {:induction false} StartFindsAll(states: seq<State>, steps: seq<Step>, i: nat, today: nat)
    requires IsRun(states, steps) && i <= |steps| && states[i].day <= today
    requires forall j :: 0 <= j < i ==> Keeps(states[j], steps[j])
    ensures Safe(states[i])
    ensures forall u :: Lookup(Loaded(states[i].disk, today), u) == Current(OnDisk(states[i]), u, today)
    ensures Fresh(Loaded(states[i].disk, today), Log(states[i].disk), today)
  {
    var s := states[i];
    RunIsSafe(states, steps, i);
    GoodLater(Log(s.disk), s.day, today);
    ReadFresh(Found(s.disk), today);
    SameLater(Stands(s.disk), OnDisk(s), s.day, today);
    ReadHolds(Found(s.disk), today);
    forall u
      ensures Lookup(Loaded(s.disk, today), u) == Current(OnDisk(s), u, today)
    {
      assert Lookup(Loaded(s.disk, today), u) == Current(Stands(s.disk), u, today);
    }
  }

  lemma {:induction false} RunIsSafe(states: seq<State>, steps: seq<Step>, i: nat)
    requires IsRun(states, steps) && i <= |steps| && forall j :: 0 <= j < i ==> Keeps(states[j], steps[j])
    ensures Safe(states[i])
  {
    if i == 0 {
      EmptyLog(states[0].disk);
    } else {
      RunIsSafe(states, steps, i - 1);
      StepIsSafe(states[i - 1], states[i], steps[i - 1]);
    }
  }

  // ------------------------------------------------------------------------
  // While no append fails

  /** All that the program has done is recorded, but for what is being appended. */
  ghost predicate Recorded(s: State) {
    match s.phase
    case Down => true
    case Appending(e, k) => s.want == Effect(s.done, e)
    case _ => s.want == s.done
  }

  lemma LiveEqual(a: map<Url, Entry>, b: map<Url, Entry>, today: nat)
    requires Same(a, b, today)
    ensures Live(a, today) == Live(b, today)
  {
    forall u
      ensures u in Live(a, today) <==> u in Live(b, today)
      ensures u in Live(a, today) ==> Live(a, today)[u] == Live(b, today)[u]
    {
      assert Current(a, u, today) == Current(b, u, today);
    }
  }

  lemma StepRecords(s: State, t: State, step: Step)
    requires Safe(s) && Recorded(s) && Next(s, t, step) && !step.AppendFailed?
    ensures Recorded(t)
  {
    match step
    case Start(today) =>
      SameLater(Stands(s.disk), s.done, s.day, today);
      LiveEqual(Stands(s.disk), s.done, today);
    case Act(op) =>
      if Record(s.mem, op) != [] {
        assert Record(s.mem, op) == [Record(s.mem, op)[0]];
        DenotesOne(s.want, Record(s.mem, op)[0]);
      }
    case _ =>
  }

  lemma {:induction false} RunRecords(states: seq<State>, steps: seq<Step>, i: nat)
    requires IsRun(states, steps) && i <= |steps|
    requires forall j :: 0 <= j < i ==> Keeps(states[j], steps[j]) && !steps[j].AppendFailed?
    ensures Recorded(states[i])
  {
    if i > 0 {
      RunRecords(states, steps, i - 1);
      RunIsSafe(states, steps, i - 1);
      StepRecords(states[i - 1], states[i], steps[i - 1]);
    }
  }

  /** While no append fails, what the next start-up would find at any moment between two operations
      is what the program has in memory: for each url the page that finished last and is still
      there, if it will not have expired. */
  lemma StartFindsMemory(states: seq<State>, steps: seq<Step>, i: nat, today: nat, u: Url)
    requires IsRun(states, steps) && i <= |steps| && states[i].day <= today && states[i].phase.Idle?
    requires forall j :: 0 <= j < i ==> Keeps(states[j], steps[j]) && !steps[j].AppendFailed?
    ensures InStep(states[i].mem, states[i].want)
    ensures Lookup(Loaded(states[i].disk, today), u) == Current(states[i].want, u, today)
  {
    RunRecords(states, steps, i);
    StartFindsAll(states, steps, i, today);
  }

  // ------------------------------------------------------------------------
  // Appending to a torn journal

  /** What happens from the moment at which an append was cut off: a crash, a start-up of which the
      compaction fails, and then an operation that is recorded. */
  ghost predicate AppendsToTorn(states: seq<State>, today: nat, op: Op) {
    && |states| == 7
    && states[0].phase.Appending? && 0 < states[0].phase.k <= 20
    && IsPath(states, [Crash, Start(today), SaveFailed, Act(op), Progress(AllOfIt(states)), Appended])
  }

  ghost function AllOfIt(states: seq<State>): nat
    requires |states| == 7
  {
    if states[4].phase.Appending? then |PutEntry(states[4].phase.e)| else 0
  }

  /** The program takes the operation for recorded, and the next start-up does not find it. */
  lemma TornAppendIsLost(states: seq<State>, today: nat, op: Op)
    requires AppendsToTorn(states, today, op) && Safe(states[0])
    requires var f := states[4].phase; f.Appending? && var x := PutEntry(f.e); |x| > 20 && x[20 - states[0].phase.k] > MAX_COTYPE
    ensures states[6].phase.Idle? && states[6].done == Effect(Live(states[0].done, today), states[4].phase.e)
    ensures Log(states[6].disk) == Log(states[0].disk) && !GetRegistry(Found(states[6].disk)).1.ok
  {
    var n, log := TornNow(states[0]);
    TornPath(states, today, op);
    TornLog(states[0].disk.awcu.value, n, log, states[0].phase.e, states[0].phase.k, states[4].phase.e);
  }

  lemma TornNow(s: State) returns (n: ulong, log: seq<Entry>)
    requires Safe(s) && s.phase.Appending? && s.phase.k <= 20
    ensures s.phase.k < |PutEntry(s.phase.e)| && s.disk.awcu.Some?
    ensures Torn(s.disk.awcu.value, n, log, s.phase.e, s.phase.k)
  {
    n, log :| Writing(s, n, log, s.phase.e, s.phase.k);
    EntryLength(s.phase.e);
  }

  lemma TornLog(awcu: seq<byte>, n: ulong, log: seq<Entry>, e: Entry, k: nat, f: Entry)
    requires Torn(awcu, n, log, e, k) && 0 < k <= 20 && k < |PutEntry(e)|
    requires 20 - k < |PutEntry(f)| && PutEntry(f)[20 - k] > MAX_COTYPE
    ensures GetRegistry(awcu).1.entries == log && GetRegistry(awcu + PutEntry(f)).1 == Listing(log, false)
  {
    ReadsTorn(awcu, n, log, e, k);
    LostBehindTorn(n, log, e, k, f, []);
    TornBytes(PutRegistry(n, log), PutEntry(e)[..k], PutEntry(f));
  }

  lemma TornBytes<T>(a: seq<T>, b: seq<T>, c: seq<T>)
    ensures a + b + c == a + (b + c + [])
  {
  }

  lemma TornPath(states: seq<State>, today: nat, op: Op)
    requires AppendsToTorn(states, today, op) && states[0].disk.awcu.Some? && states[4].phase.Appending?
    requires states[0].phase.k < |PutEntry(states[0].phase.e)|
    ensures states[6].disk.awcu == Some(states[0].disk.awcu.value + PutEntry(states[4].phase.e))
    ensures states[6].phase.Idle? && states[6].done == Effect(Live(states[0].done, today), states[4].phase.e)
  {
    var steps := [Crash, Start(today), SaveFailed, Act(op), Progress(AllOfIt(states)), Appended];
    assert Next(states[0], states[1], steps[0]) && Next(states[1], states[2], steps[1]);
    assert Next(states[2], states[3], steps[2]) && Next(states[3], states[4], steps[3]);
    assert Next(states[4], states[5], steps[4]) && Next(states[5], states[6], steps[5]);
    var x := PutEntry(states[4].phase.e);
    assert x[0..|x|] == x;
  }
}
