/** The store over its log files as text (store.go): every operation reads histories
    by parsing the files and writes them by appending single lines, a collection by
    rewriting. It does what the store over histories in `StoreModel` does. */
module TextLogs {
  import opened Base
  import opened ContentSignal
  import opened StoreModel
  import opened Retention
  import opened RetentionLaws
  import opened Histories
  import opened Strconv
  import opened LogCodec
  import opened LogFiles

  /** The working tree, the text of each log file, the objects, and how often the
      clock was read. A file never recorded has no log. */
  datatype Filed = Filed(
    disk: map<Path, Bytes>,
    files: map<Path, string>,
    objects: map<Hash, Bytes>,
    ticks: nat)

  function FileOf(f: Filed, p: Path): Option<string> {
    if p in f.files then Some(f.files[p]) else None
  }

  /** readLog */
  function LogIn(f: Filed, p: Path): seq<Revision> { ReadLog(FileOf(f, p)).revs }

  /** Everything the program knows of its logs: what it reads in them. */
  function Parsed(f: Filed): Store {
    Store(f.disk, map p | p in f.files :: LogIn(f, p), f.objects, f.ticks)
  }

  // The operations on files

  function AppendLine(env: Env, pr: Printable, f: Filed, p: Path, kind: Label, hash: Hash, sig: Signal): Filed {
    var text := if p in f.files then f.files[p] else "";
    var r := Revision(NextTs(env.clock(f.ticks), LogIn(f, p)), hash, kind, sig);
    f.(files := f.files[p := text + (FormatLine(pr, r) + "\n")], ticks := f.ticks + 1)
  }

  function Placed(env: Env, f: Filed, content: Bytes): Filed {
    if env.sha(content) in f.objects then f else f.(objects := f.objects[env.sha(content) := content])
  }

  function RecordIn(env: Env, pr: Printable, f: Filed, p: Path, force: Option<Label>): Filed {
    var last := Last(LogIn(f, p));
    if p !in f.disk then
      if force.Some? then
        AppendLine(env, pr, f, p, force.value, if last.Some? then last.value.hash else NO_HASH, WholeSignal([], last))
      else if last.None? || last.value.kind.Delete? then f
      else AppendLine(env, pr, f, p, Delete, last.value.hash, WholeSignal([], last))
    else
      var content := f.disk[p];
      if force.None? && |content| > MaxBytes(env) then f
      else
        var hash := env.sha(content);
        var f1 := Placed(env, f, content);
        if force.None? && last.Some? && last.value.hash == hash && !last.value.kind.Delete? then f1
        else
          var kind := if force.Some? then force.value else if last.Some? then Modify else FirstSeen;
          AppendLine(env, pr, f1, p, kind, hash, StreamedSignal(content, last))
  }

  /** pre as in Restoration. */
  datatype Attempt = Attempt(filed: Filed, pre: Option<int>)

  function RestoreIn(env: Env, pr: Printable, f: Filed, p: Path, ts: int): Attempt {
    match Find(LogIn(f, p), ts)
    case None => Attempt(f, None)
    case Some(target) =>
      var f1 := RecordIn(env, pr, f, p, Some(PreRestore));
      var pre := Last(LogIn(f1, p));
      var preTs := if pre.Some? then Some(pre.value.ts) else None;
      if target.kind.Delete? then
        var f2 := f1.(disk := f1.disk - {p});
        Attempt(AppendLine(env, pr, f2, p, Label.Restore, target.hash, WholeSignal([], pre)), preTs)
      else if target.hash !in f1.objects then Attempt(f1, None)
      else
        var content := f1.objects[target.hash];
        var f2 := f1.(disk := f1.disk[p := content]);
        Attempt(AppendLine(env, pr, f2, p, Label.Restore, target.hash, WholeSignal(content, pre)), preTs)
  }

  /** A batch under way: stopped at its first failure. */
  datatype Pass = Pass(filed: Filed, failed: bool)

  function Tried(a: Attempt): Pass { Pass(a.filed, a.pre.None?) }

  function RestoreOneIn(env: Env, pr: Printable, f: Filed, p: Path, atMs: int): Pass {
    match PickAt(LogIn(f, p), atMs)
    case None => Pass(f, false)
    case Some(target) =>
      if target.kind.Delete? || (p in f.disk && env.sha(f.disk[p]) == target.hash) then Pass(f, false)
      else Tried(RestoreIn(env, pr, f, p, target.ts))
  }

  function RestoreFilesIn(env: Env, pr: Printable, f: Filed, ps: seq<Path>, dir: Path, atMs: int): Pass {
    if ps == [] then Pass(f, false)
    else
      var g := RestoreFilesIn(env, pr, f, ps[..|ps| - 1], dir, atMs);
      if g.failed || !UnderDir(ps[|ps| - 1], dir) then g
      else RestoreOneIn(env, pr, g.filed, ps[|ps| - 1], atMs)
  }

  function UndoOneIn(env: Env, pr: Printable, f: Filed, p: Path, start: int, end: int): Pass {
    match PreRestoreIn(LogIn(f, p), start, end)
    case None => Pass(f, false)
    case Some(target) => Tried(RestoreIn(env, pr, f, p, target.ts))
  }

  function UndoFilesIn(env: Env, pr: Printable, f: Filed, ps: seq<Path>, dir: Path, start: int, end: int): Pass {
    if ps == [] then Pass(f, false)
    else
      var g := UndoFilesIn(env, pr, f, ps[..|ps| - 1], dir, start, end);
      if g.failed || !UnderDir(ps[|ps| - 1], dir) then g
      else UndoOneIn(env, pr, g.filed, ps[|ps| - 1], start, end)
  }

  /** A log that loses no revision is left as it is, one that loses all is removed. */
  function TrimmedText(pr: Printable, text: string, log: seq<Revision>, kept: seq<Revision>): Option<string> {
    if |kept| == |log| then Some(text) else Rewritten(pr, kept)
  }

  function TrimmedIn(pr: Printable, f: Filed, s: Store, s': Store, p: Path): Option<string> {
    if p in f.files then TrimmedText(pr, f.files[p], LogOf(s, p), LogOf(s', p)) else None
  }

  function Collected(pr: Printable, f: Filed, s: Store, s': Store): Filed {
    Filed(s'.disk, map p | p in f.files && TrimmedIn(pr, f, s, s', p).Some? :: TrimmedIn(pr, f, s, s', p).value,
          s'.objects, s'.ticks)
  }

  ghost function CollectIn(env: Env, pr: Printable, f: Filed, c: Collection): Filed {
    Collected(pr, f, Parsed(f), Collect(env, Parsed(f), c))
  }

  function TickIn(f: Filed): Filed { f.(ticks := f.ticks + 1) }

  ghost function StepIn(env: Env, pr: Printable, f: Filed, op: Op): Filed {
    match op
    case Write(p, content) => f.(disk := f.disk[p := content])
    case Remove(p) => f.(disk := f.disk - {p})
    case DoRecord(p) => RecordIn(env, pr, f, p, None)
    case DoRestore(p, ts) => RestoreIn(env, pr, f, p, ts).filed
    case DoRestoreAt(dir, atMs) => TickIn(RestoreFilesIn(env, pr, TickIn(f), InOrder(f.files.Keys), dir, atMs).filed)
    case DoUndo(dir, start, end) => UndoFilesIn(env, pr, f, InOrder(f.files.Keys), dir, start, end).filed
    case DoCollect(c) => CollectIn(env, pr, f, c)
  }

  ghost function RunIn(env: Env, pr: Printable, f: Filed, ops: seq<Op>): Filed {
    if ops == [] then f else StepIn(env, pr, RunIn(env, pr, f, ops[..|ops| - 1]), ops[|ops| - 1])
  }

  // They do what the operations on histories do

  /** The files hold one line for each revision, in order. */
  ghost predicate Holds(pr: Printable, f: Filed, s: Store) {
    && f.disk == s.disk && f.objects == s.objects && f.ticks == s.ticks
    && f.files.Keys == s.logs.Keys
    && (forall p :: p in s.logs ==> f.files[p] == LinesOf(pr, s.logs[p]))
  }

  ghost predicate Readable(pr: Printable, s: Store) {
    forall p :: p in s.logs ==> AllStorable(pr, s.logs[p])
  }

  lemma ReadsLog(pr: Printable, f: Filed, s: Store, p: Path)
    requires Holds(pr, f, s) && Readable(pr, s)
    ensures ReadLog(FileOf(f, p)) == Reading(LogOf(s, p), true) && LogIn(f, p) == LogOf(s, p)
  {
    if p in s.logs.Keys { ReadOfRewritten(pr, s.logs[p]); }
  }

  lemma AppendHolds(env: Env, pr: Printable, f: Filed, s: Store, p: Path, kind: Label, hash: Hash, sig: Signal)
    requires Holds(pr, f, s) && LogIn(f, p) == LogOf(s, p)
    ensures Holds(pr, AppendLine(env, pr, f, p, kind, hash, sig), AppendLog(env, s, p, kind, hash, sig))
  {
    var log := LogOf(s, p);
    var r := Revision(NextTs(env.clock(s.ticks), log), hash, kind, sig);
    LinesOfAppend(pr, log, r);
    assert p in f.files.Keys <==> p in s.logs.Keys;
  }

  lemma RecordHolds(env: Env, pr: Printable, f: Filed, s: Store, p: Path, force: Option<Label>)
    requires Holds(pr, f, s) && Readable(pr, s)
    ensures Holds(pr, RecordIn(env, pr, f, p, force), Record(env, s, p, force))
  {
    ReadsLog(pr, f, s, p);
    var last := Last(LogOf(s, p));
    if p !in s.disk {
      var kind := if force.Some? then force.value else Delete;
      AppendHolds(env, pr, f, s, p, kind, if last.Some? then last.value.hash else NO_HASH, WholeSignal([], last));
    } else {
      var content := s.disk[p];
      var kind := if force.Some? then force.value else if last.Some? then Modify else FirstSeen;
      var f1, s1 := Placed(env, f, content), PlaceObject(env, s, content);
      assert Holds(pr, f1, s1) && LogIn(f1, p) == LogIn(f, p);
      AppendHolds(env, pr, f1, s1, p, kind, env.sha(content), StreamedSignal(content, last));
    }
  }

  /** The rest of a restore, behind the safeguard it reads back. */
  lemma FinishHolds(env: Env, pr: Printable, f: Filed, s: Store, p: Path, hash: Hash, disk: map<Path, Bytes>,
                    content: Bytes)
    requires Holds(pr, f, s) && Readable(pr, s)
    ensures LogIn(f, p) == LogOf(s, p)
    ensures var sig := WholeSignal(content, Last(LogOf(s, p)));
            Holds(pr, AppendLine(env, pr, f.(disk := disk), p, Label.Restore, hash, sig),
                  AppendLog(env, s.(disk := disk), p, Label.Restore, hash, sig))
  {
    ReadsLog(pr, f, s, p);
    var f2, s2 := f.(disk := disk), s.(disk := disk);
    assert Holds(pr, f2, s2) && LogIn(f2, p) == LogIn(f, p) && LogOf(s2, p) == LogOf(s, p);
    AppendHolds(env, pr, f2, s2, p, Label.Restore, hash, WholeSignal(content, Last(LogOf(s, p))));
  }

  lemma RestoreHolds(env: Env, pr: Printable, f: Filed, s: Store, p: Path, ts: int)
    requires Holds(pr, f, s) && Readable(pr, s) && Readable(pr, Record(env, s, p, Some(PreRestore)))
    ensures Holds(pr, RestoreIn(env, pr, f, p, ts).filed, RestoreTo(env, s, p, ts).store)
    ensures RestoreIn(env, pr, f, p, ts).pre == RestoreTo(env, s, p, ts).pre
  {
    ReadsLog(pr, f, s, p);
    if Find(LogOf(s, p), ts).Some? {
      var target := Find(LogOf(s, p), ts).value;
      var f1, s1 := RecordIn(env, pr, f, p, Some(PreRestore)), Record(env, s, p, Some(PreRestore));
      RecordHolds(env, pr, f, s, p, Some(PreRestore));
      if target.kind.Delete? {
        FinishHolds(env, pr, f1, s1, p, target.hash, s1.disk - {p}, []);
      } else if target.hash in s1.objects {
        var content := s1.objects[target.hash];
        FinishHolds(env, pr, f1, s1, p, target.hash, s1.disk[p := content], content);
      } else {
        ReadsLog(pr, f1, s1, p);
      }
    }
  }

  // The clock readings of an operation are those of its parts

  lemma RestoreTicks(env: Env, s: Store, p: Path, ts: int)
    ensures s.ticks <= Record(env, s, p, Some(PreRestore)).ticks
    ensures Find(LogOf(s, p), ts).Some? ==>
              Record(env, s, p, Some(PreRestore)).ticks <= RestoreTo(env, s, p, ts).store.ticks
    ensures s.ticks <= RestoreTo(env, s, p, ts).store.ticks
  {
  }

  lemma {:induction false} RestoreFilesTicks(env: Env, s: Store, ps: seq<Path>, dir: Path, atMs: int)
    ensures s.ticks <= RestoreFiles(env, s, ps, dir, atMs).store.ticks
  {
    if ps != [] {
      var g := RestoreFiles(env, s, ps[..|ps| - 1], dir, atMs);
      RestoreFilesTicks(env, s, ps[..|ps| - 1], dir, atMs);
      var pick := PickAt(LogOf(g.store, ps[|ps| - 1]), atMs);
      if pick.Some? { RestoreTicks(env, g.store, ps[|ps| - 1], pick.value.ts); }
    }
  }

  lemma {:induction false} UndoFilesTicks(env: Env, s: Store, ps: seq<Path>, dir: Path, start: int, end: int)
    ensures s.ticks <= UndoFiles(env, s, ps, dir, start, end).store.ticks
  {
    if ps != [] {
      var g := UndoFiles(env, s, ps[..|ps| - 1], dir, start, end);
      UndoFilesTicks(env, s, ps[..|ps| - 1], dir, start, end);
      var pick := PreRestoreIn(LogOf(g.store, ps[|ps| - 1]), start, end);
      if pick.Some? { RestoreTicks(env, g.store, ps[|ps| - 1], pick.value.ts); }
    }
  }

  lemma StepTicks(env: Env, s: Store, op: Op)
    ensures s.ticks <= Step(env, s, op).ticks
  {
    match op
    case DoRestore(p, ts) => RestoreTicks(env, s, p, ts);
    case DoRestoreAt(dir, atMs) => RestoreFilesTicks(env, Tick(s), InOrder(s.logs.Keys), dir, atMs);
    case DoUndo(dir, start, end) => UndoFilesTicks(env, s, InOrder(s.logs.Keys), dir, start, end);
    case _ =>
  }

  // Whole operations

  /** The clock and the sizes fit 64 bits, and there is room for so many readings. */
  ghost predicate Fits(env: Env, s: Store, lo: int, hi: int, ticks: nat) {
    Bounded(env, lo, hi) && StoreFits(s, lo, hi) && MIN_INT64 <= lo && hi + ticks <= MAX_INT64
  }

  lemma FitsReads(env: Env, pr: Printable, s: Store, lo: int, hi: int, ticks: nat)
    requires Fits(env, s, lo, hi, ticks) && s.ticks <= ticks
    ensures Readable(pr, s)
  {
    forall p | p in s.logs ensures AllStorable(pr, s.logs[p]) {
      assert LogFits(s.logs[p], lo, hi + s.ticks);
      FittingAreStorable(pr, s.logs[p], lo, hi + s.ticks);
    }
  }

  lemma RestoreFitsHolds(env: Env, pr: Printable, f: Filed, s: Store, p: Path, ts: int, lo: int, hi: int)
    requires Holds(pr, f, s) && Find(LogOf(s, p), ts).Some?
    requires Fits(env, s, lo, hi, RestoreTo(env, s, p, ts).store.ticks)
    ensures Holds(pr, RestoreIn(env, pr, f, p, ts).filed, RestoreTo(env, s, p, ts).store)
    ensures RestoreIn(env, pr, f, p, ts).pre == RestoreTo(env, s, p, ts).pre
  {
    var s1, n := Record(env, s, p, Some(PreRestore)), RestoreTo(env, s, p, ts).store.ticks;
    RestoreTicks(env, s, p, ts);
    FitsReads(env, pr, s, lo, hi, n);
    RecordFits(env, s, p, Some(PreRestore), lo, hi);
    FitsReads(env, pr, s1, lo, hi, n);
    RestoreHolds(env, pr, f, s, p, ts);
  }

  lemma RestoreOneHolds(env: Env, pr: Printable, f: Filed, g: Progress, p: Path, atMs: int, lo: int, hi: int)
    requires Holds(pr, f, g.store) && !g.failed
    requires Fits(env, g.store, lo, hi, RestoreFile(env, g, p, atMs).store.ticks)
    ensures var one, g' := RestoreOneIn(env, pr, f, p, atMs), RestoreFile(env, g, p, atMs);
            Holds(pr, one.filed, g'.store) && one.failed == g'.failed
  {
    var pick := PickAt(LogOf(g.store, p), atMs);
    if pick.Some? {
      RestoreTicks(env, g.store, p, pick.value.ts);
      PickIsThere(LogOf(g.store, p), atMs);
      FindSound(LogOf(g.store, p), pick.value.ts);
    }
    FitsReads(env, pr, g.store, lo, hi, RestoreFile(env, g, p, atMs).store.ticks);
    ReadsLog(pr, f, g.store, p);
    if pick.Some? && !pick.value.kind.Delete? && !(p in f.disk && env.sha(f.disk[p]) == pick.value.hash) {
      RestoreFitsHolds(env, pr, f, g.store, p, pick.value.ts, lo, hi);
    }
  }

  lemma {:induction false} PickIsThere(log: seq<Revision>, atMs: int)
    ensures PickAt(log, atMs).Some? ==> PickAt(log, atMs).value in log
  {
    if log != [] { PickIsThere(log[..|log| - 1], atMs); }
  }

  lemma {:induction false} SafeguardIsThere(log: seq<Revision>, start: int, end: int)
    ensures PreRestoreIn(log, start, end).Some? ==> PreRestoreIn(log, start, end).value in log
  {
    if log != [] { SafeguardIsThere(log[..|log| - 1], start, end); }
  }

  lemma {:induction false} RestoreFilesHold(env: Env, pr: Printable, f: Filed, s: Store, ps: seq<Path>,
                                            dir: Path, atMs: int,
                                            lo: int, hi: int)
    requires Holds(pr, f, s) && Fits(env, s, lo, hi, RestoreFiles(env, s, ps, dir, atMs).store.ticks)
    ensures var all, g := RestoreFilesIn(env, pr, f, ps, dir, atMs), RestoreFiles(env, s, ps, dir, atMs);
            Holds(pr, all.filed, g.store) && all.failed == g.failed
  {
    if ps != [] {
      var init, p := ps[..|ps| - 1], ps[|ps| - 1];
      var g := RestoreFiles(env, s, init, dir, atMs);
      RestoreFilesFit(env, s, init, dir, atMs, lo, hi);
      if !g.failed && UnderDir(p, dir) {
        RestoreFileTicks(env, g, p, atMs);
        RestoreFilesHold(env, pr, f, s, init, dir, atMs, lo, hi);
        RestoreOneHolds(env, pr, RestoreFilesIn(env, pr, f, init, dir, atMs).filed, g, p, atMs, lo, hi);
      } else {
        RestoreFilesHold(env, pr, f, s, init, dir, atMs, lo, hi);
      }
    }
  }

  lemma RestoreFileTicks(env: Env, g: Progress, p: Path, atMs: int)
    ensures g.store.ticks <= RestoreFile(env, g, p, atMs).store.ticks
  {
    var pick := PickAt(LogOf(g.store, p), atMs);
    if pick.Some? { RestoreTicks(env, g.store, p, pick.value.ts); }
  }

  lemma UndoFileTicks(env: Env, g: Progress, p: Path, start: int, end: int)
    ensures g.store.ticks <= UndoFile(env, g, p, start, end).store.ticks
  {
    var pick := PreRestoreIn(LogOf(g.store, p), start, end);
    if pick.Some? { RestoreTicks(env, g.store, p, pick.value.ts); }
  }

  lemma UndoOneHolds(env: Env, pr: Printable, f: Filed, g: Progress, p: Path, start: int, end: int, lo: int, hi: int)
    requires Holds(pr, f, g.store) && !g.failed
    requires Fits(env, g.store, lo, hi, UndoFile(env, g, p, start, end).store.ticks)
    ensures var one, g' := UndoOneIn(env, pr, f, p, start, end), UndoFile(env, g, p, start, end);
            Holds(pr, one.filed, g'.store) && one.failed == g'.failed
  {
    var pick := PreRestoreIn(LogOf(g.store, p), start, end);
    UndoFileTicks(env, g, p, start, end);
    FitsReads(env, pr, g.store, lo, hi, UndoFile(env, g, p, start, end).store.ticks);
    ReadsLog(pr, f, g.store, p);
    if pick.Some? {
      SafeguardIsThere(LogOf(g.store, p), start, end);
      FindSound(LogOf(g.store, p), pick.value.ts);
      RestoreFitsHolds(env, pr, f, g.store, p, pick.value.ts, lo, hi);
    }
  }

  lemma {:induction false} UndoFilesHold(env: Env, pr: Printable, f: Filed, s: Store, ps: seq<Path>, dir: Path,
                                         start: int, end: int, lo: int, hi: int)
    requires Holds(pr, f, s) && Fits(env, s, lo, hi, UndoFiles(env, s, ps, dir, start, end).store.ticks)
    ensures var all, g := UndoFilesIn(env, pr, f, ps, dir, start, end), UndoFiles(env, s, ps, dir, start, end);
            Holds(pr, all.filed, g.store) && all.failed == g.failed
  {
    if ps != [] {
      var init, p := ps[..|ps| - 1], ps[|ps| - 1];
      var g := UndoFiles(env, s, init, dir, start, end);
      UndoFilesFit(env, s, init, dir, start, end, lo, hi);
      if !g.failed && UnderDir(p, dir) {
        UndoFileTicks(env, g, p, start, end);
        UndoFilesHold(env, pr, f, s, init, dir, start, end, lo, hi);
        UndoOneHolds(env, pr, UndoFilesIn(env, pr, f, init, dir, start, end).filed, g, p, start, end, lo, hi);
      } else {
        UndoFilesHold(env, pr, f, s, init, dir, start, end, lo, hi);
      }
    }
  }

  lemma ParsedIs(pr: Printable, f: Filed, s: Store)
    requires Holds(pr, f, s) && Readable(pr, s)
    ensures Parsed(f) == s
  {
    forall p | p in f.files.Keys ensures LogIn(f, p) == s.logs[p] { ReadsLog(pr, f, s, p); }
    assert Parsed(f).logs == s.logs;
  }

  lemma TrimmedHolds(pr: Printable, text: string, log: seq<Revision>, kept: seq<Revision>)
    requires text == LinesOf(pr, log) && log != [] && KeptTail(log, kept)
    ensures TrimmedText(pr, text, log, kept) == Some(LinesOf(pr, kept))
  {
    if |kept| == |log| { assert kept == log; }
  }

  lemma CollectedHolds(pr: Printable, f: Filed, s: Store, s': Store)
    requires Holds(pr, f, s) && Trimmed(s, s') && forall p :: p in s.logs ==> s.logs[p] != []
    ensures Holds(pr, Collected(pr, f, s, s'), s')
  {
    forall p | p in s.logs.Keys ensures p in f.files && TrimmedIn(pr, f, s, s', p) == Some(LinesOf(pr, s'.logs[p])) {
      TrimmedHolds(pr, f.files[p], s.logs[p], s'.logs[p]);
    }
    assert Collected(pr, f, s, s').files.Keys == s'.logs.Keys;
  }

  lemma CollectHolds(env: Env, pr: Printable, f: Filed, s: Store, c: Collection)
    requires Holds(pr, f, s) && Readable(pr, s) && StoreOk(env, s)
    ensures Holds(pr, CollectIn(env, pr, f, c), Collect(env, s, c))
  {
    ParsedIs(pr, f, s);
    CollectTrims(env, s, c);
    CollectedHolds(pr, f, s, Collect(env, s, c));
  }

  lemma TickHolds(pr: Printable, f: Filed, s: Store)
    requires Holds(pr, f, s)
    ensures Holds(pr, TickIn(f), Tick(s))
  {
  }

  lemma FitsTick(env: Env, s: Store, lo: int, hi: int, ticks: nat, fewer: nat)
    requires Fits(env, s, lo, hi, ticks) && fewer <= ticks
    ensures Fits(env, Tick(s), lo, hi, fewer)
  {
    TickFits(s, lo, hi);
  }

  lemma RestoreAtHolds(env: Env, pr: Printable, f: Filed, s: Store, dir: Path, atMs: int, lo: int, hi: int)
    requires Holds(pr, f, s) && Fits(env, s, lo, hi, RestoreAt(env, s, dir, atMs).store.ticks)
    ensures Holds(pr, TickIn(RestoreFilesIn(env, pr, TickIn(f), InOrder(f.files.Keys), dir, atMs).filed),
                  RestoreAt(env, s, dir, atMs).store)
  {
    var ps := InOrder(s.logs.Keys);
    var g := RestoreFiles(env, Tick(s), ps, dir, atMs);
    FitsTick(env, s, lo, hi, g.store.ticks + 1, g.store.ticks);
    TickHolds(pr, f, s);
    RestoreFilesHold(env, pr, TickIn(f), Tick(s), ps, dir, atMs, lo, hi);
    TickHolds(pr, RestoreFilesIn(env, pr, TickIn(f), ps, dir, atMs).filed, g.store);
  }

  lemma DoRestoreHolds(env: Env, pr: Printable, f: Filed, s: Store, p: Path, ts: int, lo: int, hi: int)
    requires Holds(pr, f, s) && Fits(env, s, lo, hi, RestoreTo(env, s, p, ts).store.ticks)
    ensures Holds(pr, RestoreIn(env, pr, f, p, ts).filed, RestoreTo(env, s, p, ts).store)
  {
    RestoreTicks(env, s, p, ts);
    FitsReads(env, pr, s, lo, hi, RestoreTo(env, s, p, ts).store.ticks);
    ReadsLog(pr, f, s, p);
    if Find(LogOf(s, p), ts).Some? { RestoreFitsHolds(env, pr, f, s, p, ts, lo, hi); }
  }

  lemma DoUndoHolds(env: Env, pr: Printable, f: Filed, s: Store, dir: Path, start: int, end: int, lo: int, hi: int)
    requires Holds(pr, f, s) && Fits(env, s, lo, hi, UndoRestoreAt(env, s, dir, start, end).store.ticks)
    ensures Holds(pr, UndoFilesIn(env, pr, f, InOrder(f.files.Keys), dir, start, end).filed,
                  UndoRestoreAt(env, s, dir, start, end).store)
  {
    UndoFilesHold(env, pr, f, s, InOrder(s.logs.Keys), dir, start, end, lo, hi);
  }

  lemma StepHolds(env: Env, pr: Printable, f: Filed, s: Store, op: Op, lo: int, hi: int)
    requires Holds(pr, f, s) && Readable(pr, s) && StoreOk(env, s) && Fits(env, s, lo, hi, Step(env, s, op).ticks)
    ensures Holds(pr, StepIn(env, pr, f, op), Step(env, s, op))
  {
    match op
    case Write(_, _) =>
    case Remove(_) =>
    case DoRecord(p) => RecordHolds(env, pr, f, s, p, None);
    case DoRestore(p, ts) => DoRestoreHolds(env, pr, f, s, p, ts, lo, hi);
    case DoRestoreAt(dir, atMs) => RestoreAtHolds(env, pr, f, s, dir, atMs, lo, hi);
    case DoUndo(dir, start, end) => DoUndoHolds(env, pr, f, s, dir, start, end, lo, hi);
    case DoCollect(c) => CollectHolds(env, pr, f, s, c);
  }

  lemma {:induction false} RunHolds(env: Env, pr: Printable, f: Filed, s: Store, ops: seq<Op>, lo: int, hi: int)
    requires Holds(pr, f, s) && StoreOk(env, s) && Fits(env, s, lo, hi, Run(env, s, ops).ticks)
    requires forall op :: op in ops ==> OpFits(op)
    ensures Holds(pr, RunIn(env, pr, f, ops), Run(env, s, ops))
  {
    if ops != [] {
      var init, op := ops[..|ops| - 1], ops[|ops| - 1];
      var s1 := Run(env, s, init);
      StepTicks(env, s1, op);
      RunHolds(env, pr, f, s, init, lo, hi);
      BoundedHashes(env, lo, hi);
      RunKeepsStoreOk(env, s, init);
      RunFits(env, s, init, lo, hi);
      FitsReads(env, pr, s1, lo, hi, Step(env, s1, op).ticks);
      StepHolds(env, pr, RunIn(env, pr, f, init), s1, op, lo, hi);
    }
  }

  lemma BoundedHashes(env: Env, lo: int, hi: int)
    requires Bounded(env, lo, hi)
    ensures HashesAll(env)
  {
    forall c ensures env.sha(c) != NO_HASH { assert |env.sha(c)| == HASH_LENGTH; }
  }

  /** A project before salvager saw it: no log files. */
  function Unlogged(disk: map<Path, Bytes>): Filed { Filed(disk, map[], map[], 0) }

  /** Over every run with a 64-bit clock: the file each log was written to line by
      line, and rewritten by collections, is there exactly when the log is, holds one
      line for each revision, and reads back complete and as the log; what the program
      reads in all its files is the store of `StoreModel` after the same run. */
  lemma ReachableLogsReadBack(env: Env, pr: Printable, disk: map<Path, Bytes>, ops: seq<Op>, p: Path, lo: int, hi: int)
    requires Bounded(env, lo, hi) && MIN_INT64 <= lo && hi + Run(env, Untracked(disk), ops).ticks <= MAX_INT64
    requires (forall q :: q in disk ==> SizeFits(disk[q])) && (forall op :: op in ops ==> OpFits(op))
    ensures var f, s := RunIn(env, pr, Unlogged(disk), ops), Run(env, Untracked(disk), ops);
            && FileOf(f, p) == Rewritten(pr, LogOf(s, p))
            && ReadLog(FileOf(f, p)) == Reading(LogOf(s, p), true)
            && Parsed(f) == s
  {
    var f, s := RunIn(env, pr, Unlogged(disk), ops), Run(env, Untracked(disk), ops);
    RunHolds(env, pr, Unlogged(disk), Untracked(disk), ops, lo, hi);
    BoundedHashes(env, lo, hi);
    RunKeepsStoreOk(env, Untracked(disk), ops);
    RunFits(env, Untracked(disk), ops, lo, hi);
    FitsReads(env, pr, s, lo, hi, s.ticks);
    ReadsLog(pr, f, s, p);
    ParsedIs(pr, f, s);
    assert p in f.files.Keys <==> p in s.logs.Keys;
  }
}
