/** The store as a state and the effect of each of its operations on it
    (store.go). The class in FileStore.dfy carries the operations out step by
    step and is proved to have exactly these effects. */
module StoreModel {
  import opened Base
  import opened Ordering
  import opened ContentSignal

  /** What the store is run in: a clock whose n-th reading is clock(n), with no
      promise of going forward; the content hash; the configured size cap. */
  datatype Env = Env(clock: nat -> int, sha: Bytes -> Hash, maxFileBytes: int)

  const DEFAULT_MAX_FILE_BYTES := 50 * 1024 * 1024

  function MaxBytes(env: Env): int {
    if env.maxFileBytes == 0 then DEFAULT_MAX_FILE_BYTES
    else if env.maxFileBytes < 0 then MAX_INT64
    else env.maxFileBytes
  }

  /** No content hashes to the empty string. */
  ghost predicate HashesAll(env: Env) {
    forall a :: env.sha(a) != NO_HASH
  }

  /** The hash never collides and is never the empty string. */
  ghost predicate ValidEnv(env: Env) {
    && (forall a, b :: env.sha(a) == env.sha(b) ==> a == b)
    && HashesAll(env)
  }

  /** The working tree, the logs, the objects, and how often the clock was read. */
  datatype Store = Store(
    disk: map<Path, Bytes>,
    logs: map<Path, seq<Revision>>,
    objects: map<Hash, Bytes>,
    ticks: nat)

  function LogOf(s: Store, p: Path): seq<Revision> {
    if p in s.logs then s.logs[p] else []
  }

  // Recording

  /** The appended timestamp: now, pushed past the newest revision's. */
  function NextTs(now: int, log: seq<Revision>): int {
    if log != [] && now <= log[|log| - 1].ts then log[|log| - 1].ts + 1 else now
  }

  function AppendLog(env: Env, s: Store, p: Path, kind: Label, hash: Hash, sig: Signal): Store {
    var log := LogOf(s, p);
    s.(logs := s.logs[p := log + [Revision(NextTs(env.clock(s.ticks), log), hash, kind, sig)]],
       ticks := s.ticks + 1)
  }

  /** An object already present is left alone: dedup by existence. */
  function PlaceObject(env: Env, s: Store, content: Bytes): Store {
    if env.sha(content) in s.objects then s
    else s.(objects := s.objects[env.sha(content) := content])
  }

  function Record(env: Env, s: Store, p: Path, force: Option<Label>): Store {
    var last := Last(LogOf(s, p));
    if p !in s.disk then
      if force.Some? then
        AppendLog(env, s, p, force.value, if last.Some? then last.value.hash else NO_HASH, WholeSignal([], last))
      else if last.None? || last.value.kind.Delete? then s
      else AppendLog(env, s, p, Delete, last.value.hash, WholeSignal([], last))
    else
      var content := s.disk[p];
      if force.None? && |content| > MaxBytes(env) then s
      else
        var hash := env.sha(content);
        var s1 := PlaceObject(env, s, content);
        if force.None? && last.Some? && last.value.hash == hash && !last.value.kind.Delete? then s1
        else
          var kind := if force.Some? then force.value else if last.Some? then Modify else FirstSeen;
          AppendLog(env, s1, p, kind, hash, StreamedSignal(content, last))
  }

  // Restoring one file

  function Find(log: seq<Revision>, ts: int): Option<Revision> {
    if log == [] then None
    else if log[0].ts == ts then Some(log[0])
    else Find(log[1..], ts)
  }

  /** pre is the safeguard's timestamp, None when the restore failed. */
  datatype Restoration = Restoration(store: Store, pre: Option<int>)

  function RestoreTo(env: Env, s: Store, p: Path, ts: int): Restoration {
    match Find(LogOf(s, p), ts)
    case None => Restoration(s, None)
    case Some(target) =>
      var s1 := Record(env, s, p, Some(PreRestore));
      var pre := Last(LogOf(s1, p));
      var preTs := if pre.Some? then Some(pre.value.ts) else None;
      if target.kind.Delete? then
        var s2 := s1.(disk := s1.disk - {p});
        Restoration(AppendLog(env, s2, p, Label.Restore, target.hash, WholeSignal([], pre)), preTs)
      else if target.hash !in s1.objects then Restoration(s1, None)
      else
        var content := s1.objects[target.hash];
        var s2 := s1.(disk := s1.disk[p := content]);
        Restoration(AppendLog(env, s2, p, Label.Restore, target.hash, WholeSignal(content, pre)), preTs)
  }

  // Restoring a subtree

  predicate UnderDir(p: Path, dir: Path) {
    dir == "" || dir == "." || p == dir || dir + "/" <= p
  }

  function PathKey(p: Path): Key { Key(0, p) }

  ghost function AnyOrder<T>(ps: set<T>): (r: seq<T>)
    ensures multiset(r) == multiset(ps)
  {
    if ps == {} then []
    else
      var p :| p in ps;
      [p] + AnyOrder(ps - {p})
  }

  /** The tracked paths in the order a batch visits them. */
  ghost function InOrder(ps: set<Path>): seq<Path> {
    Sort(PathKey, AnyOrder(ps))
  }

  /** The newest revision at or before atMs. */
  function PickAt(log: seq<Revision>, atMs: int): Option<Revision> {
    if log == [] then None
    else if log[|log| - 1].ts <= atMs then Some(log[|log| - 1])
    else PickAt(log[..|log| - 1], atMs)
  }

  datatype Action = Restored | Unchanged | SkippedNoRevision | SkippedDeletion
  datatype FileResult = FileResult(path: Path, restoredTo: int, preRestore: int, action: Action)
  datatype Progress = Progress(store: Store, results: seq<FileResult>, maxPre: int, failed: bool)

  function Restarted(g: Progress, p: Path, target: Revision, r: Restoration): Progress {
    if r.pre.None? then g.(store := r.store, failed := true)
    else Progress(r.store, g.results + [FileResult(p, target.ts, r.pre.value, Restored)],
                  if r.pre.value > g.maxPre then r.pre.value else g.maxPre, false)
  }

  function RestoreFile(env: Env, g: Progress, p: Path, atMs: int): Progress {
    match PickAt(LogOf(g.store, p), atMs)
    case None => g.(results := g.results + [FileResult(p, 0, 0, SkippedNoRevision)])
    case Some(target) =>
      if target.kind.Delete? then
        var action := if p in g.store.disk then SkippedDeletion else Unchanged;
        g.(results := g.results + [FileResult(p, target.ts, 0, action)])
      else if p in g.store.disk && env.sha(g.store.disk[p]) == target.hash then
        g.(results := g.results + [FileResult(p, target.ts, 0, Unchanged)])
      else
        Restarted(g, p, target, RestoreTo(env, g.store, p, target.ts))
  }

  function RestoreFiles(env: Env, s: Store, ps: seq<Path>, dir: Path, atMs: int): Progress {
    if ps == [] then Progress(s, [], 0, false)
    else
      var g := RestoreFiles(env, s, ps[..|ps| - 1], dir, atMs);
      if g.failed || !UnderDir(ps[|ps| - 1], dir) then g
      else RestoreFile(env, g, ps[|ps| - 1], atMs)
  }

  datatype Batch = Batch(store: Store, start: int, end: int, results: seq<FileResult>, failed: bool)

  function Tick(s: Store): Store { s.(ticks := s.ticks + 1) }

  ghost function RestoreAt(env: Env, s: Store, dir: Path, atMs: int): Batch {
    var start := env.clock(s.ticks);
    var g := RestoreFiles(env, Tick(s), InOrder(s.logs.Keys), dir, atMs);
    var now := env.clock(g.store.ticks);
    Batch(Tick(g.store), start, if g.maxPre > now then g.maxPre else now, g.results, g.failed)
  }

  lemma RestoreFilesNext(env: Env, s: Store, ps: seq<Path>, i: nat, dir: Path, atMs: int)
    requires i < |ps|
    ensures var g := RestoreFiles(env, s, ps[..i], dir, atMs);
            RestoreFiles(env, s, ps[..i + 1], dir, atMs)
            == if g.failed || !UnderDir(ps[i], dir) then g else RestoreFile(env, g, ps[i], atMs)
  {
    assert ps[..i + 1][..i] == ps[..i];
  }

  // Undoing a batch

  /** The newest pre-restore in the window. */
  function PreRestoreIn(log: seq<Revision>, start: int, end: int): Option<Revision> {
    if log == [] then None
    else
      var r := log[|log| - 1];
      if r.kind.PreRestore? && start <= r.ts <= end then Some(r)
      else PreRestoreIn(log[..|log| - 1], start, end)
  }

  function UndoFile(env: Env, g: Progress, p: Path, start: int, end: int): Progress {
    match PreRestoreIn(LogOf(g.store, p), start, end)
    case None => g
    case Some(target) => Restarted(g, p, target, RestoreTo(env, g.store, p, target.ts))
  }

  function UndoFiles(env: Env, s: Store, ps: seq<Path>, dir: Path, start: int, end: int): Progress {
    if ps == [] then Progress(s, [], 0, false)
    else
      var g := UndoFiles(env, s, ps[..|ps| - 1], dir, start, end);
      if g.failed || !UnderDir(ps[|ps| - 1], dir) then g
      else UndoFile(env, g, ps[|ps| - 1], start, end)
  }

  ghost function UndoRestoreAt(env: Env, s: Store, dir: Path, start: int, end: int): Progress {
    UndoFiles(env, s, InOrder(s.logs.Keys), dir, start, end)
  }

  // Reading

  datatype GetResult = NoRevision | IsDeletion | MissingObject | Content(bytes: Bytes)

  function Get(s: Store, p: Path, ts: int): GetResult {
    match Find(LogOf(s, p), ts)
    case None => NoRevision
    case Some(r) =>
      if r.kind.Delete? then IsDeletion
      else if r.hash in s.objects then Content(s.objects[r.hash])
      else MissingObject
  }

  // What every reachable store satisfies

  /** What an append guarantees about a revision and its predecessor. */
  ghost predicate StepOk(prev: Revision, r: Revision) {
    && prev.ts < r.ts
    && !r.kind.FirstSeen?
    && (r.kind.Delete? ==> !prev.kind.Delete? && r.hash == prev.hash)
    && (r.kind.Modify? && r.hash == prev.hash ==> prev.kind.Delete?)
    && (r.signal.Signal? && r.signal.delta.Some? ==>
          prev.signal.Signal? && r.signal.delta.value == r.signal.lines - prev.signal.lines)
  }

  ghost predicate LogOk(log: seq<Revision>) {
    && (forall i :: 0 <= i < |log| ==> log[i].hash != NO_HASH)
    && (forall i :: 0 < i < |log| ==> StepOk(log[i - 1], log[i]))
  }

  ghost predicate StoreOk(env: Env, s: Store) {
    && (forall p :: p in s.logs ==> s.logs[p] != [] && LogOk(s.logs[p]))
    && (forall p, i :: p in s.logs && 0 <= i < |s.logs[p]| ==> s.logs[p][i].hash in s.objects)
    && (forall h :: h in s.objects ==> env.sha(s.objects[h]) == h)
  }

  lemma {:induction false} Increasing(log: seq<Revision>, i: nat, j: nat)
    requires LogOk(log) && i < j < |log|
    ensures log[i].ts < log[j].ts
  {
    assert StepOk(log[j - 1], log[j]);
    if i < j - 1 { Increasing(log, i, j - 1); }
  }

  /** A timestamp addresses one revision: Find is the inverse of the index. */
  lemma {:induction false} FindAddresses(log: seq<Revision>, k: nat)
    requires LogOk(log) && k < |log|
    ensures Find(log, log[k].ts) == Some(log[k])
  {
    if k > 0 {
      Increasing(log, 0, k);
      SuffixOk(log, 1);
      FindAddresses(log[1..], k - 1);
    }
  }

  lemma {:induction false} FindSound(log: seq<Revision>, ts: int)
    ensures Find(log, ts).Some? ==> Find(log, ts).value in log && Find(log, ts).value.ts == ts
    ensures Find(log, ts).None? ==> forall i :: 0 <= i < |log| ==> log[i].ts != ts
  {
    if log != [] { FindSound(log[1..], ts); }
  }

  lemma SuffixOk(log: seq<Revision>, k: nat)
    requires LogOk(log) && k <= |log|
    ensures LogOk(log[k..])
  {
    forall i | 0 < i < |log[k..]| ensures StepOk(log[k..][i - 1], log[k..][i]) {
      assert StepOk(log[k + i - 1], log[k + i]);
    }
  }

  lemma AppendLogOk(env: Env, s: Store, p: Path, kind: Label, hash: Hash, sig: Signal)
    requires StoreOk(env, s) && hash in s.objects && hash != NO_HASH
    requires LogOf(s, p) != [] ==>
               StepOk(LogOf(s, p)[|LogOf(s, p)| - 1],
                      Revision(NextTs(env.clock(s.ticks), LogOf(s, p)), hash, kind, sig))
    ensures StoreOk(env, AppendLog(env, s, p, kind, hash, sig))
  {
    var log := LogOf(s, p);
    var s' := AppendLog(env, s, p, kind, hash, sig);
    forall q, i | q in s'.logs && 0 <= i < |s'.logs[q]| ensures s'.logs[q][i].hash in s'.objects {
      if q == p && i == |log| {} else { assert q in s.logs && s'.logs[q][i] == s.logs[q][i]; }
    }
    forall i | 0 < i < |s'.logs[p]| ensures StepOk(s'.logs[p][i - 1], s'.logs[p][i]) {
      if i < |log| { assert StepOk(log[i - 1], log[i]); }
    }
    forall q | q in s'.logs ensures s'.logs[q] != [] && LogOk(s'.logs[q]) {
      if q != p { assert s'.logs[q] == s.logs[q]; }
    }
  }

  lemma PlaceObjectOk(env: Env, s: Store, content: Bytes)
    requires StoreOk(env, s)
    ensures StoreOk(env, PlaceObject(env, s, content))
    ensures env.sha(content) in PlaceObject(env, s, content).objects
    ensures ValidEnv(env) ==> PlaceObject(env, s, content).objects[env.sha(content)] == content
  {
  }

  lemma RecordOk(env: Env, s: Store, p: Path, force: Option<Label>)
    requires HashesAll(env) && StoreOk(env, s)
    requires force == None || (force == Some(PreRestore) && LogOf(s, p) != [])
    ensures StoreOk(env, Record(env, s, p, force))
  {
    var log := LogOf(s, p);
    if log != [] {
      assert s.logs[p][|log| - 1].hash in s.objects;
      assert LogOk(log);
    }
    if p in s.disk {
      var content := s.disk[p];
      var s1 := PlaceObject(env, s, content);
      PlaceObjectOk(env, s, content);
      assert LogOf(s1, p) == log;
      if Record(env, s, p, force) != s && Record(env, s, p, force) != s1 {
        var kind := if force.Some? then force.value else if log != [] then Modify else FirstSeen;
        AppendLogOk(env, s1, p, kind, env.sha(content), StreamedSignal(content, Last(log)));
      }
    } else if force.Some? {
      AppendLogOk(env, s, p, force.value, log[|log| - 1].hash, WholeSignal([], Last(log)));
    } else if log != [] && !log[|log| - 1].kind.Delete? {
      AppendLogOk(env, s, p, Delete, log[|log| - 1].hash, WholeSignal([], Last(log)));
    }
  }

  lemma RestoreOk(env: Env, s: Store, p: Path, ts: int)
    requires HashesAll(env) && StoreOk(env, s)
    ensures StoreOk(env, RestoreTo(env, s, p, ts).store)
  {
    var log := LogOf(s, p);
    FindSound(log, ts);
    if Find(log, ts).Some? {
      var target := Find(log, ts).value;
      var s1 := Record(env, s, p, Some(PreRestore));
      RecordOk(env, s, p, Some(PreRestore));
      var k :| 0 <= k < |log| && log[k] == target;
      assert s.logs[p][k].hash in s.objects && target.hash in s1.objects;
      assert LogOk(log);
      var pre := Last(LogOf(s1, p));
      if target.kind.Delete? {
        AppendLogOk(env, s1.(disk := s1.disk - {p}), p, Label.Restore, target.hash, WholeSignal([], pre));
      } else {
        var content := s1.objects[target.hash];
        AppendLogOk(env, s1.(disk := s1.disk[p := content]), p, Label.Restore, target.hash, WholeSignal(content, pre));
      }
    }
  }

  lemma {:induction false} RestoreFilesOk(env: Env, s: Store, ps: seq<Path>, dir: Path, atMs: int)
    requires HashesAll(env) && StoreOk(env, s)
    ensures StoreOk(env, RestoreFiles(env, s, ps, dir, atMs).store)
  {
    if ps != [] {
      RestoreFilesOk(env, s, ps[..|ps| - 1], dir, atMs);
      RestoreFileOk(env, RestoreFiles(env, s, ps[..|ps| - 1], dir, atMs), ps[|ps| - 1], atMs);
    }
  }

  lemma RestoreFileOk(env: Env, g: Progress, p: Path, atMs: int)
    requires HashesAll(env) && StoreOk(env, g.store)
    ensures StoreOk(env, RestoreFile(env, g, p, atMs).store)
  {
    var pick := PickAt(LogOf(g.store, p), atMs);
    if pick.Some? { RestoreOk(env, g.store, p, pick.value.ts); }
  }

  lemma {:induction false} UndoFilesOk(env: Env, s: Store, ps: seq<Path>, dir: Path, start: int, end: int)
    requires HashesAll(env) && StoreOk(env, s)
    ensures StoreOk(env, UndoFiles(env, s, ps, dir, start, end).store)
  {
    if ps != [] {
      UndoFilesOk(env, s, ps[..|ps| - 1], dir, start, end);
      var g := UndoFiles(env, s, ps[..|ps| - 1], dir, start, end);
      var p := ps[|ps| - 1];
      var pick := PreRestoreIn(LogOf(g.store, p), start, end);
      if pick.Some? { RestoreOk(env, g.store, p, pick.value.ts); }
    }
  }

  // Other files

  ghost predicate SameOnDisk(s: Store, s': Store, q: Path) {
    (q in s'.disk <==> q in s.disk) && (q in s.disk ==> s'.disk[q] == s.disk[q])
  }

  ghost predicate OthersUntouched(s: Store, s': Store, p: Path) {
    forall q :: q != p ==> LogOf(s', q) == LogOf(s, q) && SameOnDisk(s, s', q)
  }

  lemma SameFilesElsewhere(s: Store, s': Store, p: Path)
    requires OthersUntouched(s, s', p)
    ensures forall q :: q != p ==> (q in s'.disk <==> q in s.disk)
  {
    forall q | q != p ensures q in s'.disk <==> q in s.disk { assert SameOnDisk(s, s', q); }
  }

  lemma RecordTouchesOnly(env: Env, s: Store, p: Path, force: Option<Label>)
    ensures OthersUntouched(s, Record(env, s, p, force), p)
  {
  }

  lemma RestoreTouchesOnly(env: Env, s: Store, p: Path, ts: int)
    ensures OthersUntouched(s, RestoreTo(env, s, p, ts).store, p)
  {
    var s1 := Record(env, s, p, Some(PreRestore));
    var s' := RestoreTo(env, s, p, ts).store;
    RecordTouchesOnly(env, s, p, Some(PreRestore));
    forall q | q != p ensures LogOf(s', q) == LogOf(s, q) && SameOnDisk(s, s', q) {
      assert LogOf(s1, q) == LogOf(s, q) && SameOnDisk(s, s1, q);
    }
  }

  // Agreement with the working tree

  /** The newest revision is what is on disk: that content, or its absence. */
  ghost predicate AgreesWithDisk(env: Env, s: Store, p: Path) {
    var log := LogOf(s, p);
    if p in s.disk then
      log != [] && log[|log| - 1].hash == env.sha(s.disk[p]) && !log[|log| - 1].kind.Delete?
    else log == [] || log[|log| - 1].kind.Delete?
  }

  /** p, if on disk within the cap, is what its newest revision says. */
  ghost predicate Held(env: Env, s: Store, p: Path) {
    p in s.disk && |s.disk[p]| <= MaxBytes(env) ==> AgreesWithDisk(env, s, p)
  }

  /** Recording a file within the size cap makes its newest revision agree with
      disk and touches no other file. */
  lemma RecordAgrees(env: Env, s: Store, p: Path)
    ensures var s' := Record(env, s, p, None);
            && (p !in s.disk || |s.disk[p]| <= MaxBytes(env) ==> AgreesWithDisk(env, s', p))
            && s'.disk == s.disk
            && (forall q :: q != p ==> LogOf(s', q) == LogOf(s, q))
  {
  }

  /** Exactly when the newest revision agrees after a Record: the file is absent,
      within the cap, or agreed before. */
  lemma RecordAgreesExactly(env: Env, s: Store, p: Path)
    ensures AgreesWithDisk(env, Record(env, s, p, None), p)
            <==> p !in s.disk || |s.disk[p]| <= MaxBytes(env) || AgreesWithDisk(env, s, p)
  {
  }

  /** A file over the cap that has changed is not captured, however often it is
      recorded. */
  lemma OverTheCapIsMissed(env: Env, s: Store, p: Path, c: Bytes)
    requires ValidEnv(env) && |c| > MaxBytes(env)
    requires LogOf(s, p) == [] || LogOf(s, p)[|LogOf(s, p)| - 1].hash != env.sha(c)
    ensures var changed := s.(disk := s.disk[p := c]);
            Record(env, changed, p, None) == changed && !AgreesWithDisk(env, changed, p)
  {
  }

  /** The forced safeguard describes the disk exactly when the file is there: that
      of an absent file carries a content all the same. */
  lemma SafeguardAgreesExactly(env: Env, s: Store, p: Path)
    ensures AgreesWithDisk(env, Record(env, s, p, Some(PreRestore)), p) <==> p in s.disk
  {
    var s' := Record(env, s, p, Some(PreRestore));
    var log := LogOf(s', p);
    assert s'.disk == s.disk && log != [] && log[|log| - 1].kind.PreRestore?;
    if p in s.disk { assert log[|log| - 1].hash == env.sha(s.disk[p]); }
  }
}
