/** The store as the object the rest of the program holds (store.go FS): each
    operation works on the fields step by step and has exactly the effect
    StoreModel and Retention give it. Every call below runs under the write lock
    (Get under the read lock); LockProtocol.dfy is about that lock. */
module FileStores {
  import opened Base
  import opened Ordering
  import opened ContentSignal
  import opened StoreModel
  import opened Retention
  import opened RetentionLaws
  import opened Collector

  const BUF_SIZE := 128 * 1024

  lemma RestoreAtIs(env: Env, s: Store, dir: Path, atMs: int, paths: seq<Path>, g: Progress)
    requires paths == InOrder(s.logs.Keys) && g == RestoreFiles(env, Tick(s), paths, dir, atMs)
    ensures var now := env.clock(g.store.ticks);
            RestoreAt(env, s, dir, atMs)
            == Batch(Tick(g.store), env.clock(s.ticks), if g.maxPre > now then g.maxPre else now, g.results, g.failed)
  {
  }

  lemma {:induction false} FailureSticks(env: Env, s: Store, ps: seq<Path>, i: nat, dir: Path, atMs: int)
    requires i <= |ps| && RestoreFiles(env, s, ps[..i], dir, atMs).failed
    ensures RestoreFiles(env, s, ps, dir, atMs) == RestoreFiles(env, s, ps[..i], dir, atMs)
  {
    if i == |ps| {
      assert ps[..i] == ps;
    } else {
      assert ps[..|ps| - 1][..i] == ps[..i];
      FailureSticks(env, s, ps[..|ps| - 1], i, dir, atMs);
    }
  }

  lemma {:induction false} UndoFailureSticks(env: Env, s: Store, ps: seq<Path>, i: nat, dir: Path, start: int, end: int)
    requires i <= |ps| && UndoFiles(env, s, ps[..i], dir, start, end).failed
    ensures UndoFiles(env, s, ps, dir, start, end) == UndoFiles(env, s, ps[..i], dir, start, end)
  {
    if i == |ps| {
      assert ps[..i] == ps;
    } else {
      assert ps[..|ps| - 1][..i] == ps[..i];
      UndoFailureSticks(env, s, ps[..|ps| - 1], i, dir, start, end);
    }
  }

  /** logs with the listed files' logs replaced. */
  ghost function Replaced(logs: Logs, ps: seq<Path>, goal: Logs): Logs
    requires forall p :: p in ps ==> p in goal
  {
    if ps == [] then logs
    else Replaced(logs, ps[..|ps| - 1], goal)[ps[|ps| - 1] := goal[ps[|ps| - 1]]]
  }

  /** The hashes the listed files name. */
  ghost function NamedIn(ps: seq<Path>, goal: Logs): set<Hash>
    requires forall p :: p in ps ==> p in goal
  {
    if ps == [] then {} else NamedIn(ps[..|ps| - 1], goal) + HashSet(goal[ps[|ps| - 1]])
  }

  /** The files ps are pruned to the goal, and their hashes noted. */
  ghost predicate Pruning(logs: Logs, referenced: set<Hash>, before: Logs, ps: seq<Path>, goal: Logs) {
    && (forall p :: p in ps ==> p in goal)
    && logs == Replaced(before, ps, goal) && referenced == NamedIn(ps, goal)
  }

  lemma {:induction false} ReplacedAt(logs: Logs, ps: seq<Path>, goal: Logs, q: Path)
    requires forall p :: p in ps ==> p in goal
    ensures var r := Replaced(logs, ps, goal);
            && (q in r <==> q in logs || q in ps)
            && (q in ps ==> r[q] == goal[q])
            && (q in logs && q !in ps ==> r[q] == logs[q])
  {
    if ps != [] { ReplacedAt(logs, ps[..|ps| - 1], goal, q); }
  }

  lemma {:induction false} NamedInHas(ps: seq<Path>, goal: Logs, h: Hash)
    requires forall p :: p in ps ==> p in goal
    ensures h in NamedIn(ps, goal) <==> exists p :: p in ps && h in HashSet(goal[p])
  {
    if ps != [] { NamedInHas(ps[..|ps| - 1], goal, h); }
  }

  lemma NextPath(paths: seq<Path>, i: nat)
    requires Distinct(paths) && i < |paths|
    ensures paths[i] !in paths[..i] && paths[..i + 1] == paths[..i] + [paths[i]]
  {
  }

  /** goal is what is left of each log once these indices are dropped. */
  ghost predicate PrunesTo(logs: Logs, drops: map<Path, set<int>>, goal: Logs) {
    && goal.Keys == logs.Keys == drops.Keys
    && (forall p :: p in logs ==> goal[p] == Without(logs[p], drops[p]) && goal[p] != [])
  }

  ghost function AgeDrops(logs: Logs, cutoff: int): map<Path, set<int>> {
    map p | p in logs :: TooOld(logs[p], cutoff)
  }

  ghost function EvictionDrops(logs: Logs, removed: map<Path, set<int>>): map<Path, set<int>> {
    map p | p in logs :: RemovedAt(logs[p], RemovedFrom(removed, p))
  }

  lemma AgePrunes(logs: Logs, cutoff: int)
    requires LogsOk(logs)
    ensures PrunesTo(logs, AgeDrops(logs, cutoff), AgePruned(logs, cutoff))
  {
    forall p | p in logs ensures AgeKept(logs[p], cutoff) != [] {
      AgeKeptIsSuffix(logs[p], cutoff);
    }
  }

  lemma EvictedFile(logs: Logs, us: seq<Unit>, k: nat, removed: map<Path, set<int>>, p: Path)
    requires LogsOk(logs) && k <= |Units(logs)| && us == Units(logs)[..k] && Marks(removed, Flatten(us)) && p in logs
    ensures LogsAfter(logs, us)[p] == Without(logs[p], EvictionDrops(logs, removed)[p]) != []
  {
    assert RemovedFrom(removed, p) == Removed(us, p);
    LogsAfterPrefix(logs, k, p);
  }

  lemma EvictionPrunes(logs: Logs, us: seq<Unit>, k: nat, removed: map<Path, set<int>>)
    requires LogsOk(logs) && k <= |Units(logs)| && us == Units(logs)[..k] && Marks(removed, Flatten(us))
    ensures PrunesTo(logs, EvictionDrops(logs, removed), LogsAfter(logs, us))
  {
    forall p | p in logs { EvictedFile(logs, us, k, removed, p); }
  }

  lemma IsGC(env: Env, s: Store, s': Store, maxAge: int, cutoff: int, goal: Logs, referenced: set<Hash>)
    requires cutoff == env.clock(s.ticks) - maxAge
    requires goal == AgePruned(s.logs, cutoff) && referenced == Referenced(goal)
    requires s'.disk == s.disk && s'.ticks == s.ticks + 1
    requires s'.logs == goal && s'.objects == KeepObjects(s.objects, referenced)
    ensures s' == GC(env, s, maxAge)
  {
  }

  lemma IsGCWithinBudget(s: Store, maxBytes: int, total: int)
    requires total == SizeOf(s.objects, Referenced(s.logs)) <= maxBytes
    ensures SizeGC(s, total) == GCBySize(s, maxBytes)
  {
  }

  lemma IsGCBySize(s: Store, maxBytes: int, k: nat, us: seq<Unit>, final: int, goal: Logs)
    requires SizeOf(s.objects, Referenced(s.logs)) > maxBytes
    requires k == EvictCount(s, Units(s.logs), maxBytes, 0) && us == Units(s.logs)[..k] && final == SizeAfter(s, us)
    requires goal == LogsAfter(s.logs, us)
    ensures GCBySize(s, maxBytes) == SizeGC(Swept(s, goal), final)
  {
  }

  lemma ReplacedAll(logs: Logs, ps: seq<Path>, goal: Logs)
    requires goal.Keys == logs.Keys && forall p :: p in logs <==> p in ps
    ensures Replaced(logs, ps, goal) == goal && NamedIn(ps, goal) == Referenced(goal)
  {
    var r := Replaced(logs, ps, goal);
    forall q ensures (q in r <==> q in goal) && (q in goal ==> r[q] == goal[q]) { ReplacedAt(logs, ps, goal, q); }
    forall h ensures h in NamedIn(ps, goal) <==> h in Referenced(goal) {
      NamedInHas(ps, goal, h);
      if h in Referenced(goal) {
        var p, j :| p in goal && 0 <= j < |goal[p]| && goal[p][j].hash == h;
        assert p in ps && h in HashSet(goal[p]);
      }
      if p :| p in ps && h in HashSet(goal[p]) {
        var j :| 0 <= j < |goal[p]| && goal[p][j].hash == h;
        ReferencedIntro(goal, p, j);
      }
    }
  }

  class FileStore {
    const env: Env
    var disk: map<Path, Bytes>
    var logs: map<Path, seq<Revision>>
    var objects: map<Hash, Bytes>
    var ticks: nat

    function Snapshot(): Store
      reads this
    {
      Store(disk, logs, objects, ticks)
    }

    constructor (env: Env, disk: map<Path, Bytes>)
      ensures this.env == env && Snapshot() == Store(disk, map[], map[], 0)
    {
      this.env, this.disk := env, disk;
      logs, objects, ticks := map[], map[], 0;
    }

    method Now() returns (now: int)
      modifies this`ticks
      ensures now == env.clock(old(ticks)) && ticks == old(ticks) + 1
    {
      now := env.clock(ticks);
      ticks := ticks + 1;
    }

    function ReadLog(p: Path): (revs: seq<Revision>)
      reads this
      ensures revs == LogOf(Snapshot(), p)
    {
      if p in logs then logs[p] else []
    }

    method AppendLog(p: Path, kind: Label, hash: Hash, sig: Signal)
      modifies this`logs, this`ticks
      ensures Snapshot() == StoreModel.AppendLog(env, old(Snapshot()), p, kind, hash, sig)
    {
      var ts := Now();
      var revs := ReadLog(p);
      if |revs| > 0 && ts <= revs[|revs| - 1].ts {
        ts := revs[|revs| - 1].ts + 1;
      }
      logs := logs[p := revs + [Revision(ts, hash, kind, sig)]];
    }

    /** One pass over the source in chunks of whatever size the reads return. */
    method CaptureStream(src: Bytes, last: Option<Revision>) returns (hash: Hash, sig: Signal)
      modifies this`objects
      ensures Snapshot() == PlaceObject(env, old(Snapshot()), src)
      ensures hash == env.sha(src) && sig == StreamedSignal(src, last)
    {
      var tmp: Bytes := [];
      var ctr := new LineByteCounter();
      var pre := new PrefixSink(SIG_SCAN_LIMIT);
      var pos := 0;
      while pos < |src|
        invariant 0 <= pos <= |src| && tmp == src[..pos]
        invariant fresh(ctr) && fresh(pre) && ctr.Valid() && pre.Valid() && ctr.seen == pre.seen == tmp
        invariant Snapshot() == old(Snapshot())
      {
        var n :| 1 <= n <= BUF_SIZE && pos + n <= |src|;
        var chunk := src[pos..pos + n];
        assert src[..pos + n] == src[..pos] + chunk;
        tmp := tmp + chunk;
        ctr.Write(chunk);
        pre.Write(chunk);
        pos := pos + n;
      }
      assert src[..pos] == src;
      hash := env.sha(tmp);
      if hash !in objects {
        objects := objects[hash := tmp];
      }
      sig := SignalFromStream(ctr, pre, last);
    }

    method RecordFile(p: Path, force: Option<Label>)
      modifies this
      ensures Snapshot() == StoreModel.Record(env, old(Snapshot()), p, force)
    {
      var last := Last(ReadLog(p));
      if p !in disk {
        if force.Some? {
          AppendLog(p, force.value, if last.Some? then last.value.hash else NO_HASH, WholeSignal([], last));
          return;
        }
        if last.None? || last.value.kind.Delete? { return; }
        AppendLog(p, Delete, last.value.hash, WholeSignal([], last));
        return;
      }
      if force.None? && |disk[p]| > MaxBytes(env) { return; }
      var hash, sig := CaptureStream(disk[p], last);
      if force.None? && last.Some? && last.value.hash == hash && !last.value.kind.Delete? { return; }
      var kind: Label;
      if force.Some? { kind := force.value; }
      else if last.Some? { kind := Modify; }
      else { kind := FirstSeen; }
      AppendLog(p, kind, hash, sig);
    }

    method Record(p: Path)
      modifies this
      ensures Snapshot() == StoreModel.Record(env, old(Snapshot()), p, None)
    {
      RecordFile(p, None);
    }

    method RestoreLocked(p: Path, ts: int) returns (preTs: Option<int>)
      modifies this
      ensures Restoration(Snapshot(), preTs) == RestoreTo(env, old(Snapshot()), p, ts)
    {
      var revs := ReadLog(p);
      var target: Option<Revision> := None;
      var i := 0;
      while i < |revs|
        invariant 0 <= i <= |revs| && target == None
        invariant Find(revs, ts) == Find(revs[i..], ts)
      {
        if revs[i].ts == ts {
          target := Some(revs[i]);
          break;
        }
        assert revs[i..][1..] == revs[i + 1..];
        i := i + 1;
      }
      assert target == Find(revs, ts);
      if target.None? { return None; }

      RecordFile(p, Some(PreRestore));
      var pre := Last(ReadLog(p));
      preTs := if pre.Some? then Some(pre.value.ts) else None;
      if target.value.kind.Delete? {
        disk := disk - {p};
        AppendLog(p, Label.Restore, target.value.hash, WholeSignal([], pre));
        return;
      }
      if target.value.hash !in objects { return None; }
      var content := objects[target.value.hash];
      disk := disk[p := content];
      AppendLog(p, Label.Restore, target.value.hash, WholeSignal(content, pre));
    }

    /** Every tracked path, sorted. */
    method AllLogs() returns (paths: seq<Path>)
      ensures paths == InOrder(logs.Keys)
      ensures forall i :: 0 <= i < |paths| ==> paths[i] in logs
    {
      paths := SortedPaths(logs.Keys);
      SortSorts(PathKey, AnyOrder(logs.Keys));
      EnumerationIsDistinct(paths, logs.Keys);
    }

    /** One file of the batch. */
    method RestoreOneAt(p: Path, atMs: int, results0: seq<FileResult>, maxPre0: int)
      returns (results: seq<FileResult>, maxPre: int, failed: bool)
      modifies this
      ensures Progress(Snapshot(), results, maxPre, failed)
              == RestoreFile(env, Progress(old(Snapshot()), results0, maxPre0, false), p, atMs)
    {
      results, maxPre, failed := results0, maxPre0, false;
      var target := LatestAt(ReadLog(p), atMs);
      if target.None? {
        results := results + [FileResult(p, 0, 0, SkippedNoRevision)];
        return;
      }
      if target.value.kind.Delete? {
        var action := SkippedDeletion;
        if p !in disk { action := Unchanged; }
        results := results + [FileResult(p, target.value.ts, 0, action)];
        return;
      }
      if p in disk && env.sha(disk[p]) == target.value.hash {
        results := results + [FileResult(p, target.value.ts, 0, Unchanged)];
        return;
      }
      var preTs := RestoreLocked(p, target.value.ts);
      if preTs.None? {
        failed := true;
        return;
      }
      if preTs.value > maxPre { maxPre := preTs.value; }
      results := results + [FileResult(p, target.value.ts, preTs.value, Restored)];
    }

    method RestoreInDir(p: Path, dir: Path, atMs: int, results0: seq<FileResult>, maxPre0: int)
      returns (results: seq<FileResult>, maxPre: int, failed: bool)
      modifies this
      ensures var g := Progress(old(Snapshot()), results0, maxPre0, false);
              Progress(Snapshot(), results, maxPre, failed)
              == if UnderDir(p, dir) then RestoreFile(env, g, p, atMs) else g
    {
      if !UnderDir(p, dir) { return results0, maxPre0, false; }
      results, maxPre, failed := RestoreOneAt(p, atMs, results0, maxPre0);
    }

    /** The batch's files one after the other, up to the first failure. */
    method RestoreEach(paths: seq<Path>, dir: Path, atMs: int)
      returns (results: seq<FileResult>, maxPre: int, failed: bool)
      modifies this
      ensures Progress(Snapshot(), results, maxPre, failed) == RestoreFiles(env, old(Snapshot()), paths, dir, atMs)
    {
      results, maxPre, failed := [], 0, false;
      ghost var s := Snapshot();
      ghost var g := Progress(s, [], 0, false);
      var i := 0;
      while i < |paths| && !failed
        invariant 0 <= i <= |paths|
        invariant g == RestoreFiles(env, s, paths[..i], dir, atMs)
        invariant g == Progress(Snapshot(), results, maxPre, failed)
      {
        RestoreFilesNext(env, s, paths, i, dir, atMs);
        g := if UnderDir(paths[i], dir) then RestoreFile(env, g, paths[i], atMs) else g;
        results, maxPre, failed := RestoreInDir(paths[i], dir, atMs, results, maxPre);
        i := i + 1;
      }
      if failed { FailureSticks(env, s, paths, i, dir, atMs); } else { assert paths[..i] == paths; }
    }

    method RestoreAtLocked(dir: Path, atMs: int)
      returns (batchStart: int, batchEnd: int, results: seq<FileResult>, failed: bool)
      modifies this
      ensures Batch(Snapshot(), batchStart, batchEnd, results, failed) == RestoreAt(env, old(Snapshot()), dir, atMs)
    {
      ghost var s := Snapshot();
      var paths := AllLogs();
      batchStart := Now();
      assert Snapshot() == Tick(s);
      var maxPre;
      results, maxPre, failed := RestoreEach(paths, dir, atMs);
      ghost var g := Progress(Snapshot(), results, maxPre, failed);
      RestoreAtIs(env, s, dir, atMs, paths, g);
      var end := Now();
      batchEnd := if maxPre > end then maxPre else end;
    }

    /** The last revision at or before atMs, scanning oldest first. */
    static method LatestAt(revs: seq<Revision>, atMs: int) returns (target: Option<Revision>)
      ensures target == PickAt(revs, atMs)
    {
      target := None;
      for i := 0 to |revs|
        invariant target == PickAt(revs[..i], atMs)
      {
        assert revs[..i + 1][..i] == revs[..i];
        if revs[i].ts <= atMs { target := Some(revs[i]); }
      }
      assert revs[..|revs|] == revs;
    }

    static method LatestSafeguardIn(revs: seq<Revision>, start: int, end: int) returns (target: Option<Revision>)
      ensures target == PreRestoreIn(revs, start, end)
    {
      target := None;
      for i := 0 to |revs|
        invariant target == PreRestoreIn(revs[..i], start, end)
      {
        assert revs[..i + 1][..i] == revs[..i];
        if revs[i].kind.PreRestore? && revs[i].ts >= start && revs[i].ts <= end { target := Some(revs[i]); }
      }
      assert revs[..|revs|] == revs;
    }

    method UndoRestoreAt(dir: Path, batchStart: int, batchEnd: int) returns (results: seq<FileResult>, failed: bool)
      modifies this
      ensures var u := StoreModel.UndoRestoreAt(env, old(Snapshot()), dir, batchStart, batchEnd);
              Snapshot() == u.store && results == u.results && failed == u.failed
    {
      var paths := AllLogs();
      results, failed := [], false;
      ghost var s, maxPre := Snapshot(), 0;
      var i := 0;
      while i < |paths|
        invariant 0 <= i <= |paths| && !failed
        invariant UndoFiles(env, s, paths[..i], dir, batchStart, batchEnd) == Progress(Snapshot(), results, maxPre, false)
      {
        assert paths[..i + 1][..i] == paths[..i];
        var p := paths[i];
        i := i + 1;
        if !UnderDir(p, dir) { continue; }
        var target := LatestSafeguardIn(ReadLog(p), batchStart, batchEnd);
        if target.None? { continue; }
        var preTs := RestoreLocked(p, target.value.ts);
        if preTs.None? {
          failed := true;
          UndoFailureSticks(env, s, paths, i, dir, batchStart, batchEnd);
          break;
        }
        if preTs.value > maxPre { maxPre := preTs.value; }
        results := results + [FileResult(p, target.value.ts, preTs.value, Restored)];
      }
      assert failed || paths[..|paths|] == paths;
    }

    method GetLocked(p: Path, ts: int) returns (r: GetResult)
      ensures r == Get(Snapshot(), p, ts)
    {
      var revs := ReadLog(p);
      var i := 0;
      while i < |revs|
        invariant 0 <= i <= |revs|
        invariant Find(revs, ts) == Find(revs[i..], ts)
      {
        if revs[i].ts == ts {
          if revs[i].kind.Delete? { return IsDeletion; }
          if revs[i].hash in objects { return Content(objects[revs[i].hash]); }
          return MissingObject;
        }
        assert revs[i..][1..] == revs[i + 1..];
        i := i + 1;
      }
      return NoRevision;
    }

    // Collection

    method SweepUnreferenced(referenced: set<Hash>)
      modifies this`objects
      ensures objects == KeepObjects(old(objects), referenced)
    {
      var left := objects.Keys;
      while left != {}
        invariant left <= old(objects).Keys
        invariant objects == map h | h in old(objects) && (h in left || h in referenced) :: old(objects)[h]
        decreases left
      {
        var h :| h in left;
        left := left - {h};
        if h !in referenced { objects := objects - {h}; }
      }
    }

    method RewriteLog(p: Path, kept: seq<Revision>)
      modifies this`logs
      ensures logs == if kept == [] then old(logs) - {p} else old(logs)[p := kept]
    {
      if |kept| == 0 {
        logs := logs - {p};
        return;
      }
      logs := logs[p := kept];
    }

    /** One file's log after pruning: rewritten when it lost revisions, and its
        hashes noted as referenced. */
    method KeepFile(p: Path, kept: seq<Revision>, rewrite: bool, referenced0: set<Hash>,
                    ghost before: Logs, ghost ps: seq<Path>, ghost goal: Logs) returns (referenced: set<Hash>)
      requires p in before && p !in ps && p in goal && kept == goal[p] && kept != []
      requires Pruning(logs, referenced0, before, ps, goal)
      requires !rewrite ==> kept == before[p]
      modifies this`logs
      ensures Pruning(logs, referenced, before, ps + [p], goal)
    {
      ReplacedAt(before, ps, goal, p);
      assert (ps + [p])[..|ps|] == ps;
      referenced := referenced0 + HashSet(kept);
      if rewrite { RewriteLog(p, kept); } else { assert logs[p := kept] == logs; }
    }

    static method KeepYoung(revs: seq<Revision>, cutoff: int) returns (kept: seq<Revision>, lost: bool)
      ensures kept == Without(revs, TooOld(revs, cutoff))
      ensures !lost ==> kept == revs
    {
      kept := KeepRecent(revs, cutoff);
      WithoutNothing(revs, TooOld(revs, cutoff));
      lost := |kept| != |revs|;
    }

    method PruneFileByAge(p: Path, cutoff: int, referenced0: set<Hash>,
                          ghost before: Logs, ghost ps: seq<Path>, ghost goal: Logs) returns (referenced: set<Hash>)
      requires p in before && p !in ps && p in goal
      requires goal[p] == Without(before[p], TooOld(before[p], cutoff)) && goal[p] != []
      requires Pruning(logs, referenced0, before, ps, goal)
      modifies this`logs
      ensures Pruning(logs, referenced, before, ps + [p], goal)
    {
      ReplacedAt(before, ps, goal, p);
      var revs := logs[p];
      var kept, lost := KeepYoung(revs, cutoff);
      referenced := KeepFile(p, kept, lost, referenced0, before, ps, goal);
    }

    method PruneByAge(cutoff: int, ghost goal: Logs) returns (referenced: set<Hash>)
      requires PrunesTo(logs, AgeDrops(logs, cutoff), goal)
      modifies this`logs
      ensures logs == goal && referenced == Referenced(goal)
    {
      var paths := AnyElements(logs.Keys);
      EnumerationIsDistinct(paths, logs.Keys);
      ghost var before := logs;
      referenced := {};
      for i := 0 to |paths|
        invariant Pruning(logs, referenced, before, paths[..i], goal)
      {
        NextPath(paths, i);
        referenced := PruneFileByAge(paths[i], cutoff, referenced, before, paths[..i], goal);
      }
      assert paths[..|paths|] == paths;
      ReplacedAll(before, paths, goal);
    }

    method GcLocked(maxAge: int)
      requires StoreOk(env, Snapshot())
      modifies this
      ensures Snapshot() == GC(env, old(Snapshot()), maxAge)
    {
      ghost var s := Snapshot();
      var now := Now();
      var cutoff := now - maxAge;
      ghost var goal := AgePruned(s.logs, cutoff);
      AgePrunes(s.logs, cutoff);
      var referenced := PruneByAge(cutoff, goal);
      SweepUnreferenced(referenced);
      IsGC(env, s, Snapshot(), maxAge, cutoff, goal, referenced);
    }

    static method KeepSurvivors(revs: seq<Revision>, p: Path, removed: map<Path, set<int>>)
      returns (kept: seq<Revision>, lost: bool)
      ensures kept == Without(revs, RemovedAt(revs, RemovedFrom(removed, p)))
      ensures !lost ==> kept == revs
    {
      var rm := if p in removed then removed[p] else {};
      if rm == {} {
        WithoutPrefix(revs, RemovedAt(revs, rm), 0);
        return revs, false;
      }
      kept := KeepUnmarked(revs, rm);
      lost := true;
    }

    method PruneEvictedFile(p: Path, removed: map<Path, set<int>>, referenced0: set<Hash>,
                            ghost before: Logs, ghost ps: seq<Path>, ghost goal: Logs) returns (referenced: set<Hash>)
      requires p in before && p !in ps && p in goal
      requires goal[p] == Without(before[p], RemovedAt(before[p], RemovedFrom(removed, p))) && goal[p] != []
      requires Pruning(logs, referenced0, before, ps, goal)
      modifies this`logs
      ensures Pruning(logs, referenced, before, ps + [p], goal)
    {
      ReplacedAt(before, ps, goal, p);
      var revs := logs[p];
      var kept, lost := KeepSurvivors(revs, p, removed);
      referenced := KeepFile(p, kept, lost, referenced0, before, ps, goal);
    }

    method PruneEvicted(removed: map<Path, set<int>>, ghost goal: Logs) returns (referenced: set<Hash>)
      requires PrunesTo(logs, EvictionDrops(logs, removed), goal)
      modifies this`logs
      ensures logs == goal && referenced == Referenced(goal)
    {
      var paths := AnyElements(logs.Keys);
      EnumerationIsDistinct(paths, logs.Keys);
      ghost var before := logs;
      referenced := {};
      for i := 0 to |paths|
        invariant Pruning(logs, referenced, before, paths[..i], goal)
      {
        NextPath(paths, i);
        referenced := PruneEvictedFile(paths[i], removed, referenced, before, paths[..i], goal);
      }
      assert paths[..|paths|] == paths;
      ReplacedAll(before, paths, goal);
    }

    /** The evicted revisions, then the objects no surviving one names. */
    method RemoveEvicted(removed: map<Path, set<int>>, ghost goal: Logs)
      requires PrunesTo(logs, EvictionDrops(logs, removed), goal)
      modifies this`logs, this`objects
      ensures Snapshot() == Swept(old(Snapshot()), goal)
    {
      var referenced := PruneEvicted(removed, goal);
      SweepUnreferenced(referenced);
    }

    /** Over budget: evict, rewrite the logs, sweep the objects. */
    method EvictToBudget(s: Store, maxBytes: int, refcount: map<Hash, int>, size: map<Hash, int>, total: int)
      returns (final: int)
      requires s == Snapshot() && LogsOk(s.logs) && SizeOf(s.objects, Referenced(s.logs)) > maxBytes
      requires Tally(refcount, size, total, s.objects, HashBag(s.logs))
      modifies this`logs, this`objects
      ensures SizeGC(Snapshot(), final) == GCBySize(s, maxBytes)
    {
      var removed, after, k := EvictUntilFits(s, maxBytes, refcount, size, total);
      ghost var us := Units(s.logs)[..k];
      ghost var goal := LogsAfter(s.logs, us);
      IsGCBySize(s, maxBytes, k, us, after, goal);
      EvictionPrunes(s.logs, us, k, removed);
      RemoveEvicted(removed, goal);
      final := after;
    }

    method GcBySizeLocked(maxBytes: int) returns (final: int)
      requires StoreOk(env, Snapshot())
      modifies this
      ensures SizeGC(Snapshot(), final) == GCBySize(old(Snapshot()), maxBytes)
    {
      var s := Snapshot();
      var refcount, size, total := CountReferences(logs, objects);
      SupportIsReferenced(logs);
      if total <= maxBytes {
        IsGCWithinBudget(s, maxBytes, total);
        return total;
      }
      final := EvictToBudget(s, maxBytes, refcount, size, total);
    }
  }
}
