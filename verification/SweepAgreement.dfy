/** The polling sweep (sweep.go walkRecord, sweepRoots, ReconcileTree): the stat
    gate never hides a change, whoever writes when. */
module SweepAgreement {
  import opened Base
  import opened StoreModel
  import opened Retention
  import opened RetentionLaws

  datatype FileState = FileState(mtime: int, ctime: int, size: int)

  // The sweep among writers

  /** Where the sweep is with the file it is looking at: statted but not recorded,
      recorded but not yet marked seen, or between files. */
  datatype Position = Between | Statted(path: Path, stat: FileState) | Recorded(path: Path, stat: FileState)

  /** used remembers every stat a path ever had. */
  datatype World = World(
    store: Store,
    stats: map<Path, FileState>,
    used: map<Path, set<FileState>>,
    seen: map<Path, FileState>,
    position: Position)

  function UsedBy(w: World, p: Path): set<FileState> {
    if p in w.used then w.used[p] else {}
  }

  datatype Event =
    | Write(path: Path, content: Bytes, stat: FileState)
    | Remove(path: Path)
    | RecordByOther(path: Path)
    | RestoreByOther(path: Path, ts: int, stat: FileState)
    | CollectByOther(collection: Collection)
    | SweepStat(path: Path)
    | SweepRecord
    | SweepMark
    | SweepGone(path: Path)
    | SweepForget(path: Path)

  function Touched(w: World, p: Path, stat: FileState): World {
    w.(stats := if p in w.store.disk then w.stats[p := stat] else w.stats - {p},
       used := w.used[p := UsedBy(w, p) + {stat}])
  }

  /** A write or a restore leaves a stat the path never had; one that would not is
      not an event. */
  ghost function Next(env: Env, w: World, e: Event): World {
    match e
    case Write(p, content, stat) =>
      if stat in UsedBy(w, p) then w
      else Touched(w.(store := w.store.(disk := w.store.disk[p := content])), p, stat)
    case Remove(p) => w.(store := w.store.(disk := w.store.disk - {p}), stats := w.stats - {p})
    case RecordByOther(p) => w.(store := Record(env, w.store, p, None))
    case RestoreByOther(p, ts, stat) =>
      if stat in UsedBy(w, p) then w else Touched(w.(store := RestoreTo(env, w.store, p, ts).store), p, stat)
    case CollectByOther(c) => w.(store := Collect(env, w.store, c))
    case SweepStat(p) =>
      if w.position.Between? && p in w.stats && !(p in w.seen && w.seen[p] == w.stats[p]) then
        w.(position := Statted(p, w.stats[p]))
      else w
    case SweepRecord =>
      if w.position.Statted? then
        w.(store := Record(env, w.store, w.position.path, None), position := Recorded(w.position.path, w.position.stat))
      else w
    case SweepMark =>
      if w.position.Recorded? then w.(seen := w.seen[w.position.path := w.position.stat], position := Between) else w
    case SweepGone(p) => w.(store := Record(env, w.store, p, None))
    case SweepForget(p) => w.(seen := w.seen - {p})
  }

  ghost function Run(env: Env, w: World, events: seq<Event>): World {
    if events == [] then w else Next(env, Run(env, w, events[..|events| - 1]), events[|events| - 1])
  }

  /** If p still has this stat, its newest revision is what is on disk. */
  ghost predicate Current(env: Env, w: World, p: Path, stat: FileState) {
    (p in w.store.disk && p in w.stats && w.stats[p] == stat && |w.store.disk[p]| <= MaxBytes(env))
    ==> AgreesWithDisk(env, w.store, p)
  }

  ghost predicate SweepOk(env: Env, w: World) {
    && StoreOk(env, w.store)
    && w.stats.Keys == w.store.disk.Keys
    && (forall p :: p in w.stats ==> w.stats[p] in UsedBy(w, p))
    && (forall p :: p in w.seen ==> w.seen[p] in UsedBy(w, p) && Current(env, w, p, w.seen[p]))
    && (w.position.Statted? ==> w.position.stat in UsedBy(w, w.position.path))
    && (w.position.Recorded? ==>
          w.position.stat in UsedBy(w, w.position.path) && Current(env, w, w.position.path, w.position.stat))
  }

  /** Any step that leaves p's log, content and stat alone leaves it current. */
  lemma StaysCurrent(env: Env, w: World, w': World, p: Path, stat: FileState)
    requires Current(env, w, p, stat)
    requires w'.store.disk == w.store.disk && w'.stats == w.stats && Last(LogOf(w'.store, p)) == Last(LogOf(w.store, p))
    ensures Current(env, w', p, stat)
  {
  }

  lemma RecordStepOk(env: Env, w: World, p: Path)
    requires ValidEnv(env) && SweepOk(env, w)
    ensures SweepOk(env, w.(store := Record(env, w.store, p, None)))
    ensures forall stat :: Current(env, w.(store := Record(env, w.store, p, None)), p, stat)
  {
    var w' := w.(store := Record(env, w.store, p, None));
    RecordOk(env, w.store, p, None);
    RecordAgrees(env, w.store, p);
    forall q, stat | Current(env, w, q, stat) ensures Current(env, w', q, stat) {
      if q != p { StaysCurrent(env, w, w', q, stat); }
    }
  }

  /** A change of p alone: nothing else of the world moves. */
  ghost predicate OnlyTouches(w: World, w1: World, p: Path) {
    && w1.stats == w.stats && w1.used == w.used && w1.seen == w.seen && w1.position == w.position
    && OthersUntouched(w.store, w1.store, p)
  }

  /** A stat p had before is not the one it has now. */
  lemma TouchedKeepsCurrent(env: Env, w: World, w1: World, p: Path, stat: FileState, q: Path, st: FileState)
    requires OnlyTouches(w, w1, p) && stat !in UsedBy(w, p) && st in UsedBy(w, q) && Current(env, w, q, st)
    ensures Current(env, Touched(w1, p, stat), q, st)
  {
    if q != p {
      assert Touched(w1, p, stat).stats.Keys - {p} == w.stats.Keys - {p};
    }
  }

  lemma TouchedStats(w: World, w1: World, p: Path, stat: FileState)
    requires w.stats.Keys == w.store.disk.Keys && (forall q :: q in w.stats ==> w.stats[q] in UsedBy(w, q))
    requires OnlyTouches(w, w1, p)
    ensures var w' := Touched(w1, p, stat);
            && w'.stats.Keys == w'.store.disk.Keys
            && (forall q :: q in w'.stats ==> w'.stats[q] in UsedBy(w', q))
            && (forall q :: UsedBy(w, q) <= UsedBy(w', q))
  {
    SameFilesElsewhere(w.store, w1.store, p);
  }

  lemma TouchedOk(env: Env, w: World, w1: World, p: Path, stat: FileState)
    requires SweepOk(env, w) && StoreOk(env, w1.store) && stat !in UsedBy(w, p) && OnlyTouches(w, w1, p)
    ensures SweepOk(env, Touched(w1, p, stat))
  {
    TouchedStats(w, w1, p, stat);
    forall q | q in w.seen ensures Current(env, Touched(w1, p, stat), q, w.seen[q]) {
      TouchedKeepsCurrent(env, w, w1, p, stat, q, w.seen[q]);
    }
    if w.position.Recorded? {
      TouchedKeepsCurrent(env, w, w1, p, stat, w.position.path, w.position.stat);
    }
  }

  lemma TrimStepOk(env: Env, w: World, s': Store)
    requires SweepOk(env, w) && Trimmed(w.store, s') && StoreOk(env, s')
    ensures SweepOk(env, w.(store := s'))
  {
    forall q, st | Current(env, w, q, st) ensures Current(env, w.(store := s'), q, st) {
      TrimKeepsNewest(w.store, s', q);
      StaysCurrent(env, w, w.(store := s'), q, st);
    }
  }

  lemma WriteStepOk(env: Env, w: World, p: Path, content: Bytes, stat: FileState)
    requires SweepOk(env, w)
    ensures SweepOk(env, Next(env, w, Write(p, content, stat)))
  {
    if stat !in UsedBy(w, p) {
      TouchedOk(env, w, w.(store := w.store.(disk := w.store.disk[p := content])), p, stat);
    }
  }

  lemma RestoreStepOk(env: Env, w: World, p: Path, ts: int, stat: FileState)
    requires ValidEnv(env) && SweepOk(env, w)
    ensures SweepOk(env, Next(env, w, RestoreByOther(p, ts, stat)))
  {
    if stat !in UsedBy(w, p) {
      RestoreOk(env, w.store, p, ts);
      RestoreTouchesOnly(env, w.store, p, ts);
      TouchedOk(env, w, w.(store := RestoreTo(env, w.store, p, ts).store), p, stat);
    }
  }

  lemma RemoveStepOk(env: Env, w: World, p: Path)
    requires SweepOk(env, w)
    ensures SweepOk(env, Next(env, w, Remove(p)))
  {
    var w' := Next(env, w, Remove(p));
    forall q, st | Current(env, w, q, st) ensures Current(env, w', q, st) { }
  }

  lemma MarkStepOk(env: Env, w: World, e: Event)
    requires SweepOk(env, w) && (e.SweepStat? || e.SweepMark? || e.SweepForget?)
    ensures SweepOk(env, Next(env, w, e))
  {
    var w' := Next(env, w, e);
    forall q, st | Current(env, w, q, st) ensures Current(env, w', q, st) { StaysCurrent(env, w, w', q, st); }
  }

  lemma SweepRecordOk(env: Env, w: World)
    requires ValidEnv(env) && SweepOk(env, w)
    ensures SweepOk(env, Next(env, w, SweepRecord))
  {
    if w.position.Statted? {
      var w1 := w.(store := Record(env, w.store, w.position.path, None));
      RecordStepOk(env, w, w.position.path);
      var w' := Next(env, w, SweepRecord);
      forall q, st | Current(env, w1, q, st) ensures Current(env, w', q, st) { StaysCurrent(env, w1, w', q, st); }
    }
  }

  lemma NextOk(env: Env, w: World, e: Event)
    requires ValidEnv(env) && SweepOk(env, w)
    ensures SweepOk(env, Next(env, w, e))
  {
    match e
    case Write(p, content, stat) => WriteStepOk(env, w, p, content, stat);
    case RestoreByOther(p, ts, stat) => RestoreStepOk(env, w, p, ts, stat);
    case RecordByOther(p) => RecordStepOk(env, w, p);
    case SweepGone(p) => RecordStepOk(env, w, p);
    case CollectByOther(c) =>
      CollectTrims(env, w.store, c);
      TrimStepOk(env, w, Collect(env, w.store, c));
    case Remove(p) => RemoveStepOk(env, w, p);
    case SweepRecord => SweepRecordOk(env, w);
    case _ => MarkStepOk(env, w, e);
  }

  /** A sweeper that has seen nothing. */
  ghost predicate Fresh(w: World) {
    && w.seen == map[] && w.position.Between? && w.stats.Keys == w.store.disk.Keys
    && (forall p :: p in w.stats ==> w.stats[p] in UsedBy(w, p))
  }

  /** Under writers, recorders, restorers and collectors interleaved anywhere: a
      file the stat gate would skip has its newest revision equal to disk. */
  lemma {:induction false} GateNeverHides(env: Env, w: World, events: seq<Event>)
    requires ValidEnv(env) && StoreOk(env, w.store) && Fresh(w)
    ensures SweepOk(env, Run(env, w, events))
    ensures var w' := Run(env, w, events);
            forall p :: (p in w'.seen && p in w'.stats && w'.seen[p] == w'.stats[p]
                         && |w'.store.disk[p]| <= MaxBytes(env)) ==> AgreesWithDisk(env, w'.store, p)
  {
    if events != [] {
      GateNeverHides(env, w, events[..|events| - 1]);
      NextOk(env, Run(env, w, events[..|events| - 1]), events[|events| - 1]);
    }
  }

  /** What an undisturbed pass relies on: a remembered stat that is still the file's
      means its newest revision is what is on disk. */
  ghost predicate Ready(env: Env, store: Store, stats: map<Path, FileState>, seen: map<Path, FileState>) {
    && stats.Keys == store.disk.Keys
    && (forall p :: p in stats && |store.disk[p]| <= MaxBytes(env) && p in seen && seen[p] == stats[p]
          ==> AgreesWithDisk(env, store, p))
  }

  /** Whatever ran before, a pass can rely on it. */
  lemma RunsLeaveItReady(env: Env, w: World, events: seq<Event>)
    requires ValidEnv(env) && StoreOk(env, w.store) && Fresh(w)
    ensures var w' := Run(env, w, events); Ready(env, w'.store, w'.stats, w'.seen)
  {
    GateNeverHides(env, w, events);
  }
}
