/** The real-time gate and the store together (watch.go recordRealtime): over whole
    runs among writers, what the gate skips is what the store already holds. */
module GateAgreement {
  import opened Base
  import opened StoreModel
  import opened Retention
  import opened RetentionLaws
  import opened CaptureGate

  /** Who writes files: writers that leave the file system's clock, rounded down to
      its granularity g, as both times; or writers that put any mtime they like, while
      ctime only advances. */
  datatype Writers = Stamping(g: int) | Rewinding

  predicate Sensible(k: Writers) { k.Stamping? ==> k.g > 0 }

  /** The watcher between two events; with a capture whose stat is still to be taken:
      what it read and when, and whether the file changed since; with the stat taken
      and the clock still to be read, None for a file that was gone. */
  datatype Position =
    | Between
    | Read(path: Path, at: int, changed: bool)
    | Statted(path: Path, at: int, changed: bool, stat: Option<Stat>)

  /** written, ctimes: when each file was last changed, and the newest ctime it had.
      read, changed: of each gate entry, when its content was read and whether the
      file changed since. */
  datatype World = World(
    now: int,
    store: Store,
    stats: map<Path, Stat>,
    written: map<Path, int>,
    ctimes: map<Path, int>,
    gate: map<Path, CaptureState>,
    read: map<Path, int>,
    changed: set<Path>,
    position: Position)

  /** The gate reads a file and records it, stats it, and reads the clock in three
      events, with anything in between. */
  datatype Event =
    | Pass(elapsed: nat)
    | Write(path: Path, content: Bytes, mtime: int, ctime: int)
    | Remove(path: Path)
    | RecordByOther(path: Path)
    | RestoreByOther(path: Path, ts: int, mtime: int, ctime: int)
    | CollectByOther(collection: Collection)
    | GateCapture(path: Path)
    | GateStat
    | GateMark

  /** p was changed just now: a file on disk bears the given times. */
  function Touched(w: World, p: Path, mtime: int, ctime: int): World {
    var there := p in w.store.disk;
    w.(stats := if there then w.stats[p := Stat(|w.store.disk[p]|, mtime, ctime)] else w.stats - {p},
       written := w.written[p := w.now],
       ctimes := if there then w.ctimes[p := ctime] else w.ctimes,
       changed := w.changed + {p},
       position := if !w.position.Between? && w.position.path == p then w.position.(changed := true) else w.position)
  }

  /** The gate lets the file's event go by. */
  predicate Skips(slop: int, w: World, p: Path) {
    p in w.stats && p in w.gate && !CaptureDecision(w.stats[p], w.gate[p], slop)
  }

  function StatNow(w: World, p: Path): Option<Stat> {
    if p in w.stats then Some(w.stats[p]) else None
  }

  ghost function Next(env: Env, slop: int, w: World, e: Event): World {
    match e
    case Pass(elapsed) => w.(now := w.now + elapsed)
    case Write(p, content, mtime, ctime) =>
      Touched(w.(store := w.store.(disk := w.store.disk[p := content])), p, mtime, ctime)
    case Remove(p) => Touched(w.(store := w.store.(disk := w.store.disk - {p})), p, 0, 0)
    case RecordByOther(p) => w.(store := Record(env, w.store, p, None))
    case RestoreByOther(p, ts, mtime, ctime) =>
      Touched(w.(store := RestoreTo(env, w.store, p, ts).store), p, mtime, ctime)
    case CollectByOther(c) => w.(store := Collect(env, w.store, c))
    case GateCapture(p) =>
      if !w.position.Between? || Skips(slop, w, p) then w
      else w.(store := Record(env, w.store, p, None), position := Read(p, w.now, false))
    case GateStat =>
      if !w.position.Read? then w
      else
        var Read(p, at, changed) := w.position;
        w.(position := Statted(p, at, changed, StatNow(w, p)))
    case GateMark =>
      if !w.position.Statted? then w
      else
        var Statted(p, at, changed, stat) := w.position;
        w.(gate := if stat.Some? then w.gate[p := CaptureState(stat.value, w.now)] else w.gate - {p},
           read := w.read[p := at],
           changed := if changed then w.changed + {p} else w.changed - {p},
           position := Between)
  }

  ghost function Run(env: Env, slop: int, w: World, events: seq<Event>): World {
    if events == [] then w else Next(env, slop, Run(env, slop, w, events[..|events| - 1]), events[|events| - 1])
  }

  /** The times a change of p leaves. */
  predicate TimesOk(k: Writers, w: World, p: Path, mtime: int, ctime: int)
    requires Sensible(k)
  {
    match k
    case Stamping(g) => mtime == ctime == Rounded(w.now, g)
    case Rewinding => p in w.ctimes ==> ctime > w.ctimes[p]
  }

  /** What makes the gate's judgement sound. Among stamping writers: the clock is read
      soon enough after the content was. Among rewinding ones: nothing is written
      between the capture's read and its stat. */
  predicate Allowed(k: Writers, slop: int, w: World, e: Event)
    requires Sensible(k)
  {
    match e
    case Write(p, _, mtime, ctime) => TimesOk(k, w, p, mtime, ctime)
    case RestoreByOther(p, _, mtime, ctime) => TimesOk(k, w, p, mtime, ctime)
    case GateStat => k.Rewinding? && w.position.Read? ==> !w.position.changed
    case GateMark => k.Stamping? && w.position.Statted? ==> w.now - w.position.at + k.g <= slop + 1
    case _ => true
  }

  ghost predicate AllAllowed(k: Writers, env: Env, slop: int, w: World, events: seq<Event>)
    requires Sensible(k)
  {
    events == [] ||
    (&& AllAllowed(k, env, slop, w, events[..|events| - 1])
     && Allowed(k, slop, Run(env, slop, w, events[..|events| - 1]), events[|events| - 1]))
  }

  ghost predicate StatOk(k: Writers, w: World, p: Path)
    requires Sensible(k)
  {
    p in w.stats ==>
      match k
      case Stamping(g) => p in w.written && w.written[p] <= w.now && w.stats[p].mtime == Rounded(w.written[p], g)
      case Rewinding => p in w.ctimes && w.stats[p].ctime <= w.ctimes[p]
  }

  /** A file read at this time and not changed since is held; one a stamping writer
      changed since was changed no earlier. */
  ghost predicate ReadOk(k: Writers, env: Env, w: World, p: Path, at: int, changed: bool) {
    && at <= w.now
    && (if !changed then Held(env, w.store, p)
        else k.Stamping? && p in w.stats ==> p in w.written && w.written[p] >= at)
  }

  /** A stat p had when it was read; after any change ctime is past it. */
  predicate Behind(w: World, p: Path, stat: Stat, changed: bool) {
    p in w.ctimes && stat.ctime <= w.ctimes[p] && (changed && p in w.stats ==> stat.ctime < w.stats[p].ctime)
  }

  ghost predicate EntryOk(k: Writers, env: Env, slop: int, w: World, p: Path) {
    p in w.gate ==>
      && p in w.read && ReadOk(k, env, w, p, w.read[p], p in w.changed)
      && match k
         case Stamping(g) => w.gate[p].capturedAt - w.read[p] + g <= slop + 1
         case Rewinding => Behind(w, p, w.gate[p].stat, p in w.changed)
  }

  ghost predicate PositionOk(k: Writers, env: Env, w: World) {
    match w.position
    case Between => true
    case Read(p, at, changed) => ReadOk(k, env, w, p, at, changed)
    case Statted(p, at, changed, stat) =>
      && ReadOk(k, env, w, p, at, changed)
      && (k.Rewinding? && stat.Some? ==> Behind(w, p, stat.value, changed))
  }

  ghost predicate GateOk(k: Writers, env: Env, slop: int, w: World)
    requires Sensible(k)
  {
    && StoreOk(env, w.store)
    && w.stats.Keys == w.store.disk.Keys
    && (forall p :: StatOk(k, w, p))
    && (forall p :: EntryOk(k, env, slop, w, p))
    && PositionOk(k, env, w)
  }

  /** What the gate skips is held. */
  lemma SkippedIsHeld(k: Writers, env: Env, slop: int, w: World, p: Path)
    requires Sensible(k) && GateOk(k, env, slop, w) && Skips(slop, w, p)
    ensures p in w.store.disk && Held(env, w.store, p)
  {
    assert StatOk(k, w, p) && EntryOk(k, env, slop, w, p);
    if k.Stamping? { assert w.stats[p].mtime > w.written[p] - k.g; }
  }

  // Every event keeps it so

  /** Only the store changed, and not p's content nor its newest revision. */
  lemma StaysHeld(env: Env, s: Store, s': Store, p: Path)
    requires Held(env, s, p) && Last(LogOf(s', p)) == Last(LogOf(s, p))
    requires (p in s'.disk <==> p in s.disk) && (p in s.disk ==> s'.disk[p] == s.disk[p])
    ensures Held(env, s', p)
  {
  }

  lemma StoreStepOk(k: Writers, env: Env, slop: int, w: World, s': Store)
    requires Sensible(k) && GateOk(k, env, slop, w) && StoreOk(env, s') && s'.disk == w.store.disk
    requires forall p :: Held(env, w.store, p) ==> Held(env, s', p)
    ensures GateOk(k, env, slop, w.(store := s'))
  {
    var w' := w.(store := s');
    forall p ensures StatOk(k, w', p) && EntryOk(k, env, slop, w', p) {
      assert StatOk(k, w, p) && EntryOk(k, env, slop, w, p);
    }
  }

  lemma RecordStepOk(k: Writers, env: Env, slop: int, w: World, p: Path)
    requires Sensible(k) && ValidEnv(env) && GateOk(k, env, slop, w)
    ensures GateOk(k, env, slop, w.(store := Record(env, w.store, p, None)))
    ensures Held(env, Record(env, w.store, p, None), p)
  {
    var s' := Record(env, w.store, p, None);
    RecordOk(env, w.store, p, None);
    RecordAgrees(env, w.store, p);
    forall q | Held(env, w.store, q) ensures Held(env, s', q) {
      if q != p { StaysHeld(env, w.store, s', q); }
    }
    StoreStepOk(k, env, slop, w, s');
  }

  lemma TrimKeepsHeld(env: Env, s: Store, s': Store, q: Path)
    requires Trimmed(s, s') && Held(env, s, q)
    ensures Held(env, s', q)
  {
    TrimKeepsNewest(s, s', q);
    StaysHeld(env, s, s', q);
  }

  lemma TrimStepOk(k: Writers, env: Env, slop: int, w: World, s': Store)
    requires Sensible(k) && GateOk(k, env, slop, w) && Trimmed(w.store, s') && StoreOk(env, s')
    ensures GateOk(k, env, slop, w.(store := s'))
  {
    forall q | Held(env, w.store, q) ensures Held(env, s', q) { TrimKeepsHeld(env, w.store, s', q); }
    StoreStepOk(k, env, slop, w, s');
  }

  lemma CaptureStepOk(k: Writers, env: Env, slop: int, w: World, p: Path)
    requires Sensible(k) && ValidEnv(env) && GateOk(k, env, slop, w)
    ensures GateOk(k, env, slop, Next(env, slop, w, GateCapture(p)))
  {
    var w' := Next(env, slop, w, GateCapture(p));
    if w' != w {
      var w1 := w.(store := Record(env, w.store, p, None));
      RecordStepOk(k, env, slop, w, p);
      forall q ensures StatOk(k, w', q) && EntryOk(k, env, slop, w', q) {
        assert StatOk(k, w1, q) && EntryOk(k, env, slop, w1, q);
      }
    }
  }

  /** A change of p: what was known of a file read before still is. */
  lemma TouchedRead(k: Writers, env: Env, w: World, s': Store, p: Path, mtime: int, ctime: int, q: Path,
                    at: int, changed: bool)
    requires OthersUntouched(w.store, s', p) && ReadOk(k, env, w, q, at, changed)
    ensures ReadOk(k, env, Touched(w.(store := s'), p, mtime, ctime), q, at, changed || q == p)
  {
    if q != p && !changed {
      assert SameOnDisk(w.store, s', q) && LogOf(s', q) == LogOf(w.store, q);
      StaysHeld(env, w.store, s', q);
    }
  }

  lemma TouchedBehind(w: World, s': Store, p: Path, mtime: int, ctime: int, q: Path, stat: Stat, changed: bool)
    requires Behind(w, q, stat, changed) && (p in s'.disk && p in w.ctimes ==> ctime > w.ctimes[p])
    ensures Behind(Touched(w.(store := s'), p, mtime, ctime), q, stat, changed || q == p)
  {
  }

  lemma TouchedFile(k: Writers, env: Env, slop: int, w: World, s': Store, p: Path, mtime: int, ctime: int, q: Path)
    requires Sensible(k) && StatOk(k, w, q) && EntryOk(k, env, slop, w, q) && OthersUntouched(w.store, s', p)
    requires p in s'.disk ==> TimesOk(k, w, p, mtime, ctime)
    ensures var w' := Touched(w.(store := s'), p, mtime, ctime); StatOk(k, w', q) && EntryOk(k, env, slop, w', q)
  {
    if q in w.gate {
      TouchedRead(k, env, w, s', p, mtime, ctime, q, w.read[q], q in w.changed);
      if k.Rewinding? { TouchedBehind(w, s', p, mtime, ctime, q, w.gate[q].stat, q in w.changed); }
    }
  }

  lemma TouchedPosition(k: Writers, env: Env, w: World, s': Store, p: Path, mtime: int, ctime: int)
    requires Sensible(k) && PositionOk(k, env, w) && OthersUntouched(w.store, s', p)
    requires p in s'.disk ==> TimesOk(k, w, p, mtime, ctime)
    ensures PositionOk(k, env, Touched(w.(store := s'), p, mtime, ctime))
  {
    var at := w.position;
    if !at.Between? {
      TouchedRead(k, env, w, s', p, mtime, ctime, at.path, at.at, at.changed);
      if k.Rewinding? && at.Statted? && at.stat.Some? {
        TouchedBehind(w, s', p, mtime, ctime, at.path, at.stat.value, at.changed);
      }
    }
  }

  lemma TouchedOk(k: Writers, env: Env, slop: int, w: World, s': Store, p: Path, mtime: int, ctime: int)
    requires Sensible(k) && GateOk(k, env, slop, w) && StoreOk(env, s') && OthersUntouched(w.store, s', p)
    requires p in s'.disk ==> TimesOk(k, w, p, mtime, ctime)
    ensures GateOk(k, env, slop, Touched(w.(store := s'), p, mtime, ctime))
  {
    var w' := Touched(w.(store := s'), p, mtime, ctime);
    forall q ensures StatOk(k, w', q) && EntryOk(k, env, slop, w', q) {
      assert StatOk(k, w, q) && EntryOk(k, env, slop, w, q);
      TouchedFile(k, env, slop, w, s', p, mtime, ctime, q);
    }
    SameFilesElsewhere(w.store, s', p);
    assert w'.stats.Keys == s'.disk.Keys;
    TouchedPosition(k, env, w, s', p, mtime, ctime);
  }

  lemma PassOk(k: Writers, env: Env, slop: int, w: World, elapsed: nat)
    requires Sensible(k) && GateOk(k, env, slop, w)
    ensures GateOk(k, env, slop, w.(now := w.now + elapsed))
  {
    var w' := w.(now := w.now + elapsed);
    forall p ensures StatOk(k, w', p) && EntryOk(k, env, slop, w', p) {
      assert StatOk(k, w, p) && EntryOk(k, env, slop, w, p);
    }
  }

  lemma StatStepOk(k: Writers, env: Env, slop: int, w: World)
    requires Sensible(k) && GateOk(k, env, slop, w) && Allowed(k, slop, w, GateStat)
    ensures GateOk(k, env, slop, Next(env, slop, w, GateStat))
  {
    var w' := Next(env, slop, w, GateStat);
    forall p ensures StatOk(k, w', p) && EntryOk(k, env, slop, w', p) {
      assert StatOk(k, w, p) && EntryOk(k, env, slop, w, p);
    }
    if w.position.Read? { assert StatOk(k, w, w.position.path); }
  }

  lemma MarkOk(k: Writers, env: Env, slop: int, w: World)
    requires Sensible(k) && GateOk(k, env, slop, w) && Allowed(k, slop, w, GateMark)
    ensures GateOk(k, env, slop, Next(env, slop, w, GateMark))
  {
    var w' := Next(env, slop, w, GateMark);
    forall p ensures StatOk(k, w', p) && EntryOk(k, env, slop, w', p) {
      assert StatOk(k, w, p) && EntryOk(k, env, slop, w, p);
    }
  }

  lemma NextOk(k: Writers, env: Env, slop: int, w: World, e: Event)
    requires Sensible(k) && ValidEnv(env) && GateOk(k, env, slop, w) && Allowed(k, slop, w, e)
    ensures GateOk(k, env, slop, Next(env, slop, w, e))
  {
    match e
    case Pass(elapsed) => PassOk(k, env, slop, w, elapsed);
    case Write(p, content, mtime, ctime) =>
      TouchedOk(k, env, slop, w, w.store.(disk := w.store.disk[p := content]), p, mtime, ctime);
    case Remove(p) => TouchedOk(k, env, slop, w, w.store.(disk := w.store.disk - {p}), p, 0, 0);
    case RecordByOther(p) => RecordStepOk(k, env, slop, w, p);
    case RestoreByOther(p, ts, mtime, ctime) =>
      RestoreOk(env, w.store, p, ts);
      RestoreTouchesOnly(env, w.store, p, ts);
      TouchedOk(k, env, slop, w, RestoreTo(env, w.store, p, ts).store, p, mtime, ctime);
    case CollectByOther(c) =>
      CollectTrims(env, w.store, c);
      TrimStepOk(k, env, slop, w, Collect(env, w.store, c));
    case GateCapture(p) => CaptureStepOk(k, env, slop, w, p);
    case GateStat => StatStepOk(k, env, slop, w);
    case GateMark => MarkOk(k, env, slop, w);
  }

  /** A watcher that has captured nothing, over files whose stats are such writers'. */
  ghost predicate Fresh(k: Writers, env: Env, w: World)
    requires Sensible(k)
  {
    && StoreOk(env, w.store) && w.stats.Keys == w.store.disk.Keys && (forall p :: StatOk(k, w, p))
    && w.gate == map[] && w.position.Between?
  }

  lemma {:induction false} RunOk(k: Writers, env: Env, slop: int, w: World, events: seq<Event>)
    requires Sensible(k) && ValidEnv(env) && Fresh(k, env, w) && AllAllowed(k, env, slop, w, events)
    ensures GateOk(k, env, slop, Run(env, slop, w, events))
  {
    if events == [] {
      forall p ensures EntryOk(k, env, slop, w, p) { }
    } else {
      RunOk(k, env, slop, w, events[..|events| - 1]);
      NextOk(k, env, slop, Run(env, slop, w, events[..|events| - 1]), events[|events| - 1]);
    }
  }

  /** At every point of every run, among writers of either kind, restorers, recorders
      and collectors, between the capture, its stat and its clock reading too: an
      event the gate skips is of a file whose newest revision is what is on disk. */
  lemma GateSkipsOnlyHeld(k: Writers, env: Env, slop: int, w: World, events: seq<Event>, p: Path)
    requires Sensible(k) && ValidEnv(env) && Fresh(k, env, w) && AllAllowed(k, env, slop, w, events)
    ensures var w' := Run(env, slop, w, events); Skips(slop, w', p) ==> p in w'.store.disk && Held(env, w'.store, p)
  {
    RunOk(k, env, slop, w, events);
    var w' := Run(env, slop, w, events);
    if Skips(slop, w', p) { SkippedIsHeld(k, env, slop, w', p); }
  }

  // A write between the capture and its stat

  lemma RunNext(env: Env, slop: int, w: World, events: seq<Event>, e: Event)
    ensures Run(env, slop, w, events + [e]) == Next(env, slop, Run(env, slop, w, events), e)
  {
    assert (events + [e])[..|events|] == events;
  }

  lemma RunOfFour(env: Env, slop: int, w: World, a: Event, b: Event, c: Event, d: Event)
    ensures Run(env, slop, w, [a, b, c, d])
            == Next(env, slop, Next(env, slop, Next(env, slop, Next(env, slop, w, a), b), c), d)
  {
    RunNext(env, slop, w, [], a);
    RunNext(env, slop, w, [a], b);
    RunNext(env, slop, w, [a, b], c);
    RunNext(env, slop, w, [a, b, c], d);
    assert [] + [a] == [a] && [a] + [b] == [a, b] && [a, b] + [c] == [a, b, c] && [a, b, c] + [d] == [a, b, c, d];
  }

  lemma WriteAfterCapture(env: Env, slop: int, w: World, p: Path, content: Bytes, mtime: int, ctime: int)
    requires ValidEnv(env) && w.position.Between? && !Skips(slop, w, p)
    requires p in w.store.disk && w.store.disk[p] != content
    requires |w.store.disk[p]| <= MaxBytes(env) && |content| <= MaxBytes(env)
    ensures var w2 := Next(env, slop, Next(env, slop, w, GateCapture(p)), Event.Write(p, content, mtime, ctime));
            && w2.position == Read(p, w.now, true) && w2.now == w.now && !Held(env, w2.store, p)
            && p in w2.stats && w2.stats[p] == Stat(|content|, mtime, ctime)
  {
    RecordAgrees(env, w.store, p);
  }

  lemma StatThenMark(env: Env, slop: int, w: World, p: Path, at: int)
    requires w.position == Read(p, at, true) && p in w.stats
    ensures var w' := Next(env, slop, Next(env, slop, w, GateStat), GateMark);
            && w'.store == w.store && w'.stats == w.stats && p in w'.gate
            && w'.gate[p] == CaptureState(w.stats[p], w.now)
  {
  }

  /** Such a write leaves the file uncaptured, and the gate skips it from then on
      exactly when its mtime, as a writer can set it, lies before the racy window. */
  lemma WriteBeforeStatIsMissed(env: Env, slop: int, w: World, p: Path, content: Bytes, mtime: int, ctime: int)
    requires ValidEnv(env) && w.position.Between? && !Skips(slop, w, p)
    requires p in w.store.disk && w.store.disk[p] != content
    requires |w.store.disk[p]| <= MaxBytes(env) && |content| <= MaxBytes(env)
    ensures var w' := Run(env, slop, w, [GateCapture(p), Event.Write(p, content, mtime, ctime), GateStat, GateMark]);
            !Held(env, w'.store, p) && (Skips(slop, w', p) <==> ctime != 0 && mtime < w.now - slop)
  {
    var e := Event.Write(p, content, mtime, ctime);
    var w2 := Next(env, slop, Next(env, slop, w, GateCapture(p)), e);
    WriteAfterCapture(env, slop, w, p, content, mtime, ctime);
    StatThenMark(env, slop, w2, p, w.now);
    RunOfFour(env, slop, w, GateCapture(p), e, GateStat, GateMark);
  }

  // One event with no writer around

  /** What recordRealtime relies on: the gate skips only what is held. */
  ghost predicate Ready(env: Env, store: Store, stats: map<Path, Stat>, entries: map<Path, CaptureState>, slop: int) {
    && stats.Keys == store.disk.Keys
    && (forall p :: p in stats && p in entries && !CaptureDecision(stats[p], entries[p], slop) ==> Held(env, store, p))
  }

  /** Whatever ran before, it can rely on it. */
  lemma RunsLeaveItReady(k: Writers, env: Env, slop: int, w: World, events: seq<Event>)
    requires Sensible(k) && ValidEnv(env) && Fresh(k, env, w) && AllAllowed(k, env, slop, w, events)
    ensures var w' := Run(env, slop, w, events); Ready(env, w'.store, w'.stats, w'.gate, slop)
  {
    var w' := Run(env, slop, w, events);
    RunOk(k, env, slop, w, events);
    forall p | Skips(slop, w', p) ensures Held(env, w'.store, p) { SkippedIsHeld(k, env, slop, w', p); }
  }

  /** What recordRealtime did with an event. */
  datatype Outcome = Skipped | RecordFailed | Captured

  class RealtimeGate {
    const env: Env
    const slop: int
    var store: Store
    var stats: map<Path, Stat>
    var entries: map<Path, CaptureState>

    ghost predicate Valid()
      reads this
    {
      Ready(env, store, stats, entries, slop)
    }

    constructor (env: Env, slop: int, store: Store, stats: map<Path, Stat>)
      requires stats.Keys == store.disk.Keys
      ensures Valid() && this.env == env && this.slop == slop
      ensures this.store == store && this.stats == stats && entries == map[]
    {
      this.env, this.slop, this.store, this.stats := env, slop, store, stats;
      entries := map[];
    }

    /** No skip unless the store already holds what is on disk. */
    method ShouldCapture(rel: Path) returns (capture: bool)
      requires Valid()
      ensures !capture ==> rel in store.disk && Held(env, store, rel)
      ensures capture <==> (rel in stats && rel in entries ==> CaptureDecision(stats[rel], entries[rel], slop))
    {
      if rel !in stats { return true; }
      if rel !in entries { return true; }
      capture := CaptureDecision(stats[rel], entries[rel], slop);
    }

    method MarkCaptured(rel: Path, now: int)
      requires Valid() && Held(env, store, rel)
      modifies this`entries
      ensures Valid()
      ensures entries == if rel in stats then old(entries)[rel := CaptureState(stats[rel], now)]
                         else old(entries) - {rel}
    {
      if rel !in stats {
        entries := entries - {rel};
        return;
      }
      entries := entries[rel := CaptureState(stats[rel], now)];
    }

    /** fails: the store's Record reports an error; now: the clock after it. Unless it
        fails, the file's newest revision is what is on disk afterwards, whether the
        gate skipped it or not, and no other file's history is touched. */
    method RecordRealtime(rel: Path, fails: bool, now: int) returns (outcome: Outcome)
      requires Valid()
      modifies this`store, this`entries
      ensures Valid() && store.disk == old(store.disk)
      ensures !outcome.RecordFailed? ==>
                Held(env, store, rel) && (rel !in store.disk ==> AgreesWithDisk(env, store, rel))
      ensures !outcome.Captured? ==> store == old(store) && entries == old(entries)
      ensures outcome.RecordFailed? ==> fails
      ensures forall q :: q != rel ==> LogOf(store, q) == LogOf(old(store), q)
    {
      var capture := ShouldCapture(rel);
      if !capture { return Skipped; }
      if fails { return RecordFailed; }
      RecordAgrees(env, store, rel);
      store := Record(env, store, rel, None);
      MarkCaptured(rel, now);
      return Captured;
    }
  }
}
