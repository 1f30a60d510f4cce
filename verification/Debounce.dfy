/** The watcher's event loop (watch.go Run): a file is handed to recordRealtime once
    it has been quiet for the debounce time. */
module Debounce {
  import opened Base

  /** What Lstat says of a path an event names. */
  datatype Kind = Missing | Regular | Symlink | Directory

  /** One turn of the loop, at the time it happens; created: the event is, among
      others, the creation of what it names. */
  datatype Input =
    | Change(path: Path, kind: Kind, created: bool, now: int)
    | Tick(now: int)

  datatype Config = Config(ignored: Path -> bool, debounce: int)

  /** The event makes p wait for a record: p is not ignored, no symlink and no
      directory. A path that is gone waits too, for its deletion. */
  predicate Accepts(c: Config, e: Input, p: Path) {
    e.Change? && e.path == p && !c.ignored(p) && (e.kind.Missing? || e.kind.Regular?)
  }

  /** The event has a new directory registered and scanned. */
  predicate AddsTree(c: Config, e: Input) {
    e.Change? && !c.ignored(e.path) && e.kind.Directory? && e.created
  }

  predicate Due(c: Config, pending: map<Path, int>, p: Path, now: int) {
    p in pending && now - pending[p] > c.debounce
  }

  /** The paths that wait after the first m turns, with the time of their event. */
  function PendingAt(c: Config, inputs: seq<Input>, m: nat): map<Path, int>
    requires m <= |inputs|
  {
    if m == 0 then map[]
    else
      var pending, e := PendingAt(c, inputs, m - 1), inputs[m - 1];
      match e
      case Change(p, _, _, now) => if Accepts(c, e, p) then pending[p := now] else pending
      case Tick(now) => map p | p in pending && !Due(c, pending, p, now) :: pending[p]
  }

  /** Turn m hands p over to be recorded. */
  predicate Records(c: Config, inputs: seq<Input>, m: nat, p: Path)
    requires m < |inputs|
  {
    inputs[m].Tick? && Due(c, PendingAt(c, inputs, m), p, inputs[m].now)
  }

  /** Between turns k and m nothing happens to p. */
  ghost predicate Still(c: Config, inputs: seq<Input>, k: nat, m: nat, p: Path)
    requires m <= |inputs|
  {
    forall j :: k < j < m ==> !Accepts(c, inputs[j], p) && !Records(c, inputs, j, p)
  }

  lemma {:induction false} PendingOrigin(c: Config, inputs: seq<Input>, m: nat, p: Path) returns (k: nat)
    requires m <= |inputs| && p in PendingAt(c, inputs, m)
    ensures k < m && Accepts(c, inputs[k], p) && PendingAt(c, inputs, m)[p] == inputs[k].now
    ensures Still(c, inputs, k, m, p)
  {
    k := m - 1;
    if !Accepts(c, inputs[k], p) { k := PendingOrigin(c, inputs, m - 1, p); }
  }

  lemma {:induction false} WaitsUntilRecorded(c: Config, inputs: seq<Input>, k: nat, m: nat, p: Path)
    requires k < m <= |inputs| && Accepts(c, inputs[k], p) && Still(c, inputs, k, m, p)
    ensures p in PendingAt(c, inputs, m) && PendingAt(c, inputs, m)[p] == inputs[k].now
  {
    if k < m - 1 {
      WaitsUntilRecorded(c, inputs, k, m - 1, p);
      assert !Accepts(c, inputs[m - 1], p) && !Records(c, inputs, m - 1, p);
    }
  }

  /** A file is handed over exactly at a tick later than its newest event by more
      than the debounce time, once per quiet spell. */
  lemma RecordedWhenQuiet(c: Config, inputs: seq<Input>, m: nat, p: Path)
    requires m < |inputs|
    ensures Records(c, inputs, m, p) <==>
            inputs[m].Tick?
            && exists k :: 0 <= k < m && Accepts(c, inputs[k], p) && Still(c, inputs, k, m, p)
                           && inputs[m].now - inputs[k].now > c.debounce
  {
    if p in PendingAt(c, inputs, m) {
      var k := PendingOrigin(c, inputs, m, p);
    }
    forall k | 0 <= k < m && Accepts(c, inputs[k], p) && Still(c, inputs, k, m, p)
      ensures p in PendingAt(c, inputs, m) && PendingAt(c, inputs, m)[p] == inputs[k].now
    {
      WaitsUntilRecorded(c, inputs, k, m, p);
    }
  }

  lemma {:induction false} WaitsOrWasRecorded(c: Config, inputs: seq<Input>, k: nat, m: nat, p: Path)
    requires k < m <= |inputs| && Accepts(c, inputs[k], p)
    ensures (exists r :: k < r < m && Records(c, inputs, r, p))
            || (p in PendingAt(c, inputs, m)
                && exists j :: k <= j < m && Accepts(c, inputs[j], p) && PendingAt(c, inputs, m)[p] == inputs[j].now)
  {
    if Accepts(c, inputs[m - 1], p) {
      assert PendingAt(c, inputs, m)[p] == inputs[m - 1].now;
    } else {
      WaitsOrWasRecorded(c, inputs, k, m - 1, p);
      if Records(c, inputs, m - 1, p) { assert k < m - 1; }
    }
  }

  /** No event is forgotten: by the first tick later than every event of the file
      since then by more than the debounce time, the file has been handed over
      after the event. */
  lemma NoEventForgotten(c: Config, inputs: seq<Input>, k: nat, m: nat, p: Path)
    requires k < m < |inputs| && Accepts(c, inputs[k], p) && inputs[m].Tick?
    requires forall j :: k <= j < m && Accepts(c, inputs[j], p) ==> inputs[m].now - inputs[j].now > c.debounce
    ensures exists r :: k < r <= m && Records(c, inputs, r, p)
  {
    WaitsOrWasRecorded(c, inputs, k, m, p);
    assert !(exists r :: k < r < m && Records(c, inputs, r, p)) ==> Records(c, inputs, m, p);
  }

  /** The loop's state, and what it did. */
  class Loop {
    const config: Config
    var pending: map<Path, int>
    ghost var inputs: seq<Input>

    ghost predicate Valid()
      reads this
    {
      pending == PendingAt(config, inputs, |inputs|)
    }

    constructor (config: Config)
      ensures Valid() && inputs == [] && this.config == config
    {
      this.config := config;
      pending, inputs := map[], [];
    }

    /** added: the directory to register and scan, if any; no event both waits and
        does that. */
    method OnEvent(path: Path, kind: Kind, created: bool, now: int) returns (added: Option<Path>)
      requires Valid()
      modifies this
      ensures Valid() && inputs == old(inputs) + [Change(path, kind, created, now)]
      ensures added == if AddsTree(config, Change(path, kind, created, now)) then Some(path) else None
      ensures added.Some? ==> pending == old(pending)
    {
      ghost var e := Change(path, kind, created, now);
      added := None;
      PendingPrefix(config, inputs, e, |inputs|);
      inputs := inputs + [e];
      if config.ignored(path) { return; }
      if kind.Symlink? { return; }
      if kind.Directory? {
        if created { added := Some(path); }
        return;
      }
      pending := pending[path := now];
    }

    method OnTick(now: int) returns (recorded: set<Path>)
      requires Valid()
      modifies this
      ensures Valid() && inputs == old(inputs) + [Tick(now)]
      ensures forall p :: p in recorded <==> Records(config, inputs, |inputs| - 1, p)
    {
      PendingPrefix(config, inputs, Tick(now), |inputs|);
      inputs := inputs + [Tick(now)];
      ghost var before := pending;
      var left := pending.Keys;
      recorded := {};
      while left != {}
        invariant left <= before.Keys && inputs == old(inputs) + [Tick(now)]
        invariant recorded == set p | p in before && p !in left && Due(config, before, p, now)
        invariant pending == map p | p in before && p !in recorded :: before[p]
        decreases left
      {
        var p :| p in left;
        left := left - {p};
        if now - pending[p] > config.debounce {
          recorded := recorded + {p};
          pending := pending - {p};
        }
      }
    }
  }

  lemma {:induction false} PendingPrefix(c: Config, inputs: seq<Input>, e: Input, m: nat)
    requires m <= |inputs|
    ensures PendingAt(c, inputs + [e], m) == PendingAt(c, inputs, m)
  {
    if m > 0 { PendingPrefix(c, inputs, e, m - 1); }
  }
}
