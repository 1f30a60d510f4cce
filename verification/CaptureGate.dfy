/** The real-time capture gate's decision (watch.go captureDecision): when skipping
    a capture is sound, in the life of one file. Times are integers, the unit the
    file system's clock reads in. */
module CaptureGate {
  import opened Base

  datatype Stat = Stat(size: int, mtime: int, ctime: int)
  datatype CaptureState = CaptureState(stat: Stat, capturedAt: int)

  /** True: capture. False: the file is taken to be unchanged. */
  predicate CaptureDecision(cur: Stat, prev: CaptureState, slop: int) {
    if cur.size != prev.stat.size || cur.mtime != prev.stat.mtime || cur.ctime != prev.stat.ctime then true
    else if cur.ctime == 0 || prev.stat.ctime == 0 then true
    else prev.stat.mtime >= prev.capturedAt - slop
  }

  // A file's life

  /** One write of a file: when, what, and the times it left in the inode. */
  datatype Write = Write(at: int, content: Bytes, mtime: int, ctime: int)

  function StatOf(w: Write): Stat { Stat(|w.content|, w.mtime, w.ctime) }

  /** A capture and a later check of one file. The capture read the content when
      readVersion writes had happened, statted the file when statVersion had and
      read the clock after that; the check statted it when checkVersion had. */
  datatype Scenario = Scenario(
    writes: seq<Write>,
    readAt: int, readVersion: nat,
    statVersion: nat, capturedAt: int,
    checkVersion: nat)

  /** At time t exactly the first v writes had happened. */
  ghost predicate VersionAt(writes: seq<Write>, v: nat, t: int) {
    && 1 <= v <= |writes|
    && (forall i :: 0 <= i < v ==> writes[i].at <= t)
    && (forall i :: v <= i < |writes| ==> t <= writes[i].at)
  }

  ghost predicate WellFormed(c: Scenario) {
    && VersionAt(c.writes, c.readVersion, c.readAt)
    && c.readVersion <= c.statVersion <= c.checkVersion <= |c.writes|
    && c.readAt <= c.capturedAt
  }

  function ReadContent(c: Scenario): Bytes
    requires 1 <= c.readVersion <= |c.writes|
  {
    c.writes[c.readVersion - 1].content
  }

  function DiskContent(c: Scenario): Bytes
    requires 1 <= c.checkVersion <= |c.writes|
  {
    c.writes[c.checkVersion - 1].content
  }

  /** The gate says skip at the check. */
  ghost predicate Skips(c: Scenario, slop: int)
    requires WellFormed(c)
  {
    !CaptureDecision(StatOf(c.writes[c.checkVersion - 1]),
                     CaptureState(StatOf(c.writes[c.statVersion - 1]), c.capturedAt), slop)
  }

  /** A clock reading rounded down to granularity g. */
  function Rounded(t: int, g: int): int
    requires g > 0
  {
    t - t % g
  }

  /** Writers whose writes stamp both times with the rounded clock. */
  ghost predicate Stamped(writes: seq<Write>, g: int)
    requires g > 0
  {
    forall i :: 0 <= i < |writes| ==>
      writes[i].mtime == writes[i].ctime == Rounded(writes[i].at, g)
  }

  /** Every stamped life in which the time from reading to the gate's clock is gap. */
  ghost predicate SoundFor(g: int, gap: int, slop: int)
    requires g > 0
  {
    forall c: Scenario ::
      (WellFormed(c) && Stamped(c.writes, g) && c.capturedAt - c.readAt == gap && Skips(c, slop))
      ==> DiskContent(c) == ReadContent(c)
  }

  lemma SkipSeesNoLaterWrite(c: Scenario, g: int, slop: int)
    requires g > 0 && WellFormed(c) && Stamped(c.writes, g) && Skips(c, slop)
    requires c.capturedAt - c.readAt + g <= slop + 1
    ensures c.checkVersion == c.readVersion
  {
    var last := c.writes[c.checkVersion - 1];
    assert last.mtime == c.writes[c.statVersion - 1].mtime < c.capturedAt - slop;
    assert last.mtime == Rounded(last.at, g) > last.at - g;
    assert c.checkVersion > c.readVersion ==> last.at >= c.readAt;
  }

  /** A life the gate misjudges once the window is too narrow: the file is written
      again, at the same size and inside the same tick, after it was read. */
  function Missed(g: int, gap: int): Scenario
    requires g > 0 && gap >= 0
  {
    var t := 2 * g - 1;
    Scenario([Write(g, [0], g, g), Write(t, [1], g, g)], t, 1, 2, t + gap, 2)
  }

  lemma MissedIsMissed(g: int, gap: int, slop: int)
    requires g > 0 && gap >= 0 && gap + g > slop + 1
    ensures var c := Missed(g, gap);
            && WellFormed(c) && Stamped(c.writes, g) && c.capturedAt - c.readAt == gap
            && Skips(c, slop) && DiskContent(c) != ReadContent(c)
  {
    assert (g + (g - 1)) % g == g - 1;
    assert (g + 0) % g == 0;
  }

  /** The racy window is wide enough exactly when it covers the time from the
      capture's read to the gate's clock plus one tick, less the smallest unit. */
  lemma GateSoundExactly(g: int, gap: int, slop: int)
    requires g > 0 && gap >= 0
    ensures SoundFor(g, gap, slop) <==> gap + g <= slop + 1
  {
    if gap + g <= slop + 1 {
      forall c: Scenario | WellFormed(c) && Stamped(c.writes, g) && c.capturedAt - c.readAt == gap && Skips(c, slop)
        ensures DiskContent(c) == ReadContent(c)
      {
        SkipSeesNoLaterWrite(c, g, slop);
      }
    } else {
      MissedIsMissed(g, gap, slop);
      var c := Missed(g, gap);
      assert WellFormed(c) && Skips(c, slop) && DiskContent(c) != ReadContent(c);
    }
  }

  // Writers that put the old mtime back

  /** mtime is anything a writer likes; ctime moves forward on every change. */
  ghost predicate CtimeAdvances(writes: seq<Write>) {
    forall i, j :: 0 <= i < j < |writes| ==> writes[i].ctime < writes[j].ctime
  }

  /** Against such writers the gate is sound whatever the window, provided nothing
      is written between the capture's read and its stat. */
  lemma RewoundMtimeIsSeen(c: Scenario, slop: int)
    requires WellFormed(c) && CtimeAdvances(c.writes) && Skips(c, slop)
    requires c.statVersion == c.readVersion
    ensures c.checkVersion == c.readVersion && DiskContent(c) == ReadContent(c)
  {
  }

  /** Without that proviso no window is wide enough: a write that rewinds its
      mtime between the read and the stat is never noticed. */
  lemma RewoundMtimeCanHide(slop: int) returns (c: Scenario)
    ensures WellFormed(c) && CtimeAdvances(c.writes) && Skips(c, slop) && DiskContent(c) != ReadContent(c)
  {
    c := Scenario([Write(0, [0], -slop, 1), Write(1, [1], -slop, 2)], 1, 1, 2, 1, 2);
  }
}
