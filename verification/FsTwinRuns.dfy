/** Noninterference over whole runs. */
module FsTwinRuns {
  import opened Text
  import opened FsState
  import opened FsTree
  import opened FsPaths
  import opened FsReach
  import opened FsOps
  import opened FsWellFormed
  import opened FsEdits
  import opened FsIsolation
  import opened FsTwins
  import opened FsNoninterference
  import opened FsRoutes
  import opened FsScaffold
  import opened LinuxMounts

  /** No rename or rmdir of the run tests a mountpoint for emptiness. */
  ghost predicate DiscreetRun(s: Fs, ops: seq<Op>)
    requires WellFormed(s)
    decreases |ops|
  {
    ops == [] || (
      && (FormedReady(s); Discreet(s, ops[0]))
      && DiscreetRun(Apply(s, ops[0]).0, ops[1..]))
  }

  /** Before each rename of the run, the private temp directories are looked up in visible
      directories only. On macOS nothing is looked up, so nothing is asked. */
  ghost predicate SeenRun(s: Fs, ops: seq<Op>)
    requires WellFormed(s)
    decreases |ops|
  {
    ops == [] || ((ops[0].Rename? ==> SeenRoutes(s)) && SeenRun(Apply(s, ops[0]).0, ops[1..]))
  }

  /** Two models that differ only below mountpoints return the same outcomes over every run that
      does not test a mountpoint for emptiness and whose renames do not look below one. */
  lemma {:induction false} TwinRuns(s: Fs, t: Fs, ops: seq<Op>)
    requires Twins(s, t) && DiscreetRun(s, ops) && SeenRun(s, ops)
    ensures Outcomes(s, ops) == Outcomes(t, ops) && Twins(After(s, ops), After(t, ops))
    decreases |ops|
  {
    if ops != [] {
      TwinPeers(s, t);
      if ops[0].Rename? {
        SeenSame(s, t);
      }
      StepTwins(s, t, ops[0]);
      TwinRuns(Apply(s, ops[0]).0, Apply(t, ops[0]).0, ops[1..]);
    }
  }

  /** A rename that another model decides differently, where the two differ only below mountpoints,
      looks a route up below one. */
  lemma RenameDiffers(s: Fs, t: Fs, from: Bytes, to: Bytes)
    requires Twins(s, t) && Ready(s) && Discreet(s, Rename(from, to)) && Decide(t, Rename(from, to)) != Decide(s, Rename(from, to))
    ensures !IsMac(s) && !SeenRoutes(s)
  {
    TwinPeers(s, t);
    if SeenRoutes(s) {
      SeenSame(s, t);
      DecideTwin(s, t, Rename(from, to));
    }
  }

  // ----- macOS -----

  lemma ProfileStays(s: Fs, op: Op)
    requires WellFormed(s)
    ensures Apply(s, op).0.profile == s.profile
  {
    DecideSensible(s, op);
    EditFormed(s, Decide(s, op).edit);
    SettingsStay(s, Decide(s, op).edit);
  }

  lemma {:induction false} MacSeen(s: Fs, ops: seq<Op>)
    requires WellFormed(s) && IsMac(s)
    ensures SeenRun(s, ops)
    decreases |ops|
  {
    if ops != [] {
      ProfileStays(s, ops[0]);
      MacSeen(Apply(s, ops[0]).0, ops[1..]);
    }
  }

  /** On macOS the second condition always holds. */
  lemma MacTwinRuns(s: Fs, t: Fs, ops: seq<Op>)
    requires Twins(s, t) && IsMac(s) && DiscreetRun(s, ops)
    ensures Outcomes(s, ops) == Outcomes(t, ops) && Twins(After(s, ops), After(t, ops))
  {
    MacSeen(s, ops);
    TwinRuns(s, t, ops);
  }

  // ----- Linux runs that leave the private temp directories in place -----

  lemma RouteSeen(s: Fs, n: nat, text: Bytes)
    requires WellFormed(s) && NamedDir(s, n, text) && Visible(s, n)
    ensures SeenResolve(s, ROOT, text, true, 0)
  {
    LinkedChain(s, n);
    var names := FullNames(s, Physical, n);
    PhysicalSound(s, n);
    SoundNames(s, Physical, n);
    CompsPathOf(names);
    PathOfEnd(names);
    NamesSeen(s, n, [], true, false, 0);
    assert names + [] == names;
  }

  lemma AnchorStep(s: Fs, tmp: nat, varTmp: nat, op: Op)
    requires Isolated(s) && Anchored(s, tmp, varTmp) && Visible(s, tmp) && Visible(s, varTmp)
    requires Guarded(s, {tmp, varTmp}, Decide(s, op).edit)
    ensures var s' := Apply(s, op).0; Isolated(s') && Anchored(s', tmp, varTmp) && Visible(s', tmp) && Visible(s', varTmp)
  {
    StepKeeps(s, {tmp, varTmp}, op);
    AnchoredKept(s, Apply(s, op).0, {tmp, varTmp}, tmp, varTmp);
    StepShield(s, op);
    assert ShieldedNode(s, Apply(s, op).0, tmp) && ShieldedNode(s, Apply(s, op).0, varTmp);
  }

  /** A run that leaves the private temp directories in place looks them up by name. */
  lemma {:induction false} SafeSeen(s: Fs, tmp: nat, varTmp: nat, ops: seq<Op>)
    requires Isolated(s) && Anchored(s, tmp, varTmp) && Visible(s, tmp) && Visible(s, varTmp) && SafeRun(s, {tmp, varTmp}, ops)
    ensures SeenRun(s, ops)
    decreases |ops|
  {
    if ops != [] {
      RouteSeen(s, tmp, s.profile.root + TMP_SUFFIX);
      RouteSeen(s, varTmp, s.profile.root + VAR_TMP_SUFFIX);
      AnchorStep(s, tmp, varTmp, ops[0]);
      SafeSeen(Apply(s, ops[0]).0, tmp, varTmp, ops[1..]);
    }
  }

  /** So on Linux such runs return the same outcomes, too. */
  lemma SafeTwinRuns(s: Fs, t: Fs, tmp: nat, varTmp: nat, ops: seq<Op>)
    requires Twins(s, t) && Anchored(s, tmp, varTmp) && Visible(s, tmp) && Visible(s, varTmp)
    requires SafeRun(s, {tmp, varTmp}, ops) && DiscreetRun(s, ops)
    ensures Outcomes(s, ops) == Outcomes(t, ops) && Twins(After(s, ops), After(t, ops))
  {
    SafeSeen(s, tmp, varTmp, ops);
    TwinRuns(s, t, ops);
  }
}
