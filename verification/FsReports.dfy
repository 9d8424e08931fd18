/** What `getcwd` and `realpath` report always leads back to the node it was reported for. */
module FsReports {
  import opened Text
  import opened FsState
  import opened FsTree
  import opened FsPaths
  import opened FsReach
  import opened FsOps
  import opened FsWellFormed
  import opened FsEdits
  import opened FsIsolation
  import opened FsScaffold

  lemma LiveLinked(s: Fs, n: nat)
    requires WellFormed(s) && IsDir(s, n) && !IsDetached(s, n)
    ensures Linked(s, n)
  {
    LiveSelf(s, n);
    assert NodeOk(s, n);
  }

  /** The outcome names node `n`: looking the text up, from any directory, finds it again. */
  ghost predicate LeadsBack(s: Fs, o: Outcome, n: nat)
    requires Closed(s)
  {
    && o.Returned? && o.ret == |o.data|
    && (|o.data| < PathMax(s) ==>
          forall start: nat :: Valid(s, start) ==> Resolve(s, Virtual, start, o.data, false, 0) == Found(n, 0))
  }

  lemma ReportLeadsBack(s: Fs, n: nat)
    requires Scaffold(s) && Visible(s, n) && Linked(s, n)
    ensures LeadsBack(s, ReportPath(s, n).outcome, n)
  {
    VirtualSound(s, n);
    forall start: nat | Valid(s, start) && |FullPath(s, Virtual, n)| < PathMax(s)
      ensures Resolve(s, Virtual, start, FullPath(s, Virtual, n), false, 0) == Found(n, 0)
    {
      FullPathInverse(s, start, n);
    }
  }

  lemma GetcwdLeadsBack(s: Fs)
    requires Scaffold(s) && Visible(s, s.cwd)
    ensures var o := Decide(s, Getcwd).outcome;
            if IsDetached(s, s.cwd) then o == Failed(ENOENT) else LeadsBack(s, o, s.cwd)
  {
    if !IsDetached(s, s.cwd) {
      LiveLinked(s, s.cwd);
      ReportLeadsBack(s, s.cwd);
    }
  }

  lemma RealpathLeadsBack(s: Fs, path: Bytes)
    requires Scaffold(s) && Isolated(s)
    ensures Ready(s)
    ensures var o := Decide(s, Realpath(path)).outcome;
            var found := Find(s, Cwd, path, true);
            if (path == [] || path[0] != SLASH) && IsDetached(s, s.cwd) then o == Failed(ENOENT)
            else if found.Missing? then o == Failed(found.errno)
            else LeadsBack(s, o, found.node)
  {
    FormedReady(s);
    var found := Find(s, Cwd, path, true);
    if ((path != [] && path[0] == SLASH) || !IsDetached(s, s.cwd)) && found.Found? {
      FindVisible(s, Cwd, path, true);
      FoundLinked(s, path);
      ReportLeadsBack(s, found.node);
    }
  }

  lemma FoundLinked(s: Fs, path: Bytes)
    requires Scaffold(s) && Ready(s) && ((path != [] && path[0] == SLASH) || !IsDetached(s, s.cwd))
    ensures var r := Find(s, Cwd, path, true); r.Found? ==> Linked(s, r.node)
  {
    ScaffoldMounts(s);
    ScaffoldRoot(s);
    if path != [] && path[0] == SLASH {
      assert Resolve(s, Virtual, s.cwd, path, true, 0) == Resolve(s, Virtual, ROOT, path, true, 0);
      ResolveLinked(s, Virtual, ROOT, path, true, 0);
    } else {
      LiveLinked(s, s.cwd);
      ResolveLinked(s, Virtual, s.cwd, path, true, 0);
    }
  }

  /** Over every safe run: neither call ever hangs, and a success leads back to the node. */
  lemma RunLeadsBack(s: Fs, keep: set<nat>, ops: seq<Op>, path: Bytes)
    requires Scaffold(s) && Isolated(s) && Covers(s, keep) && SafeRun(s, keep, ops)
    ensures var t := After(s, ops);
            && Ready(t)
            && (Apply(t, Getcwd).1.Failed? || LeadsBack(t, Apply(t, Getcwd).1, t.cwd))
            && (Apply(t, Realpath(path)).1.Failed?
                || (Find(t, Cwd, path, true).Found? && LeadsBack(t, Apply(t, Realpath(path)).1, Find(t, Cwd, path, true).node)))
  {
    RunScaffold(s, keep, ops);
    RunIsolated(s, ops);
    GetcwdLeadsBack(After(s, ops));
    RealpathLeadsBack(After(s, ops), path);
  }
}
