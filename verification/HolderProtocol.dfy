/** The handshake between a setup and the process that holds a workspace's namespaces. */
module HolderProtocol {
  import opened Text

  type Proc = nat
  type Workspace = nat
  type Hid = nat

  /** Where a holder stands: it has sent its pid and waits to be pinned; prepares its
      namespaces; has reported and waits for the commit byte; has the byte in its channel;
      holds; is gone. */
  datatype Stage = Unpinned | Preparing | Waiting | Told | Holding | Gone

  /** `open`: the caller still has its end of the channel. */
  datatype Holder = Holder(ws: Workspace, caller: Proc, open: bool, stage: Stage)

  datatype Task = Setup | Teardown

  type Records = map<Workspace, Hid>

  /** Where a setup or teardown stands; all points but `Idle` are under the registry lock. */
  datatype Pc =
    | Idle
    | Locked(task: Task, ws: Workspace)
    | Deciding(task: Task, ws: Workspace, records: Records)
    | Cleared(task: Task, ws: Workspace, records: Records)
    | Forked(ws: Workspace, records: Records, h: Hid)
    | Pinned(ws: Workspace, records: Records, h: Hid)
    | Reported(ws: Workspace, records: Records, h: Hid)
    | Recorded(ws: Workspace, h: Hid)

  datatype State = State(lock: Option<Proc>, recorded: Records, holders: map<Hid, Holder>, procs: map<Proc, Pc>)

  /** Records may be left over from before, of holders that are gone. */
  ghost predicate Initial(s: State) {
    && s.lock.None? && s.procs == map[]
    && (forall h :: h in s.holders ==> s.holders[h].stage.Gone? && !s.holders[h].open)
    && (forall w :: w in s.recorded ==> s.recorded[w] in s.holders && s.holders[s.recorded[w]].ws == w)
  }

  function PcOf(s: State, p: Proc): Pc {
    if p in s.procs then s.procs[p] else Idle
  }

  predicate IsAt(s: State, h: Hid, stage: Stage) {
    h in s.holders && s.holders[h].stage == stage
  }

  /** The commit byte was sent to it: it holds, or will. */
  predicate Committed(s: State, h: Hid) {
    IsAt(s, h, Told) || IsAt(s, h, Holding)
  }

  predicate Alive(s: State, h: Hid) {
    h in s.holders && !s.holders[h].stage.Gone?
  }

  // ----- steps -----

  datatype Event =
    | Begin(p: Proc, task: Task, ws: Workspace)
    | ReadRecords(p: Proc)
    | KeepLive(p: Proc)
    | StopRecorded(p: Proc)
    | FindStale(p: Proc)
    | FindNone(p: Proc)
    | Fork(p: Proc, h: Hid)
    | Pin(p: Proc)
    | Report(p: Proc)
    | Persist(p: Proc)
    | Commit(p: Proc)
    | Forget(p: Proc)
    | GiveUp(p: Proc)
    | Prepared(h: Hid)
    | SeeEof(h: Hid)
    | ReadCommit(h: Hid)
    | Die(h: Hid)

  function At(s: State, p: Proc, pc: Pc): State {
    s.(procs := s.procs[p := pc])
  }

  function SetStage(s: State, h: Hid, stage: Stage): State
    requires h in s.holders
  {
    s.(holders := s.holders[h := s.holders[h].(stage := stage)])
  }

  /** The process returns or dies: its lock is free and its channels are closed. */
  function Release(s: State, p: Proc): State {
    s.(procs := s.procs[p := Idle],
       lock := if s.lock == Some(p) then None else s.lock,
       holders := map h | h in s.holders :: if s.holders[h].caller == p then s.holders[h].(open := false) else s.holders[h])
  }

  /** When a step can be taken. */
  predicate Enabled(s: State, e: Event) {
    match e
    case Begin(p, _, _) => PcOf(s, p).Idle? && s.lock.None?
    case ReadRecords(p) => PcOf(s, p).Locked?
    case KeepLive(p) =>
      var pc := PcOf(s, p);
      pc.Deciding? && pc.task == Setup && pc.ws in pc.records && Alive(s, pc.records[pc.ws])
    case StopRecorded(p) =>
      var pc := PcOf(s, p);
      pc.Deciding? && pc.ws in pc.records && Alive(s, pc.records[pc.ws])
    case FindStale(p) =>
      var pc := PcOf(s, p);
      pc.Deciding? && pc.ws in pc.records && !Alive(s, pc.records[pc.ws])
    case FindNone(p) =>
      var pc := PcOf(s, p);
      pc.Deciding? && pc.ws !in pc.records
    case Fork(p, h) => PcOf(s, p).Cleared? && PcOf(s, p).task == Setup && h !in s.holders
    case Pin(p) => PcOf(s, p).Forked? && IsAt(s, PcOf(s, p).h, Unpinned)
    case Report(p) => PcOf(s, p).Pinned? && IsAt(s, PcOf(s, p).h, Waiting)
    case Persist(p) => PcOf(s, p).Reported?
    case Commit(p) => PcOf(s, p).Recorded? && IsAt(s, PcOf(s, p).h, Waiting)
    case Forget(p) => PcOf(s, p).Cleared? && PcOf(s, p).task == Teardown
    case GiveUp(p) => true
    case Prepared(h) => IsAt(s, h, Preparing)
    case SeeEof(h) => (IsAt(s, h, Unpinned) || IsAt(s, h, Waiting)) && !s.holders[h].open
    case ReadCommit(h) => IsAt(s, h, Told)
    case Die(h) => h in s.holders
  }

  /** What a step does. */
  function Next(s: State, e: Event): State
    requires Enabled(s, e)
  {
    match e
    case Begin(p, task, ws) => At(s, p, Locked(task, ws)).(lock := Some(p))
    case ReadRecords(p) => At(s, p, Deciding(PcOf(s, p).task, PcOf(s, p).ws, s.recorded))
    case KeepLive(p) => Release(s, p)
    case StopRecorded(p) =>
      var pc := PcOf(s, p);
      At(SetStage(s, pc.records[pc.ws], Gone), p, Cleared(pc.task, pc.ws, pc.records))
    case FindStale(p) =>
      var pc := PcOf(s, p);
      At(s, p, Cleared(pc.task, pc.ws, pc.records))
    case FindNone(p) =>
      var pc := PcOf(s, p);
      if pc.task == Setup then At(s, p, Cleared(pc.task, pc.ws, pc.records)) else Release(s, p)
    case Fork(p, h) =>
      var pc := PcOf(s, p);
      At(s, p, Forked(pc.ws, pc.records, h)).(holders := s.holders[h := Holder(pc.ws, p, true, Unpinned)])
    case Pin(p) =>
      var pc := PcOf(s, p);
      At(SetStage(s, pc.h, Preparing), p, Pinned(pc.ws, pc.records, pc.h))
    case Report(p) =>
      var pc := PcOf(s, p);
      At(s, p, Reported(pc.ws, pc.records, pc.h))
    case Persist(p) =>
      var pc := PcOf(s, p);
      At(s, p, Recorded(pc.ws, pc.h)).(recorded := pc.records[pc.ws := pc.h])
    case Commit(p) => Release(SetStage(s, PcOf(s, p).h, Told), p)
    case Forget(p) =>
      var pc := PcOf(s, p);
      Release(s, p).(recorded := pc.records - {pc.ws})
    case GiveUp(p) => Release(s, p)
    case Prepared(h) => SetStage(s, h, Waiting)
    case SeeEof(h) => SetStage(s, h, Gone)
    case ReadCommit(h) => SetStage(s, h, Holding)
    case Die(h) => SetStage(s, h, Gone)
  }

  // ----- the invariant -----

  /** Has started a holder that it has not let go yet. */
  predicate Minds(pc: Pc) {
    pc.Forked? || pc.Pinned? || pc.Reported? || pc.Recorded?
  }

  /** Nothing is holding, or told to hold, for the workspace. */
  ghost predicate Vacant(s: State, ws: Workspace) {
    forall h: Hid :: Committed(s, h) ==> s.holders[h].ws != ws
  }

  ghost predicate PcOk(s: State, p: Proc) {
    var pc := PcOf(s, p);
    && (!pc.Idle? ==> s.lock == Some(p))
    && (pc.Deciding? || pc.Cleared? || pc.Forked? || pc.Pinned? || pc.Reported? ==> pc.records == s.recorded)
    && (pc.Cleared? || Minds(pc) ==> Vacant(s, pc.ws))
    && (Minds(pc) ==> pc.h in s.holders && s.holders[pc.h].ws == pc.ws && s.holders[pc.h].caller == p && s.holders[pc.h].open)
    && (pc.Recorded? ==> pc.ws in s.recorded && s.recorded[pc.ws] == pc.h)
  }

  ghost predicate HolderOk(s: State, h: Hid)
    requires h in s.holders
  {
    && (Committed(s, h) ==> s.holders[h].ws in s.recorded && s.recorded[s.holders[h].ws] == h)
    && (s.holders[h].open ==> Minds(PcOf(s, s.holders[h].caller)) && PcOf(s, s.holders[h].caller).h == h)
  }

  ghost predicate RecordsOk(s: State) {
    forall w :: w in s.recorded ==> s.recorded[w] in s.holders && s.holders[s.recorded[w]].ws == w
  }

  ghost predicate Inv(s: State) {
    && (forall p: Proc :: PcOk(s, p))
    && (forall h: Hid :: h in s.holders ==> HolderOk(s, h))
    && RecordsOk(s)
  }

  lemma InitialInv(s: State)
    requires Initial(s)
    ensures Inv(s)
  {
  }

  predicate Acts(e: Event) {
    !e.Prepared? && !e.SeeEof? && !e.ReadCommit? && !e.Die?
  }

  /** Only a commit tells a holder to hold. */
  lemma CommittedBefore(s: State, e: Event)
    requires Enabled(s, e)
    ensures var s' := Next(s, e);
            forall h: Hid :: Committed(s', h) ==> (Committed(s, h) || (e.Commit? && h == PcOf(s, e.p).h)) && s'.holders[h].ws == s.holders[h].ws
  {
  }

  lemma VacantStays(s: State, e: Event, ws: Workspace)
    requires Enabled(s, e) && Vacant(s, ws) && !e.Commit?
    ensures Vacant(Next(s, e), ws)
  {
    CommittedBefore(s, e);
  }

  /** Stopping the recorded holder, or finding it gone, leaves nobody holding. */
  lemma VacantAfterStop(s: State, e: Event)
    requires Inv(s) && Enabled(s, e) && (e.StopRecorded? || e.FindStale? || e.FindNone?)
    ensures Vacant(Next(s, e), PcOf(s, e.p).ws)
  {
    assert PcOk(s, e.p);
    var s', ws := Next(s, e), PcOf(s, e.p).ws;
    CommittedBefore(s, e);
    forall h: Hid | Committed(s', h) ensures s'.holders[h].ws != ws {
      assert HolderOk(s, h);
    }
  }

  lemma ActorKeeps(s: State, e: Event)
    requires Inv(s) && Enabled(s, e) && Acts(e)
    ensures PcOk(Next(s, e), e.p)
  {
    assert PcOk(s, e.p);
    if e.StopRecorded? || e.FindStale? || e.FindNone? {
      VacantAfterStop(s, e);
    } else if !e.Commit? && (PcOf(s, e.p).Cleared? || Minds(PcOf(s, e.p))) {
      VacantStays(s, e, PcOf(s, e.p).ws);
    }
  }

  /** While one process is under the lock, the others are idle. */
  lemma BystanderKeeps(s: State, e: Event, q: Proc)
    requires Inv(s) && Enabled(s, e) && Acts(e) && q != e.p
    ensures PcOk(Next(s, e), q)
  {
    assert PcOk(s, e.p) && PcOk(s, q);
    if e.GiveUp? && (PcOf(s, q).Cleared? || Minds(PcOf(s, q))) {
      VacantStays(s, e, PcOf(s, q).ws);
    }
  }

  lemma HolderStep(s: State, e: Event, q: Proc)
    requires Inv(s) && Enabled(s, e) && !Acts(e)
    ensures PcOk(Next(s, e), q)
  {
    assert PcOk(s, q);
    if PcOf(s, q).Cleared? || Minds(PcOf(s, q)) {
      VacantStays(s, e, PcOf(s, q).ws);
    }
  }

  /** Who minds a holder, and whether its channel is open. */
  lemma OpenKeeps(s: State, e: Event, h: Hid)
    requires Inv(s) && Enabled(s, e) && h in Next(s, e).holders && Next(s, e).holders[h].open
    ensures var s' := Next(s, e); Minds(PcOf(s', s'.holders[h].caller)) && PcOf(s', s'.holders[h].caller).h == h
  {
    if h in s.holders {
      assert HolderOk(s, h);
    }
    if Acts(e) {
      assert PcOk(s, e.p);
    }
  }

  lemma HolderKeeps(s: State, e: Event, h: Hid)
    requires Inv(s) && Enabled(s, e) && h in Next(s, e).holders
    ensures HolderOk(Next(s, e), h)
  {
    if Next(s, e).holders[h].open {
      OpenKeeps(s, e, h);
    }
    CommittedBefore(s, e);
    if Committed(Next(s, e), h) {
      assert HolderOk(s, h);
      if Acts(e) {
        assert PcOk(s, e.p);
      }
    }
  }

  lemma RecordsKeep(s: State, e: Event)
    requires Inv(s) && Enabled(s, e)
    ensures RecordsOk(Next(s, e))
  {
    if Acts(e) {
      assert PcOk(s, e.p);
    }
  }

  lemma StepKeeps(s: State, e: Event)
    requires Inv(s) && Enabled(s, e)
    ensures Inv(Next(s, e))
  {
    forall p: Proc ensures PcOk(Next(s, e), p) {
      if !Acts(e) {
        HolderStep(s, e, p);
      } else if p == e.p {
        ActorKeeps(s, e);
      } else {
        BystanderKeeps(s, e, p);
      }
    }
    forall h: Hid | h in Next(s, e).holders ensures HolderOk(Next(s, e), h) {
      HolderKeeps(s, e, h);
    }
    RecordsKeep(s, e);
  }

  // ----- whole runs -----

  predicate CanRun(s: State, es: seq<Event>)
    decreases |es|
  {
    es == [] || (Enabled(s, es[0]) && CanRun(Next(s, es[0]), es[1..]))
  }

  function After(s: State, es: seq<Event>): State
    requires CanRun(s, es)
    decreases |es|
  {
    if es == [] then s else After(Next(s, es[0]), es[1..])
  }

  lemma {:induction false} RunKeeps(s: State, es: seq<Event>)
    requires Inv(s) && CanRun(s, es)
    ensures Inv(After(s, es))
    decreases |es|
  {
    if es != [] {
      StepKeeps(s, es[0]);
      RunKeeps(Next(s, es[0]), es[1..]);
    }
  }

  /** Over any interleaving with crashes at any point, a holder that has passed its commit wait
      is the one recorded for its workspace, so at most one holds for each workspace. */
  lemma HolderRuns(s: State, es: seq<Event>, h: Hid, k: Hid)
    requires Initial(s) && CanRun(s, es)
    ensures var t := After(s, es);
            && (IsAt(t, h, Holding) ==> t.holders[h].ws in t.recorded && t.recorded[t.holders[h].ws] == h)
            && (IsAt(t, h, Holding) && IsAt(t, k, Holding) && t.holders[h].ws == t.holders[k].ws ==> h == k)
  {
    InitialInv(s);
    RunKeeps(s, es);
    var t := After(s, es);
    assert h in t.holders ==> HolderOk(t, h);
    assert k in t.holders ==> HolderOk(t, k);
  }

  // ----- a holder that was given up -----

  /** Its channel is closed and no commit byte is in it. */
  predicate Orphan(s: State, h: Hid) {
    h in s.holders && !s.holders[h].open && !Committed(s, h)
  }

  lemma OrphanStep(s: State, e: Event, h: Hid)
    requires Inv(s) && Enabled(s, e) && Orphan(s, h)
    ensures Orphan(Next(s, e), h)
  {
    if Acts(e) {
      assert PcOk(s, e.p);
    }
  }

  /** A holder whose setup gave up or died before committing never holds, and when it waits
      it can see that. */
  lemma {:induction false} OrphanNeverHolds(s: State, es: seq<Event>, h: Hid)
    requires Inv(s) && CanRun(s, es) && Orphan(s, h)
    ensures Orphan(After(s, es), h)
    ensures IsAt(After(s, es), h, Waiting) || IsAt(After(s, es), h, Unpinned) ==> Enabled(After(s, es), SeeEof(h))
    decreases |es|
  {
    if es != [] {
      StepKeeps(s, es[0]);
      OrphanStep(s, es[0], h);
      OrphanNeverHolds(Next(s, es[0]), es[1..], h);
    }
  }

  // ----- what a successful setup leaves behind -----

  /** A setup that keeps the recorded holder leaves either a committed one or an orphan: there is
      no third case, since the lock is held. */
  lemma KeptIsCommittedOrOrphan(s: State, p: Proc)
    requires Inv(s) && Enabled(s, KeepLive(p))
    ensures var h := PcOf(s, p).records[PcOf(s, p).ws];
            && h in s.holders && s.holders[h].ws == PcOf(s, p).ws && PcOf(s, p).ws in s.recorded && s.recorded[PcOf(s, p).ws] == h
            && (Committed(s, h) <==> !Orphan(s, h))
            && (Committed(Next(s, KeepLive(p)), h) <==> Committed(s, h)) && (Orphan(Next(s, KeepLive(p)), h) <==> Orphan(s, h))
  {
    assert PcOk(s, p);
    var h := PcOf(s, p).records[PcOf(s, p).ws];
    assert HolderOk(s, h);
    assert PcOk(s, s.holders[h].caller);
  }

  /** So after a successful setup the recorded holder comes to hold exactly when the setup that
      started it had sent the commit byte: else, over every further run, it never does. */
  lemma SetupLeaves(s: State, p: Proc, es: seq<Event>)
    requires Inv(s) && Enabled(s, KeepLive(p)) && CanRun(Next(s, KeepLive(p)), es)
    ensures var h := PcOf(s, p).records[PcOf(s, p).ws];
            !Committed(s, h) ==> !Committed(After(Next(s, KeepLive(p)), es), h)
    ensures var h, t := PcOf(s, p).records[PcOf(s, p).ws], Next(s, KeepLive(p));
            Committed(s, h) ==> IsAt(t, h, Holding) || (Enabled(t, ReadCommit(h)) && IsAt(Next(t, ReadCommit(h)), h, Holding))
  {
    var h, t := PcOf(s, p).records[PcOf(s, p).ws], Next(s, KeepLive(p));
    KeptIsCommittedOrOrphan(s, p);
    StepKeeps(s, KeepLive(p));
    if !Committed(s, h) {
      OrphanNeverHolds(t, es, h);
    }
  }

  /** The second case happens: the first setup dies between recording and committing, the second
      finds its holder alive and succeeds, and the holder sees the end of its channel. */
  function LostRun(ws: Workspace, h: Hid): seq<Event> {
    [Begin(1, Setup, ws), ReadRecords(1), FindNone(1), Fork(1, h), Pin(1), Prepared(h), Report(1), Persist(1), GiveUp(1),
     Begin(2, Setup, ws), ReadRecords(2), KeepLive(2), SeeEof(h)]
  }

  const Empty: State := State(None, map[], map[], map[])

  /** The state after the first setup has died. */
  function Died(ws: Workspace, h: Hid): State {
    State(None, map[ws := h], map[h := Holder(ws, 1, false, Waiting)], map[1 := Idle])
  }

  lemma RunFirst(s: State, e: Event, es: seq<Event>, t: State)
    requires Enabled(s, e) && Next(s, e) == t && CanRun(t, es)
    ensures CanRun(s, [e] + es) && After(s, [e] + es) == After(t, es)
  {
    assert ([e] + es)[1..] == es;
  }

  lemma {:induction false} RunsJoin(s: State, a: seq<Event>, b: seq<Event>)
    requires CanRun(s, a) && CanRun(After(s, a), b)
    ensures CanRun(s, a + b) && After(s, a + b) == After(After(s, a), b)
    decreases |a|
  {
    if a == [] {
      assert a + b == b;
    } else {
      assert (a + b)[1..] == a[1..] + b;
      RunsJoin(Next(s, a[0]), a[1..], b);
    }
  }

  /** The state after the first setup has started its holder. */
  function Born(ws: Workspace, h: Hid): State {
    State(Some(1), map[], map[h := Holder(ws, 1, true, Unpinned)], map[1 := Forked(ws, map[], h)])
  }

  lemma FirstForks(ws: Workspace, h: Hid)
    ensures CanRun(Empty, LostRun(ws, h)[..4]) && After(Empty, LostRun(ws, h)[..4]) == Born(ws, h)
  {
    var s1 := Next(Empty, Begin(1, Setup, ws));
    var s2 := Next(s1, ReadRecords(1));
    var s3 := Next(s2, FindNone(1));
    assert Next(s3, Fork(1, h)) == Born(ws, h);
    var l3 := [Fork(1, h)];
    var l2 := [FindNone(1)] + l3;
    var l1 := [ReadRecords(1)] + l2;
    assert l3 == [Fork(1, h)] + [];
    RunFirst(s3, Fork(1, h), [], Born(ws, h));
    RunFirst(s2, FindNone(1), l3, s3);
    RunFirst(s1, ReadRecords(1), l2, s2);
    RunFirst(Empty, Begin(1, Setup, ws), l1, s1);
    assert LostRun(ws, h)[..4] == [Begin(1, Setup, ws)] + l1;
  }

  lemma FirstRecords(ws: Workspace, h: Hid)
    ensures CanRun(Born(ws, h), LostRun(ws, h)[4..9]) && After(Born(ws, h), LostRun(ws, h)[4..9]) == Died(ws, h)
  {
    var s5 := Next(Born(ws, h), Pin(1));
    var s6 := Next(s5, Prepared(h));
    var s7 := Next(s6, Report(1));
    var s8 := Next(s7, Persist(1));
    assert Next(s8, GiveUp(1)) == Died(ws, h);
    var l4 := [GiveUp(1)];
    var l3 := [Persist(1)] + l4;
    var l2 := [Report(1)] + l3;
    var l1 := [Prepared(h)] + l2;
    assert l4 == [GiveUp(1)] + [];
    RunFirst(s8, GiveUp(1), [], Died(ws, h));
    RunFirst(s7, Persist(1), l4, s8);
    RunFirst(s6, Report(1), l3, s7);
    RunFirst(s5, Prepared(h), l2, s6);
    RunFirst(Born(ws, h), Pin(1), l1, s5);
    assert LostRun(ws, h)[4..9] == [Pin(1)] + l1;
  }

  lemma FirstDies(ws: Workspace, h: Hid)
    ensures CanRun(Empty, LostRun(ws, h)[..9]) && After(Empty, LostRun(ws, h)[..9]) == Died(ws, h)
  {
    FirstForks(ws, h);
    FirstRecords(ws, h);
    RunsJoin(Empty, LostRun(ws, h)[..4], LostRun(ws, h)[4..9]);
    assert LostRun(ws, h)[..4] + LostRun(ws, h)[4..9] == LostRun(ws, h)[..9];
  }

  lemma SecondKeeps(ws: Workspace, h: Hid)
    ensures CanRun(Died(ws, h), LostRun(ws, h)[9..]) && IsAt(After(Died(ws, h), LostRun(ws, h)[9..]), h, Gone)
    ensures After(Died(ws, h), LostRun(ws, h)[9..]).recorded == map[ws := h]
  {
    var s0 := Died(ws, h);
    var s1 := Next(s0, Begin(2, Setup, ws));
    var s2 := Next(s1, ReadRecords(2));
    var s3 := Next(s2, KeepLive(2));
    var s4 := Next(s3, SeeEof(h));
    RunFirst(s3, SeeEof(h), [], s4);
    RunFirst(s2, KeepLive(2), [SeeEof(h)] + [], s3);
    RunFirst(s1, ReadRecords(2), [KeepLive(2)] + ([SeeEof(h)] + []), s2);
    RunFirst(s0, Begin(2, Setup, ws), [ReadRecords(2)] + ([KeepLive(2)] + ([SeeEof(h)] + [])), s1);
    assert LostRun(ws, h)[9..] == [Begin(2, Setup, ws)] + ([ReadRecords(2)] + ([KeepLive(2)] + ([SeeEof(h)] + [])));
  }

  /** A run in which a setup succeeds and its workspace is left with a recorded holder that is gone. */
  lemma SetupOnLostHolder(ws: Workspace, h: Hid)
    ensures Initial(Empty) && CanRun(Empty, LostRun(ws, h)) && LostRun(ws, h)[11] == KeepLive(2)
    ensures var t := After(Empty, LostRun(ws, h)); t.recorded == map[ws := h] && IsAt(t, h, Gone)
  {
    FirstDies(ws, h);
    SecondKeeps(ws, h);
    RunsJoin(Empty, LostRun(ws, h)[..9], LostRun(ws, h)[9..]);
    assert LostRun(ws, h)[..9] + LostRun(ws, h)[9..] == LostRun(ws, h);
  }
}
