/** What every step of every interleaving keeps, and what follows for whole runs. */
module VmSafety {
  import opened Text
  import opened VmLifecycle

  /** Past the check that the workspace is still registered. */
  predicate Checked(pc: Pc) {
    pc.Executing? || (Holds(pc).Some? && !pc.SetupLocked? && !pc.TearLocked? && !pc.DelLocked?)
  }

  /** Carries a copy of the journal. */
  predicate Carries(pc: Pc) {
    || pc.SetupChecked? || pc.SetupAdmitted? || pc.SetupAlone? || pc.SetupProvisioning? || pc.SetupMade?
    || pc.SetupStarting? || pc.SetupProbing? || pc.TearChecked? || pc.TearStopping? || pc.TearStopped?
  }

  predicate Creating(pc: Pc) {
    pc.CreateRead? || pc.CreateJournaled?
  }

  /** About to start the only instance. */
  predicate Alone(pc: Pc) {
    pc.SetupAlone? || pc.SetupProvisioning? || pc.SetupMade? || pc.SetupStarting?
  }

  ghost predicate NeverFirst(s: Vms, o: Owner) {
    forall i :: 0 <= i < |s.creations| && s.creations[i].owner == o ==> !s.creations[i].first
  }

  ghost predicate StartsBelow(s: Vms, o: Owner, g: nat) {
    forall i :: 0 <= i < |s.starts| && s.starts[i].0 == o ==> s.starts[i].1 < g
  }

  ghost predicate NewOwner(s: Vms, o: Owner) {
    && o in s.used && o !in s.registry.Values && o !in s.removed
    && NeverFirst(s, o) && StartsBelow(s, o, 0)
  }

  /** The locks a process holds at its point. */
  ghost predicate PcLocks(s: Vms, p: Proc) {
    var pc := PcOf(s, p);
    && (Holds(pc).Some? ==> Holds(pc).value in s.locks && s.locks[Holds(pc).value] == p)
    && (Admitted(pc) ==> s.admission == Some(p))
    && (Creating(pc) ==> s.registryLock == Some(p))
    && (pc.Executing? ==> pc.vm.owner !in s.locks)
  }

  /** What it knows about the registry. */
  ghost predicate PcNames(s: Vms, p: Proc) {
    var pc := PcOf(s, p);
    && (Creating(pc) ==> pc.vm.id !in s.registry && NewOwner(s, pc.vm.owner))
    && (Checked(pc) ==> IsRegistered(s, pc.vm))
  }

  /** What it knows about the journal. */
  ghost predicate PcJournal(s: Vms, p: Proc) {
    var pc := PcOf(s, p);
    && (Carries(pc) ==> pc.j == JournalOf(s, pc.vm.owner) && pc.j.phase != Deleting)
    && (pc.DelMarked? || pc.DelGone? ==> JournalOf(s, pc.vm.owner).phase == Deleting)
    && (pc.SetupProvisioning? ==> pc.j.phase == Provisioning)
    && (pc.SetupStarting? ==> pc.j.phase == Starting)
    && (pc.TearStopping? ==> pc.j.phase == Stopping)
    && (pc.Executing? ==> JournalOf(s, pc.vm.owner).phase == Ready)
    && (pc.CreateRead? ==> pc.vm.owner !in s.journals)
  }

  /** What it knows about instances and their history. */
  ghost predicate PcHistory(s: Vms, p: Proc) {
    var pc := PcOf(s, p);
    && (Alone(pc) ==> NoneRunning(s))
    && (pc.SetupProvisioning? ==> (pc.first || pc.asked) && (pc.first ==> NeverFirst(s, pc.vm.owner)))
    && (pc.SetupStarting? ==> StartsBelow(s, pc.vm.owner, pc.j.generation))
  }

  ghost predicate PcOk(s: Vms, p: Proc) {
    PcLocks(s, p) && PcNames(s, p) && PcJournal(s, p) && PcHistory(s, p)
  }

  ghost predicate CreationOk(s: Vms, i: nat)
    requires i < |s.creations|
  {
    var c := s.creations[i];
    && c.owner in s.used && (c.first || c.asked)
    && (c.first ==> JournalOf(s, c.owner).phase != Created)
  }

  ghost predicate StartOk(s: Vms, i: nat)
    requires i < |s.starts|
  {
    s.starts[i].0 in s.used && s.starts[i].1 <= JournalOf(s, s.starts[i].0).generation
  }

  /** At most one creation of an owner was its first provisioning. */
  ghost predicate CreatedOnce(s: Vms) {
    forall i, k :: 0 <= i < k < |s.creations| && s.creations[i].owner == s.creations[k].owner ==>
      !(s.creations[i].first && s.creations[k].first)
  }

  /** No two starts of an owner share a generation. */
  ghost predicate StartsDistinct(s: Vms) {
    forall i, k :: 0 <= i < k < |s.starts| ==> s.starts[i] != s.starts[k]
  }

  ghost predicate OneRuns(s: Vms) {
    forall a: Owner, b: Owner :: IsRunning(s, a) && IsRunning(s, b) ==> a == b
  }

  ghost predicate NamesOk(s: Vms) {
    && (forall i :: i in s.registry ==> s.registry[i] in s.used && s.registry[i] !in s.removed)
    && (forall i, k :: i in s.registry && k in s.registry && s.registry[i] == s.registry[k] ==> i == k)
  }

  ghost predicate TombstonesOk(s: Vms) {
    && (forall o :: o in s.removed ==> o in s.used && JournalOf(s, o).phase == Deleting)
    && (forall o :: o in s.journals ==> o in s.used)
  }

  ghost predicate RegistryOk(s: Vms) {
    NamesOk(s) && TombstonesOk(s)
  }

  ghost predicate LocksOk(s: Vms) {
    forall o :: o in s.locks ==> Holds(PcOf(s, s.locks[o])) == Some(o)
  }

  ghost predicate Inv(s: Vms) {
    && (forall p: Proc :: PcOk(s, p))
    && LocksOk(s) && RegistryOk(s) && OneRuns(s)
    && (forall i: nat :: i < |s.creations| ==> CreationOk(s, i))
    && (forall i: nat :: i < |s.starts| ==> StartOk(s, i))
    && CreatedOnce(s) && StartsDistinct(s)
  }

  lemma InitialInv(s: Vms)
    requires Initial(s)
    ensures Inv(s)
  {
  }

  /** An owner that was never used has no history. */
  lemma UnusedIsNew(s: Vms, o: Owner)
    requires Inv(s) && o !in s.used
    ensures NeverFirst(s, o) && StartsBelow(s, o, 0)
  {
    forall i | 0 <= i < |s.creations| ensures s.creations[i].owner != o { assert CreationOk(s, i); }
    forall i | 0 <= i < |s.starts| ensures s.starts[i].0 != o { assert StartOk(s, i); }
  }

  /** Only a start makes an instance run. */
  lemma RunningNext(s: Vms, e: Event, a: Owner)
    requires Enabled(s, e) && a in InstancesNext(s, e) && InstancesNext(s, e)[a].Running?
    ensures IsRunning(s, a) || (e.StartInstance? && a == PcOf(s, e.p).vm.owner)
  {
  }

  lemma NoneStays(s: Vms, e: Event)
    requires Enabled(s, e)
    ensures NoneRunning(s) && !e.StartInstance? ==> NoneRunning(Next(s, e))
  {
    forall a: Owner | IsRunning(Next(s, e), a) && !e.StartInstance? ensures IsRunning(s, a) {
      RunningNext(s, e, a);
    }
  }

  lemma OutsideKeeps(s: Vms, e: Event, q: Proc)
    requires PcOk(s, q) && Enabled(s, e) && !Acts(e)
    ensures PcOk(Next(s, e), q)
  {
    NoneStays(s, e);
  }

  /** What the history must say for the steps that rely on it. */
  ghost predicate Grounds(s: Vms, e: Event)
    requires Enabled(s, e)
  {
    match e
    case BeginCreate(_, vm) => NeverFirst(s, vm.owner) && StartsBelow(s, vm.owner, 0) && vm.owner !in s.registry.Values && vm.owner !in s.removed && vm.owner !in s.journals
    case Provision(p) => PcOf(s, p).j.phase == Created ==> NeverFirst(s, PcOf(s, p).vm.owner)
    case NextGeneration(p) => StartsBelow(s, PcOf(s, p).vm.owner, PcOf(s, p).j.generation + 1)
    case _ => true
  }

  lemma HasGrounds(s: Vms, e: Event)
    requires Inv(s) && Enabled(s, e)
    ensures Grounds(s, e)
  {
    match e
    case BeginCreate(p, vm) => UnusedIsNew(s, vm.owner);
    case Provision(p) =>
      assert PcOk(s, p);
      forall i | 0 <= i < |s.creations| && s.creations[i].owner == PcOf(s, p).vm.owner && PcOf(s, p).j.phase == Created
        ensures !s.creations[i].first
      {
        assert CreationOk(s, i);
      }
    case NextGeneration(p) =>
      assert PcOk(s, p);
      forall i | 0 <= i < |s.starts| && s.starts[i].0 == PcOf(s, p).vm.owner ensures s.starts[i].1 < PcOf(s, p).j.generation + 1 {
        assert StartOk(s, i);
      }
    case _ =>
  }

  lemma ActorLocks(s: Vms, e: Event)
    requires Acts(e) && Enabled(s, e) && PcLocks(s, e.p)
    ensures PcLocks(Next(s, e), e.p)
  {
    if Begins(e) {
      BeginLocks(s, e);
    } else {
      MiddleLocks(s, e);
    }
  }

  predicate Begins(e: Event) {
    e.BeginCreate? || e.BeginSetup? || e.BeginTeardown? || e.BeginDelete? || e.BeginExec?
  }

  lemma BeginLocks(s: Vms, e: Event)
    requires Begins(e) && Enabled(s, e)
    ensures PcLocks(Next(s, e), e.p)
  {
  }

  /** The point moves within the operation. */
  ghost predicate Moves(pc: Pc, pc': Pc, admit: bool) {
    && !pc.Idle? && !pc'.Idle? && pc'.vm == pc.vm && !pc'.Executing?
    && Creating(pc') == Creating(pc) && Holds(pc') == Holds(pc)
    && (Admitted(pc') ==> admit || Admitted(pc))
  }

  /** A step in the middle of an operation changes no lock but takes the admission lock. */
  lemma MiddleStays(s: Vms, e: Event)
    requires Acts(e) && !Begins(e) && !Ends(e) && Enabled(s, e)
    ensures var s' := Next(s, e);
            && s'.locks == s.locks && s'.registryLock == s.registryLock
            && s'.admission == (if e.Admit? then Some(e.p) else s.admission)
  {
  }

  /** The steps in the middle of an operation, in four groups. */
  predicate Early(e: Event) {
    e.WriteFirstJournal? || e.CheckSetup? || e.Admit? || e.FindRunning?
  }

  predicate Provisions(e: Event) {
    e.FindAlone? || e.Provision?
  }

  predicate Makes(e: Event) {
    e.SkipProvision? || e.MakeInstance?
  }

  predicate Starts(e: Event) {
    e.NextGeneration? || e.StartInstance?
  }

  predicate Stops(e: Event) {
    e.CheckTeardown? || e.BeginStop?
  }

  predicate Late(e: Event) {
    e.StopInstance? || e.NothingToStop? || e.CheckDelete?
  }

  predicate Deletes(e: Event) {
    e.MarkDeleting? || e.DeleteInstance?
  }

  /** What a step between the first and the last of an operation keeps. */
  ghost predicate MiddleOk(s: Vms, e: Event)
    requires Acts(e) && Enabled(s, e)
  {
    && Moves(PcOf(s, e.p), PcOf(Next(s, e), e.p), e.Admit?)
    && (PcNames(s, e.p) ==> PcNames(Next(s, e), e.p))
    && (PcJournal(s, e.p) ==> PcJournal(Next(s, e), e.p))
  }

  lemma EarlyKeeps(s: Vms, e: Event)
    requires Early(e) && Enabled(s, e)
    ensures MiddleOk(s, e)
  {
  }

  lemma ProvisionsKeeps(s: Vms, e: Event)
    requires Provisions(e) && Enabled(s, e)
    ensures MiddleOk(s, e)
  {
  }

  lemma MakesKeeps(s: Vms, e: Event)
    requires Makes(e) && Enabled(s, e)
    ensures MiddleOk(s, e)
  {
  }

  lemma StartsKeeps(s: Vms, e: Event)
    requires Starts(e) && Enabled(s, e)
    ensures MiddleOk(s, e)
  {
  }

  lemma StopsKeeps(s: Vms, e: Event)
    requires Stops(e) && Enabled(s, e)
    ensures MiddleOk(s, e)
  {
  }

  lemma LateKeeps(s: Vms, e: Event)
    requires Late(e) && Enabled(s, e)
    ensures MiddleOk(s, e)
  {
  }

  lemma DeletesKeeps(s: Vms, e: Event)
    requires Deletes(e) && Enabled(s, e)
    ensures MiddleOk(s, e)
  {
  }

  lemma MiddleKeeps(s: Vms, e: Event)
    requires Acts(e) && !Begins(e) && !Ends(e) && Enabled(s, e)
    ensures MiddleOk(s, e)
  {
    if Early(e) {
      EarlyKeeps(s, e);
    } else if Provisions(e) {
      ProvisionsKeeps(s, e);
    } else if Makes(e) {
      MakesKeeps(s, e);
    } else if Starts(e) {
      StartsKeeps(s, e);
    } else if Stops(e) {
      StopsKeeps(s, e);
    } else if Late(e) {
      LateKeeps(s, e);
    } else {
      DeletesKeeps(s, e);
    }
  }

  lemma MiddleLocks(s: Vms, e: Event)
    requires Acts(e) && !Begins(e) && Enabled(s, e) && PcLocks(s, e.p)
    ensures PcLocks(Next(s, e), e.p)
  {
    if Ends(e) {
      EndsIdle(s, e);
    } else {
      MiddleStays(s, e);
      MiddleKeeps(s, e);
    }
  }

  lemma BeginNames(s: Vms, e: Event)
    requires Begins(e) && Enabled(s, e) && Grounds(s, e)
    ensures PcNames(Next(s, e), e.p)
  {
  }

  lemma ActorNames(s: Vms, e: Event)
    requires Acts(e) && Enabled(s, e) && PcNames(s, e.p) && Grounds(s, e)
    ensures PcNames(Next(s, e), e.p)
  {
    if Ends(e) {
      EndsIdle(s, e);
    } else if Begins(e) {
      BeginNames(s, e);
    } else {
      MiddleKeeps(s, e);
    }
  }

  lemma EndsIdle(s: Vms, e: Event)
    requires Ends(e) && Enabled(s, e)
    ensures PcOf(Next(s, e), e.p) == Idle
  {
  }

  lemma BeginJournal(s: Vms, e: Event)
    requires Begins(e) && Enabled(s, e) && Grounds(s, e)
    ensures PcJournal(Next(s, e), e.p)
  {
  }

  lemma ActorJournal(s: Vms, e: Event)
    requires Acts(e) && Enabled(s, e) && PcJournal(s, e.p) && Grounds(s, e)
    ensures PcJournal(Next(s, e), e.p)
  {
    if Ends(e) {
      EndsIdle(s, e);
    } else if Begins(e) {
      BeginJournal(s, e);
    } else {
      MiddleKeeps(s, e);
    }
  }

  lemma ActorHistory(s: Vms, e: Event)
    requires Acts(e) && Enabled(s, e) && PcHistory(s, e.p) && PcJournal(s, e.p) && Grounds(s, e)
    ensures PcHistory(Next(s, e), e.p)
  {
    NoneStays(s, e);
  }

  /** The process that takes the step. */
  lemma ActorKeeps(s: Vms, e: Event)
    requires Acts(e) && Enabled(s, e) && PcOk(s, e.p) && Grounds(s, e)
    ensures PcOk(Next(s, e), e.p)
  {
    ActorLocks(s, e);
    ActorNames(s, e);
    ActorJournal(s, e);
    ActorHistory(s, e);
  }

  // ----- the processes that do not take the step -----

  /** Two processes whose locks agree with their points. */
  ghost predicate Apart(s: Vms, e: Event, q: Proc) {
    Enabled(s, e) && Acts(e) && q != e.p && PcOk(s, e.p) && PcOk(s, q)
  }

  lemma BystanderLocks(s: Vms, e: Event, q: Proc)
    requires Apart(s, e, q)
    ensures PcLocks(Next(s, e), q) && PcOf(Next(s, e), q) == PcOf(s, q)
  {
  }

  /** The journal of an owner is written by the holder of its lock or by its creator. */
  lemma SavedBy(s: Vms, e: Event)
    requires Acts(e) && Enabled(s, e) && Saved(s, e).Some?
    ensures !PcOf(s, e.p).Idle?
    ensures Creating(PcOf(s, e.p)) || Holds(PcOf(s, e.p)) == Some(PcOf(s, e.p).vm.owner)
  {
  }

  /** Two processes that both may write the journal of an owner, or rely on it, are one. */
  lemma OneWriter(s: Vms, p: Proc, q: Proc)
    requires PcOk(s, p) && PcOk(s, q) && p != q && !PcOf(s, p).Idle? && !PcOf(s, q).Idle?
    requires Creating(PcOf(s, p)) || Holds(PcOf(s, p)) == Some(PcOf(s, p).vm.owner)
    requires Checked(PcOf(s, q)) || PcOf(s, q).CreateRead?
    ensures PcOf(s, p).vm.owner != PcOf(s, q).vm.owner || (PcOf(s, q).CreateRead? && !Checked(PcOf(s, p)) && !Creating(PcOf(s, p)))
  {
  }

  lemma SameJournal(s: Vms, s': Vms, q: Proc)
    requires PcJournal(s, q) && PcOf(s', q) == PcOf(s, q)
    requires Checked(PcOf(s, q)) || PcOf(s, q).CreateRead? ==>
               var o := PcOf(s, q).vm.owner; JournalOf(s', o) == JournalOf(s, o) && (o in s'.journals <==> o in s.journals)
    ensures PcJournal(s', q)
  {
  }

  /** A process that saves a journal is past its checks, or creating. */
  lemma SavedChecked(s: Vms, e: Event)
    requires Acts(e) && Enabled(s, e) && Saved(s, e).Some?
    ensures Checked(PcOf(s, e.p)) || Creating(PcOf(s, e.p))
  {
  }

  /** Another process's step does not write the journal a process relies on. */
  lemma BystanderJournal(s: Vms, e: Event, q: Proc)
    requires Apart(s, e, q) && PcOf(Next(s, e), q) == PcOf(s, q)
    ensures PcJournal(Next(s, e), q)
  {
    var pc := PcOf(s, q);
    if (Checked(pc) || pc.CreateRead?) && Saved(s, e).Some? {
      SavedBy(s, e);
      SavedChecked(s, e);
      OneWriter(s, e.p, q);
    }
    SameJournal(s, Next(s, e), q);
  }

  lemma BystanderNames(s: Vms, e: Event, q: Proc)
    requires Apart(s, e, q) && PcOf(Next(s, e), q) == PcOf(s, q) && Grounds(s, e)
    ensures PcNames(Next(s, e), q)
  {
  }

  lemma BystanderHistory(s: Vms, e: Event, q: Proc)
    requires Apart(s, e, q) && PcOf(Next(s, e), q) == PcOf(s, q)
    ensures PcHistory(Next(s, e), q)
  {
    NoneStays(s, e);
  }

  lemma BystanderKeeps(s: Vms, e: Event, q: Proc)
    requires Apart(s, e, q) && Grounds(s, e)
    ensures PcOk(Next(s, e), q)
  {
    BystanderLocks(s, e, q);
    BystanderJournal(s, e, q);
    BystanderNames(s, e, q);
    BystanderHistory(s, e, q);
  }

  lemma PcKeeps(s: Vms, e: Event, q: Proc)
    requires Inv(s) && Enabled(s, e)
    ensures PcOk(Next(s, e), q)
  {
    assert PcOk(s, q);
    HasGrounds(s, e);
    if !Acts(e) {
      OutsideKeeps(s, e, q);
    } else if q == e.p {
      ActorKeeps(s, e);
    } else {
      assert PcOk(s, e.p);
      BystanderKeeps(s, e, q);
    }
  }

  /** Whose lock a process holds changes only when it takes one or ends. */
  lemma HoldsNext(s: Vms, e: Event)
    requires Acts(e) && Enabled(s, e)
    ensures Holds(PcOf(Next(s, e), e.p)) == (if Locks(e) then Some(e.vm.owner) else if Ends(e) then None else Holds(PcOf(s, e.p)))
  {
    if Ends(e) {
      EndsIdle(s, e);
    } else if !Begins(e) {
      MiddleKeeps(s, e);
    }
  }

  lemma LockKeeps(s: Vms, e: Event, o: Owner)
    requires Acts(e) && Enabled(s, e) && PcLocks(s, e.p) && LocksOk(s) && o in LocksNext(s, e)
    ensures Holds(PcOf(Next(s, e), LocksNext(s, e)[o])) == Some(o)
  {
    HoldsNext(s, e);
    LockSame(s, Next(s, e), e, o);
  }

  lemma LockSame(s: Vms, s': Vms, e: Event, o: Owner)
    requires Acts(e) && PcLocks(s, e.p) && LocksOk(s) && o in s'.locks
    requires forall q: Proc :: q != e.p ==> PcOf(s', q) == PcOf(s, q)
    requires Holds(PcOf(s', e.p)) == (if Locks(e) then Some(e.vm.owner) else if Ends(e) then None else Holds(PcOf(s, e.p)))
    requires s'.locks == (if Locks(e) then s.locks[e.vm.owner := e.p]
                          else if Ends(e) && Holds(PcOf(s, e.p)).Some? then s.locks - {Holds(PcOf(s, e.p)).value}
                          else s.locks)
    requires Locks(e) ==> PcOf(s, e.p).Idle?
    ensures Holds(PcOf(s', s'.locks[o])) == Some(o)
  {
    if o in s.locks {
      assert Holds(PcOf(s, s.locks[o])) == Some(o);
    }
  }

  lemma LocksKeep(s: Vms, e: Event)
    requires Inv(s) && Enabled(s, e)
    ensures LocksOk(Next(s, e))
  {
    if Acts(e) {
      assert PcOk(s, e.p);
      forall o | o in Next(s, e).locks ensures Holds(PcOf(Next(s, e), Next(s, e).locks[o])) == Some(o) {
        LockKeeps(s, e, o);
      }
    }
  }

  lemma NamesStep(s: Vms, e: Event)
    requires Acts(e) && Enabled(s, e) && NamesOk(s) && PcNames(s, e.p)
    ensures NamesOk(Next(s, e))
  {
  }

  /** A process that works on an owner being deleted can only say so again. */
  lemma SavedDeleting(s: Vms, e: Event)
    requires Acts(e) && Enabled(s, e) && PcJournal(s, e.p) && Saved(s, e).Some?
    requires JournalOf(s, PcOf(s, e.p).vm.owner).phase == Deleting
    ensures Saved(s, e).value.phase == Deleting
  {
  }

  lemma DeletingStays(s: Vms, e: Event, o: Owner)
    requires Enabled(s, e) && (Acts(e) ==> PcJournal(s, e.p)) && JournalOf(s, o).phase == Deleting
    ensures JournalOf(Next(s, e), o).phase == Deleting
  {
    if Acts(e) && Saved(s, e).Some? && PcOf(s, e.p).vm.owner == o {
      SavedDeleting(s, e);
    }
  }

  /** A journal is only saved for an owner that is in use. */
  lemma SavedUsed(s: Vms, e: Event)
    requires Acts(e) && Enabled(s, e) && PcNames(s, e.p) && NamesOk(s) && Saved(s, e).Some?
    ensures PcOf(s, e.p).vm.owner in s.used
  {
  }

  lemma UnregisterDeleted(s: Vms, e: Event)
    requires e.Unregister? && Enabled(s, e) && PcOk(s, e.p) && NamesOk(s)
    ensures PcOf(s, e.p).vm.owner in s.used && JournalOf(s, PcOf(s, e.p).vm.owner).phase == Deleting
  {
  }

  lemma TombstonesStep(s: Vms, e: Event)
    requires Enabled(s, e) && RegistryOk(s) && (Acts(e) ==> PcOk(s, e.p))
    ensures TombstonesOk(Next(s, e))
  {
    var s' := Next(s, e);
    if e.Unregister? {
      UnregisterDeleted(s, e);
    }
    if Acts(e) && Saved(s, e).Some? {
      SavedUsed(s, e);
    }
    forall o | o in s'.removed ensures o in s'.used && JournalOf(s', o).phase == Deleting {
      DeletingStays(s, e, o);
    }
  }

  lemma RegistryKeeps(s: Vms, e: Event)
    requires Inv(s) && Enabled(s, e)
    ensures RegistryOk(Next(s, e))
  {
    if Acts(e) {
      assert PcOk(s, e.p);
      NamesStep(s, e);
    }
    TombstonesStep(s, e);
  }

  lemma RunningKeeps(s: Vms, e: Event)
    requires Inv(s) && Enabled(s, e)
    ensures OneRuns(Next(s, e))
  {
    var s' := Next(s, e);
    if Acts(e) {
      assert PcOk(s, e.p);
    }
    forall a: Owner, b: Owner | IsRunning(s', a) && IsRunning(s', b) ensures a == b {
      RunningNext(s, e, a);
      RunningNext(s, e, b);
      assert e.StartInstance? ==> !IsRunning(s, a) && !IsRunning(s, b);
    }
  }

  /** No step goes back to Created but the one that creates the owner. */
  lemma SavedCreated(s: Vms, e: Event)
    requires Acts(e) && Enabled(s, e) && PcJournal(s, e.p) && Saved(s, e).Some? && Saved(s, e).value.phase == Created
    ensures e.WriteFirstJournal? || JournalOf(s, PcOf(s, e.p).vm.owner).phase == Created
  {
  }

  lemma OldCreation(s: Vms, e: Event, i: nat)
    requires Enabled(s, e) && (Acts(e) ==> PcOk(s, e.p)) && i < |s.creations| && CreationOk(s, i)
    ensures i < |Next(s, e).creations| && CreationOk(Next(s, e), i)
  {
    assert Next(s, e).creations[i] == s.creations[i];
    if Acts(e) && Saved(s, e).Some? && Saved(s, e).value.phase == Created {
      SavedCreated(s, e);
    }
  }

  lemma NewCreation(s: Vms, e: Event)
    requires e.MakeInstance? && Enabled(s, e) && PcOk(s, e.p) && NamesOk(s)
    ensures CreationOk(Next(s, e), |s.creations|)
  {
  }

  lemma CreationKeeps(s: Vms, e: Event, i: nat)
    requires Inv(s) && Enabled(s, e) && i < |Next(s, e).creations|
    ensures CreationOk(Next(s, e), i)
  {
    if Acts(e) {
      assert PcOk(s, e.p);
    }
    if i < |s.creations| {
      assert CreationOk(s, i);
      OldCreation(s, e, i);
    } else {
      NewCreation(s, e);
    }
  }

  lemma StartKeeps(s: Vms, e: Event, i: nat)
    requires Inv(s) && Enabled(s, e) && i < |Next(s, e).starts|
    ensures StartOk(Next(s, e), i)
  {
    if i < |s.starts| {
      assert StartOk(s, i);
    }
    if Acts(e) {
      assert PcOk(s, e.p);
    }
  }

  lemma HistoryKeeps(s: Vms, e: Event)
    requires Inv(s) && Enabled(s, e)
    ensures CreatedOnce(Next(s, e)) && StartsDistinct(Next(s, e))
  {
    if Acts(e) {
      assert PcOk(s, e.p);
    }
  }

  /** Every step keeps the invariant. */
  lemma StepKeeps(s: Vms, e: Event)
    requires Inv(s) && Enabled(s, e)
    ensures Inv(Next(s, e))
  {
    forall p: Proc ensures PcOk(Next(s, e), p) { PcKeeps(s, e, p); }
    LocksKeep(s, e);
    RegistryKeeps(s, e);
    RunningKeeps(s, e);
    forall i: nat | i < |Next(s, e).creations| ensures CreationOk(Next(s, e), i) { CreationKeeps(s, e, i); }
    forall i: nat | i < |Next(s, e).starts| ensures StartOk(Next(s, e), i) { StartKeeps(s, e, i); }
    HistoryKeeps(s, e);
  }

  // ----- whole runs -----

  ghost predicate CanRun(s: Vms, es: seq<Event>)
    decreases |es|
  {
    es == [] || (Enabled(s, es[0]) && CanRun(Next(s, es[0]), es[1..]))
  }

  ghost function After(s: Vms, es: seq<Event>): Vms
    requires CanRun(s, es)
    decreases |es|
  {
    if es == [] then s else After(Next(s, es[0]), es[1..])
  }

  lemma {:induction false} RunKeeps(s: Vms, es: seq<Event>)
    requires Inv(s) && CanRun(s, es)
    ensures Inv(After(s, es))
    decreases |es|
  {
    if es != [] {
      StepKeeps(s, es[0]);
      RunKeeps(Next(s, es[0]), es[1..]);
    }
  }

  /** Over every interleaving, with crashes and instances lost outside: at most one VM runs,
      an owner is provisioned for the first time at most once and further instances of it are
      made only on request, and no two starts of an owner share a generation. */
  lemma VmRuns(s: Vms, es: seq<Event>)
    requires Initial(s) && CanRun(s, es)
    ensures var t := After(s, es);
            && OneRuns(t) && CreatedOnce(t) && StartsDistinct(t)
            && (forall i :: 0 <= i < |t.creations| ==> t.creations[i].first || t.creations[i].asked)
            && (forall p: Proc :: PcOf(t, p).Executing? ==>
                  IsRegistered(t, PcOf(t, p).vm) && JournalOf(t, PcOf(t, p).vm.owner).phase == Ready)
  {
    InitialInv(s);
    RunKeeps(s, es);
    var t := After(s, es);
    forall i | 0 <= i < |t.creations| ensures t.creations[i].first || t.creations[i].asked {
      assert CreationOk(t, i);
    }
    forall p: Proc | PcOf(t, p).Executing?
      ensures IsRegistered(t, PcOf(t, p).vm) && JournalOf(t, PcOf(t, p).vm.owner).phase == Ready
    {
      assert PcOk(t, p);
    }
  }

  lemma StepDeleting(s: Vms, e: Event, o: Owner)
    requires Inv(s) && Enabled(s, e) && JournalOf(s, o).phase == Deleting
    ensures JournalOf(Next(s, e), o).phase == Deleting
  {
    if Acts(e) {
      assert PcOk(s, e.p);
    }
    DeletingStays(s, e, o);
  }

  lemma StepRemoved(s: Vms, e: Event)
    requires Enabled(s, e)
    ensures s.removed <= Next(s, e).removed
  {
  }

  /** A journal that says Deleting says so for ever, and an owner that was removed is never
      registered again, so that no operation gets past its first check for it. */
  lemma {:induction false} DeletedForGood(s: Vms, es: seq<Event>, o: Owner)
    requires Inv(s) && CanRun(s, es)
    ensures JournalOf(s, o).phase == Deleting ==> JournalOf(After(s, es), o).phase == Deleting
    ensures o in s.removed ==> o in After(s, es).removed && o !in After(s, es).registry.Values
    decreases |es|
  {
    if es != [] {
      StepKeeps(s, es[0]);
      if JournalOf(s, o).phase == Deleting {
        StepDeleting(s, es[0], o);
      }
      StepRemoved(s, es[0]);
      DeletedForGood(Next(s, es[0]), es[1..], o);
    }
  }
}
