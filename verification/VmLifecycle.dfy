/** The lifecycle of Linux VMs: a journal per owner, an exclusive lock per owner, one admission
    lock for all, and processes that may stop at any point. */
module VmLifecycle {
  import opened Text

  type Proc = nat
  type Owner = nat
  type Name = nat

  const MAX_GENERATION: nat := 0xffff_ffff_ffff_ffff

  datatype Phase = Created | Provisioning | Starting | Ready | Stopping | Stopped | Deleting | Legacy

  datatype Journal = Journal(phase: Phase, generation: nat)

  /** What the provider says of an instance. */
  datatype Instance = Made | Running | Halted

  /** A workspace as a client has it in hand. */
  datatype Vm = Vm(id: Name, owner: Owner)

  /** Where a process stands in an operation. The journal it carries is its copy in memory. */
  datatype Pc =
    | Idle
    | CreateRead(vm: Vm)
    | CreateJournaled(vm: Vm)
    | SetupLocked(vm: Vm, recreate: bool)
    | SetupChecked(vm: Vm, recreate: bool, j: Journal)
    | SetupAdmitted(vm: Vm, recreate: bool, j: Journal)
    | SetupAlone(vm: Vm, recreate: bool, j: Journal, present: bool)
    | SetupProvisioning(vm: Vm, j: Journal, first: bool, asked: bool)
    | SetupMade(vm: Vm, j: Journal)
    | SetupStarting(vm: Vm, j: Journal)
    | SetupProbing(vm: Vm, j: Journal)
    | TearLocked(vm: Vm)
    | TearChecked(vm: Vm, j: Journal)
    | TearStopping(vm: Vm, j: Journal)
    | TearStopped(vm: Vm, j: Journal)
    | DelLocked(vm: Vm)
    | DelChecked(vm: Vm, present: bool)
    | DelMarked(vm: Vm, present: bool)
    | DelGone(vm: Vm)
    | Executing(vm: Vm)

  /** One creation of an instance: whether it was the first provisioning of its owner, and
      whether recreation had been asked for. */
  datatype Creation = Creation(owner: Owner, first: bool, asked: bool)

  datatype Vms = Vms(
    registry: map<Name, Owner>,
    journals: map<Owner, Journal>,
    instances: map<Owner, Instance>,
    locks: map<Owner, Proc>,
    admission: Option<Proc>,
    registryLock: Option<Proc>,
    procs: map<Proc, Pc>,
    used: set<Owner>,
    creations: seq<Creation>,
    starts: seq<(Owner, nat)>,
    removed: set<Owner>)

  /** Before any operation: records may be there from earlier versions, without journals. */
  ghost predicate Initial(s: Vms) {
    && s.journals == map[] && s.locks == map[] && s.procs == map[] && s.admission.None? && s.registryLock.None?
    && s.creations == [] && s.starts == [] && s.removed == {}
    && (forall i :: i in s.registry ==> s.registry[i] in s.used)
    && (forall i, k :: i in s.registry && k in s.registry && s.registry[i] == s.registry[k] ==> i == k)
    && (forall a: Owner, b: Owner :: IsRunning(s, a) && IsRunning(s, b) ==> a == b)
  }

  function PcOf(s: Vms, p: Proc): Pc {
    if p in s.procs then s.procs[p] else Idle
  }

  /** A missing journal file reads as a legacy one. */
  function JournalOf(s: Vms, o: Owner): Journal {
    if o in s.journals then s.journals[o] else Journal(Legacy, 0)
  }

  predicate IsRegistered(s: Vms, vm: Vm) {
    vm.id in s.registry && s.registry[vm.id] == vm.owner
  }

  predicate IsRunning(s: Vms, o: Owner) {
    o in s.instances && s.instances[o].Running?
  }

  /** The owner whose exclusive lock a process at this point holds. */
  function Holds(pc: Pc): Option<Owner> {
    match pc
    case Idle => None
    case CreateRead(_) => None
    case CreateJournaled(_) => None
    case Executing(_) => None
    case _ => Some(pc.vm.owner)
  }

  /** Between admission and readiness. */
  predicate Admitted(pc: Pc) {
    pc.SetupAdmitted? || pc.SetupAlone? || pc.SetupProvisioning? || pc.SetupMade? || pc.SetupStarting? || pc.SetupProbing?
  }

  // ----- steps -----

  datatype Event =
    | BeginCreate(p: Proc, vm: Vm)
    | WriteFirstJournal(p: Proc)
    | Register(p: Proc)
    | BeginSetup(p: Proc, vm: Vm, recreate: bool)
    | CheckSetup(p: Proc)
    | Admit(p: Proc)
    | FindRunning(p: Proc)
    | FindAlone(p: Proc)
    | Provision(p: Proc)
    | SkipProvision(p: Proc)
    | MakeInstance(p: Proc)
    | NextGeneration(p: Proc)
    | StartInstance(p: Proc)
    | BecomeReady(p: Proc)
    | BeginTeardown(p: Proc, vm: Vm)
    | CheckTeardown(p: Proc)
    | BeginStop(p: Proc)
    | StopInstance(p: Proc)
    | NothingToStop(p: Proc)
    | RecordStopped(p: Proc)
    | BeginDelete(p: Proc, vm: Vm)
    | CheckDelete(p: Proc, discard: bool)
    | MarkDeleting(p: Proc)
    | DeleteInstance(p: Proc)
    | Unregister(p: Proc)
    | BeginExec(p: Proc, vm: Vm)
    | GiveUp(p: Proc)
    | Lose(o: Owner)
    | Halt(o: Owner)

  /** Steps that a process takes, as opposed to what happens to instances outside. */
  predicate Acts(e: Event) {
    !e.Lose? && !e.Halt?
  }

  /** The process returns or dies: the kernel frees its locks. */
  predicate Ends(e: Event) {
    e.Register? || e.BecomeReady? || e.RecordStopped? || e.Unregister? || e.GiveUp?
  }

  /** The process takes the exclusive lock of an owner. */
  predicate Locks(e: Event) {
    e.BeginSetup? || e.BeginTeardown? || e.BeginDelete?
  }

  ghost predicate NoExec(s: Vms, o: Owner) {
    forall q: Proc :: PcOf(s, q).Executing? ==> PcOf(s, q).vm.owner != o
  }

  ghost predicate Lockable(s: Vms, p: Proc, o: Owner) {
    PcOf(s, p).Idle? && o !in s.locks && NoExec(s, o)
  }

  ghost predicate NoneRunning(s: Vms) {
    forall o: Owner :: !IsRunning(s, o)
  }

  /** When a step can be taken. */
  ghost predicate Enabled(s: Vms, e: Event) {
    match e
    case Lose(_) => true
    case Halt(o) => o in s.instances
    case GiveUp(_) => true
    case BeginCreate(p, vm) =>
      PcOf(s, p).Idle? && s.registryLock.None? && vm.id !in s.registry && vm.owner !in s.used
    case BeginSetup(p, vm, _) => Lockable(s, p, vm.owner)
    case BeginTeardown(p, vm) => Lockable(s, p, vm.owner)
    case BeginDelete(p, vm) => Lockable(s, p, vm.owner)
    case BeginExec(p, vm) =>
      PcOf(s, p).Idle? && vm.owner !in s.locks && IsRegistered(s, vm) && JournalOf(s, vm.owner).phase == Ready && IsRunning(s, vm.owner)
    case WriteFirstJournal(p) => PcOf(s, p).CreateRead?
    case Register(p) => PcOf(s, p).CreateJournaled?
    case CheckSetup(p) =>
      PcOf(s, p).SetupLocked? && IsRegistered(s, PcOf(s, p).vm) && JournalOf(s, PcOf(s, p).vm.owner).phase != Deleting
    case Admit(p) => PcOf(s, p).SetupChecked? && s.admission.None?
    case FindRunning(p) => PcOf(s, p).SetupAdmitted? && IsRunning(s, PcOf(s, p).vm.owner)
    case FindAlone(p) => PcOf(s, p).SetupAdmitted? && NoneRunning(s)
    case Provision(p) =>
      var pc := PcOf(s, p);
      pc.SetupAlone? && !pc.present && (pc.j.phase == Created || pc.recreate)
    case SkipProvision(p) => PcOf(s, p).SetupAlone? && PcOf(s, p).present
    case MakeInstance(p) => PcOf(s, p).SetupProvisioning? && PcOf(s, p).vm.owner !in s.instances
    case NextGeneration(p) => PcOf(s, p).SetupMade? && PcOf(s, p).j.generation < MAX_GENERATION
    case StartInstance(p) => PcOf(s, p).SetupStarting? && PcOf(s, p).vm.owner in s.instances
    case BecomeReady(p) => PcOf(s, p).SetupProbing? && IsRunning(s, PcOf(s, p).vm.owner)
    case CheckTeardown(p) =>
      PcOf(s, p).TearLocked? && IsRegistered(s, PcOf(s, p).vm) && JournalOf(s, PcOf(s, p).vm.owner).phase != Deleting
    case BeginStop(p) => PcOf(s, p).TearChecked? && IsRunning(s, PcOf(s, p).vm.owner)
    case StopInstance(p) => PcOf(s, p).TearStopping?
    case NothingToStop(p) => PcOf(s, p).TearChecked? && !IsRunning(s, PcOf(s, p).vm.owner)
    case RecordStopped(p) => PcOf(s, p).TearStopped?
    case CheckDelete(p, discard) =>
      var pc := PcOf(s, p);
      pc.DelLocked? && IsRegistered(s, pc.vm) && !IsRunning(s, pc.vm.owner) && (pc.vm.owner in s.instances ==> discard)
    case MarkDeleting(p) => PcOf(s, p).DelChecked?
    case DeleteInstance(p) =>
      var pc := PcOf(s, p);
      pc.DelMarked? && (if pc.present then !IsRunning(s, pc.vm.owner) else pc.vm.owner !in s.instances)
    case Unregister(p) => PcOf(s, p).DelGone? && s.registryLock.None? && IsRegistered(s, PcOf(s, p).vm)
  }

  // ----- what a step does, part by part -----

  ghost function PcNext(s: Vms, e: Event): Pc
    requires Acts(e) && Enabled(s, e)
  {
    var pc := PcOf(s, e.p);
    match e
    case BeginCreate(_, vm) => CreateRead(vm)
    case WriteFirstJournal(_) => CreateJournaled(pc.vm)
    case BeginSetup(_, vm, recreate) => SetupLocked(vm, recreate)
    case CheckSetup(_) => SetupChecked(pc.vm, pc.recreate, JournalOf(s, pc.vm.owner))
    case Admit(_) => SetupAdmitted(pc.vm, pc.recreate, pc.j)
    case FindRunning(_) => SetupProbing(pc.vm, pc.j)
    case FindAlone(_) => SetupAlone(pc.vm, pc.recreate, pc.j, pc.vm.owner in s.instances)
    case Provision(_) => SetupProvisioning(pc.vm, pc.j.(phase := Phase.Provisioning), pc.j.phase == Created, pc.recreate)
    case SkipProvision(_) => SetupMade(pc.vm, pc.j)
    case MakeInstance(_) => SetupMade(pc.vm, pc.j)
    case NextGeneration(_) => SetupStarting(pc.vm, Journal(Phase.Starting, pc.j.generation + 1))
    case StartInstance(_) => SetupProbing(pc.vm, pc.j)
    case BeginTeardown(_, vm) => TearLocked(vm)
    case CheckTeardown(_) => TearChecked(pc.vm, JournalOf(s, pc.vm.owner))
    case BeginStop(_) => TearStopping(pc.vm, pc.j.(phase := Phase.Stopping))
    case StopInstance(_) => TearStopped(pc.vm, pc.j)
    case NothingToStop(_) => TearStopped(pc.vm, pc.j)
    case BeginDelete(_, vm) => DelLocked(vm)
    case CheckDelete(_, _) => DelChecked(pc.vm, pc.vm.owner in s.instances)
    case MarkDeleting(_) => DelMarked(pc.vm, pc.present)
    case DeleteInstance(_) => DelGone(pc.vm)
    case BeginExec(_, vm) => Executing(vm)
    case _ => Idle
  }

  /** The journal that a step saves for the owner it works on. */
  ghost function Saved(s: Vms, e: Event): Option<Journal>
    requires Acts(e) && Enabled(s, e)
  {
    var pc := PcOf(s, e.p);
    match e
    case WriteFirstJournal(_) => Some(Journal(Created, 0))
    case Provision(_) => Some(pc.j.(phase := Phase.Provisioning))
    case NextGeneration(_) => Some(Journal(Phase.Starting, pc.j.generation + 1))
    case BecomeReady(_) => Some(pc.j.(phase := Phase.Ready))
    case BeginStop(_) => Some(pc.j.(phase := Phase.Stopping))
    case RecordStopped(_) => Some(pc.j.(phase := if pc.j.phase == Created then Created else Phase.Stopped))
    case MarkDeleting(_) => Some(JournalOf(s, pc.vm.owner).(phase := Phase.Deleting))
    case _ => None
  }

  ghost function JournalsNext(s: Vms, e: Event): map<Owner, Journal>
    requires Enabled(s, e)
  {
    if Acts(e) && Saved(s, e).Some? then s.journals[PcOf(s, e.p).vm.owner := Saved(s, e).value] else s.journals
  }

  ghost function InstancesNext(s: Vms, e: Event): map<Owner, Instance>
    requires Enabled(s, e)
  {
    match e
    case Lose(o) => s.instances - {o}
    case Halt(o) => s.instances[o := Halted]
    case MakeInstance(p) => s.instances[PcOf(s, p).vm.owner := Made]
    case StartInstance(p) => s.instances[PcOf(s, p).vm.owner := Running]
    case StopInstance(p) =>
      if PcOf(s, p).vm.owner in s.instances then s.instances[PcOf(s, p).vm.owner := Halted] else s.instances
    case DeleteInstance(p) => s.instances - {PcOf(s, p).vm.owner}
    case _ => s.instances
  }

  ghost function RegistryNext(s: Vms, e: Event): map<Name, Owner>
    requires Enabled(s, e)
  {
    match e
    case Register(p) => s.registry[PcOf(s, p).vm.id := PcOf(s, p).vm.owner]
    case Unregister(p) => s.registry - {PcOf(s, p).vm.id}
    case _ => s.registry
  }

  ghost function LocksNext(s: Vms, e: Event): map<Owner, Proc>
    requires Enabled(s, e)
  {
    if Locks(e) then s.locks[e.vm.owner := e.p]
    else if Ends(e) && Holds(PcOf(s, e.p)).Some? then s.locks - {Holds(PcOf(s, e.p)).value}
    else s.locks
  }

  ghost function AdmissionNext(s: Vms, e: Event): Option<Proc> {
    if e.Admit? then Some(e.p) else if Ends(e) && s.admission == Some(e.p) then None else s.admission
  }

  ghost function RegistryLockNext(s: Vms, e: Event): Option<Proc> {
    if e.BeginCreate? then Some(e.p) else if Ends(e) && s.registryLock == Some(e.p) then None else s.registryLock
  }

  ghost function CreationsNext(s: Vms, e: Event): seq<Creation>
    requires Enabled(s, e)
  {
    if e.MakeInstance? then s.creations + [Creation(PcOf(s, e.p).vm.owner, PcOf(s, e.p).first, PcOf(s, e.p).asked)] else s.creations
  }

  ghost function StartsNext(s: Vms, e: Event): seq<(Owner, nat)>
    requires Enabled(s, e)
  {
    if e.StartInstance? then s.starts + [(PcOf(s, e.p).vm.owner, PcOf(s, e.p).j.generation)] else s.starts
  }

  ghost function Next(s: Vms, e: Event): Vms
    requires Enabled(s, e)
  {
    Vms(RegistryNext(s, e), JournalsNext(s, e), InstancesNext(s, e), LocksNext(s, e), AdmissionNext(s, e), RegistryLockNext(s, e),
        if Acts(e) then s.procs[e.p := PcNext(s, e)] else s.procs,
        if e.BeginCreate? then s.used + {e.vm.owner} else s.used,
        CreationsNext(s, e), StartsNext(s, e),
        if e.Unregister? then s.removed + {PcOf(s, e.p).vm.owner} else s.removed)
  }
}
