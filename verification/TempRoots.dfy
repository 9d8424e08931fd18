/** Who owns a temp root: registries that share a home directory claim roots by creating a
    marker file exclusively, write it piece by piece, and may stop at any point. */
module TempRoots {
  import opened Text

  type Proc = nat
  type Address = nat
  type Inode = nat

  const NEWLINE: byte := 10

  /** A registry entry: the random identity of its registry and its own name. */
  datatype Owner = Owner(registry: Bytes, id: Bytes)

  predicate IsHex(b: byte) {
    48 <= b <= 57 || 65 <= b <= 70 || 97 <= b <= 102
  }

  /** What the registry checks of identities and names before using them. */
  predicate ValidOwner(o: Owner) {
    && |o.registry| == 32 && (forall i :: 0 <= i < 32 ==> IsHex(o.registry[i]))
    && 0 < |o.id| <= 128 && NUL !in o.id && NEWLINE !in o.id && 13 as byte !in o.id
  }

  /** What a finished marker holds. */
  function OwnerText(o: Owner): Bytes {
    o.registry + [NEWLINE] + o.id + [NEWLINE]
  }

  /** Owner texts are prefix-free: a marker that is still being written, or was left half
      written, never reads as another owner's. */
  lemma PrefixFree(a: Owner, b: Owner)
    requires ValidOwner(a) && ValidOwner(b) && OwnerText(a) <= OwnerText(b)
    ensures a == b
  {
    var s, t := OwnerText(a), OwnerText(b);
    assert s[..32] == a.registry && t[..32] == b.registry;
    assert s[..32] == t[..32];
    var n := |s| - 1;
    assert s[n] == NEWLINE && t[n] == s[n];
    assert forall i :: 33 <= i < |t| - 1 ==> t[i] == b.id[i - 33];
    assert n >= |t| - 1;
    assert s == t;
    assert a.id == s[33..n] && b.id == t[33..n];
  }

  // ----- state -----

  /** A marker file: who created it and how much of the owner text is written. */
  datatype Marker = Marker(author: Owner, written: nat)

  function Content(m: Marker): Bytes {
    var t := OwnerText(m.author);
    t[..if m.written <= |t| then m.written else |t|]
  }

  datatype World = World(ip: Address)

  type Worlds = map<Bytes, World>

  /** Where an operation stands; all points but `Idle` are under the registry's lock, with the
      entries as they were read. */
  datatype Pc =
    | Idle
    | Choosing(owner: Owner, worlds: Worlds)
    | Looked(owner: Owner, worlds: Worlds, ip: Address)
    | Marking(owner: Owner, worlds: Worlds, ip: Address)
    | Writing(owner: Owner, worlds: Worlds, ip: Address, inode: Inode)
    | Granted(owner: Owner, worlds: Worlds, ip: Address)

  datatype State = State(
    roots: set<Address>,
    markers: map<Address, Inode>,
    files: map<Inode, Marker>,
    registries: map<Bytes, Worlds>,
    locks: map<Bytes, Proc>,
    procs: map<Proc, Pc>,
    grants: set<(Inode, Owner)>)

  function PcOf(s: State, p: Proc): Pc {
    if p in s.procs then s.procs[p] else Idle
  }

  function WorldsOf(s: State, registry: Bytes): Worlds {
    if registry in s.registries then s.registries[registry] else map[]
  }

  /** No other entry uses the address. */
  predicate Unused(worlds: Worlds, id: Bytes, ip: Address) {
    forall k :: k in worlds && k != id ==> worlds[k].ip != ip
  }

  predicate Distinct(worlds: Worlds) {
    forall j, k :: j in worlds && k in worlds && worlds[j].ip == worlds[k].ip ==> j == k
  }

  // ----- steps -----

  datatype Event =
    | Begin(p: Proc, owner: Owner)
    | Look(p: Proc, ip: Address)
    | MakeRoot(p: Proc)
    | Revisit(p: Proc)
    | CreateMarker(p: Proc, inode: Inode)
    | ReadMarker(p: Proc)
    | WriteMore(p: Proc, n: nat)
    | FinishMarker(p: Proc)
    | Save(p: Proc)
    | GiveUp(p: Proc)
    | DeleteRoot(ip: Address)

  function At(s: State, p: Proc, pc: Pc): State {
    s.(procs := s.procs[p := pc])
  }

  function Release(s: State, p: Proc): State {
    var pc := PcOf(s, p);
    s.(procs := s.procs[p := Idle], locks := if pc.Idle? then s.locks else s.locks - {pc.owner.registry})
  }

  /** When a step can be taken. `Look` is the first check of a claim: a root that exists
      without a marker is left alone. `Revisit` goes back to the root the entry has. */
  predicate Enabled(s: State, e: Event) {
    match e
    case Begin(p, o) => PcOf(s, p).Idle? && ValidOwner(o) && o.registry !in s.locks
    case Look(p, ip) =>
      var pc := PcOf(s, p);
      pc.Choosing? && Unused(pc.worlds, pc.owner.id, ip) && !(ip in s.roots && ip !in s.markers)
    case MakeRoot(p) => PcOf(s, p).Looked?
    case Revisit(p) => PcOf(s, p).Choosing? && PcOf(s, p).owner.id in PcOf(s, p).worlds
    case CreateMarker(p, inode) =>
      var pc := PcOf(s, p);
      pc.Marking? && pc.ip in s.roots && pc.ip !in s.markers && inode !in s.files
    case ReadMarker(p) => PcOf(s, p).Marking? && PcOf(s, p).ip in s.markers && s.markers[PcOf(s, p).ip] in s.files
    case WriteMore(p, n) =>
      var pc := PcOf(s, p);
      pc.Writing? && pc.inode in s.files && s.files[pc.inode].written <= n <= |OwnerText(pc.owner)|
    case FinishMarker(p) =>
      var pc := PcOf(s, p);
      pc.Writing? && pc.inode in s.files && s.files[pc.inode].written == |OwnerText(pc.owner)|
    case Save(p) => PcOf(s, p).Granted?
    case GiveUp(p) => true
    case DeleteRoot(ip) => true
  }

  /** What a step does. */
  function Next(s: State, e: Event): State
    requires Enabled(s, e)
  {
    match e
    case Begin(p, o) => At(s, p, Choosing(o, WorldsOf(s, o.registry))).(locks := s.locks[o.registry := p])
    case Look(p, ip) => At(s, p, Looked(PcOf(s, p).owner, PcOf(s, p).worlds, ip))
    case MakeRoot(p) =>
      var pc := PcOf(s, p);
      At(s, p, Marking(pc.owner, pc.worlds, pc.ip)).(roots := s.roots + {pc.ip})
    case Revisit(p) =>
      var pc := PcOf(s, p);
      var ip := pc.worlds[pc.owner.id].ip;
      At(s, p, Marking(pc.owner, pc.worlds, ip)).(roots := s.roots + {ip})
    case CreateMarker(p, inode) =>
      var pc := PcOf(s, p);
      At(s, p, Writing(pc.owner, pc.worlds, pc.ip, inode)).(
        markers := s.markers[pc.ip := inode], files := s.files[inode := Marker(pc.owner, 0)])
    case ReadMarker(p) =>
      var pc := PcOf(s, p);
      var inode := s.markers[pc.ip];
      if Content(s.files[inode]) == OwnerText(pc.owner)
      then At(s, p, Granted(pc.owner, pc.worlds, pc.ip)).(grants := s.grants + {(inode, pc.owner)})
      else At(s, p, Choosing(pc.owner, pc.worlds))
    case WriteMore(p, n) =>
      var pc := PcOf(s, p);
      s.(files := s.files[pc.inode := s.files[pc.inode].(written := n)])
    case FinishMarker(p) =>
      var pc := PcOf(s, p);
      At(s, p, Granted(pc.owner, pc.worlds, pc.ip)).(grants := s.grants + {(pc.inode, pc.owner)})
    case Save(p) =>
      var pc := PcOf(s, p);
      Release(s, p).(registries := s.registries[pc.owner.registry := pc.worlds[pc.owner.id := World(pc.ip)]])
    case GiveUp(p) => Release(s, p)
    case DeleteRoot(ip) => s.(roots := s.roots - {ip}, markers := s.markers - {ip})
  }

  // ----- the invariant -----

  /** Has an address in hand. */
  predicate Aims(pc: Pc) {
    pc.Looked? || pc.Marking? || pc.Writing? || pc.Granted?
  }

  ghost predicate PcOk(s: State, p: Proc) {
    var pc := PcOf(s, p);
    && (!pc.Idle? ==>
          && ValidOwner(pc.owner) && pc.owner.registry in s.locks && s.locks[pc.owner.registry] == p
          && pc.worlds == WorldsOf(s, pc.owner.registry))
    && (Aims(pc) ==> Unused(pc.worlds, pc.owner.id, pc.ip))
    && (pc.Writing? ==> pc.inode in s.files && s.files[pc.inode].author == pc.owner)
  }

  ghost predicate FilesOk(s: State) {
    && (forall i :: i in s.files ==> ValidOwner(s.files[i].author))
    && (forall g :: g in s.grants ==> g.0 in s.files && s.files[g.0].author == g.1)
  }

  ghost predicate RegistriesOk(s: State) {
    forall r :: r in s.registries ==> Distinct(s.registries[r])
  }

  ghost predicate Inv(s: State) {
    (forall p: Proc :: PcOk(s, p)) && FilesOk(s) && RegistriesOk(s)
  }

  /** Before any operation: registries and markers may be there from before. */
  ghost predicate Initial(s: State) {
    && s.procs == map[] && s.locks == map[] && s.grants == {} && RegistriesOk(s)
    && (forall i :: i in s.files ==> ValidOwner(s.files[i].author))
  }

  lemma InitialInv(s: State)
    requires Initial(s)
    ensures Inv(s)
  {
  }

  lemma OthersAddress(s: State, p: Proc)
    requires PcOk(s, p) && RegistriesOk(s) && PcOf(s, p).Choosing? && PcOf(s, p).owner.id in PcOf(s, p).worlds
    ensures Unused(PcOf(s, p).worlds, PcOf(s, p).owner.id, PcOf(s, p).worlds[PcOf(s, p).owner.id].ip)
  {
    assert Distinct(PcOf(s, p).worlds);
  }

  /** The process that takes the step. */
  lemma ActorKeeps(s: State, e: Event)
    requires !e.DeleteRoot? && Enabled(s, e) && PcOk(s, e.p)
    requires e.Revisit? ==> Unused(PcOf(s, e.p).worlds, PcOf(s, e.p).owner.id, PcOf(s, e.p).worlds[PcOf(s, e.p).owner.id].ip)
    ensures PcOk(Next(s, e), e.p)
  {
  }

  /** The others: whatever they rely on belongs to their own registry, or to a file that only
      its author writes. */
  lemma BystanderKeeps(s: State, e: Event, q: Proc)
    requires !e.DeleteRoot? && q != e.p && Enabled(s, e) && PcOk(s, e.p) && PcOk(s, q)
    ensures PcOk(Next(s, e), q)
  {
  }

  lemma PcKeeps(s: State, e: Event, q: Proc)
    requires Inv(s) && Enabled(s, e)
    ensures PcOk(Next(s, e), q)
  {
    assert PcOk(s, q);
    if !e.DeleteRoot? {
      assert PcOk(s, e.p);
      if q != e.p {
        BystanderKeeps(s, e, q);
      } else {
        if e.Revisit? {
          OthersAddress(s, e.p);
        }
        ActorKeeps(s, e);
      }
    }
  }

  /** A marker that reads as an owner's text was created by that owner. */
  lemma ReadMeansAuthor(m: Marker, o: Owner)
    requires ValidOwner(m.author) && ValidOwner(o) && Content(m) == OwnerText(o)
    ensures m.author == o
  {
    PrefixFree(o, m.author);
  }

  lemma FilesKeep(s: State, e: Event)
    requires Inv(s) && Enabled(s, e)
    ensures FilesOk(Next(s, e))
  {
    if !e.DeleteRoot? {
      assert PcOk(s, e.p);
      if e.ReadMarker? {
        var m := s.files[s.markers[PcOf(s, e.p).ip]];
        if Content(m) == OwnerText(PcOf(s, e.p).owner) {
          ReadMeansAuthor(m, PcOf(s, e.p).owner);
        }
      }
    }
  }

  lemma RegistriesKeep(s: State, e: Event)
    requires Inv(s) && Enabled(s, e)
    ensures RegistriesOk(Next(s, e))
  {
    if e.Save? {
      assert PcOk(s, e.p);
      var pc := PcOf(s, e.p);
      assert Distinct(pc.worlds);
      assert Distinct(pc.worlds[pc.owner.id := World(pc.ip)]);
    }
  }

  lemma StepKeeps(s: State, e: Event)
    requires Inv(s) && Enabled(s, e)
    ensures Inv(Next(s, e))
  {
    forall p: Proc ensures PcOk(Next(s, e), p) { PcKeeps(s, e, p); }
    FilesKeep(s, e);
    RegistriesKeep(s, e);
  }

  // ----- whole runs -----

  predicate CanRun(s: State, es: seq<Event>)
    decreases |es|
  {
    es == [] || (Enabled(s, es[0]) && CanRun(Next(s, es[0]), es[1..]))
  }

  function After(s: State, es: seq<Event>): State
    requires CanRun(s, es)
    decreases |es|
  {
    if es == [] then s else After(Next(s, es[0]), es[1..])
  }

  lemma {:induction false} RunKeeps(s: State, es: seq<Event>)
    requires Inv(s) && CanRun(s, es)
    ensures Inv(After(s, es))
    decreases |es|
  {
    if es != [] {
      StepKeeps(s, es[0]);
      RunKeeps(Next(s, es[0]), es[1..]);
    }
  }

  // ----- the same over addresses -----

  /** The step grants a root: at which address, by which marker, to whom. */
  function GrantOf(s: State, e: Event): Option<(Address, Inode, Owner)>
    requires Enabled(s, e)
  {
    match e
    case ReadMarker(p) =>
      var pc := PcOf(s, p);
      var inode := s.markers[pc.ip];
      if Content(s.files[inode]) == OwnerText(pc.owner) then Some((pc.ip, inode, pc.owner)) else None
    case FinishMarker(p) => Some((PcOf(s, p).ip, PcOf(s, p).inode, PcOf(s, p).owner))
    case _ => None
  }

  /** Some step of the run grants the root at the address to the owner. */
  predicate Grants(s: State, es: seq<Event>, ip: Address, o: Owner)
    requires CanRun(s, es)
    decreases |es|
  {
    es != [] && ((match GrantOf(s, es[0]) case Some(g) => g.0 == ip && g.2 == o case None => false) || Grants(Next(s, es[0]), es[1..], ip, o))
  }

  predicate Keeps(es: seq<Event>, ip: Address) {
    DeleteRoot(ip) !in es
  }

  /** Whoever writes a marker for the address writes the one that is there: no root was deleted
      under a claimant. */
  ghost predicate Settled(s: State, ip: Address) {
    forall p: Proc :: PcOf(s, p).Writing? && PcOf(s, p).ip == ip ==> ip in s.markers && s.markers[ip] == PcOf(s, p).inode
  }

  /** While the root stays, its marker does, and nobody comes to write another. */
  lemma SettledStep(s: State, e: Event, ip: Address)
    requires Enabled(s, e) && e != DeleteRoot(ip) && Settled(s, ip)
    ensures Settled(Next(s, e), ip)
    ensures ip in s.markers ==> ip in Next(s, e).markers && Next(s, e).markers[ip] == s.markers[ip]
    ensures s.grants <= Next(s, e).grants
  {
    forall p: Proc | PcOf(Next(s, e), p).Writing? && PcOf(Next(s, e), p).ip == ip
      ensures ip in Next(s, e).markers && Next(s, e).markers[ip] == PcOf(Next(s, e), p).inode
    {
      assert PcOf(s, p).Writing? && PcOf(s, p).ip == ip ==> ip in s.markers && s.markers[ip] == PcOf(s, p).inode;
    }
  }

  /** So every grant of the address is by that marker. */
  lemma GrantHere(s: State, e: Event, ip: Address)
    requires Enabled(s, e) && Settled(s, ip)
    ensures match GrantOf(s, e)
            case Some(g) => g.0 == ip ==> ip in s.markers && s.markers[ip] == g.1 && (g.1, g.2) in Next(s, e).grants
            case None => true
  {
    if e.FinishMarker? && PcOf(s, e.p).ip == ip {
      assert PcOf(s, e.p).Writing?;
    }
  }

  lemma {:induction false} MarkerStays(s: State, es: seq<Event>, ip: Address)
    requires CanRun(s, es) && Keeps(es, ip) && Settled(s, ip)
    ensures var t := After(s, es);
            && (ip in s.markers ==> ip in t.markers && t.markers[ip] == s.markers[ip]) && s.grants <= t.grants
    decreases |es|
  {
    if es != [] {
      SettledStep(s, es[0], ip);
      MarkerStays(Next(s, es[0]), es[1..], ip);
    }
  }

  lemma {:induction false} GrantsByMarker(s: State, es: seq<Event>, ip: Address, o: Owner)
    requires CanRun(s, es) && Keeps(es, ip) && Settled(s, ip) && Grants(s, es, ip, o)
    ensures var t := After(s, es); ip in t.markers && (t.markers[ip], o) in t.grants
    decreases |es|
  {
    SettledStep(s, es[0], ip);
    GrantHere(s, es[0], ip);
    MarkerStays(Next(s, es[0]), es[1..], ip);
    if Grants(Next(s, es[0]), es[1..], ip, o) {
      GrantsByMarker(Next(s, es[0]), es[1..], ip, o);
    }
  }

  /** While nobody deletes the root at an address, it is granted to one owner only, provided that
      none was deleted under a claimant before. */
  lemma OneOwner(s: State, es: seq<Event>, ip: Address, a: Owner, b: Owner)
    requires Inv(s) && Settled(s, ip) && CanRun(s, es) && Keeps(es, ip)
    requires Grants(s, es, ip, a) && Grants(s, es, ip, b)
    ensures a == b
  {
    GrantsByMarker(s, es, ip, a);
    GrantsByMarker(s, es, ip, b);
    RunKeeps(s, es);
  }

  /** Over any interleaving of claimants from several registries, with markers written piece by
      piece, crashes and deletions: two owners that got the same root are the same owner, so an
      address whose root nobody deletes is granted to one owner only, and the addresses recorded in
      one registry are pairwise distinct. */
  lemma RootRuns(s: State, es: seq<Event>, root: Inode, ip: Address, a: Owner, b: Owner, registry: Bytes)
    requires Initial(s) && CanRun(s, es)
    ensures var t := After(s, es);
            && ((root, a) in t.grants && (root, b) in t.grants ==> a == b)
            && Distinct(WorldsOf(t, registry))
    ensures Keeps(es, ip) && Grants(s, es, ip, a) && Grants(s, es, ip, b) ==> a == b
  {
    InitialInv(s);
    RunKeeps(s, es);
    if Keeps(es, ip) && Grants(s, es, ip, a) && Grants(s, es, ip, b) {
      OneOwner(s, es, ip, a, b);
    }
  }

  /** The proviso is needed. `a` has made its marker when the root is deleted; `b` makes the root and
      a marker anew; then both finish, and both are granted the address. */
  function Deleted(a: Owner, b: Owner, ip: Address, u: Inode, v: Inode): State {
    State({ip}, map[ip := v], map[u := Marker(a, |OwnerText(a)|), v := Marker(b, |OwnerText(b)|)], map[],
          map[a.registry := 1, b.registry := 2], map[1 := Writing(a, map[], ip, u), 2 := Writing(b, map[], ip, v)], {})
  }

  /** How it comes about: from nothing, over one deletion. */
  function UnderClaim(a: Owner, b: Owner, ip: Address, u: Inode, v: Inode): seq<Event> {
    [Begin(1, a), Look(1, ip), MakeRoot(1), CreateMarker(1, u), DeleteRoot(ip),
     Begin(2, b), Look(2, ip), MakeRoot(2), CreateMarker(2, v), WriteMore(1, |OwnerText(a)|), WriteMore(2, |OwnerText(b)|)]
  }

  const Nothing: State := State({}, map[], map[], map[], map[], map[], {})

  lemma RunFirst(s: State, e: Event, es: seq<Event>, t: State)
    requires Enabled(s, e) && Next(s, e) == t && CanRun(t, es)
    ensures CanRun(s, [e] + es) && After(s, [e] + es) == After(t, es)
  {
    assert ([e] + es)[1..] == es;
  }

  lemma {:induction false} RunsJoin(s: State, x: seq<Event>, y: seq<Event>)
    requires CanRun(s, x) && CanRun(After(s, x), y)
    ensures CanRun(s, x + y) && After(s, x + y) == After(After(s, x), y)
    decreases |x|
  {
    if x == [] {
      assert x + y == y;
    } else {
      assert (x + y)[1..] == x[1..] + y;
      RunsJoin(Next(s, x[0]), x[1..], y);
    }
  }

  /** One claimant has its marker; the root is gone. */
  function Orphaned(a: Owner, ip: Address, u: Inode): State {
    State({}, map[], map[u := Marker(a, 0)], map[], map[a.registry := 1], map[1 := Writing(a, map[], ip, u)], {})
  }

  /** One claimant has made the root. */
  function Rooted(a: Owner, ip: Address): State {
    State({ip}, map[], map[], map[], map[a.registry := 1], map[1 := Marking(a, map[], ip)], {})
  }

  /** The other has made the root and a marker anew. */
  function Remade(a: Owner, b: Owner, ip: Address, u: Inode, v: Inode): State {
    State({ip}, map[ip := v], map[u := Marker(a, 0), v := Marker(b, 0)], map[],
          map[a.registry := 1, b.registry := 2], map[1 := Writing(a, map[], ip, u), 2 := Writing(b, map[], ip, v)], {})
  }

  lemma FirstRoots(a: Owner, b: Owner, ip: Address, u: Inode, v: Inode)
    requires ValidOwner(a)
    ensures CanRun(Nothing, UnderClaim(a, b, ip, u, v)[..3]) && After(Nothing, UnderClaim(a, b, ip, u, v)[..3]) == Rooted(a, ip)
  {
    var s1 := Next(Nothing, Begin(1, a));
    var s2 := Next(s1, Look(1, ip));
    assert Next(s2, MakeRoot(1)) == Rooted(a, ip);
    var l2 := [MakeRoot(1)];
    var l1 := [Look(1, ip)] + l2;
    assert l2 == [MakeRoot(1)] + [];
    RunFirst(s2, MakeRoot(1), [], Rooted(a, ip));
    RunFirst(s1, Look(1, ip), l2, s2);
    RunFirst(Nothing, Begin(1, a), l1, s1);
    assert UnderClaim(a, b, ip, u, v)[..3] == [Begin(1, a)] + l1;
  }

  lemma FirstMarks(a: Owner, b: Owner, ip: Address, u: Inode, v: Inode)
    ensures CanRun(Rooted(a, ip), UnderClaim(a, b, ip, u, v)[3..5]) && After(Rooted(a, ip), UnderClaim(a, b, ip, u, v)[3..5]) == Orphaned(a, ip, u)
  {
    var s1 := Next(Rooted(a, ip), CreateMarker(1, u));
    assert Next(s1, DeleteRoot(ip)) == Orphaned(a, ip, u);
    var l1 := [DeleteRoot(ip)];
    assert l1 == [DeleteRoot(ip)] + [];
    RunFirst(s1, DeleteRoot(ip), [], Orphaned(a, ip, u));
    RunFirst(Rooted(a, ip), CreateMarker(1, u), l1, s1);
    assert UnderClaim(a, b, ip, u, v)[3..5] == [CreateMarker(1, u)] + l1;
  }

  /** The other's claim on the way: the root is gone, or made anew. */
  function Second(a: Owner, b: Owner, ip: Address, u: Inode, roots: set<Address>, pc: Pc): State {
    State(roots, map[], map[u := Marker(a, 0)], map[], map[a.registry := 1, b.registry := 2],
          map[1 := Writing(a, map[], ip, u), 2 := pc], {})
  }

  lemma SecondBegins(a: Owner, b: Owner, ip: Address, u: Inode)
    requires ValidOwner(b) && a.registry != b.registry
    ensures Enabled(Orphaned(a, ip, u), Begin(2, b))
    ensures Next(Orphaned(a, ip, u), Begin(2, b)) == Second(a, b, ip, u, {}, Choosing(b, map[]))
  {
  }

  lemma SecondLooks(a: Owner, b: Owner, ip: Address, u: Inode)
    ensures var s1, s2 := Second(a, b, ip, u, {}, Choosing(b, map[])), Second(a, b, ip, u, {}, Looked(b, map[], ip));
            && Enabled(s1, Look(2, ip)) && Next(s1, Look(2, ip)) == s2
            && Enabled(s2, MakeRoot(2)) && Next(s2, MakeRoot(2)) == Second(a, b, ip, u, {ip}, Marking(b, map[], ip))
  {
    var s1, s2 := Second(a, b, ip, u, {}, Choosing(b, map[])), Second(a, b, ip, u, {}, Looked(b, map[], ip));
    assert PcOf(s1, 2) == Choosing(b, map[]) && PcOf(s2, 2) == Looked(b, map[], ip);
  }

  lemma SecondRoots(a: Owner, b: Owner, ip: Address, u: Inode, v: Inode)
    requires ValidOwner(b) && a.registry != b.registry
    ensures CanRun(Orphaned(a, ip, u), UnderClaim(a, b, ip, u, v)[5..8])
    ensures After(Orphaned(a, ip, u), UnderClaim(a, b, ip, u, v)[5..8]) == Second(a, b, ip, u, {ip}, Marking(b, map[], ip))
  {
    var s1, s2 := Second(a, b, ip, u, {}, Choosing(b, map[])), Second(a, b, ip, u, {}, Looked(b, map[], ip));
    var s3 := Second(a, b, ip, u, {ip}, Marking(b, map[], ip));
    SecondBegins(a, b, ip, u);
    SecondLooks(a, b, ip, u);
    var l2 := [MakeRoot(2)];
    var l1 := [Look(2, ip)] + l2;
    assert l2 == [MakeRoot(2)] + [];
    RunFirst(s2, MakeRoot(2), [], s3);
    RunFirst(s1, Look(2, ip), l2, s2);
    RunFirst(Orphaned(a, ip, u), Begin(2, b), l1, s1);
    assert UnderClaim(a, b, ip, u, v)[5..8] == [Begin(2, b)] + l1;
  }

  lemma SecondMarks(a: Owner, b: Owner, ip: Address, u: Inode, v: Inode)
    requires u != v
    ensures var s := Second(a, b, ip, u, {ip}, Marking(b, map[], ip));
            CanRun(s, UnderClaim(a, b, ip, u, v)[8..9]) && After(s, UnderClaim(a, b, ip, u, v)[8..9]) == Remade(a, b, ip, u, v)
  {
    var s := Second(a, b, ip, u, {ip}, Marking(b, map[], ip));
    assert PcOf(s, 2) == Marking(b, map[], ip);
    assert Next(s, CreateMarker(2, v)) == Remade(a, b, ip, u, v);
    RunFirst(s, CreateMarker(2, v), [], Remade(a, b, ip, u, v));
    assert UnderClaim(a, b, ip, u, v)[8..9] == [CreateMarker(2, v)] + [];
  }

  lemma BothWrite(a: Owner, b: Owner, ip: Address, u: Inode, v: Inode)
    requires u != v
    ensures CanRun(Remade(a, b, ip, u, v), UnderClaim(a, b, ip, u, v)[9..])
    ensures After(Remade(a, b, ip, u, v), UnderClaim(a, b, ip, u, v)[9..]) == Deleted(a, b, ip, u, v)
  {
    var s0 := Remade(a, b, ip, u, v);
    assert PcOf(s0, 1) == Writing(a, map[], ip, u) && PcOf(s0, 2) == Writing(b, map[], ip, v);
    var s1 := Next(s0, WriteMore(1, |OwnerText(a)|));
    assert PcOf(s1, 2) == Writing(b, map[], ip, v) && s1.files == map[u := Marker(a, |OwnerText(a)|), v := Marker(b, 0)];
    assert Next(s1, WriteMore(2, |OwnerText(b)|)) == Deleted(a, b, ip, u, v);
    var l1 := [WriteMore(2, |OwnerText(b)|)];
    assert l1 == [WriteMore(2, |OwnerText(b)|)] + [];
    RunFirst(s1, WriteMore(2, |OwnerText(b)|), [], Deleted(a, b, ip, u, v));
    RunFirst(s0, WriteMore(1, |OwnerText(a)|), l1, s1);
    assert UnderClaim(a, b, ip, u, v)[9..] == [WriteMore(1, |OwnerText(a)|)] + l1;
  }

  lemma FirstClaims(a: Owner, b: Owner, ip: Address, u: Inode, v: Inode)
    requires ValidOwner(a)
    ensures CanRun(Nothing, UnderClaim(a, b, ip, u, v)[..5]) && After(Nothing, UnderClaim(a, b, ip, u, v)[..5]) == Orphaned(a, ip, u)
  {
    var run := UnderClaim(a, b, ip, u, v);
    FirstRoots(a, b, ip, u, v);
    FirstMarks(a, b, ip, u, v);
    RunsJoin(Nothing, run[..3], run[3..5]);
    assert run[..3] + run[3..5] == run[..5];
  }

  lemma ClaimsUnder(a: Owner, b: Owner, ip: Address, u: Inode, v: Inode)
    requires ValidOwner(a) && ValidOwner(b) && a.registry != b.registry && u != v
    ensures CanRun(Nothing, UnderClaim(a, b, ip, u, v)) && After(Nothing, UnderClaim(a, b, ip, u, v)) == Deleted(a, b, ip, u, v)
  {
    var run := UnderClaim(a, b, ip, u, v);
    FirstClaims(a, b, ip, u, v);
    SecondRoots(a, b, ip, u, v);
    RunsJoin(Nothing, run[..5], run[5..8]);
    assert run[..5] + run[5..8] == run[..8];
    SecondMarks(a, b, ip, u, v);
    RunsJoin(Nothing, run[..8], run[8..9]);
    assert run[..8] + run[8..9] == run[..9];
    BothWrite(a, b, ip, u, v);
    RunsJoin(Nothing, run[..9], run[9..]);
    assert run[..9] + run[9..] == run;
  }

  /** Two owners granted one address, with no deletion between the grants. */
  lemma TwoOwners(a: Owner, b: Owner, ip: Address, u: Inode, v: Inode)
    requires ValidOwner(a) && ValidOwner(b) && a.registry != b.registry && u != v
    ensures Initial(Nothing) && CanRun(Nothing, UnderClaim(a, b, ip, u, v))
    ensures var t, es := After(Nothing, UnderClaim(a, b, ip, u, v)), [FinishMarker(1), FinishMarker(2)];
            CanRun(t, es) && Keeps(es, ip) && Grants(t, es, ip, a) && Grants(t, es, ip, b) && !Settled(t, ip)
  {
    ClaimsUnder(a, b, ip, u, v);
    var t := Deleted(a, b, ip, u, v);
    var t1 := Next(t, FinishMarker(1));
    var es := [FinishMarker(1), FinishMarker(2)];
    assert es[1..] == [FinishMarker(2)] && es[1..][1..] == [];
    assert PcOf(t1, 2) == PcOf(t, 2);
    assert GrantOf(t1, FinishMarker(2)) == Some((ip, v, b));
    assert Grants(t1, es[1..], ip, b);
    assert PcOf(t, 1).Writing?;
  }

  // ----- the search -----

  const LAST_ADDRESS: nat := 65534

  /** What an attempt to claim a root comes to. */
  datatype Claim = Mine | Theirs | Broken

  /** Where the filesystem fails an attempt, if it does: at the root, or at its marker, which it
      fails to make or to read. */
  datatype Trouble = NoTrouble | AtRoot | AtMarker

  datatype Search = Got(ip: Address) | Exhausted | Stopped(ip: Address)

  /** The temp roots below one home directory, as one operation sees them while nobody else
      claims: which exist, and what the markers say. */
  class Home {
    var roots: set<Address>
    var markers: map<Address, Bytes>

    /** A marker lies in its root. */
    predicate Valid()
      reads this
    {
      markers.Keys <= roots
    }

    constructor ()
      ensures Valid() && roots == {} && markers == map[]
    {
      roots, markers := {}, map[];
    }

    /** The root is free, or already marked as the owner's. */
    predicate Claimable(ip: Address, owner: Bytes)
      reads this
    {
      if ip in markers then markers[ip] == owner else ip !in roots
    }

    /** One claim. Whatever belongs to somebody else, or has no marker, is left alone. */
    method ClaimRoot(ip: Address, owner: Bytes, trouble: Trouble) returns (r: Claim)
      requires Valid()
      modifies this
      ensures Valid()
      ensures r.Theirs? ==> roots == old(roots) && markers == old(markers) && !old(Claimable(ip, owner))
      ensures r.Mine? ==> roots == old(roots) + {ip} && markers == old(markers)[ip := owner] && old(Claimable(ip, owner))
      ensures r.Broken? ==> trouble != NoTrouble && roots <= old(roots) + {ip} && old(roots) <= roots && markers == old(markers)
      ensures trouble == NoTrouble ==> (r.Mine? <==> old(Claimable(ip, owner)))
      ensures trouble != NoTrouble ==> (r.Broken? <==> !(ip in old(roots) && ip !in old(markers)))
    {
      if ip in roots && ip !in markers {
        return Theirs;
      }
      if trouble == AtRoot {
        return Broken;
      }
      roots := roots + {ip};
      if trouble == AtMarker {
        return Broken;
      }
      if ip in markers && markers[ip] != owner {
        return Theirs;
      }
      markers := markers[ip := owner];
      return Mine;
    }

    /** The search: the lowest address that no entry uses and whose root can be claimed, with that
        root claimed and nothing else touched. It gives up when there is none, and stops at the
        first failure of the filesystem. */
    method Allocate(used: set<Address>, owner: Bytes, trouble: Address -> Trouble) returns (r: Search)
      requires Valid()
      modifies this
      ensures Valid()
      ensures r.Got? ==>
                && 1 <= r.ip <= LAST_ADDRESS && r.ip !in used && old(Claimable(r.ip, owner))
                && roots == old(roots) + {r.ip} && markers == old(markers)[r.ip := owner]
                && forall n: Address :: 1 <= n < r.ip ==> n in used || !old(Claimable(n, owner))
      ensures r.Exhausted? ==>
                && roots == old(roots) && markers == old(markers)
                && forall n: Address :: 1 <= n <= LAST_ADDRESS ==> n in used || !old(Claimable(n, owner))
      ensures r.Stopped? ==> trouble(r.ip) != NoTrouble && markers == old(markers) && old(roots) <= roots <= old(roots) + {r.ip}
    {
      for n := 1 to LAST_ADDRESS + 1
        invariant Valid() && roots == old(roots) && markers == old(markers)
        invariant forall k: Address :: 1 <= k < n ==> k in used || !old(Claimable(k, owner))
      {
        if n !in used {
          var c := ClaimRoot(n, owner, trouble(n));
          if c.Mine? {
            return Got(n);
          } else if c.Broken? {
            return Stopped(n);
          }
        }
      }
      return Exhausted;
    }
  }
}
