# World: path mapping, filesystem model and protocols

World runs programs in workspaces that have a private `/tmp` and `/var/tmp`. On macOS a shim
rewrites path texts (`world-tmp-path`); on Linux a holder process keeps mount namespaces; an
experimental backend runs Linux VMs. `world-fsmodel` is an in-memory filesystem with a virtual
view (what the workspace sees) and a physical one, and is the specification of the shim.

This project models that code in Dafny and proves what it promises.

- `Text`, `TmpPath`: component lists and the mapper as functions; `TmpPathBuffer` and
  `TmpPathAtBuffer` are the mapper as it runs, on fixed buffers with byte offsets, proved
  against those functions. `TmpPathResolver`, `TmpPathInverse`, `TmpLexical*`: the mapper for
  any resolver, its inverse, and the normalise-then-relocate oracle. `TmpPathAnswers`,
  `TmpPathContained`, `TmpPathSpelled`: when it asks, answers and fails, told by the texts.
- `FsState`, `FsTree`, `FsOps`: the node arena, lookup, reported names, and what each of the
  23 calls decides; a call is its decision (`Decide`) followed by one edit (`Do`). `FsModel` is
  the object whose methods loop and update fields in place, proved against them.
- `FsWellFormed`, `FsEdits`: every step of every run keeps the tree well formed.
  `FsIsolation`, `FsTwins`, `FsNoninterference`, `FsRoutes`, `FsTwinRuns`, `FsLeak`: what a mount
  hides is untouched and cannot be observed, and where it can. `FsPaths`, `FsReach`,
  `FsScaffold`, `FsReports`, `FsRename`, `LinuxMounts`, `FsEnds`, `FsCycle`: paths, mounts and
  renames over runs. `FsEffects`, `FsCalls`, `FsTakes`, `FsAt`: what one call does, seen through
  the calls after it. `FsLookups`, `FsRenames`, `FsOutcomes`, `FsRoom`, `FsDescriptors`: when a call succeeds and
  with what errno it fails, told by what other calls say of the same path. `FsSprout`, `FsFresh*`, `FsScript`: initial trees and runs step by step.
- `MacTree`, `MacNames`, `MacRuns`, `FsTame`, `Refinement*`: the mapper refines the virtual view.
  `RefinementLoop` is the loop against the virtual view, `RefinementUnchanged*` the paths it
  leaves alone, `RefinementLimits` and `RefinementExamples` the inputs that the conditions leave
  out.
- `Import*`: the import stream, both ends. `OpText`, `OpLines`, `OpForms`: operations as text.
  `Ddmin`: delta debugging. `TempRoots*`, `HolderProtocol`, `HolderOutcomes`, `Vm*`: protocols as
  state machines over interleaved steps, with crashes: what every run keeps, what completed
  operations leave, and that they can complete.

Terms. A *tame* kernel walk never steps `..` off a private temp directory and, where it lands
on a host temp directory, leaves it at once by `..`; inside a temp root the mapper copies text
verbatim, so for mapped texts agreement is stated for those walks (`FsTame.Tame`). A path is
*grounded* (`RefinementMain.Grounded`) when names do not fold, its walk steps no `..` off a
private temp directory, and every link it follows, the aliases apart, leads tamely to a node that
is no host temp directory, nor above one if a `tmp` is still to come. A *safe* run removes,
replaces and renames no mount node and no directory above one (`FsScaffold.SafeRun`); the
driver's sandbox check ensures this. A root is canonical when it is the physical name of the
anchor directory (part of `MacTree.Mac`), as every root that silo builds is.

Choices where the code leaves room. PATH_MAX of the mapper is that of macOS, 1024. Where the
documentation of `Outcome` says that listed names are joined by NUL, the code joins them by
newlines, and so does the model. `full_path` on parents that go round never returns; the
outcome is then `Hangs`. `FsEnds.RenameEnds` has the exact renames that bring this about, and
safe runs never see it (`FsReports.RunLeadsBack`).
Lookups of a name among a directory's entries by node (`BTreeMap::iter().find`) have one
answer, since a well-formed directory lists a node once. Clocks, randomness and the resolver
are parameters: a resolver is any function of the call number and the query whose answers fit
its buffer, as the source demands: it slices the buffer by the length reported. Where success
means less than it seems: a root deleted under a claimant can be granted to two owners
(`TempRoots.TwoOwners`), a setup may keep a recorded holder that was never told to hold
(`HolderProtocol.SetupLeaves`), and a file created through a link whose target ends in a slash is
not found under its path.

## Model

| member | source | states |
|---|---|---|
| `RefinementMain.MapRefinesVirtual` | crates/world-tmp-path/src/lib.rs:217-432 | for every macOS tree and absolute path at which the virtual view finds a node and the mapper answers (Ok): the physical view finds the same node at the text to use, if and only if the path does not end on the `/tmp` alias unfollowed. The text to use and the questions on the way to it are taken to be walked tamely; where the mapper would leave such a text alone, as it does with every path left unchanged, it is enough that the text is grounded, which says nothing of where its names lead |
| `RefinementMain.RewrittenWalked` | crates/world-tmp-path/src/lib.rs:337-361 | a text that was rewritten and ends outside the temp roots is one that the mapper would leave alone, so that being grounded is enough |
| `RefinementMain.UnchangedTame` | crates/world-tmp-path/src/lib.rs:233-361 | a grounded path that the mapper leaves unchanged, also after questions, never walks into a host temp directory, whatever its names |
| `RefinementAt.MapAtRefinesVirtual` | crates/world-tmp-path/src/lib.rs:483-554 | the same for relative paths from any linked directory that no mount hides, whichever of mapped, joined or unchanged text is chosen |
| `RefinementAt.UnchangedTameAt` | crates/world-tmp-path/src/lib.rs:483-554 | a grounded relative path left unchanged, by the quick check or after joining, never walks into a host temp directory |
| `RefinementLoop.LoopServes` | crates/world-tmp-path/src/lib.rs:363-431 | what the virtual view finds at the path it finds at the text of every later round of the loop |
| `RefinementLimits.AliasDiffers` | crates/world-tmp-path/src/lib.rs:246-253 | the alias condition at its simplest: `/tmp` looked up without following is the link virtually and the private directory after mapping, in every macOS tree |
| `RefinementLimits.RootLinkStrays` | crates/world-tmp-path/src/lib.rs:233-331 | why links must be grounded: with a link `/r` to `/`, `/r/tmp` is left unchanged and leads to the private directory virtually and to the host's physically |
| `RefinementLimits.FoldStrays` | crates/world-tmp-path/src/lib.rs:233-331 | why folding must be off: on a tree that folds case, `/TMP` strays in the same way |
| `RefinementLimits.PrivateLinkStrays` | crates/world-tmp-path/src/lib.rs:275-331 | why `..` must not step off a private temp directory: with a link `/r` to the private `tmp` by its physical name, `/r/..` is left unchanged, `/private` virtually and the temp root physically |
| `RefinementExamples.RootLinkOccurs` | crates/world-tmp-path/src/lib.rs:233-331 | these inputs occur: a new model in which `/r` was made a link to `/` |
| `RefinementExamples.PrivateLinkOccurs` | crates/world-tmp-path/src/lib.rs:275-331 | a new model in which `/r` was made a link to the private `tmp` |
| `RefinementExamples.FoldOccurs` | crates/world-tmp-path/src/lib.rs:233-331 | and every new model that folds case |
| `Refinement.ScanWalk` | crates/world-tmp-path/src/lib.rs:233-361 | wherever the scanner comes to a temp root, the virtual walk of the same components has come to the private directory of that root, unless both end on the alias |
| `FsTame.TameAgrees` | crates/world-fsmodel/src/lib.rs:1847-1863 | on a tame physical walk both views find the same node |
| `MacNames.HostNameIsVirtual` | crates/world-tmp-path/src/lib.rs:569-578 | unmapping the physical name of any visible linked node gives its virtual name |
| `TmpLexicalMain.MapIsLexical` | crates/world-tmp-path/src/lib.rs:1404-1451 | for every absolute path below PATH_MAX that never names the private tree, with the alias-expanding normaliser as resolver, every Ok answer normalises to exactly 'normalise, then relocate below the root' |
| `TmpLexical.ScanAgrees` | crates/world-tmp-path/src/lib.rs:233-331 | the scan state and the normaliser's stack stay in step, component by component, to the end or the escape |
| `TmpPathResolver.AnyResolver` | crates/world-tmp-path/src/lib.rs:227-431 | whatever the resolver answers: at most one question per `..` of the input, and the ELOOP check only fires on an answer with a `..` |
| `TmpPathResolver.TargetIsLexical` | crates/world-tmp-path/src/lib.rs:128-137 | `map_target` equals mapping under any resolver when no question is needed, and leaves the target alone otherwise |
| `TmpPathInverse.MapsBelowRoot` | crates/world-tmp-path/src/lib.rs:337-361 | every spelling of a temp path without `..`, with empty and `.` components anywhere, maps to its place below the root, remainder unchanged, without a question |
| `TmpPathInverse.MapUnmapMap` | crates/world-tmp-path/src/lib.rs:569-578 | unmapping a mapped path gives the canonical `/private` name with the remainder unchanged and no longer than before; mapping that again gives the physical name back |
| `TmpPathInverse.PhysicalStays` | crates/world-tmp-path/src/lib.rs:34-46 | mapping a physical name is a no-op exactly when it is not the `tmp` directory of the root `/private/var` |
| `TmpPathInverse.PhysicalMovesOnce` | crates/world-tmp-path/src/lib.rs:34-46 | that exception is a root `valid_root` accepts, and its physical `/private/var/tmp` is mapped a second time |
| `TmpPathAnswers.MapOutcome` | crates/world-tmp-path/src/lib.rs:217-432 | for every path and resolver, told by the texts alone: the mapper goes from the path over answered questions, each about what stands in front of a `..` and followed by the parent of the host name of the answer with the rest behind it, to a last text; its result is that text's place, ENAMETOOLONG only if the place, the question or the rewritten text does not fit, an errno only if the resolver gave it, ELOOP only if the answer brought `..` in |
| `TmpPathAnswers.AnswersWhenAllFits` | crates/world-tmp-path/src/lib.rs:217-432 | when everything fits and every question is answered without `..`, the mapper answers |
| `TmpPathContained.StaysInside` | crates/world-tmp-path/src/lib.rs:276-361 | a path below a temp root whose `..` never lead out of it again is mapped at once, without a question |
| `TmpPathContained.AsksOutside` | crates/world-tmp-path/src/lib.rs:288-399 | where a `..` leads out, behind a name, the first question is about the directory in front of it |
| `TmpPathSpelled.FourSpellings` | crates/world-tmp-path/src/lib.rs:337-361 | `/tmp`, `/private/tmp`, `/var/tmp` and `/private/var/tmp` lead to `/tmp` and `/var/tmp` below the root |
| `TmpPathSpelled.LeftAlone` | crates/world-tmp-path/src/lib.rs:217-232 | a path without a `tmp` component, one that is not absolute and one of 1024 bytes are left alone, whatever the resolver |
| `TmpPathSpelled.UnmapsExactly` | crates/world-tmp-path/src/lib.rs:567-578 | unmapping renames exactly what lies in the two private temp directories below the root |
| `TmpPathSpelled.RelativeOutcome` | crates/world-tmp-path/src/lib.rs:483-554 | a relative path without `..` whose first name leads nowhere near a temp root is left alone even when its directory is unknown; any other fails only with the directory's errno, for a text that does not fit, or as its joined name does |
| `TmpPathBuffer.ScanText` | crates/world-tmp-path/src/lib.rs:234-331 | the scan loop over byte offsets ends where the component-wise scan ends |
| `TmpPathBuffer.MapWith` | crates/world-tmp-path/src/lib.rs:217-432 | the buffer loop delivers the specified result, NUL-terminated inside `out`, puts exactly the specified questions, ends for every resolver and never leaves its buffers |
| `TmpPathBuffer.AskAndRewrite` | crates/world-tmp-path/src/lib.rs:363-421 | one question: the query stands NUL-terminated in `out` whenever the resolver was asked, the rewritten text in `cur`, and each of the four error exits |
| `TmpPathBuffer.UnmapInPlace` | crates/world-tmp-path/src/lib.rs:567-578 | the buffer holds the unmapped text, no longer than before, everything around it unchanged |
| `TmpPathBuffer.UnmapSockaddr` | crates/world-tmp-path/src/lib.rs:625-645 | a mapped address gets the unmapped path, zeroed freed bytes, the length byte of its new length and never grows; any other is untouched |
| `TmpPathAtBuffer.PopComponent` | crates/world-tmp-path/src/lib.rs:556-565 | the loop drops exactly the last component, never the leading slash |
| `TmpPathAtBuffer.TakeLeading` | crates/world-tmp-path/src/lib.rs:508-527 | the loop takes exactly the leading `.` and `..` components |
| `TmpPathAtBuffer.MapAtWith` | crates/world-tmp-path/src/lib.rs:483-554 | the relative mapper on its buffers delivers the specified result and questions, also when the base fails or does not fit |
| `FsModel.Model.ResolveInner` | crates/world-fsmodel/src/lib.rs:518-582 | the component loop computes path lookup in either view |
| `FsModel.Model.PathText` | crates/world-fsmodel/src/lib.rs:614-634 | the climbing loop computes the reported path of a node wherever it ends |
| `FsModel.Model.NameIn` | crates/world-fsmodel/src/lib.rs:636-649 | the name and directory a node is reported under |
| `FsModel.Model.Detached` | crates/world-fsmodel/src/lib.rs:1886-1898 | true exactly when the node or an owner above it was removed |
| `FsModel.Model.Descends` | crates/world-fsmodel/src/lib.rs:1777-1788 | true exactly when the ancestor is on the owner chain |
| `FsModel.Model.MountNumber` | crates/world-fsmodel/src/lib.rs:1329-1351 | the mount number is decided by the first private temp directory on the way up |
| `FsModel.Model.ListDirectory` | crates/world-fsmodel/src/lib.rs:1755-1773 | outcome of `list`: the names in byte order, one per line |
| `FsModel.Model.Apply` | crates/world-fsmodel/src/lib.rs:743-771 | for all 23 calls, the object with its loops and in-place updates leaves the state and returns the outcome that the theorems below are about, and keeps the tree well formed |
| `FsWellFormed.DecideSensible` | crates/world-fsmodel/src/lib.rs:743-771 | every call decides on an edit its checks make legal, and on none when it returns an errno |
| `FsEdits.EditFormed` | crates/world-fsmodel/src/lib.rs:1353-1548 | every legal edit keeps parents and entries in agreement, one entry per node, owner chains ending at the root, entries only in directories, entry exactly when not detached, detached directories empty |
| `FsTree.ChainRoot` | crates/world-fsmodel/src/lib.rs:1886-1898 | in a well-formed tree every owner chain ends at the root |
| `FsEdits.Apply` | crates/world-fsmodel/src/lib.rs:743-771 | one call keeps the tree well formed, and an errno means nothing changed |
| `FsEdits.After` | crates/world-fsmodel/src/lib.rs:743-771 | the tree is well formed after every run |
| `FsIsolation.DecideWithin` | crates/world-fsmodel/src/lib.rs:743-771 | whatever a call edits is visible in the virtual view |
| `FsIsolation.RunIsolated` | crates/world-fsmodel/src/lib.rs:1847-1863 | over every run no node below a mountpoint changes and neither cwd nor a descriptor comes to lie there |
| `FsNoninterference.DecideTwin` | crates/world-fsmodel/src/lib.rs:743-771 | two models that differ only below mountpoints decide alike on every call that tests no mountpoint for emptiness; a rename also needs the routes to the private temp directories to be the same |
| `FsRoutes.SeenSame` | crates/world-fsmodel/src/lib.rs:1329-1351 | they are, when these routes are looked up in visible directories only |
| `FsTwinRuns.TwinRuns` | crates/world-fsmodel/src/lib.rs:743-771 | identical outcomes over every run that tests no mountpoint for emptiness and before each rename of which the routes are seen |
| `FsTwinRuns.MacTwinRuns` | crates/world-fsmodel/src/lib.rs:743-771 | on macOS over every run that tests no mountpoint for emptiness |
| `FsTwinRuns.SafeTwinRuns` | crates/world-fsmodel/src/lib.rs:1329-1351 | on Linux also over every run that leaves the private temp directories in place |
| `FsTwinRuns.RenameDiffers` | crates/world-fsmodel/src/lib.rs:1353-1485 | for one rename: another model that differs only below mountpoints decides it differently only if a route is looked up below one |
| `FsLeak.HiddenNodesShow` | crates/world-fsmodel/src/lib.rs:1329-1351 | the condition on renames is needed: two Linux models that differ only below the host's `/tmp`, and a run whose last rename is EXDEV in one and succeeds in the other |
| `FsPaths.FullPathInverse` | crates/world-fsmodel/src/lib.rs:617-649 | with the mounts in place, looking up the virtual path of any linked node no mount hides, from any directory and without following, returns that node |
| `FsScaffold.RunScaffold` | crates/world-cli/examples/fuzz_driver/exec.rs:270-281 | runs that remove, replace or rename no mount node and no directory above one keep every mount in place |
| `FsReports.RunLeadsBack` | crates/world-fsmodel/src/lib.rs:1563-1583 | over every such run `getcwd` and `realpath` never loop, and a success leads back to the same node |
| `FsEnds.RenameEnds` | crates/world-fsmodel/src/lib.rs:1353-1485 | when every reported path has an end, a rename keeps it so if and only if it moves a mount target or the new directory is not reported below what it moves |
| `FsEnds.RunEnds` | crates/world-fsmodel/src/lib.rs:617-649 | over every run of such renames, whatever else it does, no call ever hangs |
| `FsCycle.UnguardedCycle` | crates/world-fsmodel/src/lib.rs:1353-1485 | in every macOS tree whose temp root lies outside `/private`: chdir `/private`, rename it to `/tmp/name`, getcwd; every check passes and the last call never returns |
| `FsCycle.FreshCircles` | crates/world-fsmodel/src/lib.rs:335-391 | every new macOS model is such a tree, for every name |
| `MacRuns.RunMac` | crates/world-cli/examples/fuzz_driver/exec.rs:270-281 | the macOS tree, its host temp directories included, stays one for the same root over guarded runs, so the mapper's theorems hold in every state they reach |
| `LinuxMounts.RunMounts` | crates/world-fsmodel/src/lib.rs:1329-1351 | on Linux no such run changes the mount number of any node |
| `FsRename.RenameRelocates` | crates/world-fsmodel/src/lib.rs:1446-1485 | a rename replaces the old path prefix by the new one for every node below the source, leaves every other listed node's path, and unlists exactly the replaced node, which has no entries |
| `FsRename.RenameRelocatesVirtual` | crates/world-fsmodel/src/lib.rs:1446-1485 | the same of the names `getcwd` and `realpath` report, with the mounts in place |
| `FsCalls.NewNameSeen` | crates/world-fsmodel/src/lib.rs:1100-1188 | a node created where the create lookup found room, through any chain of dangling links, is what following the same path then finds, except with ENOTDIR exactly when it is no directory and some text on the way ends in a slash |
| `FsCalls.MkdirSeen` | crates/world-fsmodel/src/lib.rs:872-911 | after a successful `mkdir` the same path is an empty directory, also when a macOS trailing slash led it through a dangling link |
| `FsCalls.OpenSeen` | crates/world-fsmodel/src/lib.rs:913-1078 | after an `open` that created a file, `stat` of the path sees a file, or ENOTDIR exactly when a link on the way ends in a slash |
| `FsCalls.BindConnects` | crates/world-fsmodel/src/lib.rs:1601-1720 | after a successful `bind`, `connect` to the same path succeeds, or fails with ENOTDIR in exactly that case |
| `FsCalls.SymlinkReadsBack` | crates/world-fsmodel/src/lib.rs:1271-1327 | after a successful `symlink`, `readlink` of the same path returns the target |
| `FsCalls.MkstempSeen` | crates/world-fsmodel/src/lib.rs:1722-1753 | after a successful `mkstemp` the name is a file, open for writing under the descriptor returned |
| `FsTakes.UnlinkedGone` | crates/world-fsmodel/src/lib.rs:1487-1548 | after a successful `unlink` or `rmdir` that acts on the name itself, `lstat` of the path fails with ENOENT |
| `FsTakes.RenameSeen` | crates/world-fsmodel/src/lib.rs:1353-1485 | a rename moves the node its first path named; afterwards its second path names it and its first names nothing, provided, as can be checked before, that their directories are not reached through what it moves |
| `FsRenames.RenameNothing` | crates/world-fsmodel/src/lib.rs:1446-1449 | a rename that succeeds and changes nothing is about the same node at both ends |
| `FsRenames.RenameWorks` | crates/world-fsmodel/src/lib.rs:1353-1485 | for paths taken literally a rename succeeds exactly when source and destination lie on one mount, the destination directory is live and not below the source, and its name is free or names the source or something the source may replace; then the second path names the source, the first nothing, and what was replaced is listed nowhere; else nothing changes |
| `FsLookups.LookupsCompose` | crates/world-fsmodel/src/lib.rs:518-582 | a path is looked up in its directory: where that is not found it fails with the same errno, where it is no directory with ENOTDIR, where the name is not there with ENOENT; else it is what stands there, or what a link there leads to |
| `FsOutcomes.MakesNames` | crates/world-fsmodel/src/lib.rs:872-1078 | `mkdir`, `symlink`, exclusive `open` and `bind` make exactly the names that `lstat` does not see, in directories that were not removed |
| `FsOutcomes.MkstempMakes` | crates/world-fsmodel/src/lib.rs:1722-1753 | and so does `mkstemp` in the working directory |
| `FsOutcomes.Removes` | crates/world-fsmodel/src/lib.rs:1487-1548 | `unlink` and `rmdir` of a literal path, by what it names: each takes its kind only, an empty directory only, and no file behind a slash |
| `FsOutcomes.FollowersFail` | crates/world-fsmodel/src/lib.rs:1550-1599 | where `stat` fails, so do `chdir`, `opendir`, `list`, `open` and `realpath`, with its errno |
| `FsOutcomes.Directories` | crates/world-fsmodel/src/lib.rs:1190-1562 | where `stat` sees a directory, and only there, it is entered, opened and listed |
| `FsOutcomes.Connects` | crates/world-fsmodel/src/lib.rs:1682-1720 | `connect` succeeds exactly where `stat` sees a socket |
| `FsOutcomes.OneMoreLine` | crates/world-fsmodel/src/lib.rs:1755-1773 | a listing tells its names apart by line feeds |
| `FsOutcomes.OpenCreates` | crates/world-fsmodel/src/lib.rs:996-1077 | O_CREAT of a path that is found, that is missing for another reason than its last name, and that is not there |
| `FsRoom.CreatesInRoom` | crates/world-fsmodel/src/lib.rs:1084-1188 | O_CREAT makes the file in the directory, and under the name, that the path leads to through however many dangling links, each target looked up from the directory of its link |
| `FsOutcomes.SlashOnLinux` | crates/world-fsmodel/src/lib.rs:849-870 | what a slash behind a name does to the calls that make one, on Linux |
| `FsOutcomes.SlashTakenOnMac` | crates/world-fsmodel/src/lib.rs:796-870 | and on macOS, where it means what the name leads to |
| `FsOutcomes.RemovedGone` | crates/world-fsmodel/src/lib.rs:1886-1909 | a working directory that was removed has no path and takes no new name |
| `FsOutcomes.LongPaths` | crates/world-fsmodel/src/lib.rs:1978-1991 | paths of 1024 bytes on macOS and 4096 on Linux are too long for every call |
| `FsOutcomes.FoldsCase` | crates/world-fsmodel/src/lib.rs:1865-1871 | on a folding tree two names are one exactly when they agree up to ASCII case |
| `FsDescriptors.ReadsInARow` | crates/world-fsmodel/src/lib.rs:1237-1261 | two reads in a row return the pieces that one read of both lengths returns, and leave the same state |
| `FsDescriptors.WritesInARow` | crates/world-fsmodel/src/lib.rs:1203-1235 | two writes in a row leave what one write of both texts does |
| `FsDescriptors.OpenedFile` | crates/world-fsmodel/src/lib.rs:996-1039 | an opened path reads as the file that `stat` sees, from its start, or as nothing when truncated, and takes writes only when opened for them |
| `FsDescriptors.CreatedFile` | crates/world-fsmodel/src/lib.rs:950-1077 | a file that an `open` made reads as nothing and takes writes only when opened for them |
| `FsDescriptors.RunNumbers` | crates/world-fsmodel/src/lib.rs:1840-1845 | over every run a number that was given out once never stands for another node |
| `FsAt.AtIsChdir` | crates/world-fsmodel/src/lib.rs:743-771 | `mkdirat`, `openat` and `unlinkat` decide exactly as the plain calls do with the descriptor's directory as working directory |
| `FsAt.ChdirThenGetcwd` | crates/world-fsmodel/src/lib.rs:1550-1583 | after a successful `chdir`, `getcwd` returns what `realpath` returned for the path, or ENOENT exactly when the directory was removed |
| `FsEffects.ParentFronts` | crates/world-fsmodel/src/lib.rs:1793-1804 | the directory of a path is what its components in front of the last name lead to |
| `FsCalls.WrittenIsRead` | crates/world-fsmodel/src/lib.rs:1203-1261 | what one descriptor wrote, another one at the same position reads |
| `FsCalls.RunSteady` | crates/world-fsmodel/src/lib.rs:743-771 | what these statements assume holds in every state that any run reaches |
| `FsEffects.SplitLastComps` | crates/world-fsmodel/src/lib.rs:297-317 | splitting off the last name of a path keeps its component list, its start and its trailing slash |
| `FsEffects.ResolveExtends` | crates/world-fsmodel/src/lib.rs:518-582 | added entries change no lookup that succeeded |
| `FsEffects.ResolveLacks` | crates/world-fsmodel/src/lib.rs:518-582 | after an entry is removed a lookup finds what it found before or nothing |
| `FsModel.SortedListsAll` | crates/world-fsmodel/src/lib.rs:1755-1773 | a listing holds every name of the directory exactly once, in ascending byte order |
| `FsFresh.FreshMac` | crates/world-fsmodel/src/lib.rs:335-391 | a new macOS model, folding case or not, satisfies all that the theorems assume, for every root whose first name is new at the top |
| `FsFreshLinux.FreshLinux` | crates/world-fsmodel/src/lib.rs:335-391 | so does a new Linux model: mounts in place, nothing hidden referred to, private temp directories where the root says |
| `OpText.Escape` | crates/world-fsmodel/src/lib.rs:2016-2027 | the loop escapes byte by byte as specified |
| `OpText.Unescape` | crates/world-fsmodel/src/lib.rs:2043-2059 | the loop unescapes strictly as specified |
| `OpText.EscapeRoundTrip` | crates/world-fsmodel/src/lib.rs:2010-2059 | unescaping undoes escaping for every byte string |
| `OpLines.LineRoundTrip` | crates/world-fsmodel/src/lib.rs:2143-2271 | for each of the 23 operations: parsing its line gives it back exactly when no path operand holds a NUL, and nothing otherwise; the line has no newline |
| `OpForms.LineForm` | crates/world-fsmodel/src/lib.rs:2143-2271 | the written form of each operation, word by word and operand by operand: printing gives it, and parsing takes it |
| `OpForms.ByteForm` | crates/world-fsmodel/src/lib.rs:2010-2027 | which bytes stand for themselves, and how the others are written |
| `OpForms.BadPercent` | crates/world-fsmodel/src/lib.rs:2043-2059 | a percent sign without two hex digits behind it is turned away, wherever it stands |
| `OpForms.NumberForm` | crates/world-fsmodel/src/lib.rs:2145-2180 | a number is written in its radix without leading zeros |
| `OpForms.WideRejected` | crates/world-fsmodel/src/lib.rs:2202-2205 | a descriptor of more than 32 bits or a length of more than 64 is turned away |
| `OpForms.TrailingRejected` | crates/world-fsmodel/src/lib.rs:2179-2186 | a line with anything behind its last operand is turned away |
| `ImportMachine.WriteSnapshot` | crates/world-runtime/src/import_stream.rs:205-225 | the encoder's output file holds the specified stream, or it fails where the specification does |
| `ImportMachine.Encoder.Walk` | crates/world-runtime/src/import_stream.rs:98-203 | the recursive walk appends the specified records and bumps the shared count, within its four limits |
| `ImportMachine.Encoder.EmitContent` | crates/world-runtime/src/import_stream.rs:177-190 | the chunk loop writes the content in records of at most 48 KiB |
| `ImportTrees.TakenIff` | crates/world-runtime/src/import_stream.rs:98-203 | the encoder takes exactly the trees of at most one million entries, without special files, paths and targets of at most 4096 bytes, directories at most 128 deep |
| `ImportTrees.RoundTrip` | crates/world-runtime/src/import_stream.rs:98-225 | for each of these trees, decoding publishes at each path what the tree has there, modes masked, and nothing else, exactly when no link has an empty target; otherwise the stream is rejected |
| `ImportPublished.Published` | crates/world-runtime/src/import_stream.rs:98-225 | exactly the trees within the limits, spelled out, and without empty link targets are published; each entry keeps the nine permission bits of its mode, all of a mode below 0x200, its bytes or its target |
| `ImportPublished.ModesTaken` | crates/world-runtime/guest/supervisor.py:107-110 | the decoder takes exactly the modes 0 to 511 |
| `ImportPublished.NoSpecialBits` | crates/world-runtime/guest/supervisor.py:107-128 | no accepted stream, whoever wrote it, publishes a set-user-ID, set-group-ID or sticky bit |
| `ImportMeaning.AcceptedMeans` | crates/world-runtime/guest/supervisor.py:62-128 | in any accepted stream every entry record publishes just what it says: a directory of its mode, a link to its target, a file of its mode with the bytes of the data records behind it, as many as announced |
| `ImportMeaning.AcceptedFrame` | crates/world-runtime/guest/supervisor.py:56-82 | an accepted stream begins with the protocol record and ends with the count of its entries, and has neither in between |
| `ImportLimits.LinesFit` | crates/world-runtime/guest/supervisor.py:50-54 | every line of the stream of such a tree is within 70,000 bytes, counting base64 growth and JSON escaping |
| `ImportLimits.LinesRoundTrip` | crates/world-runtime/guest/supervisor.py:49-55 | so the round trip also holds of whole lines |
| `ImportSafety.AcceptedIsClosed` | crates/world-runtime/guest/supervisor.py:83-100 | in any accepted stream every entry sits in a directory that the same stream made, under safe names, and each entry record made an entry of its own |
| `ImportSafety.Ancestors` | crates/world-runtime/guest/supervisor.py:92-97 | every proper front part of an accepted path is a directory, never a link |
| `ImportSafety.PrefixRejected` | crates/world-runtime/guest/supervisor.py:124-125 | every strict prefix of an accepted stream is rejected |
| `ImportSafety.CutRejected` | crates/world-runtime/guest/supervisor.py:49-55 | also when the cut is within a line |
| `ImportMachine.Importer.SetModes` | crates/world-runtime/guest/supervisor.py:126-128 | directory modes are set last to first |
| `ImportMachine.Importer.ImportWorkspace` | crates/world-runtime/guest/supervisor.py:32-146 | all or nothing: only a complete accepted stream changes an empty workspace, and then to exactly what the stream describes |
| `Ddmin.Minimize` | crates/world-cli/examples/fuzz_driver/ddmin.rs:185-238 | for any deterministic oracle it ends with a subsequence of the input that still shows the same divergence and of which no single line can be dropped |
| `Ddmin.Coarse` | crates/world-cli/examples/fuzz_driver/ddmin.rs:199-226 | the chunk loop ends, on length and divisor, with a result that is already 1-minimal |
| `Ddmin.Fine` | crates/world-cli/examples/fuzz_driver/ddmin.rs:228-238 | the single-line pass keeps the divergence and changes nothing that is 1-minimal |
| `TempRoots.PrefixFree` | crates/world-runtime/src/silo.rs:644-651 | owner texts are prefix-free, so a half-written marker never reads as another owner's |
| `TempRoots.RootRuns` | crates/world-runtime/src/silo.rs:653-770 | over any interleaving with piecewise marker writes, crashes and deletions: owners that got the same root are one owner, an address whose root nobody deletes is granted to one owner only, and addresses in one registry are pairwise distinct |
| `TempRoots.OneOwner` | crates/world-runtime/src/silo.rs:653-770 | from any state in which no root was deleted under a claimant, an address is granted to one owner only until its root is deleted |
| `TempRoots.TwoOwners` | crates/world-runtime/src/silo.rs:672-688 | that proviso is needed: a root deleted while its marker is being written, and one address granted to two owners with no deletion between the grants |
| `TempRoots.StepKeeps` | crates/world-runtime/src/silo.rs:653-770 | each step of a claim keeps the ownership invariant |
| `TempRootsOutcomes.SavesGrant` | crates/world-runtime/src/silo.rs:716-770 | over every interleaving, the end of a claim records an address that was granted to the owner in the run, next to what the registry said of others, and changes nothing else |
| `TempRootsOutcomes.LegacyStays` | crates/world-runtime/src/silo.rs:653-667 | a root from before there were markers is left alone over every interleaving until it is deleted |
| `TempRootsOutcomes.ClaimCompletes` | crates/world-runtime/src/silo.rs:653-770 | from every state that a run reaches, a claim of a free address can run to its end: root there, marker the owner's, address recorded |
| `TempRootsOutcomes.RevisitCompletes` | crates/world-runtime/src/silo.rs:690-708 | and so can the owner of an entry get its root back |
| `TempRoots.Home.ClaimRoot` | crates/world-runtime/src/silo.rs:658-688 | a claim succeeds exactly on a root that is free or marked as the owner's, leaves everybody else's alone, and fails exactly when the filesystem fails it, also while reading a marker |
| `TempRoots.Home.Allocate` | crates/world-runtime/src/silo.rs:727-746 | the search claims the lowest unused claimable address and touches nothing else, gives up exactly when there is none, and stops at the first failure of the filesystem |
| `HolderProtocol.HolderRuns` | crates/world-runtime/src/linux.rs:2299-2393 | over any interleaving of setups and teardowns with crashes anywhere, a holder past its commit wait is the one recorded for its workspace, so at most one holds per workspace |
| `HolderProtocol.OrphanNeverHolds` | crates/world-runtime/src/linux.rs:2381-2391 | a holder whose setup gave up or died before the commit byte never holds, and when it waits it can see that |
| `HolderProtocol.StepKeeps` | crates/world-runtime/src/silo.rs:1654-1755 | each step of setup, teardown and holder keeps that invariant |
| `HolderProtocol.SetupLeaves` | crates/world-runtime/src/silo.rs:1654-1714 | a setup that keeps the recorded holder leaves one that comes to hold exactly when the commit byte had been sent; otherwise it never does |
| `HolderProtocol.SetupOnLostHolder` | crates/world-runtime/src/silo.rs:1654-1714 | the second case happens: a run in which such a setup succeeds and the recorded holder is gone |
| `HolderOutcomes.CommitServes` | crates/world-runtime/src/linux.rs:2616-2621 | after a setup that ended with its commit, over every interleaving before, its holder is the recorded one and holds or its next step is to hold; and so it stays over every further run until the holder is stopped or dies |
| `HolderOutcomes.TeardownLeaves` | crates/world-runtime/src/silo.rs:1739-1755 | a teardown that succeeds leaves no record of the workspace and nobody who holds for it or will |
| `HolderOutcomes.GiveUpFrees` | crates/world-runtime/src/silo.rs:1654-1755 | a process may stop at any point: the lock is free of it and the holder it was starting never holds |
| `HolderOutcomes.SetupCompletes` | crates/world-runtime/src/silo.rs:1654-1714 | from every state that a run reaches with the lock free, a setup can run to a holder that is recorded and holds |
| `HolderOutcomes.TeardownCompletes` | crates/world-runtime/src/silo.rs:1739-1755 | and a teardown to no record and no holder |
| `HolderOutcomes.FirstSetupHolds` | crates/world-runtime/src/silo.rs:1654-1714 | a run of a new system whose last state has the holder holding |
| `VmSafety.VmRuns` | crates/world-runtime/src/apple_vm.rs:365-481 | over every interleaving with crashes and lost instances: at most one VM runs, first provisioning happens once per owner and further instances only on request, starts never share a generation, executions run only on registered ready owners |
| `VmSafety.DeletedForGood` | crates/world-runtime/src/apple_vm.rs:522-567 | Deleting is never left, and a removed owner is never registered again |
| `VmSafety.StepKeeps` | crates/world-runtime/src/apple_vm.rs:185-567 | each step of create, setup, teardown, delete and exec keeps the invariant |
| `VmOutcomes.OperationsEnd` | crates/world-runtime/src/apple_vm.rs:365-567 | over every interleaving: a setup that succeeds leaves the VM running and recorded as ready, a teardown leaves it down, a deletion leaves neither instance nor name, a creation leaves the name |
| `VmOutcomes.StepDown` | crates/world-runtime/src/apple_vm.rs:483-519 | each step keeps that a journal which says stopped, or a teardown that is about to, means no running instance, and that removed owners have none |
| `VmOutcomes.StaysDown` | crates/world-runtime/src/apple_vm.rs:483-567 | a VM that is down stays down until its next start, and one that was deleted for ever |
| `VmOutcomes.GoesWithConsent` | crates/world-runtime/src/apple_vm.rs:522-551 | over every interleaving an instance that is not lost outside goes only by a deletion that was given consent, and not while it runs |
| `VmCompletes.SetupCompletes` | crates/world-runtime/src/apple_vm.rs:365-481 | a setup that finds what it needs runs to its end: the VM runs, under the next generation unless it ran already, and nothing of other owners has changed |
| `VmCompletes.TeardownCompletes` | crates/world-runtime/src/apple_vm.rs:483-519 | so does a teardown, also of a VM that is down |
| `VmCompletes.DeleteCompletes` | crates/world-runtime/src/apple_vm.rs:522-567 | so does a deletion with the consent it asks for |
| `VmCompletes.CreateCompletes` | crates/world-runtime/src/apple_vm.rs:185-239 | so does a creation under a free name |
| `VmCompletes.GiveUpFrees` | crates/world-runtime/src/apple_vm.rs:185-567 | a process may stop at any point, and then nothing is locked by it |

## Left out

- `resolve_traced`, `tree`, `tree_json`, fixtures and `mkdir_p`: tracing, presentation and test set-up; `FsFresh` builds the initial tree instead.
- Switching case-insensitivity on after creation: it can break the entry invariant by design; the flag is fixed per model here.
- `next_fd` is unbounded and file positions do not overflow: 32-bit wrap-around of descriptors is not modelled.
- `copy_cwd`, `copy_link`, `requeried_unix`, `map_under`: short wrappers around `unmap_in_place`, `unmap_sockaddr` and `map`.
- FsFresh.FreshMac: covers roots whose first name is new at the top, as `home/.world/tmp/<ip>` is; `mkdir_p` along existing directories is not modelled.
- RefinementMain.MapRefinesVirtual: assumes tame walks of those mapped texts and questions that the mapper would change again, because the mapper copies what lies inside a temp root verbatim; a path into the private tree by its physical name and then `..` off its top diverges.
- FsModel.Model.PathText: requires that the reported parents of the node end, because the source's loop does not return otherwise.
- FsTwinRuns.TwinRuns: the condition on renames is sufficient, not necessary: a route below a mountpoint may come to the same in a given pair of models.
- FsTakes.UnlinkedGone: calls that act on the name itself; on macOS a trailing slash behind a link acts on the directory the link leads to, and the link stays.
- FsTakes.RenameSeen: the same, and nothing is said of a path whose directory is reached through what is moved, since it then leads elsewhere or nowhere; `FsRename` says where every node is.
- FsRenames.RenameWorks: paths taken literally; where a macOS trailing slash follows a link at either end, `FsRenames.RenameNothing` and `FsEdits` still hold, but when such a rename succeeds is not told without the model's own steps.
- Import: UTF-8 validation, the before/after checks against concurrent change of the source, `fsync` and ownership changes; JSON and base64 enter by their lengths only, paths and targets as byte texts.
- TempRoots: in the interleaved runs an operation may try any address no other entry uses, a superset of the search order of `allocate` and `fill_temp_root`; registry identities are taken as distinct.
- HolderProtocol: pinning, namespaces, pasta and its monitor; killing is one step, and verification tells live from gone.
- VmLifecycle: provider calls are one step each, owner ids are fresh, probing and installing the supervisor are not modelled.
- Real system calls, the proxy, port forwarding, Seatbelt profiles, process supervision, the command line, `Rng`, `errno_equiv` and the state-directory migration.
