# Verified model of the FreeBSD Flatpak core

This project models the parts of a FreeBSD port of Flatpak that carry real state,
protocols and fixpoints, and proves what they are for. The operating system is a
small abstract one (maps of descriptors, interfaces, routes, mounts and files), and
every external step may fail.

- `ScreenCastLinker`, `ScreenCastEligibility`, `ScreenCastBridge`: the event-driven manager that links
  PipeWire consumers to the screens a portal session approved. The first module is the
  state machine and its whole-run invariant, the second what becomes of the links'
  eligibility, the third the code's own loops and callbacks over mutable state, each
  proved to be a step of that machine.
- `ActivationRecord`, `ActivationJournal`, `ActivationFailures`: WireGuard and epair activation with its
  state file as a write-ahead journal. `Helper.history` holds the host after every
  change; a crash is any element of it, and a new `Helper` may start from any
  crash-safe host.
- `LaunchRequest`, `NestedLaunch`, `Descriptors`, `NestedDescriptors`: the nested
  launch: request text and packet, the two-process supervision protocol, and the
  descriptor assignment. `HostCommand` is the portal's variant of the latter.
- `Extensions`, `UnusedRuntimes`, `MergeDirectories`: resolution of the
  `[Extension NAME]` section of flatpak-metadata(5), collection of unused runtimes,
  and merged extension directories.
- `DocumentPaths`, `DocumentStore`: shared documents as a grid of mounts, grants by
  sandboxes, and the translation of sandbox paths back to the host.
- `SecureMount`: mounting over a regular file while its parent is locked.
- `OwnershipRoots`, `CursorThemes`: two closures (over `Reachability`);
  `ListTable`: the column allocator of the listings.
- `Collections`, `Text`, `Orders`, `Reachability`: shared vocabulary.

Objects that the source updates in place are classes with `modifies` clauses, and its
loops are loops; pure code is functions. `dafny verify dfyconfig.toml` checks
everything.

Some properties one might expect turned out not to hold of the code. Each is stated
with the exact condition under which it does, and with an input for which it does not.

- A live link need not stay eligible. `EligibilityExact` says for every callback exactly
  when it does; `RevocationKeepsLink` and `ArrivalKeepsLink` are runs from the empty
  registry in which a link outlives its eligibility.
- An activation killed at an arbitrary point is not always recoverable.
  `CrashAndRecover` shows that nothing of it is left exactly when it had no record, or
  the record's file is within the reader's limit, its owner is one the reader accepts
  (in particular not process 1, the parent of a helper whose service has exited), and a
  tunnel's record names more than the bare clone. `AbandonedForGood` and
  `OutgrownForGood` are runs from an empty host that recovery never makes good.
- Recovery takes a live owner's route exactly when a dead owner's record lists it too
  (`RecoverStale`); `LivingLosesRoute` is a run in which that happens.
- Removing a sandbox directory keeps the grid exactly when no other directory mounts
  below it and its own mounts do (`RemovalExactWhenAlone`, `AloneExactly`); a failed
  registration rolls back exactly under the same kind of condition (`AddSandbox`).
- A nested launch in which nothing fails is reported to the client exactly when the
  descriptor mapping leaves the lifecycle number its socket (`ReadinessDecided`);
  `LaunchIsLost` is the run in which the payload starts, is killed and is never reported.

## Model

| member | source | states |
|---|---|---|
| `ScreenCastLinker.EveryRunIsSound` | compatibility_helpers/portal_bridge/pipewire_screencast_linker.c:605-887 | in every run of registry, permission, Start-response and session-close events, every live link's session is open, its client, nodes and ports are registered, and its source node is approved with a matching generation; no two live links share a (session, output, input) key |
| `ScreenCastLinker.NextKeepsInv` | compatibility_helpers/portal_bridge/pipewire_screencast_linker.c:730-887 | each single callback, followed by its linking pass where it has one, keeps that invariant |
| `ScreenCastLinker.LinkedKeepsInv` | compatibility_helpers/portal_bridge/pipewire_screencast_linker.c:605-699 | a linking pass keeps the invariant whatever the server accepts |
| `ScreenCastLinker.SecondPassAddsNothing` | compatibility_helpers/portal_bridge/pipewire_screencast_linker.c:656-699 | after a pass in which every creation succeeded, a second pass adds nothing |
| `ScreenCastLinker.SelectedIsApproved` | compatibility_helpers/portal_bridge/pipewire_screencast_linker.c:529-561 | the node chosen for a consumer is one the session approved |
| `ScreenCastLinker.SurvivorIsSound` | compatibility_helpers/portal_bridge/pipewire_screencast_linker.c:701-728 | a link that outlives a removal still has everything it rests on |
| `ScreenCastLinker.ApplyKeepsRegistry` | compatibility_helpers/portal_bridge/pipewire_screencast_linker.c:781-887 | ids stay unique among clients, nodes, ports and sources through every event |
| `ScreenCastEligibility.EligibilityExact` | compatibility_helpers/portal_bridge/pipewire_screencast_linker.c:605-887 | over every callback: a link the pass adds is eligible, and a surviving eligible link stays so if and only if the callback's guard holds: a new node stands for no source that the session lists earlier and the consumer's target names; the client's new permissions still match; another session's new sources hold nothing foreign the client may read; a removal revokes no approval that another session keeps |
| `ScreenCastEligibility.RevocationKeepsLink` | compatibility_helpers/portal_bridge/pipewire_screencast_linker.c:730-755 | a run from the empty registry at whose end a client has lost its permissions and kept its link |
| `ScreenCastEligibility.ArrivalKeepsLink` | compatibility_helpers/portal_bridge/pipewire_screencast_linker.c:534-561 | a run from the empty registry at whose end a newly arrived node is the one selection prefers, and the older link lives on |
| `ScreenCastEligibility.RemovalKeepsPick` | compatibility_helpers/portal_bridge/pipewire_screencast_linker.c:845-887 | removing another node never takes a consumer's selected source away |
| `ScreenCastBridge.ClientMatchesSession` | compatibility_helpers/portal_bridge/pipewire_screencast_linker.c:491-527 | the loop over sessions and sources decides exactly the declarative rule: default permission 0, every own source readable, no other session's unapproved source readable |
| `ScreenCastBridge.SourceNodeForConsumer` | compatibility_helpers/portal_bridge/pipewire_screencast_linker.c:534-561 | the search returns a node if and only if the selection rule names it, and that node is unique |
| `ScreenCastBridge.MayRead` | compatibility_helpers/portal_bridge/pipewire_screencast_linker.c:470-482 | the first permission entry for an object decides, as the declarative rule says |
| `ScreenCastBridge.OverwritePermissions` | compatibility_helpers/portal_bridge/pipewire_screencast_linker.c:730-755 | a permission update overwrites from the reported index on, keeps what lies before it, and extends as needed |
| `ScreenCastBridge.Bridge.TryLinks` | compatibility_helpers/portal_bridge/pipewire_screencast_linker.c:656-699 | the five-deep loop leaves a link for exactly the eligible tuples the server accepts, only appends, and never repeats a key |
| `ScreenCastBridge.Bridge.CreateLink` | compatibility_helpers/portal_bridge/pipewire_screencast_linker.c:605-654 | exactly one link is appended, when the server accepts it and the key was free; otherwise nothing changes |
| `ScreenCastBridge.Bridge.OnNodeAdded` | compatibility_helpers/portal_bridge/pipewire_screencast_linker.c:781-843 | the callback is the AddNode step of the state machine and keeps the invariant |
| `ScreenCastBridge.Bridge.OnPortAdded` | compatibility_helpers/portal_bridge/pipewire_screencast_linker.c:781-843 | the callback is the AddPort step and keeps the invariant |
| `ScreenCastBridge.Bridge.OnClientAdded` | compatibility_helpers/portal_bridge/pipewire_screencast_linker.c:781-843 | the callback is the AddClient step, or nothing when the client cannot be bound |
| `ScreenCastBridge.Bridge.OnPermissions` | compatibility_helpers/portal_bridge/pipewire_screencast_linker.c:730-755 | the callback is the SetPermissions step and keeps the invariant |
| `ScreenCastBridge.Bridge.OnGlobalRemoved` | compatibility_helpers/portal_bridge/pipewire_screencast_linker.c:845-887 | the removal loops together are the RemoveGlobal step: exactly the dependent links, nodes, ports, clients and approvals go |
| `ScreenCastBridge.Bridge.OnLinkDestroyed` | compatibility_helpers/portal_bridge/pipewire_screencast_linker.c:576-580 | the callback is the ProxyDestroyed step and keeps the invariant |
| `ScreenCastBridge.Bridge.OnLinkRemoved` | compatibility_helpers/portal_bridge/pipewire_screencast_linker.c:582-587 | the callback is the LinkRemoved step and keeps the invariant |
| `ScreenCastBridge.Bridge.RemoveLinksForObject` | compatibility_helpers/portal_bridge/pipewire_screencast_linker.c:715-728 | the backward deletion keeps, in order, exactly the links that do not touch the object |
| `ScreenCastBridge.Bridge.RemoveLinksForSession` | compatibility_helpers/portal_bridge/pipewire_screencast_linker.c:701-713 | the backward deletion keeps, in order, exactly the links of other sessions |
| `ScreenCastBridge.RemoveSourceForNode` | compatibility_helpers/portal_bridge/pipewire_screencast_linker.c:311-323 | exactly the sources of the node's generation are withdrawn |
| `ScreenCastBridge.Bridge.RegisterSession` | compatibility_helpers/portal_bridge/screencast_portal.c:144-175 | a session is created exactly when its path is new and the bus takes its object; otherwise nothing changes |
| `ScreenCastBridge.Bridge.UpdateSources` | compatibility_helpers/portal_bridge/screencast_portal.c:220-253 | the callback is the SetSources step and keeps the invariant |
| `ScreenCastBridge.Bridge.CloseHostSession` | compatibility_helpers/portal_bridge/screencast_portal.c:49-60 | the callback is the RequestClose step and keeps the invariant |
| `ScreenCastBridge.Bridge.OnHostSessionClosed` | compatibility_helpers/portal_bridge/screencast_portal.c:62-87 | the callback is the HostClosed step and keeps the invariant |
| `ActivationRecord.LoadOfSave` | compatibility_helpers/network_manager_privileged.c:593-675 | loading a saved record gives it back if and only if the record is loadable, and refuses it otherwise |
| `ActivationRecord.LoadableIsClean` | compatibility_helpers/network_manager_privileged.c:641-675 | every record with valid names, owner and route addresses whose file is within the reader's limit is read back as it was |
| `ActivationRecord.SaveState` | compatibility_helpers/network_manager_privileged.c:593-619 | the writer produces exactly the lines of the record format |
| `ActivationRecord.LoadState` | compatibility_helpers/network_manager_privileged.c:641-675 | the line-by-line reader computes the specified parse |
| `ActivationRecord.RoutesRoundTrip` | compatibility_helpers/network_manager_privileged.c:655-672 | route lines are read back as the routes they were written from |
| `ActivationJournal.Helper.Activate` | compatibility_helpers/network_manager_privileged.c:751-776 | every host state an activation leaves behind, at whatever command it is killed, is crash safe, and its record is loadable exactly from the first rename save on while its file is small and its owner one that the reader accepts; in each of these states others' interfaces, records and routes are untouched, except that a failed activation's cleanup deletes the routes its record names; a success means the interface exists, every recorded route is installed through the gateway looked up, every endpoint of a full tunnel is pinned and its resolver entry is there; it succeeds when no command fails and the settings can be met |
| `ActivationJournal.CrashAndRecover` | compatibility_helpers/network_manager_privileged.c:751-869 | killed after any change, with the owner dead, a next run that recovers without failure leaves nothing of the activation if and only if it had no record, or the record's file is within the limit, its owner is acceptable to the reader and a tunnel's record names more than the bare clone |
| `ActivationJournal.RecoveryDecides` | compatibility_helpers/network_manager_privileged.c:839-869 | what a completed recovery leaves of a dead owner's activation depends on nothing but whether its record can be loaded |
| `ActivationFailures.AbandonedForGood` | compatibility_helpers/network_manager_privileged.c:751-757 | a run from an empty host: killed right after creation, a tunnel, or any activation whose owner is process 1, keeps its interface and record through a recovery without failures |
| `ActivationFailures.OutgrownForGood` | compatibility_helpers/network_manager_privileged.c:499-527 | a run from an empty host: a tunnel with more distinct endpoints than a state file has room for is activated without failure, and recovery leaves all of it |
| `ActivationFailures.LivingLosesRoute` | compatibility_helpers/network_manager_privileged.c:706-720 | a run from an empty host: one activation dies between saving and adding its route, a second sets up the same route and lives, and recovering the first takes the route from the second |
| `ActivationJournal.Helper.CreateWireguardInterface` | compatibility_helpers/network_manager_privileged.c:230-256 | each rename is journalled before it happens, so that both names are always covered |
| `ActivationJournal.Helper.InstallRoute` | compatibility_helpers/network_manager_privileged.c:499-517 | the route is in the saved record before it is in the routing table, and leaves memory again if the save fails |
| `ActivationJournal.Helper.CleanupActivation` | compatibility_helpers/network_manager_privileged.c:726-750 | resources go first; the record is deleted only when all of them are gone |
| `ActivationJournal.Helper.CleanupLoaded` | compatibility_helpers/network_manager_privileged.c:777-801 | the cleanup of a loaded record leaves others' interfaces, records and unnamed routes alone, touches at most its own resolver entry, and on success leaves nothing it owns or names |
| `ActivationJournal.Helper.RecoverStale` | compatibility_helpers/network_manager_privileged.c:839-862 | whatever fails, only what dead owners own and what their loadable records name is lost; when nothing fails exactly that is gone, so a live owner's route stays if and only if no such record lists it |
| `ActivationJournal.Helper.ReadsStale` | compatibility_helpers/network_manager_privileged.c:852-856 | what recovery reads from a state file's text makes it treat the owner as dead exactly when the record that was written is loadable, of this user, and its owner gone |
| `ActivationJournal.Helper.Recover` | compatibility_helpers/network_manager_privileged.c:839-869 | the same for the whole recovery, with resolver entries: when nothing fails an entry stays if and only if no recovered record names its tunnel and it is not one of a managed interface that is gone |
| `ActivationJournal.Helper.RecoverOrphanedDns` | compatibility_helpers/network_manager_privileged.c:814-838 | exactly the entries of managed interfaces that no longer exist are dropped, and whatever fails no other |
| `ActivationJournal.LiveEntryStays` | compatibility_helpers/network_manager_privileged.c:777-838 | the resolver entry of an interface that belongs to no dead owner stays, whatever fails |
| `ActivationJournal.BareRecordIsNeverStale` | compatibility_helpers/network_manager_privileged.c:652-654 | the first record, which names a bare clone, is never accepted by recovery: the window before the first rename save is not recoverable |
| `LaunchRequest.ParsedIsAccepted` | src/secure_launch.rs:163-216 | whatever the parser accepts is within all of its bounds |
| `LaunchRequest.AcceptedRoundTrip` | src/secure_launch.rs:992-1027 | printing an accepted request and parsing it gives the request back |
| `LaunchRequest.PayloadRoundTrip` | src/secure_launch.rs:1353-1379 | decoding a payload gives back the arguments it was built from |
| `LaunchRequest.RequestReachesDaemon` | src/secure_launch.rs:1292-1379 | a request the client accepted is decoded and parsed to the same request whenever its packet fits, and the daemon's argument bound never refuses it |
| `LaunchRequest.ParseArguments` | src/secure_launch.rs:163-216 | the iterator-driven parser computes the specified parse |
| `LaunchRequest.BuildPayload` | src/secure_launch.rs:1474-1490 | the buffer-filling loop computes the specified payload |
| `LaunchRequest.DecodePayload` | src/secure_launch.rs:1353-1379 | the offset-advancing decoder computes the specified decoding |
| `LaunchRequest.BigEndianRoundTrip` | src/secure_launch.rs:1284-1291 | a 32-bit length is read back as it was written |
| `NestedLaunch.EveryInterleavingIsSafe` | src/secure_launch.rs:256-353 | for every mapping and in every interleaving, with either side failing anywhere, the payload runs only after the owner was received, persistence cleared and ids dropped; "started" is told only after readiness and only if the byte can reach the supervisor; an error before waiting has killed and reaped the child; when the supervisor has returned, jail and child are gone |
| `NestedLaunch.NothingOutlivesSupervisor` | src/secure_launch.rs:1062-1133 | the supervisor may itself die at any point: no payload runs or is started from then on, and after five more steps of the child both it and the jail are gone |
| `NestedLaunch.LaunchSucceeds` | src/secure_launch.rs:1062-1133 | a run without failures that is told, ends and is reported, for every mapping that leaves the byte its way |
| `NestedLaunch.ToldWhenDelivered` | src/secure_launch.rs:1062-1133 | every finished run without failures has told the client if and only if the mapping leaves the byte its way |
| `NestedLaunch.ReadinessDecided` | src/secure_launch.rs:318-344 | in terms of the descriptors: if and only if no target is the lifecycle number, or the one that is carries the same socket |
| `NestedLaunch.LaunchIsLost` | src/secure_launch.rs:1062-1133 | when another socket is mapped over the lifecycle number there is a run without failures in which the payload starts, is killed, and the client is never told |
| `NestedLaunch.OverwrittenIsClosed` | src/secure_launch.rs:1233-1260 | mapping over the only descriptor of the socket closes the child's end for good |
| `NestedLaunch.RunKeepsInv` | src/secure_launch.rs:1062-1133 | the protocol invariant holds after every sequence of steps |
| `NestedDescriptors.MapNested` | src/secure_launch.rs:1233-1260 | every target refers to the file its source had on entry, whatever the overlap; no other descriptor changes and no copy is left; it succeeds if and only if enough numbers above the targets are free and the targets are within the limit |
| `HostCommand.PrepareMappings` | compatibility_helpers/portal_bridge/host_command.c:86-160 | on success no source is a target and each source is a fresh copy of the requested file; on failure the parent's table is exactly what it was; a valid request succeeds whenever more than twice as many numbers are free as there are targets |
| `HostCommand.CopyOffTargets` | compatibility_helpers/portal_bridge/host_command.c:117-147 | the retry loop ends: each skipped copy occupies one more target number, and all of them are closed again |
| `HostCommand.ChildSetup` | compatibility_helpers/portal_bridge/host_command.c:162-190 | the dup2 sequence realises the simultaneous assignment, cycles included |
| `HostCommand.Forward` | compatibility_helpers/portal_bridge/host_command.c:268-318 | from the request to the child: every target holds the file that its handle named and everything else is as in the parent, which ends as it began; a valid request with room succeeds |
| `HostCommand.SourceReplaced` | compatibility_helpers/portal_bridge/host_command.c:117-147 | swapping one source keeps what all the sources hold |
| `Extensions.FormatOfParts` | src/extensions/extension_points.rs:287-294 | a parsed runtime ref is the ref formatted from its parts |
| `Extensions.PartsOfFormat` | src/extensions/extension_points.rs:287-294 | formatting parts without separators and parsing gives the parts back |
| `Extensions.PointForRef` | src/extensions/extension_points.rs:147-173 | the owner is the longest covering point, the last one among equals |
| `Extensions.OwnerIsUnique` | src/extensions/extension_points.rs:147-173 | a ref has at most one owning point |
| `Extensions.ResolveRefs` | src/extensions/extension_points.rs:112-145 | exactly the available refs that are the first available and owned branch, in the point's version order, of their owning point |
| `Extensions.AtMostOneRef` | src/extensions/extension_points.rs:112-145 | a point and a payload name yield at most one ref |
| `Extensions.ApplicableRefs` | src/extensions/extension_points.rs:199-220 | exactly the resolved refs that their owning point keeps |
| `Extensions.PruningIsStable` | src/extensions/extension_points.rs:199-220 | removing refs that are not applicable neither loses nor gains an applicable ref |
| `UnusedRuntimes.PlanUnused` | src/cli/uninstall.rs:277-364 | the plan holds exactly the present runtimes that no app, run record, explicit install or kept extension needs, and fails only on a malformed ref |
| `UnusedRuntimes.ApplyPlan` | src/cli/uninstall.rs:373-392 | removing item by item removes exactly the plan; an error stops it after whole planned runtimes and, beyond them, at most directories of the one it stopped at |
| `UnusedRuntimes.ExtensionsSurvive` | src/cli/uninstall.rs:277-392 | after a removal, complete or stopped, every app resolves exactly the extensions it kept through the directories that stay; so all of them if it reads no lost directory |
| `UnusedRuntimes.SeparateIsReadByNone` | src/cli/uninstall.rs:332-364 | where a runtime's directory is no app's directory and serves no app built on another runtime, a plan takes no directory that is read |
| `UnusedRuntimes.SourceSurvivesExactly` | src/cli/uninstall.rs:277-392 | one source of an app keeps exactly its extensions if and only if its directory stays or it kept none |
| `UnusedRuntimes.ReplanResumes` | src/cli/uninstall.rs:277-392 | planning again after any removal yields exactly the runtimes still there that nothing holds on to outside the lost directories; if no app reads those, exactly the unused ones not yet removed |
| `UnusedRuntimes.SecondPlanIsEmpty` | src/cli/uninstall.rs:277-392 | after a complete removal a second plan holds exactly the runtimes that only extensions needed through the removed directories held on to; if no app reads those directories it is empty |
| `DocumentPaths.HostPathInverts` | compatibility_helpers/portal_bridge/document_grant_store.c:304-345 | translating a grant's sandbox path plus any suffix gives the host path plus that suffix if and only if the suffix is empty or, for a directory, begins with a separator and names no parent directory; otherwise it is refused |
| `DocumentPaths.HostPathIsGranted` | compatibility_helpers/portal_bridge/document_grant_store.c:304-345 | every translated path is some grant's host path or lies below it |
| `DocumentPaths.ClimbsIsDotDot` | compatibility_helpers/portal_bridge/document_grant_store.c:333-340 | the three substring tests find exactly the parent-directory components, except in the path consisting of one alone |
| `DocumentPaths.AllowedIsInside` | compatibility_helpers/portal_bridge/document_mounts.c:39-49 | an allowed sandbox directory is exactly an absolute path below the root without parent-directory components |
| `DocumentPaths.TargetStaysInside` | compatibility_helpers/portal_bridge/document_mounts.c:51-67 | between prefix-free directories, a grant's mount lies under its own directory only |
| `DocumentPaths.TargetsDiffer` | compatibility_helpers/portal_bridge/document_mounts.c:51-67 | two cells of the grid share a mount point only if they are the same cell |
| `DocumentStore.Store.AddSandbox` | compatibility_helpers/portal_bridge/sandbox_document_registration.c:26-48 | a sandbox joins with every grant mounted in order, always so when mounts work; after a failure the grid, its records and the mounts are as before if and only if no old mount lies under the new directory and the new mounts do |
| `DocumentStore.Store.RemoveSandbox` | compatibility_helpers/portal_bridge/sandbox_document_registration.c:50-62 | the directory leaves, and the grid survives if and only if no other directory mounts below it; when a detach fails the directory stays and what does not lie under it is recorded as before |
| `DocumentStore.Store.RemoveSandboxGrants` | compatibility_helpers/portal_bridge/document_mounts.c:69-92 | exactly the mounts under the directory go; what cannot be detached stays recorded; records and mounts agree throughout |
| `DocumentStore.Store.Detach` | compatibility_helpers/portal_bridge/document_mounts.c:5-20 | the backward walk detaches what it should, in whatever order failures come, and conserves mounts against records |
| `DocumentStore.Store.Prepare` | compatibility_helpers/portal_bridge/document_grant_store.c:95-176 | a new grant is mounted in every sandbox in order, or nothing of it is left |
| `DocumentStore.Store.Create` | compatibility_helpers/portal_bridge/document_grant_store.c:178-206 | a reusable grant only gains permissions; otherwise a new one is prepared |
| `DocumentStore.Store.Register` | compatibility_helpers/portal_bridge/document_grant_store.c:221-241 | the grant enters the store, or a failed save takes it and its mounts out again |
| `DocumentStore.Store.Share` | compatibility_helpers/portal_bridge/document_portal.c:135-151 | a whole sharing request keeps the grid exact; it adds the grant exactly on success, and widens a reused grant's permissions even if it then cannot be saved; a failed one leaves records and mounts as they were, and it fails only if something it uses failed |
| `DocumentStore.Store.Delete` | compatibility_helpers/portal_bridge/document_portal.c:165-186 | the grant leaves whether or not the save succeeds; mounts that could not be detached are forgotten, and the store agrees with the host and the grid stays exact if and only if there were none |
| `DocumentStore.Merge` | compatibility_helpers/portal_bridge/document_grant_store.c:73-93 | merged permissions are the union, in the old order first, without new duplicates |
| `DocumentStore.RemovalExactWhenAlone` | compatibility_helpers/portal_bridge/document_mounts.c:69-92 | detaching a directory leaves the other directories' row if and only if it alone has mounts below it |
| `DocumentPaths.UnderExactly` | compatibility_helpers/portal_bridge/document_mounts.c:51-92 | a grant's mount in one directory lies under another exactly when the first lies in the second, or the second is the grant's own directory in the first |
| `DocumentStore.AloneExactly` | compatibility_helpers/portal_bridge/document_mounts.c:69-92 | the condition read off the directories' names |
| `DocumentStore.PrefixFreeIsAlone` | compatibility_helpers/portal_bridge/document_mounts.c:69-92 | prefix-free directories without trailing separator always meet that condition |
| `DocumentStore.NestedIsNotAlone` | compatibility_helpers/portal_bridge/document_mounts.c:69-92 | nested directories fail the condition: removing the outer one detaches the inner one's mounts, and removing an inner one named after the grant detaches the outer one's |
| `DocumentStore.TrailingSeparatorIsNeverAlone` | compatibility_helpers/portal_bridge/document_mounts.c:69-92 | a directory registered with trailing separators never finds its own mounts |
| `DocumentStore.CellsAreDistinct` | compatibility_helpers/portal_bridge/document_mounts.c:51-67 | in a prefix-free grid with distinct ids no mount point is used twice |
| `SecureMount.Parent.MountRegularFile` | src/secure_mount.rs:682-763 | over all outcomes: the mount exists exactly when no error is reported, a clean result restores owner and full mode, and once the mount was attempted the parent is exactly restored or not writable; when nothing fails the result is clean |
| `SecureMount.Parent.Finish` | src/secure_mount.rs:727-763 | restore, rollback and second restore give the three outcomes their meaning |
| `SecureMount.Parent.Protect` | src/secure_mount.rs:805-826 | a protected parent is root-owned and unwritable or on a read-only filesystem |
| `SecureMount.Parent.Restore` | src/secure_mount.rs:846-853 | every attribute state on the way keeps the temporary mode until the owner is back |
| `SecureMount.OrderMatters` | src/secure_mount.rs:846-853 | owner first, then mode gives the original attributes even if the chown drops set-id bits; the other order does so only when none was set |
| `MergeDirectories.MergeAll` | src/extensions/activation.rs:236-312 | every name goes to the highest priority and then the smallest ref; the merge fails exactly when some entry cannot be read |
| `MergeDirectories.OrderDoesNotMatter` | src/extensions/activation.rs:236-312 | the same mounts in any order give the same list of directories |
| `MergeDirectories.AncestorsComeFirst` | src/extensions/activation.rs:306-310 | no directory is listed before one that contains it |
| `MergeDirectories.OneOfferPerRef` | src/extensions/activation.rs:260-296 | in a resolved plan offers of one ref for one name are the same offer, so that ties cannot occur |
| `OwnershipRoots.OwnershipRoots` | src/cli/kill.rs:71-99 | exactly the roots reachable through parent records, each once, also on cyclic records |
| `CursorThemes.ThemeMounts` | src/host_resources/cursor_themes.rs:365-402 | exactly the found, non-runtime themes reachable through valid inherited names, each once from where it was found; a warning for exactly the requested themes that are missing |
| `ListTable.FitWidths` | src/cli/list_table.rs:281-305 | total width is the smaller of original and available, columns and separators fit the terminal, every column keeps a cell while there is one for each, and the result is level |
| `ListTable.LevelIsUnique` | src/cli/list_table.rs:293-303 | the level rule and the total determine the widths |
| `ListTable.WriteTableLine` | src/cli/list_table.rs:323-344 | each value, cut to its column, stands at its column's offset |
| `ListTable.LineFits` | src/cli/list_table.rs:323-344 | a line over fitted widths is no longer than the terminal |
| `ListTable.Truncate` | src/cli/list_table.rs:346-358 | a cut value has exactly the width and ends in an ellipsis; a fitting one is unchanged |

## Left out

- Camera publication, V4L2 interposition, D-Bus plumbing and introspection: forwarding with little state.
- The LD_PRELOAD shims: thin wrappers over foreign calls.
- ScreenCast ids and serials are numbers; their textual parsing is not modelled. Registry ids are assumed fresh among live globals. Which links the server creates is a parameter of each pass.
- ActivationJournal.Helper.Activate: a failed command is assumed to change nothing, and randomly drawn names and tokens to be unused. A rename that took effect and still reported failure, or a colliding wgN name, is outside the model.
- Activation: legacy state files, the owner check of deactivate, temporary files, and the resolver's and peers' own configuration.
- Routes through the tunnel interface itself disappear with it and are not tracked.
- State files: embedded NUL bytes and the blanks and signs that strtoull tolerates; inet_pton is a parameter that accepts only texts of letters, digits, dots and colons.
- Nested launch: signals and timeouts of the wait loop appear only as the child dying or the wait failing; credential and path validation, and error texts. The removal of a jail with the last reference to its owning descriptor is taken as given.
- HostCommand.ChildSetup: signal dispositions, the new session and the controlling terminal. Targets are assumed distinct, as keys of a mapping are. What spawning itself does to the standard descriptors and the close-on-exec flags is not modelled.
- NestedDescriptors.MapNested: expects as many sources as targets and distinct targets, which src/secure_launch.rs:715-735 and src/secure_launch.rs:1070 check beforehand.
- Unused runtimes: retired deployments and repository refs.
- UnusedRuntimes.ApplyPlan: an error is modelled between directories, not inside one.
- Documents: grants are values held in one sequence with their mount lists in a second one of the same length, so that pointer identity becomes "already in the store or just made". Placeholders, URI encoding and the reload of persistent grants are not modelled, and the access mode of existing mounts after a permission gain is not claimed.
- DocumentStore.Store.RemoveSandbox: when an unmount fails the directory stays registered and the grid may be incomplete; the contract then states that records and mounts agree and that what lies elsewhere is recorded as before.
- DocumentPaths.HostPathInverts: excludes a grant of the host's root directory, whose basename is a separator.
- SecureMount: the file that open_or_create_regular_file may leave behind, path resolution and ownership checks. A failed unmount is taken to leave the mount in place.
- MergeDirectories.MergeAll: expects a resolved plan, in which each merge target mirrors its source under the scope's root and a ref is mounted once per scope, as src/extensions/activation.rs:374-470 builds it. Mount targets and the sort of the mount plan itself are not modelled.
- CursorThemes: reading theme index files; what a directory inherits from is a parameter.
- ListTable.WriteTableLine: bold styling and characters that are not one cell wide.
- Command-line parsing, prompts, diagnostics and the repository backend.
