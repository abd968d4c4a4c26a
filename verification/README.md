# Byssus: verified model of the reconciliation protocol

Byssus keeps a tree of bind mounts in step with membership directories. It records every mount it
creates in a state file, which is its claim of ownership, and reconciles three parties: the desired
members, the state file, and the kernel's mount table, which other processes change at any time.

This project models that protocol and proves what every run of it keeps: that no mount is lost from
the records, that no mount of anybody else is touched, that a pass reaches the state it should, and
that failures stay local. Around it are the parts the protocol relies on: privilege normalization,
templates, the state file's content, discovery and freezing, inotify watches, wake-ups, and the log
of notes.

Run `dafny verify dfyconfig.toml` to check everything.

## How the model is built

| files | what they hold |
|---|---|
| `Names`, `Records`, `Wrappers` | names, group IDs, mount identities, records |
| `Planning` | what a plan must be: the decision table, collisions, dependencies, findings, told without the algorithm |
| `Finish`, `Builder` | the planner as the program runs it, proved to produce such a plan |
| `PlanFacts`, `Reports`, `Reasons` | what every plan satisfies, and that its reasons, findings and dependencies are true and no more than needed |
| `Protocol`, `Executor`, `StepResults` | the world (mount table, memory, state file), each executor step, the executor as classes over a kernel and a store, and what each result says about the world |
| `Passes` | one pass from observation to execution, and why the theorems about runs apply to it |
| `Runs` | whole runs: passes with faults and outside changes between any two steps, crashes, restarts, shutdown saves |
| `QuietPass`, `Convergence`, `Contention`, `FrozenTargets` | passes nobody interferes with: isolation of failures, the end state, convergence, and what frozen records lose |
| `Privileges`, `Normalizing`, `Process` | the privilege plan, the kernel's credential rules, what the request asks, applying and verifying |
| `Texts`, `Templates`, `TemplateParsing`, `Interpolation`, `TemplateLoops`, `TemplateMeaning` | parsing, binding and interpolating path templates; what placeholders and errors mean |
| `Collisions`, `CollisionFamily` | when two groups of a set can get the same path |
| `GroupNames`, `StateFile`, `Storage` | printing and parsing, the state file's content, and why every reachable state can be read back |
| `Discovery`, `Freezing`, `Observing`, `KernelView` | scanning group sets, freezing what cannot be read, collecting desired mounts, inspecting the kernel |
| `Watcher`, `WatcherLoops` | inotify watch bookkeeping |
| `Wakeup`, `EventLoop`, `Gaps` | queued events, debouncing, passes, reloads, and the changes that can be missed |
| `NoteLog` | reporting notes once across passes |

Code that updates state in place is written as classes and loops, each proved equal to a
specification function or against a specification predicate; the theorems are about those.

## Assumptions

- Unique mount IDs are available and never reused. The fallback to reusable mount IDs is modelled in
  `MountIdentity.Matches`, but the whole-run theorems do not rest on it.
- Locations neither nest nor alias, mounts are not moved, and other processes mount only on free
  locations (`docs/TODO.md:79` lists aliasing as a known gap).
- `create_bind` and `unmount_verified` are atomic; a crash falls between steps of a pass, not between
  `create_bind` and the save that follows it.
- A failed save leaves the old or the new file, because the directory is synced after the rename
  (`src/state.rs:389-405`).
- For the end-state and convergence theorems only: nobody else acts during the pass, sources are
  stable, and `Fine` says which faults are absent.
- Watch descriptors are not reused, a listing names an entry once, and a static group's or set root's
  directory is opened and watched as the same inode. Directories may be shared; `SilencedUndegraded` says
  exactly what that costs.
- Set directories are looked up by path. Once a directory above a root is renamed, lookups may meet
  anything, and directories they do not find lose their watch.
- A read that fails counts as a read: the wake-up theorems compare with what the last attempt began with.
- Credentials are those of a single-threaded process.
- Strings are sequences of bytes. Where the program iterates an ordered map, the model takes any
  enumeration of its keys, so results do not depend on the order.

## What turned out false of the code

- **One pass does not always converge.** A staying member whose target holds the mount of a departing
  record is left for another pass (row 7), although the same pass unmounts that mount.
  `OnePassConverges` gives the exact condition, `ContentionIsReachable` a run that meets it, and
  `TwoPassesConverge` shows that a second pass always settles it.
- **Two groups of a set can share a target.** `{group}-{name}` passes every check on set templates, and
  `GroupsCanCollide` finds two groups that then share one. For targets `pre{group}mid{name}post`,
  `CollisionIsExact` says exactly when: `mid` holds only bytes names hold, and the shortest names that meet
  still fit. For other templates `DeterminedApart` gives a sufficient condition, elimination over the
  stretches between bytes no name holds; it covers `{name}/{group}-{name}` and `{group}@{name}`, but a
  template it does not cover may still keep its groups apart.
- **A group that shares its directory can go deaf.** Two static groups may name the same membership
  directory (`src/config.rs:1050-1070` compares only with sets), and bind mounts let a set group share one.
  There is one watch, it has one label, and when the directory goes only the label's owner is degraded.
  `SilencedUndegraded` says exactly when a place is silenced so: it shares its directory with another whose
  label its watch bears, and that label is lost. `UnlabelledIsUnheard` says that nothing is heard after;
  `TwinGoesDeaf` and `SharedWatchGoesDeaf` are runs in which a change of a static group and of a set group
  is then never read. For groups, `UnnoticedIsUnlabelled` shows that a change the kernel watches is missed
  in no other way.
- **An intermediate directory is listed before it is watched.** `ChangeIsNoticed` says exactly when a change
  is noticed, for every place and at every moment: a pass is to read the place anyway, or an overflow is
  queued or comes to be, or the directory is watched under a label when it changes. `ChangedBeforeSync` is
  the case in question: listed, changed, and then first watched is too late. `MissedUntilNoticed` says
  exactly which step notices a missed change after all, and `ListedBeforeWatched` is a run that misses one.
- `docs/DESIGN.md:554-557` says that targets of frozen groups still count for collision detection.
  The code ignores frozen groups there (`src/reconcile/plan.rs:342-348`), and the model follows the
  code. `FrozenTargetExactly` says when a mount lands on a frozen record's target: the record has no say in
  it, but while its mount lives no mount lands there.

## Model

| member | source | states |
|---|---|---|
| `Building.Plan` | src/reconcile/plan.rs:421-444 | For every input, consistent or not, the planner yields exactly the removals and mounts the decision table calls for, each once, removals first, waiting for exactly the steps they need, and reports exactly the findings due |
| `Building.ResolveCollisions` | src/reconcile/plan.rs:341-376 | A member is accepted iff no other non-frozen member wants its target or it is the first already in place there; every contested target is reported once with all its members and the one kept |
| `Building.Builder.Depart` | src/reconcile/plan.rs:448-513 | Rows 10-12: a departing record is unmounted iff its own mount is verified at its target, dropped if the mount is gone or foreign, left alone and reported if the target cannot be inspected |
| `Building.Builder.PlanDeparting` | src/reconcile/plan.rs:448-513 | All departing records handled, with the index of removals and freed targets later steps look up |
| `Building.Builder.PlanUnrecorded` | src/reconcile/plan.rs:515-577 | Rows 1-3: a mount is planned iff the old record can go, the target is free or freed by this plan and the source resolves; it waits for exactly those removals |
| `Building.Builder.PlanRecorded` | src/reconcile/plan.rs:579-668 | Rows 4-9: replaced, unmounted, re-created, dropped, kept or reported as the table says, the new mount waiting for the old one's removal |
| `Finishing.SortByPhase` | src/reconcile/plan.rs:378-404 | The order is a permutation, removals before mounts, and stable |
| `Finishing.Finish` | src/reconcile/plan.rs:378-404 | The finished plan is the draft moved by a permutation that keeps order within a phase; dependencies are the same steps under their new numbers, strictly increasing and smaller than the step's own |
| `Building.RenumberedIsPlan` | src/reconcile/plan.rs:378-444 | Renumbering preserves meaning: a complete draft becomes a correct plan |
| `Building.ReportIsComplete` | src/reconcile/plan.rs:341-668 | The findings collected are exactly the collisions and the per-record and per-member findings |
| `PlanFacts.OncePerKey` | src/reconcile/plan.rs:421-444 | At most one removal and one mount per member |
| `PlanFacts.OneMountPerTarget` | src/reconcile/plan.rs:341-376 | At most one mount per target |
| `PlanFacts.AcceptedUnique` | src/reconcile/plan.rs:341-376 | Collision resolution accepts at most one member per target |
| `PlanFacts.WaitsForOwnRemoval` | src/reconcile/plan.rs:515-668 | The mount of a member with an old record waits for that record's removal |
| `PlanFacts.WaitsForFreeing` | src/reconcile/plan.rs:515-577 | A mount onto a target seen occupied waits for a step that unmounts there |
| `PlanFacts.DependencyFacts` | src/reconcile/plan.rs:317-404 | A dependency comes earlier in the plan and is a removal |
| `PlanFacts.FrozenUntouched` | src/reconcile/plan.rs:454-457 | No step is for a frozen group |
| `Reports.UnattainableIsReported` | src/reconcile/plan.rs:515-668 | A desired member that the pass will not leave live is named in a finding or unmounted for want of its source |
| `Reports.AttainableIffNotReported` | src/reconcile/plan.rs:515-668 | For an accepted member, attainable iff nothing is reported about it and it is not unmounted for want of its source |
| `Reasons.ReasonsAreExact` | src/reconcile/plan.rs:448-668 | A plan unmounts or drops a record of a group that is not frozen, for a given reason, iff what that reason claims of membership, collision, location, source, attributes and the mount seen is so |
| `Reasons.FindingsAreTrue` | src/reconcile/plan.rs:341-668 | Every finding is true of the member, location and reason it gives; a collision lists all its members, and the one kept is the one accepted |
| `Reasons.StuckRecordIsReported` | src/reconcile/plan.rs:448-513 | A leaving record that stays because its target cannot be inspected is reported |
| `Reasons.NoNeedlessWaiting` | src/reconcile/plan.rs:515-668 | A mount waits for at most two steps: its own old record's removal, and one unmount at its target |
| `Reasons.WaitsForTheLast` | src/reconcile/plan.rs:448-513 | Should several leaving records have their mount at a target, a mount there waits for the last of them in key order |
| `Reasons.AcceptanceIsExact` | src/reconcile/plan.rs:341-376 | By position in key order: a member is accepted iff it alone wants its target or is the first already in place there |
| `Execution.Kernel.UnmountVerified` | src/mount.rs:165-205 | Unmounts iff the mount visible there is the expected one; nothing else changes |
| `Execution.IsBlocked` | src/reconcile/execute.rs:81-97 | A step is blocked iff something it waits for is not done |
| `Execution.Executor.TryMount` | src/reconcile/execute.rs:140-200 | Mount, record, save; on a failed save the previous record is restored and the mount rolled back or left stranded: the same world as `Protocol.MountStep`; done only once the file holds what is in memory |
| `Execution.Executor.TryUnmount` | src/reconcile/execute.rs:232-250 | Identity verified before unmounting, then the record removed and saved: the same world as `Protocol.UnmountStep`; done only once the file holds what is in memory |
| `Execution.Executor.DropRecord` | src/reconcile/execute.rs:252-286 | The record is forgotten and the state saved: the same world as `Protocol.DropStep`; done only once the file holds what is in memory |
| `Execution.Executor.Execute` | src/reconcile/execute.rs:81-97 | The loop over steps is `Protocol.Execute`, whatever happens between steps |
| `StepResults.ResultIsTrue` | src/reconcile/execute.rs:81-297 | In any pass, whatever others do, a step is skipped iff something it waits for is not done, and is done iff it was not skipped, the kernel did what it asks and the state was saved; then the file holds what is in memory, and a skipped step changes nothing |
| `StepResults.StepEffect` | src/reconcile/execute.rs:109-286 | What each step of any pass does: nothing if the kernel does not do its part; a removal takes exactly its record and, if it unmounts, exactly its mount; a saved mount adds exactly one mount, with the source's root and only the configured and inherited restrictions, and its record; an unsaved one leaves memory as it was and no mount of its own, unless the rollback is refused and the mount known to be stranded |
| `Protocol.UnmountKeepsInv` | src/reconcile/execute.rs:232-250 | An unmount step keeps the protocol invariant whatever the save leaves |
| `Protocol.MountKeepsInv` | src/reconcile/execute.rs:140-200 | A mount step keeps the invariant through success, failed save, rollback and failed rollback, provided it replaces no record of a live mount |
| `Runs.ObservationStaysTrue` | src/mount.rs:98-121 | What an inspection says about Byssus's own mounts stays true whatever others do afterwards |
| `Runs.PassKeepsInv` | src/reconcile/execute.rs:81-97 | The invariant, and that pending steps still find what they need, hold after any number of steps of a pass, whatever fails |
| `Runs.ReachableInv` | src/reconcile/mod.rs:132-168 | The invariant holds in every state reached by passes cut short anywhere, outside changes, restarts and shutdown saves |
| `Passes.RunPass` | src/reconcile/mod.rs:132-168 | A pass as the program runs it: it desires exactly the members read and not frozen, as configured; what it observes, while others act, is valid and true of Byssus's own mounts, its plan is for the state in memory, the world after it is the one its steps lead to, and the invariant holds again; so the theorems about runs are about it |
| `Runs.DurableCoverage` | src/reconcile/execute.rs:140-200 | In every reachable state a live mount Byssus created has its record in memory and in the state file, except one whose save and rollback both failed |
| `Runs.ForeignSafety` | src/mount.rs:165-205 | Over all runs, every mount Byssus unmounts is one its own `create_bind` made |
| `Runs.ForeignUntouched` | src/reconcile/execute.rs:81-97 | No step of a pass changes a mount Byssus did not create: what others leave mounted before the step, or between a failed save and its rollback, is mounted after it |
| `Runs.IdentityUniqueness` | src/reconcile/execute.rs:159-198 | Records name pairwise distinct mounts that `create_bind` made, so a visible mount matches at most one record, and only at that record's target |
| `Runs.NoLiveRecordReplaced` | src/reconcile/execute.rs:159-198 | A mount step that runs never overwrites the record of a mount that is still live |
| `Runs.FrozenPreservation` | src/reconcile/mod.rs:91-108 | After any part of a pass the record of a frozen group is unchanged and no step has unmounted its mount |
| `QuietPass.SkippedIffUndone` | src/reconcile/execute.rs:81-97 | In every pass, whatever others do, a step is skipped iff something it waits for is not done |
| `QuietPass.FailureIsolation` | src/reconcile/execute.rs:81-97 | When nobody interferes, a step that is not skipped and has nothing wrong of its own succeeds, whatever else failed |
| `QuietPass.IsolatedEffect` | src/reconcile/execute.rs:81-97 | A step with nothing wrong of its own or of what it waits for has its full effect at the end of the pass |
| `QuietPass.CleanPassExists` | src/reconcile/execute.rs:81-97 | Every accurate observation and every plan for it admit a fault-free pass, so the theorems about such passes are about something |
| `QuietPass.CleanOutcome` | src/reconcile/execute.rs:81-97 | What a fault-free pass leaves of every member's record and at every location |
| `Convergence.OnePassConverges` | src/reconcile/plan.rs:421-668 | After a fault-free pass, planning again yields no step iff no staying member's target held the mount of a departing record |
| `Convergence.TwoPassesConverge` | src/reconcile/plan.rs:421-668 | Two fault-free passes always leave nothing to do |
| `Convergence.ExactEndState` | src/reconcile/plan.rs:448-668 | After a fault-free pass a non-frozen member whose target can be inspected is live with its record iff it survived collisions, its source resolves, its target was free, its own or freed, and any old record could be removed; then with the source's root, the restrictions configured now, and a record of exactly that mount, source, target and the attributes configured now |
| `Convergence.ExactRecords` | src/reconcile/plan.rs:448-668 | After a fault-free pass there is a record of exactly the members that were attainable and of those whose old record must stay, unchanged: frozen, at a target that cannot be inspected, or in its place with another mount there |
| `Convergence.UnreachableEndState` | src/reconcile/plan.rs:448-668 | A non-frozen member whose desired target cannot be inspected is left as it was, live or not |
| `Contention.ContentionIsReachable` | src/reconcile/plan.rs:579-668 | A concrete run after which one pass does not converge |
| `FrozenTargets.FrozenTargetIsDead` | src/reconcile/plan.rs:342-348 | A mount planned at the target of a frozen record finds that record's mount gone for good |
| `FrozenTargets.FrozenTargetExactly` | src/reconcile/plan.rs:341-376 | An accepted member whose source resolves and whose old record can go is mounted at a frozen record's target iff nothing is seen there or a departing record's mount is; never while the frozen record's own mount is seen |
| `Privileges.PrivilegeSimulation` | src/privileges/plan.rs:177-284 | Run under the kernel's rules, a plan's operations are all permitted and end in a state that is accepted iff no securebit is locked the wrong way, the new IDs are real, and without a switch the process has one user ID |
| `Normalizing.NormalizesExactly` | src/privileges/plan.rs:177-284 | In terms of the request alone: the planned operations all succeed and leave effective and permitted exactly CAP_SYS_ADMIN, or nothing, inheritable and ambient empty, no_new_privs set, with CAP_SETPCAP at the start the bounding set within the permitted and each of seven securebits set, and all user and group IDs the service user's, or the one user ID there was, iff nothing is locked the wrong way, all IDs are real and few enough, and without a switch there is one user ID |
| `Normalizing.AcceptedIsNormalized` | src/privileges/apply.rs:215-287 | Whatever was done to a process, verification accepts it iff it is as the request asks, told without the plan |
| `Normalizing.PlanOrError` | src/privileges/plan.rs:177-232 | There is a plan unless CAP_SYS_ADMIN is missing, root would stay root unasked, the service user is root, or a capability to switch is missing; the first of these is the error |
| `Normalizing.PlanWarns` | src/privileges/plan.rs:190-216 | A plan warns iff the process goes on as root, or is not root and not the user asked for |
| `Processes.Process.DropBounding` | src/privileges/apply.rs:204-212 | Dropping one by one leaves the bounding set within the kept set, or changes nothing when refused |
| `Processes.Process.Verify` | src/privileges/apply.rs:215-287 | Every difference from the plan's promise is reported, and none iff the state is accepted |
| `Processes.NoProblems` | src/privileges/apply.rs:215-287 | The state is accepted iff it differs in none of the listed ways |
| `Processes.Process.Apply` | src/privileges/apply.rs:154-212 | Refuses a threaded process; stops at the first operation the kernel refuses, leaving the process as it was before it; otherwise succeeds iff the result is accepted, and names every difference if not |
| `Processes.Normalize` | src/privileges/apply.rs:154-174 | Planning and applying for a process succeeds iff there is a plan and the process is normalizable, and then leaves it as the request asks, told without the plan |
| `Templates.ParseComponent` | src/template.rs:273-323 | The scanning loop finds the pieces, or the first error and its offset, of character-by-character parsing |
| `Templates.ParseSound` | src/template.rs:273-323 | Parsed pieces are in normal form and write back to their text |
| `Templates.ParseComplete` | src/template.rs:273-323 | Every normal form parses back to itself |
| `TemplateParsing.ParseInner` | src/template.rs:110-150 | The checks and the loop over components are `ParseTemplate`, first error first |
| `TemplateParsing.ParseIsExact` | src/template.rs:110-150 | A text parses to a template iff the template is valid, described without the parser, and is written as that text |
| `TemplateMeaning.PlaceholdersMean` | src/template.rs:224-323 | `{group}` stands for the first directory name below the set, `{subgroup}` for the second, `{name}` for the member, and other text for itself, whatever text is around them |
| `TemplateMeaning.ParseFailsExactly` | src/template.rs:273-323 | Reading a component fails with an error iff that error is at the first place where the text is neither plain nor a placeholder allowed there |
| `TemplateMeaning.TemplateErrorIsTrue` | src/template.rs:110-150 | Every error is true of the whole text; an offset is that of a brace in it at which no placeholder begins |
| `TemplateLoops.Bind` | src/template.rs:232-265 | The binding loop, merging literals as it goes, computes `BindLevels` |
| `Interpolation.DepthIsExact` | src/template.rs:198-217 | A template can be bound with `n` names iff its depth is at most `n` |
| `Interpolation.BindFailsExactly` | src/template.rs:232-265 | Binding fails iff a component without `{name}` gets longer than 255 bytes |
| `Interpolation.BindIsParseStable` | src/template.rs:232-265 | A bound template is the parse of its own text, and interpolating it substitutes every placeholder of the original at once |
| `TemplateLoops.InterpolateName` | src/template.rs:159-192 | The interpolation loop, adding up the length as it goes, computes `Interpolate` |
| `Interpolation.InterpolateIsExact` | src/template.rs:159-192 | Interpolation succeeds iff all components fit in 255 bytes and the path in 4095; the result is a clean relative path, and the error for components that are no plain names cannot occur |
| `TemplateMeaning.InterpolateErrorIsTrue` | src/template.rs:159-192 | The length in an error is that of the first component over 255 bytes, or of a path over 4095 whose components all fit |
| `TemplateMeaning.BindErrorIsTrue` | src/template.rs:232-265 | Binding fails with the length of the first component without `{name}` that gets over 255 bytes |
| `Interpolation.MembersApart` | src/template.rs:267-270 | Two members of one group never get the same path |
| `Collisions.SegmentsFill` | src/template.rs:159-192 | Cutting an interpolated component at the bytes no name holds gives its segments, interpolated |
| `Collisions.DeterminedApart` | src/template.rs:159-265 | Two groups never share a path when elimination over the template's segments determines every level |
| `Collisions.GroupsApart` | src/config.rs:968-988 | In particular when each level has a component in which it is the only kind of placeholder |
| `Collisions.NameFirstDetermines` | src/template.rs:159-265 | A component with the name alone lets a mixed one determine the group |
| `Collisions.SeparatorDetermines` | src/template.rs:159-265 | A byte no name holds between group and name lets one component determine the group |
| `CollisionFamily.CollisionIsExact` | src/template.rs:159-265 | Under `pre{group}mid{name}post` two groups share a path iff `mid` holds only bytes names hold and repeats itself after, or is shorter than, some `d` that fits beside the literals and two more bytes |
| `CollisionFamily.GroupsCanCollide` | src/config.rs:968-988 | A template that passes every check and two groups that share a path |
| `GroupNames.NewName` | src/name.rs:54-72 | Accepts exactly the valid names, unchanged; a bad byte is reported where it is |
| `GroupNames.GroupRoundTrip` | src/name.rs:163-206 | Parsing and printing group IDs are exact inverses |
| `GroupNames.AbsRoundTrip` | src/config.rs:60-79 | A text is read as an absolute path iff the path is valid and the text is it, with at most one trailing slash |
| `StateFile.Decode` | src/state.rs:189-223 | Succeeds iff the version is supported, every field parses, paths are clean and keys distinct; the state then holds exactly the rows, one record for each |
| `StateFile.DecodeEncode` | src/state.rs:174-223 | The encoded rows of a storable state read back as its records, clean and without duplicate keys, in whatever order they are written |
| `StateFile.RowIsExact` | src/state.rs:174-223 | A row is read as a record iff each field is the record's field of that name, roots with at most one trailing slash |
| `StateFile.SaveAndLoad` | src/state.rs:174-223 | Decoding what was encoded gives back the state |
| `Storage.InterpolatedIsStorable` | src/reconcile/observe.rs:140-177 | Whatever observation desires passes the decoder's checks once recorded |
| `Storage.ReachableIsStorable` | src/reconcile/execute.rs:159-198 | In every reachable state memory and file are storable |
| `Storage.RestartIsFaithful` | src/state.rs:174-223 | A restart from any reachable state reads back exactly what was saved |
| `Discovery.SetScan.ScanLevel` | src/runtime.rs:294-383 | The recursive scan appends exactly what the tree holds, keeping what it found before a failure |
| `Discovery.UnavailableIsExact` | src/runtime.rs:332-370 | A group is at or beneath a reported directory iff a directory on the way to it could not be opened or listed |
| `Discovery.GroupsAreExact` | src/runtime.rs:354-381 | A group is found iff every directory down to it opens and both templates can be bound |
| `Discovery.IntermediatesAreExact` | src/runtime.rs:332-370 | An intermediate directory is found, to be watched, iff the tree leads to it above the set's depth and it was listed to its end |
| `Discovery.SetConfig.GroupIsValid` | src/config.rs:226-248 | A set's group configuration is as good as a statically written one |
| `Discovery.SetConfig.GroupFills` | src/config.rs:226-248 | It has the set's roots and attributes, and its paths are the set's templates with the directory names and the member's name filled in |
| `Freezing.Runtime.Discover` | src/runtime.rs:193-218 | Static groups stay, set groups are replaced by those found now; sets that are degraded are skipped, sets that fail are reported whole |
| `Observing.FoundIsExact` | src/runtime.rs:193-218 | Which set groups the runtime holds after discovery, told from the directory tree |
| `Observing.ProtectedIsExact` | src/reconcile/mod.rs:91-106 | A record is protected iff its set is degraded, its set's root could not be scanned, or the scan was blocked on the way to its group |
| `Observing.Observe` | src/reconcile/observe.rs:93-184 | Groups whose directory is gone or unreadable are frozen as well; a mount is desired iff its member is listed in a directory that was read and both paths can be built, and then from the source root at the source template onto the target root at the target template, with the group's attributes |
| `Observing.DiscoverAndObserve` | src/reconcile/mod.rs:81-114 | Among groups with records, frozen are exactly those that must be |
| `Observing.DesiredIsExact` | src/reconcile/observe.rs:140-177 | Looking a member up by key finds a mount iff it is read and both paths can be built, and it is the one its own group configures |
| `Observing.SetMemberPaths` | src/reconcile/observe.rs:140-177 | A set's member is desired from and at the set's own templates with the names of its directories and its own filled in, under the set's roots and with its attributes |
| `KernelView.InspectTargets` | src/reconcile/observe.rs:208-222 | Every location is inspected once; what was seen of Byssus's own mounts is still true when all are done, whatever others do in between |
| `KernelView.ObserveKernel` | src/reconcile/observe.rs:188-222 | What a pass gathers is a valid planner input, true of Byssus's own mounts, and exact if nobody acts meanwhile: the premise of the end-state and convergence theorems |
| `Observing.UnreadableIsPreserved` | src/reconcile/mod.rs:91-108 | The records of every group whose directories cannot be read survive any part of a pass, and their mounts are not unmounted |
| `Watching.TrackKeeps` | src/watcher.rs:134-163 | Following one directory to its current inode leaks no watch, relabels none, and leaves every other directory's watch alone |
| `Watching.ForgetKeeps` | src/watcher.rs:166-176 | Letting a directory go leaks no watch and keeps a watch another directory shares |
| `WatcherLoops.Watcher.Open` | src/watcher.rs:60-97 | A directory opened again keeps its one watch, which then bears the label of the place opened last |
| `WatcherLoops.Watcher.OpenAll` | src/watcher.rs:60-97 | At start-up every static group and set root is watched at its directory under a label of its own kind, or the start fails |
| `WatcherLoops.Watcher.Sync` | src/watcher.rs:110-164 | After a sync every directory found is watched at the inode its path names, by the watch it had if it is the same, absent ones are not, failed ones are as before; no watch leaks; static groups and set roots keep theirs |
| `WatcherLoops.Watcher.Drain` | src/watcher.rs:179-220 | Every event about a known watch either degrades its static group or set, or counts as a membership change |
| `WatcherLoops.DeafExactly` | src/watcher.rs:178-220 | A followed set directory loses its label in a drain iff the label is a static group's or set root's and one of its directories goes; no pass is asked for iff every other event is of that kind or of an unknown watch |
| `WatcherLoops.UnlabelledIsUnheard` | src/watcher.rs:198-209 | Events of a watch without a label change nothing a drain reports |
| `Gaps.DrainSilences` | src/watcher.rs:198-218 | In a run, a drain silences the watch on any place's directory iff the watch loses its label, whose owner was opened as the same directory and is degraded |
| `Gaps.SilencedUndegraded` | src/watcher.rs:71-93 | A place is silenced without being degraded iff it shares its directory with another place whose label its watch bears and that is lost |
| `Gaps.UnsharedStaysHeard` | src/watcher.rs:198-218 | A place that shares its directory with no other static group or set root is heard or degraded |
| `Gaps.MissedIsUnheard` | src/daemon.rs:244-345 | For every place: a change in a directory the kernel watches is missed only if the watch has no label, or the directory is one that is listed and was first watched after |
| `Gaps.UnnoticedIsUnlabelled` | src/daemon.rs:244-345 | For static and set groups: only if the watch has no label |
| `Gaps.ChangeIsNoticed` | src/watcher.rs:178-220 | For every place at every moment: a change is noticed iff a pass is pending or is to read the place, an overflow is queued, the kernel watches it and the queue is full, or it is watched under a label |
| `Gaps.MissedUntilNoticed` | src/daemon.rs:244-345 | A missed change stays missed through every step but a new change that is queued, a drain, resync or reload that brings a pass, or a sync upon an event already queued, and is noticed by each of these |
| `Gaps.ChangedBeforeSync` | src/runtime.rs:294-368 | A directory listed and then changed before the sync of that pass is missed iff it was not watched when it changed; its first watch does not help |
| `Gaps.SharedWatchGoesDeaf` | src/watcher.rs:157-162 | A run in which a set group sharing a lost static group's directory changes, the kernel still watches it, and nothing will read it |
| `Gaps.TwinGoesDeaf` | src/watcher.rs:67-80 | A run in which the same happens to a static group, whose watch took the label of another opened as the same directory |
| `Gaps.ListedBeforeWatched` | src/reconcile/mod.rs:88-89 | A run in which an intermediate directory changes between its listing and its first watch, and nothing will list it again |
| `EventLoop.Daemon.Timeout` | src/daemon.rs:246-253 | The loop never waits beyond what is due |
| `EventLoop.Daemon.Iterate` | src/daemon.rs:244-304 | One iteration of the loop, waiting, handling and checking, is `Turned`, and degrades exactly what its events or its pass find lost; it hears its own watcher because that is registered |
| `EventLoop.AskingTurn` | src/daemon.rs:326-333 | The iteration that hears of a first change starts a pass or leaves it pending and not yet due |
| `EventLoop.StartsInTime` | src/daemon.rs:244-304 | Over any iterations a pass asked for starts no later than a second after, plus what an iteration takes to handle and check; until then the second is not over |
| `EventLoop.ResyncsInTime` | src/daemon.rs:244-304 | Over any iterations a pass starts no later than the regular one is due, or than now if that is past, plus what an iteration takes; as long as none has started it is not due |
| `EventLoop.ResyncFollows` | src/daemon.rs:192-197 | After every pass the next regular one is an interval from its end, or never without an interval, and nothing is pending |
| `EventLoop.NeverEarly` | src/daemon.rs:289-335 | Over any iterations no pass starts before the pending or the regular one was due: further changes only put it off |
| `EventLoop.TriggerIsRight` | src/daemon.rs:289-301 | A pass nothing asked for is a regular one that is due; without regular passes one starts only when changes asked for it |
| `EventLoop.Daemon.HandleInotify` | src/daemon.rs:306-335 | Lost directories degrade; changes ask for a pass 150 ms after the last change or one second after the first, whichever is earlier |
| `EventLoop.Daemon.SwapWatcher` | src/daemon.rs:387-398 | What is registered after success, and after failure at either call |
| `EventLoop.Daemon.Reload` | src/daemon.rs:339-398 | Succeeds iff everything could be prepared and both epoll calls work; after success or failure anywhere exactly the daemon's own watcher and the signals are registered, and after failure the daemon is as before |
| `Wakeup.StepKeepsInv` | src/daemon.rs:244-345 | Every step of the kernel, other processes and the daemon keeps the wake-up invariant |
| `Wakeup.NoLostChange` | src/daemon.rs:244-345 | Whenever a watched place's entries differ from its last read, an event or overflow is queued, a pass is pending or the current pass has still to read it: for groups always, for roots while they have a label of their own, for any place that has kept one watch since it was read; a pending pass is due within a second of its first change |
| `Wakeup.NoLostGroup` | src/watcher.rs:103-164 | A discovered directory that was replaced or removed since it was opened leaves its parent due for listing |
| `Wakeup.SyncWatches` | src/watcher.rs:110-164 | A discovered directory is watched, by the watch it had if any, unless adding the watch failed, a directory above it in the set has changed, or its root's path no longer names the root; group directories are read only after |
| `Notes.NoteLog.Update` | src/reconcile/mod.rs:227-256 | Raises exactly the new and changed notes, clears exactly the old ones of examined groups, and remembers exactly what applies |
| `Notes.ReplayPass` | src/reconcile/mod.rs:227-256 | Replaying a pass's events turns the old active notes into the new |
| `Notes.ReplayHistory` | src/reconcile/mod.rs:227-256 | Replaying all events of any history gives the active notes |
| `Notes.RaisedOnce` | src/reconcile/mod.rs:227-256 | A note that persists unchanged stays active without another event |
| `Notes.UnexaminedKept` | src/reconcile/mod.rs:227-256 | A note of a group nobody looked at is never cleared |
| `Notes.ActiveExactly` | src/reconcile/mod.rs:227-256 | Told entry by entry: after a pass an entry's active note is the one the pass noted, or, if it noted none, the old one, but only of groups and sets it did not look at |
| `Notes.HeardIffChanged` | src/reconcile/mod.rs:227-256 | An entry has an event iff what is active about it changes |

## Left out

- Real system calls, descriptors, path resolution, epoll and signals: each kernel operation is its abstract effect and failure.
- The race between pinning a target and unmounting it, and a crash between `create_bind` and the save that follows.
- Creating target directories and removing empty ones; nested, aliased or stacked mounts; propagation.
- The text formats (JSON, TOML), file ownership checks and configuration fragments; the state file is modelled from its typed rows on.
- Timestamps, and the wording of reasons, findings, notes and errors (`InvalidBrace` carries its offset, not the text found).
- The order of findings, and of steps within a phase beyond what `Finish` keeps of the draft; the concrete ordering of keys.
- `src/mountinfo.rs`, `src/probe.rs`, `src/users.rs`, `src/lock.rs`, dry runs and status output.
- Moving a state file aside that cannot be decoded.
- Names rejected by a scan carry no detail; membership scanning yields the set of valid names.
- Collisions.DeterminedApart: a sufficient condition; only for one-component targets with one group and one name is the condition exact (`CollisionIsExact`).
- EventLoop.StartsInTime: the time an iteration takes to handle and check is a parameter, and reloads within an iteration count towards it.
