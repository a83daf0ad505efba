# Cyclo: verified model of the durable core

Cyclo keeps the intent of a *realm* (which team instances exist, which of them should
run) in small files, compiles that intent together with the host configuration into one
DComp system, and lets the DComp executable run it.  This project models the parts where
that can go wrong without anybody noticing, and proves what they promise:

* the crash-consistent instance store, with any number of processes and a death possible
  between any two file-system calls (`InstanceDisk`, `StoreProtocol`, `StoreAlone`,
  `StateStores`);
* the two write-once files that bind a realm (`RealmBinding`);
* the order of save, apply and remove in the realm commands (`RealmLifecycle`);
* prompt settlement between one reader thread and many callers (`PromptSession`,
  `PromptDelivery`);
* the content-addressed descriptor directory and its garbage collection
  (`Materializers`);
* the compiler from host text and running instances to a typed system, and the checker
  behind it (`HostConfig`, `HostFile`, `Compiler`, `CompiledParts`, `DcompSystem`,
  `CompiledChecks`);
* the two printer and parser pairs, `component.dcomp` and `project.cyclo`
  (`ComponentDescriptor`, `DescriptorFile`, `ProjectText`, `ProjectPrinter`, `ProjectFile`,
  over `Text` and `Sorting`);
* source-root separation (`Mounts`), bounded queue reads (`QueueReaders`) and UTF-16
  well-formedness of model identifiers (`ModelIds`).

`dafny verify dfyconfig.toml` checks everything.

## How the pieces are modelled

**Protocols.**  A protocol is a state with total, deterministic actions; an action whose
thread or process is elsewhere leaves the state alone, so a theorem about every schedule
is a theorem about every interleaving.  The store's abstract value is `Inventory`: the
committed records, overridden by the pending batch when there is one.  `RunRefinesMap`
says that this value only ever changes by whole atomic operations, a cohort at the rename
of its pending record.  The same store is modelled again as the lock holder's imperative
code (`StateStore`), whose process completes `life` more file-system calls and then dies;
its contracts say exactly when each operation finishes and what every other ending leaves.

**Commands.**  `Realm.maybe` holds every team component that DComp may be running or that
a pending operation may still start.  Each store event, `up` and `down` has a fate: it
works, or it is cut short before or after its effect, leaving any part of the old and new
components.  What `up` and `down` do is an assumption about DComp, listed under "Left
out"; the theorems are about the commands.  `Safe` says that every component in `maybe`
belongs to a stored instance.

**Two accounts of one thing.**  Where an operation is proved against a specification
function, what that function says is stated a second time without it: what a load answers
from the entries of the disk, what becomes of a prompt from the lines received, where each
cut of a command leaves the realm, which files are accepted from the words of their lines,
and the compiled system's links and mounts from the host and the instances alone.
`StoreAlone` runs the concurrent store with one process and shows that what can be done is
done.

**Text.**  Strings are sequences of Unicode scalar values.  `splitlines`, `split`,
`strip`, `partition`, UTF-8 sizes and the regular expressions are written out.  The
parsers are loops proved equal to a specification function; the round trips are theorems
about that function, and `HostFile`, `DescriptorFile` and `ProjectFile` say which texts it
accepts, and as what, statement by statement.

## What the proofs turned up

* *A stale rejection can reach the next prompt.*  `_read_events` decides under the state
  lock that a failing response belongs to the active prompt, then runs the event callback,
  and only then looks up the active queue again.  If the prompt leaves in between, the next
  one receives its `CommandRejected`.  `RejectionMisroutedIff` gives the exact condition: a
  line the reader takes for a rejection can be misdelivered if and only if the registered
  prompt was not, at that moment, already written and still without a result (or there was
  none and the response has no id).  `StaleRejection` is a concrete run.
* *A settlement can be older than the prompt it ends.*  In the same way an `agent_settled`
  line read before a prompt registers can settle that prompt.  `LateEndIff` gives the exact
  condition for lines of both kinds; `EarlySettlement` is the shortest case, on a session
  that has sent nothing yet.
* *A provider argument with a hash loads but never applies.*  The host loader keeps
  `x#y` (the hash opens no comment), `System.validate` refuses it as a token.
  `CompiledValidIff` makes this one of the exact conditions, and
  `HashedArgumentRefused` is a concrete host file.
* *A death inside garbage collection can block a later system.*  Between a manifest's
  unlink and its directory's removal there is an empty directory; a system that needs that
  descriptor again is refused.  `HalfDeletedBlocks` runs it: select one system, die while
  tidying up after a second, and be refused the first.  `Materialize` says that this, a
  truncated digest shared by different bytes, and entries Cyclo did not make are the only
  obstacles; `Upgrades`, `CoherentUpgrades` and `BlockedBecause` say over any sequence of
  systems and deaths exactly which attempts are refused, and after which death.

## Model

| member | source | states |
|---|---|---|
| InstanceDisk.AfterEntry | src/cyclo/state.py:655-663 | exactly what is on disk when publication of a cohort stops after any number of file-system calls |
| InstanceDisk.RedoConverges | src/cyclo/state.py:623-653 | redoing a cohort after any published prefix gives the disk of one undisturbed publication |
| InstanceDisk.RecoveryConverges | src/cyclo/state.py:609-653 | after any finite number of deaths inside recovery, the attempt that survives is not refused and ends in the same disk, if no entry was in the way at first |
| InstanceDisk.PublishCallKeepsInventory | src/cyclo/state.py:655-663 | publishing any call of the pending batch leaves the inventory unchanged |
| InstanceDisk.PutBatchAppliesCohort | src/cyclo/state.py:484-513 | the rename of the pending record applies the whole cohort to the inventory at once |
| InstanceDisk.DropBatchKeepsInventory | src/cyclo/state.py:648-649 | unlinking the pending record of a fully published batch leaves the inventory unchanged |
| StoreProtocol.StepRefines | src/cyclo/state.py:404-683 | every action of every process keeps the invariant (exclusive lock holder, drained record, published prefix) and changes the inventory by exactly its atomic event |
| StoreProtocol.RunRefinesMap | src/cyclo/state.py:404-683 | over every interleaving with deaths anywhere, the inventory is that of a plain map on which each cohort, save and removal acted in one step |
| StoreProtocol.RemovalIsFinal | src/cyclo/state.py:665-683 | a removal is of a stopped instance, with no batch pending and no entry left |
| StoreProtocol.NoResurrection | src/cyclo/state.py:464-468 | an instance absent from the inventory stays absent until an operation puts it, whatever recovers or dies meanwhile |
| StoreProtocol.ListingSeesOneDisk | src/cyclo/state.py:429-462 | whatever other processes do between the reads of one listing, all its moments see the same disk |
| StoreProtocol.ListingIsAtomic | src/cyclo/state.py:429-462 | a listing that reads each entry at a moment of its own, with any actions of others in between, returns the inventory of every moment of the listing, so all of each cohort or none, and exactly the errors of entries that are neither records nor empty |
| StoreProtocol.LoadIsLinearizable | src/cyclo/state.py:404-419 | an unlocked load, with other processes acting between its check and its read: at one moment of the call its result was exactly what the disk held (the committed record, an error over an uncommitted one, nothing where there is none), and an answer is the inventory's value at some moment of the call |
| StoreProtocol.ReadRecordIs | src/cyclo/state.py:404-419 | reading an entry finds exactly its committed record, of either intent; it fails exactly over a record that is not committed |
| StoreProtocol.LoadReadOnce | src/cyclo/state.py:404-419 | a load that has its result read it in one step at one moment of the call and never changes it |
| StoreAlone.OperationAlone | src/cyclo/state.py:464-513 | every save, cohort and removal that is possible, run alone from any disk recovery can finish, finishes and leaves exactly the drained inventory with that change and its records committed |
| StoreAlone.DrainAlone | src/cyclo/state.py:623-653 | an undisturbed drain finishes on the recovered disk |
| StoreAlone.LoadAlone | src/cyclo/state.py:404-419 | an undisturbed unlocked load answers in three steps with the inventory's value, and fails exactly over an uncommitted record |
| StateStores.PrepareAll | src/cyclo/state.py:484-528 | a cohort is prepared exactly when its stamped records are valid and their identifiers distinct |
| StateStores.StampKeeps | src/cyclo/state.py:515-519 | a stamp keeps identifier, intent, settings and a creation time already there, and sets the update time |
| StateStores.Enumerate | src/cyclo/state.py:437-462 | the loop over entries collects every committed record and an error for every other non-empty entry |
| StateStores.StateStore.WriteInstanceDocument | src/cyclo/state.py:530-583 | a record is refused exactly over an entry that is neither empty nor its own valid record; otherwise exactly the completed calls happened |
| StateStores.StateStore.PublishInstanceBatch | src/cyclo/state.py:655-663 | publication finishes exactly when no entry is in the way and the process lives long enough |
| StateStores.StateStore.RecoverPendingBatchLocked | src/cyclo/state.py:623-653 | recovery never changes the inventory and finishes exactly when the batch can be redone |
| StateStores.StateStore.SaveManyLocked | src/cyclo/state.py:470-513 | all of the cohort or nothing, however the call ends; it succeeds exactly under `SaveManyCompletes`; a rejected cohort changes nothing |
| StateStores.StateStore.Save | src/cyclo/state.py:464-468 | the inventory changes exactly when the call succeeds, and the exact condition for that |
| StateStores.StateStore.Load | src/cyclo/state.py:404-419 | under the lock a load finds a record exactly when the inventory holds it, fails exactly over an uncommitted record, and misses exactly where there is no record |
| StateStores.StateStore.ListReport | src/cyclo/state.py:429-462 | a report is the inventory of one instant and exactly the errors of the other entries that are not empty, or nothing |
| StateStores.StateStore.Remove | src/cyclo/state.py:665-683 | removal happens exactly for a stopped instance after a completed drain, and leaves neither record nor pending batch |
| RealmBinding.EndpointAgreement | src/cyclo/state.py:283-306 | any two values `docker_endpoint` ever returns, from any processes at any two moments of any run, are equal |
| RealmBinding.EndpointReachable | src/cyclo/state.py:765-782 | once linked, the endpoint file never changes, and every cached or returned value is the one it holds |
| RealmBinding.ReadBack | src/cyclo/state.py:724-763 | a file reads as a value exactly when it is that value, non-empty, on its one line, ended as Python's text mode allows, within the size limit |
| RealmBinding.EndpointCallEnds | src/cyclo/state.py:283-306 | a call of `docker_endpoint`, with any steps of other processes between its own, always ends: it returns its selection if by then the file is that one line, and raises otherwise; undisturbed on a realm without the file it writes its selection |
| RealmBinding.RealmStepKeeps | src/cyclo/state.py:685-722 | a step changes a scope already set only by the permitted migration, taken by a process that may migrate |
| RealmBinding.ScopeIsStable | src/cyclo/state.py:245-268 | over every run, a scope once set stays, except one final move from system to local |
| RealmBinding.BoundMatchesFile | src/cyclo/state.py:685-722 | with no process allowed to migrate, whoever is bound asked for exactly the persisted scope |
| RealmBinding.BoundAgree | src/cyclo/state.py:685-722 | under the control lock, with migrations anywhere, any two processes ever bound asked for the scope persisted at their moment, so they agree unless the one migration fell in between |
| RealmBinding.BindsAlone | src/cyclo/state.py:685-722 | a process nobody disturbs is bound exactly if no scope is set, or the one it asks for, or the one it may migrate from, and then the file says what it asked for; otherwise it is refused and the file left alone |
| RealmLifecycle.StoppedIsNotDesired | src/cyclo/cli.py:607-623 | removing a stopped record does not change what DComp should run |
| RealmLifecycle.DesiredIs | src/cyclo/runtime.py:135-145 | DComp should run exactly the stored records whose intent is running |
| RealmLifecycle.Realm.CmdRun | src/cyclo/cli.py:374-427 | a run succeeds exactly when nothing clashes and no operation fails, and then adds exactly its bindings; nothing is stored before an apply without them worked; and for each cut, exactly what is stored and what DComp may be running |
| RealmLifecycle.Realm.CmdRefresh | src/cyclo/cli.py:492-538 | a refresh replaces all running records or none, and none before the providers alone were applied; for each cut, exactly what is stored and what may be running |
| RealmLifecycle.Realm.CmdStart | src/cyclo/cli.py:541-555 | start succeeds exactly for a stopped instance, which then runs at its stored version; for each cut, exactly what is stored and what may be running |
| RealmLifecycle.Realm.CmdStop | src/cyclo/cli.py:573-594 | stop changes exactly its running targets, and only if its save took effect; on success none of them can be running; for each cut, exactly what may be running |
| RealmLifecycle.Realm.CmdForget | src/cyclo/cli.py:607-623 | a record is removed only when stopped and after a successful apply without it, and no component of it can be left; for each cut, exactly what is stored and what may be running |
| RealmLifecycle.Realm.CmdShutdown | src/cyclo/cli.py:596-605 | shutdown leaves nothing running, or cut short a part of what there was, and stores nothing |
| RealmLifecycle.Realm.Do | src/cyclo/cli.py:374-623 | every command by its exact condition of success, and what it then has stored and running |
| RealmLifecycle.Realm.Play | src/cyclo/cli.py:374-623 | over every run of commands cut short anywhere, each component that may run belongs to a stored instance; one repair that works converges the realm |
| PromptSession.StepKeeps | src/cyclo/components/team/agentws/tools/pi_rpc.py:89-185 | every step of the reader and of every caller keeps the protocol invariant |
| PromptSession.OnePromptAtATime | src/cyclo/components/team/agentws/tools/pi_rpc.py:89-115 | at most one prompt is past the prompt lock, and the registered prompt is that one |
| PromptSession.OutcomeIsFirst | src/cyclo/components/team/agentws/tools/pi_rpc.py:170-178 | a prompt's outcome is the first ever put into its queue; a settlement was made from an `agent_settled` line, a rejection from a response that says `success` is false under the id registered when it was read (or under none with nothing registered), and only after the callback accepted that line |
| PromptSession.LineWasReceived | src/cyclo/components/team/agentws/tools/pi_rpc.py:128-143 | the lines outcomes refer to are exactly those received, in order, each with the request registered at that moment |
| PromptDelivery.ServedExactly | src/cyclo/components/team/agentws/tools/pi_rpc.py:128-178 | a response that says `success` is false under the waiting prompt's id, or a settlement, once the callback accepts it, becomes exactly that prompt's first result and no other's, whatever other threads do between the reader's steps |
| PromptDelivery.OthersIgnored | src/cyclo/components/team/agentws/tools/pi_rpc.py:138-160 | any other line, once the callback accepts it, changes nobody's first result, whatever other threads do meanwhile |
| PromptDelivery.RefusedLineFails | src/cyclo/components/team/agentws/tools/pi_rpc.py:147-164 | a callback that raises, on any line, ends the waiting prompt with its message, which stays latched |
| PromptDelivery.BrokenLineFails | src/cyclo/components/team/agentws/tools/pi_rpc.py:128-163 | so does a line that cannot be decoded |
| PromptDelivery.EndServed | src/cyclo/components/team/agentws/tools/pi_rpc.py:165-170 | the end of the stream ends the waiting prompt with the exit status, which stays latched |
| PromptSession.FirstIsFinal | src/cyclo/components/team/agentws/tools/pi_rpc.py:170-178 | the first result of a queue never changes |
| PromptSession.NoLostWakeUp | src/cyclo/components/team/agentws/tools/pi_rpc.py:128-185 | once the reader has stopped, or has failed and served its failure, every waiting prompt finds a result |
| PromptSession.LateCallIsRefused | src/cyclo/components/team/agentws/tools/pi_rpc.py:89-115 | once the reader has stopped, a call that is queued, entering or yet to start is, after any schedule, only ever that or refused with the latched error or the exit status |
| PromptSession.EveryCallReturns | src/cyclo/components/team/agentws/tools/pi_rpc.py:89-115 | as many fair rounds as the calls have steps left bring every call to its end, those queued on the prompt lock and those that start meanwhile included |
| PromptSession.NothingBlocksAfterStop | src/cyclo/components/team/agentws/tools/pi_rpc.py:89-115 | from any moment of any run at which the reader has stopped every call returns, and one that had not entered raises the latched error or the exit status |
| PromptSession.StoppedForGood | src/cyclo/components/team/agentws/tools/pi_rpc.py:180-185 | the latches never reopen |
| PromptSession.RejectionMisroutedIff | src/cyclo/components/team/agentws/tools/pi_rpc.py:128-168 | a line can end a prompt with a rejection that does not name it if and only if it is a response with `success` false under the registered id (or none with nothing registered) and the registered prompt is not, at that moment, waiting without a result |
| PromptSession.StaleRejection | src/cyclo/components/team/agentws/tools/pi_rpc.py:138-178 | a concrete run after which a rejection of prompt "a" can reach prompt "b" |
| PromptSession.LateEndIff | src/cyclo/components/team/agentws/tools/pi_rpc.py:138-178 | a line can end a prompt registered only after it was read if and only if it is a settlement or such a rejection and the prompt registered then was not waiting for its first result |
| PromptSession.EarlySettlement | src/cyclo/components/team/agentws/tools/pi_rpc.py:138-178 | a settlement read before any prompt was sent can end the first one |
| Materializers.DirNameTells | src/cyclo/dcomp_system.py:280-287 | equal descriptor names mean equal component names and equal truncated digests |
| Materializers.Materializer.WriteDescriptor | src/cyclo/dcomp_system.py:380-415 | a descriptor is refused exactly when its name holds anything else; a death leaves only a temporary directory |
| Materializers.Materializer.RemoveUnusedDescriptors | src/cyclo/dcomp_system.py:417-455 | collection never touches what is kept, half-deletes a descriptor only where the process died, ends well exactly when nothing odd is in its way and it lives for its calls, and each call done is one fewer to do |
| Materializers.Materializer.Materialize | src/cyclo/dcomp_system.py:272-304 | at every ending the selected system names only complete descriptors; it succeeds exactly when nothing odd and no wrong bytes are in the way and the process lives for its calls, and then exactly the selected descriptors remain; what each other ending leaves, and the only ways a later system can be spoiled |
| Materializers.Materializer.Retry | src/cyclo/dcomp_system.py:272-304 | after deaths at any steps of earlier attempts at a system none is refused, and exactly the attempts that live for the calls they find to do end well |
| Materializers.Materializer.Upgrades | src/cyclo/dcomp_system.py:272-304 | over any sequence of different systems, each attempt dying anywhere or not, an attempt is refused exactly when a descriptor it reaches is there with other contents and otherwise ends well exactly when it lives long enough; a descriptor stops fitting only by a death between unlink and removal or by a shared truncated digest |
| Materializers.CoherentUpgrades | src/cyclo/dcomp_system.py:272-304 | where no two different contents share a directory name, attempts are refused only over a half-deleted directory they need |
| Materializers.BlockedBecause | src/cyclo/dcomp_system.py:417-449 | a half-deleted directory goes back to one attempt that died and did not need it, and no attempt since has ended well |
| Materializers.HalfDeletedBlocks | src/cyclo/dcomp_system.py:380-449 | the concrete failure: a death between manifest unlink and directory removal, after which the earlier system is refused however long the process lives |
| Sorting.SortAscends | src/cyclo/dcomp_system.py:318-328 | sorting orders by a total preorder |
| Sorting.SortKeeps | src/cyclo/dcomp_system.py:318-328 | sorting permutes |
| Text.SplitLined | src/cyclo/host.py:180 | splitting text made of newline-ended lines gives back the lines |
| Text.FieldsOfSpaced | src/cyclo/host.py:184 | splitting words joined by spaces gives back the words |
| ComponentDescriptor.ContentOfWords | src/cyclo/host.py:97-99 | comment stripping leaves a line alone when none of its words opens a comment |
| ComponentDescriptor.ContentKeeps | src/cyclo/host.py:97-99 | comment stripping never cuts a line of tokens, hence no rendered line |
| ComponentDescriptor.LoadComponent | src/cyclo/host.py:173-228 | a descriptor loads exactly when its lines parse and one output is a provider output, and then to what its lines say |
| DescriptorFile.DescriptorIs | src/cyclo/host.py:173-228 | a text is a descriptor exactly when it decodes, each line with words is a good `docker`, `input` or `output` line, one image is named and no input and no output twice; and it says that image and those endpoints in order |
| ComponentDescriptor.RenderParse | src/cyclo/dcomp_system.py:318-328 | reading back a rendered descriptor gives the same image and the sorted inputs and outputs, exactly when it is within the size limit |
| ComponentDescriptor.RenderLoad | src/cyclo/dcomp_system.py:318-328 | a rendered descriptor loads exactly when it has one provider output and fits, and what is loaded renders to the same bytes |
| ProjectText.ReadBlock | src/cyclo/project.py:336-345 | a context block runs to the first line equal to its marker, or is unterminated |
| ProjectText.CheckRoots | src/cyclo/project.py:448-462 | the pairwise loop accepts exactly disjoint source roots |
| ProjectText.LoadProject | src/cyclo/project.py:264-480 | the loop computes the specification function, errors included |
| ProjectFile.LoadIs | src/cyclo/project.py:264-480 | a text loads as a project exactly when it is small and clean and its lines say statements that define it: one good name, one description, at most one context, teams and mounts in order where their tokens lead, no clash and no overlap |
| ProjectFile.TrimmedMeans | src/cyclo/project.py:346-358 | trimming a context takes off the empty lines at both ends and no others |
| ProjectFile.DisjointIff | src/cyclo/project.py:448-462 | accepted roots are those of all teams and mounts, and no path lies in two of them |
| ProjectFile.WrittenLoads | src/cyclo/project.py:264-480 | any project the parser could return, with any number of teams and mounts, written as statements whose tokens lead to its directories, loads back as itself |
| ProjectPrinter.LoadedIsWellFormed | src/cyclo/project.py:264-480 | everything the loader returns is well formed: grammar of names, trimmed description and context, no clashing teams or mounts, disjoint roots |
| ProjectPrinter.ProjectContextMarker | src/cyclo/project.py:483-492 | the search ends at the first candidate that is no line of the context, after at most one try more than there are distinct lines |
| ProjectPrinter.MarkerFits | src/cyclo/project.py:16-20 | within the size limit the chosen marker always matches the 32-character marker grammar |
| ProjectPrinter.PrintParse | src/cyclo/project.py:495-525 | for every well-formed project, each of its teams and any usable marker, parsing the rendering gives back name, description, exact context, the team's mode and the mounts in order, exactly when it is within the size limit |
| ProjectPrinter.RenderContainerProject | src/cyclo/project.py:495-525 | the printer succeeds exactly for a team of the project within the limit, and then its text parses to the container's view |
| ProjectPrinter.StoredAsPrinted | src/cyclo/team/component.py:66-70 | the copy kept for an instance, stripped and newline-ended, is the rendered text itself |
| DcompSystem.NoneNestedMeans | src/cyclo/dcomp_system.py:147-156 | the pairwise target check means that no container path lies in two mounts |
| DcompSystem.ValidateComponent | src/cyclo/dcomp_system.py:134-164 | a component passes exactly when its interface, mounts, arguments and ports are sound |
| DcompSystem.JoinedNames | src/cyclo/dcomp_system.py:174-181 | the name check on a link follows from its joining endpoints of checked components |
| DcompSystem.WiringIff | src/cyclo/dcomp_system.py:204-243 | the checks on links amount to a wiring: a total, single-valued, service-preserving map from declared inputs to declared outputs |
| DcompSystem.Validate | src/cyclo/dcomp_system.py:190-243 | `System.validate` accepts exactly the valid systems |
| HostConfig.OutputsAre | src/cyclo/host.py:427-433 | a binding can target the gateway's provider output and every declared provider output, and nothing else |
| HostConfig.SettingIff | src/cyclo/host.py:438-448 | a setting reads as a binding exactly when it spells it: input without `=`, component and output by the grammar of names |
| HostConfig.BindProvider | src/cyclo/host.py:434-488 | a provider is bound exactly when its settings spell, as `INPUT=COMPONENT.OUTPUT`, a binding of each input once to a known output of the same service; its bindings are those, in the order of the inputs |
| HostConfig.LoadHost | src/cyclo/host.py:324-495 | a file loads exactly when its lines declare something and every declaration's settings spell such bindings; the providers are the declarations, in order, with exactly those bindings |
| HostFile.ComponentLineIs | src/cyclo/host.py:275-321 | a component line is accepted exactly when it names `openai` and sets a good address and port at most once each; the rest keep their defaults |
| HostFile.ProviderLineIs | src/cyclo/host.py:357-425 | a provider line is accepted exactly when its name is good and new, it has no second `--`, its source has a contract, and its settings select a build context, if any, that holds the source; and it declares exactly that |
| HostFile.FileIs | src/cyclo/host.py:324-425 | a host file is read exactly when every line with words is a good component or provider line and no name is given twice, and then as what they say, in order |
| HostFile.RowsOfPrinted | src/cyclo/host.py:333-338 | rows of words written one to a line are the rows that are read |
| HostConfig.LoadedIsOk | src/cyclo/host.py:324-495 | every loaded host has distinct names, sound contracts, and bindings that map each provider's inputs to offered outputs of the same service |
| Compiler.TeamNameIs | src/cyclo/dcomp_system.py:48-56 | whatever the identifier, the team's component name is valid, and different digests give different names |
| Compiler.TeamNameKeeps | src/cyclo/dcomp_system.py:48-56 | an identifier that is a short name already is kept whole in its team's name |
| Compiler.StepsOfSlashed | src/cyclo/dcomp_system.py:114-119 | the steps of a path survive being written and read back |
| Compiler.BuildSystem | src/cyclo/runtime.py:135-230 | compilation succeeds exactly when every running instance can be compiled, every image is built and the sources are separate; its links are exactly those the host calls for: each binding of a provider, and each client to the last provider's provider output, or to the gateway where there is no provider |
| Compiler.LinksAre | src/cyclo/runtime.py:178-230 | the same of every link of a compiled system, said from the host and the names of its clients alone |
| Compiler.ActiveAre | src/cyclo/runtime.py:140-145 | the compiled teams are the running instances, each as often as given, in the order of their identifiers |
| CompiledParts.ProviderIs | src/cyclo/runtime.py:156-186 | a provider has its contract's interface and arguments, nothing of the host, and a published port and outside network only as the last |
| CompiledParts.OnePublishes | src/cyclo/runtime.py:146-177 | of the gateway and the providers exactly the last publishes the provider port, on the loopback address |
| CompiledParts.MountBound | src/cyclo/team/component.py:101-104 | each project mount is one bind at its container path, read-only exactly when its mode is |
| CompiledParts.PrintedWhereBound | src/cyclo/project.py:514-518 | the mount paths printed in a team's project file are the targets its mounts are bound at |
| CompiledParts.FixedBound | src/cyclo/team/component.py:92-100 | the other binds of a team: its tree is read-only exactly when not writable, the project file and settings always, the queue and Pi directories never |
| CompiledParts.TeamWrites | src/cyclo/team/component.py:92-104 | which host paths a team can write: its own state, its tree if writable, and the projects mounted `rw`, no others |
| CompiledParts.TeamNetwork | src/cyclo/team/component.py:118-136 | a team publishes its dashboard and is on the outside network exactly when not offline |
| Compiler.CompiledWires | src/cyclo/runtime.py:135-230 | with distinct component names, the compiled links always wire the compiled system |
| CompiledChecks.TeamTargetsIff | src/cyclo/team/component.py:77-136 | a team's mount targets never nest except for two project mounts of the same name and mode |
| CompiledChecks.TeamPartIff | src/cyclo/team/component.py:77-136 | exactly which instances compile to a component that passes the check |
| CompiledChecks.DistinctIff | src/cyclo/runtime.py:135-230 | only team names can clash: the loader keeps the host's own names apart |
| CompiledChecks.CompiledValidIff | src/cyclo/dcomp_system.py:190-243 | the exact condition under which `System.validate` accepts a compiled system; links and host names are never part of it, a hash in a provider argument is |
| CompiledChecks.LoadedHostCompiles | src/cyclo/host.py:427-488 | any host file that loads, with any running instances under fresh names, compiles to links that wire it and to team mounts that nest only when equal |
| CompiledChecks.HashedArgumentRefused | src/cyclo/dcomp_system.py:157-158 | a concrete host file that loads and never compiles to a valid system |
| Mounts.ComparableIffShared | src/cyclo/mounts.py:20-31 | two trees overlap exactly when some path lies in both |
| Mounts.ValidateMountAuthority | src/cyclo/mounts.py:62-95 | accepted exactly when no source overlaps another source or a protected tree |
| Mounts.ValidateTeamMountSeparation | src/cyclo/mounts.py:98-112 | accepted exactly when no team overlaps a mount |
| Mounts.ValidateStrictSourceRootSeparation | src/cyclo/mounts.py:115-128 | accepted exactly when no two different sources overlap |
| Mounts.SeparateIff | src/cyclo/mounts.py:20-31 | pairwise separation is a statement about every host path |
| Mounts.GroupAccepted | src/cyclo/runtime.py:279-290 | the per-project checks on sources follow from the global ones |
| Mounts.ValidateInstances | src/cyclo/runtime.py:246-294 | accepted exactly when, with any instance at all, the host is not root and the Docker endpoint is bound, every project decodes and every team resolves, and, across all projects, no host path lies under two different source roots, under a team and a mount, or under a source and a protected tree |
| QueueReaders.ConfinedQueueReader.ReadFile | src/cyclo/components/team/agentws/tools/queue_reader.py:272-310 | a read of a stable file is the whole file, its first or its last bytes, with `truncated` exact, and it fails exactly when the shared budget would be passed |
| QueueReaders.ConfinedQueueReader.ScanEntries | src/cyclo/components/team/agentws/tools/queue_reader.py:176-185 | a scan returns every entry or ends in an error at the shared limit |
| QueueReaders.ConfinedQueueReader.ReadAll | src/cyclo/components/team/agentws/tools/queue_reader.py:272-310 | over any sequence of reads each is refused exactly when out of range, else succeeds exactly when affordable, is then exact, and the charge never passes the budget |
| QueueReaders.AllAffordableIff | src/cyclo/components/team/agentws/tools/queue_reader.py:272-310 | all reads of a sequence succeed exactly when their total cost is within the budget |
| ModelIds.HasUnpairedSurrogate | src/cyclo/model_ids.py:33-48 | the scan reports an unpaired surrogate exactly when the UTF-16 form does not decode under section 2.2 of RFC 2781 |
| ModelIds.DecodeEncode | src/cyclo/model_ids.py:33-48 | decoding inverts encoding on scalar values |
| ModelIds.EncodeDecode | src/cyclo/model_ids.py:33-48 | whatever decodes is the encoding of what it decodes to |
| ModelIds.UnitsAreLength | src/cyclo/model_ids.py:27-30 | `utf16_units` is the length of the UTF-16 form |
| ModelIds.IsLocalModelId | src/cyclo/model_ids.py:51-65 | a local model id is exactly a non-empty string without spaces or controls whose UTF-16 form decodes within the limit |

## Left out

- Power loss and `fsync` ordering: deaths are of processes, and rename, link, mkdir and unlink are atomic.
- Symlink, FIFO, ownership and permission checks, and the descriptor-relative opening loops; files are regular and paths resolve through a function given as a parameter.
- JSON and SHA-256: documents are values, digests are parameters of which only the length and alphabet are used. Digests are not assumed injective.
- Temporary files of atomic replacements and quarantined instance directories: readers skip them by their leading dot, so they are not entries of the modelled directory. The recursive deletion of a quarantined directory is not modelled.
- StateStores.StateStore.Save: assumes the control lock is held, as its caller `cmd_start` does; `save` itself does not take it.
- StoreProtocol.ListingIsAtomic: the order in which a report lists instances is not modelled.
- RealmLifecycle.Realm.Apply: its contract is an assumption about DComp, not a result: a successful `up` runs exactly the target, one cut short anywhere, also before or after `up` itself, leaves some part of old and new, and DComp runs its operations one at a time.
- RealmLifecycle.Realm.Down: likewise an assumption: a `down` cut short leaves some part of what there was.
- RealmLifecycle.Realm.CmdRun: takes the bindings that preparation computed; preparing teams and images is not modelled.
- PromptSession.NoLostWakeUp: is safety, not scheduling: it does not say that the reader thread is ever given a turn.
- PromptSession.EveryCallReturns: numbers the calls below some bound; Python's lock is not fair, so with calls arriving for ever one of them can be passed over for ever.
- PromptSession: text progress, tool events and the wording of errors; an event is what the reader's settlement logic sees of a line.
- Materializers.Materializer.Materialize: the text of the system file itself is a value that names its components; its rendering is not modelled.
- Materializers.Materializer.Retry: takes the random temporary names to be free and different from attempt to attempt.
- Materializers.Materializer.Upgrades: takes the same of temporary names, and starts with no entries that Cyclo did not make; `Materialize` covers a call that meets some.
- ProjectText.LoadProject: line numbers in errors and the definition digest; file names and modes are covered, bytes that are not UTF-8 are not.
- HostConfig.LoadHost: Python's IPv4 and integer parsers, path expansion and the file behind each source are parameters; the error is not tied to the specification's, only that there is one.
- Compiler.BuildSystem: image builds are a set of names and a function from names to identifiers; writing the files a team consumes cannot fail.
- Compiler.TeamNameIs: lower-casing is ASCII, which is all an instance identifier can hold.
- Compiler.CompiledWires: needs distinct component names as a premise; `CompiledChecks.DistinctIff` says when they are.
- Mounts.ValidateInstances: collecting protected trees (Docker sockets, Cyclo's own roots), the user it runs as and the endpoint check are parameters.
- QueueReaders.ConfinedQueueReader.ReadFile: decoding with replacement characters and the truncation marker's text; for a file that changes during the read only the budget and the length are promised.
- `team/queue.py`, dashboards, tables, argument parsing, HTTP and the AgentWS shell programs: easy members beside these, or programs whose source is elsewhere.
