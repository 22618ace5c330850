# A model of runc

runc starts containers. This project models the parts of it whose correctness depends on several
functions or processes agreeing, in Dafny 4.11, and proves what they promise. `dafny verify
dfyconfig.toml` checks everything.

The components, hardest first:

- **The seccomp stub** (`Bpf`, `EnosysStub`, `SeccompPatch`). runc puts a generated classic BPF program
  in front of the container's filter, so that system calls newer than the configuration get -ENOSYS.
  The generator writes the program backwards, measures jumps from the end, has short and long jump
  forms, and follows the order of a Go map. `Bpf` is an interpreter; the generated program is proved to
  mean a specification of a few lines, for every map and every order.
- **The start of a container**, as three protocols over processes and channels: the C handshake of three
  processes (`Nsexec`), the request and reply protocol between runc and `runc init` (`SyncProtocol`,
  `WorkOrder`, `MountRequests`), and the exec FIFO with any number of starters (`ExecFifo`). Processes may fail or be
  killed at any step. Proved are safety over all runs, matching replies, termination of all three, absence
  of deadlock (for the FIFO, exactly who is left waiting), and success of runs without faults.
- **Encoders and decoders that must agree**: the bootstrap message that Go writes and C parses
  (`Netlink`, `Bootstrap`), the namespace list inside it and joining it (`JoinNamespaces`), and JSON
  escaping with a separate counting pass (`EscapeJson`).
- **State machines and caches**: the states of a container's handle (`Lifecycle`), the cache of user
  namespaces with its printed key (`UsernsHandles`), and id translation (`HostIds`).
- **Folds**: mount options and the bind-remount fallback (`MountOptions`), the environment
  (`PrepareEnv`), the layout of file descriptors (`FdLayout`), and the AppArmor block of the scanner
  (`AppArmor`).

`Wrappers`, `Queues`, `Separated`, `Decimal` and `SortedStrings` hold what several components share.

Conventions. A protocol is a step relation over program counters and queues; a run is a sequence of
states. Loops over Go maps pick any remaining key, so that results hold for every order. The answers of
system calls and of other processes are parameters or separate steps, never assumptions. Where the code
updates an object or a buffer in place, so does the model, and the method is proved against a function
whose properties are then proved as lemmas.

## Where code and intent differ

The model follows the code. These differences are stated as lemmas, with the exact condition where the
property holds.

- `DefaultErrnoRet` is compared with the whole action word and not with the errno, which leaves a stub in
  or leaves one out (`SeccompPatch.ErrnoIsComparedWithActionWord`); when a needless stub changes nothing is
  `SeccompPatch.StubIsIdleIff`.
- A boolean of the bootstrap message is written as a 32-bit word and read as its first byte, which works
  on little-endian hosts (`Bootstrap.BooleansArrive`).
- A non-empty map of namespaces of which none is to be joined gives an empty list, which the C side
  refuses (`Bootstrap.ListRefusedIff`); a further process in a container without namespaces meets it
  (`Bootstrap.NoNamespacesRefused`).
- If forwarding the seccomp fd fails after procSeccompDone was sent, the child is not stopped
  (`SyncProtocol.ForwardFailureDoesNotStop`; the exact condition is `SyncProtocol.ExecAfterFailure`).
  The comment in libcontainer/sync.go:31-33 describes an older form of procSeccomp without a reply.
- A child that gives up after procRun and cannot write procError is reported as started
  (`SyncProtocol.UnheardFailureSucceeds`; the exact reach of a success is `SyncProtocol.SuccessMeansReady`).
- state.json names the first process of a start until the init is ready. A handle that is loaded in between
  can say stopped while the init is alive, and destroying it need not signal the init
  (`Lifecycle.DestroyDuringCreation`; the exact condition is `Lifecycle.DestroyIsSafeIff`).
- Pausing and resuming a container that was created but not started leaves a handle whose next refresh
  fails (`Lifecycle.PauseAndResume`).
- The comments of Pause and Resume say that they do nothing to a container that is already paused, or
  running; the code returns an error (`Lifecycle.PauseOrResumeTwice`).
- `restoredState.transition` accepts a state without installing it; the other types install what they
  accept (`Lifecycle.RestoredStays`).
- A starter that looks the exec FIFO up after the init closed it, and before the winner removed it, waits
  for as long as the container runs, and no other starter does (`ExecFifo.WaitsIff`,
  `ExecFifo.WaitsForTheEnd`, `ExecFifo.SomeComeLate`).
- A starter that is killed before it has read takes the start with it: the container runs and no start
  has succeeded (`ExecFifo.SomeAreLost`; `ExecFifo.WhereTheByteWent` says exactly when).
- Rewriting an AppArmor profile whose closing brace shares its line loses text
  (`AppArmor.StripUndoesAppend`).
- Recursive access-time options pile up: a later one does not replace the mode of an earlier one
  (`MountOptions.AtimeModesPileUp`; the exact condition is `MountOptions.AtimeModeIff`).
- The option "defaults" has no flag and is therefore passed on as data, for which a bind mount is
  refused (`MountOptions.DefaultsIsData`, `MountOptions.BindRefusedIff`).

## Model

| member | source | states |
|---|---|---|
| EnosysStub.WithModeCheckRuns | libcontainer/seccomp/patchbpf/enosys_linux.go:386-440 | A section for one ABI of x86_64, run with any accumulator: a call of the other mode falls through to the filter, a call of this mode is compared with the maximum |
| EnosysStub.SingleSectionRuns | libcontainer/seccomp/patchbpf/enosys_linux.go:340-440 | The section of an architecture with one ABI ends at the -ENOSYS return exactly for an unknown number, with short and with long jumps |
| EnosysStub.PairSectionRuns | libcontainer/seccomp/patchbpf/enosys_linux.go:441-513 | The section shared by x86_64 and x32 does so for both modes, with short and with long jumps |
| EnosysStub.SectionSupported | libcontainer/seccomp/patchbpf/enosys_linux.go:348-518 | A section can be generated exactly for the overlaps of ABIs that the switch knows, and has at most seven instructions |
| EnosysStub.SectionDecides | libcontainer/seccomp/patchbpf/enosys_linux.go:333-522 | Seen from its entry in the jump table, a section in front of any tail decides every call of its architecture |
| EnosysStub.SectionJumps | libcontainer/seccomp/patchbpf/enosys_linux.go:333-522 | No jump of a section leaves the program and no 8-bit skip is truncated |
| EnosysStub.ChainStep | libcontainer/seccomp/patchbpf/enosys_linux.go:532-569 | One more entry of the architecture chain, short or long, reaches exactly its section and leaves the others reachable |
| EnosysStub.GenerateSections | libcontainer/seccomp/patchbpf/enosys_linux.go:316-522 | The first loop, in any order of the map: sections for all architectures with a correct jump table, or an error exactly if an overlap is not supported |
| EnosysStub.GenerateEnosysStub | libcontainer/seccomp/patchbpf/enosys_linux.go:316-578 | For every map and every order of both loops, the stub in front of any filter returns -ENOSYS exactly for unknown numbers and otherwise gives the filter's verdict; every jump lands inside the program |
| SeccompPatch.LargestSyscall | libcontainer/seccomp/patchbpf/enosys_linux.go:282-293 | The result is the largest positive number that the named calls resolve to on the architecture, or 0 |
| SeccompPatch.FindLastSyscalls | libcontainer/seccomp/patchbpf/enosys_linux.go:242-303 | For every order of the loops, the table holds exactly the largest number of each configured or native architecture; the errors are exactly the unknown architectures |
| SeccompPatch.AuditArchInjective | libcontainer/seccomp/patchbpf/enosys_linux.go:185-234 | x86_64 and x32 are the only two architectures that share an audit architecture |
| SeccompPatch.AuditArchComposed | libcontainer/seccomp/patchbpf/enosys_linux.go:185-234 | Every audit architecture is the machine number of the architecture with the 64-bit, little-endian and N32 bits that belong to it |
| SeccompPatch.TablesAreSupported | libcontainer/seccomp/patchbpf/enosys_linux.go:242-303 | Every table that is found can be expressed, so the overlap errors of the generator cannot happen |
| SeccompPatch.TableAnswers | libcontainer/seccomp/patchbpf/enosys_linux.go:242-303 | What the stub answers for a table is what is said directly of the configuration: numbers above every named number of their ABI |
| SeccompPatch.GeneratePatch | libcontainer/seccomp/patchbpf/enosys_linux.go:599-620 | No stub exactly if the default action is allow, log or trace or the errno is the action word 0x50026; otherwise a stub that answers exactly the numbers above every named number of their ABI, said of the configuration |
| SeccompPatch.LoadFirst | vendor/golang.org/x/net/bpf/vm.go:85-150 | A filter that starts with a load does not see what the stub left in the accumulator |
| SeccompPatch.PatchFilter | libcontainer/seccomp/patchbpf/enosys_linux.go:622-645 | The whole program, for every call: without a stub exactly for the default actions allow, log and trace or the errno 0x50026, and then the filter; otherwise the verdict is 0x50026 for a number above every number that the configuration names for its ABI, and the filter's own verdict for every other call |
| SeccompPatch.NamedSyscallsPass | libcontainer/seccomp/patchbpf/enosys_linux.go:242-303 | No call that the configuration names, with a positive number on an included architecture, is answered by the stub |
| SeccompPatch.ErrnoIsComparedWithActionWord | libcontainer/seccomp/patchbpf/enosys_linux.go:600-604 | For every configuration: the right ones go without a stub if and only if the action is permissive or the default errno is neither ENOSYS, which is not seen, nor the action word, which is taken for it |
| SeccompPatch.StubIsIdleIff | libcontainer/seccomp/patchbpf/enosys_linux.go:600-604 | What a needless stub changes: nothing, if and only if the filter already answers with -ENOSYS every call that the stub is for |
| Nsexec.InvMove0 | libcontainer/nsenter/nsexec.c:855-998 | A step of stage 0 keeps what the two socket pairs may hold at each point of the three processes |
| Nsexec.InvMove1 | libcontainer/nsenter/nsexec.c:1010-1160 | A step of stage 1 keeps it |
| Nsexec.InvMove2 | libcontainer/nsenter/nsexec.c:1169-1224 | A step of stage 2 keeps it |
| Nsexec.Safety | libcontainer/nsenter/nsexec.c:855-1224 | In every state of every run, with deaths: no unexpected word, no pid taken for a tag. Namespaces are joined, then the user namespace is created, then the maps of stage 1 itself are written, then it becomes root, then the rest is unshared, then its time offsets are written, then stage 2 exists; runc is told only the right pids of both; stage 2 goes on only after stage 1 finished and runc has both, and success comes only after stage 2 has set its ids. Only what is configured is done |
| Nsexec.NoDeadlock | libcontainer/nsenter/nsexec.c:855-1224 | While a process is alive some process can go on, also after a death |
| Nsexec.MeasureDecreases | libcontainer/nsenter/nsexec.c:855-1224 | Every step, also a death, makes a measure smaller |
| Nsexec.RunsAreShort | libcontainer/nsenter/nsexec.c:855-1224 | Every run has at most 170 states |
| Nsexec.FaultFreeSucceeds | libcontainer/nsenter/nsexec.c:855-1224 | A run without faults that cannot go on has exited successfully in all three processes, runc has both pids, and everything that is configured was done to stage 1: joined, mapped, root, unshared, offsets |
| SyncProtocol.HandlerShape | libcontainer/process_linux.go:919-1060 | For every request a handler does its effects in order and before it replies, and owes exactly what answers the request |
| SyncProtocol.ParentStepInv | libcontainer/process_linux.go:918-1073 | Every step of runc keeps the invariant of the protocol |
| SyncProtocol.ChildStepInv | libcontainer/init_linux.go:421-464 | Every step of the child keeps it |
| SyncProtocol.RepliesMatch | libcontainer/sync.go:90-203 | In every state of every run: no reply of a wrong type or with a missing or unexpected file or argument, no request without a handler, at most one unanswered request |
| SyncProtocol.FilesMatch | libcontainer/rootfs_linux.go:116-162 | The child waits for a file exactly when the file of its answer is the next packet, and the file's name is the requested source |
| SyncProtocol.EffectsAreOrdered | libcontainer/process_linux.go:993-1054 | Which effect comes after which, in both processes: the root is changed only after cgroup settings, Prestart and then CreateRuntime hooks, which run only with the state known; limits are set after procReady, the state is saved after the limits, and only then procRun is sent; files are opened and taken before the child is told so; the child execs only after all of it, after every mount and after all its own work |
| SyncProtocol.SuccessMeansReady | libcontainer/process_linux.go:1063-1072 | start returns nil only if procReady was fully handled, no error was read, and the child closed its end, was killed, or gave up and could not report it; if it closed its end, a notify fd has been forwarded |
| SyncProtocol.UnheardFailureSucceeds | libcontainer/init_linux.go:137-152 | There is a run in which start returns nil for a child that gave up after procRun and could not report it |
| SyncProtocol.NoDeadlock | libcontainer/process_linux.go:918-1073 | In every state of every run that is not final one of the processes can go on |
| SyncProtocol.RunsAreShort | libcontainer/process_linux.go:918-1073 | Every run ends after a number of steps that is linear in the number of mounts |
| SyncProtocol.ExecAfterFailure | libcontainer/process_linux.go:1063-1072 | Once runc no longer serves, the child can still exec if and only if it needs nothing more than what is already on its way |
| SyncProtocol.AbandonedChildExits | libcontainer/process_linux.go:577-588 | If runc stops with a request unanswered, the child ends without exec, in every run |
| SyncProtocol.ForwardFailureDoesNotStop | libcontainer/process_linux.go:548-570 | After procSeccompDone it is different: there is a run in which forwarding the fd fails and the child can still exec |
| SyncProtocol.ScriptDoes | libcontainer/standard_init_linux.go:51-304 | The script of a child contains exactly the local work that its configuration calls for, and every mount once |
| SyncProtocol.ScriptAsksSeccomp | libcontainer/standard_init_linux.go:188-252 | A child hands over a notify fd if and only if its configuration has one |
| WorkOrder.WorkIsOrdered | libcontainer/standard_init_linux.go:51-304 | In every state of every run: the root is changed after every mount and before the rest of the setup; the filter is loaded and privileges are dropped only after procRun; the filter comes first, or with no_new_privs last; the socket is closed after all of it, and the byte is written into the exec FIFO after the closing and after all other work |
| WorkOrder.RequestsAreOrdered | libcontainer/standard_init_linux.go:177-252 | Mount sources are asked for in the order of the mounts, hooks after all mounts, procReady after the setup, the notify fd after the filter is loaded |
| WorkOrder.FailureLeavesNone | libcontainer/process_linux.go:577-588 | If nothing fails on the way, a start that has returned an error leaves no child alive |
| MountRequests.AskedIff | libcontainer/rootfs_linux.go:116-134 | The child asks for exactly the listed mounts that are id-mapped, or are bind mounts of a container that is not rootless whose source it cannot stat |
| MountRequests.MountsStrictIff | libcontainer/configs/validate/validator.go:359-428 | The validator's loop accepts exactly the lists in which every mount is right by itself |
| MountRequests.ScriptGranted | libcontainer/rootfs_linux.go:116-162 | With validated mounts every mount that the child asks for is a bind mount of a container that is not rootless |
| MountRequests.MountsAreGranted | libcontainer/configs/validate/validator.go:379-428 | With validated mounts runc never refuses a mount request, in any run |
| MountRequests.FaultFreeSucceeds | libcontainer/standard_init_linux.go:177-304 | A run in which nothing fails and that cannot go on has returned success and the child has become the user's program |
| ExecFifo.InvNext | libcontainer/container_linux.go:233-302 | Every step of the init, of any starter and of the kernel, and every death at any point, keeps the bytes: written once, and read, waiting or dropped |
| ExecFifo.AtMostOneSucceeds | libcontainer/container_linux.go:233-302 | Of any number of concurrent starters, with deaths at any point and the dead-process fallback, at most one succeeds |
| ExecFifo.SuccessMeansWritten | libcontainer/container_linux.go:256-265 | A start that succeeded was of an init that had written its byte |
| ExecFifo.RemovedIffStarted | libcontainer/container_linux.go:288-302 | In every state of every run the FIFO is removed if and only if somebody has started the container |
| ExecFifo.GivesUpOnlyIfGone | libcontainer/container_linux.go:276-302 | A starter that is waiting fails only if the FIFO is removed already |
| ExecFifo.ReadsToTheEnd | libcontainer/container_linux.go:256-265 | Without a read error a starter stops reading exactly at the end of the file, and then goes on if and only if it has read something |
| ExecFifo.WritesToReader | libcontainer/standard_init_linux.go:261-275 | The init writes its one byte only while a reader is there |
| ExecFifo.ExecMeansOpened | libcontainer/standard_init_linux.go:261-304 | The init becomes the user's program only after a starter's open of the FIFO came back |
| ExecFifo.MeasureDecreases | libcontainer/container_linux.go:233-302 | Every step, every fault and every new starter makes a measure smaller |
| ExecFifo.RunsAreShort | libcontainer/container_linux.go:233-302 | Every run has at most nine states for each starter and seven more |
| ExecFifo.OnlyTheLateWait | libcontainer/container_linux.go:233-252 | When nothing can happen any more, every starter has not begun, is gone, is done, or waits for a writer in a container that runs |
| ExecFifo.WaitsForTheEnd | libcontainer/container_linux.go:233-252 | A starter that waits after the init closed the FIFO waits until it or the init dies |
| ExecFifo.WaitsIff | libcontainer/container_linux.go:267-286 | When nothing can happen any more in a container that runs, a starter that is still there has not returned if and only if it looked the FIFO up after the init had closed it and before it was removed |
| ExecFifo.WhereTheByteWent | libcontainer/container_linux.go:256-302 | When nothing can happen any more after the byte was written, a start has succeeded if and only if the byte was not dropped, is not left in the FIFO, and was not read by a starter that then failed or was killed |
| ExecFifo.SomeoneSucceeds | libcontainer/container_linux.go:233-302 | If nothing fails and somebody tries, then in the end, which every run reaches, somebody has started the container and the FIFO is removed, also if its program has ended and starters take the dead-process fallback |
| ExecFifo.SomeComeLate | libcontainer/container_linux.go:276-302 | It can happen: a run in which one starter succeeds and another comes between the closing of the FIFO and its removal |
| ExecFifo.SomeAreLost | libcontainer/container_linux.go:256-265 | It can happen: a run in which the only starter is killed before its read, the byte is dropped, and the container runs although no start succeeded |
| Netlink.SerializeWord | libcontainer/message_linux.go:36-43 | The buffer is the attribute on the wire, in the byte order of the host; the same for booleans |
| Netlink.SerializeBytes | libcontainer/message_linux.go:57-71 | The buffer is the attribute on the wire, with its zero and padding; the only error is a length over 16 bits |
| Netlink.SerializeRequest | vendor/github.com/vishvananda/netlink/nl/nl_linux.go:478-503 | The message is its header, with the whole length, and all attributes; an error exactly if an attribute does not fit |
| Netlink.WireLayout | libcontainer/message_linux.go:29-97 | An attribute on the wire byte by byte: length and type, the value or the bytes, their zero, padding with zeros to a multiple of four |
| Netlink.MessageLayout | vendor/github.com/vishvananda/netlink/nl/nl_linux.go:478-503 | The header byte by byte: the whole length, type 62000, the request flag, the sequence number, and no pid |
| Netlink.NlParse | libcontainer/nsenter/nsexec.c:374-451 | The loop along the payload computes what parsing attribute by attribute gives, errors included |
| Netlink.HeaderIsChecked | libcontainer/nsenter/nsexec.c:374-398 | For every stream: exactly when the header is refused, and that otherwise the payload of the given length is parsed |
| Netlink.OthersRefused | libcontainer/nsenter/nsexec.c:400-450 | An attribute of any other type is an error |
| Netlink.ParseWire | libcontainer/nsenter/nsexec.c:400-450 | Parsing an attribute as it was written stores its meaning and goes on exactly after its padding |
| Netlink.MessageRoundTrip | libcontainer/nsenter/nsexec.c:374-451 | Every message of known attributes parses to its very end and gives back each of them, in either byte order |
| Bootstrap.TablesAgree | libcontainer/nsenter/nsexec.c:466-479 | The C side knows exactly the namespace names that the Go side writes, with the same clone flags |
| Bootstrap.NsTypeOf | libcontainer/nsenter/nsexec.c:481-495 | The search finds a flag exactly for the names of namespace types |
| Bootstrap.OrderNamespacePaths | libcontainer/container_linux.go:990-1019 | The list is the joined entries of the configured namespaces in the fixed order; an error exactly if one is unsupported, missing or has a comma in its path |
| Bootstrap.PairsAre | libcontainer/container_linux.go:990-1019 | The entries are exactly the configured namespaces with a path, in the fixed order |
| Bootstrap.Strtok | libcontainer/nsenter/nsexec.c:504-536 | One call gives the next token and leaves the rest; empty tokens are skipped |
| Bootstrap.OpenNamespaces | libcontainer/nsenter/nsexec.c:497-541 | The loop gives the entries of all tokens, or the first reason to give up |
| Bootstrap.OpenAllIff | libcontainer/nsenter/nsexec.c:497-541 | A list is accepted if and only if it has a token and every token is a type, a colon and a path that opens; the entries are then the tokens |
| Bootstrap.NamespaceListRoundTrip | libcontainer/nsenter/nsexec.c:497-541 | A list that runc writes comes apart into the same types and paths in the same order, colons in paths included; only the empty list is refused |
| Bootstrap.BootstrapData | libcontainer/container_linux.go:1043-1159 | The message parses, to its very end, and each field of the C side is the configured value, spelled out field by field with its condition; an error exactly if a namespace cannot be joined or a value does not fit |
| Bootstrap.NamespacesArrive | libcontainer/container_linux.go:1067-1076 | What the C side makes of the list inside such a message |
| Bootstrap.ListRefusedIff | libcontainer/container_linux.go:990-1076 | The C side refuses a list that runc wrote if and only if no namespace was to be joined |
| Bootstrap.NoNamespacesRefused | libcontainer/container_linux.go:655-662 | It happens to every further process in a container without namespaces, to which the paths of all namespaces are given |
| Bootstrap.BooleansArrive | libcontainer/message_linux.go:82-97 | Each of the two booleans arrives if and only if it is not true on a big-endian host |
| JoinNamespaces.JoinPass | libcontainer/nsenter/nsexec.c:548-587 | One pass tries exactly the allowed entries in order, each on an open descriptor, and closes exactly the descriptors that were joined, except that of the call at which it gives up |
| JoinNamespaces.CloseNamespaces | libcontainer/nsenter/nsexec.c:613-638 | Success exactly if every planned type was joined and no descriptor is left; afterwards none is open |
| JoinNamespaces.JoinedAtMostOnce | libcontainer/nsenter/nsexec.c:640-673 | No entry is joined twice, whatever setns answers and however the list repeats types |
| JoinNamespaces.OrderOfCalls | libcontainer/nsenter/nsexec.c:667-669 | Every other namespace is tried once before the user namespace, and afterwards exactly those whose type is not joined are tried again |
| JoinNamespaces.GivesUpIff | libcontainer/nsenter/nsexec.c:548-587 | Each call gets its own answer, and the process gives up if and only if a call fails other than for want of permission or joins a user namespace without becoming root, at that call |
| JoinNamespaces.Join | libcontainer/nsenter/nsexec.c:640-673 | The process goes on exactly if no call made it give up and every entry was joined, each exactly once |
| UsernsHandles.EntryInjective | libcontainer/internal/userns/usernsfd_linux.go:45-50 | A printed entry determines its three numbers |
| UsernsHandles.KeyEquivalent | libcontainer/internal/userns/usernsfd_linux.go:43-55 | Two mappings have the same key if and only if their lists are permutations of each other |
| UsernsHandles.Id | libcontainer/internal/userns/usernsfd_linux.go:43-55 | The method computes the key |
| UsernsHandles.GetAgreesWithSpawn | libcontainer/internal/userns/usernsfd_linux.go:122-156 | A user namespace that is handed out has the requested mapping up to order, over any sequence of requests and releases |
| UsernsHandles.SharedIff | libcontainer/internal/userns/usernsfd_linux.go:65-156 | Two requests get the same user namespace if and only if nothing was released between them and their mappings are permutations of each other |
| UsernsHandles.SucceedsIff | libcontainer/internal/userns/usernsfd_linux.go:122-156 | A request succeeds if and only if the file can be duplicated and a permutation of its mapping was requested and opened since the last release, or a process can be spawned and its namespace opened; a namespace is created exactly in the second case |
| UsernsHandles.Handles.GetHandle | libcontainer/internal/userns/usernsfd_linux.go:122-156 | The object's new cache and result are those of the abstract cache, for every failure on the way |
| UsernsHandles.Handles.ReleaseAll | libcontainer/internal/userns/usernsfd_linux.go:65-74 | The object's cache is empty afterwards, and the namespaces that were created are what they were |
| HostIds.LookupFinds | libcontainer/configs/config_linux.go:89-97 | The answer comes from an entry that contains the id, and there is one if any entry does |
| HostIds.EntryMeans | libcontainer/configs/config_linux.go:89-97 | An entry that fits into 64 bits contains exactly the ids of its range and moves them to the host range |
| HostIds.WrappedContainsNothing | libcontainer/configs/config_linux.go:89-97 | An entry whose end wraps around contains no id at all |
| HostIds.HostUidMeans | libcontainer/configs/config_linux.go:29-49 | In a user namespace the first range that has the id decides, without wrap-around; the three errors are exactly no entries, no range with the id, and a host id over the native int |
| HostIds.OrderIrrelevantIff | libcontainer/configs/config_linux.go:29-49 | The order of the entries does not matter to an id if and only if there is no user namespace or all entries that contain the id give the same answer, an id of the host or that it is too large |
| HostIds.DisjointOrderIrrelevant | libcontainer/configs/config_linux.go:29-79 | With disjoint entries the order never matters, in 64-bit arithmetic |
| HostIds.EncodeIdMapping | libcontainer/container_linux.go:1021-1030 | The method prints one line for each entry |
| HostIds.LineIs | libcontainer/container_linux.go:1021-1030 | A line is container id, host id and size in decimal, with single spaces |
| HostIds.EncodedInjective | libcontainer/container_linux.go:1021-1030 | The printed maps determine the list, order included |
| Lifecycle.RefreshFailsIff | libcontainer/container_linux.go:874-891 | Exactly when a refresh is an invalid transition, for every state of the handle and the world |
| Lifecycle.RestoredStays | libcontainer/state_linux.go:207-213 | A refresh that succeeds leaves the handle in the state that the world implies if and only if the container is not a restored one, which stays as it is |
| Lifecycle.TransitionMeans | libcontainer/state_linux.go:84-238 | Exactly which transitions there are, between all types of states, and the one that is refused because the init lives; a refused one changes nothing |
| Lifecycle.StatusMeans | libcontainer/container_linux.go:863-915 | What a refresh finds, from freezer, process record, process and FIFO, in this order |
| Lifecycle.KillMeans | libcontainer/container_linux.go:396-445 | Exactly when SIGKILL can be sent, whom it reaches, and that it thaws |
| Lifecycle.StartMeans | libcontainer/container_linux.go:309-340 | A start begins exactly if no init is on record and no FIFO exists, and then there is a FIFO and a first process |
| Lifecycle.FailedStartCanBeRetried | libcontainer/container_linux.go:309-340 | After a failed start of a fresh container no process is left and the next one begins |
| Lifecycle.OneInitPerHandle | libcontainer/container_linux.go:319-325 | In every run, once an init is on record the record stays and every further start is refused |
| Lifecycle.DestroyPointIff | libcontainer/state_linux.go:84-246 | Exactly when destroy comes to removing things, by type of state, process, freezer and FIFO |
| Lifecycle.DestroySucceedsIff | libcontainer/state_linux.go:39-83 | Exactly when destroy succeeds: it comes to removing things, every removal succeeds, and so do the hooks and their state query, if there are any |
| Lifecycle.InvApply | libcontainer/state_linux.go:39-194 | Every operation and every event keeps the invariant of a handle |
| Lifecycle.StoppedHasNoInit | libcontainer/state_linux.go:84-106 | In every run a handle that says stopped has no live matching process; unless it holds the first process of a start or is starting, the init is dead or was sent SIGKILL |
| Lifecycle.DestroyIsSafeIff | libcontainer/state_linux.go:39-194 | In every run, when destroy starts to remove things the init is dead or has been sent SIGKILL if and only if it was so before, or the handle does not hold the first process of a start in place of the init, or the PID namespace is shared and could be signalled |
| Lifecycle.RecordIsLoaded | libcontainer/process_linux.go:785-797 | In every run, exactly the handles that were loaded with the first process of a start hold it |
| Lifecycle.DestroyDuringCreation | src/delete.go:76-83 | A handle that is loaded during creation, after its first process has ended: it says stopped, and destroying it signals nobody although the init is alive |
| Lifecycle.CreatedHasInit | libcontainer/state_linux.go:160-163 | In every run, destroying a created container finds an init process to signal |
| Lifecycle.DestroyMeans | libcontainer/state_linux.go:39-194 | What the outcome of destroy tells: success, that the handle is stopped without a process or FIFO, and exactly when the init is dead or was sent SIGKILL; a refusal, that the process it holds is alive |
| Lifecycle.CreationQueryFailsIff | libcontainer/process_linux.go:905-1044 | In every run, a state query of a start, for hooks or for the seccomp agent, before or after procReady, is an invalid transition exactly for a stopped handle with a frozen cgroup, or for one that an earlier query found frozen and that waits to be started |
| Lifecycle.PauseAndResume | libcontainer/container_linux.go:761-801 | Pausing and resuming makes the handle say running; the next refresh fails if and only if the container had not been started |
| Lifecycle.PauseOrResumeTwice | libcontainer/container_linux.go:759-801 | Pausing a paused container and resuming one that is not paused are errors |
| Lifecycle.PauseAndResumeCreated | libcontainer/container_linux.go:761-801 | A run of a fresh handle in which that happens |
| Lifecycle.TameHandlesRefresh | libcontainer/container_linux.go:874-891 | In every run in which only this handle freezes, and not before the start, the handle can always be refreshed |
| Lifecycle.Container.RefreshState | libcontainer/container_linux.go:874-891 | Success: the object is in the state that the world implies, unless it is a restored one; failure: it is unchanged; the invariant is kept |
| Lifecycle.Container.PauseContainer | libcontainer/container_linux.go:761-778 | Success exactly if the init is alive, nothing is frozen and no call fails, and then the object is paused and its cgroup frozen; the invariant is kept |
| Lifecycle.Container.ResumeContainer | libcontainer/container_linux.go:784-801 | Success exactly if the cgroup is frozen and no call fails, and then the object is running and its cgroup thawed; the invariant is kept |
| Lifecycle.Container.RemoveAll | libcontainer/state_linux.go:39-83 | Success exactly if every removal, the hooks and their state query succeed; if everything is removed the object is stopped and has no process, even if the hooks or their state query fail; otherwise it is unchanged |
| Lifecycle.Container.DestroyContainer | libcontainer/container_linux.go:750-757 | Success exactly as for removal; then stopped, no process, no FIFO, and exactly when the init is dead or was sent SIGKILL; a refusal only while the process it holds is alive; the invariant is kept |
| EscapeJson.CountIsLength | libcontainer/nsenter/escape.c:35-54 | The count for a character is the extra length of what is written, for signed and unsigned char |
| EscapeJson.EscapeKinds | libcontainer/nsenter/escape.c:35-54 | Exactly which bytes are copied, get a letter, or get four hexadecimal digits |
| EscapeJson.EscapeRoundTrip | libcontainer/nsenter/escape.c:67-142 | Reading an escaped string as JSON gives back the string; a raw quote, control character or DEL would be an error |
| EscapeJson.Write | libcontainer/nsenter/escape.c:97-135 | What is written for one character, and nothing before it changes |
| EscapeJson.WriteAll | libcontainer/nsenter/escape.c:96-138 | The second pass fills the buffer exactly, up to the terminating zero |
| EscapeJson.EscapeJsonString | libcontainer/nsenter/escape.c:67-142 | Both passes together: the escaped string, which reads back as the argument |
| MountOptions.DefaultsIsData | libcontainer/specconv/spec_linux.go:1143-1147 | Of the options in the table of mount flags, exactly the one without a flag is taken for data |
| MountOptions.DataIff | libcontainer/specconv/spec_linux.go:1143-1185 | The data are exactly the options that have no other role |
| MountOptions.BindRefusedIff | libcontainer/configs/validate/validator.go:359-377 | A bind mount with options from the table of mount flags is refused if and only if one of them is that option |
| MountOptions.LaterOptionWins | libcontainer/specconv/spec_linux.go:1143-1172 | Of two options about the same flag, recursive or not and of either sign, only the later one counts |
| MountOptions.ParseMountOptions | libcontainer/specconv/spec_linux.go:1136-1193 | The loop computes the fold over the options, data joined by commas, recursive attributes only if there are any |
| MountOptions.LastMountDecides | libcontainer/specconv/spec_linux.go:1147-1157 | Each mount flag is set or cleared as the last option that names it says |
| MountOptions.LastNameDecides | libcontainer/specconv/spec_linux.go:73-111 | By name: each of the fourteen flags with two options is set or cleared as the last of its two names says |
| MountOptions.BindFlagsIff | libcontainer/specconv/spec_linux.go:73-111 | By name: bind, recursion, remount and dirsync are set exactly if an option that sets them occurs |
| MountOptions.LastRecNameDecides | libcontainer/specconv/spec_linux.go:113-135 | By name: each recursive attribute with two options is as the last of its two names says |
| MountOptions.OthersIff | libcontainer/specconv/spec_linux.go:62-72 | By name: the propagation flags are those of the eight options; copy-up and the id mapping follow their options, the last one deciding the mapping |
| MountOptions.ListsKeepOrder | libcontainer/specconv/spec_linux.go:1158-1189 | Data and propagation flags are in the order of the options |
| MountOptions.SetAndClearedDisjoint | libcontainer/specconv/spec_linux.go:1147-1157 | No flag is both set and cleared |
| MountOptions.LastRecDecides | libcontainer/specconv/spec_linux.go:1160-1172 | The same for recursive attributes, and the whole access-time mask is cleared as soon as one option is about access times |
| MountOptions.RecursiveOverlap | libcontainer/specconv/spec_linux.go:1160-1172 | Recursive set and clear overlap at most in the access-time mask, which is then cleared as a whole |
| MountOptions.AtimeModeIff | libcontainer/specconv/spec_linux.go:1160-1172 | The recursive access-time mode is the one that the last such option asks for if and only if no other mode was set and not cleared by its own opposite since |
| MountOptions.AtimeModesPileUp | libcontainer/specconv/spec_linux.go:1160-1172 | Two options for which it is not: the earlier mode stays beside the later one, or instead of the default |
| MountOptions.StatfsToMountFlags | libcontainer/rootfs_linux.go:474-506 | The loop computes the mount flags of the source |
| MountOptions.SourceMeans | libcontainer/rootfs_linux.go:474-506 | Bit by bit which mount flag stands for which stat flag, strict access times being set exactly without the other two |
| MountOptions.SourceHasAtimeMode | libcontainer/rootfs_linux.go:499-505 | The source has one of the access-time modes, and strict access times exactly if it reports no other |
| MountOptions.RemountBind | libcontainer/rootfs_linux.go:658-748 | A remount keeps what was asked for and adds no more than the locked flags of the source; it never sets a lockable flag that was cleared; the second attempt keeps every locked flag and exactly the access-time flags of the source; refusals only after a failed first attempt |
| MountOptions.FirstAttempt | libcontainer/rootfs_linux.go:658-700 | Nothing is done exactly if no option says more than bind, rec or remount; the first attempt asks for the flags with bind and remount, and failing needs two failed attempts |
| MountOptions.FallbackIsFaithful | libcontainer/rootfs_linux.go:703-741 | The second attempt never sets a lockable flag that an option cleared, keeps every locked flag and exactly the access-time flags of the source, and keeps what was asked for |
| MountOptions.FallbackRefusesIff | libcontainer/rootfs_linux.go:710-736 | Exactly when it is refused, in terms of the options |
| AppArmor.FindProfileBodyClose | src/scanner_apparmor_linux.go:297-310 | The scan finds the closing brace exactly if it is the last thing but space |
| AppArmor.AppendAuditRules | src/scanner_apparmor_linux.go:224-261 | The old block goes and the new one, spelled out, is put before the brace; no change without rules, an error exactly without a brace |
| AppArmor.StripMeans | src/scanner_apparmor_linux.go:267-291 | Stripped is everything from the start of the line of the first begin marker to the first end marker after it and the line break behind it |
| AppArmor.NothingToStrip | src/scanner_apparmor_linux.go:267-291 | Without an end marker after a begin marker the text stays |
| AppArmor.LinesAreRules | src/scanner_apparmor_linux.go:239-245 | The block holds the rules in their order, one line each |
| AppArmor.MarkersAreValid | src/scanner_finalize_linux.go:38 | The markers have what the other results need: one line, single spaces, neither inside the other |
| AppArmor.StripUndoesAppend | src/scanner_apparmor_linux.go:267-291 | Stripping what was appended gives the profile back if and only if the closing brace starts its own line |
| AppArmor.AppendReplaces | src/scanner_apparmor_linux.go:224-310 | A second append is the same as appending only the second list |
| AppArmor.BraceOnSharedLine | src/scanner_apparmor_linux.go:267-291 | A profile whose brace shares its line loses text |
| AppArmor.CanonicalFileMode | src/scanner_apparmor_linux.go:150-202 | The mask asked for decides, else the mask denied, else the operation; the mode has each letter exactly if the mask asks for it, write also for append, create and delete, ix for x, each once and in the order rwlkmix |
| AppArmor.RuleMeans | src/scanner_apparmor_linux.go:114-144 | The rule of a record, case by case: a capability, a path with its mode, quoted exactly for a space, tab, quote or backslash, or a comment |
| AppArmor.BuildRules | src/scanner_apparmor_linux.go:114-144 | The rules of the records, each once, sorted |
| SortedStrings.LeqMeans | src/scanner_apparmor_linux.go:142 | The order of the rules is that of the strings: a prefix first, else by the first character that differs |
| AppArmor.RulesIgnoreOrder | src/scanner_apparmor_linux.go:114-144 | The rules do not depend on the order or repetition of the records |
| PrepareEnv.Prepare | libcontainer/env.go:24-85 | The backward loop gives the entries to keep in order plus a HOME if there is none; an error exactly if an entry has no name or no '=', or a last occurrence contains NUL |
| PrepareEnv.KeptMembers | libcontainer/env.go:36-69 | Kept are exactly the last entries of their names, except an empty HOME |
| PrepareEnv.KeptInOrder | libcontainer/env.go:36-69 | Kept entries are in the order in which they were given |
| PrepareEnv.KeptNamesDiffer | libcontainer/env.go:36-69 | No name is kept twice |
| PrepareEnv.PreparedNames | libcontainer/env.go:24-85 | HOME occurs exactly once, any other name once if it was given and otherwise not |
| FdLayout.UserFiles | src/utils_linux.go:326-343 | Listening sockets first, then the preserved descriptors under their own numbers |
| FdLayout.NewParentProcess | libcontainer/container_linux.go:545-601 | Every variable gives the descriptor where its file lands, and the user's files come first |
| FdLayout.CloseFromIsExact | libcontainer/standard_init_linux.go:301 | Closing from PassedFilesCount + 3 closes every internal descriptor and none of the user's |
| FdLayout.NamesDiffer | libcontainer/container_linux.go:482-494 | No two names share a descriptor |
| FdLayout.Launch | libcontainer/container_linux.go:693 | Both steps together: listening sockets follow the standard streams in order, preserved descriptors keep their numbers, the final close is exact; each variable is there exactly if its file is passed, and its descriptor is that file, variable by variable |

## Left out

- libseccomp, assembling and loading a filter: name resolution is an abstract function of name and architecture; numbers of x32 are assumed to have bit 30 set and those of x86_64 to have it clear where that matters.
- EnosysStub.GenerateEnosysStub: is stated for maps of at most 0x1000_0000 architectures, because jump offsets are 32-bit words; every table that `SeccompPatch.FindLastSyscalls` yields has at most 17.
- SeccompPatch.PatchFilter: its claim about verdicts is for filters that do not read the accumulator before loading it, which is what libseccomp exports; what the kernel's own limit on program length rejects is not modelled.
- The system calls themselves (mount, setns, clone, prctl, cgroups, CRIU, Intel RDT): only that they succeed, are not permitted or fail.
- JSON, regular expressions, process spawning and file plumbing: messages are datatypes, files and profiles are sequences.
- The mount-source goroutine, log forwarding and timers: a mount request is one step that is answered or fails.
- SyncProtocol.RepliesMatch: packets are datatypes, so malformed JSON is not modelled; shutdown(2) on the socket is taken to succeed.
- SyncProtocol.ExecAfterFailure: whether a program that has already been exec'd is killed afterwards is not tracked.
- Nsexec.Safety: logging and the size of reads and writes are not modelled; a read or write of a word is whole or fails.
- ExecFifo.WaitsIff: removal of the FIFO by anybody but a starter is not modelled.
- Netlink.NlParse: the C parser does not check lengths against the payload; the model stops with an error where it would read outside.
- Bootstrap.BootstrapData: uid and gid maps, the OOM score and time offsets enter as printed bytes; `HostIds.EncodeIdMapping` prints the maps.
- Bootstrap.OpenNamespaces: truncation of a path at PATH_MAX, which is only used in messages, is not modelled.
- EscapeJson.EscapeJsonString: lengths are unbounded where the code uses int, and the fixed text returned when malloc fails is not modelled.
- HostIds.OrderIrrelevantIff: HostGID has the same code over the other list and is not repeated.
- UsernsHandles.Handles.GetHandle: closing the cached files and the helper processes is not modelled.
- Lifecycle.DestroyIsSafeIff: runs with a CRIU restore are excluded; a recorded start time is taken to identify the process, and that of a process just spawned to be readable; a start that fails is taken to end every process it spawned.
- MountOptions.ParseMountOptions: flag words are sets of bit numbers, which have no width.
- AppArmor.BuildRules: quoting of unusual paths is an abstract function, and reading audit logs is left out.
- AppArmor.AppendAuditRules: writing the temporary file and renaming it is left out.
- PrepareEnv.Prepare: setting PATH in the running process and the lookup of the home directory are left out; the directory is a parameter.
- The commands in src/, the scanner's probing of the host, and the sample workload: they pass values on to the code above, or read the host.
