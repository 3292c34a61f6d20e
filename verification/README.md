# SpawnRelay forward control plane

SpawnRelay publishes ports of private machines on a relay host. A user types a port spec
("7780-7784/udp, 15673>25673"), the server turns it into stored forwards, opens a listener
for each, and asks a root agent to keep the host firewall open for exactly those ports. The
project models that chain and three smaller protocols beside it, and proves what each of
them is for.

- **Port specs** (`Grammar`, `Decimal`, `Entries`, `PortSpec`, `Rendering`): the entry
  grammar over characters, the parser with its limits and overlap check, the in-place
  insertion sort and the printer. Printing and reading back is the identity for every valid
  list and every default protocol; acceptance is characterised declaratively, down to the
  separators, the letters and the digits, and does not depend on the order of the tokens.
- **Listeners** (`Listeners`, `GroupSwitch`, `GroupSafety`, `Startup`, `TunnelObject`): the
  host as a table from (port, tcp|udp) to its owner, a runner or another process; starting,
  stopping, applying one forward, switching a whole group with nested rollback, and the
  reconciliation at start-up.
- **The stored document** (`Store`, `Groups`, `GroupInvariant`, `GroupPatch`, `Api`,
  `ApiInvariant`, `Requests`, `ApiEffects`, `GroupEffects`, `RollbackRun`, `HiddenRunners`,
  `LateRemoval`, `ServerObject`): every mutating request as a transition, the invariant that
  all of them keep, exactly when each is accepted, and what it then achieves, field by field
  from the request; `ServerObject` is the imperative form, with the forward list compacted
  inside one buffer.
- **The firewall** (`Rules`, `FirewallPlan`, `Screening`, `Reconcile`, `UfwBackend`,
  `FirewalldBackend`, `IptablesChain`, `IptablesBackend`, `NftablesBackend`): the rules the
  server asks for, the agent's screening of what it is sent, and four reconcilers proved
  against one specification, `Reconcile.Converged`, with every external command free to fail
  and, command by command, what each of them does; `EndToEnd` takes a reachable state of the
  server through the agent and each backend.
- **The updater** (`UpdaterObject`), **client update records** (`ClientUpdates`, and
  `ClientPushes` for interleaved handlers), the **session table** under interleaving
  (`Sessions`, `SessionClients`) and the **datagram framing** (`Frames`).

Pure code is modelled by functions. Code that works in place is modelled by classes and
methods with loops, each tied by its postconditions to a specification function, about
which the lemmas are proved. `Basics`, `Protocols`, `Text`, `Seqs`, `Sorting` and `Forwards`
hold what the others share. `dafny verify dfyconfig.toml` checks everything.

## Where the code says something else than its comments

- `internal/server/tunnel.go:351-354` and `internal/server/groups.go:187-188` promise that a
  failed group change leaves everything as it was. That is so only when each enabled old
  member that the change touches was running, or could not run because another process
  still holds its port: otherwise the rollback starts a listener that was not there before.
  `GroupSafety.GroupIsAllOrNothing` proves the exact condition,
  `RollbackRun.RefusedEdit` states it for a whole request, and
  `RollbackRun.RollbackStartsAListener` gives a sequence of requests that leads to a state
  without it. The stored list is untouched either way (`GroupInvariant.CommitKeepsInv`).
- `internal/store/portspec.go:109` says that reading a printed list yields the list again; it
  yields the list in canonical order (`Rendering.RoundTrip`), so the list itself exactly when
  it was in that order (`Rendering.RoundTripIsExact`).
- `internal/protocol/protocol.go:150-163`: a stream that ends right behind a frame header is
  reported as a clean end of the stream, like one that ends between frames
  (`Frames.Truncated`).
- `internal/server/update.go:34` keeps automatic pushes an hour apart after a failure. The
  handlers lock the record section by section, and when they interleave the hour can be
  missed in two ways, each shown by a run (`ClientPushes.OverlappingReconnectsPushTwice`,
  `ClientPushes.DisturbedReconnectPushesEarly`). `ClientPushes.AutomaticPushesAreSpaced`
  proves it for every interleaving without them, and `ClientPushes.SpacingIsNonOverlap` that
  not overlapping is necessary as well.
- `internal/firewall/firewall.go:118-125` promises that a sync removes what is no longer
  wanted. In iptables, where only the last tag of a key is read
  (`internal/firewall/iptables.go:38-63`), one pass takes one tag off each unwanted key: it
  converges if and only if no unwanted key began with more than one
  (`IptablesBackend.Iptables.Sync`), n passes if and only if none began with more than n
  (`IptablesBackend.SyncRepeatedly`). The backend itself leaves two tags on a key when a
  deletion fails and the insertion after it does not (`IptablesBackend.FailedDeletionRun`).
- In firewalld a failed write of the ledger goes wrong both ways. A port that was just opened
  counts as the operator's from then on and is never closed
  (`FirewalldBackend.FailedSaveRun`); a port that was just closed is still claimed, and when
  the operator opens it the next sync closes it (`FirewalldBackend.ForgottenClosingRun`),
  against `internal/firewall/firewalld.go:12-15`. `FirewalldBackend.Firewalld.Sync` has the
  exact condition for each.
- An inactive ufw lists no rules, so rules staged for it overwrite the operator's on the same
  port and protocol and leave old tags behind (`UfwBackend.Ufw.Sync` has both conditions).
- `internal/server/tunnel.go:406`: a listener that is no longer stored is stopped only after
  the stored forwards have been applied, so it can have one of them refused
  (`Startup.StaleRunnerObstructs`). `Startup.SyncErrorsAreExact` states for which listeners
  the errors are right, and that is so at start-up (`Startup.SyncMeaning`).
- `internal/server/api.go:506-547` and `internal/server/tunnel.go:186-213`: a connection that
  finds its client just before the client is deleted can enter the session table after the
  disconnect, and stays (`SessionClients.DeletedClientStaysShown`);
  `SessionClients.ShownSessionsBelongToStoredClients` states when a shown session has a
  stored client.

## Model

| member | source | states |
|---|---|---|
| Protocols.OverlapIsSharedListener | internal/store/portspec.go:87-89 | The parser's protocol overlap test agrees with the store's test for a shared tcp or udp listener. |
| Protocols.ProtoMeaning | internal/store/portspec.go:66-68 | A protocol is read from a text if and only if the text is its name: tcp, udp or both. |
| Protocols.RankMeaning | internal/store/portspec.go:99-104 | Protocols rank as their names do, compared character by character. |
| Text.TrimMeaning | internal/store/store.go:386-421 | Trimming takes off the white space at both ends, and nothing else. |
| Text.NameMeaning | internal/store/store.go:388-391 | A name is valid if and only if 1 to 64 characters are left between white space at its ends. |
| Text.HostMeaning | internal/store/store.go:411-420 | A target host is valid if and only if it is not blank and has no space, slash, backslash, tab or line feed. |
| Decimal.AtoiItoa | internal/store/portspec.go:120 | A printed number consists of digits and reads back as itself. |
| Decimal.NumberMeaning | internal/store/portspec.go:47-53 | A text is read as a number if and only if it is that number printed, behind any zeros. |
| Decimal.PortLength | internal/store/portspec.go:23 | Every port prints in one to five digits, as the entry pattern requires. |
| Grammar.FieldsOfJoin | internal/store/portspec.go:35 | Splitting at separators undoes joining words with ", ". |
| Grammar.FieldsSplit | internal/store/portspec.go:35-37 | A spec falls apart at each comma, space, tab, line feed and carriage return: the tokens are those before it and those behind it. |
| Grammar.FieldsOfWord | internal/store/portspec.go:35-37 | A text without these five is one token, or none when it is empty. |
| Grammar.LowerMeaning | internal/store/portspec.go:42 | Lowering replaces each of the 26 capital letters by its small one, and nothing else. |
| Grammar.ScanSound | internal/store/portspec.go:22-23 | A scanned token is well formed and is the text of the pieces found. |
| Grammar.ScanComplete | internal/store/portspec.go:22-23 | The text of any well formed entry is scanned into exactly its pieces. |
| Grammar.ScanDecides | internal/store/portspec.go:43-46 | The scan succeeds if and only if some well formed entry has this text. |
| Sorting.SortForgetsOrder | internal/store/portspec.go:91-97 | Permutations of a list with distinct keys sort to the same list. |
| Sorting.OrderedUnique | internal/store/portspec.go:91-97 | There is only one sorted arrangement of distinct keys. |
| Entries.KeyIsOrder | internal/store/portspec.go:99-104 | The order by port and then by protocol text, compared character by character, is the order of the sort key. |
| Entries.SwapDown | internal/store/portspec.go:93-95 | The inner loop inserts one entry into the sorted prefix in place. |
| Entries.SortInPlace | internal/store/portspec.go:91-97 | The insertion sort leaves the sorted list in the array. |
| Entries.NoOverlapOfPermutation | internal/store/portspec.go:73-81 | Whether entries overlap does not depend on their order. |
| PortSpec.AlreadyListed | internal/store/portspec.go:74-78 | The per-port protocol lists decide exactly whether an entry overlaps an earlier one. |
| PortSpec.AddSpan | internal/store/portspec.go:73-81 | The expansion loop appends the span's entries, or stops exactly when one overlaps. |
| PortSpec.ParsePortSpec | internal/store/portspec.go:29-85 | The parser with its loops computes the specification ReadSpec, error cases and their order included. |
| PortSpec.CollectMeaning | internal/store/portspec.go:41-82 | The token loop succeeds exactly when all tokens are readable, at most 64 ports result and none overlap; it then yields the concatenated expansions. |
| PortSpec.TokenMeaning | internal/store/portspec.go:42-69 | A token is read as a span if and only if, up to letter case, it is the text of an entry describing that span, all of whose ports and targets lie in 1..65535; missing parts take their defaults. |
| PortSpec.TokenVerdict | internal/store/portspec.go:47-69 | Of a token that says a span, in the words of the format, the first fault is reported: ports outside 1..65535, a reversed range, a target that leaves it; without one it is read as that span. |
| PortSpec.TokenSaysNothing | internal/store/portspec.go:43-46 | A token is refused as such if and only if it says no span at all. |
| PortSpec.AcceptanceIsDeclarative | internal/store/portspec.go:29-85 | A spec is accepted if and only if the default protocol is known, there is a token, every token is readable, the total is at most 64 and no two entries overlap; the result is the sorted expansion. |
| PortSpec.FirstFault | internal/store/portspec.go:41-82 | The token loop stops at the first token that is unreadable, brings the 65th port, or overlaps what came before, and reports that. |
| PortSpec.WhyRefused | internal/store/portspec.go:29-85 | Why a spec is refused: its default protocol first, then the lack of tokens, then the first token that does not fit. |
| PortSpec.TokenOrderIsIrrelevant | internal/store/portspec.go:39-84 | Specs with the same tokens in any order are both rejected, or accepted with equal results. |
| Rendering.JoinRuns | internal/store/portspec.go:113-131 | The printing loop produces the texts of the greedy runs, joined. |
| Rendering.RenderPortSpec | internal/store/portspec.go:110-132 | Sorting a copy and walking the runs computes Render, without changing the input. |
| Rendering.RunsCover | internal/store/portspec.go:114-130 | The runs of a list, expanded in order, are the list: nothing is lost, repeated or moved. |
| Rendering.RunsAreMaximal | internal/store/portspec.go:106-108 | No run could be joined with the one printed after it. |
| Rendering.ReadRun | internal/store/portspec.go:120-128 | The printed text of one run reads back as that run, for every default protocol. |
| Rendering.RoundTrip | internal/store/portspec.go:109 | For every valid list and default protocol, reading the printed spec succeeds with exactly the sorted list. |
| Rendering.RoundTripIsExact | internal/store/portspec.go:109 | The list itself comes back if and only if it was in canonical order. |
| Rendering.ParsedIsValid | internal/store/portspec.go:29-85 | Whatever the parser accepts is a valid list in canonical order. |
| Rendering.PrintingNormalises | internal/store/portspec.go:106-109 | Printing an accepted spec and reading it under any other default gives the same entries. |
| Rendering.SameTextSameEntries | internal/store/portspec.go:106-109 | Two valid lists print alike if and only if they are permutations of each other. |
| Forwards.ClashIsSharedSocket | internal/store/store.go:425-435 | The conflict test holds exactly when both forwards need a common socket. |
| Listeners.StartBinds | internal/server/tunnel.go:481-509 | A start succeeds exactly when the needed sockets are free, then binds those and no others. |
| Listeners.RestartIsIdentity | internal/server/tunnel.go:336-341 | Stopping a runner and starting it again always succeeds and changes nothing. |
| Listeners.ApplyMeaning | internal/server/tunnel.go:319-349 | Apply succeeds if and only if the forward is disabled or its sockets are free of others; a failure changes nothing, a success touches no other runner. |
| Listeners.ApplyServes | internal/server/tunnel.go:321-349 | After a success an enabled forward has a runner with its client, protocol, port, target host and target port, each written out, and a disabled one has none; a runner it had is left alone if and only if those fields and the enabled flag agreed. |
| Listeners.ApplyIsSwitch | internal/server/tunnel.go:321-349 | Apply refines a one-line change of the abstract set of running forwards. |
| Listeners.TableIsDetermined | internal/server/tunnel.go:319-433 | Foreign owners and the running forwards determine the whole port table. |
| GroupSafety.ApplyPhase | internal/server/tunnel.go:385-392 | The forward loop stops at the first member blocked by another process, with a closed form of what runs by then. |
| GroupSafety.UndoPhase | internal/server/tunnel.go:369-378 | The first rollback loop restores every applied member's former state. |
| GroupSafety.RestartPhase | internal/server/tunnel.go:379-383 | The second rollback loop restores the dropped members. |
| GroupSafety.GroupFailsOnlyOnForeign | internal/server/tunnel.go:351-394 | A group never blocks itself: the switch succeeds if and only if no enabled new member needs a socket of another process. |
| GroupSafety.GroupSuccess | internal/server/tunnel.go:351-394 | After a success exactly the enabled new members of the group run, dropped ones do not, other forwards are untouched. |
| GroupSafety.GroupFailure | internal/server/tunnel.go:369-391 | After a failure the runner of every id has the stated closed form. |
| GroupSafety.GroupIsAllOrNothing | internal/server/tunnel.go:351-354 | A failed switch restores all runners and the port table if and only if every touched enabled old member was running or is blocked by another process. |
| GroupSafety.RunningGroupIsRestored | internal/server/tunnel.go:351-354 | When every enabled old member was running, a failed switch leaves all listeners and ports as before. |
| GroupSafety.RollbackCanStartAListener | internal/server/tunnel.go:379-383 | A concrete ready state and failed switch after which a listener runs that did not run before. |
| RollbackRun.RefusedCommit | internal/server/groups.go:187-200 | A refused commit leaves all listeners as they were if and only if it did not get to them, or every enabled old member it touched was running or blocked by another process. |
| RollbackRun.RefusedEdit | internal/server/groups.go:286-328 | The same for a whole request to edit a group. |
| RollbackRun.RollbackStartsAListener | internal/server/groups.go:187-200 | Requests, a restart and another process alone lead to a state in which a group edit is refused and yet starts a listener. |
| Startup.SyncInGeneral | internal/server/tunnel.go:406-433 | From any listeners, stale and outdated ones included: afterwards nothing unlisted or disabled runs, a forward without an error is served as listed, one with an error is enabled and as it was. |
| Startup.SyncErrorsAreExact | internal/server/tunnel.go:406-433 | From any listeners, the errors are exactly the enabled forwards blocked by other processes if and only if each of the other enabled forwards has no listener on its port but those an earlier forward of the list has moved. |
| Startup.SyncPastStaleRunners | internal/server/tunnel.go:406-433 | Corollary: they are when no listener is on the port of an enabled forward of another id. |
| Startup.StaleRunnerObstructs | internal/server/tunnel.go:415-430 | A concrete stale listener that has a forward refused which no other process blocks. |
| Startup.SyncMeaning | internal/server/tunnel.go:406-433 | When every listener is of a listed forward and serves it, as at start-up: afterwards a forward runs if and only if it is enabled and unblocked by other processes, and the errors are exactly the others that are enabled. |
| Startup.PruneStep | internal/server/tunnel.go:425-430 | Stopping stale runners one at a time computes the pruned state. |
| TunnelObject.Tunnel.StartRunner | internal/server/tunnel.go:481-509 | Binding TCP then UDP, with the TCP socket closed again on failure, computes Start on the port table. |
| TunnelObject.Tunnel.StopRunner | internal/server/tunnel.go:519-526 | Closes exactly the sockets of the runner. |
| TunnelObject.Tunnel.RemoveForward | internal/server/tunnel.go:396-404 | Stops and deletes the runner of one id, if there is one. |
| TunnelObject.Tunnel.ApplyForward | internal/server/tunnel.go:321-349 | The in-place update with restore computes Apply. |
| TunnelObject.Tunnel.DropMembers | internal/server/tunnel.go:356-368 | The first loop stops the dropped members and indexes the old ones. |
| TunnelObject.Tunnel.Rollback | internal/server/tunnel.go:369-384 | Both rollback loops, in order, compute the restore functions. |
| TunnelObject.Tunnel.SwitchGroup | internal/server/tunnel.go:355-394 | The loops over next and prev with rollback compute ApplyGroup. |
| TunnelObject.Tunnel.Synchronise | internal/server/tunnel.go:407-433 | The apply loop and the stop loop compute SyncAll with its error set. |
| Store.GroupMembers | internal/store/store.go:335-346 | The members of a group are exactly the forwards with its id, each counted once. |
| Store.RunnersShareNoSocket | internal/server/tunnel.go:321-349 | Between requests no two runners need one socket, and each runner holds its own. |
| Store.FilterKeepsStoreInv | internal/server/api.go:850-856 | Removing any set of forwards keeps the store invariant. |
| Groups.ExpandMeaning | internal/server/groups.go:151-185 | A successful expansion consists of one storable member per entry of the spec, in canonical order. |
| Groups.MemberId | internal/server/groups.go:164-175 | A member that carries an old member's id has its port, protocol and creation time. |
| Groups.MembersHaveDistinctIds | internal/server/groups.go:168-183 | The ids of an expansion are distinct, reused and new ones together. |
| Groups.MembersDoNotClash | internal/server/groups.go:168-183 | No two members of an expansion need a common socket. |
| Groups.ReplaceMeaning | internal/server/groups.go:205-213 | The compaction loop yields the surviving elements in order, members replaced by their successors. |
| Groups.ReplaceLeaves | internal/server/groups.go:205-213 | What is left in the index afterwards is exactly the new members. |
| Groups.SwapMeaning | internal/server/groups.go:201-220 | Others keep place and value, kept members are replaced where they stand, dropped ones vanish, new ones follow once each. |
| GroupInvariant.ExpandIsCommittable | internal/server/groups.go:151-185 | Every expansion meets what committing needs: distinct ids and sockets, and kept ids keep port and protocol. |
| GroupInvariant.SwitchIsReady | internal/server/groups.go:189-200 | After the conflict checks the group switch starts from the state its safety proof assumes. |
| GroupInvariant.SwapMembers | internal/server/groups.go:201-220 | After a swap the store holds the forwards of other groups and exactly the new members. |
| GroupInvariant.OthersKeepTheirPlace | internal/server/groups.go:207-208 | The members of every other group are the same list as before. |
| GroupInvariant.SwapKeepsStoreInv | internal/server/groups.go:201-220 | Swapping a group keeps all clauses of the store invariant. |
| GroupInvariant.CommitKeepsInv | internal/server/groups.go:187-221 | A commit keeps store and listeners consistent whether it succeeds or fails, and a failure leaves the stored list alone. |
| Api.ExpandIsNotEmpty | internal/server/groups.go:189-190 | A successful expansion has 1 to 64 members, so the first one exists. |
| ApiInvariant.CreateForwardKeepsInv | internal/server/api.go:717-768 | Creating a forward keeps the invariant; a refusal changes nothing, the listeners included. |
| ApiInvariant.UpdateForwardKeepsInv | internal/server/api.go:786-839 | Editing a forward keeps the invariant; a refusal changes nothing. |
| ApiInvariant.DeleteForwardKeepsInv | internal/server/api.go:841-868 | Deleting a forward keeps the invariant. |
| ApiInvariant.CreateGroupKeepsInv | internal/server/groups.go:254-284 | Creating a group keeps the invariant; a refusal leaves the store and all listeners as they were. |
| ApiInvariant.UpdateGroupKeepsInv | internal/server/groups.go:286-328 | Editing a group keeps the invariant; a refusal leaves the store alone, and the listeners too when the group was running (`RollbackRun.RefusedEdit` has the exact condition). |
| ApiInvariant.DeleteGroupKeepsInv | internal/server/groups.go:330-358 | Deleting a group keeps the invariant. |
| ApiInvariant.DeleteClientKeepsInv | internal/server/api.go:506-547 | Deleting a client with all its forwards keeps the invariant. |
| ApiInvariant.StartKeepsInv | internal/server/tunnel.go:406-433 | Starting the process on a stored document establishes the invariant, whatever other processes hold. |
| ApiInvariant.FailedCommitOfRunningGroup | internal/server/groups.go:187-200 | A refused commit of a running group leaves every listener as it was. |
| ApiInvariant.EveryReachableStateIsSound | internal/server/api.go:717-868 | After every prefix of every sequence of requests, refused ones included: ids are unique, no two forwards share a port and transport, none uses a reserved port, clients exist, groups are coherent and have at most 64 members, and the listeners agree with the store. |
| ApiEffects.EveryRunnerRelaysItsForward | internal/server/tunnel.go:321-349 | In every reachable state each runner belongs to a stored enabled forward, relays for its client from its port and protocol to its target host and port, and holds exactly the sockets on which that forward listens. |
| ApiEffects.CreateForwardEffect | internal/server/api.go:673-768 | From the fields of the request: the new forward has each given value, trimmed or in small letters where it is text, and each stated default, the ports from one another and the name from protocol and port; it is refused for its form, a conflict or another process, in the handler's order, with nothing changed; otherwise it is stored last and running, other listeners untouched. |
| ApiEffects.UpdateForwardEffect | internal/server/api.go:673-839 | The same for an edit: a given field has the given value, an absent one the old value, id, group and creation time stay; it may not move one of several group members to another client; the element is replaced in place. |
| Requests.SensibleMeaning | internal/store/store.go:386-421 | The field check of a forward, in terms of the characters of its texts and the literal bounds. |
| Requests.CompeteMeaning | internal/store/store.go:425-435 | Two forwards conflict if and only if there is a port and a transport on which both listen. |
| Requests.TakenMeaning | internal/server/tunnel.go:481-498 | An enabled forward is blocked by another process if and only if that holds a socket on which it would listen. |
| Requests.EditMeaning | internal/server/api.go:673-712 | What an edit makes of a forward, field by field from the request. |
| Requests.CreateMeaning | internal/server/api.go:673-749 | What a create makes of a request, field by field, defaults included. |
| Requests.GroupEditMeaning | internal/server/groups.go:110-135 | What a group request makes of the group's fields, one by one. |
| ApiEffects.DeleteForwardEffect | internal/server/api.go:841-868 | Exactly the one element and its runner go, and exactly its sockets are freed. |
| ApiEffects.UnknownIdIsNotFound | internal/server/api.go:796-799 | Not found is the answer if and only if the id is not stored, and then nothing changes; a deletion is refused for no other reason. |
| ApiEffects.CommitEffect | internal/server/groups.go:187-221 | A commit is accepted if and only if the client exists, no other group conflicts and no other process holds a needed socket; then the group is exactly next and runs as recorded. |
| GroupEffects.CreateGroupEffect | internal/server/groups.go:254-284 | From the fields of the request and the entries its ports read as: refused, in this order, for an unreadable spec, a bad name or host, a reserved port, an unknown client, a conflict with another group, another process; otherwise the stored list is the old one plus one member per entry, each with group, client, name, host, enabled flag, port, protocol and the entry's target, a new id and the creation time, and each is served; a refusal stores nothing. |
| GroupEffects.UpdateGroupEffect | internal/server/groups.go:286-328 | The same for an edit, which starts from the group's own fields and may give other ports: a member on an old port and protocol keeps id and creation time, the others are new, dropped ones are neither stored nor running, and other groups are untouched. |
| GroupEffects.PortsFreeEditEffect | internal/server/groups.go:286-328 | An accepted edit without ports changes the members where they stand: each field of each stored forward afterwards is written out. |
| GroupEffects.PutEffect | internal/server/groups.go:151-221 | Expanding and committing together, for any group whose members are listed. |
| GroupEffects.CurrentMeaning | internal/server/groups.go:294-306 | The fields a group has: client, name and host of its first member by port and protocol text, enabled when all are, and its ports printed. |
| ApiEffects.DeleteGroupEffect | internal/server/groups.go:330-358 | Deleting a group answers not found exactly when it has no members; then none of it is stored or running, and all else is. |
| ApiEffects.DeleteClientEffect | internal/server/api.go:506-547 | Not found exactly when the client is not stored; otherwise neither it nor any of its forwards is stored or running, and all others are as before. |
| GroupPatch.OwnSpecReadsBack | internal/server/groups.go:300-306 | Reading the spec printed for a stored group never fails and gives its members' entries in order. |
| GroupPatch.PatchIsIdentityOnMembers | internal/server/groups.go:294-314 | An edit without ports expands if and only if the protocol it names is known and its name and host are valid, and every member keeps id, creation time, port, protocol and target port. |
| GroupPatch.EmptyPatchExpands | internal/server/groups.go:294-314 | An edit that mentions nothing is never refused by the expansion. |
| GroupPatch.PatchKeepsPlaces | internal/server/groups.go:201-220 | In the stored list such an edit changes the members where they stand and nothing else. |
| ServerObject.ForwardList.Retain | internal/server/api.go:850-856 | Compacting the list inside its own buffer keeps exactly the wanted forwards, in order. |
| ServerObject.ForwardList.ReplaceMembers | internal/server/groups.go:205-213 | The aliased loop that writes behind its own read position computes Replace. |
| ServerObject.ForwardList.AppendNew | internal/server/groups.go:214-218 | Appends, in order, exactly what the index still holds. |
| ServerObject.ForwardList.SwapMembers | internal/server/groups.go:201-220 | Compaction and appending compute Swap. |
| ServerObject.ForwardList.HasPortConflict | internal/store/store.go:425-435 | Found exactly when another stored forward shares port and transport. |
| ServerObject.ForwardList.HasGroupConflict | internal/server/groups.go:137-149 | The same, ignoring the members of one group. |
| ServerObject.ForwardList.Find | internal/store/store.go:307-314 | The position of the first forward with the id, or the length. |
| ServerObject.IndexByKey | internal/server/groups.go:164-167 | The index finds the last old member with a port and protocol. |
| ServerObject.BuildMembers | internal/server/groups.go:168-184 | The member loop with its early returns computes ExpandFrom. |
| ServerObject.BuildGroup | internal/server/groups.go:151-185 | Parsing, naming and expanding compute ExpandGroup. |
| ServerObject.SpecOf | internal/store/portspec.go:139-146 | Collecting the entries and printing them computes GroupSpec. |
| ServerObject.Server.CreateForward | internal/server/api.go:717-768 | The handler's whole effect on store and listeners is the transition Api.CreateForward. |
| ServerObject.Server.UpdateForward | internal/server/api.go:786-839 | The handler's whole effect is Api.UpdateForward. |
| ServerObject.Server.DeleteForward | internal/server/api.go:841-868 | The handler's whole effect is Api.DeleteForward. |
| ServerObject.Server.Commit | internal/server/groups.go:187-221 | The checks, the switch and the swap in place are CommitGroup. |
| ServerObject.Server.CreateGroup | internal/server/groups.go:254-284 | The handler's whole effect is Api.CreateGroup. |
| ServerObject.Server.UpdateGroup | internal/server/groups.go:286-328 | The handler's whole effect is Api.UpdateGroup. |
| ServerObject.Server.DeleteGroup | internal/server/groups.go:330-358 | The handler's whole effect is Api.DeleteGroup. |
| ServerObject.Server.DeleteClient | internal/server/api.go:506-547 | The handler's whole effect is Api.DeleteClient. |
| ServerObject.Server.StartListeners | internal/server/tunnel.go:407-433 | Reconciling with the stored list is SyncAll on it. |
| HiddenRunners.HideApply | internal/server/tunnel.go:319-349 | Applying a forward does the same whether the runners of other ids count as runners or as other processes. |
| HiddenRunners.HideApplyGroup | internal/server/tunnel.go:351-394 | So does switching a group, its rollback included. |
| LateRemoval.LeaveKeepsLateInv | internal/server/api.go:848-863 | After the first half of a deletion the store is sound and every runner serves a stored forward or is about to be stopped. |
| LateRemoval.HalvesAreDelete | internal/server/api.go:841-868 | Both halves of a deletion with nothing in between are the deletion as a whole. |
| LateRemoval.ServesAsHidden | internal/server/api.go:717-868 | Every request that comes in between has the outcome of the state in which the runners still to be stopped are other processes'. |
| LateRemoval.EveryMomentIsSound | internal/server/api.go:717-868 | Under every interleaving of requests with second halves of deletions the store is sound and every runner serves a stored forward or is about to be stopped. |
| LateRemoval.CreateInBetween | internal/server/api.go:717-768 | In between, a create is accepted if and only if it is storable, conflicts with nothing stored, and neither another process nor a runner still to be stopped is in its way. |
| LateRemoval.ForeignWhenHidden | internal/server/tunnel.go:481-498 | What is in the way then is another process, or a runner still to be stopped on a needed port. |
| LateRemoval.RefusedInBetween | internal/server/api.go:863 | A create on the port of a forward whose runner is still to be stopped is refused. |
| Rules.TagsAreDistinct | internal/firewall/firewall.go:196-206 | The two own tags and all six-byte ids in hexadecimal are pairwise different texts. |
| Rules.HexDigits | internal/store/store.go:209-217 | The text of a forward id, its firewall tag, spells the number in base 16, digit by digit in small letters. |
| FirewallPlan.DesiredTagsIdentify | internal/firewall/firewall.go:196-206 | Among the rules of a list, comparing tags is comparing owners, so the backends may compare owners. |
| FirewallPlan.ComputeDesired | internal/server/firewall.go:104-128 | The loop over the stored forwards computes Desired. |
| FirewallPlan.DesiredIsExact | internal/server/firewall.go:104-128 | The list holds the two own ports and each enabled forward's port per transport, and nothing else. |
| FirewallPlan.ForwardRulesAreDistinct | internal/server/firewall.go:112-122 | In a sound store the forwards' rules have distinct keys. |
| Screening.Screen | internal/agent/agent.go:204-223 | The agent's screening accepts exactly lists of at most 2000 rules, with good tags, ports and protocols and no port and protocol twice, for a mode other than off; the mode is checked first, then the number, then rule by rule, and the first fault is reported. |
| Screening.RawKeyIdentifies | internal/firewall/firewall.go:75-82 | The texts by which the agent tells rules apart are equal if and only if port and protocol are. |
| Screening.AgentAcceptsDesired | internal/agent/agent.go:211-223 | In every sound state the agent accepts the server's list, as it is sent and up to 2000 rules, if and only if the server's own two ports are valid and differ. |
| FirewallPlan.DesiredIsFine | internal/server/firewall.go:104-128 | In a sound state all rules of the list are valid with distinct keys if and only if the server's own two ports are valid and differ. |
| FirewallPlan.DesiredSize | internal/server/firewall.go:112-122 | There are at most two rules per stored forward besides the own ones. |
| Reconcile.SortedRulesAreTheSame | internal/firewall/firewall.go:207-217 | Sorting a copy keeps the rules and the distinctness of their keys. |
| Reconcile.SortedRulesAreInOrder | internal/firewall/firewall.go:207-217 | The sorted list goes by port, and on one port tcp comes before udp. |
| EndToEnd.ConvergedExposes | internal/server/firewall.go:104-128 | A place that meets the common specification for the server's list has open, under the agent's tags, exactly the own ports and the enabled forwards' ports, as far as the operator does not allow them. |
| EndToEnd.ReachableListIsAccepted | internal/agent/agent.go:211-223 | In every reachable state, with proper own ports and up to 2000 rules, the agent takes the list. |
| EndToEnd.PublishWithUfw | internal/agent/agent.go:211-233 | From any reachable state, without failing commands, an active ufw exposes exactly what is due. |
| EndToEnd.PublishWithNftables | internal/agent/agent.go:211-233 | The same for nftables in every input chain. |
| EndToEnd.PublishWithIptables | internal/agent/agent.go:211-233 | The same for every iptables chain that had at most one tag on each port not due. |
| EndToEnd.PublishWithFirewalld | internal/agent/agent.go:211-233 | The same for firewalld by the ledger; really, everything due is open, and the agent's own ports are all due if and only if the lost ones were. |
| UfwBackend.Ufw.Ensure | internal/firewall/ufw.go:79-90 | One wanted rule, whatever fails: which of the two commands are issued, what the slot of its key then holds, and what is reported; other slots are untouched. |
| UfwBackend.Ufw.RemoveStale | internal/firewall/ufw.go:92-99 | For each listed tag on an unwanted key one deletion is issued, whether or not another one failed, and the slot is empty exactly when it worked. |
| UfwBackend.Ufw.Sync | internal/firewall/ufw.go:63-101 | There is no report exactly when the listing fails. Under any later failures exactly the commands that the listing calls for are issued, each once, and every slot and the report follow from which of them worked; the report has exactly the wanted keys and is true, and an active firewall keeps every rule of the operator; without failures an active firewall converges, an inactive one if and only if no old tag is unwanted, and the latter keeps all operator rules if and only if none is on a wanted key; a converged active one gets no command that changes it. |
| UfwBackend.Ufw.SettledIsConverged | internal/firewall/ufw.go:63-101 | The backend's own end state is the common specification, in both directions. |
| UfwBackend.SyncedIsTrue | internal/firewall/ufw.go:63-101 | From the commands and which of them worked: the report has exactly the wanted keys and is true of the firewall. |
| UfwBackend.SyncTwice | internal/firewall/ufw.go:63-101 | Two syncs without failures converge, and the second changes nothing. |
| FirewalldBackend.Firewalld.AddMissing | internal/firewall/firewalld.go:91-109 | The first loop, whatever fails: each wanted port that is closed is opened by one command and entered if that worked, one of ours is entered under its present owner, an operator's is left alone, and each is reported accordingly. |
| FirewalldBackend.Firewalld.RemoveStale | internal/firewall/firewalld.go:110-119 | The second loop, whatever fails: one command for each unwanted port of the ledger, which is closed and forgotten exactly when that worked. |
| FirewalldBackend.SyncedAchieves | internal/firewall/firewalld.go:91-119 | When all commands work, what is wanted is open, nothing is reported failed, and the new ledger lists no unwanted port. |
| FirewalldBackend.SyncOutcome | internal/firewall/firewalld.go:91-119 | Both loops together leave the ports outside the ledger the same and the report true. |
| FirewalldBackend.ReallyOpened | internal/firewall/firewalld.go:91-119 | What becomes of the agent's and of the operator's ports in both loops, whatever fails, in terms of the ledger to be written. |
| FirewalldBackend.Firewalld.Sync | internal/firewall/firewalld.go:75-124 | There is no report exactly when firewalld does not run, or ports or ledger cannot be read. Otherwise exactly the commands that ports and ledger call for are issued, each once, and ports, report and written ledger follow from which of them worked. Against the ports really opened by whom, under any failures: a port of the agent gets lost to the ledger if and only if it was newly opened and the ledger was not written; a port of the operator is closed only if the ledger claims it and it is not wanted, and none is touched if the ledger is honest. With every command succeeding: everything wanted is open; everything the agent opened is wanted if and only if what had been lost before is; the operator's ports stay open if and only if those the ledger claims are wanted. A settled zone is not changed. By the ledger, once written: the report is true and the operator's ports are the same. |
| FirewalldBackend.SyncTwice | internal/firewall/firewalld.go:75-124 | Two syncs without failures converge by the ledger, in reality if and only if no unwanted port had been lost, and the second changes nothing. |
| FirewalldBackend.FailedSaveRun | internal/firewall/firewalld.go:103-121 | A run in which a port is opened, the ledger cannot be written, and a later sync without failures leaves the port open though nothing is wanted. |
| FirewalldBackend.ForgottenClosingRun | internal/firewall/firewalld.go:110-122 | A run in which a port is closed, the ledger cannot be written, the operator opens the port, and a later sync in which everything succeeds closes it. |
| IptablesChain.TaggedInIsLast | internal/firewall/iptables.go:38-63 | What is read for a key is the last of its tags, if it has any. |
| IptablesChain.TagsAfterDelete | internal/firewall/iptables.go:96-105 | A deletion takes the first rule with the tag off its key and touches no other key. |
| IptablesChain.UnwantedAfter | internal/firewall/iptables.go:96-105 | n passes without failures take n tags off an unwanted key, or all it has. |
| IptablesChain.ConvergedAfter | internal/firewall/iptables.go:96-123 | After n passes without failures a chain meets the common specification if and only if no unwanted key began with more than n tags. |
| IptablesChain.QuietAfter | internal/firewall/iptables.go:96-123 | After as many passes as the most tagged key has tags, a further pass changes nothing. |
| IptablesChain.QuietAfterPass | internal/firewall/iptables.go:96-123 | After one pass a further one changes nothing if and only if a stated condition on the tags of each key held before. |
| IptablesChain.FailedDeletionDoubles | internal/firewall/iptables.go:101-117 | From one tag on a key a pass leaves two if and only if its deletion failed and its insertion did not. |
| IptablesBackend.Tool.RemoveStale | internal/firewall/iptables.go:96-105 | On every key whose last tag is not the wanted one exactly one command is issued, and one tag goes where it works; the operator's rules keep their order. |
| IptablesBackend.Tool.AddMissing | internal/firewall/iptables.go:106-123 | On every wanted key that was not listed exactly one command is issued, and one tag is put in front where it works; each rule's state is merged with the earlier tools'. |
| IptablesBackend.Tool.SyncChain | internal/firewall/iptables.go:92-123 | Under any failures both loops change the tags of every key as stated by Pass; a command is issued if and only if the chain was not quiet. |
| IptablesBackend.MergedReport | internal/firewall/iptables.go:106-123 | A merged report is true of the new chain and of every chain it was true of before. |
| IptablesBackend.Iptables.Sync | internal/firewall/iptables.go:69-126 | There is no report exactly when iptables itself cannot be listed, and another tool is left out exactly when it cannot. Under any failures the tags of every inspected chain and the state of every rule follow, key by key, from which deletions and insertions failed; operator rules of every tool keep their order and the report is true of every inspected chain; a command that changes something is issued if and only if an inspected chain was not quiet; without failures each chain converges if and only if it had at most one tag on each unwanted key. |
| IptablesBackend.SyncRepeatedly | internal/firewall/iptables.go:69-126 | n syncs without failures converge a chain if and only if it had at most n tags on each unwanted key, and with at most n tags on any key nothing is left to do. |
| IptablesBackend.SyncTwice | internal/firewall/iptables.go:69-126 | After a sync without failures a second one changes nothing if and only if a stated condition on the tags of each key held before. |
| IptablesBackend.FailedDeletionRun | internal/firewall/iptables.go:96-117 | A run from one tag in which a deletion fails and a later sync without failures leaves the port open though nothing is wanted. |
| NftablesBackend.Nftables.RemoveStale | internal/firewall/nftables.go:195-212 | One deletion is issued for each stale or mismatched tagged rule, wherever it is, whether or not another one failed, and exactly those go for which it worked. |
| NftablesBackend.Nftables.EnsureChains | internal/firewall/nftables.go:214-238 | One wanted rule, whatever fails: one insertion into each input chain that has neither it nor an operator's rule for its key; failed means that one of them failed, existing that the operator's is in all chains. |
| NftablesBackend.Nftables.Sync | internal/firewall/nftables.go:151-240 | There is no report exactly when the ruleset cannot be listed. Under any later failures exactly the commands that the listing calls for are issued, each once, and ruleset and report follow from which of them worked; operator rules stay where they are and the report is true of every input chain; without failures all input chains settle; a settled ruleset is not changed; without input chains nothing is touched. |
| NftablesBackend.SyncedIsTrue | internal/firewall/nftables.go:151-240 | From the commands and which of them worked: the report is true of each input chain. |
| NftablesBackend.SyncedAchieves | internal/firewall/nftables.go:151-240 | When all commands work, every input chain settles and nothing is reported failed. |
| NftablesBackend.SettledConverges | internal/firewall/nftables.go:151-240 | A settled ruleset meets the common specification in each input chain. |
| NftablesBackend.SyncTwice | internal/firewall/nftables.go:151-240 | Two syncs without failures converge every input chain, and the second changes nothing. |
| UpdaterObject.TagMeaning | internal/agent/update.go:62-63 | A release tag is a v and three numbers with dots between them. |
| UpdaterObject.FetchMeaning | internal/agent/update.go:321-351 | A binary is fetched if and only if both downloads are there, the checksum file lists the tarball of this platform with the hash the tarball has, and the binary is what the tarball holds. |
| UpdaterObject.Updater.Start | internal/agent/update.go:143-165 | Accepted exactly for a release tag, a configured agent and no update in progress; a refusal changes nothing. |
| UpdaterObject.Updater.Prepare | internal/agent/update.go:207-223 | Downloads, checks the hash, writes, and runs the new binary for its version; the installed one is not touched. Ready exactly when the release is as FetchMeaning says, both steps work and the version is right; otherwise the files are as stated and the failure is recorded. |
| UpdaterObject.Updater.Swap | internal/agent/update.go:225-237 | After every step the old binary is installed or kept aside; exactly which steps must work for the verified one to be installed, and the files in either case. |
| UpdaterObject.Updater.Rollback | internal/agent/update.go:262-275 | Ends in the one verdict, with the files and the started server, that the failing steps leave: rolled back exactly when the old binary could be moved back and the server restarted. |
| UpdaterObject.Updater.Install | internal/agent/update.go:225-260 | Swapping, restarting, waiting and restarting the agent end as the decision table over the failing steps and the health answers says. |
| UpdaterObject.Updater.Run | internal/agent/update.go:192-275 | For every set of failing steps the run ends exactly as a table over them states: verdict, recorded states, files, started server, and whether the agent leaves. After every step the old binary is at hand, and nothing is installed but a binary from a tarball whose hash the checksum file lists and which reports the wanted version. |
| UpdaterObject.EndingConcludes | internal/agent/update.go:192-275 | Each entry of that table is one true verdict: done means installed, verified, old one kept, server started from it and healthy; rolled back means the old one is installed and was started; failed says what is left. |
| UpdaterObject.SmoothEnding | internal/agent/update.go:192-275 | With no failing step verdict, files and running server depend on the reported version and the health answers alone. |
| ClientPushes.PendingMoves | internal/server/update.go:103-231 | Section by section, what a pending record becomes is a table: done if and only if a reconnect shows the wanted version, failed exactly in the listed cases, three minutes without news among them, and replaced if and only if a push is written. |
| ClientPushes.SettledStays | internal/server/update.go:103-231 | A settled record changes only by a written push, or by expiry a day after it was done. |
| ClientPushes.AutomaticPushesAreSpaced | internal/server/update.go:205-231 | Under every interleaving, successive automatic pushes to a client are an hour apart or had a Done in between, if the second one's handler settled the record after the first push and no manual push came between this and its look at the record. |
| ClientPushes.SpacingIsNonOverlap | internal/server/update.go:205-231 | For a handler that takes less than an hour, undisturbed and without a Done, the hour is kept if and only if no other automatic push is written while it is at work. |
| ClientPushes.PendingIsReplacedInARace | internal/server/update.go:128-145 | A push replaces a pending record only when another push was written since its handler last checked. |
| ClientPushes.UndisturbedIsNoteReconnect | internal/server/update.go:205-231 | The sections of one handler with nothing in between are the handler as a whole. |
| ClientPushes.OverlappingReconnectsPushTwice | internal/server/update.go:205-231 | A run of two overlapping reconnects that push automatically at the same time, the second replacing a pending record. |
| ClientPushes.DisturbedReconnectPushesEarly | internal/server/update.go:205-231 | A run in which a manual push between a reconnect's settling and its look at the record makes an automatic push come early. |
| ClientUpdates.WhenPushed | internal/server/update.go:103-152 | A push is written if and only if the client is connected with another version, accepts updates, there is a binary that can be read, and no push is pending that is at most three minutes old; what the record is in either case. |
| ClientUpdates.WhenPushedAutomatically | internal/server/update.go:205-231 | An undisturbed reconnect pushes by itself if and only if updates are automatic, the server is no development build, the client can be updated, this reconnect did not show a failed update, and none failed within the last hour. |
| ClientUpdates.UpdateTable.Status | internal/server/update.go:156-179 | Reading a record expires it in place; other clients' records are untouched. |
| ClientUpdates.UpdateTable.Push | internal/server/update.go:128-152 | The push changes this client's record as PushUpdate says, and no other. |
| ClientUpdates.UpdateTable.ClientMessage | internal/server/update.go:182-192 | Only a pending record is touched, and a report of failure settles it. |
| ClientUpdates.UpdateTable.Reconnected | internal/server/update.go:205-231 | Settling and pushing, with availability read from the client's current session, change this client's record as NoteReconnect says, and no other. |
| Sessions.EveryInterleavingShowsNewest | internal/server/tunnel.go:205-254 | Under every interleaving a client is shown through its newest session exactly until that session is dropped or disconnected, and every open connection is shown or about to be closed. |
| Sessions.LateDropIsHarmless | internal/server/tunnel.go:248-254 | Dropping a session that was replaced does not touch its successor. |
| SessionClients.ShownSessionsBelongToStoredClients | internal/server/tunnel.go:186-213 | Under every interleaving of connections, deletions and disconnects, except between a deletion and its disconnect, a shown session has a stored client if and only if it was not entered after the client had left the store. |
| SessionClients.DeletedClientStaysShown | internal/server/api.go:510-541 | A run in which a client is deleted and disconnected between a connection's look-up and its entry, and the session stays shown. |
| Sessions.SessionTable.Enter | internal/server/tunnel.go:206-213 | A new session takes the client's place, and the one it replaces is its newest so far and is closed. |
| Sessions.SessionTable.DropSession | internal/server/tunnel.go:248-254 | Only the session itself leaves the table. |
| Sessions.SessionTable.DisconnectClient | internal/server/tunnel.go:289-298 | The client has no session afterwards, and the one it had is about to be closed. |
| Frames.FrameFormat | internal/protocol/protocol.go:137-147 | A frame is the length of the datagram in two bytes, the high one first, and the datagram. |
| Frames.FrameMeaning | internal/protocol/protocol.go:150-163 | What is read is a datagram whose frame the stream begins with, if and only if the buffer has room for it. |
| Frames.StopMeaning | internal/protocol/protocol.go:150-163 | Exactly when reading stops for want of room, at a clean end, or at a cut. |
| Frames.RoundTrip | internal/protocol/protocol.go:135-163 | The frames of any sequence of datagrams read back as that sequence, then a clean end. |
| Frames.Truncated | internal/protocol/protocol.go:149-163 | A stream cut at any byte yields exactly its complete frames and then an error, clean only at a frame boundary or right behind a header. |
| Frames.CompleteIsLargest | internal/protocol/protocol.go:149-163 | The number of frames delivered is the largest number that fits into the cut stream. |
| Frames.WriteFrame | internal/protocol/protocol.go:137-147 | Writes the encoding, or refuses an oversized datagram and writes nothing. |
| Frames.Source.ReadFull | internal/protocol/protocol.go:152-162 | However the stream is chunked, delivers the next n bytes or reports a clean or an unexpected end. |
| Frames.Source.ReadHeader | internal/protocol/protocol.go:151-155 | Reads the two length bytes, or reports how the stream ended. |
| Frames.Source.ReadFrame | internal/protocol/protocol.go:150-163 | Reading into the caller's buffer computes the next frame, or its reason for stopping. |
| Frames.ReadStream | internal/protocol/protocol.go:150-163 | What a stream delivers depends on its bytes alone, not on how they arrive. |

## Left out

- Sockets, TLS, stream multiplexing, HTTP routing, JSON, certificates, passwords, cookies, logging: library calls; only the state they guard is modelled.
- `saveLocked` failing after a request has changed the document in memory (`internal/store/store.go:197-204`): persistence is taken to succeed.
- Requests are atomic, as the store lock makes them; `LateRemoval` alone takes apart the deletions, whose runners are stopped after the lock is released.
- `NewID` collisions: `Api.Possible` and `Groups.FreshIds` say that new ids are unused.
- Identifiers are numbers, whose hexadecimal text matters only for firewall tags; request ids that match nothing stand for any unknown text.
- The tunnel and admin ports are constants of a run.
- Client records beyond their ids (names, tokens, last-seen data), and the forward lists pushed to clients.
- Texts of error messages: the parser's reasons are an enumeration, other refusals are their class (validation, conflict, not found).
- Characters stand for bytes: names are measured in characters, and only ASCII white space and letter case are modelled; no other character lowers to one that the entry pattern mentions.
- Runner objects are values: the copy of the forward they serve is a field of the table.
- UDP peers and their reaper, relaying, byte counters, session streams: timing-dependent, with no clean guarantee.
- Parsing the output of ufw, iptables, nft and firewall-cmd, and choosing a backend: the model starts from the parsed state.
- FirewalldBackend.Firewalld.AddPort: runtime and permanent configuration change as one step, here and in RemovePort; a half-applied port is not modelled.
- FirewalldBackend.Firewalld.Sync: without the ledger written only openness is claimed of the report, not ownership; the code reports an error in that case.
- NftablesBackend.Nftables.Sync: rules are a table by chain and handle; their order within a chain is not modelled.
- The aggregated firewall state of forwards and groups, and the timed retries of the firewall manager: easy summaries of the modelled report.
- Downloading, the checksum file's format, unpacking and running the new binary are parameters of a run; the persisted copy of the update record is left out.
- UpdaterObject.Updater.Run: one run that starts with a binary installed; a later run after both renames failed is not covered, because nothing is installed then.
- ClientPushes.AutomaticPushesAreSpaced: a handler's reading of the clock right before it takes the lock counts as part of the locked section.
- Release checks, version comparison, login limits, status pages, installation scripts and configuration: easy members or input and output.
