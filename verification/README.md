# CloudRoof control plane: a verified model

CloudRoof is a Go control plane. A SQL store holds machines, host keys, accounts and
audit rows; an SSH connection pool acts as a cache of that store; background loops
reconcile both. This project models the parts whose guarantees no single function
shows, and proves them.

| part of the system | files |
|---|---|
| the fleet: tables, host-key policy, pool, every handler as one step | `FleetModel`, `FleetServer` (the handlers as methods of a class), `FleetInvariants`, `HostKeys`, `DialTargets`, `HandlerEffects`, `SshErrors`, `CloudSync`, `Discovery`, `AddressFollowing` |
| the broker's pool under concurrency | `BrokerModel` (threads with program counters), `BrokerOwnership`, `BrokerClose`, `BrokerRuns`, `BrokerPool` (the critical sections as methods) |
| command rendering against a POSIX tokeniser | `Substitution`, `Render`, `ParamLimits`, `RenderOrder`, `RenderFaults`, `ShellWords`, `ShellLaws`, `RenderMeaning`, `RenderSafety`, `SavedActions`, `Catalog` |
| the engine: gate, sudo, execution, audit | `Engine`, `Audit`, `RunRecords` |
| bulk runs and the semaphore | `Fanout`, `Bulk` |
| the reachability poller | `Backoff`, `Poller`, `PollerSpacing`, `PollerDue`, `SweepFanout` |
| captured output | `Utf8`, `Capture` |
| migrations | `Migrate`, `ShippedSchema`, `SqlText` |
| codecs | `Text`, `Tags`, `Numbers`, `Overview`, `OverviewText` |

`dafny verify dfyconfig.toml` checks everything. State machines are functions on
values; the classes hold the same state in fields, change it the way the source does
(assignments, loops, early returns), and each method's contract ties it to its
function. Dials, probes, clocks, dial outcomes, provider listings, map iteration
order and thread schedules are parameters, so every theorem holds for all of them.

Standards the model follows: sections 2.2.1 to 2.2.3 and 2.3 of the POSIX.1-2017 Shell
Command Language (`ShellWords`) and sections 3 and 4 of RFC 3629 (`Utf8`).

## What turned out not to hold as promised

Each of these is a lemma with a concrete input beside the exact condition under which
the code does meet the property.

- A value can change what a command means. Of the actions whose placeholders stand, each
  declared once, in the unquoted text of a complete template, exactly those whose
  parameters but the last all have patterns are read by a shell as their template with
  literal values under every accepted request (`RenderSafety.KeepsMeaningIff`). A saved
  action has no patterns, so it must have at most one parameter
  (`SavedActions.SavedActionIff`). In `{{a}}{{b}}` with a = `{{b}}` and b = `;` the
  semicolon becomes an operator (`RenderSafety.ValueBecomesOperator`). Built-in actions
  always keep their meaning (`Catalog.BuiltinsMeanTheirTemplates`).
- The reason is that rendering substitutes one parameter after the other. For every
  accepted request the result is the simultaneous substitution exactly when no value
  contains the placeholder of a later parameter
  (`RenderOrder.SequentialIsSimultaneousIff`, `RenderOrder.LaterPlaceholderExample`).
- A probe reports "key changed" also when no key was shown: a handshake error that
  mentions a host key is classified that way, and then there may be nothing to trust
  (`SshErrors.ProbeVerdictOfText`, `SshErrors.NoCommonAlgorithm`).
- `ssh_host` follows the public address after every event of a run exactly when the
  reports never go from an address to none (`AddressFollowing.TracksOverRunsIff`,
  `AddressFollowing.BlankReportStopsFollowing`).
- `Close` closes everything exactly when no `Get` is under way that could still pool a
  client (`BrokerClose.CloseSufficesIff`, `BrokerClose.OverlappingGetSurvives`).
- Tags survive storage exactly when none has a comma or outer blanks or is empty
  (`Tags.TagsRoundTripIff`, `Tags.CommaMakesTwoTags`). `cleanTags` trims a new group's
  tags but keeps commas, so such a tag reads back as two.
- Disk percentages are the floor of the exact ones exactly while `100 * used` fits 64
  bits (`Overview.PercentIsFloorIff`, `OverviewText.FullDiskMisreported`).

Three further conditions concern single parts of the program rather than the whole.
The store alone is idempotent under a repeated sync exactly when newly discovered
instances have a power state (`CloudSync.RepeatedSyncIff`); every adapter reports one,
so syncs are (`CloudSync.SyncIsIdempotent`). The output buffer alone sets its
`truncated` flag without a loss exactly when an empty write comes last and finds it just
full (`Capture.FalseFlagIff`, `Capture.EmptyWriteSetsFlag`); the session's copy loop
writes no empty chunks, so the flag means loss (`Capture.FlagMeansDropped`). And the
migration splitter is right exactly for texts whose literals hold neither "--" nor ";"
(`SqlText.StatementsAreRealIff`).

## Model

| member | source | states |
|---|---|---|
| FleetInvariants.StepKeeps | internal/api/handlers.go:119-244 | Every handler, probe, action, session, poll, power call, trust, deletion, sync (also one that stops part-way) and eviction keeps the whole invariant: pool coherent with store and pins, key records, linked identity, references, ports, ids from counters. |
| FleetInvariants.ReachableStates | internal/api/server.go:149-215 | The invariant holds after every sequence of admissible steps from the empty store. |
| HostKeys.PoolInReachableStates | internal/api/server.go:149-189 | In every reachable state a pooled connection belongs to an existing machine, was dialled with what the machine resolves to now (host, port, user, credential), and presented the fingerprint pinned now. |
| HostKeys.RecordInReachableStates | internal/api/server.go:194-215 | In every reachable state the seen key is the last presented key when that differs from the pin, and empty otherwise; it never equals the pin. |
| DialTargets.PooledTargets | internal/api/server.go:149-181 | In every reachable state a pooled connection goes to its machine's row as it is now: the host column without its brackets, the port, the user and a stored credential, column by column. |
| DialTargets.TargetOfRow | internal/api/server.go:149-181 | A target is resolved exactly when the row's credential is stored, and then it is the row's own address, port (22 for 0), user and credential. |
| DialTargets.AttemptTargets | internal/actions/engine.go:180-189 | Every execution of the engine, over every sequence of requests, goes to the requested machine as its row was then, column by column. |
| HostKeys.TrustIff | internal/api/handlers.go:508-553 | Trusting installs the last presented key and drops the connection exactly when a key is pending and the request echoes it; otherwise nothing changes. |
| HostKeys.PinChangesOnlyByTrust | internal/store/queries.go:520-561 | One step changes or removes an existing pin only by trusting the pending key, by moving the machine to another host or port, or by deleting it. |
| HostKeys.ProbeVerdict | internal/api/handlers.go:208-280 | A probe reports "ok" exactly when a fresh connection is pooled afterwards, and "key changed" exactly when the host just showed a key other than the pinned one, which is then on record, or an error outside the policy was classified as a mismatch. |
| SshErrors.OutsidePolicyIff | internal/sshx/broker.go:285-318 | An error outside the policy is classified as a mismatch exactly when a handshake in which the policy refused no key ends with a text that mentions "host key" and none of the earlier cases. |
| SshErrors.ProbeVerdictOfText | internal/sshx/broker.go:285-318 | From the error's own text to the verdict: "key changed" exactly when the host just showed another key, or its handshake broke with such a text. |
| SshErrors.VerdictOfText | internal/sshx/broker.go:285-318 | Every verdict a probe leaves, from the text of the dial's or handshake's error and the session. |
| SshErrors.NoCommonAlgorithm | internal/sshx/broker.go:304-318 | For one, a handshake that fails over host-key algorithms: "key changed" with no key on record, and nothing a trust request could echo. |
| HostKeys.OthersStayConnected | internal/api/handlers.go:165-204 | A step leaves the pooled connection of every machine it does not concern exactly as it was. |
| HandlerEffects.CreateColumns | internal/api/handlers.go:102-129 | Creating a machine is refused and changes nothing, or adds one row under the next id that says what the request said, trimmed, and nothing of the cloud; what is refused is stated on the request and the tables. |
| HandlerEffects.EditColumns | internal/api/handlers.go:131-189 | An accepted edit stores the request's columns and keeps the cloud's; connection and verdict go exactly when host, port, user or credential changed, pin and facts exactly when host or port did. |
| HandlerEffects.DeleteColumns | internal/api/handlers.go:191-204 | A deletion removes the row with its key, facts and connection, and nothing else. |
| HandlerEffects.ProbeColumns | internal/api/handlers.go:208-265 | A probe's verdict, facts, key record and connection are what a fresh dial and one command come to. |
| HandlerEffects.ActionColumns | internal/api/handlers.go:460-480 | An action marks the machine and drops the connection exactly for a recorded, classified failure. |
| HandlerEffects.SessionColumns | internal/api/terminal.go:60-92 | A terminal marks every failure, and success once it is recorded; so does a stream, which is admitted only once it is recorded (internal/api/stream.go:68-92). |
| HandlerEffects.CheckColumns | internal/api/reach.go:106-124 | The poller's check marks what it finds and drops the connection of a machine that failed. |
| HandlerEffects.PowerColumns | internal/api/handlers.go:302-395 | A confirmed call on a linked machine that is accepted drops the connection and records the state; any other request changes nothing. |
| HandlerEffects.TrustColumns | internal/api/handlers.go:508-553 | Trusting an echoed pending key pins it, clears the record, and drops connection and verdict; any other request changes nothing. |
| HandlerEffects.CredentialColumns | internal/api/handlers.go:629-654 | Exactly the users of a deleted credential lose it and their connections. |
| HandlerEffects.AccountColumns | internal/store/queries.go:123-145 | Exactly the machines of a deleted account lose its columns; addresses, users and connections stay. |
| FleetInvariants.EditMachineKeeps | internal/api/handlers.go:143-190 | Editing a machine keeps the invariant: the connection goes whenever what was dialled no longer matches, and the pin goes with a moved box. |
| FleetInvariants.CheckKeyRecord | internal/api/server.go:194-215 | One policy check changes only that machine's record, which fits the presented key afterwards, and accepts exactly when the pin matches. |
| FleetInvariants.GetKeeps | internal/sshx/broker.go:101-127 | Getting a client for a resolved target keeps the invariant, whether pooled, dialled, refused by the policy or failed after it. |
| FleetInvariants.DeleteCredentialKeeps | internal/api/handlers.go:629-654 | Deleting a credential keeps the invariant: exactly its users lose it and their connections. |
| FleetInvariants.DeleteAccountKeeps | internal/store/queries.go:123-145 | Deleting an account keeps account and instance set together or not at all, and uniqueness. |
| FleetInvariants.TrustKeeps | internal/api/handlers.go:508-553 | Trusting keeps the invariant: the connection pinned to the old key is gone. |
| FleetInvariants.SyncOneKeeps | internal/store/queries.go:340-399 | One upsert keeps the invariant, including the unique (account, instance) pair and the drop of a connection whose host moved. |
| FleetServer.Server.CheckHostKey | internal/api/server.go:194-215 | The policy as a method: new record and verdict are those of CheckKey. |
| FleetServer.Server.GetClient | internal/sshx/broker.go:101-127 | Lookup, dial, policy and pooling change the state exactly as Get says, with the same failure. |
| FleetServer.Server.EditRow | internal/api/handlers.go:154-187 | Row, drop, reach reset and identity reset, in the handler's order, amount to EditMachine. |
| FleetServer.Server.UpsertFromCloud | internal/store/queries.go:340-399 | Creates exactly when the pair is unknown; `hostChanged` holds exactly when the row's host changed; the new row is the discovered or refreshed one. |
| FleetServer.Server.SyncInstance | internal/api/sync.go:71-90 | One pass of the loop: state is SyncOne of the old and stays valid; created exactly when the pair was unknown. |
| FleetServer.Server.Reconcile | internal/api/sync.go:57-91 | The loop: state is SyncAll of the old, `created` counts the inserting iterations, created plus updated is the list length, `seen` is the set of reported ids. |
| FleetServer.Server.SyncAccount | internal/api/sync.go:44-97 | New state is Sync of the old, or AbortedSync when an upsert or the marking fails; created plus updated is the number of reconciled instances, total the number reported if all were. |
| FleetServer.Server.Handle | internal/api/server.go:94-145 | Serving any admissible request or background step keeps the server valid and changes its state exactly as Step says; every handler method is tied to its transition for this. |
| CloudSync.SyncRefines | internal/api/sync.go:57-96 | After a successful sync each reported id has exactly one row, a linked row is missing exactly when its id was not reported, and the table grew by the number of unknown ids. |
| CloudSync.LoopCounts | internal/api/sync.go:66-91 | The rows created, the growth of the table and the number of distinct unknown ids are the same number, for any list, with repeats. |
| CloudSync.SyncPreserves | internal/store/queries.go:340-399 | A sync leaves other accounts' rows, unlinked rows, all other tables and the user-owned columns as they were; a row that was not reported keeps its host. |
| HostKeys.SyncKeepsConnection | internal/api/sync.go:71-85 | Through the reconcile loop a machine whose host is the same at the end keeps its connection. |
| CloudSync.FailedSyncMarksNothing | internal/api/sync.go:57-71 | A failed sync marks no row missing: a failed listing changes nothing, and after any prefix of the loop a missing row was missing before and is otherwise untouched. |
| CloudSync.SyncIsIdempotent | internal/api/sync.go:57-96 | Repeating a sync of anything an adapter can report (each instance once, with an id and a power state) changes nothing. |
| CloudSync.RepeatedSyncIff | internal/store/queries.go:340-399 | For the store alone, whatever is reported: repeating a sync changes nothing if and only if every newly discovered instance has a power state. |
| CloudSync.RepeatedSyncExample | internal/store/queries.go:179-211 | One listing without a power state, which no adapter produces, for which the store alone is not idempotent. |
| CloudSync.AfterSync | internal/store/queries.go:340-399 | After a sync the row of a reported instance says what was reported. |
| Discovery.SyncDiscovers | internal/store/queries.go:350-373 | After a sync a reported instance unknown before has one row: host and public address are the reported public one, port 22, no user, no credential, the reported name, labels and addresses, the account's provider. |
| Discovery.IterationColumns | internal/store/queries.go:340-399 | Each iteration of the loop, column by column: a known row is refreshed and follows its address, an unknown instance gets such a fresh row. |
| Discovery.DiscoveredTracks | internal/store/queries.go:360-390 | A discovered machine tracks its public address from its first sync on, over every later run that leaves it alone, if and only if the reports never go blank. |
| HandlerEffects.MissingColumns | internal/store/queries.go:401-421 | Marking touches the one column of exactly the account's linked rows outside the reported ids. |
| AddressFollowing.AddressOverRuns | internal/store/queries.go:327-398 | Over every run in which nobody edits or removes a linked machine, whatever else is interleaved, its (host, public address) pair is the old one moved by exactly the reports of its instance, in order. |
| AddressFollowing.TracksOverRunsIff | internal/store/queries.go:378-390 | Over every such run, a machine that starts on its public address is on the last reported one after every event if and only if the reports never go from an address to none. |
| AddressFollowing.BlankReportStopsFollowing | internal/store/queries.go:378-390 | Two syncs, the first without an address: the host stays on the old one. |
| AddressFollowing.OwnHostOverRuns | internal/store/queries.go:327-339 | Over every such run, a host that never is the stored address is never rewritten. |
| BrokerOwnership.ExactlyOnePlace | internal/sshx/broker.go:101-188 | Over every interleaving each dialled client is in exactly one of held, pooled, being closed or closed; no two ids share one; no client and no done channel is closed twice. |
| BrokerOwnership.GetReturnsItsOwn | internal/sshx/broker.go:101-127 | A Get never returns a client that was dialled for another machine, even when it loses the race. |
| BrokerOwnership.QuietMeansPooledOrClosed | internal/sshx/broker.go:101-155 | Nothing leaks: once all threads are done a client is pooled or closed, not both. |
| BrokerOwnership.StepKeeps | internal/sshx/broker.go:101-188 | Every step of every thread keeps the ownership invariant. |
| BrokerClose.DropIsFinal | internal/sshx/broker.go:129-142 | Once a Drop that began while a client was pooled has returned, that client never enters the pool again, whatever Gets were under way. |
| BrokerClose.CloseClosesEverything | internal/sshx/broker.go:144-155 | With no Get under way that could still pool a client and none started later, once all is quiet the pool is empty and every client ever dialled was closed exactly once, whatever ran alongside. |
| BrokerClose.GetCanOutliveClose | internal/sshx/broker.go:101-155 | From every reachable state with a Get that could still pool one, a Close that starts now has a continuation that ends quiet with a pooled, open client. |
| BrokerClose.CloseSufficesIff | internal/sshx/broker.go:144-155 | So a Close closes everything under every continuation without new Gets if and only if no Get is looking up, dialling or about to install. |
| BrokerClose.OverlappingGetSurvives | internal/sshx/broker.go:144-155 | A Get that is dialling when Close begins can leave its client pooled and open. |
| BrokerClose.OverlapIsReachable | internal/sshx/broker.go:101-127 | The state that counterexample starts from is reached by a run. |
| BrokerRuns.PooledGet | internal/sshx/broker.go:101-107 | From any state, a Get of a pooled machine returns that very connection in one step and changes nothing. |
| BrokerRuns.GetAlone | internal/sshx/broker.go:109-127 | From any state, a Get of an unpooled machine by itself dials, pools and returns the new client, under watch. |
| BrokerRuns.FailedDial | internal/sshx/broker.go:109-112 | A failed dial ends the Get and leaves the pool alone. |
| BrokerRuns.LostRace | internal/sshx/broker.go:114-121 | A Get that lost the race returns the pooled client and closes only its own. |
| BrokerRuns.DropAlone | internal/sshx/broker.go:131-142 | From any state, a Drop by itself forgets the connection and closes its channel and client. |
| BrokerRuns.KeepaliveStep | internal/sshx/broker.go:157-188 | A keepalive turns into a drop exactly when its request fails, and ends once its channel is closed. |
| BrokerRuns.CloseAlone | internal/sshx/broker.go:144-155 | A Close by itself, in any order of its snapshot, empties the pool and closes each pooled client and channel. |
| BrokerRuns.DialsOnlyUnpooled | internal/sshx/broker.go:101-112 | Over every interleaving, a thread dials only for a machine it found unpooled when it looked. |
| BrokerRuns.EveryClientWasMissing | internal/sshx/broker.go:101-112 | Over every interleaving, each client was dialled by a Get that found its machine unpooled. |
| BrokerPool.Broker.LookUp | internal/sshx/broker.go:102-107 | The first critical section of Get is the GetStart step. |
| BrokerPool.Broker.Settle | internal/sshx/broker.go:114-125 | The second critical section of Get is the Holding step: the pool's client wins, or ours is installed and watched. |
| BrokerPool.Broker.Remove | internal/sshx/broker.go:132-137 | The critical section of Drop is the DropStart step. |
| BrokerPool.Broker.Drop | internal/sshx/broker.go:131-142 | Alone, Drop removes exactly that connection and closes its client and channel once. |
| BrokerPool.Broker.Close | internal/sshx/broker.go:145-155 | Alone, Close empties the pool and closes each pooled client exactly once and no other. |
| Render.Render | internal/actions/engine.go:267-299 | The rendering loop returns what RenderFrom says: the first failing check in order, or the text after all replacements. |
| Render.SafeFreeParam | internal/actions/engine.go:308-318 | Accepts exactly the texts of at most 512 bytes without control characters other than tab. |
| ParamLimits.FreeTextIff | internal/actions/engine.go:308-318 | Free text passes exactly with at most 512 bytes of UTF-8 and no control character but tab. |
| ParamLimits.MatchesIff | internal/actions/catalog.go:79-95 | Each shared pattern accepts exactly the texts of its shape, character by character. |
| Render.OccursIffHole | internal/actions/engine.go:270-277 | A placeholder occurs in a text exactly when reading the text left to right finds that hole. |
| Substitution.ReplaceIsExpand | internal/actions/engine.go:296 | One replacement pass, seen through the reading of the template, fills exactly the holes of that name with the reading of the quoted value. |
| RenderOrder.SequentialIsSimultaneousIff | internal/actions/engine.go:271-298 | For every request the loop accepts, repeated names included, the result is the simultaneous substitution if and only if no value contains the placeholder of a parameter declared later. |
| RenderOrder.RenderSucceedsIff | internal/actions/engine.go:267-299 | Under that condition rendering succeeds exactly when names are distinct and every parameter is used, provided and valid, and then yields the simultaneous substitution. |
| RenderOrder.OrderDoesNotMatter | internal/actions/engine.go:271-298 | When no value contains a placeholder, the order in which the parameters are declared changes neither whether rendering succeeds nor the result. |
| RenderFaults.FirstFault | internal/actions/engine.go:271-296 | When no value contains a later placeholder, a refusal names the first parameter with a fault, and the fault: unused, missing or invalid. |
| RenderOrder.PatternsAreClean | internal/actions/catalog.go:78-95 | No value that matches a shared pattern contains a placeholder. |
| RenderOrder.CatalogValuesAreClean | internal/actions/catalog.go:78-95 | So actions whose parameters all have patterns always meet the condition. |
| RenderOrder.SpelledPlaceholderIsSubstituted | internal/actions/engine.go:284-296 | For any two parameters, a first value that spells the second placeholder is substituted again: the result is not the simultaneous one. |
| RenderOrder.LaterPlaceholderExample | internal/actions/engine.go:284-296 | A concrete accepted request for which that happens. |
| RenderMeaning.QuotedValueIsLiteral | internal/actions/engine.go:301-303 | A shell reads a quoted value, met in unquoted text, as exactly its characters, all quoted, in the current word. |
| ShellLaws.SingleQuotes | internal/actions/engine.go:264-266 | The tokeniser keeps single-quoted text literal up to the next quote, which must come (section 2.2.2). |
| ShellLaws.DoubleQuotes | internal/actions/engine.go:264-266 | The tokeniser keeps double-quoted text in one word, literal but for expansions (section 2.2.3). |
| ShellLaws.OperatorGrows | internal/actions/engine.go:264-266 | It takes the longest of the operators the standard lists (section 2.3). |
| RenderOrder.SequentialIsNested | internal/actions/engine.go:271-298 | Whatever the values, sequential rendering is one pass over the template in which each placeholder becomes its quoted value with the later parameters substituted into it. |
| RenderMeaning.RenderedMeansTemplate | internal/actions/engine.go:264-303 | For an accepted request with plain parameter names, placeholders in unquoted text and no value that contains a later placeholder, the tokens of the rendered command are the template's tokens with each placeholder replaced by its value as literal text. |
| RenderMeaning.ValuesCannotChangeTheShape | internal/actions/engine.go:264-303 | Under the same conditions, two accepted sets of values give the same number of tokens and the same operators. |
| RenderSafety.KeepsMeaningIff | internal/actions/engine.go:278-296 | For saveable parameters, each declared once, placeholders in unquoted text and a complete template: every accepted request keeps the template's meaning if and only if every parameter but the last has a pattern. |
| RenderSafety.SpelledChangesMeaning | internal/actions/engine.go:284-296 | Under those conditions an accepted request that gives one parameter the placeholder of the next, and the others bare text, is read as other tokens. |
| RenderSafety.SpellingIsAccepted | internal/actions/engine.go:308-318 | There is such a request whenever a free-text parameter is not the last, and it is accepted. |
| RenderSafety.ValueBecomesOperator | internal/actions/engine.go:289-296 | Two adjacent free parameters, the first spelling the second and the second a semicolon: accepted, and the shell reads an empty word, the operator and another word. |
| SavedActions.SavedActionIff | internal/api/custom_actions.go:60-86 | A saved action (no patterns; names may repeat) with placeholders in unquoted text and a complete template keeps its meaning under every accepted request if and only if it has at most one parameter. |
| SavedActions.RepeatChangesMeaning | internal/actions/engine.go:271-296 | With every value spelling its own placeholder, a name declared twice is read as more than its value. |
| RenderMeaning.UnquotedTemplatesAreWellPlaced | internal/actions/catalog.go:129-210 | A template without quoting characters of its own has all placeholders in unquoted text. |
| RenderMeaning.QuotedStretchIsWellPlaced | internal/actions/catalog.go:219-225 | So has a template with one single-quoted stretch that holds no placeholder, as the URL check's format string. |
| RenderMeaning.NoParamsIsWellPlaced | internal/actions/catalog.go:298-303 | So has every template without parameters, whatever braces it carries. |
| RenderOrder.AcceptedValuesAreClean | internal/actions/engine.go:278-295 | An accepted request for an action whose parameters but the last all have patterns meets the value condition. |
| Catalog.BuiltinsAreFit | internal/actions/catalog.go:129-373 | Every built-in template with parameters has them in unquoted text, plain names, and a pattern for each. |
| Catalog.BuiltinsMeanTheirTemplates | internal/actions/catalog.go:112-373 | For built-in actions the end-to-end theorem needs no hypothesis: whatever is executed tokenises to the template with the requested values as literal text. |
| Audit.PrepareIff | internal/actions/engine.go:126-189 | A request is prepared exactly when the action and machine exist, there is a host and a credential, the tier's confirmation is given, the command renders, facts exist (or it is the overview), capabilities suffice and sudo is possible. |
| Audit.PreparedIsSound | internal/actions/engine.go:158-189 | A plan runs `sh -s`, at most behind `sudo -n`; the recorded command carries the same prefix as the shell, and the script is that command and a newline, or the action's own script. |
| Audit.ExecutedMeansTemplate | internal/actions/engine.go:158-189 | For a prepared command action with plain parameter names, placeholders in unquoted text and no value that contains a later placeholder, what is fed to the shell is one line whose tokens are the template's with the requested values as literal text. |
| Audit.RequiredRootIsHad | internal/actions/engine.go:320-341 | An action that requires root runs as root or behind `sudo -n`, never without. |
| Audit.EveryRunIsRecorded | internal/actions/engine.go:191-241 | Over every sequence of requests, executions and audit inserts match the accepted requests one to one in order, and the table holds exactly the rows whose insert worked. |
| Audit.EveryReplyFits | internal/actions/engine.go:191-241 | Each caller is told a refusal exactly when refused, the audit failure exactly when the insert failed, and otherwise the run as it went. |
| Audit.RowsTellTheTruth | internal/actions/engine.go:191-262 | Every row's tier is 0 to 2 and was confirmed, its machine is the one executed on, and its command describes what was executed. |
| RunRecords.AdmittedIff | internal/actions/engine.go:126-189 | A request is prepared exactly when all checks pass, stated on the store's columns: the facts clause on the facts themselves, the host clause on address, user and credential. |
| RunRecords.RefusalReason | internal/actions/engine.go:126-189 | A refusal names the first thing that is wrong, with the request before the host, and the first capability that is missing. |
| RunRecords.RowColumns | internal/actions/engine.go:191-228 | The i-th insert is the i-th accepted request, column by column: machine, name, action, tier, actor, exit code, failure, shown command, and the stored forms of stdout and stderr each in its own column; the i-th execution is fed that command or script, behind sudo exactly when wanted and possible without a password. |
| RunRecords.ReplyColumns | internal/actions/engine.go:213-241 | The reply says refused, not recorded, failed or completed exactly when it was, with the same columns and the whole output. |
| RunRecords.RefusalsAreTold | internal/actions/engine.go:126-193 | Over every sequence of requests each refused caller is told that first fault. |
| RunRecords.RowHoldsOutput | internal/store/queries.go:565-581 | However a command's output was cut into writes, that column of its audit row holds all of it or its longest whole-character prefix and the marker. |
| Engine.FirstMissing | internal/actions/engine.go:156-160 | Finds nothing exactly when the host has every required capability, else one it lacks. |
| Engine.ActionEngine.Run | internal/actions/engine.go:193-241 | The method's new log and reply are those of RunOne. |
| Engine.ActionEngine.InsertRun | internal/store/queries.go:567-581 | Tries one insert of the run with both outputs truncated; the table grows exactly when it works. |
| Fanout.BoundedAndOnce | internal/api/bulk.go:109-139 | Under any schedule at most `cap` executions are in flight, no index is executed twice, and execution i is of target i. |
| Fanout.DoneMeansAll | internal/api/bulk.go:109-141 | When all goroutines are done every target was executed once and result i is about target i. |
| Fanout.NeverStuck | internal/api/bulk.go:109-139 | Until all are done some goroutine can move: the semaphore does not deadlock. |
| Fanout.StepKeeps | internal/api/bulk.go:112-138 | Every step keeps: tokens held equal goroutines inside, one execution per index, results only from finished goroutines. |
| Bulk.ResolveTargets | internal/api/bulk.go:56-80 | The loops compute the machines carrying the group's tags, or the listed machines that exist, restricted to those with a host. |
| Bulk.MembersAreMatching | internal/store/queries.go:714-724 | A group's members are exactly those the group match selects from the table, in its order. |
| Bulk.ListedTargets | internal/api/bulk.go:64-79 | A machine is a target as often as it is listed, if it exists and has a host. |
| Bulk.TargetsAreCurrent | internal/api/bulk.go:64-79 | Every target is the machine as the store has it. |
| Bulk.NothingBeforeTheGate | internal/api/bulk.go:86-141 | Nothing executes unless the gate passed for the number of targets; at most five at a time, each target at most once. |
| Bulk.StartsIff | internal/api/bulk.go:81-107 | The gate opens exactly for a confirmed read or the typed number of targets, and otherwise says what it misses. |
| Bulk.RequestsAskForTargets | internal/api/bulk.go:117-124 | Each execution asks the engine for the given action and parameters on its own target, confirmed in that machine's name. |
| Bulk.TargetsIff | internal/api/bulk.go:56-80 | Who is a target, on the columns: a stored machine with address, user and credential that carries all tags of the group, or else is listed. |
| Bulk.CountIsExact | internal/api/bulk.go:93-102 | A confirmation text that authorises a write on n hosts authorises no other number. |
| Bulk.BulkRequestsPassTheirTier | internal/api/bulk.go:117-124 | The per-machine request passes the engine's gate exactly for tiers 0 to 2. |
| Backoff.DelayIsExactMinimum | internal/api/reach.go:128-140 | For every failure count, the delay chosen from the wrapped 64-bit shift is exactly min(60 s * 2^f, 15 min). |
| Backoff.DelayMonotone | internal/api/reach.go:128-140 | More failures never shorten the delay, which stays between a minute and the cap. |
| Backoff.ShiftOverflows | internal/api/reach.go:134-138 | The shift does go negative (28 failures) and wrong but positive (30), so both tests matter. |
| Backoff.LowBitsVanish | internal/api/reach.go:134-138 | From 29 failures on the shifted value is a multiple of 2^40, hence 0, negative or beyond the cap. |
| Poller.ReachPoller.ScheduleNext | internal/api/reach.go:128-140 | The entry becomes Rescheduled of the old one. |
| Poller.ReachPoller.ReachSweep | internal/api/reach.go:59-104 | The sweep's loops change schedule and check log exactly as Sweep says. |
| Poller.ReachPoller.Poll | internal/api/reach.go:42-57 | Any number of ticks from an empty schedule ends in the state of RunTicks. |
| PollerSpacing.ChecksAreSpaced | internal/api/reach.go:59-140 | Over every run of sweeps, the next check of a machine starts at least 60 s after a successful one ended, and at least min(60 s * 2^f, 15 min) after f failures in a row. |
| PollerSpacing.ScheduleFollowsHistory | internal/api/reach.go:37-40 | A schedule entry is determined by the machine's checks: last end plus wait, and trailing failures. |
| PollerSpacing.SweepChecksDueOnce | internal/api/reach.go:66-97 | A sweep checks exactly the listed machines that have a host, are not stopped and are due, once each. |
| PollerDue.ChecksExactlyWhenDue | internal/api/reach.go:66-140 | Over every run, a sweep checks a listed machine exactly when its columns say it has address, user and credential and is not a linked machine known to be stopped, and it was never checked or its last check ended at least 60 s (after success) or min(60 s * 2^f, 15 min) (after f failures) ago. |
| PollerDue.CheckIsItsOutcome | internal/api/reach.go:106-140 | And that check is on record with the outcome it came back with. |
| PollerSpacing.OnlyListedStay | internal/api/reach.go:98-103 | A successful sweep leaves entries only for machines it listed. |
| SweepFanout.SweepUnderAnySchedule | internal/api/reach.go:64-140 | Under every schedule of the goroutines at most four checks are in flight and none runs twice; once all are done every due machine was checked and the schedule, rescheduled entry by entry as checks came back, is the sweep's own with their replies. |
| PollerSpacing.ScheduleIgnoresOrder | internal/api/reach.go:89-97 | In whatever order they come back, the schedule is the one the sweep yields in listing order. |
| Utf8.BoundaryIff | internal/store/queries.go:658-662 | In valid UTF-8 a character starts at a position exactly when the prefix up to it is valid. |
| Utf8.EncodedIsValid | internal/store/queries.go:658-662 | Encoded scalar values (section 3 of RFC 3629) satisfy the byte ranges of section 4. |
| Utf8.ValidIsEncoded | internal/store/queries.go:658-662 | And every text that satisfies them is the encoding of scalar values. |
| Capture.LimitedBuffer.Write | internal/sshx/broker.go:458-472 | The buffer holds the first `max` bytes of everything written and reports every byte as written; the flag is set by an overflow or a full buffer. |
| Capture.LimitedBuffer.String | internal/sshx/broker.go:474-481 | Returns those bytes, with the marker exactly when the flag is set. |
| Capture.Capture | internal/sshx/broker.go:451-481 | After any sequence of writes the captured text is the first `max` bytes, with the marker when flagged. |
| Capture.FalseFlagIff | internal/sshx/broker.go:458-472 | The flag is set with every byte kept if and only if the buffer is exactly full and the last write was empty. |
| Capture.FlagMeansDropped | internal/sshx/broker.go:458-472 | Over any non-empty writes the flag is set exactly when bytes were dropped. |
| Capture.CapturedIs | internal/sshx/broker.go:451-481 | Over any non-empty writes the captured text is the whole output, or its first `max` bytes and the marker. |
| Capture.FlagMeansDroppedIff | internal/sshx/broker.go:458-472 | For any writes, the flag says exactly whether bytes were dropped if and only if that is not the case. |
| Capture.EmptyWriteSetsFlag | internal/sshx/broker.go:461-465 | An empty write to a full buffer sets it with nothing dropped. |
| Capture.Truncate | internal/store/queries.go:654-663 | The loop keeps everything up to `max` bytes, else cuts at the last character start at or before `max` and appends the marker. |
| Capture.BackOffIsLongest | internal/store/queries.go:654-663 | For valid text that cut is the longest prefix of whole characters within the limit, at most three bytes short. |
| Capture.AuditHoldsOutput | internal/store/queries.go:565-575 | However the output was cut into writes, the audit row is all of it, or its longest whole-character prefix within 65536 bytes (at least 65533) and the marker; it is valid UTF-8. |
| Migrate.MigrationConverges | internal/store/store.go:61-99 | From any database at a version, possibly with columns later migrations add, and through any crashes and restarts, the recorded versions are a prefix that never shrinks, nothing fails, and a finished run has the schema of a fresh database. |
| Migrate.StoreChangesByCommits | internal/store/store.go:73-99 | A crash loses the open transaction and keeps the store, which changes by a whole migration with its version or not at all. |
| Migrate.MigrationFinishes | internal/store/store.go:61-99 | Left alone, a migration finishes in finitely many steps. |
| Migrate.ExecBetween | internal/store/store.go:119-129 | One tolerated statement keeps a database between the strict schema and the columns still to come. |
| Migrate.StrictExtends | internal/store/store.go:106-131 | A list that goes through strictly leaves exactly the tables, columns and indexes its statements declare. |
| Migrate.ExecAllExtends | internal/store/store.go:106-131 | So does one that is tolerated. |
| Migrate.FailsIff | internal/store/store.go:119-129 | A list fails if and only if some statement does not apply when its turn comes; a column that is there already applies. |
| ShippedSchema.MigrationsAreSound | internal/store/schema.go:8-151 | The shipped list applies to a fresh database without tolerating anything. |
| ShippedSchema.FieldIsAtVersion | internal/store/store.go:101-105 | Databases of every version, including those from the window when migration 1 was edited in place, are covered. |
| ShippedSchema.EveryStoreConverges | internal/store/schema.go:79-151 | All of them end up with the same schema and versions, however often the process dies on the way. |
| ShippedSchema.FinalSchema | internal/store/schema.go:8-151 | A finished migration leaves exactly what the shipped statements declare. |
| ShippedSchema.Database.ExecMigration | internal/store/store.go:119-130 | The loop runs the statements in order, going on after a duplicate column and stopping at any other error. |
| ShippedSchema.Database.Migrate | internal/store/store.go:73-99 | Uninterrupted, it succeeds and leaves the last version's schema and all versions recorded. |
| SqlText.SplitMigration | internal/store/store.go:106-123 | The loops compute Statements: lines cut at the first "--", split at semicolons, trimmed, blanks dropped. |
| SqlText.StatementsAreRealIff | internal/store/store.go:106-131 | The statements sent are those of a scanner that knows literals and comments if and only if no literal contains "--" or a semicolon. |
| SqlText.SemicolonInLiteral | internal/store/store.go:119 | A statement that ends in the literal ';' is split. |
| Tags.TagsRoundTripIff | internal/store/queries.go:624-638 | A tag list survives join and split if and only if every tag is non-empty, trimmed and comma-free. |
| Tags.CommaMakesTwoTags | internal/store/queries.go:624-638 | A tag with a comma between two good halves reads back as the two halves. |
| Tags.SplitJoinSplit | internal/store/queries.go:624-638 | Split, join and split is split, for every text. |
| Tags.SplitTagColumn | internal/store/queries.go:626-638 | The loop computes SplitTags. |
| Tags.CleanTags | internal/api/groups.go:104-112 | The loop trims every tag and drops the empty ones. |
| Tags.MatchAll | internal/store/queries.go:728-750 | The loop returns exactly the members, in order. |
| Tags.CountMatching | internal/api/groups.go:114-136 | The second implementation counts exactly what the first returns. |
| Tags.MatchingSelects | internal/store/queries.go:711-750 | A machine is selected as often as it is listed if it carries all wanted tags and there is one, and never otherwise. |
| Overview.ParseOverview | internal/actions/parsers.go:83-157 | The loop and the derived fields yield the report of the text's lines. |
| Overview.OrderOfLinesDoesNotMatter | internal/actions/parsers.go:83-157 | With distinct keys and the disks in the same order, the report depends only on which lines there are. |
| Overview.PercentIsFloorIff | internal/actions/parsers.go:136-138 | For used at most total, the percentage is the floor of 100 * used / total if and only if the product fits 64 bits. |
| Overview.PercentInRange | internal/actions/parsers.go:136-138 | And then it lies between 0 and 100. |
| OverviewText.FullDiskMisreported | internal/actions/parsers.go:118-140 | A full disk of 2^47 kB, as a line the parser accepts, does not show 100. |
| OverviewText.ParseOfPrint | internal/actions/parsers.go:83-157 | For whatever the probe prints, line by line in any order, with empty values and the load line, the report ParseOverview returns shows the printed numbers (sizes in bytes), the used figures that follow from them, and exactly the disks that are no pseudo file systems, in order. |
| OverviewText.UsedIsExact | internal/actions/parsers.go:145-156 | While the figures are sizes that fit, used memory and swap are exact differences, with the fallback for kernels without MemAvailable. |
| OverviewText.DiskBack | internal/actions/parsers.go:118-140 | A printed disk line parses to that disk, unless it is a pseudo file system. |
| Overview.NumberBack | internal/actions/parsers.go:321-324 | Every 64-bit integer survives printing and parsing. |
| Overview.NumberClamped | internal/actions/parsers.go:321-324 | Every other printed integer is read as the nearest bound. |
| Overview.OtherTexts | internal/actions/parsers.go:321-324 | Text that is no number reads as 0, and a plus sign changes nothing. |
| Overview.DiskIff | internal/actions/parsers.go:118-128 | A disk line counts exactly when it has five fields and its source is no pseudo file system. |

## Left out

- Timestamps (`created_at`, `cloud_synced_at`, `reach_checked_at`, `started_at`) and the texts of error messages: no property depends on them.
- Database failures other than constraint violations and the audit insert: a handler that cannot reach the store is not a step.
- Handlers are single steps: `updateMachine` and the host-key policy read and then write, and no claim is made about two of them interleaving on one machine.
- `keepalive` and `withDeadline` drop by id and may evict a newer connection than their own; the broker model has that behaviour and claims nothing against it.
- The pinned key is written before authentication, so a host whose login fails is pinned all the same; the model does the same.
- Engine.ActionEngine.Run: parsing of the output into `Data` and the command's duration are not modelled; the other line parsers are easier copies of the overview parser.
- FleetServer.Server.Handle: most handler methods have no row of their own; each states its new state in full by the transition it is tied to.
- Overview.ParseOverview: load averages are floating point and are read over; the scalar accumulators are one map rather than separate fields.
- RenderMeaning.RenderedMeansTemplate: covers placeholders in unquoted template text; expansions inside double quotes and here-documents are outside the tokeniser, and what a program does with its arguments is outside the model.
- RenderSafety.KeepsMeaningIff: the request is accepted by the renderer; for templates with a repeated name and patterns the condition is not stated (the catalog has none, and saved actions have no patterns).
- ShippedSchema.MigrationsAreSound: the shipped migrations are their schema operations; the SQL texts are not in the model, so the splitter's condition is not proved of them.
- Migrate.MigrationConverges: statements are schema operations (tables, columns, indexes); column types, defaults and SQL text are not compared, and creating the version table is not a step.
- Poller.Sweep: the checks of one sweep are listed in table order with arbitrary start and end times; `SweepFanout.SweepUnderAnySchedule` covers their interleavings, and the goroutines are all spawned before the first one runs.
- PollerSpacing.ChecksAreSpaced: assumes machine ids are never reused and listings hold distinct ids, which AUTOINCREMENT and the primary key give.
- Fanout: cancellation of the request context is not modelled; an execution may end with any reply.
- SSH handshakes, sessions, terminals, websockets, HTTP routing, the origin and host checks, the keyring, provider adapters, configuration and the user interface.
