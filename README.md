# rustplusplus core, modelled in Dafny

rustplusplus is a Discord bot that connects to a Rust game server over the Rust+
companion protocol. This project models the parts of the bot that hold its state logic,
and proves properties of them:

- **Smart-switch groups.** Sync defaults, the pending-revert timer table, and what happens when a revert fires. It also covers reporting a switch change to its groups, batch on/off of a group, and the in-game group command with its deferred toggle.
- **Reconnecting to a Rust+ server.** The reconnect delay, the reconnect flag with its one-time notification, and the timer table. It also covers how a transport error is classified.
- **The team roster.** Name sanitising, upserting players with a monotone `lastSeenAt`, the total sort order and the exported array. It also covers the pass-through update that runs on every team change.
- **String utilities.** Argument splitting, invisible-character stripping, HTML entity decoding, Levenshtein distance and closest-string search.
- **Vending-machine market.** Item resolution, order filtering, diff truncation, and the `/market` command's subscription lists and replies.
- **Tracker lookup.** How the `group` subcommand of `/tracker` (handled by `trackerInfoHandler`) resolves a tracker id or name.
- **The JSON file cache.** Two maps, validated by modification time.
- **Smart-device lookup.** Finding the smart device an entity id belongs to, across servers.
- **The logger.** Level resolution and forwarding to Discord.

The guild document (`instance`) is a value: the bot reads a fresh copy, changes it and
stores it back. JavaScript object iteration order is an explicit key sequence kept next to
each map. Timers are tables of pending entries, and firing one is an explicit step. Remote
calls, Discord messages and notifications are events appended to the client's `outbox`.
The outcome of a remote switch call is a parameter: the set of switches whose response
was valid.

Files:

- `common.dfy`: options, JavaScript numbers, whitespace, trimming, lower-casing, comparison and integer printing.
- `document.dfy`: the guild document.
- `bot.dfy`: the client and the Rust+ session.
- One file per source file or concern.

## Model

| member | source | states |
|---|---|---|
| SmartSwitchGroups.WithSyncDefaults | src/handlers/smartSwitchGroupHandler.js:30-34 | every sync field is present afterwards; a present field keeps its value, and a missing one becomes `false`, 60 or `{}`; name, command and members are unchanged |
| SmartSwitchGroups.WithSyncDefaultsIdempotent | src/handlers/smartSwitchGroupHandler.js:30-34 | applying the defaults twice is applying them once |
| SmartSwitchGroups.EnsureGroupSyncDefaults | src/handlers/smartSwitchGroupHandler.js:24-37 | `null` exactly when the server or the group is missing, and then the document is untouched; otherwise the group with defaults is returned and written into the document |
| SmartSwitchGroups.EnsureGroupSyncDefaultsIdempotent | src/handlers/smartSwitchGroupHandler.js:24-37 | a second call on the document the first returned changes nothing and returns the same group |
| SmartSwitchGroups.TimeoutKey | src/handlers/smartSwitchGroupHandler.js:39-41 | the key starts with `groupId:`, followed by the switch id |
| SmartSwitchGroups.TimeoutKeyInjective | src/handlers/smartSwitchGroupHandler.js:39-41 | keys of colon-free group ids are equal only for equal group and switch |
| SmartSwitchGroups.TimeoutKeySameSwitch | src/handlers/smartSwitchGroupHandler.js:39-41 | for one switch, two groups share a key exactly when they are the same group |
| SmartSwitchGroups.TimeoutKeyPrefix | src/handlers/smartSwitchGroupHandler.js:55-56 | clearing a whole group by prefix hits the keys of that group and of no other colon-free group |
| SmartSwitchGroups.ClearedTable | src/handlers/smartSwitchGroupHandler.js:43-61 | with a switch id, exactly its key is removed; without one, exactly the keys with the group prefix are removed; surviving entries are unchanged |
| SmartSwitchGroups.ClearGroupSyncTimeouts | src/handlers/smartSwitchGroupHandler.js:43-61 | the session's table becomes the cleared table; without a session nothing changes |
| SmartSwitchGroups.ScheduleGroupSyncRevert | src/handlers/smartSwitchGroupHandler.js:63-78 | when the session is on the server and the group has sync enabled with a positive delay, exactly one pending revert is stored under the key, replacing any earlier one; otherwise the table is unchanged |
| SmartSwitchGroups.ScheduleSupersedes | src/handlers/smartSwitchGroupHandler.js:72-78 | scheduling twice under one key leaves only the second revert |
| SmartSwitchGroups.RevertDecision | src/handlers/smartSwitchGroupHandler.js:79-113 | a fire actuates exactly when the session is still on the server, group and switch exist, sync is enabled, a target is declared and the switch differs from it; the target is the declared state |
| SmartSwitchGroups.FireGroupSyncRevert | src/handlers/smartSwitchGroupHandler.js:78-132 | the fired entry is spent and the switch key is cleared on the current session; a stale fire changes no document and sends nothing; an invalid response only sends the remote call and drops the switch from the interaction list; a valid one records the target, saves the document and sends the switch and group messages |
| SmartSwitchGroups.SyncActionFor | src/handlers/smartSwitchGroupHandler.js:149-172 | a non-member is untouched; a revert is scheduled exactly for a member of a sync-enabled group with a positive delay whose known state differs from its declared target |
| SmartSwitchGroups.ReportedGroup | src/handlers/smartSwitchGroupHandler.js:153-156 | a report changes only a group's sync state |
| SmartSwitchGroups.ReportDeclaresTarget | src/handlers/smartSwitchGroupHandler.js:153-156 | a bootstrap declares the current state as target and cancels rather than schedules; without a bootstrap the group is unchanged |
| SmartSwitchGroups.ReportStable | src/handlers/smartSwitchGroupHandler.js:150-172 | after a report the same report bootstraps nothing, changes nothing and decides the same action |
| SmartSwitchGroups.ReportTablePointwise | src/handlers/smartSwitchGroupHandler.js:146-176 | after the report, each visited group's key is dropped if it cancels, holds the new revert if it schedules on the session's server, and is otherwise as before; all other keys are untouched |
| SmartSwitchGroups.ReportMessagesExactly | src/handlers/smartSwitchGroupHandler.js:146-176 | a group message is sent for exactly the groups that contain the switch, and nothing else is sent |
| SmartSwitchGroups.BootstrapsInExists | src/handlers/smartSwitchGroupHandler.js:153-156 | the report saves exactly when some group bootstraps the switch |
| SmartSwitchGroups.ReportedServer | src/handlers/smartSwitchGroupHandler.js:146-156 | the saved server keeps its switches and orders and the same group keys |
| SmartSwitchGroups.ReportToGroup | src/handlers/smartSwitchGroupHandler.js:147-175 | one group's turn: its cancel-or-schedule step on the session's table, and a group message exactly when it contains the switch |
| SmartSwitchGroups.ReportToGroups | src/handlers/smartSwitchGroupHandler.js:146-176 | the loop over the groups in order gives the table and messages stated above, and reports whether any group bootstrapped |
| SmartSwitchGroups.UpdateSwitchGroupIfContainSwitch | src/handlers/smartSwitchGroupHandler.js:139-182 | the document is saved exactly when a bootstrap happened; the outbox gains the group messages; the current session's table is updated as above |
| SmartSwitchGroups.GetGroupsFromSwitchList | src/handlers/smartSwitchGroupHandler.js:184-197 | each group appears once, and the result holds exactly the groups containing a listed switch (their order is not stated) |
| SmartSwitchGroups.ActionSwitchesExactly | src/handlers/smartSwitchGroupHandler.js:206-222 | the switches actuated are exactly the members whose state differs from the requested one, each once |
| SmartSwitchGroups.ActuatedAllSwitches | src/handlers/smartSwitchGroupHandler.js:224-249 | an actuated switch takes the value and becomes reachable on a valid response, and is marked unreachable on an invalid one; other switches are unchanged |
| SmartSwitchGroups.ActuatedAllUntouched | src/handlers/smartSwitchGroupHandler.js:224-249 | a switch not actuated is unchanged |
| SmartSwitchGroups.ActuatedAllTargets | src/handlers/smartSwitchGroupHandler.js:245-248 | a sync-enabled group records the value as target for exactly the switches that answered validly; a disabled group is unchanged |
| SmartSwitchGroups.ActuatedAllSyncEnabled | src/handlers/smartSwitchGroupHandler.js:224-249 | actuation changes no other group, nor the group's sync flag or members |
| SmartSwitchGroups.InteractionsMembership | src/handlers/smartSwitchGroupHandler.js:229-240 | after actuation, an actuated switch is in the interaction list exactly when its response was valid; others are as before |
| SmartSwitchGroups.CancelMemberTimer | src/handlers/smartSwitchGroupHandler.js:207-213 | one member's revert key and deferred-toggle entry are removed |
| SmartSwitchGroups.CancelMemberTimers | src/handlers/smartSwitchGroupHandler.js:206-222 | every member's revert key and deferred-toggle entry are removed, and the switches to actuate are returned |
| SmartSwitchGroups.ActuateSwitch | src/handlers/smartSwitchGroupHandler.js:224-251 | one actuation: the new server state, the remote call and messages, and the interaction list |
| SmartSwitchGroups.ActuateSwitches | src/handlers/smartSwitchGroupHandler.js:224-252 | the loop over the actuated switches gives the combined server state, events and interaction list |
| SmartSwitchGroups.WithGroupDefaults | src/handlers/smartSwitchGroupHandler.js:201 | the group defaults touch no switch and no order |
| SmartSwitchGroups.TurnOnOffGroup | src/handlers/smartSwitchGroupHandler.js:199-257 | member timers are cancelled; only differing members are actuated; with none, nothing is sent or saved; otherwise the turned server is saved and one group message follows |
| SmartSwitchGroups.TurnOnOffGroupConverges | src/handlers/smartSwitchGroupHandler.js:206-249 | a second call actuates only switches the first failed on, and nothing when every response was valid |
| SmartSwitchGroups.FindGroupByCommand | src/handlers/smartSwitchGroupHandler.js:277-281 | the first group, in order, whose command the text invokes; `None` when none does |
| SmartSwitchGroups.ClassifyGroupCommand | src/handlers/smartSwitchGroupHandler.js:283-309 | each outcome in both directions: on exactly when an on word follows the group command; off exactly when no on word but an off word does; status exactly when neither does and the text is the group command plus a status word; unrecognised otherwise |
| SmartSwitchGroups.ClassifyWithSuffix | src/handlers/smartSwitchGroupHandler.js:290-296 | the on and off words may be followed by a time |
| SmartSwitchGroups.StatusEntries | src/handlers/smartSwitchGroupHandler.js:297-306 | one entry per member in member order, or a failure when a member is not a known switch |
| SmartSwitchGroups.DeferredAfterCommand | src/handlers/smartSwitchGroupHandler.js:311-353 | with a time, the group's deferred toggle holds the opposite state; without one it is absent; other groups are untouched |
| SmartSwitchGroups.ToggleGroupByCommand | src/handlers/smartSwitchGroupHandler.js:311-357 | the announcement, the deferred toggle and then the batch turn |
| SmartSwitchGroups.SmartSwitchGroupCommandHandler | src/handlers/smartSwitchGroupHandler.js:259-358 | not handled without a matching group; status sends the line, or fails and changes nothing on an unknown member; on/off toggle; an unrecognised word changes nothing |
| SmartSwitchGroups.FireDeferredGroupToggle | src/handlers/smartSwitchGroupHandler.js:339-353 | the deferred toggle is spent; if the group still exists it is announced and turned to the stored state, otherwise nothing else happens |
| Reconnect.GetReconnectDelay | src/util/scheduleRustplusReconnect.js:26-33 | the configured value when it is finite and non-negative, 15000 otherwise |
| Reconnect.Rescheduled | src/util/scheduleRustplusReconnect.js:45-74 | the flag is set, the instance dropped and one timer pending; notifications are sent only if the flag was not already set; other guilds are untouched |
| Reconnect.RepeatedDropsNotifyOnce | src/util/scheduleRustplusReconnect.js:46-64 | a second drop sends nothing more and replaces the first timer |
| Reconnect.ScheduleRustplusReconnect | src/util/scheduleRustplusReconnect.js:35-75 | returns true exactly for a live instance of an active guild and then reschedules; otherwise nothing changes |
| RustplusErrors.ErrorTimedOut | src/rustplusEvents/error.js:56-64 | a timeout reconnects exactly for syscall `connect` |
| RustplusErrors.ErrorNotFound | src/rustplusEvents/error.js:66-74 | a lookup failure reconnects exactly for syscall `getaddrinfo` |
| RustplusErrors.ErrorOther | src/rustplusEvents/error.js:83-90 | another error reconnects exactly for the socket-closed-early message |
| RustplusErrors.ShouldReconnect | src/rustplusEvents/error.js:30-52 | dispatch on the error code: timeout, lookup failure, refusal (always, as RustplusErrors.ErrorConnRefused of lines 76-81 is) or other |
| RustplusErrors.HandleRustplusError | src/rustplusEvents/error.js:25-53 | an unavailable server only deletes the instance; otherwise a reconnect is scheduled exactly when the classifier and the scheduler agree |
| TeamRoster.SanitizeName | src/util/teamRoster.js:21-24 | empty for a non-string or blank name; a string name loses exactly its leading and trailing whitespace: the result is a contiguous slice of it and everything cut off on either side is whitespace |
| TeamRoster.SanitizeNameIdempotent | src/util/teamRoster.js:21-24 | sanitising twice is sanitising once |
| TeamRoster.EnsureTeamRoster | src/util/teamRoster.js:26-47 | changed exactly when the history or the server entry was missing; only the history changes, by adding an empty roster |
| TeamRoster.EnsureTeamRosterIdempotent | src/util/teamRoster.js:26-47 | a second call reports no change |
| TeamRoster.UpsertOneSpec | src/util/teamRoster.js:60-106 | for TeamRoster.UpsertOne: a skipped player changes nothing; a new id inserts; an empty name never erases one; `lastSeenAt` only grows with `updateLastSeen` and is untouched without it; changed exactly when the roster differs |
| TeamRoster.UpsertAllUnchanged | src/util/teamRoster.js:58-109 | no change reported means the roster is unchanged |
| TeamRoster.UpsertAllKeys | src/util/teamRoster.js:60-95 | the keys afterwards are the old ones plus the usable player ids |
| TeamRoster.UpsertAllKeepsEntries | src/util/teamRoster.js:69-106 | an existing entry keeps its id, never loses a name, and its `lastSeenAt` never moves back |
| TeamRoster.UpsertRosterPlayers | src/util/teamRoster.js:49-110 | a missing roster gives no change; otherwise the loop computes the upserted roster and its change flag |
| TeamRoster.InOrderTotal | src/util/teamRoster.js:112-127 | the roster order of TeamRoster.CompareRosterEntries is total, and ties only on equal Steam ids |
| TeamRoster.InOrderTransitive | src/util/teamRoster.js:112-127 | the roster order of TeamRoster.CompareRosterEntries is transitive |
| TeamRoster.InsertEntrySorted | src/util/teamRoster.js:112-127 | inserting keeps a sorted list sorted and adds exactly the entry |
| TeamRoster.SortRosterEntries | src/util/teamRoster.js:112-127 | the result is sorted and a permutation of the input |
| TeamRoster.SortedPermutationUnique | src/util/teamRoster.js:112-127 | with distinct ids there is only one sorted order |
| TeamRoster.ExportedEntries | src/util/teamRoster.js:129-155 | one exported entry per non-empty key, without duplicates |
| TeamRoster.SortedNamedFirst | src/util/teamRoster.js:113-126 | named entries come before unnamed ones, and unnamed ones are in Steam-id order |
| TeamRoster.RosterToArray | src/util/teamRoster.js:129-158 | exactly the exported entries, sorted, named first, with no duplicates; empty for a missing roster |
| TeamHandler.UsableEntries | src/handlers/teamHandler.js:147-160 | every entry is unskipped and carries the given `lastSeenAt`, and every member with a usable Steam id has its entry |
| TeamHandler.UsableEntriesInOrder | src/handlers/teamHandler.js:147-160 | the entries are exactly the members with a usable Steam id, one each and in member order, so a later duplicate id comes later and wins in the upsert |
| TeamHandler.CollectEntries | src/handlers/teamHandler.js:147-160 | the loop collects the usable entries |
| TeamHandler.PassthroughRosterGrows | src/handlers/teamHandler.js:162-182 | every current member is in the roster, no key is lost, no name is erased and `lastSeenAt` never moves back |
| TeamHandler.PassthroughInstance | src/handlers/teamHandler.js:144-187 | nothing to save means the document is unchanged; only the roster history changes |
| TeamHandler.UpdatePassthroughList | src/handlers/teamHandler.js:137-194 | nothing happens for a server not in the document; otherwise the document is saved exactly on a change, and the teams message is sent when a channel exists |
| Utils.ParseArgs | src/util/utils.js:40-43 | empty exactly for blank input; otherwise non-empty tokens without whitespace |
| Utils.ParseArgsSpec | src/util/utils.js:40-43 | the result is the given word list exactly when the input is whitespace runs interleaved with those words, each word non-empty and free of whitespace and every run between two words non-empty |
| Utils.GetArgs | src/util/utils.js:45-64 | without a usable limit, the tokens; with limit n and at least n tokens, the first n-1 tokens and then the trimmed rest, which splits into the remaining tokens |
| Utils.GetArgsShape | src/util/utils.js:45-64 | the shape of the limited split: at most n elements, and the last one holds all the remaining words |
| Utils.TakeWords | src/util/utils.js:49-61 | the loop takes at most n-1 words and leaves the trimmed rest of the text |
| Utils.GetArgsAsWrittenRepeatsWord | src/util/utils.js:51-61 | Utils.GetArgsAsWritten, the code as written, gives `["a", "a b"]` for `" a b"` with limit 2 |
| Utils.Strip | src/util/utils.js:82-83 | no dropped character remains, and a string with none is unchanged |
| Utils.StripTwice | src/util/utils.js:82-83 | the two replacements together drop exactly the invisible characters |
| Utils.RemoveInvisibleCharacters | src/util/utils.js:78-84 | no invisible character is left, and the others keep their order |
| Levenshtein.DistanceProperties | src/util/utils.js:122-153 | zero exactly for inputs equal ignoring case; at most the longer length; at least the length difference; case-blind |
| Levenshtein.LevenshteinDistance | src/util/utils.js:122-153 | the table filled row by row yields the recursive distance |
| Levenshtein.FillRow | src/util/utils.js:137-150 | one row of the table is filled and the others are kept |
| Levenshtein.ScanResult | src/util/utils.js:100-113 | the scan keeps the first string at the smallest distance |
| Levenshtein.FindClosestString | src/util/utils.js:86-118 | `null` for a missing or empty array, with no string, or when the best distance exceeds the threshold; otherwise the best string |
| Levenshtein.FindClosestSpec | src/util/utils.js:86-118 | the best string is an element at minimal distance, and no earlier element is as close |
| HtmlDecode.Split | src/util/utils.js:71 | a non-empty key gives at least one piece; HtmlDecode.SplitJoinNonEmpty states that joining the pieces with the key gives the text back |
| HtmlDecode.SplitJoinNonEmpty | src/util/utils.js:71 | splitting at a non-empty key and joining with that key restores the text |
| HtmlDecode.SplitJoinRoundTrip | src/util/utils.js:71 | replacing a key by itself changes nothing |
| HtmlDecode.DecodeStepIsReplaceAll | src/util/utils.js:70-72 | the `includes` test only short-cuts a replacement that would change nothing |
| HtmlDecode.DecodeUnchanged | src/util/utils.js:66-76 | HtmlDecode.Decode returns an input with no table key unchanged |
| HtmlDecode.DecodeIdentityEntries | src/util/utils.js:69-73 | entries mapping a key to itself change nothing |
| HtmlDecode.DecodeHtml | src/util/utils.js:66-76 | the loop applies each table entry in order |
| MarketUtils.HasWildcard | src/util/marketUtils.js:21-24 | true exactly for a string containing `*` or `?` |
| MarketUtils.ShouldIncludeOrderSpec | src/util/marketUtils.js:26-43 | for MarketUtils.ShouldIncludeOrder: `all` checks item or currency, `buy` the currency, `sell` the item; an empty set or unknown type includes nothing |
| MarketUtils.GetItemIdsFromInput | src/util/marketUtils.js:48-76 | resolved ids are never empty; `noNameIdGiven` exactly when neither is given |
| MarketUtils.GetItemIdsFromInputSpec | src/util/marketUtils.js:48-76 | a name takes precedence over an id; a wildcard name gives all matches, another name the closest; an id must be known |
| MarketUtils.TrackedSetMembers | src/util/marketUtils.js:83-87 | the tracked set holds exactly the values of the ids that parse |
| MarketUtils.TrackedPrinted | src/util/marketUtils.js:83-87 | a printed integer id is tracked |
| MarketUtils.BuildTrackedSet | src/util/marketUtils.js:83-87 | the loop builds the tracked set |
| MarketUtils.MatchingMembers | src/util/marketUtils.js:95-124 | the kept listings are exactly the wanted ones |
| MarketUtils.MatchingKeepsOrder | src/util/marketUtils.js:95-124 | the kept listings keep machine and order order |
| MarketUtils.MatchingNothingTracked | src/util/marketUtils.js:89 | nothing is kept when nothing is tracked |
| MarketUtils.CollectMachineLines | src/util/marketUtils.js:102-124 | the inner loop gives one line per wanted order of a machine |
| MarketUtils.CollectMachines | src/util/marketUtils.js:95-125 | the outer loop gives the lines of all machines in order |
| MarketUtils.CollectMatchingOrders | src/util/marketUtils.js:78-128 | no markers give no lines; otherwise the lines of the wanted orders under the tracked set |
| MarketUtils.CollectMatchingOrdersSpec | src/util/marketUtils.js:78-128 | empty for an empty tracked set; never an out-of-stock order; exactly the wanted listings, in order |
| MarketUtils.KeptSpec | src/util/marketUtils.js:133-146 | the kept lines are a prefix within the budget, and the next line would not fit |
| MarketUtils.FormatDiffLines | src/util/marketUtils.js:130-149 | `null` exactly for a missing or empty list; otherwise the fenced, truncated body |
| MarketUtils.FencedShape | src/util/marketUtils.js:148 | the text opens with a diff fence and closes with a fence |
| MarketCommand.FirstsMembers | src/commands/market.js:180-189 | the ids reported as added are the distinct ids not yet listed |
| MarketCommand.FirstsOthersPartition | src/commands/market.js:180-189 | every id is reported exactly once, as added or as already present |
| MarketCommand.SubscribeSpec | src/commands/market.js:180-189 | every id ends up listed, without duplicates; something is added exactly when an id was not listed |
| MarketCommand.SubscribeLoop | src/commands/market.js:176-189 | the loop appends the new ids to the list and to the first-poll items, and names the added and already listed ids |
| MarketCommand.UnlistedMembers | src/commands/market.js:243-252 | unsubscribing removes every occurrence of each id and nothing else |
| MarketCommand.UnlistedKeepsOrder | src/commands/market.js:245-246 | the remaining ids keep their order |
| MarketCommand.UnlistedUnchanged | src/commands/market.js:243-252 | absent ids leave the list unchanged |
| MarketCommand.UnsubscribeSpec | src/commands/market.js:243-252 | the result is the list without the ids, in order; something is removed exactly when an id was listed |
| MarketCommand.UnsubscribeLoop | src/commands/market.js:239-252 | the loop filters the list and names the removed and missing ids |
| MarketCommand.ListTextSpec | src/commands/market.js:288-293 | the text is empty exactly for an empty list, and ends with the last entry |
| MarketCommand.BuildListText | src/commands/market.js:289-293 | the loop builds the list text |
| MarketCommand.FieldValue | src/commands/market.js:308-318 | a field value is never empty, and a non-empty text is kept |
| MarketCommand.SubscribeCommand | src/commands/market.js:161-216 | the list is updated and saved, the market message refreshed, and the reply uses the success style exactly when something was added |
| MarketCommand.UnsubscribeCommand | src/commands/market.js:224-279 | the list is filtered and saved, the market message refreshed, and the reply uses the success style exactly when something was removed |
| MarketCommand.SearchCommand | src/commands/market.js:116-159 | the reply names the items and holds the matching orders |
| MarketCommand.ListCommand | src/commands/market.js:287-323 | the three lists, each shown as a non-empty field |
| MarketCommand.Execute | src/commands/market.js:98-330 | no permission, no connection, a resolution error or a missing server return before any change; otherwise the subcommand's effect and reply |
| TrackerLookup.MatchesMembers | src/commands/tracker.js:87-108 | the matches are exactly the trackers whose name matches |
| TrackerLookup.ExactMatchesArePartial | src/commands/tracker.js:87-108 | an exact name match is also a substring match |
| TrackerLookup.TrackerInfo | src/commands/tracker.js:65-135 | no trackers; else the id wins; else one exact match, or an ambiguity; else one substring match, or an ambiguity, or not found |
| TrackerLookup.TrackerLookupSpec | src/commands/tracker.js:87-123 | a single match names a tracker matching the parameter, and every match is a tracker id |
| JsonCache.JsonFileCache.constructor | src/util/jsonFileCache.js:19-22 | both maps start empty |
| JsonCache.JsonFileCache.ReadJson | src/util/jsonFileCache.js:24-51 | a missing file is an error; a hit returns the cached document; a miss reads the file and stores it with its time in both maps |
| JsonCache.JsonFileCache.WriteJson | src/util/jsonFileCache.js:53-66 | the file is written; both maps hold the document and the new time, or the path is invalidated when the time cannot be read |
| JsonCache.JsonFileCache.Invalidate | src/util/jsonFileCache.js:68-71 | the path is removed from both maps and nothing else changes |
| JsonCache.ReadServesDisk | src/util/jsonFileCache.js:39-50 | a coherent cache returns what is on disk |
| JsonCache.RefreshKeepsCoherent | src/util/jsonFileCache.js:46-50 | refreshing a path keeps the cache coherent |
| JsonCache.WriteKeepsCoherent | src/util/jsonFileCache.js:53-61 | a write keeps the cache coherent |
| JsonCache.FailedWriteKeepsCoherent | src/util/jsonFileCache.js:62-66 | a failed write followed by invalidation keeps the cache coherent |
| JsonCache.ExternalChangeKeepsCoherent | src/util/jsonFileCache.js:39-44 | an outside change that moves the file time keeps the cache coherent |
| JsonCache.ReadTwice | src/util/jsonFileCache.js:39-50 | after a miss, the next read hits exactly for a truthy document and returns the same value |
| JsonCache.InvalidatedMisses | src/util/jsonFileCache.js:68-71 | the read after an invalidation goes to disk |
| InstanceUtils.KindIn | src/util/instanceUtils.js:40-48 | switch before alarm before storage monitor; none exactly when the server holds the id under no kind |
| InstanceUtils.FindDeviceSpec | src/util/instanceUtils.js:35-51 | InstanceUtils.FindDevice gives `null` exactly when no server in the order holds the id; a found server holds it under the found kind, and no earlier server holds it |
| InstanceUtils.GetSmartDeviceSpec | src/util/instanceUtils.js:35-51 | InstanceUtils.GetSmartDevice gives `null` exactly when no server holds the id; the found kind respects the precedence |
| InstanceUtils.EarlierServerWins | src/util/instanceUtils.js:39 | a later server holding the id is never returned |
| Logging.Logger.constructor | src/structures/Logger.js:27-41 | no guild and no server name at first |
| Logging.Logger.SetGuildId | src/structures/Logger.js:43-45 | the guild id is set |
| Logging.Logger.LocaleGuild | src/structures/Logger.js:84 | only a guild logger looks titles up in its guild's language |
| Logging.Logger.ResolveLevel | src/structures/Logger.js:60-103 | an explicit error or warning level wins; without a title or client the level is info; otherwise a failing title lookup gives info, and with both lookups done the title resolves to warn when it matches the warning title, to error when it matches only the error title, and to info when it matches neither |
| Logging.Logger.DispatchToDiscord | src/structures/Logger.js:105-133 | only errors and warnings are forwarded, and only to a client with a handler; the source is `Rust+` for guild loggers and `Bot` otherwise, and only guild loggers carry guild and server |
| Logging.Logger.Log | src/structures/Logger.js:135-194 | the resolved level decides what is forwarded |
| Logging.Logger.ResolveLevelStable | src/structures/Logger.js:60-71 | resolving again with the resolved level's name gives the same level |
| Logging.Logger.ResolveLevelCaseBlind | src/structures/Logger.js:61-62 | the level argument is compared ignoring case |

## Left out

- Discord output is not modelled: embeds, message text, slash-command builders and `intlGet` localisation. Each notice is an event in the outbox, and localised words are parameters.
- Timer timing is not modelled. A pending timer is a table entry, and firing it is an explicit method.
- The Rust+ wire protocol is not modelled. A remote call's outcome is the set of switches whose response was valid.
- Interleaving at `await` points is not modelled; each handler runs as one atomic step.
- SmartSwitchGroups.TurnOnOffGroup: the source saves the document after each switch. The model saves once at the end, because only a concurrent handler could see the difference.
- `Timer.getSecondsFromStringTime` is not part of this model. The time given after an on/off command is the parameter `timeSeconds`.
- The `rustplus.team` player predicates of `checkChanges` are not part of this model. `updatePassthroughList` receives the members and the historical players.
- `localeCompare` and `toLowerCase` are modelled as the order of Unicode scalar values and ASCII lower-casing. Locale-specific order and Unicode case mapping are not captured.
- Levenshtein.FindClosestString: the threshold is an integer. A fractional JavaScript threshold is not modelled.
- The item catalogue (wildcard search, closest name, known ids) is abstract. A missing item name is shown as the empty string.
- MarketCommand.SubscribeLoop: the source pushes to `firstPollItems` inside the loop. The model's single update after the loop has the same final value.
- `lastMarketListingsUpdate`, `Date.now`, `Math.random`, reply texts and embed colours are not modelled.
- The logger's Winston file, console and colour output, `getTime` and the payload timestamp are not modelled. An absent `guildId` and a null one are not distinguished.
- Filesystem errors other than a missing file are not distinguished; every failed `stat` of a read is `FileNotFound`. JSON parsing, serialising and cloning are the identity, and truthiness is a flag on the document.
- The path and read/write wrappers of `src/util/instanceUtils.js` (lines 26-33 and 53-75) are left out. They only combine a path with the file cache.
- Integers are unbounded. JavaScript numbers appear as `Number` (a finite integer, or not finite) only where the source tests them.
- Reconnect.GetReconnectDelay: the configured delay is an integer. A fractional configured value, which the source returns unchanged, is not modelled.
- Strings are sequences of Unicode scalar values, while JavaScript lengths and indices count UTF-16 code units. For text with characters outside the Basic Multilingual Plane the model therefore differs in the line budget `line.length + 1` of `src/util/marketUtils.js:137` (MarketUtils.Kept counts characters), in Levenshtein lengths and distances, and in the offsets at which `getArgs` cuts its last argument.
- A roster value that is not an object and a stored `name` that is not a string cannot be represented (`src/util/teamRoster.js:137-143` and the upsert of a truthy non-object value).
- SmartSwitchGroups.UpdateSwitchGroupIfContainSwitch, SmartSwitchGroups.TurnOnOffGroup and SmartSwitchGroups.SmartSwitchGroupCommandHandler: they require the server (and, for the first two, the group) to exist, so the `TypeError` the source throws without them (`src/handlers/smartSwitchGroupHandler.js:141`, `201-202`, `262-263`) is not modelled; every caller in the source passes existing ones. SmartSwitchGroups.FireGroupSyncRevert likewise requires the guild's document to exist on every path, although the source's stale fire returns before reading it (`src/handlers/smartSwitchGroupHandler.js:79-81`); nothing in the source deletes a guild document.

## Findings

| source | as written | input that shows it | evidently intended | confidence | as-written member | corrected member |
|---|---|---|---|---|---|---|
| src/util/utils.js:51 | the rest is cut from the untrimmed input, but the word lengths it cuts by come from the trimmed input | `getArgs(" a b", 2)` gives `["a", "a b"]` | `["a", "b"]`: the rest after the first word | not executed | Utils.GetArgsAsWrittenRepeatsWord | Utils.GetArgs |
