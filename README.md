# VRC permission system: a Dafny model of the permission manager

This project models the runtime core of the JanSharp VRChat permission
system and proves properties of it. It covers:

- the permission manager (`PermissionManager`): the group store, player
  membership, the cached values for the local player, the resolver registry,
  the input actions, and game-state serialization, export and import;
- the condition-list evaluator (`PermissionsUtil.ResolveConditionsList`);
- the permissions part of a player's data (`PermissionsPlayerData`);
- the import/export options record (`PermissionImportExportOptions`).

The manager is a Dafny `class PermissionManager` (module `Manager`). Its
state lives in one field, `fields`, a value of type `Fields`. That value
holds:

- the `ManagerState`;
- whether the cached values may be stale;
- a ghost log of raised events;
- a ghost log of `Resolve` calls.

Groups, players and resolvers are objects in the source. Here they are
records in arenas (`groups`, `players`), addressed by handle. Two
references are the same object exactly when their handles are equal. Each
array-and-count pair of the source (`permissionGroups`, the member lists,
the resolver array) is the `seq` of its live prefix. The dictionaries are
`map`s.

Every mutating method keeps the invariant `Valid()`. It states what the
source keeps consistent at all times:

- the lookups by id and by name find exactly the live groups;
- each player's stored positions match the member lists;
- the resolver array and its table agree;
- each cached value equals the viewed group's flag.

Each operation is specified by a relation on the old and new state
(`Duplicated`, `Deleted`, `Renamed`, `ValueUpdated`, `PlayerMoved`,
`ViewedAs`, `Imported`, …). Lemmas prove what the source promises about
those relations.

The lockstep stream is a class over a sequence of abstract tokens, one per
`Write*` call: an unsigned integer, a string, or the flags of one
`WriteFlags` call. The wire encoding is not modelled. Round trips are
stated on these tokens.

Modules follow the source's structure:

| module | contents |
|---|---|
| `Records` | group, player and definition records |
| `Text` | trimming, number printing, the name stem |
| `ArrList` | the two list removals |
| `Membership` | the two member lists per group |
| `Store` | the group store's consistency |
| `ResolverRegistry` | the resolver array and table |
| `Consistency` | the whole invariant |
| `Transitions` | that each state change keeps it |
| `Effects` | what each operation changes |
| `Codec` | token layouts and round trips |
| `Snapshot`, `ImportLoop` | serialization, export and import proofs |
| `PermissionsUtil` | the condition evaluator |
| `ImportExportOptions` | the options record |
| `Lockstep` | the stream |
| `Manager` | the class |

`Manager.PermissionManager.DeregisterResolverExistence` carries the
corrected deregistration, not the program's. The program's version is
modelled as written in `ResolverRegistry.DeregisterAsWritten`; see
"## Findings".

## Model

| member | source | states |
|---|---|---|
| PermissionsUtil.ResolveConditionsList | Runtime/Scripts/PermissionsUtil.cs:18-32 | The loop with its running flag returns exactly `ConditionsHold`, the OR over runs (an entry with its following AND entries) of the AND of `value != invert` in the run |
| PermissionsUtil.EmptyListHolds | Runtime/Scripts/PermissionsUtil.cs:12-31 | An empty condition list holds |
| PermissionsUtil.SingleEntry | Runtime/Scripts/PermissionsUtil.cs:22-29 | A one-entry list yields `valueForLocalPlayer != inverts[0]`, whatever `logicalAnds[0]` is |
| PermissionsUtil.DisjunctionOfRuns | Runtime/Scripts/PermissionsUtil.cs:18-32 | The list holds iff it is empty or some run has every entry holding (both directions) |
| PermissionsUtil.ChainFromIff | Runtime/Scripts/PermissionsUtil.cs:24-26 | The AND chain from `j` holds iff every entry reached through AND entries only holds |
| PermissionsUtil.SomeRunFromIff | Runtime/Scripts/PermissionsUtil.cs:27-29 | Some later run holds iff there is an OR entry at or after `j` whose run holds |
| PermissionsUtil.OrEntryAfterMatchDecides | Runtime/Scripts/PermissionsUtil.cs:27-28 | If a prefix holds and an OR entry follows it, the whole list holds: later entries are never read |
| PermissionsUtil.PrefixRunsCarryOver | Runtime/Scripts/PermissionsUtil.cs:27-28 | A prefix ending before an OR entry that holds makes the whole list hold |
| PermissionsUtil.FailedEntrySinksItsRun | Runtime/Scripts/PermissionsUtil.cs:25-26 | After a failed entry its run fails; the following AND entries cannot revive it |
| PermissionsUtil.ExtraFlagsIgnored | Runtime/Scripts/PermissionsUtil.cs:20-24 | Only `permissionDefs.Length` entries are examined: extra AND and invert flags change nothing |
| ImportExportOptions.PermissionImportExportOptions.constructor | Runtime/Scripts/PermissionImportExportOptions.cs:12-13 | Both flags start true |
| ImportExportOptions.PermissionImportExportOptions.Clone | Runtime/Scripts/PermissionImportExportOptions.cs:15-21 | A fresh object, distinct from the original, with both flags equal to the original's; the original is unchanged |
| ImportExportOptions.PermissionImportExportOptions.Serialize | Runtime/Scripts/PermissionImportExportOptions.cs:23-28 | Appends one flags token: `includePermissionGroups`, then `includePlayerPermissionGroups` |
| ImportExportOptions.PermissionImportExportOptions.Deserialize | Runtime/Scripts/PermissionImportExportOptions.cs:30-35 | Reads one flags token and sets the two flags from it, in the same order |
| ImportExportOptions.SerializeDeserializeRoundTrip | Runtime/Scripts/PermissionImportExportOptions.cs:23-35 | Serialize then Deserialize into another object restores both flags |
| Manager.PermissionManager.OnPlayerDataInit | Runtime/Scripts/PermissionsPlayerData.cs:23-28 | `isAboutToBeImported` changes nothing; otherwise only the player's group changes, to the default group |
| Manager.PermissionManager.PersistPlayerDataWhileOffline | Runtime/Scripts/PermissionsPlayerData.cs:30-33 | For a player in a live group: true exactly when that group is not the default group |
| Manager.PermissionManager.SerializePlayerData | Runtime/Scripts/PermissionsPlayerData.cs:35-38 | Appends exactly one token: the id of the player's group |
| Manager.PermissionManager.DeserializePlayerData | Runtime/Scripts/PermissionsPlayerData.cs:40-44 | Reads one token into `deserializedId` and changes nothing else; `permissionGroup` is untouched |
| Manager.PermissionManager.PlayerDataRoundTrip | Runtime/Scripts/PermissionsPlayerData.cs:35-44 | Serializing player `p` and deserializing into player `q` sets `q`'s `deserializedId` to the id of `p`'s group; nothing else changes |
| Manager.PermissionManager.Start | Runtime/Scripts/PermissionManager.cs:120-138 | Definitions get `index = i` and are found by internal name; the resolver table is built from the serialized array, as the `null` guard at :135-136 intends (corrected start, see Findings), so array and table agree on the same resolvers; no groups, players, events or resolves |
| Manager.PermissionManager.IndexDefinitions | Runtime/Scripts/PermissionManager.cs:128-134 | Each definition `i` becomes `defs[i]` with `index := i`, and the by-name lookup maps each internal name to it |
| Manager.PermissionManager.PopulateAllPermissionResolversLut | Runtime/Scripts/PermissionManager.cs:671-688 | The walk from the top yields an array and table that agree, with the same multiset of resolvers, and an array no longer than before |
| ResolverRegistry.CompactStep | Runtime/Scripts/PermissionManager.cs:223-227 | Filling destroyed slot `i` with the top entry, and pointing its table entry at `i`, keeps the same live resolvers without repeats, leaves the slots below `i` alone, and lets the walk continue below `i` |
| Manager.PermissionManager.CacheGroupValues | Runtime/Scripts/PermissionManager.cs:212-214 | Every definition's `valueForLocalPlayer` becomes the group's flag at its index |
| Manager.PermissionManager.ResolveAllAndCompact | Runtime/Scripts/PermissionManager.cs:215-228 | The calls are the live resolvers from the top slot down (`TopDown` of the original array), so each is resolved exactly once; the array keeps the same resolvers, may shrink, and stays in agreement with the table |
| Manager.PermissionManager.WalkTurn | Runtime/Scripts/PermissionManager.cs:217-227 | One turn keeps the walk's invariant one slot lower (same live resolvers, array and table in agreement, everything above resolved); a live resolver is appended to the calls and nothing else adds one; the slots below stay untouched |
| Manager.PermissionManager.SetGroupToViewWorldAs | Runtime/Scripts/PermissionManager.cs:204-229 | The group already viewed changes nothing; otherwise `ViewedAs`: every cached value equals the new group's flag, and the resolvers are resolved once each, from the top slot down; nothing else changes |
| Manager.PermissionManager.ViewAs | Runtime/Scripts/PermissionManager.cs:209-228 | The body of the view switch on the state satisfies `ViewedAs` |
| Manager.PermissionManager.OnInit | Runtime/Scripts/PermissionManager.cs:185-192 | Initialized, and the world is viewed as the default group |
| Manager.PermissionManager.OnClientBeginCatchUp | Runtime/Scripts/PermissionManager.cs:195-202 | Initialized, and the world is viewed as the local player's group |
| Manager.PermissionManager.GetPermissionGroupByName | Runtime/Scripts/PermissionManager.cs:231-239 | Some live group with that name, or none when no live group has it |
| Manager.PermissionManager.TryGetPermissionGroup | Runtime/Scripts/PermissionManager.cs:79-88 | Some live group with that id, or none when no live group has it |
| Manager.PermissionManager.PlayerHasPermission | Runtime/Scripts/PermissionManager.cs:101-107 | True iff some definition with that internal name has its flag set in the player's group; an unknown name gives false |
| Manager.PermissionManager.PlayerHasPermissionDef | Runtime/Scripts/PermissionManager.cs:109-113 | Asking with the definition gives the same answer as asking with its internal name |
| Manager.PermissionManager.GetFirstUnusedGroupName | Runtime/Scripts/PermissionManager.cs:241-255 | The result is unused. A free name is returned unchanged. Otherwise it is stem + " " + k for the least k >= 1 whose name is free |
| Text.NameStem | Runtime/Scripts/PermissionManager.cs:125 | Capture group 1 of `^(.*?)(\s+\d+)?$`: the shortest prefix after which only white space and digits (or nothing) remain |
| Effects.TakenShrinks | Runtime/Scripts/PermissionManager.cs:252-253 | Each taken candidate strictly shrinks the set of taken numbered names, so the name search terminates |
| Text.Trim | Runtime/Scripts/PermissionManager.cs:289 | `string.Trim()`: white space removed at both ends and nowhere else |
| Text.TrimIdempotent | Runtime/Scripts/PermissionManager.cs:289 | Trimming twice is trimming once |
| Text.TrimEmptyIffAllWhiteSpace | Runtime/Scripts/PermissionManager.cs:290 | A name trims to "" exactly when it is all white space |
| Text.NatToStringRoundTrip | Runtime/Scripts/PermissionManager.cs:251-253 | The decimal digits of `postfix` read back as `postfix` |
| Text.NatToStringInjective | Runtime/Scripts/PermissionManager.cs:251-253 | Different postfixes print differently |
| Manager.PermissionManager.OnPrePlayerDataManagerInit | Runtime/Scripts/PermissionManager.cs:159-173 | The default group, named "Default", gets the next id and each definition's default value, is registered as the first group, and the store is consistent |
| Manager.PermissionManager.DefaultValues | Runtime/Scripts/PermissionManager.cs:168-171 | One flag per definition, equal to its `defaultValue` |
| Manager.PermissionManager.DuplicatePermissionGroupInGS | Runtime/Scripts/PermissionManager.cs:284-302 | `Duplicated`: trimmed name; an empty or taken name returns no group and changes nothing; otherwise a new group with the old `nextGroupId` (which grows by one) and a copy of the source's flags is in the live list and both lookups; the duplicated event fires unless deserializing for import |
| Manager.PermissionManager.DuplicateOn | Runtime/Scripts/PermissionManager.cs:284-312 | The same relation `Duplicated` on the fields, keeping the invariant |
| Transitions.CreateKeeps | Runtime/Scripts/PermissionManager.cs:292-311 | Registering a fresh group under the next id with a trimmed, non-empty, unused name keeps the invariant |
| Store.AddGroupKeeps | Runtime/Scripts/PermissionManager.cs:304-312 | `RegisterCreatedPermissionGroup` (append to the live list, add to both lookups) keeps the store consistent |
| Store.NextIdFree | Runtime/Scripts/PermissionManager.cs:294 | The next id is never in use |
| Manager.PermissionManager.SendDuplicatePermissionGroupIA | Runtime/Scripts/PermissionManager.cs:257-268 | An empty trimmed name writes nothing; otherwise the trimmed name and the source group's id |
| Manager.PermissionManager.OnDuplicatePermissionGroupIA | Runtime/Scripts/PermissionManager.cs:272-282 | An unknown source id changes nothing; otherwise `Duplicated` with the sending player as initiator |
| Manager.PermissionManager.DeletePermissionGroupInGS | Runtime/Scripts/PermissionManager.cs:344-352 | `DeletedUnlessRefused`: the default group, a deleted group, self as target, or a deleted target change nothing; otherwise `Deleted` with events |
| Manager.PermissionManager.DeletePermissionGroupInGSInternal | Runtime/Scripts/PermissionManager.cs:354-377 | `Deleted`: the group is marked deleted, every former member is in the target group, the group leaves the live list and both lookups; unless suppressed, one player-changed event per member (last first) then the deleted event, and the local view follows |
| Manager.PermissionManager.DeleteOnState | Runtime/Scripts/PermissionManager.cs:362-375 | The state change of the deletion keeps the invariant; suppressed, the view is left alone |
| Manager.PermissionManager.DeleteOn | Runtime/Scripts/PermissionManager.cs:354-377 | The same relation `Deleted` on the fields |
| Manager.PermissionManager.DeleteOnArenas | Runtime/Scripts/PermissionManager.cs:362-370 | The member loop equals `MoveOutOfDeleted`: marked deleted, then members moved from last to first |
| Effects.DeletionEventsOrder | Runtime/Scripts/PermissionManager.cs:369-375 | Exactly one player-changed event per member, from the last member to the first, then the group-deleted event last |
| Membership.MoveOutOfDeletedEffect | Runtime/Scripts/PermissionManager.cs:362-370 | Every former member now belongs to the target and is in its member list; every other player keeps its group |
| Membership.MoveMembersKeepsDeleted | Runtime/Scripts/PermissionManager.cs:362-367 | With the group already marked deleted, the walk never changes the list it iterates |
| Membership.MoveMembersEffect | Runtime/Scripts/PermissionManager.cs:366-370 | After the member loop each moved player belongs to the target and is listed; others keep their group and listing |
| Store.RemoveGroupKeeps | Runtime/Scripts/PermissionManager.cs:371-373 | Taking a live non-default group out of the live list and both lookups keeps the store consistent |
| Transitions.DeleteKeeps | Runtime/Scripts/PermissionManager.cs:354-377 | The whole deletion keeps the invariant |
| Manager.PermissionManager.DeletePermissionGroupWithoutCleanup | Runtime/Scripts/PermissionManager.cs:379-389 | Marked deleted and out of the live list and both lookups; the members and their records stay |
| Manager.PermissionManager.SendDeletePermissionGroupIA | Runtime/Scripts/PermissionManager.cs:314-324 | The same refusals as the apply side write nothing; otherwise both ids |
| Manager.PermissionManager.OnDeletePermissionGroupIA | Runtime/Scripts/PermissionManager.cs:328-342 | Either id unknown changes nothing; otherwise `DeletedUnlessRefused` |
| Manager.PermissionManager.RenamePermissionGroupInGS | Runtime/Scripts/PermissionManager.cs:422-437 | `Renamed`: the default group, an empty trimmed name, the current name and a taken name change nothing; otherwise the old name is no longer a key, the new name maps to the group, id and flags are unchanged, and the renamed event carries the previous name |
| Manager.PermissionManager.RenameOn | Runtime/Scripts/PermissionManager.cs:422-437 | The same relation on the fields |
| Store.RenameKeeps | Runtime/Scripts/PermissionManager.cs:432-435 | The name and lookup change keeps the store consistent |
| Manager.PermissionManager.SendRenamePermissionGroupIA | Runtime/Scripts/PermissionManager.cs:391-406 | The default group or an empty trimmed name writes nothing; the current name is not refused; otherwise the id and the trimmed name |
| Manager.PermissionManager.OnRenamePermissionGroupIA | Runtime/Scripts/PermissionManager.cs:410-420 | An unknown id changes nothing; otherwise `Renamed` |
| Manager.PermissionManager.PlayerDataPermissionGroupSetter | Runtime/Scripts/PermissionManager.cs:517-558 | Exactly the state `WithPlayerGroup` (the setter `SetGroup` on the roster), keeping the invariant |
| Manager.PermissionManager.SetterOnArenas | Runtime/Scripts/PermissionManager.cs:522-557 | The setter's body on the arenas equals `SetGroup` |
| Membership.SetGroupEffect | Runtime/Scripts/PermissionManager.cs:517-558 | The player gets the group. It is listed there, and online only when not offline; a null group leaves both positions -1. Every other player keeps its group and stays listed. The same group changes nothing |
| Membership.SetGroupKeepsMembership | Runtime/Scripts/PermissionManager.cs:517-558 | `players[i].indexInPlayersInGroup == i` for every listed `i`, and the same for the online list, before and after |
| Membership.ListedIff | Runtime/Scripts/PermissionManager.cs:527-557 | A player is in a live group's member list iff it belongs to it and stores a position; in the online list iff, in addition, it is online |
| Membership.SetGroupKeepsDeleted | Runtime/Scripts/PermissionManager.cs:528 | The setter never touches a deleted previous group |
| Membership.RemoveMemberKeeps | Runtime/Scripts/PermissionManager.cs:528-538 | Swap-removal from the member list keeps the tracker consistent and removes the player |
| Membership.RemoveOnlineMemberKeeps | Runtime/Scripts/PermissionManager.cs:560-574 | Swap-removal from the online list keeps the tracker consistent and removes the player |
| Manager.PermissionManager.RemoveFromOnlinePlayersInGroup | Runtime/Scripts/PermissionManager.cs:560-574 | Equals `RemoveOnlineMember`: the last entry moves into `index`, and its stored position is patched |
| ArrList.SwapRemove | Runtime/Scripts/PermissionManager.cs:565-573 | One shorter; the last element is now at `i`; the rest is unchanged |
| ArrList.SwapRemoveMultiset | Runtime/Scripts/PermissionManager.cs:565-573 | Swap-removal is a permutation of the list minus the removed element |
| Membership.AttachKeeps | Runtime/Scripts/PermissionManager.cs:552-557 | Appending to the member list (and to the online list unless offline) with the new positions keeps the tracker consistent |
| Membership.ClearKeeps | Runtime/Scripts/PermissionManager.cs:545-550 | A null group with both positions -1 keeps the tracker consistent |
| Manager.PermissionManager.OnPlayerDataWentOffline | Runtime/Scripts/PermissionManager.cs:577-585 | Exactly `WithOffline`: swap-removal from the group's online list, online position -1 |
| Membership.GoOfflineKeeps | Runtime/Scripts/PermissionManager.cs:577-585 | Going offline keeps the tracker consistent and takes the player off the online list |
| Manager.PermissionManager.OnPlayerDataWentOnline | Runtime/Scripts/PermissionManager.cs:588-597 | Exactly `WithOnline`: appended to the group's online list, storing that position |
| Membership.GoOnlineKeeps | Runtime/Scripts/PermissionManager.cs:588-597 | Going online keeps the tracker consistent and lists the player online |
| Manager.PermissionManager.SetPlayerPermissionGroupInGS | Runtime/Scripts/PermissionManager.cs:465-476 | `PlayerMoved`: a deleted group or the player's own group changes nothing; otherwise the setter moves the player, the local player's view follows, and one player-changed event names the previous group |
| Manager.PermissionManager.SetPlayerDataPermissionGroup | Runtime/Scripts/PermissionManager.cs:478-487 | The setter moves the player into the group and, for the local player, the view follows; the invariant is kept; the event is left to the caller |
| Manager.PermissionManager.MovePlayerOn | Runtime/Scripts/PermissionManager.cs:465-476 | The same relation on the fields |
| Manager.PermissionManager.SendSetPlayerPermissionGroupIA | Runtime/Scripts/PermissionManager.cs:439-447 | Writes the player reference and the group's id |
| Manager.PermissionManager.OnSetPlayerPermissionGroupIA | Runtime/Scripts/PermissionManager.cs:451-463 | An unknown player or an unknown group id changes nothing; otherwise `PlayerMoved` |
| Manager.PermissionManager.SetPermissionValueInGS | Runtime/Scripts/PermissionManager.cs:645-669 | `ValueUpdated`: an unchanged value changes nothing; otherwise only that flag changes; for the viewed group only, the cached value follows and that definition's non-null resolvers are resolved; the value-changed event fires regardless |
| Manager.PermissionManager.SetValueOn | Runtime/Scripts/PermissionManager.cs:645-669 | The same relation on the fields |
| Transitions.SetValueKeeps | Runtime/Scripts/PermissionManager.cs:650-667 | Setting one flag, with the cached value following for the viewed group, keeps the invariant |
| Transitions.WithFlagSame | Runtime/Scripts/PermissionManager.cs:652-654 | Setting a flag to its current value changes nothing |
| Manager.PermissionManager.SetPermissionValueInGSByName | Runtime/Scripts/PermissionManager.cs:635-643 | An unknown name changes nothing; otherwise `ValueUpdated` for that definition |
| Manager.PermissionManager.SendSetPermissionValueIA | Runtime/Scripts/PermissionManager.cs:609-618 | Writes the group id, the definition index, the value |
| Manager.PermissionManager.SendSetPermissionValueIAByName | Runtime/Scripts/PermissionManager.cs:599-607 | An unknown name writes nothing; a known one writes the payload for its definition |
| Manager.PermissionManager.OnSetPermissionValueIA | Runtime/Scripts/PermissionManager.cs:622-633 | An unknown group id changes nothing; otherwise `ValueUpdated` with the index and value read |
| Manager.PermissionManager.IsResolverExistenceRegistered | Runtime/Scripts/PermissionManager.cs:690-695 | True iff the resolver is a key of the table, which is iff it is in the array |
| Effects.KeyIffInArray | Runtime/Scripts/PermissionManager.cs:690-695 | In a consistent registry a resolver is a key exactly when it is in the array |
| Manager.PermissionManager.RegisterResolverExistence | Runtime/Scripts/PermissionManager.cs:697-703 | The resolver takes the next slot, the table maps it there, and it is registered |
| ResolverRegistry.RegisterKeepsRegistry | Runtime/Scripts/PermissionManager.cs:697-703 | Registering keeps array and table in agreement, and registers exactly the new resolver in addition |
| ResolverRegistry.RegisteredOnce | Runtime/Scripts/PermissionManager.cs:56-59 | Each registered resolver sits in exactly one slot |
| Manager.PermissionManager.DeregisterResolverExistence | Runtime/Scripts/PermissionManager.cs:705-715 | The corrected version (see Findings): an unregistered resolver changes nothing; otherwise it is unregistered and the last entry moves into its slot |
| ResolverRegistry.DeregisterKeepsRegistry | Runtime/Scripts/PermissionManager.cs:705-715 | The intended deregistration keeps array and table in agreement, unregisters exactly that resolver, and shrinks the array by one |
| ResolverRegistry.LastSlotDeregisterAsWrittenIsCorrect | Runtime/Scripts/PermissionManager.cs:707-711 | When the resolver is in the last slot, the written and intended versions agree, so the written one is correct there |
| ResolverRegistry.StartAsWrittenMissesSceneResolvers | Runtime/Scripts/PermissionManager.cs:690-702 | With the table initialized empty (:59, so the guard at :135-136 is dead), a resolver already in slot `k` of the scene's array is not registered, array and table disagree, and registering it puts it in slot `k` and in a new top slot |
| ResolverRegistry.TopDownCountsLive | Runtime/Scripts/PermissionManager.cs:215-221 | The top-down resolve order lists each resolver as often as the slots hold it |
| ResolverRegistry.WalkOrderStep | Runtime/Scripts/PermissionManager.cs:215-227 | One turn of the walk at slot `i` keeps the slots below `i` and extends the calls along the top-down order |
| ResolverRegistry.DeregisterAsWrittenLosesTop | Runtime/Scripts/PermissionManager.cs:712-714 | With resolvers 1 and 2 in slots 0 and 1, the written deregistration of 1 leaves 1 registered, breaks agreement, and loses 2 from the array |
| ResolverRegistry.RegisterThenDeregister | Runtime/Scripts/PermissionManager.cs:697-715 | Registering and then deregistering (as intended) gives back the original registry |
| ResolverRegistry.CompactKeepsRegistry | Runtime/Scripts/PermissionManager.cs:223-227 | Filling a destroyed slot with the top entry and moving its table entry keeps the registry consistent |
| ResolverRegistry.PresentMembers | Runtime/Scripts/PermissionManager.cs:215-222 | The resolvers the walk resolves are exactly those some slot holds |
| Manager.PermissionManager.WritePermissionGroupRef | Runtime/Scripts/PermissionManager.cs:489-495 | A group is written as its id |
| Manager.PermissionManager.ReadPermissionGroupRef | Runtime/Scripts/PermissionManager.cs:502-510 | During import the id goes through the imported-id table; otherwise a known id gives its live group and an unknown id gives none |
| Manager.PermissionManager.GetPermissionGroupFromImportedId | Runtime/Scripts/PermissionManager.cs:91-92 | The imported id maps to a group of the arena |
| Manager.PermissionManager.SerializeGameState | Runtime/Scripts/PermissionManager.cs:1012-1024 | An export writes `ExportTokens` of the export; otherwise the next id, then the live groups |
| Manager.PermissionManager.WritePermissionGroups | Runtime/Scripts/PermissionManager.cs:789-797 | The group count, then each live group's id, name and flags, in live-list order |
| Manager.PermissionManager.ReadPermissionGroup | Runtime/Scripts/PermissionManager.cs:774-787 | A group with the id, name and flags read; `isDefault` iff the name is "Default" |
| Manager.PermissionManager.ReadPermissionGroups | Runtime/Scripts/PermissionManager.cs:799-809 | Reads the count, registers each group read in order in the arena, the live list and both lookups; group 0 becomes the default |
| Manager.PermissionManager.ReadGameStateOn | Runtime/Scripts/PermissionManager.cs:1036-1037 | Reading the next id and the groups gives `Deserialized` and keeps the invariant |
| Manager.PermissionManager.DeserializeGameState | Runtime/Scripts/PermissionManager.cs:1026-1039 | An import satisfies `Imported`; otherwise the game state is read back (`Deserialized`); no error message in either case |
| Codec.GameStateRoundTrip | Runtime/Scripts/PermissionManager.cs:764-809 | Decoding what was serialized gives the next id and every group's id, name and flags, in order, and leaves what follows |
| Codec.DecodeGameStateSound | Runtime/Scripts/PermissionManager.cs:799-809 | A stream that decodes is the serialization of its result followed by the rest |
| Snapshot.GameStateRoundTrip | Runtime/Scripts/PermissionManager.cs:1012-1039 | Deserializing what a consistent store serializes gives the same next id and the same live groups (ids, names, flags) in the same order |
| Snapshot.DeserializedOk | Runtime/Scripts/PermissionManager.cs:1036-1037 | Deserializing a well-formed game state into an empty store gives a consistent manager |
| Snapshot.SnapshotOfValid | Runtime/Scripts/PermissionManager.cs:1022-1023 | What a consistent store writes is a game state deserialization accepts |
| Manager.PermissionManager.Export | Runtime/Scripts/PermissionManager.cs:942-957 | The options, the group count, the names and ids; with groups included, also the definition count, their internal names and each live group's flags |
| Manager.PermissionManager.ExportPermissionGroupNamesAndIds | Runtime/Scripts/PermissionManager.cs:835-846 | Each live group's name, then its id, in live-list order |
| Manager.PermissionManager.ExportPermissionDefinitionsMetadata | Runtime/Scripts/PermissionManager.cs:811-818 | Each definition's internal name, in order |
| Manager.PermissionManager.ExportPermissionGroupFlags | Runtime/Scripts/PermissionManager.cs:910-920 | Each live group's flags, in live-list order |
| Snapshot.ExportJoin | Runtime/Scripts/PermissionManager.cs:947-956 | The pieces `Export` writes one after another form `ExportTokens` of the export |
| Snapshot.ExportReadBack | Runtime/Scripts/PermissionManager.cs:942-983 | An import decodes what an export of a consistent store writes; the groups it names satisfy the import's requirements |
| Codec.ExportRoundTrip | Runtime/Scripts/PermissionManager.cs:942-983 | Importing an export reads back the options, every name and id in order, and, with groups, every definition name and every group's flags |
| Manager.PermissionManager.ImportOn | Runtime/Scripts/PermissionManager.cs:959-983 | `Imported`: the export's options are read into a new object. Groups are imported when both sides include them; players move out of deleted groups unless both include player groups; otherwise only the imported-id table is built |
| Manager.PermissionManager.ImportGroupsOn | Runtime/Scripts/PermissionManager.cs:973-982 | Names and ids are imported (`NamesImported`), then every live group's flags are `FlagsOverwritten` by its imported row |
| Manager.PermissionManager.OnlyBuildGroupsByImportedId | Runtime/Scripts/PermissionManager.cs:848-866 | The new table maps each imported id to the live group of that name, or to the default group; nothing else changes |
| Manager.PermissionManager.ReadFallbackIds | Runtime/Scripts/PermissionManager.cs:853-865 | The loop builds exactly `FallbackIds` |
| Manager.PermissionManager.ImportPermissionGroupNamesAndIds | Runtime/Scripts/PermissionManager.cs:868-908 | `NamesImported`: the live list becomes the imported groups in imported order, each found by name or created as a copy of the default group. Each imported id maps to its group. Every previously live group not imported is gone. Each imported group keeps the flags it had, or the default's |
| Manager.PermissionManager.ImportNames | Runtime/Scripts/PermissionManager.cs:881-894 | The first loop computes `NamesAfter`: lookup or copy of the default group (no event), recorded in order, kept, and mapped from its imported id |
| Manager.PermissionManager.ImportNameStep | Runtime/Scripts/PermissionManager.cs:885-889 | One turn equals `NameImportStep` |
| ImportLoop.NamesAfterOk | Runtime/Scripts/PermissionManager.cs:881-894 | After any number of turns the first loop's invariant holds: consistent state, only imported groups added, each name imported in order |
| ImportLoop.StepKeeps | Runtime/Scripts/PermissionManager.cs:883-890 | Each turn, found or created, keeps the first loop's invariant |
| ImportLoop.FoundNameKeeps | Runtime/Scripts/PermissionManager.cs:885-886 | A turn on a name the store has keeps the invariant |
| ImportLoop.CreatedNameKeeps | Runtime/Scripts/PermissionManager.cs:887 | A turn that creates a copy of the default group keeps the invariant |
| Snapshot.CreatedForImportKeeps | Runtime/Scripts/PermissionManager.cs:887-889 | A copy of the default group created for an import and recorded under its imported id keeps the store consistent |
| Snapshot.ImportNamesDone | Runtime/Scripts/PermissionManager.cs:881-894 | After the first loop the imported groups start with the default group and hold no group twice |
| Manager.PermissionManager.DeleteGroupsNotKept | Runtime/Scripts/PermissionManager.cs:896-905 | From the last originally live group to the first, each not kept is deleted, with its players moved to the default group (events suppressed), or without cleanup |
| Manager.PermissionManager.DeleteIfNotKept | Runtime/Scripts/PermissionManager.cs:899-904 | One turn of the second loop keeps its invariant |
| Manager.PermissionManager.DeleteNotKeptGroup | Runtime/Scripts/PermissionManager.cs:901-904 | A live non-default group not kept is dropped; when players move, it is `Deleted` with its players moved to the default group, events suppressed and the world view left alone; otherwise it is removed without cleanup and nothing else changes |
| Snapshot.NamesAndIdsImported | Runtime/Scripts/PermissionManager.cs:896-907 | Once the live list is replaced by the imported groups, `NamesImported` holds |
| Snapshot.ImportedStillLive | Runtime/Scripts/PermissionManager.cs:897-907 | The imported groups are exactly the groups still live after the second loop |
| Manager.PermissionManager.ImportPermissionDefinitionsMetadata | Runtime/Scripts/PermissionManager.cs:821-833 | Returns `DefIndexMap`: one entry per local definition, -1 when its internal name is not imported, else the (last) imported position of that name |
| Snapshot.DefIndexMap | Runtime/Scripts/PermissionManager.cs:826-831 | For each definition, -1 without a matching imported name, otherwise that name's imported position |
| Snapshot.DefIndexStep | Runtime/Scripts/PermissionManager.cs:829-831 | One turn of the name loop extends the map by the name read at `i` |
| Manager.PermissionManager.ImportPermissionGroupFlags | Runtime/Scripts/PermissionManager.cs:922-940 | Every live group's flags are overwritten exactly where the map entry is not -1, others unchanged (`FlagsImported`); cached values count as stale |
| Manager.PermissionManager.OverwriteFlags | Runtime/Scripts/PermissionManager.cs:932-938 | A flag with map entry -1 keeps its value; any other takes the imported flag at its entry |
| Manager.PermissionManager.ImportGroupFlags | Runtime/Scripts/PermissionManager.cs:929-938 | One turn: the i-th live group takes its imported row |
| Snapshot.OverwrittenByIndexMap | Runtime/Scripts/PermissionManager.cs:933-937 | Overwriting through `DefIndexMap` is the overwrite `FlagsOverwritten` states |
| Snapshot.FlagsOverImport | Runtime/Scripts/PermissionManager.cs:980-982 | Overwriting flags after the names keeps the names imported and gives each live group its overwritten flags |
| Manager.PermissionManager.OnImportFinishingUp | Runtime/Scripts/PermissionManager.cs:986-997 | Not this import: nothing changes. When groups were imported the view is cleared first, so the cache is refreshed (no longer stale); then the world is viewed as the local player's group |
| Manager.PermissionManager.OnImportFinished | Runtime/Scripts/PermissionManager.cs:1000-1010 | Not this import: nothing changes; otherwise the export's options and the imported-id table are dropped |
| Effects.ViewedAsKeeps | Runtime/Scripts/PermissionManager.cs:211-214 | A view switch keeps the invariant, and the cache is fresh once the view switched |
| Store.FoundById | Runtime/Scripts/PermissionManager.cs:38-39 | A live group is found under its own id and its own name |
| Snapshot.IndexByOk | Runtime/Scripts/PermissionManager.cs:806-807 | The lookups built while reading find each key at its position |
| Text.TrimmedIsFixed | Runtime/Scripts/PermissionManager.cs:289 | A string without white space at either end is its own trim |
| ArrList.RemoveCounts | Runtime/Scripts/PermissionManager.cs:371 | The list removal takes out exactly one copy of the group when there is one |
| ArrList.RemoveAt | Runtime/Scripts/PermissionManager.cs:371 | In a list without repeats, removal drops that position and keeps the rest in order |

## Left out

- Lockstep transport: `Write*`/`Read*`, `SendInputAction` and `WriteCustomClass`/`ReadCustomClass` are an abstract token sequence. The small-uint wire encoding, the packing of flags into bytes and the sending of input actions are not modelled.
- Events (`CustomRaisedEvents.Raise`, listener arrays) and `PermissionResolver.Resolve` are two separate ghost logs. Listeners, reentrancy and resolver side effects are external.
- Resolve/event interleaving: the two logs lose the order of resolves relative to events. `Manager.PermissionManager.DeletePermissionGroupInGSInternal` switches the local player's view once after the member loop. The source may switch it in the middle of the loop, at PermissionManager.cs:370 through :485. Only the end state and each log's own order are stated: events in raise order, resolves from the top slot down for each view switch.
- Manager.PermissionManager.OnSetPermissionValueIA: requires `defIndex < |permissionDefs|`. The source indexes `permissionDefs[defIndex]` unchecked and throws on an out-of-range index from a peer; exceptions are not modelled.
- PermissionsUtil.ResolveConditionsList: requires `WellShaped` (at least as many AND and invert flags as definitions). The source throws an index exception on shorter arrays.
- Manager.PermissionManager.DeserializeGameState: requires a well-formed game state (`SnapshotOk`), or, for an import, `ExportShaped` and `Importable`. Well-formed means distinct ids and names, trimmed non-empty names, and a first group named "Default". The stream must also hold exactly those tokens. The source reads whatever arrives and can corrupt its lookups or throw otherwise; malformed payloads are not modelled.
- Manager.PermissionManager.ImportOn: requires `ExportShaped` and `Importable` for the same reason.
- Manager.PermissionManager.DuplicatePermissionGroupInGS: `nextGroupId` is a `nat`. The source's `uint` `nextGroupId++` wraps at 2^32, which the model does not.
- Manager.PermissionManager.OnPlayerDataWentOffline: the model's player record carries the player data system's `core.isOffline`, and this hook sets it together with the online position. The source does not write it here; the player data system does. The hook also requires the player to be online, listed online, and in a live group, which the player data system guarantees in the source.
- Manager.PermissionManager.OnPlayerDataWentOnline: clears `core.isOffline` together with the online position, for the same reason. It requires an offline player in a live group.
- Membership.GoOffline: sets `isOffline` along with the online position, and Membership.GoOnline clears it, for the reason given for the two hooks above.
- Manager.PermissionManager.FillFromTop: when the top slot is a destroyed resolver, the model skips the table write `allPermissionResolversLut[top] = i`. The source writes it with a null key (PermissionManager.cs:227, :686). Null keys are not modelled.
- ResolverRegistry.Deregister: when the entry that was last is a destroyed resolver, the table write `allPermissionResolversLut[top] = index` is skipped, as in `ResolverRegistry.DeregisterAsWritten` and `ResolverRegistry.CompactStep`; null keys are not modelled.
- Manager.PermissionManager.Start: builds the resolver table from the array, as the `null` guards intend. As written the field initializer at PermissionManager.cs:59 makes the guards at :135-136, :692-693 and :699-700 dead (see Findings; `ResolverRegistry.StartAsWritten` models that start). The null-table throw in `DeregisterResolverExistence` (:707) is then unreachable and not modelled.
- ResolverRegistry.RegistryOk: a destroyed resolver's slot is `None` and has no table key. In the source a destroyed (Unity "fake null") resolver keeps its key until compaction. That state is not modelled.
- Manager.PermissionManager.RegisterResolverExistence: requires a resolver not yet registered. The source's `DataDictionary.Add` would fail on a duplicate key.
- ArrList.Remove: the `ArrList` helper library is not part of this model. Its `Remove` is taken to drop the first occurrence and keep the rest in order.
- Text.NameStem: .NET `\d` matches every Unicode decimal digit. The model's `IsDigit` accepts only ASCII 0-9, and `\s` is the `char.IsWhiteSpace` set used for trimming. Regex compilation is not modelled.
- Manager.PermissionManager.RenamePermissionGroupInGS: requires a live group. The public override accepts a deleted one (no `isDeleted` guard at PermissionManager.cs:422-437). For a deleted group, :434 would remove the name entry of whichever live group holds that name now. Only renames of live groups are modelled; the input action always passes a live group (:415-419).
- Manager.PermissionManager.OnPlayerDataInit: requires a record that is not yet in any member list. The player data system creates records; that creation is not modelled.
- Manager.PermissionManager.PersistPlayerDataWhileOffline: stated only for a player in a live group. A player in a deleted group does not occur once deletions have moved players out.
- Object allocation and reference counting (`WannaBeClasses.New`, `DecrementRefsCount`) are not modelled: groups are arena records and options objects are Dafny objects.
- Array growth: `ArrList.EnsureCapacity` (PermissionManager.cs:805) and the capacity doubling at :873-876 disappear, because lists are modelled as `seq`.
- Manager.PermissionManager.DeleteGroupsNotKept: where the members of a deleted group end up during an import is stated in `Deleted`/`GroupDropped`. The import contract `NamesImported` states only which groups stay live.
- Import resolution of `deserializedId` into a group (done by the player data system through `ReadPermissionGroupRef`) is not modelled beyond `Manager.PermissionManager.ReadPermissionGroupRef`.
- Per-definition resolver registration (`RegisterResolver`/`DeregisterResolver`, PermissionManager.cs:717-749) and the frame-delayed prepopulate loop (:751-760) are not modelled. `PermissionDefinition` is not part of this model; its resolver list is a given sequence.
- Player-data lifecycle hooks `OnRegisterCustomPlayerData`, `OnAllCustomPlayerDataRegistered` and `OnLocalPlayerDataAvailable` (PermissionManager.cs:141-157, :175-182) only exchange handles with the player data system. `GetPermissionsPlayerData` and `GetPlayerDataForPlayerId` are handle lookups and are not modelled.
- The `PermissionGroups`, `GetPermissionGroup(int)` and `GetPermissionGroup(uint)` accessors (PermissionManager.cs:66-78) are plain reads of the modelled fields.
- `PERMISSION_SYSTEM_DEBUG` logging is not modelled.
- Null references are `None` (for a group or resolver) or the empty map (for `groupsByImportedId` after an import).

## Findings

| source | as written | input that shows it | evidently intended | confidence | as-written member | corrected member |
|---|---|---|---|---|---|---|
| Runtime/Scripts/PermissionManager.cs:59 | The table field is initialized to an empty `DataDictionary`, so the `allPermissionResolversLut == null` guards at :135, :692 and :699 never fire and the resolvers serialized in the scene's array are never entered into the table | One resolver r in slot 0 of the scene's array. After `Start`, `IsResolverExistenceRegistered(r)` is false, and `RegisterResolverExistence(r)` puts r in slots 0 and 1 | The table starts `null` so the first use builds it from the array | high; not executed | ResolverRegistry.StartAsWritten, ResolverRegistry.StartAsWrittenMissesSceneResolvers | Manager.PermissionManager.Start, Manager.PermissionManager.PopulateAllPermissionResolversLut, Effects.KeyIffInArray |
| Runtime/Scripts/PermissionManager.cs:712 | `top = allPermissionResolvers[index]` reads the freed slot itself, so the last entry is never moved into the freed slot | Resolvers 1 and 2 in slots 0 and 1; deregister 1. Resolver 1 stays registered in slot 0. Resolver 2 is no longer in the array, but its table entry points past the live slots | `top = allPermissionResolvers[allPermissionResolversCount]`, the entry that was last | high; not executed | ResolverRegistry.DeregisterAsWritten, ResolverRegistry.DeregisterAsWrittenLosesTop | ResolverRegistry.Deregister, ResolverRegistry.DeregisterKeepsRegistry, Manager.PermissionManager.DeregisterResolverExistence |
