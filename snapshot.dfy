/**
 * What the permission manager's game state and its exports hold, read off
 * the bundled state, and what reading them back produces. The manager's
 * serialization methods write and read tokens; the functions here say which
 * tokens and which state, and the lemmas say why the state read back is
 * consistent and equal to the one written.
 */
module Snapshot {
  import opened Wrappers
  import opened Records
  import opened Text
  import opened ArrList
  import opened Membership
  import opened Store
  import opened Lockstep
  import opened Codec
  import opened Consistency
  import opened Transitions
  import opened Effects

  // ---------------------------------------------------------------- Lookups built in order

  /**
   * The lookup `Dictionary.Add` builds when `keys[i]` is added under `i`, one
   * key after the other.
   */
  function IndexBy<K(==)>(keys: seq<K>): map<K, nat>
  {
    if keys == [] then map[] else IndexBy(keys[..|keys| - 1])[keys[|keys| - 1] := |keys| - 1]
  }

  /** Every key of `IndexBy(keys)` is found at the position it maps to, and, for distinct keys, every position is found under its key. */
  lemma {:induction false} IndexByOk<K>(keys: seq<K>)
    requires Distinct(keys)
    ensures forall i :: 0 <= i < |keys| ==> keys[i] in IndexBy(keys) && IndexBy(keys)[keys[i]] == i
    ensures forall k :: k in IndexBy(keys) ==> IndexBy(keys)[k] < |keys| && keys[IndexBy(keys)[k]] == k
  {
    if keys != [] {
      var init := keys[..|keys| - 1];
      InitDistinct(keys);
      IndexByOk(init);
    }
  }

  /** `0, 1, …, n - 1`. */
  function Range(n: nat): seq<GroupRef> {
    seq(n, i => i)
  }

  // ---------------------------------------------------------------- Game state

  /** What the game state holds of group `g`. */
  function GroupStateOf(g: PermissionGroup): GroupState {
    GroupState(g.id, g.groupName, g.permissionValues)
  }

  /** The live groups' ids, names and flags, in the order of the live list. */
  function LiveGroupStates(s: ManagerState): seq<GroupState> {
    seq(|s.permissionGroups|, i requires 0 <= i < |s.permissionGroups| =>
          if s.permissionGroups[i] < |s.groups| then GroupStateOf(s.groups[s.permissionGroups[i]]) else GroupState(0, "", []))
  }

  /** Every live group is in the arena: what writing the live groups needs. */
  predicate LiveInArena(s: ManagerState) {
    forall i :: 0 <= i < |s.permissionGroups| ==> s.permissionGroups[i] < |s.groups|
  }

  /** The ids of `gs`, in order. */
  function Ids(gs: seq<GroupState>): seq<nat> {
    seq(|gs|, i requires 0 <= i < |gs| => gs[i].id)
  }

  /** The names of `gs`, in order. */
  function Names(gs: seq<GroupState>): seq<string> {
    seq(|gs|, i requires 0 <= i < |gs| => gs[i].groupName)
  }

  /** Registering group `i` read back adds its id and name under `i` and appends `i` to the live list. */
  lemma RegisterNext(gs: seq<GroupState>, i: nat)
    requires i < |gs|
    ensures IndexBy(Ids(gs)[..i + 1]) == IndexBy(Ids(gs)[..i])[gs[i].id := i]
    ensures IndexBy(Names(gs)[..i + 1]) == IndexBy(Names(gs)[..i])[gs[i].groupName := i]
    ensures Range(i + 1) == Range(i) + [i]
  {
    assert Ids(gs)[..i + 1][..i] == Ids(gs)[..i] && Names(gs)[..i + 1][..i] == Names(gs)[..i];
  }

  /** Group `i` of groups written at `pos` sits at `pos + 3 * i`: id, name, flags. */
  lemma GroupAt(tokens: seq<Token>, pos: nat, gs: seq<GroupState>, i: nat)
    requires i < |gs| && pos + 3 * |gs| <= |tokens| && tokens[pos..pos + 3 * |gs|] == GroupsTokens(gs)
    ensures pos + 3 * i + 3 <= |tokens| && pos + 3 * (i + 1) == pos + 3 * i + 3
    ensures tokens[pos + 3 * i] == UInt(gs[i].id) && tokens[pos + 3 * i + 1] == Str(gs[i].groupName)
    ensures tokens[pos + 3 * i + 2] == Flags(gs[i].permissionValues)
  {
    GroupsTokensAt(gs, i);
    TokenAt(tokens, pos, GroupsTokens(gs), 3 * i);
    TokenAt(tokens, pos, GroupsTokens(gs), 3 * i + 1);
    TokenAt(tokens, pos, GroupsTokens(gs), 3 * i + 2);
  }

  /**
   * What a game state must hold for `DeserializeGameState` to rebuild a
   * consistent store: a first group named "Default", one flag per definition
   * in every group, trimmed names that are not empty, distinct ids and names,
   * and ids below the next id.
   */
  predicate SnapshotOk(nextGroupId: nat, gs: seq<GroupState>, defsCount: nat) {
    && |gs| > 0 && gs[0].groupName == DefaultGroupName
    && FlagsSized(gs, defsCount)
    && (forall i :: 0 <= i < |gs| ==> gs[i].id < nextGroupId && Trimmed(gs[i].groupName) && gs[i].groupName != "")
    && Distinct(Ids(gs)) && Distinct(Names(gs))
  }

  /** `ReadPermissionGroup`: the group read back, the default group exactly when it is named "Default". */
  function GroupRead(g: GroupState): PermissionGroup {
    PermissionGroup(g.groupName == DefaultGroupName, g.id, g.groupName, g.permissionValues, false, [], [])
  }

  /**
   * `DeserializeGameState` for a non-import, into a manager with no groups:
   * the next id is read, each group read is registered in turn, and the first
   * one becomes the default group.
   */
  function Deserialized(s: ManagerState, nextGroupId: nat, gs: seq<GroupState>): ManagerState {
    s.(nextGroupId := nextGroupId,
       groups := seq(|gs|, i requires 0 <= i < |gs| => GroupRead(gs[i])),
       permissionGroups := Range(|gs|),
       groupsById := IndexBy(Ids(gs)),
       groupsByName := IndexBy(Names(gs)),
       defaultPermissionGroup := 0)
  }

  /** The groups a game state brings have empty member lists, so the players of a store with no groups stay consistent. */
  lemma NewGroupsKeepMembership(players: seq<PermissionsPlayerData>, groups: seq<PermissionGroup>)
    requires MembershipOk(Roster(players, []))
    requires forall g :: 0 <= g < |groups| ==> groups[g].playersInGroup == [] && groups[g].onlinePlayersInGroup == []
    ensures MembershipOk(Roster(players, groups))
  {
    forall p | 0 <= p < |players|
      ensures PlayerOk(Roster(players, groups), p)
    {
      assert PlayerOk(Roster(players, []), p);
    }
  }

  /**
   * Deserializing a well-formed game state into a manager with no groups
   * gives a consistent manager with a consistent store.
   */
  lemma DeserializedOk(s: ManagerState, viewStale: bool, nextGroupId: nat, gs: seq<GroupState>)
    requires StateOk(s, viewStale) && StoreEmpty(s) && SnapshotOk(nextGroupId, gs, |s.permissionDefs|)
    ensures StateOk(Deserialized(s, nextGroupId, gs), viewStale) && StoreValid(Deserialized(s, nextGroupId, gs))
  {
    var s' := Deserialized(s, nextGroupId, gs);
    var ids, names := Ids(gs), Names(gs);
    IndexByOk(ids);
    IndexByOk(names);
    NewGroupsKeepMembership(s.players, s'.groups);
    assert GroupFlagsSized(s'.groups, |s.permissionDefs|);
    forall i | 0 <= i < |s'.permissionGroups|
      ensures s'.permissionGroups[i] < |s'.groups|
              && Indexed(s'.groups, s'.groupsById, s'.groupsByName, nextGroupId, 0, s'.permissionGroups[i])
    {
      assert ids[i] == gs[i].id && names[i] == gs[i].groupName;
      assert i != 0 ==> names[i] != names[0];
    }
    forall id | id in s'.groupsById
      ensures s'.groupsById[id] in s'.permissionGroups && s'.groupsById[id] < |s'.groups| && s'.groups[s'.groupsById[id]].id == id
    {
      assert s'.permissionGroups[s'.groupsById[id]] == s'.groupsById[id];
    }
    forall n | n in s'.groupsByName
      ensures s'.groupsByName[n] in s'.permissionGroups && s'.groupsByName[n] < |s'.groups| && s'.groups[s'.groupsByName[n]].groupName == n
    {
      assert s'.permissionGroups[s'.groupsByName[n]] == s'.groupsByName[n];
    }
    forall h | 0 <= h < |s'.groups| ensures h in s'.permissionGroups {
      assert s'.permissionGroups[h] == h;
    }
    assert StoreHead(s'.groups, s'.permissionGroups, 0);
    assert StoreValidOk(s'.groups, s'.permissionGroups, s'.groupsById, s'.groupsByName, 0, nextGroupId);
  }

  /** What `SerializeGameState` writes of a consistent store is a game state `DeserializeGameState` accepts. */
  lemma SnapshotOfValid(s: ManagerState, viewStale: bool)
    requires StateOk(s, viewStale) && StoreValid(s)
    ensures SnapshotOk(s.nextGroupId, LiveGroupStates(s), |s.permissionDefs|)
  {
    var gs := LiveGroupStates(s);
    var live := s.permissionGroups;
    forall i | 0 <= i < |gs|
      ensures gs[i] == GroupStateOf(s.groups[live[i]])
      ensures Indexed(s.groups, s.groupsById, s.groupsByName, s.nextGroupId, s.defaultPermissionGroup, live[i])
    {
    }
    forall i, j | 0 <= i < j < |gs| ensures Ids(gs)[i] != Ids(gs)[j] && Names(gs)[i] != Names(gs)[j] {
      assert live[i] != live[j];
    }
  }

  /**
   * The game state round trip: reading back what a consistent store writes
   * gives the same next id and the same live groups (ids, names and flags) in
   * the same order, each the default group exactly when it was before.
   */
  lemma GameStateRoundTrip(s: ManagerState, viewStale: bool, s0: ManagerState)
    requires StateOk(s, viewStale) && StoreValid(s)
    ensures var s' := Deserialized(s0, s.nextGroupId, LiveGroupStates(s));
            && s'.nextGroupId == s.nextGroupId
            && LiveGroupStates(s') == LiveGroupStates(s)
            && |s'.permissionGroups| == |s.permissionGroups|
            && forall i :: 0 <= i < |s.permissionGroups| ==>
                 s'.groups[s'.permissionGroups[i]].isDefault == s.groups[s.permissionGroups[i]].isDefault
  {
    var gs := LiveGroupStates(s);
    var s' := Deserialized(s0, s.nextGroupId, gs);
    var live := s.permissionGroups;
    SnapshotOfValid(s, viewStale);
    forall i | 0 <= i < |live|
      ensures LiveGroupStates(s')[i] == gs[i]
      ensures s'.groups[s'.permissionGroups[i]].isDefault == s.groups[live[i]].isDefault
    {
      assert Indexed(s.groups, s.groupsById, s.groupsByName, s.nextGroupId, s.defaultPermissionGroup, live[i]);
      assert i != 0 ==> Names(gs)[i] != Names(gs)[0] && live[i] != live[0];
    }
  }

  // ---------------------------------------------------------------- Export

  /** The live groups' names and ids, in the order of the live list. */
  function NamesAndIdsOf(s: ManagerState): seq<GroupNameAndId> {
    var gs := LiveGroupStates(s);
    seq(|gs|, i requires 0 <= i < |gs| => GroupNameAndId(gs[i].groupName, gs[i].id))
  }

  /** The definitions' internal names, in order. */
  function DefinitionNames(defs: seq<PermissionDefinition>): seq<string> {
    seq(|defs|, i requires 0 <= i < |defs| => defs[i].internalName)
  }

  /** The live groups' flags, in the order of the live list. */
  function FlagRowsOf(s: ManagerState): seq<seq<bool>> {
    var gs := LiveGroupStates(s);
    seq(|gs|, i requires 0 <= i < |gs| => gs[i].permissionValues)
  }

  /** What `Export` writes of `s`: the options, the live groups' names and ids, and, with groups, the definitions and flags. */
  function ExportOf(s: ManagerState, includePermissionGroups: bool, includePlayerPermissionGroups: bool): ExportData {
    ExportData(includePermissionGroups, includePlayerPermissionGroups, NamesAndIdsOf(s),
               if includePermissionGroups then DefinitionNames(s.permissionDefs) else [],
               if includePermissionGroups then FlagRowsOf(s) else [])
  }

  /** The pieces `Export` writes one after another make up `ExportTokens` of what it exports. */
  lemma ExportJoin(t0: seq<Token>, t1: seq<Token>, t2: seq<Token>, t3: seq<Token>, s: ManagerState,
                   includePermissionGroups: bool, includePlayerPermissionGroups: bool)
    requires t1 == t0 + [Flags([includePermissionGroups, includePlayerPermissionGroups]), UInt(|s.permissionGroups|)]
    requires t2 == t1 + NamesAndIdsTokens(NamesAndIdsOf(s))
    requires !includePermissionGroups ==> t3 == t2
    requires includePermissionGroups ==>
               t3 == t2 + [UInt(|s.permissionDefs|)] + StringsTokens(DefinitionNames(s.permissionDefs)) + FlagsTokens(FlagRowsOf(s))
    ensures t3 == t0 + ExportTokens(ExportOf(s, includePermissionGroups, includePlayerPermissionGroups))
  {
    var e := ExportOf(s, includePermissionGroups, includePlayerPermissionGroups);
    assert |e.groups| == |s.permissionGroups|;
    if includePermissionGroups {
      assert GroupsPartTokens(e) == [UInt(|s.permissionDefs|)] + StringsTokens(DefinitionNames(s.permissionDefs)) + FlagsTokens(FlagRowsOf(s));
    }
  }

  /** The names of exported groups, in order. */
  function GroupNames(gs: seq<GroupNameAndId>): seq<string> {
    seq(|gs|, i requires 0 <= i < |gs| => gs[i].groupName)
  }

  /** The ids of exported groups, in order. */
  function GroupIds(gs: seq<GroupNameAndId>): seq<nat> {
    seq(|gs|, i requires 0 <= i < |gs| => gs[i].id)
  }

  /**
   * What `ImportPermissionGroupNamesAndIds` relies on: the first group is
   * named "Default" (it becomes the default group again), names are trimmed
   * and not empty (so a missing one can be created under it), and names and
   * ids are distinct (each is added once to a lookup).
   */
  predicate Importable(gs: seq<GroupNameAndId>) {
    && |gs| > 0 && gs[0].groupName == DefaultGroupName
    && (forall i :: 0 <= i < |gs| ==> Trimmed(gs[i].groupName) && gs[i].groupName != "")
    && Distinct(GroupNames(gs)) && Distinct(GroupIds(gs))
  }

  /**
   * The export round trip: an import decodes what an export of a consistent
   * store writes, whole and followed by whatever came after it, and the groups
   * it names are importable.
   */
  lemma ExportReadBack(s: ManagerState, viewStale: bool, includePermissionGroups: bool, includePlayerPermissionGroups: bool,
                       rest: seq<Token>)
    requires StateOk(s, viewStale) && StoreValid(s)
    ensures var e := ExportOf(s, includePermissionGroups, includePlayerPermissionGroups);
            DecodeExport(ExportTokens(e) + rest) == Some((e, rest)) && Importable(e.groups)
  {
    var e := ExportOf(s, includePermissionGroups, includePlayerPermissionGroups);
    var gs := LiveGroupStates(s);
    SnapshotOfValid(s, viewStale);
    if includePermissionGroups {
      forall i | 0 <= i < |e.groupFlags| ensures |e.groupFlags[i]| == |e.definitionNames| {
        assert e.groupFlags[i] == gs[i].permissionValues;
      }
    }
    ExportRoundTrip(e, rest);
    assert GroupNames(e.groups) == Names(gs);
    assert GroupIds(e.groups) == Ids(gs);
  }

  // ---------------------------------------------------------------- Import

  /** The position of the last `name` in `names`, or -1 when there is none. */
  function ImportedIndex(names: seq<string>, name: string): (r: int)
    ensures -1 <= r < |names|
    ensures r == -1 <==> name !in names
    ensures r != -1 ==> names[r] == name && forall k :: r < k < |names| ==> names[k] != name
  {
    if names == [] then -1
    else if names[|names| - 1] == name then |names| - 1
    else ImportedIndex(names[..|names| - 1], name)
  }

  /**
   * The map `ImportPermissionDefinitionsMetadata` returns: for each local
   * definition, -1 when the import has no definition of its internal name,
   * otherwise the imported position of that name (the last one, should a
   * name repeat).
   */
  function DefIndexMap(defs: seq<PermissionDefinition>, names: seq<string>): (m: seq<int>)
    ensures |m| == |defs|
    ensures forall j :: 0 <= j < |defs| ==> (m[j] == -1 <==> defs[j].internalName !in names)
    ensures forall j :: 0 <= j < |defs| ==> -1 <= m[j] < |names|
    ensures forall j :: 0 <= j < |defs| && m[j] != -1 ==> names[m[j]] == defs[j].internalName
  {
    seq(|defs|, j requires 0 <= j < |defs| => ImportedIndex(names, defs[j].internalName))
  }

  /**
   * One turn of the second loop of `ImportPermissionDefinitionsMetadata`: a
   * known internal name read at position `i` points its definition at `i`,
   * and the map then holds the last positions within the first `i + 1` names.
   */
  lemma DefIndexStep(defs: seq<PermissionDefinition>, byName: map<string, nat>, names: seq<string>, i: nat, m: seq<int>)
    requires DefsOk(defs, byName) && i < |names| && |m| == |defs|
    requires forall j :: 0 <= j < |defs| ==> m[j] == ImportedIndex(names[..i], defs[j].internalName)
    ensures names[i] in byName ==> byName[names[i]] < |defs| && defs[byName[names[i]]].index == byName[names[i]]
    ensures var m' := if names[i] in byName then m[defs[byName[names[i]]].index := i] else m;
            forall j :: 0 <= j < |defs| ==> m'[j] == ImportedIndex(names[..i + 1], defs[j].internalName)
  {
    var p := names[..i + 1];
    assert p[..|p| - 1] == names[..i] && p[|p| - 1] == names[i];
  }

  /**
   * The flags `values'` of a group after its imported row `row`: a definition
   * whose internal name the import has takes the imported flag, every other
   * keeps its flag.
   */
  predicate FlagsOverwritten(values: seq<bool>, values': seq<bool>, row: seq<bool>, defs: seq<PermissionDefinition>,
                             names: seq<string>) {
    && |values'| == |values|
    && forall j :: 0 <= j < |values| && j < |defs| ==>
         values'[j] == (var k := ImportedIndex(names, defs[j].internalName); if k != -1 && k < |row| then row[k] else values[j])
  }

  /** The group an imported name lands in: the live group of that name, otherwise the default group. */
  function ImportTarget(s: ManagerState, groupName: string): GroupRef {
    if groupName in s.groupsByName then s.groupsByName[groupName] else s.defaultPermissionGroup
  }

  /**
   * The flags a group named `groupName` has before the imported flags are
   * read: its own when it exists, otherwise those of the default group it is
   * duplicated from.
   */
  function PreImportValues(s: ManagerState, groupName: string): seq<bool> {
    var g := ImportTarget(s, groupName);
    if g < |s.groups| then s.groups[g].permissionValues else []
  }

  /**
   * After `ImportPermissionGroupNamesAndIds`, position `k` of the live list
   * holds the group named like the `k`-th imported group: the group that had
   * the name before, or a new one; and the imported id maps to it.
   */
  ghost predicate ImportedAs(s: ManagerState, s': ManagerState, gs: seq<GroupNameAndId>, k: nat)
    requires k < |gs| == |s'.permissionGroups|
  {
    var g, name := s'.permissionGroups[k], gs[k].groupName;
    && g < |s'.groups| && s'.groups[g].groupName == name
    && gs[k].id in s'.groupsByImportedId && s'.groupsByImportedId[gs[k].id] == g
    && (name in s.groupsByName ==> g == s.groupsByName[name])
    && (name !in s.groupsByName ==> |s.groups| <= g)
  }

  /**
   * `ImportPermissionGroupNamesAndIds`: the live groups are the imported ones,
   * in the imported order (`ImportedAs`); the imported ids map to nothing
   * else; the definitions, the default group, the view and the resolver
   * registry stay; and when the players' groups are imported too, no player
   * record changes.
   */
  ghost predicate NamesImported(s: ManagerState, s': ManagerState, gs: seq<GroupNameAndId>, movePlayersOutOfDeletedGroups: bool) {
    && |s'.permissionGroups| == |gs|
    && (forall k :: 0 <= k < |gs| ==> ImportedAs(s, s', gs, k))
    && (forall id :: id in s'.groupsByImportedId ==> id in GroupIds(gs))
    && s'.defaultPermissionGroup == s.defaultPermissionGroup && s'.permissionDefs == s.permissionDefs
    && s'.permissionDefsByInternalName == s.permissionDefsByInternalName && s'.viewWorldAsGroup == s.viewWorldAsGroup
    && RegistryOf(s') == RegistryOf(s)
    && (!movePlayersOutOfDeletedGroups ==> s'.players == s.players)
  }

  /** The entries of `xs` that are in `keep`, in order. */
  function KeptOf(xs: seq<GroupRef>, keep: set<GroupRef>): seq<GroupRef> {
    if xs == [] then [] else (if xs[0] in keep then [xs[0]] else []) + KeptOf(xs[1..], keep)
  }

  /** An entry is kept exactly when it is in `xs` and in `keep`. */
  lemma {:induction false} KeptOfHas(xs: seq<GroupRef>, keep: set<GroupRef>, h: GroupRef)
    ensures h in KeptOf(xs, keep) <==> h in xs && h in keep
  {
    if xs != [] {
      KeptOfHas(xs[1..], keep, h);
      assert xs == [xs[0]] + xs[1..];
    }
  }

  /**
   * Replacing the live list of a consistent store by a list of the same
   * groups without repeats, starting with the default group, keeps the store
   * consistent.
   */
  lemma ReorderKeeps(s: ManagerState, viewStale: bool, live': seq<GroupRef>)
    requires StateOk(s, viewStale) && StoreValid(s)
    requires Distinct(live') && |live'| > 0 && live'[0] == s.defaultPermissionGroup
    requires forall h :: h in live' <==> h in s.permissionGroups
    ensures StateOk(s.(permissionGroups := live'), viewStale) && StoreValid(s.(permissionGroups := live'))
  {
    var live := s.permissionGroups;
    forall i | 0 <= i < |live'|
      ensures live'[i] < |s.groups| && Indexed(s.groups, s.groupsById, s.groupsByName, s.nextGroupId, s.defaultPermissionGroup, live'[i])
    {
      assert live'[i] in live;
      var j :| 0 <= j < |live| && live[j] == live'[i];
    }
  }

  /** Any imported-id table whose groups are in the arena keeps the invariant. */
  lemma ImportedIdsKeep(s: ManagerState, viewStale: bool, importedIds: map<nat, GroupRef>)
    requires StateOk(s, viewStale) && forall id :: id in importedIds ==> importedIds[id] < |s.groups|
    ensures StateOk(s.(groupsByImportedId := importedIds), viewStale)
  {
  }

  /** In a consistent store the default group and every group found by name are in the arena. */
  lemma LookupsInArena(s: ManagerState, viewStale: bool)
    requires StateOk(s, viewStale) && StoreValid(s)
    ensures s.defaultPermissionGroup < |s.groups|
    ensures forall n :: n in s.groupsByName ==> s.groupsByName[n] < |s.groups|
  {
  }

  /**
   * A copy of the default group created for an import and recorded under
   * the imported id keeps the invariant, and the store stays consistent.
   */
  lemma CreatedForImportKeeps(s: ManagerState, viewStale: bool, name: string, importedId: nat)
    requires StateOk(s, viewStale) && StoreValid(s)
    requires Trimmed(name) && name != "" && name !in s.groupsByName
    ensures s.defaultPermissionGroup < |s.groups|
    ensures var s1 := WithDuplicate(s, name, s.groups[s.defaultPermissionGroup].permissionValues);
            var s2 := s1.(groupsByImportedId := s1.groupsByImportedId[importedId := |s.groups|]);
            StateOk(s2, viewStale) && StoreValid(s2)
  {
    FlagsSizedOf(s, viewStale, s.defaultPermissionGroup);
    var s1 := WithDuplicate(s, name, s.groups[s.defaultPermissionGroup].permissionValues);
    WithDuplicateKeeps(s, viewStale, name, s.groups[s.defaultPermissionGroup].permissionValues);
    assert !StoreEmpty(s1);
    ImportedIdsKeep(s1, viewStale, s1.groupsByImportedId[importedId := |s.groups|]);
  }

  /**
   * Overwriting flags, one per definition, keeps the invariant, except that
   * the cached values of the viewed group may now be stale.
   */
  lemma FlagsImportKeeps(s: ManagerState, viewStale: bool, groups': seq<PermissionGroup>)
    requires StateOk(s, viewStale) && SameButFlags(s.groups, groups') && GroupFlagsSized(groups', |s.permissionDefs|)
    ensures StateOk(s.(groups := groups'), true)
    ensures StoreValid(s) ==> StoreValid(s.(groups := groups'))
  {
    SameButFlagsKeepsMembership(s.players, s.groups, groups');
    SameButFlagsKeepsStore(s.groups, groups', s.permissionGroups, s.groupsById, s.groupsByName, s.defaultPermissionGroup,
                           s.nextGroupId);
    if StoreValid(s) {
      StoreFrame(s.groups, groups', s.permissionGroups, s.groupsById, s.groupsByName, s.defaultPermissionGroup, s.nextGroupId);
    }
  }

  /** With no group viewed there is no cache to be stale. */
  lemma ViewClearedKeeps(s: ManagerState, viewStale: bool)
    requires StateOk(s, viewStale)
    ensures StateOk(s.(viewWorldAsGroup := None), false)
  {
  }

  /**
   * The first loop of `ImportPermissionGroupNamesAndIds` has handled the
   * `k`-th imported group: the group it took is live in `s` under the
   * imported name, with the flags it had before the import (or the default
   * group's, when it was created), and the imported id maps to it.
   */
  ghost predicate NameImported(s0: ManagerState, s: ManagerState, gs: seq<GroupNameAndId>, imported: seq<GroupRef>, k: nat)
    requires k < |gs| && k < |imported|
  {
    var g, name := imported[k], gs[k].groupName;
    && g in s.permissionGroups && g < |s.groups| && s.groups[g].groupName == name
    && s.groups[g].permissionValues == PreImportValues(s0, name)
    && (name in s0.groupsByName ==> g == s0.groupsByName[name])
    && (name !in s0.groupsByName ==> |s0.groups| <= g)
    && gs[k].id in s.groupsByImportedId && s.groupsByImportedId[gs[k].id] == g
  }

  /**
   * `OnlyBuildGroupsByImportedId`: each imported id maps to the live group of
   * its name, or to the default group, and nothing else is mapped.
   */
  ghost predicate FallbackIds(s: ManagerState, importedIds: map<nat, GroupRef>, gs: seq<GroupNameAndId>) {
    && (forall k :: 0 <= k < |gs| ==> gs[k].id in importedIds && importedIds[gs[k].id] == ImportTarget(s, gs[k].groupName))
    && (forall id :: id in importedIds ==> id in GroupIds(gs))
  }

  /**
   * `Import(importOptions)` on the fields, for the export `e`: no event is
   * raised and nothing is resolved. When groups are not imported only the
   * imported-id table changes (`FallbackIds`). Otherwise the groups are
   * imported (`NamesImported`, moving players out of deleted groups unless
   * the players' groups are imported too), each group's flags are
   * overwritten from its imported row (`FlagsOverwritten`), and the cached
   * values count as stale until the import finishes.
   */
  ghost predicate Imported(f: Fields, f': Fields, e: ExportData, importGroups: bool, importPlayers: bool) {
    var doImportGroups := e.includePermissionGroups && importGroups;
    var move := !(e.includePlayerPermissionGroups && importPlayers);
    && f'.events == f.events && f'.resolved == f.resolved && f'.isInitialized == f.isInitialized
    && (!doImportGroups ==>
          && f'.state == f.state.(groupsByImportedId := f'.state.groupsByImportedId) && f'.viewStale == f.viewStale
          && FallbackIds(f.state, f'.state.groupsByImportedId, e.groups))
    && (doImportGroups ==>
          && NamesImported(f.state, f'.state, e.groups, move) && f'.viewStale
          && forall k :: 0 <= k < |e.groups| && k < |e.groupFlags| && k < |f'.state.permissionGroups|
                         && f'.state.permissionGroups[k] < |f'.state.groups| ==>
               FlagsOverwritten(PreImportValues(f.state, e.groups[k].groupName),
                                f'.state.groups[f'.state.permissionGroups[k]].permissionValues,
                                e.groupFlags[k], f.state.permissionDefs, e.definitionNames))
  }

  /** The invariant of the first loop of `ImportPermissionGroupNamesAndIds`: the manager invariant, and `ImportNamesLoopOk`. */
  ghost predicate NamesLoopInv(f0: Fields, f: Fields, gs: seq<GroupNameAndId>, imported: seq<GroupRef>, keep: set<GroupRef>, i: nat) {
    i <= |gs| && FieldsOk(f) && StoreValid(f.state) && ImportNamesLoopOk(f0, f, gs, imported, keep, i)
  }

  /**
   * The first loop of `ImportPermissionGroupNamesAndIds` after `i` imported
   * names: only the store and the imported-id table changed; the groups and
   * live groups from before are still there (the new live groups are all
   * imported ones), no name changed its group and every new name is an
   * imported one; each imported name so far is `NameImported`; the groups to
   * keep are the imported ones, without repeats; and only imported ids are
   * mapped.
   */
  ghost predicate ImportNamesLoopOk(f0: Fields, f: Fields, gs: seq<GroupNameAndId>, imported: seq<GroupRef>,
                                    keep: set<GroupRef>, i: nat)
    requires i <= |gs|
  {
    NamesFrame(f0, f, imported) && NamesRecorded(f0.state, f.state, gs, imported, keep, i)
  }

  /**
   * Only the group store and the imported-id map changed, the groups and live
   * groups from before are a prefix of the new ones, and every live group
   * added is an imported one.
   */
  ghost predicate NamesFrame(f0: Fields, f: Fields, imported: seq<GroupRef>) {
    var s0, s := f0.state, f.state;
    && f == f0.(state := s)
    && s == s0.(groups := s.groups, permissionGroups := s.permissionGroups, groupsById := s.groupsById,
                groupsByName := s.groupsByName, nextGroupId := s.nextGroupId, groupsByImportedId := s.groupsByImportedId)
    && |s0.groups| <= |s.groups| && s.groups[..|s0.groups|] == s0.groups
    && |s0.permissionGroups| <= |s.permissionGroups| && s.permissionGroups[..|s0.permissionGroups|] == s0.permissionGroups
    && (forall j :: |s0.permissionGroups| <= j < |s.permissionGroups| ==> s.permissionGroups[j] in imported)
  }

  /**
   * The first `i` names are imported in order, without repeats, and kept;
   * names from before keep their groups, only imported names are new, and
   * only imported ids are mapped.
   */
  ghost predicate NamesRecorded(s0: ManagerState, s: ManagerState, gs: seq<GroupNameAndId>, imported: seq<GroupRef>,
                                keep: set<GroupRef>, i: nat)
    requires i <= |gs|
  {
    && (forall n :: n in s0.groupsByName ==> n in s.groupsByName && s.groupsByName[n] == s0.groupsByName[n])
    && (forall n :: n in s.groupsByName && n !in s0.groupsByName ==> n in GroupNames(gs)[..i])
    && |imported| == i
    && (forall k :: 0 <= k < i ==> NameImported(s0, s, gs, imported, k))
    && (forall h :: h in keep <==> h in imported)
    && Distinct(imported)
    && (forall id :: id in s.groupsByImportedId ==> id in GroupIds(gs)[..i])
  }

  /**
   * The second loop of `ImportPermissionGroupNamesAndIds` down to position
   * `i`: of the first `originalCount` live groups, those above `i` that are
   * not kept are gone, in order; only players, groups, the live list and the
   * lookups changed; every group keeps its id, name and flags; and without
   * moving players, no player record changed.
   */
  ghost predicate DeletedNotKept(f0: Fields, f: Fields, keep: set<GroupRef>, originalCount: nat, move: bool, i: int)
    requires originalCount <= |f0.state.permissionGroups| && -1 <= i < originalCount
  {
    var s0, s := f0.state, f.state;
    var live0 := s0.permissionGroups;
    && f == f0.(state := s)
    && s == s0.(players := s.players, groups := s.groups, permissionGroups := s.permissionGroups,
                groupsById := s.groupsById, groupsByName := s.groupsByName)
    && s.permissionGroups == live0[..i + 1] + KeptOf(live0[i + 1..originalCount], keep) + live0[originalCount..]
    && |s.groups| == |s0.groups|
    && (forall h :: 0 <= h < |s0.groups| ==>
          SameIdentity(s0.groups[h], s.groups[h]) && s.groups[h].permissionValues == s0.groups[h].permissionValues)
    && (!move ==> s.players == s0.players)
  }

  /** The invariant of the second loop of `ImportPermissionGroupNamesAndIds`: the manager invariant, and `DeletedNotKept`. */
  ghost predicate DeleteLoopInv(f0: Fields, f: Fields, keep: set<GroupRef>, originalCount: nat, move: bool, i: int) {
    && originalCount <= |f0.state.permissionGroups| && -1 <= i < originalCount
    && FieldsOk(f) && StoreValid(f.state) && DeletedNotKept(f0, f, keep, originalCount, move, i)
  }

  /**
   * `ImportPermissionGroupFlags` after `i` live groups: only flags changed,
   * each of the first `i` live groups has its flags `FlagsOverwritten` from
   * its row, and every other group is as it was.
   */
  ghost predicate FlagsImported(s0: ManagerState, groups: seq<PermissionGroup>, rows: seq<seq<bool>>, names: seq<string>, i: nat)
    requires i <= |s0.permissionGroups| && i <= |rows|
  {
    && SameButFlags(s0.groups, groups)
    && (forall k :: 0 <= k < i ==>
          s0.permissionGroups[k] < |s0.groups|
          && FlagsOverwritten(s0.groups[s0.permissionGroups[k]].permissionValues, groups[s0.permissionGroups[k]].permissionValues,
                              rows[k], s0.permissionDefs, names))
    && (forall h :: 0 <= h < |groups| && h !in s0.permissionGroups[..i] ==> groups[h] == s0.groups[h])
  }

  /**
   * Where the parts of an export read from `at` sit: the two option flags,
   * the group count, the names and ids, and the definitions and flags part.
   */
  lemma ExportLayout(tokens: seq<Token>, at: nat, e: ExportData)
    requires Starts(if at <= |tokens| then tokens[at..] else [], ExportTokens(e))
    ensures var n := 2 + 2 * |e.groups|;
            && at + n <= |tokens| && tokens[at] == Flags([e.includePermissionGroups, e.includePlayerPermissionGroups])
            && tokens[at + 1] == UInt(|e.groups|) && tokens[at + 2..at + 2 + 2 * |e.groups|] == NamesAndIdsTokens(e.groups)
    ensures var p := at + 2 + 2 * |e.groups|;
            p + |GroupsPartTokens(e)| <= |tokens| && tokens[p..p + |GroupsPartTokens(e)|] == GroupsPartTokens(e)
  {
    var head := [Flags([e.includePermissionGroups, e.includePlayerPermissionGroups]), UInt(|e.groups|)];
    PayloadAt(tokens, at, ExportTokens(e));
    PayloadSplit(tokens, at, head + NamesAndIdsTokens(e.groups), GroupsPartTokens(e));
    PayloadSplit(tokens, at, head, NamesAndIdsTokens(e.groups));
    assert tokens[at] == tokens[at..at + 2][0] && tokens[at + 1] == tokens[at..at + 2][1];
  }

  /** The definitions and flags part of an export that includes the groups, sitting at `p`. */
  lemma GroupsPartLayout(tokens: seq<Token>, p: nat, e: ExportData)
    requires e.includePermissionGroups
    requires p + |GroupsPartTokens(e)| <= |tokens| && tokens[p..p + |GroupsPartTokens(e)|] == GroupsPartTokens(e)
    ensures var d := |e.definitionNames|;
            && p + 1 + d + |e.groupFlags| <= |tokens| && tokens[p] == UInt(d)
            && tokens[p + 1..p + 1 + d] == StringsTokens(e.definitionNames)
            && tokens[p + 1 + d..p + 1 + d + |e.groupFlags|] == FlagsTokens(e.groupFlags)
  {
    var count, names, rows := [UInt(|e.definitionNames|)], StringsTokens(e.definitionNames), FlagsTokens(e.groupFlags);
    PayloadSplit(tokens, p, count + names, rows);
    PayloadSplit(tokens, p, count, names);
    assert tokens[p] == tokens[p..p + 1][0];
  }

  /**
   * Overwriting the flags after the names and ids are imported keeps the
   * names imported, and leaves in the `k`-th live group the flags it had
   * before the import (none for a new group) overwritten by the `k`-th row.
   */
  lemma FlagsOverImport(s: ManagerState, s2: ManagerState, groups: seq<PermissionGroup>, gs: seq<GroupNameAndId>,
                        rows: seq<seq<bool>>, names: seq<string>, move: bool)
    requires NamesImported(s, s2, gs, move) && |rows| == |gs|
    requires forall k :: 0 <= k < |gs| ==> ImportedAs(s, s2, gs, k) && s2.groups[s2.permissionGroups[k]].permissionValues == PreImportValues(s, gs[k].groupName)
    requires FlagsImported(s2, groups, rows, names, |rows|)
    ensures NamesImported(s, s2.(groups := groups), gs, move)
    ensures forall k :: 0 <= k < |gs| ==>
              FlagsOverwritten(PreImportValues(s, gs[k].groupName), groups[s2.permissionGroups[k]].permissionValues,
                               rows[k], s.permissionDefs, names)
  {
    var s3 := s2.(groups := groups);
    forall k | 0 <= k < |gs| ensures ImportedAs(s, s3, gs, k) {
      assert ImportedAs(s, s2, gs, k);
    }
  }

  /** What `ImportPermissionGroupFlags` relies on: the live groups are distinct groups of the arena, each with one flag per definition. */
  lemma FlagsImportFacts(s: ManagerState, viewStale: bool)
    requires StateOk(s, viewStale) && StoreValid(s)
    ensures Distinct(s.permissionGroups) && LiveInArena(s) && GroupFlagsSized(s.groups, |s.permissionDefs|)
  {
  }

  /** Before its turn, the `i`-th live group still has the flags it had before the import. */
  lemma FlagsNotYet(s0: ManagerState, groups: seq<PermissionGroup>, rows: seq<seq<bool>>, names: seq<string>, i: nat)
    requires i < |s0.permissionGroups| && i < |rows| && Distinct(s0.permissionGroups) && LiveInArena(s0)
    requires FlagsImported(s0, groups, rows, names, i)
    ensures s0.permissionGroups[i] < |groups| && groups[s0.permissionGroups[i]] == s0.groups[s0.permissionGroups[i]]
  {
    var g := s0.permissionGroups[i];
    forall k | 0 <= k < i ensures s0.permissionGroups[..i][k] != g {
    }
  }

  /** Overwriting through the map `DefIndexMap` builds is the overwrite `FlagsOverwritten` states. */
  lemma OverwrittenByIndexMap(values: seq<bool>, values': seq<bool>, row: seq<bool>, defs: seq<PermissionDefinition>,
                              names: seq<string>, m: seq<int>)
    requires m == DefIndexMap(defs, names) && |values| == |defs| && |row| == |names| && |values'| == |values|
    requires forall j :: 0 <= j < |values| && m[j] == -1 ==> values'[j] == values[j]
    requires forall j :: 0 <= j < |values| && m[j] != -1 ==> values'[j] == row[m[j]]
    ensures FlagsOverwritten(values, values', row, defs, names)
  {
    forall j | 0 <= j < |values|
      ensures values'[j] == (var k := ImportedIndex(names, defs[j].internalName); if k != -1 && k < |row| then row[k] else values[j])
    {
      assert m[j] == ImportedIndex(names, defs[j].internalName);
    }
  }

  /** The `i`-th live group taking its overwritten flags extends the flags imported so far by one group. */
  lemma FlagsStep(s0: ManagerState, groups: seq<PermissionGroup>, rows: seq<seq<bool>>, names: seq<string>, i: nat,
                  values': seq<bool>)
    requires i < |s0.permissionGroups| && i < |rows| && Distinct(s0.permissionGroups) && LiveInArena(s0)
    requires FlagsImported(s0, groups, rows, names, i)
    requires FlagsOverwritten(s0.groups[s0.permissionGroups[i]].permissionValues, values', rows[i], s0.permissionDefs, names)
    ensures var g := s0.permissionGroups[i];
            g < |groups| && FlagsImported(s0, groups[g := groups[g].(permissionValues := values')], rows, names, i + 1)
  {
    var live0, g := s0.permissionGroups, s0.permissionGroups[i];
    FlagsNotYet(s0, groups, rows, names, i);
    var groups' := groups[g := groups[g].(permissionValues := values')];
    forall k | 0 <= k < i + 1
      ensures FlagsOverwritten(s0.groups[live0[k]].permissionValues, groups'[live0[k]].permissionValues, rows[k], s0.permissionDefs, names)
    {
      if k < i {
        assert live0[k] != g;
      }
    }
    forall h | 0 <= h < |groups'| && h !in live0[..i + 1] ensures groups'[h] == s0.groups[h] {
      assert live0[..i + 1] == live0[..i] + [g];
    }
  }

  /** After every live group took its row, each group still holds one flag per definition. */
  lemma FlagsImportedSized(s0: ManagerState, groups: seq<PermissionGroup>, rows: seq<seq<bool>>, names: seq<string>)
    requires |rows| == |s0.permissionGroups| && GroupFlagsSized(s0.groups, |s0.permissionDefs|)
    requires FlagsImported(s0, groups, rows, names, |rows|)
    ensures GroupFlagsSized(groups, |s0.permissionDefs|)
  {
    forall h | 0 <= h < |groups| ensures |groups[h].permissionValues| == |s0.permissionDefs| {
      if h in s0.permissionGroups {
        var k :| 0 <= k < |s0.permissionGroups| && s0.permissionGroups[k] == h;
        assert s0.permissionGroups[..|rows|] == s0.permissionGroups;
      } else {
        assert s0.permissionGroups[..|rows|] == s0.permissionGroups;
      }
    }
  }

  /** The first loop of `ImportPermissionGroupNamesAndIds` starts with a fresh imported-id table and nothing imported. */
  lemma ImportNamesStart(f0: Fields, gs: seq<GroupNameAndId>)
    ensures ImportNamesLoopOk(f0, f0.(state := f0.state.(groupsByImportedId := map[])), gs, [], {}, 0)
  {
    var s0 := f0.state;
    assert s0.groups[..|s0.groups|] == s0.groups && s0.permissionGroups[..|s0.permissionGroups|] == s0.permissionGroups;
  }

  /** The `i`-th imported name and id are not among those before them, as the lists without repeats say. */
  lemma NewImportedName(gs: seq<GroupNameAndId>, i: nat)
    requires Importable(gs) && i < |gs|
    ensures GroupNames(gs)[..i + 1] == GroupNames(gs)[..i] + [gs[i].groupName]
    ensures GroupIds(gs)[..i + 1] == GroupIds(gs)[..i] + [gs[i].id]
    ensures gs[i].groupName !in GroupNames(gs)[..i] && gs[i].id !in GroupIds(gs)[..i]
    ensures forall k :: 0 <= k < i ==> gs[k].groupName != gs[i].groupName && gs[k].id != gs[i].id
  {
    forall k | 0 <= k < i ensures gs[k].groupName != gs[i].groupName && gs[k].id != gs[i].id {
      assert GroupNames(gs)[k] == gs[k].groupName && GroupNames(gs)[i] == gs[i].groupName;
      assert GroupIds(gs)[k] == gs[k].id && GroupIds(gs)[i] == gs[i].id;
    }
    assert forall k :: 0 <= k < i ==> GroupNames(gs)[..i][k] == gs[k].groupName && GroupIds(gs)[..i][k] == gs[k].id;
  }

  /**
   * One turn of the first loop of `ImportPermissionGroupNamesAndIds`, in
   * general: `s1` is `s` with the store possibly grown by `group` (holding
   * the `i`-th imported name and the flags it had before the import), and the
   * imported id then maps to `group`.
   */
  lemma NameStep(f0: Fields, f: Fields, s1: ManagerState, gs: seq<GroupNameAndId>, imported: seq<GroupRef>,
                 keep: set<GroupRef>, i: nat, group: GroupRef)
    requires i < |gs| && Importable(gs) && ImportNamesLoopOk(f0, f, gs, imported, keep, i)
    requires var s := f.state;
             && s1 == s.(groups := s1.groups, permissionGroups := s1.permissionGroups, groupsById := s1.groupsById,
                         groupsByName := s1.groupsByName, nextGroupId := s1.nextGroupId)
             && |s.groups| <= |s1.groups| && s1.groups[..|s.groups|] == s.groups
             && |s.permissionGroups| <= |s1.permissionGroups| && s1.permissionGroups[..|s.permissionGroups|] == s.permissionGroups
             && (forall j :: |s.permissionGroups| <= j < |s1.permissionGroups| ==> s1.permissionGroups[j] == group)
             && (forall n :: n in s.groupsByName ==> n in s1.groupsByName && s1.groupsByName[n] == s.groupsByName[n])
             && (forall n :: n in s1.groupsByName && n !in s.groupsByName ==> n == gs[i].groupName)
    requires var name := gs[i].groupName;
             && group in s1.permissionGroups && group < |s1.groups| && s1.groups[group].groupName == name
             && s1.groups[group].permissionValues == PreImportValues(f0.state, name)
             && (name in f0.state.groupsByName ==> group == f0.state.groupsByName[name])
             && (name !in f0.state.groupsByName ==> |f0.state.groups| <= group)
    ensures ImportNamesLoopOk(f0, f.(state := s1.(groupsByImportedId := s1.groupsByImportedId[gs[i].id := group])), gs,
                              imported + [group], keep + {group}, i + 1)
  {
    NameStepFrame(f0, f, s1, imported, gs[i].id, group);
    NameStepRecorded(f0, f, s1, gs, imported, keep, i, group);
  }

  /** The frame half of `NameStep`: the arena and the live list only grow, and only by imported groups. */
  lemma NameStepFrame(f0: Fields, f: Fields, s1: ManagerState, imported: seq<GroupRef>, id: nat, group: GroupRef)
    requires NamesFrame(f0, f, imported)
    requires var s := f.state;
             && s1 == s.(groups := s1.groups, permissionGroups := s1.permissionGroups, groupsById := s1.groupsById,
                         groupsByName := s1.groupsByName, nextGroupId := s1.nextGroupId)
             && |s.groups| <= |s1.groups| && s1.groups[..|s.groups|] == s.groups
             && |s.permissionGroups| <= |s1.permissionGroups| && s1.permissionGroups[..|s.permissionGroups|] == s.permissionGroups
             && (forall j :: |s.permissionGroups| <= j < |s1.permissionGroups| ==> s1.permissionGroups[j] == group)
    ensures NamesFrame(f0, f.(state := s1.(groupsByImportedId := s1.groupsByImportedId[id := group])), imported + [group])
  {
    var s0, s := f0.state, f.state;
    var s2 := s1.(groupsByImportedId := s1.groupsByImportedId[id := group]);
    PrefixOfPrefix(s0.groups, s.groups, s2.groups);
    PrefixOfPrefix(s0.permissionGroups, s.permissionGroups, s2.permissionGroups);
    forall j | |s0.permissionGroups| <= j < |s2.permissionGroups| ensures s2.permissionGroups[j] in imported + [group] {
      if j < |s.permissionGroups| {
        assert s2.permissionGroups[j] == s1.permissionGroups[..|s.permissionGroups|][j];
      }
    }
  }

  /** The bookkeeping half of `NameStep`: the `i`-th name is imported as `group`, after the others. */
  lemma NameStepRecorded(f0: Fields, f: Fields, s1: ManagerState, gs: seq<GroupNameAndId>, imported: seq<GroupRef>,
                         keep: set<GroupRef>, i: nat, group: GroupRef)
    requires i < |gs| && Importable(gs) && NamesRecorded(f0.state, f.state, gs, imported, keep, i)
    requires var s := f.state;
             && s1.groupsByImportedId == s.groupsByImportedId
             && |s.groups| <= |s1.groups| && s1.groups[..|s.groups|] == s.groups
             && |s.permissionGroups| <= |s1.permissionGroups| && s1.permissionGroups[..|s.permissionGroups|] == s.permissionGroups
             && (forall n :: n in s.groupsByName ==> n in s1.groupsByName && s1.groupsByName[n] == s.groupsByName[n])
             && (forall n :: n in s1.groupsByName && n !in s.groupsByName ==> n == gs[i].groupName)
    requires var name := gs[i].groupName;
             && group in s1.permissionGroups && group < |s1.groups| && s1.groups[group].groupName == name
             && s1.groups[group].permissionValues == PreImportValues(f0.state, name)
             && (name in f0.state.groupsByName ==> group == f0.state.groupsByName[name])
             && (name !in f0.state.groupsByName ==> |f0.state.groups| <= group)
    ensures NamesRecorded(f0.state, s1.(groupsByImportedId := s1.groupsByImportedId[gs[i].id := group]), gs,
                          imported + [group], keep + {group}, i + 1)
  {
    var s0, s := f0.state, f.state;
    var s2 := s1.(groupsByImportedId := s1.groupsByImportedId[gs[i].id := group]);
    var imported' := imported + [group];
    NewImportedName(gs, i);
    forall k | 0 <= k < i ensures imported[k] != group && NameImported(s0, s2, gs, imported', k) {
      assert NameImported(s0, s, gs, imported, k);
      assert s2.groups[imported[k]] == s1.groups[..|s.groups|][imported[k]];
      assert imported[k] in s2.permissionGroups by {
        var j :| 0 <= j < |s.permissionGroups| && s.permissionGroups[j] == imported[k];
        assert s2.permissionGroups[j] == s1.permissionGroups[..|s.permissionGroups|][j];
      }
    }
    SnocDistinct(imported, group);
  }

  /** `NameStep` for a name the store already has: its group is imported as it is. */
  lemma FoundNameStep(f0: Fields, f: Fields, gs: seq<GroupNameAndId>, imported: seq<GroupRef>, keep: set<GroupRef>, i: nat)
    requires i < |gs| && Importable(gs) && ImportNamesLoopOk(f0, f, gs, imported, keep, i)
    requires forall n :: n in f0.state.groupsByName ==> f0.state.groupsByName[n] < |f0.state.groups|
    requires var s, name := f.state, gs[i].groupName;
             && name in s.groupsByName && s.groupsByName[name] in s.permissionGroups && s.groupsByName[name] < |s.groups|
             && s.groups[s.groupsByName[name]].groupName == name
    ensures var s := f.state;
            var g := s.groupsByName[gs[i].groupName];
            ImportNamesLoopOk(f0, f.(state := s.(groupsByImportedId := s.groupsByImportedId[gs[i].id := g])), gs,
                              imported + [g], keep + {g}, i + 1)
  {
    var s0, s, name := f0.state, f.state, gs[i].groupName;
    var g := s.groupsByName[name];
    NewImportedName(gs, i);
    assert name in s0.groupsByName;
    assert s.groups[g] == s.groups[..|s0.groups|][g];
    assert s.groups[..|s.groups|] == s.groups && s.permissionGroups[..|s.permissionGroups|] == s.permissionGroups;
    NameStep(f0, f, s, gs, imported, keep, i, g);
  }

  /** `NameStep` for a name the store does not have: a copy of the default group is created under it. */
  lemma CreatedNameStep(f0: Fields, f: Fields, gs: seq<GroupNameAndId>, imported: seq<GroupRef>, keep: set<GroupRef>, i: nat)
    requires i < |gs| && Importable(gs) && ImportNamesLoopOk(f0, f, gs, imported, keep, i)
    requires f0.state.defaultPermissionGroup < |f0.state.groups| && gs[i].groupName !in f.state.groupsByName
    ensures f.state.defaultPermissionGroup < |f.state.groups|
    ensures var s := f.state;
            var s1 := WithDuplicate(s, gs[i].groupName, s.groups[s.defaultPermissionGroup].permissionValues);
            var g := |s.groups|;
            ImportNamesLoopOk(f0, f.(state := s1.(groupsByImportedId := s1.groupsByImportedId[gs[i].id := g])), gs,
                              imported + [g], keep + {g}, i + 1)
  {
    var s0, s, name := f0.state, f.state, gs[i].groupName;
    var d := s0.defaultPermissionGroup;
    assert s.groups[d] == s.groups[..|s0.groups|][d];
    var s1 := WithDuplicate(s, name, s.groups[d].permissionValues);
    assert s1.groups[..|s.groups|] == s.groups && s1.permissionGroups[..|s.permissionGroups|] == s.permissionGroups;
    assert s1.permissionGroups[|s.permissionGroups|] == |s.groups|;
    NameStep(f0, f, s1, gs, imported, keep, i, |s.groups|);
  }

  /**
   * One turn of the first loop of `ImportPermissionGroupNamesAndIds` on the
   * name `name` and the imported id `id`: the live group of that name, or
   * else a new copy of the default group under that name (made while
   * deserializing for import, so without an event), is recorded under the
   * imported id and returned.
   */
  function NameImportStep(f: Fields, name: string, id: nat): (r: (Fields, GroupRef))
    requires f.state.defaultPermissionGroup < |f.state.groups|
    ensures r.0.state.defaultPermissionGroup == f.state.defaultPermissionGroup && |f.state.groups| <= |r.0.state.groups|
  {
    var s := f.state;
    if name in s.groupsByName then
      var g := s.groupsByName[name];
      (f.(state := s.(groupsByImportedId := s.groupsByImportedId[id := g])), g)
    else
      var g := |s.groups|;
      var s1 := WithDuplicate(s, name, s.groups[s.defaultPermissionGroup].permissionValues);
      (f.(state := s1.(groupsByImportedId := s1.groupsByImportedId[id := g])), g)
  }

  /**
   * One turn of the first loop of `ImportPermissionGroupNamesAndIds` on the
   * state, imported groups and groups to keep `r`, for the `i`-th name: the
   * group `NameImportStep` picks is appended to the imported groups and
   * added to the groups to keep.
   */
  function NamesNext(r: (Fields, seq<GroupRef>, set<GroupRef>), gs: seq<GroupNameAndId>, i: nat): (n: (Fields, seq<GroupRef>, set<GroupRef>))
    requires i < |gs| && r.0.state.defaultPermissionGroup < |r.0.state.groups|
    ensures n.0.state.defaultPermissionGroup == r.0.state.defaultPermissionGroup && |r.0.state.groups| <= |n.0.state.groups|
    ensures |n.1| == |r.1| + 1 && n.1[..|r.1|] == r.1 && n.2 == r.2 + {n.1[|r.1|]}
  {
    var step := NameImportStep(r.0, gs[i].groupName, gs[i].id);
    (step.0, r.1 + [step.1], r.2 + {step.1})
  }

  /**
   * The state, the imported groups in order and the groups to keep after the
   * first `i` turns of the first loop of `ImportPermissionGroupNamesAndIds`
   * started from `f`.
   */
  ghost function NamesAfter(f: Fields, gs: seq<GroupNameAndId>, i: nat): (r: (Fields, seq<GroupRef>, set<GroupRef>))
    requires i <= |gs| && f.state.defaultPermissionGroup < |f.state.groups|
    ensures r.0.state.defaultPermissionGroup == f.state.defaultPermissionGroup && |f.state.groups| <= |r.0.state.groups|
  {
    if i == 0 then (f, [], {}) else NamesNext(NamesAfter(f, gs, i - 1), gs, i - 1)
  }


  /**
   * The start of `ImportPermissionGroupNamesAndIds`: with the imported-id map
   * emptied the invariant holds, the first loop holds before its first turn,
   * and the default group is the first live group and is found by its name.
   */
  lemma ImportNamesInit(f: Fields, gs: seq<GroupNameAndId>)
    requires FieldsOk(f) && StoreValid(f.state)
    ensures var f1 := f.(state := f.state.(groupsByImportedId := map[]));
            NamesLoopInv(f, f1, gs, [], {}, 0)
    ensures var s := f.state;
            && s.defaultPermissionGroup < |s.groups| && |s.permissionGroups| > 0
            && s.permissionGroups[0] == s.defaultPermissionGroup
            && DefaultGroupName in s.groupsByName && s.groupsByName[DefaultGroupName] == s.defaultPermissionGroup
            && forall n :: n in s.groupsByName ==> s.groupsByName[n] < |s.groups|
  {
    ImportedIdsKeep(f.state, f.viewStale, map[]);
    ImportNamesStart(f, gs);
  }

  /**
   * After the first loop the imported groups start with the default group,
   * which is therefore kept, and hold no group twice.
   */
  lemma ImportNamesDone(f0: Fields, f: Fields, gs: seq<GroupNameAndId>, imported: seq<GroupRef>, keep: set<GroupRef>)
    requires Importable(gs) && ImportNamesLoopOk(f0, f, gs, imported, keep, |gs|)
    requires DefaultGroupName in f0.state.groupsByName && f0.state.groupsByName[DefaultGroupName] == f0.state.defaultPermissionGroup
    ensures |imported| == |gs| && imported[0] == f.state.defaultPermissionGroup && f.state.defaultPermissionGroup in keep
    ensures |f0.state.permissionGroups| <= |f.state.permissionGroups|
  {
    assert NameImported(f0.state, f.state, gs, imported, 0);
  }

  /**
   * The two loops of `ImportPermissionGroupNamesAndIds` together: once the
   * live list is replaced by the imported groups, `NamesImported` holds, each
   * imported group has the flags it had before, or the default group's, and
   * the imported groups are exactly the groups still live.
   */
  lemma NamesAndIdsImported(f: Fields, f1: Fields, f2: Fields, gs: seq<GroupNameAndId>, imported: seq<GroupRef>,
                            keep: set<GroupRef>, originalCount: nat, move: bool)
    requires Importable(gs) && originalCount == |f.state.permissionGroups|
    requires ImportNamesLoopOk(f, f1, gs, imported, keep, |gs|)
    requires originalCount <= |f1.state.permissionGroups| && DeletedNotKept(f1, f2, keep, originalCount, move, -1)
    ensures var f' := f2.(state := f2.state.(permissionGroups := imported));
            && f' == f.(state := f'.state) && NamesImported(f.state, f'.state, gs, move)
            && forall k :: 0 <= k < |gs| ==>
                 && ImportedAs(f.state, f'.state, gs, k)
                 && f'.state.groups[f'.state.permissionGroups[k]].permissionValues == PreImportValues(f.state, gs[k].groupName)
  {
    var s' := f2.state.(permissionGroups := imported);
    forall k | 0 <= k < |gs|
      ensures ImportedAs(f.state, s', gs, k)
      ensures s'.groups[s'.permissionGroups[k]].permissionValues == PreImportValues(f.state, gs[k].groupName)
    {
      assert NameImported(f.state, f1.state, gs, imported, k);
    }
    assert GroupIds(gs)[..|gs|] == GroupIds(gs);
  }

  /** The imported groups are exactly the groups still live after the second loop. */
  lemma ImportedStillLive(f: Fields, f1: Fields, f2: Fields, gs: seq<GroupNameAndId>, imported: seq<GroupRef>,
                          keep: set<GroupRef>, originalCount: nat, move: bool)
    requires originalCount == |f.state.permissionGroups|
    requires ImportNamesLoopOk(f, f1, gs, imported, keep, |gs|)
    requires originalCount <= |f1.state.permissionGroups| && DeletedNotKept(f1, f2, keep, originalCount, move, -1)
    ensures forall h :: h in imported <==> h in f2.state.permissionGroups
  {
    var live1 := f1.state.permissionGroups;
    assert f2.state.permissionGroups == KeptOf(live1[..originalCount], keep) + live1[originalCount..] by {
      assert live1[..0] == [] && live1[0..originalCount] == live1[..originalCount];
    }
    forall h ensures h in imported <==> h in f2.state.permissionGroups {
      KeptOfHas(live1[..originalCount], keep, h);
      if h in imported {
        var k :| 0 <= k < |imported| && imported[k] == h;
        assert NameImported(f.state, f1.state, gs, imported, k);
        var j :| 0 <= j < |live1| && live1[j] == h;
        if j < originalCount {
          assert live1[..originalCount][j] == h;
        } else {
          assert live1[originalCount..][j - originalCount] == h;
        }
      }
      if h in live1[originalCount..] {
        var j :| 0 <= j < |live1[originalCount..]| && live1[originalCount..][j] == h;
        assert live1[originalCount + j] == h;
      }
    }
  }

  /** Before the second loop nothing is deleted yet. */
  lemma DeleteStart(f: Fields, keep: set<GroupRef>, originalCount: nat, move: bool)
    requires originalCount <= |f.state.permissionGroups|
    ensures DeletedNotKept(f, f, keep, originalCount, move, originalCount - 1)
  {
    var live := f.state.permissionGroups;
    assert live[originalCount..originalCount] == [];
    assert live[..originalCount] + [] + live[originalCount..] == live;
  }

  /** A kept group stays where it is: the second loop moves on past it. */
  lemma KeptStep(f0: Fields, f: Fields, keep: set<GroupRef>, originalCount: nat, move: bool, i: nat)
    requires i < originalCount <= |f0.state.permissionGroups| && DeletedNotKept(f0, f, keep, originalCount, move, i)
    requires f0.state.permissionGroups[i] in keep
    ensures DeletedNotKept(f0, f, keep, originalCount, move, i - 1)
  {
    var live0 := f0.state.permissionGroups;
    assert live0[i..originalCount] == [live0[i]] + live0[i + 1..originalCount];
    assert live0[..i + 1] == live0[..i] + [live0[i]];
  }

  /**
   * `g` left the live list and both lookups; only players, groups, the live
   * list and the lookups changed, every group kept its id, name and flags,
   * and without moving players no player record changed.
   */
  ghost predicate GroupDropped(f: Fields, f': Fields, g: GroupRef, move: bool) {
    var s, s' := f.state, f'.state;
    && f' == f.(state := s')
    && s' == s.(players := s'.players, groups := s'.groups, permissionGroups := s'.permissionGroups,
                groupsById := s'.groupsById, groupsByName := s'.groupsByName)
    && s'.permissionGroups == Remove(s.permissionGroups, g)
    && |s'.groups| == |s.groups|
    && (forall h :: 0 <= h < |s.groups| ==>
          SameIdentity(s.groups[h], s'.groups[h]) && s'.groups[h].permissionValues == s.groups[h].permissionValues)
    && (!move ==> s'.players == s.players)
  }

  /** Deleting `g` with its players moved to `t` and events suppressed drops it. */
  lemma DeletedDrops(f: Fields, f': Fields, g: GroupRef, t: GroupRef, localPlayerId: nat)
    requires Deleted(f, f', g, t, true, localPlayerId) && t < |f.state.groups| && g != t && !f.state.groups[t].isDeleted
    ensures GroupDropped(f, f', g, true)
  {
    MoveOutFrame(RosterOf(f.state), g, t);
  }

  /** Deleting `g` without cleanup drops it and leaves every player record alone. */
  lemma NoCleanupDrops(f: Fields, g: GroupRef)
    requires g < |f.state.groups|
    ensures GroupDropped(f, f.(state := WithoutGroupNoCleanup(f.state, g)), g, false)
  {
  }

  /**
   * Dropping the group at `i`, which is not kept, from the live list of the
   * second loop at position `i` gives the live list at position `i - 1`.
   */
  lemma DropSeq(live0: seq<GroupRef>, live: seq<GroupRef>, keep: set<GroupRef>, originalCount: nat, i: nat)
    requires i < originalCount <= |live0| && live0[i] !in keep && Distinct(live)
    requires live == live0[..i + 1] + KeptOf(live0[i + 1..originalCount], keep) + live0[originalCount..]
    ensures Remove(live, live0[i]) == live0[..i] + KeptOf(live0[i..originalCount], keep) + live0[originalCount..]
  {
    var tail := KeptOf(live0[i + 1..originalCount], keep) + live0[originalCount..];
    assert live0[i..originalCount] == [live0[i]] + live0[i + 1..originalCount];
    assert live0[..i + 1] == live0[..i] + [live0[i]];
    assert live[..i] == live0[..i] && live[i] == live0[i] && live[i + 1..] == tail;
    RemoveAt(live, i);
  }

  /** A group not kept is dropped: the second loop moves on past it. */
  lemma DropStep(f0: Fields, f: Fields, f': Fields, keep: set<GroupRef>, originalCount: nat, move: bool, i: nat)
    requires i < originalCount <= |f0.state.permissionGroups| && DeletedNotKept(f0, f, keep, originalCount, move, i)
    requires f0.state.permissionGroups[i] !in keep && Distinct(f.state.permissionGroups)
    requires GroupDropped(f, f', f0.state.permissionGroups[i], move)
    ensures DeletedNotKept(f0, f', keep, originalCount, move, i - 1)
  {
    DropSeq(f0.state.permissionGroups, f.state.permissionGroups, keep, originalCount, i);
  }

  /** A consistent state with a group in its arena holds a consistent store. */
  lemma NonEmptyStoreValid(s: ManagerState, viewStale: bool)
    requires StateOk(s, viewStale) && |s.groups| > 0
    ensures StoreValid(s)
  {
  }
}
