/**
 * The value-level effect of each of the permission manager's state changes,
 * and the proof that each keeps the invariant `ManagerOk`.
 */
module Transitions {
  import opened Wrappers
  import opened Records
  import opened Text
  import opened ArrList
  import opened Membership
  import opened Store
  import opened ResolverRegistry
  import opened Consistency

  /** The groups after the flag of definition `d` in group `g` is set to `value`. */
  function WithFlag(groups: seq<PermissionGroup>, g: GroupRef, d: nat, value: bool): (groups': seq<PermissionGroup>)
    requires g < |groups| && d < |groups[g].permissionValues|
    ensures |groups'| == |groups| && |groups'[g].permissionValues| == |groups[g].permissionValues|
    ensures groups'[g].permissionValues[d] == value
    ensures forall i :: 0 <= i < |groups[g].permissionValues| && i != d ==>
              groups'[g].permissionValues[i] == groups[g].permissionValues[i]
    ensures forall h :: 0 <= h < |groups| && h != g ==> groups'[h] == groups[h]
    ensures groups'[g] == groups[g].(permissionValues := groups'[g].permissionValues)
  {
    groups[g := groups[g].(permissionValues := groups[g].permissionValues[d := value])]
  }

  /** Setting a flag to the value it has changes nothing. */
  lemma WithFlagSame(groups: seq<PermissionGroup>, g: GroupRef, d: nat, value: bool)
    requires g < |groups| && d < |groups[g].permissionValues| && groups[g].permissionValues[d] == value
    ensures WithFlag(groups, g, d, value) == groups
  {
    assert groups[g].permissionValues[d := value] == groups[g].permissionValues;
  }

  /** The definitions after that change: only a viewed group's change reaches the cached value. */
  function WithCachedValue(defs: seq<PermissionDefinition>, view: Option<GroupRef>, g: GroupRef, d: nat, value: bool)
    : (defs': seq<PermissionDefinition>)
    requires d < |defs|
    ensures |defs'| == |defs|
    ensures view == Some(g) ==> defs'[d] == defs[d].(valueForLocalPlayer := value)
    ensures forall i :: 0 <= i < |defs| && (i != d || view != Some(g)) ==> defs'[i] == defs[i]
  {
    if view == Some(g) then defs[d := defs[d].(valueForLocalPlayer := value)] else defs
  }

  /** Two group arenas that differ at most in the groups' permission flags. */
  predicate SameButFlags(g1: seq<PermissionGroup>, g2: seq<PermissionGroup>) {
    |g1| == |g2| && forall h :: 0 <= h < |g1| ==> g2[h] == g1[h].(permissionValues := g2[h].permissionValues)
  }

  /** Membership lists do not look at flags. */
  lemma SameButFlagsKeepsMembership(players: seq<PermissionsPlayerData>, g1: seq<PermissionGroup>, g2: seq<PermissionGroup>)
    requires MembershipOk(Roster(players, g1)) && SameButFlags(g1, g2)
    ensures MembershipOk(Roster(players, g2))
  {
    GroupsFrameKeeps(Roster(players, g1), g2);
  }

  /** The group store does not look at flags. */
  lemma SameButFlagsKeepsStore(g1: seq<PermissionGroup>, g2: seq<PermissionGroup>, live: seq<GroupRef>,
                               byId: map<nat, GroupRef>, byName: map<string, GroupRef>, default: GroupRef, nextId: nat)
    requires StoreEmptyOk(g1, live, byId, byName, nextId) || StoreValidOk(g1, live, byId, byName, default, nextId)
    requires SameButFlags(g1, g2)
    ensures StoreEmptyOk(g2, live, byId, byName, nextId) || StoreValidOk(g2, live, byId, byName, default, nextId)
  {
    if !StoreEmptyOk(g1, live, byId, byName, nextId) {
      StoreFrame(g1, g2, live, byId, byName, default, nextId);
    }
  }

  /** The definitions' lookup does not look at cached values. */
  lemma CachedValueKeepsDefs(defs: seq<PermissionDefinition>, defsByName: map<string, nat>,
                             view: Option<GroupRef>, g: GroupRef, d: nat, value: bool)
    requires DefsOk(defs, defsByName) && d < |defs|
    ensures DefsOk(WithCachedValue(defs, view, g, d, value), defsByName)
  {
  }

  /** The viewed group's cache follows its flag. */
  lemma SetValueKeepsView(groups: seq<PermissionGroup>, defs: seq<PermissionDefinition>, view: Option<GroupRef>,
                          g: GroupRef, d: nat, value: bool)
    requires ViewOk(groups, defs, view) && g < |groups| && d < |defs| && d < |groups[g].permissionValues|
    ensures ViewOk(WithFlag(groups, g, d, value), WithCachedValue(defs, view, g, d, value), view)
  {
  }

  /** Setting one flag, with the cached value following for the viewed group, keeps the invariant. */
  lemma SetValueKeeps(defs: seq<PermissionDefinition>, defsByName: map<string, nat>,
                      groups: seq<PermissionGroup>, live: seq<GroupRef>,
                      byId: map<nat, GroupRef>, byName: map<string, GroupRef>, default: GroupRef, nextId: nat,
                      players: seq<PermissionsPlayerData>, registry: Registry,
                      importedIds: map<nat, GroupRef>, viewStale: bool, view: Option<GroupRef>,
                      g: GroupRef, d: nat, value: bool, defs': seq<PermissionDefinition>, groups': seq<PermissionGroup>)
    requires ManagerOk(defs, defsByName, groups, live, byId, byName, default, nextId, players, registry, importedIds, viewStale, view)
    requires g < |groups| && d < |defs|
    requires defs' == WithCachedValue(defs, view, g, d, value) && groups' == WithFlag(groups, g, d, value)
    ensures ManagerOk(defs', defsByName, groups', live, byId, byName, default, nextId, players, registry, importedIds, viewStale, view)
  {
    assert SameButFlags(groups, groups');
    SameButFlagsKeepsMembership(players, groups, groups');
    SameButFlagsKeepsStore(groups, groups', live, byId, byName, default, nextId);
    CachedValueKeepsDefs(defs, defsByName, view, g, d, value);
    if !viewStale {
      SetValueKeepsView(groups, defs, view, g, d, value);
    }
  }


  /** The definitions once each caches the flag it has in `values`. */
  function CachedValues(defs: seq<PermissionDefinition>, values: seq<bool>): (defs': seq<PermissionDefinition>)
    requires |values| == |defs|
    ensures |defs'| == |defs|
    ensures forall i :: 0 <= i < |defs| ==> defs'[i] == defs[i].(valueForLocalPlayer := values[i])
  {
    seq(|defs|, i requires 0 <= i < |defs| => defs[i].(valueForLocalPlayer := values[i]))
  }

  /** Caching values changes no definition's position or name. */
  lemma CachedValuesKeepDefs(defs: seq<PermissionDefinition>, defsByName: map<string, nat>, values: seq<bool>)
    requires DefsOk(defs, defsByName) && |values| == |defs|
    ensures DefsOk(CachedValues(defs, values), defsByName)
  {
  }

  /** Caching a group's flags makes the cache agree with that group. */
  lemma CachedValuesView(groups: seq<PermissionGroup>, defs: seq<PermissionDefinition>, g: GroupRef)
    requires g < |groups| && |groups[g].permissionValues| == |defs|
    ensures ViewOk(groups, CachedValues(defs, groups[g].permissionValues), Some(g))
  {
  }

  /** Viewing the world as group `g`, with every cached value taken from it, keeps the invariant. */
  lemma ViewGroupKeeps(defs: seq<PermissionDefinition>, defsByName: map<string, nat>,
                       groups: seq<PermissionGroup>, live: seq<GroupRef>,
                       byId: map<nat, GroupRef>, byName: map<string, GroupRef>, default: GroupRef, nextId: nat,
                       players: seq<PermissionsPlayerData>, registry: Registry,
                       importedIds: map<nat, GroupRef>, viewStale: bool, view: Option<GroupRef>,
                       g: GroupRef, defs': seq<PermissionDefinition>)
    requires ManagerOk(defs, defsByName, groups, live, byId, byName, default, nextId, players, registry, importedIds, viewStale, view)
    requires g < |groups| && defs' == CachedValues(defs, groups[g].permissionValues)
    ensures ManagerOk(defs', defsByName, groups, live, byId, byName, default, nextId, players, registry, importedIds, false, Some(g))
  {
    CachedValuesKeepDefs(defs, defsByName, groups[g].permissionValues);
    CachedValuesView(groups, defs, g);
  }

  /** Any consistent registry may replace the current one. */
  lemma RegistryKeeps(defs: seq<PermissionDefinition>, defsByName: map<string, nat>,
                      groups: seq<PermissionGroup>, live: seq<GroupRef>,
                      byId: map<nat, GroupRef>, byName: map<string, GroupRef>, default: GroupRef, nextId: nat,
                      players: seq<PermissionsPlayerData>, registry: Registry,
                      importedIds: map<nat, GroupRef>, viewStale: bool, view: Option<GroupRef>, registry': Registry)
    requires ManagerOk(defs, defsByName, groups, live, byId, byName, default, nextId, players, registry, importedIds, viewStale, view)
    requires RegistryOk(registry')
    ensures ManagerOk(defs, defsByName, groups, live, byId, byName, default, nextId, players, registry', importedIds, viewStale, view)
  {
  }

  /** The state `Start` leaves: indexed definitions, a consistent registry, and nothing else yet. */
  lemma StartKeeps(defs: seq<PermissionDefinition>, defsByName: map<string, nat>, registry: Registry)
    requires DefsOk(defs, defsByName) && RegistryOk(registry)
    ensures ManagerOk(defs, defsByName, [], [], map[], map[], 0, 1, [], registry, map[], false, None)
  {
    assert MembershipOk(Roster([], []));
  }

  // ---------------------------------------------------------------- Creating a group

  /** What `DuplicatePermissionGroupInGS` builds: a group with no members, no default mark and no deleted mark. */
  predicate Fresh(group: PermissionGroup) {
    !group.isDefault && !group.isDeleted && group.playersInGroup == [] && group.onlinePlayersInGroup == []
  }

  /** The rest of the state does not mind one more group with empty member lists. */
  lemma AddCoreKeeps(defs: seq<PermissionDefinition>, defsByName: map<string, nat>, groups: seq<PermissionGroup>,
                     players: seq<PermissionsPlayerData>, registry: Registry, importedIds: map<nat, GroupRef>,
                     viewStale: bool, view: Option<GroupRef>, group: PermissionGroup)
    requires CoreOk(defs, defsByName, groups, players, registry, importedIds, viewStale, view)
    requires group.playersInGroup == [] && group.onlinePlayersInGroup == [] && |group.permissionValues| == |defs|
    ensures CoreOk(defs, defsByName, groups + [group], players, registry, importedIds, viewStale, view)
  {
    AddGroupKeepsMembership(Roster(players, groups), group);
    if !viewStale && view.Some? {
      assert (groups + [group])[view.value] == groups[view.value];
    }
  }

  /**
   * `RegisterCreatedPermissionGroup` after `DuplicatePermissionGroupInGS` has
   * given a fresh group the next id (and moved the next id on): with a
   * trimmed, non-empty, unused name and one flag per definition it keeps the
   * invariant.
   */
  lemma CreateKeeps(defs: seq<PermissionDefinition>, defsByName: map<string, nat>,
                    groups: seq<PermissionGroup>, live: seq<GroupRef>,
                    byId: map<nat, GroupRef>, byName: map<string, GroupRef>, default: GroupRef, nextId: nat,
                    players: seq<PermissionsPlayerData>, registry: Registry,
                    importedIds: map<nat, GroupRef>, viewStale: bool, view: Option<GroupRef>,
                    group: PermissionGroup, groups': seq<PermissionGroup>, live': seq<GroupRef>,
                    byId': map<nat, GroupRef>, byName': map<string, GroupRef>)
    requires ManagerOk(defs, defsByName, groups, live, byId, byName, default, nextId, players, registry, importedIds, viewStale, view)
    requires groups != [] && Fresh(group) && group.id == nextId && |group.permissionValues| == |defs|
    requires group.groupName !in byName && Trimmed(group.groupName) && group.groupName != ""
    requires groups' == groups + [group] && live' == live + [|groups|]
    requires byId' == byId[group.id := |groups|] && byName' == byName[group.groupName := |groups|]
    ensures ManagerOk(defs, defsByName, groups', live', byId', byName', default, nextId + 1, players, registry, importedIds, viewStale, view)
  {
    NextIdFree(groups, live, byId, byName, default, nextId);
    BumpNextId(groups, live, byId, byName, default, nextId);
    AddGroupKeeps(groups, live, byId, byName, default, nextId + 1, group);
    AddLive(groups, live, group);
    AddCoreKeeps(defs, defsByName, groups, players, registry, importedIds, viewStale, view, group);
  }

  /**
   * `OnPrePlayerDataManagerInit`: the default group, named "Default", given
   * the first id and one flag per definition, is the first group of an empty
   * store and keeps the invariant.
   */
  lemma CreateDefaultKeeps(defs: seq<PermissionDefinition>, defsByName: map<string, nat>,
                           groups: seq<PermissionGroup>, live: seq<GroupRef>,
                           byId: map<nat, GroupRef>, byName: map<string, GroupRef>, default: GroupRef, nextId: nat,
                           players: seq<PermissionsPlayerData>, registry: Registry,
                           importedIds: map<nat, GroupRef>, viewStale: bool, view: Option<GroupRef>,
                           group: PermissionGroup)
    requires ManagerOk(defs, defsByName, groups, live, byId, byName, default, nextId, players, registry, importedIds, viewStale, view)
    requires groups == [] && group.isDefault && !group.isDeleted && group.groupName == DefaultGroupName
    requires group.id == nextId && group.playersInGroup == [] && group.onlinePlayersInGroup == []
    requires |group.permissionValues| == |defs|
    ensures ManagerOk(defs, defsByName, [group], [0], map[group.id := 0], map[DefaultGroupName := 0], 0, nextId + 1,
                      players, registry, importedIds, viewStale, view)
  {
    FirstGroupOk([], group, nextId + 1);
    AddLive([], [], group);
    AddCoreKeeps(defs, defsByName, groups, players, registry, importedIds, viewStale, view, group);
    assert groups + [group] == [group];
  }

  // ---------------------------------------------------------------- Deleting a group

  /**
   * From `groups` to `groups'` no group changes its id, name, default mark or
   * flags, and exactly `g` joins the deleted groups.
   */
  predicate DeletedFrame(groups: seq<PermissionGroup>, g: GroupRef, groups': seq<PermissionGroup>) {
    && |groups'| == |groups|
    && forall h :: 0 <= h < |groups| ==>
         && SameIdentity(groups[h], groups'[h])
         && groups'[h].permissionValues == groups[h].permissionValues
         && groups'[h].isDeleted == (h == g || groups[h].isDeleted)
  }

  /** Taking a deleted group out of the live list and both lookups keeps the store consistent. */
  lemma DeleteStoreKeeps(groups: seq<PermissionGroup>, live: seq<GroupRef>, byId: map<nat, GroupRef>,
                         byName: map<string, GroupRef>, default: GroupRef, nextId: nat,
                         g: GroupRef, groups': seq<PermissionGroup>)
    requires StoreValidOk(groups, live, byId, byName, default, nextId)
    requires g < |groups| && g in live && !groups[g].isDefault && DeletedFrame(groups, g, groups')
    ensures StoreValidOk(groups', Remove(live, g), byId - {groups[g].id}, byName - {groups[g].groupName}, default, nextId)
  {
    RemoveGroupKeeps(groups, live, byId, byName, default, nextId, g);
    StoreOkFrame(groups, groups', Remove(live, g), byId - {groups[g].id}, byName - {groups[g].groupName}, default, nextId);
    forall h | 0 <= h < |groups'| ensures h in Remove(live, g) <==> !groups'[h].isDeleted {
      assert h in live <==> !groups[h].isDeleted;
    }
  }

  /** Neither the flag counts nor the viewed group's cache look at member lists or deletion marks. */
  lemma DeleteFlagsKeep(groups: seq<PermissionGroup>, defs: seq<PermissionDefinition>, view: Option<GroupRef>,
                        viewStale: bool, g: GroupRef, groups': seq<PermissionGroup>)
    requires GroupFlagsSized(groups, |defs|) && (viewStale || ViewOk(groups, defs, view)) && DeletedFrame(groups, g, groups')
    ensures GroupFlagsSized(groups', |defs|) && (viewStale || ViewOk(groups', defs, view))
  {
    forall h | 0 <= h < |groups'| ensures |groups'[h].permissionValues| == |defs| {
      assert groups'[h].permissionValues == groups[h].permissionValues;
    }
    if !viewStale && view.Some? && view.value < |groups|{
      assert groups'[view.value].permissionValues == groups[view.value].permissionValues;
    }
  }

  /** The roster step of a deletion leaves the groups in a `DeletedFrame`. */
  lemma MoveOutFrame(r: Roster, g: GroupRef, t: GroupRef)
    requires MembershipOk(r) && g < |r.groups| && t < |r.groups| && !r.groups[g].isDeleted
    requires g != t && !r.groups[t].isDeleted
    ensures DeletedFrame(r.groups, g, MoveOutOfDeleted(r, g, t).groups)
  {
    MoveOutOfDeletedEffect(r, g, t);
    var groups' := MoveOutOfDeleted(r, g, t).groups;
    forall h | 0 <= h < |r.groups|
      ensures && SameIdentity(r.groups[h], groups'[h])
              && groups'[h].permissionValues == r.groups[h].permissionValues
              && groups'[h].isDeleted == (h == g || r.groups[h].isDeleted)
    {
      if h != g {
        assert SameButMembers(r.groups[h], groups'[h]);
        assert r.groups[h].(playersInGroup := [], onlinePlayersInGroup := []).id == r.groups[h].id;
      }
    }
  }

  /**
   * `DeletePermissionGroupInGSInternal`: a live group other than the default,
   * marked deleted with its members moved into a different group that is not
   * deleted, and taken out of the live list and both lookups, keeps the
   * invariant.
   */
  lemma DeleteKeeps(defs: seq<PermissionDefinition>, defsByName: map<string, nat>,
                    groups: seq<PermissionGroup>, live: seq<GroupRef>,
                    byId: map<nat, GroupRef>, byName: map<string, GroupRef>, default: GroupRef, nextId: nat,
                    players: seq<PermissionsPlayerData>, registry: Registry,
                    importedIds: map<nat, GroupRef>, viewStale: bool, view: Option<GroupRef>,
                    g: GroupRef, t: GroupRef, groups': seq<PermissionGroup>, live': seq<GroupRef>,
                    byId': map<nat, GroupRef>, byName': map<string, GroupRef>, players': seq<PermissionsPlayerData>)
    requires ManagerOk(defs, defsByName, groups, live, byId, byName, default, nextId, players, registry, importedIds, viewStale, view)
    requires g < |groups| && t < |groups| && !groups[g].isDefault && !groups[g].isDeleted
    requires g != t && !groups[t].isDeleted
    requires Roster(players', groups') == MoveOutOfDeleted(Roster(players, groups), g, t)
    requires live' == Remove(live, g) && byId' == byId - {groups[g].id} && byName' == byName - {groups[g].groupName}
    ensures ManagerOk(defs, defsByName, groups', live', byId', byName', default, nextId, players', registry, importedIds, viewStale, view)
  {
    MoveOutFrame(Roster(players, groups), g, t);
    assert g in live;
    DeleteStoreKeeps(groups, live, byId, byName, default, nextId, g, groups');
    DeleteFlagsKeep(groups, defs, view, viewStale, g, groups');
  }

  // ---------------------------------------------------------------- The bundled state

  /** The state `Start` leaves: indexed definitions, a consistent registry, no groups, no players. */
  function Started(defs: seq<PermissionDefinition>, defsByName: map<string, nat>,
                   arr: seq<Option<ResolverRef>>, lut: map<ResolverRef, nat>): ManagerState {
    ManagerState(1, 0, [], [], map[], map[], defs, defsByName, [], None, arr, lut, map[])
  }

  lemma StartedOk(defs: seq<PermissionDefinition>, defsByName: map<string, nat>,
                  arr: seq<Option<ResolverRef>>, lut: map<ResolverRef, nat>)
    requires DefsOk(defs, defsByName) && RegistryOk(Registry(arr, lut))
    ensures StateOk(Started(defs, defsByName, arr, lut), false) && StoreEmpty(Started(defs, defsByName, arr, lut))
  {
    StartKeeps(defs, defsByName, Registry(arr, lut));
  }

  /** Every group of `s` holds one flag per definition. */
  lemma FlagsSizedOf(s: ManagerState, viewStale: bool, g: GroupRef)
    requires StateOk(s, viewStale) && g < |s.groups|
    ensures |s.groups[g].permissionValues| == |s.permissionDefs|
  {
  }

  /** The state after a flag changed: the flag, and the cached value when `g` is the viewed group. */
  function WithValue(s: ManagerState, g: GroupRef, d: nat, value: bool): ManagerState
    requires g < |s.groups| && d < |s.groups[g].permissionValues| && d < |s.permissionDefs|
  {
    s.(groups := WithFlag(s.groups, g, d, value),
       permissionDefs := WithCachedValue(s.permissionDefs, s.viewWorldAsGroup, g, d, value))
  }

  lemma WithValueKeeps(s: ManagerState, viewStale: bool, g: GroupRef, d: nat, value: bool)
    requires StateOk(s, viewStale) && g < |s.groups| && d < |s.permissionDefs|
    ensures d < |s.groups[g].permissionValues| && StateOk(WithValue(s, g, d, value), viewStale)
  {
    SetValueKeeps(s.permissionDefs, s.permissionDefsByInternalName, s.groups, s.permissionGroups, s.groupsById,
                  s.groupsByName, s.defaultPermissionGroup, s.nextGroupId, s.players, RegistryOf(s),
                  s.groupsByImportedId, viewStale, s.viewWorldAsGroup, g, d, value,
                  WithCachedValue(s.permissionDefs, s.viewWorldAsGroup, g, d, value), WithFlag(s.groups, g, d, value));
  }

  /**
   * `s'` is `s` viewing the world as `g`: every definition caches `g`'s flag,
   * and the resolver array is a consistent registry of the same resolvers,
   * possibly shorter; nothing else changes.
   */
  ghost predicate ViewSwitched(s: ManagerState, s': ManagerState, g: GroupRef)
    requires g < |s.groups| && |s.groups[g].permissionValues| == |s.permissionDefs|
  {
    && s' == s.(viewWorldAsGroup := Some(g), permissionDefs := CachedValues(s.permissionDefs, s.groups[g].permissionValues),
                allPermissionResolvers := s'.allPermissionResolvers, allPermissionResolversLut := s'.allPermissionResolversLut)
    && RegistryOk(RegistryOf(s'))
    && Live(s'.allPermissionResolvers) == Live(s.allPermissionResolvers)
    && |s'.allPermissionResolvers| <= |s.allPermissionResolvers|
    && s'.allPermissionResolversLut.Keys == s.allPermissionResolversLut.Keys
  }

  lemma ViewSwitchedKeeps(s: ManagerState, viewStale: bool, s': ManagerState, g: GroupRef)
    requires StateOk(s, viewStale) && g < |s.groups| && |s.groups[g].permissionValues| == |s.permissionDefs|
    requires ViewSwitched(s, s', g)
    ensures StateOk(s', false)
  {
    var defs' := CachedValues(s.permissionDefs, s.groups[g].permissionValues);
    ViewGroupKeeps(s.permissionDefs, s.permissionDefsByInternalName, s.groups, s.permissionGroups, s.groupsById,
                   s.groupsByName, s.defaultPermissionGroup, s.nextGroupId, s.players, RegistryOf(s),
                   s.groupsByImportedId, viewStale, s.viewWorldAsGroup, g, defs');
    RegistryKeeps(defs', s.permissionDefsByInternalName, s.groups, s.permissionGroups, s.groupsById,
                  s.groupsByName, s.defaultPermissionGroup, s.nextGroupId, s.players, RegistryOf(s),
                  s.groupsByImportedId, false, Some(g), RegistryOf(s'));
  }

  /** The resolver registry replaced by a consistent one. */
  lemma WithRegistryKeeps(s: ManagerState, viewStale: bool, reg: Registry)
    requires StateOk(s, viewStale) && RegistryOk(reg)
    ensures StateOk(s.(allPermissionResolvers := reg.resolvers, allPermissionResolversLut := reg.lut), viewStale)
  {
    RegistryKeeps(s.permissionDefs, s.permissionDefsByInternalName, s.groups, s.permissionGroups, s.groupsById,
                  s.groupsByName, s.defaultPermissionGroup, s.nextGroupId, s.players, RegistryOf(s),
                  s.groupsByImportedId, viewStale, s.viewWorldAsGroup, reg);
  }

  /** The default group `OnPrePlayerDataManagerInit` creates, with the next id and the flags `values`. */
  function DefaultGroupOf(s: ManagerState, values: seq<bool>): PermissionGroup {
    PermissionGroup(true, s.nextGroupId, DefaultGroupName, values, false, [], [])
  }

  /** An empty store with the default group as its first and only group. */
  function WithDefaultGroup(s: ManagerState, values: seq<bool>): ManagerState {
    s.(groups := [DefaultGroupOf(s, values)], permissionGroups := [0], groupsById := map[s.nextGroupId := 0],
       groupsByName := map[DefaultGroupName := 0], defaultPermissionGroup := 0, nextGroupId := s.nextGroupId + 1)
  }

  lemma WithDefaultGroupKeeps(s: ManagerState, viewStale: bool, values: seq<bool>)
    requires StateOk(s, viewStale) && s.groups == [] && |values| == |s.permissionDefs|
    ensures StateOk(WithDefaultGroup(s, values), viewStale) && StoreValid(WithDefaultGroup(s, values))
  {
    CreateDefaultKeeps(s.permissionDefs, s.permissionDefsByInternalName, s.groups, s.permissionGroups, s.groupsById,
                       s.groupsByName, s.defaultPermissionGroup, s.nextGroupId, s.players, RegistryOf(s),
                       s.groupsByImportedId, viewStale, s.viewWorldAsGroup, DefaultGroupOf(s, values));
  }

  /**
   * `DuplicatePermissionGroupInGS` after its guards: a group named `name` with
   * the next id and the flags `values` joins the end of the live list and both
   * lookups, and the next id moves on.
   */
  function WithDuplicate(s: ManagerState, name: string, values: seq<bool>): ManagerState {
    var g := |s.groups|;
    s.(groups := s.groups + [DuplicateOf(name, s.nextGroupId, values)], permissionGroups := s.permissionGroups + [g],
       groupsById := s.groupsById[s.nextGroupId := g], groupsByName := s.groupsByName[name := g],
       nextGroupId := s.nextGroupId + 1)
  }

  /** The group `DuplicatePermissionGroupInGS` creates: not the default, not deleted, with no members. */
  function DuplicateOf(name: string, id: nat, values: seq<bool>): PermissionGroup {
    PermissionGroup(false, id, name, values, false, [], [])
  }

  lemma WithDuplicateKeeps(s: ManagerState, viewStale: bool, name: string, values: seq<bool>)
    requires StateOk(s, viewStale) && s.groups != [] && |values| == |s.permissionDefs|
    requires Trimmed(name) && name != "" && name !in s.groupsByName
    ensures StateOk(WithDuplicate(s, name, values), viewStale)
  {
    var s' := WithDuplicate(s, name, values);
    CreateKeeps(s.permissionDefs, s.permissionDefsByInternalName, s.groups, s.permissionGroups, s.groupsById,
                s.groupsByName, s.defaultPermissionGroup, s.nextGroupId, s.players, RegistryOf(s),
                s.groupsByImportedId, viewStale, s.viewWorldAsGroup, DuplicateOf(name, s.nextGroupId, values),
                s'.groups, s'.permissionGroups, s'.groupsById, s'.groupsByName);
  }

  /**
   * The state change of `DeletePermissionGroupInGSInternal`: `g` is marked
   * deleted with its members moved into `t`, and leaves the live list and
   * both lookups.
   */
  function WithoutGroup(s: ManagerState, g: GroupRef, t: GroupRef): ManagerState
    requires MembershipOk(RosterOf(s)) && g < |s.groups| && t < |s.groups| && !s.groups[g].isDeleted
  {
    var r := MoveOutOfDeleted(RosterOf(s), g, t);
    s.(players := r.players, groups := r.groups, permissionGroups := Remove(s.permissionGroups, g),
       groupsById := s.groupsById - {s.groups[g].id}, groupsByName := s.groupsByName - {s.groups[g].groupName})
  }

  lemma WithoutGroupKeeps(s: ManagerState, viewStale: bool, g: GroupRef, t: GroupRef)
    requires StateOk(s, viewStale) && g < |s.groups| && t < |s.groups|
    requires !s.groups[g].isDefault && !s.groups[g].isDeleted && g != t && !s.groups[t].isDeleted
    ensures StateOk(WithoutGroup(s, g, t), viewStale)
  {
    var s' := WithoutGroup(s, g, t);
    DeleteKeeps(s.permissionDefs, s.permissionDefsByInternalName, s.groups, s.permissionGroups, s.groupsById,
                s.groupsByName, s.defaultPermissionGroup, s.nextGroupId, s.players, RegistryOf(s),
                s.groupsByImportedId, viewStale, s.viewWorldAsGroup, g, t,
                s'.groups, s'.permissionGroups, s'.groupsById, s'.groupsByName, s'.players);
  }

  /**
   * `DeletePermissionGroupWithoutCleanup`: `g` is marked deleted and leaves the
   * live list and both lookups; its members stay where they are.
   */
  function WithoutGroupNoCleanup(s: ManagerState, g: GroupRef): ManagerState
    requires g < |s.groups|
  {
    s.(groups := s.groups[g := s.groups[g].(isDeleted := true)], permissionGroups := Remove(s.permissionGroups, g),
       groupsById := s.groupsById - {s.groups[g].id}, groupsByName := s.groupsByName - {s.groups[g].groupName})
  }

  lemma WithoutGroupNoCleanupKeeps(s: ManagerState, viewStale: bool, g: GroupRef)
    requires StateOk(s, viewStale) && g < |s.groups| && !s.groups[g].isDefault && !s.groups[g].isDeleted
    ensures StateOk(WithoutGroupNoCleanup(s, g), viewStale)
  {
    var groups' := s.groups[g := s.groups[g].(isDeleted := true)];
    MarkDeletedKeeps(RosterOf(s), g);
    assert DeletedFrame(s.groups, g, groups');
    assert g in s.permissionGroups;
    DeleteStoreKeeps(s.groups, s.permissionGroups, s.groupsById, s.groupsByName, s.defaultPermissionGroup, s.nextGroupId,
                     g, groups');
    DeleteFlagsKeep(s.groups, s.permissionDefs, s.viewWorldAsGroup, viewStale, g, groups');
  }

  /** `RenamePermissionGroupInGS` after its guards: `g` takes `name`, and the name lookup follows. */
  function WithName(s: ManagerState, g: GroupRef, name: string): ManagerState
    requires g < |s.groups|
  {
    s.(groups := s.groups[g := s.groups[g].(groupName := name)],
       groupsByName := (s.groupsByName - {s.groups[g].groupName})[name := g])
  }

  /** The parts of the invariant outside the store do not look at group names. */
  lemma RenameCoreKeeps(defs: seq<PermissionDefinition>, defsByName: map<string, nat>, groups: seq<PermissionGroup>,
                        players: seq<PermissionsPlayerData>, registry: Registry, importedIds: map<nat, GroupRef>,
                        viewStale: bool, view: Option<GroupRef>, g: GroupRef, name: string)
    requires CoreOk(defs, defsByName, groups, players, registry, importedIds, viewStale, view) && g < |groups|
    ensures CoreOk(defs, defsByName, groups[g := groups[g].(groupName := name)], players, registry, importedIds, viewStale, view)
  {
    GroupsFrameKeeps(Roster(players, groups), groups[g := groups[g].(groupName := name)]);
  }

  /** Which groups are live does not depend on their names. */
  lemma RenameLiveKeeps(groups: seq<PermissionGroup>, live: seq<GroupRef>, g: GroupRef, name: string)
    requires LiveOk(groups, live) && g < |groups|
    ensures LiveOk(groups[g := groups[g].(groupName := name)], live)
  {
  }

  lemma WithNameKeeps(s: ManagerState, viewStale: bool, g: GroupRef, name: string)
    requires StateOk(s, viewStale) && g in s.permissionGroups && g < |s.groups| && !s.groups[g].isDefault
    requires Trimmed(name) && name != "" && name !in s.groupsByName
    ensures StateOk(WithName(s, g, name), viewStale)
  {
    RenameKeeps(s.groups, s.permissionGroups, s.groupsById, s.groupsByName, s.defaultPermissionGroup, s.nextGroupId, g, name);
    RenameLiveKeeps(s.groups, s.permissionGroups, g, name);
    RenameCoreKeeps(s.permissionDefs, s.permissionDefsByInternalName, s.groups, s.players, RegistryOf(s),
                    s.groupsByImportedId, viewStale, s.viewWorldAsGroup, g, name);
  }

  /** Groups that differ at most in their member lists keep their identity, deletion and flags. */
  lemma MembersOnlyChanged(g1: seq<PermissionGroup>, g2: seq<PermissionGroup>)
    requires |g1| == |g2| && forall h :: 0 <= h < |g1| ==> SameButMembers(g1[h], g2[h])
    ensures forall h :: 0 <= h < |g1| ==>
              SameIdentity(g1[h], g2[h]) && g1[h].isDeleted == g2[h].isDeleted && g1[h].permissionValues == g2[h].permissionValues
  {
    forall h | 0 <= h < |g1|
      ensures SameIdentity(g1[h], g2[h]) && g1[h].isDeleted == g2[h].isDeleted && g1[h].permissionValues == g2[h].permissionValues
    {
      var a := g1[h].(playersInGroup := [], onlinePlayersInGroup := []);
      var b := g2[h].(playersInGroup := [], onlinePlayersInGroup := []);
      assert a == b;
      assert a.id == g1[h].id && b.id == g2[h].id;
    }
  }

  /** `CoreOk` does not depend on the member lists beyond their own consistency. */
  lemma CoreMembersFrame(defs: seq<PermissionDefinition>, defsByName: map<string, nat>, g1: seq<PermissionGroup>,
                         g2: seq<PermissionGroup>, p1: seq<PermissionsPlayerData>, p2: seq<PermissionsPlayerData>, registry: Registry,
                         importedIds: map<nat, GroupRef>, viewStale: bool, view: Option<GroupRef>)
    requires CoreOk(defs, defsByName, g1, p1, registry, importedIds, viewStale, view) && MembershipOk(Roster(p2, g2))
    requires |g1| == |g2| && forall h :: 0 <= h < |g1| ==> SameButMembers(g1[h], g2[h])
    ensures CoreOk(defs, defsByName, g2, p2, registry, importedIds, viewStale, view)
  {
    MembersOnlyChanged(g1, g2);
  }

  /**
   * Two states that differ at most in the players and the groups' member
   * lists, where the new member lists are consistent.
   */
  lemma RosterKeeps(s: ManagerState, viewStale: bool, r: Roster)
    requires StateOk(s, viewStale) && MembershipOk(r) && |r.groups| == |s.groups|
    requires forall h :: 0 <= h < |s.groups| ==> SameButMembers(s.groups[h], r.groups[h])
    ensures StateOk(s.(players := r.players, groups := r.groups), viewStale)
  {
    var s' := s.(players := r.players, groups := r.groups);
    CoreMembersFrame(s.permissionDefs, s.permissionDefsByInternalName, s.groups, r.groups, s.players, r.players, RegistryOf(s),
                     s.groupsByImportedId, viewStale, s.viewWorldAsGroup);
    if !StoreEmpty(s) {
      StoreFrame(s.groups, r.groups, s.permissionGroups, s.groupsById, s.groupsByName, s.defaultPermissionGroup, s.nextGroupId);
      assert StoreValid(s');
    } else {
      assert StoreEmpty(s');
    }
  }

  /** `PlayerDataPermissionGroupSetter` on the state: `SetGroup` on the players and groups. */
  function WithPlayerGroup(s: ManagerState, p: PlayerRef, group: Option<GroupRef>): ManagerState
    requires MembershipOk(RosterOf(s)) && p < |s.players| && (group.Some? ==> group.value < |s.groups|)
  {
    var r := SetGroup(RosterOf(s), p, group);
    s.(players := r.players, groups := r.groups)
  }

  lemma WithPlayerGroupKeeps(s: ManagerState, viewStale: bool, p: PlayerRef, group: Option<GroupRef>)
    requires StateOk(s, viewStale) && p < |s.players| && (group.Some? ==> group.value < |s.groups|)
    ensures StateOk(WithPlayerGroup(s, p, group), viewStale)
  {
    SetGroupKeepsMembership(RosterOf(s), p, group);
    SetGroupEffect(RosterOf(s), p, group);
    RosterKeeps(s, viewStale, SetGroup(RosterOf(s), p, group));
  }

  /** `OnPlayerDataWentOffline` on the state. */
  function WithOffline(s: ManagerState, p: PlayerRef): ManagerState
    requires MembershipOk(RosterOf(s)) && p < |s.players|
    requires s.players[p].permissionGroup.Some? && !s.players[p].isOffline
    requires s.players[p].permissionGroup.value < |s.groups| && !s.groups[s.players[p].permissionGroup.value].isDeleted
    requires s.players[p].indexInOnlinePlayersInGroup != -1
  {
    var r := GoOffline(RosterOf(s), p);
    s.(players := r.players, groups := r.groups)
  }

  lemma WithOfflineKeeps(s: ManagerState, viewStale: bool, p: PlayerRef)
    requires StateOk(s, viewStale) && p < |s.players|
    requires s.players[p].permissionGroup.Some? && !s.players[p].isOffline
    requires s.players[p].permissionGroup.value < |s.groups| && !s.groups[s.players[p].permissionGroup.value].isDeleted
    requires s.players[p].indexInOnlinePlayersInGroup != -1
    ensures StateOk(WithOffline(s, p), viewStale)
  {
    GoOfflineKeeps(RosterOf(s), p);
    RosterKeeps(s, viewStale, GoOffline(RosterOf(s), p));
  }

  /** `OnPlayerDataWentOnline` on the state. */
  function WithOnline(s: ManagerState, p: PlayerRef): ManagerState
    requires p < |s.players|
    requires s.players[p].permissionGroup.Some? && s.players[p].permissionGroup.value < |s.groups|
  {
    var r := GoOnline(RosterOf(s), p);
    s.(players := r.players, groups := r.groups)
  }

  lemma WithOnlineKeeps(s: ManagerState, viewStale: bool, p: PlayerRef)
    requires StateOk(s, viewStale) && p < |s.players|
    requires s.players[p].permissionGroup.Some? && s.players[p].isOffline
    requires s.players[p].permissionGroup.value < |s.groups| && !s.groups[s.players[p].permissionGroup.value].isDeleted
    requires s.players[p].indexInPlayersInGroup != -1
    ensures StateOk(WithOnline(s, p), viewStale)
  {
    GoOnlineKeeps(RosterOf(s), p);
    RosterKeeps(s, viewStale, GoOnline(RosterOf(s), p));
  }

  // ---------------------------------------------------------------- Lookups and player records

  /** A group found by id is a live group of the arena with that id; the store is then not empty. */
  lemma LookedUpById(s: ManagerState, viewStale: bool, id: nat)
    requires StateOk(s, viewStale) && id in s.groupsById
    ensures StoreValid(s) && s.groupsById[id] in s.permissionGroups && s.groupsById[id] < |s.groups|
    ensures s.groups[s.groupsById[id]].id == id && !s.groups[s.groupsById[id]].isDeleted
  {
  }

  /** A group found by name is a live group of the arena with that name; the store is then not empty. */
  lemma LookedUpByName(s: ManagerState, viewStale: bool, name: string)
    requires StateOk(s, viewStale) && name in s.groupsByName
    ensures StoreValid(s) && s.groupsByName[name] in s.permissionGroups && s.groupsByName[name] < |s.groups|
    ensures s.groups[s.groupsByName[name]].groupName == name && !s.groups[s.groupsByName[name]].isDeleted
  {
  }

  /**
   * Replacing player `p`'s record keeps the invariant when the new record is
   * placed where the old one was, or when neither is in any list.
   */
  lemma PlayerRecordKeeps(s: ManagerState, viewStale: bool, p: PlayerRef, d: PermissionsPlayerData)
    requires StateOk(s, viewStale) && p < |s.players|
    requires PlayerShapeOk(d) && (d.permissionGroup.Some? ==> d.permissionGroup.value < |s.groups|)
    requires var o := s.players[p];
             || (d.permissionGroup == o.permissionGroup && d.indexInPlayersInGroup == o.indexInPlayersInGroup
                 && d.indexInOnlinePlayersInGroup == o.indexInOnlinePlayersInGroup)
             || (o.indexInPlayersInGroup == -1 && o.indexInOnlinePlayersInGroup == -1
                 && d.indexInPlayersInGroup == -1 && d.indexInOnlinePlayersInGroup == -1)
    ensures StateOk(s.(players := s.players[p := d]), viewStale)
  {
    var r, r' := RosterOf(s), RosterOf(s.(players := s.players[p := d]));
    assert MembershipOk(r);
    forall q | 0 <= q < |r'.players|
      ensures PlayerOk(r', q)
    {
      assert PlayerOk(r, q);
    }
    forall g | 0 <= g < |r'.groups|
      ensures ListsOk(r', g)
    {
      assert ListsOk(r, g);
      if !r.groups[g].isDeleted {
        forall i | 0 <= i < |r.groups[g].playersInGroup|
          ensures Member(r', g, i)
        {
          assert Member(r, g, i);
        }
        forall i | 0 <= i < |r.groups[g].onlinePlayersInGroup|
          ensures OnlineMember(r', g, i)
        {
          assert OnlineMember(r, g, i);
        }
      }
    }
    assert MembershipOk(r');
    RosterKeeps(s, viewStale, r');
  }
}
