/**
 * How the parts of the permission manager's state must agree, and why each
 * operation keeps that agreement. The manager's methods change their fields
 * and cite the lemma here that covers the change; everything is stated over
 * the fields' values.
 */
module Consistency {
  import opened Wrappers
  import opened Records
  import opened Membership
  import opened Store
  import opened ResolverRegistry

  /**
   * How the state outside the group store must agree: the definitions and
   * their lookup, one flag per definition in every group, the membership
   * lists, the resolver registry, the imported-id table, and (unless an import
   * has just overwritten flags) the cached values of the viewed group.
   */
  ghost predicate CoreOk(defs: seq<PermissionDefinition>, defsByName: map<string, nat>,
                         groups: seq<PermissionGroup>, players: seq<PermissionsPlayerData>, registry: Registry,
                         importedIds: map<nat, GroupRef>, viewStale: bool, view: Option<GroupRef>)
  {
    && DefsOk(defs, defsByName)
    && GroupFlagsSized(groups, |defs|)
    && MembershipOk(Roster(players, groups))
    && RegistryOk(registry)
    && (forall id :: id in importedIds ==> importedIds[id] < |groups|)
    && (viewStale || ViewOk(groups, defs, view))
  }

  /** No group was created or read yet. */
  ghost predicate StoreEmptyOk(groups: seq<PermissionGroup>, live: seq<GroupRef>, byId: map<nat, GroupRef>,
                               byName: map<string, GroupRef>, nextId: nat) {
    groups == [] && live == [] && byId == map[] && byName == map[] && nextId == 1
  }

  /** The group store holds the default group and is consistent. */
  ghost predicate StoreValidOk(groups: seq<PermissionGroup>, live: seq<GroupRef>, byId: map<nat, GroupRef>,
                               byName: map<string, GroupRef>, default: GroupRef, nextId: nat) {
    StoreOk(groups, live, byId, byName, default, nextId) && LiveOk(groups, live)
  }

  /** The manager's invariant: `CoreOk`, and a store that is empty or consistent. */
  ghost predicate ManagerOk(defs: seq<PermissionDefinition>, defsByName: map<string, nat>,
                            groups: seq<PermissionGroup>, live: seq<GroupRef>,
                            byId: map<nat, GroupRef>, byName: map<string, GroupRef>, default: GroupRef, nextId: nat,
                            players: seq<PermissionsPlayerData>, registry: Registry,
                            importedIds: map<nat, GroupRef>, viewStale: bool, view: Option<GroupRef>)
  {
    && CoreOk(defs, defsByName, groups, players, registry, importedIds, viewStale, view)
    && (StoreEmptyOk(groups, live, byId, byName, nextId) || StoreValidOk(groups, live, byId, byName, default, nextId))
  }

  /**
   * The permission manager's fields, bundled. `groups` and `players` are the
   * arenas that hold the group and player records; the other fields carry the
   * names of the manager's own fields.
   */
  datatype ManagerState = ManagerState(
    nextGroupId: nat,
    defaultPermissionGroup: GroupRef,
    groups: seq<PermissionGroup>,
    permissionGroups: seq<GroupRef>,
    groupsById: map<nat, GroupRef>,
    groupsByName: map<string, GroupRef>,
    permissionDefs: seq<PermissionDefinition>,
    permissionDefsByInternalName: map<string, nat>,
    players: seq<PermissionsPlayerData>,
    viewWorldAsGroup: Option<GroupRef>,
    allPermissionResolvers: seq<Option<ResolverRef>>,
    allPermissionResolversLut: map<ResolverRef, nat>,
    groupsByImportedId: map<nat, GroupRef>)

  function RosterOf(s: ManagerState): Roster {
    Roster(s.players, s.groups)
  }

  function RegistryOf(s: ManagerState): Registry {
    Registry(s.allPermissionResolvers, s.allPermissionResolversLut)
  }

  /** `ManagerOk` of the bundled fields. */
  ghost predicate StateOk(s: ManagerState, viewStale: bool) {
    ManagerOk(s.permissionDefs, s.permissionDefsByInternalName, s.groups, s.permissionGroups, s.groupsById, s.groupsByName,
              s.defaultPermissionGroup, s.nextGroupId, s.players, RegistryOf(s), s.groupsByImportedId, viewStale, s.viewWorldAsGroup)
  }

  /** The group store of `s` holds the default group and is consistent. */
  ghost predicate StoreValid(s: ManagerState) {
    StoreValidOk(s.groups, s.permissionGroups, s.groupsById, s.groupsByName, s.defaultPermissionGroup, s.nextGroupId)
  }

  /** No group of `s` was created or read yet. */
  ghost predicate StoreEmpty(s: ManagerState) {
    StoreEmptyOk(s.groups, s.permissionGroups, s.groupsById, s.groupsByName, s.nextGroupId)
  }
}
