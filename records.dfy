/**
 * The record shapes the permission manager works on. Groups, players and
 * resolvers are objects in the source; here each is addressed by a handle
 * (an index into the manager's arena of that kind), so two references are the
 * same object exactly when their handles are equal.
 */
module Records {
  import opened Wrappers

  /** Handle of a permission group in the manager's group arena. */
  type GroupRef = nat
  /** Handle of a player's permissions data in the manager's player arena. */
  type PlayerRef = nat
  /** Handle of a permission resolver (a behaviour whose `Resolve` is external). */
  type ResolverRef = nat

  /** The name of the group every world starts with and that can never be deleted or renamed. */
  const DefaultGroupName: string := "Default"

  /**
   * A permission: its position `index` in the manager's definition array, its
   * name for import matching, the flag new worlds give it, the value it has for
   * the group the local player views the world as, and the resolvers that react
   * to that value (a `None` slot is a destroyed resolver).
   */
  datatype PermissionDefinition = PermissionDefinition(
    index: nat,
    internalName: string,
    defaultValue: bool,
    valueForLocalPlayer: bool,
    resolvers: seq<Option<ResolverRef>>)

  /**
   * A permission group: one flag per definition, and the two dense member lists
   * (all members, and the members that are online).
   */
  datatype PermissionGroup = PermissionGroup(
    isDefault: bool,
    id: nat,
    groupName: string,
    permissionValues: seq<bool>,
    isDeleted: bool,
    playersInGroup: seq<PlayerRef>,
    onlinePlayersInGroup: seq<PlayerRef>)

  /**
   * The permissions part of a player's data: the player's id and whether it is
   * offline (both kept by the player data system), the group it belongs to,
   * its positions in that group's two member lists (-1 when absent), and the
   * group id read by `Deserialize`, resolved later.
   */
  datatype PermissionsPlayerData = PermissionsPlayerData(
    playerId: nat,
    isOffline: bool,
    permissionGroup: Option<GroupRef>,
    indexInPlayersInGroup: int,
    indexInOnlinePlayersInGroup: int,
    deserializedId: nat)

  /** What a listener of the manager's custom events is told. */
  datatype Event =
    | OnPermissionGroupDuplicated(group: GroupRef, sourceGroup: GroupRef, initiator: Option<PlayerRef>)
    | OnPermissionGroupDeleted(group: GroupRef)
    | OnPermissionGroupRenamed(group: GroupRef, previousName: string)
    | OnPlayerPermissionGroupChanged(player: PlayerRef, previousGroup: Option<GroupRef>)
    | OnPermissionValueChanged(group: GroupRef, definition: nat)
}
