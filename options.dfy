/**
 * The options an export is written with and an import is read with: whether
 * permission groups, and whether players' groups, take part.
 */
module ImportExportOptions {
  import opened Lockstep

  class PermissionImportExportOptions {
    var includePermissionGroups: bool
    var includePlayerPermissionGroups: bool

    /** Both parts take part unless a user turns them off. */
    constructor ()
      ensures includePermissionGroups && includePlayerPermissionGroups
    {
      includePermissionGroups := true;
      includePlayerPermissionGroups := true;
    }

    /** A new options object with the same two flags. */
    method Clone() returns (clone: PermissionImportExportOptions)
      ensures fresh(clone) && clone != this
      ensures clone.includePermissionGroups == includePermissionGroups
      ensures clone.includePlayerPermissionGroups == includePlayerPermissionGroups
    {
      clone := new PermissionImportExportOptions();
      clone.includePermissionGroups := includePermissionGroups;
      clone.includePlayerPermissionGroups := includePlayerPermissionGroups;
    }

    /** Writes both flags with one `WriteFlags` call, groups first. */
    method Serialize(stream: LockstepStream, isExport: bool)
      modifies stream`tokens
      ensures stream.tokens == old(stream.tokens) + [Flags([includePermissionGroups, includePlayerPermissionGroups])]
      ensures stream.readPosition == old(stream.readPosition)
    {
      stream.WriteFlags([includePermissionGroups, includePlayerPermissionGroups]);
    }

    /** Reads the two flags back in the order `Serialize` wrote them. */
    method Deserialize(stream: LockstepStream, isImport: bool, importedDataVersion: nat)
      requires stream.readPosition < |stream.tokens|
      requires stream.tokens[stream.readPosition].Flags?
      requires |stream.tokens[stream.readPosition].bits| == 2
      modifies this, stream`readPosition
      ensures stream.tokens == old(stream.tokens) && stream.readPosition == old(stream.readPosition) + 1
      ensures [includePermissionGroups, includePlayerPermissionGroups] == old(stream.tokens[stream.readPosition]).bits
    {
      var bits := stream.ReadFlags(2);
      includePermissionGroups, includePlayerPermissionGroups := bits[0], bits[1];
    }
  }

  /**
   * Options serialized into a stream and deserialized into another options
   * object come back with the same two flags.
   */
  method SerializeDeserializeRoundTrip(groups: bool, players: bool) returns (groupsRead: bool, playersRead: bool)
    ensures groupsRead == groups && playersRead == players
  {
    var written := new PermissionImportExportOptions();
    written.includePermissionGroups, written.includePlayerPermissionGroups := groups, players;
    var stream := new LockstepStream([]);
    written.Serialize(stream, true);
    var read := new PermissionImportExportOptions();
    read.Deserialize(stream, true, 0);
    groupsRead, playersRead := read.includePermissionGroups, read.includePlayerPermissionGroups;
  }
}
