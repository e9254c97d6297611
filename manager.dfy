/**
 * The permission manager: the group store, the players' group membership, the
 * cache of the values of the group the local player views the world as, the
 * registry of permission resolvers, and the lockstep serialization of all of
 * it.
 *
 * Groups and players live in two arenas (`groups`, `players`) addressed by
 * handle; `permissionGroups` is the ordered list of live groups. The lockstep
 * stream is a parameter of the operations that read or write it. Custom events
 * and `Resolve` calls are recorded in the ghost logs `events` and `resolved`.
 */
module Manager {
  import opened Wrappers
  import opened Records
  import opened Text
  import opened ArrList
  import opened Lockstep
  import opened Membership
  import opened Store
  import opened ResolverRegistry
  import opened Codec
  import opened ImportExportOptions
  import opened Consistency
  import opened Transitions
  import opened Effects
  import opened Snapshot
  import opened ImportLoop


  class PermissionManager {
    /** Everything the manager updates (see `Fields`). */
    var fields: Fields
    /** The options read from the export being imported, while an import is in progress. */
    var optionsFromExport: PermissionImportExportOptions?
    const localPlayerId: nat

    ghost predicate Valid()
      reads this`fields
    {
      StateOk(fields.state, fields.viewStale)
    }

    /**
     * `Start`: every definition learns its index and is found by its internal
     * name, and the resolver lookup is built from the serialized resolver array,
     * as the `null` guard intends (the table's initializer makes that guard
     * dead as written; see `StartAsWritten`).
     */
    constructor Start(defs: seq<PermissionDefinition>, resolvers: seq<Option<ResolverRef>>, localPlayerId: nat)
      requires DistinctNames(defs) && DistinctResolvers(resolvers)
      ensures Valid() && StoreEmpty(fields.state) && !fields.isInitialized && optionsFromExport == null
      ensures |fields.state.permissionDefs| == |defs|
      ensures forall i :: 0 <= i < |defs| ==> fields.state.permissionDefs[i] == defs[i].(index := i)
      ensures Live(fields.state.allPermissionResolvers) == Live(resolvers) && |fields.state.allPermissionResolvers| <= |resolvers|
      ensures fields.state.players == [] && fields.state.viewWorldAsGroup == None && this.localPlayerId == localPlayerId
      ensures fields.events == [] && fields.resolved == []
    {
      var indexed, byName := IndexDefinitions(defs);
      var arr, lut := PopulateAllPermissionResolversLut(resolvers);
      StartedOk(indexed, byName, arr, lut);
      fields := Fields(Started(indexed, byName, arr, lut), false, [], [], false);
      optionsFromExport := null;
      this.localPlayerId := localPlayerId;
    }

    /**
     * The part of `Start` that walks the definitions: each learns its index
     * and is entered in the lookup by internal name.
     */
    static method IndexDefinitions(defs: seq<PermissionDefinition>)
      returns (indexed: seq<PermissionDefinition>, byName: map<string, nat>)
      requires DistinctNames(defs)
      ensures DefsOk(indexed, byName)
      ensures |indexed| == |defs| && forall i :: 0 <= i < |defs| ==> indexed[i] == defs[i].(index := i)
    {
      indexed := defs;
      byName := map[];
      var i := 0;
      while i < |indexed|
        invariant 0 <= i <= |indexed| == |defs|
        invariant forall j :: 0 <= j < i ==> indexed[j] == defs[j].(index := j)
        invariant forall j :: i <= j < |defs| ==> indexed[j] == defs[j]
        invariant forall n :: n in byName ==> byName[n] < i && defs[byName[n]].internalName == n
        invariant forall j :: 0 <= j < i ==> defs[j].internalName in byName && byName[defs[j].internalName] == j
      {
        var permissionDef := indexed[i];
        permissionDef := permissionDef.(index := i);
        indexed := indexed[i := permissionDef];
        assert permissionDef.internalName !in byName;
        byName := byName[permissionDef.internalName := i];
        i := i + 1;
      }
    }

    /**
     * `PopulateAllPermissionResolversLut`: walking the resolver array from the
     * top, every resolver is entered in a fresh lookup under its slot, and
     * every destroyed slot below the top is filled with the current top entry.
     */
    static method PopulateAllPermissionResolversLut(resolvers: seq<Option<ResolverRef>>)
      returns (arr: seq<Option<ResolverRef>>, lut: map<ResolverRef, nat>)
      requires DistinctResolvers(resolvers)
      ensures RegistryOk(Registry(arr, lut))
      ensures Live(arr) == Live(resolvers)
      ensures |arr| <= |resolvers|
    {
      arr := resolvers;
      lut := map[];
      var i: int := |arr| - 1;
      while i >= 0
        invariant -1 <= i < |arr| <= |resolvers|
        invariant Live(arr) == Live(resolvers)
        invariant DistinctResolvers(arr)
        invariant ProcessedAbove(arr, lut, i)
        decreases i
      {
        var resolver := arr[i];
        if resolver.Some? {
          AddStep(arr, lut, i);
          lut := lut[resolver.value := i];
          i := i - 1;
          continue;
        }
        if i == |arr| - 1 {
          i := i - 1;
          continue;
        }
        CompactStep(arr, lut, i);
        arr, lut := FillFromTop(arr, lut, i);
        i := i - 1;
      }
      ProcessedAllOk(arr, lut);
    }

    /**
     * The step both resolver walks share: the top entry is popped and put
     * into the destroyed slot `i`, and its lookup entry follows it.
     */
    static method FillFromTop(arr: seq<Option<ResolverRef>>, lut: map<ResolverRef, nat>, i: nat)
      returns (arr': seq<Option<ResolverRef>>, lut': map<ResolverRef, nat>)
      requires i < |arr| - 1
      ensures arr' == Compacted(arr, i)
      ensures lut' == if arr[|arr| - 1].Some? then lut[arr[|arr| - 1].value := i] else lut
    {
      var count := |arr| - 1;
      var top := arr[count];
      arr' := arr[..count][i := top];
      lut' := lut;
      if top.Some? {
        lut' := lut'[top.value := i];
      }
    }

    /** The first loop of `SetGroupToViewWorldAs`: every definition caches its flag in the viewed group. */
    static method CacheGroupValues(defs: seq<PermissionDefinition>, permissionValues: seq<bool>)
      returns (cached: seq<PermissionDefinition>)
      requires |permissionValues| == |defs|
      ensures cached == CachedValues(defs, permissionValues)
    {
      cached := defs;
      var i := 0;
      while i < |cached|
        invariant 0 <= i <= |cached| == |defs|
        invariant forall j :: 0 <= j < i ==> cached[j] == defs[j].(valueForLocalPlayer := permissionValues[j])
        invariant forall j :: i <= j < |defs| ==> cached[j] == defs[j]
      {
        cached := cached[i := cached[i].(valueForLocalPlayer := permissionValues[i])];
        i := i + 1;
      }
      assert cached == CachedValues(defs, permissionValues);
    }

    /**
     * The second loop of `SetGroupToViewWorldAs`: every resolver in the array
     * is resolved exactly once, from the top slot down (`calls`), and the array
     * stays a registry of the same resolvers, possibly shorter.
     */
    static method ResolveAllAndCompact(arr0: seq<Option<ResolverRef>>, lut0: map<ResolverRef, nat>)
      returns (arr: seq<Option<ResolverRef>>, lut: map<ResolverRef, nat>, calls: seq<ResolverRef>)
      requires RegistryOk(Registry(arr0, lut0))
      ensures RegistryOk(Registry(arr, lut))
      ensures Live(arr) == Live(arr0) && |arr| <= |arr0| && lut.Keys == lut0.Keys
      ensures calls == TopDown(arr0) && multiset(calls) == Live(arr0)
    {
      arr, lut, calls := arr0, lut0, [];
      var i: int := |arr| - 1;
      assert LiveAbove(arr, i) == multiset{};
      assert arr0[..i + 1] == arr0;
      while i >= 0
        invariant WalkOk(arr0, lut0, arr, lut, multiset(calls), i)
        invariant arr[..i + 1] == arr0[..i + 1] && calls + TopDown(arr0[..i + 1]) == TopDown(arr0)
        decreases i
      {
        ghost var arrBefore, callsBefore := arr, calls;
        arr, lut, calls := WalkTurn(arr0, lut0, arr, lut, calls, i);
        WalkOrderStep(arr0, arrBefore, arr, callsBefore, calls, i);
        i := i - 1;
      }
      WalkDone(arr0, lut0, arr, lut, multiset(calls));
      assert calls + TopDown(arr0[..0]) == calls;
    }

    /**
     * One turn of the walk at slot `i`: a live resolver is resolved, a destroyed
     * slot at the top is skipped, and any other destroyed slot takes the top
     * entry, which leaves the array one shorter.
     */
    static method WalkTurn(ghost arr0: seq<Option<ResolverRef>>, ghost lut0: map<ResolverRef, nat>,
                           arr: seq<Option<ResolverRef>>, lut: map<ResolverRef, nat>, calls: seq<ResolverRef>, i: nat)
      returns (arr': seq<Option<ResolverRef>>, lut': map<ResolverRef, nat>, calls': seq<ResolverRef>)
      requires WalkOk(arr0, lut0, arr, lut, multiset(calls), i)
      ensures WalkOk(arr0, lut0, arr', lut', multiset(calls'), i - 1)
      ensures calls' == calls + (if arr[i].Some? then [arr[i].value] else [])
      ensures arr'[..i] == arr[..i]
    {
      arr', lut', calls' := arr, lut, calls;
      var resolver := arr[i];
      if resolver.Some? {
        WalkResolveStep(arr0, lut0, arr, lut, multiset(calls), i);
        // `resolver.Resolve()`
        calls' := calls + [resolver.value];
      } else if i == |arr| - 1 {
        WalkSkipTop(arr0, lut0, arr, lut, multiset(calls), i);
      } else {
        WalkFillStep(arr0, lut0, arr, lut, multiset(calls), i);
        arr', lut' := FillFromTop(arr, lut, i);
        assert arr'[..i] == arr[..i];
      }
    }

    /** `RemoveFromOnlinePlayersInGroup`: swap-removal from a group's online list, patching the moved player's position. */
    static method RemoveFromOnlinePlayersInGroup(r: Roster, group: GroupRef, index: nat) returns (r': Roster)
      requires group < |r.groups| && index < |r.groups[group].onlinePlayersInGroup| && HandlesOk(r, group)
      ensures r' == RemoveOnlineMember(r, group, index)
    {
      var players, groups := r.players, r.groups;
      var members := groups[group].onlinePlayersInGroup;
      var count := |members| - 1;
      groups := groups[group := groups[group].(onlinePlayersInGroup := SwapRemove(members, index))];
      if count != index {
        var other := members[count];
        players := players[other := players[other].(indexInOnlinePlayersInGroup := index)];
      }
      r' := Roster(players, groups);
    }

    /**
     * The body of `PlayerDataPermissionGroupSetter` on the two arenas: the
     * player leaves the lists of its previous group and joins those of the new
     * one, as `SetGroup` describes.
     */
    static method SetterOnArenas(r: Roster, p: PlayerRef, group: Option<GroupRef>) returns (r': Roster)
      requires MembershipOk(r) && p < |r.players| && (group.Some? ==> group.value < |r.groups|)
      ensures r' == SetGroup(r, p, group)
    {
      var players, groups := r.players, r.groups;
      var prevGroup := players[p].permissionGroup;
      if prevGroup == group {
        return r;
      }
      assert PlayerOk(r, p);
      players := players[p := players[p].(permissionGroup := group)];
      ghost var r1 := Roster(players, groups);
      var indexInGroup := players[p].indexInPlayersInGroup;
      if indexInGroup != -1 && prevGroup.Some? && !groups[prevGroup.value].isDeleted {
        var prev := prevGroup.value;
        assert ListsOk(r, prev);
        HandlesOfConsistent(r, prev);
        var members := groups[prev].playersInGroup;
        var count := |members| - 1;
        groups := groups[prev := groups[prev].(playersInGroup := SwapRemove(members, indexInGroup))];
        if count != indexInGroup {
          var other := members[count];
          players := players[other := players[other].(indexInPlayersInGroup := indexInGroup)];
        }
        assert Roster(players, groups) == RemoveMember(r1, prev, indexInGroup);
        indexInGroup := players[p].indexInOnlinePlayersInGroup;
        if indexInGroup != -1 {
          var r3 := RemoveFromOnlinePlayersInGroup(Roster(players, groups), prev, indexInGroup);
          players, groups := r3.players, r3.groups;
        }
      }
      assert Roster(players, groups) == Detach(r, p, group);
      if group.None? {
        players := players[p := players[p].(indexInOnlinePlayersInGroup := -1, indexInPlayersInGroup := -1)];
        return Roster(players, groups);
      }
      var g := group.value;
      groups := groups[g := groups[g].(playersInGroup := groups[g].playersInGroup + [p])];
      players := players[p := players[p].(indexInPlayersInGroup := |groups[g].playersInGroup| - 1)];
      if !players[p].isOffline {
        groups := groups[g := groups[g].(onlinePlayersInGroup := groups[g].onlinePlayersInGroup + [p])];
        players := players[p := players[p].(indexInOnlinePlayersInGroup := |groups[g].onlinePlayersInGroup| - 1)];
      }
      r' := Roster(players, groups);
    }

    /** The flags a new world gives the default group: each definition's default value, in order. */
    static method DefaultValues(defs: seq<PermissionDefinition>) returns (values: seq<bool>)
      ensures |values| == |defs| && forall i :: 0 <= i < |defs| ==> values[i] == defs[i].defaultValue
    {
      values := [];
      for i := 0 to |defs|
        invariant |values| == i && forall j :: 0 <= j < i ==> values[j] == defs[j].defaultValue
      {
        values := values + [defs[i].defaultValue];
      }
    }

    /**
     * The roster part of `DeletePermissionGroupInGSInternal`: the group is
     * marked deleted, then a walk down its member list, which no step
     * changes, moves each member into the target.
     */
    static method DeleteOnArenas(r: Roster, g: GroupRef, t: GroupRef) returns (r': Roster)
      requires MembershipOk(r) && g < |r.groups| && t < |r.groups| && !r.groups[g].isDeleted && g != t
      ensures r' == MoveOutOfDeleted(r, g, t)
    {
      MarkDeletedKeeps(r, g);
      MembersDistinct(r, g);
      ghost var ms := r.groups[g].playersInGroup;
      r' := Roster(r.players, r.groups[g := r.groups[g].(isDeleted := true)]);
      ghost var marked := r';
      var i := |r'.groups[g].playersInGroup|;
      assert ms[..i] == ms;
      while i > 0
        invariant 0 <= i <= |ms|
        invariant MembershipOk(r') && |r'.players| == |r.players| && |r'.groups| == |r.groups|
        invariant r'.groups[g] == marked.groups[g]
        invariant MoveMembers(r', ms[..i], t) == MoveMembers(marked, ms, t)
      {
        var q := r'.groups[g].playersInGroup[i - 1];
        assert ms[..i][..i - 1] == ms[..i - 1];
        SetGroupKeepsDeleted(r', q, Some(t), g);
        SetGroupKeepsMembership(r', q, Some(t));
        r' := SetterOnArenas(r', q, Some(t));
        i := i - 1;
      }
    }

    // ---------------------------------------------------------------- Queries

    /** `GetPermissionGroup(string)`: the live group of that name, if there is one. */
    function GetPermissionGroupByName(groupName: string): (r: Option<GroupRef>)
      reads this`fields
      ensures StoreValid(fields.state) && r.Some? ==> r.value in fields.state.permissionGroups && fields.state.groups[r.value].groupName == groupName
      ensures StoreValid(fields.state) && r.None? ==>
                forall i :: 0 <= i < |fields.state.permissionGroups| ==> fields.state.groups[fields.state.permissionGroups[i]].groupName != groupName
    {
      if groupName in fields.state.groupsByName then Some(fields.state.groupsByName[groupName]) else None
    }

    /** `TryGetPermissionGroup`: the live group of that id, if there is one. */
    function TryGetPermissionGroup(groupId: nat): (r: Option<GroupRef>)
      reads this`fields
      ensures StoreValid(fields.state) && r.Some? ==> r.value in fields.state.permissionGroups && fields.state.groups[r.value].id == groupId
      ensures StoreValid(fields.state) && r.None? ==>
                forall i :: 0 <= i < |fields.state.permissionGroups| ==> fields.state.groups[fields.state.permissionGroups[i]].id != groupId
    {
      if groupId in fields.state.groupsById then Some(fields.state.groupsById[groupId]) else None
    }

    /**
     * `PlayerHasPermission(CorePlayerData, string)`: the flag of the named
     * definition in the player's group; false for a name no definition has.
     */
    function PlayerHasPermission(p: PlayerRef, permissionInternalName: string): (r: bool)
      reads this`fields
      requires Valid() && p < |fields.state.players| && fields.state.players[p].permissionGroup.Some?
      ensures fields.state.players[p].permissionGroup.value < |fields.state.groups|
      ensures r <==> exists i :: 0 <= i < |fields.state.permissionDefs| && fields.state.permissionDefs[i].internalName == permissionInternalName
                                && fields.state.groups[fields.state.players[p].permissionGroup.value].permissionValues[i]
    {
      assert PlayerOk(RosterOf(fields.state), p);
      var g := fields.state.players[p].permissionGroup.value;
      if permissionInternalName !in fields.state.permissionDefsByInternalName then false
      else fields.state.groups[g].permissionValues[fields.state.permissionDefs[fields.state.permissionDefsByInternalName[permissionInternalName]].index]
    }

    /** `PlayerHasPermission(CorePlayerData, PermissionDefinition)`: the same question asked with the definition itself. */
    function PlayerHasPermissionDef(p: PlayerRef, defIndex: nat): (r: bool)
      reads this`fields
      requires Valid() && p < |fields.state.players| && fields.state.players[p].permissionGroup.Some? && defIndex < |fields.state.permissionDefs|
      ensures r == PlayerHasPermission(p, fields.state.permissionDefs[defIndex].internalName)
    {
      assert PlayerOk(RosterOf(fields.state), p);
      fields.state.groups[fields.state.players[p].permissionGroup.value].permissionValues[fields.state.permissionDefs[defIndex].index]
    }

    /**
     * `GetFirstUnusedGroupName`: a name not in use is returned as it is;
     * otherwise the name's stem (without a trailing white space and number)
     * followed by a space and the smallest number from 1 on that is free.
     */
    method GetFirstUnusedGroupName(desiredName: string) returns (name: string)
      ensures name !in fields.state.groupsByName
      ensures desiredName !in fields.state.groupsByName ==> name == desiredName
      ensures desiredName in fields.state.groupsByName ==>
                exists k: nat :: 1 <= k && name == NumberedName(desiredName, k)
                                 && forall j: nat :: 1 <= j < k ==> NumberedName(desiredName, j) in fields.state.groupsByName
    {
      if desiredName !in fields.state.groupsByName {
        return desiredName;
      }
      var prefix := NameStem(desiredName) + " ";
      var postfix: nat := 1;
      name := prefix + NatToString(postfix);
      while name in fields.state.groupsByName
        invariant postfix >= 1 && name == NumberedName(desiredName, postfix)
        invariant forall j: nat :: 1 <= j < postfix ==> NumberedName(desiredName, j) in fields.state.groupsByName
        decreases |TakenFrom(fields.state.groupsByName.Keys, desiredName, postfix)|
      {
        TakenShrinks(fields.state.groupsByName.Keys, desiredName, postfix);
        postfix := postfix + 1;
        name := prefix + NatToString(postfix);
      }
    }

    // ---------------------------------------------------------------- The viewed group and its cache

    /**
     * `SetGroupToViewWorldAs`: nothing happens for the group already viewed.
     * Otherwise every definition caches the new group's flag, and a walk from
     * the top of the resolver array resolves every resolver in it once, filling
     * each destroyed slot below the top with the top entry on the way.
     */
    method SetGroupToViewWorldAs(group: GroupRef)
      requires Valid() && group < |fields.state.groups|
      modifies this`fields
      ensures Valid() && ViewedAs(old(fields.state), fields.state, group, old(fields.resolved), fields.resolved)
      ensures fields.viewStale == (old(fields.viewStale) && old(fields.state.viewWorldAsGroup) == Some(group))
      ensures fields == old(fields).(state := fields.state, viewStale := fields.viewStale, resolved := fields.resolved)
    {
      var f := fields;
      FlagsSizedOf(f.state, f.viewStale, group);
      var s, log := ViewAs(f.state, group, f.resolved);
      ViewedAsKeeps(f.state, f.viewStale, s, group, f.resolved, log);
      fields := f.(state := s, viewStale := f.viewStale && f.state.viewWorldAsGroup == Some(group), resolved := log);
    }

    /** The body of `SetGroupToViewWorldAs` on the state. */
    static method ViewAs(s: ManagerState, group: GroupRef, log: seq<ResolverRef>)
      returns (s': ManagerState, log': seq<ResolverRef>)
      requires RegistryOk(RegistryOf(s)) && group < |s.groups| && |s.groups[group].permissionValues| == |s.permissionDefs|
      ensures ViewedAs(s, s', group, log, log')
    {
      if s.viewWorldAsGroup == Some(group) {
        return s, log;
      }
      var cached := CacheGroupValues(s.permissionDefs, s.groups[group].permissionValues);
      var arr, lut, calls := ResolveAllAndCompact(s.allPermissionResolvers, s.allPermissionResolversLut);
      s' := s.(viewWorldAsGroup := Some(group), permissionDefs := cached, allPermissionResolvers := arr,
               allPermissionResolversLut := lut);
      log' := log + calls;
      assert log'[|log|..] == calls;
    }

    /** `OnInit`: the manager is initialized and views the world as the default group. */
    method OnInit()
      requires Valid() && StoreValid(fields.state)
      modifies this`fields
      ensures Valid() && fields.isInitialized
      ensures ViewedAs(old(fields.state), fields.state, old(fields.state.defaultPermissionGroup), old(fields.resolved), fields.resolved)
      ensures fields == old(fields).(state := fields.state, viewStale := fields.viewStale, resolved := fields.resolved,
                                     isInitialized := true)
    {
      fields := fields.(isInitialized := true);
      SetGroupToViewWorldAs(fields.state.defaultPermissionGroup);
    }

    /** `OnClientBeginCatchUp`: the manager is initialized and views the world as the local player's group. */
    method OnClientBeginCatchUp(localPlayerData: PlayerRef)
      requires Valid() && localPlayerData < |fields.state.players| && fields.state.players[localPlayerData].permissionGroup.Some?
      modifies this`fields
      ensures Valid() && fields.isInitialized
      ensures ViewedAs(old(fields.state), fields.state, old(fields.state.players[localPlayerData].permissionGroup.value),
                       old(fields.resolved), fields.resolved)
      ensures fields == old(fields).(state := fields.state, viewStale := fields.viewStale, resolved := fields.resolved,
                                     isInitialized := true)
    {
      assert PlayerOk(RosterOf(fields.state), localPlayerData);
      fields := fields.(isInitialized := true);
      SetGroupToViewWorldAs(fields.state.players[localPlayerData].permissionGroup.value);
    }

    // ---------------------------------------------------------------- Permission values

    /**
     * `SetPermissionValueInGS(group, permissionDef, value)`, with the definition
     * given by its index: see `ValueUpdated`.
     */
    method SetPermissionValueInGS(group: GroupRef, defIndex: nat, value: bool)
      requires Valid() && group < |fields.state.groups| && defIndex < |fields.state.permissionDefs|
      modifies this`fields
      ensures Valid() && ValueUpdated(old(fields), fields, group, defIndex, value)
    {
      fields := SetValueOn(fields, group, defIndex, value);
    }

    /** `SetPermissionValueInGS(group, permissionInternalName, value)`: an unknown name changes nothing. */
    method SetPermissionValueInGSByName(group: GroupRef, permissionInternalName: string, value: bool)
      requires Valid() && group < |fields.state.groups|
      modifies this`fields
      ensures Valid()
      ensures permissionInternalName !in old(fields.state.permissionDefsByInternalName) ==> fields == old(fields)
      ensures permissionInternalName in old(fields.state.permissionDefsByInternalName) ==>
                ValueUpdated(old(fields), fields, group, old(fields.state.permissionDefsByInternalName[permissionInternalName]), value)
    {
      var f := fields;
      if permissionInternalName in f.state.permissionDefsByInternalName {
        var d := f.state.permissionDefsByInternalName[permissionInternalName];
        f := SetValueOn(f, group, f.state.permissionDefs[d].index, value);
      }
      fields := f;
    }

    /** `SendSetPermissionValueIA(group, permissionDef, value)`: writes the payload the handler reads. */
    method SendSetPermissionValueIA(stream: LockstepStream, group: GroupRef, defIndex: nat, value: bool)
      requires group < |fields.state.groups|
      modifies stream`tokens
      ensures stream.tokens == old(stream.tokens) + SetPermissionValuePayload(fields.state.groups[group].id, defIndex, value)
    {
      stream.WriteSmallUInt(fields.state.groups[group].id);
      stream.WriteSmallUInt(defIndex);
      stream.WriteFlags([value]);
    }

    /** `SendSetPermissionValueIA(group, permissionInternalName, value)`: an unknown name writes nothing. */
    method SendSetPermissionValueIAByName(stream: LockstepStream, group: GroupRef, permissionInternalName: string, value: bool)
      requires Valid() && group < |fields.state.groups|
      modifies stream`tokens
      ensures permissionInternalName !in fields.state.permissionDefsByInternalName ==> stream.tokens == old(stream.tokens)
      ensures permissionInternalName in fields.state.permissionDefsByInternalName ==>
                fields.state.permissionDefsByInternalName[permissionInternalName] < |fields.state.permissionDefs|
                && stream.tokens == old(stream.tokens)
                  + SetPermissionValuePayload(fields.state.groups[group].id,
                                              fields.state.permissionDefs[fields.state.permissionDefsByInternalName[permissionInternalName]].index,
                                              value)
    {
      var s := fields.state;
      if permissionInternalName !in s.permissionDefsByInternalName {
        return;
      }
      var d := s.permissionDefsByInternalName[permissionInternalName];
      SendSetPermissionValueIA(stream, group, s.permissionDefs[d].index, value);
    }

    /**
     * `OnSetPermissionValueIA`: reads the group id and returns when no live
     * group has it; otherwise reads the definition index and the value and sets
     * the value as `SetPermissionValueInGS` does.
     */
    method OnSetPermissionValueIA(stream: LockstepStream, ghost groupId: nat, ghost defIndex: nat, ghost value: bool)
      requires Valid() && Starts(stream.Unread(), SetPermissionValuePayload(groupId, defIndex, value))
      requires defIndex < |fields.state.permissionDefs|
      modifies this`fields, stream`readPosition
      ensures Valid()
      ensures groupId !in old(fields.state.groupsById) ==> fields == old(fields)
      ensures groupId in old(fields.state.groupsById) ==>
                ValueUpdated(old(fields), fields, old(fields.state.groupsById[groupId]), defIndex, value)
    {
      var f := fields;
      PayloadAt(stream.tokens, stream.readPosition, SetPermissionValuePayload(groupId, defIndex, value));
      ghost var at := stream.readPosition;
      assert stream.tokens[at] == UInt(groupId) && stream.tokens[at + 1] == UInt(defIndex) && stream.tokens[at + 2] == Flags([value]);
      var id := stream.ReadSmallUInt();
      if id in f.state.groupsById {
        LookedUpById(f.state, f.viewStale, id);
        var d := stream.ReadSmallUInt();
        var v := stream.ReadFlags(1);
        f := SetValueOn(f, f.state.groupsById[id], d, v[0]);
      }
      fields := f;
    }

    // ---------------------------------------------------------------- Players' groups

    /** `PlayerDataPermissionGroupSetter`: moves player `p` into `group` (or out of every group), as `SetGroup` describes. */
    method PlayerDataPermissionGroupSetter(p: PlayerRef, group: Option<GroupRef>)
      requires Valid() && p < |fields.state.players| && (group.Some? ==> group.value < |fields.state.groups|)
      modifies this`fields
      ensures Valid() && fields == old(fields).(state := WithPlayerGroup(old(fields.state), p, group))
    {
      var f := fields;
      WithPlayerGroupKeeps(f.state, f.viewStale, p, group);
      var r := SetterOnArenas(RosterOf(f.state), p, group);
      fields := f.(state := f.state.(players := r.players, groups := r.groups));
    }

    /**
     * `SetPlayerPermissionGroupInGS`: a deleted group and the player's own
     * group change nothing. Otherwise `SetPlayerDataPermissionGroup` moves the
     * player, the local player's view follows, and the player-changed event
     * names the previous group.
     */
    method SetPlayerPermissionGroupInGS(p: PlayerRef, group: GroupRef)
      requires Valid() && p < |fields.state.players| && group < |fields.state.groups|
      modifies this`fields
      ensures Valid() && PlayerMoved(old(fields), fields, p, group, localPlayerId)
    {
      fields := MovePlayerOn(fields, p, group, localPlayerId);
    }

    /** `SendSetPlayerPermissionGroupIA`: writes the player reference and the group's id. */
    method SendSetPlayerPermissionGroupIA(stream: LockstepStream, p: PlayerRef, group: GroupRef)
      requires group < |fields.state.groups|
      modifies stream`tokens
      ensures stream.tokens == old(stream.tokens) + SetPlayerGroupPayload(p, fields.state.groups[group].id)
    {
      stream.WriteSmallUInt(p);
      stream.WriteSmallUInt(fields.state.groups[group].id);
    }

    /**
     * `OnSetPlayerPermissionGroupIA`: a player reference that resolves to no
     * player, and a group id no live group has, change nothing; otherwise as
     * `SetPlayerPermissionGroupInGS`.
     */
    method OnSetPlayerPermissionGroupIA(stream: LockstepStream, ghost p: PlayerRef, ghost groupId: nat)
      requires Valid() && Starts(stream.Unread(), SetPlayerGroupPayload(p, groupId))
      modifies this`fields, stream`readPosition
      ensures Valid()
      ensures p >= |old(fields.state.players)| || groupId !in old(fields.state.groupsById) ==> fields == old(fields)
      ensures p < |old(fields.state.players)| && groupId in old(fields.state.groupsById) ==>
                PlayerMoved(old(fields), fields, p, old(fields.state.groupsById[groupId]), localPlayerId)
    {
      var f := fields;
      PayloadAt(stream.tokens, stream.readPosition, SetPlayerGroupPayload(p, groupId));
      ghost var at := stream.readPosition;
      assert stream.tokens[at] == UInt(p) && stream.tokens[at + 1] == UInt(groupId);
      var player := stream.ReadSmallUInt();
      if player < |f.state.players| {
        var id := stream.ReadSmallUInt();
        if id in f.state.groupsById {
          LookedUpById(f.state, f.viewStale, id);
          f := MovePlayerOn(f, player, f.state.groupsById[id], localPlayerId);
        }
      }
      fields := f;
    }

    /**
     * `OnPlayerDataWentOffline`: the player leaves its group's online list by
     * swap-removal and stores no online position (the player data system's
     * offline flag is set with it).
     */
    method OnPlayerDataWentOffline(p: PlayerRef)
      requires Valid() && p < |fields.state.players|
      requires fields.state.players[p].permissionGroup.Some? && !fields.state.players[p].isOffline
      requires fields.state.players[p].permissionGroup.value < |fields.state.groups|
      requires !fields.state.groups[fields.state.players[p].permissionGroup.value].isDeleted
      requires fields.state.players[p].indexInOnlinePlayersInGroup != -1
      modifies this`fields
      ensures Valid() && fields == old(fields).(state := WithOffline(old(fields.state), p))
    {
      var f := fields;
      WithOfflineKeeps(f.state, f.viewStale, p);
      var r := RosterOf(f.state);
      var d := r.players[p];
      var g := d.permissionGroup.value;
      assert PlayerOk(r, p) && ListsOk(r, g);
      HandlesOfConsistent(r, g);
      r := RemoveFromOnlinePlayersInGroup(r, g, d.indexInOnlinePlayersInGroup);
      r := r.(players := r.players[p := r.players[p].(indexInOnlinePlayersInGroup := -1, isOffline := true)]);
      fields := f.(state := f.state.(players := r.players, groups := r.groups));
    }

    /**
     * `OnPlayerDataWentOnline`: the player joins the end of its group's online
     * list and stores that position (the offline flag is cleared with it).
     */
    method OnPlayerDataWentOnline(p: PlayerRef)
      requires Valid() && p < |fields.state.players|
      requires fields.state.players[p].permissionGroup.Some? && fields.state.players[p].isOffline
      requires fields.state.players[p].permissionGroup.value < |fields.state.groups|
      requires !fields.state.groups[fields.state.players[p].permissionGroup.value].isDeleted
      requires fields.state.players[p].indexInPlayersInGroup != -1
      modifies this`fields
      ensures Valid() && fields == old(fields).(state := WithOnline(old(fields.state), p))
    {
      var f := fields;
      WithOnlineKeeps(f.state, f.viewStale, p);
      var players, groups := f.state.players, f.state.groups;
      var g := players[p].permissionGroup.value;
      groups := groups[g := groups[g].(onlinePlayersInGroup := groups[g].onlinePlayersInGroup + [p])];
      players := players[p := players[p].(indexInOnlinePlayersInGroup := |groups[g].onlinePlayersInGroup| - 1)];
      players := players[p := players[p].(isOffline := false)];
      assert Roster(players, groups) == GoOnline(RosterOf(f.state), p);
      fields := f.(state := f.state.(players := players, groups := groups));
    }

    // ---------------------------------------------------------------- Creating a group

    /**
     * `OnPrePlayerDataManagerInit`: the default group, named "Default", takes
     * the next id and each definition's default value as its flags, and is
     * registered as the first group.
     */
    method OnPrePlayerDataManagerInit()
      requires Valid() && fields.state.groups == []
      modifies this`fields
      ensures Valid() && StoreValid(fields.state)
      ensures var values := fields.state.groups[0].permissionValues;
              && |values| == |old(fields.state).permissionDefs|
              && (forall i :: 0 <= i < |values| ==> values[i] == old(fields.state).permissionDefs[i].defaultValue)
              && fields == old(fields).(state := WithDefaultGroup(old(fields.state), values))
    {
      var f := fields;
      var s := f.state;
      var values := DefaultValues(s.permissionDefs);
      WithDefaultGroupKeeps(s, f.viewStale, values);
      var group := PermissionGroup(true, s.nextGroupId, DefaultGroupName, values, false, [], []);
      fields := f.(state := s.(groups := [group], permissionGroups := [0], groupsById := map[group.id := 0],
                               groupsByName := map[DefaultGroupName := 0], defaultPermissionGroup := 0,
                               nextGroupId := s.nextGroupId + 1));
    }

    /**
     * `DuplicatePermissionGroupInGS`: the name is trimmed; an empty name and a
     * name in use are refused with nothing changed. Otherwise a new group with
     * that name, the next id and a copy of the source group's flags is
     * registered (`RegisterCreatedPermissionGroup`), and, unless an import is
     * deserializing, the duplicated event is raised.
     */
    method DuplicatePermissionGroupInGS(groupName: string, toDuplicate: GroupRef, playerInitiatingCreation: Option<PlayerRef>,
                                        isDeserializingForImport: bool)
      returns (created: Option<GroupRef>)
      requires Valid() && toDuplicate < |fields.state.groups|
      modifies this`fields
      ensures Valid() && Duplicated(old(fields), fields, groupName, toDuplicate, playerInitiatingCreation, isDeserializingForImport, created)
    {
      fields, created := DuplicateOn(fields, groupName, toDuplicate, playerInitiatingCreation, isDeserializingForImport);
    }

    /** `SendDuplicatePermissionGroupIA`: an empty trimmed name writes nothing; otherwise the trimmed name and the source's id. */
    method SendDuplicatePermissionGroupIA(stream: LockstepStream, groupName: string, toDuplicate: GroupRef)
      requires toDuplicate < |fields.state.groups|
      modifies stream`tokens
      ensures Trim(groupName) == "" ==> stream.tokens == old(stream.tokens)
      ensures Trim(groupName) != "" ==>
                stream.tokens == old(stream.tokens) + DuplicatePayload(Trim(groupName), fields.state.groups[toDuplicate].id)
    {
      var id := fields.state.groups[toDuplicate].id;
      var name := Trim(groupName);
      if name == "" {
        return;
      }
      stream.WriteString(name);
      stream.WriteSmallUInt(id);
    }

    /**
     * `OnDuplicatePermissionGroupIA`: reads the name and the source group's
     * id; an id no live group has changes nothing; otherwise as
     * `DuplicatePermissionGroupInGS`, with the sending player as initiator.
     */
    method OnDuplicatePermissionGroupIA(stream: LockstepStream, sendingPlayer: Option<PlayerRef>, isDeserializingForImport: bool,
                                        ghost groupName: string, ghost groupId: nat)
      requires Valid() && Starts(stream.Unread(), DuplicatePayload(groupName, groupId))
      modifies this`fields, stream`readPosition
      ensures Valid()
      ensures groupId !in old(fields.state.groupsById) ==> fields == old(fields)
      ensures groupId in old(fields.state.groupsById) ==>
                exists created :: Duplicated(old(fields), fields, groupName, old(fields.state.groupsById[groupId]), sendingPlayer,
                                             isDeserializingForImport, created)
    {
      var f := fields;
      PayloadAt(stream.tokens, stream.readPosition, DuplicatePayload(groupName, groupId));
      ghost var at := stream.readPosition;
      assert stream.tokens[at] == Str(groupName) && stream.tokens[at + 1] == UInt(groupId);
      var name := stream.ReadString();
      var id := stream.ReadSmallUInt();
      if id in f.state.groupsById {
        LookedUpById(f.state, f.viewStale, id);
        var created;
        f, created := DuplicateOn(f, name, f.state.groupsById[id], sendingPlayer, isDeserializingForImport);
      }
      fields := f;
    }

    // ---------------------------------------------------------------- Deleting a group

    /**
     * `DeletePermissionGroupInGS`: the default group, a deleted group, a group
     * moving its players to itself, and a deleted target are refused and change
     * nothing; any other group is deleted as `DeletePermissionGroupInGSInternal`
     * describes, with events raised and the local player's view following it.
     */
    method DeletePermissionGroupInGS(group: GroupRef, groupToMovePlayersTo: GroupRef)
      requires Valid() && group < |fields.state.groups| && groupToMovePlayersTo < |fields.state.groups|
      modifies this`fields
      ensures Valid() && DeletedUnlessRefused(old(fields), fields, group, groupToMovePlayersTo, localPlayerId)
    {
      var f := fields;
      if !DeleteRefused(f.state.groups, group, groupToMovePlayersTo) {
        f := DeleteOn(f, group, groupToMovePlayersTo, false, localPlayerId);
      }
      fields := f;
    }

    /**
     * `DeletePermissionGroupInGSInternal`: the group is marked deleted and each
     * of its members, from the last to the first, moves into the target group;
     * the group leaves the live list and both lookups. Unless suppressed, one
     * player-changed event per member precedes the group-deleted event, and the
     * local player, when among the members, views the world as the target.
     */
    method DeletePermissionGroupInGSInternal(group: GroupRef, groupToMovePlayersTo: GroupRef,
                                             suppressEventsAndLeaveWorldViewUnchanged: bool)
      requires Valid() && group < |fields.state.groups| && groupToMovePlayersTo < |fields.state.groups|
      requires !DeleteRefused(fields.state.groups, group, groupToMovePlayersTo)
      modifies this`fields
      ensures Valid()
      ensures Deleted(old(fields), fields, group, groupToMovePlayersTo, suppressEventsAndLeaveWorldViewUnchanged, localPlayerId)
    {
      fields := DeleteOn(fields, group, groupToMovePlayersTo, suppressEventsAndLeaveWorldViewUnchanged, localPlayerId);
    }

    /** `DeletePermissionGroupWithoutCleanup`: the group is marked deleted and leaves the live list and both lookups; its members stay. */
    method DeletePermissionGroupWithoutCleanup(group: GroupRef)
      requires Valid() && group < |fields.state.groups| && !fields.state.groups[group].isDefault && !fields.state.groups[group].isDeleted
      modifies this`fields
      ensures Valid() && fields == old(fields).(state := WithoutGroupNoCleanup(old(fields.state), group))
    {
      fields := DeleteWithoutCleanupOn(fields, group);
    }

    /** `SendDeletePermissionGroupIA`: the refusals of `DeletePermissionGroupInGS` write nothing; otherwise both ids. */
    method SendDeletePermissionGroupIA(stream: LockstepStream, group: GroupRef, groupToMovePlayersTo: GroupRef)
      requires group < |fields.state.groups| && groupToMovePlayersTo < |fields.state.groups|
      modifies stream`tokens
      ensures DeleteRefused(fields.state.groups, group, groupToMovePlayersTo) ==> stream.tokens == old(stream.tokens)
      ensures !DeleteRefused(fields.state.groups, group, groupToMovePlayersTo) ==>
                stream.tokens == old(stream.tokens)
                  + DeletePayload(fields.state.groups[group].id, fields.state.groups[groupToMovePlayersTo].id)
    {
      var s := fields.state;
      if DeleteRefused(s.groups, group, groupToMovePlayersTo) {
        return;
      }
      stream.WriteSmallUInt(s.groups[group].id);
      stream.WriteSmallUInt(s.groups[groupToMovePlayersTo].id);
    }

    /** `OnDeletePermissionGroupIA`: both ids must name live groups, or nothing changes; otherwise as `DeletePermissionGroupInGS`. */
    method OnDeletePermissionGroupIA(stream: LockstepStream, ghost groupId: nat, ghost targetId: nat)
      requires Valid() && Starts(stream.Unread(), DeletePayload(groupId, targetId))
      modifies this`fields, stream`readPosition
      ensures Valid()
      ensures groupId !in old(fields.state.groupsById) || targetId !in old(fields.state.groupsById) ==> fields == old(fields)
      ensures groupId in old(fields.state.groupsById) && targetId in old(fields.state.groupsById) ==>
                DeletedUnlessRefused(old(fields), fields, old(fields.state.groupsById[groupId]), old(fields.state.groupsById[targetId]),
                                     localPlayerId)
    {
      var f := fields;
      PayloadAt(stream.tokens, stream.readPosition, DeletePayload(groupId, targetId));
      ghost var at := stream.readPosition;
      assert stream.tokens[at] == UInt(groupId) && stream.tokens[at + 1] == UInt(targetId);
      var id := stream.ReadSmallUInt();
      var targetIdRead := stream.ReadSmallUInt();
      if id in f.state.groupsById && targetIdRead in f.state.groupsById {
        LookedUpById(f.state, f.viewStale, id);
        LookedUpById(f.state, f.viewStale, targetIdRead);
        var g, t := f.state.groupsById[id], f.state.groupsById[targetIdRead];
        if !DeleteRefused(f.state.groups, g, t) {
          f := DeleteOn(f, g, t, false, localPlayerId);
        }
      }
      fields := f;
    }

    // ---------------------------------------------------------------- Renaming a group

    /**
     * `RenamePermissionGroupInGS`: the name is trimmed; the refusals of
     * `RenameRefused` change nothing. Otherwise the group takes the name, the
     * lookup by name moves from the old name to the new one, and the renamed
     * event carries the previous name.
     */
    method RenamePermissionGroupInGS(group: GroupRef, newGroupName: string)
      requires Valid() && group < |fields.state.groups| && group in fields.state.permissionGroups
      modifies this`fields
      ensures Valid() && Renamed(old(fields), fields, group, newGroupName)
    {
      fields := RenameOn(fields, group, newGroupName);
    }

    /**
     * `SendRenamePermissionGroupIA`: the default group and an empty trimmed
     * name write nothing; the group's current name is not refused here.
     */
    method SendRenamePermissionGroupIA(stream: LockstepStream, group: GroupRef, newGroupName: string)
      requires group < |fields.state.groups|
      modifies stream`tokens
      ensures fields.state.groups[group].isDefault || Trim(newGroupName) == "" ==> stream.tokens == old(stream.tokens)
      ensures !fields.state.groups[group].isDefault && Trim(newGroupName) != "" ==>
                stream.tokens == old(stream.tokens) + RenamePayload(fields.state.groups[group].id, Trim(newGroupName))
    {
      var s := fields.state;
      if s.groups[group].isDefault {
        return;
      }
      var name := Trim(newGroupName);
      if name == "" {
        return;
      }
      stream.WriteSmallUInt(s.groups[group].id);
      stream.WriteString(name);
    }

    /** `OnRenamePermissionGroupIA`: reads the id and returns when no live group has it; otherwise reads the name and renames. */
    method OnRenamePermissionGroupIA(stream: LockstepStream, ghost groupId: nat, ghost groupName: string)
      requires Valid() && Starts(stream.Unread(), RenamePayload(groupId, groupName))
      modifies this`fields, stream`readPosition
      ensures Valid()
      ensures groupId !in old(fields.state.groupsById) ==> fields == old(fields)
      ensures groupId in old(fields.state.groupsById) ==> Renamed(old(fields), fields, old(fields.state.groupsById[groupId]), groupName)
    {
      var f := fields;
      PayloadAt(stream.tokens, stream.readPosition, RenamePayload(groupId, groupName));
      ghost var at := stream.readPosition;
      assert stream.tokens[at] == UInt(groupId) && stream.tokens[at + 1] == Str(groupName);
      var id := stream.ReadSmallUInt();
      if id in f.state.groupsById {
        LookedUpById(f.state, f.viewStale, id);
        var name := stream.ReadString();
        f := RenameOn(f, f.state.groupsById[id], name);
      }
      fields := f;
    }

    // ---------------------------------------------------------------- Resolver registry

    /** `IsResolverExistenceRegistered`: the resolver is a key of the lookup, which holds exactly the resolvers in the array. */
    function IsResolverExistenceRegistered(resolver: ResolverRef): (b: bool)
      reads this`fields
      ensures RegistryOk(RegistryOf(fields.state)) ==> (b <==> Some(resolver) in fields.state.allPermissionResolvers)
    {
      KeyIffInArray(RegistryOf(fields.state), resolver);
      resolver in fields.state.allPermissionResolversLut
    }

    /** `RegisterResolverExistence`: the resolver takes the next slot of the array, and the lookup maps it there. */
    method RegisterResolverExistence(resolver: ResolverRef)
      requires Valid() && !IsRegistered(RegistryOf(fields.state), resolver)
      modifies this`fields
      ensures Valid() && IsRegistered(RegistryOf(fields.state), resolver)
      ensures RegistryOf(fields.state) == Register(RegistryOf(old(fields.state)), resolver)
      ensures fields == old(fields).(state := old(fields.state).(allPermissionResolvers := fields.state.allPermissionResolvers,
                                                                 allPermissionResolversLut := fields.state.allPermissionResolversLut))
    {
      var f := fields;
      var s := f.state;
      RegisterKeepsRegistry(RegistryOf(s), resolver);
      WithRegistryKeeps(s, f.viewStale, Register(RegistryOf(s), resolver));
      fields := f.(state := s.(allPermissionResolversLut := s.allPermissionResolversLut[resolver := |s.allPermissionResolvers|],
                               allPermissionResolvers := s.allPermissionResolvers + [Some(resolver)]));
    }

    /**
     * `DeregisterResolverExistence`, as intended: an unregistered resolver
     * changes nothing; otherwise its key is dropped, the array shrinks by one
     * and the entry that was last moves into the freed slot.
     */
    method DeregisterResolverExistence(resolver: ResolverRef)
      requires Valid()
      modifies this`fields
      ensures Valid() && !IsRegistered(RegistryOf(fields.state), resolver)
      ensures RegistryOf(fields.state) == Deregister(RegistryOf(old(fields.state)), resolver)
      ensures fields == old(fields).(state := old(fields.state).(allPermissionResolvers := fields.state.allPermissionResolvers,
                                                                 allPermissionResolversLut := fields.state.allPermissionResolversLut))
    {
      var f := fields;
      var s := f.state;
      DeregisterKeepsRegistry(RegistryOf(s), resolver);
      WithRegistryKeeps(s, f.viewStale, Deregister(RegistryOf(s), resolver));
      var lut := s.allPermissionResolversLut;
      if resolver !in lut {
        return;
      }
      var index := lut[resolver];
      lut := lut - {resolver};
      var count := |s.allPermissionResolvers| - 1;
      var arr := s.allPermissionResolvers[..count];
      if count != index {
        var top := s.allPermissionResolvers[count];
        arr := arr[index := top];
        if top.Some? {
          lut := lut[top.value := index];
        }
      }
      fields := f.(state := s.(allPermissionResolvers := arr, allPermissionResolversLut := lut));
    }

    // ---------------------------------------------------------------- Group references

    /** `WritePermissionGroupRef`: a group is written as its id. */
    method WritePermissionGroupRef(stream: LockstepStream, group: GroupRef)
      requires group < |fields.state.groups|
      modifies stream`tokens
      ensures stream.tokens == old(stream.tokens) + [UInt(fields.state.groups[group].id)]
    {
      stream.WriteSmallUInt(fields.state.groups[group].id);
    }

    /** `GetPermissionGroupFromImportedId`: the group the import maps an imported id to. */
    function GetPermissionGroupFromImportedId(importedGroupId: nat): (group: GroupRef)
      reads this`fields
      requires Valid() && importedGroupId in fields.state.groupsByImportedId
      ensures group < |fields.state.groups|
    {
      fields.state.groupsByImportedId[importedGroupId]
    }

    /**
     * `ReadPermissionGroupRef(isImport)`: during an import the id is mapped
     * through the imported ids; otherwise it is looked up among the live
     * groups, and an unknown id reads as no group.
     */
    method ReadPermissionGroupRef(stream: LockstepStream, isImport: bool) returns (group: Option<GroupRef>)
      requires Valid() && stream.readPosition < |stream.tokens| && stream.tokens[stream.readPosition].UInt?
      requires isImport ==> stream.tokens[stream.readPosition].n in fields.state.groupsByImportedId
      modifies stream`readPosition
      ensures stream.readPosition == old(stream.readPosition) + 1
      ensures var id := stream.tokens[old(stream.readPosition)].n;
              && (isImport ==> group == Some(fields.state.groupsByImportedId[id]))
              && (!isImport && id in fields.state.groupsById ==>
                    group == Some(fields.state.groupsById[id]) && fields.state.groupsById[id] < |fields.state.groups|
                    && fields.state.groups[fields.state.groupsById[id]].id == id && !fields.state.groups[fields.state.groupsById[id]].isDeleted)
              && (!isImport && id !in fields.state.groupsById ==> group.None?)
    {
      var id := stream.ReadSmallUInt();
      var s := fields.state;
      if isImport {
        return Some(GetPermissionGroupFromImportedId(id));
      }
      if id in s.groupsById {
        LookedUpById(s, fields.viewStale, id);
        return Some(s.groupsById[id]);
      }
      return None;
    }

    // ---------------------------------------------------------------- The state changes, on values

    /**
     * `SetPlayerDataPermissionGroup` without its event: the setter moves `p`
     * into `group`, and the view follows when `p` is the local player.
     */
    static method SetPlayerDataPermissionGroup(s: ManagerState, viewStale: bool, p: PlayerRef, group: GroupRef,
                                               localPlayerId: nat, log: seq<ResolverRef>)
      returns (s': ManagerState, viewStale': bool, log': seq<ResolverRef>)
      requires StateOk(s, viewStale) && p < |s.players| && group < |s.groups|
      ensures StateOk(s', viewStale') && PlayerGroupSet(s, s', p, group, localPlayerId, log, log')
    {
      WithPlayerGroupKeeps(s, viewStale, p, Some(group));
      var r := SetterOnArenas(RosterOf(s), p, Some(group));
      var moved := s.(players := r.players, groups := r.groups);
      if s.players[p].playerId == localPlayerId {
        FlagsSizedOf(moved, viewStale, group);
        s', log' := ViewAs(moved, group, log);
        ViewedAsKeeps(moved, viewStale, s', group, log, log');
        viewStale' := viewStale && moved.viewWorldAsGroup == Some(group);
      } else {
        s', viewStale', log' := moved, viewStale, log;
      }
    }

    /**
     * The state change of `DeletePermissionGroupInGSInternal`: the roster
     * step and the removal from the live list and both lookups, then, unless
     * suppressed, the view follows the local player when it was a member.
     */
    static method DeleteOnState(s: ManagerState, viewStale: bool, group: GroupRef, groupToMovePlayersTo: GroupRef,
                                suppress: bool, localPlayerId: nat, log: seq<ResolverRef>)
      returns (s': ManagerState, viewStale': bool, log': seq<ResolverRef>)
      requires StateOk(s, viewStale) && group < |s.groups| && groupToMovePlayersTo < |s.groups|
      requires !DeleteRefused(s.groups, group, groupToMovePlayersTo)
      ensures StateOk(s', viewStale') && GroupDeleted(s, s', group, groupToMovePlayersTo, suppress, localPlayerId, log, log')
      ensures suppress ==> viewStale' == viewStale
    {
      WithoutGroupKeeps(s, viewStale, group, groupToMovePlayersTo);
      var r := DeleteOnArenas(RosterOf(s), group, groupToMovePlayersTo);
      var without := s.(players := r.players, groups := r.groups, permissionGroups := Remove(s.permissionGroups, group),
                        groupsById := s.groupsById - {s.groups[group].id}, groupsByName := s.groupsByName - {s.groups[group].groupName});
      if !suppress && LocalAmong(s.players, s.groups[group].playersInGroup, localPlayerId) {
        FlagsSizedOf(without, viewStale, groupToMovePlayersTo);
        s', log' := ViewAs(without, groupToMovePlayersTo, log);
        ViewedAsKeeps(without, viewStale, s', groupToMovePlayersTo, log, log');
        viewStale' := viewStale && without.viewWorldAsGroup == Some(groupToMovePlayersTo);
      } else {
        s', viewStale', log' := without, viewStale, log;
      }
    }

    /** `SetPermissionValueInGS` on the fields. */
    static method SetValueOn(f: Fields, group: GroupRef, defIndex: nat, value: bool) returns (f': Fields)
      requires FieldsOk(f) && group < |f.state.groups| && defIndex < |f.state.permissionDefs|
      ensures FieldsOk(f') && ValueUpdated(f, f', group, defIndex, value)
    {
      WithValueKeeps(f.state, f.viewStale, group, defIndex, value);
      // A definition's `index` is its position, so `defIndex` also indexes the flags.
      if f.state.groups[group].permissionValues[defIndex] == value {
        return f;
      }
      var log := f.resolved;
      if f.state.viewWorldAsGroup == Some(group) {
        // `resolver.Resolve()` for every non-null resolver of the definition, in order
        log := log + Present(f.state.permissionDefs[defIndex].resolvers);
      }
      f' := f.(state := WithValue(f.state, group, defIndex, value),
               events := f.events + [OnPermissionValueChanged(group, defIndex)], resolved := log);
    }

    /** `SetPlayerPermissionGroupInGS` on the fields. */
    static method MovePlayerOn(f: Fields, p: PlayerRef, group: GroupRef, localPlayerId: nat) returns (f': Fields)
      requires FieldsOk(f) && p < |f.state.players| && group < |f.state.groups|
      ensures FieldsOk(f') && PlayerMoved(f, f', p, group, localPlayerId)
    {
      if f.state.groups[group].isDeleted || f.state.players[p].permissionGroup == Some(group) {
        return f;
      }
      var s, stale, log := SetPlayerDataPermissionGroup(f.state, f.viewStale, p, group, localPlayerId, f.resolved);
      f' := f.(state := s, viewStale := stale, resolved := log,
               events := f.events + [OnPlayerPermissionGroupChanged(p, f.state.players[p].permissionGroup)]);
    }

    /** `DuplicatePermissionGroupInGS` on the fields. */
    static method DuplicateOn(f: Fields, groupName: string, toDuplicate: GroupRef, playerInitiatingCreation: Option<PlayerRef>,
                              isDeserializingForImport: bool)
      returns (f': Fields, created: Option<GroupRef>)
      requires FieldsOk(f) && toDuplicate < |f.state.groups|
      ensures FieldsOk(f') && Duplicated(f, f', groupName, toDuplicate, playerInitiatingCreation, isDeserializingForImport, created)
    {
      var name := Trim(groupName);
      var s := f.state;
      if name == "" || name in s.groupsByName {
        return f, None;
      }
      FlagsSizedOf(s, f.viewStale, toDuplicate);
      WithDuplicateKeeps(s, f.viewStale, name, s.groups[toDuplicate].permissionValues);
      var g := |s.groups|;
      // The new group takes the next id; RegisterCreatedPermissionGroup appends it and adds it to both lookups.
      f' := f.(state := WithDuplicate(s, name, s.groups[toDuplicate].permissionValues),
               events := f.events + DuplicatedEvents(g, toDuplicate, playerInitiatingCreation, isDeserializingForImport));
      created := Some(g);
    }

    /** `DeletePermissionGroupInGSInternal` on the fields. */
    static method DeleteOn(f: Fields, group: GroupRef, groupToMovePlayersTo: GroupRef, suppressEventsAndLeaveWorldViewUnchanged: bool,
                           localPlayerId: nat)
      returns (f': Fields)
      requires FieldsOk(f) && group < |f.state.groups| && groupToMovePlayersTo < |f.state.groups|
      requires !DeleteRefused(f.state.groups, group, groupToMovePlayersTo)
      ensures FieldsOk(f') && Deleted(f, f', group, groupToMovePlayersTo, suppressEventsAndLeaveWorldViewUnchanged, localPlayerId)
    {
      var members := f.state.groups[group].playersInGroup;
      var s, stale, log := DeleteOnState(f.state, f.viewStale, group, groupToMovePlayersTo,
                                         suppressEventsAndLeaveWorldViewUnchanged, localPlayerId, f.resolved);
      f' := f.(state := s, viewStale := stale, resolved := log,
               events := if suppressEventsAndLeaveWorldViewUnchanged then f.events else f.events + DeletionEvents(members, group));
    }

    /** `DeletePermissionGroupWithoutCleanup` on the fields. */
    static method DeleteWithoutCleanupOn(f: Fields, group: GroupRef) returns (f': Fields)
      requires FieldsOk(f) && group < |f.state.groups| && !f.state.groups[group].isDefault && !f.state.groups[group].isDeleted
      ensures FieldsOk(f') && f' == f.(state := WithoutGroupNoCleanup(f.state, group))
    {
      var s := f.state;
      WithoutGroupNoCleanupKeeps(s, f.viewStale, group);
      f' := f.(state := s.(groups := s.groups[group := s.groups[group].(isDeleted := true)],
                           permissionGroups := Remove(s.permissionGroups, group),
                           groupsById := s.groupsById - {s.groups[group].id},
                           groupsByName := s.groupsByName - {s.groups[group].groupName}));
    }

    /** `RenamePermissionGroupInGS` on the fields. */
    static method RenameOn(f: Fields, group: GroupRef, newGroupName: string) returns (f': Fields)
      requires FieldsOk(f) && group < |f.state.groups| && group in f.state.permissionGroups
      ensures FieldsOk(f') && Renamed(f, f', group, newGroupName)
    {
      var s := f.state;
      if s.groups[group].isDefault {
        return f;
      }
      var name := Trim(newGroupName);
      if name == "" || s.groups[group].groupName == name || name in s.groupsByName {
        return f;
      }
      WithNameKeeps(s, f.viewStale, group, name);
      // The group takes the name, and the lookup by name drops the previous name for the new one.
      f' := f.(state := WithName(s, group, name), events := f.events + [OnPermissionGroupRenamed(group, s.groups[group].groupName)]);
    }

    // ---------------------------------------------------------------- Serialization

    /**
     * `SerializeGameState`: an export writes what `Export` writes; otherwise
     * the next id and then the live groups.
     */
    method SerializeGameState(stream: LockstepStream, isExport: bool, exportOptions: PermissionImportExportOptions?)
      requires Valid() && StoreValid(fields.state) && (isExport ==> exportOptions != null)
      modifies stream`tokens
      ensures isExport ==> stream.tokens == old(stream.tokens) + ExportTokens(ExportOf(fields.state, exportOptions.includePermissionGroups,
                                                                                        exportOptions.includePlayerPermissionGroups))
      ensures !isExport ==> stream.tokens == old(stream.tokens) + GameStateTokens(fields.state.nextGroupId, LiveGroupStates(fields.state))
    {
      assert LiveInArena(fields.state);
      if isExport {
        Export(stream, fields.state, exportOptions);
        return;
      }
      stream.WriteSmallUInt(fields.state.nextGroupId);
      WritePermissionGroups(stream, fields.state);
    }

    /** `WritePermissionGroup`: id, name, flags. */
    static method WritePermissionGroup(stream: LockstepStream, group: PermissionGroup)
      modifies stream`tokens
      ensures stream.tokens == old(stream.tokens) + GroupTokens(GroupStateOf(group))
    {
      stream.WriteSmallUInt(group.id);
      stream.WriteString(group.groupName);
      stream.WriteFlags(group.permissionValues);
    }

    /** `WritePermissionGroups`: the number of live groups, then each live group in order. */
    static method WritePermissionGroups(stream: LockstepStream, s: ManagerState)
      requires LiveInArena(s)
      modifies stream`tokens
      ensures stream.tokens == old(stream.tokens) + [UInt(|s.permissionGroups|)] + GroupsTokens(LiveGroupStates(s))
    {
      stream.WriteSmallUInt(|s.permissionGroups|);
      ghost var written := stream.tokens;
      ghost var gs := LiveGroupStates(s);
      for i := 0 to |s.permissionGroups|
        invariant stream.tokens == written + GroupsTokens(gs[..i])
      {
        WritePermissionGroup(stream, s.groups[s.permissionGroups[i]]);
        GroupsTokensSnoc(gs[..i], gs[i]);
        assert gs[..i + 1] == gs[..i] + [gs[i]];
      }
      assert gs[..|gs|] == gs;
    }

    /**
     * `ReadPermissionGroup`: a new group with the id, name and flags read, the
     * default group exactly when it is named "Default".
     */
    static method ReadPermissionGroup(stream: LockstepStream, defsCount: nat, ghost g: GroupState) returns (group: PermissionGroup)
      requires stream.readPosition + 3 <= |stream.tokens| && |g.permissionValues| == defsCount
      requires stream.tokens[stream.readPosition] == UInt(g.id) && stream.tokens[stream.readPosition + 1] == Str(g.groupName)
      requires stream.tokens[stream.readPosition + 2] == Flags(g.permissionValues)
      modifies stream`readPosition
      ensures stream.readPosition == old(stream.readPosition) + 3 && group == GroupRead(g)
    {
      var id := stream.ReadSmallUInt();
      var groupName := stream.ReadString();
      var permissionValues := stream.ReadFlags(defsCount);
      group := PermissionGroup(groupName == DefaultGroupName, id, groupName, permissionValues, false, [], []);
    }

    /** Reads group `i` of the groups written at `pos`. */
    static method ReadGroupAt(stream: LockstepStream, defsCount: nat, ghost gs: seq<GroupState>, ghost pos: nat, ghost i: nat)
      returns (group: PermissionGroup)
      requires i < |gs| && FlagsSized(gs, defsCount) && stream.readPosition == pos + 3 * i
      requires pos + 3 * |gs| <= |stream.tokens| && stream.tokens[pos..pos + 3 * |gs|] == GroupsTokens(gs)
      modifies stream`readPosition
      ensures stream.readPosition == pos + 3 * (i + 1) && group == GroupRead(gs[i])
    {
      GroupAt(stream.tokens, pos, gs, i);
      group := ReadPermissionGroup(stream, defsCount, gs[i]);
    }

    /**
     * `DeserializeGameState` for a non-import, on the fields: the next id is
     * read, then `ReadPermissionGroups` reads the count and registers each
     * group read (`RegisterCreatedPermissionGroup`), and the first becomes the
     * default group.
     */
    static method ReadGameStateOn(f: Fields, stream: LockstepStream, ghost nextGroupId: nat, ghost gs: seq<GroupState>) returns (f': Fields)
      requires FieldsOk(f) && StoreEmpty(f.state) && SnapshotOk(nextGroupId, gs, |f.state.permissionDefs|)
      requires Starts(stream.Unread(), GameStateTokens(nextGroupId, gs))
      modifies stream`readPosition
      ensures FieldsOk(f') && StoreValid(f'.state) && f' == f.(state := Deserialized(f.state, nextGroupId, gs))
    {
      ghost var payload := GameStateTokens(nextGroupId, gs);
      ghost var at := stream.readPosition;
      GameStateParts(nextGroupId, gs);
      PayloadAt(stream.tokens, at, payload);
      TokenAt(stream.tokens, at, payload, 0);
      TokensAt(stream.tokens, at, payload, 1, |payload|);
      assert payload[1..] == [UInt(|gs|)] + GroupsTokens(gs);
      var next := stream.ReadSmallUInt();
      var groups, live, byId, byName, default := ReadPermissionGroups(stream, |f.state.permissionDefs|, gs, at + 1);
      DeserializedOk(f.state, f.viewStale, nextGroupId, gs);
      f' := f.(state := f.state.(nextGroupId := next, groups := groups, permissionGroups := live, groupsById := byId,
                                 groupsByName := byName, defaultPermissionGroup := default));
    }

    /**
     * `ReadPermissionGroups` into an empty store: the count, then each group
     * read is registered (`RegisterCreatedPermissionGroup`: appended to the
     * arena and the live list and added to both lookups), and the first live
     * group becomes the default group.
     */
    static method ReadPermissionGroups(stream: LockstepStream, defsCount: nat, ghost gs: seq<GroupState>, ghost at: nat)
      returns (groups: seq<PermissionGroup>, live: seq<GroupRef>, byId: map<nat, GroupRef>, byName: map<string, GroupRef>,
               default: GroupRef)
      requires |gs| > 0 && FlagsSized(gs, defsCount)
      requires stream.readPosition == at && at + 1 + 3 * |gs| <= |stream.tokens|
      requires stream.tokens[at..at + 1 + 3 * |gs|] == [UInt(|gs|)] + GroupsTokens(gs)
      modifies stream`readPosition
      ensures stream.readPosition == at + 1 + 3 * |gs|
      ensures groups == seq(|gs|, i requires 0 <= i < |gs| => GroupRead(gs[i]))
      ensures live == Range(|gs|) && byId == IndexBy(Ids(gs)) && byName == IndexBy(Names(gs)) && default == 0
    {
      ghost var payload := [UInt(|gs|)] + GroupsTokens(gs);
      ghost var body := GroupsTokens(gs);
      TokenAt(stream.tokens, at, payload, 0);
      TokensAt(stream.tokens, at, payload, 1, |payload|);
      assert payload[1..] == body;
      var count := stream.ReadSmallUInt();
      groups, live, byId, byName := [], [], map[], map[];
      for i := 0 to count
        invariant count == |gs| && stream.readPosition == at + 1 + 3 * i
        invariant |groups| == i && forall k :: 0 <= k < i ==> groups[k] == GroupRead(gs[k])
        invariant live == Range(i) && byId == IndexBy(Ids(gs)[..i]) && byName == IndexBy(Names(gs)[..i])
      {
        var group := ReadGroupAt(stream, defsCount, gs, at + 1, i);
        // RegisterCreatedPermissionGroup
        RegisterNext(gs, i);
        byId := byId[group.id := |groups|];
        byName := byName[group.groupName := |groups|];
        live := live + [|groups|];
        groups := groups + [group];
      }
      assert Ids(gs)[..|gs|] == Ids(gs) && Names(gs)[..|gs|] == Names(gs);
      default := live[0];
    }

    // ---------------------------------------------------------------- Export

    /**
     * `Export`: the options, the number of live groups and each one's name and
     * id; with groups included, also the number of definitions, their internal
     * names, and each live group's flags.
     */
    static method Export(stream: LockstepStream, s: ManagerState, exportOptions: PermissionImportExportOptions)
      requires LiveInArena(s)
      modifies stream`tokens
      ensures stream.tokens == old(stream.tokens) + ExportTokens(ExportOf(s, exportOptions.includePermissionGroups,
                                                                          exportOptions.includePlayerPermissionGroups))
    {
      var includePermissionGroups := exportOptions.includePermissionGroups;
      ghost var includePlayerPermissionGroups := exportOptions.includePlayerPermissionGroups;
      ghost var t0 := stream.tokens;
      exportOptions.Serialize(stream, true);
      stream.WriteSmallUInt(|s.permissionGroups|);
      ghost var t1 := stream.tokens;
      ExportPermissionGroupNamesAndIds(stream, s);
      ghost var t2 := stream.tokens;
      if !includePermissionGroups {
        ExportJoin(t0, t1, t2, t2, s, includePermissionGroups, includePlayerPermissionGroups);
        return;
      }
      stream.WriteSmallUInt(|s.permissionDefs|);
      ExportPermissionDefinitionsMetadata(stream, s.permissionDefs);
      ExportPermissionGroupFlags(stream, s);
      ExportJoin(t0, t1, t2, stream.tokens, s, includePermissionGroups, includePlayerPermissionGroups);
    }

    /** `ExportPermissionGroupNamesAndIds`: each live group's name, then its id. */
    static method ExportPermissionGroupNamesAndIds(stream: LockstepStream, s: ManagerState)
      requires LiveInArena(s)
      modifies stream`tokens
      ensures stream.tokens == old(stream.tokens) + NamesAndIdsTokens(NamesAndIdsOf(s))
    {
      ghost var written := stream.tokens;
      ghost var gs := NamesAndIdsOf(s);
      for i := 0 to |s.permissionGroups|
        invariant stream.tokens == written + NamesAndIdsTokens(gs[..i])
      {
        var group := s.groups[s.permissionGroups[i]];
        stream.WriteString(group.groupName);
        stream.WriteSmallUInt(group.id);
        NamesAndIdsTokensSnoc(gs[..i], gs[i]);
        assert gs[..i + 1] == gs[..i] + [gs[i]];
      }
      assert gs[..|gs|] == gs;
    }

    /** `ExportPermissionDefinitionsMetadata`: each definition's internal name. */
    static method ExportPermissionDefinitionsMetadata(stream: LockstepStream, defs: seq<PermissionDefinition>)
      modifies stream`tokens
      ensures stream.tokens == old(stream.tokens) + StringsTokens(DefinitionNames(defs))
    {
      ghost var written := stream.tokens;
      ghost var names := DefinitionNames(defs);
      for i := 0 to |defs|
        invariant stream.tokens == written + StringsTokens(names[..i])
      {
        stream.WriteString(defs[i].internalName);
        assert names[..i + 1] == names[..i] + [names[i]];
      }
      assert names[..|names|] == names;
    }

    /** `ExportPermissionGroupFlags`: each live group's flags. */
    static method ExportPermissionGroupFlags(stream: LockstepStream, s: ManagerState)
      requires LiveInArena(s)
      modifies stream`tokens
      ensures stream.tokens == old(stream.tokens) + FlagsTokens(FlagRowsOf(s))
    {
      ghost var written := stream.tokens;
      ghost var rows := FlagRowsOf(s);
      for i := 0 to |s.permissionGroups|
        invariant stream.tokens == written + FlagsTokens(rows[..i])
      {
        stream.WriteFlags(s.groups[s.permissionGroups[i]].permissionValues);
        assert rows[..i + 1] == rows[..i] + [rows[i]];
      }
      assert rows[..|rows|] == rows;
    }

    // ---------------------------------------------------------------- Import

    /**
     * `DeserializeGameState`: an import runs `Import`; otherwise the game
     * state is read into a manager with no groups. No error is reported.
     */
    method DeserializeGameState(stream: LockstepStream, isImport: bool, importedDataVersion: nat,
                                importOptions: PermissionImportExportOptions?,
                                ghost nextGroupId: nat, ghost gs: seq<GroupState>, ghost e: ExportData)
      returns (errorMessage: Option<string>)
      requires Valid()
      requires !isImport ==> StoreEmpty(fields.state) && SnapshotOk(nextGroupId, gs, |fields.state.permissionDefs|)
                             && Starts(stream.Unread(), GameStateTokens(nextGroupId, gs))
      requires isImport ==> StoreValid(fields.state) && importOptions != null && ExportShaped(e) && Importable(e.groups)
                            && Starts(stream.Unread(), ExportTokens(e))
      modifies this`fields, this`optionsFromExport, stream`readPosition
      ensures Valid() && errorMessage.None?
      ensures !isImport ==> fields == old(fields).(state := Deserialized(old(fields.state), nextGroupId, gs))
                            && optionsFromExport == old(optionsFromExport)
      ensures isImport ==> Imported(old(fields), fields, e, importOptions.includePermissionGroups, importOptions.includePlayerPermissionGroups)
      ensures isImport ==> optionsFromExport != null && optionsFromExport.includePermissionGroups == e.includePermissionGroups
                           && optionsFromExport.includePlayerPermissionGroups == e.includePlayerPermissionGroups
    {
      if isImport {
        fields, optionsFromExport := ImportOn(fields, stream, importOptions, localPlayerId, e);
        return None;
      }
      fields := ReadGameStateOn(fields, stream, nextGroupId, gs);
      return None;
    }

    /** The definitions and flags part of an import that includes the groups, read from `at`. */
    static method ImportDefinitionsAndFlags(f: Fields, stream: LockstepStream, ghost e: ExportData, ghost at: nat)
      returns (f': Fields)
      requires FieldsOk(f) && StoreValid(f.state) && ExportShaped(e) && e.includePermissionGroups
      requires |e.groups| == |f.state.permissionGroups|
      requires stream.readPosition == at && at + |GroupsPartTokens(e)| <= |stream.tokens|
      requires stream.tokens[at..at + |GroupsPartTokens(e)|] == GroupsPartTokens(e)
      modifies stream`readPosition
      ensures FieldsOk(f') && StoreValid(f'.state)
      ensures f' == f.(state := f.state.(groups := f'.state.groups), viewStale := true)
      ensures FlagsImported(f.state, f'.state.groups, e.groupFlags, e.definitionNames, |e.groupFlags|)
    {
      GroupsPartLayout(stream.tokens, at, e);
      var importedDefsCount := stream.ReadSmallUInt();
      var correspondingImportedDefIndexMap := ImportPermissionDefinitionsMetadata(
        stream, f.state.permissionDefs, f.state.permissionDefsByInternalName, importedDefsCount, e.definitionNames, at + 1);
      f' := ImportPermissionGroupFlags(f, stream, importedDefsCount, correspondingImportedDefIndexMap,
                                       e.definitionNames, e.groupFlags, at + 1 + |e.definitionNames|);
    }

    /** The groups part of `Import`: the names and ids, then the definitions and flags. */
    static method ImportGroupsOn(f: Fields, stream: LockstepStream, importedGroupsCount: nat, movePlayersOutOfDeletedGroups: bool,
                                 localPlayerId: nat, ghost e: ExportData, ghost at: nat)
      returns (f': Fields)
      requires FieldsOk(f) && StoreValid(f.state) && ExportShaped(e) && Importable(e.groups) && e.includePermissionGroups
      requires importedGroupsCount == |e.groups| && stream.readPosition == at
      requires at + 2 * |e.groups| <= |stream.tokens| && stream.tokens[at..at + 2 * |e.groups|] == NamesAndIdsTokens(e.groups)
      requires var p := at + 2 * |e.groups|;
               p + |GroupsPartTokens(e)| <= |stream.tokens| && stream.tokens[p..p + |GroupsPartTokens(e)|] == GroupsPartTokens(e)
      modifies stream`readPosition
      ensures FieldsOk(f') && StoreValid(f'.state)
      ensures f' == f.(state := f'.state, viewStale := true)
      ensures NamesImported(f.state, f'.state, e.groups, movePlayersOutOfDeletedGroups)
      ensures forall k :: 0 <= k < |e.groups| ==>
                FlagsOverwritten(PreImportValues(f.state, e.groups[k].groupName),
                                 f'.state.groups[f'.state.permissionGroups[k]].permissionValues,
                                 e.groupFlags[k], f.state.permissionDefs, e.definitionNames)
    {
      ghost var p := at + 2 * |e.groups|;
      ghost var part := GroupsPartTokens(e);
      assert stream.tokens[p..p + |part|] == part;
      f' := ImportPermissionGroupNamesAndIds(f, stream, importedGroupsCount, movePlayersOutOfDeletedGroups, localPlayerId,
                                             e.groups, at);
      ghost var f2 := f';
      assert |e.groups| == |f2.state.permissionGroups|;
      f' := ImportDefinitionsAndFlags(f', stream, e, p);
      FlagsOverImport(f.state, f2.state, f'.state.groups, e.groups, e.groupFlags, e.definitionNames, movePlayersOutOfDeletedGroups);
    }

    /**
     * `Import` on the fields: the options of the export are read into a new
     * options object; groups are imported when both the export and the import
     * include them, and players are moved out of deleted groups unless both
     * include the players' groups too; otherwise only the imported-id table
     * is built.
     */
    static method ImportOn(f: Fields, stream: LockstepStream, importOptions: PermissionImportExportOptions, localPlayerId: nat,
                           ghost e: ExportData)
      returns (f': Fields, optionsFromExport: PermissionImportExportOptions)
      requires FieldsOk(f) && StoreValid(f.state) && ExportShaped(e) && Importable(e.groups)
      requires Starts(stream.Unread(), ExportTokens(e))
      modifies stream`readPosition
      ensures FieldsOk(f') && StoreValid(f'.state)
      ensures Imported(f, f', e, importOptions.includePermissionGroups, importOptions.includePlayerPermissionGroups)
      ensures fresh(optionsFromExport) && optionsFromExport.includePermissionGroups == e.includePermissionGroups
              && optionsFromExport.includePlayerPermissionGroups == e.includePlayerPermissionGroups
    {
      ghost var at := stream.readPosition;
      ExportLayout(stream.tokens, at, e);
      optionsFromExport := new PermissionImportExportOptions();
      optionsFromExport.Deserialize(stream, true, 0);
      var doImportPermissionGroups := optionsFromExport.includePermissionGroups && importOptions.includePermissionGroups;
      var doImportPlayerPermissionGroups := optionsFromExport.includePlayerPermissionGroups && importOptions.includePlayerPermissionGroups;
      var importedGroupsCount := stream.ReadSmallUInt();
      if !doImportPermissionGroups {
        f' := OnlyBuildGroupsByImportedId(f, stream, importedGroupsCount, e.groups, at + 2);
        return;
      }
      f' := ImportGroupsOn(f, stream, importedGroupsCount, !doImportPlayerPermissionGroups, localPlayerId, e, at + 2);
    }

    /**
     * `OnlyBuildGroupsByImportedId`: a fresh imported-id table maps each
     * imported id to the live group of the imported name, or to the default
     * group when there is none.
     */
    static method OnlyBuildGroupsByImportedId(f: Fields, stream: LockstepStream, count: nat, ghost gs: seq<GroupNameAndId>,
                                              ghost at: nat)
      returns (f': Fields)
      requires FieldsOk(f) && StoreValid(f.state) && count == |gs| && Distinct(GroupIds(gs))
      requires stream.readPosition == at && at + 2 * |gs| <= |stream.tokens|
      requires stream.tokens[at..at + 2 * |gs|] == NamesAndIdsTokens(gs)
      modifies stream`readPosition
      ensures FieldsOk(f') && StoreValid(f'.state) && stream.readPosition == at + 2 * |gs|
      ensures f' == f.(state := f.state.(groupsByImportedId := f'.state.groupsByImportedId))
      ensures FallbackIds(f.state, f'.state.groupsByImportedId, gs)
    {
      var s := f.state;
      LookupsInArena(s, f.viewStale);
      var groupsByImportedId := ReadFallbackIds(s, stream, count, gs, at);
      ImportedIdsKeep(s, f.viewStale, groupsByImportedId);
      f' := f.(state := s.(groupsByImportedId := groupsByImportedId));
    }

    /** The loop of `OnlyBuildGroupsByImportedId`, over the lookups of `s`. */
    static method ReadFallbackIds(s: ManagerState, stream: LockstepStream, count: nat, ghost gs: seq<GroupNameAndId>, ghost at: nat)
      returns (groupsByImportedId: map<nat, GroupRef>)
      requires s.defaultPermissionGroup < |s.groups| && forall n :: n in s.groupsByName ==> s.groupsByName[n] < |s.groups|
      requires count == |gs| && Distinct(GroupIds(gs))
      requires stream.readPosition == at && at + 2 * |gs| <= |stream.tokens|
      requires stream.tokens[at..at + 2 * |gs|] == NamesAndIdsTokens(gs)
      modifies stream`readPosition
      ensures stream.readPosition == at + 2 * |gs|
      ensures FallbackIds(s, groupsByImportedId, gs)
      ensures forall id :: id in groupsByImportedId ==> groupsByImportedId[id] < |s.groups|
    {
      groupsByImportedId := map[];
      for i := 0 to count
        invariant stream.readPosition == at + 2 * i
        invariant forall k :: 0 <= k < i ==> gs[k].id in groupsByImportedId && groupsByImportedId[gs[k].id] == ImportTarget(s, gs[k].groupName)
        invariant forall id :: id in groupsByImportedId ==> id in GroupIds(gs)[..i] && groupsByImportedId[id] < |s.groups|
      {
        var groupName, importedId := ReadNameAndId(stream, gs, i, at);
        // Players in groups not present in the world are set to the default group.
        var group := if groupName in s.groupsByName then s.groupsByName[groupName] else s.defaultPermissionGroup;
        assert GroupIds(gs)[i] == importedId && GroupIds(gs)[..i + 1] == GroupIds(gs)[..i] + [importedId];
        assert importedId !in GroupIds(gs)[..i];
        groupsByImportedId := groupsByImportedId[importedId := group];
      }
      assert GroupIds(gs)[..|gs|] == GroupIds(gs);
    }

    /**
     * `ImportPermissionGroupNamesAndIds`: the imported groups are found by name
     * or created as copies of the default group; every group that was live
     * and is not imported is deleted, from the end of the live list, moving
     * its players to the default group without events or a view change, or
     * without cleanup; and the live list becomes the imported groups in the
     * imported order.
     */
    static method ImportPermissionGroupNamesAndIds(f: Fields, stream: LockstepStream, count: nat, movePlayersOutOfDeletedGroups: bool,
                                                   localPlayerId: nat, ghost gs: seq<GroupNameAndId>, ghost at: nat)
      returns (f': Fields)
      requires FieldsOk(f) && StoreValid(f.state) && count == |gs| && Importable(gs)
      requires stream.readPosition == at && at + 2 * |gs| <= |stream.tokens|
      requires stream.tokens[at..at + 2 * |gs|] == NamesAndIdsTokens(gs)
      modifies stream`readPosition
      ensures FieldsOk(f') && StoreValid(f'.state) && stream.readPosition == at + 2 * |gs|
      ensures f' == f.(state := f'.state)
      ensures NamesImported(f.state, f'.state, gs, movePlayersOutOfDeletedGroups)
      ensures forall k :: 0 <= k < |gs| ==> f'.state.groups[f'.state.permissionGroups[k]].permissionValues == PreImportValues(f.state, gs[k].groupName)
    {
      ImportNamesInit(f, gs);
      var originalPermissionGroupsCount := |f.state.permissionGroups|;
      var f0 := f.(state := f.state.(groupsByImportedId := map[]));
      var f1, importedGroups, groupsToKeepLut := ImportNames(f0, stream, count, gs, at);
      NamesAfterOk(f, f0, gs, count);
      ImportNamesDone(f, f1, gs, importedGroups, groupsToKeepLut);
      var f2 := DeleteGroupsNotKept(f1, groupsToKeepLut, originalPermissionGroupsCount, movePlayersOutOfDeletedGroups, localPlayerId);
      ImportedStillLive(f, f1, f2, gs, importedGroups, groupsToKeepLut, originalPermissionGroupsCount, movePlayersOutOfDeletedGroups);
      NamesAndIdsImported(f, f1, f2, gs, importedGroups, groupsToKeepLut, originalPermissionGroupsCount, movePlayersOutOfDeletedGroups);
      ReorderKeeps(f2.state, f2.viewStale, importedGroups);
      // To make the order match what was imported.
      f' := f2.(state := f2.state.(permissionGroups := importedGroups));
    }

    /** Reads imported name `i` and the id after it. */
    static method ReadNameAndId(stream: LockstepStream, ghost gs: seq<GroupNameAndId>, ghost i: nat, ghost at: nat)
      returns (groupName: string, importedId: nat)
      requires i < |gs| && stream.readPosition == at + 2 * i && at + 2 * |gs| <= |stream.tokens|
      requires stream.tokens[at..at + 2 * |gs|] == NamesAndIdsTokens(gs)
      modifies stream`readPosition
      ensures stream.readPosition == at + 2 * (i + 1)
      ensures groupName == gs[i].groupName && importedId == gs[i].id
    {
      NamesAndIdsTokensAt(gs, i);
      TokenAt(stream.tokens, at, NamesAndIdsTokens(gs), 2 * i);
      TokenAt(stream.tokens, at, NamesAndIdsTokens(gs), 2 * i + 1);
      groupName := stream.ReadString();
      importedId := stream.ReadSmallUInt();
    }

    /**
     * The first loop of `ImportPermissionGroupNamesAndIds`: each imported name
     * is looked up, or a copy of the default group is created under it while
     * deserializing for import (so without an event); the group is recorded in
     * order, kept, and mapped from its imported id.
     */
    static method ImportNames(f: Fields, stream: LockstepStream, count: nat, ghost gs: seq<GroupNameAndId>, ghost at: nat)
      returns (f': Fields, importedGroups: seq<GroupRef>, groupsToKeepLut: set<GroupRef>)
      requires f.state.defaultPermissionGroup < |f.state.groups| && count == |gs|
      requires stream.readPosition == at && at + 2 * |gs| <= |stream.tokens|
      requires stream.tokens[at..at + 2 * |gs|] == NamesAndIdsTokens(gs)
      modifies stream`readPosition
      ensures stream.readPosition == at + 2 * |gs| && (f', importedGroups, groupsToKeepLut) == NamesAfter(f, gs, count)
    {
      f', importedGroups, groupsToKeepLut := f, [], {};
      for i := 0 to count
        invariant stream.readPosition == at + 2 * i
        invariant (f', importedGroups, groupsToKeepLut) == NamesAfter(f, gs, i)
      {
        var groupName, importedId := ReadNameAndId(stream, gs, i, at);
        var group;
        f', group := ImportNameStep(f', groupName, importedId);
        importedGroups := importedGroups + [group];
        groupsToKeepLut := groupsToKeepLut + {group};
      }
    }

    /**
     * The body of the first loop of `ImportPermissionGroupNamesAndIds` after
     * the reads: the group of that name, or a new copy of the default group
     * under that name, recorded under the imported id.
     */
    static method ImportNameStep(f: Fields, groupName: string, importedId: nat) returns (f': Fields, group: GroupRef)
      requires f.state.defaultPermissionGroup < |f.state.groups|
      ensures (f', group) == NameImportStep(f, groupName, importedId)
    {
      var s := f.state;
      if groupName in s.groupsByName {
        group := s.groupsByName[groupName];
      } else {
        // DuplicatePermissionGroupInGS(groupName, defaultPermissionGroup, null): no event while deserializing for import
        group := |s.groups|;
        s := WithDuplicate(s, groupName, s.groups[s.defaultPermissionGroup].permissionValues);
      }
      f' := f.(state := s.(groupsByImportedId := s.groupsByImportedId[importedId := group]));
    }

    /**
     * The second loop of `ImportPermissionGroupNamesAndIds`: from the last of
     * the groups that were live before the import down to the first, each one
     * not kept is deleted, moving its players into the default group with
     * events suppressed, or without cleanup.
     */
    static method DeleteGroupsNotKept(f: Fields, groupsToKeepLut: set<GroupRef>, originalPermissionGroupsCount: nat,
                                      movePlayersOutOfDeletedGroups: bool, localPlayerId: nat)
      returns (f': Fields)
      requires FieldsOk(f) && StoreValid(f.state) && originalPermissionGroupsCount <= |f.state.permissionGroups|
      requires f.state.defaultPermissionGroup in groupsToKeepLut
      ensures FieldsOk(f') && StoreValid(f'.state)
      ensures DeletedNotKept(f, f', groupsToKeepLut, originalPermissionGroupsCount, movePlayersOutOfDeletedGroups, -1)
    {
      DeleteStart(f, groupsToKeepLut, originalPermissionGroupsCount, movePlayersOutOfDeletedGroups);
      f' := f;
      for i := originalPermissionGroupsCount downto 0
        invariant DeleteLoopInv(f, f', groupsToKeepLut, originalPermissionGroupsCount, movePlayersOutOfDeletedGroups, i - 1)
      {
        f' := DeleteIfNotKept(f, f', groupsToKeepLut, originalPermissionGroupsCount, movePlayersOutOfDeletedGroups, localPlayerId, i);
      }
    }

    /** One turn of the second loop of `ImportPermissionGroupNamesAndIds`. */
    static method DeleteIfNotKept(ghost f0: Fields, f: Fields, groupsToKeepLut: set<GroupRef>, ghost originalPermissionGroupsCount: nat,
                                  movePlayersOutOfDeletedGroups: bool, localPlayerId: nat, i: nat)
      returns (f': Fields)
      requires f0.state.defaultPermissionGroup in groupsToKeepLut
      requires DeleteLoopInv(f0, f, groupsToKeepLut, originalPermissionGroupsCount, movePlayersOutOfDeletedGroups, i)
      ensures DeleteLoopInv(f0, f', groupsToKeepLut, originalPermissionGroupsCount, movePlayersOutOfDeletedGroups, i - 1)
    {
      var group := f.state.permissionGroups[i];
      assert group == f0.state.permissionGroups[i] by {
        assert f.state.permissionGroups[..i + 1] == f0.state.permissionGroups[..i + 1];
      }
      if group in groupsToKeepLut {
        KeptStep(f0, f, groupsToKeepLut, originalPermissionGroupsCount, movePlayersOutOfDeletedGroups, i);
        return f;
      }
      f' := DeleteNotKeptGroup(f, group, movePlayersOutOfDeletedGroups, localPlayerId);
      DropStep(f0, f, f', groupsToKeepLut, originalPermissionGroupsCount, movePlayersOutOfDeletedGroups, i);
    }

    /**
     * A live group that is not kept and not the default group is deleted:
     * its players move to the default group with events suppressed and the
     * world view left alone, or, without moving players, without cleanup.
     */
    static method DeleteNotKeptGroup(f: Fields, group: GroupRef, movePlayersOutOfDeletedGroups: bool, localPlayerId: nat)
      returns (f': Fields)
      requires FieldsOk(f) && StoreValid(f.state) && group in f.state.permissionGroups && group != f.state.defaultPermissionGroup
      ensures FieldsOk(f') && StoreValid(f'.state) && GroupDropped(f, f', group, movePlayersOutOfDeletedGroups)
      ensures movePlayersOutOfDeletedGroups ==> Deleted(f, f', group, f.state.defaultPermissionGroup, true, localPlayerId)
      ensures !movePlayersOutOfDeletedGroups ==> f' == f.(state := WithoutGroupNoCleanup(f.state, group))
    {
      var s := f.state;
      var g := s.defaultPermissionGroup;
      assert group < |s.groups| && !s.groups[group].isDefault && !s.groups[group].isDeleted && !s.groups[g].isDeleted;
      if movePlayersOutOfDeletedGroups {
        f' := DeleteOn(f, group, g, true, localPlayerId);
        DeletedDrops(f, f', group, g, localPlayerId);
      } else {
        f' := DeleteWithoutCleanupOn(f, group);
        NoCleanupDrops(f, group);
      }
      NonEmptyStoreValid(f'.state, f'.viewStale);
    }

    /** Reads the `i`-th of the definition names written at `at`. */
    static method ReadDefinitionName(stream: LockstepStream, ghost names: seq<string>, ghost i: nat, ghost at: nat)
      returns (internalName: string)
      requires i < |names| && stream.readPosition == at + i
      requires at + |names| <= |stream.tokens| && stream.tokens[at..at + |names|] == StringsTokens(names)
      modifies stream`readPosition
      ensures stream.readPosition == at + i + 1 && internalName == names[i]
    {
      TokenAt(stream.tokens, at, StringsTokens(names), i);
      internalName := stream.ReadString();
    }

    /**
     * `ImportPermissionDefinitionsMetadata`: each local definition starts at -1,
     * and each imported name that is a local internal name maps that
     * definition to the name's imported position.
     */
    static method ImportPermissionDefinitionsMetadata(stream: LockstepStream, defs: seq<PermissionDefinition>,
                                                      defsByName: map<string, nat>, importedDefsCount: nat,
                                                      ghost names: seq<string>, ghost at: nat)
      returns (correspondingImportedDefIndexMap: seq<int>)
      requires DefsOk(defs, defsByName) && importedDefsCount == |names|
      requires stream.readPosition == at && at + |names| <= |stream.tokens| && stream.tokens[at..at + |names|] == StringsTokens(names)
      modifies stream`readPosition
      ensures stream.readPosition == at + |names|
      ensures correspondingImportedDefIndexMap == DefIndexMap(defs, names)
    {
      var m := [];
      for i := 0 to |defs|
        invariant |m| == i && forall j :: 0 <= j < i ==> m[j] == -1
      {
        m := m + [-1];
      }
      for i := 0 to importedDefsCount
        invariant stream.readPosition == at + i && |m| == |defs|
        invariant forall j :: 0 <= j < |defs| ==> m[j] == ImportedIndex(names[..i], defs[j].internalName)
      {
        var internalName := ReadDefinitionName(stream, names, i, at);
        DefIndexStep(defs, defsByName, names, i, m);
        if internalName in defsByName {
          m := m[defs[defsByName[internalName]].index := i];
        }
      }
      assert names[..|names|] == names;
      return m;
    }

    /**
     * `ImportPermissionGroupFlags`: for each live group in order, the imported
     * row is read and every flag whose definition has an imported index takes
     * the imported flag; the cached values count as stale from here on.
     */
    static method ImportPermissionGroupFlags(f: Fields, stream: LockstepStream, importedDefsCount: nat,
                                             defsCorrespondingImportedIndex: seq<int>,
                                             ghost names: seq<string>, ghost rows: seq<seq<bool>>, ghost at: nat)
      returns (f': Fields)
      requires FieldsOk(f) && StoreValid(f.state) && importedDefsCount == |names|
      requires defsCorrespondingImportedIndex == DefIndexMap(f.state.permissionDefs, names)
      requires |rows| == |f.state.permissionGroups| && forall k :: 0 <= k < |rows| ==> |rows[k]| == |names|
      requires stream.readPosition == at && at + |rows| <= |stream.tokens| && stream.tokens[at..at + |rows|] == FlagsTokens(rows)
      modifies stream`readPosition
      ensures FieldsOk(f') && StoreValid(f'.state) && f'.viewStale
      ensures f' == f.(state := f.state.(groups := f'.state.groups), viewStale := true)
      ensures FlagsImported(f.state, f'.state.groups, rows, names, |rows|)
    {
      FlagsImportFacts(f.state, f.viewStale);
      f' := f.(viewStale := true);
      var live := f.state.permissionGroups;
      for i := 0 to |live|
        invariant stream.readPosition == at + i
        invariant f' == f.(state := f.state.(groups := f'.state.groups), viewStale := true)
        invariant FlagsImported(f.state, f'.state.groups, rows, names, i)
      {
        var importedFlags := ReadFlagsRow(stream, importedDefsCount, rows, i, at);
        f' := ImportGroupFlags(f, f', names, rows, i, defsCorrespondingImportedIndex, importedFlags);
      }
      FlagsImportedSized(f.state, f'.state.groups, rows, names);
      FlagsImportKeeps(f.state, f.viewStale, f'.state.groups);
    }

    /** Reads the imported row of live group `i`. */
    static method ReadFlagsRow(stream: LockstepStream, importedDefsCount: nat, ghost rows: seq<seq<bool>>, ghost i: nat, ghost at: nat)
      returns (importedFlags: seq<bool>)
      requires i < |rows| && |rows[i]| == importedDefsCount && stream.readPosition == at + i
      requires at + |rows| <= |stream.tokens| && stream.tokens[at..at + |rows|] == FlagsTokens(rows)
      modifies stream`readPosition
      ensures stream.readPosition == at + i + 1 && importedFlags == rows[i]
    {
      TokenAt(stream.tokens, at, FlagsTokens(rows), i);
      importedFlags := stream.ReadFlags(importedDefsCount);
    }

    /** One turn of `ImportPermissionGroupFlags`: the `i`-th live group takes its imported row. */
    static method ImportGroupFlags(ghost f0: Fields, f: Fields, ghost names: seq<string>, ghost rows: seq<seq<bool>>, i: nat,
                                   defsCorrespondingImportedIndex: seq<int>, importedFlags: seq<bool>)
      returns (f': Fields)
      requires i < |f0.state.permissionGroups| && i < |rows| && Distinct(f0.state.permissionGroups) && LiveInArena(f0.state)
      requires GroupFlagsSized(f0.state.groups, |f0.state.permissionDefs|)
      requires defsCorrespondingImportedIndex == DefIndexMap(f0.state.permissionDefs, names)
      requires importedFlags == rows[i] && |importedFlags| == |names|
      requires f == f0.(state := f0.state.(groups := f.state.groups), viewStale := true)
      requires FlagsImported(f0.state, f.state.groups, rows, names, i)
      ensures f' == f0.(state := f0.state.(groups := f'.state.groups), viewStale := true)
      ensures FlagsImported(f0.state, f'.state.groups, rows, names, i + 1)
    {
      var s := f.state;
      var group := s.permissionGroups[i];
      FlagsNotYet(f0.state, s.groups, rows, names, i);
      var permissionValues := OverwriteFlags(s.groups[group].permissionValues, importedFlags, defsCorrespondingImportedIndex);
      OverwrittenByIndexMap(s.groups[group].permissionValues, permissionValues, importedFlags, s.permissionDefs, names,
                            defsCorrespondingImportedIndex);
      FlagsStep(f0.state, s.groups, rows, names, i, permissionValues);
      f' := f.(state := s.(groups := s.groups[group := s.groups[group].(permissionValues := permissionValues)]));
    }

    /** The inner loop of `ImportPermissionGroupFlags`: every flag with an imported index takes the imported flag. */
    static method OverwriteFlags(permissionValues: seq<bool>, importedFlags: seq<bool>, defsCorrespondingImportedIndex: seq<int>)
      returns (permissionValues': seq<bool>)
      requires |defsCorrespondingImportedIndex| == |permissionValues|
      requires forall j :: 0 <= j < |permissionValues| ==> -1 <= defsCorrespondingImportedIndex[j] < |importedFlags|
      ensures |permissionValues'| == |permissionValues|
      ensures forall j :: 0 <= j < |permissionValues| && defsCorrespondingImportedIndex[j] == -1 ==> permissionValues'[j] == permissionValues[j]
      ensures forall j :: 0 <= j < |permissionValues| && defsCorrespondingImportedIndex[j] != -1 ==>
                permissionValues'[j] == importedFlags[defsCorrespondingImportedIndex[j]]
    {
      permissionValues' := permissionValues;
      for j := 0 to |permissionValues|
        invariant |permissionValues'| == |permissionValues|
        invariant forall k :: j <= k < |permissionValues| ==> permissionValues'[k] == permissionValues[k]
        invariant forall k :: 0 <= k < j ==>
                    permissionValues'[k] == if defsCorrespondingImportedIndex[k] != -1 then importedFlags[defsCorrespondingImportedIndex[k]] else permissionValues[k]
      {
        var correspondingImportedIndex := defsCorrespondingImportedIndex[j];
        if correspondingImportedIndex != -1 {
          permissionValues' := permissionValues'[j := importedFlags[correspondingImportedIndex]];
        }
      }
    }

    /**
     * `OnImportFinishingUp`: for the manager's own import, when groups were
     * imported the view is cleared so the local player's group is viewed
     * afresh, then the world is viewed as the local player's group.
     */
    method OnImportFinishingUp(isPartOfCurrentImport: bool, importOptions: PermissionImportExportOptions?, localPlayerData: PlayerRef)
      requires Valid()
      requires isPartOfCurrentImport ==> optionsFromExport != null && importOptions != null
      requires isPartOfCurrentImport ==> localPlayerData < |fields.state.players| && fields.state.players[localPlayerData].permissionGroup.Some?
      modifies this`fields
      ensures Valid()
      ensures !isPartOfCurrentImport ==> fields == old(fields)
      ensures isPartOfCurrentImport ==>
                var cleared := optionsFromExport.includePermissionGroups && importOptions.includePermissionGroups;
                var s := if cleared then old(fields.state).(viewWorldAsGroup := None) else old(fields.state);
                && ViewedAs(s, fields.state, old(fields.state.players[localPlayerData].permissionGroup.value), old(fields.resolved), fields.resolved)
                && (cleared ==> !fields.viewStale)
                && fields == old(fields).(state := fields.state, viewStale := fields.viewStale, resolved := fields.resolved)
    {
      if !isPartOfCurrentImport {
        return;
      }
      assert PlayerOk(RosterOf(fields.state), localPlayerData);
      if optionsFromExport.includePermissionGroups && importOptions.includePermissionGroups {
        // Force a refresh even if the group is the same: flags may have changed.
        ViewClearedKeeps(fields.state, fields.viewStale);
        fields := fields.(state := fields.state.(viewWorldAsGroup := None), viewStale := false);
      }
      SetGroupToViewWorldAs(fields.state.players[localPlayerData].permissionGroup.value);
    }

    /** `OnImportFinished`: for the manager's own import, the export's options and the imported-id table are dropped. */
    method OnImportFinished(isPartOfCurrentImport: bool)
      requires Valid()
      modifies this`fields, this`optionsFromExport
      ensures Valid()
      ensures !isPartOfCurrentImport ==> fields == old(fields) && optionsFromExport == old(optionsFromExport)
      ensures isPartOfCurrentImport ==> fields == old(fields).(state := old(fields.state).(groupsByImportedId := map[]))
                                        && optionsFromExport == null
    {
      if !isPartOfCurrentImport {
        return;
      }
      ImportedIdsKeep(fields.state, fields.viewStale, map[]);
      fields := fields.(state := fields.state.(groupsByImportedId := map[]));
      optionsFromExport := null;
    }

    // ---------------------------------------------------------------- Player data

    /**
     * `PermissionsPlayerData.OnPlayerDataInit`: unless the data is about to be
     * imported, the player's group becomes the default group; the member lists
     * are left to the setter.
     */
    method OnPlayerDataInit(p: PlayerRef, isAboutToBeImported: bool)
      requires Valid() && StoreValid(fields.state) && p < |fields.state.players|
      requires fields.state.players[p].indexInPlayersInGroup == -1 && fields.state.players[p].indexInOnlinePlayersInGroup == -1
      modifies this`fields
      ensures Valid()
      ensures isAboutToBeImported ==> fields == old(fields)
      ensures !isAboutToBeImported ==>
                fields == old(fields).(state := old(fields.state).(players := old(fields.state.players)[p :=
                            old(fields.state.players[p]).(permissionGroup := Some(old(fields.state.defaultPermissionGroup)))]))
    {
      if isAboutToBeImported {
        return;
      }
      var s := fields.state;
      var d := s.players[p].(permissionGroup := Some(s.defaultPermissionGroup));
      assert PlayerOk(RosterOf(s), p);
      PlayerRecordKeeps(s, fields.viewStale, p, d);
      fields := fields.(state := s.(players := s.players[p := d]));
    }

    /**
     * `PermissionsPlayerData.PersistPlayerDataWhileOffline`: a player in a
     * live group is kept while offline exactly when that group is not the
     * default group.
     */
    function PersistPlayerDataWhileOffline(p: PlayerRef): (persist: bool)
      reads this`fields
      requires Valid() && StoreValid(fields.state) && p < |fields.state.players| && fields.state.players[p].permissionGroup.Some?
      ensures var g := fields.state.players[p].permissionGroup.value;
              g in fields.state.permissionGroups ==> (persist <==> g != fields.state.defaultPermissionGroup)
    {
      assert PlayerOk(RosterOf(fields.state), p);
      var s := fields.state;
      var g := s.players[p].permissionGroup.value;
      assert g in s.permissionGroups ==> (s.groups[g].isDefault <==> g == s.defaultPermissionGroup) by {
        if g in s.permissionGroups {
          var i :| 0 <= i < |s.permissionGroups| && s.permissionGroups[i] == g;
          assert Indexed(s.groups, s.groupsById, s.groupsByName, s.nextGroupId, s.defaultPermissionGroup, s.permissionGroups[i]);
        }
      }
      !s.groups[g].isDefault
    }

    /** `PermissionsPlayerData.Serialize`: the id of the player's group, and nothing else. */
    method SerializePlayerData(stream: LockstepStream, p: PlayerRef, isExport: bool)
      requires Valid() && p < |fields.state.players| && fields.state.players[p].permissionGroup.Some?
      modifies stream`tokens
      ensures fields.state.players[p].permissionGroup.value < |fields.state.groups|
      ensures stream.tokens == old(stream.tokens) + [UInt(fields.state.groups[fields.state.players[p].permissionGroup.value].id)]
    {
      assert PlayerOk(RosterOf(fields.state), p);
      stream.WriteSmallUInt(fields.state.groups[fields.state.players[p].permissionGroup.value].id);
    }

    /** `PermissionsPlayerData.Deserialize`: one id is read into `deserializedId`; the group is resolved later. */
    method DeserializePlayerData(stream: LockstepStream, p: PlayerRef, isImport: bool, importedDataVersion: nat)
      requires Valid() && p < |fields.state.players|
      requires stream.readPosition < |stream.tokens| && stream.tokens[stream.readPosition].UInt?
      modifies this`fields, stream`readPosition
      ensures Valid() && stream.readPosition == old(stream.readPosition) + 1
      ensures fields == old(fields).(state := old(fields.state).(players := old(fields.state.players)[p :=
                old(fields.state.players[p]).(deserializedId := stream.tokens[old(stream.readPosition)].n)]))
    {
      var s := fields.state;
      var deserializedId := stream.ReadSmallUInt();
      assert PlayerOk(RosterOf(s), p);
      PlayerRecordKeeps(s, fields.viewStale, p, s.players[p].(deserializedId := deserializedId));
      fields := fields.(state := s.(players := s.players[p := s.players[p].(deserializedId := deserializedId)]));
    }

    /**
     * The player data round trip: the data of player `p` serialized into a
     * stream and deserialized into the record of player `q` gives `q` the id
     * of `p`'s group as `deserializedId`, and changes nothing else.
     */
    method PlayerDataRoundTrip(p: PlayerRef, q: PlayerRef)
      requires Valid() && p < |fields.state.players| && fields.state.players[p].permissionGroup.Some? && q < |fields.state.players|
      modifies this`fields
      ensures Valid() && old(fields.state.players[p].permissionGroup.value) < |old(fields.state.groups)|
      ensures fields == old(fields).(state := old(fields.state).(players := old(fields.state.players)[q :=
                old(fields.state.players[q]).(deserializedId := old(fields.state.groups[fields.state.players[p].permissionGroup.value].id))]))
    {
      var stream := new LockstepStream([]);
      SerializePlayerData(stream, p, true);
      DeserializePlayerData(stream, q, true, 0);
    }
  }
}
