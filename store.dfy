/**
 * The consistency the permission manager keeps between its group arena, the
 * ordered list of live groups, and the two lookups by id and by name; and the
 * consistency between the definitions and the lookup by internal name. These
 * are stated over plain values so the manager's methods and the lemmas here
 * can share them.
 */
module Store {
  import opened Wrappers
  import opened Records
  import opened Text
  import opened ArrList

  /**
   * Group `g` is found under its id and its name, its id was handed out
   * already, it is the default group exactly when it is `default`, and its name
   * is trimmed and not empty.
   */
  predicate Indexed(groups: seq<PermissionGroup>, byId: map<nat, GroupRef>, byName: map<string, GroupRef>,
                    nextId: nat, default: GroupRef, g: GroupRef)
    requires g < |groups|
  {
    var group := groups[g];
    && group.id in byId && byId[group.id] == g
    && group.groupName in byName && byName[group.groupName] == g
    && group.id < nextId
    && (group.isDefault <==> g == default)
    && Trimmed(group.groupName) && group.groupName != ""
  }

  /** The live list starts with the default group, named "Default". */
  predicate StoreHead(groups: seq<PermissionGroup>, live: seq<GroupRef>, default: GroupRef) {
    |live| > 0 && live[0] == default && default < |groups| && groups[default].groupName == DefaultGroupName
  }

  /** Every live group is in the arena and indexed. */
  predicate LiveIndexed(groups: seq<PermissionGroup>, live: seq<GroupRef>, byId: map<nat, GroupRef>,
                        byName: map<string, GroupRef>, default: GroupRef, nextId: nat) {
    forall i :: 0 <= i < |live| ==> live[i] < |groups| && Indexed(groups, byId, byName, nextId, default, live[i])
  }

  /** The lookup by id reaches live groups only, each under its own id. */
  predicate ByIdOk(groups: seq<PermissionGroup>, live: seq<GroupRef>, byId: map<nat, GroupRef>) {
    forall id :: id in byId ==> byId[id] in live && byId[id] < |groups| && groups[byId[id]].id == id
  }

  /** The lookup by name reaches live groups only, each under its own name. */
  predicate ByNameOk(groups: seq<PermissionGroup>, live: seq<GroupRef>, byName: map<string, GroupRef>) {
    forall n :: n in byName ==> byName[n] in live && byName[n] < |groups| && groups[byName[n]].groupName == n
  }

  /**
   * The live groups `live` are distinct, start with the default group (named
   * "Default"), and are exactly the groups the two lookups reach.
   */
  predicate StoreOk(groups: seq<PermissionGroup>, live: seq<GroupRef>, byId: map<nat, GroupRef>,
                    byName: map<string, GroupRef>, default: GroupRef, nextId: nat)
  {
    && StoreHead(groups, live, default)
    && LiveIndexed(groups, live, byId, byName, default, nextId)
    && Distinct(live)
    && ByIdOk(groups, live, byId)
    && ByNameOk(groups, live, byName)
  }

  /** A group of the arena is live exactly when it is not marked deleted. */
  predicate LiveOk(groups: seq<PermissionGroup>, live: seq<GroupRef>) {
    forall h :: 0 <= h < |groups| ==> (h in live <==> !groups[h].isDeleted)
  }

  /** Every group holds one flag per definition. */
  predicate GroupFlagsSized(groups: seq<PermissionGroup>, defsCount: nat) {
    forall g :: 0 <= g < |groups| ==> |groups[g].permissionValues| == defsCount
  }

  /** Definition `i` sits at position `i` and the lookup by internal name is its inverse. */
  predicate DefsOk(defs: seq<PermissionDefinition>, byName: map<string, nat>) {
    && (forall i :: 0 <= i < |defs| ==> defs[i].index == i && defs[i].internalName in byName && byName[defs[i].internalName] == i)
    && (forall n :: n in byName ==> byName[n] < |defs| && defs[byName[n]].internalName == n)
  }

  /** The values of the group the world is viewed as are cached in every definition. */
  predicate ViewOk(groups: seq<PermissionGroup>, defs: seq<PermissionDefinition>, view: Option<GroupRef>) {
    view.Some? ==>
      && view.value < |groups| && |groups[view.value].permissionValues| == |defs|
      && forall i :: 0 <= i < |defs| ==> defs[i].valueForLocalPlayer == groups[view.value].permissionValues[i]
  }

  /** The two records agree on what the store looks at. */
  predicate SameIdentity(a: PermissionGroup, b: PermissionGroup) {
    a.id == b.id && a.groupName == b.groupName && a.isDefault == b.isDefault
  }


  /** The store's consistency depends only on each group's id, name and default flag. */
  lemma StoreOkFrame(g1: seq<PermissionGroup>, g2: seq<PermissionGroup>, live: seq<GroupRef>,
                     byId: map<nat, GroupRef>, byName: map<string, GroupRef>, default: GroupRef, nextId: nat)
    requires |g1| == |g2| && forall h :: 0 <= h < |g1| ==> SameIdentity(g1[h], g2[h])
    requires StoreOk(g1, live, byId, byName, default, nextId)
    ensures StoreOk(g2, live, byId, byName, default, nextId)
  {
    forall i | 0 <= i < |live|
      ensures live[i] < |g2| && Indexed(g2, byId, byName, nextId, default, live[i])
    {
      assert Indexed(g1, byId, byName, nextId, default, live[i]);
      assert SameIdentity(g1[live[i]], g2[live[i]]);
    }
    forall id | id in byId ensures g2[byId[id]].id == id {
      assert SameIdentity(g1[byId[id]], g2[byId[id]]);
    }
    forall n | n in byName ensures g2[byName[n]].groupName == n {
      assert SameIdentity(g1[byName[n]], g2[byName[n]]);
    }
    assert SameIdentity(g1[default], g2[default]);
  }

  /** Changes to groups that keep what the store looks at, and which groups are deleted, keep the store consistent. */
  lemma StoreFrame(g1: seq<PermissionGroup>, g2: seq<PermissionGroup>, live: seq<GroupRef>,
                   byId: map<nat, GroupRef>, byName: map<string, GroupRef>, default: GroupRef, nextId: nat)
    requires |g1| == |g2| && forall h :: 0 <= h < |g1| ==> SameIdentity(g1[h], g2[h]) && g1[h].isDeleted == g2[h].isDeleted
    requires StoreOk(g1, live, byId, byName, default, nextId) && LiveOk(g1, live)
    ensures StoreOk(g2, live, byId, byName, default, nextId) && LiveOk(g2, live)
  {
    StoreOkFrame(g1, g2, live, byId, byName, default, nextId);
  }

  /** The next id is never in use. */
  lemma NextIdFree(groups: seq<PermissionGroup>, live: seq<GroupRef>, byId: map<nat, GroupRef>,
                   byName: map<string, GroupRef>, default: GroupRef, nextId: nat)
    requires StoreOk(groups, live, byId, byName, default, nextId)
    ensures nextId !in byId
  {
    forall i | 0 <= i < |live| ensures groups[live[i]].id < nextId {
      assert Indexed(groups, byId, byName, nextId, default, live[i]);
    }
  }

  /** Handing out one more id keeps the store consistent. */
  lemma BumpNextId(groups: seq<PermissionGroup>, live: seq<GroupRef>, byId: map<nat, GroupRef>,
                   byName: map<string, GroupRef>, default: GroupRef, nextId: nat)
    requires StoreOk(groups, live, byId, byName, default, nextId)
    ensures StoreOk(groups, live, byId, byName, default, nextId + 1)
  {
    forall i | 0 <= i < |live|
      ensures Indexed(groups, byId, byName, nextId + 1, default, live[i])
    {
      assert Indexed(groups, byId, byName, nextId, default, live[i]);
    }
  }

  /** A live group is found under its own id and its own name. */
  lemma FoundById(groups: seq<PermissionGroup>, live: seq<GroupRef>, byId: map<nat, GroupRef>,
                  byName: map<string, GroupRef>, default: GroupRef, nextId: nat, g: GroupRef)
    requires StoreOk(groups, live, byId, byName, default, nextId)
    requires g in live
    ensures g < |groups| && Indexed(groups, byId, byName, nextId, default, g)
  {
    var i :| 0 <= i < |live| && live[i] == g;
    assert Indexed(groups, byId, byName, nextId, default, live[i]);
  }

  // ---------------------------------------------------------------- Adding a group

  /** Appending a new, unindexed, non-default group keeps every live group indexed. */
  lemma AddIndexed(groups: seq<PermissionGroup>, live: seq<GroupRef>, byId: map<nat, GroupRef>,
                   byName: map<string, GroupRef>, default: GroupRef, nextId: nat, group: PermissionGroup)
    requires LiveIndexed(groups, live, byId, byName, default, nextId) && default < |groups|
    requires group.id < nextId && group.id !in byId && !group.isDefault
    requires group.groupName !in byName && Trimmed(group.groupName) && group.groupName != ""
    ensures LiveIndexed(groups + [group], live + [|groups|], byId[group.id := |groups|],
                        byName[group.groupName := |groups|], default, nextId)
  {
    var g := |groups|;
    var groups', live' := groups + [group], live + [g];
    var byId', byName' := byId[group.id := g], byName[group.groupName := g];
    forall i | 0 <= i < |live'|
      ensures live'[i] < |groups'| && Indexed(groups', byId', byName', nextId, default, live'[i])
    {
      if i < |live| {
        assert Indexed(groups, byId, byName, nextId, default, live[i]);
      }
    }
  }

  /** Appending a new group keeps the lookups pointing at live groups under their own keys. */
  lemma AddLookups(groups: seq<PermissionGroup>, live: seq<GroupRef>, byId: map<nat, GroupRef>,
                   byName: map<string, GroupRef>, group: PermissionGroup)
    requires ByIdOk(groups, live, byId) && ByNameOk(groups, live, byName)
    ensures ByIdOk(groups + [group], live + [|groups|], byId[group.id := |groups|])
    ensures ByNameOk(groups + [group], live + [|groups|], byName[group.groupName := |groups|])
  {
  }

  /** Appending the handle of a new arena slot keeps the live list free of repeats. */
  lemma AddDistinct(groups: seq<PermissionGroup>, live: seq<GroupRef>, group: PermissionGroup)
    requires Distinct(live) && forall i :: 0 <= i < |live| ==> live[i] < |groups|
    ensures Distinct(live + [|groups|])
  {
  }

  /**
   * `RegisterCreatedPermissionGroup`: a group that is not the default, with an
   * id handed out already but not in use and an unused, trimmed, non-empty
   * name, appended to the arena and the live list and indexed by both
   * lookups, keeps the store consistent.
   */
  lemma AddGroupKeeps(groups: seq<PermissionGroup>, live: seq<GroupRef>, byId: map<nat, GroupRef>,
                      byName: map<string, GroupRef>, default: GroupRef, nextId: nat, group: PermissionGroup)
    requires StoreOk(groups, live, byId, byName, default, nextId)
    requires group.id < nextId && group.id !in byId && !group.isDefault
    requires group.groupName !in byName && Trimmed(group.groupName) && group.groupName != ""
    ensures StoreOk(groups + [group], live + [|groups|], byId[group.id := |groups|],
                    byName[group.groupName := |groups|], default, nextId)
  {
    AddIndexed(groups, live, byId, byName, default, nextId, group);
    AddLookups(groups, live, byId, byName, group);
    AddDistinct(groups, live, group);
  }

  /** Appending a group that is not deleted, and making it live, keeps "live exactly when not deleted". */
  lemma AddLive(groups: seq<PermissionGroup>, live: seq<GroupRef>, group: PermissionGroup)
    requires LiveOk(groups, live) && !group.isDeleted
    requires forall i :: 0 <= i < |live| ==> live[i] < |groups|
    ensures LiveOk(groups + [group], live + [|groups|])
  {
    assert |groups| !in live;
  }

  /**
   * The first group of an empty store, the default group named "Default",
   * makes a consistent store on its own.
   */
  lemma FirstGroupOk(groups: seq<PermissionGroup>, group: PermissionGroup, nextId: nat)
    requires group.isDefault && group.groupName == DefaultGroupName && group.id < nextId
    ensures StoreOk(groups + [group], [|groups|], map[group.id := |groups|],
                    map[DefaultGroupName := |groups|], |groups|, nextId)
  {
    var g := |groups|;
    assert DefaultGroupName == ['D', 'e', 'f', 'a', 'u', 'l', 't'];
    assert Indexed(groups + [group], map[group.id := g], map[DefaultGroupName := g], nextId, g, g);
  }

  // ---------------------------------------------------------------- Removing a group

  /** Taking out live group `g` leaves every other live group, and only those, live. */
  lemma RemoveLive(live: seq<GroupRef>, g: GroupRef)
    requires Distinct(live)
    ensures Distinct(Remove(live, g))
    ensures forall h :: h in Remove(live, g) <==> h in live && h != g
  {
    RemoveKeepsDistinct(live, g);
    forall h ensures h in Remove(live, g) <==> h in live && h != g {
      RemoveMembers(live, g, h);
    }
  }

  /** A group indexed beside `g` stays indexed once `g`'s two keys are gone. */
  lemma RemoveIndexedOne(groups: seq<PermissionGroup>, byId: map<nat, GroupRef>, byName: map<string, GroupRef>,
                         default: GroupRef, nextId: nat, g: GroupRef, h: GroupRef)
    requires g < |groups| && h < |groups| && g != h
    requires Indexed(groups, byId, byName, nextId, default, g) && Indexed(groups, byId, byName, nextId, default, h)
    ensures Indexed(groups, byId - {groups[g].id}, byName - {groups[g].groupName}, nextId, default, h)
  {
  }

  /** Taking out a live group keeps every remaining group indexed. */
  lemma RemoveIndexed(groups: seq<PermissionGroup>, live: seq<GroupRef>, byId: map<nat, GroupRef>,
                      byName: map<string, GroupRef>, default: GroupRef, nextId: nat, g: GroupRef)
    requires LiveIndexed(groups, live, byId, byName, default, nextId) && Distinct(live)
    requires g < |groups| && Indexed(groups, byId, byName, nextId, default, g)
    ensures LiveIndexed(groups, Remove(live, g), byId - {groups[g].id}, byName - {groups[g].groupName}, default, nextId)
  {
    RemoveLive(live, g);
    var live' := Remove(live, g);
    forall i | 0 <= i < |live'|
      ensures live'[i] < |groups| && Indexed(groups, byId - {groups[g].id}, byName - {groups[g].groupName}, nextId, default, live'[i])
    {
      var h := live'[i];
      assert h in live && h != g;
      var k :| 0 <= k < |live| && live[k] == h;
      RemoveIndexedOne(groups, byId, byName, default, nextId, g, live[k]);
    }
  }

  /** Taking out a live group and its two keys keeps the lookups pointing at live groups. */
  lemma RemoveLookups(groups: seq<PermissionGroup>, live: seq<GroupRef>, byId: map<nat, GroupRef>,
                      byName: map<string, GroupRef>, g: GroupRef)
    requires ByIdOk(groups, live, byId) && ByNameOk(groups, live, byName) && Distinct(live)
    requires g < |groups|
    ensures ByIdOk(groups, Remove(live, g), byId - {groups[g].id})
    ensures ByNameOk(groups, Remove(live, g), byName - {groups[g].groupName})
  {
    RemoveLive(live, g);
  }

  /** Taking out a group other than the default keeps the default at the head. */
  lemma RemoveHead(groups: seq<PermissionGroup>, live: seq<GroupRef>, default: GroupRef, g: GroupRef)
    requires StoreHead(groups, live, default) && g != default
    ensures StoreHead(groups, Remove(live, g), default)
  {
  }

  /**
   * `DeletePermissionGroupInGSInternal`, the store part: a live group other
   * than the default, taken out of the live list and both lookups, leaves a
   * consistent store.
   */
  lemma RemoveGroupKeeps(groups: seq<PermissionGroup>, live: seq<GroupRef>, byId: map<nat, GroupRef>,
                         byName: map<string, GroupRef>, default: GroupRef, nextId: nat, g: GroupRef)
    requires StoreOk(groups, live, byId, byName, default, nextId)
    requires g in live && !groups[g].isDefault
    ensures StoreOk(groups, Remove(live, g), byId - {groups[g].id}, byName - {groups[g].groupName}, default, nextId)
    ensures forall h :: h in Remove(live, g) <==> h in live && h != g
  {
    FoundById(groups, live, byId, byName, default, nextId, g);
    RemoveHead(groups, live, default, g);
    RemoveIndexed(groups, live, byId, byName, default, nextId, g);
    RemoveLive(live, g);
    RemoveLookups(groups, live, byId, byName, g);
  }

  // ---------------------------------------------------------------- Renaming a group

  /** Renaming a live non-default group to an unused name keeps every live group indexed. */
  lemma RenameIndexed(groups: seq<PermissionGroup>, live: seq<GroupRef>, byId: map<nat, GroupRef>,
                      byName: map<string, GroupRef>, default: GroupRef, nextId: nat, g: GroupRef, newName: string)
    requires StoreOk(groups, live, byId, byName, default, nextId)
    requires g in live && g != default
    requires newName !in byName && Trimmed(newName) && newName != ""
    ensures LiveIndexed(groups[g := groups[g].(groupName := newName)], live, byId,
                        (byName - {groups[g].groupName})[newName := g], default, nextId)
  {
    FoundById(groups, live, byId, byName, default, nextId, g);
    var groups' := groups[g := groups[g].(groupName := newName)];
    var byName' := (byName - {groups[g].groupName})[newName := g];
    forall i | 0 <= i < |live|
      ensures live[i] < |groups'| && Indexed(groups', byId, byName', nextId, default, live[i])
    {
      assert Indexed(groups, byId, byName, nextId, default, live[i]);
    }
  }

  /** Renaming a live group moves its key in the name lookup and leaves the rest pointing at live groups. */
  lemma RenameLookups(groups: seq<PermissionGroup>, live: seq<GroupRef>, byId: map<nat, GroupRef>,
                      byName: map<string, GroupRef>, g: GroupRef, newName: string)
    requires ByIdOk(groups, live, byId) && ByNameOk(groups, live, byName)
    requires g in live && g < |groups| && groups[g].groupName in byName && byName[groups[g].groupName] == g
    ensures ByIdOk(groups[g := groups[g].(groupName := newName)], live, byId)
    ensures ByNameOk(groups[g := groups[g].(groupName := newName)], live, (byName - {groups[g].groupName})[newName := g])
  {
  }

  /**
   * `RenamePermissionGroupInGS`, the store part: a live group other than the
   * default given an unused, trimmed, non-empty name, with the name lookup
   * moved along, leaves a consistent store.
   */
  lemma RenameKeeps(groups: seq<PermissionGroup>, live: seq<GroupRef>, byId: map<nat, GroupRef>,
                    byName: map<string, GroupRef>, default: GroupRef, nextId: nat, g: GroupRef, newName: string)
    requires StoreOk(groups, live, byId, byName, default, nextId)
    requires g in live && !groups[g].isDefault
    requires newName !in byName && Trimmed(newName) && newName != ""
    ensures StoreOk(groups[g := groups[g].(groupName := newName)], live, byId,
                    (byName - {groups[g].groupName})[newName := g], default, nextId)
  {
    FoundById(groups, live, byId, byName, default, nextId, g);
    RenameIndexed(groups, live, byId, byName, default, nextId, g, newName);
    RenameLookups(groups, live, byId, byName, g, newName);
  }
}
