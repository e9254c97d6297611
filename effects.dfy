/**
 * What the permission manager's operations do, stated on the bundled state:
 * the events a deletion raises, the refusals of the mutators, the effect of
 * each operation that also switches the view or resolves resolvers, and the
 * payloads its input actions carry.
 */
module Effects {
  import opened Wrappers
  import opened Records
  import opened Text
  import opened ArrList
  import opened Lockstep
  import opened Membership
  import opened Store
  import opened ResolverRegistry
  import opened Codec
  import opened ImportExportOptions
  import opened Consistency
  import opened Transitions


  /** Internal names that appear once each, as `Dictionary.Add` demands. */
  predicate DistinctNames(defs: seq<PermissionDefinition>) {
    forall i, j :: 0 <= i < j < |defs| ==> defs[i].internalName != defs[j].internalName
  }

  /** The events `DuplicatePermissionGroupInGS` raises: none while an import is deserializing, otherwise the duplicated event. */
  function DuplicatedEvents(created: GroupRef, source: GroupRef, initiator: Option<PlayerRef>, isDeserializingForImport: bool): seq<Event> {
    if isDeserializingForImport then [] else [OnPermissionGroupDuplicated(created, source, initiator)]
  }

  /**
   * The events a deletion raises: one per member of the deleted group `g`,
   * from the last to the first, each naming `g` as the player's previous
   * group, and then the group-deleted event.
   */
  function DeletionEvents(ms: seq<PlayerRef>, g: GroupRef): seq<Event>
  {
    if ms == [] then [OnPermissionGroupDeleted(g)]
    else [OnPlayerPermissionGroupChanged(ms[|ms| - 1], Some(g))] + DeletionEvents(ms[..|ms| - 1], g)
  }

  /**
   * A deletion raises exactly one event per member, walking the member list
   * from its end, and the group-deleted event comes last.
   */
  lemma {:induction false} DeletionEventsOrder(ms: seq<PlayerRef>, g: GroupRef)
    ensures |DeletionEvents(ms, g)| == |ms| + 1
    ensures forall k :: 0 <= k < |ms| ==> DeletionEvents(ms, g)[k] == OnPlayerPermissionGroupChanged(ms[|ms| - 1 - k], Some(g))
    ensures DeletionEvents(ms, g)[|ms|] == OnPermissionGroupDeleted(g)
  {
    if ms != [] {
      DeletionEventsOrder(ms[..|ms| - 1], g);
    }
  }

  /** Some player of `ms` is the local player. */
  predicate LocalAmong(players: seq<PermissionsPlayerData>, ms: seq<PlayerRef>, localPlayerId: nat) {
    ms != [] && ((ms[0] < |players| && players[ms[0]].playerId == localPlayerId) || LocalAmong(players, ms[1..], localPlayerId))
  }

  /** What `DeletePermissionGroupInGS` refuses: the default group, a deleted group, itself, or a deleted target. */
  predicate DeleteRefused(groups: seq<PermissionGroup>, g: GroupRef, t: GroupRef)
    requires g < |groups| && t < |groups|
  {
    groups[g].isDefault || groups[g].isDeleted || g == t || groups[t].isDeleted
  }

  /**
   * What `SetGroupToViewWorldAs(g)` does to the state and to the log of
   * `Resolve` calls: nothing for the group already viewed; otherwise the view
   * switches to `g` and every resolver in the array is resolved exactly once,
   * from the top slot down.
   */
  ghost predicate ViewedAs(s: ManagerState, s': ManagerState, g: GroupRef, log: seq<ResolverRef>, log': seq<ResolverRef>) {
    if s.viewWorldAsGroup == Some(g) then s' == s && log' == log
    else
      && g < |s.groups| && |s.groups[g].permissionValues| == |s.permissionDefs|
      && ViewSwitched(s, s', g)
      && |log| <= |log'| && log'[..|log|] == log && multiset(log'[|log|..]) == Live(s.allPermissionResolvers)
      && log'[|log|..] == TopDown(s.allPermissionResolvers)
  }

  /**
   * What `SetPermissionValueInGS(g, d, value)` does: nothing when the flag
   * already has the value; otherwise the flag changes (and the cached value
   * when `g` is viewed), the non-null resolvers of the definition are resolved
   * in order only when `g` is viewed, and the value-changed event is raised.
   */
  ghost predicate ValueSet(s: ManagerState, s': ManagerState, g: GroupRef, d: nat, value: bool,
                           events: seq<Event>, events': seq<Event>, log: seq<ResolverRef>, log': seq<ResolverRef>)
  {
    && g < |s.groups| && d < |s.groups[g].permissionValues| && d < |s.permissionDefs|
    && if s.groups[g].permissionValues[d] == value then s' == s && events' == events && log' == log
    else
      && s' == WithValue(s, g, d, value)
      && events' == events + [OnPermissionValueChanged(g, d)]
      && log' == log + if s.viewWorldAsGroup == Some(g) then Present(s.permissionDefs[d].resolvers) else []
  }

  /**
   * What `SetPlayerDataPermissionGroup(p, g, prev)` does: the setter moves `p`
   * into `g`, and the view follows when `p` is the local player.
   */
  ghost predicate PlayerGroupSet(s: ManagerState, s': ManagerState, p: PlayerRef, g: GroupRef, localPlayerId: nat,
                                 log: seq<ResolverRef>, log': seq<ResolverRef>)
  {
    && MembershipOk(RosterOf(s)) && p < |s.players| && g < |s.groups|
    && var moved := WithPlayerGroup(s, p, Some(g));
       if s.players[p].playerId == localPlayerId then ViewedAs(moved, s', g, log, log') else s' == moved && log' == log
  }

  /**
   * What `DeletePermissionGroupInGSInternal(g, t, suppress)` does to the
   * state: `WithoutGroup`, and, unless suppressed, the view follows the local
   * player when it was a member.
   */
  ghost predicate GroupDeleted(s: ManagerState, s': ManagerState, g: GroupRef, t: GroupRef, suppress: bool,
                               localPlayerId: nat, log: seq<ResolverRef>, log': seq<ResolverRef>)
  {
    && MembershipOk(RosterOf(s)) && g < |s.groups| && t < |s.groups| && !s.groups[g].isDeleted
    && var without := WithoutGroup(s, g, t);
       if !suppress && LocalAmong(s.players, s.groups[g].playersInGroup, localPlayerId) then ViewedAs(without, s', t, log, log')
    else s' == without && log' == log
  }

  /** `RenamePermissionGroupInGS` refuses the default group, an empty name, the group's own name and a name in use. */
  predicate RenameRefused(s: ManagerState, g: GroupRef, name: string)
    requires g < |s.groups|
  {
    s.groups[g].isDefault || name == "" || s.groups[g].groupName == name || name in s.groupsByName
  }

  /** The stem and number `GetFirstUnusedGroupName` tries: the name without its number, a space, and `k`. */
  function NumberedName(desiredName: string, k: nat): string {
    NameStem(desiredName) + " " + NatToString(k)
  }

  /** The keys of `keys` that are numbered names from `k` on. */
  ghost function TakenFrom(keys: set<string>, desiredName: string, k: nat): set<string> {
    set n | n in keys && exists j: nat :: j >= k && n == NumberedName(desiredName, j)
  }

  /** A taken numbered name leaves the set of taken names from the next number on. */
  lemma TakenShrinks(keys: set<string>, desiredName: string, k: nat)
    requires NumberedName(desiredName, k) in keys
    ensures |TakenFrom(keys, desiredName, k + 1)| < |TakenFrom(keys, desiredName, k)|
  {
    var n := NumberedName(desiredName, k);
    var a, b := TakenFrom(keys, desiredName, k + 1), TakenFrom(keys, desiredName, k);
    assert a <= b;
    assert b == a + (b - a) && a * (b - a) == {};
    assert n in b - a by {
      assert n in TakenFrom(keys, desiredName, k);
      if n in TakenFrom(keys, desiredName, k + 1) {
        var j: nat :| j >= k + 1 && n == NumberedName(desiredName, j);
        var prefix := NameStem(desiredName) + " ";
        assert NatToString(j) == n[|prefix|..] == NatToString(k);
        NatToStringInjective(j, k);
      }
    }
  }

  /** A view change keeps the invariant; the imported flags are fresh in the cache once the view switched. */
  lemma ViewedAsKeeps(s: ManagerState, viewStale: bool, s': ManagerState, g: GroupRef, log: seq<ResolverRef>, log': seq<ResolverRef>)
    requires StateOk(s, viewStale) && ViewedAs(s, s', g, log, log')
    ensures StateOk(s', viewStale && s.viewWorldAsGroup == Some(g))
  {
    if s.viewWorldAsGroup != Some(g) {
      ViewSwitchedKeeps(s, viewStale, s', g);
    }
  }

  /** In a consistent registry a resolver is a key of the lookup exactly when it is in the array. */
  lemma KeyIffInArray(reg: Registry, r: ResolverRef)
    ensures RegistryOk(reg) ==> (r in reg.lut <==> Some(r) in reg.resolvers)
  {
    if RegistryOk(reg) && Some(r) in reg.resolvers {
      var i :| 0 <= i < |reg.resolvers| && reg.resolvers[i] == Some(r);
      assert reg.resolvers[i].value == r;
    }
  }

  // ---------------------------------------------------------------- The manager's fields

  /**
   * Everything a `PermissionManager` updates, kept in one field: the bundled
   * state, whether the cached values may be stale after an import, the custom
   * events raised so far, the resolvers resolved so far (`Resolve` calls, in
   * order), whether the manager is initialized, and the options read from an
   * export while it is being imported.
   */
  datatype Fields = Fields(state: ManagerState, viewStale: bool, events: seq<Event>, resolved: seq<ResolverRef>,
                           isInitialized: bool)

  /** The manager's invariant, on its fields. */
  ghost predicate FieldsOk(f: Fields) {
    StateOk(f.state, f.viewStale)
  }

  /** `SetPermissionValueInGS(g, d, value)` on the fields: `ValueSet`, and nothing else changes. */
  ghost predicate ValueUpdated(f: Fields, f': Fields, g: GroupRef, d: nat, value: bool) {
    && ValueSet(f.state, f'.state, g, d, value, f.events, f'.events, f.resolved, f'.resolved)
    && f' == f.(state := f'.state, events := f'.events, resolved := f'.resolved)
  }

  /**
   * `SetPlayerPermissionGroupInGS(p, g)` on the fields: a deleted group and
   * the player's own group change nothing; otherwise `PlayerGroupSet`, and the
   * player-changed event names the previous group.
   */
  ghost predicate PlayerMoved(f: Fields, f': Fields, p: PlayerRef, g: GroupRef, localPlayerId: nat) {
    && p < |f.state.players| && g < |f.state.groups|
    && if f.state.groups[g].isDeleted || f.state.players[p].permissionGroup == Some(g) then f' == f
       else
         && PlayerGroupSet(f.state, f'.state, p, g, localPlayerId, f.resolved, f'.resolved)
         && f' == f.(state := f'.state, viewStale := f'.viewStale, resolved := f'.resolved,
                     events := f.events + [OnPlayerPermissionGroupChanged(p, f.state.players[p].permissionGroup)])
  }

  /**
   * `DuplicatePermissionGroupInGS(groupName, src, initiator, isDeserializingForImport)`
   * on the fields: the trimmed name is refused when empty or in use;
   * otherwise the copy of `src` is created under it as the next group.
   */
  ghost predicate Duplicated(f: Fields, f': Fields, groupName: string, src: GroupRef, initiator: Option<PlayerRef>,
                             isDeserializingForImport: bool, created: Option<GroupRef>) {
    && src < |f.state.groups|
    && var name := Trim(groupName);
       if name == "" || name in f.state.groupsByName then created.None? && f' == f
       else
         && created == Some(|f.state.groups|)
         && f' == f.(state := WithDuplicate(f.state, name, f.state.groups[src].permissionValues),
                     events := f.events + DuplicatedEvents(|f.state.groups|, src, initiator, isDeserializingForImport))
  }

  /**
   * `DeletePermissionGroupInGSInternal(g, t, suppress)` on the fields:
   * `GroupDeleted`, and, unless suppressed, the deletion's events.
   */
  ghost predicate Deleted(f: Fields, f': Fields, g: GroupRef, t: GroupRef, suppress: bool, localPlayerId: nat) {
    && g < |f.state.groups|
    && GroupDeleted(f.state, f'.state, g, t, suppress, localPlayerId, f.resolved, f'.resolved)
    && f' == f.(state := f'.state, viewStale := if suppress then f.viewStale else f'.viewStale, resolved := f'.resolved,
                events := if suppress then f.events else f.events + DeletionEvents(f.state.groups[g].playersInGroup, g))
  }

  /** `DeletePermissionGroupInGS(g, t)` on the fields: the refusals change nothing; otherwise `Deleted`, not suppressed. */
  ghost predicate DeletedUnlessRefused(f: Fields, f': Fields, g: GroupRef, t: GroupRef, localPlayerId: nat) {
    && g < |f.state.groups| && t < |f.state.groups|
    && if DeleteRefused(f.state.groups, g, t) then f' == f else Deleted(f, f', g, t, false, localPlayerId)
  }

  /**
   * `RenamePermissionGroupInGS(g, newGroupName)` on the fields: the refusals
   * of `RenameRefused` change nothing; otherwise `WithName` and the renamed
   * event with the previous name.
   */
  ghost predicate Renamed(f: Fields, f': Fields, g: GroupRef, newGroupName: string) {
    && g < |f.state.groups|
    && if RenameRefused(f.state, g, Trim(newGroupName)) then f' == f
       else f' == f.(state := WithName(f.state, g, Trim(newGroupName)),
                     events := f.events + [OnPermissionGroupRenamed(g, f.state.groups[g].groupName)])
  }

  // ---------------------------------------------------------------- Input action payloads

  /** What `SendSetPermissionValueIA` writes: the group id, the definition index, and the value as one flag. */
  function SetPermissionValuePayload(groupId: nat, defIndex: nat, value: bool): seq<Token> {
    [UInt(groupId), UInt(defIndex), Flags([value])]
  }

  /** What `SendDuplicatePermissionGroupIA` writes: the trimmed name, then the source group's id. */
  function DuplicatePayload(groupName: string, groupId: nat): seq<Token> {
    [Str(groupName), UInt(groupId)]
  }

  /** What `SendDeletePermissionGroupIA` writes: the group's id, then the target group's id. */
  function DeletePayload(groupId: nat, targetId: nat): seq<Token> {
    [UInt(groupId), UInt(targetId)]
  }

  /** What `SendRenamePermissionGroupIA` writes: the group's id, then the trimmed name. */
  function RenamePayload(groupId: nat, groupName: string): seq<Token> {
    [UInt(groupId), Str(groupName)]
  }

  /** What `SendSetPlayerPermissionGroupIA` writes: the player reference, then the group's id. */
  function SetPlayerGroupPayload(player: PlayerRef, groupId: nat): seq<Token> {
    [UInt(player), UInt(groupId)]
  }

  /** The unread part of a stream starts with `payload`. */
  predicate Starts(unread: seq<Token>, payload: seq<Token>) {
    |payload| <= |unread| && unread[..|payload|] == payload
  }

  /** A payload at the head of the tokens unread from `pos` sits at `pos` onwards. */
  lemma PayloadAt(tokens: seq<Token>, pos: nat, payload: seq<Token>)
    requires payload != [] && Starts(if pos <= |tokens| then tokens[pos..] else [], payload)
    ensures pos + |payload| <= |tokens| && tokens[pos..pos + |payload|] == payload
  {
    assert tokens[pos..][..|payload|] == tokens[pos..pos + |payload|];
  }

  /** A token of a payload that sits at `pos`. */
  lemma TokenAt(tokens: seq<Token>, pos: nat, payload: seq<Token>, k: nat)
    requires pos + |payload| <= |tokens| && tokens[pos..pos + |payload|] == payload && k < |payload|
    ensures tokens[pos + k] == payload[k]
  {
    assert tokens[pos..pos + |payload|][k] == tokens[pos + k];
  }

  /** A stretch of a payload that sits at `pos`. */
  lemma TokensAt(tokens: seq<Token>, pos: nat, payload: seq<Token>, a: nat, b: nat)
    requires pos + |payload| <= |tokens| && tokens[pos..pos + |payload|] == payload && a <= b <= |payload|
    ensures tokens[pos + a..pos + b] == payload[a..b]
  {
    forall k | 0 <= k < b - a ensures tokens[pos + a..pos + b][k] == payload[a..b][k] {
      TokenAt(tokens, pos, payload, a + k);
    }
  }

  /** A payload of two parts that sits at `pos`: each part sits where it starts. */
  lemma PayloadSplit(tokens: seq<Token>, pos: nat, x: seq<Token>, y: seq<Token>)
    requires pos + |x + y| <= |tokens| && tokens[pos..pos + |x + y|] == x + y
    ensures pos + |x| + |y| <= |tokens| && tokens[pos..pos + |x|] == x && tokens[pos + |x|..pos + |x| + |y|] == y
  {
    assert tokens[pos..pos + |x|] == tokens[pos..pos + |x + y|][..|x|];
    assert tokens[pos + |x|..pos + |x| + |y|] == tokens[pos..pos + |x + y|][|x|..];
  }
}
