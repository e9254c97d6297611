/**
 * The player membership tracker: every group keeps a dense list of its
 * members and a dense list of its online members, and every player keeps its
 * positions in its group's two lists (-1 when it is not in one). Removal is a
 * swap with the last entry, after which the moved player's position is patched.
 *
 * The players and groups are taken together as a `Roster`, addressed by handle.
 */
module Membership {
  import opened Wrappers
  import opened Records
  import opened ArrList

  datatype Roster = Roster(players: seq<PermissionsPlayerData>, groups: seq<PermissionGroup>)

  /** Position `i` of group `g`'s member list holds a player of `g` whose stored position is `i`. */
  predicate Member(r: Roster, g: GroupRef, i: nat)
    requires g < |r.groups| && i < |r.groups[g].playersInGroup|
  {
    var q := r.groups[g].playersInGroup[i];
    q < |r.players| && r.players[q].permissionGroup == Some(g) && r.players[q].indexInPlayersInGroup == i
  }

  /** Position `i` of group `g`'s online list holds a player of `g` whose stored online position is `i`. */
  predicate OnlineMember(r: Roster, g: GroupRef, i: nat)
    requires g < |r.groups| && i < |r.groups[g].onlinePlayersInGroup|
  {
    var q := r.groups[g].onlinePlayersInGroup[i];
    q < |r.players| && r.players[q].permissionGroup == Some(g) && r.players[q].indexInOnlinePlayersInGroup == i
  }

  /** The lists of a group that is not deleted agree with the positions its members store. */
  predicate ListsOk(r: Roster, g: GroupRef)
    requires g < |r.groups|
  {
    !r.groups[g].isDeleted ==>
      && (forall i :: 0 <= i < |r.groups[g].playersInGroup| ==> Member(r, g, i))
      && (forall i :: 0 <= i < |r.groups[g].onlinePlayersInGroup| ==> OnlineMember(r, g, i))
  }

  /** What a player stores is consistent on its own. */
  predicate PlayerShapeOk(d: PermissionsPlayerData) {
    && d.indexInPlayersInGroup >= -1 && d.indexInOnlinePlayersInGroup >= -1
    && (d.indexInOnlinePlayersInGroup != -1 ==> d.indexInPlayersInGroup != -1)
    && (d.isOffline ==> d.indexInOnlinePlayersInGroup == -1)
    && (d.permissionGroup.None? ==> d.indexInPlayersInGroup == -1)
  }

  /**
   * A player's stored positions point at itself in its group's lists, as long
   * as that group is not deleted.
   */
  predicate PlayerOk(r: Roster, p: PlayerRef)
    requires p < |r.players|
  {
    var d := r.players[p];
    && PlayerShapeOk(d)
    && (d.permissionGroup.Some? ==>
         var g := d.permissionGroup.value;
         && g < |r.groups|
         && (!r.groups[g].isDeleted ==>
              && (d.indexInPlayersInGroup != -1 ==>
                   d.indexInPlayersInGroup < |r.groups[g].playersInGroup|
                   && r.groups[g].playersInGroup[d.indexInPlayersInGroup] == p)
              && (d.indexInOnlinePlayersInGroup != -1 ==>
                   d.indexInOnlinePlayersInGroup < |r.groups[g].onlinePlayersInGroup|
                   && r.groups[g].onlinePlayersInGroup[d.indexInOnlinePlayersInGroup] == p)))
  }

  predicate MembershipOk(r: Roster) {
    && (forall p :: 0 <= p < |r.players| ==> PlayerOk(r, p))
    && (forall g :: 0 <= g < |r.groups| ==> ListsOk(r, g))
  }

  /** Every list entry other than `p` in a group that is not deleted is consistent. */
  predicate EntriesOkBut(r: Roster, g: GroupRef, p: PlayerRef)
    requires g < |r.groups|
  {
    !r.groups[g].isDeleted ==>
      && (forall i :: 0 <= i < |r.groups[g].playersInGroup| && r.groups[g].playersInGroup[i] != p ==> Member(r, g, i))
      && (forall i :: 0 <= i < |r.groups[g].onlinePlayersInGroup| && r.groups[g].onlinePlayersInGroup[i] != p ==> OnlineMember(r, g, i))
  }

  /** Everything is consistent except, possibly, what concerns `p`. */
  predicate AllButOk(r: Roster, p: PlayerRef) {
    && (forall q :: 0 <= q < |r.players| && q != p ==> PlayerOk(r, q))
    && (forall g :: 0 <= g < |r.groups| ==> EntriesOkBut(r, g, p))
  }

  /**
   * `p` appears in the lists of groups that are not deleted only in group
   * `at`, at position `index` of its member list and `onlineIndex` of its online list.
   */
  predicate PlacedAt(r: Roster, p: PlayerRef, at: Option<GroupRef>, index: int, onlineIndex: int) {
    forall g :: 0 <= g < |r.groups| && !r.groups[g].isDeleted ==>
      && (forall i :: 0 <= i < |r.groups[g].playersInGroup| && r.groups[g].playersInGroup[i] == p ==> at == Some(g) && i == index)
      && (forall i :: 0 <= i < |r.groups[g].onlinePlayersInGroup| && r.groups[g].onlinePlayersInGroup[i] == p ==> at == Some(g) && i == onlineIndex)
  }

  /**
   * The state in the middle of moving `p` from one group to another: all else
   * is consistent, `p` is in no list of a group that is not deleted, and an
   * offline `p` stores no online position.
   */
  predicate Detached(r: Roster, p: PlayerRef)
    requires p < |r.players|
  {
    && AllButOk(r, p)
    && PlacedAt(r, p, None, -1, -1)
    && (r.players[p].isOffline ==> r.players[p].indexInOnlinePlayersInGroup == -1)
  }

  // ---------------------------------------------------------------- The list operations

  /** Every list entry is a player handle. */
  predicate HandlesOk(r: Roster, g: GroupRef)
    requires g < |r.groups|
  {
    (forall i :: 0 <= i < |r.groups[g].playersInGroup| ==> r.groups[g].playersInGroup[i] < |r.players|)
    && (forall i :: 0 <= i < |r.groups[g].onlinePlayersInGroup| ==> r.groups[g].onlinePlayersInGroup[i] < |r.players|)
  }

  /** Swap-removal from `g`'s member list at `i`, patching the position of the player moved into `i`. */
  function RemoveMember(r: Roster, g: GroupRef, i: nat): (after: Roster)
    requires g < |r.groups| && i < |r.groups[g].playersInGroup| && HandlesOk(r, g)
    ensures |after.players| == |r.players| && |after.groups| == |r.groups|
  {
    var members := r.groups[g].playersInGroup;
    var count := |members| - 1;
    var groups := r.groups[g := r.groups[g].(playersInGroup := SwapRemove(members, i))];
    if count == i then Roster(r.players, groups)
    else
      var other := members[count];
      Roster(r.players[other := r.players[other].(indexInPlayersInGroup := i)], groups)
  }

  /** `RemoveFromOnlinePlayersInGroup`: the same for `g`'s online list. */
  function RemoveOnlineMember(r: Roster, g: GroupRef, i: nat): (after: Roster)
    requires g < |r.groups| && i < |r.groups[g].onlinePlayersInGroup| && HandlesOk(r, g)
    ensures |after.players| == |r.players| && |after.groups| == |r.groups|
  {
    var members := r.groups[g].onlinePlayersInGroup;
    var count := |members| - 1;
    var groups := r.groups[g := r.groups[g].(onlinePlayersInGroup := SwapRemove(members, i))];
    if count == i then Roster(r.players, groups)
    else
      var other := members[count];
      Roster(r.players[other := r.players[other].(indexInOnlinePlayersInGroup := i)], groups)
  }

  /** `p` is appended to `g`'s member list and stores its new position. */
  function AddMember(r: Roster, g: GroupRef, p: PlayerRef): (after: Roster)
    requires g < |r.groups| && p < |r.players|
    ensures |after.players| == |r.players| && |after.groups| == |r.groups|
  {
    var members := r.groups[g].playersInGroup + [p];
    Roster(r.players[p := r.players[p].(indexInPlayersInGroup := |members| - 1)],
           r.groups[g := r.groups[g].(playersInGroup := members)])
  }

  /** `p` is appended to `g`'s online list and stores its new online position. */
  function AddOnlineMember(r: Roster, g: GroupRef, p: PlayerRef): (after: Roster)
    requires g < |r.groups| && p < |r.players|
    ensures |after.players| == |r.players| && |after.groups| == |r.groups|
  {
    var members := r.groups[g].onlinePlayersInGroup + [p];
    Roster(r.players[p := r.players[p].(indexInOnlinePlayersInGroup := |members| - 1)],
           r.groups[g := r.groups[g].(onlinePlayersInGroup := members)])
  }

  /** Every list of a consistent roster holds player handles. */
  lemma HandlesOfConsistent(r: Roster, g: GroupRef)
    requires g < |r.groups| && ListsOk(r, g) && !r.groups[g].isDeleted
    ensures HandlesOk(r, g)
  {
    forall i | 0 <= i < |r.groups[g].playersInGroup|
      ensures r.groups[g].playersInGroup[i] < |r.players|
    {
      assert Member(r, g, i);
    }
    forall i | 0 <= i < |r.groups[g].onlinePlayersInGroup|
      ensures r.groups[g].onlinePlayersInGroup[i] < |r.players|
    {
      assert OnlineMember(r, g, i);
    }
  }

  // ---------------------------------------------------------------- The setter

  /**
   * `PlayerDataPermissionGroupSetter`: `p` leaves the lists of its previous
   * group (unless that group is deleted or `p` is not listed there), and joins
   * the member list of `group` and, unless offline, its online list; with no
   * group both stored positions become -1. Setting the group `p` already has
   * changes nothing.
   */
  function SetGroup(r: Roster, p: PlayerRef, group: Option<GroupRef>): (after: Roster)
    requires MembershipOk(r) && p < |r.players| && (group.Some? ==> group.value < |r.groups|)
    ensures |after.players| == |r.players| && |after.groups| == |r.groups|
  {
    if r.players[p].permissionGroup == group then r
    else
      var r2 := Detach(r, p, group);
      if group.None? then
        r2.(players := r2.players[p := r2.players[p].(indexInOnlinePlayersInGroup := -1, indexInPlayersInGroup := -1)])
      else
        Attach(r2, p, group.value)
  }

  /** The first half of the setter: `p` takes `group` and leaves the lists of its previous group. */
  function Detach(r: Roster, p: PlayerRef, group: Option<GroupRef>): (after: Roster)
    requires MembershipOk(r) && p < |r.players|
    ensures |after.players| == |r.players| && |after.groups| == |r.groups|
  {
    var prevGroup := r.players[p].permissionGroup;
    assert PlayerOk(r, p);
    var r1 := r.(players := r.players[p := r.players[p].(permissionGroup := group)]);
    var indexInGroup := r.players[p].indexInPlayersInGroup;
    if indexInGroup != -1 && prevGroup.Some? && !r.groups[prevGroup.value].isDeleted then
      var prev := prevGroup.value;
      assert ListsOk(r, prev);
      HandlesOfConsistent(r, prev);
      var r3 := RemoveMember(r1, prev, indexInGroup);
      var indexInOnline := r.players[p].indexInOnlinePlayersInGroup;
      if indexInOnline != -1 then RemoveOnlineMember(r3, prev, indexInOnline) else r3
    else r1
  }

  /** The second half of the setter: `p` joins `g`'s member list and, unless offline, its online list. */
  function Attach(r: Roster, p: PlayerRef, g: GroupRef): (after: Roster)
    requires p < |r.players| && g < |r.groups|
    ensures |after.players| == |r.players| && |after.groups| == |r.groups|
  {
    var r4 := AddMember(r, g, p);
    if r4.players[p].isOffline then r4 else AddOnlineMember(r4, g, p)
  }

  // ---------------------------------------------------------------- Consistency of the setter

  /** Changing only `p`'s group keeps everything else consistent and leaves `p` where its old positions say. */
  lemma {:induction false} RetargetKeeps(r: Roster, p: PlayerRef, group: Option<GroupRef>)
    requires MembershipOk(r) && p < |r.players|
    ensures var d := r.players[p];
            var r1 := r.(players := r.players[p := d.(permissionGroup := group)]);
            && AllButOk(r1, p)
            && (if d.permissionGroup.Some? && d.permissionGroup.value < |r.groups|
                   && !r.groups[d.permissionGroup.value].isDeleted
                then PlacedAt(r1, p, d.permissionGroup, d.indexInPlayersInGroup, d.indexInOnlinePlayersInGroup)
                else PlacedAt(r1, p, None, -1, -1))
  {
    var d := r.players[p];
    var r1 := r.(players := r.players[p := d.(permissionGroup := group)]);
    assert PlayerOk(r, p);
    forall q | 0 <= q < |r1.players| && q != p
      ensures PlayerOk(r1, q)
    {
      assert PlayerOk(r, q);
    }
    forall g | 0 <= g < |r1.groups|
      ensures EntriesOkBut(r1, g, p)
    {
      assert ListsOk(r, g);
      if !r.groups[g].isDeleted {
        forall i | 0 <= i < |r.groups[g].playersInGroup| && r.groups[g].playersInGroup[i] != p
          ensures Member(r1, g, i)
        {
          assert Member(r, g, i);
        }
        forall i | 0 <= i < |r.groups[g].onlinePlayersInGroup| && r.groups[g].onlinePlayersInGroup[i] != p
          ensures OnlineMember(r1, g, i)
        {
          assert OnlineMember(r, g, i);
        }
      }
    }
    var at := if d.permissionGroup.Some? && d.permissionGroup.value < |r.groups| && !r.groups[d.permissionGroup.value].isDeleted then d.permissionGroup else None;
    var index := if at.Some? then d.indexInPlayersInGroup else -1;
    var onlineIndex := if at.Some? then d.indexInOnlinePlayersInGroup else -1;
    forall g | 0 <= g < |r1.groups| && !r1.groups[g].isDeleted
      ensures forall i :: 0 <= i < |r1.groups[g].playersInGroup| && r1.groups[g].playersInGroup[i] == p ==> at == Some(g) && i == index
      ensures forall i :: 0 <= i < |r1.groups[g].onlinePlayersInGroup| && r1.groups[g].onlinePlayersInGroup[i] == p ==> at == Some(g) && i == onlineIndex
    {
      assert ListsOk(r, g);
      forall i | 0 <= i < |r1.groups[g].playersInGroup| && r1.groups[g].playersInGroup[i] == p
        ensures at == Some(g) && i == index
      {
        assert Member(r, g, i);
      }
      forall i | 0 <= i < |r1.groups[g].onlinePlayersInGroup| && r1.groups[g].onlinePlayersInGroup[i] == p
        ensures at == Some(g) && i == onlineIndex
      {
        assert OnlineMember(r, g, i);
      }
    }
    assert PlacedAt(r1, p, at, index, onlineIndex);
  }

  /** Swap-removing `p` from its group's member list keeps the rest consistent and takes `p` out of that list. */
  lemma {:induction false} RemoveMemberKeeps(r: Roster, p: PlayerRef, g: GroupRef, index: nat, onlineIndex: int)
    requires p < |r.players| && g < |r.groups| && !r.groups[g].isDeleted && HandlesOk(r, g)
    requires AllButOk(r, p) && PlacedAt(r, p, Some(g), index, onlineIndex)
    requires index < |r.groups[g].playersInGroup| && r.groups[g].playersInGroup[index] == p
    ensures AllButOk(RemoveMember(r, g, index), p)
    ensures PlacedAt(RemoveMember(r, g, index), p, Some(g), -1, onlineIndex)
    ensures RemoveMember(r, g, index).players[p] == r.players[p]
  {
    var members := r.groups[g].playersInGroup;
    var count := |members| - 1;
    var r2 := RemoveMember(r, g, index);
    var remaining := r2.groups[g].playersInGroup;
    assert |remaining| == count;
    assert forall i :: 0 <= i < count && i != index ==> remaining[i] == members[i];
    assert index < count ==> remaining[index] == members[count];
    var other := members[count];
    assert EntriesOkBut(r, g, p);
    if index < count {
      assert other != p;
      assert Member(r, g, count);
    }
    forall i | 0 <= i < |members| && i != index
      ensures members[i] != p
    {
    }
    forall q | 0 <= q < |r2.players| && q != p
      ensures PlayerOk(r2, q)
    {
      assert PlayerOk(r, q);
      var d := r.players[q];
      if q != other && d.permissionGroup == Some(g) && d.indexInPlayersInGroup != -1 {
        var j := d.indexInPlayersInGroup;
        assert members[j] == q;
        assert j != index && j != count;
        assert remaining[j] == q;
      }
    }
    forall h | 0 <= h < |r2.groups|
      ensures EntriesOkBut(r2, h, p)
    {
      assert EntriesOkBut(r, h, p);
      if h == g {
        forall i | 0 <= i < |remaining| && remaining[i] != p
          ensures Member(r2, g, i)
        {
          if i != index {
            assert Member(r, g, i);
            if index < count {
              assert Member(r, g, count);
            }
          }
        }
        forall i | 0 <= i < |r2.groups[g].onlinePlayersInGroup| && r2.groups[g].onlinePlayersInGroup[i] != p
          ensures OnlineMember(r2, g, i)
        {
          assert OnlineMember(r, g, i);
        }
      } else if !r.groups[h].isDeleted {
        forall i | 0 <= i < |r2.groups[h].playersInGroup| && r2.groups[h].playersInGroup[i] != p
          ensures Member(r2, h, i)
        {
          assert Member(r, h, i);
        }
        forall i | 0 <= i < |r2.groups[h].onlinePlayersInGroup| && r2.groups[h].onlinePlayersInGroup[i] != p
          ensures OnlineMember(r2, h, i)
        {
          assert OnlineMember(r, h, i);
        }
      }
    }
    forall h | 0 <= h < |r2.groups| && !r2.groups[h].isDeleted
      ensures forall i :: 0 <= i < |r2.groups[h].playersInGroup| && r2.groups[h].playersInGroup[i] == p ==> Some(g) == Some(h) && i == -1
      ensures forall i :: 0 <= i < |r2.groups[h].onlinePlayersInGroup| && r2.groups[h].onlinePlayersInGroup[i] == p ==> Some(g) == Some(h) && i == onlineIndex
    {
    }
  }

  /** Swap-removing `p` from its group's online list keeps the rest consistent and takes `p` out of that list. */
  lemma {:induction false} RemoveOnlineMemberKeeps(r: Roster, p: PlayerRef, g: GroupRef, index: int, onlineIndex: nat)
    requires p < |r.players| && g < |r.groups| && !r.groups[g].isDeleted && HandlesOk(r, g)
    requires AllButOk(r, p) && PlacedAt(r, p, Some(g), index, onlineIndex)
    requires onlineIndex < |r.groups[g].onlinePlayersInGroup| && r.groups[g].onlinePlayersInGroup[onlineIndex] == p
    ensures AllButOk(RemoveOnlineMember(r, g, onlineIndex), p)
    ensures PlacedAt(RemoveOnlineMember(r, g, onlineIndex), p, Some(g), index, -1)
    ensures RemoveOnlineMember(r, g, onlineIndex).players[p] == r.players[p]
  {
    var members := r.groups[g].onlinePlayersInGroup;
    var count := |members| - 1;
    var r2 := RemoveOnlineMember(r, g, onlineIndex);
    var remaining := r2.groups[g].onlinePlayersInGroup;
    assert |remaining| == count;
    assert forall i :: 0 <= i < count && i != onlineIndex ==> remaining[i] == members[i];
    assert onlineIndex < count ==> remaining[onlineIndex] == members[count];
    var other := members[count];
    assert EntriesOkBut(r, g, p);
    if onlineIndex < count {
      assert other != p;
      assert OnlineMember(r, g, count);
    }
    forall q | 0 <= q < |r2.players| && q != p
      ensures PlayerOk(r2, q)
    {
      assert PlayerOk(r, q);
      var d := r.players[q];
      if q != other && d.permissionGroup == Some(g) && d.indexInOnlinePlayersInGroup != -1 {
        var j := d.indexInOnlinePlayersInGroup;
        assert members[j] == q;
        assert j != onlineIndex && j != count;
        assert remaining[j] == q;
      }
    }
    forall h | 0 <= h < |r2.groups|
      ensures EntriesOkBut(r2, h, p)
    {
      assert EntriesOkBut(r, h, p);
      if h == g {
        forall i | 0 <= i < |remaining| && remaining[i] != p
          ensures OnlineMember(r2, g, i)
        {
          if i != onlineIndex {
            assert OnlineMember(r, g, i);
            if onlineIndex < count {
              assert OnlineMember(r, g, count);
            }
          }
        }
        forall i | 0 <= i < |r2.groups[g].playersInGroup| && r2.groups[g].playersInGroup[i] != p
          ensures Member(r2, g, i)
        {
          assert Member(r, g, i);
        }
      } else if !r.groups[h].isDeleted {
        forall i | 0 <= i < |r2.groups[h].playersInGroup| && r2.groups[h].playersInGroup[i] != p
          ensures Member(r2, h, i)
        {
          assert Member(r, h, i);
        }
        forall i | 0 <= i < |r2.groups[h].onlinePlayersInGroup| && r2.groups[h].onlinePlayersInGroup[i] != p
          ensures OnlineMember(r2, h, i)
        {
          assert OnlineMember(r, h, i);
        }
      }
    }
    forall h | 0 <= h < |r2.groups| && !r2.groups[h].isDeleted
      ensures forall i :: 0 <= i < |r2.groups[h].playersInGroup| && r2.groups[h].playersInGroup[i] == p ==> Some(g) == Some(h) && i == index
      ensures forall i :: 0 <= i < |r2.groups[h].onlinePlayersInGroup| && r2.groups[h].onlinePlayersInGroup[i] == p ==> Some(g) == Some(h) && i == -1
    {
    }
  }

  /** A detached `p` joining group `g` (and its online list unless offline) makes the roster consistent. */
  lemma {:induction false} AttachKeeps(r: Roster, p: PlayerRef, g: GroupRef)
    requires p < |r.players| && g < |r.groups| && Detached(r, p)
    requires r.players[p].permissionGroup == Some(g)
    ensures MembershipOk(Attach(r, p, g))
  {
    var r4 := AddMember(r, g, p);
    var r5 := if r4.players[p].isOffline then r4 else AddOnlineMember(r4, g, p);
    var d := r5.players[p];
    assert d.permissionGroup == Some(g) && d.indexInPlayersInGroup == |r5.groups[g].playersInGroup| - 1;
    assert r5.groups[g].playersInGroup == r.groups[g].playersInGroup + [p];
    assert r4.players[p].isOffline ==> r5.groups[g].onlinePlayersInGroup == r.groups[g].onlinePlayersInGroup;
    assert !r4.players[p].isOffline ==>
      (r5.groups[g].onlinePlayersInGroup == r.groups[g].onlinePlayersInGroup + [p]
       && d.indexInOnlinePlayersInGroup == |r5.groups[g].onlinePlayersInGroup| - 1);
    assert PlayerOk(r5, p);
    forall q | 0 <= q < |r5.players| && q != p
      ensures PlayerOk(r5, q)
    {
      assert PlayerOk(r, q);
    }
    forall h | 0 <= h < |r5.groups|
      ensures ListsOk(r5, h)
    {
      assert EntriesOkBut(r, h, p);
      if !r.groups[h].isDeleted {
        forall i | 0 <= i < |r5.groups[h].playersInGroup|
          ensures Member(r5, h, i)
        {
          if h != g || i < |r.groups[g].playersInGroup| {
            assert Member(r, h, i);
          }
        }
        forall i | 0 <= i < |r5.groups[h].onlinePlayersInGroup|
          ensures OnlineMember(r5, h, i)
        {
          if h != g || i < |r.groups[g].onlinePlayersInGroup| {
            assert OnlineMember(r, h, i);
          }
        }
      }
    }
  }

  /** A detached `p` with no group and both positions -1 makes the roster consistent. */
  lemma {:induction false} ClearKeeps(r: Roster, p: PlayerRef)
    requires p < |r.players| && Detached(r, p) && r.players[p].permissionGroup == None
    ensures MembershipOk(r.(players := r.players[p := r.players[p].(indexInOnlinePlayersInGroup := -1, indexInPlayersInGroup := -1)]))
  {
    var r5 := r.(players := r.players[p := r.players[p].(indexInOnlinePlayersInGroup := -1, indexInPlayersInGroup := -1)]);
    assert PlayerOk(r5, p);
    forall q | 0 <= q < |r5.players| && q != p
      ensures PlayerOk(r5, q)
    {
      assert PlayerOk(r, q);
    }
    forall h | 0 <= h < |r5.groups|
      ensures ListsOk(r5, h)
    {
      assert EntriesOkBut(r, h, p);
      if !r.groups[h].isDeleted {
        forall i | 0 <= i < |r5.groups[h].playersInGroup|
          ensures Member(r5, h, i)
        {
          assert Member(r, h, i);
        }
        forall i | 0 <= i < |r5.groups[h].onlinePlayersInGroup|
          ensures OnlineMember(r5, h, i)
        {
          assert OnlineMember(r, h, i);
        }
      }
    }
  }

  /** The setter keeps the membership tracker consistent. */
  lemma {:induction false} DetachKeeps(r: Roster, p: PlayerRef, group: Option<GroupRef>)
    requires MembershipOk(r) && p < |r.players|
    ensures Detached(Detach(r, p, group), p)
    ensures Detach(r, p, group).players[p] == r.players[p].(permissionGroup := group)
  {
    var d := r.players[p];
    var prevGroup := d.permissionGroup;
    assert PlayerOk(r, p);
    var r1 := r.(players := r.players[p := d.(permissionGroup := group)]);
    RetargetKeeps(r, p, group);
    var indexInGroup := d.indexInPlayersInGroup;
    if indexInGroup != -1 && prevGroup.Some? && !r.groups[prevGroup.value].isDeleted {
      var prev := prevGroup.value;
      assert ListsOk(r, prev);
      HandlesOfConsistent(r, prev);
      assert HandlesOk(r1, prev);
      RemoveMemberKeeps(r1, p, prev, indexInGroup, d.indexInOnlinePlayersInGroup);
      var r3 := RemoveMember(r1, prev, indexInGroup);
      var indexInOnline := d.indexInOnlinePlayersInGroup;
      if indexInOnline != -1 {
        assert r3.groups[prev].onlinePlayersInGroup == r.groups[prev].onlinePlayersInGroup;
        RemoveOnlineMemberKeeps(r3, p, prev, -1, indexInOnline);
      }
    }
  }

  /** The setter keeps the membership tracker consistent. */
  lemma {:induction false} SetGroupKeepsMembership(r: Roster, p: PlayerRef, group: Option<GroupRef>)
    requires MembershipOk(r) && p < |r.players| && (group.Some? ==> group.value < |r.groups|)
    ensures MembershipOk(SetGroup(r, p, group))
  {
    if r.players[p].permissionGroup != group {
      var r2 := Detach(r, p, group);
      DetachKeeps(r, p, group);
      if group.None? {
        ClearKeeps(r2, p);
      } else {
        AttachKeeps(r2, p, group.value);
      }
    }
  }

  /** Two records of a player that differ at most in the stored positions. */
  predicate SameButPositions(a: PermissionsPlayerData, b: PermissionsPlayerData) {
    a.(indexInPlayersInGroup := 0, indexInOnlinePlayersInGroup := 0) == b.(indexInPlayersInGroup := 0, indexInOnlinePlayersInGroup := 0)
  }

  /** Two records of a group that differ at most in the member lists. */
  predicate SameButMembers(a: PermissionGroup, b: PermissionGroup) {
    a.(playersInGroup := [], onlinePlayersInGroup := []) == b.(playersInGroup := [], onlinePlayersInGroup := [])
  }

  /**
   * In a consistent roster a player is in the member list of a group that is
   * not deleted exactly when it belongs to that group and stores a position,
   * and in its online list exactly when it also stores an online position.
   */
  lemma {:induction false} ListedIff(r: Roster, q: PlayerRef, h: GroupRef)
    requires MembershipOk(r) && q < |r.players| && h < |r.groups| && !r.groups[h].isDeleted
    ensures q in r.groups[h].playersInGroup <==>
              r.players[q].permissionGroup == Some(h) && r.players[q].indexInPlayersInGroup != -1
    ensures q in r.groups[h].onlinePlayersInGroup <==>
              r.players[q].permissionGroup == Some(h) && r.players[q].indexInOnlinePlayersInGroup != -1
  {
    assert PlayerOk(r, q) && ListsOk(r, h);
    if q in r.groups[h].playersInGroup {
      var i :| 0 <= i < |r.groups[h].playersInGroup| && r.groups[h].playersInGroup[i] == q;
      assert Member(r, h, i);
    }
    if q in r.groups[h].onlinePlayersInGroup {
      var i :| 0 <= i < |r.groups[h].onlinePlayersInGroup| && r.groups[h].onlinePlayersInGroup[i] == q;
      assert OnlineMember(r, h, i);
    }
  }

  /**
   * From `a` to `b` every player but `p` keeps its record apart from its
   * positions and keeps whether it stores each position, and every group keeps
   * its record apart from its member lists.
   */
  predicate OthersKept(a: Roster, b: Roster, p: PlayerRef) {
    && |a.players| == |b.players| && |a.groups| == |b.groups|
    && (forall q :: 0 <= q < |a.players| && q != p ==>
          SameButPositions(a.players[q], b.players[q])
          && (a.players[q].indexInPlayersInGroup == -1 <==> b.players[q].indexInPlayersInGroup == -1)
          && (a.players[q].indexInOnlinePlayersInGroup == -1 <==> b.players[q].indexInOnlinePlayersInGroup == -1))
    && (forall h :: 0 <= h < |a.groups| ==> SameButMembers(a.groups[h], b.groups[h]))
  }

  lemma OthersKeptTransitive(a: Roster, b: Roster, c: Roster, p: PlayerRef)
    requires OthersKept(a, b, p) && OthersKept(b, c, p)
    ensures OthersKept(a, c, p)
  {
  }

  /** Swap-removing `p` moves at most one other player, which stays listed. */
  lemma RemoveMemberKeepsOthers(r: Roster, g: GroupRef, i: nat, p: PlayerRef)
    requires g < |r.groups| && i < |r.groups[g].playersInGroup| && HandlesOk(r, g)
    requires p < |r.players| && r.groups[g].playersInGroup[i] == p
    requires var last := r.groups[g].playersInGroup[|r.groups[g].playersInGroup| - 1];
             i < |r.groups[g].playersInGroup| - 1 ==> last != p && r.players[last].indexInPlayersInGroup != -1
    ensures OthersKept(r, RemoveMember(r, g, i), p)
    ensures RemoveMember(r, g, i).players[p] == r.players[p]
  {
  }

  /** The same for the online list. */
  lemma RemoveOnlineMemberKeepsOthers(r: Roster, g: GroupRef, i: nat, p: PlayerRef)
    requires g < |r.groups| && i < |r.groups[g].onlinePlayersInGroup| && HandlesOk(r, g)
    requires p < |r.players| && r.groups[g].onlinePlayersInGroup[i] == p
    requires var last := r.groups[g].onlinePlayersInGroup[|r.groups[g].onlinePlayersInGroup| - 1];
             i < |r.groups[g].onlinePlayersInGroup| - 1 ==> last != p && r.players[last].indexInOnlinePlayersInGroup != -1
    ensures OthersKept(r, RemoveOnlineMember(r, g, i), p)
    ensures RemoveOnlineMember(r, g, i).players[p] == r.players[p]
  {
  }

  /**
   * What the setter changes: `p` gets the new group, is listed there (online
   * only when not offline) or stores no position when the group is null; every
   * other player keeps its group and whether it is listed; no group changes
   * anything but its member lists.
   */
  lemma {:induction false} SetGroupEffect(r: Roster, p: PlayerRef, group: Option<GroupRef>)
    requires MembershipOk(r) && p < |r.players| && (group.Some? ==> group.value < |r.groups|)
    ensures var after := SetGroup(r, p, group);
            && after.players[p].permissionGroup == group
            && after.players[p].isOffline == r.players[p].isOffline
            && after.players[p].playerId == r.players[p].playerId
            && after.players[p].deserializedId == r.players[p].deserializedId
            && (group.None? ==> after.players[p].indexInPlayersInGroup == -1 && after.players[p].indexInOnlinePlayersInGroup == -1)
            && (group.Some? && group != r.players[p].permissionGroup ==>
                  after.players[p].indexInPlayersInGroup != -1
                  && (after.players[p].indexInOnlinePlayersInGroup != -1 <==> !r.players[p].isOffline))
            && OthersKept(r, after, p)
  {
    var d := r.players[p];
    assert PlayerOk(r, p);
    if d.permissionGroup != group {
      var r2 := Detach(r, p, group);
      DetachKeepsOthers(r, p, group);
      var after := SetGroup(r, p, group);
      if group.Some? {
        AttachKeepsOthers(r2, p, group.value);
      } else {
        assert OthersKept(r2, after, p);
      }
      OthersKeptTransitive(r, r2, after, p);
    }
  }

  lemma {:induction false} AttachKeepsOthers(r: Roster, p: PlayerRef, g: GroupRef)
    requires p < |r.players| && g < |r.groups|
    ensures OthersKept(r, Attach(r, p, g), p)
    ensures var d := Attach(r, p, g).players[p];
            && d == r.players[p].(indexInPlayersInGroup := d.indexInPlayersInGroup, indexInOnlinePlayersInGroup := d.indexInOnlinePlayersInGroup)
            && d.indexInPlayersInGroup != -1
            && (r.players[p].isOffline ==> d.indexInOnlinePlayersInGroup == r.players[p].indexInOnlinePlayersInGroup)
            && (!r.players[p].isOffline ==> d.indexInOnlinePlayersInGroup != -1)
  {
    var r4 := AddMember(r, g, p);
    assert OthersKept(r, r4, p);
    if !r4.players[p].isOffline {
      OthersKeptTransitive(r, r4, AddOnlineMember(r4, g, p), p);
    }
  }

  lemma {:induction false} DetachKeepsOthers(r: Roster, p: PlayerRef, group: Option<GroupRef>)
    requires MembershipOk(r) && p < |r.players|
    ensures OthersKept(r, Detach(r, p, group), p)
    ensures Detach(r, p, group).players[p] == r.players[p].(permissionGroup := group)
  {
    var d := r.players[p];
    assert PlayerOk(r, p);
    var r1 := r.(players := r.players[p := d.(permissionGroup := group)]);
    assert OthersKept(r, r1, p);
    var indexInGroup := d.indexInPlayersInGroup;
    if indexInGroup != -1 && d.permissionGroup.Some? && !r.groups[d.permissionGroup.value].isDeleted {
      var prev := d.permissionGroup.value;
      assert ListsOk(r, prev);
      HandlesOfConsistent(r, prev);
      var members := r.groups[prev].playersInGroup;
      var count := |members| - 1;
      if indexInGroup < count {
        assert Member(r, prev, count);
      }
      RemoveMemberKeepsOthers(r1, prev, indexInGroup, p);
      var r3 := RemoveMember(r1, prev, indexInGroup);
      OthersKeptTransitive(r, r1, r3, p);
      var indexInOnline := d.indexInOnlinePlayersInGroup;
      if indexInOnline != -1 {
        var online := r.groups[prev].onlinePlayersInGroup;
        var onlineCount := |online| - 1;
        assert r3.groups[prev].onlinePlayersInGroup == online;
        if indexInOnline < onlineCount {
          assert OnlineMember(r, prev, onlineCount);
          assert r3.players[online[onlineCount]].indexInOnlinePlayersInGroup == r.players[online[onlineCount]].indexInOnlinePlayersInGroup;
        }
        RemoveOnlineMemberKeepsOthers(r3, prev, indexInOnline, p);
        OthersKeptTransitive(r, r3, RemoveOnlineMember(r3, prev, indexInOnline), p);
      }
    }
  }

  // ---------------------------------------------------------------- Going offline and online

  /**
   * `OnPlayerDataWentOffline`: `p` leaves its group's online list and stores
   * no online position; the player's own offline flag is set with it.
   */
  function GoOffline(r: Roster, p: PlayerRef): (after: Roster)
    requires MembershipOk(r) && p < |r.players|
    requires r.players[p].permissionGroup.Some? && !r.players[p].isOffline
    requires r.players[p].permissionGroup.value < |r.groups| && !r.groups[r.players[p].permissionGroup.value].isDeleted
    requires r.players[p].indexInOnlinePlayersInGroup != -1
    ensures |after.players| == |r.players| && |after.groups| == |r.groups|
  {
    var d := r.players[p];
    var g := d.permissionGroup.value;
    assert PlayerOk(r, p) && ListsOk(r, g);
    HandlesOfConsistent(r, g);
    var r1 := RemoveOnlineMember(r, g, d.indexInOnlinePlayersInGroup);
    r1.(players := r1.players[p := r1.players[p].(indexInOnlinePlayersInGroup := -1, isOffline := true)])
  }

  /**
   * `OnPlayerDataWentOnline`: `p` joins its group's online list and stores its
   * online position; the player's own offline flag is cleared with it.
   */
  function GoOnline(r: Roster, p: PlayerRef): (after: Roster)
    requires p < |r.players|
    requires r.players[p].permissionGroup.Some? && r.players[p].permissionGroup.value < |r.groups|
    ensures |after.players| == |r.players| && |after.groups| == |r.groups|
  {
    var g := r.players[p].permissionGroup.value;
    var r1 := AddOnlineMember(r, g, p);
    r1.(players := r1.players[p := r1.players[p].(isOffline := false)])
  }

  /** Only `p`'s own record changing keeps what concerns the others. */
  lemma {:induction false} OwnRecordKeepsOthers(r: Roster, p: PlayerRef, d: PermissionsPlayerData, at: Option<GroupRef>, index: int, onlineIndex: int)
    requires p < |r.players| && AllButOk(r, p) && PlacedAt(r, p, at, index, onlineIndex)
    ensures AllButOk(r.(players := r.players[p := d]), p)
    ensures PlacedAt(r.(players := r.players[p := d]), p, at, index, onlineIndex)
  {
    var r1 := r.(players := r.players[p := d]);
    forall q | 0 <= q < |r1.players| && q != p
      ensures PlayerOk(r1, q)
    {
      assert PlayerOk(r, q);
    }
    forall h | 0 <= h < |r1.groups|
      ensures EntriesOkBut(r1, h, p)
    {
      assert EntriesOkBut(r, h, p);
      if !r.groups[h].isDeleted {
        forall i | 0 <= i < |r1.groups[h].playersInGroup| && r1.groups[h].playersInGroup[i] != p
          ensures Member(r1, h, i)
        {
          assert Member(r, h, i);
        }
        forall i | 0 <= i < |r1.groups[h].onlinePlayersInGroup| && r1.groups[h].onlinePlayersInGroup[i] != p
          ensures OnlineMember(r1, h, i)
        {
          assert OnlineMember(r, h, i);
        }
      }
    }
  }

  /** When `p` itself is consistent and appears exactly where it says, the roster is consistent. */
  lemma {:induction false} PlacedConsistent(r: Roster, p: PlayerRef)
    requires p < |r.players| && AllButOk(r, p) && PlayerOk(r, p)
    requires var d := r.players[p];
             d.permissionGroup.Some? && d.permissionGroup.value < |r.groups| && !r.groups[d.permissionGroup.value].isDeleted
             && PlacedAt(r, p, d.permissionGroup, d.indexInPlayersInGroup, d.indexInOnlinePlayersInGroup)
    ensures MembershipOk(r)
  {
    forall h | 0 <= h < |r.groups|
      ensures ListsOk(r, h)
    {
      assert EntriesOkBut(r, h, p);
    }
  }

  /** Going offline keeps the tracker consistent and takes `p` off its group's online list. */
  lemma {:induction false} GoOfflineKeeps(r: Roster, p: PlayerRef)
    requires MembershipOk(r) && p < |r.players|
    requires r.players[p].permissionGroup.Some? && !r.players[p].isOffline
    requires r.players[p].permissionGroup.value < |r.groups| && !r.groups[r.players[p].permissionGroup.value].isDeleted
    requires r.players[p].indexInOnlinePlayersInGroup != -1
    ensures MembershipOk(GoOffline(r, p))
    ensures forall h :: 0 <= h < |r.groups| ==> SameButMembers(r.groups[h], GoOffline(r, p).groups[h])
    ensures p !in GoOffline(r, p).groups[r.players[p].permissionGroup.value].onlinePlayersInGroup
    ensures GoOffline(r, p).groups[r.players[p].permissionGroup.value].playersInGroup
            == r.groups[r.players[p].permissionGroup.value].playersInGroup
  {
    var d := r.players[p];
    var g := d.permissionGroup.value;
    assert PlayerOk(r, p) && ListsOk(r, g);
    HandlesOfConsistent(r, g);
    RetargetKeeps(r, p, d.permissionGroup);
    assert r.(players := r.players[p := d.(permissionGroup := d.permissionGroup)]) == r;
    RemoveOnlineMemberKeeps(r, p, g, d.indexInPlayersInGroup, d.indexInOnlinePlayersInGroup);
    var r1 := RemoveOnlineMember(r, g, d.indexInOnlinePlayersInGroup);
    var d1 := r1.players[p].(indexInOnlinePlayersInGroup := -1, isOffline := true);
    OwnRecordKeepsOthers(r1, p, d1, Some(g), d.indexInPlayersInGroup, -1);
    var r2 := r1.(players := r1.players[p := d1]);
    assert PlayerOk(r2, p);
    PlacedConsistent(r2, p);
  }

  /** Going online keeps the tracker consistent and puts `p` on its group's online list. */
  lemma {:induction false} GoOnlineKeeps(r: Roster, p: PlayerRef)
    requires MembershipOk(r) && p < |r.players|
    requires r.players[p].permissionGroup.Some? && r.players[p].isOffline
    requires r.players[p].permissionGroup.value < |r.groups| && !r.groups[r.players[p].permissionGroup.value].isDeleted
    requires r.players[p].indexInPlayersInGroup != -1
    ensures MembershipOk(GoOnline(r, p))
    ensures forall h :: 0 <= h < |r.groups| ==> SameButMembers(r.groups[h], GoOnline(r, p).groups[h])
    ensures p in GoOnline(r, p).groups[r.players[p].permissionGroup.value].onlinePlayersInGroup
    ensures GoOnline(r, p).groups[r.players[p].permissionGroup.value].playersInGroup
            == r.groups[r.players[p].permissionGroup.value].playersInGroup
  {
    var d := r.players[p];
    var g := d.permissionGroup.value;
    assert PlayerOk(r, p);
    RetargetKeeps(r, p, d.permissionGroup);
    assert r.(players := r.players[p := d.(permissionGroup := d.permissionGroup)]) == r;
    var r1 := AddOnlineMember(r, g, p);
    var d1 := r1.players[p].(isOffline := false);
    var r2 := r1.(players := r1.players[p := d1]);
    var online := r.groups[g].onlinePlayersInGroup;
    assert r2.groups[g].onlinePlayersInGroup == online + [p];
    forall q | 0 <= q < |r2.players| && q != p
      ensures PlayerOk(r2, q)
    {
      assert PlayerOk(r, q);
    }
    forall h | 0 <= h < |r2.groups|
      ensures EntriesOkBut(r2, h, p)
    {
      assert EntriesOkBut(r, h, p);
      if !r.groups[h].isDeleted {
        forall i | 0 <= i < |r2.groups[h].playersInGroup| && r2.groups[h].playersInGroup[i] != p
          ensures Member(r2, h, i)
        {
          assert Member(r, h, i);
        }
        forall i | 0 <= i < |r2.groups[h].onlinePlayersInGroup| && r2.groups[h].onlinePlayersInGroup[i] != p
          ensures OnlineMember(r2, h, i)
        {
          if h != g || i < |online| {
            assert OnlineMember(r, h, i);
          }
        }
      }
    }
    assert PlacedAt(r2, p, Some(g), d.indexInPlayersInGroup, |online|);
    assert PlayerOk(r2, p);
    PlacedConsistent(r2, p);
  }

  // ---------------------------------------------------------------- Changes to whole groups

  /** A new group with empty member lists keeps the tracker consistent. */
  lemma AddGroupKeepsMembership(r: Roster, group: PermissionGroup)
    requires MembershipOk(r) && group.playersInGroup == [] && group.onlinePlayersInGroup == []
    ensures MembershipOk(Roster(r.players, r.groups + [group]))
  {
    var r2 := Roster(r.players, r.groups + [group]);
    forall p | 0 <= p < |r2.players|
      ensures PlayerOk(r2, p)
    {
      assert PlayerOk(r, p);
    }
    forall g | 0 <= g < |r.groups|
      ensures ListsOk(r2, g)
    {
      assert ListsOk(r, g);
      if !r.groups[g].isDeleted {
        forall i | 0 <= i < |r2.groups[g].playersInGroup| ensures Member(r2, g, i) {
          assert Member(r, g, i);
        }
        forall i | 0 <= i < |r2.groups[g].onlinePlayersInGroup| ensures OnlineMember(r2, g, i) {
          assert OnlineMember(r, g, i);
        }
      }
    }
    assert ListsOk(r2, |r.groups|);
  }

  /**
   * The tracker looks at a group only through its member lists and its
   * deleted mark: changing anything else (its flags, its name) keeps it consistent.
   */
  lemma GroupsFrameKeeps(r: Roster, groups: seq<PermissionGroup>)
    requires MembershipOk(r) && |groups| == |r.groups|
    requires forall h :: 0 <= h < |groups| ==>
               && groups[h].playersInGroup == r.groups[h].playersInGroup
               && groups[h].onlinePlayersInGroup == r.groups[h].onlinePlayersInGroup
               && groups[h].isDeleted == r.groups[h].isDeleted
    ensures MembershipOk(Roster(r.players, groups))
  {
    var r2 := Roster(r.players, groups);
    forall p | 0 <= p < |r2.players|
      ensures PlayerOk(r2, p)
    {
      assert PlayerOk(r, p);
    }
    forall g | 0 <= g < |groups|
      ensures ListsOk(r2, g)
    {
      assert ListsOk(r, g);
      if !r.groups[g].isDeleted {
        forall i | 0 <= i < |r2.groups[g].playersInGroup| ensures Member(r2, g, i) {
          assert Member(r, g, i);
        }
        forall i | 0 <= i < |r2.groups[g].onlinePlayersInGroup| ensures OnlineMember(r2, g, i) {
          assert OnlineMember(r, g, i);
        }
      }
    }
  }

  /**
   * Marking a group deleted keeps the tracker consistent: the lists of a
   * deleted group, and the positions its members store, are no longer looked at.
   */
  lemma MarkDeletedKeeps(r: Roster, g: GroupRef)
    requires MembershipOk(r) && g < |r.groups|
    ensures MembershipOk(Roster(r.players, r.groups[g := r.groups[g].(isDeleted := true)]))
  {
    var r2 := Roster(r.players, r.groups[g := r.groups[g].(isDeleted := true)]);
    forall p | 0 <= p < |r2.players|
      ensures PlayerOk(r2, p)
    {
      assert PlayerOk(r, p);
    }
    forall h | 0 <= h < |r2.groups|
      ensures ListsOk(r2, h)
    {
      if h != g {
        assert ListsOk(r, h);
        if !r.groups[h].isDeleted {
          forall i | 0 <= i < |r2.groups[h].playersInGroup| ensures Member(r2, h, i) {
            assert Member(r, h, i);
          }
          forall i | 0 <= i < |r2.groups[h].onlinePlayersInGroup| ensures OnlineMember(r2, h, i) {
            assert OnlineMember(r, h, i);
          }
        }
      }
    }
  }

  /** The member list of a group that is not deleted holds distinct player handles. */
  lemma MembersDistinct(r: Roster, g: GroupRef)
    requires MembershipOk(r) && g < |r.groups| && !r.groups[g].isDeleted
    ensures forall i :: 0 <= i < |r.groups[g].playersInGroup| ==> r.groups[g].playersInGroup[i] < |r.players|
    ensures forall i, j :: 0 <= i < j < |r.groups[g].playersInGroup| ==>
              r.groups[g].playersInGroup[i] != r.groups[g].playersInGroup[j]
  {
    assert ListsOk(r, g);
    HandlesOfConsistent(r, g);
    forall i, j | 0 <= i < j < |r.groups[g].playersInGroup|
      ensures r.groups[g].playersInGroup[i] != r.groups[g].playersInGroup[j]
    {
      assert Member(r, g, i) && Member(r, g, j);
    }
  }

  /** The setter never touches a deleted group it does not move the player into. */
  lemma {:induction false} SetGroupKeepsDeleted(r: Roster, p: PlayerRef, group: Option<GroupRef>, h: GroupRef)
    requires MembershipOk(r) && p < |r.players| && (group.Some? ==> group.value < |r.groups|)
    requires h < |r.groups| && r.groups[h].isDeleted && group != Some(h)
    ensures SetGroup(r, p, group).groups[h] == r.groups[h]
  {
    if r.players[p].permissionGroup != group {
      var r2 := Detach(r, p, group);
      assert r2.groups[h] == r.groups[h];
      if group.Some? {
        var r4 := AddMember(r2, group.value, p);
        assert r4.groups[h] == r.groups[h];
      }
    }
  }

  // ---------------------------------------------------------------- Moving the members of a deleted group

  /**
   * The member loop of `DeletePermissionGroupInGSInternal` on the roster: the
   * players `ms` are moved into group `t` one after the other, from the last
   * to the first.
   */
  function MoveMembers(r: Roster, ms: seq<PlayerRef>, t: GroupRef): (after: Roster)
    requires MembershipOk(r) && t < |r.groups| && forall i :: 0 <= i < |ms| ==> ms[i] < |r.players|
    ensures |after.players| == |r.players| && |after.groups| == |r.groups| && MembershipOk(after)
    decreases |ms|
  {
    if ms == [] then r
    else
      var q := ms[|ms| - 1];
      SetGroupKeepsMembership(r, q, Some(t));
      MoveMembers(SetGroup(r, q, Some(t)), ms[..|ms| - 1], t)
  }

  /** The groups of the players in `ms`: none of them is `t` yet. */
  predicate NoneIn(r: Roster, ms: seq<PlayerRef>, t: GroupRef) {
    forall i :: 0 <= i < |ms| && ms[i] < |r.players| ==> r.players[ms[i]].permissionGroup != Some(t)
  }

  /** One step of the member loop: the moved player now stores group `t` and a position in its list. */
  lemma {:induction false} MoveOneEffect(r: Roster, q: PlayerRef, t: GroupRef)
    requires MembershipOk(r) && q < |r.players| && t < |r.groups| && r.players[q].permissionGroup != Some(t)
    ensures var after := SetGroup(r, q, Some(t));
            && after.players[q].permissionGroup == Some(t) && after.players[q].indexInPlayersInGroup != -1
            && OthersKept(r, after, q)
  {
    SetGroupEffect(r, q, Some(t));
  }

  /** The member loop changes no group but in its member lists. */
  lemma {:induction false} MoveMembersKeepsGroups(r: Roster, ms: seq<PlayerRef>, t: GroupRef)
    requires MembershipOk(r) && t < |r.groups| && forall i :: 0 <= i < |ms| ==> ms[i] < |r.players|
    ensures var after := MoveMembers(r, ms, t);
            forall h :: 0 <= h < |r.groups| ==> SameButMembers(r.groups[h], after.groups[h])
    decreases |ms|
  {
    if ms != [] {
      var q, init := ms[|ms| - 1], ms[..|ms| - 1];
      var r1 := SetGroup(r, q, Some(t));
      SetGroupKeepsMembership(r, q, Some(t));
      SetGroupEffect(r, q, Some(t));
      MoveMembersKeepsGroups(r1, init, t);
    }
  }

  /**
   * After the member loop every player of `ms` belongs to `t` and stores a
   * position in its member list, and every other player keeps its group and
   * whether it stores a position.
   */
  lemma {:induction false} MoveMembersEffect(r: Roster, ms: seq<PlayerRef>, t: GroupRef)
    requires MembershipOk(r) && t < |r.groups| && forall i :: 0 <= i < |ms| ==> ms[i] < |r.players|
    requires Distinct(ms) && NoneIn(r, ms, t)
    ensures var after := MoveMembers(r, ms, t);
            && (forall q :: 0 <= q < |r.players| && q in ms ==>
                  after.players[q].permissionGroup == Some(t) && after.players[q].indexInPlayersInGroup != -1)
            && (forall q :: 0 <= q < |r.players| && q !in ms ==>
                  after.players[q].permissionGroup == r.players[q].permissionGroup
                  && (after.players[q].indexInPlayersInGroup == -1 <==> r.players[q].indexInPlayersInGroup == -1))
    decreases |ms|
  {
    if ms != [] {
      var q, init := ms[|ms| - 1], ms[..|ms| - 1];
      assert ms == init + [q];
      var r1 := SetGroup(r, q, Some(t));
      SetGroupKeepsMembership(r, q, Some(t));
      MoveOneEffect(r, q, t);
      InitDistinct(ms);
      assert NoneIn(r1, init, t) by {
        forall i | 0 <= i < |init| && init[i] < |r1.players|
          ensures r1.players[init[i]].permissionGroup != Some(t)
        {
          assert init[i] == ms[i] && init[i] != q;
          assert SameButPositions(r.players[init[i]], r1.players[init[i]]);
        }
      }
      MoveMembersEffect(r1, init, t);
      var after := MoveMembers(r, ms, t);
      forall q' | 0 <= q' < |r.players| && q' != q
        ensures after.players[q'].permissionGroup == (if q' in init then Some(t) else r.players[q'].permissionGroup)
        ensures q' !in init ==> (after.players[q'].indexInPlayersInGroup == -1 <==> r.players[q'].indexInPlayersInGroup == -1)
      {
        assert SameButPositions(r.players[q'], r1.players[q']);
      }
    }
  }

  /** The member loop never touches a deleted group other than the target, so the list it walks stays as it was. */
  lemma {:induction false} MoveMembersKeepsDeleted(r: Roster, ms: seq<PlayerRef>, t: GroupRef, h: GroupRef)
    requires MembershipOk(r) && t < |r.groups| && forall i :: 0 <= i < |ms| ==> ms[i] < |r.players|
    requires h < |r.groups| && r.groups[h].isDeleted && h != t
    ensures MoveMembers(r, ms, t).groups[h] == r.groups[h]
    decreases |ms|
  {
    if ms != [] {
      var q, init := ms[|ms| - 1], ms[..|ms| - 1];
      SetGroupKeepsMembership(r, q, Some(t));
      SetGroupKeepsDeleted(r, q, Some(t), h);
      MoveMembersKeepsDeleted(SetGroup(r, q, Some(t)), init, t, h);
    }
  }

  /**
   * `DeletePermissionGroupInGSInternal` on the roster: group `g` is marked
   * deleted, then each of its members, from the last to the first, is moved
   * into group `t`.
   */
  function MoveOutOfDeleted(r: Roster, g: GroupRef, t: GroupRef): (after: Roster)
    requires MembershipOk(r) && g < |r.groups| && t < |r.groups| && !r.groups[g].isDeleted
    ensures |after.players| == |r.players| && |after.groups| == |r.groups| && MembershipOk(after)
  {
    var marked := Roster(r.players, r.groups[g := r.groups[g].(isDeleted := true)]);
    MarkDeletedKeeps(r, g);
    MembersDistinct(r, g);
    MoveMembers(marked, r.groups[g].playersInGroup, t)
  }

  /**
   * Deleting group `g` in favour of a different group `t` that is not deleted:
   * every former member of `g` now belongs to `t` and is in its member list,
   * every other player keeps its group, `g` is marked deleted with its member
   * list kept, and no group changes but in its member lists and `g`'s
   * deletion mark.
   */
  lemma {:induction false} MoveOutOfDeletedEffect(r: Roster, g: GroupRef, t: GroupRef)
    requires MembershipOk(r) && g < |r.groups| && t < |r.groups| && !r.groups[g].isDeleted
    requires g != t && !r.groups[t].isDeleted
    ensures var after := MoveOutOfDeleted(r, g, t);
            && (forall q :: 0 <= q < |r.players| && q in r.groups[g].playersInGroup ==>
                  after.players[q].permissionGroup == Some(t) && q in after.groups[t].playersInGroup)
            && (forall q :: 0 <= q < |r.players| && q !in r.groups[g].playersInGroup ==>
                  after.players[q].permissionGroup == r.players[q].permissionGroup)
            && after.groups[g] == r.groups[g].(isDeleted := true)
            && (forall h :: 0 <= h < |r.groups| && h != g ==> SameButMembers(r.groups[h], after.groups[h]))
  {
    var ms := r.groups[g].playersInGroup;
    var marked := Roster(r.players, r.groups[g := r.groups[g].(isDeleted := true)]);
    MarkDeletedKeeps(r, g);
    MembersDistinct(r, g);
    assert NoneIn(marked, ms, t) by {
      assert ListsOk(r, g);
      forall i | 0 <= i < |ms| && ms[i] < |marked.players|
        ensures marked.players[ms[i]].permissionGroup != Some(t)
      {
        assert Member(r, g, i);
      }
    }
    MoveMembersEffect(marked, ms, t);
    MoveMembersKeepsGroups(marked, ms, t);
    MoveMembersKeepsDeleted(marked, ms, t, g);
    var after := MoveOutOfDeleted(r, g, t);
    forall q | 0 <= q < |r.players| && q in ms
      ensures q in after.groups[t].playersInGroup
    {
      assert SameButMembers(marked.groups[t], after.groups[t]);
      ListedIff(after, q, t);
    }
    forall h | 0 <= h < |r.groups| && h != g ensures SameButMembers(r.groups[h], after.groups[h]) {
      assert SameButMembers(marked.groups[h], after.groups[h]);
    }
  }
}
