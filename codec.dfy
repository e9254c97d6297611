/**
 * The token layouts the permission manager writes into the lockstep stream,
 * and their decoders. Every decoder reads from the front of a token sequence
 * and hands back what it did not read.
 *
 * Game state (what a joining client receives): the next group id, the group
 * count, then per group its id, name and flags, in array order.
 *
 * Export: the options, the group count, per group its name and id, and, when
 * the options include permission groups, the definition count, each
 * definition's internal name, and per group its flags.
 */
module Codec {
  import opened Wrappers
  import opened Lockstep

  // ---------------------------------------------------------------- Game state

  /** What the game state holds of one group. */
  datatype GroupState = GroupState(id: nat, groupName: string, permissionValues: seq<bool>)

  /** `WritePermissionGroup`: id, name, flags. */
  function GroupTokens(g: GroupState): seq<Token> {
    [UInt(g.id), Str(g.groupName), Flags(g.permissionValues)]
  }

  /** The groups one after the other, in array order. */
  function GroupsTokens(gs: seq<GroupState>): (ts: seq<Token>)
    ensures |ts| == 3 * |gs|
  {
    if gs == [] then [] else GroupTokens(gs[0]) + GroupsTokens(gs[1..])
  }

  /** `SerializeGameState` for a non-export: the next group id, then `WritePermissionGroups`. */
  function GameStateTokens(nextGroupId: nat, gs: seq<GroupState>): seq<Token> {
    [UInt(nextGroupId), UInt(|gs|)] + GroupsTokens(gs)
  }

  /** `ReadPermissionGroup`: id, name and `defsCount` flags, if the tokens have that shape. */
  function ReadGroup(ts: seq<Token>, defsCount: nat): Option<GroupState> {
    if 3 <= |ts| && ts[0].UInt? && ts[1].Str? && ts[2].Flags? && |ts[2].bits| == defsCount
    then Some(GroupState(ts[0].n, ts[1].s, ts[2].bits))
    else None
  }

  /** `count` groups read one after the other, and what follows them. */
  function ReadGroups(ts: seq<Token>, count: nat, defsCount: nat): Option<(seq<GroupState>, seq<Token>)>
  {
    if count == 0 then Some(([], ts))
    else
      match ReadGroup(ts, defsCount)
      case None => None
      case Some(g) =>
        match ReadGroups(ts[3..], count - 1, defsCount)
        case None => None
        case Some((gs, rest)) => Some(([g] + gs, rest))
  }

  /** `DeserializeGameState` for a non-import: the next group id, the groups, and what follows them. */
  function DecodeGameState(ts: seq<Token>, defsCount: nat): Option<(nat, seq<GroupState>, seq<Token>)> {
    if 2 <= |ts| && ts[0].UInt? && ts[1].UInt? then
      match ReadGroups(ts[2..], ts[1].n, defsCount)
      case None => None
      case Some((gs, rest)) => Some((ts[0].n, gs, rest))
    else None
  }

  /** Every group has one flag per definition. */
  predicate FlagsSized(gs: seq<GroupState>, defsCount: nat) {
    forall i :: 0 <= i < |gs| ==> |gs[i].permissionValues| == defsCount
  }

  /** Writing one more group appends its tokens. */
  lemma {:induction false} GroupsTokensSnoc(gs: seq<GroupState>, g: GroupState)
    ensures GroupsTokens(gs + [g]) == GroupsTokens(gs) + GroupTokens(g)
  {
    if gs != [] {
      assert (gs + [g])[1..] == gs[1..] + [g];
      GroupsTokensSnoc(gs[1..], g);
    }
  }

  /** Group `i` sits at tokens `3 * i` to `3 * i + 2`: its id, its name, its flags. */
  lemma {:induction false} GroupsTokensAt(gs: seq<GroupState>, i: nat)
    requires i < |gs|
    ensures GroupsTokens(gs)[3 * i] == UInt(gs[i].id)
    ensures GroupsTokens(gs)[3 * i + 1] == Str(gs[i].groupName)
    ensures GroupsTokens(gs)[3 * i + 2] == Flags(gs[i].permissionValues)
  {
    if i > 0 {
      GroupsTokensAt(gs[1..], i - 1);
    }
  }

  /** Groups written in front of any tokens are read back, and the reader stops right after them. */
  lemma {:induction false} ReadGroupsRoundTrip(gs: seq<GroupState>, rest: seq<Token>, defsCount: nat)
    requires FlagsSized(gs, defsCount)
    ensures ReadGroups(GroupsTokens(gs) + rest, |gs|, defsCount) == Some((gs, rest))
  {
    if gs == [] {
      assert GroupsTokens(gs) + rest == rest;
    } else {
      var tail := gs[1..];
      var after := GroupsTokens(tail) + rest;
      var ts := GroupTokens(gs[0]) + after;
      assert GroupsTokens(gs) + rest == ts;
      assert ts[3..] == after;
      assert ReadGroup(ts, defsCount) == Some(gs[0]);
      assert FlagsSized(tail, defsCount) by {
        forall i | 0 <= i < |tail| ensures |tail[i].permissionValues| == defsCount {
          assert tail[i] == gs[i + 1];
        }
      }
      ReadGroupsRoundTrip(tail, rest, defsCount);
      assert [gs[0]] + tail == gs;
    }
  }

  /** What `ReadGroups` returns is what was written in front of what it leaves. */
  lemma {:induction false} ReadGroupsSound(ts: seq<Token>, count: nat, defsCount: nat)
    requires ReadGroups(ts, count, defsCount).Some?
    ensures var (gs, rest) := ReadGroups(ts, count, defsCount).value;
            |gs| == count && ts == GroupsTokens(gs) + rest && FlagsSized(gs, defsCount)
  {
    if count > 0 {
      ReadGroupsSound(ts[3..], count - 1, defsCount);
      var (gs, rest) := ReadGroups(ts, count, defsCount).value;
      assert gs[1..] == ReadGroups(ts[3..], count - 1, defsCount).value.0;
      assert ts == ts[..3] + ts[3..];
    }
  }

  /**
   * Deserializing what was serialized gives back the next group id and every
   * group's id, name and flags, in the same order, and leaves whatever follows.
   */
  lemma GameStateRoundTrip(nextGroupId: nat, gs: seq<GroupState>, defsCount: nat, rest: seq<Token>)
    requires FlagsSized(gs, defsCount)
    ensures DecodeGameState(GameStateTokens(nextGroupId, gs) + rest, defsCount) == Some((nextGroupId, gs, rest))
  {
    var ts := GameStateTokens(nextGroupId, gs) + rest;
    assert ts[2..] == GroupsTokens(gs) + rest;
    ReadGroupsRoundTrip(gs, rest, defsCount);
  }

  /** A stream that decodes is the serialization of what it decodes to, followed by the rest. */
  lemma DecodeGameStateSound(ts: seq<Token>, defsCount: nat)
    requires DecodeGameState(ts, defsCount).Some?
    ensures var (nextGroupId, gs, rest) := DecodeGameState(ts, defsCount).value;
            ts == GameStateTokens(nextGroupId, gs) + rest && FlagsSized(gs, defsCount)
  {
    ReadGroupsSound(ts[2..], ts[1].n, defsCount);
    assert ts == ts[..2] + ts[2..];
  }

  // ---------------------------------------------------------------- Export

  /** A group as the export names it: its name and its id in the exporting world. */
  datatype GroupNameAndId = GroupNameAndId(groupName: string, id: nat)

  /** `ExportPermissionGroupNamesAndIds`: per group its name, then its id. */
  function NamesAndIdsTokens(gs: seq<GroupNameAndId>): (ts: seq<Token>)
    ensures |ts| == 2 * |gs|
  {
    if gs == [] then [] else [Str(gs[0].groupName), UInt(gs[0].id)] + NamesAndIdsTokens(gs[1..])
  }

  /** Writing one more name and id appends both. */
  lemma {:induction false} NamesAndIdsTokensSnoc(gs: seq<GroupNameAndId>, g: GroupNameAndId)
    ensures NamesAndIdsTokens(gs + [g]) == NamesAndIdsTokens(gs) + [Str(g.groupName), UInt(g.id)]
  {
    if gs != [] {
      assert (gs + [g])[1..] == gs[1..] + [g];
      NamesAndIdsTokensSnoc(gs[1..], g);
    }
  }

  /** Name `i` sits at token `2 * i` and its id right after it. */
  lemma {:induction false} NamesAndIdsTokensAt(gs: seq<GroupNameAndId>, i: nat)
    requires i < |gs|
    ensures NamesAndIdsTokens(gs)[2 * i] == Str(gs[i].groupName) && NamesAndIdsTokens(gs)[2 * i + 1] == UInt(gs[i].id)
  {
    if i > 0 {
      NamesAndIdsTokensAt(gs[1..], i - 1);
    }
  }

  /** `count` names and ids, and what follows them. */
  function ReadNamesAndIds(ts: seq<Token>, count: nat): Option<(seq<GroupNameAndId>, seq<Token>)>
  {
    if count == 0 then Some(([], ts))
    else if 2 <= |ts| && ts[0].Str? && ts[1].UInt? then
      match ReadNamesAndIds(ts[2..], count - 1)
      case None => None
      case Some((gs, rest)) => Some(([GroupNameAndId(ts[0].s, ts[1].n)] + gs, rest))
    else None
  }

  /** `ExportPermissionDefinitionsMetadata`: each definition's internal name. */
  function StringsTokens(names: seq<string>): (ts: seq<Token>)
    ensures |ts| == |names|
  {
    seq(|names|, i requires 0 <= i < |names| => Str(names[i]))
  }

  /** `count` strings, and what follows them. */
  function ReadStrings(ts: seq<Token>, count: nat): Option<(seq<string>, seq<Token>)>
  {
    if count == 0 then Some(([], ts))
    else if 1 <= |ts| && ts[0].Str? then
      match ReadStrings(ts[1..], count - 1)
      case None => None
      case Some((names, rest)) => Some(([ts[0].s] + names, rest))
    else None
  }

  /** `ExportPermissionGroupFlags`: per group its flags. */
  function FlagsTokens(rows: seq<seq<bool>>): (ts: seq<Token>)
    ensures |ts| == |rows|
  {
    seq(|rows|, i requires 0 <= i < |rows| => Flags(rows[i]))
  }

  /** `count` flag rows of `width` flags each, and what follows them. */
  function ReadFlagRows(ts: seq<Token>, count: nat, width: nat): Option<(seq<seq<bool>>, seq<Token>)>
  {
    if count == 0 then Some(([], ts))
    else if 1 <= |ts| && ts[0].Flags? && |ts[0].bits| == width then
      match ReadFlagRows(ts[1..], count - 1, width)
      case None => None
      case Some((rows, rest)) => Some(([ts[0].bits] + rows, rest))
    else None
  }

  /**
   * What an export holds: the options it was written with, the groups' names
   * and ids, and, when groups are included, the definitions' internal names and
   * each group's flags.
   */
  datatype ExportData = ExportData(
    includePermissionGroups: bool,
    includePlayerPermissionGroups: bool,
    groups: seq<GroupNameAndId>,
    definitionNames: seq<string>,
    groupFlags: seq<seq<bool>>)

  /** The export is self-consistent: one flag row per group, one flag per exported definition. */
  predicate ExportShaped(e: ExportData) {
    if e.includePermissionGroups then
      |e.groupFlags| == |e.groups| && forall i :: 0 <= i < |e.groupFlags| ==> |e.groupFlags[i]| == |e.definitionNames|
    else e.definitionNames == [] && e.groupFlags == []
  }

  /** The part of an export after the names and ids: definitions and flags, if groups are included. */
  function GroupsPartTokens(e: ExportData): seq<Token> {
    if e.includePermissionGroups
    then [UInt(|e.definitionNames|)] + StringsTokens(e.definitionNames) + FlagsTokens(e.groupFlags)
    else []
  }

  /** `Export`: options, group count, names and ids, then definitions and flags if groups are included. */
  function ExportTokens(e: ExportData): seq<Token> {
    [Flags([e.includePermissionGroups, e.includePlayerPermissionGroups]), UInt(|e.groups|)]
    + NamesAndIdsTokens(e.groups) + GroupsPartTokens(e)
  }

  /** The definitions and flags part of an export with `groupsCount` groups, and what follows it. */
  function ReadGroupsPart(ts: seq<Token>, groupsCount: nat): Option<(seq<string>, seq<seq<bool>>, seq<Token>)> {
    if 1 <= |ts| && ts[0].UInt? then
      match ReadStrings(ts[1..], ts[0].n)
      case None => None
      case Some((names, afterNames)) =>
        match ReadFlagRows(afterNames, groupsCount, ts[0].n)
        case None => None
        case Some((rows, rest)) => Some((names, rows, rest))
    else None
  }

  /** The import side of an export: the export read back, and what follows it. */
  function DecodeExport(ts: seq<Token>): Option<(ExportData, seq<Token>)> {
    if 2 <= |ts| && ts[0].Flags? && |ts[0].bits| == 2 && ts[1].UInt? then
      var includeGroups, includePlayers := ts[0].bits[0], ts[0].bits[1];
      match ReadNamesAndIds(ts[2..], ts[1].n)
      case None => None
      case Some((gs, afterGroups)) =>
        if !includeGroups then Some((ExportData(false, includePlayers, gs, [], []), afterGroups))
        else
          match ReadGroupsPart(afterGroups, |gs|)
          case None => None
          case Some((names, rows, rest)) => Some((ExportData(true, includePlayers, gs, names, rows), rest))
    else None
  }

  /** Names and ids written in front of any tokens are read back. */
  lemma {:induction false} ReadNamesAndIdsRoundTrip(gs: seq<GroupNameAndId>, rest: seq<Token>)
    ensures ReadNamesAndIds(NamesAndIdsTokens(gs) + rest, |gs|) == Some((gs, rest))
  {
    if gs != [] {
      var ts := NamesAndIdsTokens(gs) + rest;
      assert ts == [Str(gs[0].groupName), UInt(gs[0].id)] + (NamesAndIdsTokens(gs[1..]) + rest);
      assert ts[2..] == NamesAndIdsTokens(gs[1..]) + rest;
      ReadNamesAndIdsRoundTrip(gs[1..], rest);
      assert [gs[0]] + gs[1..] == gs;
    } else {
      assert NamesAndIdsTokens(gs) + rest == rest;
    }
  }

  /** Strings written in front of any tokens are read back. */
  lemma {:induction false} ReadStringsRoundTrip(names: seq<string>, rest: seq<Token>)
    ensures ReadStrings(StringsTokens(names) + rest, |names|) == Some((names, rest))
  {
    if names != [] {
      var ts := StringsTokens(names) + rest;
      assert ts == [Str(names[0])] + (StringsTokens(names[1..]) + rest);
      assert ts[1..] == StringsTokens(names[1..]) + rest;
      ReadStringsRoundTrip(names[1..], rest);
      assert [names[0]] + names[1..] == names;
    } else {
      assert StringsTokens(names) + rest == rest;
    }
  }

  /** Flag rows of one width written in front of any tokens are read back. */
  lemma {:induction false} ReadFlagRowsRoundTrip(rows: seq<seq<bool>>, width: nat, rest: seq<Token>)
    requires forall i :: 0 <= i < |rows| ==> |rows[i]| == width
    ensures ReadFlagRows(FlagsTokens(rows) + rest, |rows|, width) == Some((rows, rest))
  {
    if rows == [] {
      assert FlagsTokens(rows) + rest == rest;
    } else {
      var tail := rows[1..];
      var after := FlagsTokens(tail) + rest;
      var ts := [Flags(rows[0])] + after;
      assert FlagsTokens(rows) + rest == ts;
      assert ts[1..] == after;
      assert forall i :: 0 <= i < |tail| ==> |tail[i]| == width by {
        forall i | 0 <= i < |tail| ensures |tail[i]| == width {
          assert tail[i] == rows[i + 1];
        }
      }
      ReadFlagRowsRoundTrip(tail, width, rest);
      assert [rows[0]] + tail == rows;
    }
  }

  /** The definitions and flags part is read back. */
  lemma GroupsPartRoundTrip(e: ExportData, rest: seq<Token>)
    requires ExportShaped(e) && e.includePermissionGroups
    ensures ReadGroupsPart(GroupsPartTokens(e) + rest, |e.groups|) == Some((e.definitionNames, e.groupFlags, rest))
  {
    var ts := GroupsPartTokens(e) + rest;
    var afterNames := FlagsTokens(e.groupFlags) + rest;
    assert ts[1..] == StringsTokens(e.definitionNames) + afterNames;
    ReadStringsRoundTrip(e.definitionNames, afterNames);
    ReadFlagRowsRoundTrip(e.groupFlags, |e.definitionNames|, rest);
  }

  /** Where the names and ids, and what follows them, sit in an export. */
  lemma ExportSplit(e: ExportData, rest: seq<Token>)
    ensures var ts := ExportTokens(e) + rest;
            && 2 <= |ts| && ts[0] == Flags([e.includePermissionGroups, e.includePlayerPermissionGroups])
            && ts[1] == UInt(|e.groups|)
            && ts[2..] == NamesAndIdsTokens(e.groups) + (GroupsPartTokens(e) + rest)
  {
    var head := [Flags([e.includePermissionGroups, e.includePlayerPermissionGroups]), UInt(|e.groups|)];
    assert ExportTokens(e) + rest == head + (NamesAndIdsTokens(e.groups) + (GroupsPartTokens(e) + rest));
  }

  /**
   * Importing an export reads back its options, every group's name and id in
   * order, and, when groups were included, every definition name and every
   * group's flags, and leaves whatever follows.
   */
  lemma ExportRoundTrip(e: ExportData, rest: seq<Token>)
    requires ExportShaped(e)
    ensures DecodeExport(ExportTokens(e) + rest) == Some((e, rest))
  {
    var afterGroups := GroupsPartTokens(e) + rest;
    ExportSplit(e, rest);
    ReadNamesAndIdsRoundTrip(e.groups, afterGroups);
    if e.includePermissionGroups {
      GroupsPartRoundTrip(e, rest);
    } else {
      assert afterGroups == rest;
    }
  }

  /** Where each part of a game state sits: the next id, the group count, then the groups. */
  lemma GameStateParts(nextGroupId: nat, gs: seq<GroupState>)
    ensures var ts := GameStateTokens(nextGroupId, gs);
            && |ts| == 2 + 3 * |gs| && ts[0] == UInt(nextGroupId) && ts[1] == UInt(|gs|) && ts[2..] == GroupsTokens(gs)
  {
  }

  /**
   * Where each part of an export sits: the options, the group count, the
   * names and ids, and, with groups, the definition count, the definition
   * names and the flag rows.
   */
  lemma ExportParts(e: ExportData)
    ensures var ts, n := ExportTokens(e), 2 + 2 * |e.groups|;
            && n <= |ts| && ts[0] == Flags([e.includePermissionGroups, e.includePlayerPermissionGroups])
            && ts[1] == UInt(|e.groups|) && ts[2..n] == NamesAndIdsTokens(e.groups)
            && (!e.includePermissionGroups ==> |ts| == n)
            && (e.includePermissionGroups ==>
                  var d := |e.definitionNames|;
                  && |ts| == n + 1 + d + |e.groupFlags| && ts[n] == UInt(d)
                  && ts[n + 1..n + 1 + d] == StringsTokens(e.definitionNames) && ts[n + 1 + d..] == FlagsTokens(e.groupFlags))
  {
    var ts, n := ExportTokens(e), 2 + 2 * |e.groups|;
    var head := [Flags([e.includePermissionGroups, e.includePlayerPermissionGroups]), UInt(|e.groups|)];
    assert ts == head + NamesAndIdsTokens(e.groups) + GroupsPartTokens(e);
    assert ts[2..n] == NamesAndIdsTokens(e.groups);
    if e.includePermissionGroups {
      var d := |e.definitionNames|;
      var tail := [UInt(d)] + StringsTokens(e.definitionNames) + FlagsTokens(e.groupFlags);
      assert ts[n..] == tail;
      assert tail[1..1 + d] == StringsTokens(e.definitionNames);
      assert tail[1 + d..] == FlagsTokens(e.groupFlags);
    }
  }
}
