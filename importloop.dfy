// The first loop of `ImportPermissionGroupNamesAndIds` keeps its invariant on
// every turn (kept apart from `Snapshot` so that the loop invariant is used
// as a whole rather than split into its conjuncts).

module ImportLoop {
  import opened Records
  import opened Store
  import opened Lockstep
  import opened Codec
  import opened Consistency
  import opened Transitions
  import opened Effects
  import opened Snapshot

  /** A turn on a name the store already has keeps the invariant of the first loop. */
  lemma FoundNameKeeps(f0: Fields, f: Fields, gs: seq<GroupNameAndId>, imported: seq<GroupRef>, keep: set<GroupRef>, i: nat)
    requires Importable(gs) && i < |gs| && f0.state.defaultPermissionGroup < |f0.state.groups|
    requires forall n :: n in f0.state.groupsByName ==> f0.state.groupsByName[n] < |f0.state.groups|
    requires NamesLoopInv(f0, f, gs, imported, keep, i) && gs[i].groupName in f.state.groupsByName
    ensures f.state.defaultPermissionGroup < |f.state.groups|
    ensures var r := NameImportStep(f, gs[i].groupName, gs[i].id);
            NamesLoopInv(f0, r.0, gs, imported + [r.1], keep + {r.1}, i + 1)
  {
    var s := f.state;
    var g := s.groupsByName[gs[i].groupName];
    LookedUpByName(s, f.viewStale, gs[i].groupName);
    FoundNameStep(f0, f, gs, imported, keep, i);
    ImportedIdsKeep(s, f.viewStale, s.groupsByImportedId[gs[i].id := g]);
  }

  /** A turn on a name the store does not have keeps the invariant of the first loop. */
  lemma CreatedNameKeeps(f0: Fields, f: Fields, gs: seq<GroupNameAndId>, imported: seq<GroupRef>, keep: set<GroupRef>, i: nat)
    requires Importable(gs) && i < |gs| && f0.state.defaultPermissionGroup < |f0.state.groups|
    requires NamesLoopInv(f0, f, gs, imported, keep, i) && gs[i].groupName !in f.state.groupsByName
    ensures f.state.defaultPermissionGroup < |f.state.groups|
    ensures var r := NameImportStep(f, gs[i].groupName, gs[i].id);
            NamesLoopInv(f0, r.0, gs, imported + [r.1], keep + {r.1}, i + 1)
  {
    CreatedForImportKeeps(f.state, f.viewStale, gs[i].groupName, gs[i].id);
    CreatedNameStep(f0, f, gs, imported, keep, i);
  }

  /** Either kind of turn keeps the invariant of the first loop. */
  lemma StepKeeps(f0: Fields, r: (Fields, seq<GroupRef>, set<GroupRef>), gs: seq<GroupNameAndId>, i: nat)
    requires Importable(gs) && i < |gs| && f0.state.defaultPermissionGroup < |f0.state.groups|
    requires forall n :: n in f0.state.groupsByName ==> f0.state.groupsByName[n] < |f0.state.groups|
    requires r.0.state.defaultPermissionGroup < |r.0.state.groups| && NamesLoopInv(f0, r.0, gs, r.1, r.2, i)
    ensures var n := NamesNext(r, gs, i);
            NamesLoopInv(f0, n.0, gs, n.1, n.2, i + 1)
  {
    if gs[i].groupName in r.0.state.groupsByName {
      FoundNameKeeps(f0, r.0, gs, r.1, r.2, i);
    } else {
      CreatedNameKeeps(f0, r.0, gs, r.1, r.2, i);
    }
  }

  /**
   * Every turn of the first loop of `ImportPermissionGroupNamesAndIds` keeps
   * its invariant, so the state after any number of turns satisfies it.
   */
  lemma {:induction false} NamesAfterOk(f0: Fields, f: Fields, gs: seq<GroupNameAndId>, i: nat)
    requires i <= |gs| && Importable(gs) && f0.state.defaultPermissionGroup < |f0.state.groups|
    requires forall n :: n in f0.state.groupsByName ==> f0.state.groupsByName[n] < |f0.state.groups|
    requires f.state.defaultPermissionGroup < |f.state.groups| && NamesLoopInv(f0, f, gs, [], {}, 0)
    ensures var r := NamesAfter(f, gs, i);
            NamesLoopInv(f0, r.0, gs, r.1, r.2, i)
  {
    if i > 0 {
      NamesAfterOk(f0, f, gs, i - 1);
      var prev := NamesAfter(f, gs, i - 1);
      StepKeeps(f0, prev, gs, i - 1);
      assert NamesAfter(f, gs, i) == NamesNext(prev, gs, i - 1);
    }
  }
}
