/**
 * The condition lists that permission resolvers evaluate: entry i tests one
 * permission definition's value for the local player, possibly inverted, and is
 * joined to the entry before it by AND (`logicalAnds[i]`) or by OR. The entries
 * are read as an OR of runs, each run an AND of its entries; the flag of the
 * first entry is not consulted.
 */
module PermissionsUtil {
  import opened Records

  /** Entry `i` holds: the definition's value for the local player, unless inverted. */
  predicate Term(inverts: seq<bool>, defs: seq<PermissionDefinition>, i: nat)
    requires i < |defs| && i < |inverts|
  {
    defs[i].valueForLocalPlayer != inverts[i]
  }

  /** The lengths the evaluator relies on: one AND flag and one invert flag per definition. */
  predicate WellShaped(logicalAnds: seq<bool>, inverts: seq<bool>, defs: seq<PermissionDefinition>) {
    |defs| <= |logicalAnds| && |defs| <= |inverts|
  }

  /** Every entry from `j` up to the next OR entry (or the end) holds. */
  predicate ChainFrom(logicalAnds: seq<bool>, inverts: seq<bool>, defs: seq<PermissionDefinition>, j: nat)
    requires WellShaped(logicalAnds, inverts, defs)
    decreases |defs| - j
  {
    j >= |defs| || !logicalAnds[j] || (Term(inverts, defs, j) && ChainFrom(logicalAnds, inverts, defs, j + 1))
  }

  /** The run that starts at entry `s` holds: `s` itself and every AND entry after it. */
  predicate RunHolds(logicalAnds: seq<bool>, inverts: seq<bool>, defs: seq<PermissionDefinition>, s: nat)
    requires WellShaped(logicalAnds, inverts, defs) && s < |defs|
  {
    Term(inverts, defs, s) && ChainFrom(logicalAnds, inverts, defs, s + 1)
  }

  /** Some run that starts at an OR entry at or after `j` holds. */
  predicate SomeRunFrom(logicalAnds: seq<bool>, inverts: seq<bool>, defs: seq<PermissionDefinition>, j: nat)
    requires WellShaped(logicalAnds, inverts, defs)
    decreases |defs| - j
  {
    j < |defs|
    && ((!logicalAnds[j] && RunHolds(logicalAnds, inverts, defs, j)) || SomeRunFrom(logicalAnds, inverts, defs, j + 1))
  }

  /**
   * The meaning of a condition list: it is empty, or its first run holds, or a
   * later run holds.
   */
  predicate ConditionsHold(logicalAnds: seq<bool>, inverts: seq<bool>, defs: seq<PermissionDefinition>)
    requires WellShaped(logicalAnds, inverts, defs)
  {
    |defs| == 0 || RunHolds(logicalAnds, inverts, defs, 0) || SomeRunFrom(logicalAnds, inverts, defs, 1)
  }

  /**
   * Evaluates the list left to right with one running flag: an AND entry after a
   * failed entry is skipped, and an OR entry reached while the flag is set ends
   * the evaluation.
   */
  method ResolveConditionsList(logicalAnds: seq<bool>, inverts: seq<bool>, permissionDefs: seq<PermissionDefinition>)
    returns (conditionsMatching: bool)
    requires WellShaped(logicalAnds, inverts, permissionDefs)
    ensures conditionsMatching == ConditionsHold(logicalAnds, inverts, permissionDefs)
  {
    var length := |permissionDefs|;
    conditionsMatching := true;
    var i := 0;
    while i < length
      invariant 0 <= i <= length
      invariant i == 0 ==> conditionsMatching
      invariant 0 < i ==>
        (ConditionsHold(logicalAnds, inverts, permissionDefs)
         == ((conditionsMatching && ChainFrom(logicalAnds, inverts, permissionDefs, i))
             || SomeRunFrom(logicalAnds, inverts, permissionDefs, i)))
    {
      var logicalAnd := logicalAnds[i];
      if !conditionsMatching && logicalAnd {
        i := i + 1;
        continue;
      }
      if !logicalAnd && conditionsMatching && i != 0 {
        break;
      }
      conditionsMatching := permissionDefs[i].valueForLocalPlayer != inverts[i];
      i := i + 1;
    }
  }

  // ---------------------------------------------------------------- Properties

  /** An empty list holds. */
  lemma EmptyListHolds(logicalAnds: seq<bool>, inverts: seq<bool>)
    ensures ConditionsHold(logicalAnds, inverts, [])
  {
  }

  /** A one-entry list is that entry's test, whatever its AND flag says. */
  lemma {:induction false} SingleEntry(logicalAnds: seq<bool>, inverts: seq<bool>, defs: seq<PermissionDefinition>)
    requires |defs| == 1 && WellShaped(logicalAnds, inverts, defs)
    ensures ConditionsHold(logicalAnds, inverts, defs) == (defs[0].valueForLocalPlayer != inverts[0])
  {
    assert ChainFrom(logicalAnds, inverts, defs, 1);
    assert !SomeRunFrom(logicalAnds, inverts, defs, 1);
  }

  /** Entries `j` to `k`, both included, are all AND entries. */
  predicate AllAndsThrough(logicalAnds: seq<bool>, j: nat, k: nat)
    requires k < |logicalAnds|
  {
    forall m :: j <= m <= k ==> logicalAnds[m]
  }

  /**
   * The chain from `j` holds exactly when every entry it reaches holds: each
   * entry `k` with only AND entries from `j` to `k` inclusive.
   */
  lemma {:induction false} ChainFromIff(logicalAnds: seq<bool>, inverts: seq<bool>, defs: seq<PermissionDefinition>, j: nat)
    requires WellShaped(logicalAnds, inverts, defs)
    ensures ChainFrom(logicalAnds, inverts, defs, j)
      <==> forall k :: j <= k < |defs| && AllAndsThrough(logicalAnds, j, k) ==> Term(inverts, defs, k)
    decreases |defs| - j
  {
    if j < |defs| && logicalAnds[j] {
      ChainFromIff(logicalAnds, inverts, defs, j + 1);
      forall k | j + 1 <= k < |defs| && AllAndsThrough(logicalAnds, j, k)
        ensures AllAndsThrough(logicalAnds, j + 1, k)
      {
      }
      forall k | j + 1 <= k < |defs| && AllAndsThrough(logicalAnds, j + 1, k)
        ensures AllAndsThrough(logicalAnds, j, k)
      {
      }
    } else if j < |defs| {
      assert forall k :: j <= k < |defs| ==> !AllAndsThrough(logicalAnds, j, k);
    }
  }

  /** Entry `s` starts a run: it is the first entry or an OR entry. */
  predicate StartsRun(logicalAnds: seq<bool>, s: nat)
    requires s < |logicalAnds|
  {
    s == 0 || !logicalAnds[s]
  }

  /** Some run that starts at an OR entry at or after `j` holds, stated with an existential. */
  lemma {:induction false} SomeRunFromIff(logicalAnds: seq<bool>, inverts: seq<bool>, defs: seq<PermissionDefinition>, j: nat)
    requires WellShaped(logicalAnds, inverts, defs)
    ensures SomeRunFrom(logicalAnds, inverts, defs, j)
      <==> exists s :: j <= s < |defs| && !logicalAnds[s] && RunHolds(logicalAnds, inverts, defs, s)
    decreases |defs| - j
  {
    if j < |defs| {
      SomeRunFromIff(logicalAnds, inverts, defs, j + 1);
    }
  }

  /**
   * The list holds exactly when it is empty or some run (a first or OR entry
   * followed by its AND entries) has every entry holding: the OR over runs of
   * the AND within each run.
   */
  lemma DisjunctionOfRuns(logicalAnds: seq<bool>, inverts: seq<bool>, defs: seq<PermissionDefinition>)
    requires WellShaped(logicalAnds, inverts, defs)
    ensures ConditionsHold(logicalAnds, inverts, defs)
      <==> (|defs| == 0
            || exists s :: 0 <= s < |defs| && StartsRun(logicalAnds, s)
                 && Term(inverts, defs, s)
                 && forall k :: s < k < |defs| && AllAndsThrough(logicalAnds, s + 1, k) ==> Term(inverts, defs, k))
  {
    forall s | 0 <= s < |defs|
      ensures RunHolds(logicalAnds, inverts, defs, s)
        <==> (Term(inverts, defs, s)
              && forall k :: s < k < |defs| && AllAndsThrough(logicalAnds, s + 1, k) ==> Term(inverts, defs, k))
    {
      ChainFromIff(logicalAnds, inverts, defs, s + 1);
    }
    SomeRunFromIff(logicalAnds, inverts, defs, 1);
  }

  /**
   * Once some prefix of the list holds and an OR entry follows it, the whole
   * list holds: the evaluator stops there and never reads the entries after it.
   */
  lemma {:induction false} OrEntryAfterMatchDecides(logicalAnds: seq<bool>, inverts: seq<bool>, defs: seq<PermissionDefinition>, k: nat)
    requires WellShaped(logicalAnds, inverts, defs) && 0 < k < |defs| && !logicalAnds[k]
    requires ConditionsHold(logicalAnds[..k], inverts[..k], defs[..k])
    ensures ConditionsHold(logicalAnds, inverts, defs)
  {
    PrefixRunsCarryOver(logicalAnds, inverts, defs, k);
  }

  /**
   * A run that ends before the OR entry at `k` means the same in the prefix of
   * length `k` and in the whole list, so a prefix that holds makes the list hold.
   */
  lemma {:induction false} PrefixRunsCarryOver(logicalAnds: seq<bool>, inverts: seq<bool>, defs: seq<PermissionDefinition>, k: nat)
    requires WellShaped(logicalAnds, inverts, defs) && 0 < k < |defs| && !logicalAnds[k]
    ensures ConditionsHold(logicalAnds[..k], inverts[..k], defs[..k]) ==> ConditionsHold(logicalAnds, inverts, defs)
  {
    var a, v, d := logicalAnds[..k], inverts[..k], defs[..k];
    forall j | 0 <= j <= k
      ensures ChainFrom(a, v, d, j) ==> ChainFrom(logicalAnds, inverts, defs, j)
    {
      ChainPrefix(logicalAnds, inverts, defs, k, j);
    }
    if RunHolds(a, v, d, 0) {
      assert RunHolds(logicalAnds, inverts, defs, 0);
    } else if SomeRunFrom(a, v, d, 1) {
      SomeRunFromIff(a, v, d, 1);
      var s :| 1 <= s < k && !a[s] && RunHolds(a, v, d, s);
      assert RunHolds(logicalAnds, inverts, defs, s);
      SomeRunFromIff(logicalAnds, inverts, defs, 1);
    }
  }

  /** The chain from `j` in the prefix of length `k` implies the chain from `j` in the list, when entry `k` is an OR. */
  lemma {:induction false} ChainPrefix(logicalAnds: seq<bool>, inverts: seq<bool>, defs: seq<PermissionDefinition>, k: nat, j: nat)
    requires WellShaped(logicalAnds, inverts, defs) && 0 < k < |defs| && !logicalAnds[k] && j <= k
    ensures ChainFrom(logicalAnds[..k], inverts[..k], defs[..k], j) ==> ChainFrom(logicalAnds, inverts, defs, j)
    decreases k - j
  {
    if j < k {
      ChainPrefix(logicalAnds, inverts, defs, k, j + 1);
    }
  }

  /**
   * Every entry at or after `f` up to the next OR entry is skipped once entry
   * `f` has failed: if `f` fails, the list holds only through a run that starts
   * after it.
   */
  lemma {:induction false} FailedEntrySinksItsRun(logicalAnds: seq<bool>, inverts: seq<bool>, defs: seq<PermissionDefinition>, s: nat, f: nat)
    requires WellShaped(logicalAnds, inverts, defs) && s <= f < |defs|
    requires StartsRun(logicalAnds, s) && AllAndsThrough(logicalAnds, s + 1, f) && !Term(inverts, defs, f)
    ensures !RunHolds(logicalAnds, inverts, defs, s)
  {
    ChainFromIff(logicalAnds, inverts, defs, s + 1);
    if f > s {
      assert AllAndsThrough(logicalAnds, s + 1, f);
    }
  }

  /** Entries past the end of the definition list are never consulted. */
  lemma {:induction false} ExtraFlagsIgnored(logicalAnds: seq<bool>, inverts: seq<bool>, defs: seq<PermissionDefinition>, moreAnds: seq<bool>, moreInverts: seq<bool>)
    requires WellShaped(logicalAnds, inverts, defs)
    ensures ConditionsHold(logicalAnds + moreAnds, inverts + moreInverts, defs) == ConditionsHold(logicalAnds, inverts, defs)
  {
    var a, v := logicalAnds + moreAnds, inverts + moreInverts;
    forall j | 0 <= j <= |defs|
      ensures ChainFrom(a, v, defs, j) == ChainFrom(logicalAnds, inverts, defs, j)
    {
      ChainExtra(logicalAnds, inverts, defs, moreAnds, moreInverts, j);
    }
    SomeExtra(logicalAnds, inverts, defs, moreAnds, moreInverts, 1);
  }

  lemma {:induction false} ChainExtra(logicalAnds: seq<bool>, inverts: seq<bool>, defs: seq<PermissionDefinition>, moreAnds: seq<bool>, moreInverts: seq<bool>, j: nat)
    requires WellShaped(logicalAnds, inverts, defs)
    ensures ChainFrom(logicalAnds + moreAnds, inverts + moreInverts, defs, j) == ChainFrom(logicalAnds, inverts, defs, j)
    decreases |defs| - j
  {
    if j < |defs| {
      ChainExtra(logicalAnds, inverts, defs, moreAnds, moreInverts, j + 1);
    }
  }

  lemma {:induction false} SomeExtra(logicalAnds: seq<bool>, inverts: seq<bool>, defs: seq<PermissionDefinition>, moreAnds: seq<bool>, moreInverts: seq<bool>, j: nat)
    requires WellShaped(logicalAnds, inverts, defs)
    ensures SomeRunFrom(logicalAnds + moreAnds, inverts + moreInverts, defs, j) == SomeRunFrom(logicalAnds, inverts, defs, j)
    decreases |defs| - j
  {
    if j < |defs| {
      ChainExtra(logicalAnds, inverts, defs, moreAnds, moreInverts, j + 1);
      SomeExtra(logicalAnds, inverts, defs, moreAnds, moreInverts, j + 1);
    }
  }
}
