/**
 * The registry of every permission resolver in the world: a dense array whose
 * first `allPermissionResolversCount` slots are live (a `None` slot is a
 * resolver that was destroyed), and a lookup table from each resolver to its
 * slot.
 */
module ResolverRegistry {
  import opened Wrappers
  import opened Records

  datatype Registry = Registry(resolvers: seq<Option<ResolverRef>>, lut: map<ResolverRef, nat>)

  /**
   * The array and the table agree: every resolver in the array is a key that
   * gives its slot, and every key gives a slot that holds it.
   */
  predicate RegistryOk(reg: Registry) {
    && (forall i :: 0 <= i < |reg.resolvers| && reg.resolvers[i].Some? ==>
          reg.resolvers[i].value in reg.lut && reg.lut[reg.resolvers[i].value] == i)
    && (forall r :: r in reg.lut ==> reg.lut[r] < |reg.resolvers| && reg.resolvers[reg.lut[r]] == Some(r))
  }

  /** `IsResolverExistenceRegistered`: the resolver is a key of the table. */
  predicate IsRegistered(reg: Registry, r: ResolverRef) {
    r in reg.lut
  }

  /** How often `r` sits in the live slots. */
  function Occurrences(s: seq<Option<ResolverRef>>, r: ResolverRef): (n: nat)
    ensures n <= |s|
  {
    if s == [] then 0 else Occurrences(s[..|s| - 1], r) + (if s[|s| - 1] == Some(r) then 1 else 0)
  }

  /** `RegisterResolverExistence`: the table gets the next slot, the array gets the resolver there. */
  function Register(reg: Registry, r: ResolverRef): (after: Registry)
    requires !IsRegistered(reg, r)
  {
    Registry(reg.resolvers + [Some(r)], reg.lut[r := |reg.resolvers|])
  }

  /**
   * `DeregisterResolverExistence` as it is written: after dropping the key and
   * shrinking the array, it reads the "top" from the freed slot itself, so the
   * last entry is never moved down.
   */
  function DeregisterAsWritten(reg: Registry, r: ResolverRef): (after: Registry)
    requires RegistryOk(reg)
  {
    if r !in reg.lut then reg
    else
      var index := reg.lut[r];
      var lut := reg.lut - {r};
      var count := |reg.resolvers| - 1;
      if count == index then Registry(reg.resolvers[..count], lut)
      else
        var top := reg.resolvers[index];
        Registry(reg.resolvers[..count][index := top], if top.Some? then lut[top.value := index] else lut)
  }

  /** `DeregisterResolverExistence` as intended: the last entry moves into the freed slot. */
  function Deregister(reg: Registry, r: ResolverRef): (after: Registry)
    requires RegistryOk(reg)
  {
    if r !in reg.lut then reg
    else
      var index := reg.lut[r];
      var lut := reg.lut - {r};
      var count := |reg.resolvers| - 1;
      if count == index then Registry(reg.resolvers[..count], lut)
      else
        var top := reg.resolvers[count];
        Registry(reg.resolvers[..count][index := top], if top.Some? then lut[top.value := index] else lut)
  }

  // ---------------------------------------------------------------- Properties

  /** Each registered resolver sits in exactly one slot. */
  lemma {:induction false} RegisteredOnce(reg: Registry, r: ResolverRef)
    requires RegistryOk(reg)
    ensures Occurrences(reg.resolvers, r) == if IsRegistered(reg, r) then 1 else 0
  {
    OccurrencesByIndex(reg.resolvers, r, if r in reg.lut then reg.lut[r] else |reg.resolvers|);
  }

  /** `r` occurs once when slot `k` is its only slot, and never when it has no slot. */
  lemma {:induction false} OccurrencesByIndex(s: seq<Option<ResolverRef>>, r: ResolverRef, k: nat)
    requires forall i :: 0 <= i < |s| && s[i] == Some(r) ==> i == k
    requires k < |s| ==> s[k] == Some(r)
    ensures Occurrences(s, r) == if k < |s| then 1 else 0
    decreases |s|
  {
    if s != [] {
      var init := s[..|s| - 1];
      OccurrencesByIndex(init, r, if k < |s| - 1 then k else |s| - 1);
    }
  }

  /** Registering keeps the array and table in agreement and makes the resolver registered. */
  lemma RegisterKeepsRegistry(reg: Registry, r: ResolverRef)
    requires RegistryOk(reg) && !IsRegistered(reg, r)
    ensures RegistryOk(Register(reg, r)) && IsRegistered(Register(reg, r), r)
    ensures forall q :: IsRegistered(Register(reg, r), q) <==> q == r || IsRegistered(reg, q)
  {
  }

  /**
   * The intended deregistration keeps the array and table in agreement,
   * unregisters exactly the given resolver and shrinks the array by one slot
   * when it was registered.
   */
  lemma DeregisterKeepsRegistry(reg: Registry, r: ResolverRef)
    requires RegistryOk(reg)
    ensures RegistryOk(Deregister(reg, r))
    ensures forall q :: IsRegistered(Deregister(reg, r), q) <==> q != r && IsRegistered(reg, q)
    ensures |Deregister(reg, r).resolvers| == if IsRegistered(reg, r) then |reg.resolvers| - 1 else |reg.resolvers|
  {
    if r in reg.lut {
      var index := reg.lut[r];
      var count := |reg.resolvers| - 1;
      var after := Deregister(reg, r);
      if count != index {
        var top := reg.resolvers[count];
        forall i | 0 <= i < |after.resolvers| && after.resolvers[i].Some?
          ensures after.resolvers[i].value in after.lut && after.lut[after.resolvers[i].value] == i
        {
          if i != index {
            assert after.resolvers[i] == reg.resolvers[i];
            assert reg.resolvers[i] != Some(r);
          }
        }
        forall q | q in after.lut
          ensures after.lut[q] < |after.resolvers| && after.resolvers[after.lut[q]] == Some(q)
        {
          if Some(q) != top {
            assert reg.lut[q] != count && reg.lut[q] != index;
          }
        }
      }
    }
  }

  /** Registering a resolver and then deregistering it gives back the registry it started from. */
  lemma {:induction false} RegisterThenDeregister(reg: Registry, r: ResolverRef)
    requires RegistryOk(reg) && !IsRegistered(reg, r)
    ensures RegistryOk(Register(reg, r))
    ensures Deregister(Register(reg, r), r) == reg
  {
    RegisterKeepsRegistry(reg, r);
    var after := Register(reg, r);
    assert after.resolvers[..|reg.resolvers|] == reg.resolvers;
    assert after.lut - {r} == reg.lut;
  }

  /** In the last-slot case the written and the intended deregistration agree, so the written one is correct there. */
  lemma LastSlotDeregisterAsWrittenIsCorrect(reg: Registry, r: ResolverRef)
    requires RegistryOk(reg) && IsRegistered(reg, r) && reg.lut[r] == |reg.resolvers| - 1
    ensures DeregisterAsWritten(reg, r) == Deregister(reg, r)
    ensures RegistryOk(DeregisterAsWritten(reg, r)) && !IsRegistered(DeregisterAsWritten(reg, r), r)
  {
    DeregisterKeepsRegistry(reg, r);
  }

  /**
   * The written deregistration of a resolver that is not in the last slot:
   * with resolvers 1 and 2 in slots 0 and 1, deregistering 1 leaves 1
   * registered in slot 0 and leaves 2 in the table pointing past the live
   * slots, while 2 is no longer in the array.
   */
  lemma DeregisterAsWrittenLosesTop()
    ensures var reg := Registry([Some(1), Some(2)], map[1 := 0, 2 := 1]);
            && RegistryOk(reg)
            && var after := DeregisterAsWritten(reg, 1);
            && after == Registry([Some(1)], map[1 := 0, 2 := 1])
            && IsRegistered(after, 1)
            && !RegistryOk(after)
            && Occurrences(after.resolvers, 2) == 0
  {
    var reg := Registry([Some(1), Some(2)], map[1 := 0, 2 := 1]);
    var after := DeregisterAsWritten(reg, 1);
    assert reg.lut - {1} == map[2 := 1];
    assert after.resolvers == [Some(1)];
    assert after.lut == map[1 := 0, 2 := 1];
    assert after.lut[2] >= |after.resolvers|;
    assert after.resolvers[..0] == [];
  }

  /**
   * The registry `Start` leaves as it is written: the table's field initializer
   * has already made it an empty table, so the `null` guard never builds it,
   * while the array still holds the resolvers serialized with the scene.
   */
  function StartAsWritten(resolvers: seq<Option<ResolverRef>>): Registry {
    Registry(resolvers, map[])
  }

  /**
   * After `Start` as written, a resolver the scene already holds in slot `k` is
   * not registered, the array and the table disagree, and registering it puts
   * it in a second slot, which no consistent registry allows.
   */
  lemma StartAsWrittenMissesSceneResolvers(resolvers: seq<Option<ResolverRef>>, k: nat)
    requires k < |resolvers| && resolvers[k].Some?
    ensures var reg := StartAsWritten(resolvers);
            var r := resolvers[k].value;
            && !IsRegistered(reg, r)
            && !RegistryOk(reg)
            && var after := Register(reg, r);
            && after.resolvers[k] == Some(r) && after.resolvers[|resolvers|] == Some(r)
            && !RegistryOk(after)
  {
    var reg := StartAsWritten(resolvers);
    var r := resolvers[k].value;
    var after := Register(reg, r);
    assert after.resolvers[k] == Some(r) && after.lut[r] == |resolvers| != k;
  }

  // ---------------------------------------------------------------- The live resolvers

  /** The resolver in a slot, as a multiset (empty for a destroyed one). */
  function Slot(o: Option<ResolverRef>): multiset<ResolverRef> {
    if o.Some? then multiset{o.value} else multiset{}
  }

  /** Every resolver in the slots, as often as it appears. */
  function Live(s: seq<Option<ResolverRef>>): multiset<ResolverRef> {
    if s == [] then multiset{} else Live(s[..|s| - 1]) + Slot(s[|s| - 1])
  }

  lemma {:induction false} LiveAppend(a: seq<Option<ResolverRef>>, b: seq<Option<ResolverRef>>)
    ensures Live(a + b) == Live(a) + Live(b)
    decreases |b|
  {
    if b == [] {
      assert a + b == a;
    } else {
      assert (a + b)[..|a + b| - 1] == a + b[..|b| - 1];
      LiveAppend(a, b[..|b| - 1]);
    }
  }

  lemma LiveSingle(o: Option<ResolverRef>)
    ensures Live([o]) == Slot(o)
  {
    assert [o][..0] == [];
  }

  /** Overwriting one slot exchanges its resolver for the new one. */
  lemma LiveUpdate(s: seq<Option<ResolverRef>>, i: nat, v: Option<ResolverRef>)
    requires i < |s|
    ensures Live(s[i := v]) + Slot(s[i]) == Live(s) + Slot(v)
  {
    assert s == s[..i] + [s[i]] + s[i + 1..];
    assert s[i := v] == s[..i] + [v] + s[i + 1..];
    LiveAppend(s[..i] + [s[i]], s[i + 1..]);
    LiveAppend(s[..i] + [v], s[i + 1..]);
    LiveAppend(s[..i], [s[i]]);
    LiveAppend(s[..i], [v]);
    LiveSingle(s[i]);
    LiveSingle(v);
  }

  /** The resolvers in the slots from `i` on are the one in slot `i` and those after it. */
  lemma LiveFrom(s: seq<Option<ResolverRef>>, i: nat)
    requires i < |s|
    ensures Live(s[i..]) == Slot(s[i]) + Live(s[i + 1..])
  {
    assert s[i..] == [s[i]] + s[i + 1..];
    LiveAppend([s[i]], s[i + 1..]);
    LiveSingle(s[i]);
  }

  /** In a consistent registry the live resolvers are exactly the keys of the table, each once. */
  lemma {:induction false} LiveIsKeys(reg: Registry, r: ResolverRef)
    requires RegistryOk(reg)
    ensures Live(reg.resolvers)[r] == if r in reg.lut then 1 else 0
  {
    LiveCounts(reg.resolvers, r);
    RegisteredOnce(reg, r);
  }

  lemma {:induction false} LiveCounts(s: seq<Option<ResolverRef>>, r: ResolverRef)
    ensures Live(s)[r] == Occurrences(s, r)
  {
    if s != [] {
      LiveCounts(s[..|s| - 1], r);
    }
  }

  // ---------------------------------------------------------------- Compaction of destroyed slots

  /** No resolver occupies two slots. */
  predicate DistinctResolvers(s: seq<Option<ResolverRef>>) {
    forall i, j :: 0 <= i < j < |s| && s[i].Some? ==> s[i] != s[j]
  }

  /**
   * Part way through a walk from the top of the array down to `i`: the array
   * and the table agree on the slots above `i`, and the table names no other slot.
   */
  predicate ProcessedAbove(s: seq<Option<ResolverRef>>, lut: map<ResolverRef, nat>, i: int) {
    && (forall j :: 0 <= j < |s| && i < j && s[j].Some? ==> s[j].value in lut && lut[s[j].value] == j)
    && (forall r :: r in lut ==> i < lut[r] < |s| && s[lut[r]] == Some(r))
  }

  /** The resolvers above `i`. */
  function LiveAbove(s: seq<Option<ResolverRef>>, i: int): multiset<ResolverRef>
    requires -1 <= i < |s|
  {
    Live(s[i + 1..])
  }

  /** Walked all the way down, the array and the table agree. */
  lemma ProcessedAllOk(s: seq<Option<ResolverRef>>, lut: map<ResolverRef, nat>)
    requires ProcessedAbove(s, lut, -1)
    ensures RegistryOk(Registry(s, lut))
  {
  }

  /** The array after filling destroyed slot `i` with the top entry. */
  function Compacted(s: seq<Option<ResolverRef>>, i: nat): seq<Option<ResolverRef>>
    requires i < |s| - 1
  {
    s[..|s| - 1][i := s[|s| - 1]]
  }

  /**
   * A destroyed slot `i` below the top takes the top entry (the array shrinks by
   * one), and the table entry of a moved resolver follows it: the walk may
   * go on below `i` with the same resolvers, and only slot `i` and the top changed.
   */
  lemma CompactStep(s: seq<Option<ResolverRef>>, lut: map<ResolverRef, nat>, i: nat)
    requires i < |s| - 1 && s[i].None? && DistinctResolvers(s) && ProcessedAbove(s, lut, i)
    ensures var top := s[|s| - 1];
            var lut' := if top.Some? then lut[top.value := i] else lut;
            && ProcessedAbove(Compacted(s, i), lut', i - 1)
            && lut'.Keys == lut.Keys
            && Compacted(s, i)[..i] == s[..i]
    ensures Live(Compacted(s, i)) == Live(s)
    ensures LiveAbove(Compacted(s, i), i - 1) == LiveAbove(s, i)
    ensures DistinctResolvers(Compacted(s, i))
  {
    CompactLiveA(s, i);
    CompactLiveB(s, i);
    CompactDistinct(s, i);
    CompactProcessed(s, lut, i);
  }

  lemma CompactProcessed(s: seq<Option<ResolverRef>>, lut: map<ResolverRef, nat>, i: nat)
    requires i < |s| - 1 && s[i].None? && DistinctResolvers(s) && ProcessedAbove(s, lut, i)
    ensures var top := s[|s| - 1];
            var lut' := if top.Some? then lut[top.value := i] else lut;
            && ProcessedAbove(Compacted(s, i), lut', i - 1)
            && lut'.Keys == lut.Keys
            && Compacted(s, i)[..i] == s[..i]
  {
    var count := |s| - 1;
    var top := s[count];
    var s' := Compacted(s, i);
    var lut' := if top.Some? then lut[top.value := i] else lut;
    assert |s'| == count;
    if top.Some? {
      assert top.value in lut;
    }
    forall j | 0 <= j < |s'| && i - 1 < j && s'[j].Some?
      ensures s'[j].value in lut' && lut'[s'[j].value] == j
    {
      if j == i {
        assert s'[j] == top;
      } else {
        assert s'[j] == s[j];
        assert top.Some? ==> s[j] != top;
      }
    }
    forall r | r in lut'
      ensures i - 1 < lut'[r] < |s'| && s'[lut'[r]] == Some(r)
    {
      if top.Some? && r == top.value {
      } else {
        assert lut'[r] == lut[r];
        assert s[lut[r]] == Some(r);
        assert lut[r] != i;
        assert lut[r] != count;
      }
    }
  }

  lemma CompactLiveA(s: seq<Option<ResolverRef>>, i: nat)
    requires i < |s| - 1 && s[i].None?
    ensures Live(Compacted(s, i)) == Live(s)
  {
    var count := |s| - 1;
    var top := s[count];
    var s' := Compacted(s, i);
    LiveUpdate(s[..count], i, top);
    assert Slot(None) == multiset{};
    assert Live(s') + multiset{} == Live(s[..count]) + Slot(top);
    assert Live(s') == Live(s[..count]) + Slot(top);
    assert Live(s) == Live(s[..count]) + Slot(top);
  }

  lemma CompactLiveB(s: seq<Option<ResolverRef>>, i: nat)
    requires i < |s| - 1 && s[i].None?
    ensures LiveAbove(Compacted(s, i), i - 1) == LiveAbove(s, i)
  {
    var count := |s| - 1;
    var top := s[count];
    var s' := Compacted(s, i);
    LiveFrom(s', i);
    assert s'[i + 1..] == s[i + 1..count];
    var above := s[i + 1..];
    assert above[..|above| - 1] == s[i + 1..count];
  }

  lemma CompactDistinct(s: seq<Option<ResolverRef>>, i: nat)
    requires i < |s| - 1 && DistinctResolvers(s)
    ensures DistinctResolvers(Compacted(s, i))
  {
    var count := |s| - 1;
    var s' := Compacted(s, i);
    forall a, b | 0 <= a < b < |s'| && s'[a].Some?
      ensures s'[a] != s'[b]
    {
      if a == i {
        assert s'[a] == s[count] && s'[b] == s[b];
      } else if b == i {
        assert s'[a] == s[a] && s'[b] == s[count];
      } else {
        assert s'[a] == s[a] && s'[b] == s[b];
      }
    }
  }

  /** A resolver found in slot `i` is not in the table yet, and entering it lets the walk go on. */
  lemma AddStep(s: seq<Option<ResolverRef>>, lut: map<ResolverRef, nat>, i: nat)
    requires i < |s| && s[i].Some? && DistinctResolvers(s) && ProcessedAbove(s, lut, i)
    ensures s[i].value !in lut
    ensures ProcessedAbove(s, lut[s[i].value := i], i - 1)
  {
  }

  /** The resolvers from `i` on are the one in slot `i` and those above it. */
  lemma LiveAboveStep(s: seq<Option<ResolverRef>>, i: nat)
    requires i < |s|
    ensures LiveAbove(s, i - 1) == Slot(s[i]) + LiveAbove(s, i)
  {
    LiveFrom(s, i);
  }

  /**
   * With the table complete, filling destroyed slot `i` with the top entry and
   * moving that entry's table entry along keeps the array and the table in
   * agreement, with the same resolvers registered.
   */
  lemma CompactKeepsRegistry(s: seq<Option<ResolverRef>>, lut: map<ResolverRef, nat>, i: nat)
    requires RegistryOk(Registry(s, lut)) && i < |s| - 1 && s[i].None?
    ensures var top := s[|s| - 1];
            var lut' := if top.Some? then lut[top.value := i] else lut;
            RegistryOk(Registry(Compacted(s, i), lut')) && lut'.Keys == lut.Keys
  {
    var count := |s| - 1;
    var top := s[count];
    var s' := Compacted(s, i);
    var lut' := if top.Some? then lut[top.value := i] else lut;
    forall j | 0 <= j < |s'| && s'[j].Some?
      ensures s'[j].value in lut' && lut'[s'[j].value] == j
    {
      if j != i {
        assert s'[j] == s[j];
        assert lut[s[j].value] == j;
        assert top.Some? ==> lut[top.value] == count;
      }
    }
    forall r | r in lut'
      ensures lut'[r] < |s'| && s'[lut'[r]] == Some(r)
    {
      if !(top.Some? && r == top.value) {
        assert lut'[r] == lut[r] && s[lut[r]] == Some(r);
        assert lut[r] != i;
        assert lut[r] != count;
      }
    }
  }

  /** The resolvers of the slots that are not destroyed, in slot order. */
  function Present(s: seq<Option<ResolverRef>>): (rs: seq<ResolverRef>)
    ensures |rs| <= |s|
  {
    if s == [] then [] else Present(s[..|s| - 1]) + (if s[|s| - 1].Some? then [s[|s| - 1].value] else [])
  }

  /** `Present` lists exactly the resolvers some slot holds. */
  lemma {:induction false} PresentMembers(s: seq<Option<ResolverRef>>)
    ensures forall r :: r in Present(s) <==> Some(r) in s
  {
    if s != [] {
      var init := s[..|s| - 1];
      PresentMembers(init);
      assert s == init + [s[|s| - 1]];
    }
  }

  /** `Present` lists each resolver as often as the slots hold it. */
  lemma {:induction false} PresentCountsLive(s: seq<Option<ResolverRef>>)
    ensures multiset(Present(s)) == Live(s)
  {
    if s != [] {
      PresentCountsLive(s[..|s| - 1]);
    }
  }

  /**
   * The resolvers of the slots that are not destroyed, from the last slot down
   * to the first: the order in which the walk of a view change resolves them.
   */
  function TopDown(s: seq<Option<ResolverRef>>): (rs: seq<ResolverRef>)
    ensures |rs| <= |s|
  {
    if s == [] then [] else (if s[|s| - 1].Some? then [s[|s| - 1].value] else []) + TopDown(s[..|s| - 1])
  }

  /** `TopDown` lists each resolver as often as the slots hold it. */
  lemma {:induction false} TopDownCountsLive(s: seq<Option<ResolverRef>>)
    ensures multiset(TopDown(s)) == Live(s)
  {
    if s != [] {
      TopDownCountsLive(s[..|s| - 1]);
    }
  }

  /** Concatenation regroups freely. */
  lemma ConcatAssoc(a: seq<ResolverRef>, b: seq<ResolverRef>, c: seq<ResolverRef>)
    ensures (a + b) + c == a + (b + c)
  {
  }

  /**
   * One turn of the walk at slot `i` in resolve order: the slots below `i` are
   * still those of the original array, and the calls made so far followed by
   * the top-down order of the slots up to `i` are the top-down order of the
   * whole original array.
   */
  lemma WalkOrderStep(s0: seq<Option<ResolverRef>>, s: seq<Option<ResolverRef>>, s': seq<Option<ResolverRef>>,
                      calls: seq<ResolverRef>, calls': seq<ResolverRef>, i: nat)
    requires i < |s0| && i < |s| && i <= |s'| && s[..i + 1] == s0[..i + 1] && s'[..i] == s[..i]
    requires calls + TopDown(s0[..i + 1]) == TopDown(s0)
    requires calls' == calls + (if s[i].Some? then [s[i].value] else [])
    ensures s'[..i] == s0[..i] && calls' + TopDown(s0[..i]) == TopDown(s0)
  {
    var prefix := s0[..i + 1];
    assert prefix[..|prefix| - 1] == s0[..i] && prefix[|prefix| - 1] == s0[i];
    var here := if s0[i].Some? then [s0[i].value] else [];
    assert TopDown(prefix) == here + TopDown(s0[..i]);
    assert s[i] == s[..i + 1][i] == s0[i];
    assert calls' == calls + here;
    ConcatAssoc(calls, here, TopDown(s0[..i]));
    assert s'[..i] == s[..i + 1][..i] == s0[..i];
  }

  /**
   * What the resolve-and-fill walk of a view change has established once every
   * slot above `i` is handled: still a registry of the same resolvers under
   * the same keys, no longer than before, and `resolvedAbove` holds exactly
   * the resolvers above `i`.
   */
  ghost predicate WalkOk(s0: seq<Option<ResolverRef>>, lut0: map<ResolverRef, nat>,
                         s: seq<Option<ResolverRef>>, lut: map<ResolverRef, nat>,
                         resolvedAbove: multiset<ResolverRef>, i: int) {
    && -1 <= i < |s| <= |s0|
    && RegistryOk(Registry(s, lut)) && lut.Keys == lut0.Keys && Live(s) == Live(s0)
    && resolvedAbove == LiveAbove(s, i)
  }

  lemma WalkResolveStep(s0: seq<Option<ResolverRef>>, lut0: map<ResolverRef, nat>,
                        s: seq<Option<ResolverRef>>, lut: map<ResolverRef, nat>,
                        resolvedAbove: multiset<ResolverRef>, i: nat)
    requires WalkOk(s0, lut0, s, lut, resolvedAbove, i) && s[i].Some?
    ensures WalkOk(s0, lut0, s, lut, resolvedAbove + multiset{s[i].value}, i - 1)
  {
    LiveAboveStep(s, i);
  }

  lemma WalkSkipTop(s0: seq<Option<ResolverRef>>, lut0: map<ResolverRef, nat>,
                    s: seq<Option<ResolverRef>>, lut: map<ResolverRef, nat>,
                    resolvedAbove: multiset<ResolverRef>, i: nat)
    requires WalkOk(s0, lut0, s, lut, resolvedAbove, i) && s[i].None?
    ensures WalkOk(s0, lut0, s, lut, resolvedAbove, i - 1)
  {
    LiveAboveStep(s, i);
  }

  lemma WalkFillStep(s0: seq<Option<ResolverRef>>, lut0: map<ResolverRef, nat>,
                     s: seq<Option<ResolverRef>>, lut: map<ResolverRef, nat>,
                     resolvedAbove: multiset<ResolverRef>, i: nat)
    requires WalkOk(s0, lut0, s, lut, resolvedAbove, i) && i < |s| - 1 && s[i].None?
    ensures var top := s[|s| - 1];
            WalkOk(s0, lut0, Compacted(s, i), if top.Some? then lut[top.value := i] else lut, resolvedAbove, i - 1)
  {
    LiveAboveStep(s, i);
    CompactKeepsRegistry(s, lut, i);
    CompactLiveA(s, i);
    CompactLiveB(s, i);
  }

  lemma WalkDone(s0: seq<Option<ResolverRef>>, lut0: map<ResolverRef, nat>,
                 s: seq<Option<ResolverRef>>, lut: map<ResolverRef, nat>, resolvedAbove: multiset<ResolverRef>)
    requires WalkOk(s0, lut0, s, lut, resolvedAbove, -1)
    ensures resolvedAbove == Live(s0)
  {
    assert s[0..] == s;
  }
}
