/**
 * The two ways the manager takes an element out of a dense list: the
 * swap-with-last removal it writes out itself for the member lists, and the
 * order-keeping `ArrList.Remove` it calls for the group array (that helper
 * library is not part of this model; its removal is taken to drop the first
 * occurrence and shift the rest down).
 */
module ArrList {

  /** The last element moves into slot `i` and the list shrinks by one. */
  function SwapRemove<T>(s: seq<T>, i: nat): (r: seq<T>)
    requires i < |s|
    ensures |r| == |s| - 1
    ensures forall k :: 0 <= k < |r| && k != i ==> r[k] == s[k]
    ensures i < |r| ==> r[i] == s[|s| - 1]
  {
    if i == |s| - 1 then s[..|s| - 1] else s[..|s| - 1][i := s[|s| - 1]]
  }

  /** Swap-removal takes out exactly the element at `i`: the rest is a permutation of what remains. */
  lemma SwapRemoveMultiset<T>(s: seq<T>, i: nat)
    requires i < |s|
    ensures multiset(SwapRemove(s, i)) == multiset(s) - multiset{s[i]}
  {
    var last := |s| - 1;
    assert s == s[..last] + [s[last]];
    if i < last {
      var init := s[..last];
      assert init == init[..i] + [s[i]] + init[i + 1..];
      assert SwapRemove(s, i) == init[..i] + [s[last]] + init[i + 1..];
    }
  }

  /** `ArrList.Remove`: the first occurrence of `x` is dropped, the order of the rest is kept. */
  function Remove<T(==)>(s: seq<T>, x: T): seq<T>
  {
    if s == [] then []
    else if s[0] == x then s[1..] else [s[0]] + Remove(s[1..], x)
  }

  /** `Remove` takes out exactly one copy of `x` when there is one, and changes nothing otherwise. */
  lemma {:induction false} RemoveCounts<T>(s: seq<T>, x: T)
    ensures x in s ==> |Remove(s, x)| == |s| - 1
    ensures x !in s ==> Remove(s, x) == s
    ensures multiset(Remove(s, x)) == multiset(s) - multiset{x}
  {
    if s != [] {
      assert s == [s[0]] + s[1..];
      RemoveCounts(s[1..], x);
    }
  }

  /** In a list without repeats, removing the element at `i` drops position `i` and keeps the rest in order. */
  lemma {:induction false} RemoveAt<T>(s: seq<T>, i: nat)
    requires Distinct(s) && i < |s|
    ensures Remove(s, s[i]) == s[..i] + s[i + 1..]
  {
    if i > 0 {
      TailDistinct(s);
      RemoveAt(s[1..], i - 1);
      assert s[1..][i - 1] == s[i];
      assert s[0] != s[i];
      assert [s[0]] + (s[1..][..i - 1] + s[1..][i..]) == s[..i] + s[i + 1..];
    }
  }

  /** No element occurs twice. */
  predicate Distinct<T(==)>(s: seq<T>) {
    forall i, j :: 0 <= i < j < |s| ==> s[i] != s[j]
  }

  /** Without its last element a list without repeats has none either, and does not hold that element. */
  lemma InitDistinct<T>(s: seq<T>)
    requires s != [] && Distinct(s)
    ensures Distinct(s[..|s| - 1]) && s[|s| - 1] !in s[..|s| - 1]
  {
    var init := s[..|s| - 1];
    forall j | 0 <= j < |init| ensures init[j] != s[|s| - 1] {
      assert init[j] == s[j];
    }
  }

  /** The tail of a list without repeats has none either, and does not hold the head. */
  lemma TailDistinct<T>(s: seq<T>)
    requires s != [] && Distinct(s)
    ensures Distinct(s[1..]) && s[0] !in s[1..]
  {
    var tail := s[1..];
    forall i, j | 0 <= i < j < |tail| ensures tail[i] != tail[j] {
      assert tail[i] == s[i + 1] && tail[j] == s[j + 1];
    }
    forall j | 0 <= j < |tail| ensures tail[j] != s[0] {
      assert tail[j] == s[j + 1];
    }
  }

  /** A head that the tail does not hold, in front of a tail without repeats, gives a list without repeats. */
  lemma ConsDistinct<T>(x: T, s: seq<T>)
    requires Distinct(s) && x !in s
    ensures Distinct([x] + s)
  {
    var r := [x] + s;
    forall i, j | 0 <= i < j < |r| ensures r[i] != r[j] {
      assert r[j] == s[j - 1];
      if i > 0 {
        assert r[i] == s[i - 1];
      }
    }
  }

  /** An element the list does not hold, appended to a list without repeats, gives a list without repeats. */
  lemma SnocDistinct<T>(s: seq<T>, x: T)
    requires Distinct(s) && x !in s
    ensures Distinct(s + [x])
  {
    var r := s + [x];
    forall i, j | 0 <= i < j < |r| ensures r[i] != r[j] {
      assert r[i] == s[i];
      if j < |s| {
        assert r[j] == s[j];
      }
    }
  }

  /** A prefix of a prefix is a prefix. */
  lemma PrefixOfPrefix<T>(a: seq<T>, b: seq<T>, c: seq<T>)
    requires |a| <= |b| <= |c| && b[..|a|] == a && c[..|b|] == b
    ensures c[..|a|] == a
  {
    assert c[..|a|] == c[..|b|][..|a|];
  }

  /** Removing an element that occurs once leaves every other element, and only those, in the list. */
  lemma {:induction false} RemoveMembers<T>(s: seq<T>, x: T, y: T)
    requires Distinct(s)
    ensures y in Remove(s, x) <==> y in s && y != x
  {
    if s != [] {
      TailDistinct(s);
      assert s == [s[0]] + s[1..];
      if s[0] != x {
        RemoveMembers(s[1..], x, y);
      }
    }
  }

  /** Removal keeps the elements distinct. */
  lemma {:induction false} RemoveKeepsDistinct<T>(s: seq<T>, x: T)
    requires Distinct(s)
    ensures Distinct(Remove(s, x))
  {
    if s != [] {
      TailDistinct(s);
      if s[0] != x {
        RemoveKeepsDistinct(s[1..], x);
        RemoveMembers(s[1..], x, s[0]);
        ConsDistinct(s[0], Remove(s[1..], x));
      }
    }
  }
}
