/**
 * Sequence operations shared by the server routes and the client components:
 * lookup by id (`find` / `findIndex` / subdocument `.id()`), removal by id
 * (`pull`, `findByIdAndDelete`), per-key sums (`reduce` into a dictionary) and
 * a descending sort by a numeric key (`sort({timestamp: -1})`,
 * `sort((a, b) => b.date - a.date)`).
 */
module Seqs {
  import opened Wrappers

  type Id = string

  // ---------------------------------------------------------------------------
  // Lookup and uniqueness
  // ---------------------------------------------------------------------------

  /** Index of the first element whose key is `key` (JS `findIndex`), or None. */
  function IndexOfKey<T>(xs: seq<T>, keyOf: T -> Id, key: Id): (r: Option<nat>)
    ensures r.Some? ==> r.value < |xs| && keyOf(xs[r.value]) == key
    ensures r.Some? ==> forall j :: 0 <= j < r.value ==> keyOf(xs[j]) != key
    ensures r.None? ==> forall j :: 0 <= j < |xs| ==> keyOf(xs[j]) != key
  {
    if |xs| == 0 then None
    else if keyOf(xs[0]) == key then Some(0)
    else match IndexOfKey(xs[1..], keyOf, key)
      case None => None
      case Some(k) => Some(k + 1)
  }

  /** Index of the first element satisfying `p` (JS `find` / `findIndex` with an arbitrary test), or None. */
  function IndexWhere<T>(xs: seq<T>, p: T -> bool): (r: Option<nat>)
    ensures r.Some? ==> r.value < |xs| && p(xs[r.value])
    ensures r.Some? ==> forall j :: 0 <= j < r.value ==> !p(xs[j])
    ensures r.None? ==> forall j :: 0 <= j < |xs| ==> !p(xs[j])
  {
    if |xs| == 0 then None
    else if p(xs[0]) then Some(0)
    else match IndexWhere(xs[1..], p)
      case None => None
      case Some(k) => Some(k + 1)
  }

  /** No two positions carry the same key. */
  ghost predicate UniqueKeys<T>(xs: seq<T>, keyOf: T -> Id) {
    forall i, j :: 0 <= i < |xs| && 0 <= j < |xs| && i != j ==> keyOf(xs[i]) != keyOf(xs[j])
  }

  /** Appending an element with a new key keeps keys unique. */
  lemma UniqueKeysAppend<T(!new)>(xs: seq<T>, keyOf: T -> Id, x: T)
    requires UniqueKeys(xs, keyOf) && keyOf(x) !in KeySet(xs, keyOf)
    ensures UniqueKeys(xs + [x], keyOf)
  {
    var r := xs + [x];
    forall i, j | 0 <= i < |r| && 0 <= j < |r| && i != j ensures keyOf(r[i]) != keyOf(r[j]) {
      if i == |xs| { assert xs[j] in xs; } else if j == |xs| { assert xs[i] in xs; }
    }
  }

  /** Appending an element whose key no position carries keeps keys unique. */
  lemma UniqueKeysSnocFresh<T>(xs: seq<T>, keyOf: T -> Id, x: T)
    requires UniqueKeys(xs, keyOf) && forall i :: 0 <= i < |xs| ==> keyOf(xs[i]) != keyOf(x)
    ensures UniqueKeys(xs + [x], keyOf)
  {
    var r := xs + [x];
    forall i, j | 0 <= i < |r| && 0 <= j < |r| && i != j ensures keyOf(r[i]) != keyOf(r[j]) {
      if i < |xs| { assert r[i] == xs[i]; }
      if j < |xs| { assert r[j] == xs[j]; }
    }
  }

  /** Replacing an element by one with the same key keeps keys unique. */
  lemma UniqueKeysUpdate<T>(xs: seq<T>, keyOf: T -> Id, i: nat, x: T)
    requires UniqueKeys(xs, keyOf) && i < |xs| && keyOf(x) == keyOf(xs[i])
    ensures UniqueKeys(xs[i := x], keyOf)
  {
  }

  /** With unique keys, an element is determined by its key. */
  lemma SameKeySameElement<T>(xs: seq<T>, keyOf: T -> Id, x: T, y: T)
    requires UniqueKeys(xs, keyOf) && x in xs && y in xs && keyOf(x) == keyOf(y)
    ensures x == y
  {
    var i :| 0 <= i < |xs| && xs[i] == x;
    var j :| 0 <= j < |xs| && xs[j] == y;
    assert i == j;
  }

  /** The set of keys present in `xs`. */
  function KeySet<T(!new)>(xs: seq<T>, keyOf: T -> Id): (r: set<Id>)
    ensures forall k :: k in r <==> exists x :: x in xs && keyOf(x) == k
  {
    if |xs| == 0 then {}
    else
      var r := KeySet(xs[..|xs| - 1], keyOf) + {keyOf(xs[|xs| - 1])};
      assert forall x :: x in xs <==> x in xs[..|xs| - 1] || x == xs[|xs| - 1] by {
        assert xs == xs[..|xs| - 1] + [xs[|xs| - 1]];
      }
      r
  }

  // ---------------------------------------------------------------------------
  // Removal by key
  // ---------------------------------------------------------------------------

  /** `xs` without every element whose key is in `keys`, order kept (Mongoose `pull`). */
  function RemoveKeys<T(!new)>(xs: seq<T>, keyOf: T -> Id, keys: set<Id>): (r: seq<T>)
    ensures forall x :: x in r <==> x in xs && keyOf(x) !in keys
    ensures |r| <= |xs|
  {
    if |xs| == 0 then []
    else
      var last := xs[|xs| - 1];
      var r := RemoveKeys(xs[..|xs| - 1], keyOf, keys) + (if keyOf(last) in keys then [] else [last]);
      assert forall x :: x in xs <==> x in xs[..|xs| - 1] || x == last by {
        assert xs == xs[..|xs| - 1] + [last];
      }
      r
  }

  /** Removal of one appended element, as a step on its own. */
  lemma RemoveKeysSnoc<T(!new)>(p: seq<T>, x: T, keyOf: T -> Id, keys: set<Id>)
    ensures RemoveKeys(p + [x], keyOf, keys) == RemoveKeys(p, keyOf, keys) + (if keyOf(x) in keys then [] else [x])
  {
    assert (p + [x])[..|p + [x]| - 1] == p;
  }

  lemma {:induction false} RemoveKeysAppend<T(!new)>(xs: seq<T>, ys: seq<T>, keyOf: T -> Id, keys: set<Id>)
    ensures RemoveKeys(xs + ys, keyOf, keys) == RemoveKeys(xs, keyOf, keys) + RemoveKeys(ys, keyOf, keys)
    decreases |ys|
  {
    if |ys| == 0 {
      assert xs + ys == xs;
    } else {
      var ys' := ys[..|ys| - 1];
      assert (xs + ys)[..|xs + ys| - 1] == xs + ys';
      RemoveKeysAppend(xs, ys', keyOf, keys);
    }
  }

  /** Keys that no element carries change nothing. */
  lemma {:induction false} RemoveAbsentKeys<T(!new)>(xs: seq<T>, keyOf: T -> Id, keys: set<Id>, extra: set<Id>)
    requires forall x :: x in xs ==> keyOf(x) !in extra
    ensures RemoveKeys(xs, keyOf, keys + extra) == RemoveKeys(xs, keyOf, keys)
    decreases |xs|
  {
    if |xs| > 0 {
      var p := xs[..|xs| - 1];
      assert forall x :: x in p ==> x in xs;
      RemoveAbsentKeys(p, keyOf, keys, extra);
      assert xs[|xs| - 1] in xs;
    }
  }

  /** Removing zero keys is the identity. */
  lemma RemoveNoKeys<T(!new)>(xs: seq<T>, keyOf: T -> Id)
    ensures RemoveKeys(xs, keyOf, {}) == xs
  {
    if |xs| > 0 {
      RemoveNoKeys(xs[..|xs| - 1], keyOf);
      assert xs == xs[..|xs| - 1] + [xs[|xs| - 1]];
    }
  }

  /** Two successive removals are one removal of the union. */
  lemma {:induction false} RemoveKeysTwice<T(!new)>(xs: seq<T>, keyOf: T -> Id, d: set<Id>, e: set<Id>)
    ensures RemoveKeys(RemoveKeys(xs, keyOf, d), keyOf, e) == RemoveKeys(xs, keyOf, d + e)
    decreases |xs|
  {
    if |xs| > 0 {
      var p := xs[..|xs| - 1];
      var last := xs[|xs| - 1];
      RemoveKeysTwice(p, keyOf, d, e);
      RemoveKeysAppend(RemoveKeys(p, keyOf, d), if keyOf(last) in d then [] else [last], keyOf, e);
      if keyOf(last) !in d {
        assert RemoveKeys([last], keyOf, e) == RemoveKeys([], keyOf, e) + (if keyOf(last) in e then [] else [last]) by {
          assert [last][..0] == [];
        }
      }
    }
  }

  /** Removing a key that no element carries is the identity. */
  lemma {:induction false} RemoveAbsentKey<T(!new)>(xs: seq<T>, keyOf: T -> Id, k: Id)
    requires forall j :: 0 <= j < |xs| ==> keyOf(xs[j]) != k
    ensures RemoveKeys(xs, keyOf, {k}) == xs
    decreases |xs|
  {
    if |xs| > 0 {
      RemoveAbsentKey(xs[..|xs| - 1], keyOf, k);
      assert xs == xs[..|xs| - 1] + [xs[|xs| - 1]];
    }
  }

  /** An element appended under a key the sequence does not hold is found last, and removing that key takes it back off. */
  lemma RemoveAppendedKey<T(!new)>(xs: seq<T>, x: T, keyOf: T -> Id)
    requires keyOf(x) !in KeySet(xs, keyOf)
    ensures IndexOfKey(xs + [x], keyOf, keyOf(x)) == Some(|xs|)
    ensures RemoveKeys(xs + [x], keyOf, {keyOf(x)}) == xs
  {
    forall j | 0 <= j < |xs| ensures keyOf(xs[j]) != keyOf(x) {
      assert xs[j] in xs;
    }
    IndexOfAppended(xs, x, keyOf);
    RemoveKeysSnoc(xs, x, keyOf, {keyOf(x)});
    RemoveAbsentKey(xs, keyOf, keyOf(x));
  }

  lemma IndexOfAppended<T>(xs: seq<T>, x: T, keyOf: T -> Id)
    requires forall j :: 0 <= j < |xs| ==> keyOf(xs[j]) != keyOf(x)
    ensures IndexOfKey(xs + [x], keyOf, keyOf(x)) == Some(|xs|)
  {
    var ys := xs + [x];
    assert ys[|xs|] == x;
    assert forall j :: 0 <= j < |xs| ==> ys[j] == xs[j];
  }

  /** When only position `i` carries its key, splicing it out is removing that key. */
  lemma {:induction false} SpliceIsRemoveKey<T(!new)>(xs: seq<T>, keyOf: T -> Id, i: nat)
    requires i < |xs|
    requires forall j :: 0 <= j < |xs| && j != i ==> keyOf(xs[j]) != keyOf(xs[i])
    ensures xs[..i] + xs[i + 1..] == RemoveKeys(xs, keyOf, {keyOf(xs[i])})
    decreases |xs|
  {
    var p := xs[..|xs| - 1];
    var last := xs[|xs| - 1];
    var k := keyOf(xs[i]);
    assert xs == p + [last];
    if i == |xs| - 1 {
      RemoveAbsentKey(p, keyOf, k);
      assert xs[i + 1..] == [];
    } else {
      assert p[i] == xs[i];
      assert forall j :: 0 <= j < |p| && j != i ==> keyOf(p[j]) != keyOf(p[i]) by {
        assert forall j :: 0 <= j < |p| ==> p[j] == xs[j];
      }
      SpliceIsRemoveKey(p, keyOf, i);
      assert keyOf(last) != k;
      RemoveKeysSnoc(p, last, keyOf, {k});
      SpliceSnoc(p, last, i);
    }
  }

  lemma SpliceSnoc<T>(p: seq<T>, x: T, i: nat)
    requires i < |p|
    ensures (p + [x])[..i] + (p + [x])[i + 1..] == (p[..i] + p[i + 1..]) + [x]
  {
    assert (p + [x])[..i] == p[..i];
    assert (p + [x])[i + 1..] == p[i + 1..] + [x];
  }

  /** With unique keys, splicing out position `i` is removing the key found there. */
  lemma SpliceUniqueIsRemoveKey<T(!new)>(xs: seq<T>, keyOf: T -> Id, i: nat)
    requires i < |xs| && UniqueKeys(xs, keyOf)
    ensures xs[..i] + xs[i + 1..] == RemoveKeys(xs, keyOf, {keyOf(xs[i])})
  {
    SpliceIsRemoveKey(xs, keyOf, i);
  }

  /** Unique keys survive any removal (the result is a subsequence). */
  lemma RemoveKeysUnique<T(!new)>(xs: seq<T>, keyOf: T -> Id, keys: set<Id>)
    requires UniqueKeys(xs, keyOf)
    ensures UniqueKeys(RemoveKeys(xs, keyOf, keys), keyOf)
  {
    RemoveKeysKeepsUnique(xs, keyOf, keys, keyOf);
  }

  /** Removing by one key keeps any other key unique as well. */
  lemma {:induction false} RemoveKeysKeepsUnique<T(!new)>(xs: seq<T>, keyOf: T -> Id, keys: set<Id>, uniq: T -> Id)
    requires UniqueKeys(xs, uniq)
    ensures UniqueKeys(RemoveKeys(xs, keyOf, keys), uniq)
    decreases |xs|
  {
    if |xs| > 0 {
      var p := xs[..|xs| - 1];
      var last := xs[|xs| - 1];
      assert UniqueKeys(p, uniq) by {
        forall i, j | 0 <= i < |p| && 0 <= j < |p| && i != j ensures uniq(p[i]) != uniq(p[j]) {
          assert p[i] == xs[i] && p[j] == xs[j];
        }
      }
      RemoveKeysKeepsUnique(p, keyOf, keys, uniq);
      var rp := RemoveKeys(p, keyOf, keys);
      if keyOf(last) !in keys {
        forall x | x in rp ensures uniq(x) != uniq(last) {
          var j :| 0 <= j < |p| && p[j] == x;
          assert xs[j] == x;
        }
        var r := rp + [last];
        forall i, j | 0 <= i < |r| && 0 <= j < |r| && i != j ensures uniq(r[i]) != uniq(r[j]) {
          if i < |rp| && j < |rp| {
          } else if i < |rp| {
            assert r[i] in rp;
          } else {
            assert r[j] in rp;
          }
        }
      }
    }
  }

  // ---------------------------------------------------------------------------
  // Filtering by owning account (`!active || x.accountId === active`)
  // ---------------------------------------------------------------------------

  /** The elements owned by account `a`, order kept. */
  function OwnedBy<T(!new)>(xs: seq<T>, ownerOf: T -> Id, a: Id): (r: seq<T>)
    ensures forall x :: x in r <==> x in xs && ownerOf(x) == a
    ensures |r| <= |xs|
  {
    if |xs| == 0 then []
    else
      var last := xs[|xs| - 1];
      assert forall x :: x in xs <==> x in xs[..|xs| - 1] || x == last by {
        assert xs == xs[..|xs| - 1] + [last];
      }
      OwnedBy(xs[..|xs| - 1], ownerOf, a) + (if ownerOf(last) == a then [last] else [])
  }

  /** The elements owned by some other account than `a`, order kept. */
  function NotOwnedBy<T(!new)>(xs: seq<T>, ownerOf: T -> Id, a: Id): (r: seq<T>)
    ensures forall x :: x in r <==> x in xs && ownerOf(x) != a
    ensures |r| <= |xs|
  {
    if |xs| == 0 then []
    else
      var last := xs[|xs| - 1];
      assert forall x :: x in xs <==> x in xs[..|xs| - 1] || x == last by {
        assert xs == xs[..|xs| - 1] + [last];
      }
      NotOwnedBy(xs[..|xs| - 1], ownerOf, a) + (if ownerOf(last) != a then [last] else [])
  }

  /** The two filters split `xs`: every element lands in exactly one of them, as often as it occurs. */
  lemma {:induction false} OwnedBySplit<T(!new)>(xs: seq<T>, ownerOf: T -> Id, a: Id)
    ensures multiset(OwnedBy(xs, ownerOf, a)) + multiset(NotOwnedBy(xs, ownerOf, a)) == multiset(xs)
    decreases |xs|
  {
    if |xs| > 0 {
      var p := xs[..|xs| - 1];
      var last := xs[|xs| - 1];
      assert xs == p + [last];
      OwnedBySplit(p, ownerOf, a);
    }
  }

  /** All elements when no account is selected, else those of the selected one. */
  function OfSelection<T(!new)>(xs: seq<T>, ownerOf: T -> Id, selected: Option<Id>): (r: seq<T>)
    ensures selected.None? ==> r == xs
    ensures forall x :: x in r <==> x in xs && (selected.None? || ownerOf(x) == selected.value)
  {
    match selected
    case None => xs
    case Some(a) => OwnedBy(xs, ownerOf, a)
  }

  /** A unique-keyed sequence splits into a unique-keyed prefix and a last element whose key is new. */
  lemma UniqueKeysSnoc<T(!new)>(xs: seq<T>, keyOf: T -> Id)
    requires |xs| > 0 && UniqueKeys(xs, keyOf)
    ensures UniqueKeys(xs[..|xs| - 1], keyOf)
    ensures forall x :: x in xs[..|xs| - 1] ==> keyOf(x) != keyOf(xs[|xs| - 1])
  {
    var p := xs[..|xs| - 1];
    forall i, j | 0 <= i < |p| && 0 <= j < |p| && i != j ensures keyOf(p[i]) != keyOf(p[j]) {
      assert p[i] == xs[i] && p[j] == xs[j];
    }
    forall x | x in p ensures keyOf(x) != keyOf(xs[|xs| - 1]) {
      var j :| 0 <= j < |p| && p[j] == x;
      assert xs[j] == x;
    }
  }

  /** Removing a key set that marks exactly the elements owned by `a` keeps the others. */
  lemma {:induction false} RemoveMarkedKeys<T(!new)>(xs: seq<T>, keyOf: T -> Id, ownerOf: T -> Id, a: Id, keys: set<Id>)
    requires forall x :: x in xs ==> (keyOf(x) in keys <==> ownerOf(x) == a)
    ensures RemoveKeys(xs, keyOf, keys) == NotOwnedBy(xs, ownerOf, a)
    decreases |xs|
  {
    if |xs| > 0 {
      assert xs[|xs| - 1] in xs;
      assert forall x :: x in xs[..|xs| - 1] ==> x in xs;
      RemoveMarkedKeys(xs[..|xs| - 1], keyOf, ownerOf, a, keys);
    }
  }

  /**
   * Removing the keys of every element owned by `a` leaves exactly the
   * elements owned by other accounts (when keys are unique).
   */
  lemma RemoveOwnedKeys<T(!new)>(xs: seq<T>, keyOf: T -> Id, ownerOf: T -> Id, a: Id)
    requires UniqueKeys(xs, keyOf)
    ensures RemoveKeys(xs, keyOf, KeySet(OwnedBy(xs, ownerOf, a), keyOf)) == NotOwnedBy(xs, ownerOf, a)
  {
    var owned := OwnedBy(xs, ownerOf, a);
    var keys := KeySet(owned, keyOf);
    forall x | x in xs ensures keyOf(x) in keys <==> ownerOf(x) == a {
      if keyOf(x) in keys {
        var y :| y in owned && keyOf(y) == keyOf(x);
        SameKeySameElement(xs, keyOf, x, y);
      }
      if ownerOf(x) == a {
        assert x in owned;
      }
    }
    RemoveMarkedKeys(xs, keyOf, ownerOf, a, keys);
  }

  // ---------------------------------------------------------------------------
  // Sums per key (`reduce` into a dictionary) and their partition law
  // ---------------------------------------------------------------------------

  /** Sum of `w(x)` over the elements whose key is `k`. */
  function GroupSum<T, K(==)>(xs: seq<T>, key: T -> K, w: T -> int, k: K): int {
    if |xs| == 0 then 0
    else GroupSum(xs[..|xs| - 1], key, w, k) + (if key(xs[|xs| - 1]) == k then w(xs[|xs| - 1]) else 0)
  }

  /** Sum of `w(x)` over all elements. */
  function Total<T>(xs: seq<T>, w: T -> int): int {
    if |xs| == 0 then 0 else Total(xs[..|xs| - 1], w) + w(xs[|xs| - 1])
  }

  /** Sum of the group sums of the keys `ks`. */
  function SumGroups<T, K(==)>(ks: seq<K>, xs: seq<T>, key: T -> K, w: T -> int): int {
    if |ks| == 0 then 0 else GroupSum(xs, key, w, ks[0]) + SumGroups(ks[1..], xs, key, w)
  }

  ghost predicate Distinct<K>(ks: seq<K>) {
    forall i, j :: 0 <= i < j < |ks| ==> ks[i] != ks[j]
  }

  lemma {:induction false} GroupSumAppend<T, K>(xs: seq<T>, ys: seq<T>, key: T -> K, w: T -> int, k: K)
    ensures GroupSum(xs + ys, key, w, k) == GroupSum(xs, key, w, k) + GroupSum(ys, key, w, k)
    decreases |ys|
  {
    if |ys| == 0 {
      assert xs + ys == xs;
    } else {
      var ys' := ys[..|ys| - 1];
      assert (xs + ys)[..|xs + ys| - 1] == xs + ys';
      GroupSumAppend(xs, ys', key, w, k);
    }
  }

  /** Splicing out position `i` subtracts exactly that element's share. */
  lemma {:induction false} GroupSumRemoveAt<T, K>(xs: seq<T>, i: nat, key: T -> K, w: T -> int, k: K)
    requires i < |xs|
    ensures GroupSum(xs[..i] + xs[i + 1..], key, w, k)
         == GroupSum(xs, key, w, k) - (if key(xs[i]) == k then w(xs[i]) else 0)
  {
    var x, left, right := xs[i], xs[..i], xs[i + 1..];
    assert xs == (left + [x]) + right;
    GroupSumAppend(left + [x], right, key, w, k);
    GroupSumSnoc(left, x, key, w, k);
    GroupSumAppend(left, right, key, w, k);
  }

  /** Appending one element adds its weight to its own group only. */
  lemma GroupSumSnoc<T, K>(xs: seq<T>, x: T, key: T -> K, w: T -> int, k: K)
    ensures GroupSum(xs + [x], key, w, k) == GroupSum(xs, key, w, k) + (if key(x) == k then w(x) else 0)
  {
    assert (xs + [x])[..|xs + [x]| - 1] == xs;
  }

  /** A key no element carries has sum 0. */
  lemma {:induction false} GroupSumAbsent<T, K>(xs: seq<T>, key: T -> K, w: T -> int, k: K)
    requires forall x :: x in xs ==> key(x) != k
    ensures GroupSum(xs, key, w, k) == 0
    decreases |xs|
  {
    if |xs| > 0 {
      assert xs[|xs| - 1] in xs;
      assert forall x :: x in xs[..|xs| - 1] ==> x in xs;
      GroupSumAbsent(xs[..|xs| - 1], key, w, k);
    }
  }

  /** Appending one element adds its weight to the groups exactly once. */
  lemma {:induction false} SumGroupsSnoc<T, K>(ks: seq<K>, xs: seq<T>, x: T, key: T -> K, w: T -> int)
    requires Distinct(ks)
    ensures SumGroups(ks, xs + [x], key, w) == SumGroups(ks, xs, key, w) + (if key(x) in ks then w(x) else 0)
    decreases |ks|
  {
    if |ks| > 0 {
      assert (xs + [x])[..|xs + [x]| - 1] == xs;
      assert Distinct(ks[1..]) by {
        forall i, j | 0 <= i < j < |ks[1..]| ensures ks[1..][i] != ks[1..][j] {
          assert ks[1..][i] == ks[i + 1] && ks[1..][j] == ks[j + 1];
        }
      }
      SumGroupsSnoc(ks[1..], xs, x, key, w);
      assert key(x) in ks <==> key(x) == ks[0] || key(x) in ks[1..] by {
        assert ks == [ks[0]] + ks[1..];
      }
      if key(x) == ks[0] {
        assert key(x) !in ks[1..] by {
          forall j | 0 <= j < |ks[1..]| ensures ks[1..][j] != key(x) {
            assert ks[1..][j] == ks[j + 1];
          }
        }
      }
    }
  }

  /**
   * Partition law: when the distinct keys `ks` cover every element's key, the
   * group sums add up to the total, so each element is counted in exactly one
   * group.
   */
  lemma {:induction false} PartitionTotal<T, K>(ks: seq<K>, xs: seq<T>, key: T -> K, w: T -> int)
    requires Distinct(ks)
    requires forall x :: x in xs ==> key(x) in ks
    ensures SumGroups(ks, xs, key, w) == Total(xs, w)
    decreases |xs|
  {
    if |xs| == 0 {
      SumGroupsEmpty(ks, xs, key, w);
    } else {
      var p := xs[..|xs| - 1];
      assert xs == p + [xs[|xs| - 1]];
      assert forall x :: x in p ==> x in xs;
      PartitionTotal(ks, p, key, w);
      SumGroupsSnoc(ks, p, xs[|xs| - 1], key, w);
    }
  }

  lemma {:induction false} SumGroupsEmpty<T, K>(ks: seq<K>, xs: seq<T>, key: T -> K, w: T -> int)
    requires |xs| == 0
    ensures SumGroups(ks, xs, key, w) == 0
    decreases |ks|
  {
    if |ks| > 0 {
      SumGroupsEmpty(ks[1..], xs, key, w);
    }
  }

  // ---------------------------------------------------------------------------
  // Descending sort by a numeric key
  // ---------------------------------------------------------------------------

  ghost predicate SortedDesc<T>(s: seq<T>, key: T -> int) {
    forall i, j :: 0 <= i < j < |s| ==> key(s[i]) >= key(s[j])
  }

  /** Insert `x` after every element whose key is at least its own (keeps ties in order). */
  function InsertDesc<T>(s: seq<T>, x: T, key: T -> int): (r: seq<T>)
    ensures multiset(r) == multiset(s) + multiset{x}
    ensures |r| == |s| + 1
    ensures r[0] == x || (|s| > 0 && r[0] == s[0])
  {
    if |s| == 0 then [x]
    else if key(s[0]) >= key(x) then
      assert s == [s[0]] + s[1..];
      [s[0]] + InsertDesc(s[1..], x, key)
    else [x] + s
  }

  lemma {:induction false} InsertDescSorted<T>(s: seq<T>, x: T, key: T -> int)
    requires SortedDesc(s, key)
    ensures SortedDesc(InsertDesc(s, x, key), key)
    decreases |s|
  {
    if |s| > 0 {
      var r := InsertDesc(s, x, key);
      if key(s[0]) >= key(x) {
        var rest := InsertDesc(s[1..], x, key);
        assert SortedDesc(s[1..], key) by {
          forall i, j | 0 <= i < j < |s[1..]| ensures key(s[1..][i]) >= key(s[1..][j]) {
            assert s[1..][i] == s[i + 1] && s[1..][j] == s[j + 1];
          }
        }
        InsertDescSorted(s[1..], x, key);
        assert r == [s[0]] + rest;
        assert key(s[0]) >= key(rest[0]) by {
          if rest[0] != x {
            assert rest[0] == s[1];
          }
        }
        forall i, j | 0 <= i < j < |r| ensures key(r[i]) >= key(r[j]) {
          if i == 0 {
            assert key(rest[0]) >= key(rest[j - 1]) || j == 1;
          } else {
            assert r[i] == rest[i - 1] && r[j] == rest[j - 1];
          }
        }
      } else {
        assert r == [x] + s;
        forall i, j | 0 <= i < j < |r| ensures key(r[i]) >= key(r[j]) {
          if i == 0 {
            assert key(s[0]) >= key(s[j - 1]) || j == 1;
          } else {
            assert r[i] == s[i - 1] && r[j] == s[j - 1];
          }
        }
      }
    }
  }

  /** A descending, tie-stable rearrangement of `xs` by `key`. */
  function SortDesc<T>(xs: seq<T>, key: T -> int): (r: seq<T>)
    ensures multiset(r) == multiset(xs)
    ensures SortedDesc(r, key)
  {
    if |xs| == 0 then []
    else
      assert xs == xs[..|xs| - 1] + [xs[|xs| - 1]];
      InsertDescSorted(SortDesc(xs[..|xs| - 1], key), xs[|xs| - 1], key);
      InsertDesc(SortDesc(xs[..|xs| - 1], key), xs[|xs| - 1], key)
  }

  /** The first `n` elements, or all of them when there are fewer (Mongo `limit`). */
  function Take<T>(xs: seq<T>, n: nat): (r: seq<T>)
    ensures |r| == if n < |xs| then n else |xs|
    ensures r == xs[..|r|]
  {
    if n < |xs| then xs[..n] else xs
  }
}
