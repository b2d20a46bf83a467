/**
  The array operations the store and the views are built from: `filter`,
  `map` that replaces the elements with a given key, lookup of the first
  element with a key, and the projection of every element to its key.
  Each is defined once here, generically, and its laws are proved once.
 */
module Lists {
  import opened JsSemantics

  /** `xs` is obtained from `ys` by deleting elements, keeping the order of the rest. */
  predicate IsSubsequence<T(==)>(xs: seq<T>, ys: seq<T>)
    decreases |ys|
  {
    if xs == [] then true
    else if ys == [] then false
    else if xs[0] == ys[0] then IsSubsequence(xs[1..], ys[1..])
    else IsSubsequence(xs, ys[1..])
  }

  /** `xs.filter(p)`. */
  function Filter<T>(xs: seq<T>, p: T -> bool): (r: seq<T>)
    ensures |r| <= |xs|
    ensures forall i :: 0 <= i < |r| ==> p(r[i])
  {
    if xs == [] then []
    else
      var rest := Filter(xs[1..], p);
      if p(xs[0]) then
        var r := [xs[0]] + rest;
        assert r[1..] == rest;
        r
      else
        rest
  }

  /** The filter keeps exactly the elements that satisfy `p`. */
  lemma {:induction false} FilterMembers<T(!new)>(xs: seq<T>, p: T -> bool)
    ensures forall x :: x in Filter(xs, p) <==> x in xs && p(x)
  {
    if xs != [] {
      FilterMembers(xs[1..], p);
      assert xs == [xs[0]] + xs[1..];
    }
  }

  /** The filter keeps every occurrence of an element that satisfies `p` and none of the others. */
  lemma {:induction false} FilterCounts<T(!new)>(xs: seq<T>, p: T -> bool)
    ensures forall x :: multiset(Filter(xs, p))[x] == if p(x) then multiset(xs)[x] else 0
  {
    if xs != [] {
      FilterCounts(xs[1..], p);
      assert xs == [xs[0]] + xs[1..];
    }
  }

  /** The filter deletes elements and keeps the order of the rest. */
  lemma {:induction false} FilterIsSubsequence<T>(xs: seq<T>, p: T -> bool)
    ensures IsSubsequence(Filter(xs, p), xs)
  {
    if xs != [] {
      FilterIsSubsequence(xs[1..], p);
      var r := Filter(xs, p);
      if p(xs[0]) {
        assert r[0] == xs[0] && r[1..] == Filter(xs[1..], p);
      }
    }
  }

  /** Filtering distributes over concatenation. */
  lemma {:induction false} FilterAppend<T(!new)>(xs: seq<T>, ys: seq<T>, p: T -> bool)
    ensures Filter(xs + ys, p) == Filter(xs, p) + Filter(ys, p)
  {
    if xs == [] {
      assert xs + ys == ys;
    } else {
      var zs := xs + ys;
      assert zs[0] == xs[0] && zs[1..] == xs[1..] + ys;
      FilterAppend(xs[1..], ys, p);
      if p(xs[0]) {
        calc {
          Filter(zs, p);
          [xs[0]] + Filter(xs[1..] + ys, p);
          [xs[0]] + (Filter(xs[1..], p) + Filter(ys, p));
          ([xs[0]] + Filter(xs[1..], p)) + Filter(ys, p);
        }
      }
    }
  }

  /** A filter that rejects nothing returns its input unchanged. */
  lemma {:induction false} FilterKeepsAll<T(!new)>(xs: seq<T>, p: T -> bool)
    requires forall i :: 0 <= i < |xs| ==> p(xs[i])
    ensures Filter(xs, p) == xs
  {
    if xs != [] {
      FilterKeepsAll(xs[1..], p);
    }
  }

  /** `xs.map(key)`. */
  function Keys<T, K>(xs: seq<T>, key: T -> K): (ks: seq<K>)
    ensures |ks| == |xs|
    ensures forall i :: 0 <= i < |xs| ==> ks[i] == key(xs[i])
  {
    seq(|xs|, i requires 0 <= i < |xs| => key(xs[i]))
  }

  lemma KeysAppend<T, K>(xs: seq<T>, ys: seq<T>, key: T -> K)
    ensures Keys(xs + ys, key) == Keys(xs, key) + Keys(ys, key)
  {
  }

  /** `xs.map(x => key(x) === key(y) ? y : x)`. */
  function ReplaceByKey<T, K(==)>(xs: seq<T>, key: T -> K, y: T): (r: seq<T>)
    ensures |r| == |xs|
    ensures forall i :: 0 <= i < |xs| ==> r[i] == if key(xs[i]) == key(y) then y else xs[i]
  {
    seq(|xs|, i requires 0 <= i < |xs| => if key(xs[i]) == key(y) then y else xs[i])
  }

  /** Replacing keeps every position's key, so the list of keys is unchanged. */
  lemma ReplaceKeepsKeys<T, K>(xs: seq<T>, key: T -> K, y: T)
    ensures Keys(ReplaceByKey(xs, key, y), key) == Keys(xs, key)
  {
  }

  /** Replacing by a key that no element has is the identity. */
  lemma ReplaceAbsentIsIdentity<T, K>(xs: seq<T>, key: T -> K, y: T)
    requires key(y) !in Keys(xs, key)
    ensures ReplaceByKey(xs, key, y) == xs
  {
    var r := ReplaceByKey(xs, key, y);
    forall i | 0 <= i < |xs| ensures r[i] == xs[i] {
      assert Keys(xs, key)[i] == key(xs[i]);
    }
  }

  /** Replacing twice with the same value is the same as replacing once. */
  lemma ReplaceIdempotent<T, K>(xs: seq<T>, key: T -> K, y: T)
    ensures ReplaceByKey(ReplaceByKey(xs, key, y), key, y) == ReplaceByKey(xs, key, y)
  {
  }

  /** When the only element with `key(y)` sits at the end, replacing touches only it. */
  lemma ReplaceLast<T, K>(xs: seq<T>, key: T -> K, y: T, z: T)
    requires key(z) == key(y) && key(y) !in Keys(xs, key)
    ensures ReplaceByKey(xs + [y], key, z) == xs + [z]
  {
    var r := ReplaceByKey(xs + [y], key, z);
    forall i | 0 <= i < |xs| ensures r[i] == xs[i] {
      assert Keys(xs, key)[i] == key(xs[i]);
    }
  }

  /** The test `x => key(x) !== k`. */
  function KeyDiffers<T, K(==)>(key: T -> K, k: K): T -> bool {
    x => key(x) != k
  }

  /** `xs.filter(x => key(x) !== k)`. */
  function RemoveByKey<T(==,!new), K(==)>(xs: seq<T>, key: T -> K, k: K): (r: seq<T>)
    ensures k !in Keys(r, key)
    ensures IsSubsequence(r, xs)
    ensures forall x :: x in xs && key(x) != k ==> x in r
  {
    var r := Filter(xs, KeyDiffers(key, k));
    FilterMembers(xs, KeyDiffers(key, k));
    FilterIsSubsequence(xs, KeyDiffers(key, k));
    assert forall i :: 0 <= i < |r| ==> Keys(r, key)[i] == key(r[i]) != k;
    r
  }

  /** Removing keeps every element with another key exactly as often as before. */
  lemma RemoveByKeyCounts<T(!new), K>(xs: seq<T>, key: T -> K, k: K)
    ensures forall x :: key(x) != k ==> multiset(RemoveByKey(xs, key, k))[x] == multiset(xs)[x]
  {
    FilterCounts(xs, KeyDiffers(key, k));
  }

  /** Removing a key that no element has is the identity. */
  lemma RemoveAbsentIsIdentity<T(!new), K>(xs: seq<T>, key: T -> K, k: K)
    requires k !in Keys(xs, key)
    ensures RemoveByKey(xs, key, k) == xs
  {
    forall i | 0 <= i < |xs| ensures key(xs[i]) != k {
      assert Keys(xs, key)[i] == key(xs[i]);
    }
    FilterKeepsAll(xs, KeyDiffers(key, k));
  }

  /** Appending an element with a fresh key and then removing that key restores the list. */
  lemma RemoveAfterAppend<T(!new), K>(xs: seq<T>, key: T -> K, y: T)
    requires key(y) !in Keys(xs, key)
    ensures RemoveByKey(xs + [y], key, key(y)) == xs
  {
    var p := KeyDiffers(key, key(y));
    FilterAppend(xs, [y], p);
    assert Filter([y], p) == [];
    RemoveAbsentIsIdentity(xs, key, key(y));
  }

  /** `xs.find(x => key(x) === k)`. */
  function FindByKey<T, K(==)>(xs: seq<T>, key: T -> K, k: K): (r: Option<T>)
    ensures r.Some? <==> k in Keys(xs, key)
    ensures r.Some? ==> key(r.value) == k
    ensures r.Some? ==> r.value in xs
  {
    if xs == [] then None
    else if key(xs[0]) == k then Some(xs[0])
    else
      assert Keys(xs, key) == [key(xs[0])] + Keys(xs[1..], key);
      FindByKey(xs[1..], key, k)
  }

  /** The lookup finds the element at the first position holding the key. */
  lemma {:induction false} FindFirst<T, K>(xs: seq<T>, key: T -> K, k: K, i: nat)
    requires i < |xs| && key(xs[i]) == k
    requires forall j :: 0 <= j < i ==> key(xs[j]) != k
    ensures FindByKey(xs, key, k) == Some(xs[i])
  {
    if i > 0 {
      FindFirst(xs[1..], key, k, i - 1);
    }
  }

  /** A value appended with a fresh key is what a lookup of that key finds. */
  lemma {:induction false} FindAfterAppend<T, K>(xs: seq<T>, key: T -> K, y: T)
    requires key(y) !in Keys(xs, key)
    ensures FindByKey(xs + [y], key, key(y)) == Some(y)
  {
    if xs != [] {
      assert Keys(xs, key) == [key(xs[0])] + Keys(xs[1..], key);
      assert (xs + [y])[1..] == xs[1..] + [y];
      FindAfterAppend(xs[1..], key, y);
    }
  }

  /** After a replacement by `y`, looking up `key(y)` finds `y` whenever the key was there. */
  lemma {:induction false} FindAfterReplace<T, K>(xs: seq<T>, key: T -> K, y: T)
    requires key(y) in Keys(xs, key)
    ensures FindByKey(ReplaceByKey(xs, key, y), key, key(y)) == Some(y)
  {
    var r := ReplaceByKey(xs, key, y);
    assert Keys(xs, key) == [key(xs[0])] + Keys(xs[1..], key);
    if key(xs[0]) != key(y) {
      assert r[1..] == ReplaceByKey(xs[1..], key, y);
      FindAfterReplace(xs[1..], key, y);
    }
  }

  /** Replacing by a value that already sits at every position with its key changes nothing. */
  lemma ReplaceBySelf<T, K>(xs: seq<T>, key: T -> K, y: T)
    requires forall i :: 0 <= i < |xs| && key(xs[i]) == key(y) ==> xs[i] == y
    ensures ReplaceByKey(xs, key, y) == xs
  {
  }
}
