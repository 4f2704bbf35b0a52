/** Grouping a sequence by a string key the way a Python dict grows when it
    is filled in a loop: keys in the order they are first met, one running
    sum per key. Items whose key is `None` are skipped. */
module Grouping {
  import opened Wrappers

  /** The distinct keys of `xs`, in the order of their first occurrence. */
  function GroupKeys<T>(xs: seq<T>, key: T -> Option<string>): (keys: seq<string>)
    decreases |xs|
  {
    if xs == [] then []
    else
      var keys := GroupKeys(xs[..|xs| - 1], key);
      var k := key(xs[|xs| - 1]);
      if k.Some? && k.value !in keys then keys + [k.value] else keys
  }

  /** The sum of `value` over the items whose key is `k`. */
  function GroupSum<T>(xs: seq<T>, key: T -> Option<string>, value: T -> real, k: string): (s: real)
    decreases |xs|
  {
    if xs == [] then 0.0
    else
      var x := xs[|xs| - 1];
      GroupSum(xs[..|xs| - 1], key, value, k) + (if key(x) == Some(k) then value(x) else 0.0)
  }

  /** The sum of `value` over every item that has a key. */
  function KeyedTotal<T>(xs: seq<T>, key: T -> Option<string>, value: T -> real): real
    decreases |xs|
  {
    if xs == [] then 0.0
    else
      var x := xs[|xs| - 1];
      KeyedTotal(xs[..|xs| - 1], key, value) + (if key(x).Some? then value(x) else 0.0)
  }

  /** The per-key sums added up over the keys `ks`. */
  function SumOverKeys<T>(xs: seq<T>, key: T -> Option<string>, value: T -> real, ks: seq<string>): real
    decreases |ks|
  {
    if ks == [] then 0.0
    else SumOverKeys(xs, key, value, ks[..|ks| - 1]) + GroupSum(xs, key, value, ks[|ks| - 1])
  }

  predicate Distinct(ks: seq<string>) {
    forall i, j :: 0 <= i < j < |ks| ==> ks[i] != ks[j]
  }

  /** One more item: its key is appended when it is new, and only the sum
      of its own key grows, by its value. */
  lemma {:induction false} GroupAppend<T>(xs: seq<T>, x: T, key: T -> Option<string>, value: T -> real)
    ensures GroupKeys(xs + [x], key)
            == if key(x).Some? && key(x).value !in GroupKeys(xs, key) then GroupKeys(xs, key) + [key(x).value]
               else GroupKeys(xs, key)
    ensures forall k :: GroupSum(xs + [x], key, value, k)
                        == GroupSum(xs, key, value, k) + (if key(x) == Some(k) then value(x) else 0.0)
  {
    assert (xs + [x])[..|xs|] == xs;
  }

  /** `order` and `sums` are the dict a loop over `xs` builds: its keys in
      insertion order, and one running sum per key. */
  predicate Tally<T>(xs: seq<T>, key: T -> Option<string>, value: T -> real, order: seq<string>, sums: map<string, real>) {
    && order == GroupKeys(xs, key)
    && sums.Keys == set k | k in order
    && forall k :: k in sums ==> sums[k] == GroupSum(xs, key, value, k)
  }

  /** The loop step: an item without a key leaves the dict as it is; an item
      with a key adds its value to that key's sum, or inserts the key last with
      its value when the key is new. */
  lemma {:induction false} TallyAppend<T>(xs: seq<T>, x: T, key: T -> Option<string>, value: T -> real,
                       order: seq<string>, sums: map<string, real>)
    requires Tally(xs, key, value, order, sums)
    ensures key(x).None? ==> Tally(xs + [x], key, value, order, sums)
    ensures key(x).Some? && key(x).value in sums ==>
              Tally(xs + [x], key, value, order, sums[key(x).value := sums[key(x).value] + value(x)])
    ensures key(x).Some? && key(x).value !in sums ==>
              Tally(xs + [x], key, value, order + [key(x).value], sums[key(x).value := value(x)])
  {
    GroupAppend(xs, x, key, value);
    if key(x).Some? && key(x).value !in sums {
      UnseenKeySum(xs, key, value, key(x).value);
    }
  }

  /** A key is listed exactly when some item carries it, and no key is listed twice. */
  lemma {:induction false} GroupKeysMembers<T>(xs: seq<T>, key: T -> Option<string>)
    ensures Distinct(GroupKeys(xs, key))
    ensures forall k :: k in GroupKeys(xs, key) <==> exists i :: 0 <= i < |xs| && key(xs[i]) == Some(k)
    decreases |xs|
  {
    if xs != [] {
      var init := xs[..|xs| - 1];
      GroupKeysMembers(init, key);
      forall k
        ensures (exists i :: 0 <= i < |xs| && key(xs[i]) == Some(k))
                <==> (exists i :: 0 <= i < |init| && key(init[i]) == Some(k)) || key(xs[|xs| - 1]) == Some(k)
      {
        if exists i :: 0 <= i < |xs| && key(xs[i]) == Some(k) {
          var i :| 0 <= i < |xs| && key(xs[i]) == Some(k);
          if i < |init| { assert key(init[i]) == Some(k); }
        }
        if exists i :: 0 <= i < |init| && key(init[i]) == Some(k) {
          var i :| 0 <= i < |init| && key(init[i]) == Some(k);
          assert key(xs[i]) == Some(k);
        }
      }
    }
  }

  /** Keys are only ever appended: the keys of a prefix are a prefix of the keys. */
  lemma {:induction false} GroupKeysGrow<T>(xs: seq<T>, key: T -> Option<string>, n: nat)
    requires n <= |xs|
    ensures GroupKeys(xs[..n], key) <= GroupKeys(xs, key)
    decreases |xs| - n
  {
    if n < |xs| {
      GroupKeysGrow(xs[..|xs| - 1], key, n);
      assert xs[..|xs| - 1][..n] == xs[..n];
    } else {
      assert xs[..n] == xs;
    }
  }

  /** A key no item carries has a zero sum. */
  lemma {:induction false} UnseenKeySum<T>(xs: seq<T>, key: T -> Option<string>, value: T -> real, k: string)
    requires k !in GroupKeys(xs, key)
    ensures GroupSum(xs, key, value, k) == 0.0
    decreases |xs|
  {
    if xs != [] {
      UnseenKeySum(xs[..|xs| - 1], key, value, k);
    }
  }

  /** With values that are never negative, every per-key sum is non-negative. */
  lemma {:induction false} GroupSumNonNegative<T>(xs: seq<T>, key: T -> Option<string>, value: T -> real, k: string)
    requires forall x :: key(x).Some? ==> value(x) >= 0.0
    ensures GroupSum(xs, key, value, k) >= 0.0
    decreases |xs|
  {
    if xs != [] {
      GroupSumNonNegative(xs[..|xs| - 1], key, value, k);
    }
  }

  lemma {:induction false} SumOverKeysStep<T>(xs: seq<T>, x: T, key: T -> Option<string>, value: T -> real, ks: seq<string>)
    requires Distinct(ks)
    ensures SumOverKeys(xs + [x], key, value, ks)
            == SumOverKeys(xs, key, value, ks) + (if key(x).Some? && key(x).value in ks then value(x) else 0.0)
    decreases |ks|
  {
    assert (xs + [x])[..|xs|] == xs;
    if ks != [] {
      var init := ks[..|ks| - 1];
      SumOverKeysStep(xs, x, key, value, init);
      assert ks == init + [ks[|ks| - 1]];
    }
  }

  /** Adding up the per-key sums over all keys gives the total over all keyed items. */
  lemma {:induction false} SumOverAllKeys<T>(xs: seq<T>, key: T -> Option<string>, value: T -> real)
    ensures SumOverKeys(xs, key, value, GroupKeys(xs, key)) == KeyedTotal(xs, key, value)
    decreases |xs|
  {
    if xs != [] {
      var init := xs[..|xs| - 1];
      var x := xs[|xs| - 1];
      var ks := GroupKeys(init, key);
      SumOverAllKeys(init, key, value);
      GroupKeysMembers(init, key);
      SumOverKeysStep(init, x, key, value, ks);
      assert init + [x] == xs;
      if key(x).Some? && key(x).value !in ks {
        UnseenKeySum(init, key, value, key(x).value);
        assert (ks + [key(x).value])[..|ks|] == ks;
      }
    }
  }

  /** The items that have a key, in their order. */
  function Keyed<T>(xs: seq<T>, key: T -> Option<string>): (r: seq<T>)
    ensures forall x :: x in r ==> x in xs && key(x).Some?
    decreases |xs|
  {
    if xs == [] then []
    else
      var rest := Keyed(xs[..|xs| - 1], key);
      var x := xs[|xs| - 1];
      if key(x).Some? then rest + [x] else rest
  }

  /** Items without a key change nothing: the keyed items alone give the
      same keys, in the same order, with the same sums. */
  lemma {:induction false} KeyedGroupAlike<T>(xs: seq<T>, key: T -> Option<string>, value: T -> real)
    ensures GroupKeys(Keyed(xs, key), key) == GroupKeys(xs, key)
    ensures forall k :: GroupSum(Keyed(xs, key), key, value, k) == GroupSum(xs, key, value, k)
    decreases |xs|
  {
    if xs != [] {
      var init, x := xs[..|xs| - 1], xs[|xs| - 1];
      var rest := Keyed(init, key);
      KeyedGroupAlike(init, key, value);
      assert xs == init + [x];
      GroupAppend(init, x, key, value);
      if key(x).Some? {
        GroupAppend(rest, x, key, value);
      }
    }
  }
}
