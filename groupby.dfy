/** The part of pandas `groupby(...).agg(...)` the dashboard relies on, over a
    sequence of records `rs` and a key function `key` that projects a record to
    the tuple of its grouping columns: the distinct keys in ascending order,
    the group of each key, and the `sum` and `mean` aggregations. */
module GroupBy {
  import opened Order

  /** The keys that occur in `rs`. */
  function KeySet<R(==)>(rs: seq<R>, key: R -> Key): set<Key>
  {
    set r | r in rs :: key(r)
  }

  /** The group keys of `rs.groupby(key)`: every key that occurs, once, ascending. */
  function GroupKeys<R>(rs: seq<R>, key: R -> Key): (ks: seq<Key>)
    ensures StrictlySorted(ks)
  {
    if rs == [] then [] else Insert(GroupKeys(rs[1..], key), key(rs[0]))
  }

  /** The records of one group, in input order; a record that occurs several
      times in `rs` occurs as often in its group. */
  function Group<R(!new)>(rs: seq<R>, key: R -> Key, k: Key): (g: seq<R>)
    ensures |g| <= |rs|
    ensures forall r {:trigger r in g} :: r in g <==> r in rs && key(r) == k
  {
    if rs == [] then []
    else if key(rs[0]) == k then [rs[0]] + Group(rs[1..], key, k)
    else Group(rs[1..], key, k)
  }

  /** A group keeps every copy of a matching record: a record occurs in its
      group exactly as often as in `rs`, and not at all in any other group. */
  lemma {:induction false} GroupMultiset<R(!new)>(rs: seq<R>, key: R -> Key, k: Key)
    ensures forall r :: multiset(Group(rs, key, k))[r] == (if key(r) == k then multiset(rs)[r] else 0)
  {
    if rs != [] {
      GroupMultiset(rs[1..], key, k);
      assert rs == [rs[0]] + rs[1..];
    }
  }

  /** The `sum` aggregation of column `val`. */
  function SumOf<R>(rs: seq<R>, val: R -> int): int
  {
    if rs == [] then 0 else val(rs[0]) + SumOf(rs[1..], val)
  }

  /** The `mean` aggregation of column `val`, exactly. Groups are never empty
      (see GroupKeysSpec); the empty case only makes the function total. */
  function Mean<R>(g: seq<R>, val: R -> int): real
  {
    if g == [] then 0.0 else (SumOf(g, val) as real) / (|g| as real)
  }

  function MinOf<R(!new)>(g: seq<R>, val: R -> int): (m: int)
    requires g != []
    ensures forall r {:trigger r in g} :: r in g ==> m <= val(r)
    ensures exists r :: r in g && val(r) == m
  {
    if |g| == 1 then val(g[0])
    else
      var t := MinOf(g[1..], val);
      assert forall r :: r in g ==> r == g[0] || r in g[1..];
      if val(g[0]) <= t then val(g[0]) else t
  }

  function MaxOf<R(!new)>(g: seq<R>, val: R -> int): (m: int)
    requires g != []
    ensures forall r {:trigger r in g} :: r in g ==> val(r) <= m
    ensures exists r :: r in g && val(r) == m
  {
    if |g| == 1 then val(g[0])
    else
      var t := MaxOf(g[1..], val);
      assert forall r :: r in g ==> r == g[0] || r in g[1..];
      if t <= val(g[0]) then val(g[0]) else t
  }

  /** GroupKeys lists exactly the keys that occur; each has a non-empty group. */
  lemma {:induction false} GroupKeysSpec<R(!new)>(rs: seq<R>, key: R -> Key)
    ensures forall k :: k in GroupKeys(rs, key) <==> k in KeySet(rs, key)
    ensures forall k :: k in GroupKeys(rs, key) ==> Group(rs, key, k) != []
    ensures |GroupKeys(rs, key)| == |KeySet(rs, key)|
  {
    var ks := GroupKeys(rs, key);
    if rs != [] {
      GroupKeysSpec(rs[1..], key);
      assert KeySet(rs, key) == {key(rs[0])} + KeySet(rs[1..], key) by {
        assert forall r :: r in rs <==> r == rs[0] || r in rs[1..];
      }
    }
    forall k | k in ks ensures Group(rs, key, k) != [] {
      var r :| r in rs && key(r) == k;
      assert r in Group(rs, key, k);
    }
    SortedIsDistinct(ks);
    DistinctCard(ks);
    assert (set k | k in ks) == KeySet(rs, key);
  }

  /** Keys that differ record by record are as many as the records. */
  lemma {:induction false} KeySetOfDistinct<R>(rs: seq<R>, key: R -> Key)
    requires forall i, j :: 0 <= i < j < |rs| ==> key(rs[i]) != key(rs[j])
    ensures |KeySet(rs, key)| == |rs|
  {
    if rs != [] {
      var tail := rs[1..];
      KeySetOfDistinct(tail, key);
      assert KeySet(rs, key) == {key(rs[0])} + KeySet(tail, key) by {
        assert forall r :: r in rs <==> r == rs[0] || r in tail;
      }
      assert key(rs[0]) !in KeySet(tail, key);
    }
  }

  lemma SumOfSingleton<R>(r: R, val: R -> int)
    ensures SumOf([r], val) == val(r)
  {
    assert [r][1..] == [];
  }

  lemma {:induction false} SumOfBounds<R>(g: seq<R>, val: R -> int, lo: int, hi: int)
    requires forall r :: r in g ==> lo <= val(r) <= hi
    ensures |g| * lo <= SumOf(g, val) <= |g| * hi
  {
    if g != [] {
      var t := g[1..];
      assert forall r :: r in t ==> r in g;
      SumOfBounds(t, val, lo, hi);
      MulSucc(|t|, lo);
      MulSucc(|t|, hi);
    }
  }

  lemma MulSucc(n: int, x: int)
    ensures (n + 1) * x == n * x + x
  {
  }

  /** The mean of a group, times its size, is the group's sum. */
  lemma MeanTimesCount<R>(g: seq<R>, val: R -> int)
    requires g != []
    ensures Mean(g, val) * (|g| as real) == SumOf(g, val) as real
  {
  }

  /** The mean of a group lies between its smallest and its largest value. */
  lemma MeanWithinGroup<R(!new)>(g: seq<R>, val: R -> int)
    requires g != []
    ensures MinOf(g, val) as real <= Mean(g, val) <= MaxOf(g, val) as real
  {
    var lo, hi := MinOf(g, val), MaxOf(g, val);
    SumOfBounds(g, val, lo, hi);
    DivisionBounds(SumOf(g, val), |g|, lo, hi);
  }

  lemma DivisionBounds(s: int, n: int, lo: int, hi: int)
    requires n > 0 && n * lo <= s <= n * hi
    ensures lo as real <= (s as real) / (n as real) <= hi as real
  {
    var a, b := s - n * lo, n * hi - s;
    assert (n * lo) as real == (n as real) * (lo as real);
    assert (n * hi) as real == (n as real) * (hi as real);
    assert (s as real) / (n as real) - lo as real == (a as real) / (n as real);
    assert hi as real - (s as real) / (n as real) == (b as real) / (n as real);
  }

  lemma {:induction false} GroupOfAbsentKey<R(!new)>(rs: seq<R>, key: R -> Key, k: Key)
    requires forall r :: r in rs ==> key(r) != k
    ensures Group(rs, key, k) == []
  {
    if rs != [] {
      assert forall r :: r in rs[1..] ==> r in rs;
      GroupOfAbsentKey(rs[1..], key, k);
    }
  }

  /** When no other record shares the key of `rs[j]`, its group is that record alone. */
  lemma {:induction false} GroupOfUniqueKey<R(!new)>(rs: seq<R>, key: R -> Key, j: int)
    requires 0 <= j < |rs|
    requires forall i :: 0 <= i < |rs| && i != j ==> key(rs[i]) != key(rs[j])
    ensures Group(rs, key, key(rs[j])) == [rs[j]]
  {
    var k := key(rs[j]);
    if j == 0 {
      forall r | r in rs[1..] ensures key(r) != k {
        var i :| 1 <= i < |rs| && rs[i] == r;
      }
      GroupOfAbsentKey(rs[1..], key, k);
    } else {
      GroupOfUniqueKey(rs[1..], key, j - 1);
    }
  }

  /** Two key functions that select the same records select the same group. */
  lemma {:induction false} GroupCongruent<R(!new)>(rs: seq<R>, key1: R -> Key, k1: Key, key2: R -> Key, k2: Key)
    requires forall r :: r in rs ==> (key1(r) == k1 <==> key2(r) == k2)
    ensures Group(rs, key1, k1) == Group(rs, key2, k2)
  {
    if rs != [] {
      assert forall r :: r in rs[1..] ==> r in rs;
      GroupCongruent(rs[1..], key1, k1, key2, k2);
    }
  }

  /** The groups' sums added over the keys `ks`. */
  function SumOverKeys<R(!new)>(rs: seq<R>, key: R -> Key, val: R -> int, ks: seq<Key>): int
  {
    if ks == [] then 0 else SumOf(Group(rs, key, ks[0]), val) + SumOverKeys(rs, key, val, ks[1..])
  }

  lemma {:induction false} SumOverKeysOfEmpty<R(!new)>(key: R -> Key, val: R -> int, ks: seq<Key>)
    ensures SumOverKeys([], key, val, ks) == 0
  {
    if ks != [] {
      SumOverKeysOfEmpty(key, val, ks[1..]);
    }
  }

  /** Taking the first record out of `rs` takes its value out of the one group it belongs to. */
  lemma {:induction false} SumOverKeysStep<R(!new)>(rs: seq<R>, key: R -> Key, val: R -> int, ks: seq<Key>)
    requires rs != [] && Distinct(ks)
    ensures SumOverKeys(rs, key, val, ks)
         == (if key(rs[0]) in ks then val(rs[0]) else 0) + SumOverKeys(rs[1..], key, val, ks)
  {
    if ks != [] {
      var tail := ks[1..];
      assert Distinct(tail);
      SumOverKeysStep(rs, key, val, tail);
      if key(rs[0]) == ks[0] {
        var g := Group(rs[1..], key, ks[0]);
        assert ([rs[0]] + g)[1..] == g;
        assert key(rs[0]) !in tail;
      }
      assert key(rs[0]) in ks <==> key(rs[0]) == ks[0] || key(rs[0]) in tail;
    }
  }

  /** No record is dropped or counted twice: over keys that cover `rs` without
      repetition, the groups' sums add up to the sum over all of `rs`. */
  lemma {:induction false} PartitionSum<R(!new)>(rs: seq<R>, key: R -> Key, val: R -> int, ks: seq<Key>)
    requires Distinct(ks)
    requires forall r :: r in rs ==> key(r) in ks
    ensures SumOverKeys(rs, key, val, ks) == SumOf(rs, val)
  {
    if rs == [] {
      SumOverKeysOfEmpty(key, val, ks);
    } else {
      assert forall r :: r in rs[1..] ==> r in rs;
      PartitionSum(rs[1..], key, val, ks);
      SumOverKeysStep(rs, key, val, ks);
    }
  }
}
