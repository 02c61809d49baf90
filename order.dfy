/** Grouping keys and the order pandas sorts them in.

    A pandas `groupby(by=[c1, ..., cn])` keys each group by the tuple of the
    values of the columns c1..cn, and (with the default `sort=True`) emits the
    groups in ascending tuple order. Every key column of the dashboard holds
    either integers or strings, so a key is a sequence of `Part`s, and the
    order is Python's: tuples and strings compare lexicographically, strings
    by code point. */
module Order {

  /** One column value of a grouping key. */
  datatype Part = Num(n: int) | Text(s: string)

  /** The tuple of key-column values of one group. */
  type Key = seq<Part>

  /** Python's `<` on `str`: lexicographic by code point, a proper prefix first. */
  predicate StrLess(a: string, b: string)
  {
    if a == [] then b != []
    else if b == [] then false
    else if a[0] != b[0] then a[0] < b[0]
    else StrLess(a[1..], b[1..])
  }

  /** `<` on one key column. Keys compared by the dashboard always hold the same
      kind of value at the same position; numbers before strings only makes the
      order total. */
  predicate PartLess(p: Part, q: Part)
  {
    match (p, q)
    case (Num(x), Num(y)) => x < y
    case (Text(s), Text(t)) => StrLess(s, t)
    case (Num(_), Text(_)) => true
    case (Text(_), Num(_)) => false
  }

  /** Python's `<` on tuples: lexicographic over the columns. */
  predicate KeyLess(a: Key, b: Key)
  {
    if a == [] then b != []
    else if b == [] then false
    else if a[0] != b[0] then PartLess(a[0], b[0])
    else KeyLess(a[1..], b[1..])
  }

  lemma {:induction false} StrLessIrreflexive(a: string)
    ensures !StrLess(a, a)
  {
    if a != [] {
      StrLessIrreflexive(a[1..]);
    }
  }

  lemma {:induction false} StrLessTransitive(a: string, b: string, c: string)
    requires StrLess(a, b) && StrLess(b, c)
    ensures StrLess(a, c)
  {
    if a != [] && a[0] == b[0] && b[0] == c[0] {
      StrLessTransitive(a[1..], b[1..], c[1..]);
    }
  }

  lemma {:induction false} StrLessTotal(a: string, b: string)
    ensures a == b || StrLess(a, b) || StrLess(b, a)
  {
    if a != [] && b != [] && a[0] == b[0] {
      StrLessTotal(a[1..], b[1..]);
      if a[1..] == b[1..] {
        assert a == [a[0]] + a[1..] && b == [b[0]] + b[1..];
      }
    }
  }

  lemma PartLessIrreflexive(p: Part)
    ensures !PartLess(p, p)
  {
    if p.Text? {
      StrLessIrreflexive(p.s);
    }
  }

  lemma PartLessTransitive(p: Part, q: Part, r: Part)
    requires PartLess(p, q) && PartLess(q, r)
    ensures PartLess(p, r)
  {
    if p.Text? {
      StrLessTransitive(p.s, q.s, r.s);
    }
  }

  lemma PartLessTotal(p: Part, q: Part)
    ensures p == q || PartLess(p, q) || PartLess(q, p)
  {
    if p.Text? && q.Text? {
      StrLessTotal(p.s, q.s);
    }
  }

  /** `KeyLess` is a strict order: irreflexive, */
  lemma {:induction false} KeyLessIrreflexive(a: Key)
    ensures !KeyLess(a, a)
  {
    if a != [] {
      KeyLessIrreflexive(a[1..]);
    }
  }

  /** transitive, */
  lemma {:induction false} KeyLessTransitive(a: Key, b: Key, c: Key)
    requires KeyLess(a, b) && KeyLess(b, c)
    ensures KeyLess(a, c)
  {
    if a != [] && b != [] && c != [] {
      if a[0] == b[0] && b[0] == c[0] {
        KeyLessTransitive(a[1..], b[1..], c[1..]);
      } else if a[0] != b[0] && b[0] != c[0] {
        PartLessTransitive(a[0], b[0], c[0]);
        PartLessIrreflexive(a[0]);
      }
    }
  }

  /** and total. */
  lemma {:induction false} KeyLessTotal(a: Key, b: Key)
    ensures a == b || KeyLess(a, b) || KeyLess(b, a)
  {
    if a != [] && b != [] {
      if a[0] == b[0] {
        KeyLessTotal(a[1..], b[1..]);
        if a[1..] == b[1..] {
          assert a == [a[0]] + a[1..] && b == [b[0]] + b[1..];
        }
      } else {
        PartLessTotal(a[0], b[0]);
      }
    }
  }

  lemma KeyLessAsymmetric(a: Key, b: Key)
    requires KeyLess(a, b)
    ensures !KeyLess(b, a) && a != b
  {
    KeyLessIrreflexive(a);
    if KeyLess(b, a) {
      KeyLessTransitive(a, b, a);
    }
  }

  /** Comparing two keys of equal length that differ already in their first
      columns is decided by those columns alone. */
  lemma {:induction false} KeyLessPrefix(a: Key, x: Key, b: Key, y: Key)
    requires |a| == |b| && a != b
    requires KeyLess(a + x, b + y)
    ensures KeyLess(a, b)
  {
    assert a != [];
    assert (a + x)[0] == a[0] && (b + y)[0] == b[0];
    if a[0] == b[0] {
      assert (a + x)[1..] == a[1..] + x && (b + y)[1..] == b[1..] + y;
      KeyLessPrefix(a[1..], x, b[1..], y);
    }
  }

  /** Keys in strictly ascending order: the order of a pandas groupby result. */
  predicate StrictlySorted(ks: seq<Key>)
  {
    forall i, j :: 0 <= i < j < |ks| ==> KeyLess(ks[i], ks[j])
  }

  /** No key twice. */
  predicate Distinct(ks: seq<Key>)
  {
    forall i, j :: 0 <= i < j < |ks| ==> ks[i] != ks[j]
  }

  lemma SortedIsDistinct(ks: seq<Key>)
    requires StrictlySorted(ks)
    ensures Distinct(ks)
  {
    forall i, j | 0 <= i < j < |ks| ensures ks[i] != ks[j] {
      KeyLessAsymmetric(ks[i], ks[j]);
    }
  }

  /** A sequence without repetitions has as many elements as its set. */
  lemma {:induction false} DistinctCard(ks: seq<Key>)
    requires Distinct(ks)
    ensures |(set k | k in ks)| == |ks|
  {
    if ks != [] {
      var tail := ks[1..];
      assert Distinct(tail);
      DistinctCard(tail);
      assert (set k | k in ks) == {ks[0]} + (set k | k in tail);
      assert ks[0] !in tail;
    }
  }

  /** Adds `k` to the set of keys held by the ascending sequence `ks`. */
  function Insert(ks: seq<Key>, k: Key): (r: seq<Key>)
    requires StrictlySorted(ks)
    ensures StrictlySorted(r)
    ensures forall x :: x in r <==> x in ks || x == k
  {
    if ks == [] then [k]
    else if k == ks[0] then ks
    else if KeyLess(k, ks[0]) then
      assert forall j :: 0 < j < |ks| ==> KeyLess(k, ks[j]) by {
        forall j | 0 < j < |ks| ensures KeyLess(k, ks[j]) {
          KeyLessTransitive(k, ks[0], ks[j]);
        }
      }
      [k] + ks
    else
      KeyLessTotal(k, ks[0]);
      var tail := Insert(ks[1..], k);
      assert forall x :: x in tail ==> KeyLess(ks[0], x);
      [ks[0]] + tail
  }

  /** Keys that start with a number are ordered by that number first. */
  lemma KeyLessLeadingNum(a: Key, b: Key)
    requires a != [] && b != [] && a[0].Num? && b[0].Num?
    requires KeyLess(a, b)
    ensures a[0].n <= b[0].n
    ensures a[0].n == b[0].n ==> KeyLess(a[1..], b[1..])
  {
  }
}
