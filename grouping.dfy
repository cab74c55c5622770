/**
 A `defaultdict(set)` built from pairs: each key maps to the set of values it
 was paired with. The scan builds two of them (name to ids, id to names); the
 report lists the keys paired with more than one distinct value.
 */
module Grouping {

  /** The keys that occur in some pair. */
  function KeysOf<K(==), V(==)>(pairs: set<(K, V)>): set<K>
  {
    set p | p in pairs :: p.0
  }

  /** The values paired with key `k`. */
  function Image<K(==), V(==)>(pairs: set<(K, V)>, k: K): set<V>
  {
    set p | p in pairs && p.0 == k :: p.1
  }

  /** Every key that occurs in a pair, mapped to the values paired with it. */
  function Group<K(==), V(==)>(pairs: set<(K, V)>): map<K, set<V>>
  {
    map k | k in KeysOf(pairs) :: Image(pairs, k)
  }

  /** The same pairs read the other way round. */
  function Flip<K(==), V(==)>(pairs: set<(K, V)>): set<(V, K)>
  {
    set p | p in pairs :: (p.1, p.0)
  }

  /** `m[k].add(v)` on a `defaultdict(set)`: a missing key starts out with the empty set. */
  function AddTo<K(==), V(==)>(m: map<K, set<V>>, k: K, v: V): (r: map<K, set<V>>)
    ensures r.Keys == m.Keys + {k}
    ensures v in r[k] && (k in m ==> m[k] <= r[k]) && r[k] - {v} <= (if k in m then m[k] else {})
    ensures forall j :: j in m && j != k ==> r[j] == m[j]
  {
    m[k := (if k in m then m[k] else {}) + {v}]
  }

  /** The entries a report lists: the keys paired with more than one distinct value. */
  function Shared<K(==), V(==)>(m: map<K, set<V>>): map<K, set<V>>
  {
    map k | k in m && |m[k]| > 1 :: m[k]
  }

  /** A grouped map holds exactly the pairs it was built from. */
  lemma {:induction false} GroupHolds<K, V>(pairs: set<(K, V)>, k: K, v: V)
    ensures (k in Group(pairs) && v in Group(pairs)[k]) <==> (k, v) in pairs
  {
    if (k, v) in pairs {
      assert k in KeysOf(pairs);
      assert v in Image(pairs, k);
    }
  }

  /** No key of a grouped map is mapped to the empty set (the defaultdict never
      holds an entry that was created without an `add`). */
  lemma {:induction false} GroupNonEmpty<K, V>(pairs: set<(K, V)>, k: K)
    requires k in Group(pairs)
    ensures Group(pairs)[k] != {}
  {
    var p :| p in pairs && p.0 == k;
    assert p.1 in Image(pairs, k);
  }

  /** Adding one pair to the pairs is `m[k].add(v)` on the grouped map. */
  lemma {:induction false} GroupInsert<K, V>(pairs: set<(K, V)>, k: K, v: V)
    ensures Group(pairs + {(k, v)}) == AddTo(Group(pairs), k, v)
  {
    var big := pairs + {(k, v)};
    var lhs, rhs := Group(big), AddTo(Group(pairs), k, v);
    assert KeysOf(big) == KeysOf(pairs) + {k} by {
      forall j | j in KeysOf(big) ensures j in KeysOf(pairs) + {k} {
        var p :| p in big && p.0 == j;
        if p != (k, v) { assert p in pairs; }
      }
      assert (k, v) in big;
    }
    forall j | j in lhs.Keys
      ensures lhs[j] == rhs[j]
    {
      if j == k {
        assert Image(big, k) == (if k in Group(pairs) then Image(pairs, k) else {}) + {v} by {
          forall w | w in Image(big, k)
            ensures w in (if k in Group(pairs) then Image(pairs, k) else {}) + {v}
          {
            var p :| p in big && p.0 == k && p.1 == w;
            if p != (k, v) { assert p in pairs; assert k in KeysOf(pairs); }
          }
          assert (k, v) in big;
        }
      } else {
        assert Image(big, j) == Image(pairs, j);
      }
    }
  }

  /** Reading the pairs the other way round inverts the grouping: `i` is among the
      values of `n` in one map exactly when `n` is among the values of `i` in the other. */
  lemma {:induction false} FlipInverse<K, V>(pairs: set<(K, V)>, k: K, v: V)
    ensures (k in Group(pairs) && v in Group(pairs)[k]) <==> (v in Group(Flip(pairs)) && k in Group(Flip(pairs))[v])
  {
    GroupHolds(pairs, k, v);
    GroupHolds(Flip(pairs), v, k);
    if (v, k) in Flip(pairs) {
      var p :| p in pairs && (p.1, p.0) == (v, k);
      assert p == (k, v);
    }
    if (k, v) in pairs {
      assert (v, k) in Flip(pairs);
    }
  }

  /** A set has more than one element exactly when it holds two distinct elements. */
  lemma {:induction false} MoreThanOne<T>(s: set<T>)
    ensures |s| > 1 <==> exists a, b :: a in s && b in s && a != b
  {
    if |s| > 1 {
      var a :| a in s;
      var rest := s - {a};
      assert |rest| == |s| - 1;
      var b :| b in rest;
      assert a in s && b in s && a != b;
    }
    if exists a, b :: a in s && b in s && a != b {
      var a, b :| a in s && b in s && a != b;
      var rest := s - {a};
      assert |rest| == |s| - 1;
      assert b in rest;
    }
  }

  /** A key is listed by `Shared` exactly when it is paired with two distinct values;
      what is listed for it is all its values. */
  lemma {:induction false} SharedHolds<K, V>(m: map<K, set<V>>, k: K)
    ensures k in Shared(m) <==> k in m && exists a, b :: a in m[k] && b in m[k] && a != b
    ensures k in Shared(m) ==> Shared(m)[k] == m[k]
  {
    if k in m {
      MoreThanOne(m[k]);
    }
  }
}
