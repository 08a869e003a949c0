/** Cardinality facts about finite maps and sets that the scoring proofs
    share. */
module Maps {

  /** No two keys share a value. */
  predicate Injective<K, V(==)>(m: map<K, V>) {
    forall p, q :: p in m && q in m && p != q ==> m[p] != m[q]
  }

  lemma RemoveKeyValues<K, V>(m: map<K, V>, k: K)
    requires k in m
    ensures |m - {k}| == |m| - 1
    ensures m.Values == (m - {k}).Values + {m[k]}
  {
    var m' := m - {k};
    assert m'.Keys == m.Keys - {k};
    forall v | v in m.Values ensures v in m'.Values + {m[k]} {
      var p :| p in m && m[p] == v;
      if p != k {
        assert m'[p] == v;
      }
    }
    forall v | v in m'.Values ensures v in m.Values {
      var p :| p in m' && m'[p] == v;
      assert m[p] == v;
    }
  }

  /** A map has at most as many distinct values as keys. */
  lemma {:induction false} ValuesCardBound<K, V>(m: map<K, V>)
    ensures |m.Values| <= |m|
    decreases |m|
  {
    if |m| == 0 {
      assert m.Values == {};
    } else {
      var k :| k in m;
      RemoveKeyValues(m, k);
      ValuesCardBound(m - {k});
    }
  }

  /** A map has as many distinct values as keys exactly when no two keys
      share a value. */
  lemma {:induction false} InjectiveIffValuesCard<K, V>(m: map<K, V>)
    ensures Injective(m) <==> |m.Values| == |m|
    decreases |m|
  {
    if |m| == 0 {
      assert m.Values == {};
    } else {
      var k :| k in m;
      var m' := m - {k};
      RemoveKeyValues(m, k);
      ValuesCardBound(m');
      InjectiveIffValuesCard(m');
      if m[k] in m'.Values {
        var q :| q in m' && m'[q] == m[k];
        assert q in m && q != k && m[q] == m[k];
        assert !Injective(m);
      } else {
        assert |m.Values| == |m'.Values| + 1;
        if Injective(m') {
          forall p, q | p in m && q in m && p != q ensures m[p] != m[q] {
            if p == k {
              assert m[q] == m'[q];
            } else if q == k {
              assert m[p] == m'[p];
            } else {
              assert m[p] == m'[p] && m[q] == m'[q];
            }
          }
        } else {
          var p, q :| p in m' && q in m' && p != q && m'[p] == m'[q];
          assert m[p] == m[q];
        }
      }
    }
  }

  /** No element occurs twice. */
  predicate Distinct<T(==)>(s: seq<T>) {
    forall i, j :: 0 <= i < j < |s| ==> s[i] != s[j]
  }

  function Elements<T>(s: seq<T>): set<T> {
    set x | x in s
  }

  /** A sequence without repetitions has as many elements as its set. */
  lemma {:induction false} DistinctCard<T>(s: seq<T>)
    requires Distinct(s)
    ensures |Elements(s)| == |s|
  {
    if s != [] {
      var t := s[..|s| - 1];
      assert Distinct(t);
      DistinctCard(t);
      assert Elements(s) == Elements(t) + {s[|s| - 1]};
      assert s[|s| - 1] !in Elements(t);
    }
  }

  /** A one-element set holds nothing else. */
  lemma SingletonUnique<T>(s: set<T>, x: T, y: T)
    requires |s| == 1 && x in s && y in s
    ensures x == y
  {
    if x != y {
      assert {x, y} <= s;
      assert |{x, y}| == 2;
      SubsetCard({x, y}, s);
    }
  }

  lemma SubsetCard<T>(a: set<T>, b: set<T>)
    requires a <= b
    ensures |a| <= |b|
  {
    assert b == a + (b - a);
  }
}
