/** Sums over the values of finite maps. */
module FiniteSums {

  ghost function Sum<K>(m: map<K, int>): int {
    if m == map[] then 0
    else
      var k :| k in m;
      m[k] + Sum(m - {k})
  }

  lemma {:induction false} SumDrop<K>(m: map<K, int>, k: K)
    requires k in m
    ensures Sum(m) == m[k] + Sum(m - {k})
  {
    var p :| p in m && Sum(m) == m[p] + Sum(m - {p});
    if p != k {
      SumDrop(m - {p}, k);
      assert m - {p} - {k} == m - {k} - {p};
      SumDrop(m - {k}, p);
    }
  }

  lemma SumSet<K>(m: map<K, int>, k: K, v: int)
    ensures Sum(m[k := v]) == Sum(m) - (if k in m then m[k] else 0) + v
  {
    SumDrop(m[k := v], k);
    assert m[k := v] - {k} == m - {k};
    if k in m { SumDrop(m, k); } else { assert m - {k} == m; }
  }

  lemma {:induction false} SumUnion<K>(m: map<K, int>, n: map<K, int>)
    requires m.Keys !! n.Keys
    ensures Sum(m + n) == Sum(m) + Sum(n)
  {
    if n == map[] {
      assert m + n == m;
    } else {
      var k :| k in n;
      SumDrop(n, k);
      SumDrop(m + n, k);
      assert (m + n) - {k} == m + (n - {k});
      SumUnion(m, n - {k});
    }
  }

  /** Pairing every entry of `m` with an entry of `n` of opposite value, one to one, cancels the two sums. */
  lemma {:induction false} SumCancels<K>(m: map<K, int>, n: map<K, int>, pair: map<K, K>)
    requires pair.Keys == m.Keys && pair.Values == n.Keys
    requires forall j, k :: j in m && k in m && pair[j] == pair[k] ==> j == k
    requires forall k :: k in m ==> m[k] == -n[pair[k]]
    ensures Sum(m) + Sum(n) == 0
  {
    if m == map[] {
      assert n.Keys == {};
      assert n == map[];
    } else {
      var k :| k in m;
      var p := pair[k];
      assert p in pair.Values;
      SumDrop(m, k);
      SumDrop(n, p);
      var pair' := pair - {k};
      assert pair'.Values == (n - {p}).Keys by {
        forall q ensures q in pair'.Values <==> q in (n - {p}).Keys {
          if q in (n - {p}).Keys {
            assert q in pair.Values;
            var j :| j in pair && pair[j] == q;
            assert j in pair';
          }
          if q in pair'.Values {
            var j :| j in pair' && pair'[j] == q;
            assert pair[j] == q && q in pair.Values;
          }
        }
      }
      SumCancels(m - {k}, n - {p}, pair');
    }
  }

  ghost predicate OneToOne<K>(pair: map<K, K>) {
    forall j, k :: j in pair && k in pair && pair[j] == pair[k] ==> j == k
  }

  lemma DropStaysOneToOne<K>(pair: map<K, K>, k: K)
    requires k in pair
    ensures OneToOne(pair) <==> OneToOne(pair - {k}) && pair[k] !in (pair - {k}).Values
  {
    var rest := pair - {k};
    if pair[k] in rest.Values {
      var j :| j in rest && rest[j] == pair[k];
      assert j in pair && pair[j] == pair[k] && j != k;
    }
    if OneToOne(rest) && pair[k] !in rest.Values {
      forall i, j | i in pair && j in pair && pair[i] == pair[j] ensures i == j {
        if i != k { assert rest[i] in rest.Values; }
        if j != k { assert rest[j] in rest.Values; }
      }
    }
    forall i | i in rest ensures i in pair && pair[i] == rest[i] {}
  }

  /** Where every positive entry of `m` is covered by an entry of `n` of opposite value, the two sums cancel exactly
  when no entry of `n` covers two, and otherwise something is left over. */
  lemma {:induction false} SumCovers<K>(m: map<K, int>, n: map<K, int>, pair: map<K, K>)
    requires pair.Keys == m.Keys && pair.Values == n.Keys
    requires forall k :: k in m ==> m[k] > 0 && n[pair[k]] == -m[k]
    ensures Sum(m) + Sum(n) >= 0
    ensures Sum(m) + Sum(n) == 0 <==> OneToOne(pair)
  {
    if m == map[] {
      assert n.Keys == {};
      assert n == map[];
    } else {
      var k :| k in m;
      var p, rest := pair[k], pair - {k};
      SumDrop(m, k);
      DropStaysOneToOne(pair, k);
      ValuesAfterDrop(pair, k);
      if p in rest.Values {
        assert rest.Values == n.Keys;
        SumCovers(m - {k}, n, rest);
      } else {
        SumDrop(n, p);
        assert rest.Values == (n - {p}).Keys;
        SumCovers(m - {k}, n - {p}, rest);
      }
    }
  }

  lemma ValuesAfterDrop<K>(pair: map<K, K>, k: K)
    requires k in pair
    ensures pair.Values == (pair - {k}).Values + {pair[k]}
  {
    var rest := pair - {k};
    forall q ensures q in pair.Values <==> q in rest.Values + {pair[k]} {
      if q in pair.Values {
        var j :| j in pair && pair[j] == q;
        assert j != k ==> j in rest && rest[j] == q;
      }
      if q in rest.Values {
        var j :| j in rest && rest[j] == q;
        assert pair[j] == q;
      }
    }
  }

  lemma {:induction false} SumZero<K>(m: map<K, int>)
    requires forall k :: k in m ==> m[k] == 0
    ensures Sum(m) == 0
  {
    if m != map[] {
      var k :| k in m;
      SumDrop(m, k);
      SumZero(m - {k});
    }
  }

  lemma {:induction false} SumNonNegative<K>(m: map<K, int>)
    requires forall k :: k in m ==> m[k] >= 0
    ensures Sum(m) >= 0
    ensures forall k :: k in m ==> m[k] <= Sum(m)
  {
    if m != map[] {
      forall k | k in m ensures m[k] <= Sum(m) && Sum(m) >= 0 {
        SumDrop(m, k);
        SumNonNegative(m - {k});
      }
      var k :| k in m;
      assert m[k] <= Sum(m) && Sum(m) >= 0;
    }
  }
}
