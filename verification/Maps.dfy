/** Totals over the entries of a map. */
module Maps {

  ghost function Total<K(!new), V>(m: map<K, V>, weight: V -> nat): nat
    decreases |m|
  {
    if m == map[] then 0
    else
      var k :| k in m;
      weight(m[k]) + Total(m - {k}, weight)
  }

  /** The total does not depend on the order in which keys are visited. */
  lemma {:induction false} TotalRemove<K(!new), V>(m: map<K, V>, weight: V -> nat, k: K)
    requires k in m
    ensures Total(m, weight) == weight(m[k]) + Total(m - {k}, weight)
    decreases |m|
  {
    var j :| j in m && Total(m, weight) == weight(m[j]) + Total(m - {j}, weight);
    if j != k {
      TotalRemove(m - {j}, weight, k);
      TotalRemove(m - {k}, weight, j);
      assert m - {j} - {k} == m - {k} - {j};
    }
  }

  lemma TotalUpdate<K(!new), V>(m: map<K, V>, weight: V -> nat, k: K, v: V)
    ensures Total(m[k := v], weight) + (if k in m then weight(m[k]) else 0) == Total(m, weight) + weight(v)
  {
    TotalRemove(m[k := v], weight, k);
    assert m[k := v] - {k} == m - {k};
    if k in m {
      TotalRemove(m, weight, k);
    } else {
      assert m - {k} == m;
    }
  }

  ghost function Part<K(!new), V>(m: map<K, V>, keys: set<K>): map<K, V> { map k | k in m && k in keys :: m[k] }

  /** Splitting the keys splits the total. */
  lemma NothingInTotal<K(!new), V>(weight: V -> nat)
    ensures var none: map<K, V> := map[]; Total(none, weight) == 0
  {
  }

  lemma {:induction false} TotalSplit<K(!new), V>(m: map<K, V>, weight: V -> nat, keys: set<K>)
    ensures Total(m, weight) == Total(Part(m, keys), weight) + Total(m - keys, weight)
    decreases |m|
  {
    hide Total;
    var inside := Part(m, keys);
    if m == map[] {
      NothingInTotal<K, V>(weight);
      assert m - keys == map[] && inside == map[];
    } else {
      var k :| k in m;
      var rest := m - {k};
      TotalRemove(m, weight, k);
      TotalSplit(rest, weight, keys);
      var inside' := Part(rest, keys);
      if k in keys {
        TotalRemove(inside, weight, k);
        assert inside - {k} == inside';
        assert m - keys == rest - keys;
      } else {
        assert inside == inside';
        TotalRemove(m - keys, weight, k);
        assert m - keys - {k} == rest - keys;
      }
    }
  }

  lemma OnlyOneChanged<K, V>(before: map<K, V>, after: map<K, V>, k: K)
    requires after.Keys == before.Keys + {k}
    requires forall x :: x in before && x != k ==> after[x] == before[x]
    ensures after == before[k := after[k]]
  {
  }

  // ----- groups of keys -----

  /** The total of each group of keys. */
  ghost function GroupTotals<C(!new), K(!new), V>(m: map<K, V>, groups: map<C, set<K>>, weight: V -> nat): map<C, nat> {
    map c | c in groups :: Total(Part(m, groups[c]), weight)
  }

  function Itself(n: nat): nat { n }

  ghost predicate Partition<C(!new), K(!new)>(groups: map<C, set<K>>, keys: set<K>) {
    && (forall k :: k in keys <==> exists c :: c in groups && k in groups[c])
    && (forall c, d, k :: c in groups && d in groups && k in groups[c] && k in groups[d] ==> c == d)
  }

  lemma {:induction false} GroupsAddUp<C(!new), K(!new), V>(m: map<K, V>, groups: map<C, set<K>>, weight: V -> nat)
    requires Partition(groups, m.Keys)
    ensures Total(GroupTotals(m, groups, weight), Itself) == Total(m, weight)
    decreases |groups|
  {
    hide Total;
    var totals := GroupTotals(m, groups, weight);
    if groups == map[] {
      NothingInTotal<K, V>(weight);
      NothingInTotal<C, nat>(Itself);
      assert m == map[] && totals == map[];
    } else {
      var c :| c in groups;
      var rest, others := m - groups[c], groups - {c};
      TotalSplit(m, weight, groups[c]);
      TotalRemove(totals, Itself, c);
      OtherGroupsStay(m, groups, weight, c);
      RestIsPartitioned(m, groups, c);
      GroupsAddUp(rest, others, weight);
    }
  }

  lemma OtherGroupsStay<C(!new), K(!new), V>(m: map<K, V>, groups: map<C, set<K>>, weight: V -> nat, c: C)
    requires Partition(groups, m.Keys) && c in groups
    ensures GroupTotals(m, groups, weight) - {c} == GroupTotals(m - groups[c], groups - {c}, weight)
  {
    hide Total;
    forall d | d in groups - {c} ensures Part(m - groups[c], groups[d]) == Part(m, groups[d]) {}
  }

  lemma RestIsPartitioned<C(!new), K(!new), V>(m: map<K, V>, groups: map<C, set<K>>, c: C)
    requires Partition(groups, m.Keys) && c in groups
    ensures Partition(groups - {c}, (m - groups[c]).Keys)
  {
    forall k ensures k in (m - groups[c]).Keys <==> exists d :: d in groups - {c} && k in (groups - {c})[d] {
      if k in (m - groups[c]).Keys {
        var d :| d in groups && k in groups[d];
        assert d in groups - {c};
      }
    }
  }
}
