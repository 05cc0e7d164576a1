/** Sums over the values of a finite map, and regrouping such a sum by a key of its rows. */
module Sums {

  ghost function Total<K>(m: map<K, int>): int
    decreases |m.Keys|
  {
    if m == map[] then 0
    else
      var k :| k in m;
      assert (m - {k}).Keys == m.Keys - {k};
      m[k] + Total(m - {k})
  }

  /** The sum does not depend on which key is taken out first. */
  lemma {:induction false} TotalRemove<K>(m: map<K, int>, k: K)
    requires k in m
    ensures Total(m) == m[k] + Total(m - {k})
    decreases |m.Keys|
  {
    var c :| c in m && Total(m) == m[c] + Total(m - {c});
    if c != k {
      assert (m - {c}).Keys == m.Keys - {c};
      assert (m - {k}).Keys == m.Keys - {k};
      TotalRemove(m - {c}, k);
      TotalRemove(m - {k}, c);
      assert m - {c} - {k} == m - {k} - {c};
    }
  }

  lemma UnionRemove<K, V>(a: map<K, V>, b: map<K, V>, k: K)
    requires k !in a
    ensures a + b - {k} == a + (b - {k})
  {
  }

  lemma {:induction false} TotalUnion<K>(a: map<K, int>, b: map<K, int>)
    requires a.Keys !! b.Keys
    ensures Total(a + b) == Total(a) + Total(b)
    decreases |b.Keys|
  {
    if b == map[] {
      assert a + b == a;
    } else {
      var k :| k in b;
      var less := b - {k};
      assert less.Keys == b.Keys - {k};
      assert k in a + b && (a + b)[k] == b[k];
      TotalRemove(a + b, k);
      UnionRemove(a, b, k);
      TotalRemove(b, k);
      TotalUnion(a, less);
    }
  }

  lemma {:induction false} TotalZero<K>(m: map<K, int>)
    requires forall k :: k in m ==> m[k] == 0
    ensures Total(m) == 0
    decreases |m.Keys|
  {
    if m != map[] {
      var k :| k in m;
      TotalRemove(m, k);
      assert (m - {k}).Keys == m.Keys - {k};
      TotalZero(m - {k});
    }
  }

  /** The sum of `f` over the rows of a table. */
  ghost function Sum<K, V>(rows: map<K, V>, f: V -> int): int {
    Total(map k | k in rows :: f(rows[k]))
  }

  ghost function Where<K, V, G>(rows: map<K, V>, key: V -> G, group: G): map<K, V> {
    map k | k in rows && key(rows[k]) == group :: rows[k]
  }

  ghost function GroupSums<K, V, G>(rows: map<K, V>, f: V -> int, key: V -> G, groups: set<G>): map<G, int> {
    map g | g in groups :: Sum(Where(rows, key, g), f)
  }

  lemma SumUnion<K, V>(a: map<K, V>, b: map<K, V>, f: V -> int)
    requires a.Keys !! b.Keys
    ensures Sum(a + b, f) == Sum(a, f) + Sum(b, f)
  {
    var both := a + b;
    var fa := map k | k in a :: f(a[k]);
    var fb := map k | k in b :: f(b[k]);
    TotalUnion(fa, fb);
    assert fa + fb == map k | k in both :: f(both[k]);
  }

  lemma WhereUnion<K, V, G>(a: map<K, V>, b: map<K, V>, key: V -> G, group: G)
    requires a.Keys !! b.Keys
    ensures Where(a + b, key, group) == Where(a, key, group) + Where(b, key, group)
  {
  }

  lemma SplitWhere<K, V>(rows: map<K, V>, key: V -> bool)
    ensures Where(rows, key, true).Keys !! Where(rows, key, false).Keys
    ensures Where(rows, key, true) + Where(rows, key, false) == rows
  {
    var yes, no := Where(rows, key, true), Where(rows, key, false);
    forall k | k in rows
      ensures k in yes || k in no
    {
      if key(rows[k]) {
        assert k in yes;
      } else {
        assert !key(rows[k]) && key(rows[k]) == false;
        assert k in no;
      }
    }
    assert (yes + no).Keys == rows.Keys;
  }

  lemma RestIsAdded<K, V>(part: map<K, V>, whole: map<K, V>)
    requires forall k :: k in part ==> k in whole && whole[k] == part[k]
    ensures part + (whole - part.Keys) == whole
  {
    assert (part + (whole - part.Keys)).Keys == whole.Keys;
  }

  lemma SumEmpty<K, V>(rows: map<K, V>, f: V -> int)
    requires rows == map[]
    ensures Sum(rows, f) == 0
  {
  }

  lemma SumAdd<K, V>(rows: map<K, V>, f: V -> int, k: K, v: V)
    requires k !in rows
    ensures Sum(rows[k := v], f) == Sum(rows, f) + f(v)
  {
    var one := map[k := v];
    SumUnion(rows, one, f);
    assert rows[k := v] == rows + one;
    var m := map x | x in one :: f(one[x]);
    TotalRemove(m, k);
    assert m - {k} == map[];
  }

  lemma GroupSumsRest<K, V, G>(rows: map<K, V>, f: V -> int, key: V -> G, groups: set<G>, g: G)
    requires g in groups
    ensures GroupSums(rows, f, key, groups) - {g}
         == GroupSums(rows - Where(rows, key, g).Keys, f, key, groups - {g})
  {
    var rest := rows - Where(rows, key, g).Keys;
    forall h | h in groups - {g}
      ensures Sum(Where(rest, key, h), f) == Sum(Where(rows, key, h), f)
    {
      assert Where(rest, key, h) == Where(rows, key, h);
    }
  }

  /** Adding group by group gives the sum over all rows, for any groups that catch every row. */
  lemma {:induction false} SumByGroup<K, V, G>(rows: map<K, V>, f: V -> int, key: V -> G, groups: set<G>)
    requires forall k :: k in rows ==> key(rows[k]) in groups
    ensures Sum(rows, f) == Total(GroupSums(rows, f, key, groups))
    decreases |groups|
  {
    if groups == {} {
      assert rows == map[];
    } else {
      var g :| g in groups;
      var mine := Where(rows, key, g);
      var rest := rows - mine.Keys;
      SumUnion(rest, mine, f);
      assert rest + mine == rows;
      SumByGroup(rest, f, key, groups - {g});
      GroupSumsRest(rows, f, key, groups, g);
      TotalRemove(GroupSums(rows, f, key, groups), g);
    }
  }
}
