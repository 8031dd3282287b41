/** Multisets of records, and sums of them over the values of a map. */
module Bags {
  import opened Records

  type Bag = multiset<Record>

  function At<K>(m: map<K, Bag>, k: K): Bag {
    if k in m then m[k] else multiset{}
  }

  /** The union, with multiplicity, of the bags of m. */
  ghost function Sum<K>(m: map<K, Bag>): Bag
    decreases |m|
  {
    if m == map[] then multiset{} else
      var k :| k in m;
      assert |m - {k}| < |m| by { RemoveShrinks(m, k); }
      m[k] + Sum(m - {k})
  }

  lemma RemoveShrinks<K>(m: map<K, Bag>, k: K)
    requires k in m
    ensures |m - {k}| == |m| - 1
  {
    assert (m - {k}).Keys == m.Keys - {k};
  }

  /** Any key may be taken out of the sum first. */
  lemma {:induction false} SumRemove<K>(m: map<K, Bag>, k: K)
    requires k in m
    ensures Sum(m) == m[k] + Sum(m - {k})
    decreases |m|
  {
    var c :| c in m && Sum(m) == m[c] + Sum(m - {c});
    if c != k {
      RemoveShrinks(m, c);
      RemoveShrinks(m, k);
      SumRemove(m - {c}, k);
      SumRemove(m - {k}, c);
      assert m - {c} - {k} == m - {k} - {c};
    }
  }

  lemma SumAdd<K>(m: map<K, Bag>, k: K, b: Bag)
    requires k !in m
    ensures Sum(m[k := b]) == Sum(m) + b
  {
    SumRemove(m[k := b], k);
    assert m[k := b] - {k} == m;
  }

  lemma SumGrow<K>(m: map<K, Bag>, k: K, b: Bag)
    requires k in m
    ensures Sum(m[k := m[k] + b]) == Sum(m) + b
  {
    SumRemove(m, k);
    SumRemove(m[k := m[k] + b], k);
    assert m[k := m[k] + b] - {k} == m - {k};
  }

  /** Adding empty bags changes nothing. */
  lemma {:induction false} SumZero<K>(m: map<K, Bag>)
    requires forall k :: k in m ==> m[k] == multiset{}
    ensures Sum(m) == multiset{}
    decreases |m|
  {
    if m != map[] {
      var k :| k in m;
      SumRemove(m, k);
      RemoveShrinks(m, k);
      SumZero(m - {k});
    }
  }

  ghost predicate PartOf<K>(b: map<K, Bag>, m: map<K, Bag>) {
    forall k :: k in b ==> k in m && m[k] == b[k]
  }

  lemma RemoveInTurn<K>(m: map<K, Bag>, b: map<K, Bag>, k: K)
    requires k in b
    ensures m - {k} - (b - {k}).Keys == m - b.Keys
  {
    assert (b - {k}).Keys == b.Keys - {k};
  }

  /** Splitting the keys splits the sum. */
  lemma {:induction false} SumSplit<K>(m: map<K, Bag>, b: map<K, Bag>)
    requires PartOf(b, m)
    ensures Sum(m) == Sum(m - b.Keys) + Sum(b)
    decreases |b|
  {
    if b == map[] {
      assert m - b.Keys == m;
    } else {
      var k :| k in b;
      SumRemove(b, k);
      RemoveShrinks(b, k);
      SumRemove(m, k);
      SumSplit(m - {k}, b - {k});
      RemoveInTurn(m, b, k);
    }
  }

  /** A record of the sum is a record of one of its parts. */
  lemma {:induction false} SumMember<K>(m: map<K, Bag>, r: Record)
    ensures r in Sum(m) <==> exists k :: k in m && r in m[k]
    decreases |m|
  {
    if m != map[] {
      var k :| k in m;
      var n := m - {k};
      SumRemove(m, k);
      RemoveShrinks(m, k);
      SumMember(n, r);
      forall j | j in m && r in m[j]
        ensures r in Sum(m)
      {
        assert j == k || (j in n && r in n[j]);
      }
      if j :| j in n && r in n[j] {
        assert j in m && r in m[j];
      }
    }
  }

  /** Filtering one record out of, or leaving it in, every part does the same to the sum. */
  lemma {:induction false} SumCount<K>(a: map<K, Bag>, b: map<K, Bag>, r: Record, keep: bool)
    requires a.Keys == b.Keys
    requires forall k :: k in a ==> a[k][r] == if keep then b[k][r] else 0
    ensures Sum(a)[r] == if keep then Sum(b)[r] else 0
    decreases |a|
  {
    if a == map[] {
      assert b == map[];
    } else {
      var k :| k in a;
      SumRemove(a, k);
      SumRemove(b, k);
      RemoveShrinks(a, k);
      assert (a - {k}).Keys == (b - {k}).Keys;
      SumCount(a - {k}, b - {k}, r, keep);
    }
  }

  /** Moving one record from bag map a to bag map b at key k keeps their union at every key. */
  lemma MoveOne<K>(a: map<K, Bag>, b: map<K, Bag>, k: K, r: Record, j: K)
    requires r in At(a, k)
    ensures At(b[k := At(b, k) + multiset{r}], j) + At(a[k := At(a, k) - multiset{r}], j) == At(b, j) + At(a, j)
  {}

  function One(c: bool, r: Record): Bag {
    if c then multiset{r} else multiset{}
  }

  lemma PlusOne(a: Bag, b: Bag, c: bool, r: Record)
    requires forall x :: a[x] == b[x] + if c && x == r then 1 else 0
    ensures a == b + One(c, r)
  {}

  lemma AtAdd(m: map<int, Bag>, w: int, r: Record, j: int)
    ensures At(m[w := At(m, w) + multiset{r}], j) == At(m, j) + One(j == w, r)
  {}

  lemma GrowMiddle(u: Bag, a: Bag, b: Bag, c: Bag, x: Bag)
    requires u == a + b + c
    ensures u + x == a + (b + x) + c
  {}

  lemma Assoc(a: Bag, b: Bag, c: Bag)
    ensures (a + b) + c == a + (b + c)
  {}

  function When(c: bool, b: Bag): Bag {
    if c then b else multiset{}
  }

  lemma Shuffle(a: Bag, b: Bag, c: Bag)
    ensures a + (b + c) == (a + c) + b
  {}
}
