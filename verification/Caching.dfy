/** The LRU cache of decompressed blocks (internal/sstable/blockcache.go). */
module Caching {
  import opened Bytes

  datatype Key = Key(path: string, offset: nat)

  datatype Item = Item(key: Key, data: Data)

  // ---------------------------------------------------------------- specification: most recent first

  function Total(es: seq<Item>): nat {
    if es == [] then 0 else Total(es[..|es| - 1]) + |es[|es| - 1].data|
  }

  /** What eviction from the back leaves. */
  function Fit(es: seq<Item>, maxBytes: int): seq<Item> {
    if es == [] || Total(es) <= maxBytes then es else Fit(es[..|es| - 1], maxBytes)
  }

  lemma {:induction false} TotalGrows(es: seq<Item>, i: nat, j: nat)
    requires i <= j <= |es|
    ensures Total(es[..i]) <= Total(es[..j])
    decreases j
  {
    if i < j {
      TotalGrows(es, i, j - 1);
      assert es[..j][..j - 1] == es[..j - 1];
    }
  }

  /** The survivors are the longest most-recent prefix that fits; nothing that can stay is evicted. */
  lemma {:induction false} FitIsLongest(es: seq<Item>, maxBytes: int)
    ensures |Fit(es, maxBytes)| <= |es| && Fit(es, maxBytes) == es[..|Fit(es, maxBytes)|]
    ensures Fit(es, maxBytes) == [] || Total(Fit(es, maxBytes)) <= maxBytes
    ensures forall j :: |Fit(es, maxBytes)| < j <= |es| ==> Total(es[..j]) > maxBytes
  {
    if es != [] && Total(es) > maxBytes {
      var front := es[..|es| - 1];
      FitIsLongest(front, maxBytes);
      assert es[..|es|] == es;
      forall j | |Fit(es, maxBytes)| < j <= |es|
        ensures Total(es[..j]) > maxBytes
      {
        if j < |es| { assert es[..j] == front[..j]; }
      }
    } else {
      assert es[..|es|] == es;
    }
  }

  /** An entry larger than the cache empties it. */
  lemma OversizedEmpties(e: Item, es: seq<Item>, maxBytes: int)
    requires |e.data| > maxBytes
    ensures Fit([e] + es, maxBytes) == []
  {
    var all := [e] + es;
    FitIsLongest(all, maxBytes);
    assert all[..1] == [e] && [e][..0] == [];
    assert Total([e]) == |e.data|;
    var k := |Fit(all, maxBytes)|;
    if k > 0 { TotalGrows(all, 1, k); }
  }

  ghost predicate Distinct(es: seq<Item>) {
    forall i, j :: 0 <= i < j < |es| ==> es[i].key != es[j].key
  }

  /** The position of k. */
  ghost predicate At(es: seq<Item>, k: Key, i: nat) {
    i < |es| && es[i].key == k
  }

  function Without<T>(s: seq<T>, i: nat): seq<T>
    requires i < |s|
  {
    s[..i] + s[i + 1..]
  }

  function ToFront<T>(s: seq<T>, i: nat): seq<T>
    requires i < |s|
  {
    [s[i]] + Without(s, i)
  }

  lemma {:induction false} TotalConcat(a: seq<Item>, b: seq<Item>)
    ensures Total(a + b) == Total(a) + Total(b)
    decreases |b|
  {
    if b == [] {
      assert a + b == a;
    } else {
      var n := |b| - 1;
      assert (a + b)[..|a| + n] == a + b[..n];
      TotalConcat(a, b[..n]);
    }
  }

  lemma ToFrontTotal(es: seq<Item>, i: nat)
    requires i < |es|
    ensures Total(ToFront(es, i)) == Total(es)
  {
    var a, x, b := es[..i], [es[i]], es[i + 1..];
    Parts(es, i, a, x, b);
    TotalMoved(a, x, b);
  }

  lemma Parts(es: seq<Item>, i: nat, a: seq<Item>, x: seq<Item>, b: seq<Item>)
    requires i < |es| && a == es[..i] && x == [es[i]] && b == es[i + 1..]
    ensures a + x + b == es && ToFront(es, i) == x + (a + b)
  {}

  lemma TotalMoved(a: seq<Item>, x: seq<Item>, b: seq<Item>)
    ensures Total(a + x + b) == Total(x + (a + b))
  {
    TotalConcat(a + x, b);
    TotalConcat(a, x);
    TotalConcat(x, a + b);
    TotalConcat(a, b);
  }

  /** Where entry j of the reordered list came from. */
  function Origin(i: nat, j: nat): nat {
    if j == 0 then i else if j <= i then j - 1 else j
  }

  lemma ToFrontAt<T>(s: seq<T>, i: nat, j: nat)
    requires i < |s| && j < |s|
    ensures |ToFront(s, i)| == |s| && ToFront(s, i)[j] == s[Origin(i, j)]
  {}

  lemma ToFrontKeys(es: seq<Item>, keys: seq<Key>, i: nat)
    requires i < |es| == |keys| && forall j :: 0 <= j < |keys| ==> keys[j] == es[j].key
    ensures |ToFront(keys, i)| == |ToFront(es, i)|
            && forall j :: 0 <= j < |ToFront(keys, i)| ==> ToFront(keys, i)[j] == ToFront(es, i)[j].key
  {}

  lemma ToFrontDistinct(es: seq<Item>, i: nat)
    requires i < |es| && Distinct(es)
    ensures Distinct(ToFront(es, i)) && KeysOf(ToFront(es, i)) == KeysOf(es)
  {
    var f := ToFront(es, i);
    assert |f| == |es|;
    forall j, k | 0 <= j < k < |f|
      ensures f[j].key != f[k].key
    {
      ToFrontAt(es, i, j);
      ToFrontAt(es, i, k);
    }
    ToFrontSet(es, i);
  }

  lemma ToFrontSet(es: seq<Item>, i: nat)
    requires i < |es|
    ensures KeysOf(ToFront(es, i)) == KeysOf(es)
  {
    ToFrontElements(es, i);
  }

  lemma ToFrontElements(es: seq<Item>, i: nat)
    requires i < |es|
    ensures forall e :: e in ToFront(es, i) <==> e in es
  {
    var f := ToFront(es, i);
    forall e | e in es
      ensures e in f
    {
      var j :| 0 <= j < |es| && es[j] == e;
      var k := if j == i then 0 else if j < i then j + 1 else j;
      ToFrontAt(es, i, k);
    }
  }

  function KeysOf(es: seq<Item>): set<Key> {
    set e | e in es :: e.key
  }

  // ---------------------------------------------------------------- least recently used goes first

  datatype Use = Read(key: Key) | Write(key: Key, data: Data)

  /** Where k stands, or |es|. */
  function Find(es: seq<Item>, k: Key): (i: nat)
    ensures i <= |es| && (i < |es| ==> es[i].key == k)
    ensures forall j :: 0 <= j < i ==> es[j].key != k
  {
    if es == [] then 0 else if es[0].key == k then 0 else 1 + Find(es[1..], k)
  }

  /** The entries after one call of Get or Put. */
  function AfterUse(es: seq<Item>, maxBytes: int, u: Use): seq<Item> {
    var i := Find(es, u.key);
    match u
    case Read(_) => if i < |es| then ToFront(es, i) else es
    case Write(k, data) => if i < |es| then es else Fit([Item(k, data)] + es, maxBytes)
  }

  function AfterAll(history: seq<Use>, maxBytes: int): seq<Item> {
    if history == [] then []
    else AfterUse(AfterAll(history[..|history| - 1], maxBytes), maxBytes, history[|history| - 1])
  }

  /** A hit, or an entry that was not there: what counts as a use. */
  predicate Counts(es: seq<Item>, u: Use) {
    u.Read? <==> Find(es, u.key) < |es|
  }

  /** The last call that used k, counted from 1; 0 when none did. */
  function LastUse(history: seq<Use>, maxBytes: int, k: Key): (n: nat)
    ensures n <= |history|
  {
    if history == [] then 0
    else
      var h, u := history[..|history| - 1], history[|history| - 1];
      if u.key == k && Counts(AfterAll(h, maxBytes), u) then |history| else LastUse(h, maxBytes, k)
  }

  /** The entries stand in the order in which they were last used, latest first. */
  ghost predicate ByLastUse(es: seq<Item>, history: seq<Use>, maxBytes: int) {
    forall i, j :: 0 <= i < j < |es| ==>
      LastUse(history, maxBytes, es[i].key) > LastUse(history, maxBytes, es[j].key)
  }

  lemma KnownKeys(es: seq<Item>)
    ensures forall k :: k in KeysOf(es) <==> Find(es, k) < |es|
  {
    forall k | k in KeysOf(es)
      ensures Find(es, k) < |es|
    {
      var e :| e in es && e.key == k;
    }
  }

  lemma FoundAt(es: seq<Item>, k: Key, i: nat)
    requires Distinct(es) && At(es, k, i)
    ensures Find(es, k) == i
  {}

  /** What eviction takes is what was used longest ago: after any calls of Get and Put the entries stand in the order of
      their last use, and FitIsLongest keeps the front. */
  lemma {:induction false} LeastRecentlyUsedLast(history: seq<Use>, maxBytes: int)
    ensures ByLastUse(AfterAll(history, maxBytes), history, maxBytes)
  {
    if history != [] {
      var h, u := history[..|history| - 1], history[|history| - 1];
      LeastRecentlyUsedLast(h, maxBytes);
      UseOrders(h, u, maxBytes, AfterAll(h, maxBytes));
      assert history == h + [u];
    }
  }

  lemma UseOrders(h: seq<Use>, u: Use, maxBytes: int, es: seq<Item>)
    requires es == AfterAll(h, maxBytes) && ByLastUse(es, h, maxBytes)
    ensures ByLastUse(AfterUse(es, maxBytes, u), h + [u], maxBytes)
  {
    LastUses(h, u, maxBytes);
    var i := Find(es, u.key);
    if u.Read? && i < |es| {
      FrontOrders(h, u, maxBytes, es, i);
    } else if u.Write? && i == |es| {
      var all := [Item(u.key, u.data)] + es;
      FitIsLongest(all, maxBytes);
      assert ByLastUse(all, h + [u], maxBytes);
    }
  }

  lemma FrontOrders(h: seq<Use>, u: Use, maxBytes: int, es: seq<Item>, i: nat)
    requires es == AfterAll(h, maxBytes) && ByLastUse(es, h, maxBytes)
    requires u.Read? && i == Find(es, u.key) && i < |es|
    ensures ByLastUse(ToFront(es, i), h + [u], maxBytes)
  {
    LastUses(h, u, maxBytes);
    var f := ToFront(es, i);
    forall j, k | 0 <= j < k < |f|
      ensures LastUse(h + [u], maxBytes, f[j].key) > LastUse(h + [u], maxBytes, f[k].key)
    {
      ToFrontAt(es, i, j);
      ToFrontAt(es, i, k);
      OtherKey(h, maxBytes, es, i, Origin(i, k));
      if j > 0 { OtherKey(h, maxBytes, es, i, Origin(i, j)); }
    }
  }

  /** Entries in the order of last use have different keys. */
  lemma OtherKey(h: seq<Use>, maxBytes: int, es: seq<Item>, i: nat, j: nat)
    requires ByLastUse(es, h, maxBytes) && i < |es| && j < |es| && i != j
    ensures es[i].key != es[j].key
  {
    assert i < j ==> LastUse(h, maxBytes, es[i].key) > LastUse(h, maxBytes, es[j].key);
    assert j < i ==> LastUse(h, maxBytes, es[j].key) > LastUse(h, maxBytes, es[i].key);
  }

  lemma LastUses(h: seq<Use>, u: Use, maxBytes: int)
    ensures forall k :: LastUse(h + [u], maxBytes, k)
                        == if u.key == k && Counts(AfterAll(h, maxBytes), u) then |h| + 1 else LastUse(h, maxBytes, k)
  {
    assert (h + [u])[..|h|] == h;
  }

  // ---------------------------------------------------------------- the cache

  class BlockCache {
    const maxBytes: int
    var usedBytes: int
    /** Each entry owns its array. */
    var items: map<Key, array<Byte>>
    /** Front is most recently used. */
    var lru: seq<Key>
    /** The cached entries, most recent first. */
    ghost var entries: seq<Item>

    /** Map and recency list agree, without duplicates. */
    ghost predicate Listed()
      reads this
    {
      Distinct(entries) && |lru| == |entries| && (forall i :: 0 <= i < |lru| ==> lru[i] == entries[i].key)
      && items.Keys == KeysOf(entries)
    }

    /** Every entry's array still holds what was put. */
    ghost predicate Stored()
      requires Listed()
      reads this, items.Values
    {
      assert forall e :: e in entries ==> e.key in KeysOf(entries);
      forall e {:trigger e in entries} :: e in entries ==> items[e.key][..] == e.data
    }

    ghost predicate Valid()
      reads this, items.Values
    {
      Listed() && Stored() && usedBytes == Total(entries)
    }

    constructor (maxBytes: int)
      ensures Valid() && entries == [] && this.maxBytes == maxBytes && items == map[]
    {
      this.maxBytes := maxBytes;
      usedBytes, items, lru, entries := 0, map[], [], [];
    }

    /** The cached array, moved to the front; None on a miss. */
    method Get(k: Key) returns (data: Option<array<Byte>>)
      requires Valid()
      modifies this`lru, this`entries
      ensures Valid()
      ensures k !in items ==> data == None && entries == old(entries)
      ensures k in items ==>
                data == Some(items[k]) && exists i :: At(old(entries), k, i) && entries == ToFront(old(entries), i)
      ensures entries == AfterUse(old(entries), maxBytes, Read(k))
    {
      KnownKeys(entries);
      if k !in items { return None; }
      var i := Position(k);
      assert At(entries, k, i);
      FoundAt(entries, k, i);
      MoveToFront(i);
      return Some(items[k]);
    }

    method MoveToFront(i: nat)
      requires Valid() && i < |lru|
      modifies this`lru, this`entries
      ensures Valid() && entries == ToFront(old(entries), i)
    {
      ghost var es, f := entries, ToFront(entries, i);
      ToFrontTotal(es, i);
      ToFrontDistinct(es, i);
      ToFrontKeys(es, lru, i);
      ToFrontElements(es, i);
      lru := ToFront(lru, i);
      entries := f;
    }

    /** Finding the list element that an item points to. */
    method Position(k: Key) returns (i: nat)
      requires Listed() && k in items
      ensures i < |lru| && lru[i] == k
    {
      i := 0;
      assert k in KeysOf(entries);
      assert exists j :: 0 <= j < |lru| && lru[j] == k;
      while lru[i] != k
        invariant i < |lru| && exists j :: i <= j < |lru| && lru[j] == k
        decreases |lru| - i
      {
        i := i + 1;
      }
    }

    /** Copies data in front and evicts from the back; a key already present is left alone. */
    method Put(k: Key, data: array<Byte>, n: nat)
      requires Valid() && n <= data.Length
      modifies this
      ensures Valid()
      ensures k in old(items) ==> items == old(items) && entries == old(entries)
      ensures k !in old(items) ==> entries == Fit([Item(k, data[..n])] + old(entries), maxBytes)
      ensures entries == AfterUse(old(entries), maxBytes, Write(k, data[..n]))
      ensures forall j :: j in items ==>
                (j in old(items) && items[j] == old(items[j]))
                || (j == k && fresh(items[j]) && items[j][..] == data[..n])
    {
      KnownKeys(entries);
      if k in items { return; }
      var copied := Copy(data, n);
      Insert(k, copied);
      assert entries == [Item(k, data[..n])] + old(entries);
      Evict();
    }

    method Insert(k: Key, copied: array<Byte>)
      requires Valid() && k !in items
      modifies this
      ensures Valid() && entries == [Item(k, copied[..])] + old(entries) && items == old(items)[k := copied]
    {
      ghost var e := Item(k, copied[..]);
      FrontTotal(e, entries);
      InsertListed(e, entries);
      lru := [k] + lru;
      items := items[k := copied];
      usedBytes := usedBytes + copied.Length;
      entries := [e] + entries;
    }

    /** The eviction loop. */
    method Evict()
      requires Valid()
      modifies this
      ensures Valid() && entries == Fit(old(entries), maxBytes)
      ensures forall j :: j in items ==> j in old(items) && items[j] == old(items[j])
    {
      while usedBytes > maxBytes && |lru| > 0
        invariant Valid() && Fit(entries, maxBytes) == Fit(old(entries), maxBytes)
        invariant forall j :: j in items ==> j in old(items) && items[j] == old(items[j])
        decreases |lru|
      {
        DropLast();
      }
    }

    method DropLast()
      requires Valid() && |lru| > 0
      modifies this
      ensures Valid() && entries == old(entries[..|entries| - 1]) && |lru| == old(|lru|) - 1
      ensures forall j :: j in items ==> j in old(items) && items[j] == old(items[j])
    {
      var back := lru[|lru| - 1];
      ghost var es := entries[..|entries| - 1];
      LastKey(entries);
      assert back in items.Keys;
      lru := lru[..|lru| - 1];
      usedBytes := usedBytes - items[back].Length;
      items := items - {back};
      entries := es;
    }
  }

  method Copy(data: array<Byte>, n: nat) returns (c: array<Byte>)
    requires n <= data.Length
    ensures fresh(c) && c[..] == data[..n]
  {
    c := new Byte[n](i => 0);
    for i := 0 to n
      invariant c[..i] == data[..i]
    {
      c[i] := data[i];
    }
  }

  lemma FrontTotal(e: Item, es: seq<Item>)
    ensures Total([e] + es) == |e.data| + Total(es)
  {
    TotalConcat([e], es);
    assert [e][..0] == [] && Total([e]) == |e.data|;
  }

  lemma InsertListed(e: Item, es: seq<Item>)
    requires Distinct(es) && e.key !in KeysOf(es)
    ensures Distinct([e] + es) && KeysOf([e] + es) == KeysOf(es) + {e.key}
  {
    var f := [e] + es;
    forall j, k | 0 <= j < k < |f|
      ensures f[j].key != f[k].key
    {
      assert f[k] in es;
    }
    assert e in f;
    assert forall x :: x in es ==> x in f;
  }

  lemma LastKey(es: seq<Item>)
    requires es != [] && Distinct(es)
    ensures var n := |es| - 1; Distinct(es[..n]) && KeysOf(es[..n]) == KeysOf(es) - {es[n].key} && es[n] in es
  {
    var n := |es| - 1;
    assert es == es[..n] + [es[n]];
    forall x | x in es[..n]
      ensures x.key != es[n].key
    {
      var j :| 0 <= j < n && es[..n][j] == x;
      assert es[j] == x;
    }
  }
}
