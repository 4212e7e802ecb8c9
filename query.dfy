/** `SELECT * FROM table WHERE cond ORDER BY column ASC` over a table keyed by id. */
module Query {

  ghost predicate Distinct<K>(ks: seq<K>) {
    forall i, j | 0 <= i < j < |ks| :: ks[i] != ks[j]
  }

  /** The keys list rows of `m` in ascending order of `key`. */
  ghost predicate OrderedBy<K, V>(m: map<K, V>, ks: seq<K>, key: V -> int) {
    && (forall i | 0 <= i < |ks| :: ks[i] in m)
    && (forall i, j | 0 <= i < j < |ks| && ks[i] in m && ks[j] in m :: key(m[ks[i]]) <= key(m[ks[j]]))
  }

  /** The keys of exactly the rows satisfying `cond`, each once, in ascending
      order of `key`. Rows with equal keys come out in an unspecified order. */
  method SelectOrdered<K, V>(m: map<K, V>, cond: V -> bool, key: V -> int) returns (ks: seq<K>)
    ensures forall k :: k in ks <==> k in m && cond(m[k])
    ensures Distinct(ks)
    ensures OrderedBy(m, ks, key)
  {
    var pending := m.Keys;
    ks := [];
    while pending != {}
      invariant pending <= m.Keys
      invariant forall k :: k in ks <==> k in m && k !in pending && cond(m[k])
      invariant Distinct(ks)
      invariant OrderedBy(m, ks, key)
      decreases pending
    {
      var k :| k in pending;
      pending := pending - {k};
      if cond(m[k]) {
        ks := InsertOrdered(m, ks, k, key);
      }
    }
  }

  /** Inserting a key at position j adds exactly that key. */
  lemma InsertKeepsMembers<K>(ks: seq<K>, k: K, j: nat)
    requires j <= |ks|
    ensures forall x :: x in ks[..j] + [k] + ks[j..] <==> x in ks || x == k
  {
    assert ks == ks[..j] + ks[j..];
  }

  /** Inserting a new key keeps the keys pairwise distinct. */
  lemma InsertKeepsDistinct<K>(ks: seq<K>, k: K, j: nat)
    requires k !in ks && j <= |ks| && Distinct(ks)
    ensures Distinct(ks[..j] + [k] + ks[j..])
  {
    var r := ks[..j] + [k] + ks[j..];
    assert |r| == |ks| + 1;
    assert forall a | 0 <= a < j :: r[a] == ks[a];
    assert r[j] == k;
    assert forall a | j < a < |r| :: r[a] == ks[a - 1];
  }

  /** Putting `k` between the rows not greater than it and the rows greater than it keeps the order. */
  lemma InsertKeepsOrder<K, V>(m: map<K, V>, ks: seq<K>, k: K, key: V -> int, j: nat)
    requires k in m && j <= |ks|
    requires OrderedBy(m, ks, key)
    requires forall i | 0 <= i < j :: key(m[ks[i]]) <= key(m[k])
    requires forall i | j <= i < |ks| :: key(m[k]) < key(m[ks[i]])
    ensures OrderedBy(m, ks[..j] + [k] + ks[j..], key)
  {
    var r := ks[..j] + [k] + ks[j..];
    assert |r| == |ks| + 1;
    assert forall a | 0 <= a < j :: r[a] == ks[a];
    assert r[j] == k;
    assert forall a | j < a < |r| :: r[a] == ks[a - 1];
  }

  /** Inserts `k` after every key whose row is not greater than its own. */
  method InsertOrdered<K, V>(m: map<K, V>, ks: seq<K>, k: K, key: V -> int) returns (ks': seq<K>)
    requires k in m && k !in ks
    requires Distinct(ks) && OrderedBy(m, ks, key)
    ensures forall x :: x in ks' <==> x in ks || x == k
    ensures Distinct(ks') && OrderedBy(m, ks', key)
  {
    var v := key(m[k]);
    var j := 0;
    while j < |ks| && key(m[ks[j]]) <= v
      invariant 0 <= j <= |ks|
      invariant forall i | 0 <= i < j :: key(m[ks[i]]) <= v
    {
      j := j + 1;
    }
    if j < |ks| {
      forall i | j <= i < |ks| ensures v < key(m[ks[i]]) {
        assert key(m[ks[j]]) <= key(m[ks[i]]);
      }
    }
    ks' := ks[..j] + [k] + ks[j..];
    InsertKeepsMembers(ks, k, j);
    InsertKeepsDistinct(ks, k, j);
    InsertKeepsOrder(m, ks, k, key, j);
  }
}
