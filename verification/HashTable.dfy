/**
 The open hash table: each bucket is a list kept in ascending order of keys, so that searches
 stop early. It stands for a finite map from keys to items.
 */
module HashTable {

  import opened Options
  import opened Words

  datatype Entry<V> = Entry(key: nat, item: V)

  const KEY_LIMIT: nat := 0x1_0000_0000_0000_0000

  // ----- one bucket -----

  ghost predicate Sorted<V>(b: seq<Entry<V>>) {
    forall i, j :: 0 <= i < j < |b| ==> b[i].key < b[j].key
  }

  /** Where the search for a key stops: before the first entry whose key is not smaller. */
  ghost predicate StopsAt<V>(b: seq<Entry<V>>, key: nat, p: nat) {
    p <= |b| && (forall i :: 0 <= i < p ==> b[i].key < key) && (p < |b| ==> b[p].key >= key)
  }

  ghost predicate Has<V>(b: seq<Entry<V>>, key: nat) {
    exists i :: 0 <= i < |b| && b[i].key == key
  }

  /** Stopping early misses nothing. */
  lemma EarlyExit<V>(b: seq<Entry<V>>, key: nat, p: nat)
    requires Sorted(b) && StopsAt(b, key, p)
    ensures Has(b, key) <==> p < |b| && b[p].key == key
  {
  }

  /** Splicing a new entry in where the search stopped keeps the order and adds just that entry. */
  lemma SpliceKeeps<V>(b: seq<Entry<V>>, e: Entry<V>, p: nat)
    requires Sorted(b) && StopsAt(b, e.key, p) && !Has(b, e.key)
    ensures var r := b[..p] + [e] + b[p..]; Sorted(r) && forall x :: x in r <==> x in b || x == e
  {
    EarlyExit(b, e.key, p);
    var r := b[..p] + [e] + b[p..];
    assert b == b[..p] + b[p..];
    forall x ensures x in r <==> x in b || x == e {
      assert x in b <==> x in b[..p] || x in b[p..];
    }
  }

  /** Taking an entry out keeps the order and removes just that entry. */
  lemma UnlinkKeeps<V>(b: seq<Entry<V>>, p: nat)
    requires Sorted(b) && p < |b|
    ensures var r := b[..p] + b[p + 1..]; Sorted(r) && forall x :: x in r <==> x in b && x != b[p]
  {
    UnlinkSorted(b, p);
    var r := b[..p] + b[p + 1..];
    forall x ensures x in r <==> x in b && x != b[p] { UnlinkMember(b, p, x); }
  }

  lemma UnlinkSorted<V>(b: seq<Entry<V>>, p: nat)
    requires Sorted(b) && p < |b|
    ensures Sorted(b[..p] + b[p + 1..])
  {
  }

  lemma UnlinkMember<V>(b: seq<Entry<V>>, p: nat, x: Entry<V>)
    requires Sorted(b) && p < |b|
    ensures x in b[..p] + b[p + 1..] <==> x in b && x != b[p]
  {
    assert b == b[..p] + [b[p]] + b[p + 1..];
    var r := b[..p] + b[p + 1..];
    if x in r {
      var i :| 0 <= i < |r| && r[i] == x;
      assert x == if i < p then b[i] else b[i + 1];
    }
  }

  lemma HasIsMember<V>(b: seq<Entry<V>>, key: nat, item: V)
    requires Sorted(b) && Entry(key, item) in b
    ensures Has(b, key) && forall x :: x in b && x.key == key ==> x.item == item
  {
  }

  // ----- probing for a free key -----

  /** The key that candidate k stands for, in an unsigned long. */
  function KeyOf(k: nat, shift: nat, add: nat): (r: nat)
    ensures r < KEY_LIMIT
  {
    (k * Pow2(shift) + add) % KEY_LIMIT
  }

  /** A key tells its candidate, unless it has wrapped around. */
  lemma CandidateOf(k: nat, shift: nat, add: nat)
    requires k * Pow2(shift) + add < KEY_LIMIT
    ensures KeyOf(k, shift, add) >= add && (KeyOf(k, shift, add) - add) / Pow2(shift) == k
  {
    Reduce(k * Pow2(shift) + add, KEY_LIMIT);
    Quotient(k * Pow2(shift), Pow2(shift), k);
  }

  lemma Quotient(x: int, p: int, k: int)
    requires p > 0 && x == k * p
    ensures x / p == k
  {
    var d := x / p;
    assert x == d * p + x % p;
    if k > d {
      Grows(1, k - d, p);
    } else if k < d {
      Grows(1, d - k, p);
    }
  }

  lemma Grows(a: int, b: int, p: int)
    requires a <= b && p > 0
    ensures a * p <= b * p
  {
  }

  /** The candidate reached after n steps: the mask keeps the low bits. */
  function Probe(first: nat, n: nat, bits: nat): (r: nat)
    ensures r < Pow2(bits)
  {
    (first + n) % Pow2(bits)
  }

  /** Going round from any start visits every candidate, each once, before it is back. */
  lemma ProbesCover(first: nat, bits: nat, k: nat) returns (n: nat)
    requires first < Pow2(bits) && k < Pow2(bits)
    ensures n < Pow2(bits) && Probe(first, n, bits) == k
  {
    n := if k >= first then k - first else Pow2(bits) - first + k;
    Reduce(k, Pow2(bits));
  }

  lemma ProbeStep(first: nat, n: nat, bits: nat)
    requires first < Pow2(bits) && n < Pow2(bits)
    ensures Probe(first, n + 1, bits) == (Probe(first, n, bits) + 1) % Pow2(bits)
    ensures Probe(first, n + 1, bits) == first <==> n + 1 == Pow2(bits)
    ensures Probe(first, 0, bits) == first
  {
    RoundTrip(first, n, Pow2(bits));
  }

  lemma RoundTrip(first: nat, n: nat, m: nat)
    requires first < m && n < m
    ensures (first + n + 1) % m == ((first + n) % m + 1) % m
    ensures (first + n + 1) % m == first <==> n + 1 == m
    ensures first % m == first
  {
    Reduce(first, m);
    if first + n < m { Reduce(first + n, m); } else { Reduce(first + n - m, m); }
    if first + n + 1 < m { Reduce(first + n + 1, m); } else { Reduce(first + n + 1 - m, m); }
  }

  lemma Reduce(x: nat, m: nat)
    requires x < m
    ensures x % m == x && (x + m) % m == x
  {
  }

  // ----- buckets as a map -----

  ghost predicate BucketAt<V>(hash: nat -> nat, bs: seq<seq<Entry<V>>>, m: map<nat, V>, h: nat)
    requires h < |bs|
  {
    Sorted(bs[h]) && forall x :: x in bs[h] ==> hash(x.key) == h && x.key in m && m[x.key] == x.item
  }

  ghost predicate StoredAt<V>(hash: nat -> nat, bs: seq<seq<Entry<V>>>, m: map<nat, V>, key: nat) {
    key in m ==> hash(key) < |bs| && Entry(key, m[key]) in bs[hash(key)]
  }

  /** The buckets are in order and hold exactly the entries of the map, each in the bucket of its hash. */
  ghost predicate Refines<V>(hash: nat -> nat, bs: seq<seq<Entry<V>>>, m: map<nat, V>) {
    (forall key :: hash(key) < |bs|) && (forall h :: 0 <= h < |bs| ==> BucketAt(hash, bs, m, h)) &&
    forall key :: StoredAt(hash, bs, m, key)
  }

  /** A search that stops early finds exactly what the map has. */
  lemma SearchRefines<V>(hash: nat -> nat, bs: seq<seq<Entry<V>>>, m: map<nat, V>, key: nat, p: nat)
    requires Refines(hash, bs, m) && StopsAt(bs[hash(key)], key, p)
    ensures var b := bs[hash(key)];
            (p < |b| && b[p].key == key <==> key in m) && (key in m ==> b[p] == Entry(key, m[key])) &&
            (Has(b, key) <==> key in m)
  {
    var b := bs[hash(key)];
    assert BucketAt(hash, bs, m, hash(key)) && StoredAt(hash, bs, m, key);
    EarlyExit(b, key, p);
    if key in m { HasIsMember(b, key, m[key]); }
    if p < |b| { assert b[p] in b; }
  }

  lemma InsertRefines<V>(hash: nat -> nat, bs: seq<seq<Entry<V>>>, m: map<nat, V>, key: nat, item: V, p: nat)
    requires Refines(hash, bs, m) && key !in m && StopsAt(bs[hash(key)], key, p)
    ensures var h := hash(key); Refines(hash, bs[h := bs[h][..p] + [Entry(key, item)] + bs[h][p..]], m[key := item])
  {
    var h := hash(key);
    SearchRefines(hash, bs, m, key, p);
    assert BucketAt(hash, bs, m, h);
    SpliceKeeps(bs[h], Entry(key, item), p);
    var r := bs[h][..p] + [Entry(key, item)] + bs[h][p..];
    var bs1, m1 := bs[h := r], m[key := item];
    forall g | 0 <= g < |bs| ensures BucketAt(hash, bs1, m1, g) { assert BucketAt(hash, bs, m, g); }
    forall k ensures StoredAt(hash, bs1, m1, k) { assert StoredAt(hash, bs, m, k); }
  }

  lemma RemoveRefines<V>(hash: nat -> nat, bs: seq<seq<Entry<V>>>, m: map<nat, V>, key: nat, p: nat)
    requires Refines(hash, bs, m) && p < |bs[hash(key)]| && bs[hash(key)][p].key == key
    ensures key in m
    ensures var h := hash(key); Refines(hash, bs[h := bs[h][..p] + bs[h][p + 1..]], m - {key})
  {
    var h := hash(key);
    var b := bs[h];
    assert BucketAt(hash, bs, m, h) && b[p] in b;
    UnlinkKeeps(b, p);
    var r := b[..p] + b[p + 1..];
    var bs1, m1 := bs[h := r], m - {key};
    forall g | 0 <= g < |bs| ensures BucketAt(hash, bs1, m1, g) {
      assert BucketAt(hash, bs, m, g);
      if g == h {
        forall x | x in r ensures x.key != key { SortedUnique(b, p, x); }
      } else {
        forall x | x in bs[g] ensures x.key != key {}
      }
    }
    forall k ensures StoredAt(hash, bs1, m1, k) { assert StoredAt(hash, bs, m, k); }
  }

  lemma SortedUnique<V>(b: seq<Entry<V>>, p: nat, x: Entry<V>)
    requires Sorted(b) && p < |b| && x in b && x != b[p]
    ensures x.key != b[p].key
  {
  }

  // ----- the table -----

  class Table<V(==)> {
    const hash: nat -> nat
    const buckets: array<seq<Entry<V>>>
    ghost var contents: map<nat, V>

    ghost predicate Valid()
      reads this, buckets
    {
      Refines(hash, buckets[..], contents)
    }

    /** drm_ht_create; the hash function spreads keys over the buckets. */
    constructor (order: nat, hash: nat -> nat)
      requires forall key :: hash(key) < Pow2(order)
      ensures Valid() && contents == map[] && this.hash == hash && fresh(buckets)
    {
      this.hash := hash;
      buckets := new seq<Entry<V>>[Pow2(order)](_ => []);
      contents := map[];
    }

    /** The search shared by finding, inserting and removing: how many entries it passes. */
    method Search(key: nat) returns (h: nat, p: nat)
      requires Valid()
      ensures h == hash(key) < buckets.Length && StopsAt(buckets[h], key, p)
      ensures p < |buckets[h]| && buckets[h][p].key == key <==> key in contents
      ensures key in contents ==> buckets[h][p] == Entry(key, contents[key])
    {
      hide BucketAt, StoredAt;
      h := hash(key);
      p := 0;
      while p < |buckets[h]| && buckets[h][p].key < key
        invariant p <= |buckets[h]| && forall i :: 0 <= i < p ==> buckets[h][i].key < key
      {
        p := p + 1;
      }
      assert buckets[..][h] == buckets[h];
      SearchRefines(hash, buckets[..], contents, key, p);
    }

    /** drm_ht_find_item. */
    method FindItem(key: nat) returns (r: Option<V>)
      requires Valid()
      ensures r == if key in contents then Some(contents[key]) else None
    {
      hide BucketAt, StoredAt;
      var h, p := Search(key);
      if p < |buckets[h]| && buckets[h][p].key == key { return Some(buckets[h][p].item); }
      return None;
    }

    /** drm_ht_insert_item: fails exactly if the key is taken. */
    method InsertItem(key: nat, item: V) returns (ok: bool)
      requires Valid()
      modifies this, buckets
      ensures Valid()
      ensures ok <==> key !in old(contents)
      ensures contents == if ok then old(contents)[key := item] else old(contents)
    {
      hide BucketAt, StoredAt, Refines;
      var h, p := Search(key);
      if p < |buckets[h]| && buckets[h][p].key == key { return false; }
      ghost var bs := buckets[..];
      InsertRefines(hash, bs, contents, key, item, p);
      buckets[h] := buckets[h][..p] + [Entry(key, item)] + buckets[h][p..];
      contents := contents[key := item];
      assert buckets[..] == bs[h := bs[h][..p] + [Entry(key, item)] + bs[h][p..]];
      return true;
    }

    /** drm_ht_remove_key: fails exactly if the key is not there. */
    method RemoveKey(key: nat) returns (ok: bool)
      requires Valid()
      modifies this, buckets
      ensures Valid()
      ensures ok <==> key in old(contents)
      ensures contents == old(contents) - {key}
    {
      hide BucketAt, StoredAt, Refines;
      var h, p := Search(key);
      if p == |buckets[h]| || buckets[h][p].key != key {
        assert contents == contents - {key};
        return false;
      }
      ghost var bs := buckets[..];
      RemoveRefines(hash, bs, contents, key, p);
      buckets[h] := buckets[h][..p] + buckets[h][p + 1..];
      contents := contents - {key};
      assert buckets[..] == bs[h := bs[h][..p] + bs[h][p + 1..]];
      return true;
    }

    /**
     drm_ht_just_insert_please: seeded with some candidate, it tries all of them in turn. It fails
     exactly if every candidate's key is taken, and otherwise uses the first free one.
     */
    method JustInsertPlease(item: V, first: nat, bits: nat, shift: nat, add: nat)
      returns (ok: bool, key: nat, probes: nat)
      requires Valid() && bits < 32 && first < Pow2(bits)
      modifies this, buckets
      ensures Valid() && 1 <= probes <= Pow2(bits)
      ensures ok <==> exists k :: 0 <= k < Pow2(bits) && KeyOf(k, shift, add) !in old(contents)
      ensures key == KeyOf(Probe(first, probes - 1, bits), shift, add)
      ensures forall n :: 0 <= n < probes - 1 ==> KeyOf(Probe(first, n, bits), shift, add) in old(contents)
      ensures ok <==> key !in old(contents)
      ensures contents == if ok then old(contents)[key := item] else old(contents)
    {
      hide Refines, KeyOf, Probe, Pow2;
      ghost var was := contents;
      var candidate := first;
      probes := 0;
      ok := false;
      ProbeStep(first, 0, bits);
      while true
        invariant Valid() && contents == was && 0 <= probes < Pow2(bits) && candidate == Probe(first, probes, bits)
        invariant forall n :: 0 <= n < probes ==> KeyOf(Probe(first, n, bits), shift, add) in was
        decreases Pow2(bits) - probes
      {
        key := KeyOf(candidate, shift, add);
        ok := InsertItem(key, item);
        ProbeStep(first, probes, bits);
        probes := probes + 1;
        if ok { return; }
        candidate := (candidate + 1) % Pow2(bits);
        if candidate == first { break; }
      }
      forall k | 0 <= k < Pow2(bits) ensures KeyOf(k, shift, add) in was {
        var n := ProbesCover(first, bits, k);
      }
    }
  }
}
