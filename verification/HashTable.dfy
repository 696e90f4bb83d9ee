/** The chained hash table, as an object updated in place. It refines a finite map.

    Buckets are sequences of entries here, the newest first, and the object has the bucket
    array, the count of entries, the count of used buckets and the cursor of the program. The
    map is the ghost field `contents`, tied to the buckets: every entry is in the bucket of its
    key, and the keys of a bucket are all different. Sizes come from the table of primes. */
module HashTable {
  import opened Bits
  import opened Values

  /** How many sizes there are for which `limit * 75` does not overflow a 64-bit word. */
  const SIZES: nat := 54

  function Prime(i: nat): (p: nat)
    requires i < SIZES
    ensures 13 <= p && p * 75 < WORD
  {
    if i == 0 then 13 else if i == 1 then 31 else if i == 2 then 61 else
    if i == 3 then 127 else if i == 4 then 251 else if i == 5 then 509 else
    if i == 6 then 1021 else if i == 7 then 2039 else if i == 8 then 4093 else
    if i == 9 then 8191 else if i == 10 then 16381 else if i == 11 then 32749 else
    if i == 12 then 65521 else if i == 13 then 131071 else if i == 14 then 262139 else
    if i == 15 then 524287 else if i == 16 then 1048573 else if i == 17 then 2097143 else
    if i == 18 then 4194301 else if i == 19 then 8388593 else if i == 20 then 16777213 else
    if i == 21 then 33554393 else if i == 22 then 67108859 else if i == 23 then 134217689 else
    if i == 24 then 268435399 else if i == 25 then 536870909 else if i == 26 then 1073741789 else
    if i == 27 then 2147483647 else if i == 28 then 4294967295 else if i == 29 then 8589934591 else
    if i == 30 then 17179869183 else if i == 31 then 34359738367 else if i == 32 then 68719476735 else
    if i == 33 then 137438953471 else if i == 34 then 274877906943 else if i == 35 then 549755813887 else
    if i == 36 then 1099511627775 else if i == 37 then 2199023255551 else if i == 38 then 4398046511103 else
    if i == 39 then 8796093022207 else if i == 40 then 17592186044415 else if i == 41 then 35184372088831 else
    if i == 42 then 70368744177663 else if i == 43 then 140737488355327 else if i == 44 then 281474976710655 else
    if i == 45 then 562949953421311 else if i == 46 then 1125899906842623 else if i == 47 then 2251799813685247 else
    if i == 48 then 4503599627370495 else if i == 49 then 9007199254740991 else if i == 50 then 18014398509481983 else
    if i == 51 then 36028797018963967 else if i == 52 then 72057594037927935 else
    144115188075855871
  }

  /** One size after the other nearly doubles the room. */
  lemma PrimesGrow(i: nat)
    requires i + 1 < SIZES
    ensures 3 * Prime(i) + 4 <= 2 * Prime(i + 1)
  {
  }

  function LengthBound(limit: nat): nat { limit * 75 / 100 }

  function IndexBound(limit: nat): nat { limit * 50 / 100 }

  /** The bounds: three quarters of the size for entries, half of it for used buckets. */
  lemma BoundsAre(limit: nat, n: nat)
    ensures n >= LengthBound(limit) <==> 4 * (n + 1) > 3 * limit
    ensures n >= IndexBound(limit) <==> 2 * (n + 1) > limit
  {
  }

  /** What fills one size up to its bound is below both bounds of the next size. */
  lemma RehashClears(i: nat, length: nat)
    requires i + 1 < SIZES && length <= LengthBound(Prime(i))
    ensures length < LengthBound(Prime(i + 1)) && length < IndexBound(Prime(i + 1))
  {
    PrimesGrow(i);
    hide Prime;
  }

  // Buckets as values

  datatype Entry<K, V> = Entry(key: K, value: V)

  type Chain<K, V> = seq<Entry<K, V>>

  function IndexOf<K>(hash: K -> nat, limit: nat, key: K): (i: nat)
    requires limit > 0
    ensures i < limit
  {
    hash(key) % limit
  }

  predicate HasKey<K(==), V>(chain: Chain<K, V>, key: K) {
    exists j :: 0 <= j < |chain| && chain[j].key == key
  }

  ghost predicate DistinctKeys<K, V>(chain: Chain<K, V>) {
    forall i, j :: 0 <= i < j < |chain| ==> chain[i].key != chain[j].key
  }

  /** The count of used buckets, in a machine word, if it is too low by `missed`. */
  ghost predicate CountsUsed<T>(count: nat, buckets: seq<seq<T>>, missed: nat) {
    count == (Used(buckets) - missed) % WORD
  }

  lemma WordNext(a: int)
    ensures (a % WORD + 1) % WORD == (a + 1) % WORD && (a % WORD + WORD - 1) % WORD == (a - 1) % WORD
  {
  }

  lemma CountSet<T>(count: nat, buckets: seq<seq<T>>, missed: nat, i: nat, bucket: seq<T>)
    requires CountsUsed(count, buckets, missed) && i < |buckets| && bucket != []
    ensures CountsUsed(if buckets[i] == [] then (count + 1) % WORD else count, buckets[i := bucket], missed)
  {
    UsedUpdate(buckets, i, bucket);
    WordNext(Used(buckets) - missed);
    hide Used;
  }

  lemma CountDelete<T>(count: nat, buckets: seq<seq<T>>, missed: nat, i: nat, j: nat)
    requires CountsUsed(count, buckets, missed) && i < |buckets| && j < |buckets[i]|
    ensures CountsUsed(if j == 0 then (count + WORD - 1) % WORD else count, buckets[i := WithoutEntry(buckets[i], j)],
                missed + if j == 0 && |buckets[i]| > 1 then 1 else 0)
  {
    UsedUpdate(buckets, i, WithoutEntry(buckets[i], j));
    WordNext(Used(buckets) - missed);
    assert |WithoutEntry(buckets[i], j)| == |buckets[i]| - 1;
    hide Used;
  }

  lemma CountFresh<T>(buckets: seq<seq<T>>)
    requires |buckets| < WORD
    ensures CountsUsed(Used(buckets), buckets, 0)
    ensures (forall i :: 0 <= i < |buckets| ==> buckets[i] == []) ==> Used(buckets) == 0
  {
    if forall i :: 0 <= i < |buckets| ==> buckets[i] == [] { UsedNone(buckets); }
  }

  /** The buckets hold exactly the entries of the map, each once, where its hash says. */
  ghost predicate Represents<K(!new), V(!new)>(hash: K -> nat, buckets: seq<Chain<K, V>>, m: map<K, V>) {
    && |buckets| > 0
    && (forall i :: 0 <= i < |buckets| ==> DistinctKeys(buckets[i]))
    && (forall i, j :: 0 <= i < |buckets| && 0 <= j < |buckets[i]| ==>
          var e := buckets[i][j]; e.key in m && m[e.key] == e.value && IndexOf(hash, |buckets|, e.key) == i)
    && (forall k :: k in m ==> HasKey(buckets[IndexOf(hash, |buckets|, k)], k))
  }

  /** How many buckets are used. */
  function Used<T>(buckets: seq<seq<T>>): (n: nat)
    ensures n <= |buckets|
  {
    if buckets == [] then 0 else Used(buckets[..|buckets| - 1]) + if buckets[|buckets| - 1] == [] then 0 else 1
  }

  lemma {:induction false} UsedUpdate<T>(buckets: seq<seq<T>>, i: nat, bucket: seq<T>)
    requires i < |buckets|
    ensures Used(buckets[i := bucket])
         == Used(buckets) - (if buckets[i] == [] then 0 else 1) + if bucket == [] then 0 else 1
  {
    var n := |buckets| - 1;
    if i < n {
      UsedUpdate(buckets[..n], i, bucket);
      assert buckets[i := bucket][..n] == buckets[..n][i := bucket];
    } else {
      assert buckets[i := bucket][..n] == buckets[..n];
    }
  }

  lemma {:induction false} UsedNone<T>(buckets: seq<seq<T>>)
    requires forall i :: 0 <= i < |buckets| ==> buckets[i] == []
    ensures Used(buckets) == 0
  {
    if buckets != [] { UsedNone(buckets[..|buckets| - 1]); }
  }

  lemma RepresentsInsert<K(!new), V(!new)>(hash: K -> nat, buckets: seq<Chain<K, V>>, m: map<K, V>, key: K, value: V)
    requires Represents(hash, buckets, m) && key !in m
    ensures var i := IndexOf(hash, |buckets|, key);
            Represents(hash, buckets[i := [Entry(key, value)] + buckets[i]], m[key := value])
  {
    var i := IndexOf(hash, |buckets|, key);
    var chain := [Entry(key, value)] + buckets[i];
    var buckets' := buckets[i := chain];
    forall k | k in m[key := value] ensures HasKey(buckets'[IndexOf(hash, |buckets|, k)], k) {
      if k == key {
        assert chain[0].key == key;
      } else {
        var b := IndexOf(hash, |buckets|, k);
        assert HasKey(buckets[b], k);
        if b == i {
          var j :| 0 <= j < |buckets[i]| && buckets[i][j].key == k;
          assert chain[j + 1].key == k;
        }
      }
    }
    assert DistinctKeys(chain) by {
      assert forall j :: 0 < j < |chain| ==> chain[j] == buckets[i][j - 1];
    }
  }

  function WithoutEntry<T>(s: seq<T>, j: nat): seq<T>
    requires j < |s|
  {
    s[..j] + s[j + 1..]
  }

  lemma RepresentsDelete<K(!new), V(!new)>(hash: K -> nat, buckets: seq<Chain<K, V>>, m: map<K, V>, i: nat, j: nat)
    requires Represents(hash, buckets, m) && i < |buckets| && j < |buckets[i]|
    ensures buckets[i][j].key in m
    ensures Represents(hash, buckets[i := WithoutEntry(buckets[i], j)], m - {buckets[i][j].key})
  {
    var key := buckets[i][j].key;
    var chain := WithoutEntry(buckets[i], j);
    var buckets', m' := buckets[i := chain], m - {key};
    assert forall c :: 0 <= c < |chain| ==> chain[c] == buckets[i][if c < j then c else c + 1];
    forall k | k in m' ensures HasKey(buckets'[IndexOf(hash, |buckets|, k)], k) {
      var b := IndexOf(hash, |buckets|, k);
      assert HasKey(buckets[b], k);
      if b == i {
        var c :| 0 <= c < |buckets[i]| && buckets[i][c].key == k;
        assert chain[if c < j then c else c - 1].key == k;
      }
    }
    assert DistinctKeys(buckets[i]);
  }

  lemma RepresentsUpdate<K(!new), V(!new)>(hash: K -> nat, buckets: seq<Chain<K, V>>, m: map<K, V>, i: nat, j: nat,
          value: V)
    requires Represents(hash, buckets, m) && i < |buckets| && j < |buckets[i]|
    ensures var key := buckets[i][j].key;
            && key in m
            && Represents(hash, buckets[i := buckets[i][j := Entry(key, value)]], m[key := value])
  {
    var key := buckets[i][j].key;
    var chain := buckets[i][j := Entry(key, value)];
    var buckets' := buckets[i := chain];
    assert DistinctKeys(buckets[i]);
    forall k | k in m[key := value] ensures HasKey(buckets'[IndexOf(hash, |buckets|, k)], k) {
      var b := IndexOf(hash, |buckets|, k);
      assert HasKey(buckets[b], k);
      var c :| 0 <= c < |buckets[b]| && buckets[b][c].key == k;
      assert buckets'[b][c].key == k;
    }
  }

  lemma SizeWithout<K, V>(m: map<K, V>, key: K)
    requires key in m
    ensures |m - {key}| == |m| - 1
  {
    assert m.Keys == (m - {key}).Keys + {key};
  }

  lemma SizeWith<K, V>(m: map<K, V>, key: K, value: V)
    ensures |m[key := value]| == |m| + if key in m then 0 else 1
  {
    assert m[key := value].Keys == m.Keys + {key};
  }

  // All entries, in the order of the buckets

  function Flatten<T>(buckets: seq<seq<T>>): seq<T> {
    if buckets == [] then [] else buckets[0] + Flatten(buckets[1..])
  }

  lemma {:induction false} FlattenHas<T>(buckets: seq<seq<T>>, x: T)
    ensures x in Flatten(buckets) <==> exists i :: 0 <= i < |buckets| && x in buckets[i]
  {
    if buckets != [] {
      FlattenHas(buckets[1..], x);
      assert forall i :: 0 < i < |buckets| ==> buckets[i] == buckets[1..][i - 1];
      if i :| 0 <= i < |buckets[1..]| && x in buckets[1..][i] { assert x in buckets[i + 1]; }
      if i :| 0 <= i < |buckets| && x in buckets[i] { if i > 0 { assert x in buckets[1..][i - 1]; } }
    }
  }

  /** Keys of one bucket are distinct, and those of two buckets hash differently. */
  lemma {:induction false} FlattenDistinct<K, V>(hash: K -> nat, limit: nat, buckets: seq<Chain<K, V>>, from: nat)
    requires limit > 0
    requires forall i :: 0 <= i < |buckets| ==> DistinctKeys(buckets[i])
    requires forall i, j :: 0 <= i < |buckets| && 0 <= j < |buckets[i]| ==>
               IndexOf(hash, limit, buckets[i][j].key) == from + i
    ensures DistinctKeys(Flatten(buckets))
    ensures forall e :: e in Flatten(buckets) ==> IndexOf(hash, limit, e.key) >= from
    decreases |buckets|
  {
    if buckets != [] {
      var rest := buckets[1..];
      assert forall i :: 0 <= i < |rest| ==> rest[i] == buckets[i + 1];
      FlattenDistinct(hash, limit, rest, from + 1);
      assert DistinctKeys(buckets[0]);
      var all := Flatten(buckets);
      var n := |buckets[0]|;
      forall i, j | 0 <= i < j < |all| ensures all[i].key != all[j].key {
        if i < n <= j {
          assert all[j] == Flatten(rest)[j - n] && all[j] in Flatten(rest);
          assert IndexOf(hash, limit, buckets[0][i].key) == from;
        }
      }
    }
  }

  /** The entries in order are those of the map, each key once. */
  lemma FlattenIsMap<K(!new), V(!new)>(hash: K -> nat, buckets: seq<Chain<K, V>>, m: map<K, V>)
    requires Represents(hash, buckets, m)
    ensures DistinctKeys(Flatten(buckets))
    ensures forall k, v :: Entry(k, v) in Flatten(buckets) <==> k in m && m[k] == v
  {
    FlattenDistinct(hash, |buckets|, buckets, 0);
    forall k, v ensures Entry(k, v) in Flatten(buckets) <==> k in m && m[k] == v {
      FlattenHas(buckets, Entry(k, v));
      if k in m && m[k] == v {
        var i := IndexOf(hash, |buckets|, k);
        assert HasKey(buckets[i], k);
        var j :| 0 <= j < |buckets[i]| && buckets[i][j].key == k;
        assert buckets[i][j] == Entry(k, v);
      }
    }
  }

  // The table

  method AllocateEntries<K, V>(limit: nat) returns (entries: array<Chain<K, V>>)
    ensures fresh(entries) && entries.Length == limit
    ensures forall i :: 0 <= i < |entries[..]| ==> entries[..][i] == []
  {
    entries := new Chain<K, V>[limit](_ => []);
  }

  class Hash<K(==, !new), V(!new)> {
    const hash: K -> nat
    var primeIndex: nat
    var usedIndexesSize: nat
    var length: nat
    var entries: array<Chain<K, V>>
    var cursorIndex: nat
    var cursorEntry: Chain<K, V>
    ghost var contents: map<K, V>
    ghost var missed: nat

    /** The count of used buckets is too low by the number of entries deleted, since the last
        rehash, that were the first of a chain that went on; `missed` counts them. */
    ghost predicate Valid()
      reads this, entries
    {
      && primeIndex < SIZES && entries.Length == Prime(primeIndex)
      && Represents(hash, entries[..], contents)
      && length == |contents| <= LengthBound(entries.Length)
      && CountsUsed(usedIndexesSize, entries[..], missed)
    }

    constructor (hash: K -> nat)
      ensures Valid() && contents == map[] && this.hash == hash && primeIndex == 0 && fresh(entries)
    {
      this.hash := hash;
      new;
      Init();
    }

    /** An empty table of the first size. */
    method Init()
      modifies this
      ensures Valid() && contents == map[] && primeIndex == 0 && fresh(entries)
    {
      primeIndex := 0;
      usedIndexesSize := 0;
      length := 0;
      entries := AllocateEntries(13);
      cursorIndex := 0;
      cursorEntry := [];
      contents, missed := map[], 0;
      EmptyRepresents(hash, entries[..]);
      CountFresh(entries[..]);
      assert Prime(0) == 13;
      hide Represents, CountsUsed, Prime;
    }

    /** Follows the chain of the key's bucket. */
    method GetEntry(key: K) returns (position: Option<nat>)
      requires Valid()
      ensures position.None? <==> key !in contents
      ensures position.Some? ==>
                var i := IndexOf(hash, entries.Length, key);
                position.value < |entries[i]| && entries[i][position.value].key == key
    {
      var i := IndexOf(hash, entries.Length, key);
      var chain := entries[i];
      assert entries[..][i] == chain;
      for j := 0 to |chain|
        invariant forall c :: 0 <= c < j ==> chain[c].key != key
      {
        if chain[j].key == key {
          assert entries[..][i][j].key in contents;
          return Some(j);
        }
      }
      assert !HasKey(entries[..][i], key);
      position := None;
    }

    method Has(key: K) returns (found: bool)
      requires Valid()
      ensures found <==> key in contents
    {
      var position := GetEntry(key);
      found := position.Some?;
    }

    method Get(key: K) returns (value: Option<V>)
      requires Valid()
      ensures value == if key in contents then Some(contents[key]) else None
    {
      var position := GetEntry(key);
      if position.None? { return None; }
      var i := IndexOf(hash, entries.Length, key);
      assert entries[..][i][position.value].key == key;
      value := Some(entries[i][position.value].value);
    }

    method SetEntryIfNotExists(key: K, value: V) returns (isNew: bool)
      requires Valid() && length < LengthBound(entries.Length)
      modifies this`usedIndexesSize, this`length, this`contents, entries
      ensures Valid()
      ensures isNew <==> key !in old(contents)
      ensures contents == if isNew then old(contents)[key := value] else old(contents)
    {
      hide CountsUsed, Represents, Prime, LengthBound;
      var position := GetEntry(key);
      if position.Some? { return false; }
      var i := IndexOf(hash, entries.Length, key);
      ghost var before := entries[..];
      SizeWith(contents, key, value);
      RepresentsInsert(hash, before, contents, key, value);
      CountSet(usedIndexesSize, before, missed, i, [Entry(key, value)] + before[i]);
      if entries[i] == [] { usedIndexesSize := (usedIndexesSize + 1) % WORD; }
      entries[i] := [Entry(key, value)] + entries[i];
      length := length + 1;
      contents := contents[key := value];
      assert entries[..] == before[i := [Entry(key, value)] + before[i]];
      isNew := true;
    }

    /** Takes an entry out of its chain. The count of used buckets goes down whenever the
        entry was the first of its chain, even if others follow it. */
    method DeleteEntry(i: nat, j: nat)
      requires Valid() && i < entries.Length && j < |entries[i]|
      modifies this`usedIndexesSize, this`length, this`contents, this`missed, entries
      ensures Valid() && entries[i] == WithoutEntry(old(entries[i]), j)
      ensures forall k :: 0 <= k < entries.Length && k != i ==> entries[k] == old(entries[k])
      ensures old(entries[i])[j].key in old(contents) && contents == old(contents) - {old(entries[i])[j].key}
      ensures missed == old(missed) + if j == 0 && |old(entries[i])| > 1 then 1 else 0
    {
      hide Represents, Prime, CountsUsed, LengthBound, WithoutEntry;
      ghost var before := entries[..];
      ghost var key := entries[i][j].key;
      RepresentsDelete(hash, before, contents, i, j);
      SizeWithout(contents, key);
      CountDelete(usedIndexesSize, before, missed, i, j);
      if j == 0 && |entries[i]| > 1 { missed := missed + 1; }
      entries[i] := WithoutEntry(entries[i], j);
      length := length - 1;
      if j == 0 { usedIndexesSize := (usedIndexesSize + WORD - 1) % WORD; }
      contents := contents - {key};
      assert entries[..] == before[i := WithoutEntry(before[i], j)];
    }

    method Delete(key: K) returns (found: bool)
      requires Valid()
      modifies this`usedIndexesSize, this`length, this`contents, this`missed, entries
      ensures Valid()
      ensures found <==> key in old(contents)
      ensures contents == old(contents) - {key}
    {
      var position := GetEntry(key);
      if position.None? {
        assert contents - {key} == contents;
        return false;
      }
      var i := IndexOf(hash, entries.Length, key);
      DeleteEntry(i, position.value);
      found := true;
    }

    predicate Overloaded()
      reads this, entries
    {
      length >= LengthBound(entries.Length) || usedIndexesSize >= IndexBound(entries.Length)
    }

    method IsOverload() returns (overload: bool)
      requires Valid()
      ensures overload == Overloaded()
    {
      var limit := Prime(primeIndex);
      overload := length >= limit * 75 / 100 || usedIndexesSize >= limit * 50 / 100;
    }

    /** Puts the entries of one old chain in front of the chains of the new buckets. */
    method MoveChain(chain: Chain<K, V>, newEntries: array<Chain<K, V>>, ghost buckets: seq<Chain<K, V>>,
                     ghost m: map<K, V>, ghost start: map<K, V>, ghost index: nat) returns (ghost moved: map<K, V>)
      requires index < |buckets| && chain == buckets[index] && usedIndexesSize == Used(newEntries[..]) <= |start|
      requires Represents(hash, buckets, m) && Represents(hash, newEntries[..], start)
      requires IsMoved(hash, buckets, m, start, index, 0)
      modifies this`usedIndexesSize, newEntries
      ensures Represents(hash, newEntries[..], moved) && usedIndexesSize == Used(newEntries[..]) <= |moved|
      ensures IsMoved(hash, buckets, m, moved, index + 1, 0)
    {
      hide Represents, IsMoved;
      moved := start;
      HasRoom(hash, newEntries[..], start);
      for c := 0 to |chain|
        invariant Represents(hash, newEntries[..], moved) && usedIndexesSize == Used(newEntries[..]) <= |moved|
        invariant IsMoved(hash, buckets, m, moved, index, c)
      {
        var entry := chain[c];
        var i := IndexOf(hash, newEntries.Length, entry.key);
        MovedNext(hash, buckets, m, moved, index, c);
        RepresentsInsert(hash, newEntries[..], moved, entry.key, entry.value);
        if newEntries[i] == [] { usedIndexesSize := usedIndexesSize + 1; }
        ghost var before := newEntries[..];
        UsedUpdate(before, i, [entry] + before[i]);
        newEntries[i] := [entry] + newEntries[i];
        assert newEntries[..] == before[i := [entry] + before[i]];
        moved := moved[entry.key := entry.value];
      }
      MovedChain(hash, buckets, m, moved, index);
    }

    method MoveEntries(newEntries: array<Chain<K, V>>, ghost buckets: seq<Chain<K, V>>)
      requires entries != newEntries && buckets == entries[..] && usedIndexesSize == Used(newEntries[..]) == 0
      requires Represents(hash, buckets, contents) && Represents(hash, newEntries[..], map[])
      requires IsMoved(hash, buckets, contents, map[], 0, 0)
      modifies this`usedIndexesSize, newEntries
      ensures Represents(hash, newEntries[..], contents) && usedIndexesSize == Used(newEntries[..]) <= |contents|
    {
      hide Represents, IsMoved;
      ghost var moved: map<K, V> := map[];
      for index := 0 to entries.Length
        invariant Represents(hash, newEntries[..], moved) && usedIndexesSize == Used(newEntries[..]) <= |moved|
        invariant IsMoved(hash, buckets, contents, moved, index, 0)
      {
        moved := MoveChain(entries[index], newEntries, buckets, contents, moved, index);
      }
      MovedAll(hash, buckets, contents, moved);
    }

    /** Moves every entry to a larger table, which is then overloaded in neither way. */
    method Rehash()
      requires Valid() && primeIndex + 1 < SIZES
      modifies this`primeIndex, this`usedIndexesSize, this`entries, this`missed
      ensures Valid() && fresh(entries) && primeIndex == old(primeIndex) + 1 && missed == 0
      ensures length < LengthBound(entries.Length) && usedIndexesSize < IndexBound(entries.Length)
    {
      hide Represents, IsMoved, Prime;
      RehashClears(primeIndex, length);
      var newEntries := AllocateEntries(Prime(primeIndex + 1));
      NothingMoved(hash, entries[..], contents, newEntries[..]);
      CountFresh(newEntries[..]);
      primeIndex, missed := primeIndex + 1, 0;
      usedIndexesSize := 0;
      MoveEntries(newEntries, entries[..]);
      CountFresh(newEntries[..]);
      entries := newEntries;
    }

    /** Rehashes first if needed, even when the key turns out to be there. */
    method Set(key: K, value: V) returns (isNew: bool)
      requires Valid() && (Overloaded() ==> primeIndex + 1 < SIZES)
      modifies this`primeIndex, this`usedIndexesSize, this`length, this`contents, this`entries, this`missed, entries
      ensures Valid() && (if old(Overloaded()) then fresh(entries)
              && primeIndex == old(primeIndex) + 1 else entries == old(entries))
      ensures isNew <==> key !in old(contents)
      ensures contents == if isNew then old(contents)[key := value] else old(contents)
    {
      var overload := IsOverload();
      if overload { Rehash(); }
      isNew := SetEntryIfNotExists(key, value);
    }

    method Put(key: K, value: V)
      requires Valid() && (key !in contents && Overloaded() ==> primeIndex + 1 < SIZES)
      modifies this`primeIndex, this`usedIndexesSize, this`length, this`contents, this`entries, this`missed, entries
      ensures Valid() && (entries == old(entries) || fresh(entries))
      ensures contents == old(contents)[key := value]
    {
      hide Represents, CountsUsed, Prime, LengthBound, IndexBound;
      var position := GetEntry(key);
      if position.None? {
        var isNew := Set(key, value);
        assert isNew;
        return;
      }
      var i := IndexOf(hash, entries.Length, key);
      ghost var before := entries[..];
      RepresentsUpdate(hash, before, contents, i, position.value, value);
      entries[i] := entries[i][position.value := Entry(key, value)];
      CountSet(usedIndexesSize, before, missed, i, before[i][position.value := Entry(key, value)]);
      assert entries[..] == before[i := before[i][position.value := Entry(key, value)]];
      SizeWith(contents, key, value);
      contents := contents[key := value];
    }

    method PurgeBucket(index: nat)
      requires Valid() && index < entries.Length
      modifies this`usedIndexesSize, this`length, this`contents, this`missed, entries
      ensures Valid() && entries[index] == []
      ensures forall k :: 0 <= k < entries.Length && k != index ==> entries[k] == old(entries[k])
    {
      hide Represents, Prime;
      while entries[index] != []
        invariant Valid()
        invariant forall k :: 0 <= k < entries.Length && k != index ==> entries[k] == old(entries[k])
        decreases |entries[index]|
      {
        DeleteEntry(index, 0);
      }
    }

    method PurgeWithoutShrink()
      requires Valid()
      modifies this`usedIndexesSize, this`length, this`contents, this`missed, entries
      ensures Valid() && contents == map[]
    {
      var limit := Prime(primeIndex);
      hide Represents, Prime;
      for index := 0 to limit
        invariant Valid() && entries.Length == limit
        invariant forall k :: 0 <= k < index ==> entries[k] == []
      {
        PurgeBucket(index);
      }
    }

    /** Deletes entry by entry, bucket by bucket, and shrinks the table. */
    method Purge()
      requires Valid()
      modifies this, entries
      ensures Valid() && contents == map[] && primeIndex == 0 && fresh(entries)
    {
      PurgeWithoutShrink();
      Init();
    }

    // Iteration

    /** What `Next` has still to return. */
    ghost function Pending(): Chain<K, V>
      requires cursorIndex < entries.Length
      reads this, entries
    {
      cursorEntry + Flatten(entries[cursorIndex + 1..])
    }

    method First() returns (entry: Option<Entry<K, V>>)
      requires Valid()
      modifies this`cursorIndex, this`cursorEntry
      ensures Valid() && cursorIndex < entries.Length
      ensures var all := Flatten(entries[..]);
              if all == [] then entry.None? && Pending() == [] else entry == Some(all[0]) && Pending() == all[1..]
    {
      hide Represents, Flatten, Prime;
      cursorIndex := 0;
      cursorEntry := entries[0];
      FlattenFrom(entries[..], 0);
      assert entries[..][0..] == entries[..] && entries[..][1..] == entries[1..];
      entry := Next();
    }

    method Next() returns (entry: Option<Entry<K, V>>)
      requires Valid() && cursorIndex < entries.Length
      modifies this`cursorIndex, this`cursorEntry
      ensures Valid() && cursorIndex < entries.Length
      ensures if old(Pending()) == [] then entry.None? && Pending() == []
              else entry == Some(old(Pending())[0]) && Pending() == old(Pending())[1..]
    {
      hide Represents, Flatten, Prime;
      var limit := Prime(primeIndex);
      while cursorEntry == []
        invariant Valid() && cursorIndex < entries.Length == limit && Pending() == old(Pending())
        decreases limit - cursorIndex
      {
        if cursorIndex < limit - 1 {
          cursorIndex := cursorIndex + 1;
        } else {
          FlattenEnd(entries[cursorIndex + 1..]);
          return None;
        }
        FlattenFrom(entries[..], cursorIndex);
        assert entries[..][cursorIndex..] == entries[cursorIndex..]
            && entries[..][cursorIndex + 1..] == entries[cursorIndex + 1..];
        cursorEntry := entries[cursorIndex];
      }
      entry := Some(cursorEntry[0]);
      cursorEntry := cursorEntry[1..];
    }

    /** On an unchanged table every entry is visited exactly once. */
    method ValueList() returns (list: seq<Entry<K, V>>)
      requires Valid()
      modifies this`cursorIndex, this`cursorEntry
      ensures Valid()
      ensures DistinctKeys(list) && forall k, v :: Entry(k, v) in list <==> k in contents && contents[k] == v
    {
      hide Represents, Flatten, Prime, DistinctKeys;
      list := [];
      ghost var all := Flatten(entries[..]);
      FlattenIsMap(hash, entries[..], contents);
      var entry := First();
      while entry.Some?
        invariant Valid() && cursorIndex < entries.Length && contents == old(contents) && all == Flatten(entries[..])
        invariant entry.None? ==> list == all
        invariant entry.Some? ==> list + [entry.value] + Pending() == all
        decreases |all| - |list|
      {
        list := list + [entry.value];
        ghost var pending := Pending();
        entry := Next();
        if pending == [] { assert list + pending == list; }
      }
    }
  }

  lemma EmptyRepresents<K(!new), V(!new)>(hash: K -> nat, buckets: seq<Chain<K, V>>)
    requires |buckets| > 0 && forall i :: 0 <= i < |buckets| ==> buckets[i] == []
    ensures Represents(hash, buckets, map[])
  {
  }

  lemma HasRoom<K(!new), V(!new)>(hash: K -> nat, buckets: seq<Chain<K, V>>, m: map<K, V>)
    requires Represents(hash, buckets, m)
    ensures |buckets| > 0
  {
  }

  lemma FlattenFrom<T>(buckets: seq<seq<T>>, i: nat)
    requires i < |buckets|
    ensures Flatten(buckets[i..]) == buckets[i] + Flatten(buckets[i + 1..])
  {
  }

  lemma FlattenEnd<T>(buckets: seq<seq<T>>)
    requires |buckets| == 0
    ensures Flatten(buckets) == []
  {
  }

  // Rehashing step by step

  /** The entries of the first `index` buckets and the first `c` of the next are moved. */
  ghost predicate IsMoved<K(!new), V(!new)>(hash: K -> nat, buckets: seq<Chain<K, V>>, m: map<K, V>, moved: map<K, V>,
          index: nat, c: nat) {
    && |buckets| > 0
    && (forall k :: k in moved ==> k in m && moved[k] == m[k])
    && forall i, j :: 0 <= i < |buckets| && 0 <= j < |buckets[i]| ==>
         (buckets[i][j].key in moved <==> i < index || (i == index && j < c))
  }

  lemma NothingMoved<K(!new), V(!new)>(hash: K -> nat, buckets: seq<Chain<K, V>>, m: map<K, V>,
          newBuckets: seq<Chain<K, V>>)
    requires Represents(hash, buckets, m)
    requires |newBuckets| > 0 && forall i :: 0 <= i < |newBuckets| ==> newBuckets[i] == []
    ensures Represents(hash, newBuckets, map[]) && IsMoved(hash, buckets, m, map[], 0, 0)
  {
  }

  lemma MovedNext<K(!new), V(!new)>(hash: K -> nat, buckets: seq<Chain<K, V>>, m: map<K, V>, moved: map<K, V>,
          index: nat, c: nat)
    requires Represents(hash, buckets, m) && IsMoved(hash, buckets, m, moved, index, c)
    requires index < |buckets| && c < |buckets[index]|
    ensures var e := buckets[index][c];
            e.key !in moved && IsMoved(hash, buckets, m, moved[e.key := e.value], index, c + 1)
  {
  }

  lemma MovedChain<K(!new), V(!new)>(hash: K -> nat, buckets: seq<Chain<K, V>>, m: map<K, V>, moved: map<K, V>,
          index: nat)
    requires index < |buckets| && IsMoved(hash, buckets, m, moved, index, |buckets[index]|)
    ensures IsMoved(hash, buckets, m, moved, index + 1, 0)
  {
  }

  lemma MovedAll<K(!new), V(!new)>(hash: K -> nat, buckets: seq<Chain<K, V>>, m: map<K, V>, moved: map<K, V>)
    requires Represents(hash, buckets, m) && IsMoved(hash, buckets, m, moved, |buckets|, 0)
    ensures moved == m
  {
  }
}
