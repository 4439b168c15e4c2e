/**
 The hash table of the JDK, kept for the order it iterates in: it refines a map, it grows by the
 JDK's sizes, and a rehash reverses what it moves.
 */
module JavaHashtable {
  import opened Prelude

  type Key = string

  datatype Entry<V> = Entry(key: Key, value: V)

  // ---- hashing ------------------------------------------------------------

  /** A character as UTF-16 code units. */
  function Units(c: char): seq<nat> {
    var u := c as int;
    if u < 0x1_0000 then [u] else [0xD800 + (u - 0x1_0000) / 0x400, 0xDC00 + (u - 0x1_0000) % 0x400]
  }

  function Encode(s: string): seq<nat> {
    if s == "" then [] else Units(s[0]) + Encode(s[1..])
  }

  /** String.hashCode, with the wrap of 32 bits: h is what the units before gave. */
  function HashUnits(units: seq<nat>, h: nat): (r: nat)
    requires h < 0x1_0000_0000
    ensures r < 0x1_0000_0000
  {
    if units == [] then h else HashUnits(units[1..], (31 * h + units[0]) % 0x1_0000_0000)
  }

  function Hash(s: Key): nat {
    HashUnits(Encode(s), 0)
  }

  function Pow31(n: nat): nat {
    if n == 0 then 1 else 31 * Pow31(n - 1)
  }

  /** The units as the digits of a number to the base 31, the first the highest. */
  function Polynomial(units: seq<nat>): nat {
    if units == [] then 0 else units[0] * Pow31(|units| - 1) + Polynomial(units[1..])
  }

  lemma WrapOnce(a: nat, b: nat, c: nat)
    ensures (a % 0x1_0000_0000 * b + c) % 0x1_0000_0000 == (a * b + c) % 0x1_0000_0000
  {
    var q, r := a / 0x1_0000_0000, a % 0x1_0000_0000;
    Distribute(0x1_0000_0000 * q, r, b);
    Reorder(0x1_0000_0000, q, b);
    Wrapped(q * b, r * b + c);
  }

  lemma Distribute(a: nat, b: nat, c: nat)
    ensures (a + b) * c == a * c + b * c
  {}

  lemma Reorder(a: nat, b: nat, c: nat)
    ensures a * b * c == a * (b * c)
  {}

  lemma Wrapped(k: nat, x: nat)
    ensures (0x1_0000_0000 * k + x) % 0x1_0000_0000 == x % 0x1_0000_0000
  {}

  /** The hash is the polynomial that String.hashCode is defined by, modulo 2 to the 32. */
  lemma {:induction false} HashIsPolynomial(units: seq<nat>, h: nat)
    requires h < 0x1_0000_0000
    ensures HashUnits(units, h) == (h * Pow31(|units|) + Polynomial(units)) % 0x1_0000_0000
    decreases |units|
  {
    if units != [] {
      var rest, p := units[1..], Pow31(|units| - 1);
      HashIsPolynomial(rest, (31 * h + units[0]) % 0x1_0000_0000);
      WrapOnce(31 * h + units[0], p, Polynomial(rest));
      Distribute(31 * h, units[0], p);
      Reorder(h, 31, p);
    }
  }

  /** A code unit, or two that give back the character. */
  lemma UnitsDecode(c: char)
    ensures var us := Units(c);
            if |us| == 1 then us[0] == c as int < 0x1_0000
            else
              && |us| == 2 && 0xD800 <= us[0] < 0xDC00 <= us[1] < 0xE000
              && c as int == 0x1_0000 + (us[0] - 0xD800) * 0x400 + (us[1] - 0xDC00)
  {}

  method ComputeHash(s: Key) returns (h: nat)
    ensures h == Hash(s)
  {
    var units := Encode(s);
    h := 0;
    assert units[0..] == units;
    for i := 0 to |units|
      invariant h < 0x1_0000_0000 && HashUnits(units[i..], h) == Hash(s)
    {
      assert units[i..][1..] == units[i + 1..];
      h := (31 * h + units[i]) % 0x1_0000_0000;
    }
  }

  /** The bucket of a key among n: the hash without its sign bit. */
  function Index(key: Key, n: nat): (i: nat)
    requires n > 0
    ensures i < n
  {
    Hash(key) % 0x8000_0000 % n
  }

  /** The hash as a signed number, and its bucket without the sign bit. */
  lemma IndexDropsSign(key: Key, n: nat)
    requires n > 0
    ensures Index(key, n) == (if Hash(key) < 0x8000_0000 then Hash(key) else Hash(key) - 0x8000_0000) % n
  {
    HashIsPolynomial(Encode(key), 0);
  }

  /** The bucket of each key among n. */
  function Place(n: nat): Key -> nat
    requires n > 0
  {
    key => Index(key, n)
  }

  // ---- the order of iteration ---------------------------------------------

  /** The entries of the first n buckets, buckets from the top down, each from its head. */
  function Entries<V>(buckets: seq<seq<Entry<V>>>, n: nat): seq<Entry<V>>
    requires n <= |buckets|
  {
    if n == 0 then [] else buckets[n - 1] + Entries(buckets, n - 1)
  }

  function Iteration<V>(buckets: seq<seq<Entry<V>>>): seq<Entry<V>> {
    Entries(buckets, |buckets|)
  }

  function Reversed<T>(s: seq<T>): seq<T> {
    if s == [] then [] else Reversed(s[1..]) + [s[0]]
  }

  lemma {:induction false} ReversedAppend<T>(s: seq<T>, x: T)
    ensures Reversed(s + [x]) == [x] + Reversed(s)
  {
    if s == [] {
      assert [x][1..] == [];
    } else {
      ReversedAppend(s[1..], x);
      assert (s + [x])[1..] == s[1..] + [x];
    }
  }

  lemma {:induction false} ReversedAt<T>(s: seq<T>, k: nat)
    requires k < |s|
    ensures |Reversed(s)| == |s| && Reversed(s)[k] == s[|s| - 1 - k]
    decreases |s|
  {
    if |s| > 1 {
      ReversedAt(s[1..], if k < |s| - 1 then k else 0);
    }
  }

  function InBucket<V>(place: Key -> nat, j: nat): Entry<V> -> bool {
    (e: Entry<V>) => place(e.key) == j
  }

  // ---- tables -------------------------------------------------------------

  ghost function Pow2(k: nat): nat {
    if k == 0 then 1 else 2 * Pow2(k - 1)
  }

  ghost predicate DistinctKeys<V>(s: seq<Entry<V>>) {
    forall i, j :: 0 <= i < j < |s| ==> s[i].key != s[j].key
  }

  /** Every entry is in the bucket of its key, and no key is there twice. */
  ghost predicate Sorted<V>(place: Key -> nat, buckets: seq<seq<Entry<V>>>) {
    && (forall i, e :: 0 <= i < |buckets| && e in buckets[i] ==> place(e.key) == i)
    && (forall i :: 0 <= i < |buckets| ==> DistinctKeys(buckets[i]))
  }

  /** The buckets hold the pairs of m. */
  ghost predicate Holds<V>(place: Key -> nat, buckets: seq<seq<Entry<V>>>, m: map<Key, V>) {
    && (forall i, e :: 0 <= i < |buckets| && e in buckets[i] ==> e.key in m && m[e.key] == e.value)
    && (forall key :: key in m ==> place(key) < |buckets| && Entry(key, m[key]) in buckets[place(key)])
  }

  ghost predicate InFirst<V>(buckets: seq<seq<Entry<V>>>, n: nat, e: Entry<V>)
    requires n <= |buckets|
  {
    exists i :: 0 <= i < n && e in buckets[i]
  }

  lemma {:induction false} EntryBucket<V>(buckets: seq<seq<Entry<V>>>, n: nat, e: Entry<V>)
    requires n <= |buckets|
    ensures e in Entries(buckets, n) <==> InFirst(buckets, n, e)
  {
    if n > 0 {
      EntryBucket(buckets, n - 1, e);
    }
  }

  lemma ConcatDistinct<V>(a: seq<Entry<V>>, b: seq<Entry<V>>)
    requires DistinctKeys(a) && DistinctKeys(b)
    requires forall x, y :: x in a && y in b ==> x.key != y.key
    ensures DistinctKeys(a + b)
  {
    var c := a + b;
    forall i, j | 0 <= i < j < |c|
      ensures c[i].key != c[j].key
    {
      if i < |a| <= j {
        assert c[i] in a && c[j] in b;
      }
    }
  }

  lemma {:induction false} EntriesDistinct<V>(place: Key -> nat, buckets: seq<seq<Entry<V>>>, n: nat)
    requires n <= |buckets| && Sorted(place, buckets)
    ensures DistinctKeys(Entries(buckets, n))
  {
    if n > 0 {
      EntriesDistinct(place, buckets, n - 1);
      var rest := Entries(buckets, n - 1);
      forall x, y | x in buckets[n - 1] && y in rest
        ensures x.key != y.key
      {
        EntryBucket(buckets, n - 1, y);
        assert place(x.key) == n - 1 && place(y.key) < n - 1;
      }
      ConcatDistinct(buckets[n - 1], rest);
    }
  }

  lemma InTail<T>(s: seq<T>, y: T)
    requires s != [] && y in s[1..]
    ensures exists k :: 1 <= k < |s| && s[k] == y
  {
    var k :| 0 <= k < |s[1..]| && s[1..][k] == y;
    assert s[k + 1] == y;
  }

  lemma {:induction false} FilterDistinct<V>(s: seq<Entry<V>>, p: Entry<V> -> bool)
    requires DistinctKeys(s)
    ensures DistinctKeys(Filter(s, p))
  {
    if s != [] {
      var t := s[1..];
      FilterDistinct(t, p);
      var rest := Filter(t, p);
      forall y | y in rest
        ensures y.key != s[0].key
      {
        InFilter(t, p, y);
        InTail(s, y);
      }
      ConcatDistinct([s[0]], rest);
    }
  }

  lemma {:induction false} ReversedDistinct<V>(s: seq<Entry<V>>)
    requires DistinctKeys(s)
    ensures DistinctKeys(Reversed(s))
  {
    forall i, j | 0 <= i < j < |Reversed(s)|
      ensures Reversed(s)[i].key != Reversed(s)[j].key
    {
      if s != [] {
        ReversedAt(s, 0);
        ReversedAt(s, i);
        ReversedAt(s, j);
      }
    }
  }

  lemma {:induction false} InReversed<T>(s: seq<T>, x: T)
    ensures x in Reversed(s) <==> x in s
  {
    if s != [] {
      InReversed(s[1..], x);
      assert s == [s[0]] + s[1..];
    }
  }

  /** What a rehash leaves in bucket j: the old order of iteration, of that bucket, reversed. */
  function Moved<V>(place: Key -> nat, entries: seq<Entry<V>>, j: nat): seq<Entry<V>> {
    Reversed(Filter(entries, InBucket(place, j)))
  }

  /** Each bucket has the entries placed there, the last one moved first. */
  ghost predicate MovedInto<V>(place: Key -> nat, entries: seq<Entry<V>>, to: seq<seq<Entry<V>>>) {
    forall j :: 0 <= j < |to| ==> to[j] == Moved(place, entries, j)
  }

  ghost predicate Rehashed<V>(place: Key -> nat, old_: seq<seq<Entry<V>>>, new_: seq<seq<Entry<V>>>) {
    MovedInto(place, Iteration(old_), new_)
  }

  lemma InMoved<V>(place: Key -> nat, entries: seq<Entry<V>>, j: nat, e: Entry<V>)
    ensures e in Moved(place, entries, j) <==> e in entries && place(e.key) == j
  {
    InReversed(Filter(entries, InBucket(place, j)), e);
    InFilter(entries, InBucket(place, j), e);
  }

  /** A rehash moves every entry to its bucket and loses none. */
  lemma RehashKeeps<V>(was: Key -> nat, old_: seq<seq<Entry<V>>>, place: Key -> nat, new_: seq<seq<Entry<V>>>,
                       m: map<Key, V>)
    requires Sorted(was, old_) && Holds(was, old_, m) && Rehashed(place, old_, new_)
    requires forall key :: place(key) < |new_|
    ensures Sorted(place, new_) && Holds(place, new_, m)
  {
    var all := Iteration(old_);
    EntriesDistinct(was, old_, |old_|);
    forall j, e | 0 <= j < |new_|
      ensures e in new_[j] <==> InFirst(old_, |old_|, e) && place(e.key) == j
    {
      InMoved(place, all, j, e);
      EntryBucket(old_, |old_|, e);
    }
    forall j | 0 <= j < |new_|
      ensures DistinctKeys(new_[j])
    {
      FilterDistinct(all, InBucket(place, j));
      ReversedDistinct(Filter(all, InBucket(place, j)));
    }
    forall key | key in m
      ensures Entry(key, m[key]) in new_[place(key)]
    {
      assert Entry(key, m[key]) in old_[was(key)];
    }
  }

  /** The table's whole claim on its buckets: n of them, for the pairs of m. */
  ghost predicate KeptAt<V>(n: nat, buckets: seq<seq<Entry<V>>>, m: map<Key, V>) {
    n == |buckets| > 0 && Sorted(Place(n), buckets) && Holds(Place(n), buckets, m)
  }

  ghost predicate Kept<V>(buckets: seq<seq<Entry<V>>>, m: map<Key, V>) {
    forall n: nat :: n == |buckets| ==> KeptAt(n, buckets, m)
  }

  /** The keys come from the top bucket down. */
  lemma {:induction false} TopDown<V>(place: Key -> nat, buckets: seq<seq<Entry<V>>>, n: nat, i: nat, j: nat)
    requires n <= |buckets| && Sorted(place, buckets) && i < j < |Entries(buckets, n)|
    ensures place(Entries(buckets, n)[i].key) >= place(Entries(buckets, n)[j].key)
  {
    var top, rest := buckets[n - 1], Entries(buckets, n - 1);
    if i >= |top| {
      TopDown(place, buckets, n - 1, i - |top|, j - |top|);
    } else {
      assert top[i] in buckets[n - 1];
      if j < |top| {
        assert top[j] in buckets[n - 1];
      } else {
        assert rest[j - |top|] in rest;
        EntryBucket(buckets, n - 1, rest[j - |top|]);
      }
    }
  }

  /** The bucket of a key decides whether the table has it, and what it maps to. */
  lemma KeptBucket<V>(buckets: seq<seq<Entry<V>>>, m: map<Key, V>, key: Key)
    requires Kept(buckets, m) && |buckets| > 0
    ensures forall k :: 0 <= k < |buckets[Index(key, |buckets|)]| && buckets[Index(key, |buckets|)][k].key == key ==>
                        key in m && m[key] == buckets[Index(key, |buckets|)][k].value
    ensures var bucket := buckets[Index(key, |buckets|)];
            key in m ==> exists k :: 0 <= k < |bucket| && bucket[k].key == key
  {
    assert KeptAt(|buckets|, buckets, m);
    var b := buckets[Index(key, |buckets|)];
    forall k | 0 <= k < |b| && b[k].key == key
      ensures key in m && m[key] == b[k].value
    {
      assert b[k] in b;
    }
  }

  lemma KeptReplaced<V>(buckets: seq<seq<Entry<V>>>, m: map<Key, V>, key: Key, at: nat, value: V)
    requires Kept(buckets, m) && |buckets| > 0 && key in m
    requires at < |buckets[Index(key, |buckets|)]| && buckets[Index(key, |buckets|)][at].key == key
    ensures var i := Index(key, |buckets|);
            Kept(buckets[i := buckets[i][at := Entry(key, value)]], m[key := value])
  {
    assert KeptAt(|buckets|, buckets, m);
    Replaced(Place(|buckets|), buckets, m, key, at, value);
  }

  lemma KeptPushed<V>(buckets: seq<seq<Entry<V>>>, m: map<Key, V>, key: Key, value: V)
    requires Kept(buckets, m) && |buckets| > 0 && key !in m
    ensures var i := Index(key, |buckets|);
            Kept(buckets[i := [Entry(key, value)] + buckets[i]], m[key := value])
  {
    assert KeptAt(|buckets|, buckets, m);
    Added(Place(|buckets|), buckets, m, key, value);
  }

  lemma KeptRehashed<V>(old_: seq<seq<Entry<V>>>, new_: seq<seq<Entry<V>>>, m: map<Key, V>)
    requires Kept(old_, m) && |old_| > 0 && |new_| > 0 && Rehashed(Place(|new_|), old_, new_)
    ensures Kept(new_, m)
  {
    assert KeptAt(|old_|, old_, m);
    RehashKeeps(Place(|old_|), old_, Place(|new_|), new_, m);
  }

  lemma KeptKeys<V>(buckets: seq<seq<Entry<V>>>, m: map<Key, V>, keys: seq<Key>)
    requires Kept(buckets, m) && |buckets| > 0 && KeysOf(keys, Iteration(buckets))
    ensures |keys| == |m| && NoDup(keys) && forall k :: k in keys <==> k in m
  {
    assert KeptAt(|buckets|, buckets, m);
    KeysOfContents(Place(|buckets|), buckets, m, keys);
  }

  ghost predicate KeysOf<V>(keys: seq<Key>, entries: seq<Entry<V>>) {
    |keys| == |entries| && forall k :: 0 <= k < |keys| ==> keys[k] == entries[k].key
  }

  /** The pair stands where its key stood, or at the head of its bucket; nothing else moved. */
  ghost predicate PairPlaced<V>(old_: seq<seq<Entry<V>>>, new_: seq<seq<Entry<V>>>, e: Entry<V>, known: bool)
    requires |old_| > 0
  {
    var i := Index(e.key, |old_|);
    if known then exists at :: 0 <= at < |old_[i]| && old_[i][at].key == e.key && new_ == old_[i := old_[i][at := e]]
    else new_ == old_[i := [e] + old_[i]]
  }

  /** The pair is at the head of its bucket, and behind it every bucket is as the rehash fills it. */
  ghost predicate PairMoved<V>(old_: seq<seq<Entry<V>>>, new_: seq<seq<Entry<V>>>, e: Entry<V>)
    requires |new_| > 0
  {
    forall j :: 0 <= j < |new_| ==>
                  new_[j] == (if Index(e.key, |new_|) == j then [e] else []) + Moved(Place(|new_|), Iteration(old_), j)
  }

  /** The sizes of a table that has grown k times. */
  ghost predicate Sized(k: nat, length: nat, threshold: nat) {
    length == 12 * Pow2(k) - 1 && threshold == 9 * Pow2(k) - 1
  }

  lemma {:induction false} Grown(k: nat, length: nat, threshold: nat)
    requires Sized(k, length, threshold)
    ensures length >= 11 && Sized(k + 1, length * 2 + 1, (length * 2 + 1) * 3 / 4)
    ensures threshold < (length * 2 + 1) * 3 / 4
  {
    if k > 0 {
      var p := Pow2(k - 1);
      Grown(k - 1, 12 * p - 1, 9 * p - 1);
    }
  }

  lemma SizeOfUpdate<V>(m: map<Key, V>, key: Key, value: V)
    ensures |m[key := value]| == if key in m then |m| else |m| + 1
  {
    assert m[key := value].Keys == m.Keys + {key};
    assert |m.Keys| == |m| && |m[key := value].Keys| == |m[key := value]|;
  }

  // ---- the table ----------------------------------------------------------

  class Table<V> {
    var buckets: array<seq<Entry<V>>>
    var count: nat
    var threshold: nat
    ghost var contents: map<Key, V>
    ghost var doublings: nat

    /** The table holds its contents, each key once, and has the size the JDK gives it. */
    ghost predicate Valid()
      reads this, buckets
    {
      && buckets.Length > 0
      && Sized(doublings, buckets.Length, threshold)
      && count == |contents| <= threshold
      && Kept(buckets[..], contents)
    }

    constructor ()
      ensures Valid() && fresh(buckets) && contents == map[] && doublings == 0
      ensures forall i :: 0 <= i < buckets.Length ==> buckets[i] == []
    {
      buckets := new seq<Entry<V>>[11](_ => []);
      count, threshold := 0, 8;
      contents, doublings := map[], 0;
    }

    method Get(key: Key) returns (value: Option<V>)
      requires Valid()
      ensures value == if key in contents then Some(contents[key]) else None
    {
      var b := buckets[Index(key, buckets.Length)];
      KeptBucket(buckets[..], contents, key);
      for i := 0 to |b|
        invariant forall k :: 0 <= k < i ==> b[k].key != key
      {
        if b[i].key == key {
          return Some(b[i].value);
        }
      }
      value := None;
    }

    /** Where the key stands in its bucket. */
    method Find(key: Key) returns (at: Option<nat>)
      requires Valid()
      ensures at.Some? == (key in contents)
      ensures at.Some? ==> var b := buckets[Index(key, buckets.Length)]; at.value < |b| && b[at.value].key == key
    {
      var b := buckets[Index(key, buckets.Length)];
      KeptBucket(buckets[..], contents, key);
      for i := 0 to |b|
        invariant forall k :: 0 <= k < i ==> b[k].key != key
      {
        if b[i].key == key {
          return Some(i);
        }
      }
      at := None;
    }

    /** Adds a pair at the head of its bucket, or replaces the value where the key stands. */
    method Put(key: Key, value: V)
      requires Valid()
      modifies this, buckets
      ensures Valid() && contents == old(contents)[key := value]
      ensures key in old(contents) || old(count < threshold) ==> buckets == old(buckets) && doublings == old(doublings)
      ensures !(key in old(contents) || old(count < threshold)) ==> fresh(buckets) && doublings == old(doublings) + 1
      ensures buckets == old(buckets) ==>
                PairPlaced(old(buckets[..]), buckets[..], Entry(key, value), key in old(contents))
      ensures fresh(buckets) ==> buckets.Length > 0 && PairMoved(old(buckets[..]), buckets[..], Entry(key, value))
    {
      var at := Find(key);
      if at.Some? {
        Replace(key, at.value, value);
      } else {
        if count >= threshold {
          Rehash();
        }
        Push(key, value);
      }
    }

    method Replace(key: Key, at: nat, value: V)
      requires Valid() && key in contents
      requires at < |buckets[Index(key, buckets.Length)]| && buckets[Index(key, buckets.Length)][at].key == key
      modifies this`contents, buckets
      ensures Valid() && contents == old(contents)[key := value]
      ensures buckets[..] == old(buckets[..])[Index(key, buckets.Length) :=
                               old(buckets[Index(key, buckets.Length)])[at := Entry(key, value)]]
    {
      var i := Index(key, buckets.Length);
      ghost var before := buckets[..];
      KeptReplaced(before, contents, key, at, value);
      SizeOfUpdate(contents, key, value);
      buckets[i] := buckets[i][at := Entry(key, value)];
      contents := contents[key := value];
      assert buckets[..] == before[i := before[i][at := Entry(key, value)]];
    }

    method Push(key: Key, value: V)
      requires Valid() && key !in contents && count < threshold
      modifies this`contents, this`count, buckets
      ensures Valid() && contents == old(contents)[key := value]
      ensures buckets[..] == old(buckets[..])[Index(key, buckets.Length) :=
                               [Entry(key, value)] + old(buckets[Index(key, buckets.Length)])]
    {
      var i := Index(key, buckets.Length);
      ghost var before := buckets[..];
      KeptPushed(before, contents, key, value);
      SizeOfUpdate(contents, key, value);
      buckets[i] := [Entry(key, value)] + buckets[i];
      count := count + 1;
      contents := contents[key := value];
      assert buckets[..] == before[i := [Entry(key, value)] + before[i]];
    }

    /** Twice the buckets and one, filled from the old ones in the order of iteration. */
    method Rehash()
      requires Valid()
      modifies this`buckets, this`threshold, this`doublings
      ensures Valid() && fresh(buckets) && doublings == old(doublings) + 1 && count < threshold
      ensures Rehashed(Place(buckets.Length), old(buckets[..]), buckets[..])
    {
      Grown(doublings, buckets.Length, threshold);
      var n := buckets.Length * 2 + 1;
      var now := MoveAll(buckets, n);
      KeptRehashed(buckets[..], now[..], contents);
      buckets := now;
      threshold := n * 3 / 4;
      doublings := doublings + 1;
    }

    /** The keys in the order of iteration. */
    method Keys() returns (out: seq<Key>)
      requires Valid()
      ensures |out| == |contents| && NoDup(out) && forall k :: k in out <==> k in contents
      ensures KeysOf(out, Iteration(buckets[..]))
    {
      out := [];
      ghost var all := buckets[..];
      var i := buckets.Length;
      ghost var done: seq<Entry<V>> := [];
      while i > 0
        invariant 0 <= i <= buckets.Length
        invariant Iteration(all) == done + Entries(all, i)
        invariant KeysOf(out, done)
      {
        i := i - 1;
        var keys := KeysOfBucket(buckets[i]);
        out, done := out + keys, done + buckets[i];
        assert all[i] + Entries(all, i) == Entries(all, i + 1);
      }
      assert done == Iteration(all);
      KeptKeys(all, contents, out);
    }
  }

  method KeysOfBucket<V>(b: seq<Entry<V>>) returns (keys: seq<Key>)
    ensures KeysOf(keys, b)
  {
    keys := [];
    for k := 0 to |b|
      invariant KeysOf(keys, b[..k])
    {
      keys := keys + [b[k].key];
    }
  }

  /** The old buckets' entries, each put at the head of its bucket among n, the old order kept. */
  method MoveAll<V>(from: array<seq<Entry<V>>>, n: nat) returns (to: array<seq<Entry<V>>>)
    requires n > 0
    ensures fresh(to) && to.Length == n && Rehashed(Place(n), from[..], to[..])
  {
    to := new seq<Entry<V>>[n](_ => []);
    ghost var all, done: seq<Entry<V>> := from[..], [];
    var i := from.Length;
    while i > 0
      invariant 0 <= i <= from.Length && all == from[..]
      invariant Iteration(all) == done + Entries(all, i)
      invariant MovedInto(Place(n), done, to[..])
    {
      i := i - 1;
      MoveBucket(from[i], done, to);
      done := done + from[i];
      assert from[i] + Entries(all, i) == Entries(all, i + 1);
    }
    assert done == Iteration(all);
  }

  method MoveBucket<V>(b: seq<Entry<V>>, ghost done: seq<Entry<V>>, to: array<seq<Entry<V>>>)
    requires to.Length > 0 && MovedInto(Place(to.Length), done, to[..])
    modifies to
    ensures MovedInto(Place(to.Length), done + b, to[..])
  {
    ghost var n := to.Length;
    assert done + b[..0] == done;
    for k := 0 to |b|
      invariant MovedInto(Place(n), done + b[..k], to[..])
    {
      var i := Index(b[k].key, to.Length);
      MovedPut(Place(n), done + b[..k], b[k], to[..]);
      assert done + b[..k + 1] == done + b[..k] + [b[k]];
      ghost var was := to[..];
      to[i] := [b[k]] + to[i];
      assert to[..] == was[i := [b[k]] + was[i]];
    }
    assert b[..|b|] == b;
  }

  lemma MovedPut<V>(place: Key -> nat, entries: seq<Entry<V>>, e: Entry<V>, to: seq<seq<Entry<V>>>)
    requires MovedInto(place, entries, to) && place(e.key) < |to|
    ensures var i := place(e.key); MovedInto(place, entries + [e], to[i := [e] + to[i]])
  {
    var i := place(e.key);
    forall j | 0 <= j < |to|
      ensures to[i := [e] + to[i]][j] == Moved(place, entries + [e], j)
    {
      MovedStep(place, entries, e, j);
    }
  }

  lemma MovedStep<V>(place: Key -> nat, entries: seq<Entry<V>>, e: Entry<V>, j: nat)
    ensures Moved(place, entries + [e], j) ==
            if place(e.key) == j then [e] + Moved(place, entries, j) else Moved(place, entries, j)
  {
    FilterStep(entries, e, InBucket(place, j));
    if place(e.key) == j {
      ReversedAppend(Filter(entries, InBucket(place, j)), e);
    }
  }

  lemma ReplacedBucket<V>(b: seq<Entry<V>>, at: nat, value: V)
    requires DistinctKeys(b) && at < |b|
    ensures var c := b[at := Entry(b[at].key, value)];
            && DistinctKeys(c)
            && (forall e :: e in c <==> e == Entry(b[at].key, value) || (e in b && e.key != b[at].key))
  {
    var c := b[at := Entry(b[at].key, value)];
    forall e | e == Entry(b[at].key, value) || (e in b && e.key != b[at].key)
      ensures e in c
    {
      if e == Entry(b[at].key, value) {
        assert c[at] == e;
      } else {
        var k :| 0 <= k < |b| && b[k] == e;
        assert c[k] == e;
      }
    }
  }

  lemma Replaced<V>(place: Key -> nat, buckets: seq<seq<Entry<V>>>, m: map<Key, V>, key: Key, at: nat, value: V)
    requires Sorted(place, buckets) && Holds(place, buckets, m) && key in m
    requires var b := buckets[place(key)]; at < |b| && b[at].key == key
    ensures var now := buckets[place(key) := buckets[place(key)][at := Entry(key, value)]];
            Sorted(place, now) && Holds(place, now, m[key := value])
  {
    ReplacedBucket(buckets[place(key)], at, value);
  }

  lemma Added<V>(place: Key -> nat, buckets: seq<seq<Entry<V>>>, m: map<Key, V>, key: Key, value: V)
    requires Sorted(place, buckets) && Holds(place, buckets, m) && key !in m && place(key) < |buckets|
    ensures var now := buckets[place(key) := [Entry(key, value)] + buckets[place(key)]];
            Sorted(place, now) && Holds(place, now, m[key := value])
  {
    ConcatDistinct([Entry(key, value)], buckets[place(key)]);
  }

  lemma KeysOfContents<V>(place: Key -> nat, buckets: seq<seq<Entry<V>>>, m: map<Key, V>, keys: seq<Key>)
    requires Sorted(place, buckets) && Holds(place, buckets, m) && KeysOf(keys, Iteration(buckets))
    ensures |keys| == |m| && NoDup(keys) && forall k :: k in keys <==> k in m
  {
    var all := Iteration(buckets);
    EntriesDistinct(place, buckets, |buckets|);
    forall key | key in m
      ensures key in keys
    {
      var e := Entry(key, m[key]);
      assert e in buckets[place(key)];
      EntryBucket(buckets, |buckets|, e);
      var k :| 0 <= k < |all| && all[k] == e;
      assert keys[k] == key;
    }
    forall key | key in keys
      ensures key in m
    {
      var k :| 0 <= k < |keys| && keys[k] == key;
      EntryBucket(buckets, |buckets|, all[k]);
    }
    NoDupSize(keys, m.Keys);
  }

  lemma {:induction false} NoDupSize<T>(s: seq<T>, t: set<T>)
    requires NoDup(s) && forall x :: x in s <==> x in t
    ensures |s| == |t|
  {
    if s == [] {
      assert t == {};
    } else {
      assert s == [s[0]] + s[1..];
      NoDupSize(s[1..], t - {s[0]});
    }
  }
}
