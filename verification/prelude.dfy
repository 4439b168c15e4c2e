/** Small sequence facts shared by the other modules. */
module Prelude {

  datatype Option<+T> = None | Some(value: T)

  ghost predicate NoDup<T>(s: seq<T>) {
    forall i, j :: 0 <= i < j < |s| ==> s[i] != s[j]
  }

  function Remove<T>(s: seq<T>, i: nat): (r: seq<T>)
    requires i < |s|
    ensures |r| == |s| - 1
  {
    s[..i] + s[i + 1..]
  }

  lemma RemoveMembers<T>(s: seq<T>, i: nat)
    requires i < |s| && NoDup(s)
    ensures NoDup(Remove(s, i))
    ensures forall x :: x in Remove(s, i) <==> x in s && x != s[i]
  {
    var r := Remove(s, i);
    forall x | x in s && x != s[i]
      ensures x in r
    {
      var k :| 0 <= k < |s| && s[k] == x;
      assert r[if k < i then k else k - 1] == x;
    }
  }

  lemma AppendMembers<T>(s: seq<T>, x: T)
    requires NoDup(s) && x !in s
    ensures NoDup(s + [x])
    ensures forall y :: y in s + [x] <==> y in s || y == x
  {}

  lemma SubEmpty<T>(a: seq<T>, b: seq<T>)
    requires forall x :: x in a ==> x in b
    ensures b == [] ==> a == []
  {
    if a != [] {
      assert a[0] in b;
    }
  }

  // ---- arrangements -------------------------------------------------------

  /** What a table whose order is unknown makes of s: any arrangement of it. */
  function Arranged<T(==)>(a: seq<T>, s: seq<T>): (r: seq<T>)
    ensures multiset(r) == multiset(s)
  {
    if multiset(a) == multiset(s) then a else s
  }

  lemma ArrangedMembers<T>(a: seq<T>, s: seq<T>)
    requires multiset(a) == multiset(s)
    ensures |a| == |s| && forall x :: x in a <==> x in s
  {
    assert |multiset(a)| == |multiset(s)|;
    forall x
      ensures x in a <==> x in s
    {
      assert x in multiset(a) <==> x in multiset(s);
    }
  }

  lemma {:induction false} CountOfDistinct<T>(s: seq<T>, x: T)
    requires NoDup(s)
    ensures multiset(s)[x] == if x in s then 1 else 0
    decreases |s|
  {
    if s != [] {
      assert s == [s[0]] + s[1..];
      CountOfDistinct(s[1..], x);
    }
  }

  lemma CountedTwice<T>(s: seq<T>, i: nat, j: nat)
    requires i < j < |s| && s[i] == s[j]
    ensures multiset(s)[s[i]] > 1
  {
    assert s == s[..j] + [s[j]] + s[j + 1..];
    assert s[..j][i] == s[i] && s[i] in multiset(s[..j]);
  }

  lemma ArrangedNoDup<T>(a: seq<T>, s: seq<T>)
    requires multiset(a) == multiset(s) && NoDup(s)
    ensures NoDup(a)
  {
    forall i, j | 0 <= i < j < |a|
      ensures a[i] != a[j]
    {
      if a[i] == a[j] {
        CountedTwice(a, i, j);
        CountOfDistinct(s, a[i]);
        assert false;
      }
    }
  }

  lemma PlaceOf<T>(s: seq<T>, x: T) returns (k: nat)
    requires x in multiset(s)
    ensures k < |s| && s[k] == x
  {
    k :| k < |s| && s[k] == x;
  }

  lemma TakenOut<T>(s: seq<T>, k: nat)
    requires k < |s|
    ensures multiset(Remove(s, k)) == multiset(s) - multiset{s[k]}
  {
    assert s == s[..k] + [s[k]] + s[k + 1..];
  }

  function Flat<T, U>(s: seq<T>, f: T -> seq<U>): seq<U> {
    if s == [] then [] else f(s[0]) + Flat(s[1..], f)
  }

  lemma {:induction false} FlatAppend<T, U>(a: seq<T>, b: seq<T>, f: T -> seq<U>)
    ensures Flat(a + b, f) == Flat(a, f) + Flat(b, f)
    decreases |a|
  {
    if a == [] {
      assert a + b == b;
    } else {
      assert (a + b)[1..] == a[1..] + b;
      FlatAppend(a[1..], b, f);
    }
  }

  lemma FlatRemove<T, U>(s: seq<T>, k: nat, f: T -> seq<U>)
    requires k < |s|
    ensures multiset(Flat(s, f)) == multiset(f(s[k])) + multiset(Flat(Remove(s, k), f))
  {
    assert s == s[..k] + s[k..] && s[k..][1..] == s[k + 1..];
    FlatAppend(s[..k], s[k..], f);
    FlatAppend(s[..k], s[k + 1..], f);
  }

  /** Whatever the order, the same is gathered. */
  lemma {:induction false} FlatPermutes<T, U>(a: seq<T>, b: seq<T>, f: T -> seq<U>)
    requires multiset(a) == multiset(b)
    ensures multiset(Flat(a, f)) == multiset(Flat(b, f))
    decreases |a|
  {
    ArrangedMembers(a, b);
    if a != [] {
      var k := PlaceOf(b, a[0]);
      TakenOut(a, 0);
      TakenOut(b, k);
      FlatPermutes(Remove(a, 0), Remove(b, k), f);
      FlatRemove(a, 0, f);
      FlatRemove(b, k, f);
    } else {
      assert b == [];
    }
  }

  // ---- searching and filtering --------------------------------------------

  /** The position of the first element that satisfies p. */
  function FirstIndex<T>(s: seq<T>, p: T -> bool): (r: Option<nat>)
    ensures r.Some? ==> r.value < |s| && p(s[r.value]) && forall k :: 0 <= k < r.value ==> !p(s[k])
    ensures r.None? ==> forall k :: 0 <= k < |s| ==> !p(s[k])
  {
    if s == [] then None
    else if p(s[0]) then Some(0)
    else
      match FirstIndex(s[1..], p)
      case None => None
      case Some(k) => Some(k + 1)
  }

  lemma FirstIndexIs<T>(s: seq<T>, p: T -> bool, i: nat)
    requires i < |s| && p(s[i]) && forall k :: 0 <= k < i ==> !p(s[k])
    ensures FirstIndex(s, p) == Some(i)
  {
    assert FirstIndex(s, p).Some?;
  }

  lemma NoneFound<T>(s: seq<T>, p: T -> bool)
    requires forall x :: x in s ==> !p(x)
    ensures FirstIndex(s, p) == None
  {
    assert forall k :: 0 <= k < |s| ==> s[k] in s;
  }

  /** The elements that satisfy p, in order. */
  function Filter<T>(s: seq<T>, p: T -> bool): seq<T> {
    if s == [] then []
    else if p(s[0]) then [s[0]] + Filter(s[1..], p)
    else Filter(s[1..], p)
  }

  lemma {:induction false} FilterAppend<T>(s: seq<T>, t: seq<T>, p: T -> bool)
    ensures Filter(s + t, p) == Filter(s, p) + Filter(t, p)
  {
    if s == [] {
      assert s + t == t;
    } else {
      FilterAppend(s[1..], t, p);
      assert (s + t)[1..] == s[1..] + t;
    }
  }

  lemma FilterStep<T>(s: seq<T>, x: T, p: T -> bool)
    ensures Filter(s + [x], p) == if p(x) then Filter(s, p) + [x] else Filter(s, p)
  {
    FilterAppend(s, [x], p);
    assert [x][1..] == [];
  }

  lemma {:induction false} InFilter<T>(s: seq<T>, p: T -> bool, x: T)
    ensures x in Filter(s, p) <==> x in s && p(x)
  {
    if s != [] {
      InFilter(s[1..], p, x);
      assert s == [s[0]] + s[1..];
    }
  }

  lemma {:induction false} FilterMembers<T>(s: seq<T>, p: T -> bool)
    ensures forall x :: x in Filter(s, p) <==> x in s && p(x)
  {
    if s != [] {
      FilterMembers(s[1..], p);
      assert s == [s[0]] + s[1..];
    }
  }

  /** Behind the first element that satisfies p come the others that do; the rest do not. */
  lemma FilterAfterFirst<T>(s: seq<T>, i: nat, p: T -> bool, np: T -> bool)
    requires NoDup(s) && i < |s| && p(s[i]) && forall k :: 0 <= k < i ==> !p(s[k])
    requires forall k :: 0 <= k < |s| ==> np(s[k]) == !p(s[k])
    ensures forall x :: x in Filter(s[i + 1..], p) <==> x in s && x != s[i] && p(x)
    ensures forall x :: x in Filter(s, np) <==> x in s && x != s[i] && x !in Filter(s[i + 1..], p)
  {
    var tail := s[i + 1..];
    FilterMembers(s, np);
    FilterMembers(tail, p);
    forall x | x in s && x != s[i] && p(x)
      ensures x in tail
    {
      var k :| 0 <= k < |s| && s[k] == x;
      assert tail[k - i - 1] == x;
    }
    forall x | x in tail
      ensures x in s && x != s[i]
    {
      var k :| 0 <= k < |tail| && tail[k] == x;
      assert s[i + 1 + k] == x;
    }
  }

  /** The elements whose mark is not set, in order. */
  ghost function Unmarked<T>(s: seq<T>, marks: seq<bool>): seq<T>
    requires |s| == |marks|
  {
    if s == [] then []
    else if marks[0] then Unmarked(s[1..], marks[1..])
    else [s[0]] + Unmarked(s[1..], marks[1..])
  }

  lemma {:induction false} UnmarkedSplit<T>(s: seq<T>, marks: seq<bool>, i: nat)
    requires |s| == |marks| && i <= |s|
    ensures Unmarked(s, marks) == Unmarked(s[..i], marks[..i]) + Unmarked(s[i..], marks[i..])
  {
    if i == 0 {
      assert s[0..] == s && marks[0..] == marks;
    } else {
      UnmarkedSplit(s[1..], marks[1..], i - 1);
      assert s[1..][..i - 1] == s[..i][1..] && marks[1..][..i - 1] == marks[..i][1..];
      assert s[1..][i - 1..] == s[i..] && marks[1..][i - 1..] == marks[i..];
    }
  }

  lemma {:induction false} UnmarkedExtremes<T>(s: seq<T>, marks: seq<bool>)
    requires |s| == |marks|
    ensures (forall k :: 0 <= k < |marks| ==> !marks[k]) ==> Unmarked(s, marks) == s
    ensures Unmarked(s, marks) == [] <==> forall k :: 0 <= k < |marks| ==> marks[k]
  {
    if s != [] {
      UnmarkedExtremes(s[1..], marks[1..]);
      assert (forall k :: 0 <= k < |marks| ==> marks[k]) <==>
             marks[0] && forall k :: 0 <= k < |marks[1..]| ==> marks[1..][k];
    }
  }

  /** Setting the mark of everything p refuses filters what was unmarked. */
  lemma {:induction false} UnmarkedFilter<T>(s: seq<T>, before: seq<bool>, after: seq<bool>, p: T -> bool)
    requires |s| == |before| == |after|
    requires forall k :: 0 <= k < |s| ==> after[k] == (before[k] || !p(s[k]))
    ensures Unmarked(s, after) == Filter(Unmarked(s, before), p)
  {
    if s != [] {
      UnmarkedFilter(s[1..], before[1..], after[1..], p);
    }
  }

  lemma {:induction false} NoneWanted<T>(s: seq<T>, marks: seq<bool>, p: T -> bool)
    requires |s| == |marks|
    requires forall k :: 0 <= k < |s| ==> marks[k] || !p(s[k])
    ensures forall x :: x in Unmarked(s, marks) ==> !p(x)
  {
    if s != [] {
      assert forall k :: 0 <= k < |s[1..]| ==> marks[1..][k] || !p(s[1..][k]);
      NoneWanted(s[1..], marks[1..], p);
    }
  }

  /** A scan that stopped at i has found the first wanted element of those unmarked. */
  lemma FirstWanted<T>(s: seq<T>, marks: seq<bool>, i: nat, p: T -> bool) returns (at: nat)
    requires |s| == |marks| && i < |s|
    requires !marks[i] && p(s[i])
    requires forall k :: 0 <= k < i ==> marks[k] || !p(s[k])
    ensures FirstIndex(Unmarked(s, marks), p) == Some(at)
    ensures at < |Unmarked(s, marks)| && Unmarked(s, marks)[at] == s[i]
    ensures Unmarked(s, marks)[at + 1..] == Unmarked(s[i + 1..], marks[i + 1..])
  {
    UnmarkedSplit(s, marks, i);
    NoneWanted(s[..i], marks[..i], p);
    var pre := Unmarked(s[..i], marks[..i]);
    var rest := Unmarked(s[i + 1..], marks[i + 1..]);
    assert s[i..][1..] == s[i + 1..] && marks[i..][1..] == marks[i + 1..];
    assert Unmarked(s[i..], marks[i..]) == [s[i]] + rest;
    at := |pre|;
    var all := Unmarked(s, marks);
    assert all == pre + [s[i]] + rest;
    forall k | 0 <= k < at ensures !p(all[k]) {
      assert all[k] == pre[k] && pre[k] in pre;
    }
    assert p(all[at]);
  }

  lemma UnmarkedStep<T>(s: seq<T>, marks: seq<bool>, lo: nat, j: nat, p: T -> bool)
    requires |s| == |marks| && lo <= j < |s|
    ensures Filter(Unmarked(s[lo..j + 1], marks[lo..j + 1]), p) ==
            Filter(Unmarked(s[lo..j], marks[lo..j]), p) + (if !marks[j] && p(s[j]) then [s[j]] else [])
  {
    var cs, ts := s[lo..j + 1], marks[lo..j + 1];
    UnmarkedSplit(cs, ts, j - lo);
    assert cs[..j - lo] == s[lo..j];
    assert ts[..j - lo] == marks[lo..j];
    var last := Unmarked(cs[j - lo..], ts[j - lo..]);
    assert cs[j - lo..] == [s[j]] && ts[j - lo..] == [marks[j]];
    assert last == if marks[j] then [] else [s[j]];
    FilterAppend(Unmarked(s[lo..j], marks[lo..j]), last, p);
  }
}
