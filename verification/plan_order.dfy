/** The order in which a run hands out its cases. */
module PlanOrder {

  // ---- names --------------------------------------------------------------

  /** The order of strings: the first difference decides, and a prefix comes first. */
  predicate Before(a: string, b: string)
    decreases |a|
  {
    b != "" && (a == "" || a[0] < b[0] || (a[0] == b[0] && Before(a[1..], b[1..])))
  }

  lemma {:induction false} BeforeTotal(a: string, b: string)
    ensures (Before(a, b) || Before(b, a)) <==> a != b
    ensures !(Before(a, b) && Before(b, a))
    decreases |a|
  {
    if a != "" && b != "" {
      BeforeTotal(a[1..], b[1..]);
      assert a == [a[0]] + a[1..] && b == [b[0]] + b[1..];
    }
  }

  lemma {:induction false} BeforeTransitive(a: string, b: string, c: string)
    requires Before(a, b) && Before(b, c)
    ensures Before(a, c)
    decreases |a|
  {
    if a != "" && a[0] == b[0] && b[0] == c[0] {
      BeforeTransitive(a[1..], b[1..], c[1..]);
    }
  }

  /** The strings are the same up to k, where one ends or has the smaller character. */
  ghost predicate FirstDifference(a: string, b: string, k: nat) {
    k <= |a| && k < |b| && a[..k] == b[..k] && (k < |a| ==> a[k] < b[k])
  }

  lemma {:induction false} BeforeExactly(a: string, b: string)
    ensures Before(a, b) <==> exists k: nat :: FirstDifference(a, b, k)
    decreases |a|
  {
    if Before(a, b) {
      if a != "" && a[0] == b[0] {
        BeforeExactly(a[1..], b[1..]);
        var k: nat :| FirstDifference(a[1..], b[1..], k);
        assert a[..k + 1] == [a[0]] + a[1..][..k] && b[..k + 1] == [b[0]] + b[1..][..k];
        assert FirstDifference(a, b, k + 1);
      } else {
        assert FirstDifference(a, b, 0);
      }
    }
    if k: nat :| FirstDifference(a, b, k) {
      if k > 0 {
        assert a[0] == a[..k][0] && b[0] == b[..k][0];
        assert a[1..][..k - 1] == a[..k][1..] && b[1..][..k - 1] == b[..k][1..];
        assert FirstDifference(a[1..], b[1..], k - 1);
        BeforeExactly(a[1..], b[1..]);
      }
    }
  }

  // ---- the order ----------------------------------------------------------

  /** What an earlier run measured, in nanoseconds. */
  type Durations = map<string, int>

  /** Unmeasured cases first, then the longer, then by name. */
  predicate Sooner(known: Durations, a: string, b: string) {
    if a !in known && b !in known then Before(a, b)
    else if a !in known then true
    else if b !in known then false
    else if known[a] != known[b] then known[a] > known[b]
    else Before(a, b)
  }

  lemma SoonerTotal(known: Durations, a: string, b: string)
    ensures (Sooner(known, a, b) || Sooner(known, b, a)) <==> a != b
    ensures !(Sooner(known, a, b) && Sooner(known, b, a))
  {
    BeforeTotal(a, b);
  }

  lemma SoonerTransitive(known: Durations, a: string, b: string, c: string)
    requires Sooner(known, a, b) && Sooner(known, b, c)
    ensures Sooner(known, a, c)
  {
    if Before(a, b) && Before(b, c) {
      BeforeTransitive(a, b, c);
    }
  }

  ghost predicate Ordered(known: Durations, s: seq<string>) {
    forall i, j :: 0 <= i < j < |s| ==> !Sooner(known, s[j], s[i])
  }

  /** The cases in the order of a plan; without one, as they came. */
  method Order(cases: seq<string>, known: Durations) returns (out: array<string>)
    ensures fresh(out) && multiset(out[..]) == multiset(cases)
    ensures if |known| == 0 then out[..] == cases else Ordered(known, out[..])
  {
    out := new string[|cases|](i requires 0 <= i < |cases| => cases[i]);
    assert out[..] == cases;
    if |known| == 0 {
      return;
    }
    for i := 0 to out.Length
      invariant multiset(out[..]) == multiset(cases)
      invariant Ordered(known, out[..i])
    {
      Sink(out, i, known);
    }
    assert out[..out.Length] == out[..];
  }

  lemma LaterTransitive(known: Durations, a: string, b: string, c: string)
    requires !Sooner(known, b, a) && !Sooner(known, c, b)
    ensures !Sooner(known, c, a)
  {
    SoonerTotal(known, a, b);
    SoonerTotal(known, b, c);
    SoonerTotal(known, a, c);
    if a != b && b != c {
      SoonerTransitive(known, a, b, c);
    }
  }

  /** All of s is in order but for the one at j. */
  ghost predicate OrderedBut(known: Durations, s: seq<string>, j: nat) {
    forall p, q :: 0 <= p < q < |s| && q != j ==> !Sooner(known, s[q], s[p])
  }

  lemma Settled(known: Durations, s: seq<string>, j: nat)
    requires j < |s| && OrderedBut(known, s, j) && (j > 0 ==> !Sooner(known, s[j], s[j - 1]))
    ensures Ordered(known, s)
  {
    forall p | 0 <= p < j
      ensures !Sooner(known, s[j], s[p])
    {
      if p < j - 1 {
        LaterTransitive(known, s[p], s[j - 1], s[j]);
      }
    }
  }

  lemma Sunk(known: Durations, s: seq<string>, j: nat)
    requires 0 < j < |s| && OrderedBut(known, s, j) && Sooner(known, s[j], s[j - 1])
    ensures OrderedBut(known, s[j := s[j - 1]][j - 1 := s[j]], j - 1)
  {
    SoonerTotal(known, s[j], s[j - 1]);
  }

  method Sink(a: array<string>, i: nat, known: Durations)
    requires i < a.Length && Ordered(known, a[..i])
    modifies a
    ensures multiset(a[..]) == multiset(old(a[..])) && Ordered(known, a[..i + 1])
  {
    var j := i;
    assert forall k :: 0 <= k < i ==> a[..i + 1][k] == a[..i][k];
    while j > 0 && Sooner(known, a[j], a[j - 1])
      invariant 0 <= j <= i
      invariant multiset(a[..]) == multiset(old(a[..]))
      invariant OrderedBut(known, a[..i + 1], j)
    {
      ghost var s := a[..i + 1];
      Sunk(known, s, j);
      a[j], a[j - 1] := a[j - 1], a[j];
      assert a[..i + 1] == s[j := s[j - 1]][j - 1 := s[j]];
      j := j - 1;
    }
    Settled(known, a[..i + 1], j);
  }

  lemma InMultiset<T>(s: seq<T>, x: T)
    ensures x in multiset(s) <==> x in s
  {}

  lemma MultisetTail<T>(s: seq<T>)
    requires s != []
    ensures multiset(s[1..]) == multiset(s) - multiset{s[0]}
  {
    assert s == [s[0]] + s[1..];
  }

  /** The order of a plan is the same whatever order the cases came in. */
  lemma {:induction false} OrderDetermined(known: Durations, a: seq<string>, b: seq<string>)
    requires Ordered(known, a) && Ordered(known, b) && multiset(a) == multiset(b)
    ensures a == b
    decreases |a|
  {
    assert |multiset(a)| == |a| && |multiset(b)| == |b|;
    if a != [] {
      InMultiset(a, a[0]);
      InMultiset(b, a[0]);
      InMultiset(b, b[0]);
      InMultiset(a, b[0]);
      assert a[0] in a && b[0] in b;
      SoonerTotal(known, a[0], b[0]);
      MultisetTail(a);
      MultisetTail(b);
      OrderDetermined(known, a[1..], b[1..]);
      assert a == [a[0]] + a[1..] && b == [b[0]] + b[1..];
    }
  }

  /** In the order of a plan no measured case precedes one that is not, nor a shorter one a longer. */
  lemma LongestFirst(known: Durations, s: seq<string>, i: nat, j: nat)
    requires Ordered(known, s) && i < j < |s|
    ensures s[j] !in known ==> s[i] !in known
    ensures s[i] in known && s[j] in known ==> known[s[i]] >= known[s[j]]
    ensures s[i] !in known && s[j] !in known ==> !Before(s[j], s[i])
    ensures s[i] in known && s[j] in known && known[s[i]] == known[s[j]] ==> !Before(s[j], s[i])
  {
    assert !Sooner(known, s[j], s[i]);
  }
}
