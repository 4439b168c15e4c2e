/**
 What the summary and the report of a whole run say of its cases: the category map and the walks over it,
 together.
 */
module SummaryRun {
  import opened Prelude
  import opened SummaryTree
  import opened CategoryMap

  // ---- what a path is hidden by -------------------------------------------

  /** The way to the path passes a directory of cases or the table's own key. */
  function Hidden(n: Node, path: seq<string>): bool
    decreases |path|
  {
    path != [] && (n.bottom.Some? || path[0] == SummaryKey || Hidden(LevelBelow(n, path[0]), path[1..]))
  }

  ghost predicate PassesCases(n: Node, path: seq<string>, m: nat) {
    m < |path| && HasBottom(n, path[..m])
  }

  lemma PassesStep(n: Node, path: seq<string>, m: nat)
    requires path != []
    ensures PassesCases(n, path, m) <==>
            if m == 0 then n.bottom.Some? else PassesCases(LevelBelow(n, path[0]), path[1..], m - 1)
  {
    if 0 < m < |path| {
      assert path[..m][0] == path[0] && path[..m][1..] == path[1..][..m - 1];
    }
  }

  lemma {:induction false} HiddenExactly(n: Node, path: seq<string>)
    ensures Hidden(n, path) <==> SummaryKey in path || exists m: nat :: PassesCases(n, path, m)
    decreases |path|
  {
    if path != [] {
      var below, rest := LevelBelow(n, path[0]), path[1..];
      HiddenExactly(below, rest);
      assert path == [path[0]] + rest;
      forall m: nat
        ensures PassesCases(n, path, m) <==> if m == 0 then n.bottom.Some? else PassesCases(below, rest, m - 1)
      {
        PassesStep(n, path, m);
      }
      if m: nat :| PassesCases(below, rest, m) {
        assert PassesCases(n, path, m + 1);
      }
      assert n.bottom.Some? ==> PassesCases(n, path, 0);
    }
  }

  lemma {:induction false} BelowExactly(children: seq<Child>)
    ensures AllBelow(children) != [] <==> exists child :: child in children && All(child.node) != []
  {
    if children != [] {
      BelowExactly(children[1..]);
      assert children == [children[0]] + children[1..];
    }
  }

  /** Some path leads to cases. */
  ghost predicate HasCases(n: Node) {
    exists path :: HasBottom(n, path)
  }

  ghost predicate HasCasesBelow(n: Node) {
    exists path :: path != [] && HasBottom(n, path)
  }

  /** There are cases at or below a level exactly when some path leads to them. */
  lemma {:induction false} AllExactly(n: Node)
    requires Grown(n)
    ensures All(n) != [] <==> HasCases(n)
    decreases n
  {
    AllBelowExactly(n);
    if n.bottom.Some? {
      assert HasBottom(n, []);
    } else {
      assert !HasBottom(n, []);
      assert [] + AllBelow(n.children) == AllBelow(n.children);
      if path :| HasBottom(n, path) {
        assert path != [];
      }
    }
  }

  lemma {:induction false} AllBelowExactly(n: Node)
    requires Grown(n)
    ensures AllBelow(n.children) != [] <==> HasCasesBelow(n)
    decreases n, 0
  {
    BelowExactly(n.children);
    if child :| child in n.children && All(child.node) != [] {
      AllExactly(child.node);
      var path :| HasBottom(child.node, path);
      LevelIs(n, child);
      PathBelow(n, child.key, path);
      assert HasBottom(n, [child.key] + path);
    }
    if path :| path != [] && HasBottom(n, path) {
      var child := ChildOn(n, path);
      AllExactly(child.node);
      assert HasCases(child.node);
    }
  }

  lemma PathBelow(n: Node, key: string, path: seq<string>)
    ensures HasBottom(n, [key] + path) == HasBottom(LevelBelow(n, key), path)
    ensures n.bottom.None? ==> Hidden(n, [key] + path) == (key == SummaryKey || Hidden(LevelBelow(n, key), path))
  {
    assert ([key] + path)[1..] == path;
  }

  /** The child a path to cases starts with. */
  lemma ChildOn(n: Node, path: seq<string>) returns (child: Child)
    requires path != [] && HasBottom(n, path)
    ensures child in n.children && child.key == path[0]
    ensures LevelBelow(n, path[0]) == child.node && HasBottom(child.node, path[1..])
  {
    BareEmpty(path[1..]);
    var i := FirstIndex(n.children, HasKey(path[0])).value;
    child := n.children[i];
  }

  ghost predicate Clear(n: Node) {
    forall path :: HasBottom(n, path) ==> !Hidden(n, path)
  }

  ghost predicate ClearBelow(child: Child) {
    if child.key == SummaryKey then !HasCases(child.node) else Clear(child.node)
  }

  ghost predicate AllClearBelow(children: seq<Child>) {
    forall i :: 0 <= i < |children| ==> ClearBelow(children[i])
  }

  /** Every case is counted exactly when no path to cases is hidden. */
  lemma {:induction false} CountedExactly(n: Node)
    requires Grown(n)
    ensures Counted(n) <==> Clear(n)
    decreases n
  {
    if n.bottom.Some? {
      AllBelowExactly(n);
      ClearBottom(n);
    } else {
      forall i | 0 <= i < |n.children|
        ensures CountedChild(n.children[i]) <==> ClearBelow(n.children[i])
      {
        ClearExactly(n.children[i]);
      }
      ClearInner(n);
    }
  }

  lemma ClearBottom(n: Node)
    requires n.bottom.Some?
    ensures Clear(n) <==> !HasCasesBelow(n)
  {
    if path :| path != [] && HasBottom(n, path) {
      assert Hidden(n, path);
    }
  }

  lemma {:induction false} ClearExactly(child: Child)
    requires Grown(child.node)
    ensures CountedChild(child) <==> ClearBelow(child)
    decreases child
  {
    if child.key == SummaryKey {
      AllExactly(child.node);
    } else {
      CountedExactly(child.node);
    }
  }

  lemma ClearInner(n: Node)
    requires n.bottom.None? && Keyed(n)
    ensures Clear(n) <==> AllClearBelow(n.children)
  {
    if AllClearBelow(n.children) {
      forall path | HasBottom(n, path)
        ensures !Hidden(n, path)
      {
        if path != [] {
          var child := ChildOn(n, path);
          var i :| 0 <= i < |n.children| && n.children[i] == child;
          assert ClearBelow(n.children[i]) && HasCases(child.node);
        }
      }
    }
    if Clear(n) {
      forall i | 0 <= i < |n.children|
        ensures ClearBelow(n.children[i])
      {
        ClearIn(n, n.children[i]);
      }
    }
  }

  lemma ClearIn(n: Node, child: Child)
    requires Keyed(n) && n.bottom.None? && child in n.children && Clear(n)
    ensures ClearBelow(child)
  {
    LevelIs(n, child);
    forall path | HasBottom(child.node, path)
      ensures child.key != SummaryKey && !Hidden(child.node, path)
    {
      PathBelow(n, child.key, path);
      assert HasBottom(n, [child.key] + path);
    }
  }

  // ---- what depends on the cases alone ------------------------------------

  lemma {:induction false} FilterCounts<T>(s: seq<T>, p: T -> bool, x: T)
    ensures multiset(Filter(s, p))[x] == if p(x) then multiset(s)[x] else 0
  {
    if s != [] {
      FilterCounts(s[1..], p, x);
      assert s == [s[0]] + s[1..];
    }
  }

  /** Tallies do not depend on the order of the cases. */
  lemma {:induction false} TallyPermutes(a: seq<Case>, b: seq<Case>)
    requires multiset(a) == multiset(b)
    ensures TallyOf(a) == TallyOf(b)
    decreases |a|
  {
    assert |a| == |multiset(a)| == |multiset(b)| == |b|;
    if a != [] {
      var k := PlaceOf(b, a[0]);
      TakenOut(a, 0);
      TakenOut(b, k);
      TallyPermutes(Remove(a, 0), Remove(b, k));
      TallyWithout(a, 0);
      TallyWithout(b, k);
    }
  }

  lemma TallyWithout(s: seq<Case>, k: nat)
    requires k < |s|
    ensures TallyOf(s) == Plus(One(s[k]), TallyOf(Remove(s, k)))
  {
    Apart(s, k);
    TallyMiddle(s[..k], s[k], s[k + 1..]);
  }

  lemma Apart<T>(s: seq<T>, k: nat)
    requires k < |s|
    ensures s == s[..k] + ([s[k]] + s[k + 1..])
  {}

  lemma TallyMiddle(a: seq<Case>, c: Case, b: seq<Case>)
    ensures TallyOf(a + ([c] + b)) == Plus(One(c), TallyOf(a + b))
  {
    TallyAppend(a, [c] + b);
    TallyAppend(a, b);
    TallyFirst(c, b);
    PlusMiddle(TallyOf(a), One(c), TallyOf(b));
  }

  lemma TallyFirst(c: Case, b: seq<Case>)
    ensures TallyOf([c] + b) == Plus(One(c), TallyOf(b))
  {
    assert ([c] + b)[1..] == b;
  }

  lemma PlusMiddle(a: Tally, c: Tally, b: Tally)
    ensures Plus(a, Plus(c, b)) == Plus(c, Plus(a, b))
  {}

  lemma {:induction false} KeptDistinct(entries: seq<Entry>, n: nat)
    requires n <= |entries|
    ensures NoDup(Kept(entries, n)) && forall c :: c in Kept(entries, n) ==> Earlier(entries, n, c.file)
    ensures n > 0 ==> Kept(entries, n) != []
  {
    if n > 0 {
      KeptDistinct(entries, n - 1);
      if Repeated(entries, n - 1) {
        assert n > 1;
      } else {
        AppendMembers(Kept(entries, n - 1), entries[n - 1].c);
      }
    }
  }

  // ---- the run ------------------------------------------------------------

  /** No kept case's path names the table's own key, or goes on below another's. */
  ghost predicate InSight(entries: seq<Entry>) {
    forall path :: PathOf(entries, |entries|, path) ==> !OutOfSight(entries, path)
  }

  ghost predicate OutOfSight(entries: seq<Entry>, path: seq<string>) {
    SummaryKey in path || exists m :: 0 <= m < |path| && PathOf(entries, |entries|, path[..m])
  }

  ghost predicate SamePaths(cat: Node, entries: seq<Entry>) {
    forall path :: HasBottom(cat, path) <==> PathOf(entries, |entries|, path)
  }

  lemma HiddenIsOut(cat: Node, entries: seq<Entry>, path: seq<string>)
    requires SamePaths(cat, entries)
    ensures Hidden(cat, path) <==> OutOfSight(entries, path)
  {
    HiddenExactly(cat, path);
    if m: nat :| PassesCases(cat, path, m) {
      assert PathOf(entries, |entries|, path[..m]);
    }
    if m :| 0 <= m < |path| && PathOf(entries, |entries|, path[..m]) {
      assert PassesCases(cat, path, m);
    }
  }

  lemma ClearInSight(cat: Node, entries: seq<Entry>)
    requires SamePaths(cat, entries)
    ensures Clear(cat) <==> InSight(entries)
  {
    forall path
      ensures Hidden(cat, path) <==> OutOfSight(entries, path)
    {
      HiddenIsOut(cat, entries, path);
    }
  }

  ghost predicate ReportsOnce(reported: seq<Case>, cases: seq<Case>) {
    forall c :: multiset(reported)[c] == if c in cases && c.ran then 1 else 0
  }

  lemma ReportedKept(reported: seq<Case>, cases: seq<Case>, kept: seq<Case>)
    requires multiset(reported) == multiset(Filter(cases, HasRun())) && multiset(cases) == multiset(kept) && NoDup(kept)
    ensures ReportsOnce(reported, kept)
  {
    forall c
      ensures multiset(reported)[c] == if c in kept && c.ran then 1 else 0
    {
      FilterCounts(cases, HasRun(), c);
      CountOfDistinct(kept, c);
    }
  }

  /**
   The summary of a run: its directory, its own sums and its report always; the numbers of the cases of
   the run, and a report with each that ran once, exactly when no case is out of sight.
   */
  lemma RunSummary(tables: Tables, testID: string, cat: Node, base: seq<string>, entries: seq<Entry>)
    requires entries != [] && MapOf(cat, base, entries, |entries|) && Known(testID, base)
    ensures SummaryOf(tables, testID, cat, []).Some?
    ensures var s, kept := SummaryOf(tables, testID, cat, []).value, Kept(entries, |entries|);
            && s.resultDir == Slashed(base) && Numbers(s.tally, s.cases)
            && multiset(Reported(s)) == multiset(Filter(s.cases, HasRun()))
            && s.tally.success + s.tally.fail == |Reported(s)|
            && (InSight(entries) ==>
                  && multiset(s.cases) == multiset(kept) && Numbers(s.tally, kept)
                  && ReportsOnce(Reported(s), kept))
            && (!InSight(entries) ==> s.tally.total < |kept|)
  {
    var kept := Kept(entries, |entries|);
    KeptDistinct(entries, |entries|);
    NotBare(cat, kept);
    TruePaths(tables, testID, cat, base, []);
    var s := Reference(tables, cat, base);
    SummaryCounts(tables, cat, base);
    ReportComplete(tables, cat, base);
    ArrangedMembers(Reported(s), Filter(s.cases, HasRun()));
    AllCounted(tables, cat, base);
    CountedExactly(cat);
    assert SamePaths(cat, entries);
    ClearInSight(cat, entries);
    assert |multiset(All(cat))| == |multiset(kept)|;
    TallyCounts(s.cases);
    if InSight(entries) {
      TallyPermutes(s.cases, kept);
      TallyNumbers(kept);
      ReportedKept(Reported(s), s.cases, kept);
    }
  }

  lemma NotBare(cat: Node, kept: seq<Case>)
    requires CasesOf(cat) == multiset(kept) && kept != []
    ensures cat != Bare
  {
    assert kept[0] in multiset(kept);
    NoCases();
  }
}
