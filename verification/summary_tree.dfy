/**
 The summary tree of a run: built from the category map by one walk that keeps a single path for all
 of its levels, and walked again for the report.
 */
module SummaryTree {
  import opened Prelude

  datatype Case = Case(file: string, ran: bool, ok: bool, ms: int)

  datatype Bottom = Bottom(resultDir: string, cases: seq<Case>)

  /** One level of the category map: the cases of a directory, and the levels below it in the order of iteration. */
  datatype Node = Node(bottom: Option<Bottom>, children: seq<Child>)

  datatype Child = Child(key: string, node: Node)

  const SummaryKey := "Summary"

  // ---- paths --------------------------------------------------------------

  function DropLast<T>(s: seq<T>): seq<T> {
    if s == [] then [] else s[..|s| - 1]
  }

  function Slashed(at: seq<string>): string {
    if at == [] then "" else Slashed(at[..|at| - 1]) + "/" + at[|at| - 1]
  }

  function Dir(at: seq<string>): string {
    if at == [] then "/" else Slashed(at)
  }

  /** The parts of s between slashes that are not empty, word being what was read of the first. */
  function Parts(s: string, word: string): seq<string> {
    if s == "" then if word == "" then [] else [word]
    else if s[0] == '/' then (if word == "" then [] else [word]) + Parts(s[1..], "")
    else Parts(s[1..], word + [s[0]])
  }

  function Tokens(s: string): seq<string> {
    Parts(s, "")
  }

  predicate Proper(key: string) {
    key != "" && '/' !in key
  }

  predicate OccursAt(s: string, part: string, i: nat) {
    i + |part| <= |s| && s[i..i + |part|] == part
  }

  predicate Contains(s: string, part: string) {
    exists i: nat :: i <= |s| && OccursAt(s, part, i)
  }

  lemma {:induction false} PartsOfWord(s: string, word: string)
    requires '/' !in s
    ensures Parts(s, word) == if word + s == "" then [] else [word + s]
  {
    if s != "" {
      PartsOfWord(s[1..], word + [s[0]]);
      assert word + [s[0]] + s[1..] == word + s;
    } else {
      assert word + s == word;
    }
  }

  lemma {:induction false} PartsOfMore(s: string, key: string, word: string)
    requires Proper(key)
    ensures Parts(s + "/" + key, word) == Parts(s, word) + [key]
  {
    var t := s + "/" + key;
    if s == "" {
      assert t[1..] == key;
      PartsOfWord(key, "");
      assert "" + key == key;
    } else {
      assert t[1..] == s[1..] + "/" + key;
      PartsOfMore(s[1..], key, if s[0] == '/' then "" else word + [s[0]]);
    }
  }

  /** Splitting undoes joining. */
  lemma {:induction false} TokensOfDir(at: seq<string>)
    requires forall k :: 0 <= k < |at| ==> Proper(at[k])
    ensures Tokens(Slashed(at)) == at
  {
    if at != [] {
      TokensOfDir(at[..|at| - 1]);
      PartsOfMore(Slashed(at[..|at| - 1]), at[|at| - 1], "");
    }
  }

  lemma ContainsMore(s: string, more: string, part: string)
    requires Contains(s, part)
    ensures Contains(s + more, part)
  {
    var i: nat :| i <= |s| && OccursAt(s, part, i);
    assert (s + more)[i..i + |part|] == part;
    assert OccursAt(s + more, part, i);
  }

  // ---- tallies ------------------------------------------------------------

  datatype Tally = Tally(total: nat, success: nat, fail: nat, time: int)

  function Plus(a: Tally, b: Tally): Tally {
    Tally(a.total + b.total, a.success + b.success, a.fail + b.fail, a.time + b.time)
  }

  function Nothing(): Tally {
    Tally(0, 0, 0, 0)
  }

  function One(c: Case): Tally {
    if !c.ran then Tally(1, 0, 0, 0) else Tally(1, if c.ok then 1 else 0, if c.ok then 0 else 1, c.ms)
  }

  function TallyOf(cases: seq<Case>): Tally {
    if cases == [] then Nothing() else Plus(One(cases[0]), TallyOf(cases[1..]))
  }

  lemma PlusAssociates(a: Tally, b: Tally, c: Tally)
    ensures Plus(Plus(a, b), c) == Plus(a, Plus(b, c))
  {}

  lemma PlusNothing(a: Tally)
    ensures Plus(Nothing(), a) == a && Plus(a, Nothing()) == a
  {}

  lemma TallyTail(cases: seq<Case>)
    requires cases != []
    ensures TallyOf(cases) == Plus(One(cases[0]), TallyOf(cases[1..]))
  {}

  lemma {:induction false} TallyAppend(a: seq<Case>, b: seq<Case>)
    ensures TallyOf(a + b) == Plus(TallyOf(a), TallyOf(b))
  {
    if a == [] {
      assert a + b == b;
      PlusNothing(TallyOf(b));
    } else {
      assert (a + b)[1..] == a[1..] + b;
      TallyAppend(a[1..], b);
      TallyTail(a);
      TallyTail(a + b);
      PlusAssociates(One(a[0]), TallyOf(a[1..]), TallyOf(b));
    }
  }

  lemma OneCounts(c: Case, t: Tally)
    ensures Plus(One(c), t).total == 1 + t.total
  {}

  lemma {:induction false} TallyCounts(cases: seq<Case>)
    ensures TallyOf(cases).total == |cases|
    decreases |cases|
  {
    if cases != [] {
      TallyCounts(cases[1..]);
      TallyTail(cases);
      OneCounts(cases[0], TallyOf(cases[1..]));
    }
  }

  function HasRun(): Case -> bool {
    (c: Case) => c.ran
  }

  function HasPassed(): Case -> bool {
    (c: Case) => c.ran && c.ok
  }

  function HasFailed(): Case -> bool {
    (c: Case) => c.ran && !c.ok
  }

  function Milliseconds(cases: seq<Case>): int {
    if cases == [] then 0 else cases[0].ms + Milliseconds(cases[1..])
  }

  /** All cases, those that ran and passed, those that ran and did not, and the time of those that ran. */
  ghost predicate Numbers(t: Tally, cases: seq<Case>) {
    && t.total == |cases|
    && t.success == |Filter(cases, HasPassed())| && t.fail == |Filter(cases, HasFailed())|
    && t.time == Milliseconds(Filter(cases, HasRun()))
    && t.success + t.fail == |Filter(cases, HasRun())|
  }

  lemma {:induction false} TallyNumbers(cases: seq<Case>)
    ensures Numbers(TallyOf(cases), cases)
    decreases |cases|
  {
    if cases != [] {
      TallyNumbers(cases[1..]);
      NumbersMore(TallyOf(cases[1..]), cases);
    }
  }

  lemma NumbersMore(t: Tally, cases: seq<Case>)
    requires cases != [] && Numbers(t, cases[1..])
    ensures Numbers(Plus(One(cases[0]), t), cases)
  {
    var ran := Filter(cases[1..], HasRun());
    assert ([cases[0]] + ran)[1..] == ran;
  }

  // ---- summaries ----------------------------------------------------------

  /** Summaries by their result directory, in the order in which the table iterates. */
  datatype Summary = Summary(bottom: bool, resultDir: string, tally: Tally, cases: seq<Case>, children: seq<Summary>)

  function HasDir(dir: string): Summary -> bool {
    (s: Summary) => s.resultDir == dir
  }

  /**
   The order of the tables, which the hashes decide: what becomes of a table of summaries when it is
   put one with a new directory, and in what order a level's keys come when the table's own key is in.
   */
  datatype Tables = Tables(put: (seq<Summary>, Summary) -> seq<Summary>, again: seq<Child> -> seq<nat>)

  function Put(tables: Tables, children: seq<Summary>, s: Summary): seq<Summary> {
    match FirstIndex(children, HasDir(s.resultDir))
    case Some(i) => children[i := s]
    case None => Arranged(tables.put(children, s), children + [s])
  }

  function Upto(n: nat): seq<nat> {
    seq(n, i requires 0 <= i < n => i)
  }

  /** The order lists the first n numbers, each once. */
  ghost predicate IsOrder(order: seq<nat>, n: nat) {
    && multiset(order) == multiset(Upto(n)) && NoDup(order)
    && Within(order, n) && forall k: nat :: k < n ==> k in order
  }

  ghost predicate Within(order: seq<nat>, n: nat) {
    forall j :: 0 <= j < |order| ==> order[j] < n
  }

  lemma ArrangedIsOrder(order: seq<nat>, n: nat)
    requires multiset(order) == multiset(Upto(n))
    ensures IsOrder(order, n)
  {
    var all := Upto(n);
    ArrangedMembers(order, all);
    ArrangedNoDup(order, all);
    forall k: nat | k < n
      ensures k in order
    {
      assert all[k] == k;
    }
    forall j | 0 <= j < |order|
      ensures order[j] < n
    {
      assert order[j] in all;
    }
  }

  /** The places of a level's children in the order of its keys once the table's own key is in. */
  function Order(tables: Tables, n: Node): (order: seq<nat>)
    ensures IsOrder(order, |n.children|)
  {
    var order := Arranged(tables.again(n.children), Upto(|n.children|));
    ArrangedIsOrder(order, |n.children|);
    order
  }

  function BottomSummary(b: Bottom): Summary {
    Summary(true, b.resultDir, TallyOf(b.cases), b.cases, [])
  }

  /** A level's summary with one more child's added. */
  function Add(tables: Tables, s: Summary, key: string, child: Option<Summary>): Summary {
    if key == SummaryKey || child.None? then s
    else s.(tally := Plus(s.tally, child.value.tally), cases := s.cases + child.value.cases,
            children := Put(tables, s.children, child.value))
  }

  function Empty(dir: string): Summary {
    Summary(false, dir, Nothing(), [], [])
  }

  // ---- what the walk does -------------------------------------------------

  /** The path when the walk leaves a node. */
  function EndOf(n: Node, path: seq<string>): seq<string>
    decreases n, |n.children| + 1
  {
    if n.bottom.Some? then Tokens(n.bottom.value.resultDir) else DropLast(EndAfter(n, |n.children|, path))
  }

  /** The path after the first i children. */
  function EndAfter(n: Node, i: nat, path: seq<string>): seq<string>
    requires i <= |n.children|
    decreases n, i
  {
    if i == 0 then path
    else EndOf(n.children[i - 1].node, EndAfter(n, i - 1, path) + [n.children[i - 1].key])
  }

  /** The summary a node gets, when the walk comes to it with a path. */
  function SummaryOf(tables: Tables, testID: string, n: Node, path: seq<string>): Option<Summary>
    decreases n, 2, 0
  {
    if n.bottom.Some? then Some(BottomSummary(n.bottom.value))
    else
      var dir := Dir(EndOf(n, path));
      if Contains(dir, testID) then Some(Sum(tables, testID, n, Order(tables, n), path, dir)) else None
  }

  /** The summary of a node with its children added in an order. */
  function Sum(tables: Tables, testID: string, n: Node, order: seq<nat>, path: seq<string>, dir: string): Summary
    requires Within(order, |n.children|)
    decreases n, 1, |order|
  {
    if order == [] then Empty(dir)
    else
      var init, k := order[..|order| - 1], order[|order| - 1];
      Add(tables, Sum(tables, testID, n, init, path, dir), n.children[k].key, Below(tables, testID, n, k, path))
  }

  /** The summary of child i of a node that the walk came to with a path. */
  function Below(tables: Tables, testID: string, n: Node, i: nat, path: seq<string>): Option<Summary>
    requires i < |n.children|
    decreases n, 0, 0
  {
    SummaryOf(tables, testID, n.children[i].node, EndAfter(n, i, path) + [n.children[i].key])
  }

  /** A level that is no directory of cases gets a summary exactly when its directory has the run's name in it. */
  lemma SummaryOnlyInside(tables: Tables, testID: string, n: Node, path: seq<string>)
    ensures SummaryOf(tables, testID, n, path).Some? <==>
              n.bottom.Some? || exists a, b :: Dir(EndOf(n, path)) == a + testID + b
  {
    var dir := Dir(EndOf(n, path));
    if Contains(dir, testID) {
      var i: nat :| i <= |dir| && OccursAt(dir, testID, i);
      assert dir == dir[..i] + testID + dir[i + |testID|..];
    }
    if a, b :| dir == a + testID + b {
      assert dir[|a|..|a| + |testID|] == testID;
      assert OccursAt(dir, testID, |a|);
    }
  }

  // ---- the walk -----------------------------------------------------------

  class Records {
    const testID: string
    const tables: Tables
    var dirPath: seq<string>

    constructor (testID: string, tables: Tables)
      ensures this.testID == testID && this.tables == tables && dirPath == []
    {
      this.testID, this.tables, dirPath := testID, tables, [];
    }

    /** Splits a directory into the path, which is emptied first. */
    method Reset(dir: string)
      modifies this
      ensures dirPath == Tokens(dir)
    {
      dirPath := [];
      var word := "";
      assert dir[0..] == dir;
      for i := 0 to |dir|
        invariant dirPath + Parts(dir[i..], word) == Tokens(dir)
      {
        assert dir[i..][1..] == dir[i + 1..] && dir[i..][0] == dir[i];
        if dir[i] != '/' {
          word := word + [dir[i]];
        } else {
          dirPath := dirPath + if word == "" then [] else [word];
          word := "";
        }
      }
      dirPath := dirPath + if word == "" then [] else [word];
    }

    method Walk(n: Node) returns (summary: Option<Summary>)
      modifies this
      ensures dirPath == EndOf(n, old(dirPath))
      ensures summary == SummaryOf(tables, testID, n, old(dirPath))
      decreases n
    {
      if n.bottom.Some? {
        var b := n.bottom.value;
        var tally := CountCases(b.cases);
        Reset(b.resultDir);
        return Some(Summary(true, b.resultDir, tally, b.cases, []));
      }
      var below: seq<Option<Summary>> := [];
      for i := 0 to |n.children|
        invariant dirPath == EndAfter(n, i, old(dirPath))
        invariant |below| == i && forall k :: 0 <= k < i ==> below[k] == Below(tables, testID, n, k, old(dirPath))
      {
        dirPath := dirPath + [n.children[i].key];
        var child := Walk(n.children[i].node);
        below := below + [child];
      }
      dirPath := DropLast(dirPath);
      var dir := Dir(dirPath);
      if !Contains(dir, testID) {
        return None;
      }
      var s := Gather(n, below, dir, old(dirPath));
      summary := Some(s);
    }

    /** Adds up what the walk found below a node, in the order of its keys by then. */
    method Gather(n: Node, below: seq<Option<Summary>>, dir: string, ghost path: seq<string>) returns (s: Summary)
      requires |below| == |n.children|
      requires forall k :: 0 <= k < |below| ==> below[k] == Below(tables, testID, n, k, path)
      ensures s == Sum(tables, testID, n, Order(tables, n), path, dir)
    {
      var order := Order(tables, n);
      s := Empty(dir);
      for j := 0 to |order|
        invariant s == Sum(tables, testID, n, order[..j], path, dir)
      {
        assert order[..j + 1][..j] == order[..j];
        s := Add(tables, s, n.children[order[j]].key, below[order[j]]);
      }
      assert order[..|order|] == order;
    }
  }

  method CountCases(cases: seq<Case>) returns (t: Tally)
    ensures t == TallyOf(cases)
  {
    t := Nothing();
    assert cases[0..] == cases;
    PlusNothing(TallyOf(cases));
    for i := 0 to |cases|
      invariant Plus(t, TallyOf(cases[i..])) == TallyOf(cases)
    {
      TallyTail(cases[i..]);
      assert cases[i..][1..] == cases[i + 1..];
      PlusAssociates(t, One(cases[i]), TallyOf(cases[i + 1..]));
      t := CountCase(t, cases[i]);
    }
    PlusNothing(t);
  }

  method CountCase(t: Tally, c: Case) returns (more: Tally)
    ensures more == Plus(t, One(c))
  {
    more := t.(total := t.total + 1);
    if !c.ran {
      return;
    }
    if c.ok {
      more := more.(success := more.success + 1);
    } else {
      more := more.(fail := more.fail + 1);
    }
    more := more.(time := more.time + c.ms);
  }

  // ---- true paths ---------------------------------------------------------

  /**
   The node and all below it stand at their paths: each level's keys are distinct names, and a bottom's
   directory says where it is.
   */
  ghost predicate Placed(n: Node, at: seq<string>) {
    if n.bottom.Some? then n.bottom.value.resultDir == Slashed(at)
    else
      && n.children != [] && Keyed(n)
      && forall i :: 0 <= i < |n.children| ==> Placed(n.children[i].node, at + [n.children[i].key])
  }

  ghost predicate Keyed(n: Node) {
    && (forall i :: 0 <= i < |n.children| ==> Proper(n.children[i].key))
    && (forall i, j :: 0 <= i < j < |n.children| ==> n.children[i].key != n.children[j].key)
  }

  /** A path of names, in a directory of the run. */
  ghost predicate Known(testID: string, at: seq<string>) {
    at != [] && Contains(Slashed(at), testID) && forall k :: 0 <= k < |at| ==> Proper(at[k])
  }

  lemma KnownBelow(testID: string, at: seq<string>, key: string)
    requires Known(testID, at) && Proper(key)
    ensures Known(testID, at + [key])
  {
    var more := at + [key];
    assert more[..|more| - 1] == at;
    assert Slashed(more) == Slashed(at) + ("/" + key);
    ContainsMore(Slashed(at), "/" + key, testID);
  }

  /** The summary a node at a path should have, its children's paths made from its own. */
  function Reference(tables: Tables, n: Node, at: seq<string>): Summary
    decreases n, 2, 0
  {
    if n.bottom.Some? then BottomSummary(n.bottom.value) else RefSum(tables, n, Order(tables, n), at)
  }

  function RefSum(tables: Tables, n: Node, order: seq<nat>, at: seq<string>): Summary
    requires Within(order, |n.children|)
    decreases n, 1, |order|
  {
    if order == [] then Empty(Slashed(at))
    else
      var init, k := order[..|order| - 1], order[|order| - 1];
      Add(tables, RefSum(tables, n, init, at), n.children[k].key, Some(RefBelow(tables, n, k, at)))
  }

  function RefBelow(tables: Tables, n: Node, i: nat, at: seq<string>): Summary
    requires i < |n.children|
    decreases n, 0, 0
  {
    Reference(tables, n.children[i].node, at + [n.children[i].key])
  }

  /**
   The one path that all levels share leaves each with its own: wherever it points before, a node gets
   the summary of its place.
   */
  lemma {:induction false} TruePaths(tables: Tables, testID: string, n: Node, at: seq<string>, path: seq<string>)
    requires Placed(n, at) && Known(testID, at)
    ensures EndOf(n, path) == at && SummaryOf(tables, testID, n, path) == Some(Reference(tables, n, at))
    decreases n, 2, 0
  {
    if n.bottom.Some? {
      TokensOfDir(at);
    } else {
      TrueBelow(tables, testID, n, |n.children| - 1, at, path);
      TrueSums(tables, testID, n, Order(tables, n), at, path);
    }
  }

  lemma {:induction false} TrueBelow(tables: Tables, testID: string, n: Node, i: nat, at: seq<string>,
                                     path: seq<string>)
    requires n.bottom.None? && i < |n.children| && Placed(n, at) && Known(testID, at)
    ensures EndAfter(n, i + 1, path) == at + [n.children[i].key]
    ensures Below(tables, testID, n, i, path) == Some(RefBelow(tables, n, i, at))
    decreases n, 0, 0
  {
    var child := n.children[i];
    KnownBelow(testID, at, child.key);
    TruePaths(tables, testID, child.node, at + [child.key], EndAfter(n, i, path) + [child.key]);
  }

  lemma {:induction false} TrueSums(tables: Tables, testID: string, n: Node, order: seq<nat>, at: seq<string>,
                                    path: seq<string>)
    requires n.bottom.None? && Within(order, |n.children|) && Placed(n, at) && Known(testID, at)
    ensures Sum(tables, testID, n, order, path, Slashed(at)) == RefSum(tables, n, order, at)
    decreases n, 1, |order|
  {
    if order != [] {
      TrueSums(tables, testID, n, order[..|order| - 1], at, path);
      TrueBelow(tables, testID, n, order[|order| - 1], at, path);
    }
  }

  // ---- what is counted ----------------------------------------------------

  /** The cases at and below a node, those below a directory of cases too. */
  function All(n: Node): seq<Case>
    decreases n
  {
    (if n.bottom.Some? then n.bottom.value.cases else []) + AllBelow(n.children)
  }

  function AllBelow(children: seq<Child>): seq<Case>
    decreases children
  {
    if children == [] then [] else All(children[0].node) + AllBelow(children[1..])
  }

  lemma {:induction false} AllBelowAppend(a: seq<Child>, b: seq<Child>)
    ensures AllBelow(a + b) == AllBelow(a) + AllBelow(b)
  {
    if a == [] {
      assert a + b == b;
    } else {
      assert (a + b)[1..] == a[1..] + b;
      AllBelowAppend(a[1..], b);
    }
  }

  lemma AllBelowOne(child: Child)
    ensures AllBelow([child]) == All(child.node)
  {
    assert [child][1..] == [];
  }

  /** No case is below a directory of cases, nor below a name that is the table's own key. */
  ghost predicate Counted(n: Node)
    decreases n
  {
    if n.bottom.Some? then AllBelow(n.children) == []
    else forall i :: 0 <= i < |n.children| ==> CountedChild(n.children[i])
  }

  ghost predicate CountedChild(child: Child)
    decreases child
  {
    if child.key == SummaryKey then All(child.node) == [] else Counted(child.node)
  }

  /** The children at the places of an order. */
  function Picked(children: seq<Child>, order: seq<nat>): seq<Child>
    requires Within(order, |children|)
  {
    seq(|order|, j requires 0 <= j < |order| => children[order[j]])
  }

  function AtPlace(children: seq<Child>): nat -> seq<Child> {
    (k: nat) => if k < |children| then [children[k]] else []
  }

  function AllOf(): Child -> seq<Case> {
    (child: Child) => All(child.node)
  }

  lemma {:induction false} PickedIsFlat(children: seq<Child>, order: seq<nat>)
    requires Within(order, |children|)
    ensures Picked(children, order) == Flat(order, AtPlace(children))
    decreases |order|
  {
    if order != [] {
      PickedIsFlat(children, order[1..]);
      assert Picked(children, order) == [children[order[0]]] + Picked(children, order[1..]);
    }
  }

  lemma {:induction false} AllBelowIsFlat(children: seq<Child>)
    ensures AllBelow(children) == Flat(children, AllOf())
    decreases |children|
  {
    if children != [] {
      AllBelowIsFlat(children[1..]);
    }
  }

  lemma AllBelowPermutes(a: seq<Child>, b: seq<Child>)
    requires multiset(a) == multiset(b)
    ensures multiset(AllBelow(a)) == multiset(AllBelow(b))
  {
    AllBelowIsFlat(a);
    AllBelowIsFlat(b);
    FlatPermutes(a, b, AllOf());
  }

  /** The cases below a level are the same in any order of its children. */
  lemma AnyOrder(children: seq<Child>, order: seq<nat>)
    requires IsOrder(order, |children|)
    ensures multiset(AllBelow(Picked(children, order))) == multiset(AllBelow(children))
  {
    var all := Upto(|children|);
    assert Picked(children, all) == children;
    PickedIsFlat(children, order);
    PickedIsFlat(children, all);
    FlatPermutes(order, all, AtPlace(children));
    AllBelowPermutes(Picked(children, order), children);
  }

  /** A summary has its place's directory, and its numbers are those of the cases it holds. */
  lemma SummaryCounts(tables: Tables, n: Node, at: seq<string>)
    requires Placed(n, at)
    ensures var s := Reference(tables, n, at);
            s.resultDir == Slashed(at) && s.tally == TallyOf(s.cases) && Numbers(s.tally, s.cases)
  {
    SummaryTallies(tables, n, at);
    TallyNumbers(Reference(tables, n, at).cases);
  }

  lemma {:induction false} SummaryTallies(tables: Tables, n: Node, at: seq<string>)
    requires Placed(n, at)
    ensures var s := Reference(tables, n, at);
            s.resultDir == Slashed(at) && s.tally == TallyOf(s.cases)
    decreases n, 2, 0
  {
    if n.bottom.None? {
      var order := Order(tables, n);
      SumCounts(tables, n, order, at);
      assert Counts(RefSum(tables, n, order, at), Slashed(at));
    }
  }

  ghost predicate Counts(s: Summary, dir: string) {
    s.resultDir == dir && s.tally == TallyOf(s.cases)
  }

  /** Counts, for the induction: unfolded only where a step adds a child. */
  ghost predicate CountsSoFar(s: Summary, dir: string) {
    !s.bottom && forall r: Summary :: r == s ==> Counts(r, dir)
  }

  lemma {:induction false} SumCounts(tables: Tables, n: Node, order: seq<nat>, at: seq<string>)
    requires n.bottom.None? && Placed(n, at) && Within(order, |n.children|)
    ensures CountsSoFar(RefSum(tables, n, order, at), Slashed(at))
    decreases n, 1, |order|
  {
    if order != [] {
      var init, k := order[..|order| - 1], order[|order| - 1];
      SumCounts(tables, n, init, at);
      var child := n.children[k];
      SummaryTallies(tables, child.node, at + [child.key]);
      AddCounts(tables, RefSum(tables, n, init, at), child.key, RefBelow(tables, n, k, at), Slashed(at));
    }
  }

  lemma AddCounts(tables: Tables, s: Summary, key: string, below: Summary, dir: string)
    requires CountsSoFar(s, dir) && below.tally == TallyOf(below.cases)
    ensures CountsSoFar(Add(tables, s, key, Some(below)), dir)
  {
    if key != SummaryKey {
      assert Counts(s, dir);
      AddIs(tables, s, key, below);
      AddTally(s.tally, s.cases, below.tally, below.cases);
      CountsIs(Add(tables, s, key, Some(below)), dir);
    }
  }

  lemma AddIs(tables: Tables, s: Summary, key: string, below: Summary)
    requires key != SummaryKey
    ensures var more := Add(tables, s, key, Some(below));
            && more.bottom == s.bottom && more.resultDir == s.resultDir
            && more.tally == Plus(s.tally, below.tally) && more.cases == s.cases + below.cases
  {}

  lemma AddTally(a: Tally, x: seq<Case>, b: Tally, y: seq<Case>)
    requires a == TallyOf(x) && b == TallyOf(y)
    ensures Plus(a, b) == TallyOf(x + y)
  {
    TallyAppend(x, y);
  }

  lemma CountsIs(s: Summary, dir: string)
    requires !s.bottom && s.resultDir == dir && s.tally == TallyOf(s.cases)
    ensures CountsSoFar(s, dir)
  {}

  /** A summary holds every case below its node once, whatever the tree, exactly when all are counted. */
  lemma {:induction false} AllCounted(tables: Tables, n: Node, at: seq<string>)
    ensures Counted(n) ==> multiset(Reference(tables, n, at).cases) == multiset(All(n))
    ensures !Counted(n) ==> |Reference(tables, n, at).cases| < |All(n)|
    decreases n, 2, 0
  {
    if n.bottom.None? {
      var order := Order(tables, n);
      AllCountedFirst(tables, n, order, at);
      assert HoldsAt(tables, n, order, at);
      AnyOrder(n.children, order);
      CountedInOrder(n, order);
      HoldsArranged(Counted(n), RefSum(tables, n, order, at).cases,
                    AllBelow(Picked(n.children, order)), AllBelow(n.children));
      assert [] + AllBelow(n.children) == AllBelow(n.children);
    }
  }

  /** Counted, they are all the cases; otherwise some are missing. */
  ghost predicate Holds(counted: bool, cases: seq<Case>, all: seq<Case>) {
    if counted then multiset(cases) == multiset(all) else |cases| < |all|
  }

  lemma HoldsArranged(counted: bool, cases: seq<Case>, a: seq<Case>, b: seq<Case>)
    requires Holds(counted, cases, a) && multiset(a) == multiset(b)
    ensures Holds(counted, cases, b)
  {
    ArrangedMembers(a, b);
  }

  lemma HoldsBoth(first: bool, a: seq<Case>, x: seq<Case>, second: bool, b: seq<Case>, y: seq<Case>)
    requires Holds(first, a, x) && Holds(second, b, y)
    ensures Holds(first && second, a + b, x + y)
  {
    assert |multiset(a)| == |a| && |multiset(x)| == |x|;
    assert |multiset(b)| == |b| && |multiset(y)| == |y|;
  }

  lemma HoldsWithout(first: bool, a: seq<Case>, x: seq<Case>, y: seq<Case>)
    requires Holds(first, a, x)
    ensures Holds(first && y == [], a, x + y)
  {
    assert |multiset(a)| == |a| && |multiset(x)| == |x|;
    assert x + [] == x;
  }

  ghost predicate CountedFirst(n: Node, order: seq<nat>)
    requires Within(order, |n.children|)
  {
    forall j :: 0 <= j < |order| ==> CountedChild(n.children[order[j]])
  }

  lemma CountedInOrder(n: Node, order: seq<nat>)
    requires n.bottom.None? && IsOrder(order, |n.children|)
    ensures Counted(n) == CountedFirst(n, order)
  {
    if CountedFirst(n, order) {
      forall i | 0 <= i < |n.children|
        ensures CountedChild(n.children[i])
      {
        assert i in order;
      }
    }
  }

  lemma {:induction false} AllCountedFirst(tables: Tables, n: Node, order: seq<nat>, at: seq<string>)
    requires n.bottom.None? && Within(order, |n.children|)
    ensures HoldsFirst(tables, n, order, at)
    decreases n, 1, |order|
  {
    if order == [] {
      NoneCounted(tables, n, at);
    } else {
      var init, child := order[..|order| - 1], n.children[order[|order| - 1]];
      AllCountedFirst(tables, n, init, at);
      AllCounted(tables, child.node, at + [child.key]);
      CountedNext(tables, n, order, at);
    }
  }

  ghost predicate HoldsAt(tables: Tables, n: Node, order: seq<nat>, at: seq<string>) {
    && Within(order, |n.children|)
    && Holds(CountedFirst(n, order), RefSum(tables, n, order, at).cases, AllBelow(Picked(n.children, order)))
  }

  /** HoldsAt, for the induction: unfolded only where a step adds a child. */
  ghost predicate HoldsFirst(tables: Tables, n: Node, order: seq<nat>, at: seq<string>) {
    forall o: seq<nat> :: o == order ==> HoldsAt(tables, n, o, at)
  }

  lemma NoneCounted(tables: Tables, n: Node, at: seq<string>)
    ensures HoldsFirst(tables, n, [], at)
  {}

  lemma CountedNext(tables: Tables, n: Node, order: seq<nat>, at: seq<string>)
    requires order != [] && Within(order, |n.children|) && HoldsFirst(tables, n, order[..|order| - 1], at)
    requires var k := order[|order| - 1];
             Holds(Counted(n.children[k].node), RefBelow(tables, n, k, at).cases, All(n.children[k].node))
    ensures HoldsFirst(tables, n, order, at)
  {
    var init, k := order[..|order| - 1], order[|order| - 1];
    assert HoldsAt(tables, n, init, at);
    PickedStep(n.children, order);
    CountedFirstStep(n, order);
    CountedStep(tables, CountedFirst(n, init), RefSum(tables, n, init, at), AllBelow(Picked(n.children, init)),
                n.children[k], RefBelow(tables, n, k, at));
    HoldsNow(tables, n, order, at);
  }

  lemma CountedFirstStep(n: Node, order: seq<nat>)
    requires order != [] && Within(order, |n.children|)
    ensures CountedFirst(n, order) ==
            (CountedFirst(n, order[..|order| - 1]) && CountedChild(n.children[order[|order| - 1]]))
  {}

  lemma HoldsNow(tables: Tables, n: Node, order: seq<nat>, at: seq<string>)
    requires order != [] && Within(order, |n.children|)
    requires var init, k := order[..|order| - 1], order[|order| - 1];
             Holds(CountedFirst(n, order),
                   Add(tables, RefSum(tables, n, init, at), n.children[k].key, Some(RefBelow(tables, n, k, at))).cases,
                   AllBelow(Picked(n.children, order)))
    ensures HoldsFirst(tables, n, order, at)
  {}

  lemma PickedStep(children: seq<Child>, order: seq<nat>)
    requires order != [] && Within(order, |children|)
    ensures var init, k := order[..|order| - 1], order[|order| - 1];
            AllBelow(Picked(children, order)) == AllBelow(Picked(children, init)) + All(children[k].node)
  {
    var init, child := order[..|order| - 1], children[order[|order| - 1]];
    assert Picked(children, order) == Picked(children, init) + [child];
    AllBelowAppend(Picked(children, init), [child]);
    AllBelowOne(child);
  }

  lemma CountedStep(tables: Tables, first: bool, s: Summary, before: seq<Case>, child: Child, below: Summary)
    requires Holds(first, s.cases, before) && Holds(Counted(child.node), below.cases, All(child.node))
    ensures Holds(first && CountedChild(child), Add(tables, s, child.key, Some(below)).cases, before + All(child.node))
  {
    if child.key == SummaryKey {
      HoldsWithout(first, s.cases, before, All(child.node));
    } else {
      HoldsBoth(first, s.cases, before, Counted(child.node), below.cases, All(child.node));
    }
  }

  // ---- the report ---------------------------------------------------------

  /** The cases the report lists, in the order it walks the summaries. */
  function Reported(s: Summary): seq<Case>
    decreases s
  {
    if s.bottom then Filter(s.cases, HasRun()) else ReportedAll(s.children)
  }

  function ReportedAll(summaries: seq<Summary>): seq<Case>
    decreases summaries
  {
    if summaries == [] then [] else Reported(summaries[0]) + ReportedAll(summaries[1..])
  }

  class Report {
    var cases: seq<Case>

    constructor ()
      ensures cases == []
    {
      cases := [];
    }

    method Walk(s: Summary)
      modifies this
      ensures cases == old(cases) + Reported(s)
      decreases s
    {
      if s.bottom {
        for i := 0 to |s.cases|
          invariant cases == old(cases) + Filter(s.cases[..i], HasRun())
        {
          assert s.cases[..i + 1] == s.cases[..i] + [s.cases[i]];
          FilterStep(s.cases[..i], s.cases[i], HasRun());
          if s.cases[i].ran {
            cases := cases + [s.cases[i]];
          }
        }
        assert s.cases[..|s.cases|] == s.cases;
        return;
      }
      assert s.children[0..] == s.children;
      for i := 0 to |s.children|
        invariant cases + ReportedAll(s.children[i..]) == old(cases) + ReportedAll(s.children)
      {
        assert s.children[i..][1..] == s.children[i + 1..];
        Walk(s.children[i]);
      }
    }
  }

  lemma {:induction false} ReportedAppend(a: seq<Summary>, b: seq<Summary>)
    ensures ReportedAll(a + b) == ReportedAll(a) + ReportedAll(b)
  {
    if a == [] {
      assert a + b == b;
    } else {
      assert (a + b)[1..] == a[1..] + b;
      ReportedAppend(a[1..], b);
    }
  }

  function ReportedOf(): Summary -> seq<Case> {
    (s: Summary) => Reported(s)
  }

  lemma {:induction false} ReportedIsFlat(summaries: seq<Summary>)
    ensures ReportedAll(summaries) == Flat(summaries, ReportedOf())
    decreases |summaries|
  {
    if summaries != [] {
      ReportedIsFlat(summaries[1..]);
    }
  }

  lemma ReportedPermutes(a: seq<Summary>, b: seq<Summary>)
    requires multiset(a) == multiset(b)
    ensures multiset(ReportedAll(a)) == multiset(ReportedAll(b))
  {
    ReportedIsFlat(a);
    ReportedIsFlat(b);
    FlatPermutes(a, b, ReportedOf());
  }

  /** A summary of a new directory adds its cases, however the table comes to iterate. */
  lemma PutReported(tables: Tables, children: seq<Summary>, s: Summary)
    requires forall x :: x in children ==> x.resultDir != s.resultDir
    ensures multiset(ReportedAll(Put(tables, children, s))) == multiset(ReportedAll(children)) + multiset(Reported(s))
  {
    PutArranges(tables, children, s);
    ReportedPermutes(Put(tables, children, s), children + [s]);
    ReportedMore(children, s);
  }

  lemma PutArranges(tables: Tables, children: seq<Summary>, s: Summary)
    requires forall x :: x in children ==> x.resultDir != s.resultDir
    ensures multiset(Put(tables, children, s)) == multiset(children + [s])
    ensures forall x :: x in Put(tables, children, s) <==> x in children || x == s
  {
    NoneFound(children, HasDir(s.resultDir));
    ArrangedMembers(Put(tables, children, s), children + [s]);
  }

  lemma ReportedMore(children: seq<Summary>, s: Summary)
    ensures ReportedAll(children + [s]) == ReportedAll(children) + Reported(s)
  {
    ReportedAppend(children, [s]);
    assert [s][1..] == [];
  }

  lemma SlashedApart(at: seq<string>, a: string, b: string)
    requires a != b
    ensures Slashed(at + [a]) != Slashed(at + [b])
  {
    var s := Slashed(at) + "/";
    assert (at + [a])[..|at|] == at && (at + [b])[..|at|] == at;
    assert (s + a)[|s|..] == a && (s + b)[|s|..] == b;
  }

  /** The report lists each case the summary holds that ran, once. */
  lemma {:induction false} ReportComplete(tables: Tables, n: Node, at: seq<string>)
    requires Placed(n, at)
    ensures var s := Reference(tables, n, at);
            s.resultDir == Slashed(at) && multiset(Reported(s)) == multiset(Filter(s.cases, HasRun()))
    decreases n, 2, 0
  {
    if n.bottom.None? {
      var order := Order(tables, n);
      SumCounts(tables, n, order, at);
      assert Counts(RefSum(tables, n, order, at), Slashed(at));
      ReportCompleteFirst(tables, n, order, at);
      assert ListsAt(RefSum(tables, n, order, at), n, order, at);
    }
  }

  lemma {:induction false} ReportCompleteFirst(tables: Tables, n: Node, order: seq<nat>, at: seq<string>)
    requires n.bottom.None? && Placed(n, at) && Within(order, |n.children|) && NoDup(order)
    ensures ListsFirst(RefSum(tables, n, order, at), n, order, at)
    decreases n, 1, |order|
  {
    if order == [] {
      NothingListed(n, at);
    } else {
      var init, k := order[..|order| - 1], order[|order| - 1];
      ReportCompleteFirst(tables, n, init, at);
      var child := n.children[k];
      ReportComplete(tables, child.node, at + [child.key]);
      ReportStep(tables, n, order, at, RefSum(tables, n, init, at), RefBelow(tables, n, k, at));
    }
  }

  lemma NothingListed(n: Node, at: seq<string>)
    ensures ListsFirst(Empty(Slashed(at)), n, [], at)
  {}

  /** The summary's report is complete, and its children are those of the nodes at these places. */
  ghost predicate ListsFirst(s: Summary, n: Node, order: seq<nat>, at: seq<string>) {
    forall o: seq<nat> :: o == order ==> ListsAt(s, n, o, at)
  }

  ghost predicate ListsAt(s: Summary, n: Node, order: seq<nat>, at: seq<string>) {
    Within(order, |n.children|) && Lists(s) && DirsOf(s.children, n, order, at)
  }

  lemma ReportStep(tables: Tables, n: Node, order: seq<nat>, at: seq<string>, s: Summary, below: Summary)
    requires order != [] && Within(order, |n.children|) && NoDup(order) && Keyed(n)
    requires ListsFirst(s, n, order[..|order| - 1], at)
    requires below.resultDir == Slashed(at + [n.children[order[|order| - 1]].key])
    requires multiset(Reported(below)) == multiset(Filter(below.cases, HasRun()))
    ensures ListsFirst(Add(tables, s, n.children[order[|order| - 1]].key, Some(below)), n, order, at)
  {
    var init, key := order[..|order| - 1], n.children[order[|order| - 1]].key;
    assert ListsAt(s, n, init, at);
    MoreDirs(s.children, n, order, at);
    if key != SummaryKey {
      OtherDirs(s.children, n, order, at, below.resultDir);
      AddReported(tables, s, key, below);
      assert DirIn(below, n, order, |order| - 1, at);
    }
  }

  ghost predicate Lists(s: Summary) {
    multiset(ReportedAll(s.children)) == multiset(Filter(s.cases, HasRun()))
  }

  /** The summaries are those of the children at these places. */
  ghost predicate DirsOf(summaries: seq<Summary>, n: Node, order: seq<nat>, at: seq<string>)
    requires Within(order, |n.children|)
  {
    forall x :: x in summaries ==> exists j :: 0 <= j < |order| && DirIn(x, n, order, j, at)
  }

  ghost predicate DirIn(x: Summary, n: Node, order: seq<nat>, j: nat, at: seq<string>)
    requires Within(order, |n.children|) && j < |order|
  {
    x.resultDir == Slashed(at + [n.children[order[j]].key])
  }

  lemma MoreDirs(summaries: seq<Summary>, n: Node, order: seq<nat>, at: seq<string>)
    requires order != [] && Within(order, |n.children|) && DirsOf(summaries, n, order[..|order| - 1], at)
    ensures DirsOf(summaries, n, order, at)
  {
    var init := order[..|order| - 1];
    forall x | x in summaries
      ensures exists j :: 0 <= j < |order| && DirIn(x, n, order, j, at)
    {
      var j :| 0 <= j < |init| && DirIn(x, n, init, j, at);
      assert DirIn(x, n, order, j, at);
    }
  }

  lemma OtherDirs(summaries: seq<Summary>, n: Node, order: seq<nat>, at: seq<string>, dir: string)
    requires order != [] && Within(order, |n.children|) && NoDup(order) && Keyed(n)
    requires DirsOf(summaries, n, order[..|order| - 1], at) && dir == Slashed(at + [n.children[order[|order| - 1]].key])
    ensures forall x :: x in summaries ==> x.resultDir != dir
  {
    var init, k := order[..|order| - 1], order[|order| - 1];
    forall x | x in summaries
      ensures x.resultDir != dir
    {
      var j :| 0 <= j < |init| && DirIn(x, n, init, j, at);
      assert order[j] != k;
      SlashedApart(at, n.children[order[j]].key, n.children[k].key);
    }
  }

  lemma AddReported(tables: Tables, s: Summary, key: string, below: Summary)
    requires key != SummaryKey && Lists(s) && multiset(Reported(below)) == multiset(Filter(below.cases, HasRun()))
    requires forall x :: x in s.children ==> x.resultDir != below.resultDir
    ensures var more := Add(tables, s, key, Some(below));
            Lists(more) && forall x :: x in more.children <==> x in s.children || x == below
  {
    PutReported(tables, s.children, below);
    PutArranges(tables, s.children, below);
    FilterAppend(s.cases, below.cases, HasRun());
  }
}
