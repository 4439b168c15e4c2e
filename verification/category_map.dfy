/** The category map of a run, as its cases are recorded: a level for each name on a path, and the cases at its end. */
module CategoryMap {
  import opened Prelude
  import opened SummaryTree

  function HasKey(key: string): Child -> bool {
    (c: Child) => c.key == key
  }

  const Bare := Node(None, [])

  /** What becomes of a level's table when it is put a name it does not have. */
  type Room = (seq<Child>, Child) -> seq<Child>

  /** The level below a name, made when there is none. */
  function LevelBelow(n: Node, key: string): Node {
    match FirstIndex(n.children, HasKey(key))
    case Some(i) => n.children[i].node
    case None => Bare
  }

  function PutBelow(room: Room, n: Node, key: string, below: Node): Node {
    match FirstIndex(n.children, HasKey(key))
    case Some(i) => n.(children := n.children[i := Child(key, below)])
    case None => n.(children := Arranged(room(n.children, Child(key, below)), n.children + [Child(key, below)]))
  }

  /** A case recorded at the end of a path of names, whose directory is dir. */
  function Record(room: Room, n: Node, keys: seq<string>, dir: string, c: Case): Node
    decreases |keys|
  {
    if keys != [] then PutBelow(room, n, keys[0], Record(room, LevelBelow(n, keys[0]), keys[1..], dir, c))
    else if n.bottom.None? then n.(bottom := Some(Bottom(dir, [c])))
    else n.(bottom := Some(n.bottom.value.(cases := n.bottom.value.cases + [c])))
  }

  predicate Nameable(keys: seq<string>) {
    forall k :: 0 <= k < |keys| ==> Proper(keys[k])
  }

  lemma PutBelowKeys(room: Room, n: Node, key: string, below: Node)
    requires Keyed(n) && Proper(key)
    ensures Keyed(PutBelow(room, n, key, below)) && PutBelow(room, n, key, below).bottom == n.bottom
    ensures PutBelow(room, n, key, below).children != []
  {
    if FirstIndex(n.children, HasKey(key)).None? {
      var all := n.children + [Child(key, below)];
      KeyedArranged(PutBelow(room, n, key, below), n.(children := all));
    }
  }

  /** Names are each once in any arrangement of a level. */
  lemma KeyedArranged(n: Node, m: Node)
    requires multiset(n.children) == multiset(m.children) && Keyed(m)
    ensures Keyed(n) && |n.children| == |m.children|
  {
    ArrangedMembers(n.children, m.children);
    assert NoDup(m.children);
    ArrangedNoDup(n.children, m.children);
    forall i | 0 <= i < |n.children|
      ensures Proper(n.children[i].key)
    {
      assert n.children[i] in m.children;
    }
    forall i, j | 0 <= i < j < |n.children|
      ensures n.children[i].key != n.children[j].key
    {
      assert n.children[i] in m.children && n.children[j] in m.children;
      assert n.children[i] != n.children[j];
    }
  }

  lemma PutBelowMembers(room: Room, n: Node, key: string, below: Node, x: Child)
    requires Keyed(n)
    ensures x in PutBelow(room, n, key, below).children <==> x == Child(key, below) || (x in n.children && x.key != key)
  {
    var at := FirstIndex(n.children, HasKey(key));
    if at.Some? {
      Updated(n.children, at.value, Child(key, below), x);
      if x in n.children && x.key != key {
        var k :| 0 <= k < |n.children| && n.children[k] == x;
      }
    } else {
      ArrangedMembers(PutBelow(room, n, key, below).children, n.children + [Child(key, below)]);
    }
  }

  lemma Updated<T>(s: seq<T>, i: nat, y: T, x: T)
    requires i < |s|
    ensures x in s[i := y] <==> x == y || exists k :: 0 <= k < |s| && k != i && s[k] == x
  {
    var t := s[i := y];
    assert t[i] == y;
    if k :| 0 <= k < |s| && k != i && s[k] == x {
      assert t[k] == x;
    }
  }

  /** Recording a case keeps every level where its path is. */
  lemma {:induction false} RecordPlaced(room: Room, n: Node, at: seq<string>, keys: seq<string>, dir: string, c: Case)
    requires n == Bare || Placed(n, at)
    requires Nameable(keys) && dir == Slashed(at + keys)
    ensures Placed(Record(room, n, keys, dir, c), at)
    decreases |keys|
  {
    if keys == [] {
      assert at + keys == at;
    } else {
      var key, below := keys[0], LevelBelow(n, keys[0]);
      assert at + keys == at + [key] + keys[1..];
      if n.bottom.None? {
        RecordPlaced(room, below, at + [key], keys[1..], dir, c);
        PutBelowPlaced(room, n, at, key, Record(room, below, keys[1..], dir, c));
      }
    }
  }

  lemma PutBelowPlaced(room: Room, n: Node, at: seq<string>, key: string, below: Node)
    requires n == Bare || Placed(n, at)
    requires n.bottom.None? && Proper(key) && Placed(below, at + [key])
    ensures Placed(PutBelow(room, n, key, below), at)
  {
    PutBelowKeys(room, n, key, below);
    var more := PutBelow(room, n, key, below);
    forall i | 0 <= i < |more.children|
      ensures Placed(more.children[i].node, at + [more.children[i].key])
    {
      assert more.children[i] in more.children;
      PutBelowMembers(room, n, key, below, more.children[i]);
      if more.children[i] != Child(key, below) {
        var k :| 0 <= k < |n.children| && n.children[k] == more.children[i];
      }
    }
  }

  function CasesOf(n: Node): multiset<Case> {
    multiset(All(n))
  }

  /** Recording a case adds that case and loses none. */
  lemma {:induction false} RecordAll(room: Room, n: Node, keys: seq<string>, dir: string, c: Case)
    ensures CasesOf(Record(room, n, keys, dir, c)) == CasesOf(n) + multiset{c}
    decreases |keys|
  {
    if keys == [] {
      RecordHere(room, n, dir, c);
    } else {
      var below := LevelBelow(n, keys[0]);
      var more := Record(room, below, keys[1..], dir, c);
      RecordAll(room, below, keys[1..], dir, c);
      PutBelowAll(room, n, keys[0], more);
      assert Record(room, n, keys, dir, c) == PutBelow(room, n, keys[0], more);
      Cancel(CasesOf(PutBelow(room, n, keys[0], more)), CasesOf(below), CasesOf(n), CasesOf(more), multiset{c});
    }
  }

  lemma Cancel<T>(now: multiset<T>, below: multiset<T>, was: multiset<T>, more: multiset<T>, c: multiset<T>)
    requires now + below == was + more && more == below + c
    ensures now == was + c
  {
    assert now + below == was + c + below;
    assert now == now + below - below;
  }

  lemma RecordHere(room: Room, n: Node, dir: string, c: Case)
    ensures CasesOf(Record(room, n, [], dir, c)) == CasesOf(n) + multiset{c}
  {
    var cases, below := if n.bottom.Some? then n.bottom.value.cases else [], AllBelow(n.children);
    assert All(n) == cases + below;
    assert All(Record(room, n, [], dir, c)) == cases + [c] + below;
    AddOne(cases, below, c);
  }

  lemma AddOne<T>(a: seq<T>, b: seq<T>, c: T)
    ensures multiset(a + [c] + b) == multiset(a + b) + multiset{c}
  {
    assert multiset(a + [c] + b) == multiset(a) + multiset{c} + multiset(b);
  }

  lemma ChildReplaced(own: seq<Case>, a: seq<Child>, x: Child, y: Child, b: seq<Child>)
    ensures multiset(own + AllBelow(a + [y] + b)) + CasesOf(x.node) ==
            multiset(own + AllBelow(a + [x] + b)) + CasesOf(y.node)
  {
    AllBelowAround(a, x, b);
    AllBelowAround(a, y, b);
    Swapped(own, AllBelow(a), All(x.node), All(y.node), AllBelow(b));
  }

  lemma ChildAdded(own: seq<Case>, children: seq<Child>, y: Child, put: seq<Child>)
    requires multiset(put) == multiset(children + [y])
    ensures multiset(own + AllBelow(put)) == multiset(own + AllBelow(children)) + CasesOf(y.node)
  {
    AllBelowPermutes(put, children + [y]);
    AllBelowAppend(children, [y]);
    AllBelowOne(y);
    Gathered(own, AllBelow(put), AllBelow(children), All(y.node));
  }

  lemma Gathered<T>(own: seq<T>, now: seq<T>, was: seq<T>, more: seq<T>)
    requires multiset(now) == multiset(was + more)
    ensures multiset(own + now) == multiset(own + was) + multiset(more)
  {}

  lemma Swapped<T>(own: seq<T>, a: seq<T>, x: seq<T>, y: seq<T>, b: seq<T>)
    ensures multiset(own + (a + y + b)) + multiset(x) == multiset(own + (a + x + b)) + multiset(y)
  {
    assert multiset(own + (a + y + b)) == multiset(own) + multiset(a) + multiset(y) + multiset(b);
    assert multiset(own + (a + x + b)) == multiset(own) + multiset(a) + multiset(x) + multiset(b);
  }

  lemma Around<T>(s: seq<T>, i: nat, y: T)
    requires i < |s|
    ensures s == s[..i] + [s[i]] + s[i + 1..] && s[i := y] == s[..i] + [y] + s[i + 1..]
  {}

  function Own(n: Node): seq<Case> {
    if n.bottom.Some? then n.bottom.value.cases else []
  }

  lemma AllIs(n: Node)
    ensures CasesOf(n) == multiset(Own(n) + AllBelow(n.children))
  {}

  /** What is put below a name takes the place of what was. */
  lemma PutBelowAll(room: Room, n: Node, key: string, below: Node)
    ensures CasesOf(PutBelow(room, n, key, below)) + CasesOf(LevelBelow(n, key)) == CasesOf(n) + CasesOf(below)
  {
    var more := PutBelow(room, n, key, below);
    AllIs(n);
    AllIs(more);
    match FirstIndex(n.children, HasKey(key))
    case Some(i) =>
      Around(n.children, i, Child(key, below));
      ChildReplaced(Own(n), n.children[..i], n.children[i], Child(key, below), n.children[i + 1..]);
    case None =>
      ChildAdded(Own(n), n.children, Child(key, below), more.children);
      NoCases();
  }

  lemma NoCases()
    ensures CasesOf(Bare) == multiset{}
  {}

  lemma AllBelowAround(a: seq<Child>, child: Child, b: seq<Child>)
    ensures AllBelow(a + [child] + b) == AllBelow(a) + All(child.node) + AllBelow(b)
  {
    AllBelowAppend(a + [child], b);
    AllBelowAppend(a, [child]);
    AllBelowOne(child);
  }

  // ---- the paths of a map -------------------------------------------------

  /** The path leads to a directory of cases. */
  function HasBottom(n: Node, path: seq<string>): bool
    decreases |path|
  {
    if path == [] then n.bottom.Some? else HasBottom(LevelBelow(n, path[0]), path[1..])
  }

  lemma LevelIs(n: Node, child: Child)
    requires Keyed(n) && child in n.children
    ensures LevelBelow(n, child.key) == child.node
  {
    var k :| 0 <= k < |n.children| && n.children[k] == child;
  }

  lemma NoLevel(n: Node, key: string)
    requires forall child :: child in n.children ==> child.key != key
    ensures LevelBelow(n, key) == Bare
  {
    NoneFound(n.children, HasKey(key));
  }

  lemma {:induction false} BareEmpty(path: seq<string>)
    ensures !HasBottom(Bare, path)
    decreases |path|
  {
    if path != [] {
      NoLevel(Bare, path[0]);
      BareEmpty(path[1..]);
    }
  }

  /** What is put below a name is what stands there; the other levels are as they were. */
  lemma PutLevel(room: Room, n: Node, key: string, below: Node, other: string)
    requires Keyed(n) && Proper(key)
    ensures LevelBelow(PutBelow(room, n, key, below), other) == if other == key then below else LevelBelow(n, other)
  {
    var more := PutBelow(room, n, key, below);
    PutBelowKeys(room, n, key, below);
    if other == key {
      PutBelowMembers(room, n, key, below, Child(key, below));
      LevelIs(more, Child(key, below));
    } else {
      match FirstIndex(n.children, HasKey(other))
      case Some(i) =>
        PutBelowMembers(room, n, key, below, n.children[i]);
        LevelIs(more, n.children[i]);
      case None =>
        forall child | child in more.children
          ensures child.key != other
        {
          PutBelowMembers(room, n, key, below, child);
          if child in n.children {
            var k :| 0 <= k < |n.children| && n.children[k] == child;
          }
        }
        NoLevel(more, other);
    }
  }

  /** Every level has names, each once, and every directory of cases has one. */
  ghost predicate Grown(n: Node)
    decreases n
  {
    && Keyed(n) && (n.bottom.Some? ==> n.bottom.value.cases != [])
    && forall i :: 0 <= i < |n.children| ==> Grown(n.children[i].node)
  }

  lemma LevelGrown(n: Node, key: string)
    requires Grown(n)
    ensures Grown(LevelBelow(n, key))
  {}

  lemma {:induction false} RecordGrown(room: Room, n: Node, keys: seq<string>, dir: string, c: Case)
    requires Grown(n) && Nameable(keys)
    ensures Grown(Record(room, n, keys, dir, c))
    decreases |keys|
  {
    if keys != [] {
      var below := Record(room, LevelBelow(n, keys[0]), keys[1..], dir, c);
      LevelGrown(n, keys[0]);
      RecordGrown(room, LevelBelow(n, keys[0]), keys[1..], dir, c);
      PutBelowGrown(room, n, keys[0], below);
    }
  }

  lemma PutBelowGrown(room: Room, n: Node, key: string, below: Node)
    requires Grown(n) && Proper(key) && Grown(below)
    ensures Grown(PutBelow(room, n, key, below))
  {
    var more := PutBelow(room, n, key, below);
    PutBelowKeys(room, n, key, below);
    forall i | 0 <= i < |more.children|
      ensures Grown(more.children[i].node)
    {
      assert more.children[i] in more.children;
      PutBelowMembers(room, n, key, below, more.children[i]);
      if more.children[i] != Child(key, below) {
        var k :| 0 <= k < |n.children| && n.children[k] == more.children[i];
      }
    }
  }

  /** Recording a case adds its path to those that lead to cases. */
  lemma {:induction false} RecordPaths(room: Room, n: Node, keys: seq<string>, dir: string, c: Case, path: seq<string>)
    requires Grown(n) && Nameable(keys)
    ensures HasBottom(Record(room, n, keys, dir, c), path) <==> HasBottom(n, path) || path == keys
    decreases |keys|
  {
    if keys == [] {
      if path != [] {
        SameBelow(n, Record(room, n, keys, dir, c), path);
      }
    } else if path == [] {
      PutBelowKeys(room, n, keys[0], Record(room, LevelBelow(n, keys[0]), keys[1..], dir, c));
    } else {
      LevelGrown(n, keys[0]);
      SameHead(path, keys);
      RecordLevel(room, n, keys, dir, c, path);
      if path[0] == keys[0] {
        RecordPaths(room, LevelBelow(n, keys[0]), keys[1..], dir, c, path[1..]);
      }
    }
  }

  lemma SameHead<T>(a: seq<T>, b: seq<T>)
    requires a != [] && b != []
    ensures a == b <==> a[0] == b[0] && a[1..] == b[1..]
  {
    assert a == [a[0]] + a[1..] && b == [b[0]] + b[1..];
  }

  /** Where a path leads once a case is recorded below a name. */
  lemma RecordLevel(room: Room, n: Node, keys: seq<string>, dir: string, c: Case, path: seq<string>)
    requires Keyed(n) && Nameable(keys) && keys != [] && path != []
    ensures HasBottom(Record(room, n, keys, dir, c), path) ==
            if path[0] == keys[0] then HasBottom(Record(room, LevelBelow(n, keys[0]), keys[1..], dir, c), path[1..])
            else HasBottom(n, path)
  {
    PutLevel(room, n, keys[0], Record(room, LevelBelow(n, keys[0]), keys[1..], dir, c), path[0]);
  }

  lemma SameBelow(n: Node, m: Node, path: seq<string>)
    requires n.children == m.children && path != []
    ensures HasBottom(n, path) == HasBottom(m, path)
  {
    assert LevelBelow(n, path[0]) == LevelBelow(m, path[0]);
  }

  // ---- a run's cases ------------------------------------------------------

  /** A case and the names on its path, from the run's type down to its directory. */
  datatype Entry = Entry(keys: seq<string>, c: Case)

  predicate Earlier(entries: seq<Entry>, i: nat, file: string)
    requires i <= |entries|
  {
    exists k :: 0 <= k < i && entries[k].c.file == file
  }

  predicate Repeated(entries: seq<Entry>, i: nat)
    requires i < |entries|
  {
    Earlier(entries, i, entries[i].c.file)
  }

  /** The first case of each file, among the first n. */
  function Kept(entries: seq<Entry>, n: nat): seq<Case>
    requires n <= |entries|
  {
    if n == 0 then []
    else if Repeated(entries, n - 1) then Kept(entries, n - 1)
    else Kept(entries, n - 1) + [entries[n - 1].c]
  }

  /** Some case kept of the first n has this path. */
  ghost predicate PathOf(entries: seq<Entry>, n: nat, path: seq<string>)
    requires n <= |entries|
  {
    exists k :: 0 <= k < n && !Repeated(entries, k) && entries[k].keys == path
  }

  /**
   A name on the path is the table's own key, below a directory of cases: there the map has nothing to go
   down into.
   */
  function Blocked(n: Node, keys: seq<string>): bool
    decreases |keys|
  {
    keys != [] && ((n.bottom.Some? && keys[0] == SummaryKey) || Blocked(LevelBelow(n, keys[0]), keys[1..]))
  }

  ghost predicate PassesBottom(n: Node, keys: seq<string>, m: nat)
    requires m < |keys|
  {
    keys[m] == SummaryKey && HasBottom(n, keys[..m])
  }

  lemma {:induction false} BlockedExactly(n: Node, keys: seq<string>)
    ensures Blocked(n, keys) <==> exists m: nat :: m < |keys| && PassesBottom(n, keys, m)
    decreases |keys|
  {
    if keys != [] {
      var below, rest := LevelBelow(n, keys[0]), keys[1..];
      BlockedExactly(below, rest);
      forall m: nat | m < |keys|
        ensures PassesBottom(n, keys, m) <==>
                if m == 0 then n.bottom.Some? && keys[0] == SummaryKey else PassesBottom(below, rest, m - 1)
      {
        if m > 0 {
          assert keys[..m][0] == keys[0] && keys[..m][1..] == rest[..m - 1];
        }
      }
      if m: nat :| m < |rest| && PassesBottom(below, rest, m) {
        assert PassesBottom(n, keys, m + 1);
      }
      assert n.bottom.Some? && keys[0] == SummaryKey ==> PassesBottom(n, keys, 0);
    }
  }

  /**
   The map of the first n cases: levels at their paths, names each once, the cases kept, and no other path
   to cases.
   */
  ghost predicate MapOf(cat: Node, base: seq<string>, entries: seq<Entry>, n: nat)
    requires n <= |entries|
  {
    && (cat == Bare || Placed(cat, base)) && Grown(cat)
    && CasesOf(cat) == multiset(Kept(entries, n))
    && forall path :: HasBottom(cat, path) <==> PathOf(entries, n, path)
  }

  /** MapOf, for the loop: unfolded only where a step needs its parts. */
  ghost predicate Mapped(cat: Node, base: seq<string>, entries: seq<Entry>, n: nat)
    requires n <= |entries|
  {
    forall m: Node :: m == cat ==> MapOf(m, base, entries, n)
  }

  /** A case whose path goes on below an earlier case's directory by the table's own key. */
  ghost predicate Stops(entries: seq<Entry>, j: nat)
    requires j < |entries|
  {
    && !Repeated(entries, j)
    && exists m: nat :: m < |entries[j].keys| && entries[j].keys[m] == SummaryKey &&
                         PathOf(entries, j, entries[j].keys[..m])
  }

  lemma PathStep(entries: seq<Entry>, i: nat, path: seq<string>)
    requires i < |entries|
    ensures PathOf(entries, i + 1, path) <==>
            PathOf(entries, i, path) || (!Repeated(entries, i) && entries[i].keys == path)
  {}

  lemma BareMap(base: seq<string>, entries: seq<Entry>)
    ensures Mapped(Bare, base, entries, 0)
  {
    NoCases();
    forall path
      ensures !HasBottom(Bare, path)
    {
      BareEmpty(path);
    }
  }

  lemma SkippedOne(cat: Node, base: seq<string>, entries: seq<Entry>, i: nat)
    requires i < |entries| && Repeated(entries, i) && Mapped(cat, base, entries, i)
    ensures Mapped(cat, base, entries, i + 1)
  {
    assert MapOf(cat, base, entries, i);
    forall path
      ensures HasBottom(cat, path) <==> PathOf(entries, i + 1, path)
    {
      PathStep(entries, i, path);
    }
  }

  lemma RecordedOne(room: Room, cat: Node, base: seq<string>, entries: seq<Entry>, i: nat)
    requires i < |entries| && !Repeated(entries, i) && Nameable(entries[i].keys) && Mapped(cat, base, entries, i)
    ensures var e := entries[i];
            Mapped(Record(room, cat, e.keys, Slashed(base + e.keys), e.c), base, entries, i + 1)
  {
    assert MapOf(cat, base, entries, i);
    var e := entries[i];
    var dir := Slashed(base + e.keys);
    RecordPlaced(room, cat, base, e.keys, dir, e.c);
    RecordAll(room, cat, e.keys, dir, e.c);
    RecordGrown(room, cat, e.keys, dir, e.c);
    KeptMore(entries, i);
    forall path
      ensures HasBottom(Record(room, cat, e.keys, dir, e.c), path) <==> PathOf(entries, i + 1, path)
    {
      RecordPaths(room, cat, e.keys, dir, e.c, path);
      PathStep(entries, i, path);
    }
  }

  lemma KeptMore(entries: seq<Entry>, i: nat)
    requires i < |entries| && !Repeated(entries, i)
    ensures multiset(Kept(entries, i + 1)) == multiset(Kept(entries, i)) + multiset{entries[i].c}
  {}

  lemma StopsExactly(cat: Node, base: seq<string>, entries: seq<Entry>, i: nat)
    requires i < |entries| && !Repeated(entries, i) && Mapped(cat, base, entries, i)
    ensures Blocked(cat, entries[i].keys) <==> Stops(entries, i)
  {
    assert MapOf(cat, base, entries, i);
    var keys := entries[i].keys;
    BlockedExactly(cat, keys);
    forall m: nat | m < |keys|
      ensures PassesBottom(cat, keys, m) <==> keys[m] == SummaryKey && PathOf(entries, i, keys[..m])
    {}
  }

  /**
   The category map of a run in a directory: every level at its path, the first case of each file and no
   other; there is none exactly when some case's path goes on below an earlier one's by the table's own key.
   */
  method Build(room: Room, base: seq<string>, entries: seq<Entry>) returns (cat: Option<Node>)
    requires forall k :: 0 <= k < |entries| ==> Nameable(entries[k].keys)
    ensures cat.None? <==> exists j :: 0 <= j < |entries| && Stops(entries, j)
    ensures cat.Some? ==> MapOf(cat.value, base, entries, |entries|)
  {
    var root := Bare;
    BareMap(base, entries);
    var seen := {};
    for i := 0 to |entries|
      invariant Mapped(root, base, entries, i)
      invariant forall j :: 0 <= j < i ==> !Stops(entries, j)
      invariant forall k :: 0 <= k < i ==> entries[k].c.file in seen
      invariant forall file :: file in seen ==> Earlier(entries, i, file)
    {
      var e := entries[i];
      if e.c.file in seen {
        SkippedOne(root, base, entries, i);
      } else {
        seen := seen + {e.c.file};
        StopsExactly(root, base, entries, i);
        if Blocked(root, e.keys) {
          return None;
        }
        RecordedOne(room, root, base, entries, i);
        root := Record(room, root, e.keys, Slashed(base + e.keys), e.c);
      }
    }
    assert MapOf(root, base, entries, |entries|);
    cat := Some(root);
  }
}
