/**
 The restart workload and its oracle: keys inserted and then moved by many clients, applied on the
 slave in any order that keeps each key's, some of it again, and what the comparison can see of that.
 */
module RestartWorkload {
  import opened Prelude

  const Stride := 10_000_000
  const Shift := 5_000_000
  const MaxClients := 20
  const MaxIters := 100_000

  /** Key i of client c. */
  datatype Id = Id(c: nat, i: nat)

  function Fresh(id: Id): nat {
    id.c * Stride + id.i
  }

  function Moved(id: Id): nat {
    Fresh(id) + Shift
  }

  predicate IsUnmoved(key: nat) {
    key % Stride < Shift
  }

  predicate Numbered(iters: nat, id: Id) {
    1 <= id.c && 1 <= id.i <= iters
  }

  /** The keys the query and the scripts write out. */
  lemma KeysAre(id: Id)
    ensures Fresh(id) == id.c * 10_000_000 + id.i && Moved(id) == id.c * 10_000_000 + 5_000_000 + id.i
  {}

  /** No key of one client is another's, nor a moved one a fresh one, exactly while i is no more than the shift. */
  ghost predicate KeysApart(iters: nat) {
    forall a, b :: Numbered(iters, a) && Numbered(iters, b) ==>
                     (Fresh(a) == Fresh(b) ==> a == b) && (Moved(a) == Moved(b) ==> a == b) && Fresh(a) != Moved(b)
  }

  lemma KeysApartExactly(iters: nat)
    ensures KeysApart(iters) <==> iters <= Shift
  {
    if iters > Shift {
      var a, b := Id(1, Shift + 1), Id(1, 1);
      assert Numbered(iters, a) && Numbered(iters, b) && Fresh(a) == Moved(b);
    }
  }

  /** The query tells the fresh keys from the moved ones exactly while i stays under the shift. */
  lemma UnmovedExactly(iters: nat)
    ensures (forall id :: Numbered(iters, id) ==> IsUnmoved(Fresh(id)) && !IsUnmoved(Moved(id))) <==> iters < Shift
  {
    if iters >= Shift {
      var id := Id(1, Shift);
      assert Numbered(iters, id) && !IsUnmoved(Fresh(id));
    }
  }

  /** Within the caps of the command line both hold, and every key fits the column. */
  lemma WithinCaps(clients: nat, iters: nat)
    requires clients <= MaxClients && iters <= MaxIters
    ensures KeysApart(iters)
    ensures forall id :: Numbered(iters, id) && id.c <= clients ==> Moved(id) < 0x8000_0000
  {
    KeysApartExactly(iters);
  }

  // ---- the script ---------------------------------------------------------

  datatype Op = Insert(id: Id) | Move(id: Id)

  /** Client c's transactions: each key inserted, then moved. */
  function Script(c: nat, iters: nat): seq<Op> {
    if iters == 0 then [] else Script(c, iters - 1) + [Insert(Id(c, iters)), Move(Id(c, iters))]
  }

  method RestartScript(c: nat, iters: nat) returns (out: seq<Op>)
    ensures out == Script(c, iters)
  {
    out := [];
    for i := 1 to iters + 1
      invariant out == Script(c, i - 1)
    {
      out := out + [Insert(Id(c, i)), Move(Id(c, i))];
    }
  }

  lemma {:induction false} ScriptAt(c: nat, iters: nat)
    ensures |Script(c, iters)| == 2 * iters
    ensures forall j :: 0 <= j < 2 * iters ==>
                          Script(c, iters)[j] == if j % 2 == 0 then Insert(Id(c, j / 2 + 1)) else Move(Id(c, j / 2 + 1))
  {
    if iters > 0 {
      ScriptAt(c, iters - 1);
    }
  }

  predicate IsOf(c: nat, op: Op) {
    op.id.c == c
  }

  function OfClient(c: nat): Op -> bool {
    (op: Op) => IsOf(c, op)
  }

  /** The scripts of the clients applied once, in any order that keeps each client's own. */
  ghost predicate Interleaving(clients: nat, iters: nat, ops: seq<Op>) {
    && (forall op :: op in ops ==> 1 <= op.id.c <= clients)
    && forall c: nat :: 1 <= c <= clients ==> Filter(ops, OfClient(c)) == Script(c, iters)
  }

  // ---- applying -----------------------------------------------------------

  /** The slave's table, and how often a key it already had was refused. */
  datatype Slave = Slave(table: map<nat, Id>, dups: nat)

  function Apply(s: Slave, op: Op): Slave {
    var from, to := Fresh(op.id), Moved(op.id);
    match op
    case Insert(id) => if from in s.table then s.(dups := s.dups + 1) else s.(table := s.table[from := id])
    case Move(id) =>
      if from !in s.table then s
      else if to in s.table then s.(dups := s.dups + 1)
      else s.(table := (s.table - {from})[to := s.table[from]])
  }

  function Run(ops: seq<Op>): Slave {
    if ops == [] then Slave(map[], 0) else Apply(Run(ops[..|ops| - 1]), ops[|ops| - 1])
  }

  /** Each key is inserted before it is moved for the first time. */
  ghost predicate InsertedFirst(ops: seq<Op>) {
    forall n :: 0 <= n < |ops| && ops[n].Move? ==> Insert(ops[n].id) in ops[..n]
  }

  ghost predicate Within(clients: nat, iters: nat, ops: seq<Op>) {
    forall op :: op in ops ==> Numbered(iters, op.id) && op.id.c <= clients
  }

  /** Everything the scripts say, at least once, and nothing else. */
  ghost predicate Schedule(clients: nat, iters: nat, ops: seq<Op>) {
    && Within(clients, iters, ops) && InsertedFirst(ops)
    && forall id :: Numbered(iters, id) && id.c <= clients ==> Insert(id) in ops && Move(id) in ops
  }

  /** How often the key was inserted. */
  function Inserts(ops: seq<Op>, id: Id): nat {
    multiset(ops)[Insert(id)]
  }

  /** Where one key is, when nothing was refused. */
  ghost predicate KeyAt(s: Slave, inserts: nat, moved: bool, id: Id) {
    && inserts <= 2 && (inserts == 2 ==> moved) && (moved ==> inserts > 0)
    && (Moved(id) in s.table <==> moved)
    && (Fresh(id) in s.table <==> inserts > if moved then 1 else 0)
  }

  lemma Split(ops: seq<Op>)
    requires ops != []
    ensures var rest, last := ops[..|ops| - 1], ops[|ops| - 1];
            ops == rest + [last] && Run(ops) == Apply(Run(rest), last)
    ensures InsertedFirst(ops) ==> InsertedFirst(ops[..|ops| - 1])
  {
    var rest := ops[..|ops| - 1];
    if InsertedFirst(ops) {
      forall n | 0 <= n < |rest| && rest[n].Move?
        ensures Insert(rest[n].id) in rest[..n]
      {
        assert ops[n] == rest[n] && ops[..n] == rest[..n];
      }
    }
  }

  lemma StepKey(s: Slave, op: Op, inserts: nat, moved: bool, id: Id, iters: nat)
    requires iters <= Shift && Numbered(iters, op.id) && Numbered(iters, id)
    requires KeyAt(s, inserts, moved, id) && Apply(s, op).dups == s.dups
    requires op == Move(id) ==> inserts > 0
    ensures KeyAt(Apply(s, op), if op == Insert(id) then inserts + 1 else inserts, moved || op == Move(id), id)
  {
    KeysApartExactly(iters);
  }

  /** With nothing refused, a key is where its inserts and moves say. */
  lemma {:induction false} KeyIs(ops: seq<Op>, id: Id, clients: nat, iters: nat)
    requires iters <= Shift && Within(clients, iters, ops) && InsertedFirst(ops) && Numbered(iters, id)
    requires Run(ops).dups == 0
    ensures KeyAt(Run(ops), Inserts(ops, id), Move(id) in ops, id)
  {
    if ops != [] {
      Split(ops);
      var rest, last := ops[..|ops| - 1], ops[|ops| - 1];
      assert forall op :: op in rest ==> op in ops;
      assert last in ops;
      KeyIs(rest, id, clients, iters);
      StepKey(Run(rest), last, Inserts(rest, id), Move(id) in rest, id, iters);
      assert Inserts(ops, id) == if last == Insert(id) then Inserts(rest, id) + 1 else Inserts(rest, id);
    }
  }

  /** Moves applied again are not refused: only a second insert is. */
  lemma {:induction false} NothingRefused(ops: seq<Op>, clients: nat, iters: nat)
    requires iters <= Shift && Within(clients, iters, ops) && InsertedFirst(ops)
    requires forall id :: Inserts(ops, id) <= 1
    ensures Run(ops).dups == 0
  {
    if ops != [] {
      Split(ops);
      var rest, last := ops[..|ops| - 1], ops[|ops| - 1];
      assert forall op :: op in rest ==> op in ops;
      assert last in ops;
      forall id
        ensures Inserts(rest, id) <= 1
        ensures last == Insert(id) ==> Inserts(rest, id) == 0
      {
        assert Inserts(ops, id) == if last == Insert(id) then Inserts(rest, id) + 1 else Inserts(rest, id);
      }
      NothingRefused(rest, clients, iters);
      KeyIs(rest, last.id, clients, iters);
    }
  }

  /** Every row is a key of an operation applied, and carries its client and number. */
  ghost predicate RowsOf(s: Slave, ops: seq<Op>) {
    forall key :: key in s.table ==> Insert(s.table[key]) in ops && key in {Fresh(s.table[key]), Moved(s.table[key])}
  }

  lemma {:induction false} RowsAre(ops: seq<Op>, clients: nat, iters: nat)
    requires iters <= Shift && Within(clients, iters, ops)
    ensures RowsOf(Run(ops), ops)
  {
    if ops != [] {
      Split(ops);
      var rest, last := ops[..|ops| - 1], ops[|ops| - 1];
      assert forall op :: op in rest ==> op in ops;
      assert last in ops;
      RowsAre(rest, clients, iters);
      KeysApartExactly(iters);
      var s := Run(rest);
      if last.Move? && Fresh(last.id) in s.table {
        assert Insert(s.table[Fresh(last.id)]) in ops;
        assert s.table[Fresh(last.id)] == last.id;
      }
    }
  }

  // ---- the table at the end -----------------------------------------------

  function MovedBy(c: nat, iters: nat): set<nat> {
    if iters == 0 then {} else MovedBy(c, iters - 1) + {Moved(Id(c, iters))}
  }

  function AllMoved(clients: nat, iters: nat): set<nat> {
    if clients == 0 then {} else AllMoved(clients - 1, iters) + MovedBy(clients, iters)
  }

  ghost predicate MovedOf(clients: nat, iters: nat, key: nat) {
    exists id :: Numbered(iters, id) && id.c <= clients && key == Moved(id)
  }

  lemma {:induction false} MovedBySize(c: nat, iters: nat)
    ensures |MovedBy(c, iters)| == iters
  {
    if iters > 0 {
      MovedBySize(c, iters - 1);
      InMovedBy(c, iters - 1, Moved(Id(c, iters)));
    }
  }

  lemma {:induction false} InMovedBy(c: nat, iters: nat, key: nat)
    ensures key in MovedBy(c, iters) <==> exists i: nat :: 1 <= i <= iters && key == Moved(Id(c, i))
  {
    if iters > 0 {
      InMovedBy(c, iters - 1, key);
    }
  }

  lemma {:induction false} InAllMoved(clients: nat, iters: nat, key: nat)
    ensures key in AllMoved(clients, iters) <==> MovedOf(clients, iters, key)
  {
    if clients > 0 {
      InAllMoved(clients - 1, iters, key);
      InMovedBy(clients, iters, key);
      MovedOfMore(clients, iters, key);
    }
  }

  lemma MovedOfMore(clients: nat, iters: nat, key: nat)
    requires clients > 0
    ensures MovedOf(clients, iters, key) <==>
            MovedOf(clients - 1, iters, key) || exists i: nat :: 1 <= i <= iters && key == Moved(Id(clients, i))
  {
    if MovedOf(clients, iters, key) {
      var id :| Numbered(iters, id) && id.c <= clients && key == Moved(id);
      assert id == Id(id.c, id.i);
    }
    if i: nat :| 1 <= i <= iters && key == Moved(Id(clients, i)) {
      assert Numbered(iters, Id(clients, i));
    }
  }

  lemma OtherClient(clients: nat, iters: nat, key: nat)
    requires iters <= Shift && clients > 0 && key in AllMoved(clients - 1, iters)
    ensures key !in MovedBy(clients, iters)
  {
    InAllMoved(clients - 1, iters, key);
    InMovedBy(clients, iters, key);
    var id :| Numbered(iters, id) && id.c <= clients - 1 && key == Moved(id);
    forall i: nat | 1 <= i <= iters
      ensures key != Moved(Id(clients, i))
    {
      KeysApartExactly(iters);
      assert Numbered(iters, Id(clients, i));
    }
  }

  lemma {:induction false} AllMovedSize(clients: nat, iters: nat)
    requires iters <= Shift
    ensures |AllMoved(clients, iters)| == clients * iters
  {
    if clients > 0 {
      AllMovedSize(clients - 1, iters);
      MovedBySize(clients, iters);
      var a, b := AllMoved(clients - 1, iters), MovedBy(clients, iters);
      forall key | key in a
        ensures key !in b
      {
        OtherClient(clients, iters, key);
      }
      DisjointSizes(a, b);
      assert clients * iters == (clients - 1) * iters + iters;
    }
  }

  lemma DisjointSizes<T>(a: set<T>, b: set<T>)
    requires forall x :: x in a ==> x !in b
    ensures |a + b| == |a| + |b|
  {
    assert a !! b;
  }

  function Unmoved(table: map<nat, Id>): set<nat> {
    set key | key in table && IsUnmoved(key)
  }

  /** The keys inserted more than once, where they were inserted. */
  function Again(ops: seq<Op>): set<nat> {
    set op | op in ops && Inserts(ops, op.id) > 1 :: Fresh(op.id)
  }

  lemma EndKey(ops: seq<Op>, clients: nat, iters: nat, key: nat)
    requires iters <= Shift && Schedule(clients, iters, ops) && Run(ops).dups == 0
    ensures key in Run(ops).table <==> key in AllMoved(clients, iters) || key in Again(ops)
    ensures key in Again(ops) ==> exists id :: Numbered(iters, id) && key == Fresh(id)
  {
    InAllMoved(clients, iters, key);
    RowsAre(ops, clients, iters);
    if key in Run(ops).table {
      var id := Run(ops).table[key];
      assert Insert(id) in ops;
      KeyIs(ops, id, clients, iters);
      KeysApartExactly(iters);
      assert key == Fresh(id) ==> key in Again(ops);
    }
    if MovedOf(clients, iters, key) {
      var id :| Numbered(iters, id) && id.c <= clients && key == Moved(id);
      KeyIs(ops, id, clients, iters);
    }
    if key in Again(ops) {
      var op :| op in ops && Inserts(ops, op.id) > 1 && key == Fresh(op.id);
      KeyIs(ops, op.id, clients, iters);
      assert Numbered(iters, op.id);
    }
  }

  /** With nothing refused the table is the moved keys, and besides them each key inserted again. */
  lemma AtTheEnd(ops: seq<Op>, clients: nat, iters: nat)
    requires iters < Shift && Schedule(clients, iters, ops) && Run(ops).dups == 0
    ensures Run(ops).table.Keys == AllMoved(clients, iters) + Again(ops)
    ensures Unmoved(Run(ops).table) == Again(ops)
    ensures |Run(ops).table| == clients * iters + |Again(ops)|
  {
    EndKeys(ops, clients, iters);
    AllMovedSize(clients, iters);
    assert |Run(ops).table| == |Run(ops).table.Keys|;
  }

  lemma EndKeys(ops: seq<Op>, clients: nat, iters: nat)
    requires iters < Shift && Schedule(clients, iters, ops) && Run(ops).dups == 0
    ensures Run(ops).table.Keys == AllMoved(clients, iters) + Again(ops) && AllMoved(clients, iters) !! Again(ops)
    ensures Unmoved(Run(ops).table) == Again(ops)
  {
    var table, all, again := Run(ops).table, AllMoved(clients, iters), Again(ops);
    UnmovedExactly(iters);
    forall key
      ensures key in table <==> key in all || key in again
      ensures key in all ==> !IsUnmoved(key)
      ensures key in again ==> IsUnmoved(key)
    {
      EndKey(ops, clients, iters, key);
      InAllMoved(clients, iters, key);
    }
    assert all !! again;
    assert table.Keys == all + again;
    assert Unmoved(table) == again;
  }

  // ---- applied once -------------------------------------------------------

  lemma {:induction false} FilterOrder<T>(s: seq<T>, p: T -> bool, m: nat, n: nat)
    requires m < n < |s| && p(s[m]) && p(s[n])
    ensures exists a, b :: 0 <= a < b < |Filter(s, p)| && Filter(s, p)[a] == s[m] && Filter(s, p)[b] == s[n]
  {
    var rest := Filter(s[1..], p);
    if m > 0 {
      FilterOrder(s[1..], p, m - 1, n - 1);
      var a, b :| 0 <= a < b < |rest| && rest[a] == s[m] && rest[b] == s[n];
      var d := |Filter(s, p)| - |rest|;
      assert Filter(s, p)[a + d] == s[m] && Filter(s, p)[b + d] == s[n];
    } else {
      assert s[n] == s[1..][n - 1] && s[1..][n - 1] in s[1..];
      InFilter(s[1..], p, s[n]);
      var b :| 0 <= b < |rest| && rest[b] == s[n];
      assert Filter(s, p)[0] == s[m] && Filter(s, p)[b + 1] == s[n];
    }
  }

  /** Each client's transactions come in the order of its script, and no two are the same. */
  lemma ScriptOrder(clients: nat, iters: nat, ops: seq<Op>, m: nat, n: nat)
    requires Interleaving(clients, iters, ops) && m < n < |ops| && ops[m].id.c == ops[n].id.c
    ensures ops[m].id.i < ops[n].id.i || (ops[m].id == ops[n].id && ops[m].Insert? && ops[n].Move?)
  {
    var c := ops[m].id.c;
    assert ops[m] in ops;
    FilterOrder(ops, OfClient(c), m, n);
    var f := Filter(ops, OfClient(c));
    var a, b :| 0 <= a < b < |f| && f[a] == ops[m] && f[b] == ops[n];
    ScriptAt(c, iters);
  }

  lemma ScriptHas(c: nat, iters: nat, op: Op)
    requires op.id.c == c
    ensures op in Script(c, iters) <==> 1 <= op.id.i <= iters
  {
    ScriptAt(c, iters);
    if 1 <= op.id.i <= iters {
      var j := 2 * (op.id.i - 1) + if op.Insert? then 0 else 1;
      assert Script(c, iters)[j] == op;
    }
  }

  lemma InInterleaving(clients: nat, iters: nat, ops: seq<Op>, op: Op)
    requires Interleaving(clients, iters, ops)
    ensures op in ops <==> Numbered(iters, op.id) && op.id.c <= clients
  {
    var c := op.id.c;
    if 1 <= c <= clients {
      InFilter(ops, OfClient(c), op);
      ScriptHas(c, iters, op);
    }
  }

  lemma {:induction false} OnceInMultiset<T>(s: seq<T>, x: T)
    requires NoDup(s)
    ensures multiset(s)[x] <= 1
  {
    if s != [] {
      var rest := s[..|s| - 1];
      assert s == rest + [s[|s| - 1]];
      assert forall k :: 0 <= k < |rest| ==> rest[k] == s[k];
      OnceInMultiset(rest, x);
    }
  }

  lemma OnceIsSchedule(clients: nat, iters: nat, ops: seq<Op>)
    requires Interleaving(clients, iters, ops)
    ensures Schedule(clients, iters, ops) && forall id :: Inserts(ops, id) <= 1
  {
    forall op
      ensures op in ops <==> Numbered(iters, op.id) && op.id.c <= clients
    {
      InInterleaving(clients, iters, ops, op);
    }
    forall n | 0 <= n < |ops| && ops[n].Move?
      ensures Insert(ops[n].id) in ops[..n]
    {
      assert ops[n] in ops;
      var m :| 0 <= m < |ops| && ops[m] == Insert(ops[n].id);
      if n < m {
        ScriptOrder(clients, iters, ops, n, m);
      }
      assert ops[..n][m] == ops[m];
    }
    forall m, n | 0 <= m < n < |ops|
      ensures ops[m] != ops[n]
    {
      if ops[m] == ops[n] {
        ScriptOrder(clients, iters, ops, m, n);
      }
    }
    forall id
      ensures Inserts(ops, id) <= 1
    {
      OnceInMultiset(ops, Insert(id));
    }
  }

  lemma NoneAgain(ops: seq<Op>)
    requires forall id :: Inserts(ops, id) <= 1
    ensures Again(ops) == {}
  {}

  /** Applied once, in any interleaving, the scripts leave a row for each key, all of them moved. */
  lemma AppliedOnce(clients: nat, iters: nat, ops: seq<Op>)
    requires iters < Shift && Interleaving(clients, iters, ops)
    ensures Run(ops).dups == 0 && |Run(ops).table| == clients * iters && Unmoved(Run(ops).table) == {}
    ensures Run(ops).table.Keys == AllMoved(clients, iters)
  {
    OnceIsSchedule(clients, iters, ops);
    NothingRefused(ops, clients, iters);
    NoneAgain(ops);
    AtTheEnd(ops, clients, iters);
  }

  // ---- the verdict --------------------------------------------------------

  /** What a query reads of a node's table: its rows, the sum of its keys, the keys not moved. */
  datatype Reading = Reading(rows: nat, sum: string, unmoved: nat)

  datatype Outcome =
    Outcome(kills: nat, backlog: int, stalled: bool, master: Reading, slave: Reading, failDelta: int, dup670: int)

  datatype Verdict = Held | Missed | Inconclusive

  function JudgeRestart(o: Outcome): Verdict {
    if o.failDelta != 0 || o.dup670 > 0 || (!o.stalled && o.master != o.slave) then Missed
    else if o.stalled || o.kills == 0 || o.backlog < 1 || o.dup670 < 0 then Inconclusive
    else Held
  }

  /** The refusals the log shows: the gain, or -1 when the log lost lines and did not gain. */
  function Logged(gain: int, lost: bool): int {
    if lost && gain <= 0 then -1 else gain
  }

  ghost predicate LogOf(dup670: int, dups: nat) {
    exists gain, lost :: dup670 == Logged(gain, lost) && if lost then gain <= dups else gain == dups
  }

  function Read(table: map<nat, Id>, sum: set<nat> -> string): Reading {
    Reading(|table|, sum(table.Keys), |Unmoved(table)|)
  }

  /** The outcome of a run whose master applied the scripts once and whose slave, unless it stalled, applied ops. */
  ghost predicate Observed(o: Outcome, clients: nat, iters: nat, once: seq<Op>, ops: seq<Op>, sum: set<nat> -> string) {
    && Interleaving(clients, iters, once) && o.master == Read(Run(once).table, sum)
    && (!o.stalled ==>
          && Schedule(clients, iters, ops) && o.slave == Read(Run(ops).table, sum)
          && LogOf(o.dup670, Run(ops).dups))
  }

  ghost predicate InsertedAgain(ops: seq<Op>) {
    exists id :: Inserts(ops, id) > 1
  }

  lemma SlaveTable(clients: nat, iters: nat, ops: seq<Op>)
    requires iters < Shift && Schedule(clients, iters, ops)
    ensures !InsertedAgain(ops) ==> Run(ops).dups == 0 && Run(ops).table.Keys == AllMoved(clients, iters)
    ensures !InsertedAgain(ops) ==> |Run(ops).table| == clients * iters && Unmoved(Run(ops).table) == {}
    ensures InsertedAgain(ops) && Run(ops).dups == 0 ==>
              |Run(ops).table| > clients * iters && |Unmoved(Run(ops).table)| == |Run(ops).table| - clients * iters
  {
    if !InsertedAgain(ops) {
      NothingRefused(ops, clients, iters);
      NoneAgain(ops);
    }
    if Run(ops).dups == 0 {
      AtTheEnd(ops, clients, iters);
      if InsertedAgain(ops) {
        var id :| Inserts(ops, id) > 1;
        assert Insert(id) in ops;
        assert Fresh(id) in Again(ops);
      }
    }
  }

  /** An INSERT applied again is a refusal, or a row too many that is not moved: the run is never held. */
  lemma NeverHeld(o: Outcome, clients: nat, iters: nat, once: seq<Op>, ops: seq<Op>, sum: set<nat> -> string)
    requires iters < Shift && Observed(o, clients, iters, once, ops, sum) && InsertedAgain(ops)
    ensures JudgeRestart(o) != Held
    ensures !o.stalled && o.dup670 >= 0 ==> JudgeRestart(o) == Missed
  {
    if !o.stalled {
      AppliedOnce(clients, iters, once);
      SlaveTable(clients, iters, ops);
    }
  }

  /** What each verdict asks for: missed comes first, and held is what is left. */
  lemma VerdictsExactly(o: Outcome, clients: nat, iters: nat, once: seq<Op>, ops: seq<Op>, sum: set<nat> -> string)
    requires iters < Shift && Observed(o, clients, iters, once, ops, sum)
    ensures o.failDelta != 0 || o.dup670 > 0 ==> JudgeRestart(o) == Missed
    ensures o.stalled && o.failDelta == 0 && o.dup670 <= 0 ==> JudgeRestart(o) == Inconclusive
    ensures JudgeRestart(o) == Missed ==> o.failDelta != 0 || o.dup670 > 0 || (!o.stalled && InsertedAgain(ops))
    ensures !o.stalled && !InsertedAgain(ops) && o.failDelta == 0 ==>
              (JudgeRestart(o) == Held <==> o.kills > 0 && o.backlog >= 1 && o.dup670 == 0) &&
              (JudgeRestart(o) == Inconclusive <==> o.kills == 0 || o.backlog < 1 || o.dup670 < 0)
  {
    if !o.stalled {
      HeldExactly(o, clients, iters, once, ops, sum);
      SlaveTable(clients, iters, ops);
    }
  }

  /**
   Of a slave that caught up, held says that no INSERT was applied again, and no more: moves applied again
   are not seen.
   */
  lemma HeldExactly(o: Outcome, clients: nat, iters: nat, once: seq<Op>, ops: seq<Op>, sum: set<nat> -> string)
    requires iters < Shift && Observed(o, clients, iters, once, ops, sum) && !o.stalled
    ensures JudgeRestart(o) == Held <==>
            !InsertedAgain(ops) && o.failDelta == 0 && o.kills > 0 && o.backlog >= 1 && o.dup670 >= 0
    ensures JudgeRestart(o) == Missed ==> InsertedAgain(ops) || o.failDelta != 0
  {
    AppliedOnce(clients, iters, once);
    SlaveTable(clients, iters, ops);
    if InsertedAgain(ops) {
      NeverHeld(o, clients, iters, once, ops, sum);
    }
  }
}
