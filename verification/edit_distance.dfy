/**
 The edit distance with transposition that decides what is a typo.  The reference is the cheapest
 alignment of two strings; the three-row table computes it, and its value is 1 exactly when one
 edit turns one string into the other.
 */
module EditDistance {

  function Min(x: nat, y: nat): nat {
    if x < y then x else y
  }

  // ---- alignments ---------------------------------------------------------

  datatype Op = Match | Substitute | Insert | Delete | Swap

  /** How the front of one string is turned into the front of another, last operation last. */
  datatype Alignment = Nothing | Then(before: Alignment, op: Op)

  /** How many characters of each string an operation takes. */
  function Rows(op: Op): nat {
    match op
    case Insert => 0
    case Swap => 2
    case _ => 1
  }

  function Cols(op: Op): nat {
    match op
    case Delete => 0
    case Swap => 2
    case _ => 1
  }

  function OpCost(op: Op): nat {
    if op == Match then 0 else 1
  }

  /** The operation can be the last that turns the front of a into the front of b. */
  predicate Fits(op: Op, a: string, i: nat, b: string, j: nat)
    requires i <= |a| && j <= |b|
  {
    && Rows(op) <= i && Cols(op) <= j
    && (op == Match ==> a[i - 1] == b[j - 1])
    && (op == Swap ==> Crossed(a, i, b, j))
  }

  predicate Crossed(a: string, i: nat, b: string, j: nat)
    requires 1 < i <= |a| && 1 < j <= |b|
  {
    a[i - 1] == b[j - 2] && a[i - 2] == b[j - 1]
  }

  ghost predicate Aligns(s: Alignment, a: string, i: nat, b: string, j: nat)
    requires i <= |a| && j <= |b|
    decreases s
  {
    match s
    case Nothing => i == 0 && j == 0
    case Then(t, op) => Fits(op, a, i, b, j) && Aligns(t, a, i - Rows(op), b, j - Cols(op))
  }

  ghost function Cost(s: Alignment): nat {
    match s
    case Nothing => 0
    case Then(t, op) => Cost(t) + OpCost(op)
  }

  // ---- the recurrence -----------------------------------------------------

  /** The distance between the first i characters of a and the first j of b. */
  function Distance(a: string, i: nat, b: string, j: nat): nat
    requires i <= |a| && j <= |b|
    decreases i + j
  {
    if i == 0 then j
    else if j == 0 then i
    else
      var cost := if a[i - 1] == b[j - 1] then 0 else 1;
      var d := Min(Distance(a, i, b, j - 1) + 1,
                   Min(Distance(a, i - 1, b, j) + 1, Distance(a, i - 1, b, j - 1) + cost));
      if i > 1 && j > 1 && Crossed(a, i, b, j) then Min(d, Distance(a, i - 2, b, j - 2) + 1) else d
  }

  lemma FrontOfNothing(a: string, i: nat, b: string, j: nat)
    requires i <= |a| && j <= |b|
    ensures (i == 0 ==> Distance(a, i, b, j) == j) && (j == 0 ==> Distance(a, i, b, j) == i)
  {}

  lemma InsertAway(a: string, i: nat, b: string, j: nat)
    requires i <= |a| && 0 < j <= |b|
    ensures Distance(a, i, b, j) <= Distance(a, i, b, j - 1) + 1
  {}

  lemma DeleteAway(a: string, i: nat, b: string, j: nat)
    requires 0 < i <= |a| && j <= |b|
    ensures Distance(a, i, b, j) <= Distance(a, i - 1, b, j) + 1
  {}

  lemma DiagonalAway(a: string, i: nat, b: string, j: nat)
    requires 0 < i <= |a| && 0 < j <= |b|
    ensures Distance(a, i, b, j) <= Distance(a, i - 1, b, j - 1) + if a[i - 1] == b[j - 1] then 0 else 1
  {}

  lemma SwapAway(a: string, i: nat, b: string, j: nat)
    requires 1 < i <= |a| && 1 < j <= |b| && Crossed(a, i, b, j)
    ensures Distance(a, i, b, j) <= Distance(a, i - 2, b, j - 2) + 1
  {}

  lemma OneOpAway(a: string, i: nat, b: string, j: nat, op: Op)
    requires i <= |a| && j <= |b| && Fits(op, a, i, b, j)
    ensures Distance(a, i, b, j) <= Distance(a, i - Rows(op), b, j - Cols(op)) + OpCost(op)
  {
    match op
    case Insert => InsertAway(a, i, b, j);
    case Delete => DeleteAway(a, i, b, j);
    case Swap => SwapAway(a, i, b, j);
    case _ => DiagonalAway(a, i, b, j);
  }

  /** No alignment is cheaper than the distance. */
  lemma {:induction false} NoCheaper(s: Alignment, a: string, i: nat, b: string, j: nat)
    requires i <= |a| && j <= |b| && Aligns(s, a, i, b, j)
    ensures Distance(a, i, b, j) <= Cost(s)
    decreases s
  {
    if s.Then? {
      NoCheaper(s.before, a, i - Rows(s.op), b, j - Cols(s.op));
      OneOpAway(a, i, b, j, s.op);
    }
  }

  /** The last operation of a cheapest alignment. */
  lemma LastOp(a: string, i: nat, b: string, j: nat) returns (op: Op)
    requires i <= |a| && j <= |b| && i + j > 0
    ensures Fits(op, a, i, b, j) && Distance(a, i, b, j) == Distance(a, i - Rows(op), b, j - Cols(op)) + OpCost(op)
  {
    if i == 0 {
      FrontOfNothing(a, i, b, j);
      FrontOfNothing(a, i, b, j - 1);
      op := Insert;
    } else if j == 0 {
      FrontOfNothing(a, i, b, j);
      FrontOfNothing(a, i - 1, b, j);
      op := Delete;
    } else {
      op := LastOpInside(a, i, b, j);
    }
  }

  lemma LastOpInside(a: string, i: nat, b: string, j: nat) returns (op: Op)
    requires 0 < i <= |a| && 0 < j <= |b|
    ensures var d := Distance(a, i, b, j);
            match op
            case Insert => d == Distance(a, i, b, j - 1) + 1
            case Delete => d == Distance(a, i - 1, b, j) + 1
            case Swap => i > 1 && j > 1 && Crossed(a, i, b, j) && d == Distance(a, i - 2, b, j - 2) + 1
            case Match => a[i - 1] == b[j - 1] && d == Distance(a, i - 1, b, j - 1)
            case Substitute => d == Distance(a, i - 1, b, j - 1) + 1
  {
    var d := Distance(a, i, b, j);
    if d == Distance(a, i, b, j - 1) + 1 { return Insert; }
    if d == Distance(a, i - 1, b, j) + 1 { return Delete; }
    if i > 1 && j > 1 && Crossed(a, i, b, j) && d == Distance(a, i - 2, b, j - 2) + 1 { return Swap; }
    op := if a[i - 1] == b[j - 1] then Match else Substitute;
  }

  lemma ThenAligns(t: Alignment, op: Op, a: string, i: nat, b: string, j: nat, i': nat, j': nat)
    requires i <= |a| && j <= |b| && Fits(op, a, i, b, j)
    requires i' == i - Rows(op) && j' == j - Cols(op) && Aligns(t, a, i', b, j')
    ensures Aligns(Then(t, op), a, i, b, j) && Cost(Then(t, op)) == Cost(t) + OpCost(op)
  {}

  /** Some alignment costs the distance. */
  lemma {:induction false} Cheapest(a: string, i: nat, b: string, j: nat) returns (s: Alignment)
    requires i <= |a| && j <= |b|
    ensures Aligns(s, a, i, b, j) && Cost(s) == Distance(a, i, b, j)
    decreases i + j
  {
    if i + j == 0 {
      s := Nothing;
    } else {
      var op := LastOp(a, i, b, j);
      var t := Cheapest(a, i - Rows(op), b, j - Cols(op));
      s := Then(t, op);
      ThenAligns(t, op, a, i, b, j, i - Rows(op), j - Cols(op));
    }
  }

  /** The distance is the least cost of an alignment. */
  lemma DistanceIsLeastCost(a: string, b: string)
    ensures exists s :: Aligns(s, a, |a|, b, |b|) && Cost(s) == Distance(a, |a|, b, |b|)
    ensures forall s :: Aligns(s, a, |a|, b, |b|) ==> Distance(a, |a|, b, |b|) <= Cost(s)
  {
    var s := Cheapest(a, |a|, b, |b|);
    forall t | Aligns(t, a, |a|, b, |b|)
      ensures Distance(a, |a|, b, |b|) <= Cost(t)
    {
      NoCheaper(t, a, |a|, b, |b|);
    }
  }

  // ---- the table ----------------------------------------------------------

  ghost predicate IsRowAt(row: seq<int>, a: string, i: nat, b: string)
    requires i <= |a|
  {
    |row| == |b| + 1 && forall j :: 0 <= j <= |b| ==> row[j] == Distance(a, i, b, j)
  }

  /** Row i of the table: the distances from the first i characters of a. */
  ghost predicate IsRow(row: seq<int>, a: string, i: nat, b: string)
    requires i <= |a|
  {
    forall n: nat :: n == i ==> IsRowAt(row, a, n, b)
  }

  ghost function Row(a: string, i: nat, b: string): seq<int>
    requires i <= |a|
  {
    seq(|b| + 1, j requires 0 <= j <= |b| => Distance(a, i, b, j))
  }

  lemma RowStart(a: string, i: nat, b: string)
    requires i <= |a|
    ensures IsRow(Row(a, i, b), a, i, b)
    ensures |Row(a, i, b)| == |b| + 1 && Row(a, i, b)[0] == i
  {}

  lemma RowNext(a: string, i: nat, b: string, j: nat, prev2: seq<int>, prev: seq<int>, row: seq<int>)
    requires 0 < i <= |a| && 0 < j <= |b| && |prev2| == |prev| == |row| == |b| + 1
    requires IsRow(row, a, i, b) && IsRow(prev, a, i - 1, b) && (i > 1 ==> IsRow(prev2, a, i - 2, b))
    ensures var d := Min3(row[j - 1] + 1, prev[j] + 1, prev[j - 1] + if a[i - 1] == b[j - 1] then 0 else 1);
            row[j] == if i > 1 && j > 1 && Crossed(a, i, b, j) && prev2[j - 2] + 1 < d then prev2[j - 2] + 1 else d
  {
    assert IsRowAt(row, a, i, b) && IsRowAt(prev, a, i - 1, b);
    assert i > 1 ==> IsRowAt(prev2, a, i - 2, b);
  }

  /** One row of the table, from the two above it. */
  method FillRow(a: string, i: nat, b: string, prev2: array<int>, prev: array<int>, cur: array<int>)
    requires 0 < i <= |a| && cur != prev && cur != prev2
    requires prev2.Length == prev.Length == cur.Length == |b| + 1
    requires IsRow(prev[..], a, i - 1, b)
    requires i > 1 ==> IsRow(prev2[..], a, i - 2, b)
    modifies cur
    ensures IsRow(cur[..], a, i, b)
  {
    ghost var row := Row(a, i, b);
    RowStart(a, i, b);
    cur[0] := i;
    for j := 1 to |b| + 1
      invariant forall k :: 0 <= k < j ==> cur[k] == row[k]
    {
      RowNext(a, i, b, j, prev2[..], prev[..], row);
      var cost := if a[i - 1] == b[j - 1] then 0 else 1;
      cur[j] := Min3(cur[j - 1] + 1, prev[j] + 1, prev[j - 1] + cost);
      if i > 1 && j > 1 && Crossed(a, i, b, j) {
        if prev2[j - 2] + 1 < cur[j] { cur[j] := prev2[j - 2] + 1; }
      }
    }
    assert cur[..] == row;
  }

  function Min3(x: int, y: int, z: int): int {
    var m := if y < z then y else z;
    if x < m then x else m
  }

  method CopyRow(from: array<int>, to: array<int>)
    requires from != to && from.Length == to.Length
    modifies to
    ensures to[..] == from[..]
  {
    for k := 0 to from.Length
      invariant forall n :: 0 <= n < k ==> to[n] == from[n]
    {
      to[k] := from[k];
    }
  }

  /** The distance, or 3 where the lengths alone put it past 1. */
  method Damerau(a: string, b: string) returns (d: int)
    ensures d == Reported(a, b)
  {
    if a == b {
      ZeroIsEqual(a, |a|, b, |b|);
      assert a[..|a|] == b[..|b|];
      return 0;
    }
    if |a| > |b| + 1 || |b| > |a| + 1 { return 3; }
    var prev2, prev, cur := new int[|b| + 1](_ => 0), new int[|b| + 1](_ => 0), new int[|b| + 1](_ => 0);
    for j := 0 to |b| + 1
      invariant forall k :: 0 <= k < j ==> prev[k] == k
    {
      prev[j] := j;
    }
    for i := 1 to |a| + 1
      invariant IsRow(prev[..], a, i - 1, b)
      invariant i > 1 ==> IsRow(prev2[..], a, i - 2, b)
    {
      FillRow(a, i, b, prev2, prev, cur);
      CopyRow(prev, prev2);
      CopyRow(cur, prev);
    }
    d := prev[|b|];
    assert IsRowAt(prev[..], a, |a|, b);
  }

  lemma {:induction false} ZeroIsEqual(a: string, i: nat, b: string, j: nat)
    requires i <= |a| && j <= |b|
    ensures Distance(a, i, b, j) == 0 <==> a[..i] == b[..j]
    decreases i + j
  {
    if i > 0 && j > 0 {
      ZeroIsEqual(a, i - 1, b, j - 1);
      assert a[..i] == a[..i - 1] + [a[i - 1]] && b[..j] == b[..j - 1] + [b[j - 1]];
      assert a[..i] == b[..j] ==> a[..i - 1] == a[..i][..i - 1] == b[..j][..j - 1] == b[..j - 1];
    }
  }

  // ---- one edit -----------------------------------------------------------

  ghost predicate InsertedAt(u: string, v: string, k: nat) {
    k <= |u| && |v| == |u| + 1 && v[..k] == u[..k] && v[k + 1..] == u[k..]
  }

  ghost predicate SubstitutedAt(u: string, v: string, k: nat) {
    |u| == |v| && k < |u| && u[k] != v[k] && u[..k] == v[..k] && u[k + 1..] == v[k + 1..]
  }

  ghost predicate SwappedAt(u: string, v: string, k: nat) {
    && |u| == |v| && k + 1 < |u| && u[k] != u[k + 1] && u[k] == v[k + 1] && u[k + 1] == v[k]
    && u[..k] == v[..k] && u[k + 2..] == v[k + 2..]
  }

  /** One insertion, deletion, substitution or swap of neighbours at k turns u into v. */
  ghost predicate EditAt(u: string, v: string, k: nat) {
    InsertedAt(u, v, k) || InsertedAt(v, u, k) || SubstitutedAt(u, v, k) || SwappedAt(u, v, k)
  }

  lemma EditExtends(u: string, v: string, k: nat, c: char)
    requires EditAt(u, v, k)
    ensures EditAt(u + [c], v + [c], k)
  {
    var u', v' := u + [c], v + [c];
    assert u'[..k] == u[..k] && v'[..k] == v[..k];
    if InsertedAt(u, v, k) {
      assert v'[k + 1..] == v[k + 1..] + [c] && u'[k..] == u[k..] + [c];
    } else if InsertedAt(v, u, k) {
      assert u'[k + 1..] == u[k + 1..] + [c] && v'[k..] == v[k..] + [c];
    } else if SubstitutedAt(u, v, k) {
      assert u'[k + 1..] == u[k + 1..] + [c] && v'[k + 1..] == v[k + 1..] + [c];
    } else {
      assert u'[k + 2..] == u[k + 2..] + [c] && v'[k + 2..] == v[k + 2..] + [c];
    }
  }

  /** The fronts that op, the last operation, starts from. */
  ghost predicate EqualBefore(a: string, i: nat, b: string, j: nat, op: Op)
    requires i <= |a| && j <= |b|
  {
    match op
    case Insert => j > 0 && a[..i] == b[..j - 1]
    case Delete => i > 0 && a[..i - 1] == b[..j]
    case Substitute => i > 0 && j > 0 && a[..i - 1] == b[..j - 1]
    case Swap => i > 1 && j > 1 && Crossed(a, i, b, j) && a[..i - 2] == b[..j - 2]
    case Match => false
  }

  lemma OnlyOpIsEdit(a: string, i: nat, b: string, j: nat, op: Op) returns (k: nat)
    requires i <= |a| && j <= |b| && a[..i] != b[..j] && EqualBefore(a, i, b, j, op)
    ensures EditAt(a[..i], b[..j], k)
  {
    var u, v := a[..i], b[..j];
    match op
    case Insert =>
      k := j - 1;
      assert v[..j - 1] == b[..j - 1];
      LastInserted(u, v);
    case Delete =>
      k := i - 1;
      assert u[..i - 1] == a[..i - 1];
      LastInserted(v, u);
    case Substitute =>
      k := i - 1;
      assert u[..i - 1] == a[..i - 1] && v[..j - 1] == b[..j - 1];
      LastSubstituted(u, v);
    case Swap =>
      k := i - 2;
      assert u[..i - 2] == a[..i - 2] && v[..j - 2] == b[..j - 2];
      LastSwapped(u, v);
  }

  lemma LastOpAtOne(a: string, i: nat, b: string, j: nat) returns (op: Op)
    requires i <= |a| && j <= |b| && Distance(a, i, b, j) == 1
    ensures a[..i] != b[..j]
    ensures EqualBefore(a, i, b, j, op) ||
            (op == Match && i > 0 && j > 0 && a[i - 1] == b[j - 1] && Distance(a, i - 1, b, j - 1) == 1)
  {
    op := LastOp(a, i, b, j);
    ZeroIsEqual(a, i, b, j);
    ZeroIsEqual(a, i - Rows(op), b, j - Cols(op));
  }

  lemma FrontMore<T>(a: seq<T>, i: nat)
    requires 0 < i <= |a|
    ensures a[..i] == a[..i - 1] + [a[i - 1]]
  {}

  lemma {:induction false} DistanceOneIsEdit(a: string, i: nat, b: string, j: nat) returns (k: nat)
    requires i <= |a| && j <= |b| && Distance(a, i, b, j) == 1
    ensures EditAt(a[..i], b[..j], k)
    decreases i + j
  {
    var op := LastOpAtOne(a, i, b, j);
    if op == Match {
      k := DistanceOneIsEdit(a, i - 1, b, j - 1);
      EditExtends(a[..i - 1], b[..j - 1], k, a[i - 1]);
      FrontMore(a, i);
      FrontMore(b, j);
    } else {
      k := OnlyOpIsEdit(a, i, b, j, op);
    }
  }

  lemma LastInserted(u: string, v: string)
    requires v != [] && u == v[..|v| - 1]
    ensures InsertedAt(u, v, |v| - 1)
  {}

  lemma LastSubstituted(u: string, v: string)
    requires u != [] && v != [] && u[..|u| - 1] == v[..|v| - 1] && u != v
    ensures SubstitutedAt(u, v, |u| - 1)
  {
    var n := |u| - 1;
    assert |u[..n]| == n && |v[..|v| - 1]| == |v| - 1;
    assert u == u[..n] + [u[n]] && v == v[..n] + [v[n]];
  }

  lemma LastSwapped(u: string, v: string)
    requires |u| > 1 && |v| > 1 && u[..|u| - 2] == v[..|v| - 2] && u != v
    requires u[|u| - 1] == v[|v| - 2] && u[|u| - 2] == v[|v| - 1]
    ensures SwappedAt(u, v, |u| - 2)
  {
    var n := |u| - 2;
    assert |u[..n]| == n && |v[..|v| - 2]| == |v| - 2;
    assert u == u[..n] + [u[n], u[n + 1]] && v == v[..n] + [v[n], v[n + 1]];
  }

  /** Equal characters behind two fronts add nothing to their distance. */
  lemma {:induction false} EqualTail(a: string, i: nat, b: string, j: nat, n: nat)
    requires i + n <= |a| && j + n <= |b| && a[i..i + n] == b[j..j + n]
    ensures Distance(a, i + n, b, j + n) <= Distance(a, i, b, j)
  {
    if n > 0 {
      ShorterTail(a, i, b, j, n);
      EqualTail(a, i, b, j, n - 1);
    }
  }

  lemma ShorterTail<T>(a: seq<T>, i: nat, b: seq<T>, j: nat, n: nat)
    requires 0 < n && i + n <= |a| && j + n <= |b| && a[i..i + n] == b[j..j + n]
    ensures a[i + n - 1] == b[j + n - 1] && a[i..i + n - 1] == b[j..j + n - 1]
  {
    FrontSlice(a, i, n);
    FrontSlice(b, j, n);
  }

  lemma FrontSlice<T>(s: seq<T>, i: nat, n: nat)
    requires 0 < n && i + n <= |s|
    ensures s[i..i + n][n - 1] == s[i + n - 1] && s[i..i + n][..n - 1] == s[i..i + n - 1]
  {}

  lemma WholeTail<T>(a: seq<T>, i: nat, b: seq<T>, j: nat) returns (n: nat)
    requires i <= |a| && j <= |b| && a[i..] == b[j..]
    ensures i + n == |a| && j + n == |b| && a[i..i + n] == b[j..j + n]
  {
    n := |a[i..]|;
    assert a[i..i + n] == a[i..] && b[j..j + n] == b[j..];
  }

  /** One more operation adds its cost at most. */
  lemma OneMore(a: string, i: nat, b: string, j: nat)
    requires i <= |a| && j <= |b|
    ensures j < |b| ==> Distance(a, i, b, j + 1) <= Distance(a, i, b, j) + 1
    ensures i < |a| ==> Distance(a, i + 1, b, j) <= Distance(a, i, b, j) + 1
    ensures i < |a| && j < |b| ==> Distance(a, i + 1, b, j + 1) <= Distance(a, i, b, j) + 1
    ensures i + 1 < |a| && j + 1 < |b| && Crossed(a, i + 2, b, j + 2) ==>
              Distance(a, i + 2, b, j + 2) <= Distance(a, i, b, j) + 1
  {
    if j < |b| { InsertAway(a, i, b, j + 1); }
    if i < |a| { DeleteAway(a, i + 1, b, j); }
    if i < |a| && j < |b| { DiagonalAway(a, i + 1, b, j + 1); }
    if i + 1 < |a| && j + 1 < |b| && Crossed(a, i + 2, b, j + 2) { SwapAway(a, i + 2, b, j + 2); }
  }

  /** Fronts within one operation of each other, with equal strings behind them. */
  lemma WithinOne(a: string, i: nat, b: string, j: nat)
    requires i <= |a| && j <= |b| && a[i..] == b[j..] && Distance(a, i, b, j) <= 1
    ensures Distance(a, |a|, b, |b|) <= 1
  {
    var n := WholeTail(a, i, b, j);
    EqualTail(a, i, b, j, n);
  }

  lemma EditIsDistanceOne(a: string, b: string, k: nat)
    requires EditAt(a, b, k)
    ensures Distance(a, |a|, b, |b|) <= 1
  {
    ZeroIsEqual(a, k, b, k);
    OneMore(a, k, b, k);
    if InsertedAt(a, b, k) {
      WithinOne(a, k, b, k + 1);
    } else if InsertedAt(b, a, k) {
      WithinOne(a, k + 1, b, k);
    } else if SubstitutedAt(a, b, k) {
      WithinOne(a, k + 1, b, k + 1);
    } else {
      WithinOne(a, k + 2, b, k + 2);
    }
  }

  lemma {:induction false} CostApart(s: Alignment, a: string, i: nat, b: string, j: nat)
    requires i <= |a| && j <= |b| && Aligns(s, a, i, b, j)
    ensures i <= j + Cost(s) && j <= i + Cost(s)
    decreases s
  {
    if s.Then? {
      CostApart(s.before, a, i - Rows(s.op), b, j - Cols(s.op));
    }
  }

  lemma LengthsApart(a: string, b: string)
    ensures |a| <= |b| + Distance(a, |a|, b, |b|) && |b| <= |a| + Distance(a, |a|, b, |b|)
  {
    var s := Cheapest(a, |a|, b, |b|);
    CostApart(s, a, |a|, b, |b|);
  }

  /** What Damerau returns, as a function. */
  function Reported(a: string, b: string): int {
    if a != b && (|a| > |b| + 1 || |b| > |a| + 1) then 3 else Distance(a, |a|, b, |b|)
  }

  /** The value is 1 exactly when one edit turns a into b: the shortcut on the lengths changes no report. */
  lemma OneIsOneEdit(a: string, b: string)
    ensures Reported(a, b) == 1 <==> exists k :: EditAt(a, b, k)
  {
    LengthsApart(a, b);
    assert a[..|a|] == a && b[..|b|] == b;
    if Reported(a, b) == 1 {
      var k := DistanceOneIsEdit(a, |a|, b, |b|);
    }
    if k :| EditAt(a, b, k) {
      EditIsDistanceOne(a, b, k);
      ZeroIsEqual(a, |a|, b, |b|);
      assert a != b by { EditDiffers(a, b, k); }
    }
  }

  lemma EditDiffers(a: string, b: string, k: nat)
    requires EditAt(a, b, k)
    ensures a != b && |a| <= |b| + 1 && |b| <= |a| + 1
  {}

  /** Every distance past 2, between strings of the two lengths, is reported as 3. */
  ghost predicate ThreeForAll(m: nat, n: nat) {
    forall a: string, b: string :: |a| == m && |b| == n && Distance(a, m, b, n) > 2 ==> Reported(a, b) == 3
  }

  /** So it is exactly for lengths more than one apart, and for two of no more than 3. */
  lemma PastTwoIsThree(m: nat, n: nat)
    ensures ThreeForAll(m, n) <==> m > n + 1 || n > m + 1 || (m <= 3 && n <= 3)
  {
    if !(m > n + 1 || n > m + 1) {
      if m <= 3 && n <= 3 {
        ShortIsThree(m, n);
      } else {
        LongIsMore(m, n);
      }
    } else {
      ApartIsThree(m, n);
    }
  }

  lemma ApartIsThree(m: nat, n: nat)
    requires m > n + 1 || n > m + 1
    ensures ThreeForAll(m, n)
  {}

  lemma ShortIsThree(m: nat, n: nat)
    requires m <= 3 && n <= 3
    ensures ThreeForAll(m, n)
  {
    forall a: string, b: string | |a| == m && |b| == n && Distance(a, m, b, n) > 2
      ensures Reported(a, b) == 3
    {
      AtMostLonger(a, m, b, n);
      ZeroIsEqual(a, m, b, n);
      assert a[..m] == a && b[..n] == b;
    }
  }

  lemma LongIsMore(m: nat, n: nat)
    requires m <= n + 1 && n <= m + 1 && (m > 3 || n > 3)
    ensures !ThreeForAll(m, n)
  {
    var a, b := seq(m, _ => 'a'), seq(n, _ => 'b');
    AllDifferent(a, m, b, n);
    assert a[0] != b[0];
  }

  /** Nothing is further than the longer string is long. */
  lemma {:induction false} AtMostLonger(a: string, i: nat, b: string, j: nat)
    requires i <= |a| && j <= |b|
    ensures Distance(a, i, b, j) <= if i < j then j else i
    decreases i + j
  {
    if i > 0 && j > 0 {
      AtMostLonger(a, i - 1, b, j - 1);
    }
  }

  /** "aaaa" and "bbbb" are reported as 4. */
  lemma PastTwoIsNotThree()
    ensures Reported("aaaa", "bbbb") == 4
  {
    AllDifferent("aaaa", 4, "bbbb", 4);
  }

  lemma {:induction false} AllDifferent(a: string, i: nat, b: string, j: nat)
    requires i <= |a| && j <= |b| && forall m, n :: 0 <= m < |a| && 0 <= n < |b| ==> a[m] != b[n]
    ensures Distance(a, i, b, j) == if i < j then j else i
    decreases i + j
  {
    if i > 0 && j > 0 {
      AllDifferent(a, i, b, j - 1);
      AllDifferent(a, i - 1, b, j);
      AllDifferent(a, i - 1, b, j - 1);
    }
  }
}
