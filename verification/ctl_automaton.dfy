/**
 The .ctl statement automaton as one pass over bytes: a statement is everything up to the first
 naked semicolon, with comments dropped and white space folded.
 */
module CtlAutomaton {
  import opened Prelude
  import opened CtlTables

  /** The scan of one statement: the state, the pending space, the held byte and what was written. */
  datatype Scan = Scan(st: State, pending: bool, held: Byte, out: seq<Byte>)

  const START := Scan(Copy, false, QUESTION, [])

  /** Writes a byte; pending white space before it becomes one space, and never a leading one. */
  function Deposit(m: Scan, b: Byte): Scan {
    m.(pending := false, out := m.out + (if m.pending && m.out != [] then [SPACE] else []) + [b])
  }

  function Act(m: Scan, a: Action, b: Byte): Scan {
    match a
    case CopyInput => Deposit(m, b)
    case Hold => m.(held := b)
    case CopyHoldAndInput => var d := Deposit(m, m.held); d.(out := d.out + [b])
    case CopyHoldAndInsertWS => Deposit(m, m.held).(pending := true)
    case InsertWS => m.(pending := true)
    case Skip => m
    case Quit => m
  }

  function Consume(m: Scan, b: Byte): Scan {
    var c := Classify(b);
    Act(m, ActionFor(m.st, c), b).(st := NextState(m.st, c))
  }

  /** The scan after the first n bytes of s. */
  function After(s: seq<Byte>, n: nat): Scan
    requires n <= |s|
  {
    if n == 0 then START else Consume(After(s, n - 1), s[n - 1])
  }

  function Read(s: seq<Byte>): Scan {
    After(s, |s|)
  }

  /** The scan has not accepted after k bytes. */
  predicate OpenAt(s: seq<Byte>, k: nat)
    requires k <= |s|
  {
    After(s, k).st != Accept
  }

  /** Nor after any fewer than n. */
  ghost predicate Open(s: seq<Byte>, n: nat)
    requires n <= |s| + 1
  {
    forall k :: 0 <= k < n ==> OpenAt(s, k)
  }

  /** The number of bytes, n or more, after which the scan of s first accepts. */
  function AcceptedFrom(s: seq<Byte>, n: nat): (r: Option<nat>)
    requires n <= |s|
    ensures r.Some? ==> n <= r.value <= |s| && !OpenAt(s, r.value)
    ensures forall k :: n <= k <= |s| && (r.Some? ==> k < r.value) ==> OpenAt(s, k)
    decreases |s| - n
  {
    if !OpenAt(s, n) then Some(n)
    else if n == |s| then None
    else AcceptedFrom(s, n + 1)
  }

  /** One pass from scan m over s from position n: the statement, and the position behind it. */
  function Pass(s: seq<Byte>, n: nat, m: Scan): (r: (Option<seq<Byte>>, nat))
    requires n <= |s|
    ensures n <= r.1 <= |s|
    decreases |s| - n
  {
    if m.st == Accept then (Some(m.out), n)
    else if n < |s| then Pass(s, n + 1, Consume(m, s[n]))
    else (if m.out == [] then None else Some(m.out), n)
  }

  /** The next statement of s and how many bytes it took; a last statement may have no semicolon. */
  function Next(s: seq<Byte>): (Option<seq<Byte>>, nat) {
    Pass(s, 0, START)
  }

  lemma {:induction false} PassMeans(s: seq<Byte>, n: nat)
    requires n <= |s|
    ensures Pass(s, n, After(s, n)) ==
            match AcceptedFrom(s, n)
            case Some(k) => (Some(After(s, k).out), k)
            case None => (if Read(s).out == [] then None else Some(Read(s).out), |s|)
    decreases |s| - n
  {
    if After(s, n).st != Accept && n < |s| {
      PassMeans(s, n + 1);
      assert After(s, n + 1) == Consume(After(s, n), s[n]);
    }
  }

  lemma NextMeans(s: seq<Byte>)
    ensures Next(s) ==
            match AcceptedFrom(s, 0)
            case Some(k) => (Some(After(s, k).out), k)
            case None => (if Read(s).out == [] then None else Some(Read(s).out), |s|)
    ensures Next(s).0.Some? ==> 0 < Next(s).1 <= |s|
  {
    PassMeans(s, 0);
  }

  /** A pass that returns a statement has moved. */
  lemma NextMoves(s: seq<Byte>)
    ensures Next(s).0.Some? ==> 0 < Next(s).1 <= |s|
  {
    NextMeans(s);
  }

  function Statements(s: seq<Byte>): seq<seq<Byte>>
    decreases |s|
  {
    match Next(s)
    case (None, _) => []
    case (Some(t), n) =>
      NextMoves(s);
      [t] + Statements(s[n..])
  }

  /** The scan after n bytes depends on those bytes only. */
  lemma {:induction false} AfterPrefix(s: seq<Byte>, t: seq<Byte>, n: nat)
    requires n <= |s| && n <= |t| && s[..n] == t[..n]
    ensures After(s, n) == After(t, n)
  {
    if n > 0 {
      assert s[..n - 1] == s[..n][..n - 1] && t[..n - 1] == t[..n][..n - 1];
      assert s[n - 1] == s[..n][n - 1] && t[n - 1] == t[..n][n - 1];
      AfterPrefix(s, t, n - 1);
    }
  }

  lemma ReadStep(s: seq<Byte>, b: Byte)
    ensures Read(s + [b]) == Consume(Read(s), b)
  {
    assert (s + [b])[..|s|] == s[..|s|];
    AfterPrefix(s + [b], s, |s|);
  }

  lemma LastPrefix(s: seq<Byte>, b: Byte)
    ensures (s + [b])[..|s|] == s
  {}

  // ---- reading a statement again ------------------------------------------

  /** R is the scan of a whole sequence; the lemmas below use no more of Read than this. */
  ghost predicate Reads(R: seq<Byte> -> Scan) {
    R([]) == START && forall s, b :: Steps(R, s, b)
  }

  ghost predicate Steps(R: seq<Byte> -> Scan, s: seq<Byte>, b: Byte) {
    R(s + [b]) == Consume(R(s), b)
  }

  lemma RStep(R: seq<Byte> -> Scan, s: seq<Byte>, b: Byte)
    requires Reads(R)
    ensures R(s + [b]) == Consume(R(s), b)
  {
    assert Steps(R, s, b);
  }

  ghost predicate Is(m: Scan, st: State, pending: bool, out: seq<Byte>) {
    m.st == st && m.pending == pending && m.out == out
  }

  /** Reading what was written, then white space, leads to white space pending after it. */
  ghost predicate ThenSpace(R: seq<Byte> -> Scan, out: seq<Byte>) {
    out != [] ==> Is(R(out + [SPACE]), Copy, true, out)
  }

  /** What was written, and the space pending behind it. */
  ghost function Base(m: Scan): seq<Byte> {
    if m.pending && m.out != [] then m.out + [SPACE] else m.out
  }

  /** Reading the base leads to a scan that goes on as m does. */
  ghost predicate Resumes(R: seq<Byte> -> Scan, m: Scan, st: State) {
    Is(R(Base(m)), st, m.pending && m.out != [], m.out)
  }

  /** Reading the base, and the held byte behind it, leads back to the same scan. */
  ghost predicate ThenHeld(R: seq<Byte> -> Scan, m: Scan) {
    var again := R(Base(m) + [m.held]);
    Is(again, m.st, m.pending && m.out != [], m.out) && again.held == m.held
  }

  /** No proper prefix of s is a statement. */
  ghost predicate Unfinished(R: seq<Byte> -> Scan, s: seq<Byte>) {
    s != [] && R(s[..|s| - 1]).st != Accept
  }

  /** How the scan of a statement stands to the scan of what it has written so far. */
  ghost predicate Rereads(R: seq<Byte> -> Scan, m: Scan) {
    match m.st
    case Accept => Is(R(m.out), Accept, false, m.out) && Unfinished(R, m.out)
    case Copy => Resumes(R, m, Copy)
    case OneSlash => m.held == SLASH && ThenHeld(R, m) && ThenSpace(R, m.out)
    case OneDash => m.held == DASH && ThenHeld(R, m) && ThenSpace(R, m.out)
    case InCComment => ThenSpace(R, m.out)
    case OneStar => ThenSpace(R, m.out)
    case InSQLComment => ThenSpace(R, m.out)
    case InDQString => !m.pending && Resumes(R, m, InDQString)
    case InDQStringEscape => !m.pending && m.held == BACKSLASH && Resumes(R, m, InDQString)
    case InSQString => !m.pending && Resumes(R, m, InSQString)
    case InSQStringOneSQ => !m.pending && Resumes(R, m, InSQStringOneSQ)
    case InSQStringEscape => !m.pending && m.held == BACKSLASH && Resumes(R, m, InSQString)
  }

  lemma Blank(R: seq<Byte> -> Scan, m: Scan)
    requires Reads(R) && m.st == Copy && Resumes(R, m, Copy)
    ensures ThenSpace(R, m.out)
  {
    RStep(R, m.out, SPACE);
  }

  /** A byte copied from a scan that resumes. */
  lemma CopiedRereads(R: seq<Byte> -> Scan, m: Scan, b: Byte)
    requires Reads(R) && m.st != Accept && Resumes(R, m, m.st) && ActionFor(m.st, Classify(b)) == CopyInput
    ensures var m' := Consume(m, b);
            m'.out == Base(m) + [b] && !m'.pending && Is(R(m'.out), m'.st, false, m'.out)
  {
    RStep(R, Base(m), b);
    assert m.out + [SPACE] + [b] == m.out + ([SPACE] + [b]);
  }

  lemma CopyRereads(R: seq<Byte> -> Scan, m: Scan, b: Byte)
    requires Reads(R) && m.st == Copy && Rereads(R, m)
    ensures Rereads(R, Consume(m, b))
  {
    var m' := Consume(m, b);
    Blank(R, m);
    match ActionFor(Copy, Classify(b))
    case InsertWS =>
    case Hold => RStep(R, Base(m), b);
    case CopyInput => PlainRereads(R, m, b);
  }

  lemma PlainRereads(R: seq<Byte> -> Scan, m: Scan, b: Byte)
    requires Reads(R) && m.st == Copy && Rereads(R, m) && ActionFor(Copy, Classify(b)) == CopyInput
    ensures Rereads(R, Consume(m, b))
  {
    CopiedRereads(R, m, b);
    LastPrefix(Base(m), b);
  }

  /** A held byte copied, with what follows it. */
  lemma HeldRereads(R: seq<Byte> -> Scan, m: Scan, b: Byte)
    requires Reads(R) && m.st in {OneSlash, OneDash} && ThenHeld(R, m)
    requires ActionFor(m.st, Classify(b)) in {CopyHoldAndInput, CopyHoldAndInsertWS}
    ensures Rereads(R, Consume(m, b))
  {
    var m' := Consume(m, b);
    var behind := Base(m) + [m.held];
    assert Deposit(m, m.held).out == behind;
    RStep(R, behind, b);
    RStep(R, behind, SPACE);
    LastPrefix(behind, b);
  }

  lemma SlashRereads(R: seq<Byte> -> Scan, m: Scan, b: Byte)
    requires Reads(R) && m.st == OneSlash && Rereads(R, m)
    ensures Rereads(R, Consume(m, b))
  {
    var behind := Base(m) + [SLASH];
    match ActionFor(OneSlash, Classify(b))
    case Skip =>
    case CopyInput =>
      assert Consume(m, b).out == behind;
      RStep(R, behind, SLASH);
      RStep(R, behind, SPACE);
    case _ => HeldRereads(R, m, b);
  }

  lemma DashRereads(R: seq<Byte> -> Scan, m: Scan, b: Byte)
    requires Reads(R) && m.st == OneDash && Rereads(R, m)
    ensures Rereads(R, Consume(m, b))
  {
    if ActionFor(OneDash, Classify(b)) != Skip { HeldRereads(R, m, b); }
  }

  lemma StringRereads(R: seq<Byte> -> Scan, m: Scan, b: Byte)
    requires Reads(R) && m.st in {InDQString, InSQString, InSQStringOneSQ} && Rereads(R, m)
    ensures Rereads(R, Consume(m, b))
  {
    if ActionFor(m.st, Classify(b)) == CopyInput {
      CopiedRereads(R, m, b);
      LastPrefix(m.out, b);
    }
  }

  lemma EscapeRereads(R: seq<Byte> -> Scan, m: Scan, b: Byte)
    requires Reads(R) && m.st in {InDQStringEscape, InSQStringEscape} && Rereads(R, m)
    ensures Rereads(R, Consume(m, b))
  {
    if Classify(b) != NL {
      RStep(R, m.out, BACKSLASH);
      RStep(R, m.out + [BACKSLASH], b);
      assert Deposit(m, BACKSLASH).out == m.out + [BACKSLASH];
    }
  }

  lemma ConsumeRereads(R: seq<Byte> -> Scan, m: Scan, b: Byte)
    requires Reads(R) && m.st != Accept && Rereads(R, m)
    ensures Rereads(R, Consume(m, b))
  {
    match m.st
    case Copy => CopyRereads(R, m, b);
    case OneSlash => SlashRereads(R, m, b);
    case OneDash => DashRereads(R, m, b);
    case InDQString => StringRereads(R, m, b);
    case InSQString => StringRereads(R, m, b);
    case InSQStringOneSQ => StringRereads(R, m, b);
    case InDQStringEscape => EscapeRereads(R, m, b);
    case InSQStringEscape => EscapeRereads(R, m, b);
    case _ =>
  }

  lemma ReadReads()
    ensures Reads(Read)
  {
    forall s, b
      ensures Steps(Read, s, b)
    {
      ReadStep(s, b);
    }
  }

  lemma ReadRereads(m: Scan, b: Byte)
    requires m.st != Accept && Rereads(Read, m)
    ensures Rereads(Read, Consume(m, b))
  {
    ReadReads();
    ConsumeRereads(Read, m, b);
  }

  lemma AfterRereads(s: seq<Byte>, n: nat)
    requires n <= |s| && Open(s, n)
    ensures Rereads(Read, After(s, n))
  {
    FrontRereads(s, n);
  }

  /** Rereads, for the induction: unfolded only where a byte is consumed. */
  ghost predicate RereadsAt(s: seq<Byte>, n: nat) {
    forall k: nat :: k == n && k <= |s| ==> Rereads(Read, After(s, k))
  }

  lemma {:induction false} FrontRereads(s: seq<Byte>, n: nat)
    requires n <= |s| && Open(s, n)
    ensures RereadsAt(s, n)
  {
    if n == 0 {
      StartRereads(s);
    } else {
      FrontRereads(s, n - 1);
      assert OpenAt(s, n - 1);
      NextRereads(s, n);
    }
  }

  lemma StartRereads(s: seq<Byte>)
    ensures RereadsAt(s, 0)
  {}

  lemma NextRereads(s: seq<Byte>, n: nat)
    requires 0 < n <= |s| && After(s, n - 1).st != Accept && RereadsAt(s, n - 1)
    ensures RereadsAt(s, n)
  {
    ReadRereads(After(s, n - 1), s[n - 1]);
  }

  /** t is the next statement of s, and a semicolon ended it. */
  ghost predicate Ended(s: seq<Byte>, t: seq<Byte>) {
    var (r, n) := Next(s);
    r == Some(t) && n <= |s| && After(s, n).st == Accept
  }

  lemma EndedMeans(s: seq<Byte>, t: seq<Byte>)
    requires Ended(s, t)
    ensures var n := Next(s).1;
            n <= |s| && Open(s, n) && !OpenAt(s, n) && After(s, n).out == t
  {
    NextMeans(s);
    assert AcceptedFrom(s, 0).None? ==> OpenAt(s, |s|);
  }

  lemma StatementAccepts(s: seq<Byte>, n: nat)
    requires n <= |s| && !OpenAt(s, n) && Open(s, n)
    ensures var t := After(s, n).out;
            t != [] && Read(t).st == Accept && Read(t).out == t && Read(t[..|t| - 1]).st != Accept
  {
    AfterRereads(s, n);
  }

  lemma OneStatement(t: seq<Byte>)
    requires t != [] && Read(t).st == Accept && Read(t).out == t && Read(t[..|t| - 1]).st != Accept
    ensures Next(t) == (Some(t), |t|)
  {
    AfterPrefix(t, t[..|t| - 1], |t| - 1);
    FirstAccepted(t, |t| - 1);
    NextMeans(t);
  }

  lemma OnlyStatement(t: seq<Byte>)
    requires Next(t) == (Some(t), |t|)
    ensures Statements(t) == [t]
  {
    var rest := t[|t|..];
    assert rest == [];
    assert Next(rest).0 == None;
  }

  /** A statement read again is the same statement, byte for byte, with nothing behind it. */
  lemma Reread(s: seq<Byte>, t: seq<Byte>)
    requires Ended(s, t)
    ensures Next(t) == (Some(t), |t|)
    ensures Statements(t) == [t]
  {
    EndedMeans(s, t);
    StatementAccepts(s, Next(s).1);
    OneStatement(t);
    OnlyStatement(t);
  }

  /** A scan that accepts with the last byte and not before. */
  lemma FirstAccepted(t: seq<Byte>, last: nat)
    requires |t| == last + 1 && After(t, last + 1).st == Accept && After(t, last).st != Accept
    ensures AcceptedFrom(t, 0) == Some(last + 1)
  {
    forall k | 0 <= k <= last
      ensures OpenAt(t, k)
    {
      AcceptStays(t, k, last);
    }
    assert !OpenAt(t, last + 1);
    AcceptedIs(t, last + 1);
  }

  lemma AcceptedIs(s: seq<Byte>, n: nat)
    requires n <= |s| && Open(s, n) && !OpenAt(s, n)
    ensures AcceptedFrom(s, 0) == Some(n)
  {}

  lemma {:induction false} AcceptStays(s: seq<Byte>, k: nat, n: nat)
    requires k <= n <= |s|
    ensures After(s, k).st == Accept ==> After(s, n).st == Accept
  {
    if k < n { AcceptStays(s, k, n - 1); }
  }
}
