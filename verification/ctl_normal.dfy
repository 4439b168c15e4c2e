/** The shape of the statements the automaton returns: a normal form, and where it is not one. */
module CtlNormal {
  import opened Prelude
  import opened CtlTables
  import opened CtlAutomaton

  predicate IsBlank(b: Byte) {
    Classify(b) == NL || Classify(b) == WS
  }

  predicate Holds(st: State) {
    st in {OneSlash, OneDash, InDQStringEscape, InSQStringEscape}
  }

  predicate InString(st: State) {
    st in {InDQString, InDQStringEscape, InSQString, InSQStringEscape}
  }

  predicate InComment(st: State) {
    st in {InCComment, OneStar, InSQLComment}
  }

  /** The bytes written, pending and held. */
  function Weight(m: Scan): nat {
    |m.out| + (if m.pending && m.out != [] then 1 else 0) + (if Holds(m.st) then 1 else 0)
  }

  // ---- no longer than what was read, and never a leading blank ------------

  ghost predicate HeldRight(m: Scan) {
    && (m.st == OneSlash ==> m.held == SLASH)
    && (m.st == OneDash ==> m.held == DASH)
    && (m.st in {InDQStringEscape, InSQStringEscape} ==> m.held == BACKSLASH)
  }

  /** Nothing is written yet only outside strings, and what is written starts with no blank. */
  ghost predicate Begun(m: Scan) {
    && (m.out == [] ==> m.st in {Copy, OneSlash, OneDash, InCComment, OneStar, InSQLComment})
    && (m.out != [] ==> !IsBlank(m.out[0]))
    && (m.st == Accept ==> m.out != [] && m.out[|m.out| - 1] == SEMICOLON && !m.pending)
  }

  ghost predicate Sound(m: Scan) {
    HeldRight(m) && Begun(m)
  }

  lemma ConsumeSound(m: Scan, b: Byte)
    requires Sound(m) && m.st != Accept
    ensures Sound(Consume(m, b))
  {
    ConsumeBegun(m, b);
  }

  lemma DepositBegun(m: Scan, b: Byte)
    requires m.out != [] ==> !IsBlank(m.out[0])
    requires m.out == [] ==> !IsBlank(b)
    ensures var d := Deposit(m, b).out;
            d != [] && !IsBlank(d[0]) && d[|d| - 1] == b
  {}

  lemma ConsumeBegun(m: Scan, b: Byte)
    requires Sound(m) && m.st != Accept
    ensures Begun(Consume(m, b))
  {
    ConsumeOut(m, b);
    ConsumeEnd(m, b);
    ConsumeState(m, b);
  }

  lemma ConsumeOut(m: Scan, b: Byte)
    requires Sound(m) && m.st != Accept
    ensures var m' := Consume(m, b); m'.out != [] ==> !IsBlank(m'.out[0])
  {
    match ActionFor(m.st, Classify(b))
    case CopyInput => DepositBegun(m, b);
    case CopyHoldAndInput => DepositBegun(m, m.held);
    case CopyHoldAndInsertWS => DepositBegun(m, m.held);
    case _ =>
  }

  lemma ConsumeEnd(m: Scan, b: Byte)
    requires Sound(m) && m.st != Accept
    ensures var m' := Consume(m, b);
            m'.st == Accept ==> m'.out != [] && m'.out[|m'.out| - 1] == SEMICOLON && !m'.pending
  {
    if Consume(m, b).st == Accept {
      assert b == SEMICOLON;
    }
  }

  lemma ConsumeState(m: Scan, b: Byte)
    requires Sound(m) && m.st != Accept
    ensures var m' := Consume(m, b);
            m'.out == [] ==> m'.st in {Copy, OneSlash, OneDash, InCComment, OneStar, InSQLComment}
  {}

  lemma ConsumeWeight(m: Scan, b: Byte)
    requires m.st != Accept
    ensures Weight(Consume(m, b)) <= Weight(m) + 1
  {}

  lemma {:induction false} AfterSound(s: seq<Byte>, n: nat)
    requires n <= |s| && Open(s, n)
    ensures Sound(After(s, n)) && Weight(After(s, n)) <= n
  {
    if n > 0 {
      AfterSound(s, n - 1);
      assert OpenAt(s, n - 1);
      ConsumeSound(After(s, n - 1), s[n - 1]);
      ConsumeWeight(After(s, n - 1), s[n - 1]);
    }
  }

  /** A statement is no longer than the bytes it took, never starts with a blank, and ends in a
      semicolon unless the input ended. */
  lemma StatementShape(s: seq<Byte>, t: seq<Byte>)
    requires Next(s).0 == Some(t)
    ensures 0 < |t| <= Next(s).1 && !IsBlank(t[0])
    ensures t[|t| - 1] == SEMICOLON || Next(s).1 == |s|
  {
    NextMeans(s);
    AfterSound(s, Next(s).1);
  }

  // ---- the normal form ----------------------------------------------------

  lemma WeightGap(t: seq<Byte>, i: nat, n: nat)
    requires i <= n <= |t| && Open(t, n)
    ensures Weight(After(t, n)) <= Weight(After(t, i)) + (n - i)
  {
    WeightGrows(Weight(After(t, i)), t, i, n);
  }

  ghost predicate WeightAt(most: nat, t: seq<Byte>, n: nat) {
    forall k: nat :: k == n && k <= |t| ==> Weight(After(t, k)) <= most
  }

  lemma {:induction false} WeightGrows(w: nat, t: seq<Byte>, i: nat, n: nat)
    requires i <= n <= |t| && Open(t, n) && WeightAt(w, t, i)
    ensures WeightAt(w + n - i, t, n)
    decreases n - i
  {
    if i < n {
      WeightGrows(w, t, i, n - 1);
      assert OpenAt(t, n - 1);
      WeightNext(w + n - 1 - i, t, n);
    }
  }

  lemma WeightNext(most: nat, t: seq<Byte>, n: nat)
    requires 0 < n <= |t| && WeightAt(most, t, n - 1) && After(t, n - 1).st != Accept
    ensures WeightAt(most + 1, t, n)
  {
    ConsumeWeight(After(t, n - 1), t[n - 1]);
  }

  /** A scan that writes all it reads gains one with every byte. */
  lemma WeightExact(t: seq<Byte>, i: nat)
    requires i <= |t| && Weight(Read(t)) == |t| && Open(t, |t|)
    ensures Weight(After(t, i)) == i
  {
    AfterSound(t, i);
    WeightGap(t, i, |t|);
  }

  /** o was written with a space pending behind it, and the space is still pending or written. */
  ghost predicate SpaceAfter(o: seq<Byte>, m: Scan) {
    o != [] && o <= m.out && if |m.out| == |o| then m.pending else m.out[|o|] == SPACE
  }

  lemma SpaceStep(o: seq<Byte>, m: Scan, b: Byte)
    requires SpaceAfter(o, m) && m.st != Accept
    ensures SpaceAfter(o, Consume(m, b))
  {}

  lemma SpaceWritten(t: seq<Byte>, i: nat, n: nat)
    requires i <= n <= |t| && Open(t, n)
    requires After(t, i).pending && After(t, i).out != []
    ensures SpaceAfter(After(t, i).out, After(t, n))
  {
    SpaceKept(After(t, i).out, t, i, n);
  }

  /** SpaceAfter, for the induction: unfolded only where a byte is consumed. */
  ghost predicate SpaceAt(o: seq<Byte>, t: seq<Byte>, n: nat) {
    forall k: nat :: k == n && k <= |t| ==> SpaceAfter(o, After(t, k))
  }

  lemma {:induction false} SpaceKept(o: seq<Byte>, t: seq<Byte>, i: nat, n: nat)
    requires i <= n <= |t| && Open(t, n) && SpaceAt(o, t, i)
    ensures SpaceAt(o, t, n)
    decreases n - i
  {
    if i < n {
      SpaceKept(o, t, i, n - 1);
      assert OpenAt(t, n - 1);
      SpaceNext(o, t, n);
    }
  }

  lemma SpaceNext(o: seq<Byte>, t: seq<Byte>, n: nat)
    requires 0 < n <= |t| && SpaceAt(o, t, n - 1) && After(t, n - 1).st != Accept
    ensures SpaceAt(o, t, n)
  {
    SpaceStep(o, After(t, n - 1), t[n - 1]);
  }

  ghost predicate Fixed(t: seq<Byte>) {
    Read(t).st == Accept && Read(t).out == t && !Read(t).pending && Open(t, |t|)
  }

  lemma NoCommentStep(m: Scan, b: Byte)
    requires m.st != Accept && Weight(Consume(m, b)) == Weight(m) + 1
    ensures !InComment(Consume(m, b).st)
  {}

  /** In a scan that writes all it reads no comment is ever open. */
  lemma NoComment(t: seq<Byte>, i: nat)
    requires Fixed(t) && i <= |t|
    ensures !InComment(After(t, i).st)
  {
    if i > 0 {
      WeightExact(t, i);
      WeightExact(t, i - 1);
      NoCommentStep(After(t, i - 1), t[i - 1]);
    }
  }

  lemma BlankStep(m: Scan, b: Byte)
    requires m.st in {Copy, OneSlash, OneDash} && IsBlank(b) && Weight(Consume(m, b)) == Weight(m) + 1
    ensures var m' := Consume(m, b);
            m'.st == Copy && m'.pending && m'.out != [] && |m'.out| == Weight(m)
  {}

  lemma BlankAgain(m: Scan, b: Byte)
    requires m.st == Copy && m.pending && m.out != [] && Weight(Consume(m, b)) == Weight(m) + 1
    ensures !IsBlank(b)
  {}

  lemma FoldedBlank(t: seq<Byte>, i: nat)
    requires Fixed(t) && i < |t| && IsBlank(t[i]) && After(t, i).st in {Copy, OneSlash, OneDash}
    ensures t[i] == SPACE && 0 < i && i + 1 < |t| && !IsBlank(t[i + 1])
  {
    WeightStep(t, i);
    BlankStep(After(t, i), t[i]);
    SpaceWritten(t, i + 1, |t|);
    FoldedNext(t, i + 1);
  }

  lemma WeightStep(t: seq<Byte>, i: nat)
    requires Fixed(t) && i < |t|
    ensures Weight(Consume(After(t, i), t[i])) == Weight(After(t, i)) + 1 == i + 1
  {
    WeightExact(t, i);
    WeightExact(t, i + 1);
    assert After(t, i + 1) == Consume(After(t, i), t[i]);
  }

  lemma FoldedNext(t: seq<Byte>, i: nat)
    requires Fixed(t) && i <= |t|
    requires var m := After(t, i); m.st == Copy && m.pending && m.out != []
    ensures i < |t| && !IsBlank(t[i])
  {
    WeightStep(t, i);
    BlankAgain(After(t, i), t[i]);
  }

  lemma StatementFixed(s: seq<Byte>, t: seq<Byte>)
    requires Ended(s, t)
    ensures Fixed(t)
  {
    EndedMeans(s, t);
    StatementAccepts(s, Next(s).1);
    ReadFixed(t);
  }

  lemma ReadFixed(t: seq<Byte>)
    requires t != [] && Read(t).st == Accept && Read(t).out == t && Read(t[..|t| - 1]).st != Accept
    ensures Fixed(t)
  {
    var last := |t| - 1;
    AfterPrefix(t, t[..last], last);
    OpenUpTo(t, last);
    AfterSound(t, |t|);
  }

  lemma OpenUpTo(t: seq<Byte>, last: nat)
    requires last < |t| && OpenAt(t, last)
    ensures Open(t, last + 1)
  {
    forall k | 0 <= k <= last
      ensures OpenAt(t, k)
    {
      AcceptStays(t, k, last);
    }
  }

  /** In a statement that a semicolon ended no comment is left, and white space outside strings is one
      space between two other bytes -- except the byte right behind a closing quote, which is copied. */
  lemma NormalForm(s: seq<Byte>, t: seq<Byte>, i: nat)
    requires Ended(s, t) && i < |t|
    ensures !InComment(After(t, i).st)
    ensures IsBlank(t[i]) && !InString(After(t, i).st) && After(t, i).st != InSQStringOneSQ ==>
              t[i] == SPACE && 0 < i && i + 1 < |t| && !IsBlank(t[i + 1])
  {
    StatementFixed(s, t);
    NoComment(t, i);
    assert OpenAt(t, i);
    if IsBlank(t[i]) && After(t, i).st in {Copy, OneSlash, OneDash} {
      FoldedBlank(t, i);
    }
  }
}
