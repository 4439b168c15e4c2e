/** Whole files: normalising one twice changes nothing more, and the two ways it can fall short. */
module CtlFiles {
  import opened Prelude
  import opened CtlTables
  import opened CtlAutomaton
  import opened CtlNormal

  function Joined(ss: seq<seq<Byte>>): seq<Byte> {
    if ss == [] then [] else ss[0] + Joined(ss[1..])
  }

  /** A statement in front of other text is read as it is. */
  lemma NextInFront(t: seq<Byte>, rest: seq<Byte>)
    requires Fixed(t)
    ensures Next(t + rest) == (Some(t), |t|)
  {
    var u := t + rest;
    forall k | 0 <= k < |t|
      ensures OpenAt(u, k)
    {
      assert u[..k] == t[..k] && OpenAt(t, k);
      AfterPrefix(u, t, k);
    }
    assert u[..|t|] == t[..|t|];
    AfterPrefix(u, t, |t|);
    AcceptedIs(u, |t|);
    NextMeans(u);
  }

  // ---- a last statement with no semicolon ---------------------------------

  /** An unfinished statement is read again as itself just when its last byte is not a slash or dash the
      reader would hold. */
  lemma RereadUnfinished(s: seq<Byte>, u: seq<Byte>)
    requires Next(s).0 == Some(u) && !Ended(s, u)
    ensures Statements(u) == [u] <==> Read(u).st !in {OneSlash, OneDash}
  {
    NextMeans(s);
    NextMeans(u);
    assert Next(s).1 == |s|;
    AfterRereads(s, |s|);
    AfterSound(s, |s|);
    UnfinishedRead(Read(s), u);
    NotAccepted(u);
    var v := Read(u).out;
    assert Next(u) == (if v == [] then None else Some(v), |u|);
    if v != [] {
      assert u[|u|..] == [] && Next([]).0 == None;
      assert Statements([]) == [];
      assert Statements(u) == [v];
    }
  }

  lemma NotAccepted(u: seq<Byte>)
    requires Read(u).st != Accept
    ensures AcceptedFrom(u, 0) == None
  {
    var r := AcceptedFrom(u, 0);
    if r.Some? { AcceptStays(u, r.value, |u|); }
  }

  lemma UnfinishedRead(m: Scan, u: seq<Byte>)
    requires m.st != Accept && m.out == u && u != [] && Rereads(Read, m)
    ensures Read(u).st != Accept
    ensures Read(u).out == u <==> Read(u).st !in {OneSlash, OneDash}
  {
    ReadStep(u, SPACE);
    var again := Read(u);
    if ThenSpace(Read, u) {
      BackFromSpace(again, u);
    }
  }

  lemma BackFromSpace(again: Scan, u: seq<Byte>)
    requires Is(Consume(again, SPACE), Copy, true, u)
    ensures again.st != Accept
    ensures again.out == u <==> again.st !in {OneSlash, OneDash}
  {}

  /** The reader does not end on a slash or a dash it still holds. */
  ghost predicate NoneHeld(t: seq<Byte>) {
    Read(t).st !in {OneSlash, OneDash}
  }

  ghost predicate Stable(s: seq<Byte>) {
    Statements(Joined(Statements(s))) == Statements(s)
  }

  lemma StatementsOf(s: seq<Byte>, t: seq<Byte>, n: nat)
    requires Next(s) == (Some(t), n)
    ensures 0 < n <= |s| && Statements(s) == [t] + Statements(s[n..])
  {
    NextMoves(s);
  }

  lemma StableEnded(s: seq<Byte>, t: seq<Byte>, n: nat)
    requires Next(s) == (Some(t), n) && 0 < n <= |s| && Ended(s, t)
    ensures NoneHeld(t) && (Stable(s) <==> Stable(s[n..]))
  {
    var ss := Statements(s[n..]);
    var joined := Joined(ss);
    StatementsOf(s, t, n);
    StatementFixed(s, t);
    NextInFront(t, joined);
    assert ([t] + ss)[1..] == ss;
    assert Joined([t] + ss) == t + joined;
    StatementsOf(t + joined, t, |t|);
    assert (t + joined)[|t|..] == joined;
    assert ([t] + Statements(joined))[1..] == Statements(joined);
  }

  lemma StableUnfinished(s: seq<Byte>, t: seq<Byte>)
    requires Next(s).0 == Some(t) && !Ended(s, t)
    ensures Statements(s) == [t] && (Stable(s) <==> NoneHeld(t))
  {
    NextMeans(s);
    assert Next(s).1 == |s|;
    StatementsOf(s, t, |s|);
    assert s[|s|..] == [] && Next([]).0 == None && Statements([]) == [];
    assert [t][1..] == [] && t + [] == t;
    assert Joined([t]) == t;
    RereadUnfinished(s, t);
  }

  /**
   Reading a file, writing its statements and reading those gives the same statements exactly when
   none of them, read alone, ends on a byte the reader still holds.
   */
  lemma {:induction false} NormaliseTwice(s: seq<Byte>)
    ensures Statements(Joined(Statements(s))) == Statements(s) <==> forall t :: t in Statements(s) ==> NoneHeld(t)
    decreases |s|
  {
    match Next(s)
    case (None, _) => assert Next([]).0 == None;
    case (Some(t), n) =>
      StatementsOf(s, t, n);
      if Ended(s, t) {
        StableEnded(s, t, n);
        NormaliseTwice(s[n..]);
        Members(t, Statements(s[n..]));
      } else {
        StableUnfinished(s, t);
      }
  }

  lemma Members<T>(x: T, s: seq<T>)
    ensures forall y :: y in [x] + s <==> y == x || y in s
  {}

  /** "a/ " with no semicolon is the statement "a/", and "a/" read again is "a". */
  lemma SlashLost()
    ensures Statements([97, SLASH, SPACE]) == [[97, SLASH]]
    ensures Statements([97, SLASH]) == [[97]]
  {
    var s: seq<Byte>, u: seq<Byte> := [97, SLASH, SPACE], [97, SLASH];
    SlashRead(s);
    SlashRead(u);
    OnlyOne(s, u);
    OnlyOne(u, [97]);
  }

  /** What "a/" reads as, with a space behind it and without. */
  lemma SlashRead(s: seq<Byte>)
    requires s == [97, SLASH, SPACE] || s == [97, SLASH]
    ensures Next(s) == (Some(if |s| == 3 then [97, SLASH] else [97]), |s|)
  {
    var m1, m2 := Scan(Copy, false, QUESTION, [97]), Scan(OneSlash, false, SLASH, [97]);
    AfterNone(s);
    AfterNext(s, 0, Scan(Copy, false, QUESTION, []), m1);
    AfterNext(s, 1, m1, m2);
    if |s| == 3 {
      AfterNext(s, 2, m2, Scan(Copy, true, SLASH, [97, SLASH]));
    }
    NextUnfinished(s);
  }

  lemma NextUnfinished(s: seq<Byte>)
    requires Read(s).st != Accept && s != [] && After(s, |s|).out != []
    ensures Next(s) == (Some(After(s, |s|).out), |s|)
  {
    NotAccepted(s);
    NextMeans(s);
  }

  lemma OnlyOne(s: seq<Byte>, t: seq<Byte>)
    requires Next(s) == (Some(t), |s|)
    ensures Statements(s) == [t]
  {
    assert s[|s|..] == [];
    assert Next([]).0 == None;
  }

  /** Of the two spaces behind a closing quote the first is copied and the second becomes another:
      "''  b;" keeps both, though they are a run of white space outside any string. */
  lemma SpacesBehindQuote()
    ensures var s: seq<Byte> := [SQUOTE, SQUOTE, SPACE, SPACE, 98, SEMICOLON];
            Next(s) == (Some(s), 6)
  {
    var s: seq<Byte> := [SQUOTE, SQUOTE, SPACE, SPACE, 98, SEMICOLON];
    SpacesRead(s);
    FirstAccepted(s, 5);
    NextMeans(s);
  }

  /** After, one byte at a time. */
  ghost predicate AfterIs(s: seq<Byte>, n: nat, m: Scan) {
    forall k: nat :: k == n && k <= |s| ==> After(s, k) == m
  }

  lemma AfterNext(s: seq<Byte>, n: nat, m: Scan, m': Scan)
    requires n < |s| && AfterIs(s, n, m) && Consume(m, s[n]) == m'
    ensures AfterIs(s, n + 1, m')
  {}

  lemma AfterNone(s: seq<Byte>)
    ensures AfterIs(s, 0, Scan(Copy, false, QUESTION, []))
  {}

  lemma QuotesRead(s: seq<Byte>)
    requires |s| > 2 && s[0] == s[1] == SQUOTE && s[2] == SPACE
    ensures AfterIs(s, 3, Scan(Copy, false, QUESTION, [SQUOTE, SQUOTE, SPACE]))
  {
    var m1 := Scan(InSQString, false, QUESTION, [SQUOTE]);
    var m2 := Scan(InSQStringOneSQ, false, QUESTION, [SQUOTE, SQUOTE]);
    AfterNone(s);
    AfterNext(s, 0, Scan(Copy, false, QUESTION, []), m1);
    AfterNext(s, 1, m1, m2);
    AfterNext(s, 2, m2, Scan(Copy, false, QUESTION, [SQUOTE, SQUOTE, SPACE]));
  }

  lemma SpacesRead(s: seq<Byte>)
    requires s == [SQUOTE, SQUOTE, SPACE, SPACE, 98, SEMICOLON]
    ensures After(s, 5).st == Copy && After(s, 6) == Scan(Accept, false, QUESTION, s)
  {
    var m3 := Scan(Copy, false, QUESTION, [SQUOTE, SQUOTE, SPACE]);
    var m5 := Scan(Copy, false, QUESTION, [SQUOTE, SQUOTE, SPACE, SPACE, 98]);
    QuotesRead(s);
    AfterNext(s, 3, m3, m3.(pending := true));
    AfterNext(s, 4, m3.(pending := true), m5);
    AfterNext(s, 5, m5, Scan(Accept, false, QUESTION, s));
  }
}
