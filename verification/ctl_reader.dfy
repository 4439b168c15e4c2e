/**
 The resumable reader: it fills a line buffer of at most 1023 bytes and goes on, statement after
 statement, where the last one ended in it.  Whatever lines the input is cut into, its statements
 are those of one pass of the automaton.
 */
module CtlReader {
  import opened Prelude
  import opened CtlTables
  import A = CtlAutomaton

  const RAW_BUF_SIZE: nat := 1024

  /** The length of the line a read of at most limit bytes takes from s, its newline included. */
  function LineLen(s: seq<Byte>, limit: nat): (n: nat)
    ensures n <= |s| && n <= limit && (n == 0 <==> s == [] || limit == 0)
    ensures forall k :: 0 <= k < n - 1 ==> s[k] != NEWLINE
    ensures n < |s| && n < limit ==> s[n - 1] == NEWLINE
  {
    if s == [] || limit == 0 then 0
    else if s[0] == NEWLINE then 1
    else 1 + LineLen(s[1..], limit - 1)
  }

  /** The bytes of the input the first n reads take. */
  function Fetched(input: seq<Byte>, n: nat): (f: nat)
    ensures f <= |input|
  {
    if n == 0 then 0
    else
      var f := Fetched(input, n - 1);
      f + LineLen(input[f..], RAW_BUF_SIZE - 1)
  }

  lemma PassStep(text: seq<Byte>, n: nat, m: A.Scan)
    requires n < |text| && m.st != Accept
    ensures A.Pass(text, n, m) == A.Pass(text, n + 1, A.Consume(m, text[n]))
  {}

  /** A pass from m at i comes to what one from m0 at j does. */
  ghost predicate SamePass(text: seq<Byte>, i: nat, m: A.Scan, j: nat, m0: A.Scan)
    requires i <= |text| && j <= |text|
  {
    forall k: nat :: k == i ==> A.Pass(text, k, m) == A.Pass(text, j, m0)
  }

  lemma SameStep(text: seq<Byte>, i: nat, m: A.Scan, j: nat, m0: A.Scan, r: A.Scan)
    requires i < |text| && j <= |text| && m.st != Accept
    requires SamePass(text, i, m, j, m0) && r == A.Consume(m, text[i])
    ensures SamePass(text, i + 1, r, j, m0)
  {
    PassStep(text, i, m);
  }

  lemma PassedTo(text: seq<Byte>, i: nat, m: A.Scan, j: nat, m0: A.Scan)
    requires i <= |text| && j <= |text| && A.Pass(text, i, m) == A.Pass(text, j, m0)
    ensures SamePass(text, i, m, j, m0)
  {}

  lemma SameTwice(text: seq<Byte>, i: nat, m: A.Scan, j: nat, m0: A.Scan)
    requires i <= |text| && j <= |text|
    requires SamePass(text, i, m, j, m0) && SamePass(text, j, m0, 0, A.START)
    ensures SamePass(text, i, m, 0, A.START)
  {
    assert A.Pass(text, j, m0) == A.Pass(text, 0, A.START);
  }

  lemma PassEnds(text: seq<Byte>, n: nat, m: A.Scan)
    requires n <= |text|
    ensures m.st == Accept ==> A.Pass(text, n, m) == (Some(m.out), n)
    ensures m.st != Accept && n == |text| ==>
              A.Pass(text, n, m) == (if m.out == [] then None else Some(m.out), n)
  {}

  lemma ReadsMade(input: seq<Byte>, n: nat)
    ensures Fetched(input, n) > 0 ==> n > 0
  {}

  /** n reads take all before pos but the last bytes, so many. */
  predicate FetchedIs(input: seq<Byte>, n: nat, pos: nat, last: nat) {
    Fetched(input, n) == pos - last
  }

  /** raw is what the last of so many reads took of the input, up to pos. */
  ghost predicate IsFilled(input: seq<Byte>, pos: nat, raw: seq<Byte>, line: nat) {
    && |raw| <= pos <= |input|
    && raw == input[pos - |raw|..pos]
    && (forall n: nat :: n == line ==> FetchedIs(input, n, pos, 0))
    && (forall n: nat :: n + 1 == line ==> FetchedIs(input, n, pos, |raw|))
  }

  ghost predicate Fills(input: seq<Byte>, pos: nat, raw: seq<Byte>, line: nat) {
    forall n: nat :: n == line ==> IsFilled(input, pos, raw, n)
  }

  lemma NothingFilled(input: seq<Byte>)
    ensures Fills(input, 0, [], 0)
  {
    assert FetchedIs(input, 0, 0, 0);
  }

  lemma FilledMore(input: seq<Byte>, pos: nat, raw: seq<Byte>, line: nat, buf: seq<Byte>)
    requires Fills(input, pos, raw, line) && pos + |buf| <= |input| && buf == input[pos..pos + |buf|]
    requires |buf| == LineLen(input[pos..], RAW_BUF_SIZE - 1)
    ensures Fills(input, pos + |buf|, buf, line + 1)
  {
    assert IsFilled(input, pos, raw, line);
    assert FetchedIs(input, line, pos, 0);
    assert FetchedIs(input, line + 1, pos + |buf|, 0);
  }

  lemma Window<T>(input: seq<T>, pos: nat, raw: seq<T>, next: nat, from: nat, n: nat)
    requires |raw| <= pos <= |input| && raw == input[pos - |raw|..pos] && next <= |raw|
    requires from + n == pos - |raw| + next
    ensures raw[next..] == input[from..][n..n + |raw| - next]
  {}

  class Reader {
    const input: seq<Byte>
    var pos: nat        // the bytes read of the input
    var raw: seq<Byte>  // the current line
    var next: nat       // how far into it the last statement ended
    var line: nat       // the reads made so far

    ghost predicate Valid()
      reads this
    {
      Filled() && next <= |raw|
    }

    /** The line buffer is what the last of line reads took of the input. */
    ghost predicate Filled()
      reads this`pos, this`raw, this`line
    {
      |raw| <= pos <= |input| && Fills(input, pos, raw, line)
    }

    /** The bytes of the input the statements so far took. */
    function Offset(): (n: nat)
      requires Valid()
      reads this
      ensures n <= |input|
    {
      pos - |raw| + next
    }

    constructor (input: seq<Byte>)
      ensures Valid() && this.input == input && Offset() == 0 && line == 0
    {
      this.input := input;
      pos, raw, next, line := 0, [], 0, 0;
      NothingFilled(input);
    }

    /** The bytes of one line, up to the size of the buffer. */
    method FillLine() returns (buf: seq<Byte>)
      requires pos <= |input|
      modifies this`pos
      ensures old(pos) <= pos <= |input| && buf == input[old(pos)..pos]
      ensures |buf| == LineLen(input[old(pos)..], RAW_BUF_SIZE - 1)
    {
      ghost var rest := input[pos..];
      buf := [];
      while |buf| < RAW_BUF_SIZE - 1 && pos < |input|
        invariant old(pos) <= pos <= |input| && buf == input[old(pos)..pos] && |buf| <= RAW_BUF_SIZE - 1
        invariant LineLen(rest, RAW_BUF_SIZE - 1) == |buf| + LineLen(input[pos..], RAW_BUF_SIZE - 1 - |buf|)
        decreases |input| - pos
      {
        var b := input[pos];
        assert input[pos..][1..] == input[pos + 1..];
        buf := buf + [b];
        pos := pos + 1;
        if b == NEWLINE { return; }
      }
    }

    /** Lines is the number of the read that holds the last byte a statement took. */
    lemma LineOfOffset()
      requires Valid() && next > 0
      ensures line > 0 && Fetched(input, line - 1) < Offset() <= Fetched(input, line)
    {
      assert IsFilled(input, pos, raw, line);
      assert FetchedIs(input, line, pos, 0);
      ReadsMade(input, line);
      assert FetchedIs(input, line - 1, pos, |raw|);
    }

    /** One read into the line buffer; false at the end of the input.  It counts either way. */
    method ReadRaw() returns (more: bool)
      requires Valid() && next == |raw|
      modifies this
      ensures Valid() && line == old(line) + 1 && next == 0
      ensures Offset() == old(Offset()) && more == (Offset() < |input|) && more == (raw != [])
    {
      line := line + 1;
      ghost var from, was := pos, raw;
      var buf := FillLine();
      FilledMore(input, from, was, line - 1, buf);
      raw, next := buf, 0;
      more := raw != [];
    }

    /** The scan over the rest of the line, whose bytes lie in text at n; it stops behind a statement. */
    method ScanLine(m0: A.Scan, ghost text: seq<Byte>, ghost n: nat) returns (m: A.Scan)
      requires m0.st != Accept
      requires next <= |raw| && n + |raw| - next <= |text| && raw[next..] == text[n..n + |raw| - next]
      modifies this`next
      ensures old(next) <= next <= |raw|
      ensures A.Pass(text, n + next - old(next), m) == A.Pass(text, n, m0)
      ensures if m.st == Accept then next > old(next) else next == |raw|
    {
      m := m0;
      while next < |raw|
        invariant old(next) <= next <= |raw| && m.st != Accept
        invariant SamePass(text, n + next - old(next), m, n, m0)
      {
        ghost var at := n + next - old(next);
        var ch := raw[next];
        assert ch == raw[old(next)..][next - old(next)] == text[at];
        ghost var was := m;
        m := Switch(m, ch);
        SameStep(text, at, was, n, m0, m);
        next := next + 1;
        if m.st == Accept { break; }
      }
    }

    /** The scan goes on over one line, read anew when the last is used up; false at the end of the input. */
    method ScanMore(m0: A.Scan, ghost from: nat) returns (more: bool, m: A.Scan)
      requires Valid() && from <= Offset() && m0.st != Accept
      modifies this
      ensures Valid() && old(Offset()) <= Offset() && old(line) <= line
      ensures SamePass(input[from..], Offset() - from, m, old(Offset()) - from, m0)
      ensures !more ==> m == m0 && Offset() == |input|
      ensures more ==> Offset() > old(Offset()) && next > 0 && (m.st != Accept ==> next == |raw|)
    {
      m, more := m0, true;
      if next >= |raw| {
        more := ReadRaw();
      }
      if more {
        ghost var text, at := input[from..], Offset() - from;
        LineInText(text, from, at);
        m := ScanLine(m, text, at);
        PassedTo(text, Offset() - from, m, at, m0);
      }
    }

    /** The next statement, from where the last one ended. */
    method Next() returns (statement: Option<seq<Byte>>)
      requires Valid()
      modifies this
      ensures Valid() && old(line) <= line
      ensures (statement, Offset() - old(Offset())) == A.Next(input[old(Offset())..])
    {
      ghost var from := Offset();
      ghost var text := input[from..];
      var m := A.START;
      while true
        invariant Valid() && from <= Offset() && old(line) <= line && m.st != Accept
        invariant SamePass(text, Offset() - from, m, 0, A.START)
        decreases |input| - Offset()
      {
        var more: bool;
        ghost var at, was := Offset() - from, m;
        more, m := ScanMore(m, from);
        SameTwice(text, Offset() - from, m, at, was);
        if !more || m.st == Accept { break; }
      }
      assert A.Pass(text, Offset() - from, m) == A.Next(text);
      PassEnds(text, Offset() - from, m);
      statement := if m.st != Accept && m.out == [] then None else Some(m.out);
      assert m.st == Accept || Offset() == |input|;
    }

    lemma LineInText(text: seq<Byte>, from: nat, n: nat)
      requires Valid() && from <= |input| && text == input[from..] && Offset() == from + n
      ensures n + |raw| - next <= |text| && raw[next..] == text[n..n + |raw| - next]
    {
      assert IsFilled(input, pos, raw, line);
      Window(input, pos, raw, next, from, n);
    }

    /** The reader's switch on the action of a byte. */
    static method Switch(m: A.Scan, ch: Byte) returns (r: A.Scan)
      ensures r == A.Consume(m, ch)
    {
      var st, pending, held, out := m.st, m.pending, m.held, m.out;
      var cc := Classify(ch);
      var was := st;
      st := NextState(was, cc);
      match ActionFor(was, cc) {
        case CopyInput => out, pending := Deposit(out, pending, ch), false;
        case Hold => held := ch;
        case CopyHoldAndInput => out, pending := Deposit(out, pending, held) + [ch], false;
        case CopyHoldAndInsertWS => out, pending := Deposit(out, pending, held), true;
        case InsertWS => pending := true;
        case Skip =>
        case Quit =>
      }
      r := A.Scan(st, pending, held, out);
    }

    /** A run of white space becomes one space, and never a leading one. */
    static function Deposit(out: seq<Byte>, pending: bool, ch: Byte): seq<Byte> {
      (if pending && out != [] then out + [SPACE] else out) + [ch]
    }
  }

  /** The statements left from a place in the input. */
  ghost predicate LeftAt(input: seq<Byte>, at: nat, left: seq<seq<Byte>>)
    requires at <= |input|
  {
    A.Statements(input[at..]) == left
  }

  ghost predicate Left(input: seq<Byte>, at: nat, left: seq<seq<Byte>>)
    requires at <= |input|
  {
    forall n: nat :: n == at ==> LeftAt(input, n, left)
  }

  lemma AllLeft(input: seq<Byte>)
    ensures Left(input, 0, A.Statements(input))
  {
    assert input[0..] == input;
  }

  lemma LeftStep(input: seq<Byte>, at: nat, left: seq<seq<Byte>>, s: Option<seq<Byte>>, n: int)
    requires at <= |input| && Left(input, at, left) && (s, n) == A.Next(input[at..])
    ensures s.None? ==> left == []
    ensures s.Some? ==> 0 < n <= |input| - at && left != [] && left[0] == s.value && Left(input, at + n, left[1..])
  {
    assert LeftAt(input, at, left);
    A.NextMoves(input[at..]);
    if s.Some? {
      assert input[at..][n..] == input[at + n..];
    }
  }

  /** Reads the input to the end, through the line buffer. */
  method Statements(input: seq<Byte>) returns (out: seq<seq<Byte>>)
    ensures out == A.Statements(input)
  {
    var p := new Reader(input);
    out := [];
    ghost var left := A.Statements(input);
    AllLeft(input);
    while true
      invariant p.Valid() && p.input == input && fresh(p)
      invariant Left(input, p.Offset(), left)
      invariant A.Statements(input) == out + left
      decreases |input| - p.Offset()
    {
      ghost var at := p.Offset();
      var s := p.Next();
      LeftStep(input, at, left, s, p.Offset() - at);
      if s.None? { return; }
      out := out + [s.value];
      left := left[1..];
    }
  }
}
