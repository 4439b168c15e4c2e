/** What a client's output chunk is shown as, and how many answers it accounts for. */
module CtlClient {
  import opened Prelude
  import opened CtlTables

  const BAR: Byte := 124

  /** The bytes of ") is ready." */
  const MARKER: seq<Byte> := [41, 32, 105, 115, 32, 114, 101, 97, 100, 121, 46]

  /** The constants are the source's text. */
  lemma Texts()
    ensures BAR as int == '|' as int && |MARKER| == |") is ready."|
    ensures forall i :: 0 <= i < |MARKER| ==> MARKER[i] as int == ") is ready."[i] as int
  {}

  // ---- the wrapped chunk --------------------------------------------------

  function Body(chunk: seq<Byte>): seq<Byte> {
    if chunk == [] then []
    else [chunk[0]] + (if chunk[0] == NEWLINE && |chunk| > 1 then [BAR, SPACE] else []) + Body(chunk[1..])
  }

  function Wrapped(chunk: seq<Byte>): seq<Byte> {
    [BAR, SPACE] + Body(chunk) + [NEWLINE]
  }

  /** Takes the bars of a body out again. */
  function Unbody(body: seq<Byte>): seq<Byte>
    decreases |body|
  {
    if body == [] then []
    else if body[0] == NEWLINE && |body| > 2 then [NEWLINE] + Unbody(body[3..])
    else [body[0]] + Unbody(body[1..])
  }

  function Unwrapped(wrapped: seq<Byte>): seq<Byte> {
    if |wrapped| < 3 then [] else Unbody(wrapped[2..|wrapped| - 1])
  }

  lemma {:induction false} UnbodyBody(chunk: seq<Byte>)
    ensures Unbody(Body(chunk)) == chunk
    ensures chunk != [] ==> Body(chunk) != []
  {
    if chunk != [] {
      var c, rest := chunk[0], chunk[1..];
      UnbodyBody(rest);
      var b := Body(chunk);
      if c == NEWLINE && rest != [] {
        assert b[3..] == Body(rest);
      } else {
        assert b == [c] + Body(rest);
        assert b[1..] == Body(rest);
      }
    }
  }

  /** The chunk can be read back out of what is shown. */
  lemma UnwrapWrapped(chunk: seq<Byte>)
    ensures Unwrapped(Wrapped(chunk)) == chunk
  {
    var w := Wrapped(chunk);
    assert w[2..|w| - 1] == Body(chunk);
    UnbodyBody(chunk);
    if chunk == [] {
      assert Unbody([]) == [];
    }
  }

  /** No two chunks are shown alike. */
  lemma WrapInjective(a: seq<Byte>, b: seq<Byte>)
    requires Wrapped(a) == Wrapped(b)
    ensures a == b
  {
    UnwrapWrapped(a);
    UnwrapWrapped(b);
  }

  // ---- markers ------------------------------------------------------------

  /** The places where the marker stands. */
  function Markers(s: seq<Byte>): nat {
    if s == [] then 0 else (if MARKER <= s then 1 else 0) + Markers(s[1..])
  }

  /** A word with no newline stands at the front of the body just when it does of the chunk. */
  lemma {:induction false} WordInBody(word: seq<Byte>, chunk: seq<Byte>)
    requires NEWLINE !in word
    ensures word <= Body(chunk) + [NEWLINE] <==> word <= chunk
  {
    var shown := Body(chunk) + [NEWLINE];
    assert word != [] ==> word[0] in word;
    if word != [] && chunk != [] {
      var rest := chunk[1..];
      if chunk[0] != NEWLINE {
        assert shown == [chunk[0]] + (Body(rest) + [NEWLINE]);
        WordInBody(word[1..], rest);
        PrefixTail(word, shown);
        PrefixTail(word, chunk);
        assert shown[1..] == Body(rest) + [NEWLINE];
      } else {
        assert shown[0] == NEWLINE;
      }
    }
  }

  lemma PrefixTail(word: seq<Byte>, s: seq<Byte>)
    requires word != [] && s != []
    ensures word <= s <==> word[0] == s[0] && word[1..] <= s[1..]
  {
    if word[0] == s[0] && word[1..] <= s[1..] {
      assert word == [word[0]] + word[1..];
      assert s == [s[0]] + s[1..];
      assert forall k :: 0 <= k < |word| ==> word[k] == s[k];
    }
    if word <= s {
      assert word[1..] == s[..|word|][1..];
    }
  }

  lemma NoMarkerAt(s: seq<Byte>)
    requires s != [] && s[0] != MARKER[0]
    ensures Markers(s) == Markers(s[1..])
  {}

  /** The bar behind a newline makes no marker. */
  lemma MarkersBehindBar(tail: seq<Byte>)
    ensures Markers([BAR, SPACE] + tail) == Markers(tail)
  {
    Tail(BAR, [SPACE] + tail);
    Tail(SPACE, tail);
    assert [BAR, SPACE] + tail == [BAR] + ([SPACE] + tail);
    NoMarkerAt([BAR] + ([SPACE] + tail));
    NoMarkerAt([SPACE] + tail);
  }

  lemma MarkersFirst(c: Byte, s: seq<Byte>)
    ensures Markers([c] + s) == (if MARKER <= [c] + s then 1 else 0) + Markers(s)
  {
    Tail(c, s);
  }

  lemma {:induction false} MarkersInBody(chunk: seq<Byte>)
    ensures Markers(Body(chunk) + [NEWLINE]) == Markers(chunk)
  {
    if chunk == [] {
      MarkersFirst(NEWLINE, []);
      assert [] + [NEWLINE] == [NEWLINE] + [];
    } else {
      var c, rest := chunk[0], chunk[1..];
      var tail := Body(rest) + [NEWLINE];
      MarkersInBody(rest);
      WordInBody(MARKER, chunk);
      BodyStep(chunk);
      if c == NEWLINE && rest != [] {
        MarkersFirst(c, [BAR, SPACE] + tail);
        MarkersBehindBar(tail);
      } else {
        MarkersFirst(c, tail);
      }
    }
  }

  lemma BodyStep(chunk: seq<Byte>)
    requires chunk != []
    ensures var c, tail := chunk[0], Body(chunk[1..]) + [NEWLINE];
            Body(chunk) + [NEWLINE] ==
            if c == NEWLINE && chunk[1..] != [] then [c] + ([BAR, SPACE] + tail) else [c] + tail
  {}

  lemma Tail<T>(x: T, s: seq<T>)
    ensures ([x] + s)[1..] == s
  {}

  /** Wrapping makes no marker and breaks none. */
  lemma MarkersWrapped(chunk: seq<Byte>)
    ensures Markers(Wrapped(chunk)) == Markers(chunk)
  {
    var tail := Body(chunk) + [NEWLINE];
    assert Wrapped(chunk) == [BAR, SPACE] + tail;
    MarkersBehindBar(tail);
    MarkersInBody(chunk);
  }

  /** The marker cannot overlap itself: behind one, the next stands past its end. */
  lemma {:induction false} MarkersBehind(s: seq<Byte>, k: nat)
    requires MARKER <= s && 1 <= k <= |MARKER|
    ensures Markers(s[1..]) == Markers(s[k..])
  {
    if k > 1 {
      MarkersBehind(s, k - 1);
      var t := s[k - 1..];
      assert t[0] == s[k - 1] == MARKER[k - 1] != MARKER[0];
      NoMarkerAt(t);
      assert t[1..] == s[k..];
    }
  }

  ghost predicate MarkersFrom(s: seq<Byte>, i: nat, left: int)
    requires i <= |s|
  {
    forall k: nat :: k == i ==> MarkersAt(s, k, left)
  }

  ghost predicate MarkersAt(s: seq<Byte>, i: nat, left: int)
    requires i <= |s|
  {
    Markers(s[i..]) == left
  }

  lemma AllMarkers(s: seq<Byte>)
    ensures MarkersFrom(s, 0, Markers(s))
  {
    assert s[0..] == s;
  }

  lemma NoMarkerFrom(s: seq<Byte>, i: nat, left: int)
    requires i <= |s| && MarkersFrom(s, i, left) && Markers(s[i..]) == 0
    ensures left == 0
  {
    assert MarkersAt(s, i, left);
  }

  /** Behind the first marker of s[i..], j bytes on, the rest has one fewer. */
  lemma AfterMarker(s: seq<Byte>, i: nat, j: nat, left: int)
    requires i <= |s| && MarkersFrom(s, i, left) && j + |MARKER| <= |s[i..]|
    requires MARKER <= s[i..][j..] && Markers(s[i..]) == Markers(s[i..][j..])
    ensures MarkersFrom(s, i + j + |MARKER|, left - 1)
  {
    assert MarkersAt(s, i, left);
    MarkersBehind(s[i..][j..], |MARKER|);
    DropDrop(s, i, j, |MARKER|);
  }

  lemma DropDrop<T>(s: seq<T>, i: nat, j: nat, k: nat)
    requires i + j + k <= |s|
    ensures s[i..][j..][k..] == s[i + j + k..]
  {}

  // ---- the client ---------------------------------------------------------

  datatype Status = Running | Ready | Gone

  class Client {
    var pending: int   // the answers still expected
    var state: Status

    /** Sends a statement of n answers. */
    method Send(n: int)
      modifies this
      ensures pending == n && state == Running
    {
      pending, state := n, Running;
    }

    /** Counts the markers of a wrapped chunk off what is expected. */
    method Account(wrapped: seq<Byte>)
      modifies this
      ensures pending == old(pending) - Markers(wrapped)
      ensures state == if 0 < old(pending) <= Markers(wrapped) then Ready else old(state)
    {
      AllMarkers(wrapped);
      CountOff(wrapped, Markers(wrapped));
    }

    method CountOff(wrapped: seq<Byte>, ghost count: int)
      requires MarkersFrom(wrapped, 0, count)
      modifies this
      ensures pending == old(pending) - count
      ensures state == if 0 < old(pending) <= count then Ready else old(state)
    {
      var i := 0;
      ghost var seen, left := 0, count;
      while true
        invariant i <= |wrapped| && MarkersFrom(wrapped, i, left)
        invariant left + seen == count && pending == old(pending) - seen
        invariant state == if 0 < old(pending) <= seen then Ready else old(state)
        decreases |wrapped| - i
      {
        var j := IndexMarker(wrapped[i..]);
        if j.None? {
          NoMarkerFrom(wrapped, i, left);
          return;
        }
        AfterMarker(wrapped, i, j.value, left);
        i := i + j.value + |MARKER|;
        seen, left := seen + 1, left - 1;
        pending := pending - 1;
        if pending == 0 { state := Ready; }
      }
    }

    /** One read of the client's output: what is shown of it, and what it accounts for. */
    method ReadOutput(read: seq<Byte>) returns (shown: seq<Byte>)
      modifies this
      ensures read == [] ==> shown == [] && pending == old(pending) && state == old(state)
      ensures read != [] ==>
                var chunk := BeforeNul(read);
                && shown == Wrapped(chunk)
                && pending == old(pending) - Markers(chunk)
                && state == if 0 < old(pending) <= Markers(chunk) then Ready else old(state)
    {
      if read == [] { return []; }
      var chunk := BeforeNul(read);
      shown := Wrap(chunk);
      MarkersWrapped(chunk);
      Account(shown);
    }
  }

  /** The chunk ends at a NUL byte. */
  function BeforeNul(read: seq<Byte>): (chunk: seq<Byte>)
    ensures chunk <= read && 0 !in chunk
    ensures |chunk| < |read| ==> read[|chunk|] == 0
  {
    if read == [] || read[0] == 0 then [] else [read[0]] + BeforeNul(read[1..])
  }

  /** The first place of the marker in s. */
  method IndexMarker(s: seq<Byte>) returns (at: Option<nat>)
    ensures at.Some? ==> at.value + |MARKER| <= |s| && MARKER <= s[at.value..] && Markers(s) == Markers(s[at.value..])
    ensures at.None? ==> Markers(s) == 0
  {
    var i := 0;
    assert s[0..] == s;
    while i < |s|
      invariant i <= |s| && Markers(s) == Markers(s[i..])
    {
      if MARKER <= s[i..] { return Some(i); }
      assert s[i..][1..] == s[i + 1..];
      i := i + 1;
    }
    at := None;
  }

  /** The chunk with a bar in front of it and of every line behind a newline that is not its last byte. */
  method Wrap(chunk: seq<Byte>) returns (b: seq<Byte>)
    ensures b == Wrapped(chunk)
  {
    b := [BAR, SPACE];
    assert chunk[0..] == chunk;
    for i := 0 to |chunk|
      invariant b + Body(chunk[i..]) == [BAR, SPACE] + Body(chunk)
    {
      assert chunk[i..][1..] == chunk[i + 1..];
      b := b + [chunk[i]];
      if chunk[i] == NEWLINE && i + 1 < |chunk| {
        b := b + [BAR, SPACE];
      }
    }
    assert Body(chunk[|chunk|..]) == [];
    b := b + [NEWLINE];
  }
}
