/**
 What a statement is, without the automaton: the segments a file is made of, which of their bytes are
 kept, and the semicolon that ends one. The automaton reads exactly these.
 */
module CtlSegments {
  import opened Prelude
  import opened CtlTables
  import opened CtlAutomaton

  // ---- segments -----------------------------------------------------------

  predicate White(b: Byte) {
    b == 32 || 9 <= b <= 13
  }

  /** A part of a string: a byte, two single quotes that stand for one, or an escape. */
  datatype Piece = Char(b: Byte) | Twice | Escaped(b: Byte)

  /** The pieces of a string, the last one last. */
  datatype Pieces = Empty | Then(before: Pieces, last: Piece)

  /**
   A segment: a plain byte, white space, slashes or a dash with the byte behind them, which opens
   nothing, a comment (of the slashes in front of its star all but one are text), a string; the byte
   behind a closing single quote belongs to the string's segment and opens nothing.
   */
  datatype Segment =
    | Plain(b: Byte)
    | Space(b: Byte)
    | Slashes(n: nat, b: Byte)
    | Dashed(b: Byte)
    | Block(n: nat, body: seq<Byte>)
    | Line(body: seq<Byte>)
    | Double(pieces: Pieces)
    | Single(pieces: Pieces, behind: Byte)

  predicate InDouble(p: Piece) {
    match p
    case Char(b) => b != DQUOTE && b != BACKSLASH
    case Twice => false
    case Escaped(_) => true
  }

  predicate InSingle(p: Piece) {
    match p
    case Char(b) => b != SQUOTE && b != BACKSLASH
    case Twice => true
    case Escaped(_) => true
  }

  /** The body of a block comment does not end it. */
  predicate Unclosed(body: seq<Byte>) {
    forall i :: 0 <= i < |body| - 1 ==> !(body[i] == STAR && body[i + 1] == SLASH)
  }

  predicate AllDouble(ps: Pieces) {
    ps.Then? ==> AllDouble(ps.before) && InDouble(ps.last)
  }

  predicate AllSingle(ps: Pieces) {
    ps.Then? ==> AllSingle(ps.before) && InSingle(ps.last)
  }

  predicate Formed(g: Segment) {
    match g
    case Plain(b) => !White(b) && b != SQUOTE && b != DQUOTE && b != SLASH && b != DASH
    case Space(b) => White(b)
    case Slashes(n, b) => n > 0 && b != SLASH && b != STAR
    case Dashed(b) => b != DASH
    case Block(n, body) => n > 0 && Unclosed(body)
    case Line(body) => NEWLINE !in body
    case Double(ps) => AllDouble(ps)
    case Single(ps, behind) => AllSingle(ps) && behind != SQUOTE
  }

  /** A semicolon outside strings and comments. */
  predicate Ends(g: Segment) {
    match g
    case Plain(b) => b == SEMICOLON
    case Slashes(_, b) => b == SEMICOLON
    case Dashed(b) => b == SEMICOLON
    case Single(_, behind) => behind == SEMICOLON
    case _ => false
  }

  // ---- their bytes --------------------------------------------------------

  function Times<T>(x: T, n: nat): seq<T> {
    if n == 0 then [] else Times(x, n - 1) + [x]
  }

  function RawPiece(p: Piece): seq<Byte> {
    match p
    case Char(b) => [b]
    case Twice => [SQUOTE, SQUOTE]
    case Escaped(b) => [BACKSLASH, b]
  }

  /** A quote and the pieces behind it. */
  function RawString(quote: Byte, ps: Pieces): seq<Byte> {
    match ps
    case Empty => [quote]
    case Then(before, last) => RawString(quote, before) + RawPiece(last)
  }

  function Raw(g: Segment): seq<Byte> {
    match g
    case Plain(b) => [b]
    case Space(b) => [b]
    case Slashes(n, b) => Times(SLASH, n) + [b]
    case Dashed(b) => [DASH, b]
    case Block(n, body) => Times(SLASH, n) + [STAR] + body + [STAR, SLASH]
    case Line(body) => [DASH, DASH] + body + [NEWLINE]
    case Double(ps) => RawString(DQUOTE, ps) + [DQUOTE]
    case Single(ps, behind) => RawString(SQUOTE, ps) + [SQUOTE, behind]
  }

  /** What is left of a segment: bytes, and gaps where white space or a comment was. */
  datatype Mark = Ink(b: Byte) | Gap

  function MarkOf(b: Byte): Mark {
    if White(b) then Gap else Ink(b)
  }

  /** An escaped newline is dropped with its backslash. */
  function PieceMarks(p: Piece): seq<Mark> {
    match p
    case Char(b) => [Ink(b)]
    case Twice => [Ink(SQUOTE), Ink(SQUOTE)]
    case Escaped(b) => if b == NEWLINE then [] else [Ink(BACKSLASH), Ink(b)]
  }

  function StringMarks(quote: Byte, ps: Pieces): seq<Mark> {
    match ps
    case Empty => [Ink(quote)]
    case Then(before, last) => StringMarks(quote, before) + PieceMarks(last)
  }

  function Marks(g: Segment): seq<Mark> {
    match g
    case Plain(b) => [Ink(b)]
    case Space(_) => [Gap]
    case Slashes(n, b) => Times(Ink(SLASH), n) + [MarkOf(b)]
    case Dashed(b) => [Ink(DASH), MarkOf(b)]
    case Block(n, _) => Times(Ink(SLASH), Pred(n)) + [Gap]
    case Line(_) => [Gap]
    case Double(ps) => StringMarks(DQUOTE, ps) + [Ink(DQUOTE)]
    case Single(ps, behind) => StringMarks(SQUOTE, ps) + [Ink(SQUOTE), Ink(behind)]
  }

  function Pred(n: nat): nat {
    if n == 0 then 0 else n - 1
  }

  function RawAll(gs: seq<Segment>): seq<Byte> {
    if gs == [] then [] else RawAll(gs[..|gs| - 1]) + Raw(gs[|gs| - 1])
  }

  function MarksAll(gs: seq<Segment>): seq<Mark> {
    if gs == [] then [] else MarksAll(gs[..|gs| - 1]) + Marks(gs[|gs| - 1])
  }

  predicate EndsInGap(marks: seq<Mark>) {
    marks != [] && marks[|marks| - 1] == Gap
  }

  /** The bytes, with one space for the gaps between two of them and none for those in front or behind. */
  function Written(marks: seq<Mark>): seq<Byte> {
    if marks == [] then []
    else
      var init := marks[..|marks| - 1];
      match marks[|marks| - 1]
      case Gap => Written(init)
      case Ink(b) => Written(init) + (if EndsInGap(init) && Written(init) != [] then [SPACE] else []) + [b]
  }

  // ---- a segment that has only begun --------------------------------------

  datatype Part =
    | NoPart
    | SlashPart(n: nat)
    | DashPart
    | BlockPart(n: nat, body: seq<Byte>)
    | StarPart(n: nat, body: seq<Byte>)
    | LinePart(body: seq<Byte>)
    | DoublePart(pieces: Pieces)
    | DoubleEscape(pieces: Pieces)
    | SinglePart(pieces: Pieces)
    | SingleQuote(pieces: Pieces)
    | SingleEscape(pieces: Pieces)

  predicate Begins(part: Part) {
    match part
    case NoPart => true
    case SlashPart(n) => n > 0
    case DashPart => true
    case BlockPart(n, body) => n > 0 && Unclosed(body) && (body != [] ==> body[|body| - 1] != STAR)
    case StarPart(n, body) => n > 0 && Unclosed(body)
    case LinePart(body) => NEWLINE !in body
    case DoublePart(ps) => AllDouble(ps)
    case DoubleEscape(ps) => AllDouble(ps)
    case SinglePart(ps) => AllSingle(ps)
    case SingleQuote(ps) => AllSingle(ps)
    case SingleEscape(ps) => AllSingle(ps)
  }

  function RawPart(part: Part): seq<Byte> {
    match part
    case NoPart => []
    case SlashPart(n) => Times(SLASH, n)
    case DashPart => [DASH]
    case BlockPart(n, body) => Times(SLASH, n) + [STAR] + body
    case StarPart(n, body) => Times(SLASH, n) + [STAR] + body + [STAR]
    case LinePart(body) => [DASH, DASH] + body
    case DoublePart(ps) => RawString(DQUOTE, ps)
    case DoubleEscape(ps) => RawString(DQUOTE, ps) + [BACKSLASH]
    case SinglePart(ps) => RawString(SQUOTE, ps)
    case SingleQuote(ps) => RawString(SQUOTE, ps) + [SQUOTE]
    case SingleEscape(ps) => RawString(SQUOTE, ps) + [BACKSLASH]
  }

  /** What is kept of it so far: a slash, dash or backslash that may still be part of something is not. */
  function MarksPart(part: Part): seq<Mark> {
    match part
    case NoPart => []
    case SlashPart(n) => Times(Ink(SLASH), Pred(n))
    case DashPart => []
    case BlockPart(n, _) => Times(Ink(SLASH), Pred(n))
    case StarPart(n, _) => Times(Ink(SLASH), Pred(n))
    case LinePart(_) => []
    case DoublePart(ps) => StringMarks(DQUOTE, ps)
    case DoubleEscape(ps) => StringMarks(DQUOTE, ps)
    case SinglePart(ps) => StringMarks(SQUOTE, ps)
    case SingleQuote(ps) => StringMarks(SQUOTE, ps) + [Ink(SQUOTE)]
    case SingleEscape(ps) => StringMarks(SQUOTE, ps)
  }

  // ---- one byte more ------------------------------------------------------

  datatype Step = More(part: Part) | Whole(g: Segment)

  function OneMore(part: Part, b: Byte): Step {
    match part
    case NoPart =>
      if b == SQUOTE then More(SinglePart(Empty))
      else if b == DQUOTE then More(DoublePart(Empty))
      else if b == SLASH then More(SlashPart(1))
      else if b == DASH then More(DashPart)
      else Whole(if White(b) then Space(b) else Plain(b))
    case SlashPart(n) =>
      if b == SLASH then More(SlashPart(n + 1)) else if b == STAR then More(BlockPart(n, [])) else Whole(Slashes(n, b))
    case DashPart => if b == DASH then More(LinePart([])) else Whole(Dashed(b))
    case BlockPart(n, body) => More(if b == STAR then StarPart(n, body) else BlockPart(n, body + [b]))
    case StarPart(n, body) =>
      if b == SLASH then Whole(Block(n, body))
      else More(if b == STAR then StarPart(n, body + [STAR]) else BlockPart(n, body + [STAR, b]))
    case LinePart(body) => if b == NEWLINE then Whole(Line(body)) else More(LinePart(body + [b]))
    case DoublePart(ps) =>
      if b == DQUOTE then Whole(Double(ps))
      else More(if b == BACKSLASH then DoubleEscape(ps) else DoublePart(Then(ps, Char(b))))
    case DoubleEscape(ps) => More(DoublePart(Then(ps, Escaped(b))))
    case SinglePart(ps) =>
      if b == SQUOTE then More(SingleQuote(ps))
      else More(if b == BACKSLASH then SingleEscape(ps) else SinglePart(Then(ps, Char(b))))
    case SingleQuote(ps) => if b == SQUOTE then More(SinglePart(Then(ps, Twice))) else Whole(Single(ps, b))
    case SingleEscape(ps) => More(SinglePart(Then(ps, Escaped(b))))
  }

  lemma OneMoreFormed(part: Part, b: Byte)
    requires Begins(part)
    ensures match OneMore(part, b)
            case More(q) => Begins(q)
            case Whole(g) => Formed(g)
  {}

  lemma Behind<T>(a: seq<T>, x: seq<T>, y: seq<T>)
    ensures a + (x + y) == a + x + y
  {}

  lemma TimesMore<T>(x: T, n: nat)
    ensures Times(x, n + 1) == Times(x, n) + [x]
  {}

  lemma Two<T>(a: seq<T>, x: T, y: T)
    ensures a + [x] + [y] == a + [x, y]
  {}

  function RawStep(step: Step): seq<Byte> {
    match step
    case More(q) => RawPart(q)
    case Whole(g) => Raw(g)
  }

  function MarksStep(step: Step): seq<Mark> {
    match step
    case More(q) => MarksPart(q)
    case Whole(g) => Marks(g)
  }

  /** The bytes of what comes of a part are its own and the new one. */
  ghost predicate AddsRaw(part: Part, b: Byte) {
    RawStep(OneMore(part, b)) == RawPart(part) + [b]
  }

  lemma OneMoreRaw(part: Part, b: Byte)
    ensures AddsRaw(part, b)
  {
    match part
    case NoPart => NoneRaw(b);
    case SlashPart(n) => SlashRaw(n, b);
    case DashPart => DashRaw(b);
    case BlockPart(n, body) => BlockRaw(n, body, b);
    case StarPart(n, body) => StarRaw(n, body, b);
    case LinePart(body) => LineRaw(body, b);
    case DoublePart(ps) => DoubleRaw(ps, b);
    case DoubleEscape(ps) => DoubleEscapeRaw(ps, b);
    case SinglePart(ps) => SingleRaw(ps, b);
    case SingleQuote(ps) => QuoteRaw(ps, b);
    case SingleEscape(ps) => SingleEscapeRaw(ps, b);
  }

  lemma NoneRaw(b: Byte)
    ensures AddsRaw(NoPart, b)
  {
    TimesMore(SLASH, 0);
  }

  lemma SlashRaw(n: nat, b: Byte)
    ensures AddsRaw(SlashPart(n), b)
  {
    TimesMore(SLASH, n);
  }

  lemma DashRaw(b: Byte)
    ensures AddsRaw(DashPart, b)
  {}

  lemma BlockRaw(n: nat, body: seq<Byte>, b: Byte)
    ensures AddsRaw(BlockPart(n, body), b)
  {
    Behind(Times(SLASH, n) + [STAR], body, [b]);
  }

  lemma StarRaw(n: nat, body: seq<Byte>, b: Byte)
    ensures AddsRaw(StarPart(n, body), b)
  {
    var open := Times(SLASH, n) + [STAR];
    Behind(open, body, [STAR]);
    Behind(open, body, [STAR, b]);
    Two(open + body, STAR, b);
  }

  lemma LineRaw(body: seq<Byte>, b: Byte)
    ensures AddsRaw(LinePart(body), b)
  {
    Behind([DASH, DASH], body, [b]);
  }

  lemma DoubleRaw(ps: Pieces, b: Byte)
    ensures AddsRaw(DoublePart(ps), b)
  {
  }

  lemma DoubleEscapeRaw(ps: Pieces, b: Byte)
    ensures AddsRaw(DoubleEscape(ps), b)
  {
    Two(RawString(DQUOTE, ps), BACKSLASH, b);
  }

  lemma SingleRaw(ps: Pieces, b: Byte)
    ensures AddsRaw(SinglePart(ps), b)
  {
  }

  lemma SingleEscapeRaw(ps: Pieces, b: Byte)
    ensures AddsRaw(SingleEscape(ps), b)
  {
    Two(RawString(SQUOTE, ps), BACKSLASH, b);
  }

  lemma QuoteRaw(ps: Pieces, b: Byte)
    ensures AddsRaw(SingleQuote(ps), b)
  {
    Two(RawString(SQUOTE, ps), SQUOTE, b);
  }

  /** What a byte adds to what is kept. */
  function Adds(part: Part, b: Byte): seq<Mark> {
    match part
    case NoPart => if b == SLASH || b == DASH then [] else [MarkOf(b)]
    case SlashPart(_) => if b == SLASH then [Ink(b)] else if b == STAR then [] else [Ink(SLASH), MarkOf(b)]
    case DashPart => if b == DASH then [] else [Ink(DASH), MarkOf(b)]
    case BlockPart(_, _) => []
    case StarPart(_, _) => if b == SLASH then [Gap] else []
    case LinePart(_) => if b == NEWLINE then [Gap] else []
    case DoublePart(_) => if b == BACKSLASH then [] else [Ink(b)]
    case DoubleEscape(_) => if b == NEWLINE then [] else [Ink(BACKSLASH), Ink(b)]
    case SinglePart(_) => if b == BACKSLASH then [] else [Ink(b)]
    case SingleQuote(_) => [Ink(b)]
    case SingleEscape(_) => if b == NEWLINE then [] else [Ink(BACKSLASH), Ink(b)]
  }

  ghost predicate AddsMarks(part: Part, b: Byte) {
    MarksStep(OneMore(part, b)) == MarksPart(part) + Adds(part, b)
  }

  lemma OneMoreMarks(part: Part, b: Byte)
    requires Begins(part)
    ensures AddsMarks(part, b)
  {
    match part
    case NoPart => NoneMarks(b);
    case SlashPart(n) => SlashMarks(n, b);
    case DoublePart(ps) => DoubleMarks(ps, b);
    case DoubleEscape(ps) => DoubleEscapeMarks(ps, b);
    case SinglePart(ps) => SingleMarks(ps, b);
    case SingleQuote(ps) => QuoteMarks(ps, b);
    case SingleEscape(ps) => SingleEscapeMarks(ps, b);
    case _ => OtherMarks(part, b);
  }

  lemma NoneMarks(b: Byte)
    ensures AddsMarks(NoPart, b)
  {}

  lemma OtherMarks(part: Part, b: Byte)
    requires part.DashPart? || part.BlockPart? || part.StarPart? || part.LinePart?
    ensures AddsMarks(part, b)
  {}

  lemma SlashMarks(n: nat, b: Byte)
    requires n > 0
    ensures AddsMarks(SlashPart(n), b)
  {
    TimesMore(Ink(SLASH), n - 1);
    Two(Times(Ink(SLASH), n - 1), Ink(SLASH), MarkOf(b));
  }

  lemma DoubleMarks(ps: Pieces, b: Byte)
    ensures AddsMarks(DoublePart(ps), b)
  {
  }

  lemma DoubleEscapeMarks(ps: Pieces, b: Byte)
    ensures AddsMarks(DoubleEscape(ps), b)
  {
  }

  lemma SingleMarks(ps: Pieces, b: Byte)
    ensures AddsMarks(SinglePart(ps), b)
  {
  }

  lemma SingleEscapeMarks(ps: Pieces, b: Byte)
    ensures AddsMarks(SingleEscape(ps), b)
  {
  }

  lemma QuoteMarks(ps: Pieces, b: Byte)
    ensures AddsMarks(SingleQuote(ps), b)
  {
    Two(StringMarks(SQUOTE, ps), Ink(SQUOTE), Ink(b));
  }

  // ---- the automaton does so ----------------------------------------------

  function StateOf(part: Part): State {
    match part
    case NoPart => Copy
    case SlashPart(_) => OneSlash
    case DashPart => OneDash
    case BlockPart(_, _) => InCComment
    case StarPart(_, _) => OneStar
    case LinePart(_) => InSQLComment
    case DoublePart(_) => InDQString
    case DoubleEscape(_) => InDQStringEscape
    case SinglePart(_) => InSQString
    case SingleQuote(_) => InSQStringOneSQ
    case SingleEscape(_) => InSQStringEscape
  }

  predicate Keeps(m: Scan, part: Part) {
    && (part.SlashPart? ==> m.held == SLASH) && (part.DashPart? ==> m.held == DASH)
    && (part.DoubleEscape? || part.SingleEscape? ==> m.held == BACKSLASH)
  }

  /** What was written and whether a space is pending, with a mark more. */
  function Put(out: seq<Byte>, pending: bool, k: Mark): (seq<Byte>, bool) {
    match k
    case Gap => (out, true)
    case Ink(b) => (out + (if pending && out != [] then [SPACE] else []) + [b], false)
  }

  function PutAll(out: seq<Byte>, pending: bool, ks: seq<Mark>): (seq<Byte>, bool) {
    if ks == [] then (out, pending) else
      var (o, p) := PutAll(out, pending, ks[..|ks| - 1]);
      Put(o, p, ks[|ks| - 1])
  }

  lemma PutOne(out: seq<Byte>, pending: bool, k: Mark)
    ensures PutAll(out, pending, [k]) == Put(out, pending, k)
  {
    assert [k][..0] == [];
  }

  lemma PutTwo(out: seq<Byte>, pending: bool, j: Mark, k: Mark)
    ensures PutAll(out, pending, [j, k]) == (var (o, p) := Put(out, pending, j); Put(o, p, k))
  {
    assert [j, k][..1] == [j];
    PutOne(out, pending, j);
  }

  lemma PutInk(out: seq<Byte>, pending: bool, a: Byte, b: Byte)
    ensures PutAll(out, pending, [Ink(a), Ink(b)]) == (Put(out, pending, Ink(a)).0 + [b], false)
  {
    PutTwo(out, pending, Ink(a), Ink(b));
    var o := Put(out, pending, Ink(a)).0;
    assert o + [] + [b] == o + [b];
  }

  /** One byte of the automaton is one byte of the segments. */
  lemma ConsumeState(m: Scan, part: Part, b: Byte)
    requires m.st == StateOf(part) && Keeps(m, part)
    ensures var m' := Consume(m, b);
            match OneMore(part, b)
            case More(q) => m'.st == StateOf(q) && Keeps(m', q)
            case Whole(g) => m'.st == if Ends(g) then Accept else Copy
  {}

  lemma ConsumeWrites(m: Scan, part: Part, b: Byte)
    requires m.st == StateOf(part) && Keeps(m, part)
    ensures var m' := Consume(m, b);
            (m'.out, m'.pending) == PutAll(m.out, m.pending, Adds(part, b))
  {
    PutOne(m.out, m.pending, Ink(b));
    PutOne(m.out, m.pending, Gap);
    PutTwo(m.out, m.pending, Ink(m.held), Gap);
    PutInk(m.out, m.pending, m.held, b);
  }

  // ---- a whole parse ------------------------------------------------------

  /** The segments read so far, and the one begun. */
  datatype Parse = Parse(gs: seq<Segment>, part: Part)

  predicate EndsLast(gs: seq<Segment>) {
    gs != [] && Ends(gs[|gs| - 1])
  }

  function Grow(p: Parse, b: Byte): Parse {
    if EndsLast(p.gs) then p
    else
      match OneMore(p.part, b)
      case More(q) => Parse(p.gs, q)
      case Whole(g) => Parse(p.gs + [g], NoPart)
  }

  function ParseAt(s: seq<Byte>, n: nat): Parse
    requires n <= |s|
  {
    if n == 0 then Parse([], NoPart) else Grow(ParseAt(s, n - 1), s[n - 1])
  }

  /** All are segments, and none but perhaps the last ends a statement. */
  ghost predicate Proper(gs: seq<Segment>) {
    && (forall i :: 0 <= i < |gs| ==> Formed(gs[i]))
    && (forall i :: 0 <= i < |gs| - 1 ==> !Ends(gs[i]))
  }

  ghost predicate Sound(p: Parse) {
    Proper(p.gs) && Begins(p.part) && (EndsLast(p.gs) ==> p.part == NoPart)
  }

  function RawOf(p: Parse): seq<Byte> {
    RawAll(p.gs) + RawPart(p.part)
  }

  function MarksOf(p: Parse): seq<Mark> {
    MarksAll(p.gs) + MarksPart(p.part)
  }

  lemma GrowSound(p: Parse, b: Byte)
    requires Sound(p)
    ensures Sound(Grow(p, b))
  {
    OneMoreFormed(p.part, b);
  }

  lemma OneSegmentMore(gs: seq<Segment>, g: Segment)
    ensures RawAll(gs + [g]) == RawAll(gs) + Raw(g) && MarksAll(gs + [g]) == MarksAll(gs) + Marks(g)
  {
    assert (gs + [g])[..|gs|] == gs;
  }

  lemma NoMore<T>(a: seq<T>)
    ensures a + [] == a
  {}

  lemma GrowRaw(p: Parse, b: Byte)
    requires !EndsLast(p.gs)
    ensures RawOf(Grow(p, b)) == RawOf(p) + [b]
  {
    OneMoreRaw(p.part, b);
    Behind(RawAll(p.gs), RawPart(p.part), [b]);
    match OneMore(p.part, b)
    case More(q) =>
    case Whole(g) =>
      OneSegmentMore(p.gs, g);
      NoMore(RawAll(p.gs + [g]));
  }

  lemma GrowMarks(p: Parse, b: Byte)
    requires !EndsLast(p.gs) && Begins(p.part)
    ensures MarksOf(Grow(p, b)) == MarksOf(p) + Adds(p.part, b)
  {
    OneMoreMarks(p.part, b);
    Behind(MarksAll(p.gs), MarksPart(p.part), Adds(p.part, b));
    match OneMore(p.part, b)
    case More(q) =>
    case Whole(g) =>
      OneSegmentMore(p.gs, g);
      NoMore(MarksAll(p.gs + [g]));
  }

  lemma {:induction false} WrittenPut(marks: seq<Mark>, ks: seq<Mark>)
    ensures PutAll(Written(marks), EndsInGap(marks), ks) == (Written(marks + ks), EndsInGap(marks + ks))
    decreases |ks|
  {
    if ks == [] {
      NoMore(marks);
    } else {
      var init, k := ks[..|ks| - 1], ks[|ks| - 1];
      WrittenPut(marks, init);
      assert marks + ks == marks + init + [k];
      assert (marks + init + [k])[..|marks + init|] == marks + init;
    }
  }

  /** The automaton stands where the segments do. */
  ghost predicate Stands(m: Scan, p: Parse) {
    && m.out == Written(MarksOf(p))
    && if EndsLast(p.gs) then m.st == Accept
       else m.st == StateOf(p.part) && Keeps(m, p.part) && m.pending == EndsInGap(MarksOf(p))
  }

  lemma StandsStep(m: Scan, p: Parse, b: Byte)
    requires Stands(m, p) && Sound(p) && !EndsLast(p.gs)
    ensures Stands(Consume(m, b), Grow(p, b))
  {
    ConsumeState(m, p.part, b);
    ConsumeWrites(m, p.part, b);
    GrowMarks(p, b);
    WrittenPut(MarksOf(p), Adds(p.part, b));
  }

  ghost predicate StandsAt(s: seq<Byte>, n: nat) {
    forall k: nat :: k == n && k <= |s| ==> Sound(ParseAt(s, k)) && Stands(After(s, k), ParseAt(s, k))
  }

  lemma {:induction false} AfterStands(s: seq<Byte>, n: nat)
    requires n <= |s|
    ensures StandsAt(s, n)
  {
    if n == 0 {
      StartStands(s);
    } else {
      AfterStands(s, n - 1);
      NextStands(s, n);
    }
  }

  lemma StartStands(s: seq<Byte>)
    ensures StandsAt(s, 0)
  {}

  lemma NextStands(s: seq<Byte>, n: nat)
    requires 0 < n <= |s| && StandsAt(s, n - 1)
    ensures StandsAt(s, n)
  {
    var p := ParseAt(s, n - 1);
    GrowSound(p, s[n - 1]);
    if EndsLast(p.gs) {
      assert Consume(After(s, n - 1), s[n - 1]).st == Accept;
    } else {
      StandsStep(After(s, n - 1), p, s[n - 1]);
    }
  }

  /** While no segment ends the statement, the segments are the bytes read. */
  lemma ParseRaw(s: seq<Byte>, n: nat)
    requires n <= |s| && forall k :: 0 <= k < n ==> !EndedAt(s, k)
    ensures RawOf(ParseAt(s, n)) == s[..n]
  {
    FrontRaw(s, n);
  }

  /** ParseRaw, for the induction: unfolded only where a byte is read. */
  ghost predicate RawAt(s: seq<Byte>, n: nat) {
    forall k: nat :: k == n && k <= |s| ==> RawOf(ParseAt(s, k)) == s[..k]
  }

  lemma {:induction false} FrontRaw(s: seq<Byte>, n: nat)
    requires n <= |s| && forall k :: 0 <= k < n ==> !EndedAt(s, k)
    ensures RawAt(s, n)
  {
    if n == 0 {
      NoneRead(s);
    } else {
      FrontRaw(s, n - 1);
      assert !EndedAt(s, n - 1);
      NextRaw(s, n);
    }
  }

  lemma NoneRead(s: seq<Byte>)
    ensures RawAt(s, 0)
  {}

  lemma NextRaw(s: seq<Byte>, n: nat)
    requires 0 < n <= |s| && RawAt(s, n - 1) && !EndsLast(ParseAt(s, n - 1).gs)
    ensures RawAt(s, n)
  {
    LastRead(s, n, s[..n - 1]);
    OneLonger(s, n);
  }

  lemma LastRead(s: seq<Byte>, n: nat, read: seq<Byte>)
    requires 0 < n <= |s| && !EndsLast(ParseAt(s, n - 1).gs) && RawOf(ParseAt(s, n - 1)) == read
    ensures RawOf(ParseAt(s, n)) == read + [s[n - 1]]
  {
    GrowRaw(ParseAt(s, n - 1), s[n - 1]);
  }

  lemma OneLonger(s: seq<Byte>, n: nat)
    requires 0 < n <= |s|
    ensures s[..n] == s[..n - 1] + [s[n - 1]]
  {}

  predicate EndedAt(s: seq<Byte>, k: nat)
    requires k <= |s|
  {
    EndsLast(ParseAt(s, k).gs)
  }

  // ---- the segments are the only ones -------------------------------------

  /** What a part was before its last byte. */
  function Before(part: Part): (Part, Byte) {
    match part
    case NoPart => (NoPart, SPACE)
    case SlashPart(n) => (if n <= 1 then NoPart else SlashPart(n - 1), SLASH)
    case DashPart => (NoPart, DASH)
    case BlockPart(n, body) =>
      if body == [] then (SlashPart(n), STAR)
      else
        var init, b := body[..|body| - 1], body[|body| - 1];
        if init != [] && init[|init| - 1] == STAR then (StarPart(n, init[..|init| - 1]), b) else (BlockPart(n, init), b)
    case StarPart(n, body) =>
      if body != [] && body[|body| - 1] == STAR then (StarPart(n, body[..|body| - 1]), STAR)
      else (BlockPart(n, body), STAR)
    case LinePart(body) => if body == [] then (DashPart, DASH) else (LinePart(body[..|body| - 1]), body[|body| - 1])
    case DoublePart(ps) => (
      match ps
      case Empty => (NoPart, DQUOTE)
      case Then(before, Escaped(b)) => (DoubleEscape(before), b)
      case Then(before, Char(b)) => (DoublePart(before), b)
      case Then(before, Twice) => (DoublePart(before), DQUOTE))
    case DoubleEscape(ps) => (DoublePart(ps), BACKSLASH)
    case SinglePart(ps) => (
      match ps
      case Empty => (NoPart, SQUOTE)
      case Then(before, Escaped(b)) => (SingleEscape(before), b)
      case Then(before, Char(b)) => (SinglePart(before), b)
      case Then(before, Twice) => (SingleQuote(before), SQUOTE))
    case SingleQuote(ps) => (SinglePart(ps), SQUOTE)
    case SingleEscape(ps) => (SinglePart(ps), BACKSLASH)
  }

  lemma BeforeIs(part: Part)
    requires Begins(part) && part != NoPart
    ensures var (was, b) := Before(part);
            Begins(was) && OneMore(was, b) == More(part)
  {
    if part.BlockPart? {
      BeforeBlock(part.n, part.body);
    } else if part.StarPart? {
      BeforeStar(part.n, part.body);
    } else if part.LinePart? && part.body != [] {
      LastOf(part.body);
    }
  }

  lemma LastOf<T>(s: seq<T>)
    requires s != []
    ensures s == s[..|s| - 1] + [s[|s| - 1]]
  {}

  lemma BeforeBlock(n: nat, body: seq<Byte>)
    requires Begins(BlockPart(n, body))
    ensures var (was, b) := Before(BlockPart(n, body));
            Begins(was) && OneMore(was, b) == More(BlockPart(n, body))
  {
    if body != [] {
      var init := body[..|body| - 1];
      LastOf(body);
      if init != [] && init[|init| - 1] == STAR {
        LastOf(init);
        Two(init[..|init| - 1], STAR, body[|body| - 1]);
        assert body[|init| - 1] == STAR;
      }
    }
  }

  lemma BeforeStar(n: nat, body: seq<Byte>)
    requires Begins(StarPart(n, body))
    ensures var (was, b) := Before(StarPart(n, body));
            Begins(was) && OneMore(was, b) == More(StarPart(n, body))
  {
    if body != [] && body[|body| - 1] == STAR {
      LastOf(body);
    }
  }

  ghost predicate HasAt(s: seq<Byte>, k: nat, x: seq<Byte>) {
    k + |x| <= |s| && s[k..k + |x|] == x
  }

  lemma HasFront(s: seq<Byte>, k: nat, x: seq<Byte>, b: Byte)
    requires HasAt(s, k, x + [b])
    ensures HasAt(s, k, x) && s[k + |x|] == b
  {
    var y := s[k..k + |x + [b]|];
    assert y[..|x|] == x && y[|x|] == b;
    assert s[k..k + |x|] == y[..|x|];
  }

  /** What was read of the first k bytes. */
  ghost predicate Reads(s: seq<Byte>, k: nat, p: Parse) {
    forall j: nat :: j == k && j <= |s| ==> ParseAt(s, j) == p
  }

  lemma ReadsMore(s: seq<Byte>, k: nat, p: Parse)
    requires k < |s| && Reads(s, k, p)
    ensures Reads(s, k + 1, Grow(p, s[k]))
  {}

  /** Its bytes make a part. */
  lemma {:induction false} PartGrows(s: seq<Byte>, k: nat, gs: seq<Segment>, part: Part)
    requires k <= |s| && Reads(s, k, Parse(gs, NoPart)) && !EndsLast(gs)
    requires Begins(part) && HasAt(s, k, RawPart(part))
    ensures Reads(s, k + |RawPart(part)|, Parse(gs, part))
    decreases |RawPart(part)|
  {
    if part != NoPart {
      var (was, b) := Before(part);
      BeforeRaw(part);
      HasFront(s, k, RawPart(was), b);
      PartGrows(s, k, gs, was);
      ReadsMore(s, k + |RawPart(was)|, Parse(gs, was));
    }
  }

  lemma BeforeRaw(part: Part)
    requires Begins(part) && part != NoPart
    ensures var (was, b) := Before(part);
            Begins(was) && OneMore(was, b) == More(part) && RawPart(part) == RawPart(was) + [b]
  {
    var (was, b) := Before(part);
    BeforeIs(part);
    OneMoreRaw(was, b);
  }

  /** The part a segment ends, and its last byte. */
  function Opening(g: Segment): (Part, Byte) {
    match g
    case Plain(b) => (NoPart, b)
    case Space(b) => (NoPart, b)
    case Slashes(n, b) => (SlashPart(n), b)
    case Dashed(b) => (DashPart, b)
    case Block(n, body) => (StarPart(n, body), SLASH)
    case Line(body) => (LinePart(body), NEWLINE)
    case Double(ps) => (DoublePart(ps), DQUOTE)
    case Single(ps, behind) => (SingleQuote(ps), behind)
  }

  lemma OpeningIs(g: Segment)
    requires Formed(g)
    ensures var (part, b) := Opening(g);
            Begins(part) && OneMore(part, b) == Whole(g)
  {}

  lemma OpeningRaw(g: Segment)
    requires Formed(g)
    ensures var (part, b) := Opening(g);
            Begins(part) && OneMore(part, b) == Whole(g) && Raw(g) == RawPart(part) + [b]
  {
    var (part, b) := Opening(g);
    OpeningIs(g);
    OneMoreRaw(part, b);
  }

  lemma SegmentGrows(s: seq<Byte>, k: nat, gs: seq<Segment>, g: Segment)
    requires k <= |s| && Reads(s, k, Parse(gs, NoPart)) && !EndsLast(gs)
    requires Formed(g) && HasAt(s, k, Raw(g))
    ensures Reads(s, k + |Raw(g)|, Parse(gs + [g], NoPart))
  {
    var (part, b) := Opening(g);
    OpeningRaw(g);
    HasFront(s, k, RawPart(part), b);
    PartGrows(s, k, gs, part);
    ReadsMore(s, k + |RawPart(part)|, Parse(gs, part));
  }

  lemma NothingRead(s: seq<Byte>)
    ensures Reads(s, 0, Parse([], NoPart))
  {}

  /** The bytes of segments are read as these. */
  lemma {:induction false} SegmentsGrow(s: seq<Byte>, gs: seq<Segment>)
    requires Proper(gs) && RawAll(gs) <= s
    ensures Reads(s, |RawAll(gs)|, Parse(gs, NoPart))
    decreases |gs|
  {
    if gs == [] {
      NothingRead(s);
    } else {
      var init, g := gs[..|gs| - 1], gs[|gs| - 1];
      LastOf(gs);
      PrefixThen(s, RawAll(init), Raw(g));
      SegmentsGrow(s, init);
      SegmentGrows(s, |RawAll(init)|, init, g);
    }
  }

  lemma PrefixThen(s: seq<Byte>, a: seq<Byte>, x: seq<Byte>)
    requires a + x <= s
    ensures a <= s && HasAt(s, |a|, x)
  {
    assert s[..|a|] == (a + x)[..|a|] == a;
    assert s[|a|..|a| + |x|] == (a + x)[|a|..] == x;
  }

  // ---- statements ---------------------------------------------------------

  /** The first n bytes are segments, of which the last and no other ends the statement. */
  ghost predicate Closes(s: seq<Byte>, n: nat, gs: seq<Segment>) {
    n <= |s| && RawAll(gs) == s[..n] && Proper(gs) && EndsLast(gs)
  }

  /** All of s is segments, of which none ends the statement, and one that has only begun. */
  ghost predicate Falls(s: seq<Byte>, gs: seq<Segment>, part: Part) {
    s == RawAll(gs) + RawPart(part) && Proper(gs) && !EndsLast(gs) && Begins(part)
  }

  lemma {:induction false} EndedStays(s: seq<Byte>, k: nat, n: nat)
    requires k <= n <= |s| && EndedAt(s, k)
    ensures ParseAt(s, n) == ParseAt(s, k)
  {
    if k < n {
      EndedStays(s, k, n - 1);
    }
  }

  lemma EndedIsAccepted(s: seq<Byte>, n: nat)
    requires n <= |s|
    ensures EndedAt(s, n) <==> After(s, n).st == Accept
    ensures After(s, n).out == Written(MarksOf(ParseAt(s, n)))
  {
    AfterStands(s, n);
    assert Stands(After(s, n), ParseAt(s, n));
  }

  lemma CloseReads(s: seq<Byte>, n: nat, gs: seq<Segment>)
    requires Closes(s, n, gs)
    ensures Next(s) == (Some(Written(MarksAll(gs))), n) && After(s, n).st == Accept
  {
    SegmentsGrow(s, gs);
    NoMore(MarksAll(gs));
    EndedIsAccepted(s, n);
    forall k | 0 <= k < n
      ensures OpenAt(s, k)
    {
      NotBefore(s, n, gs, k);
      EndedIsAccepted(s, k);
    }
    AcceptedIs(s, n);
    NextMeans(s);
  }

  /** A statement that ended earlier would have fewer bytes. */
  lemma NotBefore(s: seq<Byte>, n: nat, gs: seq<Segment>, k: nat)
    requires Closes(s, n, gs) && ParseAt(s, n) == Parse(gs, NoPart) && k < n
    ensures !EndedAt(s, k)
  {
    if EndedAt(s, k) {
      var first := FirstEnded(s, k);
      ParseRaw(s, first);
      EndedStays(s, first, n);
      NoMore(RawAll(gs));
      assert false;
    }
  }

  lemma FirstEnded(s: seq<Byte>, k: nat) returns (first: nat)
    requires k <= |s| && EndedAt(s, k)
    ensures first <= k && EndedAt(s, first) && forall i :: 0 <= i < first ==> !EndedAt(s, i)
  {
    first := 0;
    while !EndedAt(s, first)
      invariant first <= k && forall i :: 0 <= i < first ==> !EndedAt(s, i)
      decreases k - first
    {
      first := first + 1;
    }
  }

  lemma FallReads(s: seq<Byte>, gs: seq<Segment>, part: Part)
    requires Falls(s, gs, part)
    ensures var t := Written(MarksAll(gs) + MarksPart(part));
            Next(s) == (if t == [] then None else Some(t), |s|) && After(s, |s|).st != Accept
  {
    SegmentsGrow(s, gs);
    PrefixThen(s, RawAll(gs), RawPart(part));
    PartGrows(s, |RawAll(gs)|, gs, part);
    FallEnd(s, gs, part);
  }

  lemma FallEnd(s: seq<Byte>, gs: seq<Segment>, part: Part)
    requires Reads(s, |s|, Parse(gs, part)) && !EndsLast(gs)
    ensures var t := Written(MarksAll(gs) + MarksPart(part));
            Next(s) == (if t == [] then None else Some(t), |s|) && After(s, |s|).st != Accept
  {
    EndedIsAccepted(s, |s|);
    assert ParseAt(s, |s|) == Parse(gs, part);
    NoAccept(s);
    NextMeans(s);
  }

  lemma NoAccept(s: seq<Byte>)
    requires After(s, |s|).st != Accept
    ensures AcceptedFrom(s, 0) == None
  {
    var r := AcceptedFrom(s, 0);
    if r.Some? { AcceptStays(s, r.value, |s|); }
  }

  lemma OneOrOther(s: seq<Byte>)
    ensures (exists n, gs :: Closes(s, n, gs)) || (exists gs, part :: Falls(s, gs, part))
  {
    var p := ParseAt(s, |s|);
    AfterStands(s, |s|);
    if EndedAt(s, |s|) {
      var n := FirstEnded(s, |s|);
      ParseRaw(s, n);
      AfterStands(s, n);
      NoMore(RawAll(ParseAt(s, n).gs));
      assert Closes(s, n, ParseAt(s, n).gs);
    } else {
      forall k | 0 <= k < |s|
        ensures !EndedAt(s, k)
      {
        if EndedAt(s, k) { EndedStays(s, k, |s|); }
      }
      ParseRaw(s, |s|);
      assert s[..|s|] == s;
      assert Falls(s, p.gs, p.part);
    }
  }

  /**
   The next statement of any input: it ends after n bytes exactly when these are segments of which the
   last, and no other, is or ends in a plain semicolon, and is what they keep. Otherwise the input is
   segments and the beginning of one, and what they keep so far is the last statement, if there is any.
   */
  lemma NextIsSegments(s: seq<Byte>)
    ensures (exists n, gs :: Closes(s, n, gs)) || (exists gs, part :: Falls(s, gs, part))
    ensures forall n: nat, gs :: Closes(s, n, gs) ==> Next(s) == (Some(Written(MarksAll(gs))), n)
    ensures forall gs, part :: Falls(s, gs, part) ==>
              var t := Written(MarksAll(gs) + MarksPart(part));
              Next(s) == (if t == [] then None else Some(t), |s|)
  {
    OneOrOther(s);
    forall n: nat, gs | Closes(s, n, gs)
      ensures Next(s) == (Some(Written(MarksAll(gs))), n)
    {
      CloseReads(s, n, gs);
    }
    forall gs, part | Falls(s, gs, part)
      ensures var t := Written(MarksAll(gs) + MarksPart(part));
              Next(s) == (if t == [] then None else Some(t), |s|)
    {
      FallReads(s, gs, part);
    }
  }

  /** A semicolon ended the statement exactly when its bytes close so. */
  lemma EndedIsClosed(s: seq<Byte>, t: seq<Byte>)
    ensures Ended(s, t) <==> exists n, gs :: Closes(s, n, gs) && t == Written(MarksAll(gs))
  {
    OneOrOther(s);
    if n, gs :| Closes(s, n, gs) {
      CloseReads(s, n, gs);
    } else {
      var gs, part :| Falls(s, gs, part);
      FallReads(s, gs, part);
      NextMeans(s);
    }
    forall n, gs | Closes(s, n, gs)
      ensures Ended(s, Written(MarksAll(gs)))
    {
      CloseReads(s, n, gs);
    }
  }
}
