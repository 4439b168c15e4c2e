/** The tables of the .ctl reader: character classes, next state and action. */
module CtlTables {

  type Byte = b: int | 0 <= b < 256

  const NEWLINE: Byte := 10
  const SPACE: Byte := 32
  const DQUOTE: Byte := 34
  const SQUOTE: Byte := 39
  const STAR: Byte := 42
  const DASH: Byte := 45
  const SLASH: Byte := 47
  const SEMICOLON: Byte := 59
  const QUESTION: Byte := 63
  const BACKSLASH: Byte := 92

  datatype Class = NL | WS | SQ | DQ | Escape | Slash | Star | Dash | Semi | Other

  /** Eight bytes are a class of their own; the rest of C's white space is WS. */
  function Classify(b: Byte): Class {
    if b == NEWLINE then NL
    else if b == SQUOTE then SQ
    else if b == DQUOTE then DQ
    else if b == BACKSLASH then Escape
    else if b == SLASH then Slash
    else if b == STAR then Star
    else if b == DASH then Dash
    else if b == SEMICOLON then Semi
    else if b == SPACE || b == 9 || b == 11 || b == 12 || b == 13 then WS
    else Other
  }

  datatype State =
    | Accept
    | Copy
    | OneSlash
    | InCComment
    | OneStar
    | OneDash
    | InSQLComment
    | InDQString
    | InDQStringEscape
    | InSQString
    | InSQStringOneSQ
    | InSQStringEscape

  datatype Action =
    | CopyInput
    | Hold
    | CopyHoldAndInput
    | CopyHoldAndInsertWS
    | InsertWS
    | Skip
    | Quit

  function NextState(st: State, c: Class): State {
    match st
    case Accept => Accept
    case Copy => (
      match c
      case SQ => InSQString
      case DQ => InDQString
      case Slash => OneSlash
      case Dash => OneDash
      case Semi => Accept
      case _ => Copy)
    case OneSlash => (
      match c
      case Slash => OneSlash
      case Star => InCComment
      case Semi => Accept
      case _ => Copy)
    case InCComment => if c == Star then OneStar else InCComment
    case OneStar => if c == Slash then Copy else if c == Star then OneStar else InCComment
    case OneDash => if c == Dash then InSQLComment else if c == Semi then Accept else Copy
    case InSQLComment => if c == NL then Copy else InSQLComment
    case InDQString => if c == DQ then Copy else if c == Escape then InDQStringEscape else InDQString
    case InDQStringEscape => InDQString
    case InSQString => if c == SQ then InSQStringOneSQ else if c == Escape then InSQStringEscape else InSQString
    case InSQStringOneSQ => if c == SQ then InSQString else if c == Semi then Accept else Copy
    case InSQStringEscape => InSQString
  }

  function ActionFor(st: State, c: Class): Action {
    match st
    case Accept => Quit
    case Copy => if c == NL || c == WS then InsertWS else if c == Slash || c == Dash then Hold else CopyInput
    case OneSlash =>
      if c == NL || c == WS then CopyHoldAndInsertWS
      else if c == Slash then CopyInput
      else if c == Star then Skip
      else CopyHoldAndInput
    case InCComment => Skip
    case OneStar => if c == Slash then InsertWS else Skip
    case OneDash =>
      if c == NL || c == WS then CopyHoldAndInsertWS
      else if c == Dash then Skip
      else CopyHoldAndInput
    case InSQLComment => if c == NL then InsertWS else Skip
    case InDQString => if c == Escape then Hold else CopyInput
    case InDQStringEscape => if c == NL then Skip else CopyHoldAndInput
    case InSQString => if c == Escape then Hold else CopyInput
    case InSQStringOneSQ => CopyInput
    case InSQStringEscape => if c == NL then Skip else CopyHoldAndInput
  }
}
