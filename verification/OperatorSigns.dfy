/** The operators of expressions, and how characters are read as operators
    (Cm.Parser/Expression.parser and `GetOpStr`, Cm.Ast/Expression.hpp). */
module OperatorSigns {

  datatype Symbol =
    | Equivalence | Implication | OrOr | AndAnd | Bar | Caret | Ampersand | Equal | NotEqual
    | Less | Greater | LessEqual | GreaterEqual | ShiftLeft | ShiftRight | Plus | Minus
    | Star | Slash | Percent | Bang | Tilde | PlusPlus | MinusMinus | Dot | Arrow
    | Open | Close | OpenBracket | CloseBracket | Comma | Stray

  function Spelling(s: Symbol): string {
    match s
    case Equivalence => "<=>"
    case Implication => "=>"
    case OrOr => "||"
    case AndAnd => "&&"
    case Bar => "|"
    case Caret => "^"
    case Ampersand => "&"
    case Equal => "=="
    case NotEqual => "!="
    case Less => "<"
    case Greater => ">"
    case LessEqual => "<="
    case GreaterEqual => ">="
    case ShiftLeft => "<<"
    case ShiftRight => ">>"
    case Plus => "+"
    case Minus => "-"
    case Star => "*"
    case Slash => "/"
    case Percent => "%"
    case Bang => "!"
    case Tilde => "~"
    case PlusPlus => "++"
    case MinusMinus => "--"
    case Dot => "."
    case Arrow => "->"
    case Open => "("
    case Close => ")"
    case OpenBracket => "["
    case CloseBracket => "]"
    case Comma => ","
    case Stray => "="
  }

  /** The first character of a prefix operator, or of a parenthesis. */
  function FirstChar(k: Symbol): char {
    match k
    case Plus => '+'
    case PlusPlus => '+'
    case Minus => '-'
    case MinusMinus => '-'
    case Bang => '!'
    case Tilde => '~'
    case Ampersand => '&'
    case Star => '*'
    case _ => '('
  }

  datatype Scanned = Scanned(op: Symbol, length: nat) | NoOperator

  /** The longest operator that starts with these characters. */
  function Longest(c: char, d: char, e: char): (r: Scanned) {
    if c == '<' then
      if d == '=' then (if e == '>' then Scanned(Equivalence, 3) else Scanned(LessEqual, 2))
      else if d == '<' then Scanned(ShiftLeft, 2)
      else Scanned(Less, 1)
    else if c == '>' then
      if d == '=' then Scanned(GreaterEqual, 2)
      else if d == '>' then Scanned(ShiftRight, 2)
      else Scanned(Greater, 1)
    else if c == '=' then
      if d == '>' then Scanned(Implication, 2)
      else if d == '=' then Scanned(Equal, 2)
      else Scanned(Stray, 1)
    else if c == '|' then if d == '|' then Scanned(OrOr, 2) else Scanned(Bar, 1)
    else if c == '&' then if d == '&' then Scanned(AndAnd, 2) else Scanned(Ampersand, 1)
    else if c == '!' then if d == '=' then Scanned(NotEqual, 2) else Scanned(Bang, 1)
    else if c == '+' then if d == '+' then Scanned(PlusPlus, 2) else Scanned(Plus, 1)
    else if c == '-' then
      if d == '-' then Scanned(MinusMinus, 2)
      else if d == '>' then Scanned(Arrow, 2)
      else Scanned(Minus, 1)
    else if c == '^' then Scanned(Caret, 1)
    else if c == '*' then Scanned(Star, 1)
    else if c == '/' then Scanned(Slash, 1)
    else if c == '%' then Scanned(Percent, 1)
    else if c == '~' then Scanned(Tilde, 1)
    else if c == '.' then Scanned(Dot, 1)
    else if c == '(' then Scanned(Open, 1)
    else if c == ')' then Scanned(Close, 1)
    else if c == '[' then Scanned(OpenBracket, 1)
    else if c == ']' then Scanned(CloseBracket, 1)
    else if c == ',' then Scanned(Comma, 1)
    else NoOperator
  }
}
