/** The text of expressions, character by character, how it is scanned, and when it is read as
    what was printed.  Prefix operators are written without a space behind them
    (`UnaryNode::ToString`, Cm.Ast/Node.cpp). */
module ExpressionPrinting {
  import opened OperatorSigns
  import opened ExpressionGrammar
  import opened ExpressionReading

  // ---------------------------------------------------------------- the text

  /** A piece of text: a word, a space, or one character of an operator. */
  datatype Piece = Name(kind: Kind, name: string) | Blank | Mark(c: char)

  function Marks(s: Symbol): seq<Piece> {
    var x := Spelling(s);
    if |x| == 1 then [Mark(x[0])]
    else if |x| == 2 then [Mark(x[0]), Mark(x[1])]
    else [Mark('<'), Mark('='), Mark('>')]
  }

  /** The text that the printer writes; binary operators stand between spaces, prefix and postfix
      operators next to their operands. */
  function Characters(e: Expression): seq<Piece>
    decreases e, 0
  {
    match e
    case Atom(kind, name) => [Name(kind, name)]
    case Template(tokens) => Spaced(tokens)
    case Prefix(op, c) => Marks(op) + CharactersAt(c, PREFIX)
    case Postfix(x, op) => CharactersAt(x, POSTFIX) + Marks(op)
    case Member(x, op, name) => CharactersAt(x, POSTFIX) + (Marks(op) + [Name(Identifier, name)])
    case Index(x, i) => CharactersAt(x, POSTFIX) + (Marks(OpenBracket) + Characters(i) + Marks(CloseBracket))
    case Invoke(x, xs) => Characters(x) + (Marks(Open) + CharactersOf(xs) + Marks(Close))
    case Binary(op, l, r) =>
      CharactersAt(l, BinaryRank(op)) + (([Blank] + Marks(op) + [Blank]) + CharactersAt(r, BinaryRank(op)))
  }

  function CharactersAt(e: Expression, rank: nat): seq<Piece>
    decreases e, 1
  {
    if Rank(e) > rank then Marks(Open) + Characters(e) + Marks(Close) else Characters(e)
  }

  function CharactersOf(xs: seq<Expression>): seq<Piece>
    decreases xs
  {
    if xs == [] then []
    else if |xs| == 1 then Characters(xs[0])
    else Characters(xs[0]) + ((Marks(Comma) + [Blank]) + CharactersOf(xs[1..]))
  }

  function Spaced(tokens: seq<Token>): seq<Piece> {
    if tokens == [] then []
    else
      var first := if tokens[0].Word? then [Name(tokens[0].kind, tokens[0].name)] else Marks(tokens[0].symbol);
      first + [Blank] + Spaced(tokens[1..])
  }

  // ---------------------------------------------------------------- scanning

  function MarkAt(t: seq<Piece>, i: nat): char {
    if i < |t| && t[i].Mark? then t[i].c else ' '
  }

  /** The tokens of a text: words and longest operators.  A number takes a point behind it. */
  function Lex(t: seq<Piece>): seq<Token>
  {
    if t == [] then []
    else
      match t[0]
      case Blank => Lex(t[1..])
      case Name(kind, name) =>
        if kind == Number && MarkAt(t, 1) == '.' then [Word(OtherWord, name + ".")] + Lex(t[2..])
        else [Word(kind, name)] + Lex(t[1..])
      case Mark(c) =>
        var r := Longest(c, MarkAt(t, 1), MarkAt(t, 2));
        if r.Scanned? && 0 < r.length <= |t| then [Sign(r.op)] + Lex(t[r.length..]) else [Sign(Stray)] + Lex(t[1..])
  }

  /** Scanning `text` in front of `t` gives `tokens`, or, if that is not `exact`, something
      different that is no longer. */
  predicate Lexes(text: seq<Piece>, t: seq<Piece>, tokens: seq<Token>, exact: bool) {
    var all := Lex(text + t);
    && |all| <= |tokens| + |Lex(t)|
    && if exact then all == tokens + Lex(t) else !(tokens <= all)
  }

  lemma LexBoth(x: seq<Piece>, y: seq<Piece>, t: seq<Piece>, a: seq<Token>, b: seq<Token>, p: bool, q: bool)
    requires Lexes(x, y + t, a, p) && Lexes(y, t, b, q)
    ensures Lexes(x + y, t, a + b, p && q)
  {
    hide Lex;
    assert x + y + t == x + (y + t);
    var all := Lex(x + (y + t));
    if a + b <= all {
      PrefixParts(a, b, all);
    }
    if p {
      assert all[|a|..] == Lex(y + t);
      Associates(a, b, Lex(t));
    }
  }

  lemma PrefixParts(a: seq<Token>, b: seq<Token>, all: seq<Token>)
    requires a + b <= all
    ensures a <= all && b <= all[|a|..]
  {
    assert a == (a + b)[..|a|] == all[..|a|];
    assert b == (a + b)[|a|..] == all[|a|..][..|b|];
  }

  /** A longer operator starts with this one and the character. */
  predicate Extends(s: Symbol, c: char) {
    match s
    case Minus => c == '-' || c == '>'
    case Plus => c == '+'
    case Ampersand => c == '&'
    case Bar => c == '|'
    case Bang => c == '='
    case Less => c == '<' || c == '='
    case Greater => c == '>' || c == '='
    case Stray => c == '>' || c == '='
    case LessEqual => c == '>'
    case _ => false
  }

  lemma LongestIs(s: Symbol, c: char, d: char)
    requires !Extends(s, c)
    ensures var m := Marks(s);
            && 1 <= |m| <= 3 && (forall i :: 0 <= i < |m| ==> m[i].Mark?)
            && Longest(m[0].c, if |m| > 1 then m[1].c else c, if |m| > 2 then m[2].c else if |m| == 2 then c else d)
               == Scanned(s, |m|)
  {
  }

  lemma LexSign(s: Symbol, t: seq<Piece>)
    requires !Extends(s, MarkAt(t, 0))
    ensures Lex(Marks(s) + t) == [Sign(s)] + Lex(t) && Lexes(Marks(s), t, [Sign(s)], true)
  {
    hide Longest, Extends, Marks;
    var all, n := Marks(s) + t, |Marks(s)|;
    LongestIs(s, MarkAt(t, 0), MarkAt(t, 1));
    assert all[n..] == t && all[0] == Marks(s)[0];
    assert MarkAt(all, 1) == if n > 1 then Marks(s)[1].c else MarkAt(t, 0);
    assert MarkAt(all, 2) == if n > 2 then Marks(s)[2].c else if n == 2 then MarkAt(t, 0) else MarkAt(t, 1);
  }

  lemma LexBlank(t: seq<Piece>)
    ensures Lex([Blank] + t) == Lex(t) && Lexes([Blank], t, [], true)
  {
    hide Longest;
    assert ([Blank] + t)[1..] == t;
  }

  lemma LexName(kind: Kind, name: string, t: seq<Piece>)
    requires kind == Number ==> MarkAt(t, 0) != '.'
    ensures Lexes([Name(kind, name)], t, [Word(kind, name)], true)
  {
    hide Longest;
    assert ([Name(kind, name)] + t)[1..] == t;
  }

  // ---------------------------------------------------------------- operators that touch

  /** Printed next to each other, the two operators are read as something else. */
  predicate Glued(a: Symbol, b: Symbol) {
    || (a == Minus && (b == Minus || b == MinusMinus))
    || (a == Plus && (b == Plus || b == PlusPlus))
    || (a == Ampersand && b == Ampersand)
  }

  /** No prefix operator touches a token that it is glued to, and no point a number. */
  predicate Unglued(e: Expression) {
    match e
    case Atom(_, _) => true
    case Template(_) => true
    case Prefix(op, c) => Unglued(c) && !Touches(op, PrintAt(c, PREFIX))
    case Postfix(x, _) => Unglued(x)
    case Member(x, op, _) => Unglued(x) && !(op == Dot && IsNumber(x))
    case Index(x, i) => Unglued(x) && Unglued(i)
    case Invoke(x, xs) => Unglued(x) && forall i :: 0 <= i < |xs| ==> Unglued(xs[i])
    case Binary(_, l, r) => Unglued(l) && Unglued(r)
  }

  predicate Touches(op: Symbol, tokens: seq<Token>) {
    tokens != [] && tokens[0].Sign? && Glued(op, tokens[0].symbol)
  }

  predicate IsNumber(e: Expression) {
    e.Atom? && e.kind == Number
  }

  /** The text of `e` is followed by `t`: by a point only after a postfix expression. */
  predicate Follows(e: Expression, t: seq<Piece>) {
    MarkAt(t, 0) == '.' ==> Rank(e) <= POSTFIX && !IsNumber(e)
  }

  /** Minus signs at the start are not followed by `>`. */
  predicate NoArrow(s: seq<Piece>) {
    s == [] || (s[0] != Mark('>') && (s[0] == Mark('-') ==> NoArrow(s[1..])))
  }

  lemma PrefixNoArrow(op: Symbol, s: seq<Piece>)
    requires IsPrefix(op) && NoArrow(s)
    ensures NoArrow(Marks(op) + s)
  {
    var all := Marks(op) + s;
    assert all[|Marks(op)|..] == s;
    if op == MinusMinus {
      assert all[1..][1..] == s;
    }
  }

  lemma Joined(x: seq<Piece>, y: seq<Piece>, t: seq<Piece>)
    ensures x + y + t == x + (y + t) && (x != [] ==> (x + y)[0] == x[0])
  {
  }

  /** `text`, printed from `tokens`, starts with a word, a prefix operator or a parenthesis. */
  predicate FirstAlike(text: seq<Piece>, tokens: seq<Token>) {
    && text != [] && tokens != []
    && if tokens[0].Word? then text[0].Name?
       else (IsPrefix(tokens[0].symbol) || tokens[0].symbol == Open) && text[0] == Marks(tokens[0].symbol)[0]
  }

  lemma FirstJoined(text: seq<Piece>, tokens: seq<Token>, x: seq<Piece>, a: seq<Token>, t: seq<Piece>)
    requires FirstAlike(text, tokens) && NoArrow(text + (x + t))
    ensures FirstAlike(text + x, tokens + a) && NoArrow(text + x + t)
  {
    Joined(text, x, t);
  }

  lemma {:induction false} FirstPiece(e: Expression, t: seq<Piece>)
    requires Valid(e) && Plain(e)
    ensures FirstAlike(Characters(e), Print(e)) && NoArrow(Characters(e) + t)
    decreases e, 0
  {
    hide FirstAlike, NoArrow, Marks, IsPrefix;
    match e
    case Atom(_, _) => FirstWord(e, t);
    case Template(_) =>
    case Prefix(op, c) =>
      FirstPieceAt(c, PREFIX, t);
      FirstPrefix(op, CharactersAt(c, PREFIX), PrintAt(c, PREFIX), t);
    case Postfix(x, op) =>
      FirstPieceAt(x, POSTFIX, Marks(op) + t);
      FirstJoined(CharactersAt(x, POSTFIX), PrintAt(x, POSTFIX), Marks(op), [Sign(op)], t);
    case Member(x, op, name) =>
      var step := Marks(op) + [Name(Identifier, name)];
      FirstPieceAt(x, POSTFIX, step + t);
      FirstJoined(CharactersAt(x, POSTFIX), PrintAt(x, POSTFIX), step, [Sign(op), Word(Identifier, name)], t);
    case Index(x, i) =>
      var step := Marks(OpenBracket) + Characters(i) + Marks(CloseBracket);
      FirstPieceAt(x, POSTFIX, step + t);
      FirstJoined(CharactersAt(x, POSTFIX), PrintAt(x, POSTFIX), step,
                  [Sign(OpenBracket)] + Print(i) + [Sign(CloseBracket)], t);
    case Invoke(x, xs) =>
      var step := Marks(Open) + CharactersOf(xs) + Marks(Close);
      FirstPiece(x, step + t);
      FirstJoined(Characters(x), Print(x), step, Enclosed(PrintList(xs)), t);
    case Binary(op, l, r) =>
      var k := BinaryRank(op);
      var step := ([Blank] + Marks(op) + [Blank]) + CharactersAt(r, k);
      FirstPieceAt(l, k, step + t);
      FirstJoined(CharactersAt(l, k), PrintAt(l, k), step, [Sign(op)] + PrintAt(r, k), t);
      Associates(PrintAt(l, k), [Sign(op)], PrintAt(r, k));
  }

  lemma FirstWord(e: Expression, t: seq<Piece>)
    requires e.Atom?
    ensures FirstAlike(Characters(e), Print(e)) && NoArrow(Characters(e) + t)
  {
  }

  lemma FirstPrefix(op: Symbol, text: seq<Piece>, tokens: seq<Token>, t: seq<Piece>)
    requires IsPrefix(op) && NoArrow(text + t)
    ensures FirstAlike(Marks(op) + text, [Sign(op)] + tokens) && NoArrow(Marks(op) + text + t)
  {
    PrefixNoArrow(op, text + t);
    Joined(Marks(op), text, t);
  }

  lemma {:induction false} FirstPieceAt(e: Expression, rank: nat, t: seq<Piece>)
    requires Valid(e) && Plain(e)
    ensures FirstAlike(CharactersAt(e, rank), PrintAt(e, rank)) && NoArrow(CharactersAt(e, rank) + t)
    decreases e, 1
  {
    hide Characters, Print, IsPrefix;
    if Rank(e) <= rank {
      FirstPiece(e, t);
    }
  }

  /** The longer operator that a single one and the same character make. */
  function Double(op: Symbol): Symbol {
    match op
    case Minus => MinusMinus
    case Plus => PlusPlus
    case _ => AndAnd
  }

  lemma DoubleMarks(op: Symbol)
    requires op == Minus || op == Plus || op == Ampersand
    ensures Marks(op) == [Mark(FirstChar(op))] && Marks(Double(op)) == Marks(op) + Marks(op)
    ensures forall c :: !Extends(Double(op), c)
    ensures forall c :: Extends(op, c) <==> c == FirstChar(op) || (op == Minus && c == '>')
  {
  }

  /** A single operator in front of a text adds at most one token. */
  lemma {:induction false} LexShorter(op: Symbol, s: seq<Piece>)
    requires op == Minus || op == Plus || op == Ampersand
    requires op == Minus ==> NoArrow(s)
    ensures |Lex(Marks(op) + s)| <= 1 + |Lex(s)|
    ensures s != [] && s[0] == Marks(op)[0] ==> !([Sign(op)] <= Lex(Marks(op) + s))
    decreases |s|
  {
    hide Lex, Marks, Extends;
    DoubleMarks(op);
    var m, double := Marks(op), Double(op);
    if s != [] && s[0] == m[0] {
      var rest := s[1..];
      assert s == m + rest;
      assert m + s == Marks(double) + rest;
      LexSign(double, rest);
      assert Lex(m + s)[0] == Sign(double);
      if rest != [] && rest[0] == m[0] {
        var more := rest[1..];
        assert rest == m + more;
        assert s == Marks(double) + more;
        LexSign(double, more);
        LexShorter(op, more);
      } else {
        LexSign(op, rest);
      }
    } else {
      LexSign(op, s);
    }
  }

  lemma LexGlued(op: Symbol, y: seq<Piece>, t: seq<Piece>, b: seq<Token>, q: bool)
    requires Lexes(y, t, b, q) && (op == Minus || op == Plus || op == Ampersand)
    requires NoArrow(y + t) && y != [] && y[0] == Marks(op)[0]
    ensures Lexes(Marks(op) + y, t, [Sign(op)] + b, false)
  {
    hide Lex, Marks, NoArrow;
    LexShorter(op, y + t);
    Joined(Marks(op), y, t);
    var all := Lex(Marks(op) + y + t);
    if [Sign(op)] + b <= all {
      PrefixParts([Sign(op)], b, all);
    }
  }

  lemma TouchIff(op: Symbol, k: Symbol)
    requires IsPrefix(op) && (IsPrefix(k) || k == Open)
    ensures Marks(k)[0].Mark? && (Extends(op, Marks(k)[0].c) <==> Glued(op, k))
    ensures Glued(op, k) ==> (op == Minus || op == Plus || op == Ampersand) && Marks(k)[0] == Marks(op)[0]
  {
    hide Marks, IsPrefix, Extends, Glued, FirstChar;
    FirstMark(k);
    FirstMark(op);
    ExtendsIff(op, FirstChar(k));
    GluedIff(op, k);
  }

  /** Which single characters an operator can grow by, among those that may follow it. */
  lemma ExtendsIff(op: Symbol, c: char)
    requires IsPrefix(op) && c != '>' && c != '='
    ensures Extends(op, c) <==> (op == Minus && c == '-') || (op == Plus && c == '+') || (op == Ampersand && c == '&')
  {
  }

  lemma GluedIff(op: Symbol, k: Symbol)
    requires IsPrefix(op)
    ensures Glued(op, k) <==>
            (op == Minus && FirstChar(k) == '-') || (op == Plus && FirstChar(k) == '+') ||
            (op == Ampersand && FirstChar(k) == '&')
    ensures Glued(op, k) ==> (op == Minus || op == Plus || op == Ampersand) && FirstChar(k) == FirstChar(op)
  {
    hide IsPrefix;
  }

  lemma FirstMark(k: Symbol)
    requires IsPrefix(k) || k == Open
    ensures Marks(k)[0] == Mark(FirstChar(k)) && FirstChar(k) != '>' && FirstChar(k) != '='
  {
  }

  lemma LexPrefix(op: Symbol, y: seq<Piece>, t: seq<Piece>, b: seq<Token>, q: bool)
    requires IsPrefix(op) && Lexes(y, t, b, q) && FirstAlike(y, b) && NoArrow(y + t)
    ensures Lexes(Marks(op) + y, t, [Sign(op)] + b, q && !Touches(op, b))
  {
    hide Lex, Lexes, Marks, NoArrow, IsPrefix, Extends, Glued;
    if b[0].Sign? {
      TouchIff(op, b[0].symbol);
    }
    if Touches(op, b) {
      LexGlued(op, y, t, b, q);
    } else {
      NoExtension(op, y, t, b);
      LexSign(op, y + t);
      LexBoth(Marks(op), y, t, [Sign(op)], b, true, q);
    }
  }

  lemma NoExtension(op: Symbol, y: seq<Piece>, t: seq<Piece>, b: seq<Token>)
    requires IsPrefix(op) && FirstAlike(y, b) && !Touches(op, b)
    ensures !Extends(op, MarkAt(y + t, 0))
  {
    hide Marks, IsPrefix, Glued;
    if b[0].Sign? {
      TouchIff(op, b[0].symbol);
    }
    assert (y + t)[0] == y[0];
  }

  lemma {:induction false} LexText(e: Expression, t: seq<Piece>)
    requires Valid(e) && Plain(e) && Follows(e, t)
    ensures Lexes(Characters(e), t, Print(e), Unglued(e))
    decreases e, 1
  {
    hide Lexes, Lex, Marks, Extends, IsPrefix, Touches, FirstAlike, NoArrow;
    match e
    case Atom(kind, name) => LexName(kind, name, t);
    case Template(_) =>
    case Prefix(op, c) =>
      LexTextAt(c, PREFIX, t);
      FirstPieceAt(c, PREFIX, t);
      LexPrefix(op, CharactersAt(c, PREFIX), t, PrintAt(c, PREFIX), Unglued(c));
    case Postfix(x, op) => LexPostfix(x, op, t);
    case Member(x, op, name) => LexMember(x, op, name, t);
    case Index(x, i) => LexIndex(x, i, t);
    case Invoke(x, xs) => LexCall(x, xs, t);
    case Binary(op, l, r) => LexBinary(op, l, r, t);
  }

  lemma {:induction false} LexPostfix(x: Expression, op: Symbol, t: seq<Piece>)
    requires Valid(Postfix(x, op)) && Plain(x)
    ensures Lexes(Characters(Postfix(x, op)), t, Print(Postfix(x, op)), Unglued(Postfix(x, op)))
    decreases x, 3
  {
    hide Lexes, Lex;
    assert (Marks(op) + t)[0] == Marks(op)[0];
    LexTextAt(x, POSTFIX, Marks(op) + t);
    LexSign(op, t);
    LexBoth(CharactersAt(x, POSTFIX), Marks(op), t, PrintAt(x, POSTFIX), [Sign(op)], Unglued(x), true);
  }

  lemma {:induction false} LexMember(x: Expression, op: Symbol, name: string, t: seq<Piece>)
    requires Valid(Member(x, op, name)) && Plain(x)
    ensures var e := Member(x, op, name); Lexes(Characters(e), t, Print(e), Unglued(e))
    decreases x, 3
  {
    hide Lexes, Lex;
    var id := [Name(Identifier, name)];
    if op == Dot && IsNumber(x) {
      LexNumberMember(x.name, name, t);
    } else {
      assert (Marks(op) + id + t)[0] == Marks(op)[0];
      LexTextAt(x, POSTFIX, Marks(op) + id + t);
      LexName(Identifier, name, t);
      assert (id + t)[0] == id[0];
      LexSign(op, id + t);
      LexBoth(Marks(op), id, t, [Sign(op)], [Word(Identifier, name)], true, true);
      assert [Sign(op)] + [Word(Identifier, name)] == [Sign(op), Word(Identifier, name)];
      LexBoth(CharactersAt(x, POSTFIX), Marks(op) + id, t, PrintAt(x, POSTFIX), [Sign(op), Word(Identifier, name)],
              Unglued(x), true);
    }
  }

  /** The point behind a number is read as a part of it. */
  lemma LexNumberMember(number: string, name: string, t: seq<Piece>)
    ensures var e := Member(Atom(Number, number), Dot, name); Lexes(Characters(e), t, Print(e), false)
  {
    hide Longest;
    var text, id := [Name(Number, number), Mark('.'), Name(Identifier, name)] + t, [Name(Identifier, name)];
    var e := Member(Atom(Number, number), Dot, name);
    var x := Atom(Number, number);
    assert CharactersAt(x, POSTFIX) == [Name(Number, number)] && PrintAt(x, POSTFIX) == [Word(Number, number)];
    assert Characters(e) + t == text;
    assert text[2..] == id + t;
    LexName(Identifier, name, t);
    assert Lex(text) == [Word(OtherWord, number + ".")] + Lex(id + t);
    assert Print(e)[0] == Word(Number, number);
  }

  lemma LexPair(open: Symbol, x: seq<Piece>, a: seq<Token>, close: Symbol, t: seq<Piece>, p: bool)
    requires open == Open || open == OpenBracket
    requires close == Close || close == CloseBracket
    requires Lexes(x, Marks(close) + t, a, p)
    ensures Lexes(Marks(open) + x + Marks(close), t, [Sign(open)] + a + [Sign(close)], p)
  {
    hide Lexes, Lex;
    LexSign(close, t);
    LexSign(open, x + (Marks(close) + t));
    LexBoth(Marks(open), x, Marks(close) + t, [Sign(open)], a, true, p);
    LexBoth(Marks(open) + x, Marks(close), t, [Sign(open)] + a, [Sign(close)], p, true);
  }

  lemma ClosedAfter(close: Symbol, t: seq<Piece>)
    requires close == Close || close == CloseBracket || close == Open || close == OpenBracket || close == Comma
    ensures MarkAt(Marks(close) + t, 0) != '.'
  {
  }

  lemma {:induction false} LexIndex(x: Expression, i: Expression, t: seq<Piece>)
    requires Valid(Index(x, i)) && Plain(Index(x, i))
    ensures var e := Index(x, i); Lexes(Characters(e), t, Print(e), Unglued(e))
    decreases Index(x, i), 0
  {
    hide Lexes, Lex, Marks;
    var step := Marks(OpenBracket) + Characters(i) + Marks(CloseBracket);
    ClosedAfter(CloseBracket, t);
    LexText(i, Marks(CloseBracket) + t);
    LexPair(OpenBracket, Characters(i), Print(i), CloseBracket, t, Unglued(i));
    OpenedBy(OpenBracket, Characters(i), CloseBracket, t);
    LexTextAt(x, POSTFIX, step + t);
    LexBoth(CharactersAt(x, POSTFIX), step, t, PrintAt(x, POSTFIX), [Sign(OpenBracket)] + Print(i) + [Sign(CloseBracket)],
            Unglued(x), Unglued(i));
  }

  lemma {:induction false} LexCall(x: Expression, xs: seq<Expression>, t: seq<Piece>)
    requires Valid(Invoke(x, xs)) && Plain(Invoke(x, xs))
    ensures var e := Invoke(x, xs); Lexes(Characters(e), t, Print(e), Unglued(e))
    decreases Invoke(x, xs), 0
  {
    hide Lexes, Lex, Marks;
    var inside, ok := CharactersOf(xs), forall i :: 0 <= i < |xs| ==> Unglued(xs[i]);
    var step := Marks(Open) + inside + Marks(Close);
    LexList(xs, t);
    LexPair(Open, inside, PrintList(xs), Close, t, ok);
    OpenedBy(Open, inside, Close, t);
    LexText(x, step + t);
    LexBoth(Characters(x), step, t, Print(x), Enclosed(PrintList(xs)), Unglued(x), ok);
    assert Unglued(Invoke(x, xs)) == (Unglued(x) && ok);
  }

  lemma OpenedBy(open: Symbol, x: seq<Piece>, close: Symbol, t: seq<Piece>)
    requires open == Open || open == OpenBracket
    ensures MarkAt(Marks(open) + x + Marks(close) + t, 0) != '.'
  {
    assert (Marks(open) + x + Marks(close) + t)[0] == Marks(open)[0];
  }

  lemma LexSpaced(op: Symbol, t: seq<Piece>)
    ensures Lexes([Blank] + Marks(op) + [Blank], t, [Sign(op)], true)
  {
    hide Lexes, Lex, Marks;
    LexBlank(t);
    LexSign(op, [Blank] + t);
    LexBlank(Marks(op) + ([Blank] + t));
    LexBoth([Blank], Marks(op), [Blank] + t, [], [Sign(op)], true, true);
    LexBoth([Blank] + Marks(op), [Blank], t, [] + [Sign(op)], [], true, true);
    assert [] + [Sign(op)] + [] == [Sign(op)];
  }

  lemma {:induction false} LexBinary(op: Symbol, l: Expression, r: Expression, t: seq<Piece>)
    requires Valid(Binary(op, l, r)) && Plain(Binary(op, l, r)) && MarkAt(t, 0) != '.'
    ensures var e := Binary(op, l, r); Lexes(Characters(e), t, Print(e), Unglued(e))
    decreases Binary(op, l, r), 0
  {
    hide Lexes, Lex, Marks;
    var k, middle := BinaryRank(op), [Blank] + Marks(op) + [Blank];
    var right := CharactersAt(r, k);
    LexTextAt(r, k, t);
    LexSpaced(op, right + t);
    LexBoth(middle, right, t, [Sign(op)], PrintAt(r, k), true, Unglued(r));
    assert (middle + right + t)[0] == Blank;
    LexTextAt(l, k, middle + right + t);
    LexBoth(CharactersAt(l, k), middle + right, t, PrintAt(l, k), [Sign(op)] + PrintAt(r, k), Unglued(l), Unglued(r));
    Associates(PrintAt(l, k), [Sign(op)], PrintAt(r, k));
  }

  lemma {:induction false} LexTextAt(e: Expression, k: nat, t: seq<Piece>)
    requires Valid(e) && Plain(e) && (Rank(e) <= k ==> Follows(e, t))
    ensures Lexes(CharactersAt(e, k), t, PrintAt(e, k), Unglued(e))
    decreases e, 2
  {
    hide Lexes, Lex, Marks;
    if Rank(e) > k {
      ClosedAfter(Close, t);
      LexText(e, Marks(Close) + t);
      LexPair(Open, Characters(e), Print(e), Close, t, Unglued(e));
    } else {
      LexText(e, t);
    }
  }

  lemma LexNothing(t: seq<Piece>)
    ensures Lexes([], t, [], true)
  {
    assert [] + t == t;
  }

  lemma {:induction false} LexList(xs: seq<Expression>, t: seq<Piece>)
    requires AllValid(xs) && AllPlain(xs)
    ensures Lexes(CharactersOf(xs), Marks(Close) + t, PrintList(xs), forall i :: 0 <= i < |xs| ==> Unglued(xs[i]))
    decreases xs, 0
  {
    hide Lexes, Lex, Marks, Unglued, Valid, Plain, Print, Characters;
    var end := Marks(Close) + t;
    ClosedAfter(Close, t);
    if xs == [] {
      LexNothing(end);
    } else if |xs| == 1 {
      LexText(xs[0], end);
    } else {
      var comma, more, ok := Marks(Comma) + [Blank], xs[1..], forall i :: 0 <= i < |xs| ==> Unglued(xs[i]);
      assert forall i :: 0 < i < |xs| ==> xs[i] == more[i - 1];
      assert ok == (Unglued(xs[0]) && forall i :: 0 <= i < |more| ==> Unglued(more[i]));
      LexList(more, t);
      LexComma(CharactersOf(more) + end);
      LexBoth(comma, CharactersOf(more), end, [Sign(Comma)], PrintList(more), true,
              forall i :: 0 <= i < |more| ==> Unglued(more[i]));
      assert comma + CharactersOf(more) + end == Marks(Comma) + ([Blank] + CharactersOf(more) + end);
      ClosedAfter(Comma, [Blank] + CharactersOf(more) + end);
      LexText(xs[0], comma + CharactersOf(more) + end);
      LexBoth(Characters(xs[0]), comma + CharactersOf(more), end, Print(xs[0]), [Sign(Comma)] + PrintList(more),
              Unglued(xs[0]), forall i :: 0 <= i < |more| ==> Unglued(more[i]));
      Associates(Print(xs[0]), [Sign(Comma)], PrintList(more));
    }
  }

  lemma LexComma(t: seq<Piece>)
    ensures Lexes(Marks(Comma) + [Blank], t, [Sign(Comma)], true)
  {
    hide Lexes, Lex, Marks;
    LexBlank(t);
    LexSign(Comma, [Blank] + t);
    LexBoth(Marks(Comma), [Blank], t, [Sign(Comma)], [], true, true);
    assert [Sign(Comma)] + [] == [Sign(Comma)];
  }

  // ---------------------------------------------------------------- the round trip

  /** Printing an expression and reading the text gives the same expression exactly when it is
      faithful, no prefix operator touches a token that it is glued to, and no name in the text
      is read as the start of a template id. */
  lemma RoundTripIff(e: Expression)
    requires Valid(e) && Plain(e)
    ensures Parse(Lex(Characters(e))) == Done(e, []) <==> Faithful(e) && Unglued(e) && Uncaptured(Print(e), [])
  {
    hide Valid, Plain, Lex, ParseLevel, Faithful, Unglued, Uncaptured, Print, Text, Characters;
    PrintedLength(e);
    TextScanned(e);
    RankBound(e);
    var tokens := Lex(Characters(e));
    if Faithful(e) && Unglued(e) && Uncaptured(Print(e), []) {
      assert Text(e) + [] == Text(e);
      ReadLevel(EQUIVALENCE, e, []);
    } else if Parse(tokens) == Done(e, []) {
      LeastText(tokens, e);
    }
  }

  /** The text is scanned as the printed tokens exactly when nothing in it is glued, and never as
      more tokens. */
  lemma TextScanned(e: Expression)
    requires Valid(e) && Plain(e)
    ensures Lex(Characters(e)) == Print(e) <==> Unglued(e)
    ensures |Lex(Characters(e))| <= |Print(e)|
  {
    hide Valid, Plain, Unglued, Print, Characters;
    LexText(e, []);
    assert Characters(e) + [] == Characters(e);
    assert Print(e) + [] == Print(e);
  }

  /** Without `<` there are no template ids. */
  lemma {:induction false} NoLessUncaptured(s: seq<Token>)
    requires Sign(Less) !in s
    ensures Uncaptured(s, [])
  {
    forall i | 0 <= i < |s| && NameAt(s, i) ensures ParseTemplateId(s[i..]).Fail? {
      NameEnds(s[i..]);
    }
  }

  lemma {:induction false} NameEnds(s: seq<Token>)
    requires s != [] && Sign(Less) !in s
    ensures Sign(Less) !in AfterName(s)
  {
    if |s| > 2 && s[1] == Sign(Dot) && IsIdentifier(s[2]) {
      NameEnds(s[2..]);
    }
  }

  function Identified(name: string): Expression {
    Atom(Identifier, name)
  }

  /** The signs from which the closing `>` of a template id is taken. */
  predicate Closes(op: Symbol) {
    op == Greater || op == GreaterEqual || op == ShiftRight
  }

  /** No text that starts with `a < b >`, `a < b >=` or `a < b >>` is read as what was printed:
      the start is read as the template id `a<b>`. */
  lemma TextCaptured(e: Expression, a: string, b: string, op: Symbol, rest: seq<Token>)
    requires Valid(e) && Plain(e) && Closes(op)
    requires Print(e) == [Word(Identifier, a), Sign(Less), Word(Identifier, b), Sign(op)] + rest
    ensures ParseTemplateId(Print(e)).Done? && Parse(Lex(Characters(e))) != Done(e, [])
  {
    hide Lex, Characters, Parse, ParseTemplateId, Print, Valid, Plain, Faithful, Unglued;
    NameCaptured(a, b, op, rest);
    assert Print(e)[0..] == Print(e) && NameAt(Print(e), 0);
    assert !Uncaptured(Print(e), []);
    hide Uncaptured;
    RoundTripIff(e);
  }

  lemma NameCaptured(a: string, b: string, op: Symbol, rest: seq<Token>)
    requires Closes(op)
    ensures ParseTemplateId([Word(Identifier, a), Sign(Less), Word(Identifier, b), Sign(op)] + rest).Done?
  {
    var s := [Word(Identifier, a), Sign(Less), Word(Identifier, b), Sign(op)] + rest;
    assert AfterName(s) == s[1..];
    var t := s[2..];
    assert s[1..][1..] == t && t[0] == Word(Identifier, b) && t[1] == Sign(op);
    assert ParseTemplateId(t).Fail?;
    assert ParsePrimaryType(t) == Done(Type, t[1..]);
    assert ParseType(t) == Done(Type, t[1..]);
    assert CloseTemplate(t[1..]).Done?;
    assert ParseTypeList(t) == CloseTemplate(t[1..]);
  }

  /** A comparison of a comparison, such as `a < b > (c == d)`, has such a text. */
  lemma ComparisonCaptured(a: string, b: string, op: Symbol, right: Expression)
    requires Valid(right) && Plain(right) && Faithful(right) && Unglued(right)
    requires (op == Greater || op == GreaterEqual) && Rank(right) != RELATIONAL
    ensures var e := Binary(op, Binary(Less, Identified(a), Identified(b)), right);
            Faithful(e) && Unglued(e) && Parse(Lex(Characters(e))) != Done(e, [])
  {
    hide Lex, Characters, Parse, ParseTemplateId, Print, Valid, Plain, Faithful, Unglued;
    ComparisonFaithful(a, b, op, right);
    ComparisonPrinted(a, b, op, right);
    TextCaptured(Binary(op, Binary(Less, Identified(a), Identified(b)), right), a, b, op, PrintAt(right, RELATIONAL));
  }

  lemma ComparisonFaithful(a: string, b: string, op: Symbol, right: Expression)
    requires Valid(right) && Plain(right) && Faithful(right) && Unglued(right)
    requires (op == Greater || op == GreaterEqual) && Rank(right) != RELATIONAL
    ensures var e := Binary(op, Binary(Less, Identified(a), Identified(b)), right);
            Valid(e) && Plain(e) && Faithful(e) && Unglued(e)
  {
    var left := Binary(Less, Identified(a), Identified(b));
    NameFaithful(a);
    NameFaithful(b);
    assert Valid(left) && Plain(left) && Faithful(left) && Unglued(left);
  }

  lemma NamePrinted(a: string, rank: nat)
    ensures PrintAt(Identified(a), rank) == [Word(Identifier, a)]
  {
  }

  lemma BinaryPrinted(op: Symbol, l: Expression, r: Expression)
    ensures Print(Binary(op, l, r)) == PrintAt(l, BinaryRank(op)) + [Sign(op)] + PrintAt(r, BinaryRank(op))
  {
  }

  lemma PrintedAtRank(e: Expression, rank: nat)
    ensures PrintAt(e, rank) == if Rank(e) > rank then Enclosed(Print(e)) else Print(e)
  {
  }

  lemma NameFaithful(a: string)
    ensures var x := Identified(a); Valid(x) && Plain(x) && Faithful(x) && Unglued(x)
  {
  }

  lemma ComparisonPrinted(a: string, b: string, op: Symbol, right: Expression)
    requires op == Greater || op == GreaterEqual
    ensures Print(Binary(op, Binary(Less, Identified(a), Identified(b)), right)) ==
            [Word(Identifier, a), Sign(Less), Word(Identifier, b), Sign(op)] + PrintAt(right, RELATIONAL)
  {
    hide Print, PrintAt;
    var left := Binary(Less, Identified(a), Identified(b));
    NamePrinted(a, RELATIONAL);
    NamePrinted(b, RELATIONAL);
    BinaryPrinted(Less, Identified(a), Identified(b));
    BinaryPrinted(op, left, right);
    PrintedAtRank(left, RELATIONAL);
  }

  /** A comparison with something in parentheses that does not start like a type, such as
      `a < (1 & b)`, is an error: what follows the parenthesis must be a type. */
  lemma ParenthesisRefused(a: string, right: Expression)
    requires Valid(right) && Plain(right) && Faithful(right) && Unglued(right) && Rank(right) > RELATIONAL
    requires Print(right) != [] && ParseType(Print(right) + [Sign(Close)]).Fail?
    ensures var e := Binary(Less, Identified(a), right);
            Faithful(e) && Unglued(e) && ParseTemplateId(Print(e)).Error? && Parse(Lex(Characters(e))) != Done(e, [])
  {
    hide Lex, Characters, Parse, ParseTypeList, ParseType, Print, Valid, Plain, Faithful, Unglued;
    RefusedFaithful(a, right);
    var e := Binary(Less, Identified(a), right);
    var s := [Word(Identifier, a), Sign(Less)] + Enclosed(Print(right));
    assert s[2..] == Enclosed(Print(right)) && s[1..][1..] == s[2..];
    assert AfterName(s) == s[1..];
    TypeRefused(Print(right));
    assert ParseTemplateId(s).Error?;
    assert s[0..] == s && NameAt(s, 0);
    assert !Uncaptured(s, []);
    hide Uncaptured;
    RoundTripIff(e);
  }

  lemma TypeRefused(tokens: seq<Token>)
    requires ParseType(tokens + [Sign(Close)]).Fail?
    ensures ParseTypeList(Enclosed(tokens)).Error?
  {
    var s := Enclosed(tokens);
    assert s[1..] == tokens + [Sign(Close)] && s[0] == Sign(Open);
    assert ParsePrimaryType(s).Error?;
    assert ParseType(s).Error?;
  }

  lemma RefusedFaithful(a: string, right: Expression)
    requires Valid(right) && Plain(right) && Faithful(right) && Unglued(right) && Rank(right) > RELATIONAL
    ensures var e := Binary(Less, Identified(a), right);
            Valid(e) && Plain(e) && Faithful(e) && Unglued(e) &&
            Print(e) == [Word(Identifier, a), Sign(Less)] + Enclosed(Print(right))
  {
    var x := Identified(a);
    NameFaithful(a);
    hide Print, PrintAt;
    NamePrinted(a, RELATIONAL);
    BinaryPrinted(Less, x, right);
    PrintedAtRank(right, RELATIONAL);
  }

  // ---------------------------------------------------------------- adjacent prefix operators

  predicate AllPrefix(ops: seq<Symbol>) {
    forall i :: 0 <= i < |ops| ==> IsPrefix(ops[i])
  }

  /** Prefix operators in front of an operand. */
  function Chain(ops: seq<Symbol>, x: Expression): Expression {
    if ops == [] then x else Prefix(ops[0], Chain(ops[1..], x))
  }

  predicate NoneGlued(ops: seq<Symbol>) {
    |ops| < 2 || (!Glued(ops[0], ops[1]) && NoneGlued(ops[1..]))
  }

  /** A word, or something that is printed in parentheses. */
  predicate IsOperand(x: Expression) {
    x.Atom? || Rank(x) > PREFIX
  }

  lemma {:induction false} ChainUnglued(ops: seq<Symbol>, x: Expression)
    requires AllPrefix(ops) && Valid(x) && Plain(x) && Unglued(x) && IsOperand(x)
    ensures var e := Chain(ops, x); Valid(e) && Plain(e) && (Unglued(e) <==> NoneGlued(ops))
  {
    if ops != [] {
      var rest := ops[1..];
      var c := Chain(rest, x);
      ChainUnglued(rest, x);
      if rest == [] {
        assert PrintAt(c, PREFIX)[0].Word? || PrintAt(c, PREFIX)[0] == Sign(Open);
      } else {
        assert c == Prefix(rest[0], Chain(rest[1..], x));
        assert PrintAt(c, PREFIX) == Print(c) == [Sign(rest[0])] + PrintAt(c.child, PREFIX);
      }
    }
  }

  /** A chain of prefix operators in front of an operand is read as it was printed exactly when
      no two neighbours glue together: minus before minus, plus before plus, `&` before `&`. */
  lemma ChainIff(ops: seq<Symbol>, x: Expression)
    requires AllPrefix(ops) && Valid(x) && Plain(x) && Unglued(x) && IsOperand(x)
    ensures var e := Chain(ops, x); Lex(Characters(e)) == Print(e) <==> NoneGlued(ops)
  {
    ChainUnglued(ops, x);
    TextScanned(Chain(ops, x));
  }

  /** The alternatives of the `Prefix` rule, in order, for the next two characters. */
  function ScanPrefix(c: char, d: char): Scanned {
    if c == '+' && d == '+' then Scanned(PlusPlus, 2)
    else if c == '-' && d == '-' then Scanned(MinusMinus, 2)
    else if c == '-' then Scanned(Minus, 1)
    else if c == '+' then Scanned(Plus, 1)
    else if c == '!' && d != '=' then Scanned(Bang, 1)
    else if c == '~' then Scanned(Tilde, 1)
    else if c == '&' && d != '&' then Scanned(Ampersand, 1)
    else if c == '*' then Scanned(Star, 1)
    else NoOperator
  }

  /** The rule reads the longest operator, if that is a prefix operator; `->` does not occur in
      its place in a printed text. */
  lemma PrefixReadsLongest(c: char, d: char, e: char)
    requires !(c == '-' && d == '>')
    ensures var r := Longest(c, d, e); ScanPrefix(c, d) == if r.Scanned? && IsPrefix(r.op) then r else NoOperator
  {
  }
}
