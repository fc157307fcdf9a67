/** Operator expressions: the tokens that are printed for them (`ToString`, Cm.Ast/Node.cpp and
    Cm.Ast/Expression.cpp) and the grammar that reads tokens (Cm.Parser/Expression.parser,
    Template.parser and TypeExpr.parser).

    The printer puts an operand in parentheses only if its rank is greater than that of the
    operator.  The grammar is read level by level; all binary operators associate to the left
    but `=>`, which associates to the right.  A primary that starts with a name is tried as a
    template id first. */
module ExpressionGrammar {
  import opened OperatorSigns

  /** Type names are basic types, and template ids taken whole; numbers are decimal and have no
      point and no suffix. */
  datatype Kind = Identifier | TypeName | Number | OtherWord

  datatype Token = Word(kind: Kind, name: string) | Sign(symbol: Symbol)

  /** `Template` is a template id, with the tokens that it was read from. */
  datatype Expression =
    | Atom(kind: Kind, name: string)
    | Prefix(op: Symbol, child: Expression)
    | Postfix(subject: Expression, op: Symbol)
    | Member(subject: Expression, op: Symbol, name: string)
    | Index(subject: Expression, index: Expression)
    | Invoke(subject: Expression, arguments: seq<Expression>)
    | Binary(op: Symbol, left: Expression, right: Expression)
    | Template(tokens: seq<Token>)

  const PRIMARY := 0
  const POSTFIX := 1
  const PREFIX := 2
  const RELATIONAL := 6
  const IMPLICATION := 13
  const EQUIVALENCE := 14

  /** The rank of a binary operator (Cm.Ast/Rank.hpp); zero for other symbols. */
  function BinaryRank(s: Symbol): nat {
    match s
    case Star => 3
    case Slash => 3
    case Percent => 3
    case Plus => 4
    case Minus => 4
    case ShiftLeft => 5
    case ShiftRight => 5
    case Less => 6
    case Greater => 6
    case LessEqual => 6
    case GreaterEqual => 6
    case Equal => 7
    case NotEqual => 7
    case Ampersand => 8
    case Caret => 9
    case Bar => 10
    case AndAnd => 11
    case OrOr => 12
    case Implication => 13
    case Equivalence => 14
    case _ => 0
  }

  predicate IsPrefix(s: Symbol) {
    s in {Plus, Minus, Bang, Tilde, Ampersand, Star, PlusPlus, MinusMinus}
  }

  function Rank(e: Expression): nat {
    match e
    case Atom(_, _) => PRIMARY
    case Template(_) => PRIMARY
    case Prefix(_, _) => PREFIX
    case Binary(op, _, _) => BinaryRank(op)
    case _ => POSTFIX
  }

  /** Every operator is one of its kind. */
  predicate Valid(e: Expression) {
    match e
    case Atom(_, _) => true
    case Template(_) => true
    case Prefix(op, c) => IsPrefix(op) && Valid(c)
    case Postfix(x, op) => op in {PlusPlus, MinusMinus} && Valid(x)
    case Member(x, op, _) => op in {Dot, Arrow} && Valid(x)
    case Index(x, i) => Valid(x) && Valid(i)
    case Invoke(x, xs) => Valid(x) && forall i :: 0 <= i < |xs| ==> Valid(xs[i])
    case Binary(op, l, r) => BinaryRank(op) > 0 && Valid(l) && Valid(r)
  }

  /** No template id occurs in it. */
  predicate Plain(e: Expression) {
    match e
    case Atom(_, _) => true
    case Template(_) => false
    case Prefix(_, c) => Plain(c)
    case Postfix(x, _) => Plain(x)
    case Member(x, _, _) => Plain(x)
    case Index(x, i) => Plain(x) && Plain(i)
    case Invoke(x, xs) => Plain(x) && forall i :: 0 <= i < |xs| ==> Plain(xs[i])
    case Binary(_, l, r) => Plain(l) && Plain(r)
  }

  predicate AllValid(xs: seq<Expression>) {
    forall i :: 0 <= i < |xs| ==> Valid(xs[i])
  }

  predicate AllPlain(xs: seq<Expression>) {
    forall i :: 0 <= i < |xs| ==> Plain(xs[i])
  }

  // ---------------------------------------------------------------- printing

  function Enclosed(tokens: seq<Token>): seq<Token> {
    [Sign(Open)] + tokens + [Sign(Close)]
  }

  /** The tokens that the printer writes. */
  function Print(e: Expression): seq<Token>
    decreases e, 0
  {
    match e
    case Atom(kind, name) => [Word(kind, name)]
    case Template(tokens) => tokens
    case Prefix(op, c) => [Sign(op)] + PrintAt(c, PREFIX)
    case Postfix(x, op) => PrintAt(x, POSTFIX) + [Sign(op)]
    case Member(x, op, name) => PrintAt(x, POSTFIX) + [Sign(op), Word(Identifier, name)]
    case Index(x, i) => PrintAt(x, POSTFIX) + ([Sign(OpenBracket)] + Print(i) + [Sign(CloseBracket)])
    case Invoke(x, xs) => Print(x) + Enclosed(PrintList(xs))
    case Binary(op, l, r) => PrintAt(l, BinaryRank(op)) + [Sign(op)] + PrintAt(r, BinaryRank(op))
  }

  function PrintAt(e: Expression, rank: nat): seq<Token>
    decreases e, 1
  {
    if Rank(e) > rank then Enclosed(Print(e)) else Print(e)
  }

  function PrintList(xs: seq<Expression>): seq<Token>
    decreases xs
  {
    if xs == [] then []
    else if |xs| == 1 then Print(xs[0])
    else Print(xs[0]) + [Sign(Comma)] + PrintList(xs[1..])
  }

  // ---------------------------------------------------------------- the grammar

  /** A rule reads something, does not apply, or meets an error that ends all reading. */
  datatype Parsed<+T> = Done(value: T, rest: seq<Token>) | Fail | Error

  predicate Starts(s: seq<Token>, symbol: Symbol) {
    s != [] && s[0] == Sign(symbol)
  }

  predicate IsIdentifier(t: Token) {
    t.Word? && t.kind == Identifier
  }

  /** The operators that each rule of the grammar reads between its operands. */
  predicate IsOperator(k: nat, s: Symbol) {
    match k
    case 3 => s == Star || s == Slash || s == Percent // Multiplicative
    case 4 => s == Plus || s == Minus // Additive
    case 5 => s == ShiftLeft || s == ShiftRight // Shift
    case 6 => s == Less || s == Greater || s == LessEqual || s == GreaterEqual // Relational
    case 7 => s == Equal || s == NotEqual // Equality
    case 8 => s == Ampersand // BitAnd
    case 9 => s == Caret // BitXor
    case 10 => s == Bar // BitOr
    case 11 => s == AndAnd // Conjunction
    case 12 => s == OrOr // Disjunction
    case 13 => s == Implication // Implication
    case 14 => s == Equivalence // Equivalence
    case _ => false
  }

  /** The ranks that the printer goes by are the levels of the grammar. */
  lemma RanksAreLevels(k: nat, s: Symbol)
    ensures IsOperator(k, s) <==> k != 0 && BinaryRank(s) == k
  {
    if IsOperator(k, s) {
      OperatorsHaveRank(k, s);
    }
    if k != 0 && BinaryRank(s) == k {
      RankIsRead(s);
    }
  }

  lemma OperatorsHaveRank(k: nat, s: Symbol)
    requires IsOperator(k, s)
    ensures k != 0 && BinaryRank(s) == k
  {
  }

  lemma RankIsRead(s: Symbol)
    requires BinaryRank(s) != 0
    ensures IsOperator(BinaryRank(s), s)
  {
  }

  /** The rules from `Equivalence` down to `Multiplicative`, by rank, and `Prefix`.  Between the
      angle brackets of a template id, `=>` and `<=>` are no operators. */
  function ParseLevel(inside: bool, k: nat, s: seq<Token>): (r: Parsed<Expression>)
    requires PREFIX <= k <= EQUIVALENCE
    ensures r.Done? ==> |r.rest| < |s|
    decreases |s|, k + 3
  {
    if k == PREFIX then ParsePrefix(inside, s)
    else
      var left := ParseLevel(inside, k - 1, s);
      if !left.Done? then left
      else if k == IMPLICATION then
        if Starts(left.rest, Implication) && !inside then
          var right := ParseLevel(inside, k, left.rest[1..]);
          if right.Done? then Done(Binary(Implication, left.value, right.value), right.rest) else Error
        else left
      else More(inside, k, left.value, left.rest)
  }

  /** The loop of a rule whose operators associate to the left.  Its right operand must follow,
      but for the relational operators. */
  function More(inside: bool, k: nat, left: Expression, s: seq<Token>): (r: Parsed<Expression>)
    requires PREFIX < k <= EQUIVALENCE
    ensures r.Done? ==> |r.rest| <= |s|
    decreases |s|, 0
  {
    if s != [] && s[0].Sign? && IsOperator(k, s[0].symbol) && !(inside && k == EQUIVALENCE) then
      var right := ParseLevel(inside, k - 1, s[1..]);
      if right.Done? then More(inside, k, Binary(s[0].symbol, left, right.value), right.rest)
      else if right.Fail? && k == RELATIONAL then Done(left, s)
      else Error
    else Done(left, s)
  }

  function ParsePrefix(inside: bool, s: seq<Token>): (r: Parsed<Expression>)
    ensures r.Done? ==> |r.rest| < |s|
    decreases |s|, 3
  {
    if s != [] && s[0].Sign? && IsPrefix(s[0].symbol) then
      var child := ParsePrefix(inside, s[1..]);
      if child.Done? then Done(Prefix(s[0].symbol, child.value), child.rest) else child
    else ParsePostfix(inside, s)
  }

  function ParsePostfix(inside: bool, s: seq<Token>): (r: Parsed<Expression>)
    ensures r.Done? ==> |r.rest| < |s|
    decreases |s|, 2
  {
    var primary := ParsePrimary(inside, s);
    if primary.Done? then Suffixes(inside, primary.value, primary.rest) else primary
  }

  function ParsePrimary(inside: bool, s: seq<Token>): (r: Parsed<Expression>)
    ensures r.Done? ==> |r.rest| < |s|
    decreases |s|, 1
  {
    if s == [] then Fail
    else if s[0].Word? then
      var template := ParseTemplateId(s);
      if template.Fail? then Done(Atom(s[0].kind, s[0].name), s[1..]) else template
    else if Starts(s, Open) then
      var inner := ParseLevel(inside, EQUIVALENCE, s[1..]);
      if inner.Done? && Starts(inner.rest, Close) then Done(inner.value, inner.rest[1..])
      else if inner.Error? then Error
      else Fail
    else Fail
  }

  function Suffixes(inside: bool, e: Expression, s: seq<Token>): (r: Parsed<Expression>)
    ensures r.Done? ==> |r.rest| <= |s|
    decreases |s|, 0
  {
    if Starts(s, PlusPlus) || Starts(s, MinusMinus) then Suffixes(inside, Postfix(e, s[0].symbol), s[1..])
    else if (Starts(s, Dot) || Starts(s, Arrow)) && |s| > 1 && IsIdentifier(s[1]) then
      Suffixes(inside, Member(e, s[0].symbol, s[1].name), s[2..])
    else if Starts(s, Open) then
      var arguments := ParseArguments(inside, s[1..]);
      if arguments.Done? then Suffixes(inside, Invoke(e, arguments.value), arguments.rest) else Error
    else if Starts(s, OpenBracket) then
      var index := ParseLevel(inside, EQUIVALENCE, s[1..]);
      if index.Done? && Starts(index.rest, CloseBracket) then
        Suffixes(inside, Index(e, index.value), index.rest[1..])
      else Error
    else Done(e, s)
  }

  /** The arguments of a call, up to the closing parenthesis. */
  function ParseArguments(inside: bool, s: seq<Token>): (r: Parsed<seq<Expression>>)
    ensures r.Done? ==> |r.rest| < |s|
    decreases |s|, 19
  {
    if Starts(s, Close) then Done([], s[1..]) else ParseList(inside, s)
  }

  function ParseList(inside: bool, s: seq<Token>): (r: Parsed<seq<Expression>>)
    ensures r.Done? ==> |r.rest| < |s|
    decreases |s|, 18
  {
    var x := ParseLevel(inside, EQUIVALENCE, s);
    if !x.Done? then Error
    else if Starts(x.rest, Close) then Done([x.value], x.rest[1..])
    else if Starts(x.rest, Comma) then
      var more := ParseList(inside, x.rest[1..]);
      if more.Done? then Done([x.value] + more.value, more.rest) else Error
    else Error
  }

  // ---------------------------------------------------------------- template ids and types

  /** What follows a qualified name. */
  function AfterName(s: seq<Token>): (r: seq<Token>)
    requires s != []
    ensures |r| < |s|
  {
    if |s| > 2 && s[1] == Sign(Dot) && IsIdentifier(s[2]) then AfterName(s[2..]) else s[1..]
  }

  /** A qualified name, `<`, type expressions and `>`. */
  function ParseTemplateId(s: seq<Token>): (r: Parsed<Expression>)
    ensures r.Done? ==> |r.rest| < |s| && r.value.Template?
    decreases |s|, 0
  {
    if s == [] || !IsIdentifier(s[0]) || !Starts(AfterName(s), Less) then Fail
    else
      match ParseTypeList(AfterName(s)[1..])
      case Done(_, rest) => Done(Template(s[..|s| - |rest|]), rest)
      case Fail => Fail
      case Error => Error
  }

  /** What a type expression says is not of interest here. */
  datatype Type = Type

  function ParseTypeList(s: seq<Token>): (r: Parsed<Type>)
    ensures r.Done? ==> |r.rest| < |s|
    decreases |s|, 3
  {
    var t := ParseType(s);
    if !t.Done? then t
    else if Starts(t.rest, Comma) then ParseTypeList(t.rest[1..])
    else CloseTemplate(t.rest)
  }

  /** The closing `>` is also taken from the front of `>>` and of `>=`. */
  function CloseTemplate(s: seq<Token>): (r: Parsed<Type>)
    ensures r.Done? ==> |r.rest| <= |s|
  {
    if Starts(s, Greater) then Done(Type, s[1..])
    else if Starts(s, ShiftRight) then Done(Type, [Sign(Greater)] + s[1..])
    else if Starts(s, GreaterEqual) then Done(Type, [Sign(Stray)] + s[1..])
    else Fail
  }

  function ParseType(s: seq<Token>): (r: Parsed<Type>)
    ensures r.Done? ==> |r.rest| < |s|
    decreases |s|, 2
  {
    var t := ParsePrimaryType(s);
    if t.Done? then TypeSuffixes(t.rest) else t
  }

  function ParsePrimaryType(s: seq<Token>): (r: Parsed<Type>)
    ensures r.Done? ==> |r.rest| < |s|
    decreases |s|, 1
  {
    if s == [] then Fail
    else if s[0].Word? then
      match ParseTemplateId(s)
      case Done(_, rest) => Done(Type, rest)
      case Fail => if s[0].kind == Identifier || s[0].kind == TypeName then Done(Type, s[1..]) else Fail
      case Error => Error
    else if Starts(s, Open) then
      var t := ParseType(s[1..]);
      if !t.Done? then Error
      else if Starts(t.rest, Close) then Done(Type, t.rest[1..])
      else Fail
    else Fail
  }

  function TypeSuffixes(s: seq<Token>): (r: Parsed<Type>)
    ensures r.Done? ==> |r.rest| <= |s|
    decreases |s|, 0
  {
    if Starts(s, Dot) && |s| > 1 && IsIdentifier(s[1]) then TypeSuffixes(s[2..])
    else if Starts(s, AndAnd) || Starts(s, Ampersand) || Starts(s, Star) then TypeSuffixes(s[1..])
    else if Starts(s, OpenBracket) then
      var dimension := ParseLevel(true, EQUIVALENCE, s[1..]);
      if dimension.Done? && Starts(dimension.rest, CloseBracket) then TypeSuffixes(dimension.rest[1..])
      else if dimension.Error? then Error
      else Done(Type, s)
    else Done(Type, s)
  }

  /** An expression, up to where it ends. */
  function Parse(s: seq<Token>): (r: Parsed<Expression>) {
    ParseLevel(false, EQUIVALENCE, s)
  }

  // ---------------------------------------------------------------- names that are not captured

  /** A primary may start with this name: it is not the name of a member. */
  predicate NameAt(s: seq<Token>, i: nat)
    requires i < |s|
  {
    IsIdentifier(s[i]) && (i == 0 || (s[i - 1] != Sign(Dot) && s[i - 1] != Sign(Arrow)))
  }

  /** `rest` ends `s`, and no name before it is read as the start of a template id. */
  predicate Uncaptured(s: seq<Token>, rest: seq<Token>) {
    && |rest| <= |s| && s[|s| - |rest|..] == rest
    && forall i :: 0 <= i < |s| - |rest| && NameAt(s, i) ==> ParseTemplateId(s[i..]).Fail?
  }

  lemma UncapturedBoth(s: seq<Token>, mid: seq<Token>, rest: seq<Token>)
    requires Uncaptured(s, mid) && Uncaptured(mid, rest)
    ensures Uncaptured(s, rest)
  {
    hide ParseTemplateId;
    var n := |s| - |mid|;
    forall i | 0 <= i < |s| - |rest| && NameAt(s, i) ensures ParseTemplateId(s[i..]).Fail? {
      if i >= n {
        assert s[i..] == mid[i - n..] && NameAt(mid, i - n);
      }
    }
    assert s[|s| - |rest|..] == mid[|mid| - |rest|..];
  }

  /** A part of the tokens, from the start or from a token that is no dot and no arrow. */
  lemma UncapturedPart(s: seq<Token>, mid: seq<Token>, rest: seq<Token>)
    requires Uncaptured(s, rest) && |rest| <= |mid| <= |s| && s[|s| - |mid|..] == mid
    ensures Uncaptured(s, mid)
    ensures |mid| == |s| || s[|s| - |mid| - 1] !in {Sign(Dot), Sign(Arrow)} ==> Uncaptured(mid, rest)
  {
    hide ParseTemplateId;
    var n := |s| - |mid|;
    if |mid| == |s| || s[|s| - |mid| - 1] !in {Sign(Dot), Sign(Arrow)} {
      forall i | 0 <= i < |mid| - |rest| && NameAt(mid, i) ensures ParseTemplateId(mid[i..]).Fail? {
        assert mid[i..] == s[n + i..] && NameAt(s, n + i);
      }
      assert s[|s| - |rest|..] == mid[|mid| - |rest|..];
    }
  }

  lemma UncapturedNothing(s: seq<Token>)
    ensures Uncaptured(s, s)
  {
  }

  lemma UncapturedSign(s: seq<Token>)
    requires s != [] && s[0].Sign?
    ensures Uncaptured(s, s[1..])
  {
  }

  lemma UncapturedMember(s: seq<Token>)
    requires |s| > 1 && (s[0] == Sign(Dot) || s[0] == Sign(Arrow))
    ensures Uncaptured(s, s[2..])
  {
    hide ParseTemplateId;
  }

  lemma UncapturedSplit(a: seq<Token>, b: seq<Token>, s: seq<Token>)
    requires Uncaptured(a + b, s) && |s| <= |b|
    ensures Uncaptured(a + b, b)
    ensures a == [] || a[|a| - 1] !in {Sign(Dot), Sign(Arrow)} ==> Uncaptured(b, s)
  {
    var all := a + b;
    assert all[|all| - |b|..] == b;
    assert a != [] ==> all[|all| - |b| - 1] == a[|a| - 1];
    UncapturedPart(all, b, s);
  }

  /** The two operands of an operator, or what is before and inside of brackets. */
  lemma UncapturedOperands(a: seq<Token>, op: Symbol, b: seq<Token>, s: seq<Token>)
    requires Uncaptured(a + [Sign(op)] + b + s, s) && op != Dot && op != Arrow
    ensures Uncaptured(a + ([Sign(op)] + b + s), [Sign(op)] + b + s) && Uncaptured(b + s, s)
  {
    hide Uncaptured;
    var x, bs := a + [Sign(op)], b + s;
    Associates(x, b, s);
    Associates([Sign(op)], b, s);
    Associates(a, [Sign(op)], bs);
    assert x[|x| - 1] == Sign(op);
    UncapturedSplit(x, bs, s);
    assert x + bs == a + ([Sign(op)] + b + s);
    UncapturedSplit(a, [Sign(op)] + b + s, s);
  }

  lemma Associates(a: seq<Token>, b: seq<Token>, c: seq<Token>)
    ensures a + b + c == a + (b + c)
  {
  }
}
