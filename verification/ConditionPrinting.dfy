/** Printing and reading conditional-compilation expressions (`CondComp*Node::ToString`,
    Cm.Ast/Statement.cpp, and the grammar of Cm.Parser/Statement.parser).

    The printer puts no parentheses around a right operand with the operator of its parent, so
    the tree that is read back can be associated differently; what it means cannot change.
    What is read is the tree with all operators associated to the left, and that is the same
    tree exactly when no operator is the right operand of the same operator. */
module ConditionPrinting {
  import opened StatementBinding

  datatype Token = Identifier(name: string) | OrSign | AndSign | NotSign | Open | Close

  // ---------------------------------------------------------------- printing

  function Print(e: Condition): seq<Token>
    decreases e, 0
  {
    match e
    case Or(l, r) => Print(l) + [OrSign] + Print(r)
    case And(l, r) => PrintOperand(l) + [AndSign] + PrintOperand(r)
    case Not(x) => [NotSign] + PrintSubject(x)
    case Symbol(name) => [Identifier(name)]
  }

  /** An operand of a conjunction. */
  function PrintOperand(e: Condition): seq<Token>
    decreases e, 1
  {
    if e.Or? then [Open] + Print(e) + [Close] else Print(e)
  }

  /** The subject of a negation. */
  function PrintSubject(e: Condition): seq<Token>
    decreases e, 1
  {
    if e.Or? || e.And? then [Open] + Print(e) + [Close] else Print(e)
  }

  // ---------------------------------------------------------------- the grammar

  datatype Parsed = Done(value: Condition, rest: seq<Token>) | Fail

  predicate Starts(s: seq<Token>, t: Token) {
    s != [] && s[0] == t
  }

  /** Conjunctions joined by `||`. */
  function ParseDisjunction(s: seq<Token>): (r: Parsed)
    ensures r.Done? ==> |r.rest| < |s|
    decreases |s|, 4
  {
    var left := ParseConjunction(s);
    if left.Done? then MoreDisjuncts(left.value, left.rest) else Fail
  }

  function MoreDisjuncts(value: Condition, s: seq<Token>): (r: Parsed)
    ensures r.Done? && |r.rest| <= |s|
    decreases |s|, 3
  {
    if Starts(s, OrSign) then
      var right := ParseConjunction(s[1..]);
      if right.Done? then MoreDisjuncts(Or(value, right.value), right.rest) else Done(value, s)
    else Done(value, s)
  }

  /** Prefix expressions joined by `&&`. */
  function ParseConjunction(s: seq<Token>): (r: Parsed)
    ensures r.Done? ==> |r.rest| < |s|
    decreases |s|, 2
  {
    var left := ParsePrefix(s);
    if left.Done? then MoreConjuncts(left.value, left.rest) else Fail
  }

  function MoreConjuncts(value: Condition, s: seq<Token>): (r: Parsed)
    ensures r.Done? && |r.rest| <= |s|
    decreases |s|, 1
  {
    if Starts(s, AndSign) then
      var right := ParsePrefix(s[1..]);
      if right.Done? then MoreConjuncts(And(value, right.value), right.rest) else Done(value, s)
    else Done(value, s)
  }

  /** Any number of `!`, and then a symbol or an expression in parentheses. */
  function ParsePrefix(s: seq<Token>): (r: Parsed)
    ensures r.Done? ==> |r.rest| < |s|
    decreases |s|, 0
  {
    if s == [] then Fail
    else
      match s[0]
      case NotSign =>
        var x := ParsePrefix(s[1..]);
        if x.Done? then Done(Not(x.value), x.rest) else Fail
      case Identifier(name) => Done(Symbol(name), s[1..])
      case Open =>
        var x := ParseDisjunction(s[1..]);
        if x.Done? && Starts(x.rest, Close) then Done(x.value, x.rest[1..]) else Fail
      case _ => Fail
  }

  // ---------------------------------------------------------------- what is read back

  /** The tree with all operators associated to the left. */
  function LeftAssociated(e: Condition): Condition
    decreases e, 0
  {
    match e
    case Or(l, r) => JoinOr(LeftAssociated(l), r)
    case And(l, r) => JoinAnd(LeftAssociated(l), r)
    case Not(x) => Not(LeftAssociated(x))
    case Symbol(_) => e
  }

  function JoinOr(left: Condition, e: Condition): Condition
    decreases e, 1
  {
    if e.Or? then JoinOr(JoinOr(left, e.left), e.right) else Or(left, LeftAssociated(e))
  }

  function JoinAnd(left: Condition, e: Condition): Condition
    decreases e, 1
  {
    if e.And? then JoinAnd(JoinAnd(left, e.left), e.right) else And(left, LeftAssociated(e))
  }

  // ---------------------------------------------------------------- reading what was printed

  lemma {:induction false} ReadSubject(e: Condition, s: seq<Token>)
    ensures ParsePrefix(PrintSubject(e) + s) == Done(LeftAssociated(e), s)
    decreases e, 4
  {
    match e
    case Symbol(name) =>
      ReadSymbol(name, s);
    case Not(x) =>
      ReadSubject(x, s);
      ReadNot(PrintSubject(x), LeftAssociated(x), s);
    case _ =>
      ReadDisjunction(e, [Close] + s);
      assert MoreDisjuncts(LeftAssociated(e), [Close] + s) == Done(LeftAssociated(e), [Close] + s);
      ReadEnclosed(Print(e), LeftAssociated(e), s);
  }

  lemma ReadSymbol(name: string, s: seq<Token>)
    ensures ParsePrefix([Identifier(name)] + s) == Done(Symbol(name), s)
  {
    assert ([Identifier(name)] + s)[1..] == s;
  }

  lemma ReadNot(tokens: seq<Token>, e: Condition, s: seq<Token>)
    requires ParsePrefix(tokens + s) == Done(e, s)
    ensures ParsePrefix([NotSign] + tokens + s) == Done(Not(e), s)
  {
    assert ([NotSign] + tokens + s)[1..] == tokens + s;
  }

  lemma ReadEnclosed(tokens: seq<Token>, e: Condition, s: seq<Token>)
    requires ParseDisjunction(tokens + ([Close] + s)) == Done(e, [Close] + s)
    ensures ParsePrefix([Open] + tokens + [Close] + s) == Done(e, s)
  {
    hide ParseDisjunction, ParseConjunction, MoreDisjuncts, MoreConjuncts;
    var all := [Open] + tokens + [Close] + s;
    assert all[0] == Open && all[1..] == tokens + ([Close] + s);
    assert ([Close] + s)[1..] == s;
  }

  lemma {:induction false} ReadConjunction(e: Condition, s: seq<Token>)
    ensures ParseConjunction(PrintOperand(e) + s) == MoreConjuncts(LeftAssociated(e), s)
    decreases e, 5
  {
    if e.And? {
      var rest := [AndSign] + PrintOperand(e.right) + s;
      assert PrintOperand(e) + s == PrintOperand(e.left) + rest;
      ReadConjunction(e.left, rest);
      ReadConjuncts(LeftAssociated(e.left), e.right, s);
    } else {
      assert PrintOperand(e) == PrintSubject(e);
      ReadSubject(e, s);
    }
  }

  lemma {:induction false} ReadConjuncts(left: Condition, e: Condition, s: seq<Token>)
    ensures MoreConjuncts(left, [AndSign] + PrintOperand(e) + s) == MoreConjuncts(JoinAnd(left, e), s)
    decreases e, 5
  {
    if e.And? {
      var rest := [AndSign] + PrintOperand(e.right) + s;
      assert [AndSign] + PrintOperand(e) + s == [AndSign] + PrintOperand(e.left) + rest;
      ReadConjuncts(left, e.left, rest);
      ReadConjuncts(JoinAnd(left, e.left), e.right, s);
    } else {
      var all := [AndSign] + PrintOperand(e) + s;
      assert all[1..] == PrintSubject(e) + s;
      ReadSubject(e, s);
    }
  }

  lemma {:induction false} ReadDisjunction(e: Condition, s: seq<Token>)
    requires !Starts(s, AndSign)
    ensures ParseDisjunction(Print(e) + s) == MoreDisjuncts(LeftAssociated(e), s)
    decreases e, 3
  {
    match e
    case Or(l, r) =>
      var rest := [OrSign] + Print(r) + s;
      assert Print(e) + s == Print(l) + rest;
      ReadDisjunction(l, rest);
      ReadDisjuncts(LeftAssociated(l), r, s);
    case And(l, r) =>
      var rest := [AndSign] + PrintOperand(r) + s;
      assert Print(e) + s == PrintOperand(l) + rest;
      ReadConjunction(l, rest);
      ReadConjuncts(LeftAssociated(l), r, s);
    case Not(x) =>
      assert (Print(e) + s)[1..] == PrintSubject(x) + s;
      ReadSubject(x, s);
      assert ParsePrefix(Print(e) + s) == Done(LeftAssociated(e), s);
      assert ParseConjunction(Print(e) + s) == Done(LeftAssociated(e), s);
    case Symbol(_) =>
      assert ParsePrefix(Print(e) + s) == Done(e, s);
      assert ParseConjunction(Print(e) + s) == Done(e, s);
  }

  lemma OneMoreDisjunct(left: Condition, tokens: seq<Token>, right: Condition, s: seq<Token>)
    requires ParseConjunction(tokens + s) == Done(right, s)
    ensures MoreDisjuncts(left, [OrSign] + tokens + s) == MoreDisjuncts(Or(left, right), s)
  {
    hide ParseConjunction;
    var all := [OrSign] + tokens + s;
    assert Starts(all, OrSign) && all[1..] == tokens + s;
  }

  lemma {:induction false} ReadDisjuncts(left: Condition, e: Condition, s: seq<Token>)
    requires !Starts(s, AndSign)
    ensures MoreDisjuncts(left, [OrSign] + Print(e) + s) == MoreDisjuncts(JoinOr(left, e), s)
    decreases e, 6
  {
    hide ParseConjunction;
    if e.Or? {
      var rest := [OrSign] + Print(e.right) + s;
      assert [OrSign] + Print(e) + s == [OrSign] + Print(e.left) + rest;
      ReadDisjuncts(left, e.left, rest);
      ReadDisjuncts(JoinOr(left, e.left), e.right, s);
    } else {
      ReadConjunction(e, s);
      OneMoreDisjunct(left, Print(e), LeftAssociated(e), s);
    }
  }

  /** What is printed can be read back: the same expression, associated to the left. */
  lemma PrintedIsRead(e: Condition)
    ensures ParseDisjunction(Print(e)) == Done(LeftAssociated(e), [])
  {
    assert Print(e) + [] == Print(e);
    ReadDisjunction(e, []);
  }

  // ---------------------------------------------------------------- what it means

  lemma {:induction false} SameMeaning(e: Condition, defined: set<string>)
    ensures Holds(LeftAssociated(e), defined) == Holds(e, defined)
    decreases e, 0
  {
    match e
    case Or(l, r) => SameMeaning(l, defined); JoinOrMeans(LeftAssociated(l), r, defined);
    case And(l, r) => SameMeaning(l, defined); JoinAndMeans(LeftAssociated(l), r, defined);
    case Not(x) => SameMeaning(x, defined);
    case Symbol(_) =>
  }

  lemma {:induction false} JoinOrMeans(left: Condition, e: Condition, defined: set<string>)
    ensures Holds(JoinOr(left, e), defined) <==> Holds(left, defined) || Holds(e, defined)
    decreases e, 1
  {
    if e.Or? {
      JoinOrMeans(left, e.left, defined);
      JoinOrMeans(JoinOr(left, e.left), e.right, defined);
    } else {
      SameMeaning(e, defined);
    }
  }

  lemma {:induction false} JoinAndMeans(left: Condition, e: Condition, defined: set<string>)
    ensures Holds(JoinAnd(left, e), defined) <==> Holds(left, defined) && Holds(e, defined)
    decreases e, 1
  {
    if e.And? {
      JoinAndMeans(left, e.left, defined);
      JoinAndMeans(JoinAnd(left, e.left), e.right, defined);
    } else {
      SameMeaning(e, defined);
    }
  }

  /** For every set of defined symbols the expression that is read back has the truth value of
      the one that was printed. */
  lemma ReadingKeepsMeaning(e: Condition, defined: set<string>)
    ensures var r := ParseDisjunction(Print(e));
            r.Done? && r.rest == [] && Holds(r.value, defined) == Holds(e, defined)
  {
    PrintedIsRead(e);
    SameMeaning(e, defined);
  }

  // ---------------------------------------------------------------- when the tree is the same

  /** No operator is the right operand of the same operator. */
  predicate Regular(e: Condition) {
    match e
    case Or(l, r) => !r.Or? && Regular(l) && Regular(r)
    case And(l, r) => !r.And? && Regular(l) && Regular(r)
    case Not(x) => Regular(x)
    case Symbol(_) => true
  }

  lemma {:induction false} JoinedIsRegular(left: Condition, e: Condition)
    requires Regular(left)
    ensures Regular(LeftAssociated(e)) && Regular(JoinOr(left, e)) && Regular(JoinAnd(left, e))
    ensures (LeftAssociated(e).Or? <==> e.Or?) && (LeftAssociated(e).And? <==> e.And?)
    ensures JoinOr(left, e).Or? && JoinAnd(left, e).And?
    decreases e
  {
    match e
    case Or(l, r) =>
      JoinedIsRegular(left, l);
      JoinedIsRegular(JoinOr(left, l), r);
      JoinedIsRegular(LeftAssociated(l), r);
    case And(l, r) =>
      JoinedIsRegular(left, l);
      JoinedIsRegular(JoinAnd(left, l), r);
      JoinedIsRegular(LeftAssociated(l), r);
    case Not(x) => JoinedIsRegular(left, x);
    case Symbol(_) =>
  }

  lemma {:induction false} RegularStays(e: Condition)
    requires Regular(e)
    ensures LeftAssociated(e) == e
  {
    match e
    case Or(l, r) => RegularStays(l); RegularStays(r);
    case And(l, r) => RegularStays(l); RegularStays(r);
    case Not(x) => RegularStays(x);
    case Symbol(_) =>
  }

  /** Printing and reading gives the very same tree exactly when the tree is regular. */
  lemma SameTreeIff(e: Condition)
    ensures ParseDisjunction(Print(e)) == Done(e, []) <==> Regular(e)
  {
    PrintedIsRead(e);
    JoinedIsRegular(Symbol(""), e);
    if Regular(e) {
      RegularStays(e);
    }
  }
}
