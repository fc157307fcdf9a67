/** What binding statements means (Cm.Bind/Binder.cpp, Cm.BoundTree/BoundStatement.cpp), as a
    translation over the structure of the statements: the scope, the enclosing switch and the
    chosen conditional parts are arguments, and nothing is stacked. */
module StatementBinding {
  import opened Options

  datatype Result<+T> = Ok(value: T) | Err(error: string) {
    predicate IsFailure() {
      Err?
    }

    function PropagateFailure<U>(): Result<U>
      requires Err?
    {
      Err(error)
    }

    function Extract(): T
      requires Ok?
    {
      value
    }
  }

  type Scope = nat
  type NodeId = nat
  type Expr = nat

  /** Conditional-compilation expressions. */
  datatype Condition = Or(left: Condition, right: Condition) | And(left: Condition, right: Condition)
                     | Not(subject: Condition) | Symbol(name: string)

  datatype Part = Part(expr: Option<Condition>, stmts: seq<Statement>)

  /** Syntax.  A substatement that may be absent is a list of at most one statement.  `Leaf`
      stands for the statements that their own binder turns into bound statements: return,
      simple, assignment, construction, delete, destroy, break, continue, goto and assert. */
  datatype Statement =
    | Leaf(id: NodeId)
    | GotoCase(id: NodeId)
    | Compound(id: NodeId, stmts: seq<Statement>)
    | If(id: NodeId, thenS: seq<Statement>, elseS: seq<Statement>)
    | While(id: NodeId, body: seq<Statement>)
    | Do(id: NodeId, body: seq<Statement>)
    | For(id: NodeId, init: Statement, action: seq<Statement>)
    | Switch(id: NodeId, cases: seq<Statement>, defaultS: seq<Statement>)
    | Case(id: NodeId, stmts: seq<Statement>)
    | Default(id: NodeId, stmts: seq<Statement>)
    | CondComp(ifPart: Part, elifParts: seq<Part>, elsePart: Option<Part>)

  /** The bound tree. */
  datatype Bound =
    | BLeaf(id: NodeId, what: nat)
    | BCompound(id: NodeId, stmts: seq<Bound>)
    | BIf(id: NodeId, cond: Option<Expr>, thenS: Option<Bound>, elseS: Option<Bound>)
    | BWhile(id: NodeId, cond: Option<Expr>, body: Option<Bound>)
    | BDo(id: NodeId, cond: Option<Expr>, body: Option<Bound>)
    | BFor(id: NodeId, init: Option<Bound>, cond: Option<Expr>, increment: Option<Expr>, action: Option<Bound>)
    | BSwitch(id: NodeId, cond: Option<Expr>, cases: seq<Bound>, defaultS: Option<Bound>)
    | BCase(id: NodeId, values: seq<int>, stmts: seq<Bound>)
    | BDefault(id: NodeId, stmts: seq<Bound>)

  /** The switch statement that is being bound, as far as case binders look at it. */
  datatype SwitchHead = SwitchHead(id: NodeId, cond: Expr)

  /** The binders of single statements and expressions, which may reject them, and the symbol
      table. */
  datatype Binders = Binders(
    leaf: (NodeId, Scope) -> Result<seq<Bound>>,
    gotoCase: (NodeId, Scope, Option<SwitchHead>) -> Result<seq<Bound>>,
    condition: (NodeId, Scope) -> Result<Expr>,
    forHeader: (NodeId, Scope) -> Result<(Expr, Expr)>,
    caseValues: (NodeId, Scope, Option<SwitchHead>) -> Result<seq<int>>,
    checkDefault: (NodeId, Scope) -> Result<()>,
    scopeOf: NodeId -> Scope,
    defined: set<string>)

  /** `AddStatement` of the bound statements that have substatements. */
  function AddStatement(parent: Bound, s: Bound): Bound {
    match parent
    case BCompound(id, ss) => BCompound(id, ss + [s])
    case BIf(id, c, t, e) => if t.None? then BIf(id, c, Some(s), e) else BIf(id, c, t, Some(s))
    case BWhile(id, c, _) => BWhile(id, c, Some(s))
    case BDo(id, c, _) => BDo(id, c, Some(s))
    case BFor(id, i, c, n, a) => if i.None? then BFor(id, Some(s), c, n, a) else BFor(id, i, c, n, Some(s))
    case BSwitch(id, c, cs, d) => if s.BCase? then BSwitch(id, c, cs + [s], d) else BSwitch(id, c, cs, Some(s))
    case BCase(id, vs, ss) => BCase(id, vs, ss + [s])
    case BDefault(id, ss) => BDefault(id, ss + [s])
    case BLeaf(_, _) => parent
  }

  /** The condition, the increment and the case values are set when a statement is complete. */
  function SetCondition(s: Bound, c: Expr): Bound {
    match s
    case BIf(id, _, t, e) => BIf(id, Some(c), t, e)
    case BWhile(id, _, body) => BWhile(id, Some(c), body)
    case BDo(id, _, body) => BDo(id, Some(c), body)
    case BFor(id, i, _, n, a) => BFor(id, i, Some(c), n, a)
    case BSwitch(id, _, cs, d) => BSwitch(id, Some(c), cs, d)
    case _ => s
  }

  function SetIncrement(s: Bound, n: Expr): Bound {
    match s
    case BFor(id, i, c, _, a) => BFor(id, i, c, Some(n), a)
    case _ => s
  }

  function SetValues(s: Bound, vs: seq<int>): Bound {
    match s
    case BCase(id, _, ss) => BCase(id, vs, ss)
    case _ => s
  }

  function AddAll(parent: Bound, ss: seq<Bound>): Bound
    decreases ss
  {
    if ss == [] then parent else AddAll(AddStatement(parent, ss[0]), ss[1..])
  }

  lemma AddOne(parent: Bound, s: Bound)
    ensures AddAll(parent, [s]) == AddStatement(parent, s)
  {
  }

  lemma {:induction false} AddAllAppend(parent: Bound, a: seq<Bound>, b: seq<Bound>)
    ensures AddAll(AddAll(parent, a), b) == AddAll(parent, a + b)
    decreases a
  {
    if a == [] {
      assert a + b == b;
    } else {
      assert (a + b)[1..] == a[1..] + b;
      AddAllAppend(AddStatement(parent, a[0]), a[1..], b);
    }
  }

  predicate Holds(e: Condition, defined: set<string>) {
    match e
    case Or(l, r) => Holds(l, defined) || Holds(r, defined)
    case And(l, r) => Holds(l, defined) && Holds(r, defined)
    case Not(s) => !Holds(s, defined)
    case Symbol(name) => name in defined
  }

  /** The statements of the part that conditional compilation selects. */
  function Select(ifPart: Part, elifParts: seq<Part>, elsePart: Option<Part>, defined: set<string>):
    (r: Result<seq<Statement>>)
    decreases |elifParts|
  {
    if ifPart.expr.None? then Err("part expression is empty")
    else if Holds(ifPart.expr.value, defined) then Ok(ifPart.stmts)
    else if elifParts != [] then Select(elifParts[0], elifParts[1..], elsePart, defined)
    else if elsePart.Some? then Ok(elsePart.value.stmts)
    else Ok([])
  }

  /** Only statements inside the conditional statement are selected. */
  lemma {:induction false} SelectInside(ifPart: Part, elifParts: seq<Part>, elsePart: Option<Part>, defined: set<string>)
    ensures var r := Select(ifPart, elifParts, elsePart, defined);
            r.Ok? ==> r.value == ifPart.stmts || r.value == [] ||
                      (exists i :: 0 <= i < |elifParts| && r.value == elifParts[i].stmts) ||
                      (elsePart.Some? && r.value == elsePart.value.stmts)
    decreases |elifParts|
  {
    if elifParts != [] {
      SelectInside(elifParts[0], elifParts[1..], elsePart, defined);
      assert forall i :: 0 <= i < |elifParts| - 1 ==> elifParts[1..][i] == elifParts[i + 1];
    }
  }

  /** The parts are tried in order up to the first true one, then the else part. */
  lemma {:induction false} FirstTruePart(ifPart: Part, elifParts: seq<Part>, elsePart: Option<Part>,
                                         defined: set<string>, k: nat)
    requires k <= |elifParts| + 1
    requires forall j :: 0 <= j < k ==>
               var part := ([ifPart] + elifParts)[j]; part.expr.Some? && !Holds(part.expr.value, defined)
    ensures var r, parts := Select(ifPart, elifParts, elsePart, defined), [ifPart] + elifParts;
            if k == |parts| then r == Ok(if elsePart.Some? then elsePart.value.stmts else [])
            else if parts[k].expr.None? then r.Err?
            else Holds(parts[k].expr.value, defined) ==> r == Ok(parts[k].stmts)
    decreases k
  {
    var parts := [ifPart] + elifParts;
    if k > 0 {
      assert parts[0] == ifPart;
      if elifParts != [] {
        assert [elifParts[0]] + elifParts[1..] == elifParts;
        assert forall j :: 0 <= j < k - 1 ==> elifParts[j] == parts[j + 1];
        FirstTruePart(elifParts[0], elifParts[1..], elsePart, defined, k - 1);
      }
    }
  }

  /** The operators of conditions obey the laws of truth values, and only the named symbol counts. */
  lemma ConditionLaws(e: Condition, d: Condition, name: string, defined: set<string>)
    ensures Holds(Or(e, Not(e)), defined) && !Holds(And(e, Not(e)), defined)
    ensures Holds(Or(e, d), defined) <==> Holds(Or(d, e), defined)
    ensures Holds(And(e, d), defined) <==> Holds(Not(Or(Not(e), Not(d))), defined)
    ensures Holds(And(e, Or(e, d)), defined) <==> Holds(e, defined)
    ensures Holds(Symbol(name), defined + {name}) && !Holds(Symbol(name), defined - {name})
  {
    assert Holds(Not(e), defined) == !Holds(e, defined) && Holds(Not(d), defined) == !Holds(d, defined);
    assert Holds(Or(Not(e), Not(d)), defined) == !Holds(And(e, d), defined);
  }

  // ---------------------------------------------------------------- the translation

  /** The bound statements that `s` appends to its parent. */
  function Bind(b: Binders, scope: Scope, sw: Option<SwitchHead>, s: Statement): Result<seq<Bound>>
    decreases s, 0
  {
    match s
    case Leaf(id) => b.leaf(id, scope)
    case GotoCase(id) => b.gotoCase(id, scope, sw)
    case Compound(id, ss) =>
      var bs :- BindList(b, b.scopeOf(id), sw, ss);
      Ok([AddAll(BCompound(id, []), bs)])
    case If(id, t, e) =>
      var ts :- BindList(b, scope, sw, t);
      var es :- BindList(b, scope, sw, e);
      var c :- b.condition(id, scope);
      Ok([SetCondition(AddAll(BIf(id, None, None, None), ts + es), c)])
    case While(id, body) =>
      var bs :- BindList(b, scope, sw, body);
      var c :- b.condition(id, scope);
      Ok([SetCondition(AddAll(BWhile(id, None, None), bs), c)])
    case Do(id, body) =>
      var bs :- BindList(b, scope, sw, body);
      var c :- b.condition(id, scope);
      Ok([SetCondition(AddAll(BDo(id, None, None), bs), c)])
    case For(id, init, action) =>
      var inner := b.scopeOf(id);
      var first :- Bind(b, inner, sw, init);
      var bs :- BindList(b, inner, sw, action);
      var (c, n) :- b.forHeader(id, inner);
      Ok([SetCondition(SetIncrement(AddAll(BFor(id, None, None, None, None), first + bs), n), c)])
    case Switch(id, cases, defaultS) =>
      var c :- b.condition(id, scope);
      var cs :- BindList(b, scope, Some(SwitchHead(id, c)), cases);
      var ds :- BindList(b, scope, Some(SwitchHead(id, c)), defaultS);
      Ok([AddAll(BSwitch(id, Some(c), [], None), cs + ds)])
    case Case(id, ss) =>
      var bs :- BindList(b, scope, sw, ss);
      var vs :- b.caseValues(id, scope, sw);
      Ok([SetValues(AddAll(BCase(id, [], []), bs), vs)])
    case Default(id, ss) =>
      var bs :- BindList(b, scope, sw, ss);
      var _ :- b.checkDefault(id, scope);
      Ok([AddAll(BDefault(id, []), bs)])
    case CondComp(i, es, e) =>
      SelectInside(i, es, e, b.defined);
      var ss :- Select(i, es, e, b.defined);
      if ss == [] then Ok([]) else BindList(b, scope, sw, ss)
  }

  function BindList(b: Binders, scope: Scope, sw: Option<SwitchHead>, ss: seq<Statement>): Result<seq<Bound>>
    decreases ss
  {
    if ss == [] then Ok([])
    else
      var bs :- Bind(b, scope, sw, ss[0]);
      var more :- BindList(b, scope, sw, ss[1..]);
      Ok(bs + more)
  }

  // ---------------------------------------------------------------- conditional compilation

  /** The statements with every conditional-compilation statement replaced by the statements
      of its first true part, else of its else part, else by nothing, at every depth. */
  function Resolve(defined: set<string>, s: Statement): seq<Statement>
    decreases s, 0
  {
    match s
    case Leaf(_) => [s]
    case GotoCase(_) => [s]
    case Compound(id, ss) => [Compound(id, ResolveList(defined, ss))]
    case If(id, t, e) => [If(id, ResolveList(defined, t), ResolveList(defined, e))]
    case While(id, body) => [While(id, ResolveList(defined, body))]
    case Do(id, body) => [Do(id, ResolveList(defined, body))]
    case For(id, init, action) => [For(id, init, ResolveList(defined, action))]
    case Switch(id, cs, d) => [Switch(id, ResolveList(defined, cs), ResolveList(defined, d))]
    case Case(id, ss) => [Case(id, ResolveList(defined, ss))]
    case Default(id, ss) => [Default(id, ResolveList(defined, ss))]
    case CondComp(i, es, e) =>
      SelectInside(i, es, e, defined);
      match Select(i, es, e, defined)
      case Err(_) => [s]
      case Ok(ss) => if ss == [] then [] else ResolveList(defined, ss)
  }

  function ResolveList(defined: set<string>, ss: seq<Statement>): seq<Statement>
    decreases ss
  {
    if ss == [] then [] else Resolve(defined, ss[0]) + ResolveList(defined, ss[1..])
  }

  lemma {:induction false} BindListAppend(b: Binders, scope: Scope, sw: Option<SwitchHead>,
                                          p: seq<Statement>, q: seq<Statement>)
    ensures BindList(b, scope, sw, p + q) ==
            var x := BindList(b, scope, sw, p);
            if x.Err? then x
            else var y := BindList(b, scope, sw, q);
                 if y.Err? then y else Ok(x.value + y.value)
    decreases p
  {
    if p == [] {
      assert p + q == q;
      var y := BindList(b, scope, sw, q);
      assert y.Ok? ==> [] + y.value == y.value;
    } else {
      assert (p + q)[1..] == p[1..] + q;
      BindListAppend(b, scope, sw, p[1..], q);
      var x, y, z := Bind(b, scope, sw, p[0]), BindList(b, scope, sw, p[1..]), BindList(b, scope, sw, q);
      if x.Ok? && y.Ok? && z.Ok? {
        assert x.value + (y.value + z.value) == (x.value + y.value) + z.value;
      }
    }
  }

  /** How a `for` statement is translated, step by step. */
  lemma BindFor(b: Binders, scope: Scope, sw: Option<SwitchHead>, id: NodeId, init: Statement, action: seq<Statement>)
    ensures var r, inner := Bind(b, scope, sw, For(id, init, action)), b.scopeOf(id);
            var first, bs, header := Bind(b, inner, sw, init), BindList(b, inner, sw, action), b.forHeader(id, inner);
            && (first.Err? ==> r == Err(first.error))
            && (first.Ok? && bs.Err? ==> r == Err(bs.error))
            && (first.Ok? && bs.Ok? && header.Err? ==> r == Err(header.error))
            && (first.Ok? && bs.Ok? && header.Ok? ==>
                  r == Ok([SetCondition(SetIncrement(AddAll(BFor(id, None, None, None, None), first.value + bs.value),
                                                     header.value.1), header.value.0)]))
  {
  }

  lemma BindSwitch(b: Binders, scope: Scope, sw: Option<SwitchHead>, id: NodeId, cases: seq<Statement>,
                   defaultS: seq<Statement>)
    ensures var r, c := Bind(b, scope, sw, Switch(id, cases, defaultS)), b.condition(id, scope);
            if c.Err? then r == Err(c.error)
            else
              var head := Some(SwitchHead(id, c.value));
              var cs, ds := BindList(b, scope, head, cases), BindList(b, scope, head, defaultS);
              if cs.Err? then r == Err(cs.error)
              else if ds.Err? then r == Err(ds.error)
              else r == Ok([AddAll(BSwitch(id, Some(c.value), [], None), cs.value + ds.value)])
  {
  }

  lemma BindSingle(b: Binders, scope: Scope, sw: Option<SwitchHead>, s: Statement)
    ensures BindList(b, scope, sw, [s]) == Bind(b, scope, sw, s)
  {
    var x := Bind(b, scope, sw, s);
    assert x.Ok? ==> x.value + [] == x.value;
  }

  lemma BindNothing(b: Binders, scope: Scope, sw: Option<SwitchHead>)
    ensures BindList(b, scope, sw, []) == Ok([])
  {
  }

  /** Binding a statement with conditional compilation anywhere inside it, the initializers of
      `for` aside, is binding what conditional compilation makes of it. */
  lemma {:induction false} BindResolved(b: Binders, scope: Scope, sw: Option<SwitchHead>, s: Statement)
    ensures BindList(b, scope, sw, Resolve(b.defined, s)) == Bind(b, scope, sw, s)
    decreases s, 0
  {
    hide AddAll, SetCondition, SetIncrement, BindList, ResolveList, Select;
    match s {
      case Leaf(_) => BindSingle(b, scope, sw, s);
      case GotoCase(_) => BindSingle(b, scope, sw, s);
      case Compound(id, ss) =>
        BindResolvedList(b, b.scopeOf(id), sw, ss);
        BindSingle(b, scope, sw, Compound(id, ResolveList(b.defined, ss)));
      case If(id, t, e) =>
        BindResolvedList(b, scope, sw, t);
        BindResolvedList(b, scope, sw, e);
        BindSingle(b, scope, sw, If(id, ResolveList(b.defined, t), ResolveList(b.defined, e)));
      case While(id, body) =>
        BindResolvedList(b, scope, sw, body);
        BindSingle(b, scope, sw, While(id, ResolveList(b.defined, body)));
      case Do(id, body) =>
        BindResolvedList(b, scope, sw, body);
        BindSingle(b, scope, sw, Do(id, ResolveList(b.defined, body)));
      case For(id, init, action) =>
        BindResolvedList(b, b.scopeOf(id), sw, action);
        BindSingle(b, scope, sw, For(id, init, ResolveList(b.defined, action)));
      case Switch(id, cs, d) =>
        var c := b.condition(id, scope);
        if c.Ok? {
          BindResolvedList(b, scope, Some(SwitchHead(id, c.value)), cs);
          BindResolvedList(b, scope, Some(SwitchHead(id, c.value)), d);
        }
        BindSingle(b, scope, sw, Switch(id, ResolveList(b.defined, cs), ResolveList(b.defined, d)));
      case Case(id, ss) =>
        BindResolvedList(b, scope, sw, ss);
        BindSingle(b, scope, sw, Case(id, ResolveList(b.defined, ss)));
      case Default(id, ss) =>
        BindResolvedList(b, scope, sw, ss);
        BindSingle(b, scope, sw, Default(id, ResolveList(b.defined, ss)));
      case CondComp(i, es, e) =>
        var ss := Select(i, es, e, b.defined);
        SelectInside(i, es, e, b.defined);
        if ss.Err? {
          BindSingle(b, scope, sw, s);
        } else if ss.value != [] {
          BindResolvedList(b, scope, sw, ss.value);
        } else {
          BindNothing(b, scope, sw);
        }
    }
  }

  lemma {:induction false} BindResolvedList(b: Binders, scope: Scope, sw: Option<SwitchHead>, ss: seq<Statement>)
    ensures BindList(b, scope, sw, ResolveList(b.defined, ss)) == BindList(b, scope, sw, ss)
    decreases ss
  {
    if ss != [] {
      BindResolved(b, scope, sw, ss[0]);
      BindResolvedList(b, scope, sw, ss[1..]);
      BindListAppend(b, scope, sw, Resolve(b.defined, ss[0]), ResolveList(b.defined, ss[1..]));
    }
  }

  // ---------------------------------------------------------------- branches of bound statements

  function Branch(s: Option<Bound>): seq<Bound> {
    if s.Some? then [s.value] else []
  }

  lemma {:induction false} AddAllWhile(id: NodeId, c: Option<Expr>, body: Option<Bound>, ss: seq<Bound>)
    ensures AddAll(BWhile(id, c, body), ss) == BWhile(id, c, if ss == [] then body else Some(ss[|ss| - 1]))
    decreases ss
  {
    if ss != [] {
      AddAllWhile(id, c, Some(ss[0]), ss[1..]);
    }
  }

  lemma {:induction false} AddAllIf(id: NodeId, c: Option<Expr>, t: Bound, e: Option<Bound>, ss: seq<Bound>)
    ensures AddAll(BIf(id, c, Some(t), e), ss) == BIf(id, c, Some(t), if ss == [] then e else Some(ss[|ss| - 1]))
    decreases ss
  {
    if ss != [] {
      AddAllIf(id, c, t, Some(ss[0]), ss[1..]);
    }
  }

  /** A bound `if` has the statements of its then part in the then branch and those of its else
      part in the else branch exactly when each part binds to at most one statement, and the
      then part to one if the else part does.  A `delete` that also destroys binds to two, so
      as a then part it leaks into the else branch. */
  lemma IfBranchesIff(id: NodeId, ts: seq<Bound>, es: seq<Bound>)
    ensures var s := AddAll(BIf(id, None, None, None), ts + es);
            s.BIf? &&
            (Branch(s.thenS) == ts && Branch(s.elseS) == es <==>
              |ts| <= 1 && |es| <= 1 && (es != [] ==> ts != []))
  {
    var all := ts + es;
    if all != [] {
      AddAllIf(id, None, all[0], None, all[1..]);
    }
  }

  /** A bound loop has all the statements of its body exactly when there is at most one. */
  lemma WhileBodyIff(id: NodeId, bs: seq<Bound>)
    ensures var s := AddAll(BWhile(id, None, None), bs);
            s.BWhile? && (Branch(s.body) == bs <==> |bs| <= 1)
  {
    AddAllWhile(id, None, None, bs);
  }

  lemma {:induction false} AddAllCompound(id: NodeId, sofar: seq<Bound>, ss: seq<Bound>)
    ensures AddAll(BCompound(id, sofar), ss) == BCompound(id, sofar + ss)
    decreases ss
  {
    if ss == [] {
      assert sofar + ss == sofar;
    } else {
      assert sofar + ss == (sofar + [ss[0]]) + ss[1..];
      AddAllCompound(id, sofar + [ss[0]], ss[1..]);
    }
  }

  /** A block holds the translations of its statements, all of them, in order. */
  lemma CompoundBindsAll(b: Binders, scope: Scope, sw: Option<SwitchHead>, id: NodeId, ss: seq<Statement>)
    ensures var inner := BindList(b, b.scopeOf(id), sw, ss);
            Bind(b, scope, sw, Compound(id, ss)) ==
            if inner.Err? then Err(inner.error) else Ok([BCompound(id, inner.value)])
  {
    var inner := BindList(b, b.scopeOf(id), sw, ss);
    if inner.Ok? {
      AddAllCompound(id, [], inner.value);
      assert [] + inner.value == inner.value;
    }
  }

  lemma {:induction false} AddAllFor(id: NodeId, init: Bound, action: Option<Bound>, ss: seq<Bound>)
    ensures AddAll(BFor(id, Some(init), None, None, action), ss) ==
            BFor(id, Some(init), None, None, if ss == [] then action else Some(ss[|ss| - 1]))
    decreases ss
  {
    if ss != [] {
      AddAllFor(id, init, Some(ss[0]), ss[1..]);
    }
  }

  /** The same for the initializer and the action of a bound `for`. */
  lemma ForPartsIff(id: NodeId, first: seq<Bound>, bs: seq<Bound>)
    ensures var s := AddAll(BFor(id, None, None, None, None), first + bs);
            s.BFor? &&
            (Branch(s.init) == first && Branch(s.action) == bs <==>
              |first| <= 1 && |bs| <= 1 && (bs != [] ==> first != []))
  {
    var all := first + bs;
    if all != [] {
      AddAllFor(id, all[0], None, all[1..]);
    }
  }

  /** A bound switch keeps its cases in order and apart from its default statement. */
  lemma {:induction false} SwitchParts(id: NodeId, c: Option<Expr>, sofar: seq<Bound>, cs: seq<Bound>, d: seq<Bound>)
    requires forall i :: 0 <= i < |cs| ==> cs[i].BCase?
    requires |d| <= 1 && (d != [] ==> !d[0].BCase?)
    ensures AddAll(BSwitch(id, c, sofar, None), cs + d) ==
            BSwitch(id, c, sofar + cs, if d == [] then None else Some(d[0]))
    decreases cs
  {
    if cs == [] {
      assert cs + d == d && sofar + cs == sofar;
      if d != [] {
        assert AddAll(BSwitch(id, c, sofar, Some(d[0])), d[1..]) == BSwitch(id, c, sofar, Some(d[0]));
      }
    } else {
      assert (cs + d)[1..] == cs[1..] + d && sofar + cs == (sofar + [cs[0]]) + cs[1..];
      SwitchParts(id, c, sofar + [cs[0]], cs[1..], d);
    }
  }

  // ---------------------------------------------------------------- finished statements

  lemma {:induction false} AddAllDo(id: NodeId, c: Option<Expr>, body: Option<Bound>, ss: seq<Bound>)
    ensures AddAll(BDo(id, c, body), ss) == BDo(id, c, if ss == [] then body else Some(ss[|ss| - 1]))
    decreases ss
  {
    if ss != [] {
      AddAllDo(id, c, Some(ss[0]), ss[1..]);
    }
  }

  lemma {:induction false} AddAllCase(id: NodeId, vs: seq<int>, sofar: seq<Bound>, ss: seq<Bound>)
    ensures AddAll(BCase(id, vs, sofar), ss) == BCase(id, vs, sofar + ss)
    decreases ss
  {
    if ss == [] {
      assert sofar + ss == sofar;
    } else {
      assert sofar + ss == (sofar + [ss[0]]) + ss[1..];
      AddAllCase(id, vs, sofar + [ss[0]], ss[1..]);
    }
  }

  lemma {:induction false} AddAllDefault(id: NodeId, sofar: seq<Bound>, ss: seq<Bound>)
    ensures AddAll(BDefault(id, sofar), ss) == BDefault(id, sofar + ss)
    decreases ss
  {
    if ss == [] {
      assert sofar + ss == sofar;
    } else {
      assert sofar + ss == (sofar + [ss[0]]) + ss[1..];
      AddAllDefault(id, sofar + [ss[0]], ss[1..]);
    }
  }

  /** A bound `if` is finished with the condition, the first bound statement as its then branch
      and the last of the others as its else branch. */
  lemma IfFinished(b: Binders, scope: Scope, sw: Option<SwitchHead>, id: NodeId, t: seq<Statement>, e: seq<Statement>)
    ensures var r, ts, es := Bind(b, scope, sw, If(id, t, e)), BindList(b, scope, sw, t), BindList(b, scope, sw, e);
            var c := b.condition(id, scope);
            if ts.Err? then r == Err(ts.error)
            else if es.Err? then r == Err(es.error)
            else if c.Err? then r == Err(c.error)
            else
              var all := ts.value + es.value;
              r == Ok([BIf(id, Some(c.value), if all == [] then None else Some(all[0]),
                           if |all| <= 1 then None else Some(all[|all| - 1]))])
  {
    hide BindList;
    var ts, es := BindList(b, scope, sw, t), BindList(b, scope, sw, e);
    if ts.Ok? && es.Ok? && ts.value + es.value != [] {
      var all := ts.value + es.value;
      AddAllIf(id, None, all[0], None, all[1..]);
    }
  }

  /** If each part binds to at most one statement, the branches are the two parts. */
  lemma IfTranslated(b: Binders, scope: Scope, sw: Option<SwitchHead>, id: NodeId, thenS: seq<Statement>,
                     elseS: seq<Statement>, t: Bound, e: Option<Bound>, c: Expr)
    requires BindList(b, scope, sw, thenS) == Ok([t]) && b.condition(id, scope) == Ok(c)
    requires BindList(b, scope, sw, elseS) == match e case None => Ok([]) case Some(s) => Ok([s])
    ensures Bind(b, scope, sw, If(id, thenS, elseS)) == Ok([BIf(id, Some(c), Some(t), e)])
  {
    hide Bind, BindList;
    IfFinished(b, scope, sw, id, thenS, elseS);
  }

  /** A bound loop is finished with the condition and the last statement of its body. */
  lemma WhileFinished(b: Binders, scope: Scope, sw: Option<SwitchHead>, id: NodeId, body: seq<Statement>)
    ensures var r, bs, c := Bind(b, scope, sw, While(id, body)), BindList(b, scope, sw, body), b.condition(id, scope);
            if bs.Err? then r == Err(bs.error)
            else if c.Err? then r == Err(c.error)
            else r == Ok([BWhile(id, Some(c.value), if bs.value == [] then None else Some(bs.value[|bs.value| - 1]))])
  {
    hide BindList;
    var bs := BindList(b, scope, sw, body);
    if bs.Ok? {
      AddAllWhile(id, None, None, bs.value);
    }
  }

  lemma DoFinished(b: Binders, scope: Scope, sw: Option<SwitchHead>, id: NodeId, body: seq<Statement>)
    ensures var r, bs, c := Bind(b, scope, sw, Do(id, body)), BindList(b, scope, sw, body), b.condition(id, scope);
            if bs.Err? then r == Err(bs.error)
            else if c.Err? then r == Err(c.error)
            else r == Ok([BDo(id, Some(c.value), if bs.value == [] then None else Some(bs.value[|bs.value| - 1]))])
  {
    hide BindList;
    var bs := BindList(b, scope, sw, body);
    if bs.Ok? {
      AddAllDo(id, None, None, bs.value);
    }
  }

  /** A bound `for` is finished with the condition and the increment, each in its place, the first
      bound statement as its initializer and the last of the others as its action. */
  lemma ForFinished(b: Binders, scope: Scope, sw: Option<SwitchHead>, id: NodeId, init: Statement, action: seq<Statement>)
    ensures var r, inner := Bind(b, scope, sw, For(id, init, action)), b.scopeOf(id);
            var first, bs, header := Bind(b, inner, sw, init), BindList(b, inner, sw, action), b.forHeader(id, inner);
            if first.Err? then r == Err(first.error)
            else if bs.Err? then r == Err(bs.error)
            else if header.Err? then r == Err(header.error)
            else
              var all := first.value + bs.value;
              r == Ok([BFor(id, if all == [] then None else Some(all[0]), Some(header.value.0), Some(header.value.1),
                            if |all| <= 1 then None else Some(all[|all| - 1]))])
  {
    hide Bind, BindList;
    BindFor(b, scope, sw, id, init, action);
    var inner := b.scopeOf(id);
    var first, bs := Bind(b, inner, sw, init), BindList(b, inner, sw, action);
    if first.Ok? && bs.Ok? && first.value + bs.value != [] {
      var all := first.value + bs.value;
      AddAllFor(id, all[0], None, all[1..]);
    }
  }

  /** A bound case is finished with its values and all its statements, in order. */
  lemma CaseFinished(b: Binders, scope: Scope, sw: Option<SwitchHead>, id: NodeId, ss: seq<Statement>)
    ensures var r, bs, vs := Bind(b, scope, sw, Case(id, ss)), BindList(b, scope, sw, ss), b.caseValues(id, scope, sw);
            if bs.Err? then r == Err(bs.error)
            else if vs.Err? then r == Err(vs.error)
            else r == Ok([BCase(id, vs.value, bs.value)])
  {
    hide BindList;
    var bs := BindList(b, scope, sw, ss);
    if bs.Ok? {
      AddAllCase(id, [], [], bs.value);
      assert [] + bs.value == bs.value;
    }
  }

  lemma DefaultFinished(b: Binders, scope: Scope, sw: Option<SwitchHead>, id: NodeId, ss: seq<Statement>)
    ensures var r, bs, ok := Bind(b, scope, sw, Default(id, ss)), BindList(b, scope, sw, ss), b.checkDefault(id, scope);
            if bs.Err? then r == Err(bs.error)
            else if ok.Err? then r == Err(ok.error)
            else r == Ok([BDefault(id, bs.value)])
  {
    hide BindList;
    var bs := BindList(b, scope, sw, ss);
    if bs.Ok? {
      AddAllDefault(id, [], bs.value);
      assert [] + bs.value == bs.value;
    }
  }

  /** The cases of a switch bind to one case each. */
  lemma {:induction false} CasesBound(b: Binders, scope: Scope, sw: Option<SwitchHead>, cases: seq<Statement>)
    requires forall i :: 0 <= i < |cases| ==> cases[i].Case?
    ensures var r := BindList(b, scope, sw, cases);
            r.Ok? ==> |r.value| == |cases| && forall i :: 0 <= i < |cases| ==> r.value[i].BCase? && r.value[i].id == cases[i].id
    decreases cases
  {
    if cases != [] {
      CaseFinished(b, scope, sw, cases[0].id, cases[0].stmts);
      CasesBound(b, scope, sw, cases[1..]);
    }
  }

  /** What the syntax lets a switch hold. */
  predicate OfCases(cases: seq<Statement>, defaultS: seq<Statement>) {
    (forall i :: 0 <= i < |cases| ==> cases[i].Case?) && (defaultS == [] || (|defaultS| == 1 && defaultS[0].Default?))
  }

  /** A switch of cases and at most one default statement is finished with its condition, its
      bound cases in order and its bound default statement; inside, it is the current switch. */
  lemma SwitchFinished(b: Binders, scope: Scope, sw: Option<SwitchHead>, id: NodeId, cases: seq<Statement>,
                       defaultS: seq<Statement>)
    requires OfCases(cases, defaultS)
    ensures var r, c := Bind(b, scope, sw, Switch(id, cases, defaultS)), b.condition(id, scope);
            if c.Err? then r == Err(c.error)
            else
              var head := Some(SwitchHead(id, c.value));
              var cs, ds := BindList(b, scope, head, cases), BindList(b, scope, head, defaultS);
              if cs.Err? then r == Err(cs.error)
              else if ds.Err? then r == Err(ds.error)
              else |ds.value| == |defaultS| &&
                   r == Ok([BSwitch(id, Some(c.value), cs.value, if ds.value == [] then None else Some(ds.value[0]))])
  {
    BindSwitch(b, scope, sw, id, cases, defaultS);
    var c := b.condition(id, scope);
    if c.Ok? {
      var head := Some(SwitchHead(id, c.value));
      CasesBound(b, scope, head, cases);
      if defaultS != [] {
        assert defaultS == [defaultS[0]];
        BindSingle(b, scope, head, defaultS[0]);
        DefaultFinished(b, scope, head, defaultS[0].id, defaultS[0].stmts);
      }
      hide Bind, BindList;
      var cs, ds := BindList(b, scope, head, cases), BindList(b, scope, head, defaultS);
      if cs.Ok? && ds.Ok? {
        SwitchParts(id, Some(c.value), [], cs.value, ds.value);
        assert [] + cs.value == cs.value;
      }
    }
  }
}
