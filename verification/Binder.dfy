/** The binder as it runs (Cm.Bind/Binder.cpp): begin and end visits that push and pop the
    current parent, the container scope, the enclosing switch and the values of
    conditional-compilation expressions.  `Visit` is a statement's `Accept` with the binder as
    visitor; its contract says that it computes the structural translation and leaves every
    stack as it found it. */
module Binder {
  import opened Options
  import opened StatementBinding

  class Binder {
    const b: Binders
    var currentParent: Option<Bound>
    var parentStack: seq<Option<Bound>>
    var currentContainerScope: Scope
    var containerScopeStack: seq<Scope>
    var switchStatement: Option<SwitchHead>
    var switchStatementStack: seq<Option<SwitchHead>>
    var condCompilationEvaluationStack: seq<bool>
    var functionBody: Option<Bound>

    constructor (b: Binders, scope: Scope)
      ensures this.b == b && currentContainerScope == scope
      ensures currentParent == None && switchStatement == None && functionBody == None
      ensures parentStack == [] && containerScopeStack == [] && switchStatementStack == []
      ensures condCompilationEvaluationStack == []
    {
      this.b, currentContainerScope := b, scope;
      currentParent, switchStatement, functionBody := None, None, None;
      parentStack, containerScopeStack, switchStatementStack, condCompilationEvaluationStack := [], [], [], [];
    }

    method BeginContainerScope(scope: Scope)
      modifies this`currentContainerScope, this`containerScopeStack
      ensures currentContainerScope == scope
      ensures containerScopeStack == old(containerScopeStack) + [old(currentContainerScope)]
    {
      containerScopeStack := containerScopeStack + [currentContainerScope];
      currentContainerScope := scope;
    }

    method EndContainerScope()
      requires containerScopeStack != []
      modifies this`currentContainerScope, this`containerScopeStack
      ensures currentContainerScope == old(containerScopeStack)[|old(containerScopeStack)| - 1]
      ensures containerScopeStack == old(containerScopeStack)[..|old(containerScopeStack)| - 1]
    {
      currentContainerScope := containerScopeStack[|containerScopeStack| - 1];
      containerScopeStack := containerScopeStack[..|containerScopeStack| - 1];
    }

    /** Puts the current parent aside and starts a new one. */
    method PushParent(s: Bound)
      modifies this`currentParent, this`parentStack
      ensures currentParent == Some(s) && parentStack == old(parentStack) + [old(currentParent)]
    {
      parentStack := parentStack + [currentParent];
      currentParent := Some(s);
    }

    /** Hands the finished statement to the parent put aside, which becomes current again. */
    method PopParent(s: Bound) returns (r: Result<()>)
      requires parentStack != []
      modifies this`currentParent, this`parentStack
      ensures parentStack == old(parentStack)[..|old(parentStack)| - 1]
      ensures var parent := old(parentStack)[|old(parentStack)| - 1];
              if parent.Some? then r == Ok(()) && currentParent == Some(AddStatement(parent.value, s))
              else r == Err("no parent") && currentParent == None
    {
      var parent := parentStack[|parentStack| - 1];
      parentStack := parentStack[..|parentStack| - 1];
      if parent.Some? {
        currentParent := Some(AddStatement(parent.value, s));
        r := Ok(());
      } else {
        currentParent := None;
        r := Err("no parent");
      }
    }

    method AddBound(ss: seq<Bound>)
      requires currentParent.Some?
      modifies this`currentParent
      ensures currentParent == Some(AddAll(old(currentParent).value, ss))
    {
      for i := 0 to |ss|
        invariant currentParent.Some?
        invariant AddAll(currentParent.value, ss[i..]) == AddAll(old(currentParent).value, ss)
      {
        assert ss[i..][1..] == ss[i + 1..];
        currentParent := Some(AddStatement(currentParent.value, ss[i]));
      }
    }

    // ---------------------------------------------------------------- conditional compilation

    method PushCondCompValue(value: bool)
      modifies this`condCompilationEvaluationStack
      ensures condCompilationEvaluationStack == old(condCompilationEvaluationStack) + [value]
    {
      condCompilationEvaluationStack := condCompilationEvaluationStack + [value];
    }

    method PopCondCompValue() returns (value: bool)
      requires condCompilationEvaluationStack != []
      modifies this`condCompilationEvaluationStack
      ensures value == old(condCompilationEvaluationStack)[|old(condCompilationEvaluationStack)| - 1]
      ensures condCompilationEvaluationStack ==
              old(condCompilationEvaluationStack)[..|old(condCompilationEvaluationStack)| - 1]
    {
      value := condCompilationEvaluationStack[|condCompilationEvaluationStack| - 1];
      condCompilationEvaluationStack := condCompilationEvaluationStack[..|condCompilationEvaluationStack| - 1];
    }

    /** Pushes the value of the expression, and nothing is popped from an empty stack. */
    method VisitCondition(e: Condition)
      modifies this`condCompilationEvaluationStack
      ensures condCompilationEvaluationStack == old(condCompilationEvaluationStack) + [Holds(e, b.defined)]
      decreases e
    {
      match e {
        case Or(l, r) =>
          VisitCondition(l);
          VisitCondition(r);
          var right := PopCondCompValue();
          var left := PopCondCompValue();
          PushCondCompValue(left || right);
        case And(l, r) =>
          VisitCondition(l);
          VisitCondition(r);
          var right := PopCondCompValue();
          var left := PopCondCompValue();
          PushCondCompValue(left && right);
        case Not(s) =>
          VisitCondition(s);
          var value := PopCondCompValue();
          PushCondCompValue(!value);
        case Symbol(name) =>
          PushCondCompValue(name in b.defined);
      }
    }

    /** Evaluates the parts in turn until one is true; the stack is empty again after each. */
    method ChoosePart(ifPart: Part, elifParts: seq<Part>, elsePart: Option<Part>) returns (r: Result<seq<Statement>>)
      requires condCompilationEvaluationStack == []
      modifies this`condCompilationEvaluationStack
      ensures condCompilationEvaluationStack == []
      ensures r == Select(ifPart, elifParts, elsePart, b.defined)
    {
      var part := ifPart;
      if part.expr.None? {
        return Err("part expression is empty");
      }
      VisitCondition(part.expr.value);
      var execute := PopCondCompValue();
      var i := 0;
      while !execute && i < |elifParts|
        invariant 0 <= i <= |elifParts| && condCompilationEvaluationStack == []
        invariant part.expr.Some? && execute == Holds(part.expr.value, b.defined)
        invariant Select(ifPart, elifParts, elsePart, b.defined) == Select(part, elifParts[i..], elsePart, b.defined)
        decreases |elifParts| - i
      {
        assert elifParts[i..][0] == elifParts[i] && elifParts[i..][1..] == elifParts[i + 1..];
        part := elifParts[i];
        i := i + 1;
        if part.expr.None? {
          return Err("part expression is empty");
        }
        VisitCondition(part.expr.value);
        execute := PopCondCompValue();
      }
      if execute {
        r := Ok(part.stmts);
      } else if elsePart.Some? {
        r := Ok(elsePart.value.stmts);
      } else {
        r := Ok([]);
      }
    }

    // ---------------------------------------------------------------- statements

    /** The stacks between visits: all as they were, the evaluation stack empty. */
    twostate predicate Balanced()
      reads this
    {
      && parentStack == old(parentStack)
      && currentContainerScope == old(currentContainerScope) && containerScopeStack == old(containerScopeStack)
      && switchStatement == old(switchStatement) && switchStatementStack == old(switchStatementStack)
      && condCompilationEvaluationStack == []
      && functionBody == old(functionBody)
    }

    /** The binder has visited `s`: it failed as the translation does, or it has appended the
        translation to the current parent and restored everything else. */
    twostate predicate Visited(s: Statement, new r: Result<()>)
      requires old(currentParent).Some?
      reads this
    {
      Appended(Bind(b, old(currentContainerScope), old(switchStatement), s), r)
    }

    twostate predicate Appended(new bs: Result<seq<Bound>>, new r: Result<()>)
      requires old(currentParent).Some?
      reads this
    {
      if bs.Err? then r == Err(bs.error)
      else r == Ok(()) && Balanced() && currentParent == Some(AddAll(old(currentParent).value, bs.value))
    }

    method Visit(s: Statement) returns (r: Result<()>)
      requires currentParent.Some? && condCompilationEvaluationStack == []
      modifies this
      ensures Visited(s, r)
      ensures s.Leaf? ==> Appended(b.leaf(s.id, old(currentContainerScope)), r)
      ensures s.GotoCase? ==> Appended(b.gotoCase(s.id, old(currentContainerScope), old(switchStatement)), r)
      ensures s.CondComp? ==>
                var chosen := Select(s.ifPart, s.elifParts, s.elsePart, b.defined);
                if chosen.Err? then r == Err(chosen.error)
                else Appended(BindList(b, old(currentContainerScope), old(switchStatement), chosen.value), r)
      decreases s, 1
    {
      match s {
        case Leaf(id) =>
          var result := b.leaf(id, currentContainerScope);
          if result.Err? { return Err(result.error); }
          AddBound(result.value);
          r := Ok(());
        case GotoCase(id) =>
          var result := b.gotoCase(id, currentContainerScope, switchStatement);
          if result.Err? { return Err(result.error); }
          AddBound(result.value);
          r := Ok(());
        case Compound(id, ss) => r := VisitCompound(id, ss);
        case If(id, thenS, elseS) => r := VisitIf(id, thenS, elseS);
        case While(id, body) => r := VisitWhile(id, body);
        case Do(id, body) => r := VisitDo(id, body);
        case For(id, init, action) => r := VisitFor(id, init, action);
        case Switch(id, cases, defaultS) => r := VisitSwitch(id, cases, defaultS);
        case Case(id, ss) => r := VisitCase(id, ss);
        case Default(id, ss) => r := VisitDefault(id, ss);
        case CondComp(ifPart, elifParts, elsePart) =>
          var chosen := ChoosePart(ifPart, elifParts, elsePart);
          if chosen.Err? { return Err(chosen.error); }
          SelectInside(ifPart, elifParts, elsePart, b.defined);
          if chosen.value == [] { return Ok(()); }
          r := VisitList(chosen.value);
      }
    }

    method VisitCompound(id: NodeId, ss: seq<Statement>) returns (r: Result<()>)
      requires currentParent.Some? && condCompilationEvaluationStack == []
      modifies this
      ensures Visited(Compound(id, ss), r)
      ensures var scope, sw := old(currentContainerScope), old(switchStatement);
              var bs := BindList(b, b.scopeOf(id), sw, ss);
              if bs.Err? then r == Err(bs.error) else Appended(Ok([BCompound(id, bs.value)]), r)
      decreases Compound(id, ss), 0
    {
      CompoundBindsAll(b, currentContainerScope, switchStatement, id, ss);
      BeginContainerScope(b.scopeOf(id));
      PushParent(BCompound(id, []));
      r := VisitList(ss);
      if r.Err? { return; }
      r := PopParent(currentParent.value);
      EndContainerScope();
    }

    method VisitIf(id: NodeId, thenS: seq<Statement>, elseS: seq<Statement>) returns (r: Result<()>)
      requires currentParent.Some? && condCompilationEvaluationStack == []
      modifies this
      ensures Visited(If(id, thenS, elseS), r)
      ensures var scope, sw := old(currentContainerScope), old(switchStatement);
              var ts, es, c := BindList(b, scope, sw, thenS), BindList(b, scope, sw, elseS), b.condition(id, scope);
              if ts.Err? then r == Err(ts.error)
              else if es.Err? then r == Err(es.error)
              else if c.Err? then r == Err(c.error)
              else
                var all := ts.value + es.value;
                Appended(Ok([BIf(id, Some(c.value), if all == [] then None else Some(all[0]),
                                 if |all| <= 1 then None else Some(all[|all| - 1]))]), r)
      decreases If(id, thenS, elseS), 0
    {
      IfFinished(b, currentContainerScope, switchStatement, id, thenS, elseS);
      PushParent(BIf(id, None, None, None));
      r := VisitList(thenS);
      if r.Err? { return; }
      ghost var ts := BindList(b, currentContainerScope, switchStatement, thenS);
      ghost var es := BindList(b, currentContainerScope, switchStatement, elseS);
      r := VisitList(elseS);
      if r.Err? { return; }
      AddAllAppend(BIf(id, None, None, None), ts.value, es.value);
      r := FinishConditional(id);
    }

    method VisitWhile(id: NodeId, body: seq<Statement>) returns (r: Result<()>)
      requires currentParent.Some? && condCompilationEvaluationStack == []
      modifies this
      ensures Visited(While(id, body), r)
      ensures var scope, sw := old(currentContainerScope), old(switchStatement);
              var bs, c := BindList(b, scope, sw, body), b.condition(id, scope);
              if bs.Err? then r == Err(bs.error)
              else if c.Err? then r == Err(c.error)
              else Appended(Ok([BWhile(id, Some(c.value),
                                    if bs.value == [] then None else Some(bs.value[|bs.value| - 1]))]), r)
      decreases While(id, body), 0
    {
      WhileFinished(b, currentContainerScope, switchStatement, id, body);
      PushParent(BWhile(id, None, None));
      r := VisitList(body);
      if r.Err? { return; }
      r := FinishConditional(id);
    }

    method VisitDo(id: NodeId, body: seq<Statement>) returns (r: Result<()>)
      requires currentParent.Some? && condCompilationEvaluationStack == []
      modifies this
      ensures Visited(Do(id, body), r)
      ensures var scope, sw := old(currentContainerScope), old(switchStatement);
              var bs, c := BindList(b, scope, sw, body), b.condition(id, scope);
              if bs.Err? then r == Err(bs.error)
              else if c.Err? then r == Err(c.error)
              else Appended(Ok([BDo(id, Some(c.value),
                                    if bs.value == [] then None else Some(bs.value[|bs.value| - 1]))]), r)
      decreases Do(id, body), 0
    {
      DoFinished(b, currentContainerScope, switchStatement, id, body);
      PushParent(BDo(id, None, None));
      r := VisitList(body);
      if r.Err? { return; }
      r := FinishConditional(id);
    }

    method VisitFor(id: NodeId, init: Statement, action: seq<Statement>) returns (r: Result<()>)
      requires currentParent.Some? && condCompilationEvaluationStack == []
      modifies this
      ensures Visited(For(id, init, action), r)
      ensures var scope, sw := old(currentContainerScope), old(switchStatement);
              var inner := b.scopeOf(id);
              var first, bs, header := Bind(b, inner, sw, init), BindList(b, inner, sw, action), b.forHeader(id, inner);
              if first.Err? then r == Err(first.error)
              else if bs.Err? then r == Err(bs.error)
              else if header.Err? then r == Err(header.error)
              else
                var all := first.value + bs.value;
                Appended(Ok([BFor(id, if all == [] then None else Some(all[0]), Some(header.value.0), Some(header.value.1),
                                  if |all| <= 1 then None else Some(all[|all| - 1]))]), r)
      decreases For(id, init, action), 0
    {
      hide Bind, BindList, AddAll, AddStatement, SetCondition, SetIncrement;
      ForFinished(b, currentContainerScope, switchStatement, id, init, action);
      BindFor(b, currentContainerScope, switchStatement, id, init, action);
      PushParent(BFor(id, None, None, None, None));
      BeginContainerScope(b.scopeOf(id));
      ghost var first := Bind(b, currentContainerScope, switchStatement, init);
      ghost var bs := BindList(b, currentContainerScope, switchStatement, action);
      r := Visit(init);
      if r.Err? { return; }
      r := VisitList(action);
      if r.Err? { return; }
      AddAllAppend(BFor(id, None, None, None, None), first.value, bs.value);
      var header := b.forHeader(id, currentContainerScope);
      if header.Err? { return Err(header.error); }
      AddOne(old(currentParent).value,
             SetCondition(SetIncrement(currentParent.value, header.value.1), header.value.0));
      r := PopParent(SetCondition(SetIncrement(currentParent.value, header.value.1), header.value.0));
      EndContainerScope();
    }

    method VisitSwitch(id: NodeId, cases: seq<Statement>, defaultS: seq<Statement>) returns (r: Result<()>)
      requires currentParent.Some? && condCompilationEvaluationStack == []
      modifies this
      ensures Visited(Switch(id, cases, defaultS), r)
      ensures var scope, sw := old(currentContainerScope), old(switchStatement);
              var c := b.condition(id, scope);
              if c.Err? then r == Err(c.error)
              else
                var head := Some(SwitchHead(id, c.value));
                var cs, ds := BindList(b, scope, head, cases), BindList(b, scope, head, defaultS);
                if cs.Err? then r == Err(cs.error)
                else if ds.Err? then r == Err(ds.error)
                else OfCases(cases, defaultS) ==>
                  Appended(Ok([BSwitch(id, Some(c.value), cs.value, if ds.value == [] then None else Some(ds.value[0]))]), r)
      decreases Switch(id, cases, defaultS), 0
    {
      hide Bind, BindList, AddAll, AddStatement;
      if OfCases(cases, defaultS) {
        SwitchFinished(b, currentContainerScope, switchStatement, id, cases, defaultS);
      }
      BindSwitch(b, currentContainerScope, switchStatement, id, cases, defaultS);
      parentStack := parentStack + [currentParent];
      switchStatementStack := switchStatementStack + [switchStatement];
      var cond := b.condition(id, currentContainerScope);
      if cond.Err? { return Err(cond.error); }
      switchStatement := Some(SwitchHead(id, cond.value));
      currentParent := Some(BSwitch(id, Some(cond.value), [], None));
      ghost var cs := BindList(b, currentContainerScope, switchStatement, cases);
      ghost var ds := BindList(b, currentContainerScope, switchStatement, defaultS);
      r := VisitList(cases);
      if r.Err? { return; }
      r := VisitList(defaultS);
      if r.Err? { return; }
      AddAllAppend(BSwitch(id, Some(cond.value), [], None), cs.value, ds.value);
      AddOne(old(currentParent).value, currentParent.value);
      r := PopParent(currentParent.value);
      switchStatement := switchStatementStack[|switchStatementStack| - 1];
      switchStatementStack := switchStatementStack[..|switchStatementStack| - 1];
    }

    method VisitCase(id: NodeId, ss: seq<Statement>) returns (r: Result<()>)
      requires currentParent.Some? && condCompilationEvaluationStack == []
      modifies this
      ensures Visited(Case(id, ss), r)
      ensures var scope, sw := old(currentContainerScope), old(switchStatement);
              var bs, vs := BindList(b, scope, sw, ss), b.caseValues(id, scope, sw);
              if bs.Err? then r == Err(bs.error)
              else if vs.Err? then r == Err(vs.error)
              else Appended(Ok([BCase(id, vs.value, bs.value)]), r)
      decreases Case(id, ss), 0
    {
      CaseFinished(b, currentContainerScope, switchStatement, id, ss);
      PushParent(BCase(id, [], []));
      r := VisitList(ss);
      if r.Err? { return; }
      var values := b.caseValues(id, currentContainerScope, switchStatement);
      if values.Err? { return Err(values.error); }
      r := PopParent(SetValues(currentParent.value, values.value));
    }

    method VisitDefault(id: NodeId, ss: seq<Statement>) returns (r: Result<()>)
      requires currentParent.Some? && condCompilationEvaluationStack == []
      modifies this
      ensures Visited(Default(id, ss), r)
      ensures var scope, sw := old(currentContainerScope), old(switchStatement);
              var bs, ok := BindList(b, scope, sw, ss), b.checkDefault(id, scope);
              if bs.Err? then r == Err(bs.error)
              else if ok.Err? then r == Err(ok.error)
              else Appended(Ok([BDefault(id, bs.value)]), r)
      decreases Default(id, ss), 0
    {
      DefaultFinished(b, currentContainerScope, switchStatement, id, ss);
      PushParent(BDefault(id, []));
      r := VisitList(ss);
      if r.Err? { return; }
      var ok := b.checkDefault(id, currentContainerScope);
      if ok.Err? { return Err(ok.error); }
      r := PopParent(currentParent.value);
    }

    /** The end visit shared by if, while and do. */
    method FinishConditional(id: NodeId) returns (r: Result<()>)
      requires currentParent.Some? && parentStack != []
      modifies this`currentParent, this`parentStack
      ensures var c := b.condition(id, currentContainerScope);
              var parent := old(parentStack)[|old(parentStack)| - 1];
              if c.Err? then r == Err(c.error)
              else parent.Some? ==>
                r == Ok(()) && parentStack == old(parentStack)[..|old(parentStack)| - 1] &&
                currentParent == Some(AddStatement(parent.value, SetCondition(old(currentParent).value, c.value)))
    {
      var c := b.condition(id, currentContainerScope);
      if c.Err? { return Err(c.error); }
      r := PopParent(SetCondition(currentParent.value, c.value));
    }

    method VisitList(ss: seq<Statement>) returns (r: Result<()>)
      requires currentParent.Some? && condCompilationEvaluationStack == []
      modifies this
      ensures Appended(BindList(b, old(currentContainerScope), old(switchStatement), ss), r)
      decreases ss
    {
      if ss == [] {
        return Ok(());
      }
      ghost var first := Bind(b, currentContainerScope, switchStatement, ss[0]);
      ghost var more := BindList(b, currentContainerScope, switchStatement, ss[1..]);
      ghost var parent := currentParent.value;
      r := Visit(ss[0]);
      if r.Ok? {
        r := VisitList(ss[1..]);
        if r.Ok? {
          AddAllAppend(parent, first.value, more.value);
        }
      }
    }

    /** Visiting the outermost block of a function makes the whole translation its body. */
    method VisitFunctionBlock(id: NodeId, ss: seq<Statement>) returns (r: Result<()>)
      requires currentParent == None && condCompilationEvaluationStack == []
      modifies this
      ensures var bs := BindList(b, b.scopeOf(id), old(switchStatement), ss);
              if bs.Err? then r == Err(bs.error)
              else && r == Ok(()) && currentParent == None
                   && functionBody == Some(BCompound(id, bs.value))
                   && parentStack == old(parentStack)
                   && currentContainerScope == old(currentContainerScope) && containerScopeStack == old(containerScopeStack)
                   && switchStatement == old(switchStatement) && switchStatementStack == old(switchStatementStack)
                   && condCompilationEvaluationStack == []
    {
      BeginContainerScope(b.scopeOf(id));
      PushParent(BCompound(id, []));
      ghost var bs := BindList(b, b.scopeOf(id), switchStatement, ss);
      r := VisitList(ss);
      if r.Err? { return; }
      AddAllCompound(id, [], bs.value);
      assert [] + bs.value == bs.value;
      var body := currentParent;
      currentParent := parentStack[|parentStack| - 1];
      parentStack := parentStack[..|parentStack| - 1];
      functionBody := body;
      EndContainerScope();
    }
  }
}
