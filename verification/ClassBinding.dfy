/** Binding class symbols (`BindClass`, Cm.Bind/Class.cpp, and `SetAccess`, Cm.Bind/Access.cpp).

    Binding a class first binds the base classes that have a source node, so it recurses
    through the hierarchy; each class symbol is updated in place, field by field, while that
    happens.  The types that the base type expressions denote are given. */
module ClassBinding {
  import opened Graphs
  import opened Options

  type Name = string

  datatype Specifier =
    | Public | Protected | Private | Internal | Static | Virtual | Override | Abstract | Explicit | External
    | Suppress | Default | Inline | Constexpr | Cdecl | Nothrow | Throw | New | UnitTest

  datatype Access = PrivateAccess | ProtectedAccess | InternalAccess | PublicAccess {
    function Level(): nat {
      match this
      case PrivateAccess => 0
      case ProtectedAccess => 1
      case InternalAccess => 2
      case PublicAccess => 3
    }
  }

  /** What a base type expression denotes. */
  datatype BaseTerm = ClassTerm(name: Name) | InterfaceTerm(name: Name) | OtherType | NoType

  datatype ClassNode = ClassNode(specifiers: set<Specifier>, isClassMember: bool, isTemplate: bool,
                                 bases: seq<BaseTerm>)

  datatype ClassTypeSymbol = ClassTypeSymbol(
    access: Access, isStatic: bool, isAbstract: bool, base: Option<Name>, baseClassSet: bool,
    interfaces: seq<Name>, interfacesSet: bool, bound: bool)

  type Nodes = map<Name, ClassNode>
  type Symbols = map<Name, ClassTypeSymbol>

  datatype BindError =
    | InvalidAccess
    | CannotBe(specifier: Specifier)
    | MoreThanOneBase
    | LessAccessibleBase(base: Name)
    | AlreadyImplements(interface: Name)
    | NotClassOrInterface
    | NotAType

  // ---------------------------------------------------------------- one class

  const FORBIDDEN := {Virtual, Override, Explicit, External, Suppress, Default, Inline, Constexpr, Cdecl,
                      Nothrow, Throw, New}

  const ACCESS := {Public, Protected, Private, Internal}

  function DeclaredAccess(node: ClassNode): Option<Access> {
    var specifiers := node.specifiers * ACCESS;
    if specifiers == {Public} then Some(PublicAccess)
    else if specifiers == {Protected} then (if node.isClassMember then Some(ProtectedAccess) else None)
    else if specifiers == {Internal} then Some(InternalAccess)
    else if specifiers == {Private} then (if node.isClassMember then Some(PrivateAccess) else None)
    else if specifiers == {} then Some(if node.isClassMember then PrivateAccess else InternalAccess)
    else None
  }

  /** The access that is declared: at most one specifier may say it, and only members of classes
      can be protected or private; without one, members are private and others internal. */
  lemma AccessTable(node: ClassNode)
    ensures DeclaredAccess(node).None? <==>
              (exists s, s' :: s in ACCESS && s' in ACCESS && s != s' && s in node.specifiers && s' in node.specifiers) ||
              (!node.isClassMember && (Protected in node.specifiers || Private in node.specifiers))
    ensures match DeclaredAccess(node)
            case Some(PublicAccess) => Public in node.specifiers
            case Some(ProtectedAccess) => Protected in node.specifiers
            case Some(InternalAccess) => Internal in node.specifiers || (!node.isClassMember && node.specifiers !! ACCESS)
            case Some(PrivateAccess) => Private in node.specifiers || (node.isClassMember && node.specifiers !! ACCESS)
            case None => true
  {
    var given := node.specifiers * ACCESS;
    OnlySpecifier(node, Public);
    OnlySpecifier(node, Protected);
    OnlySpecifier(node, Private);
    OnlySpecifier(node, Internal);
    assert forall x :: x in ACCESS ==> x == Public || x == Protected || x == Private || x == Internal;
    hide ACCESS;
    if s :| s in given {
      if given != {s} {
        var s' :| s' in given && s' != s;
        assert s in ACCESS && s' in ACCESS && s in node.specifiers && s' in node.specifiers;
      }
    }
  }

  lemma OnlySpecifier(node: ClassNode, s: Specifier)
    requires s in ACCESS
    ensures node.specifiers * ACCESS == {s} <==>
              s in node.specifiers && forall s' :: s' in ACCESS && s' in node.specifiers ==> s' == s
  {
    hide ACCESS;
    if node.specifiers * ACCESS == {s} {
      assert s in node.specifiers * ACCESS;
      forall s' | s' in ACCESS && s' in node.specifiers ensures s' == s {
        assert s' in node.specifiers * ACCESS;
      }
    }
  }

  /** The last class among the base terms; a class that names itself is passed over. */
  function LastBase(c: Name, bases: seq<BaseTerm>, start: Option<Name>): Option<Name> {
    if bases == [] then start
    else
      var last := bases[|bases| - 1];
      if last.ClassTerm? && last.name != c then Some(last.name)
      else LastBase(c, bases[..|bases| - 1], start)
  }

  function InterfaceNames(bases: seq<BaseTerm>): seq<Name> {
    if bases == [] then []
    else
      var last := bases[|bases| - 1];
      InterfaceNames(bases[..|bases| - 1]) + if last.InterfaceTerm? then [last.name] else []
  }

  /** The symbol of `c` after the specifiers have been handled. */
  function Specified(node: ClassNode, s: ClassTypeSymbol): ClassTypeSymbol
    requires DeclaredAccess(node).Some?
  {
    s.(access := DeclaredAccess(node).value,
       isStatic := s.isStatic || Static in node.specifiers,
       isAbstract := s.isAbstract || Abstract in node.specifiers)
  }

  /** ... and after the first `n` base terms. */
  function Based(c: Name, node: ClassNode, s: ClassTypeSymbol, n: nat): ClassTypeSymbol
    requires DeclaredAccess(node).Some? && n <= |node.bases|
  {
    Specified(node, s).(
      base := LastBase(c, node.bases[..n], s.base),
      interfaces := s.interfaces + if s.interfacesSet then [] else InterfaceNames(node.bases[..n]))
  }

  /** ... and when it is bound. */
  function BoundSymbol(c: Name, node: ClassNode, s: ClassTypeSymbol): ClassTypeSymbol
    requires DeclaredAccess(node).Some?
  {
    if node.isTemplate then Specified(node, s).(bound := true)
    else Based(c, node, s, |node.bases|).(baseClassSet := true, interfacesSet := true, bound := true)
  }

  // ---------------------------------------------------------------- the hierarchy

  ghost predicate WellFormed(nodes: Nodes, symbols: Symbols) {
    && nodes.Keys <= symbols.Keys
    && forall c, b :: c in nodes && ClassTerm(b) in nodes[c].bases ==> b in symbols
  }

  /** The class has a source node and is not bound. */
  predicate Unbound(nodes: Nodes, symbols: Symbols, c: Name) {
    c in nodes && c in symbols && !symbols[c].bound
  }

  ghost predicate Derives(nodes: Nodes, c: Name, b: Name) {
    c in nodes && b in nodes && !nodes[c].isTemplate && c != b && ClassTerm(b) in nodes[c].bases
  }

  ghost predicate BindsNext(nodes: Nodes, symbols: Symbols, c: Name, b: Name) {
    Derives(nodes, c, b) && Unbound(nodes, symbols, c) && Unbound(nodes, symbols, b)
  }

  ghost function ToBind(nodes: Nodes, symbols: Symbols): (Name, Name) -> bool {
    (c, b) => BindsNext(nodes, symbols, c, b)
  }

  /** No chain of unbound classes leads from `c` into a cycle. */
  ghost predicate Acyclic(nodes: Nodes, symbols: Symbols, c: Name) {
    forall n :: Reachable(ToBind(nodes, symbols), c, n) ==> !OnCycle(ToBind(nodes, symbols), n)
  }

  /** The unbound classes strictly above `c`, the measure of the recursion. */
  ghost function Above(nodes: Nodes, symbols: Symbols, c: Name): set<Name> {
    set n | n in nodes && ReachableBeyond(ToBind(nodes, symbols), c, n)
  }

  /** The classes that binding `c` has to bind: `c` and the unbound classes above it. */
  ghost function Todo(nodes: Nodes, symbols: Symbols, c: Name): set<Name> {
    set n | n in nodes && Unbound(nodes, symbols, c) && Reachable(ToBind(nodes, symbols), c, n)
  }

  /** The access that the class has once it is bound. */
  function FinalAccess(nodes: Nodes, symbols: Symbols, c: Name): Option<Access> {
    if Unbound(nodes, symbols, c) then DeclaredAccess(nodes[c])
    else if c in symbols then Some(symbols[c].access)
    else None
  }

  /** What is wrong with base term `i` of class `c`. */
  ghost predicate TermFault(nodes: Nodes, symbols: Symbols, c: Name, i: nat, e: BindError)
    requires c in nodes && c in symbols && i < |nodes[c].bases|
  {
    var bases, s := nodes[c].bases, symbols[c];
    match bases[i]
    case ClassTerm(b) => b != c && (
      || (e == MoreThanOneBase && !s.baseClassSet && LastBase(c, bases[..i], s.base).Some?)
      || (e == LessAccessibleBase(b) && LessAccessible(FinalAccess(nodes, symbols, b), DeclaredAccess(nodes[c]))))
    case InterfaceTerm(m) =>
      e == AlreadyImplements(m) && !s.interfacesSet && m in s.interfaces + InterfaceNames(bases[..i])
    case OtherType => e == NotClassOrInterface
    case NoType => e == NotAType
  }

  predicate LessAccessible(a: Option<Access>, b: Option<Access>) {
    a.Some? && b.Some? && a.value.Level() < b.value.Level()
  }

  ghost predicate SpecifierFault(node: ClassNode, e: BindError) {
    || (e == InvalidAccess && DeclaredAccess(node).None?)
    || (e.CannotBe? && e.specifier in node.specifiers && e.specifier in FORBIDDEN)
  }

  /** What is wrong with the declaration of `c`. */
  ghost predicate Fault(nodes: Nodes, symbols: Symbols, c: Name, e: BindError) {
    && c in nodes && c in symbols
    && (|| SpecifierFault(nodes[c], e)
        || (!nodes[c].isTemplate && exists i :: 0 <= i < |nodes[c].bases| && TermFault(nodes, symbols, c, i, e)))
  }

  ghost predicate Acceptable(nodes: Nodes, symbols: Symbols, c: Name) {
    forall e :: !Fault(nodes, symbols, c, e)
  }

  ghost predicate AllAcceptable(nodes: Nodes, symbols: Symbols, todo: set<Name>) {
    forall c :: c in todo ==> c in nodes && c in symbols && DeclaredAccess(nodes[c]).Some? && Acceptable(nodes, symbols, c)
  }

  /** All symbols after the classes `done` have been bound. */
  ghost function Bind(nodes: Nodes, symbols: Symbols, done: set<Name>): Symbols
    requires AllAcceptable(nodes, symbols, done)
  {
    map n | n in symbols :: if n in done then BoundSymbol(n, nodes[n], symbols[n]) else symbols[n]
  }

  /** Class `n` has been bound, and names class `b` as a base. */
  predicate BoundOver(nodes: Nodes, before: Symbols, after: Symbols, n: Name, b: Name) {
    && n in nodes && n in before && n in after && !before[n].bound && after[n].bound
    && !nodes[n].isTemplate && ClassTerm(b) in nodes[n].bases && b != n
  }

  // ---------------------------------------------------------------- progress of one call

  /** A call for `c` that has handled the first `n` base terms, and has bound `done`. */
  ghost predicate Binding(nodes: Nodes, start: Symbols, c: Name, n: nat, done: set<Name>, now: Symbols) {
    && Unbound(nodes, start, c) && DeclaredAccess(nodes[c]).Some? && n <= |nodes[c].bases|
    && AllAcceptable(nodes, start, done) && c !in done
    && (forall a :: a in done ==> Unbound(nodes, start, a) && Reachable(ToBind(nodes, start), c, a))
    && (forall a, b :: a in done && BindsNext(nodes, start, a, b) ==> b in done)
    && (forall i :: 0 <= i < n ==> TermDone(nodes, start, c, nodes[c].bases[i], done))
    && (forall i, e :: 0 <= i < n ==> !TermFault(nodes, start, c, i, e))
    && now == Bind(nodes, start, done)[c := Based(c, nodes[c], start[c], n)]
  }

  ghost predicate TermDone(nodes: Nodes, start: Symbols, c: Name, t: BaseTerm, done: set<Name>) {
    t.ClassTerm? && t.name != c && Unbound(nodes, start, t.name) ==> t.name in done
  }

  lemma AboveDecreases(nodes: Nodes, symbols: Symbols, c: Name, b: Name)
    requires BindsNext(nodes, symbols, c, b) && Acyclic(nodes, symbols, c)
    ensures Above(nodes, symbols, b) < Above(nodes, symbols, c) && Acyclic(nodes, symbols, b)
    ensures c !in Above(nodes, symbols, b)
  {
    var d := ToBind(nodes, symbols);
    assert d(c, b);
    forall n | Reachable(d, b, n) ensures Reachable(d, c, n) && ReachableBeyond(d, c, n) {
      ReachablePrepend(d, c, b, n);
    }
    ReachableSelf(d, b);
    ReachableSelf(d, c);
    forall n | ReachableBeyond(d, b, n) ensures Reachable(d, b, n) {
      var walk :| WalkFromTo(d, walk, b, n) && |walk| > 1;
    }
    assert b in Above(nodes, symbols, c) && b !in Above(nodes, symbols, b);
    assert !OnCycle(d, c);
  }

  /** Binding goes on with fewer classes to bind, or with a class that is bound. */
  lemma NextCall(nodes: Nodes, start: Symbols, c: Name, i: nat, done: set<Name>, now: Symbols, b: Name)
    requires Binding(nodes, start, c, i, done, now) && Acyclic(nodes, start, c) && Derives(nodes, c, b)
    ensures Acyclic(nodes, now, b)
    ensures if Unbound(nodes, now, b) then Above(nodes, now, b) < Above(nodes, start, c)
            else Above(nodes, now, b) <= Above(nodes, start, c)
  {
    hide Binding, Derives;
    StillToBind(nodes, start, c, i, done, now);
    UnboundSelf(nodes, start, c, i, done, now);
    if Unbound(nodes, now, b) {
      assert BindsNext(nodes, start, c, b);
      AboveDecreases(nodes, start, c, b);
      forall x, y | ToBind(nodes, now)(x, y) ensures ToBind(nodes, start)(x, y) {
        assert BindsNext(nodes, now, x, y);
      }
      FewerEdges(nodes, start, now, b);
    } else {
      BoundIsAcyclic(nodes, now, b);
    }
  }

  lemma FewerEdges(nodes: Nodes, start: Symbols, now: Symbols, b: Name)
    requires Acyclic(nodes, start, b) && forall x, y :: ToBind(nodes, now)(x, y) ==> ToBind(nodes, start)(x, y)
    ensures Acyclic(nodes, now, b) && Above(nodes, now, b) <= Above(nodes, start, b)
  {
    var less, more := ToBind(nodes, now), ToBind(nodes, start);
    forall x, y | ReachableBeyond(less, x, y) ensures ReachableBeyond(more, x, y) {
      var walk :| WalkFromTo(less, walk, x, y) && |walk| > 1;
      WalkMonotone(less, more, walk);
      assert WalkFromTo(more, walk, x, y);
    }
    forall n | Reachable(less, b, n) ensures !OnCycle(less, n) {
      ReachableWider(less, more, b, n);
    }
  }

  lemma FirstEdge(edge: (Name, Name) -> bool, a: Name, b: Name)
    requires ReachableBeyond(edge, a, b)
    ensures exists n :: edge(a, n)
  {
    var walk :| WalkFromTo(edge, walk, a, b) && |walk| > 1;
    assert edge(walk[0], walk[1]);
  }

  lemma BoundIsAcyclic(nodes: Nodes, symbols: Symbols, b: Name)
    requires !Unbound(nodes, symbols, b)
    ensures Acyclic(nodes, symbols, b) && Above(nodes, symbols, b) == {}
  {
    var d := ToBind(nodes, symbols);
    forall n ensures !ReachableBeyond(d, b, n) {
      if ReachableBeyond(d, b, n) {
        FirstEdge(d, b, n);
      }
    }
    forall n | Reachable(d, b, n) ensures !OnCycle(d, n) {
      var walk :| WalkFromTo(d, walk, b, n);
      assert |walk| > 1 ==> ReachableBeyond(d, b, n);
    }
  }

  /** What is unbound, how accessible a class is and what is wrong with it does not change
      for the classes that are still to be bound. */
  lemma StillToBind(nodes: Nodes, start: Symbols, c: Name, i: nat, done: set<Name>, now: Symbols)
    requires Binding(nodes, start, c, i, done, now)
    ensures forall n :: Unbound(nodes, now, n) <==> Unbound(nodes, start, n) && n !in done
    ensures forall n :: FinalAccess(nodes, now, n) == FinalAccess(nodes, start, n)
    ensures forall a, b :: BindsNext(nodes, now, a, b) ==> BindsNext(nodes, start, a, b)
    ensures now.Keys == start.Keys
  {
    hide Fault, Acceptable, InterfaceNames, LastBase, TermFault;
  }

  lemma SameFaults(nodes: Nodes, start: Symbols, c: Name, i: nat, done: set<Name>, now: Symbols, n: Name, e: BindError)
    requires Binding(nodes, start, c, i, done, now)
    requires Unbound(nodes, now, n) && n != c
    ensures Fault(nodes, now, n, e) <==> Fault(nodes, start, n, e)
  {
    StillToBind(nodes, start, c, i, done, now);
    assert now[n] == start[n] by {
      hide Fault, Acceptable, InterfaceNames, LastBase, TermFault;
    }
    forall k | 0 <= k < |nodes[n].bases|
      ensures TermFault(nodes, now, n, k, e) <==> TermFault(nodes, start, n, k, e) {
      SameTermFaults(nodes, start, now, n, k, e);
    }
  }

  lemma SameTermFaults(nodes: Nodes, start: Symbols, now: Symbols, n: Name, k: nat, e: BindError)
    requires n in nodes && n in start && n in now && start[n] == now[n] && k < |nodes[n].bases|
    requires forall b :: FinalAccess(nodes, now, b) == FinalAccess(nodes, start, b)
    ensures TermFault(nodes, now, n, k, e) <==> TermFault(nodes, start, n, k, e)
  {
    hide FinalAccess, InterfaceNames, LastBase;
  }

  /** The classes above base class `b` that are still to be bound are classes that the call
      for `c` has to bind, and `c` is none of them. */
  lemma TodoOfBase(nodes: Nodes, start: Symbols, c: Name, i: nat, done: set<Name>, now: Symbols, b: Name, n: Name)
    requires Binding(nodes, start, c, i, done, now) && Acyclic(nodes, start, c) && Derives(nodes, c, b)
    requires n in Todo(nodes, now, b)
    ensures Unbound(nodes, now, n) && n in Todo(nodes, start, c) && n != c && n !in done
  {
    hide Binding, Fault;
    StillToBind(nodes, start, c, i, done, now) by { assert Binding(nodes, start, c, i, done, now); }
    assert Unbound(nodes, start, c) by { UnboundSelf(nodes, start, c, i, done, now); }
    var walk :| WalkFromTo(ToBind(nodes, now), walk, b, n);
    if |walk| > 1 {
      assert ToBind(nodes, now)(walk[|walk| - 2], walk[|walk| - 2 + 1]);
    }
    WalkMonotone(ToBind(nodes, now), ToBind(nodes, start), walk);
    assert WalkFromTo(ToBind(nodes, start), walk, b, n);
    assert ToBind(nodes, start)(c, b);
    ReachablePrepend(ToBind(nodes, start), c, b, n);
    WalkPrepend(ToBind(nodes, start), c, walk);
    ReachableSelf(ToBind(nodes, start), c);
  }

  lemma UnboundSelf(nodes: Nodes, start: Symbols, c: Name, i: nat, done: set<Name>, now: Symbols)
    requires Binding(nodes, start, c, i, done, now)
    ensures Unbound(nodes, start, c) && Unbound(nodes, now, c)
  {
  }

  lemma BindMore(nodes: Nodes, start: Symbols, c: Name, i: nat, done: set<Name>, now: Symbols, b: Name)
    requires Binding(nodes, start, c, i, done, now) && Acyclic(nodes, start, c) && (b in nodes ==> Derives(nodes, c, b))
    requires AllAcceptable(nodes, now, Todo(nodes, now, b))
    ensures AllAcceptable(nodes, start, done + Todo(nodes, now, b))
    ensures Bind(nodes, now, Todo(nodes, now, b)).Keys == start.Keys
    ensures forall n :: n in start && n != c ==>
              Bind(nodes, now, Todo(nodes, now, b))[n] == Bind(nodes, start, done + Todo(nodes, now, b))[n]
  {
    var todo := Todo(nodes, now, b);
    forall n | n in todo
      ensures n != c && n !in done && n in start && now[n] == start[n] && Acceptable(nodes, start, n) {
      hide InterfaceNames, LastBase;
      TodoOfBase(nodes, start, c, i, done, now, b, n);
      forall e ensures !Fault(nodes, start, n, e) {
        SameFaults(nodes, start, c, i, done, now, n, e);
      }
    }
    hide Acceptable, InterfaceNames, LastBase, Todo, Fault;
  }

  /** With the classes bound for base class `b`, what is bound stays closed. */
  lemma DoneStaysClosed(nodes: Nodes, start: Symbols, c: Name, i: nat, done: set<Name>, now: Symbols, b: Name)
    requires Binding(nodes, start, c, i, done, now) && Acyclic(nodes, start, c) && (b in nodes ==> Derives(nodes, c, b))
    ensures var todo := Todo(nodes, now, b);
            && (forall n :: n in todo ==> n != c && Unbound(nodes, start, n) && Reachable(ToBind(nodes, start), c, n))
            && (forall x, y :: x in done + todo && BindsNext(nodes, start, x, y) ==> y in done + todo)
            && (Unbound(nodes, start, b) ==> b in done + todo)
  {
    hide InterfaceNames, LastBase, DeclaredAccess, Fault, Acceptable, TermFault;
    var todo := Todo(nodes, now, b);
    StillToBind(nodes, start, c, i, done, now);
    forall n | n in todo
      ensures n != c && Unbound(nodes, start, n) && Reachable(ToBind(nodes, start), c, n) {
      TodoOfBase(nodes, start, c, i, done, now, b, n);
    }
    forall x, y | x in done + todo && BindsNext(nodes, start, x, y) ensures y in done + todo {
      if x in todo && y !in done {
        TodoOfBase(nodes, start, c, i, done, now, b, x);
        ReachableAppend(ToBind(nodes, now), b, x, y);
      }
    }
    if Unbound(nodes, start, b) && b !in done {
      ReachableSelf(ToBind(nodes, now), b);
      assert b in todo;
    }
  }

  /** Binding the class `b` that the next base term denotes, and making it the base class. */
  lemma StepBase(nodes: Nodes, start: Symbols, c: Name, i: nat, done: set<Name>, now: Symbols, b: Name)
    requires Binding(nodes, start, c, i, done, now) && Acyclic(nodes, start, c) && !nodes[c].isTemplate
    requires i < |nodes[c].bases| && nodes[c].bases[i] == ClassTerm(b) && b != c
    requires AllAcceptable(nodes, now, Todo(nodes, now, b))
    requires forall e :: !TermFault(nodes, start, c, i, e)
    ensures c in now
    ensures var next := Bind(nodes, now, Todo(nodes, now, b));
            Binding(nodes, start, c, i + 1, done + Todo(nodes, now, b), next[c := now[c].(base := Some(b))])
  {
    hide Todo, Reachable, BindsNext, Bind, Based, DeclaredAccess, Fault, Acceptable, TermFault, FinalAccess;
    DoneStaysClosed(nodes, start, c, i, done, now, b);
    BindMore(nodes, start, c, i, done, now, b);
    NextSymbols(nodes, start, c, i, done, now, b);
  }

  lemma NextSymbols(nodes: Nodes, start: Symbols, c: Name, i: nat, done: set<Name>, now: Symbols, b: Name)
    requires Binding(nodes, start, c, i, done, now) && Acyclic(nodes, start, c) && !nodes[c].isTemplate
    requires i < |nodes[c].bases| && nodes[c].bases[i] == ClassTerm(b) && b != c
    requires AllAcceptable(nodes, now, Todo(nodes, now, b))
    ensures AllAcceptable(nodes, start, done + Todo(nodes, now, b)) && c in now
    ensures Bind(nodes, now, Todo(nodes, now, b))[c := now[c].(base := Some(b))] ==
            Bind(nodes, start, done + Todo(nodes, now, b))[c := Based(c, nodes[c], start[c], i + 1)]
  {
    hide Todo, Reachable, BindsNext, Fault, Acceptable, AllAcceptable, TermFault, InterfaceNames, LastBase;
    BindMore(nodes, start, c, i, done, now, b);
    StepSymbol(nodes, start, c, i);
  }

  /** How one more base term changes the symbol of the class. */
  lemma StepSymbol(nodes: Nodes, start: Symbols, c: Name, i: nat)
    requires c in nodes && c in start && DeclaredAccess(nodes[c]).Some? && i < |nodes[c].bases|
    ensures var t, s := nodes[c].bases[i], Based(c, nodes[c], start[c], i);
            Based(c, nodes[c], start[c], i + 1) ==
            match t
            case ClassTerm(b) => if b == c then s else s.(base := Some(b))
            case InterfaceTerm(m) => if start[c].interfacesSet then s else s.(interfaces := s.interfaces + [m])
            case _ => s
  {
    assert nodes[c].bases[..i + 1][..i] == nodes[c].bases[..i];
  }

  /** The access that is compared once base class `b` has been bound. */
  lemma AfterBase(nodes: Nodes, start: Symbols, c: Name, i: nat, done: set<Name>, now: Symbols, b: Name)
    requires Binding(nodes, start, c, i, done, now) && Acyclic(nodes, start, c) && (b in nodes ==> Derives(nodes, c, b))
    requires b in now && AllAcceptable(nodes, now, Todo(nodes, now, b))
    ensures var next := Bind(nodes, now, Todo(nodes, now, b));
            b in next && FinalAccess(nodes, start, b) == Some(next[b].access) && c in next && next[c] == now[c]
    ensures Some(now[c].access) == DeclaredAccess(nodes[c])
  {
    BindMore(nodes, start, c, i, done, now, b);
    StillToBind(nodes, start, c, i, done, now);
    if c in Todo(nodes, now, b) {
      TodoOfBase(nodes, start, c, i, done, now, b, c);
    }
    if Unbound(nodes, now, b) {
      ReachableSelf(ToBind(nodes, now), b);
      assert b in Todo(nodes, now, b);
    }
  }

  /** The base class that is set before base term `i`, and what the symbol's flags are. */
  lemma DuringBinding(nodes: Nodes, start: Symbols, c: Name, i: nat, done: set<Name>, now: Symbols)
    requires Binding(nodes, start, c, i, done, now)
    ensures c in nodes && Unbound(nodes, start, c) && DeclaredAccess(nodes[c]).Some?
    ensures c in now && now[c] == Based(c, nodes[c], start[c], i)
    ensures !start[c].interfacesSet ==> now[c].interfaces == start[c].interfaces + InterfaceNames(nodes[c].bases[..i])
  {
  }

  /** A base term that binds no class: an interface, or the class itself. */
  lemma StepOther(nodes: Nodes, start: Symbols, c: Name, i: nat, done: set<Name>, now: Symbols, s: ClassTypeSymbol)
    requires Binding(nodes, start, c, i, done, now) && i < |nodes[c].bases|
    requires nodes[c].bases[i].InterfaceTerm? || nodes[c].bases[i] == ClassTerm(c)
    requires s == Based(c, nodes[c], start[c], i + 1)
    requires forall e :: !TermFault(nodes, start, c, i, e)
    ensures Binding(nodes, start, c, i + 1, done, now[c := s])
  {
    hide TermFault, Fault, Acceptable;
  }

  lemma BindingStarts(nodes: Nodes, start: Symbols, c: Name)
    requires Unbound(nodes, start, c) && DeclaredAccess(nodes[c]).Some?
    ensures Binding(nodes, start, c, 0, {}, start[c := Specified(nodes[c], start[c])])
  {
    assert Bind(nodes, start, {}) == start;
    assert start[c].interfaces + [] == start[c].interfaces;
  }

  lemma BindingEnds(nodes: Nodes, start: Symbols, c: Name, done: set<Name>, now: Symbols)
    requires c in nodes && Binding(nodes, start, c, |nodes[c].bases|, done, now) && !nodes[c].isTemplate
    requires forall e :: !SpecifierFault(nodes[c], e)
    ensures Todo(nodes, start, c) == done + {c} && AllAcceptable(nodes, start, Todo(nodes, start, c))
    ensures c in now
    ensures Bind(nodes, start, Todo(nodes, start, c)) ==
            now[c := now[c].(baseClassSet := true, interfacesSet := true, bound := true)]
  {
    TodoIs(nodes, start, c, done);
    assert nodes[c].bases[..|nodes[c].bases|] == nodes[c].bases;
    forall e ensures !Fault(nodes, start, c, e) {
      hide TermFault, InterfaceNames, LastBase;
    }
    hide Fault, Acceptable;
  }

  lemma TodoIs(nodes: Nodes, start: Symbols, c: Name, done: set<Name>)
    requires Unbound(nodes, start, c)
    requires forall a :: a in done ==> Unbound(nodes, start, a) && Reachable(ToBind(nodes, start), c, a)
    requires forall a, b :: a in done && BindsNext(nodes, start, a, b) ==> b in done
    requires forall b :: BindsNext(nodes, start, c, b) ==> b in done
    ensures Todo(nodes, start, c) == done + {c}
  {
    ReachableSelf(ToBind(nodes, start), c);
    assert Closed(ToBind(nodes, start), done + {c});
    forall n | n in Todo(nodes, start, c) ensures n in done + {c} {
      ClosedUnderReachable(ToBind(nodes, start), done + {c}, c, n);
    }
  }

  lemma TemplateTodo(nodes: Nodes, start: Symbols, c: Name)
    requires Unbound(nodes, start, c) && nodes[c].isTemplate && DeclaredAccess(nodes[c]).Some?
    requires forall e :: !SpecifierFault(nodes[c], e)
    ensures Todo(nodes, start, c) == {c} && AllAcceptable(nodes, start, Todo(nodes, start, c))
    ensures Bind(nodes, start, Todo(nodes, start, c)) == start[c := BoundSymbol(c, nodes[c], start[c])]
  {
    TodoIs(nodes, start, c, {});
  }

  lemma NothingToDo(nodes: Nodes, start: Symbols, c: Name)
    requires !Unbound(nodes, start, c)
    ensures Todo(nodes, start, c) == {} && AllAcceptable(nodes, start, {}) && Bind(nodes, start, {}) == start
  {
  }

  /** A fault found while binding a base class is a fault of a class that the whole call has
      to bind. */
  lemma FaultOfBase(nodes: Nodes, start: Symbols, c: Name, i: nat, done: set<Name>, now: Symbols, b: Name, e: BindError)
    requires Binding(nodes, start, c, i, done, now) && Acyclic(nodes, start, c) && Derives(nodes, c, b)
    requires exists n :: n in Todo(nodes, now, b) && Fault(nodes, now, n, e)
    ensures exists n :: n in Todo(nodes, start, c) && Fault(nodes, start, n, e)
  {
    hide Binding;
    var n :| n in Todo(nodes, now, b) && Fault(nodes, now, n, e);
    TodoOfBase(nodes, start, c, i, done, now, b, n);
    SameFaults(nodes, start, c, i, done, now, n, e);
  }

  lemma FaultOfTerm(nodes: Nodes, start: Symbols, c: Name, i: nat, e: BindError)
    requires Unbound(nodes, start, c) && !nodes[c].isTemplate
    requires i < |nodes[c].bases| && TermFault(nodes, start, c, i, e)
    ensures exists n :: n in Todo(nodes, start, c) && Fault(nodes, start, n, e)
  {
    ReachableSelf(ToBind(nodes, start), c);
    assert c in Todo(nodes, start, c);
  }

  lemma FaultOfSpecifiers(nodes: Nodes, start: Symbols, c: Name, e: BindError)
    requires Unbound(nodes, start, c) && SpecifierFault(nodes[c], e)
    ensures exists n :: n in Todo(nodes, start, c) && Fault(nodes, start, n, e)
  {
    ReachableSelf(ToBind(nodes, start), c);
    assert c in Todo(nodes, start, c);
  }

  lemma UpdateTwice(symbols: Symbols, c: Name, s: ClassTypeSymbol, t: ClassTypeSymbol)
    ensures symbols[c := s][c := t] == symbols[c := t]
  {
  }

  // ---------------------------------------------------------------- the symbol table

  datatype Outcome = Success | Failure(error: BindError)

  class SymbolTable {
    const nodes: Nodes
    var classes: Symbols

    constructor (nodes: Nodes, classes: Symbols)
      ensures this.nodes == nodes && this.classes == classes
    {
      this.nodes, this.classes := nodes, classes;
    }

    /** Sets the access of a class; some combinations of specifiers are invalid. */
    method SetAccess(c: Name) returns (r: Outcome)
      requires c in nodes && c in classes
      modifies this
      ensures r.Success? <==> DeclaredAccess(nodes[c]).Some?
      ensures r.Success? ==> classes == old(classes)[c := old(classes)[c].(access := DeclaredAccess(nodes[c]).value)]
      ensures r.Failure? ==> r.error == InvalidAccess && classes == old(classes)
      ensures var specifiers, member := nodes[c].specifiers, nodes[c].isClassMember;
              && (r.Failure? <==> (exists s, s' :: s in ACCESS && s' in ACCESS && s != s' && s in specifiers && s' in specifiers) ||
                                  (!member && (Protected in specifiers || Private in specifiers)))
              && (r.Success? ==>
                    match classes[c].access
                    case PublicAccess => Public in specifiers
                    case ProtectedAccess => Protected in specifiers
                    case InternalAccess => Internal in specifiers || (!member && specifiers !! ACCESS)
                    case PrivateAccess => Private in specifiers || (member && specifiers !! ACCESS))
    {
      AccessTable(nodes[c]);
      var isClassMember := nodes[c].isClassMember;
      var access := if isClassMember then PrivateAccess else InternalAccess;
      var accessSpecifiers := nodes[c].specifiers * {Public, Protected, Private, Internal};
      if accessSpecifiers == {Public} {
        access := PublicAccess;
      } else if accessSpecifiers == {Protected} {
        if isClassMember {
          access := ProtectedAccess;
        } else {
          return Failure(InvalidAccess);
        }
      } else if accessSpecifiers == {Internal} {
        access := InternalAccess;
      } else if accessSpecifiers == {Private} {
        if isClassMember {
          access := PrivateAccess;
        } else {
          return Failure(InvalidAccess);
        }
      } else if accessSpecifiers != {} {
        return Failure(InvalidAccess);
      }
      classes := classes[c := classes[c].(access := access)];
      r := Success;
    }

    /** The chain of checks on the other specifiers. */
    static method CheckSpecifiers(specifiers: set<Specifier>) returns (r: Outcome)
      ensures r.Success? <==> specifiers !! FORBIDDEN
      ensures r.Failure? ==> r.error.CannotBe? && r.error.specifier in specifiers * FORBIDDEN
    {
      if Virtual in specifiers { return Failure(CannotBe(Virtual)); }
      if Override in specifiers { return Failure(CannotBe(Override)); }
      if Explicit in specifiers { return Failure(CannotBe(Explicit)); }
      if External in specifiers { return Failure(CannotBe(External)); }
      if Suppress in specifiers { return Failure(CannotBe(Suppress)); }
      if Default in specifiers { return Failure(CannotBe(Default)); }
      if Inline in specifiers { return Failure(CannotBe(Inline)); }
      if Constexpr in specifiers { return Failure(CannotBe(Constexpr)); }
      if Cdecl in specifiers { return Failure(CannotBe(Cdecl)); }
      if Nothrow in specifiers { return Failure(CannotBe(Nothrow)); }
      if Throw in specifiers { return Failure(CannotBe(Throw)); }
      if New in specifiers { return Failure(CannotBe(New)); }
      r := Success;
    }

    /** Binds a class and, before it, every unbound class above it.  Succeeds exactly when none
        of their declarations has a fault; then exactly these classes are bound. */
    method BindClass(c: Name) returns (r: Outcome)
      requires WellFormed(nodes, classes) && c in nodes && Acyclic(nodes, classes, c)
      modifies this
      ensures classes.Keys == old(classes.Keys)
      ensures r.Success? ==> AllAcceptable(nodes, old(classes), Todo(nodes, old(classes), c)) &&
                             classes == Bind(nodes, old(classes), Todo(nodes, old(classes), c))
      ensures r.Failure? ==> exists n :: n in Todo(nodes, old(classes), c) && Fault(nodes, old(classes), n, r.error)
      ensures r.Success? ==>
                forall n, b :: BoundOver(nodes, old(classes), classes, n, b) ==>
                  && b in classes
                  && (classes[n].access == PublicAccess ==> classes[b].access == PublicAccess)
                  && (classes[n].access == InternalAccess ==> classes[b].access in {InternalAccess, PublicAccess})
                  && (classes[n].access == ProtectedAccess ==> classes[b].access != PrivateAccess)
      ensures r.Success? ==>
                forall n :: n in classes ==>
                  if n in nodes && !old(classes)[n].bound && classes[n].bound then
                    BoundAs(n, nodes[n], old(classes)[n], classes[n])
                  else classes[n] == old(classes)[n]
      ensures r.Success? ==> classes[c].bound
      decreases Above(nodes, classes, c), if classes[c].bound then 0 else 2
    {
      hide Fault, Acceptable, AllAcceptable, Todo, Acyclic, Above, Binding, Bind, BoundAs, BoundOver;
      ghost var start := classes;
      if classes[c].bound {
        NothingToDo(nodes, start, c);
        AllBasesAccessible(nodes, start, c);
        AllBound(nodes, start, c);
        return Success;
      }
      r := SetSpecifiers(c);
      if r.Failure? {
        FaultOfSpecifiers(nodes, start, c, r.error);
        return;
      }
      if nodes[c].isTemplate {
        TemplateTodo(nodes, start, c);
        AllBasesAccessible(nodes, start, c);
        AllBound(nodes, start, c);
        classes := classes[c := classes[c].(bound := true)];
        return Success;
      }
      BindingStarts(nodes, start, c);
      ghost var done: set<Name> := {};
      var bases := nodes[c].bases;
      for i := 0 to |bases|
        invariant classes.Keys == start.Keys
        invariant Binding(nodes, start, c, i, done, classes)
      {
        r, done := BindBase(c, i, start, done);
        if r.Failure? { return; }
      }
      BindingEnds(nodes, start, c, done, classes);
      AllBasesAccessible(nodes, start, c);
      AllBound(nodes, start, c);
      classes := classes[c := classes[c].(baseClassSet := true, interfacesSet := true, bound := true)];
      r := Success;
    }

    /** The specifiers of a class. */
    method SetSpecifiers(c: Name) returns (r: Outcome)
      requires c in nodes && c in classes
      modifies this
      ensures classes.Keys == old(classes.Keys)
      ensures r.Success? ==> (forall e :: !SpecifierFault(nodes[c], e)) && DeclaredAccess(nodes[c]).Some?
      ensures r.Success? ==> classes == old(classes)[c := Specified(nodes[c], old(classes)[c])]
      ensures r.Failure? ==> SpecifierFault(nodes[c], r.error)
    {
      hide FORBIDDEN, DeclaredAccess;
      r := SetAccess(c);
      if r.Failure? { return; }
      ghost var start, s := old(classes), classes[c];
      if Static in nodes[c].specifiers {
        UpdateTwice(start, c, s, s.(isStatic := true));
        classes := classes[c := classes[c].(isStatic := true)];
      }
      s := classes[c];
      if Abstract in nodes[c].specifiers {
        UpdateTwice(start, c, s, s.(isAbstract := true));
        classes := classes[c := classes[c].(isAbstract := true)];
      }
      r := CheckSpecifiers(nodes[c].specifiers);
    }

    /** One turn of the loop over the base type expressions. */
    method BindBase(c: Name, i: nat, ghost start: Symbols, ghost done: set<Name>) returns (r: Outcome, ghost done': set<Name>)
      requires WellFormed(nodes, classes) && classes.Keys == start.Keys
      requires c in nodes && Acyclic(nodes, start, c) && !nodes[c].isTemplate && i < |nodes[c].bases|
      requires Binding(nodes, start, c, i, done, classes)
      modifies this
      ensures classes.Keys == old(classes.Keys)
      ensures r.Success? ==> Binding(nodes, start, c, i + 1, done', classes)
      ensures r.Failure? ==> exists n :: n in Todo(nodes, start, c) && Fault(nodes, start, n, r.error)
      decreases Above(nodes, start, c), 1
    {
      hide Fault, Acceptable, AllAcceptable, Todo, Acyclic, Above, Binding, Bind, LastBase, InterfaceNames, Reachable, BoundAs, BoundOver;
      r, done' := Success, done;
      ghost var now := classes;
      DuringBinding(nodes, start, c, i, done, now);
      StepSymbol(nodes, start, c, i);
      match nodes[c].bases[i] {
        case ClassTerm(b) =>
          if b == c {
            // the exception for a class that derives from itself is made but not thrown
            StepOther(nodes, start, c, i, done, now, now[c]);
            assert classes == now[c := now[c]];
          } else {
            if !classes[c].baseClassSet && classes[c].base.Some? {
              FaultOfTerm(nodes, start, c, i, MoreThanOneBase);
              return Failure(MoreThanOneBase), done;
            }
            if b in nodes {
              NextCall(nodes, start, c, i, done, now, b);
              r := BindClass(b);
              if r.Failure? {
                FaultOfBase(nodes, start, c, i, done, now, b, r.error);
                return;
              }
            } else {
              NothingToDo(nodes, now, b);
            }
            AfterBase(nodes, start, c, i, done, now, b);
            if classes[b].access.Level() < classes[c].access.Level() {
              FaultOfTerm(nodes, start, c, i, LessAccessibleBase(b));
              return Failure(LessAccessibleBase(b)), done;
            }
            StepBase(nodes, start, c, i, done, now, b);
            classes := classes[c := classes[c].(base := Some(b))];
            done' := done + Todo(nodes, now, b);
          }
        case InterfaceTerm(m) =>
          if !classes[c].interfacesSet {
            if m in classes[c].interfaces {
              FaultOfTerm(nodes, start, c, i, AlreadyImplements(m));
              return Failure(AlreadyImplements(m)), done;
            }
            classes := classes[c := classes[c].(interfaces := classes[c].interfaces + [m])];
            StepOther(nodes, start, c, i, done, now, classes[c]);
          } else {
            StepOther(nodes, start, c, i, done, now, now[c]);
            assert classes == now[c := now[c]];
          }
        case OtherType =>
          FaultOfTerm(nodes, start, c, i, NotClassOrInterface);
          return Failure(NotClassOrInterface), done;
        case NoType =>
          FaultOfTerm(nodes, start, c, i, NotAType);
          return Failure(NotAType), done;
      }
    }
  }

  // ---------------------------------------------------------------- what binding establishes

  /** A class that is not to be bound has a base class that is not to be bound either and is
      at least as accessible. */
  ghost predicate WellBased(nodes: Nodes, symbols: Symbols, c: Name) {
    c in symbols && symbols[c].base.Some? ==>
      var b := symbols[c].base.value;
      b in symbols && !Unbound(nodes, symbols, b) && symbols[b].access.Level() >= symbols[c].access.Level()
  }

  /** All such classes are well based, and no other class has been given a base class yet. */
  ghost predicate Sound(nodes: Nodes, symbols: Symbols) {
    forall c :: c in symbols ==>
      if Unbound(nodes, symbols, c) then symbols[c].base == None else WellBased(nodes, symbols, c)
  }

  lemma {:induction false} LastBaseIsTerm(c: Name, bases: seq<BaseTerm>)
    ensures var last := LastBase(c, bases, None);
            last.Some? ==> last.value != c && exists i :: 0 <= i < |bases| && bases[i] == ClassTerm(last.value)
  {
    if bases != [] {
      LastBaseIsTerm(c, bases[..|bases| - 1]);
    }
  }

  /** A successful call keeps the hierarchy sound: each ancestor with a source node is bound
      before its descendant, and is at least as accessible. */
  lemma BindKeepsSound(nodes: Nodes, start: Symbols, c: Name)
    requires WellFormed(nodes, start) && Sound(nodes, start)
    requires AllAcceptable(nodes, start, Todo(nodes, start, c))
    ensures Sound(nodes, Bind(nodes, start, Todo(nodes, start, c)))
  {
    var todo := Todo(nodes, start, c);
    var next := Bind(nodes, start, todo);
    forall n | n in todo ensures Unbound(nodes, start, n) && WellBased(nodes, next, n) {
      TodoUnbound(nodes, start, c, n);
      BoundIsWellBased(nodes, start, c, n);
    }
    hide Todo, AllAcceptable;
    forall n | n in start
      ensures if Unbound(nodes, next, n) then next[n].base == None else WellBased(nodes, next, n) {
    }
  }

  /** A class above one that is to be bound is to be bound exactly when it is not bound yet. */
  lemma BaseIsHandled(nodes: Nodes, start: Symbols, c: Name, n: Name, b: Name)
    requires n in Todo(nodes, start, c) && !nodes[n].isTemplate && ClassTerm(b) in nodes[n].bases && b != n
    ensures Unbound(nodes, start, b) <==> b in Todo(nodes, start, c)
  {
    TodoUnbound(nodes, start, c, n);
    if Unbound(nodes, start, b) {
      ReachableAppend(ToBind(nodes, start), c, n, b);
    } else if b in Todo(nodes, start, c) {
      TodoUnbound(nodes, start, c, b);
    }
  }

  /** After a successful call, no base class that a class bound by it names is less accessible. */
  lemma BasesAccessible(nodes: Nodes, start: Symbols, c: Name, n: Name, b: Name)
    requires WellFormed(nodes, start) && AllAcceptable(nodes, start, Todo(nodes, start, c))
    requires n in nodes && n in start && !start[n].bound && !nodes[n].isTemplate
    requires ClassTerm(b) in nodes[n].bases && b != n
    requires Bind(nodes, start, Todo(nodes, start, c))[n].bound
    ensures var next := Bind(nodes, start, Todo(nodes, start, c));
            && b in next
            && (next[n].access == PublicAccess ==> next[b].access == PublicAccess)
            && (next[n].access == InternalAccess ==> next[b].access in {InternalAccess, PublicAccess})
            && (next[n].access == ProtectedAccess ==> next[b].access != PrivateAccess)
  {
    var todo := Todo(nodes, start, c);
    assert n in todo by {
      hide Todo, AllAcceptable;
    }
    BaseIsHandled(nodes, start, c, n, b);
    TodoUnbound(nodes, start, c, n);
    hide Todo, Reachable, Fault, Acceptable;
    var i :| 0 <= i < |nodes[n].bases| && nodes[n].bases[i] == ClassTerm(b);
    NotLessAccessible(nodes, start, n, i, b);
    AccessIsFinal(nodes, start, todo, n);
    AccessIsFinal(nodes, start, todo, b);
  }

  lemma AllBound(nodes: Nodes, start: Symbols, c: Name)
    requires c in nodes && c in start && AllAcceptable(nodes, start, Todo(nodes, start, c))
    ensures var next := Bind(nodes, start, Todo(nodes, start, c));
            && c in next && next[c].bound
            && forall n :: n in next ==>
                 if n in nodes && !start[n].bound && next[n].bound then BoundAs(n, nodes[n], start[n], next[n])
                 else next[n] == start[n]
  {
    var todo := Todo(nodes, start, c);
    var next := Bind(nodes, start, todo);
    ReachableSelf(ToBind(nodes, start), c);
    assert start[c].bound || c in todo;
    forall n | n in next
      ensures n in todo ==> !start[n].bound
      ensures if n in nodes && !start[n].bound && next[n].bound then BoundAs(n, nodes[n], start[n], next[n])
              else next[n] == start[n]
      ensures n in todo ==> next[n].bound
    {
      if n in todo {
        TodoUnbound(nodes, start, c, n);
      }
      hide Todo, BoundAs, AllAcceptable;
      SymbolsBound(nodes, start, todo, n);
      assert n in todo ==> next[n].bound by {
        assert AllAcceptable(nodes, start, todo);
        assert n in todo ==> next[n] == BoundSymbol(n, nodes[n], start[n]);
      }
    }
  }

  lemma AllBasesAccessible(nodes: Nodes, start: Symbols, c: Name)
    requires WellFormed(nodes, start) && AllAcceptable(nodes, start, Todo(nodes, start, c))
    ensures var next := Bind(nodes, start, Todo(nodes, start, c));
            forall n, b :: BoundOver(nodes, start, next, n, b) ==>
              && b in next
              && (next[n].access == PublicAccess ==> next[b].access == PublicAccess)
              && (next[n].access == InternalAccess ==> next[b].access in {InternalAccess, PublicAccess})
              && (next[n].access == ProtectedAccess ==> next[b].access != PrivateAccess)
  {
    hide Todo, AllAcceptable, Bind, WellFormed;
    forall n, b | BoundOver(nodes, start, Bind(nodes, start, Todo(nodes, start, c)), n, b)
      ensures var next := Bind(nodes, start, Todo(nodes, start, c));
              && b in next
              && (next[n].access == PublicAccess ==> next[b].access == PublicAccess)
              && (next[n].access == InternalAccess ==> next[b].access in {InternalAccess, PublicAccess})
              && (next[n].access == ProtectedAccess ==> next[b].access != PrivateAccess)
    {
      BasesAccessible(nodes, start, c, n, b);
    }
  }

  /** A base class that is named is found less accessible exactly in these cases: it is not public
      and the class is, it is private or protected and the class is internal, or it is private and
      the class is protected. */
  lemma LessAccessibleIff(nodes: Nodes, symbols: Symbols, c: Name, b: Name)
    requires WellFormed(nodes, symbols) && c in nodes
    requires !nodes[c].isTemplate && ClassTerm(b) in nodes[c].bases && b != c
    requires DeclaredAccess(nodes[c]).Some? && FinalAccess(nodes, symbols, b).Some?
    ensures var base := FinalAccess(nodes, symbols, b).value;
            Fault(nodes, symbols, c, LessAccessibleBase(b)) <==>
              match DeclaredAccess(nodes[c]).value
              case PublicAccess => base != PublicAccess
              case InternalAccess => base in {PrivateAccess, ProtectedAccess}
              case ProtectedAccess => base == PrivateAccess
              case PrivateAccess => false
  {
    hide LastBase, DeclaredAccess, FinalAccess, InterfaceNames;
    var i :| 0 <= i < |nodes[c].bases| && nodes[c].bases[i] == ClassTerm(b);
    assert LessAccessible(FinalAccess(nodes, symbols, b), DeclaredAccess(nodes[c])) <==>
           TermFault(nodes, symbols, c, i, LessAccessibleBase(b));
  }

  /** So no call succeeds that has to bind a public class over an internal one. */
  lemma PublicOverInternal(nodes: Nodes, symbols: Symbols, c: Name, b: Name)
    requires WellFormed(nodes, symbols) && Unbound(nodes, symbols, c) && !nodes[c].isTemplate
    requires ClassTerm(b) in nodes[c].bases && b != c && nodes[c].specifiers * ACCESS == {Public}
    requires if Unbound(nodes, symbols, b) then nodes[b].specifiers * ACCESS == {Internal}
             else symbols[b].access == InternalAccess
    ensures !AllAcceptable(nodes, symbols, Todo(nodes, symbols, c))
  {
    LessAccessibleIff(nodes, symbols, c, b);
    ReachableSelf(ToBind(nodes, symbols), c);
    assert c in Todo(nodes, symbols, c);
  }

  lemma BoundIsWellBased(nodes: Nodes, start: Symbols, c: Name, n: Name)
    requires WellFormed(nodes, start) && Sound(nodes, start)
    requires AllAcceptable(nodes, start, Todo(nodes, start, c)) && n in Todo(nodes, start, c)
    ensures WellBased(nodes, Bind(nodes, start, Todo(nodes, start, c)), n)
  {
    var todo := Todo(nodes, start, c);
    var next := Bind(nodes, start, todo);
    TodoUnbound(nodes, start, c, n);
    var bases := nodes[n].bases;
    assert bases[..|bases|] == bases;
    if !nodes[n].isTemplate && LastBase(n, bases, None).Some? {
      var b := LastBase(n, bases, None).value;
      LastBaseIsTerm(n, bases);
      var i :| 0 <= i < |bases| && bases[i] == ClassTerm(b);
      BaseIsHandled(nodes, start, c, n, b);
      hide Todo, Reachable, Fault, Acceptable, Sound;
      NotLessAccessible(nodes, start, n, i, b);
      AccessIsFinal(nodes, start, todo, n);
      AccessIsFinal(nodes, start, todo, b);
      assert next[n].base == Some(b) && !Unbound(nodes, next, b);
    }
  }

  lemma NotLessAccessible(nodes: Nodes, start: Symbols, n: Name, i: nat, b: Name)
    requires n in nodes && n in start && Acceptable(nodes, start, n) && !nodes[n].isTemplate
    requires i < |nodes[n].bases| && nodes[n].bases[i] == ClassTerm(b) && b != n
    ensures !LessAccessible(FinalAccess(nodes, start, b), DeclaredAccess(nodes[n]))
  {
    assert !Fault(nodes, start, n, LessAccessibleBase(b));
    assert !TermFault(nodes, start, n, i, LessAccessibleBase(b));
  }

  lemma AccessIsFinal(nodes: Nodes, start: Symbols, todo: set<Name>, n: Name)
    requires AllAcceptable(nodes, start, todo) && n in start && (Unbound(nodes, start, n) <==> n in todo)
    ensures FinalAccess(nodes, start, n) == Some(Bind(nodes, start, todo)[n].access)
  {
  }

  lemma TodoUnbound(nodes: Nodes, start: Symbols, c: Name, n: Name)
    requires n in Todo(nodes, start, c)
    ensures Unbound(nodes, start, n)
  {
    var walk :| WalkFromTo(ToBind(nodes, start), walk, c, n);
    if |walk| > 1 {
      assert ToBind(nodes, start)(walk[|walk| - 2], walk[|walk| - 2 + 1]);
    }
  }

  /** The class `k` levels up. */
  function Ancestor(symbols: Symbols, c: Name, k: nat): Option<Name> {
    if k == 0 then Some(c)
    else
      match Ancestor(symbols, c, k - 1)
      case Some(b) => if b in symbols then symbols[b].base else None
      case None => None
  }

  /** In a sound hierarchy accessibility never falls on the way up from a bound class, and
      every ancestor with a source node is bound. */
  lemma {:induction false} AccessNeverFalls(nodes: Nodes, symbols: Symbols, c: Name, j: nat, k: nat)
    requires Sound(nodes, symbols) && c in symbols && !Unbound(nodes, symbols, c)
    requires j <= k && Ancestor(symbols, c, k).Some?
    ensures var up, upper := Ancestor(symbols, c, j), Ancestor(symbols, c, k).value;
            && up.Some? && up.value in symbols && upper in symbols
            && !Unbound(nodes, symbols, up.value) && !Unbound(nodes, symbols, upper)
            && symbols[upper].access.Level() >= symbols[up.value].access.Level()
            && (symbols[up.value].access == PublicAccess ==> symbols[upper].access == PublicAccess)
            && (symbols[up.value].access == InternalAccess ==> symbols[upper].access in {InternalAccess, PublicAccess})
            && (symbols[up.value].access == ProtectedAccess ==> symbols[upper].access != PrivateAccess)
    decreases k
  {
    if j < k {
      AccessNeverFalls(nodes, symbols, c, j, k - 1);
      assert WellBased(nodes, symbols, Ancestor(symbols, c, k - 1).value);
    } else if k > 0 {
      AccessNeverFalls(nodes, symbols, c, k - 1, k - 1);
      assert WellBased(nodes, symbols, Ancestor(symbols, c, k - 1).value);
    }
  }

  lemma {:induction false} BaseIsSet(c: Name, bases: seq<BaseTerm>, start: Option<Name>, i: nat)
    requires i < |bases| && bases[i].ClassTerm? && bases[i].name != c
    ensures LastBase(c, bases, start).Some?
  {
    var last := bases[|bases| - 1];
    if !(last.ClassTerm? && last.name != c) {
      BaseIsSet(c, bases[..|bases| - 1], start, i);
    }
  }

  /** A class that is bound for the first time names at most one class other than itself. */
  lemma AtMostOneBase(nodes: Nodes, symbols: Symbols, c: Name, i: nat, j: nat)
    requires c in nodes && c in symbols && Acceptable(nodes, symbols, c)
    requires !nodes[c].isTemplate && !symbols[c].baseClassSet
    requires i < j < |nodes[c].bases| && nodes[c].bases[i].ClassTerm? && nodes[c].bases[j].ClassTerm?
    ensures nodes[c].bases[i].name == c || nodes[c].bases[j].name == c
  {
    var bases := nodes[c].bases;
    if bases[i].name != c && bases[j].name != c {
      BaseIsSet(c, bases[..j], symbols[c].base, i);
      assert TermFault(nodes, symbols, c, j, MoreThanOneBase);
      assert Fault(nodes, symbols, c, MoreThanOneBase);
    }
  }

  // ---------------------------------------------------------------- what a bound symbol holds

  /** A bound class has the flags that its specifiers say, the last other class among its base
      terms as its base, and the interfaces among them, in their order. */
  ghost predicate BoundAs(c: Name, node: ClassNode, s: ClassTypeSymbol, t: ClassTypeSymbol) {
    && t.bound && Some(t.access) == DeclaredAccess(node)
    && (t.isStatic <==> s.isStatic || Static in node.specifiers)
    && (t.isAbstract <==> s.isAbstract || Abstract in node.specifiers)
    && (if node.isTemplate then t.base == s.base && t.interfaces == s.interfaces
        else
          && t.baseClassSet && t.interfacesSet
          && (forall i :: IsLastBase(c, node.bases, i) ==> t.base == Some(node.bases[i].name))
          && ((forall i :: !IsLastBase(c, node.bases, i)) ==> t.base == s.base)
          && (if s.interfacesSet then t.interfaces == s.interfaces
              else s.interfaces <= t.interfaces && InterfacesAre(node.bases, t.interfaces[|s.interfaces|..])))
  }

  predicate IsLastBase(c: Name, bases: seq<BaseTerm>, i: int) {
    && 0 <= i < |bases| && bases[i].ClassTerm? && bases[i].name != c
    && forall j :: i < j < |bases| ==> !bases[j].ClassTerm? || bases[j].name == c
  }

  /** `names` are the interfaces among the terms, term by term. */
  ghost predicate InterfacesAre(bases: seq<BaseTerm>, names: seq<Name>) {
    exists at :: PlacedAt(bases, names, at)
  }

  ghost predicate PlacedAt(bases: seq<BaseTerm>, names: seq<Name>, at: seq<int>) {
    && |at| == |names|
    && (forall k :: 0 <= k < |at| ==> 0 <= at[k] < |bases| && bases[at[k]] == InterfaceTerm(names[k]))
    && (forall j, k :: 0 <= j < k < |at| ==> at[j] < at[k])
    && (forall i :: 0 <= i < |bases| && bases[i].InterfaceTerm? ==> i in at)
  }

  lemma {:induction false} LastBaseIs(c: Name, bases: seq<BaseTerm>, start: Option<Name>)
    ensures forall i :: IsLastBase(c, bases, i) ==> LastBase(c, bases, start) == Some(bases[i].name)
    ensures (forall i :: !IsLastBase(c, bases, i)) ==> LastBase(c, bases, start) == start
  {
    if bases != [] {
      var n := |bases| - 1;
      LastBaseIs(c, bases[..n], start);
      if bases[n].ClassTerm? && bases[n].name != c {
        assert IsLastBase(c, bases, n);
      } else {
        assert forall i :: IsLastBase(c, bases[..n], i) <==> IsLastBase(c, bases, i);
      }
    }
  }

  lemma {:induction false} InterfacePlaces(bases: seq<BaseTerm>) returns (at: seq<int>)
    ensures PlacedAt(bases, InterfaceNames(bases), at)
  {
    if bases == [] {
      at := [];
    } else {
      var n := |bases| - 1;
      var before := InterfacePlaces(bases[..n]);
      at := if bases[n].InterfaceTerm? then before + [n] else before;
      PlacedLast(bases, InterfaceNames(bases[..n]), before);
    }
  }

  lemma PlacedLast(bases: seq<BaseTerm>, names: seq<Name>, at: seq<int>)
    requires bases != [] && PlacedAt(bases[..|bases| - 1], names, at)
    ensures var n := |bases| - 1;
            if bases[n].InterfaceTerm? then PlacedAt(bases, names + [bases[n].name], at + [n])
            else PlacedAt(bases, names, at)
  {
    var n := |bases| - 1;
    assert forall k :: 0 <= k < |at| ==> bases[at[k]] == bases[..n][at[k]];
    forall i | 0 <= i < n && bases[i].InterfaceTerm? ensures i in at {
      assert bases[..n][i] == bases[i];
    }
    if bases[n].InterfaceTerm? {
      var more := at + [n];
      assert more[|at|] == n;
    }
  }

  lemma BoundSymbolIs(c: Name, node: ClassNode, s: ClassTypeSymbol)
    requires DeclaredAccess(node).Some?
    ensures BoundAs(c, node, s, BoundSymbol(c, node, s))
  {
    hide DeclaredAccess, LastBase, InterfaceNames, PlacedAt;
    assert node.bases[..|node.bases|] == node.bases;
    LastBaseIs(c, node.bases, s.base);
    var at := InterfacePlaces(node.bases);
    assert InterfacesAre(node.bases, InterfaceNames(node.bases)) by {
      assert PlacedAt(node.bases, InterfaceNames(node.bases), at);
    }
    var t := BoundSymbol(c, node, s);
    if !node.isTemplate && !s.interfacesSet {
      assert t.interfaces[|s.interfaces|..] == InterfaceNames(node.bases);
    }
  }

  /** A base term that is no fault: a class that is named is the only other one, and accessible
      enough; an interface is not implemented already; anything else is one. */
  predicate TermAccepted(nodes: Nodes, symbols: Symbols, c: Name, i: nat)
    requires c in nodes && c in symbols && i < |nodes[c].bases|
  {
    var bases, s := nodes[c].bases, symbols[c];
    match bases[i]
    case ClassTerm(b) =>
      b == c ||
      ((s.baseClassSet || (s.base == None && forall j :: 0 <= j < i ==> !bases[j].ClassTerm? || bases[j].name == c)) &&
       AccessibleTo(FinalAccess(nodes, symbols, b), DeclaredAccess(nodes[c])))
    case InterfaceTerm(m) => s.interfacesSet || (m !in s.interfaces && InterfaceTerm(m) !in bases[..i])
    case OtherType => false
    case NoType => false
  }

  predicate DeclarationAccepted(nodes: Nodes, symbols: Symbols, c: Name)
    requires c in nodes && c in symbols
  {
    && DeclaredAccess(nodes[c]).Some?
    && (forall s :: s in nodes[c].specifiers ==> s in ACCESS || s.Static? || s.Abstract? || s.UnitTest?)
    && (nodes[c].isTemplate || forall i :: 0 <= i < |nodes[c].bases| ==> TermAccepted(nodes, symbols, c, i))
  }

  predicate AccessibleTo(base: Option<Access>, derived: Option<Access>) {
    base.Some? && derived.Some? ==>
      match derived.value
      case PublicAccess => base.value == PublicAccess
      case InternalAccess => base.value == InternalAccess || base.value == PublicAccess
      case ProtectedAccess => base.value != PrivateAccess
      case PrivateAccess => true
  }

  lemma {:induction false} InterfaceNamesAre(bases: seq<BaseTerm>, m: Name)
    ensures m in InterfaceNames(bases) <==> InterfaceTerm(m) in bases
  {
    if bases != [] {
      InterfaceNamesAre(bases[..|bases| - 1], m);
      assert bases == bases[..|bases| - 1] + [bases[|bases| - 1]];
    }
  }

  lemma TermAcceptedIff(nodes: Nodes, symbols: Symbols, c: Name, i: nat)
    requires c in nodes && c in symbols && i < |nodes[c].bases|
    ensures TermAccepted(nodes, symbols, c, i) <==> forall e :: !TermFault(nodes, symbols, c, i, e)
  {
    hide LastBase, InterfaceNames, FinalAccess, DeclaredAccess;
    var bases, s := nodes[c].bases, symbols[c];
    match bases[i]
    case ClassTerm(b) =>
      LastBaseExists(c, bases[..i], s.base);
      assert LessAccessible(FinalAccess(nodes, symbols, b), DeclaredAccess(nodes[c])) <==>
             !AccessibleTo(FinalAccess(nodes, symbols, b), DeclaredAccess(nodes[c]));
      if !TermAccepted(nodes, symbols, c, i) {
        assert TermFault(nodes, symbols, c, i, MoreThanOneBase) || TermFault(nodes, symbols, c, i, LessAccessibleBase(b));
      }
    case InterfaceTerm(m) =>
      InterfaceNamesAre(bases[..i], m);
      if !TermAccepted(nodes, symbols, c, i) {
        assert TermFault(nodes, symbols, c, i, AlreadyImplements(m));
      }
    case OtherType => assert TermFault(nodes, symbols, c, i, NotClassOrInterface);
    case NoType => assert TermFault(nodes, symbols, c, i, NotAType);
  }

  lemma {:induction false} LastBaseExists(c: Name, bases: seq<BaseTerm>, start: Option<Name>)
    ensures LastBase(c, bases, start).Some? <==>
              start.Some? || exists j :: 0 <= j < |bases| && bases[j].ClassTerm? && bases[j].name != c
  {
    if bases != [] {
      var n := |bases| - 1;
      LastBaseExists(c, bases[..n], start);
      assert forall j :: 0 <= j < n ==> bases[..n][j] == bases[j];
    }
  }

  /** When a declaration is accepted, in the fields of the class and its symbol. */
  lemma AcceptableIff(nodes: Nodes, symbols: Symbols, c: Name)
    requires c in nodes && c in symbols
    ensures Acceptable(nodes, symbols, c) <==> DeclarationAccepted(nodes, symbols, c)
  {
    hide TermFault, TermAccepted, DeclaredAccess;
    forall s ensures s in FORBIDDEN <==> s !in ACCESS && !s.Static? && !s.Abstract? && !s.UnitTest? {
      ForbiddenAre(s);
    }
    hide FORBIDDEN, ACCESS;
    forall i | 0 <= i < |nodes[c].bases|
      ensures TermAccepted(nodes, symbols, c, i) <==> forall e :: !TermFault(nodes, symbols, c, i, e)
    {
      TermAcceptedIff(nodes, symbols, c, i);
    }
    if Acceptable(nodes, symbols, c) {
      assert !Fault(nodes, symbols, c, InvalidAccess);
      forall s | s in nodes[c].specifiers ensures s !in FORBIDDEN {
        assert !Fault(nodes, symbols, c, CannotBe(s));
      }
      forall i, e | !nodes[c].isTemplate && 0 <= i < |nodes[c].bases| ensures !TermFault(nodes, symbols, c, i, e) {
        assert !Fault(nodes, symbols, c, e);
      }
    }
    if DeclarationAccepted(nodes, symbols, c) {
      forall e ensures !Fault(nodes, symbols, c, e) {
        AcceptedHasNoFault(nodes, symbols, c, e);
      }
    }
  }

  lemma AcceptedHasNoFault(nodes: Nodes, symbols: Symbols, c: Name, e: BindError)
    requires c in nodes && c in symbols && DeclarationAccepted(nodes, symbols, c)
    ensures !Fault(nodes, symbols, c, e)
  {
    hide TermFault, TermAccepted, DeclaredAccess, ACCESS, FORBIDDEN;
    if e.CannotBe? {
      ForbiddenAre(e.specifier);
    }
    forall i | !nodes[c].isTemplate && 0 <= i < |nodes[c].bases| ensures !TermFault(nodes, symbols, c, i, e) {
      TermAcceptedIff(nodes, symbols, c, i);
    }
  }

  /** The specifiers that no class can have: all but those of access, `static`, `abstract` and
      `unit_test`. */
  lemma ForbiddenAre(s: Specifier)
    ensures s in FORBIDDEN <==> s !in ACCESS && !s.Static? && !s.Abstract? && !s.UnitTest?
  {
  }

  /** A successful call binds its classes as their declarations say, and changes no other symbol. */
  lemma SymbolsBound(nodes: Nodes, start: Symbols, todo: set<Name>, n: Name)
    requires AllAcceptable(nodes, start, todo) && n in start && (n in todo ==> !start[n].bound)
    ensures var next := Bind(nodes, start, todo);
            if n in todo then BoundAs(n, nodes[n], start[n], next[n]) else next[n] == start[n]
  {
    hide BoundSymbol, BoundAs, Acceptable;
    if n in todo {
      BoundSymbolIs(n, nodes[n], start[n]);
    }
  }

  // ---------------------------------------------------------------- a class that names itself

  /** The base terms other than the class itself. */
  function WithoutSelf(c: Name, bases: seq<BaseTerm>): (r: seq<BaseTerm>)
    ensures |r| <= |bases|
  {
    if bases == [] then []
    else
      var last := bases[|bases| - 1];
      WithoutSelf(c, bases[..|bases| - 1]) + if last == ClassTerm(c) then [] else [last]
  }

  lemma {:induction false} SelfTermsSkipped(c: Name, bases: seq<BaseTerm>, start: Option<Name>)
    ensures LastBase(c, WithoutSelf(c, bases), start) == LastBase(c, bases, start)
    ensures InterfaceNames(WithoutSelf(c, bases)) == InterfaceNames(bases)
  {
    if bases != [] {
      var n := |bases| - 1;
      SelfTermsSkipped(c, bases[..n], start);
      var before := WithoutSelf(c, bases[..n]);
      if bases[n] == ClassTerm(c) {
        assert WithoutSelf(c, bases) == before;
      } else {
        assert WithoutSelf(c, bases) == before + [bases[n]];
        assert (before + [bases[n]])[..|before|] == before;
      }
    }
  }

  /** A term stands behind those before it, without the self terms. */
  lemma {:induction false} PlaceOf(c: Name, bases: seq<BaseTerm>, before: seq<BaseTerm>, term: BaseTerm)
    requires before + [term] <= bases && term != ClassTerm(c)
    ensures WithoutSelf(c, before) + [term] <= WithoutSelf(c, bases)
    decreases |bases|
  {
    var init := bases[..|bases| - 1];
    if before + [term] == bases {
      assert init == before;
    } else {
      assert before + [term] <= init;
      PlaceOf(c, init, before, term);
    }
  }

  lemma {:induction false} TermAt(c: Name, bases: seq<BaseTerm>, k: nat) returns (i: nat)
    requires k < |WithoutSelf(c, bases)|
    ensures i < |bases| && bases[i] != ClassTerm(c) && |WithoutSelf(c, bases[..i])| == k
  {
    var n := |bases| - 1;
    if k < |WithoutSelf(c, bases[..n])| {
      i := TermAt(c, bases[..n], k);
      assert bases[..n][..i] == bases[..i];
    } else {
      i := n;
    }
  }

  /** The declarations with the self terms of class `c` taken out. */
  function SelfTaken(nodes: Nodes, c: Name): Nodes
    requires c in nodes
  {
    nodes[c := nodes[c].(bases := WithoutSelf(c, nodes[c].bases))]
  }

  lemma SameTerm(nodes: Nodes, symbols: Symbols, c: Name, i: nat, e: BindError)
    requires c in nodes && c in symbols && i < |nodes[c].bases| && nodes[c].bases[i] != ClassTerm(c)
    ensures var k := |WithoutSelf(c, nodes[c].bases[..i])|;
            && k < |SelfTaken(nodes, c)[c].bases|
            && (TermFault(SelfTaken(nodes, c), symbols, c, k, e) <==> TermFault(nodes, symbols, c, i, e))
  {
    hide LastBase, InterfaceNames;
    var bases, taken := nodes[c].bases, SelfTaken(nodes, c)[c].bases;
    PlaceOf(c, bases, bases[..i], bases[i]);
    var before := WithoutSelf(c, bases[..i]);
    assert taken[..|before| + 1] == before + [bases[i]];
    assert taken[..|before|] == before && taken[|before|] == bases[i];
    SelfTermsSkipped(c, nodes[c].bases[..i], symbols[c].base);
    forall b ensures FinalAccess(SelfTaken(nodes, c), symbols, b) == FinalAccess(nodes, symbols, b) {
    }
  }

  /** Terms by which a class derives from itself cause no fault, and without them the class has
      the same faults and becomes the same symbol. */
  lemma SelfDerivationAccepted(nodes: Nodes, symbols: Symbols, c: Name)
    requires c in nodes && c in symbols
    ensures forall i, e :: 0 <= i < |nodes[c].bases| && nodes[c].bases[i] == ClassTerm(c) ==> !TermFault(nodes, symbols, c, i, e)
    ensures forall e :: Fault(nodes, symbols, c, e) <==> Fault(SelfTaken(nodes, c), symbols, c, e)
    ensures Acceptable(nodes, symbols, c) <==> Acceptable(SelfTaken(nodes, c), symbols, c)
    ensures DeclaredAccess(nodes[c]).Some? ==>
              BoundSymbol(c, nodes[c], symbols[c]) == BoundSymbol(c, SelfTaken(nodes, c)[c], symbols[c])
  {
    forall i, e | 0 <= i < |nodes[c].bases| && nodes[c].bases[i] == ClassTerm(c) ensures !TermFault(nodes, symbols, c, i, e) {
    }
    hide Fault, TermFault, LastBase, InterfaceNames, BoundSymbol, DeclaredAccess;
    forall e ensures Fault(nodes, symbols, c, e) <==> Fault(SelfTaken(nodes, c), symbols, c, e) {
      SameFaultsTaken(nodes, symbols, c, e);
    }
    if DeclaredAccess(nodes[c]).Some? {
      SameSymbolTaken(c, nodes[c], symbols[c]);
    }
  }

  lemma SameSymbolTaken(c: Name, node: ClassNode, s: ClassTypeSymbol)
    requires DeclaredAccess(node).Some?
    ensures BoundSymbol(c, node, s) == BoundSymbol(c, node.(bases := WithoutSelf(c, node.bases)), s)
  {
    hide LastBase, InterfaceNames, WithoutSelf;
    var taken := node.(bases := WithoutSelf(c, node.bases));
    SelfTermsSkipped(c, node.bases, s.base);
    assert node.bases[..|node.bases|] == node.bases && taken.bases[..|taken.bases|] == taken.bases;
  }

  lemma SameFaultsTaken(nodes: Nodes, symbols: Symbols, c: Name, e: BindError)
    requires c in nodes && c in symbols
    ensures Fault(nodes, symbols, c, e) <==> Fault(SelfTaken(nodes, c), symbols, c, e)
  {
    var bases, taken := nodes[c].bases, SelfTaken(nodes, c);
    hide LastBase, InterfaceNames;
    assert SpecifierFault(nodes[c], e) <==> SpecifierFault(taken[c], e);
    if i :| 0 <= i < |bases| && TermFault(nodes, symbols, c, i, e) {
      SameTerm(nodes, symbols, c, i, e);
    }
    if k :| 0 <= k < |taken[c].bases| && TermFault(taken, symbols, c, k, e) {
      var i := TermAt(c, bases, k);
      SameTerm(nodes, symbols, c, i, e);
    }
  }

  // ---------------------------------------------------------------- cycles

  /** A call for `c` in which no declaration has a fault ends, with at most `n` nested calls that
      have something to bind. */
  ghost predicate EndsWithin(nodes: Nodes, symbols: Symbols, c: Name, n: nat)
    decreases n
  {
    Unbound(nodes, symbols, c) ==>
      n > 0 && forall b :: BindsNext(nodes, symbols, c, b) ==> EndsWithin(nodes, symbols, b, n - 1)
  }

  lemma {:induction false} EndsLater(nodes: Nodes, symbols: Symbols, c: Name, n: nat, m: nat)
    requires EndsWithin(nodes, symbols, c, n) && n <= m
    ensures EndsWithin(nodes, symbols, c, m)
    decreases n
  {
    hide Unbound, BindsNext;
    if Unbound(nodes, symbols, c) {
      forall b | BindsNext(nodes, symbols, c, b) ensures EndsWithin(nodes, symbols, b, m - 1) {
        EndsLater(nodes, symbols, b, n - 1, m - 1);
      }
    }
  }

  /** The recursion has an end exactly when no chain of unbound classes leads into a cycle. */
  lemma EndsIff(nodes: Nodes, symbols: Symbols, c: Name)
    ensures (exists n :: EndsWithin(nodes, symbols, c, n)) <==> Acyclic(nodes, symbols, c)
  {
    hide EndsWithin, Unbound, BindsNext;
    if Acyclic(nodes, symbols, c) {
      AcyclicEnds(nodes, symbols, c);
    }
    if n :| EndsWithin(nodes, symbols, c, n) {
      forall m | Reachable(ToBind(nodes, symbols), c, m) ensures !OnCycle(ToBind(nodes, symbols), m) {
        var walk :| WalkFromTo(ToBind(nodes, symbols), walk, c, m);
        EndsAlong(nodes, symbols, walk, n);
        CycleNeverEnds(nodes, symbols, m, n);
      }
    }
  }

  lemma {:induction false} AcyclicEnds(nodes: Nodes, symbols: Symbols, c: Name)
    requires Acyclic(nodes, symbols, c)
    ensures EndsWithin(nodes, symbols, c, |Above(nodes, symbols, c)| + 1)
    decreases Above(nodes, symbols, c)
  {
    hide Acyclic, Above, Unbound, BindsNext;
    forall b | BindsNext(nodes, symbols, c, b) ensures EndsWithin(nodes, symbols, b, |Above(nodes, symbols, c)|) {
      AboveDecreases(nodes, symbols, c, b);
      AcyclicEnds(nodes, symbols, b);
      SmallerSet(Above(nodes, symbols, b), Above(nodes, symbols, c));
      EndsLater(nodes, symbols, b, |Above(nodes, symbols, b)| + 1, |Above(nodes, symbols, c)|);
    }
  }

  lemma SmallerSet<T>(a: set<T>, b: set<T>)
    requires a < b
    ensures |a| < |b|
  {
    assert b == a + (b - a);
    assert b - a != {};
  }

  lemma {:induction false} EndsAlong(nodes: Nodes, symbols: Symbols, walk: seq<Name>, n: nat)
    requires IsWalk(ToBind(nodes, symbols), walk) && EndsWithin(nodes, symbols, walk[0], n)
    ensures EndsWithin(nodes, symbols, walk[|walk| - 1], n)
    decreases |walk|
  {
    if |walk| > 1 {
      assert ToBind(nodes, symbols)(walk[0], walk[1]);
      WalkSuffix(ToBind(nodes, symbols), walk, 1);
      EndsLater(nodes, symbols, walk[1], n - 1, n);
      EndsAlong(nodes, symbols, walk[1..], n);
    }
  }

  /** A class on a cycle of unbound classes is never bound. */
  lemma {:induction false} CycleNeverEnds(nodes: Nodes, symbols: Symbols, c: Name, n: nat)
    requires EndsWithin(nodes, symbols, c, n)
    ensures !OnCycle(ToBind(nodes, symbols), c)
    decreases n
  {
    var d := ToBind(nodes, symbols);
    if OnCycle(d, c) {
      var walk :| WalkFromTo(d, walk, c, c) && |walk| > 1;
      assert d(walk[0], walk[1]);
      WalkSuffix(d, walk, 1);
      assert WalkFromTo(d, walk[1..], walk[1], c);
      ReachableAppend(d, walk[1], c, walk[1]);
      CycleNeverEnds(nodes, symbols, walk[1], n - 1);
    }
  }
}
