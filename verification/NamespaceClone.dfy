/** Cloning a namespace and taking its unit tests out (`NamespaceNode::Clone`,
    Cm.Ast/Namespace.cpp, with the clone context of Cm.Ast/Clone.cpp). */
module NamespaceClone {

  /** A member of a namespace; `content` stands for everything inside a function or another
      declaration, which cloning copies. */
  datatype Member =
    | FunctionNode(name: string, unitTest: bool, content: string)
    | NamespaceNode(name: string, members: seq<Member>)
    | OtherNode(name: string, content: string)

  type Path = seq<string>

  /** A declaration and the namespaces around it.  Its parent is the innermost of them: for a unit
      test that is taken out the namespace of the original, otherwise that of the clone. */
  datatype Located = Located(at: Path, member: Member)

  // ---------------------------------------------------------------- what a tree contains

  /** All declarations that are not namespaces, in order. */
  function Declarations(at: Path, members: seq<Member>): seq<Located>
    decreases members
  {
    if members == [] then []
    else
      (match members[0]
       case NamespaceNode(name, inner) => Declarations(at + [name], inner)
       case m => [Located(at, m)]) + Declarations(at, members[1..])
  }

  /** All namespaces, in order. */
  function Namespaces(at: Path, members: seq<Member>): seq<Path>
    decreases members
  {
    if members == [] then []
    else
      (if members[0].NamespaceNode? then [at + [members[0].name]] + Namespaces(at + [members[0].name], members[0].members)
       else []) + Namespaces(at, members[1..])
  }

  predicate IsTest(l: Located) {
    l.member.FunctionNode? && l.member.unitTest
  }

  function Select(ls: seq<Located>, tests: bool): seq<Located> {
    if ls == [] then []
    else (if IsTest(ls[0]) == tests then [ls[0]] else []) + Select(ls[1..], tests)
  }

  /** The members that a clone keeps, each in its place. */
  function Kept(makeTestUnits: bool, members: seq<Member>): seq<Member>
    decreases members
  {
    if members == [] then []
    else
      (match members[0]
       case NamespaceNode(name, inner) => [NamespaceNode(name, Kept(makeTestUnits, inner))]
       case FunctionNode(_, unitTest, _) => if makeTestUnits && unitTest then [] else [members[0]]
       case OtherNode(_, _) => [members[0]]) + Kept(makeTestUnits, members[1..])
  }

  // ---------------------------------------------------------------- lemmas

  lemma {:induction false} KeptBoth(makeTestUnits: bool, a: seq<Member>, b: seq<Member>)
    ensures Kept(makeTestUnits, a + b) == Kept(makeTestUnits, a) + Kept(makeTestUnits, b)
  {
    if a == [] {
      assert a + b == b;
    } else {
      assert (a + b)[1..] == a[1..] + b;
      KeptBoth(makeTestUnits, a[1..], b);
    }
  }

  lemma {:induction false} SelectBoth(a: seq<Located>, b: seq<Located>, tests: bool)
    ensures Select(a + b, tests) == Select(a, tests) + Select(b, tests)
  {
    if a == [] {
      assert a + b == b;
    } else {
      assert (a + b)[1..] == a[1..] + b;
      SelectBoth(a[1..], b, tests);
    }
  }

  lemma {:induction false} DeclarationsBoth(at: Path, a: seq<Member>, b: seq<Member>)
    ensures Declarations(at, a + b) == Declarations(at, a) + Declarations(at, b)
  {
    if a == [] {
      assert a + b == b;
    } else {
      assert (a + b)[1..] == a[1..] + b;
      DeclarationsBoth(at, a[1..], b);
    }
  }

  lemma {:induction false} NamespacesBoth(at: Path, a: seq<Member>, b: seq<Member>)
    ensures Namespaces(at, a + b) == Namespaces(at, a) + Namespaces(at, b)
  {
    if a == [] {
      assert a + b == b;
    } else {
      assert (a + b)[1..] == a[1..] + b;
      NamespacesBoth(at, a[1..], b);
    }
  }

  /** Taking the tests out loses and duplicates nothing. */
  lemma {:induction false} SelectConserves(ls: seq<Located>)
    ensures multiset(Select(ls, true)) + multiset(Select(ls, false)) == multiset(ls)
  {
    if ls != [] {
      SelectConserves(ls[1..]);
      assert ls == [ls[0]] + ls[1..];
    }
  }

  // ---------------------------------------------------------------- cloning

  class CloneContext {
    const makeTestUnits: bool
    var unitTestFunctions: seq<Located>

    constructor (makeTestUnits: bool)
      ensures this.makeTestUnits == makeTestUnits && unitTestFunctions == []
    {
      this.makeTestUnits, unitTestFunctions := makeTestUnits, [];
    }

    method AddUnitTestFunction(unitTestFunction: Located)
      modifies this
      ensures unitTestFunctions == old(unitTestFunctions) + [unitTestFunction]
    {
      unitTestFunctions := unitTestFunctions + [unitTestFunction];
    }
  }

  /** How `members` are split between a clone and the unit tests that are taken out.  With test
      units on, the clone has exactly the declarations that are no unit tests, and the unit
      tests, each with the namespace it belongs to, go to `tests`, both in order; with test
      units off nothing is taken out.  All namespaces stay, and everything that is kept stays in
      its place. */
  ghost predicate Split(makeTestUnits: bool, at: Path, members: seq<Member>, cloned: seq<Member>, tests: seq<Located>) {
    && cloned == Kept(makeTestUnits, members)
    && Namespaces(at, cloned) == Namespaces(at, members)
    && (if makeTestUnits then
          && Declarations(at, cloned) == Select(Declarations(at, members), false)
          && tests == Select(Declarations(at, members), true)
        else cloned == members && tests == [])
  }

  lemma SplitBoth(makeTestUnits: bool, at: Path, a: seq<Member>, b: seq<Member>,
                  x: seq<Member>, y: seq<Member>, s: seq<Located>, t: seq<Located>)
    requires Split(makeTestUnits, at, a, x, s) && Split(makeTestUnits, at, b, y, t)
    ensures Split(makeTestUnits, at, a + b, x + y, s + t)
  {
    KeptBoth(makeTestUnits, a, b);
    DeclarationsBoth(at, a, b);
    DeclarationsBoth(at, x, y);
    NamespacesBoth(at, a, b);
    NamespacesBoth(at, x, y);
    SelectBoth(Declarations(at, a), Declarations(at, b), true);
    SelectBoth(Declarations(at, a), Declarations(at, b), false);
  }

  lemma SplitTest(at: Path, test: Member)
    requires IsTest(Located(at, test))
    ensures Split(true, at, [test], [], [Located(at, test)])
  {
    SingleMember(at, test);
  }

  lemma SplitOther(makeTestUnits: bool, at: Path, m: Member)
    requires !m.NamespaceNode? && !(makeTestUnits && IsTest(Located(at, m)))
    ensures Split(makeTestUnits, at, [m], [m], [])
  {
    SingleMember(at, m);
  }

  lemma SplitNamespace(makeTestUnits: bool, at: Path, name: string, members: seq<Member>, cloned: seq<Member>,
                       tests: seq<Located>)
    requires Split(makeTestUnits, at + [name], members, cloned, tests)
    ensures Split(makeTestUnits, at, [NamespaceNode(name, members)], [NamespaceNode(name, cloned)], tests)
  {
    SingleMember(at, NamespaceNode(name, members));
    SingleMember(at, NamespaceNode(name, cloned));
  }

  method Clone(at: Path, name: string, members: seq<Member>, context: CloneContext)
    returns (clone: Member, ghost tests: seq<Located>)
    modifies context
    ensures clone.NamespaceNode? && clone.name == name
    ensures Split(context.makeTestUnits, at, members, clone.members, tests)
    ensures context.unitTestFunctions == old(context.unitTestFunctions) + tests
    decreases members
  {
    hide Split, Declarations, Namespaces, Select;
    var cloned: seq<Member> := [];
    tests := [];
    NothingToSplit(context.makeTestUnits, at);
    for i := 0 to |members|
      invariant Split(context.makeTestUnits, at, members[..i], cloned, tests)
      invariant context.unitTestFunctions == old(context.unitTestFunctions) + tests
    {
      var member := members[i];
      assert members[..i + 1] == members[..i] + [member];
      if context.makeTestUnits && member.FunctionNode? && member.unitTest {
        SplitTest(at, member);
        SplitBoth(true, at, members[..i], [member], cloned, [], tests, [Located(at, member)]);
        context.AddUnitTestFunction(Located(at, member));
        tests := tests + [Located(at, member)];
        assert cloned + [] == cloned;
      } else {
        var copy := member;
        ghost var more: seq<Located> := [];
        if member.NamespaceNode? {
          copy, more := Clone(at + [member.name], member.name, member.members, context);
          SplitNamespace(context.makeTestUnits, at, member.name, member.members, copy.members, more);
        } else {
          SplitOther(context.makeTestUnits, at, member);
        }
        SplitBoth(context.makeTestUnits, at, members[..i], [member], cloned, [copy], tests, more);
        cloned := cloned + [copy];
        tests := tests + more;
      }
    }
    assert members[..|members|] == members;
    clone := NamespaceNode(name, cloned);
  }

  lemma NothingToSplit(makeTestUnits: bool, at: Path)
    ensures Split(makeTestUnits, at, [], [], [])
  {
  }

  lemma SingleMember(at: Path, m: Member)
    ensures Declarations(at, [m]) ==
            if m.NamespaceNode? then Declarations(at + [m.name], m.members) else [Located(at, m)]
    ensures Namespaces(at, [m]) ==
            if m.NamespaceNode? then [at + [m.name]] + Namespaces(at + [m.name], m.members) else []
  {
  }

  /** Every declaration is in the clone or among the tests, none twice, each on its side. */
  lemma SplitConserves(at: Path, members: seq<Member>, cloned: seq<Member>, tests: seq<Located>)
    requires Split(true, at, members, cloned, tests)
    ensures multiset(Declarations(at, cloned)) + multiset(tests) == multiset(Declarations(at, members))
  {
    SelectConserves(Declarations(at, members));
  }
}
