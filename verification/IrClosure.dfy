/** Collecting the classes and interfaces that the intermediate code of a compile unit needs
    (`AddClassTypeToIrClassTypeRepository`, Cm.Bind/Class.cpp): a depth-first closure over a
    class graph that may be cyclic, guarded by the repository itself. */
module IrClosure {
  import opened Graphs
  import opened Options

  type Name = string

  /** The base type of a member variable, a return value or a parameter. */
  datatype TypeRef = ClassRef(name: Name) | InterfaceRef(name: Name) | OtherRef

  datatype Function = Function(returnType: Option<TypeRef>, parameters: seq<TypeRef>)

  /** A class symbol once it is bound.  `vtbl` may have empty slots. */
  datatype ClassType = ClassType(base: Option<Name>, interfaces: seq<Name>, members: seq<TypeRef>,
                                 isVirtual: bool, vtbl: seq<Option<Function>>, isTemplate: bool)

  type ClassGraph = map<Name, ClassType>

  // ---------------------------------------------------------------- edges

  function Elements(types: seq<TypeRef>): set<TypeRef> {
    set i | 0 <= i < |types| :: types[i]
  }

  function Interfaces(c: ClassType): set<TypeRef> {
    set i | 0 <= i < |c.interfaces| :: InterfaceRef(c.interfaces[i])
  }

  function Signature(f: Option<Function>): set<TypeRef> {
    match f
    case None => {}
    case Some(f) =>
      (if f.returnType.Some? then {f.returnType.value} else {}) + Elements(f.parameters)
  }

  function Signatures(vtbl: seq<Option<Function>>): set<TypeRef> {
    set i, t | 0 <= i < |vtbl| && t in Signature(vtbl[i]) :: t
  }

  /** Everything that the class mentions: its base class, its interfaces, the types of its
      member variables, and of its virtual functions if it is virtual. */
  function Refs(c: ClassType): set<TypeRef> {
    (if c.base.Some? then {ClassRef(c.base.value)} else {}) + Interfaces(c) + Elements(c.members) +
    (if c.isVirtual then Signatures(c.vtbl) else {})
  }

  /** The class names type `t` as the type of a member variable, or, if it is virtual, as the
      return type or a parameter type of a virtual function. */
  predicate Uses(c: ClassType, t: TypeRef) {
    || t in c.members
    || (c.isVirtual && exists i :: 0 <= i < |c.vtbl| && c.vtbl[i].Some? &&
                                   (c.vtbl[i].value.returnType == Some(t) || t in c.vtbl[i].value.parameters))
  }

  /** Class `a` has `b` as its base class or names it as a type. */
  ghost predicate Mentions(g: ClassGraph, a: Name, b: Name) {
    a in g && (g[a].base == Some(b) || Uses(g[a], ClassRef(b)))
  }

  lemma SignatureIs(f: Function, t: TypeRef)
    ensures t in Signature(Some(f)) <==> f.returnType == Some(t) || t in f.parameters
  {
    assert t in Elements(f.parameters) <==> t in f.parameters;
  }

  /** What the class mentions, field by field. */
  lemma RefsAre(c: ClassType, t: TypeRef)
    ensures t in Refs(c) <==>
              || (t.ClassRef? && c.base == Some(t.name))
              || (t.InterfaceRef? && t.name in c.interfaces)
              || Uses(c, t)
  {
    assert t in Elements(c.members) <==> t in c.members;
    assert t in Interfaces(c) <==> t.InterfaceRef? && t.name in c.interfaces;
    forall i | 0 <= i < |c.vtbl| && c.vtbl[i].Some?
      ensures t in Signature(c.vtbl[i]) <==> c.vtbl[i].value.returnType == Some(t) || t in c.vtbl[i].value.parameters
    {
      SignatureIs(c.vtbl[i].value, t);
    }
    hide Signature;
    assert t in Signatures(c.vtbl) <==>
           exists i :: 0 <= i < |c.vtbl| && c.vtbl[i].Some? &&
                       (c.vtbl[i].value.returnType == Some(t) || t in c.vtbl[i].value.parameters) by {
      if t in Signatures(c.vtbl) {
        var i :| 0 <= i < |c.vtbl| && t in Signature(c.vtbl[i]);
        if c.vtbl[i].None? {
          EmptySlot();
        }
      }
    }
  }

  ghost function Edge(g: ClassGraph): (Name, Name) -> bool {
    (a, b) => Mentions(g, a, b)
  }

  /** Every class mentioned is a class of the graph. */
  ghost predicate Complete(g: ClassGraph) {
    forall a, b :: Mentions(g, a, b) ==> b in g
  }

  function InterfacesIn(refs: set<TypeRef>): set<Name> {
    set t | t in refs && t.InterfaceRef? :: t.name
  }

  function InterfacesOf(g: ClassGraph, classes: set<Name>): set<Name> {
    set c, t | c in classes && c in g && t in Refs(g[c]) && t.InterfaceRef? :: t.name
  }

  function TemplatesOf(g: ClassGraph, classes: set<Name>): set<Name> {
    set c | c in classes && c in g && g[c].isTemplate
  }

  /** Everything that the fields of the class lead to is there. */
  ghost predicate Followed(c: ClassType, classes: set<Name>, interfaces: set<Name>) {
    && (c.base.Some? ==> c.base.value in classes)
    && (forall i :: i in c.interfaces ==> i in interfaces)
    && (forall b :: ClassRef(b) in c.members ==> b in classes)
    && (forall i :: InterfaceRef(i) in c.members ==> i in interfaces)
    && (c.isVirtual ==> forall k :: 0 <= k < |c.vtbl| && c.vtbl[k].Some? ==>
          SignatureFollowed(c.vtbl[k].value, classes, interfaces))
  }

  ghost predicate SignatureFollowed(f: Function, classes: set<Name>, interfaces: set<Name>) {
    && (match f.returnType
        case Some(ClassRef(b)) => b in classes
        case Some(InterfaceRef(i)) => i in interfaces
        case _ => true)
    && (forall b :: ClassRef(b) in f.parameters ==> b in classes)
    && (forall i :: InterfaceRef(i) in f.parameters ==> i in interfaces)
  }

  /** If all mentioned classes and interfaces are there, the fields have been followed. */
  lemma AllFollowed(g: ClassGraph, a: Name, classes: set<Name>, interfaces: set<Name>)
    requires a in g && (forall b :: Mentions(g, a, b) ==> b in classes) && InterfacesOf(g, {a}) <= interfaces
    ensures Followed(g[a], classes, interfaces)
  {
    hide Refs;
    var c := g[a];
    forall t: TypeRef ensures t in Refs(c) <==> (t.ClassRef? && c.base == Some(t.name)) ||
                                                (t.InterfaceRef? && t.name in c.interfaces) || Uses(c, t) {
      RefsAre(c, t);
    }
    forall i | InterfaceRef(i) in Refs(c) ensures i in interfaces {
      assert i in InterfacesOf(g, {a});
    }
    forall k | c.isVirtual && 0 <= k < |c.vtbl| && c.vtbl[k].Some?
      ensures SignatureFollowed(c.vtbl[k].value, classes, interfaces)
    {
      var f := c.vtbl[k].value;
      assert forall t :: f.returnType == Some(t) || t in f.parameters ==> Uses(c, t);
    }
    assert forall i :: i in c.interfaces ==> InterfaceRef(i) in Refs(c);
    assert forall t :: t in c.members ==> Uses(c, t);
  }

  // ---------------------------------------------------------------- what a call adds

  datatype Repository = Repository(classes: set<Name>, interfaces: set<Name>, bound: set<Name>)

  /** A finished call for `root`: everything new is reachable from `root`, has all its classes
      in the repository and all its interfaces recorded, and is bound if it is a template. */
  ghost predicate Added(g: ClassGraph, root: Name, before: Repository, after: Repository) {
    var more := after.classes - before.classes;
    && before.classes <= after.classes && root in after.classes
    && (forall a, b :: a in more && Mentions(g, a, b) ==> b in after.classes)
    && (forall a :: a in more ==> Reachable(Edge(g), root, a))
    && after.interfaces == before.interfaces + InterfacesOf(g, more)
    && after.bound == before.bound + TemplatesOf(g, more)
  }

  /** A call for `c` that has gone through the references `done`. */
  ghost predicate Adding(g: ClassGraph, c: Name, before: Repository, done: set<TypeRef>, now: Repository) {
    var more := now.classes - before.classes - {c};
    && c !in before.classes && c in now.classes && before.classes <= now.classes
    && (forall a, b :: a in more && Mentions(g, a, b) ==> b in now.classes)
    && (forall a :: a in more ==> Reachable(Edge(g), c, a))
    && (forall b :: ClassRef(b) in done ==> b in now.classes)
    && now.interfaces == before.interfaces + InterfacesOf(g, more) + InterfacesIn(done)
    && now.bound == before.bound + TemplatesOf(g, more + {c})
  }

  lemma InterfacesJoin(g: ClassGraph, a: set<Name>, b: set<Name>)
    ensures InterfacesOf(g, a + b) == InterfacesOf(g, a) + InterfacesOf(g, b)
    ensures TemplatesOf(g, a + b) == TemplatesOf(g, a) + TemplatesOf(g, b)
  {
    hide Refs;
  }

  lemma InterfacesOfOne(g: ClassGraph, c: Name)
    requires c in g
    ensures InterfacesOf(g, {c}) == InterfacesIn(Refs(g[c]))
  {
    hide Refs;
  }

  lemma InterfacesInMore(refs: set<TypeRef>, t: TypeRef)
    ensures InterfacesIn(refs + {t}) == InterfacesIn(refs) + if t.InterfaceRef? then {t.name} else {}
  {
  }

  lemma AddingClass(g: ClassGraph, c: Name, before: Repository, done: set<TypeRef>, now: Repository,
                    d: Name, next: Repository)
    requires Adding(g, c, before, done, now) && Mentions(g, c, d) && Added(g, d, now, next)
    ensures Adding(g, c, before, done + {ClassRef(d)}, next)
  {
    hide Mentions, Refs, Reachable, InterfacesOf, TemplatesOf, InterfacesIn;
    var more, fresher := now.classes - before.classes - {c}, next.classes - now.classes;
    var more' := next.classes - before.classes - {c};
    assert more' == more + fresher;
    assert more' + {c} == (more + {c}) + fresher;
    assert Edge(g)(c, d);
    forall a | a in fresher ensures Reachable(Edge(g), c, a) {
      ReachablePrepend(Edge(g), c, d, a);
    }
    InterfacesJoin(g, more, fresher);
    InterfacesJoin(g, more + {c}, fresher);
    InterfacesInMore(done, ClassRef(d));
  }

  lemma AddingInterface(g: ClassGraph, c: Name, before: Repository, done: set<TypeRef>, now: Repository, i: Name)
    requires Adding(g, c, before, done, now)
    ensures Adding(g, c, before, done + {InterfaceRef(i)}, now.(interfaces := now.interfaces + {i}))
  {
    InterfacesInMore(done, InterfaceRef(i));
  }

  lemma AddingOther(g: ClassGraph, c: Name, before: Repository, done: set<TypeRef>, now: Repository)
    requires Adding(g, c, before, done, now)
    ensures Adding(g, c, before, done + {OtherRef}, now)
  {
    InterfacesInMore(done, OtherRef);
  }

  lemma AddingStarts(g: ClassGraph, c: Name, before: Repository, now: Repository)
    requires c in g && c !in before.classes
    requires now.classes == before.classes + {c} && now.interfaces == before.interfaces
    requires now.bound == before.bound + if g[c].isTemplate then {c} else {}
    ensures Adding(g, c, before, {}, now)
  {
    assert now.classes - before.classes - {c} == {};
  }

  lemma MentionedAreRefs(g: ClassGraph, c: Name)
    requires c in g
    ensures forall b :: Mentions(g, c, b) <==> ClassRef(b) in Refs(g[c])
  {
    hide Refs, Uses;
    forall b ensures Mentions(g, c, b) <==> ClassRef(b) in Refs(g[c]) {
      RefsAre(g[c], ClassRef(b));
    }
  }

  lemma AddingEnds(g: ClassGraph, c: Name, before: Repository, now: Repository)
    requires c in g && Adding(g, c, before, Refs(g[c]), now)
    ensures Added(g, c, before, now)
  {
    hide Mentions, Refs, InterfacesOf, InterfacesIn, TemplatesOf, Reachable;
    var more := now.classes - before.classes;
    var rest := now.classes - before.classes - {c};
    assert more == rest + {c};
    ReachableSelf(Edge(g), c);
    InterfacesJoin(g, rest, {c});
    InterfacesOfOne(g, c);
    MentionedAreRefs(g, c);
    forall a, b | a in more && Mentions(g, a, b) ensures b in now.classes {
      if a == c {
        assert ClassRef(b) in Refs(g[c]);
      } else {
        assert a in rest;
      }
    }
    assert now.interfaces == before.interfaces + InterfacesOf(g, more);
  }

  lemma AlreadyAdded(g: ClassGraph, c: Name, now: Repository)
    requires c in now.classes
    ensures Added(g, c, now, now)
  {
    assert now.classes - now.classes == {};
  }

  lemma DoneIsThere(g: ClassGraph, c: Name, before: Repository, done: set<TypeRef>, now: Repository)
    requires Adding(g, c, before, done, now)
    ensures forall b :: ClassRef(b) in done ==> b in now.classes
    ensures forall i :: InterfaceRef(i) in done ==> i in now.interfaces
  {
    hide InterfacesOf, TemplatesOf, Mentions, Reachable;
    assert forall i :: InterfaceRef(i) in done ==> i in InterfacesIn(done);
  }

  lemma DoneIsFollowed(g: ClassGraph, c: Name, before: Repository, done: set<TypeRef>, now: Repository, f: Function)
    requires Adding(g, c, before, done, now) && Signature(Some(f)) <= done
    ensures SignatureFollowed(f, now.classes, now.interfaces)
  {
    hide Adding, Signature;
    DoneIsThere(g, c, before, done, now);
    forall t | f.returnType == Some(t) || t in f.parameters ensures t in done {
      SignatureIs(f, t);
    }
  }

  lemma NewAreFollowed(g: ClassGraph, root: Name, before: Repository, after: Repository)
    requires Added(g, root, before, after)
    ensures forall a :: a in after.classes - before.classes && a in g ==> Followed(g[a], after.classes, after.interfaces)
    ensures forall a :: a in after.bound <==> a in before.bound || (a in after.classes - before.classes && a in g && g[a].isTemplate)
  {
    hide Refs, Uses, Followed;
    forall a | a in after.classes - before.classes && a in g ensures Followed(g[a], after.classes, after.interfaces) {
      InterfacesJoin(g, after.classes - before.classes, {a});
      assert (after.classes - before.classes) + {a} == after.classes - before.classes;
      AllFollowed(g, a, after.classes, after.interfaces);
    }
  }

  lemma ReferredClass(g: ClassGraph, c: Name, d: Name)
    requires c in g && Complete(g) && ClassRef(d) in Refs(g[c])
    ensures Mentions(g, c, d) && d in g
  {
    MentionedAreRefs(g, c);
  }

  // ---------------------------------------------------------------- the traversal

  class Repositories {
    const prebind: bool
    var classTypes: set<Name>
    var interfaces: set<Name>
    var bound: set<Name>

    constructor (prebind: bool)
      ensures this.prebind == prebind && State() == Repository({}, {}, {})
    {
      this.prebind, classTypes, interfaces, bound := prebind, {}, {}, {};
    }

    function State(): Repository
      reads this
    {
      Repository(classTypes, interfaces, bound)
    }

    /** Adds the class and everything it leads to, unless the unit is only being prebound. */
    method AddClassType(g: ClassGraph, c: Name)
      requires c in g && Complete(g)
      modifies this
      ensures if prebind then State() == old(State()) else Added(g, c, old(State()), State())
      ensures old(classTypes) <= classTypes
      ensures forall a :: a in classTypes - old(classTypes) && a in g ==> Followed(g[a], classTypes, interfaces)
      ensures forall a :: a in bound <==> a in old(bound) || (a in classTypes - old(classTypes) && a in g && g[a].isTemplate)
      decreases g.Keys - classTypes, 0
    {
      hide Adding, Added, Refs, Complete, Signatures;
      if prebind { return; }
      ghost var before := State();
      if c in classTypes {
        AlreadyAdded(g, c, before);
        return;
      }
      classTypes := classTypes + {c};
      if c !in bound {
        if g[c].isTemplate {
          bound := bound + {c};
        }
      }
      AddingStarts(g, c, before, State());
      ghost var done: set<TypeRef> := {};
      if g[c].base.Some? {
        Referred(g[c]);
        done := AddRef(g, c, ClassRef(g[c].base.value), before, done);
      }
      done := AddInterfaces(g, c, before, done);
      done := AddMembers(g, c, before, done);
      if g[c].isVirtual {
        done := AddVtbl(g, c, before, done);
      }
      RefsAreDone(g[c], done);
      AddingEnds(g, c, before, State());
      NewAreFollowed(g, c, before, State());
    }

    /** The interfaces that the class implements. */
    method AddInterfaces(g: ClassGraph, c: Name, ghost before: Repository, ghost done: set<TypeRef>)
      returns (ghost done': set<TypeRef>)
      requires !prebind && c in g && Complete(g) && Adding(g, c, before, done, State())
      modifies this
      ensures old(classTypes) <= classTypes
      ensures Adding(g, c, before, done', State()) && done' == done + Interfaces(g[c])
      ensures forall i :: i in g[c].interfaces ==> i in interfaces
      decreases g.Keys - classTypes, 3
    {
      hide Adding, Complete, Refs;
      var interfaces := g[c].interfaces;
      done' := done;
      ghost var start := classTypes;
      for i := 0 to |interfaces|
        invariant Adding(g, c, before, done', State()) && start <= classTypes
        invariant done' == done + set j | 0 <= j < i :: InterfaceRef(interfaces[j])
      {
        Referred(g[c]);
        done' := AddRef(g, c, InterfaceRef(interfaces[i]), before, done');
      }
      DoneIsThere(g, c, before, done', State());
      forall i | i in g[c].interfaces ensures InterfaceRef(i) in done' {
        var k :| 0 <= k < |interfaces| && interfaces[k] == i;
      }
    }

    /** The base types of the member variables. */
    method AddMembers(g: ClassGraph, c: Name, ghost before: Repository, ghost done: set<TypeRef>)
      returns (ghost done': set<TypeRef>)
      requires !prebind && c in g && Complete(g) && Adding(g, c, before, done, State())
      modifies this
      ensures old(classTypes) <= classTypes
      ensures Adding(g, c, before, done', State()) && done' == done + Elements(g[c].members)
      ensures forall b :: ClassRef(b) in g[c].members ==> b in classTypes
      ensures forall i :: InterfaceRef(i) in g[c].members ==> i in interfaces
      decreases g.Keys - classTypes, 3
    {
      hide Adding, Complete, Refs;
      var members := g[c].members;
      done' := done;
      ghost var start := classTypes;
      for i := 0 to |members|
        invariant Adding(g, c, before, done', State()) && start <= classTypes
        invariant done' == done + set j | 0 <= j < i :: members[j]
      {
        Referred(g[c]);
        done' := AddRef(g, c, members[i], before, done');
      }
      DoneIsThere(g, c, before, done', State());
      forall t | t in g[c].members ensures t in done' {
        var k :| 0 <= k < |members| && members[k] == t;
      }
    }

    /** The types in the signatures of the virtual functions. */
    method AddVtbl(g: ClassGraph, c: Name, ghost before: Repository, ghost done: set<TypeRef>)
      returns (ghost done': set<TypeRef>)
      requires !prebind && c in g && Complete(g) && g[c].isVirtual && Adding(g, c, before, done, State())
      modifies this
      ensures old(classTypes) <= classTypes
      ensures Adding(g, c, before, done', State()) && done' == done + Signatures(g[c].vtbl)
      decreases g.Keys - classTypes, 3
    {
      hide Adding, Complete, Refs, Signatures, Signature;
      var vtbl := g[c].vtbl;
      done' := done;
      ghost var start := classTypes;
      NoSignatures();
      for i := 0 to |vtbl|
        invariant Adding(g, c, before, done', State()) && start <= classTypes
        invariant done' == done + Signatures(vtbl[..i])
      {
        if vtbl[i].Some? {
          Referred(g[c]);
          done' := AddSignature(g, c, vtbl[i].value, before, done');
        } else {
          EmptySlot();
        }
        SignaturesStep(vtbl, i);
      }
      assert vtbl[..|vtbl|] == vtbl;
    }

    /** The return type and the parameter types of one virtual function. */
    method AddSignature(g: ClassGraph, c: Name, f: Function, ghost before: Repository, ghost done: set<TypeRef>)
      returns (ghost done': set<TypeRef>)
      requires !prebind && c in g && Complete(g) && Adding(g, c, before, done, State())
      requires Signature(Some(f)) <= Refs(g[c])
      modifies this
      ensures old(classTypes) <= classTypes
      ensures Adding(g, c, before, done', State()) && done' == done + Signature(Some(f))
      ensures SignatureFollowed(f, classTypes, interfaces)
      decreases g.Keys - classTypes, 2
    {
      hide Adding, Complete, Refs;
      done' := done;
      ghost var start := classTypes;
      if f.returnType.Some? {
        done' := AddRef(g, c, f.returnType.value, before, done');
      }
      ghost var seen := done';
      for i := 0 to |f.parameters|
        invariant Adding(g, c, before, done', State()) && start <= classTypes
        invariant done' == seen + set j | 0 <= j < i :: f.parameters[j]
      {
        assert f.parameters[i] in Signature(Some(f));
        done' := AddRef(g, c, f.parameters[i], before, done');
      }
      DoneIsFollowed(g, c, before, done', State(), f);
    }

    /** Follows one reference of class `c`. */
    method AddRef(g: ClassGraph, c: Name, t: TypeRef, ghost before: Repository, ghost done: set<TypeRef>)
      returns (ghost done': set<TypeRef>)
      requires !prebind && c in g && Complete(g) && t in Refs(g[c]) && Adding(g, c, before, done, State())
      modifies this
      ensures old(classTypes) <= classTypes
      ensures Adding(g, c, before, done', State()) && done' == done + {t}
      decreases g.Keys - classTypes, 1
    {
      hide Adding, Added, Complete, Refs, Mentions;
      ghost var now := State();
      if t.ClassRef? {
        ReferredClass(g, c, t.name);
        AddClassType(g, t.name);
        AddingClass(g, c, before, done, now, t.name, State());
      } else if t.InterfaceRef? {
        interfaces := interfaces + {t.name};
        AddingInterface(g, c, before, done, now, t.name);
      } else {
        AddingOther(g, c, before, done, now);
      }
      done' := done + {t};
    }
  }

  lemma Referred(c: ClassType)
    ensures c.base.Some? ==> ClassRef(c.base.value) in Refs(c)
    ensures forall i :: 0 <= i < |c.interfaces| ==> InterfaceRef(c.interfaces[i]) in Refs(c)
    ensures forall i :: 0 <= i < |c.members| ==> c.members[i] in Refs(c)
    ensures c.isVirtual ==> forall i :: 0 <= i < |c.vtbl| ==> Signature(c.vtbl[i]) <= Refs(c)
  {
    assert forall i :: 0 <= i < |c.interfaces| ==> InterfaceRef(c.interfaces[i]) in Interfaces(c);
    assert forall i :: 0 <= i < |c.members| ==> c.members[i] in Elements(c.members);
  }

  lemma NoSignatures()
    ensures Signatures([]) == {}
  {
  }

  lemma EmptySlot()
    ensures Signature(None) == {}
  {
  }

  lemma RefsAreDone(c: ClassType, done: set<TypeRef>)
    requires done == (if c.base.Some? then {ClassRef(c.base.value)} else {}) + Interfaces(c) + Elements(c.members) +
                     (if c.isVirtual then Signatures(c.vtbl) else {})
    ensures done == Refs(c)
  {
    hide Signatures;
  }

  lemma SignaturesStep(vtbl: seq<Option<Function>>, i: nat)
    requires i < |vtbl|
    ensures Signatures(vtbl[..i + 1]) == Signatures(vtbl[..i]) + Signature(vtbl[i])
  {
    forall t | t in Signatures(vtbl[..i]) + Signature(vtbl[i]) ensures t in Signatures(vtbl[..i + 1]) {
      if t in Signatures(vtbl[..i]) {
        var j :| 0 <= j < i && t in Signature(vtbl[..i][j]);
        assert t in Signature(vtbl[..i + 1][j]);
      } else {
        assert t in Signature(vtbl[..i + 1][i]);
      }
    }
  }

  // ---------------------------------------------------------------- the closure theorem

  /** A repository is complete in itself: classes, interfaces and bound templates. */
  ghost predicate Saturated(g: ClassGraph, r: Repository) {
    && Closed(Edge(g), r.classes)
    && InterfacesOf(g, r.classes) <= r.interfaces
    && TemplatesOf(g, r.classes) <= r.bound
  }

  /** From a saturated repository a call adds exactly the classes reachable from its argument
      and leaves the repository saturated. */
  lemma AddsExactlyTheReachable(g: ClassGraph, root: Name, before: Repository, after: Repository)
    requires Saturated(g, before) && Added(g, root, before, after)
    ensures Saturated(g, after)
    ensures forall a :: a in after.classes <==> a in before.classes || Reachable(Edge(g), root, a)
  {
    forall a, b | a in after.classes && Edge(g)(a, b) ensures b in after.classes {
      if a in before.classes {
        assert b in before.classes;
      }
    }
    forall a | Reachable(Edge(g), root, a) ensures a in after.classes {
      ClosedUnderReachable(Edge(g), after.classes, root, a);
    }
    assert after.classes == before.classes + (after.classes - before.classes);
  }

  /** In a saturated repository the fields of every class have been followed: base class, member
      types, and the return and parameter types of virtual functions. */
  lemma SaturatedFollows(g: ClassGraph, r: Repository, a: Name)
    requires Saturated(g, r) && a in r.classes && a in g
    ensures Followed(g[a], r.classes, r.interfaces)
  {
    hide Refs, Followed, Uses;
    forall b | Mentions(g, a, b) ensures b in r.classes {
      assert Edge(g)(a, b);
    }
    assert InterfacesOf(g, {a}) <= InterfacesOf(g, r.classes);
    AllFollowed(g, a, r.classes, r.interfaces);
  }

  /** Recorded interfaces are implemented or named by a class of the repository. */
  lemma InterfacesHaveReason(g: ClassGraph, root: Name, before: Repository, after: Repository, i: Name)
    requires Added(g, root, before, after) && i in after.interfaces - before.interfaces
    ensures exists a :: a in after.classes - before.classes && a in g &&
                        (i in g[a].interfaces || Uses(g[a], InterfaceRef(i)))
  {
    hide Refs, Uses;
    var a, t :| a in after.classes - before.classes && a in g && t in Refs(g[a]) && t == InterfaceRef(i);
    RefsAre(g[a], t);
  }
}
