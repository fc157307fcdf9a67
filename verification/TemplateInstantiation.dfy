/** Instantiating member functions of class templates (Cm.Bind/ClassTemplateRepository.cpp).  Binding
    a body calls back to instantiate the functions that it needs and to sweep the classes that it
    constructs; which these are is given, the order of events and the state are modelled. */
module TemplateInstantiation {
  import opened Graphs
  import opened Options

  type FunctionId = string
  type ClassId = string

  datatype Parent = TemplateType(id: ClassId) | OtherType(id: ClassId) | NoType

  /** What binding a body asks for. */
  datatype Call = CallFunction(f: FunctionId) | SweepClass(c: ClassId)

  datatype FunctionInfo = FunctionInfo(parent: Parent, hasNode: bool, isDestructor: bool, isAbstract: bool,
                                       isDefault: bool, hasBodySource: bool, calls: seq<Call>)

  /** `vtbl` may have empty slots; `satisfied` is the outcome of checking the constraint. */
  datatype ClassInfo = ClassInfo(destructor: Option<FunctionId>, vtbl: seq<Option<FunctionId>>, satisfied: bool)

  datatype Universe = Universe(functions: map<FunctionId, FunctionInfo>, classes: map<ClassId, ClassInfo>)

  ghost predicate WellFormed(u: Universe) {
    && (forall f, t :: f in u.functions && t in u.functions[f].calls ==> CallKnown(u, t))
    && (forall f :: f in u.functions && u.functions[f].parent.TemplateType? ==> u.functions[f].parent.id in u.classes)
    && (forall c :: c in u.classes && u.classes[c].destructor.Some? ==> u.classes[c].destructor.value in u.functions)
    && (forall c, i :: c in u.classes && 0 <= i < |u.classes[c].vtbl| && u.classes[c].vtbl[i].Some? ==>
          u.classes[c].vtbl[i].value in u.functions)
  }

  ghost predicate CallKnown(u: Universe, t: Call) {
    match t
    case CallFunction(f) => f in u.functions
    case SweepClass(c) => c in u.classes
  }

  // ---------------------------------------------------------------- what has to be done

  /** A function without a node, or a defaulted one, is not bound from its source. */
  function CallsOf(u: Universe, f: FunctionId): seq<Call> {
    if f in u.functions && u.functions[f].hasNode && !u.functions[f].isDefault then u.functions[f].calls else []
  }

  /** The virtual functions that class `c` itself defines. */
  predicate Own(u: Universe, c: ClassId, v: Option<FunctionId>) {
    && v.Some? && v.value in u.functions
    && !u.functions[v.value].parent.NoType? && u.functions[v.value].parent.id == c
    && !u.functions[v.value].isAbstract
  }

  /** A virtual function whose parent is no type. */
  predicate Parentless(u: Universe, v: Option<FunctionId>) {
    v.Some? && v.value in u.functions && u.functions[v.value].parent.NoType?
  }

  /** Nothing more is to be done for `f`: it is marked, or it is a destructor without a node. */
  predicate Settled(u: Universe, marked: set<FunctionId>, f: FunctionId) {
    f in marked || (f in u.functions && !u.functions[f].hasNode && u.functions[f].isDestructor)
  }

  ghost predicate BodyDone(u: Universe, marked: set<FunctionId>, f: FunctionId) {
    forall t :: t in CallsOf(u, f) && t.CallFunction? ==> Settled(u, marked, t.f)
  }

  ghost predicate VtblDone(u: Universe, marked: set<FunctionId>, c: ClassId) {
    c in u.classes ==>
      && (forall v :: v in u.classes[c].vtbl && Own(u, c, v) ==> Settled(u, marked, v.value))
      && (forall v :: v in u.classes[c].vtbl ==> !Parentless(u, v))
  }

  ghost predicate DestructorDone(u: Universe, marked: set<FunctionId>, f: FunctionId) {
    forall c :: c in ClassesOf(u, {f}) && u.classes[c].destructor.Some? ==>
      Settled(u, marked, u.classes[c].destructor.value)
  }

  function ClassesOf(u: Universe, fs: set<FunctionId>): set<ClassId> {
    set f | f in fs && f in u.functions && u.functions[f].parent.TemplateType? && u.functions[f].parent.id in u.classes
      :: u.functions[f].parent.id
  }

  /** The classes that binding the bodies of these functions sweeps. */
  function SweptBy(u: Universe, fs: set<FunctionId>): set<ClassId> {
    set f, t | f in fs && t in CallsOf(u, f) && t.SweepClass? :: t.c
  }

  /** A function that could be instantiated. */
  ghost predicate Usable(u: Universe, f: FunctionId) {
    && f in u.functions && u.functions[f].hasNode && u.functions[f].parent.TemplateType?
    && (u.functions[f].isDefault || u.functions[f].hasBodySource)
  }

  // ---------------------------------------------------------------- states and runs

  /** `inner` holds the functions that were marked outside the tail of another instantiation,
      that is, while `recursed` was not set. */
  datatype State = State(marked: set<FunctionId>, list: seq<FunctionId>, swept: set<ClassId>,
                         templates: set<ClassId>, unchecked: set<ClassId>, recursed: bool, fileScopes: nat,
                         inner: set<FunctionId>)

  ghost predicate NoDuplicates(s: seq<FunctionId>) {
    forall i, j :: 0 <= i < j < |s| ==> s[i] != s[j]
  }

  /** What every run from `a` to `b` keeps, where `asked` are the classes that are swept at the
      caller's own request. */
  ghost predicate Ran(u: Universe, a: State, b: State, asked: set<ClassId>) {
    && a.marked <= b.marked && a.inner <= b.inner
    && Listed(a, b)
    && b.recursed == a.recursed && b.fileScopes == a.fileScopes
    && b.templates == a.templates + ClassesOf(u, b.marked - a.marked)
    && b.unchecked == a.unchecked - ClassesOf(u, b.marked - a.marked)
    && b.swept == a.swept + ClassesOf(u, b.inner - a.inner) + SweptBy(u, b.marked - a.marked) + asked
    && b.inner - a.inner <= b.marked - a.marked && (a.recursed ==> b.inner == a.inner)
    && (forall f :: f in b.marked - a.marked ==> Usable(u, f) && BodyDone(u, b.marked, f))
    && (forall f :: f in b.inner - a.inner ==> DestructorDone(u, b.marked, f))
    && ConstraintsHold(u, a.unchecked - b.unchecked)
    && (forall c :: c in b.swept - a.swept ==> VtblDone(u, b.marked, c))
  }

  ghost predicate ConstraintsHold(u: Universe, cs: set<ClassId>) {
    forall c :: c in cs ==> c in u.classes && u.classes[c].satisfied
  }

  /** The list gains exactly the functions that were marked, none twice. */
  ghost predicate Listed(a: State, b: State) {
    && a.list <= b.list
    && NoDuplicates(b.list[|a.list|..])
    && (forall f :: f in b.list[|a.list|..] <==> f in b.marked && f !in a.marked)
  }

  lemma RanNothing(u: Universe, a: State)
    ensures Ran(u, a, a, {})
  {
    assert a.list[|a.list|..] == [];
    assert a.marked - a.marked == {} && a.inner - a.inner == {} && a.swept - a.swept == {};
  }

  lemma ListedBoth(a: State, b: State, c: State)
    requires Listed(a, b) && Listed(b, c) && a.marked <= b.marked <= c.marked
    ensures Listed(a, c)
  {
    var x, y, z := b.list[|a.list|..], c.list[|b.list|..], c.list[|a.list|..];
    assert z == x + y;
    forall i, j | 0 <= i < j < |z| ensures z[i] != z[j] {
      if i < |x| <= j {
        assert x[i] in b.marked && y[j - |x|] !in b.marked;
      }
    }
  }

  lemma SettledStays(u: Universe, marked: set<FunctionId>, more: set<FunctionId>)
    requires marked <= more
    ensures forall f :: BodyDone(u, marked, f) ==> BodyDone(u, more, f)
    ensures forall f :: DestructorDone(u, marked, f) ==> DestructorDone(u, more, f)
    ensures forall c :: VtblDone(u, marked, c) ==> VtblDone(u, more, c)
  {
  }

  lemma SetsJoin(u: Universe, x: set<FunctionId>, y: set<FunctionId>)
    ensures ClassesOf(u, x + y) == ClassesOf(u, x) + ClassesOf(u, y)
    ensures SweptBy(u, x + y) == SweptBy(u, x) + SweptBy(u, y)
  {
  }

  /** Runs compose. */
  lemma RanBoth(u: Universe, a: State, b: State, c: State, x: set<ClassId>, y: set<ClassId>)
    requires Ran(u, a, b, x) && Ran(u, b, c, y)
    ensures Ran(u, a, c, x + y)
  {
    hide ClassesOf, SweptBy, BodyDone, VtblDone, DestructorDone, Usable, Listed;
    ListedBoth(a, b, c);
    SettledStays(u, b.marked, c.marked);
    assert c.marked - a.marked == (b.marked - a.marked) + (c.marked - b.marked);
    assert c.inner - a.inner == (b.inner - a.inner) + (c.inner - b.inner);
    SetsJoin(u, b.marked - a.marked, c.marked - b.marked);
    SetsJoin(u, b.inner - a.inner, c.inner - b.inner);
  }

  // ---------------------------------------------------------------- sweeping a class

  /** Class `c` is noted, its own virtual functions are instantiated. */
  lemma RanSweep(u: Universe, a: State, b: State, c: ClassId)
    requires c !in a.swept && Ran(u, a.(swept := a.swept + {c}), b, {}) && VtblDone(u, b.marked, c)
    ensures Ran(u, a, b, {c})
  {
    hide ClassesOf, SweptBy, BodyDone, VtblDone, DestructorDone, Usable;
    assert Listed(a, b);
  }

  // ---------------------------------------------------------------- instantiating a function

  /** The state after `f` has been marked. */
  ghost function Marked(u: Universe, a: State, f: FunctionId): State {
    a.(marked := a.marked + {f}, templates := a.templates + ClassesOf(u, {f}),
       unchecked := a.unchecked - ClassesOf(u, {f}), inner := a.inner + if a.recursed then {} else {f})
  }

  /** The body of `f` has been bound, and the tail has been run if it had to be. */
  lemma RanInstantiate(u: Universe, a: State, b: State, f: FunctionId)
    requires f !in a.marked && f !in a.inner && Usable(u, f)
    requires Ran(u, Marked(u, a, f), b, SweptBy(u, {f}) + if a.recursed then {} else ClassesOf(u, {f}))
    requires ConstraintsHold(u, a.unchecked * ClassesOf(u, {f}))
    requires BodyDone(u, b.marked, f) && (!a.recursed ==> DestructorDone(u, b.marked, f))
    ensures Ran(u, a, b.(list := b.list + [f]), {})
  {
    hide ClassesOf, SweptBy, BodyDone, VtblDone, DestructorDone, Usable, Listed;
    var m, c := Marked(u, a, f), b.(list := b.list + [f]);
    assert c.marked - a.marked == {f} + (b.marked - m.marked);
    SetsJoin(u, {f}, b.marked - m.marked);
    SetsJoin(u, {f}, b.inner - m.inner);
    var own, more := ClassesOf(u, {f}), ClassesOf(u, b.inner - m.inner);
    if a.recursed {
      assert c.inner - a.inner == b.inner - m.inner;
      assert ClassesOf(u, c.inner - a.inner) == more;
      assert SweptBy(u, {f}) + {} == SweptBy(u, {f});
    } else {
      assert c.inner - a.inner == {f} + (b.inner - m.inner);
      assert ClassesOf(u, c.inner - a.inner) == own + more;
    }
    assert c.swept == a.swept + ClassesOf(u, c.inner - a.inner) + SweptBy(u, c.marked - a.marked) + {};
    ListedLast(a, m, b, f);
  }

  lemma ListedLast(a: State, m: State, b: State, f: FunctionId)
    requires Listed(m, b) && m.list == a.list && m.marked == a.marked + {f} && f !in a.marked
    requires m.marked <= b.marked
    ensures Listed(a, b.(list := b.list + [f]))
  {
    assert (b.list + [f])[|a.list|..] == b.list[|m.list|..] + [f];
  }

  /** The tail runs with the flag set, and resets it. */
  lemma RanTail(u: Universe, a: State, b: State, c: State, x: set<ClassId>, y: set<ClassId>)
    requires Ran(u, a, b, x) && !a.recursed && Ran(u, b.(recursed := true), c, y)
    ensures Ran(u, a, c.(recursed := false), x + y)
  {
    assert Ran(u, b, c.(recursed := false), y) by {
      hide ClassesOf, SweptBy, BodyDone, VtblDone, DestructorDone, Usable;
      assert Listed(b, c.(recursed := false));
    }
    RanBoth(u, a, b, c.(recursed := false), x, y);
  }

  // ---------------------------------------------------------------- what leads to what

  /** What the tail of instantiating `f` asks for. */
  function TailOf(u: Universe, f: FunctionId): seq<Call> {
    if f in u.functions && u.functions[f].hasNode && u.functions[f].parent.TemplateType? &&
       u.functions[f].parent.id in u.classes then
      var c := u.functions[f].parent.id;
      (if u.classes[c].destructor.Some? then [CallFunction(u.classes[c].destructor.value)] else []) + [SweepClass(c)]
    else []
  }

  ghost predicate OwnedBy(u: Universe, c: ClassId, g: FunctionId) {
    c in u.classes && Some(g) in u.classes[c].vtbl && Own(u, c, Some(g))
  }

  /** Answering the first call asks for the second one, in a tail only if `tails` is set. */
  ghost predicate Leads(u: Universe, tails: bool, s: Call, t: Call) {
    match s
    case CallFunction(f) => t in CallsOf(u, f) || (tails && t in TailOf(u, f))
    case SweepClass(c) => t.CallFunction? && OwnedBy(u, c, t.f)
  }

  ghost function Leading(u: Universe, tails: bool): (Call, Call) -> bool {
    (s, t) => Leads(u, tails, s, t)
  }

  ghost predicate Comes(u: Universe, tails: bool, root: Call, t: Call) {
    Reachable(Leading(u, tails), root, t)
  }

  ghost predicate ComesFromTail(u: Universe, f: FunctionId, g: FunctionId) {
    exists t :: t in TailOf(u, f) && Comes(u, false, t, CallFunction(g))
  }

  lemma ComesSelf(u: Universe, tails: bool, root: Call)
    ensures Comes(u, tails, root, root)
  {
    ReachableSelf(Leading(u, tails), root);
  }

  lemma ComesBefore(u: Universe, tails: bool, first: Call, root: Call, t: Call)
    requires Leads(u, tails, first, root) && Comes(u, tails, root, t)
    ensures Comes(u, tails, first, t)
  {
    hide Leads;
    assert Leading(u, tails)(first, root) == Leads(u, tails, first, root);
    ReachablePrepend(Leading(u, tails), first, root, t);
  }

  lemma ComesWider(u: Universe, root: Call, t: Call)
    requires Comes(u, false, root, t)
    ensures Comes(u, true, root, t)
  {
    hide CallsOf, TailOf, OwnedBy;
    ReachableWider(Leading(u, false), Leading(u, true), root, t);
  }

  lemma ComesThroughTail(u: Universe, root: Call, f: FunctionId, g: FunctionId)
    requires Comes(u, false, root, CallFunction(f)) && ComesFromTail(u, f, g)
    ensures Comes(u, true, root, CallFunction(g))
  {
    hide CallsOf, TailOf, OwnedBy;
    var t :| t in TailOf(u, f) && Comes(u, false, t, CallFunction(g));
    ComesWider(u, root, CallFunction(f));
    ComesWider(u, t, CallFunction(g));
    ComesBefore(u, true, CallFunction(f), t, CallFunction(g));
    ReachableBoth(Leading(u, true), root, CallFunction(f), CallFunction(g));
  }

  // ---------------------------------------------------------------- where marks come from

  /** Functions marked outside a tail are needed, through bodies, for `root`; the others are
      needed for the tail of one of these.  In a run inside a tail all are needed for `root`. */
  ghost predicate From(u: Universe, a: State, b: State, root: Call) {
    && (forall f :: f in b.inner - a.inner ==> Comes(u, false, root, CallFunction(f)))
    && (forall g :: g in (b.marked - a.marked) - (b.inner - a.inner) ==>
          if a.recursed then Comes(u, false, root, CallFunction(g)) else SomeTail(u, b.inner - a.inner, g))
  }

  ghost predicate SomeTail(u: Universe, fs: set<FunctionId>, g: FunctionId) {
    exists f :: f in fs && ComesFromTail(u, f, g)
  }

  lemma FromNothing(u: Universe, a: State, b: State, root: Call)
    requires b.inner == a.inner && b.marked == a.marked
    ensures From(u, a, b, root)
  {
  }

  lemma FromBoth(u: Universe, a: State, b: State, c: State, root: Call)
    requires From(u, a, b, root) && From(u, b, c, root)
    requires a.recursed == b.recursed && a.inner <= b.inner <= c.inner && a.marked <= b.marked
    requires b.inner <= b.marked
    ensures From(u, a, c, root)
  {
    hide Comes, ComesFromTail;
    forall f | f in c.inner - a.inner ensures Comes(u, false, root, CallFunction(f)) {
      assert f in b.inner - a.inner || f in c.inner - b.inner;
    }
    forall g | g in (c.marked - a.marked) - (c.inner - a.inner)
      ensures if a.recursed then Comes(u, false, root, CallFunction(g)) else SomeTail(u, c.inner - a.inner, g)
    {
      assert g in (b.marked - a.marked) - (b.inner - a.inner) || g in (c.marked - b.marked) - (c.inner - b.inner);
    }
  }

  /** What comes from something that `first` leads to comes from `first`. */
  lemma FromBefore(u: Universe, a: State, b: State, first: Call, root: Call)
    requires From(u, a, b, root) && Leads(u, false, first, root)
    ensures From(u, a, b, first)
  {
    hide Comes, ComesFromTail, SomeTail, Leads;
    forall f | Comes(u, false, root, CallFunction(f)) ensures Comes(u, false, first, CallFunction(f)) {
      ComesBefore(u, false, first, root, CallFunction(f));
    }
  }

  /** `f` is marked and its body is bound. */
  lemma FromBody(u: Universe, a: State, b: State, f: FunctionId)
    requires From(u, Marked(u, a, f), b, CallFunction(f))
    requires Marked(u, a, f).inner <= b.inner && f !in a.marked && f !in a.inner
    ensures From(u, a, b, CallFunction(f))
  {
    hide Comes, ComesFromTail, ClassesOf;
    ComesSelf(u, false, CallFunction(f));
    var m := Marked(u, a, f);
    forall g | g in (b.marked - a.marked) - (b.inner - a.inner)
      ensures if a.recursed then Comes(u, false, CallFunction(f), CallFunction(g)) else SomeTail(u, b.inner - a.inner, g)
    {
      assert g == f || g in (b.marked - m.marked) - (b.inner - m.inner);
    }
  }

  /** The functions that the tail of `f` has marked. */
  ghost predicate FromTail(u: Universe, a: State, b: State, f: FunctionId) {
    && b.inner == a.inner
    && (a.recursed ==> b.marked == a.marked)
    && (forall g :: g in b.marked - a.marked ==> ComesFromTail(u, f, g))
  }

  lemma FromItsTail(u: Universe, a: State, b: State, f: FunctionId, t: Call)
    requires From(u, a, b, t) && t in TailOf(u, f) && a.recursed && b.inner == a.inner
    ensures forall g :: g in b.marked - a.marked ==> ComesFromTail(u, f, g)
  {
    hide Comes, TailOf;
  }

  lemma FromBodyAndTail(u: Universe, a: State, b: State, c: State, f: FunctionId)
    requires From(u, a, b, CallFunction(f)) && FromTail(u, b, c, f)
    requires a.recursed == b.recursed && a.inner <= b.inner && a.marked <= b.marked && b.inner <= b.marked
    requires !a.recursed ==> f in b.inner - a.inner
    ensures From(u, a, c, CallFunction(f))
  {
    hide Comes, ComesFromTail;
    forall g | g in (c.marked - a.marked) - (c.inner - a.inner)
      ensures if a.recursed then Comes(u, false, CallFunction(f), CallFunction(g)) else SomeTail(u, c.inner - a.inner, g)
    {
      assert g in (b.marked - a.marked) - (b.inner - a.inner) || g in c.marked - b.marked;
    }
  }

  // ---------------------------------------------------------------- why a run fails

  /** What makes the instantiation of a function fail. */
  predicate Faulty(u: Universe, unchecked: set<ClassId>, f: FunctionId) {
    && f in u.functions
    && var info := u.functions[f];
       if info.hasNode then
         || !info.parent.TemplateType?
         || (info.parent.id in unchecked && info.parent.id in u.classes && !u.classes[info.parent.id].satisfied)
         || !(info.isDefault || info.hasBodySource)
       else !info.isDestructor
  }

  /** Answering the call fails at once, blaming `f`. */
  ghost predicate Blocks(u: Universe, a: State, t: Call, f: FunctionId) {
    match t
    case CallFunction(g) => g == f && g !in a.marked && Faulty(u, a.unchecked, g)
    case SweepClass(c) => c !in a.swept && c in u.classes && Some(f) in u.classes[c].vtbl && Parentless(u, Some(f))
  }

  /** Something that `root` leads to fails, blaming `f`. */
  ghost predicate Blocked(u: Universe, a: State, root: Call, f: FunctionId) {
    exists t :: Comes(u, !a.recursed, root, t) && Blocks(u, a, t, f)
  }

  lemma BlockedHere(u: Universe, a: State, root: Call, f: FunctionId)
    requires Blocks(u, a, root, f)
    ensures Blocked(u, a, root, f)
  {
    hide Blocks;
    ComesSelf(u, !a.recursed, root);
  }

  /** What a later call failed for would have failed the first one. */
  lemma BlockedBefore(u: Universe, a: State, b: State, first: Call, root: Call, f: FunctionId)
    requires Blocked(u, b, root, f) && Leads(u, !a.recursed, first, root)
    requires a.marked <= b.marked && a.swept <= b.swept && b.unchecked <= a.unchecked && (a.recursed ==> b.recursed)
    ensures Blocked(u, a, first, f)
  {
    hide Comes, Leads;
    var t :| Comes(u, !b.recursed, root, t) && Blocks(u, b, t, f);
    if a.recursed != b.recursed {
      ComesWider(u, root, t);
    }
    ComesBefore(u, !a.recursed, first, root, t);
    assert Blocks(u, a, t, f);
  }

  /** A function whose own class was found faulty, or its node, or its source. */
  lemma BlockedAt(u: Universe, a: State, f: FunctionId)
    requires Faulty(u, a.unchecked, f) && f !in a.marked
    ensures Blocked(u, a, CallFunction(f), f)
  {
    hide Faulty;
    BlockedHere(u, a, CallFunction(f), f);
  }

  // ---------------------------------------------------------------- calls of a body

  /** The classes swept, and the functions settled, by some calls. */
  function SweptIn(calls: seq<Call>): set<ClassId> {
    set t | t in calls && t.SweepClass? :: t.c
  }

  ghost predicate CallsDone(u: Universe, marked: set<FunctionId>, calls: seq<Call>) {
    forall t :: t in calls && t.CallFunction? ==> Settled(u, marked, t.f)
  }

  lemma NextCall(u: Universe, marked: set<FunctionId>, more: set<FunctionId>, calls: seq<Call>, i: nat)
    requires i < |calls| && marked <= more && CallsDone(u, marked, calls[..i])
    requires calls[i].CallFunction? ==> Settled(u, more, calls[i].f)
    ensures CallsDone(u, more, calls[..i + 1])
    ensures SweptIn(calls[..i + 1]) == SweptIn(calls[..i]) + if calls[i].SweepClass? then {calls[i].c} else {}
  {
    assert calls[..i + 1] == calls[..i] + [calls[i]];
  }

  lemma AllCalls(u: Universe, marked: set<FunctionId>, f: FunctionId)
    ensures CallsDone(u, marked, CallsOf(u, f)) <==> BodyDone(u, marked, f)
    ensures SweptIn(CallsOf(u, f)) == SweptBy(u, {f})
    ensures CallsDone(u, marked, []) && SweptIn([]) == {}
  {
  }

  lemma CallLeads(u: Universe, tails: bool, f: FunctionId, t: Call)
    requires WellFormed(u) && f in u.functions && t in CallsOf(u, f)
    ensures CallKnown(u, t) && Leads(u, tails, CallFunction(f), t)
  {
  }

  // ---------------------------------------------------------------- facts about one function or class

  lemma ParentKnown(u: Universe, f: FunctionId)
    requires WellFormed(u) && f in u.functions && u.functions[f].parent.TemplateType?
    ensures u.functions[f].parent.id in u.classes && ClassesOf(u, {f}) == {u.functions[f].parent.id}
  {
  }

  lemma FunctionsKnown(u: Universe, c: ClassId)
    requires WellFormed(u) && c in u.classes
    ensures u.classes[c].destructor.Some? ==> u.classes[c].destructor.value in u.functions
    ensures forall v :: v in u.classes[c].vtbl && v.Some? ==> v.value in u.functions
  {
  }

  lemma DestructorIsDone(u: Universe, f: FunctionId, marked: set<FunctionId>, c: ClassId)
    requires ClassesOf(u, {f}) == {c} && c in u.classes
    requires u.classes[c].destructor.Some? ==> Settled(u, marked, u.classes[c].destructor.value)
    ensures DestructorDone(u, marked, f)
  {
  }

  lemma SettledLater(u: Universe, marked: set<FunctionId>, more: set<FunctionId>, f: FunctionId)
    requires Settled(u, marked, f) && marked <= more
    ensures Settled(u, more, f)
  {
  }

  lemma RanFacts(u: Universe, a: State, b: State, x: set<ClassId>)
    requires Ran(u, a, b, x)
    ensures a.marked <= b.marked && a.swept <= b.swept && a.inner <= b.inner && b.unchecked <= a.unchecked
    ensures b.recursed == a.recursed && b.fileScopes == a.fileScopes
    ensures b.inner - a.inner <= b.marked - a.marked && (a.recursed ==> b.inner == a.inner)
  {
  }

  lemma RanAsked(u: Universe, a: State, b: State, x: set<ClassId>, c: ClassId)
    requires Ran(u, a, b, x) && c in a.swept
    ensures Ran(u, a, b, x + {c})
  {
  }

  lemma RanScoped(u: Universe, a: State, b: State, x: set<ClassId>)
    requires Ran(u, a.(fileScopes := a.fileScopes + 1), b, x)
    ensures b.fileScopes == a.fileScopes + 1 && Ran(u, a, b.(fileScopes := a.fileScopes), x)
  {
    hide ClassesOf, SweptBy, BodyDone, VtblDone, DestructorDone, Usable;
    assert Listed(a, b.(fileScopes := a.fileScopes));
  }

  lemma DefaultedNeedsNothing(u: Universe, f: FunctionId, marked: set<FunctionId>)
    requires f in u.functions && u.functions[f].isDefault
    ensures BodyDone(u, marked, f) && SweptBy(u, {f}) == {}
  {
  }

  ghost const NONE: set<ClassId> := {}

  // ---------------------------------------------------------------- what a sweep instantiates

  /** The class defines the function itself, and not as an abstract one. */
  predicate DefinedIn(u: Universe, c: ClassId, f: FunctionId) {
    && f in u.functions && !u.functions[f].isAbstract
    && (u.functions[f].parent == TemplateType(c) || u.functions[f].parent == OtherType(c))
  }

  /** A body that the call leads to calls `g`, or asks for a sweep of the class that defines `g` as
      a virtual function; or `g` is the destructor or such a function of the class of a function
      that the call leads to. */
  ghost predicate AskedFor(u: Universe, root: Call, g: FunctionId) {
    exists h :: Comes(u, true, root, CallFunction(h)) && h in u.functions && u.functions[h].hasNode && AsksFor(u, h, g)
  }

  ghost predicate AsksFor(u: Universe, h: FunctionId, g: FunctionId)
    requires h in u.functions
  {
    var info := u.functions[h];
    || (!info.isDefault && CallFunction(g) in info.calls)
    || (!info.isDefault && exists k :: SweepClass(k) in info.calls && DefinesVirtual(u, k, g))
    || (info.parent.TemplateType? && info.parent.id in u.classes &&
        (u.classes[info.parent.id].destructor == Some(g) || DefinesVirtual(u, info.parent.id, g)))
  }

  predicate DefinesVirtual(u: Universe, k: ClassId, g: FunctionId) {
    k in u.classes && Some(g) in u.classes[k].vtbl && DefinedIn(u, k, g)
  }

  lemma OwnIsDefined(u: Universe, k: ClassId, g: FunctionId)
    ensures OwnedBy(u, k, g) <==> DefinesVirtual(u, k, g)
    ensures Own(u, k, Some(g)) <==> DefinedIn(u, k, g)
  {
  }

  lemma LeadsAsks(u: Universe, h: FunctionId, g: FunctionId)
    ensures Leads(u, true, CallFunction(h), CallFunction(g)) ==> h in u.functions && u.functions[h].hasNode && AsksFor(u, h, g)
  {
  }

  lemma LeadsAsksSweep(u: Universe, h: FunctionId, k: ClassId, g: FunctionId)
    requires Leads(u, true, CallFunction(h), SweepClass(k)) && DefinesVirtual(u, k, g)
    ensures h in u.functions && u.functions[h].hasNode && AsksFor(u, h, g)
  {
  }

  /** What a call leads to has been asked for, but for what a sweep instantiates itself. */
  lemma ComesAsked(u: Universe, root: Call, g: FunctionId)
    requires Comes(u, true, root, CallFunction(g)) && root != CallFunction(g)
    requires root.SweepClass? ==> !DefinesVirtual(u, root.c, g)
    ensures AskedFor(u, root, g)
  {
    hide Leads, AsksFor, DefinesVirtual;
    var edge := Leading(u, true);
    var walk :| WalkFromTo(edge, walk, root, CallFunction(g));
    var n := |walk|;
    assert n > 1 && edge(walk[n - 2], walk[n - 1]);
    var s := walk[n - 2];
    assert Leads(u, true, s, CallFunction(g));
    PrefixComes(u, root, walk, n - 2);
    match s
    case CallFunction(h) =>
      LeadsAsks(u, h, g);
    case SweepClass(k) =>
      SweepLeads(u, k, g);
      assert n > 2 && edge(walk[n - 3], walk[n - 2]);
      assert Leads(u, true, walk[n - 3], s);
      SweepLeadsFrom(u, walk[n - 3], k);
      PrefixComes(u, root, walk, n - 3);
      LeadsAsksSweep(u, walk[n - 3].f, k, g);
  }

  lemma SweepLeads(u: Universe, k: ClassId, g: FunctionId)
    requires Leads(u, true, SweepClass(k), CallFunction(g))
    ensures DefinesVirtual(u, k, g)
  {
    OwnIsDefined(u, k, g);
  }

  lemma SweepLeadsFrom(u: Universe, s: Call, k: ClassId)
    requires Leads(u, true, s, SweepClass(k))
    ensures s.CallFunction?
  {
  }

  lemma PrefixComes(u: Universe, root: Call, walk: seq<Call>, i: nat)
    requires IsWalk(Leading(u, true), walk) && walk[0] == root && i < |walk|
    ensures Comes(u, true, root, walk[i])
  {
    hide Leads;
    var prefix := walk[..i + 1];
    forall k | 0 <= k < |prefix| - 1 ensures Leading(u, true)(prefix[k], prefix[k + 1]) {
      assert Leading(u, true)(walk[k], walk[k + 1]);
    }
    assert WalkFromTo(Leading(u, true), prefix, root, walk[i]);
  }

  /** What a sweep has done, in the fields of the functions. */
  lemma SweepDone(u: Universe, a: State, b: State, c: ClassId)
    requires c in u.classes && Ran(u, a, b, {c}) && From(u, a, b, SweepClass(c))
    ensures c !in a.swept ==>
              forall v | DefinesVirtual(u, c, v) && v in u.functions && u.functions[v].hasNode ::
                v in b.marked && (v in a.marked || v in b.list)
    ensures forall v | v in b.marked - a.marked && !DefinesVirtual(u, c, v) :: AskedFor(u, SweepClass(c), v)
  {
    hide ClassesOf, SweptBy, BodyDone, DestructorDone, Usable, ConstraintsHold, Comes, AskedFor, From, DefinesVirtual;
    if c !in a.swept {
      assert VtblDone(u, b.marked, c);
      forall v | DefinesVirtual(u, c, v) && v in u.functions && u.functions[v].hasNode
        ensures v in b.marked && (v in a.marked || v in b.list)
      {
        OwnIsDefined(u, c, v);
        assert Settled(u, b.marked, v);
      }
    }
    forall v | v in b.marked - a.marked && !DefinesVirtual(u, c, v) ensures AskedFor(u, SweepClass(c), v) {
      MarkedComes(u, a, b, SweepClass(c), v);
      ComesAsked(u, SweepClass(c), v);
    }
  }

  /** What an instantiation has done, in the fields of the functions: every function that it marks
      can be instantiated and its body's calls have been answered, the destructor of its class has
      been instantiated by an outermost call, and every other function has been asked for. */
  lemma InstantiationDone(u: Universe, a: State, b: State, f: FunctionId)
    requires Ran(u, a, b, {}) && From(u, a, b, CallFunction(f))
    ensures forall h | h in b.marked - a.marked :: h in u.functions && BodyAnswered(u, h, b.marked) && h in b.list
    ensures forall h, d | h in b.inner - a.inner && h in u.functions && DestructorOf(u, h, d) :: d in b.marked
    ensures forall g | g in b.marked - a.marked && g != f :: AskedFor(u, CallFunction(f), g)
  {
    hide SweptBy, VtblDone, ConstraintsHold, Comes, AskedFor, From;
    forall h, d | h in b.inner - a.inner && h in u.functions && DestructorOf(u, h, d) ensures d in b.marked {
      assert u.functions[h].parent.id in ClassesOf(u, {h});
      assert Settled(u, b.marked, d);
    }
    forall h | h in b.marked - a.marked ensures h in u.functions && BodyAnswered(u, h, b.marked) && h in b.list {
      assert Usable(u, h) && BodyDone(u, b.marked, h);
      forall g | CallFunction(g) in u.functions[h].calls && !u.functions[h].isDefault && g in u.functions && u.functions[g].hasNode
        ensures g in b.marked
      {
        assert Settled(u, b.marked, CallFunction(g).f);
      }
      assert h in b.list[|a.list|..];
    }
    forall g | g in b.marked - a.marked && g != f ensures AskedFor(u, CallFunction(f), g) {
      MarkedComes(u, a, b, CallFunction(f), g);
      ComesAsked(u, CallFunction(f), g);
    }
  }

  predicate BodyAnswered(u: Universe, h: FunctionId, marked: set<FunctionId>)
    requires h in u.functions
  {
    var info := u.functions[h];
    && info.hasNode && info.parent.TemplateType? && (info.isDefault || info.hasBodySource)
    && (info.isDefault ||
        forall t | t in info.calls && t.CallFunction? && t.f in u.functions && u.functions[t.f].hasNode :: t.f in marked)
  }

  /** `d` is the destructor of the class of `h`, and has a node. */
  predicate DestructorOf(u: Universe, h: FunctionId, d: FunctionId)
    requires h in u.functions
  {
    && u.functions[h].parent.TemplateType? && u.functions[h].parent.id in u.classes
    && u.classes[u.functions[h].parent.id].destructor == Some(d) && d in u.functions && u.functions[d].hasNode
  }

  // ---------------------------------------------------------------- the repository

  datatype Outcome = Success | Failure(f: FunctionId)

  class ClassTemplateRepository {
    const u: Universe
    const isPrebind: bool
    var instantiated: set<FunctionId>
    var memberFunctionSymbols: seq<FunctionId>
    var virtualFunctionsInstantiated: set<ClassId>
    var templateTypeSymbols: set<ClassId>
    var unchecked: set<ClassId>
    var recursed: bool
    var fileScopes: nat
    ghost var inner: set<FunctionId>

    constructor (u: Universe, isPrebind: bool, unchecked: set<ClassId>)
      ensures this.u == u && this.isPrebind == isPrebind && Valid()
      ensures S() == State({}, [], {}, {}, unchecked, false, 0, {})
    {
      this.u, this.isPrebind, this.unchecked := u, isPrebind, unchecked;
      instantiated, memberFunctionSymbols, virtualFunctionsInstantiated, templateTypeSymbols := {}, [], {}, {};
      recursed, fileScopes, inner := false, 0, {};
    }

    ghost function S(): State
      reads this
    {
      State(instantiated, memberFunctionSymbols, virtualFunctionsInstantiated, templateTypeSymbols, unchecked,
            recursed, fileScopes, inner)
    }

    ghost predicate Valid()
      reads this
    {
      inner <= instantiated
    }

    /** On a normal return `f` is settled and the run has kept everything; the flag is what it
        was, on an exception too.  It fails only for a fault that `f` leads to. */
    method Instantiate(f: FunctionId) returns (r: Outcome)
      requires Valid() && WellFormed(u) && f in u.functions
      modifies this
      ensures recursed == old(recursed)
      ensures isPrebind ==> r.Success? && Valid() && S() == old(S())
      ensures r.Success? && !isPrebind ==> Valid() && Ran(u, old(S()), S(), {}) && Settled(u, instantiated, f)
      ensures r.Success? && !isPrebind ==> From(u, old(S()), S(), CallFunction(f))
      ensures r.Success? && !isPrebind && !old(recursed) && f in instantiated - old(instantiated) ==> f in inner
      ensures r.Failure? ==> Blocked(u, old(S()), CallFunction(f), r.f)
      ensures r.Success? && !isPrebind ==> (u.functions[f].hasNode ==> f in instantiated)
      ensures r.Success? && !isPrebind ==>
                forall h | h in instantiated - old(instantiated) ::
                  h in u.functions && BodyAnswered(u, h, instantiated) && h in memberFunctionSymbols
      ensures r.Success? && !isPrebind && !old(recursed) && f !in old(instantiated) ==>
                forall d | DestructorOf(u, f, d) && f in instantiated :: d in instantiated
      ensures r.Success? && !isPrebind ==>
                forall g | g in instantiated - old(instantiated) && g != f :: AskedFor(u, CallFunction(f), g)
      decreases u.functions.Keys - instantiated, u.classes.Keys - virtualFunctionsInstantiated, 1
    {
      hide Ran, WellFormed, ClassesOf, BodyDone, VtblDone, DestructorDone, SweptBy, From, FromTail, Leads, Blocked, TailOf;
      if isPrebind { return Success; }
      ghost var a := S();
      RanNothing(u, a);
      FromNothing(u, a, a, CallFunction(f));
      if f in instantiated { return Success; }
      var info := u.functions[f];
      if !info.hasNode {
        if info.isDestructor { return Success; }
        BlockedAt(u, a, f);
        return Failure(f);
      }
      r := Mark(f);
      if r.Failure? { return; }
      ParentKnown(u, f);
      ghost var m := S();
      r := BindBody(f, a);
      if r.Failure? { return; }
      ghost var b := S();
      RanFacts(u, m, b, SweptBy(u, {f}));
      FromBody(u, a, b, f);
      r := RunTail(f, info.parent.id, a, m);
      if r.Failure? { return; }
      ghost var c := S();
      FromBodyAndTail(u, a, b, c, f);
      SettledStays(u, b.marked, c.marked);
      RanInstantiate(u, a, c, f);
      memberFunctionSymbols := memberFunctionSymbols + [f];
      FromNothing(u, c, S(), CallFunction(f));
      FromBoth(u, a, c, S(), CallFunction(f));
      InstantiationDone(u, a, S(), f);
      r := Success;
    }

    /** Marks `f` and checks the constraint of its class if that has not been done yet. */
    method Mark(f: FunctionId) returns (r: Outcome)
      requires Valid() && WellFormed(u) && f in u.functions && f !in instantiated && u.functions[f].hasNode
      modifies this
      ensures recursed == old(recursed)
      ensures r.Success? <==> u.functions[f].parent.TemplateType? && ConstraintsHold(u, old(unchecked) * ClassesOf(u, {f}))
      ensures r.Success? ==> Valid() && S() == Marked(u, old(S()), f)
      ensures r.Failure? ==> Blocked(u, old(S()), CallFunction(f), r.f)
    {
      hide WellFormed, ClassesOf, Blocked;
      var info := u.functions[f];
      instantiated := instantiated + {f};
      if !info.parent.TemplateType? {
        BlockedAt(u, old(S()), f);
        return Failure(f);
      }
      ParentKnown(u, f);
      var templateTypeSymbol := info.parent.id;
      templateTypeSymbols := templateTypeSymbols + {templateTypeSymbol};
      if templateTypeSymbol in unchecked {
        if !u.classes[templateTypeSymbol].satisfied {
          BlockedAt(u, old(S()), f);
          assert templateTypeSymbol in old(unchecked) * ClassesOf(u, {f});
          return Failure(f);
        }
        unchecked := unchecked - {templateTypeSymbol};
      }
      inner := inner + if recursed then {} else {f};
      r := Success;
    }

    /** Declares and binds the body of `f`, unless the function is a defaulted one; `a` is the
        state in which `f` was not yet marked. */
    method BindBody(f: FunctionId, ghost a: State) returns (r: Outcome)
      requires Valid() && WellFormed(u) && f in u.functions && !isPrebind && u.functions[f].hasNode
      requires Before(a) && f !in a.marked
      modifies this
      ensures recursed == old(recursed)
      ensures r.Success? ==> Valid() && Ran(u, old(S()), S(), SweptBy(u, {f})) && BodyDone(u, instantiated, f)
      ensures r.Success? ==> u.functions[f].isDefault || u.functions[f].hasBodySource
      ensures r.Success? ==> From(u, old(S()), S(), CallFunction(f))
      ensures r.Failure? ==> Blocked(u, a, CallFunction(f), r.f)
      decreases u.functions.Keys - instantiated, u.classes.Keys - virtualFunctionsInstantiated, 2
    {
      hide Ran, WellFormed, ClassesOf, BodyDone, SweptBy, From, SweptIn, CallsDone, Leads, Blocked;
      ghost var m, root := S(), CallFunction(f);
      FromNothing(u, m, m, root);
      if u.functions[f].isDefault {
        DefaultedNeedsNothing(u, f, instantiated);
        RanNothing(u, m);
        return Success;
      }
      if !u.functions[f].hasBodySource {
        BlockedAt(u, a, f);
        return Failure(f);
      }
      fileScopes := fileScopes + 1;
      ghost var start := S();
      var calls := u.functions[f].calls;
      RanNothing(u, start);
      FromNothing(u, m, start, root);
      AllCalls(u, instantiated, f);
      for i := 0 to |calls|
        invariant Valid() && recursed == old(recursed) && m.marked <= instantiated && m.inner <= inner
        invariant Ran(u, start, S(), SweptIn(calls[..i])) && CallsDone(u, instantiated, calls[..i])
        invariant From(u, m, S(), root) && Before(a)
        invariant instantiated >= start.marked && virtualFunctionsInstantiated >= start.swept
      {
        ghost var b := S();
        CallLeads(u, false, f, calls[i]);
        CallLeads(u, !a.recursed, f, calls[i]);
        match calls[i] {
          case CallFunction(g) =>
            r := Instantiate(g);
            if r.Failure? {
              BlockedBefore(u, a, b, root, calls[i], r.f);
              return;
            }
            RanFacts(u, b, S(), {});
            RanBoth(u, start, b, S(), SweptIn(calls[..i]), {});
          case SweepClass(c) =>
            r := InstantiateVirtualFunctionsFor(c);
            if r.Failure? {
              BlockedBefore(u, a, b, root, calls[i], r.f);
              return;
            }
            RanFacts(u, b, S(), {c});
            RanBoth(u, start, b, S(), SweptIn(calls[..i]), {c});
        }
        FromBefore(u, b, S(), root, calls[i]);
        FromBoth(u, m, b, S(), root);
        NextCall(u, b.marked, instantiated, calls, i);
      }
      assert calls[..|calls|] == calls;
      AllCalls(u, instantiated, f);
      ghost var b := S();
      RanScoped(u, m, b, SweptBy(u, {f}));
      fileScopes := fileScopes - 1;
      FromNothing(u, b, S(), root);
      FromBoth(u, m, b, S(), root);
      r := Success;
    }

    /** The repository has only gone on since state `a`. */
    ghost predicate Before(a: State)
      reads this
    {
      a.marked <= instantiated && a.swept <= virtualFunctionsInstantiated && unchecked <= a.unchecked && a.recursed == recursed
    }

    /** The destructor and the virtual functions of the class, unless this instantiation runs
        inside such a tail already. */
    method RunTail(f: FunctionId, templateTypeSymbol: ClassId, ghost a: State, ghost m: State) returns (r: Outcome)
      requires Valid() && WellFormed(u) && f in u.functions && !isPrebind && u.functions[f].hasNode
      requires u.functions[f].parent == TemplateType(templateTypeSymbol)
      requires templateTypeSymbol in u.classes && ClassesOf(u, {f}) == {templateTypeSymbol}
      requires Ran(u, m, S(), SweptBy(u, {f})) && Before(a)
      modifies this
      ensures recursed == old(recursed)
      ensures r.Success? ==> Valid() && FromTail(u, old(S()), S(), f)
      ensures r.Success? ==> inner == old(inner) && old(instantiated) <= instantiated
      ensures r.Success? ==>
                Ran(u, m, S(), SweptBy(u, {f}) + if old(recursed) then {} else ClassesOf(u, {f}))
      ensures r.Success? && !old(recursed) ==> DestructorDone(u, instantiated, f)
      ensures r.Failure? ==> Blocked(u, a, CallFunction(f), r.f)
      decreases u.functions.Keys - instantiated, u.classes.Keys - virtualFunctionsInstantiated, 2
    {
      hide Ran, WellFormed, ClassesOf, DestructorDone, SweptBy, From, Settled, Leads, Blocked, TailOf, ComesFromTail;
      ghost var b, c := S(), templateTypeSymbol;
      RanFacts(u, m, b, SweptBy(u, {f}));
      if recursed {
        assert SweptBy(u, {f}) + {} == SweptBy(u, {f});
        return Success;
      }
      TailLeads(u, f, c);
      recursed := true;
      ghost var d := S();
      RanNothing(u, d);
      if u.classes[templateTypeSymbol].destructor.Some? {
        var destructor := u.classes[templateTypeSymbol].destructor.value;
        FunctionsKnown(u, c);
        r := Instantiate(destructor);
        if r.Failure? {
          BlockedBefore(u, a, d, CallFunction(f), CallFunction(destructor), r.f);
          recursed := false;
          return;
        }
        RanFacts(u, d, S(), {});
        FromItsTail(u, d, S(), f, CallFunction(destructor));
      }
      ghost var e := S();
      RanFacts(u, d, e, {});
      r := InstantiateVirtualFunctionsFor(templateTypeSymbol);
      recursed := false;
      if r.Failure? {
        BlockedBefore(u, a, e, CallFunction(f), SweepClass(c), r.f);
        return;
      }
      ghost var g := S().(recursed := true);
      RanFacts(u, e, g, {c});
      FromItsTail(u, e, g, f, SweepClass(c));
      RanBoth(u, d, e, g, {}, {c});
      RanTail(u, m, b, g, SweptBy(u, {f}), {} + {c});
      assert SweptBy(u, {f}) + ({} + {c}) == SweptBy(u, {f}) + ClassesOf(u, {f});
      if u.classes[c].destructor.Some? {
        SettledLater(u, e.marked, g.marked, u.classes[c].destructor.value);
      }
      DestructorIsDone(u, f, instantiated, c);
    }

    /** Instantiates the virtual functions that the class defines, the first time it is asked to. */
    method InstantiateVirtualFunctionsFor(c: ClassId) returns (r: Outcome)
      requires Valid() && WellFormed(u) && c in u.classes && !isPrebind
      modifies this
      ensures recursed == old(recursed)
      ensures r.Success? ==> Valid() && Ran(u, old(S()), S(), {c})
      ensures r.Success? ==> From(u, old(S()), S(), SweepClass(c))
      ensures r.Failure? ==> Blocked(u, old(S()), SweepClass(c), r.f)
      ensures r.Success? && c !in old(virtualFunctionsInstantiated) ==>
                forall v | DefinesVirtual(u, c, v) && v in u.functions && u.functions[v].hasNode ::
                  v in instantiated && (v in old(instantiated) || v in memberFunctionSymbols)
      ensures r.Success? ==>
                forall v | v in instantiated - old(instantiated) && !DefinesVirtual(u, c, v) :: AskedFor(u, SweepClass(c), v)
      decreases u.functions.Keys - instantiated, u.classes.Keys - virtualFunctionsInstantiated, 1
    {
      hide Ran, WellFormed, ClassesOf, SweptBy, From, Leads, Blocked;
      ghost var a, root := S(), SweepClass(c);
      FromNothing(u, a, a, root);
      if c in virtualFunctionsInstantiated {
        RanNothing(u, a);
        RanAsked(u, a, a, {}, c);
        assert {} + {c} == {c};
        SweepDone(u, a, a, c);
        return Success;
      }
      virtualFunctionsInstantiated := virtualFunctionsInstantiated + {c};
      ghost var start := S();
      RanNothing(u, start);
      FromNothing(u, a, start, root);
      var vtbl := u.classes[c].vtbl;
      for i := 0 to |vtbl|
        invariant Valid() && recursed == old(recursed) && a.inner <= inner && unchecked <= a.unchecked
        invariant Ran(u, start, S(), {}) && From(u, a, S(), root)
        invariant instantiated >= start.marked && virtualFunctionsInstantiated >= start.swept
        invariant forall j :: 0 <= j < i && Own(u, c, vtbl[j]) ==> Settled(u, instantiated, vtbl[j].value)
        invariant forall j :: 0 <= j < i ==> !Parentless(u, vtbl[j])
      {
        if vtbl[i].Some? {
          var virtualFunction := vtbl[i].value;
          FunctionsKnown(u, c);
          var info := u.functions[virtualFunction];
          if info.parent.NoType? {
            BlockedHere(u, a, root, virtualFunction);
            return Failure(virtualFunction);
          }
          if info.parent.id == c {
            if !info.isAbstract {
              ghost var b := S();
              OwnLeads(u, c, i);
              r := Instantiate(virtualFunction);
              if r.Failure? {
                BlockedBefore(u, a, b, root, CallFunction(virtualFunction), r.f);
                return;
              }
              RanFacts(u, b, S(), {});
              RanBoth(u, start, b, S(), NONE, NONE);
              assert NONE + NONE == NONE;
              FromBefore(u, b, S(), root, CallFunction(virtualFunction));
              FromBoth(u, a, b, S(), root);
            }
          }
        }
      }
      RanSweep(u, a, S(), c);
      SweepDone(u, a, S(), c);
      r := Success;
    }
  }

  lemma OwnLeads(u: Universe, c: ClassId, i: nat)
    requires c in u.classes && i < |u.classes[c].vtbl| && Own(u, c, u.classes[c].vtbl[i])
    ensures forall tails :: Leads(u, tails, SweepClass(c), CallFunction(u.classes[c].vtbl[i].value))
  {
  }

  lemma TailLeads(u: Universe, f: FunctionId, c: ClassId)
    requires f in u.functions && u.functions[f].hasNode && u.functions[f].parent == TemplateType(c) && c in u.classes
    ensures SweepClass(c) in TailOf(u, f) && Leads(u, true, CallFunction(f), SweepClass(c))
    ensures u.classes[c].destructor.Some? ==>
              var d := CallFunction(u.classes[c].destructor.value); d in TailOf(u, f) && Leads(u, true, CallFunction(f), d)
  {
  }

  // ---------------------------------------------------------------- what holds at the end

  ghost predicate ListsMarked(s: State) {
    NoDuplicates(s.list) && forall f :: f in s.list <==> f in s.marked
  }

  /** Between outermost calls the list holds exactly the marked functions, each once. */
  lemma ListStaysComplete(u: Universe, a: State, b: State, asked: set<ClassId>)
    requires ListsMarked(a) && Ran(u, a, b, asked)
    ensures ListsMarked(b)
  {
    var more := b.list[|a.list|..];
    assert b.list == a.list + more;
    forall i, j | 0 <= i < j < |b.list| ensures b.list[i] != b.list[j] {
      if i < |a.list| <= j {
        assert b.list[i] in a.list && more[j - |a.list|] !in a.marked;
      }
    }
  }

  /** Nothing is left to do between outermost calls: for marked functions the bodies' needs,
      for swept classes their own virtual functions, and for the functions marked outside a
      tail the destructor and the sweep of their class. */
  ghost predicate Complete(u: Universe, s: State) {
    && (forall f :: f in s.marked ==> Usable(u, f) && BodyDone(u, s.marked, f))
    && (forall c :: c in s.swept ==> VtblDone(u, s.marked, c))
    && (forall f :: f in s.inner ==> DestructorDone(u, s.marked, f))
    && ClassesOf(u, s.inner) <= s.swept && SweptBy(u, s.marked) <= s.swept
  }

  lemma StaysComplete(u: Universe, a: State, b: State, asked: set<ClassId>)
    requires Complete(u, a) && Ran(u, a, b, asked)
    ensures Complete(u, b)
  {
    hide BodyDone, VtblDone, DestructorDone, Usable, ClassesOf, SweptBy, Listed, ConstraintsHold;
    SettledStays(u, a.marked, b.marked);
    assert b.marked == a.marked + (b.marked - a.marked) && b.inner == a.inner + (b.inner - a.inner);
    SetsJoin(u, a.marked, b.marked - a.marked);
    SetsJoin(u, a.inner, b.inner - a.inner);
  }

  /** What the destructor of the class of `f` needs is instantiated. */
  lemma TailReaches(u: Universe, a: State, b: State, asked: set<ClassId>, f: FunctionId, d: FunctionId, g: FunctionId)
    requires Ran(u, a, b, asked) && f in b.inner - a.inner && d !in a.marked
    requires f in u.functions && u.functions[f].parent.TemplateType? && u.functions[f].parent.id in u.classes
    requires u.classes[u.functions[f].parent.id].destructor == Some(d) && d in u.functions && u.functions[d].hasNode
    requires CallFunction(g) in CallsOf(u, d) && g in u.functions && u.functions[g].hasNode
    ensures g in b.marked
  {
    hide Listed, SweptBy;
    assert DestructorDone(u, b.marked, f) && u.functions[f].parent.id in ClassesOf(u, {f});
    assert Settled(u, b.marked, d) && BodyDone(u, b.marked, d);
    assert Settled(u, b.marked, g);
  }

  // ---------------------------------------------------------------- when a run succeeds

  /** What has been asked for is done. */
  predicate Answered(u: Universe, s: State, t: Call) {
    match t
    case CallFunction(f) => Settled(u, s.marked, f)
    case SweepClass(c) => c in s.swept
  }

  /** In a fresh repository, everything that bodies lead to from an answered call is answered. */
  lemma {:induction false} AllAnswered(u: Universe, a: State, b: State, walk: seq<Call>)
    requires WellFormed(u) && a.marked == {} && a.swept == {} && Ran(u, a, b, {})
    requires IsWalk(Leading(u, false), walk) && Answered(u, b, walk[0])
    ensures Answered(u, b, walk[|walk| - 1])
    decreases |walk|
  {
    hide Ran, WellFormed, Settled;
    if |walk| > 1 {
      assert Leading(u, false)(walk[0], walk[1]);
      NextAnswered(u, a, b, walk[0], walk[1]);
      WalkSuffix(Leading(u, false), walk, 1);
      AllAnswered(u, a, b, walk[1..]);
    }
  }

  lemma NextAnswered(u: Universe, a: State, b: State, s: Call, t: Call)
    requires WellFormed(u) && a.marked == {} && a.swept == {} && Ran(u, a, b, {})
    requires Leads(u, false, s, t) && Answered(u, b, s)
    ensures Answered(u, b, t)
  {
    hide WellFormed, ClassesOf, Listed, ConstraintsHold, DestructorDone;
    if s.CallFunction? {
      assert s.f in b.marked - a.marked;
      if t.SweepClass? {
        assert t.c in SweptBy(u, b.marked - a.marked);
      }
    } else {
      assert s.c in b.swept - a.swept;
      assert VtblDone(u, b.marked, s.c);
    }
  }

  /** A run of a fresh repository that ends normally has met no fault: nothing that bodies lead
      to would fail.  (It can only fail for a fault that bodies or tails lead to.) */
  lemma NothingBlocks(u: Universe, a: State, b: State, root: Call, f: FunctionId)
    requires WellFormed(u) && a.marked == {} && a.swept == {} && Ran(u, a, b, {}) && Answered(u, b, root)
    ensures !Blocked(u, a.(recursed := true), root, f)
  {
    hide Ran, WellFormed, Settled, Answered, Blocks;
    if Blocked(u, a.(recursed := true), root, f) {
      var t :| Comes(u, false, root, t) && Blocks(u, a.(recursed := true), t, f);
      var walk :| WalkFromTo(Leading(u, false), walk, root, t);
      AllAnswered(u, a, b, walk);
      AnsweredUnblocked(u, a, b, t, f);
    }
  }

  lemma AnsweredUnblocked(u: Universe, a: State, b: State, t: Call, f: FunctionId)
    requires a.marked == {} && a.swept == {} && Ran(u, a, b, {}) && Answered(u, b, t)
    ensures !Blocks(u, a.(recursed := true), t, f)
  {
    hide Listed, DestructorDone, SweptBy, BodyDone;
    match t
    case CallFunction(g) =>
      if g in b.marked - a.marked && u.functions[g].parent.id in u.classes {
        assert u.functions[g].parent.id in ClassesOf(u, b.marked - a.marked);
      }
    case SweepClass(c) =>
      assert c in b.swept - a.swept;
      assert VtblDone(u, b.marked, c);
  }

  // ---------------------------------------------------------------- which classes are swept

  /** Every class that is swept is the class of a function that bodies lead to from `root`, or
      is asked for by the body of a function that bodies and tails lead to. */
  lemma SweptForAReason(u: Universe, a: State, b: State, root: Call, c: ClassId)
    requires Ran(u, a, b, {}) && From(u, a, b, root) && c in b.swept - a.swept
    ensures (exists f :: Comes(u, false, root, CallFunction(f)) && c in ClassesOf(u, {f})) ||
            (exists f :: Comes(u, true, root, CallFunction(f)) && c in SweptBy(u, {f}))
  {
    hide Listed, ConstraintsHold, DestructorDone, VtblDone, BodyDone, Comes, ComesFromTail;
    if c in ClassesOf(u, b.inner - a.inner) {
      var f :| f in b.inner - a.inner && c in ClassesOf(u, {f});
      assert Comes(u, false, root, CallFunction(f));
    } else {
      var f :| f in b.marked - a.marked && c in SweptBy(u, {f});
      MarkedComes(u, a, b, root, f);
    }
  }

  lemma MarkedComes(u: Universe, a: State, b: State, root: Call, g: FunctionId)
    requires From(u, a, b, root) && g in b.marked - a.marked
    ensures Comes(u, true, root, CallFunction(g))
  {
    hide Comes, ComesFromTail;
    if g in b.inner - a.inner || a.recursed {
      ComesWider(u, root, CallFunction(g));
    } else {
      var f :| f in b.inner - a.inner && ComesFromTail(u, f, g);
      ComesThroughTail(u, root, f, g);
    }
  }

  /** The tails of the functions that bodies lead to from `root` need no functions of other
      classes, but for classes that are swept already. */
  ghost predicate TailsStayAtHome(u: Universe, swept: set<ClassId>, root: Call) {
    forall f, g :: Comes(u, false, root, CallFunction(f)) && ComesFromTail(u, f, g) ==>
                     ClassesOf(u, {g}) <= ClassesOf(u, {f}) + swept
  }

  /** If no tail leaves its class, the class of every instantiated function is swept. */
  lemma TailsAtHomeSweepAll(u: Universe, a: State, b: State, root: Call)
    requires !a.recursed && Ran(u, a, b, {}) && From(u, a, b, root) && TailsStayAtHome(u, a.swept, root)
    ensures ClassesOf(u, b.marked - a.marked) <= b.swept
  {
    hide Listed, ConstraintsHold, DestructorDone, VtblDone, BodyDone, Comes, ComesFromTail;
    forall c | c in ClassesOf(u, b.marked - a.marked) ensures c in b.swept {
      var g :| g in b.marked - a.marked && c in ClassesOf(u, {g});
      if g in b.inner - a.inner {
        assert ClassesOf(u, {g}) <= ClassesOf(u, b.inner - a.inner);
      } else {
        var f :| f in b.inner - a.inner && ComesFromTail(u, f, g);
        assert Comes(u, false, root, CallFunction(f));
        assert ClassesOf(u, {f}) <= ClassesOf(u, b.inner - a.inner);
      }
    }
  }

  /** A class that nothing asks for and that bodies lead to no function of is not swept, even if
      a tail instantiates its functions. */
  lemma TailsAwaySkip(u: Universe, a: State, b: State, root: Call, c: ClassId)
    requires Ran(u, a, b, {}) && From(u, a, b, root) && c !in a.swept
    requires forall f :: Comes(u, false, root, CallFunction(f)) ==> c !in ClassesOf(u, {f})
    requires forall f :: Comes(u, true, root, CallFunction(f)) ==> c !in SweptBy(u, {f})
    ensures c !in b.swept
  {
    hide Ran, From, Comes, ClassesOf, SweptBy;
    if c in b.swept {
      SweptForAReason(u, a, b, root, c);
    }
  }

  /** If the body of `f` needs nothing and no body asks for a sweep, then only the class of `f`
      is swept. */
  lemma OnlyItsClassIsSwept(u: Universe, a: State, b: State, f: FunctionId)
    requires Ran(u, a, b, {}) && From(u, a, b, CallFunction(f)) && CallsOf(u, f) == []
    requires forall g, t :: g in b.marked && t in CallsOf(u, g) ==> !t.SweepClass?
    ensures b.swept - a.swept <= ClassesOf(u, {f})
  {
    hide BodyDone, VtblDone, DestructorDone, Usable, Listed, ConstraintsHold, ComesFromTail;
    assert SweptBy(u, b.marked - a.marked) == {};
    forall g | g in b.inner - a.inner ensures g == f {
      assert Comes(u, false, CallFunction(f), CallFunction(g));
      assert Closed(Leading(u, false), {CallFunction(f)});
      ClosedUnderReachable(Leading(u, false), {CallFunction(f)}, CallFunction(f), CallFunction(g));
    }
    assert ClassesOf(u, b.inner - a.inner) <= ClassesOf(u, {f});
  }

  /** The flag hides one case.  A function of another class that is only needed by the
      destructor is instantiated inside the tail, and its own class is not swept. */
  const SKIPPING := Universe(
    map["A.f" := FunctionInfo(TemplateType("A"), true, false, false, false, true, []),
        "A.~A" := FunctionInfo(TemplateType("A"), true, true, false, false, true, [CallFunction("D.g")]),
        "D.g" := FunctionInfo(TemplateType("D"), true, false, false, false, true, []),
        "D.v" := FunctionInfo(TemplateType("D"), true, false, false, false, true, [])],
    map["A" := ClassInfo(Some("A.~A"), [], true), "D" := ClassInfo(None, [Some("D.v")], true)])

  const INITIAL := State({}, [], {}, {}, {}, false, 0, {})

  lemma SkippingWellFormed()
    ensures WellFormed(SKIPPING) && "A.f" in SKIPPING.functions && SKIPPING.functions["A.f"].hasNode
  {
  }

  /** Nothing in this universe blocks a run. */
  lemma NoFaults(a: State, root: Call, f: FunctionId)
    requires a.unchecked == {}
    ensures !Blocked(SKIPPING, a, root, f)
  {
    hide Comes;
    forall t ensures !Blocks(SKIPPING, a, t, f) {
    }
  }

  /** The call for `A.f` ends normally, with a function of `D` instantiated and `D` not swept. */
  method SweepCanBeSkipped() returns (instantiated: bool, swept: bool)
    ensures instantiated && !swept
  {
    hide Ran, From, Blocked, WellFormed;
    var repository := new ClassTemplateRepository(SKIPPING, false, {});
    SkippingWellFormed();
    var r := repository.Instantiate("A.f");
    if r.Failure? {
      NoFaults(INITIAL, CallFunction("A.f"), r.f);
    }
    ghost var b := repository.S();
    TailReaches(SKIPPING, INITIAL, b, {}, "A.f", "A.~A", "D.g");
    OnlyItsClassIsSwept(SKIPPING, INITIAL, b, "A.f");
    assert ClassesOf(SKIPPING, {"A.f"}) <= {"A"};
    assert b.swept - INITIAL.swept == b.swept;
    instantiated, swept := "D.g" in repository.instantiated, "D" in repository.virtualFunctionsInstantiated;
  }
}
