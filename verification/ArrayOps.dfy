/** The bodies that the compiler generates for array operations
    (Cm.Bind/ArrayTypeOpRepository.cpp): default construction, copy construction and copy
    assignment of all elements of an array.

    The generated syntax trees are run by a small interpreter, whose memory holds elements at
    addresses and which records every access to an element. */
module ArrayOps {

  // ---------------------------------------------------------------- the generated syntax

  datatype Expression =
    | Identifier(name: string)
    | This
    | IntLiteral(value: int)
    | Deref(operand: Expression)
    | Greater(left: Expression, right: Expression)
    | PrefixInc(operand: Expression)
    | PrefixDec(operand: Expression)
    | Invoke(typeName: string, arguments: seq<Expression>)
    | Construct(typeName: string, arguments: seq<Expression>)

  datatype Statement =
    | Compound(statements: seq<Statement>)
    | ConstructInt(name: string, argument: Expression)
    | Simple(expression: Expression)
    | While(condition: Expression, body: Statement)
    | Assignment(target: Expression, source: Expression)

  // ---------------------------------------------------------------- running it

  /** The element type: what default construction gives, and what copying a value gives. */
  datatype ElementType<!E> = ElementType(name: string, default_: E, copy: E -> E)

  datatype Value<+E> = IntValue(i: int) | BoolValue(b: bool) | Pointer(address: int) | Element(e: E) | NoValue

  datatype Event<+E> = Constructed(address: int, e: E) | Assigned(address: int, e: E) | Fetched(address: int)

  datatype State<+E> = State(variables: map<string, Value<E>>, memory: map<int, E>, trace: seq<Event<E>>)

  datatype Evaluated<+E> = Is(value: Value<E>, state: State<E>) | NotDefined

  datatype Outcome<+E> = Done(state: State<E>) | Stuck | OutOfFuel

  /** The value of a 32-bit signed variable. */
  function Int32(i: int): int {
    (i + 0x8000_0000) % 0x1_0000_0000 - 0x8000_0000
  }

  function VariableName(e: Expression): string {
    if e.Identifier? then e.name else "this"
  }

  /** `++` and `--` step an integer variable or a pointer variable. */
  function Step<E>(e: Expression, step: int, st: State<E>): Evaluated<E> {
    var x := VariableName(e);
    if !(e.Identifier? || e.This?) || x !in st.variables then NotDefined
    else
      match st.variables[x]
      case IntValue(i) => Is(IntValue(Int32(i + step)), st.(variables := st.variables[x := IntValue(Int32(i + step))]))
      case Pointer(a) => Is(Pointer(a + step), st.(variables := st.variables[x := Pointer(a + step)]))
      case _ => NotDefined
  }

  function Evaluate<E>(t: ElementType<E>, e: Expression, st: State<E>): Evaluated<E> {
    match e
    case Identifier(x) => if x in st.variables then Is(st.variables[x], st) else NotDefined
    case This => if "this" in st.variables then Is(st.variables["this"], st) else NotDefined
    case IntLiteral(i) => Is(IntValue(Int32(i)), st)
    case Deref(p) =>
      var v := Evaluate(t, p, st);
      if v.Is? && v.value.Pointer? && v.value.address in v.state.memory then
        Is(Element(v.state.memory[v.value.address]),
              v.state.(trace := v.state.trace + [Fetched(v.value.address)]))
      else NotDefined
    case Greater(l, r) =>
      var v := Evaluate(t, l, st);
      if v.NotDefined? then NotDefined
      else
        var w := Evaluate(t, r, v.state);
        if w.Is? && v.value.IntValue? && w.value.IntValue? then Is(BoolValue(v.value.i > w.value.i), w.state)
        else NotDefined
    case PrefixInc(x) => Step(x, 1, st)
    case PrefixDec(x) => Step(x, -1, st)
    case Invoke(name, arguments) =>
      if name != t.name then NotDefined
      else if arguments == [] then Is(Element(t.default_), st)
      else if |arguments| == 1 then
        var v := Evaluate(t, arguments[0], st);
        if v.Is? && v.value.Element? then Is(Element(t.copy(v.value.e)), v.state) else NotDefined
      else NotDefined
    case Construct(name, arguments) =>
      if name != t.name || |arguments| != 2 then NotDefined
      else
        var p := Evaluate(t, arguments[0], st);
        if p.NotDefined? then NotDefined
        else
          var v := Evaluate(t, arguments[1], p.state);
          if v.Is? && p.value.Pointer? && v.value.Element? then
            Is(NoValue, v.state.(memory := v.state.memory[p.value.address := v.value.e],
                                    trace := v.state.trace + [Constructed(p.value.address, v.value.e)]))
          else NotDefined
  }

  /** Runs a statement; `fuel` bounds the turns of each loop. */
  function Execute<E>(t: ElementType<E>, fuel: nat, s: Statement, st: State<E>): Outcome<E>
    decreases fuel, s
  {
    match s
    case Compound(statements) => ExecuteAll(t, fuel, statements, st)
    case ConstructInt(x, argument) =>
      var v := Evaluate(t, argument, st);
      if v.Is? && v.value.IntValue? then Done(v.state.(variables := v.state.variables[x := v.value])) else Stuck
    case Simple(e) =>
      var v := Evaluate(t, e, st);
      if v.Is? then Done(v.state) else Stuck
    case While(condition, body) =>
      var v := Evaluate(t, condition, st);
      if !(v.Is? && v.value.BoolValue?) then Stuck
      else if !v.value.b then Done(v.state)
      else if fuel == 0 then OutOfFuel
      else
        var r := Execute(t, fuel, body, v.state);
        if r.Done? then Execute(t, fuel - 1, s, r.state) else r
    case Assignment(target, source) =>
      var v := Evaluate(t, source, st);
      if !(v.Is? && v.value.Element? && target.Deref?) then Stuck
      else
        var p := Evaluate(t, target.operand, v.state);
        if p.Is? && p.value.Pointer? && p.value.address in p.state.memory then
          Done(p.state.(memory := p.state.memory[p.value.address := t.copy(v.value.e)],
                        trace := p.state.trace + [Assigned(p.value.address, t.copy(v.value.e))]))
        else Stuck
  }

  function ExecuteAll<E>(t: ElementType<E>, fuel: nat, ss: seq<Statement>, st: State<E>): Outcome<E>
    decreases fuel, ss
  {
    if ss == [] then Done(st)
    else
      var r := Execute(t, fuel, ss[0], st);
      if r.Done? then ExecuteAll(t, fuel, ss[1..], r.state) else r
  }

  // ---------------------------------------------------------------- the loops that are generated

  const I := Identifier("i")
  const THAT := Identifier("that")

  function LoopOver(n: int, turn: seq<Statement>): Statement {
    Compound([ConstructInt("i", IntLiteral(n)), While(Greater(I, IntLiteral(0)), Compound(turn))])
  }

  function ConstructTurn(elementType: string): seq<Statement> {
    [Simple(Construct(elementType, [This, Invoke(elementType, [])])), Simple(PrefixInc(This)), Simple(PrefixDec(I))]
  }

  function CopyConstructTurn(elementType: string): seq<Statement> {
    [Simple(Construct(elementType, [This, Invoke(elementType, [Deref(THAT)])])),
     Simple(PrefixInc(This)), Simple(PrefixInc(THAT)), Simple(PrefixDec(I))]
  }

  function AssignTurn(): seq<Statement> {
    [Assignment(Deref(Identifier("this")), Deref(THAT)),
     Simple(PrefixInc(This)), Simple(PrefixInc(THAT)), Simple(PrefixDec(I))]
  }

  // ---------------------------------------------------------------- one turn

  lemma RunThree<E>(t: ElementType<E>, fuel: nat, ss: seq<Statement>, st: State<E>, a: State<E>, b: State<E>)
    requires |ss| == 3
    requires Execute(t, fuel, ss[0], st) == Done(a) && Execute(t, fuel, ss[1], a) == Done(b)
    ensures ExecuteAll(t, fuel, ss, st) == Execute(t, fuel, ss[2], b)
  {
    assert ss[1..][0] == ss[1] && ss[1..][1..][0] == ss[2] && ss[1..][1..][1..] == [];
    assert ExecuteAll(t, fuel, ss, st) == ExecuteAll(t, fuel, ss[1..], a);
    assert ExecuteAll(t, fuel, ss[1..], a) == ExecuteAll(t, fuel, ss[1..][1..], b);
  }

  lemma RunFour<E>(t: ElementType<E>, fuel: nat, ss: seq<Statement>, st: State<E>, a: State<E>, b: State<E>, c: State<E>)
    requires |ss| == 4
    requires Execute(t, fuel, ss[0], st) == Done(a) && Execute(t, fuel, ss[1], a) == Done(b)
    requires Execute(t, fuel, ss[2], b) == Done(c)
    ensures ExecuteAll(t, fuel, ss, st) == Execute(t, fuel, ss[3], c)
  {
    assert ExecuteAll(t, fuel, ss, st) == ExecuteAll(t, fuel, ss[1..], a);
    RunThree(t, fuel, ss[1..], a, b, c);
  }

  /** The variables and the memory of a loop with `r` turns to go. */
  ghost predicate AtLoop<E>(st: State<E>, p: int, r: nat) {
    && r < 0x8000_0000
    && "this" in st.variables && st.variables["this"] == Pointer(p)
    && "i" in st.variables && st.variables["i"] == IntValue(r)
  }

  ghost predicate ThatAt<E>(st: State<E>, q: int) {
    "that" in st.variables && st.variables["that"] == Pointer(q)
  }

  /** The element at `p` is written, and its address and the count move on. */
  ghost predicate Turned<E>(st: State<E>, next: State<E>, p: int, r: nat, e: E, events: seq<Event<E>>)
  {
    && AtLoop(next, p + 1, r)
    && next.memory == st.memory[p := e]
    && next.trace == st.trace + events
  }

  /** Placing the value of `e` at the address that `this` holds. */
  lemma PlaceAtThis<E>(t: ElementType<E>, st: State<E>, p: int, e: Expression, v: E, after: State<E>)
    requires "this" in st.variables && st.variables["this"] == Pointer(p)
    requires Evaluate(t, e, st) == Is(Element(v), after)
    ensures Evaluate(t, Construct(t.name, [This, e]), st) ==
            Is(NoValue, after.(memory := after.memory[p := v], trace := after.trace + [Constructed(p, v)]))
  {
    assert Evaluate(t, This, st) == Is(Pointer(p), st);
  }

  lemma FetchThat<E>(t: ElementType<E>, st: State<E>, q: int)
    requires ThatAt(st, q) && q in st.memory
    ensures Evaluate(t, Deref(THAT), st) == Is(Element(st.memory[q]), st.(trace := st.trace + [Fetched(q)]))
  {
    assert Evaluate(t, THAT, st) == Is(Pointer(q), st);
  }

  lemma CountDown(r: nat)
    requires 0 < r < 0x8000_0000
    ensures Int32(r) == r && Int32(r - 1) == r - 1
  {
  }

  lemma ConstructOnce<E>(t: ElementType<E>, fuel: nat, st: State<E>, p: int, r: nat) returns (next: State<E>)
    requires AtLoop(st, p, r) && r > 0
    ensures ExecuteAll(t, fuel, ConstructTurn(t.name), st) == Done(next)
    ensures Turned(st, next, p, r - 1, t.default_, [Constructed(p, t.default_)])
  {
    CountDown(r);
    var ss := ConstructTurn(t.name);
    var a := st.(memory := st.memory[p := t.default_], trace := st.trace + [Constructed(p, t.default_)]);
    var b := a.(variables := a.variables["this" := Pointer(p + 1)]);
    next := b.(variables := b.variables["i" := IntValue(r - 1)]);
    PlaceAtThis(t, st, p, Invoke(t.name, []), t.default_, st);
    RunThree(t, fuel, ss, st, a, b);
  }

  lemma CopyConstructOnce<E>(t: ElementType<E>, fuel: nat, st: State<E>, p: int, q: int, r: nat)
    returns (next: State<E>)
    requires AtLoop(st, p, r) && ThatAt(st, q) && r > 0 && q in st.memory
    ensures ExecuteAll(t, fuel, CopyConstructTurn(t.name), st) == Done(next) && ThatAt(next, q + 1)
    ensures var e := t.copy(st.memory[q]); Turned(st, next, p, r - 1, e, [Fetched(q), Constructed(p, e)])
  {
    CountDown(r);
    var ss := CopyConstructTurn(t.name);
    var e := t.copy(st.memory[q]);
    var a := st.(memory := st.memory[p := e], trace := st.trace + [Fetched(q), Constructed(p, e)]);
    assert Execute(t, fuel, ss[0], st) == Done(a) by {
      FetchThat(t, st, q);
      var after := st.(trace := st.trace + [Fetched(q)]);
      assert Evaluate(t, Invoke(t.name, [Deref(THAT)]), st) == Is(Element(e), after);
      PlaceAtThis(t, st, p, Invoke(t.name, [Deref(THAT)]), e, after);
      assert after.trace + [Constructed(p, e)] == st.trace + [Fetched(q), Constructed(p, e)];
    }
    var b := a.(variables := a.variables["this" := Pointer(p + 1)]);
    var c := b.(variables := b.variables["that" := Pointer(q + 1)]);
    next := c.(variables := c.variables["i" := IntValue(r - 1)]);
    RunFour(t, fuel, ss, st, a, b, c);
  }

  lemma AssignOnce<E>(t: ElementType<E>, fuel: nat, st: State<E>, p: int, q: int, r: nat)
    returns (next: State<E>)
    requires AtLoop(st, p, r) && ThatAt(st, q) && r > 0 && q in st.memory && p in st.memory
    ensures ExecuteAll(t, fuel, AssignTurn(), st) == Done(next) && ThatAt(next, q + 1)
    ensures var e := t.copy(st.memory[q]); Turned(st, next, p, r - 1, e, [Fetched(q), Assigned(p, e)])
  {
    CountDown(r);
    var ss := AssignTurn();
    var e := t.copy(st.memory[q]);
    var a := st.(memory := st.memory[p := e], trace := st.trace + [Fetched(q), Assigned(p, e)]);
    assert Execute(t, fuel, ss[0], st) == Done(a) by {
      FetchThat(t, st, q);
      var after := st.(trace := st.trace + [Fetched(q)]);
      assert Evaluate(t, Identifier("this"), after) == Is(Pointer(p), after);
      assert after.trace + [Assigned(p, e)] == st.trace + [Fetched(q), Assigned(p, e)];
    }
    var b := a.(variables := a.variables["this" := Pointer(p + 1)]);
    var c := b.(variables := b.variables["that" := Pointer(q + 1)]);
    next := c.(variables := c.variables["i" := IntValue(r - 1)]);
    RunFour(t, fuel, ss, st, a, b, c);
  }

  // ---------------------------------------------------------------- whole loops

  ghost predicate Holds<E>(memory: map<int, E>, p: int, n: nat) {
    forall a :: p <= a < p + n ==> a in memory
  }

  /** Memory after `n` copies from `q` to `p`, one element after the other. */
  ghost function Copied<E>(copy: E -> E, memory: map<int, E>, p: int, q: int, n: nat): map<int, E>
    requires Holds(memory, q, n)
    decreases n
  {
    if n == 0 then memory
    else
      assert q in memory;
      Copied(copy, memory[p := copy(memory[q])], p + 1, q + 1, n - 1)
  }

  datatype CopyKind = Constructing | Assigning

  function Write<E>(kind: CopyKind, p: int, e: E): Event<E> {
    match kind
    case Constructing => Constructed(p, e)
    case Assigning => Assigned(p, e)
  }

  ghost function CopyEvents<E>(kind: CopyKind, copy: E -> E, memory: map<int, E>, p: int, q: int, n: nat): seq<Event<E>>
    requires Holds(memory, q, n)
    decreases n
  {
    if n == 0 then []
    else
      assert q in memory;
      var e := copy(memory[q]);
      [Fetched(q), Write(kind, p, e)] + CopyEvents(kind, copy, memory[p := e], p + 1, q + 1, n - 1)
  }

  ghost function Filled<E>(e: E, memory: map<int, E>, p: int, n: nat): map<int, E>
    decreases n
  {
    if n == 0 then memory else Filled(e, memory[p := e], p + 1, n - 1)
  }

  function ConstructEvents<E>(e: E, p: int, n: nat): seq<Event<E>> {
    seq(n, k => Constructed(p + k, e))
  }

  function CopyTurn(kind: CopyKind, elementType: string): seq<Statement> {
    match kind
    case Constructing => CopyConstructTurn(elementType)
    case Assigning => AssignTurn()
  }

  /** One turn of a loop whose condition holds, and one whose condition does not. */
  lemma LoopStep<E>(t: ElementType<E>, fuel: nat, turn: seq<Statement>, st: State<E>, p: int, r: nat)
    requires AtLoop(st, p, r)
    ensures var loop := While(Greater(I, IntLiteral(0)), Compound(turn));
            && (r == 0 ==> Execute(t, fuel, loop, st) == Done(st))
            && (r > 0 && fuel > 0 ==>
                  var once := ExecuteAll(t, fuel, turn, st);
                  once.Done? ==> Execute(t, fuel, loop, st) == Execute(t, fuel - 1, loop, once.state))
  {
    assert Evaluate(t, I, st) == Is(IntValue(r), st);
    assert Evaluate(t, IntLiteral(0), st) == Is(IntValue(0), st);
    assert Evaluate(t, Greater(I, IntLiteral(0)), st) == Is(BoolValue(r > 0), st);
    if r > 0 && fuel > 0 {
      assert Execute(t, fuel, Compound(turn), st) == ExecuteAll(t, fuel, turn, st);
    }
  }

  lemma {:induction false} ConstructLoop<E>(t: ElementType<E>, fuel: nat, st: State<E>, p: int, r: nat)
    returns (next: State<E>)
    requires AtLoop(st, p, r) && fuel >= r
    ensures Execute(t, fuel, While(Greater(I, IntLiteral(0)), Compound(ConstructTurn(t.name))), st) == Done(next)
    ensures next.memory == Filled(t.default_, st.memory, p, r)
    ensures next.trace == st.trace + ConstructEvents(t.default_, p, r)
    decreases r
  {
    LoopStep(t, fuel, ConstructTurn(t.name), st, p, r);
    if r == 0 {
      next := st;
    } else {
      var once := ConstructOnce(t, fuel, st, p, r);
      next := ConstructLoop(t, fuel - 1, once, p + 1, r - 1);
      assert ConstructEvents(t.default_, p, r) ==
             [Constructed(p, t.default_)] + ConstructEvents(t.default_, p + 1, r - 1);
    }
  }

  lemma CopyOnce<E>(kind: CopyKind, t: ElementType<E>, fuel: nat, st: State<E>, p: int, q: int, r: nat)
    returns (next: State<E>)
    requires AtLoop(st, p, r) && ThatAt(st, q) && r > 0 && q in st.memory
    requires kind.Assigning? ==> p in st.memory
    ensures ExecuteAll(t, fuel, CopyTurn(kind, t.name), st) == Done(next) && ThatAt(next, q + 1)
    ensures var e := t.copy(st.memory[q]); Turned(st, next, p, r - 1, e, [Fetched(q), Write(kind, p, e)])
  {
    match kind
    case Constructing => next := CopyConstructOnce(t, fuel, st, p, q, r);
    case Assigning => next := AssignOnce(t, fuel, st, p, q, r);
  }

  lemma {:induction false} CopyLoop<E>(kind: CopyKind, t: ElementType<E>, fuel: nat, st: State<E>, p: int, q: int, r: nat)
    returns (next: State<E>)
    requires AtLoop(st, p, r) && ThatAt(st, q) && fuel >= r && Holds(st.memory, q, r)
    requires kind.Assigning? ==> Holds(st.memory, p, r)
    ensures Execute(t, fuel, While(Greater(I, IntLiteral(0)), Compound(CopyTurn(kind, t.name))), st) == Done(next)
    ensures next.memory == Copied(t.copy, st.memory, p, q, r)
    ensures next.trace == st.trace + CopyEvents(kind, t.copy, st.memory, p, q, r)
    decreases r
  {
    LoopStep(t, fuel, CopyTurn(kind, t.name), st, p, r);
    if r == 0 {
      next := st;
    } else {
      assert q in st.memory && (kind.Assigning? ==> p in st.memory);
      var once := CopyOnce(kind, t, fuel, st, p, q, r);
      next := CopyLoop(kind, t, fuel - 1, once, p + 1, q + 1, r - 1);
    }
  }

  // ---------------------------------------------------------------- what the loops achieve

  /** Only the `n` cells from `p` on may differ, and all of them hold elements afterwards. */
  ghost predicate WritesOnly<E>(before: map<int, E>, after: map<int, E>, p: int, n: nat) {
    && (forall a :: a in after <==> a in before || p <= a < p + n)
    && (forall a :: a in before && !(p <= a < p + n) ==> after[a] == before[a])
  }

  lemma {:induction false} FilledCells<E>(e: E, memory: map<int, E>, p: int, n: nat)
    ensures WritesOnly(memory, Filled(e, memory, p, n), p, n)
    ensures forall a :: p <= a < p + n ==> Filled(e, memory, p, n)[a] == e
    decreases n
  {
    if n > 0 {
      FilledCells(e, memory[p := e], p + 1, n - 1);
    }
  }

  lemma {:induction false} CopiedWritesOnly<E>(copy: E -> E, memory: map<int, E>, p: int, q: int, n: nat)
    requires Holds(memory, q, n)
    ensures WritesOnly(memory, Copied(copy, memory, p, q, n), p, n)
    decreases n
  {
    if n > 0 {
      CopiedWritesOnly(copy, memory[p := copy(memory[q])], p + 1, q + 1, n - 1);
    }
  }

  /** The destination does not begin inside the source, after its start. */
  predicate CopySafe(p: int, q: int, n: nat) {
    !(q < p < q + n)
  }

  /** Then every element arrives, whether or not the two arrays overlap. */
  lemma {:induction false} CopiedCells<E>(copy: E -> E, memory: map<int, E>, p: int, q: int, n: nat, k: nat)
    requires Holds(memory, q, n) && CopySafe(p, q, n) && k < n
    ensures WritesOnly(memory, Copied(copy, memory, p, q, n), p, n)
    ensures Copied(copy, memory, p, q, n)[p + k] == copy(memory[q + k])
    decreases n
  {
    CopiedWritesOnly(copy, memory, p, q, n);
    var once := memory[p := copy(memory[q])];
    if k == 0 {
      CopiedWritesOnly(copy, once, p + 1, q + 1, n - 1);
    } else {
      CopiedCells(copy, once, p + 1, q + 1, n - 1, k - 1);
    }
  }

  /** Otherwise the first element is copied a second time where another should have been. */
  lemma {:induction false} CopiedOverlap<E>(copy: E -> E, memory: map<int, E>, p: int, q: int, n: nat)
    requires Holds(memory, q, n) && !CopySafe(p, q, n)
    ensures WritesOnly(memory, Copied(copy, memory, p, q, n), p, n)
    ensures Copied(copy, memory, p, q, n)[p + (p - q)] == copy(copy(memory[q]))
  {
    CopiedWritesOnly(copy, memory, p, q, n);
    CopiedLater(copy, memory[p := copy(memory[q])], p + 1, q + 1, n - 1, p - q - 1, p);
  }

  /** The element that is fetched from a cell which no earlier turn of the loop writes. */
  lemma {:induction false} CopiedLater<E>(copy: E -> E, memory: map<int, E>, p: int, q: int, n: nat, k: nat, a: int)
    requires Holds(memory, q, n) && k < n && a == q + k && !(p <= a < p + k)
    ensures p + k in Copied(copy, memory, p, q, n) && Copied(copy, memory, p, q, n)[p + k] == copy(memory[a])
    decreases n
  {
    var once := memory[p := copy(memory[q])];
    CopiedWritesOnly(copy, once, p + 1, q + 1, n - 1);
    if k > 0 {
      CopiedLater(copy, once, p + 1, q + 1, n - 1, k - 1, a);
    }
  }

  /** Every element arrives at its place. */
  ghost predicate Arrives<E>(copy: E -> E, memory: map<int, E>, p: int, q: int, n: nat)
    requires Holds(memory, q, n)
  {
    forall a :: p <= a < p + n ==>
      a in Copied(copy, memory, p, q, n) && Copied(copy, memory, p, q, n)[a] == copy(memory[a - p + q])
  }

  ghost predicate AlwaysArrives<E(!new)>(copy: E -> E, p: int, q: int, n: nat) {
    forall memory: map<int, E> :: Holds(memory, q, n) ==> Arrives(copy, memory, p, q, n)
  }

  /** Copying is right for all contents exactly when the destination does not begin inside the
      source, after its start; `x` and `y` are elements that copying tells apart. */
  lemma CopyRightIff<E(!new)>(copy: E -> E, p: int, q: int, n: nat, x: E, y: E)
    requires copy(copy(x)) != copy(y)
    ensures AlwaysArrives(copy, p, q, n) <==> CopySafe(p, q, n)
  {
    if CopySafe(p, q, n) {
      forall memory: map<int, E> | Holds(memory, q, n) ensures Arrives(copy, memory, p, q, n) {
        SafeCopyArrives(copy, memory, p, q, n);
      }
    } else {
      FilledCells(x, map[], q, n);
      var memory := Filled(x, map[], q, n)[p := y];
      CopiedOverlap(copy, memory, p, q, n);
      var late := p + (p - q);
      assert memory[late - p + q] == y && memory[q] == x;
      assert !Arrives(copy, memory, p, q, n);
    }
  }

  lemma SafeCopyArrives<E>(copy: E -> E, memory: map<int, E>, p: int, q: int, n: nat)
    requires Holds(memory, q, n) && CopySafe(p, q, n)
    ensures Arrives(copy, memory, p, q, n) && WritesOnly(memory, Copied(copy, memory, p, q, n), p, n)
  {
    CopiedWritesOnly(copy, memory, p, q, n);
    forall a | p <= a < p + n
      ensures a in Copied(copy, memory, p, q, n) && Copied(copy, memory, p, q, n)[a] == copy(memory[a - p + q]) {
      CopiedCells(copy, memory, p, q, n, a - p);
    }
  }

  /** Element by element: one fetch from the source, then one write of its copy. */
  function InOrder<E>(kind: CopyKind, copy: E -> E, memory: map<int, E>, p: int, q: int, n: nat): seq<Event<E>>
    requires forall a :: q <= a < q + n ==> a in memory
    decreases n
  {
    if n == 0 then []
    else [Fetched(q), Write(kind, p, copy(memory[q]))] + InOrder(kind, copy, memory, p + 1, q + 1, n - 1)
  }

  lemma {:induction false} EventsInOrder<E>(kind: CopyKind, copy: E -> E, start: map<int, E>, memory: map<int, E>,
                                            p: int, q: int, n: nat)
    requires Holds(start, q, n) && Holds(memory, q, n) && CopySafe(p, q, n)
    requires forall a :: q <= a < q + n ==> memory[a] == start[a]
    ensures CopyEvents(kind, copy, memory, p, q, n) == InOrder(kind, copy, start, p, q, n)
    decreases n
  {
    if n > 0 {
      var once := memory[p := copy(memory[q])];
      EventsInOrder(kind, copy, start, once, p + 1, q + 1, n - 1);
    }
  }

  // ---------------------------------------------------------------- the generated bodies

  ghost predicate CalledWith<E>(st: State<E>, p: int, n: nat) {
    "this" in st.variables && st.variables["this"] == Pointer(p) && n < 0x8000_0000
  }

  lemma BodyStarts<E>(t: ElementType<E>, fuel: nat, n: nat, turn: seq<Statement>, st: State<E>, p: int)
    returns (ready: State<E>)
    requires CalledWith(st, p, n)
    ensures ready == st.(variables := st.variables["i" := IntValue(n)]) && AtLoop(ready, p, n)
    ensures var r := Execute(t, fuel, While(Greater(I, IntLiteral(0)), Compound(turn)), ready);
            r.Done? ==> Execute(t, fuel, LoopOver(n, turn), st) == r
  {
    ready := st.(variables := st.variables["i" := IntValue(n)]);
    assert Int32(n) == n;
    var ss := LoopOver(n, turn).statements;
    assert Evaluate(t, IntLiteral(n), st) == Is(IntValue(n), st);
    assert Execute(t, fuel, ss[0], st) == Done(ready);
    assert ss[1..] == [ss[1]] && ss[1..][1..] == [];
    assert ExecuteAll(t, fuel, ss, st) == ExecuteAll(t, fuel, ss[1..], ready);
  }

  /** The default constructor ends; it constructs the `n` elements from `this` on with the
      default value, once each and in order, and touches no other. */
  lemma DefaultConstructorBody<E>(t: ElementType<E>, fuel: nat, n: nat, st: State<E>, p: int) returns (next: State<E>)
    requires CalledWith(st, p, n) && fuel >= n
    ensures Execute(t, fuel, LoopOver(n, ConstructTurn(t.name)), st) == Done(next)
    ensures WritesOnly(st.memory, next.memory, p, n)
    ensures forall a :: p <= a < p + n ==> next.memory[a] == t.default_
    ensures next.trace == st.trace + ConstructEvents(t.default_, p, n)
  {
    var ready := BodyStarts(t, fuel, n, ConstructTurn(t.name), st, p);
    next := ConstructLoop(t, fuel, ready, p, n);
    FilledCells(t.default_, st.memory, p, n);
  }

  /** The copy constructor and the copy assignment end, whatever the arrays are.  Unless the
      destination begins inside the source, after its start, each element is fetched once and
      its copy is written once, in order, and the destination holds the copies at the end. */
  lemma CopyBody<E>(kind: CopyKind, t: ElementType<E>, fuel: nat, n: nat, st: State<E>, p: int, q: int)
    returns (next: State<E>)
    requires CalledWith(st, p, n) && ThatAt(st, q) && fuel >= n && Holds(st.memory, q, n)
    requires kind.Assigning? ==> Holds(st.memory, p, n)
    ensures Execute(t, fuel, LoopOver(n, CopyTurn(kind, t.name)), st) == Done(next)
    ensures WritesOnly(st.memory, next.memory, p, n)
    ensures CopySafe(p, q, n) ==>
              && (forall a :: p <= a < p + n ==> next.memory[a] == t.copy(st.memory[a - p + q]))
              && next.trace == st.trace + InOrder(kind, t.copy, st.memory, p, q, n)
  {
    var ready := BodyStarts(t, fuel, n, CopyTurn(kind, t.name), st, p);
    next := CopyLoop(kind, t, fuel, ready, p, q, n);
    CopiedWritesOnly(t.copy, st.memory, p, q, n);
    if CopySafe(p, q, n) {
      SafeCopyArrives(t.copy, st.memory, p, q, n);
      EventsInOrder(kind, t.copy, st.memory, st.memory, p, q, n);
    }
  }

  // ---------------------------------------------------------------- generating the bodies

  class CompoundStatementNode {
    var statements: seq<Statement>

    constructor ()
      ensures statements == []
    {
      statements := [];
    }

    method AddStatement(statement: Statement)
      modifies this
      ensures statements == old(statements) + [statement]
    {
      statements := statements + [statement];
    }
  }

  method GenerateArrayTypeDefaultConstructor(n: nat, elementType: string) returns (body: CompoundStatementNode)
    ensures fresh(body) && Compound(body.statements) == LoopOver(n, ConstructTurn(elementType))
  {
    body := new CompoundStatementNode();
    body.AddStatement(ConstructInt("i", IntLiteral(n)));
    var whileBlockContent := new CompoundStatementNode();
    var arguments := [This];
    arguments := arguments + [Invoke(elementType, [])];
    assert arguments == [This, Invoke(elementType, [])];
    whileBlockContent.AddStatement(Simple(Construct(elementType, arguments)));
    whileBlockContent.AddStatement(Simple(PrefixInc(This)));
    whileBlockContent.AddStatement(Simple(PrefixDec(I)));
    assert whileBlockContent.statements == ConstructTurn(elementType);
    body.AddStatement(While(Greater(I, IntLiteral(0)), Compound(whileBlockContent.statements)));
    assert body.statements == LoopOver(n, ConstructTurn(elementType)).statements;
  }

  method GenerateArrayTypeCopyConstructor(n: nat, elementType: string) returns (body: CompoundStatementNode)
    ensures fresh(body) && Compound(body.statements) == LoopOver(n, CopyTurn(Constructing, elementType))
  {
    body := new CompoundStatementNode();
    body.AddStatement(ConstructInt("i", IntLiteral(n)));
    var whileBlockContent := new CompoundStatementNode();
    var arguments := [This];
    arguments := arguments + [Invoke(elementType, [Deref(THAT)])];
    assert arguments == [This, Invoke(elementType, [Deref(THAT)])];
    whileBlockContent.AddStatement(Simple(Construct(elementType, arguments)));
    whileBlockContent.AddStatement(Simple(PrefixInc(This)));
    whileBlockContent.AddStatement(Simple(PrefixInc(THAT)));
    whileBlockContent.AddStatement(Simple(PrefixDec(I)));
    assert whileBlockContent.statements == CopyTurn(Constructing, elementType);
    body.AddStatement(While(Greater(I, IntLiteral(0)), Compound(whileBlockContent.statements)));
    assert body.statements == LoopOver(n, CopyTurn(Constructing, elementType)).statements;
  }

  method GenerateArrayTypeCopyAssignment(n: nat, elementType: string) returns (body: CompoundStatementNode)
    ensures fresh(body) && Compound(body.statements) == LoopOver(n, CopyTurn(Assigning, elementType))
  {
    body := new CompoundStatementNode();
    body.AddStatement(ConstructInt("i", IntLiteral(n)));
    var whileBlockContent := new CompoundStatementNode();
    whileBlockContent.AddStatement(Assignment(Deref(Identifier("this")), Deref(THAT)));
    whileBlockContent.AddStatement(Simple(PrefixInc(This)));
    whileBlockContent.AddStatement(Simple(PrefixInc(THAT)));
    whileBlockContent.AddStatement(Simple(PrefixDec(I)));
    assert whileBlockContent.statements == CopyTurn(Assigning, elementType);
    body.AddStatement(While(Greater(I, IntLiteral(0)), Compound(whileBlockContent.statements)));
    assert body.statements == LoopOver(n, CopyTurn(Assigning, elementType)).statements;
  }
}
