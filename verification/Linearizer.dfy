/** The C back end turns a list of instructions with fall-through, labels and removed
    instructions into lines of C whose basic blocks are linked by gotos
    (C.Ir/Function.cpp, Ir.Intf/Function.cpp, C.Ir/Instruction.cpp). */
module Linearizer {
  import opened Labels
  import opened Options

  datatype Op =
    | Plain(text: string)
    | Goto(dest: string)
    | Branch(cond: string, trueLabel: string, falseLabel: string)
    | Switch(value: string, cases: seq<(string, string)>, defaultDest: string)
    | Return(result: string)
  {
    predicate IsTerminator() {
      !Plain?
    }

    predicate IsJump() {
      Goto? || Branch? || Switch?
    }

    /** `AddTargetLabels`. */
    function Targets(): set<string> {
      match this
      case Goto(d) => {d}
      case Branch(_, t, f) => {t, f}
      case Switch(_, cs, d) => {d} + set i | 0 <= i < |cs| :: cs[i].1
      case _ => {}
    }
  }

  /** The state of one instruction object: its operation, its label, whether it was removed,
      and whether a function-call debug node hangs on it. */
  datatype Inst = Inst(op: Op, lbl: Option<string>, removed: bool, funCall: bool)

  /** A line of the emitted body. */
  datatype Line = LabelLine(name: string) | Code(op: Op) | DummyStore

  // ---------------------------------------------------------------- semantics

  /** The meaning of the texts: effects, conditions, case comparison and return.  Instructions and
      emitted lines are given small-step semantics over one and the same meaning; since the state
      type is arbitrary, a state may record the whole trace of executed instructions. */
  datatype Sem<!S> = Sem(exec: (string, S) -> S, test: (string, S) -> bool,
                         isCase: (string, string, S) -> bool, ret: (string, S) -> S)

  datatype Config<S> = At(pc: nat, state: S) | Done(state: S) | Stuck

  function SwitchDest<S>(cases: seq<(string, string)>, defaultDest: string, value: string, sem: Sem<S>, s: S): string {
    if cases == [] then defaultDest
    else if sem.isCase(value, cases[0].0, s) then cases[0].1
    else SwitchDest(cases[1..], defaultDest, value, sem, s)
  }

  function JumpTo<S>(op: Op, sem: Sem<S>, s: S): string
    requires op.IsJump()
  {
    match op
    case Goto(d) => d
    case Branch(c, t, f) => if sem.test(c, s) then t else f
    case Switch(v, cs, d) => SwitchDest(cs, d, v, sem, s)
  }

  lemma {:induction false} SwitchDestIsTarget<S>(cases: seq<(string, string)>, defaultDest: string, value: string,
                                                 sem: Sem<S>, s: S)
    ensures SwitchDest(cases, defaultDest, value, sem, s) in Switch(value, cases, defaultDest).Targets()
  {
    if cases != [] {
      SwitchDestIsTarget(cases[1..], defaultDest, value, sem, s);
    }
  }

  lemma JumpToIsTarget<S>(op: Op, sem: Sem<S>, s: S)
    requires op.IsJump()
    ensures JumpTo(op, sem, s) in op.Targets()
  {
    if op.Switch? {
      SwitchDestIsTarget(op.cases, op.defaultDest, op.value, sem, s);
    }
  }

  function FindLabel(p: seq<Inst>, l: string): (i: nat)
    ensures i <= |p|
    ensures i < |p| ==> p[i].lbl == Some(l)
    ensures forall j :: 0 <= j < i ==> p[j].lbl != Some(l)
  {
    if p == [] then 0 else if p[0].lbl == Some(l) then 0 else
      assert forall j :: 1 <= j < |p| ==> p[j] == p[1..][j - 1];
      1 + FindLabel(p[1..], l)
  }

  function FindLine(lines: seq<Line>, l: string): (i: nat)
    ensures i <= |lines|
    ensures i < |lines| ==> lines[i] == LabelLine(l)
    ensures forall j :: 0 <= j < i ==> lines[j] != LabelLine(l)
  {
    if lines == [] then 0 else if lines[0] == LabelLine(l) then 0 else
      assert forall j :: 1 <= j < |lines| ==> lines[j] == lines[1..][j - 1];
      1 + FindLine(lines[1..], l)
  }

  /** One step of an instruction list: running off the end returns. */
  function Step<S>(p: seq<Inst>, sem: Sem<S>, c: Config<S>): Config<S> {
    match c
    case At(pc, s) =>
      if pc >= |p| then Done(s)
      else (
        match p[pc].op
        case Plain(t) => At(pc + 1, sem.exec(t, s))
        case Return(v) => Done(sem.ret(v, s))
        case op =>
          var target := FindLabel(p, JumpTo(op, sem, s));
          if target < |p| then At(target, s) else Stuck
      )
    case _ => c
  }

  /** One step of the emitted lines; the dummy store touches nothing the program reads. */
  function StepLine<S>(lines: seq<Line>, sem: Sem<S>, c: Config<S>): Config<S> {
    match c
    case At(pc, s) =>
      if pc >= |lines| then Done(s)
      else (
        match lines[pc]
        case LabelLine(_) => At(pc + 1, s)
        case DummyStore => At(pc + 1, s)
        case Code(Plain(t)) => At(pc + 1, sem.exec(t, s))
        case Code(Return(v)) => Done(sem.ret(v, s))
        case Code(op) =>
          var target := FindLine(lines, JumpTo(op, sem, s));
          if target < |lines| then At(target, s) else Stuck
      )
    case _ => c
  }

  function Run<S>(p: seq<Inst>, sem: Sem<S>, c: Config<S>, n: nat): Config<S> {
    if n == 0 then c else Step(p, sem, Run(p, sem, c, n - 1))
  }

  function RunLines<S>(lines: seq<Line>, sem: Sem<S>, c: Config<S>, n: nat): Config<S> {
    if n == 0 then c else StepLine(lines, sem, RunLines(lines, sem, c, n - 1))
  }

  ghost predicate Halts<S>(p: seq<Inst>, sem: Sem<S>, s: S, out: S) {
    exists n: nat :: Run(p, sem, At(0, s), n) == Done(out)
  }

  ghost predicate HaltsLines<S>(lines: seq<Line>, sem: Sem<S>, s: S, out: S) {
    exists n: nat :: RunLines(lines, sem, At(0, s), n) == Done(out)
  }

  ghost predicate NeverStuck<S>(p: seq<Inst>, sem: Sem<S>, s: S) {
    forall n: nat :: Run(p, sem, At(0, s), n) != Stuck
  }

  /** The lines take `c` to `d` in `least` or more steps. */
  ghost predicate Reaches<S>(lines: seq<Line>, sem: Sem<S>, c: Config<S>, d: Config<S>, least: nat) {
    exists m: nat :: m >= least && RunLines(lines, sem, c, m) == d
  }

  lemma {:induction false} RunLinesAdd<S>(lines: seq<Line>, sem: Sem<S>, c: Config<S>, m: nat, n: nat)
    ensures RunLines(lines, sem, c, m + n) == RunLines(lines, sem, RunLines(lines, sem, c, m), n)
  {
    if n > 0 {
      RunLinesAdd(lines, sem, c, m, n - 1);
    }
  }

  lemma ReachesVia<S>(lines: seq<Line>, sem: Sem<S>, c: Config<S>, d: Config<S>, e: Config<S>, a: nat, b: nat)
    requires Reaches(lines, sem, c, d, a) && Reaches(lines, sem, d, e, b)
    ensures Reaches(lines, sem, c, e, a + b)
  {
    var m: nat :| m >= a && RunLines(lines, sem, c, m) == d;
    var n: nat :| n >= b && RunLines(lines, sem, d, n) == e;
    RunLinesAdd(lines, sem, c, m, n);
    assert RunLines(lines, sem, c, m + n) == e;
  }

  lemma ReachesSelf<S>(lines: seq<Line>, sem: Sem<S>, c: Config<S>)
    ensures Reaches(lines, sem, c, c, 0)
  {
    assert RunLines(lines, sem, c, 0) == c;
  }

  lemma ReachesNext<S>(lines: seq<Line>, sem: Sem<S>, c: Config<S>)
    ensures Reaches(lines, sem, c, StepLine(lines, sem, c), 1)
  {
    assert RunLines(lines, sem, c, 0) == c;
    assert RunLines(lines, sem, c, 1) == StepLine(lines, sem, c);
  }

  lemma ReachesSooner<S>(lines: seq<Line>, sem: Sem<S>, c: Config<S>, d: Config<S>)
    requires Reaches(lines, sem, c, d, 1)
    ensures Reaches(lines, sem, c, d, 0)
  {
  }

  /** A jump lands behind the line that holds its label. */
  lemma ReachesJump<S>(lines: seq<Line>, sem: Sem<S>, pc: nat, op: Op, s: S, target: nat)
    requires pc < |lines| && lines[pc] == Code(op) && op.IsJump()
    requires FindLine(lines, JumpTo(op, sem, s)) == target < |lines|
    ensures Reaches(lines, sem, At(pc, s), At(target + 1, s), 1)
  {
    ReachesNext(lines, sem, At(pc, s));
    ReachesNext(lines, sem, At(target, s));
    ReachesVia(lines, sem, At(pc, s), At(target, s), At(target + 1, s), 1, 1);
  }

  lemma {:induction false} RunStays<S>(p: seq<Inst>, sem: Sem<S>, c: Config<S>, m: nat, n: nat)
    requires m <= n && !Run(p, sem, c, m).At?
    ensures Run(p, sem, c, n) == Run(p, sem, c, m)
  {
    if m < n {
      RunStays(p, sem, c, m, n - 1);
    }
  }

  lemma {:induction false} RunLinesStays<S>(lines: seq<Line>, sem: Sem<S>, c: Config<S>, m: nat, n: nat)
    requires m <= n && !RunLines(lines, sem, c, m).At?
    ensures RunLines(lines, sem, c, n) == RunLines(lines, sem, c, m)
  {
    if m < n {
      RunLinesStays(lines, sem, c, m, n - 1);
    }
  }

  // ---------------------------------------------------------------- what is emitted

  function Live(insts: seq<Inst>): (p: seq<Inst>)
    ensures |p| <= |insts|
  {
    if insts == [] then []
    else
      var init := Live(insts[..|insts| - 1]);
      var last := insts[|insts| - 1];
      if last.removed then init else init + [last]
  }

  function LastOp(p: seq<Inst>): Option<Op> {
    if p == [] then None else Some(p[|p| - 1].op)
  }

  /** Whether `inst` gets a fresh label: it has none and begins a basic block. */
  predicate NeedsFresh(prev: Option<Op>, inst: Inst) {
    inst.lbl.None? && prev.Some? && prev.value.IsTerminator()
  }

  /** The lines before the code of `inst`: an explicit branch to its label when the previous
      instruction falls through to it, and the label. */
  function Heading(prev: Option<Op>, inst: Inst, k: nat): seq<Line> {
    match inst.lbl
    case Some(l) =>
      (if prev.Some? && !prev.value.IsTerminator() then [Code(Goto(l))] else []) + [LabelLine(l)]
    case None =>
      if NeedsFresh(prev, inst) then [LabelLine(LocalLabel(k))] else []
  }

  function Block(prev: Option<Op>, inst: Inst, k: nat): seq<Line> {
    Heading(prev, inst, k) + [Code(inst.op)] + (if inst.funCall then [DummyStore] else [])
  }

  function FreshCount(p: seq<Inst>): nat {
    if p == [] then 0
    else
      FreshCount(p[..|p| - 1]) + if NeedsFresh(LastOp(p[..|p| - 1]), p[|p| - 1]) then 1 else 0
  }

  /** The body emitted for the live instructions `p` when the label counter stands at `k`. */
  function Emit(p: seq<Inst>, k: nat): seq<Line> {
    if p == [] then []
    else
      var init := p[..|p| - 1];
      Emit(init, k) + Block(LastOp(init), p[|p| - 1], k + FreshCount(init))
  }

  function LabelNames(p: seq<Inst>): set<string> {
    set i | 0 <= i < |p| && p[i].lbl.Some? :: p[i].lbl.value
  }

  function TargetNames(p: seq<Inst>): set<string> {
    set i, l | 0 <= i < |p| && l in p[i].op.Targets() :: l
  }

  ghost predicate DistinctLabels(p: seq<Inst>) {
    forall i, j :: 0 <= i < j < |p| && p[i].lbl.Some? ==> p[i].lbl != p[j].lbl
  }

  /** The labels and jump targets of `p` cannot be produced by the counter from `k` on. */
  ghost predicate FreshLabels(p: seq<Inst>, k: nat) {
    FreshFrom(LabelNames(p) + TargetNames(p), k)
  }

  // ---------------------------------------------------------------- positions in the emitted body

  function Offset(p: seq<Inst>, k: nat, i: nat): nat
    requires i <= |p|
  {
    |Emit(p[..i], k)|
  }

  function BlockAt(p: seq<Inst>, k: nat, i: nat): seq<Line>
    requires i < |p|
  {
    Block(LastOp(p[..i]), p[i], k + FreshCount(p[..i]))
  }

  function HeadingAt(p: seq<Inst>, k: nat, i: nat): seq<Line>
    requires i < |p|
  {
    Heading(LastOp(p[..i]), p[i], k + FreshCount(p[..i]))
  }

  /** The line that holds the code of instruction `i`, or the end of the body. */
  function CodePos(p: seq<Inst>, k: nat, i: nat): nat
    requires i <= |p|
  {
    if i == |p| then |Emit(p, k)| else Offset(p, k, i) + |HeadingAt(p, k, i)|
  }

  lemma EmitStep(p: seq<Inst>, k: nat, i: nat)
    requires i < |p|
    ensures Emit(p[..i + 1], k) == Emit(p[..i], k) + BlockAt(p, k, i)
  {
    assert p[..i + 1][..i] == p[..i];
  }

  lemma {:induction false} EmitPrefix(p: seq<Inst>, k: nat, i: nat, j: nat)
    requires i <= j <= |p|
    ensures Emit(p[..i], k) <= Emit(p[..j], k)
  {
    hide Emit, BlockAt;
    if i < j {
      EmitPrefix(p, k, i, j - 1);
      EmitStep(p, k, j - 1);
    }
  }

  /** Block `i` occupies its place in the whole body. */
  lemma BlockInPlace(p: seq<Inst>, k: nat, i: nat)
    requires i < |p|
    ensures Offset(p, k, i) + |BlockAt(p, k, i)| == Offset(p, k, i + 1) <= |Emit(p, k)|
    ensures Emit(p, k)[Offset(p, k, i)..Offset(p, k, i + 1)] == BlockAt(p, k, i)
  {
    hide Emit, Block, BlockAt;
    EmitStep(p, k, i);
    EmitPrefix(p, k, i + 1, |p|);
    assert p[..|p|] == p;
  }

  lemma OffsetZero(p: seq<Inst>, k: nat)
    ensures Offset(p, k, 0) == 0
  {
  }

  /** Every line belongs to a block. */
  lemma {:induction false} Locate(p: seq<Inst>, k: nat, n: nat, q: nat) returns (i: nat)
    requires n <= |p| && q < Offset(p, k, n)
    ensures i < n && Offset(p, k, i) <= q < Offset(p, k, i + 1)
  {
    OffsetZero(p, k);
    hide Emit;
    if q >= Offset(p, k, n - 1) {
      i := n - 1;
    } else {
      i := Locate(p, k, n - 1, q);
    }
  }

  lemma LineAt(p: seq<Inst>, k: nat, i: nat, r: nat)
    requires i < |p| && r < |BlockAt(p, k, i)|
    ensures Offset(p, k, i) + r < |Emit(p, k)| && Emit(p, k)[Offset(p, k, i) + r] == BlockAt(p, k, i)[r]
  {
    hide Emit, FreshCount, Block, BlockAt;
    BlockInPlace(p, k, i);
  }

  lemma CodeAt(p: seq<Inst>, k: nat, i: nat)
    requires i < |p|
    ensures CodePos(p, k, i) < |Emit(p, k)| && Emit(p, k)[CodePos(p, k, i)] == Code(p[i].op)
  {
    hide Emit, FreshCount, Heading;
    LineAt(p, k, i, |HeadingAt(p, k, i)|);
  }

  /** What lies between the code of instruction `i` and the next block. */
  lemma TailAt(p: seq<Inst>, k: nat, i: nat)
    requires i < |p|
    ensures Offset(p, k, i + 1) == CodePos(p, k, i) + (if p[i].funCall then 2 else 1) <= |Emit(p, k)|
    ensures p[i].funCall ==> Emit(p, k)[CodePos(p, k, i) + 1] == DummyStore
  {
    hide Emit, FreshCount;
    BlockInPlace(p, k, i);
    if p[i].funCall {
      LineAt(p, k, i, |HeadingAt(p, k, i)| + 1);
    }
  }

  /** What the heading of a labelled instruction looks like. */
  lemma HeadingLines(p: seq<Inst>, k: nat, i: nat)
    requires i < |p| && p[i].lbl.Some?
    ensures var linked := i > 0 && !p[i - 1].op.IsTerminator();
            CodePos(p, k, i) == Offset(p, k, i) + (if linked then 2 else 1) < |Emit(p, k)| &&
            Emit(p, k)[CodePos(p, k, i) - 1] == LabelLine(p[i].lbl.value) &&
            (linked ==> Emit(p, k)[Offset(p, k, i)] == Code(Goto(p[i].lbl.value)))
  {
    hide Emit, FreshCount;
    CodeAt(p, k, i);
    LineAt(p, k, i, |HeadingAt(p, k, i)| - 1);
    LineAt(p, k, i, 0);
  }

  /** The only label line of a block is the last line of its heading. */
  lemma BlockLabel(prev: Option<Op>, inst: Inst, k: nat, r: nat)
    requires r < |Block(prev, inst, k)| && Block(prev, inst, k)[r].LabelLine?
    ensures r + 1 == |Heading(prev, inst, k)|
    ensures Block(prev, inst, k)[r].name == if inst.lbl.Some? then inst.lbl.value else LocalLabel(k)
    ensures inst.lbl.None? ==> NeedsFresh(prev, inst)
  {
  }

  lemma BlockLabels(p: seq<Inst>, k: nat, i: nat, q: nat)
    requires i < |p| && Offset(p, k, i) <= q < Offset(p, k, i + 1)
    requires q < |Emit(p, k)| && Emit(p, k)[q].LabelLine?
    ensures q + 1 == CodePos(p, k, i)
    ensures Emit(p, k)[q].name ==
            if p[i].lbl.Some? then p[i].lbl.value else LocalLabel(k + FreshCount(p[..i]))
    ensures p[i].lbl.None? ==> NeedsFresh(LastOp(p[..i]), p[i])
  {
    hide Emit, FreshCount, Block, Heading;
    BlockInPlace(p, k, i);
    LineAt(p, k, i, q - Offset(p, k, i));
    BlockLabel(LastOp(p[..i]), p[i], k + FreshCount(p[..i]), q - Offset(p, k, i));
  }

  /** A label of the instructions is found where its block starts. */
  lemma FindEmitted(p: seq<Inst>, k: nat, j: nat)
    requires DistinctLabels(p) && FreshLabels(p, k)
    requires j < |p| && p[j].lbl.Some?
    ensures var l := p[j].lbl.value;
            CodePos(p, k, j) > 0 && FindLine(Emit(p, k), l) == CodePos(p, k, j) - 1 < |Emit(p, k)|
  {
    var l := p[j].lbl.value;
    HeadingLines(p, k, j);
    var q := FindLine(Emit(p, k), l);
    assert p[..|p|] == p;
    var i := Locate(p, k, |p|, q);
    BlockLabels(p, k, i, q);
    assert l in LabelNames(p);
    if p[i].lbl.Some? {
      assert i == j;
    }
  }

  /** A name that is no label of the instructions is no label of the body, if it cannot be
      mistaken for a fresh one. */
  lemma FindMissing(p: seq<Inst>, k: nat, l: string)
    requires FreshFrom({l}, k)
    requires forall i :: 0 <= i < |p| ==> p[i].lbl != Some(l)
    ensures FindLine(Emit(p, k), l) == |Emit(p, k)|
  {
    var q := FindLine(Emit(p, k), l);
    if q < |Emit(p, k)| {
      assert p[..|p|] == p;
      var i := Locate(p, k, |p|, q);
      BlockLabels(p, k, i, q);
    }
  }

  // ---------------------------------------------------------------- the simulation

  /** The configuration of the body that corresponds to one of the instructions. */
  function Image<S>(p: seq<Inst>, k: nat, c: Config<S>): Config<S>
    requires c.At? ==> c.pc <= |p|
  {
    match c
    case At(pc, s) => At(CodePos(p, k, pc), s)
    case _ => c
  }

  ghost predicate InRange<S>(p: seq<Inst>, c: Config<S>) {
    c.At? ==> c.pc <= |p|
  }

  /** From the first line of block `i`, when instruction `i - 1` falls through or there is
      none, the body reaches the code of instruction `i`. */
  lemma Enter<S>(p: seq<Inst>, k: nat, sem: Sem<S>, i: nat, s: S)
    requires DistinctLabels(p) && FreshLabels(p, k)
    requires i <= |p| && (i > 0 ==> !p[i - 1].op.IsTerminator())
    ensures Reaches(Emit(p, k), sem, At(Offset(p, k, i), s), At(CodePos(p, k, i), s), 0)
  {
    hide Emit, FreshCount, Block, RunLines, Reaches;
    assert p[..|p|] == p;
    ReachesSelf(Emit(p, k), sem, At(Offset(p, k, i), s));
    if i < |p| && p[i].lbl.Some? {
      HeadingLines(p, k, i);
      if i == 0 {
        ReachesNext(Emit(p, k), sem, At(Offset(p, k, i), s));
      } else {
        FindEmitted(p, k, i);
        ReachesJump(Emit(p, k), sem, Offset(p, k, i), Goto(p[i].lbl.value), s, CodePos(p, k, i) - 1);
      }
      ReachesSooner(Emit(p, k), sem, At(Offset(p, k, i), s), At(CodePos(p, k, i), s));
    }
  }

  /** After the code of a falling-through instruction `i` comes block `i + 1`. */
  lemma Leave<S>(p: seq<Inst>, k: nat, sem: Sem<S>, i: nat, s: S)
    requires i < |p|
    ensures Reaches(Emit(p, k), sem, At(CodePos(p, k, i) + 1, s), At(Offset(p, k, i + 1), s), 0)
  {
    TailAt(p, k, i);
    ReachesSelf(Emit(p, k), sem, At(CodePos(p, k, i) + 1, s));
    if p[i].funCall {
      ReachesNext(Emit(p, k), sem, At(CodePos(p, k, i) + 1, s));
    }
  }

  lemma PlainSimulated<S>(p: seq<Inst>, k: nat, sem: Sem<S>, i: nat, s: S, s': S)
    requires DistinctLabels(p) && FreshLabels(p, k)
    requires i < |p| && p[i].op.Plain? && s' == sem.exec(p[i].op.text, s)
    ensures Reaches(Emit(p, k), sem, At(CodePos(p, k, i), s), At(CodePos(p, k, i + 1), s'), 1)
  {
    var lines := Emit(p, k);
    var c, d, e := At(CodePos(p, k, i) + 1, s'), At(Offset(p, k, i + 1), s'), At(CodePos(p, k, i + 1), s');
    assert Reaches(lines, sem, At(CodePos(p, k, i), s), c, 1) by {
      CodeAt(p, k, i);
      ReachesNext(lines, sem, At(CodePos(p, k, i), s));
    }
    assert Reaches(lines, sem, c, e, 0) by {
      Leave(p, k, sem, i, s');
      Enter(p, k, sem, i + 1, s');
      ReachesVia(lines, sem, c, d, e, 0, 0);
    }
    ReachesVia(lines, sem, At(CodePos(p, k, i), s), c, e, 1, 0);
  }

  lemma JumpSimulated<S>(p: seq<Inst>, k: nat, sem: Sem<S>, i: nat, s: S, target: nat)
    requires DistinctLabels(p) && FreshLabels(p, k)
    requires i < |p| && p[i].op.IsJump() && target == FindLabel(p, JumpTo(p[i].op, sem, s))
    ensures Reaches(Emit(p, k), sem, At(CodePos(p, k, i), s),
                    if target < |p| then At(CodePos(p, k, target), s) else Stuck, 1)
  {
    JumpToIsTarget(p[i].op, sem, s);
    assert JumpTo(p[i].op, sem, s) in TargetNames(p);
    CodeAt(p, k, i);
    if target < |p| {
      FindEmitted(p, k, target);
      ReachesJump(Emit(p, k), sem, CodePos(p, k, i), p[i].op, s, CodePos(p, k, target) - 1);
    } else {
      FindMissing(p, k, JumpTo(p[i].op, sem, s));
      ReachesNext(Emit(p, k), sem, At(CodePos(p, k, i), s));
    }
  }

  /** One step of the instructions is one or more steps of the body. */
  lemma StepSimulated<S>(p: seq<Inst>, k: nat, sem: Sem<S>, c: Config<S>)
    requires DistinctLabels(p) && FreshLabels(p, k) && InRange(p, c)
    ensures InRange(p, Step(p, sem, c))
    ensures Reaches(Emit(p, k), sem, Image(p, k, c), Image(p, k, Step(p, sem, c)), 1)
  {
    if c.At? && c.pc < |p| && p[c.pc].op.Plain? {
      PlainSimulated(p, k, sem, c.pc, c.state, sem.exec(p[c.pc].op.text, c.state));
    } else if c.At? && c.pc < |p| && p[c.pc].op.IsJump() {
      JumpSimulated(p, k, sem, c.pc, c.state, FindLabel(p, JumpTo(p[c.pc].op, sem, c.state)));
    } else {
      if c.At? && c.pc < |p| {
        CodeAt(p, k, c.pc);
      }
      ReachesNext(Emit(p, k), sem, Image(p, k, c));
    }
  }

  /** Every run of the instructions is followed by the emitted body, at least as many steps on. */
  lemma {:induction false} Simulation<S>(p: seq<Inst>, k: nat, sem: Sem<S>, s: S, n: nat)
    requires DistinctLabels(p) && FreshLabels(p, k)
    ensures var c := Run(p, sem, At(0, s), n);
            InRange(p, c) && Reaches(Emit(p, k), sem, At(0, s), Image(p, k, c), n)
  {
    if n == 0 {
      Enter(p, k, sem, 0, s);
    } else {
      var c := Run(p, sem, At(0, s), n - 1);
      Simulation(p, k, sem, s, n - 1);
      StepSimulated(p, k, sem, c);
      ReachesVia(Emit(p, k), sem, At(0, s), Image(p, k, c), Image(p, k, Step(p, sem, c)), n - 1, 1);
    }
  }

  /** The emitted body halts exactly when the instructions do, with the same state, whatever
      the instructions mean. */
  lemma EmitPreservesMeaning<S>(p: seq<Inst>, k: nat, sem: Sem<S>, s: S, out: S)
    requires DistinctLabels(p) && FreshLabels(p, k)
    ensures Halts(p, sem, s, out) <==> HaltsLines(Emit(p, k), sem, s, out)
  {
    if Halts(p, sem, s, out) {
      var n: nat :| Run(p, sem, At(0, s), n) == Done(out);
      Simulation(p, k, sem, s, n);
    }
    if HaltsLines(Emit(p, k), sem, s, out) {
      var m: nat :| RunLines(Emit(p, k), sem, At(0, s), m) == Done(out);
      Simulation(p, k, sem, s, m);
      var c := Run(p, sem, At(0, s), m);
      var m': nat :| m' >= m && RunLines(Emit(p, k), sem, At(0, s), m') == Image(p, k, c);
      RunLinesStays(Emit(p, k), sem, At(0, s), m, m');
      assert c == Done(out);
    }
  }
}
