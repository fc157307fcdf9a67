/** The function object of the C back end: its mutable instructions, the clean-up pass over
    them, and the loop that writes its body line by line (C.Ir/Function.cpp,
    Ir.Intf/Function.cpp). */
module CFunction {
  import opened BlockStructure
  import opened CleanPass
  import opened Labels
  import opened Linearizer
  import opened Options

  /** The object that takes the result of an instruction. */
  class Register {
    var name: string

    constructor (name: string)
      ensures this.name == name
    {
      this.name := name;
    }
  }

  const PLACEHOLDER := "_R_?"

  function RegisterName(n: nat): string {
    "_R_" + Decimal(n)
  }

  lemma {:induction false} DecimalEnd(n: nat)
    ensures var s := Decimal(n); s[|s| - 1] in "0123456789"
  {
  }

  lemma RegisterNamesDiffer(a: nat, b: nat)
    ensures RegisterName(a) == RegisterName(b) ==> a == b
    ensures RegisterName(a) != PLACEHOLDER
  {
    if RegisterName(a) == RegisterName(b) {
      assert RegisterName(a)[3..] == Decimal(a) && RegisterName(b)[3..] == Decimal(b);
      DecimalInjective(a, b);
    }
    DecimalEnd(a);
    assert RegisterName(a)[3..] == Decimal(a) && PLACEHOLDER[3..] == "?";
  }

  class Instruction {
    const op: Op
    const funCall: bool
    const result: Register?
    var lbl: Option<string>
    var removed: bool

    constructor (op: Op, lbl: Option<string>, funCall: bool, result: Register?)
      ensures this.op == op && this.funCall == funCall && this.lbl == lbl && this.result == result && !removed
    {
      this.op, this.funCall, this.lbl, this.result, this.removed := op, funCall, lbl, result, false;
    }

    function View(): Inst
      reads this
    {
      Inst(op, lbl, removed, funCall)
    }
  }

  class CodeFormatter {
    var lines: seq<Line>

    constructor ()
      ensures lines == []
    {
      lines := [];
    }

    method WriteLine(line: Line)
      modifies this
      ensures lines == old(lines) + [line]
    {
      lines := lines + [line];
    }
  }

  function Views(insts: seq<Instruction>): (s: seq<Inst>)
    reads insts
    ensures |s| == |insts|
    ensures forall i :: 0 <= i < |insts| ==> s[i] == insts[i].View()
  {
    seq(|insts|, i requires 0 <= i < |insts| reads insts => insts[i].View())
  }

  ghost predicate DistinctObjects(insts: seq<Instruction>) {
    forall i, j :: 0 <= i < j < |insts| ==> insts[i] != insts[j]
  }

  class Function {
    var instructions: seq<Instruction>
    var registers: seq<Register>
    var instNumber: nat

    constructor ()
      ensures instructions == [] && registers == [] && Numbered()
    {
      instructions, registers, instNumber := [], [], 0;
    }

    /** The registers are named by number, from one on. */
    ghost predicate Numbered()
      reads this, registers
    {
      instNumber == |registers| && forall i :: 0 <= i < |registers| ==> registers[i].name == RegisterName(i + 1)
    }

    method GetNextInstNumber() returns (n: nat)
      modifies this`instNumber
      ensures n == instNumber == old(instNumber) + 1
    {
      instNumber := instNumber + 1;
      n := instNumber;
    }

    /** Appends the instruction, which its list owns, so it is added only once.  A result that
        still has the placeholder name becomes a register with a name of its own. */
    method AddInstruction(instruction: Instruction)
      requires DistinctObjects(instructions) && instruction !in instructions && Numbered()
      modifies this, (if instruction.result == null then {} else {instruction.result})`name
      ensures instructions == old(instructions) + [instruction] && DistinctObjects(instructions)
      ensures Numbered()
      ensures var result := instruction.result;
              if result != null && old(result.name) == PLACEHOLDER then
                registers == old(registers) + [result] && forall r :: r in old(registers) ==> r.name != result.name
              else registers == old(registers) && (result != null ==> result.name == old(result.name))
    {
      var result := instruction.result;
      if result != null {
        if result.name == PLACEHOLDER {
          forall i | 0 <= i < |registers| ensures registers[i] != result && RegisterName(i + 1) != RegisterName(instNumber + 1) {
            RegisterNamesDiffer(i + 1, instNumber + 1);
          }
          var n := GetNextInstNumber();
          result.name := RegisterName(n);
          registers := registers + [result];
        }
      }
      instructions := instructions + [instruction];
    }

    /** The names of all jump targets, live or not. */
    method TargetLabels() returns (targetLabels: set<string>)
      ensures targetLabels == TargetNames(Views(instructions))
    {
      targetLabels := {};
      for i := 0 to |instructions|
        invariant targetLabels == TargetNames(Views(instructions)[..i])
      {
        targetLabels := targetLabels + instructions[i].op.Targets();
        assert Views(instructions)[..i + 1] == Views(instructions)[..i] + [instructions[i].View()];
        TargetNamesAppend(Views(instructions)[..i], instructions[i].View());
      }
      assert Views(instructions)[..|instructions|] == Views(instructions);
    }

    method ExistingTargets() returns (existingTargets: set<string>)
      ensures existingTargets == LabelNames(Views(instructions))
    {
      existingTargets := {};
      for i := 0 to |instructions|
        invariant existingTargets == LabelNames(Views(instructions)[..i])
      {
        if instructions[i].lbl.Some? {
          existingTargets := existingTargets + {instructions[i].lbl.value};
        }
        assert Views(instructions)[..i + 1] == Views(instructions)[..i] + [instructions[i].View()];
        LabelNamesAppend(Views(instructions)[..i], instructions[i].View());
      }
      assert Views(instructions)[..|instructions|] == Views(instructions);
    }

    /** The first sweep of `Clean`, which looks at each instruction with the two before it. */
    method RemoveUnused(targetLabels: set<string>)
      requires DistinctObjects(instructions) && targetLabels == TargetNames(Views(instructions))
      modifies instructions
      ensures Views(instructions) == Relabelled(old(Views(instructions)))
    {
      hide TargetNames, Relabelled, DropsLabel, SkipsToNext, DistinctLabels;
      ghost var s := Views(instructions);
      ghost var r := Relabelled(s);
      var prev: Instruction?, prevPrev: Instruction? := null, null;
      for i := 0 to |instructions|
        invariant prev == if i > 0 then instructions[i - 1] else null
        invariant prevPrev == if i > 1 then instructions[i - 2] else null
        invariant forall j :: 0 <= j < i - 1 ==> instructions[j].View() == r[j]
        invariant i > 0 ==> instructions[i - 1].View() == r[i - 1].(removed := s[i - 1].removed)
        invariant forall j :: i <= j < |instructions| ==> instructions[j].View() == s[j]
      {
        var inst := instructions[i];
        RelabelledAt(s, i, targetLabels);
        if i > 0 {
          RelabelledAt(s, i - 1, targetLabels);
        }
        RemoveUnusedAt(prevPrev, prev, inst, targetLabels);
        prevPrev := prev;
        prev := inst;
      }
      if prev != null {
        RelabelledAt(s, |s| - 1, targetLabels);
      }
      assert Views(instructions) == r;
    }

    static method RemoveUnusedAt(prevPrev: Instruction?, prev: Instruction?, inst: Instruction, targetLabels: set<string>)
      requires prev != inst
      modifies inst`lbl, (if prev == null then {} else {prev})`removed
      ensures inst.lbl == if old(inst.lbl).Some? && (prev == null || !prev.op.IsTerminator()) &&
                             old(inst.lbl).value !in targetLabels then None else old(inst.lbl)
      ensures prev != null ==>
                prev.removed == (old(prev.removed) ||
                                 (prevPrev != null && prevPrev.op.IsTerminator() && prev.op.Goto? && prev.lbl.None? &&
                                  old(inst.lbl) == Some(prev.op.dest)))
    {
      var lbl := inst.lbl;
      if lbl.Some? {
        if prev == null || !prev.op.IsTerminator() {
          if lbl.value !in targetLabels {
            inst.lbl := None;
          }
        }
        if prevPrev != null && prevPrev.op.IsTerminator() && prev != null && prev.op.Goto? && prev.lbl.None? {
          if prev.op.dest == lbl.value {
            prev.removed := true;
          }
        }
      }
    }

    /** The last sweep of `Clean`. */
    method RemoveDangling(existingTargets: set<string>)
      requires DistinctObjects(instructions) && existingTargets == LabelNames(Views(instructions))
      modifies instructions
      ensures Views(instructions) == WithoutDangling(old(Views(instructions)))
    {
      ghost var r := Views(instructions);
      for i := 0 to |instructions|
        invariant forall j :: 0 <= j < i ==> instructions[j].View() == WithoutDangling(r)[j]
        invariant forall j :: i <= j < |instructions| ==> instructions[j].View() == r[j]
      {
        var inst := instructions[i];
        if inst.op.Goto? && inst.op.dest !in existingTargets {
          inst.removed := true;
        }
      }
      assert Views(instructions) == WithoutDangling(r);
    }

    method Clean()
      requires DistinctObjects(instructions)
      modifies instructions
      ensures Views(instructions) == Cleaned(old(Views(instructions)))
      ensures CleanedFields(old(Views(instructions)), Views(instructions))
    {
      hide CleanedFields, Relabelled, WithoutDangling, TargetNames, LabelNames;
      CleanedOnFields(Views(instructions));
      var targetLabels := TargetLabels();
      RemoveUnused(targetLabels);
      var existingTargets := ExistingTargets();
      RemoveDangling(existingTargets);
    }

    /** Writes one live instruction behind the live instruction `prev`. */
    static method WriteInstruction(prev: Instruction?, inst: Instruction, formatter: CodeFormatter, labels: LabelCounter)
      modifies formatter, labels
      ensures formatter.lines == old(formatter.lines) + Block(OpOf(prev), inst.View(), old(labels.next))
      ensures labels.next == old(labels.next) + if NeedsFresh(OpOf(prev), inst.View()) then 1 else 0
    {
      hide LocalLabel;
      var lbl := inst.lbl;
      if lbl.Some? || (prev != null && prev.op.IsTerminator()) {
        if lbl.Some? {
          if prev != null && !prev.op.IsTerminator() {
            formatter.WriteLine(Code(Goto(lbl.value)));
          }
        } else {
          var local := labels.CreateNextLocalLabel({});
          lbl := Some(local);
        }
        formatter.WriteLine(LabelLine(lbl.value));
      }
      assert formatter.lines == old(formatter.lines) + Heading(OpOf(prev), inst.View(), old(labels.next));
      hide Heading;
      formatter.WriteLine(Code(inst.op));
      if inst.funCall {
        formatter.WriteLine(DummyStore);
      }
    }

    /** Writes the body: exactly the lines emitted for the instructions that are not removed,
        taking fresh labels from the counter. */
    method WriteDefinition(formatter: CodeFormatter, labels: LabelCounter)
      modifies formatter, labels
      ensures formatter.lines == old(formatter.lines) + Emit(Live(Views(instructions)), old(labels.next))
      ensures labels.next == old(labels.next) + FreshCount(Live(Views(instructions)))
    {
      hide Emit, Live, FreshCount, Block, NeedsFresh;
      ghost var s := Views(instructions);
      ghost var k := labels.next;
      ghost var p: seq<Inst> := [];
      ghost var emitted: seq<Line> := [];
      var prev: Instruction? := null;
      EmptyEmit(s, k);
      for i := 0 to |instructions|
        invariant Views(instructions) == s
        invariant p == Live(s[..i]) && emitted == Emit(p, k) && OpOf(prev) == LastOp(p)
        invariant formatter.lines == old(formatter.lines) + emitted
        invariant labels.next == k + FreshCount(p)
      {
        var inst := instructions[i];
        LiveStep(s, i);
        if !inst.removed {
          EmitAppend(p, inst.View(), k);
          emitted := emitted + Block(LastOp(p), inst.View(), labels.next);
          p := p + [inst.View()];
          WriteInstruction(prev, inst, formatter, labels);
          prev := inst;
        }
      }
      assert s[..|s|] == s;
    }

    /** Cleaning and writing a function: for every meaning of its instructions under which it
        does not run into a missing label, the written body halts exactly when it did. */
    method EmitBody(formatter: CodeFormatter, labels: LabelCounter)
      requires DistinctObjects(instructions)
      requires NoneRemoved(Views(instructions)) && DistinctLabels(Views(instructions))
      requires FreshLabels(Views(instructions), labels.next) && formatter.lines == []
      modifies instructions, formatter, labels
      ensures FaithfulBody(old(Views(instructions)), formatter.lines)
    {
      hide *;
      ghost var s, k := Views(instructions), labels.next;
      EmittedBodyFaithful(s, k);
      Clean();
      ghost var t := Views(instructions);
      assert t == Cleaned(s);
      WriteDefinition(formatter, labels);
      assert Views(instructions) == t;
      assert formatter.lines == Emit(Live(t), k);
    }
  }

  function OpOf(prev: Instruction?): Option<Op> {
    if prev == null then None else Some(prev.op)
  }

  /** The lines mean what the instructions do, for integer-sequence states and every
      interpretation under which the instructions do not get stuck; they are well-formed when
      all jumps have targets, and split into basic blocks unless a dummy store gets between. */
  ghost predicate FaithfulBody(s: seq<Inst>, lines: seq<Line>) {
    && (forall sem: Sem<seq<int>>, st, out :: NeverStuck(s, sem, st) ==>
         (Halts(s, sem, st, out) <==> HaltsLines(lines, sem, st, out)))
    && (Closed(s) ==> WellFormed(lines))
    && (InBlocks(lines) <==> !CallOnTerminator(Live(Cleaned(s))))
  }

  lemma EmittedBodyFaithful(s: seq<Inst>, k: nat)
    requires DistinctLabels(s) && NoneRemoved(s) && FreshLabels(s, k)
    ensures FaithfulBody(s, Emit(Live(Cleaned(s)), k))
  {
    forall sem: Sem<seq<int>>, st, out | NeverStuck(s, sem, st)
      ensures Halts(s, sem, st, out) <==> HaltsLines(Emit(Live(Cleaned(s)), k), sem, st, out)
    {
      BackEndPreservesMeaning(s, k, sem, st, out);
    }
    InBlocksIff(Live(Cleaned(s)), k);
    if Closed(s) {
      BackEndWellFormed(s, k);
    }
  }

  lemma RelabelledAt(s: seq<Inst>, i: nat, targetLabels: set<string>)
    requires i < |s| && targetLabels == TargetNames(s)
    ensures Relabelled(s)[i] ==
      s[i].(lbl := if s[i].lbl.Some? && (i == 0 || !s[i - 1].op.IsTerminator()) && s[i].lbl.value !in targetLabels
                   then None else s[i].lbl,
            removed := s[i].removed || (0 < i < |s| - 1 && s[i - 1].op.IsTerminator() && s[i].op.Goto? &&
                                        s[i].lbl.None? && s[i + 1].lbl == Some(s[i].op.dest)))
  {
  }

  lemma TargetNamesAppend(p: seq<Inst>, inst: Inst)
    ensures TargetNames(p + [inst]) == TargetNames(p) + inst.op.Targets()
  {
    var q := p + [inst];
    forall l | l in TargetNames(p) + inst.op.Targets() ensures l in TargetNames(q) {
      if l in TargetNames(p) {
        var i :| 0 <= i < |p| && l in p[i].op.Targets();
        assert q[i] == p[i];
      } else {
        assert q[|p|] == inst;
      }
    }
  }

  lemma LabelNamesAppend(p: seq<Inst>, inst: Inst)
    ensures LabelNames(p + [inst]) == LabelNames(p) + if inst.lbl.Some? then {inst.lbl.value} else {}
  {
    var q := p + [inst];
    assert q[|p|] == inst;
    forall l | l in LabelNames(p) ensures l in LabelNames(q) {
      var i :| 0 <= i < |p| && p[i].lbl == Some(l);
      assert q[i] == p[i];
    }
  }

  lemma EmptyEmit(s: seq<Inst>, k: nat)
    ensures Live(s[..0]) == [] && Emit([], k) == [] && FreshCount([]) == 0
  {
  }

  lemma EmitAppend(p: seq<Inst>, inst: Inst, k: nat)
    ensures Emit(p + [inst], k) == Emit(p, k) + Block(LastOp(p), inst, k + FreshCount(p))
    ensures FreshCount(p + [inst]) == FreshCount(p) + if NeedsFresh(LastOp(p), inst) then 1 else 0
  {
    assert (p + [inst])[..|p|] == p;
  }

  /** The registers of a function have different names. */
  lemma RegistersDiffer(f: Function, i: nat, j: nat)
    requires f.Numbered() && i < j < |f.registers|
    ensures f.registers[i].name != f.registers[j].name
  {
    RegisterNamesDiffer(i + 1, j + 1);
  }
}
