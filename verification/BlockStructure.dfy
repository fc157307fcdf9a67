/** The shape of the emitted body: which labels it defines, and where blocks begin and end
    (C.Ir/Function.cpp). */
module BlockStructure {
  import opened Labels
  import opened Linearizer
  import opened Options

  ghost predicate Defines(lines: seq<Line>, l: string) {
    LabelLine(l) in lines
  }

  /** No label is defined on two lines, and every jump has a label line to land on. */
  ghost predicate WellFormed(lines: seq<Line>) {
    && (forall i, j :: 0 <= i < j < |lines| && lines[i].LabelLine? ==> lines[i] != lines[j])
    && (forall i, l :: 0 <= i < |lines| && lines[i].Code? && l in lines[i].op.Targets() ==> Defines(lines, l))
  }

  predicate EndsBlock(line: Line) {
    line.Code? && line.op.IsTerminator()
  }

  /** Each terminator is followed by a label or by the end of the body, and each label comes
      first or directly after a terminator. */
  ghost predicate InBlocks(lines: seq<Line>) {
    forall i :: 0 <= i < |lines| ==>
      (EndsBlock(lines[i]) && i + 1 < |lines| ==> lines[i + 1].LabelLine?) &&
      (lines[i].LabelLine? && i > 0 ==> EndsBlock(lines[i - 1]))
  }

  /** Every jump target of `p` is the label of an instruction of `p`. */
  ghost predicate Closed(p: seq<Inst>) {
    TargetNames(p) <= LabelNames(p)
  }

  // ---------------------------------------------------------------- labels of the body

  lemma {:induction false} FreshCountMonotone(p: seq<Inst>, i: nat, j: nat)
    requires i < j <= |p|
    ensures FreshCount(p[..i]) <= FreshCount(p[..j])
    ensures NeedsFresh(LastOp(p[..i]), p[i]) ==> FreshCount(p[..i]) < FreshCount(p[..j])
  {
    assert p[..j][..j - 1] == p[..j - 1];
    if i < j - 1 {
      FreshCountMonotone(p, i, j - 1);
    }
  }

  /** The label, if any, that the body defines at block `i`. */
  function BlockName(p: seq<Inst>, k: nat, i: nat): Option<string>
    requires i < |p|
  {
    if p[i].lbl.Some? then p[i].lbl
    else if NeedsFresh(LastOp(p[..i]), p[i]) then Some(LocalLabel(k + FreshCount(p[..i]))) else None
  }

  lemma BlockNamesDistinct(p: seq<Inst>, k: nat, i: nat, j: nat)
    requires DistinctLabels(p) && FreshFrom(LabelNames(p), k) && i < j < |p| && BlockName(p, k, i).Some?
    ensures BlockName(p, k, i) != BlockName(p, k, j)
  {
    var ki, kj := k + FreshCount(p[..i]), k + FreshCount(p[..j]);
    assert p[i].lbl.Some? ==> p[i].lbl.value in LabelNames(p);
    assert p[j].lbl.Some? ==> p[j].lbl.value in LabelNames(p);
    if p[i].lbl.None? && p[j].lbl.None? && LocalLabel(ki) == LocalLabel(kj) {
      LocalLabelInjective(ki, kj);
      FreshCountMonotone(p, i, j);
    }
  }

  /** Where the body defines `l`: at the code of exactly the blocks named `l`. */
  lemma LabelLineOrigin(p: seq<Inst>, k: nat, q: nat) returns (i: nat)
    requires q < |Emit(p, k)| && Emit(p, k)[q].LabelLine?
    ensures i < |p| && q + 1 == CodePos(p, k, i) && BlockName(p, k, i) == Some(Emit(p, k)[q].name)
  {
    assert p[..|p|] == p;
    i := Locate(p, k, |p|, q);
    BlockLabels(p, k, i, q);
  }

  lemma LabelsUnique(p: seq<Inst>, k: nat, q: nat, r: nat)
    requires DistinctLabels(p) && FreshFrom(LabelNames(p), k)
    requires q < r < |Emit(p, k)| && Emit(p, k)[q].LabelLine?
    ensures Emit(p, k)[q] != Emit(p, k)[r]
  {
    if Emit(p, k)[q] == Emit(p, k)[r] {
      var i := LabelLineOrigin(p, k, q);
      var j := LabelLineOrigin(p, k, r);
      if i < j {
        BlockNamesDistinct(p, k, i, j);
      } else if j < i {
        BlockNamesDistinct(p, k, j, i);
      }
    }
  }

  lemma LabelsDefined(p: seq<Inst>, k: nat, l: string)
    ensures l in LabelNames(p) ==> Defines(Emit(p, k), l)
    ensures FreshFrom({l}, k) && Defines(Emit(p, k), l) ==> l in LabelNames(p)
  {
    if l in LabelNames(p) {
      var i :| 0 <= i < |p| && p[i].lbl == Some(l);
      HeadingLines(p, k, i);
    }
    if FreshFrom({l}, k) && Defines(Emit(p, k), l) {
      var q :| 0 <= q < |Emit(p, k)| && Emit(p, k)[q] == LabelLine(l);
      var i := LabelLineOrigin(p, k, q);
    }
  }

  lemma BlockCode(prev: Option<Op>, inst: Inst, k: nat, r: nat)
    requires r < |Block(prev, inst, k)| && Block(prev, inst, k)[r].Code?
    ensures var op := Block(prev, inst, k)[r].op;
            op == inst.op || (inst.lbl.Some? && op == Goto(inst.lbl.value))
  {
  }

  /** The code lines are the instructions and the gotos to the labels that follow them. */
  lemma CodeOrigin(p: seq<Inst>, k: nat, q: nat) returns (i: nat)
    requires q < |Emit(p, k)| && Emit(p, k)[q].Code?
    ensures i < |p| && (Emit(p, k)[q].op == p[i].op || (p[i].lbl.Some? && Emit(p, k)[q].op == Goto(p[i].lbl.value)))
  {
    hide Emit, FreshCount, Block, Heading;
    assert p[..|p|] == p;
    i := Locate(p, k, |p|, q);
    BlockInPlace(p, k, i);
    LineAt(p, k, i, q - Offset(p, k, i));
    BlockCode(LastOp(p[..i]), p[i], k + FreshCount(p[..i]), q - Offset(p, k, i));
  }

  lemma JumpsResolved(p: seq<Inst>, k: nat, q: nat, l: string)
    requires Closed(p) && q < |Emit(p, k)| && Emit(p, k)[q].Code? && l in Emit(p, k)[q].op.Targets()
    ensures Defines(Emit(p, k), l)
  {
    var i := CodeOrigin(p, k, q);
    if Emit(p, k)[q].op == p[i].op {
      assert l in TargetNames(p);
    }
    LabelsDefined(p, k, l);
  }

  /** The body is well-formed C exactly when the live instructions were: their labels are
      distinct and their jumps go to live labels. */
  lemma WellFormedIff(p: seq<Inst>, k: nat)
    requires FreshLabels(p, k)
    ensures WellFormed(Emit(p, k)) <==> DistinctLabels(p) && Closed(p)
  {
    if DistinctLabels(p) && Closed(p) {
      forall q, r | 0 <= q < r < |Emit(p, k)| && Emit(p, k)[q].LabelLine? ensures Emit(p, k)[q] != Emit(p, k)[r] {
        LabelsUnique(p, k, q, r);
      }
      forall q, l | 0 <= q < |Emit(p, k)| && Emit(p, k)[q].Code? && l in Emit(p, k)[q].op.Targets()
        ensures Defines(Emit(p, k), l)
      {
        JumpsResolved(p, k, q, l);
      }
    }
    if WellFormed(Emit(p, k)) {
      WellFormedOnlyIf(p, k);
    }
  }

  lemma CodePosIncreases(p: seq<Inst>, k: nat, i: nat, j: nat)
    requires i < j < |p|
    ensures CodePos(p, k, i) < CodePos(p, k, j)
  {
    TailAt(p, k, i);
    EmitPrefix(p, k, i + 1, j);
  }

  lemma WellFormedOnlyIf(p: seq<Inst>, k: nat)
    requires FreshLabels(p, k) && WellFormed(Emit(p, k))
    ensures DistinctLabels(p) && Closed(p)
  {
    forall i, j | 0 <= i < j < |p| && p[i].lbl.Some? ensures p[i].lbl != p[j].lbl {
      if p[i].lbl == p[j].lbl {
        HeadingLines(p, k, i);
        HeadingLines(p, k, j);
        CodePosIncreases(p, k, i, j);
      }
    }
    forall l | l in TargetNames(p) ensures l in LabelNames(p) {
      var i :| 0 <= i < |p| && l in p[i].op.Targets();
      CodeAt(p, k, i);
      LabelsDefined(p, k, l);
    }
  }

  // ---------------------------------------------------------------- the blocks of the body

  /** Whether a dummy store follows a terminator. */
  ghost predicate CallOnTerminator(p: seq<Inst>) {
    exists i :: 0 <= i < |p| && p[i].op.IsTerminator() && p[i].funCall
  }

  lemma InBlocksAppend(a: seq<Line>, b: seq<Line>)
    requires InBlocks(a) && InBlocks(b) && a != [] && b != []
    requires b[0].LabelLine? <==> EndsBlock(a[|a| - 1])
    ensures InBlocks(a + b)
  {
    var c := a + b;
    forall i | 0 <= i < |c|
      ensures EndsBlock(c[i]) && i + 1 < |c| ==> c[i + 1].LabelLine?
      ensures c[i].LabelLine? && i > 0 ==> EndsBlock(c[i - 1])
    {
      if i >= |a| {
        assert c[i] == b[i - |a|];
      }
    }
  }

  lemma BlockInBlocks(prev: Option<Op>, inst: Inst, k: nat)
    requires !(inst.op.IsTerminator() && inst.funCall)
    ensures InBlocks(Block(prev, inst, k)) && Block(prev, inst, k) != []
    ensures prev.Some? ==> (Block(prev, inst, k)[0].LabelLine? <==> prev.value.IsTerminator())
    ensures var b := Block(prev, inst, k); EndsBlock(b[|b| - 1]) <==> inst.op.IsTerminator()
  {
  }

  lemma EmitLast(p: seq<Inst>, k: nat)
    requires p != []
    ensures var init := p[..|p| - 1];
            Emit(p, k) == Emit(init, k) + Block(LastOp(init), p[|p| - 1], k + FreshCount(init))
    ensures Emit([], k) == []
  {
  }

  lemma {:induction false} EmitInBlocks(p: seq<Inst>, k: nat)
    requires !CallOnTerminator(p)
    ensures InBlocks(Emit(p, k))
    ensures p != [] ==> Emit(p, k) != [] &&
                        (EndsBlock(Emit(p, k)[|Emit(p, k)| - 1]) <==> p[|p| - 1].op.IsTerminator())
  {
    if p != [] {
      hide InBlocks, EndsBlock, Block, FreshCount, Emit, CallOnTerminator;
      var init, last := p[..|p| - 1], p[|p| - 1];
      var block := Block(LastOp(init), last, k + FreshCount(init));
      EmitLast(p, k);
      NoCalls(p);
      EmitInBlocks(init, k);
      BlockInBlocks(LastOp(init), last, k + FreshCount(init));
      if init != [] {
        InBlocksAppend(Emit(init, k), block);
        assert Emit(p, k)[|Emit(p, k)| - 1] == block[|block| - 1];
      } else {
        assert Emit(p, k) == block;
      }
    }
  }

  lemma NoCalls(p: seq<Inst>)
    requires p != [] && !CallOnTerminator(p)
    ensures !CallOnTerminator(p[..|p| - 1]) && !(p[|p| - 1].op.IsTerminator() && p[|p| - 1].funCall)
  {
    var init := p[..|p| - 1];
    assert forall i :: 0 <= i < |init| ==> init[i] == p[i];
  }

  /** The body is a sequence of basic blocks exactly when no live terminator carries a
      function-call debug node: its dummy store would stand between blocks. */
  lemma InBlocksIff(p: seq<Inst>, k: nat)
    ensures InBlocks(Emit(p, k)) <==> !CallOnTerminator(p)
  {
    if CallOnTerminator(p) {
      var i :| 0 <= i < |p| && p[i].op.IsTerminator() && p[i].funCall;
      CodeAt(p, k, i);
      TailAt(p, k, i);
      assert EndsBlock(Emit(p, k)[CodePos(p, k, i)]);
    } else {
      EmitInBlocks(p, k);
    }
  }
}
