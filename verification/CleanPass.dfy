/** The clean-up that runs before a function body is written (`Function::Clean`,
    Ir.Intf/Function.cpp): unused labels are dropped, branches that nothing can reach and
    that only jump to the next instruction are removed, and so are branches without a target.
    `Cleaned` is what the pass computes; the theorems say what it means. */
module CleanPass {
  import opened BlockStructure
  import opened Labels
  import opened Linearizer
  import opened Options

  /** A label that no jump names and that does not begin a block after a terminator. */
  predicate DropsLabel(s: seq<Inst>, i: nat)
    requires i < |s|
  {
    s[i].lbl.Some? && (i == 0 || !s[i - 1].op.IsTerminator()) && s[i].lbl.value !in TargetNames(s)
  }

  /** An unlabelled branch after a terminator that jumps to the instruction behind it. */
  predicate SkipsToNext(s: seq<Inst>, i: nat)
    requires i < |s|
  {
    && 0 < i < |s| - 1
    && s[i - 1].op.IsTerminator()
    && s[i].op.Goto? && s[i].lbl.None?
    && s[i + 1].lbl == Some(s[i].op.dest)
  }

  function Relabelled(s: seq<Inst>): (r: seq<Inst>)
    ensures |r| == |s|
  {
    seq(|s|, i requires 0 <= i < |s| =>
      s[i].(lbl := if DropsLabel(s, i) then None else s[i].lbl,
            removed := s[i].removed || SkipsToNext(s, i)))
  }

  predicate Dangling(labels: set<string>, inst: Inst) {
    inst.op.Goto? && inst.op.dest !in labels
  }

  function WithoutDangling(r: seq<Inst>): (t: seq<Inst>)
    ensures |t| == |r|
  {
    seq(|r|, i requires 0 <= i < |r| =>
      r[i].(removed := r[i].removed || Dangling(LabelNames(r), r[i])))
  }

  function Cleaned(s: seq<Inst>): (t: seq<Inst>)
    ensures |t| == |s|
  {
    WithoutDangling(Relabelled(s))
  }

  ghost predicate NoneRemoved(s: seq<Inst>) {
    forall i :: 0 <= i < |s| ==> !s[i].removed
  }

  /** A branch is dangling after the relabelling exactly when its target never existed. */
  lemma DanglingIff(s: seq<Inst>, i: nat)
    requires i < |s|
    ensures Dangling(LabelNames(Relabelled(s)), s[i]) <==> Dangling(LabelNames(s), s[i])
  {
    if s[i].op.Goto? {
      var l := s[i].op.dest;
      assert l in s[i].op.Targets();
      assert l in TargetNames(s);
      if l in LabelNames(s) {
        var j :| 0 <= j < |s| && s[j].lbl == Some(l);
        assert Relabelled(s)[j].lbl == Some(l);
      }
      if l in LabelNames(Relabelled(s)) {
        var j :| 0 <= j < |s| && Relabelled(s)[j].lbl == Some(l);
        assert s[j].lbl == Some(l);
      }
    }
  }

  lemma CleanedAt(s: seq<Inst>, i: nat)
    requires i < |s|
    ensures var t := Cleaned(s)[i];
            t.op == s[i].op && t.funCall == s[i].funCall &&
            t.lbl == (if DropsLabel(s, i) then None else s[i].lbl) &&
            (t.removed <==> s[i].removed || SkipsToNext(s, i) || Dangling(LabelNames(s), s[i]))
  {
    DanglingIff(s, i);
  }

  /** No instruction jumps to the label, or no instruction carries it. */
  predicate Untargeted(s: seq<Inst>, l: string) {
    forall i :: 0 <= i < |s| ==> l !in s[i].op.Targets()
  }

  predicate Undefined(s: seq<Inst>, l: string) {
    forall i :: 0 <= i < |s| ==> s[i].lbl != Some(l)
  }

  /** What cleaning does to each instruction, in the fields of its neighbours: it takes away labels
      that nothing jumps to, unless they begin a block behind a terminator, and removes unlabelled
      gotos behind a terminator to the next instruction and gotos to labels that do not exist. */
  predicate CleanedFields(s: seq<Inst>, t: seq<Inst>) {
    |t| == |s| && forall i :: 0 <= i < |s| ==> CleanedAtFields(s, t[i], i)
  }

  predicate CleanedAtFields(s: seq<Inst>, t: Inst, i: nat)
    requires i < |s|
  {
    && t.op == s[i].op && t.funCall == s[i].funCall
    && (t.lbl == s[i].lbl || t.lbl == None)
    && (s[i].lbl.Some? ==>
          (t.lbl == None <==> Untargeted(s, s[i].lbl.value) && (i == 0 || s[i - 1].op.Plain?)))
    && (t.removed <==>
          || s[i].removed
          || (s[i].op.Goto? && Undefined(s, s[i].op.dest))
          || (s[i].op.Goto? && s[i].lbl == None && 0 < i < |s| - 1 && !s[i - 1].op.Plain? &&
              s[i + 1].lbl == Some(s[i].op.dest)))
  }

  lemma CleanedOnFields(s: seq<Inst>)
    ensures CleanedFields(s, Cleaned(s))
  {
    forall i | 0 <= i < |s| ensures CleanedAtFields(s, Cleaned(s)[i], i) {
      CleanedInst(s, i);
    }
  }

  lemma CleanedInst(s: seq<Inst>, i: nat)
    requires i < |s|
    ensures CleanedAtFields(s, Cleaned(s)[i], i)
  {
    hide Cleaned, TargetNames, LabelNames, Untargeted, Undefined;
    CleanedAt(s, i);
    if s[i].lbl.Some? {
      UntargetedIff(s, s[i].lbl.value);
    }
    if s[i].op.Goto? {
      UndefinedIff(s, s[i].op.dest);
    }
  }

  lemma UntargetedIff(s: seq<Inst>, l: string)
    ensures Untargeted(s, l) <==> l !in TargetNames(s)
  {
  }

  lemma UndefinedIff(s: seq<Inst>, l: string)
    ensures Undefined(s, l) <==> l !in LabelNames(s)
  {
  }

  // ---------------------------------------------------------------- the live instructions

  function Rank(t: seq<Inst>, i: nat): nat
    requires i <= |t|
  {
    |Live(t[..i])|
  }

  lemma LiveStep(t: seq<Inst>, i: nat)
    requires i < |t|
    ensures Live(t[..i + 1]) == Live(t[..i]) + if t[i].removed then [] else [t[i]]
  {
    assert t[..i + 1][..i] == t[..i];
  }

  lemma {:induction false} LivePrefix(t: seq<Inst>, i: nat, j: nat)
    requires i <= j <= |t|
    ensures Live(t[..i]) <= Live(t[..j])
  {
    if i < j {
      LivePrefix(t, i, j - 1);
      LiveStep(t, j - 1);
    }
  }

  lemma LiveAt(t: seq<Inst>, i: nat)
    requires i < |t| && !t[i].removed
    ensures Rank(t, i + 1) == Rank(t, i) + 1 && Rank(t, i) < |Live(t)| && Live(t)[Rank(t, i)] == t[i]
  {
    LiveStep(t, i);
    LivePrefix(t, i + 1, |t|);
    assert t[..|t|] == t;
  }

  lemma {:induction false} LiveOrigin(t: seq<Inst>, n: nat, j: nat) returns (i: nat)
    requires n <= |t| && j < Rank(t, n)
    ensures i < n && !t[i].removed && Rank(t, i) == j
  {
    LiveStep(t, n - 1);
    if j == Rank(t, n - 1) {
      i := n - 1;
    } else {
      i := LiveOrigin(t, n - 1, j);
    }
  }

  /** A label of a live instruction is found among the live instructions at its rank. */
  lemma FindLive(t: seq<Inst>, i: nat, l: string)
    requires DistinctLabels(t) && i < |t| && !t[i].removed && t[i].lbl == Some(l)
    ensures FindLabel(Live(t), l) == Rank(t, i) < |Live(t)|
  {
    LiveAt(t, i);
    var j := FindLabel(Live(t), l);
    assert t[..|t|] == t;
    var i' := LiveOrigin(t, |t|, j);
    LiveAt(t, i');
    assert i' == i;
  }

  lemma RankOrdered(t: seq<Inst>, i: nat, j: nat)
    requires i <= j <= |t|
    ensures Rank(t, i) <= Rank(t, j)
  {
    LivePrefix(t, i, j);
  }

  lemma LiveDistinct(t: seq<Inst>)
    requires DistinctLabels(t)
    ensures DistinctLabels(Live(t))
  {
    assert t[..|t|] == t;
    forall a, b | 0 <= a < b < |Live(t)| && Live(t)[a].lbl.Some? ensures Live(t)[a].lbl != Live(t)[b].lbl {
      var i := LiveOrigin(t, |t|, a);
      var j := LiveOrigin(t, |t|, b);
      LiveAt(t, i);
      LiveAt(t, j);
      if j <= i {
        RankOrdered(t, j, i);
      }
    }
  }

  lemma LiveNames(t: seq<Inst>)
    ensures LabelNames(Live(t)) <= LabelNames(t) && TargetNames(Live(t)) <= TargetNames(t)
  {
    assert t[..|t|] == t;
    forall l | l in LabelNames(Live(t)) ensures l in LabelNames(t) {
      var a :| 0 <= a < |Live(t)| && Live(t)[a].lbl == Some(l);
      var i := LiveOrigin(t, |t|, a);
      LiveAt(t, i);
    }
    forall l | l in TargetNames(Live(t)) ensures l in TargetNames(t) {
      var a :| 0 <= a < |Live(t)| && l in Live(t)[a].op.Targets();
      var i := LiveOrigin(t, |t|, a);
      LiveAt(t, i);
    }
  }

  // ---------------------------------------------------------------- cleaning preserves meaning

  lemma CleanedLabels(s: seq<Inst>)
    requires DistinctLabels(s)
    ensures DistinctLabels(Cleaned(s))
    ensures LabelNames(Cleaned(s)) <= LabelNames(s) && TargetNames(Cleaned(s)) == TargetNames(s)
  {
    forall i | 0 <= i < |s|
      ensures Cleaned(s)[i].op == s[i].op && (Cleaned(s)[i].lbl == s[i].lbl || Cleaned(s)[i].lbl == None)
    {
      CleanedAt(s, i);
    }
  }

  ghost predicate AtLive<S>(t: seq<Inst>, c: Config<S>) {
    c.At? ==> c.pc <= |t| && (c.pc < |t| ==> !t[c.pc].removed)
  }

  function RankImage<S>(t: seq<Inst>, c: Config<S>): Config<S>
    requires c.At? ==> c.pc <= |t|
  {
    match c
    case At(pc, s) => At(Rank(t, pc), s)
    case _ => c
  }

  /** Executing a branch without a target is stuck, so no run that goes on arrives at one. */
  lemma DanglingSticks<S>(s: seq<Inst>, sem: Sem<S>, i: nat, st: S)
    requires i < |s| && Dangling(LabelNames(s), s[i])
    ensures Step(s, sem, At(i, st)) == Stuck
  {
    assert forall j :: 0 <= j < |s| && s[j].lbl.Some? ==> s[j].lbl.value in LabelNames(s);
  }

  lemma ArrivesLive<S>(s: seq<Inst>, sem: Sem<S>, c: Config<S>)
    requires DistinctLabels(s) && NoneRemoved(s)
    requires c.At? && c.pc < |s| && Step(s, sem, c) != Stuck && Step(s, sem, Step(s, sem, c)) != Stuck
    ensures AtLive(Cleaned(s), Step(s, sem, c))
  {
    var c' := Step(s, sem, c);
    if c'.At? && c'.pc < |s| {
      CleanedAt(s, c'.pc);
      if Dangling(LabelNames(s), s[c'.pc]) {
        DanglingSticks(s, sem, c'.pc, c'.state);
      }
    }
  }

  /** One step of the original is one step of the cleaned instructions. */
  lemma CleanStep<S>(s: seq<Inst>, sem: Sem<S>, c: Config<S>)
    requires DistinctLabels(s) && NoneRemoved(s) && AtLive(Cleaned(s), c)
    requires Step(s, sem, c) != Stuck && Step(s, sem, Step(s, sem, c)) != Stuck
    ensures AtLive(Cleaned(s), Step(s, sem, c))
    ensures Step(Live(Cleaned(s)), sem, RankImage(Cleaned(s), c)) == RankImage(Cleaned(s), Step(s, sem, c))
  {
    var t := Cleaned(s);
    if c.At? && c.pc < |s| {
      ArrivesLive(s, sem, c);
      LiveAt(t, c.pc);
      CleanedAt(s, c.pc);
      if s[c.pc].op.IsJump() {
        var l := JumpTo(s[c.pc].op, sem, c.state);
        JumpToIsTarget(s[c.pc].op, sem, c.state);
        assert l in TargetNames(s);
        var j := FindLabel(s, l);
        CleanedAt(s, j);
        CleanedLabels(s);
        FindLive(t, j, l);
      }
    } else {
      assert t[..|t|] == t;
    }
  }

  /** A run that does not get stuck is followed in lock step. */
  lemma {:induction false} CleanSimulation<S>(s: seq<Inst>, sem: Sem<S>, st: S, n: nat)
    requires DistinctLabels(s) && NoneRemoved(s) && NeverStuck(s, sem, st)
    ensures var c := Run(s, sem, At(0, st), n);
            AtLive(Cleaned(s), c) && Run(Live(Cleaned(s)), sem, At(0, st), n) == RankImage(Cleaned(s), c)
  {
    var c := Run(s, sem, At(0, st), n);
    assert Run(s, sem, At(0, st), n + 1) == Step(s, sem, c) != Stuck;
    if n == 0 {
      if |s| > 0 {
        CleanedAt(s, 0);
        if Dangling(LabelNames(s), s[0]) {
          DanglingSticks(s, sem, 0, st);
        }
      }
    } else {
      CleanSimulation(s, sem, st, n - 1);
      CleanStep(s, sem, Run(s, sem, At(0, st), n - 1));
    }
  }

  lemma CleanPreservesMeaning<S>(s: seq<Inst>, sem: Sem<S>, st: S, out: S)
    requires DistinctLabels(s) && NoneRemoved(s) && NeverStuck(s, sem, st)
    ensures Halts(s, sem, st, out) <==> Halts(Live(Cleaned(s)), sem, st, out)
  {
    if Halts(s, sem, st, out) {
      var n: nat :| Run(s, sem, At(0, st), n) == Done(out);
      CleanSimulation(s, sem, st, n);
    }
    if Halts(Live(Cleaned(s)), sem, st, out) {
      var n: nat :| Run(Live(Cleaned(s)), sem, At(0, st), n) == Done(out);
      CleanSimulation(s, sem, st, n);
      assert Run(s, sem, At(0, st), n) == Done(out);
    }
  }

  /** Without the hypothesis the pass changes behaviour: a lone branch without a target is
      stuck, but cleaned away it falls off the end and returns. */
  lemma CleanUnsticks<S>(sem: Sem<S>, st: S)
    ensures var s := [Inst(Goto("x"), None, false, false)];
            !NeverStuck(s, sem, st) && Halts(Live(Cleaned(s)), sem, st, st)
  {
    var s := [Inst(Goto("x"), None, false, false)];
    assert Run(s, sem, At(0, st), 0) == At(0, st);
    DanglingSticks(s, sem, 0, st);
    assert Run(s, sem, At(0, st), 1) == Stuck;
    CleanedAt(s, 0);
    LiveStep(Cleaned(s), 0);
    assert Cleaned(s)[..1] == Cleaned(s);
    assert Run(Live(Cleaned(s)), sem, At(0, st), 0) == At(0, st);
    assert Run(Live(Cleaned(s)), sem, At(0, st), 1) == Done(st);
  }

  // ---------------------------------------------------------------- when gotos have targets

  /** Every unconditional branch has a target. */
  predicate GotosResolved(s: seq<Inst>) {
    forall i :: 0 <= i < |s| ==> !Dangling(LabelNames(s), s[i])
  }

  lemma NotFound(s: seq<Inst>, l: string)
    requires l !in LabelNames(s)
    ensures FindLabel(s, l) == |s|
  {
  }

  lemma FoundIff(s: seq<Inst>, l: string)
    ensures FindLabel(s, l) < |s| <==> l in LabelNames(s)
  {
  }

  /** Then every step is followed, a step that gets stuck included. */
  lemma CleanStepResolved<S>(s: seq<Inst>, sem: Sem<S>, c: Config<S>)
    requires DistinctLabels(s) && NoneRemoved(s) && GotosResolved(s) && AtLive(Cleaned(s), c)
    ensures AtLive(Cleaned(s), Step(s, sem, c))
    ensures Step(Live(Cleaned(s)), sem, RankImage(Cleaned(s), c)) == RankImage(Cleaned(s), Step(s, sem, c))
  {
    var t := Cleaned(s);
    if c.At? && c.pc < |s| {
      var c' := Step(s, sem, c);
      LiveAt(t, c.pc);
      CleanedAt(s, c.pc);
      if c' == Stuck {
        var l := JumpTo(s[c.pc].op, sem, c.state);
        FoundIff(s, l);
        LiveNames(t);
        CleanedLabels(s);
        NotFound(Live(t), l);
      } else {
        if c'.At? && c'.pc < |s| {
          CleanedAt(s, c'.pc);
        }
        if s[c.pc].op.IsJump() {
          var l := JumpTo(s[c.pc].op, sem, c.state);
          JumpToIsTarget(s[c.pc].op, sem, c.state);
          assert l in TargetNames(s);
          CleanedLabels(s);
          FindLive(t, FindLabel(s, l), l);
        }
      }
    } else {
      assert t[..|t|] == t;
    }
  }

  /** If every goto has a target, the cleaned instructions do step for step what the original
      does, for every meaning and every start: they halt alike, run on alike, and get stuck
      alike. */
  lemma CleanIsExact<S>(s: seq<Inst>, sem: Sem<S>, st: S, n: nat)
    requires DistinctLabels(s) && NoneRemoved(s) && GotosResolved(s)
    ensures var c := Run(s, sem, At(0, st), n);
            AtLive(Cleaned(s), c) && Run(Live(Cleaned(s)), sem, At(0, st), n) == RankImage(Cleaned(s), c)
  {
    InStepFrom(s, sem, 0, st, n);
  }

  /** An instruction at which a run is stuck is never removed exactly when every goto has a
      target. */
  lemma StuckStaysIff<S>(s: seq<Inst>, sem: Sem<S>, st: S)
    requires NoneRemoved(s)
    ensures GotosResolved(s) <==>
            forall pc: nat :: pc < |s| && Step(s, sem, At(pc, st)) == Stuck ==> !Cleaned(s)[pc].removed
  {
    forall pc: nat | pc < |s| && GotosResolved(s) && Step(s, sem, At(pc, st)) == Stuck
      ensures !Cleaned(s)[pc].removed
    {
      CleanedAt(s, pc);
      if SkipsToNext(s, pc) {
        FoundIff(s, s[pc].op.dest);
      }
    }
    if !GotosResolved(s) {
      var pc: nat :| pc < |s| && Dangling(LabelNames(s), s[pc]);
      DanglingSticks(s, sem, pc, st);
      CleanedAt(s, pc);
    }
  }

  /** The jumps that choose between targets, all but the branches that the pass removes, have them. */
  predicate ChoicesResolved(s: seq<Inst>) {
    forall i, l :: 0 <= i < |s| && !s[i].op.Goto? && l in s[i].op.Targets() ==> l in LabelNames(s)
  }

  /** The two run in step from position `pc`, for `n` steps. */
  ghost predicate InStep<S>(s: seq<Inst>, sem: Sem<S>, pc: nat, st: S, n: nat)
    requires pc <= |s|
  {
    var t, c := Cleaned(s), Run(s, sem, At(pc, st), n);
    (c.At? ==> c.pc <= |t|) && Run(Live(t), sem, At(Rank(t, pc), st), n) == RankImage(t, c)
  }

  /** From a position that was not removed as a jump to the next instruction. */
  lemma {:induction false} InStepFrom<S>(s: seq<Inst>, sem: Sem<S>, pc: nat, st: S, n: nat)
    requires DistinctLabels(s) && NoneRemoved(s) && GotosResolved(s)
    requires pc <= |s| && (pc < |s| ==> !SkipsToNext(s, pc))
    ensures AtLive(Cleaned(s), Run(s, sem, At(pc, st), n)) && InStep(s, sem, pc, st, n)
  {
    if n == 0 {
      if pc < |s| {
        CleanedAt(s, pc);
      }
    } else {
      InStepFrom(s, sem, pc, st, n - 1);
      CleanStepResolved(s, sem, Run(s, sem, At(pc, st), n - 1));
    }
  }

  /** An instruction that is left and gets stuck, though the original goes on from it. */
  lemma OnlyCleanedSticks<S>(s: seq<Inst>, sem: Sem<S>, k: nat, st: S) returns (i: nat)
    requires DistinctLabels(s) && NoneRemoved(s) && ChoicesResolved(s)
    requires Step(Live(Cleaned(s)), sem, At(k, st)) == Stuck
    ensures i < |s| && !SkipsToNext(s, i) && Rank(Cleaned(s), i) == k && Step(s, sem, At(i, st)).At?
  {
    var t := Cleaned(s);
    assert t[..|t|] == t;
    i := LiveOrigin(t, |t|, k);
    LiveAt(t, i);
    CleanedAt(s, i);
    var l := JumpTo(s[i].op, sem, st);
    JumpToIsTarget(s[i].op, sem, st);
    FoundIff(s, l);
  }

  /** When the pass changes what a function does: from every position but the jumps to the next
      instruction, original and cleaned instructions run in step, whatever the steps mean,
      exactly when every unconditional branch has a target. */
  lemma InStepIff<S>(s: seq<Inst>, sem: Sem<S>, st: S)
    requires DistinctLabels(s) && NoneRemoved(s) && ChoicesResolved(s)
    ensures GotosResolved(s) <==>
            forall pc: nat, n: nat :: pc <= |s| && (pc < |s| ==> !SkipsToNext(s, pc)) ==> InStep(s, sem, pc, st, n)
  {
    if GotosResolved(s) {
      forall pc: nat, n: nat | pc <= |s| && (pc < |s| ==> !SkipsToNext(s, pc)) ensures InStep(s, sem, pc, st, n) {
        InStepFrom(s, sem, pc, st, n);
      }
    } else {
      var pc: nat :| pc < |s| && Dangling(LabelNames(s), s[pc]);
      var r := Rank(Cleaned(s), pc);
      DanglingSticks(s, sem, pc, st);
      FoundIff(s, s[pc].op.dest);
      OneStep(s, sem, pc, st);
      if Step(Live(Cleaned(s)), sem, At(r, st)) == Stuck {
        var i := OnlyCleanedSticks(s, sem, r, st);
        OneStep(s, sem, i, st);
        assert !InStep(s, sem, i, st, 1);
      } else {
        assert !InStep(s, sem, pc, st, 1);
      }
    }
  }

  lemma OneStep<S>(s: seq<Inst>, sem: Sem<S>, pc: nat, st: S)
    requires pc <= |s|
    ensures Run(s, sem, At(pc, st), 1) == Step(s, sem, At(pc, st))
    ensures var t, r := Live(Cleaned(s)), Rank(Cleaned(s), pc); Run(t, sem, At(r, st), 1) == Step(t, sem, At(r, st))
  {
    var t, r := Live(Cleaned(s)), Rank(Cleaned(s), pc);
    assert Run(s, sem, At(pc, st), 0) == At(pc, st);
    assert Run(t, sem, At(r, st), 0) == At(r, st);
  }

  lemma {:induction false} ClosedNeverStuck<S>(s: seq<Inst>, sem: Sem<S>, st: S, n: nat)
    requires Closed(s)
    ensures Run(s, sem, At(0, st), n) != Stuck
  {
    if n > 0 {
      ClosedNeverStuck(s, sem, st, n - 1);
      var c := Run(s, sem, At(0, st), n - 1);
      if c.At? && c.pc < |s| && s[c.pc].op.IsJump() {
        var l := JumpTo(s[c.pc].op, sem, c.state);
        JumpToIsTarget(s[c.pc].op, sem, c.state);
        assert l in TargetNames(s);
        var i :| 0 <= i < |s| && s[i].lbl == Some(l);
        assert FindLabel(s, l) <= i;
      }
    }
  }

  /** Nothing that a jump needs is cleaned away. */
  lemma CleanKeepsClosed(s: seq<Inst>)
    requires DistinctLabels(s) && NoneRemoved(s) && Closed(s)
    ensures Closed(Live(Cleaned(s)))
  {
    var t := Cleaned(s);
    CleanedLabels(s);
    LiveNames(t);
    forall l | l in TargetNames(Live(t)) ensures l in LabelNames(Live(t)) {
      var i :| 0 <= i < |s| && s[i].lbl == Some(l);
      CleanedAt(s, i);
      assert s[i].op.Goto? ==> s[i].op.dest in s[i].op.Targets();
      assert s[i].op.Targets() <= TargetNames(s);
      LiveAt(t, i);
    }
  }

  lemma CleanKeepsLabels(s: seq<Inst>, k: nat)
    requires DistinctLabels(s) && FreshLabels(s, k)
    ensures DistinctLabels(Live(Cleaned(s))) && FreshLabels(Live(Cleaned(s)), k)
  {
    CleanedLabels(s);
    LiveDistinct(Cleaned(s));
    LiveNames(Cleaned(s));
  }

  /** The back end as a whole: cleaning a function and writing it preserves its meaning,
      for every interpretation under which it does not run into a missing label. */
  lemma BackEndPreservesMeaning<S>(s: seq<Inst>, k: nat, sem: Sem<S>, st: S, out: S)
    requires DistinctLabels(s) && NoneRemoved(s) && FreshLabels(s, k) && NeverStuck(s, sem, st)
    ensures Halts(s, sem, st, out) <==> HaltsLines(Emit(Live(Cleaned(s)), k), sem, st, out)
  {
    CleanPreservesMeaning(s, sem, st, out);
    CleanKeepsLabels(s, k);
    EmitPreservesMeaning(Live(Cleaned(s)), k, sem, st, out);
  }

  /** A function whose jumps all have targets never gets stuck, and its body is well-formed. */
  lemma BackEndWellFormed(s: seq<Inst>, k: nat)
    requires DistinctLabels(s) && NoneRemoved(s) && FreshLabels(s, k) && Closed(s)
    ensures WellFormed(Emit(Live(Cleaned(s)), k))
  {
    CleanKeepsLabels(s, k);
    CleanKeepsClosed(s);
    WellFormedIff(Live(Cleaned(s)), k);
  }
}
