# Cmajor compiler: a model with proofs

This project models the parts of the Cmajor compiler in which state, recursion and program
transformation meet, and proves what they promise. The model follows the C++ sources branch
by branch; exceptions are result values, and what a source reads from outside (resolved types,
binders of single statements, the meaning of instruction texts) is a parameter.

| module | what it models |
|---|---|
| `Options` | values that may be absent |
| `Graphs` | walks, reachability, cycles and closed sets, used by the graph algorithms |
| `BuildOrder` | the build order of a solution: a depth-first search over mutable state |
| `Labels`, `Linearizer`, `BlockStructure`, `CleanPass`, `CFunction` | the C back end: cleaning an instruction list and writing it as basic blocks linked by gotos, with a simulation proof |
| `Bytes`, `AstStream`, `AstTable`, `AstRoundTrip`, `AstReader`, `AstWriter`, `AstClone` | storing syntax trees: the layouts of all node classes, reading into linked objects with parents, file-index patching; cloning linked objects |
| `StatementBinding`, `Binder` | binding statements: the visiting binder with its stacks refines a structural translation; conditional compilation |
| `IrClosure`, `ClassBinding` | collecting the classes a unit needs, and binding classes through their hierarchy |
| `TemplateInstantiation` | re-entrant instantiation of template member functions |
| `TypeNames`, `TypeObjects` | type names of the C back end and equality by name |
| `ArrayOps` | the generated bodies of array operations, run by an interpreter |
| `ConditionPrinting`, `OperatorSigns`, `ExpressionGrammar`, `ExpressionReading`, `ExpressionPrinting` | printing expressions and reading them by the grammar of the compiler |
| `DerivationLists` | the bounded list of type derivations |
| `NamespaceClone` | taking unit tests out of a namespace while cloning it |

Objects whose fields the source updates are classes here (`Solution`, `Function`, `Reader`,
`Writer`, `Binder`, `DerivationList`, the repositories); each of their methods is proved against
a specification function or relation, about which the main theorems are lemmas.

## What the proofs found

Where the code departs from its evident intent, the model keeps the code, and a lemma states
exactly when the intent is met.

* A goto whose target does not exist is removed, so control falls through
  (`CleanPass.CleanUnsticks`, `CleanPass.InStepIff`, Ir.Intf/Function.cpp:115-122).
* A function-call debug node on a terminator would put a dummy store between two basic blocks
  (`BlockStructure.InBlocksIff`, C.Ir/Function.cpp:190-196). In this compiler it does not arise: such
  nodes are only set on call instructions (Cm.Emit/CFunctionEmitter.cpp:552 and 634).
* A then part that binds to two statements, as `delete` with a destructor does, leaks its second
  statement into the else branch; a loop body keeps only its last bound statement
  (`StatementBinding.IfBranchesIff`, `StatementBinding.WhileBodyIff`).
* An `as` expression is stored under the node type of `is` and comes back as one; a zero byte ends
  a stored string; more than 255 array dimensions are cut (`AstTable.SyntaxTreeRoundTrips`).
* A class may name itself as its base: the exception is constructed but not thrown
  (`ClassBinding.SelfDerivationAccepted`, Cm.Bind/Class.cpp:129-132). A cycle through two or more
  unbound classes is not detected at all: the recursion of `BindClass` does not end there
  (`ClassBinding.CycleNeverEnds`, `ClassBinding.EndsIff`), which is why its contract asks that no chain of
  unbound classes leads into a cycle.
* Cloning does not set every parent that reading sets: the expression of a predicate constraint, the
  name of an interface and the refinement of a concept get none when they are cloned; the global
  namespace of a compile unit gets none from either (`AstClone.CloneLinkedIff`, `AstClone.CloneWithoutParent`; Cm.Ast/Concept.cpp:242-249 and 846-853,
  Cm.Ast/Interface.cpp:21-23).
* A constant loses its span when it is cloned, so a clone is stored like its original exactly when no
  constant in it had one (`AstClone.CloneStoredAlikeIff`, Cm.Ast/Constant.cpp:22-28).
* Pointer counts are 8 bits wide: 255 stars and one more print as the base type
  (`TypeNames.OneStarTooMany`, `TypeNames.PointerDistinctIff`).
* `=>` is printed as if it associated to the left, but the grammar associates it to the right;
  a called operator expression is printed without parentheses; `-` before `-` prints as `--`; the
  decimal point of a member access is read as part of a number in front of it
  (`ExpressionPrinting.RoundTripIff`, `ExpressionPrinting.ChainIff`).
* A comparison may be read as a template id: `a < b > (c == d)` is a call of `a<b>`, `a < b >= c` and
  `a < b >> c` lose the first character of their second operator to it, and `a < (1 & b)` is refused,
  since behind `<` and a parenthesis the grammar insists on a type (`ExpressionPrinting.RoundTripIff`,
  `ExpressionPrinting.TextCaptured`, `ExpressionPrinting.ParenthesisRefused`,
  Cm.Parser/Expression.parser:317-318, Cm.Parser/TypeExpr.parser:58).
* While the tail of one instantiation runs, functions of other classes are instantiated without
  a sweep of their own class (`TemplateInstantiation.SweepCanBeSkipped`); every class is swept if no tail
  leaves its class (`TemplateInstantiation.TailsAtHomeSweepAll`).
* `RemoveLastPointer` leaves a hole when the pointer is not the last entry, and the entry behind
  it drops out of sight (`DerivationLists.DerivationList.RemoveLastPointer`).

## Model

| member | source | states |
|---|---|---|
| `BuildOrder.Solution.CreateBuildOrder` | Cm.Ast/Solution.cpp:111-144 | succeeds exactly when every name reachable from a project is declared, names a project and lies on no cycle; the result is then a build order: every project of the solution, none twice, each after a project for every dependency that is declared for it; a failure names a real cycle, a real undeclared name or a real missing project, reachable from a project |
| `BuildOrder.Traversal.Visit` | Cm.Ast/Solution.cpp:77-109 | the recursive search terminates on every graph; on success everything reachable from the name is ordered after its dependencies, nothing else is added and `tempVisit` is restored; a circular failure has a cycle because `tempVisit` is the current call path |
| `BuildOrder.Solution.ResolveDeclarations` | Cm.Ast/Solution.cpp:48-70 | succeeds exactly when no two declarations give the same project file and none gives one that was there before; then exactly the declared files have been added, each once, in the order of their declarations; a failure names a repeated file; the dependency map is that of the declarations |
| `BuildOrder.LastDeclarationWins` | Cm.Ast/Solution.cpp:48-70 | the dependency map holds, for each name, the dependencies of the last declaration made for it |
| `BuildOrder.UndeclaredStay` | Cm.Ast/Solution.cpp:48-70 | names that no declaration is made for keep their dependencies |
| `BuildOrder.BuiltInOrder` | Cm.Ast/Solution.cpp:111-144 | in a build order of an orderable solution each project comes after a project for each of its declared dependencies |
| `BuildOrder.Solution.MapProjects` | Cm.Ast/Solution.cpp:116-120 | each name is mapped to the last project so named |
| `BuildOrder.Solution.VisitProjects` | Cm.Ast/Solution.cpp:121-130 | the searches from all projects together are complete, or give a failure with its witness |
| `BuildOrder.Solution.LookUpProjects` | Cm.Ast/Solution.cpp:131-143 | the names are replaced by their projects, in order, or a name without a project is reported |
| `BuildOrder.TransitiveDependenciesFirst` | Cm.Ast/Solution.cpp:77-109 | an order that puts direct dependencies first puts every transitive dependency strictly first |
| `BuildOrder.OrderedNamesAcyclic` | Cm.Ast/Solution.cpp:77-109 | no name of such an order lies on a cycle |
| `BuildOrder.SearchIsReachability` | Cm.Ast/Solution.cpp:121-130 | the ordered names are exactly the names reachable from the projects |
| `BuildOrder.SearchOrderable` | Cm.Ast/Solution.cpp:131-143 | if every ordered name has a project, the orderability condition holds |
| `BuildOrder.SearchIsBuildOrder` | Cm.Ast/Solution.cpp:111-144 | the projects of a complete search have no duplicates, are exactly the reachable ones, and each comes after all it depends on, transitively |
| `Graphs.ClosedWalkIsCycle` | Cm.Ast/Solution.cpp:102-108 | a name met again on the call path closes a cycle through it |
| `Graphs.ClosedUnderReachable` | Cm.Bind/Class.cpp:208-274 | a set closed under its edges contains everything reachable from its members |
| `Labels.DecimalInjective` | C.Ir/Label.cpp:123-126 | different counter values have different decimal texts |
| `Labels.DecimalValue` | C.Ir/Label.cpp:123-126 | the decimal text of a counter value is that value in decimal digits, without superfluous zeros |
| `Labels.LocalLabelInjective` | C.Ir/Label.cpp:123-126 | different counter values give different local labels |
| `Labels.LabelCounter.CreateNextLocalLabel` | C.Ir/Label.cpp:121-126 | a set of names that the counter cannot produce any more does not contain the new label, and stays so when the label joins it |
| `Linearizer.EmitPreservesMeaning` | C.Ir/Function.cpp:151-199 | for every instruction list with distinct labels that fresh labels avoid, and for every meaning of the texts and every start state, the emitted lines halt in a state exactly when the live instructions halt in it; as the state is of any type, it may hold the whole trace of executed instructions |
| `Linearizer.Simulation` | C.Ir/Function.cpp:151-199 | each step of the fall-through program is matched by one or more steps of the goto program |
| `Linearizer.StepSimulated` | C.Ir/Function.cpp:151-199 | one instruction step, with its heading, explicit goto and dummy store, is matched by the emitted lines |
| `Linearizer.FindEmitted` | C.Ir/Instruction.cpp:205-278 | a label of the live instructions is found in the emitted lines exactly where its block begins |
| `Linearizer.FindMissing` | C.Ir/Instruction.cpp:205-278 | a jump target that no live instruction carries is not defined by a fresh label either |
| `BlockStructure.WellFormedIff` | C.Ir/Function.cpp:160-177 | the emitted labels are distinct and every jump is resolved exactly when the labels of the live instructions are distinct and their jumps have live targets |
| `BlockStructure.InBlocksIff` | C.Ir/Function.cpp:160-197 | each terminator is followed by a label or the end and each label is first or follows a terminator exactly when no live terminator carries a function-call debug node |
| `BlockStructure.LabelsUnique` | C.Ir/Function.cpp:160-177 | no label line occurs twice, fresh and given labels together |
| `BlockStructure.JumpsResolved` | C.Ir/Instruction.cpp:234-278 | every jump of the emitted body has a label line for each of its targets |
| `CleanPass.CleanIsExact` | Ir.Intf/Function.cpp:73-123 | if every goto has a target, the cleaned instructions do step for step what the original does, for every meaning and every start: they halt alike, run on alike and get stuck alike |
| `CleanPass.CleanedOnFields` | Ir.Intf/Function.cpp:73-123 | which labels and gotos cleaning takes away, field by field: exactly the labels that nothing jumps to and that follow no terminator, unlabelled gotos behind a terminator to the next instruction, and gotos without a target |
| `CleanPass.InStepIff` | Ir.Intf/Function.cpp:73-123 | from every position but the removed jumps to the next instruction, original and cleaned instructions run in step, for every meaning, exactly when every goto has a target (the jumps that choose between targets having theirs) |
| `CleanPass.StuckStaysIff` | Ir.Intf/Function.cpp:115-122 | cleaning never removes an instruction at which a run would get stuck exactly when every goto has a target |
| `CleanPass.CleanPreservesMeaning` | Ir.Intf/Function.cpp:73-123 | after cleaning, a program that never gets stuck halts exactly as before: removing unused labels and gotos to the next instruction changes nothing |
| `CleanPass.CleanSimulation` | Ir.Intf/Function.cpp:73-123 | a run that does not get stuck is followed step by step after cleaning |
| `CleanPass.CleanUnsticks` | Ir.Intf/Function.cpp:115-122 | a goto without a target is removed, so a program that could not go on falls through after cleaning; a concrete list shows it |
| `CleanPass.ClosedNeverStuck` | Ir.Intf/Function.cpp:73-123 | a program whose jumps all have targets never gets stuck |
| `CleanPass.CleanKeepsClosed` | Ir.Intf/Function.cpp:73-123 | cleaning keeps all jump targets of such a program |
| `CleanPass.CleanKeepsLabels` | Ir.Intf/Function.cpp:73-123 | cleaning keeps distinct labels distinct and adds none |
| `CleanPass.BackEndPreservesMeaning` | C.Ir/Function.cpp:151-199 | cleaning and then emitting preserves the meaning of every list with distinct labels, for every start from which it does not get stuck |
| `CleanPass.BackEndWellFormed` | C.Ir/Function.cpp:151-199 | for a closed list with distinct labels the emitted body is well-formed |
| `CFunction.Function.AddInstruction` | C.Ir/Function.cpp:63-76 | the instruction is appended; a result with the placeholder name becomes a register with the next number, and with a name that no other register has; other results keep their names |
| `CFunction.RegistersDiffer` | C.Ir/Function.cpp:63-76 | the registers of a function have different names |
| `CFunction.Function.RemoveUnused` | Ir.Intf/Function.cpp:75-104 | the in-place loop with `prev` and `prevPrev` drops exactly the unused labels and removes exactly the gotos to the next instruction |
| `CFunction.Function.RemoveDangling` | Ir.Intf/Function.cpp:105-122 | the in-place loop removes exactly the gotos whose target no longer exists |
| `CFunction.Function.Clean` | Ir.Intf/Function.cpp:73-123 | the whole in-place pass turns the list into its cleaned form: it drops and removes exactly what `CleanedFields` says of each instruction and its neighbours |
| `CFunction.Function.WriteInstruction` | C.Ir/Function.cpp:158-197 | writes the branch, the label, the code and the dummy store of one instruction as its block |
| `CFunction.Function.WriteDefinition` | C.Ir/Function.cpp:151-199 | writes exactly the emitted lines of the instructions that are not removed, and takes as many labels from the counter as blocks need |
| `CFunction.Function.EmitBody` | C.Ir/Function.cpp:129-199 | cleaning and writing a list with distinct labels gives a body with its meaning wherever the list does not get stuck, well-formed if the list is closed, in basic blocks unless a dummy store gets between |
| `CFunction.EmittedBodyFaithful` | C.Ir/Function.cpp:129-199 | the lines emitted for a cleaned list with distinct labels have its meaning, are well-formed if it is closed, and split into blocks exactly when no dummy store gets between |
| `Bytes.DecodeEncodeU32` | Cm.Ser/BinaryWriter.cpp:170-183 | four little-endian bytes give the number back |
| `Bytes.LowestByteFirst` | Cm.Ser/BinaryWriter.cpp:170-183 | the lowest byte of a number comes first |
| `Bytes.TextRoundTrip` | Cm.Ser/BinaryWriter.cpp:260-281 | zero-terminated text is read back, whatever follows it, exactly when it contains no zero byte |
| `AstRoundTrip.ReadWrittenTree` | Cm.Ast/Writer.cpp:31-36 | reading a written storable tree followed by any bytes gives the tree, with tags as they are reported, and leaves exactly those bytes |
| `AstRoundTrip.RoundTripsIff` | Cm.Ast/Reader.cpp:51-58 | a tree survives writing and reading, before every suffix, exactly when its fields fit their stored form and no tag is reported as another |
| `AstRoundTrip.ReadTreeStorable` | Cm.Ast/Reader.cpp:51-58 | whatever is read, from any bytes, fits its stored form |
| `AstRoundTrip.WriteInjective` | Cm.Ast/Writer.cpp:31-36 | no written tree is a proper prefix of another, and different trees have different bytes |
| `AstRoundTrip.ReadPatchedTree` | Cm.Ast/Reader.cpp:36-49 | reading any bytes with a replacement file index or an offset gives the plain reading with every span mapped, and consumes the same bytes |
| `AstRoundTrip.PatchedSpan` | Cm.Ast/Reader.cpp:36-49 | a span that is read with a patch has its own positions, and the replacement as file index, or its own plus a positive offset |
| `AstRoundTrip.SpanRoundTrip` | Cm.Ast/Writer.cpp:26-29 | a span is stored as its raw fields |
| `AstTable.WritesMatchReads` | Cm.Ast/Factory.cpp:81-243 | for every registered node type, `Write` writes the fields that `Read` reads, in order |
| `AstTable.AstConsistent` | Cm.Ast/Factory.cpp:67-80 | the node type that is written selects a class with the same layout |
| `AstTable.RetagKeeps` | Cm.Ast/Expression.hpp:520 | reporting the tags changes a tree exactly when it holds an `as` expression |
| `AstTable.SyntaxTreeRoundTrips` | Cm.Ast/Node.cpp:126-242 | a syntax tree survives being written and read exactly when its fields fit their stored form and it holds no `as` expression |
| `AstReader.Reader.ReadNode` | Cm.Ast/Reader.cpp:51-58 | reading into linked objects gives fresh objects that represent the tree of the stream, each child but the global namespace of a compile unit with the node holding it as parent, or fails as the stream does |
| `AstReader.OneTree` | Cm.Ast/Reader.cpp:51-58 | linked objects represent one tree only |
| `AstReader.ParentsAre` | Cm.Ast/Statement.cpp:31-48 | the parent of a child is the node that holds it, if its class adopts it, and nothing otherwise |
| `AstReader.Reader.ReadFieldsOf` | Cm.Ast/Function.cpp:110-137 | the fields are read one after the other into the node |
| `AstReader.Reader.ReadField` | Cm.Ast/Statement.cpp:31-48 | one field: a child, an optional child behind its flag, a counted list or a leaf |
| `AstReader.Reader.ReadList` | Cm.Ast/Node.cpp:217-232 | a counted list of nodes is read, all parents set |
| `AstReader.Reader.ReadDerivationList` | Cm.Ast/Reader.cpp:332-341 | the count and the derivations of a derivation list |
| `AstReader.Reader.ReadString` | Cm.Ser/BinaryReader.cpp:243-264 | text up to the next zero byte |
| `AstReader.Reader.SetParents` | Cm.Ast/Node.cpp:217-223 | every node of the list gets the parent |
| `AstWriter.Writer.WriteNode` | Cm.Ast/Writer.cpp:31-36 | appends exactly the stored form of the tree that the objects represent |
| `AstWriter.Writer.WriteFieldsOf` | Cm.Ast/Function.cpp:139-163 | the payload of a node, field by field |
| `AstWriter.Writer.WriteList` | Cm.Ast/Node.cpp:234-242 | the count, cut to its width, and that many nodes |
| `AstWriter.Copy` | Cm.Ast/Reader.cpp:51-58 | a storable tree written and read back is a fresh, disjoint copy with the parents that `Read` sets |
| `AstClone.Clone` | Cm.Ast/Statement.cpp:1045-1056 | the clone of linked node objects consists of new objects only, which represent the tree of the original, constants without their spans, with exactly the parents that the constructors and setters called by `Clone` set; the original stays as it is |
| `AstClone.CloneLinkedIff` | Cm.Ast/Concept.cpp:846-876 | every child in a clone has the node holding it as parent exactly when the tree holds no predicate constraint, no interface, no refined concept and no compile unit |
| `AstClone.CloneWithoutParent` | Cm.Ast/Concept.cpp:242-249 | the expression in a cloned predicate constraint has no parent |
| `AstClone.LinkedIff` | Cm.Ast/Interface.cpp:21-33 | objects with the parents that cloning sets are fully linked exactly when the tree has none of the fields whose parent cloning leaves out |
| `AstClone.CloneItem` | Cm.Ast/Expression.cpp:425-433 | one child, optional child, list of children or value of a node is copied into its clone, and linked to it if the constructor or setter does so |
| `AstClone.CloneNodes` | Cm.Ast/Statement.cpp:1045-1056 | the clones of a list of nodes, in order, all new and apart from each other |
| `AstClone.ClonedIff` | Cm.Ast/Constant.cpp:22-33 | for trees without functions, a clone is the tree of its original exactly when no constant in it has a span |
| `AstClone.CloneStoredAlikeIff` | Cm.Ast/Constant.cpp:22-33 | for every storable tree without functions, a clone is stored as the same bytes as its original exactly when no constant in it has a span |
| `AstClone.ClonedStorable` | Cm.Ast/Writer.cpp:31-36 | the clone of a storable tree is storable |
| `Binder.Binder.Visit` | Cm.Bind/Binder.cpp:418-721 | visiting any statement restores the parent, scope and switch stacks and appends to the current parent exactly the statements of the structural translation, in order, or fails as the translation does; leaves, `goto case` and conditional compilation append what their binders or their chosen part give |
| `Binder.Binder.VisitCompound` | Cm.Bind/Binder.cpp:418-464 | one block is appended that holds all bound statements, in order, bound in a scope of its own |
| `Binder.Binder.VisitIf` | Cm.Bind/Binder.cpp:513-543 | one bound `if` is appended with the condition, the first bound statement as its then branch and the last of the others as its else branch |
| `Binder.Binder.VisitFor` | Cm.Bind/Binder.cpp:472-504 | one bound `for` is appended with condition and increment, the first bound statement as initializer and the last of the others as action, all bound in its scope |
| `Binder.Binder.VisitSwitch` | Cm.Bind/Binder.cpp:545-579 | one bound switch is appended with its condition, its cases in order and its default statement; the switch stack holds it during its cases and is restored |
| `Binder.Binder.VisitCase` | Cm.Bind/Binder.cpp:581-611 | one bound case is appended with its values and all its bound statements, in order |
| `Binder.Binder.VisitDefault` | Cm.Bind/Binder.cpp:613-643 | one bound default statement is appended with all its bound statements, in order |
| `Binder.Binder.VisitWhile` | Cm.Bind/Binder.cpp:659-689 | one bound `while` is appended with its condition and the last bound statement of its body |
| `Binder.Binder.VisitDo` | Cm.Bind/Binder.cpp:691-721 | one bound `do` is appended with its condition and the last bound statement of its body |
| `Binder.Binder.VisitFunctionBlock` | Cm.Bind/Binder.cpp:442-464 | the body of the function becomes the full translation of its block |
| `Binder.Binder.VisitCondition` | Cm.Bind/Binder.cpp:840-864 | the evaluation stack gains exactly the truth value of the expression; it is never popped when empty |
| `Binder.Binder.ChoosePart` | Cm.Bind/Binder.cpp:866-919 | the first true part, else the else part, else nothing is chosen; the evaluation stack is empty after every part |
| `StatementBinding.BindResolved` | Cm.Bind/Binder.cpp:866-919 | binding a statement with conditional compilation nested anywhere equals binding it with each such statement replaced by the part that is chosen |
| `StatementBinding.BindResolvedList` | Cm.Bind/Binder.cpp:866-919 | the same for statement lists |
| `StatementBinding.BindListAppend` | Cm.Bind/Binder.cpp:418-721 | lists are translated piece by piece |
| `StatementBinding.CompoundBindsAll` | Cm.BoundTree/BoundStatement.cpp:190-194 | a block holds the translations of all its statements, in order |
| `StatementBinding.IfBranchesIff` | Cm.BoundTree/BoundStatement.cpp:1234-1245 | the branches of a bound `if` are its two parts exactly when each part binds to at most one statement and the then part to one if the else part does |
| `StatementBinding.WhileBodyIff` | Cm.BoundTree/BoundStatement.cpp:1305-1309 | a bound loop has the whole body exactly when it binds to at most one statement |
| `StatementBinding.ForPartsIff` | Cm.BoundTree/BoundStatement.cpp:1490-1501 | the same for initializer and action of a bound `for` |
| `StatementBinding.SwitchParts` | Cm.BoundTree/BoundStatement.cpp:950-961 | cases stay in order and apart from the default statement |
| `StatementBinding.IfFinished` | Cm.BoundTree/BoundStatement.cpp:1229-1245 | what a bound `if` is made of, for all parts, or which of them fails first |
| `StatementBinding.IfTranslated` | Cm.BoundTree/BoundStatement.cpp:1229-1245 | if the then part binds to one statement and the else part to at most one, they are the two branches, next to the condition |
| `StatementBinding.WhileFinished` | Cm.BoundTree/BoundStatement.cpp:1300-1309 | what a bound `while` is made of |
| `StatementBinding.DoFinished` | Cm.Bind/Binder.cpp:691-721 | what a bound `do` is made of |
| `StatementBinding.ForFinished` | Cm.BoundTree/BoundStatement.cpp:1480-1501 | what a bound `for` is made of, condition and increment each in its place |
| `StatementBinding.SwitchFinished` | Cm.BoundTree/BoundStatement.cpp:950-961 | what a bound switch of cases and a default statement is made of |
| `StatementBinding.CaseFinished` | Cm.Bind/Binder.cpp:581-611 | what a bound case is made of, its values with it |
| `StatementBinding.DefaultFinished` | Cm.Bind/Binder.cpp:613-643 | what a bound default statement is made of |
| `StatementBinding.FirstTruePart` | Cm.Bind/Binder.cpp:866-919 | the first true part of conditional compilation is chosen, then the else part; a part without an expression in front of it is an error |
| `StatementBinding.ConditionLaws` | Cm.Bind/Binder.cpp:840-864 | excluded middle, De Morgan and absorption hold of the operators of conditions, and only the named symbol decides a symbol |
| `IrClosure.Repositories.AddClassType` | Cm.Bind/Class.cpp:208-274 | terminates on every finite class graph, cyclic or not; everything new is reachable, and of every new class the base, the member types and the return and parameter types of virtual functions are in the repositories; exactly the new templates are bound; nothing happens in a prebind unit |
| `IrClosure.AddsExactlyTheReachable` | Cm.Bind/Class.cpp:208-274 | from a repository closed under its edges a call adds exactly the classes reachable from its argument and leaves the repository closed, with all interfaces |
| `IrClosure.SaturatedFollows` | Cm.Bind/Class.cpp:208-274 | in a closed repository the base, member types, return and parameter types of every class are there |
| `IrClosure.RefsAre` | Cm.Bind/Class.cpp:219-271 | what a class leads to, field by field |
| `IrClosure.InterfacesHaveReason` | Cm.Bind/Class.cpp:227-263 | every interface that a call records is implemented or named by a class that it adds |
| `IrClosure.Repositories.AddInterfaces` | Cm.Bind/Class.cpp:227-230 | the implemented interfaces are recorded |
| `IrClosure.Repositories.AddMembers` | Cm.Bind/Class.cpp:231-242 | the base types of the member variables are followed |
| `IrClosure.Repositories.AddVtbl` | Cm.Bind/Class.cpp:243-273 | the signatures of all virtual functions are followed, empty slots skipped |
| `IrClosure.Repositories.AddSignature` | Cm.Bind/Class.cpp:249-271 | return type and parameter types of one virtual function are followed: the classes and interfaces among them are in the repositories |
| `IrClosure.AddingClass` | Cm.Bind/Class.cpp:223-226 | a finished nested call keeps what the outer call has established |
| `IrClosure.AddingEnds` | Cm.Bind/Class.cpp:208-274 | when all references have been followed the call has done its work |
| `ClassBinding.SymbolTable.BindClass` | Cm.Bind/Class.cpp:48-206 | if no chain of unbound classes leads into a cycle, it terminates and succeeds exactly when no class that has to be bound is at fault; then exactly these classes are bound, each with the access, flags, base and interfaces that it declares, over base classes that are accessible enough (public over public, internal over internal or public, protected over all but private), and no other symbol changes; a failure names a fault of one of them |
| `ClassBinding.EndsIff` | Cm.Bind/Class.cpp:138-149 | the nesting of the calls, in which no declaration is at fault, has a bound exactly when no chain of unbound classes leads into a cycle |
| `ClassBinding.CycleNeverEnds` | Cm.Bind/Class.cpp:138-149 | a call for a class on a cycle of unbound classes does not end within any number of nested calls |
| `ClassBinding.SymbolTable.BindBase` | Cm.Bind/Class.cpp:120-197 | one base type expression: its class is bound first, compared in access and made the base, or its interface is added, or the fault is reported |
| `ClassBinding.SymbolTable.SetAccess` | Cm.Bind/Access.cpp:17-51 | each specifier gives its access; two of them, or protected or private outside a class, are refused; without one a member is private and another class internal |
| `ClassBinding.SymbolTable.CheckSpecifiers` | Cm.Bind/Class.cpp:68-115 | succeeds exactly when none of the twelve forbidden specifiers is given |
| `ClassBinding.BindKeepsSound` | Cm.Bind/Class.cpp:120-205 | a successful call keeps the hierarchy sound: an ancestor with a source node is bound before its descendant and is at least as accessible |
| `ClassBinding.AccessNeverFalls` | Cm.Bind/Class.cpp:150-153 | in a sound hierarchy accessibility never falls along the whole base chain of a bound class (all above a public class are public, all above an internal one internal or public, none above a protected one private), and the chain is bound |
| `ClassBinding.LessAccessibleIff` | Cm.Bind/Class.cpp:150-153 | a base class that is named is reported as less accessible exactly if it is not public and the class is, is private or protected and the class is internal, or is private and the class is protected |
| `ClassBinding.PublicOverInternal` | Cm.Bind/Class.cpp:150-153 | no call succeeds that has to bind a public class over an internal one |
| `ClassBinding.AcceptableIff` | Cm.Bind/Class.cpp:48-197 | a declaration is accepted exactly if its access is valid, it has no other specifiers than `static`, `abstract` and `unit_test`, names one other class at most, accessible enough, no interface twice, and nothing else |
| `ClassBinding.SymbolsBound` | Cm.Bind/Class.cpp:117-205 | a bound class has the flags that its specifiers say, the class among its base terms as base and the interfaces among them in their order; no other symbol changes |
| `ClassBinding.AtMostOneBase` | Cm.Bind/Class.cpp:134-137 | a class bound for the first time names at most one class other than itself |
| `ClassBinding.SelfDerivationAccepted` | Cm.Bind/Class.cpp:129-132 | for every class, terms by which it derives from itself cause no fault, and without them it has the same faults and becomes the same symbol: the exception is made but not thrown |
| `ClassBinding.TodoOfBase` | Cm.Bind/Class.cpp:138-149 | a nested call only binds classes that the outer call has to bind, and never the class itself |
| `ClassBinding.SameFaults` | Cm.Bind/Class.cpp:138-153 | binding other classes does not change what is wrong with a class that is still to be bound |
| `ClassBinding.AboveDecreases` | Cm.Bind/Class.cpp:138-149 | the set of unbound classes above a class shrinks from a class to its base: the recursion ends |
| `TypeNames.EqualByNameIff` | C.Ir/Type.cpp:749-752 | two types that the constructors can build, function types and pointers to functions included, are equal by name exactly when they are the same up to rvalue marks and pointers that have lost all stars |
| `TypeNames.EqualByNameWhenStarred` | C.Ir/Type.cpp:749-752 | while no star count has wrapped to zero, equality by name is structural equality up to rvalue marks |
| `TypeNames.NamesAreReadable` | C.Ir/Type.cpp:512-523 | every name can be read back as the type, as far as a name shows it |
| `TypeNames.ReadName` | C.Ir/Type.cpp:557-590 | a name is read up to its end whatever may follow it: names are uniquely readable inside others |
| `TypeNames.NameOfShown` | C.Ir/Type.cpp:512-523 | what a name does not show does not change it |
| `TypeNames.PointersAreWellBuilt` | C.Ir/Type.cpp:597-615 | the base of a pointer is never a pointer, and counts stay within 8 bits |
| `TypeNames.PointerDistinctIff` | C.Ir/Type.cpp:607-615 | a pointer type has the name of the type it was made of exactly when the added stars are a multiple of 256 and the type is no function type |
| `TypeNames.OneStarTooMany` | C.Ir/Type.cpp:597-605 | 255 stars and one more give the name of the base type |
| `TypeNames.RvalueRefIsPointer` | C.Ir/Type.cpp:635-643 | an rvalue reference has the name of the pointer with one star more |
| `TypeObjects.CreateFunctionType` | C.Ir/Type.cpp:645-675 | succeeds exactly when none of the component types is owned and none is given twice; the name put together in the loop is that of the function type, and all components become owned |
| `TypeObjects.NewPointer` | C.Ir/Type.cpp:512-523 | the name put together from prefix and suffix is that of the pointer type, and the base becomes owned |
| `TypeObjects.Suffix` | C.Ir/Type.cpp:567-590 | the parameter list behind the stars of a pointer to a function |
| `ArrayOps.DefaultConstructorBody` | Cm.Bind/ArrayTypeOpRepository.cpp:246-263 | for every n the generated body ends, constructs elements 0 to n-1 with the default value, each once and in order, and touches nothing else |
| `ArrayOps.CopyBody` | Cm.Bind/ArrayTypeOpRepository.cpp:291-311 | for every n the generated copy bodies end and write only the destination; unless the destination begins inside the source after its start, each element is fetched once and its copy written once, in order, and the destination holds the copies |
| `ArrayOps.CopyRightIff` | Cm.Bind/ArrayTypeOpRepository.cpp:356-371 | copying is right for all contents exactly when the destination does not begin inside the source after its start |
| `ArrayOps.CopiedOverlap` | Cm.Bind/ArrayTypeOpRepository.cpp:356-371 | when it does, the first element is copied again where another belongs |
| `ArrayOps.ConstructLoop` | Cm.Bind/ArrayTypeOpRepository.cpp:250-263 | the loop of the default constructor, for any number of turns |
| `ArrayOps.CopyLoop` | Cm.Bind/ArrayTypeOpRepository.cpp:296-311 | the copying loops, for any number of turns |
| `ArrayOps.EventsInOrder` | Cm.Bind/ArrayTypeOpRepository.cpp:296-311 | the accesses of a safe copy are fetch and write of each element in order |
| `ArrayOps.GenerateArrayTypeDefaultConstructor` | Cm.Bind/ArrayTypeOpRepository.cpp:246-263 | the tree that is built is the loop whose meaning is proved |
| `ArrayOps.GenerateArrayTypeCopyConstructor` | Cm.Bind/ArrayTypeOpRepository.cpp:291-311 | the tree that is built is the copy-constructing loop |
| `ArrayOps.GenerateArrayTypeCopyAssignment` | Cm.Bind/ArrayTypeOpRepository.cpp:354-371 | the tree that is built is the copy-assigning loop |
| `ConditionPrinting.ReadingKeepsMeaning` | Cm.Ast/Statement.cpp:1816-1837 | every conditional-compilation expression that is printed and read by the grammar has the same truth value for every set of defined symbols |
| `ConditionPrinting.PrintedIsRead` | Cm.Ast/Statement.cpp:1790-1793 | what is read back is the expression associated to the left |
| `ConditionPrinting.SameTreeIff` | Cm.Ast/Statement.cpp:1872-1884 | the same tree comes back exactly when no operator is the right operand of the same operator |
| `ConditionPrinting.SameMeaning` | Cm.Ast/Statement.cpp:1816-1837 | associating to the left keeps the truth value |
| `ExpressionPrinting.RoundTripIff` | Cm.Ast/Node.cpp:126-205 | the text of an operator expression, scanned and read by the grammar, gives the expression again exactly when no right operand has the rank of its operator (for `=>`, no left operand), what is called is at most a postfix expression, no prefix operator touches a token that it is glued to, no point a number, and no name in the text is read as the start of a template id |
| `ExpressionPrinting.TextScanned` | Cm.Ast/Node.cpp:126-205 | the characters of the text are scanned as the tokens that were printed exactly when nothing in it is glued, and never as more tokens |
| `ExpressionPrinting.NoLessUncaptured` | Cm.Parser/Template.parser:26-43 | a text without `<` has no template ids, so the round trip there depends on ranks and touching operators alone |
| `ExpressionPrinting.ComparisonCaptured` | Cm.Parser/Expression.parser:309-323 | a comparison of a comparison of two names, as in `a < b > (c == d)` or `a < b >= c`, never comes back, though it is faithful and nothing in it is glued |
| `ExpressionPrinting.TextCaptured` | Cm.Parser/Template.parser:26-43 | no text that starts with `a < b >`, `a < b >=` or `a < b >>` is read as what was printed, as its start is read as a template id |
| `ExpressionPrinting.ParenthesisRefused` | Cm.Parser/TypeExpr.parser:54-59 | `a < (x)` is an error whenever what is in the parentheses does not start like a type |
| `ExpressionReading.LeastText` | Cm.Parser/Expression.parser:33-330 | the text with exactly the needed parentheses is the shortest that is read as the expression, and the only one of its length; no name in what is so read starts a template id |
| `ExpressionReading.ReadLevel` | Cm.Parser/Expression.parser:33-254 | that text is read as the expression, at each level of the grammar, if no name in it starts a template id |
| `ExpressionReading.ReadPostfix` | Cm.Parser/Expression.parser:285-323 | the same for chains of calls, members, indices and postfix steps |
| `ExpressionReading.PrintedLength` | Cm.Ast/Expression.cpp:454-514 | the printer writes that text, or a shorter one exactly when parentheses are missing |
| `ExpressionReading.SoundLevel` | Cm.Parser/Expression.parser:33-254 | whatever is read as an expression without template ids is at least as long as its least text, and every name in it was tried as a template id in vain |
| `ExpressionGrammar.RanksAreLevels` | Cm.Ast/Rank.hpp:15-18 | the ranks that the printer goes by are the levels at which the grammar reads the operators |
| `ExpressionPrinting.LexText` | Cm.Ast/Expression.cpp:454-514 | before whatever follows it, the text of an expression is scanned as its tokens, or, where something is glued, as different ones that are no more |
| `ExpressionPrinting.PrefixReadsLongest` | Cm.Parser/Expression.parser:255-267 | the alternatives of the prefix rule read the longest operator |
| `ExpressionPrinting.ChainIff` | Cm.Ast/Node.cpp:137-151 | a chain of prefix operators in front of an operand is scanned as it was printed exactly when no minus, plus or `&` stands before another of its kind |
| `TemplateInstantiation.ClassTemplateRepository.Instantiate` | Cm.Bind/ClassTemplateRepository.cpp:278-387 | for all re-entrant runs: the recursion ends, the function is instantiated if it has a node, everything that is marked has a body or is defaulted, its calls are answered and it is listed, none twice; an outermost call instantiates the destructor of the class, and everything else that is marked has been asked for; the file scopes are balanced, and `recursed` is what it was, on an exception too; it fails only if the function it names is at fault and the call leads to it |
| `TemplateInstantiation.ClassTemplateRepository.InstantiateVirtualFunctionsFor` | Cm.Bind/ClassTemplateRepository.cpp:389-412 | each class is swept once; every virtual function that the class defines itself and that is not abstract is then instantiated, if it has a node; an abstract function or one of another class only if a body or a destructor asks for it; a failure has a fault that the class leads to |
| `TemplateInstantiation.ClassTemplateRepository.BindBody` | Cm.Bind/ClassTemplateRepository.cpp:329-373 | binding a body settles all it asks for, and restores the file scopes, or fails for a fault that it leads to |
| `TemplateInstantiation.ClassTemplateRepository.RunTail` | Cm.Bind/ClassTemplateRepository.cpp:374-386 | destructor and virtual functions of the class are handled unless the flag is set, and the flag is reset on every way out; all that it marks comes from that tail; a failure has a fault that it leads to |
| `TemplateInstantiation.ClassTemplateRepository.Mark` | Cm.Bind/ClassTemplateRepository.cpp:289-316 | the function is marked, its class recorded, and a pending constraint checked once; it succeeds exactly when the parent is a template type and the pending constraint is satisfied |
| `TemplateInstantiation.RanBoth` | Cm.Bind/ClassTemplateRepository.cpp:278-412 | runs compose: what one run keeps, two keep |
| `TemplateInstantiation.RanInstantiate` | Cm.Bind/ClassTemplateRepository.cpp:278-387 | marking, body, tail and listing together are a run |
| `TemplateInstantiation.ListStaysComplete` | Cm.Bind/ClassTemplateRepository.cpp:386 | between outermost calls the list holds exactly the marked functions, each once |
| `TemplateInstantiation.StaysComplete` | Cm.Bind/ClassTemplateRepository.cpp:278-412 | between outermost calls nothing is left undone for marked functions, swept classes and functions marked outside a tail |
| `TemplateInstantiation.OnlyItsClassIsSwept` | Cm.Bind/ClassTemplateRepository.cpp:374-385 | which classes a run sweeps, when no body asks for a sweep |
| `TemplateInstantiation.NothingBlocks` | Cm.Bind/ClassTemplateRepository.cpp:278-412 | a run of a fresh repository that ends normally has met no fault, and there is none that bodies lead to |
| `TemplateInstantiation.SweepDone` | Cm.Bind/ClassTemplateRepository.cpp:389-412 | what a sweep instantiates, in the fields of the functions, and why |
| `TemplateInstantiation.InstantiationDone` | Cm.Bind/ClassTemplateRepository.cpp:278-387 | what an instantiation has done, in the fields of the functions |
| `TemplateInstantiation.TailsAtHomeSweepAll` | Cm.Bind/ClassTemplateRepository.cpp:374-386 | if no tail leads to a function of another class that is not swept yet, the class of every instantiated function is swept |
| `TemplateInstantiation.SweptForAReason` | Cm.Bind/ClassTemplateRepository.cpp:374-386 | every class that is swept is the class of a function that bodies lead to, or is asked for by the body of a function that bodies and tails lead to |
| `TemplateInstantiation.TailsAwaySkip` | Cm.Bind/ClassTemplateRepository.cpp:374-386 | a class that is neither is not swept, even if a tail instantiates its functions |
| `TemplateInstantiation.SweepCanBeSkipped` | Cm.Bind/ClassTemplateRepository.cpp:374-385 | a call that ends normally: a function that only the destructor of another class needs is instantiated, but its own class is not swept |
| `DerivationLists.DerivationList.Add` | Cm.Ast/TypeExpr.cpp:36-43 | appends unless there are seven entries |
| `DerivationLists.DerivationList.InsertFront` | Cm.Ast/TypeExpr.cpp:45-54 | prepends unless there are seven entries, by moving the entries backward |
| `DerivationLists.DerivationList.RemoveLastPointer` | Cm.Ast/TypeExpr.cpp:56-67 | the entry of the last pointer is emptied and the count lowered; the result is the list without it, with unused slots empty, exactly when the pointer was the last entry |
| `DerivationLists.DerivationList.RemoveReference` | Cm.Ast/TypeExpr.cpp:77-82 | an order-preserving filter |
| `DerivationLists.DerivationList.RemoveReferenceOrRvalueRef` | Cm.Ast/TypeExpr.cpp:92-97 | an order-preserving filter |
| `DerivationLists.FilterKeeps` | Cm.Ast/TypeExpr.cpp:77-97 | the filter removes all of what it names and keeps every other entry with its multiplicity |
| `DerivationLists.FilterInOrder` | Cm.Ast/TypeExpr.cpp:77-97 | what is kept stays in order |
| `DerivationLists.AddThenRemovePointer` | Cm.Ast/TypeExpr.cpp:36-67 | adding a pointer and removing the last pointer leaves the list as it was |
| `DerivationLists.DerivationList.Equals` | Cm.Ast/TypeExpr.cpp:99-108 | true exactly for equal contents |
| `DerivationLists.DerivationList.LessThan` | Cm.Ast/TypeExpr.cpp:110-139 | true exactly when the contents are ordered by length and then by the first difference |
| `DerivationLists.LessIsTotal` | Cm.Ast/TypeExpr.cpp:110-139 | the order is asymmetric, and lists that it does not order are equal |
| `DerivationLists.LessIsTransitive` | Cm.Ast/TypeExpr.cpp:110-139 | the order is transitive |
| `DerivationLists.DerivationsInOrder` | Cm.Ast/TypeExpr.cpp:110-139 | the derivations by themselves are ordered as they are declared |
| `DerivationLists.FirstDifferenceDecides` | Cm.Ast/TypeExpr.cpp:110-139 | the first difference decides the order of lists of one length |
| `NamespaceClone.Clone` | Cm.Ast/Namespace.cpp:37-54 | with test units on, the clone is the original without its namespace-level unit tests, every other member in its place at every depth, and the context gains exactly these tests, each with the namespace of the original as parent, in order; with test units off the clone equals the original |
| `NamespaceClone.SplitConserves` | Cm.Ast/Namespace.cpp:37-54 | no declaration is lost or duplicated |

## Left out

* File paths, the file system, console output, error message texts and debug line numbers.
* The header, parameter list, register declarations, comments and indentation that
  `WriteDefinition` writes around the body, and replacing function pointer types by typedefs.
* The LLVM back end, the values of floating-point literals (they are raw bytes of their width), and
  the buffering of the binary streams.
* Try, catch, throw and range-for statements, trace calls in blocks and functions, and overload
  resolution: single statements and conditions are translated by given functions.
* Parent links of bound statements, and the scopes' contents: only which scope is current is modelled.
* `CompileUnitNode` gives its global namespace no parent; enumerations do not store their
  underlying type; these fields are as the code stores them, so the round trip is that of the
  stored fields.
* Cloning while a class or function template is instantiated, and cloning of functions, whose bodies
  become body sources then; in the cloning of namespaces the other members are copied as they are.
* Printing of `is`, `as`, casts, `construct`, `new`, `sizeof`, `typename`, template ids and literals:
  these stand as single words, told apart only as far as the grammar looks at them (identifiers, types,
  plain decimal numbers, others); `const` does not occur; the grammar's context flags are those of an
  ordinary expression in a concept, where `=>` and `<=>` are allowed outside template ids.
* The grammar reads characters, rule by rule; the model reads longest operators, and takes the closing
  `>` of a template id from the front of `>>` and `>=` as the grammar does.
* Class symbols are records of a symbol table, not separate objects; the node of an interface is not
  bound; which type a base type expression denotes is given.
* Bodies bound by the template repository ask for a given list of calls; constraint checks do
  not call back into the repository.
* Class graphs of the closure are fixed during a call: what binding a template adds is part of the
  graph from the start, and the virtual functions it instantiates are those of `TemplateInstantiation`.
* Array and structure types, and the names that `ReplaceFunctionPtrTypes` sets later.
* Overloads of array operations for elements with a destructor, moves, and n-dimensional arrays.
* `NamespaceNode::GetNamespace`, profiler, debugger, IDE code completion and the parsers
  themselves, the two grammars above aside.
- ClassBinding.SymbolTable.BindClass: asks that no chain of unbound classes leads from the class into a cycle, because there the recursion of the source does not end (`EndsIff`).
- AstClone.CloneStoredAlikeIff: asks for trees without functions, as does `ClonedIff`, because a function's clone is put together differently (its group name is built anew, template parameters are dropped).
- CleanPass.InStepIff: takes the targets of branches and switches as given, because a removed goto may otherwise be followed by an instruction that gets stuck like it.
- TemplateInstantiation.TailsAtHomeSweepAll: goes one way, because which classes are swept otherwise depends on the order in which tails and bodies reach their functions.
- TemplateInstantiation.ClassTemplateRepository.InstantiateVirtualFunctionsFor: is modelled outside prebinding only, where `Instantiate` does nothing.
- CleanPass.CleanPreservesMeaning: asks for runs that never get stuck, because removing gotos without a target changes the others (`CleanUnsticks` shows one); `CleanIsExact` needs no such condition where all gotos have targets.
- ArrayOps.DefaultConstructorBody: takes n below 2^31, the range of the loop variable.
