/** The binary layouts of the syntax tree classes: for each node type, in the numbering of
    the `NodeType` enumeration (Cm.Ast/Node.hpp), the calls that its class makes in `Read` and
    in `Write`, inherited ones included.  Specifiers, numbers, characters and truth values are
    raw fields of their width. */
module AstTable {
  import opened AstRoundTrip
  import opened AstStream
  import opened Bytes
  import opened Options

  // The node types accepted by the typed reads of Cm.Ast/Reader.cpp.
  const IDENTIFIER := OneOf({75})
  const PARAMETER := OneOf({80})
  const TEMPLATE_PARAMETER := OneOf({132})
  const WHERE_CONSTRAINT := OneOf({119})
  const FUNCTION_GROUP_ID := OneOf({131})
  const LABEL := OneOf({84})
  const CONCEPT_ID := OneOf({129})
  const NAMESPACE := OneOf({146})
  const AXIOM_STATEMENT := OneOf({128})
  const STATEMENT := OneOf({85, 86, 87, 88, 89, 90, 91, 92, 93, 94, 95, 96, 97, 98, 99, 100, 101, 102, 103, 104, 105, 106, 107, 109, 116})
  const COMPOUND := OneOf({97})
  const CC_EXPR := OneOf({110, 111, 112, 113})
  const CC_SYMBOL := OneOf({114})
  const CC_PART := OneOf({115})
  const CONSTRAINT := OneOf({117, 118, 119, 120, 121, 122, 123, 124, 125, 126, 152})
  const INITIALIZER := OneOf({135, 136, 137})

  const IS_NODE: byte := 73
  const AS_NODE: byte := 74

  // ---------------------------------------------------------------- types and literals

  function LiteralReads(tag: byte): Option<seq<Field>> {
    match tag
    // bool, sbyte, byte, short, ushort, int, uint, long, ulong, float, double, char, wchar, uchar, void,
    // nullLiteral
    case 0 | 1 | 2 | 3 | 4 | 5 | 6 | 7 | 8 | 9 | 10 | 11 | 12 | 13 | 14 | 30 =>
      Some([])
    // booleanLiteral, sbyteLiteral, byteLiteral, charLiteral
    case 15 | 16 | 17 | 26 =>
      Some([RawField(1)])
    // shortLiteral, ushortLiteral
    case 18 | 19 =>
      Some([RawField(2)])
    // intLiteral, uintLiteral, floatLiteral
    case 20 | 21 | 24 =>
      Some([RawField(4)])
    // longLiteral, ulongLiteral, doubleLiteral
    case 22 | 23 | 25 =>
      Some([RawField(8)])
    // stringLiteral, wstringLiteral, ustringLiteral
    case 27 | 28 | 29 =>
      Some([TextField])
    // derivedTypeExpr
    case 31 =>
      Some([DerivationsField, OneField(Any), ManyField(U8, Any)])
    case _ =>
      None
  }

  function LiteralWrites(tag: byte): seq<Field> {
    match tag
    // bool, sbyte, byte, short, ushort, int, uint, long, ulong, float, double, char, wchar, uchar, void,
    // nullLiteral
    case 0 | 1 | 2 | 3 | 4 | 5 | 6 | 7 | 8 | 9 | 10 | 11 | 12 | 13 | 14 | 30 =>
      []
    // booleanLiteral, sbyteLiteral, byteLiteral, charLiteral
    case 15 | 16 | 17 | 26 =>
      [RawField(1)]
    // shortLiteral, ushortLiteral
    case 18 | 19 =>
      [RawField(2)]
    // intLiteral, uintLiteral, floatLiteral
    case 20 | 21 | 24 =>
      [RawField(4)]
    // longLiteral, ulongLiteral, doubleLiteral
    case 22 | 23 | 25 =>
      [RawField(8)]
    // stringLiteral, wstringLiteral, ustringLiteral
    case 27 | 28 | 29 =>
      [TextField]
    // derivedTypeExpr
    case 31 =>
      [DerivationsField, OneField(Any), ManyField(U8, Any)]
    case _ =>
      []
  }

  // ---------------------------------------------------------------- operators

  function OperatorReads(tag: byte): Option<seq<Field>> {
    match tag
    // equivalence, implication, disjunction, conjunction, bitOr, bitXor, bitAnd, equal, notEqual, less,
    // greater, lessOrEqual, greaterOrEqual, shiftLeft, shiftRight, add, sub, mul, div, rem, index, dot, arrow,
    // cast, is, as
    case 32 | 33 | 34 | 35 | 36 | 37 | 38 | 39 | 40 | 41 | 42 | 43 | 44 | 45 | 46 | 47 | 48 | 49 | 50 |
         51 | 53 | 54 | 55 | 68 | 73 | 74 =>
      Some([OneField(Any), OneField(Any)])
    // invoke, new, construct
    case 52 | 69 | 70 =>
      Some([OneField(Any), ManyField(U32, Any)])
    // postfixInc, postfixDec, deref, addrOf, not, unaryPlus, unaryMinus, complement, prefixInc, prefixDec,
    // sizeOf, typeName
    case 56 | 57 | 58 | 59 | 60 | 61 | 62 | 63 | 64 | 65 | 66 | 67 =>
      Some([OneField(Any)])
    // this, base
    case 71 | 72 =>
      Some([])
    case _ =>
      None
  }

  function OperatorWrites(tag: byte): seq<Field> {
    match tag
    // equivalence, implication, disjunction, conjunction, bitOr, bitXor, bitAnd, equal, notEqual, less,
    // greater, lessOrEqual, greaterOrEqual, shiftLeft, shiftRight, add, sub, mul, div, rem, index, dot, arrow,
    // cast, is, as
    case 32 | 33 | 34 | 35 | 36 | 37 | 38 | 39 | 40 | 41 | 42 | 43 | 44 | 45 | 46 | 47 | 48 | 49 | 50 |
         51 | 53 | 54 | 55 | 68 | 73 | 74 =>
      [OneField(Any), OneField(Any)]
    // invoke, new, construct
    case 52 | 69 | 70 =>
      [OneField(Any), ManyField(U32, Any)]
    // postfixInc, postfixDec, deref, addrOf, not, unaryPlus, unaryMinus, complement, prefixInc, prefixDec,
    // sizeOf, typeName
    case 56 | 57 | 58 | 59 | 60 | 61 | 62 | 63 | 64 | 65 | 66 | 67 =>
      [OneField(Any)]
    // this, base
    case 71 | 72 =>
      []
    case _ =>
      []
  }

  // ---------------------------------------------------------------- names and declarations

  function DeclarationReads(tag: byte): Option<seq<Field>> {
    match tag
    // identifier, label
    case 75 | 84 =>
      Some([TextField])
    // templateId
    case 76 =>
      Some([OneField(Any), ManyField(U32, Any)])
    // enumType
    case 77 =>
      Some([RawField(4), OneField(IDENTIFIER), ManyField(U32, Any)])
    // enumConstant
    case 78 =>
      Some([OneField(IDENTIFIER), OneField(Any)])
    // constant
    case 79 =>
      Some([RawField(4), OneField(Any), OneField(IDENTIFIER), OneField(Any)])
    // parameter
    case 80 =>
      Some([OneField(Any), MaybeField(IDENTIFIER)])
    // delegate, classDelegate
    case 81 | 82 =>
      Some([RawField(4), OneField(Any), OneField(IDENTIFIER), ManyField(U32, PARAMETER)])
    // typedef
    case 83 =>
      Some([RawField(4), OneField(Any), OneField(IDENTIFIER)])
    case _ =>
      None
  }

  function DeclarationWrites(tag: byte): seq<Field> {
    match tag
    // identifier, label
    case 75 | 84 =>
      [TextField]
    // templateId
    case 76 =>
      [OneField(Any), ManyField(U32, Any)]
    // enumType
    case 77 =>
      [RawField(4), OneField(Any), ManyField(U32, Any)]
    // enumConstant
    case 78 =>
      [OneField(Any), OneField(Any)]
    // constant
    case 79 =>
      [RawField(4), OneField(Any), OneField(Any), OneField(Any)]
    // parameter
    case 80 =>
      [OneField(Any), MaybeField(Any)]
    // delegate, classDelegate
    case 81 | 82 =>
      [RawField(4), OneField(Any), OneField(Any), ManyField(U32, Any)]
    // typedef
    case 83 =>
      [RawField(4), OneField(Any), OneField(Any)]
    case _ =>
      []
  }

  // ---------------------------------------------------------------- branching statements

  function BranchReads(tag: byte): Option<seq<Field>> {
    match tag
    // simpleStatement, returnStatement
    case 85 | 86 =>
      Some([MaybeField(LABEL), MaybeField(Any)])
    // conditionalStatement
    case 87 =>
      Some([MaybeField(LABEL), OneField(Any), OneField(STATEMENT), MaybeField(STATEMENT)])
    // switchStatement
    case 88 =>
      Some([MaybeField(LABEL), OneField(Any), ManyField(U32, STATEMENT), MaybeField(STATEMENT)])
    // caseStatement
    case 89 =>
      Some([MaybeField(LABEL), ManyField(U32, Any), ManyField(U32, STATEMENT)])
    // defaultStatement
    case 90 =>
      Some([MaybeField(LABEL), ManyField(U32, STATEMENT)])
    // gotoCaseStatement
    case 91 =>
      Some([MaybeField(LABEL), OneField(Any)])
    // gotoDefaultStatement
    case 92 =>
      Some([MaybeField(LABEL)])
    case _ =>
      None
  }

  function BranchWrites(tag: byte): seq<Field> {
    match tag
    // simpleStatement, returnStatement
    case 85 | 86 =>
      [MaybeField(Any), MaybeField(Any)]
    // conditionalStatement
    case 87 =>
      [MaybeField(Any), OneField(Any), OneField(Any), MaybeField(Any)]
    // switchStatement
    case 88 =>
      [MaybeField(Any), OneField(Any), ManyField(U32, Any), MaybeField(Any)]
    // caseStatement
    case 89 =>
      [MaybeField(Any), ManyField(U32, Any), ManyField(U32, Any)]
    // defaultStatement
    case 90 =>
      [MaybeField(Any), ManyField(U32, Any)]
    // gotoCaseStatement
    case 91 =>
      [MaybeField(Any), OneField(Any)]
    // gotoDefaultStatement
    case 92 =>
      [MaybeField(Any)]
    case _ =>
      []
  }

  // ---------------------------------------------------------------- loops and blocks

  function LoopReads(tag: byte): Option<seq<Field>> {
    match tag
    // whileStatement
    case 93 =>
      Some([MaybeField(LABEL), OneField(Any), OneField(STATEMENT)])
    // doStatement
    case 94 =>
      Some([MaybeField(LABEL), OneField(STATEMENT), OneField(Any)])
    // rangeForStatement
    case 95 =>
      Some([MaybeField(LABEL), OneField(Any), OneField(IDENTIFIER), OneField(Any),
            OneField(STATEMENT)])
    // forStatement
    case 96 =>
      Some([MaybeField(LABEL), OneField(STATEMENT), MaybeField(Any), MaybeField(Any),
            OneField(STATEMENT)])
    // compoundStatement
    case 97 =>
      Some([MaybeField(LABEL), ManyField(U32, STATEMENT), SpanField, SpanField])
    // breakStatement, continueStatement
    case 98 | 99 =>
      Some([MaybeField(LABEL)])
    case _ =>
      None
  }

  function LoopWrites(tag: byte): seq<Field> {
    match tag
    // whileStatement, doStatement
    case 93 | 94 =>
      [MaybeField(Any), OneField(Any), OneField(Any)]
    // rangeForStatement
    case 95 =>
      [MaybeField(Any), OneField(Any), OneField(Any), OneField(Any),
            OneField(Any)]
    // forStatement
    case 96 =>
      [MaybeField(Any), OneField(Any), MaybeField(Any), MaybeField(Any), OneField(Any)]
    // compoundStatement
    case 97 =>
      [MaybeField(Any), ManyField(U32, Any), SpanField, SpanField]
    // breakStatement, continueStatement
    case 98 | 99 =>
      [MaybeField(Any)]
    case _ =>
      []
  }

  // ---------------------------------------------------------------- other statements

  function ActionReads(tag: byte): Option<seq<Field>> {
    match tag
    // gotoStatement
    case 100 =>
      Some([MaybeField(LABEL), OneField(LABEL), RawField(1)])
    // typedefStatement
    case 101 =>
      Some([MaybeField(LABEL), OneField(Any), OneField(IDENTIFIER)])
    // assignmentStatement
    case 102 =>
      Some([MaybeField(LABEL), OneField(Any), OneField(Any)])
    // constructionStatement
    case 103 =>
      Some([MaybeField(LABEL), OneField(Any), OneField(IDENTIFIER), ManyField(U32, Any)])
    // deleteStatement, destroyStatement, throwStatement, assertStatement
    case 104 | 105 | 106 | 109 =>
      Some([MaybeField(LABEL), OneField(Any)])
    // tryStatement
    case 107 =>
      Some([MaybeField(LABEL), OneField(COMPOUND), ManyField(U32, Any)])
    // catch
    case 108 =>
      Some([OneField(Any), MaybeField(IDENTIFIER), OneField(COMPOUND), RawField(4)])
    case _ =>
      None
  }

  function ActionWrites(tag: byte): seq<Field> {
    match tag
    // gotoStatement
    case 100 =>
      [MaybeField(Any), OneField(Any), RawField(1)]
    // typedefStatement, assignmentStatement
    case 101 | 102 =>
      [MaybeField(Any), OneField(Any), OneField(Any)]
    // constructionStatement
    case 103 =>
      [MaybeField(Any), OneField(Any), OneField(Any), ManyField(U32, Any)]
    // deleteStatement, destroyStatement, throwStatement, assertStatement
    case 104 | 105 | 106 | 109 =>
      [MaybeField(Any), OneField(Any)]
    // tryStatement
    case 107 =>
      [MaybeField(Any), OneField(Any), ManyField(U32, Any)]
    // catch
    case 108 =>
      [OneField(Any), MaybeField(Any), OneField(Any), RawField(4)]
    case _ =>
      []
  }

  // ---------------------------------------------------------------- conditional compilation

  function ConditionalReads(tag: byte): Option<seq<Field>> {
    match tag
    // condCompDisjunction, condCompConjunction
    case 110 | 111 =>
      Some([OneField(CC_EXPR), OneField(CC_EXPR)])
    // condCompNot
    case 112 =>
      Some([OneField(CC_EXPR)])
    // condCompPrimary
    case 113 =>
      Some([OneField(CC_SYMBOL)])
    // condCompSymbol
    case 114 =>
      Some([TextField])
    // condCompilationPart
    case 115 =>
      Some([MaybeField(CC_EXPR), ManyField(U32, STATEMENT)])
    // condCompStatement
    case 116 =>
      Some([MaybeField(LABEL), OneField(CC_PART), ManyField(U32, CC_PART), MaybeField(CC_PART)])
    case _ =>
      None
  }

  function ConditionalWrites(tag: byte): seq<Field> {
    match tag
    // condCompDisjunction, condCompConjunction
    case 110 | 111 =>
      [OneField(Any), OneField(Any)]
    // condCompNot, condCompPrimary
    case 112 | 113 =>
      [OneField(Any)]
    // condCompSymbol
    case 114 =>
      [TextField]
    // condCompilationPart
    case 115 =>
      [MaybeField(Any), ManyField(U32, Any)]
    // condCompStatement
    case 116 =>
      [MaybeField(Any), OneField(Any), ManyField(U32, Any), MaybeField(Any)]
    case _ =>
      []
  }

  // ---------------------------------------------------------------- constraints and concepts

  function ConstraintReads(tag: byte): Option<seq<Field>> {
    match tag
    // disjunctiveConstraint, conjunctiveConstraint
    case 117 | 118 =>
      Some([OneField(CONSTRAINT), OneField(CONSTRAINT)])
    // whereConstraint
    case 119 =>
      Some([OneField(CONSTRAINT)])
    // isConstraint
    case 120 =>
      Some([OneField(Any), OneField(Any)])
    // multiParamConstraint, conceptId
    case 121 | 129 =>
      Some([OneField(IDENTIFIER), ManyField(U32, Any)])
    // typenameConstraint
    case 122 =>
      Some([OneField(Any)])
    // constructorConstraint
    case 123 =>
      Some([OneField(IDENTIFIER), ManyField(U32, PARAMETER)])
    // destructorConstraint
    case 124 =>
      Some([OneField(IDENTIFIER)])
    // memberFunctionConstraint
    case 125 =>
      Some([OneField(Any), OneField(IDENTIFIER), OneField(FUNCTION_GROUP_ID),
            ManyField(U32, PARAMETER)])
    // functionConstraint
    case 126 =>
      Some([OneField(Any), OneField(FUNCTION_GROUP_ID), ManyField(U32, PARAMETER)])
    // axiom
    case 127 =>
      Some([MaybeField(IDENTIFIER), ManyField(U32, PARAMETER), ManyField(U32, AXIOM_STATEMENT)])
    // axiomStatement
    case 128 =>
      Some([OneField(Any), TextField])
    // concept
    case 130 =>
      Some([RawField(4), OneField(IDENTIFIER), ManyField(U32, Any), MaybeField(CONCEPT_ID),
            ManyField(U32, CONSTRAINT), ManyField(U32, Any)])
    case _ =>
      None
  }

  function ConstraintWrites(tag: byte): seq<Field> {
    match tag
    // disjunctiveConstraint, conjunctiveConstraint, isConstraint
    case 117 | 118 | 120 =>
      [OneField(Any), OneField(Any)]
    // whereConstraint, typenameConstraint, destructorConstraint
    case 119 | 122 | 124 =>
      [OneField(Any)]
    // multiParamConstraint, constructorConstraint, conceptId
    case 121 | 123 | 129 =>
      [OneField(Any), ManyField(U32, Any)]
    // memberFunctionConstraint
    case 125 =>
      [OneField(Any), OneField(Any), OneField(Any), ManyField(U32, Any)]
    // functionConstraint
    case 126 =>
      [OneField(Any), OneField(Any), ManyField(U32, Any)]
    // axiom
    case 127 =>
      [MaybeField(Any), ManyField(U32, Any), ManyField(U32, Any)]
    // axiomStatement
    case 128 =>
      [OneField(Any), TextField]
    // concept
    case 130 =>
      [RawField(4), OneField(Any), ManyField(U32, Any), MaybeField(Any), ManyField(U32, Any),
            ManyField(U32, Any)]
    case _ =>
      []
  }

  // ---------------------------------------------------------------- functions

  function FunctionReads(tag: byte): Option<seq<Field>> {
    match tag
    // functionGroupId
    case 131 =>
      Some([TextField])
    // templateParameter
    case 132 =>
      Some([OneField(IDENTIFIER), MaybeField(Any)])
    // function
    case 133 =>
      Some([RawField(4), MaybeField(Any), OneField(FUNCTION_GROUP_ID),
            ManyField(U32, TEMPLATE_PARAMETER), ManyField(U32, PARAMETER), MaybeField(WHERE_CONSTRAINT),
            MaybeField(COMPOUND)])
    case _ =>
      None
  }

  function FunctionWrites(tag: byte): seq<Field> {
    match tag
    // functionGroupId
    case 131 =>
      [TextField]
    // templateParameter
    case 132 =>
      [OneField(Any), MaybeField(Any)]
    // function
    case 133 =>
      [RawField(4), MaybeField(Any), OneField(Any), ManyField(U32, Any), ManyField(U32, Any),
            MaybeField(Any), MaybeField(Any)]
    case _ =>
      []
  }

  // ---------------------------------------------------------------- classes

  function ClassReads(tag: byte): Option<seq<Field>> {
    match tag
    // class
    case 134 =>
      Some([RawField(4), OneField(IDENTIFIER), ManyField(U32, TEMPLATE_PARAMETER),
            ManyField(I32, Any), MaybeField(WHERE_CONSTRAINT), ManyField(U32, Any)])
    // memberInitializer
    case 135 =>
      Some([ManyField(U32, Any), OneField(IDENTIFIER)])
    // baseInitializer, thisInitializer
    case 136 | 137 =>
      Some([ManyField(U32, Any)])
    // staticConstructor, constructor
    case 138 | 139 =>
      Some([RawField(4), MaybeField(Any), OneField(FUNCTION_GROUP_ID),
            ManyField(U32, TEMPLATE_PARAMETER), ManyField(U32, PARAMETER), MaybeField(WHERE_CONSTRAINT),
            MaybeField(COMPOUND), ManyField(U32, INITIALIZER)])
    // destructor
    case 140 =>
      Some([RawField(4), MaybeField(Any), OneField(FUNCTION_GROUP_ID),
            ManyField(U32, TEMPLATE_PARAMETER), ManyField(U32, PARAMETER), MaybeField(WHERE_CONSTRAINT),
            MaybeField(COMPOUND)])
    // memberFunction, conversionFunction
    case 141 | 142 =>
      Some([RawField(4), MaybeField(Any), OneField(FUNCTION_GROUP_ID),
            ManyField(U32, TEMPLATE_PARAMETER), ManyField(U32, PARAMETER), MaybeField(WHERE_CONSTRAINT),
            MaybeField(COMPOUND), RawField(1)])
    // memberVariable
    case 143 =>
      Some([RawField(4), OneField(Any), OneField(IDENTIFIER)])
    case _ =>
      None
  }

  function ClassWrites(tag: byte): seq<Field> {
    match tag
    // class
    case 134 =>
      [RawField(4), OneField(Any), ManyField(U32, Any), ManyField(I32, Any), MaybeField(Any),
            ManyField(U32, Any)]
    // memberInitializer
    case 135 =>
      [ManyField(U32, Any), OneField(Any)]
    // baseInitializer, thisInitializer
    case 136 | 137 =>
      [ManyField(U32, Any)]
    // staticConstructor, constructor
    case 138 | 139 =>
      [RawField(4), MaybeField(Any), OneField(Any), ManyField(U32, Any), ManyField(U32, Any),
            MaybeField(Any), MaybeField(Any), ManyField(U32, Any)]
    // destructor
    case 140 =>
      [RawField(4), MaybeField(Any), OneField(Any), ManyField(U32, Any), ManyField(U32, Any),
            MaybeField(Any), MaybeField(Any)]
    // memberFunction, conversionFunction
    case 141 | 142 =>
      [RawField(4), MaybeField(Any), OneField(Any), ManyField(U32, Any), ManyField(U32, Any),
            MaybeField(Any), MaybeField(Any), RawField(1)]
    // memberVariable
    case 143 =>
      [RawField(4), OneField(Any), OneField(Any)]
    case _ =>
      []
  }

  // ---------------------------------------------------------------- namespaces and compile units

  function UnitReads(tag: byte): Option<seq<Field>> {
    match tag
    // alias
    case 144 =>
      Some([OneField(IDENTIFIER), OneField(IDENTIFIER)])
    // namespaceImport
    case 145 =>
      Some([OneField(IDENTIFIER)])
    // namespace
    case 146 =>
      Some([OneField(IDENTIFIER), ManyField(U32, Any)])
    // compileUnit
    case 147 =>
      Some([TextField, OneField(NAMESPACE)])
    // interface
    case 151 =>
      Some([RawField(4), OneField(IDENTIFIER), ManyField(U32, Any)])
    // predicateConstraint
    case 152 =>
      Some([OneField(Any)])
    // cc
    case 153 =>
      Some([])
    case _ =>
      None
  }

  function UnitWrites(tag: byte): seq<Field> {
    match tag
    // alias
    case 144 =>
      [OneField(Any), OneField(Any)]
    // namespaceImport, predicateConstraint
    case 145 | 152 =>
      [OneField(Any)]
    // namespace
    case 146 =>
      [OneField(Any), ManyField(U32, Any)]
    // compileUnit
    case 147 =>
      [TextField, OneField(Any)]
    // interface
    case 151 =>
      [RawField(4), OneField(Any), ManyField(U32, Any)]
    // cc
    case 153 =>
      []
    case _ =>
      []
  }

  // ---------------------------------------------------------------- the whole table

  ghost predicate Agrees(reading: Option<seq<Field>>, writing: seq<Field>) {
    reading.Some? ==> WritesWhatIsRead(writing, reading.value)
  }

  /** What `Read` reads; none for the types without a creator in the factory. */
  function Reads(tag: byte): Option<seq<Field>> {
    if tag < 32 then LiteralReads(tag)
    else if tag < 75 then OperatorReads(tag)
    else if tag < 85 then DeclarationReads(tag)
    else if tag < 93 then BranchReads(tag)
    else if tag < 100 then LoopReads(tag)
    else if tag < 110 then ActionReads(tag)
    else if tag < 117 then ConditionalReads(tag)
    else if tag < 131 then ConstraintReads(tag)
    else if tag < 134 then FunctionReads(tag)
    else if tag < 144 then ClassReads(tag)
    else UnitReads(tag)
  }

  /** What `Write` writes. */
  function Writes(tag: byte): seq<Field> {
    if tag < 32 then LiteralWrites(tag)
    else if tag < 75 then OperatorWrites(tag)
    else if tag < 85 then DeclarationWrites(tag)
    else if tag < 93 then BranchWrites(tag)
    else if tag < 100 then LoopWrites(tag)
    else if tag < 110 then ActionWrites(tag)
    else if tag < 117 then ConditionalWrites(tag)
    else if tag < 131 then ConstraintWrites(tag)
    else if tag < 134 then FunctionWrites(tag)
    else if tag < 144 then ClassWrites(tag)
    else UnitWrites(tag)
  }

  /** `AsNode` reports the type of `IsNode`; every other class reports its own. */
  function Reported(tag: byte): byte {
    if tag == AS_NODE then IS_NODE else tag
  }

  const COMPILE_UNIT: byte := 147

  /** `Read` makes the node the parent of all children, but for the global namespace of a
      compile unit. */
  function ReadAdopts(tag: byte, i: nat): bool {
    !(tag == COMPILE_UNIT && i == 1)
  }

  function AstFormat(): Format {
    Format(Reads, Writes, Reported, ReadAdopts)
  }

  lemma ExpressionsAgree(tag: byte)
    ensures Agrees(LiteralReads(tag), LiteralWrites(tag))
    ensures Agrees(OperatorReads(tag), OperatorWrites(tag))
  {
  }

  lemma DeclarationsAgree(tag: byte)
    ensures Agrees(DeclarationReads(tag), DeclarationWrites(tag))
    ensures Agrees(BranchReads(tag), BranchWrites(tag))
  {
  }

  lemma StatementsAgree(tag: byte)
    ensures Agrees(LoopReads(tag), LoopWrites(tag))
    ensures Agrees(ActionReads(tag), ActionWrites(tag))
    ensures Agrees(ConditionalReads(tag), ConditionalWrites(tag))
    ensures Agrees(ConstraintReads(tag), ConstraintWrites(tag))
  {
  }

  lemma UnitsAgree(tag: byte)
    ensures Agrees(FunctionReads(tag), FunctionWrites(tag))
    ensures Agrees(ClassReads(tag), ClassWrites(tag))
    ensures Agrees(UnitReads(tag), UnitWrites(tag))
  {
  }

  /** Each class writes exactly the fields that it reads. */
  lemma WritesMatchReads(tag: byte)
    ensures Agrees(Reads(tag), Writes(tag))
  {
    hide LiteralReads, LiteralWrites, OperatorReads, OperatorWrites, DeclarationReads, DeclarationWrites, BranchReads, BranchWrites, LoopReads, LoopWrites, ActionReads, ActionWrites, ConditionalReads, ConditionalWrites, ConstraintReads, ConstraintWrites, FunctionReads, FunctionWrites, ClassReads, ClassWrites, UnitReads, UnitWrites, Agrees;
    ExpressionsAgree(tag);
    DeclarationsAgree(tag);
    StatementsAgree(tag);
    UnitsAgree(tag);
  }

  lemma AstConsistent()
    ensures Consistent(AstFormat())
  {
    hide LiteralReads, LiteralWrites, OperatorReads, OperatorWrites, DeclarationReads, DeclarationWrites, BranchReads, BranchWrites, LoopReads, LoopWrites, ActionReads, ActionWrites, ConditionalReads, ConditionalWrites, ConstraintReads, ConstraintWrites, FunctionReads, FunctionWrites, ClassReads, ClassWrites, UnitReads, UnitWrites;
    assert Reads(AS_NODE) == Reads(IS_NODE) by {
      SameLayout();
    }
    forall x: byte | Reads(x).Some?
      ensures Reads(Reported(x)) == Reads(x) && WritesWhatIsRead(Writes(x), Reads(x).value)
    {
      WritesMatchReads(x);
    }
  }

  lemma SameLayout()
    ensures OperatorReads(AS_NODE) == OperatorReads(IS_NODE)
  {
  }

  // ---------------------------------------------------------------- the syntax trees of the compiler

  /** Whether an `as` expression occurs in the tree. */
  predicate HasAs(t: Tree)
    decreases t, 0
  {
    t.tag == AS_NODE || exists i :: 0 <= i < |t.fields| && ValueHasAs(t.fields[i])
  }

  predicate ValueHasAs(v: Value)
    decreases v, 0
  {
    match v
    case One(t) => HasAs(t)
    case Maybe(opt) => opt.Some? && HasAs(opt.value)
    case Many(ts) => exists i :: 0 <= i < |ts| && HasAs(ts[i])
    case _ => false
  }

  lemma {:induction false} RetagKeeps(t: Tree)
    ensures Retag(AstFormat(), t) == t <==> !HasAs(t)
    decreases t, 0
  {
    RetagValuesKeep(t.fields);
  }

  lemma {:induction false} RetagValuesKeep(vs: seq<Value>)
    ensures RetagValues(AstFormat(), vs) == vs <==> forall i :: 0 <= i < |vs| ==> !ValueHasAs(vs[i])
    decreases vs, 0
  {
    if vs != [] {
      RetagValueKeeps(vs[0]);
      RetagValuesKeep(vs[1..]);
      assert vs == [vs[0]] + vs[1..];
      assert forall i :: 1 <= i < |vs| ==> vs[i] == vs[1..][i - 1];
    }
  }

  lemma {:induction false} RetagValueKeeps(v: Value)
    ensures RetagValue(AstFormat(), v) == v <==> !ValueHasAs(v)
    decreases v, 0
  {
    match v
    case One(t) => RetagKeeps(t);
    case Maybe(opt) =>
      if opt.Some? {
        RetagKeeps(opt.value);
      }
    case Many(ts) => RetagTreesKeep(ts);
    case _ =>
  }

  lemma {:induction false} RetagTreesKeep(ts: seq<Tree>)
    ensures RetagTrees(AstFormat(), ts) == ts <==> forall i :: 0 <= i < |ts| ==> !HasAs(ts[i])
    decreases ts, 0
  {
    if ts != [] {
      RetagKeeps(ts[0]);
      RetagTreesKeep(ts[1..]);
      assert ts == [ts[0]] + ts[1..];
      assert forall i :: 1 <= i < |ts| ==> ts[i] == ts[1..][i - 1];
    }
  }

  /** A syntax tree survives being written and read exactly when its fields fit their stored
      form and it has no `as` expression, which would come back as an `is` expression. */
  lemma SyntaxTreeRoundTrips(t: Tree)
    ensures RoundTrips(AstFormat(), t) <==> Storable(AstFormat(), t) && !HasAs(t)
  {
    hide Reads, Writes;
    AstConsistent();
    RoundTripsIff(AstFormat(), t);
    RetagKeeps(t);
  }
}
