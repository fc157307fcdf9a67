/** The binary form of syntax trees (Cm.Ast/Writer.cpp, Cm.Ast/Reader.cpp and the `Write` and
    `Read` of the node classes).

    Each node class writes and reads a fixed sequence of fields.  That sequence, its layout,
    is data here, and so is which children a node adopts.  Everything below holds for every
    table of layouts, whichever classes it describes, as long as it is consistent; `AstTable`
    gives the table of the node classes. */
module AstStream {
  import opened Bytes
  import opened Options

  datatype Span = Span(fileIndex: int32, lineNumber: int32, start: int32, end: int32)

  /** Which node types the reader accepts in a place: `ReadIdentifierNode`,
      `ReadStatementNode` and so on. */
  datatype Kind = Any | OneOf(tags: set<byte>) {
    predicate Accepts(tag: byte) {
      Any? || tag in tags
    }
  }

  /** How the length of a list is written, and whether all elements are written or only as
      many as the truncated length says. */
  datatype Count = U8 | U32 | I32

  /** One entry of a layout. */
  datatype Field =
    | RawField(size: nat)
    | TextField
    | SpanField
    | DerivationsField
    | OneField(kind: Kind)
    | MaybeField(kind: Kind)
    | ManyField(count: Count, kind: Kind)

  datatype Tree = Tree(tag: byte, span: Span, fields: seq<Value>)

  datatype Value =
    | Raw(bytes: seq<byte>)
    | Text(chars: seq<byte>)
    | Spot(at: Span)
    | Derivations(ds: seq<byte>)
    | One(child: Tree)
    | Maybe(opt: Option<Tree>)
    | Many(children: seq<Tree>)

  /** The table of the node classes: what `Read` reads, for the classes that the factory can
      create; what `Write` writes; the node type that `GetNodeType` reports; and for which fields
      the node becomes the parent of the children. */
  datatype Format = Format(reading: byte -> Option<seq<Field>>, writing: byte -> seq<Field>, reported: byte -> byte,
                           adopting: (byte, nat) -> bool)

  /** A field as `Write` sees it, which makes no checks and sets no parents. */
  function Written(f: Field): Field {
    match f
    case OneField(_) => OneField(Any)
    case MaybeField(_) => MaybeField(Any)
    case ManyField(count, _) => ManyField(count, Any)
    case _ => f
  }

  datatype Error = EndOfInput | UnknownNodeType(tag: byte) | WrongKind | TooManyDerivations

  datatype Result<+T> = Ok(value: T, rest: seq<byte>) | Fail(error: Error)

  const MAX_DERIVATIONS := 7

  // ---------------------------------------------------------------- writing

  function WriteSpan(s: Span): (bs: seq<byte>)
    ensures |bs| == 16
  {
    EncodeU32(ToU32(s.fileIndex)) + EncodeU32(ToU32(s.lineNumber)) +
    EncodeU32(ToU32(s.start)) + EncodeU32(ToU32(s.end))
  }

  function WriteTree(fmt: Format, t: Tree): seq<byte>
    decreases t
  {
    [fmt.reported(t.tag)] + WriteSpan(t.span) + WriteFields(fmt, fmt.writing(t.tag), t.fields)
  }

  function WriteFields(fmt: Format, fs: seq<Field>, vs: seq<Value>): seq<byte>
    decreases vs
  {
    if fs == [] || vs == [] then []
    else WriteValue(fmt, fs[0], vs[0]) + WriteFields(fmt, fs[1..], vs[1..])
  }

  function WriteValue(fmt: Format, f: Field, v: Value): seq<byte>
    decreases v
  {
    match v
    case Raw(bs) => bs
    case Text(s) => s + [0]
    case Spot(at) => WriteSpan(at)
    case Derivations(ds) => [|ds| % 256] + ds
    case One(t) => WriteTree(fmt, t)
    case Maybe(None) => [0]
    case Maybe(Some(t)) => [1] + WriteTree(fmt, t)
    case Many(ts) =>
      if !f.ManyField? then []
      else match f.count
        case U8 => [|ts| % 256] + WriteTrees(fmt, ts, |ts| % 256)
        case U32 => EncodeU32(|ts| % 0x1_0000_0000) + WriteTrees(fmt, ts, |ts| % 0x1_0000_0000)
        case I32 => EncodeU32(|ts| % 0x1_0000_0000) + WriteTrees(fmt, ts, |ts|)
  }

  /** The first `n` trees of a list. */
  function WriteTrees(fmt: Format, ts: seq<Tree>, n: nat): seq<byte>
    requires n <= |ts|
    decreases ts
  {
    if n == 0 then [] else WriteTree(fmt, ts[0]) + WriteTrees(fmt, ts[1..], n - 1)
  }

  // ---------------------------------------------------------------- reading

  /** How spans are patched while reading: `replaceFileIndex` wins over a positive
      `spanFileIndexOffset`. */
  datatype Patch = Patch(replace: int32, offset: int32)

  const PLAIN := Patch(-1, -1)

  function PatchSpan(m: Patch, s: Span): Span {
    if m.replace != -1 then s.(fileIndex := m.replace)
    else if m.offset > 0 then s.(fileIndex := Wrap32(s.fileIndex + m.offset))
    else s
  }

  function ReadI32(bs: seq<byte>, at: nat): int32
    requires at + 4 <= |bs|
  {
    ToI32(DecodeU32(bs[at..at + 4]))
  }

  function ReadSpan(m: Patch, bs: seq<byte>): Result<Span> {
    if |bs| < 16 then Fail(EndOfInput)
    else Ok(PatchSpan(m, Span(ReadI32(bs, 0), ReadI32(bs, 4), ReadI32(bs, 8), ReadI32(bs, 12))), bs[16..])
  }

  function ReadTree(fmt: Format, m: Patch, bs: seq<byte>): (r: Result<Tree>)
    ensures r.Ok? ==> |r.rest| + 17 <= |bs|
    decreases |bs|, 0, 0
  {
    if |bs| == 0 then Fail(EndOfInput)
    else
      match ReadSpan(m, bs[1..])
      case Fail(e) => Fail(e)
      case Ok(span, rest) =>
        match fmt.reading(bs[0])
        case None => Fail(UnknownNodeType(bs[0]))
        case Some(fs) =>
          match ReadFields(fmt, m, fs, rest)
          case Fail(e) => Fail(e)
          case Ok(vs, rest') => Ok(Tree(bs[0], span, vs), rest')
  }

  function ReadFields(fmt: Format, m: Patch, fs: seq<Field>, bs: seq<byte>): (r: Result<seq<Value>>)
    ensures r.Ok? ==> |r.rest| <= |bs| && |r.value| == |fs|
    decreases |bs|, 4, |fs|
  {
    if fs == [] then Ok([], bs)
    else
      match ReadValue(fmt, m, fs[0], bs)
      case Fail(e) => Fail(e)
      case Ok(v, rest) =>
        match ReadFields(fmt, m, fs[1..], rest)
        case Fail(e) => Fail(e)
        case Ok(vs, rest') => Ok([v] + vs, rest')
  }

  function ReadKind(fmt: Format, m: Patch, kind: Kind, bs: seq<byte>): (r: Result<Tree>)
    ensures r.Ok? ==> |r.rest| + 17 <= |bs|
    decreases |bs|, 1, 0
  {
    match ReadTree(fmt, m, bs)
    case Fail(e) => Fail(e)
    case Ok(t, rest) => if kind.Accepts(fmt.reported(t.tag)) then Ok(t, rest) else Fail(WrongKind)
  }

  function ReadKinds(fmt: Format, m: Patch, kind: Kind, n: nat, bs: seq<byte>): (r: Result<seq<Tree>>)
    ensures r.Ok? ==> |r.rest| <= |bs| && |r.value| == n
    decreases |bs|, 2, n
  {
    if n == 0 then Ok([], bs)
    else
      match ReadKind(fmt, m, kind, bs)
      case Fail(e) => Fail(e)
      case Ok(t, rest) =>
        match ReadKinds(fmt, m, kind, n - 1, rest)
        case Fail(e) => Fail(e)
        case Ok(ts, rest') => Ok([t] + ts, rest')
  }

  /** The length of a list; a negative `int` length means no elements. */
  function ReadCount(count: Count, bs: seq<byte>): (r: Result<nat>)
    ensures r.Ok? ==> |r.rest| < |bs|
  {
    match count
    case U8 => if |bs| == 0 then Fail(EndOfInput) else Ok(bs[0], bs[1..])
    case U32 => if |bs| < 4 then Fail(EndOfInput) else Ok(DecodeU32(bs[..4]), bs[4..])
    case I32 =>
      if |bs| < 4 then Fail(EndOfInput)
      else
        var n := ToI32(DecodeU32(bs[..4]));
        Ok(if n < 0 then 0 else n, bs[4..])
  }

  function ReadValue(fmt: Format, m: Patch, f: Field, bs: seq<byte>): (r: Result<Value>)
    ensures r.Ok? ==> |r.rest| <= |bs|
    decreases |bs|, 3, 0
  {
    match f
    case RawField(n) => if |bs| < n then Fail(EndOfInput) else Ok(Raw(bs[..n]), bs[n..])
    case TextField =>
      var n := TakeText(bs);
      if n == |bs| then Fail(EndOfInput) else Ok(Text(bs[..n]), bs[n + 1..])
    case SpanField =>
      (match ReadSpan(m, bs)
       case Fail(e) => Fail(e)
       case Ok(s, rest) => Ok(Spot(s), rest))
    case DerivationsField =>
      if |bs| == 0 then Fail(EndOfInput)
      else if |bs| - 1 < bs[0] && |bs| - 1 <= MAX_DERIVATIONS then Fail(EndOfInput)
      else if bs[0] > MAX_DERIVATIONS then Fail(TooManyDerivations)
      else Ok(Derivations(bs[1..1 + bs[0]]), bs[1 + bs[0]..])
    case OneField(kind) =>
      (match ReadKind(fmt, m, kind, bs)
       case Fail(e) => Fail(e)
       case Ok(t, rest) => Ok(One(t), rest))
    case MaybeField(kind) =>
      if |bs| == 0 then Fail(EndOfInput)
      else if bs[0] == 0 then Ok(Maybe(None), bs[1..])
      else (match ReadKind(fmt, m, kind, bs[1..])
            case Fail(e) => Fail(e)
            case Ok(t, rest) => Ok(Maybe(Some(t)), rest))
    case ManyField(count, kind) =>
      match ReadCount(count, bs)
      case Fail(e) => Fail(e)
      case Ok(n, rest) =>
        match ReadKinds(fmt, m, kind, n, rest)
        case Fail(e) => Fail(e)
        case Ok(ts, rest') => Ok(Many(ts), rest')
  }

  // ---------------------------------------------------------------- which trees can be stored

  predicate FitsCount(count: Count, n: nat) {
    match count
    case U8 => n < 256
    case U32 => n < 0x1_0000_0000
    case I32 => n < 0x8000_0000
  }

  /** What the binary form can hold: every node's class can be created, every child says it
      is of the kind read in its place, no string has a zero byte in it, and every list length
      fits its field. */
  ghost predicate Storable(fmt: Format, t: Tree)
    decreases t, 0
  {
    && fmt.reading(t.tag).Some?
    && |t.fields| == |fmt.reading(t.tag).value|
    && forall i :: 0 <= i < |t.fields| ==> StorableValue(fmt, fmt.reading(t.tag).value[i], t.fields[i])
  }

  ghost predicate StorableKind(fmt: Format, kind: Kind, t: Tree)
    decreases t, 1
  {
    Storable(fmt, t) && kind.Accepts(fmt.reported(t.tag))
  }

  ghost predicate StorableValue(fmt: Format, f: Field, v: Value)
    decreases v, 0
  {
    match f
    case RawField(n) => v.Raw? && |v.bytes| == n
    case TextField => v.Text? && 0 !in v.chars
    case SpanField => v.Spot?
    case DerivationsField => v.Derivations? && |v.ds| <= MAX_DERIVATIONS
    case OneField(kind) => v.One? && StorableKind(fmt, kind, v.child)
    case MaybeField(kind) => v.Maybe? && (v.opt.Some? ==> StorableKind(fmt, kind, v.opt.value))
    case ManyField(count, kind) =>
      v.Many? && FitsCount(count, |v.children|) &&
      forall i :: 0 <= i < |v.children| ==> StorableKind(fmt, kind, v.children[i])
  }

  /** The tree with every class replaced by the one that its reported type creates. */
  function Retag(fmt: Format, t: Tree): Tree
    decreases t
  {
    Tree(fmt.reported(t.tag), t.span, RetagValues(fmt, t.fields))
  }

  function RetagValues(fmt: Format, vs: seq<Value>): (r: seq<Value>)
    ensures |r| == |vs|
    decreases vs
  {
    if vs == [] then [] else [RetagValue(fmt, vs[0])] + RetagValues(fmt, vs[1..])
  }

  function RetagValue(fmt: Format, v: Value): Value
    decreases v
  {
    match v
    case One(t) => One(Retag(fmt, t))
    case Maybe(Some(t)) => Maybe(Some(Retag(fmt, t)))
    case Many(ts) => Many(RetagTrees(fmt, ts))
    case _ => v
  }

  function RetagTrees(fmt: Format, ts: seq<Tree>): (r: seq<Tree>)
    ensures |r| == |ts|
    decreases ts
  {
    if ts == [] then [] else [Retag(fmt, ts[0])] + RetagTrees(fmt, ts[1..])
  }

  /** Every class writes the fields that the class created for its reported type reads. */
  ghost predicate Consistent(fmt: Format) {
    forall x: byte :: fmt.reading(x).Some? ==>
      && fmt.reading(fmt.reported(x)) == fmt.reading(x)
      && fmt.reported(fmt.reported(x)) == fmt.reported(x)
      && WritesWhatIsRead(fmt.writing(x), fmt.reading(x).value)
  }

  ghost predicate WritesWhatIsRead(written: seq<Field>, read: seq<Field>) {
    |written| == |read| && forall i :: 0 <= i < |read| ==> written[i] == Written(read[i])
  }
}
