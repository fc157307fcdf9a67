/** Writing a tree and reading it back (Cm.Ast/Writer.cpp, Cm.Ast/Reader.cpp). */
module AstRoundTrip {
  import opened AstStream
  import opened Bytes
  import opened Options

  lemma CountRoundTrip(n: uint32, r: seq<byte>)
    ensures var bs := EncodeU32(n) + r;
            |bs| >= 4 && DecodeU32(bs[..4]) == n && bs[4..] == r
  {
    var bs := EncodeU32(n) + r;
    assert bs[..4] == EncodeU32(n);
    DecodeEncodeU32(n);
  }

  lemma SpanRoundTrip(s: Span, r: seq<byte>)
    ensures ReadSpan(PLAIN, WriteSpan(s) + r) == Ok(s, r)
  {
    var bs := WriteSpan(s) + r;
    assert bs[0..4] == EncodeU32(ToU32(s.fileIndex));
    assert bs[4..8] == EncodeU32(ToU32(s.lineNumber));
    assert bs[8..12] == EncodeU32(ToU32(s.start));
    assert bs[12..16] == EncodeU32(ToU32(s.end));
    DecodeEncodeU32(ToU32(s.fileIndex));
    DecodeEncodeU32(ToU32(s.lineNumber));
    DecodeEncodeU32(ToU32(s.start));
    DecodeEncodeU32(ToU32(s.end));
    assert bs[16..] == r;
  }

  /** Read with a patch, a span has its lines and positions, and the replacement as its file index
      if there is one, else its own plus a positive offset, in 32 bits. */
  lemma PatchedSpan(m: Patch, s: Span, r: seq<byte>)
    ensures ReadSpan(m, WriteSpan(s) + r) ==
            Ok(Span(if m.replace != -1 then m.replace
                    else if m.offset > 0 then Wrap32(s.fileIndex + m.offset)
                    else s.fileIndex, s.lineNumber, s.start, s.end), r)
  {
    SpanRoundTrip(s, r);
    assert PatchSpan(PLAIN, s) == s;
  }

  // ---------------------------------------------------------------- what was written is read back

  lemma {:induction false} WriteAsRead(fmt: Format, written: seq<Field>, read: seq<Field>, vs: seq<Value>)
    requires WritesWhatIsRead(written, read)
    ensures WriteFields(fmt, written, vs) == WriteFields(fmt, read, vs)
  {
    if read != [] && vs != [] {
      WriteAsRead(fmt, written[1..], read[1..], vs[1..]);
    }
  }

  lemma {:induction false} ReadWrittenTree(fmt: Format, t: Tree, r: seq<byte>)
    requires Consistent(fmt) && Storable(fmt, t)
    ensures ReadTree(fmt, PLAIN, WriteTree(fmt, t) + r) == Ok(Retag(fmt, t), r)
    decreases t
  {
    var fs := fmt.reading(t.tag).value;
    var body := WriteFields(fmt, fs, t.fields);
    var bs := WriteTree(fmt, t) + r;
    WriteAsRead(fmt, fmt.writing(t.tag), fs, t.fields);
    assert bs[1..] == WriteSpan(t.span) + (body + r);
    SpanRoundTrip(t.span, body + r);
    ReadWrittenFields(fmt, fs, t.fields, r);
  }

  lemma {:induction false} ReadWrittenFields(fmt: Format, fs: seq<Field>, vs: seq<Value>, r: seq<byte>)
    requires Consistent(fmt) && |vs| == |fs|
    requires forall i :: 0 <= i < |vs| ==> StorableValue(fmt, fs[i], vs[i])
    ensures ReadFields(fmt, PLAIN, fs, WriteFields(fmt, fs, vs) + r) == Ok(RetagValues(fmt, vs), r)
    decreases vs
  {
    if vs == [] {
      assert WriteFields(fmt, fs, vs) + r == r;
    } else {
      var tail := WriteFields(fmt, fs[1..], vs[1..]);
      assert WriteFields(fmt, fs, vs) + r == WriteValue(fmt, fs[0], vs[0]) + (tail + r);
      ReadWrittenValue(fmt, fs[0], vs[0], tail + r);
      ReadWrittenFields(fmt, fs[1..], vs[1..], r);
    }
  }

  lemma ReadWrittenScalar(fmt: Format, f: Field, v: Value, r: seq<byte>)
    requires StorableValue(fmt, f, v) && !(v.One? || v.Maybe? || v.Many?)
    ensures ReadValue(fmt, PLAIN, f, WriteValue(fmt, f, v) + r) == Ok(v, r)
  {
    hide TakeText, ReadSpan, WriteSpan;
    var bs := WriteValue(fmt, f, v) + r;
    match f
    case RawField(n) =>
      assert bs[..n] == v.bytes && bs[n..] == r;
    case TextField =>
      TextRoundTrip(v.chars, r);
    case SpanField =>
      SpanRoundTrip(v.at, r);
    case DerivationsField =>
      assert bs[1..1 + |v.ds|] == v.ds && bs[1 + |v.ds|..] == r;
  }

  lemma {:induction false} ReadWrittenMany(fmt: Format, f: Field, ts: seq<Tree>, r: seq<byte>)
    requires Consistent(fmt) && f.ManyField? && StorableValue(fmt, f, Many(ts))
    ensures ReadValue(fmt, PLAIN, f, WriteValue(fmt, f, Many(ts)) + r) == Ok(Many(RetagTrees(fmt, ts)), r)
    decreases ts, 1
  {
    hide WriteTrees, ReadKinds, RetagTrees, EncodeU32, DecodeU32;
    var bs := WriteValue(fmt, f, Many(ts)) + r;
    var body := WriteTrees(fmt, ts, |ts|);
    ReadWrittenTrees(fmt, f.kind, ts, r);
    if f.count.U8? {
      assert bs[1..] == body + r;
      assert ReadCount(f.count, bs) == Ok(|ts|, body + r);
    } else {
      assert bs == EncodeU32(|ts|) + (body + r);
      CountRoundTrip(|ts|, body + r);
      assert ReadCount(f.count, bs) == Ok(|ts|, body + r);
    }
  }

  lemma {:induction false} ReadWrittenValue(fmt: Format, f: Field, v: Value, r: seq<byte>)
    requires Consistent(fmt) && StorableValue(fmt, f, v)
    ensures ReadValue(fmt, PLAIN, f, WriteValue(fmt, f, v) + r) == Ok(RetagValue(fmt, v), r)
    decreases v
  {
    match v
    case One(t) =>
      ReadWrittenTree(fmt, t, r);
    case Maybe(opt) =>
      if opt.Some? {
        assert (WriteValue(fmt, f, v) + r)[1..] == WriteTree(fmt, opt.value) + r;
        ReadWrittenTree(fmt, opt.value, r);
      } else {
        assert (WriteValue(fmt, f, v) + r)[1..] == r;
      }
    case Many(ts) =>
      ReadWrittenMany(fmt, f, ts, r);
    case _ =>
      ReadWrittenScalar(fmt, f, v, r);
  }

  lemma {:induction false} ReadWrittenTrees(fmt: Format, kind: Kind, ts: seq<Tree>, r: seq<byte>)
    requires Consistent(fmt)
    requires forall i :: 0 <= i < |ts| ==> StorableKind(fmt, kind, ts[i])
    ensures ReadKinds(fmt, PLAIN, kind, |ts|, WriteTrees(fmt, ts, |ts|) + r) == Ok(RetagTrees(fmt, ts), r)
    decreases ts, 0
  {
    if ts == [] {
      assert WriteTrees(fmt, ts, 0) + r == r;
    } else {
      var tail := WriteTrees(fmt, ts[1..], |ts| - 1);
      assert WriteTrees(fmt, ts, |ts|) + r == WriteTree(fmt, ts[0]) + (tail + r);
      ReadWrittenTree(fmt, ts[0], tail + r);
      ReadWrittenTrees(fmt, kind, ts[1..], r);
    }
  }

  // ---------------------------------------------------------------- what is read can be stored

  lemma {:induction false} ReadTreeStorable(fmt: Format, m: Patch, bs: seq<byte>)
    ensures ReadTree(fmt, m, bs).Ok? ==> Storable(fmt, ReadTree(fmt, m, bs).value)
    decreases |bs|, 0, 0
  {
    if ReadTree(fmt, m, bs).Ok? {
      ReadFieldsStorable(fmt, m, fmt.reading(bs[0]).value, ReadSpan(m, bs[1..]).rest);
    }
  }

  lemma {:induction false} ReadFieldsStorable(fmt: Format, m: Patch, fs: seq<Field>, bs: seq<byte>)
    ensures ReadFields(fmt, m, fs, bs).Ok? ==>
              forall i :: 0 <= i < |fs| ==> StorableValue(fmt, fs[i], ReadFields(fmt, m, fs, bs).value[i])
    decreases |bs|, 4, |fs|
  {
    if fs != [] && ReadFields(fmt, m, fs, bs).Ok? {
      ReadValueStorable(fmt, m, fs[0], bs);
      ReadFieldsStorable(fmt, m, fs[1..], ReadValue(fmt, m, fs[0], bs).rest);
      assert forall i :: 1 <= i < |fs| ==> fs[i] == fs[1..][i - 1];
    }
  }

  lemma {:induction false} ReadKindsStorable(fmt: Format, m: Patch, kind: Kind, n: nat, bs: seq<byte>)
    ensures ReadKinds(fmt, m, kind, n, bs).Ok? ==>
              forall i :: 0 <= i < n ==> StorableKind(fmt, kind, ReadKinds(fmt, m, kind, n, bs).value[i])
    decreases |bs|, 2, n
  {
    if n > 0 && ReadKinds(fmt, m, kind, n, bs).Ok? {
      ReadTreeStorable(fmt, m, bs);
      ReadKindsStorable(fmt, m, kind, n - 1, ReadKind(fmt, m, kind, bs).rest);
    }
  }

  lemma {:induction false} ReadValueStorable(fmt: Format, m: Patch, f: Field, bs: seq<byte>)
    ensures ReadValue(fmt, m, f, bs).Ok? ==> StorableValue(fmt, f, ReadValue(fmt, m, f, bs).value)
    decreases |bs|, 3, 0
  {
    if ReadValue(fmt, m, f, bs).Ok? {
      match f
      case OneField(kind) => ReadTreeStorable(fmt, m, bs);
      case MaybeField(kind) => ReadTreeStorable(fmt, m, bs[1..]);
      case ManyField(count, kind) =>
        var n := ReadCount(count, bs);
        ReadKindsStorable(fmt, m, kind, n.value, n.rest);
      case _ =>
    }
  }

  // ---------------------------------------------------------------- the round trip

  /** Reading what was written, whatever follows it, gives the tree back and leaves the rest. */
  ghost predicate RoundTrips(fmt: Format, t: Tree) {
    forall r: seq<byte> :: ReadTree(fmt, PLAIN, WriteTree(fmt, t) + r) == Ok(t, r)
  }

  /** A tree survives the round trip exactly when it can be stored and every node in it
      reports the type of its own class. */
  lemma RoundTripsIff(fmt: Format, t: Tree)
    requires Consistent(fmt)
    ensures RoundTrips(fmt, t) <==> Storable(fmt, t) && Retag(fmt, t) == t
  {
    if Storable(fmt, t) && Retag(fmt, t) == t {
      forall r ensures ReadTree(fmt, PLAIN, WriteTree(fmt, t) + r) == Ok(t, r) {
        ReadWrittenTree(fmt, t, r);
      }
    }
    if RoundTrips(fmt, t) {
      var r: seq<byte> := [];
      assert ReadTree(fmt, PLAIN, WriteTree(fmt, t) + r) == Ok(t, r);
      ReadTreeStorable(fmt, PLAIN, WriteTree(fmt, t) + r);
      ReadWrittenTree(fmt, t, r);
    }
  }

  /** Different storable trees have different binary forms. */
  lemma WriteInjective(fmt: Format, t: Tree, u: Tree)
    requires Consistent(fmt) && RoundTrips(fmt, t) && RoundTrips(fmt, u)
    requires WriteTree(fmt, t) <= WriteTree(fmt, u)
    ensures t == u
  {
    hide WriteTree, ReadTree;
    var r := WriteTree(fmt, u)[|WriteTree(fmt, t)|..];
    assert WriteTree(fmt, t) + r == WriteTree(fmt, u) + [];
    assert ReadTree(fmt, PLAIN, WriteTree(fmt, t) + r) == Ok(t, r);
    assert ReadTree(fmt, PLAIN, WriteTree(fmt, u) + []) == Ok(u, []);
  }

  // ---------------------------------------------------------------- patched spans

  function PatchTree(m: Patch, t: Tree): Tree
    decreases t
  {
    Tree(t.tag, PatchSpan(m, t.span), PatchValues(m, t.fields))
  }

  function PatchValues(m: Patch, vs: seq<Value>): (r: seq<Value>)
    ensures |r| == |vs|
    decreases vs
  {
    if vs == [] then [] else [PatchValue(m, vs[0])] + PatchValues(m, vs[1..])
  }

  function PatchValue(m: Patch, v: Value): Value
    decreases v
  {
    match v
    case Spot(s) => Spot(PatchSpan(m, s))
    case One(t) => One(PatchTree(m, t))
    case Maybe(Some(t)) => Maybe(Some(PatchTree(m, t)))
    case Many(ts) => Many(PatchTrees(m, ts))
    case _ => v
  }

  function PatchTrees(m: Patch, ts: seq<Tree>): (r: seq<Tree>)
    ensures |r| == |ts|
    decreases ts
  {
    if ts == [] then [] else [PatchTree(m, ts[0])] + PatchTrees(m, ts[1..])
  }

  /** The outcome of a plain read with the values patched afterwards. */
  function PatchResult<T>(r: Result<T>, f: T -> T): Result<T> {
    match r
    case Ok(v, rest) => Ok(f(v), rest)
    case Fail(e) => Fail(e)
  }

  /** Reading any bytes with patched spans is reading them plainly and patching every span
      of the tree, those of braces included; failures and consumed bytes are the same. */
  lemma {:induction false} ReadPatchedTree(fmt: Format, m: Patch, bs: seq<byte>)
    ensures ReadTree(fmt, m, bs) == PatchResult(ReadTree(fmt, PLAIN, bs), t => PatchTree(m, t))
    decreases |bs|, 0, 0
  {
    if |bs| > 16 && fmt.reading(bs[0]).Some? {
      ReadPatchedFields(fmt, m, fmt.reading(bs[0]).value, bs[17..]);
      assert bs[1..][16..] == bs[17..];
    }
  }

  lemma {:induction false} ReadPatchedFields(fmt: Format, m: Patch, fs: seq<Field>, bs: seq<byte>)
    ensures ReadFields(fmt, m, fs, bs) == PatchResult(ReadFields(fmt, PLAIN, fs, bs), vs => PatchValues(m, vs))
    decreases |bs|, 4, |fs|
  {
    if fs != [] {
      ReadPatchedValue(fmt, m, fs[0], bs);
      if ReadValue(fmt, m, fs[0], bs).Ok? {
        ReadPatchedFields(fmt, m, fs[1..], ReadValue(fmt, m, fs[0], bs).rest);
      }
    }
  }

  lemma {:induction false} ReadPatchedKinds(fmt: Format, m: Patch, kind: Kind, n: nat, bs: seq<byte>)
    ensures ReadKinds(fmt, m, kind, n, bs) == PatchResult(ReadKinds(fmt, PLAIN, kind, n, bs), ts => PatchTrees(m, ts))
    decreases |bs|, 2, n
  {
    hide ReadTree;
    if n > 0 {
      ReadPatchedTree(fmt, m, bs);
      if ReadKind(fmt, m, kind, bs).Ok? {
        ReadPatchedKinds(fmt, m, kind, n - 1, ReadKind(fmt, m, kind, bs).rest);
      }
    }
  }

  lemma {:induction false} ReadPatchedValue(fmt: Format, m: Patch, f: Field, bs: seq<byte>)
    ensures ReadValue(fmt, m, f, bs) == PatchResult(ReadValue(fmt, PLAIN, f, bs), v => PatchValue(m, v))
    decreases |bs|, 3, 0
  {
    hide TakeText, ReadTree, ReadKinds, ReadCount;
    match f
    case OneField(kind) =>
      ReadPatchedTree(fmt, m, bs);
    case MaybeField(kind) =>
      if |bs| > 0 {
        ReadPatchedTree(fmt, m, bs[1..]);
      }
    case ManyField(count, kind) =>
      var n := ReadCount(count, bs);
      if n.Ok? {
        ReadPatchedKinds(fmt, m, kind, n.value, n.rest);
      }
    case _ =>
  }
}
