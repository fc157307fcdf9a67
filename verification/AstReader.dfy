/** Reading syntax trees into linked node objects (Cm.Ast/Reader.cpp and the `Read` methods):
    the reader advances over a byte buffer, creates a node per stored tree, and makes every
    node the parent of the children it holds, but for those that its class does not adopt.

    A node and the nodes below it are a region of their own: the ghost field `below` holds the
    nodes below, so that what is read or cloned later leaves earlier nodes as they are.  The
    relation between linked nodes and the tree that they represent is the specification of
    every method here; the theorems about storing and reading are about trees. */
module AstReader {
  import opened AstStream
  import opened Bytes
  import opened Options

  datatype Item = Leaf(v: Value) | Child(n: Node) | OptChild(opt: Option<Node>) | Children(ns: seq<Node>)

  class Node {
    const tag: byte
    const span: Span
    var items: seq<Item>
    var parent: Node?
    ghost var below: set<Node>

    constructor (tag: byte, span: Span)
      ensures this.tag == tag && this.span == span && items == [] && parent == null && below == {}
    {
      this.tag, this.span, items, parent, below := tag, span, [], null, {};
    }

    method SetParent(parent: Node)
      modifies this`parent
      ensures this.parent == parent
    {
      this.parent := parent;
    }
  }

  /** The objects at and below `n` are the tree `t`, and every child in it that its class
      adopts has the node that holds it as parent; the others have none. */
  ghost predicate Represents(fmt: Format, n: Node, t: Tree)
    reads n`items, n`below, n.below
    decreases t, 0
  {
    && n !in n.below
    && n.tag == t.tag && n.span == t.span
    && fmt.reading(t.tag).Some?
    && |n.items| == |t.fields| == |fmt.reading(t.tag).value|
    && forall i :: 0 <= i < |t.fields| ==>
         HoldsItem(fmt, n, n.below, fmt.adopting(t.tag, i), n.items[i], t.fields[i])
  }

  /** `item` holds the value `v` for `n`, with all objects in `region`, and `n` is the parent of
      the children there, if it adopts them. */
  ghost predicate HoldsItem(fmt: Format, n: Node, region: set<Node>, adopt: bool, item: Item, v: Value)
    reads region
    decreases v, 0
  {
    match v
    case One(t) => item.Child? && Holds(fmt, region, item.n, t) && item.n.parent == ParentIf(adopt, n)
    case Maybe(None) => item == OptChild(None)
    case Maybe(Some(t)) =>
      item.OptChild? && item.opt.Some? && Holds(fmt, region, item.opt.value, t) && item.opt.value.parent == ParentIf(adopt, n)
    case Many(ts) =>
      item.Children? && |item.ns| == |ts| &&
      forall i :: 0 <= i < |ts| ==> Holds(fmt, region, item.ns[i], ts[i]) && item.ns[i].parent == ParentIf(adopt, n)
    case _ => item == Leaf(v)
  }

  ghost predicate Holds(fmt: Format, region: set<Node>, c: Node, t: Tree)
    reads region
    decreases t, 1
  {
    c in region && c.below <= region && Represents(fmt, c, t)
  }

  function ParentIf(adopt: bool, n: Node): Node? {
    if adopt then n else null
  }

  /** Linked objects represent one tree only: nothing in it is left open. */
  lemma {:induction false} OneTree(fmt: Format, n: Node, t: Tree, u: Tree)
    requires Represents(fmt, n, t) && Represents(fmt, n, u)
    ensures t == u
    decreases t, 0
  {
    hide HoldsItem, Holds;
    forall i | 0 <= i < |t.fields| ensures t.fields[i] == u.fields[i] {
      OneValue(fmt, n, n.below, fmt.adopting(t.tag, i), n.items[i], t.fields[i], u.fields[i]);
    }
    assert t.fields == u.fields;
  }

  lemma {:induction false} OneValue(fmt: Format, n: Node, region: set<Node>, adopt: bool, item: Item, v: Value, w: Value)
    requires HoldsItem(fmt, n, region, adopt, item, v) && HoldsItem(fmt, n, region, adopt, item, w)
    ensures v == w
    decreases v, 0
  {
    hide Represents;
    if v.One? && w.One? {
      OneTree(fmt, item.n, v.child, w.child);
    } else if v.Maybe? && w.Maybe? && v.opt.Some? && w.opt.Some? {
      OneTree(fmt, item.opt.value, v.opt.value, w.opt.value);
    } else if v.Many? && w.Many? {
      forall i | 0 <= i < |v.children| ensures v.children[i] == w.children[i] {
        OneTree(fmt, item.ns[i], v.children[i], w.children[i]);
      }
      assert v.children == w.children;
    }
  }

  /** The parent of a child is the node that holds it if its class adopts the child, else nothing. */
  lemma ParentsAre(fmt: Format, n: Node, t: Tree, i: nat, c: Node)
    requires Represents(fmt, n, t) && i < |n.items|
    requires match n.items[i]
             case Child(m) => c == m
             case OptChild(m) => m == Some(c)
             case Children(ms) => c in ms
             case Leaf(_) => false
    ensures if fmt.adopting(n.tag, i) then c.parent == n else c.parent == null
    ensures c in n.below
  {
    assert HoldsItem(fmt, n, n.below, fmt.adopting(t.tag, i), n.items[i], t.fields[i]);
  }

  ghost predicate HoldsAll(fmt: Format, n: Node, region: set<Node>, items: seq<Item>, vs: seq<Value>)
    reads region
  {
    |items| == |vs| &&
    forall j :: 0 <= j < |vs| ==> HoldsItem(fmt, n, region, fmt.adopting(n.tag, j), items[j], vs[j])
  }

  lemma HoldsNext(fmt: Format, n: Node, region: set<Node>, items: seq<Item>, vs: seq<Value>, more: seq<Item>, v: Value)
    requires HoldsAll(fmt, n, region, items, vs) && |more| == |items| + 1 && more[..|items|] == items
    requires HoldsItem(fmt, n, region, fmt.adopting(n.tag, |items|), more[|items|], v)
    ensures HoldsAll(fmt, n, region, more, vs + [v])
  {
    hide HoldsItem;
    forall j | 0 <= j < |more| ensures HoldsItem(fmt, n, region, fmt.adopting(n.tag, j), more[j], (vs + [v])[j]) {
      if j < |items| {
        assert more[j] == more[..|items|][j];
      }
    }
  }

  lemma Slices(bytes: seq<byte>, at: nat, n: nat)
    requires at + 1 + n <= |bytes|
    ensures bytes[at..][1..1 + n] == bytes[at + 1..at + 1 + n] && bytes[at..][1 + n..] == bytes[at + 1 + n..]
  {
  }

  lemma HoldsMore(fmt: Format, n: Node, region: set<Node>, more: set<Node>, items: seq<Item>, vs: seq<Value>)
    requires HoldsAll(fmt, n, region, items, vs) && region <= more
    ensures HoldsAll(fmt, n, more, items, vs)
  {
    forall j | 0 <= j < |vs| ensures HoldsItem(fmt, n, more, fmt.adopting(n.tag, j), items[j], vs[j]) {
      HoldsItemMore(fmt, n, region, more, fmt.adopting(n.tag, j), items[j], vs[j]);
    }
  }

  lemma HoldsItemMore(fmt: Format, n: Node, region: set<Node>, more: set<Node>, adopt: bool, item: Item, v: Value)
    requires HoldsItem(fmt, n, region, adopt, item, v) && region <= more
    ensures HoldsItem(fmt, n, more, adopt, item, v)
  {
  }

  datatype Outcome<+T> = Done(value: T) | Failed(error: Error)

  function Prepend<T>(vs: seq<T>, r: Result<seq<T>>): Result<seq<T>> {
    match r
    case Ok(ws, rest) => Ok(vs + ws, rest)
    case Fail(e) => Fail(e)
  }

  lemma PrependNil<T>(r: Result<seq<T>>)
    ensures Prepend([], r) == r
  {
    if r.Ok? {
      assert [] + r.value == r.value;
    }
  }

  /** Reading the next field moves one value from the rest to the front. */
  lemma FieldsStep(fmt: Format, m: Patch, fs: seq<Field>, i: nat, bs: seq<byte>, vs: seq<Value>)
    requires i < |fs|
    ensures match ReadValue(fmt, m, fs[i], bs)
            case Fail(e) => Prepend(vs, ReadFields(fmt, m, fs[i..], bs)) == Fail(e)
            case Ok(v, rest) => Prepend(vs, ReadFields(fmt, m, fs[i..], bs)) ==
                                Prepend(vs + [v], ReadFields(fmt, m, fs[i + 1..], rest))
  {
    assert fs[i..][0] == fs[i] && fs[i..][1..] == fs[i + 1..];
    var v := ReadValue(fmt, m, fs[i], bs);
    if v.Ok? {
      var tail := ReadFields(fmt, m, fs[i + 1..], v.rest);
      if tail.Ok? {
        assert vs + ([v.value] + tail.value) == (vs + [v.value]) + tail.value;
      }
    }
  }

  lemma FieldsEnd(fmt: Format, m: Patch, fs: seq<Field>, bs: seq<byte>, vs: seq<Value>)
    ensures Prepend(vs, ReadFields(fmt, m, fs[|fs|..], bs)) == Ok(vs, bs)
  {
    assert vs + [] == vs;
  }

  lemma KindsStep(fmt: Format, m: Patch, kind: Kind, n: nat, bs: seq<byte>, ts: seq<Tree>)
    requires n > 0
    ensures match ReadKind(fmt, m, kind, bs)
            case Fail(e) => Prepend(ts, ReadKinds(fmt, m, kind, n, bs)) == Fail(e)
            case Ok(t, rest) => Prepend(ts, ReadKinds(fmt, m, kind, n, bs)) ==
                                Prepend(ts + [t], ReadKinds(fmt, m, kind, n - 1, rest))
  {
    var t := ReadKind(fmt, m, kind, bs);
    if t.Ok? {
      var tail := ReadKinds(fmt, m, kind, n - 1, t.rest);
      if tail.Ok? {
        assert ts + ([t.value] + tail.value) == (ts + [t.value]) + tail.value;
      }
    }
  }

  // What `ReadValue` does for each kind of field that holds nodes.

  lemma ChildValue(fmt: Format, m: Patch, kind: Kind, bs: seq<byte>)
    ensures var v, t := ReadValue(fmt, m, OneField(kind), bs), ReadKind(fmt, m, kind, bs);
            if t.Fail? then v == Fail(t.error) else v == Ok(One(t.value), t.rest)
  {
  }

  lemma OptionalValue(fmt: Format, m: Patch, kind: Kind, bs: seq<byte>)
    ensures var v := ReadValue(fmt, m, MaybeField(kind), bs);
            if |bs| == 0 then v == Fail(EndOfInput)
            else if bs[0] == 0 then v == Ok(Maybe(None), bs[1..])
            else var t := ReadKind(fmt, m, kind, bs[1..]);
                 if t.Fail? then v == Fail(t.error) else v == Ok(Maybe(Some(t.value)), t.rest)
  {
  }

  lemma ListValue(fmt: Format, m: Patch, count: Count, kind: Kind, bs: seq<byte>)
    ensures var v, n := ReadValue(fmt, m, ManyField(count, kind), bs), ReadCount(count, bs);
            if n.Fail? then v == Fail(n.error)
            else var ts := ReadKinds(fmt, m, kind, n.value, n.rest);
                 if ts.Fail? then v == Fail(ts.error) else v == Ok(Many(ts.value), ts.rest)
  {
  }

  lemma TextValue(fmt: Format, m: Patch, bs: seq<byte>)
    ensures var v, n := ReadValue(fmt, m, TextField, bs), TakeText(bs);
            v == if n == |bs| then Fail(EndOfInput) else Ok(Text(bs[..n]), bs[n + 1..])
  {
  }

  lemma DerivationsValue(fmt: Format, m: Patch, bs: seq<byte>)
    ensures var v := ReadValue(fmt, m, DerivationsField, bs);
            if |bs| == 0 || (|bs| - 1 < bs[0] && |bs| - 1 <= MAX_DERIVATIONS) then v == Fail(EndOfInput)
            else if bs[0] > MAX_DERIVATIONS then v == Fail(TooManyDerivations)
            else v == Ok(Derivations(bs[1..1 + bs[0]]), bs[1 + bs[0]..])
  {
  }

  lemma ListHeld(fmt: Format, n: Node, region: set<Node>, adopt: bool, ns: seq<Node>, ts: seq<Tree>)
    requires |ns| == |ts|
    requires forall i :: 0 <= i < |ns| ==> Holds(fmt, region, ns[i], ts[i]) && ns[i].parent == ParentIf(adopt, n)
    ensures HoldsItem(fmt, n, region, adopt, Children(ns), Many(ts))
  {
  }

  /** What a read leaves is a suffix of what it was given. */
  lemma CountRest(count: Count, bytes: seq<byte>, pos: nat)
    requires pos <= |bytes|
    ensures var n := ReadCount(count, bytes[pos..]); n.Ok? ==> bytes[|bytes| - |n.rest|..] == n.rest
  {
  }

  /** A list of new nodes: the trees `ts`, all within `region`. */
  ghost predicate FreshList(fmt: Format, ns: seq<Node>, ts: seq<Tree>, region: set<Node>)
    reads ns, region
  {
    && |ns| == |ts|
    && (forall i :: 0 <= i < |ns| ==>
         ns[i] in region && ns[i].below <= region && Represents(fmt, ns[i], ts[i]))
    && (forall i, j :: 0 <= i < |ns| && 0 <= j < |ns| ==> ns[i] !in ns[j].below)
  }

  lemma FreshListNil(fmt: Format)
    ensures FreshList(fmt, [], [], {})
  {
  }

  lemma FreshListAppend(fmt: Format, ns: seq<Node>, ts: seq<Tree>, region: set<Node>, c: Node, t: Tree)
    requires FreshList(fmt, ns, ts, region) && Represents(fmt, c, t)
    requires c !in region && c.below !! region
    ensures FreshList(fmt, ns + [c], ts + [t], region + {c} + c.below)
  {
  }

  lemma KindsEnd(fmt: Format, m: Patch, kind: Kind, bs: seq<byte>, ts: seq<Tree>)
    ensures Prepend(ts, ReadKinds(fmt, m, kind, 0, bs)) == Ok(ts, bs)
  {
    assert ts + [] == ts;
  }

  class Reader {
    const fmt: Format
    const bytes: seq<byte>
    const m: Patch
    var pos: nat

    constructor (fmt: Format, bytes: seq<byte>, m: Patch)
      ensures this.fmt == fmt && this.bytes == bytes && this.m == m && pos == 0
    {
      this.fmt, this.bytes, this.m, pos := fmt, bytes, m, 0;
    }

    ghost predicate Valid()
      reads this`pos
    {
      pos <= |bytes|
    }

    function Rest(): seq<byte>
      reads this`pos
    {
      if pos <= |bytes| then bytes[pos..] else []
    }

    /** Reads one node and everything below it: it fails exactly when the stored form is
        malformed, and otherwise leaves the linked objects of the tree read. */
    method ReadNode() returns (r: Outcome<Node>)
      requires Valid()
      modifies this`pos
      ensures Valid() && pos >= old(pos)
      ensures match ReadTree(fmt, m, old(Rest()))
              case Fail(e) => r == Failed(e)
              case Ok(t, rest) =>
                && r.Done? && fresh(r.value) && fresh(r.value.below)
                && Represents(fmt, r.value, t) && r.value !in r.value.below && r.value.parent == null
                && Rest() == rest && pos >= old(pos) + 17
      decreases |bytes| - pos, 0
    {
      if pos == |bytes| {
        return Failed(EndOfInput);
      }
      var tag := bytes[pos];
      assert Rest()[1..] == bytes[pos + 1..];
      if |bytes| - pos < 17 {
        pos := |bytes|;
        return Failed(EndOfInput);
      }
      var span := AstStream.ReadSpan(m, bytes[pos + 1..]);
      assert bytes[pos + 1..][16..] == bytes[pos + 17..];
      pos := pos + 17;
      if fmt.reading(tag).None? {
        return Failed(UnknownNodeType(tag));
      }
      var node := new Node(tag, span.value);
      var e := ReadFieldsOf(node, fmt.reading(tag).value);
      if e.Failed? {
        return Failed(e.error);
      }
      r := Done(node);
    }

    /** `Read` of a node: its fields one after the other. */
    method ReadFieldsOf(node: Node, fs: seq<Field>) returns (r: Outcome<()>)
      requires Valid() && node.items == [] && node.below == {}
      modifies this`pos, node`items, node`below
      ensures Valid() && pos >= old(pos)
      ensures match ReadFields(fmt, m, fs, old(Rest()))
              case Fail(e) => r == Failed(e)
              case Ok(vs, rest) =>
                && r.Done? && Rest() == rest && fresh(node.below) && node !in node.below
                && |vs| == |fs| && HoldsAll(fmt, node, node.below, node.items, vs)
      decreases |bytes| - pos, 5
    {
      hide ReadValue, ReadFields, HoldsItem;
      ghost var start := Rest();
      ghost var vs: seq<Value> := [];
      assert fs[0..] == fs && HoldsAll(fmt, node, node.below, node.items, vs);
      hide HoldsAll;
      PrependNil(ReadFields(fmt, m, fs, start));
      for i := 0 to |fs|
        invariant Valid() && pos >= old(pos)
        invariant ReadFields(fmt, m, fs, start) == Prepend(vs, ReadFields(fmt, m, fs[i..], Rest()))
        invariant |vs| == i && fresh(node.below) && node !in node.below
        invariant HoldsAll(fmt, node, node.below, node.items, vs)
      {
        ghost var value := ReadValue(fmt, m, fs[i], Rest());
        FieldsStep(fmt, m, fs, i, Rest(), vs);
        ghost var region, items := node.below, node.items;
        var e := ReadField(node, fs[i], fmt.adopting(node.tag, i));
        if e.Failed? {
          return Failed(e.error);
        }
        HoldsMore(fmt, node, region, node.below, items, vs);
        HoldsNext(fmt, node, node.below, items, vs, node.items, value.value);
        vs := vs + [value.value];
      }
      FieldsEnd(fmt, m, fs, Rest(), vs);
      r := Done(());
    }

    method ReadField(node: Node, f: Field, adopt: bool) returns (r: Outcome<()>)
      requires Valid() && node !in node.below
      modifies this`pos, node`items, node`below
      ensures Valid() && pos >= old(pos)
      ensures Extended(node, old(node.items), old(node.below), adopt, r, ReadValue(fmt, m, f, old(Rest())))
      ensures r.Done? ==> fresh(node.below - old(node.below))
      decreases |bytes| - pos, 4
    {
      match f {
        case OneField(kind) => r := ReadChild(node, kind, adopt);
        case MaybeField(kind) => r := ReadOptional(node, kind, adopt);
        case ManyField(count, kind) => r := ReadList(node, count, kind, adopt);
        case _ => r := ReadLeaf(node, f, adopt);
      }
    }

    /** The effect of reading one field into `node`: one more item, which holds the value read,
        and possibly more objects below. */
    ghost predicate Extended(node: Node, items: seq<Item>, below: set<Node>, adopt: bool, r: Outcome<()>, v: Result<Value>)
      reads this, node, node.below
    {
      match v
      case Fail(e) => r == Failed(e)
      case Ok(v, rest) =>
        && r.Done? && Rest() == rest && below <= node.below && node !in node.below
        && |node.items| == |items| + 1 && node.items[..|items|] == items
        && HoldsItem(fmt, node, node.below, adopt, node.items[|items|], v)
    }

    method ReadChild(node: Node, kind: Kind, adopt: bool) returns (r: Outcome<()>)
      requires Valid() && node !in node.below
      modifies this`pos, node`items, node`below
      ensures Valid() && pos >= old(pos)
      ensures Extended(node, old(node.items), old(node.below), adopt, r, ReadValue(fmt, m, OneField(kind), old(Rest())))
      ensures r.Done? ==> fresh(node.below - old(node.below))
      decreases |bytes| - pos, 2
    {
      hide ReadValue, ReadKind, Represents;
      ChildValue(fmt, m, kind, Rest());
      ghost var t := ReadKind(fmt, m, kind, Rest());
      var c := ReadNodeOf(kind);
      if c.Failed? { return Failed(c.error); }
      if adopt {
        c.value.SetParent(node);
      }
      node.below := node.below + {c.value} + c.value.below;
      node.items := node.items + [Child(c.value)];
      assert Holds(fmt, node.below, c.value, t.value);
      assert HoldsItem(fmt, node, node.below, adopt, Child(c.value), One(t.value));
      r := Done(());
    }

    method ReadOptional(node: Node, kind: Kind, adopt: bool) returns (r: Outcome<()>)
      requires Valid() && node !in node.below
      modifies this`pos, node`items, node`below
      ensures Valid() && pos >= old(pos)
      ensures Extended(node, old(node.items), old(node.below), adopt, r, ReadValue(fmt, m, MaybeField(kind), old(Rest())))
      ensures r.Done? ==> fresh(node.below - old(node.below))
      decreases |bytes| - pos, 2
    {
      hide ReadValue, ReadKind, Represents;
      OptionalValue(fmt, m, kind, Rest());
      if pos == |bytes| { return Failed(EndOfInput); }
      var present := bytes[pos] != 0;
      assert Rest()[1..] == bytes[pos + 1..];
      pos := pos + 1;
      if present {
        ghost var t := ReadKind(fmt, m, kind, Rest());
        var c := ReadNodeOf(kind);
        if c.Failed? { return Failed(c.error); }
        if adopt {
          c.value.SetParent(node);
        }
        node.below := node.below + {c.value} + c.value.below;
        node.items := node.items + [OptChild(Some(c.value))];
        assert Holds(fmt, node.below, c.value, t.value);
        assert HoldsItem(fmt, node, node.below, adopt, OptChild(Some(c.value)), Maybe(Some(t.value)));
      } else {
        node.items := node.items + [OptChild(None)];
      }
      r := Done(());
    }

    method ReadList(node: Node, count: Count, kind: Kind, adopt: bool) returns (r: Outcome<()>)
      requires Valid() && node !in node.below
      modifies this`pos, node`items, node`below
      ensures Valid() && pos >= old(pos)
      ensures Extended(node, old(node.items), old(node.below), adopt, r, ReadValue(fmt, m, ManyField(count, kind), old(Rest())))
      ensures r.Done? ==> fresh(node.below - old(node.below))
      decreases |bytes| - pos, 3
    {
      hide ReadValue, ReadCount, ReadKinds, Represents, HoldsItem;
      ListValue(fmt, m, count, kind, Rest());
      var n := ReadCount(count, bytes[pos..]);
      if n.Fail? { return Failed(n.error); }
      CountRest(count, bytes, pos);
      pos := |bytes| - |n.rest|;
      ghost var ts := ReadKinds(fmt, m, kind, n.value, Rest());
      var list, region := ReadNodes(kind, n.value);
      if list.Failed? { return Failed(list.error); }
      if adopt {
        SetParents(list.value, node);
      }
      node.below := node.below + region;
      node.items := node.items + [Children(list.value)];
      ListHeld(fmt, node, node.below, adopt, list.value, ts.value);
      r := Done(());
    }

    method ReadLeaf(node: Node, f: Field, ghost adopt: bool) returns (r: Outcome<()>)
      requires !(f.OneField? || f.MaybeField? || f.ManyField?)
      requires Valid() && node !in node.below
      modifies this`pos, node`items, node`below
      ensures Valid() && pos >= old(pos)
      ensures Extended(node, old(node.items), old(node.below), adopt, r, ReadValue(fmt, m, f, old(Rest())))
      ensures r.Done? ==> fresh(node.below - old(node.below))
      decreases |bytes| - pos, 2
    {
      var v: Outcome<Value>;
      match f {
        case RawField(size) => v := ReadRaw(size);
        case TextField => v := ReadString();
        case SpanField => v := ReadSpot();
        case DerivationsField => v := ReadDerivationList();
      }
      if v.Failed? { return Failed(v.error); }
      node.items := node.items + [Leaf(v.value)];
      r := Done(());
    }

    ghost predicate Matches(r: Outcome<Value>, v: Result<Value>)
      reads this
    {
      match v
      case Fail(e) => r == Failed(e)
      case Ok(v, rest) => r == Done(v) && Rest() == rest
    }

    method ReadRaw(size: nat) returns (r: Outcome<Value>)
      requires Valid()
      modifies this`pos
      ensures Valid() && pos >= old(pos)
      ensures Matches(r, ReadValue(fmt, m, RawField(size), old(Rest())))
    {
      if |bytes| - pos < size { return Failed(EndOfInput); }
      r := Done(Raw(bytes[pos..pos + size]));
      assert Rest()[..size] == bytes[pos..pos + size] && Rest()[size..] == bytes[pos + size..];
      pos := pos + size;
    }

    /** Characters up to the closing zero. */
    method ReadString() returns (r: Outcome<Value>)
      requires Valid()
      modifies this`pos
      ensures Valid() && pos >= old(pos)
      ensures Matches(r, ReadValue(fmt, m, TextField, old(Rest())))
    {
      hide ReadValue, TakeText;
      ghost var start := Rest();
      TextValue(fmt, m, start);
      var s := ScanText();
      assert start[..|s|] == s && start[|s|..] == Rest();
      if pos != |bytes| {
        assert start[|s| + 1..] == bytes[pos + 1..];
        pos := pos + 1;
        r := Done(Text(s));
      } else {
        r := Failed(EndOfInput);
      }
    }

    method ScanText() returns (s: seq<byte>)
      requires Valid()
      modifies this`pos
      ensures Valid() && pos >= old(pos)
      ensures s + Rest() == old(Rest()) && |s| == TakeText(old(Rest()))
    {
      hide TakeText;
      ghost var first := pos;
      s := [];
      while pos != |bytes| && bytes[pos] != 0
        invariant first <= pos <= |bytes| && s == bytes[first..pos]
        invariant TakeText(bytes[first..]) == |s| + TakeText(bytes[pos..])
        decreases |bytes| - pos
      {
        TakeTextStep(bytes[pos..]);
        assert bytes[pos..][1..] == bytes[pos + 1..];
        s := s + [bytes[pos]];
        pos := pos + 1;
      }
      TakeTextStep(bytes[pos..]);
      assert s + bytes[pos..] == bytes[first..];
    }

    method ReadSpot() returns (r: Outcome<Value>)
      requires Valid()
      modifies this`pos
      ensures Valid() && pos >= old(pos)
      ensures Matches(r, ReadValue(fmt, m, SpanField, old(Rest())))
    {
      if |bytes| - pos < 16 { return Failed(EndOfInput); }
      var span := ReadSpan(m, bytes[pos..]);
      assert Rest()[16..] == bytes[pos + 16..];
      pos := pos + 16;
      r := Done(Spot(span.value));
    }

    /** A length and as many derivations, which must fit a derivation list. */
    method ReadDerivationList() returns (r: Outcome<Value>)
      requires Valid()
      modifies this`pos
      ensures Valid() && pos >= old(pos)
      ensures Matches(r, ReadValue(fmt, m, DerivationsField, old(Rest())))
    {
      hide ReadValue;
      DerivationsValue(fmt, m, Rest());
      if pos == |bytes| { return Failed(EndOfInput); }
      ghost var start := Rest();
      ghost var first := pos + 1;
      var numDerivations := bytes[pos];
      pos := pos + 1;
      var ds: seq<byte> := [];
      for i := 0 to numDerivations
        invariant pos == first + i <= |bytes| && i <= MAX_DERIVATIONS
        invariant ds == bytes[first..pos]
      {
        if pos == |bytes| { return Failed(EndOfInput); }
        var d := bytes[pos];
        pos := pos + 1;
        if |ds| >= MAX_DERIVATIONS { return Failed(TooManyDerivations); }
        ds := ds + [d];
      }
      Slices(bytes, first - 1, numDerivations);
      r := Done(Derivations(ds));
    }

    /** A typed read: the node must be of an accepted kind. */
    method ReadNodeOf(kind: Kind) returns (r: Outcome<Node>)
      requires Valid()
      modifies this`pos
      ensures Valid() && pos >= old(pos)
      ensures match ReadKind(fmt, m, kind, old(Rest()))
              case Fail(e) => r == Failed(e)
              case Ok(t, rest) =>
                && r.Done? && fresh(r.value) && fresh(r.value.below)
                && Represents(fmt, r.value, t) && r.value !in r.value.below && r.value.parent == null
                && Rest() == rest && pos >= old(pos) + 17
      decreases |bytes| - pos, 1
    {
      r := ReadNode();
      if r.Done? && !kind.Accepts(fmt.reported(r.value.tag)) {
        r := Failed(WrongKind);
      }
    }

    /** The elements of a list, without parents. */
    method ReadNodes(kind: Kind, n: nat) returns (r: Outcome<seq<Node>>, ghost region: set<Node>)
      requires Valid()
      modifies this`pos
      ensures Valid() && pos >= old(pos)
      ensures match ReadKinds(fmt, m, kind, n, old(Rest()))
              case Fail(e) => r == Failed(e)
              case Ok(ts, rest) =>
                && r.Done? && Rest() == rest && fresh(region) && FreshList(fmt, r.value, ts, region)
                && forall i :: 0 <= i < |r.value| ==> r.value[i].parent == null
      decreases |bytes| - pos, 2
    {
      hide ReadKind, ReadKinds, Represents, FreshList;
      ghost var start := Rest();
      ghost var ts: seq<Tree> := [];
      var ns: seq<Node> := [];
      region := {};
      PrependNil(ReadKinds(fmt, m, kind, n, start));
      FreshListNil(fmt);
      for i := 0 to n
        invariant Valid() && pos >= old(pos)
        invariant ReadKinds(fmt, m, kind, n, start) == Prepend(ts, ReadKinds(fmt, m, kind, n - i, Rest()))
        invariant |ns| == i && fresh(region) && FreshList(fmt, ns, ts, region)
        invariant forall j :: 0 <= j < i ==> ns[j].parent == null
      {
        ghost var one := ReadKind(fmt, m, kind, Rest());
        KindsStep(fmt, m, kind, n - i, Rest(), ts);
        var c := ReadNodeOf(kind);
        if c.Failed? { return Failed(c.error), {}; }
        FreshListAppend(fmt, ns, ts, region, c.value, one.value);
        ns := ns + [c.value];
        ts := ts + [one.value];
        region := region + {c.value} + c.value.below;
      }
      KindsEnd(fmt, m, kind, Rest(), ts);
      r := Done(ns);
    }

    /** `SetParent` of a node list. */
    static method SetParents(ns: seq<Node>, parent: Node)
      modifies (set n | n in ns)`parent
      ensures forall i :: 0 <= i < |ns| ==> ns[i].parent == parent
    {
      for i := 0 to |ns|
        invariant forall j :: 0 <= j < i ==> ns[j].parent == parent
      {
        ns[i].SetParent(parent);
      }
    }
  }
}
