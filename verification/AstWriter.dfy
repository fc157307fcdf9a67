/** Writing linked node objects (Cm.Ast/Writer.cpp and the `Write` methods), and copying a
    tree by writing and reading it. */
module AstWriter {
  import opened Bytes
  import opened AstStream
  import opened AstRoundTrip
  import opened AstReader

  class Writer {
    const fmt: Format
    var bytes: seq<byte>

    constructor (fmt: Format)
      ensures this.fmt == fmt && bytes == []
    {
      this.fmt, bytes := fmt, [];
    }

    /** Appends exactly the stored form of the tree that the objects represent. */
    method WriteNode(n: Node, ghost t: Tree)
      requires Represents(fmt, n, t)
      modifies this
      ensures bytes == old(bytes) + WriteTree(fmt, t)
      decreases t, 1
    {
      bytes := bytes + [fmt.reported(n.tag)];
      bytes := bytes + WriteSpan(n.span);
      WriteFieldsOf(n, fmt.writing(n.tag), t);
    }

    method WriteFieldsOf(n: Node, fs: seq<Field>, ghost t: Tree)
      requires Represents(fmt, n, t)
      modifies this
      ensures bytes == old(bytes) + WriteFields(fmt, fs, t.fields)
      decreases t, 0
    {
      hide WriteValue, HoldsItem;
      ghost var vs := t.fields;
      assert fs[0..] == fs && vs[0..] == vs;
      var i := 0;
      while i < |fs| && i < |n.items|
        invariant i <= |fs| && i <= |n.items|
        invariant bytes + WriteFields(fmt, fs[i..], vs[i..]) == old(bytes) + WriteFields(fmt, fs, vs)
      {
        assert fs[i..][1..] == fs[i + 1..] && vs[i..][1..] == vs[i + 1..];
        WriteItem(n, n.below, fmt.adopting(n.tag, i), fs[i], n.items[i], vs[i]);
        i := i + 1;
      }
    }

    method WriteItem(n: Node, ghost region: set<Node>, ghost adopt: bool, w: Field, item: Item, ghost v: Value)
      requires HoldsItem(fmt, n, region, adopt, item, v)
      modifies this
      ensures bytes == old(bytes) + WriteValue(fmt, w, v)
      decreases v, 1
    {
      hide WriteTree, Represents;
      match item {
        case Leaf(leaf) =>
          bytes := bytes + WriteValue(fmt, w, leaf);
        case Child(c) =>
          WriteNode(c, v.child);
        case OptChild(opt) =>
          if opt.Some? {
            bytes := bytes + [1];
            WriteNode(opt.value, v.opt.value);
          } else {
            bytes := bytes + [0];
          }
        case Children(ns) =>
          if w.ManyField? {
            WriteList(ns, w.count, region, v.children);
            assert WriteValue(fmt, w, v) == WriteValue(fmt, ManyField(w.count, Any), Many(v.children));
          }
      }
    }

    method WriteList(ns: seq<Node>, count: Count, ghost region: set<Node>, ghost ts: seq<Tree>)
      requires |ns| == |ts|
      requires forall i :: 0 <= i < |ns| ==> Holds(fmt, region, ns[i], ts[i])
      modifies this
      ensures bytes == old(bytes) + WriteValue(fmt, ManyField(count, Any), Many(ts))
      decreases ts, 1
    {
      hide Holds, WriteTrees;
      match count {
        case U8 =>
          bytes := bytes + [|ns| % 256];
          WriteNodes(ns, |ns| % 256, region, ts);
        case U32 =>
          bytes := bytes + EncodeU32(|ns| % 0x1_0000_0000);
          WriteNodes(ns, |ns| % 0x1_0000_0000, region, ts);
        case I32 =>
          bytes := bytes + EncodeU32(|ns| % 0x1_0000_0000);
          WriteNodes(ns, |ns|, region, ts);
      }
    }

    method WriteNodes(ns: seq<Node>, n: nat, ghost region: set<Node>, ghost ts: seq<Tree>)
      requires n <= |ns| == |ts|
      requires forall i :: 0 <= i < |ns| ==> Holds(fmt, region, ns[i], ts[i])
      modifies this
      ensures bytes == old(bytes) + WriteTrees(fmt, ts, n)
      decreases ts, 0
    {
      hide Represents, WriteTree;
      assert ts[0..] == ts;
      for i := 0 to n
        invariant bytes + WriteTrees(fmt, ts[i..], n - i) == old(bytes) + WriteTrees(fmt, ts, n)
      {
        assert ts[i..][1..] == ts[i + 1..];
        WriteNode(ns[i], ts[i]);
      }
    }
  }

  /** A storable tree written and read back is a fresh copy of it, all parents set. */
  method Copy(fmt: Format, n: Node, ghost t: Tree) returns (r: Outcome<Node>)
    requires Consistent(fmt) && Represents(fmt, n, t) && Storable(fmt, t) && Retag(fmt, t) == t
    ensures r.Done? && fresh(r.value) && fresh(r.value.below) && Represents(fmt, r.value, t)
  {
    hide Represents, WriteTree, Storable, Retag;
    var writer := new Writer(fmt);
    writer.WriteNode(n, t);
    var reader := new Reader(fmt, writer.bytes, PLAIN);
    assert reader.Rest() == writer.bytes == WriteTree(fmt, t) + [];
    ReadWrittenTree(fmt, t, []);
    r := reader.ReadNode();
  }
}
