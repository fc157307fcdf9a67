/** Cloning linked node objects (the `Clone` methods of the syntax tree classes, with a clone
    context in which nothing is instantiated).  A class passes its span, its own values and the
    clones of its children to a constructor, and adds the elements of its lists.  That makes the
    new node their parent, with some exceptions; and the constructor of constants forgets the
    span. */
module AstClone {
  import opened AstReader
  import opened AstRoundTrip
  import opened AstStream
  import opened AstTable
  import opened Bytes
  import opened Options

  const CONSTANT: byte := 79
  const NO_SPAN := Span(-1, -1, -1, -1)

  // function, staticConstructor, constructor, destructor, memberFunction, conversionFunction
  const FUNCTIONS: set<byte> := {133, 138, 139, 140, 141, 142}

  /** No function occurs in the tree: what cloning a function copies depends on whether it has
      a body. */
  predicate WithoutFunctions(t: Tree)
    decreases t, 0
  {
    t.tag !in FUNCTIONS && forall i :: 0 <= i < |t.fields| ==> ValueWithoutFunctions(t.fields[i])
  }

  predicate ValueWithoutFunctions(v: Value)
    decreases v, 0
  {
    match v
    case One(t) => WithoutFunctions(t)
    case Maybe(opt) => opt.Some? ==> WithoutFunctions(opt.value)
    case Many(ts) => forall i :: 0 <= i < |ts| ==> WithoutFunctions(ts[i])
    case _ => true
  }

  const CONCEPT: byte := 130
  const INTERFACE: byte := 151
  const PREDICATE_CONSTRAINT: byte := 152

  /** The children that a clone adopts: all but the expression of a predicate constraint, the
      name of an interface, the refinement of a concept, and the global namespace of a compile
      unit, whose constructors and setters leave the parent alone. */
  function CloneAdopts(tag: byte, i: nat): bool {
    && !(tag == PREDICATE_CONSTRAINT && i == 0)
    && !(tag == INTERFACE && i == 1)
    && !(tag == CONCEPT && i == 3)
    && !(tag == COMPILE_UNIT && i == 1)
  }

  /** The layouts of `fmt`, with the parents that cloning sets. */
  function CloneFormat(fmt: Format): Format {
    fmt.(adopting := CloneAdopts)
  }

  /** The tree of a clone. */
  function Cloned(t: Tree): Tree
    decreases t
  {
    Tree(t.tag, if t.tag == CONSTANT then NO_SPAN else t.span, ClonedValues(t.fields))
  }

  function ClonedValues(vs: seq<Value>): (r: seq<Value>)
    ensures |r| == |vs|
    decreases vs
  {
    if vs == [] then [] else [ClonedValue(vs[0])] + ClonedValues(vs[1..])
  }

  function ClonedValue(v: Value): Value
    decreases v
  {
    match v
    case One(t) => One(Cloned(t))
    case Maybe(None) => v
    case Maybe(Some(t)) => Maybe(Some(Cloned(t)))
    case Many(ts) => Many(ClonedTrees(ts))
    case _ => v
  }

  function ClonedTrees(ts: seq<Tree>): (r: seq<Tree>)
    ensures |r| == |ts|
    decreases ts
  {
    if ts == [] then [] else [Cloned(ts[0])] + ClonedTrees(ts[1..])
  }

  // ---------------------------------------------------------------- lists

  lemma {:induction false} ClonedValuesAppend(a: seq<Value>, b: seq<Value>)
    ensures ClonedValues(a + b) == ClonedValues(a) + ClonedValues(b)
  {
    if a == [] {
      assert a + b == b;
    } else {
      assert (a + b)[1..] == a[1..] + b;
      ClonedValuesAppend(a[1..], b);
    }
  }

  lemma {:induction false} ClonedTreesAppend(a: seq<Tree>, b: seq<Tree>)
    ensures ClonedTrees(a + b) == ClonedTrees(a) + ClonedTrees(b)
  {
    if a == [] {
      assert a + b == b;
    } else {
      assert (a + b)[1..] == a[1..] + b;
      ClonedTreesAppend(a[1..], b);
    }
  }

  lemma NextValue(vs: seq<Value>, i: nat)
    requires i < |vs|
    ensures ClonedValues(vs[..i + 1]) == ClonedValues(vs[..i]) + [ClonedValue(vs[i])]
  {
    assert vs[..i + 1] == vs[..i] + [vs[i]];
    ClonedValuesAppend(vs[..i], [vs[i]]);
  }

  lemma NextTree(ts: seq<Tree>, i: nat)
    requires i < |ts|
    ensures ClonedTrees(ts[..i + 1]) == ClonedTrees(ts[..i]) + [Cloned(ts[i])]
  {
    assert ts[..i + 1] == ts[..i] + [ts[i]];
    ClonedTreesAppend(ts[..i], [ts[i]]);
  }

  // ---------------------------------------------------------------- cloning

  /** The clone consists of new objects only, which represent the cloned tree with exactly the
      parents that cloning sets, whatever the parents in the original are; the original is left
      as it is. */
  method Clone(fmt: Format, n: Node, ghost t: Tree) returns (c: Node)
    requires Represents(fmt, n, t) && WithoutFunctions(t)
    ensures fresh(c) && fresh(c.below) && c.parent == null
    ensures Represents(CloneFormat(fmt), c, Cloned(t))
    decreases t, 2
  {
    hide HoldsItem, CloneAdopts;
    c := new Node(n.tag, if n.tag == CONSTANT then NO_SPAN else n.span);
    ghost var vs := t.fields;
    for i := 0 to |n.items|
      modifies c`items, c`below
      invariant fresh(c.below) && c !in c.below && Represents(fmt, n, t)
      invariant HoldsAll(CloneFormat(fmt), c, c.below, c.items, ClonedValues(vs[..i])) && |c.items| == i
    {
      ghost var region, items := c.below, c.items;
      CloneItem(fmt, c, n, n.below, CloneAdopts(n.tag, i), n.items[i], fmt.adopting(n.tag, i), vs[i]);
      HoldsMore(CloneFormat(fmt), c, region, c.below, items, ClonedValues(vs[..i]));
      NextValue(vs, i);
    }
    assert vs[..|vs|] == vs;
  }

  /** One more item of the clone `c`: a copy of `item`, with `c` as parent if it adopts. */
  method CloneItem(fmt: Format, c: Node, ghost n: Node, ghost region: set<Node>, adopt: bool,
                   item: Item, ghost adopted: bool, ghost v: Value)
    requires HoldsItem(fmt, n, region, adopted, item, v) && c !in region && c !in c.below
    requires ValueWithoutFunctions(v)
    modifies c`items, c`below
    ensures c.below >= old(c.below) && fresh(c.below - old(c.below)) && c !in c.below
    ensures |c.items| == |old(c.items)| + 1 && c.items[..|old(c.items)|] == old(c.items)
    ensures HoldsItem(CloneFormat(fmt), c, c.below, adopt, c.items[|old(c.items)|], ClonedValue(v))
    decreases v, 1
  {
    hide Represents;
    match item {
      case Leaf(_) => c.items := c.items + [item];
      case Child(child) => CloneChild(fmt, c, region, adopt, child, v.child);
      case OptChild(opt) => CloneOptional(fmt, c, region, adopt, opt, v);
      case Children(ns) => CloneList(fmt, c, region, adopt, ns, v.children);
    }
  }

  method CloneChild(fmt: Format, c: Node, ghost region: set<Node>, adopt: bool, child: Node, ghost t: Tree)
    requires Holds(fmt, region, child, t) && WithoutFunctions(t) && c !in region && c !in c.below
    modifies c`items, c`below
    ensures c.below >= old(c.below) && fresh(c.below - old(c.below)) && c !in c.below
    ensures |c.items| == |old(c.items)| + 1 && c.items[..|old(c.items)|] == old(c.items)
    ensures HoldsItem(CloneFormat(fmt), c, c.below, adopt, c.items[|old(c.items)|], One(Cloned(t)))
    decreases t, 3
  {
    var copy := Clone(fmt, child, t);
    hide Represents;
    if adopt {
      copy.SetParent(c);
    }
    c.below := c.below + {copy} + copy.below;
    c.items := c.items + [Child(copy)];
    assert Holds(CloneFormat(fmt), c.below, copy, Cloned(t));
  }

  method CloneOptional(fmt: Format, c: Node, ghost region: set<Node>, adopt: bool, opt: Option<Node>, ghost v: Value)
    requires v.Maybe? && opt.Some? == v.opt.Some? && (opt.Some? ==> Holds(fmt, region, opt.value, v.opt.value))
    requires ValueWithoutFunctions(v) && c !in region && c !in c.below
    modifies c`items, c`below
    ensures c.below >= old(c.below) && fresh(c.below - old(c.below)) && c !in c.below
    ensures |c.items| == |old(c.items)| + 1 && c.items[..|old(c.items)|] == old(c.items)
    ensures HoldsItem(CloneFormat(fmt), c, c.below, adopt, c.items[|old(c.items)|], ClonedValue(v))
    decreases v, 0
  {
    if opt.Some? {
      var copy := Clone(fmt, opt.value, v.opt.value);
      hide Represents;
      if adopt {
        copy.SetParent(c);
      }
      c.below := c.below + {copy} + copy.below;
      c.items := c.items + [OptChild(Some(copy))];
      assert Holds(CloneFormat(fmt), c.below, copy, Cloned(v.opt.value));
    } else {
      c.items := c.items + [OptChild(None)];
    }
  }

  method CloneList(fmt: Format, c: Node, ghost region: set<Node>, adopt: bool, ns: seq<Node>, ghost ts: seq<Tree>)
    requires |ns| == |ts| && forall i :: 0 <= i < |ns| ==> Holds(fmt, region, ns[i], ts[i])
    requires forall i :: 0 <= i < |ts| ==> WithoutFunctions(ts[i])
    requires c !in region && c !in c.below
    modifies c`items, c`below
    ensures c.below >= old(c.below) && fresh(c.below - old(c.below)) && c !in c.below
    ensures |c.items| == |old(c.items)| + 1 && c.items[..|old(c.items)|] == old(c.items)
    ensures HoldsItem(CloneFormat(fmt), c, c.below, adopt, c.items[|old(c.items)|], Many(ClonedTrees(ts)))
    decreases ts, 3
  {
    hide Represents, HoldsItem;
    var list, fresher := CloneNodes(fmt, ns, region, ts);
    if adopt {
      Reader.SetParents(list, c);
    }
    c.below := c.below + fresher;
    c.items := c.items + [Children(list)];
    ListHeld(CloneFormat(fmt), c, c.below, adopt, list, ClonedTrees(ts));
  }

  /** The clones of a list, without parents. */
  method CloneNodes(fmt: Format, ns: seq<Node>, ghost region: set<Node>, ghost ts: seq<Tree>)
    returns (list: seq<Node>, ghost fresher: set<Node>)
    requires |ns| == |ts| && forall i :: 0 <= i < |ns| ==> Holds(fmt, region, ns[i], ts[i])
    requires forall i :: 0 <= i < |ts| ==> WithoutFunctions(ts[i])
    ensures fresh(fresher) && FreshList(CloneFormat(fmt), list, ClonedTrees(ts), fresher)
    ensures forall i :: 0 <= i < |list| ==> list[i].parent == null
    decreases ts, 0
  {
    hide Represents, FreshList;
    list, fresher := [], {};
    FreshListNil(CloneFormat(fmt));
    for i := 0 to |ns|
      invariant |list| == i && fresh(fresher) && FreshList(CloneFormat(fmt), list, ClonedTrees(ts[..i]), fresher)
      invariant forall j :: 0 <= j < i ==> list[j].parent == null
      invariant forall j :: 0 <= j < |ns| ==> Holds(fmt, region, ns[j], ts[j])
    {
      var copy := Clone(fmt, ns[i], ts[i]);
      FreshListAppend(CloneFormat(fmt), list, ClonedTrees(ts[..i]), fresher, copy, Cloned(ts[i]));
      NextTree(ts, i);
      list := list + [copy];
      fresher := fresher + {copy} + copy.below;
    }
    assert ts[..|ts|] == ts;
  }

  // ---------------------------------------------------------------- what a clone is stored as

  /** Every constant in the tree has no span. */
  predicate ConstantsUnplaced(t: Tree)
    decreases t, 0
  {
    (t.tag == CONSTANT ==> t.span == NO_SPAN) && forall i :: 0 <= i < |t.fields| ==> ValueUnplaced(t.fields[i])
  }

  predicate ValueUnplaced(v: Value)
    decreases v, 0
  {
    match v
    case One(t) => ConstantsUnplaced(t)
    case Maybe(opt) => opt.Some? ==> ConstantsUnplaced(opt.value)
    case Many(ts) => forall i :: 0 <= i < |ts| ==> ConstantsUnplaced(ts[i])
    case _ => true
  }

  /** A clone is the tree of its original exactly when no constant in it has a span. */
  lemma ClonedIff(t: Tree)
    requires WithoutFunctions(t)
    ensures Cloned(t) == t <==> ConstantsUnplaced(t)
  {
    Unplaced(AstFormat(), t);
  }

  // ... and so it is under the tags as they are reported.

  lemma {:induction false} Unplaced(fmt: Format, t: Tree)
    ensures Cloned(t) == t <==> ConstantsUnplaced(t)
    ensures Retag(fmt, Cloned(t)) == Retag(fmt, t) <==> ConstantsUnplaced(t)
    decreases t, 0
  {
    ValuesUnplaced(fmt, t.fields);
  }

  lemma {:induction false} ValuesUnplaced(fmt: Format, vs: seq<Value>)
    ensures ClonedValues(vs) == vs <==> forall i :: 0 <= i < |vs| ==> ValueUnplaced(vs[i])
    ensures RetagValues(fmt, ClonedValues(vs)) == RetagValues(fmt, vs) <==>
            forall i :: 0 <= i < |vs| ==> ValueUnplaced(vs[i])
    decreases vs, 0
  {
    if vs != [] {
      OneValueUnplaced(fmt, vs[0]);
      ValuesUnplaced(fmt, vs[1..]);
      assert vs == [vs[0]] + vs[1..] && ClonedValues(vs)[1..] == ClonedValues(vs[1..]);
      assert forall i :: 1 <= i < |vs| ==> vs[i] == vs[1..][i - 1];
      FirstAndRest(RetagValue(fmt, ClonedValue(vs[0])), RetagValues(fmt, ClonedValues(vs[1..])),
                   RetagValue(fmt, vs[0]), RetagValues(fmt, vs[1..]));
      FirstAndRest(ClonedValue(vs[0]), ClonedValues(vs[1..]), vs[0], vs[1..]);
    }
  }

  lemma FirstAndRest<T>(a: T, s: seq<T>, b: T, r: seq<T>)
    ensures [a] + s == [b] + r <==> a == b && s == r
  {
    if [a] + s == [b] + r {
      assert ([a] + s)[0] == a && ([b] + r)[0] == b;
      assert ([a] + s)[1..] == s && ([b] + r)[1..] == r;
    }
  }

  lemma {:induction false} OneValueUnplaced(fmt: Format, v: Value)
    ensures ClonedValue(v) == v <==> ValueUnplaced(v)
    ensures RetagValue(fmt, ClonedValue(v)) == RetagValue(fmt, v) <==> ValueUnplaced(v)
    decreases v, 0
  {
    match v
    case One(t) => Unplaced(fmt, t);
    case Maybe(opt) =>
      if opt.Some? {
        Unplaced(fmt, opt.value);
      }
    case Many(ts) => TreesUnplaced(fmt, ts);
    case _ =>
  }

  lemma {:induction false} TreesUnplaced(fmt: Format, ts: seq<Tree>)
    ensures ClonedTrees(ts) == ts <==> forall i :: 0 <= i < |ts| ==> ConstantsUnplaced(ts[i])
    ensures RetagTrees(fmt, ClonedTrees(ts)) == RetagTrees(fmt, ts) <==>
            forall i :: 0 <= i < |ts| ==> ConstantsUnplaced(ts[i])
    decreases ts, 0
  {
    if ts != [] {
      Unplaced(fmt, ts[0]);
      TreesUnplaced(fmt, ts[1..]);
      assert ts == [ts[0]] + ts[1..] && ClonedTrees(ts)[1..] == ClonedTrees(ts[1..]);
      assert forall i :: 1 <= i < |ts| ==> ts[i] == ts[1..][i - 1];
      FirstAndRest(Retag(fmt, Cloned(ts[0])), RetagTrees(fmt, ClonedTrees(ts[1..])),
                   Retag(fmt, ts[0]), RetagTrees(fmt, ts[1..]));
      FirstAndRest(Cloned(ts[0]), ClonedTrees(ts[1..]), ts[0], ts[1..]);
    }
  }

  /** Cloning does not change how a tree fits its stored form. */
  lemma {:induction false} ClonedStorable(fmt: Format, t: Tree)
    requires Storable(fmt, t)
    ensures Storable(fmt, Cloned(t))
    decreases t, 0
  {
    var vs := t.fields;
    forall i | 0 <= i < |vs|
      ensures ClonedValues(vs)[i] == ClonedValue(vs[i])
      ensures StorableValue(fmt, fmt.reading(t.tag).value[i], ClonedValue(vs[i])) {
      ClonedAt(vs, i);
      ClonedValueStorable(fmt, fmt.reading(t.tag).value[i], vs[i]);
    }
  }

  lemma {:induction false} ClonedAt(vs: seq<Value>, i: nat)
    requires i < |vs|
    ensures ClonedValues(vs)[i] == ClonedValue(vs[i])
  {
    if i > 0 {
      ClonedAt(vs[1..], i - 1);
    }
  }

  lemma {:induction false} ClonedTreeAt(ts: seq<Tree>, i: nat)
    requires i < |ts|
    ensures ClonedTrees(ts)[i] == Cloned(ts[i])
  {
    if i > 0 {
      ClonedTreeAt(ts[1..], i - 1);
    }
  }

  lemma {:induction false} ClonedValueStorable(fmt: Format, f: Field, v: Value)
    requires StorableValue(fmt, f, v)
    ensures StorableValue(fmt, f, ClonedValue(v))
    decreases v, 0
  {
    match v
    case One(t) => ClonedStorable(fmt, t);
    case Maybe(opt) =>
      if opt.Some? {
        ClonedStorable(fmt, opt.value);
      }
    case Many(ts) =>
      forall i | 0 <= i < |ts| ensures Storable(fmt, Cloned(ts[i])) && ClonedTrees(ts)[i] == Cloned(ts[i]) {
        ClonedTreeAt(ts, i);
        ClonedStorable(fmt, ts[i]);
      }
    case _ =>
  }

  /** A clone is stored as the same bytes as its original exactly when no constant in it has a
      span, for all trees whose fields fit their stored form. */
  lemma CloneStoredAlikeIff(t: Tree)
    requires Storable(AstFormat(), t) && WithoutFunctions(t)
    ensures WriteTree(AstFormat(), Cloned(t)) == WriteTree(AstFormat(), t) <==> ConstantsUnplaced(t)
  {
    hide *;
    AstConsistent();
    Unplaced(AstFormat(), t);
    ClonedStorable(AstFormat(), t);
    ReadWrittenTree(AstFormat(), t, []);
    ReadWrittenTree(AstFormat(), Cloned(t), []);
  }

  // ---------------------------------------------------------------- who gets a parent

  predicate HasChild(v: Value) {
    v.One? || (v.Maybe? && v.opt.Some?) || (v.Many? && v.children != [])
  }

  /** Under the links `adopting`, every node in the tree adopts all of its children. */
  predicate AllAdopted(adopting: (byte, nat) -> bool, t: Tree)
    decreases t, 0
  {
    forall i :: 0 <= i < |t.fields| ==>
      (HasChild(t.fields[i]) ==> adopting(t.tag, i)) && ValueAdopted(adopting, t.fields[i])
  }

  predicate ValueAdopted(adopting: (byte, nat) -> bool, v: Value)
    decreases v, 0
  {
    match v
    case One(t) => AllAdopted(adopting, t)
    case Maybe(opt) => opt.Some? ==> AllAdopted(adopting, opt.value)
    case Many(ts) => forall i :: 0 <= i < |ts| ==> AllAdopted(adopting, ts[i])
    case _ => true
  }

  /** Links in which every holder is the parent of its children. */
  function Linked(fmt: Format): Format {
    fmt.(adopting := (_, _) => true)
  }

  lemma {:induction false} LinkedIff(fmt: Format, n: Node, t: Tree)
    requires Represents(fmt, n, t)
    ensures Represents(Linked(fmt), n, t) <==> AllAdopted(fmt.adopting, t)
    decreases t, 0
  {
    forall i | 0 <= i < |t.fields|
      ensures HoldsItem(Linked(fmt), n, n.below, true, n.items[i], t.fields[i]) <==>
              (HasChild(t.fields[i]) ==> fmt.adopting(t.tag, i)) && ValueAdopted(fmt.adopting, t.fields[i]) {
      ItemLinkedIff(fmt, n, n.below, fmt.adopting(t.tag, i), n.items[i], t.fields[i]);
    }
  }

  lemma {:induction false} ItemLinkedIff(fmt: Format, n: Node, region: set<Node>, adopt: bool, item: Item, v: Value)
    requires HoldsItem(fmt, n, region, adopt, item, v)
    ensures HoldsItem(Linked(fmt), n, region, true, item, v) <==>
            (HasChild(v) ==> adopt) && ValueAdopted(fmt.adopting, v)
    decreases v, 0
  {
    match v
    case One(t) => LinkedIff(fmt, item.n, t);
    case Maybe(opt) =>
      if opt.Some? {
        LinkedIff(fmt, item.opt.value, opt.value);
      }
    case Many(ts) =>
      forall i | 0 <= i < |ts|
        ensures Represents(Linked(fmt), item.ns[i], ts[i]) <==> AllAdopted(fmt.adopting, ts[i]) {
        LinkedIff(fmt, item.ns[i], ts[i]);
      }
      if ts != [] {
        assert Holds(fmt, region, item.ns[0], ts[0]) && item.ns[0].parent == ParentIf(adopt, n);
      }
    case _ =>
  }

  /** No predicate constraint, interface, concept with a refinement, or compile unit occurs in
      the tree. */
  predicate AllLinked(t: Tree)
    decreases t, 0
  {
    && t.tag != PREDICATE_CONSTRAINT && t.tag != INTERFACE && t.tag != COMPILE_UNIT
    && (t.tag == CONCEPT && |t.fields| > 3 ==> t.fields[3] == Maybe(None))
    && forall i :: 0 <= i < |t.fields| ==> ValueLinked(t.fields[i])
  }

  predicate ValueLinked(v: Value)
    decreases v, 0
  {
    match v
    case One(t) => AllLinked(t)
    case Maybe(opt) => opt.Some? ==> AllLinked(opt.value)
    case Many(ts) => forall i :: 0 <= i < |ts| ==> AllLinked(ts[i])
    case _ => true
  }

  /** The fields that a clone does not adopt always hold a child, the refinement aside. */
  lemma GapIff(t: Tree)
    requires Storable(AstFormat(), t)
    ensures (forall i :: 0 <= i < |t.fields| && HasChild(t.fields[i]) ==> CloneAdopts(t.tag, i)) <==>
            && t.tag != PREDICATE_CONSTRAINT && t.tag != INTERFACE && t.tag != COMPILE_UNIT
            && (t.tag == CONCEPT && |t.fields| > 3 ==> t.fields[3] == Maybe(None))
  {
    hide Storable;
    FieldsFit(t);
    if t.tag == PREDICATE_CONSTRAINT {
      assert HasChild(t.fields[0]);
    } else if t.tag == INTERFACE || t.tag == COMPILE_UNIT {
      assert HasChild(t.fields[1]);
    } else if t.tag == CONCEPT {
      assert t.fields[3].Maybe?;
    }
  }

  lemma FieldsFit(t: Tree)
    requires Storable(AstFormat(), t)
    ensures t.tag == PREDICATE_CONSTRAINT ==> |t.fields| == 1 && t.fields[0].One?
    ensures t.tag == INTERFACE ==> |t.fields| == 3 && t.fields[1].One?
    ensures t.tag == COMPILE_UNIT ==> |t.fields| == 2 && t.fields[1].One?
    ensures t.tag == CONCEPT ==> |t.fields| == 6 && t.fields[3].Maybe?
  {
    var fs := AstFormat().reading(t.tag).value;
    forall i | 0 <= i < |t.fields| ensures StorableValue(AstFormat(), fs[i], t.fields[i]) {
    }
  }

  lemma {:induction false} AdoptedIff(t: Tree)
    requires Storable(AstFormat(), t)
    ensures AllAdopted(CloneAdopts, t) <==> AllLinked(t)
    decreases t, 0
  {
    GapIff(t);
    forall i | 0 <= i < |t.fields| ensures ValueAdopted(CloneAdopts, t.fields[i]) <==> ValueLinked(t.fields[i]) {
      ValueAdoptedIff(AstFormat().reading(t.tag).value[i], t.fields[i]);
    }
  }

  lemma {:induction false} ValueAdoptedIff(f: Field, v: Value)
    requires StorableValue(AstFormat(), f, v)
    ensures ValueAdopted(CloneAdopts, v) <==> ValueLinked(v)
    decreases v, 0
  {
    match v
    case One(t) => AdoptedIff(t);
    case Maybe(opt) =>
      if opt.Some? {
        AdoptedIff(opt.value);
      }
    case Many(ts) =>
      forall i | 0 <= i < |ts| ensures AllAdopted(CloneAdopts, ts[i]) <==> AllLinked(ts[i]) {
        AdoptedIff(ts[i]);
      }
    case _ =>
  }

  lemma {:induction false} ClonedLinked(t: Tree)
    ensures AllLinked(Cloned(t)) <==> AllLinked(t)
    decreases t, 0
  {
    forall i | 0 <= i < |t.fields|
      ensures Cloned(t).fields[i] == ClonedValue(t.fields[i])
      ensures ValueLinked(ClonedValue(t.fields[i])) <==> ValueLinked(t.fields[i]) {
      ClonedAt(t.fields, i);
      ClonedValueLinked(t.fields[i]);
    }
  }

  lemma {:induction false} ClonedValueLinked(v: Value)
    ensures ValueLinked(ClonedValue(v)) <==> ValueLinked(v)
    decreases v, 0
  {
    match v
    case One(t) => ClonedLinked(t);
    case Maybe(opt) =>
      if opt.Some? {
        ClonedLinked(opt.value);
      }
    case Many(ts) =>
      forall i | 0 <= i < |ts|
        ensures ClonedTrees(ts)[i] == Cloned(ts[i]) && (AllLinked(Cloned(ts[i])) <==> AllLinked(ts[i])) {
        ClonedTreeAt(ts, i);
        ClonedLinked(ts[i]);
      }
    case _ =>
  }

  /** In the clone of a tree every child has the node that holds it as parent exactly when the
      tree has no predicate constraint, no interface, no concept with a refinement and no
      compile unit. */
  lemma CloneLinkedIff(c: Node, t: Tree)
    requires Represents(CloneFormat(AstFormat()), c, Cloned(t))
    requires Storable(AstFormat(), t) && WithoutFunctions(t)
    ensures Represents(Linked(AstFormat()), c, Cloned(t)) <==> AllLinked(t)
  {
    hide *;
    ClonedStorable(AstFormat(), t);
    ClonedLinked(t);
    AdoptedIff(Cloned(t));
    LinkedIff(CloneFormat(AstFormat()), c, Cloned(t));
    SameLinked();
  }

  lemma SameLinked()
    ensures Linked(CloneFormat(AstFormat())) == Linked(AstFormat())
    ensures CloneFormat(AstFormat()).adopting == CloneAdopts
  {
  }

  const THIS: byte := 72

  /** The predicate constraint `this`: its expression has no parent in a clone. */
  function BareConstraint(): Tree {
    Tree(PREDICATE_CONSTRAINT, NO_SPAN, [One(Tree(THIS, NO_SPAN, []))])
  }

  lemma CloneWithoutParent(c: Node)
    requires Represents(CloneFormat(AstFormat()), c, BareConstraint())
    ensures |c.items| == 1 && c.items[0].Child? && c.items[0].n.parent == null
    ensures Storable(AstFormat(), BareConstraint()) && !AllLinked(BareConstraint())
  {
    var child := Tree(THIS, NO_SPAN, []);
    assert HoldsItem(CloneFormat(AstFormat()), c, c.below, CloneAdopts(PREDICATE_CONSTRAINT, 0), c.items[0], One(child));
    assert Storable(AstFormat(), child);
  }
}
