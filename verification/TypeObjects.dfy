/** The type objects of the C back end (C.Ir/Type.cpp): names are put together in the
    constructors, and a function type takes over the types it is made of. */
module TypeObjects {
  import opened TypeNames

  datatype Result<+T> = Ok(value: T) | ReturnTypeOwned | ParameterTypeOwned

  class Type {
    const shape: Shape
    const name: string
    const base: Type?
    const returnType: Type?
    const parameterTypes: seq<Type>
    var owned: bool

    constructor (shape: Shape, name: string, base: Type?, returnType: Type?, parameterTypes: seq<Type>)
      ensures this.shape == shape && this.name == name && this.base == base
      ensures this.returnType == returnType && this.parameterTypes == parameterTypes && !owned
    {
      this.shape, this.name, this.base := shape, name, base;
      this.returnType, this.parameterTypes, owned := returnType, parameterTypes, false;
    }

    /** The name is that of the type's structure, and so are those of the types it is made of. */
    ghost predicate Named() {
      && name == NameOf(shape)
      && (shape.Pointer? ==> base != null && base.shape == shape.base && base.name == NameOf(shape.base))
      && (shape.FunctionShape? ==>
            && returnType != null && returnType.shape == shape.returns_ && returnType.name == NameOf(shape.returns_)
            && NamedAs(parameterTypes, shape.parameters))
    }
  }

  ghost predicate NamedAs(types: seq<Type>, shapes: seq<Shape>) {
    |types| == |shapes| && forall i :: 0 <= i < |types| ==> types[i].shape == shapes[i] && types[i].name == NameOf(shapes[i])
  }

  function Shapes(types: seq<Type>): seq<Shape> {
    seq(|types|, i requires 0 <= i < |types| => types[i].shape)
  }

  lemma {:induction false} NamesAppend(ps: seq<Shape>, p: Shape)
    ensures NamesOf(ps + [p]) == if ps == [] then NameOf(p) else NamesOf(ps) + ", " + NameOf(p)
  {
    if |ps| == 1 {
      assert (ps + [p])[1..] == [p];
    } else if |ps| > 1 {
      assert (ps + [p])[1..] == ps[1..] + [p];
      NamesAppend(ps[1..], p);
    }
  }

  method TypeName(name: string) returns (t: Type)
    ensures fresh(t) && t.Named() && t.shape == Atom(name) && !t.owned
  {
    t := new Type(Atom(name), name, null, null, []);
  }

  /** The suffix of a pointer to a function: its parameters. */
  method Suffix(funType: Type) returns (parameterList: string)
    requires funType.Named() && funType.shape.FunctionShape?
    ensures parameterList == ")(" + NamesOf(funType.shape.parameters) + ")"
  {
    ghost var shapes := funType.shape.parameters;
    parameterList := ")(";
    var first := true;
    for i := 0 to |funType.parameterTypes|
      invariant first <==> i == 0
      invariant parameterList == ")(" + NamesOf(shapes[..i])
    {
      NamesAppend(shapes[..i], shapes[i]);
      assert shapes[..i + 1] == shapes[..i] + [shapes[i]];
      if first {
        first := false;
      } else {
        parameterList := parameterList + ", ";
      }
      parameterList := parameterList + funType.parameterTypes[i].name;
    }
    assert shapes[..|shapes|] == shapes;
    parameterList := parameterList + ")";
  }

  /** The constructor of pointer types: the base type becomes owned. */
  method NewPointer(base: Type, numPointers: nat, rvalue: bool) returns (t: Type)
    requires base.Named()
    modifies base
    ensures fresh(t) && t.Named() && t.shape == Pointer(base.shape, numPointers, rvalue) && !t.owned
    ensures base.owned
  {
    var name := base.name + Stars(numPointers);
    base.owned := true;
    if base.shape.FunctionShape? {
      var suffix := Suffix(base);
      name := base.returnType.name + " (" + Stars(numPointers) + suffix;
      assert Stars(numPointers) + suffix == Stars(numPointers) + ")(" + NamesOf(base.shape.parameters) + ")";
    }
    t := new Type(Pointer(base.shape, numPointers, rvalue), name, base, null, []);
  }

  ghost predicate Distinct(types: seq<Type>) {
    forall i, j :: 0 <= i < j < |types| ==> types[i] != types[j]
  }

  lemma DistinctStep(types: seq<Type>, i: nat)
    requires i < |types| && Distinct(types[..i])
    ensures types[i] in types[..i] ==> !Distinct(types)
    ensures types[i] !in types[..i] ==> Distinct(types[..i + 1])
    ensures types[..i + 1] == types[..i] + [types[i]]
  {
    if types[i] in types[..i] {
      var j :| 0 <= j < i && types[..i][j] == types[i];
      assert types[j] == types[i];
    }
  }

  method NewFunctionType(returnType: Type, parameterTypes: seq<Type>, s: string) returns (t: Type)
    requires returnType.Named() && forall i :: 0 <= i < |parameterTypes| ==> parameterTypes[i].Named()
    requires s == NameOf(FunctionShape(returnType.shape, Shapes(parameterTypes)))
    ensures fresh(t) && t.Named() && t.shape == FunctionShape(returnType.shape, Shapes(parameterTypes))
  {
    t := new Type(FunctionShape(returnType.shape, Shapes(parameterTypes)), s, null, returnType, parameterTypes);
  }

  /** Succeeds exactly when none of the types is owned yet and none is given twice; then the
      name is that of the function and all of them are owned. */
  method CreateFunctionType(returnType: Type, parameterTypes: seq<Type>) returns (r: Result<Type>)
    requires returnType.Named() && forall i :: 0 <= i < |parameterTypes| ==> parameterTypes[i].Named()
    modifies returnType, parameterTypes
    ensures r.Ok? <==> Distinct([returnType] + parameterTypes) &&
                       forall t :: t in [returnType] + parameterTypes ==> !old(t.owned)
    ensures r.Ok? ==> fresh(r.value) && r.value.Named()
    ensures r.Ok? ==> r.value.shape == FunctionShape(returnType.shape, Shapes(parameterTypes))
    ensures r.Ok? ==> forall t :: t in [returnType] + parameterTypes ==> t.owned
    ensures r == ReturnTypeOwned <==> old(returnType.owned)
  {
    hide Distinct, NameOf, NamesOf;
    ghost var all := [returnType] + parameterTypes;
    if returnType.owned {
      assert all[0] == returnType;
      return ReturnTypeOwned;
    }
    returnType.owned := true;
    var s := returnType.name;
    s := s + " (";
    var first := true;
    ghost var shapes := Shapes(parameterTypes);
    StartOfList(returnType, all);
    for i := 0 to |parameterTypes|
      invariant first <==> i == 0
      invariant s == returnType.name + " (" + NamesOf(shapes[..i])
      invariant Distinct(all[..i + 1])
      invariant forall t :: t in all[..i + 1] ==> !old(t.owned) && t.owned
      invariant forall t :: t in all && t !in all[..i + 1] ==> t.owned == old(t.owned)
    {
      NamesAppend(shapes[..i], shapes[i]);
      assert shapes[..i + 1] == shapes[..i] + [shapes[i]];
      if first {
        first := false;
      } else {
        s := s + ", ";
      }
      s := s + parameterTypes[i].name;
      assert s == returnType.name + " (" + NamesOf(shapes[..i + 1]) by {
        assert parameterTypes[i].name == NameOf(shapes[i]);
        EmptyList(shapes[..i]);
      }
      assert parameterTypes[i] == all[i + 1];
      DistinctStep(all, i + 1);
      if parameterTypes[i].owned {
        return ParameterTypeOwned;
      }
      parameterTypes[i].owned := true;
    }
    assert shapes[..|shapes|] == shapes && all[..|parameterTypes| + 1] == all;
    s := s + ")";
    FunctionName(returnType, shapes);
    var t := NewFunctionType(returnType, parameterTypes, s);
    r := Ok(t);
  }

  lemma StartOfList(t: Type, all: seq<Type>)
    requires all != [] && all[0] == t
    ensures all[..1] == [t] && Distinct(all[..1]) && NamesOf([]) == ""
  {
  }

  lemma EmptyList(ps: seq<Shape>)
    ensures ps == [] ==> NamesOf(ps) == ""
  {
  }

  lemma FunctionName(t: Type, ps: seq<Shape>)
    requires t.Named()
    ensures NameOf(FunctionShape(t.shape, ps)) == t.name + " (" + NamesOf(ps) + ")"
  {
  }
}
