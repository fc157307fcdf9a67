/** Type names of the C back end (C.Ir/Type.cpp).

    `TypesEqual` compares printed names only, so it decides equality of types exactly when the
    printed form can be read in one way.  A reader for names is defined here, and reading a
    printed name gives the type back, up to what a name cannot show. */
module TypeNames {

  /** A type by structure.  `rvalue` marks an rvalue reference; `stars` is an 8-bit count. */
  datatype Shape =
    | Atom(name: string)
    | Pointer(base: Shape, stars: nat, rvalue: bool)
    | FunctionShape(returns_: Shape, parameters: seq<Shape>)

  // ---------------------------------------------------------------- printing

  function Stars(n: nat): string {
    seq(n, _ => '*')
  }

  function NameOf(t: Shape): string {
    match t
    case Atom(name) => name
    case Pointer(base, stars, _) =>
      if base.FunctionShape? then
        NameOf(base.returns_) + " (" + Stars(stars) + ")(" + NamesOf(base.parameters) + ")"
      else NameOf(base) + Stars(stars)
    case FunctionShape(r, ps) => NameOf(r) + " (" + NamesOf(ps) + ")"
  }

  function NamesOf(ps: seq<Shape>): string {
    if ps == [] then ""
    else if |ps| == 1 then NameOf(ps[0])
    else NameOf(ps[0]) + ", " + NamesOf(ps[1..])
  }

  predicate TypesEqual(a: Shape, b: Shape) {
    NameOf(a) == NameOf(b)
  }

  // ---------------------------------------------------------------- the types that are built

  predicate Special(c: char) {
    c == '*' || c == '(' || c == ')' || c == ','
  }

  predicate Clean(name: string) {
    name != "" && forall i :: 0 <= i < |name| ==> !Special(name[i])
  }

  /** Atoms have clean names, the base of a pointer is no pointer, and counts fit in a byte. */
  predicate WellBuilt(t: Shape) {
    match t
    case Atom(name) => Clean(name)
    case Pointer(base, stars, _) => !base.Pointer? && stars < 256 && WellBuilt(base)
    case FunctionShape(r, ps) => WellBuilt(r) && forall i :: 0 <= i < |ps| ==> WellBuilt(ps[i])
  }

  /** Both forms of `MakePointerType`; the sum is cut to 8 bits. */
  function MakePointerType(t: Shape, numPointers: int): Shape {
    if t.Pointer? then Pointer(t.base, (t.stars + numPointers) % 256, false)
    else Pointer(t, numPointers % 256, false)
  }

  function RvalueRef(t: Shape): Shape {
    if t.Pointer? then Pointer(t.base, (t.stars + 1) % 256, true)
    else Pointer(t, 1, true)
  }

  // ---------------------------------------------------------------- what a name shows

  /** The type without what its name cannot show: rvalue marks, and pointers without stars
      unless they point to a function. */
  function Shown(t: Shape): Shape {
    match t
    case Atom(_) => t
    case Pointer(base, stars, _) =>
      if stars == 0 && !base.FunctionShape? then Shown(base)
      else Pointer(Shown(base), stars, false)
    case FunctionShape(r, ps) => FunctionShape(Shown(r), ShownAll(ps))
  }

  function ShownAll(ps: seq<Shape>): (r: seq<Shape>)
    ensures |r| == |ps|
  {
    if ps == [] then [] else [Shown(ps[0])] + ShownAll(ps[1..])
  }

  // ---------------------------------------------------------------- reading

  datatype Parsed<+T> = Fail | Done(value: T, rest: string)

  predicate StartsWith(s: string, prefix: string) {
    prefix <= s
  }

  /** The number of characters before the first special one. */
  function RunLength(s: string): (n: nat)
    ensures n <= |s|
  {
    if s == "" || Special(s[0]) then 0 else 1 + RunLength(s[1..])
  }

  function StarCount(s: string): (n: nat)
    ensures n <= |s|
  {
    if s == "" || s[0] != '*' then 0 else 1 + StarCount(s[1..])
  }

  /** An atom and then as many suffixes as there are. */
  function ParseType(s: string): (r: Parsed<Shape>)
    ensures r.Done? ==> |r.rest| <= |s|
    decreases |s|, 0
  {
    var k := RunLength(s);
    var n := if 0 < k < |s| && s[k] == '(' && s[k - 1] == ' ' then k - 1 else k;
    if n == 0 then Fail else Suffixes(Atom(s[..n]), s[n..])
  }

  function Suffixes(t: Shape, s: string): (r: Parsed<Shape>)
    ensures r.Done? ==> |r.rest| <= |s|
    decreases |s|, 2
  {
    if StartsWith(s, "*") then
      Suffixes(Pointer(t, StarCount(s), false), s[StarCount(s)..])
    else if StartsWith(s, " (") then
      var u := s[2..];
      if StartsWith(u, "*") || StartsWith(u, ")(") then
        var n := StarCount(u);
        if StartsWith(u[n..], ")(") then
          match ParseParameters(u[n + 2..])
          case Done(ps, rest) => Suffixes(Pointer(FunctionShape(t, ps), n, false), rest)
          case Fail => Fail
        else Fail
      else
        match ParseParameters(u)
        case Done(ps, rest) => Suffixes(FunctionShape(t, ps), rest)
        case Fail => Fail
    else Done(t, s)
  }

  function ParseParameters(s: string): (r: Parsed<seq<Shape>>)
    ensures r.Done? ==> |r.rest| < |s|
    decreases |s|, 2
  {
    if StartsWith(s, ")") then Done([], s[1..]) else ParseList(s)
  }

  function ParseList(s: string): (r: Parsed<seq<Shape>>)
    ensures r.Done? ==> |r.rest| < |s|
    decreases |s|, 1
  {
    match ParseType(s)
    case Fail => Fail
    case Done(p, rest) =>
      if StartsWith(rest, ")") then Done([p], rest[1..])
      else if StartsWith(rest, ", ") then
        match ParseList(rest[2..])
        case Done(ps, more) => Done([p] + ps, more)
        case Fail => Fail
      else Fail
  }

  // ---------------------------------------------------------------- reading what was printed

  /** What can follow the name of `t`. */
  predicate Follows(t: Shape, s: string) {
    s == "" || s[0] == ',' || s[0] == ')' || StartsWith(s, " (") || (s[0] == '*' && t.Atom?)
  }

  lemma {:induction false} RunOfClean(name: string, s: string)
    requires forall i :: 0 <= i < |name| ==> !Special(name[i])
    ensures RunLength(name + s) == |name| + RunLength(s)
    decreases name
  {
    if name == "" {
      assert name + s == s;
    } else {
      assert (name + s)[1..] == name[1..] + s;
      RunOfClean(name[1..], s);
    }
  }

  lemma {:induction false} CountOfStars(n: nat, s: string)
    requires s == "" || s[0] != '*'
    ensures StarCount(Stars(n) + s) == n
  {
    if n == 0 {
      assert Stars(n) + s == s;
    } else {
      assert (Stars(n) + s)[1..] == Stars(n - 1) + s;
      CountOfStars(n - 1, s);
    }
  }

  lemma ReadAtom(name: string, s: string)
    requires Clean(name) && Follows(Atom(name), s)
    ensures ParseType(name + s) == Suffixes(Atom(name), s)
  {
    var all := name + s;
    RunOfClean(name, s);
    if StartsWith(s, " (") {
      assert s == " " + s[1..] && s[1..][0] == '(';
      RunOfClean(" ", s[1..]);
      assert all[|name| + 1] == '(' && all[|name|] == ' ';
    }
    assert all[..|name|] == name && all[|name|..] == s;
  }

  lemma ReadStars(t: Shape, n: nat, s: string)
    requires n > 0 && (s == "" || s[0] != '*')
    ensures Suffixes(t, Stars(n) + s) == Suffixes(Pointer(t, n, false), s)
  {
    CountOfStars(n, s);
    var all := Stars(n) + s;
    assert all[0] == '*' && StartsWith(all, "*");
    assert all[n..] == s;
  }

  /** The main step: a printed name is read up to its end, and reading goes on from there. */
  lemma {:induction false} ReadName(t: Shape, s: string)
    requires WellBuilt(t) && Follows(t, s)
    ensures ParseType(NameOf(t) + s) == Suffixes(Shown(t), s)
    decreases t, 1
  {
    match t
    case Atom(name) =>
      ReadAtom(name, s);
    case Pointer(base, stars, _) =>
      if base.FunctionShape? {
        ReadFunctionPointer(base.returns_, base.parameters, stars, s);
      } else if stars == 0 {
        assert NameOf(t) + s == NameOf(base) + s;
        ReadName(base, s);
      } else {
        assert NameOf(t) + s == NameOf(base) + (Stars(stars) + s);
        assert (Stars(stars) + s)[0] == '*';
        ReadName(base, Stars(stars) + s);
        ReadStars(Shown(base), stars, s);
      }
    case FunctionShape(r, ps) =>
      ReadFunction(r, ps, s);
  }

  lemma SuffixFunction(t: Shape, list: string, ps: seq<Shape>, s: string)
    requires !StartsWith(list, "*") && !StartsWith(list, ")(") && ParseParameters(list) == Done(ps, s)
    ensures Suffixes(t, " (" + list) == Suffixes(FunctionShape(t, ps), s)
  {
    var all := " (" + list;
    assert StartsWith(all, " (") && all[0] == ' ' && all[2..] == list;
  }

  lemma SuffixFunctionPointer(t: Shape, n: nat, list: string, ps: seq<Shape>, s: string)
    requires ParseParameters(list) == Done(ps, s)
    ensures Suffixes(t, " (" + (Stars(n) + (")(" + list))) == Suffixes(Pointer(FunctionShape(t, ps), n, false), s)
  {
    hide ParseParameters;
    var end := ")(" + list;
    var u := Stars(n) + end;
    var all := " (" + u;
    assert StartsWith(all, " (") && all[0] == ' ' && all[2..] == u;
    CountOfStars(n, end);
    assert u[n..] == end && u[n + 2..] == list;
    assert StartsWith(u, "*") || StartsWith(u, ")(") by {
      if n == 0 {
        assert u == end;
      } else {
        assert u[0] == '*';
      }
    }
  }

  lemma ReadFunction(r: Shape, ps: seq<Shape>, s: string)
    requires WellBuilt(FunctionShape(r, ps)) && Follows(FunctionShape(r, ps), s)
    ensures ParseType(NameOf(FunctionShape(r, ps)) + s) == Suffixes(Shown(FunctionShape(r, ps)), s)
    decreases FunctionShape(r, ps), 0
  {
    hide ParseType, Suffixes, ParseParameters;
    var list := NamesOf(ps) + ")" + s;
    assert NameOf(FunctionShape(r, ps)) + s == NameOf(r) + (" (" + list);
    ReadName(r, " (" + list);
    ListStarts(ps, s);
    ReadParameters(ps, s);
    SuffixFunction(Shown(r), list, ShownAll(ps), s);
  }

  lemma ReadFunctionPointer(r: Shape, ps: seq<Shape>, n: nat, s: string)
    requires WellBuilt(FunctionShape(r, ps)) && Follows(FunctionShape(r, ps), s)
    ensures var t := Pointer(FunctionShape(r, ps), n, false);
            ParseType(NameOf(t) + s) == Suffixes(Shown(t), s)
    decreases FunctionShape(r, ps), 0
  {
    hide ParseType, Suffixes, ParseParameters;
    var t := Pointer(FunctionShape(r, ps), n, false);
    var list := NamesOf(ps) + ")" + s;
    var suffix := " (" + (Stars(n) + (")(" + list));
    assert NameOf(t) + s == NameOf(r) + suffix;
    ReadName(r, suffix);
    ReadParameters(ps, s);
    SuffixFunctionPointer(Shown(r), n, list, ShownAll(ps), s);
  }

  /** The parameter list of a function does not look like the stars of a pointer. */
  lemma ListStarts(ps: seq<Shape>, s: string)
    requires forall i :: 0 <= i < |ps| ==> WellBuilt(ps[i])
    requires s == "" || s[0] != '('
    ensures var list := NamesOf(ps) + ")" + s; !StartsWith(list, "*") && !StartsWith(list, ")(")
    ensures ps != [] ==> !StartsWith(NamesOf(ps) + ")" + s, ")")
  {
    hide NameOf, NamesOf, WellBuilt;
    var list := NamesOf(ps) + ")" + s;
    if ps != [] {
      NamesStart(ps);
      assert list[0] == NamesOf(ps)[0];
    } else {
      NoNames();
      assert list[0] == ')' && (|list| > 1 ==> list[1] == s[0]);
    }
  }

  lemma NoNames()
    ensures NamesOf([]) == ""
  {
  }

  lemma NamesStart(ps: seq<Shape>)
    requires ps != [] && WellBuilt(ps[0])
    ensures NamesOf(ps) != "" && !Special(NamesOf(ps)[0])
  {
    hide NameOf, WellBuilt;
    NameStarts(ps[0]);
    assert NamesOf(ps)[0] == NameOf(ps[0])[0];
  }

  lemma {:induction false} NameStarts(t: Shape)
    requires WellBuilt(t)
    ensures NameOf(t) != "" && !Special(NameOf(t)[0])
  {
    match t
    case Atom(_) =>
    case Pointer(base, _, _) => NameStarts(if base.FunctionShape? then base.returns_ else base);
    case FunctionShape(r, _) => NameStarts(r);
  }

  lemma ReadParameters(ps: seq<Shape>, s: string)
    requires forall i :: 0 <= i < |ps| ==> WellBuilt(ps[i])
    requires s == "" || s[0] != '('
    ensures ParseParameters(NamesOf(ps) + ")" + s) == Done(ShownAll(ps), s)
    decreases ps, 1
  {
    var list := NamesOf(ps) + ")" + s;
    if ps == [] {
      assert list == ")" + s;
    } else {
      ListStarts(ps, s);
      ReadList(ps, s);
    }
  }

  lemma ReadParameter(p: Shape, rest: string)
    requires WellBuilt(p) && (StartsWith(rest, ", ") || StartsWith(rest, ")"))
    ensures ParseType(NameOf(p) + rest) == Done(Shown(p), rest)
    decreases p, 2
  {
    ReadName(p, rest);
  }

  lemma {:induction false} ReadList(ps: seq<Shape>, s: string)
    requires ps != [] && forall i :: 0 <= i < |ps| ==> WellBuilt(ps[i])
    ensures ParseList(NamesOf(ps) + ")" + s) == Done(ShownAll(ps), s)
    decreases ps, 0
  {
    hide ParseType, NameOf, Shown, WellBuilt;
    var end := ")" + s;
    var list := NamesOf(ps) + ")" + s;
    assert list == NamesOf(ps) + end && end[1..] == s;
    if |ps| == 1 {
      ReadParameter(ps[0], end);
      assert ShownAll(ps) == [Shown(ps[0])];
    } else {
      var more := NamesOf(ps[1..]) + ")" + s;
      var rest := ", " + more;
      assert list == NameOf(ps[0]) + rest;
      ReadParameter(ps[0], rest);
      assert rest[2..] == more && rest[0] == ',';
      ReadList(ps[1..], s);
    }
  }

  // ---------------------------------------------------------------- what equality of names means

  /** Reading a printed name gives the type back, up to what a name cannot show. */
  lemma NamesAreReadable(t: Shape)
    requires WellBuilt(t)
    ensures ParseType(NameOf(t)) == Done(Shown(t), "")
  {
    assert NameOf(t) + "" == NameOf(t);
    ReadName(t, "");
  }

  /** Types with equal structure as far as it is shown have equal names. */
  lemma {:induction false} NameOfShown(t: Shape)
    ensures NameOf(Shown(t)) == NameOf(t)
    decreases t, 0
  {
    match t
    case Atom(_) =>
    case Pointer(base, stars, _) =>
      if base.FunctionShape? {
        NameOfShown(base.returns_);
        NamesOfShown(base.parameters);
      } else {
        NameOfShown(base);
        ShownIsFunction(base);
      }
    case FunctionShape(r, ps) =>
      NameOfShown(r);
      NamesOfShown(ps);
  }

  lemma {:induction false} NamesOfShown(ps: seq<Shape>)
    ensures NamesOf(ShownAll(ps)) == NamesOf(ps)
    decreases ps
  {
    if ps != [] {
      NameOfShown(ps[0]);
      NamesOfShown(ps[1..]);
    }
  }

  lemma ShownIsFunction(t: Shape)
    requires !t.FunctionShape?
    ensures !Shown(t).FunctionShape?
  {
  }

  /** Two types that the constructors can build are equal by name exactly when they are the
      same as far as names show: up to rvalue marks and pointers without stars. */
  lemma EqualByNameIff(a: Shape, b: Shape)
    requires WellBuilt(a) && WellBuilt(b)
    ensures TypesEqual(a, b) <==> Shown(a) == Shown(b)
  {
    NamesAreReadable(a);
    NamesAreReadable(b);
    NameOfShown(a);
    NameOfShown(b);
  }

  // ---------------------------------------------------------------- the pointer constructors

  lemma PointersAreWellBuilt(t: Shape, numPointers: int)
    requires WellBuilt(t)
    ensures WellBuilt(MakePointerType(t, numPointers)) && WellBuilt(RvalueRef(t))
    ensures !MakePointerType(t, numPointers).base.Pointer? && !RvalueRef(t).base.Pointer?
  {
  }

  /** No pointer in the type has lost all its stars. */
  predicate Starred(t: Shape) {
    match t
    case Atom(_) => true
    case Pointer(base, stars, _) => stars > 0 && Starred(base)
    case FunctionShape(r, ps) => Starred(r) && forall i :: 0 <= i < |ps| ==> Starred(ps[i])
  }

  /** The type with no rvalue marks. */
  function Unmarked(t: Shape): Shape {
    match t
    case Atom(_) => t
    case Pointer(base, stars, _) => Pointer(Unmarked(base), stars, false)
    case FunctionShape(r, ps) => FunctionShape(Unmarked(r), seq(|ps|, i requires 0 <= i < |ps| => Unmarked(ps[i])))
  }

  lemma {:induction false} ShownWhenStarred(t: Shape)
    requires Starred(t)
    ensures Shown(t) == Unmarked(t)
  {
    match t
    case Atom(_) =>
    case Pointer(base, _, _) => ShownWhenStarred(base);
    case FunctionShape(r, ps) =>
      ShownWhenStarred(r);
      forall i | 0 <= i < |ps| ensures ShownAll(ps)[i] == Unmarked(ps[i]) {
        ShownWhenStarred(ps[i]);
        ShownAt(ps, i);
      }
  }

  lemma {:induction false} ShownAt(ps: seq<Shape>, i: nat)
    requires i < |ps|
    ensures ShownAll(ps)[i] == Shown(ps[i])
  {
    if i > 0 {
      ShownAt(ps[1..], i - 1);
    }
  }

  /** As long as no count has wrapped to zero, equality by name is structural equality up to
      the marking of rvalue references. */
  lemma EqualByNameWhenStarred(a: Shape, b: Shape)
    requires WellBuilt(a) && WellBuilt(b) && Starred(a) && Starred(b)
    ensures TypesEqual(a, b) <==> Unmarked(a) == Unmarked(b)
  {
    EqualByNameIff(a, b);
    ShownWhenStarred(a);
    ShownWhenStarred(b);
  }

  lemma CountUnchanged(count: nat, numPointers: nat)
    requires count < 256
    ensures (count + numPointers) % 256 == count <==> numPointers % 256 == 0
  {
  }

  /** A pointer is distinct from the type it is made of, unless 8 bits are too few: the names
      agree exactly when the stars that are added are a multiple of 256. */
  lemma PointerDistinctIff(t: Shape, numPointers: nat)
    requires WellBuilt(t)
    ensures TypesEqual(MakePointerType(t, numPointers), t) <==> numPointers % 256 == 0 && !t.FunctionShape?
  {
    hide NameOf, TypesEqual;
    PointersAreWellBuilt(t, numPointers);
    EqualByNameIff(MakePointerType(t, numPointers), t);
    CountUnchanged(if t.Pointer? then t.stars else 0, numPointers);
  }

  /** 255 stars and one more give the name of the base type. */
  lemma OneStarTooMany(name: string)
    requires Clean(name)
    ensures TypesEqual(MakePointerType(MakePointerType(Atom(name), 255), 1), Atom(name))
    ensures TypesEqual(RvalueRef(MakePointerType(Atom(name), 255)), Atom(name))
  {
    assert name + Stars(0) == name;
  }

  /** `&&` on a type adds a star and nothing else that is shown. */
  lemma RvalueRefIsPointer(t: Shape)
    ensures TypesEqual(RvalueRef(t), MakePointerType(t, 1))
  {
    assert NameOf(RvalueRef(t)) == NameOf(MakePointerType(t, 1));
  }
}
