/** Lists of type derivations (`DerivationList`, Cm.Ast/TypeExpr.cpp): at most seven, in a fixed
    array that the operations edit in place. */
module DerivationLists {

  datatype Derivation = NoDerivation | Const | Reference | RvalueRef | Pointer | LeftParen | RightParen | Array {
    function Code(): nat {
      match this
      case NoDerivation => 0
      case Const => 1
      case Reference => 2
      case RvalueRef => 3
      case Pointer => 4
      case LeftParen => 5
      case RightParen => 6
      case Array => 7
    }
  }

  const MAX_DERIVATIONS := 7

  // ---------------------------------------------------------------- sequences of derivations

  /** The members that are kept, in order. */
  function Filter(s: seq<Derivation>, removed: set<Derivation>): (r: seq<Derivation>)
    ensures |r| <= |s|
  {
    if s == [] then []
    else
      var d := s[|s| - 1];
      Filter(s[..|s| - 1], removed) + if d in removed then [] else [d]
  }

  lemma {:induction false} FilterKeeps(s: seq<Derivation>, removed: set<Derivation>, d: Derivation)
    ensures multiset(Filter(s, removed))[d] == if d in removed then 0 else multiset(s)[d]
  {
    if s != [] {
      FilterKeeps(s[..|s| - 1], removed, d);
      assert s == s[..|s| - 1] + [s[|s| - 1]];
    }
  }

  /** What is kept stays in order: filtering works on the parts of a list separately. */
  lemma {:induction false} FilterInOrder(a: seq<Derivation>, b: seq<Derivation>, removed: set<Derivation>)
    ensures Filter(a + b, removed) == Filter(a, removed) + Filter(b, removed)
    decreases |b|
  {
    if b == [] {
      assert a + b == a;
    } else {
      assert (a + b)[..|a + b| - 1] == a + b[..|b| - 1];
      FilterInOrder(a, b[..|b| - 1], removed);
    }
  }

  /** The position after the last pointer; zero if there is none. */
  function AfterLastPointer(s: seq<Derivation>): (n: nat)
    ensures n <= |s|
    ensures n > 0 ==> s[n - 1] == Pointer
    ensures forall i :: n <= i < |s| ==> s[i] != Pointer
  {
    if s == [] then 0
    else if s[|s| - 1] == Pointer then |s|
    else AfterLastPointer(s[..|s| - 1])
  }

  function Without(s: seq<Derivation>, i: nat): seq<Derivation>
    requires i < |s|
  {
    s[..i] + s[i + 1..]
  }

  /** Shorter lists come first; lists of one length are ordered by their first difference. */
  predicate Less(a: seq<Derivation>, b: seq<Derivation>) {
    |a| < |b| || (|a| == |b| && FirstDifferenceLess(a, b))
  }

  predicate FirstDifferenceLess(a: seq<Derivation>, b: seq<Derivation>)
    requires |a| == |b|
  {
    a != [] && (a[0].Code() < b[0].Code() || (a[0] == b[0] && FirstDifferenceLess(a[1..], b[1..])))
  }

  /** The derivations by themselves are ordered as they are declared. */
  lemma DerivationsInOrder(a: Derivation, b: Derivation)
    ensures Less([a], [b]) <==>
              match a
              case NoDerivation => !b.NoDerivation?
              case Const => !b.NoDerivation? && !b.Const?
              case Reference => b.RvalueRef? || b.Pointer? || b.LeftParen? || b.RightParen? || b.Array?
              case RvalueRef => b.Pointer? || b.LeftParen? || b.RightParen? || b.Array?
              case Pointer => b.LeftParen? || b.RightParen? || b.Array?
              case LeftParen => b.RightParen? || b.Array?
              case RightParen => b.Array?
              case Array => false
  {
    assert !FirstDifferenceLess([a][1..], [b][1..]);
  }

  /** The first difference decides, whatever comes behind it. */
  lemma {:induction false} FirstDifferenceDecides(s: seq<Derivation>, a: Derivation, x: seq<Derivation>,
                                                  b: Derivation, y: seq<Derivation>)
    requires |x| == |y| && a != b
    ensures Less(s + [a] + x, s + [b] + y) <==> Less([a], [b])
  {
    CodesDiffer(a, b);
    var l, r := s + [a] + x, s + [b] + y;
    if s == [] {
      assert l[0] == a && r[0] == b;
      assert !FirstDifferenceLess([a][1..], [b][1..]);
    } else {
      assert l[1..] == s[1..] + [a] + x && r[1..] == s[1..] + [b] + y;
      FirstDifferenceDecides(s[1..], a, x, b, y);
    }
  }

  lemma CodesDiffer(a: Derivation, b: Derivation)
    ensures a.Code() == b.Code() <==> a == b
  {
  }

  /** `<` is a strict order, and lists that it does not order are equal. */
  lemma {:induction false} LessIsTotal(a: seq<Derivation>, b: seq<Derivation>)
    ensures !(Less(a, b) && Less(b, a))
    ensures !Less(a, b) && !Less(b, a) <==> a == b
  {
    if |a| == |b| && a != [] {
      CodesDiffer(a[0], b[0]);
      LessIsTotal(a[1..], b[1..]);
      assert a == [a[0]] + a[1..] && b == [b[0]] + b[1..];
    }
  }

  lemma {:induction false} LessIsTransitive(a: seq<Derivation>, b: seq<Derivation>, c: seq<Derivation>)
    requires Less(a, b) && Less(b, c)
    ensures Less(a, c)
  {
    if |a| == |b| == |c| && a[0] == b[0] == c[0] {
      LessIsTransitive(a[1..], b[1..], c[1..]);
    }
  }

  // ---------------------------------------------------------------- the list

  class DerivationList {
    const derivations: array<Derivation>
    var numDerivations: nat

    /** Unused slots are empty. */
    ghost predicate Valid()
      reads this, derivations
    {
      && derivations.Length == MAX_DERIVATIONS && numDerivations <= MAX_DERIVATIONS
      && forall i :: numDerivations <= i < MAX_DERIVATIONS ==> derivations[i] == NoDerivation
    }

    ghost function Contents(): seq<Derivation>
      reads this, derivations
      requires numDerivations <= derivations.Length
    {
      derivations[..numDerivations]
    }

    constructor ()
      ensures Valid() && fresh(derivations) && Contents() == []
    {
      derivations := new Derivation[MAX_DERIVATIONS](_ => NoDerivation);
      numDerivations := 0;
    }

    method Add(derivation: Derivation) returns (ok: bool)
      requires Valid()
      modifies this, derivations
      ensures Valid() && ok == (old(numDerivations) < MAX_DERIVATIONS)
      ensures Contents() == old(Contents()) + if ok then [derivation] else []
    {
      if numDerivations >= MAX_DERIVATIONS { return false; }
      derivations[numDerivations] := derivation;
      numDerivations := numDerivations + 1;
      ok := true;
    }

    method InsertFront(derivation: Derivation) returns (ok: bool)
      requires Valid()
      modifies this, derivations
      ensures Valid() && ok == (old(numDerivations) < MAX_DERIVATIONS)
      ensures Contents() == (if ok then [derivation] else []) + old(Contents())
    {
      if numDerivations >= MAX_DERIVATIONS { return false; }
      var i := numDerivations;
      while i > 0
        modifies derivations
        invariant 0 <= i <= numDerivations
        invariant forall k :: 0 <= k <= i && k < numDerivations ==> derivations[k] == old(derivations[k])
        invariant forall k :: i < k <= numDerivations ==> derivations[k] == old(derivations[k - 1])
        invariant forall k :: numDerivations < k < MAX_DERIVATIONS ==> derivations[k] == NoDerivation
        invariant i == numDerivations ==> derivations[i] == NoDerivation
      {
        derivations[i] := derivations[i - 1];
        i := i - 1;
      }
      derivations[0] := derivation;
      numDerivations := numDerivations + 1;
      ok := true;
    }

    /** Takes the last pointer out.  The entries behind it do not move up, so the list is what
        remains, with its unused slots empty, exactly when the pointer was the last entry. */
    method RemoveLastPointer()
      requires Valid()
      modifies this, derivations
      ensures derivations.Length == MAX_DERIVATIONS && numDerivations <= MAX_DERIVATIONS
      ensures var s := old(Contents()); var n := AfterLastPointer(s);
              if n == 0 then Valid() && Contents() == s
              else
                && numDerivations == |s| - 1 && derivations[..|s|] == s[n - 1 := NoDerivation]
                && (n == |s| ==> Valid() && Contents() == s[..|s| - 1])
                && (n < |s| && NoDerivation !in s ==> !Valid() && Contents() != Without(s, n - 1))
    {
      ghost var s := Contents();
      var i := numDerivations as int - 1;
      while i >= 0
        invariant -1 <= i < numDerivations && AfterLastPointer(s) <= i + 1
      {
        if derivations[i] == Pointer {
          assert AfterLastPointer(s) == i + 1;
          derivations[i] := NoDerivation;
          numDerivations := numDerivations - 1;
          if i + 1 < |s| && NoDerivation !in s {
            assert s[i + 1] in s && s[|s| - 1] in s;
            assert derivations[numDerivations] == s[|s| - 1] && Contents()[i] != Without(s, i)[i];
          }
          return;
        }
        i := i - 1;
      }
    }

    /** Keeps what is not removed, in order, at the front, and empties the rest. */
    method RemoveIf(removed: set<Derivation>)
      requires Valid()
      modifies this, derivations
      ensures Valid() && Contents() == Filter(old(Contents()), removed)
    {
      ghost var s := Contents();
      var newEnd := 0;
      for i := 0 to numDerivations
        modifies derivations
        invariant newEnd <= i && derivations[..newEnd] == Filter(s[..i], removed)
        invariant forall k :: i <= k < MAX_DERIVATIONS ==> derivations[k] == old(derivations[k])
      {
        assert s[..i + 1][..i] == s[..i];
        if derivations[i] !in removed {
          derivations[newEnd] := derivations[i];
          newEnd := newEnd + 1;
        }
      }
      assert s[..|s|] == s;
      for i := newEnd to numDerivations
        modifies derivations
        invariant derivations[..newEnd] == Filter(s, removed)
        invariant forall k :: newEnd <= k < i ==> derivations[k] == NoDerivation
        invariant forall k :: numDerivations <= k < MAX_DERIVATIONS ==> derivations[k] == NoDerivation
      {
        derivations[i] := NoDerivation;
      }
      numDerivations := newEnd;
    }

    method RemoveReference()
      requires Valid()
      modifies this, derivations
      ensures Valid() && Contents() == Filter(old(Contents()), {Reference})
    {
      RemoveIf({Reference});
    }

    method RemoveReferenceOrRvalueRef()
      requires Valid()
      modifies this, derivations
      ensures Valid() && Contents() == Filter(old(Contents()), {Reference, RvalueRef})
    {
      RemoveIf({Reference, RvalueRef});
    }

    method Equals(right: DerivationList) returns (r: bool)
      requires Valid() && right.Valid()
      ensures r <==> Contents() == right.Contents()
    {
      var n := numDerivations;
      if n != right.numDerivations { return false; }
      for i := 0 to n
        invariant derivations[..i] == right.derivations[..i]
      {
        if derivations[i] != right.derivations[i] {
          assert Contents()[i] != right.Contents()[i];
          return false;
        }
      }
      r := true;
    }

    method LessThan(right: DerivationList) returns (r: bool)
      requires Valid() && right.Valid()
      ensures r <==> Less(Contents(), right.Contents())
    {
      var n, m := numDerivations, right.numDerivations;
      if n < m { return true; }
      if n > m { return false; }
      ghost var a, b := Contents(), right.Contents();
      for i := 0 to n
        invariant FirstDifferenceLess(a, b) <==> FirstDifferenceLess(a[i..], b[i..])
      {
        assert a[i..][1..] == a[i + 1..] && b[i..][1..] == b[i + 1..];
        CodesDiffer(a[i], b[i]);
        if derivations[i].Code() < right.derivations[i].Code() {
          return true;
        } else if derivations[i].Code() > right.derivations[i].Code() {
          return false;
        }
      }
      r := false;
    }
  }

  /** Adding a pointer and removing the last pointer leaves the list as it was. */
  method AddThenRemovePointer(list: DerivationList)
    requires list.Valid() && list.numDerivations < MAX_DERIVATIONS
    modifies list, list.derivations
    ensures list.Valid() && list.Contents() == old(list.Contents())
  {
    ghost var s := list.Contents();
    var ok := list.Add(Pointer);
    assert list.Contents() == s + [Pointer] && AfterLastPointer(s + [Pointer]) == |s| + 1;
    list.RemoveLastPointer();
    assert (s + [Pointer])[..|s|] == s;
  }
}
