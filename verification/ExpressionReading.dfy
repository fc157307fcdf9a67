/** What the grammar reads as an expression: its text with exactly the parentheses that the
    grammar needs, and nothing shorter.  The printer writes that text or a shorter one. */
module ExpressionReading {
  import opened OperatorSigns
  import opened ExpressionGrammar

  // ---------------------------------------------------------------- the least text

  /** The text of an expression with exactly the parentheses that the grammar needs. */
  function Text(e: Expression): seq<Token>
    decreases e, 0
  {
    match e
    case Atom(kind, name) => [Word(kind, name)]
    case Template(tokens) => tokens
    case Prefix(op, c) => [Sign(op)] + TextAt(c, PREFIX)
    case Postfix(x, op) => TextAt(x, POSTFIX) + [Sign(op)]
    case Member(x, op, name) => TextAt(x, POSTFIX) + [Sign(op), Word(Identifier, name)]
    case Index(x, i) => TextAt(x, POSTFIX) + ([Sign(OpenBracket)] + Text(i) + [Sign(CloseBracket)])
    case Invoke(x, xs) => TextAt(x, POSTFIX) + Enclosed(TextList(xs))
    case Binary(op, l, r) => TextAt(l, LeftRank(op)) + [Sign(op)] + TextAt(r, RightRank(op))
  }

  function TextAt(e: Expression, rank: nat): seq<Token>
    decreases e, 1
  {
    if Rank(e) > rank then Enclosed(Text(e)) else Text(e)
  }

  function TextList(xs: seq<Expression>): seq<Token>
    decreases xs
  {
    if xs == [] then []
    else if |xs| == 1 then Text(xs[0])
    else Text(xs[0]) + [Sign(Comma)] + TextList(xs[1..])
  }

  /** The greatest rank of an operand that needs no parentheses. */
  function LeftRank(op: Symbol): nat {
    if op == Implication then 12 else BinaryRank(op)
  }

  function RightRank(op: Symbol): nat {
    if op == Implication then 13 else if BinaryRank(op) == 0 then 0 else BinaryRank(op) - 1
  }

  // ---------------------------------------------------------------- reading the least text

  /** No suffix and no binary operator of rank `k` or less comes next. */
  predicate Quiet(k: nat, s: seq<Token>) {
    s == [] || s[0].Word? ||
    (s[0].symbol !in {PlusPlus, MinusMinus, Dot, Arrow, Open, OpenBracket} &&
     (BinaryRank(s[0].symbol) == 0 || BinaryRank(s[0].symbol) > k))
  }

  function Depth(e: Expression, k: nat): nat {
    if Rank(e) > k then 1 else 0
  }

  lemma RankBound(e: Expression)
    ensures Rank(e) <= EQUIVALENCE
  {
  }

  lemma {:induction false} ReadLevel(k: nat, e: Expression, s: seq<Token>)
    requires Valid(e) && Plain(e) && PREFIX <= k <= EQUIVALENCE && Quiet(k, s)
    requires Uncaptured(TextAt(e, k) + s, s)
    ensures ParseLevel(false, k, TextAt(e, k) + s) == Done(e, s)
    decreases e, Depth(e, k), k, 1
  {
    hide ParsePrefix, ParsePostfix, Uncaptured;
    if k == PREFIX {
      ReadPrefix(e, s);
    } else if k == IMPLICATION {
      ReadImplication(e, s);
    } else {
      ReadLoop(k, e, s);
      if s != [] && s[0].Sign? {
        RanksAreLevels(k, s[0].symbol);
      }
    }
  }

  /** At the level of operators that associate to the left, reading goes on in the loop. */
  lemma {:induction false} ReadLoop(k: nat, e: Expression, s: seq<Token>)
    requires Valid(e) && Plain(e) && PREFIX < k <= EQUIVALENCE && k != IMPLICATION && Quiet(k - 1, s)
    requires Uncaptured(TextAt(e, k) + s, s)
    ensures ParseLevel(false, k, TextAt(e, k) + s) == More(false, k, e, s)
    decreases e, Depth(e, k), k, 0
  {
    hide ParsePrefix, Uncaptured;
    if Rank(e) == k {
      hide ParseLevel, More, Text;
      var right := TextAt(e.right, k - 1);
      TextBinary(e, k);
      UncapturedOperands(TextAt(e.left, k), e.op, right, s);
      ReadLoop(k, e.left, [Sign(e.op)] + right + s);
      ReadLevel(k - 1, e.right, s);
      Associates([Sign(e.op)], right, s);
      Associates(TextAt(e.left, k), [Sign(e.op)], right);
      Associates(TextAt(e.left, k), [Sign(e.op)] + right, s);
      MoreStep(k, e.left, e.op, e.right, right + s, s);
    } else {
      assert TextAt(e, k) == TextAt(e, k - 1);
      ReadLevel(k - 1, e, s);
    }
  }

  lemma TextBinary(e: Expression, k: nat)
    requires e.Binary? && Rank(e) == k && k != 0
    ensures TextAt(e, k) == TextAt(e.left, LeftRank(e.op)) + [Sign(e.op)] + TextAt(e.right, RightRank(e.op))
  {
  }

  lemma MoreStep(k: nat, left: Expression, op: Symbol, right: Expression, t: seq<Token>, s: seq<Token>)
    requires PREFIX < k <= EQUIVALENCE && BinaryRank(op) == k && ParseLevel(false, k - 1, t) == Done(right, s)
    ensures More(false, k, left, [Sign(op)] + t) == More(false, k, Binary(op, left, right), s)
  {
    hide ParseLevel, BinaryRank, IsOperator;
    RanksAreLevels(k, op);
    assert ([Sign(op)] + t)[1..] == t;
  }

  lemma {:induction false} ReadImplication(e: Expression, s: seq<Token>)
    requires Valid(e) && Plain(e) && Quiet(IMPLICATION, s)
    requires Uncaptured(TextAt(e, IMPLICATION) + s, s)
    ensures ParseLevel(false, IMPLICATION, TextAt(e, IMPLICATION) + s) == Done(e, s)
    decreases e, Depth(e, IMPLICATION), IMPLICATION, 0
  {
    hide ParsePrefix, More, Uncaptured;
    if Rank(e) == IMPLICATION {
      hide ParseLevel, Text;
      assert e.op == Implication;
      var right := TextAt(e.right, 13);
      TextBinary(e, IMPLICATION);
      UncapturedOperands(TextAt(e.left, 12), e.op, right, s);
      ReadLevel(12, e.left, [Sign(Implication)] + right + s);
      ReadLevel(IMPLICATION, e.right, s);
      Associates([Sign(Implication)], right, s);
      Associates(TextAt(e.left, 12), [Sign(Implication)], right);
      Associates(TextAt(e.left, 12), [Sign(Implication)] + right, s);
      ImplicationStep(e.left, TextAt(e.left, 12), e.right, right + s, s);
    } else {
      assert TextAt(e, IMPLICATION) == TextAt(e, 12);
      ReadLevel(12, e, s);
    }
  }

  lemma ImplicationStep(left: Expression, tokens: seq<Token>, right: Expression, t: seq<Token>, s: seq<Token>)
    requires ParseLevel(false, 12, tokens + ([Sign(Implication)] + t)) == Done(left, [Sign(Implication)] + t)
    requires ParseLevel(false, IMPLICATION, t) == Done(right, s)
    ensures ParseLevel(false, IMPLICATION, tokens + ([Sign(Implication)] + t)) == Done(Binary(Implication, left, right), s)
  {
    hide ParsePrefix, More;
    assert ([Sign(Implication)] + t)[1..] == t;
  }

  lemma NoSuffix(e: Expression, s: seq<Token>)
    requires Quiet(PREFIX, s)
    ensures Suffixes(false, e, s) == Done(e, s)
  {
  }

  lemma {:induction false} ReadPrefix(e: Expression, s: seq<Token>)
    requires Valid(e) && Plain(e) && Quiet(PREFIX, s)
    requires Uncaptured(TextAt(e, PREFIX) + s, s)
    ensures ParsePrefix(false, TextAt(e, PREFIX) + s) == Done(e, s)
    decreases e, Depth(e, PREFIX), PREFIX, 0
  {
    hide ParsePostfix, Suffixes, Uncaptured;
    if e.Prefix? {
      Associates([Sign(e.op)], TextAt(e.child, PREFIX), s);
      UncapturedSplit([Sign(e.op)], TextAt(e.child, PREFIX) + s, s);
      assert (TextAt(e, PREFIX) + s)[1..] == TextAt(e.child, PREFIX) + s;
      ReadPrefix(e.child, s);
    } else {
      assert TextAt(e, PREFIX) == TextAt(e, POSTFIX);
      TextStarts(e);
      ReadPostfix(e, s);
      NoSuffix(e, s);
    }
  }

  /** The text of anything but a prefix expression starts with a word or a parenthesis. */
  lemma {:induction false} TextStarts(e: Expression)
    requires Valid(e) && Plain(e)
    ensures TextAt(e, POSTFIX) != []
    ensures TextAt(e, POSTFIX)[0].Word? || TextAt(e, POSTFIX)[0] == Sign(Open)
  {
    match e
    case Atom(_, _) =>
    case Prefix(_, _) =>
    case Binary(_, _, _) =>
    case Template(_) =>
    case _ => TextStarts(e.subject);
  }

  // one suffix, or one pair of parentheses

  lemma ReadStep(e: Expression, op: Symbol, s: seq<Token>)
    requires op in {PlusPlus, MinusMinus}
    ensures Suffixes(false, e, [Sign(op)] + s) == Suffixes(false, Postfix(e, op), s)
  {
    assert ([Sign(op)] + s)[1..] == s;
  }

  lemma ReadMember(e: Expression, op: Symbol, name: string, s: seq<Token>)
    requires op in {Dot, Arrow}
    ensures Suffixes(false, e, [Sign(op), Word(Identifier, name)] + s) == Suffixes(false, Member(e, op, name), s)
  {
    assert ([Sign(op), Word(Identifier, name)] + s)[2..] == s;
  }

  lemma ReadIndex(e: Expression, i: Expression, tokens: seq<Token>, s: seq<Token>)
    requires ParseLevel(false, EQUIVALENCE, tokens + ([Sign(CloseBracket)] + s)) == Done(i, [Sign(CloseBracket)] + s)
    ensures Suffixes(false, e, [Sign(OpenBracket)] + tokens + [Sign(CloseBracket)] + s) == Suffixes(false, Index(e, i), s)
  {
    hide ParseLevel;
    var all := [Sign(OpenBracket)] + tokens + [Sign(CloseBracket)] + s;
    assert all[1..] == tokens + ([Sign(CloseBracket)] + s) && ([Sign(CloseBracket)] + s)[1..] == s;
    assert all[0] == Sign(OpenBracket);
  }

  lemma ReadCall(e: Expression, xs: seq<Expression>, tokens: seq<Token>, s: seq<Token>)
    requires ParseArguments(false, tokens + [Sign(Close)] + s) == Done(xs, s)
    ensures Suffixes(false, e, Enclosed(tokens) + s) == Suffixes(false, Invoke(e, xs), s)
  {
    hide ParseArguments, ParseLevel;
    var all := Enclosed(tokens) + s;
    assert all[1..] == tokens + [Sign(Close)] + s && all[0] == Sign(Open);
  }

  lemma ReadEnclosed(e: Expression, tokens: seq<Token>, s: seq<Token>)
    requires ParseLevel(false, EQUIVALENCE, tokens + ([Sign(Close)] + s)) == Done(e, [Sign(Close)] + s)
    ensures ParsePostfix(false, Enclosed(tokens) + s) == Suffixes(false, e, s)
  {
    hide ParseLevel, Suffixes;
    var all := Enclosed(tokens) + s;
    assert all[1..] == tokens + ([Sign(Close)] + s) && ([Sign(Close)] + s)[1..] == s;
    assert all[0] == Sign(Open);
  }

  lemma UncapturedInner(a: seq<Token>, open: Symbol, inner: seq<Token>, close: Symbol, s: seq<Token>)
    requires Uncaptured(a + ([Sign(open)] + inner + [Sign(close)]) + s, s) && open != Dot && open != Arrow
    ensures var rest := [Sign(open)] + inner + [Sign(close)] + s; Uncaptured(a + rest, rest)
    ensures Uncaptured(inner + ([Sign(close)] + s), [Sign(close)] + s)
  {
    hide Uncaptured;
    var rest, end, x := [Sign(open)] + inner + [Sign(close)] + s, [Sign(close)] + s, a + [Sign(open)];
    Associates(a, [Sign(open)] + inner + [Sign(close)], s);
    UncapturedSplit(a, rest, s);
    assert a + rest == x + (inner + end) && x[|x| - 1] == Sign(open);
    UncapturedSplit(x, inner + end, s);
    UncapturedSplit(inner, end, s);
  }

  lemma {:induction false} ReadPostfix(e: Expression, s: seq<Token>)
    requires Valid(e) && Plain(e) && Uncaptured(TextAt(e, POSTFIX) + s, s)
    ensures ParsePostfix(false, TextAt(e, POSTFIX) + s) == Suffixes(false, e, s)
    decreases e, Depth(e, POSTFIX), POSTFIX, 1
  {
    hide ParseLevel, Suffixes, ParsePostfix, ParseArguments, Uncaptured;
    match e
    case Atom(kind, name) =>
      ReadWord(kind, name, s);
    case Postfix(x, op) =>
      Associates(TextAt(x, POSTFIX), [Sign(op)], s);
      UncapturedSplit(TextAt(x, POSTFIX), [Sign(op)] + s, s);
      ReadPostfix(x, [Sign(op)] + s);
      ReadStep(x, op, s);
    case Member(x, op, name) =>
      var step := [Sign(op), Word(Identifier, name)];
      Associates(TextAt(x, POSTFIX), step, s);
      UncapturedSplit(TextAt(x, POSTFIX), step + s, s);
      ReadPostfix(x, step + s);
      ReadMember(x, op, name, s);
    case Index(x, i) =>
      ReadIndexed(x, i, s);
    case Invoke(x, xs) =>
      ReadInvoked(x, xs, s);
    case Template(_) =>
    case _ =>
      ReadParenthesized(e, s);
  }

  lemma {:induction false} ReadIndexed(x: Expression, i: Expression, s: seq<Token>)
    requires Valid(x) && Plain(x) && Valid(i) && Plain(i)
    requires Uncaptured(TextAt(Index(x, i), POSTFIX) + s, s)
    ensures ParsePostfix(false, TextAt(Index(x, i), POSTFIX) + s) == Suffixes(false, Index(x, i), s)
    decreases Index(x, i), 0, POSTFIX, 0
  {
    hide ParseLevel, Suffixes, ParsePostfix, Uncaptured, Valid, Plain;
    var rest := [Sign(OpenBracket)] + Text(i) + [Sign(CloseBracket)] + s;
    Associates(TextAt(x, POSTFIX), [Sign(OpenBracket)] + Text(i) + [Sign(CloseBracket)], s);
    UncapturedInner(TextAt(x, POSTFIX), OpenBracket, Text(i), CloseBracket, s);
    ReadPostfix(x, rest);
    RankBound(i);
    ReadLevel(EQUIVALENCE, i, [Sign(CloseBracket)] + s);
    ReadIndex(x, i, Text(i), s);
  }

  lemma {:induction false} ReadInvoked(x: Expression, xs: seq<Expression>, s: seq<Token>)
    requires Valid(x) && Plain(x) && AllValid(xs) && AllPlain(xs)
    requires Uncaptured(TextAt(Invoke(x, xs), POSTFIX) + s, s)
    ensures ParsePostfix(false, TextAt(Invoke(x, xs), POSTFIX) + s) == Suffixes(false, Invoke(x, xs), s)
    decreases Invoke(x, xs), 0, POSTFIX, 0
  {
    hide ParseArguments, Suffixes, ParsePostfix, Uncaptured, Valid, Plain;
    Associates(TextAt(x, POSTFIX), Enclosed(TextList(xs)), s);
    UncapturedInner(TextAt(x, POSTFIX), Open, TextList(xs), Close, s);
    ReadPostfix(x, Enclosed(TextList(xs)) + s);
    Associates(TextList(xs), [Sign(Close)], s);
    ReadArguments(xs, s);
    ReadCall(x, xs, TextList(xs), s);
  }

  lemma {:induction false} ReadParenthesized(e: Expression, s: seq<Token>)
    requires Valid(e) && Plain(e) && Rank(e) > POSTFIX && Uncaptured(Enclosed(Text(e)) + s, s)
    ensures ParsePostfix(false, Enclosed(Text(e)) + s) == Suffixes(false, e, s)
    decreases e, 1, 0, 0
  {
    hide ParseLevel, Suffixes, ParsePostfix, Uncaptured, Valid, Plain, Text;
    RankBound(e);
    assert [] + Enclosed(Text(e)) == Enclosed(Text(e));
    UncapturedInner([], Open, Text(e), Close, s);
    ReadLevel(EQUIVALENCE, e, [Sign(Close)] + s);
    ReadEnclosed(e, Text(e), s);
  }

  lemma ReadWord(kind: Kind, name: string, s: seq<Token>)
    requires Uncaptured([Word(kind, name)] + s, s)
    ensures ParsePostfix(false, [Word(kind, name)] + s) == Suffixes(false, Atom(kind, name), s)
  {
    hide Suffixes, ParseTypeList, AfterName;
    var all := [Word(kind, name)] + s;
    assert all[0..] == all && all[1..] == s && all[0] == Word(kind, name);
    if kind == Identifier {
      assert NameAt(all, 0);
    }
    assert ParseTemplateId(all).Fail?;
  }

  lemma {:induction false} ReadArguments(xs: seq<Expression>, s: seq<Token>)
    requires AllValid(xs) && AllPlain(xs)
    requires Uncaptured(TextList(xs) + ([Sign(Close)] + s), [Sign(Close)] + s)
    ensures ParseArguments(false, TextList(xs) + [Sign(Close)] + s) == Done(xs, s)
    decreases xs, 1, 0, 0
  {
    hide Uncaptured;
    if xs == [] {
      assert TextList(xs) + [Sign(Close)] + s == [Sign(Close)] + s;
      assert ([Sign(Close)] + s)[1..] == s;
    } else {
      ReadList(xs, s);
      TextNotClose(xs[0], TextList(xs) + [Sign(Close)] + s);
    }
  }

  lemma TextNotClose(e: Expression, s: seq<Token>)
    requires Valid(e) && Plain(e) && Text(e) <= s
    ensures !Starts(s, Close)
  {
    FirstToken(e);
    assert s[0] == Text(e)[0];
  }

  lemma {:induction false} FirstToken(e: Expression)
    requires Valid(e) && Plain(e)
    ensures Text(e) != [] && Text(e)[0] != Sign(Close)
  {
    match e
    case Atom(_, _) =>
    case Prefix(_, _) =>
    case Binary(op, l, r) => FirstToken(l);
    case Template(_) =>
    case _ => FirstToken(e.subject);
  }

  lemma NextArgument(x: Expression, xs: seq<Expression>, tokens: seq<Token>, more: seq<Token>, s: seq<Token>)
    requires ParseLevel(false, EQUIVALENCE, tokens + ([Sign(Comma)] + more)) == Done(x, [Sign(Comma)] + more)
    requires ParseList(false, more) == Done(xs, s)
    ensures ParseList(false, tokens + ([Sign(Comma)] + more)) == Done([x] + xs, s)
  {
    hide ParseLevel;
    assert ([Sign(Comma)] + more)[1..] == more;
  }

  lemma LastArgument(x: Expression, tokens: seq<Token>, s: seq<Token>)
    requires ParseLevel(false, EQUIVALENCE, tokens + ([Sign(Close)] + s)) == Done(x, [Sign(Close)] + s)
    ensures ParseList(false, tokens + ([Sign(Close)] + s)) == Done([x], s)
  {
    hide ParseLevel;
    assert ([Sign(Close)] + s)[1..] == s;
  }

  lemma {:induction false} ReadList(xs: seq<Expression>, s: seq<Token>)
    requires xs != [] && AllValid(xs) && AllPlain(xs)
    requires Uncaptured(TextList(xs) + ([Sign(Close)] + s), [Sign(Close)] + s)
    ensures ParseList(false, TextList(xs) + [Sign(Close)] + s) == Done(xs, s)
    decreases xs, 0, 0, 0
  {
    hide ParseLevel, Text, Valid, Plain, ParseList, Uncaptured;
    var end := [Sign(Close)] + s;
    assert TextList(xs) + [Sign(Close)] + s == TextList(xs) + end && end[1..] == s;
    RankBound(xs[0]);
    if |xs| == 1 {
      ReadLevel(EQUIVALENCE, xs[0], end);
      LastArgument(xs[0], Text(xs[0]), s);
      assert [xs[0]] == xs;
    } else {
      var x, tail := Text(xs[0]), TextList(xs[1..]);
      var more := tail + [Sign(Close)] + s;
      assert TextList(xs) == x + [Sign(Comma)] + tail;
      hide TextList;
      Associates(tail, [Sign(Close)], s);
      Associates([Sign(Comma)], tail, end);
      Associates(x, [Sign(Comma)], tail);
      Associates(x, [Sign(Comma)] + tail, end);
      UncapturedOperands(x, Comma, tail, end);
      ReadLevel(EQUIVALENCE, xs[0], [Sign(Comma)] + more);
      ReadList(xs[1..], s);
      NextArgument(xs[0], xs[1..], Text(xs[0]), more, s);
      assert [xs[0]] + xs[1..] == xs;
    }
  }

  // ---------------------------------------------------------------- nothing shorter is read

  /** What has been read between `s` and `rest` is `text`, or is longer. */
  predicate Covers(s: seq<Token>, rest: seq<Token>, text: seq<Token>) {
    |s| > |text| + |rest| || s == text + rest
  }

  lemma CoversBoth(s: seq<Token>, mid: seq<Token>, rest: seq<Token>, a: seq<Token>, b: seq<Token>)
    requires Covers(s, mid, a) && Covers(mid, rest, b)
    ensures Covers(s, rest, a + b)
  {
    Associates(a, b, rest);
  }

  lemma CoversToken(s: seq<Token>)
    requires s != []
    ensures Covers(s, s[1..], [s[0]])
  {
    assert s == [s[0]] + s[1..];
  }

  /** With a greater rank there is no more to write. */
  lemma CoversAt(s: seq<Token>, rest: seq<Token>, e: Expression, j: nat, k: nat)
    requires Covers(s, rest, TextAt(e, j)) && j <= k
    ensures Covers(s, rest, TextAt(e, k))
  {
  }

  /** What has been read as `e` between `s` and `rest` is its text or longer, and no name in it
      was captured, unless a template id was read. */
  predicate Sound(s: seq<Token>, rest: seq<Token>, e: Expression, k: nat) {
    Valid(e) && (Plain(e) ==> Covers(s, rest, TextAt(e, k)) && Uncaptured(s, rest))
  }

  /** With a greater rank there is no more to write. */
  lemma SoundAt(s: seq<Token>, rest: seq<Token>, e: Expression, j: nat, k: nat)
    requires Sound(s, rest, e, j) && j <= k
    ensures Sound(s, rest, e, k)
  {
    hide Covers, Uncaptured, Valid, Plain;
    if Plain(e) {
      CoversAt(s, rest, e, j, k);
    }
  }

  lemma {:induction false} SoundLevel(k: nat, s: seq<Token>)
    requires PREFIX <= k <= EQUIVALENCE && ParseLevel(false, k, s).Done?
    ensures var r := ParseLevel(false, k, s); Sound(s, r.rest, r.value, k)
    decreases |s|, k + 3
  {
    hide Sound, ParsePrefix;
    if k == PREFIX {
      SoundPrefix(s);
    } else {
      var left := ParseLevel(false, k - 1, s);
      SoundLevel(k - 1, s);
      if k == IMPLICATION {
        if Starts(left.rest, Implication) {
          SoundLevel(k, left.rest[1..]);
          SoundBinary(s, left.value, left.rest, ParseLevel(false, k, left.rest[1..]).value, ParseLevel(false, k, s).rest);
        } else {
          SoundAt(s, left.rest, left.value, k - 1, k);
        }
      } else {
        SoundAt(s, left.rest, left.value, k - 1, k);
        SoundMore(k, left.value, s, left.rest);
      }
    }
  }

  lemma SoundBinary(start: seq<Token>, left: Expression, s: seq<Token>, right: Expression, rest: seq<Token>)
    requires s != [] && s[0].Sign? && BinaryRank(s[0].symbol) > 0
    requires Sound(start, s, left, LeftRank(s[0].symbol))
    requires Sound(s[1..], rest, right, RightRank(s[0].symbol))
    ensures Sound(start, rest, Binary(s[0].symbol, left, right), BinaryRank(s[0].symbol))
  {
    hide Covers, Uncaptured, BinaryRank, LeftRank, RightRank;
    var op := s[0].symbol;
    var e := Binary(op, left, right);
    assert Valid(e) && Plain(e) == (Plain(left) && Plain(right));
    if Plain(e) {
      assert TextAt(e, BinaryRank(op)) == Text(e);
      CoversToken(s);
      CoversBoth(start, s, s[1..], TextAt(left, LeftRank(op)), [Sign(op)]);
      CoversBoth(start, s[1..], rest, TextAt(left, LeftRank(op)) + [Sign(op)], TextAt(right, RightRank(op)));
      UncapturedSign(s);
      UncapturedBoth(start, s, s[1..]);
      UncapturedBoth(start, s[1..], rest);
    }
  }

  lemma {:induction false} SoundMore(k: nat, left: Expression, start: seq<Token>, s: seq<Token>)
    requires PREFIX < k <= EQUIVALENCE && k != IMPLICATION && More(false, k, left, s).Done?
    requires Sound(start, s, left, k)
    ensures var r := More(false, k, left, s); Sound(start, r.rest, r.value, k)
    decreases |s|, 0
  {
    hide Sound, ParseLevel;
    if s != [] && s[0].Sign? && IsOperator(k, s[0].symbol) {
      RanksAreLevels(k, s[0].symbol);
      var right := ParseLevel(false, k - 1, s[1..]);
      if right.Done? {
        SoundLevel(k - 1, s[1..]);
        SoundBinary(start, left, s, right.value, right.rest);
        SoundMore(k, Binary(s[0].symbol, left, right.value), start, right.rest);
      }
    }
  }

  lemma {:induction false} SoundPrefix(s: seq<Token>)
    requires ParsePrefix(false, s).Done?
    ensures var r := ParsePrefix(false, s); Sound(s, r.rest, r.value, PREFIX)
    decreases |s|, 3
  {
    hide Covers, Uncaptured, ParsePostfix;
    if s != [] && s[0].Sign? && IsPrefix(s[0].symbol) {
      SoundPrefix(s[1..]);
      CoversToken(s);
      UncapturedSign(s);
      var child := ParsePrefix(false, s[1..]);
      var e := Prefix(s[0].symbol, child.value);
      assert Valid(e) && Plain(e) == Plain(child.value) && TextAt(e, PREFIX) == Text(e);
      if Plain(e) {
        CoversBoth(s, s[1..], child.rest, [s[0]], TextAt(child.value, PREFIX));
        UncapturedBoth(s, s[1..], child.rest);
      }
    } else {
      SoundPostfix(s);
      SoundAt(s, ParsePostfix(false, s).rest, ParsePostfix(false, s).value, POSTFIX, PREFIX);
    }
  }

  lemma {:induction false} SoundPostfix(s: seq<Token>)
    requires ParsePostfix(false, s).Done?
    ensures var r := ParsePostfix(false, s); Sound(s, r.rest, r.value, POSTFIX)
    decreases |s|, 2
  {
    hide Sound, Suffixes;
    var primary := ParsePrimary(false, s);
    SoundPrimary(s);
    SoundAt(s, primary.rest, primary.value, PRIMARY, POSTFIX);
    SoundSuffixes(primary.value, s, primary.rest);
  }

  lemma {:induction false} SoundPrimary(s: seq<Token>)
    requires ParsePrimary(false, s).Done?
    ensures var r := ParsePrimary(false, s); Sound(s, r.rest, r.value, PRIMARY)
    decreases |s|, 1
  {
    hide ParseLevel, ParseTemplateId, Uncaptured;
    CoversToken(s);
    if s[0].Word? {
      SoundWord(s);
    } else {
      var inner := ParseLevel(false, EQUIVALENCE, s[1..]);
      SoundLevel(EQUIVALENCE, s[1..]);
      if Plain(inner.value) {
        hide Covers;
        RankBound(inner.value);
        CoversToken(inner.rest);
        CoversBoth(s, s[1..], inner.rest, [Sign(Open)], Text(inner.value));
        CoversBoth(s, inner.rest, inner.rest[1..], [Sign(Open)] + Text(inner.value), [Sign(Close)]);
        CoversUnenclosed(s, inner.rest[1..], inner.value);
        UncapturedSign(s);
        UncapturedSign(inner.rest);
        UncapturedBoth(s, s[1..], inner.rest);
        UncapturedBoth(s, inner.rest, inner.rest[1..]);
      }
    }
  }

  /** A word is read as an atom only if it does not start a template id. */
  lemma SoundWord(s: seq<Token>)
    requires s != [] && s[0].Word? && ParsePrimary(false, s).Done?
    ensures var r := ParsePrimary(false, s); Sound(s, r.rest, r.value, PRIMARY)
  {
    hide ParseTemplateId, ParseLevel;
    CoversToken(s);
    assert s[0..] == s;
    if ParseTemplateId(s).Done? {
      assert ParseTemplateId(s).value.Template?;
      assert ParsePrimary(false, s) == ParseTemplateId(s);
    } else {
      var e := Atom(s[0].kind, s[0].name);
      assert Valid(e) && Plain(e) && TextAt(e, PRIMARY) == [s[0]];
    }
  }

  lemma CoversUnenclosed(s: seq<Token>, rest: seq<Token>, e: Expression)
    requires Covers(s, rest, [Sign(Open)] + Text(e) + [Sign(Close)])
    ensures Covers(s, rest, TextAt(e, PRIMARY))
  {
  }

  lemma CoversPair(start: seq<Token>, s: seq<Token>, rest: seq<Token>, x: seq<Token>, open: Symbol,
                   inner: seq<Token>, close: Symbol)
    requires Covers(start, s, x) && Starts(s, open) && Covers(s[1..], rest, inner + [Sign(close)])
    requires Uncaptured(start, s) && Uncaptured(s[1..], rest)
    ensures Covers(start, rest, x + ([Sign(open)] + inner + [Sign(close)])) && Uncaptured(start, rest)
  {
    hide Covers, Uncaptured;
    CoversToken(s);
    CoversBoth(s, s[1..], rest, [Sign(open)], inner + [Sign(close)]);
    CoversBoth(start, s, rest, x, [Sign(open)] + (inner + [Sign(close)]));
    Associates([Sign(open)], inner, [Sign(close)]);
    UncapturedSign(s);
    UncapturedBoth(start, s, s[1..]);
    UncapturedBoth(start, s[1..], rest);
  }

  lemma {:induction false} SoundSuffixes(e: Expression, start: seq<Token>, s: seq<Token>)
    requires Suffixes(false, e, s).Done? && Sound(start, s, e, POSTFIX)
    ensures var r := Suffixes(false, e, s); Sound(start, r.rest, r.value, POSTFIX)
    decreases |s|, 0
  {
    hide Sound, ParseLevel, ParseArguments, ParseTemplateId;
    if Starts(s, PlusPlus) || Starts(s, MinusMinus) {
      SoundStep(e, start, s);
      SoundSuffixes(Postfix(e, s[0].symbol), start, s[1..]);
    } else if (Starts(s, Dot) || Starts(s, Arrow)) && |s| > 1 && IsIdentifier(s[1]) {
      SoundMember(e, start, s);
      SoundSuffixes(Member(e, s[0].symbol, s[1].name), start, s[2..]);
    } else if Starts(s, Open) {
      var arguments := ParseArguments(false, s[1..]);
      SoundArguments(s[1..]);
      SoundCall(e, start, s, arguments.value, arguments.rest);
      SoundSuffixes(Invoke(e, arguments.value), start, arguments.rest);
    } else if Starts(s, OpenBracket) {
      var index := ParseLevel(false, EQUIVALENCE, s[1..]);
      SoundLevel(EQUIVALENCE, s[1..]);
      SoundIndex(e, start, s, index.value, index.rest);
      SoundSuffixes(Index(e, index.value), start, index.rest[1..]);
    }
  }

  lemma SoundStep(e: Expression, start: seq<Token>, s: seq<Token>)
    requires Sound(start, s, e, POSTFIX) && (Starts(s, PlusPlus) || Starts(s, MinusMinus))
    ensures Sound(start, s[1..], Postfix(e, s[0].symbol), POSTFIX)
  {
    hide Covers, Uncaptured;
    var r := Postfix(e, s[0].symbol);
    assert Valid(r) && Plain(r) == Plain(e) && TextAt(r, POSTFIX) == Text(r);
    if Plain(e) {
      CoversToken(s);
      CoversBoth(start, s, s[1..], TextAt(e, POSTFIX), [s[0]]);
      UncapturedSign(s);
      UncapturedBoth(start, s, s[1..]);
    }
  }

  lemma SoundMember(e: Expression, start: seq<Token>, s: seq<Token>)
    requires Sound(start, s, e, POSTFIX) && (Starts(s, Dot) || Starts(s, Arrow)) && |s| > 1 && IsIdentifier(s[1])
    ensures Sound(start, s[2..], Member(e, s[0].symbol, s[1].name), POSTFIX)
  {
    hide Covers, Uncaptured;
    var r := Member(e, s[0].symbol, s[1].name);
    assert Valid(r) && Plain(r) == Plain(e) && TextAt(r, POSTFIX) == Text(r);
    if Plain(e) {
      CoversTwo(s);
      CoversBoth(start, s, s[2..], TextAt(e, POSTFIX), [s[0], s[1]]);
      assert s[1] == Word(Identifier, s[1].name);
      UncapturedMember(s);
      UncapturedBoth(start, s, s[2..]);
    }
  }

  lemma SoundIndex(e: Expression, start: seq<Token>, s: seq<Token>, i: Expression, rest: seq<Token>)
    requires Sound(start, s, e, POSTFIX) && Starts(s, OpenBracket)
    requires Sound(s[1..], rest, i, EQUIVALENCE) && Starts(rest, CloseBracket)
    ensures Sound(start, rest[1..], Index(e, i), POSTFIX)
  {
    hide Covers, Uncaptured;
    var r := Index(e, i);
    assert Valid(r) && Plain(r) == (Plain(e) && Plain(i)) && TextAt(r, POSTFIX) == Text(r);
    if Plain(r) {
      RankBound(i);
      CoversToken(rest);
      CoversBoth(s[1..], rest, rest[1..], Text(i), [Sign(CloseBracket)]);
      UncapturedSign(rest);
      UncapturedBoth(s[1..], rest, rest[1..]);
      CoversPair(start, s, rest[1..], TextAt(e, POSTFIX), OpenBracket, Text(i), CloseBracket);
    }
  }

  /** The arguments of a call, up to the closing parenthesis, as `Sound` has it for one expression. */
  predicate SoundList(s: seq<Token>, rest: seq<Token>, xs: seq<Expression>) {
    AllValid(xs) && (AllPlain(xs) ==> Covers(s, rest, TextList(xs) + [Sign(Close)]) && Uncaptured(s, rest))
  }

  lemma AllWithNext(x: Expression, xs: seq<Expression>)
    ensures AllValid([x] + xs) <==> Valid(x) && AllValid(xs)
    ensures AllPlain([x] + xs) <==> Plain(x) && AllPlain(xs)
  {
    hide Valid, Plain;
    var all := [x] + xs;
    assert all[0] == x && forall i :: 0 <= i < |xs| ==> xs[i] == all[i + 1];
  }

  lemma SoundCall(e: Expression, start: seq<Token>, s: seq<Token>, xs: seq<Expression>, rest: seq<Token>)
    requires Sound(start, s, e, POSTFIX) && Starts(s, Open) && SoundList(s[1..], rest, xs)
    ensures Sound(start, rest, Invoke(e, xs), POSTFIX)
  {
    hide Covers, Uncaptured;
    var r := Invoke(e, xs);
    assert Valid(r) && Plain(r) == (Plain(e) && forall i :: 0 <= i < |xs| ==> Plain(xs[i]));
    assert TextAt(r, POSTFIX) == Text(r);
    if Plain(r) {
      CoversPair(start, s, rest, TextAt(e, POSTFIX), Open, TextList(xs), Close);
    }
  }

  lemma CoversTwo(s: seq<Token>)
    requires |s| > 1
    ensures Covers(s, s[2..], [s[0], s[1]])
  {
    assert s == [s[0], s[1]] + s[2..];
  }

  lemma {:induction false} SoundArguments(s: seq<Token>)
    requires ParseArguments(false, s).Done?
    ensures var r := ParseArguments(false, s); SoundList(s, r.rest, r.value)
    decreases |s|, 19
  {
    hide Covers, Uncaptured, ParseList;
    if Starts(s, Close) {
      CoversToken(s);
      UncapturedSign(s);
      assert TextList([]) + [Sign(Close)] == [Sign(Close)];
    } else {
      SoundArgumentList(s);
    }
  }

  lemma {:induction false} SoundArgumentList(s: seq<Token>)
    requires ParseList(false, s).Done?
    ensures var r := ParseList(false, s); r.value != [] && SoundList(s, r.rest, r.value)
    decreases |s|, 18
  {
    hide Sound, SoundList, ParseLevel;
    var x := ParseLevel(false, EQUIVALENCE, s);
    SoundLevel(EQUIVALENCE, s);
    if Starts(x.rest, Close) {
      SoundLast(s, x.value, x.rest);
    } else {
      var more := ParseList(false, x.rest[1..]);
      SoundArgumentList(x.rest[1..]);
      SoundNext(s, x.value, x.rest, more.value, more.rest);
    }
  }

  lemma SoundLast(s: seq<Token>, x: Expression, rest: seq<Token>)
    requires Sound(s, rest, x, EQUIVALENCE) && Starts(rest, Close)
    ensures SoundList(s, rest[1..], [x])
  {
    hide Covers, Uncaptured, Valid, Plain;
    RankBound(x);
    CoversToken(rest);
    UncapturedSign(rest);
    assert Plain([x][0]) == Plain(x);
    if Plain(x) {
      assert TextList([x]) == Text(x);
      CoversBoth(s, rest, rest[1..], Text(x), [Sign(Close)]);
      UncapturedBoth(s, rest, rest[1..]);
    }
  }

  lemma SoundNext(s: seq<Token>, x: Expression, rest: seq<Token>, xs: seq<Expression>, end: seq<Token>)
    requires Sound(s, rest, x, EQUIVALENCE) && Starts(rest, Comma) && SoundList(rest[1..], end, xs) && xs != []
    ensures SoundList(s, end, [x] + xs)
  {
    hide Covers, Uncaptured, Valid, Plain, AllValid, AllPlain;
    RankBound(x);
    AllWithNext(x, xs);
    if Plain(x) && AllPlain(xs) {
      var list := TextList(xs) + [Sign(Close)];
      CoversToken(rest);
      CoversBoth(s, rest, rest[1..], Text(x), [Sign(Comma)]);
      CoversBoth(s, rest[1..], end, Text(x) + [Sign(Comma)], list);
      assert ([x] + xs)[1..] == xs;
      Associates(Text(x) + [Sign(Comma)], TextList(xs), [Sign(Close)]);
      UncapturedSign(rest);
      UncapturedBoth(s, rest, rest[1..]);
      UncapturedBoth(s, rest[1..], end);
    }
  }

  /** The least text of an expression is the shortest that is read as it, and the only one of
      its length; and reading it met no name that starts a template id. */
  lemma LeastText(tokens: seq<Token>, e: Expression)
    requires Parse(tokens) == Done(e, [])
    ensures Valid(e) && (Plain(e) ==> (tokens == Text(e) || |tokens| > |Text(e)|) && Uncaptured(tokens, []))
  {
    hide Valid, Plain, ParseLevel, Text, Rank, Uncaptured;
    SoundLevel(EQUIVALENCE, tokens);
    RankBound(e);
  }

  // ---------------------------------------------------------------- where the printer writes the least text

  /** No operand needs parentheses that the printer leaves out: no right operand has the rank
      of its operator (for `=>`, no left operand), and what is called is at most a postfix
      expression. */
  predicate Faithful(e: Expression) {
    match e
    case Atom(_, _) => true
    case Template(_) => true
    case Prefix(_, c) => Faithful(c)
    case Postfix(x, _) => Faithful(x)
    case Member(x, _, _) => Faithful(x)
    case Index(x, i) => Faithful(x) && Faithful(i)
    case Invoke(x, xs) => Rank(x) <= POSTFIX && Faithful(x) && forall i :: 0 <= i < |xs| ==> Faithful(xs[i])
    case Binary(op, l, r) =>
      Faithful(l) && Faithful(r) && Rank(if op == Implication then l else r) != BinaryRank(op)
  }

  /** The printer writes the least text or something shorter. */
  lemma {:induction false} PrintedLength(e: Expression)
    requires Valid(e)
    ensures |Print(e)| <= |Text(e)|
    ensures Faithful(e) ==> Print(e) == Text(e)
    ensures !Faithful(e) ==> |Print(e)| < |Text(e)|
    decreases e
  {
    match e
    case Atom(_, _) =>
    case Template(_) =>
    case Prefix(_, c) => PrintedLength(c); PrintedAt(c, PREFIX, PREFIX);
    case Postfix(x, _) => PrintedLength(x); PrintedAt(x, POSTFIX, POSTFIX);
    case Member(x, _, _) => PrintedLength(x); PrintedAt(x, POSTFIX, POSTFIX);
    case Index(x, i) => PrintedLength(x); PrintedLength(i); PrintedAt(x, POSTFIX, POSTFIX);
    case Invoke(x, xs) => PrintedLength(x); PrintedListLength(xs); PrintedAt(x, POSTFIX, EQUIVALENCE); RankBound(x);
    case Binary(op, l, r) =>
      PrintedLength(l);
      PrintedLength(r);
      hide Print, Text;
      PrintedAt(l, LeftRank(op), BinaryRank(op));
      PrintedAt(r, RightRank(op), BinaryRank(op));
      PrintedBinary(op, l, r);
  }

  /** Parentheses are left out exactly at the ranks between those that the grammar and the
      printer go by. */
  lemma PrintedAt(e: Expression, j: nat, k: nat)
    requires |Print(e)| <= |Text(e)| && j <= k
    requires if Faithful(e) then Print(e) == Text(e) else |Print(e)| < |Text(e)|
    ensures |PrintAt(e, k)| <= |TextAt(e, j)|
    ensures Faithful(e) && !(j < Rank(e) <= k) ==> PrintAt(e, k) == TextAt(e, j)
    ensures !Faithful(e) || j < Rank(e) <= k ==> |PrintAt(e, k)| < |TextAt(e, j)|
  {
    hide Print, Text, Faithful;
  }

  lemma PrintedBinary(op: Symbol, l: Expression, r: Expression)
    ensures |Print(Binary(op, l, r))| == |PrintAt(l, BinaryRank(op))| + 1 + |PrintAt(r, BinaryRank(op))|
    ensures |Text(Binary(op, l, r))| == |TextAt(l, LeftRank(op))| + 1 + |TextAt(r, RightRank(op))|
    ensures PrintAt(l, BinaryRank(op)) == TextAt(l, LeftRank(op)) && PrintAt(r, BinaryRank(op)) == TextAt(r, RightRank(op)) ==>
              Print(Binary(op, l, r)) == Text(Binary(op, l, r))
  {
  }

  lemma {:induction false} PrintedListLength(xs: seq<Expression>)
    requires AllValid(xs)
    ensures |PrintList(xs)| <= |TextList(xs)|
    ensures (forall i :: 0 <= i < |xs| ==> Faithful(xs[i])) ==> PrintList(xs) == TextList(xs)
    ensures !(forall i :: 0 <= i < |xs| ==> Faithful(xs[i])) ==> |PrintList(xs)| < |TextList(xs)|
    decreases xs
  {
    if xs != [] {
      PrintedLength(xs[0]);
      if |xs| > 1 {
        PrintedListLength(xs[1..]);
        assert forall i :: 0 < i < |xs| ==> xs[i] == xs[1..][i - 1];
      }
    }
  }
}
