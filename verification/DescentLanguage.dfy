/**
  Exactly which inputs the recursive parser accepts.  Signs and operands of an expression with
  operands left out form a row in which no two operands are neighbours; the parser walks along
  it, and fails only where an operand is due at the end of the input.
  */
module DescentLanguage {
  import opened Options
  import opened ParseTree
  import opened Grammar
  import opened Expressions
  import opened ExpressionTrees
  import opened ParserAgreement
  import opened RecursiveParser
  import opened Calculator

  /** A sign, or a number, parenthesis or call. */
  datatype Item = Sign(c: char) | Operand(a: Atom)

  predicate IsSign(c: char) {
    c == '+' || c == '-' || c == '*' || c == '/'
  }

  function FlatExpr(e: Expr): seq<Item> {
    match e
    case Single(p) => FlatProduct(p)
    case Sum(l, plus, r) => FlatExpr(l) + ([Sign(SumSign(plus))] + FlatProduct(r))
  }

  function FlatProduct(p: Product): seq<Item> {
    match p
    case Only(a) => FlatAtom(a)
    case Prod(l, times, r) => FlatProduct(l) + ([Sign(ProductSign(times))] + FlatAtom(r))
  }

  function FlatAtom(a: Atom): seq<Item> {
    match a
    case Neg(b) => [Sign('-')] + FlatAtom(b)
    case Missing => []
    case _ => [Operand(a)]
  }

  function Width(x: Item): nat {
    if x.Sign? then 1 else |ShowAtom(x.a)|
  }

  /** Where the parser stands after `nt`, if it takes one at `i`. */
  ghost function Behind(nt: Nonterminal, inp: string, i: nat): Option<nat> {
    if i > |inp| then None
    else
      var r := ParseOne(true, N(nt), inp, i);
      if r.Ok? then Some(r.next) else None
  }

  /** The parser takes `inp[i..m]` as an `nt`. */
  ghost predicate Takes(nt: Nonterminal, inp: string, i: nat, m: nat) {
    Behind(nt, inp, i) == Some(m)
  }

  /** Pairs of positions between which the parser takes a factor. */
  type Spots = iset<(nat, nat)>

  ghost predicate HasFactors(good: Spots, inp: string) {
    forall i: nat, m: nat {:trigger Takes(Factor, inp, i, m)} | Takes(Factor, inp, i, m) :: (i, m) in good
  }

  ghost predicate OnlyFactors(good: Spots, inp: string) {
    forall i: nat, m: nat | (i, m) in good :: Takes(Factor, inp, i, m)
  }

  lemma FactorSpots(inp: string) returns (good: Spots)
    ensures HasFactors(good, inp) && OnlyFactors(good, inp)
  {
    good := iset k: nat, m: nat | Takes(Factor, inp, k, m) :: (k, m);
  }

  /** Where the row ends if it stands in the input at `i` and each operand of it is taken as a
      factor. */
  ghost function End(xs: seq<Item>, good: Spots, inp: string, i: nat): (r: Option<nat>)
    ensures r.Some? ==> i <= r.value <= |inp|
    decreases |xs|
  {
    if i > |inp| then None
    else if xs == [] then Some(i)
    else if (if xs[0].Sign? then i < |inp| && inp[i] == xs[0].c && IsSign(xs[0].c)
             else (i, i + Width(xs[0])) in good && (|xs| > 1 ==> xs[1].Sign?))
    then End(xs[1..], good, inp, i + Width(xs[0]))
    else None
  }

  /** The row stands from `i` to `j`. */
  ghost predicate Stands(xs: seq<Item>, good: Spots, inp: string, i: nat, j: nat) {
    End(xs, good, inp, i) == Some(j)
  }

  /** What follows the row ends an expression, and at the end of the input an operand is last. */
  ghost predicate Ended(xs: seq<Item>, inp: string, j: nat) {
    && FollowsExpression(LookAhead(inp, j))
    && (LookAhead(inp, j) == NUL ==> xs != [] && xs[|xs| - 1].Operand?)
  }

  // ---- the parser walks along the row -----------------------------------------------------

  lemma {:induction false} FactorTakes(xs: seq<Item>, good: Spots, inp: string, i: nat, j: nat)
    returns (rest: seq<Item>, m: nat)
    requires Stands(xs, good, inp, i, j) && Ended(xs, inp, j) && OnlyFactors(good, inp)
    ensures Takes(Factor, inp, i, m) && Stands(rest, good, inp, m, j) && |rest| <= |xs|
    ensures rest != [] ==> rest[0].Sign? && Ended(rest, inp, j)
    decreases |xs|
  {
    if xs != [] && xs[0].Operand? {
      rest, m := xs[1..], i + Width(xs[0]);
    } else if xs != [] && xs[0].c == '-' {
      rest, m := FactorTakes(xs[1..], good, inp, i + 1, j);
      NegativeTaken(inp, i, m);
    } else {
      rest, m := xs, i;
      MissingTaken(inp, i);
    }
  }

  lemma NegativeTaken(inp: string, i: nat, m: nat)
    requires i < |inp| && inp[i] == '-' && Takes(Factor, inp, i + 1, m)
    ensures Takes(Factor, inp, i, m)
  {
    ByBody(Factor, [T('-'), N(Factor)], inp, i);
    ParsePair(true, T('-'), N(Factor), inp, i);
  }

  lemma MissingTaken(inp: string, i: nat)
    requires i <= |inp| && LookAhead(inp, i) in {'+', '*', '/', ')', ','}
    ensures Takes(Factor, inp, i, i)
  {
    ByBody(Factor, [], inp, i);
  }

  lemma {:induction false} GroupTakes(xs: seq<Item>, good: Spots, inp: string, i: nat, j: nat)
    returns (rest: seq<Item>, m: nat)
    requires Stands(xs, good, inp, i, j) && Ended(xs, inp, j) && OnlyFactors(good, inp)
    ensures Takes(Group, inp, i, m) && Stands(rest, good, inp, m, j) && |rest| <= |xs|
    ensures rest != [] ==> rest[0].Sign? && rest[0].c in {'+', '-'} && Ended(rest, inp, j)
    decreases |xs|
  {
    var tail, f := FactorTakes(xs, good, inp, i, j);
    if tail != [] && tail[0].c in {'*', '/'} {
      rest, m := GroupTakes(tail[1..], good, inp, f + 1, j);
      SignTaken(Gtail, Group, inp, f, m);
    } else {
      rest, m := tail, f;
      NothingTaken(Gtail, inp, f);
    }
    PairTaken(Group, Factor, Gtail, inp, i, f, m);
  }

  lemma {:induction false} ExprTakes(xs: seq<Item>, good: Spots, inp: string, i: nat, j: nat)
    requires Stands(xs, good, inp, i, j) && Ended(xs, inp, j) && OnlyFactors(good, inp)
    ensures Takes(Expression, inp, i, j)
    decreases |xs|
  {
    var tail, g := GroupTakes(xs, good, inp, i, j);
    if tail != [] {
      ExprTakes(tail[1..], good, inp, g + 1, j);
      SignTaken(Etail, Expression, inp, g, j);
    } else {
      NothingTaken(Etail, inp, g);
    }
    PairTaken(Expression, Group, Etail, inp, i, g, j);
  }

  lemma SignTaken(nt: Nonterminal, inner: Nonterminal, inp: string, i: nat, m: nat)
    requires i < |inp| && Takes(inner, inp, i + 1, m)
    requires (nt == Gtail && inner == Group && inp[i] in {'*', '/'})
             || (nt == Etail && inner == Expression && inp[i] in {'+', '-'})
    ensures Takes(nt, inp, i, m)
  {
    ByBody(nt, [T(inp[i]), N(inner)], inp, i);
    ParsePair(true, T(inp[i]), N(inner), inp, i);
  }

  lemma NothingTaken(nt: Nonterminal, inp: string, i: nat)
    requires i <= |inp| && nt in {Gtail, Etail, Ptail}
    requires nt == Gtail ==> LookAhead(inp, i) !in {'*', '/'}
    requires nt == Etail ==> LookAhead(inp, i) !in {'+', '-'}
    requires nt == Ptail ==> LookAhead(inp, i) != ','
    ensures Takes(nt, inp, i, i)
  {
    ByBody(nt, [Empty], inp, i);
    ParseSingle(Empty, inp, i);
  }

  lemma PairTaken(nt: Nonterminal, a: Nonterminal, b: Nonterminal, inp: string, i: nat, k: nat, m: nat)
    requires Takes(a, inp, i, k) && Takes(b, inp, k, m)
    requires (nt == Group && a == Factor && b == Gtail) || (nt == Expression && a == Group && b == Etail)
             || (nt == Function && a == Str && b == Paramlist)
    ensures Takes(nt, inp, i, m)
  {
    ByBody(nt, [N(a), N(b)], inp, i);
    ParsePair(true, N(a), N(b), inp, i);
  }

  // ---- every expression's text is such a row ----------------------------------------------

  ghost predicate Spelled(text: string, inp: string, i: nat) {
    i + |text| <= |inp| && inp[i..i + |text|] == text
  }

  lemma {:induction false} StandsConcat(xs: seq<Item>, ys: seq<Item>, good: Spots, inp: string, i: nat, m: nat, j: nat)
    requires Stands(xs, good, inp, i, m) && Stands(ys, good, inp, m, j) && (ys != [] ==> ys[0].Sign?)
    ensures Stands(xs + ys, good, inp, i, j)
    decreases |xs|
  {
    if xs == [] {
      assert xs + ys == ys;
    } else {
      assert (xs + ys)[1..] == xs[1..] + ys;
      StandsConcat(xs[1..], ys, good, inp, i + Width(xs[0]), m, j);
    }
  }

  lemma StandsSigned(c: char, ys: seq<Item>, good: Spots, inp: string, i: nat, j: nat)
    requires i < |inp| && inp[i] == c && IsSign(c) && Stands(ys, good, inp, i + 1, j)
    ensures Stands([Sign(c)] + ys, good, inp, i, j)
  {
    assert ([Sign(c)] + ys)[1..] == ys;
  }

  /** A row of length `a`, a sign and a row of length `b`. */
  lemma Joined(xs: seq<Item>, c: char, ys: seq<Item>, good: Spots, inp: string, i: nat, a: nat, b: nat, n: nat)
    requires n == a + 1 + b && IsSign(c) && i + a < |inp| && inp[i + a] == c
    requires Stands(xs, good, inp, i, i + a) && Stands(ys, good, inp, i + a + 1, i + a + 1 + b)
    ensures Stands(xs + ([Sign(c)] + ys), good, inp, i, i + n)
  {
    StandsSigned(c, ys, good, inp, i + a, i + n);
    StandsConcat(xs, [Sign(c)] + ys, good, inp, i, i + a, i + n);
  }

  lemma StandsOperand(a: Atom, good: Spots, inp: string, i: nat)
    requires Takes(Factor, inp, i, i + |ShowAtom(a)|)
    requires HasFactors(good, inp)
    ensures Stands([Operand(a)], good, inp, i, i + |ShowAtom(a)|)
  {
    assert [Operand(a)][1..] == [];
  }

  lemma SpelledParts(a: string, c: char, b: string, inp: string, i: nat)
    requires Spelled(a + [c] + b, inp, i)
    ensures Spelled(a, inp, i) && i + |a| < |inp| && inp[i + |a|] == c && Spelled(b, inp, i + |a| + 1)
    ensures LookAhead(inp, i + |a|) == c && |a + [c] + b| == |a| + 1 + |b|
  {
    var text := a + [c] + b;
    assert text == a + ([c] + b);
    TextSplit(inp, i, a, [c] + b);
    TextSplit(inp, i + |a|, [c], b);
    assert inp[i + |a|..i + |a| + 1][0] == c;
  }

  lemma SpelledStep(text: string, a: string, c: char, b: string, inp: string, i: nat)
    requires text == a + [c] + b && Spelled(text, inp, i) && IsSign(c)
    ensures Spelled(a, inp, i) && i + |a| < |inp| && inp[i + |a|] == c && FollowsFactor(LookAhead(inp, i + |a|))
    ensures Spelled(b, inp, i + |a| + 1) && |text| == |a| + 1 + |b|
  {
    SpelledParts(a, c, b, inp, i);
  }

  lemma {:induction false} ExprStands(e: Expr, good: Spots, inp: string, i: nat)
    requires Spelled(ShowExpr(e), inp, i) && FollowsFactor(LookAhead(inp, i + |ShowExpr(e)|))
    requires HasFactors(good, inp)
    ensures Stands(FlatExpr(e), good, inp, i, i + |ShowExpr(e)|)
    decreases e, 0
  {
    match e
    case Single(p) => ProductStands(p, good, inp, i);
    case Sum(l, plus, r) =>
      SpelledStep(ShowExpr(e), ShowExpr(l), SumSign(plus), ShowProduct(r), inp, i);
      ExprStands(l, good, inp, i);
      ProductStands(r, good, inp, i + |ShowExpr(l)| + 1);
      Joined(FlatExpr(l), SumSign(plus), FlatProduct(r), good, inp, i,
             |ShowExpr(l)|, |ShowProduct(r)|, |ShowExpr(e)|);
  }

  lemma {:induction false} ProductStands(p: Product, good: Spots, inp: string, i: nat)
    requires Spelled(ShowProduct(p), inp, i) && FollowsFactor(LookAhead(inp, i + |ShowProduct(p)|))
    requires HasFactors(good, inp)
    ensures Stands(FlatProduct(p), good, inp, i, i + |ShowProduct(p)|)
    decreases p, 0
  {
    match p
    case Only(a) => AtomStands(a, good, inp, i);
    case Prod(l, times, r) =>
      SpelledStep(ShowProduct(p), ShowProduct(l), ProductSign(times), ShowAtom(r), inp, i);
      ProductStands(l, good, inp, i);
      AtomStands(r, good, inp, i + |ShowProduct(l)| + 1);
      Joined(FlatProduct(l), ProductSign(times), FlatAtom(r), good, inp, i,
             |ShowProduct(l)|, |ShowAtom(r)|, |ShowProduct(p)|);
  }

  lemma {:induction false} AtomStands(a: Atom, good: Spots, inp: string, i: nat)
    requires Spelled(ShowAtom(a), inp, i) && FollowsFactor(LookAhead(inp, i + |ShowAtom(a)|))
    requires HasFactors(good, inp)
    ensures Stands(FlatAtom(a), good, inp, i, i + |ShowAtom(a)|)
    decreases a, 1
  {
    match a
    case Num(_) =>
      NumberTaken(a, inp, i);
      StandsOperand(a, good, inp, i);
    case Neg(b) =>
      assert ShowAtom(a) == "" + ['-'] + ShowAtom(b);
      SpelledParts("", '-', ShowAtom(b), inp, i);
      AtomStands(b, good, inp, i + 1);
      StandsSigned('-', FlatAtom(b), good, inp, i, i + |ShowAtom(a)|);
    case Paren(e) =>
      ParenTaken(e, inp, i);
      StandsOperand(a, good, inp, i);
    case Call(name, args) =>
      CallTaken(name, args, inp, i);
      StandsOperand(a, good, inp, i);
    case Missing =>
  }

  lemma NumberTaken(a: Atom, inp: string, i: nat)
    requires a.Num? && Spelled(ShowAtom(a), inp, i) && FollowsFactor(LookAhead(inp, i + |ShowAtom(a)|))
    ensures Takes(Factor, inp, i, i + |ShowAtom(a)|)
  {
    AtomConforms(a);
    AtomText(a);
    TreeTaken(AtomTree(a), Factor, inp, i);
  }

  /** What the table parser takes the recursive parser takes. */
  lemma TreeTaken(t: Tree, nt: Nonterminal, inp: string, i: nat)
    requires ConformsTo(false, t, N(nt)) && Spelled(Text(t), inp, i)
    requires Follow(N(nt), LookAhead(inp, i + |Text(t)|))
    ensures Takes(nt, inp, i, i + |Text(t)|)
  {
    ParseOneComplete(t, N(nt), inp, i);
    LenientExtendsOne(N(nt), inp, i);
  }

  lemma NameTaken(name: Name, inp: string, i: nat)
    requires Spelled(name, inp, i) && LookAhead(inp, i + |name|) == '('
    ensures Takes(Str, inp, i, i + |name|)
  {
    NameConforms(name);
    NameText(name);
    TreeTaken(NameTree(name), Str, inp, i);
  }

  lemma {:induction false} ParenTaken(e: Expr, inp: string, i: nat)
    requires Spelled(ShowAtom(Paren(e)), inp, i)
    ensures Takes(Factor, inp, i, i + |ShowAtom(Paren(e))|)
    decreases e, 2
  {
    var inner := ShowExpr(e);
    assert ShowAtom(Paren(e)) == "" + "(" + inner + ")";
    BracketParts("", inner, inp, i);
    ExprTaken(e, inp, i + 1);
    ParensTaken(inp, i, i + 1 + |inner|);
  }

  lemma ParensTaken(inp: string, i: nat, m: nat)
    requires i < |inp| && inp[i] == '(' && Takes(Expression, inp, i + 1, m) && LookAhead(inp, m) == ')'
    ensures Takes(Factor, inp, i, m + 1)
  {
    ByBody(Factor, [T('('), N(Expression), T(')')], inp, i);
    assert [T('('), N(Expression), T(')')] == [T('(')] + [N(Expression), T(')')];
    ParseCons(true, T('('), [N(Expression), T(')')], inp, i);
    ParsePair(true, N(Expression), T(')'), inp, i + 1);
  }

  lemma {:induction false} CallTaken(name: Name, args: Args, inp: string, i: nat)
    requires Spelled(ShowAtom(Call(name, args)), inp, i)
    ensures Takes(Factor, inp, i, i + |ShowAtom(Call(name, args))|)
    decreases args, 2
  {
    var text, p := ShowArgs(args), i + |name|;
    BracketParts(name, text, inp, i);
    NameTaken(name, inp, i);
    FirstArgTaken(args, inp, p + 1);
    OtherArgsTaken(args, inp, p + 1);
    ParamsTaken(inp, p, p + 1 + |ShowExpr(args.e)|, p + 1 + |text|);
    FirstLetter(name, inp, i);
    CallParts(inp, i, p, p + 1 + |text| + 1);
  }

  lemma BracketParts(name: string, text: string, inp: string, i: nat)
    requires Spelled(name + "(" + text + ")", inp, i)
    ensures var p := i + |name|;
            && Spelled(name, inp, i) && p < |inp| && inp[p] == '(' && LookAhead(inp, p) == '('
            && Spelled(text, inp, p + 1) && LookAhead(inp, p + 1 + |text|) == ')'
            && |name + "(" + text + ")"| == |name| + |text| + 2
  {
    assert name + "(" + text + ")" == name + ['('] + (text + [')']);
    SpelledParts(name, '(', text + [')'], inp, i);
    assert text + [')'] == text + [')'] + "";
    SpelledParts(text, ')', "", inp, i + |name| + 1);
  }

  lemma ParamsTaken(inp: string, p: nat, k: nat, m: nat)
    requires p < |inp| && inp[p] == '(' && Takes(Expression, inp, p + 1, k) && Takes(Ptail, inp, k, m)
    requires LookAhead(inp, m) == ')'
    ensures Takes(Paramlist, inp, p, m + 1)
  {
    ByParamlist(inp, p);
  }

  lemma CallParts(inp: string, i: nat, p: nat, m: nat)
    requires i < |inp| && IsLetter(inp[i]) && Takes(Str, inp, i, p) && Takes(Paramlist, inp, p, m)
    ensures Takes(Factor, inp, i, m)
  {
    PairTaken(Function, Str, Paramlist, inp, i, p, m);
    ByBody(Factor, [N(Function)], inp, i);
    ParseSingle(N(Function), inp, i);
  }

  lemma FirstLetter(name: Name, inp: string, i: nat)
    requires Spelled(name, inp, i)
    ensures i < |inp| && IsLetter(inp[i])
  {
    assert inp[i] == inp[i..i + |name|][0];
  }

  /** The first argument's text and what stands behind it. */
  lemma ArgsSpelled(args: Args, inp: string, i: nat)
    requires Spelled(ShowArgs(args), inp, i) && LookAhead(inp, i + |ShowArgs(args)|) == ')'
    ensures var m := i + |ShowExpr(args.e)|;
            && Spelled(ShowExpr(args.e), inp, i)
            && (args.Last? ==> m == i + |ShowArgs(args)| && LookAhead(inp, m) == ')')
            && (args.More? ==>
                  && LookAhead(inp, m) == ',' && Spelled(ShowArgs(args.rest), inp, m + 1)
                  && m + 1 + |ShowArgs(args.rest)| == i + |ShowArgs(args)|)
  {
    if args.More? {
      SpelledArgs(ShowArgs(args), ShowExpr(args.e), ShowArgs(args.rest), inp, i);
    }
  }

  lemma {:induction false} FirstArgTaken(args: Args, inp: string, i: nat)
    requires Spelled(ShowArgs(args), inp, i) && LookAhead(inp, i + |ShowArgs(args)|) == ')'
    ensures Takes(Expression, inp, i, i + |ShowExpr(args.e)|)
    decreases args, 0
  {
    ArgsSpelled(args, inp, i);
    ExprTaken(args.e, inp, i);
  }

  lemma {:induction false} OtherArgsTaken(args: Args, inp: string, i: nat)
    requires Spelled(ShowArgs(args), inp, i) && LookAhead(inp, i + |ShowArgs(args)|) == ')'
    ensures Takes(Ptail, inp, i + |ShowExpr(args.e)|, i + |ShowArgs(args)|)
    decreases args, 1
  {
    var m := i + |ShowExpr(args.e)|;
    ArgsSpelled(args, inp, i);
    if args.Last? {
      NothingTaken(Ptail, inp, m);
    } else {
      FirstArgTaken(args.rest, inp, m + 1);
      OtherArgsTaken(args.rest, inp, m + 1);
      MoreTaken(inp, m, m + 1 + |ShowExpr(args.rest.e)|, i + |ShowArgs(args)|);
    }
  }

  lemma SpelledArgs(text: string, a: string, b: string, inp: string, i: nat)
    requires text == a + [','] + b && Spelled(text, inp, i)
    ensures Spelled(a, inp, i) && i + |a| < |inp| && inp[i + |a|] == ',' && LookAhead(inp, i + |a|) == ','
    ensures Spelled(b, inp, i + |a| + 1) && i + |text| == i + |a| + 1 + |b|
  {
    SpelledParts(a, ',', b, inp, i);
  }

  lemma MoreTaken(inp: string, i: nat, k: nat, m: nat)
    requires i < |inp| && inp[i] == ',' && Takes(Expression, inp, i + 1, k) && Takes(Ptail, inp, k, m)
    ensures Takes(Ptail, inp, i, m)
  {
    ByBody(Ptail, [T(','), N(Expression), N(Ptail)], inp, i);
    assert [T(','), N(Expression), N(Ptail)] == [T(',')] + [N(Expression), N(Ptail)];
    ParseCons(true, T(','), [N(Expression), N(Ptail)], inp, i);
    ParsePair(true, N(Expression), N(Ptail), inp, i + 1);
  }

  /** An expression is taken whole, unless the input ends where an operand is due. */
  lemma {:induction false} ExprTaken(e: Expr, inp: string, i: nat)
    requires Spelled(ShowExpr(e), inp, i) && FollowsExpression(LookAhead(inp, i + |ShowExpr(e)|))
    requires LookAhead(inp, i + |ShowExpr(e)|) == NUL ==> ShowExpr(e) != "" && !IsSign(inp[i + |ShowExpr(e)| - 1])
    ensures Takes(Expression, inp, i, i + |ShowExpr(e)|)
    decreases e, 1
  {
    var good := FactorSpots(inp);
    ExprStands(e, good, inp, i);
    RowEnded(FlatExpr(e), good, inp, i, i + |ShowExpr(e)|);
    ExprTakes(FlatExpr(e), good, inp, i, i + |ShowExpr(e)|);
  }

  lemma RowEnded(xs: seq<Item>, good: Spots, inp: string, i: nat, j: nat)
    requires Stands(xs, good, inp, i, j) && FollowsExpression(LookAhead(inp, j))
    requires LookAhead(inp, j) == NUL ==> i < j && !IsSign(inp[j - 1])
    ensures Ended(xs, inp, j)
  {
    if LookAhead(inp, j) == NUL {
      LastIsOperand(xs, good, inp, i, j);
    }
  }

  lemma {:induction false} LastIsOperand(xs: seq<Item>, good: Spots, inp: string, i: nat, j: nat)
    requires Stands(xs, good, inp, i, j) && i < j && !IsSign(inp[j - 1])
    ensures xs != [] && xs[|xs| - 1].Operand?
    decreases |xs|
  {
    NotEmptyRow(xs, good, inp, i, j);
    if |xs| > 1 {
      if xs[0].Operand? {
        SignFits(xs[1..], good, inp, i + Width(xs[0]), j);
      }
      LastIsOperand(xs[1..], good, inp, i + Width(xs[0]), j);
    } else {
      assert xs == [xs[0]];
      OneItem(xs[0], good, inp, i, j);
    }
  }

  lemma NotEmptyRow(xs: seq<Item>, good: Spots, inp: string, i: nat, j: nat)
    requires Stands(xs, good, inp, i, j) && i < j
    ensures xs != []
  {}

  lemma OneItem(x: Item, good: Spots, inp: string, i: nat, j: nat)
    requires Stands([x], good, inp, i, j)
    ensures j == i + Width(x) && (x.Sign? ==> i < |inp| && IsSign(inp[i]))
  {
    var xs := [x];
    assert xs[0] == x && xs[1..] == [];
    assert i + Width(x) <= |inp| ==> End(xs[1..], good, inp, i + Width(x)) == Some(i + Width(x));
  }

  lemma SignFits(xs: seq<Item>, good: Spots, inp: string, i: nat, j: nat)
    requires Stands(xs, good, inp, i, j) && xs != [] && xs[0].Sign?
    ensures i < j
  {
    assert Stands(xs[1..], good, inp, i + 1, j);
  }

  // ---- the end of an accepted input --------------------------------------------------------

  /** What is read up to the end of the input does not end with a character after which an
      operand is due. */
  lemma {:induction false} EndsClosed(syms: seq<Cat>, inp: string, i: nat)
    requires i <= |inp| && CString(inp) && Laid(syms) && Parse(true, syms, inp, i).Accept?
    requires Parse(true, syms, inp, i).next == |inp| && i < |inp|
    ensures !Opens(inp[|inp| - 1])
    decreases |inp| - i, Pending(syms), 1
  {
    assert syms != [];
    var m := ParseOne(true, syms[0], inp, i).next;
    LaidTail(syms);
    if m < |inp| {
      EndsClosed(syms[1..], inp, m);
    } else if syms[0].N? {
      EndsClosedOne(syms[0].nt, inp, i);
    } else if syms[0].Term? && Opens(syms[0].c) {
      NothingAtEnd(syms[1..][0].nt, inp, m);
    }
  }

  lemma {:induction false} EndsClosedOne(nt: Nonterminal, inp: string, i: nat)
    requires i < |inp| && CString(inp) && Takes(nt, inp, i, |inp|)
    ensures !Opens(inp[|inp| - 1])
    decreases |inp| - i, Weight(N(nt)), 0
  {
    var c := LookAhead(inp, i);
    PendingBody(true, nt, c);
    ChooseIsProduction(true, nt, c);
    var k :| 0 <= k < |Productions(true, nt)| && Productions(true, nt)[k] == Choose(true, nt, c).value;
    BodyLaid(true, nt, k);
    EndsClosed(Choose(true, nt, c).value, inp, i);
  }

  /** The recursive parser accepts an input if and only if it is not empty, does not end with a
      sign, a comma or an opening parenthesis, and is the text of an expression in which any
      operands may be left out. */
  lemma DescentAccepts(inp: string)
    requires CString(inp)
    ensures Accepts(true, inp) <==>
            inp != "" && !Opens(inp[|inp| - 1]) && exists e :: ShowExpr(e) == inp
  {
    ParseStart(true, inp);
    if Accepts(true, inp) {
      var e := ParsedExpr(inp);
      if inp == "" {
        NothingAtEnd(Expression, inp, 0);
      }
      EndsClosedOne(Expression, inp, 0);
    }
    if inp != "" && !Opens(inp[|inp| - 1]) && exists e :: ShowExpr(e) == inp {
      var e :| ShowExpr(e) == inp;
      assert inp[0..|inp|] == inp;
      ExprTaken(e, inp, 0);
    }
  }
}
