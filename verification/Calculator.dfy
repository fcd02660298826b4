/** The calculator: what is typed, parsed either way and evaluated, is the value it means. */
module Calculator {
  import opened Options
  import opened ParseTree
  import opened Grammar
  import opened Expressions
  import opened ExpressionTrees
  import opened Evaluator
  import opened ParserAgreement
  import opened TableParser
  import opened RecursiveParser

  /** The linked form of pruned trees, with either parser's marks. */
  function Linkup(f: Forest, all: bool): Linked {
    Link(Prune(f, all))
  }

  lemma LinkCons(t: Tree, rest: Forest, all: bool)
    ensures Linkup(Cons(t, rest), all) ==
            if StandsForEmpty(t) then Linkup(rest, all)
            else PNode(Remark(t.cat, all), Linkup(t.kids, all), Linkup(rest, all))
  {}

  lemma LinkNil(all: bool)
    ensures Linkup(Nil, all) == Null
  {}

  lemma LinkRead(c: char, rest: Forest, all: bool)
    ensures var n := Linkup(Cons(Read(c), rest), all);
            n.PNode? && SecondChar(n.cat) == c && n.sibling == Linkup(rest, all)
  {
    LinkCons(Read(c), rest, all);
  }

  lemma LinkNothing(nt: Nonterminal, rest: Forest, all: bool)
    ensures Linkup(Cons(Nothing(nt), rest), all) == Linkup(rest, all)
  {
    LinkCons(Nothing(nt), rest, all);
  }

  /** The operator and the operand that one step of a sum or product sees. */
  lemma LinkStep(nt: Nonterminal, op: char, inner: Nonterminal, t: Tree, tail: Forest, all: bool)
    requires !StandsForEmpty(t) && t.cat.N?
    ensures var ptr := Linkup(Kids1(Node(N(nt), Kids2(Read(op), Node(N(inner), Cons(t, tail))))), all);
            && HasOperand(ptr) && SecondChar(ptr.child.cat) == op
            && ptr.child.sibling.child == PNode(t.cat, Linkup(t.kids, all), Linkup(tail, all))
  {
    var expr := Node(N(inner), Cons(t, tail));
    var kids := Kids2(Read(op), expr);
    LinkCons(Node(N(nt), kids), Nil, all);
    LinkRead(op, Kids1(expr), all);
    LinkCons(expr, Nil, all);
    LinkCons(t, tail, all);
  }

  lemma KidsSolid(e: Expr, tail: Tree)
    ensures ExprKids(e, tail).Cons? && ExprKids(e, tail).head.cat == N(Group)
    decreases e
  {
    if e.Sum? {
      var rest := Node(N(Expression), Kids2(ProductTree(e.right), tail));
      KidsSolid(e.left, Node(N(Etail), Kids2(Read(SumSign(e.plus)), rest)));
    }
  }

  lemma FactorsSolid(p: Product, tail: Tree)
    ensures ProductKids(p, tail).Cons? && ProductKids(p, tail).head.cat == N(Factor)
    decreases p
  {
    if p.Prod? {
      var rest := Node(N(Group), Kids2(AtomTree(p.right), tail));
      FactorsSolid(p.left, Node(N(Gtail), Kids2(Read(ProductSign(p.times)), rest)));
    }
  }

  ghost function SumOn(math: Math, v: Val, ptr: Linked): Val {
    if v.Real? then SumLoop(math, v.v, ptr) else v
  }

  ghost function ProductOn(math: Math, v: Val, ptr: Linked): Val {
    if v.Real? then ProductLoop(math, v.v, ptr) else v
  }

  /** Reading the right-recursive tree from the left gives the left-associative value. */
  lemma {:induction false} SumValue(math: Math, e: Expr, tail: Tree, all: bool)
    ensures var kids := Linkup(ExprKids(e, tail), all);
            && kids.PNode?
            && SumOn(math, ValueOf(math, kids), kids.sibling)
               == SumOn(math, ValueExpr(math, e), Linkup(Kids1(tail), all))
    decreases e, 0
  {
    match e
    case Single(p) =>
      FactorsSolid(p, Nothing(Gtail));
      LinkCons(ProductTree(p), Kids1(tail), all);
      GroupValue(math, p, Linkup(Kids1(tail), all), all);
    case Sum(l, plus, r) =>
      var op := SumSign(plus);
      FactorsSolid(r, Nothing(Gtail));
      var step := Node(N(Etail), Kids2(Read(op), Node(N(Expression), Kids2(ProductTree(r), tail))));
      SumValue(math, l, step, all);
      LinkStep(Etail, op, Expression, ProductTree(r), Kids1(tail), all);
      GroupValue(math, r, Linkup(Kids1(tail), all), all);
  }

  lemma {:induction false} ExpressionValue(math: Math, e: Expr, sibling: Linked, all: bool)
    ensures ValueOf(math, PNode(N(Expression), Linkup(ExprTree(e).kids, all), sibling)) == ValueExpr(math, e)
    decreases e, 1
  {
    SumValue(math, e, Nothing(Etail), all);
    LinkNothing(Etail, Nil, all);
    LinkNil(all);
  }

  lemma ProductStep(math: Math, v: Val, ptr: Linked, op: char)
    requires HasOperand(ptr) && SecondChar(ptr.child.cat) == op && (op == '*' || op == '/')
    ensures var operand := ptr.child.sibling.child;
            ProductOn(math, v, ptr) == ProductOn(math, Combine(op, v, ValueOf(math, operand)), operand.sibling)
  {
    var x := ValueOf(math, ptr.child.sibling.child);
    if v.Real? && x.Real? && !(op == '/' && x.v == 0.0) {
      assert Combine(op, v, x) == Real(Scaled(op, v.v, x.v));
    }
  }

  lemma {:induction false} ProductValue(math: Math, p: Product, tail: Tree, all: bool)
    ensures var kids := Linkup(ProductKids(p, tail), all);
            && kids.PNode?
            && ProductOn(math, ValueOf(math, kids), kids.sibling)
               == ProductOn(math, ValueProduct(math, p), Linkup(Kids1(tail), all))
    decreases p, 0
  {
    match p
    case Only(a) =>
      AtomSolid(a);
      LinkCons(AtomTree(a), Kids1(tail), all);
      FactorValue(math, a, Linkup(Kids1(tail), all), all);
    case Prod(l, times, r) =>
      var op := ProductSign(times);
      AtomSolid(r);
      var step := Node(N(Gtail), Kids2(Read(op), Node(N(Group), Kids2(AtomTree(r), tail))));
      ProductValue(math, l, step, all);
      LinkStep(Gtail, op, Group, AtomTree(r), Kids1(tail), all);
      FactorValue(math, r, Linkup(Kids1(tail), all), all);
      ProductStep(math, ValueProduct(math, l), Linkup(Kids1(step), all), op);
  }

  lemma {:induction false} GroupValue(math: Math, p: Product, sibling: Linked, all: bool)
    ensures ValueOf(math, PNode(N(Group), Linkup(ProductTree(p).kids, all), sibling)) == ValueProduct(math, p)
    decreases p, 1
  {
    ProductValue(math, p, Nothing(Gtail), all);
    LinkNothing(Gtail, Nil, all);
    LinkNil(all);
  }

  lemma AtomSolid(a: Atom)
    ensures !StandsForEmpty(AtomTree(a))
  {}

  lemma {:induction false} FactorValue(math: Math, a: Atom, sibling: Linked, all: bool)
    ensures ValueOf(math, PNode(N(Factor), Linkup(AtomTree(a).kids, all), sibling)) == ValueAtom(math, a)
    decreases a
  {
    match a
    case Num(ds) =>
      LinkCons(NumberTree(ds), Nil, all);
      NumberValue(math, ds, Linkup(Nil, all), all);
    case Neg(b) =>
      LinkRead('-', Kids1(AtomTree(b)), all);
      AtomSolid(b);
      LinkCons(AtomTree(b), Nil, all);
      FactorValue(math, b, Linkup(Nil, all), all);
    case Paren(e) =>
      LinkRead('(', Kids2(ExprTree(e), Read(')')), all);
      KidsSolid(e, Nothing(Etail));
      LinkCons(ExprTree(e), Kids1(Read(')')), all);
      ExpressionValue(math, e, Linkup(Kids1(Read(')')), all), all);
    case Call(name, args) =>
      var call := Node(N(Function), Kids2(NameTree(name), ArgsTree(args)));
      LinkCons(call, Nil, all);
      CallValue(math, name, args, Linkup(Nil, all), all);
    case Missing => LinkNil(all);
  }

  lemma {:induction false} CallValue(math: Math, name: Name, args: Args, sibling: Linked, all: bool)
    ensures ValueOf(math, PNode(N(Function), Linkup(Kids2(NameTree(name), ArgsTree(args)), all), sibling))
            == ValueAtom(math, Call(name, args))
    decreases args, 1
  {
    LinkCons(NameTree(name), Kids1(ArgsTree(args)), all);
    LettersValue(name, Linkup(Kids1(ArgsTree(args)), all), all);
    LinkCons(ArgsTree(args), Nil, all);
    var rest := Kids2(MoreArgs(args), Read(')'));
    LinkRead('(', Cons(ExprTree(args.e), rest), all);
    ArgsValue(math, args, Kids1(Read(')')), all);
    LinkCons(Read(')'), Nil, all);
  }

  /** The parameters of a call, up to the closing parenthesis or the end of the list. */
  lemma {:induction false} ArgsValue(math: Math, args: Args, ending: Forest, all: bool)
    requires ending.Nil? || ending == Kids1(Read(')'))
    ensures var xs := ParamValues(math, Linkup(Cons(ExprTree(args.e), Cons(MoreArgs(args), ending)), all));
            if ValueArgs(math, args).Some? then xs == Values(ValueArgs(math, args).value) else xs == NoValues
    decreases args, 0
  {
    KidsSolid(args.e, Nothing(Etail));
    LinkCons(ExprTree(args.e), Cons(MoreArgs(args), ending), all);
    ExpressionValue(math, args.e, Linkup(Cons(MoreArgs(args), ending), all), all);
    match args
    case Last(_) =>
      LinkNothing(Ptail, ending, all);
      LinkNil(all);
      LinkRead(')', Nil, all);
      LinkCons(Read(')'), Nil, all);
    case More(_, rest) =>
      LinkCons(MoreArgs(args), ending, all);
      LinkRead(',', Kids2(ExprTree(rest.e), MoreArgs(rest)), all);
      ArgsValue(math, rest, Nil, all);
  }

  lemma {:induction false} LettersValue(s: Name, sibling: Linked, all: bool)
    ensures var r := LettersOf(PNode(N(Str), Linkup(NameTree(s).kids, all), sibling)); r.Some? && r.value == s
    decreases |s|
  {
    var letter := Node(N(Char), Kids1(Read(s[0])));
    LinkCons(letter, Kids1(LettersTree(s[1..])), all);
    LinkRead(s[0], Nil, all);
    if |s| == 1 {
      LinkNothing(Stail, Nil, all);
      LinkNil(all);
    } else {
      LinkCons(LettersTree(s[1..]), Nil, all);
      LinkCons(NameTree(s[1..]), Nil, all);
      LettersValue(s[1..], Linkup(Nil, all), all);
    }
  }

  lemma {:induction false} NumberValue(math: Math, s: Digits, sibling: Linked, all: bool)
    ensures ValueOf(math, PNode(N(Number), Linkup(NumberTree(s).kids, all), sibling)) == Real(Decimal(s))
  {
    var n := Linkup(NumberTree(s).kids, all);
    DigitNode(math, s, all);
    DigitsValue(math, DigitValue(s[0]), s[1..], all);
    assert |s| - 1 == |s[1..]|;
  }

  lemma DigitNode(math: Math, s: Digits, all: bool)
    ensures var n := Linkup(NumberTree(s).kids, all);
            && n.PNode? && ValueOf(math, n) == Real(DigitValue(s[0]))
            && n.sibling == Linkup(Kids1(DigitsTree(s[1..])), all)
  {
    var digit := Node(N(Digit), Kids1(Read(s[0])));
    LinkCons(digit, Kids1(DigitsTree(s[1..])), all);
    LinkRead(s[0], Nil, all);
  }

  /** Multiplying by ten on the way gives every digit the weight of its place. */
  lemma {:induction false} DigitsValue(math: Math, v: real, s: string, all: bool)
    requires forall i | 0 <= i < |s| :: IsDigit(s[i])
    ensures DigitLoop(math, v, Linkup(Kids1(DigitsTree(s)), all)) == Real(Shift(v, |s|) + Decimal(s))
    decreases |s|
  {
    if s == "" {
      LinkNothing(Ntail, Nil, all);
      LinkNil(all);
    } else {
      DigitsNode(math, v, s, all);
      DigitsValue(math, 10.0 * v + DigitValue(s[0]), s[1..], all);
      ShiftSum(10.0 * v, DigitValue(s[0]), |s| - 1);
    }
  }

  lemma {:induction false} ShiftSum(a: real, b: real, n: nat)
    ensures Shift(a + b, n) == Shift(a, n) + Shift(b, n)
    decreases n
  {
    if n > 0 {
      ShiftSum(10.0 * a, 10.0 * b, n - 1);
      assert 10.0 * (a + b) == 10.0 * a + 10.0 * b;
    }
  }

  lemma DigitsNode(math: Math, v: real, s: Digits, all: bool)
    ensures DigitLoop(math, v, Linkup(Kids1(DigitsTree(s)), all))
            == DigitLoop(math, 10.0 * v + DigitValue(s[0]), Linkup(Kids1(DigitsTree(s[1..])), all))
  {
    LinkCons(DigitsTree(s), Nil, all);
    LinkCons(NumberTree(s), Nil, all);
    DigitNode(math, s, all);
  }

  // ---- both modes of the program ----------------------------------------------------------

  /** `r` is the value of the one expression whose text is the input, and there is no value
      if no expression has that text. */
  ghost predicate Means(math: Math, input: string, r: Val) {
    && (forall e | CompleteExpr(e) && ShowExpr(e) == input :: r == ValueExpr(math, e))
    && ((forall e | CompleteExpr(e) :: ShowExpr(e) != input) ==> r == Undefined)
    && !r.Crash?
  }

  method CalculateByTable(math: Math, input: string) returns (r: Val)
    requires CString(input)
    ensures Means(math, input, r)
  {
    var tree := RunTableParser(input);
    if tree.None? {
      r := Undefined;
      NoExpression(input);
    } else {
      r := Evaluate(math, tree.value);
      SameTree(input);
      LenientExtends([N(Expression)], input, 0);
      TreeMeans(math, input, true);
    }
  }

  method CalculateByDescent(math: Math, input: string) returns (r: Val)
    requires CString(input)
    ensures Means(math, input, r)
  {
    var tree := RunRecursiveParser(input);
    if tree.None? {
      r := Undefined;
      TableIffFull(input);
      NoExpression(input);
    } else {
      r := Evaluate(math, tree.value);
      TreeMeans(math, input, false);
    }
  }

  /** The text of an expression is accepted, with that expression's tree. */
  lemma ShownIsParsed(e: Expr, input: string)
    requires CompleteExpr(e) && ShowExpr(e) == input && CString(input)
    ensures Parse(false, [N(Expression)], input, 0) == Accept(Kids1(ExprTree(e)), |input|)
  {
    ExprTreeConforms(e);
    ExprTreeText(e);
    assert Derives(ExprTree(e), input);
    AcceptsIffDerives(input);
  }

  lemma NoExpression(input: string)
    requires CString(input) && !Accepts(false, input)
    ensures forall e | CompleteExpr(e) :: ShowExpr(e) != input
  {
    forall e | CompleteExpr(e) ensures ShowExpr(e) != input {
      if ShowExpr(e) == input {
        ShownIsParsed(e, input);
      }
    }
  }

  /** The expression a parse stands for. */
  lemma ParsedExpr(input: string) returns (e: Expr)
    requires Accepts(true, input)
    ensures Parse(true, [N(Expression)], input, 0).forest == Kids1(ExprTree(e)) && ShowExpr(e) == input
  {
    ParseSound(true, [N(Expression)], input, 0);
    var f := Parse(true, [N(Expression)], input, 0).forest;
    Unpack1(true, f, N(Expression));
    e := ReadExpr(f.head);
    ExprTreeText(e);
    Texts1(f.head);
    assert input[0..|input|] == input;
  }

  lemma TreeValue(math: Math, e: Expr, all: bool)
    ensures ValueOf(math, Linkup(Kids1(ExprTree(e)), all)) == ValueExpr(math, e)
  {
    KidsSolid(e, Nothing(Etail));
    LinkCons(ExprTree(e), Nil, all);
    ExpressionValue(math, e, Linkup(Nil, all), all);
  }

  /** With either parser's marks, the value of the recursive parser's tree is what the input
      means: a tree with a missing operand has none. */
  lemma TreeMeans(math: Math, input: string, all: bool)
    requires CString(input) && Accepts(true, input)
    ensures Means(math, input, ValueOf(math, Linkup(Parse(true, [N(Expression)], input, 0).forest, all)))
  {
    var e := ParsedExpr(input);
    TreeValue(math, e, all);
    forall e' | CompleteExpr(e') && ShowExpr(e') == input ensures ValueExpr(math, e) == ValueExpr(math, e') {
      ShownIsParsed(e', input);
      LenientExtends([N(Expression)], input, 0);
      TreeValue(math, e', all);
    }
    if !CompleteExpr(e) {
      IncompleteUndefined(math, e);
    }
  }

  /** The two modes give one answer on every input. */
  lemma OneAnswer(math: Math, input: string, r: Val, r': Val)
    requires Means(math, input, r) && Means(math, input, r')
    ensures r == r'
  {
    if e :| CompleteExpr(e) && ShowExpr(e) == input {
      assert r == ValueExpr(math, e) == r';
    }
  }

  /** Inputs with a gap in front of their sign: only the recursive parser takes them. */
  lemma SignedInput(e: Expr, inp: string)
    requires CompleteExpr(e) && inp == ['+'] + ShowExpr(e)
    ensures Accepts(true, inp) && !Accepts(false, inp)
  {
    assert inp[0] == '+' && inp[1..] == ShowExpr(e);
    GapBeforeSign(inp);
    GapRefused(inp);
    ShownIsTaken(e, inp, 1);
    SignedSum(inp);
  }

  lemma GapBeforeSign(inp: string)
    requires |inp| > 0 && inp[0] == '+'
    ensures var r := ParseOne(true, N(Group), inp, 0); r.Ok? && r.next == 0
  {
    assert Choose(true, Factor, '+') == Some([]);
    ParsePair(true, N(Factor), N(Gtail), inp, 0);
    ParseCons(true, Empty, [], inp, 0);
    assert [Empty] + [] == [Empty];
  }

  lemma GapRefused(inp: string)
    requires |inp| > 0 && inp[0] == '+'
    ensures !Accepts(false, inp)
  {
    assert Choose(false, Factor, '+') == None;
    ParsePair(false, N(Factor), N(Gtail), inp, 0);
    ParsePair(false, N(Group), N(Etail), inp, 0);
    ParseStart(false, inp);
  }

  lemma SignedSum(inp: string)
    requires |inp| > 0 && inp[0] == '+'
    requires var r := ParseOne(true, N(Group), inp, 0); r.Ok? && r.next == 0
    requires var r := ParseOne(true, N(Expression), inp, 1); r.Ok? && r.next == |inp|
    ensures Accepts(true, inp)
  {
    ParsePair(true, T('+'), N(Expression), inp, 0);
    ParsePair(true, N(Group), N(Etail), inp, 0);
    ParseStart(true, inp);
  }

  lemma ShownIsTaken(e: Expr, inp: string, i: nat)
    requires CompleteExpr(e) && i <= |inp| && inp[i..] == ShowExpr(e)
    ensures var r := ParseOne(true, N(Expression), inp, i); r.Ok? && r.next == |inp|
  {
    ExprTreeConforms(e);
    ExprTreeText(e);
    assert inp[i..|inp|] == inp[i..];
    ParseOneComplete(ExprTree(e), N(Expression), inp, i);
    LenientExtendsOne(N(Expression), inp, i);
  }
}
