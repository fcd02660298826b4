/** The trees of the grammar are exactly the trees of expressions, and carry their text. */
module ExpressionTrees {
  import opened ParseTree
  import opened Grammar
  import opened Expressions

  // ---- putting a node together and taking it apart ---------------------------------------

  lemma Unpack1(lenient: bool, f: Forest, a: Cat)
    ensures Conforms(lenient, f, [a]) <==> f.Cons? && f.tail.Nil? && ConformsTo(lenient, f.head, a)
  {
    assert [a][1..] == [];
  }

  lemma Unpack2(lenient: bool, f: Forest, a: Cat, b: Cat)
    ensures Conforms(lenient, f, [a, b]) <==>
            && f.Cons? && ConformsTo(lenient, f.head, a)
            && f.tail.Cons? && f.tail.tail.Nil? && ConformsTo(lenient, f.tail.head, b)
  {
    assert [a, b][1..] == [b];
    if f.Cons? {
      Unpack1(lenient, f.tail, b);
    }
  }

  lemma Unpack3(lenient: bool, f: Forest, a: Cat, b: Cat, c: Cat)
    ensures Conforms(lenient, f, [a, b, c]) <==>
            f.Cons? && ConformsTo(lenient, f.head, a) && Conforms(lenient, f.tail, [b, c])
  {
    assert [a, b, c][1..] == [b, c];
  }

  lemma Unpack4(lenient: bool, f: Forest, a: Cat, b: Cat, c: Cat, d: Cat)
    ensures Conforms(lenient, f, [a, b, c, d]) <==>
            f.Cons? && ConformsTo(lenient, f.head, a) && Conforms(lenient, f.tail, [b, c, d])
  {
    assert [a, b, c, d][1..] == [b, c, d];
  }

  lemma ByRule(lenient: bool, nt: Nonterminal, k: nat, f: Forest)
    requires k < |Productions(lenient, nt)| && Conforms(lenient, f, Productions(lenient, nt)[k])
    ensures ConformsTo(lenient, Node(N(nt), f), N(nt))
  {}

  // ---- every expression has a tree of the grammar -----------------------------------------

  lemma {:induction false} ExprConforms(e: Expr, tail: Tree)
    requires CompleteExpr(e) && ConformsTo(false, tail, N(Etail))
    ensures Conforms(false, ExprKids(e, tail), [N(Group), N(Etail)])
    decreases e, 0
  {
    match e
    case Single(p) =>
      ProductTreeConforms(p);
      Unpack2(false, ExprKids(e, tail), N(Group), N(Etail));
    case Sum(l, plus, r) =>
      ProductTreeConforms(r);
      var kids := Kids2(ProductTree(r), tail);
      Unpack2(false, kids, N(Group), N(Etail));
      ByRule(false, Expression, 0, kids);
      var c := SumSign(plus);
      var more := Kids2(Read(c), Node(N(Expression), kids));
      Unpack2(false, more, T(c), N(Expression));
      ByRule(false, Etail, if plus then 0 else 2, more);
      ExprConforms(l, Node(N(Etail), more));
  }

  lemma EmptyConforms(nt: Nonterminal, k: nat)
    requires k < |Productions(false, nt)| && Productions(false, nt)[k] == [Empty]
    ensures ConformsTo(false, Nothing(nt), N(nt))
  {
    Unpack1(false, Kids1(Leaf(Empty)), Empty);
    ByRule(false, nt, k, Kids1(Leaf(Empty)));
  }

  lemma {:induction false} ExprTreeConforms(e: Expr)
    requires CompleteExpr(e)
    ensures ConformsTo(false, ExprTree(e), N(Expression))
    decreases e, 1
  {
    EmptyConforms(Etail, 1);
    ExprConforms(e, Nothing(Etail));
    ByRule(false, Expression, 0, ExprKids(e, Nothing(Etail)));
  }

  lemma {:induction false} ProductConforms(p: Product, tail: Tree)
    requires CompleteProduct(p) && ConformsTo(false, tail, N(Gtail))
    ensures Conforms(false, ProductKids(p, tail), [N(Factor), N(Gtail)])
    decreases p, 0
  {
    match p
    case Only(a) =>
      AtomConforms(a);
      Unpack2(false, ProductKids(p, tail), N(Factor), N(Gtail));
    case Prod(l, times, r) =>
      AtomConforms(r);
      var kids := Kids2(AtomTree(r), tail);
      Unpack2(false, kids, N(Factor), N(Gtail));
      ByRule(false, Group, 0, kids);
      var c := ProductSign(times);
      var more := Kids2(Read(c), Node(N(Group), kids));
      Unpack2(false, more, T(c), N(Group));
      ByRule(false, Gtail, if times then 0 else 2, more);
      ProductConforms(l, Node(N(Gtail), more));
  }

  lemma {:induction false} ProductTreeConforms(p: Product)
    requires CompleteProduct(p)
    ensures ConformsTo(false, ProductTree(p), N(Group))
    decreases p, 1
  {
    EmptyConforms(Gtail, 1);
    ProductConforms(p, Nothing(Gtail));
    ByRule(false, Group, 0, ProductKids(p, Nothing(Gtail)));
  }

  lemma {:induction false} AtomConforms(a: Atom)
    requires CompleteAtom(a)
    ensures ConformsTo(false, AtomTree(a), N(Factor))
    decreases a
  {
    var kids := AtomTree(a).kids;
    match a
    case Num(ds) =>
      NumberConforms(ds);
      Unpack1(false, kids, N(Number));
      ByRule(false, Factor, 0, kids);
    case Neg(b) =>
      AtomConforms(b);
      Unpack2(false, kids, T('-'), N(Factor));
      ByRule(false, Factor, 1, kids);
    case Paren(e) =>
      ExprTreeConforms(e);
      Unpack3(false, kids, T('('), N(Expression), T(')'));
      Unpack2(false, kids.tail, N(Expression), T(')'));
      ByRule(false, Factor, 2, kids);
    case Call(name, args) =>
      CallConforms(name, args);
      Unpack1(false, kids, N(Function));
      ByRule(false, Factor, 3, kids);
  }

  lemma {:induction false} CallConforms(name: Name, args: Args)
    requires CompleteArgs(args)
    ensures ConformsTo(false, Node(N(Function), Kids2(NameTree(name), ArgsTree(args))), N(Function))
    decreases args, 2
  {
    NameConforms(name);
    ArgsConform(args);
    CallOf(NameTree(name), ArgsTree(args));
  }

  lemma CallOf(name: Tree, params: Tree)
    requires ConformsTo(false, name, N(Str)) && ConformsTo(false, params, N(Paramlist))
    ensures ConformsTo(false, Node(N(Function), Kids2(name, params)), N(Function))
  {
    Unpack2(false, Kids2(name, params), N(Str), N(Paramlist));
    ByRule(false, Function, 0, Kids2(name, params));
  }

  lemma {:induction false} ArgsConform(args: Args)
    requires CompleteArgs(args)
    ensures ConformsTo(false, ArgsTree(args), N(Paramlist))
    decreases args, 1
  {
    ExprTreeConforms(args.e);
    MoreArgsConforms(args);
    ParamsConform(ExprTree(args.e), MoreArgs(args));
  }

  lemma ParamsConform(e: Tree, more: Tree)
    requires ConformsTo(false, e, N(Expression)) && ConformsTo(false, more, N(Ptail))
    ensures ConformsTo(false, Node(N(Paramlist), Kids4(Read('('), e, more, Read(')'))), N(Paramlist))
  {
    var kids := Kids4(Read('('), e, more, Read(')'));
    Unpack4(false, kids, T('('), N(Expression), N(Ptail), T(')'));
    Unpack3(false, kids.tail, N(Expression), N(Ptail), T(')'));
    Unpack2(false, kids.tail.tail, N(Ptail), T(')'));
    ByRule(false, Paramlist, 0, kids);
  }

  lemma {:induction false} MoreArgsConforms(args: Args)
    requires CompleteArgs(args)
    ensures ConformsTo(false, MoreArgs(args), N(Ptail))
    decreases args, 0
  {
    match args
    case Last(_) => EmptyConforms(Ptail, 1);
    case More(_, rest) =>
      ExprTreeConforms(rest.e);
      MoreArgsConforms(rest);
      var kids := MoreArgs(args).kids;
      Unpack3(false, kids, T(','), N(Expression), N(Ptail));
      Unpack2(false, kids.tail, N(Expression), N(Ptail));
      ByRule(false, Ptail, 0, kids);
  }

  lemma {:induction false} NumberConforms(s: Digits)
    ensures ConformsTo(false, NumberTree(s), N(Number))
    decreases |s|
  {
    var digit := Kids1(Read(s[0]));
    Unpack1(false, digit, AnyDigit);
    ByRule(false, Digit, 0, digit);
    if |s| == 1 {
      EmptyConforms(Ntail, 1);
    } else {
      NumberConforms(s[1..]);
      Unpack1(false, Kids1(NumberTree(s[1..])), N(Number));
      ByRule(false, Ntail, 0, Kids1(NumberTree(s[1..])));
    }
    assert ConformsTo(false, DigitsTree(s[1..]), N(Ntail));
    var kids := NumberTree(s).kids;
    Unpack2(false, kids, N(Digit), N(Ntail));
    ByRule(false, Number, 0, kids);
  }

  lemma {:induction false} NameConforms(s: Name)
    ensures ConformsTo(false, NameTree(s), N(Str))
    decreases |s|
  {
    var letter := Kids1(Read(s[0]));
    Unpack1(false, letter, AnyLetter);
    ByRule(false, Char, 0, letter);
    if |s| == 1 {
      EmptyConforms(Stail, 1);
    } else {
      NameConforms(s[1..]);
      Unpack1(false, Kids1(NameTree(s[1..])), N(Str));
      ByRule(false, Stail, 0, Kids1(NameTree(s[1..])));
    }
    assert ConformsTo(false, LettersTree(s[1..]), N(Stail));
    var kids := NameTree(s).kids;
    Unpack2(false, kids, N(Char), N(Stail));
    ByRule(false, Str, 0, kids);
  }

  // ---- the tree's text is the expression's ------------------------------------------------

  lemma Texts2(a: Tree, b: Tree)
    ensures Texts(Kids2(a, b)) == Text(a) + Text(b)
  {
    assert Texts(Kids1(b)) == Text(b) + Texts(Nil) == Text(b);
  }

  lemma Texts3(a: Tree, b: Tree, c: Tree)
    ensures Texts(Kids3(a, b, c)) == Text(a) + (Text(b) + Text(c))
  {
    Texts2(b, c);
  }

  lemma ReadText(c: char)
    ensures Text(Read(c)) == [c]
  {}

  lemma Texts1(a: Tree)
    ensures Texts(Kids1(a)) == Text(a)
  {
    assert Texts(Kids1(a)) == Text(a) + Texts(Nil);
  }

  lemma NothingText(nt: Nonterminal)
    ensures Text(Nothing(nt)) == ""
  {
    Texts1(Leaf(Empty));
  }

  lemma Regroup(a: string, c: char, b: string, d: string)
    ensures a + ([c] + (b + d)) == (a + [c] + b) + d
  {}

  /** The text of an operator, an operand and what follows them. */
  lemma StepText(nt: Nonterminal, c: char, inner: Nonterminal, t: Tree, tail: Tree)
    ensures Text(Node(N(nt), Kids2(Read(c), Node(N(inner), Kids2(t, tail))))) == [c] + (Text(t) + Text(tail))
  {
    Texts2(t, tail);
    var rest := Node(N(inner), Kids2(t, tail));
    assert Text(rest) == Text(t) + Text(tail);
    Texts2(Read(c), rest);
    ReadText(c);
  }

  lemma {:induction false} ExprText(e: Expr, tail: Tree)
    ensures Texts(ExprKids(e, tail)) == ShowExpr(e) + Text(tail)
    decreases e, 0
  {
    match e
    case Single(p) =>
      ProductTreeText(p);
      Texts2(ProductTree(p), tail);
    case Sum(l, plus, r) =>
      ProductTreeText(r);
      var c := SumSign(plus);
      StepText(Etail, c, Expression, ProductTree(r), tail);
      ExprText(l, Node(N(Etail), Kids2(Read(c), Node(N(Expression), Kids2(ProductTree(r), tail)))));
      Regroup(ShowExpr(l), c, ShowProduct(r), Text(tail));
  }

  lemma {:induction false} ExprTreeText(e: Expr)
    ensures Text(ExprTree(e)) == ShowExpr(e)
    decreases e, 1
  {
    ExprText(e, Nothing(Etail));
    NothingText(Etail);
  }

  lemma {:induction false} ProductText(p: Product, tail: Tree)
    ensures Texts(ProductKids(p, tail)) == ShowProduct(p) + Text(tail)
    decreases p, 0
  {
    match p
    case Only(a) =>
      AtomText(a);
      Texts2(AtomTree(a), tail);
    case Prod(l, times, r) =>
      AtomText(r);
      var c := ProductSign(times);
      StepText(Gtail, c, Group, AtomTree(r), tail);
      ProductText(l, Node(N(Gtail), Kids2(Read(c), Node(N(Group), Kids2(AtomTree(r), tail)))));
      Regroup(ShowProduct(l), c, ShowAtom(r), Text(tail));
  }

  lemma {:induction false} ProductTreeText(p: Product)
    ensures Text(ProductTree(p)) == ShowProduct(p)
    decreases p, 1
  {
    ProductText(p, Nothing(Gtail));
    NothingText(Gtail);
  }

  lemma {:induction false} AtomText(a: Atom)
    ensures Text(AtomTree(a)) == ShowAtom(a)
    decreases a
  {
    match a
    case Num(ds) =>
      NumberText(ds);
      Texts1(NumberTree(ds));
    case Neg(b) =>
      AtomText(b);
      Texts2(Read('-'), AtomTree(b));
    case Paren(e) =>
      ExprTreeText(e);
      Texts3(Read('('), ExprTree(e), Read(')'));
      ReadText('(');
      ReadText(')');
    case Call(name, args) =>
      CallText(name, args);
      Texts1(Node(N(Function), Kids2(NameTree(name), ArgsTree(args))));
    case Missing =>
  }

  lemma {:induction false} CallText(name: Name, args: Args)
    ensures Texts(Kids2(NameTree(name), ArgsTree(args))) == name + "(" + ShowArgs(args) + ")"
    decreases args, 1
  {
    NameText(name);
    Texts2(NameTree(name), ArgsTree(args));
    MoreArgsText(args);
    Texts3(ExprTree(args.e), MoreArgs(args), Read(')'));
    ReadText('(');
    ReadText(')');
    assert Text(ArgsTree(args)) == "(" + (Text(ExprTree(args.e)) + (Text(MoreArgs(args)) + ")"));
  }

  lemma {:induction false} MoreArgsText(args: Args)
    ensures Text(ExprTree(args.e)) + Text(MoreArgs(args)) == ShowArgs(args)
    decreases args, 0
  {
    ExprTreeText(args.e);
    match args
    case Last(_) => NothingText(Ptail);
    case More(e, rest) =>
      MoreArgsText(rest);
      Texts3(Read(','), ExprTree(rest.e), MoreArgs(rest));
      ReadText(',');
      assert Text(MoreArgs(args)) == "," + (Text(ExprTree(rest.e)) + Text(MoreArgs(rest)));
  }

  lemma {:induction false} NumberText(s: string)
    requires s != ""
    ensures Text(NumberTree(s)) == s
    decreases |s|
  {
    Texts1(Read(s[0]));
    Texts2(Node(N(Digit), Kids1(Read(s[0]))), DigitsTree(s[1..]));
    if s[1..] == "" {
      NothingText(Ntail);
    } else {
      NumberText(s[1..]);
      Texts1(NumberTree(s[1..]));
    }
  }

  lemma {:induction false} NameText(s: string)
    requires s != ""
    ensures Text(NameTree(s)) == s
    decreases |s|
  {
    Texts1(Read(s[0]));
    Texts2(Node(N(Char), Kids1(Read(s[0]))), LettersTree(s[1..]));
    if s[1..] == "" {
      NothingText(Stail);
    } else {
      NameText(s[1..]);
      Texts1(NameTree(s[1..]));
    }
  }

  // ---- every tree of the grammar is the tree of an expression -----------------------------

  lemma RuleOf(t: Tree, nt: Nonterminal) returns (k: nat)
    requires ConformsTo(true, t, N(nt))
    ensures t.cat == N(nt) && k < |Productions(true, nt)| && Conforms(true, t.kids, Productions(true, nt)[k])
  {
    k :| k < |Productions(true, nt)| && Conforms(true, t.kids, Productions(true, nt)[k]);
  }

  lemma PairOf(t: Tree, nt: Nonterminal, a: Cat, b: Cat)
    requires ConformsTo(true, t, N(nt)) && Productions(true, nt) == [[a, b]]
    ensures t.kids.Cons? && t.kids.tail.Cons? && t == Node(N(nt), Kids2(t.kids.head, t.kids.tail.head))
    ensures ConformsTo(true, t.kids.head, a) && ConformsTo(true, t.kids.tail.head, b)
  {
    var k := RuleOf(t, nt);
    Unpack2(true, t.kids, a, b);
  }

  lemma {:induction false} ReadExpr(t: Tree) returns (e: Expr)
    requires ConformsTo(true, t, N(Expression))
    ensures t == ExprTree(e)
    decreases t
  {
    PairOf(t, Expression, N(Group), N(Etail));
    var p := ReadProduct(t.kids.head);
    e := ReadSum(Single(p), t.kids.tail.head);
  }

  /** The rest of a sum, taken onto what was read so far. */
  lemma {:induction false} ReadSum(acc: Expr, t: Tree) returns (e: Expr)
    requires ConformsTo(true, t, N(Etail))
    ensures ExprKids(e, Nothing(Etail)) == ExprKids(acc, t)
    decreases t
  {
    var k := RuleOf(t, Etail);
    if k == 1 {
      Unpack1(true, t.kids, Empty);
      e := acc;
    } else {
      var c := SumSign(k == 0);
      Unpack2(true, t.kids, T(c), N(Expression));
      var rest := t.kids.tail.head;
      PairOf(rest, Expression, N(Group), N(Etail));
      var p := ReadProduct(rest.kids.head);
      assert t == Node(N(Etail), Kids2(Read(c), rest));
      e := ReadSum(Sum(acc, k == 0, p), rest.kids.tail.head);
    }
  }

  lemma {:induction false} ReadProduct(t: Tree) returns (p: Product)
    requires ConformsTo(true, t, N(Group))
    ensures t == ProductTree(p)
    decreases t
  {
    PairOf(t, Group, N(Factor), N(Gtail));
    var a := ReadAtom(t.kids.head);
    p := ReadFactors(Only(a), t.kids.tail.head);
  }

  lemma {:induction false} ReadFactors(acc: Product, t: Tree) returns (p: Product)
    requires ConformsTo(true, t, N(Gtail))
    ensures ProductKids(p, Nothing(Gtail)) == ProductKids(acc, t)
    decreases t
  {
    var k := RuleOf(t, Gtail);
    if k == 1 {
      Unpack1(true, t.kids, Empty);
      p := acc;
    } else {
      var c := ProductSign(k == 0);
      Unpack2(true, t.kids, T(c), N(Group));
      var rest := t.kids.tail.head;
      PairOf(rest, Group, N(Factor), N(Gtail));
      var a := ReadAtom(rest.kids.head);
      assert t == Node(N(Gtail), Kids2(Read(c), rest));
      p := ReadFactors(Prod(acc, k == 0, a), rest.kids.tail.head);
    }
  }

  lemma {:induction false} ReadAtom(t: Tree) returns (a: Atom)
    requires ConformsTo(true, t, N(Factor))
    ensures t == AtomTree(a)
    decreases t
  {
    var k := RuleOf(t, Factor);
    if k == 0 {
      Unpack1(true, t.kids, N(Number));
      var ds := ReadNumber(t.kids.head);
      a := Num(ds);
    } else if k == 1 {
      Unpack2(true, t.kids, T('-'), N(Factor));
      var b := ReadAtom(t.kids.tail.head);
      a := Neg(b);
    } else if k == 2 {
      Unpack3(true, t.kids, T('('), N(Expression), T(')'));
      Unpack2(true, t.kids.tail, N(Expression), T(')'));
      var e := ReadExpr(t.kids.tail.head);
      a := Paren(e);
    } else if k == 3 {
      Unpack1(true, t.kids, N(Function));
      a := ReadCall(t.kids.head);
    } else {
      a := Missing;
    }
  }

  lemma {:induction false} ReadCall(t: Tree) returns (a: Atom)
    requires ConformsTo(true, t, N(Function))
    ensures Node(N(Factor), Kids1(t)) == AtomTree(a)
    decreases t
  {
    PairOf(t, Function, N(Str), N(Paramlist));
    var name := ReadName(t.kids.head);
    var args := ReadArgs(t.kids.tail.head);
    a := Call(name, args);
  }

  lemma {:induction false} ReadArgs(t: Tree) returns (args: Args)
    requires ConformsTo(true, t, N(Paramlist))
    ensures t == ArgsTree(args)
    decreases t
  {
    var k := RuleOf(t, Paramlist);
    Unpack4(true, t.kids, T('('), N(Expression), N(Ptail), T(')'));
    Unpack3(true, t.kids.tail, N(Expression), N(Ptail), T(')'));
    Unpack2(true, t.kids.tail.tail, N(Ptail), T(')'));
    var e := ReadExpr(t.kids.tail.head);
    args := ReadMore(e, t.kids.tail.tail.head);
  }

  lemma {:induction false} ReadMore(e: Expr, t: Tree) returns (args: Args)
    requires ConformsTo(true, t, N(Ptail))
    ensures args.e == e && MoreArgs(args) == t
    decreases t
  {
    var k := RuleOf(t, Ptail);
    if k == 1 {
      Unpack1(true, t.kids, Empty);
      args := Last(e);
    } else {
      Unpack3(true, t.kids, T(','), N(Expression), N(Ptail));
      Unpack2(true, t.kids.tail, N(Expression), N(Ptail));
      var next := ReadExpr(t.kids.tail.head);
      var rest := ReadMore(next, t.kids.tail.tail.head);
      args := More(e, rest);
    }
  }

  lemma {:induction false} ReadNumber(t: Tree) returns (s: Digits)
    requires ConformsTo(true, t, N(Number))
    ensures NumberTree(s) == t
    decreases t
  {
    PairOf(t, Number, N(Digit), N(Ntail));
    var digit, tail := t.kids.head, t.kids.tail.head;
    var k := RuleOf(digit, Digit);
    Unpack1(true, digit.kids, AnyDigit);
    var c := digit.kids.head.cat.c;
    k := RuleOf(tail, Ntail);
    if k == 1 {
      Unpack1(true, tail.kids, Empty);
      s := [c];
      assert s[1..] == "";
    } else {
      Unpack1(true, tail.kids, N(Number));
      var rest := ReadNumber(tail.kids.head);
      s := [c] + rest;
      assert s[1..] == rest;
    }
  }

  lemma {:induction false} ReadName(t: Tree) returns (s: Name)
    requires ConformsTo(true, t, N(Str))
    ensures NameTree(s) == t
    decreases t
  {
    PairOf(t, Str, N(Char), N(Stail));
    var letter, tail := t.kids.head, t.kids.tail.head;
    var k := RuleOf(letter, Char);
    Unpack1(true, letter.kids, AnyLetter);
    var c := letter.kids.head.cat.c;
    k := RuleOf(tail, Stail);
    if k == 1 {
      Unpack1(true, tail.kids, Empty);
      s := [c];
      assert s[1..] == "";
    } else {
      Unpack1(true, tail.kids, N(Str));
      var rest := ReadName(tail.kids.head);
      s := [c] + rest;
      assert s[1..] == rest;
    }
  }
}
