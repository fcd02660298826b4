/**
  Expressions as they are meant: left-associative sums of left-associative products.  Their
  text, their value, and the right-recursive tree the grammar gives them.
  */
module Expressions {
  import opened Options
  import opened ParseTree
  import opened Grammar

  type Digits = s: string | s != "" && forall i | 0 <= i < |s| :: IsDigit(s[i]) witness "0"
  type Name = s: string | s != "" && forall i | 0 <= i < |s| :: IsLetter(s[i]) witness "a"

  datatype Expr = Single(p: Product) | Sum(left: Expr, plus: bool, right: Product)
  datatype Product = Only(a: Atom) | Prod(left: Product, times: bool, right: Atom)
  /** `Missing` is the operand that the recursive parser lets one leave out. */
  datatype Atom = Num(digits: Digits) | Neg(a: Atom) | Paren(e: Expr) | Call(name: Name, args: Args) | Missing
  datatype Args = Last(e: Expr) | More(e: Expr, rest: Args)

  // ---- text ------------------------------------------------------------------------------

  function SumSign(plus: bool): char {
    if plus then '+' else '-'
  }

  function ProductSign(times: bool): char {
    if times then '*' else '/'
  }

  function ShowExpr(e: Expr): string {
    match e
    case Single(p) => ShowProduct(p)
    case Sum(l, plus, r) => ShowExpr(l) + [SumSign(plus)] + ShowProduct(r)
  }

  function ShowProduct(p: Product): string {
    match p
    case Only(a) => ShowAtom(a)
    case Prod(l, times, r) => ShowProduct(l) + [ProductSign(times)] + ShowAtom(r)
  }

  function ShowAtom(a: Atom): string {
    match a
    case Num(ds) => ds
    case Neg(b) => "-" + ShowAtom(b)
    case Paren(e) => "(" + ShowExpr(e) + ")"
    case Call(name, args) => name + "(" + ShowArgs(args) + ")"
    case Missing => ""
  }

  function ShowArgs(args: Args): string {
    match args
    case Last(e) => ShowExpr(e)
    case More(e, rest) => ShowExpr(e) + "," + ShowArgs(rest)
  }

  // ---- value -----------------------------------------------------------------------------

  /** A number, no value (division by zero, a wrong function call, a missing operand), or a
      read through a null pointer. */
  datatype Val = Real(v: real) | Undefined | Crash

  /** The mathematical library, unspecified. */
  type Math = (string, seq<real>) -> real

  /** `v` times the `n`-th power of ten. */
  function Shift(v: real, n: nat): real
    decreases n
  {
    if n == 0 then v else Shift(10.0 * v, n - 1)
  }

  function DigitValue(c: char): real {
    if IsDigit(c) then (c as int - '0' as int) as real else -1.0
  }

  /** Each digit times the power of ten of its place. */
  function Decimal(s: string): real {
    if s == "" then 0.0 else Shift(DigitValue(s[0]), |s| - 1) + Decimal(s[1..])
  }

  /** The number of parameters of a function, -1 if there is none of that name. */
  function Arity(name: string): int {
    if name in {"sin", "cos", "tan", "sind", "cosd", "tand", "arcsin", "arccos", "arctan",
                "arcsind", "arccosd", "arctand", "sqrt", "pi"} then 1
    else if name == "pow" then 2
    else if name == "vlength" then 4
    else -1
  }

  function Apply(math: Math, name: string, xs: seq<real>): Val {
    if Arity(name) != |xs| then Undefined
    else if name == "sqrt" && xs[0] < 0.0 then Undefined
    else if name == "pow" && xs[0] < 0.0 && 0.0 < xs[1] < 1.0 then Undefined
    else Real(math(name, xs))
  }

  /** The functions of one parameter that are defined for every number. */
  predicate Total(name: string) {
    || name == "sin" || name == "cos" || name == "tan" || name == "sind" || name == "cosd" || name == "tand"
    || name == "arcsin" || name == "arccos" || name == "arctan"
    || name == "arcsind" || name == "arccosd" || name == "arctand" || name == "pi"
  }

  /** When a call has a value: `sqrt` of one number that is not negative, `pow` of two unless
      the base is negative and the exponent between 0 and 1, `vlength` of four, and the other
      functions of one.  Its value is then what the library computes. */
  lemma CallHasValue(math: Math, name: string, xs: seq<real>)
    ensures Apply(math, name, xs) == Undefined || Apply(math, name, xs) == Real(math(name, xs))
    ensures Apply(math, name, xs).Real? <==>
            || (Total(name) && |xs| == 1)
            || (name == "sqrt" && |xs| == 1 && !(xs[0] < 0.0))
            || (name == "pow" && |xs| == 2 && !(xs[0] < 0.0 && 0.0 < xs[1] < 1.0))
            || (name == "vlength" && |xs| == 4)
  {}

  function Combine(c: char, a: Val, b: Val): Val {
    if !a.Real? then a
    else if !b.Real? then b
    else if c == '+' then Real(a.v + b.v)
    else if c == '-' then Real(a.v - b.v)
    else if c == '*' then Real(a.v * b.v)
    else if c == '/' && b.v == 0.0 then Undefined
    else if c == '/' then Real(a.v / b.v)
    else a
  }

  function ValueExpr(math: Math, e: Expr): (r: Val)
    ensures !r.Crash?
  {
    match e
    case Single(p) => ValueProduct(math, p)
    case Sum(l, plus, r) => Combine(SumSign(plus), ValueExpr(math, l), ValueProduct(math, r))
  }

  function ValueProduct(math: Math, p: Product): (r: Val)
    ensures !r.Crash?
  {
    match p
    case Only(a) => ValueAtom(math, a)
    case Prod(l, times, r) => Combine(ProductSign(times), ValueProduct(math, l), ValueAtom(math, r))
  }

  function ValueAtom(math: Math, a: Atom): (r: Val)
    ensures !r.Crash?
  {
    match a
    case Num(ds) => Real(Decimal(ds))
    case Neg(b) => var r := ValueAtom(math, b); if r.Real? then Real(-r.v) else r
    case Paren(e) => ValueExpr(math, e)
    case Call(name, args) =>
      var xs := ValueArgs(math, args);
      if xs.None? then Undefined else Apply(math, name, xs.value)
    case Missing => Undefined
  }

  /** The values of all arguments, if all have one. */
  function ValueArgs(math: Math, args: Args): (r: Option<seq<real>>)
  {
    var first := ValueExpr(math, args.e);
    if !first.Real? then None
    else if args.Last? then Some([first.v])
    else
      var more := ValueArgs(math, args.rest);
      if more.None? then None else Some([first.v] + more.value)
  }

  // ---- no operand left out ---------------------------------------------------------------

  predicate CompleteExpr(e: Expr) {
    match e
    case Single(p) => CompleteProduct(p)
    case Sum(l, _, r) => CompleteExpr(l) && CompleteProduct(r)
  }

  predicate CompleteProduct(p: Product) {
    match p
    case Only(a) => CompleteAtom(a)
    case Prod(l, _, r) => CompleteProduct(l) && CompleteAtom(r)
  }

  predicate CompleteAtom(a: Atom) {
    match a
    case Num(_) => true
    case Neg(b) => CompleteAtom(b)
    case Paren(e) => CompleteExpr(e)
    case Call(_, args) => CompleteArgs(args)
    case Missing => false
  }

  predicate CompleteArgs(args: Args) {
    CompleteExpr(args.e) && (args.More? ==> CompleteArgs(args.rest))
  }

  /** A missing operand anywhere leaves the whole expression without a value. */
  lemma {:induction false} IncompleteUndefined(math: Math, e: Expr)
    requires !CompleteExpr(e)
    ensures ValueExpr(math, e) == Undefined
    decreases e
  {
    match e
    case Single(p) => IncompleteProduct(math, p);
    case Sum(l, _, r) =>
      if !CompleteExpr(l) {
        IncompleteUndefined(math, l);
      } else {
        IncompleteProduct(math, r);
      }
  }

  lemma {:induction false} IncompleteProduct(math: Math, p: Product)
    requires !CompleteProduct(p)
    ensures ValueProduct(math, p) == Undefined
    decreases p
  {
    match p
    case Only(a) => IncompleteAtom(math, a);
    case Prod(l, _, r) =>
      if !CompleteProduct(l) {
        IncompleteProduct(math, l);
      } else {
        IncompleteAtom(math, r);
      }
  }

  lemma {:induction false} IncompleteAtom(math: Math, a: Atom)
    requires !CompleteAtom(a)
    ensures ValueAtom(math, a) == Undefined
    decreases a
  {
    match a
    case Neg(b) => IncompleteAtom(math, b);
    case Paren(e) => IncompleteUndefined(math, e);
    case Call(_, args) => IncompleteArgs(math, args);
    case Missing =>
  }

  lemma {:induction false} IncompleteArgs(math: Math, args: Args)
    requires !CompleteArgs(args)
    ensures ValueArgs(math, args) == None
    decreases args
  {
    if !CompleteExpr(args.e) {
      IncompleteUndefined(math, args.e);
    } else {
      IncompleteArgs(math, args.rest);
    }
  }

  // ---- the tree of an expression ---------------------------------------------------------

  function Kids1(a: Tree): Forest {
    Cons(a, Nil)
  }

  function Kids2(a: Tree, b: Tree): Forest {
    Cons(a, Kids1(b))
  }

  function Kids3(a: Tree, b: Tree, c: Tree): Forest {
    Cons(a, Kids2(b, c))
  }

  function Kids4(a: Tree, b: Tree, c: Tree, d: Tree): Forest {
    Cons(a, Kids3(b, c, d))
  }

  function Read(c: char): Tree {
    Leaf(Term(c, true))
  }

  function Nothing(nt: Nonterminal): Tree {
    Node(N(nt), Kids1(Leaf(Empty)))
  }

  /** The children of the `<expression>` for `e` followed by `tail`: the leftmost product comes
      first, the rest of the sum hangs below its right neighbour. */
  function ExprKids(e: Expr, tail: Tree): Forest {
    match e
    case Single(p) => Kids2(ProductTree(p), tail)
    case Sum(l, plus, r) =>
      ExprKids(l, Node(N(Etail), Kids2(Read(SumSign(plus)), Node(N(Expression), Kids2(ProductTree(r), tail)))))
  }

  function ExprTree(e: Expr): Tree {
    Node(N(Expression), ExprKids(e, Nothing(Etail)))
  }

  function ProductKids(p: Product, tail: Tree): Forest {
    match p
    case Only(a) => Kids2(AtomTree(a), tail)
    case Prod(l, times, r) =>
      ProductKids(l, Node(N(Gtail), Kids2(Read(ProductSign(times)), Node(N(Group), Kids2(AtomTree(r), tail)))))
  }

  function ProductTree(p: Product): Tree {
    Node(N(Group), ProductKids(p, Nothing(Gtail)))
  }

  function AtomTree(a: Atom): Tree {
    Node(N(Factor), match a
      case Num(ds) => Kids1(NumberTree(ds))
      case Neg(b) => Kids2(Read('-'), AtomTree(b))
      case Paren(e) => Kids3(Read('('), ExprTree(e), Read(')'))
      case Call(name, args) => Kids1(Node(N(Function), Kids2(NameTree(name), ArgsTree(args))))
      case Missing => Nil)
  }

  function ArgsTree(args: Args): Tree
    decreases args, 1
  {
    Node(N(Paramlist), Kids4(Read('('), ExprTree(args.e), MoreArgs(args), Read(')')))
  }

  function MoreArgs(args: Args): Tree
    decreases args, 0
  {
    match args
    case Last(_) => Nothing(Ptail)
    case More(_, rest) => Node(N(Ptail), Kids3(Read(','), ExprTree(rest.e), MoreArgs(rest)))
  }

  function NumberTree(s: string): Tree
    requires s != ""
    decreases |s|, 0
  {
    Node(N(Number), Kids2(Node(N(Digit), Kids1(Read(s[0]))), DigitsTree(s[1..])))
  }

  function DigitsTree(s: string): Tree
    decreases |s|, 1
  {
    if s == "" then Nothing(Ntail) else Node(N(Ntail), Kids1(NumberTree(s)))
  }

  function NameTree(s: string): Tree
    requires s != ""
    decreases |s|, 0
  {
    Node(N(Str), Kids2(Node(N(Char), Kids1(Read(s[0]))), LettersTree(s[1..])))
  }

  function LettersTree(s: string): Tree
    decreases |s|, 1
  {
    if s == "" then Nothing(Stail) else Node(N(Stail), Kids1(NameTree(s)))
  }
}
