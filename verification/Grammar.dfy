/**
  The grammar of the expression parsers, its parse table, and recursive parsing by that
  table.  `lenient` selects what the recursive-descent parser accepts.
  */
module Grammar {
  import opened Options
  import opened ParseTree

  const NUL := '\0'

  function LookAhead(inp: string, i: nat): char {
    if i < |inp| then inp[i] else NUL
  }

  /** A C string holds no terminator before its end. */
  predicate CString(inp: string) {
    forall i | 0 <= i < |inp| :: inp[i] != NUL
  }

  function T(c: char): Cat {
    Term(c, false)
  }

  /** The productions; a lenient `<factor>` may also have no children at all. */
  function Productions(lenient: bool, nt: Nonterminal): seq<seq<Cat>> {
    match nt
    case Expression => [[N(Group), N(Etail)]]
    case Etail => [[T('+'), N(Expression)], [Empty], [T('-'), N(Expression)]]
    case Group => [[N(Factor), N(Gtail)]]
    case Gtail => [[T('*'), N(Group)], [Empty], [T('/'), N(Group)]]
    case Factor =>
      [[N(Number)], [T('-'), N(Factor)], [T('('), N(Expression), T(')')], [N(Function)]]
      + if lenient then [[]] else []
    case Number => [[N(Digit), N(Ntail)]]
    case Ntail => [[N(Number)], [Empty]]
    case Digit => [[AnyDigit]]
    case Str => [[N(Char), N(Stail)]]
    case Stail => [[N(Str)], [Empty]]
    case Char => [[AnyLetter]]
    case Function => [[N(Str), N(Paramlist)]]
    case Paramlist => [[T('('), N(Expression), N(Ptail), T(')')]]
    case Ptail => [[T(','), N(Expression), N(Ptail)], [Empty]]
  }

  /** `single_Line_Parse` followed by `rule_Num_To_List_Of_Strings`; the lenient entries are
      those of the recursive functions. */
  function Choose(lenient: bool, nt: Nonterminal, c: char): Option<seq<Cat>> {
    match nt
    case Expression => Some([N(Group), N(Etail)])
    case Etail =>
      if c == '+' then Some([T('+'), N(Expression)])
      else if c == '-' then Some([T('-'), N(Expression)])
      else Some([Empty])
    case Group => Some([N(Factor), N(Gtail)])
    case Gtail =>
      if c == '*' then Some([T('*'), N(Group)])
      else if c == '/' then Some([T('/'), N(Group)])
      else Some([Empty])
    case Factor =>
      if IsDigit(c) then Some([N(Number)])
      else if IsLetter(c) then Some([N(Function)])
      else if c == '(' then Some([T('('), N(Expression), T(')')])
      else if c == '-' then Some([T('-'), N(Factor)])
      else if lenient && c != NUL then Some([])
      else None
    case Number => Some([N(Digit), N(Ntail)])
    case Ntail => Some(if IsDigit(c) then [N(Number)] else [Empty])
    case Digit => if IsDigit(c) then Some([AnyDigit]) else None
    case Str => Some([N(Char), N(Stail)])
    case Stail =>
      if IsLetter(c) then Some([N(Str)])
      else if lenient || c != NUL then Some([Empty])
      else None
    case Char => if IsLetter(c) then Some([AnyLetter]) else None
    case Function => Some([N(Str), N(Paramlist)])
    case Paramlist => if c == '(' then Some([T('('), N(Expression), N(Ptail), T(')')]) else None
    case Ptail => Some(if c == ',' then [T(','), N(Expression), N(Ptail)] else [Empty])
  }

  /** A terminal or class on the stack against the character in front. */
  predicate Matches(s: Cat, c: char) {
    c != NUL && match s
                case Term(t, marked) => !marked && t == c
                case AnyDigit => IsDigit(c)
                case AnyLetter => IsLetter(c)
                case _ => false
  }

  /** Symbols whose every parse reads at least one character, seen without recursion. */
  predicate Reads(s: Cat) {
    !s.Empty? && (s.N? ==> s.nt == Digit || s.nt == Char)
  }

  function Weight(s: Cat): nat {
    if s.N? then
      match s.nt
      case Expression => 13 case Group => 10 case Factor => 7 case Function => 6
      case Ntail | Stail => 4
      case Number | Str => 3
      case Digit | Char | Etail | Gtail | Ptail | Paramlist => 2
    else 1
  }

  /** Bounds the table steps that can happen before the next character is read. */
  function Pending(syms: seq<Cat>): nat {
    if syms == [] then 0
    else if Reads(syms[0]) then Weight(syms[0])
    else Weight(syms[0]) + Pending(syms[1..])
  }

  lemma {:induction false} PendingConcat(body: seq<Cat>, rest: seq<Cat>)
    ensures Pending(body + rest) <= Pending(body) + Pending(rest)
    ensures body != [] && Reads(body[0]) ==> Pending(body + rest) == Pending(body)
  {
    if body == [] {
      assert body + rest == rest;
    } else {
      assert (body + rest)[1..] == body[1..] + rest;
      PendingConcat(body[1..], rest);
    }
  }

  lemma PendingOne(a: Cat)
    ensures Pending([a]) == Weight(a)
  {
    assert [a][1..] == [];
  }

  lemma PendingTwo(a: Cat, b: Cat)
    ensures Pending([a, b]) == if Reads(a) then Weight(a) else Weight(a) + Weight(b)
  {
    assert [a, b][1..] == [b];
    PendingOne(b);
  }

  predicate HasEmpty(nt: Nonterminal) {
    nt in {Etail, Gtail, Ntail, Stail, Ptail}
  }

  lemma PendingBody(lenient: bool, nt: Nonterminal, c: char)
    requires Choose(lenient, nt, c).Some?
    ensures var body := Choose(lenient, nt, c).value;
            Pending(body) < Weight(N(nt)) && (Reads(N(nt)) ==> body != [] && Reads(body[0]))
  {
    if HasEmpty(nt) {
      PendingTail(lenient, nt, c);
    } else {
      PendingOther(lenient, nt, c);
    }
  }

  lemma PendingTail(lenient: bool, nt: Nonterminal, c: char)
    requires HasEmpty(nt) && Choose(lenient, nt, c).Some?
    ensures Pending(Choose(lenient, nt, c).value) < Weight(N(nt)) && !Reads(N(nt))
  {
    var body := Choose(lenient, nt, c).value;
    if |body| == 1 {
      PendingOne(body[0]);
      assert body == [body[0]];
    }
  }

  lemma PendingOther(lenient: bool, nt: Nonterminal, c: char)
    requires !HasEmpty(nt) && Choose(lenient, nt, c).Some?
    ensures var body := Choose(lenient, nt, c).value;
            Pending(body) < Weight(N(nt)) && (Reads(N(nt)) ==> body != [] && Reads(body[0]))
  {
    var body := Choose(lenient, nt, c).value;
    if |body| == 1 {
      PendingOne(body[0]);
      assert body == [body[0]];
    } else if |body| == 2 {
      PendingTwo(body[0], body[1]);
      assert body == [body[0], body[1]];
    }
  }

  /** Every expansion on top of the stack makes the bound smaller. */
  lemma ExpandPending(lenient: bool, nt: Nonterminal, c: char, rest: seq<Cat>)
    requires Choose(lenient, nt, c).Some?
    ensures Pending(Choose(lenient, nt, c).value + rest) < Pending([N(nt)] + rest)
  {
    PendingBody(lenient, nt, c);
    PendingConcat(Choose(lenient, nt, c).value, rest);
    assert ([N(nt)] + rest)[1..] == rest;
  }

  datatype Outcome = Reject | Accept(forest: Forest, next: nat)
  datatype Single = Fail | Ok(tree: Tree, next: nat)

  /** Predictive parsing of a list of symbols from position `i`. */
  function Parse(lenient: bool, syms: seq<Cat>, inp: string, i: nat): (r: Outcome)
    requires i <= |inp|
    ensures r.Accept? ==> i <= r.next <= |inp| && (syms != [] && Reads(syms[0]) ==> i < r.next)
    decreases |inp| - i, Pending(syms), 1
  {
    if syms == [] then Accept(Nil, i)
    else
      var first := ParseOne(lenient, syms[0], inp, i);
      if first.Fail? then Reject
      else
        var rest := Parse(lenient, syms[1..], inp, first.next);
        if rest.Reject? then Reject else Accept(Cons(first.tree, rest.forest), rest.next)
  }

  function ParseOne(lenient: bool, s: Cat, inp: string, i: nat): (r: Single)
    requires i <= |inp|
    ensures r.Ok? ==> i <= r.next <= |inp| && (Reads(s) ==> i < r.next)
    decreases |inp| - i, Weight(s), 0
  {
    var c := LookAhead(inp, i);
    match s
    case N(nt) =>
      var body := Choose(lenient, nt, c);
      if body.None? then Fail
      else
        PendingBody(lenient, nt, c);
        var kids := Parse(lenient, body.value, inp, i);
        if kids.Reject? then Fail else Ok(Node(s, kids.forest), kids.next)
    case Empty => Ok(Leaf(Empty), i)
    case _ => if Matches(s, c) then Ok(Leaf(Term(c, true)), i + 1) else Fail
  }

  lemma ParseCons(lenient: bool, s: Cat, rest: seq<Cat>, inp: string, i: nat)
    requires i <= |inp|
    ensures Parse(lenient, [s] + rest, inp, i) ==
            var first := ParseOne(lenient, s, inp, i);
            if first.Fail? then Reject
            else
              var more := Parse(lenient, rest, inp, first.next);
              if more.Reject? then Reject else Accept(Cons(first.tree, more.forest), more.next)
  {
    var syms := [s] + rest;
    assert syms[0] == s && syms[1..] == rest;
  }

  lemma {:induction false} ParseConcat(lenient: bool, a: seq<Cat>, b: seq<Cat>, inp: string, i: nat)
    requires i <= |inp|
    ensures Parse(lenient, a + b, inp, i) ==
            var first := Parse(lenient, a, inp, i);
            if first.Reject? then Reject
            else
              var rest := Parse(lenient, b, inp, first.next);
              if rest.Reject? then Reject else Accept(Concat(first.forest, rest.forest), rest.next)
    decreases |a|
  {
    if a == [] {
      assert a + b == b;
    } else {
      assert (a + b)[1..] == a[1..] + b;
      var first := ParseOne(lenient, a[0], inp, i);
      if first.Ok? {
        ParseConcat(lenient, a[1..], b, inp, first.next);
      }
    }
  }

  // ---- what the grammar says a parse tree is ---------------------------------------------

  ghost predicate Conforms(lenient: bool, f: Forest, syms: seq<Cat>)
    decreases f
  {
    match f
    case Nil => syms == []
    case Cons(t, rest) => syms != [] && ConformsTo(lenient, t, syms[0]) && Conforms(lenient, rest, syms[1..])
  }

  ghost predicate ConformsTo(lenient: bool, t: Tree, s: Cat)
    decreases t
  {
    match s
    case N(nt) =>
      && t.cat == s
      && exists k :: 0 <= k < |Productions(lenient, nt)| && Conforms(lenient, t.kids, Productions(lenient, nt)[k])
    case Empty => t == Leaf(Empty)
    case _ => t.kids.Nil? && t.cat.Term? && t.cat.marked && Matches(s, t.cat.c)
  }

  lemma ChooseIsProduction(lenient: bool, nt: Nonterminal, c: char)
    requires Choose(lenient, nt, c).Some?
    ensures exists k ::
              0 <= k < |Productions(lenient, nt)| && Productions(lenient, nt)[k] == Choose(lenient, nt, c).value
  {
    var k := match nt
      case Etail => (if c == '+' then 0 else if c == '-' then 2 else 1)
      case Gtail => (if c == '*' then 0 else if c == '/' then 2 else 1)
      case Factor =>
        (if IsDigit(c) then 0 else if IsLetter(c) then 3 else if c == '(' then 2 else if c == '-' then 1 else 4)
      case Ntail => (if IsDigit(c) then 0 else 1)
      case Stail => (if IsLetter(c) then 0 else 1)
      case Ptail => (if c == ',' then 0 else 1)
      case _ => 0;
    assert Productions(lenient, nt)[k] == Choose(lenient, nt, c).value;
  }

  /** What is accepted is a tree of the grammar that covers exactly the characters read. */
  lemma {:induction false} ParseSound(lenient: bool, syms: seq<Cat>, inp: string, i: nat)
    requires i <= |inp| && Parse(lenient, syms, inp, i).Accept?
    ensures var r := Parse(lenient, syms, inp, i);
            Conforms(lenient, r.forest, syms) && Texts(r.forest) == inp[i..r.next]
    decreases |inp| - i, Pending(syms), 1
  {
    if syms != [] {
      var first := ParseOne(lenient, syms[0], inp, i);
      ParseOneSound(lenient, syms[0], inp, i);
      ParseSound(lenient, syms[1..], inp, first.next);
      var rest := Parse(lenient, syms[1..], inp, first.next);
      ConformsParts(lenient, first.tree, rest.forest, syms);
      ReadParts(inp, i, first.next, rest.next);
      assert Parse(lenient, syms, inp, i) == Accept(Cons(first.tree, rest.forest), rest.next);
    }
  }

  lemma ReadParts(inp: string, i: nat, m: nat, j: nat)
    requires i <= m <= j <= |inp|
    ensures inp[i..j] == inp[i..m] + inp[m..j]
  {}

  lemma ConformsParts(lenient: bool, t: Tree, f: Forest, syms: seq<Cat>)
    requires syms != [] && ConformsTo(lenient, t, syms[0]) && Conforms(lenient, f, syms[1..])
    ensures Conforms(lenient, Cons(t, f), syms) && Texts(Cons(t, f)) == Text(t) + Texts(f)
  {}

  lemma {:induction false} ParseOneSound(lenient: bool, s: Cat, inp: string, i: nat)
    requires i <= |inp| && ParseOne(lenient, s, inp, i).Ok?
    ensures var r := ParseOne(lenient, s, inp, i);
            ConformsTo(lenient, r.tree, s) && Text(r.tree) == inp[i..r.next]
    decreases |inp| - i, Weight(s), 0
  {
    if s.N? {
      var c := LookAhead(inp, i);
      PendingBody(lenient, s.nt, c);
      ChooseIsProduction(lenient, s.nt, c);
      ParseSound(lenient, Choose(lenient, s.nt, c).value, inp, i);
    }
  }

  // ---- the table decides: one character of look-ahead is enough ---------------------------

  predicate FactorStart(c: char) {
    IsDigit(c) || IsLetter(c) || c == '(' || c == '-'
  }

  predicate First(s: Cat, c: char) {
    match s
    case Term(t, _) => c == t
    case AnyDigit => IsDigit(c)
    case AnyLetter => IsLetter(c)
    case Empty => false
    case N(nt) =>
      match nt
      case Expression | Group | Factor => FactorStart(c)
      case Etail => c == '+' || c == '-'
      case Gtail => c == '*' || c == '/'
      case Number | Ntail | Digit => IsDigit(c)
      case Str | Stail | Char | Function => IsLetter(c)
      case Paramlist => c == '('
      case Ptail => c == ','
  }

  predicate Nullable(s: Cat) {
    s.Empty? || (s.N? && s.nt in {Etail, Gtail, Ntail, Stail, Ptail})
  }

  predicate FollowsExpression(c: char) {
    c == ')' || c == ',' || c == NUL
  }

  predicate FollowsFactor(c: char) {
    FollowsExpression(c) || c == '+' || c == '-' || c == '*' || c == '/'
  }

  predicate Follow(s: Cat, c: char) {
    s.N? ==>
      match s.nt
      case Expression | Etail => FollowsExpression(c)
      case Group | Gtail => FollowsExpression(c) || c == '+' || c == '-'
      case Factor | Number | Ntail | Function | Paramlist => FollowsFactor(c)
      case Digit => IsDigit(c) || FollowsFactor(c)
      case Str | Stail => c == '('
      case Char => IsLetter(c) || c == '('
      case Ptail => c == ')'
  }

  /** `c` may be in front of `syms` when `d` is behind them. */
  predicate Begins(syms: seq<Cat>, c: char, d: char) {
    if syms == [] then c == d
    else First(syms[0], c) || (Nullable(syms[0]) && Begins(syms[1..], c, d))
  }

  /** Each of `syms` can be followed by whatever may come after it, when `d` is behind. */
  ghost predicate Followed(syms: seq<Cat>, d: char) {
    syms != [] ==> (forall c | Begins(syms[1..], c, d) :: Follow(syms[0], c)) && Followed(syms[1..], d)
  }

  lemma {:induction false} FirstOfTree(t: Tree, s: Cat)
    requires ConformsTo(false, t, s)
    ensures if Text(t) == "" then Nullable(s) else First(s, Text(t)[0]) && Text(t)[0] != NUL
    decreases t
  {
    if s.N? {
      var k :| 0 <= k < |Productions(false, s.nt)| && Conforms(false, t.kids, Productions(false, s.nt)[k]);
      FirstOfForest(t.kids, Productions(false, s.nt)[k], NUL);
      FirstOfBody(s.nt, k, if Text(t) == "" then NUL else Text(t)[0]);
    }
  }

  lemma BeginsOne(s: Cat, c: char, d: char)
    ensures Begins([s], c, d) <==> First(s, c) || (Nullable(s) && c == d)
  {
    assert [s][1..] == [];
  }

  lemma FirstOfBody(nt: Nonterminal, k: nat, c: char)
    requires k < |Productions(false, nt)|
    ensures Begins(Productions(false, nt)[k], c, NUL) ==> First(N(nt), c) || (c == NUL && Nullable(N(nt)))
  {
    var body := Productions(false, nt)[k];
    if |body| == 1 {
      BeginsOne(body[0], c, NUL);
      assert body == [body[0]];
    }
  }

  lemma {:induction false} FirstOfForest(f: Forest, syms: seq<Cat>, d: char)
    requires Conforms(false, f, syms)
    ensures Begins(syms, if Texts(f) == "" then d else Texts(f)[0], d)
    ensures Texts(f) != "" ==> Texts(f)[0] != NUL
    decreases f
  {
    if f.Cons? {
      FirstOfTree(f.head, syms[0]);
      FirstOfForest(f.tail, syms[1..], d);
    }
  }

  lemma TableDecides(nt: Nonterminal, k: nat, c: char, d: char)
    requires k < |Productions(false, nt)| && Follow(N(nt), d) && Begins(Productions(false, nt)[k], c, d)
    ensures Choose(false, nt, c) == Some(Productions(false, nt)[k])
  {
    var body := Productions(false, nt)[k];
    if |body| == 1 {
      assert body[1..] == [];
    }
  }

  lemma FollowedCons(s: Cat, rest: seq<Cat>, d: char)
    requires Followed(rest, d) && forall c | Begins(rest, c, d) :: Follow(s, c)
    ensures Followed([s] + rest, d)
  {
    assert ([s] + rest)[1..] == rest;
  }

  lemma FollowedOne(s: Cat, d: char)
    requires Follow(s, d)
    ensures Followed([s], d)
  {
    assert [s][1..] == [];
  }

  lemma FollowedTwo(s: Cat, t: Cat, d: char)
    requires Follow(t, d) && forall c | First(t, c) || (Nullable(t) && c == d) :: Follow(s, c)
    ensures Followed([s, t], d)
  {
    FollowedOne(t, d);
    forall c | Begins([t], c, d) ensures Follow(s, c) {
      BeginsOne(t, c, d);
    }
    FollowedCons(s, [t], d);
    assert [s] + [t] == [s, t];
  }

  /** The follow sets are closed under the productions. */
  lemma BodyFollowed(nt: Nonterminal, k: nat, d: char)
    requires k < |Productions(false, nt)| && Follow(N(nt), d)
    ensures Followed(Productions(false, nt)[k], d)
  {
    var body := Productions(false, nt)[k];
    if |body| == 1 {
      FollowedOne(body[0], d);
      assert body == [body[0]];
    } else if |body| == 2 {
      FollowedTwo(body[0], body[1], d);
      assert body == [body[0], body[1]];
    } else {
      LongBodyFollowed(nt, k, d);
    }
  }

  lemma FollowedThree(s: Cat, t: Cat, u: Cat, d: char)
    requires Follow(u, d) && forall c | First(u, c) || (Nullable(u) && c == d) :: Follow(t, c)
    requires !Nullable(t) && forall c | First(t, c) :: Follow(s, c)
    ensures Followed([s, t, u], d)
  {
    FollowedTwo(t, u, d);
    var rest := [t, u];
    forall c | Begins(rest, c, d) ensures Follow(s, c) {}
    FollowedCons(s, rest, d);
    assert [s] + rest == [s, t, u];
  }

  lemma LongBodyFollowed(nt: Nonterminal, k: nat, d: char)
    requires k < |Productions(false, nt)| && Follow(N(nt), d) && |Productions(false, nt)[k]| > 2
    ensures Followed(Productions(false, nt)[k], d)
  {
    var body := Productions(false, nt)[k];
    if nt == Paramlist {
      ParamlistFollowed(d);
      assert body == [T('('), N(Expression), N(Ptail), T(')')];
    } else {
      FollowedThree(body[0], body[1], body[2], d);
      assert body == [body[0], body[1], body[2]];
    }
  }

  lemma ParamlistFollowed(d: char)
    ensures Followed([T('('), N(Expression), N(Ptail), T(')')], d)
  {
    FollowedTwo(N(Ptail), T(')'), d);
    var rest := [N(Ptail), T(')')];
    forall c | Begins(rest, c, d) ensures Follow(N(Expression), c) {
      assert rest[1..] == [T(')')];
      BeginsOne(T(')'), c, d);
    }
    FollowedCons(N(Expression), rest, d);
    FollowedCons(T('('), [N(Expression)] + rest, d);
    assert [T('(')] + ([N(Expression)] + rest) == [T('('), N(Expression), N(Ptail), T(')')];
  }

  /** Every tree of the grammar is found, so at most one tree has a given text. */
  lemma {:induction false} ParseComplete(f: Forest, syms: seq<Cat>, inp: string, i: nat)
    requires Conforms(false, f, syms) && i + |Texts(f)| <= |inp| && inp[i..i + |Texts(f)|] == Texts(f)
    requires Followed(syms, LookAhead(inp, i + |Texts(f)|))
    ensures Parse(false, syms, inp, i) == Accept(f, i + |Texts(f)|)
    decreases f, 1
  {
    if f.Cons? {
      HeadComplete(f, syms, inp, i);
      TailComplete(f, syms, inp, i);
      ParseParts(syms, inp, i, Ok(f.head, i + |Text(f.head)|), Accept(f.tail, i + |Texts(f)|));
    }
  }

  lemma ParseParts(syms: seq<Cat>, inp: string, i: nat, first: Single, rest: Outcome)
    requires syms != [] && i <= |inp| && first.Ok? && rest.Accept? && first.next <= |inp|
    requires ParseOne(false, syms[0], inp, i) == first && Parse(false, syms[1..], inp, first.next) == rest
    ensures Parse(false, syms, inp, i) == Accept(Cons(first.tree, rest.forest), rest.next)
  {}

  lemma {:induction false} TailComplete(f: Forest, syms: seq<Cat>, inp: string, i: nat)
    requires f.Cons? && Conforms(false, f, syms) && i + |Texts(f)| <= |inp| && inp[i..i + |Texts(f)|] == Texts(f)
    requires Followed(syms, LookAhead(inp, i + |Texts(f)|))
    ensures i + |Text(f.head)| <= |inp|
    ensures Parse(false, syms[1..], inp, i + |Text(f.head)|) == Accept(f.tail, i + |Texts(f)|)
    decreases f, 0
  {
    var m, rest := i + |Text(f.head)|, syms[1..];
    TextSplit(inp, i, Text(f.head), Texts(f.tail));
    assert m + |Texts(f.tail)| == i + |Texts(f)|;
    assert Followed(rest, LookAhead(inp, m + |Texts(f.tail)|));
    assert Conforms(false, f.tail, rest);
    ParseComplete(f.tail, rest, inp, m);
  }

  lemma {:induction false} HeadComplete(f: Forest, syms: seq<Cat>, inp: string, i: nat)
    requires f.Cons? && Conforms(false, f, syms) && i + |Texts(f)| <= |inp| && inp[i..i + |Texts(f)|] == Texts(f)
    requires Followed(syms, LookAhead(inp, i + |Texts(f)|))
    ensures ParseOne(false, syms[0], inp, i) == Ok(f.head, i + |Text(f.head)|)
    decreases f, 0
  {
    var t, s, m := f.head, syms[0], i + |Text(f.head)|;
    HeadFollow(f, syms, inp, i);
    TextSplit(inp, i, Text(t), Texts(f.tail));
    assert ConformsTo(false, t, s) && m <= |inp| && inp[i..m] == Text(t) && Follow(s, LookAhead(inp, m));
    ParseOneComplete(t, s, inp, i);
  }

  lemma HeadFollow(f: Forest, syms: seq<Cat>, inp: string, i: nat)
    requires f.Cons? && Conforms(false, f, syms) && i + |Texts(f)| <= |inp| && inp[i..i + |Texts(f)|] == Texts(f)
    requires Followed(syms, LookAhead(inp, i + |Texts(f)|))
    ensures Follow(syms[0], LookAhead(inp, i + |Text(f.head)|))
  {
    var m := i + |Text(f.head)|;
    TextSplit(inp, i, Text(f.head), Texts(f.tail));
    AheadOf(f.tail, syms[1..], inp, m);
    FollowStep(syms, LookAhead(inp, m), LookAhead(inp, i + |Texts(f)|));
  }

  lemma FollowStep(syms: seq<Cat>, c: char, d: char)
    requires syms != [] && Followed(syms, d) && Begins(syms[1..], c, d)
    ensures Follow(syms[0], c) && Followed(syms[1..], d)
  {}

  lemma TextSplit(inp: string, i: nat, a: string, b: string)
    requires i + |a + b| <= |inp| && inp[i..i + |a + b|] == a + b
    ensures inp[i..i + |a|] == a && inp[i + |a|..i + |a| + |b|] == b
  {
    var s := inp[i..i + |a + b|];
    assert inp[i..i + |a|] == s[..|a|] == a;
    assert inp[i + |a|..i + |a| + |b|] == s[|a|..] == b;
  }

  lemma AheadOf(f: Forest, syms: seq<Cat>, inp: string, i: nat)
    requires Conforms(false, f, syms) && i + |Texts(f)| <= |inp| && inp[i..i + |Texts(f)|] == Texts(f)
    ensures Begins(syms, LookAhead(inp, i), LookAhead(inp, i + |Texts(f)|))
  {
    FirstOfForest(f, syms, LookAhead(inp, i + |Texts(f)|));
    assert Texts(f) != "" ==> Texts(f)[0] == inp[i];
  }

  lemma {:induction false} ParseOneComplete(t: Tree, s: Cat, inp: string, i: nat)
    requires ConformsTo(false, t, s) && i + |Text(t)| <= |inp| && inp[i..i + |Text(t)|] == Text(t)
    requires Follow(s, LookAhead(inp, i + |Text(t)|))
    ensures ParseOne(false, s, inp, i) == Ok(t, i + |Text(t)|)
    decreases t, 0
  {
    var j := i + |Text(t)|;
    if s.N? {
      var k :| 0 <= k < |Productions(false, s.nt)| && Conforms(false, t.kids, Productions(false, s.nt)[k]);
      var d := LookAhead(inp, j);
      AheadOf(t.kids, Productions(false, s.nt)[k], inp, i);
      TableDecides(s.nt, k, LookAhead(inp, i), d);
      BodyFollowed(s.nt, k, d);
      ParseComplete(t.kids, Productions(false, s.nt)[k], inp, i);
    } else if !s.Empty? {
      assert Text(t) == [t.cat.c];
      assert inp[i] == inp[i..j][0];
    }
  }
}
