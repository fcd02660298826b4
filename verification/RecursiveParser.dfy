/** The recursive-descent parser: functions that move the look-ahead and append themselves to
    their parent node. */
module RecursiveParser {
  import opened Options
  import opened ParseTree
  import opened Grammar

  /** `add_Child_To_Extended_Node` for each tree of `f`. */
  function Adopt(parent: Tree, f: Forest): Tree {
    Node(parent.cat, Concat(parent.kids, f))
  }

  function Pruned(t: Tree): Forest {
    Prune(Cons(t, Nil), false)
  }

  function AddLeaf(parent: Tree, c: Cat): Tree {
    Adopt(parent, Cons(Leaf(c), Nil))
  }

  // ---- a nonterminal by its chosen production --------------------------------------------

  /** A node and what its children were pruned to, grown child by child. */
  function Grown(nt: Nonterminal, f: Forest): Tree {
    Node(N(nt), Prune(f, false))
  }

  lemma Grow(nt: Nonterminal, f: Forest, t: Tree)
    ensures Adopt(Grown(nt, f), Pruned(t)) == Grown(nt, Concat(f, Cons(t, Nil)))
  {
    PruneConcat(f, Cons(t, Nil), false);
  }

  lemma ParsedCat(lenient: bool, s: Cat, inp: string, i: nat)
    requires i <= |inp| && ParseOne(lenient, s, inp, i).Ok?
    ensures !s.Empty? <==> !ParseOne(lenient, s, inp, i).tree.cat.Empty?
  {}

  lemma ParseSingle(a: Cat, inp: string, i: nat)
    requires i <= |inp|
    ensures Parse(true, [a], inp, i) ==
            var x := ParseOne(true, a, inp, i);
            if x.Fail? then Reject else Accept(Cons(x.tree, Nil), x.next)
  {
    assert [a] == [a] + [];
    ParseCons(true, a, [], inp, i);
  }

  lemma BySingle(nt: Nonterminal, a: Cat, inp: string, i: nat)
    requires i <= |inp| && Choose(true, nt, LookAhead(inp, i)) == Some([a])
    ensures var r, x := ParseOne(true, N(nt), inp, i), ParseOne(true, a, inp, i);
            if x.Fail? then r.Fail?
            else
              && r.Ok? && r.next == x.next
              && Pruned(r.tree) == if a.Empty? then Nil else Cons(Adopt(Leaf(N(nt)), Pruned(x.tree)), Nil)
  {
    ByBody(nt, [a], inp, i);
    ParseSingle(a, inp, i);
    var x := ParseOne(true, a, inp, i);
    if x.Ok? {
      ParsedCat(true, a, inp, i);
      GrowOne(nt, x.tree);
    }
  }

  lemma GrowOne(nt: Nonterminal, x: Tree)
    ensures Pruned(Node(N(nt), Cons(x, Nil))) == if x.cat.Empty? then Nil else Cons(Adopt(Leaf(N(nt)), Pruned(x)), Nil)
  {
    if x.cat.Empty? {
      assert StandsForEmpty(Node(N(nt), Cons(x, Nil))) && Prune(Nil, false) == Nil;
    } else {
      Grow(nt, Nil, x);
      PrunedGrown(nt, Cons(x, Nil));
    }
  }

  lemma ByPair(nt: Nonterminal, a: Cat, b: Cat, inp: string, i: nat)
    requires i <= |inp| && Choose(true, nt, LookAhead(inp, i)) == Some([a, b]) && !a.Empty?
    ensures var r, x := ParseOne(true, N(nt), inp, i), ParseOne(true, a, inp, i);
            if x.Fail? then r.Fail?
            else
              var y := ParseOne(true, b, inp, x.next);
              if y.Fail? then r.Fail?
              else
                && r.Ok? && r.next == y.next
                && Pruned(r.tree) == Cons(Adopt(Adopt(Leaf(N(nt)), Pruned(x.tree)), Pruned(y.tree)), Nil)
  {
    ByBody(nt, [a, b], inp, i);
    ParsePair(true, a, b, inp, i);
    var x := ParseOne(true, a, inp, i);
    if x.Ok? {
      ParsedCat(true, a, inp, i);
      var y := ParseOne(true, b, inp, x.next);
      if y.Ok? {
        GrowTwo(nt, x.tree, y.tree);
      }
    }
  }

  lemma GrowTwo(nt: Nonterminal, x: Tree, y: Tree)
    requires !x.cat.Empty?
    ensures Pruned(Node(N(nt), Cons(x, Cons(y, Nil)))) == Cons(Adopt(Adopt(Leaf(N(nt)), Pruned(x)), Pruned(y)), Nil)
  {
    Grow(nt, Nil, x);
    Grow(nt, Cons(x, Nil), y);
    PrunedGrown(nt, Cons(x, Cons(y, Nil)));
  }

  lemma ByThree(nt: Nonterminal, a: Cat, b: Cat, c: Cat, inp: string, i: nat)
    requires i <= |inp| && Choose(true, nt, LookAhead(inp, i)) == Some([a, b, c]) && !a.Empty?
    ensures var r, x := ParseOne(true, N(nt), inp, i), ParseOne(true, a, inp, i);
            if x.Fail? then r.Fail?
            else
              var y := ParseOne(true, b, inp, x.next);
              if y.Fail? then r.Fail?
              else
                var z := ParseOne(true, c, inp, y.next);
                if z.Fail? then r.Fail?
                else
                  && r.Ok? && r.next == z.next
                  && Pruned(r.tree)
                     == Cons(Adopt(Adopt(Adopt(Leaf(N(nt)), Pruned(x.tree)), Pruned(y.tree)), Pruned(z.tree)), Nil)
  {
    ByBody(nt, [a, b, c], inp, i);
    assert [a, b, c] == [a] + [b, c];
    ParseCons(true, a, [b, c], inp, i);
    var x := ParseOne(true, a, inp, i);
    if x.Ok? {
      ParsePair(true, b, c, inp, x.next);
      ParsedCat(true, a, inp, i);
      var y := ParseOne(true, b, inp, x.next);
      if y.Ok? {
        var z := ParseOne(true, c, inp, y.next);
        if z.Ok? {
          GrowThree(nt, x.tree, y.tree, z.tree);
        }
      }
    }
  }

  lemma ByBody(nt: Nonterminal, body: seq<Cat>, inp: string, i: nat)
    requires i <= |inp| && Choose(true, nt, LookAhead(inp, i)) == Some(body)
    ensures ParseOne(true, N(nt), inp, i) ==
            var r := Parse(true, body, inp, i);
            if r.Reject? then Fail else Ok(Node(N(nt), r.forest), r.next)
  {}

  lemma GrowThree(nt: Nonterminal, x: Tree, y: Tree, z: Tree)
    requires !x.cat.Empty?
    ensures Pruned(Node(N(nt), Cons(x, Cons(y, Cons(z, Nil)))))
            == Cons(Adopt(Adopt(Adopt(Leaf(N(nt)), Pruned(x)), Pruned(y)), Pruned(z)), Nil)
  {
    Grow(nt, Nil, x);
    Grow(nt, Cons(x, Nil), y);
    Grow(nt, Cons(x, Cons(y, Nil)), z);
    assert Concat(Cons(y, Nil), Cons(z, Nil)) == Cons(y, Cons(z, Nil));
    PrunedGrown(nt, Cons(x, Cons(y, Cons(z, Nil))));
  }

  lemma PrunedGrown(nt: Nonterminal, f: Forest)
    requires f.Cons? ==> !f.head.cat.Empty?
    ensures Pruned(Node(N(nt), f)) == Cons(Grown(nt, f), Nil)
  {
    var t := Node(N(nt), f);
    assert !StandsForEmpty(t) && Prune(Nil, false) == Nil;
    assert Prune(Cons(t, Nil), false) == Cons(Node(N(nt), Prune(f, false)), Prune(Nil, false));
  }

  lemma ParsePair(lenient: bool, a: Cat, b: Cat, inp: string, i: nat)
    requires i <= |inp|
    ensures Parse(lenient, [a, b], inp, i) ==
            var x := ParseOne(lenient, a, inp, i);
            if x.Fail? then Reject
            else
              var y := ParseOne(lenient, b, inp, x.next);
              if y.Fail? then Reject else Accept(Cons(x.tree, Cons(y.tree, Nil)), y.next)
  {
    assert [a, b] == [a] + [b] && [b] == [b] + [];
    ParseCons(lenient, a, [b], inp, i);
    var x := ParseOne(lenient, a, inp, i);
    if x.Ok? {
      ParseCons(lenient, b, [], inp, x.next);
    }
  }

  /** Where a construct must start with a character, the end of the input rejects it. */
  lemma NothingAtEnd(nt: Nonterminal, inp: string, i: nat)
    requires i <= |inp| && LookAhead(inp, i) == NUL && !Nullable(N(nt))
    ensures ParseOne(true, N(nt), inp, i) == Fail
    decreases Weight(N(nt))
  {
    var body := Choose(true, nt, NUL);
    if body.Some? {
      PendingBody(true, nt, NUL);
      assert body.value[0].N?;
      NothingAtEnd(body.value[0].nt, inp, i);
    }
  }

  class Parser {
    const input: string
    var lookAhead: nat
    var head: Option<Tree>

    constructor (input: string)
      ensures this.input == input && lookAhead == 0
    {
      this.input, lookAhead, head := input, 0, None;
    }

    ghost predicate Ready()
      reads this
    {
      CString(input) && lookAhead <= |input|
    }

    function Ahead(): char
      reads this
    {
      LookAhead(input, lookAhead)
    }

    /** A function for `nt`, called at `start`, succeeded exactly if the lenient parse does;
        it then stands behind the text and has given its parent the pruned tree. */
    ghost predicate Did(nt: Nonterminal, start: nat, parent: Tree, ok: bool, parent': Tree)
      requires start <= |input|
      reads this
    {
      var r := ParseOne(true, N(nt), input, start);
      && Ready() && ok == r.Ok?
      && (ok ==> lookAhead == r.next && parent' == Adopt(parent, Pruned(r.tree)))
    }

    method ExpressionF(parent: Option<Tree>) returns (ok: bool, parent': Option<Tree>)
      requires Ready()
      modifies this
      ensures Ready() && old(lookAhead) <= lookAhead
      ensures ok == ParseOne(true, N(Expression), input, old(lookAhead)).Ok?
      ensures ok ==> var r := ParseOne(true, N(Expression), input, old(lookAhead));
                     && lookAhead == r.next
                     && (parent.Some? ==> parent' == Some(Adopt(parent.value, Pruned(r.tree))))
                     && (parent.None? ==> parent' == None && head.Some? && Pruned(r.tree) == Cons(head.value, Nil))
      decreases |input| - lookAhead, Weight(N(Expression))
    {
      var node := Leaf(N(Expression));
      parent' := parent;
      ghost var start := lookAhead;
      if Ahead() == NUL {
        NothingAtEnd(Expression, input, start);
        return false, parent;
      }
      ByPair(Expression, N(Group), N(Etail), input, start);
      ok, node := GroupF(node);
      if !ok { return; }
      ok, node := EtailF(node);
      if !ok { return; }
      if parent == None {
        head := Some(node);
      } else {
        parent' := Some(Adopt(parent.value, Cons(node, Nil)));
      }
    }

    method EtailF(parent: Tree) returns (ok: bool, parent': Tree)
      requires Ready()
      modifies this
      ensures Did(Etail, old(lookAhead), parent, ok, parent') && old(lookAhead) <= lookAhead
      decreases |input| - lookAhead, Weight(N(Etail))
    {
      ok, parent' := true, parent;
      ghost var start := lookAhead;
      if Ahead() == '+' || Ahead() == '-' {
        var node := Leaf(N(Etail));
        ByPair(Etail, T(Ahead()), N(Expression), input, start);
        node := AddLeaf(node, T(Ahead()));
        lookAhead := lookAhead + 1;
        var node';
        ok, node' := ExpressionF(Some(node));
        if !ok { return; }
        parent' := Adopt(parent, Cons(node'.value, Nil));
      } else {
        BySingle(Etail, Empty, input, start);
        ConcatNil(parent.kids);
      }
    }

    method GroupF(parent: Tree) returns (ok: bool, parent': Tree)
      requires Ready()
      modifies this
      ensures Did(Group, old(lookAhead), parent, ok, parent') && old(lookAhead) <= lookAhead
      decreases |input| - lookAhead, Weight(N(Group))
    {
      var node := Leaf(N(Group));
      parent' := parent;
      ghost var start := lookAhead;
      if Ahead() == NUL {
        NothingAtEnd(Group, input, start);
        return false, parent;
      }
      ByPair(Group, N(Factor), N(Gtail), input, start);
      ok, node := FactorF(node);
      if !ok { return; }
      ok, node := GtailF(node);
      if !ok { return; }
      parent' := Adopt(parent, Cons(node, Nil));
    }

    method GtailF(parent: Tree) returns (ok: bool, parent': Tree)
      requires Ready()
      modifies this
      ensures Did(Gtail, old(lookAhead), parent, ok, parent') && old(lookAhead) <= lookAhead
      decreases |input| - lookAhead, Weight(N(Gtail))
    {
      ok, parent' := true, parent;
      ghost var start := lookAhead;
      if Ahead() == '*' || Ahead() == '/' {
        var node := Leaf(N(Gtail));
        ByPair(Gtail, T(Ahead()), N(Group), input, start);
        node := AddLeaf(node, T(Ahead()));
        lookAhead := lookAhead + 1;
        ok, node := GroupF(node);
        if !ok { return; }
        parent' := Adopt(parent, Cons(node, Nil));
      } else {
        BySingle(Gtail, Empty, input, start);
        ConcatNil(parent.kids);
      }
    }

    method FactorF(parent: Tree) returns (ok: bool, parent': Tree)
      requires Ready()
      modifies this
      ensures Did(Factor, old(lookAhead), parent, ok, parent') && old(lookAhead) <= lookAhead
      decreases |input| - lookAhead, Weight(N(Factor)), 1
    {
      var node := Leaf(N(Factor));
      parent' := parent;
      ghost var start := lookAhead;
      if Ahead() == NUL {
        return false, parent;
      }
      if IsDigit(Ahead()) {
        BySingle(Factor, N(Number), input, start);
        ok, node := NumberF(node);
        if !ok { return; }
      } else if Ahead() == '-' {
        ByPair(Factor, T('-'), N(Factor), input, start);
        node := AddLeaf(node, T('-'));
        lookAhead := lookAhead + 1;
        ok, node := FactorF(node);
        if !ok { return; }
      } else if Ahead() == '(' {
        ok, node := ParenthesesF(node);
        if !ok { return; }
      } else if IsLetter(Ahead()) {
        BySingle(Factor, N(Function), input, start);
        ok, node := FunctionF(node);
        if !ok { return; }
      } else {
        ok := true;
      }
      parent' := Adopt(parent, Cons(node, Nil));
    }

    /** The parenthesized case of `factor`. */
    method ParenthesesF(parent: Tree) returns (ok: bool, node: Tree)
      requires Ready() && Ahead() == '(' && parent == Leaf(N(Factor))
      modifies this
      ensures var r := ParseOne(true, N(Factor), input, old(lookAhead));
              && Ready() && ok == r.Ok? && old(lookAhead) <= lookAhead
              && (ok ==> lookAhead == r.next && Cons(node, Nil) == Pruned(r.tree))
      decreases |input| - lookAhead, Weight(N(Factor)), 0
    {
      ByThree(Factor, T('('), N(Expression), T(')'), input, lookAhead);
      node := AddLeaf(parent, T('('));
      lookAhead := lookAhead + 1;
      var node';
      ok, node' := ExpressionF(Some(node));
      if !ok { return; }
      node := node'.value;
      if Ahead() == ')' {
        node := AddLeaf(node, T(')'));
        lookAhead := lookAhead + 1;
      } else {
        ok := false;
      }
    }

    method NumberF(parent: Tree) returns (ok: bool, parent': Tree)
      requires Ready()
      modifies this
      ensures Did(Number, old(lookAhead), parent, ok, parent') && old(lookAhead) <= lookAhead
      decreases |input| - lookAhead, Weight(N(Number))
    {
      var node := Leaf(N(Number));
      parent' := parent;
      ghost var start := lookAhead;
      if Ahead() == NUL {
        NothingAtEnd(Number, input, start);
        return false, parent;
      }
      ByPair(Number, N(Digit), N(Ntail), input, start);
      ok, node := DigitF(node);
      if !ok { return; }
      ok, node := NtailF(node);
      if !ok { return; }
      parent' := Adopt(parent, Cons(node, Nil));
    }

    method NtailF(parent: Tree) returns (ok: bool, parent': Tree)
      requires Ready()
      modifies this
      ensures Did(Ntail, old(lookAhead), parent, ok, parent') && old(lookAhead) <= lookAhead
      decreases |input| - lookAhead, Weight(N(Ntail))
    {
      ok, parent' := true, parent;
      if IsDigit(Ahead()) {
        BySingle(Ntail, N(Number), input, lookAhead);
        var node := Leaf(N(Ntail));
        ok, node := NumberF(node);
        if !ok { return; }
        parent' := Adopt(parent, Cons(node, Nil));
      } else {
        BySingle(Ntail, Empty, input, lookAhead);
        ConcatNil(parent.kids);
      }
    }

    method DigitF(parent: Tree) returns (ok: bool, parent': Tree)
      requires Ready()
      modifies this
      ensures Did(Digit, old(lookAhead), parent, ok, parent') && old(lookAhead) <= lookAhead
      ensures ok ==> old(lookAhead) < lookAhead
      decreases |input| - lookAhead, Weight(N(Digit))
    {
      var node := Leaf(N(Digit));
      if Ahead() == NUL || !IsDigit(Ahead()) {
        return false, parent;
      }
      BySingle(Digit, AnyDigit, input, lookAhead);
      node := AddLeaf(node, Term(Ahead(), true));
      lookAhead := lookAhead + 1;
      return true, Adopt(parent, Cons(node, Nil));
    }

    method CharF(parent: Tree) returns (ok: bool, parent': Tree)
      requires Ready()
      modifies this
      ensures Did(Char, old(lookAhead), parent, ok, parent') && old(lookAhead) <= lookAhead
      ensures ok ==> old(lookAhead) < lookAhead
      decreases |input| - lookAhead, Weight(N(Char))
    {
      var node := Leaf(N(Char));
      if Ahead() == NUL || !IsLetter(Ahead()) {
        return false, parent;
      }
      BySingle(Char, AnyLetter, input, lookAhead);
      node := AddLeaf(node, Term(Ahead(), true));
      lookAhead := lookAhead + 1;
      return true, Adopt(parent, Cons(node, Nil));
    }

    method StrF(parent: Tree) returns (ok: bool, parent': Tree)
      requires Ready()
      modifies this
      ensures Did(Str, old(lookAhead), parent, ok, parent') && old(lookAhead) <= lookAhead
      decreases |input| - lookAhead, Weight(N(Str))
    {
      var node := Leaf(N(Str));
      parent' := parent;
      ghost var start := lookAhead;
      if Ahead() == NUL {
        NothingAtEnd(Str, input, start);
        return false, parent;
      }
      ByPair(Str, N(Char), N(Stail), input, start);
      ok, node := CharF(node);
      if !ok { return; }
      ok, node := StailF(node);
      if !ok { return; }
      parent' := Adopt(parent, Cons(node, Nil));
    }

    method StailF(parent: Tree) returns (ok: bool, parent': Tree)
      requires Ready()
      modifies this
      ensures Did(Stail, old(lookAhead), parent, ok, parent') && old(lookAhead) <= lookAhead
      decreases |input| - lookAhead, Weight(N(Stail))
    {
      ok, parent' := true, parent;
      if IsLetter(Ahead()) {
        BySingle(Stail, N(Str), input, lookAhead);
        var node := Leaf(N(Stail));
        ok, node := StrF(node);
        if !ok { return; }
        parent' := Adopt(parent, Cons(node, Nil));
      } else {
        BySingle(Stail, Empty, input, lookAhead);
        ConcatNil(parent.kids);
      }
    }

    method FunctionF(parent: Tree) returns (ok: bool, parent': Tree)
      requires Ready()
      modifies this
      ensures Did(Function, old(lookAhead), parent, ok, parent') && old(lookAhead) <= lookAhead
      decreases |input| - lookAhead, Weight(N(Function))
    {
      var node := Leaf(N(Function));
      parent' := parent;
      ghost var start := lookAhead;
      if Ahead() == NUL {
        NothingAtEnd(Function, input, start);
        return false, parent;
      }
      ByPair(Function, N(Str), N(Paramlist), input, start);
      ok, node := StrF(node);
      if !ok { return; }
      ok, node := ParamlistF(node);
      if !ok { return; }
      parent' := Adopt(parent, Cons(node, Nil));
    }

    method ParamlistF(parent: Tree) returns (ok: bool, parent': Tree)
      requires Ready()
      modifies this
      ensures Did(Paramlist, old(lookAhead), parent, ok, parent') && old(lookAhead) <= lookAhead
      decreases |input| - lookAhead, Weight(N(Paramlist))
    {
      var node := Leaf(N(Paramlist));
      parent' := parent;
      ghost var start := lookAhead;
      if Ahead() == NUL || Ahead() != '(' {
        return false, parent;
      }
      ByParamlist(input, start);
      lookAhead := lookAhead + 1;
      node := AddLeaf(node, T('('));
      var node';
      ok, node' := ExpressionF(Some(node));
      if !ok { return; }
      node := node'.value;
      ok, node := PtailF(node);
      if !ok { return; }
      if Ahead() != ')' {
        return false, parent;
      }
      lookAhead := lookAhead + 1;
      node := AddLeaf(node, T(')'));
      parent' := Adopt(parent, Cons(node, Nil));
    }

    method PtailF(parent: Tree) returns (ok: bool, parent': Tree)
      requires Ready()
      modifies this
      ensures Did(Ptail, old(lookAhead), parent, ok, parent') && old(lookAhead) <= lookAhead
      decreases |input| - lookAhead, Weight(N(Ptail))
    {
      ok, parent' := true, parent;
      ghost var start := lookAhead;
      if Ahead() == ',' {
        ByThree(Ptail, T(','), N(Expression), N(Ptail), input, start);
        lookAhead := lookAhead + 1;
        var node := AddLeaf(Leaf(N(Ptail)), T(','));
        var node';
        ok, node' := ExpressionF(Some(node));
        if !ok { return; }
        ok, node := PtailF(node'.value);
        if !ok { return; }
        parent' := Adopt(parent, Cons(node, Nil));
      } else {
        BySingle(Ptail, Empty, input, start);
        ConcatNil(parent.kids);
      }
    }
  }

  lemma GrowParamlist(e: Tree, p: Tree)
    ensures Pruned(Node(N(Paramlist), Cons(Leaf(Term('(', true)), Cons(e, Cons(p, Cons(Leaf(Term(')', true)), Nil))))))
            == Cons(AddLeaf(Adopt(Adopt(AddLeaf(Leaf(N(Paramlist)), T('(')), Pruned(e)), Pruned(p)), T(')')), Nil)
  {
    var open, close := Leaf(Term('(', true)), Leaf(Term(')', true));
    assert Pruned(open) == Cons(Leaf(T('(')), Nil) && Pruned(close) == Cons(Leaf(T(')')), Nil);
    GrowThree(Paramlist, open, e, p);
    Grow(Paramlist, Cons(open, Cons(e, Cons(p, Nil))), close);
    assert Concat(Cons(p, Nil), Cons(close, Nil)) == Cons(p, Cons(close, Nil));
    assert Concat(Cons(e, Cons(p, Nil)), Cons(close, Nil)) == Cons(e, Cons(p, Cons(close, Nil)));
    PrunedGrown(Paramlist, Cons(open, Cons(e, Cons(p, Nil))));
    PrunedGrown(Paramlist, Cons(open, Cons(e, Cons(p, Cons(close, Nil)))));
  }

  lemma ByParamlist(inp: string, i: nat)
    requires i < |inp| && inp[i] == '('
    ensures var r, e := ParseOne(true, N(Paramlist), inp, i), ParseOne(true, N(Expression), inp, i + 1);
            if e.Fail? then r.Fail?
            else
              var p := ParseOne(true, N(Ptail), inp, e.next);
              if p.Fail? || LookAhead(inp, p.next) != ')' then r.Fail?
              else
                && r.Ok? && r.next == p.next + 1
                && var start := AddLeaf(Leaf(N(Paramlist)), T('('));
                   Pruned(r.tree)
                   == Cons(AddLeaf(Adopt(Adopt(start, Pruned(e.tree)), Pruned(p.tree)), T(')')), Nil)
  {
    ByBody(Paramlist, [T('('), N(Expression), N(Ptail), T(')')], inp, i);
    assert [T('('), N(Expression), N(Ptail), T(')')] == [T('('), N(Expression)] + [N(Ptail), T(')')];
    ParseConcat(true, [T('('), N(Expression)], [N(Ptail), T(')')], inp, i);
    ParsePair(true, T('('), N(Expression), inp, i);
    var e := ParseOne(true, N(Expression), inp, i + 1);
    if e.Ok? {
      ParsePair(true, N(Ptail), T(')'), inp, e.next);
      var p := ParseOne(true, N(Ptail), inp, e.next);
      if p.Ok? && LookAhead(inp, p.next) == ')' {
        GrowParamlist(e.tree, p.tree);
      }
    }
  }

  lemma ParseStart(lenient: bool, inp: string)
    ensures Parse(lenient, [N(Expression)], inp, 0) ==
            var x := ParseOne(lenient, N(Expression), inp, 0);
            if x.Fail? then Reject else Accept(Cons(x.tree, Nil), x.next)
  {
    assert [N(Expression)] == [N(Expression)] + [];
    ParseCons(lenient, N(Expression), [], inp, 0);
  }

  /** `run_Recursive_Parser`. */
  method RunRecursiveParser(input: string) returns (r: Option<Linked>)
    requires CString(input)
    ensures var p := Parse(true, [N(Expression)], input, 0);
            r == if p.Accept? && p.next == |input| then Some(Link(Prune(p.forest, false))) else None
  {
    var parser := new Parser(input);
    ParseStart(true, input);
    var ok, _ := parser.ExpressionF(None);
    r := None;
    if ok {
      r := Some(Link(Cons(parser.head.value, Nil)));
    }
    if parser.Ahead() != NUL {
      return None;
    }
  }
}
