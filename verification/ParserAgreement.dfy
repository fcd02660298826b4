/** What the two parsers accept, and that they build the same tree. */
module ParserAgreement {
  import opened ParseTree
  import opened Grammar

  /** The whole input is one expression. */
  ghost predicate Accepts(lenient: bool, inp: string) {
    var r := Parse(lenient, [N(Expression)], inp, 0);
    r.Accept? && r.next == |inp|
  }

  // ---- the language ----------------------------------------------------------------------

  ghost predicate Derives(t: Tree, inp: string) {
    ConformsTo(false, t, N(Expression)) && Text(t) == inp
  }

  /** The table parser accepts exactly the texts of the grammar's trees, and its tree is the
      only one with that text. */
  lemma AcceptsIffDerives(inp: string)
    requires CString(inp)
    ensures Accepts(false, inp) <==> exists t :: Derives(t, inp)
    ensures forall t | Derives(t, inp) :: Parse(false, [N(Expression)], inp, 0) == Accept(Cons(t, Nil), |inp|)
  {
    forall t | Derives(t, inp) ensures Parse(false, [N(Expression)], inp, 0) == Accept(Cons(t, Nil), |inp|) {
      var f := Cons(t, Nil);
      assert [N(Expression)][1..] == [];
      assert Texts(f) == Text(t) + Texts(Nil) == inp && inp[0..|inp|] == inp;
      FollowedOne(N(Expression), LookAhead(inp, |inp|));
      ParseComplete(f, [N(Expression)], inp, 0);
    }
    if Accepts(false, inp) {
      ParseSound(false, [N(Expression)], inp, 0);
      var f := Parse(false, [N(Expression)], inp, 0).forest;
      assert [N(Expression)][1..] == [];
      assert f.tail == Nil && Texts(f) == Text(f.head) + Texts(Nil) == inp;
      assert Derives(f.head, inp);
    }
  }

  // ---- trimming --------------------------------------------------------------------------

  predicate MayBeEmpty(s: Cat) {
    s.N? && Nullable(s)
  }

  ghost predicate Spaced(syms: seq<Cat>) {
    forall k | 0 < k < |syms| :: !(MayBeEmpty(syms[k - 1]) && MayBeEmpty(syms[k]))
  }

  lemma EmptyCat(t: Tree, s: Cat)
    requires ConformsTo(false, t, s)
    ensures t.cat == Empty <==> s == Empty
  {}

  /** Only the symbols with an empty production stand for the empty string. */
  lemma EmptyIsNullable(t: Tree, s: Cat)
    requires ConformsTo(false, t, s) && !MayBeEmpty(s)
    ensures !StandsForEmpty(t)
  {
    if s.N? {
      var k :| 0 <= k < |Productions(false, s.nt)| && Conforms(false, t.kids, Productions(false, s.nt)[k]);
      var body := Productions(false, s.nt)[k];
      assert body[0] != Empty;
      EmptyCat(t.kids.head, body[0]);
    }
  }

  lemma KidsTrimmable(t: Tree, s: Cat) returns (body: seq<Cat>)
    requires ConformsTo(false, t, s) && !StandsForEmpty(t)
    ensures Conforms(false, t.kids, body) && Spaced(body) && (t.kids.Cons? ==> !StandsForEmpty(t.kids.head))
    ensures Remark(t.cat, true) == t.cat
  {
    body := [];
    if s.N? {
      var k :| 0 <= k < |Productions(false, s.nt)| && Conforms(false, t.kids, Productions(false, s.nt)[k]);
      body := Productions(false, s.nt)[k];
      assert body[0] == Empty || !MayBeEmpty(body[0]);
      EmptyCat(t.kids.head, body[0]);
      EmptyIsNullable(t.kids.head, body[0]);
    }
  }

  /** Although it looks at each right sibling once, trimming removes every empty part of a
      tree of the grammar. */
  lemma {:induction false} TrimRemovesAll(f: Forest, syms: seq<Cat>)
    requires Conforms(false, f, syms) && Spaced(syms) && (f.Cons? ==> !StandsForEmpty(f.head))
    ensures Trim(Link(f)) == Link(Prune(f, true))
    decreases f
  {
    if f.Cons? {
      var body := KidsTrimmable(f.head, syms[0]);
      TrimRemovesAll(f.head.kids, body);
      var rest := f.tail;
      if rest.Cons? && StandsForEmpty(rest.head) {
        assert Conforms(false, rest, syms[1..]);
        assert syms[1..][1..] == syms[2..] && Conforms(false, rest.tail, syms[2..]);
        if !MayBeEmpty(syms[1]) {
          EmptyIsNullable(rest.head, syms[1]);
        }
        if rest.tail.Cons? {
          EmptyIsNullable(rest.tail.head, syms[2]);
        }
        TrimRemovesAll(rest.tail, syms[2..]);
        assert PointsToEmpty(Link(rest)) && Link(rest).sibling == Link(rest.tail);
        assert Prune(rest, true) == Prune(rest.tail, true);
      } else {
        TrimRemovesAll(rest, syms[1..]);
      }
    }
  }

  // ---- the lenient parser on the grammar's own texts --------------------------------------

  /** Whatever the table accepts, the recursive functions accept with the same tree. */
  lemma {:induction false} LenientExtends(syms: seq<Cat>, inp: string, i: nat)
    requires i <= |inp| && Parse(false, syms, inp, i).Accept?
    ensures Parse(true, syms, inp, i) == Parse(false, syms, inp, i)
    decreases |inp| - i, Pending(syms), 1
  {
    if syms != [] {
      LenientExtendsOne(syms[0], inp, i);
      LenientExtends(syms[1..], inp, ParseOne(false, syms[0], inp, i).next);
    }
  }

  lemma {:induction false} LenientExtendsOne(s: Cat, inp: string, i: nat)
    requires i <= |inp| && ParseOne(false, s, inp, i).Ok?
    ensures ParseOne(true, s, inp, i) == ParseOne(false, s, inp, i)
    decreases |inp| - i, Weight(s), 0
  {
    if s.N? {
      var c := LookAhead(inp, i);
      PendingBody(false, s.nt, c);
      assert Choose(true, s.nt, c) == Choose(false, s.nt, c);
      LenientExtends(Choose(false, s.nt, c).value, inp, i);
    }
  }

  /** No `<factor>` without children. */
  ghost predicate Full(f: Forest) {
    f.Cons? ==> FullTree(f.head) && Full(f.tail)
  }

  ghost predicate FullTree(t: Tree) {
    (t.cat == N(Factor) ==> t.kids.Cons?) && Full(t.kids)
  }

  lemma {:induction false} FullConforms(f: Forest, syms: seq<Cat>)
    requires Conforms(true, f, syms) && Full(f)
    ensures Conforms(false, f, syms)
    decreases f
  {
    if f.Cons? {
      FullConformsTo(f.head, syms[0]);
      FullConforms(f.tail, syms[1..]);
    }
  }

  lemma {:induction false} FullConformsTo(t: Tree, s: Cat)
    requires ConformsTo(true, t, s) && FullTree(t)
    ensures ConformsTo(false, t, s)
    decreases t
  {
    if s.N? {
      var k :| 0 <= k < |Productions(true, s.nt)| && Conforms(true, t.kids, Productions(true, s.nt)[k]);
      FullConforms(t.kids, Productions(true, s.nt)[k]);
      assert Productions(true, s.nt)[k] == Productions(false, s.nt)[k];
    }
  }

  lemma {:induction false} ConformsFull(f: Forest, syms: seq<Cat>)
    requires Conforms(false, f, syms)
    ensures Full(f)
    decreases f
  {
    if f.Cons? {
      ConformsFullTree(f.head, syms[0]);
      ConformsFull(f.tail, syms[1..]);
    }
  }

  lemma {:induction false} ConformsFullTree(t: Tree, s: Cat)
    requires ConformsTo(false, t, s)
    ensures FullTree(t)
    decreases t
  {
    if s.N? {
      var k :| 0 <= k < |Productions(false, s.nt)| && Conforms(false, t.kids, Productions(false, s.nt)[k]);
      ConformsFull(t.kids, Productions(false, s.nt)[k]);
    }
  }

  /** The table accepts an input exactly if the recursive parser's tree is full. */
  lemma TableIffFull(inp: string)
    requires CString(inp)
    ensures Accepts(false, inp) <==> Accepts(true, inp) && Full(Parse(true, [N(Expression)], inp, 0).forest)
    ensures Accepts(false, inp) ==> Parse(true, [N(Expression)], inp, 0) == Parse(false, [N(Expression)], inp, 0)
  {
    if Accepts(false, inp) {
      LenientExtends([N(Expression)], inp, 0);
      ParseSound(false, [N(Expression)], inp, 0);
      ConformsFull(Parse(false, [N(Expression)], inp, 0).forest, [N(Expression)]);
    }
    var r := Parse(true, [N(Expression)], inp, 0);
    if Accepts(true, inp) && Full(r.forest) {
      ParseSound(true, [N(Expression)], inp, 0);
      FullConforms(r.forest, [N(Expression)]);
      assert [N(Expression)][1..] == [];
      assert Texts(r.forest) == Text(r.forest.head) + Texts(Nil) == inp[0..|inp|] == inp;
      assert Derives(r.forest.head, inp);
      AcceptsIffDerives(inp);
    }
  }

  /** Both parsers build the same tree, up to the marks on terminals. */
  lemma SameTree(inp: string)
    requires CString(inp) && Accepts(false, inp)
    ensures Accepts(true, inp)
    ensures var table, descent := Parse(false, [N(Expression)], inp, 0), Parse(true, [N(Expression)], inp, 0);
            && Trim(Link(table.forest)) == Link(Prune(table.forest, true))
            && Unmark(Trim(Link(table.forest))) == Unmark(Link(Prune(descent.forest, false)))
  {
    LenientExtends([N(Expression)], inp, 0);
    ParseSound(false, [N(Expression)], inp, 0);
    var f := Parse(false, [N(Expression)], inp, 0).forest;
    EmptyIsNullable(f.head, N(Expression));
    TrimRemovesAll(f, [N(Expression)]);
    PruneMarks(f);
  }

  // ---- exactly when they differ ----------------------------------------------------------

  predicate Opens(c: char) {
    c in {'+', '-', '*', '/', '(', ','}
  }

  /** At the start and behind every operator, opening parenthesis and comma, something stands
      that can begin a factor, unless the input ends there. */
  predicate NoGap(inp: string) {
    forall i | 0 <= i < |inp| && ExpectsFactor(inp, i) :: FactorStart(inp[i])
  }

  predicate ExpectsFactor(inp: string, i: nat)
    requires i <= |inp|
  {
    i == 0 || Opens(inp[i - 1])
  }

  predicate NeedsStart(s: Cat) {
    s.N? && s.nt in {Expression, Group, Factor}
  }

  ghost predicate Laid(syms: seq<Cat>) {
    && (forall k | 0 < k < |syms| && NeedsStart(syms[k]) :: syms[k - 1].Term? && Opens(syms[k - 1].c))
    && (forall k | 0 <= k < |syms| && syms[k].Term? && Opens(syms[k].c) :: k + 1 < |syms| && NeedsStart(syms[k + 1]))
  }

  lemma LaidTail(syms: seq<Cat>)
    requires syms != [] && Laid(syms)
    ensures Laid(syms[1..])
  {
    var rest := syms[1..];
    forall k | 0 < k < |rest| && NeedsStart(rest[k]) ensures rest[k - 1].Term? && Opens(rest[k - 1].c) {
      assert rest[k] == syms[k + 1];
    }
    forall k | 0 <= k < |rest| && rest[k].Term? && Opens(rest[k].c) ensures k + 1 < |rest| && NeedsStart(rest[k + 1]) {
      assert rest[k] == syms[k + 1];
    }
  }

  lemma BodyLaid(lenient: bool, nt: Nonterminal, k: nat)
    requires k < |Productions(lenient, nt)|
    ensures var body := Productions(lenient, nt)[k];
            Laid(body) && (body != [] && NeedsStart(body[0]) ==> NeedsStart(N(nt)))
  {}

  ghost predicate Started(s: Cat, inp: string, i: nat)
    requires i <= |inp|
  {
    NeedsStart(s) ==> ExpectsFactor(inp, i)
  }

  lemma {:induction false} NoGapFull(syms: seq<Cat>, inp: string, i: nat)
    requires i <= |inp| && CString(inp) && NoGap(inp) && Laid(syms) && (syms != [] ==> Started(syms[0], inp, i))
    requires Parse(true, syms, inp, i).Accept?
    ensures Full(Parse(true, syms, inp, i).forest)
    decreases |inp| - i, Pending(syms), 1
  {
    if syms != [] {
      var first := ParseOne(true, syms[0], inp, i);
      NoGapFullTree(syms[0], inp, i);
      LaidTail(syms);
      if |syms| > 1 && NeedsStart(syms[1]) {
        assert syms[0].Term? && first.next == i + 1 && inp[i] == syms[0].c;
      }
      NoGapFull(syms[1..], inp, first.next);
    }
  }

  lemma StartHere(inp: string, i: nat)
    requires i <= |inp| && NoGap(inp) && Started(N(Factor), inp, i) && Choose(true, Factor, LookAhead(inp, i)).Some?
    ensures FactorStart(LookAhead(inp, i))
  {
    assert NeedsStart(N(Factor)) && Choose(true, Factor, NUL).None?;
  }

  lemma {:induction false} NoGapFullTree(s: Cat, inp: string, i: nat)
    requires i <= |inp| && CString(inp) && NoGap(inp) && Started(s, inp, i)
    requires ParseOne(true, s, inp, i).Ok?
    ensures FullTree(ParseOne(true, s, inp, i).tree)
    decreases |inp| - i, Weight(s), 0
  {
    if s.N? {
      var c := LookAhead(inp, i);
      PendingBody(true, s.nt, c);
      ChooseIsProduction(true, s.nt, c);
      var k :| 0 <= k < |Productions(true, s.nt)| && Productions(true, s.nt)[k] == Choose(true, s.nt, c).value;
      BodyLaid(true, s.nt, k);
      if s.nt == Factor {
        StartHere(inp, i);
      }
      assert s.nt == Factor ==> Parse(true, Choose(true, s.nt, c).value, inp, i).forest.Cons?;
      NoGapFull(Choose(true, s.nt, c).value, inp, i);
    }
  }

  ghost predicate Dense(s: string) {
    forall p | 0 < p < |s| && Opens(s[p - 1]) :: FactorStart(s[p])
  }

  lemma DenseConcat(a: string, b: string)
    requires Dense(a) && Dense(b) && (a != "" && b != "" && Opens(a[|a| - 1]) ==> FactorStart(b[0]))
    ensures Dense(a + b)
  {}

  ghost predicate Closed(s: string) {
    s != "" ==> !Opens(s[|s| - 1])
  }

  lemma {:induction false} TextsDense(f: Forest, syms: seq<Cat>)
    requires Conforms(false, f, syms) && Laid(syms)
    ensures Dense(Texts(f)) && Closed(Texts(f))
    decreases f
  {
    if f.Cons? {
      TextDense(f.head, syms[0]);
      LaidTail(syms);
      TextsDense(f.tail, syms[1..]);
      if syms[0].Term? && Opens(syms[0].c) {
        FirstOfTree(f.tail.head, syms[1]);
      }
      DenseConcat(Text(f.head), Texts(f.tail));
    }
  }

  lemma {:induction false} TextDense(t: Tree, s: Cat)
    requires ConformsTo(false, t, s)
    ensures Dense(Text(t)) && (Closed(Text(t)) || (s.Term? && Opens(s.c)))
    decreases t
  {
    if s.N? {
      var k :| 0 <= k < |Productions(false, s.nt)| && Conforms(false, t.kids, Productions(false, s.nt)[k]);
      BodyLaid(false, s.nt, k);
      TextsDense(t.kids, Productions(false, s.nt)[k]);
    }
  }

  /** The parsers accept the same inputs except those with a gap, which only the recursive
      parser may accept. */
  lemma TableIffNoGap(inp: string)
    requires CString(inp)
    ensures Accepts(false, inp) <==> Accepts(true, inp) && NoGap(inp)
  {
    TableIffFull(inp);
    if Accepts(true, inp) && NoGap(inp) {
      NoGapFull([N(Expression)], inp, 0);
    }
    if Accepts(false, inp) {
      AcceptsIffDerives(inp);
      var t :| Derives(t, inp);
      TextDense(t, N(Expression));
      FirstOfTree(t, N(Expression));
    }
  }
}
