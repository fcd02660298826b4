/** The table-driven parser: a stack of symbols and a tree whose unexpanded leaves mirror it. */
module TableParser {
  import opened Options
  import opened ParseTree
  import opened Grammar

  /** A node reached from a root: the `k`-th child, and on from there. */
  datatype Path = Here | Child(k: nat, below: Path)

  /** `find_Parent`: the leftmost childless node of a category. */
  function FindParent(t: Tree, c: Cat): Option<Path> {
    if t.kids.Nil? && t.cat == c then Some(Here) else FindIn(t.kids, c)
  }

  function FindIn(f: Forest, c: Cat): Option<Path> {
    match f
    case Nil => None
    case Cons(t, rest) =>
      match FindParent(t, c)
      case Some(p) => Some(Child(0, p))
      case None =>
        match FindIn(rest, c)
        case Some(Child(k, p)) => Some(Child(k + 1, p))
        case _ => None
  }

  /** The tree after the node at a path was changed to `u`. */
  function Put(t: Tree, p: Path, u: Tree): Tree {
    match p
    case Here => u
    case Child(k, below) => Node(t.cat, PutIn(t.kids, k, below, u))
  }

  function PutIn(f: Forest, k: nat, p: Path, u: Tree): Forest {
    match f
    case Nil => Nil
    case Cons(t, rest) => if k == 0 then Cons(Put(t, p, u), rest) else Cons(t, PutIn(rest, k - 1, p, u))
  }

  /** The node at a path, as long as the path stays inside the tree. */
  function At(t: Tree, p: Path): Tree {
    match p
    case Here => t
    case Child(k, below) => AtIn(t.kids, k, below, t)
  }

  function AtIn(f: Forest, k: nat, p: Path, default: Tree): Tree {
    match f
    case Nil => default
    case Cons(t, rest) => if k == 0 then At(t, p) else AtIn(rest, k - 1, p, default)
  }

  // ---- leaves still to be expanded -------------------------------------------------------

  predicate IsHole(c: Cat) {
    !c.Empty? && (c.Term? ==> !c.marked)
  }

  function Holes(t: Tree): seq<Cat> {
    if t.kids.Nil? then if IsHole(t.cat) then [t.cat] else [] else HolesIn(t.kids)
  }

  function HolesIn(f: Forest): seq<Cat> {
    match f
    case Nil => []
    case Cons(t, rest) => Holes(t) + HolesIn(rest)
  }

  /** Puts the trees of `f` into the holes from left to right; also what is left of `f`. */
  function Fill(t: Tree, f: Forest): (Tree, Forest) {
    if t.kids.Nil? then if IsHole(t.cat) && f.Cons? then (f.head, f.tail) else (t, f)
    else var (kids, rest) := FillIn(t.kids, f); (Node(t.cat, kids), rest)
  }

  function FillIn(g: Forest, f: Forest): (Forest, Forest) {
    match g
    case Nil => (Nil, f)
    case Cons(t, more) =>
      var (t', f') := Fill(t, f);
      var (more', f'') := FillIn(more, f');
      (Cons(t', more'), f'')
  }

  lemma {:induction false} FillNone(t: Tree, f: Forest)
    requires Holes(t) == []
    ensures Fill(t, f) == (t, f)
  {
    if t.kids.Cons? {
      FillNoneIn(t.kids, f);
    }
  }

  lemma {:induction false} FillNoneIn(g: Forest, f: Forest)
    requires HolesIn(g) == []
    ensures FillIn(g, f) == (g, f)
  {
    if g.Cons? {
      FillNone(g.head, f);
      FillNoneIn(g.tail, f);
    }
  }

  lemma {:induction false} NotFound(t: Tree, c: Cat)
    requires Holes(t) == [] && IsHole(c)
    ensures FindParent(t, c) == None
  {
    NotFoundIn(t.kids, c);
  }

  lemma {:induction false} NotFoundIn(f: Forest, c: Cat)
    requires HolesIn(f) == [] && IsHole(c)
    ensures FindIn(f, c) == None
  {
    if f.Cons? {
      NotFound(f.head, c);
      NotFoundIn(f.tail, c);
    }
  }

  /** The node found for the first open category is the leftmost open leaf, and changing it
      opens the holes of the new node in its place. */
  lemma {:induction false} FindsFirstHole(t: Tree, u: Tree)
    requires Holes(t) != []
    ensures var p := FindParent(t, Holes(t)[0]);
            && p.Some? && At(t, p.value) == Leaf(Holes(t)[0])
            && Holes(Put(t, p.value, u)) == Holes(u) + Holes(t)[1..]
    decreases t
  {
    if t.kids.Cons? {
      FindsFirstHoleIn(t.kids, u, t);
    }
  }

  lemma {:induction false} FindsFirstHoleIn(f: Forest, u: Tree, default: Tree)
    requires HolesIn(f) != []
    ensures var p := FindIn(f, HolesIn(f)[0]);
            && p.Some? && p.value.Child?
            && AtIn(f, p.value.k, p.value.below, default) == Leaf(HolesIn(f)[0])
            && HolesIn(PutIn(f, p.value.k, p.value.below, u)) == Holes(u) + HolesIn(f)[1..]
            && PutIn(f, p.value.k, p.value.below, u).Cons?
    decreases f
  {
    var c := HolesIn(f)[0];
    FirstHole(f);
    if Holes(f.head) == [] {
      NotFound(f.head, c);
      FindsFirstHoleIn(f.tail, u, default);
    } else {
      FindsFirstHole(f.head, u);
      assert HolesIn(f)[1..] == Holes(f.head)[1..] + HolesIn(f.tail);
    }
  }

  lemma {:induction false} FirstHole(f: Forest)
    requires HolesIn(f) != []
    ensures f.Cons? && IsHole(HolesIn(f)[0])
    ensures if Holes(f.head) == [] then HolesIn(f) == HolesIn(f.tail) else HolesIn(f)[0] == Holes(f.head)[0]
    decreases f
  {
    if Holes(f.head) == [] {
      FirstHole(f.tail);
    } else if f.head.kids.Cons? {
      FirstHole(f.head.kids);
    }
  }

  /** Filling the changed tree is filling the old one with the new node filled first. */
  lemma {:induction false} FillChanged(t: Tree, u: Tree, f: Forest)
    requires Holes(t) != [] && FindParent(t, Holes(t)[0]).Some?
    ensures var (u', f') := Fill(u, f);
            Fill(Put(t, FindParent(t, Holes(t)[0]).value, u), f) == Fill(t, Cons(u', f'))
    decreases t
  {
    if t.kids.Cons? {
      FindsFirstHoleIn(t.kids, u, t);
      FillChangedIn(t.kids, u, f);
    }
  }

  lemma {:induction false} FillChangedIn(g: Forest, u: Tree, f: Forest)
    requires HolesIn(g) != []
    ensures var p := FindIn(g, HolesIn(g)[0]);
            var (u', f') := Fill(u, f);
            && p.Some? && p.value.Child?
            && FillIn(PutIn(g, p.value.k, p.value.below, u), f) == FillIn(g, Cons(u', f'))
    decreases g
  {
    var (u', f') := Fill(u, f);
    FirstHole(g);
    if Holes(g.head) == [] {
      NotFound(g.head, HolesIn(g)[0]);
      FillNone(g.head, f);
      FillNone(g.head, Cons(u', f'));
      FillChangedIn(g.tail, u, f);
    } else {
      FindsFirstHole(g.head, u);
      FillChanged(g.head, u, f);
    }
  }

  // ---- the stack against the tree --------------------------------------------------------

  /** The stack's symbols without the empty string: what the tree still has open. */
  function Open(stack: seq<Cat>): seq<Cat> {
    if stack == [] then []
    else (if stack[0].Empty? then [] else [stack[0]]) + Open(stack[1..])
  }

  /** The trees parsed for the stack, without those of the empty string. */
  function Solid(f: Forest): Forest {
    match f
    case Nil => Nil
    case Cons(t, rest) => if t.cat.Empty? then Solid(rest) else Cons(t, Solid(rest))
  }

  /** What the parse will give if the rest of the stack is parsed from here. */
  ghost function Resume(root: Tree, stack: seq<Cat>, inp: string, i: nat): Outcome
    requires i <= |inp|
  {
    var r := Parse(false, stack, inp, i);
    if r.Reject? then Reject else Accept(Cons(Fill(root, Solid(r.forest)).0, Nil), r.next)
  }

  ghost predicate Unmarked(stack: seq<Cat>) {
    forall k | 0 <= k < |stack| :: stack[k].Term? ==> !stack[k].marked
  }

  lemma {:induction false} OpenConcat(a: seq<Cat>, b: seq<Cat>)
    ensures Open(a + b) == Open(a) + Open(b)
  {
    if a == [] {
      assert a + b == b;
    } else {
      assert (a + b)[1..] == a[1..] + b;
      OpenConcat(a[1..], b);
    }
  }

  lemma {:induction false} SolidConcat(f: Forest, g: Forest)
    ensures Solid(Concat(f, g)) == Concat(Solid(f), Solid(g))
  {
    if f.Cons? {
      SolidConcat(f.tail, g);
    }
  }

  lemma {:induction false} HolesOfLeaves(cats: seq<Cat>)
    requires Unmarked(cats)
    ensures HolesIn(Leaves(cats)) == Open(cats)
  {
    if cats != [] {
      HolesOfLeaves(cats[1..]);
    }
  }

  /** Fresh children are filled by exactly the trees parsed for them. */
  lemma {:induction false} FillLeaves(cats: seq<Cat>, inp: string, i: nat, g: Forest)
    requires i <= |inp| && Unmarked(cats) && Parse(false, cats, inp, i).Accept?
    ensures var f := Parse(false, cats, inp, i).forest;
            FillIn(Leaves(cats), Concat(Solid(f), g)) == (f, g)
    decreases |cats|
  {
    if cats != [] {
      FillLeaves(cats[1..], inp, ParseOne(false, cats[0], inp, i).next, g);
    }
  }

  /** Expanding the nonterminal on top changes nothing in the outcome. */
  lemma ExpandResumes(root: Tree, nt: Nonterminal, rest: seq<Cat>, inp: string, i: nat)
    requires i <= |inp| && Holes(root) != [] && Holes(root)[0] == N(nt)
    requires FindParent(root, N(nt)).Some?
    ensures var body := Choose(false, nt, LookAhead(inp, i));
            if body.None? then Resume(root, [N(nt)] + rest, inp, i) == Reject
            else
              var expanded := Put(root, FindParent(root, N(nt)).value, Node(N(nt), Leaves(body.value)));
              Resume(expanded, body.value + rest, inp, i) == Resume(root, [N(nt)] + rest, inp, i)
  {
    var body := Choose(false, nt, LookAhead(inp, i));
    ParseCons(false, N(nt), rest, inp, i);
    if body.Some? {
      ParseConcat(false, body.value, rest, inp, i);
      var kids := Parse(false, body.value, inp, i);
      if kids.Accept? {
        var more := Parse(false, rest, inp, kids.next);
        if more.Accept? {
          BodyShape(nt, LookAhead(inp, i));
          FillLeaves(body.value, inp, i, Solid(more.forest));
          SolidConcat(kids.forest, more.forest);
          FillChanged(root, Node(N(nt), Leaves(body.value)), Solid(Concat(kids.forest, more.forest)));
        }
      }
    }
  }

  lemma BodyShape(nt: Nonterminal, c: char)
    requires Choose(false, nt, c).Some?
    ensures Choose(false, nt, c).value != [] && Unmarked(Choose(false, nt, c).value)
  {}

  /** Reading a character into the leftmost open leaf changes nothing in the outcome. */
  lemma MatchResumes(root: Tree, s: Cat, rest: seq<Cat>, inp: string, i: nat)
    requires i < |inp| && Matches(s, inp[i]) && Holes(root) != [] && Holes(root)[0] == s
    requires FindParent(root, s).Some?
    ensures Resume(Put(root, FindParent(root, s).value, Leaf(Term(inp[i], true))), rest, inp, i + 1)
            == Resume(root, [s] + rest, inp, i)
  {
    ParseCons(false, s, rest, inp, i);
    var more := Parse(false, rest, inp, i + 1);
    if more.Accept? {
      FillChanged(root, Leaf(Term(inp[i], true)), Solid(more.forest));
    }
  }

  /** The stack mirrors the open leaves of the tree, and parsing the rest of the stack from
      here gives what parsing the input gives. */
  ghost predicate Consistent(root: Tree, stack: seq<Cat>, inp: string, i: nat) {
    && i <= |inp| && Unmarked(stack) && Holes(root) == Open(stack)
    && Resume(root, stack, inp, i) == Parse(false, [N(Expression)], inp, 0)
  }

  lemma StartConsistent(inp: string)
    ensures Consistent(Leaf(N(Expression)), [N(Expression)], inp, 0)
  {
    assert [N(Expression)][1..] == [];
  }

  lemma EmptyStep(root: Tree, rest: seq<Cat>, inp: string, i: nat)
    requires Consistent(root, [Empty] + rest, inp, i)
    ensures Consistent(root, rest, inp, i)
  {
    var stack := [Empty] + rest;
    assert stack[1..] == rest;
    ParseCons(false, Empty, rest, inp, i);
  }

  lemma TopIsOpen(root: Tree, s: Cat, rest: seq<Cat>, u: Tree)
    requires Holes(root) == Open([s] + rest) && !s.Empty?
    ensures Holes(root) == [s] + Open(rest) && Holes(root)[0] == s
    ensures var p := FindParent(root, s);
            && p.Some? && At(root, p.value) == Leaf(s)
            && Holes(Put(root, p.value, u)) == Holes(u) + Open(rest)
  {
    var stack := [s] + rest;
    assert stack[0] == s && stack[1..] == rest;
    FindsFirstHole(root, u);
  }

  lemma MatchStep(root: Tree, s: Cat, rest: seq<Cat>, inp: string, i: nat)
    requires Consistent(root, [s] + rest, inp, i) && Matches(s, LookAhead(inp, i))
    ensures i < |inp| && var p := FindParent(root, s);
            && p.Some? && At(root, p.value) == Leaf(s)
            && Consistent(Put(root, p.value, Leaf(Term(inp[i], true))), rest, inp, i + 1)
  {
    var stack := [s] + rest;
    assert stack[1..] == rest;
    TopIsOpen(root, s, rest, Leaf(Term(inp[i], true)));
    MatchResumes(root, s, rest, inp, i);
  }

  lemma ExpandStep(root: Tree, nt: Nonterminal, rest: seq<Cat>, inp: string, i: nat)
    requires Consistent(root, [N(nt)] + rest, inp, i) && Choose(false, nt, LookAhead(inp, i)).Some?
    ensures var p, body := FindParent(root, N(nt)), Choose(false, nt, LookAhead(inp, i)).value;
            && p.Some? && At(root, p.value) == Leaf(N(nt))
            && Consistent(Put(root, p.value, Node(N(nt), Leaves(body))), body + rest, inp, i)
  {
    var stack := [N(nt)] + rest;
    assert stack[1..] == rest;
    var body := Choose(false, nt, LookAhead(inp, i)).value;
    TopIsOpen(root, N(nt), rest, Node(N(nt), Leaves(body)));
    ExpandResumes(root, nt, rest, inp, i);
    BodyShape(nt, LookAhead(inp, i));
    HolesOfLeaves(body);
    OpenConcat(body, rest);
  }

  /** Nothing matches the top and no rule applies: the input is not in the language. */
  lemma RejectStep(root: Tree, s: Cat, rest: seq<Cat>, inp: string, i: nat)
    requires Consistent(root, [s] + rest, inp, i) && !s.Empty? && !Matches(s, LookAhead(inp, i))
    requires s.N? ==> Choose(false, s.nt, LookAhead(inp, i)).None?
    ensures Parse(false, [N(Expression)], inp, 0) == Reject
  {
    ParseCons(false, s, rest, inp, i);
  }

  /** `run_Table_Parser`. */
  method RunTableParser(input: string) returns (r: Option<Linked>)
    requires CString(input)
    ensures var p := Parse(false, [N(Expression)], input, 0);
            r == if p.Accept? && p.next == |input| then Some(Trim(Link(p.forest))) else None
  {
    var stack := [N(Expression)];
    var root := Leaf(N(Expression));
    var index, lookAhead := 0, LookAhead(input, 0);
    StartConsistent(input);
    while stack != []
      invariant Consistent(root, stack, input, index) && lookAhead == LookAhead(input, index)
      decreases |input| - index, Pending(stack)
    {
      var current := stack[0];
      var parent := FindParent(root, current);
      assert stack == [current] + stack[1..];
      stack := stack[1..];
      if current.Empty? {
        EmptyStep(root, stack, input, index);
      } else if Matches(current, lookAhead) {
        MatchStep(root, current, stack, input, index);
        root := Put(root, parent.value, Node(Term(lookAhead, true), At(root, parent.value).kids));
        index := index + 1;
        lookAhead := LookAhead(input, index);
      } else if current.N? && Choose(false, current.nt, lookAhead).Some? {
        var body := Choose(false, current.nt, lookAhead).value;
        ExpandStep(root, current.nt, stack, input, index);
        ExpandPending(false, current.nt, lookAhead, stack);
        var kids;
        kids, stack := Expand(At(root, parent.value).kids, stack, body);
        root := Put(root, parent.value, Node(current, kids));
      } else {
        RejectStep(root, current, stack, input, index);
        return None;
      }
    }
    FillNone(root, Nil);
    if lookAhead != NUL {
      return None;
    }
    return Some(Trim(Link(Cons(root, Nil))));
  }

  /** The loop that appends a rule's symbols as children, first to last, and pushes them, last
      to first. */
  method Expand(kids: Forest, stack: seq<Cat>, body: seq<Cat>) returns (kids': Forest, stack': seq<Cat>)
    ensures kids' == Concat(kids, Leaves(body)) && stack' == body + stack
  {
    kids', stack' := kids, stack;
    ConcatNil(kids);
    var size := |body|;
    for i := size downto 0
      invariant kids' == Concat(kids, Leaves(body[..size - i])) && stack' == body[i..] + stack
    {
      LeavesSnoc(body[..size - 1 - i], body[size - 1 - i]);
      assert body[..size - i] == body[..size - 1 - i] + [body[size - 1 - i]];
      ConcatAssoc(kids, Leaves(body[..size - 1 - i]), Cons(Leaf(body[size - 1 - i]), Nil));
      kids' := Concat(kids', Cons(Leaf(body[size - 1 - i]), Nil));
      stack' := [body[i]] + stack';
    }
    assert body[..size] == body;
  }

  lemma {:induction false} LeavesSnoc(cats: seq<Cat>, c: Cat)
    ensures Leaves(cats + [c]) == Concat(Leaves(cats), Cons(Leaf(c), Nil))
  {
    if cats != [] {
      assert (cats + [c])[1..] == cats[1..] + [c];
      LeavesSnoc(cats[1..], c);
    }
  }
}
