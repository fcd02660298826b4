/**
  Grammar symbols and the two tree forms of the expression parsers: nodes with child lists,
  and left-child right-sibling nodes.
  */
module ParseTree {
  datatype Nonterminal =
    | Expression | Etail | Group | Gtail | Factor | Number | Ntail | Digit
    | Str | Stail | Char | Function | Paramlist | Ptail

  /** A category string: `<...>`, a terminal (with `$` once it was read from the input), one
      of the classes `$d` and `$c`, or the empty string. */
  datatype Cat = N(nt: Nonterminal) | Term(c: char, marked: bool) | AnyDigit | AnyLetter | Empty

  datatype Tree = Node(cat: Cat, kids: Forest)
  datatype Forest = Nil | Cons(head: Tree, tail: Forest)

  /** `Parse_Node`, with `Null` for the null pointer. */
  datatype Linked = Null | PNode(cat: Cat, child: Linked, sibling: Linked)

  predicate IsDigit(c: char) {
    '0' <= c <= '9'
  }

  predicate IsLetter(c: char) {
    'a' <= c <= 'z'
  }

  function Leaf(c: Cat): Tree {
    Node(c, Nil)
  }

  function Leaves(cats: seq<Cat>): Forest {
    if cats == [] then Nil else Cons(Leaf(cats[0]), Leaves(cats[1..]))
  }

  function Concat(f: Forest, g: Forest): Forest {
    match f
    case Nil => g
    case Cons(t, rest) => Cons(t, Concat(rest, g))
  }

  lemma ConcatNil(f: Forest)
    ensures Concat(f, Nil) == f
  {}

  lemma ConcatAssoc(f: Forest, g: Forest, h: Forest)
    ensures Concat(Concat(f, g), h) == Concat(f, Concat(g, h))
  {}

  /** The characters of the input that a tree covers. */
  function Text(t: Tree): string {
    (if t.cat.Term? then [t.cat.c] else "") + Texts(t.kids)
  }

  function Texts(f: Forest): string {
    match f
    case Nil => ""
    case Cons(t, rest) => Text(t) + Texts(rest)
  }

  // ---- child lists to left-child right-sibling form, and trimming ------------------------

  /** `create_Tree_At_Point` on a node and the siblings to its right. */
  function Link(f: Forest): Linked {
    match f
    case Nil => Null
    case Cons(t, rest) => PNode(t.cat, Link(t.kids), Link(rest))
  }

  predicate PointsToEmpty(n: Linked) {
    n.PNode? && n.child.PNode? && n.child.cat == Empty
  }

  /** `trim_Parse_Tree`; the right sibling is examined once, even if another one takes its
      place. */
  function Trim(n: Linked): Linked
    decreases n
  {
    match n
    case Null => Null
    case PNode(c, child, sibling) =>
      if PointsToEmpty(sibling) then PNode(c, Trim(child), Trim(sibling.sibling))
      else PNode(c, Trim(child), Trim(sibling))
  }

  /** The tree with every mark removed. */
  function Unmark(n: Linked): Linked {
    match n
    case Null => Null
    case PNode(c, child, sibling) => PNode(if c.Term? then Term(c.c, false) else c, Unmark(child), Unmark(sibling))
  }

  predicate StandsForEmpty(t: Tree) {
    t.kids.Cons? && t.kids.head.cat == Empty
  }

  /** The trees with every part that stands for the empty string left out; terminals are
      marked, all of them or digits and letters only. */
  function Prune(f: Forest, all: bool): Forest {
    match f
    case Nil => Nil
    case Cons(t, rest) =>
      if StandsForEmpty(t) then Prune(rest, all)
      else Cons(Node(Remark(t.cat, all), Prune(t.kids, all)), Prune(rest, all))
  }

  function Remark(c: Cat, all: bool): Cat {
    if c.Term? then Term(c.c, all || IsDigit(c.c) || IsLetter(c.c)) else c
  }

  lemma PruneConcat(f: Forest, g: Forest, all: bool)
    ensures Prune(Concat(f, g), all) == Concat(Prune(f, all), Prune(g, all))
  {}

  /** Marks do not change the tree. */
  lemma {:induction false} PruneMarks(f: Forest)
    ensures Unmark(Link(Prune(f, true))) == Unmark(Link(Prune(f, false)))
  {
    if f.Cons? {
      PruneMarks(f.tail);
      PruneMarks(f.head.kids);
    }
  }
}
