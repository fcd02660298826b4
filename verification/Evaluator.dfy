/** `value_Of_Parse_Node`: evaluation of a left-child right-sibling tree. */
module Evaluator {
  import opened Options
  import opened ParseTree
  import opened Grammar
  import opened Expressions

  /** The second character of a category string. */
  function SecondChar(c: Cat): char {
    match c
    case Term(t, _) => t
    case AnyDigit => 'd'
    case AnyLetter => 'c'
    case Empty => '\\'
    case N(nt) =>
      match nt
      case Expression | Etail => 'e'
      case Group | Gtail => 'g'
      case Factor | Function => 'f'
      case Number | Ntail => 'n'
      case Digit => 'd'
      case Str | Stail => 's'
      case Char => 'c'
      case Paramlist | Ptail => 'p'
  }

  function ValueOf(math: Math, node: Linked): Val
    decreases node, 0
  {
    if node.Null? then Crash
    else if node.child.Null? then Undefined
    else
      var left := node.child;
      var center := left.sibling;
      match node.cat
      case N(Expression) => var v := ValueOf(math, left); if v.Real? then SumLoop(math, v.v, center) else v
      case N(Group) => var v := ValueOf(math, left); if v.Real? then ProductLoop(math, v.v, center) else v
      case N(Factor) =>
        if SecondChar(left.cat) == '-' then
          var v := ValueOf(math, center);
          if v.Real? then Real(-v.v) else v
        else if SecondChar(left.cat) == '(' then ValueOf(math, center)
        else ValueOf(math, left)
      case N(Number) => var v := ValueOf(math, left); if v.Real? then DigitLoop(math, v.v, center) else Crash
      case N(Digit) => Real(DigitValue(SecondChar(left.cat)))
      case N(Function) =>
        var name := LettersOf(left);
        if name.None? || center.Null? || center.child.Null? then Crash
        else
          var xs := ParamValues(math, center.child.sibling);
          if xs.Values? then Apply(math, name.value, xs.xs) else if xs.NoValues? then Undefined else Crash
      case _ => Crash
  }

  /** Operand and rest of one step of a sum or product. */
  predicate HasOperand(ptr: Linked) {
    ptr.PNode? && ptr.child.PNode? && ptr.child.sibling.PNode? && ptr.child.sibling.child.PNode?
  }

  function SumLoop(math: Math, val: real, ptr: Linked): Val
    decreases ptr
  {
    if ptr.Null? then Real(val)
    else if !HasOperand(ptr) then Crash
    else
      var op := SecondChar(ptr.child.cat);
      var v := ValueOf(math, ptr.child.sibling.child);
      if !v.Real? then v
      else
        var sum := if op == '+' then val + v.v else if op == '-' then val - v.v else val;
        SumLoop(math, sum, ptr.child.sibling.child.sibling)
  }

  function ProductLoop(math: Math, val: real, ptr: Linked): Val
    decreases ptr
  {
    if ptr.Null? then Real(val)
    else if !HasOperand(ptr) then Crash
    else
      var op := SecondChar(ptr.child.cat);
      var v := ValueOf(math, ptr.child.sibling.child);
      if !v.Real? then v
      else if op == '/' && v.v == 0.0 then Undefined
      else ProductLoop(math, Scaled(op, val, v.v), ptr.child.sibling.child.sibling)
  }

  function Scaled(op: char, val: real, x: real): real
    requires op == '/' ==> x != 0.0
  {
    if op == '*' then val * x else if op == '/' then val / x else val
  }

  function DigitLoop(math: Math, val: real, ptr: Linked): Val
    decreases ptr
  {
    if ptr.Null? then Real(val)
    else if ptr.child.Null? || ptr.child.child.Null? then Crash
    else
      var v := ValueOf(math, ptr.child.child);
      if v.Real? then DigitLoop(math, val * 10.0 + v.v, ptr.child.child.sibling) else Crash
  }

  /** `value_Of_String_Parse_Node`; nothing if a null pointer is met. */
  function LettersOf(node: Linked): Option<string>
    decreases node
  {
    if node.Null? || node.child.Null? || node.child.child.Null? then None
    else
      var c := SecondChar(node.child.child.cat);
      var next := node.child.sibling;
      if next.Null? then Some([c])
      else
        var more := LettersOf(next.child);
        if more.None? then None else Some([c] + more.value)
  }

  datatype Params = Values(xs: seq<real>) | NoValues | BadList

  /** `get_Values_From_Param_List` from one parameter on. */
  function ParamValues(math: Math, e: Linked): Params
    decreases e, 1
  {
    if e.Null? then BadList
    else
      var v := ValueOf(math, e);
      if v.Crash? then BadList
      else if v.Undefined? then NoValues
      else if e.sibling.PNode? && e.sibling.cat == N(Ptail) then
        if e.sibling.child.Null? then BadList
        else
          var more := ParamValues(math, e.sibling.child.sibling);
          if more.Values? then Values([v.v] + more.xs) else more
      else Values([v.v])
  }

  // ---- the loops -------------------------------------------------------------------------

  method Evaluate(math: Math, node: Linked) returns (r: Val)
    ensures r == ValueOf(math, node)
    decreases Size(node), 0
  {
    if node.Null? {
      return Crash;
    }
    var left := node.child;
    if left.Null? {
      return Undefined;
    }
    var center := left.sibling;
    if node.cat == N(Expression) || node.cat == N(Group) || node.cat == N(Number) {
      r := Evaluate(math, left);
      if !r.Real? {
        return if node.cat == N(Number) then Crash else r;
      }
      if node.cat == N(Expression) {
        r := EvaluateSum(math, r.v, center);
      } else if node.cat == N(Group) {
        r := EvaluateProduct(math, r.v, center);
      } else {
        r := EvaluateDigits(math, r.v, center);
      }
    } else if node.cat == N(Factor) {
      if SecondChar(left.cat) == '-' {
        r := Evaluate(math, center);
        if r.Real? {
          r := Real(-r.v);
        }
      } else if SecondChar(left.cat) == '(' {
        r := Evaluate(math, center);
      } else {
        r := Evaluate(math, left);
      }
    } else if node.cat == N(Digit) {
      r := Real(DigitValue(SecondChar(left.cat)));
    } else if node.cat == N(Function) {
      var name := LettersOf(left);
      if name.None? || center.Null? || center.child.Null? {
        return Crash;
      }
      assert Size(node) > Size(center) > Size(center.child) > Size(center.child.sibling) by {
        assert Size(node) > Size(left) > Size(center);
      }
      var xs := EvaluateParams(math, center.child.sibling);
      r := if xs.Values? then Apply(math, name.value, xs.xs) else if xs.NoValues? then Undefined else Crash;
    } else {
      r := Crash;
    }
  }

  method EvaluateSum(math: Math, first: real, center: Linked) returns (r: Val)
    ensures r == SumLoop(math, first, center)
    decreases Size(center), 1
  {
    var val, ptr := first, center;
    while ptr.PNode?
      invariant SumLoop(math, val, ptr) == SumLoop(math, first, center) && Size(ptr) <= Size(center)
      decreases ptr
    {
      if !HasOperand(ptr) {
        return Crash;
      }
      OperandInside(ptr);
      var op := SecondChar(ptr.child.cat);
      var v := Evaluate(math, ptr.child.sibling.child);
      if !v.Real? {
        return v;
      }
      if op == '+' {
        val := val + v.v;
      } else if op == '-' {
        val := val - v.v;
      }
      ptr := ptr.child.sibling.child.sibling;
    }
    r := Real(val);
  }

  method EvaluateProduct(math: Math, first: real, center: Linked) returns (r: Val)
    ensures r == ProductLoop(math, first, center)
    decreases Size(center), 1
  {
    var val, ptr := first, center;
    while ptr.PNode?
      invariant ProductLoop(math, val, ptr) == ProductLoop(math, first, center) && Size(ptr) <= Size(center)
      decreases ptr
    {
      if !HasOperand(ptr) {
        return Crash;
      }
      OperandInside(ptr);
      var op := SecondChar(ptr.child.cat);
      var v := Evaluate(math, ptr.child.sibling.child);
      if !v.Real? {
        return v;
      }
      if op == '/' && v.v == 0.0 {
        return Undefined;
      }
      val := Scaled(op, val, v.v);
      ptr := ptr.child.sibling.child.sibling;
    }
    r := Real(val);
  }

  method EvaluateDigits(math: Math, first: real, center: Linked) returns (r: Val)
    ensures r == DigitLoop(math, first, center)
    decreases Size(center), 1
  {
    var val, ptr := first, center;
    while ptr.PNode?
      invariant DigitLoop(math, val, ptr) == DigitLoop(math, first, center) && Size(ptr) <= Size(center)
      decreases ptr
    {
      if ptr.child.Null? || ptr.child.child.Null? {
        return Crash;
      }
      var v := Evaluate(math, ptr.child.child);
      if !v.Real? {
        return Crash;
      }
      val := val * 10.0 + v.v;
      ptr := ptr.child.child.sibling;
    }
    r := Real(val);
  }

  method EvaluateParams(math: Math, first: Linked) returns (r: Params)
    ensures r == ParamValues(math, first)
    decreases Size(first), 1
  {
    var xs, ptr := [], first;
    while true
      invariant Size(ptr) <= Size(first)
      invariant ParamValues(math, first) ==
                var more := ParamValues(math, ptr); if more.Values? then Values(xs + more.xs) else more
      decreases ptr
    {
      if ptr.Null? {
        return BadList;
      }
      var v := Evaluate(math, ptr);
      if !v.Real? {
        return if v.Crash? then BadList else NoValues;
      }
      xs := xs + [v.v];
      if ptr.sibling.PNode? && ptr.sibling.cat == N(Ptail) {
        if ptr.sibling.child.Null? {
          return BadList;
        }
        assert Size(ptr) > Size(ptr.sibling) > Size(ptr.sibling.child) > Size(ptr.sibling.child.sibling);
        ptr := ptr.sibling.child.sibling;
      } else {
        return Values(xs);
      }
    }
  }

  lemma OperandInside(ptr: Linked)
    requires HasOperand(ptr)
    ensures Size(ptr) > Size(ptr.child.sibling.child) > Size(ptr.child.sibling.child.sibling)
  {
    assert Size(ptr) > Size(ptr.child) > Size(ptr.child.sibling) > Size(ptr.child.sibling.child);
  }

  function Size(n: Linked): nat {
    if n.Null? then 0 else 1 + Size(n.child) + Size(n.sibling)
  }
}
