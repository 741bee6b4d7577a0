// Code generation for boolean, comparison, conditional, unary and binary
// expressions, in value form (visitExpr) and in branch form (codegenJumpIf),
// with a big-step evaluator that both forms are proved against.
//
// Gen* are the specification functions: they say what the emitted code is.
module Expressions {
  import opened Machine

  datatype Unop = UAdd | USub | Invert | Not

  datatype Operator =
    | AddOp | BitAnd | FloorDiv | LShift | MatMult | Mult | Mod | BitOr | Pow | RShift | SubOp | Div | BitXor

  datatype Cmpop = Eq | NotEq | Lt | LtE | Gt | GtE | Is | IsNot | In | NotIn

  // Other(id) stands for every expression kind whose visitor lives elsewhere;
  // its code is summarised as one load.
  datatype Expr =
    | Constant(v: Value)
    | Other(id: nat)
    | Attribute(value: Expr, attr: string)
    | BoolOp(isOr: bool, values: seq<Expr>)
    | BinOp(left: Expr, op: Operator, right: Expr)
    | UnaryOp(uop: Unop, operand: Expr)
    | Compare(head: Expr, ops: seq<Cmpop>, comparators: seq<Expr>)
    | IfExp(test: Expr, body: Expr, orelse: Expr)

  // ----- meaning -----

  // BINARY_OP subcodes.
  function OperatorCode(op: Operator): int {
    match op
    case AddOp => 0
    case BitAnd => 1
    case FloorDiv => 2
    case LShift => 3
    case MatMult => 4
    case Mult => 5
    case Mod => 6
    case BitOr => 7
    case Pow => 8
    case RShift => 9
    case SubOp => 10
    case Div => 11
    case BitXor => 12
  }

  // The meaning of one comparison, in terms of the rich comparison slots
  // Py_LT .. Py_GE.
  function CompareMeaning(w: World, op: Cmpop, a: Value, b: Value, s: State): EvalResult {
    match op
    case Lt => CompareResult(w, 0, a, b, s)
    case LtE => CompareResult(w, 1, a, b, s)
    case Eq => CompareResult(w, 2, a, b, s)
    case NotEq => CompareResult(w, 3, a, b, s)
    case Gt => CompareResult(w, 4, a, b, s)
    case GtE => CompareResult(w, 5, a, b, s)
    case Is => Val(Bool(a == b), s)
    case IsNot => Val(Bool(a != b), s)
    case In => ContainsResult(w, false, a, b, s)
    case NotIn => ContainsResult(w, true, a, b, s)
  }

  function UnaryMeaning(w: World, op: Unop, v: Value, s: State): EvalResult {
    match op
    case UAdd => Act(w, s, Unary("+", v))
    case USub => Act(w, s, Unary("-", v))
    case Invert => Act(w, s, Unary("~", v))
    case Not => Val(Bool(!Truth(w, v)), s)
  }

  function Eval(w: World, e: Expr, s: State): EvalResult
    decreases e, 1
  {
    match e
    case Constant(v) => Val(v, s)
    case Other(id) => Act(w, s, Load(id))
    case Attribute(value, attr) =>
      (match Eval(w, value, s)
       case Val(v, s1) => Act(w, s1, GetAttr(v, attr))
       case Exc(s1) => Exc(s1))
    case BoolOp(isOr, values) => if values == [] then Exc(s) else EvalBool(w, isOr, values, 0, s)
    case BinOp(left, op, right) =>
      (match Eval(w, left, s)
       case Exc(s1) => Exc(s1)
       case Val(a, s1) =>
         match Eval(w, right, s1)
         case Exc(s2) => Exc(s2)
         case Val(b, s2) => BinaryResult(w, OperatorCode(op), a, b, s2))
    case UnaryOp(op, operand) =>
      (match Eval(w, operand, s)
       case Val(v, s1) => UnaryMeaning(w, op, v, s1)
       case Exc(s1) => Exc(s1))
    case Compare(head, ops, comparators) =>
      if ops == [] || |comparators| < |ops| then Exc(s)
      else
        (match Eval(w, head, s)
         case Val(a, s1) => EvalChain(w, a, ops, comparators, 0, s1)
         case Exc(s1) => Exc(s1))
    case IfExp(test, body, orelse) =>
      (match Eval(w, test, s)
       case Val(v, s1) => if Truth(w, v) then Eval(w, body, s1) else Eval(w, orelse, s1)
       case Exc(s1) => Exc(s1))
  }

  // The first operand whose truth decides the result, or the last one.
  function EvalBool(w: World, isOr: bool, values: seq<Expr>, i: nat, s: State): EvalResult
    requires i < |values|
    decreases values, |values| - i
  {
    match Eval(w, values[i], s)
    case Exc(s1) => Exc(s1)
    case Val(v, s1) =>
      if i == |values| - 1 || Truth(w, v) == isOr then Val(v, s1) else EvalBool(w, isOr, values, i + 1, s1)
  }

  // a OP_i c_i OP_(i+1) c_(i+1) ...: stops at the first false comparison.
  function EvalChain(w: World, a: Value, ops: seq<Cmpop>, comparators: seq<Expr>, i: nat, s: State): EvalResult
    requires i < |ops| <= |comparators|
    decreases comparators, |ops| - i
  {
    match Eval(w, comparators[i], s)
    case Exc(s1) => Exc(s1)
    case Val(b, s1) =>
      match CompareMeaning(w, ops[i], a, b, s1)
      case Exc(s2) => Exc(s2)
      case Val(r, s2) =>
        if i == |ops| - 1 || !Truth(w, r) then Val(r, s2) else EvalChain(w, b, ops, comparators, i + 1, s2)
  }

  // ----- emitted code -----

  // COMPARE_OP opargs: the comparison kind in the high bits, a result mask in
  // the low ones.
  const CMP_LT: int := 0 * 32 + 2
  const CMP_LTE: int := 1 * 32 + 10
  const CMP_EQ: int := 2 * 32 + 8
  const CMP_NOTEQ: int := 3 * 32 + 7
  const CMP_GT: int := 4 * 32 + 4
  const CMP_GTE: int := 5 * 32 + 12

  function CmpInstr(op: Cmpop): (i: Instr)
    ensures !IsJump(i)
  {
    match op
    case Eq => CompareOp(CMP_EQ)
    case NotEq => CompareOp(CMP_NOTEQ)
    case Lt => CompareOp(CMP_LT)
    case LtE => CompareOp(CMP_LTE)
    case Gt => CompareOp(CMP_GT)
    case GtE => CompareOp(CMP_GTE)
    case Is => IsOp(0)
    case IsNot => IsOp(1)
    case In => ContainsOp(0)
    case NotIn => ContainsOp(1)
  }

  function UnaryCode(op: Unop): seq<Instr> {
    match op
    case UAdd => [UnaryCall("+")]
    case USub => [UnaryCall("-")]
    case Invert => [UnaryCall("~")]
    case Not => [ToBool, UnaryNot]
  }

  function Branch(cond: bool, l: Label): Instr {
    if cond then PopJumpIfTrue(l) else PopJumpIfFalse(l)
  }

  // What visitExpr appends to c, or None when it reports an error.
  function GenExpr(e: Expr, c: Code): Option<Code>
    decreases e, 1
  {
    match e
    case Constant(v) => Some(AddAll(c, [LoadConst(v)]))
    case Other(id) => Some(AddAll(c, [LoadLeaf(id)]))
    case Attribute(value, attr) =>
      (match GenExpr(value, c)
       case Some(c1) => Some(AddAll(c1, [LoadAttr(attr)]))
       case None => None)
    case BoolOp(isOr, values) =>
      if |values| < 2 then None
      else
        (match GenBool(values, 0, isOr, c.next, Fresh(c))
         case Some(c1) => Some(Use(c1, c.next))
         case None => None)
    case BinOp(left, op, right) =>
      (match GenExpr(left, c)
       case None => None
       case Some(c1) =>
         match GenExpr(right, c1)
         case Some(c2) => Some(AddAll(c2, [BinaryOp(OperatorCode(op))]))
         case None => None)
    case UnaryOp(op, operand) =>
      (match GenExpr(operand, c)
       case Some(c1) => Some(AddAll(c1, UnaryCode(op)))
       case None => None)
    case Compare(head, ops, comparators) =>
      if ops == [] || |ops| != |comparators| then None
      else
        (match GenExpr(head, c)
         case None => None
         case Some(c1) =>
           if |ops| == 1 then
             (match GenExpr(comparators[0], c1)
              case Some(c2) => Some(AddAll(c2, [CmpInstr(ops[0])]))
              case None => None)
           else
             var cleanup, end := c1.next, c1.next + 1;
             match GenRungs(ops, comparators, 0, cleanup, c1.(next := c1.next + 2))
             case None => None
             case Some(c2) =>
               match GenExpr(comparators[|ops| - 1], c2)
               case None => None
               case Some(c3) =>
                 Some(EndChain(c3, ops[|ops| - 1], cleanup, end)))
    case IfExp(test, body, orelse) =>
      var elseLab, endLab := c.next, c.next + 1;
      match GenJumpIf(test, elseLab, false, c.(next := c.next + 2))
      case None => None
      case Some(c1) =>
        match GenExpr(body, c1)
        case None => None
        case Some(c2) =>
          match GenExpr(orelse, Use(AddAll(c2, [Jump(endLab)]), elseLab))
          case Some(c3) => Some(Use(c3, endLab))
          case None => None
  }

  // Operands i.. of a BoolOp in value form.
  function GenBool(values: seq<Expr>, i: nat, isOr: bool, end: Label, c: Code): Option<Code>
    requires i < |values|
    decreases values, |values| - i
  {
    match GenExpr(values[i], c)
    case None => None
    case Some(c1) =>
      if i == |values| - 1 then Some(c1)
      else GenBool(values, i + 1, isOr, end, AddAll(c1, [Copy(1), ToBool, Branch(isOr, end), PopTop]))
  }

  // Comparisons i .. |ops|-2 of a chain in value form.
  function GenRungs(ops: seq<Cmpop>, comparators: seq<Expr>, i: nat, cleanup: Label, c: Code): Option<Code>
    requires i < |ops| <= |comparators|
    decreases comparators, |ops| - i
  {
    if i == |ops| - 1 then Some(c)
    else
      match GenExpr(comparators[i], c)
      case None => None
      case Some(c1) =>
        GenRungs(ops, comparators, i + 1, cleanup,
          AddAll(c1, [Swap(2), Copy(2), CmpInstr(ops[i]), Copy(1), ToBool, PopJumpIfFalse(cleanup), PopTop]))
  }

  // The last comparison of a chain in value form, and the cleanup that drops
  // the kept operand from under a false result.
  function EndChain(c: Code, op: Cmpop, cleanup: Label, end: Label): Code {
    var c1 := Use(AddAll(c, [CmpInstr(op), JumpNoInterrupt(end)]), cleanup);
    Use(AddAll(c1, [Swap(2), PopTop]), end)
  }

  // The same in branch form; the end label is allocated here.
  function EndJumpChain(c: Code, op: Cmpop, cleanup: Label, cond: bool, next: Label): Code {
    var c1 := AddAll(c, [CmpInstr(op), ToBool, Branch(cond, next)]);
    var c2 := Use(AddAll(Fresh(c1), [JumpNoInterrupt(c.next)]), cleanup);
    Use(AddAll(c2, if cond then [PopTop] else [PopTop, JumpNoInterrupt(next)]), c.next)
  }

  // What codegenJumpIf appends to c: a jump to next when the truth of e is cond.
  function GenJumpIf(e: Expr, next: Label, cond: bool, c: Code): Option<Code>
    decreases e, 2
  {
    if e.UnaryOp? && e.uop == Not then GenJumpIf(e.operand, next, !cond, c)
    else if e.BoolOp? && e.values != [] then
      var inverted := e.isOr != cond;
      var next2 := if inverted then c.next else next;
      match GenJumpOperands(e.values, 0, next2, e.isOr, next, cond, if inverted then Fresh(c) else c)
      case None => None
      case Some(c1) => Some(if next2 != next then Use(c1, next2) else c1)
    else if e.IfExp? then
      var end, next2 := c.next, c.next + 1;
      match GenJumpIf(e.test, next2, false, c.(next := c.next + 2))
      case None => None
      case Some(c1) =>
        match GenJumpIf(e.body, next, cond, c1)
        case None => None
        case Some(c2) =>
          match GenJumpIf(e.orelse, next, cond, Use(AddAll(c2, [JumpNoInterrupt(end)]), next2))
          case Some(c3) => Some(Use(c3, end))
          case None => None
    else if e.Compare? && |e.ops| > 1 then
      // a shorter comparator list is an index failure in the original
      if |e.comparators| < |e.ops| then None
      else
        var cleanup := c.next;
        match GenExpr(e.head, Fresh(c))
        case None => None
        case Some(c1) =>
          match GenJumpRungs(e.ops, e.comparators, 0, cleanup, c1)
          case None => None
          case Some(c2) =>
            match GenExpr(e.comparators[|e.ops| - 1], c2)
            case None => None
            case Some(c3) =>
              Some(EndJumpChain(c3, e.ops[|e.ops| - 1], cleanup, cond, next))
    else
      match GenExpr(e, c)
      case Some(c1) => Some(AddAll(c1, [ToBool, Branch(cond, next)]))
      case None => None
  }

  // Operands i.. of a BoolOp in branch form: all but the last short-circuit to next2.
  function GenJumpOperands(values: seq<Expr>, i: nat, next2: Label, cond2: bool, next: Label, cond: bool, c: Code): Option<Code>
    requires i < |values|
    decreases values, |values| - i
  {
    if i == |values| - 1 then GenJumpIf(values[i], next, cond, c)
    else
      match GenJumpIf(values[i], next2, cond2, c)
      case Some(c1) => GenJumpOperands(values, i + 1, next2, cond2, next, cond, c1)
      case None => None
  }

  // Comparisons i .. |ops|-2 of a chain in branch form.
  function GenJumpRungs(ops: seq<Cmpop>, comparators: seq<Expr>, i: nat, cleanup: Label, c: Code): Option<Code>
    requires i < |ops| <= |comparators|
    decreases comparators, |ops| - i
  {
    if i == |ops| - 1 then Some(c)
    else
      match GenExpr(comparators[i], c)
      case None => None
      case Some(c1) =>
        GenJumpRungs(ops, comparators, i + 1, cleanup,
          AddAll(c1, [Swap(2), Copy(2), CmpInstr(ops[i]), ToBool, PopJumpIfFalse(cleanup)]))
  }

  // ----- oparg tables -----

  // The operations of BINARY_OP in the order of their numbers.
  const BINARY_OPS: seq<string> := ["+", "&", "//", "<<", "@", "*", "%", "|", "**", ">>", "-", "/", "^"]

  function Symbol(op: Operator): string {
    match op
    case AddOp => "+"
    case SubOp => "-"
    case Mult => "*"
    case MatMult => "@"
    case Div => "/"
    case Mod => "%"
    case Pow => "**"
    case LShift => "<<"
    case RShift => ">>"
    case BitOr => "|"
    case BitXor => "^"
    case BitAnd => "&"
    case FloorDiv => "//"
  }

  // Every operator is sent as its own number.
  lemma {:induction false} OperatorNumbers(op: Operator)
    ensures 0 <= OperatorCode(op) < |BINARY_OPS| && BINARY_OPS[OperatorCode(op)] == Symbol(op)
  {
  }

  // Below the comparison kind, an oparg of COMPARE_OP says for which outcomes
  // the answer is true: 1 for unordered operands, 2 for less, 4 for greater, 8
  // for equal ones.
  lemma {:induction false} ComparisonMasks(w: World, op: Cmpop, s: State)
    requires op in {Lt, LtE, Eq, NotEq, Gt, GtE}
    ensures var less, greater, equal := CompareMeaning(w, op, Int(0), Int(1), s), CompareMeaning(w, op, Int(1), Int(0), s), CompareMeaning(w, op, Int(0), Int(0), s);
            && CmpInstr(op).CompareOp? && less.Val? && greater.Val? && equal.Val?
            && CmpInstr(op).arg % 32 == (if op == NotEq then 1 else 0) + (if less.v == Bool(true) then 2 else 0)
                                        + (if greater.v == Bool(true) then 4 else 0) + (if equal.v == Bool(true) then 8 else 0)
  {
  }

  // ----- the emitted code only grows, and binds only its own labels -----

  lemma {:induction false} UseGrows(c0: Code, c1: Code, l: Label)
    requires Grows(c0, c1) && LabelsInRange(c1)
    requires c0.next <= l < c1.next && l !in c1.labels
    ensures Grows(c0, Use(c1, l)) && LabelsInRange(Use(c1, l))
  {
  }

  lemma {:induction false} AddGrows(c0: Code, c1: Code, block: seq<Instr>)
    requires Grows(c0, c1)
    ensures Grows(c0, AddAll(c1, block))
  {
  }

  lemma {:induction false} EndChainGrows(c1: Code, c3: Code, op: Cmpop)
    requires Grows(c1.(next := c1.next + 2), c3) && LabelsInRange(c1) && LabelsInRange(c3)
    ensures Grows(c1, EndChain(c3, op, c1.next, c1.next + 1))
    ensures LabelsInRange(EndChain(c3, op, c1.next, c1.next + 1))
  {
    var c1' := c1.(next := c1.next + 2);
    var c4 := AddAll(c3, [CmpInstr(op), JumpNoInterrupt(c1.next + 1)]);
    AddGrows(c1', c3, [CmpInstr(op), JumpNoInterrupt(c1.next + 1)]);
    assert Grows(c1, c4);
    UseGrows(c1, c4, c1.next);
    AddGrows(c1, Use(c4, c1.next), [Swap(2), PopTop]);
    UseGrows(c1, AddAll(Use(c4, c1.next), [Swap(2), PopTop]), c1.next + 1);
  }

  lemma {:induction false} EndJumpChainGrows(c: Code, c3: Code, op: Cmpop, cond: bool, next: Label)
    requires Grows(Fresh(c), c3) && LabelsInRange(c) && LabelsInRange(c3)
    ensures Grows(c, EndJumpChain(c3, op, c.next, cond, next))
    ensures LabelsInRange(EndJumpChain(c3, op, c.next, cond, next))
  {
    var block := [CmpInstr(op), ToBool, Branch(cond, next)];
    AddGrows(Fresh(c), c3, block);
    var c5 := AddAll(Fresh(AddAll(c3, block)), [JumpNoInterrupt(c3.next)]);
    assert Grows(Fresh(c), c5);
    assert Grows(c, c5);
    UseGrows(c, c5, c.next);
    var tail := if cond then [PopTop] else [PopTop, JumpNoInterrupt(next)];
    AddGrows(c, Use(c5, c.next), tail);
    UseGrows(c, AddAll(Use(c5, c.next), tail), c3.next);
  }

  lemma {:induction false} GenExprGrows(e: Expr, c: Code)
    requires LabelsInRange(c) && GenExpr(e, c).Some?
    ensures Grows(c, GenExpr(e, c).value) && LabelsInRange(GenExpr(e, c).value)
    decreases e, 1
  {
    match e
    case Constant(v) =>
    case Other(id) =>
    case Attribute(value, attr) => GenExprGrows(value, c);
    case BoolOp(isOr, values) =>
      GenBoolGrows(values, 0, isOr, c.next, Fresh(c));
    case BinOp(left, op, right) =>
      GenExprGrows(left, c);
      GenExprGrows(right, GenExpr(left, c).value);
    case UnaryOp(op, operand) => GenExprGrows(operand, c);
    case Compare(_, _, _) => GenCompareGrows(e, c);
    case IfExp(_, _, _) => GenIfExpGrows(e, c);
  }

  lemma {:induction false} GenCompareGrows(e: Expr, c: Code)
    requires e.Compare? && LabelsInRange(c) && GenExpr(e, c).Some?
    ensures Grows(c, GenExpr(e, c).value) && LabelsInRange(GenExpr(e, c).value)
    decreases e, 0
  {
    hide GenRungs, CmpInstr;
    GenExprGrows(e.head, c);
    var c1 := GenExpr(e.head, c).value;
    if |e.ops| == 1 {
      GenExprGrows(e.comparators[0], c1);
      GrowsTransitive(c, c1, GenExpr(e.comparators[0], c1).value);
    } else {
      GenChainGrows(e.ops, e.comparators, c1);
      var c2 := GenRungs(e.ops, e.comparators, 0, c1.next, c1.(next := c1.next + 2)).value;
      var c3 := GenExpr(e.comparators[|e.ops| - 1], c2).value;
      GrowsTransitive(c, c1, EndChain(c3, e.ops[|e.ops| - 1], c1.next, c1.next + 1));
    }
  }

  // The rest of a chain behind its first operand.
  lemma {:induction false} GenChainGrows(ops: seq<Cmpop>, comparators: seq<Expr>, c1: Code)
    requires 1 < |ops| <= |comparators| && LabelsInRange(c1)
    requires GenRungs(ops, comparators, 0, c1.next, c1.(next := c1.next + 2)).Some?
    requires GenExpr(comparators[|ops| - 1], GenRungs(ops, comparators, 0, c1.next, c1.(next := c1.next + 2)).value).Some?
    ensures var c2 := GenRungs(ops, comparators, 0, c1.next, c1.(next := c1.next + 2)).value;
            var r := EndChain(GenExpr(comparators[|ops| - 1], c2).value, ops[|ops| - 1], c1.next, c1.next + 1);
            Grows(c1, r) && LabelsInRange(r)
    decreases comparators, |ops| + 1
  {
    hide GenRungs, GenExpr, EndChain, CmpInstr;
    var c1' := c1.(next := c1.next + 2);
    GenRungsGrows(ops, comparators, 0, c1.next, c1');
    var c2 := GenRungs(ops, comparators, 0, c1.next, c1').value;
    GenExprGrows(comparators[|ops| - 1], c2);
    var c3 := GenExpr(comparators[|ops| - 1], c2).value;
    GrowsTransitive(c1', c2, c3);
    EndChainGrows(c1, c3, ops[|ops| - 1]);
  }

  lemma {:induction false} GenIfExpGrows(e: Expr, c: Code)
    requires e.IfExp? && LabelsInRange(c) && GenExpr(e, c).Some?
    ensures Grows(c, GenExpr(e, c).value) && LabelsInRange(GenExpr(e, c).value)
    decreases e, 0
  {
    var c0 := c.(next := c.next + 2);
    GenJumpIfGrows(e.test, c.next, false, c0);
    var c1 := GenJumpIf(e.test, c.next, false, c0).value;
    GenExprGrows(e.body, c1);
    var c2 := GenExpr(e.body, c1).value;
    GrowsTransitive(c0, c1, c2);
    var c3 := AddAll(c2, [Jump(c.next + 1)]);
    AddGrows(c0, c2, [Jump(c.next + 1)]);
    assert Grows(c, c3);
    assert c.next !in c3.labels && c.next + 1 !in c3.labels;
    UseGrows(c, c3, c.next);
    var c4 := Use(c3, c.next);
    GenExprGrows(e.orelse, c4);
    var c5 := GenExpr(e.orelse, c4).value;
    GrowsTransitive(c, c4, c5);
    UseGrows(c, c5, c.next + 1);
  }

  lemma {:induction false} GenBoolGrows(values: seq<Expr>, i: nat, isOr: bool, end: Label, c: Code)
    requires i < |values| && LabelsInRange(c) && GenBool(values, i, isOr, end, c).Some?
    ensures Grows(c, GenBool(values, i, isOr, end, c).value)
    ensures LabelsInRange(GenBool(values, i, isOr, end, c).value)
    decreases values, |values| - i
  {
    GenExprGrows(values[i], c);
    if i < |values| - 1 {
      var c1 := AddAll(GenExpr(values[i], c).value, [Copy(1), ToBool, Branch(isOr, end), PopTop]);
      GenBoolGrows(values, i + 1, isOr, end, c1);
      GrowsTransitive(c, c1, GenBool(values, i + 1, isOr, end, c1).value);
    }
  }

  lemma {:induction false} GenRungsGrows(ops: seq<Cmpop>, comparators: seq<Expr>, i: nat, cleanup: Label, c: Code)
    requires i < |ops| <= |comparators| && LabelsInRange(c) && GenRungs(ops, comparators, i, cleanup, c).Some?
    ensures Grows(c, GenRungs(ops, comparators, i, cleanup, c).value)
    ensures LabelsInRange(GenRungs(ops, comparators, i, cleanup, c).value)
    decreases comparators, |ops| - i
  {
    if i < |ops| - 1 {
      GenExprGrows(comparators[i], c);
      var c1 := AddAll(GenExpr(comparators[i], c).value,
        [Swap(2), Copy(2), CmpInstr(ops[i]), Copy(1), ToBool, PopJumpIfFalse(cleanup), PopTop]);
      GenRungsGrows(ops, comparators, i + 1, cleanup, c1);
      GrowsTransitive(c, c1, GenRungs(ops, comparators, i + 1, cleanup, c1).value);
    }
  }

  lemma {:induction false} GenJumpIfGrows(e: Expr, next: Label, cond: bool, c: Code)
    requires LabelsInRange(c) && next < c.next && GenJumpIf(e, next, cond, c).Some?
    ensures Grows(c, GenJumpIf(e, next, cond, c).value) && LabelsInRange(GenJumpIf(e, next, cond, c).value)
    decreases e, 2
  {
    if e.UnaryOp? && e.uop == Not {
      GenJumpIfGrows(e.operand, next, !cond, c);
    } else if e.BoolOp? && e.values != [] {
      GenJumpBoolGrows(e, next, cond, c);
    } else if e.IfExp? {
      GenJumpIfExpGrows(e, next, cond, c);
    } else if e.Compare? && |e.ops| > 1 {
      GenJumpCompareGrows(e, next, cond, c);
    } else {
      hide GenExpr;
      GenExprGrows(e, c);
    }
  }

  lemma {:induction false} GenJumpBoolGrows(e: Expr, next: Label, cond: bool, c: Code)
    requires e.BoolOp? && e.values != []
    requires LabelsInRange(c) && next < c.next && GenJumpIf(e, next, cond, c).Some?
    ensures Grows(c, GenJumpIf(e, next, cond, c).value) && LabelsInRange(GenJumpIf(e, next, cond, c).value)
    decreases e, 1
  {
    hide GenExpr, GenJumpOperands;
    var inverted := e.isOr != cond;
    var next2 := if inverted then c.next else next;
    GenJumpOperandsGrows(e.values, 0, next2, e.isOr, next, cond, if inverted then Fresh(c) else c);
  }

  lemma {:induction false} GenJumpIfExpGrows(e: Expr, next: Label, cond: bool, c: Code)
    requires e.IfExp?
    requires LabelsInRange(c) && next < c.next && GenJumpIf(e, next, cond, c).Some?
    ensures Grows(c, GenJumpIf(e, next, cond, c).value) && LabelsInRange(GenJumpIf(e, next, cond, c).value)
    decreases e, 1
  {
    hide GenExpr;
    var c0 := c.(next := c.next + 2);
    GenJumpIfGrows(e.test, c.next + 1, false, c0);
    var c1 := GenJumpIf(e.test, c.next + 1, false, c0).value;
    GenJumpIfGrows(e.body, next, cond, c1);
    var c2 := GenJumpIf(e.body, next, cond, c1).value;
    GrowsTransitive(c0, c1, c2);
    var c3 := AddAll(c2, [JumpNoInterrupt(c.next)]);
    BranchesGrow(c, c2);
    var c4 := Use(c3, c.next + 1);
    GenJumpIfGrows(e.orelse, next, cond, c4);
    var c5 := GenJumpIf(e.orelse, next, cond, c4).value;
    GrowsTransitive(c, c4, c5);
    UseGrows(c, c5, c.next);
  }

  // The two labels of a conditional: the second one is bound behind the jump
  // to the first one, which is still free.
  lemma {:induction false} BranchesGrow(c: Code, c2: Code)
    requires LabelsInRange(c) && Grows(c.(next := c.next + 2), c2) && LabelsInRange(c2)
    ensures var c4 := Use(AddAll(c2, [JumpNoInterrupt(c.next)]), c.next + 1);
            Grows(c, c4) && LabelsInRange(c4) && c.next !in c4.labels
  {
    var c3 := AddAll(c2, [JumpNoInterrupt(c.next)]);
    AddGrows(c.(next := c.next + 2), c2, [JumpNoInterrupt(c.next)]);
    assert Grows(c, c3);
    UseGrows(c, c3, c.next + 1);
  }

  lemma {:induction false} GenJumpCompareGrows(e: Expr, next: Label, cond: bool, c: Code)
    requires e.Compare? && |e.ops| > 1
    requires LabelsInRange(c) && next < c.next && GenJumpIf(e, next, cond, c).Some?
    ensures Grows(c, GenJumpIf(e, next, cond, c).value) && LabelsInRange(GenJumpIf(e, next, cond, c).value)
    decreases e, 1
  {
    var cleanup := c.next;
    GenExprGrows(e.head, Fresh(c));
    var c1 := GenExpr(e.head, Fresh(c)).value;
    GenJumpRungsGrows(e.ops, e.comparators, 0, cleanup, c1);
    var c2 := GenJumpRungs(e.ops, e.comparators, 0, cleanup, c1).value;
    GenExprGrows(e.comparators[|e.ops| - 1], c2);
    var c3 := GenExpr(e.comparators[|e.ops| - 1], c2).value;
    GrowsTransitive(c1, c2, c3);
    GrowsTransitive(Fresh(c), c1, c3);
    EndJumpChainGrows(c, c3, e.ops[|e.ops| - 1], cond, next);
  }

  lemma {:induction false} GenJumpOperandsGrows(values: seq<Expr>, i: nat, next2: Label, cond2: bool, next: Label, cond: bool, c: Code)
    requires i < |values| && LabelsInRange(c) && next < c.next && next2 < c.next
    requires GenJumpOperands(values, i, next2, cond2, next, cond, c).Some?
    ensures Grows(c, GenJumpOperands(values, i, next2, cond2, next, cond, c).value)
    ensures LabelsInRange(GenJumpOperands(values, i, next2, cond2, next, cond, c).value)
    decreases values, |values| - i
  {
    if i == |values| - 1 {
      GenJumpIfGrows(values[i], next, cond, c);
    } else {
      GenJumpIfGrows(values[i], next2, cond2, c);
      var c1 := GenJumpIf(values[i], next2, cond2, c).value;
      GenJumpOperandsGrows(values, i + 1, next2, cond2, next, cond, c1);
      GrowsTransitive(c, c1, GenJumpOperands(values, i + 1, next2, cond2, next, cond, c1).value);
    }
  }

  lemma {:induction false} GenJumpRungsGrows(ops: seq<Cmpop>, comparators: seq<Expr>, i: nat, cleanup: Label, c: Code)
    requires i < |ops| <= |comparators| && LabelsInRange(c) && GenJumpRungs(ops, comparators, i, cleanup, c).Some?
    ensures Grows(c, GenJumpRungs(ops, comparators, i, cleanup, c).value)
    ensures LabelsInRange(GenJumpRungs(ops, comparators, i, cleanup, c).value)
    decreases comparators, |ops| - i
  {
    if i < |ops| - 1 {
      GenExprGrows(comparators[i], c);
      var c1 := AddAll(GenExpr(comparators[i], c).value,
        [Swap(2), Copy(2), CmpInstr(ops[i]), ToBool, PopJumpIfFalse(cleanup)]);
      GenJumpRungsGrows(ops, comparators, i + 1, cleanup, c1);
      GrowsTransitive(c, c1, GenJumpRungs(ops, comparators, i + 1, cleanup, c1).value);
    }
  }
}
