// The code that Expressions emits computes what Eval says: in value form it
// leaves the value on the stack, in branch form it jumps exactly when the
// truth of the value is the requested one.  Both forms end in the State that
// Eval ends in, so they perform the same actions in the same order.
module ExpressionProofs {
  import opened Machine
  import opened Expressions

  // A run that started at `a` has computed r and stands at pc, or has raised.
  ghost predicate Finishes(w: World, p: Code, a: Config, r: EvalResult, pc: nat, st: seq<Value>) {
    match r
    case Val(v, s) => Reach(w, p, a, Run(pc, [v] + st, s))
    case Exc(s) => Reach(w, p, a, Raised(s))
  }

  // ... or has branched on its truth.
  ghost predicate Branches(w: World, p: Code, a: Config, r: EvalResult, cond: bool, target: nat, pc: nat, st: seq<Value>) {
    match r
    case Val(v, s) => Reach(w, p, a, Run(if Truth(w, v) == cond then target else pc, st, s))
    case Exc(s) => Reach(w, p, a, Raised(s))
  }

  lemma {:induction false} PushOp(w: World, p: Code, a: Config, pc: nat, i: Instr, st: seq<Value>, s: State, r: EvalResult, rest: seq<Value>)
    requires Reach(w, p, a, Run(pc, st, s))
    requires pc < |p.instrs| && p.instrs[pc] == i && !IsJump(i)
    requires Exec(w, i, st, s) == Push(r, rest)
    ensures Finishes(w, p, a, r, pc + 1, rest)
  {
    ReachStep(w, p, a, Run(pc, st, s));
  }

  lemma {:induction false} CmpStep(w: World, p: Code, start: Config, pc: nat, op: Cmpop, a: Value, b: Value, st: seq<Value>, s: State)
    requires Reach(w, p, start, Run(pc, [b, a] + st, s))
    requires pc < |p.instrs| && p.instrs[pc] == CmpInstr(op)
    ensures Finishes(w, p, start, CompareMeaning(w, op, a, b, s), pc + 1, st)
  {
    var full := [b, a] + st;
    assert full[0] == b && full[1..] == [a] + st && full[1..][0] == a && full[1..][1..] == st;
    assert Exec(w, CmpInstr(op), full, s) == Exec2(w, CmpInstr(op), b, a, st, s);
    PushOp(w, p, start, pc, CmpInstr(op), full, s, CompareMeaning(w, op, a, b, s), st);
  }

  // TO_BOOL followed by a conditional jump branches on truth.
  lemma {:induction false} TestStep(w: World, p: Code, start: Config, pc: nat, v: Value, st: seq<Value>, s: State, cond: bool, l: Label)
    requires Reach(w, p, start, Run(pc, [v] + st, s))
    requires pc + 1 < |p.instrs| && p.instrs[pc] == ToBool && p.instrs[pc + 1] == Branch(cond, l)
    requires l in p.labels
    ensures Reach(w, p, start, Run(if Truth(w, v) == cond then p.labels[l] else pc + 2, st, s))
  {
    Op(w, p, start, pc, ToBool, [v] + st, s, [Bool(Truth(w, v))] + st, s);
    OpBranch(w, p, start, pc + 1, Branch(cond, l), Bool(Truth(w, v)), st, s);
  }

  // One rung of a chain in value form: compare, keep the right operand, leave
  // through cleanup with the result when it is false.
  lemma {:induction false} RungStep(w: World, p: Code, start: Config, pc: nat, op: Cmpop, cleanup: Label, a: Value, b: Value, st: seq<Value>, s: State)
    requires Reach(w, p, start, Run(pc, [b, a] + st, s)) && cleanup in p.labels
    requires At(p, pc, [Swap(2), Copy(2), CmpInstr(op), Copy(1), ToBool, PopJumpIfFalse(cleanup), PopTop])
    ensures var r := CompareMeaning(w, op, a, b, s);
            if r.Exc? then Reach(w, p, start, Raised(r.s))
            else if Truth(w, r.v) then Reach(w, p, start, Run(pc + 7, [b] + st, r.s))
            else Reach(w, p, start, Run(p.labels[cleanup], [r.v] + ([b] + st), r.s))
  {
    var block := [Swap(2), Copy(2), CmpInstr(op), Copy(1), ToBool, PopJumpIfFalse(cleanup), PopTop];
    assert p.instrs[pc + 0] == block[0] && p.instrs[pc + 1] == block[1] && p.instrs[pc + 2] == block[2];
    assert p.instrs[pc + 3] == block[3] && p.instrs[pc + 6] == block[6];
    assert p.instrs[pc + 4] == block[4] && p.instrs[pc + 5] == block[5] == Branch(false, cleanup);
    KeepRightOperand(w, p, start, pc, a, b, st, s);
    CmpStep(w, p, start, pc + 2, op, a, b, [b] + st, s);
    var r := CompareMeaning(w, op, a, b, s);
    if r.Val? {
      CopyStep(w, p, start, pc + 3, 1, [r.v] + ([b] + st), r.s);
      TestStep(w, p, start, pc + 4, r.v, [r.v] + ([b] + st), r.s, false, cleanup);
      if Truth(w, r.v) {
        PopStep(w, p, start, pc + 6, r.v, [b] + st, r.s);
      }
    }
  }

  // The same in branch form, where the result is not kept.
  lemma {:induction false} JumpRungStep(w: World, p: Code, start: Config, pc: nat, op: Cmpop, cleanup: Label, a: Value, b: Value, st: seq<Value>, s: State)
    requires Reach(w, p, start, Run(pc, [b, a] + st, s)) && cleanup in p.labels
    requires At(p, pc, [Swap(2), Copy(2), CmpInstr(op), ToBool, PopJumpIfFalse(cleanup)])
    ensures var r := CompareMeaning(w, op, a, b, s);
            if r.Exc? then Reach(w, p, start, Raised(r.s))
            else Reach(w, p, start, Run(if Truth(w, r.v) then pc + 5 else p.labels[cleanup], [b] + st, r.s))
  {
    var block := [Swap(2), Copy(2), CmpInstr(op), ToBool, PopJumpIfFalse(cleanup)];
    assert p.instrs[pc + 0] == block[0] && p.instrs[pc + 1] == block[1] && p.instrs[pc + 2] == block[2];
    assert p.instrs[pc + 3] == block[3] && p.instrs[pc + 4] == block[4] == Branch(false, cleanup);
    KeepRightOperand(w, p, start, pc, a, b, st, s);
    CmpStep(w, p, start, pc + 2, op, a, b, [b] + st, s);
    var r := CompareMeaning(w, op, a, b, s);
    if r.Val? {
      TestStep(w, p, start, pc + 3, r.v, [b] + st, r.s, false, cleanup);
    }
  }

  // One operand of a BoolOp in value form, after its value was computed.
  lemma {:induction false} OperandStep(w: World, p: Code, start: Config, pc: nat, isOr: bool, end: Label, v: Value, st: seq<Value>, s: State)
    requires Reach(w, p, start, Run(pc, [v] + st, s)) && end in p.labels
    requires At(p, pc, [Copy(1), ToBool, Branch(isOr, end), PopTop])
    ensures if Truth(w, v) == isOr then Reach(w, p, start, Run(p.labels[end], [v] + st, s))
            else Reach(w, p, start, Run(pc + 4, st, s))
  {
    var block := [Copy(1), ToBool, Branch(isOr, end), PopTop];
    assert p.instrs[pc + 0] == block[0] && p.instrs[pc + 1] == block[1];
    assert p.instrs[pc + 2] == block[2] && p.instrs[pc + 3] == block[3];
    CopyStep(w, p, start, pc, 1, [v] + st, s);
    TestStep(w, p, start, pc + 1, v, [v] + st, s, isOr, end);
    if Truth(w, v) != isOr {
      PopStep(w, p, start, pc + 3, v, st, s);
    }
  }

  lemma {:induction false} BinaryStep(w: World, p: Code, start: Config, pc: nat, code: int, a: Value, b: Value, st: seq<Value>, s: State)
    requires Reach(w, p, start, Run(pc, [b] + ([a] + st), s))
    requires pc < |p.instrs| && p.instrs[pc] == BinaryOp(code)
    ensures Finishes(w, p, start, BinaryResult(w, code, a, b, s), pc + 1, st)
  {
    var full := [b] + ([a] + st);
    assert full[1..] == [a] + st && full[1..][1..] == st;
    PushOp(w, p, start, pc, BinaryOp(code), full, s, BinaryResult(w, code, a, b, s), st);
  }

  lemma {:induction false} AttrStep(w: World, p: Code, start: Config, pc: nat, attr: string, v: Value, st: seq<Value>, s: State)
    requires Reach(w, p, start, Run(pc, [v] + st, s))
    requires pc < |p.instrs| && p.instrs[pc] == LoadAttr(attr)
    ensures Finishes(w, p, start, Act(w, s, GetAttr(v, attr)), pc + 1, st)
  {
    assert ([v] + st)[1..] == st;
    PushOp(w, p, start, pc, LoadAttr(attr), [v] + st, s, Act(w, s, GetAttr(v, attr)), st);
  }

  // SWAP 2; COPY 2 turn b, a into b, a, b: the right operand is kept below.
  lemma {:induction false} KeepRightOperand(w: World, p: Code, start: Config, pc: nat, a: Value, b: Value, st: seq<Value>, s: State)
    requires Reach(w, p, start, Run(pc, [b, a] + st, s))
    requires pc + 1 < |p.instrs| && p.instrs[pc] == Swap(2) && p.instrs[pc + 1] == Copy(2)
    ensures Reach(w, p, start, Run(pc + 2, [b, a] + ([b] + st), s))
  {
    Op(w, p, start, pc, Swap(2), [b, a] + st, s, [a, b] + st, s);
    Op(w, p, start, pc + 1, Copy(2), [a, b] + st, s, [b, a] + ([b] + st), s);
  }

  lemma {:induction false} UnaryStep(w: World, p: Code, start: Config, pc: nat, op: Unop, v: Value, st: seq<Value>, s: State)
    requires Reach(w, p, start, Run(pc, [v] + st, s))
    requires pc + |UnaryCode(op)| <= |p.instrs|
    requires forall k :: 0 <= k < |UnaryCode(op)| ==> p.instrs[pc + k] == UnaryCode(op)[k]
    ensures Finishes(w, p, start, UnaryMeaning(w, op, v, s), pc + |UnaryCode(op)|, st)
  {
    hide Reach;
    assert ([v] + st)[1..] == st;
    var code := UnaryCode(op);
    assert p.instrs[pc + 0] == code[0];
    if op == Not {
      assert p.instrs[pc + 1] == code[1];
      Op(w, p, start, pc, ToBool, [v] + st, s, [Bool(Truth(w, v))] + st, s);
      Op(w, p, start, pc + 1, UnaryNot, [Bool(Truth(w, v))] + st, s, [Bool(!Truth(w, v))] + st, s);
    } else {
      PushOp(w, p, start, pc, code[0], [v] + st, s, UnaryMeaning(w, op, v, s), st);
    }
  }

  // ----- value form -----

  lemma {:induction false} ExprCorrect(w: World, p: Code, start: Config, e: Expr, c: Code, st: seq<Value>, s: State)
    requires LabelsInRange(c) && GenExpr(e, c).Some? && Extends(GenExpr(e, c).value, p)
    requires Reach(w, p, start, Run(|c.instrs|, st, s))
    ensures Finishes(w, p, start, Eval(w, e, s), |GenExpr(e, c).value.instrs|, st)
    decreases e, 1
  {
    match e
    case Constant(_) => LeafCorrect(w, p, start, e, c, st, s);
    case Other(_) => LeafCorrect(w, p, start, e, c, st, s);
    case Attribute(_, _) => AttributeCorrect(w, p, start, e, c, st, s);
    case BoolOp(isOr, values) =>
      var c1 := GenBool(values, 0, isOr, c.next, Fresh(c)).value;
      GenBoolGrows(values, 0, isOr, c.next, Fresh(c));
      assert Extends(c1, Use(c1, c.next));
      BoolCorrect(w, p, start, values, 0, isOr, c.next, Fresh(c), st, s);
    case BinOp(_, _, _) => BinOpCorrect(w, p, start, e, c, st, s);
    case UnaryOp(_, _) => UnaryOpCorrect(w, p, start, e, c, st, s);
    case Compare(_, _, _) => CompareCorrect(w, p, start, e, c, st, s);
    case IfExp(_, _, _) => IfExpCorrect(w, p, start, e, c, st, s);
  }

  lemma {:induction false} LeafCorrect(w: World, p: Code, start: Config, e: Expr, c: Code, st: seq<Value>, s: State)
    requires (e.Constant? || e.Other?) && Extends(GenExpr(e, c).value, p)
    requires Reach(w, p, start, Run(|c.instrs|, st, s))
    ensures Finishes(w, p, start, Eval(w, e, s), |GenExpr(e, c).value.instrs|, st)
  {
    if e.Constant? {
      BlockAt(c, [LoadConst(e.v)], p);
      AtOne(p, |c.instrs|, [LoadConst(e.v)], 0);
      ConstStep(w, p, start, |c.instrs|, e.v, st, s);
    } else {
      BlockAt(c, [LoadLeaf(e.id)], p);
      AtOne(p, |c.instrs|, [LoadLeaf(e.id)], 0);
      PushOp(w, p, start, |c.instrs|, LoadLeaf(e.id), st, s, Act(w, s, Load(e.id)), st);
    }
  }

  lemma {:induction false} AttributeCorrect(w: World, p: Code, start: Config, e: Expr, c: Code, st: seq<Value>, s: State)
    requires e.Attribute? && LabelsInRange(c) && GenExpr(e, c).Some? && Extends(GenExpr(e, c).value, p)
    requires Reach(w, p, start, Run(|c.instrs|, st, s))
    ensures Finishes(w, p, start, Eval(w, e, s), |GenExpr(e, c).value.instrs|, st)
    decreases e, 0
  {
    var c1 := GenExpr(e.value, c).value;
    BlockAt(c1, [LoadAttr(e.attr)], p);
    AtOne(p, |c1.instrs|, [LoadAttr(e.attr)], 0);
    ExprCorrect(w, p, start, e.value, c, st, s);
    var r := Eval(w, e.value, s);
    if r.Val? {
      AttrStep(w, p, start, |c1.instrs|, e.attr, r.v, st, r.s);
    }
  }

  lemma {:induction false} UnaryOpCorrect(w: World, p: Code, start: Config, e: Expr, c: Code, st: seq<Value>, s: State)
    requires e.UnaryOp? && LabelsInRange(c) && GenExpr(e, c).Some? && Extends(GenExpr(e, c).value, p)
    requires Reach(w, p, start, Run(|c.instrs|, st, s))
    ensures Finishes(w, p, start, Eval(w, e, s), |GenExpr(e, c).value.instrs|, st)
    decreases e, 0
  {
    var c1 := GenExpr(e.operand, c).value;
    BlockAt(c1, UnaryCode(e.uop), p);
    ExprCorrect(w, p, start, e.operand, c, st, s);
    var r := Eval(w, e.operand, s);
    if r.Val? {
      UnaryStep(w, p, start, |c1.instrs|, e.uop, r.v, st, r.s);
    }
  }

  lemma {:induction false} BinOpCorrect(w: World, p: Code, start: Config, e: Expr, c: Code, st: seq<Value>, s: State)
    requires e.BinOp? && LabelsInRange(c) && GenExpr(e, c).Some? && Extends(GenExpr(e, c).value, p)
    requires Reach(w, p, start, Run(|c.instrs|, st, s))
    ensures Finishes(w, p, start, Eval(w, e, s), |GenExpr(e, c).value.instrs|, st)
    decreases e, 0
  {
    var code := OperatorCode(e.op);
    var c1 := GenExpr(e.left, c).value;
    GenExprGrows(e.left, c);
    GenExprGrows(e.right, c1);
    var c2 := GenExpr(e.right, c1).value;
    BlockAt(c2, [BinaryOp(code)], p);
    AtOne(p, |c2.instrs|, [BinaryOp(code)], 0);
    ExtendsTransitive(c1, c2, p);
    ExprCorrect(w, p, start, e.left, c, st, s);
    var r1 := Eval(w, e.left, s);
    if r1.Val? {
      ExprCorrect(w, p, start, e.right, c1, [r1.v] + st, r1.s);
      var r2 := Eval(w, e.right, r1.s);
      if r2.Val? {
        BinaryStep(w, p, start, |c2.instrs|, code, r1.v, r2.v, st, r2.s);
      }
    }
  }

  lemma {:induction false} BoolCorrect(w: World, p: Code, start: Config, values: seq<Expr>, i: nat, isOr: bool, end: Label, c: Code, st: seq<Value>, s: State)
    requires i < |values| && LabelsInRange(c) && GenBool(values, i, isOr, end, c).Some?
    requires Extends(GenBool(values, i, isOr, end, c).value, p)
    requires end in p.labels && p.labels[end] == |GenBool(values, i, isOr, end, c).value.instrs|
    requires Reach(w, p, start, Run(|c.instrs|, st, s))
    ensures Finishes(w, p, start, EvalBool(w, isOr, values, i, s), p.labels[end], st)
    decreases values, |values| - i
  {
    GenExprGrows(values[i], c);
    var c1 := GenExpr(values[i], c).value;
    if i == |values| - 1 {
      ExprCorrect(w, p, start, values[i], c, st, s);
    } else {
      var block := [Copy(1), ToBool, Branch(isOr, end), PopTop];
      var c2 := AddAll(c1, block);
      GenBoolGrows(values, i + 1, isOr, end, c2);
      ExtendsTransitive(c2, GenBool(values, i + 1, isOr, end, c2).value, p);
      BlockAt(c1, block, p);
      ExprCorrect(w, p, start, values[i], c, st, s);
      var r := Eval(w, values[i], s);
      if r.Val? {
        OperandStep(w, p, start, |c1.instrs|, isOr, end, r.v, st, r.s);
        if Truth(w, r.v) != isOr {
          BoolCorrect(w, p, start, values, i + 1, isOr, end, c2, st, r.s);
        }
      }
    }
  }

  lemma {:induction false} IfExpCorrect(w: World, p: Code, start: Config, e: Expr, c: Code, st: seq<Value>, s: State)
    requires e.IfExp? && LabelsInRange(c) && GenExpr(e, c).Some? && Extends(GenExpr(e, c).value, p)
    requires Reach(w, p, start, Run(|c.instrs|, st, s))
    ensures Finishes(w, p, start, Eval(w, e, s), |GenExpr(e, c).value.instrs|, st)
    decreases e, 0
  {
    hide Extends, Reach, At, LabelsInRange, GenJumpIf;
    var elseLab, c0 := c.next, c.(next := c.next + 2);
    var c1 := GenJumpIf(e.test, elseLab, false, c0).value;
    var c2 := GenExpr(e.body, c1).value;
    var c4 := Use(AddAll(c2, [Jump(c.next + 1)]), elseLab);
    var c5 := GenExpr(e.orelse, c4).value;
    IfExpLayout(e, c, c1, c2, c4, c5, p);
    AtOne(p, |c2.instrs|, [Jump(c.next + 1)], 0);
    JumpIfCorrect(w, p, start, e.test, elseLab, false, c0, st, s);
    var r := Eval(w, e.test, s);
    if r.Val? {
      if Truth(w, r.v) {
        ExprCorrect(w, p, start, e.body, c1, st, r.s);
        var r2 := Eval(w, e.body, r.s);
        if r2.Val? { OpJump(w, p, start, |c2.instrs|, Jump(c.next + 1), [r2.v] + st, r2.s); }
      } else {
        ExprCorrect(w, p, start, e.orelse, c4, st, r.s);
      }
    }
  }

  lemma {:induction false} IfExpLayout(e: Expr, c: Code, c1: Code, c2: Code, c4: Code, c5: Code, p: Code)
    requires e.IfExp? && LabelsInRange(c) && GenExpr(e, c).Some? && Extends(GenExpr(e, c).value, p)
    requires GenJumpIf(e.test, c.next, false, c.(next := c.next + 2)) == Some(c1) && GenExpr(e.body, c1) == Some(c2)
    requires c4 == Use(AddAll(c2, [Jump(c.next + 1)]), c.next) && GenExpr(e.orelse, c4) == Some(c5)
    ensures GenExpr(e, c) == Some(Use(c5, c.next + 1))
    ensures LabelsInRange(c.(next := c.next + 2)) && LabelsInRange(c1) && LabelsInRange(c4)
    ensures Extends(c1, p) && Extends(c2, p) && Extends(c5, p) && At(p, |c2.instrs|, [Jump(c.next + 1)])
    ensures c.next in p.labels && p.labels[c.next] == |c4.instrs| && c.next + 1 in p.labels && p.labels[c.next + 1] == |c5.instrs|
  {
    hide GenJumpIf, At;
    var c0, c3 := c.(next := c.next + 2), AddAll(c2, [Jump(c.next + 1)]);
    GenJumpIfGrows(e.test, c.next, false, c0);
    GenExprGrows(e.body, c1);
    GenExprGrows(e.orelse, c4);
    GrowsTransitive(c0, c1, c2);
    JoinLayout(c0, c2, Jump(c.next + 1), c.next, c5, c.next + 1, p);
    ExtendsTransitive(c1, c2, p);
  }

  // Two branches: a jump over the second one, its label, the second one, and
  // the label behind it.
  lemma {:induction false} JoinLayout(c0: Code, c2: Code, jump: Instr, over: Label, c5: Code, end: Label, p: Code)
    requires Grows(c0, c2) && over !in c0.labels && end !in c0.labels && over < c0.next && end < c0.next && over != end
    requires var c4 := Use(AddAll(c2, [jump]), over); Grows(c4, c5)
    requires Extends(Use(c5, end), p)
    ensures Extends(c2, p) && Extends(c5, p) && At(p, |c2.instrs|, [jump])
    ensures over in p.labels && p.labels[over] == |c2.instrs| + 1 && end in p.labels && p.labels[end] == |c5.instrs|
  {
    hide At;
    var c3 := AddAll(c2, [jump]);
    var c4 := Use(c3, over);
    assert over !in c2.labels && end !in c2.labels && end !in c5.labels;
    assert Extends(c5, Use(c5, end));
    ExtendsTransitive(c5, Use(c5, end), p);
    ExtendsTransitive(c4, c5, p);
    assert Extends(c3, c4);
    ExtendsTransitive(c3, c4, p);
    BlockAt(c2, [jump], p);
  }

  // Where a comparison chain stands after its rungs: it raised, or it stopped
  // at a false comparison (kept items on the stack at the cleanup label), or
  // it is ready for its last comparison.
  ghost predicate ChainPoint(w: World, p: Code, start: Config, ops: seq<Cmpop>, comparators: seq<Expr>, r: EvalResult,
                             keepResult: bool, cleanup: nat, pc: nat, st: seq<Value>)
    requires 0 < |ops| <= |comparators|
  {
    || (r.Exc? && Reach(w, p, start, Raised(r.s)))
    || (r.Val? && !Truth(w, r.v) && exists b ::
          Reach(w, p, start, Run(cleanup, (if keepResult then [r.v] else []) + ([b] + st), r.s)))
    || (exists b, s1 :: EvalChain(w, b, ops, comparators, |ops| - 1, s1) == r && Reach(w, p, start, Run(pc, [b] + st, s1)))
  }

  lemma {:induction false} RungsCorrect(w: World, p: Code, start: Config, ops: seq<Cmpop>, comparators: seq<Expr>, i: nat,
                                        cleanup: Label, c: Code, a: Value, st: seq<Value>, s: State)
    requires i < |ops| <= |comparators| && LabelsInRange(c) && GenRungs(ops, comparators, i, cleanup, c).Some?
    requires Extends(GenRungs(ops, comparators, i, cleanup, c).value, p) && cleanup in p.labels
    requires Reach(w, p, start, Run(|c.instrs|, [a] + st, s))
    ensures ChainPoint(w, p, start, ops, comparators, EvalChain(w, a, ops, comparators, i, s), true,
              p.labels[cleanup], |GenRungs(ops, comparators, i, cleanup, c).value.instrs|, st)
    decreases comparators, |ops| - i
  {
    if i < |ops| - 1 {
      GenExprGrows(comparators[i], c);
      var c1 := GenExpr(comparators[i], c).value;
      var block := [Swap(2), Copy(2), CmpInstr(ops[i]), Copy(1), ToBool, PopJumpIfFalse(cleanup), PopTop];
      var c2 := AddAll(c1, block);
      GenRungsGrows(ops, comparators, i + 1, cleanup, c2);
      ExtendsTransitive(c2, GenRungs(ops, comparators, i + 1, cleanup, c2).value, p);
      BlockAt(c1, block, p);
      ExprCorrect(w, p, start, comparators[i], c, [a] + st, s);
      var rb := Eval(w, comparators[i], s);
      if rb.Val? {
        var b := rb.v;
        assert [b] + ([a] + st) == [b, a] + st;
        RungStep(w, p, start, |c1.instrs|, ops[i], cleanup, a, b, st, rb.s);
        var r := CompareMeaning(w, ops[i], a, b, rb.s);
        if r.Val? {
          if Truth(w, r.v) {
            RungsCorrect(w, p, start, ops, comparators, i + 1, cleanup, c2, b, st, r.s);
          }
        }
      }
    }
  }

  lemma {:induction false} CompareCorrect(w: World, p: Code, start: Config, e: Expr, c: Code, st: seq<Value>, s: State)
    requires e.Compare? && LabelsInRange(c) && GenExpr(e, c).Some? && Extends(GenExpr(e, c).value, p)
    requires Reach(w, p, start, Run(|c.instrs|, st, s))
    ensures Finishes(w, p, start, Eval(w, e, s), |GenExpr(e, c).value.instrs|, st)
    decreases e, 0
  {
    var ops, comparators := e.ops, e.comparators;
    GenExprGrows(e.head, c);
    var c1 := GenExpr(e.head, c).value;
    if |ops| == 1 {
      GenExprGrows(comparators[0], c1);
      var c2 := GenExpr(comparators[0], c1).value;
      BlockAt(c2, [CmpInstr(ops[0])], p);
      assert p.instrs[|c2.instrs| + 0] == [CmpInstr(ops[0])][0];
      ExtendsTransitive(c1, c2, p);
      ExprCorrect(w, p, start, e.head, c, st, s);
      var r1 := Eval(w, e.head, s);
      if r1.Val? {
        ExprCorrect(w, p, start, comparators[0], c1, [r1.v] + st, r1.s);
        var r2 := Eval(w, comparators[0], r1.s);
        if r2.Val? {
          assert [r2.v] + ([r1.v] + st) == [r2.v, r1.v] + st;
          CmpStep(w, p, start, |c2.instrs|, ops[0], r1.v, r2.v, st, r2.s);
        }
      }
    } else {
      ChainCorrect(w, p, start, e, c, st, s);
    }
  }

  // The last comparison of a chain in value form and its cleanup.
  lemma {:induction false} ChainTailLayout(c3: Code, op: Cmpop, cleanup: Label, end: Label, p: Code)
    requires cleanup !in c3.labels && end !in c3.labels && cleanup != end
    requires Extends(EndChain(c3, op, cleanup, end), p)
    ensures Extends(c3, p)
    ensures At(p, |c3.instrs|, [CmpInstr(op), JumpNoInterrupt(end)]) && At(p, |c3.instrs| + 2, [Swap(2), PopTop])
    ensures cleanup in p.labels && p.labels[cleanup] == |c3.instrs| + 2
    ensures end in p.labels && p.labels[end] == |c3.instrs| + 4
  {
    var block1, block2 := [CmpInstr(op), JumpNoInterrupt(end)], [Swap(2), PopTop];
    var c4 := Use(AddAll(c3, block1), cleanup);
    var c5 := AddAll(c4, block2);
    assert Extends(c5, Use(c5, end));
    ExtendsTransitive(c5, Use(c5, end), p);
    BlockAt(c4, block2, p);
    assert Extends(AddAll(c3, block1), c4);
    ExtendsTransitive(AddAll(c3, block1), c4, p);
    BlockAt(c3, block1, p);
  }

  lemma {:induction false} ChainTail(w: World, p: Code, start: Config, pc: nat, op: Cmpop, cleanup: Label, end: Label, b: Value, v: Value, st: seq<Value>, s: State)
    requires Reach(w, p, start, Run(pc, [v] + ([b] + st), s))
    requires At(p, pc, [CmpInstr(op), JumpNoInterrupt(end)]) && end in p.labels
    ensures Finishes(w, p, start, CompareMeaning(w, op, b, v, s), p.labels[end], st)
  {
    var block := [CmpInstr(op), JumpNoInterrupt(end)];
    AtOne(p, pc, block, 0);
    AtOne(p, pc, block, 1);
    assert [v] + ([b] + st) == [v, b] + st;
    CmpStep(w, p, start, pc, op, b, v, st, s);
    var r := CompareMeaning(w, op, b, v, s);
    if r.Val? {
      OpJump(w, p, start, pc + 1, JumpNoInterrupt(end), [r.v] + st, r.s);
    }
  }

  lemma {:induction false} ChainCleanup(w: World, p: Code, start: Config, pc: nat, r: Value, b: Value, st: seq<Value>, s: State)
    requires Reach(w, p, start, Run(pc, [r] + ([b] + st), s)) && At(p, pc, [Swap(2), PopTop])
    ensures Reach(w, p, start, Run(pc + 2, [r] + st, s))
  {
    AtOne(p, pc, [Swap(2), PopTop], 0);
    AtOne(p, pc, [Swap(2), PopTop], 1);
    assert [r] + ([b] + st) == [r, b] + st && [b, r] + st == [b] + ([r] + st);
    SwapTwoStep(w, p, start, pc, r, b, st, s);
    PopStep(w, p, start, pc + 1, b, [r] + st, s);
  }

  lemma {:induction false} ChainCorrect(w: World, p: Code, start: Config, e: Expr, c: Code, st: seq<Value>, s: State)
    requires e.Compare? && |e.ops| > 1
    requires LabelsInRange(c) && GenExpr(e, c).Some? && Extends(GenExpr(e, c).value, p)
    requires Reach(w, p, start, Run(|c.instrs|, st, s))
    ensures Finishes(w, p, start, Eval(w, e, s), |GenExpr(e, c).value.instrs|, st)
    decreases e, 0, 1
  {
    hide Reach, At, GenJumpIf, Truth;
    var ops, comparators, last := e.ops, e.comparators, |e.ops| - 1;
    GenExprGrows(e.head, c);
    var c1 := GenExpr(e.head, c).value;
    var cleanup, end := c1.next, c1.next + 1;
    var c1' := c1.(next := c1.next + 2);
    GenRungsGrows(ops, comparators, 0, cleanup, c1');
    var c2 := GenRungs(ops, comparators, 0, cleanup, c1').value;
    GenExprGrows(comparators[last], c2);
    var c3 := GenExpr(comparators[last], c2).value;
    GrowsTransitive(c1', c2, c3);
    ChainTailLayout(c3, ops[last], cleanup, end, p);
    ExtendsTransitive(c2, c3, p);
    ExtendsTransitive(c1', c2, p);
    ExprCorrect(w, p, start, e.head, c, st, s);
    var r1 := Eval(w, e.head, s);
    if r1.Val? {
      RungsCorrect(w, p, start, ops, comparators, 0, cleanup, c1', r1.v, st, r1.s);
      ChainFinish(w, p, start, e, cleanup, end, c2, EvalChain(w, r1.v, ops, comparators, 0, r1.s), st);
    }
  }

  // After the rungs of a chain in value form.
  lemma {:induction false} ChainFinish(w: World, p: Code, start: Config, e: Expr, cleanup: Label, end: Label, c2: Code, r: EvalResult, st: seq<Value>)
    requires e.Compare? && 1 < |e.ops| <= |e.comparators| && LabelsInRange(c2)
    requires GenExpr(e.comparators[|e.ops| - 1], c2).Some?
    requires var c3 := GenExpr(e.comparators[|e.ops| - 1], c2).value;
             && Extends(c3, p)
             && At(p, |c3.instrs|, [CmpInstr(e.ops[|e.ops| - 1]), JumpNoInterrupt(end)])
             && At(p, |c3.instrs| + 2, [Swap(2), PopTop])
             && cleanup in p.labels && p.labels[cleanup] == |c3.instrs| + 2
             && end in p.labels && p.labels[end] == |c3.instrs| + 4
    requires ChainPoint(w, p, start, e.ops, e.comparators, r, true, p.labels[cleanup], |c2.instrs|, st)
    ensures Finishes(w, p, start, r, p.labels[end], st)
    decreases e, 0, 0
  {
    var ops, comparators, last := e.ops, e.comparators, |e.ops| - 1;
    var c3 := GenExpr(comparators[last], c2).value;
    if r.Exc? && Reach(w, p, start, Raised(r.s)) {
    } else if b :| r.Val? && !Truth(w, r.v) && Reach(w, p, start, Run(|c3.instrs| + 2, [r.v] + ([b] + st), r.s)) {
      ChainCleanup(w, p, start, |c3.instrs| + 2, r.v, b, st, r.s);
    } else {
      var b, s1 :| EvalChain(w, b, ops, comparators, last, s1) == r && Reach(w, p, start, Run(|c2.instrs|, [b] + st, s1));
      ExprCorrect(w, p, start, comparators[last], c2, [b] + st, s1);
      var rl := Eval(w, comparators[last], s1);
      if rl.Val? {
        ChainTail(w, p, start, |c3.instrs|, ops[last], cleanup, end, b, rl.v, st, rl.s);
      }
    }
  }

  // ----- branch form -----

  lemma {:induction false} JumpIfCorrect(w: World, p: Code, start: Config, e: Expr, next: Label, cond: bool, c: Code, st: seq<Value>, s: State)
    requires LabelsInRange(c) && next < c.next && GenJumpIf(e, next, cond, c).Some?
    requires Extends(GenJumpIf(e, next, cond, c).value, p) && next in p.labels
    requires Reach(w, p, start, Run(|c.instrs|, st, s))
    ensures Branches(w, p, start, Eval(w, e, s), cond, p.labels[next], |GenJumpIf(e, next, cond, c).value.instrs|, st)
    decreases e, 3
  {
    hide Reach, Extends, At, GenExpr, LabelsInRange;
    if e.UnaryOp? && e.uop == Not {
      JumpIfCorrect(w, p, start, e.operand, next, !cond, c, st, s);
    } else if e.BoolOp? && e.values != [] {
      JumpIfBoolCorrect(w, p, start, e, next, cond, c, st, s);
    } else if e.IfExp? {
      JumpIfExpCorrect(w, p, start, e, next, cond, c, st, s);
    } else if e.Compare? && |e.ops| > 1 {
      JumpChainCorrect(w, p, start, e, next, cond, c, st, s);
    } else {
      JumpIfTestCorrect(w, p, start, e, next, cond, c, st, s);
    }
  }

  lemma {:induction false} JumpIfBoolCorrect(w: World, p: Code, start: Config, e: Expr, next: Label, cond: bool, c: Code, st: seq<Value>, s: State)
    requires e.BoolOp? && e.values != []
    requires LabelsInRange(c) && next < c.next && GenJumpIf(e, next, cond, c).Some?
    requires Extends(GenJumpIf(e, next, cond, c).value, p) && next in p.labels
    requires Reach(w, p, start, Run(|c.instrs|, st, s))
    ensures Branches(w, p, start, Eval(w, e, s), cond, p.labels[next], |GenJumpIf(e, next, cond, c).value.instrs|, st)
    decreases e, 2
  {
    hide Reach, At, GenExpr;
    var inverted := e.isOr != cond;
    var next2 := if inverted then c.next else next;
    var c0 := if inverted then Fresh(c) else c;
    GenJumpOperandsGrows(e.values, 0, next2, e.isOr, next, cond, c0);
    var c1 := GenJumpOperands(e.values, 0, next2, e.isOr, next, cond, c0).value;
    assert Extends(c1, GenJumpIf(e, next, cond, c).value);
    ExtendsTransitive(c1, GenJumpIf(e, next, cond, c).value, p);
    JumpOperandsCorrect(w, p, start, e.values, 0, next2, e.isOr, next, cond, c0, st, s);
  }

  // The general case: the value form, then a test.
  lemma {:induction false} JumpIfTestCorrect(w: World, p: Code, start: Config, e: Expr, next: Label, cond: bool, c: Code, st: seq<Value>, s: State)
    requires !(e.UnaryOp? && e.uop == Not) && !(e.BoolOp? && e.values != []) && !e.IfExp? && !(e.Compare? && |e.ops| > 1)
    requires LabelsInRange(c) && next < c.next && GenJumpIf(e, next, cond, c).Some?
    requires Extends(GenJumpIf(e, next, cond, c).value, p) && next in p.labels
    requires Reach(w, p, start, Run(|c.instrs|, st, s))
    ensures Branches(w, p, start, Eval(w, e, s), cond, p.labels[next], |GenJumpIf(e, next, cond, c).value.instrs|, st)
    decreases e, 2
  {
    hide Reach, Extends, At, GenExpr, Eval;
    var c1 := GenExpr(e, c).value;
    var block := [ToBool, Branch(cond, next)];
    BlockAt(c1, block, p);
    ExprCorrect(w, p, start, e, c, st, s);
    var r := Eval(w, e, s);
    if r.Val? {
      AtOne(p, |c1.instrs|, block, 0);
      AtOne(p, |c1.instrs|, block, 1);
      TestStep(w, p, start, |c1.instrs|, r.v, st, r.s, cond, next);
    }
  }

  lemma {:induction false} JumpOperandsCorrect(w: World, p: Code, start: Config, values: seq<Expr>, i: nat, next2: Label, cond2: bool,
                                               next: Label, cond: bool, c: Code, st: seq<Value>, s: State)
    requires i < |values| && LabelsInRange(c) && next < c.next && next2 < c.next
    requires GenJumpOperands(values, i, next2, cond2, next, cond, c).Some?
    requires Extends(GenJumpOperands(values, i, next2, cond2, next, cond, c).value, p)
    requires next in p.labels && next2 in p.labels
    requires if cond2 == cond then next2 == next
             else p.labels[next2] == |GenJumpOperands(values, i, next2, cond2, next, cond, c).value.instrs|
    requires Reach(w, p, start, Run(|c.instrs|, st, s))
    ensures Branches(w, p, start, EvalBool(w, cond2, values, i, s), cond, p.labels[next],
              |GenJumpOperands(values, i, next2, cond2, next, cond, c).value.instrs|, st)
    decreases values, |values| - i
  {
    if i == |values| - 1 {
      JumpIfCorrect(w, p, start, values[i], next, cond, c, st, s);
    } else {
      GenJumpIfGrows(values[i], next2, cond2, c);
      var c1 := GenJumpIf(values[i], next2, cond2, c).value;
      GenJumpOperandsGrows(values, i + 1, next2, cond2, next, cond, c1);
      ExtendsTransitive(c1, GenJumpOperands(values, i + 1, next2, cond2, next, cond, c1).value, p);
      JumpIfCorrect(w, p, start, values[i], next2, cond2, c, st, s);
      var r := Eval(w, values[i], s);
      if r.Val? && Truth(w, r.v) != cond2 {
        JumpOperandsCorrect(w, p, start, values, i + 1, next2, cond2, next, cond, c1, st, r.s);
      }
    }
  }

  lemma {:induction false} JumpIfExpCorrect(w: World, p: Code, start: Config, e: Expr, next: Label, cond: bool, c: Code, st: seq<Value>, s: State)
    requires e.IfExp? && LabelsInRange(c) && next < c.next && GenJumpIf(e, next, cond, c).Some?
    requires Extends(GenJumpIf(e, next, cond, c).value, p) && next in p.labels
    requires Reach(w, p, start, Run(|c.instrs|, st, s))
    ensures Branches(w, p, start, Eval(w, e, s), cond, p.labels[next], |GenJumpIf(e, next, cond, c).value.instrs|, st)
    decreases e, 1
  {
    hide Extends, Reach, At, LabelsInRange, GenExpr;
    var end, next2, c0 := c.next, c.next + 1, c.(next := c.next + 2);
    var c1 := GenJumpIf(e.test, next2, false, c0).value;
    var c2 := GenJumpIf(e.body, next, cond, c1).value;
    var c4 := Use(AddAll(c2, [JumpNoInterrupt(end)]), next2);
    var c5 := GenJumpIf(e.orelse, next, cond, c4).value;
    JumpIfExpLayout(e, next, cond, c, c1, c2, c4, c5, p);
    AtOne(p, |c2.instrs|, [JumpNoInterrupt(end)], 0);
    JumpIfCorrect(w, p, start, e.test, next2, false, c0, st, s);
    var r := Eval(w, e.test, s);
    if r.Val? {
      if Truth(w, r.v) {
        JumpIfCorrect(w, p, start, e.body, next, cond, c1, st, r.s);
        var r2 := Eval(w, e.body, r.s);
        if r2.Val? && Truth(w, r2.v) != cond {
          OpJump(w, p, start, |c2.instrs|, JumpNoInterrupt(end), st, r2.s);
        }
      } else {
        JumpIfCorrect(w, p, start, e.orelse, next, cond, c4, st, r.s);
      }
    }
  }

  lemma {:induction false} JumpIfExpLayout(e: Expr, next: Label, cond: bool, c: Code, c1: Code, c2: Code, c4: Code, c5: Code, p: Code)
    requires e.IfExp? && LabelsInRange(c) && next < c.next && GenJumpIf(e, next, cond, c).Some?
    requires Extends(GenJumpIf(e, next, cond, c).value, p)
    requires GenJumpIf(e.test, c.next + 1, false, c.(next := c.next + 2)) == Some(c1) && GenJumpIf(e.body, next, cond, c1) == Some(c2)
    requires c4 == Use(AddAll(c2, [JumpNoInterrupt(c.next)]), c.next + 1) && GenJumpIf(e.orelse, next, cond, c4) == Some(c5)
    ensures GenJumpIf(e, next, cond, c) == Some(Use(c5, c.next))
    ensures LabelsInRange(c.(next := c.next + 2)) && LabelsInRange(c1) && next < c1.next && LabelsInRange(c4) && next < c4.next
    ensures Extends(c1, p) && Extends(c2, p) && Extends(c5, p) && At(p, |c2.instrs|, [JumpNoInterrupt(c.next)])
    ensures c.next in p.labels && p.labels[c.next] == |c5.instrs| && c.next + 1 in p.labels && p.labels[c.next + 1] == |c4.instrs|
  {
    hide GenExpr, At;
    var c0, c3 := c.(next := c.next + 2), AddAll(c2, [JumpNoInterrupt(c.next)]);
    GenJumpIfGrows(e.test, c.next + 1, false, c0);
    GenJumpIfGrows(e.body, next, cond, c1);
    GrowsTransitive(c0, c1, c2);
    GenJumpIfGrows(e.orelse, next, cond, c4);
    JoinLayout(c0, c2, JumpNoInterrupt(c.next), c.next + 1, c5, c.next, p);
    ExtendsTransitive(c1, c2, p);
  }

  lemma {:induction false} JumpRungsCorrect(w: World, p: Code, start: Config, ops: seq<Cmpop>, comparators: seq<Expr>, i: nat,
                                            cleanup: Label, c: Code, a: Value, st: seq<Value>, s: State)
    requires i < |ops| <= |comparators| && LabelsInRange(c) && GenJumpRungs(ops, comparators, i, cleanup, c).Some?
    requires Extends(GenJumpRungs(ops, comparators, i, cleanup, c).value, p) && cleanup in p.labels
    requires Reach(w, p, start, Run(|c.instrs|, [a] + st, s))
    ensures ChainPoint(w, p, start, ops, comparators, EvalChain(w, a, ops, comparators, i, s), false,
              p.labels[cleanup], |GenJumpRungs(ops, comparators, i, cleanup, c).value.instrs|, st)
    decreases comparators, |ops| - i
  {
    if i < |ops| - 1 {
      GenExprGrows(comparators[i], c);
      var c1 := GenExpr(comparators[i], c).value;
      var block := [Swap(2), Copy(2), CmpInstr(ops[i]), ToBool, PopJumpIfFalse(cleanup)];
      var c2 := AddAll(c1, block);
      GenJumpRungsGrows(ops, comparators, i + 1, cleanup, c2);
      ExtendsTransitive(c2, GenJumpRungs(ops, comparators, i + 1, cleanup, c2).value, p);
      BlockAt(c1, block, p);
      ExprCorrect(w, p, start, comparators[i], c, [a] + st, s);
      var rb := Eval(w, comparators[i], s);
      if rb.Val? {
        var b := rb.v;
        assert [b] + ([a] + st) == [b, a] + st;
        JumpRungStep(w, p, start, |c1.instrs|, ops[i], cleanup, a, b, st, rb.s);
        var r := CompareMeaning(w, ops[i], a, b, rb.s);
        if r.Val? {
          if Truth(w, r.v) {
            JumpRungsCorrect(w, p, start, ops, comparators, i + 1, cleanup, c2, b, st, r.s);
          } else {
            assert [] + ([b] + st) == [b] + st;
          }
        }
      }
    }
  }

  // The last comparison of a chain in branch form and its cleanup.
  lemma {:induction false} JumpChainLayout(c3: Code, op: Cmpop, cleanup: Label, cond: bool, next: Label, p: Code)
    requires cleanup !in c3.labels && c3.next !in c3.labels && cleanup != c3.next
    requires Extends(EndJumpChain(c3, op, cleanup, cond, next), p)
    ensures Extends(c3, p)
    ensures At(p, |c3.instrs|, [CmpInstr(op), ToBool, Branch(cond, next)])
    ensures At(p, |c3.instrs| + 3, [JumpNoInterrupt(c3.next)])
    ensures At(p, |c3.instrs| + 4, if cond then [PopTop] else [PopTop, JumpNoInterrupt(next)])
    ensures cleanup in p.labels && p.labels[cleanup] == |c3.instrs| + 4
    ensures c3.next in p.labels && p.labels[c3.next] == |c3.instrs| + (if cond then 5 else 6)
  {
    var block1, block2 := [CmpInstr(op), ToBool, Branch(cond, next)], [JumpNoInterrupt(c3.next)];
    var block3 := if cond then [PopTop] else [PopTop, JumpNoInterrupt(next)];
    var c4 := Fresh(AddAll(c3, block1));
    var c5 := Use(AddAll(c4, block2), cleanup);
    var c6 := AddAll(c5, block3);
    assert Extends(c6, Use(c6, c3.next));
    ExtendsTransitive(c6, Use(c6, c3.next), p);
    BlockAt(c5, block3, p);
    assert Extends(AddAll(c4, block2), c5);
    ExtendsTransitive(AddAll(c4, block2), c5, p);
    BlockAt(c4, block2, p);
    assert Extends(AddAll(c3, block1), p);
    BlockAt(c3, block1, p);
  }

  lemma {:induction false} JumpChainTail(w: World, p: Code, start: Config, pc: nat, op: Cmpop, cond: bool, next: Label, end: Label, b: Value, v: Value, st: seq<Value>, s: State)
    requires Reach(w, p, start, Run(pc, [v] + ([b] + st), s)) && next in p.labels && end in p.labels
    requires At(p, pc, [CmpInstr(op), ToBool, Branch(cond, next)]) && At(p, pc + 3, [JumpNoInterrupt(end)])
    ensures Branches(w, p, start, CompareMeaning(w, op, b, v, s), cond, p.labels[next], p.labels[end], st)
  {
    var block := [CmpInstr(op), ToBool, Branch(cond, next)];
    AtOne(p, pc, block, 0);
    AtOne(p, pc, block, 1);
    AtOne(p, pc, block, 2);
    AtOne(p, pc + 3, [JumpNoInterrupt(end)], 0);
    assert [v] + ([b] + st) == [v, b] + st;
    CmpStep(w, p, start, pc, op, b, v, st, s);
    var r := CompareMeaning(w, op, b, v, s);
    if r.Val? {
      TestStep(w, p, start, pc + 1, r.v, st, r.s, cond, next);
      if Truth(w, r.v) != cond {
        OpJump(w, p, start, pc + 3, JumpNoInterrupt(end), st, r.s);
      }
    }
  }

  lemma {:induction false} JumpChainCleanup(w: World, p: Code, start: Config, pc: nat, cond: bool, next: Label, b: Value, st: seq<Value>, s: State)
    requires Reach(w, p, start, Run(pc, [b] + st, s)) && next in p.labels
    requires At(p, pc, if cond then [PopTop] else [PopTop, JumpNoInterrupt(next)])
    ensures Reach(w, p, start, Run(if cond then pc + 1 else p.labels[next], st, s))
  {
    var block := if cond then [PopTop] else [PopTop, JumpNoInterrupt(next)];
    AtOne(p, pc, block, 0);
    PopStep(w, p, start, pc, b, st, s);
    if !cond {
      AtOne(p, pc, block, 1);
      OpJump(w, p, start, pc + 1, JumpNoInterrupt(next), st, s);
    }
  }

  lemma {:induction false} JumpChainCorrect(w: World, p: Code, start: Config, e: Expr, next: Label, cond: bool, c: Code, st: seq<Value>, s: State)
    requires e.Compare? && |e.ops| > 1 && LabelsInRange(c) && next < c.next && GenJumpIf(e, next, cond, c).Some?
    requires Extends(GenJumpIf(e, next, cond, c).value, p) && next in p.labels
    requires Reach(w, p, start, Run(|c.instrs|, st, s))
    ensures Branches(w, p, start, Eval(w, e, s), cond, p.labels[next], |GenJumpIf(e, next, cond, c).value.instrs|, st)
    decreases e, 1
  {
    hide Extends, At, Reach, Truth;
    var ops, comparators, last := e.ops, e.comparators, |e.ops| - 1;
    var cleanup := c.next;
    GenExprGrows(e.head, Fresh(c));
    var c1 := GenExpr(e.head, Fresh(c)).value;
    GenJumpRungsGrows(ops, comparators, 0, cleanup, c1);
    var c2 := GenJumpRungs(ops, comparators, 0, cleanup, c1).value;
    GenExprGrows(comparators[last], c2);
    var c3 := GenExpr(comparators[last], c2).value;
    GrowsTransitive(c1, c2, c3);
    GrowsTransitive(Fresh(c), c1, c3);
    JumpChainLayout(c3, ops[last], cleanup, cond, next, p);
    ExtendsTransitive(c2, c3, p);
    ExtendsTransitive(c1, c2, p);
    ExprCorrect(w, p, start, e.head, Fresh(c), st, s);
    var r1 := Eval(w, e.head, s);
    if r1.Val? {
      JumpRungsCorrect(w, p, start, ops, comparators, 0, cleanup, c1, r1.v, st, r1.s);
      JumpChainFinish(w, p, start, e, next, cond, cleanup, c2, EvalChain(w, r1.v, ops, comparators, 0, r1.s), st);
    }
  }

  // After the rungs of a chain in branch form.
  lemma {:induction false} JumpChainFinish(w: World, p: Code, start: Config, e: Expr, next: Label, cond: bool, cleanup: Label, c2: Code, r: EvalResult, st: seq<Value>)
    requires e.Compare? && 1 < |e.ops| <= |e.comparators| && LabelsInRange(c2)
    requires GenExpr(e.comparators[|e.ops| - 1], c2).Some?
    requires var c3 := GenExpr(e.comparators[|e.ops| - 1], c2).value;
             && Extends(c3, p) && next in p.labels
             && At(p, |c3.instrs|, [CmpInstr(e.ops[|e.ops| - 1]), ToBool, Branch(cond, next)])
             && At(p, |c3.instrs| + 3, [JumpNoInterrupt(c3.next)])
             && At(p, |c3.instrs| + 4, if cond then [PopTop] else [PopTop, JumpNoInterrupt(next)])
             && cleanup in p.labels && p.labels[cleanup] == |c3.instrs| + 4
             && c3.next in p.labels && p.labels[c3.next] == |c3.instrs| + (if cond then 5 else 6)
    requires ChainPoint(w, p, start, e.ops, e.comparators, r, false, p.labels[cleanup], |c2.instrs|, st)
    ensures var end := p.labels[GenExpr(e.comparators[|e.ops| - 1], c2).value.next];
            Branches(w, p, start, r, cond, p.labels[next], end, st)
    decreases e, 0
  {
    var ops, comparators, last := e.ops, e.comparators, |e.ops| - 1;
    var c3 := GenExpr(comparators[last], c2).value;
    if r.Exc? && Reach(w, p, start, Raised(r.s)) {
    } else if b :| r.Val? && !Truth(w, r.v) && Reach(w, p, start, Run(|c3.instrs| + 4, [] + ([b] + st), r.s)) {
      assert [] + ([b] + st) == [b] + st;
      JumpChainCleanup(w, p, start, |c3.instrs| + 4, cond, next, b, st, r.s);
    } else {
      var b, s1 :| EvalChain(w, b, ops, comparators, last, s1) == r && Reach(w, p, start, Run(|c2.instrs|, [b] + st, s1));
      ExprCorrect(w, p, start, comparators[last], c2, [b] + st, s1);
      var rl := Eval(w, comparators[last], s1);
      if rl.Val? {
        JumpChainTail(w, p, start, |c3.instrs|, ops[last], cond, next, c3.next, b, rl.v, st, rl.s);
      }
    }
  }

  // The branch form does what the value form followed by a truth test does:
  // from one start, in code that holds both, they either raise in the same
  // state, or arrive in the same state (so with the same actions, in the same
  // order) with the value on the stack and with the branch taken on its truth.
  lemma FormsAgree(w: World, p: Code, q: Code, e: Expr, next: Label, cond: bool, c: Code, d: Code, st: seq<Value>, s: State)
    requires LabelsInRange(c) && GenExpr(e, c).Some? && Extends(GenExpr(e, c).value, p)
    requires LabelsInRange(d) && next < d.next && GenJumpIf(e, next, cond, d).Some?
    requires Extends(GenJumpIf(e, next, cond, d).value, q) && next in q.labels
    ensures var a, b := Run(|c.instrs|, st, s), Run(|d.instrs|, st, s);
            var end, fall := |GenExpr(e, c).value.instrs|, |GenJumpIf(e, next, cond, d).value.instrs|;
            || (exists s' :: Reach(w, p, a, Raised(s')) && Reach(w, q, b, Raised(s')))
            || (exists v, s' :: Reach(w, p, a, Run(end, [v] + st, s'))
                 && Reach(w, q, b, Run(if Truth(w, v) == cond then q.labels[next] else fall, st, s')))
  {
    hide Reach, Extends, GenExpr, GenJumpIf, Eval, LabelsInRange;
    var a, b := Run(|c.instrs|, st, s), Run(|d.instrs|, st, s);
    ReachSelf(w, p, a);
    ReachSelf(w, q, b);
    ExprCorrect(w, p, a, e, c, st, s);
    JumpIfCorrect(w, q, b, e, next, cond, d, st, s);
  }
}
