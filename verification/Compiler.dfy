// The code generator as it runs: a compiler object that appends instructions
// and hands out labels, and a pattern scratch object that every pattern method
// updates.  Each method is proved to leave exactly the code and the context
// that its specification function computes from the state before the call.
module CodeGenerator {
  import opened Machine
  import opened Expressions
  import opened Patterns
  import opened PatternFrames
  import opened MatchStatement

  // Scratch space of one match statement.
  class PatternScratch {
    var stores: seq<string>
    var allowIrrefutable: bool
    var failPop: seq<Label>
    var onTop: nat

    constructor ()
      ensures Value() == PatternContext([], false, [], 0)
    {
      stores, allowIrrefutable, failPop, onTop := [], false, [], 0;
    }

    function Value(): PatternContext
      reads this
    {
      PatternContext(stores, allowIrrefutable, failPop, onTop)
    }
  }

  class Compiler {
    var instrs: seq<Instr>
    var labels: map<Label, nat>
    var nextFreeLabel: Label

    constructor ()
      ensures Contents() == Code([], map[], 0)
    {
      instrs, labels, nextFreeLabel := [], map[], 0;
    }

    function Contents(): Code
      reads this
    {
      Code(instrs, labels, nextFreeLabel)
    }

    // ----- the instruction sequence -----

    method NewLabel() returns (l: Label)
      modifies this
      ensures l == old(nextFreeLabel) && Contents() == Fresh(old(Contents()))
    {
      l := nextFreeLabel;
      nextFreeLabel := nextFreeLabel + 1;
    }

    method UseLabel(l: Label)
      modifies this
      ensures Contents() == Use(old(Contents()), l)
    {
      labels := labels[l := |instrs|];
    }

    method AddOp(i: Instr)
      modifies this
      ensures Contents() == AddAll(old(Contents()), [i])
    {
      instrs := instrs + [i];
    }

    // Several opcodes in a row.
    method AddOps(block: seq<Instr>)
      modifies this
      ensures Contents() == AddAll(old(Contents()), block)
    {
      instrs := instrs + block;
    }

    // ----- expressions -----

    method VisitExpr(e: Expr) returns (ok: bool)
      modifies this
      ensures ok == GenExpr(e, old(Contents())).Some?
      ensures ok ==> Contents() == GenExpr(e, old(Contents())).value
      decreases e, 1
    {
      match e
      case Constant(v) => AddOp(LoadConst(v)); ok := true;
      case Other(id) => AddOp(LoadLeaf(id)); ok := true;
      case Attribute(value, attr) =>
        ok := VisitExpr(value);
        if ok { AddOp(LoadAttr(attr)); }
      case BoolOp(isOr, values) => ok := VisitBoolOp(isOr, values);
      case BinOp(left, op, right) =>
        ok := VisitExpr(left);
        if ok { ok := VisitExpr(right); }
        if ok { AddOp(BinaryOp(OperatorCode(op))); }
      case UnaryOp(op, operand) =>
        ok := VisitExpr(operand);
        if ok { AddOps(UnaryCode(op)); }
      case Compare(_, _, _) => ok := VisitCompare(e);
      case IfExp(_, _, _) => ok := VisitIfExp(e);
    }

    method VisitBoolOp(isOr: bool, values: seq<Expr>) returns (ok: bool)
      modifies this
      ensures ok == GenExpr(BoolOp(isOr, values), old(Contents())).Some?
      ensures ok ==> Contents() == GenExpr(BoolOp(isOr, values), old(Contents())).value
      decreases values, |values| + 1
    {
      if |values| < 2 { return false; }
      var end := NewLabel();
      ghost var c0 := Contents();
      var i := 0;
      while true
        invariant 0 <= i < |values|
        invariant GenBool(values, 0, isOr, end, c0) == GenBool(values, i, isOr, end, Contents())
        decreases |values| - i
      {
        ok := VisitExpr(values[i]);
        if !ok { return false; }
        if i == |values| - 1 { break; }
        AddOps([Copy(1), ToBool, Branch(isOr, end), PopTop]);
        i := i + 1;
      }
      UseLabel(end);
    }

    method VisitIfExp(e: Expr) returns (ok: bool)
      requires e.IfExp?
      modifies this
      ensures ok == GenExpr(e, old(Contents())).Some?
      ensures ok ==> Contents() == GenExpr(e, old(Contents())).value
      decreases e, 0
    {
      var elseLab := NewLabel();
      var endLab := NewLabel();
      ok := CodegenJumpIf(e.test, elseLab, false);
      if ok { ok := VisitExpr(e.body); }
      if ok {
        AddOp(Jump(endLab));
        UseLabel(elseLab);
        ok := VisitExpr(e.orelse);
        if ok { UseLabel(endLab); }
      }
    }

    method VisitCompare(e: Expr) returns (ok: bool)
      requires e.Compare?
      modifies this
      ensures ok == GenExpr(e, old(Contents())).Some?
      ensures ok ==> Contents() == GenExpr(e, old(Contents())).value
      decreases e, 0
    {
      if e.ops == [] || |e.ops| != |e.comparators| { return false; }
      ok := VisitExpr(e.head);
      if !ok { return; }
      if |e.ops| == 1 {
        ok := VisitExpr(e.comparators[0]);
        if ok { AddOp(CmpInstr(e.ops[0])); }
        return;
      }
      ok := VisitChain(e);
    }

    // The chained form, after its first operand.
    method VisitChain(e: Expr) returns (ok: bool)
      requires e.Compare? && 1 < |e.ops| == |e.comparators|
      modifies this
      ensures var cleanup, end, c1 := old(nextFreeLabel), old(nextFreeLabel) + 1, old(Contents()).(next := old(nextFreeLabel) + 2);
              var last := |e.ops| - 1;
              var c2 := GenRungs(e.ops, e.comparators, 0, cleanup, c1);
              && ok == (c2.Some? && GenExpr(e.comparators[last], c2.value).Some?)
              && (ok ==> Contents() == EndChain(GenExpr(e.comparators[last], c2.value).value, e.ops[last], cleanup, end))
      decreases e, 0, 0
    {
      var cleanup := NewLabel();
      var end := NewLabel();
      var last := |e.ops| - 1;
      ghost var c0 := Contents();
      for i := 0 to last
        invariant GenRungs(e.ops, e.comparators, 0, cleanup, c0) == GenRungs(e.ops, e.comparators, i, cleanup, Contents())
      {
        ok := VisitExpr(e.comparators[i]);
        if !ok { return; }
        AddOps([Swap(2), Copy(2), CmpInstr(e.ops[i]), Copy(1), ToBool, PopJumpIfFalse(cleanup), PopTop]);
      }
      ok := VisitExpr(e.comparators[last]);
      if !ok { return; }
      AddOps([CmpInstr(e.ops[last]), JumpNoInterrupt(end)]);
      UseLabel(cleanup);
      AddOps([Swap(2), PopTop]);
      UseLabel(end);
    }

    method CodegenJumpIf(e: Expr, next: Label, cond: bool) returns (ok: bool)
      modifies this
      ensures ok == GenJumpIf(e, next, cond, old(Contents())).Some?
      ensures ok ==> Contents() == GenJumpIf(e, next, cond, old(Contents())).value
      decreases e, 2
    {
      if e.UnaryOp? && e.uop == Not {
        ok := CodegenJumpIf(e.operand, next, !cond);
      } else if e.BoolOp? && e.values != [] {
        ok := JumpIfBoolOp(e, next, cond);
      } else if e.IfExp? {
        var end := NewLabel();
        var next2 := NewLabel();
        ok := CodegenJumpIf(e.test, next2, false);
        if ok { ok := CodegenJumpIf(e.body, next, cond); }
        if ok {
          AddOp(JumpNoInterrupt(end));
          UseLabel(next2);
          ok := CodegenJumpIf(e.orelse, next, cond);
          if ok { UseLabel(end); }
        }
      } else if e.Compare? && |e.ops| > 1 {
        ok := JumpIfCompare(e, next, cond);
      } else {
        ok := VisitExpr(e);
        if ok { AddOps([ToBool, Branch(cond, next)]); }
      }
    }

    method JumpIfBoolOp(e: Expr, next: Label, cond: bool) returns (ok: bool)
      requires e.BoolOp? && e.values != []
      modifies this
      ensures ok == GenJumpIf(e, next, cond, old(Contents())).Some?
      ensures ok ==> Contents() == GenJumpIf(e, next, cond, old(Contents())).value
      decreases e, 1
    {
      var n := |e.values| - 1;
      var cond2 := e.isOr;
      var next2 := next;
      if cond2 != cond { next2 := NewLabel(); }
      ghost var c0 := Contents();
      for i := 0 to n
        invariant GenJumpOperands(e.values, 0, next2, cond2, next, cond, c0)
               == GenJumpOperands(e.values, i, next2, cond2, next, cond, Contents())
      {
        ok := CodegenJumpIf(e.values[i], next2, cond2);
        if !ok { return; }
      }
      ok := CodegenJumpIf(e.values[n], next, cond);
      if ok && next2 != next { UseLabel(next2); }
    }

    method JumpIfCompare(e: Expr, next: Label, cond: bool) returns (ok: bool)
      requires e.Compare? && |e.ops| > 1
      modifies this
      ensures ok == GenJumpIf(e, next, cond, old(Contents())).Some?
      ensures ok ==> Contents() == GenJumpIf(e, next, cond, old(Contents())).value
      decreases e, 1
    {
      hide GenExpr;
      var n := |e.ops| - 1;
      if |e.comparators| <= n { return false; }
      var cleanup := NewLabel();
      ok := VisitExpr(e.head);
      if !ok { return; }
      ghost var c0 := Contents();
      for i := 0 to n
        invariant GenJumpRungs(e.ops, e.comparators, 0, cleanup, c0) == GenJumpRungs(e.ops, e.comparators, i, cleanup, Contents())
      {
        ok := VisitExpr(e.comparators[i]);
        if !ok { return; }
        AddOps([Swap(2), Copy(2), CmpInstr(e.ops[i]), ToBool, PopJumpIfFalse(cleanup)]);
      }
      ok := VisitExpr(e.comparators[n]);
      if !ok { return; }
      AddOps([CmpInstr(e.ops[n]), ToBool, Branch(cond, next)]);
      var end := NewLabel();
      AddOp(JumpNoInterrupt(end));
      UseLabel(cleanup);
      AddOp(PopTop);
      if !cond { AddOp(JumpNoInterrupt(next)); }
      UseLabel(end);
    }

    // ----- fail-pop blocks -----

    method EnsureFailPopLabels(pc: PatternScratch, n: nat)
      modifies this, pc
      ensures (Contents(), pc.Value()) == EnsureFailPop(old(Contents()), old(pc.Value()), n)
    {
      while |pc.failPop| < n + 1
        invariant EnsureFailPop(Contents(), pc.Value(), n) == EnsureFailPop(old(Contents()), old(pc.Value()), n)
        decreases n + 1 - |pc.failPop|
      {
        var l := NewLabel();
        pc.failPop := pc.failPop + [l];
      }
    }

    method JumpToFail(pc: PatternScratch, always: bool)
      modifies this, pc
      ensures (Contents(), pc.Value()) == JumpToFailPop(old(Contents()), old(pc.Value()), always)
    {
      var pops := pc.onTop + |pc.stores|;
      EnsureFailPopLabels(pc, pops);
      var l := pc.failPop[pops];
      AddOp(if always then Jump(l) else PopJumpIfFalse(l));
    }

    method EmitAndResetFailPop(pc: PatternScratch)
      modifies this, pc
      ensures Contents() == EmitFailPop(old(Contents()), old(pc.failPop))
      ensures pc.Value() == old(pc.Value()).(failPop := [])
    {
      if |pc.failPop| == 0 { return; }
      var i := |pc.failPop| - 1;
      while i > 0
        invariant 0 <= i < |pc.failPop| && pc.Value() == old(pc.Value())
        invariant Ladder(Contents(), pc.failPop, i) == EmitFailPop(old(Contents()), old(pc.failPop))
      {
        UseLabel(pc.failPop[i]);
        AddOp(PopTop);
        i := i - 1;
      }
      UseLabel(pc.failPop[0]);
      pc.failPop := [];
    }

    // ----- patterns -----

    method PatternRotate(n: nat)
      modifies this
      ensures Contents() == AddAll(old(Contents()), RotateCode(n))
    {
      var count: nat := n;
      assert RotateCode(n)[0..] == RotateCode(n);
      while count > 1
        invariant count <= n
        invariant instrs + RotateCode(count) == old(instrs) + RotateCode(n)
        invariant labels == old(labels) && nextFreeLabel == old(nextFreeLabel)
      {
        ghost var rest := RotateCode(count - 1);
        assert RotateCode(count) == [Swap(count)] + rest;
        ghost var before := instrs;
        AddOp(Swap(count));
        assert before + ([Swap(count)] + rest) == instrs + rest;
        count := count - 1;
      }
      assert RotateCode(count) == [];
      assert instrs + [] == instrs;
    }

    method PatternStoreName(name: Option<string>, pc: PatternScratch) returns (ok: bool)
      modifies this, pc
      ensures Leaves(ok, StoreCapture(name, old(Contents()), old(pc.Value())), pc)
    {
      if name.None? {
        AddOp(PopTop);
        return true;
      }
      if name.value in pc.stores { return false; }
      PatternRotate(pc.onTop + |pc.stores| + 1);
      pc.stores := pc.stores + [name.value];
      ok := true;
    }

    // The outcome of a pattern method agrees with its specification.
    ghost predicate Leaves(ok: bool, g: Gen, pc: PatternScratch)
      reads this, pc
    {
      ok == g.Emitted? && (ok ==> Contents() == g.code && pc.Value() == g.pc)
    }

    method VisitPattern(p: Pattern, pc: PatternScratch) returns (ok: bool)
      modifies this, pc
      ensures Leaves(ok, GenPattern(p, old(Contents()), old(pc.Value())), pc)
      decreases p, 2
    {
      hide GenMapping, GenClass, GenOr, GenSequenceBody;
      match p
      case MatchValue(e) =>
        if !e.Constant? && !e.Attribute? { return false; }
        ok := VisitExpr(e);
        if ok {
          AddOps([CompareOp(CMP_EQ), ToBool]);
          JumpToFail(pc, false);
        }
      case MatchSingleton(k) =>
        AddOps([LoadConst(k), IsOp(0)]);
        JumpToFail(pc, false);
        ok := true;
      case MatchSequence(ps) => ok := PatternSequence(ps, pc);
      case MatchMapping(_, _, _) => ok := PatternMapping(p, pc);
      case MatchClass(_, _, _, _) => ok := PatternClass(p, pc);
      case MatchStar(name) => ok := PatternStoreName(name, pc);
      case MatchAs(sub, name) =>
        if sub.None? {
          if !pc.allowIrrefutable { return false; }
          ok := PatternStoreName(name, pc);
        } else {
          pc.onTop := pc.onTop + 1;
          AddOp(Copy(1));
          ok := VisitPattern(sub.value, pc);
          if ok {
            pc.onTop := pc.onTop - 1;
            ok := PatternStoreName(name, pc);
          }
        }
      case MatchOr(alts) => ok := PatternOr(alts, pc);
    }

    method PatternSubpattern(p: Pattern, pc: PatternScratch) returns (ok: bool)
      modifies this, pc
      ensures Leaves(ok, GenSubpattern(p, old(Contents()), old(pc.Value())), pc)
      decreases p, 3
    {
      var saved := pc.allowIrrefutable;
      pc.allowIrrefutable := true;
      ok := VisitPattern(p, pc);
      pc.allowIrrefutable := saved;
    }

    // ----- sequences -----

    // One pass over the sub-patterns: where the star is and whether anything
    // but wildcards occurs.
    method ScanSequence(ps: seq<Pattern>) returns (ok: bool, star: int, allWild: bool, starWild: bool)
      ensures ok == !(StarFrom(ps, 0) >= 0 && StarFrom(ps, StarFrom(ps, 0) + 1) >= 0)
      ensures ok ==> star == StarFrom(ps, 0) && allWild == AllWild(ps)
      ensures ok ==> starWild == (star >= 0 && IsWildcardStar(ps[star]))
    {
      star, allWild, starWild := -1, true, false;
      for i := 0 to |ps|
        invariant star == -1 || (0 <= star < i && ps[star].MatchStar?)
        invariant forall k :: 0 <= k < i && ps[k].MatchStar? ==> k == star
        invariant allWild == forall k :: 0 <= k < i ==> IsWildcard(ps[k]) || IsWildcardStar(ps[k])
        invariant starWild == (star >= 0 && IsWildcardStar(ps[star]))
      {
        if ps[i].MatchStar? {
          if star >= 0 {
            return false, star, allWild, starWild;
          }
          star := i;
          starWild := IsWildcardStar(ps[i]);
        }
        if !IsWildcard(ps[i]) && !IsWildcardStar(ps[i]) { allWild := false; }
      }
      ok := true;
    }

    method PatternSequence(ps: seq<Pattern>, pc: PatternScratch) returns (ok: bool)
      modifies this, pc
      ensures Leaves(ok, GenSequence(ps, old(Contents()), old(pc.Value())), pc)
      decreases ps, |ps| + 2
    {
      var star, allWild, starWild;
      hide GenSequenceBody, JumpToFailPop, AllWild, IsWildcardStar;
      ok, star, allWild, starWild := ScanSequence(ps);
      if !ok { return; }
      pc.onTop := pc.onTop + 1;
      SequenceGates(star, |ps|, pc);
      pc.onTop := pc.onTop - 1;
      ok := PatternSequenceBody(ps, star, allWild, starWild, pc);
    }

    method PatternSequenceBody(ps: seq<Pattern>, star: int, allWild: bool, starWild: bool, pc: PatternScratch) returns (ok: bool)
      requires star < |ps| && allWild == AllWild(ps) && starWild == (star >= 0 && IsWildcardStar(ps[star]))
      modifies this, pc
      ensures Leaves(ok, GenSequenceBody(ps, star, old(Contents()), old(pc.Value())), pc)
      decreases ps, |ps| + 2, 0
    {
      if allWild {
        AddOp(PopTop);
        ok := true;
      } else if starWild {
        ok := PatternSequenceSubscr(ps, star, pc);
      } else {
        ok := PatternSequenceUnpack(ps, star, pc);
      }
    }

    method SequenceGates(star: int, size: nat, pc: PatternScratch)
      modifies this, pc
      ensures (Contents(), pc.Value()) == GenSequenceGates(star, size, old(Contents()), old(pc.Value()))
    {
      AddOp(MatchSequenceOp);
      JumpToFail(pc, false);
      if star < 0 {
        AddOps([GetLen, LoadConst(Int(size)), CompareOp(CMP_EQ), ToBool]);
        JumpToFail(pc, false);
      } else if size > 1 {
        AddOps([GetLen, LoadConst(Int(size - 1)), CompareOp(CMP_GTE), ToBool]);
        JumpToFail(pc, false);
      }
    }

    method PatternSequenceUnpack(ps: seq<Pattern>, star: int, pc: PatternScratch) returns (ok: bool)
      requires star < |ps|
      modifies this, pc
      ensures Leaves(ok, GenSubs(ps, 0, AddAll(old(Contents()), [UnpackCode(star, |ps|)]), old(pc.Value()).(onTop := old(pc.onTop) + |ps|)), pc)
      decreases ps, |ps| + 1
    {
      var n := |ps|;
      if star < 0 {
        AddOp(UnpackSequence(n));
      } else {
        var before, after := star, n - star - 1;
        AddOp(UnpackEx(before + after * 256));
      }
      pc.onTop := pc.onTop + n;
      ok := PatternSubs(ps, pc);
    }

    // The loop over sub-patterns whose subjects are on the stack.
    method PatternSubs(ps: seq<Pattern>, pc: PatternScratch) returns (ok: bool)
      requires pc.onTop >= |ps|
      modifies this, pc
      ensures Leaves(ok, GenSubs(ps, 0, old(Contents()), old(pc.Value())), pc)
      decreases ps, |ps|
    {
      for i := 0 to |ps|
        invariant pc.onTop >= |ps| - i
        invariant GenSubs(ps, 0, old(Contents()), old(pc.Value())) == GenSubs(ps, i, Contents(), pc.Value())
      {
        pc.onTop := pc.onTop - 1;
        ok := PatternSubpattern(ps[i], pc);
        if !ok { return; }
      }
      ok := true;
    }

    method PatternSequenceSubscr(ps: seq<Pattern>, star: nat, pc: PatternScratch) returns (ok: bool)
      requires star < |ps| && !AllWild(ps) && IsWildcardStar(ps[star])
      modifies this, pc
      ensures Leaves(ok, GenSequenceBody(ps, star, old(Contents()), old(pc.Value())), pc)
      decreases ps, |ps| + 1
    {
      pc.onTop := pc.onTop + 1;
      ghost var c0, pc0 := Contents(), pc.Value();
      var size := |ps|;
      for i := 0 to size
        invariant GenItems(ps, 0, star, c0, pc0) == GenItems(ps, i, star, Contents(), pc.Value())
      {
        if IsWildcard(ps[i]) || i == star { continue; }
        if i < star {
          AddOps([Copy(1), LoadConst(Int(i)), BinaryOp(NB_SUBSCR)]);
        } else {
          AddOps([Copy(1), GetLen, LoadConst(Int(size - i)), BinaryOp(NB_SUBTRACT), BinaryOp(NB_SUBSCR)]);
        }
        ok := PatternSubpattern(ps[i], pc);
        if !ok { return; }
      }
      pc.onTop := pc.onTop - 1;
      AddOp(PopTop);
      ok := true;
    }

    // ----- mappings -----

    method VisitKeys(keys: seq<Expr>) returns (ok: bool)
      modifies this
      ensures ok == GenKeys(keys, 0, {}, old(Contents())).Some?
      ensures ok ==> Contents() == GenKeys(keys, 0, {}, old(Contents())).value
    {
      var seen: set<Bucket> := {};
      for i := 0 to |keys|
        invariant GenKeys(keys, 0, {}, old(Contents())) == GenKeys(keys, i, seen, Contents())
      {
        if !IsValidMappingPatternKey(keys[i]) { return false; }
        var bucket := KeyBucket(keys[i]);
        if bucket.Some? {
          if bucket.value in seen { return false; }
        }
        ok := VisitExpr(keys[i]);
        if !ok { return; }
        if bucket.Some? { seen := seen + {bucket.value}; }
      }
      ok := true;
    }

    method PatternMapping(p: Pattern, pc: PatternScratch) returns (ok: bool)
      requires p.MatchMapping?
      modifies this, pc
      ensures Leaves(ok, GenMapping(p, old(Contents()), old(pc.Value())), pc)
      decreases p, 1
    {
      hide GenSubpattern, GenKeys;
      var n := |p.keys|;
      if n != |p.values| { return false; }
      MappingGate(pc);
      if n == 0 && p.rest.None? {
        pc.onTop := pc.onTop - 1;
        AddOp(PopTop);
        return true;
      }
      ok := MappingLookup(p.keys, pc);
      if !ok { return; }
      ok := MappingValues(p, pc);
    }

    method MappingGate(pc: PatternScratch)
      modifies this, pc
      ensures (Contents(), pc.Value())
           == JumpToFailPop(AddAll(old(Contents()), [MatchMappingOp]), old(pc.Value()).(onTop := old(pc.onTop) + 1), false)
    {
      pc.onTop := pc.onTop + 1;
      AddOp(MatchMappingOp);
      JumpToFail(pc, false);
    }

    method MappingValues(p: Pattern, pc: PatternScratch) returns (ok: bool)
      requires p.MatchMapping? && |p.values| == |p.keys| && 3 <= pc.onTop
      modifies this, pc
      ensures Leaves(ok, GenMappingValues(p, old(Contents()), old(pc.Value())), pc)
      decreases p, 0
    {
      var n := |p.keys|;
      AddOp(UnpackSequence(n));
      pc.onTop := pc.onTop + n - 1;
      ok := PatternSubs(p.values, pc);
      if !ok { return; }
      pc.onTop := pc.onTop - 2;
      ok := MappingRest(n, p.rest, pc);
    }

    method MappingRest(n: nat, rest: Option<string>, pc: PatternScratch) returns (ok: bool)
      modifies this, pc
      ensures Leaves(ok, GenMappingRest(n, rest, old(Contents()), old(pc.Value())), pc)
    {
      if rest.Some? {
        AddOps([BuildMap(0), Swap(3), DictUpdate(2), UnpackSequence(n)]);
        DeleteKeys(n);
        assert Contents() == AddAll(old(Contents()), RestCode(n));
        ok := PatternStoreName(rest, pc);
      } else {
        AddOps([PopTop, PopTop]);
        ok := true;
      }
    }

    method MappingLookup(keys: seq<Expr>, pc: PatternScratch) returns (ok: bool)
      modifies this, pc
      ensures Leaves(ok, GenMappingLookup(keys, old(Contents()), old(pc.Value())), pc)
    {
      var n := |keys|;
      if n > 0 {
        AddOps([GetLen, LoadConst(Int(n)), CompareOp(CMP_GTE), ToBool]);
        JumpToFail(pc, false);
      }
      ok := VisitKeys(keys);
      if !ok { return; }
      AddOps([BuildTuple(n), MatchKeysOp] + NOT_NONE_TEST);
      pc.onTop := pc.onTop + 2;
      JumpToFail(pc, false);
    }

    method DeleteKeys(n: nat)
      modifies this
      ensures instrs == old(instrs) + DeleteKeysCode(n) && labels == old(labels) && nextFreeLabel == old(nextFreeLabel)
    {
      var remaining: nat := n;
      while remaining > 0
        invariant instrs + DeleteKeysCode(remaining) == old(instrs) + DeleteKeysCode(n)
        invariant labels == old(labels) && nextFreeLabel == old(nextFreeLabel)
      {
        ghost var before, block := instrs, [Copy(1 + remaining), Swap(2), DeleteSubscr];
        AddOps([Copy(1 + remaining), Swap(2), DeleteSubscr]);
        assert before + (block + DeleteKeysCode(remaining - 1)) == instrs + DeleteKeysCode(remaining - 1);
        remaining := remaining - 1;
      }
      assert instrs + [] == instrs;
    }

    // ----- classes -----

    method HasRepeatedAttr(attrs: seq<string>) returns (repeated: bool)
      ensures repeated == HasRepeat(attrs)
    {
      for i := 0 to |attrs|
        invariant forall x, y :: 0 <= x < i && x < y < |attrs| ==> attrs[x] != attrs[y]
      {
        for j := i + 1 to |attrs|
          invariant forall y :: i < y < j ==> attrs[i] != attrs[y]
        {
          if attrs[i] == attrs[j] { return true; }
        }
      }
      repeated := false;
    }

    method PatternClass(p: Pattern, pc: PatternScratch) returns (ok: bool)
      requires p.MatchClass?
      modifies this, pc
      ensures Leaves(ok, GenClass(p, old(Contents()), old(pc.Value())), pc)
      decreases p, 1
    {
      hide ClassBlock, JumpToFailPop, HasRepeat;
      var nargs, nattrs := |p.positional|, |p.kwdAttrs|;
      if nargs + nattrs > 0x7fff_ffff || nattrs != |p.kwdPatterns| { return false; }
      ok := VisitExpr(p.cls);
      if !ok { return; }
      var repeated := HasRepeatedAttr(p.kwdAttrs);
      if repeated { return false; }
      EmitClassBlock(p);
      pc.onTop := pc.onTop + 1;
      JumpToFail(pc, false);
      AddOp(UnpackSequence(nargs + nattrs));
      pc.onTop := pc.onTop + nargs + nattrs - 1;
      ok := PatternArgs(p.positional, pc);
      if !ok { return; }
      ok := PatternArgs(p.kwdPatterns, pc);
    }

    method EmitClassBlock(p: Pattern)
      requires p.MatchClass?
      modifies this
      ensures Contents() == AddAll(old(Contents()), ClassBlock(p))
    {
      for i := 0 to |p.kwdAttrs|
        invariant labels == old(labels) && nextFreeLabel == old(nextFreeLabel)
        invariant instrs == old(instrs) + ConstCode(Names(p.kwdAttrs))[..i]
      {
        AddOp(LoadConst(Str(p.kwdAttrs[i])));
      }
      AddOps([BuildTuple(|p.kwdAttrs|), MatchClassOp(|p.positional|)] + NOT_NONE_TEST);
      assert instrs == old(instrs) + ClassBlock(p);
    }

    method PatternArgs(ps: seq<Pattern>, pc: PatternScratch) returns (ok: bool)
      requires pc.onTop >= |ps|
      modifies this, pc
      ensures Leaves(ok, GenArgs(ps, 0, old(Contents()), old(pc.Value())), pc)
      decreases ps, |ps|
    {
      for i := 0 to |ps|
        invariant pc.onTop >= |ps| - i
        invariant GenArgs(ps, 0, old(Contents()), old(pc.Value())) == GenArgs(ps, i, Contents(), pc.Value())
      {
        pc.onTop := pc.onTop - 1;
        if IsWildcard(ps[i]) {
          AddOp(PopTop);
          continue;
        }
        ok := PatternSubpattern(ps[i], pc);
        if !ok { return; }
      }
      ok := true;
    }

    // ----- alternatives -----

    // Bring pc.stores into the order of control, moving the stack along.
    method ReorderStores(pc: PatternScratch, control: seq<string>) returns (ok: bool)
      requires |pc.stores| == |control|
      modifies this, pc`stores
      ensures ok == Reorder(old(pc.stores), control, |control|, old(Contents())).Some?
      ensures ok ==> Contents() == Reorder(old(pc.stores), control, |control|, old(Contents())).value
    {
      hide Displace, RepeatRotate, IndexOf;
      var j := |control|;
      while j > 0
        invariant 0 <= j <= |control| == |pc.stores|
        invariant Reorder(pc.stores, control, j, Contents()) == Reorder(old(pc.stores), control, |control|, old(Contents()))
      {
        var icontrol := j - 1;
        var istores := IndexOf(pc.stores, control[icontrol], 0);
        if istores < 0 { return false; }
        if icontrol != istores {
          if istores > icontrol { return false; }
          ReorderMoves(pc.stores, control, j, istores + 1, Contents());
          MoveNames(pc, istores, icontrol);
        }
        j := icontrol;
      }
      ok := true;
    }

    // Move the names up to istores so that the last of them lands at icontrol.
    method MoveNames(pc: PatternScratch, istores: nat, icontrol: nat)
      requires istores < icontrol < |pc.stores|
      modifies this, pc`stores
      ensures pc.stores == Displace(old(pc.stores), istores + 1, icontrol)
      ensures Contents() == AddAll(old(Contents()), RepeatRotate(icontrol + 1, istores + 1))
    {
      var rotations := istores + 1;
      var rotated := pc.stores[..rotations];
      var rest := pc.stores[rotations..];
      var insertAt := icontrol - istores;
      DisplaceSlices(pc.stores, rotations, icontrol);
      pc.stores := rest[..insertAt] + rotated + rest[insertAt..];
      RotateTimes(icontrol + 1, rotations);
    }

    static lemma {:induction false} DisplaceSlices(q: seq<string>, k: nat, j: nat)
      requires k <= j < |q|
      ensures var rest, insertAt := q[k..], j + 1 - k;
              rest[..insertAt] + q[..k] + rest[insertAt..] == Displace(q, k, j)
    {
      assert q[k..][..j + 1 - k] == q[k .. j + 1];
      assert q[k..][j + 1 - k ..] == q[j + 1 ..];
    }

    method RotateTimes(n: nat, times: nat)
      modifies this
      ensures Contents() == AddAll(old(Contents()), RepeatRotate(n, times))
    {
      var r: nat := times;
      while r > 0
        invariant r <= times
        invariant instrs + RepeatRotate(n, r) == old(instrs) + RepeatRotate(n, times)
        invariant labels == old(labels) && nextFreeLabel == old(nextFreeLabel)
      {
        ghost var before := instrs;
        PatternRotate(n);
        assert before + (RotateCode(n) + RepeatRotate(n, r - 1)) == instrs + RepeatRotate(n, r - 1);
        r := r - 1;
      }
      assert instrs + [] == instrs;
    }

    method PatternAlternative(alt: Pattern, first: bool, allow: bool, control: seq<string>, end: Label, pc: PatternScratch)
      returns (ok: bool, control': seq<string>)
      modifies this, pc
      ensures var g := GenAlternative(alt, first, allow, control, end, old(Contents()));
              ok == g.Alts? && (ok ==> Contents() == g.code && control' == g.control)
      decreases alt, 3
    {
      hide GenPattern, GenExpr;
      pc.stores, pc.failPop, pc.onTop, pc.allowIrrefutable := [], [], 0, allow;
      control' := control;
      AddOp(Copy(1));
      ok := VisitPattern(alt, pc);
      if !ok { return; }
      if first {
        control' := pc.stores;
      } else {
        if |pc.stores| != |control| { return false, control; }
        ok := ReorderStores(pc, control);
        if !ok { return; }
      }
      AddOp(Jump(end));
      EmitAndResetFailPop(pc);
    }

    method PatternOr(alts: seq<Pattern>, pc: PatternScratch) returns (ok: bool)
      modifies this, pc
      ensures Leaves(ok, GenOr(alts, old(Contents()), old(pc.Value())), pc)
      decreases alts, |alts| + 1
    {
      hide JumpToFailPop, GenPattern;
      if |alts| < 2 { return false; }
      var end := NewLabel();
      var control;
      ok, control := PatternAlternatives(alts, end, pc);
      if !ok { return; }
      ghost var c1, pc1 := Contents(), pc.Value();
      FailOr(end, pc);
      ok := SinkAndPop(control, pc);
      assert JumpToFailPop(AddAll(c1, [PopTop]), pc1, true).1.onTop == pc1.onTop;
    }

    method SinkAndPop(control: seq<string>, pc: PatternScratch) returns (ok: bool)
      modifies this, pc
      ensures var g := GenSink(control, 0, |control| + 1 + old(pc.onTop) + |old(pc.stores)|, old(Contents()), old(pc.Value()));
              ok == g.Emitted? && (ok ==> Contents() == AddAll(g.code, [PopTop]) && pc.Value() == g.pc)
    {
      ok := SinkCaptures(control, pc);
      if ok { AddOp(PopTop); }
    }

    // Behind the last alternative: drop the subject and fail.
    method FailOr(end: Label, pc: PatternScratch)
      modifies this, pc
      ensures var (c, pc1) := JumpToFailPop(AddAll(old(Contents()), [PopTop]), old(pc.Value()), true);
              Contents() == Use(c, end) && pc.Value() == pc1
    {
      AddOp(PopTop);
      JumpToFail(pc, true);
      UseLabel(end);
    }

    // All alternatives, each in a context of its own.
    method PatternAlternatives(alts: seq<Pattern>, end: Label, pc: PatternScratch) returns (ok: bool, control: seq<string>)
      modifies this, pc
      ensures var g := GenAlternatives(alts, 0, [], end, old(pc.allowIrrefutable), old(Contents()));
              ok == g.Alts? && (ok ==> Contents() == g.code && control == g.control && pc.Value() == old(pc.Value()))
      decreases alts, |alts|
    {
      var oldStores, oldFailPop, oldOnTop, oldAllow := pc.stores, pc.failPop, pc.onTop, pc.allowIrrefutable;
      control := [];
      for i := 0 to |alts|
        invariant GenAlternatives(alts, 0, [], end, oldAllow, old(Contents())) == GenAlternatives(alts, i, control, end, oldAllow, Contents())
      {
        ok, control := PatternAlternative(alts[i], i == 0, i == |alts| - 1 && oldAllow, control, end, pc);
        if !ok { return; }
      }
      pc.stores, pc.failPop, pc.onTop, pc.allowIrrefutable := oldStores, oldFailPop, oldOnTop, oldAllow;
      ok := true;
    }

    method SinkCaptures(control: seq<string>, pc: PatternScratch) returns (ok: bool)
      modifies this, pc
      ensures Leaves(ok, GenSink(control, 0, |control| + 1 + old(pc.onTop) + |old(pc.stores)|, old(Contents()), old(pc.Value())), pc)
    {
      var nrots := |control| + 1 + pc.onTop + |pc.stores|;
      for i := 0 to |control|
        invariant GenSink(control, 0, nrots, old(Contents()), old(pc.Value())) == GenSink(control, i, nrots, Contents(), pc.Value())
      {
        PatternRotate(nrots);
        if control[i] in pc.stores { return false; }
        pc.stores := pc.stores + [control[i]];
      }
      ok := true;
    }

    // ----- the match statement -----

    method MatchOneCase(m: MatchCase, i: nat, limit: nat, cases: nat, pc: PatternScratch, end: Label) returns (ok: bool)
      requires i < limit
      modifies this, pc
      ensures var g := GenCase(m, i != limit - 1, m.guard.Some? || i == cases - 1, end, old(Contents()));
              ok == g.Some? && (ok ==> Contents() == g.value)
    {
      hide GenPattern, GenExpr;
      var notLast := i != limit - 1;
      ghost var c0 := Contents();
      if notLast { AddOp(Copy(1)); }
      assert Contents() == AddAll(c0, if notLast then [Copy(1)] else []);
      pc.stores, pc.allowIrrefutable, pc.failPop, pc.onTop := [], m.guard.Some? || i == cases - 1, [], 0;
      ok := VisitPattern(m.pattern, pc);
      if !ok { return; }
      EmitStores(pc.stores);
      ok := EmitGuard(m.guard, pc);
      if !ok { return; }
      ghost var c2 := Contents();
      if notLast { AddOp(PopTop); }
      AddOps([Body(m.body), Jump(end)]);
      assert Contents() == AddAll(c2, TakenCode(notLast, m.body, end));
      EmitAndResetFailPop(pc);
    }

    method EmitGuard(guard: Option<Expr>, pc: PatternScratch) returns (ok: bool)
      modifies this, pc
      ensures Leaves(ok, GenGuard(guard, old(Contents()), old(pc.Value())), pc)
    {
      ok := true;
      if guard.Some? {
        EnsureFailPopLabels(pc, 0);
        ok := VisitExpr(guard.value);
        if ok { AddOp(PopJumpIfFalse(pc.failPop[0])); }
      }
    }

    method EmitStores(names: seq<string>)
      modifies this
      ensures Contents() == AddAll(old(Contents()), StoreCode(names))
    {
      for k := 0 to |names|
        invariant labels == old(labels) && nextFreeLabel == old(nextFreeLabel)
        invariant instrs == old(instrs) + StoreCode(names)[..k]
      {
        AddOp(StoreName(names[k]));
      }
      assert StoreCode(names)[..|names|] == StoreCode(names);
    }

    method MatchDefaultCase(m: MatchCase, cases: nat, end: Label) returns (ok: bool)
      requires 1 < cases
      modifies this
      ensures var g := GenDefault(m, end, old(Contents()));
              ok == g.Some? && (ok ==> Contents() == g.value)
    {
      AddOp(if cases == 1 then PopTop else Nop);
      ok := true;
      if m.guard.Some? {
        ok := VisitExpr(m.guard.value);
        if !ok { return; }
        AddOp(PopJumpIfFalse(end));
      }
      AddOp(Body(m.body));
    }

    method MatchInner(subject: Expr, cases: seq<MatchCase>, pc: PatternScratch) returns (ok: bool)
      modifies this, pc
      ensures var g := GenMatch(subject, cases, old(Contents()));
              ok == g.Some? && (ok ==> Contents() == g.value)
    {
      hide GenCase, GenExpr, GenDefault;
      ok := VisitExpr(subject);
      if !ok { return; }
      var end := NewLabel();
      var n := |cases|;
      if n == 0 { return false; }
      var hasDefault := IsWildcard(cases[n - 1].pattern) && n > 1;
      var limit := if hasDefault then n - 1 else n;
      ghost var c0 := Contents();
      for i := 0 to limit
        invariant GenCases(cases, 0, limit, end, c0) == GenCases(cases, i, limit, end, Contents())
      {
        ok := MatchOneCase(cases[i], i, limit, n, pc, end);
        if !ok { return; }
      }
      if hasDefault {
        ok := MatchDefaultCase(cases[n - 1], n, end);
        if !ok { return; }
      }
      UseLabel(end);
      ok := true;
    }
  }
}
