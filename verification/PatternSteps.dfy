// What the straight-line pieces of pattern code do to the stack.
module PatternSteps {
  import opened Machine
  import opened Expressions
  import opened Patterns
  import opened ExpressionProofs
  import opened PatternFrames

  // The stack a pattern sees below its subject.
  function Layout(scratch: seq<Value>, caps: seq<Value>, base: seq<Value>): seq<Value> {
    scratch + (caps + base)
  }

  // The captured values in the order of names.
  function Captured(b: map<string, Value>, names: seq<string>): (r: seq<Value>)
    ensures |r| == |names|
    ensures forall k :: 0 <= k < |names| && names[k] in b ==> r[k] == b[names[k]]
  {
    seq(|names|, i requires 0 <= i < |names| => if names[i] in b then b[names[i]] else NoneValue)
  }

  // The run arrived in the ladder at failPop[k] with exactly k items above base.
  ghost predicate FailsTo(w: World, p: Code, a: Config, failPop: seq<Label>, base: seq<Value>, s: State) {
    exists junk: seq<Value> ::
      && |junk| < |failPop|
      && failPop[|junk|] in p.labels
      && Reach(w, p, a, Run(p.labels[failPop[|junk|]], junk + base, s))
  }

  ghost predicate AllBound(failPop: seq<Label>, p: Code) {
    forall k :: 0 <= k < |failPop| ==> failPop[k] in p.labels
  }

  lemma {:induction false} FailsToLonger(w: World, p: Code, a: Config, f1: seq<Label>, f2: seq<Label>, base: seq<Value>, s: State)
    requires FailsTo(w, p, a, f1, base, s) && f1 <= f2
    ensures FailsTo(w, p, a, f2, base, s)
  {
    var junk: seq<Value> :|
      |junk| < |f1| && f1[|junk|] in p.labels && Reach(w, p, a, Run(p.labels[f1[|junk|]], junk + base, s));
    assert f2[|junk|] == f1[|junk|];
  }

  // ----- rotation -----

  lemma {:induction false} RotateStep(w: World, p: Code, a: Config, pc: nat, x: Value, below: seq<Value>, st: seq<Value>, s: State)
    requires Reach(w, p, a, Run(pc, [x] + below + st, s)) && At(p, pc, RotateCode(|below| + 1))
    ensures Reach(w, p, a, Run(pc + |below|, below + ([x] + st), s))
    decreases |below|
  {
    var n := |below| + 1;
    if n == 1 {
      assert [x] + below + st == below + ([x] + st);
    } else {
      var y, rest := below[n - 2], below[..n - 2];
      assert below == rest + [y];
      assert RotateCode(n) == [Swap(n)] + RotateCode(n - 1);
      AtOne(p, pc, RotateCode(n), 0);
      var full := [x] + below + st;
      var swapped := full[0 := full[n - 1]][n - 1 := full[0]];
      assert swapped == [y] + rest + ([x] + st);
      Op(w, p, a, pc, Swap(n), full, s, swapped, s);
      AtDrop(p, pc, RotateCode(n), RotateCode(n - 1));
      RotateStep(w, p, a, pc + 1, y, rest, [x] + st, s);
      assert rest + ([y] + ([x] + st)) == below + ([x] + st);
    }
  }

  lemma {:induction false} AtDrop(p: Code, pc: nat, block: seq<Instr>, rest: seq<Instr>)
    requires At(p, pc, block) && 0 < |block| && block[1..] == rest
    ensures At(p, pc + 1, rest)
  {
    forall k | 0 <= k < |rest| ensures p.instrs[pc + 1 + k] == rest[k] {
      assert p.instrs[pc + (k + 1)] == block[k + 1];
    }
  }

  // k rotations of the top n items move the first k to the back of the n.
  lemma {:induction false} RepeatRotateStep(w: World, p: Code, a: Config, pc: nat, top: seq<Value>, k: nat, st: seq<Value>, s: State)
    requires 0 < |top| && k <= |top|
    requires Reach(w, p, a, Run(pc, top + st, s)) && At(p, pc, RepeatRotate(|top|, k))
    ensures Reach(w, p, a, Run(pc + |RepeatRotate(|top|, k)|, top[k..] + top[..k] + st, s))
    decreases k
  {
    if k == 0 {
      assert top[0..] + top[..0] + st == top + st;
    } else {
      var n := |top|;
      AtSplit(p, pc, RotateCode(n), RepeatRotate(n, k - 1));
      assert top + st == [top[0]] + top[1..] + st;
      RotateStep(w, p, a, pc, top[0], top[1..], st, s);
      var top' := top[1..] + [top[0]];
      assert top[1..] + ([top[0]] + st) == top' + st;
      RepeatRotateStep(w, p, a, pc + (n - 1), top', k - 1, st, s);
      assert top'[k - 1 ..] + top'[..k - 1] == top[k..] + top[..k];
    }
  }

  // StoreCapture pops the subject, or sinks it below scratch and captures.
  lemma {:induction false} StoreStep(w: World, p: Code, a: Config, name: Option<string>, c: Code, pc: PatternContext, v: Value,
                  scratch: seq<Value>, caps: seq<Value>, base: seq<Value>, s: State)
    requires |scratch| == pc.onTop && |caps| == |pc.stores|
    requires StoreCapture(name, c, pc).Emitted? && Extends(StoreCapture(name, c, pc).code, p)
    requires Reach(w, p, a, Run(|c.instrs|, [v] + Layout(scratch, caps, base), s))
    ensures var r := StoreCapture(name, c, pc);
            var names := if name.Some? then [name.value] else [];
            && r.pc.stores == pc.stores + names
            && Reach(w, p, a, Run(|r.code.instrs|, Layout(scratch, caps + Captured(Bind(name, v), names), base), s))
  {
    hide Reach, At, Extends;
    if name.None? {
      BlockAt(c, [PopTop], p);
      AtOne(p, |c.instrs|, [PopTop], 0);
      PopStep(w, p, a, |c.instrs|, v, Layout(scratch, caps, base), s);
      assert caps + [] == caps;
    } else {
      var below := scratch + caps;
      BlockAt(c, RotateCode(|below| + 1), p);
      assert [v] + Layout(scratch, caps, base) == [v] + below + base;
      RotateStep(w, p, a, |c.instrs|, v, below, base, s);
      assert Captured(Bind(name, v), [name.value]) == [v];
      assert below + ([v] + base) == Layout(scratch, caps + [v], base);
    }
  }

  // ----- jumps into the ladder -----

  lemma {:induction false} EnsureFailPopReaches(c: Code, pc: PatternContext, n: nat)
    ensures var r := EnsureFailPop(c, pc, n); pc.failPop <= r.1.failPop && c.next <= r.0.next
    decreases n + 1 - |pc.failPop|
  {
    if n >= |pc.failPop| {
      EnsureFailPopReaches(Fresh(c), pc.(failPop := pc.failPop + [c.next]), n);
    }
  }

  lemma {:induction false} JumpToFailPopExtends(c: Code, pc: PatternContext, always: bool, p: Code)
    requires Extends(JumpToFailPop(c, pc, always).0, p)
    ensures Extends(c, p) && pc.failPop <= JumpToFailPop(c, pc, always).1.failPop
  {
    var n := pc.onTop + |pc.stores|;
    EnsureFailPopReaches(c, pc, n);
    var (c1, pc1) := EnsureFailPop(c, pc, n);
    BlockAt(c1, [if always then Jump(pc1.failPop[n]) else PopJumpIfFalse(pc1.failPop[n])], p);
  }

  // A failed test enters failPop[k] with its k items; a passed one goes on.
  lemma {:induction false} FailBranch(w: World, p: Code, a: Config, c: Code, pc: PatternContext, v: Value, junk: seq<Value>, base: seq<Value>, s: State)
    requires |junk| == pc.onTop + |pc.stores|
    requires Extends(JumpToFailPop(c, pc, false).0, p) && AllBound(JumpToFailPop(c, pc, false).1.failPop, p)
    requires Reach(w, p, a, Run(|c.instrs|, [v] + (junk + base), s))
    ensures var (c1, pc1) := JumpToFailPop(c, pc, false);
            if Truth(w, v) then Reach(w, p, a, Run(|c1.instrs|, junk + base, s))
            else FailsTo(w, p, a, pc1.failPop, base, s)
  {
    var (c1, pc1) := EnsureFailPop(c, pc, |junk|);
    var l := pc1.failPop[|junk|];
    BlockAt(c1, [PopJumpIfFalse(l)], p);
    AtOne(p, |c1.instrs|, [PopJumpIfFalse(l)], 0);
    OpBranch(w, p, a, |c1.instrs|, PopJumpIfFalse(l), v, junk + base, s);
  }

  lemma {:induction false} FailAlways(w: World, p: Code, a: Config, c: Code, pc: PatternContext, junk: seq<Value>, base: seq<Value>, s: State)
    requires |junk| == pc.onTop + |pc.stores|
    requires Extends(JumpToFailPop(c, pc, true).0, p) && AllBound(JumpToFailPop(c, pc, true).1.failPop, p)
    requires Reach(w, p, a, Run(|c.instrs|, junk + base, s))
    ensures FailsTo(w, p, a, JumpToFailPop(c, pc, true).1.failPop, base, s)
  {
    var (c1, pc1) := EnsureFailPop(c, pc, |junk|);
    var l := pc1.failPop[|junk|];
    BlockAt(c1, [Jump(l)], p);
    AtOne(p, |c1.instrs|, [Jump(l)], 0);
    OpJump(w, p, a, |c1.instrs|, Jump(l), junk + base, s);
  }

  // ----- the ladder -----

  // Entering at failPop[k] with k items to spare, the ladder ends at base.
  lemma {:induction false} LadderStep(w: World, p: Code, a: Config, c: Code, failPop: seq<Label>, i: nat, k: nat, junk: seq<Value>, base: seq<Value>, s: State)
    requires k <= i < |failPop| && |junk| == k
    requires forall x, y :: 0 <= x < y < |failPop| ==> failPop[x] != failPop[y]
    requires forall x :: 0 <= x <= i ==> failPop[x] !in c.labels
    requires Extends(Ladder(c, failPop, i), p) && failPop[k] in p.labels
    requires Reach(w, p, a, Run(p.labels[failPop[k]], junk + base, s))
    ensures Reach(w, p, a, Run(|Ladder(c, failPop, i).instrs|, base, s))
    decreases i
  {
    hide Reach, At;
    if i == 0 {
      assert junk + base == base;
      assert failPop[0] in Ladder(c, failPop, 0).labels;
    } else {
      var c1 := Use(c, failPop[i]);
      var c2 := AddAll(c1, [PopTop]);
      LadderExtends(c2, failPop, i - 1, p);
      if k == i {
        BlockAt(c1, [PopTop], p);
        assert failPop[i] in c1.labels;
        AtOne(p, |c1.instrs|, [PopTop], 0);
        assert junk + base == [junk[0]] + (junk[1..] + base);
        PopStep(w, p, a, |c1.instrs|, junk[0], junk[1..] + base, s);
        LadderFirst(c2, failPop, i - 1, p);
        LadderStep(w, p, a, c2, failPop, i - 1, i - 1, junk[1..], base, s);
      } else {
        LadderStep(w, p, a, c2, failPop, i - 1, k, junk, base, s);
      }
    }
  }

  lemma {:induction false} LadderExtends(c: Code, failPop: seq<Label>, i: nat, p: Code)
    requires i < |failPop|
    requires forall x, y :: 0 <= x < y < |failPop| ==> failPop[x] != failPop[y]
    requires forall x :: 0 <= x <= i ==> failPop[x] !in c.labels
    requires Extends(Ladder(c, failPop, i), p)
    ensures Extends(c, p)
    decreases i
  {
    if i == 0 {
      assert Extends(c, Use(c, failPop[0]));
      ExtendsTransitive(c, Use(c, failPop[0]), p);
    } else {
      var c1 := Use(c, failPop[i]);
      LadderExtends(AddAll(c1, [PopTop]), failPop, i - 1, p);
      BlockAt(c1, [PopTop], p);
      assert Extends(c, c1);
      ExtendsTransitive(c, c1, p);
    }
  }

  // The first label of a ladder is bound where the ladder begins.
  lemma {:induction false} LadderFirst(c: Code, failPop: seq<Label>, i: nat, p: Code)
    requires i < |failPop|
    requires forall x, y :: 0 <= x < y < |failPop| ==> failPop[x] != failPop[y]
    requires forall x :: 0 <= x <= i ==> failPop[x] !in c.labels
    requires Extends(Ladder(c, failPop, i), p)
    ensures failPop[i] in p.labels && p.labels[failPop[i]] == |c.instrs|
  {
    if i == 0 {
      assert failPop[0] in Use(c, failPop[0]).labels;
    } else {
      var c1 := Use(c, failPop[i]);
      LadderExtends(AddAll(c1, [PopTop]), failPop, i - 1, p);
      assert failPop[i] in AddAll(c1, [PopTop]).labels;
    }
  }

  lemma {:induction false} LadderBinds(c: Code, failPop: seq<Label>, i: nat, k: nat, p: Code)
    requires k <= i < |failPop|
    requires forall x, y :: 0 <= x < y < |failPop| ==> failPop[x] != failPop[y]
    requires forall x :: 0 <= x <= i ==> failPop[x] !in c.labels
    requires Extends(Ladder(c, failPop, i), p)
    ensures failPop[k] in p.labels
    decreases i
  {
    if k == i {
      LadderFirst(c, failPop, i, p);
    } else {
      LadderBinds(AddAll(Use(c, failPop[i]), [PopTop]), failPop, i - 1, k, p);
    }
  }

  // All of it: a run that failed into the ladder comes out at base depth.
  lemma {:induction false} FailPopStep(w: World, p: Code, a: Config, c: Code, failPop: seq<Label>, base: seq<Value>, s: State)
    requires forall x, y :: 0 <= x < y < |failPop| ==> failPop[x] != failPop[y]
    requires forall x :: 0 <= x < |failPop| ==> failPop[x] !in c.labels
    requires Extends(EmitFailPop(c, failPop), p) && FailsTo(w, p, a, failPop, base, s)
    ensures Reach(w, p, a, Run(|EmitFailPop(c, failPop).instrs|, base, s))
  {
    var junk: seq<Value> :|
      |junk| < |failPop| && failPop[|junk|] in p.labels && Reach(w, p, a, Run(p.labels[failPop[|junk|]], junk + base, s));
    LadderStep(w, p, a, c, failPop, |failPop| - 1, |junk|, junk, base, s);
  }

  lemma {:induction false} FailPopExtends(c: Code, failPop: seq<Label>, p: Code)
    requires forall x, y :: 0 <= x < y < |failPop| ==> failPop[x] != failPop[y]
    requires forall x :: 0 <= x < |failPop| ==> failPop[x] !in c.labels
    requires Extends(EmitFailPop(c, failPop), p)
    ensures Extends(c, p) && AllBound(failPop, p)
  {
    if failPop != [] {
      LadderExtends(c, failPop, |failPop| - 1, p);
      forall k | 0 <= k < |failPop| ensures failPop[k] in p.labels {
        LadderBinds(c, failPop, |failPop| - 1, k, p);
      }
    }
  }

  // ----- taking sequences apart -----

  lemma {:induction false} LenStep(w: World, p: Code, a: Config, pc: nat, len: nat, v: Value, st: seq<Value>, s: State)
    requires Reach(w, p, a, Run(pc, [v] + st, s)) && pc < |p.instrs| && p.instrs[pc] == GetLen
    requires if IsSequence(w, v) then len == |Elements(w, v)| else IsMapping(w, s, v) && len == |Entries(w, s, v)|
    ensures Reach(w, p, a, Run(pc + 1, [Int(len)] + ([v] + st), s))
  {
    hide Reach, IsSequence, Elements, IsMapping, Entries;
    Op(w, p, a, pc, GetLen, [v] + st, s, [Int(len)] + ([v] + st), s);
  }

  lemma {:induction false} BoolStep(w: World, p: Code, a: Config, pc: nat, b: Value, st: seq<Value>, s: State)
    requires Reach(w, p, a, Run(pc, [b] + st, s)) && pc < |p.instrs| && p.instrs[pc] == ToBool && b.Bool?
    ensures Reach(w, p, a, Run(pc + 1, [b] + st, s))
  {
    hide Reach;
    Op(w, p, a, pc, ToBool, [b] + st, s, [b] + st, s);
  }

  // GET_LEN, a constant, a comparison, TO_BOOL: the length test on the subject.
  lemma {:induction false} LengthTest(w: World, p: Code, a: Config, pc: nat, len: nat, n: nat, exact: bool, v: Value, st: seq<Value>, s: State)
    requires Reach(w, p, a, Run(pc, [v] + st, s))
    requires if IsSequence(w, v) then len == |Elements(w, v)| else IsMapping(w, s, v) && len == |Entries(w, s, v)|
    requires At(p, pc, [GetLen, LoadConst(Int(n)), CompareOp(if exact then CMP_EQ else CMP_GTE), ToBool])
    ensures Reach(w, p, a, Run(pc + 4, [Bool(if exact then len == n else len >= n)] + ([v] + st), s))
  {
    hide Reach, At, IsSequence, Elements, IsMapping, Entries, Exec;
    var cmp := if exact then CMP_EQ else CMP_GTE;
    var block := [GetLen, LoadConst(Int(n)), CompareOp(cmp), ToBool];
    AtOne(p, pc, block, 0);
    AtOne(p, pc, block, 1);
    AtOne(p, pc, block, 2);
    AtOne(p, pc, block, 3);
    LenStep(w, p, a, pc, len, v, st, s);
    ConstStep(w, p, a, pc + 1, Int(n), [Int(len)] + ([v] + st), s);
    assert [Int(n)] + ([Int(len)] + ([v] + st)) == [Int(n), Int(len)] + ([v] + st);
    CmpStep(w, p, a, pc + 2, if exact then Eq else GtE, Int(len), Int(n), [v] + st, s);
    var b := Bool(if exact then len == n else len >= n);
    BoolStep(w, p, a, pc + 3, b, [v] + st, s);
  }

  // The oparg of UNPACK_EX holds the starred index in 8 bits: the instruction
  // makes the parts the pattern expects exactly when that index fits.
  lemma {:induction false} UnpackExFits(w: World, star: nat, n: nat, v: Value)
    requires star < n && n - 1 <= |Elements(w, v)|
    ensures var counts := UnpackCode(star, n).counts;
            UnpackExResult(w, counts % 256, counts / 256, v) == Some(Parts(Elements(w, v), star, n)) <==> star < 256
  {
    var after := n - star - 1;
    var counts := star + after * 256;
    assert counts == UnpackCode(star, n).counts;
    assert counts % 256 == star % 256 && counts / 256 == after + star / 256;
    if star < 256 {
      assert star % 256 == star && star / 256 == 0;
    } else {
      // too few values come out
      assert star % 256 + 1 + (after + star / 256) < n;
      assert |Parts(Elements(w, v), star, n)| == n;
    }
  }

  lemma {:induction false} UnpackEffect(w: World, star: int, n: nat, v: Value, st: seq<Value>, s: State)
    requires IsSequence(w, v) && star < n && star < 256
    requires if star < 0 then |Elements(w, v)| == n else n - 1 <= |Elements(w, v)|
    ensures !IsJump(UnpackCode(star, n)) && Exec(w, UnpackCode(star, n), [v] + st, s) == Done(Parts(Elements(w, v), star, n) + st, s)
  {
    hide UnpackExResult, IsSequence, Elements;
    if star >= 0 { UnpackExFits(w, star, n, v); }
  }

  lemma {:induction false} UnpackStep(w: World, p: Code, a: Config, pc: nat, star: int, n: nat, v: Value, st: seq<Value>, s: State)
    requires IsSequence(w, v) && star < n && star < 256
    requires if star < 0 then |Elements(w, v)| == n else n - 1 <= |Elements(w, v)|
    requires Reach(w, p, a, Run(pc, [v] + st, s)) && pc < |p.instrs| && p.instrs[pc] == UnpackCode(star, n)
    ensures Reach(w, p, a, Run(pc + 1, Parts(Elements(w, v), star, n) + st, s))
  {
    hide Reach, Parts, UnpackCode;
    UnpackEffect(w, star, n, v, st, s);
    Op(w, p, a, pc, UnpackCode(star, n), [v] + st, s, Parts(Elements(w, v), star, n) + st, s);
  }

  // The indexing code fetches the same part as unpacking would.
  lemma {:induction false} ItemStep(w: World, p: Code, a: Config, pc: nat, n: nat, i: nat, star: nat, v: Value, st: seq<Value>, s: State)
    requires IsSequence(w, v) && i < n && star < n && i != star && n - 1 <= |Elements(w, v)|
    requires Reach(w, p, a, Run(pc, [v] + st, s)) && At(p, pc, ItemCode(n, i, star))
    ensures Reach(w, p, a, Run(pc + |ItemCode(n, i, star)|, [Parts(Elements(w, v), star, n)[i]] + ([v] + st), s))
  {
    hide Reach, IsSequence, Elements, Exec;
    var items := Elements(w, v);
    var block := ItemCode(n, i, star);
    var part := Parts(items, star, n)[i];
    AtOne(p, pc, block, 0);
    AtOne(p, pc, block, 1);
    AtOne(p, pc, block, 2);
    CopyStep(w, p, a, pc, 1, [v] + st, s);
    var st1 := [v] + ([v] + st);
    if i < star {
      ConstStep(w, p, a, pc + 1, Int(i), st1, s);
      SubscriptStep(w, p, a, pc + 2, v, i, [v] + st, s);
      assert part == items[i];
    } else {
      AtOne(p, pc, block, 3);
      AtOne(p, pc, block, 4);
      var index := |items| - (n - i);
      LenStep(w, p, a, pc + 1, |items|, v, [v] + st, s);
      ConstStep(w, p, a, pc + 2, Int(n - i), [Int(|items|)] + st1, s);
      BinaryStep(w, p, a, pc + 3, NB_SUBTRACT, Int(|items|), Int(n - i), st1, s);
      SubscriptStep(w, p, a, pc + 4, v, index, [v] + st, s);
      assert part == items[index];
    }
  }

  lemma {:induction false} SubscriptStep(w: World, p: Code, a: Config, pc: nat, v: Value, i: nat, st: seq<Value>, s: State)
    requires IsSequence(w, v) && i < |Elements(w, v)|
    requires Reach(w, p, a, Run(pc, [Int(i)] + ([v] + st), s)) && pc < |p.instrs| && p.instrs[pc] == BinaryOp(NB_SUBSCR)
    ensures Reach(w, p, a, Run(pc + 1, [Elements(w, v)[i]] + st, s))
  {
    BinaryStep(w, p, a, pc, NB_SUBSCR, v, Int(i), st, s);
  }

  // COPY 1; LOAD_CONST None; IS_OP 1.
  lemma {:induction false} NotNoneStep(w: World, p: Code, a: Config, pc: nat, v: Value, st: seq<Value>, s: State)
    requires Reach(w, p, a, Run(pc, [v] + st, s)) && At(p, pc, NOT_NONE_TEST)
    ensures Reach(w, p, a, Run(pc + 3, [Bool(v != NoneValue)] + ([v] + st), s))
  {
    hide Reach, At;
    AtOne(p, pc, NOT_NONE_TEST, 0);
    AtOne(p, pc, NOT_NONE_TEST, 1);
    AtOne(p, pc, NOT_NONE_TEST, 2);
    CopyStep(w, p, a, pc, 1, [v] + st, s);
    ConstStep(w, p, a, pc + 1, NoneValue, [v] + ([v] + st), s);
    var full := [NoneValue] + ([v] + ([v] + st));
    assert full[1..] == [v] + ([v] + st) && full[1..][1..] == [v] + st;
    Op(w, p, a, pc + 2, IsOp(1), full, s, [Bool(v != NoneValue)] + ([v] + st), s);
  }

  // ----- tuples of keys and names -----

  lemma {:induction false} ConstsStep(w: World, p: Code, a: Config, pc: nat, vs: seq<Value>, i: nat, st: seq<Value>, s: State)
    requires i <= |vs| && At(p, pc, ConstCode(vs))
    requires Reach(w, p, a, Run(pc + i, Reverse(vs[..i]) + st, s))
    ensures Reach(w, p, a, Run(pc + |vs|, Reverse(vs) + st, s))
    decreases |vs| - i
  {
    hide Reach, At, Reverse;
    if i == |vs| {
      assert vs[..i] == vs;
    } else {
      AtOne(p, pc, ConstCode(vs), i);
      ConstStep(w, p, a, pc + i, vs[i], Reverse(vs[..i]) + st, s);
      ReverseAppend(vs[..i], vs[i]);
      assert vs[..i + 1] == vs[..i] + [vs[i]];
      assert [vs[i]] + (Reverse(vs[..i]) + st) == Reverse(vs[..i + 1]) + st;
      ConstsStep(w, p, a, pc, vs, i + 1, st, s);
    }
  }

  lemma {:induction false} ReverseAppend(q: seq<Value>, x: Value)
    ensures Reverse(q + [x]) == [x] + Reverse(q)
  {
    var r := q + [x];
    forall k | 0 <= k < |r| ensures Reverse(r)[k] == ([x] + Reverse(q))[k] {
    }
  }

  lemma {:induction false} ReverseTwice(q: seq<Value>)
    ensures Reverse(Reverse(q)) == q
  {
  }

  // BUILD_TUPLE restores the order in which the items were pushed.
  lemma {:induction false} TupleStep(w: World, p: Code, a: Config, pc: nat, vs: seq<Value>, st: seq<Value>, s: State)
    requires Reach(w, p, a, Run(pc, Reverse(vs) + st, s)) && pc < |p.instrs| && p.instrs[pc] == BuildTuple(|vs|)
    ensures Reach(w, p, a, Run(pc + 1, [Tuple(vs)] + st, s))
  {
    var r := Reverse(vs);
    assert Reverse(r) == vs by { ReverseTwice(vs); }
    BuildTupleStep(w, p, a, pc, r, st, s);
  }

  lemma {:induction false} BuildTupleStep(w: World, p: Code, a: Config, pc: nat, top: seq<Value>, st: seq<Value>, s: State)
    requires Reach(w, p, a, Run(pc, top + st, s)) && pc < |p.instrs| && p.instrs[pc] == BuildTuple(|top|)
    ensures Reach(w, p, a, Run(pc + 1, [Tuple(Reverse(top))] + st, s))
  {
    BuildTupleEffect(w, top, st, s);
    Op(w, p, a, pc, BuildTuple(|top|), top + st, s, [Tuple(Reverse(top))] + st, s);
  }

  lemma {:induction false} BuildTupleEffect(w: World, top: seq<Value>, st: seq<Value>, s: State)
    ensures Exec(w, BuildTuple(|top|), top + st, s) == Done([Tuple(Reverse(top))] + st, s)
  {
    assert (top + st)[..|top|] == top;
    assert (top + st)[|top|..] == st;
  }

  // ----- mappings -----

  lemma {:induction false} KeysStep(w: World, p: Code, a: Config, keys: seq<Expr>, i: nat, seen: set<Bucket>, c: Code, pushed: seq<Value>, st: seq<Value>, s: State)
    requires i <= |keys| && LabelsInRange(c) && GenKeys(keys, i, seen, c).Some? && Extends(GenKeys(keys, i, seen, c).value, p)
    requires Reach(w, p, a, Run(|c.instrs|, pushed + st, s))
    ensures match EvalKeys(w, keys, i, s)
            case Keys(ks, s1) => Reach(w, p, a, Run(|GenKeys(keys, i, seen, c).value.instrs|, Reverse(ks) + pushed + st, s1))
            case KeysRaised(s1) => Reach(w, p, a, Raised(s1))
    decreases |keys| - i
  {
    if i == |keys| {
      assert Reverse([]) + pushed + st == pushed + st;
    } else {
      GenExprGrows(keys[i], c);
      var c1 := GenExpr(keys[i], c).value;
      var seen' := if KeyBucket(keys[i]).Some? then seen + {KeyBucket(keys[i]).value} else seen;
      GenKeysGrows(keys, i + 1, seen', c1);
      ExtendsTransitive(c1, GenKeys(keys, i + 1, seen', c1).value, p);
      ExprCorrect(w, p, a, keys[i], c, pushed + st, s);
      var r := Eval(w, keys[i], s);
      if r.Val? {
        assert [r.v] + (pushed + st) == ([r.v] + pushed) + st;
        KeysStep(w, p, a, keys, i + 1, seen', c1, [r.v] + pushed, st, r.s);
        var rest := EvalKeys(w, keys, i + 1, r.s);
        if rest.Keys? {
          var ks := [r.v] + rest.values;
          assert Reverse(ks) == Reverse(rest.values) + [r.v];
          assert Reverse(rest.values) + ([r.v] + pushed) + st == Reverse(ks) + pushed + st;
        }
      }
    }
  }

  // Deleting the keys from the copy one by one; they lie above it.
  lemma {:induction false} DeleteKeysStep(w: World, p: Code, a: Config, pc: nat, ks: seq<Value>, i: nat, all: map<Value, Value>, addr: nat, st: seq<Value>, s: State)
    requires i <= |ks| && addr < |s.dicts| && s.dicts[addr] == all - AsSet(ks[..i])
    requires forall k :: 0 <= k < |ks| ==> ks[k] in all && ks[k] !in ks[..k]
    requires Reach(w, p, a, Run(pc, ks[i..] + ([Dict(addr)] + st), s)) && At(p, pc, DeleteKeysCode(|ks| - i))
    ensures Reach(w, p, a, Run(pc + |DeleteKeysCode(|ks| - i)|, [Dict(addr)] + st,
              s.(dicts := s.dicts[addr := all - AsSet(ks)])))
    decreases |ks| - i
  {
    hide Reach, At;
    if i == |ks| {
      assert ks[..i] == ks && ks[i..] + ([Dict(addr)] + st) == [Dict(addr)] + st;
      assert s.dicts[addr := s.dicts[addr]] == s.dicts;
    } else {
      var n := |ks| - i;
      var head := [Copy(1 + n), Swap(2), DeleteSubscr];
      assert DeleteKeysCode(n) == head + DeleteKeysCode(n - 1);
      AtSplit(p, pc, head, DeleteKeysCode(n - 1));
      DeleteOneStep(w, p, a, pc, ks, i, all, addr, st, s);
      var s' := s.(dicts := s.dicts[addr := s.dicts[addr] - {ks[i]}]);
      assert ks[..i + 1] == ks[..i] + [ks[i]];
      assert s'.dicts[addr] == all - AsSet(ks[..i + 1]);
      DeleteKeysStep(w, p, a, pc + 3, ks, i + 1, all, addr, st, s');
      assert s'.dicts[addr := all - AsSet(ks)] == s.dicts[addr := all - AsSet(ks)];
    }
  }

  lemma {:induction false} DeleteOneStep(w: World, p: Code, a: Config, pc: nat, ks: seq<Value>, i: nat, all: map<Value, Value>, addr: nat, st: seq<Value>, s: State)
    requires i < |ks| && addr < |s.dicts| && s.dicts[addr] == all - AsSet(ks[..i])
    requires ks[i] in all && ks[i] !in ks[..i]
    requires Reach(w, p, a, Run(pc, ks[i..] + ([Dict(addr)] + st), s)) && At(p, pc, [Copy(1 + |ks| - i), Swap(2), DeleteSubscr])
    ensures Reach(w, p, a, Run(pc + 3, ks[i + 1 ..] + ([Dict(addr)] + st), s.(dicts := s.dicts[addr := s.dicts[addr] - {ks[i]}])))
  {
    hide Extends, At, Reach;
    var d, rest := Dict(addr), ks[i + 1 ..] + ([Dict(addr)] + st);
    var head := [Copy(1 + |ks| - i), Swap(2), DeleteSubscr];
    var full := ks[i..] + ([d] + st);
    AtOne(p, pc, head, 0);
    AtOne(p, pc, head, 1);
    AtOne(p, pc, head, 2);
    assert full == [ks[i]] + rest && full[|ks| - i] == d;
    CopyStep(w, p, a, pc, 1 + |ks| - i, full, s);
    assert [d] + full == [d, ks[i]] + rest;
    SwapTwoStep(w, p, a, pc + 1, d, ks[i], rest, s);
    var top := [ks[i], d] + rest;
    assert top[1..] == [d] + rest && top[1..][1..] == rest;
    Op(w, p, a, pc + 2, DeleteSubscr, top, s, rest, s.(dicts := s.dicts[addr := s.dicts[addr] - {ks[i]}]));
  }

  // From [keys, subject] to a copy of the subject without the keys.
  lemma {:induction false} RestStep(w: World, p: Code, a: Config, pc: nat, ks: seq<Value>, v: Value, st: seq<Value>, s: State)
    requires IsMapping(w, s, v)
    requires forall k :: 0 <= k < |ks| ==> ks[k] in Entries(w, s, v) && ks[k] !in ks[..k]
    requires Reach(w, p, a, Run(pc, [Tuple(ks), v] + st, s)) && At(p, pc, RestCode(|ks|))
    ensures Reach(w, p, a, Run(pc + |RestCode(|ks|)|, [Dict(|s.dicts|)] + st, CopyWithout(w, v, ks, s)))
  {
    var n, addr, all := |ks|, |s.dicts|, Entries(w, s, v);
    var head := [BuildMap(0), Swap(3), DictUpdate(2), UnpackSequence(n)];
    AtSplit(p, pc, head, DeleteKeysCode(n));
    CopyDictStep(w, p, a, pc, ks, v, st, s);
    var s2 := s.(dicts := s.dicts + [all]);
    assert ks[0..] == ks;
    assert s2.dicts[addr] == all - AsSet(ks[..0]);
    DeleteKeysStep(w, p, a, pc + 4, ks, 0, all, addr, st, s2);
    assert s2.dicts[addr := all - AsSet(ks)] == s.dicts + [all - AsSet(ks)];
  }

  lemma {:induction false} NewDictStep(w: World, p: Code, a: Config, pc: nat, st: seq<Value>, s: State)
    requires Reach(w, p, a, Run(pc, st, s)) && pc < |p.instrs| && p.instrs[pc] == BuildMap(0)
    ensures Reach(w, p, a, Run(pc + 1, [Dict(|s.dicts|)] + st, s.(dicts := s.dicts + [map[]])))
  {
    hide Reach;
    Op(w, p, a, pc, BuildMap(0), st, s, [Dict(|s.dicts|)] + st, s.(dicts := s.dicts + [map[]]));
  }

  lemma {:induction false} SwapThreeStep(w: World, p: Code, a: Config, pc: nat, x: Value, y: Value, z: Value, st: seq<Value>, s: State)
    requires Reach(w, p, a, Run(pc, [x, y, z] + st, s)) && pc < |p.instrs| && p.instrs[pc] == Swap(3)
    ensures Reach(w, p, a, Run(pc + 1, [z, y, x] + st, s))
  {
    hide Reach;
    Op(w, p, a, pc, Swap(3), [x, y, z] + st, s, [z, y, x] + st, s);
  }

  lemma {:induction false} UnpackTupleStep(w: World, p: Code, a: Config, pc: nat, items: seq<Value>, st: seq<Value>, s: State)
    requires Reach(w, p, a, Run(pc, [Tuple(items)] + st, s)) && pc < |p.instrs| && p.instrs[pc] == UnpackSequence(|items|)
    ensures Reach(w, p, a, Run(pc + 1, items + st, s))
  {
    hide Reach;
    Op(w, p, a, pc, UnpackSequence(|items|), [Tuple(items)] + st, s, items + st, s);
  }

  lemma {:induction false} CopyDictStep(w: World, p: Code, a: Config, pc: nat, ks: seq<Value>, v: Value, st: seq<Value>, s: State)
    requires IsMapping(w, s, v)
    requires Reach(w, p, a, Run(pc, [Tuple(ks), v] + st, s))
    requires At(p, pc, [BuildMap(0), Swap(3), DictUpdate(2), UnpackSequence(|ks|)])
    ensures Reach(w, p, a, Run(pc + 4, ks + ([Dict(|s.dicts|)] + st), s.(dicts := s.dicts + [Entries(w, s, v)])))
  {
    hide Reach, At, IsMapping, Entries, Exec;
    var head := [BuildMap(0), Swap(3), DictUpdate(2), UnpackSequence(|ks|)];
    AtOne(p, pc, head, 0);
    AtOne(p, pc, head, 1);
    AtOne(p, pc, head, 2);
    AtOne(p, pc, head, 3);
    var addr, t := |s.dicts|, Tuple(ks);
    var d := Dict(addr);
    var empty: map<Value, Value> := map[];
    var s1 := s.(dicts := s.dicts + [empty]);
    NewDictStep(w, p, a, pc, [t, v] + st, s);
    assert [d] + ([t, v] + st) == [d, t, v] + st;
    SwapThreeStep(w, p, a, pc + 1, d, t, v, st, s1);
    UpdateStep(w, p, a, pc + 2, t, d, v, st, s, s1);
    var s2 := s.(dicts := s.dicts + [Entries(w, s, v)]);
    assert [t, d] + st == [t] + ([d] + st);
    UnpackTupleStep(w, p, a, pc + 3, ks, [d] + st, s2);
  }

  lemma {:induction false} UpdateStep(w: World, p: Code, a: Config, pc: nat, t: Value, d: Value, v: Value, st: seq<Value>, s: State, s1: State)
    requires IsMapping(w, s, v) && d == Dict(|s.dicts|) && s1 == s.(dicts := s.dicts + [map[]])
    requires Reach(w, p, a, Run(pc, [v, t, d] + st, s1)) && pc < |p.instrs| && p.instrs[pc] == DictUpdate(2)
    ensures Reach(w, p, a, Run(pc + 1, [t, d] + st, s.(dicts := s.dicts + [Entries(w, s, v)])))
  {
    var full := [v, t, d] + st;
    var below := [t, d] + st;
    assert full[1..] == below && below[1..] == [d] + st;
    assert [t] + below[1..] == below;
    assert Entries(w, s1, v) == Entries(w, s, v);
    var empty: map<Value, Value> := map[];
    assert empty + Entries(w, s, v) == Entries(w, s, v);
    var ds := s1.dicts[d.addr := s1.dicts[d.addr] + Entries(w, s1, v)];
    assert ds == s.dicts + [Entries(w, s, v)];
    assert Exec(w, DictUpdate(2), full, s1) == Exec2(w, DictUpdate(2), v, t, [d] + st, s1);
    Op(w, p, a, pc, DictUpdate(2), full, s1, below, s1.(dicts := ds));
  }

  // MATCH_KEYS on [keys, subject].
  lemma {:induction false} MatchKeysStep(w: World, p: Code, a: Config, pc: nat, ks: seq<Value>, v: Value, st: seq<Value>, s: State)
    requires IsMapping(w, s, v)
    requires Reach(w, p, a, Run(pc, [Tuple(ks), v] + st, s)) && pc < |p.instrs| && p.instrs[pc] == MatchKeysOp
    ensures match LookupKeys(Entries(w, s, v), ks, 0)
            case Found(vs) => Reach(w, p, a, Run(pc + 1, [Tuple(vs)] + ([Tuple(ks), v] + st), s))
            case Missing => Reach(w, p, a, Run(pc + 1, [NoneValue] + ([Tuple(ks), v] + st), s))
            case Repeated => Reach(w, p, a, Raised(s))
  {
    var full := [Tuple(ks), v] + st;
    assert full[1..] == [v] + st && full[1..][1..] == st;
    assert Exec(w, MatchKeysOp, full, s) == Exec2(w, MatchKeysOp, Tuple(ks), v, st, s);
    match LookupKeys(Entries(w, s, v), ks, 0)
    case Found(vs) => Op(w, p, a, pc, MatchKeysOp, full, s, [Tuple(vs)] + full, s);
    case Missing => Op(w, p, a, pc, MatchKeysOp, full, s, [NoneValue] + full, s);
    case Repeated => OpRaises(w, p, a, pc, MatchKeysOp, full, s, s);
  }

  // ----- classes -----

  // MATCH_CLASS on [names, class, subject].
  lemma {:induction false} MatchClassStep(w: World, p: Code, a: Config, pc: nat, npos: nat, names: seq<Value>, cls: Value, v: Value, st: seq<Value>, s: State)
    requires Reach(w, p, a, Run(pc, [Tuple(names)] + ([cls] + ([v] + st)), s)) && pc < |p.instrs| && p.instrs[pc] == MatchClassOp(npos)
    ensures Finishes(w, p, a, ClassResult(w, v, cls, names, npos, s), pc + 1, st)
  {
    var full := [Tuple(names)] + ([cls] + ([v] + st));
    assert full[1..] == [cls] + ([v] + st) && full[1..][1..] == [v] + st && full[1..][1..][1..] == st;
    assert Exec(w, MatchClassOp(npos), full, s) == Exec2(w, MatchClassOp(npos), Tuple(names), cls, [v] + st, s);
    PushOp(w, p, a, pc, MatchClassOp(npos), full, s, ClassResult(w, v, cls, names, npos, s), st);
  }
}
