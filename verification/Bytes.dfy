// Byte strings, and the places in them where a block of bytes stands.
module Bytes {
  type Byte = x: int | 0 <= x < 256

  // block stands at pos.
  ghost predicate Holds(code: seq<Byte>, pos: nat, block: seq<Byte>) {
    pos + |block| <= |code| && code[pos .. pos + |block|] == block
  }

  lemma {:induction false} HoldsSplit(code: seq<Byte>, pos: nat, a: seq<Byte>, b: seq<Byte>)
    requires Holds(code, pos, a + b)
    ensures Holds(code, pos, a) && Holds(code, pos + |a|, b)
  {
    var all := code[pos .. pos + |a| + |b|];
    assert all[..|a|] == a && all[|a|..] == b;
    assert code[pos .. pos + |a|] == all[..|a|];
    assert code[pos + |a| .. pos + |a| + |b|] == all[|a|..];
  }

  lemma {:induction false} HoldsAt(code: seq<Byte>, pos: nat, block: seq<Byte>, k: nat)
    requires Holds(code, pos, block) && k < |block|
    ensures pos + k < |code| && code[pos + k] == block[k]
  {
    assert code[pos .. pos + |block|][k] == code[pos + k];
  }
}
