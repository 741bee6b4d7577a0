// Rewriting `format % (args)` into an f-string: the parsers of the rewriter,
// a reference semantics of printf-style formatting and of f-strings, and the
// proof that a rewrite, whenever there is one, renders the same text.
module PrintfFormat {
  import opened Machine

  // ----- the two parsers of the rewriter -----

  predicate IsDigit(c: char) { '0' <= c <= '9' }

  predicate IsFlag(c: char) { c == '-' || c == '+' || c == ' ' || c == '#' || c == '0' }

  function Digit(c: char): (d: nat)
    requires IsDigit(c)
    ensures d < 10
  {
    (c as int) - ('0' as int)
  }

  const MAX_DIGITS: nat := 3

  // width and prec are -1 when absent.
  datatype Spec = Spec(ljust: bool, width: int, prec: int, conv: char)

  // A specification and the position behind it.
  datatype Parsed = Parsed(spec: Spec, end: nat)

  // The end of the literal text that starts at i.
  function LiteralEnd(s: string, i: nat): (j: nat)
    requires i <= |s|
    ensures i <= j <= |s|
    decreases |s| - i
  {
    if i < |s| && s[i] != '%' then LiteralEnd(s, i + 1)
    else if i + 1 < |s| && s[i] == '%' && s[i + 1] == '%' then LiteralEnd(s, i + 2)
    else i
  }

  // strings.ReplaceAll(t, "%%", "%").
  function Unescaped(t: string): string {
    if |t| >= 2 && t[0] == '%' && t[1] == '%' then "%" + Unescaped(t[2..])
    else if t == "" then ""
    else [t[0]] + Unescaped(t[1..])
  }

  // The parsers work on the current character s[c]; None at the end of input.
  function Flags(s: string, c: nat, ljust: bool): (r: Option<(bool, nat)>)
    ensures r.Some? ==> c <= r.value.1 < |s|
    decreases |s| - c
  {
    if c >= |s| then None
    else if IsFlag(s[c]) then Flags(s, c + 1, ljust || s[c] == '-')
    else Some((ljust, c))
  }

  function Digits(s: string, c: nat, acc: nat, count: nat): (r: Option<(nat, nat)>)
    requires c < |s|
    ensures r.Some? ==> c <= r.value.1 < |s|
    decreases |s| - c
  {
    if !IsDigit(s[c]) then Some((acc, c))
    else if c + 1 >= |s| || count + 1 >= MAX_DIGITS then None
    else Digits(s, c + 1, 10 * acc + Digit(s[c]), count + 1)
  }

  function Width(s: string, c: nat): (r: Option<(int, nat)>)
    requires c < |s|
    ensures r.Some? ==> c <= r.value.1 < |s|
  {
    if !IsDigit(s[c]) then Some((-1, c)) else Digits(s, c, 0, 0)
  }

  function Precision(s: string, c: nat): (r: Option<(int, nat)>)
    requires c < |s|
    ensures r.Some? ==> c <= r.value.1 < |s|
  {
    if s[c] != '.' then Some((-1, c))
    else if c + 1 >= |s| then None
    else if !IsDigit(s[c + 1]) then Some((0, c + 1))
    else Digits(s, c + 1, 0, 0)
  }

  function ParseSpec(s: string, i: nat): (r: Option<Parsed>)
    ensures r.Some? ==> i < r.value.end <= |s|
  {
    match Flags(s, i, false)
    case None => None
    case Some((ljust, c1)) =>
      match Width(s, c1)
      case None => None
      case Some((width, c2)) =>
        match Precision(s, c2)
        case None => None
        case Some((prec, c3)) => Some(Parsed(Spec(ljust, width, prec, s[c3]), c3 + 1))
  }

  // ----- the f-string -----

  datatype Piece<A> = Literal(text: string) | Formatted(arg: A, conv: char, spec: string)

  predicate Convertible(c: char) { c == 's' || c == 'r' || c == 'a' }

  // strconv.Itoa.
  function Itoa(n: nat): (t: string)
    ensures 0 < |t| && forall k :: 0 <= k < |t| ==> IsDigit(t[k])
  {
    if n < 10 then [('0' as int + n) as char] else Itoa(n / 10) + [('0' as int + n % 10) as char]
  }

  function SpecText(r: Spec): string {
    (if !r.ljust && r.width > 0 then ">" else "")
    + (if r.width >= 0 then Itoa(r.width) else "")
    + (if r.prec >= 0 then "." + Itoa(r.prec) else "")
  }

  function PiecesFrom<A>(s: string, i: nat, args: seq<A>, k: nat): Option<seq<Piece<A>>>
    requires i <= |s| && k <= |args|
    decreases |s| - i, 1
  {
    var j := LiteralEnd(s, i);
    match AfterLiteral(s, j, args, k)
    case None => None
    case Some(rest) => Some((if j > i then [Literal(Unescaped(s[i .. j]))] else []) + rest)
  }

  // At the end, or at a specification.
  function AfterLiteral<A>(s: string, j: nat, args: seq<A>, k: nat): Option<seq<Piece<A>>>
    requires j <= |s| && k <= |args|
    decreases |s| - j, 0
  {
    if j >= |s| then if k < |args| then None else Some([])
    else if k >= |args| || s[j] != '%' then None
    else
      match ParseSpec(s, j + 1)
      case None => None
      case Some(Parsed(r, end)) =>
        if !Convertible(r.conv) then None
        else
          match PiecesFrom(s, end, args, k + 1)
          case None => None
          case Some(rest) => Some([Formatted(args[k], r.conv, SpecText(r))] + rest)
  }

  // ----- the rewriter as it runs -----

  // The shared cursor of the specification parsers.
  class Cursor {
    const s: string
    var pos: nat
    var spec: Spec

    constructor (s: string, pos: nat)
      ensures this.s == s && this.pos == pos && spec == Spec(false, -1, -1, ' ')
    {
      this.s, this.pos, spec := s, pos, Spec(false, -1, -1, ' ');
    }

    method Next() returns (ch: char, ok: bool)
      modifies this
      ensures ok == (old(pos) < |s|) && spec == old(spec)
      ensures ok ==> ch == s[old(pos)] && pos == old(pos) + 1
      ensures !ok ==> pos == old(pos)
    {
      if pos >= |s| { return ' ', false; }
      ch := s[pos];
      pos := pos + 1;
      ok := true;
    }

    // The current character is the one just before the cursor.
    ghost predicate At(ch: char)
      reads this
    {
      0 < pos <= |s| && s[pos - 1] == ch
    }

    method ParseFlags(first: char) returns (ch: char, ok: bool)
      requires At(first)
      modifies this
      ensures var f := Flags(s, old(pos) - 1, old(spec).ljust);
              && ok == f.Some?
              && (ok ==> At(ch) && pos - 1 == f.value.1 && spec == old(spec).(ljust := f.value.0))
    {
      ch := first;
      while IsFlag(ch)
        invariant At(ch)
        invariant Flags(s, pos - 1, spec.ljust) == Flags(s, old(pos) - 1, old(spec).ljust)
        invariant spec == old(spec).(ljust := spec.ljust)
        decreases |s| - pos
      {
        spec := spec.(ljust := spec.ljust || ch == '-');
        ch, ok := Next();
        if !ok { return; }
      }
      ok := true;
    }

    method ParseDigits(first: char) returns (value: nat, ch: char, ok: bool)
      requires At(first)
      modifies this`pos
      ensures var d := Digits(s, old(pos) - 1, 0, 0);
              && ok == d.Some?
              && (ok ==> At(ch) && d.value == (value, pos - 1))
    {
      var digits := 0;
      ch, value := first, 0;
      while IsDigit(ch)
        invariant At(ch) && spec == old(spec)
        invariant Digits(s, pos - 1, value, digits) == Digits(s, old(pos) - 1, 0, 0)
        decreases |s| - pos
      {
        value := value * 10 + Digit(ch);
        if pos >= |s| { return value, ch, false; }
        var next := s[pos];
        pos := pos + 1;
        digits := digits + 1;
        if digits >= MAX_DIGITS { return value, ch, false; }
        ch := next;
      }
      ok := true;
    }

    method ParseWidth(first: char) returns (ch: char, ok: bool)
      requires At(first) && spec.width == -1
      modifies this
      ensures var d := Width(s, old(pos) - 1);
              && ok == d.Some?
              && (ok ==> At(ch) && pos - 1 == d.value.1 && spec == old(spec).(width := d.value.0))
    {
      if !IsDigit(first) { return first, true; }
      var width;
      width, ch, ok := ParseDigits(first);
      spec := spec.(width := width);
    }

    method ParsePrecision(first: char) returns (ch: char, ok: bool)
      requires At(first) && spec.prec == -1
      modifies this
      ensures var d := Precision(s, old(pos) - 1);
              && ok == d.Some?
              && (ok ==> At(ch) && pos - 1 == d.value.1 && spec == old(spec).(prec := d.value.0))
    {
      if first != '.' { return first, true; }
      var next;
      next, ok := Next();
      if !ok { return first, false; }
      spec := spec.(prec := 0);
      if !IsDigit(next) { return next, true; }
      var prec;
      prec, ch, ok := ParseDigits(next);
      spec := spec.(prec := prec);
    }

    method ParseFormatSpec() returns (ok: bool)
      requires spec == Spec(false, -1, -1, ' ')
      modifies this
      ensures ok == ParseSpec(s, old(pos)).Some?
      ensures ok ==> ParseSpec(s, old(pos)) == Some(Parsed(spec, pos))
    {
      var ch;
      ch, ok := Next();
      if !ok { return; }
      ch, ok := ParseFlags(ch);
      if !ok { return; }
      ch, ok := ParseWidth(ch);
      if !ok { return; }
      ch, ok := ParsePrecision(ch);
      if !ok { return; }
      spec := spec.(conv := ch);
    }
  }

  method ParseLiteral(s: string, start: nat) returns (lit: string, ok: bool, pos: nat)
    requires start <= |s|
    ensures pos == LiteralEnd(s, start) && ok == (pos > start)
    ensures ok ==> lit == Unescaped(s[start .. pos])
  {
    pos := start;
    var hasPercents := false;
    while pos < |s|
      invariant start <= pos <= |s|
      invariant LiteralEnd(s, pos) == LiteralEnd(s, start)
      invariant !hasPercents ==> forall k :: start <= k < pos ==> s[k] != '%'
      decreases |s| - pos
    {
      if s[pos] != '%' {
        pos := pos + 1;
        continue;
      }
      if pos + 1 < |s| && s[pos + 1] == '%' {
        hasPercents := true;
        pos := pos + 2;
        continue;
      }
      break;
    }
    if pos == start { return "", false, pos; }
    lit, ok := s[start .. pos], true;
    if hasPercents {
      lit := Unescaped(lit);
    } else {
      NothingEscaped(lit);
    }
  }

  lemma {:induction false} NothingEscaped(t: string)
    requires forall k :: 0 <= k < |t| ==> t[k] != '%'
    ensures Unescaped(t) == t
  {
    if t != "" { NothingEscaped(t[1..]); }
  }

  method OptimizeFormat<A>(s: string, args: seq<A>) returns (values: seq<Piece<A>>, ok: bool)
    ensures ok == PiecesFrom(s, 0, args, 0).Some?
    ensures ok ==> values == PiecesFrom(s, 0, args, 0).value
  {
    hide PiecesFrom;
    values := [];
    var pp, cnt := 0, 0;
    BehindNothing(PiecesFrom(s, 0, args, 0));
    while true
      invariant pp <= |s| && cnt <= |args|
      invariant PiecesFrom(s, 0, args, 0) == Behind(values, PiecesFrom(s, pp, args, cnt))
      decreases |s| - pp
    {
      ghost var before, whole := values, PiecesFrom(s, pp, args, cnt);
      var lit, found, pos := ParseLiteral(s, pp);
      if found { values := values + [Literal(lit)]; }
      ghost var literal := values;
      BehindLiteral(s, pp, args, cnt, before, literal);
      pp := pos;
      if pp >= |s| { break; }
      if cnt >= |args| || s[pp] != '%' { return values, false; }
      var c := new Cursor(s, pp + 1);
      ok := c.ParseFormatSpec();
      if !ok { return; }
      if !Convertible(c.spec.conv) { return values, false; }
      var piece := Formatted(args[cnt], c.spec.conv, SpecText(c.spec));
      values := values + [piece];
      pp, cnt := c.pos, cnt + 1;
      BehindTwice(literal, [piece], PiecesFrom(s, pp, args, cnt));
    }
    ok := cnt >= |args|;
    assert values + [] == values;
  }

  function Behind<A>(front: seq<Piece<A>>, r: Option<seq<Piece<A>>>): Option<seq<Piece<A>>> {
    if r.Some? then Some(front + r.value) else None
  }

  lemma BehindNothing<A>(r: Option<seq<Piece<A>>>)
    ensures Behind([], r) == r
  {
    if r.Some? { assert [] + r.value == r.value; }
  }

  lemma BehindTwice<A>(x: seq<Piece<A>>, y: seq<Piece<A>>, r: Option<seq<Piece<A>>>)
    ensures Behind(x, Behind(y, r)) == Behind(x + y, r)
  {
    if r.Some? { assert x + (y + r.value) == (x + y) + r.value; }
  }

  lemma BehindLiteral<A>(s: string, pp: nat, args: seq<A>, cnt: nat, before: seq<Piece<A>>, literal: seq<Piece<A>>)
    requires pp <= |s| && cnt <= |args|
    requires var j := LiteralEnd(s, pp);
             literal == before + if j > pp then [Literal(Unescaped(s[pp .. j]))] else []
    ensures Behind(before, PiecesFrom(s, pp, args, cnt)) == Behind(literal, AfterLiteral(s, LiteralEnd(s, pp), args, cnt))
  {
    var j := LiteralEnd(s, pp);
    var lit: seq<Piece<A>> := if j > pp then [Literal(Unescaped(s[pp .. j]))] else [];
    BehindTwice(before, lit, AfterLiteral(s, j, args, cnt));
  }
}
