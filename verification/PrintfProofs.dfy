// A rewritten format renders what printf-style formatting renders, and takes
// every argument once, in order; and which formats are rewritten.
module PrintfProofs {
  import opened Machine
  import opened PrintfFormat

  // ----- the characters of a format -----

  // The flags, the digits and the conversions that are rewritten; numbers have
  // fewer digits than three.
  lemma {:induction false} FormatCharacters(c: char)
    ensures IsFlag(c) <==> c in "-+ #0"
    ensures IsDigit(c) <==> c in "0123456789"
    ensures IsDigit(c) ==> c == "0123456789"[Digit(c)]
    ensures Convertible(c) <==> c in "sra"
    ensures MAX_DIGITS == 3
  {
  }

  // ----- rendering one value -----

  // str, repr and ascii of an argument, by conversion character.
  type Convert<!A> = (char, A) -> string

  function Spaces(n: nat): (t: string)
    ensures |t| == n
  {
    seq(n, i => ' ')
  }

  function Truncated(t: string, prec: int): string { if 0 <= prec < |t| then t[..prec] else t }

  function Padded(t: string, width: int, left: bool): string {
    if width <= |t| then t else if left then t + Spaces(width - |t|) else Spaces(width - |t|) + t
  }

  // ----- printf-style formatting (the reference) -----

  function FlagsEnd(s: string, i: nat): (j: nat)
    requires i <= |s|
    ensures i <= j <= |s|
    decreases |s| - i
  {
    if i < |s| && IsFlag(s[i]) then FlagsEnd(s, i + 1) else i
  }

  function DigitsEnd(s: string, i: nat): (j: nat)
    requires i <= |s|
    ensures i <= j <= |s|
    ensures forall k :: i <= k < j ==> IsDigit(s[k])
    ensures j < |s| ==> !IsDigit(s[j])
    decreases |s| - i
  {
    if i < |s| && IsDigit(s[i]) then DigitsEnd(s, i + 1) else i
  }

  function Numeral(t: string): (n: nat)
    requires forall k :: 0 <= k < |t| ==> IsDigit(t[k])
  {
    if t == "" then 0 else 10 * Numeral(t[..|t| - 1]) + Digit(t[|t| - 1])
  }

  // A conversion specification: flags, width, precision, conversion character.
  datatype Conversion = Conversion(left: bool, width: int, prec: int, conv: char, end: nat)

  function RefSpec(s: string, i: nat): (r: Option<Conversion>)
    requires i <= |s|
    ensures r.Some? ==> i < r.value.end <= |s|
  {
    var f := FlagsEnd(s, i);
    var w := DigitsEnd(s, f);
    var p := if w < |s| && s[w] == '.' then DigitsEnd(s, w + 1) else w;
    if p >= |s| then None
    else
      Some(Conversion('-' in s[i .. f], if w > f then Numeral(s[f .. w]) else -1, if p > w then Numeral(s[w + 1 .. p]) else -1, s[p], p + 1))
  }

  // Elsewhere: a conversion that is not modelled here (numbers, '*', keys).
  datatype Rendered = Text(t: string) | FormatError | Elsewhere

  function After(t: string, r: Rendered): Rendered { if r.Text? then Text(t + r.t) else r }

  function Printf<A>(convert: Convert<A>, s: string, i: nat, args: seq<A>, k: nat): Rendered
    requires i <= |s| && k <= |args|
    decreases |s| - i
  {
    if i == |s| then if k < |args| then FormatError else Text("")
    else if s[i] != '%' then After([s[i]], Printf(convert, s, i + 1, args, k))
    else if i + 1 < |s| && s[i + 1] == '%' then After("%", Printf(convert, s, i + 2, args, k))
    else
      match RefSpec(s, i + 1)
      case None => FormatError
      case Some(c) =>
        if !Convertible(c.conv) then Elsewhere
        else if k >= |args| then FormatError
        else After(Padded(Truncated(convert(c.conv, args[k]), c.prec), c.width, c.left), Printf(convert, s, c.end, args, k + 1))
  }

  // ----- f-strings -----

  // The format specification of a string: alignment, width, precision.
  function FormatString(t: string, spec: string): string {
    var a := if spec != "" && spec[0] == '>' then 1 else 0;
    var w := DigitsEnd(spec, a);
    var p := if w < |spec| && spec[w] == '.' then DigitsEnd(spec, w + 1) else w;
    Padded(Truncated(t, if p > w then Numeral(spec[w + 1 .. p]) else -1), if w > a then Numeral(spec[a .. w]) else -1, a == 0)
  }

  function FString<A>(convert: Convert<A>, ps: seq<Piece<A>>): string {
    if ps == [] then ""
    else
      (match ps[0]
       case Literal(t) => t
       case Formatted(arg, conv, spec) => FormatString(convert(conv, arg), spec))
      + FString(convert, ps[1..])
  }

  function Arguments<A>(ps: seq<Piece<A>>): seq<A> {
    if ps == [] then [] else (if ps[0].Formatted? then [ps[0].arg] else []) + Arguments(ps[1..])
  }

  // ----- numerals -----

  lemma {:induction false} NumeralSnoc(t: string, c: char)
    requires IsDigit(c) && forall k :: 0 <= k < |t| ==> IsDigit(t[k])
    ensures Numeral(t + [c]) == 10 * Numeral(t) + Digit(c)
  {
    assert (t + [c])[..|t|] == t;
  }

  lemma {:induction false} ItoaBack(n: nat)
    ensures Numeral(Itoa(n)) == n
    ensures n > 0 ==> Itoa(n)[0] != '0'
  {
    if n < 10 {
      assert Itoa(n)[..0] == "";
    } else {
      ItoaBack(n / 10);
      NumeralSnoc(Itoa(n / 10), ('0' as int + n % 10) as char);
    }
  }

  // ----- the rewriter's parser agrees with the reference -----

  lemma {:induction false} FlagsAgree(s: string, i: nat, ljust: bool)
    requires i <= |s|
    ensures var f := FlagsEnd(s, i);
            Flags(s, i, ljust) == if f < |s| then Some((ljust || '-' in s[i .. f], f)) else None
    ensures FlagsEnd(s, i) < |s| ==> !IsFlag(s[FlagsEnd(s, i)])
    decreases |s| - i
  {
    if i < |s| && IsFlag(s[i]) {
      FlagsAgree(s, i + 1, ljust || s[i] == '-');
      var f := FlagsEnd(s, i);
      assert s[i .. f] == [s[i]] + s[i + 1 .. f];
    }
  }

  // Digits from c on, behind count digits that gave acc.
  lemma {:induction false} DigitsAgree(s: string, start: nat, c: nat)
    requires start <= c < |s| && forall k :: start <= k < c ==> IsDigit(s[k])
    requires c - start < MAX_DIGITS
    ensures var e := DigitsEnd(s, c);
            && (forall k :: start <= k < e ==> IsDigit(s[k]))
            && Digits(s, c, Numeral(s[start .. c]), c - start)
               == if e < |s| && e - start < MAX_DIGITS then Some((Numeral(s[start .. e]), e)) else None
    decreases |s| - c
  {
    if IsDigit(s[c]) {
      assert s[start .. c + 1] == s[start .. c] + [s[c]];
      NumeralSnoc(s[start .. c], s[c]);
      if c + 1 < |s| && c - start + 1 < MAX_DIGITS { DigitsAgree(s, start, c + 1); }
    }
  }

  // Number runs short enough for the rewriter.
  predicate ShortNumbers(s: string, i: nat)
    requires i <= |s|
  {
    var f := FlagsEnd(s, i);
    var w := DigitsEnd(s, f);
    w - f < MAX_DIGITS && (w < |s| && s[w] == '.' ==> DigitsEnd(s, w + 1) - (w + 1) < MAX_DIGITS)
  }

  // The parser succeeds exactly on complete specifications with short numbers,
  // and then finds what the reference finds.
  lemma {:induction false} SpecAgrees(s: string, i: nat)
    requires i <= |s|
    ensures ParseSpec(s, i).Some? <==> RefSpec(s, i).Some? && ShortNumbers(s, i)
    ensures ParseSpec(s, i).Some? ==>
              var Parsed(r, end) := ParseSpec(s, i).value;
              RefSpec(s, i) == Some(Conversion(r.ljust, r.width, r.prec, r.conv, end)) && (r.width == -1 || 0 < r.width) && -1 <= r.prec
  {
    hide Digits, Flags, Numeral;
    FlagsAgree(s, i, false);
    var f := FlagsEnd(s, i);
    if f < |s| {
      var w := DigitsEnd(s, f);
      WidthAgrees(s, f);
      if w < |s| && w - f < MAX_DIGITS { PrecisionAgrees(s, w); }
    }
  }

  lemma {:induction false} WidthAgrees(s: string, f: nat)
    requires f < |s| && !IsFlag(s[f])
    ensures var w := DigitsEnd(s, f);
            && Width(s, f) == (if w < |s| && w - f < MAX_DIGITS then Some((if w > f then Numeral(s[f .. w]) else -1, w)) else None)
            && (w > f ==> 0 < Numeral(s[f .. w]))
  {
    hide Digits;
    assert s[f .. f] == "";
    DigitsAgree(s, f, f);
    if IsDigit(s[f]) {
      assert s[f .. DigitsEnd(s, f)][0] == s[f];
      FirstDigitCounts(s[f .. DigitsEnd(s, f)]);
    }
  }

  lemma {:induction false} FirstDigitCounts(t: string)
    requires t != "" && t[0] != '0' && forall k :: 0 <= k < |t| ==> IsDigit(t[k])
    ensures 0 < Numeral(t)
    decreases |t|
  {
    if |t| > 1 {
      FirstDigitCounts(t[..|t| - 1]);
    } else {
      assert t[..|t| - 1] == "";
    }
  }

  lemma {:induction false} PrecisionAgrees(s: string, w: nat)
    requires w < |s| && !IsDigit(s[w])
    ensures var p := if s[w] == '.' then DigitsEnd(s, w + 1) else w;
            Precision(s, w) ==
            if p < |s| && (p > w ==> p - (w + 1) < MAX_DIGITS) then Some((if p > w then Numeral(s[w + 1 .. p]) else -1, p)) else None
  {
    hide Digits;
    if s[w] == '.' && w + 1 < |s| {
      assert s[w + 1 .. w + 1] == "";
      DigitsAgree(s, w + 1, w + 1);
    }
  }

  // ----- the specification text means the same -----

  lemma {:induction false} DigitsEndAt(spec: string, a: nat, digits: string, rest: string)
    requires a <= |spec| && spec[a..] == digits + rest
    requires forall k :: 0 <= k < |digits| ==> IsDigit(digits[k])
    requires rest == "" || !IsDigit(rest[0])
    ensures DigitsEnd(spec, a) == a + |digits| && spec[a .. a + |digits|] == digits && spec[a + |digits| ..] == rest
    decreases |digits|
  {
    assert spec[a .. a + |digits|] == spec[a..][..|digits|];
    assert spec[a + |digits| ..] == spec[a..][|digits|..];
    if digits == "" {
      if a < |spec| { assert spec[a] == spec[a..][0]; }
    } else {
      assert spec[a] == spec[a..][0] == digits[0];
      assert spec[a + 1 ..] == spec[a..][1..] == digits[1..] + rest;
      DigitsEndAt(spec, a + 1, digits[1..], rest);
    }
  }

  // Where the parts of the text are.
  lemma {:induction false} SpecTextShape(r: Spec)
    requires (r.width == -1 || 0 < r.width) && -1 <= r.prec
    ensures var spec := SpecText(r);
            var a := if !r.ljust && r.width > 0 then 1 else 0;
            && ((spec != "" && spec[0] == '>') <==> a == 1)
            && a <= |spec|
            && var w := DigitsEnd(spec, a);
               && spec[a .. w] == (if r.width >= 0 then Itoa(r.width) else "")
               && ((w < |spec| && spec[w] == '.') <==> r.prec >= 0)
               && (r.prec >= 0 ==> DigitsEnd(spec, w + 1) == |spec| && spec[w + 1 ..] == Itoa(r.prec))
  {
    hide Itoa, DigitsEnd;
    var width, prec := if r.width >= 0 then Itoa(r.width) else "", if r.prec >= 0 then Itoa(r.prec) else "";
    PartsShape(!r.ljust && r.width > 0, width, r.prec >= 0, prec);
  }

  // Alignment, width and precision one behind the other.
  lemma {:induction false} PartsShape(aligned: bool, width: string, dotted: bool, prec: string)
    requires forall k :: 0 <= k < |width| ==> IsDigit(width[k])
    requires forall k :: 0 <= k < |prec| ==> IsDigit(prec[k])
    ensures var spec := (if aligned then ">" else "") + width + (if dotted then "." + prec else "");
            var a := if aligned then 1 else 0;
            var w := a + |width|;
            && ((spec != "" && spec[0] == '>') <==> aligned)
            && w <= |spec| && DigitsEnd(spec, a) == w && spec[a .. w] == width
            && ((w < |spec| && spec[w] == '.') <==> dotted)
            && (dotted ==> DigitsEnd(spec, w + 1) == |spec| && spec[w + 1 ..] == prec)
  {
    hide DigitsEnd;
    var align, tail := if aligned then ">" else "", if dotted then "." + prec else "";
    var spec := align + width + tail;
    assert spec[|align|..] == width + tail;
    StartsWithAlign(spec, align, width, tail);
    DigitsEndAt(spec, |align|, width, tail);
    if dotted { BehindDot(spec, |align| + |width|, prec); }
  }

  lemma {:induction false} SpecTextMeans(t: string, r: Spec)
    requires (r.width == -1 || 0 < r.width) && -1 <= r.prec
    ensures FormatString(t, SpecText(r)) == Padded(Truncated(t, r.prec), r.width, r.ljust)
  {
    hide Itoa, DigitsEnd, Numeral, Truncated, Padded, SpecText;
    var spec := SpecText(r);
    SpecTextShape(r);
    var a := if !r.ljust && r.width > 0 then 1 else 0;
    var w := DigitsEnd(spec, a);
    if r.prec >= 0 {
      ItoaBack(r.prec);
      assert spec[w + 1 .. |spec|] == spec[w + 1 ..];
    }
    if r.width >= 0 { ItoaBack(r.width); }
    PadNothing(Truncated(t, r.prec), r.width, r.ljust);
  }

  lemma StartsWithAlign(spec: string, align: string, width: string, tail: string)
    requires spec == align + width + tail && (align == ">" || align == "")
    requires forall k :: 0 <= k < |width| ==> IsDigit(width[k])
    requires tail == "" || tail[0] == '.'
    ensures (spec != "" && spec[0] == '>') <==> align == ">"
  {
    if align == "" { assert spec == width + tail; }
  }

  lemma {:induction false} BehindDot(spec: string, w: nat, prec: string)
    requires w <= |spec| && spec[w..] == "." + prec
    requires forall k :: 0 <= k < |prec| ==> IsDigit(prec[k])
    ensures w < |spec| && spec[w] == '.' && DigitsEnd(spec, w + 1) == |spec| && spec[w + 1 ..] == prec
  {
    assert spec[w] == spec[w..][0] == '.';
    assert spec[w + 1 ..] == spec[w..][1..] == prec + "";
    DigitsEndAt(spec, w + 1, prec, "");
  }

  lemma PadNothing(t: string, width: int, left: bool)
    ensures width <= 0 ==> Padded(t, width, true) == Padded(t, width, left)
  {
  }

  // ----- literals -----

  lemma {:induction false} LiteralPrints<A>(convert: Convert<A>, s: string, i: nat, args: seq<A>, k: nat)
    requires i <= |s| && k <= |args|
    ensures var j := LiteralEnd(s, i);
            Printf(convert, s, i, args, k) == After(Unescaped(s[i .. j]), Printf(convert, s, j, args, k))
    decreases |s| - i
  {
    hide RefSpec;
    var j := LiteralEnd(s, i);
    var rest := Printf(convert, s, j, args, k);
    if i < |s| && s[i] != '%' {
      LiteralPrints(convert, s, i + 1, args, k);
      assert s[i .. j][1..] == s[i + 1 .. j];
      AfterTwice([s[i]], Unescaped(s[i + 1 .. j]), rest);
    } else if i + 1 < |s| && s[i] == '%' && s[i + 1] == '%' {
      LiteralPrints(convert, s, i + 2, args, k);
      assert s[i .. j][2..] == s[i + 2 .. j];
      AfterTwice("%", Unescaped(s[i + 2 .. j]), rest);
    } else {
      assert s[i .. i] == "";
      AfterNothing(rest);
    }
  }

  lemma AfterTwice(x: string, y: string, r: Rendered)
    ensures After(x, After(y, r)) == After(x + y, r)
  {
    if r.Text? { assert x + (y + r.t) == (x + y) + r.t; }
  }

  lemma AfterNothing(r: Rendered)
    ensures After("", r) == r
  {
    if r.Text? { assert "" + r.t == r.t; }
  }

  // A literal stops at the end, or at a percent sign that starts a
  // specification.
  lemma {:induction false} LiteralStops(s: string, i: nat)
    requires i <= |s|
    ensures var j := LiteralEnd(s, i);
            j < |s| ==> s[j] == '%' && (j + 1 < |s| ==> s[j + 1] != '%')
    decreases |s| - i
  {
    if i < |s| && s[i] != '%' {
      LiteralStops(s, i + 1);
    } else if i + 1 < |s| && s[i] == '%' && s[i + 1] == '%' {
      LiteralStops(s, i + 2);
    }
  }

  // ----- the rewrite -----

  lemma FStringCons<A>(convert: Convert<A>, p: Piece<A>, ps: seq<Piece<A>>)
    ensures FString(convert, [p] + ps) ==
            (match p case Literal(t) => t case Formatted(arg, conv, spec) => FormatString(convert(conv, arg), spec)) + FString(convert, ps)
    ensures Arguments([p] + ps) == (if p.Formatted? then [p.arg] else []) + Arguments(ps)
  {
    assert ([p] + ps)[1..] == ps;
  }

  // Whenever there is a rewrite, it renders what printf-style formatting does,
  // whatever str, repr and ascii are.
  lemma {:induction false} RewritePreserves<A>(convert: Convert<A>, s: string, i: nat, args: seq<A>, k: nat)
    requires i <= |s| && k <= |args| && PiecesFrom(s, i, args, k).Some?
    ensures Printf(convert, s, i, args, k) == Text(FString(convert, PiecesFrom(s, i, args, k).value))
    ensures Arguments(PiecesFrom(s, i, args, k).value) == args[k..]
    decreases |s| - i, 1
  {
    hide AfterLiteral, Printf, FString, Arguments, FormatString, LiteralEnd, Unescaped;
    var j := LiteralEnd(s, i);
    var rest := AfterLiteral(s, j, args, k).value;
    LiteralPrints(convert, s, i, args, k);
    LiteralStops(s, i);
    AfterPreserves(convert, s, j, args, k);
    if j > i {
      var p: Piece<A> := Literal(Unescaped(s[i .. j]));
      FStringCons(convert, p, rest);
      assert [] + Arguments(rest) == Arguments(rest);
    } else {
      assert s[i .. i] == "" && Unescaped("") == "" by { EmptyUnescaped(); }
      AfterNothing(Printf(convert, s, j, args, k));
      assert [] + rest == rest;
    }
  }

  lemma EmptyUnescaped()
    ensures Unescaped("") == ""
  {
  }

  lemma {:induction false} AfterPreserves<A>(convert: Convert<A>, s: string, j: nat, args: seq<A>, k: nat)
    requires j <= |s| && k <= |args| && AfterLiteral(s, j, args, k).Some?
    requires j < |s| ==> s[j] == '%' && (j + 1 < |s| ==> s[j + 1] != '%')
    ensures Printf(convert, s, j, args, k) == Text(FString(convert, AfterLiteral(s, j, args, k).value))
    ensures Arguments(AfterLiteral(s, j, args, k).value) == args[k..]
    decreases |s| - j, 0
  {
    hide ParseSpec, RefSpec, PiecesFrom, FormatString, SpecText;
    if j < |s| {
      var Parsed(r, end) := ParseSpec(s, j + 1).value;
      SpecAgrees(s, j + 1);
      var rest := PiecesFrom(s, end, args, k + 1).value;
      RewritePreserves(convert, s, end, args, k + 1);
      SpecTextMeans(convert(r.conv, args[k]), r);
      FStringCons(convert, Formatted(args[k], r.conv, SpecText(r)), rest);
      assert args[k..] == [args[k]] + args[k + 1 ..];
    }
  }

  // ----- which formats are rewritten -----

  // Every conversion is one of s, r and a with numbers of at most two digits,
  // and there are as many as arguments.
  predicate Rewritable(s: string, i: nat, left: int)
    requires i <= |s|
    decreases |s| - i
  {
    if i == |s| then left == 0
    else if s[i] != '%' then Rewritable(s, i + 1, left)
    else if i + 1 < |s| && s[i + 1] == '%' then Rewritable(s, i + 2, left)
    else
      match RefSpec(s, i + 1)
      case None => false
      case Some(c) => left > 0 && Convertible(c.conv) && ShortNumbers(s, i + 1) && Rewritable(s, c.end, left - 1)
  }

  lemma {:induction false} LiteralRewritable(s: string, i: nat, left: int)
    requires i <= |s|
    ensures Rewritable(s, i, left) == Rewritable(s, LiteralEnd(s, i), left)
    decreases |s| - i
  {
    hide RefSpec, ShortNumbers;
    if i < |s| && s[i] != '%' {
      LiteralRewritable(s, i + 1, left);
    } else if i + 1 < |s| && s[i] == '%' && s[i + 1] == '%' {
      LiteralRewritable(s, i + 2, left);
    }
  }

  lemma {:induction false} RewritesExactly<A>(s: string, i: nat, args: seq<A>, k: nat)
    requires i <= |s| && k <= |args|
    ensures PiecesFrom(s, i, args, k).Some? <==> Rewritable(s, i, |args| - k)
    decreases |s| - i
  {
    hide ParseSpec, RefSpec, ShortNumbers, LiteralEnd;
    var j := LiteralEnd(s, i);
    LiteralRewritable(s, i, |args| - k);
    LiteralStops(s, i);
    if j < |s| {
      SpecAgrees(s, j + 1);
      var r := ParseSpec(s, j + 1);
      if r.Some? && k < |args| { RewritesExactly(s, r.value.end, args, k + 1); }
    }
  }

  // ----- the shape of the pieces -----

  // No literal is empty, and none stands beside another.
  ghost predicate Tidy<A>(ps: seq<Piece<A>>) {
    forall k :: 0 <= k < |ps| && ps[k].Literal? ==> ps[k].text != "" && (k + 1 < |ps| ==> ps[k + 1].Formatted?)
  }

  lemma {:induction false} TidyCons<A>(p: Piece<A>, rest: seq<Piece<A>>)
    requires Tidy(rest) && (p.Literal? ==> p.text != "" && (rest != [] ==> rest[0].Formatted?))
    ensures Tidy([p] + rest)
  {
    var ps := [p] + rest;
    forall k | 0 <= k < |ps| && ps[k].Literal? ensures ps[k].text != "" && (k + 1 < |ps| ==> ps[k + 1].Formatted?) {
      if k > 0 { assert ps[k] == rest[k - 1] && (k + 1 < |ps| ==> ps[k + 1] == rest[k]); }
    }
  }

  // The literals are whole: the text between two conversions is one piece.
  lemma {:induction false} PiecesTidy<A>(s: string, i: nat, args: seq<A>, k: nat)
    requires i <= |s| && k <= |args|
    ensures PiecesFrom(s, i, args, k).Some? ==> Tidy(PiecesFrom(s, i, args, k).value)
    decreases |s| - i, 1
  {
    hide ParseSpec, SpecText, Tidy;
    var j := LiteralEnd(s, i);
    AfterTidy(s, j, args, k);
    var rest := AfterLiteral(s, j, args, k);
    if rest.Some? && j > i {
      UnescapedNonempty(s[i .. j]);
      TidyCons(Literal(Unescaped(s[i .. j])), rest.value);
    } else if rest.Some? {
      assert [] + rest.value == rest.value;
    }
  }

  lemma UnescapedNonempty(t: string)
    requires t != ""
    ensures Unescaped(t) != ""
  {
  }

  lemma {:induction false} AfterTidy<A>(s: string, j: nat, args: seq<A>, k: nat)
    requires j <= |s| && k <= |args|
    ensures var r := AfterLiteral(s, j, args, k); r.Some? ==> Tidy(r.value) && (r.value != [] ==> r.value[0].Formatted?)
    decreases |s| - j, 0
  {
    hide SpecText, Tidy, PiecesFrom;
    if j >= |s| {
      NoPieces<A>();
    } else if k < |args| && s[j] == '%' {
      match ParseSpec(s, j + 1)
      case None =>
      case Some(Parsed(r, end)) =>
        PiecesTidy(s, end, args, k + 1);
        var rest := PiecesFrom(s, end, args, k + 1);
        if Convertible(r.conv) && rest.Some? { TidyCons(Formatted(args[k], r.conv, SpecText(r)), rest.value); }
    }
  }

  lemma NoPieces<A>()
    ensures Tidy<A>([])
  {
  }
}
