/**
 What the evaluator does with any string at all, well formed or not: where each of its scans stops, which
 texts are literals, when a path is broken, and what the operators give.
 */
module ExpressionCases {
  import opened Common
  import opened Numerals
  import opened Text
  import opened Expression
  import opened ExpressionText

  // ---------------------------------------------------------------- operators

  /** Six values count as false, and all others as true. */
  lemma FalsyIff(v: Value)
    ensures !Truthy(v) <==> v in {Undefined, Null, Bool(false), Num(0.0), NaN, Str("")}
  {}

  /**
   Strict equality is that of values but for NaN, which is equal to nothing; loose equality is as given; each has its
   opposite.
   */
  lemma ComparisonTable(env: Env, a: Value, b: Value)
    ensures Compared(env, "===", a, b) == Bool(a == b && a != NaN)
    ensures Compared(env, "!==", a, b) == Bool(a != b || a == NaN)
    ensures Compared(env, "==", a, b) == Bool((a, b) in env.loose)
    ensures Compared(env, "!=", a, b) == Bool((a, b) !in env.loose)
  {
    assert "===" != "!==" && "===" != "==" && "===" != "!=" && "!==" != "==" && "!==" != "!=" by {
      assert "==="[0] != "!=="[0] && |"==="| != |"=="| && |"==="| != |"!="|;
    }
    assert "=="[0] != "!="[0];
  }

  /** Reading a property of nothing gives nothing, and of any other value what it has. */
  lemma PropertyTable(env: Env, of: Value, key: Value)
    ensures of == Undefined || of == Null || (of, key) !in env.properties ==> Property(env, of, key) == Undefined
    ensures of != Undefined && of != Null && (of, key) in env.properties ==>
        Property(env, of, key) == env.properties[(of, key)]
  {}

  // ---------------------------------------------------------------- the search for an equality

  /** An equality is cut at `k`: outside brackets, not right after `=` or `!`, and with something before it. */
  predicate CutsAt(s: string, k: nat)
    requires k < |s|
  {
    OpAt(s, k) && (k > 0 ==> s[k - 1] != '=' && s[k - 1] != '!') && !IsBlank(s[..k])
  }

  function OperatorAt(s: string, k: nat): string
    requires k + 1 < |s|
  {
    if k + 2 < |s| && s[k + 2] == '=' then s[k..k + 3] else s[k..k + 2]
  }

  predicate FirstCut(s: string, i: nat, k: nat) {
    i <= k < |s| && CutsAt(s, k) && forall j | i <= j < k :: !CutsAt(s, j)
  }

  predicate NeverCut(s: string, i: nat) {
    forall k | i <= k < |s| :: !CutsAt(s, k)
  }

  lemma TrimIsEmptyIff(s: string)
    ensures Trim(s) == "" <==> IsBlank(s)
  {
    if Trim(s) == "" { NormalizeIsCollapse(s); }
    if IsBlank(s) { TrimOfBlank(s); }
  }

  lemma FindCut(s: string, i: nat)
    requires i < |s| && CutsAt(s, i)
    ensures FindScan(s, i, 0) == Some((i, OperatorAt(s, i)))
  {
    TrimIsEmptyIff(s[..i]);
    if i + 2 < |s| && s[i + 2] == '=' { assert s[i..i + 3] == [s[i]] + "=="; } else { assert s[i..i + 2] == [s[i]] + "="; }
  }

  lemma FindPasses(s: string, i: nat)
    requires i < |s| && !CutsAt(s, i)
    ensures FindScan(s, i, Both(s, i)) == FindScan(s, i + 1, Both(s, i + 1))
  {
    if OpAt(s, i) {
      TrimIsEmptyIff(s[..i]);
      assert Both(s, i + 1) == Both(s, i) + Delta(Round, s[i]) + Delta(Square, s[i]);
    } else {
      FindSkips(s, i, i + 1);
    }
  }

  /** On every string the search finds the first place where an equality is cut, and the whole operator there. */
  lemma {:induction false} FindExactly(s: string, i: nat)
    requires i <= |s|
    ensures match FindScan(s, i, Both(s, i))
      case None => NeverCut(s, i)
      case Some((k, op)) => FirstCut(s, i, k) && k + 1 < |s| && op == OperatorAt(s, k)
    decreases |s| - i
  {
    if i < |s| {
      FindExactly(s, i + 1);
      if CutsAt(s, i) { FindCut(s, i); } else { FindPasses(s, i); }
    }
  }

  // ---------------------------------------------------------------- brackets

  /** The brackets at the ends of a text are around it as a whole: none before the last closes down to nothing. */
  predicate WrapsAll(s: string) {
    forall k | 0 <= k < |s| - 1 :: s[k] == ')' ==> Depth(Round, s, k + 1) != 0
  }

  lemma {:induction false} WrapExactly(s: string, i: nat)
    requires i <= |s|
    ensures WrapScan(s, i, Depth(Round, s, i)) <==> forall k | i <= k < |s| - 1 :: s[k] == ')' ==> Depth(Round, s, k + 1) != 0
    decreases |s| - i
  {
    if i < |s| - 1 { WrapExactly(s, i + 1); }
  }

  /** Square brackets between `start` and `j` opened less those closed. */
  function Open(s: string, start: nat, j: nat): int
    requires start <= j <= |s|
  {
    Depth(Square, s, j) - Depth(Square, s, start)
  }

  /** The bracket at `j` closes the one before `start`. */
  predicate Closes(s: string, start: nat, j: nat)
    requires start <= |s|
  {
    start <= j < |s| && s[j] == ']' && Open(s, start, j) == 0 && forall k | start <= k <= j :: Open(s, start, k) >= 0
  }

  /** On every string the inner scan finds the bracket that closes, and nothing when there is none. */
  lemma {:induction false} CloseExactly(s: string, start: nat, j: nat)
    requires start <= j <= |s| && forall k | start <= k <= j :: Open(s, start, k) >= 0
    ensures match CloseScan(s, j, (1 + Open(s, start, j)) as nat)
      case None => forall k | j <= k < |s| :: !Closes(s, start, k)
      case Some(k) => j <= k && Closes(s, start, k) && forall n | j <= n < k :: !Closes(s, start, n)
    decreases |s| - j
  {
    if j < |s| {
      assert Depth(Square, s, j + 1) == Depth(Square, s, j) + Delta(Square, s[j]);
      if s[j] == ']' && Open(s, start, j) == 0 {
        assert Closes(s, start, j);
      } else {
        CloseExactly(s, start, j + 1);
      }
    }
  }

  // ---------------------------------------------------------------- literals

  /** A numeral without its sign. */
  function SizeText(whole: string, fraction: string): string {
    whole + if fraction == "" then "" else "." + fraction
  }

  /** A number as it may be written: an optional sign, digits, and an optional point with digits after it. */
  predicate IsNumeral(s: string, sign: string, whole: string, fraction: string) {
    && (sign == "" || sign == "-") && whole != "" && AllDigits(whole) && AllDigits(fraction)
    && s == sign + SizeText(whole, fraction)
  }

  lemma {:induction false} DigitsAre(s: string)
    ensures AllDigits(s[..DigitsLength(s)])
    ensures DigitsLength(s) < |s| ==> !IsDigit(s[DigitsLength(s)])
  {
    if s != "" && IsDigit(s[0]) {
      DigitsAre(s[1..]);
      var n := DigitsLength(s);
      assert forall i | 0 < i < n :: s[..n][i] == s[1..][..n - 1][i - 1];
    }
  }

  lemma NumeralParts(s: string) returns (sign: string, whole: string, fraction: string)
    requires IsNumber(s)
    ensures IsNumeral(s, sign, whole, fraction)
  {
    var u := Unsigned(s);
    var n := DigitsLength(u);
    DigitsAre(u);
    sign, whole := if s[0] == '-' then "-" else "", u[..n];
    if n == |u| {
      fraction := "";
      assert u[..n] == u;
    } else {
      fraction := u[n + 1..];
      DigitsAre(fraction);
      assert fraction[..DigitsLength(fraction)] == fraction;
      assert u == whole + ("." + fraction);
    }
    assert s == sign + u;
  }

  lemma {:induction false} ManyDigits(s: string)
    requires AllDigits(s)
    ensures DigitsLength(s) == |s|
  {
    if s != "" { ManyDigits(s[1..]); }
  }

  lemma SignIsCut(s: string, sign: string, u: string)
    requires (sign == "" || sign == "-") && u != "" && IsDigit(u[0]) && s == sign + u
    ensures Unsigned(s) == u && (s[0] == '-' <==> sign == "-")
  {
    if sign == "-" { assert s[1..] == u; } else { assert s == u; }
  }

  lemma PointIsCut(u: string, whole: string, fraction: string)
    requires whole != "" && AllDigits(whole) && AllDigits(fraction) && u == SizeText(whole, fraction)
    ensures var n := DigitsLength(u);
      n == |whole| && u[..n] == whole && (n == |u| <==> fraction == "") && (n < |u| ==> u[n] == '.' && u[n + 1..] == fraction)
  {
    if fraction == "" {
      assert u == whole;
      ManyDigits(u);
    } else {
      DigitsStop(whole, "." + fraction);
    }
  }

  lemma SizeIsDecimal(u: string, whole: string, fraction: string)
    requires whole != "" && AllDigits(whole) && AllDigits(fraction) && u == SizeText(whole, fraction)
    ensures IsDecimal(u) && u[0] == whole[0]
  {
    PointIsCut(u, whole, fraction);
    ManyDigits(fraction);
  }

  lemma NumeralIsNumber(s: string, sign: string, whole: string, fraction: string)
    requires IsNumeral(s, sign, whole, fraction)
    ensures IsNumber(s) && Unsigned(s) == SizeText(whole, fraction) && (s[0] == '-' <==> sign == "-")
  {
    var u := SizeText(whole, fraction);
    SizeIsDecimal(u, whole, fraction);
    SignIsCut(s, sign, u);
  }

  /** A text is read as a number exactly when it is written as one. */
  lemma NumberIff(s: string)
    ensures IsNumber(s) <==> exists sign, whole, fraction :: IsNumeral(s, sign, whole, fraction)
  {
    if IsNumber(s) {
      var sign, whole, fraction := NumeralParts(s);
      assert IsNumeral(s, sign, whole, fraction);
    }
    if sign, whole, fraction :| IsNumeral(s, sign, whole, fraction) { NumeralIsNumber(s, sign, whole, fraction); }
  }

  lemma {:induction false} ParseFromFirst(d: char, rest: string)
    ensures ParseDec([d] + rest) == DigitValue(d) * Pow10(|rest|) + ParseDec(rest)
  {
    var s := [d] + rest;
    if rest == "" {
      assert s[..0] == "";
    } else {
      var front := rest[..|rest| - 1];
      ParseFromFirst(d, front);
      assert s[..|s| - 1] == [d] + front && s[|s| - 1] == rest[|rest| - 1];
      Shifted(DigitValue(d), Pow10(|front|));
    }
  }

  lemma Shifted(d: nat, p: nat)
    ensures 10 * (d * p) == d * (10 * p)
  {}

  predicate Scales(fraction: real, p: nat, n: nat) {
    fraction * p as real == n as real
  }

  /** The digits after the point are those of a decimal fraction: as many places down as there are digits. */
  lemma {:induction false} FractionIsDecimal(digits: string)
    ensures Scales(FractionOf(digits), Pow10(|digits|), ParseDec(digits))
  {
    if digits == "" {
      assert FractionOf(digits) == 0.0 && ParseDec(digits) == 0;
    } else {
      FractionIsDecimal(digits[1..]);
      OneMoreDigit(digits);
    }
  }

  lemma OneMoreDigit(digits: string)
    requires digits != "" && Scales(FractionOf(digits[1..]), Pow10(|digits| - 1), ParseDec(digits[1..]))
    ensures Scales(FractionOf(digits), Pow10(|digits|), ParseDec(digits))
  {
    var d, rest := digits[0], digits[1..];
    ParseFromFirst(d, rest);
    assert digits == [d] + rest;
    assert FractionOf(digits) == (DigitValue(d) as real + FractionOf(rest)) / 10.0;
    assert Pow10(|digits|) == 10 * Pow10(|rest|);
    MoreDigits(DigitValue(d), FractionOf(rest), Pow10(|rest|), ParseDec(rest),
               FractionOf(digits), Pow10(|digits|), ParseDec(digits));
  }

  lemma MoreDigits(d: nat, fraction: real, p: nat, n: nat, longer: real, tenfold: nat, more: nat)
    requires Scales(fraction, p, n)
    requires longer == (d as real + fraction) / 10.0 && tenfold == 10 * p && more == d * p + n
    ensures Scales(longer, tenfold, more)
  {
    FractionStep(d, fraction, p);
  }

  lemma FractionStep(d: nat, rest: real, p: nat)
    ensures (d as real + rest) / 10.0 * (10 * p) as real == (d * p) as real + rest * p as real
  {
    var sum, q := d as real + rest, p as real;
    assert (10 * p) as real == 10.0 * q;
    TenTimes(sum, q);
    Spread(d, rest, p);
  }

  lemma TenTimes(sum: real, q: real)
    ensures sum / 10.0 * (10.0 * q) == sum * q
  {}

  lemma Spread(d: nat, rest: real, p: nat)
    ensures (d as real + rest) * p as real == (d * p) as real + rest * p as real
  {
    assert (d * p) as real == d as real * p as real;
  }

  /** The value of a numeral: its whole digits and, as many places down as there are, the digits after its point. */
  lemma NumeralMeans(s: string, sign: string, whole: string, fraction: string) returns (f: real)
    requires IsNumeral(s, sign, whole, fraction)
    ensures IsNumber(s) && Scales(f, Pow10(|fraction|), ParseDec(fraction))
    ensures NumberOf(s) == if sign == "-" then -(ParseDec(whole) as real + f) else ParseDec(whole) as real + f
  {
    NumeralIsNumber(s, sign, whole, fraction);
    PointIsCut(Unsigned(s), whole, fraction);
    f := FractionOf(fraction);
    FractionIsDecimal(fraction);
  }

  /** A text is a literal exactly when it is one of the four words, a number, or stands in quotes of one kind. */
  lemma LiteralIff(s: string)
    ensures var quoted := |s| >= 2 && s[0] == s[|s| - 1] && (s[0] == '"' || s[0] == '\'');
      Literal(s).Some? <==> s in {"true", "false", "null", "undefined"} || IsNumber(s) || quoted
  {}

  // ---------------------------------------------------------------- paths

  /** The characters that a name may begin with, and those that it may go on with. */
  lemma NameCharsAre(c: char)
    ensures IsIdentStart(c) <==> c in {
      'A', 'B', 'C', 'D', 'E', 'F', 'G', 'H', 'I', 'J', 'K', 'L', 'M',
      'N', 'O', 'P', 'Q', 'R', 'S', 'T', 'U', 'V', 'W', 'X', 'Y', 'Z',
      'a', 'b', 'c', 'd', 'e', 'f', 'g', 'h', 'i', 'j', 'k', 'l', 'm',
      'n', 'o', 'p', 'q', 'r', 's', 't', 'u', 'v', 'w', 'x', 'y', 'z', '_', '$'}
    ensures IsIdentChar(c) <==> IsIdentStart(c) || c in {'0', '1', '2', '3', '4', '5', '6', '7', '8', '9'}
  {}

  /** A dotted step, which needs a name or digits, or a step in square brackets that are closed. */
  predicate CanStep(s: string, i: nat)
    requires i < |s|
  {
    || (s[i] == '.' && i + 1 < |s| && (IsIdentStart(s[i + 1]) || IsDigit(s[i + 1])))
    || (s[i] == '[' && IsClosed(s, i + 1))
  }

  predicate IsClosed(s: string, start: nat)
    requires start <= |s|
  {
    exists j | start <= j < |s| :: Closes(s, start, j)
  }

  lemma StepIff(env: Env, s: string, i: nat, cur: Value)
    requires i < |s|
    ensures PathStep(env, s, i, cur).Some? <==> CanStep(s, i)
  {
    if s[i] == '[' { CloseExactly(s, i + 1, i + 1); }
  }

  /**
   A path that breaks off anywhere, in its first name or at a step reached, is undefined, whatever was read before.
   */
  lemma BrokenPath(env: Env, s: string, i: nat, cur: Value)
    requires i < |s| && !CanStep(s, i)
    ensures PathScan(env, s, i, cur) == Undefined
  {
    StepIff(env, s, i, cur);
  }

  lemma NamelessPath(env: Env, s: string)
    requires s == "" || !IsIdentStart(s[0])
    ensures ResolvePath(env, s) == Undefined
  {}

  /** The name or number that a dotted step takes is as long as it can be. */
  lemma {:induction false} NameIsLongest(s: string)
    ensures var n := IdentCharsLength(s);
      (forall k | 0 <= k < n :: IsIdentChar(s[k])) && (n < |s| ==> !IsIdentChar(s[n]))
  {
    if s != "" && IsIdentChar(s[0]) {
      NameIsLongest(s[1..]);
      var n := IdentCharsLength(s);
      assert forall k | 0 < k < n :: s[k] == s[1..][k - 1];
    }
  }

  /**
   Each step that a path can make reads a property of the value so far: of the longest name or number after a point,
   or of what the brackets hold.
   */
  lemma StepReads(env: Env, s: string, i: nat, cur: Value)
    requires i < |s| && CanStep(s, i)
    ensures PathStep(env, s, i, cur).Some?
    ensures var (next, v) := PathStep(env, s, i, cur).value;
      if s[i] == '.' then
        && i + 2 <= next <= |s| && v == Property(env, cur, Str(s[i + 1..next]))
        && (if IsIdentStart(s[i + 1]) then (forall k | i < k < next :: IsIdentChar(s[k]))
            && (next < |s| ==> !IsIdentChar(s[next]))
            else (forall k | i < k < next :: IsDigit(s[k])) && (next < |s| ==> !IsDigit(s[next])))
      else Closes(s, i + 1, next - 1) && v == Property(env, cur, Resolve(env, s[i + 1..next - 1]))
  {
    StepIff(env, s, i, cur);
    if s[i] == '.' {
      DottedIs(env, s, i, cur);
    } else {
      CloseExactly(s, i + 1, i + 1);
    }
  }

  lemma DottedIs(env: Env, s: string, i: nat, cur: Value)
    requires i + 1 < |s| && s[i] == '.' && (IsIdentStart(s[i + 1]) || IsDigit(s[i + 1]))
    ensures PathStep(env, s, i, cur).Some?
    ensures var (next, v) := PathStep(env, s, i, cur).value;
      && i + 2 <= next <= |s| && v == Property(env, cur, Str(s[i + 1..next]))
      && (if IsIdentStart(s[i + 1]) then (forall k | i < k < next :: IsIdentChar(s[k]))
          && (next < |s| ==> !IsIdentChar(s[next]))
          else (forall k | i < k < next :: IsDigit(s[k])) && (next < |s| ==> !IsDigit(s[next])))
  {
    var rest := s[i + 1..];
    if IsIdentStart(s[i + 1]) {
      NameIsLongest(rest[1..]);
      assert forall k | i + 1 < k < |s| :: s[k] == rest[1..][k - i - 2];
      assert rest[..IdentLength(rest)] == s[i + 1..i + 1 + IdentLength(rest)];
    } else {
      DigitsAre(rest);
      var n := DigitsLength(rest);
      assert forall k | i < k < i + 1 + n :: s[k] == rest[..n][k - i - 1];
      assert rest[..n] == s[i + 1..i + 1 + n];
    }
  }

  // ---------------------------------------------------------------- the cases

  /** A blank text is undefined. */
  lemma BlankIsUndefined(env: Env, src: string)
    requires IsBlank(src)
    ensures Resolve(env, src) == Undefined
  {
    TrimIsEmptyIff(src);
  }

  /** The brackets around the whole of a text, if there are any, come first ... */
  predicate IsWrapped(s: string) {
    s != "" && s[0] == '(' && s[|s| - 1] == ')' && WrapsAll(s)
  }

  lemma WrappedIsInner(env: Env, src: string)
    requires IsWrapped(Trim(src))
    ensures var s := Trim(src); |s| >= 2 && Resolve(env, src) == Resolve(env, s[1..|s| - 1])
  {
    WrapExactly(Trim(src), 0);
  }

  lemma NotWrappedCases(env: Env, s: string)
    requires s != "" && !IsWrapped(s)
    ensures var found := FindScan(s, 0, 0);
      && (found.Some? ==> var k, op := found.value.0, found.value.1;
            ResolveTrimmed(env, s) == Compared(env, op, Resolve(env, s[..k]), Resolve(env, s[k + |op|..])))
      && (found.None? ==> ResolveTrimmed(env, s) == ResolveUnary(env, s))
  {
    WrapExactly(s, 0);
  }

  lemma FirstIsOnly(s: string, k: nat, other: nat)
    requires FirstCut(s, 0, k) && FirstCut(s, 0, other)
    ensures k == other
  {}

  lemma FoundFirst(s: string, k: nat)
    requires FirstCut(s, 0, k)
    ensures k + 1 < |s| && FindScan(s, 0, 0) == Some((k, OperatorAt(s, k)))
  {
    FindExactly(s, 0);
    assert CutsAt(s, k);
    FirstIsOnly(s, k, FindScan(s, 0, 0).value.0);
  }

  lemma TrimmedIsCut(env: Env, s: string, k: nat)
    requires !IsWrapped(s) && FirstCut(s, 0, k)
    ensures k + 1 < |s| && var op := OperatorAt(s, k);
      ResolveTrimmed(env, s) == Compared(env, op, Resolve(env, s[..k]), Resolve(env, s[k + |op|..]))
  {
    NotWrappedCases(env, s);
    FoundFirst(s, k);
  }

  /** ... then the first equality in it, with all that stands on its left and on its right ... */
  lemma FirstEqualityCuts(env: Env, src: string, k: nat)
    requires !IsWrapped(Trim(src)) && FirstCut(Trim(src), 0, k)
    ensures var s := Trim(src); var op := OperatorAt(s, k);
      Resolve(env, src) == Compared(env, op, Resolve(env, s[..k]), Resolve(env, s[k + |op|..]))
  {
    TrimmedIsCut(env, Trim(src), k);
  }

  /** ... then a leading `!`, then literals, and a path last: on every string. */
  lemma OtherwiseUnary(env: Env, src: string)
    requires !IsBlank(src) && !IsWrapped(Trim(src)) && NeverCut(Trim(src), 0)
    ensures Trim(src) != ""
    ensures var s := Trim(src);
      Resolve(env, src) == if s[0] == '!' then Bool(!Truthy(Resolve(env, s[1..])))
                           else if Literal(s).Some? then Literal(s).value else ResolvePath(env, s)
  {
    var s := Trim(src);
    TrimIsEmptyIff(src);
    NotWrappedCases(env, s);
    FindExactly(s, 0);
  }
}
