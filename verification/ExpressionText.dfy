/**
 Expression trees, their text, and the proof that `resolve` evaluates the text to the tree's value.
 Operands that are comparisons stand in brackets; other brackets, and white space inside brackets of
 either kind, around operators and after a negation, may be added anywhere.
 */
module ExpressionText {
  import opened Common
  import opened Numerals
  import opened Text
  import opened Expression

  datatype Tree =
    | Keyword(word: string)
    | Number(negative: bool, whole: nat, fraction: string)
    | Quote(quote: char, content: string)
    | Variable(path: Path)
    | Not(blank: string, arg: Tree)
    | Compare(op: string, left: Tree, before: string, after: string, right: Tree)
    | Group(before: string, inner: Tree, after: string)

  datatype Path =
    | Root(name: string)
    | Field(of: Path, name: string)
    | Item(of: Path, digits: string)
    | Computed(of: Path, before: string, key: Tree, after: string)

  // ---------------------------------------------------------------- meaning

  function KeywordValue(word: string): Value {
    if word == "true" then Bool(true) else if word == "false" then Bool(false) else if word == "null" then Null else Undefined
  }

  function NumberValue(negative: bool, whole: nat, fraction: string): real {
    var size := whole as real + FractionOf(fraction);
    if negative then -size else size
  }

  function Meaning(env: Env, t: Tree): Value {
    match t
    case Keyword(word) => KeywordValue(word)
    case Number(negative, whole, fraction) => Num(NumberValue(negative, whole, fraction))
    case Quote(_, content) => Str(content)
    case Variable(path) => PathMeaning(env, path)
    case Not(_, arg) => Bool(!Truthy(Meaning(env, arg)))
    case Compare(op, left, _, _, right) => Compared(env, op, Meaning(env, left), Meaning(env, right))
    case Group(_, inner, _) => Meaning(env, inner)
  }

  function PathMeaning(env: Env, p: Path): Value {
    match p
    case Root(name) => Property(env, env.vals, Str(name))
    case Field(of, name) => Property(env, PathMeaning(env, of), Str(name))
    case Item(of, digits) => Property(env, PathMeaning(env, of), Str(digits))
    case Computed(of, _, key, _) => Property(env, PathMeaning(env, of), Meaning(env, key))
  }

  // ---------------------------------------------------------------- text

  predicate IsKeyword(word: string) {
    word == "true" || word == "false" || word == "null" || word == "undefined"
  }

  predicate IsOperator(op: string) {
    op == "===" || op == "!==" || op == "==" || op == "!="
  }

  predicate IsName(s: string) {
    s != "" && IsIdentStart(s[0]) && forall i | 0 <= i < |s| :: IsIdentChar(s[i])
  }

  predicate IsBracket(c: char) {
    c == '(' || c == ')' || c == '[' || c == ']'
  }

  /** Brackets of each kind in pairs, and outside them no `=` or `!` directly followed by `=`.  Quotes are allowed. */
  predicate Quotable(content: string) {
    Balanced(content) && NoTopOp(content)
  }

  predicate WellFormed(t: Tree) {
    match t
    case Keyword(word) => IsKeyword(word)
    case Number(_, _, fraction) => AllDigits(fraction)
    case Quote(quote, content) => (quote == '"' || quote == '\'') && Quotable(content)
    case Variable(path) => PathWellFormed(path) && !(path.Root? && IsKeyword(path.name))
    case Not(blank, arg) => IsBlank(blank) && WellFormed(arg)
    case Compare(op, left, before, after, right) =>
      IsOperator(op) && IsBlank(before) && IsBlank(after) && WellFormed(left) && WellFormed(right)
    case Group(before, inner, after) => IsBlank(before) && IsBlank(after) && WellFormed(inner)
  }

  predicate PathWellFormed(p: Path) {
    match p
    case Root(name) => IsName(name)
    case Field(of, name) => PathWellFormed(of) && IsName(name)
    case Item(of, digits) => PathWellFormed(of) && digits != "" && AllDigits(digits)
    case Computed(of, before, key, after) => PathWellFormed(of) && IsBlank(before) && IsBlank(after) && WellFormed(key)
  }

  function Show(t: Tree): string
    decreases t, 0
  {
    match t
    case Keyword(word) => word
    case Number(negative, whole, fraction) =>
      (if negative then "-" else "") + (Dec(whole) + (if fraction == "" then "" else "." + fraction))
    case Quote(quote, content) => [quote] + content + [quote]
    case Variable(path) => ShowPath(path)
    case Not(blank, arg) => "!" + (blank + Operand(arg))
    case Compare(op, left, before, after, right) => Operand(left) + before + op + after + Operand(right)
    case Group(before, inner, after) => "(" + (before + Show(inner) + after) + ")"
  }

  function Operand(t: Tree): string
    decreases t, 1
  {
    if t.Compare? then "(" + Show(t) + ")" else Show(t)
  }

  function ShowPath(p: Path): string {
    match p
    case Root(name) => name
    case Field(of, name) => ShowPath(of) + ("." + name)
    case Item(of, digits) => ShowPath(of) + ("." + digits)
    case Computed(of, before, key, after) => ShowPath(of) + ("[" + (before + Show(key) + after) + "]")
  }

  // ---------------------------------------------------------------- bracket depth

  datatype Bracket = Round | Square

  function Delta(b: Bracket, c: char): int {
    match b
    case Round => if c == '(' then 1 else if c == ')' then -1 else 0
    case Square => if c == '[' then 1 else if c == ']' then -1 else 0
  }

  /** Brackets open after the first `k` characters. */
  function Depth(b: Bracket, s: string, k: nat): int
    requires k <= |s|
  {
    if k == 0 then 0 else Depth(b, s, k - 1) + Delta(b, s[k - 1])
  }

  function Both(s: string, k: nat): int
    requires k <= |s|
  {
    Depth(Round, s, k) + Depth(Square, s, k)
  }

  predicate Balanced(s: string) {
    && (forall k | 0 <= k <= |s| :: Depth(Round, s, k) >= 0 && Depth(Square, s, k) >= 0)
    && Depth(Round, s, |s|) == 0 && Depth(Square, s, |s|) == 0
  }

  lemma {:induction false} DepthOfSum(b: Bracket, x: string, y: string, k: nat)
    requires k <= |x| + |y|
    ensures Depth(b, x + y, k) == if k <= |x| then Depth(b, x, k) else Depth(b, x, |x|) + Depth(b, y, k - |x|)
  {
    if k > 0 { DepthOfSum(b, x, y, k - 1); }
  }

  lemma BothOfSum(x: string, y: string, k: nat)
    requires k <= |x| + |y|
    ensures Both(x + y, k) == if k <= |x| then Both(x, k) else Both(x, |x|) + Both(y, k - |x|)
  {
    DepthOfSum(Round, x, y, k);
    DepthOfSum(Square, x, y, k);
  }

  lemma BalancedSum(x: string, y: string)
    requires Balanced(x) && Balanced(y)
    ensures Balanced(x + y)
  {
    forall k | 0 <= k <= |x + y|
      ensures Depth(Round, x + y, k) >= 0 && Depth(Square, x + y, k) >= 0
    {
      DepthOfSum(Round, x, y, k);
      DepthOfSum(Square, x, y, k);
    }
    DepthOfSum(Round, x, y, |x| + |y|);
    DepthOfSum(Square, x, y, |x| + |y|);
  }

  lemma {:induction false} FlatDepth(s: string, k: nat)
    requires k <= |s|
    requires forall i | 0 <= i < |s| :: !IsBracket(s[i])
    ensures Depth(Round, s, k) == 0 && Depth(Square, s, k) == 0
  {
    if k > 0 { FlatDepth(s, k - 1); }
  }

  lemma FlatBalanced(s: string)
    requires forall i | 0 <= i < |s| :: !IsBracket(s[i])
    ensures Balanced(s)
  {
    forall k | 0 <= k <= |s|
      ensures Depth(Round, s, k) == 0 && Depth(Square, s, k) == 0
    {
      FlatDepth(s, k);
    }
  }

  predicate Matching(open: string, close: string) {
    (open == "(" && close == ")") || (open == "[" && close == "]")
  }

  /** The depth inside a pair of brackets is one more than without them. */
  lemma InsideBrackets(open: string, x: string, close: string, k: nat)
    requires Matching(open, close) && Balanced(x)
    requires 1 <= k <= |x| + 1
    ensures var s := open + x + close; var b := if open == "(" then Round else Square;
      && Depth(b, s, k) == 1 + Depth(b, x, k - 1) >= 1
      && Both(s, k) == 1 + Both(x, k - 1) >= 1
  {
    var s := open + x + close;
    assert s == open + (x + close);
    assert Depth(Round, open, 1) == Depth(Round, open, 0) + Delta(Round, open[0]);
    assert Depth(Square, open, 1) == Depth(Square, open, 0) + Delta(Square, open[0]);
    DepthOfSum(Round, open, x + close, k);
    DepthOfSum(Square, open, x + close, k);
    DepthOfSum(Round, x, close, k - 1);
    DepthOfSum(Square, x, close, k - 1);
  }

  lemma BalancedInBrackets(open: string, x: string, close: string)
    requires Matching(open, close) && Balanced(x)
    ensures Balanced(open + x + close)
  {
    var s := open + x + close;
    forall k | 0 <= k <= |s|
      ensures Depth(Round, s, k) >= 0 && Depth(Square, s, k) >= 0
      ensures k == |s| ==> Depth(Round, s, k) == 0 && Depth(Square, s, k) == 0
    {
      assert s == open + (x + close);
      assert Depth(Round, open, 1) == Depth(Round, open, 0) + Delta(Round, open[0]);
      assert Depth(Square, open, 1) == Depth(Square, open, 0) + Delta(Square, open[0]);
      assert Depth(Round, close, 1) == Depth(Round, close, 0) + Delta(Round, close[0]);
      assert Depth(Square, close, 1) == Depth(Square, close, 0) + Delta(Square, close[0]);
      DepthOfSum(Round, open, x + close, k);
      DepthOfSum(Square, open, x + close, k);
      if k > 0 {
        DepthOfSum(Round, x, close, k - 1);
        DepthOfSum(Square, x, close, k - 1);
      }
    }
  }

  // ---------------------------------------------------------------- what every text looks like

  /** An equality operator outside all brackets begins at `k`. */
  predicate OpAt(s: string, k: nat)
    requires k < |s|
  {
    k + 1 < |s| && IsOpStart(s[k]) && s[k + 1] == '=' && Both(s, k) == 0
  }

  predicate NoTopOp(s: string) {
    forall k | 0 <= k < |s| :: !OpAt(s, k)
  }

  /** Not even a lone `=` or `!` outside brackets. */
  predicate Clean(s: string) {
    forall k | 0 <= k < |s| :: Both(s, k) == 0 ==> !IsOpStart(s[k])
  }

  predicate TextOk(s: string) {
    && s != ""
    && !IsSpace(s[0]) && s[0] != '='
    && !IsSpace(s[|s| - 1]) && !IsOpStart(s[|s| - 1])
    && Balanced(s)
  }

  lemma CleanSum(x: string, y: string)
    requires Clean(x) && Clean(y) && Balanced(x)
    ensures Clean(x + y)
  {
    forall k | 0 <= k < |x + y|
      ensures Both(x + y, k) == 0 ==> !IsOpStart((x + y)[k])
    {
      BothOfSum(x, y, k);
    }
  }

  lemma FlatClean(s: string)
    requires forall i | 0 <= i < |s| :: !IsBracket(s[i]) && !IsOpStart(s[i])
    ensures Clean(s) && Balanced(s)
  {
    FlatBalanced(s);
  }

  lemma CleanInBrackets(open: string, x: string, close: string)
    requires Matching(open, close) && Balanced(x)
    ensures Clean(open + x + close) && Balanced(open + x + close)
  {
    BalancedInBrackets(open, x, close);
    var s := open + x + close;
    forall k | 0 <= k < |s|
      ensures Both(s, k) == 0 ==> !IsOpStart(s[k])
    {
      if 1 <= k <= |x| { InsideBrackets(open, x, close, k); }
    }
  }

  lemma NameIsFlat(s: string)
    requires forall i | 0 <= i < |s| :: IsIdentChar(s[i]) || s[i] == '.' || s[i] == '-'
    ensures Clean(s) && Balanced(s)
    ensures s != "" ==> !IsSpace(s[0]) && !IsSpace(s[|s| - 1])
  {
    FlatClean(s);
  }

  lemma QuoteOk(quote: char, content: string)
    requires (quote == '"' || quote == '\'') && Quotable(content)
    ensures TextOk([quote] + content + [quote]) && NoTopOp([quote] + content + [quote])
  {
    FlatBalanced([quote]);
    BalancedSum([quote], content);
    BalancedSum([quote] + content, [quote]);
    forall k | 0 <= k < |content| + 2
      ensures !OpAt([quote] + content + [quote], k)
    {
      QuotedNoOp(quote, content, k);
    }
  }

  lemma QuotedNoOp(quote: char, content: string, k: nat)
    requires (quote == '"' || quote == '\'') && Quotable(content) && k < |content| + 2
    ensures !OpAt([quote] + content + [quote], k)
  {
    var s := [quote] + content + [quote];
    if 1 <= k < |s| - 2 {
      FlatBalanced([quote]);
      BothOfSum([quote] + content, [quote], k);
      BothOfSum([quote], content, k);
      assert !OpAt(content, k - 1);
      assert s[k] == content[k - 1] && s[k + 1] == content[k];
    }
  }

  /** White space before a text brings no operator. */
  lemma BlankBefore(blank: string, x: string)
    requires IsBlank(blank) && TextOk(x) && NoTopOp(x)
    ensures var s := blank + x; s != "" && s[0] != '=' && s[|s| - 1] == x[|x| - 1] && Balanced(s) && NoTopOp(s)
  {
    FlatBalanced(blank);
    BalancedSum(blank, x);
    var s := blank + x;
    forall k | 0 <= k < |s|
      ensures !OpAt(s, k)
    {
      BothOfSum(blank, x, k);
      if k >= |blank| { assert !OpAt(x, k - |blank|); }
    }
  }

  lemma NotOk(x: string)
    requires x != "" && x[0] != '=' && !IsSpace(x[|x| - 1]) && !IsOpStart(x[|x| - 1]) && Balanced(x) && NoTopOp(x)
    ensures TextOk("!" + x) && NoTopOp("!" + x)
  {
    FlatBalanced("!");
    BalancedSum("!", x);
    var s := "!" + x;
    forall k | 0 <= k < |s|
      ensures !OpAt(s, k)
    {
      BothOfSum("!", x, k);
      if k > 0 { assert !OpAt(x, k - 1); }
    }
  }

  lemma GroupOk(x: string)
    requires Balanced(x)
    ensures TextOk("(" + x + ")") && NoTopOp("(" + x + ")")
  {
    CleanInBrackets("(", x, ")");
  }

  lemma CompareOk(x: string, before: string, op: string, after: string, y: string)
    requires TextOk(x) && TextOk(y) && IsBlank(before) && IsBlank(after) && IsOperator(op)
    ensures TextOk(x + before + op + after + y)
  {
    FlatBalanced(before);
    FlatBalanced(op);
    FlatBalanced(after);
    BalancedSum(x, before);
    BalancedSum(x + before, op);
    BalancedSum(x + before + op, after);
    BalancedSum(x + before + op + after, y);
  }

  lemma PaddedBalanced(before: string, x: string, after: string)
    requires IsBlank(before) && IsBlank(after) && Balanced(x)
    ensures Balanced(before + x + after)
  {
    FlatBalanced(before);
    FlatBalanced(after);
    BalancedSum(before, x);
    BalancedSum(before + x, after);
  }

  predicate StepText(step: string) {
    step != "" && Clean(step) && Balanced(step) && !IsSpace(step[|step| - 1]) && !IsOpStart(step[|step| - 1])
  }

  lemma StepOk(x: string, step: string)
    requires TextOk(x) && Clean(x) && StepText(step)
    ensures TextOk(x + step) && Clean(x + step)
  {
    BalancedSum(x, step);
    CleanSum(x, step);
    assert (x + step)[0] == x[0] && (x + step)[|x + step| - 1] == step[|step| - 1];
  }

  lemma NumberOk(negative: bool, whole: nat, fraction: string)
    requires AllDigits(fraction)
    ensures TextOk(Show(Number(negative, whole, fraction))) && NoTopOp(Show(Number(negative, whole, fraction)))
  {
    DecReads(whole);
    NameIsFlat(Show(Number(negative, whole, fraction)));
  }

  lemma {:induction false} ShowOk(t: Tree)
    requires WellFormed(t)
    ensures TextOk(Show(t))
    ensures !t.Compare? ==> NoTopOp(Show(t))
    decreases t, 0
  {
    match t
    case Keyword(word) => NameIsFlat(word);
    case Number(negative, whole, fraction) => NumberOk(negative, whole, fraction);
    case Quote(quote, content) => QuoteOk(quote, content);
    case Variable(path) => PathOk(path);
    case Not(blank, arg) =>
      OperandOk(arg);
      BlankBefore(blank, Operand(arg));
      NotOk(blank + Operand(arg));
    case Compare(op, left, before, after, right) =>
      OperandOk(left);
      OperandOk(right);
      CompareOk(Operand(left), before, op, after, Operand(right));
    case Group(before, inner, after) =>
      ShowOk(inner);
      PaddedBalanced(before, Show(inner), after);
      GroupOk(before + Show(inner) + after);
  }

  lemma {:induction false} OperandOk(t: Tree)
    requires WellFormed(t)
    ensures TextOk(Operand(t)) && NoTopOp(Operand(t))
    decreases t, 1
  {
    ShowOk(t);
    if t.Compare? { GroupOk(Show(t)); }
  }

  lemma KeyOk(x: string, before: string, key: string, after: string)
    requires TextOk(x) && Clean(x) && Balanced(key) && IsBlank(before) && IsBlank(after)
    ensures var s := x + ("[" + (before + key + after) + "]"); TextOk(s) && Clean(s) && s[0] == x[0]
  {
    PaddedBalanced(before, key, after);
    CleanInBrackets("[", before + key + after, "]");
    StepOk(x, "[" + (before + key + after) + "]");
  }

  lemma {:induction false} PathOk(p: Path)
    requires PathWellFormed(p)
    ensures TextOk(ShowPath(p)) && Clean(ShowPath(p)) && IsIdentStart(ShowPath(p)[0])
  {
    match p
    case Root(name) => NameIsFlat(name);
    case Field(of, name) =>
      PathOk(of);
      NameIsFlat("." + name);
      StepOk(ShowPath(of), "." + name);
    case Item(of, digits) =>
      PathOk(of);
      NameIsFlat("." + digits);
      StepOk(ShowPath(of), "." + digits);
    case Computed(of, before, key, after) =>
      PathOk(of);
      ShowOk(key);
      KeyOk(ShowPath(of), before, Show(key), after);
  }

  // ---------------------------------------------------------------- the scans on such texts

  /** The search passes over every place where no operator stands outside brackets. */
  lemma {:induction false} FindSkips(s: string, i: nat, j: nat)
    requires i <= j <= |s|
    requires forall k | i <= k < j :: !OpAt(s, k)
    ensures FindScan(s, i, Both(s, i)) == FindScan(s, j, Both(s, j))
    decreases j - i
  {
    if i < j {
      assert !OpAt(s, i);
      assert Both(s, i + 1) == Both(s, i) + Delta(Round, s[i]) + Delta(Square, s[i]);
      FindSkips(s, i + 1, j);
    }
  }

  lemma FindsNone(s: string)
    requires NoTopOp(s)
    ensures FindScan(s, 0, 0) == None
  {
    FindSkips(s, 0, |s|);
  }

  lemma NoOpBefore(x: string, before: string, back: string, k: nat)
    requires TextOk(x) && NoTopOp(x) && IsBlank(before) && back != ""
    requires k < |x| + |before|
    ensures !OpAt(x + before + back, k)
  {
    var s := x + before + back;
    if k < |x| - 1 {
      assert s == x + (before + back);
      BothOfSum(x, before + back, k);
      assert !OpAt(x, k);
      assert s[k] == x[k] && s[k + 1] == x[k + 1];
    } else if k == |x| - 1 {
      assert s[k] == x[k];
    } else {
      assert s[k] == before[k - |x|];
    }
  }

  lemma FindsHere(s: string, i: nat, op: string)
    requires 0 < i && i + |op| < |s| && IsOperator(op)
    requires s[i] == op[0] && s[i + 1] == '=' && (s[i + 2] == '=') == (|op| == 3)
    requires !IsOpStart(s[i - 1]) && Trim(s[..i]) != ""
    ensures FindScan(s, i, 0) == Some((i, op))
  {
    var c := s[i];
    assert op == if |op| == 3 then [c] + "==" else [c] + "=";
  }

  /** What follows the left operand: the operator and no second `=` beyond it. */
  predicate StartsWithOperator(back: string, op: string) {
    && IsOperator(op)
    && |op| < |back|
    && back[0] == op[0] && back[1] == '=' && (back[2] == '=') == (|op| == 3)
  }

  lemma FindsAfter(front: string, back: string, op: string)
    requires front != "" && Balanced(front) && !IsSpace(front[0]) && !IsOpStart(front[|front| - 1])
    requires StartsWithOperator(back, op)
    requires forall k | 0 <= k < |front| :: !OpAt(front + back, k)
    ensures FindScan(front + back, 0, 0) == Some((|front|, op))
  {
    var s, i := front + back, |front|;
    FindSkips(s, 0, i);
    BothOfSum(front, back, i);
    TrimNotBlank(front);
    assert s[..i] == front;
    assert s[i] == back[0] && s[i + 1] == back[1] && s[i + 2] == back[2];
    FindsHere(s, i, op);
  }

  /** The first operator outside brackets of a comparison's text is the comparison's own. */
  lemma FindsOperator(x: string, before: string, back: string, op: string)
    requires TextOk(x) && NoTopOp(x) && IsBlank(before) && StartsWithOperator(back, op)
    ensures FindScan(x + before + back, 0, 0) == Some((|x| + |before|, op))
  {
    forall k | 0 <= k < |x + before|
      ensures !OpAt(x + before + back, k)
    {
      NoOpBefore(x, before, back, k);
    }
    FlatBalanced(before);
    BalancedSum(x, before);
    FindsAfter(x + before, back, op);
  }

  lemma {:induction false} WrapSkips(s: string, i: nat, j: nat)
    requires i <= j < |s|
    requires forall k | i <= k < j :: s[k] == ')' ==> Depth(Round, s, k + 1) != 0
    ensures WrapScan(s, i, Depth(Round, s, i)) == WrapScan(s, j, Depth(Round, s, j))
    decreases j - i
  {
    if i < j { WrapSkips(s, i + 1, j); }
  }

  lemma WrapsWhole(x: string)
    requires Balanced(x)
    ensures WrapScan("(" + x + ")", 0, 0)
  {
    var s := "(" + x + ")";
    forall k | 0 <= k < |s| - 1
      ensures s[k] == ')' ==> Depth(Round, s, k + 1) != 0
    {
      InsideBrackets("(", x, ")", k + 1);
    }
    WrapSkips(s, 0, |s| - 1);
  }

  lemma WrapsOnlyStart(x: string, rest: string)
    requires Balanced(x) && rest != ""
    ensures !WrapScan("(" + x + ")" + rest, 0, 0)
  {
    var front := "(" + x + ")";
    var s := front + rest;
    var j := |x| + 1;
    forall k | 0 <= k < j
      ensures s[k] == ')' ==> Depth(Round, s, k + 1) != 0
    {
      DepthOfSum(Round, front, rest, k + 1);
      InsideBrackets("(", x, ")", k + 1);
    }
    WrapSkips(s, 0, j);
    DepthOfSum(Round, front, rest, j);
    InsideBrackets("(", x, ")", j);
    assert s[j] == ')';
  }

  predicate NeverBelow(b: Bracket, x: string) {
    forall k | 0 <= k <= |x| :: Depth(b, x, k) >= 0
  }

  lemma {:induction false} CloseSkips(s: string, x: string, tail: string, start: nat, j: nat)
    requires NeverBelow(Square, x) && Depth(Square, x, |x|) == 0 && j <= |x| && tail != "" && tail[0] == ']'
    requires start <= |s| && s[start..] == x + tail
    ensures CloseScan(s, start + j, (1 + Depth(Square, x, j)) as nat) == Some(start + |x|)
    decreases |x| - j
  {
    assert forall k | 0 <= k < |x + tail| :: s[start + k] == (x + tail)[k];
    if j < |x| {
      assert s[start + j] == x[j];
      assert Depth(Square, x, j + 1) == Depth(Square, x, j) + Delta(Square, x[j]);
      CloseSkips(s, x, tail, start, j + 1);
    } else {
      assert s[start + j] == ']';
    }
  }

  // ---------------------------------------------------------------- trimming

  lemma TrimKeeps(s: string)
    requires TextOk(s)
    ensures Trim(s) == s
  {
    TrimDropsBlanks("", s, "");
    assert "" + s + "" == s;
  }

  // ---------------------------------------------------------------- literals

  lemma DecimalReads(digits: string, fraction: string)
    requires digits != "" && AllDigits(digits) && AllDigits(fraction)
    ensures var u := digits + (if fraction == "" then "" else "." + fraction);
      IsDecimal(u) && DecimalValue(u) == ParseDec(digits) as real + FractionOf(fraction)
  {
    if fraction == "" {
      AllAreDigits(digits);
      assert digits + "" == digits && digits[..|digits|] == digits;
    } else {
      var tail := "." + fraction;
      var u := digits + tail;
      DigitsStop(digits, tail);
      AllAreDigits(fraction);
      assert u[..|digits|] == digits && u[|digits| + 1..] == fraction && u[|digits|] == '.';
    }
  }

  lemma SignReads(negative: bool, u: string)
    requires IsDecimal(u) && u[0] != '-'
    ensures var s := (if negative then "-" else "") + u;
      IsNumber(s) && NumberOf(s) == if negative then -DecimalValue(u) else DecimalValue(u)
  {
    var s := (if negative then "-" else "") + u;
    assert Unsigned(s) == u;
  }

  lemma NumberReads(negative: bool, whole: nat, fraction: string)
    requires AllDigits(fraction)
    ensures var s := Show(Number(negative, whole, fraction));
      IsNumber(s) && NumberOf(s) == NumberValue(negative, whole, fraction)
  {
    DecReads(whole);
    var u := Dec(whole) + (if fraction == "" then "" else "." + fraction);
    DecimalReads(Dec(whole), fraction);
    assert u[0] == Dec(whole)[0];
    SignReads(negative, u);
  }

  lemma {:induction false} AllAreDigits(s: string)
    requires AllDigits(s)
    ensures DigitsLength(s) == |s|
  {
    if s != "" { AllAreDigits(s[1..]); }
  }

  lemma QuoteReads(quote: char, content: string)
    requires quote == '"' || quote == '\''
    ensures Literal([quote] + content + [quote]) == Some(Str(content))
  {
    var s := [quote] + content + [quote];
    assert s[1..|s| - 1] == content;
    assert Unsigned(s) == s && DigitsLength(s) == 0;
  }

  lemma KeywordHasNoStep(s: string, k: nat)
    requires k < |s| && (s[k] == '.' || s[k] == '[')
    ensures !IsKeyword(s)
  {}

  lemma PathIsNoLiteral(p: Path)
    requires PathWellFormed(p) && !(p.Root? && IsKeyword(p.name))
    ensures Literal(ShowPath(p)) == None
  {
    PathOk(p);
    var s := ShowPath(p);
    if !p.Root? {
      KeywordHasNoStep(s, |ShowPath(p.of)|);
    }
  }

  // ---------------------------------------------------------------- paths

  /** Where a name ends: at the end of the text or before a character no name contains. */
  predicate EndsName(rest: string) {
    rest == "" || !IsIdentChar(rest[0])
  }

  lemma {:induction false} IdentCharsStop(name: string, rest: string)
    requires forall i | 0 <= i < |name| :: IsIdentChar(name[i])
    requires EndsName(rest)
    ensures IdentCharsLength(name + rest) == |name|
  {
    if name == "" {
      assert name + rest == rest;
    } else {
      assert (name + rest)[1..] == name[1..] + rest;
      IdentCharsStop(name[1..], rest);
    }
  }

  lemma IdentStops(name: string, rest: string)
    requires IsName(name) && EndsName(rest)
    ensures IdentLength(name + rest) == |name|
  {
    assert (name + rest)[1..] == name[1..] + rest;
    IdentCharsStop(name[1..], rest);
  }

  lemma ItemStops(digits: string, rest: string)
    requires digits != "" && AllDigits(digits) && EndsName(rest)
    ensures IdentLength(digits + rest) == 0 && DigitsLength(digits + rest) == |digits|
  {
    if rest == "" {
      assert digits + rest == digits;
      AllAreDigits(digits);
    } else {
      DigitsStop(digits, rest);
    }
  }

  lemma DottedStep(env: Env, s: string, i: nat, name: string, rest: string, cur: Value)
    requires IsName(name) || (name != "" && AllDigits(name))
    requires EndsName(rest)
    requires i < |s| && s[i] == '.' && s[i + 1..] == name + rest
    ensures PathStep(env, s, i, cur) == Some((i + 1 + |name|, Property(env, cur, Str(name))))
  {
    if IsName(name) { IdentStops(name, rest); } else { ItemStops(name, rest); }
    assert s[i + 1..][..|name|] == name;
  }

  lemma StepToClose(env: Env, s: string, i: nat, j: nat, key: string, cur: Value)
    requires i < |s| && s[i] == '[' && CloseScan(s, i + 1, 1) == Some(j)
    requires j < |s| && i < j && s[i + 1..j] == key
    ensures PathStep(env, s, i, cur) == Some((j + 1, Property(env, cur, Resolve(env, key))))
  {}

  lemma ClosesAfter(s: string, x: string, tail: string, start: nat)
    requires Balanced(x) && tail != "" && tail[0] == ']' && start <= |s| && s[start..] == x + tail
    ensures CloseScan(s, start, 1) == Some(start + |x|)
  {
    CloseSkips(s, x, tail, start, 0);
  }

  lemma ComputedStep(env: Env, s: string, i: nat, key: string, tail: string, cur: Value)
    requires Balanced(key) && tail != "" && tail[0] == ']'
    requires i < |s| && s[i] == '[' && s[i + 1..] == key + tail
    ensures PathStep(env, s, i, cur) == Some((i + |key| + 2, Property(env, cur, Resolve(env, key))))
  {
    ClosesAfter(s, key, tail, i + 1);
    StepToClose(env, s, i, i + 1 + |key|, key, cur);
  }

  /** What one more step does to a path read so far. */
  lemma ScanOneStep(env: Env, s: string, i: nat, cur: Value, next: nat, v: Value)
    requires i < |s| && PathStep(env, s, i, cur) == Some((next, v))
    ensures PathScan(env, s, i, cur) == PathScan(env, s, next, v)
  {}

  lemma StepSlices(front: string, c: char, inside: string, rest: string)
    ensures var s := front + ([c] + inside) + rest;
      && s == front + ([c] + inside + rest)
      && |front| < |s| && s[|front|] == c && s[|front| + 1..] == inside + rest
  {}

  /** Reading a path up to any point where a name may end gives the meaning of that part of it. */
  lemma {:induction false} PathReads(env: Env, p: Path, rest: string)
    requires PathWellFormed(p) && EndsName(rest)
    ensures ResolvePath(env, ShowPath(p) + rest) == PathScan(env, ShowPath(p) + rest, |ShowPath(p)|, PathMeaning(env, p))
    decreases p, 0
  {
    match p
    case Root(name) => RootReads(env, name, rest);
    case Field(of, name) =>
      PathReads(env, of, "." + name + rest);
      DottedReads(env, ShowPath(of), name, rest, PathMeaning(env, of));
    case Item(of, digits) =>
      PathReads(env, of, "." + digits + rest);
      DottedReads(env, ShowPath(of), digits, rest, PathMeaning(env, of));
    case Computed(of, before, key, after) =>
      var inside := before + Show(key) + after;
      PathReads(env, of, "[" + (inside + "]") + rest);
      KeyMeans(env, before, key, after);
      ComputedReads(env, ShowPath(of), inside, rest, PathMeaning(env, of), Meaning(env, key));
      assert "[" + (inside + "]") == "[" + inside + "]";
  }

  /** What stands between the brackets of a step, white space around it and all. */
  lemma {:induction false} KeyMeans(env: Env, before: string, key: Tree, after: string)
    requires WellFormed(key) && IsBlank(before) && IsBlank(after)
    ensures Balanced(before + Show(key) + after) && Resolve(env, before + Show(key) + after) == Meaning(env, key)
    decreases key, 3
  {
    ShowOk(key);
    PaddedBalanced(before, Show(key), after);
    TrimDropsBlanks(before, Show(key), after);
    TextMeansTree(env, key);
  }

  lemma RootReads(env: Env, name: string, rest: string)
    requires IsName(name) && EndsName(rest)
    ensures ResolvePath(env, name + rest) == PathScan(env, name + rest, |name|, Property(env, env.vals, Str(name)))
  {
    IdentStops(name, rest);
    assert (name + rest)[..|name|] == name;
  }

  lemma DottedReads(env: Env, front: string, name: string, rest: string, cur: Value)
    requires IsName(name) || (name != "" && AllDigits(name))
    requires EndsName(rest)
    ensures var s := front + ("." + name) + rest;
      && s == front + ("." + name + rest)
      && PathScan(env, s, |front|, cur) == PathScan(env, s, |front + ("." + name)|, Property(env, cur, Str(name)))
  {
    StepSlices(front, '.', name, rest);
    StepScan(env, front + ("." + name) + rest, |front|, name, rest, cur);
  }

  lemma StepScan(env: Env, s: string, i: nat, name: string, rest: string, cur: Value)
    requires IsName(name) || (name != "" && AllDigits(name))
    requires EndsName(rest)
    requires i < |s| && s[i] == '.' && s[i + 1..] == name + rest
    ensures i + 1 + |name| <= |s|
    ensures PathScan(env, s, i, cur) == PathScan(env, s, i + 1 + |name|, Property(env, cur, Str(name)))
  {
    DottedStep(env, s, i, name, rest, cur);
    ScanOneStep(env, s, i, cur, i + 1 + |name|, Property(env, cur, Str(name)));
  }

  lemma ComputedScan(env: Env, s: string, i: nat, key: string, tail: string, cur: Value, v: Value)
    requires Balanced(key) && Resolve(env, key) == v && tail != "" && tail[0] == ']'
    requires i < |s| && s[i] == '[' && s[i + 1..] == key + tail
    ensures i + |key| + 2 <= |s|
    ensures PathScan(env, s, i, cur) == PathScan(env, s, i + |key| + 2, Property(env, cur, v))
  {
    ComputedStep(env, s, i, key, tail, cur);
    ScanOneStep(env, s, i, cur, i + |key| + 2, Property(env, cur, v));
  }

  lemma ComputedReads(env: Env, front: string, key: string, rest: string, cur: Value, v: Value)
    requires Balanced(key) && Resolve(env, key) == v
    ensures var s := front + ("[" + (key + "]")) + rest;
      && s == front + ("[" + (key + "]") + rest)
      && PathScan(env, s, |front|, cur) == PathScan(env, s, |front + ("[" + (key + "]"))|, Property(env, cur, v))
  {
    StepSlices(front, '[', key + "]", rest);
    assert (key + "]") + rest == key + ("]" + rest);
    ComputedScan(env, front + ("[" + (key + "]")) + rest, |front|, key, "]" + rest, cur, v);
  }

  // ---------------------------------------------------------------- the theorem

  lemma ResolveInBrackets(env: Env, x: string)
    requires Balanced(x)
    ensures ResolveTrimmed(env, "(" + x + ")") == Resolve(env, x)
  {
    WrapsWhole(x);
    var s := "(" + x + ")";
    assert s[1..|s| - 1] == x;
  }

  lemma ResolveWithoutOperator(env: Env, s: string)
    requires s != "" && s[0] != '(' && NoTopOp(s)
    ensures ResolveTrimmed(env, s) == ResolveUnary(env, s)
  {
    FindsNone(s);
  }

  lemma ResolveAtOperator(env: Env, front: string, op: string, right: string)
    requires front + op + right != ""
    requires (front + op + right)[0] == '(' ==> !WrapScan(front + op + right, 0, 0)
    requires FindScan(front + op + right, 0, 0) == Some((|front|, op))
    ensures ResolveTrimmed(env, front + op + right) == Compared(env, op, Resolve(env, front), Resolve(env, right))
  {
    var s := front + op + right;
    assert s[..|front|] == front && s[|front| + |op|..] == right;
  }

  /** An operand that begins with a bracket is in brackets as a whole. */
  lemma OperandInBrackets(t: Tree) returns (inner: string)
    requires WellFormed(t) && Operand(t) != "" && Operand(t)[0] == '('
    ensures Operand(t) == "(" + inner + ")" && Balanced(inner)
  {
    if t.Compare? {
      inner := Show(t);
      ShowOk(t);
    } else if t.Group? {
      inner := t.before + Show(t.inner) + t.after;
      ShowOk(t.inner);
      PaddedBalanced(t.before, Show(t.inner), t.after);
    } else {
      LeafStart(t);
      assert false;
    }
  }

  /** Only brackets begin with a bracket. */
  lemma LeafStart(t: Tree)
    requires WellFormed(t) && !t.Compare? && !t.Group?
    ensures Show(t) != "" && Show(t)[0] != '('
  {
    match t
    case Variable(path) => PathOk(path);
    case Number(_, whole, _) => DecReads(whole);
    case _ =>
  }

  lemma NotWrapped(t: Tree, rest: string)
    requires WellFormed(t) && rest != ""
    requires Operand(t) != "" && Operand(t)[0] == '('
    ensures !WrapScan(Operand(t) + rest, 0, 0)
  {
    var inner := OperandInBrackets(t);
    WrapsOnlyStart(inner, rest);
  }

  lemma {:induction false} CompareMeans(env: Env, t: Tree)
    requires WellFormed(t) && t.Compare?
    ensures ResolveTrimmed(env, Show(t)) == Meaning(env, t)
    decreases t, 1
  {
    var Compare(op, left, before, after, right) := t;
    OperandOk(left);
    OperandOk(right);
    OperandMeansTree(env, left, "", before);
    OperandMeansTree(env, right, after, "");
    if Operand(left)[0] == '(' { NotWrapped(left, before + (op + after + Operand(right))); }
    FindsOperator(Operand(left), before, op + after + Operand(right), op);
    Regroup(Operand(left), before, op, after, Operand(right));
    ResolveAtOperator(env, Operand(left) + before, op, after + Operand(right));
  }

  lemma Regroup(x: string, before: string, op: string, after: string, y: string)
    ensures x + before + op + after + y == (x + before) + op + (after + y)
    ensures x + before + op + after + y == x + before + (op + after + y)
    ensures x + before + op + after + y == x + (before + (op + after + y))
    ensures "" + x + before == x + before && after + y + "" == after + y
  {}

  lemma {:induction false} OperandMeansTree(env: Env, t: Tree, before: string, after: string)
    requires WellFormed(t) && IsBlank(before) && IsBlank(after)
    ensures Resolve(env, before + Operand(t) + after) == Meaning(env, t)
    decreases t, 3
  {
    OperandOk(t);
    TrimDropsBlanks(before, Operand(t), after);
    TextMeansTree(env, t);
    if t.Compare? {
      ShowOk(t);
      ResolveInBrackets(env, Show(t));
    }
  }

  lemma NumberMeans(env: Env, t: Tree)
    requires WellFormed(t) && t.Number?
    ensures Show(t) != "" && ResolveUnary(env, Show(t)) == Meaning(env, t)
  {
    ShowOk(t);
    DecReads(t.whole);
    NumberReads(t.negative, t.whole, t.fraction);
    NumberIsLiteral(Show(t));
  }

  lemma NumberIsLiteral(s: string)
    requires IsNumber(s)
    ensures Literal(s) == Some(Num(NumberOf(s)))
    ensures s != "" && s[0] != '!'
  {}

  lemma LeafMeans(env: Env, t: Tree)
    requires WellFormed(t) && (t.Keyword? || t.Quote?)
    ensures Show(t) != "" && ResolveUnary(env, Show(t)) == Meaning(env, t)
  {
    if t.Quote? { QuoteReads(t.quote, t.content); }
  }

  lemma {:induction false} VariableMeans(env: Env, path: Path)
    requires PathWellFormed(path) && !(path.Root? && IsKeyword(path.name))
    ensures ShowPath(path) != "" && ResolveUnary(env, ShowPath(path)) == PathMeaning(env, path)
    decreases path, 1
  {
    PathOk(path);
    PathIsNoLiteral(path);
    PathReads(env, path, "");
    assert ShowPath(path) + "" == ShowPath(path);
  }

  lemma {:induction false} GroupMeans(env: Env, t: Tree)
    requires WellFormed(t) && t.Group?
    ensures ResolveTrimmed(env, Show(t)) == Meaning(env, t)
    decreases t, 1
  {
    var Group(before, inner, after) := t;
    ShowOk(inner);
    PaddedBalanced(before, Show(inner), after);
    ResolveInBrackets(env, before + Show(inner) + after);
    TrimDropsBlanks(before, Show(inner), after);
    TextMeansTree(env, inner);
  }

  /**
   For every expression tree and every environment, `resolve` on the tree's text computes the
   tree's own meaning.
   */
  lemma {:induction false} TextMeansTree(env: Env, t: Tree)
    requires WellFormed(t)
    ensures ResolveTrimmed(env, Show(t)) == Meaning(env, t)
    ensures Resolve(env, Show(t)) == Meaning(env, t)
    decreases t, 2
  {
    ShowOk(t);
    TrimKeeps(Show(t));
    match t
    case Compare(_, _, _, _, _) => CompareMeans(env, t);
    case Group(_, _, _) => GroupMeans(env, t);
    case _ =>
      LeafStart(t);
      ResolveWithoutOperator(env, Show(t));
      UnaryMeans(env, t);
  }

  lemma {:induction false} UnaryMeans(env: Env, t: Tree)
    requires WellFormed(t) && !t.Compare? && !t.Group?
    ensures Show(t) != "" && ResolveUnary(env, Show(t)) == Meaning(env, t)
    decreases t, 1
  {
    match t
    case Variable(path) => VariableMeans(env, path);
    case Not(blank, arg) =>
      OperandMeansTree(env, arg, blank, "");
      assert blank + Operand(arg) + "" == blank + Operand(arg);
    case Number(_, _, _) => NumberMeans(env, t);
    case _ => LeafMeans(env, t);
  }

  /**
   A string literal on its own, whatever its content, means that content exactly when `resolve`
   finds no equality outside brackets in its text; otherwise it is cut at that equality.
   */
  lemma QuoteMeansItselfIff(env: Env, quote: char, content: string)
    requires quote == '"' || quote == '\''
    ensures var s := [quote] + content + [quote];
      Resolve(env, s) == Str(content) <==> FindScan(s, 0, 0).None?
  {
    var s := [quote] + content + [quote];
    QuoteIsTrim(quote, content);
    QuoteReads(quote, content);
    if FindScan(s, 0, 0).None? {
      assert ResolveTrimmed(env, s) == ResolveUnary(env, s);
    } else {
      CutIsBool(env, s);
    }
  }

  lemma QuoteIsTrim(quote: char, content: string)
    requires quote == '"' || quote == '\''
    ensures var s := [quote] + content + [quote]; Trim(s) == s && s[0] == quote
  {
    var s := [quote] + content + [quote];
    TrimDropsBlanks("", s, "");
    assert "" + s + "" == s;
  }

  lemma CutIsBool(env: Env, s: string)
    requires s != "" && s[0] != '(' && FindScan(s, 0, 0).Some?
    ensures ResolveTrimmed(env, s).Bool?
  {}

  // ---------------------------------------------------------------- any text as an operand, a key or a group

  /** What the search finds in a text it finds first in any text that begins with it. */
  lemma {:induction false} ScanPrefix(x: string, tail: string, i: nat)
    requires x != "" && !IsOpStart(x[|x| - 1]) && i <= |x|
    ensures var inside, s := FindScan(x, i, Both(x, i)), x + tail;
      && (inside.None? ==> FindScan(s, i, Both(x, i)) == FindScan(s, |x|, Both(x, |x|)))
      && (inside.Some? ==> FindScan(s, i, Both(x, i)).Some? && FindScan(s, i, Both(x, i)).value.0 == inside.value.0)
    decreases |x| - i
  {
    if i < |x| {
      var s := x + tail;
      assert s[i] == x[i] && s[..i] == x[..i] && (i + 1 < |x| ==> s[i + 1] == x[i + 1]) && (i > 0 ==> s[i - 1] == x[i - 1]);
      assert Both(x, i + 1) == Both(x, i) + Delta(Round, x[i]) + Delta(Square, x[i]);
      ScanPrefix(x, tail, i + 1);
    }
  }

  /** Only what stands outside all brackets is found. */
  lemma {:induction false} FoundIsTop(s: string, i: nat)
    requires i <= |s| && FindScan(s, i, Both(s, i)).Some?
    ensures var at := FindScan(s, i, Both(s, i)).value.0; at < |s| && Both(s, at) == 0
    decreases |s| - i
  {
    if i < |s| {
      assert Both(s, i + 1) == Both(s, i) + Delta(Round, s[i]) + Delta(Square, s[i]);
      var found := FindScan(s, i, Both(s, i));
      if found.value.0 != i || Both(s, i) != 0 { FoundIsTop(s, i + 1); }
    }
  }

  lemma BlanksSkipped(x: string, before: string, back: string)
    requires IsBlank(before) && Both(x, |x|) == 0
    ensures Both(x + before + back, |x| + |before|) == 0
    ensures FindScan(x + before + back, |x|, 0) == FindScan(x + before + back, |x| + |before|, 0)
  {
    var s, i := x + before + back, |x| + |before|;
    FlatBalanced(before);
    BothOfSum(x + before, back, |x|);
    BothOfSum(x, before, |x|);
    BothOfSum(x + before, back, i);
    BothOfSum(x, before, i);
    forall k | |x| <= k < i
      ensures !OpAt(s, k)
    {
      assert s[k] == before[k - |x|];
    }
    FindSkips(s, |x|, i);
  }

  lemma FindsAfterBlanks(x: string, before: string, back: string, op: string)
    requires x != "" && !IsSpace(x[0]) && !IsOpStart(x[|x| - 1]) && Both(x, |x|) == 0
    requires IsBlank(before) && StartsWithOperator(back, op)
    ensures FindScan(x + before + back, |x|, 0) == Some((|x| + |before|, op))
  {
    var s, i := x + before + back, |x| + |before|;
    BlanksSkipped(x, before, back);
    assert s[..i] == x + before;
    TrimNotBlank(x + before);
    assert s[i] == back[0] && s[i + 1] == back[1] && s[i + 2] == back[2];
    assert s[i - 1] == if before == "" then x[|x| - 1] else before[|before| - 1];
    FindsHere(s, i, op);
  }

  /**
   Whatever text stands left of an operator, say a string literal of any content: the comparison is cut
   at that operator exactly when the search finds none in the text, and its brackets add up.
   */
  lemma CutAtOwnOperatorIff(x: string, before: string, back: string, op: string)
    requires x != "" && !IsSpace(x[0]) && !IsOpStart(x[|x| - 1])
    requires IsBlank(before) && StartsWithOperator(back, op)
    ensures FindScan(x + before + back, 0, 0) == Some((|x| + |before|, op))
       <==> FindScan(x, 0, 0).None? && Both(x, |x|) == 0
  {
    var s, tail := x + before + back, before + back;
    assert s == x + tail;
    ScanPrefix(x, tail, 0);
    if FindScan(x, 0, 0).None? {
      if Both(x, |x|) == 0 {
        FindsAfterBlanks(x, before, back, op);
      } else {
        NotFoundInside(x, before, back, op);
      }
    }
  }

  lemma NotFoundInside(x: string, before: string, back: string, op: string)
    requires IsBlank(before) && Both(x, |x|) != 0
    ensures FindScan(x + before + back, 0, 0) != Some((|x| + |before|, op))
  {
    var s, i := x + before + back, |x| + |before|;
    FlatBalanced(before);
    BothOfSum(x + before, back, i);
    BothOfSum(x, before, i);
    if FindScan(s, 0, 0).Some? { FoundIsTop(s, 0); }
  }

  /** Where brackets first close more than were opened. */
  lemma {:induction false} FirstBelow(b: Bracket, x: string, k: nat) returns (j: nat)
    requires k <= |x| && Depth(b, x, k) < 0
    ensures j < |x| && Depth(b, x, j) == 0 && Depth(b, x, j + 1) == -1
    ensures forall i | 0 <= i <= j :: Depth(b, x, i) >= 0
  {
    if i :| 0 <= i < k && Depth(b, x, i) < 0 { j := FirstBelow(b, x, i); } else { j := k - 1; }
  }

  lemma {:induction false} CloseReaches(s: string, x: string, tail: string, start: nat, j: nat)
    requires j <= |x| && start <= |s| && s[start..] == x + tail
    requires forall i | 0 <= i <= j :: Depth(Square, x, i) >= 0
    ensures CloseScan(s, start, 1) == CloseScan(s, start + j, (1 + Depth(Square, x, j)) as nat)
  {
    if j > 0 {
      CloseReaches(s, x, tail, start, j - 1);
      assert s[start..][j - 1] == x[j - 1] && s[start + j - 1] == x[j - 1];
      assert Depth(Square, x, j) == Depth(Square, x, j - 1) + Delta(Square, x[j - 1]);
    }
  }

  /**
   Whatever text stands in square brackets: they are closed where they should be exactly when its own square brackets
   pair up.
   */
  lemma KeyClosesIff(s: string, x: string, tail: string, start: nat)
    requires tail != "" && tail[0] == ']' && start <= |s| && s[start..] == x + tail
    ensures CloseScan(s, start, 1) == Some(start + |x|) <==> NeverBelow(Square, x) && Depth(Square, x, |x|) == 0
  {
    if k :| 0 <= k <= |x| && Depth(Square, x, k) < 0 {
      var j := FirstBelow(Square, x, k);
      CloseReaches(s, x, tail, start, j);
      assert s[start..][j] == x[j] && s[start + j] == x[j];
      assert Depth(Square, x, j + 1) == Depth(Square, x, j) + Delta(Square, x[j]);
    } else {
      CloseReaches(s, x, tail, start, |x|);
      assert s[start..][|x|] == tail[0] && s[start + |x|] == ']';
    }
  }

  lemma DepthInside(x: string, k: nat)
    requires k <= |x|
    ensures Depth(Round, "(" + x + ")", k + 1) == 1 + Depth(Round, x, k)
  {
    assert "(" + x + ")" == "(" + (x + ")");
    assert Depth(Round, "(", 1) == Depth(Round, "(", 0) + Delta(Round, "("[0]);
    DepthOfSum(Round, "(", x + ")", k + 1);
    DepthOfSum(Round, x, ")", k);
  }

  /**
   Whatever text stands in round brackets: they are seen to be around it as a whole exactly when it closes none that
   it did not open.
   */
  lemma GroupWrapsIff(x: string)
    ensures WrapScan("(" + x + ")", 0, 0) <==> NeverBelow(Round, x)
  {
    var s := "(" + x + ")";
    if k :| 0 <= k <= |x| && Depth(Round, x, k) < 0 {
      var j := FirstBelow(Round, x, k);
      forall k | 0 <= k < j + 1
        ensures s[k] == ')' ==> Depth(Round, s, k + 1) != 0
      {
        DepthInside(x, k);
      }
      DepthInside(x, j);
      WrapSkips(s, 0, j + 1);
      assert Depth(Round, x, j + 1) == Depth(Round, x, j) + Delta(Round, x[j]) && s[j + 1] == x[j];
    } else {
      forall k | 0 <= k < |x| + 1
        ensures s[k] == ')' ==> Depth(Round, s, k + 1) != 0
      {
        DepthInside(x, k);
      }
      WrapSkips(s, 0, |x| + 1);
    }
  }

  /** The literal `"("` left of an operator hides it: the text is not read as a comparison there. */
  lemma BracketInQuote()
    ensures FindScan("\"(\"" + "" + "==1", 0, 0) != Some((3, "=="))
  {
    var x := "\"(\"";
    assert Depth(Round, x, 3) == 1 && Depth(Square, x, 3) == 0 by {
      assert Depth(Round, x, 1) == Depth(Round, x, 0) && Depth(Round, x, 2) == Depth(Round, x, 1) + 1;
      assert Depth(Square, x, 1) == Depth(Square, x, 0) && Depth(Square, x, 2) == Depth(Square, x, 1);
    }
    CutAtOwnOperatorIff(x, "", "==1", "==");
  }

  /** Such a literal: the text `"a==b"` is read as a comparison of `"a` and `b"`. */
  lemma EqualityInQuote(env: Env)
    ensures Resolve(env, "\"a==b\"") != Str("a==b")
  {
    var s := "\"a==b\"";
    assert s == ['"'] + "a==b" + ['"'];
    TrimNotBlank(s[..2]);
    assert s[2] == '=' && s[3] == '=' && s[4] == 'b';
    assert FindScan(s, 2, 0).Some?;
    assert FindScan(s, 1, 0) == FindScan(s, 2, 0);
    QuoteMeansItselfIff(env, '"', "a==b");
  }
}
