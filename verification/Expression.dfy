/**
 The template expression evaluator.  `resolve` takes an expression apart by looking for brackets
 that wrap the whole of it, for the first equality operator outside all brackets, for a leading
 `!`, and otherwise reads a literal or a path.  Functions follow the code; methods carry out its
 loops; the theorem at the end says that on the text of an expression tree it computes the tree.
 */
module Expression {
  import opened Common
  import opened Numerals
  import opened Text

  /** What an expression can evaluate to; objects, arrays and functions are references. */
  datatype Value =
    | Undefined
    | Null
    | Bool(b: bool)
    | Num(n: real)
    | NaN
    | Str(s: string)
    | Ref(id: nat)

  /**
   The variables, and the two parts of the language left open: what reading a property of a value
   gives, where that is not undefined, and which values are loosely equal.
   */
  datatype Env = Env(vals: Value, properties: map<(Value, Value), Value>, loose: set<(Value, Value)>)

  predicate Nullish(v: Value) {
    v == Undefined || v == Null
  }

  predicate Truthy(v: Value) {
    match v
    case Undefined => false
    case Null => false
    case Bool(b) => b
    case Num(n) => n != 0.0
    case NaN => false
    case Str(s) => s != ""
    case Ref(_) => true
  }

  predicate StrictlyEqual(a: Value, b: Value) {
    a != NaN && a == b
  }

  function Property(env: Env, of: Value, key: Value): Value {
    if !Nullish(of) && (of, key) in env.properties then env.properties[(of, key)] else Undefined
  }

  function Compared(env: Env, op: string, left: Value, right: Value): Value {
    Bool(if op == "===" then StrictlyEqual(left, right)
         else if op == "!==" then !StrictlyEqual(left, right)
         else if op == "==" then (left, right) in env.loose
         else (left, right) !in env.loose)
  }

  // ---------------------------------------------------------------- lexical pieces

  predicate IsIdentStart(c: char) {
    'a' <= c <= 'z' || 'A' <= c <= 'Z' || c == '_' || c == '$'
  }

  predicate IsIdentChar(c: char) {
    IsIdentStart(c) || IsDigit(c)
  }

  function IdentCharsLength(s: string): (n: nat)
    ensures n <= |s|
  {
    if s == "" || !IsIdentChar(s[0]) then 0 else 1 + IdentCharsLength(s[1..])
  }

  /** The length of the identifier at the front, 0 if there is none. */
  function IdentLength(s: string): (n: nat)
    ensures n <= |s|
  {
    if s == "" || !IsIdentStart(s[0]) then 0 else 1 + IdentCharsLength(s[1..])
  }

  function Unsigned(s: string): string {
    if s != "" && s[0] == '-' then s[1..] else s
  }

  /** `\d+(\.\d+)?` as a whole. */
  predicate IsDecimal(u: string) {
    var n := DigitsLength(u);
    && n > 0
    && (n == |u| || (u[n] == '.' && |u| > n + 1 && DigitsLength(u[n + 1..]) == |u| - n - 1))
  }

  /** `/^-?\d+(\.\d+)?$/` */
  predicate IsNumber(s: string) {
    IsDecimal(Unsigned(s))
  }

  /** The digits after a decimal point. */
  function FractionOf(digits: string): real {
    if digits == "" then 0.0 else (DigitValue(digits[0]) as real + FractionOf(digits[1..])) / 10.0
  }

  function DecimalValue(u: string): real
    requires IsDecimal(u)
  {
    var n := DigitsLength(u);
    ParseDec(u[..n]) as real + if n == |u| then 0.0 else FractionOf(u[n + 1..])
  }

  /** `Number(s)`, as the exact number written. */
  function NumberOf(s: string): real
    requires IsNumber(s)
  {
    var size := DecimalValue(Unsigned(s));
    if s[0] == '-' then -size else size
  }

  predicate IsQuoted(s: string) {
    |s| >= 2 && (s[0] == '"' || s[0] == '\'') && s[|s| - 1] == s[0]
  }

  function Literal(expr: string): Option<Value> {
    if expr == "true" then Some(Bool(true))
    else if expr == "false" then Some(Bool(false))
    else if expr == "null" then Some(Null)
    else if expr == "undefined" then Some(Undefined)
    else if IsNumber(expr) then Some(Num(NumberOf(expr)))
    else if IsQuoted(expr) then Some(Str(expr[1..|expr| - 1]))
    else None
  }

  predicate IsOpStart(c: char) {
    c == '=' || c == '!'
  }

  // ---------------------------------------------------------------- the three scans

  /** `parensWrapWhole`, from position `i` at bracket depth `depth`. */
  function WrapScan(expr: string, i: nat, depth: int): bool
    decreases |expr| - i
  {
    if i + 1 >= |expr| then true
    else if expr[i] == '(' then WrapScan(expr, i + 1, depth + 1)
    else if expr[i] == ')' then depth != 1 && WrapScan(expr, i + 1, depth - 1)
    else WrapScan(expr, i + 1, depth)
  }

  /** `findTopLevelEquality`, from position `i` at bracket depth `depth`. */
  function FindScan(expr: string, i: nat, depth: int): (found: Option<(nat, string)>)
    ensures found.Some? ==> i <= found.value.0 && 0 < found.value.0 && |found.value.1| >= 2
    ensures found.Some? ==> found.value.0 + |found.value.1| <= |expr|
    decreases |expr| - i
  {
    if i >= |expr| then None
    else
      var c := expr[i];
      if c == '[' || c == '(' then FindScan(expr, i + 1, depth + 1)
      else if c == ']' || c == ')' then FindScan(expr, i + 1, depth - 1)
      else if depth == 0 && IsOpStart(c) && i + 1 < |expr| && expr[i + 1] == '=' then
        if i > 0 && IsOpStart(expr[i - 1]) then FindScan(expr, i + 1, depth)
        else if Trim(expr[..i]) == "" then FindScan(expr, i + 1, depth)
        else Some((i, if i + 2 < |expr| && expr[i + 2] == '=' then [c] + "==" else [c] + "="))
      else FindScan(expr, i + 1, depth)
  }

  /** The position of the bracket that closes, from position `j` inside `depth` square brackets. */
  function CloseScan(expr: string, j: nat, depth: nat): (found: Option<nat>)
    requires depth > 0
    ensures found.Some? ==> j <= found.value < |expr|
    decreases |expr| - j
  {
    if j >= |expr| then None
    else if expr[j] == '[' then CloseScan(expr, j + 1, depth + 1)
    else if expr[j] == ']' then (if depth == 1 then Some(j) else CloseScan(expr, j + 1, depth - 1))
    else CloseScan(expr, j + 1, depth)
  }

  // ---------------------------------------------------------------- resolve

  /** `resolve`: every call it makes is on a strictly shorter text, so it ends on every string. */
  function Resolve(env: Env, src: string): Value
    decreases |src|, 4
  {
    ResolveTrimmed(env, Trim(src))
  }

  function ResolveTrimmed(env: Env, expr: string): Value
    decreases |expr|, 3
  {
    if expr == "" then Undefined
    else if expr[0] == '(' && expr[|expr| - 1] == ')' && WrapScan(expr, 0, 0) then Resolve(env, expr[1..|expr| - 1])
    else
      match FindScan(expr, 0, 0)
      case Some((index, op)) =>
        Compared(env, op, Resolve(env, expr[..index]), Resolve(env, expr[index + |op|..]))
      case None => ResolveUnary(env, expr)
  }

  /** The rest of `resolve`, for a text without an equality outside brackets. */
  function ResolveUnary(env: Env, expr: string): Value
    requires expr != ""
    decreases |expr|, 2
  {
    if expr[0] == '!' then Bool(!Truthy(Resolve(env, expr[1..])))
    else if Literal(expr).Some? then Literal(expr).value
    else ResolvePath(env, expr)
  }

  function ResolvePath(env: Env, expr: string): Value
    decreases |expr|, 1
  {
    var n := IdentLength(expr);
    if n == 0 then Undefined else PathScan(env, expr, n, Property(env, env.vals, Str(expr[..n])))
  }

  /** The loop of `resolvePath`, from position `i` with value `cur`. */
  function PathScan(env: Env, expr: string, i: nat, cur: Value): Value
    requires i <= |expr|
    decreases |expr|, 0, |expr| - i, 1
  {
    if i == |expr| then cur
    else
      match PathStep(env, expr, i, cur)
      case None => Undefined
      case Some((next, v)) => PathScan(env, expr, next, v)
  }

  /** One round of that loop: the position after the step and the value read, if the step is well formed. */
  function PathStep(env: Env, expr: string, i: nat, cur: Value): (step: Option<(nat, Value)>)
    requires i < |expr|
    ensures step.Some? ==> i < step.value.0 <= |expr|
    decreases |expr|, 0, |expr| - i, 0
  {
    if expr[i] == '.' then
      var rest := expr[i + 1..];
      var n := if IdentLength(rest) > 0 then IdentLength(rest) else DigitsLength(rest);
      if n == 0 then None else Some((i + 1 + n, Property(env, cur, Str(rest[..n]))))
    else if expr[i] == '[' then
      match CloseScan(expr, i + 1, 1)
      case None => None
      case Some(j) => Some((j + 1, Property(env, cur, Resolve(env, expr[i + 1..j]))))
    else None
  }

  // ---------------------------------------------------------------- the program

  method ParensWrapWhole(expr: string) returns (whole: bool)
    ensures whole == WrapScan(expr, 0, 0)
  {
    var depth := 0;
    for i := 0 to |expr| - (if expr == "" then 0 else 1)
      invariant WrapScan(expr, 0, 0) == WrapScan(expr, i, depth)
    {
      if expr[i] == '(' {
        depth := depth + 1;
      } else if expr[i] == ')' {
        depth := depth - 1;
        if depth == 0 { return false; }
      }
    }
    return true;
  }

  method FindTopLevelEquality(expr: string) returns (found: Option<(nat, string)>)
    ensures found == FindScan(expr, 0, 0)
  {
    var depth := 0;
    for i := 0 to |expr|
      invariant FindScan(expr, 0, 0) == FindScan(expr, i, depth)
    {
      var c := expr[i];
      if c == '[' || c == '(' {
        depth := depth + 1;
      } else if c == ']' || c == ')' {
        depth := depth - 1;
      } else if depth == 0 && IsOpStart(c) && i + 1 < |expr| && expr[i + 1] == '=' {
        if i > 0 && IsOpStart(expr[i - 1]) { continue; }
        if Trim(expr[..i]) == "" { continue; }
        return Some((i, if i + 2 < |expr| && expr[i + 2] == '=' then [c] + "==" else [c] + "="));
      }
    }
    return None;
  }

  method Evaluate(env: Env, src: string) returns (v: Value)
    ensures v == Resolve(env, src)
    decreases |src|, 4
  {
    v := EvaluateTrimmed(env, Trim(src));
  }

  method EvaluateTrimmed(env: Env, expr: string) returns (v: Value)
    ensures v == ResolveTrimmed(env, expr)
    decreases |expr|, 3
  {
    if expr == "" { return Undefined; }
    if expr[0] == '(' && expr[|expr| - 1] == ')' {
      var whole := ParensWrapWhole(expr);
      if whole {
        v := Evaluate(env, expr[1..|expr| - 1]);
        return;
      }
    }
    var eq := FindTopLevelEquality(expr);
    if eq.Some? {
      var (index, op) := eq.value;
      var left := Evaluate(env, expr[..index]);
      var right := Evaluate(env, expr[index + |op|..]);
      return Compared(env, op, left, right);
    }
    v := EvaluateUnary(env, expr);
  }

  method EvaluateUnary(env: Env, expr: string) returns (v: Value)
    requires expr != ""
    ensures v == ResolveUnary(env, expr)
    decreases |expr|, 2
  {
    if expr[0] == '!' {
      var arg := Evaluate(env, expr[1..]);
      return Bool(!Truthy(arg));
    }
    var literal := Literal(expr);
    if literal.Some? { return literal.value; }
    v := EvaluatePath(env, expr);
  }

  /** The inner loop of `resolvePath`: the bracket that closes the one before `start`. */
  method FindClose(expr: string, start: nat) returns (close: Option<nat>)
    requires start <= |expr|
    ensures close == CloseScan(expr, start, 1)
  {
    var depth, j := 1, start;
    while j < |expr| && depth > 0
      invariant start <= j <= |expr|
      invariant depth > 0
      invariant CloseScan(expr, start, 1) == CloseScan(expr, j, depth)
    {
      if expr[j] == '[' {
        depth := depth + 1;
      } else if expr[j] == ']' {
        depth := depth - 1;
        if depth == 0 { break; }
      }
      j := j + 1;
    }
    close := if depth != 0 then None else Some(j);
  }

  method EvaluatePath(env: Env, expr: string) returns (cur: Value)
    ensures cur == ResolvePath(env, expr)
    decreases |expr|, 1
  {
    var head := IdentLength(expr);
    if head == 0 { return Undefined; }
    cur := Property(env, env.vals, Str(expr[..head]));
    var i := head;
    while i < |expr|
      invariant i <= |expr|
      invariant ResolvePath(env, expr) == PathScan(env, expr, i, cur)
    {
      var step := EvaluateStep(env, expr, i, cur);
      if step == None { return Undefined; }
      i, cur := step.value.0, step.value.1;
    }
  }

  method EvaluateStep(env: Env, expr: string, i: nat, cur: Value) returns (step: Option<(nat, Value)>)
    requires i < |expr|
    ensures step == PathStep(env, expr, i, cur)
    decreases |expr|, 0
  {
    if expr[i] == '.' {
      var rest := expr[i + 1..];
      var n := IdentLength(rest);
      if n == 0 { n := DigitsLength(rest); }
      if n == 0 { return None; }
      return Some((i + 1 + n, Property(env, cur, Str(rest[..n]))));
    }
    if expr[i] == '[' {
      var close := FindClose(expr, i + 1);
      if close == None { return None; }
      var key := Evaluate(env, expr[i + 1..close.value]);
      return Some((close.value + 1, Property(env, cur, key)));
    }
    return None;
  }
}
