/**
 * The tree-walking evaluator of bnf-lang.py (`evaluate`). It dispatches on
 * the node's rule name and on the number and kind of its children; any
 * other shape is the TypeError (or ValueError) of the source, reported here
 * as `Malformed`.
 *
 * The source reads the module globals `x`, `y` and `z`; here they come from
 * an explicit environment. Python's ints stay exact (`IntVal`); its floats,
 * which only true division produces, are idealised as exact reals.
 */
module Evaluator {
  import opened Wrappers
  import opened Grammar
  import opened Numerals

  /** operator.add, operator.sub, operator.mul and operator.truediv. */
  datatype BinOp = Add | Sub | Mul | TrueDiv

  /** What `evaluate` can return: an int, a float, or one of the four operator functions. */
  datatype Value = IntVal(i: int) | FloatVal(r: real) | OpVal(op: BinOp)

  /** TypeError and ValueError (`Malformed`), NameError for x, y or z (`Unbound`), ZeroDivisionError. */
  datatype EvalError = Malformed | Unbound(name: char) | DivisionByZero

  /** The bindings of the variables `x`, `y` and `z`. */
  type Env = map<char, Value>

  /**
   * How a two-child `constant` node combines its digit with the value of its
   * tail: `AsWritten` is numjoin, the text of both printed numbers glued
   * together; `Positional` shifts the digit by the number of digits the
   * tail spans.
   */
  datatype ConstantReading = AsWritten | Positional

  predicate IsNumber(v: Value) { v.IntVal? || v.FloatVal? }

  function AsReal(v: Value): real
    requires IsNumber(v)
  {
    if v.IntVal? then v.i as real else v.r
  }

  /**
   * Calls `f` on `a` and `b`. Calling a number, or applying an operator to
   * an operator, is a TypeError. Ints stay ints under +, - and *; true
   * division always gives a float and fails on a zero divisor.
   */
  function Apply(f: Value, a: Value, b: Value): Result<Value, EvalError>
  {
    if !f.OpVal? || !IsNumber(a) || !IsNumber(b) then
      Err(Malformed)
    else
      match f.op
      case Add => if a.IntVal? && b.IntVal? then Ok(IntVal(a.i + b.i)) else Ok(FloatVal(AsReal(a) + AsReal(b)))
      case Sub => if a.IntVal? && b.IntVal? then Ok(IntVal(a.i - b.i)) else Ok(FloatVal(AsReal(a) - AsReal(b)))
      case Mul => if a.IntVal? && b.IntVal? then Ok(IntVal(a.i * b.i)) else Ok(FloatVal(AsReal(a) * AsReal(b)))
      case TrueDiv => if AsReal(b) == 0.0 then Err(DivisionByZero) else Ok(FloatVal(AsReal(a) / AsReal(b)))
  }

  /** `t[0] == s` in the source: a node's first component is its rule name, a token's is the token itself. */
  predicate HeadIs(t: Tree, s: string)
  {
    match t
    case Leaf(c) => [c] == s
    case Node(name, _) => name == s
  }

  /** `int(part)` on a child of a `digit` node: only a token that is a decimal digit converts. */
  function IntOf(t: Tree): Result<Value, EvalError>
  {
    match t
    case Node(_, _) => Err(Malformed)
    case Leaf(c) =>
      match ParseInt([c])
      case Some(v) => Ok(IntVal(v))
      case None => Err(Malformed)
  }

  /** A variable read: NameError when the variable has no binding. */
  function Lookup(env: Env, c: char): Result<Value, EvalError>
  {
    if c in env then Ok(env[c]) else Err(Unbound(c))
  }

  /** The two-child `constant` case: numjoin, or the positional reading. */
  function Join(reading: ConstantReading, a: Value, b: Value, tail: Tree): Result<Value, EvalError>
  {
    if !a.IntVal? || !b.IntVal? then
      Err(Malformed)
    else if reading == Positional then
      Ok(IntVal(a.i * Pow10(|Leaves(tail)|) + b.i))
    else
      match NumJoin(a.i, b.i)
      case Some(v) => Ok(IntVal(v))
      case None => Err(Malformed)
  }

  /**
   * evaluate: dispatch on the rule name of a node. The recursive cases
   * (expression and term, factor, constant) are spelled out in the functions
   * below; the token rules are answered here.
   */
  function Eval(t: Tree, env: Env, reading: ConstantReading): Result<Value, EvalError>
    decreases t, 1
  {
    match t
    // unpacking a one-character token into (identifier, parts) fails
    case Leaf(_) => Err(Malformed)
    case Node(name, parts) =>
      if name == "expression" || name == "term" then
        EvalBinary(t, env, reading)
      else if name == "sumop" then
        if |parts| == 1 && parts[0] == Leaf('+') then Ok(OpVal(Add))
        else if |parts| == 1 && parts[0] == Leaf('-') then Ok(OpVal(Sub))
        else Err(Malformed)
      else if name == "prodop" then
        if |parts| == 1 && parts[0] == Leaf('*') then Ok(OpVal(Mul))
        else if |parts| == 1 && parts[0] == Leaf('/') then Ok(OpVal(TrueDiv))
        else Err(Malformed)
      else if name == "factor" then
        EvalFactor(t, env, reading)
      else if name == "variable" then
        if |parts| == 1 && parts[0] == Leaf('x') then Lookup(env, 'x')
        else if |parts| == 1 && parts[0] == Leaf('y') then Lookup(env, 'y')
        else if |parts| == 1 && parts[0] == Leaf('z') then Lookup(env, 'z')
        else Err(Malformed)
      else if name == "constant" then
        EvalConstant(t, env, reading)
      else if name == "digit" then
        if |parts| == 1 then IntOf(parts[0]) else Err(Malformed)
      else
        Err(Malformed)
  }

  /**
   * An `expression` or `term` node: one part is passed through; three parts
   * are operand, operator, operand, evaluated operator first and then left
   * to right before the operator is called.
   */
  function EvalBinary(t: Tree, env: Env, reading: ConstantReading): Result<Value, EvalError>
    requires t.Node?
    decreases t, 0
  {
    var parts := t.children;
    if |parts| == 1 then
      Eval(parts[0], env, reading)
    else if |parts| == 3 then
      var op :- Eval(parts[1], env, reading);
      var left :- Eval(parts[0], env, reading);
      var right :- Eval(parts[2], env, reading);
      Apply(op, left, right)
    else
      Err(Malformed)
  }

  /** A `factor` node: a constant, a variable, or the middle part of three when it is an expression. */
  function EvalFactor(t: Tree, env: Env, reading: ConstantReading): Result<Value, EvalError>
    requires t.Node?
    decreases t, 0
  {
    var parts := t.children;
    if |parts| == 1 && HeadIs(parts[0], "constant") then Eval(parts[0], env, reading)
    else if |parts| == 1 && HeadIs(parts[0], "variable") then Eval(parts[0], env, reading)
    else if |parts| == 3 && HeadIs(parts[1], "expression") then Eval(parts[1], env, reading)
    else Err(Malformed)
  }

  /** A `constant` node: a digit alone, or a digit joined onto the value of the rest. */
  function EvalConstant(t: Tree, env: Env, reading: ConstantReading): Result<Value, EvalError>
    requires t.Node?
    decreases t, 0
  {
    var parts := t.children;
    if |parts| == 1 then
      Eval(parts[0], env, reading)
    else if |parts| == 2 then
      var digit :- Eval(parts[0], env, reading);
      var tail :- Eval(parts[1], env, reading);
      Join(reading, digit, tail, parts[1])
    else
      Err(Malformed)
  }

  /** evaluate as bnf-lang.py writes it: multi-digit constants are joined by numjoin. */
  function Evaluate(t: Tree, env: Env): Result<Value, EvalError>
  {
    Eval(t, env, AsWritten)
  }

  /** evaluate with constants read positionally, as the grammar's decimal numerals mean. */
  function EvaluateIntended(t: Tree, env: Env): Result<Value, EvalError>
  {
    Eval(t, env, Positional)
  }
}
