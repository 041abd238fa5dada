/**
 * What the model of bnf-lang.py's parser and evaluator gives on small
 * concrete inputs (proved): multi-digit constants under numjoin and under
 * the positional reading, right associativity, the missing check for
 * trailing input, inputs the parser rejects, and the evaluator's error
 * outcomes.
 */
module SmallRuns {
  import opened Wrappers
  import opened Grammar
  import opened Numerals
  import opened Parser
  import opened ArithmeticParser
  import opened ArithmeticAgreement
  import opened Evaluator
  import opened EvaluatorLemmas
  import opened DemoRuns

  /** A single-factor term, and an expression of one such term. */
  function Digit(c: char): Tree { Term(Factor(Constant(c))) }

  // "105": numjoin gives 15, the positional reading 105.

  const C5: Tree := Constant('5')
  const C05: Tree := Constant2('0', C5)
  const C105: Tree := Constant2('1', C05)

  lemma ParsesOneZeroFive()
    ensures ParseExpression("105") == Some(Expression(Term(Factor(C105))))
  {
    var s := "105";
    assert ConstantAt(s, 3) == None;
    assert ConstantAt(s, 2) == Some(Match(3, C5));
    assert ConstantAt(s, 1) == Some(Match(3, C05));
    assert ConstantAt(s, 0) == Some(Match(3, C105));
    assert FactorAt(s, 0) == Some(Match(3, Factor(C105)));
    assert TermAt(s, 0) == Some(Match(3, Term(Factor(C105))));
    assert ExpressionAt(s, 0) == Some(Match(3, Expression(Term(Factor(C105)))));
    ParseExpressionAgrees(s);
  }

  /** A constant standing alone as an expression has the constant's value. */
  lemma ConstantExpression(c: Tree, env: Env, reading: ConstantReading)
    requires c.Node? && c.name == "constant"
    ensures Eval(Expression(Term(Factor(c))), env, reading) == Eval(c, env, reading)
  {
    FactorValue(c, env, reading);
    BinarySingleStep("term", Factor(c), env, reading);
    BinarySingleStep("expression", Term(Factor(c)), env, reading);
  }

  /** bnf-lang.py evaluates "105" to 15: the tail "05" evaluates to 5 and numjoin(1, 5) is 15. */
  lemma OneZeroFiveAsWritten(env: Env)
    ensures ParseExpression("105") == Some(Expression(Term(Factor(C105))))
    ensures Evaluate(Expression(Term(Factor(C105))), env) == Ok(IntVal(15))
  {
    ParsesOneZeroFive();
    AsWrittenValue(env);
    ConstantExpression(C105, env, AsWritten);
  }

  lemma AsWrittenValue(env: Env)
    ensures Evaluate(C105, env) == Ok(IntVal(15))
  {
    ConstantValue('5', env, AsWritten);
    PairValue('0', C5, env, AsWritten, 5);
    JoinNatural(0, 5);
    assert Str(5) == "5";
    PairValue('1', C05, env, AsWritten, 5);
    JoinNatural(1, 5);
  }

  /** The positional reading evaluates "105" to 105. */
  lemma OneZeroFiveIntended(env: Env)
    ensures ParseExpression("105") == Some(Expression(Term(Factor(C105))))
    ensures EvaluateIntended(Expression(Term(Factor(C105))), env) == Ok(IntVal(105))
  {
    ParsesOneZeroFive();
    PositionalValue(env);
    ConstantExpression(C105, env, Positional);
  }

  lemma PositionalValue(env: Env)
    ensures EvaluateIntended(C105, env) == Ok(IntVal(105))
  {
    ConstantValue('5', env, Positional);
    assert Leaves(C5) == "5" by {
      assert LeavesOf(C5.children) == Leaves(TokenNode("digit", '5')) + LeavesOf([]);
    }
    PairValue('0', C5, env, Positional, 5);
    LeavesOfPair(TokenNode("digit", '0'), C5);
    assert Leaves(TokenNode("digit", '0')) == "0";
    assert Leaves(C05) == "05";
    PairValue('1', C05, env, Positional, 5);
  }

  // "10": numjoin(1, 0) is 10, the same as the positional reading.

  lemma TenAsWritten(env: Env)
    ensures ParseExpression("10") == Some(Expression(Ten))
    ensures Evaluate(Expression(Ten), env) == Ok(IntVal(10))
  {
    var s := "10";
    assert ConstantAt(s, 2) == None;
    assert ConstantAt(s, 1) == Some(Match(2, Constant('0')));
    assert ConstantAt(s, 0) == Some(Match(2, Constant2('1', Constant('0'))));
    assert FactorAt(s, 0) == Some(Match(2, Factor(Constant2('1', Constant('0')))));
    assert TermAt(s, 0) == Some(Match(2, Ten));
    assert ExpressionAt(s, 0) == Some(Match(2, Expression(Ten)));
    ParseExpressionAgrees(s);
    TenValue(env);
    BinarySingleStep("expression", Ten, env, AsWritten);
  }

  // "1-2-3": the grammar is right-recursive, so it is 1-(2-3).

  const TwoMinusThree: Tree := Expression3(Digit('2'), '-', Expression(Digit('3')))
  const OneMinusTwoMinusThree: Tree := Expression3(Digit('1'), '-', TwoMinusThree)

  lemma ParsesRightAssociative()
    ensures ParseExpression("1-2-3") == Some(OneMinusTwoMinusThree)
  {
    var s := "1-2-3";
    assert ConstantAt(s, 5) == None && ConstantAt(s, 3) == None && ConstantAt(s, 1) == None;
    assert ConstantAt(s, 4) == Some(Match(5, Constant('3')));
    assert TermAt(s, 4) == Some(Match(5, Digit('3')));
    assert ExpressionAt(s, 4) == Some(Match(5, Expression(Digit('3'))));
    assert ConstantAt(s, 2) == Some(Match(3, Constant('2')));
    assert TermAt(s, 2) == Some(Match(3, Digit('2')));
    assert ExpressionAt(s, 2) == Some(Match(5, TwoMinusThree));
    assert ConstantAt(s, 0) == Some(Match(1, Constant('1')));
    assert TermAt(s, 0) == Some(Match(1, Digit('1')));
    assert ExpressionAt(s, 0) == Some(Match(5, OneMinusTwoMinusThree));
    ParseExpressionAgrees(s);
  }

  /** A digit term minus an expression with an int value. */
  lemma DigitMinus(c: char, e: Tree, env: Env, v: int)
    requires IsDigit(c) && Evaluate(e, env) == Ok(IntVal(v))
    ensures Evaluate(Expression3(Digit(c), '-', e), env) == Ok(IntVal(DigitValue(c) - v))
  {
    DigitTerm(c, env);
    OperatorValues(env, AsWritten);
    TripleValue("expression", Digit(c), TokenNode("sumop", '-'), e, env, AsWritten, Sub, IntVal(DigitValue(c)), IntVal(v));
  }

  /** "1-2-3" evaluates to 2, not -4. */
  lemma RightAssociativeValue(env: Env)
    ensures ParseExpression("1-2-3") == Some(OneMinusTwoMinusThree)
    ensures Evaluate(OneMinusTwoMinusThree, env) == Ok(IntVal(2))
  {
    ParsesRightAssociative();
    RightAssociativeTree(env);
  }

  lemma RightAssociativeTree(env: Env)
    ensures Evaluate(OneMinusTwoMinusThree, env) == Ok(IntVal(2))
  {
    DigitTerm('3', env);
    BinarySingleStep("expression", Digit('3'), env, AsWritten);
    DigitMinus('2', Expression(Digit('3')), env, 3);
    DigitMinus('1', TwoMinusThree, env, -1);
  }

  // "1+2)": parse_expression does not check that all input was read.

  const OnePlusTwo: Tree := Expression3(Digit('1'), '+', Expression(Digit('2')))

  lemma TrailingInputIgnored()
    ensures ExpressionAt("1+2)", 0) == Some(Match(3, OnePlusTwo))
    ensures ParseExpression("1+2)") == Some(OnePlusTwo)
    ensures ParseExpression("1+2)") == ParseExpression("1+2")
  {
    var s := "1+2)";
    assert ConstantAt(s, 3) == None && ConstantAt(s, 1) == None;
    assert ConstantAt(s, 2) == Some(Match(3, Constant('2')));
    assert TermAt(s, 2) == Some(Match(3, Digit('2')));
    assert ExpressionAt(s, 2) == Some(Match(3, Expression(Digit('2'))));
    assert ConstantAt(s, 0) == Some(Match(1, Constant('1')));
    assert TermAt(s, 0) == Some(Match(1, Digit('1')));
    ParseExpressionAgrees(s);
    var u := "1+2";
    assert ConstantAt(u, 3) == None && ConstantAt(u, 1) == None;
    assert ConstantAt(u, 2) == Some(Match(3, Constant('2')));
    assert TermAt(u, 2) == Some(Match(3, Digit('2')));
    assert ExpressionAt(u, 2) == Some(Match(3, Expression(Digit('2'))));
    assert ConstantAt(u, 0) == Some(Match(1, Constant('1')));
    assert TermAt(u, 0) == Some(Match(1, Digit('1')));
    assert ExpressionAt(u, 0) == Some(Match(3, OnePlusTwo));
    ParseExpressionAgrees(u);
  }

  // Inputs the parser rejects: the ValueError of parse.

  lemma RejectedInputs()
    ensures ParseExpression("") == None
    ensures ParseExpression("+1") == None
    ensures ParseExpression("(1") == None
  {
    assert ExpressionAt("", 0) == None;
    ParseExpressionAgrees("");
    assert FactorAt("+1", 0) == None;
    assert ExpressionAt("+1", 0) == None;
    ParseExpressionAgrees("+1");
    var s := "(1";
    assert ConstantAt(s, 2) == None;
    assert ConstantAt(s, 1) == Some(Match(2, Constant('1')));
    assert TermAt(s, 1) == Some(Match(2, Digit('1')));
    assert ExpressionAt(s, 1) == Some(Match(2, Expression(Digit('1'))));
    assert FactorAt(s, 0) == None;
    assert ExpressionAt(s, 0) == None;
    ParseExpressionAgrees(s);
  }

  // Evaluation errors.

  const JustX: Tree := Expression(Term(Factor(TokenNode("variable", 'x'))))

  /** With no binding for x, "x" is a NameError. */
  lemma UnboundVariable()
    ensures ParseExpression("x") == Some(JustX)
    ensures Evaluate(JustX, map[]) == Err(Unbound('x'))
  {
    var s := "x";
    assert FactorAt(s, 0) == Some(Match(1, Factor(TokenNode("variable", 'x'))));
    assert TermAt(s, 0) == Some(Match(1, Term(Factor(TokenNode("variable", 'x')))));
    assert ExpressionAt(s, 0) == Some(Match(1, JustX));
    ParseExpressionAgrees(s);
    VariableTerm('x', map[]);
    BinarySingleStep("expression", Term(Factor(TokenNode("variable", 'x'))), map[], AsWritten);
  }

  const OneOverZero: Tree := Expression(Term3(Factor(Constant('1')), '/', Digit('0')))

  /** "1/0" is a ZeroDivisionError. */
  lemma DivisionByZeroRun(env: Env)
    ensures ParseExpression("1/0") == Some(OneOverZero)
    ensures Evaluate(OneOverZero, env) == Err(DivisionByZero)
  {
    ParsesOneOverZero();
    OneOverZeroValue(env);
  }

  lemma ParsesOneOverZero()
    ensures ParseExpression("1/0") == Some(OneOverZero)
  {
    var s := "1/0";
    assert ConstantAt(s, 3) == None && ConstantAt(s, 1) == None;
    assert ConstantAt(s, 2) == Some(Match(3, Constant('0')));
    assert TermAt(s, 2) == Some(Match(3, Digit('0')));
    assert ConstantAt(s, 0) == Some(Match(1, Constant('1')));
    assert FactorAt(s, 0) == Some(Match(1, Factor(Constant('1'))));
    assert TermAt(s, 0) == Some(Match(3, Term3(Factor(Constant('1')), '/', Digit('0'))));
    assert ExpressionAt(s, 0) == Some(Match(3, OneOverZero));
    ParseExpressionAgrees(s);
  }

  lemma OneOverZeroValue(env: Env)
    ensures Evaluate(OneOverZero, env) == Err(DivisionByZero)
  {
    ConstantValue('1', env, AsWritten);
    FactorValue(Constant('1'), env, AsWritten);
    DigitTerm('0', env);
    OperatorValues(env, AsWritten);
    var quotient := Term3(Factor(Constant('1')), '/', Digit('0'));
    TripleValue("term", Factor(Constant('1')), TokenNode("prodop", '/'), Digit('0'), env, AsWritten, TrueDiv, IntVal(1), IntVal(0));
    BinarySingleStep("expression", quotient, env, AsWritten);
  }

  /** Shapes outside the grammar are a TypeError or ValueError (`Malformed`): a bare token fails to unpack, `int` of a non-digit fails. */
  lemma MalformedTrees(env: Env)
    ensures Evaluate(Leaf('1'), env) == Err(Malformed)
    ensures Evaluate(Node("number", [Leaf('1')]), env) == Err(Malformed)
    ensures Evaluate(TokenNode("digit", 'a'), env) == Err(Malformed)
    ensures Evaluate(TokenNode("sumop", '*'), env) == Err(Malformed)
    ensures Evaluate(Node("expression", [Digit('1'), Digit('2')]), env) == Err(Malformed)
  {
    assert !IsDigit("a"[0]);
  }
}
