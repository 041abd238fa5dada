/**
 * What the model of bnf-lang.py's parser and evaluator gives on concrete
 * inputs (proved): the demo expression of its main program, for every
 * binding of x, y and z and for the two bindings the main program uses, and
 * the numjoin example of its docstring.
 */
module DemoRuns {
  import opened Wrappers
  import opened Grammar
  import opened Numerals
  import opened Parser
  import opened ArithmeticParser
  import opened ArithmeticAgreement
  import opened Evaluator
  import opened EvaluatorLemmas

  function Constant(c: char): Tree { Node("constant", [TokenNode("digit", c)]) }
  function Constant2(c: char, rest: Tree): Tree { Node("constant", [TokenNode("digit", c), rest]) }
  function Factor(f: Tree): Tree { Node("factor", [f]) }
  function Parenthesized(e: Tree): Tree { Node("factor", [Leaf('('), e, Leaf(')')]) }
  function Term(f: Tree): Tree { Node("term", [f]) }
  function Term3(f: Tree, op: char, t: Tree): Tree { Node("term", [f, TokenNode("prodop", op), t]) }
  function Expression(t: Tree): Tree { Node("expression", [t]) }
  function Expression3(t: Tree, op: char, e: Tree): Tree { Node("expression", [t, TokenNode("sumop", op), e]) }

  const Demo: string := "10+2*x+3*(y+z)/2"

  /** The parts of the demo's tree: 10, 2*x, y+z, (y+z)/2 and 3*(y+z)/2. */
  const Ten: Tree := Term(Factor(Constant2('1', Constant('0'))))
  const TwoX: Tree := Term3(Factor(Constant('2')), '*', Term(Factor(TokenNode("variable", 'x'))))
  const SumYZ: Tree := Expression3(Term(Factor(TokenNode("variable", 'y'))), '+', Expression(Term(Factor(TokenNode("variable", 'z')))))
  const HalfSum: Tree := Term3(Parenthesized(SumYZ), '/', Term(Factor(Constant('2'))))
  const ThreeHalves: Tree := Term3(Factor(Constant('3')), '*', HalfSum)
  /** The demo's right operand, 2*x+3*(y+z)/2. */
  const DemoRest: Tree := Expression3(TwoX, '+', Expression(ThreeHalves))
  const DemoTree: Tree := Expression3(Ten, '+', DemoRest)

  /** Reading "(y+z)/2" from position 9 of the demo. */
  lemma DemoParsesHalfSum()
    ensures TermAt(Demo, 9) == Some(Match(16, HalfSum))
  {
    var s := Demo;
    var t15 := Term(Factor(Constant('2')));
    assert TermAt(s, 15) == Some(Match(16, t15));
    var e12 := Expression(Term(Factor(TokenNode("variable", 'z'))));
    assert TermAt(s, 12) == Some(Match(13, Term(Factor(TokenNode("variable", 'z')))));
    assert ExpressionAt(s, 12) == Some(Match(13, e12));
    assert TermAt(s, 10) == Some(Match(11, Term(Factor(TokenNode("variable", 'y')))));
    assert ExpressionAt(s, 10) == Some(Match(13, SumYZ));
    assert FactorAt(s, 9) == Some(Match(14, Parenthesized(SumYZ)));
  }

  /** Reading "3" from position 7 of the demo. */
  lemma DemoParsesThree()
    ensures FactorAt(Demo, 7) == Some(Match(8, Factor(Constant('3'))))
  {
    var s := Demo;
    assert s[7] == '3' && s[8] == '*';
    assert ConstantAt(s, 8) == None;
    assert ConstantAt(s, 7) == Some(Match(8, Constant('3')));
  }

  /** Reading "3*(y+z)/2" from position 7 of the demo. */
  lemma DemoParsesThreeHalves()
    ensures ExpressionAt(Demo, 7) == Some(Match(16, Expression(ThreeHalves)))
  {
    var s := Demo;
    DemoParsesHalfSum();
    DemoParsesThree();
    assert s[8] == '*';
    assert TermAt(s, 7) == Some(Match(16, ThreeHalves));
  }

  /** Reading "2*x" from position 3 of the demo. */
  lemma DemoParsesTwoX()
    ensures TermAt(Demo, 3) == Some(Match(6, TwoX))
  {
    var s := Demo;
    assert s[3] == '2' && s[4] == '*' && s[5] == 'x' && s[6] == '+';
    assert FactorAt(s, 5) == Some(Match(6, Factor(TokenNode("variable", 'x'))));
    assert TermAt(s, 5) == Some(Match(6, Term(Factor(TokenNode("variable", 'x')))));
    assert ConstantAt(s, 4) == None;
    assert ConstantAt(s, 3) == Some(Match(4, Constant('2')));
    assert FactorAt(s, 3) == Some(Match(4, Factor(Constant('2'))));
  }

  /** Reading "2*x+3*(y+z)/2" from position 3 of the demo. */
  lemma DemoParsesRest()
    ensures ExpressionAt(Demo, 3) == Some(Match(16, DemoRest))
  {
    DemoParsesThreeHalves();
    DemoParsesTwoX();
  }

  /** Reading "10" from the start of the demo. */
  lemma DemoParsesTen()
    ensures TermAt(Demo, 0) == Some(Match(2, Ten))
  {
    var s := Demo;
    assert s[0] == '1' && s[1] == '0' && s[2] == '+';
    assert ConstantAt(s, 2) == None;
    assert ConstantAt(s, 1) == Some(Match(2, Constant('0')));
    assert ConstantAt(s, 0) == Some(Match(2, Constant2('1', Constant('0'))));
    assert FactorAt(s, 0) == Some(Match(2, Factor(Constant2('1', Constant('0')))));
  }

  /** The reference parser reads the whole demo expression into `DemoTree`. */
  lemma DemoParses()
    ensures ExpressionAt(Demo, 0) == Some(Match(16, DemoTree))
  {
    var s := Demo;
    DemoParsesRest();
    DemoParsesTen();
    assert s[2] == '+';
  }

  function Env3(x: int, y: int, z: int): Env
  {
    map['x' := IntVal(x), 'y' := IntVal(y), 'z' := IntVal(z)]
  }

  // Evaluation steps on the node shapes above, stated on the children's values.

  lemma ConstantValue(c: char, env: Env, reading: ConstantReading)
    requires IsDigit(c)
    ensures Eval(Constant(c), env, reading) == Ok(IntVal(DigitValue(c)))
  {
    DigitValueOf(c, env, reading);
  }

  lemma PairValue(c: char, rest: Tree, env: Env, reading: ConstantReading, v: int)
    requires IsDigit(c) && Eval(rest, env, reading) == Ok(IntVal(v))
    ensures Eval(Constant2(c, rest), env, reading) == Join(reading, IntVal(DigitValue(c)), IntVal(v), rest)
  {
    DigitValueOf(c, env, reading);
  }

  lemma DigitValueOf(c: char, env: Env, reading: ConstantReading)
    requires IsDigit(c)
    ensures Eval(TokenNode("digit", c), env, reading) == Ok(IntVal(DigitValue(c)))
  {
    SingleDigit(c);
  }

  lemma FactorValue(f: Tree, env: Env, reading: ConstantReading)
    requires f.Node? && f.name in {"constant", "variable"}
    ensures Eval(Factor(f), env, reading) == Eval(f, env, reading)
  {
  }

  lemma ParenthesizedValue(e: Tree, env: Env, reading: ConstantReading)
    requires e.Node? && e.name == "expression"
    ensures Eval(Parenthesized(e), env, reading) == Eval(e, env, reading)
  {
  }

  lemma TripleValue(name: Symbol, a: Tree, o: Tree, b: Tree, env: Env, reading: ConstantReading, op: BinOp, va: Value, vb: Value)
    requires name in {"expression", "term"}
    requires Eval(o, env, reading) == Ok(OpVal(op))
    requires Eval(a, env, reading) == Ok(va) && Eval(b, env, reading) == Ok(vb)
    ensures Eval(Node(name, [a, o, b]), env, reading) == Apply(OpVal(op), va, vb)
  {
    BinaryTripleStep(name, a, o, b, env, reading, op);
  }

  lemma OperatorValues(env: Env, reading: ConstantReading)
    ensures Eval(TokenNode("sumop", '+'), env, reading) == Ok(OpVal(Add))
    ensures Eval(TokenNode("sumop", '-'), env, reading) == Ok(OpVal(Sub))
    ensures Eval(TokenNode("prodop", '*'), env, reading) == Ok(OpVal(Mul))
    ensures Eval(TokenNode("prodop", '/'), env, reading) == Ok(OpVal(TrueDiv))
  {
  }

  lemma VariableValue(c: char, env: Env, reading: ConstantReading)
    requires c in {'x', 'y', 'z'}
    ensures Eval(TokenNode("variable", c), env, reading) == Lookup(env, c)
  {
  }

  /** A variable standing alone as a term. */
  lemma VariableTerm(c: char, env: Env)
    requires c in {'x', 'y', 'z'}
    ensures Evaluate(Term(Factor(TokenNode("variable", c))), env) == Lookup(env, c)
  {
    VariableValue(c, env, AsWritten);
    FactorValue(TokenNode("variable", c), env, AsWritten);
    BinarySingleStep("term", Factor(TokenNode("variable", c)), env, AsWritten);
  }

  /** A digit standing alone as a term. */
  lemma DigitTerm(c: char, env: Env)
    requires IsDigit(c)
    ensures Evaluate(Term(Factor(Constant(c))), env) == Ok(IntVal(DigitValue(c)))
  {
    ConstantValue(c, env, AsWritten);
    FactorValue(Constant(c), env, AsWritten);
    BinarySingleStep("term", Factor(Constant(c)), env, AsWritten);
  }

  // The demo expression.

  lemma TenValue(env: Env)
    ensures Evaluate(Ten, env) == Ok(IntVal(10))
  {
    ConstantValue('0', env, AsWritten);
    PairValue('1', Constant('0'), env, AsWritten, 0);
    JoinNatural(1, 0);
    assert Evaluate(Constant2('1', Constant('0')), env) == Ok(IntVal(10));
    FactorValue(Constant2('1', Constant('0')), env, AsWritten);
    BinarySingleStep("term", Factor(Constant2('1', Constant('0'))), env, AsWritten);
  }

  lemma TwoXValue(x: int, y: int, z: int)
    ensures Evaluate(TwoX, Env3(x, y, z)) == Ok(IntVal(2 * x))
  {
    var env := Env3(x, y, z);
    ConstantValue('2', env, AsWritten);
    FactorValue(Constant('2'), env, AsWritten);
    VariableTerm('x', env);
    OperatorValues(env, AsWritten);
    TripleValue("term", Factor(Constant('2')), TokenNode("prodop", '*'), Term(Factor(TokenNode("variable", 'x'))),
                env, AsWritten, Mul, IntVal(2), IntVal(x));
  }

  lemma SumYZValue(x: int, y: int, z: int)
    ensures Evaluate(SumYZ, Env3(x, y, z)) == Ok(IntVal(y + z))
  {
    var env := Env3(x, y, z);
    VariableTerm('y', env);
    VariableTerm('z', env);
    var tz := Term(Factor(TokenNode("variable", 'z')));
    BinarySingleStep("expression", tz, env, AsWritten);
    OperatorValues(env, AsWritten);
    TripleValue("expression", Term(Factor(TokenNode("variable", 'y'))), TokenNode("sumop", '+'), Expression(tz),
                env, AsWritten, Add, IntVal(y), IntVal(z));
  }

  lemma HalfSumValue(x: int, y: int, z: int) returns (h: real)
    ensures h == (y + z) as real / 2.0
    ensures Evaluate(HalfSum, Env3(x, y, z)) == Ok(FloatVal(h))
  {
    var env := Env3(x, y, z);
    SumYZValue(x, y, z);
    ParenthesizedValue(SumYZ, env, AsWritten);
    DigitTerm('2', env);
    h := IntOverInt(Parenthesized(SumYZ), Term(Factor(Constant('2'))), env, y + z, 2);
  }

  lemma ThreeHalvesValue(x: int, y: int, z: int) returns (r: real)
    ensures r == 3.0 * ((y + z) as real / 2.0)
    ensures Evaluate(ThreeHalves, Env3(x, y, z)) == Ok(FloatVal(r))
  {
    var env := Env3(x, y, z);
    var h := HalfSumValue(x, y, z);
    ConstantValue('3', env, AsWritten);
    FactorValue(Constant('3'), env, AsWritten);
    r := ThreeTimesFloat(Factor(Constant('3')), HalfSum, env, h);
  }

  lemma DemoRestValue(x: int, y: int, z: int) returns (r: real)
    ensures r == (2 * x) as real + 3.0 * ((y + z) as real / 2.0)
    ensures Evaluate(DemoRest, Env3(x, y, z)) == Ok(FloatVal(r))
  {
    var env := Env3(x, y, z);
    TwoXValue(x, y, z);
    var t := ThreeHalvesValue(x, y, z);
    BinarySingleStep("expression", ThreeHalves, env, AsWritten);
    r := IntPlusFloat(TwoX, Expression(ThreeHalves), env, 2 * x, t);
  }

  /** The demo's value: ints while only +, - and * are involved, a float once / is. */
  lemma DemoValue(x: int, y: int, z: int) returns (v: real)
    ensures v == (10 + 2 * x) as real + 3.0 * ((y + z) as real / 2.0)
    ensures Evaluate(DemoTree, Env3(x, y, z)) == Ok(FloatVal(v))
  {
    TenValue(Env3(x, y, z));
    var r := DemoRestValue(x, y, z);
    v := IntPlusFloat(Ten, DemoRest, Env3(x, y, z), 10, r);
  }

  lemma IntPlusFloat(a: Tree, b: Tree, env: Env, i: int, r: real) returns (v: real)
    requires Evaluate(a, env) == Ok(IntVal(i)) && Evaluate(b, env) == Ok(FloatVal(r))
    ensures v == i as real + r
    ensures Evaluate(Expression3(a, '+', b), env) == Ok(FloatVal(v))
  {
    OperatorValues(env, AsWritten);
    TripleValue("expression", a, TokenNode("sumop", '+'), b, env, AsWritten, Add, IntVal(i), FloatVal(r));
    v := i as real + r;
  }

  lemma ThreeTimesFloat(a: Tree, b: Tree, env: Env, r: real) returns (v: real)
    requires Evaluate(a, env) == Ok(IntVal(3)) && Evaluate(b, env) == Ok(FloatVal(r))
    ensures v == 3.0 * r
    ensures Evaluate(Term3(a, '*', b), env) == Ok(FloatVal(v))
  {
    OperatorValues(env, AsWritten);
    TripleValue("term", a, TokenNode("prodop", '*'), b, env, AsWritten, Mul, IntVal(3), FloatVal(r));
    v := 3.0 * r;
  }

  lemma IntOverInt(a: Tree, b: Tree, env: Env, i: int, j: int) returns (v: real)
    requires Evaluate(a, env) == Ok(IntVal(i)) && Evaluate(b, env) == Ok(IntVal(j)) && j != 0
    ensures v == i as real / j as real
    ensures Evaluate(Term3(a, '/', b), env) == Ok(FloatVal(v))
  {
    OperatorValues(env, AsWritten);
    TripleValue("term", a, TokenNode("prodop", '/'), b, env, AsWritten, TrueDiv, IntVal(i), IntVal(j));
    v := i as real / j as real;
  }

  /** parse_expression on the demo gives `DemoTree`. */
  lemma ParseDemo()
    ensures ParseExpression(Demo) == Some(DemoTree)
  {
    ParseExpressionAgrees(Demo);
    DemoParses();
  }

  /** The demo with (x, y, z) = (1, 2, 3) gives 19.5 and with (10, 2, 4) gives 39.0. */
  lemma DemoRunsValues()
    ensures ParseExpression(Demo).Some?
    ensures Evaluate(ParseExpression(Demo).value, Env3(1, 2, 3)) == Ok(FloatVal(19.5))
    ensures Evaluate(ParseExpression(Demo).value, Env3(10, 2, 4)) == Ok(FloatVal(39.0))
  {
    ParseDemo();
    var first := DemoValue(1, 2, 3);
    var second := DemoValue(10, 2, 4);
  }

  /** numjoin(12, 34) == 1234, as the docstring of numjoin says. */
  lemma NumJoinDocstring()
    ensures NumJoin(12, 34) == Some(1234)
  {
    JoinNatural(12, 34);
    assert Str(34) == "34";
  }
}
