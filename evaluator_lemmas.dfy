/**
 * What `evaluate` does on trees that `BnfSyntax` derives (in particular on
 * every tree the parser returns): it never reaches a TypeError branch, and a
 * constant evaluates to a value fixed by its digits.
 */
module EvaluatorLemmas {
  import opened Wrappers
  import opened Grammar
  import opened Numerals
  import opened Parser
  import opened ParserLemmas
  import opened ArithmeticParser
  import opened Evaluator

  // ---------------------------------------------------------------------------
  // The shapes `BnfSyntax` derives, rule by rule.

  /** A derivation of a rule picks one alternative and derives each of its symbols in turn. */
  lemma RuleShape(g: Grammar, r: Symbol, t: Tree) returns (n: nat)
    requires r in g && Derives(g, r, t)
    ensures t.Node? && t.name == r && n < |g[r]| && |g[r][n]| == |t.children|
    ensures forall k | 0 <= k < |t.children| :: Derives(g, g[r][n][k], t.children[k])
  {
    n :| 0 <= n < |g[r]| && |g[r][n]| == |t.children|
      && forall k | 0 <= k < |t.children| :: Derives(g, g[r][n][k], t.children[k]);
  }

  /** A rule `r ::= operand operator r | operand`: an operand alone, or operand, operator and `r` again. */
  lemma BinaryShape(g: Grammar, r: Symbol, operand: Symbol, operator: Symbol, t: Tree)
    requires r in g && g[r] == [[operand, operator, r], [operand]]
    requires Derives(g, r, t)
    ensures t.Node? && t.name == r
    ensures || (|t.children| == 1 && Derives(g, operand, t.children[0]))
            || (&& |t.children| == 3
                && Derives(g, operand, t.children[0])
                && Derives(g, operator, t.children[1])
                && Derives(g, r, t.children[2]))
  {
    var n := RuleShape(g, r, t);
  }

  lemma ExpressionShape(t: Tree)
    requires Derives(BnfSyntax, "expression", t)
    ensures t.Node? && t.name == "expression"
    ensures || (|t.children| == 1 && Derives(BnfSyntax, "term", t.children[0]))
            || (&& |t.children| == 3
                && Derives(BnfSyntax, "term", t.children[0])
                && Derives(BnfSyntax, "sumop", t.children[1])
                && Derives(BnfSyntax, "expression", t.children[2]))
  {
    var _ := ExpressionRule();
    BinaryShape(BnfSyntax, "expression", "term", "sumop", t);
  }

  lemma TermShape(t: Tree)
    requires Derives(BnfSyntax, "term", t)
    ensures t.Node? && t.name == "term"
    ensures || (|t.children| == 1 && Derives(BnfSyntax, "factor", t.children[0]))
            || (&& |t.children| == 3
                && Derives(BnfSyntax, "factor", t.children[0])
                && Derives(BnfSyntax, "prodop", t.children[1])
                && Derives(BnfSyntax, "term", t.children[2]))
  {
    var _ := TermRule();
    BinaryShape(BnfSyntax, "term", "factor", "prodop", t);
  }

  /** A one-character symbol that is not a rule derives only the leaf holding that character. */
  lemma TerminalShape(g: Grammar, c: char, t: Tree)
    requires [c] !in g && Derives(g, [c], t)
    ensures t == Leaf(c)
  {
  }

  /** A factor is a constant (alternative 0), a variable (1) or a parenthesized expression (2). */
  lemma FactorShape(t: Tree) returns (n: nat)
    requires Derives(BnfSyntax, "factor", t)
    ensures t.Node? && t.name == "factor" && n < 3
    ensures n == 0 ==> |t.children| == 1 && Derives(BnfSyntax, "constant", t.children[0])
    ensures n == 1 ==> |t.children| == 1 && Derives(BnfSyntax, "variable", t.children[0])
    ensures n == 2 ==> && |t.children| == 3
                       && t.children[0] == Leaf('(')
                       && Derives(BnfSyntax, "expression", t.children[1])
                       && t.children[2] == Leaf(')')
  {
    var g := BnfSyntax;
    var _ := FactorRule();
    n := RuleShape(g, "factor", t);
    if n == 2 {
      OneCharSymbolsAreTerminals();
      TerminalShape(g, '(', t.children[0]);
      TerminalShape(g, ')', t.children[2]);
    }
  }

  lemma ConstantShape(t: Tree)
    requires Derives(BnfSyntax, "constant", t)
    ensures t.Node? && t.name == "constant"
    ensures || (|t.children| == 1 && Derives(BnfSyntax, "digit", t.children[0]))
            || (&& |t.children| == 2
                && Derives(BnfSyntax, "digit", t.children[0])
                && Derives(BnfSyntax, "constant", t.children[1]))
  {
    var _ := ConstantRule();
    var n := RuleShape(BnfSyntax, "constant", t);
  }

  /** A rule whose every alternative is one one-character terminal derives a node around one leaf. */
  lemma SingleTokenShape(g: Grammar, name: Symbol, t: Tree)
    requires name in g && Derives(g, name, t)
    requires forall key | key in g :: |key| > 1
    requires forall alt | alt in g[name] :: |alt| == 1 && |alt[0]| == 1
    ensures t.Node? && t.name == name && |t.children| == 1 && t.children[0].Leaf?
    ensures [[t.children[0].token]] in g[name]
  {
    var n := RuleShape(g, name, t);
    assert g[name][n] in g[name];
    assert t.children[0] == Leaf(g[name][n][0][0]);
    assert g[name][n] == [[t.children[0].token]];
  }

  /** The same for a rule of `BnfSyntax`, given its alternatives. */
  lemma TokenRuleShape(name: Symbol, alts: seq<Alternative>, t: Tree)
    requires name in BnfSyntax && BnfSyntax[name] == alts
    requires forall alt | alt in alts :: |alt| == 1 && |alt[0]| == 1
    requires Derives(BnfSyntax, name, t)
    ensures t.Node? && t.name == name && |t.children| == 1 && t.children[0].Leaf?
    ensures [[t.children[0].token]] in alts
  {
    RuleNamesAreLong();
    SingleTokenShape(BnfSyntax, name, t);
  }

  /** `digit`, `variable`, `sumop` and `prodop` derive a node around one accepted token. */
  lemma DigitShape(t: Tree)
    requires Derives(BnfSyntax, "digit", t)
    ensures t.Node? && t.name == "digit" && |t.children| == 1 && t.children[0].Leaf?
    ensures IsDigit(t.children[0].token)
  {
    var alts := DigitRule();
    TokenRuleShape("digit", alts, t);
    DigitAlternative(t.children[0].token);
  }

  lemma DigitAlternative(c: char)
    requires [[c]] in [["0"], ["1"], ["2"], ["3"], ["4"], ["5"], ["6"], ["7"], ["8"], ["9"]]
    ensures IsDigit(c)
  {
  }

  lemma VariableShape(t: Tree)
    requires Derives(BnfSyntax, "variable", t)
    ensures t.Node? && t.name == "variable" && |t.children| == 1 && t.children[0].Leaf?
    ensures IsVariable(t.children[0].token)
  {
    var alts := VariableRule();
    TokenRuleShape("variable", alts, t);
  }

  lemma SumopShape(t: Tree)
    requires Derives(BnfSyntax, "sumop", t)
    ensures t.Node? && t.name == "sumop" && |t.children| == 1 && t.children[0].Leaf?
    ensures IsSumOp(t.children[0].token)
  {
    var alts := SumopRule();
    TokenRuleShape("sumop", alts, t);
  }

  lemma ProdopShape(t: Tree)
    requires Derives(BnfSyntax, "prodop", t)
    ensures t.Node? && t.name == "prodop" && |t.children| == 1 && t.children[0].Leaf?
    ensures IsProdOp(t.children[0].token)
  {
    var alts := ProdopRule();
    TokenRuleShape("prodop", alts, t);
  }

  // ---------------------------------------------------------------------------
  // Digits and constants.

  /** A `digit` node evaluates to the value of its token, under either reading. */
  lemma DigitEvaluates(t: Tree, env: Env, reading: ConstantReading)
    requires Derives(BnfSyntax, "digit", t)
    ensures t.Node? && |t.children| == 1 && t.children[0].Leaf? && IsDigit(t.children[0].token)
    ensures Leaves(t) == [t.children[0].token]
    ensures Eval(t, env, reading) == Ok(IntVal(DigitValue(t.children[0].token)))
  {
    DigitShape(t);
    var c := t.children[0].token;
    assert LeavesOf(t.children) == Leaves(t.children[0]) + LeavesOf([]);
    assert AllDigits([c]);
    assert DigitsValue([c]) == 10 * DigitsValue([]) + DigitValue(c);
  }

  /** The one-child `constant` case of `Eval` passes its child's value through. */
  lemma ConstantSingleStep(dt: Tree, env: Env, reading: ConstantReading)
    ensures Eval(Node("constant", [dt]), env, reading) == Eval(dt, env, reading)
  {
  }

  /** The two-child `constant` case of `Eval` once both children have values. */
  lemma ConstantPairStep(dt: Tree, rt: Tree, env: Env, reading: ConstantReading, a: Value, b: Value)
    requires Eval(dt, env, reading) == Ok(a) && Eval(rt, env, reading) == Ok(b)
    ensures Eval(Node("constant", [dt, rt]), env, reading) == Join(reading, a, b, rt)
  {
  }

  /** Joining two ints positionally shifts the first by the width of the tail. */
  lemma JoinPositional(a: int, b: int, tail: Tree)
    ensures Join(Positional, IntVal(a), IntVal(b), tail) == Ok(IntVal(a * Pow10(|Leaves(tail)|) + b))
  {
  }

  /** Joining two ints as written is numjoin. */
  lemma JoinAsWritten(a: int, b: int, tail: Tree, v: int)
    requires NumJoin(a, b) == Some(v)
    ensures Join(AsWritten, IntVal(a), IntVal(b), tail) == Ok(IntVal(v))
  {
  }

  lemma LeavesOfPair(a: Tree, b: Tree)
    ensures LeavesOf([a, b]) == Leaves(a) + Leaves(b)
  {
    assert [a, b][1..] == [b];
    assert LeavesOf([b]) == Leaves(b) + LeavesOf([]);
  }

  /** The digits of `s` other than '0'. */
  function NonZeroDigits(s: string): (r: string)
    ensures AllDigits(s) ==> AllDigits(r)
    ensures forall k | 0 <= k < |r| :: r[k] != '0'
  {
    if s == [] then [] else (if s[0] == '0' then [] else [s[0]]) + NonZeroDigits(s[1..])
  }

  /**
   * The digits numjoin keeps of a constant's digit string: every '0' before
   * the last digit vanishes, because str() of a tail that starts with zeros
   * prints no leading zero.
   */
  function SurvivingDigits(s: string): string
    requires |s| > 0
  {
    NonZeroDigits(s[..|s| - 1]) + [s[|s| - 1]]
  }

  lemma SurvivingCanonical(s: string)
    requires |s| > 0 && AllDigits(s)
    ensures |SurvivingDigits(s)| > 0 && AllDigits(SurvivingDigits(s))
    ensures SurvivingDigits(s)[0] == '0' ==> |SurvivingDigits(s)| == 1
  {
    var init := s[..|s| - 1];
    assert AllDigits(init);
    var nz := NonZeroDigits(init);
    assert AllDigits(nz + [s[|s| - 1]]);
    if |nz| > 0 {
      assert SurvivingDigits(s)[0] == nz[0];
    }
  }

  lemma SurvivingCons(c: char, r: string)
    requires |r| > 0
    ensures SurvivingDigits([c] + r) == (if c == '0' then [] else [c]) + SurvivingDigits(r)
  {
    var s := [c] + r;
    assert s[..|s| - 1] == [c] + r[..|r| - 1];
    assert ([c] + r[..|r| - 1])[1..] == r[..|r| - 1];
    assert s[|s| - 1] == r[|r| - 1];
  }

  /**
   * A constant as bnf-lang.py evaluates it: numjoin(digit, tail) drops the
   * zeros of the tail's leading digits, so the value is that of the
   * surviving digits ("105" gives 15, "100" gives 10).
   */
  lemma {:induction false} ConstantAsWritten(t: Tree, env: Env)
    requires Derives(BnfSyntax, "constant", t)
    ensures |Leaves(t)| > 0 && AllDigits(Leaves(t))
    ensures Evaluate(t, env) == Ok(IntVal(DigitsValue(SurvivingDigits(Leaves(t)))))
    decreases t, 1
  {
    ConstantShape(t);
    if |t.children| == 1 {
      ConstantSingle(t, env, AsWritten);
    } else {
      ConstantPairAsWritten(t, env);
    }
  }

  /** A one-digit constant has the digit's value under either reading. */
  lemma ConstantSingle(t: Tree, env: Env, reading: ConstantReading)
    requires t.Node? && t.name == "constant" && |t.children| == 1
    requires Derives(BnfSyntax, "digit", t.children[0])
    ensures |Leaves(t)| > 0 && AllDigits(Leaves(t)) && SurvivingDigits(Leaves(t)) == Leaves(t)
    ensures Eval(t, env, reading) == Ok(IntVal(DigitsValue(Leaves(t))))
  {
    var dt := t.children[0];
    DigitEvaluates(dt, env, reading);
    var c := dt.children[0].token;
    assert t == Node("constant", [dt]);
    ConstantSingleStep(dt, env, reading);
    assert LeavesOf(t.children) == Leaves(dt) + LeavesOf([]);
    SingleDigit(c);
  }

  /** The two-child case of `ConstantAsWritten`. */
  lemma {:induction false} ConstantPairAsWritten(t: Tree, env: Env)
    requires t.Node? && t.name == "constant" && |t.children| == 2
    requires Derives(BnfSyntax, "digit", t.children[0]) && Derives(BnfSyntax, "constant", t.children[1])
    ensures |Leaves(t)| > 0 && AllDigits(Leaves(t))
    ensures Evaluate(t, env) == Ok(IntVal(DigitsValue(SurvivingDigits(Leaves(t)))))
    decreases t, 0
  {
    var dt, rt := t.children[0], t.children[1];
    DigitEvaluates(dt, env, AsWritten);
    ConstantAsWritten(rt, env);
    assert t == Node("constant", [dt, rt]);
    PairAsWritten(dt, rt, env, dt.children[0].token, Leaves(rt));
  }

  /** A digit node followed by a constant node whose surviving digits are known. */
  lemma PairAsWritten(dt: Tree, rt: Tree, env: Env, c: char, r: string)
    requires IsDigit(c) && Leaves(dt) == [c] && Eval(dt, env, AsWritten) == Ok(IntVal(DigitValue(c)))
    requires Leaves(rt) == r && |r| > 0 && AllDigits(r)
    requires Eval(rt, env, AsWritten) == Ok(IntVal(DigitsValue(SurvivingDigits(r))))
    ensures Leaves(Node("constant", [dt, rt])) == [c] + r && AllDigits([c] + r)
    ensures Eval(Node("constant", [dt, rt]), env, AsWritten) == Ok(IntVal(DigitsValue(SurvivingDigits([c] + r))))
  {
    LeavesOfPair(dt, rt);
    JoinOntoSurvivors(c, r);
    PrependDigit(c, r);
    var d := DigitValue(c);
    ConstantPairStep(dt, rt, env, AsWritten, IntVal(d), IntVal(DigitsValue(SurvivingDigits(r))));
    JoinAsWritten(d, DigitsValue(SurvivingDigits(r)), rt, DigitsValue(SurvivingDigits([c] + r)));
  }

  /** numjoin of a digit and the value of a tail's surviving digits. */
  lemma JoinOntoSurvivors(c: char, r: string)
    requires IsDigit(c) && |r| > 0 && AllDigits(r)
    ensures AllDigits(SurvivingDigits(r)) && AllDigits(SurvivingDigits([c] + r))
    ensures NumJoin(DigitValue(c), DigitsValue(SurvivingDigits(r))) == Some(DigitsValue(SurvivingDigits([c] + r)))
  {
    if c == '0' {
      JoinZeroOntoSurvivors(r);
    } else {
      JoinDigitOntoSurvivors(c, r);
    }
  }

  /** numjoin(0, b) is b: a leading zero vanishes. */
  lemma JoinZeroOntoSurvivors(r: string)
    requires |r| > 0 && AllDigits(r)
    ensures AllDigits(SurvivingDigits(r)) && AllDigits(SurvivingDigits("0" + r))
    ensures NumJoin(0, DigitsValue(SurvivingDigits(r))) == Some(DigitsValue(SurvivingDigits("0" + r)))
  {
    var v := StrOfSurvivors(r);
    JoinNatural(0, v);
    assert NumJoin(0, v) == Some(v);
    SurvivingCons('0', r);
    assert SurvivingDigits("0" + r) == SurvivingDigits(r);
  }

  /** numjoin(d, b) for a non-zero digit d puts d in front of the printed digits of b. */
  lemma JoinDigitOntoSurvivors(c: char, r: string)
    requires IsDigit(c) && c != '0' && |r| > 0 && AllDigits(r)
    ensures AllDigits(SurvivingDigits(r)) && AllDigits(SurvivingDigits([c] + r))
    ensures NumJoin(DigitValue(c), DigitsValue(SurvivingDigits(r))) == Some(DigitsValue(SurvivingDigits([c] + r)))
  {
    var d := DigitValue(c);
    var surv := SurvivingDigits(r);
    var v := StrOfSurvivors(r);
    JoinNatural(d, v);
    SurvivingCons(c, r);
    PrependDigit(c, surv);
  }

  /** The surviving digits are exactly what str() prints for their value. */
  lemma StrOfSurvivors(r: string) returns (v: nat)
    requires |r| > 0 && AllDigits(r)
    ensures AllDigits(SurvivingDigits(r)) && v == DigitsValue(SurvivingDigits(r))
    ensures Str(v) == SurvivingDigits(r)
  {
    var surv := SurvivingDigits(r);
    SurvivingCanonical(r);
    v := DigitsValue(surv);
    CanonicalDigits(surv);
  }

  /** A constant read positionally evaluates to the decimal value of its digits ("105" gives 105). */
  lemma {:induction false} ConstantPositional(t: Tree, env: Env)
    requires Derives(BnfSyntax, "constant", t)
    ensures |Leaves(t)| > 0 && AllDigits(Leaves(t))
    ensures EvaluateIntended(t, env) == Ok(IntVal(DigitsValue(Leaves(t))))
    decreases t, 1
  {
    ConstantShape(t);
    if |t.children| == 1 {
      ConstantSingle(t, env, Positional);
    } else {
      ConstantPairPositional(t, env);
    }
  }

  /** The two-child case of `ConstantPositional`. */
  lemma {:induction false} ConstantPairPositional(t: Tree, env: Env)
    requires t.Node? && t.name == "constant" && |t.children| == 2
    requires Derives(BnfSyntax, "digit", t.children[0]) && Derives(BnfSyntax, "constant", t.children[1])
    ensures |Leaves(t)| > 0 && AllDigits(Leaves(t))
    ensures EvaluateIntended(t, env) == Ok(IntVal(DigitsValue(Leaves(t))))
    decreases t, 0
  {
    var dt, rt := t.children[0], t.children[1];
    DigitEvaluates(dt, env, Positional);
    ConstantPositional(rt, env);
    assert t == Node("constant", [dt, rt]);
    PairPositional(dt, rt, env, dt.children[0].token, Leaves(rt));
  }

  /** A digit node followed by a constant node whose positional value is known. */
  lemma PairPositional(dt: Tree, rt: Tree, env: Env, c: char, r: string)
    requires IsDigit(c) && Leaves(dt) == [c] && Eval(dt, env, Positional) == Ok(IntVal(DigitValue(c)))
    requires Leaves(rt) == r && AllDigits(r)
    requires Eval(rt, env, Positional) == Ok(IntVal(DigitsValue(r)))
    ensures Leaves(Node("constant", [dt, rt])) == [c] + r && AllDigits([c] + r)
    ensures Eval(Node("constant", [dt, rt]), env, Positional) == Ok(IntVal(DigitsValue([c] + r)))
  {
    LeavesOfPair(dt, rt);
    ConstantPairStep(dt, rt, env, Positional, IntVal(DigitValue(c)), IntVal(DigitsValue(r)));
    JoinPositional(DigitValue(c), DigitsValue(r), rt);
    PrependDigit(c, r);
  }

  lemma SingleDigit(c: char)
    requires IsDigit(c)
    ensures AllDigits([c]) && DigitsValue([c]) == DigitValue(c) && SurvivingDigits([c]) == [c]
  {
    assert [c][..0] == [];
  }

  lemma PrependDigit(c: char, r: string)
    requires IsDigit(c) && AllDigits(r)
    ensures AllDigits([c] + r)
    ensures DigitsValue([c] + r) == DigitValue(c) * Pow10(|r|) + DigitsValue(r)
  {
    var d := DigitValue(c);
    assert [c][..0] == [];
    assert DigitsValue([c]) == d;
    DigitsValueAppend([c], r);
    assert DigitsValue([c] + r) == DigitsValue([c]) * Pow10(|r|) + DigitsValue(r);
  }

  // ---------------------------------------------------------------------------
  // No TypeError on trees the grammar derives.

  /** Every binding of `x`, `y` and `z` is a number. */
  predicate NumericEnv(env: Env)
  {
    forall c | c in env :: IsNumber(env[c])
  }

  /**
   * What evaluating a derived tree may end in: a number, a division by zero,
   * or a NameError for a variable the environment does not bind; never a
   * TypeError or ValueError.
   */
  predicate NumericOutcome(r: Result<Value, EvalError>, env: Env)
  {
    && (r.Ok? ==> IsNumber(r.value))
    && (r.Err? ==> r.error == DivisionByZero || (r.error.Unbound? && r.error.name in {'x', 'y', 'z'} && r.error.name !in env))
  }

  /** Calling one of the four operators on two numbers gives a number, or fails on a zero divisor. */
  lemma ApplyNumbers(op: BinOp, a: Value, b: Value)
    requires IsNumber(a) && IsNumber(b)
    ensures Apply(OpVal(op), a, b).Ok? ==> IsNumber(Apply(OpVal(op), a, b).value)
    ensures Apply(OpVal(op), a, b).Err? <==> op == TrueDiv && AsReal(b) == 0.0
    ensures Apply(OpVal(op), a, b).Err? ==> Apply(OpVal(op), a, b).error == DivisionByZero
    ensures a.IntVal? && b.IntVal? && op != TrueDiv ==> Apply(OpVal(op), a, b).value.IntVal?
  {
  }

  /** `sumop` and `prodop` nodes evaluate to their operator. */
  lemma OperatorEvaluates(name: Symbol, t: Tree, env: Env, reading: ConstantReading)
    requires name in {"sumop", "prodop"}
    requires Derives(BnfSyntax, name, t)
    ensures Eval(t, env, reading).Ok? && Eval(t, env, reading).value.OpVal?
    ensures name == "sumop" ==> Eval(t, env, reading).value.op in {Add, Sub}
    ensures name == "prodop" ==> Eval(t, env, reading).value.op in {Mul, TrueDiv}
  {
    if name == "sumop" {
      SumopShape(t);
    } else {
      ProdopShape(t);
    }
  }

  /** A `variable` node reads its variable from the environment. */
  lemma VariableEvaluates(t: Tree, env: Env, reading: ConstantReading)
    requires Derives(BnfSyntax, "variable", t)
    ensures t.Node? && |t.children| == 1 && t.children[0].Leaf?
    ensures Eval(t, env, reading) == Lookup(env, t.children[0].token)
  {
    VariableShape(t);
  }

  /** The three-child `expression`/`term` case once the operator node has evaluated to an operator. */
  lemma BinaryTripleStep(name: Symbol, a: Tree, o: Tree, b: Tree, env: Env, reading: ConstantReading, op: BinOp)
    requires name in {"expression", "term"}
    requires Eval(o, env, reading) == Ok(OpVal(op))
    ensures Eval(Node(name, [a, o, b]), env, reading)
         == if Eval(a, env, reading).Err? then Eval(a, env, reading)
            else if Eval(b, env, reading).Err? then Eval(b, env, reading)
            else Apply(OpVal(op), Eval(a, env, reading).value, Eval(b, env, reading).value)
  {
  }

  /** The one-child `expression`/`term` case passes its child's value through. */
  lemma BinarySingleStep(name: Symbol, a: Tree, env: Env, reading: ConstantReading)
    requires name in {"expression", "term"}
    ensures Eval(Node(name, [a]), env, reading) == Eval(a, env, reading)
  {
  }

  lemma {:induction false} ExpressionOutcome(t: Tree, env: Env, reading: ConstantReading)
    requires Derives(BnfSyntax, "expression", t) && NumericEnv(env)
    ensures NumericOutcome(Eval(t, env, reading), env)
    decreases t, 3
  {
    ExpressionShape(t);
    if |t.children| == 1 {
      var a := t.children[0];
      TermOutcome(a, env, reading);
      assert t == Node("expression", [a]);
      BinarySingleStep("expression", a, env, reading);
    } else {
      ExpressionTripleOutcome(t, env, reading);
    }
  }

  lemma {:induction false} ExpressionTripleOutcome(t: Tree, env: Env, reading: ConstantReading)
    requires t.Node? && t.name == "expression" && |t.children| == 3 && NumericEnv(env)
    requires Derives(BnfSyntax, "term", t.children[0])
    requires Derives(BnfSyntax, "sumop", t.children[1])
    requires Derives(BnfSyntax, "expression", t.children[2])
    ensures NumericOutcome(Eval(t, env, reading), env)
    decreases t, 2
  {
    var a, o, b := t.children[0], t.children[1], t.children[2];
    assert t == Node("expression", [a, o, b]);
    TermOutcome(a, env, reading);
    OperatorEvaluates("sumop", o, env, reading);
    ExpressionOutcome(b, env, reading);
    ApplyStep("expression", a, o, b, env, reading);
  }

  lemma {:induction false} TermOutcome(t: Tree, env: Env, reading: ConstantReading)
    requires Derives(BnfSyntax, "term", t) && NumericEnv(env)
    ensures NumericOutcome(Eval(t, env, reading), env)
    decreases t, 3
  {
    TermShape(t);
    if |t.children| == 1 {
      var a := t.children[0];
      FactorOutcome(a, env, reading);
      assert t == Node("term", [a]);
      BinarySingleStep("term", a, env, reading);
    } else {
      TermTripleOutcome(t, env, reading);
    }
  }

  lemma {:induction false} TermTripleOutcome(t: Tree, env: Env, reading: ConstantReading)
    requires t.Node? && t.name == "term" && |t.children| == 3 && NumericEnv(env)
    requires Derives(BnfSyntax, "factor", t.children[0])
    requires Derives(BnfSyntax, "prodop", t.children[1])
    requires Derives(BnfSyntax, "term", t.children[2])
    ensures NumericOutcome(Eval(t, env, reading), env)
    decreases t, 2
  {
    var a, o, b := t.children[0], t.children[1], t.children[2];
    assert t == Node("term", [a, o, b]);
    FactorOutcome(a, env, reading);
    OperatorEvaluates("prodop", o, env, reading);
    TermOutcome(b, env, reading);
    ApplyStep("term", a, o, b, env, reading);
  }

  /** Operator and operands with numeric outcomes give the three-child node a numeric outcome. */
  lemma ApplyStep(name: Symbol, a: Tree, o: Tree, b: Tree, env: Env, reading: ConstantReading)
    requires name in {"expression", "term"}
    requires Eval(o, env, reading).Ok? && Eval(o, env, reading).value.OpVal?
    requires NumericOutcome(Eval(a, env, reading), env) && NumericOutcome(Eval(b, env, reading), env)
    ensures NumericOutcome(Eval(Node(name, [a, o, b]), env, reading), env)
  {
    var op := Eval(o, env, reading).value.op;
    BinaryTripleStep(name, a, o, b, env, reading, op);
    if Eval(a, env, reading).Ok? && Eval(b, env, reading).Ok? {
      ApplyNumbers(op, Eval(a, env, reading).value, Eval(b, env, reading).value);
    }
  }

  lemma FactorStep(t: Tree, env: Env, reading: ConstantReading)
    requires t.Node? && t.name == "factor"
    ensures Eval(t, env, reading) == EvalFactor(t, env, reading)
  {
  }

  lemma {:induction false} FactorOutcome(t: Tree, env: Env, reading: ConstantReading)
    requires Derives(BnfSyntax, "factor", t) && NumericEnv(env)
    ensures NumericOutcome(Eval(t, env, reading), env)
    decreases t, 1
  {
    var n := FactorShape(t);
    FactorStep(t, env, reading);
    if n == 0 {
      ConstantOutcome(t.children[0], env, reading);
    } else if n == 1 {
      VariableEvaluates(t.children[0], env, reading);
    } else {
      ExpressionOutcome(t.children[1], env, reading);
    }
  }

  /** A constant evaluates to a non-negative int under either reading. */
  lemma ConstantOutcome(t: Tree, env: Env, reading: ConstantReading)
    requires Derives(BnfSyntax, "constant", t)
    ensures t.Node? && t.name == "constant"
    ensures Eval(t, env, reading).Ok? && Eval(t, env, reading).value.IntVal? && Eval(t, env, reading).value.i >= 0
  {
    ConstantShape(t);
    if reading == AsWritten {
      ConstantAsWritten(t, env);
    } else {
      ConstantPositional(t, env);
    }
  }

  /**
   * Every tree parse_expression returns evaluates, under a numeric
   * environment, to a number, a ZeroDivisionError or a NameError for an
   * unbound variable: it never reaches a TypeError branch of evaluate.
   */
  lemma ParsedTreesNeverMalformed(s: string, env: Env, reading: ConstantReading)
    requires NumericEnv(env)
    ensures ParseExpression(s).Some? ==> NumericOutcome(Eval(ParseExpression(s).value, env, reading), env)
  {
    ParseExpressionSound(s);
    if ParseExpression(s).Some? {
      ExpressionOutcome(ParseExpression(s).value, env, reading);
    }
  }

  /** Labels and shapes outside the grammar are a TypeError or ValueError (`Malformed`); a bare token fails to unpack. */
  lemma ForeignShapesAreMalformed(t: Tree, env: Env, reading: ConstantReading)
    ensures t.Leaf? ==> Eval(t, env, reading) == Err(Malformed)
    ensures t.Node? && t.name !in BnfSyntax ==> Eval(t, env, reading) == Err(Malformed)
    ensures t.Node? && t.name in {"expression", "term"} && |t.children| !in {1, 3} ==> Eval(t, env, reading) == Err(Malformed)
    ensures t.Node? && t.name == "constant" && |t.children| !in {1, 2} ==> Eval(t, env, reading) == Err(Malformed)
    ensures t.Node? && t.name in {"sumop", "prodop", "variable", "digit"} && |t.children| != 1 ==> Eval(t, env, reading) == Err(Malformed)
    ensures t.Node? && t.name == "factor" && |t.children| !in {1, 3} ==> Eval(t, env, reading) == Err(Malformed)
  {
    if t.Node? && t.name !in BnfSyntax {
      assert t.name !in {"expression", "term", "sumop", "prodop", "factor", "variable", "constant", "digit"};
    }
  }
}
