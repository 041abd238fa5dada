/**
 * A deterministic reading of `BnfSyntax`, and the proof that the
 * backtracking parser computes exactly it. For this grammar,
 * retrying `[term]` after `[term, sumop, expression]` fails re-parses the same
 * term, so backtracking amounts to: take the longest run of digits, and
 * continue an expression (a term) only when an operator token follows and
 * the rest after it parses.
 */
module ArithmeticParser {
  import opened Wrappers
  import opened Grammar
  import opened Parser
  import opened Numerals

  predicate IsVariable(c: char) { c == 'x' || c == 'y' || c == 'z' }
  predicate IsSumOp(c: char) { c == '+' || c == '-' }
  predicate IsProdOp(c: char) { c == '*' || c == '/' }

  /** A node of a rule whose alternatives are single tokens. */
  function TokenNode(name: string, c: char): Tree { Node(name, [Leaf(c)]) }

  /** The longest run of digits starting at `j`, as a right-nested `constant` tree. */
  function ConstantAt(toks: string, j: nat): (res: Option<Match>)
    requires j <= |toks|
    ensures res.Some? <==> j < |toks| && IsDigit(toks[j])
    ensures res.Some? ==> j < res.value.end <= |toks|
    ensures res.Some? ==> AllDigits(toks[j..res.value.end])
    ensures res.Some? ==> res.value.end == |toks| || !IsDigit(toks[res.value.end])
    decreases |toks| - j
  {
    if j < |toks| && IsDigit(toks[j]) then
      match ConstantAt(toks, j + 1)
      case Some(rest) => Some(Match(rest.end, Node("constant", [TokenNode("digit", toks[j]), rest.tree])))
      case None => Some(Match(j + 1, Node("constant", [TokenNode("digit", toks[j])])))
    else
      None
  }

  function ExpressionAt(toks: string, j: nat): (res: Option<Match>)
    requires j <= |toks|
    ensures res.Some? ==> j < res.value.end <= |toks|
    decreases |toks| - j, 2
  {
    match TermAt(toks, j)
    case None => None
    case Some(t) =>
      var single := Some(Match(t.end, Node("expression", [t.tree])));
      if t.end < |toks| && IsSumOp(toks[t.end]) then
        match ExpressionAt(toks, t.end + 1)
        case None => single
        case Some(e) => Some(Match(e.end, Node("expression", [t.tree, TokenNode("sumop", toks[t.end]), e.tree])))
      else
        single
  }

  function TermAt(toks: string, j: nat): (res: Option<Match>)
    requires j <= |toks|
    ensures res.Some? ==> j < res.value.end <= |toks|
    decreases |toks| - j, 1
  {
    match FactorAt(toks, j)
    case None => None
    case Some(f) =>
      var single := Some(Match(f.end, Node("term", [f.tree])));
      if f.end < |toks| && IsProdOp(toks[f.end]) then
        match TermAt(toks, f.end + 1)
        case None => single
        case Some(t) => Some(Match(t.end, Node("term", [f.tree, TokenNode("prodop", toks[f.end]), t.tree])))
      else
        single
  }

  function FactorAt(toks: string, j: nat): (res: Option<Match>)
    requires j <= |toks|
    ensures res.Some? ==> j < res.value.end <= |toks|
    decreases |toks| - j, 0
  {
    if j == |toks| then
      None
    else if IsDigit(toks[j]) then
      var c := ConstantAt(toks, j).value;
      Some(Match(c.end, Node("factor", [c.tree])))
    else if IsVariable(toks[j]) then
      Some(Match(j + 1, Node("factor", [TokenNode("variable", toks[j])])))
    else if toks[j] == '(' then
      match ExpressionAt(toks, j + 1)
      case None => None
      case Some(e) =>
        if e.end < |toks| && toks[e.end] == ')' then
          Some(Match(e.end + 1, Node("factor", [Leaf('('), e.tree, Leaf(')')])))
        else
          None
    else
      None
  }
}

/**
 * The backtracking parser of `Parser`, applied to `BnfSyntax`, returns exactly
 * what the deterministic functions of `ArithmeticParser` return, for every
 * input and every start position.
 */
module ArithmeticAgreement {
  import opened Wrappers
  import opened Grammar
  import opened Parser
  import opened RuleSteps
  import opened Numerals
  import opened ArithmeticParser

  /** A rule of `BnfSyntax` whose alternatives are single one-character tokens. */
  lemma TokenRule(name: Symbol, toks: string, j: nat)
    requires name in BnfSyntax && j <= |toks|
    requires forall n | 0 <= n < |BnfSyntax[name]| :: |BnfSyntax[name][n]| == 1 && |BnfSyntax[name][n][0]| == 1
    ensures Disciplined(BnfSyntax, BnfDiscipline)
    ensures Parse(BnfSyntax, BnfDiscipline, toks, j, name) ==
      if j < |toks| && [[toks[j]]] in BnfSyntax[name] then Some(Match(j + 1, TokenNode(name, toks[j]))) else None
  {
    BnfSyntaxDisciplined();
    OneCharSymbolsAreTerminals();
    assert BnfSyntax[name][0..] == BnfSyntax[name];
    SingleTokens(BnfSyntax, BnfDiscipline, toks, j, name, 0);
  }

  lemma SumopAgrees(toks: string, j: nat)
    requires j <= |toks|
    ensures Disciplined(BnfSyntax, BnfDiscipline)
    ensures Parse(BnfSyntax, BnfDiscipline, toks, j, "sumop") ==
      if j < |toks| && IsSumOp(toks[j]) then Some(Match(j + 1, TokenNode("sumop", toks[j]))) else None
  {
    assert BnfSyntax["sumop"] == [["+"], ["-"]];
    TokenRule("sumop", toks, j);
  }

  lemma ProdopAgrees(toks: string, j: nat)
    requires j <= |toks|
    ensures Disciplined(BnfSyntax, BnfDiscipline)
    ensures Parse(BnfSyntax, BnfDiscipline, toks, j, "prodop") ==
      if j < |toks| && IsProdOp(toks[j]) then Some(Match(j + 1, TokenNode("prodop", toks[j]))) else None
  {
    assert BnfSyntax["prodop"] == [["*"], ["/"]];
    TokenRule("prodop", toks, j);
  }

  lemma VariableAgrees(toks: string, j: nat)
    requires j <= |toks|
    ensures Disciplined(BnfSyntax, BnfDiscipline)
    ensures Parse(BnfSyntax, BnfDiscipline, toks, j, "variable") ==
      if j < |toks| && IsVariable(toks[j]) then Some(Match(j + 1, TokenNode("variable", toks[j]))) else None
  {
    assert BnfSyntax["variable"] == [["x"], ["y"], ["z"]];
    TokenRule("variable", toks, j);
  }

  lemma DigitAgrees(toks: string, j: nat)
    requires j <= |toks|
    ensures Disciplined(BnfSyntax, BnfDiscipline)
    ensures Parse(BnfSyntax, BnfDiscipline, toks, j, "digit") ==
      if j < |toks| && IsDigit(toks[j]) then Some(Match(j + 1, TokenNode("digit", toks[j]))) else None
  {
    assert BnfSyntax["digit"] == [["0"], ["1"], ["2"], ["3"], ["4"], ["5"], ["6"], ["7"], ["8"], ["9"]];
    TokenRule("digit", toks, j);
  }

  /** The backtracking parse of `constant` is the longest run of digits. */
  lemma {:induction false} ConstantAgrees(toks: string, j: nat)
    requires j <= |toks|
    ensures Disciplined(BnfSyntax, BnfDiscipline)
    ensures Parse(BnfSyntax, BnfDiscipline, toks, j, "constant") == ConstantAt(toks, j)
    decreases |toks| - j
  {
    BnfSyntaxDisciplined();
    var g, d := BnfSyntax, BnfDiscipline;
    assert g["constant"] == [["digit", "constant"], ["digit"]];
    OrderedPair(g, d, toks, j, "constant");
    RuleOfTwo(g, d, toks, j, "constant", g["constant"][0]);
    RuleOfOne(g, d, toks, j, "constant", g["constant"][1]);
    DigitAgrees(toks, j);
    if j < |toks| && IsDigit(toks[j]) {
      ConstantAgrees(toks, j + 1);
    }
  }

  /** A rule of three alternatives, over any disciplined grammar: each is tried only when those before it fail. */
  lemma OrderedTriple(g: Grammar, d: Discipline, toks: string, j: nat, name: Symbol)
    requires Disciplined(g, d) && name in g && j <= |toks| && |g[name]| == 3
    ensures Parse(g, d, toks, j, name) ==
      match ParseRule(g, d, toks, j, name, g[name][0], 0, j)
      case Some(sm) => Some(Match(sm.end, Node(name, sm.trees)))
      case None =>
        match ParseRule(g, d, toks, j, name, g[name][1], 0, j)
        case Some(sm) => Some(Match(sm.end, Node(name, sm.trees)))
        case None =>
          match ParseRule(g, d, toks, j, name, g[name][2], 0, j)
          case Some(sm) => Some(Match(sm.end, Node(name, sm.trees)))
          case None => None
  {
    assert ParseAlternatives(g, d, toks, j, name, 3) == None;
    assert ParseAlternatives(g, d, toks, j, name, 2) ==
      match ParseRule(g, d, toks, j, name, g[name][2], 0, j)
      case Some(sm) => Some(Match(sm.end, Node(name, sm.trees)))
      case None => None;
    assert ParseAlternatives(g, d, toks, j, name, 1) ==
      match ParseRule(g, d, toks, j, name, g[name][1], 0, j)
      case Some(sm) => Some(Match(sm.end, Node(name, sm.trees)))
      case None => ParseAlternatives(g, d, toks, j, name, 2);
    assert Parse(g, d, toks, j, name) == ParseAlternatives(g, d, toks, j, name, 0);
  }

  /**
   * A rule `name ::= operand operator name | operand`: the backtracking
   * parse reads the operand once; it continues with the operator and the
   * rest only when both parse, and otherwise keeps the operand alone.
   */
  lemma BinaryChoice(g: Grammar, d: Discipline, toks: string, j: nat, name: Symbol, operand: Symbol, operator: Symbol)
    requires Disciplined(g, d) && name in g && operand in g && operator in g && j <= |toks|
    requires g[name] == [[operand, operator, name], [operand]]
    ensures Parse(g, d, toks, j, name) ==
      match Parse(g, d, toks, j, operand)
      case None => None
      case Some(a) =>
        match Parse(g, d, toks, a.end, operator)
        case None => Some(Match(a.end, Node(name, [a.tree])))
        case Some(o) =>
          match Parse(g, d, toks, o.end, name)
          case None => Some(Match(a.end, Node(name, [a.tree])))
          case Some(r) => Some(Match(r.end, Node(name, [a.tree, o.tree, r.tree])))
  {
    OrderedPair(g, d, toks, j, name);
    var alt0, alt1 := g[name][0], g[name][1];
    RuleOfThree(g, d, toks, j, name, alt0);
    RuleOfOne(g, d, toks, j, name, alt1);
    assert ParsePart(g, d, toks, j, operand) == Parse(g, d, toks, j, operand);
    match Parse(g, d, toks, j, operand)
    case None =>
    case Some(a) =>
      assert ParsePart(g, d, toks, a.end, operator) == Parse(g, d, toks, a.end, operator);
      match Parse(g, d, toks, a.end, operator)
      case None =>
      case Some(o) =>
        assert ParsePart(g, d, toks, o.end, name) == Parse(g, d, toks, o.end, name);
  }

  /** A rule of two alternatives, over any disciplined grammar: the second is tried only when the first fails. */
  lemma OrderedPair(g: Grammar, d: Discipline, toks: string, j: nat, name: Symbol)
    requires Disciplined(g, d) && name in g && j <= |toks| && |g[name]| == 2
    ensures Parse(g, d, toks, j, name) ==
      match ParseRule(g, d, toks, j, name, g[name][0], 0, j)
      case Some(sm) => Some(Match(sm.end, Node(name, sm.trees)))
      case None =>
        match ParseRule(g, d, toks, j, name, g[name][1], 0, j)
        case Some(sm) => Some(Match(sm.end, Node(name, sm.trees)))
        case None => None
  {
    assert ParseAlternatives(g, d, toks, j, name, 2) == None;
    assert ParseAlternatives(g, d, toks, j, name, 1) ==
      match ParseRule(g, d, toks, j, name, g[name][1], 0, j)
      case Some(sm) => Some(Match(sm.end, Node(name, sm.trees)))
      case None => None;
    assert Parse(g, d, toks, j, name) == ParseAlternatives(g, d, toks, j, name, 0);
  }

  /** The backtracking parse of `expression` at any position equals `ExpressionAt`. */
  lemma {:induction false} ExpressionAgrees(toks: string, j: nat)
    requires j <= |toks|
    ensures Disciplined(BnfSyntax, BnfDiscipline)
    ensures Parse(BnfSyntax, BnfDiscipline, toks, j, "expression") == ExpressionAt(toks, j)
    decreases |toks| - j, 3
  {
    BnfSyntaxDisciplined();
    var _ := ExpressionRule();
    var _ := TermRule();
    var _ := SumopRule();
    BinaryChoice(BnfSyntax, BnfDiscipline, toks, j, "expression", "term", "sumop");
    TermAgrees(toks, j);
    match TermAt(toks, j)
    case None =>
    case Some(t) =>
      SumopAgrees(toks, t.end);
      if t.end < |toks| && IsSumOp(toks[t.end]) {
        ExpressionAgrees(toks, t.end + 1);
      }
  }

  /** The backtracking parse of `term` at any position equals `TermAt`. */
  lemma {:induction false} TermAgrees(toks: string, j: nat)
    requires j <= |toks|
    ensures Disciplined(BnfSyntax, BnfDiscipline)
    ensures Parse(BnfSyntax, BnfDiscipline, toks, j, "term") == TermAt(toks, j)
    decreases |toks| - j, 2
  {
    BnfSyntaxDisciplined();
    var _ := TermRule();
    var _ := FactorRule();
    var _ := ProdopRule();
    BinaryChoice(BnfSyntax, BnfDiscipline, toks, j, "term", "factor", "prodop");
    FactorAgrees(toks, j);
    match FactorAt(toks, j)
    case None =>
    case Some(f) =>
      ProdopAgrees(toks, f.end);
      if f.end < |toks| && IsProdOp(toks[f.end]) {
        TermAgrees(toks, f.end + 1);
      }
  }

  /**
   * A rule `name ::= first | second | open inner close`: the first
   * alternative that parses wins, the bracketed one needs both brackets.
   */
  lemma SingleOrBracketedChoice(g: Grammar, d: Discipline, toks: string, j: nat, name: Symbol,
                                first: Symbol, second: Symbol, inner: Symbol, open: char, close: char)
    requires Disciplined(g, d) && name in g && first in g && second in g && inner in g && j <= |toks|
    requires [open] !in g && [close] !in g
    requires g[name] == [[first], [second], [[open], inner, [close]]]
    ensures Parse(g, d, toks, j, name) ==
      match Parse(g, d, toks, j, first)
      case Some(a) => Some(Match(a.end, Node(name, [a.tree])))
      case None =>
        match Parse(g, d, toks, j, second)
        case Some(b) => Some(Match(b.end, Node(name, [b.tree])))
        case None =>
          if j < |toks| && toks[j] == open then
            match Parse(g, d, toks, j + 1, inner)
            case None => None
            case Some(m) =>
              if m.end < |toks| && toks[m.end] == close then Some(Match(m.end + 1, Node(name, [Leaf(open), m.tree, Leaf(close)])))
              else None
          else None
  {
    OrderedTriple(g, d, toks, j, name);
    RuleOfOne(g, d, toks, j, name, g[name][0]);
    RuleOfOne(g, d, toks, j, name, g[name][1]);
    Bracketed(g, d, toks, j, name, g[name][2], open, close);
    assert ParsePart(g, d, toks, j, first) == Parse(g, d, toks, j, first);
    assert ParsePart(g, d, toks, j, second) == Parse(g, d, toks, j, second);
    if j < |toks| {
      assert ParsePart(g, d, toks, j + 1, inner) == Parse(g, d, toks, j + 1, inner);
    }
  }

  /** `factor` of `BnfSyntax` as ordered choice: constant, variable, parenthesized expression. */
  lemma FactorChoice(toks: string, j: nat)
    requires j <= |toks|
    ensures Disciplined(BnfSyntax, BnfDiscipline)
    ensures Parse(BnfSyntax, BnfDiscipline, toks, j, "factor") ==
      match Parse(BnfSyntax, BnfDiscipline, toks, j, "constant")
      case Some(a) => Some(Match(a.end, Node("factor", [a.tree])))
      case None =>
        match Parse(BnfSyntax, BnfDiscipline, toks, j, "variable")
        case Some(b) => Some(Match(b.end, Node("factor", [b.tree])))
        case None =>
          if j < |toks| && toks[j] == '(' then
            match Parse(BnfSyntax, BnfDiscipline, toks, j + 1, "expression")
            case None => None
            case Some(m) =>
              if m.end < |toks| && toks[m.end] == ')' then Some(Match(m.end + 1, Node("factor", [Leaf('('), m.tree, Leaf(')')])))
              else None
          else None
  {
    BnfSyntaxDisciplined();
    var _ := FactorRule();
    var _ := ConstantRule();
    var _ := VariableRule();
    var _ := ExpressionRule();
    assert "(" !in BnfSyntax && ")" !in BnfSyntax by {
      OneCharSymbolsAreTerminals();
    }
    SingleOrBracketedChoice(BnfSyntax, BnfDiscipline, toks, j, "factor", "constant", "variable", "expression", '(', ')');
  }

  /** The backtracking parse of `factor` at any position equals `FactorAt`. */
  lemma {:induction false} FactorAgrees(toks: string, j: nat)
    requires j <= |toks|
    ensures Disciplined(BnfSyntax, BnfDiscipline)
    ensures Parse(BnfSyntax, BnfDiscipline, toks, j, "factor") == FactorAt(toks, j)
    decreases |toks| - j, 1
  {
    FactorChoice(toks, j);
    ConstantAgrees(toks, j);
    if j < |toks| && IsDigit(toks[j]) {
      return;
    }
    VariableAgrees(toks, j);
    if j < |toks| && IsVariable(toks[j]) {
      return;
    }
    if j < |toks| && toks[j] == '(' {
      ExpressionAgrees(toks, j + 1);
    }
  }

  /**
   * parse_expression: the tree the backtracking parser returns for the whole
   * input is the one `ExpressionAt` builds from position 0.
   */
  lemma ParseExpressionAgrees(s: string)
    ensures ParseExpression(s) == match ExpressionAt(s, 0) case None => None case Some(m) => Some(m.tree)
  {
    ExpressionAgrees(s, 0);
  }
}
