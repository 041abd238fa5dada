/**
 * Grammars, syntax trees and the fixed arithmetic grammar `bnf_syntax`.
 *
 * A grammar maps a rule name to its ordered list of alternatives; an
 * alternative is a list of symbols. A symbol that is a key of the grammar is a
 * non-terminal, every other symbol is a terminal that must equal the current
 * one-character token.
 */
module Grammar {

  type Symbol = string
  type Alternative = seq<Symbol>
  type Grammar = map<Symbol, seq<Alternative>>

  /** A parse tree: a bare token, or a rule name with one child per symbol of the matched alternative. */
  datatype Tree = Leaf(token: char) | Node(name: string, children: seq<Tree>)

  /** The tokens of a tree, read left to right. */
  function Leaves(t: Tree): string
  {
    match t
    case Leaf(c) => [c]
    case Node(_, kids) => LeavesOf(kids)
  }

  function LeavesOf(ts: seq<Tree>): string
  {
    if ts == [] then [] else Leaves(ts[0]) + LeavesOf(ts[1..])
  }

  /** The executable grammar of the arithmetic language (right-recursive, `-` and `/` included). */
  const BnfSyntax: Grammar := map[
    "expression" := [["term", "sumop", "expression"], ["term"]],
    "sumop" := [["+"], ["-"]],
    "term" := [["factor", "prodop", "term"], ["factor"]],
    "prodop" := [["*"], ["/"]],
    "factor" := [["constant"], ["variable"], ["(", "expression", ")"]],
    "variable" := [["x"], ["y"], ["z"]],
    "constant" := [["digit", "constant"], ["digit"]],
    "digit" := [["0"], ["1"], ["2"], ["3"], ["4"], ["5"], ["6"], ["7"], ["8"], ["9"]]
  ]

  /**
   * `t` is a derivation of symbol `sym` in `g`: a terminal derives the leaf
   * holding exactly that token; a rule derives a node carrying its name whose
   * children derive, one by one, the symbols of one of its alternatives.
   */
  ghost predicate Derives(g: Grammar, sym: Symbol, t: Tree)
    decreases t
  {
    match t
    case Leaf(c) => sym !in g && sym == [c]
    case Node(name, kids) =>
      && sym in g
      && name == sym
      && exists n | 0 <= n < |g[sym]| ::
           && |g[sym][n]| == |kids|
           && forall k | 0 <= k < |kids| :: Derives(g, g[sym][n][k], kids[k])
  }

  /**
   * What makes recursive descent terminate on a grammar. Every rule has a
   * rank; the rules in `solid` consume at least one token whenever they
   * succeed. A non-terminal may be entered at the position where its caller
   * started only if its rank is smaller than the caller's; once a terminal or
   * a solid rule has been passed, any rule may follow.
   */
  datatype Discipline = Discipline(rank: map<Symbol, nat>, solid: set<Symbol>)

  /** Parsing `sym` successfully always consumes a token. */
  predicate Advances(g: Grammar, d: Discipline, sym: Symbol)
  {
    sym !in g || sym in d.solid
  }

  /** Some symbol among the first `k` of `alt` always consumes a token. */
  predicate AdvancesWithin(g: Grammar, d: Discipline, alt: Alternative, k: nat)
    requires k <= |alt|
  {
    k > 0 && (Advances(g, d, alt[k - 1]) || AdvancesWithin(g, d, alt, k - 1))
  }

  /** Alternative `alt` of rule `r` only re-enters lower-ranked rules before it has consumed a token. */
  predicate AlternativeGuarded(g: Grammar, d: Discipline, r: Symbol, alt: Alternative)
    requires r in d.rank && g.Keys <= d.rank.Keys
  {
    forall k | 0 <= k < |alt| && alt[k] in g && !AdvancesWithin(g, d, alt, k) ::
      d.rank[alt[k]] < d.rank[r]
  }

  predicate RuleDisciplined(g: Grammar, d: Discipline, r: Symbol)
    requires r in g && g.Keys <= d.rank.Keys
  {
    forall n | 0 <= n < |g[r]| ::
      && AlternativeGuarded(g, d, r, g[r][n])
      && (r in d.solid ==> AdvancesWithin(g, d, g[r][n], |g[r][n]|))
  }

  predicate Disciplined(g: Grammar, d: Discipline)
  {
    && g.Keys <= d.rank.Keys
    && d.solid <= g.Keys
    && forall r | r in g :: RuleDisciplined(g, d, r)
  }

  /** The ranks used for `BnfSyntax`: every rule consumes a token. */
  const BnfDiscipline: Discipline := Discipline(
    map[
      "digit" := 0, "variable" := 0, "sumop" := 0, "prodop" := 0,
      "constant" := 1, "factor" := 2, "term" := 3, "expression" := 4
    ],
    {"expression", "sumop", "term", "prodop", "factor", "variable", "constant", "digit"}
  )

  /** The fixed grammar never recurses without consuming input, so parsing with it terminates. */
  lemma BnfSyntaxDisciplined()
    ensures Disciplined(BnfSyntax, BnfDiscipline)
  {
    forall r | r in BnfSyntax
      ensures RuleDisciplined(BnfSyntax, BnfDiscipline, r)
    {
      BnfRuleDisciplined(r);
    }
  }

  lemma BnfRuleDisciplined(r: Symbol)
    requires r in BnfSyntax
    ensures BnfSyntax.Keys <= BnfDiscipline.rank.Keys
    ensures RuleDisciplined(BnfSyntax, BnfDiscipline, r)
  {
    BnfRanked();
    if r == "expression" {
      BinaryRuleDisciplined("expression", "term", "sumop");
    } else if r == "term" {
      BinaryRuleDisciplined("term", "factor", "prodop");
    } else if r == "factor" {
      FactorDisciplined();
    } else if r == "constant" {
      ConstantDisciplined();
    } else {
      TokenRuleDisciplined(r);
    }
  }

  lemma BnfRanked()
    ensures BnfSyntax.Keys == BnfDiscipline.rank.Keys == BnfDiscipline.solid
  {
  }

  /** `expression` and `term`: a lower operand, an operator rule, then the rule itself. */
  lemma BinaryRuleDisciplined(r: Symbol, operand: Symbol, operator: Symbol)
    requires (r, operand, operator) in {("expression", "term", "sumop"), ("term", "factor", "prodop")}
    ensures BnfSyntax.Keys <= BnfDiscipline.rank.Keys
    ensures RuleDisciplined(BnfSyntax, BnfDiscipline, r)
  {
    BnfRanked();
    var _ := ExpressionRule();
    var _ := TermRule();
    BinaryShapeDisciplined(BnfSyntax, BnfDiscipline, r, operand, operator);
  }

  /** A rule `r ::= operand operator r | operand` whose operand ranks below it, in any grammar. */
  lemma BinaryShapeDisciplined(g: Grammar, d: Discipline, r: Symbol, operand: Symbol, operator: Symbol)
    requires g.Keys <= d.rank.Keys && r in g && operand in g && operator in g
    requires g[r] == [[operand, operator, r], [operand]]
    requires r in d.solid && operand in d.solid && d.rank[operand] < d.rank[r]
    ensures RuleDisciplined(g, d, r)
  {
    assert AdvancesWithin(g, d, g[r][0], 1);
    assert AdvancesWithin(g, d, g[r][0], 2);
  }

  lemma FactorDisciplined()
    ensures BnfSyntax.Keys <= BnfDiscipline.rank.Keys
    ensures RuleDisciplined(BnfSyntax, BnfDiscipline, "factor")
  {
    BnfRanked();
    var _ := FactorRule();
    assert "(" !in BnfSyntax by {
      OneCharSymbolsAreTerminals();
    }
    ChoiceShapeDisciplined(BnfSyntax, BnfDiscipline, "factor", "constant", "variable", "expression", '(', ')');
  }

  /** A rule `r ::= first | second | open inner close` whose first two choices rank below it, in any grammar. */
  lemma ChoiceShapeDisciplined(g: Grammar, d: Discipline, r: Symbol, first: Symbol, second: Symbol, inner: Symbol,
                               open: char, close: char)
    requires g.Keys <= d.rank.Keys && r in g && first in g && second in g
    requires g[r] == [[first], [second], [[open], inner, [close]]] && [open] !in g
    requires r in d.solid && first in d.solid && second in d.solid
    requires d.rank[first] < d.rank[r] && d.rank[second] < d.rank[r]
    ensures RuleDisciplined(g, d, r)
  {
    assert AdvancesWithin(g, d, g[r][2], 1);
  }

  lemma ConstantDisciplined()
    ensures BnfSyntax.Keys <= BnfDiscipline.rank.Keys
    ensures RuleDisciplined(BnfSyntax, BnfDiscipline, "constant")
  {
    BnfRanked();
    var g, d := BnfSyntax, BnfDiscipline;
    assert g["constant"][0] == ["digit", "constant"];
    assert AdvancesWithin(g, d, g["constant"][0], 1);
  }

  /** `sumop`, `prodop`, `variable` and `digit`: every alternative is one terminal. */
  lemma TokenRuleDisciplined(r: Symbol)
    requires r in {"sumop", "prodop", "variable", "digit"}
    ensures BnfSyntax.Keys <= BnfDiscipline.rank.Keys
    ensures RuleDisciplined(BnfSyntax, BnfDiscipline, r)
  {
    BnfRanked();
    var g := BnfSyntax;
    if r == "sumop" {
      assert g[r] == [["+"], ["-"]];
    } else if r == "prodop" {
      assert g[r] == [["*"], ["/"]];
    } else if r == "variable" {
      assert g[r] == [["x"], ["y"], ["z"]];
    } else {
      assert g[r] == [["0"], ["1"], ["2"], ["3"], ["4"], ["5"], ["6"], ["7"], ["8"], ["9"]];
    }
    SingleTokensDisciplined(r);
  }

  lemma SingleTokensDisciplined(r: Symbol)
    requires r in BnfSyntax && BnfSyntax.Keys <= BnfDiscipline.rank.Keys
    requires forall n | 0 <= n < |BnfSyntax[r]| :: |BnfSyntax[r][n]| == 1 && |BnfSyntax[r][n][0]| == 1
    ensures RuleDisciplined(BnfSyntax, BnfDiscipline, r)
  {
    var g, d := BnfSyntax, BnfDiscipline;
    forall n | 0 <= n < |g[r]|
      ensures g[r][n][0] !in g
    {
      OneCharSymbolsAreTerminals();
    }
  }

  /** Every rule name of `BnfSyntax` is longer than one character, so no one-character token names a rule. */
  lemma OneCharSymbolsAreTerminals()
    ensures forall s: Symbol | |s| == 1 :: s !in BnfSyntax
  {
    RuleNamesAreLong();
  }

  lemma RuleNamesAreLong()
    ensures forall key | key in BnfSyntax :: |key| > 1
  {
    assert BnfSyntax.Keys == {"expression", "sumop", "term", "prodop", "factor", "variable", "constant", "digit"};
  }

  // The alternatives of each rule of `BnfSyntax`, one lookup per lemma.

  lemma ExpressionRule() returns (alts: seq<Alternative>)
    ensures "expression" in BnfSyntax && BnfSyntax["expression"] == alts
    ensures alts == [["term", "sumop", "expression"], ["term"]]
  {
    alts := BnfSyntax["expression"];
  }

  lemma TermRule() returns (alts: seq<Alternative>)
    ensures "term" in BnfSyntax && BnfSyntax["term"] == alts
    ensures alts == [["factor", "prodop", "term"], ["factor"]]
  {
    alts := BnfSyntax["term"];
  }

  lemma FactorRule() returns (alts: seq<Alternative>)
    ensures "factor" in BnfSyntax && BnfSyntax["factor"] == alts
    ensures alts == [["constant"], ["variable"], ["(", "expression", ")"]]
  {
    alts := BnfSyntax["factor"];
  }

  lemma ConstantRule() returns (alts: seq<Alternative>)
    ensures "constant" in BnfSyntax && BnfSyntax["constant"] == alts
    ensures alts == [["digit", "constant"], ["digit"]]
  {
    alts := BnfSyntax["constant"];
  }

  lemma VariableRule() returns (alts: seq<Alternative>)
    ensures "variable" in BnfSyntax && BnfSyntax["variable"] == alts
    ensures alts == [["x"], ["y"], ["z"]]
    ensures forall alt | alt in alts :: |alt| == 1 && |alt[0]| == 1
  {
    alts := BnfSyntax["variable"];
  }

  lemma SumopRule() returns (alts: seq<Alternative>)
    ensures "sumop" in BnfSyntax && BnfSyntax["sumop"] == alts
    ensures alts == [["+"], ["-"]]
    ensures forall alt | alt in alts :: |alt| == 1 && |alt[0]| == 1
  {
    alts := BnfSyntax["sumop"];
  }

  lemma ProdopRule() returns (alts: seq<Alternative>)
    ensures "prodop" in BnfSyntax && BnfSyntax["prodop"] == alts
    ensures alts == [["*"], ["/"]]
    ensures forall alt | alt in alts :: |alt| == 1 && |alt[0]| == 1
  {
    alts := BnfSyntax["prodop"];
  }

  lemma DigitRule() returns (alts: seq<Alternative>)
    ensures "digit" in BnfSyntax && BnfSyntax["digit"] == alts
    ensures alts == [["0"], ["1"], ["2"], ["3"], ["4"], ["5"], ["6"], ["7"], ["8"], ["9"]]
    ensures forall alt | alt in alts :: |alt| == 1 && |alt[0]| == 1
  {
    alts := BnfSyntax["digit"];
  }
}
