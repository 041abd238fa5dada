/**
 * The backtracking recursive-descent parser of bnf-lang.py as functions:
 * `ParsePart` (parse_part), `ParseRule` (parse_rule), `ParseAlternatives`
 * with `Parse` (parse) and `ParseExpression` (parse_expression).
 *
 * The token sequence is the input string itself, one character per token. A
 * parse position is threaded through every call and returned with the result;
 * `None` is the failure the source signals with ValueError or IndexError.
 */
module Parser {
  import opened Wrappers
  import opened Grammar

  /** A successful parse of one symbol: the position after it and its tree. */
  datatype Match = Match(end: nat, tree: Tree)

  /** A successful parse of a symbol sequence: the position after it and one tree per symbol. */
  datatype SeqMatch = SeqMatch(end: nat, trees: seq<Tree>)

  /** Second component of the termination measure of a symbol: terminals rank below every rule. */
  function PartRank(g: Grammar, d: Discipline, part: Symbol): nat
    requires g.Keys <= d.rank.Keys
  {
    if part in g then d.rank[part] + 1 else 0
  }

  /**
   * A grammar key is parsed as a rule; any other symbol is a terminal that
   * matches only the token at `j`, which it consumes and returns as a leaf.
   * At the end of the input a terminal fails like a mismatch.
   */
  function ParsePart(g: Grammar, d: Discipline, toks: string, j: nat, part: Symbol): (res: Option<Match>)
    requires Disciplined(g, d) && j <= |toks|
    ensures res.Some? ==> j <= res.value.end <= |toks|
    ensures res.Some? && Advances(g, d, part) ==> j < res.value.end
    ensures part !in g ==> (res.Some? <==> j < |toks| && part == [toks[j]])
    ensures part !in g && res.Some? ==> res.value == Match(j + 1, Leaf(toks[j]))
    decreases |toks| - j, PartRank(g, d, part), 3, 0
  {
    if part in g then
      Parse(g, d, toks, j, part)
    else if j < |toks| && part == [toks[j]] then
      Some(Match(j + 1, Leaf(toks[j])))
    else
      None
  }

  /**
   * Parses the symbols `alt[k..]` one after the other from position `j`,
   * collecting one tree per symbol; the first symbol that fails makes the
   * whole sequence fail. `start` is where the alternative began: it only
   * serves the termination argument.
   */
  function ParseRule(g: Grammar, d: Discipline, toks: string, start: nat, name: Symbol,
                     alt: Alternative, k: nat, j: nat): (res: Option<SeqMatch>)
    requires Disciplined(g, d) && name in g && alt in g[name]
    requires start <= j <= |toks| && k <= |alt|
    requires AdvancesWithin(g, d, alt, k) ==> start < j
    ensures res.Some? ==> j <= res.value.end <= |toks| && |res.value.trees| == |alt| - k
    ensures res.Some? && AdvancesWithin(g, d, alt, |alt|) ==> start < res.value.end
    decreases |toks| - start, d.rank[name] + 1, 0, |alt| - k
  {
    if k == |alt| then
      Some(SeqMatch(j, []))
    else
      match ParsePart(g, d, toks, j, alt[k])
      case None => None
      case Some(m) =>
        match ParseRule(g, d, toks, start, name, alt, k + 1, m.end)
        case None => None
        case Some(rest) => Some(SeqMatch(rest.end, [m.tree] + rest.trees))
  }

  /** Tries the alternatives of `name` from the `n`-th on, each from the same position `i`. */
  function ParseAlternatives(g: Grammar, d: Discipline, toks: string, i: nat, name: Symbol, n: nat): (res: Option<Match>)
    requires Disciplined(g, d) && name in g && i <= |toks| && n <= |g[name]|
    ensures res.Some? ==> i <= res.value.end <= |toks|
    ensures res.Some? ==> res.value.tree.Node? && res.value.tree.name == name
    ensures res.Some? && name in d.solid ==> i < res.value.end
    decreases |toks| - i, d.rank[name] + 1, 1, |g[name]| - n
  {
    if n == |g[name]| then
      None
    else
      match ParseRule(g, d, toks, i, name, g[name][n], 0, i)
      case Some(sm) => Some(Match(sm.end, Node(name, sm.trees)))
      case None => ParseAlternatives(g, d, toks, i, name, n + 1)
  }

  /** Parses rule `name` at position `i`: the first alternative that matches completely wins. */
  function Parse(g: Grammar, d: Discipline, toks: string, i: nat, name: Symbol): (res: Option<Match>)
    requires Disciplined(g, d) && name in g && i <= |toks|
    ensures res.Some? ==> i <= res.value.end <= |toks| && res.value.tree.Node? && res.value.tree.name == name
    ensures res.Some? && name in d.solid ==> i < res.value.end
    decreases |toks| - i, d.rank[name] + 1, 2, 0
  {
    ParseAlternatives(g, d, toks, i, name, 0)
  }

  /**
   * The top-level entry: rule "expression" of `BnfSyntax` from position 0.
   * The end position is dropped, so unconsumed trailing input is ignored.
   */
  function ParseExpression(s: string): (res: Option<Tree>)
    ensures res.Some? ==> res.value.Node? && res.value.name == "expression"
  {
    BnfSyntaxDisciplined();
    match Parse(BnfSyntax, BnfDiscipline, s, 0, "expression")
    case None => None
    case Some(m) => Some(m.tree)
  }
}
