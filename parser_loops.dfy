/**
 * The parser as the source writes it: parse_rule's `for` loop that appends
 * one tree per symbol while moving the cursor, and parse's loop over the
 * alternatives that returns at the first one that does not fail. Each method
 * computes exactly what the function of the same name in `Parser` specifies.
 */
module ParserLoops {
  import opened Wrappers
  import opened Grammar
  import Parser

  /** parse_part: a rule name is parsed recursively, any other symbol must equal the current token. */
  method ParsePart(g: Grammar, d: Discipline, toks: string, j: nat, part: Symbol) returns (res: Option<Parser.Match>)
    requires Disciplined(g, d) && j <= |toks|
    ensures res == Parser.ParsePart(g, d, toks, j, part)
    decreases |toks| - j, Parser.PartRank(g, d, part), 3
  {
    if part in g {
      res := Parse(g, d, toks, j, part);
    } else if j < |toks| && part == [toks[j]] {
      res := Some(Parser.Match(j + 1, Leaf(toks[j])));
    } else {
      res := None;
    }
  }

  /** parse_rule: the symbols of `alt` in order, each from where the previous one stopped. */
  method ParseRule(g: Grammar, d: Discipline, toks: string, i: nat, name: Symbol, alt: Alternative)
    returns (res: Option<Parser.SeqMatch>)
    requires Disciplined(g, d) && name in g && alt in g[name] && i <= |toks|
    ensures res == Parser.ParseRule(g, d, toks, i, name, alt, 0, i)
    decreases |toks| - i, d.rank[name] + 1, 1
  {
    var j := i;
    var parts: seq<Tree> := [];
    PrependNothing(Parser.ParseRule(g, d, toks, i, name, alt, 0, i));
    for k := 0 to |alt|
      invariant i <= j <= |toks|
      invariant AdvancesWithin(g, d, alt, k) ==> i < j
      invariant Parser.ParseRule(g, d, toks, i, name, alt, 0, i)
        == Prepend(parts, Parser.ParseRule(g, d, toks, i, name, alt, k, j))
    {
      var r := ParsePart(g, d, toks, j, alt[k]);
      if r.None? {
        return None;
      }
      ghost var rest := Parser.ParseRule(g, d, toks, i, name, alt, k + 1, r.value.end);
      assert rest.Some? ==> rest.value.end == Parser.ParseRule(g, d, toks, i, name, alt, k, j).value.end;
      assert rest.Some? ==> parts + ([r.value.tree] + rest.value.trees) == (parts + [r.value.tree]) + rest.value.trees;
      j := r.value.end;
      parts := parts + [r.value.tree];
    }
    assert parts + [] == parts;
    res := Some(Parser.SeqMatch(j, parts));
  }

  /** The trees already collected, in front of the outcome of parsing the remaining symbols. */
  function Prepend(parts: seq<Tree>, rest: Option<Parser.SeqMatch>): Option<Parser.SeqMatch>
  {
    match rest
    case None => None
    case Some(sm) => Some(Parser.SeqMatch(sm.end, parts + sm.trees))
  }

  lemma PrependNothing(r: Option<Parser.SeqMatch>)
    ensures Prepend([], r) == r
  {
    if r.Some? {
      assert [] + r.value.trees == r.value.trees;
    }
  }

  /** parse: each alternative from the unchanged position `i`; the first that does not fail is returned. */
  method Parse(g: Grammar, d: Discipline, toks: string, i: nat, name: Symbol) returns (res: Option<Parser.Match>)
    requires Disciplined(g, d) && name in g && i <= |toks|
    ensures res == Parser.Parse(g, d, toks, i, name)
    decreases |toks| - i, d.rank[name] + 1, 2
  {
    var alts := g[name];
    for n := 0 to |alts|
      invariant Parser.Parse(g, d, toks, i, name) == Parser.ParseAlternatives(g, d, toks, i, name, n)
    {
      var r := ParseRule(g, d, toks, i, name, alts[n]);
      if r.Some? {
        return Some(Parser.Match(r.value.end, Node(name, r.value.trees)));
      }
    }
    res := None;
  }
}
