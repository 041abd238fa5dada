/**
 * What the backtracking parser promises for every disciplined grammar:
 * ordered choice from an unmoved start position, clean failure, and sound
 * trees whose leaves are exactly the tokens consumed.
 */
module ParserLemmas {
  import opened Wrappers
  import opened Grammar
  import opened Parser

  /** Alternative `n` of rule `name` does not match completely at position `i`. */
  predicate AlternativeFails(g: Grammar, d: Discipline, toks: string, i: nat, name: Symbol, n: nat)
    requires Disciplined(g, d) && name in g && i <= |toks| && n < |g[name]|
  {
    ParseRule(g, d, toks, i, name, g[name][n], 0, i).None?
  }

  /**
   * Ordered choice with backtracking: if alternative `n` matches at `i` and
   * every earlier alternative fails there, the result is the tree built from
   * alternative `n`, whatever the later alternatives would do.
   */
  lemma {:induction false} FirstMatchWins(g: Grammar, d: Discipline, toks: string, i: nat, name: Symbol, n: nat)
    requires Disciplined(g, d) && name in g && i <= |toks| && n < |g[name]|
    requires forall m | 0 <= m < n :: AlternativeFails(g, d, toks, i, name, m)
    requires ParseRule(g, d, toks, i, name, g[name][n], 0, i).Some?
    ensures var sm := ParseRule(g, d, toks, i, name, g[name][n], 0, i).value;
      Parse(g, d, toks, i, name) == Some(Match(sm.end, Node(name, sm.trees)))
  {
    AlternativesFromFirstMatch(g, d, toks, i, name, 0, n);
  }

  lemma {:induction false} AlternativesFromFirstMatch(g: Grammar, d: Discipline, toks: string, i: nat, name: Symbol, p: nat, n: nat)
    requires Disciplined(g, d) && name in g && i <= |toks| && p <= n < |g[name]|
    requires forall m | p <= m < n :: AlternativeFails(g, d, toks, i, name, m)
    requires ParseRule(g, d, toks, i, name, g[name][n], 0, i).Some?
    ensures var sm := ParseRule(g, d, toks, i, name, g[name][n], 0, i).value;
      ParseAlternatives(g, d, toks, i, name, p) == Some(Match(sm.end, Node(name, sm.trees)))
    decreases n - p
  {
    if p < n {
      assert AlternativeFails(g, d, toks, i, name, p);
      AlternativesFromFirstMatch(g, d, toks, i, name, p + 1, n);
    }
  }

  /** A rule fails exactly when every one of its alternatives fails from the same start position. */
  lemma {:induction false} FailsIffAllAlternativesFail(g: Grammar, d: Discipline, toks: string, i: nat, name: Symbol)
    requires Disciplined(g, d) && name in g && i <= |toks|
    ensures Parse(g, d, toks, i, name).None? <==>
      forall m | 0 <= m < |g[name]| :: AlternativeFails(g, d, toks, i, name, m)
  {
    AlternativesFailIffAllFail(g, d, toks, i, name, 0);
  }

  lemma {:induction false} AlternativesFailIffAllFail(g: Grammar, d: Discipline, toks: string, i: nat, name: Symbol, p: nat)
    requires Disciplined(g, d) && name in g && i <= |toks| && p <= |g[name]|
    ensures ParseAlternatives(g, d, toks, i, name, p).None? <==>
      forall m | p <= m < |g[name]| :: AlternativeFails(g, d, toks, i, name, m)
    decreases |g[name]| - p
  {
    if p < |g[name]| {
      AlternativesFailIffAllFail(g, d, toks, i, name, p + 1);
      if ParseAlternatives(g, d, toks, i, name, p).None? {
        assert AlternativeFails(g, d, toks, i, name, p);
      } else if !AlternativeFails(g, d, toks, i, name, p) {
        assert !forall m | p <= m < |g[name]| :: AlternativeFails(g, d, toks, i, name, m);
      }
    }
  }

  /**
   * The shape of a successful parse: a node named after the rule whose
   * children are one tree per symbol of the first alternative that matches;
   * every earlier alternative failed from the same position.
   */
  lemma {:induction false} SuccessfulParseShape(g: Grammar, d: Discipline, toks: string, i: nat, name: Symbol)
    requires Disciplined(g, d) && name in g && i <= |toks|
    requires Parse(g, d, toks, i, name).Some?
    ensures var m := Parse(g, d, toks, i, name).value;
      exists n | 0 <= n < |g[name]| ::
        && (forall p | 0 <= p < n :: AlternativeFails(g, d, toks, i, name, p))
        && ParseRule(g, d, toks, i, name, g[name][n], 0, i) == Some(SeqMatch(m.end, m.tree.children))
        && |m.tree.children| == |g[name][n]|
  {
    var n := WinningAlternative(g, d, toks, i, name, 0);
  }

  lemma {:induction false} WinningAlternative(g: Grammar, d: Discipline, toks: string, i: nat, name: Symbol, q: nat)
    returns (n: nat)
    requires Disciplined(g, d) && name in g && i <= |toks| && q <= |g[name]|
    requires forall p | 0 <= p < q :: AlternativeFails(g, d, toks, i, name, p)
    requires ParseAlternatives(g, d, toks, i, name, q).Some?
    ensures q <= n < |g[name]|
    ensures forall p | 0 <= p < n :: AlternativeFails(g, d, toks, i, name, p)
    ensures var m := ParseAlternatives(g, d, toks, i, name, q).value;
      ParseRule(g, d, toks, i, name, g[name][n], 0, i) == Some(SeqMatch(m.end, m.tree.children))
    decreases |g[name]| - q
  {
    if ParseRule(g, d, toks, i, name, g[name][q], 0, i).Some? {
      n := q;
    } else {
      n := WinningAlternative(g, d, toks, i, name, q + 1);
    }
  }

  /** A rule that always consumes a token fails cleanly at the end of the input instead of running past it. */
  lemma AtEndSolidRuleFails(g: Grammar, d: Discipline, toks: string, name: Symbol)
    requires Disciplined(g, d) && name in d.solid
    ensures Parse(g, d, toks, |toks|, name).None?
  {
  }

  /**
   * Soundness: a successful parse of `name` from `i` to `end` yields a
   * derivation of `name` in `g` whose leaves, left to right, are exactly the
   * tokens `toks[i..end]`.
   */
  lemma {:induction false} ParseSound(g: Grammar, d: Discipline, toks: string, i: nat, name: Symbol)
    requires Disciplined(g, d) && name in g && i <= |toks|
    ensures var r := Parse(g, d, toks, i, name);
      r.Some? ==> Leaves(r.value.tree) == toks[i..r.value.end] && Derives(g, name, r.value.tree)
    decreases |toks| - i, d.rank[name] + 1, 2, 0
  {
    AlternativesSound(g, d, toks, i, name, 0);
  }

  lemma {:induction false} AlternativesSound(g: Grammar, d: Discipline, toks: string, i: nat, name: Symbol, n: nat)
    requires Disciplined(g, d) && name in g && i <= |toks| && n <= |g[name]|
    ensures var r := ParseAlternatives(g, d, toks, i, name, n);
      r.Some? ==> Leaves(r.value.tree) == toks[i..r.value.end] && Derives(g, name, r.value.tree)
    decreases |toks| - i, d.rank[name] + 1, 1, |g[name]| - n
  {
    if n < |g[name]| {
      var alt := g[name][n];
      match ParseRule(g, d, toks, i, name, alt, 0, i)
      case Some(sm) =>
        RuleSound(g, d, toks, i, name, alt, 0, i);
        var t := Node(name, sm.trees);
        assert forall k | 0 <= k < |sm.trees| :: Derives(g, alt[k], sm.trees[k]);
        assert |alt| == |sm.trees|;
        assert Derives(g, name, t);
      case None =>
        AlternativesSound(g, d, toks, i, name, n + 1);
    }
  }

  lemma {:induction false} RuleSound(g: Grammar, d: Discipline, toks: string, start: nat, name: Symbol,
                                     alt: Alternative, k: nat, j: nat)
    requires Disciplined(g, d) && name in g && alt in g[name]
    requires start <= j <= |toks| && k <= |alt|
    requires AdvancesWithin(g, d, alt, k) ==> start < j
    ensures var r := ParseRule(g, d, toks, start, name, alt, k, j);
      r.Some? ==>
        && LeavesOf(r.value.trees) == toks[j..r.value.end]
        && forall p | 0 <= p < |r.value.trees| :: Derives(g, alt[k + p], r.value.trees[p])
    decreases |toks| - start, d.rank[name] + 1, 0, |alt| - k
  {
    if k < |alt| {
      match ParsePart(g, d, toks, j, alt[k])
      case None =>
      case Some(m) =>
        PartSound(g, d, toks, j, alt[k]);
        RuleSound(g, d, toks, start, name, alt, k + 1, m.end);
        match ParseRule(g, d, toks, start, name, alt, k + 1, m.end)
        case None =>
        case Some(rest) =>
          LeavesOfCons(m.tree, rest.trees);
          assert toks[j..rest.end] == toks[j..m.end] + toks[m.end..rest.end];
          DerivesCons(g, alt, k, m.tree, rest.trees);
    }
  }

  lemma LeavesOfCons(first: Tree, rest: seq<Tree>)
    ensures LeavesOf([first] + rest) == Leaves(first) + LeavesOf(rest)
  {
    assert ([first] + rest)[1..] == rest;
  }

  lemma DerivesCons(g: Grammar, alt: Alternative, k: nat, first: Tree, rest: seq<Tree>)
    requires k + 1 + |rest| <= |alt|
    requires Derives(g, alt[k], first)
    requires forall p | 0 <= p < |rest| :: Derives(g, alt[k + 1 + p], rest[p])
    ensures forall p | 0 <= p < 1 + |rest| :: Derives(g, alt[k + p], ([first] + rest)[p])
  {
    var trees := [first] + rest;
    forall p | 0 <= p < |trees|
      ensures Derives(g, alt[k + p], trees[p])
    {
      if p > 0 {
        assert trees[p] == rest[p - 1];
      }
    }
  }

  lemma {:induction false} PartSound(g: Grammar, d: Discipline, toks: string, j: nat, part: Symbol)
    requires Disciplined(g, d) && j <= |toks|
    ensures var r := ParsePart(g, d, toks, j, part);
      r.Some? ==> Leaves(r.value.tree) == toks[j..r.value.end] && Derives(g, part, r.value.tree)
    decreases |toks| - j, PartRank(g, d, part), 3, 0
  {
    if part in g {
      ParseSound(g, d, toks, j, part);
    }
  }

  /**
   * parse_expression: the tree it returns derives `expression` in the
   * arithmetic grammar, and its leaves are a prefix of the input; whatever
   * follows that prefix is dropped without complaint.
   */
  lemma ParseExpressionSound(s: string)
    ensures ParseExpression(s).Some? ==>
      var t := ParseExpression(s).value;
      Derives(BnfSyntax, "expression", t) && Leaves(t) <= s && |Leaves(t)| > 0
  {
    BnfSyntaxDisciplined();
    ParseSound(BnfSyntax, BnfDiscipline, s, 0, "expression");
  }
}

/** Unfoldings of `ParseRule` for alternatives of one, two and three symbols. */
module RuleSteps {
  import opened Wrappers
  import opened Grammar
  import opened Parser

  lemma RuleOfOne(g: Grammar, d: Discipline, toks: string, i: nat, name: Symbol, alt: Alternative)
    requires Disciplined(g, d) && name in g && alt in g[name] && i <= |toks| && |alt| == 1
    ensures ParseRule(g, d, toks, i, name, alt, 0, i) ==
      match ParsePart(g, d, toks, i, alt[0])
      case None => None
      case Some(a) => Some(SeqMatch(a.end, [a.tree]))
  {
    assert !AdvancesWithin(g, d, alt, 0);
    match ParsePart(g, d, toks, i, alt[0])
    case None =>
    case Some(a) =>
      assert AdvancesWithin(g, d, alt, 1) ==> i < a.end;
      assert ParseRule(g, d, toks, i, name, alt, 1, a.end) == Some(SeqMatch(a.end, []));
      assert [a.tree] + [] == [a.tree];
  }

  lemma RuleOfTwo(g: Grammar, d: Discipline, toks: string, i: nat, name: Symbol, alt: Alternative)
    requires Disciplined(g, d) && name in g && alt in g[name] && i <= |toks| && |alt| == 2
    ensures ParseRule(g, d, toks, i, name, alt, 0, i) ==
      match ParsePart(g, d, toks, i, alt[0])
      case None => None
      case Some(a) =>
        match ParsePart(g, d, toks, a.end, alt[1])
        case None => None
        case Some(b) => Some(SeqMatch(b.end, [a.tree, b.tree]))
  {
    assert !AdvancesWithin(g, d, alt, 0);
    match ParsePart(g, d, toks, i, alt[0])
    case None =>
    case Some(a) =>
      assert AdvancesWithin(g, d, alt, 1) ==> i < a.end;
      match ParsePart(g, d, toks, a.end, alt[1])
      case None =>
        assert ParseRule(g, d, toks, i, name, alt, 1, a.end) == None;
      case Some(b) =>
        assert AdvancesWithin(g, d, alt, 2) ==> i < b.end;
        assert ParseRule(g, d, toks, i, name, alt, 2, b.end) == Some(SeqMatch(b.end, []));
        assert [b.tree] + [] == [b.tree];
        assert ParseRule(g, d, toks, i, name, alt, 1, a.end) == Some(SeqMatch(b.end, [b.tree]));
        assert [a.tree] + [b.tree] == [a.tree, b.tree];
  }

  lemma RuleOfThree(g: Grammar, d: Discipline, toks: string, i: nat, name: Symbol, alt: Alternative)
    requires Disciplined(g, d) && name in g && alt in g[name] && i <= |toks| && |alt| == 3
    ensures ParseRule(g, d, toks, i, name, alt, 0, i) ==
      match ParsePart(g, d, toks, i, alt[0])
      case None => None
      case Some(a) =>
        match ParsePart(g, d, toks, a.end, alt[1])
        case None => None
        case Some(b) =>
          match ParsePart(g, d, toks, b.end, alt[2])
          case None => None
          case Some(c) => Some(SeqMatch(c.end, [a.tree, b.tree, c.tree]))
  {
    assert !AdvancesWithin(g, d, alt, 0);
    match ParsePart(g, d, toks, i, alt[0])
    case None =>
    case Some(a) =>
      assert AdvancesWithin(g, d, alt, 1) ==> i < a.end;
      match ParsePart(g, d, toks, a.end, alt[1])
      case None =>
        assert ParseRule(g, d, toks, i, name, alt, 1, a.end) == None;
      case Some(b) =>
        assert AdvancesWithin(g, d, alt, 2) ==> i < b.end;
        match ParsePart(g, d, toks, b.end, alt[2])
        case None =>
          assert ParseRule(g, d, toks, i, name, alt, 2, b.end) == None;
          assert ParseRule(g, d, toks, i, name, alt, 1, a.end) == None;
        case Some(c) =>
          assert ParseRule(g, d, toks, i, name, alt, 3, c.end) == Some(SeqMatch(c.end, []));
          assert [c.tree] + [] == [c.tree];
          assert ParseRule(g, d, toks, i, name, alt, 2, b.end) == Some(SeqMatch(c.end, [c.tree]));
          assert [b.tree] + [c.tree] == [b.tree, c.tree];
          assert ParseRule(g, d, toks, i, name, alt, 1, a.end) == Some(SeqMatch(c.end, [b.tree, c.tree]));
          assert [a.tree] + [b.tree, c.tree] == [a.tree, b.tree, c.tree];
  }

  /** A rule whose alternatives are single one-character terminals matches exactly one of those tokens. */
  lemma {:induction false} SingleTokens(g: Grammar, d: Discipline, toks: string, i: nat, name: Symbol, p: nat)
    requires Disciplined(g, d) && name in g && i <= |toks| && p <= |g[name]|
    requires forall n | 0 <= n < |g[name]| :: |g[name][n]| == 1 && g[name][n][0] !in g
    ensures ParseAlternatives(g, d, toks, i, name, p) ==
      if i < |toks| && [[toks[i]]] in g[name][p..] then Some(Match(i + 1, Node(name, [Leaf(toks[i])])))
      else None
    decreases |g[name]| - p
  {
    if p < |g[name]| {
      SingleTokens(g, d, toks, i, name, p + 1);
      RuleOfOne(g, d, toks, i, name, g[name][p]);
      assert g[name][p..] == [g[name][p]] + g[name][p + 1..];
      if i < |toks| && g[name][p] == [[toks[i]]] {
        assert ParsePart(g, d, toks, i, g[name][p][0]) == Some(Match(i + 1, Leaf(toks[i])));
      } else if i < |toks| {
        assert g[name][p] == [g[name][p][0]];
      }
    }
  }

  /** An alternative `open inner close` whose first and last symbols are one-token terminals. */
  lemma Bracketed(g: Grammar, d: Discipline, toks: string, i: nat, name: Symbol, alt: Alternative, open: char, close: char)
    requires Disciplined(g, d) && name in g && alt in g[name] && i <= |toks|
    requires |alt| == 3 && alt[0] == [open] && alt[2] == [close] && alt[0] !in g && alt[2] !in g
    ensures ParseRule(g, d, toks, i, name, alt, 0, i) ==
      if i < |toks| && toks[i] == open then
        match ParsePart(g, d, toks, i + 1, alt[1])
        case None => None
        case Some(m) =>
          if m.end < |toks| && toks[m.end] == close then Some(SeqMatch(m.end + 1, [Leaf(open), m.tree, Leaf(close)]))
          else None
      else None
  {
    RuleOfThree(g, d, toks, i, name, alt);
  }
}
