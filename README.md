# bnf-lang in Dafny

A model of `bnf-lang.py`. It is a small interpreter for arithmetic expressions over
the variables `x`, `y` and `z`. It has two parts:

- A grammar table, `bnf_syntax`, maps each rule name to its ordered alternatives. A
  backtracking recursive-descent parser (`parse_part`, `parse_rule`, `parse`,
  `parse_expression`) reads a string with that table, one character per token, and
  builds a tree of `(rule name, parts)` nodes.
- A tree-walking evaluator (`evaluate`, with `numjoin` for multi-digit constants)
  computes the tree's value.

Modules:

- `Grammar` (grammar.dfy):
  - symbols, alternatives, grammars and parse trees;
  - the table `BnfSyntax`;
  - the `Derives` relation, meaning "this tree is a derivation of this symbol";
  - the `Discipline` under which recursive descent terminates. A `Discipline` gives each
    rule a rank and names the rules that always consume a token.
  - `BnfSyntaxDisciplined` proves that `BnfSyntax` meets its discipline. So, for the fixed
    grammar, parsing terminates, as the source relies on.
- `Parser` (parser.dfy): `parse_part`, `parse_rule`, `parse` and `parse_expression` as
  functions. They work over any disciplined grammar. The parse position is threaded through
  the calls. `None` stands for the `ValueError`/`IndexError` that the source treats as parse
  failure.
- `ParserLoops` (parser_loops.dfy): the source's imperative form.
  - `parse_rule` is a `for` loop that appends one tree per symbol while it moves the cursor.
  - `parse` is a loop over the alternatives that returns at the first success.
  - Each method is proved equal to its function in `Parser`.
- `ParserLemmas` and `RuleSteps` (parser_lemmas.dfy): these lemmas hold for every
  disciplined grammar.
  - Ordered choice: the first complete match wins.
  - Backtracking restarts every alternative at the same position.
  - A rule fails exactly when all of its alternatives fail.
  - Soundness: a parse tree derives its rule, and its leaves are exactly the tokens consumed.
- `ArithmeticParser` and `ArithmeticAgreement` (arithmetic_parser.dfy):
  - `ExpressionAt`, `TermAt`, `FactorAt` and `ConstantAt` are a deterministic reader of
    the arithmetic grammar. It reads one operand. It continues past an operator token only
    when the rest after the operator parses; otherwise it falls back to the lone operand.
    That single level of backtracking is all that the grammar's ordered choice amounts to.
    The reader serves as an independent reference.
  - The agreement lemmas prove that the backtracking parser computes exactly this reader, for
    every input and every start position.
- `Numerals` (numerals.dfy): Python's `str` and `int` on integers, and `numjoin` as
  `int(str(a) + str(b))`.
- `Evaluator` (evaluator.dfy): `evaluate` as the function `Eval`.
  - It dispatches on the node's rule name and its number of children.
  - The globals `x`, `y` and `z` become an explicit environment.
  - A `ConstantReading` selects how a two-child `constant` combines its digit with its tail.
    `AsWritten` uses numjoin, as the source does; `Evaluate` uses this reading.
    `Positional` uses decimal place value; `EvaluateIntended` uses this reading.
  - Values are `IntVal`, `FloatVal` and `OpVal`.
  - Errors are `Malformed` (TypeError and ValueError), `Unbound` (NameError for a variable)
    and `DivisionByZero`.
- `EvaluatorLemmas` (evaluator_lemmas.dfy): what each node kind evaluates to, and the value of
  constants under both readings. Every tree that `parse_expression` returns evaluates to a
  number, a division by zero or an unbound variable, never to a TypeError or ValueError.
- `DemoRuns` and `SmallRuns` (demo_runs.dfy, small_runs.dfy): concrete inputs, proved once
  for all environments where an environment is a parameter:
  - the demo expression "10+2*x+3*(y+z)/2";
  - "105" and "10";
  - "1-2-3", which is right-associative because the grammar is right-recursive;
  - "1+2)", whose trailing input is ignored;
  - rejected inputs, an unbound variable, division by zero, and malformed trees.

`Evaluator.Eval`, `Evaluator.Apply`, `Evaluator.EvalBinary`, `Evaluator.EvalFactor`,
`Evaluator.EvalConstant` and `Numerals.NumJoin` model `evaluate` (bnf-lang.py:79-154),
the operator functions and `numjoin` (bnf-lang.py:74-76). They carry no contract of their own.
The lemmas below state what they compute.

`parse_expression` (bnf-lang.py:65-66) never checks that all input was read. So
`Parser.ParseExpression` drops the end position, and `SmallRuns.TrailingInputIgnored`
proves that "1+2)" parses like "1+2".

## Model

| member | source | states |
|---|---|---|
| Grammar.BnfSyntaxDisciplined | bnf-lang.py:16-25 | The grammar table never re-enters a rule without consuming a token: every rule is ranked, every rule consumes a token, and `expression`, `term`, `factor`, `constant` recurse into a higher rule only after a token. |
| Grammar.BinaryShapeDisciplined | bnf-lang.py:17-19 | A rule of the shape `operand operator self` or `operand` over a lower-ranked operand is disciplined, in any grammar. |
| Grammar.ChoiceShapeDisciplined | bnf-lang.py:21 | A rule `first`, `second` or `"(" inner ")"` over lower-ranked choices is disciplined, in any grammar. |
| Grammar.OneCharSymbolsAreTerminals | bnf-lang.py:16-25 | No one-character symbol is a rule name of the table, so every token symbol is a terminal. |
| Parser.ParsePart | bnf-lang.py:38-44 | A symbol that is not a rule succeeds exactly when the position is inside the input and the token there equals it; it then consumes one token and returns it as a leaf. Success never moves backwards or past the end. |
| Parser.ParseRule | bnf-lang.py:47-52 | A parsed symbol sequence yields one tree per remaining symbol and ends between the start and the end of the input. |
| Parser.ParseAlternatives | bnf-lang.py:56-62 | A result is a node named after the rule; a rule that always consumes does consume. |
| Parser.Parse | bnf-lang.py:55-62 | A successful parse returns a node labelled with the rule name and an end position between the start and the end of the input. |
| Parser.ParseExpression | bnf-lang.py:65-66 | The root of any returned tree is an `expression` node. |
| ParserLoops.ParsePart | bnf-lang.py:38-44 | Equals `Parser.ParsePart`. |
| ParserLoops.ParseRule | bnf-lang.py:47-52 | The loop that appends one tree per symbol and rebinds the cursor computes exactly `Parser.ParseRule` from the alternative's first symbol. |
| ParserLoops.Parse | bnf-lang.py:55-62 | The loop over the alternatives, each from the unchanged position, returning the first success, computes exactly `Parser.Parse`. |
| ParserLemmas.FirstMatchWins | bnf-lang.py:56-61 | If alternative n matches and every earlier one fails from the same position, the parse is the node built from alternative n, whatever later alternatives would do. |
| ParserLemmas.AlternativesFromFirstMatch | bnf-lang.py:56-61 | The same from any starting alternative p up to n. |
| ParserLemmas.FailsIffAllAlternativesFail | bnf-lang.py:56-62 | A rule fails if and only if every one of its alternatives fails from the same start position. |
| ParserLemmas.AlternativesFailIffAllFail | bnf-lang.py:56-62 | The same for the alternatives from the p-th on. |
| ParserLemmas.SuccessfulParseShape | bnf-lang.py:55-59 | A successful parse is the node of some alternative n whose sequence parse gave exactly its children and end, with one child per symbol, and every alternative before n failed. |
| ParserLemmas.WinningAlternative | bnf-lang.py:56-59 | Finds that winning alternative from alternative q on. |
| ParserLemmas.AtEndSolidRuleFails | bnf-lang.py:41-44 | At the end of the input a rule that always consumes fails cleanly: the out-of-range token comparison is an ordinary failure. |
| ParserLemmas.ParseSound | bnf-lang.py:55-59 | A successful parse from i to end is a derivation of the rule in the grammar, and its leaves read left to right are exactly the tokens from i to end. |
| ParserLemmas.AlternativesSound | bnf-lang.py:56-59 | The same for the alternatives from the n-th on. |
| ParserLemmas.RuleSound | bnf-lang.py:47-52 | The trees of a parsed symbol sequence derive the symbols one by one, and their leaves together are exactly the tokens consumed. |
| ParserLemmas.PartSound | bnf-lang.py:38-44 | A parsed symbol derives that symbol and its leaves are the tokens consumed. |
| ParserLemmas.ParseExpressionSound | bnf-lang.py:65-66 | A tree from `parse_expression` derives `expression` in the table, and its leaves are a non-empty prefix of the input. |
| RuleSteps.RuleOfOne | bnf-lang.py:47-52 | Parsing a one-symbol alternative is parsing that symbol. |
| RuleSteps.RuleOfTwo | bnf-lang.py:47-52 | Parsing a two-symbol alternative is parsing the first symbol, then the second from where the first ended. |
| RuleSteps.RuleOfThree | bnf-lang.py:47-52 | The same for three symbols. |
| RuleSteps.SingleTokens | bnf-lang.py:56-62 | A rule whose alternatives are single terminals matches exactly when the current token is one of them, and consumes that one token. |
| RuleSteps.Bracketed | bnf-lang.py:47-52 | An alternative `open inner close` of terminals around a symbol needs both bracket tokens. |
| ArithmeticParser.ConstantAt | bnf-lang.py:23 | Reference reader of a constant: it succeeds exactly when the current token is a digit, and then reads the longest run of digits. The run consumes at least one token and is followed by the end of the input or a non-digit. |
| ArithmeticParser.ExpressionAt | bnf-lang.py:17 | Reference reader of an expression: a term, continued only when an operator follows and the rest parses; consumes at least one token. |
| ArithmeticParser.TermAt | bnf-lang.py:19 | The same for a term over factors and `*`, `/`. |
| ArithmeticParser.FactorAt | bnf-lang.py:21 | Reference reader of a factor: constant, variable, or a bracketed expression with both brackets. |
| ArithmeticAgreement.OrderedPair | bnf-lang.py:56-62 | In any disciplined grammar, a rule of two alternatives tries the second only when the first fails. |
| ArithmeticAgreement.OrderedTriple | bnf-lang.py:56-62 | The same for three alternatives. |
| ArithmeticAgreement.BinaryChoice | bnf-lang.py:56-62 | For `operand operator self` or `operand`, backtracking amounts to: parse the operand, and keep it alone unless both the operator and the rest parse after it. |
| ArithmeticAgreement.SingleOrBracketedChoice | bnf-lang.py:56-62 | For `first`, `second` or `open inner close`, the first alternative that parses wins. |
| ArithmeticAgreement.FactorChoice | bnf-lang.py:21 | `factor` as ordered choice: constant, then variable, then the parenthesized expression. |
| ArithmeticAgreement.TokenRule | bnf-lang.py:18 | A token rule of the table matches one accepted token. |
| ArithmeticAgreement.SumopAgrees | bnf-lang.py:18 | `sumop` matches exactly a `+` or `-` token. |
| ArithmeticAgreement.ProdopAgrees | bnf-lang.py:20 | `prodop` matches exactly a `*` or `/` token. |
| ArithmeticAgreement.VariableAgrees | bnf-lang.py:22 | `variable` matches exactly an `x`, `y` or `z` token. |
| ArithmeticAgreement.DigitAgrees | bnf-lang.py:24 | `digit` matches exactly a decimal digit token. |
| ArithmeticAgreement.ConstantAgrees | bnf-lang.py:23 | The backtracking parse of `constant` is the longest run of digits, right-nested. |
| ArithmeticAgreement.ExpressionAgrees | bnf-lang.py:17 | The backtracking parse of `expression`, at every position of every input, equals the reference reader. |
| ArithmeticAgreement.TermAgrees | bnf-lang.py:19 | The same for `term`. |
| ArithmeticAgreement.FactorAgrees | bnf-lang.py:21 | The same for `factor`. |
| ArithmeticAgreement.ParseExpressionAgrees | bnf-lang.py:65-66 | `parse_expression` returns the tree the reference reader builds from position 0, whatever follows it. |
| Numerals.NatStr | bnf-lang.py:76 | `str` of a non-negative int is a non-empty string of digits without a leading zero, except for "0". |
| Numerals.NatStrValue | bnf-lang.py:76 | Reading back the printed digits of n gives n. |
| Numerals.ParseIntStr | bnf-lang.py:76 | `int(str(n)) == n` for every int. |
| Numerals.DigitsValueAppend | bnf-lang.py:76 | The value of two digit strings glued together is the first shifted by the length of the second, plus the second. |
| Numerals.CanonicalDigits | bnf-lang.py:76 | Printing the value of a digit string without superfluous leading zero gives the string back. |
| Numerals.NumJoinValue | bnf-lang.py:74-76 | numjoin(a, b) for b >= 0 is a shifted left by the printed width of b, with b added (or subtracted when a is negative); for b < 0 it raises ValueError. |
| Numerals.JoinNatural | bnf-lang.py:74-76 | numjoin of two non-negative ints is a * 10^width(b) + b. |
| DemoRuns.NumJoinDocstring | bnf-lang.py:75 | numjoin(12, 34) == 1234. |
| EvaluatorLemmas.ExpressionShape | bnf-lang.py:17 | A derived `expression` has one `term` child or `term`, `sumop`, `expression` children. |
| EvaluatorLemmas.TermShape | bnf-lang.py:19 | A derived `term` has one `factor` child or `factor`, `prodop`, `term` children. |
| EvaluatorLemmas.FactorShape | bnf-lang.py:21 | A derived `factor` is a constant, a variable, or `(`, expression, `)`. |
| EvaluatorLemmas.ConstantShape | bnf-lang.py:23 | A derived `constant` is a digit, or a digit followed by a constant. |
| EvaluatorLemmas.DigitShape | bnf-lang.py:24 | A derived `digit` holds one decimal digit token. |
| EvaluatorLemmas.VariableShape | bnf-lang.py:22 | A derived `variable` holds one of `x`, `y`, `z`. |
| EvaluatorLemmas.SumopShape | bnf-lang.py:18 | A derived `sumop` holds `+` or `-`. |
| EvaluatorLemmas.ProdopShape | bnf-lang.py:20 | A derived `prodop` holds `*` or `/`. |
| EvaluatorLemmas.DigitEvaluates | bnf-lang.py:147-151 | A derived `digit` evaluates to the value of its token. |
| EvaluatorLemmas.ConstantAsWritten | bnf-lang.py:139-145 | A derived constant evaluates, as written, to the value of its digits after every '0' except the last digit is dropped ("105" gives 15). |
| EvaluatorLemmas.JoinOntoSurvivors | bnf-lang.py:143 | numjoin of a digit onto the value of a tail is the value of the digits that survive in digit-plus-tail. |
| EvaluatorLemmas.ConstantPositional | bnf-lang.py:139-145 | Read positionally, a derived constant evaluates to the decimal value of its digits ("105" gives 105). |
| EvaluatorLemmas.ConstantOutcome | bnf-lang.py:139-151 | A derived constant evaluates to a non-negative int under either reading. |
| EvaluatorLemmas.OperatorEvaluates | bnf-lang.py:93-117 | A derived `sumop` evaluates to add or sub, a derived `prodop` to mul or true division. |
| EvaluatorLemmas.VariableEvaluates | bnf-lang.py:129-137 | A derived `variable` evaluates to the binding of its letter, or NameError when there is none. |
| EvaluatorLemmas.ApplyNumbers | bnf-lang.py:115 | An operator applied to two numbers gives a number, and fails exactly on true division by zero, with ZeroDivisionError; int operands stay ints except under true division. |
| EvaluatorLemmas.BinaryTripleStep | bnf-lang.py:87-89 | A three-child expression or term evaluates its operator, then the left and right operands in that order, and applies the operator. |
| EvaluatorLemmas.BinarySingleStep | bnf-lang.py:85-86 | A one-child expression or term passes its child's value through. |
| EvaluatorLemmas.ApplyStep | bnf-lang.py:105-107 | Operands with numeric outcomes and an operator give a numeric outcome. |
| EvaluatorLemmas.ExpressionOutcome | bnf-lang.py:84-91 | A derived expression under a numeric environment evaluates to a number, ZeroDivisionError, or NameError for an unbound variable. |
| EvaluatorLemmas.ExpressionTripleOutcome | bnf-lang.py:87-89 | The same for the three-child case. |
| EvaluatorLemmas.TermOutcome | bnf-lang.py:101-109 | The same for a derived term. |
| EvaluatorLemmas.TermTripleOutcome | bnf-lang.py:105-107 | The same for the three-child case. |
| EvaluatorLemmas.FactorOutcome | bnf-lang.py:119-127 | The same for a derived factor. |
| EvaluatorLemmas.ParsedTreesNeverMalformed | bnf-lang.py:79-154 | Every tree `parse_expression` returns evaluates to a number, a ZeroDivisionError or a NameError, never a TypeError or ValueError. |
| EvaluatorLemmas.ForeignShapesAreMalformed | bnf-lang.py:150-154 | A bare token, an unknown label, or a known label with a child count outside its cases is a TypeError or ValueError (`Malformed`). |
| DemoRuns.ParseDemo | bnf-lang.py:162-164 | The demo expression parses to the expected tree, with `*` and `/` binding tighter than `+`. |
| DemoRuns.DemoValue | bnf-lang.py:162-168 | For every x, y, z the demo evaluates to the float 10 + 2x + 3((y + z)/2). |
| DemoRuns.DemoRunsValues | bnf-lang.py:162-173 | The demo gives 19.5 for (1, 2, 3) and 39.0 for (10, 2, 4). |
| DemoRuns.TenValue | bnf-lang.py:139-149 | The constant "10" evaluates to 10. |
| DemoRuns.HalfSumValue | bnf-lang.py:105-115 | "(y+z)/2" evaluates to the float (y + z)/2. |
| SmallRuns.OneZeroFiveAsWritten | bnf-lang.py:139-149 | "105" parses to one constant and evaluates to 15. |
| SmallRuns.OneZeroFiveIntended | bnf-lang.py:139-149 | Read positionally, "105" evaluates to 105. |
| SmallRuns.TenAsWritten | bnf-lang.py:139-149 | "10" parses and evaluates to 10. |
| SmallRuns.RightAssociativeValue | bnf-lang.py:17 | "1-2-3" parses as 1-(2-3) and evaluates to 2. |
| SmallRuns.TrailingInputIgnored | bnf-lang.py:65-66 | "1+2)" parses, the `)` is left unread, and the tree is that of "1+2". |
| SmallRuns.RejectedInputs | bnf-lang.py:55-62 | "", "+1" and "(1" fail to parse. |
| SmallRuns.UnboundVariable | bnf-lang.py:129-137 | "x" with no binding is a NameError. |
| SmallRuns.DivisionByZeroRun | bnf-lang.py:115 | "1/0" parses and raises ZeroDivisionError. |
| SmallRuns.MalformedTrees | bnf-lang.py:150-154 | A bare token, an unknown label, a non-digit token under `digit`, a `*` under `sumop` and a two-child expression are errors. |

## Left out

- The demo driver (bnf-lang.py:159-173): its pretty printing and its reassignment of the globals `x`, `y`, `z` are not modelled. The environment is a parameter, and `DemoRuns` proves the values the driver would print.
- Float rounding: `FloatVal` holds an exact real, so true division and arithmetic on its results are exact.
- EvaluatorLemmas.ApplyNumbers: float overflow is not modelled. Python raises OverflowError when true division or arithmetic with a float (bnf-lang.py:115) meets an int too large for a float, for example `(10**400)/1` or `10**400 + 0.5`. `Evaluator.Apply` returns a value there. So "fails exactly on true division by zero" holds only for the exact-real idealisation, and so does the closed form of `DemoRuns.DemoValue` for very large x, y, z.
- Numerals.ParseIntStr: the limit on integer digits is not modelled. CPython 3.11 and later raises ValueError when converting an int of more than 4300 digits to or from text, so `numjoin` (bnf-lang.py:76) raises on such values. `Numerals.NumJoin` and `Numerals.NumJoinValue` have no such limit, and `int(str(n)) == n` is stated for every int.
- Non-number bindings of `x`, `y`, `z`: the evaluator accepts any `Value` in the environment, but the no-TypeError lemmas assume every binding is a number (`NumericEnv`).
- `KeyError` for a root rule that is not in the grammar (bnf-lang.py:56): `Parser.Parse` requires the rule to be in the grammar. `parse_part` only recurses into keys, and `parse_expression` always starts at `expression`, so only a direct outside call could reach it.
- Grammars that recurse without consuming a token: the parser requires `Disciplined(g, d)`. On such grammars the source recurses until Python's recursion limit; the interpreter's recursion limit is not modelled at all.
- Python's `int()` on text: `Numerals.ParseInt` accepts only an optional `-` followed by ASCII digits. Surrounding whitespace, underscores, a leading `+` and non-ASCII digits are not modelled. They never occur in parse trees of the grammar or in the output of `str`.
- Exception classes are collapsed: ValueError and IndexError during parsing are both `None`; TypeError and ValueError during evaluation are both `Malformed`.
- The tokenizer, printer and generator mentioned in comments (bnf-lang.py:28-30, 184-196) do not exist in the code.

## Findings

| source | as written | input that shows it | evidently intended | confidence | as-written member | corrected member |
|---|---|---|---|---|---|---|
| bnf-lang.py:139-145 | A two-child constant is `numjoin(evaluate(digit), evaluate(tail))`. The tail is printed from its int value, so the tail's leading zeros are lost. | "105": the tail "05" evaluates to 5, and numjoin(1, 5) is 15 | "105" evaluates to 105, the decimal value of its digits | not executed | EvaluatorLemmas.ConstantAsWritten | EvaluatorLemmas.ConstantPositional |

In the model, `SmallRuns.OneZeroFiveAsWritten` shows the wrong value (15), and
`SmallRuns.OneZeroFiveIntended` shows the intended one (105) under
`EvaluateIntended`. The evaluator takes the reading as a parameter, so every
structural lemma holds for both readings. This includes `ParsedTreesNeverMalformed`,
`ExpressionOutcome` and the operator and variable lemmas. The only multi-digit constant in
the demo expression is "10", and both readings give it the value 10.
