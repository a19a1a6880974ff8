/** License expressions: the one-pass validator accepts exactly what the grammar derives. */
module Spdx {

  const NOASSERTION := "NOASSERTION"

  const KNOWN_IDENTIFIERS: set<string> := {
    "MIT", "Apache-2.0", "BSD-2-Clause", "BSD-3-Clause", "ISC", "GPL-2.0-only", "GPL-2.0-or-later", "GPL-3.0-only",
    "GPL-3.0-or-later", "LGPL-2.1-only", "LGPL-2.1-or-later", "LGPL-3.0-only", "LGPL-3.0-or-later", "MPL-2.0",
    "AGPL-3.0-only", "AGPL-3.0-or-later", "CC0-1.0", "CC-BY-4.0", "CC-BY-SA-4.0", "Unlicense", "0BSD"
  }

  predicate IsOperator(token: string) {
    token == "AND" || token == "OR" || token == "WITH"
  }

  /** A known identifier, with or without the or-later suffix. */
  predicate IsLicense(token: string) {
    && token != "(" && token != ")" && !IsOperator(token)
    && (if token != "" && token[|token| - 1] == '+' then token[..|token| - 1] else token) in KNOWN_IDENTIFIERS
  }

  // ----- the grammar

  /** An expression is terms joined by operators; a term is an identifier or a parenthesized expression. */
  datatype Expression = Single(term: Term) | Compound(left: Expression, operator: string, term: Term)
  datatype Term = License(identifier: string) | Parenthesized(inner: Expression)

  predicate WellFormed(e: Expression) {
    match e
    case Single(t) => WellFormedTerm(t)
    case Compound(l, op, t) => WellFormed(l) && IsOperator(op) && WellFormedTerm(t)
  }

  predicate WellFormedTerm(t: Term) {
    match t
    case License(id) => IsLicense(id)
    case Parenthesized(e) => WellFormed(e)
  }

  function Tokens(e: Expression): seq<string> {
    match e
    case Single(t) => TermTokens(t)
    case Compound(l, op, t) => Tokens(l) + [op] + TermTokens(t)
  }

  function TermTokens(t: Term): seq<string> {
    match t
    case License(id) => [id]
    case Parenthesized(e) => ["("] + Tokens(e) + [")"]
  }

  ghost predicate Derives(tokens: seq<string>) {
    exists e :: WellFormed(e) && Tokens(e) == tokens
  }

  // ----- the automaton

  /** Whether the rest of the tokens is accepted at this depth, expecting an operand or not. */
  predicate Accepts(tokens: seq<string>, depth: nat, expectOperand: bool)
    decreases |tokens|
  {
    if tokens == [] then depth == 0 && !expectOperand
    else if tokens[0] == "(" then expectOperand && Accepts(tokens[1..], depth + 1, true)
    else if tokens[0] == ")" then !expectOperand && depth > 0 && Accepts(tokens[1..], depth - 1, false)
    else if IsOperator(tokens[0]) then !expectOperand && Accepts(tokens[1..], depth, true)
    else expectOperand && IsLicense(tokens[0]) && Accepts(tokens[1..], depth, false)
  }

  /** `validate_spdx_expression`, from the stripped expression and its tokens. */
  method ValidateSpdxExpression(stripped: string, tokens: seq<string>) returns (valid: bool)
    ensures valid <==> stripped == NOASSERTION || Derives(tokens)
  {
    hide IsLicense;
    if stripped == NOASSERTION {
      return true;
    }
    AcceptsIffDerives(tokens);
    if tokens == [] {
      return false;
    }
    hide Derives;
    var depth, expectOperand := 0, true;
    for i := 0 to |tokens|
      invariant depth >= 0 && Accepts(tokens, 0, true) == Accepts(tokens[i..], depth, expectOperand)
    {
      var token := tokens[i];
      assert tokens[i..][0] == token && tokens[i..][1..] == tokens[i + 1..];
      if token == "(" {
        if !expectOperand { return false; }
        depth := depth + 1;
      } else if token == ")" {
        if expectOperand || depth == 0 { return false; }
        depth := depth - 1;
      } else if IsOperator(token) {
        if expectOperand { return false; }
        expectOperand := true;
      } else {
        if !expectOperand { return false; }
        if !IsLicense(token) { return false; }
        expectOperand := false;
      }
    }
    return depth == 0 && !expectOperand;
  }

  // ----- what is derived is accepted

  lemma AcceptsCons(token: string, rest: seq<string>, depth: nat, expectOperand: bool)
    ensures Accepts([token] + rest, depth, expectOperand) ==
      if token == "(" then expectOperand && Accepts(rest, depth + 1, true)
      else if token == ")" then !expectOperand && depth > 0 && Accepts(rest, depth - 1, false)
      else if IsOperator(token) then !expectOperand && Accepts(rest, depth, true)
      else expectOperand && IsLicense(token) && Accepts(rest, depth, false)
  {
    assert ([token] + rest)[1..] == rest;
  }

  /** Reading an expression where an operand is expected leads to a point where none is, at the same depth. */
  lemma {:induction false} ReadsExpression(e: Expression, rest: seq<string>, depth: nat)
    requires WellFormed(e)
    ensures Accepts(Tokens(e) + rest, depth, true) == Accepts(rest, depth, false)
  {
    hide Accepts, IsLicense;
    match e
    case Single(t) => ReadsTerm(t, rest, depth);
    case Compound(l, op, t) =>
      assert Tokens(e) + rest == Tokens(l) + ([op] + (TermTokens(t) + rest));
      ReadsExpression(l, [op] + (TermTokens(t) + rest), depth);
      AcceptsCons(op, TermTokens(t) + rest, depth, false);
      ReadsTerm(t, rest, depth);
  }

  lemma {:induction false} ReadsTerm(t: Term, rest: seq<string>, depth: nat)
    requires WellFormedTerm(t)
    ensures Accepts(TermTokens(t) + rest, depth, true) == Accepts(rest, depth, false)
  {
    hide Accepts;
    match t
    case License(id) => AcceptsCons(id, rest, depth, true);
    case Parenthesized(e) =>
      assert TermTokens(t) + rest == ["("] + (Tokens(e) + ([")"] + rest));
      AcceptsCons("(", Tokens(e) + ([")"] + rest), depth, true);
      ReadsExpression(e, [")"] + rest, depth + 1);
      AcceptsCons(")", rest, depth + 1, false);
  }

  // ----- what is accepted is derived

  /** The automaton stands after a whole expression: at the end, or before a closing parenthesis. */
  ghost predicate AtEnd(rest: seq<string>, depth: nat) {
    Accepts(rest, depth, false) && (rest == [] || rest[0] == ")")
  }

  /** Where an operand is expected and the rest is accepted, a term comes first. */
  lemma {:induction false} FindTerm(tokens: seq<string>, depth: nat) returns (t: Term, rest: seq<string>)
    requires Accepts(tokens, depth, true)
    ensures WellFormedTerm(t) && tokens == TermTokens(t) + rest && Accepts(rest, depth, false)
    decreases |tokens|, 0
  {
    hide IsLicense;
    if tokens[0] == "(" {
      var e, after := FindExpression(tokens[1..], depth + 1);
      t, rest := Parenthesized(e), after[1..];
      assert tokens == ["("] + tokens[1..] && after == [")"] + rest;
    } else {
      t, rest := License(tokens[0]), tokens[1..];
    }
  }

  lemma {:induction false} FindExpression(tokens: seq<string>, depth: nat) returns (e: Expression, rest: seq<string>)
    requires Accepts(tokens, depth, true)
    ensures WellFormed(e) && tokens == Tokens(e) + rest && AtEnd(rest, depth)
    decreases |tokens|, 1
  {
    var t, after := FindTerm(tokens, depth);
    e, rest := Extend(Single(t), after, depth);
  }

  /** Further operators and terms extend the expression to the left of them. */
  lemma {:induction false} Extend(left: Expression, tokens: seq<string>, depth: nat) returns (e: Expression,
                                  rest: seq<string>)
    requires WellFormed(left) && Accepts(tokens, depth, false)
    ensures WellFormed(e) && Tokens(left) + tokens == Tokens(e) + rest && AtEnd(rest, depth)
    decreases |tokens|, 0
  {
    hide IsLicense;
    if tokens == [] || tokens[0] == ")" {
      e, rest := left, tokens;
    } else {
      var t, after := FindTerm(tokens[1..], depth);
      assert tokens == [tokens[0]] + (TermTokens(t) + after);
      var longer := Compound(left, tokens[0], t);
      assert Tokens(left) + tokens == Tokens(longer) + after;
      e, rest := Extend(longer, after, depth);
    }
  }

  /** The one-pass automaton accepts exactly the derivable token lists. */
  lemma AcceptsIffDerives(tokens: seq<string>)
    ensures Accepts(tokens, 0, true) <==> Derives(tokens)
    ensures Derives(tokens) ==> tokens != []
  {
    if Accepts(tokens, 0, true) {
      var e, rest := FindExpression(tokens, 0);
      assert Tokens(e) + [] == Tokens(e);
    }
    if Derives(tokens) {
      var e :| WellFormed(e) && Tokens(e) == tokens;
      ReadsExpression(e, [], 0);
      assert Tokens(e) + [] == tokens;
    }
  }

  // ----- what the derivable token lists are closed under

  /** A known identifier, or one with a plus sign after it. */
  lemma LicenseIs(token: string)
    ensures IsLicense(token) <==>
      token in KNOWN_IDENTIFIERS || exists base :: base in KNOWN_IDENTIFIERS && token == base + "+"
  {
    KnownEnd();
    KnownAreNotOperators();
    hide KNOWN_IDENTIFIERS;
    if token != "" && token[|token| - 1] == '+' {
      var base := token[..|token| - 1];
      assert token == base + "+";
      if IsLicense(token) {
        assert base in KNOWN_IDENTIFIERS;
      }
      forall other | other in KNOWN_IDENTIFIERS && token == other + "+" ensures other == base {
        assert token[..|token| - 1] == other;
      }
    } else {
      forall other | other in KNOWN_IDENTIFIERS ensures token != other + "+" {
        assert (other + "+")[|other|] == '+';
      }
    }
  }

  lemma KnownEnd()
    ensures forall token :: token in KNOWN_IDENTIFIERS ==> |token| > 0 && token[|token| - 1] != '+'
  {
  }

  lemma KnownAreNotOperators()
    ensures "(" !in KNOWN_IDENTIFIERS && ")" !in KNOWN_IDENTIFIERS
    ensures "AND" !in KNOWN_IDENTIFIERS && "OR" !in KNOWN_IDENTIFIERS && "WITH" !in KNOWN_IDENTIFIERS
  {
  }

  /** A single token is an expression exactly if it is a license. */
  lemma SingleDerives(token: string)
    ensures Derives([token]) <==> IsLicense(token)
  {
    AcceptsIffDerives([token]);
    assert [token][1..] == [];
    LicenseNotPunctuation();
  }

  lemma LicenseNotPunctuation()
    ensures !IsLicense("(") && !IsLicense(")") && !IsLicense("AND") && !IsLicense("OR") && !IsLicense("WITH")
  {
  }

  /** Expressions may be joined by AND, OR and WITH, and put in parentheses. */
  lemma DerivesClosed(a: seq<string>, op: string, b: seq<string>)
    requires Derives(a) && Derives(b) && (op == "AND" || op == "OR" || op == "WITH")
    ensures Derives(a + [op] + b) && Derives(["("] + a + [")"])
  {
    var d :| WellFormed(d) && Tokens(d) == a;
    var e :| WellFormed(e) && Tokens(e) == b;
    var joined := JoinExpressions(d, op, e);
    var single := Single(Parenthesized(d));
    assert WellFormedTerm(single.term) && TermTokens(single.term) == ["("] + a + [")"];
    assert WellFormed(single) && Tokens(single) == TermTokens(single.term);
  }

  lemma {:induction false} JoinExpressions(d: Expression, op: string, e: Expression) returns (joined: Expression)
    requires WellFormed(d) && WellFormed(e) && IsOperator(op)
    ensures WellFormed(joined) && Tokens(joined) == Tokens(d) + [op] + Tokens(e)
    decreases e
  {
    match e
    case Single(t) => joined := Compound(d, op, t);
    case Compound(l, next, t) =>
      var before := JoinExpressions(d, op, l);
      joined := Compound(before, next, t);
  }
}
