/** Conversion of boolean expressions to conjunctive normal form, under the three-valued logic
    of SQL. */
module Cnf {

  // --------------------------------------------------------------------- three-valued logic

  /** Truth values and connectives as in the truth tables of section 8.12 of ISO/IEC 9075:1992. */
  datatype Truth = False | Unknown | True

  function Not(a: Truth): Truth {
    match a
    case False => True
    case Unknown => Unknown
    case True => False
  }

  function And(a: Truth, b: Truth): Truth {
    if a == False || b == False then False
    else if a == Unknown || b == Unknown then Unknown
    else True
  }

  function Or(a: Truth, b: Truth): Truth {
    if a == True || b == True then True
    else if a == Unknown || b == Unknown then Unknown
    else False
  }

  /** A comparison with NULL is unknown. */
  function Equal(a: Truth, b: Truth): Truth {
    if a == Unknown || b == Unknown then Unknown else if a == b then True else False
  }

  // ------------------------------------------------------------- expressions and their meaning

  datatype Op = AndOp | OrOp | EqualOp | NotEqualOp

  /** Boolean expressions.  An atom is whatever the conversion does not look into: designators,
      constants, function applications, nested queries, comparisons of non-boolean operands. */
  datatype Expr = Atom(id: nat) | Negation(e: Expr) | Binary(op: Op, lhs: Expr, rhs: Expr)

  type Valuation = nat -> Truth

  function Eval(e: Expr, v: Valuation): Truth {
    match e
    case Atom(id) => v(id)
    case Negation(f) => Not(Eval(f, v))
    case Binary(op, l, r) => Apply(op, Eval(l, v), Eval(r, v))
  }

  function Apply(op: Op, a: Truth, b: Truth): Truth {
    match op
    case AndOp => And(a, b)
    case OrOp => Or(a, b)
    case EqualOp => Equal(a, b)
    case NotEqualOp => Not(Equal(a, b))
  }

  datatype Predicate = Predicate(id: nat, negative: bool)
  type Clause = seq<Predicate>
  type CNF = seq<Clause>

  function EvalPredicate(p: Predicate, v: Valuation): Truth {
    if p.negative then Not(v(p.id)) else v(p.id)
  }

  /** A clause is the disjunction of its predicates. */
  function EvalClause(c: Clause, v: Valuation): Truth {
    if c == [] then False else Or(EvalPredicate(c[0], v), EvalClause(c[1..], v))
  }

  /** A CNF is the conjunction of its clauses. */
  function EvalCnf(f: CNF, v: Valuation): Truth {
    if f == [] then True else And(EvalClause(f[0], v), EvalCnf(f[1..], v))
  }

  /** No disjunction in the formula is empty, nor the formula itself. */
  ghost predicate Proper(f: CNF) {
    f != [] && forall i :: 0 <= i < |f| ==> f[i] != []
  }

  // -------------------------------------------------------------------------- the operators

  /** `left` or each clause of `rhs`. */
  function OrEach(left: Clause, rhs: CNF): CNF {
    if rhs == [] then [] else OrEach(left, rhs[..|rhs| - 1]) + [left + rhs[|rhs| - 1]]
  }

  function OrAll(lhs: CNF, rhs: CNF): CNF {
    if lhs == [] then [] else OrAll(lhs[..|lhs| - 1], rhs) + OrEach(lhs[|lhs| - 1], rhs)
  }

  /** The disjunction of two formulas; an empty formula is neutral. */
  function OrCnf(lhs: CNF, rhs: CNF): CNF {
    if lhs == [] then rhs else if rhs == [] then lhs else OrAll(lhs, rhs)
  }

  function Opposite(p: Predicate): Predicate {
    p.(negative := !p.negative)
  }

  function NotClause(c: Clause): CNF {
    if c == [] then [] else [[Opposite(c[0])]] + NotClause(c[1..])
  }

  /** The negation of a formula, from the left: each clause is negated and joined by `or`. */
  function NotCnf(f: CNF): CNF {
    if f == [] then [] else OrCnf(NotCnf(f[..|f| - 1]), NotClause(f[|f| - 1]))
  }

  method OrOperator(lhs: CNF, rhs: CNF) returns (res: CNF)
    ensures res == OrCnf(lhs, rhs)
  {
    if |lhs| == 0 {
      return rhs;
    } else if |rhs| == 0 {
      return lhs;
    }
    hide OrEach, OrAll;
    res := [];
    var i := 0;
    OrAllStep(lhs, rhs, 0);
    while i < |lhs|
      invariant 0 <= i <= |lhs| && res == OrAll(lhs[..i], rhs)
    {
      var j := 0;
      OrEachStep(lhs[i], rhs, 0);
      while j < |rhs|
        invariant 0 <= j <= |rhs| && res == OrAll(lhs[..i], rhs) + OrEach(lhs[i], rhs[..j])
      {
        OrEachStep(lhs[i], rhs, j + 1);
        Associative(OrAll(lhs[..i], rhs), OrEach(lhs[i], rhs[..j]), [lhs[i] + rhs[j]]);
        res := res + [lhs[i] + rhs[j]];
        j := j + 1;
      }
      i := i + 1;
      assert rhs[..|rhs|] == rhs;
      OrAllStep(lhs, rhs, i);
    }
    assert lhs[..|lhs|] == lhs;
  }

  lemma Associative(a: CNF, b: CNF, c: CNF)
    ensures (a + b) + c == a + (b + c)
  {}

  lemma OrEachStep(left: Clause, rhs: CNF, j: nat)
    requires j <= |rhs|
    ensures OrEach(left, rhs[..j]) == if j == 0 then [] else OrEach(left, rhs[..j - 1]) + [left + rhs[j - 1]]
  {
    assert j > 0 ==> rhs[..j][..j - 1] == rhs[..j - 1];
  }

  lemma OrAllStep(lhs: CNF, rhs: CNF, i: nat)
    requires i <= |lhs|
    ensures OrAll(lhs[..i], rhs) == if i == 0 then [] else OrAll(lhs[..i - 1], rhs) + OrEach(lhs[i - 1], rhs)
  {
    assert i > 0 ==> lhs[..i][..i - 1] == lhs[..i - 1];
  }

  method NotClauseOperator(clause: Clause) returns (res: CNF)
    ensures res == NotClause(clause)
  {
    res := [];
    var i := 0;
    while i < |clause|
      invariant 0 <= i <= |clause| && res + NotClause(clause[i..]) == NotClause(clause)
    {
      assert clause[i..][1..] == clause[i + 1..];
      res := res + [[Opposite(clause[i])]];
      i := i + 1;
    }
  }

  method NotOperator(cnf: CNF) returns (res: CNF)
    ensures res == NotCnf(cnf)
  {
    res := [];
    var i := 0;
    while i < |cnf|
      invariant 0 <= i <= |cnf| && res == NotCnf(cnf[..i])
    {
      assert cnf[..i + 1][..i] == cnf[..i];
      var negated := NotClauseOperator(cnf[i]);
      res := OrOperator(res, negated);
      i := i + 1;
    }
    assert cnf[..|cnf|] == cnf;
  }

  // --------------------------------------------------------------- what the operators mean

  lemma Laws(a: Truth, b: Truth, c: Truth)
    ensures And(And(a, b), c) == And(a, And(b, c)) && Or(Or(a, b), c) == Or(a, Or(b, c))
    ensures Or(And(a, b), c) == And(Or(a, c), Or(b, c)) && Or(a, And(b, c)) == And(Or(a, b), Or(a, c))
    ensures Not(And(a, b)) == Or(Not(a), Not(b)) && Not(Or(a, b)) == And(Not(a), Not(b))
    ensures And(True, a) == a && Or(False, a) == a && Or(True, a) == True && And(a, True) == a && Or(a, False) == a
  {}

  lemma {:induction false} AppendMeansAnd(f: CNF, g: CNF, v: Valuation)
    ensures EvalCnf(f + g, v) == And(EvalCnf(f, v), EvalCnf(g, v))
  {
    if f == [] {
      assert f + g == g;
      Laws(EvalCnf(g, v), True, True);
    } else {
      AppendMeansAnd(f[1..], g, v);
      assert (f + g)[1..] == f[1..] + g && (f + g)[0] == f[0];
      Laws(EvalClause(f[0], v), EvalCnf(f[1..], v), EvalCnf(g, v));
      hide And, EvalClause;
    }
  }

  lemma {:induction false} AppendMeansOr(c: Clause, d: Clause, v: Valuation)
    ensures EvalClause(c + d, v) == Or(EvalClause(c, v), EvalClause(d, v))
  {
    if c == [] {
      assert c + d == d;
      Laws(EvalClause(d, v), True, True);
    } else {
      AppendMeansOr(c[1..], d, v);
      assert (c + d)[1..] == c[1..] + d && (c + d)[0] == c[0];
      Laws(EvalPredicate(c[0], v), EvalClause(c[1..], v), EvalClause(d, v));
      hide Or, EvalPredicate;
    }
  }

  lemma SingleClause(c: Clause, v: Valuation)
    ensures EvalCnf([c], v) == EvalClause(c, v)
  {
    assert [c][1..] == [];
    Laws(EvalClause(c, v), True, True);
  }

  lemma {:induction false} OrEachMeansOr(c: Clause, g: CNF, v: Valuation)
    ensures EvalCnf(OrEach(c, g), v) == Or(EvalClause(c, v), EvalCnf(g, v))
    ensures |OrEach(c, g)| == |g|
    ensures c != [] ==> forall i :: 0 <= i < |OrEach(c, g)| ==> OrEach(c, g)[i] != []
  {
    if g == [] {
    } else {
      var init, last := g[..|g| - 1], g[|g| - 1];
      assert g == init + [last];
      OrEachMeansOr(c, init, v);
      AppendMeansOr(c, last, v);
      hide EvalClause, EvalCnf;
      SingleClause(c + last, v);
      SingleClause(last, v);
      AppendMeansAnd(OrEach(c, init), [c + last], v);
      AppendMeansAnd(init, [last], v);
      Laws(EvalClause(c, v), EvalCnf(init, v), EvalClause(last, v));
      hide Or, And;
    }
  }

  lemma {:induction false} OrAllMeansOr(f: CNF, g: CNF, v: Valuation)
    ensures EvalCnf(OrAll(f, g), v) == Or(EvalCnf(f, v), EvalCnf(g, v))
  {
    if f == [] {
    } else {
      var init, last := f[..|f| - 1], f[|f| - 1];
      assert f == init + [last];
      OrAllMeansOr(init, g, v);
      OrEachMeansOr(last, g, v);
      hide EvalClause, EvalCnf, OrEach;
      SingleClause(last, v);
      AppendMeansAnd(OrAll(init, g), OrEach(last, g), v);
      AppendMeansAnd(init, [last], v);
      Laws(EvalCnf(init, v), EvalClause(last, v), EvalCnf(g, v));
      hide Or, And;
    }
  }

  lemma {:induction false} OrAllShape(f: CNF, g: CNF)
    ensures |OrAll(f, g)| == |f| * |g|
    ensures (forall i :: 0 <= i < |f| ==> f[i] != []) ==> forall i :: 0 <= i < |OrAll(f, g)| ==> OrAll(f, g)[i] != []
  {
    if f != [] {
      OrAllShape(f[..|f| - 1], g);
      OrEachMeansOr(f[|f| - 1], g, _ => Unknown);
      hide OrEach;
      assert |f| * |g| == (|f| - 1) * |g| + |g|;
    }
  }

  /** The disjunction of two proper formulas is proper and means `or`. */
  lemma OrMeansOr(f: CNF, g: CNF, v: Valuation)
    requires Proper(f) && Proper(g)
    ensures EvalCnf(OrCnf(f, g), v) == Or(EvalCnf(f, v), EvalCnf(g, v))
    ensures Proper(OrCnf(f, g)) && |OrCnf(f, g)| == |f| * |g|
  {
    hide OrAll, EvalCnf, Or;
    OrAllMeansOr(f, g, v);
    OrAllShape(f, g);
    assert |f| * |g| > 0;
  }

  lemma {:induction false} NotClauseMeansNot(c: Clause, v: Valuation)
    ensures EvalCnf(NotClause(c), v) == Not(EvalClause(c, v))
    ensures |NotClause(c)| == |c|
    ensures forall i :: 0 <= i < |NotClause(c)| ==> NotClause(c)[i] != []
  {
    if c == [] {
    } else {
      NotClauseMeansNot(c[1..], v);
      assert NotClause(c)[1..] == NotClause(c[1..]);
      assert [Opposite(c[0])][1..] == [];
      assert EvalClause([Opposite(c[0])], v) == Not(EvalPredicate(c[0], v));
      Laws(EvalPredicate(c[0], v), EvalClause(c[1..], v), True);
      hide Or, And, Not, EvalPredicate;
    }
  }

  function ProductOfSizes(f: CNF): nat {
    if f == [] then 1 else ProductOfSizes(f[..|f| - 1]) * |f[|f| - 1]|
  }

  /** The negation of a proper formula is proper, means `not`, and has as many clauses as the
      product of the sizes of its clauses. */
  lemma {:induction false} NotMeansNot(f: CNF, v: Valuation)
    requires Proper(f)
    ensures EvalCnf(NotCnf(f), v) == Not(EvalCnf(f, v))
    ensures Proper(NotCnf(f)) && |NotCnf(f)| == ProductOfSizes(f)
  {
    var k := |f| - 1;
    var init, last := f[..k], f[k];
    assert f == init + [last];
    AppendMeansAnd(init, [last], v);
    NotClauseMeansNot(last, v);
    SingleClause(last, v);
    Laws(EvalCnf(init, v), EvalClause(last, v), True);
    hide NotClause, OrCnf, EvalClause;
    if init == [] {
      assert NotCnf(f) == NotClause(last);
    } else {
      NotMeansNot(init, v);
      OrMeansOr(NotCnf(init), NotClause(last), v);
    }
  }

  // -------------------------------------------------------------------------- the conversion

  /** The formula the generator builds for `e`, negated if `negative`.  The operands of a
      comparison are converted in the same polarity. */
  function ToCnf(e: Expr, negative: bool): CNF {
    match e
    case Atom(id) => [[Predicate(id, negative)]]
    case Negation(f) => ToCnf(f, !negative)
    case Binary(op, l, r) => Connect(op, negative, ToCnf(l, negative), ToCnf(r, negative))
  }

  function Connect(op: Op, negative: bool, lhs: CNF, rhs: CNF): CNF {
    if (!negative && op == AndOp) || (negative && op == OrOp) then lhs + rhs
    else if (!negative && op == OrOp) || (negative && op == AndOp) then OrCnf(lhs, rhs)
    else
      var equiv := OrCnf(NotCnf(lhs), rhs) + OrCnf(NotCnf(rhs), lhs);
      if (!negative && op == NotEqualOp) || (negative && op == EqualOp) then NotCnf(equiv) else equiv
  }

  /** The visitor with its two fields. */
  class CNFGenerator {
    var isNegative: bool
    var result: CNF

    constructor ()
      ensures !isNegative && result == []
    {
      isNegative, result := false, [];
    }

    method Visit(e: Expr)
      modifies this
      ensures result == ToCnf(e, old(isNegative)) && isNegative == old(isNegative)
      decreases e
    {
      match e
      case Atom(id) =>
        result := [[Predicate(id, isNegative)]];
      case Negation(f) =>
        isNegative := !isNegative;
        Visit(f);
        isNegative := !isNegative;
      case Binary(op, l, r) =>
        Visit(l);
        var lhs := result;
        Visit(r);
        var rhs := result;
        if (!isNegative && op == AndOp) || (isNegative && op == OrOp) {
          result := lhs + rhs;
        } else if (!isNegative && op == OrOp) || (isNegative && op == AndOp) {
          result := OrOperator(lhs, rhs);
        } else {
          var notLhs := NotOperator(lhs);
          var notRhs := NotOperator(rhs);
          var forward := OrOperator(notLhs, rhs);
          var backward := OrOperator(notRhs, lhs);
          var equiv := forward + backward;
          if (!isNegative && op == NotEqualOp) || (isNegative && op == EqualOp) {
            result := NotOperator(equiv);
          } else {
            result := equiv;
          }
        }
    }
  }

  method ConvertToCnf(e: Expr) returns (f: CNF)
    ensures f == ToCnf(e, false)
    ensures Proper(f) && forall v: Valuation :: EvalCnf(f, v) == Eval(e, v)
  {
    var g := new CNFGenerator();
    g.Visit(e);
    f := g.result;
    forall v: Valuation ensures Proper(f) && EvalCnf(f, v) == Eval(e, v) {
      ConversionPreservesTruth(e, false, v);
    }
    ConversionPreservesTruth(e, false, _ => Unknown);
  }

  lemma SinglePredicate(p: Predicate, v: Valuation)
    ensures EvalCnf([[p]], v) == EvalPredicate(p, v)
  {
    SingleClause([p], v);
    assert [p][1..] == [];
    Laws(EvalPredicate(p, v), True, True);
  }

  lemma AppendProper(f: CNF, g: CNF)
    requires Proper(f) && Proper(g)
    ensures Proper(f + g)
  {}

  /** The conversion preserves three-valued truth in both polarities, and never builds an empty
      formula or clause. */
  lemma {:induction false} ConversionPreservesTruth(e: Expr, negative: bool, v: Valuation)
    ensures EvalCnf(ToCnf(e, negative), v) == if negative then Not(Eval(e, v)) else Eval(e, v)
    ensures Proper(ToCnf(e, negative))
  {
    match e
    case Atom(id) =>
      SinglePredicate(Predicate(id, negative), v);
    case Negation(f) =>
      ConversionPreservesTruth(f, !negative, v);
    case Binary(op, l, r) =>
      ConversionPreservesTruth(l, negative, v);
      ConversionPreservesTruth(r, negative, v);
      ConnectPreservesTruth(op, negative, ToCnf(l, negative), ToCnf(r, negative), Eval(l, v), Eval(r, v), v);
      hide EvalCnf, Connect, Apply, Proper, Not;
  }

  lemma ConnectPreservesTruth(op: Op, negative: bool, lhs: CNF, rhs: CNF, a: Truth, b: Truth, v: Valuation)
    requires Proper(lhs) && Proper(rhs)
    requires EvalCnf(lhs, v) == (if negative then Not(a) else a) && EvalCnf(rhs, v) == (if negative then Not(b) else b)
    ensures EvalCnf(Connect(op, negative, lhs, rhs), v) == if negative then Not(Apply(op, a, b)) else Apply(op, a, b)
    ensures Proper(Connect(op, negative, lhs, rhs))
  {
    hide EvalCnf, NotCnf, OrCnf, Proper, And, Or, Equal, Not;
    ConnectivePreservesTruth(lhs, rhs, v);
    Duality(a, b);
  }

  lemma Duality(a: Truth, b: Truth)
    ensures Not(And(a, b)) == Or(Not(a), Not(b)) && Not(Or(a, b)) == And(Not(a), Not(b))
    ensures Equal(Not(a), Not(b)) == Equal(a, b) && Not(Not(a)) == a
    ensures Not(Not(Equal(a, b))) == Equal(a, b)
  {}

  /** The meaning of what is built from the converted operands. */
  lemma ConnectivePreservesTruth(lhs: CNF, rhs: CNF, v: Valuation)
    requires Proper(lhs) && Proper(rhs)
    ensures Proper(lhs + rhs) && EvalCnf(lhs + rhs, v) == And(EvalCnf(lhs, v), EvalCnf(rhs, v))
    ensures Proper(OrCnf(lhs, rhs)) && EvalCnf(OrCnf(lhs, rhs), v) == Or(EvalCnf(lhs, v), EvalCnf(rhs, v))
    ensures var equiv := OrCnf(NotCnf(lhs), rhs) + OrCnf(NotCnf(rhs), lhs);
            && Proper(equiv) && EvalCnf(equiv, v) == Equal(EvalCnf(lhs, v), EvalCnf(rhs, v))
            && Proper(NotCnf(equiv)) && EvalCnf(NotCnf(equiv), v) == Not(Equal(EvalCnf(lhs, v), EvalCnf(rhs, v)))
  {
    hide EvalCnf, NotCnf, OrCnf, Proper;
    AppendMeansAnd(lhs, rhs, v);
    AppendProper(lhs, rhs);
    OrMeansOr(lhs, rhs, v);
    NotMeansNot(lhs, v);
    NotMeansNot(rhs, v);
    var forward, backward := OrCnf(NotCnf(lhs), rhs), OrCnf(NotCnf(rhs), lhs);
    OrMeansOr(NotCnf(lhs), rhs, v);
    OrMeansOr(NotCnf(rhs), lhs, v);
    AppendMeansAnd(forward, backward, v);
    AppendProper(forward, backward);
    NotMeansNot(forward + backward, v);
  }
}
