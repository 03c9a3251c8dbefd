/** The pass that drops the attributes of an operator tree that nothing above needs. */
module SchemaMinimization {
  import opened Operators

  // -------------------------------------------------------------------------------- schemas

  /** The entries of `s` that `t` has too. */
  function Both(s: Schema, t: Schema): Schema {
    if s == [] then [] else (if s[0] in t then [s[0]] else []) + Both(s[1..], t)
  }

  /** `s`, and the entries of `t` that it lacks. */
  function Either(s: Schema, t: Schema): Schema
    decreases |t|
  {
    if t == [] then s else Either(if t[0] in s then s else s + [t[0]], t[1..])
  }

  function Gather<T>(s: Schema, fs: seq<Fn<T>>): Schema {
    if fs == [] then s else Either(Gather(s, fs[..|fs| - 1]), fs[|fs| - 1].required)
  }

  function Keep<T>(fs: seq<Fn<T>>, required: Schema, top: bool): seq<Fn<T>> {
    if fs == [] then []
    else Keep(fs[..|fs| - 1], required, top) + if top || fs[|fs| - 1].id in required then [fs[|fs| - 1]] else []
  }

  lemma IdsSplit(s: Schema)
    requires s != []
    ensures Ids(s) == {s[0]} + Ids(s[1..])
    ensures Distinct(s) <==> s[0] !in Ids(s[1..]) && Distinct(s[1..])
  {
    assert s == [s[0]] + s[1..];
    if s[0] !in Ids(s[1..]) && Distinct(s[1..]) {
      forall i, j | 0 <= i < j < |s| ensures s[i] != s[j] {
        assert s[j] == s[1..][j - 1] && (i > 0 ==> s[i] == s[1..][i - 1]);
      }
    }
    if Distinct(s) {
      assert forall i :: 0 <= i < |s[1..]| ==> s[1..][i] == s[i + 1];
    }
  }

  lemma {:induction false} BothMembers(s: Schema, t: Schema)
    ensures Ids(Both(s, t)) == Ids(s) * Ids(t)
    ensures Distinct(s) ==> Distinct(Both(s, t))
  {
    if s != [] {
      BothMembers(s[1..], t);
      IdsSplit(s);
      var rest := Both(s[1..], t);
      IdsSplit([s[0]] + rest);
      assert ([s[0]] + rest)[1..] == rest;
      assert [] + rest == rest;
      hide Distinct;
    }
  }

  lemma AddId(s: Schema, i: Id)
    ensures Ids(s + [i]) == Ids(s) + {i}
    ensures Distinct(s + [i]) <==> Distinct(s) && i !in Ids(s)
  {
    var longer := s + [i];
    assert longer[|s|] == i && forall k :: 0 <= k < |s| ==> longer[k] == s[k];
    if Distinct(longer) {
      assert forall k :: 0 <= k < |s| ==> s[k] != longer[|s|];
    }
  }

  lemma {:induction false} EitherMembers(s: Schema, t: Schema)
    ensures Ids(Either(s, t)) == Ids(s) + Ids(t)
    ensures Distinct(s) ==> Distinct(Either(s, t))
    decreases |t|
  {
    if t != [] {
      EitherMembers(if t[0] in s then s else s + [t[0]], t[1..]);
      IdsSplit(t);
      AddId(s, t[0]);
      hide Distinct;
    }
  }

  ghost function RequiredIds<T>(fs: seq<Fn<T>>): set<Id> {
    set f, i | f in fs && i in f.required :: i
  }

  lemma {:induction false} GatherMembers<T>(s: Schema, fs: seq<Fn<T>>)
    ensures Ids(Gather(s, fs)) == Ids(s) + RequiredIds(fs)
    ensures Distinct(s) ==> Distinct(Gather(s, fs))
  {
    if fs != [] {
      var init, last := fs[..|fs| - 1], fs[|fs| - 1];
      assert fs == init + [last];
      GatherMembers(s, init);
      EitherMembers(Gather(s, init), last.required);
      assert RequiredIds(fs) == RequiredIds(init) + Ids(last.required);
    }
  }

  lemma {:induction false} KeptAreSome<T>(fs: seq<Fn<T>>, required: Schema, top: bool)
    ensures forall f :: f in Keep(fs, required, top) <==> f in fs && (top || f.id in required)
  {
    if fs != [] {
      KeptAreSome(fs[..|fs| - 1], required, top);
      assert fs == fs[..|fs| - 1] + [fs[|fs| - 1]];
    }
  }

  lemma {:induction false} NamesMembers<T>(fs: seq<Fn<T>>, i: Id)
    ensures i in NamesOf(fs) <==> exists f :: f in fs && f.id == i
  {
    if fs != [] {
      NamesMembers(fs[..|fs| - 1], i);
      assert fs == fs[..|fs| - 1] + [fs[|fs| - 1]];
    }
  }

  // ------------------------------------------------------------------------------- the pass

  /** What an operator requires from below, given what is required above, or that it is at the
      top of the plan where everything is required. */
  function RequiredBelow(op: Op, required: Schema, top: bool): Schema {
    match op
    case FilterOp(cond, _, s) => if top then s else Either(required, cond.required)
    case JoinOp(cond, _, s) => if top then s else Either(required, cond.required)
    case Projection(ps, _, _) => Gather([], Keep(ps, required, top))
    case Grouping(keys, aggs, _, _) => Gather(Gather([], keys), Keep(aggs, required, top))
    case Aggregation(aggs, _, _) => Gather([], Keep(aggs, required, top))
    case Sorting(fs, _, _, s) => if top then s else Gather(required, fs)
    case _ => required
  }

  predicate StaysTop(op: Op, top: bool) {
    top && (op.Pass? || op.Limit?)
  }

  predicate Unary(op: Op) {
    !op.NoInput? && !op.Scan? && !op.JoinOp?
  }

  /** The operator over its minimised child. */
  function Rebuild(op: Op, child: Op, required: Schema, top: bool): Op
    requires Unary(op)
  {
    match op
    case Pass(_, _) => Pass(child, child.schema)
    case FilterOp(cond, _, s) => FilterOp(cond, child, if top then s else required)
    case Projection(ps, _, _) => Projection(Keep(ps, required, top), child, NamesOf(Keep(ps, required, top)))
    case Limit(limit, offset, _, _) => Limit(limit, offset, child, child.schema)
    case Grouping(keys, aggs, _, _) =>
      Grouping(keys, Keep(aggs, required, top), child, NamesOf(keys) + NamesOf(Keep(aggs, required, top)))
    case Aggregation(aggs, _, _) => Aggregation(Keep(aggs, required, top), child, NamesOf(Keep(aggs, required, top)))
    case Sorting(fs, order, _, s) => Sorting(fs, order, child, if top then s else required)
  }

  /** The minimised operator. */
  function Minimize(op: Op, required: Schema, top: bool): Op
    decreases op
  {
    match op
    case NoInput(_) => op
    case Scan(table, s) => if top then op else Scan(table, Both(required, s))
    case JoinOp(cond, cs, s) => JoinOp(cond, MinimizeAll(cs, RequiredBelow(op, required, top)),
                                       if top then s else required)
    case _ => Rebuild(op, Minimize(op.child, RequiredBelow(op, required, top), StaysTop(op, top)), required, top)
  }

  function MinimizeAll(cs: OpList, below: Schema): OpList
    decreases cs
  {
    match cs
    case None => None
    case More(c, rest) => More(Minimize(c, Both(below, c.schema), false), MinimizeAll(rest, below))
  }

  /** What is required of a well-formed operator: some of its attributes, unless it is at the top. */
  ghost predicate Asked(op: Op, required: Schema, top: bool) {
    WellFormed(op) && (!top ==> Distinct(required) && Ids(required) <= Ids(op.schema))
  }

  /** The lists of an operator that the pass takes to have a first element: it asserts that there are
      aggregates, and it forms a reference to the first projection. */
  datatype Lists = Aggregates | Projections

  /** All such lists of one kind have elements. */
  predicate Occupied(op: Op, lists: Lists) {
    match op
    case NoInput(_) => true
    case Scan(_, _) => true
    case Pass(c, _) => Occupied(c, lists)
    case FilterOp(_, c, _) => Occupied(c, lists)
    case JoinOp(_, cs, _) => AllOccupied(cs, lists)
    case Projection(ps, c, _) => (lists == Projections ==> ps != []) && Occupied(c, lists)
    case Limit(_, _, c, _) => Occupied(c, lists)
    case Grouping(_, _, c, _) => Occupied(c, lists)
    case Aggregation(aggs, c, _) => (lists == Aggregates ==> aggs != []) && Occupied(c, lists)
    case Sorting(_, _, c, _) => Occupied(c, lists)
  }

  predicate AllOccupied(cs: OpList, lists: Lists) {
    match cs
    case None => true
    case More(c, rest) => Occupied(c, lists) && AllOccupied(rest, lists)
  }

  /** The pass can run: no assertion fails and every reference is to an element. */
  predicate Runnable(op: Op) {
    Occupied(op, Aggregates) && Occupied(op, Projections)
  }

  predicate AllRunnable(cs: OpList) {
    AllOccupied(cs, Aggregates) && AllOccupied(cs, Projections)
  }

  // ------------------------------------------------------------- what is asked of the children

  /** Whatever is asked of an operator, it asks only for attributes that its child has. */
  lemma AskedBelow(op: Op, required: Schema, top: bool)
    requires Asked(op, required, top) && Unary(op)
    ensures Asked(op.child, RequiredBelow(op, required, top), StaysTop(op, top))
  {
    hide LocalFn, LocalAggregate, Distinct, Keep, Gather, Either;
    match op
    case FilterOp(cond, _, _) =>
      EitherMembers(required, cond.required);
    case Projection(ps, _, _) =>
      NamesWithin(ps, required, top, Ids(op.child.schema));
      GatherMembers([], Keep(ps, required, top));
      NoIds();
    case Grouping(keys, aggs, _, _) =>
      NamesWithin(aggs, required, top, Ids(op.child.schema));
      GatherMembers([], keys);
      GatherMembers(Gather([], keys), Keep(aggs, required, top));
      NoIds();
    case Aggregation(aggs, _, _) =>
      NamesWithin(aggs, required, top, Ids(op.child.schema));
      GatherMembers([], Keep(aggs, required, top));
      NoIds();
    case Sorting(fs, _, _, _) =>
      GatherMembers(required, fs);
    case _ =>
  }

  lemma NoIds()
    ensures Ids([]) == {} && Distinct([])
  {}

  lemma NamesWithin<T>(fs: seq<Fn<T>>, required: Schema, top: bool, below: set<Id>)
    requires forall f :: f in fs ==> Ids(f.required) <= below
    ensures RequiredIds(Keep(fs, required, top)) <= below
  {
    KeptAreSome(fs, required, top);
    hide Keep;
    forall f, i | f in Keep(fs, required, top) && i in f.required ensures i in below {
      assert i in Ids(f.required);
    }
  }

  lemma SuffixStep<T>(s: seq<T>, t: seq<T>, k: nat)
    requires k < |s| == |t| && s[k..] == t[k..]
    ensures s[k] == t[k] && s[k + 1..] == t[k + 1..]
  {
    assert s[k..][0] == t[k..][0] && s[k..][1..] == t[k..][1..];
  }

  lemma PrefixStep<T>(s: seq<T>, k: nat, j: nat, x: T)
    requires k <= j < |s|
    ensures s[k := x][..k + 1] == s[..k] + [x] && s[k := x][j + 1..] == s[j + 1..]
  {}

  lemma KeepStep<T>(fs: seq<Fn<T>>, k: nat, required: Schema, top: bool)
    requires k < |fs|
    ensures Keep(fs[..k + 1], required, top)
            == Keep(fs[..k], required, top) + if top || fs[k].id in required then [fs[k]] else []
  {
    assert fs[..k + 1][..k] == fs[..k];
  }

  lemma GatherStep<T>(s: Schema, fs: seq<Fn<T>>, f: Fn<T>)
    ensures Gather(s, fs + [f]) == Either(Gather(s, fs), f.required)
  {
    assert (fs + [f])[..|fs|] == fs;
  }

  // ------------------------------------------------------------------------------ the visitor

  /** Compacts the functions that are required to the front and drops the others. */
  method Compact<T>(fs: seq<Fn<T>>, before: Schema, required: Schema, top: bool)
    returns (kept: seq<Fn<T>>, needed: Schema)
    ensures kept == Keep(fs, required, top) && needed == Gather(before, kept)
  {
    hide Keep, Gather, Either;
    kept, needed := fs, before;
    NothingKept(fs, before, required, top);
    var posOut, posIn := 0, 0;
    while posIn != |kept|
      invariant 0 <= posOut <= posIn <= |kept| == |fs|
      invariant kept[posIn..] == fs[posIn..]
      invariant kept[..posOut] == Keep(fs[..posIn], required, top)
      invariant needed == Gather(before, kept[..posOut])
      decreases |fs| - posIn
    {
      var f := kept[posIn];
      KeepStep(fs, posIn, required, top);
      SuffixStep(kept, fs, posIn);
      if top || f.id in required {
        GatherStep(before, kept[..posOut], f);
        PrefixStep(kept, posOut, posIn, f);
        kept := kept[posOut := f];
        needed := Either(needed, f.required);
        posOut := posOut + 1;
      }
      posIn := posIn + 1;
    }
    assert fs[..posIn] == fs;
    kept := kept[..posOut];
  }

  lemma NothingKept<T>(fs: seq<Fn<T>>, before: Schema, required: Schema, top: bool)
    ensures Keep(fs[..0], required, top) == [] && Gather(before, fs[..0]) == before
  {}

  class SchemaMinimizer {
    var required: Schema
    var isTopOfPlan: bool

    constructor ()
      ensures isTopOfPlan && required == []
    {
      required, isTopOfPlan := [], true;
    }

    method Visit(op: Op) returns (next: Op)
      requires Asked(op, required, isTopOfPlan) && Runnable(op)
      modifies this
      ensures next == Minimize(op, old(required), old(isTopOfPlan))
      ensures !old(isTopOfPlan) ==> !isTopOfPlan
      decreases op
    {
      if Unary(op) {
        AskedBelow(op, required, isTopOfPlan);
      }
      hide Asked, Keep, Gather, Either, Runnable;
      RunnableBelow(op);
      match op
      case NoInput(_) =>
        next := op;
      case Scan(table, s) =>
        next := op;
        if !isTopOfPlan {
          required := Both(required, s);
          next := Scan(table, required);
        }
      case Pass(c, _) =>
        var child := Visit(c);
        next := Pass(child, child.schema);
      case FilterOp(cond, c, s) =>
        var ours := s;
        if isTopOfPlan {
          required := s;
          isTopOfPlan := false;
        } else {
          ours := required;
          required := Either(required, cond.required);
        }
        var child := Visit(c);
        next := FilterOp(cond, child, ours);
      case JoinOp(cond, cs, s) =>
        var ours, below := s, s;
        JoinAsks(op, required, isTopOfPlan);
        if isTopOfPlan {
          isTopOfPlan := false;
        } else {
          ours, below := required, Either(required, cond.required);
        }
        var children := VisitAll(cs, below);
        next := JoinOp(cond, children, ours);
      case Projection(ps, c, s) =>
        var kept, needed := Compact(ps, [], required, isTopOfPlan);
        required, isTopOfPlan := needed, false;
        var child := Visit(c);
        next := Projection(kept, child, NamesOf(kept));
      case Limit(limit, offset, c, _) =>
        var child := Visit(c);
        next := Limit(limit, offset, child, child.schema);
      case Grouping(keys, aggs, c, _) =>
        var kept, needed := Compact(aggs, Gather([], keys), required, isTopOfPlan);
        required, isTopOfPlan := needed, false;
        var child := Visit(c);
        next := Grouping(keys, kept, child, NamesOf(keys) + NamesOf(kept));
      case Aggregation(aggs, c, _) =>
        var kept, needed := Compact(aggs, [], required, isTopOfPlan);
        required, isTopOfPlan := needed, false;
        var child := Visit(c);
        next := Aggregation(kept, child, NamesOf(kept));
      case Sorting(fs, order, c, s) =>
        var ours := s;
        if isTopOfPlan {
          required := s;
          isTopOfPlan := false;
        } else {
          ours := required;
          required := Gather(required, fs);
        }
        var child := Visit(c);
        next := Sorting(fs, order, child, ours);
    }

    /** The children of a join are each asked for what they have of what is required below. */
    method VisitAll(cs: OpList, below: Schema) returns (next: OpList)
      requires AllWellFormed(cs) && AllRunnable(cs) && Distinct(below) && !isTopOfPlan
      modifies this
      ensures next == MinimizeAll(cs, below)
      ensures !isTopOfPlan
      decreases cs
    {
      match cs
      case None =>
        next := None;
      case More(c, rest) =>
        required := Both(below, c.schema);
        BothMembers(below, c.schema);
        var head := Visit(c);
        var tail := VisitAll(rest, below);
        next := More(head, tail);
    }
  }

  lemma RunnableBelow(op: Op)
    requires Runnable(op)
    ensures Unary(op) ==> Runnable(op.child)
    ensures op.JoinOp? ==> AllRunnable(op.children)
  {}

  lemma JoinAsks(op: Op, required: Schema, top: bool)
    requires Asked(op, required, top) && op.JoinOp?
    ensures AllWellFormed(op.children) && Distinct(if top then op.schema else Either(required, op.condition.required))
  {
    EitherMembers(required, op.condition.required);
  }
}
