/** Minimising schemas leaves nothing that is not needed: every operator has exactly the attributes
    that are required above it, and no other way of dropping attributes leaves fewer anywhere. */
module SchemaMinimality {
  import opened Relations
  import opened Operators
  import opened SchemaMinimization
  import opened SchemaPreservation

  // -------------------------------------------------------------------------- exact schemas

  /** The attributes required above, or at the top of the plan all that there were. */
  ghost predicate Exactly(schema: Schema, before: Schema, required: set<Id>, top: bool) {
    Distinct(schema) && Ids(schema) == if top then Ids(before) else required
  }

  /** Of the columns those that are required above. */
  ghost predicate OnlyRequired<T>(kept: seq<Fn<T>>, fs: seq<Fn<T>>, required: set<Id>, top: bool) {
    && Distinct(NamesOf(kept))
    && (forall f :: f in kept ==> f in fs && (top || f.id in required))
    && forall f :: f in fs && (top || f.id in required) ==> f in kept
  }

  /** What an operator hands on from its children and what it reads itself; operators that do neither
      need what is required above. */
  ghost function Needs(op: Op, required: set<Id>): set<Id> {
    match op
    case FilterOp(cond, _, s) => Ids(s) + Ids(cond.required)
    case JoinOp(cond, _, s) => Ids(s) + Ids(cond.required)
    case Projection(ps, _, _) => RequiredIds(ps)
    case Grouping(keys, aggs, _, _) => RequiredIds(keys) + RequiredIds(aggs)
    case Aggregation(aggs, _, _) => RequiredIds(aggs)
    case Sorting(fs, _, _, s) => Ids(s) + RequiredIds(fs)
    case _ => required
  }

  /** The operator as it was, but for exactly the columns and attributes that are required above.  Keys
      of groups are never dropped. */
  ghost predicate TightNode(op: Op, next: Op, required: set<Id>, top: bool) {
    match op
    case NoInput(_) => next == op
    case Scan(table, s) => next.Scan? && next.table == table && Exactly(next.schema, s, required, top)
    case Pass(_, _) => next.Pass? && next.schema == next.child.schema
    case FilterOp(cond, _, s) => next.FilterOp? && next.condition == cond && Exactly(next.schema, s, required, top)
    case JoinOp(cond, _, s) => next.JoinOp? && next.condition == cond && Exactly(next.schema, s, required, top)
    case Projection(ps, _, _) =>
      && next.Projection? && next.schema == NamesOf(next.projections)
      && OnlyRequired(next.projections, ps, required, top)
    case Limit(limit, offset, _, _) =>
      next.Limit? && next.limit == limit && next.offset == offset && next.schema == next.child.schema
    case Grouping(keys, aggs, _, _) =>
      && next.Grouping? && next.keys == keys && next.schema == NamesOf(keys) + NamesOf(next.aggregates)
      && OnlyRequired(next.aggregates, aggs, required, top)
    case Aggregation(aggs, _, _) =>
      && next.Aggregation? && next.schema == NamesOf(next.aggregates)
      && OnlyRequired(next.aggregates, aggs, required, top)
    case Sorting(fs, order, _, s) =>
      next.Sorting? && next.orderBy == fs && next.order == order && Exactly(next.schema, s, required, top)
  }

  /** This holds at every operator, and every child is required to have exactly what is needed from
      it. */
  ghost predicate Tight(op: Op, next: Op, required: set<Id>, top: bool)
    decreases op
  {
    && TightNode(op, next, required, top)
    && (Unary(op) ==> Tight(op.child, next.child, Needs(next, required), StaysTop(op, top)))
    && (op.JoinOp? ==> AllTight(op.children, next.children, Needs(next, required)))
  }

  /** Each child of a join is required to have those of the attributes that it can contribute. */
  ghost predicate AllTight(cs: OpList, next: OpList, below: set<Id>)
    decreases cs
  {
    match cs
    case None => next.None?
    case More(c, rest) =>
      next.More? && Tight(c, next.head, below * Ids(c.schema), false) && AllTight(rest, next.tail, below)
  }

  lemma KeptMember<T>(fs: seq<Fn<T>>, required: Schema, top: bool, f: Fn<T>)
    ensures f in Keep(fs, required, top) <==> f in fs && (top || f.id in Ids(required))
  {
    KeptAreSome(fs, required, top);
    hide Keep;
  }

  lemma KeptIsOnlyRequired<T>(fs: seq<Fn<T>>, required: Schema, top: bool)
    requires Distinct(NamesOf(fs))
    ensures OnlyRequired(Keep(fs, required, top), fs, Ids(required), top)
  {
    KeptNames(fs, required, top);
    hide NamesOf, Distinct, Keep, Ids;
    forall f | f in Keep(fs, required, top) ensures f in fs && (top || f.id in Ids(required)) {
      KeptMember(fs, required, top, f);
    }
    forall f | f in fs && (top || f.id in Ids(required)) ensures f in Keep(fs, required, top) {
      KeptMember(fs, required, top, f);
    }
  }

  /** What the pass asks of a child is what the rebuilt operator needs. */
  lemma AsksWhatIsNeeded(op: Op, child: Op, required: Schema, top: bool)
    requires Asked(op, required, top) && Unary(op)
    ensures Ids(RequiredBelow(op, required, top)) == Needs(Rebuild(op, child, required, top), Ids(required))
  {
    hide Distinct, Keep, Gather, Either, LocalFn, LocalAggregate;
    NoIds();
    match op
    case FilterOp(cond, _, _) => EitherMembers(required, cond.required);
    case Projection(ps, _, _) => GatherMembers([], Keep(ps, required, top));
    case Grouping(keys, aggs, _, _) =>
      GatherMembers([], keys);
      GatherMembers(Gather([], keys), Keep(aggs, required, top));
    case Aggregation(aggs, _, _) => GatherMembers([], Keep(aggs, required, top));
    case Sorting(fs, _, _, s) =>
      GatherMembers(required, fs);
      SortKeysWithin(fs, Ids(s), Ids(op.child.schema));
    case _ =>
  }

  lemma SortKeysWithin(fs: seq<Fn<Row>>, s: set<Id>, below: set<Id>)
    ensures LocalFns(fs, below) && s == below ==> s + RequiredIds(fs) == s
  {
    hide LocalFn;
    if LocalFns(fs, below) {
      forall f, i | f in fs && i in f.required ensures i in below {
        assert i in Ids(f.required);
      }
    }
  }

  lemma RebuiltIsTight(op: Op, child: Op, required: Schema, top: bool)
    requires Asked(op, required, top) && Unary(op)
    ensures TightNode(op, Rebuild(op, child, required, top), Ids(required), top)
  {
    hide LocalFn, LocalAggregate;
    match op
    case Projection(ps, _, _) =>
      KeptIsOnlyRequired(ps, required, top);
      hide Keep, OnlyRequired;
    case Grouping(keys, aggs, _, _) =>
      DistinctParts(NamesOf(keys), NamesOf(aggs));
      KeptIsOnlyRequired(aggs, required, top);
      hide Keep, OnlyRequired;
    case Aggregation(aggs, _, _) =>
      KeptIsOnlyRequired(aggs, required, top);
      hide Keep, OnlyRequired;
    case _ =>
  }

  /** After the pass every operator has exactly the attributes required above it. */
  lemma {:induction false} MinimizeIsTight(op: Op, required: Schema, top: bool)
    requires Asked(op, required, top)
    ensures Tight(op, Minimize(op, required, top), Ids(required), top)
    decreases op, 1
  {
    if Unary(op) {
      var below, stays := RequiredBelow(op, required, top), StaysTop(op, top);
      AskedBelow(op, required, top);
      var child := Minimize(op.child, below, stays);
      MinimizeIsTight(op.child, below, stays);
      RebuiltIsTight(op, child, required, top);
      AsksWhatIsNeeded(op, child, required, top);
      hide RequiredBelow, Minimize, TightNode, Needs, Asked;
      MinimizeUnary(op, required, top);
      RebuiltChild(op, child, required, top);
    } else if op.JoinOp? {
      JoinAsks(op, required, top);
      var below := RequiredBelow(op, required, top);
      AllMinimizedAreTight(op.children, below);
      JoinIsTight(op, required, top);
    } else if op.Scan? {
      BothMembers(required, op.schema);
    }
  }

  lemma RebuiltChild(op: Op, child: Op, required: Schema, top: bool)
    requires Unary(op)
    ensures Unary(Rebuild(op, child, required, top)) && Rebuild(op, child, required, top).child == child
  {}

  lemma JoinIsTight(op: Op, required: Schema, top: bool)
    requires Asked(op, required, top) && op.JoinOp?
    ensures var next := Minimize(op, required, top);
            && TightNode(op, next, Ids(required), top) && next.JoinOp?
            && next.children == MinimizeAll(op.children, RequiredBelow(op, required, top))
            && Needs(next, Ids(required)) == Ids(RequiredBelow(op, required, top))
  {
    EitherMembers(required, op.condition.required);
    hide Either, Distinct;
  }

  lemma {:induction false} AllMinimizedAreTight(cs: OpList, below: Schema)
    requires AllWellFormed(cs) && Distinct(below)
    ensures AllTight(cs, MinimizeAll(cs, below), Ids(below))
    decreases cs, 0
  {
    match cs
    case None =>
    case More(c, rest) =>
      BothMembers(below, c.schema);
      MinimizeIsTight(c, Both(below, c.schema), false);
      AllMinimizedAreTight(rest, below);
      hide Minimize, Tight, Both;
  }

  // ------------------------------------------------------------------------ least schemas

  /** The operator as it was, but for attributes and columns that are dropped. */
  ghost predicate PrunedNode(op: Op, q: Op) {
    match op
    case NoInput(_) => q == op
    case Scan(table, s) => q.Scan? && q.table == table && Ids(q.schema) <= Ids(s)
    case Pass(_, _) => q.Pass? && q.schema == q.child.schema
    case FilterOp(cond, _, _) => q.FilterOp? && q.condition == cond
    case JoinOp(cond, _, _) => q.JoinOp? && q.condition == cond
    case Projection(ps, _, _) => q.Projection? && q.schema == NamesOf(q.projections) && Some(q.projections, ps)
    case Limit(limit, offset, _, _) =>
      q.Limit? && q.limit == limit && q.offset == offset && q.schema == q.child.schema
    case Grouping(keys, aggs, _, _) =>
      q.Grouping? && q.keys == keys && q.schema == NamesOf(keys) + NamesOf(q.aggregates) && Some(q.aggregates, aggs)
    case Aggregation(aggs, _, _) => q.Aggregation? && q.schema == NamesOf(q.aggregates) && Some(q.aggregates, aggs)
    case Sorting(fs, order, _, _) => q.Sorting? && q.orderBy == fs && q.order == order
  }

  ghost predicate Some<T>(some: seq<Fn<T>>, fs: seq<Fn<T>>) {
    forall f :: f in some ==> f in fs
  }

  /** A way to drop attributes from a plan so that whatever is handed on or read is still there. */
  ghost predicate Pruned(op: Op, q: Op)
    decreases op
  {
    && PrunedNode(op, q)
    && (Unary(op) ==> Needs(q, {}) <= Ids(q.child.schema) && Pruned(op.child, q.child))
    && (op.JoinOp? ==> Needs(q, {}) <= SchemasOf(q.children) && AllPruned(op.children, q.children))
  }

  ghost predicate AllPruned(cs: OpList, qs: OpList)
    decreases cs
  {
    match cs
    case None => qs.None?
    case More(c, rest) => qs.More? && Pruned(c, qs.head) && AllPruned(rest, qs.tail)
  }

  /** No operator has an attribute that it does not have in the other plan. */
  ghost predicate NoLarger(a: Op, b: Op)
    decreases a
  {
    && Ids(a.schema) <= Ids(b.schema)
    && (Unary(a) ==> Unary(b) && NoLarger(a.child, b.child))
    && (a.JoinOp? ==> b.JoinOp? && AllNoLarger(a.children, b.children))
  }

  ghost predicate AllNoLarger(cs: OpList, ds: OpList)
    decreases cs
  {
    match cs
    case None => ds.None?
    case More(c, rest) => ds.More? && NoLarger(c, ds.head) && AllNoLarger(rest, ds.tail)
  }

  lemma SomeNames<T>(some: seq<Fn<T>>, fs: seq<Fn<T>>)
    requires Some(some, fs)
    ensures Ids(NamesOf(some)) <= Ids(NamesOf(fs))
  {
    forall i | i in Ids(NamesOf(some)) ensures i in Ids(NamesOf(fs)) {
      NamesMembers(some, i);
      NamesMembers(fs, i);
    }
  }

  /** Dropping attributes adds none. */
  lemma {:induction false} PrunedWithin(op: Op, q: Op)
    requires WellFormed(op) && Pruned(op, q)
    ensures Ids(q.schema) <= Ids(op.schema)
    decreases op, 1
  {
    if Unary(op) {
      PrunedWithin(op.child, q.child);
    }
    hide LocalFn, LocalAggregate, Distinct;
    match op
    case JoinOp(_, cs, _) =>
      AllPrunedWithin(cs, q.children);
    case Projection(ps, _, _) =>
      SomeNames(q.projections, ps);
    case Grouping(keys, aggs, _, _) =>
      SomeNames(q.aggregates, aggs);
      IdsOfBoth(NamesOf(keys), NamesOf(q.aggregates));
      IdsOfBoth(NamesOf(keys), NamesOf(aggs));
    case Aggregation(aggs, _, _) =>
      SomeNames(q.aggregates, aggs);
    case _ =>
  }

  lemma IdsOfBoth(s: Schema, t: Schema)
    ensures Ids(s + t) == Ids(s) + Ids(t)
  {}

  lemma {:induction false} AllPrunedWithin(cs: OpList, qs: OpList)
    requires AllWellFormed(cs) && AllPruned(cs, qs)
    ensures SchemasOf(qs) <= SchemasOf(cs)
    decreases cs, 0
  {
    match cs
    case None =>
    case More(c, rest) =>
      PrunedWithin(c, qs.head);
      AllPrunedWithin(rest, qs.tail);
      hide Pruned, WellFormed;
  }

  /** A column is determined by its name. */
  lemma {:induction false} NamedOnce<T>(fs: seq<Fn<T>>, f: Fn<T>, g: Fn<T>)
    requires Distinct(NamesOf(fs)) && f in fs && g in fs && f.id == g.id
    ensures f == g
  {
    var init, last := fs[..|fs| - 1], fs[|fs| - 1];
    assert fs == init + [last];
    AddId(NamesOf(init), last.id);
    hide Distinct;
    if f in init && g in init {
      NamedOnce(init, f, g);
    } else {
      NamesMembers(init, last.id);
    }
  }

  /** Columns that are required above are not dropped. */
  lemma KeptIsThere<T>(fs: seq<Fn<T>>, some: seq<Fn<T>>, kept: seq<Fn<T>>, f: Fn<T>)
    requires Distinct(NamesOf(fs)) && Some(some, fs) && Ids(NamesOf(kept)) <= Ids(NamesOf(some))
    requires f in kept && f in fs
    ensures f in some
  {
    NamesMembers(kept, f.id);
    NamesMembers(some, f.id);
    assert f.id in Ids(NamesOf(kept));
    assert f.id in NamesOf(some);
    var g :| g in some && g.id == f.id;
    NamedOnce(fs, f, g);
  }

  lemma KeptAreThere<T>(fs: seq<Fn<T>>, some: seq<Fn<T>>, required: Schema, top: bool)
    requires Distinct(NamesOf(fs)) && Some(some, fs)
    requires Ids(NamesOf(Keep(fs, required, top))) <= Ids(NamesOf(some))
    ensures RequiredIds(Keep(fs, required, top)) <= RequiredIds(some)
  {
    var kept := Keep(fs, required, top);
    forall f, i | f in kept && i in f.required ensures i in RequiredIds(some) {
      KeptRequire(fs, required, top, f);
      KeptIsThere(fs, some, kept, f);
    }
    hide *;
  }

  /** What the pass asks of a child is there in any plan that still has what is asked of its parent. */
  lemma NeededIsThere(op: Op, q: Op, required: Schema, top: bool)
    requires Asked(op, required, top) && Pruned(op, q) && Unary(op)
    requires (if top then Ids(op.schema) else Ids(required)) <= Ids(q.schema)
    ensures (if StaysTop(op, top) then Ids(op.child.schema) else Ids(RequiredBelow(op, required, top)))
            <= Ids(q.child.schema)
  {
    AsksWhatIsNeeded(op, op.child, required, top);
    hide LocalFn, LocalAggregate, RequiredBelow, Asked, Keep;
    match op
    case Projection(ps, _, _) =>
      KeptNames(ps, required, top);
      KeptAreThere(ps, q.projections, required, top);
    case Grouping(keys, aggs, _, _) =>
      DistinctParts(NamesOf(keys), NamesOf(aggs));
      KeptNames(aggs, required, top);
      SomeNames(q.aggregates, aggs);
      IdsOfBoth(NamesOf(keys), NamesOf(q.aggregates));
      KeptAreThere(aggs, q.aggregates, required, top);
    case Aggregation(aggs, _, _) =>
      KeptNames(aggs, required, top);
      KeptAreThere(aggs, q.aggregates, required, top);
    case _ =>
  }

  /** The pass leaves fewer attributes than, or the same as, any other way to drop attributes after
      which the plan still has what is asked of it. */
  lemma {:induction false} MinimizeIsLeast(op: Op, required: Schema, top: bool, q: Op)
    requires Asked(op, required, top) && Pruned(op, q)
    requires (if top then Ids(op.schema) else Ids(required)) <= Ids(q.schema)
    ensures NoLarger(Minimize(op, required, top), q)
    decreases op, 1
  {
    if Unary(op) {
      var below, stays := RequiredBelow(op, required, top), StaysTop(op, top);
      AskedBelow(op, required, top);
      NeededIsThere(op, q, required, top);
      MinimizeIsLeast(op.child, below, stays, q.child);
      var child := Minimize(op.child, below, stays);
      NodeNoLarger(op, q, child, required, top);
      hide *;
      MinimizeUnary(op, required, top);
      UnaryNoLarger(op, q, child, required, top);
    } else if op.JoinOp? {
      JoinAsks(op, required, top);
      JoinNeedsAreThere(op, q, required, top);
      AllMinimizedAreLeast(op.children, RequiredBelow(op, required, top), q.children);
    } else if op.Scan? {
      BothMembers(required, op.schema);
    }
  }

  lemma UnaryNoLarger(op: Op, q: Op, child: Op, required: Schema, top: bool)
    requires Unary(op) && Pruned(op, q) && NoLarger(child, q.child)
    requires Ids(Rebuild(op, child, required, top).schema) <= Ids(q.schema)
    ensures NoLarger(Rebuild(op, child, required, top), q)
  {
    RebuiltChild(op, child, required, top);
    hide Rebuild, Ids;
  }

  lemma NodeNoLarger(op: Op, q: Op, child: Op, required: Schema, top: bool)
    requires Asked(op, required, top) && Pruned(op, q) && Unary(op) && NoLarger(child, q.child)
    requires (if top then Ids(op.schema) else Ids(required)) <= Ids(q.schema)
    ensures Ids(Rebuild(op, child, required, top).schema) <= Ids(q.schema)
  {
    hide LocalFn, LocalAggregate, Keep;
    match op
    case Projection(ps, _, _) =>
      KeptNames(ps, required, top);
    case Grouping(keys, aggs, _, _) =>
      DistinctParts(NamesOf(keys), NamesOf(aggs));
      KeptNames(aggs, required, top);
      IdsOfBoth(NamesOf(keys), NamesOf(q.aggregates));
      IdsOfBoth(NamesOf(keys), NamesOf(Keep(aggs, required, top)));
    case Aggregation(aggs, _, _) =>
      KeptNames(aggs, required, top);
    case _ =>
  }

  lemma JoinNeedsAreThere(op: Op, q: Op, required: Schema, top: bool)
    requires Asked(op, required, top) && Pruned(op, q) && op.JoinOp?
    requires (if top then Ids(op.schema) else Ids(required)) <= Ids(q.schema)
    ensures Ids(RequiredBelow(op, required, top)) <= SchemasOf(q.children)
  {
    EitherMembers(required, op.condition.required);
    hide Either, Distinct;
  }

  lemma {:induction false} AllMinimizedAreLeast(cs: OpList, below: Schema, qs: OpList)
    requires AllWellFormed(cs) && Distinct(below) && AllPruned(cs, qs)
    requires Ids(below) * SchemasOf(cs) <= SchemasOf(qs)
    ensures AllNoLarger(MinimizeAll(cs, below), qs)
    decreases cs, 0
  {
    match cs
    case None =>
    case More(c, rest) =>
      BothMembers(below, c.schema);
      PrunedWithin(c, qs.head);
      AllPrunedWithin(rest, qs.tail);
      MinimizeIsLeast(c, Both(below, c.schema), false, qs.head);
      AllMinimizedAreLeast(rest, below, qs.tail);
      hide Minimize, NoLarger, Both, Pruned, WellFormed;
  }

  /** The result is itself such a way to drop attributes. */
  lemma {:induction false} MinimizeIsPruned(op: Op, required: Schema, top: bool)
    requires Asked(op, required, top)
    ensures Pruned(op, Minimize(op, required, top))
    decreases op, 1
  {
    if Unary(op) {
      var below, stays := RequiredBelow(op, required, top), StaysTop(op, top);
      AskedBelow(op, required, top);
      MinimizeIsPruned(op.child, below, stays);
      SchemaBounds(op.child, below, stays);
      AsksWhatIsNeeded(op, Minimize(op.child, below, stays), required, top);
      RebuiltIsPruned(op, Minimize(op.child, below, stays), required, top);
      hide *;
      MinimizeUnary(op, required, top);
      UnaryPruned(op, Minimize(op.child, below, stays), required, top);
    } else if op.JoinOp? {
      JoinAsks(op, required, top);
      AllMinimizedArePruned(op.children, RequiredBelow(op, required, top));
      JoinIsTight(op, required, top);
      JoinNeedsWithin(op, required, top);
    } else if op.Scan? {
      BothMembers(required, op.schema);
    }
  }

  lemma RebuiltIsPruned(op: Op, child: Op, required: Schema, top: bool)
    requires Asked(op, required, top) && Unary(op)
    requires !StaysTop(op, top) ==> Needs(Rebuild(op, child, required, top), Ids(required)) <= Ids(child.schema)
    ensures PrunedNode(op, Rebuild(op, child, required, top))
    ensures Needs(Rebuild(op, child, required, top), {}) <= Ids(child.schema)
  {
    hide LocalFn, LocalAggregate, Keep, Distinct;
    match op
    case Projection(ps, _, _) => KeptAreAmong(ps, required, top);
    case Grouping(_, aggs, _, _) => KeptAreAmong(aggs, required, top);
    case Aggregation(aggs, _, _) => KeptAreAmong(aggs, required, top);
    case _ =>
  }

  lemma KeptAreAmong<T>(fs: seq<Fn<T>>, required: Schema, top: bool)
    ensures Some(Keep(fs, required, top), fs)
  {
    forall f | f in Keep(fs, required, top) ensures f in fs {
      KeptMember(fs, required, top, f);
    }
    hide Keep;
  }

  lemma UnaryPruned(op: Op, child: Op, required: Schema, top: bool)
    requires Unary(op) && Pruned(op.child, child) && PrunedNode(op, Rebuild(op, child, required, top))
    requires Needs(Rebuild(op, child, required, top), {}) <= Ids(child.schema)
    ensures Pruned(op, Rebuild(op, child, required, top))
  {
    RebuiltChild(op, child, required, top);
    hide Rebuild, Needs, PrunedNode, Ids;
  }

  lemma JoinNeedsWithin(op: Op, required: Schema, top: bool)
    requires Asked(op, required, top) && op.JoinOp?
    ensures Ids(RequiredBelow(op, required, top)) <= SchemasOf(op.children)
  {
    EitherMembers(required, op.condition.required);
    hide Either, Distinct;
  }

  lemma {:induction false} AllMinimizedArePruned(cs: OpList, below: Schema)
    requires AllWellFormed(cs) && Distinct(below)
    ensures AllPruned(cs, MinimizeAll(cs, below))
    ensures Ids(below) * SchemasOf(cs) <= SchemasOf(MinimizeAll(cs, below))
    decreases cs, 0
  {
    match cs
    case None =>
    case More(c, rest) =>
      BothMembers(below, c.schema);
      MinimizeIsPruned(c, Both(below, c.schema), false);
      SchemaBounds(c, Both(below, c.schema), false);
      AllMinimizedArePruned(rest, below);
      hide Minimize, Pruned, Both, WellFormed;
  }
}
