/** Exactly which layouts the incremental code follows, among those that are constructed and compiled
    without a failing assertion and repeated without bound. */
module LayoutLimits {
  import opened SmallBitset
  import opened DataLayouts

  /** One run of the code brings every state for the row to a state for the next one. */
  ghost predicate StepsRight(c: Child, base: nat, row: nat) {
    forall cell: Cell :: At(c, cell, 0, base, row) ==> RunsRight(c, cell, base, row)
  }

  ghost predicate RunsRight(c: Child, cell: Cell, base: nat, row: nat) {
    Shaped(c, cell) && Counted([]) && At(c, Next(c, 0, cell, []), 0, base, row + 1)
  }

  /** The state for a row. */
  ghost function CellAt(c: Child, n: nat, base: nat, row: nat): (cell: Cell)
    requires WellFormed(c, n)
    ensures At(c, cell, n, base, row)
    decreases c
  {
    match c.node
    case Leaf(Attribute) =>
      var p := Position(c, base, row);
      LeafCell(p / 8, Pow2(p % 8))
    case Leaf(NullBitmap) =>
      var p := Position(c, base, row);
      BitmapCell(p / 8, p % 8, row)
    case INode(m, children) =>
      var inner := InnerBase(c, base, row);
      NodeCell(row % m, seq(|children|, i requires 0 <= i < |children| => CellAt(children[i], m, inner, row % m)))
  }

  // ----------------------------------------------------------------------- what goes wrong

  /** Without complete parents there are no jumps. */
  lemma {:induction false} NoJump(cell: Cell, levels: seq<Level>, n: nat, row: nat, prevTuples: nat, prevStride: nat)
    requires !cell.NodeCell? && prevTuples != 0 && Counted(levels)
    requires levels == [] || (Path(levels, n, row) && !Wraps(levels))
    ensures JumpedAll(cell, levels, prevTuples, prevStride) == cell
    decreases |levels|
  {
    if levels != [] {
      var k := |levels| - 1;
      var l := levels[k];
      OneLevel(cell, levels, prevTuples, prevStride);
      OutermostPart(levels, n, row);
      if k > 0 && Wraps(levels[..k]) {
        OuterWrapsInner(levels, n, row);
      }
      assert Jumped(cell, l, Remaining(l, prevTuples, prevStride)) == cell;
      hide *;
      if k > 0 {
        NoJump(cell, levels[..k], levels[k - 1].numTuples, levels[k - 1].counter - 1, l.numTuples, l.stride);
      } else {
        NoJump(cell, levels[..k], 0, 0, l.numTuples, l.stride);
      }
    }
  }

  /** A stride of more than one bit, but less than a byte: the next access is too early. */
  lemma WrongStride(c: Child, n: nat, cell: Cell, levels: seq<Level>, base: nat, row: nat)
    requires c.node == Leaf(Attribute) && c.stride % 8 != 0 && c.stride != 1 && c.stride < 8
    requires At(c, cell, n, base, row) && Shaped(c, cell) && Path(levels, n, row) && Counted(levels) && !Wraps(levels)
    ensures base + Shift(levels) == base && NextRowOf(levels, row) == row + 1
    ensures !At(c, Next(c, n, cell, levels), n, base, row + 1)
  {
    var p := Position(c, base, row);
    NextRow(row, c.stride);
    assert Position(c, base, row + 1) == p + c.stride;
    LeafNext(c, n, cell, levels);
    NoJump(AfterTuple(c, n, cell), levels, n, row, 1, c.stride);
    assert Points(cell, p);
    AccessStep(c.stride, cell, p);
    assert Denotes(AfterAccess(c.stride, cell), p + 1);
    DenotesOnce(AfterAccess(c.stride, cell), p + 1, p + c.stride);
    LeafAt(c, Next(c, n, cell, levels), n, base, row + 1);
    hide At, Next, Points, Starts, Position, Denotes, JumpedAll, AfterAccess;
  }

  /** The bit within a byte that the mask or the adjustable offset of a leaf stands for. */
  ghost predicate FirstBit(cell: Cell) {
    (cell.LeafCell? && cell.mask == 1) || (cell.BitmapCell? && cell.adjustable == 0)
  }

  lemma FirstBitOnly(cell: Cell, p: nat)
    requires FirstBit(cell) && p % 8 != 0
    ensures !Points(cell, p) && !Starts(cell, p)
  {
    EightBits();
    DifferentMasks(0, p % 8);
  }

  lemma {:induction false} OuterKeepFirstBit(cell: Cell, levels: seq<Level>, n: nat, row: nat, prevTuples: nat,
                                             prevStride: nat)
    requires FirstBit(cell) && prevTuples != 0 && prevStride % 8 == 0 && Counted(levels)
    requires levels == [] || Path(levels, n, row)
    ensures !cell.NodeCell? && FirstBit(JumpedAll(cell, levels, prevTuples, prevStride))
    decreases |levels|
  {
    if levels != [] {
      var k := |levels| - 1;
      var l := levels[k];
      OneLevel(cell, levels, prevTuples, prevStride);
      OutermostPart(levels, n, row);
      WholeRemaining(l, prevTuples, prevStride);
      assert FirstBit(Jumped(cell, l, Remaining(l, prevTuples, prevStride)));
      hide *;
      if k > 0 {
        OuterKeepFirstBit(Jumped(cell, l, Remaining(l, prevTuples, prevStride)), levels[..k], levels[k - 1].numTuples,
                          levels[k - 1].counter - 1, l.numTuples, l.stride);
      } else {
        OuterKeepFirstBit(Jumped(cell, l, Remaining(l, prevTuples, prevStride)), levels[..k], 0, 0, l.numTuples,
                          l.stride);
      }
    }
  }

  /** The first jump behind the last tuple of a node leaves such bits at the first one of a byte. */
  lemma JumpToFirstBit(c: Child, n: nat, cell: Cell, l: Level, base: nat, row: nat)
    requires c.node.Leaf? && !BitsSupported(c, n, c.node.kind) && At(c, cell, n, base, row) && Shaped(c, cell)
    requires c.node.kind == Attribute ==> c.stride == 1
    requires l.Last() && l.numTuples == n == row + 1 && l.stride % 8 == 0
    ensures FirstBit(Jumped(AfterTuple(c, n, cell), l, Remaining(l, 1, c.stride)))
  {
    LeafRemaining(l, c.stride);
    RemainingBits(l.stride, n * c.stride);
    hide Remaining, Position, Points, Starts;
    assert c.node.kind == Attribute ==> c.stride == 1 && n * c.stride == n;
  }

  /** Bits that start within a byte and are read again from the first bit of a byte on: those of an
      attribute that do not fill whole bytes, and NULL bits with a stride. */
  lemma WrongFirstBit(c: Child, n: nat, cell: Cell, levels: seq<Level>, base: nat, row: nat)
    requires c.node.Leaf? && !BitsSupported(c, n, c.node.kind) && (c.node.kind == Attribute ==> c.stride == 1)
    requires Compilable(c, n)
    requires At(c, cell, n, base, row) && Shaped(c, cell) && Path(levels, n, row) && Counted(levels) && Wraps(levels)
    requires base + Shift(levels) >= 0
    ensures !At(c, Next(c, n, cell, levels), n, base + Shift(levels), NextRowOf(levels, row))
  {
    WrapsMeans(levels);
    hide *;
    var k := |levels| - 1;
    var l := levels[k];
    var jumped := Jumped(AfterTuple(c, n, cell), l, Remaining(l, 1, c.stride));
    LeafNext(c, n, cell, levels);
    OneLevel(AfterTuple(c, n, cell), levels, 1, c.stride);
    OutermostPart(levels, n, row);
    PathEnd(levels, n, row);
    JumpToFirstBit(c, n, cell, l, base, row);
    LastTarget(c, levels, n, base, row);
    LeafAt(c, Next(c, n, cell, levels), n, base + Shift(levels), 0);
    if k > 0 {
      OuterKeepFirstBit(jumped, levels[..k], levels[k - 1].numTuples, levels[k - 1].counter - 1, l.numTuples, l.stride);
    } else {
      OuterKeepFirstBit(jumped, levels[..k], 0, 0, l.numTuples, l.stride);
    }
    FirstBitOnly(Next(c, n, cell, levels), Position(c, base + Shift(levels), 0));
  }

  lemma WrapsMeans(levels: seq<Level>)
    requires Wraps(levels)
    ensures levels != [] && levels[|levels| - 1].Last()
  {}

  lemma LastTarget(c: Child, levels: seq<Level>, n: nat, base: nat, row: nat)
    requires c.node.Leaf? && !BitsSupported(c, n, c.node.kind) && (c.node.kind == Attribute ==> c.stride == 1)
    requires Compilable(c, n)
    requires Path(levels, n, row) && Wraps(levels) && base + Shift(levels) >= 0
    ensures NextRowOf(levels, row) == 0 && Position(c, base + Shift(levels), 0) % 8 != 0
  {
    hide Path, Shift;
  }

  // --------------------------------------------------------------------------- whole layouts

  /** Some attribute has a stride of two to seven bits. */
  ghost predicate HasWideBits(c: Child) {
    match c.node
    case Leaf(Attribute) => c.stride % 8 != 0 && c.stride != 1
    case Leaf(NullBitmap) => false
    case INode(_, children) => exists i :: 0 <= i < |children| && HasWideBits(children[i])
  }

  lemma {:induction false} NothingRepeated(c: Child)
    requires WellFormed(c, 1)
    ensures !HasWideBits(c)
  {
    match c.node
    case Leaf(_) =>
    case INode(m, children) =>
      assert m == 1;
      forall i | 0 <= i < |children| ensures !HasWideBits(children[i]) {
        NothingRepeated(children[i]);
      }
  }

  lemma {:induction false} LeaflessIsSupported(c: Child, n: nat)
    requires !HasLeaf(c)
    ensures Supported(c, n)
  {
    match c.node
    case Leaf(_) =>
    case INode(m, children) =>
      forall i | 0 <= i < |children| ensures Supported(children[i], m) && !HasLeaf(children[i]) {
        LeaflessIsSupported(children[i], m);
      }
  }

  /** A wrong child makes its node wrong. */
  lemma WrongChild(c: Child, n: nat, cell: Cell, levels: seq<Level>, inner: seq<Level>, base: nat, row: nat, i: nat)
    requires c.node.INode? && i < |c.node.children| && WellFormed(c, n) && At(c, cell, n, base, row) && Shaped(c, cell)
    requires Path(levels, n, row) && Counted(levels) && base + Shift(levels) >= 0
    requires inner == levels + [Level(row % c.node.numTuples + 1, c.node.numTuples, c.stride)]
    requires c.node.numTuples != 0 && Counted(inner) && InnerBase(c, base, row) + Shift(inner) >= 0
    requires !ChildRight(c, cell, inner, base, row, i)
    ensures !At(c, Next(c, n, cell, levels), n, base + Shift(levels), NextRowOf(levels, row))
  {
    hide *;
    NodeRightIff(c, n, cell, levels, inner, base, row);
    ChildrenRightMeans(c, cell, inner, base, row);
  }

  /** A layout with wide bits goes wrong behind its first row. */
  lemma {:induction false} WrongAtFirst(c: Child, n: nat, cell: Cell, levels: seq<Level>, base: nat)
    requires WellFormed(c, n) && Compilable(c, n) && HasWideBits(c) && At(c, cell, n, base, 0) && Shaped(c, cell)
    requires Path(levels, n, 0) && Counted(levels) && !Wraps(levels) && base + Shift(levels) >= 0
    ensures !At(c, Next(c, n, cell, levels), n, base + Shift(levels), NextRowOf(levels, 0))
    decreases c
  {
    match c.node
    case Leaf(_) =>
      WrongStride(c, n, cell, levels, base, 0);
      hide *;
    case INode(m, children) =>
      var i := WideChild(c, n);
      hide *;
      var inner := levels + [Level(0 % m + 1, m, c.stride)];
      InnerPath(levels, n, 0, c, base);
      PathEnd(inner, m, 0 % m);
      ChildFacts(c, n, cell, base, 0, i);
      WrongAtFirst(children[i], m, cell.cells[i], inner, InnerBase(c, base, 0));
      ChildRightMeans(c, cell, inner, base, 0, i);
      WrongChild(c, n, cell, levels, inner, base, 0, i);
  }

  lemma WideChild(c: Child, n: nat) returns (i: nat)
    requires c.node.INode? && WellFormed(c, n) && Compilable(c, n) && HasWideBits(c)
    ensures c.node.numTuples > 1 && 0 % c.node.numTuples == 0
    ensures i < |c.node.children| && HasWideBits(c.node.children[i]) && Compilable(c.node.children[i], c.node.numTuples)
  {
    i :| 0 <= i < |c.node.children| && HasWideBits(c.node.children[i]);
    if c.node.numTuples == 1 {
      NothingRepeated(c.node.children[i]);
    }
  }

  /** All other layouts go wrong behind the last row of a node, if at all. */
  lemma {:induction false} WrongAtLast(c: Child, n: nat, cell: Cell, levels: seq<Level>, base: nat, row: nat)
    requires WellFormed(c, n) && Compilable(c, n) && !HasWideBits(c) && HasLeaf(c) && At(c, cell, n, base, row)
             && Shaped(c, cell)
    requires Path(levels, n, row) && Counted(levels) && base + Shift(levels) >= 0
    requires if c.node.INode? then row % c.node.numTuples + 1 == c.node.numTuples else Wraps(levels)
    requires !(Supported(c, n) && Roomy(levels, c.node.Tuples(), c.stride))
    ensures !At(c, Next(c, n, cell, levels), n, base + Shift(levels), NextRowOf(levels, row))
    decreases c
  {
    hide *;
    match c.node
    case Leaf(kind) =>
      WrongLeaf(c, n, cell, levels, base, row);
    case INode(m, children) =>
      TuplesOfNode(c, n);
      var l := Level(row % m + 1, m, c.stride);
      var i := UnsupportedChild(c, n, levels, l);
      var inner := levels + [l];
      InnerPath(levels, n, row, c, base);
      ChildFacts(c, n, cell, base, row, i);
      LastOfChild(children[i], m, row % m);
      PathEnd(inner, m, row % m);
      WrongAtLast(children[i], m, cell.cells[i], inner, InnerBase(c, base, row), row % m);
      ChildRightMeans(c, cell, inner, base, row, i);
      WrongChild(c, n, cell, levels, inner, base, row, i);
  }

  lemma WrongLeaf(c: Child, n: nat, cell: Cell, levels: seq<Level>, base: nat, row: nat)
    requires c.node.Leaf? && Compilable(c, n) && !HasWideBits(c) && At(c, cell, n, base, row) && Shaped(c, cell)
    requires Path(levels, n, row) && Counted(levels) && base + Shift(levels) >= 0 && Wraps(levels)
    requires !(Supported(c, n) && Roomy(levels, c.node.Tuples(), c.stride))
    ensures !At(c, Next(c, n, cell, levels), n, base + Shift(levels), NextRowOf(levels, row))
  {
    SupportedLeaf(c, n);
    hide *;
    if BitsSupported(c, n, c.node.kind) {
      LeafRightIffRoomy(c, n, cell, levels, base, row);
    } else {
      WrongFirstBit(c, n, cell, levels, base, row);
    }
  }

  lemma SupportedLeaf(c: Child, n: nat)
    requires c.node.Leaf? && Compilable(c, n) && !HasWideBits(c)
    ensures Supported(c, n) <==> BitsSupported(c, n, c.node.kind)
    ensures !BitsSupported(c, n, c.node.kind) && c.node.kind == Attribute ==> c.stride == 1
    ensures c.node.Tuples() == 1
  {}

  lemma LastOfChild(child: Child, m: nat, row: nat)
    requires WellFormed(child, m) && m != 0 && row + 1 == m
    ensures child.node.INode? ==> child.node.numTuples != 0 && row % child.node.numTuples + 1 == child.node.numTuples
  {
    if child.node.INode? {
      LastOfMultiple(m, child.node.numTuples);
    }
  }

  lemma UnsupportedChild(c: Child, n: nat, levels: seq<Level>, l: Level) returns (i: nat)
    requires c.node.INode? && WellFormed(c, n) && Compilable(c, n) && !HasWideBits(c) && HasLeaf(c)
    requires l == Level(c.node.numTuples, c.node.numTuples, c.stride)
    requires !(Supported(c, n) && Roomy(levels, c.node.Tuples(), c.stride))
    ensures c.node.numTuples != 0 && i < |c.node.children|
    ensures var child := c.node.children[i];
            && Compilable(child, c.node.numTuples) && !HasWideBits(child) && HasLeaf(child)
            && !(Supported(child, c.node.numTuples) && Roomy(levels + [l], child.node.Tuples(), child.stride))
  {
    var m, children := c.node.numTuples, c.node.children;
    if Supported(c, n) {
      i :| 0 <= i < |children| && HasLeaf(children[i]);
    } else if j :| 0 <= j < |children| && !Supported(children[j], m) {
      i := j;
      if !HasLeaf(children[i]) {
        LeaflessIsSupported(children[i], m);
      }
    } else {
      i :| 0 <= i < |children| && HasLeaf(children[i]) && !Fits(children[i], m, c.stride);
    }
    assert WellFormed(children[i], m);
    ChildRoom(c, n, levels, l, i);
    hide Roomy, Fits;
  }

  /** The incremental code finds every leaf of a layout for every row if and only if the layout is
      supported. */
  lemma RightIffSupported(c: Child, base: nat)
    requires WellFormed(c, 0) && Compilable(c, 0)
    ensures (forall row: nat :: StepsRight(c, base, row)) <==> Supported(c, 0)
  {
    if Supported(c, 0) {
      forall row: nat ensures StepsRight(c, base, row) {
        RightForRow(c, base, row);
      }
    } else {
      WrongForSomeRow(c, base);
    }
  }

  lemma RightForRow(c: Child, base: nat, row: nat)
    requires WellFormed(c, 0) && Supported(c, 0)
    ensures StepsRight(c, base, row)
  {
    hide WellFormed, Supported, At, Next, Counted, Shaped;
    forall cell: Cell | At(c, cell, 0, base, row) ensures RunsRight(c, cell, base, row) {
      RunIsRight(c, 0, cell, base, row);
    }
  }

  lemma WrongRow(c: Child, base: nat, row: nat)
    requires WellFormed(c, 0) && Shaped(c, CellAt(c, 0, base, row)) && Counted([])
    requires !At(c, Next(c, 0, CellAt(c, 0, base, row), []), 0, base, row + 1)
    ensures !StepsRight(c, base, row)
  {
    var cell := CellAt(c, 0, base, row);
    hide WellFormed, At, Next, Counted, Shaped, CellAt;
    assert At(c, cell, 0, base, row) && !RunsRight(c, cell, base, row);
  }

  lemma AtTheRoot(row: nat)
    ensures Path([], 0, row) && Counted([]) && !Wraps([]) && Shift([]) == 0 && NextRowOf([], row) == row + 1
  {}

  lemma WrongForSomeRow(c: Child, base: nat)
    requires WellFormed(c, 0) && Compilable(c, 0) && !Supported(c, 0)
    ensures exists row: nat :: !StepsRight(c, base, row)
  {
    hide *;
    RootCases(c);
    var row := if HasWideBits(c) then 0 else c.node.numTuples - 1;
    var cell := CellAt(c, 0, base, row);
    AtTheRoot(row);
    AtIsShaped(c, cell, 0, base, row);
    if HasWideBits(c) {
      WrongAtFirst(c, 0, cell, [], base);
    } else {
      WrongAtLast(c, 0, cell, [], base, row);
    }
    WrongRow(c, base, row);
  }

  lemma RootCases(c: Child)
    requires WellFormed(c, 0) && Compilable(c, 0) && !Supported(c, 0)
    ensures HasLeaf(c)
    ensures !HasWideBits(c) ==>
              c.node.INode? && c.node.numTuples != 0
                && (c.node.numTuples - 1) % c.node.numTuples + 1 == c.node.numTuples
  {
    hide *;
    if !HasLeaf(c) {
      LeaflessIsSupported(c, 0);
    }
    if c.node.Leaf? && !HasWideBits(c) {
      LeafAtRoot(c);
    } else if c.node.INode? {
      TuplesOfNode(c, 0);
      LastRow(c.node.numTuples);
    }
  }

  lemma LastRow(m: nat)
    requires m != 0
    ensures (m - 1) % m + 1 == m
  {}

  lemma LeafAtRoot(c: Child)
    requires c.node.Leaf? && Compilable(c, 0) && !HasWideBits(c)
    ensures Supported(c, 0)
  {
    hide HasLeaf;
  }
}
