/** Access to tuples in a nested data layout.  The address of an attribute is given in closed form
    by divisions and remainders of the row number; the compiled code instead keeps a pointer and a
    mask for each leaf and a counter for each inner node, and updates them after every tuple. */
module DataLayouts {
  import opened SmallBitset

  datatype Kind = Attribute | NullBitmap

  datatype Node = Leaf(kind: Kind) | INode(numTuples: nat, children: seq<Child>) {
    function Tuples(): nat {
      if Leaf? then 1 else numTuples
    }
  }

  /** Offset and stride are in bits and relative to the parent. */
  datatype Child = Child(node: Node, offset: nat, stride: nat)

  const WORD: nat := 0x1_0000_0000_0000_0000

  /** What adding a child to a node for `n` tuples demands; `n` is 0 for the unbounded root. */
  ghost predicate WellFormed(c: Child, n: nat) {
    && c.stride < WORD && (n == 1 ==> c.stride == 0)
    && match c.node
       case Leaf(_) => true
       case INode(m, children) =>
         && m != 0 && n % m == 0 && c.offset % 8 == 0 && c.stride % 8 == 0
         && forall i :: 0 <= i < |children| ==> WellFormed(children[i], m)
  }

  /** What the compilation asserts of strides: those of attributes are of whole bytes or less than a
      byte, and a node with a stride for its NULL bitmap holds more than one tuple. */
  ghost predicate Compilable(c: Child, n: nat) {
    match c.node
    case Leaf(Attribute) => c.stride % 8 == 0 || c.stride < 8
    case Leaf(NullBitmap) => c.stride == 0 || n > 1
    case INode(m, children) => forall i :: 0 <= i < |children| ==> Compilable(children[i], m)
  }

  lemma {:induction false} SupportedIsCompilable(c: Child, n: nat)
    requires Supported(c, n)
    ensures Compilable(c, n)
  {
    match c.node
    case Leaf(_) =>
    case INode(m, children) =>
      forall i | 0 <= i < |children| ensures Compilable(children[i], m) {
        SupportedIsCompilable(children[i], m);
      }
  }

  ghost predicate HasLeaf(c: Child) {
    match c.node
    case Leaf(_) => true
    case INode(_, children) => exists i :: 0 <= i < |children| && HasLeaf(children[i])
  }

  /** The layouts that the incremental code can follow.  A stride of single bits is of one bit, and
      starts at a whole byte unless whole bytes of bits are stored per instance of the parent; NULL
      bits with a stride start at a whole byte of a parent for more than one tuple; and the repetitions
      of everything that holds a leaf fit into the stride of their parent. */
  ghost predicate Supported(c: Child, n: nat) {
    match c.node
    case Leaf(kind) => BitsSupported(c, n, kind)
    case INode(m, children) =>
      forall i :: 0 <= i < |children| ==>
        Supported(children[i], m) && (HasLeaf(children[i]) ==> Fits(children[i], m, c.stride))
  }

  ghost predicate BitsSupported(c: Child, n: nat, kind: Kind) {
    match kind
    case Attribute => c.stride % 8 == 0 || (c.stride == 1 && (c.offset % 8 == 0 || n % 8 == 0))
    case NullBitmap => c.stride == 0 || (n > 1 && c.offset % 8 == 0)
  }

  ghost predicate Fits(c: Child, n: nat, room: nat) {
    c.node.Tuples() != 0 && (n / c.node.Tuples()) * c.stride <= room
  }

  // -------------------------------------------------------------------- the state of the code

  datatype Cell =
    | LeafCell(pointer: nat, mask: nat)
    | BitmapCell(pointer: nat, adjustable: nat, counter: nat)
    | NodeCell(counter: nat, cells: seq<Cell>)

  /** The pointer and mask of the bit at position `p`. */
  predicate Points(cell: Cell, p: nat) {
    cell.LeafCell? && cell.pointer == p / 8 && cell.mask == Pow2(p % 8)
  }

  /** The NULL bits of a tuple start at position `p`. */
  predicate Starts(cell: Cell, p: nat) {
    cell.BitmapCell? && 8 * cell.pointer + cell.adjustable == p
  }

  /** The position of a leaf for a row of its parent, where the parent starts at byte `base`. */
  function Position(c: Child, base: nat, row: nat): nat {
    8 * base + c.offset + row * c.stride
  }

  /** The byte at which the instance of an inner node starts that holds the row. */
  function InnerBase(c: Child, base: nat, row: nat): nat
    requires c.node.INode? && c.node.numTuples != 0
  {
    base + c.offset / 8 + (row / c.node.numTuples) * (c.stride / 8)
  }

  /** The cell is the one for a row of the parent, which holds `n` tuples and starts at `base`. */
  ghost predicate At(c: Child, cell: Cell, n: nat, base: nat, row: nat) {
    match c.node
    case Leaf(Attribute) => Points(cell, Position(c, base, row))
    case Leaf(NullBitmap) => Starts(cell, Position(c, base, row)) && (c.stride != 0 ==> cell.counter == row)
    case INode(m, children) =>
      && m != 0 && cell.NodeCell? && cell.counter == row % m && |cell.cells| == |children|
      && var inner := InnerBase(c, base, row);
         forall i :: 0 <= i < |children| ==> At(children[i], cell.cells[i], m, inner, row % m)
  }

  // ------------------------------------------------------------------------------ compilation

  /** The code for accesses from `row` on starts with these pointers, masks and counters. */
  method Compile(c: Child, n: nat, base: nat, row: nat) returns (cell: Cell)
    requires WellFormed(c, n)
    ensures At(c, cell, n, base, row)
    decreases c
  {
    match c.node
    case Leaf(kind) =>
      cell := CompileLeaf(c, n, base, row);
    case INode(m, children) =>
      var lin, inner := row / m, row % m;
      var start := base + c.offset / 8 + lin * c.stride / 8;
      WholeBytes(lin, c.stride);
      assert start == InnerBase(c, base, row);
      hide InnerBase;
      var cells: seq<Cell> := [];
      var i := 0;
      while i < |children|
        invariant 0 <= i <= |children| && |cells| == i
        invariant forall k :: 0 <= k < i ==> At(children[k], cells[k], m, start, inner)
      {
        var next := Compile(children[i], m, start, inner);
        hide At, WellFormed;
        cells := cells + [next];
        i := i + 1;
      }
      cell := NodeCell(inner, cells);
  }

  method CompileLeaf(c: Child, n: nat, base: nat, row: nat) returns (cell: Cell)
    requires c.node.Leaf?
    ensures At(c, cell, n, base, row)
  {
    var bits := c.offset + row * c.stride;
    BytesAndBits(base, bits);
    assert Position(c, base, row) == 8 * base + bits;
    hide Position;
    if c.node.kind == Attribute {
      cell := LeafCell(base + bits / 8, Pow2(bits % 8));
    } else {
      cell := BitmapCell(base + bits / 8, bits % 8, row);
    }
  }

  lemma BytesAndBits(base: nat, bits: nat)
    ensures (8 * base + bits) / 8 == base + bits / 8 && (8 * base + bits) % 8 == bits % 8
  {}

  lemma WholeBytes(k: nat, s: nat)
    requires s % 8 == 0
    ensures k * s / 8 == k * (s / 8) && k * s % 8 == 0
  {
    var b := s / 8;
    assert s == 8 * b;
    assert k * s == 8 * (k * b);
  }

  // ------------------------------------------------------------------ the step within a parent

  /** The cells have the form of the layout. */
  ghost predicate Shaped(c: Child, cell: Cell) {
    match c.node
    case Leaf(Attribute) => cell.LeafCell?
    case Leaf(NullBitmap) => cell.BitmapCell?
    case INode(m, children) =>
      && m != 0 && cell.NodeCell? && |cell.cells| == |children|
      && forall i :: 0 <= i < |children| ==> Shaped(children[i], cell.cells[i])
  }

  lemma {:induction false} AtIsShaped(c: Child, cell: Cell, n: nat, base: nat, row: nat)
    requires At(c, cell, n, base, row)
    ensures Shaped(c, cell)
  {
    match c.node
    case Leaf(_) =>
    case INode(m, children) =>
      forall i | 0 <= i < |children| ensures Shaped(children[i], cell.cells[i]) {
        AtIsShaped(children[i], cell.cells[i], m, InnerBase(c, base, row), row % m);
      }
  }

  lemma EightBits()
    ensures Pow2(0) == 1 && Pow2(8) == 256
  {
    assert Pow2(4) == 16;
  }

  ghost function AfterAccess(stride: nat, cell: Cell): (next: Cell)
    requires cell.LeafCell?
    ensures next.LeafCell?
  {
    if stride % 8 == 0 then LeafCell(cell.pointer + stride / 8, cell.mask)
    else if cell.mask == 128 then LeafCell(cell.pointer + 1, 1)
    else LeafCell(cell.pointer, cell.mask * 2)
  }

  /** After the last tuple of their parent, the whole bytes of NULL bits passed are added to the
      pointer. */
  ghost function AfterBits(stride: nat, n: nat, cell: Cell): (next: Cell)
    requires cell.BitmapCell?
    ensures next.BitmapCell?
  {
    var passed := cell.adjustable + stride;
    if stride == 0 then cell
    else if cell.counter + 1 == n then BitmapCell(cell.pointer + passed / 8, 0, 0)
    else BitmapCell(cell.pointer, passed, cell.counter + 1)
  }

  ghost function AfterTuple(c: Child, n: nat, cell: Cell): (next: Cell)
    requires c.node.Leaf? && Shaped(c, cell)
    ensures Shaped(c, next)
  {
    if c.node.kind == Attribute then AfterAccess(c.stride, cell) else AfterBits(c.stride, n, cell)
  }

  /** The mask moves to the next bit, or to the first one of the next byte. */
  lemma BitStep(cell: Cell, p: nat)
    requires Points(cell, p)
    ensures Points(AfterAccess(1, cell), p + 1)
  {
    EightBits();
    assert Pow2(p % 8 + 1) == 2 * Pow2(p % 8) && Pow2(8) == 2 * Pow2(7);
    if p % 8 < 7 {
      Pow2Monotone(p % 8 + 1, 7);
    }
    hide Pow2;
  }

  lemma AccessStep(stride: nat, cell: Cell, p: nat)
    requires Points(cell, p) && (stride % 8 == 0 || stride < 8)
    ensures Points(AfterAccess(stride, cell), if stride % 8 == 0 then p + stride else p + 1)
  {
    if stride % 8 != 0 {
      BitStep(cell, p);
    } else {
      hide Pow2;
    }
  }

  method AdvanceBit(cell: Cell) returns (next: Cell)
    requires cell.LeafCell?
    ensures next == AfterAccess(1, cell)
  {
    var mask := cell.mask * 2;
    if mask == 256 {
      next := LeafCell(cell.pointer + 1, 1);
    } else {
      next := LeafCell(cell.pointer, mask);
    }
  }

  /** The update of a leaf after an access, by its own stride. */
  method AdvanceAttribute(stride: nat, cell: Cell) returns (next: Cell)
    requires cell.LeafCell? && (stride % 8 == 0 || stride < 8)
    ensures next == AfterAccess(stride, cell)
  {
    var byteStride, bitStride := stride / 8, stride % 8;
    next := cell;
    if bitStride != 0 {
      next := AdvanceBit(cell);
    } else if byteStride != 0 {
      next := LeafCell(cell.pointer + byteStride, cell.mask);
    }
  }

  method AdvanceBitmap(stride: nat, n: nat, cell: Cell) returns (next: Cell)
    requires cell.BitmapCell?
    ensures next == AfterBits(stride, n, cell)
  {
    next := cell;
    if stride != 0 {
      var adjustable, counter := cell.adjustable + stride, cell.counter + 1;
      if counter == n {
        next := BitmapCell(cell.pointer + adjustable / 8, 0, 0);
      } else {
        next := BitmapCell(cell.pointer, adjustable, counter);
      }
    }
  }

  lemma NextRow(row: nat, s: nat)
    ensures (row + 1) * s == row * s + s
  {}

  /** The layout after the leaves of one kind have been advanced. */
  ghost function Advanced(c: Child, n: nat, cell: Cell, kind: Kind): (next: Cell)
    requires Shaped(c, cell)
    ensures Shaped(c, next)
  {
    match c.node
    case Leaf(k) => if k == kind then AfterTuple(c, n, cell) else cell
    case INode(m, children) =>
      cell.(cells := seq(|children|, i requires 0 <= i < |children| => Advanced(children[i], m, cell.cells[i], kind)))
  }

  /** One pass over the layout that advances the leaves of one kind. */
  method Advance(c: Child, n: nat, cell: Cell, kind: Kind) returns (next: Cell)
    requires Compilable(c, n) && Shaped(c, cell)
    ensures next == Advanced(c, n, cell, kind)
    decreases c
  {
    match c.node
    case Leaf(k) =>
      next := cell;
      if k == kind && kind == Attribute {
        next := AdvanceAttribute(c.stride, cell);
      } else if k == kind {
        next := AdvanceBitmap(c.stride, n, cell);
      }
    case INode(m, children) =>
      var cells: seq<Cell> := [];
      var i := 0;
      while i < |children|
        invariant 0 <= i <= |children| && |cells| == i
        invariant forall j :: 0 <= j < i ==> cells[j] == Advanced(children[j], m, cell.cells[j], kind)
      {
        var inner := Advance(children[i], m, cell.cells[i], kind);
        hide Advanced, Compilable;
        cells := cells + [inner];
        i := i + 1;
      }
      next := cell.(cells := cells);
  }

  // ------------------------------------------------------------------ strides of the parents

  /** An inner node on the path to a leaf: its incremented counter, the tuples it holds, and the
      stride from one instance to the next. */
  datatype Level = Level(counter: nat, numTuples: nat, stride: nat) {
    predicate Last() {
      counter == numTuples
    }
  }

  ghost predicate Wraps(levels: seq<Level>) {
    levels != [] && levels[|levels| - 1].Last()
  }

  /** The levels describe the path to a parent of `n` tuples at the given row, which is not the
      last one of a bounded layout. */
  ghost predicate Path(levels: seq<Level>, n: nat, row: nat) {
    if levels == [] then n == 0 || row + 1 < n else
    var k := |levels| - 1;
    && levels[k].numTuples == n > 0 && levels[k].counter == row + 1 <= n
    && levels[k].stride % 8 == 0 && levels[k].stride < WORD
    && (k == 0 ||
        var outer := levels[k - 1];
        && outer.counter > 0 && Path(levels[..k], outer.numTuples, outer.counter - 1)
        && outer.numTuples % n == 0 && (outer.counter - 1) % n == row)
  }

  /** By how many bytes the current instance of the innermost node moves. */
  ghost function Shift(levels: seq<Level>): int {
    if !Wraps(levels) then 0
    else
      var k := |levels| - 1;
      if Wraps(levels[..k]) && levels[k].numTuples != 0 then
        Shift(levels[..k]) - (levels[k - 1].numTuples / levels[k].numTuples - 1) * (levels[k].stride / 8)
      else levels[k].stride / 8
  }

  ghost function NextRowOf(levels: seq<Level>, row: nat): nat {
    if Wraps(levels) then 0 else row + 1
  }

  /** The bits that the jumps of all levels cover together, for something that is repeated every
      `prevTuples` tuples with the stride `prevStride`. */
  ghost function Jumps(levels: seq<Level>, prevTuples: nat, prevStride: nat): int {
    if levels == [] || prevTuples == 0 then 0
    else
      var k := |levels| - 1;
      var l := levels[k];
      (if l.Last() then l.stride - (l.numTuples / prevTuples) * prevStride else 0)
        + Jumps(levels[..k], l.numTuples, l.stride)
  }

  lemma LastOfMultiple(m: nat, n: nat)
    requires n > 0 && m > 0 && m % n == 0
    ensures (m - 1) % n == n - 1 && (m - 1) / n == m / n - 1 && m / n >= 1
  {
    var q := m / n;
    assert m == n * q;
    assert q == 0 ==> n * q == 0;
    assert m - 1 == (q - 1) * n + (n - 1) by { assert n * q == q * n == (q - 1) * n + n; }
    DivMod(q - 1, n, n - 1);
  }

  lemma DivMod(q: nat, n: nat, r: nat)
    requires r < n
    ensures (q * n + r) / n == q && (q * n + r) % n == r
  {
    var x := q * n + r;
    assert x == n * (x / n) + x % n;
    var d := x / n - q;
    assert n * (x / n) == n * q + n * d by { assert x / n == q + d; }
    assert n * d == r - x % n;
    assert d >= 1 ==> n * d >= n;
    assert d <= -1 ==> n * d + n <= 0;
  }

  /** When an outer instance is complete, so is the inner one. */
  lemma OuterWrapsInner(levels: seq<Level>, n: nat, row: nat)
    requires Path(levels, n, row) && levels != [] && Wraps(levels[..|levels| - 1])
    ensures Wraps(levels) && row == n - 1
    ensures |levels| >= 2 && levels[|levels| - 2].numTuples / n >= 1
  {
    var k := |levels| - 1;
    assert levels[..k][k - 1] == levels[k - 1];
    LastOfMultiple(levels[k - 1].numTuples, n);
  }

  /** The jumps bring the position from behind the last repetition to the next instance. */
  lemma {:induction false} JumpsCompose(levels: seq<Level>, n: nat, row: nat, prevTuples: nat, prevStride: nat)
    requires Path(levels, n, row) && prevTuples > 0
    ensures Jumps(levels, prevTuples, prevStride)
            == if Wraps(levels) then 8 * Shift(levels) - (n / prevTuples) * prevStride else 0
  {
    if levels != [] {
      var k := |levels| - 1;
      var l, outer := levels[k], levels[..k];
      if k > 0 {
        assert outer[k - 1] == levels[k - 1];
        JumpsCompose(outer, levels[k - 1].numTuples, levels[k - 1].counter - 1, n, l.stride);
        hide Path;
        if Wraps(outer) {
          assert Path(levels, n, row);
          OuterWrapsInner(levels, n, row);
          Telescope(levels[k - 1].numTuples / n, l.stride);
        }
      }
    }
  }

  lemma Telescope(q: nat, s: nat)
    requires s % 8 == 0
    ensures 8 * ((q - 1) * (s / 8)) == q * s - s
  {
    var b := s / 8;
    assert s == 8 * b;
    assert (q - 1) * b == q * b - b;
    assert q * s == 8 * (q * b);
  }

  /** The remaining stride of a level, as an unsigned word. */
  function Remaining(l: Level, prevTuples: nat, prevStride: nat): nat
    requires prevTuples != 0
  {
    (l.stride - (l.numTuples / prevTuples) * prevStride) % WORD
  }

  lemma RemainingBits(stride: nat, x: nat)
    requires stride % 8 == 0
    ensures ((stride - x) % WORD) % 8 == (stride - x) % 8
    ensures (stride - x) % 8 == 0 <==> x % 8 == 0
  {
    var d := stride - x;
    assert d == WORD * (d / WORD) + d % WORD;
  }

  /** One stride jump of a leaf.  A jump by no whole number of bytes starts over at the first bit
      of the byte after. */
  method Jump(cell: Cell, l: Level, prevTuples: nat, prevStride: nat) returns (next: Cell)
    requires !cell.NodeCell? && prevTuples != 0
    ensures next == Jumped(cell, l, Remaining(l, prevTuples, prevStride))
  {
    next := cell;
    var remaining := Remaining(l, prevTuples, prevStride);
    hide Remaining;
    if remaining != 0 {
      var byteStride, bitStride := remaining / 8, remaining % 8;
      var due := l.numTuples == 1 || l.counter == l.numTuples;
      if bitStride != 0 {
        if due && next.LeafCell? {
          next := next.(mask := 1);
        } else if due {
          next := next.(adjustable := 0);
        }
        byteStride := byteStride + 1;
      }
      if due {
        next := next.(pointer := next.pointer + byteStride);
      }
    }
  }

  ghost function Jumped(cell: Cell, l: Level, remaining: nat): (next: Cell)
    requires !cell.NodeCell?
    ensures next.LeafCell? == cell.LeafCell? && next.BitmapCell? == cell.BitmapCell?
    ensures cell.BitmapCell? ==> next.counter == cell.counter
  {
    if l.numTuples != 1 && !l.Last() then cell
    else if remaining % 8 == 0 then cell.(pointer := cell.pointer + remaining / 8)
    else if cell.LeafCell? then LeafCell(cell.pointer + remaining / 8 + 1, 1)
    else BitmapCell(cell.pointer + remaining / 8 + 1, 0, cell.counter)
  }

  predicate Counted(levels: seq<Level>) {
    forall i :: 0 <= i < |levels| ==> levels[i].numTuples != 0
  }

  /** All stride jumps of a leaf, from the innermost node outwards. */
  ghost function JumpedAll(cell: Cell, levels: seq<Level>, prevTuples: nat, prevStride: nat): (next: Cell)
    requires !cell.NodeCell? && prevTuples != 0 && Counted(levels)
    ensures next.LeafCell? == cell.LeafCell? && next.BitmapCell? == cell.BitmapCell?
    ensures cell.BitmapCell? ==> next.counter == cell.counter
    decreases |levels|
  {
    if levels == [] then cell
    else
      var k := |levels| - 1;
      var l := levels[k];
      JumpedAll(Jumped(cell, l, Remaining(l, prevTuples, prevStride)), levels[..k], l.numTuples, l.stride)
  }

  method JumpAll(cell: Cell, levels: seq<Level>, stride: nat) returns (next: Cell)
    requires !cell.NodeCell? && Counted(levels)
    ensures next == JumpedAll(cell, levels, 1, stride)
  {
    next := cell;
    var prevTuples, prevStride := 1, stride;
    var i := |levels|;
    assert levels[..i] == levels;
    while i > 0
      invariant 0 <= i <= |levels| && !next.NodeCell? && prevTuples != 0
      invariant JumpedAll(next, levels[..i], prevTuples, prevStride) == JumpedAll(cell, levels, 1, stride)
    {
      i := i - 1;
      assert levels[..i + 1][..i] == levels[..i] && levels[..i + 1][i] == levels[i];
      hide Remaining, Jumped;
      next := Jump(next, levels[i], prevTuples, prevStride);
      prevTuples, prevStride := levels[i].numTuples, levels[i].stride;
    }
  }

  ghost function NextCounter(counter: nat, m: nat): nat {
    if m != 1 then (if counter + 1 != m then counter + 1 else 0) else 0
  }

  /** The layout after the pass that bridges the strides of all parents. */
  ghost function Strided(c: Child, cell: Cell, levels: seq<Level>): (next: Cell)
    requires Shaped(c, cell) && Counted(levels)
    ensures Shaped(c, next)
    decreases c
  {
    match c.node
    case Leaf(_) => JumpedAll(cell, levels, 1, c.stride)
    case INode(m, children) =>
      var inner := levels + [Level(cell.counter + 1, m, c.stride)];
      NodeCell(NextCounter(cell.counter, m),
               seq(|children|, i requires 0 <= i < |children| => Strided(children[i], cell.cells[i], inner)))
  }

  method Stride(c: Child, cell: Cell, levels: seq<Level>) returns (next: Cell)
    requires Shaped(c, cell) && Counted(levels)
    ensures next == Strided(c, cell, levels)
    decreases c
  {
    match c.node
    case Leaf(_) =>
      next := JumpAll(cell, levels, c.stride);
    case INode(m, children) =>
      var counter := cell.counter + 1;
      var inner := levels + [Level(counter, m, c.stride)];
      var cells: seq<Cell> := [];
      var i := 0;
      while i < |children|
        invariant 0 <= i <= |children| && |cells| == i
        invariant forall j :: 0 <= j < i ==> cells[j] == Strided(children[j], cell.cells[j], inner)
      {
        var below := Stride(children[i], cell.cells[i], inner);
        hide Strided;
        cells := cells + [below];
        i := i + 1;
      }
      next := NodeCell(if m != 1 then (if counter != m then counter else 0) else 0, cells);
  }

  // ---------------------------------------------------------------------- one run of the code

  /** The layout after all passes that follow an access: every leaf is advanced and then jumps. */
  ghost function Next(c: Child, n: nat, cell: Cell, levels: seq<Level>): (next: Cell)
    requires Shaped(c, cell) && Counted(levels)
    ensures Shaped(c, next)
    decreases c
  {
    match c.node
    case Leaf(_) => JumpedAll(AfterTuple(c, n, cell), levels, 1, c.stride)
    case INode(m, children) =>
      var inner := levels + [Level(cell.counter + 1, m, c.stride)];
      NodeCell(NextCounter(cell.counter, m),
               seq(|children|, i requires 0 <= i < |children| => Next(children[i], m, cell.cells[i], inner)))
  }

  lemma {:induction false} PassesAreNext(c: Child, n: nat, cell: Cell, levels: seq<Level>)
    requires Shaped(c, cell) && Counted(levels)
    ensures Strided(c, Advanced(c, n, Advanced(c, n, cell, Attribute), NullBitmap), levels) == Next(c, n, cell, levels)
    decreases c
  {
    match c.node
    case Leaf(kind) =>
      hide JumpedAll, AfterTuple;
    case INode(m, children) =>
      var inner := levels + [Level(cell.counter + 1, m, c.stride)];
      forall i | 0 <= i < |children|
        ensures Strided(children[i],
                        Advanced(children[i], m, Advanced(children[i], m, cell.cells[i], Attribute), NullBitmap), inner)
                == Next(children[i], m, cell.cells[i], inner)
      {
        PassesAreNext(children[i], m, cell.cells[i], inner);
      }
  }

  /** The passes that follow an access. */
  method NextCell(c: Child, n: nat, cell: Cell) returns (next: Cell)
    requires Compilable(c, n) && Shaped(c, cell)
    ensures next == Next(c, n, cell, [])
  {
    assert Counted([]);
    hide *;
    PassesAreNext(c, n, cell, []);
    next := Advance(c, n, cell, Attribute);
    next := Advance(c, n, next, NullBitmap);
    next := Stride(c, next, []);
  }

  // ------------------------------------------------------- where the code brings a single leaf

  /** The cell stands for a bit position, whatever its kind. */
  ghost predicate Denotes(cell: Cell, p: int) {
    p >= 0 && (Points(cell, p) || Starts(cell, p))
  }

  /** The bits that the jumps of the code cover together. */
  ghost function Covered(levels: seq<Level>, prevTuples: nat, prevStride: nat): nat {
    if levels == [] || prevTuples == 0 then 0
    else
      var k := |levels| - 1;
      var l := levels[k];
      (if l.Last() then Remaining(l, prevTuples, prevStride) else 0) + Covered(levels[..k], l.numTuples, l.stride)
  }

  /** The repetitions fit into the strides of all levels that are complete. */
  ghost predicate Roomy(levels: seq<Level>, prevTuples: nat, prevStride: nat) {
    if levels == [] || prevTuples == 0 then true
    else
      var k := |levels| - 1;
      var l := levels[k];
      (l.Last() ==> (l.numTuples / prevTuples) * prevStride <= l.stride) && Roomy(levels[..k], l.numTuples, l.stride)
  }

  lemma CoveredLevel(l: Level, prevTuples: nat, prevStride: nat)
    requires prevTuples != 0 && l.stride < WORD
    ensures var room := l.stride - (l.numTuples / prevTuples) * prevStride;
            Remaining(l, prevTuples, prevStride) >= room
              && (Remaining(l, prevTuples, prevStride) == room <==> room >= 0)
  {}

  /** The jumps of the code cover what they should exactly if the repetitions fit, and more if they
      do not, since a negative remainder wraps around. */
  lemma {:induction false} CoveredIffRoomy(levels: seq<Level>, n: nat, row: nat, prevTuples: nat, prevStride: nat)
    requires Path(levels, n, row) && prevTuples != 0
    ensures Covered(levels, prevTuples, prevStride) >= Jumps(levels, prevTuples, prevStride)
    ensures Covered(levels, prevTuples, prevStride) == Jumps(levels, prevTuples, prevStride)
            <==> Roomy(levels, prevTuples, prevStride)
  {
    if levels != [] {
      var k := |levels| - 1;
      var l := levels[k];
      hide Remaining;
      CoveredLevel(l, prevTuples, prevStride);
      if k > 0 {
        assert levels[..k][k - 1] == levels[k - 1];
        CoveredIffRoomy(levels[..k], levels[k - 1].numTuples, levels[k - 1].counter - 1, l.numTuples, l.stride);
      }
    }
  }

  lemma PathIsCounted(levels: seq<Level>, n: nat, row: nat)
    requires Path(levels, n, row)
    ensures Counted(levels)
  {
    if levels != [] {
      var k := |levels| - 1;
      if k > 0 {
        PathIsCounted(levels[..k], levels[k - 1].numTuples, levels[k - 1].counter - 1);
      }
      assert forall i :: 0 <= i < k ==> levels[i] == levels[..k][i];
    }
  }

  /** A jump by whole bytes. */
  lemma WholeJump(cell: Cell, l: Level, remaining: nat, p: nat)
    requires Denotes(cell, p) && remaining % 8 == 0 && (l.numTuples == 1 ==> l.Last())
    ensures Denotes(Jumped(cell, l, remaining), if l.Last() then p + remaining else p)
  {
    hide Pow2;
  }

  lemma WholeRemaining(l: Level, prevTuples: nat, prevStride: nat)
    requires prevTuples != 0 && prevStride % 8 == 0 && l.stride % 8 == 0
    ensures Remaining(l, prevTuples, prevStride) % 8 == 0
  {
    var q := l.numTuples / prevTuples;
    WholeBytes(q, prevStride);
    RemainingBits(l.stride, q * prevStride);
  }

  lemma OutermostPart(levels: seq<Level>, n: nat, row: nat)
    requires Path(levels, n, row) && levels != []
    ensures var k := |levels| - 1;
            && (levels[k].numTuples == 1 ==> levels[k].Last()) && levels[k].stride % 8 == 0
               && levels[k].numTuples == n != 0
            && (k > 0 ==>
                 levels[k - 1].counter > 0 && Path(levels[..k], levels[k - 1].numTuples, levels[k - 1].counter - 1))
  {}

  lemma OneLevel(cell: Cell, levels: seq<Level>, prevTuples: nat, prevStride: nat)
    requires !cell.NodeCell? && prevTuples != 0 && Counted(levels) && levels != []
    ensures var k := |levels| - 1;
            var l := levels[k];
            var remaining := Remaining(l, prevTuples, prevStride);
            && Counted(levels[..k]) && l.numTuples != 0
            && JumpedAll(cell, levels, prevTuples, prevStride)
               == JumpedAll(Jumped(cell, l, remaining), levels[..k], l.numTuples, l.stride)
            && Covered(levels, prevTuples, prevStride)
               == (if l.Last() then remaining else 0) + Covered(levels[..k], l.numTuples, l.stride)
  {
    hide Jumped, Remaining;
  }

  /** The jumps of the outer levels are by whole bytes. */
  lemma {:induction false} OuterJumps(cell: Cell, levels: seq<Level>, n: nat, row: nat, prevTuples: nat,
                                      prevStride: nat, p: nat)
    requires Denotes(cell, p) && prevTuples != 0 && prevStride % 8 == 0
    requires Counted(levels) && (levels == [] || Path(levels, n, row))
    ensures !cell.NodeCell?
    ensures Denotes(JumpedAll(cell, levels, prevTuples, prevStride), p + Covered(levels, prevTuples, prevStride))
    decreases |levels|
  {
    if levels != [] {
      var k := |levels| - 1;
      var l := levels[k];
      var remaining := Remaining(l, prevTuples, prevStride);
      OneLevel(cell, levels, prevTuples, prevStride);
      OutermostPart(levels, n, row);
      WholeRemaining(l, prevTuples, prevStride);
      WholeJump(cell, l, remaining, p);
      hide *;
      var q := if l.Last() then p + remaining else p;
      if k > 0 {
        OuterJumps(Jumped(cell, l, remaining), levels[..k], levels[k - 1].numTuples, levels[k - 1].counter - 1,
                   l.numTuples, l.stride, q);
      } else {
        OuterJumps(Jumped(cell, l, remaining), levels[..k], 0, 0, l.numTuples, l.stride, q);
      }
    }
  }

  /** Behind the last tuple of a node, an attribute stands at a whole byte or jumps to one. */
  lemma AttributeJump(cell: Cell, l: Level, remaining: nat, p: nat)
    requires Points(cell, p) && l.Last()
    requires remaining % 8 != 0 ==> p % 8 + remaining % 8 == 8
    ensures Points(Jumped(cell, l, remaining), p + remaining)
  {
    EightBits();
    hide Pow2;
    if remaining % 8 != 0 {
      assert (p + remaining) % 8 == 0;
    }
  }

  lemma AttributeBits(c: Child, stride: nat, n: nat, base: nat)
    requires BitsSupported(c, n, Attribute) && stride % 8 == 0
    ensures var p, remaining := Position(c, base, n), (stride - n * c.stride) % WORD;
            remaining % 8 != 0 ==> p % 8 + remaining % 8 == 8
  {
    RemainingBits(stride, n * c.stride);
    if c.stride % 8 == 0 {
      WholeBytes(n, c.stride);
    } else {
      assert n * c.stride == n;
    }
  }

  lemma BitmapBits(c: Child, stride: nat, n: nat, base: nat)
    requires BitsSupported(c, n, NullBitmap) && stride % 8 == 0 && n != 0
    ensures var p, remaining := Position(c, base, n), (stride - n * c.stride) % WORD;
            c.stride != 0 ==> 8 * (p / 8 + remaining / 8) + (if remaining % 8 == 0 then 0 else 8) == p + remaining
    ensures c.stride == 0 ==> ((stride - n * c.stride) % WORD) % 8 == 0
  {
    var x := n * c.stride;
    BitmapPosition(c, n, base, x);
    hide *;
    var remaining := (stride - x) % WORD;
    RemainingBits(stride, x);
    if c.stride != 0 {
      WholeParts(8 * base + c.offset, x, remaining);
    }
  }

  lemma BitmapPosition(c: Child, n: nat, base: nat, x: nat)
    requires BitsSupported(c, n, NullBitmap) && x == n * c.stride
    ensures Position(c, base, n) == 8 * base + c.offset + x
    ensures if c.stride == 0 then x == 0 else (8 * base + c.offset) % 8 == 0
  {}

  lemma WholeParts(a: nat, x: nat, remaining: nat)
    requires a % 8 == 0 && (x + remaining) % 8 == 0
    ensures 8 * ((a + x) / 8 + remaining / 8) + (if remaining % 8 == 0 then 0 else 8) == a + x + remaining
  {
    var p, q := (a + x) % 8, remaining % 8;
    assert a + x == 8 * ((a + x) / 8) + p && remaining == 8 * (remaining / 8) + q;
    assert p == x % 8 && (p + q) % 8 == 0;
    assert p + q == 0 || p + q == 8;
  }

  lemma LeafRemaining(l: Level, stride: nat)
    ensures Remaining(l, 1, stride) == (l.stride - l.numTuples * stride) % WORD
  {
    assert l.numTuples / 1 == l.numTuples;
  }

  /** The position after an access and the first jump, which may be by single bits. */
  lemma FirstJump(c: Child, cell: Cell, l: Level, n: nat, base: nat, row: nat)
    requires c.node.Leaf? && BitsSupported(c, n, c.node.kind) && At(c, cell, n, base, row) && Shaped(c, cell)
    requires l.numTuples == n && l.counter == row + 1 <= n && l.stride % 8 == 0
    ensures var remaining := Remaining(l, 1, c.stride);
            Denotes(Jumped(AfterTuple(c, n, cell), l, remaining),
                    Position(c, base, row + 1) + if l.Last() then remaining else 0)
  {
    LeafAt(c, cell, n, base, row);
    hide *;
    if c.node.kind == Attribute {
      AttributeFirst(c, cell, l, n, base, row);
    } else {
      BitmapFirst(c, cell, l, n, base, row);
    }
  }

  lemma BitmapFirst(c: Child, cell: Cell, l: Level, n: nat, base: nat, row: nat)
    requires c.node == Leaf(NullBitmap) && BitsSupported(c, n, NullBitmap) && Starts(cell, Position(c, base, row))
    requires c.stride != 0 ==> cell.counter == row
    requires l.numTuples == n && l.counter == row + 1 <= n && l.stride % 8 == 0
    ensures var remaining := Remaining(l, 1, c.stride);
            Denotes(Jumped(AfterBits(c.stride, n, cell), l, remaining),
                    Position(c, base, row + 1) + if l.Last() then remaining else 0)
  {
    var p, remaining := Position(c, base, row + 1), Remaining(l, 1, c.stride);
    NextRow(row, c.stride);
    assert p == Position(c, base, row) + c.stride;
    LeafRemaining(l, c.stride);
    BitmapBits(c, l.stride, n, base);
    hide Remaining, Position, BitsSupported, Pow2;
    if !l.Last() {
    } else if c.stride == 0 {
      hide Jumped;
      WholeJump(cell, l, remaining, p);
    } else {
      BitmapLast(cell, l, c.stride, p, remaining);
    }
  }

  lemma BitmapLast(cell: Cell, l: Level, stride: nat, p: nat, remaining: nat)
    requires cell.BitmapCell? && stride != 0 && 8 * cell.pointer + cell.adjustable + stride == p
    requires l.Last() && cell.counter + 1 == l.numTuples
    requires 8 * (p / 8 + remaining / 8) + (if remaining % 8 == 0 then 0 else 8) == p + remaining
    ensures Denotes(Jumped(AfterBits(stride, l.numTuples, cell), l, remaining), p + remaining)
  {
    assert cell.pointer + (cell.adjustable + stride) / 8 == p / 8;
    hide Pow2;
  }

  lemma AttributeFirst(c: Child, cell: Cell, l: Level, n: nat, base: nat, row: nat)
    requires c.node == Leaf(Attribute) && BitsSupported(c, n, Attribute) && Points(cell, Position(c, base, row))
    requires l.numTuples == n && l.counter == row + 1 <= n && l.stride % 8 == 0
    ensures var remaining := Remaining(l, 1, c.stride);
            Denotes(Jumped(AfterTuple(c, n, cell), l, remaining),
                    Position(c, base, row + 1) + if l.Last() then remaining else 0)
  {
    LeafRemaining(l, c.stride);
    AttributeBits(c, l.stride, n, base);
    AttributeAdvances(c, cell, n, base, row);
    hide Remaining, Position, Points, AfterTuple;
    if l.Last() {
      AttributeJump(AfterTuple(c, n, cell), l, Remaining(l, 1, c.stride), Position(c, base, row + 1));
    }
  }

  lemma AttributeAdvances(c: Child, cell: Cell, n: nat, base: nat, row: nat)
    requires c.node == Leaf(Attribute) && BitsSupported(c, n, Attribute) && Points(cell, Position(c, base, row))
    ensures Points(AfterTuple(c, n, cell), Position(c, base, row + 1))
  {
    NextRow(row, c.stride);
    AccessStep(c.stride, cell, Position(c, base, row));
    hide Points, AfterAccess;
  }

  lemma TargetPosition(c: Child, levels: seq<Level>, n: nat, base: nat, row: nat)
    requires Path(levels, n, row) && base + Shift(levels) >= 0
    ensures Position(c, base, row + 1) + Jumps(levels, 1, c.stride)
            == Position(c, base + Shift(levels), NextRowOf(levels, row))
  {
    JumpsCompose(levels, n, row, 1, c.stride);
    hide Jumps, Shift;
    assert Wraps(levels) ==> row + 1 == n;
  }

  /** Without complete parents, or before any jump, a leaf stands at its next repetition. */
  lemma RootLeaf(c: Child, n: nat, cell: Cell, base: nat, row: nat)
    requires c.node.Leaf? && BitsSupported(c, n, c.node.kind) && At(c, cell, n, base, row) && Shaped(c, cell)
    requires n == 0 || row + 1 < n
    ensures Denotes(AfterTuple(c, n, cell), Position(c, base, row + 1))
  {
    NextRow(row, c.stride);
    if c.node.kind == Attribute {
      AttributeAdvances(c, cell, n, base, row);
    }
    hide Points, Pow2, BitsSupported;
  }

  /** Where the code brings a leaf whose bits are supported. */
  lemma LeafPosition(c: Child, n: nat, cell: Cell, levels: seq<Level>, base: nat, row: nat)
    requires c.node.Leaf? && BitsSupported(c, n, c.node.kind) && At(c, cell, n, base, row) && Shaped(c, cell)
    requires Path(levels, n, row) && Counted(levels)
    ensures Denotes(Next(c, n, cell, levels), Position(c, base, row + 1) + Covered(levels, 1, c.stride))
  {
    hide *;
    var advanced := AfterTuple(c, n, cell);
    LeafNext(c, n, cell, levels);
    PathEnd(levels, n, row);
    if levels == [] {
      RootLeaf(c, n, cell, base, row);
    } else {
      var k := |levels| - 1;
      var l := levels[k];
      var remaining := Remaining(l, 1, c.stride);
      OneLevel(advanced, levels, 1, c.stride);
      OutermostPart(levels, n, row);
      FirstJump(c, cell, l, n, base, row);
      var q := Position(c, base, row + 1) + if l.Last() then remaining else 0;
      if k > 0 {
        OuterJumps(Jumped(advanced, l, remaining), levels[..k], levels[k - 1].numTuples, levels[k - 1].counter - 1,
                   l.numTuples, l.stride, q);
      } else {
        OuterJumps(Jumped(advanced, l, remaining), levels[..k], 0, 0, l.numTuples, l.stride, q);
      }
    }
  }

  lemma LeafNext(c: Child, n: nat, cell: Cell, levels: seq<Level>)
    requires c.node.Leaf? && Shaped(c, cell) && Counted(levels)
    ensures !AfterTuple(c, n, cell).NodeCell?
    ensures Next(c, n, cell, levels) == JumpedAll(AfterTuple(c, n, cell), levels, 1, c.stride)
    ensures levels == [] ==> Next(c, n, cell, levels) == AfterTuple(c, n, cell) && Covered(levels, 1, c.stride) == 0
  {}

  lemma PathEnd(levels: seq<Level>, n: nat, row: nat)
    requires Path(levels, n, row)
    ensures levels != [] ==> var l := levels[|levels| - 1]; l.numTuples == n && l.counter == row + 1 <= n
    ensures levels == [] ==> n == 0 || row + 1 < n
    ensures Wraps(levels) <==> n != 0 && row + 1 == n
  {}

  lemma DifferentMasks(a: nat, b: nat)
    requires a != b
    ensures Pow2(a) != Pow2(b)
  {
    if a < b {
      Pow2Monotone(a + 1, b);
    } else {
      Pow2Monotone(b + 1, a);
    }
  }

  lemma DenotesOnce(cell: Cell, p: nat, q: nat)
    requires Denotes(cell, p) && p != q
    ensures !Points(cell, q) && !Starts(cell, q)
  {
    if p % 8 != q % 8 {
      DifferentMasks(p % 8, q % 8);
    }
    hide Pow2;
  }

  /** The counter of a NULL bitmap with a stride starts over with its node. */
  lemma BitmapCounter(c: Child, n: nat, cell: Cell, levels: seq<Level>, base: nat, row: nat)
    requires c.node == Leaf(NullBitmap) && c.stride != 0 && At(c, cell, n, base, row) && Shaped(c, cell)
    requires Path(levels, n, row) && Counted(levels)
    ensures Next(c, n, cell, levels).counter == NextRowOf(levels, row)
  {
    PathEnd(levels, n, row);
    hide Path, JumpedAll, Wraps, Starts;
  }

  /** For a leaf whose bits are supported, the code is right exactly if everything fits. */
  lemma LeafRightIffRoomy(c: Child, n: nat, cell: Cell, levels: seq<Level>, base: nat, row: nat)
    requires c.node.Leaf? && BitsSupported(c, n, c.node.kind) && At(c, cell, n, base, row) && Shaped(c, cell)
    requires Path(levels, n, row) && Counted(levels) && base + Shift(levels) >= 0
    ensures At(c, Next(c, n, cell, levels), n, base + Shift(levels), NextRowOf(levels, row))
            <==> Roomy(levels, 1, c.stride)
  {
    var next := Next(c, n, cell, levels);
    var p := Position(c, base, row + 1) + Covered(levels, 1, c.stride);
    var q := Position(c, base + Shift(levels), NextRowOf(levels, row));
    LeafPosition(c, n, cell, levels, base, row);
    TargetPosition(c, levels, n, base, row);
    CoveredIffRoomy(levels, n, row, 1, c.stride);
    if p != q {
      DenotesOnce(next, p, q);
    }
    if c.node.kind == NullBitmap && c.stride != 0 {
      BitmapCounter(c, n, cell, levels, base, row);
    }
    LeafAt(c, next, n, base + Shift(levels), NextRowOf(levels, row));
    hide *;
  }

  lemma LeafAt(c: Child, cell: Cell, n: nat, base: nat, row: nat)
    requires c.node.Leaf? && Shaped(c, cell)
    ensures At(c, cell, n, base, row) <==>
            && (if c.node.kind == Attribute then Points(cell, Position(c, base, row))
                else Starts(cell, Position(c, base, row)))
            && (c.node.kind == NullBitmap && c.stride != 0 ==> cell.BitmapCell? && cell.counter == row)
    ensures Denotes(cell, Position(c, base, row))
            <==> Points(cell, Position(c, base, row)) || Starts(cell, Position(c, base, row))
    ensures c.node.kind == NullBitmap ==> cell.BitmapCell?
  {}

  // --------------------------------------------------------------- one run over a whole layout

  /** The row of an inner node whose parent proceeds to its next row. */
  lemma InnerNext(levels: seq<Level>, n: nat, row: nat, m: nat, stride: nat)
    requires Path(levels, n, row) && m != 0 && n % m == 0 && stride % 8 == 0
    ensures var inner := levels + [Level(row % m + 1, m, stride)];
            && NextRowOf(inner, row % m) == NextRowOf(levels, row) % m
            && (row / m) * (stride / 8) + Shift(inner) == Shift(levels) + (NextRowOf(levels, row) / m) * (stride / 8)
  {
    var inner := levels + [Level(row % m + 1, m, stride)];
    assert inner[..|levels|] == levels;
    assert levels != [] ==> inner[|inner| - 2] == levels[|levels| - 1];
    if Wraps(levels) {
      LastOfMultiple(n, m);
      assert (row / m) * (stride / 8) == (n / m - 1) * (stride / 8);
    } else {
      NextQuotient(row, m);
      hide Path;
      if row % m + 1 == m {
        assert (row / m + 1) * (stride / 8) == (row / m) * (stride / 8) + stride / 8;
      }
    }
  }

  lemma NextQuotient(row: nat, m: nat)
    requires m != 0
    ensures row % m + 1 == m ==> (row + 1) / m == row / m + 1 && (row + 1) % m == 0
    ensures row % m + 1 != m ==> (row + 1) / m == row / m && (row + 1) % m == row % m + 1
  {
    var q, r := row / m, row % m;
    assert row == q * m + r;
    if r + 1 == m {
      assert row + 1 == (q + 1) * m + 0;
      DivMod(q + 1, m, 0);
    } else {
      assert row + 1 == q * m + (r + 1);
      DivMod(q, m, r + 1);
    }
  }

  /** The path to the children of an inner node. */
  lemma InnerPath(levels: seq<Level>, n: nat, row: nat, c: Child, base: nat)
    requires Path(levels, n, row) && WellFormed(c, n) && c.node.INode? && base + Shift(levels) >= 0
    ensures var m := c.node.numTuples;
            var inner := levels + [Level(row % m + 1, m, c.stride)];
            && m != 0 && Path(inner, m, row % m) && Counted(inner)
            && NextRowOf(inner, row % m) == NextRowOf(levels, row) % m == NextCounter(row % m, m)
            && InnerBase(c, base, row) + Shift(inner) == InnerBase(c, base + Shift(levels), NextRowOf(levels, row))
  {
    var m := c.node.numTuples;
    var inner := levels + [Level(row % m + 1, m, c.stride)];
    InnerNext(levels, n, row, m, c.stride);
    InnerIsPath(levels, n, row, m, c.stride);
    PathIsCounted(inner, m, row % m);
    hide Path, Shift, Counted;
  }

  lemma InnerIsPath(levels: seq<Level>, n: nat, row: nat, m: nat, stride: nat)
    requires Path(levels, n, row) && m != 0 && n % m == 0 && stride % 8 == 0 && stride < WORD
    ensures Path(levels + [Level(row % m + 1, m, stride)], m, row % m)
  {
    var inner := levels + [Level(row % m + 1, m, stride)];
    PathEnd(levels, n, row);
    assert (row % m) < m;
    if levels != [] {
      var k := |levels|;
      assert inner[..k] == levels && inner[k - 1] == levels[k - 1];
    }
  }

  lemma InnerRoom(levels: seq<Level>, l: Level, child: Child)
    requires l.numTuples != 0 && child.node.Tuples() != 0
    ensures Roomy(levels + [l], child.node.Tuples(), child.stride)
            <==> (l.Last() ==> Fits(child, l.numTuples, l.stride)) && Roomy(levels, l.numTuples, l.stride)
  {
    assert (levels + [l])[..|levels|] == levels;
  }

  /** A node is right after a run exactly if all its children are. */
  lemma NodeRightIff(c: Child, n: nat, cell: Cell, levels: seq<Level>, inner: seq<Level>, base: nat, row: nat)
    requires c.node.INode? && WellFormed(c, n) && At(c, cell, n, base, row) && Shaped(c, cell)
    requires Path(levels, n, row) && Counted(levels) && base + Shift(levels) >= 0
    requires inner == levels + [Level(row % c.node.numTuples + 1, c.node.numTuples, c.stride)]
    ensures Counted(inner) && InnerBase(c, base, row) + Shift(inner) >= 0
    ensures At(c, Next(c, n, cell, levels), n, base + Shift(levels), NextRowOf(levels, row))
            <==> ChildrenRight(c, cell, inner, base, row)
  {
    hide *;
    InnerPath(levels, n, row, c, base);
    NodeNext(c, n, cell, levels, inner, base, row);
    NodeAt(c, cell, Next(c, n, cell, levels), inner, n, base, row, base + Shift(levels), NextRowOf(levels, row));
  }

  ghost predicate ChildrenRight(c: Child, cell: Cell, inner: seq<Level>, base: nat, row: nat)
    requires c.node.INode? && c.node.numTuples != 0 && Shaped(c, cell) && Counted(inner)
    requires InnerBase(c, base, row) + Shift(inner) >= 0
  {
    forall i :: 0 <= i < |c.node.children| ==> ChildRight(c, cell, inner, base, row, i)
  }

  ghost predicate NodeCells(c: Child, cell: Cell, next: Cell, inner: seq<Level>)
    requires c.node.INode? && Shaped(c, cell) && Counted(inner)
  {
    && next.NodeCell? && |next.cells| == |c.node.children|
    && forall i :: 0 <= i < |next.cells| ==>
         next.cells[i] == Next(c.node.children[i], c.node.numTuples, cell.cells[i], inner)
  }

  lemma NodeNext(c: Child, n: nat, cell: Cell, levels: seq<Level>, inner: seq<Level>, base: nat, row: nat)
    requires c.node.INode? && Shaped(c, cell) && At(c, cell, n, base, row) && Counted(levels) && Counted(inner)
    requires inner == levels + [Level(row % c.node.numTuples + 1, c.node.numTuples, c.stride)]
    ensures var next := Next(c, n, cell, levels);
            NodeCells(c, cell, next, inner) && next.counter == NextCounter(row % c.node.numTuples, c.node.numTuples)
  {
    hide InnerBase, NextCounter;
  }

  lemma NodeAt(c: Child, cell: Cell, next: Cell, inner: seq<Level>, n: nat, base: nat, row: nat, base': nat, row': nat)
    requires c.node.INode? && c.node.numTuples != 0 && Shaped(c, cell) && Counted(inner)
             && NodeCells(c, cell, next, inner)
    requires next.counter == row' % c.node.numTuples
             && NextRowOf(inner, row % c.node.numTuples) == row' % c.node.numTuples
    requires InnerBase(c, base, row) + Shift(inner) == InnerBase(c, base', row')
    ensures At(c, next, n, base', row') <==> ChildrenRight(c, cell, inner, base, row)
  {
    hide InnerBase, Shift, NextRowOf, Next, Counted;
    forall i | 0 <= i < |c.node.children|
      ensures ChildRight(c, cell, inner, base, row, i)
              <==> At(c.node.children[i], next.cells[i], c.node.numTuples, InnerBase(c, base', row'),
                      row' % c.node.numTuples)
    {
      assert next.cells[i] == Next(c.node.children[i], c.node.numTuples, cell.cells[i], inner);
    }
  }

  ghost predicate ChildRight(c: Child, cell: Cell, inner: seq<Level>, base: nat, row: nat, i: nat)
    requires c.node.INode? && c.node.numTuples != 0 && i < |c.node.children| && Shaped(c, cell) && Counted(inner)
    requires InnerBase(c, base, row) + Shift(inner) >= 0
  {
    var m := c.node.numTuples;
    At(c.node.children[i], Next(c.node.children[i], m, cell.cells[i], inner), m, InnerBase(c, base, row) + Shift(inner),
       NextRowOf(inner, row % m))
  }

  /** In a supported layout whose repetitions fit, the code brings every cell to the next row. */
  lemma {:induction false} NextIsRight(c: Child, n: nat, cell: Cell, levels: seq<Level>, base: nat, row: nat)
    requires WellFormed(c, n) && Supported(c, n) && At(c, cell, n, base, row) && Shaped(c, cell)
    requires Path(levels, n, row) && Counted(levels) && base + Shift(levels) >= 0
    requires HasLeaf(c) ==> c.node.Tuples() != 0 && Roomy(levels, c.node.Tuples(), c.stride)
    ensures At(c, Next(c, n, cell, levels), n, base + Shift(levels), NextRowOf(levels, row))
    decreases c
  {
    hide *;
    match c.node
    case Leaf(_) =>
      LeafTuples(c);
      LeafRightIffRoomy(c, n, cell, levels, base, row);
    case INode(m, children) =>
      TuplesOfNode(c, n);
      var l := Level(row % m + 1, m, c.stride);
      InnerPath(levels, n, row, c, base);
      NodeRightIff(c, n, cell, levels, levels + [l], base, row);
      forall i | 0 <= i < |children| ensures ChildRight(c, cell, levels + [l], base, row, i) {
        ChildFacts(c, n, cell, base, row, i);
        ChildRoom(c, n, levels, l, i);
        NextIsRight(children[i], m, cell.cells[i], levels + [l], InnerBase(c, base, row), row % m);
        ChildRightMeans(c, cell, levels + [l], base, row, i);
      }
      ChildrenRightMeans(c, cell, levels + [l], base, row);
  }

  lemma LeafTuples(c: Child)
    requires c.node.Leaf?
    ensures c.node.Tuples() == 1 && HasLeaf(c)
    ensures forall n :: Supported(c, n) <==> BitsSupported(c, n, c.node.kind)
  {}

  lemma TuplesOfNode(c: Child, n: nat)
    requires c.node.INode? && WellFormed(c, n)
    ensures c.node.numTuples != 0
  {}

  lemma ChildFacts(c: Child, n: nat, cell: Cell, base: nat, row: nat, i: nat)
    requires c.node.INode? && i < |c.node.children| && WellFormed(c, n) && At(c, cell, n, base, row)
    ensures cell.NodeCell? && |cell.cells| == |c.node.children|
    ensures var child, m := c.node.children[i], c.node.numTuples;
            && m != 0 && child < c && WellFormed(child, m)
               && At(child, cell.cells[i], m, InnerBase(c, base, row), row % m)
            && (Supported(c, n) ==> Supported(child, m) && (HasLeaf(child) ==> Fits(child, m, c.stride)))
            && (HasLeaf(child) ==> HasLeaf(c)) && child.node.Tuples() != 0
    ensures Shaped(c.node.children[i], cell.cells[i])
  {
    AtIsShaped(c.node.children[i], cell.cells[i], c.node.numTuples, InnerBase(c, base, row), row % c.node.numTuples);
    hide InnerBase, Fits;
  }

  lemma ChildRoom(c: Child, n: nat, levels: seq<Level>, l: Level, i: nat)
    requires c.node.INode? && i < |c.node.children| && l.numTuples == c.node.numTuples != 0 && l.stride == c.stride
    requires c.node.children[i].node.Tuples() != 0
    ensures var child := c.node.children[i];
            Roomy(levels + [l], child.node.Tuples(), child.stride)
            <==> (l.Last() ==> Fits(child, l.numTuples, l.stride)) && Roomy(levels, c.node.Tuples(), c.stride)
  {
    InnerRoom(levels, l, c.node.children[i]);
    hide Roomy, Fits;
  }

  lemma ChildRightMeans(c: Child, cell: Cell, inner: seq<Level>, base: nat, row: nat, i: nat)
    requires c.node.INode? && c.node.numTuples != 0 && i < |c.node.children| && Shaped(c, cell) && Counted(inner)
    requires InnerBase(c, base, row) + Shift(inner) >= 0
    ensures cell.NodeCell? && |cell.cells| == |c.node.children| && Shaped(c.node.children[i], cell.cells[i])
    ensures ChildRight(c, cell, inner, base, row, i) <==>
            At(c.node.children[i], Next(c.node.children[i], c.node.numTuples, cell.cells[i], inner), c.node.numTuples,
               InnerBase(c, base, row) + Shift(inner), NextRowOf(inner, row % c.node.numTuples))
  {
    hide At, Next, InnerBase, Shift, NextRowOf, Counted;
  }

  lemma ChildrenRightMeans(c: Child, cell: Cell, inner: seq<Level>, base: nat, row: nat)
    requires c.node.INode? && c.node.numTuples != 0 && Shaped(c, cell) && Counted(inner)
    requires InnerBase(c, base, row) + Shift(inner) >= 0
    ensures ChildrenRight(c, cell, inner, base, row)
            <==> forall i :: 0 <= i < |c.node.children| ==> ChildRight(c, cell, inner, base, row, i)
  {}

  /** The compiled code with its context: the tuples of a layout are accessed one by one. */
  class Cursor {
    const layout: Child
    const n: nat                    // tuples of the whole layout, or 0 if it is unbounded
    const address: nat
    var cell: Cell
    ghost var row: nat

    ghost predicate Valid()
      reads this
    {
      WellFormed(layout, n) && Supported(layout, n) && At(layout, cell, n, address, row)
    }

    constructor (layout: Child, n: nat, address: nat, row: nat)
      requires WellFormed(layout, n) && Supported(layout, n)
      ensures Valid() && this.row == row && this.layout == layout && this.n == n && this.address == address
    {
      this.layout, this.n, this.address, this.row := layout, n, address, row;
      var start := Compile(layout, n, address, row);
      cell := start;
    }

    /** After a run the state is that of code compiled for the next row. */
    method Run()
      requires Valid() && (n == 0 || row + 1 < n)
      modifies this
      ensures Valid() && row == old(row) + 1
    {
      AtIsShaped(layout, cell, n, address, row);
      RunIsRight(layout, n, cell, address, row);
      SupportedIsCompilable(layout, n);
      hide *;
      cell := NextCell(layout, n, cell);
      row := row + 1;
    }
  }

  lemma RunIsRight(c: Child, n: nat, cell: Cell, base: nat, row: nat)
    requires WellFormed(c, n) && Supported(c, n) && At(c, cell, n, base, row) && (n == 0 || row + 1 < n)
    ensures Shaped(c, cell) && Counted([]) && At(c, Next(c, n, cell, []), n, base, row + 1)
  {
    AtIsShaped(c, cell, n, base, row);
    assert Shift([]) == 0 && NextRowOf([], row) == row + 1 && Path([], n, row) && Roomy([], c.node.Tuples(), c.stride);
    hide *;
    assert Counted([]);
    NextIsRight(c, n, cell, [], base, row);
  }

  // ----------------------------------------------------------------- where tuples are accessed

  /** The positions of the leaves of one kind for a row, in the order of the layout. */
  ghost function Positions(c: Child, kind: Kind, base: nat, row: nat): seq<nat> {
    match c.node
    case Leaf(k) => if k == kind then [Position(c, base, row)] else []
    case INode(m, children) =>
      if m == 0 then [] else AllPositions(children, kind, InnerBase(c, base, row), row % m)
  }

  ghost function AllPositions(children: seq<Child>, kind: Kind, base: nat, row: nat): seq<nat> {
    if children == [] then []
    else Positions(children[0], kind, base, row) + AllPositions(children[1..], kind, base, row)
  }

  /** The cells that the code uses for the leaves of one kind. */
  function Leaves(c: Child, kind: Kind, cell: Cell): seq<Cell> {
    match c.node
    case Leaf(k) => if k == kind then [cell] else []
    case INode(_, children) => if cell.NodeCell? then AllLeaves(children, kind, cell.cells) else []
  }

  function AllLeaves(children: seq<Child>, kind: Kind, cells: seq<Cell>): seq<Cell> {
    if children == [] || cells == [] then []
    else Leaves(children[0], kind, cells[0]) + AllLeaves(children[1..], kind, cells[1..])
  }

  ghost predicate Designates(kind: Kind, cell: Cell, p: nat) {
    if kind == Attribute then Points(cell, p) else Starts(cell, p)
  }

  ghost predicate Designate(kind: Kind, cells: seq<Cell>, ps: seq<nat>) {
    |cells| == |ps| && forall i :: 0 <= i < |cells| ==> Designates(kind, cells[i], ps[i])
  }

  lemma DesignateAppend(kind: Kind, a: seq<Cell>, b: seq<Cell>, ps: seq<nat>, qs: seq<nat>)
    requires Designate(kind, a, ps) && Designate(kind, b, qs)
    ensures Designate(kind, a + b, ps + qs)
  {
    hide Designates;
  }

  /** The cells for a row point to the positions that divisions and remainders give for it. */
  lemma {:induction false} CellsPointToRow(c: Child, kind: Kind, cell: Cell, n: nat, base: nat, row: nat)
    requires At(c, cell, n, base, row)
    ensures Designate(kind, Leaves(c, kind, cell), Positions(c, kind, base, row))
    decreases c, 1
  {
    match c.node
    case Leaf(k) =>
      hide Position, Points, Starts;
    case INode(m, children) =>
      AllCellsPointToRow(c, children, kind, cell.cells, m, InnerBase(c, base, row), row % m);
  }

  lemma {:induction false} AllCellsPointToRow(c: Child, children: seq<Child>, kind: Kind, cells: seq<Cell>, n: nat,
                                              base: nat, row: nat)
    requires |children| == |cells| && forall i :: 0 <= i < |children| ==> children[i] < c
    requires forall i :: 0 <= i < |children| ==> At(children[i], cells[i], n, base, row)
    ensures Designate(kind, AllLeaves(children, kind, cells), AllPositions(children, kind, base, row))
    decreases c, 0, |children|
  {
    if children != [] {
      CellsPointToRow(children[0], kind, cells[0], n, base, row);
      AllCellsPointToRow(c, children[1..], kind, cells[1..], n, base, row);
      hide At, Leaves, Positions, Designate;
      DesignateAppend(kind, Leaves(children[0], kind, cells[0]), AllLeaves(children[1..], kind, cells[1..]),
                      Positions(children[0], kind, base, row), AllPositions(children[1..], kind, base, row));
    }
  }
}
