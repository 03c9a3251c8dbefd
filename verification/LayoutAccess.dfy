/** Writing tuples to a store and scanning them again, both with the incremental code. */
module LayoutAccess {
  import opened SmallBitset
  import opened DataLayouts

  type Memory = map<nat, bool>
  type Bits = seq<bool>

  datatype Field = Null | Value(bits: Bits)

  type Tuple = seq<Field>

  /** An attribute in the order of the leaves of the layout; its index is the one of its NULL bit. */
  datatype Attr = Attr(index: nat, width: nat, nullable: bool)

  type Attributes = seq<Attr>

  /** Where a row has its values, and where it has its NULL bits. */
  datatype Places = Places(values: seq<nat>, flags: seq<nat>)

  ghost predicate HoldsBits(mem: Memory, p: nat, v: Bits) {
    forall x: nat :: p <= x < p + |v| ==> x in mem && mem[x] == v[x - p]
  }

  /** The NULL bit says whether the field is NULL, and if it is not, its bits are there. */
  ghost predicate HoldsField(mem: Memory, a: Attr, value: nat, flag: nat, f: Field) {
    && (a.nullable ==> HoldsBits(mem, flag, [f.Null?]))
    && (f.Value? ==> HoldsBits(mem, value, f.bits))
  }

  ghost predicate Holds(mem: Memory, attrs: Attributes, at: Places, t: Tuple) {
    && |at.values| == |at.flags| == |attrs| == |t|
    && forall a :: 0 <= a < |t| ==> HoldsField(mem, attrs[a], at.values[a], at.flags[a], t[a])
  }

  /** Only attributes that can be NULL are, and values have the width of their type. */
  ghost predicate Typed(attrs: Attributes, t: Tuple) {
    && |t| == |attrs|
    && forall a :: 0 <= a < |t| ==> if t[a].Null? then attrs[a].nullable else |t[a].bits| == attrs[a].width
  }

  // ------------------------------------------------------------------------ places in a store

  /** The start and the length of the values, and behind them of the NULL bits. */
  ghost function Slot(attrs: Attributes, at: Places, k: nat): (nat, nat)
    requires |at.values| == |at.flags| == |attrs| && k < 2 * |attrs|
  {
    var n := |attrs|;
    if k < n then (at.values[k], attrs[k].width) else (at.flags[k - n], if attrs[k - n].nullable then 1 else 0)
  }

  ghost predicate Apart(s: (nat, nat), t: (nat, nat)) {
    s.1 == 0 || t.1 == 0 || s.0 + s.1 <= t.0 || t.0 + t.1 <= s.0
  }

  ghost predicate Fitting(attrs: Attributes, at: Places) {
    |at.values| == |at.flags| == |attrs|
  }

  ghost predicate Separate(attrs: Attributes, at: Places) {
    && Fitting(attrs, at)
    && forall k, l :: 0 <= k < 2 * |attrs| && 0 <= l < 2 * |attrs| && k != l ==>
         Apart(Slot(attrs, at, k), Slot(attrs, at, l))
  }

  /** Two rows that share no bit. */
  ghost predicate Elsewhere(attrs: Attributes, at: Places, other: Places) {
    && Fitting(attrs, at) && Fitting(attrs, other)
    && forall k, l :: 0 <= k < 2 * |attrs| && 0 <= l < 2 * |attrs| ==> Apart(Slot(attrs, at, k), Slot(attrs, other, l))
  }

  ghost function BitmapStart(c: Child, address: nat, r: nat): nat {
    var ps := Positions(c, NullBitmap, address, r);
    if ps == [] then 0 else ps[0]
  }

  /** Where row `r` is, by divisions and remainders. */
  ghost function RowAt(c: Child, attrs: Attributes, address: nat, r: nat): Places {
    var start := BitmapStart(c, address, r);
    Places(Positions(c, Attribute, address, r), seq(|attrs|, a requires 0 <= a < |attrs| => start + attrs[a].index))
  }

  /** The layout has a leaf for each attribute, and a NULL bitmap if one is needed. */
  ghost predicate Lays(c: Child, attrs: Attributes, address: nat) {
    forall r: nat ::
      && |Positions(c, Attribute, address, r)| == |attrs|
      && ((exists a :: a in attrs && a.nullable) ==> |Positions(c, NullBitmap, address, r)| == 1)
  }

  /** No two values or NULL bits of the table overlap. */
  ghost predicate NonOverlapping(c: Child, attrs: Attributes, address: nat) {
    && Lays(c, attrs, address)
    && (forall r: nat :: Separate(attrs, RowAt(c, attrs, address, r)))
    && forall r: nat, s: nat :: r != s ==> Elsewhere(attrs, RowAt(c, attrs, address, r), RowAt(c, attrs, address, s))
  }

  // --------------------------------------------------------------------------- a single field

  /** The bit position that a pointer and mask address. */
  method BitOf(cell: Cell, ghost p: nat) returns (q: nat)
    requires Points(cell, p)
    ensures q == p
  {
    var mask, bit := cell.mask, 0;
    while mask > 1
      invariant bit <= p % 8 && mask == Pow2(p % 8 - bit)
      decreases mask
    {
      mask := mask / 2;
      bit := bit + 1;
    }
    q := 8 * cell.pointer + bit;
  }

  /** The position of a NULL bit: whole bytes of the adjusted offset go to the address. */
  method NullBitOf(bitmap: Cell, index: nat, ghost start: nat) returns (q: nat)
    requires Starts(bitmap, start)
    ensures q == start + index
  {
    var offset := bitmap.adjustable + index;
    var byte := bitmap.pointer + offset / 8;
    q := 8 * byte + offset % 8;
  }

  ghost predicate SameOutside(mem: Memory, next: Memory, p: nat, n: nat) {
    forall q: nat :: !(p <= q < p + n) ==> (q in next <==> q in mem) && (q in mem ==> next[q] == mem[q])
  }

  method WriteBits(mem: Memory, p: nat, v: Bits) returns (next: Memory)
    ensures HoldsBits(next, p, v)
    ensures SameOutside(mem, next, p, |v|)
  {
    next := mem;
    var i := 0;
    while i < |v|
      invariant 0 <= i <= |v|
      invariant forall x: nat :: p <= x < p + i ==> x in next && next[x] == v[x - p]
      invariant SameOutside(mem, next, p, i)
    {
      next := next[p + i := v[i]];
      i := i + 1;
    }
  }

  method ReadBits(mem: Memory, p: nat, width: nat, ghost v: Bits) returns (u: Bits)
    requires HoldsBits(mem, p, v) && |v| == width
    ensures u == v
  {
    u := [];
    var i := 0;
    while i < width
      invariant 0 <= i <= width && u == v[..i]
    {
      assert v[p + i - p] == v[i];
      u := u + [mem[p + i]];
      i := i + 1;
    }
  }

  lemma KeepsBits(mem: Memory, next: Memory, p: nat, n: nat, q: nat, w: Bits)
    requires HoldsBits(mem, q, w) && SameOutside(mem, next, p, n) && Apart((p, n), (q, |w|))
    ensures HoldsBits(next, q, w)
  {}

  /** A write to a place apart from both places of a field keeps the field. */
  lemma KeepsField(mem: Memory, next: Memory, s: (nat, nat), a: Attr, value: nat, flag: nat, f: Field)
    requires HoldsField(mem, a, value, flag, f) && SameOutside(mem, next, s.0, s.1)
    requires f.Value? ==> |f.bits| == a.width
    requires Apart(s, (value, a.width)) && Apart(s, (flag, if a.nullable then 1 else 0))
    ensures HoldsField(next, a, value, flag, f)
  {
    if a.nullable {
      KeepsBits(mem, next, s.0, s.1, flag, [f.Null?]);
    }
    if f.Value? {
      KeepsBits(mem, next, s.0, s.1, value, f.bits);
    }
  }

  /** A write to slot `k` of one row keeps another row. */
  lemma KeepsRow(mem: Memory, next: Memory, attrs: Attributes, at: Places, k: nat, other: Places, u: Tuple)
    requires Elsewhere(attrs, at, other) && k < 2 * |attrs| && Typed(attrs, u) && Holds(mem, attrs, other, u)
    requires SameOutside(mem, next, Slot(attrs, at, k).0, Slot(attrs, at, k).1)
    ensures Holds(next, attrs, other, u)
  {
    var n := |attrs|;
    hide HoldsField, Apart, SameOutside;
    forall b | 0 <= b < n ensures HoldsField(next, attrs[b], other.values[b], other.flags[b], u[b]) {
      assert Apart(Slot(attrs, at, k), Slot(attrs, other, b)) && Apart(Slot(attrs, at, k), Slot(attrs, other, n + b));
      KeepsField(mem, next, Slot(attrs, at, k), attrs[b], other.values[b], other.flags[b], u[b]);
    }
  }

  /** The fields before `a` are stored. */
  ghost predicate HoldsFirst(mem: Memory, attrs: Attributes, at: Places, t: Tuple, a: nat) {
    && |at.values| == |at.flags| == |attrs| == |t|
    && forall b :: 0 <= b < a && b < |t| ==> HoldsField(mem, attrs[b], at.values[b], at.flags[b], t[b])
  }

  /** A write to slot `a`, or to the NULL bit of `a`, keeps the fields stored before. */
  lemma KeepsFirst(mem: Memory, next: Memory, attrs: Attributes, at: Places, k: nat, t: Tuple, a: nat)
    requires Separate(attrs, at) && a < |attrs| && (k == a || k == |attrs| + a) && Typed(attrs, t)
    requires HoldsFirst(mem, attrs, at, t, a)
    requires SameOutside(mem, next, Slot(attrs, at, k).0, Slot(attrs, at, k).1)
    ensures HoldsFirst(next, attrs, at, t, a)
  {
    var n := |attrs|;
    hide HoldsField, Apart, SameOutside;
    forall b | 0 <= b < a ensures HoldsField(next, attrs[b], at.values[b], at.flags[b], t[b]) {
      assert Apart(Slot(attrs, at, k), Slot(attrs, at, b)) && Apart(Slot(attrs, at, k), Slot(attrs, at, n + b));
      KeepsField(mem, next, Slot(attrs, at, k), attrs[b], at.values[b], at.flags[b], t[b]);
    }
  }

  // --------------------------------------------------------------------------- a single tuple

  /** What a pass over the leaves knows about the cells: each leaf has its pointer, and the bitmap is
      there if a NULL bit has to be accessed. */
  ghost predicate Cells(attrs: Attributes, cells: seq<Cell>, bitmaps: seq<Cell>, at: Places) {
    && Designate(Attribute, cells, at.values) && Fitting(attrs, at)
    && forall a :: 0 <= a < |attrs| && attrs[a].nullable ==>
         bitmaps != [] && at.flags[a] >= attrs[a].index && Starts(bitmaps[0], at.flags[a] - attrs[a].index)
  }

  /** Everything that other rows hold is still held. */
  ghost predicate KeepsOthers(mem: Memory, next: Memory, attrs: Attributes, at: Places) {
    forall other, u :: Elsewhere(attrs, at, other) && Typed(attrs, u) && Holds(mem, attrs, other, u) ==>
        Holds(next, attrs, other, u)
  }

  lemma KeepsOthersStep(mem: Memory, before: Memory, next: Memory, attrs: Attributes, at: Places, k: nat)
    requires KeepsOthers(mem, before, attrs, at) && Fitting(attrs, at) && k < 2 * |attrs|
    requires SameOutside(before, next, Slot(attrs, at, k).0, Slot(attrs, at, k).1)
    ensures KeepsOthers(mem, next, attrs, at)
  {
    hide SameOutside, Holds, Elsewhere, Typed;
    forall other, u | Elsewhere(attrs, at, other) && Typed(attrs, u) && Holds(mem, attrs, other, u)
      ensures Holds(next, attrs, other, u)
    {
      KeepsRow(before, next, attrs, at, k, other, u);
    }
  }

  /** Stores a field: first its NULL bit, then its value unless it is NULL. */
  method WriteField(mem: Memory, attrs: Attributes, cells: seq<Cell>, bitmaps: seq<Cell>, t: Tuple, a: nat,
                    ghost at: Places, ghost start: Memory) returns (next: Memory)
    requires Cells(attrs, cells, bitmaps, at) && Typed(attrs, t) && Separate(attrs, at) && a < |attrs|
    requires HoldsFirst(mem, attrs, at, t, a) && KeepsOthers(start, mem, attrs, at)
    ensures HoldsFirst(next, attrs, at, t, a + 1) && KeepsOthers(start, next, attrs, at)
  {
    next := mem;
    ghost var n := |attrs|;
    assert Designates(Attribute, cells[a], at.values[a]);
    if attrs[a].nullable {
      var q := NullBitOf(bitmaps[0], attrs[a].index, at.flags[a] - attrs[a].index);
      next := WriteBits(mem, q, [t[a].Null?]);
      hide HoldsBits, SameOutside, KeepsOthers, HoldsFirst, Separate, Points, Starts;
      KeepsFirst(mem, next, attrs, at, n + a, t, a);
      KeepsOthersStep(start, mem, next, attrs, at, n + a);
    }
    var middle := next;
    assert attrs[a].nullable ==> HoldsBits(middle, at.flags[a], [t[a].Null?]);
    if t[a].Value? {
      var p := BitOf(cells[a], at.values[a]);
      next := WriteBits(middle, p, t[a].bits);
      hide HoldsBits, SameOutside, KeepsOthers, HoldsFirst, Points, Starts;
      KeepsFirst(middle, next, attrs, at, a, t, a);
      KeepsOthersStep(start, middle, next, attrs, at, a);
      if attrs[a].nullable {
        assert Apart(Slot(attrs, at, a), Slot(attrs, at, n + a));
        KeepsBits(middle, next, p, |t[a].bits|, at.flags[a], [t[a].Null?]);
      }
    }
    OneMoreField(next, attrs, at, t, a);
  }

  lemma OneMoreField(mem: Memory, attrs: Attributes, at: Places, t: Tuple, a: nat)
    requires HoldsFirst(mem, attrs, at, t, a) && a < |t|
    requires HoldsField(mem, attrs[a], at.values[a], at.flags[a], t[a])
    ensures HoldsFirst(mem, attrs, at, t, a + 1)
  {
    hide HoldsField;
  }

  /** Stores a tuple at the leaves, and leaves tuples elsewhere alone. */
  method WriteTuple(mem: Memory, attrs: Attributes, cells: seq<Cell>, bitmaps: seq<Cell>, t: Tuple, ghost at: Places)
    returns (next: Memory)
    requires Cells(attrs, cells, bitmaps, at) && Typed(attrs, t) && Separate(attrs, at)
    ensures Holds(next, attrs, at, t) && KeepsOthers(mem, next, attrs, at)
  {
    next := mem;
    var a := 0;
    hide Cells, Typed, Separate, HoldsField;
    assert |t| == |attrs| by {
      TupleSize(attrs, t);
    }
    StartWriting(mem, attrs, at, t);
    while a < |attrs|
      invariant 0 <= a <= |attrs| && HoldsFirst(next, attrs, at, t, a) && KeepsOthers(mem, next, attrs, at)
    {
      hide HoldsFirst, KeepsOthers;
      next := WriteField(next, attrs, cells, bitmaps, t, a, at, mem);
      a := a + 1;
    }
  }

  lemma TupleSize(attrs: Attributes, t: Tuple)
    requires Typed(attrs, t)
    ensures |t| == |attrs|
  {}

  lemma StartWriting(mem: Memory, attrs: Attributes, at: Places, t: Tuple)
    requires Separate(attrs, at) && |t| == |attrs|
    ensures HoldsFirst(mem, attrs, at, t, 0) && KeepsOthers(mem, mem, attrs, at)
  {}

  method ReadTuple(mem: Memory, attrs: Attributes, cells: seq<Cell>, bitmaps: seq<Cell>, ghost at: Places,
                   ghost t: Tuple)
    returns (u: Tuple)
    requires Cells(attrs, cells, bitmaps, at) && Typed(attrs, t) && Holds(mem, attrs, at, t)
    ensures u == t
  {
    u := [];
    var a := 0;
    while a < |attrs|
      invariant 0 <= a <= |attrs| && u == t[..a]
    {
      assert HoldsField(mem, attrs[a], at.values[a], at.flags[a], t[a]);
      assert Designates(Attribute, cells[a], at.values[a]);
      var isNull := false;
      if attrs[a].nullable {
        var q := NullBitOf(bitmaps[0], attrs[a].index, at.flags[a] - attrs[a].index);
        isNull := mem[q];
      }
      assert isNull == t[a].Null?;
      if isNull {
        u := u + [Null];
      } else {
        var p := BitOf(cells[a], at.values[a]);
        var v := ReadBits(mem, p, attrs[a].width, t[a].bits);
        u := u + [Value(v)];
      }
      a := a + 1;
    }
  }

  // ------------------------------------------------------------------------- a whole table

  /** The rows from 0 on hold the tuples. */
  ghost predicate Table(mem: Memory, c: Child, address: nat, attrs: Attributes, tuples: seq<Tuple>) {
    forall r :: 0 <= r < |tuples| ==>
        Typed(attrs, tuples[r]) && Holds(mem, attrs, RowAt(c, attrs, address, r), tuples[r])
  }

  /** The cells of a cursor are those that a pass over the leaves needs. */
  lemma CursorCells(cursor: Cursor, attrs: Attributes)
    requires cursor.Valid() && Lays(cursor.layout, attrs, cursor.address)
    ensures Cells(attrs, Leaves(cursor.layout, Attribute, cursor.cell), Leaves(cursor.layout, NullBitmap, cursor.cell),
                  RowAt(cursor.layout, attrs, cursor.address, cursor.row))
  {
    var c, address, r := cursor.layout, cursor.address, cursor.row;
    CellsPointToRow(c, Attribute, cursor.cell, cursor.n, address, r);
    CellsPointToRow(c, NullBitmap, cursor.cell, cursor.n, address, r);
    hide Positions, Leaves, At, Points, Starts;
    var bitmaps, starts := Leaves(c, NullBitmap, cursor.cell), Positions(c, NullBitmap, address, r);
    forall a | 0 <= a < |attrs| && attrs[a].nullable
      ensures bitmaps != [] && Starts(bitmaps[0], RowAt(c, attrs, address, r).flags[a] - attrs[a].index)
    {
      assert attrs[a] in attrs;
      assert Designates(NullBitmap, bitmaps[0], starts[0]);
    }
  }

  /** Appends tuples to a table with code compiled for its first free row. */
  method Append(mem: Memory, c: Child, address: nat, attrs: Attributes, ghost stored: seq<Tuple>, firstRow: nat,
                tuples: seq<Tuple>)
    returns (next: Memory)
    requires WellFormed(c, 0) && Supported(c, 0) && NonOverlapping(c, attrs, address)
    requires |stored| == firstRow && Table(mem, c, address, attrs, stored)
    requires forall k :: 0 <= k < |tuples| ==> Typed(attrs, tuples[k])
    ensures Table(next, c, address, attrs, stored + tuples)
  {
    hide NonOverlapping, WellFormed, Supported, Positions, Typed, Table, Cursor.Valid;
    next := mem;
    var cursor := new Cursor(c, 0, address, firstRow);
    var k := 0;
    assert stored + tuples[..0] == stored;
    while k < |tuples|
      invariant 0 <= k <= |tuples| && cursor.Valid() && cursor.row == firstRow + k
      invariant cursor.layout == c && cursor.n == 0 && cursor.address == address && fresh(cursor)
      invariant Table(next, c, address, attrs, stored + tuples[..k])
    {
      var before := next;
      next := WriteRow(before, cursor, tuples[k], attrs, stored + tuples[..k]);
      assert stored + tuples[..k] + [tuples[k]] == stored + tuples[..k + 1];
      cursor.Run();
      k := k + 1;
    }
    assert stored + tuples[..k] == stored + tuples;
  }

  method WriteRow(mem: Memory, cursor: Cursor, t: Tuple, attrs: Attributes, ghost tuples: seq<Tuple>)
    returns (next: Memory)
    requires cursor.Valid() && cursor.row == |tuples| && Typed(attrs, t)
    requires NonOverlapping(cursor.layout, attrs, cursor.address)
    requires Table(mem, cursor.layout, cursor.address, attrs, tuples)
    ensures Table(next, cursor.layout, cursor.address, attrs, tuples + [t])
  {
    ghost var c, address, r := cursor.layout, cursor.address, |tuples|;
    CursorCells(cursor, attrs);
    hide Cells, Separate, Positions, At, WellFormed, Supported, Elsewhere, Typed, Holds, Lays, RowAt, Cursor.Valid;
    next := WriteTuple(mem, attrs, Leaves(cursor.layout, Attribute, cursor.cell),
                       Leaves(cursor.layout, NullBitmap, cursor.cell), t, RowAt(c, attrs, address, r));
  }

  /** A scan from the first row on yields exactly the tuples that were stored, in order. */
  method Scan(mem: Memory, c: Child, address: nat, attrs: Attributes, numRows: nat, ghost tuples: seq<Tuple>)
    returns (result: seq<Tuple>)
    requires WellFormed(c, 0) && Supported(c, 0) && Lays(c, attrs, address)
    requires |tuples| == numRows && Table(mem, c, address, attrs, tuples)
    ensures result == tuples
  {
    result := [];
    hide WellFormed, Supported, Positions, Typed, Holds, Lays, RowAt, Cursor.Valid;
    var cursor := new Cursor(c, 0, address, 0);
    var r := 0;
    while r < numRows
      invariant 0 <= r <= numRows && cursor.Valid() && cursor.row == r && result == tuples[..r]
      invariant cursor.layout == c && cursor.n == 0 && cursor.address == address && fresh(cursor)
    {
      CursorCells(cursor, attrs);
      var t := ReadTuple(mem, attrs, Leaves(cursor.layout, Attribute, cursor.cell),
                         Leaves(cursor.layout, NullBitmap, cursor.cell), RowAt(c, attrs, address, r), tuples[r]);
      result := result + [t];
      cursor.Run();
      r := r + 1;
    }
  }
}
