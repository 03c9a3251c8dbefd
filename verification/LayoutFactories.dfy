/** The factories that make row and PAX layouts, when their assertions hold, and that the layouts
    they make can be accessed incrementally. */
module LayoutFactories {
  import opened SmallBitset
  import opened DataLayouts
  import opened LayoutAccess
  import opened Orders

  /** Size and alignment are in bits. */
  datatype Type = Type(size: nat, alignment: nat, boolean: bool)

  type Types = seq<Type>

  /** Booleans are single bits, decimals of one digit are half a byte, and all other types are whole
      bytes. */
  predicate Storable(t: Type) {
    if t.boolean then t.size == 1 && t.alignment == 1
    else HalfByte(t) || (t.size > 0 && t.size % 8 == 0 && t.alignment > 0 && t.alignment % 8 == 0)
  }

  predicate HalfByte(t: Type) {
    !t.boolean && t.size == 4 && t.alignment == 4
  }

  /** No attribute takes half a byte. */
  ghost predicate WholeBytesOnly(types: Types) {
    forall a :: 0 <= a < |types| ==> !HalfByte(types[a])
  }

  ghost predicate AtMostOneHalfByte(types: Types) {
    forall a, b :: 0 <= a < |types| && 0 <= b < |types| && HalfByte(types[a]) && HalfByte(types[b]) ==> a == b
  }

  predicate AllStorable(types: Types) {
    types != [] && forall a :: 0 <= a < |types| ==> Storable(types[a])
  }

  function SizeAt(types: Types): nat -> nat {
    (a: nat) => if a < |types| then types[a].size else 0
  }

  function BitsAt(types: Types): nat -> nat {
    (a: nat) => if a < |types| && types[a].size % 8 != 0 then 1 else 0
  }

  /** The bits of all attributes, and the number of those that are not whole bytes. */
  function TotalSize(types: Types): nat {
    Sum(SizeAt(types), Iota(|types|))
  }

  function NumBits(types: Types): nat {
    Sum(BitsAt(types), Iota(|types|))
  }

  // ------------------------------------------------------------------- the order of attributes

  /** A permutation of the attributes. */
  ghost predicate IsOrder(order: seq<nat>, n: nat) {
    && |order| == n && multiset(order) == multiset(Iota(n))
    && (forall a: nat :: a in order <==> a < n)
    && forall j, k :: 0 <= j < k < |order| ==> order[j] != order[k]
  }

  /** By descending alignment, and attributes of the same alignment by their number. */
  ghost predicate Descending(types: Types, order: seq<nat>) {
    && (forall k :: 0 <= k < |order| ==> order[k] < |types|)
    && forall j, k :: 0 <= j < k < |order| ==> Before(types, order[j], order[k])
  }

  ghost predicate Before(types: Types, a: nat, b: nat)
    requires a < |types| && b < |types|
  {
    types[a].alignment > types[b].alignment || (types[a].alignment == types[b].alignment && a < b)
  }

  /** The order in which the attributes are laid out. */
  ghost predicate LaidOut(types: Types, reorder: bool, order: seq<nat>) {
    IsOrder(order, |types|) && if reorder then Descending(types, order) else order == Iota(|types|)
  }

  /** The attributes by descending alignment, unless reordering is switched off. */
  method ComputeAttributeOrder(types: Types, reorder: bool) returns (order: seq<nat>)
    ensures LaidOut(types, reorder, order)
  {
    order := [];
    var i := 0;
    while i < |types|
      invariant 0 <= i <= |types| && IsOrder(order, i)
      invariant if reorder then Descending(types, order) else order == Iota(i)
    {
      OrderBound(order, i);
      hide IsOrder, Descending;
      var k := |order|;
      if reorder {
        k := PositionFor(types, order, i);
        InsertKeepsDescending(types, order, k, i);
      }
      InsertKeepsOrder(order, k, i);
      order := Inserted(order, k, i);
      i := i + 1;
    }
  }

  /** Behind the last attribute whose alignment is not smaller. */
  method PositionFor(types: Types, order: seq<nat>, i: nat) returns (k: nat)
    requires Descending(types, order) && i < |types|
    ensures k <= |order| && forall j :: k <= j < |order| ==>
              order[j] < |types| && types[order[j]].alignment < types[i].alignment
    ensures k > 0 ==> order[k - 1] < |types| && types[order[k - 1]].alignment >= types[i].alignment
  {
    k := |order|;
    while k > 0 && types[order[k - 1]].alignment < types[i].alignment
      invariant 0 <= k <= |order|
      invariant forall j :: k <= j < |order| ==> types[order[j]].alignment < types[i].alignment
    {
      k := k - 1;
    }
  }

  lemma InsertKeepsOrder(order: seq<nat>, k: nat, i: nat)
    requires IsOrder(order, i) && k <= |order|
    ensures IsOrder(Inserted(order, k, i), i + 1)
    ensures k == |order| && order == Iota(i) ==> Inserted(order, k, i) == Iota(i + 1)
  {
    var longer := Inserted(order, k, i);
    InsertedBag(order, k, i);
    IotaStep(i);
    assert order == order[..k] + order[k..];
    assert forall a: nat :: a in longer <==> a in order || a == i;
    InsertKeepsDistinct(order, k, i);
  }

  lemma InsertKeepsDistinct(order: seq<nat>, k: nat, i: nat)
    requires k <= |order| && i !in order && forall j, l :: 0 <= j < l < |order| ==> order[j] != order[l]
    ensures forall j, l :: 0 <= j < l < |Inserted(order, k, i)| ==> Inserted(order, k, i)[j] != Inserted(order, k, i)[l]
  {
    hide Inserted;
    var longer := Inserted(order, k, i);
    InsertedAt(order, k, i, 0);
    forall j, l | 0 <= j < l < |longer| ensures longer[j] != longer[l] {
      InsertedAt(order, k, i, j);
      InsertedAt(order, k, i, l);
    }
  }

  lemma OrderBound(order: seq<nat>, n: nat)
    requires IsOrder(order, n)
    ensures forall k :: 0 <= k < |order| ==> order[k] < n
  {
    forall k | 0 <= k < |order| ensures order[k] < n {
      assert order[k] in order;
    }
  }

  lemma InsertKeepsDescending(types: Types, order: seq<nat>, k: nat, i: nat)
    requires Descending(types, order) && k <= |order| && i < |types| && forall j :: 0 <= j < |order| ==> order[j] < i
    requires forall j :: k <= j < |order| ==> order[j] < |types| && types[order[j]].alignment < types[i].alignment
    requires k > 0 ==> order[k - 1] < |types| && types[order[k - 1]].alignment >= types[i].alignment
    ensures Descending(types, Inserted(order, k, i))
  {
    var longer := Inserted(order, k, i);
    forall j | 0 <= j < |longer| ensures longer[j] < |types| {
      InsertedAt(order, k, i, j);
    }
    forall j, l | 0 <= j < l < |longer| ensures Before(types, longer[j], longer[l]) {
      InsertedAt(order, k, i, j);
      InsertedAt(order, k, i, l);
    }
  }

  // -------------------------------------------------------------------------- packed columns

  /** An inner node of leaves for all attributes, and behind them one for the NULL bitmap if it has
      any bits. */
  ghost predicate Shaped(c: Child, types: Types, bits: nat) {
    && c.node.INode? && c.node.numTuples != 0 && c.offset == 0 && c.stride % 8 == 0
    && |c.node.children| == |types| + (if bits > 0 then 1 else 0)
    && (forall a :: 0 <= a < |types| ==> c.node.children[a].node == Leaf(Attribute))
    && (bits > 0 ==> c.node.children[|types|].node == Leaf(NullBitmap))
  }

  /** Where the columns of a node end. */
  function ColumnEnd(c: Child, types: Types, a: nat): nat
    requires c.node.INode? && a < |types| && a < |c.node.children|
  {
    c.node.children[a].offset + c.node.numTuples * types[a].size
  }

  ghost predicate Strides(c: Child, types: Types, bits: nat)
    requires Shaped(c, types, bits)
  {
    c.node.numTuples == 1 ||
    ((forall a :: 0 <= a < |types| ==> c.node.children[a].stride == types[a].size)
     && (bits > 0 ==> c.node.children[|types|].stride == bits))
  }

  /** The columns of the attributes do not overlap, the bitmap is behind them, and all fit. */
  ghost predicate Packs(c: Child, types: Types, bits: nat) {
    && Shaped(c, types, bits) && Strides(c, types, bits)
    && (forall a, b :: 0 <= a < |types| && 0 <= b < |types| && a != b ==>
          ColumnEnd(c, types, a) <= c.node.children[b].offset || ColumnEnd(c, types, b) <= c.node.children[a].offset)
    && (bits == 0 ==> forall a :: 0 <= a < |types| ==> ColumnEnd(c, types, a) <= c.stride)
    && (bits > 0 ==>
          && |types| <= bits
          && (forall a :: 0 <= a < |types| ==> ColumnEnd(c, types, a) <= c.node.children[|types|].offset)
          && c.node.children[|types|].offset + c.node.numTuples * bits <= c.stride)
  }

  /** The attributes as the compiled code sees them; NULL bits need a bitmap. */
  ghost predicate Describes(attrs: Attributes, types: Types, bits: nat) {
    && |attrs| == |types|
    && forall a :: 0 <= a < |types| ==>
         attrs[a].index == a && attrs[a].width == types[a].size && (attrs[a].nullable ==> bits > 0)
  }

  /** Start and length of slot `k` in tuple `i` of an instance of the node. */
  ghost function Local(c: Child, types: Types, bits: nat, attrs: Attributes, k: nat, i: nat): (nat, nat)
    requires Shaped(c, types, bits) && Describes(attrs, types, bits) && k < 2 * |types|
  {
    var n := |types|;
    if k < n then (c.node.children[k].offset + i * c.node.children[k].stride, types[k].size)
    else if attrs[k - n].nullable then (c.node.children[n].offset + i * c.node.children[n].stride + (k - n), 1)
    else (0, 0)
  }

  lemma Repeated(m: nat, i: nat, w: nat)
    requires i < m
    ensures i * w + w <= m * w
  {
    assert (i + 1) * w <= m * w;
  }

  /** A slot lies in the column of its attribute, or in that of the bitmap. */
  lemma LocalInColumn(c: Child, types: Types, bits: nat, attrs: Attributes, k: nat, i: nat)
    requires Packs(c, types, bits) && Describes(attrs, types, bits) && k < 2 * |types| && i < c.node.numTuples
    ensures var (p, w) := Local(c, types, bits, attrs, k, i);
            var n := |types|;
            && (k < n ==> c.node.children[k].offset <= p && p + w <= ColumnEnd(c, types, k))
            && (k >= n && w > 0 ==>
                 c.node.children[n].offset <= p && p + w <= c.node.children[n].offset + c.node.numTuples * bits)
            && (w > 0 ==> p + w <= c.stride)
  {
    var m, n := c.node.numTuples, |types|;
    if k < n {
      var s := c.node.children[k].stride;
      Repeated(m, i, types[k].size);
      assert i * s + types[k].size <= m * types[k].size;
    } else if attrs[k - n].nullable {
      Repeated(m, i, bits);
      assert m == 1 || c.node.children[n].stride == bits;
      assert i * c.node.children[n].stride + bits <= m * bits;
    }
  }

  /** Different slots of an instance do not overlap. */
  lemma LocalApart(c: Child, types: Types, bits: nat, attrs: Attributes, k: nat, i: nat, l: nat, j: nat)
    requires Packs(c, types, bits) && Describes(attrs, types, bits) && k < 2 * |types| && l < 2 * |types|
    requires i < c.node.numTuples && j < c.node.numTuples && (k != l || i != j)
    ensures Apart(Local(c, types, bits, attrs, k, i), Local(c, types, bits, attrs, l, j))
  {
    var n := |types|;
    LocalInColumn(c, types, bits, attrs, k, i);
    LocalInColumn(c, types, bits, attrs, l, j);
    if k < n && l < n {
      if k == l {
        SameColumnApart(c, types, bits, attrs, k, i, j);
      }
    } else if k >= n && l >= n && attrs[k - n].nullable && attrs[l - n].nullable {
      if i != j {
        var s := c.node.children[n].stride;
        assert s == bits;
        if i < j {
          Repeated(j, i, bits);
        } else {
          Repeated(i, j, bits);
        }
      }
    }
  }

  lemma SameColumnApart(c: Child, types: Types, bits: nat, attrs: Attributes, k: nat, i: nat, j: nat)
    requires Packs(c, types, bits) && Describes(attrs, types, bits) && k < |types|
    requires i < c.node.numTuples && j < c.node.numTuples && i != j
    ensures Apart(Local(c, types, bits, attrs, k, i), Local(c, types, bits, attrs, k, j))
  {
    assert c.node.children[k].stride == types[k].size;
    if i < j {
      Repeated(j, i, types[k].size);
    } else {
      Repeated(i, j, types[k].size);
    }
  }

  /** The positions of the leaves of such a node. */
  lemma {:induction false} ColumnPositions(children: seq<Child>, n: nat, base: nat, row: nat)
    requires n <= |children|
    requires forall a :: 0 <= a < n ==> children[a].node == Leaf(Attribute)
    requires forall a :: n <= a < |children| ==> children[a].node == Leaf(NullBitmap)
    ensures var ps := AllPositions(children, Attribute, base, row);
            |ps| == n && forall a :: 0 <= a < n ==> ps[a] == Position(children[a], base, row)
    ensures var qs := AllPositions(children, NullBitmap, base, row);
            |qs| == |children| - n && forall a :: 0 <= a < |qs| ==> qs[a] == Position(children[n + a], base, row)
    decreases |children|
  {
    hide Position;
    if children != [] {
      var k := if n > 0 then n - 1 else 0;
      ColumnPositions(children[1..], k, base, row);
      FirstPosition(children, Attribute, base, row);
      FirstPosition(children, NullBitmap, base, row);
      hide AllPositions;
      var rest := AllPositions(children[1..], NullBitmap, base, row);
      forall a | 0 <= a < |children| - n
        ensures AllPositions(children, NullBitmap, base, row)[a] == Position(children[n + a], base, row)
      {
        if n > 0 {
          assert rest[a] == Position(children[1..][k + a], base, row);
        } else if a > 0 {
          assert rest[a - 1] == Position(children[1..][a - 1], base, row);
        }
      }
    }
  }

  lemma FirstPosition(children: seq<Child>, kind: Kind, base: nat, row: nat)
    requires children != [] && children[0].node.Leaf?
    ensures AllPositions(children, kind, base, row)
         == (if children[0].node.kind == kind then [Position(children[0], base, row)] else [])
           + AllPositions(children[1..], kind, base, row)
  {}

  ghost function InstanceStart(address: nat, q: nat, stride: nat): nat {
    8 * address + q * stride
  }

  ghost function BlockStart(c: Child, address: nat, r: nat): nat
    requires c.node.INode? && c.node.numTuples != 0
  {
    InstanceStart(address, r / c.node.numTuples, c.stride)
  }

  lemma RowsOfNode(c: Child, types: Types, bits: nat, attrs: Attributes, address: nat, r: nat)
    requires Shaped(c, types, bits) && Describes(attrs, types, bits)
    ensures var at, n, i := RowAt(c, attrs, address, r), |types|, r % c.node.numTuples;
            && |at.values| == |at.flags| == n && |Positions(c, Attribute, address, r)| == n
            && |Positions(c, NullBitmap, address, r)| == (if bits > 0 then 1 else 0)
            && forall k :: 0 <= k < 2 * n ==>
                 var (p, w) := Local(c, types, bits, attrs, k, i);
                 Slot(attrs, at, k).1 == w && (w > 0 ==> Slot(attrs, at, k).0 == BlockStart(c, address, r) + p)
  {
    var m, i := c.node.numTuples, r % c.node.numTuples;
    var inner := InnerBase(c, address, r);
    ColumnPositions(c.node.children, |types|, inner, i);
    assert 8 * inner == BlockStart(c, address, r) by {
      assert c.stride == 8 * (c.stride / 8);
      assert (r / m) * c.stride == 8 * ((r / m) * (c.stride / 8));
    }
  }

  /** Slots of different instances are apart because each fits into its instance. */
  lemma BlocksApart(address: nat, q: nat, p: nat, stride: nat, s: (nat, nat), t: (nat, nat))
    requires (s.1 > 0 ==> s.0 + s.1 <= stride) && (t.1 > 0 ==> t.0 + t.1 <= stride)
    requires q == p ==> Apart(s, t)
    ensures Apart((InstanceStart(address, q, stride) + s.0, s.1), (InstanceStart(address, p, stride) + t.0, t.1))
  {
    if q < p {
      Repeated(p, q, stride);
    } else if p < q {
      Repeated(q, p, stride);
    }
  }

  lemma SameRow(m: nat, r: nat, s: nat)
    requires m != 0 && r / m == s / m && r % m == s % m
    ensures r == s
  {
    assert r == (r / m) * m + r % m && s == (s / m) * m + s % m;
  }

  lemma RowWithin(m: nat, r: nat, s: nat)
    requires m != 0
    ensures r % m < m && s % m < m && (r / m == s / m && r % m == s % m ==> r == s)
  {
    if r / m == s / m && r % m == s % m {
      SameRow(m, r, s);
    }
  }

  /** Places of no length are the same. */
  ghost predicate SamePlace(s: (nat, nat), t: (nat, nat)) {
    s.1 == t.1 && (s.1 > 0 ==> s.0 == t.0)
  }

  lemma SamePlacesApart(s: (nat, nat), s': (nat, nat), t: (nat, nat), t': (nat, nat))
    requires SamePlace(s, s') && SamePlace(t, t') && Apart(s', t')
    ensures Apart(s, t)
  {}

  ghost function SlotStart(c: Child, types: Types, bits: nat, attrs: Attributes, address: nat, k: nat, q: nat,
                           i: nat): (nat, nat)
    requires Shaped(c, types, bits) && Describes(attrs, types, bits) && k < 2 * |types|
  {
    var x := Local(c, types, bits, attrs, k, i);
    (InstanceStart(address, q, c.stride) + x.0, x.1)
  }

  /** Slots at the same or at different instances. */
  lemma PlacesApart(c: Child, types: Types, bits: nat, attrs: Attributes, address: nat, k: nat, q: nat, i: nat, l: nat,
                    p: nat, j: nat)
    requires Packs(c, types, bits) && Describes(attrs, types, bits) && k < 2 * |types| && l < 2 * |types|
    requires i < c.node.numTuples && j < c.node.numTuples && (k != l || q != p || i != j)
    ensures Apart(SlotStart(c, types, bits, attrs, address, k, q, i),
                  SlotStart(c, types, bits, attrs, address, l, p, j))
  {
    assert Shaped(c, types, bits);
    hide Packs, Describes, Apart, Local, InstanceStart, Shaped;
    LocalInColumn(c, types, bits, attrs, k, i);
    LocalInColumn(c, types, bits, attrs, l, j);
    if k != l || i != j {
      LocalApart(c, types, bits, attrs, k, i, l, j);
    }
    BlocksApart(address, q, p, c.stride, Local(c, types, bits, attrs, k, i), Local(c, types, bits, attrs, l, j));
  }

  lemma SlotOfRow(c: Child, types: Types, bits: nat, attrs: Attributes, address: nat, r: nat, k: nat)
    returns (q: nat, i: nat)
    requires Shaped(c, types, bits) && Describes(attrs, types, bits) && k < 2 * |types|
    requires |RowAt(c, attrs, address, r).values| == |RowAt(c, attrs, address, r).flags| == |types|
    ensures i < c.node.numTuples && q == r / c.node.numTuples && i == r % c.node.numTuples
    ensures SamePlace(Slot(attrs, RowAt(c, attrs, address, r), k), SlotStart(c, types, bits, attrs, address, k, q, i))
  {
    RowsOfNode(c, types, bits, attrs, address, r);
    q, i := r / c.node.numTuples, r % c.node.numTuples;
  }

  lemma SlotsApart(c: Child, types: Types, bits: nat, attrs: Attributes, address: nat, r: nat, k: nat, s: nat, l: nat)
    requires Packs(c, types, bits) && Describes(attrs, types, bits)
    requires k < 2 * |types| && l < 2 * |types| && (r != s || k != l)
    requires |RowAt(c, attrs, address, r).values| == |RowAt(c, attrs, address, r).flags| == |types|
    requires |RowAt(c, attrs, address, s).values| == |RowAt(c, attrs, address, s).flags| == |types|
    ensures Apart(Slot(attrs, RowAt(c, attrs, address, r), k), Slot(attrs, RowAt(c, attrs, address, s), l))
  {
    assert Shaped(c, types, bits) && |attrs| == |types|;
    RowWithin(c.node.numTuples, r, s);
    hide *;
    var q, i := SlotOfRow(c, types, bits, attrs, address, r, k);
    var p, j := SlotOfRow(c, types, bits, attrs, address, s, l);
    PlacesApart(c, types, bits, attrs, address, k, q, i, l, p, j);
    SamePlacesApart(Slot(attrs, RowAt(c, attrs, address, r), k), SlotStart(c, types, bits, attrs, address, k, q, i),
                    Slot(attrs, RowAt(c, attrs, address, s), l), SlotStart(c, types, bits, attrs, address, l, p, j));
  }

  /** In a packed layout no two values and no two NULL bits overlap, in whatever rows they are. */
  lemma PackedIsNonOverlapping(c: Child, types: Types, bits: nat, attrs: Attributes, address: nat)
    requires Packs(c, types, bits) && Describes(attrs, types, bits)
    ensures NonOverlapping(c, attrs, address)
  {
    forall r: nat
      ensures |RowAt(c, attrs, address, r).values| == |RowAt(c, attrs, address, r).flags| == |types|
      ensures |Positions(c, Attribute, address, r)| == |types|
      ensures |Positions(c, NullBitmap, address, r)| == (if bits > 0 then 1 else 0)
    {
      RowsOfNode(c, types, bits, attrs, address, r);
    }
    assert Lays(c, attrs, address) by {
      hide Positions, Packs, RowAt;
    }
    hide Positions, Packs, RowAt, Slot;
    forall r: nat ensures Separate(attrs, RowAt(c, attrs, address, r)) {
      RowIsSeparate(c, types, bits, attrs, address, r);
    }
    forall r: nat, s: nat | r != s ensures Elsewhere(attrs, RowAt(c, attrs, address, r), RowAt(c, attrs, address, s)) {
      RowsAreElsewhere(c, types, bits, attrs, address, r, s);
    }
  }

  lemma RowIsSeparate(c: Child, types: Types, bits: nat, attrs: Attributes, address: nat, r: nat)
    requires Packs(c, types, bits) && Describes(attrs, types, bits)
    requires |RowAt(c, attrs, address, r).values| == |RowAt(c, attrs, address, r).flags| == |types|
    ensures Separate(attrs, RowAt(c, attrs, address, r))
  {
    hide Packs, RowAt, Slot, Apart, Shaped;
    forall k, l | 0 <= k < 2 * |types| && 0 <= l < 2 * |types| && k != l
      ensures Apart(Slot(attrs, RowAt(c, attrs, address, r), k), Slot(attrs, RowAt(c, attrs, address, r), l))
    {
      SlotsApart(c, types, bits, attrs, address, r, k, r, l);
    }
  }

  lemma RowsAreElsewhere(c: Child, types: Types, bits: nat, attrs: Attributes, address: nat, r: nat, s: nat)
    requires Packs(c, types, bits) && Describes(attrs, types, bits) && r != s
    requires |RowAt(c, attrs, address, r).values| == |RowAt(c, attrs, address, r).flags| == |types|
    requires |RowAt(c, attrs, address, s).values| == |RowAt(c, attrs, address, s).flags| == |types|
    ensures Elsewhere(attrs, RowAt(c, attrs, address, r), RowAt(c, attrs, address, s))
  {
    hide Packs, RowAt, Slot, Apart, Shaped;
    forall k, l | 0 <= k < 2 * |types| && 0 <= l < 2 * |types|
      ensures Apart(Slot(attrs, RowAt(c, attrs, address, r), k), Slot(attrs, RowAt(c, attrs, address, s), l))
    {
      SlotsApart(c, types, bits, attrs, address, r, k, s, l);
    }
  }

  // ---------------------------------------------------------------------------- assertions

  /** What adding a leaf to a node for `m` tuples asserts; booleans and bitmaps need not be whole bytes. */
  predicate AddsLeaf(m: nat, whole: bool, offset: nat, stride: nat) {
    (m == 1 ==> stride == 0) && (whole ==> stride % 8 == 0 && offset % 8 == 0)
  }

  /** What making the layout for `n` tuples asserts. */
  ghost predicate Asserted(c: Child, n: nat, types: Types, bits: nat)
    requires Shaped(c, types, bits)
  {
    var m := c.node.numTuples;
    && (n == 1 ==> c.stride == 0)
    && (forall a :: 0 <= a < |types| ==>
         AddsLeaf(m, !types[a].boolean, c.node.children[a].offset, c.node.children[a].stride))
    && (bits > 0 ==> AddsLeaf(m, false, c.node.children[|types|].offset, c.node.children[|types|].stride))
  }

  // ------------------------------------------------------------- columns one after the other

  /** The attributes start one after the other, each taking `f` bits. */
  ghost predicate Consecutive(f: nat -> nat, order: seq<nat>, offsets: seq<nat>, n: nat) {
    && n <= |order|
    && forall k :: 0 <= k < n ==> order[k] < |offsets| && offsets[order[k]] == Sum(f, order[..k])
  }

  lemma ConsecutiveStep(f: nat -> nat, order: seq<nat>, offsets: seq<nat>, k: nat, o: nat)
    requires Consecutive(f, order, offsets, k) && k < |order| && order[k] < |offsets| && o == Sum(f, order[..k])
    requires forall i, j :: 0 <= i < j < |order| ==> order[i] != order[j]
    ensures Consecutive(f, order, offsets[order[k] := o], k + 1)
    ensures Sum(f, order[..k + 1]) == Sum(f, order[..k]) + f(order[k])
  {
    assert order[..k + 1] == order[..k] + [order[k]];
    SumStep(f, order[..k], order[k]);
  }

  lemma IndexOf(order: seq<nat>, n: nat, a: nat) returns (j: nat)
    requires IsOrder(order, n) && a < n
    ensures j < |order| && order[j] == a
  {
    assert a in order;
    j :| 0 <= j < |order| && order[j] == a;
  }

  /** Such columns do not overlap and end before the sum of all. */
  lemma ConsecutiveColumns(f: nat -> nat, order: seq<nat>, offsets: seq<nat>)
    requires IsOrder(order, |offsets|) && Consecutive(f, order, offsets, |order|)
    ensures forall a :: 0 <= a < |offsets| ==> offsets[a] + f(a) <= Sum(f, order)
    ensures forall a, b :: 0 <= a < |offsets| && 0 <= b < |offsets| && a != b ==>
              offsets[a] + f(a) <= offsets[b] || offsets[b] + f(b) <= offsets[a]
  {
    hide Consecutive, IsOrder, Sum;
    forall a | 0 <= a < |offsets| ensures offsets[a] + f(a) <= Sum(f, order) {
      var j := IndexOf(order, |offsets|, a);
      ColumnBefore(f, order, offsets, j, |order|);
      assert order[..|order|] == order;
    }
    forall a, b | 0 <= a < |offsets| && 0 <= b < |offsets| && a != b
      ensures offsets[a] + f(a) <= offsets[b] || offsets[b] + f(b) <= offsets[a]
    {
      ColumnsApart(f, order, offsets, a, b);
    }
  }

  lemma ColumnsApart(f: nat -> nat, order: seq<nat>, offsets: seq<nat>, a: nat, b: nat)
    requires IsOrder(order, |offsets|) && Consecutive(f, order, offsets, |order|)
    requires a < |offsets| && b < |offsets| && a != b
    ensures offsets[a] + f(a) <= offsets[b] || offsets[b] + f(b) <= offsets[a]
  {
    hide IsOrder, Sum;
    var j := IndexOf(order, |offsets|, a);
    var k := IndexOf(order, |offsets|, b);
    if j < k {
      ColumnBefore(f, order, offsets, j, k);
    } else {
      ColumnBefore(f, order, offsets, k, j);
    }
  }

  lemma ColumnBefore(f: nat -> nat, order: seq<nat>, offsets: seq<nat>, j: nat, k: nat)
    requires Consecutive(f, order, offsets, |order|) && j < k <= |order|
    ensures offsets[order[j]] + f(order[j]) <= Sum(f, order[..k])
  {
    assert order[..j + 1] == order[..j] + [order[j]];
    SumStep(f, order[..j], order[j]);
    SumGrows(f, order, j + 1, k);
  }

  // ---------------------------------------------------------------------------- row layouts

  /** Before every attribute but a boolean there are whole bytes. */
  ghost predicate WholeBytesBefore(types: Types) {
    forall a :: 0 <= a < |types| && !types[a].boolean ==> Sum(SizeAt(types), Iota(a)) % 8 == 0
  }

  /** The attributes that must start at a byte do so. */
  ghost predicate StartsWhole(types: Types, reorder: bool) {
    if reorder then AtMostOneHalfByte(types) else WholeBytesBefore(types)
  }

  /** The largest of the alignments and a byte. */
  ghost predicate LargestAlignment(types: Types, alignment: nat) {
    && alignment >= 8 && (forall a :: 0 <= a < |types| ==> types[a].alignment <= alignment)
    && (alignment == 8 || exists a :: 0 <= a < |types| && types[a].alignment == alignment)
  }

  /** Offsets of the attributes in a row, its size so far, and the largest alignment. */
  method RowOffsets(types: Types, order: seq<nat>) returns (offsets: seq<nat>, size: nat, alignment: nat)
    requires AllStorable(types) && IsOrder(order, |types|)
    ensures |offsets| == |types| && Consecutive(SizeAt(types), order, offsets, |order|)
            && size == Sum(SizeAt(types), order)
    ensures LargestAlignment(types, alignment) && alignment % 8 == 0
  {
    hide *;
    offsets := seq(|types|, _ => 0);
    size, alignment := 0, 8;
    var idx := 0;
    OrderFacts(order, |types|);
    NothingPlaced(types, order, offsets);
    while idx < |types|
      invariant 0 <= idx <= |types| && Placed(types, order, idx, offsets, size, alignment)
    {
      var mapped := order[idx];
      PlaceNext(types, order, idx, offsets, size, alignment);
      offsets := offsets[mapped := size];
      size := size + types[mapped].size;
      if types[mapped].alignment > alignment {
        alignment := types[mapped].alignment;
      }
      idx := idx + 1;
    }
    AllPlaced(types, order, offsets, size, alignment);
  }

  /** The attributes before `idx` in the order are placed one behind the other. */
  ghost predicate Placed(types: Types, order: seq<nat>, idx: nat, offsets: seq<nat>, size: nat, alignment: nat) {
    && idx <= |order| && |offsets| == |types| && Consecutive(SizeAt(types), order, offsets, idx)
    && size == Sum(SizeAt(types), order[..idx]) && alignment % 8 == 0 && LargestOf(types, order[..idx], alignment)
  }

  lemma NothingPlaced(types: Types, order: seq<nat>, offsets: seq<nat>)
    requires |offsets| == |types|
    ensures Placed(types, order, 0, offsets, 0, 8)
  {
    assert order[..0] == [];
    NoColumns(SizeAt(types), order, offsets);
    NoneLargest(types);
    SumLast(SizeAt(types), []);
  }

  lemma PlaceNext(types: Types, order: seq<nat>, idx: nat, offsets: seq<nat>, size: nat, alignment: nat)
    requires Placed(types, order, idx, offsets, size, alignment) && idx < |types|
    requires AllStorable(types) && IsOrder(order, |types|)
    ensures |order| == |types| && order[idx] < |types| && |offsets| == |types|
    ensures var t := types[order[idx]];
            Placed(types, order, idx + 1, offsets[order[idx] := size], size + t.size,
                   if t.alignment > alignment then t.alignment else alignment)
  {
    hide *;
    PlacedMeans(types, order, idx, offsets, size, alignment);
    OrderFacts(order, |types|);
    var mapped := order[idx];
    PrefixStep(order, idx);
    ConsecutiveStep(SizeAt(types), order, offsets, idx, size);
    SizeOf(types, mapped);
    LargestOfMore(types, order[..idx], mapped, alignment);
    IsPlaced(types, order, idx + 1, offsets[mapped := size], size + types[mapped].size,
             if types[mapped].alignment > alignment then types[mapped].alignment else alignment);
  }

  lemma PlacedMeans(types: Types, order: seq<nat>, idx: nat, offsets: seq<nat>, size: nat, alignment: nat)
    requires Placed(types, order, idx, offsets, size, alignment)
    ensures idx <= |order| && |offsets| == |types| && Consecutive(SizeAt(types), order, offsets, idx)
    ensures size == Sum(SizeAt(types), order[..idx]) && alignment % 8 == 0 && LargestOf(types, order[..idx], alignment)
  {
    hide Consecutive, LargestOf, Sum;
  }

  lemma IsPlaced(types: Types, order: seq<nat>, idx: nat, offsets: seq<nat>, size: nat, alignment: nat)
    requires idx <= |order| && |offsets| == |types| && Consecutive(SizeAt(types), order, offsets, idx)
    requires size == Sum(SizeAt(types), order[..idx]) && alignment % 8 == 0 && LargestOf(types, order[..idx], alignment)
    ensures Placed(types, order, idx, offsets, size, alignment)
  {
    hide Consecutive, LargestOf, Sum;
  }

  lemma AllPlaced(types: Types, order: seq<nat>, offsets: seq<nat>, size: nat, alignment: nat)
    requires Placed(types, order, |types|, offsets, size, alignment) && IsOrder(order, |types|)
    ensures |offsets| == |types| && Consecutive(SizeAt(types), order, offsets, |order|)
    ensures size == Sum(SizeAt(types), order) && LargestAlignment(types, alignment) && alignment % 8 == 0
  {
    assert order[..|types|] == order;
    PlacedMeans(types, order, |types|, offsets, size, alignment);
    LargestOfAll(types, order, alignment);
    hide *;
  }

  lemma SizeOf(types: Types, a: nat)
    requires a < |types|
    ensures SizeAt(types)(a) == types[a].size
  {}

  lemma NoneLargest(types: Types)
    ensures LargestOf(types, [], 8)
  {}

  lemma LargestOfAll(types: Types, order: seq<nat>, alignment: nat)
    requires LargestOf(types, order, alignment) && IsOrder(order, |types|)
    ensures LargestAlignment(types, alignment)
  {
    forall a | 0 <= a < |types| ensures types[a].alignment <= alignment {
      assert a in order;
    }
  }

  /** The same for some of the attributes. */
  ghost predicate LargestOf(types: Types, s: seq<nat>, alignment: nat) {
    && alignment >= 8 && (forall a :: a in s && a < |types| ==> types[a].alignment <= alignment)
    && (alignment == 8 || exists a :: 0 <= a < |types| && types[a].alignment == alignment)
  }

  lemma LargestOfMore(types: Types, s: seq<nat>, a: nat, alignment: nat)
    requires AllStorable(types) && a < |types| && LargestOf(types, s, alignment)
    ensures LargestOf(types, s + [a], if types[a].alignment > alignment then types[a].alignment else alignment)
    ensures types[a].alignment > alignment ==> types[a].alignment % 8 == 0
  {
    assert Storable(types[a]);
  }

  /** The least multiple of `alignment` that is not less than `x`. */
  ghost predicate LeastMultiple(r: nat, alignment: nat, x: nat) {
    alignment > 0 && r % alignment == 0 && x <= r < x + alignment
  }

  function RoundUp(x: nat, alignment: nat): (r: nat)
    requires alignment > 0
    ensures LeastMultiple(r, alignment, x)
  {
    if x % alignment != 0 then RoundedUp(x, alignment); x + (alignment - x % alignment) else x
  }

  lemma RoundedUp(x: nat, a: nat)
    requires a > 0
    ensures (x + (a - x % a)) % a == 0
  {
    assert x + (a - x % a) == (x / a + 1) * a;
    MultipleOf(x / a + 1, a);
  }

  lemma {:induction false} MultipleOf(q: nat, a: nat)
    requires a > 0
    ensures (q * a) % a == 0
  {
    DivMod(q, a, 0);
  }

  lemma MultipleOfEight(x: nat, a: nat)
    requires a > 0 && a % 8 == 0 && x % a == 0
    ensures x % 8 == 0
  {
    var q, b := x / a, a / 8;
    assert x == q * a == 8 * (q * b);
  }

  /** The leaves of the attributes, and of the bitmap if there is one. */
  method AddLeaves(offsets: seq<nat>, strides: seq<nat>, bits: nat, bitmapOffset: nat, bitmapStride: nat)
    returns (children: seq<Child>)
    requires |offsets| == |strides|
    ensures |children| == |offsets| + if bits > 0 then 1 else 0
    ensures forall a :: 0 <= a < |offsets| ==> children[a] == Child(Leaf(Attribute), offsets[a], strides[a])
    ensures bits > 0 ==> children[|offsets|] == Child(Leaf(NullBitmap), bitmapOffset, bitmapStride)
  {
    children := [];
    var idx := 0;
    while idx < |offsets|
      invariant 0 <= idx <= |offsets| && |children| == idx
      invariant forall a :: 0 <= a < idx ==> children[a] == Child(Leaf(Attribute), offsets[a], strides[a])
    {
      children := children + [Child(Leaf(Attribute), offsets[idx], strides[idx])];
      idx := idx + 1;
    }
    if bits > 0 {
      children := children + [Child(Leaf(NullBitmap), bitmapOffset, bitmapStride)];
    }
  }

  /** The attributes start one after the other, each taking `f` bits, and the NULL bitmap behind. */
  ghost predicate Along(c: Child, types: Types, bits: nat, f: nat -> nat, order: seq<nat>) {
    && c.node.INode? && |c.node.children| == |types| + (if bits > 0 then 1 else 0)
    && (forall k :: 0 <= k < |order| ==>
          order[k] < |types| && c.node.children[order[k]].offset == Sum(f, order[..k]))
    && (bits > 0 ==> c.node.children[|types|].offset == Sum(f, order))
  }

  /** Alignments that divide the sizes and each other. */
  ghost predicate Nested(types: Types) {
    && (forall a :: 0 <= a < |types| ==> types[a].alignment > 0 && types[a].size % types[a].alignment == 0)
    && forall a, b :: 0 <= a < |types| && 0 <= b < |types| && 0 < types[a].alignment <= types[b].alignment ==>
         types[b].alignment % types[a].alignment == 0
  }

  /** In every row every attribute starts at a multiple of its alignment. */
  ghost predicate AllAligned(c: Child, types: Types) {
    c.node.INode? && |c.node.children| >= |types| && forall a, row: nat :: 0 <= a < |types| ==>
      types[a].alignment > 0 && (RowsOf(row, c.stride) + c.node.children[a].offset) % types[a].alignment == 0
  }

  /** A layout that stores the rows one after the other.  Its assertions hold for any number of tuples
      but one, provided that at most one attribute takes half a byte; or, in the given order, that
      there are whole bytes before all attributes but booleans.  A row is padded to the least multiple
      of the largest alignment, so that reordered attributes are aligned. */
  method MakeRow(types: Types, n: nat, reorder: bool, removeNullBitmap: bool)
    returns (c: Child, bits: nat, ghost order: seq<nat>, ghost alignment: nat)
    requires AllStorable(types)
    ensures bits == (if removeNullBitmap then 0 else |types|) && Packs(c, types, bits)
    ensures LaidOut(types, reorder, order) && Along(c, types, bits, SizeAt(types), order)
    ensures c.node.numTuples == 1 && forall i :: 0 <= i < |c.node.children| ==> c.node.children[i].stride == 0
    ensures LargestAlignment(types, alignment) && LeastMultiple(c.stride, alignment, TotalSize(types) + bits)
    ensures reorder && Nested(types) ==> AllAligned(c, types)
    ensures Asserted(c, n, types, bits) <==> n != 1 && StartsWhole(types, reorder)
    ensures c.stride < WORD ==> WellFormed(c, 0) && Supported(c, 0)
  {
    hide *;
    var attributes := ComputeAttributeOrder(types, reorder);
    OrderLaidOut(types, reorder, attributes);
    var offsets, size, largest := RowOffsets(types, attributes);
    LargestIsPositive(types, largest);
    OffsetsFit(types, reorder, attributes, offsets);
    TotalOfOrder(types, attributes);
    bits := if removeNullBitmap then 0 else |types|;
    var rowSize := RoundUp(size + bits, largest);
    LeastMultipleMeans(rowSize, largest, size + bits);
    MultipleOfEight(rowSize, largest);
    var children := AddLeaves(offsets, seq(|types|, _ => 0), bits, size, 0);
    c := Child(INode(1, children), 0, rowSize);
    RowFacts(c, n, types, bits, offsets, size);
    order, alignment := attributes, largest;
    RowAlong(c, types, bits, attributes, offsets, size);
    if reorder && Nested(types) {
      RowsAligned(c, types, bits, attributes, largest);
    }
  }

  lemma OrderLaidOut(types: Types, reorder: bool, order: seq<nat>)
    requires LaidOut(types, reorder, order)
    ensures IsOrder(order, |types|) && if reorder then Descending(types, order) else order == Iota(|types|)
  {}

  lemma LargestIsPositive(types: Types, alignment: nat)
    requires LargestAlignment(types, alignment)
    ensures alignment >= 8
  {}

  lemma LeastMultipleMeans(r: nat, alignment: nat, x: nat)
    requires LeastMultiple(r, alignment, x)
    ensures alignment > 0 && r % alignment == 0 && x <= r < x + alignment
  {}

  lemma RowAlong(c: Child, types: Types, bits: nat, order: seq<nat>, offsets: seq<nat>, size: nat)
    requires c.node.INode? && |c.node.children| == |types| + (if bits > 0 then 1 else 0) && |offsets| == |types|
    requires forall a :: 0 <= a < |types| ==> c.node.children[a] == Child(Leaf(Attribute), offsets[a], 0)
    requires bits > 0 ==> c.node.children[|types|] == Child(Leaf(NullBitmap), size, 0)
    requires Consecutive(SizeAt(types), order, offsets, |order|) && size == Sum(SizeAt(types), order)
    ensures Along(c, types, bits, SizeAt(types), order)
    ensures forall i :: 0 <= i < |c.node.children| ==> c.node.children[i].stride == 0
  {
    hide Sum;
  }

  lemma RowsAligned(c: Child, types: Types, bits: nat, order: seq<nat>, alignment: nat)
    requires AllStorable(types) && LaidOut(types, true, order) && Nested(types) && c.offset == 0
    requires Along(c, types, bits, SizeAt(types), order)
    requires LargestAlignment(types, alignment) && c.stride % alignment == 0
    ensures AllAligned(c, types)
  {
    forall a, row: nat | 0 <= a < |types|
      ensures types[a].alignment > 0
              && (RowsOf(row, c.stride) + c.node.children[a].offset) % types[a].alignment == 0
    {
      var k := IndexOf(order, |types|, a);
      OffsetAligned(types, order, k);
      DividesLargest(types, a, alignment);
      hide *;
      MultipleOfMultiple(c.stride, alignment, types[a].alignment);
      MultipleRows(row, c.stride, types[a].alignment);
      SumOfMultiples(RowsOf(row, c.stride), Sum(SizeAt(types), order[..k]), types[a].alignment);
    }
  }

  /** The attributes before one in the order have sizes that its alignment divides. */
  lemma OffsetAligned(types: Types, order: seq<nat>, k: nat)
    requires LaidOut(types, true, order) && Nested(types) && k < |order|
    ensures order[k] < |types| && types[order[k]].alignment > 0
    ensures Sum(SizeAt(types), order[..k]) % types[order[k]].alignment == 0
  {
    var d := types[order[k]].alignment;
    forall j | 0 <= j < k ensures SizeAt(types)(order[..k][j]) % d == 0 {
      assert Before(types, order[j], order[k]);
      MultipleOfMultiple(types[order[j]].size, types[order[j]].alignment, d);
    }
    hide *;
    SumMultiple(SizeAt(types), order[..k], d);
  }

  lemma DividesLargest(types: Types, a: nat, alignment: nat)
    requires AllStorable(types) && Nested(types) && LargestAlignment(types, alignment) && a < |types|
    ensures types[a].alignment > 0 && alignment % types[a].alignment == 0
  {
    assert Storable(types[a]);
    if alignment != 8 {
      var b :| 0 <= b < |types| && types[b].alignment == alignment;
      assert types[a].alignment <= types[b].alignment;
    }
  }

  lemma MultipleOfMultiple(x: nat, m: nat, d: nat)
    requires m > 0 && d > 0 && x % m == 0 && m % d == 0
    ensures x % d == 0
  {
    var q, r := x / m, m / d;
    assert x == q * m && m == r * d;
    assert x == (q * r) * d;
    MultipleOf(q * r, d);
  }

  lemma MultipleRows(row: nat, x: nat, d: nat)
    requires d > 0 && x % d == 0
    ensures RowsOf(row, x) % d == 0
  {
    var q := x / d;
    assert x == q * d;
    assert row * x == (row * q) * d;
    MultipleOf(row * q, d);
  }

  lemma SumOfMultiples(x: nat, y: nat, d: nat)
    requires d > 0 && x % d == 0 && y % d == 0
    ensures (x + y) % d == 0
  {
    var p, q := x / d, y / d;
    assert x == p * d && y == q * d;
    assert x + y == (p + q) * d;
    MultipleOf(p + q, d);
  }

  lemma {:induction false} SumMultiple(f: nat -> nat, s: seq<nat>, d: nat)
    requires d > 0 && forall i :: 0 <= i < |s| ==> f(s[i]) % d == 0
    ensures Sum(f, s) % d == 0
  {
    SumLast(f, s);
    if s != [] {
      SumMultiple(f, s[..|s| - 1], d);
      SumOfMultiples(Sum(f, s[..|s| - 1]), f(s[|s| - 1]), d);
    }
    hide Sum;
  }

  /** The attributes do not overlap within `size` bits. */
  ghost predicate RowColumns(types: Types, offsets: seq<nat>, size: nat) {
    && |offsets| == |types| && 0 < size
    && (forall a :: 0 <= a < |types| ==> offsets[a] + types[a].size <= size)
    && forall a, b :: 0 <= a < |types| && 0 <= b < |types| && a != b ==>
         offsets[a] + types[a].size <= offsets[b] || offsets[b] + types[b].size <= offsets[a]
  }

  lemma OffsetsFit(types: Types, reorder: bool, order: seq<nat>, offsets: seq<nat>)
    requires AllStorable(types) && |offsets| == |types| && IsOrder(order, |types|)
    requires if reorder then Descending(types, order) else order == Iota(|types|)
    requires Consecutive(SizeAt(types), order, offsets, |order|)
    ensures RowColumns(types, offsets, Sum(SizeAt(types), order))
    ensures Aligned(types, offsets) <==> StartsWhole(types, reorder)
  {
    if reorder {
      ReorderedIsAligned(types, order, offsets);
    } else {
      UnorderedIsAligned(types, order, offsets);
    }
    hide *;
    ColumnsFit(types, order, offsets);
  }

  lemma ColumnsFit(types: Types, order: seq<nat>, offsets: seq<nat>)
    requires AllStorable(types) && |offsets| == |types| && IsOrder(order, |types|)
    requires Consecutive(SizeAt(types), order, offsets, |order|)
    ensures RowColumns(types, offsets, Sum(SizeAt(types), order))
  {
    ConsecutiveColumns(SizeAt(types), order, offsets);
    hide Sum, IsOrder, Consecutive;
    forall a: nat | a < |types| ensures SizeAt(types)(a) == types[a].size > 0 {
      assert Storable(types[a]);
    }
    assert offsets[0] + types[0].size > 0;
  }

  /** The leaves of a row. */
  ghost predicate IsRow(c: Child, types: Types, bits: nat, offsets: seq<nat>, size: nat) {
    && Shaped(c, types, bits) && c.node.numTuples == 1 && |offsets| == |types|
    && (forall a :: 0 <= a < |types| ==> c.node.children[a] == Child(Leaf(Attribute), offsets[a], 0))
    && (bits > 0 ==> c.node.children[|types|] == Child(Leaf(NullBitmap), size, 0))
  }

  lemma RowFacts(c: Child, n: nat, types: Types, bits: nat, offsets: seq<nat>, size: nat)
    requires |offsets| == |types| && (bits == 0 || bits == |types|) && c.offset == 0 && size + bits <= c.stride
             && c.stride % 8 == 0
    requires c.node.INode? && c.node.numTuples == 1 && |c.node.children| == |types| + if bits > 0 then 1 else 0
    requires forall a :: 0 <= a < |types| ==> c.node.children[a] == Child(Leaf(Attribute), offsets[a], 0)
    requires bits > 0 ==> c.node.children[|types|] == Child(Leaf(NullBitmap), size, 0)
    requires RowColumns(types, offsets, size)
    ensures Packs(c, types, bits) && (Asserted(c, n, types, bits) <==> n != 1 && Aligned(types, offsets))
    ensures c.stride < WORD ==> WellFormed(c, 0) && Supported(c, 0)
  {
    assert IsRow(c, types, bits, offsets, size);
    hide *;
    RowPacks(c, types, bits, offsets, size);
    RowAsserted(c, n, types, bits, offsets, size);
    if c.stride < WORD {
      RowSupported(c, types, bits, offsets, size);
    }
  }

  lemma RowPacks(c: Child, types: Types, bits: nat, offsets: seq<nat>, size: nat)
    requires IsRow(c, types, bits, offsets, size) && RowColumns(types, offsets, size)
    requires (bits == 0 || bits == |types|) && size + bits <= c.stride
    ensures Packs(c, types, bits)
  {
    assert forall a :: 0 <= a < |types| ==> ColumnEnd(c, types, a) == offsets[a] + types[a].size;
  }

  lemma RowAsserted(c: Child, n: nat, types: Types, bits: nat, offsets: seq<nat>, size: nat)
    requires IsRow(c, types, bits, offsets, size) && RowColumns(types, offsets, size) && size <= c.stride
    ensures Asserted(c, n, types, bits) <==> n != 1 && Aligned(types, offsets)
  {}

  lemma RowSupported(c: Child, types: Types, bits: nat, offsets: seq<nat>, size: nat)
    requires IsRow(c, types, bits, offsets, size) && c.stride < WORD
    ensures WellFormed(c, 0) && Supported(c, 0)
  {
    forall i | 0 <= i < |c.node.children|
      ensures WellFormed(c.node.children[i], 1) && Supported(c.node.children[i], 1)
              && Fits(c.node.children[i], 1, c.stride)
    {
      assert c.node.children[i].node.Leaf? && c.node.children[i].stride == 0;
    }
  }

  ghost predicate Aligned(types: Types, offsets: seq<nat>) {
    |offsets| == |types| && forall a :: 0 <= a < |types| && !types[a].boolean ==> offsets[a] % 8 == 0
  }

  lemma ReorderedIsAligned(types: Types, order: seq<nat>, offsets: seq<nat>)
    requires AllStorable(types) && |offsets| == |types| && IsOrder(order, |types|) && Descending(types, order)
    requires Consecutive(SizeAt(types), order, offsets, |order|)
    ensures Aligned(types, offsets) <==> AtMostOneHalfByte(types)
  {
    hide Sum;
    if AtMostOneHalfByte(types) {
      forall a | 0 <= a < |types| && !types[a].boolean ensures offsets[a] % 8 == 0 {
        BehindWholeBytes(types, order, offsets, a);
      }
    } else {
      var a, b :| 0 <= a < |types| && 0 <= b < |types| && HalfByte(types[a]) && HalfByte(types[b]) && a != b;
      var j := IndexOf(order, |types|, a);
      var k := IndexOf(order, |types|, b);
      if j < k {
        TwoHalfBytes(types, order, offsets, j, k);
      } else {
        TwoHalfBytes(types, order, offsets, k, j);
      }
    }
  }

  lemma BehindWholeBytes(types: Types, order: seq<nat>, offsets: seq<nat>, a: nat)
    requires AllStorable(types) && |offsets| == |types| && IsOrder(order, |types|) && Descending(types, order)
    requires Consecutive(SizeAt(types), order, offsets, |order|) && AtMostOneHalfByte(types)
    requires a < |types| && !types[a].boolean
    ensures offsets[a] % 8 == 0
  {
    var k := IndexOf(order, |types|, a);
    assert Storable(types[a]);
    forall j | 0 <= j < k ensures SizeAt(types)(order[..k][j]) % 8 == 0 {
      assert Storable(types[order[j]]) && order[j] != order[k];
    }
    SumWhole(SizeAt(types), order[..k]);
  }

  /** In descending order, the attribute behind one of half a byte is another one if there is another. */
  lemma HalfByteBetween(types: Types, order: seq<nat>, j: nat, k: nat)
    requires AllStorable(types) && IsOrder(order, |types|) && Descending(types, order)
    requires j < k < |order| && HalfByte(types[order[j]]) && HalfByte(types[order[k]])
    ensures HalfByte(types[order[j + 1]])
  {
    var b := order[j + 1];
    assert b in order && Storable(types[b]);
    assert Before(types, order[j], b) && (j + 1 < k ==> Before(types, b, order[k]));
    hide IsOrder, Descending, AllStorable;
  }

  lemma NextOffset(types: Types, order: seq<nat>, offsets: seq<nat>, j: nat)
    requires |offsets| == |types| && IsOrder(order, |types|) && j + 1 < |order|
    requires Consecutive(SizeAt(types), order, offsets, |order|)
    ensures order[j] < |types| && order[j + 1] < |types|
    ensures offsets[order[j + 1]] == offsets[order[j]] + types[order[j]].size
  {
    assert order[j] in order && order[j + 1] in order;
    hide IsOrder;
    PrefixStep(order, j);
    SumStep(SizeAt(types), order[..j], order[j]);
    hide Sum;
  }

  /** Of two such attributes that follow each other only one starts at a byte. */
  lemma TwoHalfBytes(types: Types, order: seq<nat>, offsets: seq<nat>, j: nat, k: nat)
    requires AllStorable(types) && |offsets| == |types| && IsOrder(order, |types|) && Descending(types, order)
    requires Consecutive(SizeAt(types), order, offsets, |order|)
    requires j < k < |order| && HalfByte(types[order[j]]) && HalfByte(types[order[k]])
    ensures !Aligned(types, offsets)
  {
    HalfByteBetween(types, order, j, k);
    NextOffset(types, order, offsets, j);
    hide IsOrder, Descending, Consecutive, AllStorable, Sum, SizeAt;
    var a, b := order[j], order[j + 1];
    assert offsets[b] == offsets[a] + 4 && !types[a].boolean && !types[b].boolean;
    assert offsets[a] % 8 == 0 ==> offsets[b] % 8 != 0;
  }

  lemma UnorderedIsAligned(types: Types, order: seq<nat>, offsets: seq<nat>)
    requires AllStorable(types) && |offsets| == |types| && order == Iota(|types|)
    requires Consecutive(SizeAt(types), order, offsets, |order|)
    ensures Aligned(types, offsets) <==> WholeBytesBefore(types)
  {
    forall a | 0 <= a < |types| ensures offsets[a] == Sum(SizeAt(types), Iota(a)) {
      assert order[a] == a;
      IotaPrefix(|types|, a);
    }
  }

  // ---------------------------------------------------------------------------- PAX layouts

  /** The block size of a PAX layout, in tuples or in bytes. */
  datatype BlockSize = NTuples(num: nat) | NBytes(num: nat)

  /** What `x` bits lack to whole bytes. */
  function Pad(x: nat): (p: nat)
    ensures (x + p) % 8 == 0 && p < 8 && (x % 8 == 0 ==> p == 0)
  {
    if x % 8 != 0 then 8 - x % 8 else 0
  }

  /** The least power of two, from `2^k` on, that is not less than `n`. */
  function CeilToPow2(n: nat, k: nat): (p: nat)
    ensures p >= n && p % Pow2(k) == 0 && (p == Pow2(k) || p < 2 * n)
    ensures exists e :: e >= k && p == Pow2(e)
    decreases n - Pow2(k)
  {
    if Pow2(k) >= n then Pow2(k)
    else
      assert Pow2(k + 1) == 2 * Pow2(k);
      EvenMultiple(CeilToPow2(n, k + 1), Pow2(k));
      CeilToPow2(n, k + 1)
  }

  lemma EvenMultiple(x: nat, p: nat)
    requires p > 0
    ensures x % (2 * p) == 0 ==> x % p == 0
  {
    if x % (2 * p) == 0 {
      assert x == (x / (2 * p)) * (2 * p) == (2 * (x / (2 * p))) * p;
      MultipleOf(2 * (x / (2 * p)), p);
    }
  }

  /** The bits of the NULL bitmap of a row: the least power of two that is at least a byte and has a
      bit for each attribute. */
  function BitmapBits(types: Types, removeNullBitmap: bool): (bits: nat)
    ensures removeNullBitmap ==> bits == 0
    ensures !removeNullBitmap ==> bits >= 8 && bits >= |types| && (bits == 8 || bits < 2 * |types|)
    ensures !removeNullBitmap ==> exists e :: bits == Pow2(e)
  {
    assert Pow2(3) == 8 && Pow2(0) == 1;
    var p := CeilToPow2(|types|, 0);
    if removeNullBitmap then 0 else if p > 8 then p else 8
  }

  /** The bits that `m` rows take. */
  function RowsOf(m: nat, x: nat): nat {
    m * x
  }

  lemma RowsOfMeans(m: nat, x: nat)
    ensures RowsOf(m, x) == m * x == x * m
  {}

  lemma RowsOfSum(m: nat, x: nat, y: nat)
    ensures RowsOf(m, x + y) == RowsOf(m, x) + RowsOf(m, y) && RowsOf(m, 0) == 0
  {}

  /** As many rows as fit into the room. */
  ghost predicate Fills(m: nat, rowSize: nat, room: nat) {
    RowsOf(m, rowSize) <= room < RowsOf(m + 1, rowSize)
  }

  /** The greatest multiple of `lanes` that is not greater than `m`, unless `m` is no more than that. */
  ghost predicate Floored(r: nat, m: nat, lanes: nat) {
    if m > lanes > 0 then r % lanes == 0 && r <= m < r + lanes else r == m
  }

  /** The exact number of rows in a block. */
  ghost predicate RowsCounted(m: nat, size: BlockSize, rowSize: nat, unaligned: nat, lanes: nat, packOneLess: bool) {
    match size
    case NTuples(num) => Floored(m, num, lanes)
    case NBytes(num) =>
      exists fitting: nat ::
        Fills(fitting, rowSize, (8 * num - 7 * unaligned) % WORD) && TakenFrom(m, fitting, lanes, packOneLess)
  }

  /** Of the rows that fit, at least one, as many as fill all lanes; or one row less. */
  ghost predicate TakenFrom(m: nat, fitting: nat, lanes: nat, packOneLess: bool) {
    var least := if fitting > 1 then fitting else 1;
    if packOneLess then Floored(m + 1, least, lanes) || (m == 1 && Floored(m, least, lanes))
    else Floored(m, least, lanes)
  }

  /** The number of rows in a block, from the bits of a row and the number of attributes that are not
      whole bytes.  The room for them is an unsigned word: if a block has no room for the padding, it
      wraps around, and far more rows are counted than fit. */
  method RowsPerBlock(size: BlockSize, rowSize: nat, unaligned: nat, lanes: nat, packOneLess: bool) returns (m: nat)
    requires rowSize > 0 && lanes > 0 && size.num > 0 && (size.NBytes? ==> 8 * size.num < WORD)
    ensures m >= 1 && RowsCounted(m, size, rowSize, unaligned, lanes, packOneLess)
    ensures size.NTuples? ==> (m >= 2 <==> size.num >= 2)
    ensures size.NBytes? && 7 * unaligned <= 8 * size.num && m >= 2 ==>
              RowsOf(m, rowSize) + 7 * unaligned <= 8 * size.num
    ensures size.NBytes? && 7 * unaligned <= 8 * size.num && !packOneLess ==>
              (m >= 2 <==> 2 * rowSize + 7 * unaligned <= 8 * size.num)
    ensures size.NBytes? && 7 * unaligned > 8 * size.num && unaligned <= rowSize && 64 * rowSize <= WORD ==> m >= 8
  {
    hide *;
    if size.NTuples? {
      m := FloorToLanes(size.num, lanes);
      TuplesCounted(m, size, rowSize, unaligned, lanes, packOneLess);
    } else {
      var room := (8 * size.num - 7 * unaligned) % WORD;
      RoomInBlock(8 * size.num, unaligned, rowSize);
      var fitting := FittingRows(room, rowSize);
      m := FloorToLanes(if fitting > 1 then fitting else 1, lanes);
      ghost var whole := m;
      if packOneLess && m > 1 {
        m := m - 1;
      }
      BytesCounted(m, size, rowSize, unaligned, lanes, packOneLess, fitting, whole);
      if m >= 2 {
        FewerRows(m, fitting, rowSize);
      }
    }
  }

  lemma TuplesCounted(m: nat, size: BlockSize, rowSize: nat, unaligned: nat, lanes: nat, packOneLess: bool)
    requires size.NTuples? && Floored(m, size.num, lanes)
    ensures RowsCounted(m, size, rowSize, unaligned, lanes, packOneLess)
  {}

  lemma BytesCounted(m: nat, size: BlockSize, rowSize: nat, unaligned: nat, lanes: nat, packOneLess: bool,
                     fitting: nat, whole: nat)
    requires size.NBytes? && Fills(fitting, rowSize, (8 * size.num - 7 * unaligned) % WORD)
    requires Floored(whole, if fitting > 1 then fitting else 1, lanes)
    requires m == if packOneLess && whole > 1 then whole - 1 else whole
    ensures RowsCounted(m, size, rowSize, unaligned, lanes, packOneLess)
  {
    assert TakenFrom(m, fitting, lanes, packOneLess);
    hide Fills, Floored, TakenFrom;
  }

  lemma RoomInBlock(block: nat, unaligned: nat, rowSize: nat)
    requires block < WORD && rowSize > 0
    ensures 7 * unaligned <= block ==> (block - 7 * unaligned) % WORD == block - 7 * unaligned
    ensures 7 * unaligned > block && unaligned <= rowSize && 64 * rowSize <= WORD ==>
              (block - 7 * unaligned) % WORD >= 20 * rowSize
  {
    if 7 * unaligned > block && unaligned <= rowSize && 64 * rowSize <= WORD {
      assert (block - 7 * unaligned) % WORD == WORD + block - 7 * unaligned;
    }
  }

  method FloorToLanes(m: nat, lanes: nat) returns (r: nat)
    requires m > 0 && lanes > 0
    ensures 1 <= r <= m <= 2 * r && (r >= 2 <==> m >= 2) && Floored(r, m, lanes)
  {
    r := m;
    if m > lanes {
      r := (m / lanes) * lanes;
      LanesFit(m, lanes);
    }
  }

  lemma LanesFit(m: nat, lanes: nat)
    requires m > lanes > 0
    ensures lanes <= (m / lanes) * lanes <= m <= 2 * ((m / lanes) * lanes) && (m / lanes) * lanes >= 2
    ensures m < (m / lanes) * lanes + lanes && ((m / lanes) * lanes) % lanes == 0
  {
    var q := m / lanes;
    MultipleOf(q, lanes);
    assert m == q * lanes + m % lanes;
    assert q >= 1;
    if lanes == 1 {
      assert q == m;
    } else {
      Repeated(q, 0, lanes);
    }
  }

  method FittingRows(room: nat, rowSize: nat) returns (q: nat)
    requires rowSize > 0
    ensures Fills(q, rowSize, room) && RowsOf(q, rowSize) <= room && (q >= 2 <==> 2 * rowSize <= room)
    ensures 20 * rowSize <= room ==> q >= 20
  {
    q := room / rowSize;
    assert room == q * rowSize + room % rowSize;
    if q < 20 {
      FewerRows(q, 19, rowSize);
    }
    if q >= 2 {
      FewerRows(2, q, rowSize);
    } else {
      FewerRows(q, 1, rowSize);
    }
  }

  lemma FewerRows(m: nat, q: nat, rowSize: nat)
    requires m <= q
    ensures RowsOf(m, rowSize) <= RowsOf(q, rowSize)
  {
    if m < q {
      Repeated(q, m, rowSize);
    }
  }

  lemma SomeRows(m: nat, x: nat)
    requires m >= 1
    ensures RowsOf(m, x) >= x
  {
    FewerRows(1, m, x);
    RowsOfMeans(1, x);
  }

  function PaddedRows(m: nat, x: nat): nat {
    RowsOf(m, x) + Pad(RowsOf(m, x))
  }

  /** The bits of a column of `m` rows, padded to whole bytes. */
  function ColumnAt(types: Types, m: nat): nat -> nat {
    (a: nat) => PaddedRows(m, SizeAt(types)(a))
  }

  /** All columns take no more than the rows and seven bits for each attribute that is a single bit. */
  lemma {:induction false} ColumnsBound(types: Types, m: nat, s: seq<nat>)
    ensures var rows := RowsOf(m, Sum(SizeAt(types), s));
            rows <= Sum(ColumnAt(types, m), s) <= rows + 7 * Sum(BitsAt(types), s)
  {
    hide *;
    SumLast(SizeAt(types), s);
    SumLast(BitsAt(types), s);
    SumLast(ColumnAt(types, m), s);
    if s == [] {
      RowsOfSum(m, 0, 0);
    } else {
      var n := |s| - 1;
      ColumnsBound(types, m, s[..n]);
      ColumnBound(types, m, s[n]);
      RowsOfSum(m, Sum(SizeAt(types), s[..n]), SizeAt(types)(s[n]));
    }
  }

  lemma ColumnBound(types: Types, m: nat, a: nat)
    ensures var rows := RowsOf(m, SizeAt(types)(a));
            rows <= ColumnAt(types, m)(a) <= rows + 7 * BitsAt(types)(a)
  {
    var w := SizeAt(types)(a);
    if w % 8 == 0 {
      WholeBytes(m, w);
    }
  }

  lemma {:induction false} ColumnsWhole(types: Types, m: nat, s: seq<nat>)
    ensures Sum(ColumnAt(types, m), s) % 8 == 0
  {
    forall i | 0 <= i < |s| ensures ColumnAt(types, m)(s[i]) % 8 == 0 {
      var column := PaddedRows(m, SizeAt(types)(s[i]));
      assert ColumnAt(types, m)(s[i]) == column;
    }
    SumWhole(ColumnAt(types, m), s);
  }

  /** What the padding makes up for after the columns of `s`. */
  ghost predicate Padded(types: Types, m: nat, s: seq<nat>, padding: nat) {
    RowsOf(m, Sum(SizeAt(types), s)) + padding == Sum(ColumnAt(types, m), s)
  }

  /** The columns of a block: the offsets of a row times the number of rows, plus the padding so far.
      `asserted` says whether every column starts at a whole byte. */
  method ColumnOffsets(types: Types, order: seq<nat>, rowOffsets: seq<nat>, m: nat)
    returns (offsets: seq<nat>, padding: nat, ghost asserted: bool)
    requires |rowOffsets| == |types| && IsOrder(order, |types|)
             && Consecutive(SizeAt(types), order, rowOffsets, |order|)
    ensures |offsets| == |types| && Consecutive(ColumnAt(types, m), order, offsets, |order|) && asserted
    ensures Padded(types, m, order, padding)
  {
    hide *;
    offsets := rowOffsets;
    padding, asserted := 0, true;
    var idx := 0;
    NoPadding(types, m);
    OrderFacts(order, |types|);
    assert order[..0] == [];
    NoColumns(ColumnAt(types, m), order, offsets);
    while idx < |types|
      invariant 0 <= idx <= |types| && |offsets| == |types| && asserted
      invariant Consecutive(ColumnAt(types, m), order, offsets, idx) && Padded(types, m, order[..idx], padding)
      invariant forall k :: idx <= k < |types| ==> offsets[order[k]] == rowOffsets[order[k]]
    {
      var mapped := order[idx];
      ColumnStart(types, m, order, idx, rowOffsets, padding);
      var offset := ScaledOffset(offsets[mapped], m, padding);
      asserted := asserted && offset % 8 == 0;
      ConsecutiveStep(ColumnAt(types, m), order, offsets, idx, offset);
      offsets := offsets[mapped := offset];
      PaddingStep(types, m, order, idx, padding);
      padding := AddPadding(types[mapped].size, m, padding);
      idx := idx + 1;
    }
    assert order[..idx] == order;
  }

  method ScaledOffset(rowOffset: nat, m: nat, padding: nat) returns (offset: nat)
    ensures offset == RowsOf(m, rowOffset) + padding
  {
    RowsOfMeans(m, rowOffset);
    offset := rowOffset * m + padding;
  }

  method AddPadding(size: nat, m: nat, before: nat) returns (padding: nat)
    ensures padding == before + Pad(RowsOf(m, size))
  {
    RowsOfMeans(m, size);
    padding := before;
    if (size * m) % 8 != 0 {
      padding := padding + (8 - (size * m) % 8);
    }
  }

  lemma OrderFacts(order: seq<nat>, n: nat)
    requires IsOrder(order, n)
    ensures |order| == n && forall k :: 0 <= k < n ==> order[k] < n
    ensures forall i, j :: 0 <= i < j < |order| ==> order[i] != order[j]
  {
    forall k | 0 <= k < n ensures order[k] < n {
      assert order[k] in order;
    }
  }

  lemma NoColumns(f: nat -> nat, order: seq<nat>, offsets: seq<nat>)
    ensures Consecutive(f, order, offsets, 0)
  {}

  lemma PrefixStep(s: seq<nat>, k: nat)
    requires k < |s|
    ensures s[..k + 1] == s[..k] + [s[k]]
  {}

  lemma PaddedMeans(types: Types, m: nat, s: seq<nat>, padding: nat)
    ensures Padded(types, m, s, padding) <==> RowsOf(m, Sum(SizeAt(types), s)) + padding == Sum(ColumnAt(types, m), s)
  {}

  lemma NoPadding(types: Types, m: nat)
    ensures Padded(types, m, [], 0)
  {}

  lemma ColumnStart(types: Types, m: nat, order: seq<nat>, idx: nat, rowOffsets: seq<nat>, padding: nat)
    requires Consecutive(SizeAt(types), order, rowOffsets, |order|) && idx < |order|
             && Padded(types, m, order[..idx], padding)
    ensures order[idx] < |rowOffsets|
            && RowsOf(m, rowOffsets[order[idx]]) + padding == Sum(ColumnAt(types, m), order[..idx])
    ensures Sum(ColumnAt(types, m), order[..idx]) % 8 == 0
  {
    hide ColumnAt, SizeAt, Sum, RowsOf;
    ColumnsWhole(types, m, order[..idx]);
  }

  lemma PaddingStep(types: Types, m: nat, order: seq<nat>, idx: nat, padding: nat)
    requires idx < |order| && order[idx] < |types| && Padded(types, m, order[..idx], padding)
    ensures Padded(types, m, order[..idx + 1], padding + Pad(RowsOf(m, types[order[idx]].size)))
  {
    hide *;
    var x, s, t := order[idx], order[..idx], order[..idx + 1];
    PrefixStep(order, idx);
    SumStep(ColumnAt(types, m), s, x);
    SumStep(SizeAt(types), s, x);
    OneColumn(types, m, x);
    var w := types[x].size;
    RowsOfSum(m, Sum(SizeAt(types), s), w);
    PaddedMeans(types, m, s, padding);
    PaddedMeans(types, m, t, padding + Pad(RowsOf(m, w)));
  }

  lemma OneColumn(types: Types, m: nat, a: nat)
    requires a < |types|
    ensures var rows := RowsOf(m, types[a].size); ColumnAt(types, m)(a) == rows + Pad(rows)
    ensures SizeAt(types)(a) == types[a].size
  {
    var column := PaddedRows(m, SizeAt(types)(a));
    hide RowsOf;
    assert ColumnAt(types, m)(a) == column;
  }

  /** The bytes of the smallest attribute. */
  ghost predicate SmallestBytes(types: Types, bytes: nat) {
    && (forall a :: 0 <= a < |types| ==> bytes <= (types[a].size + 7) / 8)
    && exists a :: 0 <= a < |types| && bytes == (types[a].size + 7) / 8
  }

  ghost predicate SmallestOf(types: Types, s: seq<nat>, bytes: nat) {
    && (forall a :: a in s && a < |types| ==> bytes <= (types[a].size + 7) / 8)
    && exists a :: 0 <= a < |types| && bytes == (types[a].size + 7) / 8
  }

  lemma SmallestOfMore(types: Types, s: seq<nat>, a: nat, bytes: nat)
    requires a < |types|
    ensures SmallestOf(types, [], (types[a].size + 7) / 8)
    ensures SmallestOf(types, s, bytes) ==>
              SmallestOf(types, s + [a], if (types[a].size + 7) / 8 < bytes then (types[a].size + 7) / 8 else bytes)
  {}

  lemma SmallestOfAll(types: Types, order: seq<nat>, bytes: nat)
    requires SmallestOf(types, order, bytes) && IsOrder(order, |types|)
    ensures SmallestBytes(types, bytes)
  {
    forall a | 0 <= a < |types| ensures bytes <= (types[a].size + 7) / 8 {
      assert a in order;
    }
  }

  lemma OrderedIsStorable(types: Types, order: seq<nat>)
    requires AllStorable(types) && IsOrder(order, |types|)
    ensures |order| == |types| > 0 && forall i :: 0 <= i < |order| ==> order[i] < |types| && types[order[i]].size > 0
  {
    forall i | 0 <= i < |order| ensures order[i] < |types| && Storable(types[order[i]]) {
      assert order[i] in order;
    }
  }

  lemma NoBits(types: Types)
    ensures Sum(BitsAt(types), []) == 0
  {}

  lemma BitsStep(types: Types, order: seq<nat>, i: nat)
    requires i < |order| && order[i] < |types|
    ensures Sum(BitsAt(types), order[..i + 1])
            == Sum(BitsAt(types), order[..i]) + if types[order[i]].size % 8 != 0 then 1 else 0
  {
    assert order[..i + 1] == order[..i] + [order[i]];
    SumStep(BitsAt(types), order[..i], order[i]);
  }

  /** The smallest attribute in bytes, and the number of attributes that are not whole bytes. */
  method SizeStatistics(types: Types, order: seq<nat>) returns (minBytes: nat, unaligned: nat)
    requires AllStorable(types) && IsOrder(order, |types|)
    ensures minBytes > 0 && unaligned == NumBits(types) && SmallestBytes(types, minBytes)
  {
    OrderedIsStorable(types, order);
    SmallestOfMore(types, [], order[0], 0);
    hide *;
    assert order[..0] == [];
    NoBits(types);
    minBytes, unaligned := (types[order[0]].size + 7) / 8, 0;
    var idx := 0;
    while idx < |types|
      invariant 0 <= idx <= |types| && minBytes > 0 && unaligned == Sum(BitsAt(types), order[..idx])
      invariant SmallestOf(types, order[..idx], minBytes)
    {
      var mapped := order[idx];
      assert order[..idx + 1] == order[..idx] + [mapped];
      SmallestOfMore(types, order[..idx], mapped, minBytes);
      BitsStep(types, order, idx);
      if (types[mapped].size + 7) / 8 < minBytes {
        minBytes := (types[mapped].size + 7) / 8;
      }
      if types[mapped].size % 8 != 0 {
        unaligned := unaligned + 1;
      }
      idx := idx + 1;
    }
    assert order[..idx] == order;
    SmallestOfAll(types, order, minBytes);
    SumPermutes(BitsAt(types), order, Iota(|types|));
  }

  /** The blocks that a row takes, and the size of a block. */
  method BlockOf(size: BlockSize, rowSize: nat, total: nat, alignment: nat) returns (blocks: nat, stride: nat)
    requires rowSize > 0 && size.num > 0 && alignment > 0 && alignment % 8 == 0
    ensures blocks >= 1 && stride % 8 == 0 && (total > 0 ==> stride > 0)
    ensures size.NTuples? ==> total <= stride && LeastMultiple(stride, alignment, total)
    ensures size.NBytes? ==> stride == blocks * (8 * size.num) && 8 * size.num <= stride < rowSize + 8 * size.num
    ensures size.NBytes? ==> LeastMultiple(stride, 8 * size.num, rowSize)
  {
    var blockSize;
    if size.NTuples? {
      blocks, blockSize := 1, RoundUp(total, alignment);
      MultipleOfEight(blockSize, alignment);
    } else {
      blockSize := 8 * size.num;
      blocks := (rowSize + blockSize - 1) / blockSize;
      SomeBlock(rowSize, blockSize);
      Repeated(blocks, 0, blockSize);
      WholeBytes(blocks, blockSize);
      assert blocks * blockSize + (rowSize + blockSize - 1) % blockSize == rowSize + blockSize - 1;
      MultipleOf(blocks, blockSize);
    }
    stride := blocks * blockSize;
  }

  lemma SomeBlock(rowSize: nat, blockSize: nat)
    requires rowSize > 0 && blockSize > 0
    ensures (rowSize + blockSize - 1) / blockSize >= 1
  {
    var x := rowSize + blockSize - 1;
    assert x == (x / blockSize) * blockSize + x % blockSize;
    PositiveFactor(x / blockSize, blockSize);
  }

  lemma PositiveFactor(q: nat, b: nat)
    ensures q * b > 0 ==> q >= 1
  {
    if q == 0 {
      assert q * b == 0;
    }
  }

  /** A layout of blocks with a column for each attribute.  The assertions hold if and only if a block
      has room for two rows besides the padding, and no attribute takes half a byte; and then the
      compiled code can follow the layout. */
  method MakePAX(types: Types, n: nat, size: BlockSize, reorder: bool, removeNullBitmap: bool, packOneLess: bool)
    returns (c: Child, bits: nat, ghost asserted: bool, ghost order: seq<nat>, ghost alignment: nat,
             ghost smallest: nat)
    requires AllStorable(types) && size.num > 0 && (size.NBytes? ==> 8 * size.num < WORD)
    requires 64 * (TotalSize(types) + BitmapBits(types, removeNullBitmap)) <= WORD
    ensures bits == BitmapBits(types, removeNullBitmap) && Shaped(c, types, bits)
    ensures LaidOut(types, reorder, order) && Along(c, types, bits, ColumnAt(types, c.node.numTuples), order)
    ensures forall i :: 0 <= i < |c.node.children| ==>
              c.node.children[i].stride == if i < |types| then types[i].size else bits
    ensures LargestAlignment(types, alignment) && SmallestBytes(types, smallest) && smallest > 0
    ensures RowsCounted(c.node.numTuples, size, TotalSize(types) + bits, NumBits(types), Lanes(smallest), packOneLess)
    ensures match size
            case NTuples(_) =>
              var m := c.node.numTuples;
              LeastMultiple(c.stride, alignment, Sum(ColumnAt(types, m), order) + RowsOf(m, bits))
            case NBytes(num) => LeastMultiple(c.stride, 8 * num, TotalSize(types) + bits)
    ensures asserted && Asserted(c, n, types, bits) <==>
              && n != 1 && WholeBytesOnly(types) && c.node.numTuples >= 2
              && (size.NBytes? ==> 7 * NumBits(types) <= 8 * size.num)
    ensures size.NTuples? ==> (c.node.numTuples >= 2 <==> size.num >= 2)
    ensures size.NBytes? && 7 * NumBits(types) <= 8 * size.num && !packOneLess ==>
              (c.node.numTuples >= 2 <==> 2 * (TotalSize(types) + bits) + 7 * NumBits(types) <= 8 * size.num)
    ensures asserted && c.node.numTuples >= 2 ==> Packs(c, types, bits)
    ensures asserted && c.node.numTuples >= 2 && c.stride < WORD && WholeBytesOnly(types) ==>
              WellFormed(c, 0) && Supported(c, 0)
  {
    hide *;
    var attributes := ComputeAttributeOrder(types, reorder);
    OrderLaidOut(types, reorder, attributes);
    var rowOffsets, rowTotal, largest := RowOffsets(types, attributes);
    LargestIsPositive(types, largest);
    var minBytes, unaligned := SizeStatistics(types, attributes);
    bits := BitmapBits(types, removeNullBitmap);
    TotalOfOrder(types, attributes);
    var rowSize := rowTotal + bits;
    var lanes := Lanes(minBytes);
    var m := RowsPerBlock(size, rowSize, unaligned, lanes, packOneLess);
    var offsets, padding, aligned := ColumnOffsets(types, attributes, rowOffsets, m);
    var bitmapOffset := ScaledOffset(rowTotal, m, padding);
    SomeRows(m, rowTotal);
    var total := bitmapOffset + RowsOf(m, bits);
    var _, stride := BlockOf(size, rowSize, total, largest);
    asserted := aligned && bitmapOffset % 8 == 0 && total <= stride;
    var strides := seq(|types|, a requires 0 <= a < |types| => types[a].size);
    var children := AddLeaves(offsets, strides, bits, bitmapOffset, bits);
    c := Child(INode(m, children), 0, stride);
    PaddedTotal(types, m, attributes, rowTotal, padding);
    BitsWithinRow(types);
    order, alignment, smallest := attributes, largest, minBytes;
    PAXLayout(c, n, types, size, attributes, offsets, bits, rowSize, unaligned, bitmapOffset);
    PAXAlong(c, types, bits, attributes, offsets, bitmapOffset);
  }

  /** As many lanes of that many bytes as fit into sixteen bytes, but at least one. */
  function Lanes(bytes: nat): (lanes: nat)
    requires bytes > 0
    ensures lanes > 0 && (lanes == 1 || lanes * bytes <= 16) && (lanes + 1) * bytes > 16
  {
    var q := 16 / bytes;
    assert 16 == q * bytes + 16 % bytes;
    LanesOfBytes(q, bytes);
    if q > 1 then q else 1
  }

  lemma LanesOfBytes(q: nat, bytes: nat)
    requires bytes > 0 && q * bytes <= 16 < q * bytes + bytes
    ensures (q + 1) * bytes > 16 && (q == 0 ==> 2 * bytes > 16)
  {
    assert (q + 1) * bytes == q * bytes + bytes;
  }

  lemma PAXAlong(c: Child, types: Types, bits: nat, order: seq<nat>, offsets: seq<nat>, bitmapOffset: nat)
    requires c.node.INode? && |c.node.children| == |types| + (if bits > 0 then 1 else 0) && |offsets| == |types|
    requires forall a :: 0 <= a < |types| ==> c.node.children[a] == Child(Leaf(Attribute), offsets[a], types[a].size)
    requires bits > 0 ==> c.node.children[|types|] == Child(Leaf(NullBitmap), bitmapOffset, bits)
    requires Consecutive(ColumnAt(types, c.node.numTuples), order, offsets, |order|)
    requires bitmapOffset == Sum(ColumnAt(types, c.node.numTuples), order)
    ensures Along(c, types, bits, ColumnAt(types, c.node.numTuples), order)
    ensures forall i :: 0 <= i < |c.node.children| ==>
              c.node.children[i].stride == if i < |types| then types[i].size else bits
  {
    hide Sum, ColumnAt;
  }

  /** The block has room for its columns exactly if it has room for the padding, or for one row. */
  lemma PAXLayout(c: Child, n: nat, types: Types, size: BlockSize, order: seq<nat>, offsets: seq<nat>, bits: nat,
                  rowSize: nat, unaligned: nat, bitmapOffset: nat)
    requires AllStorable(types) && (bits == 0 || bits >= |types|) && c.offset == 0 && c.stride % 8 == 0 && c.stride > 0
    requires c.node.INode? && c.node.numTuples >= 1 && |c.node.children| == |types| + if bits > 0 then 1 else 0
    requires |offsets| == |types| && IsOrder(order, |types|)
    requires Consecutive(ColumnAt(types, c.node.numTuples), order, offsets, |order|)
    requires bitmapOffset == Sum(ColumnAt(types, c.node.numTuples), order)
             && rowSize == Sum(SizeAt(types), order) + bits
    requires forall a :: 0 <= a < |types| ==> c.node.children[a] == Child(Leaf(Attribute), offsets[a], types[a].size)
    requires bits > 0 ==> c.node.children[|types|] == Child(Leaf(NullBitmap), bitmapOffset, bits)
    requires unaligned == NumBits(types) <= rowSize
    requires size.NTuples? ==> bitmapOffset + RowsOf(c.node.numTuples, bits) <= c.stride
    requires size.NBytes? ==> 8 * size.num <= c.stride < rowSize + 8 * size.num
    requires size.NBytes? && 7 * unaligned <= 8 * size.num && c.node.numTuples >= 2 ==>
               RowsOf(c.node.numTuples, rowSize) + 7 * unaligned <= 8 * size.num
    requires size.NBytes? && 7 * unaligned > 8 * size.num ==> c.node.numTuples >= 8
    ensures Shaped(c, types, bits) && bitmapOffset % 8 == 0
    ensures Asserted(c, n, types, bits) <==> c.node.numTuples >= 2 && n != 1 && WholeBytesOnly(types)
    ensures c.node.numTuples >= 2 ==>
              (bitmapOffset + RowsOf(c.node.numTuples, bits) <= c.stride <==>
               (size.NBytes? ==> 7 * unaligned <= 8 * size.num))
    ensures bitmapOffset + RowsOf(c.node.numTuples, bits) <= c.stride && c.node.numTuples >= 2 ==>
              && Packs(c, types, bits)
              && (c.stride < WORD && WholeBytesOnly(types) ==> WellFormed(c, 0) && Supported(c, 0))
  {
    hide *;
    var m := c.node.numTuples;
    ColumnsEnd(types, order, offsets, m);
    ColumnsWhole(types, m, order);
    BlockHasRoom(types, size, m, order, bits, rowSize, unaligned);
    BlockTooSmall(types, size, m, order, bits, rowSize, unaligned, c.stride);
    PAXFacts(c, n, types, bits, offsets, bitmapOffset);
  }

  lemma BitsWithinRow(types: Types)
    requires AllStorable(types)
    ensures NumBits(types) <= TotalSize(types)
  {
    BitsWithinSizes(types, Iota(|types|));
  }

  lemma {:induction false} BitsWithinSizes(types: Types, s: seq<nat>)
    requires AllStorable(types)
    ensures Sum(BitsAt(types), s) <= Sum(SizeAt(types), s)
  {
    if s != [] {
      var n := |s| - 1;
      BitsWithinSizes(types, s[..n]);
      assert s[n] < |types| ==> Storable(types[s[n]]);
    }
  }

  /** Without room for the padding, the rows counted do not fit into the block. */
  lemma BlockTooSmall(types: Types, size: BlockSize, m: nat, order: seq<nat>, bits: nat, rowSize: nat, unaligned: nat,
                      room: nat)
    requires rowSize == Sum(SizeAt(types), order) + bits && unaligned <= rowSize
    requires size.NBytes? && 7 * unaligned > 8 * size.num ==> m >= 8
    requires size.NBytes? ==> room < rowSize + 8 * size.num
    ensures size.NBytes? && 7 * unaligned > 8 * size.num ==> Sum(ColumnAt(types, m), order) + RowsOf(m, bits) > room
  {
    hide Sum, ColumnAt, SizeAt, BitsAt, RowsOf;
    if size.NBytes? && 7 * unaligned > 8 * size.num {
      ColumnsBound(types, m, order);
      RowsOfSum(m, Sum(SizeAt(types), order), bits);
      RowsOfMeans(m, bits);
      FewerRows(8, m, rowSize);
      RowsOfMeans(8, rowSize);
    }
  }

  lemma TotalOfOrder(types: Types, order: seq<nat>)
    requires AllStorable(types) && IsOrder(order, |types|)
    ensures Sum(SizeAt(types), order) == TotalSize(types) > 0
  {
    SumPermutes(SizeAt(types), order, Iota(|types|));
    assert Storable(types[0]);
    IotaPrefix(|types|, 1);
    SumGrows(SizeAt(types), Iota(|types|), 1, |types|);
    assert Iota(|types|)[..|types|] == Iota(|types|);
    assert Iota(1) == [] + [0];
    SumStep(SizeAt(types), [], 0);
  }

  lemma PaddedTotal(types: Types, m: nat, order: seq<nat>, rowTotal: nat, padding: nat)
    requires Padded(types, m, order, padding) && rowTotal == Sum(SizeAt(types), order)
    ensures RowsOf(m, rowTotal) + padding == Sum(ColumnAt(types, m), order)
  {
    hide Sum, RowsOf, ColumnAt, SizeAt;
  }

  /** Two or more rows with their bitmaps and the padding fit into a block. */
  lemma BlockHasRoom(types: Types, size: BlockSize, m: nat, order: seq<nat>, bits: nat, rowSize: nat, unaligned: nat)
    requires IsOrder(order, |types|) && rowSize == Sum(SizeAt(types), order) + bits && unaligned == NumBits(types)
    requires size.NBytes? && 7 * unaligned <= 8 * size.num && m >= 2 ==>
               RowsOf(m, rowSize) + 7 * unaligned <= 8 * size.num
    ensures size.NBytes? && 7 * unaligned <= 8 * size.num && m >= 2 ==>
              Sum(ColumnAt(types, m), order) + RowsOf(m, bits) <= 8 * size.num
  {
    hide Sum, ColumnAt, SizeAt, BitsAt, RowsOf;
    ColumnsBound(types, m, order);
    SumPermutes(BitsAt(types), order, Iota(|types|));
    RowsOfSum(m, Sum(SizeAt(types), order), bits);
    RowsOfMeans(m, bits);
    hide IsOrder;
  }

  /** The columns of a block do not overlap, start at whole bytes, and end before `size`. */
  ghost predicate BlockColumns(types: Types, m: nat, offsets: seq<nat>, size: nat) {
    && |offsets| == |types|
    && (forall a :: 0 <= a < |types| ==> offsets[a] % 8 == 0 && offsets[a] + m * types[a].size <= size)
    && forall a, b :: 0 <= a < |types| && 0 <= b < |types| && a != b ==>
         offsets[a] + m * types[a].size <= offsets[b] || offsets[b] + m * types[b].size <= offsets[a]
  }

  lemma ColumnsEnd(types: Types, order: seq<nat>, offsets: seq<nat>, m: nat)
    requires |offsets| == |types| && IsOrder(order, |types|) && Consecutive(ColumnAt(types, m), order, offsets, |order|)
    ensures BlockColumns(types, m, offsets, Sum(ColumnAt(types, m), order))
  {
    ConsecutiveColumns(ColumnAt(types, m), order, offsets);
    forall a: nat | a < |types| ensures offsets[a] % 8 == 0 {
      var k := IndexOf(order, |types|, a);
      ColumnsWhole(types, m, order[..k]);
    }
    hide Sum, IsOrder, Consecutive;
    forall a: nat | a < |types| ensures m * types[a].size <= ColumnAt(types, m)(a) {
      ColumnBound(types, m, a);
      RowsOfMeans(m, types[a].size);
    }
  }

  lemma PAXFacts(c: Child, n: nat, types: Types, bits: nat, offsets: seq<nat>, bitmapOffset: nat)
    requires AllStorable(types) && (bits == 0 || bits >= |types|) && c.offset == 0 && c.stride % 8 == 0 && c.stride > 0
    requires c.node.INode? && c.node.numTuples >= 1 && |c.node.children| == |types| + if bits > 0 then 1 else 0
    requires BlockColumns(types, c.node.numTuples, offsets, bitmapOffset)
    requires forall a :: 0 <= a < |types| ==> c.node.children[a] == Child(Leaf(Attribute), offsets[a], types[a].size)
    requires bits > 0 ==> c.node.children[|types|] == Child(Leaf(NullBitmap), bitmapOffset, bits)
    requires bitmapOffset % 8 == 0
    ensures Shaped(c, types, bits)
    ensures Asserted(c, n, types, bits) <==> c.node.numTuples >= 2 && n != 1 && WholeBytesOnly(types)
    ensures bitmapOffset + RowsOf(c.node.numTuples, bits) <= c.stride ==>
              && (c.node.numTuples >= 2 ==> Packs(c, types, bits))
              && (c.node.numTuples >= 2 && c.stride < WORD && WholeBytesOnly(types) ==>
                   WellFormed(c, 0) && Supported(c, 0))
  {
    assert IsPAX(c, types, bits, offsets, bitmapOffset);
    hide IsPAX, BlockColumns, Packs, Asserted, WellFormed, Supported, WholeBytesOnly;
    PAXAsserted(c, n, types, bits, offsets, bitmapOffset);
    if c.node.numTuples >= 2 && bitmapOffset + RowsOf(c.node.numTuples, bits) <= c.stride {
      PAXPacks(c, types, bits, offsets, bitmapOffset);
      if WholeBytesOnly(types) {
        PAXSupported(c, types, bits, offsets, bitmapOffset);
      }
    }
  }

  /** The leaves of a block: the stride of a leaf is the size of its attribute, also in a block for one row. */
  ghost predicate IsPAX(c: Child, types: Types, bits: nat, offsets: seq<nat>, bitmapOffset: nat) {
    && Shaped(c, types, bits) && |offsets| == |types|
    && (forall a :: 0 <= a < |types| ==> c.node.children[a] == Child(Leaf(Attribute), offsets[a], types[a].size))
    && (bits > 0 ==> c.node.children[|types|] == Child(Leaf(NullBitmap), bitmapOffset, bits))
  }

  lemma PAXAsserted(c: Child, n: nat, types: Types, bits: nat, offsets: seq<nat>, bitmapOffset: nat)
    requires AllStorable(types) && IsPAX(c, types, bits, offsets, bitmapOffset) && c.stride > 0
    requires BlockColumns(types, c.node.numTuples, offsets, bitmapOffset)
    ensures Asserted(c, n, types, bits) <==> c.node.numTuples >= 2 && n != 1 && WholeBytesOnly(types)
  {
    var m := c.node.numTuples;
    assert Storable(types[0]);
    if m == 1 {
      assert !AddsLeaf(m, !types[0].boolean, c.node.children[0].offset, c.node.children[0].stride);
    } else if !WholeBytesOnly(types) {
      var a :| 0 <= a < |types| && HalfByte(types[a]);
      assert !AddsLeaf(m, !types[a].boolean, c.node.children[a].offset, c.node.children[a].stride);
    } else {
      forall a | 0 <= a < |types|
        ensures AddsLeaf(m, !types[a].boolean, c.node.children[a].offset, c.node.children[a].stride)
      {
        assert Storable(types[a]);
      }
    }
  }

  lemma PAXPacks(c: Child, types: Types, bits: nat, offsets: seq<nat>, bitmapOffset: nat)
    requires IsPAX(c, types, bits, offsets, bitmapOffset) && (bits == 0 || bits >= |types|)
    requires BlockColumns(types, c.node.numTuples, offsets, bitmapOffset)
    requires bitmapOffset + c.node.numTuples * bits <= c.stride
    ensures Packs(c, types, bits)
  {
    assert forall a :: 0 <= a < |types| ==> ColumnEnd(c, types, a) == offsets[a] + c.node.numTuples * types[a].size;
    assert Strides(c, types, bits);
  }

  lemma ColumnSupported(c: Child, types: Types, bits: nat, offsets: seq<nat>, bitmapOffset: nat, i: nat)
    requires AllStorable(types) && IsPAX(c, types, bits, offsets, bitmapOffset) && Packs(c, types, bits)
    requires c.node.numTuples >= 2 && bitmapOffset % 8 == 0 && c.stride < WORD && i < |c.node.children|
             && WholeBytesOnly(types)
    requires BlockColumns(types, c.node.numTuples, offsets, bitmapOffset)
    ensures var (child, m) := (c.node.children[i], c.node.numTuples);
            WellFormed(child, m) && Supported(child, m) && Fits(child, m, c.stride)
  {
    var m := c.node.numTuples;
    if i < |types| {
      assert Storable(types[i]);
      assert ColumnEnd(c, types, i) <= c.stride;
      Repeated(m, 0, types[i].size);
    } else {
      Repeated(m, 0, bits);
    }
  }

  lemma PAXSupported(c: Child, types: Types, bits: nat, offsets: seq<nat>, bitmapOffset: nat)
    requires AllStorable(types) && IsPAX(c, types, bits, offsets, bitmapOffset) && Packs(c, types, bits)
    requires c.node.numTuples >= 2 && bitmapOffset % 8 == 0 && WholeBytesOnly(types)
    requires BlockColumns(types, c.node.numTuples, offsets, bitmapOffset)
    ensures c.stride < WORD ==> WellFormed(c, 0) && Supported(c, 0)
  {
    var m := c.node.numTuples;
    if c.stride < WORD {
      forall i | 0 <= i < |c.node.children|
        ensures WellFormed(c.node.children[i], m) && Supported(c.node.children[i], m)
                && Fits(c.node.children[i], m, c.stride)
      {
        ColumnSupported(c, types, bits, offsets, bitmapOffset, i);
      }
    }
  }

  /** A row of three thousand characters, in blocks of four kilobytes: no block has room for two. */
  lemma WideRow() returns (types: Types, size: BlockSize)
    ensures AllStorable(types) && size == NBytes(4096)
    ensures 2 * (TotalSize(types) + BitmapBits(types, false)) + 7 * NumBits(types) > 8 * size.num
  {
    types, size := [Type(24000, 8, false)], NBytes(4096);
    assert Iota(1) == [] + [0];
    SumStep(SizeAt(types), [], 0);
  }

  // ------------------------------------------------------------------------- a whole table

  function AttributesOf(types: Types, nullable: seq<bool>): Attributes
    requires |nullable| == |types|
  {
    seq(|types|, a requires 0 <= a < |types| => Attr(a, types[a].size, nullable[a]))
  }

  /** A table with a layout that a factory has made gives back what was stored in it, in order. */
  method StoreAndScan(types: Types, c: Child, bits: nat, nullable: seq<bool>, address: nat, tuples: seq<Tuple>)
    returns (result: seq<Tuple>)
    requires Packs(c, types, bits) && WellFormed(c, 0) && Supported(c, 0)
    requires |nullable| == |types| && (bits == 0 ==> true !in nullable)
    requires forall k :: 0 <= k < |tuples| ==> Typed(AttributesOf(types, nullable), tuples[k])
    ensures result == tuples
  {
    var attrs := AttributesOf(types, nullable);
    forall a | 0 <= a < |types| && attrs[a].nullable ensures bits > 0 {
      assert nullable[a] in nullable;
    }
    PackedIsNonOverlapping(c, types, bits, attrs, address);
    assert Lays(c, attrs, address);
    EmptyTable(map[], c, address, attrs);
    hide *;
    var mem := Append(map[], c, address, attrs, [], 0, tuples);
    assert [] + tuples == tuples;
    result := Scan(mem, c, address, attrs, |tuples|, tuples);
  }

  lemma EmptyTable(mem: Memory, c: Child, address: nat, attrs: Attributes)
    ensures Table(mem, c, address, attrs, [])
  {}
}
