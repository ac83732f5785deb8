/**
 * The index table: a tree of strides, each indexed by some bits of the index, most significant
 * first. It is a map from `index_len`-bit indices to pointers; higher bits are ignored.
 */
module Itable {
  import opened Bits
  import opened Numbers

  /** What a pointer slot holds: nothing, an element (in the last stride), or a further stride. */
  datatype Tree<V> = Null | Leaf(v: V) | Stride(kids: seq<Tree<V>>)

  /** The bits that the strides use together. */
  function Width(strides: seq<nat>): nat
  {
    if strides == [] then 0 else strides[0] + Width(strides[1..])
  }

  /** The place of an index in the first stride: shifted by the later strides' bits, masked to this stride's. */
  function Slot(strides: seq<nat>, index: nat): (r: nat)
    requires strides != []
    ensures r < Pow2(strides[0])
  {
    index / Pow2(Width(strides[1..])) % Pow2(strides[0])
  }

  ghost predicate Shaped<V>(strides: seq<nat>, t: Tree<V>)
    decreases |strides|
  {
    || t.Null?
    || (strides == [] && t.Leaf?)
    || (strides != [] && t.Stride? && |t.kids| == Pow2(strides[0])
        && forall i {:trigger Shaped(strides[1..], t.kids[i])} :: 0 <= i < |t.kids| ==> Shaped(strides[1..], t.kids[i]))
  }

  function Get<V>(strides: seq<nat>, t: Tree<V>, index: nat): Tree<V>
    requires Shaped(strides, t)
    decreases |strides|
  {
    if strides == [] || t.Null? then t else Get(strides[1..], t.kids[Slot(strides, index)], index)
  }

  // ----- indices and slots

  /** Two indices are the same to the table. */
  predicate Same(strides: seq<nat>, i: nat, j: nat)
  {
    i % Pow2(Width(strides)) == j % Pow2(Width(strides))
  }

  /** Division by the weight of a stride, inside the table's range. */
  lemma SplitMod(x: nat, p: nat, q: nat)
    requires p > 0 && q > 0
    ensures p * q > 0
    ensures x % (p * q) == p * (x / p % q) + x % p
  {
    var a, b := x / p, x % p;
    SplitAt(x, p, q, a, b, a / q, a % q);
  }

  lemma SplitAt(x: nat, p: nat, q: nat, a: nat, b: nat, c: nat, d: nat)
    requires p > 0 && q > 0 && x == p * a + b && b < p && a == q * c + d && d < q
    ensures p * q > 0 && x % (p * q) == p * d + b
  {
    assert p * (q * c + d) == (p * q) * c + p * d;
    MulMono(p, d, q - 1);
    assert p * (q - 1) == p * q - p;
    DivUnique(x, p * q, c, p * d + b);
  }

  /** An index in the table's range, from its slot in the first stride and what is below. */
  lemma SlotSplit(strides: seq<nat>, x: nat)
    requires strides != []
    ensures var p := Pow2(Width(strides[1..]));
            x % Pow2(Width(strides)) == p * Slot(strides, x) + x % p
  {
    var p, q := Pow2(Width(strides[1..])), Pow2(strides[0]);
    Pow2Add(Width(strides[1..]), strides[0]);
    SplitMod(x, p, q);
  }

  lemma SameSlot(strides: seq<nat>, i: nat, j: nat)
    requires strides != []
    ensures Same(strides, i, j) <==> Slot(strides, i) == Slot(strides, j) && Same(strides[1..], i, j)
  {
    var p := Pow2(Width(strides[1..]));
    SlotSplit(strides, i);
    SlotSplit(strides, j);
    if Same(strides, i, j) {
      var x := i % Pow2(Width(strides));
      DivUnique(x, p, Slot(strides, i), i % p);
      DivUnique(x, p, Slot(strides, j), j % p);
    }
  }

  // ----- storing and deleting

  function Fresh<V>(n: nat): (r: seq<Tree<V>>)
    ensures |r| == n && forall i :: 0 <= i < n ==> r[i].Null?
  {
    seq(n, _ => Null)
  }

  /** The strides on the way are made where they are missing. */
  function Put<V>(strides: seq<nat>, t: Tree<V>, index: nat, data: Tree<V>): Tree<V>
    requires Shaped(strides, t)
    decreases |strides|
  {
    if strides == [] then data
    else
      var kids := if t.Null? then Fresh(Pow2(strides[0])) else t.kids;
      var id := Slot(strides, index);
      Stride(kids[id := Put(strides[1..], kids[id], index, data)])
  }

  predicate Empty<V>(kids: seq<Tree<V>>)
  {
    forall i {:trigger kids[i]} :: 0 <= i < |kids| ==> kids[i].Null?
  }

  /** A stride that becomes empty is deleted, and then the stride above it may be. */
  function Drop<V>(strides: seq<nat>, t: Tree<V>, index: nat): Tree<V>
    requires Shaped(strides, t)
    decreases |strides|
  {
    if strides == [] || t.Null? then Null
    else
      var id := Slot(strides, index);
      var kid := Drop(strides[1..], t.kids[id], index);
      var kids := t.kids[id := kid];
      if kid.Null? && !t.kids[id].Null? && Empty(kids) then Null else Stride(kids)
  }

  lemma {:induction false} PutGet<V>(strides: seq<nat>, t: Tree<V>, i: nat, data: Tree<V>, j: nat)
    requires Shaped(strides, t) && !data.Stride?
    ensures Shaped(strides, Put(strides, t, i, data))
    ensures Get(strides, Put(strides, t, i, data), j) == if Same(strides, i, j) then data else Get(strides, t, j)
    decreases |strides|
  {
    if strides != [] {
      var rest, id := strides[1..], Slot(strides, i);
      var kids := if t.Null? then Fresh<V>(Pow2(strides[0])) else t.kids;
      PutGet(rest, kids[id], i, data, j);
      SameSlot(strides, i, j);
      var u := Put(strides, t, i, data);
      forall x | 0 <= x < |u.kids| ensures Shaped(rest, u.kids[x]) {
        if x != id { assert Shaped(rest, kids[x]); }
      }
    }
  }

  lemma {:induction false} DropGet<V>(strides: seq<nat>, t: Tree<V>, i: nat, j: nat)
    requires Shaped(strides, t)
    ensures Shaped(strides, Drop(strides, t, i))
    ensures Get(strides, Drop(strides, t, i), j) == if Same(strides, i, j) then Null else Get(strides, t, j)
    decreases |strides|
  {
    if strides != [] && !t.Null? {
      var rest, id := strides[1..], Slot(strides, i);
      DropGet(rest, t.kids[id], i, j);
      SameSlot(strides, i, j);
      var kid := Drop(rest, t.kids[id], i);
      var kids := t.kids[id := kid];
      forall x | 0 <= x < |kids| ensures Shaped(rest, kids[x]) {
        if x != id { assert Shaped(rest, t.kids[x]); }
      }
      var k := Slot(strides, j);
      if k == id {
        assert kids[k] == kid;
      } else {
        assert kids[k] == t.kids[k];
      }
    }
  }

  // ----- no empty stride

  ghost predicate Tight<V>(strides: seq<nat>, t: Tree<V>)
    requires Shaped(strides, t)
    decreases |strides|
  {
    strides != [] && t.Stride? ==>
      && !Empty(t.kids)
      && forall i {:trigger Tight(strides[1..], t.kids[i])} :: 0 <= i < |t.kids| ==> Tight(strides[1..], t.kids[i])
  }

  lemma {:induction false} PutTight<V>(strides: seq<nat>, t: Tree<V>, index: nat, v: V)
    requires Shaped(strides, t) && Tight(strides, t)
    ensures Shaped(strides, Put(strides, t, index, Leaf(v))) && Tight(strides, Put(strides, t, index, Leaf(v)))
    ensures !Put(strides, t, index, Leaf(v)).Null?
    decreases |strides|
  {
    PutGet(strides, t, index, Leaf(v), index);
    if strides != [] {
      var rest, id := strides[1..], Slot(strides, index);
      var kids := if t.Null? then Fresh<V>(Pow2(strides[0])) else t.kids;
      PutTight(rest, kids[id], index, v);
      var u := Put(strides, t, index, Leaf(v));
      assert !u.kids[id].Null?;
      forall x | 0 <= x < |u.kids| ensures Tight(rest, u.kids[x]) {
        if x != id { assert Tight(rest, kids[x]); }
      }
    }
  }

  /** The last stride on the way of an index is there and holds an element at another index. */
  ghost predicate SharesStride<V>(strides: seq<nat>, t: Tree<V>, index: nat)
    requires strides != [] && Shaped(strides, t)
    decreases |strides|
  {
    && t.Stride?
    && var id := Slot(strides, index);
       if |strides| == 1 then exists x :: 0 <= x < |t.kids| && x != id && !t.kids[x].Null?
       else SharesStride(strides[1..], t.kids[id], index)
  }

  /** Storing a null pointer leaves no empty stride exactly if the last stride has another element. */
  lemma {:induction false} NullTightIff<V>(strides: seq<nat>, t: Tree<V>, index: nat)
    requires strides != [] && Shaped(strides, t) && Tight(strides, t)
    ensures Shaped(strides, Put(strides, t, index, Null)) && !Put(strides, t, index, Null).Null?
    ensures Tight(strides, Put(strides, t, index, Null)) <==> SharesStride(strides, t, index)
    decreases |strides|
  {
    PutGet(strides, t, index, Null, index);
    var rest, id := strides[1..], Slot(strides, index);
    var kids := if t.Null? then Fresh<V>(Pow2(strides[0])) else t.kids;
    var u := Put(strides, t, index, Null);
    if |strides| == 1 {
      assert u == Stride(kids[id := Null]);
      if SharesStride(strides, t, index) {
        var x :| 0 <= x < |t.kids| && x != id && !t.kids[x].Null?;
        assert !u.kids[x].Null?;
      }
    } else {
      NullTightIff(rest, kids[id], index);
      assert Tight(rest, u.kids[id]) <==> SharesStride(rest, kids[id], index);
      if SharesStride(rest, kids[id], index) {
        forall x | 0 <= x < |u.kids| ensures Tight(rest, u.kids[x]) {
          if x != id { assert Tight(rest, kids[x]); }
        }
        assert !u.kids[id].Null?;
      }
    }
  }

  lemma {:induction false} DropTight<V>(strides: seq<nat>, t: Tree<V>, index: nat)
    requires Shaped(strides, t) && Tight(strides, t)
    ensures Shaped(strides, Drop(strides, t, index)) && Tight(strides, Drop(strides, t, index))
    decreases |strides|
  {
    DropGet(strides, t, index, index);
    if strides != [] && !t.Null? {
      var rest, id := strides[1..], Slot(strides, index);
      DropTight(rest, t.kids[id], index);
      var kid := Drop(rest, t.kids[id], index);
      var kids := t.kids[id := kid];
      forall x | 0 <= x < |kids| ensures Tight(rest, kids[x]) {
        if x != id { assert Tight(rest, t.kids[x]); }
      }
      if t.kids[id].Null? {
        assert kids == t.kids;
      } else if !kid.Null? {
        assert !kids[id].Null?;
      }
    }
  }

  /** A tree without empty strides that is not null holds some element. */
  lemma {:induction false} TightHolds<V>(strides: seq<nat>, t: Tree<V>) returns (index: nat)
    requires Shaped(strides, t) && Tight(strides, t) && !t.Null?
    ensures index < Pow2(Width(strides)) && Get(strides, t, index).Leaf?
    decreases |strides|
  {
    if strides == [] {
      index := 0;
    } else {
      var rest := strides[1..];
      var x :| 0 <= x < |t.kids| && !t.kids[x].Null?;
      assert Tight(rest, t.kids[x]) && Shaped(rest, t.kids[x]);
      var low := TightHolds(rest, t.kids[x]);
      var p := Pow2(Width(rest));
      index := p * x + low;
      Composed(strides, x, low);
      SameGet(rest, t.kids[x], low, index);
    }
  }

  lemma BelowProduct(p: nat, q: nat, x: nat, low: nat)
    requires x < q && low < p
    ensures p * x + low < p * q
  {
    MulMono(p, x, q - 1);
    assert p * (q - 1) == p * q - p;
  }

  /** Building an index from a slot and a lower part. */
  lemma Composed(strides: seq<nat>, x: nat, low: nat)
    requires strides != [] && x < Pow2(strides[0]) && low < Pow2(Width(strides[1..]))
    ensures var index := Pow2(Width(strides[1..])) * x + low;
            index < Pow2(Width(strides)) && Slot(strides, index) == x && Same(strides[1..], index, low)
  {
    var p, q := Pow2(Width(strides[1..])), Pow2(strides[0]);
    Pow2Add(Width(strides[1..]), strides[0]);
    BelowProduct(p, q, x, low);
    ComposedAt(p, q, x, low);
  }

  lemma ComposedAt(p: nat, q: nat, x: nat, low: nat)
    requires x < q && low < p
    ensures (p * x + low) / p % q == x && (p * x + low) % p == low % p
  {
    DivUnique(p * x + low, p, x, low);
    DivUnique(x, q, 0, x);
    DivUnique(low, p, 0, low);
  }

  lemma {:induction false} SameGet<V>(strides: seq<nat>, t: Tree<V>, i: nat, j: nat)
    requires Shaped(strides, t) && Same(strides, i, j)
    ensures Get(strides, t, i) == Get(strides, t, j)
    decreases |strides|
  {
    if strides != [] && !t.Null? {
      SameSlot(strides, i, j);
      SameGet(strides[1..], t.kids[Slot(strides, i)], i, j);
    }
  }

  // ----- traversal

  datatype Item<V> = Item(index: nat, v: V)

  /** The elements from index `marker` on, in the order of the walk; `base` is the part of the index above. */
  function Visit<V>(strides: seq<nat>, t: Tree<V>, base: nat, marker: nat): seq<Item<V>>
    requires Shaped(strides, t)
    decreases |strides|, 0, 0
  {
    if t.Null? then []
    else if strides == [] then if base >= marker then [Item(base, t.v)] else []
    else VisitFrom(strides, t, 0, base, marker)
  }

  function VisitFrom<V>(strides: seq<nat>, t: Tree<V>, x: nat, base: nat, marker: nat): seq<Item<V>>
    requires strides != [] && t.Stride? && Shaped(strides, t) && x <= |t.kids|
    decreases |strides| - 1, 1, |t.kids| - x
  {
    if x == |t.kids| then []
    else
      var here := Visit(strides[1..], t.kids[x], base + Pow2(Width(strides[1..])) * x, marker);
      here + VisitFrom(strides, t, x + 1, base, marker)
  }

  /** The items lie in a range of indices, in strictly ascending order. */
  predicate Ascending<V>(items: seq<Item<V>>, low: nat, high: nat)
  {
    && (forall i {:trigger items[i]} :: 0 <= i < |items| ==> low <= items[i].index < high)
    && (forall i, j {:trigger items[i], items[j]} :: 0 <= i < j < |items| ==> items[i].index < items[j].index)
  }

  lemma AscendingConcat<V>(a: seq<Item<V>>, b: seq<Item<V>>, low: nat, mid: nat, high: nat)
    requires Ascending(a, low, mid) && Ascending(b, mid, high) && low <= mid <= high
    ensures Ascending(a + b, low, high)
  {
  }

  lemma {:induction false} VisitAscends<V>(strides: seq<nat>, t: Tree<V>, base: nat, marker: nat)
    requires Shaped(strides, t)
    ensures Ascending(Visit(strides, t, base, marker), base, base + Pow2(Width(strides)))
    decreases |strides|, 0, 0
  {
    if !t.Null? && strides != [] {
      VisitFromAscends(strides, t, 0, base, marker);
    }
  }

  lemma {:induction false} VisitFromAscends<V>(strides: seq<nat>, t: Tree<V>, x: nat, base: nat, marker: nat)
    requires strides != [] && t.Stride? && Shaped(strides, t) && x <= |t.kids|
    ensures Ascending(VisitFrom(strides, t, x, base, marker),
                      base + Pow2(Width(strides[1..])) * x, base + Pow2(Width(strides)))
    decreases |strides| - 1, 1, |t.kids| - x
  {
    var p := Pow2(Width(strides[1..]));
    Pow2Add(Width(strides[1..]), strides[0]);
    if x < |t.kids| {
      VisitAscends(strides[1..], t.kids[x], base + p * x, marker);
      VisitFromAscends(strides, t, x + 1, base, marker);
      assert p * (x + 1) == p * x + p;
      MulMono(p, x + 1, |t.kids|);
      AscendingConcat(Visit(strides[1..], t.kids[x], base + p * x, marker), VisitFrom(strides, t, x + 1, base, marker),
                      base + p * x, base + p * (x + 1), base + Pow2(Width(strides)));
    }
  }

  /** Each element of the table's range is visited exactly if it is not below the marker. */
  lemma {:induction false} VisitExact<V>(strides: seq<nat>, t: Tree<V>, base: nat, marker: nat, low: nat, v: V)
    requires Shaped(strides, t) && low < Pow2(Width(strides))
    ensures Item(base + low, v) in Visit(strides, t, base, marker) <==>
              base + low >= marker && Get(strides, t, low) == Leaf(v)
    decreases |strides|, 0, 0
  {
    if !t.Null? && strides != [] {
      VisitFromExact(strides, t, 0, base, marker, low, v);
    }
  }

  lemma {:induction false} VisitFromExact<V>(strides: seq<nat>, t: Tree<V>, x: nat, base: nat, marker: nat, low: nat,
                                             v: V)
    requires strides != [] && t.Stride? && Shaped(strides, t) && x <= |t.kids| && low < Pow2(Width(strides))
    ensures Item(base + low, v) in VisitFrom(strides, t, x, base, marker) <==>
              Slot(strides, low) >= x && base + low >= marker && Get(strides, t, low) == Leaf(v)
    decreases |strides| - 1, 1, |t.kids| - x
  {
    var rest := strides[1..];
    var p := Pow2(Width(rest));
    SlotSplit(strides, low);
    DivUnique(low, Pow2(Width(strides)), 0, low);
    var id, r := Slot(strides, low), low % p;
    if x < |t.kids| {
      VisitFromExact(strides, t, x + 1, base, marker, low, v);
      var here := base + p * x;
      if id == x {
        VisitExact(rest, t.kids[x], here, marker, r, v);
        DivUnique(r, p, 0, r);
        SameGet(rest, t.kids[x], r, low);
      } else {
        VisitAscends(rest, t.kids[x], here, marker);
        NotInRange(p, id, x, r);
      }
    }
  }

  lemma NotInRange(p: nat, id: nat, x: nat, r: nat)
    requires id != x && r < p
    ensures p * id + r < p * x || p * id + r >= p * x + p
  {
    if id < x {
      MulMono(p, id + 1, x);
      assert p * (id + 1) == p * id + p;
    } else {
      MulMono(p, x + 1, id);
      assert p * (x + 1) == p * x + p;
    }
  }

  // ----- a callback whose result of zero or less stops the traversal

  predicate Stops<V>(items: seq<Item<V>>, func: nat -> int)
  {
    items != [] && (func(items[0].index) <= 0 || Stops(items[1..], func))
  }

  /** The items up to the first at which the callback stops, that one included. */
  function UpTo<V>(items: seq<Item<V>>, func: nat -> int): seq<Item<V>>
  {
    if items == [] then []
    else if func(items[0].index) <= 0 then [items[0]]
    else [items[0]] + UpTo(items[1..], func)
  }

  lemma {:induction false} UpToConcat<V>(a: seq<Item<V>>, b: seq<Item<V>>, func: nat -> int)
    ensures Stops(a + b, func) == (Stops(a, func) || Stops(b, func))
    ensures UpTo(a + b, func) == if Stops(a, func) then UpTo(a, func) else a + UpTo(b, func)
  {
    if a == [] {
      assert a + b == b;
    } else {
      assert (a + b)[1..] == a[1..] + b;
      UpToConcat(a[1..], b, func);
      if !Stops(a, func) { assert [a[0]] + (a[1..] + UpTo(b, func)) == a + UpTo(b, func); }
    }
  }

  lemma {:induction false} UpToAll<V>(a: seq<Item<V>>, func: nat -> int)
    requires !Stops(a, func)
    ensures UpTo(a, func) == a
  {
    if a != [] { UpToAll(a[1..], func); }
  }

  // ----- the table is a map

  /** The tree holds exactly the map, which has no index out of range. */
  ghost predicate Represents<V>(strides: seq<nat>, t: Tree<V>, m: map<nat, V>)
    requires Shaped(strides, t)
  {
    && (forall i: nat {:trigger i in m} :: i in m ==> i < Pow2(Width(strides)))
    && (forall i: nat {:trigger Get(strides, t, i)} :: i < Pow2(Width(strides)) ==>
          Get(strides, t, i) == if i in m then Leaf(m[i]) else Null)
  }

  datatype Op<V> = Store(index: nat, v: V) | StoreNull(index: nat) | Delete(index: nat)

  /** The tree after some operations on an empty table. */
  ghost function Run<V>(strides: seq<nat>, ops: seq<Op<V>>): (t: Tree<V>)
    ensures Shaped(strides, t)
  {
    if ops == [] then Null
    else
      var t := Run(strides, ops[..|ops| - 1]);
      match ops[|ops| - 1]
      case Store(i, v) => PutGet(strides, t, i, Leaf(v), 0); Put(strides, t, i, Leaf(v))
      case StoreNull(i) => PutGet(strides, t, i, Null, 0); Put(strides, t, i, Null)
      case Delete(i) => DropGet(strides, t, i, 0); Drop(strides, t, i)
  }

  /** The map after the same operations, on the index bits that count. */
  ghost function RunMap<V>(strides: seq<nat>, ops: seq<Op<V>>): map<nat, V>
  {
    if ops == [] then map[]
    else
      var m := RunMap(strides, ops[..|ops| - 1]);
      match ops[|ops| - 1]
      case Store(i, v) => m[i % Pow2(Width(strides)) := v]
      case StoreNull(i) => m - {i % Pow2(Width(strides))}
      case Delete(i) => m - {i % Pow2(Width(strides))}
  }

  lemma StoreRepresents<V>(strides: seq<nat>, t: Tree<V>, m: map<nat, V>, index: nat, v: V)
    requires Shaped(strides, t) && Represents(strides, t, m)
    ensures Shaped(strides, Put(strides, t, index, Leaf(v)))
    ensures Represents(strides, Put(strides, t, index, Leaf(v)), m[index % Pow2(Width(strides)) := v])
  {
    var n := Pow2(Width(strides));
    PutGet(strides, t, index, Leaf(v), 0);
    forall i: nat | i < n
      ensures Get(strides, Put(strides, t, index, Leaf(v)), i) ==
              if i in m[index % n := v] then Leaf(m[index % n := v][i]) else Null
    {
      PutGet(strides, t, index, Leaf(v), i);
      DivUnique(i, n, 0, i);
    }
  }

  lemma StoreNullRepresents<V>(strides: seq<nat>, t: Tree<V>, m: map<nat, V>, index: nat)
    requires Shaped(strides, t) && Represents(strides, t, m)
    ensures Shaped(strides, Put(strides, t, index, Null))
    ensures Represents(strides, Put(strides, t, index, Null), m - {index % Pow2(Width(strides))})
  {
    var n := Pow2(Width(strides));
    PutGet(strides, t, index, Null, 0);
    forall i: nat | i < n
      ensures Get(strides, Put(strides, t, index, Null), i)
           == if i in m - {index % n} then Leaf((m - {index % n})[i]) else Null
    {
      PutGet(strides, t, index, Null, i);
      DivUnique(i, n, 0, i);
    }
  }

  lemma DeleteRepresents<V>(strides: seq<nat>, t: Tree<V>, m: map<nat, V>, index: nat)
    requires Shaped(strides, t) && Represents(strides, t, m)
    ensures Shaped(strides, Drop(strides, t, index))
    ensures Represents(strides, Drop(strides, t, index), m - {index % Pow2(Width(strides))})
  {
    var n := Pow2(Width(strides));
    DropGet(strides, t, index, 0);
    forall i: nat | i < n
      ensures Get(strides, Drop(strides, t, index), i) == if i in m - {index % n} then Leaf((m - {index % n})[i])
        else Null
    {
      DropGet(strides, t, index, i);
      DivUnique(i, n, 0, i);
    }
  }

  /** No null pointer has been stored where that leaves an empty stride. */
  ghost predicate Careful<V>(strides: seq<nat>, ops: seq<Op<V>>)
    requires strides != []
  {
    forall k {:trigger ops[k]} :: 0 <= k < |ops| && ops[k].StoreNull? ==>
      SharesStride(strides, Run(strides, ops[..k]), ops[k].index)
  }

  /** After every sequence of stores, also of null pointers, and deletes, for every split, the table holds the map. */
  lemma {:induction false} RunRepresents<V>(strides: seq<nat>, ops: seq<Op<V>>)
    ensures Represents(strides, Run(strides, ops), RunMap(strides, ops))
  {
    if ops != [] {
      var before, op := ops[..|ops| - 1], ops[|ops| - 1];
      RunRepresents(strides, before);
      match op
      case Store(i, v) => StoreRepresents(strides, Run(strides, before), RunMap(strides, before), i, v);
      case StoreNull(i) => StoreNullRepresents(strides, Run(strides, before), RunMap(strides, before), i);
      case Delete(i) => DeleteRepresents(strides, Run(strides, before), RunMap(strides, before), i);
    }
  }

  /** It has no empty stride, and has no root exactly when the map is empty, if null pointers are stored with care. */
  lemma {:induction false} RunTight<V>(strides: seq<nat>, ops: seq<Op<V>>)
    requires strides != [] && Careful(strides, ops)
    ensures Tight(strides, Run(strides, ops))
    ensures Run(strides, ops).Null? <==> RunMap(strides, ops) == map[]
  {
    if ops != [] {
      var n := |ops| - 1;
      var before := ops[..n];
      forall k | 0 <= k < n && before[k].StoreNull?
        ensures SharesStride(strides, Run(strides, before[..k]), before[k].index)
      {
        assert before[..k] == ops[..k] && before[k] == ops[k];
      }
      RunTight(strides, before);
      match ops[n]
      case Store(i, v) => PutTight(strides, Run(strides, before), i, v);
      case StoreNull(i) => NullTightIff(strides, Run(strides, before), i);
      case Delete(i) => DropTight(strides, Run(strides, before), i);
    }
    RunRepresents(strides, ops);
    RootNull(strides, Run(strides, ops), RunMap(strides, ops));
  }

  lemma RootNull<V>(strides: seq<nat>, t: Tree<V>, m: map<nat, V>)
    requires Shaped(strides, t) && Represents(strides, t, m) && Tight(strides, t)
    ensures t.Null? <==> m == map[]
  {
    if t.Null? {
      forall i: nat ensures i !in m {
        assert Get(strides, t, i) == Null;
      }
    } else {
      var index := TightHolds(strides, t);
      assert index in m;
    }
  }

  /** A traversal yields the items of the map from the marker on, each once, in ascending order. */
  lemma TraversalIsMap<V>(strides: seq<nat>, t: Tree<V>, m: map<nat, V>, marker: nat, i: nat, v: V)
    requires Shaped(strides, t) && Represents(strides, t, m)
    ensures Item(i, v) in Visit(strides, t, 0, marker) <==> i in m && m[i] == v && i >= marker
    ensures Ascending(Visit(strides, t, 0, marker), 0, Pow2(Width(strides)))
  {
    VisitAscends(strides, t, 0, marker);
    if i < Pow2(Width(strides)) {
      VisitExact(strides, t, 0, marker, i, v);
    }
  }

  /** Storing a null pointer leaves strides without elements: the table is empty but has a root. */
  lemma NullLeavesStrides()
    ensures var t := Put<int>([1, 1], Null, 0, Null);
            Shaped([1, 1], t) && Represents([1, 1], t, map[]) && !t.Null? && !Tight([1, 1], t)
  {
    StoreNullRepresents<int>([1, 1], Null, map[], 0);
    NullTightIff<int>([1, 1], Null, 0);
  }

  // ----- freeing the table

  /** A stride, by the slots that lead to it. */
  type Path = seq<nat>

  /**
   * The strides of a tree, those below a stride before it. With `inner` these are all of them; without,
   * they are those that are freed with the table: the root and the last ones, since the pointer to one
   * in between is cleared before it is freed.
   */
  function Strides<V>(strides: seq<nat>, t: Tree<V>, path: Path, inner: bool): seq<Path>
    requires Shaped(strides, t)
    decreases |strides|, 0, 0
  {
    if t.Null? || strides == [] then []
    else if |strides| == 1 then [path]
    else StridesFrom(strides, t, 0, path, inner) + if inner || path == [] then [path] else []
  }

  function StridesFrom<V>(strides: seq<nat>, t: Tree<V>, x: nat, path: Path, inner: bool): seq<Path>
    requires strides != [] && t.Stride? && Shaped(strides, t) && x <= |t.kids|
    decreases |strides| - 1, 1, |t.kids| - x
  {
    if x == |t.kids| then []
    else Strides(strides[1..], t.kids[x], path + [x], inner) + StridesFrom(strides, t, x + 1, path, inner)
  }

  lemma {:induction false} FreedAtMost<V>(strides: seq<nat>, t: Tree<V>, path: Path)
    requires Shaped(strides, t)
    ensures |Strides(strides, t, path, false)| <= |Strides(strides, t, path, true)|
    ensures |strides| > 1 && path != [] && !t.Null? ==>
              |Strides(strides, t, path, false)| < |Strides(strides, t, path, true)|
    decreases |strides|, 0, 0
  {
    if !t.Null? && |strides| > 1 {
      FreedFromAtMost(strides, t, 0, path);
    }
  }

  lemma {:induction false} FreedFromAtMost<V>(strides: seq<nat>, t: Tree<V>, x: nat, path: Path)
    requires strides != [] && t.Stride? && Shaped(strides, t) && x <= |t.kids|
    ensures |StridesFrom(strides, t, x, path, false)| <= |StridesFrom(strides, t, x, path, true)|
    ensures |strides| > 2 && (exists i :: x <= i < |t.kids| && !t.kids[i].Null?) ==>
              |StridesFrom(strides, t, x, path, false)| < |StridesFrom(strides, t, x, path, true)|
    decreases |strides| - 1, 1, |t.kids| - x
  {
    if x < |t.kids| {
      FreedAtMost(strides[1..], t.kids[x], path + [x]);
      FreedFromAtMost(strides, t, x + 1, path);
    }
  }

  lemma {:induction false} LastFreed<V>(strides: seq<nat>, t: Tree<V>, x: nat, path: Path)
    requires |strides| == 2 && t.Stride? && Shaped(strides, t) && x <= |t.kids|
    ensures StridesFrom(strides, t, x, path, false) == StridesFrom(strides, t, x, path, true)
    decreases |t.kids| - x
  {
    if x < |t.kids| {
      LastFreed(strides, t, x + 1, path);
    }
  }

  /** Freeing a table that is in use frees every stride, and each once, exactly if there are two strides. */
  lemma ExitFreesAllIff<V>(strides: seq<nat>, t: Tree<V>)
    requires |strides| >= 2 && Shaped(strides, t) && Tight(strides, t) && !t.Null?
    ensures Strides(strides, t, [], false) == Strides(strides, t, [], true) <==> |strides| == 2
  {
    if |strides| == 2 {
      LastFreed(strides, t, 0, []);
    } else {
      FreedFromAtMost(strides, t, 0, []);
    }
  }
}
