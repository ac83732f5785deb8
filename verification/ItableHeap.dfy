/** The index table as it is in memory: strides are arrays of pointers, filled and cleared in place. */
module ItableHeap {
  import opened Bits
  import opened Itable

  /** What is stored: a pointer that is not null. */
  type Data = d: int | d != 0 witness 1

  datatype Cell = Nil | Element(d: Data) | Below(node: Node)

  ghost function CellRepr(c: Cell): set<object>
    reads if c.Below? then {c.node} else {}
  {
    if c.Below? then c.node.repr else {}
  }

  ghost function CellView(c: Cell): Tree<Data>
    reads if c.Below? then {c.node} else {}
  {
    match c
    case Nil => Null
    case Element(d) => Leaf(d)
    case Below(node) => Stride(node.view)
  }

  class Node {
    const slots: array<Cell>
    ghost var view: seq<Tree<Data>>
    ghost var repr: set<object>

    ghost predicate Valid(strides: seq<nat>)
      reads this, repr
      decreases |strides|
    {
      && this in repr && slots in repr && strides != []
      && slots.Length == Pow2(strides[0]) == |view|
      && (forall i :: 0 <= i < slots.Length ==> ValidCell(slots[i], strides))
      && (forall i :: 0 <= i < slots.Length ==> view[i] == CellView(slots[i]))
      && (forall i, j :: 0 <= i < j < slots.Length ==> CellRepr(slots[i]) !! CellRepr(slots[j]))
    }

    ghost predicate ValidCell(c: Cell, strides: seq<nat>)
      requires strides != []
      reads this, repr
      decreases |strides|, 0
    {
      && (c.Element? ==> |strides| == 1)
      && (c.Below? ==>
            && |strides| > 1
            && c.node in repr && c.node in c.node.repr && c.node.repr <= repr
            && this !in c.node.repr && slots !in c.node.repr
            && c.node.Valid(strides[1..]))
    }

    constructor (n: nat)
      ensures fresh(repr) && slots.Length == n && view == Fresh<Data>(n)
      ensures forall strides {:trigger Valid(strides)} :: strides != [] && Pow2(strides[0]) == n ==> Valid(strides)
    {
      slots := new Cell[n](_ => Nil);
      view := Fresh<Data>(n);
      new;
      repr := {this, slots};
    }

    /** Overwrites slot `i` with nothing or an element. */
    method SetCell(i: nat, c: Cell, strides: seq<nat>)
      requires Valid(strides) && i < slots.Length && !c.Below? && (c.Element? ==> |strides| == 1)
      modifies this, slots
      ensures Valid(strides) && repr == old(repr) && view == old(view)[i := CellView(c)]
    {
      slots[i] := c;
      view := view[i := CellView(c)];
    }

    method IsEmpty(strides: seq<nat>) returns (r: bool)
      requires Valid(strides)
      ensures r <==> Empty(view)
    {
      for i := 0 to slots.Length
        invariant forall k :: 0 <= k < i ==> view[k].Null?
      {
        assert view[i] == CellView(slots[i]);
        if !slots[i].Nil? {
          return false;
        }
      }
      r := true;
    }

    /** Takes in what the stride below slot `i` has become. */
    ghost method Absorb(i: nat, strides: seq<nat>)
      requires this in repr && slots in repr && |strides| > 1 && slots.Length == Pow2(strides[0]) == |view|
      requires i < slots.Length && slots[i].Below?
      requires slots[i].node in CellRepr(slots[i]) && this !in CellRepr(slots[i]) && slots !in CellRepr(slots[i])
      requires slots[i].node.Valid(strides[1..])
      requires forall j :: 0 <= j < slots.Length && j != i ==>
        ValidCell(slots[j], strides) && view[j] == CellView(slots[j])
      requires forall j :: 0 <= j < slots.Length && j != i ==> CellRepr(slots[j]) !! CellRepr(slots[i])
      requires forall j, k :: 0 <= j < k < slots.Length && j != i && k != i ==> CellRepr(slots[j]) !! CellRepr(slots[k])
      modifies this
      ensures Valid(strides) && repr == old(repr) + CellRepr(slots[i])
      ensures view == old(view)[i := CellView(slots[i])]
    {
      repr := repr + CellRepr(slots[i]);
      view := view[i := CellView(slots[i])];
    }

    /** Makes the stride below slot `i` if there is none. */
    method Grow(i: nat, strides: seq<nat>)
      requires Valid(strides) && i < slots.Length && |strides| > 1
      modifies this, slots
      ensures Valid(strides) && slots[i].Below? && fresh(repr - old(repr))
      ensures view == old(view)[i := if old(view)[i].Null? then Stride(Fresh<Data>(Pow2(strides[1]))) else old(view)[i]]
    {
      assert view[i] == CellView(slots[i]);
      if slots[i].Nil? {
        var c := new Node(Pow2(strides[1]));
        slots[i] := Below(c);
        assert c.Valid(strides[1..]);
        forall j | 0 <= j < slots.Length && j != i
          ensures ValidCell(slots[j], strides) && CellRepr(slots[j]) !! CellRepr(slots[i])
        {
          assert old(ValidCell(slots[j], strides));
        }
        Absorb(i, strides);
      } else {
        assert ValidCell(slots[i], strides);
        assert view == view[i := view[i]];
      }
    }

    /** Stores in the tree below this stride and returns what was there. */
    method Set(strides: seq<nat>, index: nat, c: Cell) returns (was: Cell)
      requires Valid(strides) && !c.Below? && Shaped(strides, Stride(view))
      modifies repr
      ensures Valid(strides) && fresh(repr - old(repr))
      ensures Stride(view) == Put(strides, Stride(old(view)), index, CellView(c))
      ensures !was.Below? && CellView(was) == Get(strides, Stride(old(view)), index)
      decreases |strides|, 1
    {
      var id := Slot(strides, index);
      if |strides| == 1 {
        was := SetLast(strides, index, c);
      } else {
        GrowThenPut(strides, view, index, CellView(c));
        Grow(id, strides);
        was := SetBelow(id, strides, index, c);
      }
    }

    method SetLast(strides: seq<nat>, index: nat, c: Cell) returns (was: Cell)
      requires Valid(strides) && !c.Below? && Shaped(strides, Stride(view)) && |strides| == 1
      modifies this, slots
      ensures Valid(strides) && repr == old(repr)
      ensures Stride(view) == Put(strides, Stride(old(view)), index, CellView(c))
      ensures !was.Below? && CellView(was) == Get(strides, Stride(old(view)), index)
    {
      var id := Slot(strides, index);
      assert view[id] == CellView(slots[id]) && ValidCell(slots[id], strides);
      was := slots[id];
      SetCell(id, c, strides);
    }

    method SetBelow(id: nat, strides: seq<nat>, index: nat, c: Cell) returns (was: Cell)
      requires Valid(strides) && id < slots.Length && slots[id].Below? && !c.Below? && Shaped(strides[1..], view[id])
      modifies repr
      ensures Valid(strides) && fresh(repr - old(repr))
      ensures view == old(view)[id := Put(strides[1..], old(view)[id], index, CellView(c))]
      ensures !was.Below? && CellView(was) == Get(strides[1..], old(view)[id], index)
      decreases |strides|, 0
    {
      var n := slots[id].node;
      assert ValidCell(slots[id], strides) && view[id] == CellView(slots[id]);
      was := n.Set(strides[1..], index, c);
      forall j | 0 <= j < slots.Length && j != id
        ensures ValidCell(slots[j], strides) && CellRepr(slots[j]) !! CellRepr(slots[id])
        ensures CellView(slots[j]) == old(CellView(slots[j])) && CellRepr(slots[j]) == old(CellRepr(slots[j]))
      {
        assert old(CellRepr(slots[j])) !! old(CellRepr(slots[id]));
      }
      Absorb(id, strides);
    }

    // ----- delete

    /** Deletes from the tree below; `gone` says that the stride is empty now and is freed. */
    method Delete(strides: seq<nat>, index: nat) returns (was: Cell, gone: bool)
      requires Valid(strides) && Shaped(strides, Stride(view))
      modifies repr
      ensures Valid(strides) && repr == old(repr)
      ensures Drop(strides, Stride(old(view)), index) == if gone then Null else Stride(view)
      ensures !was.Below? && CellView(was) == Get(strides, Stride(old(view)), index)
      decreases |strides|, 2
    {
      if |strides| == 1 {
        was, gone := DeleteLast(strides, index);
      } else {
        was, gone := DeleteInner(strides, index);
      }
    }

    /** Clears a slot and says whether that was the last one in use. */
    method Clear(id: nat, strides: seq<nat>) returns (gone: bool)
      requires Valid(strides) && id < slots.Length
      modifies this, slots
      ensures Valid(strides) && repr == old(repr) && view == old(view)[id := Null] && gone == Empty(view)
    {
      SetCell(id, Nil, strides);
      gone := IsEmpty(strides);
    }

    method DeleteLast(strides: seq<nat>, index: nat) returns (was: Cell, gone: bool)
      requires Valid(strides) && Shaped(strides, Stride(view)) && |strides| == 1
      modifies this, slots
      ensures Valid(strides) && repr == old(repr)
      ensures Drop(strides, Stride(old(view)), index) == if gone then Null else Stride(view)
      ensures !was.Below? && CellView(was) == Get(strides, Stride(old(view)), index)
    {
      var id := Slot(strides, index);
      assert view[id] == CellView(slots[id]) && ValidCell(slots[id], strides);
      DropKid(strides, view, index);
      was, gone := slots[id], false;
      if was.Nil? {
        assert view[id := Null] == view;
      } else {
        gone := Clear(id, strides);
      }
    }

    method DeleteInner(strides: seq<nat>, index: nat) returns (was: Cell, gone: bool)
      requires Valid(strides) && Shaped(strides, Stride(view)) && |strides| > 1
      modifies repr
      ensures Valid(strides) && repr == old(repr)
      ensures Drop(strides, Stride(old(view)), index) == if gone then Null else Stride(view)
      ensures !was.Below? && CellView(was) == Get(strides, Stride(old(view)), index)
      decreases |strides|, 1
    {
      var id := Slot(strides, index);
      assert view[id] == CellView(slots[id]) && ValidCell(slots[id], strides);
      DropKid(strides, view, index);
      was, gone := Nil, false;
      if slots[id].Below? {
        var kidGone;
        was, kidGone := DeleteBelow(id, strides, index);
        if kidGone {
          gone := Clear(id, strides);
          assert view == old(view)[id := Null];
        }
      } else {
        assert view[id := Null] == view;
      }
    }

    method DeleteBelow(id: nat, strides: seq<nat>, index: nat) returns (was: Cell, gone: bool)
      requires Valid(strides) && id < slots.Length && slots[id].Below? && Shaped(strides[1..], view[id])
      modifies repr
      ensures Valid(strides) && repr == old(repr) && slots[id].Below?
      ensures view == old(view)[id := view[id]]
      ensures Drop(strides[1..], old(view)[id], index) == if gone then Null else view[id]
      ensures !was.Below? && CellView(was) == Get(strides[1..], old(view)[id], index)
      decreases |strides|, 0
    {
      var n := slots[id].node;
      assert ValidCell(slots[id], strides) && view[id] == CellView(slots[id]);
      was, gone := n.Delete(strides[1..], index);
      forall j | 0 <= j < slots.Length && j != id
        ensures ValidCell(slots[j], strides) && CellRepr(slots[j]) !! CellRepr(slots[id])
        ensures CellView(slots[j]) == old(CellView(slots[j])) && CellRepr(slots[j]) == old(CellRepr(slots[j]))
      {
        assert old(CellRepr(slots[j])) !! old(CellRepr(slots[id]));
      }
      Absorb(id, strides);
    }

    // ----- traversal

    /** Visits slot `x`: its element, or the stride below it. */
    method DumpSlot(strides: seq<nat>, x: nat, base: nat, marker: nat, func: nat -> int)
      returns (out: seq<Item<Data>>, res: int)
      requires Valid(strides) && x < slots.Length && Shaped(strides[1..], view[x])
      ensures out == UpTo(Visit(strides[1..], view[x], base, marker), func)
      ensures Told(out, res, func) && (res <= 0 <==> Stops(Visit(strides[1..], view[x], base, marker), func))
      decreases |strides|, 0
    {
      assert view[x] == CellView(slots[x]) && ValidCell(slots[x], strides);
      out, res := [], 1;
      match slots[x]
      case Nil =>
      case Element(d) =>
        if base >= marker {
          out := [Item(base, d)];
          res := func(base);
        }
      case Below(n) => out, res := n.Dump(strides[1..], base, marker, func);
    }

    /** Hands the elements from index `marker` on to the callback until it stops. */
    method Dump(strides: seq<nat>, base: nat, marker: nat, func: nat -> int)
      returns (out: seq<Item<Data>>, res: int)
      requires Valid(strides) && Shaped(strides, Stride(view))
      ensures out == UpTo(Visit(strides, Stride(view), base, marker), func)
      ensures Told(out, res, func) && (res <= 0 <==> Stops(Visit(strides, Stride(view), base, marker), func))
      decreases |strides|, 1
    {
      ghost var all, t := VisitFrom(strides, Stride(view), 0, base, marker), Stride(view);
      var p := Pow2(Width(strides[1..]));
      out, res := [], 1;
      for x := 0 to slots.Length
        invariant res > 0 && !Stops(out, func) && all == out + VisitFrom(strides, t, x, base, marker)
      {
        assert Shaped(strides[1..], t.kids[x]);
        var some;
        some, res := DumpSlot(strides, x, base + p * x, marker, func);
        DumpNext(out, Visit(strides[1..], t.kids[x], base + p * x, marker), VisitFrom(strides, t, x + 1, base, marker),
                 func, some, res);
        out := out + some;
        if res <= 0 {
          return;
        }
      }
      assert all == out;
      UpToAll(out, func);
    }

    // ----- freeing the table

    /** The strides below slot `x` that are freed. */
    method ExitSlot(strides: seq<nat>, x: nat, path: Path) returns (freed: seq<Path>)
      requires Valid(strides) && |strides| > 1 && x < slots.Length && Shaped(strides[1..], view[x])
      ensures freed == Strides(strides[1..], view[x], path + [x], false)
      decreases |strides|, 0
    {
      assert view[x] == CellView(slots[x]) && ValidCell(slots[x], strides);
      freed := [];
      if slots[x].Below? {
        freed := slots[x].node.Exit(strides[1..], path + [x]);
      }
    }

    /** Walks the strides and frees the last ones and the root. */
    method Exit(strides: seq<nat>, path: Path) returns (freed: seq<Path>)
      requires Valid(strides) && Shaped(strides, Stride(view))
      ensures freed == Strides(strides, Stride(view), path, false)
      decreases |strides|, 1
    {
      if |strides| == 1 {
        return [path];
      }
      ghost var t := Stride(view);
      freed := [];
      for x := 0 to slots.Length
        invariant StridesFrom(strides, t, 0, path, false) == freed + StridesFrom(strides, t, x, path, false)
      {
        assert Shaped(strides[1..], t.kids[x]);
        var some := ExitSlot(strides, x, path);
        freed := freed + some;
      }
      if path == [] {
        freed := freed + [path];
      }
    }
  }

  /** The result of a traversal: the callback's where it stopped, or positive. */
  predicate Told(out: seq<Item<Data>>, res: int, func: nat -> int)
  {
    res <= 0 ==> out != [] && res == func(out[|out| - 1].index)
  }

  /** One more slot has been visited: the traversal has stopped in it, or goes on with the rest. */
  lemma DumpNext(out: seq<Item<Data>>, kid: seq<Item<Data>>, rest: seq<Item<Data>>, func: nat -> int,
                 some: seq<Item<Data>>, res: int)
    requires !Stops(out, func) && some == UpTo(kid, func) && Told(some, res, func) && (res <= 0 <==> Stops(kid, func))
    ensures Told(out + some, res, func)
    ensures res <= 0 ==> Stops(out + (kid + rest), func) && UpTo(out + (kid + rest), func) == out + some
    ensures res > 0 ==> out + (kid + rest) == (out + some) + rest && !Stops(out + some, func)
  {
    if res <= 0 { DumpStopped(out, kid, rest, func); } else { DumpGoesOn(out, kid, rest, func); }
  }

  lemma DumpStopped(out: seq<Item<Data>>, kid: seq<Item<Data>>, rest: seq<Item<Data>>, func: nat -> int)
    requires !Stops(out, func) && Stops(kid, func)
    ensures Stops(out + (kid + rest), func) && UpTo(out + (kid + rest), func) == out + UpTo(kid, func)
  {
    UpToConcat(out, kid + rest, func);
    UpToConcat(kid, rest, func);
  }

  lemma DumpGoesOn(out: seq<Item<Data>>, kid: seq<Item<Data>>, rest: seq<Item<Data>>, func: nat -> int)
    requires !Stops(out, func) && !Stops(kid, func)
    ensures out + (kid + rest) == (out + kid) + rest && !Stops(out + kid, func) && UpTo(kid, func) == kid
  {
    UpToConcat(out, kid, func);
    UpToAll(kid, func);
  }

  /** What a delete makes of a stride, from what it makes of the tree in the index's slot. */
  lemma DropKid(strides: seq<nat>, kids: seq<Tree<Data>>, index: nat)
    requires strides != [] && Shaped(strides, Stride(kids))
    ensures var id, rest := Slot(strides, index), strides[1..];
            && Shaped(rest, kids[id])
            && Get(strides, Stride(kids), index) == Get(rest, kids[id], index)
            && Drop(strides, Stride(kids), index) ==
                 var kid := Drop(rest, kids[id], index);
                 if kid.Null? && !kids[id].Null? && Empty(kids[id := kid]) then Null else Stride(kids[id := kid])
  {
  }

  /** Making a stride first does not change what a store makes of the tree. */
  lemma GrowThenPut(strides: seq<nat>, kids: seq<Tree<Data>>, index: nat, data: Tree<Data>)
    requires |strides| > 1 && Shaped(strides, Stride(kids)) && !data.Stride?
    ensures var id, rest := Slot(strides, index), strides[1..];
            var grown := if kids[id].Null? then Stride(Fresh<Data>(Pow2(strides[1]))) else kids[id];
            && Shaped(rest, kids[id]) && Shaped(rest, grown)
            && Put(rest, grown, index, data) == Put(rest, kids[id], index, data)
            && Get(rest, grown, index) == Get(rest, kids[id], index)
            && Put(strides, Stride(kids), index, data) == Stride(kids[id := Put(rest, kids[id], index, data)])
  {
  }

  lemma {:induction false} NodeShaped(n: Node, strides: seq<nat>)
    requires n.Valid(strides)
    ensures Shaped(strides, Stride(n.view))
    decreases |strides|
  {
    forall i | 0 <= i < |n.view| ensures Shaped(strides[1..], n.view[i]) {
      assert n.ValidCell(n.slots[i], strides) && n.view[i] == CellView(n.slots[i]);
      if n.slots[i].Below? { NodeShaped(n.slots[i].node, strides[1..]); }
    }
  }

  // ----- the table

  /** The strides a table may be made with. */
  predicate Legal(len: nat, strides: seq<nat>, limit: nat)
  {
    len <= 32 && |strides| >= 2 && Width(strides) == len && forall i {:trigger strides[i]} :: 0 <= i < |strides| ==>
      strides[i] <= limit
  }

  lemma {:induction false} WidthSplit(a: seq<nat>, b: seq<nat>)
    ensures Width(a + b) == Width(a) + Width(b)
  {
    if a == [] {
      assert a + b == b;
    } else {
      assert (a + b)[1..] == a[1..] + b;
      WidthSplit(a[1..], b);
    }
  }

  /** The checks made before a table is created: stride by stride, none too long, and together as long as the index. */
  method Check(len: nat, strides: seq<nat>, limit: nat) returns (ok: bool)
    ensures ok <==> Legal(len, strides, limit)
  {
    if len > 32 || |strides| < 2 {
      return false;
    }
    var total := 0;
    for i := 0 to |strides|
      invariant total == Width(strides[..i]) <= len && forall j {:trigger strides[j]} :: 0 <= j < i ==>
        strides[j] <= limit
    {
      if strides[i] > limit {
        return false;
      }
      WidthSplit(strides[..i], [strides[i]]);
      assert strides[..i + 1] == strides[..i] + [strides[i]]
        && Width([strides[i]]) == strides[i] + Width([strides[i]][1..]);
      total := total + strides[i];
      if total > len {
        WidthSplit(strides[..i + 1], strides[i + 1..]);
        assert strides == strides[..i + 1] + strides[i + 1..];
        return false;
      }
    }
    assert strides[..|strides|] == strides;
    ok := total == len;
  }

  class Table {
    const strides: seq<nat>
    var root: Cell
    ghost var repr: set<object>

    ghost predicate Valid()
      reads this, repr
    {
      && this in repr && |strides| >= 2 && !root.Element?
      && (root.Below? ==>
            root.node in repr && root.node.repr <= repr && this !in root.node.repr && root.node.Valid(strides))
    }

    ghost function View(): (t: Tree<Data>)
      requires Valid()
      reads this, repr
      ensures Shaped(strides, t)
    {
      if root.Below? then NodeShaped(root.node, strides); CellView(root) else Null
    }

    constructor (strides: seq<nat>)
      requires |strides| >= 2
      ensures Valid() && fresh(repr) && this.strides == strides && View() == Null
    {
      this.strides := strides;
      root := Nil;
      repr := {this};
    }

    /** Follows the slots of an index as long as there are strides. */
    method Get(index: nat) returns (c: Cell)
      requires Valid()
      ensures !c.Below? && CellView(c) == Itable.Get(strides, View(), index)
    {
      c := root;
      var i := 0;
      while i < |strides| && !c.Nil?
        invariant i <= |strides| && (c.Below? <==> i < |strides| && !c.Nil?)
        invariant c.Below? ==> c.node.Valid(strides[i..])
        invariant Shaped(strides[i..], CellView(c))
        invariant Itable.Get(strides[i..], CellView(c), index) == Itable.Get(strides, View(), index)
      {
        var n, id := c.node, Slot(strides[i..], index);
        assert n.ValidCell(n.slots[id], strides[i..]) && n.view[id] == CellView(n.slots[id]);
        assert strides[i..][1..] == strides[i + 1..];
        assert Shaped(strides[i + 1..], n.view[id]);
        c := n.slots[id];
        i := i + 1;
      }
    }

    method Set(index: nat, c: Cell) returns (was: Cell)
      requires Valid() && !c.Below?
      modifies repr
      ensures Valid() && fresh(repr - old(repr))
      ensures View() == Put(strides, old(View()), index, CellView(c))
      ensures !was.Below? && CellView(was) == Itable.Get(strides, old(View()), index)
    {
      if root.Nil? {
        var n := new Node(Pow2(strides[0]));
        root := Below(n);
        repr := repr + n.repr;
        assert n.Valid(strides);
      }
      NodeShaped(root.node, strides);
      was := root.node.Set(strides, index, c);
      repr := repr + root.node.repr;
    }

    method Delete(index: nat) returns (was: Cell)
      requires Valid()
      modifies repr
      ensures Valid() && repr == old(repr)
      ensures View() == Drop(strides, old(View()), index)
      ensures !was.Below? && CellView(was) == Itable.Get(strides, old(View()), index)
    {
      was := Nil;
      if root.Below? {
        NodeShaped(root.node, strides);
        var gone;
        was, gone := root.node.Delete(strides, index);
        if gone {
          root := Nil;
        }
      }
    }

    /** The result is that of the callback where it stopped, and positive if it did not stop. */
    method Traverse(marker: nat, func: nat -> int) returns (out: seq<Item<Data>>, res: int)
      requires Valid()
      ensures out == UpTo(Visit(strides, View(), 0, marker), func)
      ensures Told(out, res, func) && (res <= 0 <==> Stops(Visit(strides, View(), 0, marker), func))
    {
      out, res := [], 1;
      if root.Below? {
        NodeShaped(root.node, strides);
        out, res := root.node.Dump(strides, 0, marker, func);
      }
    }

    /** Frees the strides of the table, as far as that is done. */
    method Exit() returns (freed: seq<Path>)
      requires Valid()
      modifies this
      ensures freed == Strides(strides, old(View()), [], false)
      ensures Valid() && View() == Null
    {
      freed := [];
      if root.Below? {
        NodeShaped(root.node, strides);
        freed := root.node.Exit(strides, []);
        root := Nil;
      }
    }
  }
}
