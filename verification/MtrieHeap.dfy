/** The trie as it is in memory: buckets are arrays of entries, overwritten in place. */
module MtrieHeap {
  import opened Bits
  import opened Routes
  import opened Mtrie
  import MtrieDelete

  /** Low bit of the pointer word: nexthop or bucket. */
  datatype Pointer = Nexthop(nh: nat) | Child(bkt: Node)

  /** A bucket entry. The label and index fields of an entry that points to a bucket are stale. */
  datatype Slot = Slot(ptr: Pointer, plen: nat, labelFlags: int, tag: int, bridgeIndex: int)

  function LeafSlot(plen: nat, res: Result): Slot
  {
    Slot(Nexthop(res.nh), plen, res.labelFlags, res.tag, res.bridgeIndex)
  }

  function SlotResult(s: Slot): Result
    requires s.ptr.Nexthop?
  {
    Result(s.ptr.nh, s.labelFlags, s.tag, s.bridgeIndex)
  }

  ghost function ChildRepr(s: Slot): set<object>
    reads if s.ptr.Child? then {s.ptr.bkt} else {}
  {
    if s.ptr.Child? then s.ptr.bkt.repr else {}
  }

  ghost function SlotView(s: Slot): Entry
    reads if s.ptr.Child? then {s.ptr.bkt} else {}
  {
    if s.ptr.Child? then Bucket(s.plen, s.ptr.bkt.view) else Leaf(s.plen, SlotResult(s))
  }

  class Node {
    const data: array<Slot>
    ghost var view: seq<Entry>
    ghost var repr: set<object>

    /** A tree of buckets at most `h` levels high below this one, and `view` is what it looks like. */
    ghost predicate Valid(h: nat)
      reads this, repr
      decreases h
    {
      && this in repr && data in repr
      && data.Length == 256 && |view| == 256
      && (forall i :: 0 <= i < 256 ==> ValidSlot(data[i], h))
      && (forall i :: 0 <= i < 256 ==> view[i] == SlotView(data[i]))
      && (forall i, j :: 0 <= i < j < 256 ==> ChildRepr(data[i]) !! ChildRepr(data[j]))
    }

    ghost predicate ValidSlot(s: Slot, h: nat)
      reads this, repr
      decreases h, 0
    {
      s.ptr.Child? ==>
        && h > 0
        && s.ptr.bkt in repr && s.ptr.bkt in s.ptr.bkt.repr && s.ptr.bkt.repr <= repr
        && this !in s.ptr.bkt.repr && data !in s.ptr.bkt.repr
        && s.ptr.bkt.Valid(h - 1)
    }

    /** A bucket all of whose entries are copies of one leaf. */
    constructor Split(parent: Slot)
      requires parent.ptr.Nexthop?
      ensures fresh(repr) && forall h :: Valid(h)
      ensures view == seq(256, _ => Leaf(parent.plen, SlotResult(parent)))
    {
      data := new Slot[256](_ => parent);
      view := seq(256, _ => Leaf(parent.plen, SlotResult(parent)));
      new;
      repr := {this, data};
    }

    /** Overwrites entry `i` with a leaf. */
    method SetLeaf(i: nat, plen: nat, res: Result, h: nat)
      requires Valid(h) && i < 256
      modifies this, data
      ensures Valid(h) && repr == old(repr)
      ensures view == old(view)[i := Leaf(plen, res)]
    {
      data[i] := LeafSlot(plen, res);
      view := view[i := Leaf(plen, res)];
    }

    /** Pushes a route into entry `i` and everything below it. */
    method Push(i: nat, plen: nat, res: Result, h: nat)
      requires Valid(h) && i < 256
      modifies repr
      ensures Valid(h) && repr == old(repr)
      ensures view == old(view)[i := AddToTree(old(view)[i], plen, res)]
      decreases h, 1
    {
      if data[i].plen > plen {
        return;
      }
      if data[i].ptr.Nexthop? {
        SetLeaf(i, plen, res, h);
        return;
      }
      PushBelow(i, plen, res, h);
    }

    method PushBelow(i: nat, plen: nat, res: Result, h: nat)
      requires Valid(h) && i < 256 && data[i].ptr.Child? && data[i].plen <= plen
      modifies repr
      ensures Valid(h) && repr == old(repr)
      ensures view == old(view)[i := AddToTree(old(view)[i], plen, res)]
      decreases h, 0
    {
      data[i] := data[i].(plen := plen);
      var c := data[i].ptr.bkt;
      c.PushAll(plen, res, h - 1);
      forall j | 0 <= j < 256 && j != i
        ensures ValidSlot(data[j], h) && ChildRepr(data[j]) !! ChildRepr(data[i])
        ensures SlotView(data[j]) == old(SlotView(data[j])) && ChildRepr(data[j]) == old(ChildRepr(data[j]))
      {
        assert old(ChildRepr(data[j])) !! old(ChildRepr(data[i]));
      }
      assert c.view == AddToTree(old(view)[i], plen, res).kids;
      Absorb(i, h);
    }

    /** Pushes a route into all entries. */
    method PushAll(plen: nat, res: Result, h: nat)
      requires Valid(h)
      modifies repr
      ensures Valid(h) && repr == old(repr)
      ensures AllPushed(old(view), view, plen, res)
      decreases h, 2
    {
      for i := 0 to 256
        invariant Valid(h) && repr == old(repr)
        invariant forall k :: 0 <= k < i ==> view[k] == AddToTree(old(view)[k], plen, res)
        invariant view[i..] == old(view)[i..]
      {
        Push(i, plen, res, h);
      }
    }

    // ----- add

    /** If entry `i` is a leaf, hangs a bucket of 256 copies of it there. */
    method SplitSlot(i: nat, h: nat)
      requires Valid(h) && i < 256 && h > 0
      modifies this, data
      ensures Valid(h) && data[i].ptr.Child? && fresh(repr - old(repr))
      ensures view == old(view)[i := Bucket(old(view)[i].plen, Children(old(view)[i]))]
    {
      if data[i].ptr.Nexthop? {
        var c := new Node.Split(data[i]);
        data[i] := data[i].(ptr := Child(c));
        assert c.Valid(h - 1);
        forall j | 0 <= j < 256 && j != i
          ensures ValidSlot(data[j], h) && ChildRepr(data[j]) !! ChildRepr(data[i])
        {
          assert old(ValidSlot(data[j], h));
        }
        Absorb(i, h);
      }
    }

    /** Pushes a route into `fin` entries from `idx` on; the index is eight bits wide and wraps. */
    method PushRun(idx: byte, fin: nat, plen: nat, res: Result, h: nat)
      requires Valid(h) && fin <= 256
      modifies repr
      ensures Valid(h) && repr == old(repr)
      ensures forall k :: 0 <= k < 256 ==>
                view[k] == if InRun(k, idx, fin) then AddToTree(old(view)[k], plen, res) else old(view)[k]
    {
      var i: nat, left: nat := idx, fin;
      while left > 0
        invariant left <= fin && i == (idx + (fin - left)) % 256
        invariant Valid(h) && repr == old(repr)
        invariant forall k :: 0 <= k < 256 ==>
          view[k] == if InRun(k, idx, fin - left) then AddToTree(old(view)[k], plen, res) else old(view)[k]
      {
        RunStep(idx, fin - left);
        Push(i, plen, res, h);
        i, left := (i + 1) % 256, left - 1;
      }
    }

    /** Adds a route below this bucket, which sits `l` levels below the root. */
    method Add(p: seq<byte>, l: nat, plen: nat, res: Result, h: nat, ghost q: nat)
      requires Valid(h) && l + 1 + h == |p| && plen <= 8 * |p| && Shaped(Bucket(q, view), l, |p|)
      modifies repr
      ensures Valid(h) && fresh(repr - old(repr))
      ensures Bucket(q, view) == AddAt(Bucket(q, old(view)), p, l, plen, res)
      decreases h, 1
    {
      if plen > 8 * (l + 1) {
        SplitThenAdd(view[p[l]], p, l + 1, plen, res);
        SplitSlot(p[l], h);
        AddBelow(p[l], p, l, plen, res, h);
      } else {
        RunFits(l, plen);
        PushRun(p[l], RunLength(l, plen), plen, res, h);
        assert view == AddAt(Bucket(q, old(view)), p, l, plen, res).kids;
      }
    }

    method AddBelow(i: nat, p: seq<byte>, l: nat, plen: nat, res: Result, h: nat)
      requires Valid(h) && i < 256 && data[i].ptr.Child?
      requires l + 1 + h == |p| && plen <= 8 * |p| && h > 0 && Shaped(view[i], l + 1, |p|)
      modifies repr
      ensures Valid(h) && fresh(repr - old(repr))
      ensures view == old(view)[i := AddAt(old(view)[i], p, l + 1, plen, res)]
      decreases h, 0
    {
      var c := data[i].ptr.bkt;
      c.Add(p, l + 1, plen, res, h - 1, data[i].plen);
      forall j | 0 <= j < 256 && j != i
        ensures ValidSlot(data[j], h) && ChildRepr(data[j]) !! ChildRepr(data[i])
        ensures SlotView(data[j]) == old(SlotView(data[j])) && ChildRepr(data[j]) == old(ChildRepr(data[j]))
      {
        assert old(ChildRepr(data[j])) !! old(ChildRepr(data[i]));
        assert old(ChildRepr(data[j])) <= old(repr);
      }
      Absorb(i, h);
    }

    // ----- delete

    /** Compares every entry with the first, field by field. */
    method IsUniform(ghost h: nat) returns (u: bool)
      requires Valid(h)
      ensures u <==> Uniform(view)
    {
      u := true;
      for i := 1 to 256
        invariant u && forall k :: 0 <= k < i ==> data[k] == data[0]
      {
        if data[i] != data[0] {
          return false;
        }
      }
      assert ChildRepr(data[0]) !! ChildRepr(data[1]);
    }

    /** Rewrites length and label of an entry that points to a bucket. */
    method Retag(i: nat, plen: nat, res: Result, h: nat)
      requires Valid(h) && i < 256 && data[i].ptr.Child?
      modifies this, data
      ensures Valid(h) && repr == old(repr) && data[i].ptr.Child?
      ensures view == old(view)[i := Bucket(plen, old(view)[i].kids)]
    {
      data[i] := data[i].(plen := plen, labelFlags := res.labelFlags, tag := res.tag);
      view := view[i := SlotView(data[i])];
    }

    /** Deletes below entry `i`, and puts a leaf in place of its bucket if that is left uniform. */
    method DeleteSlot(i: nat, d: DeleteReq, l: nat, h: nat)
      requires Valid(h) && i < 256 && l + 1 + h == |d.p| && ValidDelete(d) && Shaped(view[i], l + 1, |d.p|)
      modifies repr
      ensures Valid(h) && repr == old(repr)
      ensures view == old(view)[i := DeleteAt(old(view)[i], d, l + 1)]
      decreases h, 0
    {
      if data[i].ptr.Nexthop? {
        return;
      }
      var c := data[i].ptr.bkt;
      c.Delete(d, l + 1, h - 1, data[i].plen);
      forall j | 0 <= j < 256 && j != i
        ensures ValidSlot(data[j], h) && ChildRepr(data[j]) !! ChildRepr(data[i])
        ensures SlotView(data[j]) == old(SlotView(data[j])) && ChildRepr(data[j]) == old(ChildRepr(data[j]))
      {
        assert old(ChildRepr(data[j])) !! old(ChildRepr(data[i]));
      }
      Absorb(i, h);
      CollapseSlot(i, d, h);
    }

    method CollapseSlot(i: nat, d: DeleteReq, h: nat)
      requires Valid(h) && i < 256 && data[i].ptr.Child?
      modifies this, data
      ensures Valid(h) && repr == old(repr) && |old(view)[i].kids| == 256
      ensures view == old(view)[i := Collapse(old(view)[i].plen, old(view)[i].kids, d)]
    {
      var u := data[i].ptr.bkt.IsUniform(h - 1);
      if u {
        SetLeaf(i, data[i].plen, d.newRes, h);
      }
    }

    /** Deletes inside an entry the deleted prefix covers. */
    method DeleteCovered(i: nat, d: DeleteReq, l: nat, h: nat)
      requires Valid(h) && i < 256 && l + 1 + h == |d.p| && ValidDelete(d) && Shaped(view[i], l + 1, |d.p|)
      modifies repr
      ensures Valid(h) && repr == old(repr)
      ensures view == old(view)[i := DeleteEntry(old(view)[i], d, l + 1)]
      decreases h, 1
    {
      if data[i].plen == d.plen {
        if data[i].ptr.Nexthop? {
          SetLeaf(i, d.newLen, d.newRes, h);
        } else {
          OtherTag(view[i], d, l + 1);
          Retag(i, d.newLen, d.newRes, h);
          DeleteSlot(i, d, l, h);
        }
      }
    }

    /** Deletes in the entries of this bucket, which sits `l` levels below the root. */
    method Delete(d: DeleteReq, l: nat, h: nat, ghost q: nat)
      requires Valid(h) && l + 1 + h == |d.p| && ValidDelete(d) && Shaped(Bucket(q, view), l, |d.p|)
      modifies repr
      ensures Valid(h) && repr == old(repr)
      ensures view == DeleteKids(Bucket(q, old(view)), d, l)
      decreases h, 4
    {
      if d.plen > 8 * (l + 1) {
        DeleteSlot(d.p[l], d, l, h);
      } else {
        DeleteRun(d, l, h, q);
      }
    }

    method DeleteRun(d: DeleteReq, l: nat, h: nat, ghost q: nat)
      requires Valid(h) && l + 1 + h == |d.p| && ValidDelete(d) && Shaped(Bucket(q, view), l, |d.p|)
      requires d.plen <= 8 * (l + 1)
      modifies repr
      ensures Valid(h) && repr == old(repr)
      ensures view == DeleteKids(Bucket(q, old(view)), d, l)
      decreases h, 3
    {
      var start, fin := FindRun(d, l);
      DeleteRange(d, l, start, fin, h);
      DeletedKids(Bucket(q, old(view)), d, l, start, fin, view);
    }

    method DeleteRange(d: DeleteReq, l: nat, start: nat, fin: nat, h: nat)
      requires Valid(h) && l + 1 + h == |d.p| && ValidDelete(d) && start <= fin <= 256
      requires forall k :: 0 <= k < 256 ==> Shaped(view[k], l + 1, |d.p|)
      modifies repr
      ensures Valid(h) && repr == old(repr)
      ensures forall k :: 0 <= k < 256 ==>
                view[k] == if start <= k < fin then DeleteEntry(old(view)[k], d, l + 1) else old(view)[k]
      decreases h, 2
    {
      for i := start to fin
        invariant Valid(h) && repr == old(repr)
        invariant forall k :: 0 <= k < 256 ==>
          view[k] == if start <= k < i then DeleteEntry(old(view)[k], d, l + 1) else old(view)[k]
      {
        DeleteCovered(i, d, l, h);
      }
    }

    // ----- bookkeeping of what the tree looks like

    /** Takes in what the bucket below entry `i` has become. */
    ghost method Absorb(i: nat, h: nat)
      requires this in repr && data in repr && data.Length == 256 && |view| == 256
      requires i < 256 && data[i].ptr.Child? && h > 0
      requires data[i].ptr.bkt in ChildRepr(data[i]) && this !in ChildRepr(data[i]) && data !in ChildRepr(data[i])
      requires data[i].ptr.bkt.Valid(h - 1)
      requires forall j :: 0 <= j < 256 && j != i ==> ValidSlot(data[j], h) && view[j] == SlotView(data[j])
      requires forall j :: 0 <= j < 256 && j != i ==> ChildRepr(data[j]) !! ChildRepr(data[i])
      requires forall j, k :: 0 <= j < k < 256 && j != i && k != i ==> ChildRepr(data[j]) !! ChildRepr(data[k])
      modifies this
      ensures Valid(h) && repr == old(repr) + ChildRepr(data[i])
      ensures view == old(view)[i := SlotView(data[i])]
    {
      repr := repr + ChildRepr(data[i]);
      view := view[i := SlotView(data[i])];
    }
  }

  /** Changing the length of a bucket entry first does not change what a delete makes of its entries. */
  lemma OtherTag(e: Entry, d: DeleteReq, l: nat)
    requires l <= |d.p| && ValidDelete(d) && Shaped(e, l, |d.p|) && e.Bucket? && e.plen == d.plen
    ensures Shaped(Bucket(d.newLen, e.kids), l, |d.p|)
    ensures DeleteAt(Bucket(d.newLen, e.kids), d, l) == DeleteEntry(e, d, l)
  {
  }

  /** Working through the entries of the run makes the entries of the bucket what a delete makes of them. */
  lemma DeletedKids(e: Entry, d: DeleteReq, l: nat, start: nat, fin: nat, r: seq<Entry>)
    requires l < |d.p| && ValidDelete(d) && Shaped(e, l, |d.p|) && e.Bucket? && d.plen <= 8 * (l + 1)
    requires forall i :: 0 <= i < 256 ==> (InDeleteRun(d, l, i) <==> start <= i < fin)
    requires |r| == 256
    requires forall k :: 0 <= k < 256 ==>
               r[k] == if start <= k < fin then DeleteEntry(e.kids[k], d, l + 1) else e.kids[k]
    ensures r == DeleteKids(e, d, l)
  {
  }

  /** The bounds of the delete loop enclose exactly the entries of the run. */
  method FindRun(d: DeleteReq, l: nat) returns (start: nat, fin: nat)
    requires l < |d.p| && d.plen <= 8 * (l + 1)
    ensures start <= fin <= 256
    ensures forall i :: 0 <= i < 256 ==> (InDeleteRun(d, l, i) <==> start <= i < fin)
  {
    if d.plen > 8 * l {
      fin := RunLength(l, d.plen);
      start := ClearLow(d.p[l], fin);
      ghost var q :| start == fin * q && start <= d.p[l] < start + fin && q >= 0;
      MtrieDelete.DeleteRunBounds(d, l, fin, q);
      fin := fin + start;
    } else {
      start, fin := 0, 256;
    }
  }

  /** Clears the low-order bits of an index below a power of two. */
  method ClearLow(x: nat, f: nat) returns (s: nat)
    requires f > 0
    ensures exists q :: s == f * q && s <= x < s + f && q >= 0
  {
    ghost var q := Quotient(x, f);
    s := x - x % f;
    assert s == f * q;
  }

  /** Splitting an entry first does not change what an add makes of it. */
  lemma SplitThenAdd(e: Entry, p: seq<byte>, l: nat, plen: nat, res: Result)
    requires l < |p| && plen <= 8 * |p| && Shaped(e, l, |p|)
    ensures Shaped(Bucket(e.plen, Children(e)), l, |p|)
    ensures AddAt(Bucket(e.plen, Children(e)), p, l, plen, res) == AddAt(e, p, l, plen, res)
  {
  }

  lemma RunFits(l: nat, plen: nat)
    requires plen <= 8 * (l + 1)
    ensures RunLength(l, plen) <= 256
  {
    Pow2Of8();
  }

  lemma RunStep(idx: byte, done: nat)
    requires done < 256
    ensures !InRun((idx + done) % 256, idx, done)
    ensures forall k :: 0 <= k < 256 ==> (InRun(k, idx, done + 1) <==> InRun(k, idx, done) || k == (idx + done) % 256)
    ensures ((idx + done) % 256 + 1) % 256 == (idx + done + 1) % 256
  {
  }

  lemma {:induction false} NodeShaped(b: Node, q: nat, h: nat, l: nat, n: nat)
    requires b.Valid(h) && l + 1 + h == n
    ensures Shaped(Bucket(q, b.view), l, n)
    decreases h
  {
    forall i | 0 <= i < 256 ensures Shaped(b.view[i], l + 1, n) {
      assert b.ValidSlot(b.data[i], h) && b.view[i] == SlotView(b.data[i]);
      if b.data[i].ptr.Child? {
        NodeShaped(b.data[i].ptr.bkt, b.data[i].plen, h - 1, l + 1, n);
      }
    }
  }

  /** One routing table: a root entry that starts as a discarding leaf of length zero. */
  class Table {
    const levels: nat
    var root: Slot
    ghost var repr: set<object>

    ghost predicate Valid()
      reads this, repr
    {
      && this in repr
      && levels > 0
      && (root.ptr.Child? ==>
            && root.ptr.bkt in repr && root.ptr.bkt.repr <= repr
            && this !in root.ptr.bkt.repr
            && root.ptr.bkt.Valid(levels - 1))
    }

    ghost function View(): (e: Entry)
      requires Valid()
      reads this, repr
      ensures Shaped(e, 0, levels)
    {
      if root.ptr.Child? then
        NodeShaped(root.ptr.bkt, root.plen, levels - 1, 0, levels);
        SlotView(root)
      else
        SlotView(root)
    }

    constructor (levels: nat, discard: Result)
      requires levels > 0
      ensures Valid() && fresh(repr) && this.levels == levels
      ensures View() == Leaf(0, discard)
    {
      this.levels := levels;
      root := LeafSlot(0, discard);
      repr := {this};
    }

    /** Adds a route; a prefix longer than an address is refused. */
    method Add(p: seq<byte>, plen: nat, res: Result) returns (ok: bool)
      requires Valid() && |p| == levels
      modifies repr
      ensures Valid() && fresh(repr - old(repr))
      ensures ok <==> plen <= 8 * levels
      ensures View() == if ok then AddAt(old(View()), p, 0, plen, res) else old(View())
    {
      if plen > 8 * levels {
        return false;
      }
      ok := true;
      SplitThenAdd(View(), p, 0, plen, res);
      if root.ptr.Nexthop? {
        var c := new Node.Split(root);
        root := root.(ptr := Child(c));
        repr := repr + c.repr;
        assert c.Valid(levels - 1);
      }
      assert View() == Bucket(old(View()).plen, Children(old(View())));
      AddToRoot(p, plen, res);
    }

    method AddToRoot(p: seq<byte>, plen: nat, res: Result)
      requires Valid() && root.ptr.Child? && |p| == levels && plen <= 8 * levels
      modifies repr
      ensures Valid() && fresh(repr - old(repr))
      ensures View() == AddAt(old(View()), p, 0, plen, res)
    {
      NodeShaped(root.ptr.bkt, root.plen, levels - 1, 0, levels);
      root.ptr.bkt.Add(p, 0, plen, res, levels - 1, root.plen);
      repr := repr + root.ptr.bkt.repr;
    }

    /** Deletes a route; a prefix longer than an address is refused. */
    method Delete(d: DeleteReq) returns (ok: bool)
      requires Valid() && |d.p| == levels
      modifies repr
      ensures Valid() && repr == old(repr)
      ensures ok <==> d.plen <= 8 * levels
      ensures View() == if ok then DeleteAt(old(View()), d, 0) else old(View())
    {
      if d.plen > 8 * levels {
        return false;
      }
      ok := true;
      if root.ptr.Child? {
        var c := root.ptr.bkt;
        NodeShaped(c, root.plen, levels - 1, 0, levels);
        c.Delete(d, 0, levels - 1, root.plen);
        var u := c.IsUniform(levels - 1);
        if u {
          root := LeafSlot(root.plen, d.newRes);
        }
      }
    }

    /** Looks up a full-length address: goes down until it meets a nexthop. */
    method Lookup(a: seq<byte>) returns (r: Answer)
      requires Valid() && |a| == levels
      ensures r == Mtrie.Lookup(View(), a, 0)
    {
      var ent, l := root, 0;
      while ent.ptr.Child?
        invariant l <= levels
        invariant ent.ptr.Child? ==> l < levels && ent.ptr.bkt.Valid(levels - 1 - l)
        invariant Shaped(SlotView(ent), l, levels)
        invariant Mtrie.Lookup(SlotView(ent), a, l) == Mtrie.Lookup(View(), a, 0)
        decreases levels - l
      {
        var b := ent.ptr.bkt;
        assert b.ValidSlot(b.data[a[l]], levels - 1 - l) && b.view[a[l]] == SlotView(b.data[a[l]]);
        ent, l := b.data[a[l]], l + 1;
      }
      r := Answer(ent.plen, SlotResult(ent));
    }
  }
}
