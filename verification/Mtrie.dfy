/**
 * The multi-bit trie on values: what one call of add, delete and lookup makes of the
 * tree of entries. Strides are eight bits, so a bucket has 256 entries; the number of
 * levels (4 for IPv4, 16 for IPv6) is the number of bytes of the address.
 */
module Mtrie {
  import opened Bits
  import opened Routes

  /** An entry is a nexthop leaf or a bucket; both carry the prefix length of the route that set them. */
  datatype Entry =
    | Leaf(plen: nat, res: Result)
    | Bucket(plen: nat, kids: seq<Entry>)

  /** An entry `l` bytes below the root of a trie with `n` levels. */
  ghost predicate Shaped(e: Entry, l: nat, n: nat)
    decreases e
  {
    && l <= n
    && (e.Bucket? ==> l < n && |e.kids| == 256 && forall i {:trigger Shaped(e.kids[i], l + 1, n)} :: 0 <= i < 256 ==>
        Shaped(e.kids[i], l + 1, n))
  }

  /** What makes pruning sound: no entry below a bucket has a shorter prefix length than the bucket's own entry. */
  ghost predicate Ordered(e: Entry, l: nat)
    decreases e
  {
    && e.plen <= 8 * l
    && (e.Bucket? ==>
          forall i :: 0 <= i < |e.kids| ==> Ordered(e.kids[i], l + 1) && e.plen <= e.kids[i].plen)
  }

  ghost predicate WellFormed(e: Entry, l: nat, n: nat)
  {
    Shaped(e, l, n) && Ordered(e, l)
  }

  /** Walks down by the bytes of the address until it meets a leaf. */
  function Lookup(e: Entry, a: seq<byte>, l: nat): Answer
    requires Shaped(e, l, |a|)
    decreases e
  {
    match e
    case Leaf(plen, res) => Answer(plen, res)
    case Bucket(_, kids) => Lookup(kids[a[l]], a, l + 1)
  }

  // ----- add

  /** Pushes a route into an entry it covers; an entry set by a longer prefix is left alone with all below it. */
  function AddToTree(e: Entry, plen: nat, res: Result): Entry
    decreases e
  {
    if e.plen > plen then e
    else
      match e
      case Leaf(_, _) => Leaf(plen, res)
      case Bucket(_, kids) =>
        Bucket(plen, seq(|kids|, i requires 0 <= i < |kids| => AddToTree(kids[i], plen, res)))
  }

  /** The entries of a bucket a route is pushed into. */
  ghost predicate AllPushed(kids: seq<Entry>, r: seq<Entry>, plen: nat, res: Result)
  {
    |r| == |kids| && forall i :: 0 <= i < |kids| ==> r[i] == AddToTree(kids[i], plen, res)
  }

  /** How many entries of a level-`l` bucket a prefix of length `plen` fills. */
  function RunLength(l: nat, plen: nat): nat
    requires plen <= 8 * (l + 1)
  {
    if 8 * l < plen then Pow2(8 * (l + 1) - plen) else 256
  }

  /** The entries an add visits: `fin` of them from `idx` on, where the eight-bit loop index wraps around. */
  predicate InRun(i: int, idx: int, fin: nat)
  {
    (i - idx) % 256 < fin
  }

  /** The entries of a bucket just split off from a leaf, or of the bucket that is there already. */
  function Children(e: Entry): seq<Entry>
  {
    match e
    case Leaf(_, _) => seq(256, _ => e)
    case Bucket(_, kids) => kids
  }

  function AddAt(e: Entry, p: seq<byte>, l: nat, plen: nat, res: Result): Entry
    requires l < |p| && plen <= 8 * |p| && Shaped(e, l, |p|)
    decreases |p| - l
  {
    var kids := Children(e);
    if plen > 8 * (l + 1) then
      Bucket(e.plen, kids[p[l] := AddAt(kids[p[l]], p, l + 1, plen, res)])
    else
      Bucket(e.plen, seq(256, i requires 0 <= i < 256 =>
        if InRun(i, p[l], RunLength(l, plen)) then AddToTree(kids[i], plen, res) else kids[i]))
  }

  // ----- delete

  /** A delete names the prefix and carries the route that takes over. */
  datatype DeleteReq = DeleteReq(p: seq<byte>, plen: nat, newLen: nat, newRes: Result)

  ghost predicate ValidDelete(d: DeleteReq)
  {
    d.plen <= 8 * |d.p|
  }

  /** The entries a delete visits in the bucket where its prefix ends, or all of them in a bucket below. */
  predicate InDeleteRun(d: DeleteReq, l: nat, i: int)
    requires l < |d.p| && d.plen <= 8 * (l + 1) && 0 <= i < 256
  {
    8 * l < d.plen ==> Shr(i, 8 * (l + 1) - d.plen) == Shr(d.p[l], 8 * (l + 1) - d.plen)
  }

  /** All entries are byte-for-byte the same; two bucket entries never are, their pointers differ. */
  predicate Uniform(kids: seq<Entry>)
    requires |kids| == 256
  {
    kids[0].Leaf? && forall i :: 0 <= i < 256 ==> kids[i] == kids[0]
  }

  /** A bucket left uniform is replaced by a leaf that takes the request's result but keeps the old length. */
  function Collapse(plen: nat, kids: seq<Entry>, d: DeleteReq): Entry
    requires |kids| == 256
  {
    if Uniform(kids) then Leaf(plen, d.newRes) else Bucket(plen, kids)
  }

  function DeleteAt(e: Entry, d: DeleteReq, l: nat): Entry
    requires l <= |d.p| && ValidDelete(d) && Shaped(e, l, |d.p|)
    decreases e, 1
  {
    match e
    case Leaf(_, _) => e
    case Bucket(plen, kids) => Collapse(plen, DeleteKids(e, d, l), d)
  }

  /** The entries of a visited bucket after the delete went through them. */
  function DeleteKids(e: Entry, d: DeleteReq, l: nat): (r: seq<Entry>)
    requires l < |d.p| && ValidDelete(d) && Shaped(e, l, |d.p|) && e.Bucket?
    ensures |r| == 256
    decreases e, 0
  {
    if d.plen > 8 * (l + 1) then
      e.kids[d.p[l] := DeleteAt(e.kids[d.p[l]], d, l + 1)]
    else
      seq(256, i requires 0 <= i < 256 =>
        if InDeleteRun(d, l, i) then DeleteEntry(e.kids[i], d, l + 1) else e.kids[i])
  }

  /** An entry inside the deleted prefix is touched only if that prefix set it. */
  function DeleteEntry(e: Entry, d: DeleteReq, l: nat): Entry
    requires l <= |d.p| && ValidDelete(d) && Shaped(e, l, |d.p|)
    decreases e, 1
  {
    if e.plen != d.plen then e
    else
      match e
      case Leaf(_, _) => Leaf(d.newLen, d.newRes)
      case Bucket(_, kids) => Collapse(d.newLen, DeleteKids(e, d, l), d)
  }
}
