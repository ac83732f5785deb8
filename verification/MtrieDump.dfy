/** Dumping a table page by page: each request resumes after the last prefix the previous one returned. */
module MtrieDump {
  import opened Bits
  import opened Numbers
  import opened Routes
  import opened Mtrie
  import MtrieRoutes

  /** One record: the bytes that lead to a leaf, and what the leaf holds. The prefix length is `8 * |path|`. */
  datatype Record = Record(path: seq<byte>, plen: nat, res: Result)

  /** All leaves below an entry in address order. */
  function Leaves(e: Entry, path: seq<byte>, n: nat): (r: seq<Record>)
    requires Shaped(e, |path|, n)
    decreases e, 1, 0
  {
    match e
    case Leaf(plen, res) => [Record(path, plen, res)]
    case Bucket(_, _) => LeavesFrom(e, 0, path, n)
  }

  function LeavesFrom(e: Entry, s: nat, path: seq<byte>, n: nat): (r: seq<Record>)
    requires Shaped(e, |path|, n) && e.Bucket? && s <= 256
    decreases e, 0, 256 - s
  {
    if s == 256 then [] else Leaves(e.kids[s], path + [s], n) + LeavesFrom(e, s + 1, path, n)
  }

  /** What the walk returns below a bucket on the way to the marker, with room for everything. */
  function After(e: Entry, path: seq<byte>, marker: seq<byte>, markerLen: nat, n: nat): (r: seq<Record>)
    requires Shaped(e, |path|, n) && e.Bucket? && |marker| >= n
    decreases e
  {
    var i: nat := marker[|path|];
    var atMarker := 8 * (|path| + 1) == markerLen;
    if e.kids[i].Bucket? && !atMarker then
      After(e.kids[i], path + [i], marker, markerLen, n) + LeavesFrom(e, i + 1, path, n)
    else if atMarker then
      LeavesFrom(e, i + 1, path, n)
    else
      if i == 255 then [] else LeavesFrom(e, i, path, n)
  }

  function Min(a: nat, b: nat): nat
  {
    if a < b then a else b
  }

  /** The state of one dump request: whether the marker has been passed, and the records that fit so far. */
  class Dumper {
    const marker: seq<byte>
    const markerLen: nat
    const room: nat
    var beenToMarker: bool
    var out: seq<Record>

    constructor (marker: seq<byte>, markerLen: nat, room: nat)
      ensures this.marker == marker && this.markerLen == markerLen && this.room == room
      ensures beenToMarker == (marker == []) && out == []
    {
      this.marker, this.markerLen, this.room := marker, markerLen, room;
      beenToMarker, out := marker == [], [];
    }

    /** The records still due below an entry. */
    ghost function Due(e: Entry, path: seq<byte>, n: nat): seq<Record>
      requires Shaped(e, |path|, n) && (!beenToMarker ==> e.Bucket? && |marker| >= n)
      reads this
    {
      if beenToMarker then Leaves(e, path, n) else After(e, path, marker, markerLen, n)
    }

    method Emit(rec: Record) returns (full: bool)
      requires |out| <= room
      modifies this
      ensures full <==> |old(out)| == room
      ensures out == if full then old(out) else old(out) + [rec]
      ensures beenToMarker == old(beenToMarker)
    {
      full := |out| == room;
      if !full {
        out := out + [rec];
      }
    }

    /** Walks the entries of a bucket from index `s` on. */
    method DumpFrom(e: Entry, s: nat, path: seq<byte>, n: nat) returns (full: bool)
      requires beenToMarker && Shaped(e, |path|, n) && e.Bucket? && s <= 256 && |out| <= room
      modifies this
      ensures beenToMarker && Fitted(old(out), LeavesFrom(e, s, path, n), out, room, full)
      decreases e, 0
    {
      ghost var done: seq<Record> := [];
      var i := s;
      full := false;
      while i < 256
        invariant s <= i <= 256 && beenToMarker
        invariant done + LeavesFrom(e, i, path, n) == LeavesFrom(e, s, path, n)
        invariant Fitted(old(out), done, out, room, false) && !full
      {
        ghost var before := out;
        full := DumpEntry(e.kids[i], path + [i], n);
        ghost var here := Leaves(e.kids[i], path + [i], n);
        FittedThen(old(out), done, before, here, out, room, full);
        Regroup(done, here, LeavesFrom(e, i + 1, path, n));
        if full {
          FittedFull(old(out), done + here, out, room, LeavesFrom(e, i + 1, path, n));
          return;
        }
        done := done + here;
        i := i + 1;
      }
    }

    /** Dumps below one entry; returns whether a record did not fit. */
    method DumpEntry(e: Entry, path: seq<byte>, n: nat) returns (full: bool)
      requires Shaped(e, |path|, n) && (!beenToMarker ==> e.Bucket? && |marker| >= n) && |out| <= room
      modifies this
      ensures beenToMarker && Fitted(old(out), old(Due(e, path, n)), out, room, full)
      decreases e, 2
    {
      if e.Leaf? {
        full := Emit(Record(path, e.plen, e.res));
        return;
      }
      if beenToMarker {
        full := DumpFrom(e, 0, path, n);
      } else {
        full := DumpPastMarker(e, path, n);
      }
    }

    /** The part of the walk that follows the marker down. */
    method DumpPastMarker(e: Entry, path: seq<byte>, n: nat) returns (full: bool)
      requires Shaped(e, |path|, n) && !beenToMarker && e.Bucket? && |marker| >= n && |out| <= room
      modifies this
      ensures beenToMarker && Fitted(old(out), After(e, path, marker, markerLen, n), out, room, full)
      decreases e, 1
    {
      var i: nat := marker[|path|];
      var last := i == 255;
      if 8 * (|path| + 1) == markerLen {
        beenToMarker := true;
      }
      ghost var due: seq<Record> := [];
      if e.kids[i].Bucket? && !beenToMarker {
        due := After(e.kids[i], path + [i], marker, markerLen, n);
        full := DumpEntry(e.kids[i], path + [i], n);
        if full {
          FittedFull(old(out), due, out, room, LeavesFrom(e, i + 1, path, n));
          return;
        }
        i := i + 1;
      } else {
        if beenToMarker {
          i := i + 1;
        }
        beenToMarker := true;
      }
      if last {
        assert due + [] == due;
        return false;
      }
      ghost var before := out;
      full := DumpFrom(e, i, path, n);
      FittedThen(old(out), due, before, LeavesFrom(e, i, path, n), out, room, full);
      assert [] + LeavesFrom(e, i, path, n) == LeavesFrom(e, i, path, n);
    }
  }

  /** The records due were appended as far as they fit, and `full` tells whether some did not. */
  ghost predicate Fitted(before: seq<Record>, due: seq<Record>, after: seq<Record>, room: nat, full: bool)
  {
    && |before| <= room && |after| <= room
    && (full <==> |before| + |due| > room)
    && after == if full then before + due[..room - |before|] else before + due
  }

  lemma FittedThen(a: seq<Record>, due: seq<Record>, b: seq<Record>, more: seq<Record>, c: seq<Record>, room: nat,
                   full: bool)
    requires Fitted(a, due, b, room, false) && Fitted(b, more, c, room, full)
    ensures Fitted(a, due + more, c, room, full)
  {
  }

  lemma Regroup(a: seq<Record>, b: seq<Record>, c: seq<Record>)
    ensures a + (b + c) == (a + b) + c
  {
  }

  lemma FittedFull(a: seq<Record>, due: seq<Record>, b: seq<Record>, room: nat, more: seq<Record>)
    requires Fitted(a, due, b, room, true)
    ensures Fitted(a, due + more, b, room, true)
  {
  }

  // ----- pages

  lemma {:induction false} LeavesExtend(e: Entry, path: seq<byte>, n: nat, j: nat)
    requires Shaped(e, |path|, n) && j < |Leaves(e, path, n)|
    ensures path <= Leaves(e, path, n)[j].path && |Leaves(e, path, n)[j].path| <= n
    ensures e.Bucket? ==> |path| < |Leaves(e, path, n)[j].path|
    decreases e, 1, 0
  {
    if e.Bucket? {
      var i, k := LocateLeaf(e, 0, path, n, j);
      LeavesExtend(e.kids[i], path + [i], n, k);
    }
  }

  /** Which entry of a bucket a leaf lies below, and where among the leaves of that entry. */
  lemma {:induction false} LocateLeaf(e: Entry, s: nat, path: seq<byte>, n: nat, j: nat) returns (i: nat, k: nat)
    requires Shaped(e, |path|, n) && e.Bucket? && s <= 256 && j < |LeavesFrom(e, s, path, n)|
    ensures s <= i < 256 && k < |Leaves(e.kids[i], path + [i], n)|
    ensures LeavesFrom(e, s, path, n)[j] == Leaves(e.kids[i], path + [i], n)[k]
    ensures LeavesFrom(e, s, path, n)[j + 1..] ==
      Leaves(e.kids[i], path + [i], n)[k + 1..] + LeavesFrom(e, i + 1, path, n)
    decreases 256 - s
  {
    var here, rest := Leaves(e.kids[s], path + [s], n), LeavesFrom(e, s + 1, path, n);
    if j < |here| {
      i, k := s, j;
      DropWithin(here, rest, j + 1);
    } else {
      i, k := LocateLeaf(e, s + 1, path, n, j - |here|);
      DropPast(here, rest, j + 1);
    }
  }

  lemma DropWithin(a: seq<Record>, b: seq<Record>, j: nat)
    requires j <= |a|
    ensures (a + b)[j..] == a[j..] + b
  {
  }

  lemma DropPast(a: seq<Record>, b: seq<Record>, j: nat)
    requires |a| <= j <= |a| + |b|
    ensures (a + b)[j..] == b[j - |a|..]
  {
  }

  /** Resuming from any record returns exactly the records after it. */
  lemma {:induction false} AfterIsRest(e: Entry, path: seq<byte>, marker: seq<byte>, n: nat, j: nat)
    requires Shaped(e, |path|, n) && e.Bucket? && |marker| >= n && j < |Leaves(e, path, n)|
    requires Leaves(e, path, n)[j].path <= marker
    ensures After(e, path, marker, 8 * |Leaves(e, path, n)[j].path|, n) == Leaves(e, path, n)[j + 1..]
    decreases e
  {
    var r := Leaves(e, path, n)[j];
    var i, k := LocateLeaf(e, 0, path, n, j);
    LeavesExtend(e.kids[i], path + [i], n, k);
    assert marker[|path|] == r.path[|path|] == (path + [i])[|path|] == i;
    if e.kids[i].Bucket? {
      AfterIsRest(e.kids[i], path + [i], marker, n, k);
    } else {
      assert Leaves(e.kids[i], path + [i], n)[k + 1..] == [];
    }
  }

  /** The marker a client sends back: the record's bytes, filled up with zeros. */
  function MarkerFor(r: Record, n: nat): (m: seq<byte>)
    ensures |r.path| <= n ==> r.path <= m && |m| == n
  {
    if |r.path| <= n then r.path + seq(n - |r.path|, _ => 0) else r.path
  }

  /** A dump request as a whole; a table whose root is a leaf yields nothing. */
  method DumpTable(e: Entry, marker: seq<byte>, markerLen: nat, room: nat, n: nat) returns (r: seq<Record>)
    requires Shaped(e, 0, n) && (marker == [] || |marker| >= n)
    ensures r == if e.Leaf? then []
                 else
                   var due := if marker == [] then Leaves(e, [], n) else After(e, [], marker, markerLen, n);
                   due[..Min(|due|, room)]
  {
    if e.Leaf? {
      return [];
    }
    var dumper := new Dumper(marker, markerLen, room);
    var _ := dumper.DumpEntry(e, [], n);
    r := dumper.out;
    ghost var due := if marker == [] then Leaves(e, [], n) else After(e, [], marker, markerLen, n);
    assert r == due[..Min(|due|, room)];
  }

  /** One request with room for `room` records, resuming from record number `done - 1`. */
  ghost function Page(e: Entry, n: nat, done: nat, room: nat): (r: seq<Record>)
    requires Shaped(e, 0, n) && e.Bucket? && done <= |Leaves(e, [], n)|
  {
    if done == 0 then Leaves(e, [], n)[..Min(|Leaves(e, [], n)|, room)]
    else
      var last := Leaves(e, [], n)[done - 1];
      LeavesExtend(e, [], n, done - 1);
      var due := After(e, [], MarkerFor(last, n), 8 * |last.path|, n);
      due[..Min(|due|, room)]
  }

  lemma {:induction false} PageIsNext(e: Entry, n: nat, done: nat, room: nat)
    requires Shaped(e, 0, n) && e.Bucket? && done <= |Leaves(e, [], n)|
    ensures Page(e, n, done, room) == Leaves(e, [], n)[done..Min(|Leaves(e, [], n)|, done + room)]
  {
    var all := Leaves(e, [], n);
    if done > 0 {
      LeavesExtend(e, [], n, done - 1);
      AfterIsRest(e, [], MarkerFor(all[done - 1], n), n, done - 1);
    }
  }

  /** The next `k` records after the first `done`, or as many as there are. */
  function Next(all: seq<Record>, done: nat, k: nat): (r: seq<Record>)
    requires done <= |all|
  {
    all[done..Min(|all|, done + k)]
  }

  function Concat(pages: seq<seq<Record>>): seq<Record>
  {
    if pages == [] then [] else Concat(pages[..|pages| - 1]) + pages[|pages| - 1]
  }

  /** The answers to a sequence of requests, each resuming from the last record returned before. */
  ghost predicate Paging(e: Entry, n: nat, rooms: seq<nat>, pages: seq<seq<Record>>)
    requires Shaped(e, 0, n) && e.Bucket?
  {
    && |pages| == |rooms|
    && forall i :: 0 <= i < |pages| ==>
         |Concat(pages[..i])| <= |Leaves(e, [], n)| && pages[i] == Page(e, n, |Concat(pages[..i])|, rooms[i])
  }

  lemma Paste(all: seq<Record>, x: nat, y: nat)
    ensures Next(all, 0, x) + Next(all, |Next(all, 0, x)|, y) == Next(all, 0, x + y)
  {
  }

  /** Every page starts where the pages before it ended. */
  ghost predicate Contiguous(all: seq<Record>, rooms: seq<nat>, pages: seq<seq<Record>>)
  {
    && |pages| == |rooms|
    && forall i :: 0 <= i < |pages| ==>
         |Concat(pages[..i])| <= |all| && pages[i] == Next(all, |Concat(pages[..i])|, rooms[i])
  }

  lemma {:induction false} ContiguousConcat(all: seq<Record>, rooms: seq<nat>, pages: seq<seq<Record>>, k: nat)
    requires Contiguous(all, rooms, pages) && k <= |pages|
    ensures Concat(pages[..k]) == Next(all, 0, Sum(rooms[..k]))
  {
    if k > 0 {
      var i := k - 1;
      ContiguousConcat(all, rooms, pages, i);
      assert pages[..k][..i] == pages[..i] && rooms[..k][..i] == rooms[..i];
      Paste(all, Sum(rooms[..i]), rooms[i]);
    }
  }

  /** Page by page, a dump yields the leaves in order, with no gap and no repeat, whatever the page sizes. */
  lemma {:induction false} PagesAreLeaves(e: Entry, n: nat, rooms: seq<nat>, pages: seq<seq<Record>>, k: nat)
    requires Shaped(e, 0, n) && e.Bucket? && Paging(e, n, rooms, pages) && k <= |pages|
    ensures Concat(pages[..k]) == Next(Leaves(e, [], n), 0, Sum(rooms[..k]))
  {
    forall i | 0 <= i < |pages|
      ensures pages[i] == Next(Leaves(e, [], n), |Concat(pages[..i])|, rooms[i])
    {
      PageIsNext(e, n, |Concat(pages[..i])|, rooms[i]);
    }
    ContiguousConcat(Leaves(e, [], n), rooms, pages, k);
  }

  /** Pages of at least one record each, as many as there are leaves, give the whole table. */
  lemma {:induction false} EnoughPages(e: Entry, n: nat, rooms: seq<nat>, pages: seq<seq<Record>>)
    requires Shaped(e, 0, n) && e.Bucket? && Paging(e, n, rooms, pages)
    requires |rooms| >= |Leaves(e, [], n)| && forall i :: 0 <= i < |rooms| ==> rooms[i] >= 1
    ensures Concat(pages) == Leaves(e, [], n)
  {
    assert pages[..|pages|] == pages && rooms[..|rooms|] == rooms;
    SumAtLeast(rooms);
    PagesAreLeaves(e, n, rooms, pages, |pages|);
  }

  lemma {:induction false} SumAtLeast(s: seq<nat>)
    requires forall i :: 0 <= i < |s| ==> s[i] >= 1
    ensures Sum(s) >= |s|
  {
    if s != [] {
      SumAtLeast(s[..|s| - 1]);
    }
  }

  // ----- what the leaves say about the table

  /** Where a leaf of one entry of a bucket is among those of the bucket. */
  lemma {:induction false} PlaceLeaf(e: Entry, s: nat, path: seq<byte>, n: nat, i: nat, k: nat) returns (j: nat)
    requires Shaped(e, |path|, n) && e.Bucket? && s <= i < 256 && k < |Leaves(e.kids[i], path + [i], n)|
    ensures j < |LeavesFrom(e, s, path, n)| && LeavesFrom(e, s, path, n)[j] == Leaves(e.kids[i], path + [i], n)[k]
    decreases i - s
  {
    if s == i {
      j := k;
    } else {
      j := PlaceLeaf(e, s + 1, path, n, i, k);
      j := j + |Leaves(e.kids[s], path + [s], n)|;
    }
  }

  /** The record is for a block of addresses that holds `a`, and says what a lookup of `a` says. */
  ghost predicate Answers(r: Record, e: Entry, a: seq<byte>, l: nat)
    requires Shaped(e, l, |a|)
  {
    r.path <= a && Answer(r.plen, r.res) == Lookup(e, a, l)
  }

  /** Every address has a record. */
  lemma {:induction false} LeafFor(e: Entry, path: seq<byte>, a: seq<byte>) returns (j: nat)
    requires Shaped(e, |path|, |a|) && path <= a
    ensures j < |Leaves(e, path, |a|)| && Answers(Leaves(e, path, |a|)[j], e, a, |path|)
    decreases e
  {
    if e.Leaf? {
      j := 0;
    } else {
      var i := a[|path|];
      assert path + [i] <= a;
      var k := LeafFor(e.kids[i], path + [i], a);
      j := PlaceLeaf(e, 0, path, |a|, i, k);
    }
  }

  /** The first block of addresses comes before the second and does not overlap it. */
  ghost predicate Precedes(x: seq<byte>, y: seq<byte>)
  {
    exists k :: 0 <= k < |x| && k < |y| && x[..k] == y[..k] && x[k] < y[k]
  }

  /** Two leaves of a bucket lie below one of its entries or below two, in the same order. */
  lemma LocateTwo(e: Entry, path: seq<byte>, n: nat, j: nat, m: nat) returns (i: nat, k: nat, i': nat, k': nat)
    requires Shaped(e, |path|, n) && e.Bucket? && j < m < |Leaves(e, path, n)|
    ensures i <= i' < 256 && (i == i' ==> k < k')
    ensures k < |Leaves(e.kids[i], path + [i], n)| && k' < |Leaves(e.kids[i'], path + [i'], n)|
    ensures Leaves(e, path, n)[j] == Leaves(e.kids[i], path + [i], n)[k]
    ensures Leaves(e, path, n)[m] == Leaves(e.kids[i'], path + [i'], n)[k']
  {
    i, k := LocateLeaf(e, 0, path, n, j);
    assert Shaped(e.kids[i], |path + [i]|, n);
    var here, rest, d := Leaves(e.kids[i], path + [i], n), LeavesFrom(e, i + 1, path, n), m - j - 1;
    var left := |here| - k - 1;
    assert Leaves(e, path, n)[m] == Leaves(e, path, n)[j + 1..][d];
    InConcat(here, rest, k + 1, d);
    if d < left {
      i', k' := i, k + 1 + d;
    } else {
      i', k' := LocateLeaf(e, i + 1, path, n, d - left);
    }
  }

  lemma {:induction false} LeavesAscend(e: Entry, path: seq<byte>, n: nat, j: nat, m: nat)
    requires Shaped(e, |path|, n) && j < m < |Leaves(e, path, n)|
    ensures Precedes(Leaves(e, path, n)[j].path, Leaves(e, path, n)[m].path)
    decreases e
  {
    var i, k, i', k' := LocateTwo(e, path, n, j, m);
    assert Shaped(e.kids[i], |path| + 1, n) && |path + [i]| == |path| + 1;
    if i == i' {
      LeavesAscend(e.kids[i], path + [i], n, k, k');
    } else {
      LeavesApart(e, path, n, i, k, i', k');
    }
  }

  lemma InConcat(a: seq<Record>, b: seq<Record>, k: nat, d: nat)
    requires k <= |a| && d < |a| - k + |b|
    ensures (a[k..] + b)[d] == if d < |a| - k then a[k + d] else b[d - (|a| - k)]
  {
  }

  /** Leaves below different entries of a bucket are in the order of the entries. */
  lemma LeavesApart(e: Entry, path: seq<byte>, n: nat, i: nat, k: nat, i': nat, k': nat)
    requires Shaped(e, |path|, n) && e.Bucket? && i < i' < 256
    requires k < |Leaves(e.kids[i], path + [i], n)| && k' < |Leaves(e.kids[i'], path + [i'], n)|
    ensures Precedes(Leaves(e.kids[i], path + [i], n)[k].path, Leaves(e.kids[i'], path + [i'], n)[k'].path)
  {
    LeavesExtend(e.kids[i], path + [i], n, k);
    LeavesExtend(e.kids[i'], path + [i'], n, k');
    Branched(path, i, i', Leaves(e.kids[i], path + [i], n)[k].path, Leaves(e.kids[i'], path + [i'], n)[k'].path);
  }

  lemma Branched(path: seq<byte>, i: byte, i': byte, x: seq<byte>, y: seq<byte>)
    requires i < i' && path + [i] <= x && path + [i'] <= y
    ensures Precedes(x, y)
  {
    var k := |path|;
    assert x[..k] == path == y[..k] && x[k] == i && y[k] == i';
  }

  lemma OneBlock(x: seq<byte>, y: seq<byte>, a: seq<byte>)
    requires Precedes(x, y)
    ensures !(x <= a && y <= a)
  {
  }

  /** The records are in ascending order, and for every address exactly one of them says what a lookup says. */
  ghost predicate Tabulates(records: seq<Record>, e: Entry, n: nat)
    requires Shaped(e, 0, n)
  {
    && (forall j, m :: 0 <= j < m < |records| ==> Precedes(records[j].path, records[m].path))
    && forall a: seq<byte> :: |a| == n ==> HasRecord(records, e, a)
  }

  ghost predicate HasRecord(records: seq<Record>, e: Entry, a: seq<byte>)
    requires Shaped(e, 0, |a|)
  {
    exists j :: 0 <= j < |records| && Answers(records[j], e, a, 0) && OnlyRecord(records, a, j)
  }

  ghost predicate OnlyRecord(records: seq<Record>, a: seq<byte>, j: nat)
  {
    forall m :: 0 <= m < |records| && records[m].path <= a ==> m == j
  }

  lemma LeavesTabulate(e: Entry, n: nat)
    requires Shaped(e, 0, n)
    ensures Tabulates(Leaves(e, [], n), e, n)
  {
    var all := Leaves(e, [], n);
    forall j, m | 0 <= j < m < |all| ensures Precedes(all[j].path, all[m].path) { LeavesAscend(e, [], n, j, m); }
    forall a: seq<byte> | |a| == n ensures HasRecord(all, e, a) {
      var j := LeafFor(e, [], a);
      forall m | 0 <= m < |all| && all[m].path <= a ensures m == j {
        if m < j { OneBlock(all[m].path, all[j].path, a); }
        if j < m { OneBlock(all[j].path, all[m].path, a); }
      }
    }
  }

  /** The pages of a whole dump tabulate what lookups return, address by address. */
  lemma DumpTabulates(e: Entry, n: nat, rooms: seq<nat>, pages: seq<seq<Record>>)
    requires Shaped(e, 0, n) && e.Bucket? && Paging(e, n, rooms, pages)
    requires |rooms| >= |Leaves(e, [], n)| && forall i :: 0 <= i < |rooms| ==> rooms[i] >= 1
    ensures Tabulates(Concat(pages), e, n)
  {
    EnoughPages(e, n, rooms, pages);
    LeavesTabulate(e, n);
  }

  /** So if the trie stands for a set of routes, the records tell for every address its longest match. */
  lemma TabulatesLongestMatch(all: seq<Record>, e: Entry, R: RouteSet, a: seq<byte>)
    requires Shaped(e, 0, |a|) && MtrieRoutes.Represents(e, R, [], |a|) && Tabulates(all, e, |a|)
    ensures exists j :: 0 <= j < |all| && all[j].path <= a
                        && Answer(all[j].plen, all[j].res) == Best(R, AddressBits(a))
  {
    assert HasRecord(all, e, a);
    RootIsBest(e, R, a);
  }

  lemma RootIsBest(e: Entry, R: RouteSet, a: seq<byte>)
    requires Shaped(e, 0, |a|) && MtrieRoutes.Represents(e, R, [], |a|)
    ensures Lookup(e, a, 0) == Best(R, AddressBits(a))
  {
    assert a[..0] == [];
    MtrieRoutes.LookupIsBest(e, R, a, 0);
  }

  // ----- resuming from any marker, also one that names no record any more

  /** At which byte the walk takes the marker to end; beyond the last byte if it never does. */
  function Depth(markerLen: nat, n: nat): (k: nat)
    ensures k > 0
  {
    if markerLen % 8 == 0 && 8 <= markerLen <= 8 * n then markerLen / 8 else n + 1
  }

  /**
   * The record comes after the first `k` bytes of the marker; or it is a leaf the marker leads into, if the byte of
   * the marker that leads there is not the last one.
   */
  ghost predicate Resumes(path: seq<byte>, marker: seq<byte>, k: nat)
  {
    || (exists q {:trigger path[q]} ::
          0 <= q < |path| && q < k && q < |marker| && path[..q] == marker[..q] && marker[q] < path[q])
    || (path <= marker && 0 < |path| < k && marker[|path| - 1] != 255)
  }

  /** The records from `cut` on, and no others, are due. */
  ghost predicate CutAt(all: seq<Record>, cut: nat, marker: seq<byte>, k: nat)
  {
    && cut <= |all|
    && forall j {:trigger all[j]} :: 0 <= j < |all| ==> (Resumes(all[j].path, marker, k) <==> j >= cut)
  }

  ghost predicate NoneDue(records: seq<Record>, marker: seq<byte>, k: nat)
  {
    forall j {:trigger records[j]} :: 0 <= j < |records| ==> !Resumes(records[j].path, marker, k)
  }

  ghost predicate AllDue(records: seq<Record>, marker: seq<byte>, k: nat)
  {
    forall j {:trigger records[j]} :: 0 <= j < |records| ==> Resumes(records[j].path, marker, k)
  }

  lemma CutConcat(a: seq<Record>, b: seq<Record>, c: seq<Record>, cut: nat, marker: seq<byte>, k: nat)
    requires NoneDue(a, marker, k) && CutAt(b, cut, marker, k) && AllDue(c, marker, k)
    ensures CutAt(a + b + c, |a| + cut, marker, k) && (a + b + c)[|a| + cut..] == b[cut..] + c
  {
    var all := a + b + c;
    forall j | 0 <= j < |all| ensures Resumes(all[j].path, marker, k) <==> j >= |a| + cut {
      if j < |a| {
        assert all[j] == a[j];
      } else if j < |a| + |b| {
        assert all[j] == b[j - |a|];
      } else {
        assert all[j] == c[j - |a| - |b|];
      }
    }
  }

  /** The leaves below the entries of a bucket from `s` up to `i`. */
  function LeavesTo(e: Entry, s: nat, i: nat, path: seq<byte>, n: nat): seq<Record>
    requires Shaped(e, |path|, n) && e.Bucket? && s <= i <= 256
    decreases i - s
  {
    if s == i then [] else Leaves(e.kids[s], path + [s], n) + LeavesTo(e, s + 1, i, path, n)
  }

  lemma {:induction false} LeavesSplit(e: Entry, s: nat, i: nat, path: seq<byte>, n: nat)
    requires Shaped(e, |path|, n) && e.Bucket? && s <= i <= 256
    ensures LeavesFrom(e, s, path, n) == LeavesTo(e, s, i, path, n) + LeavesFrom(e, i, path, n)
    decreases i - s
  {
    if s < i {
      assert Shaped(e.kids[s], |path + [s]|, n);
      LeavesSplit(e, s + 1, i, path, n);
      Regroup(Leaves(e.kids[s], path + [s], n), LeavesTo(e, s + 1, i, path, n), LeavesFrom(e, i, path, n));
    }
  }

  /** The records lie below the entries from `lo` up to `hi` of the bucket at `path`. */
  ghost predicate Below(records: seq<Record>, path: seq<byte>, lo: nat, hi: nat)
  {
    forall j {:trigger records[j]} :: 0 <= j < |records| ==>
      path < records[j].path && lo <= records[j].path[|path|] < hi
  }

  lemma LeavesBelow(e: Entry, path: seq<byte>, n: nat, i: byte)
    requires Shaped(e, |path| + 1, n)
    ensures Below(Leaves(e, path + [i], n), path, i, i + 1)
  {
    var records := Leaves(e, path + [i], n);
    forall j | 0 <= j < |records| ensures path < records[j].path && records[j].path[|path|] == i {
      LeavesExtend(e, path + [i], n, j);
      assert records[j].path[|path|] == (path + [i])[|path|];
    }
  }

  lemma {:induction false} LeavesToBelow(e: Entry, s: nat, i: nat, path: seq<byte>, n: nat)
    requires Shaped(e, |path|, n) && e.Bucket? && s <= i <= 256
    ensures Below(LeavesTo(e, s, i, path, n), path, s, i)
    decreases i - s
  {
    if s < i {
      LeavesBelow(e.kids[s], path, n, s);
      LeavesToBelow(e, s + 1, i, path, n);
    }
  }

  lemma BeforeMarker(records: seq<Record>, path: seq<byte>, marker: seq<byte>, k: nat, hi: nat)
    requires path < marker && |path| < k && Below(records, path, 0, hi) && hi <= marker[|path|]
    ensures NoneDue(records, marker, k)
  {
    forall j | 0 <= j < |records| ensures !Resumes(records[j].path, marker, k) {
      NotResumed(records[j].path, path, marker, k);
    }
  }

  lemma NotResumed(r: seq<byte>, path: seq<byte>, marker: seq<byte>, k: nat)
    requires path < marker && path < r && r[|path|] < marker[|path|]
    ensures !Resumes(r, marker, k)
  {
    forall q | 0 <= q < |r| && q < |marker| && r[..q] == marker[..q] ensures !(marker[q] < r[q]) {
      if q < |path| { assert r[q] == path[q] == marker[q]; }
    }
  }

  lemma AfterMarker(records: seq<Record>, path: seq<byte>, marker: seq<byte>, k: nat, lo: nat)
    requires path < marker && |path| < k && Below(records, path, lo, 256) && marker[|path|] < lo
    ensures AllDue(records, marker, k)
  {
    forall j | 0 <= j < |records| ensures Resumes(records[j].path, marker, k) {
      var r := records[j].path;
      assert r[..|path|] == path == marker[..|path|] && marker[|path|] < r[|path|];
    }
  }

  lemma UnderMarker(records: seq<Record>, path: seq<byte>, marker: seq<byte>, i: byte)
    requires path < marker && i == marker[|path|] && Below(records, path, i, i + 1)
    ensures NoneDue(records, marker, |path| + 1)
  {
    var k := |path| + 1;
    forall j | 0 <= j < |records| ensures !Resumes(records[j].path, marker, k) {
      var r := records[j].path;
      forall q | 0 <= q < |r| && q < k && q < |marker| ensures !(marker[q] < r[q]) {
        if q < |path| { assert r[q] == path[q] == marker[q]; }
      }
    }
  }

  /** Whatever the marker, the walk returns the records that come after it, or the leaf it leads into as well. */
  lemma {:induction false} AfterExact(e: Entry, path: seq<byte>, marker: seq<byte>, markerLen: nat, n: nat)
    returns (cut: nat)
    requires Shaped(e, |path|, n) && e.Bucket? && |marker| >= n && path < marker && |path| < Depth(markerLen, n)
    ensures CutAt(Leaves(e, path, n), cut, marker, Depth(markerLen, n))
    ensures After(e, path, marker, markerLen, n) == Leaves(e, path, n)[cut..]
    decreases e
  {
    var k, i: nat := Depth(markerLen, n), marker[|path|];
    assert Shaped(e.kids[i], |path| + 1, n);
    var a, b, c := LeavesTo(e, 0, i, path, n), Leaves(e.kids[i], path + [i], n), LeavesFrom(e, i + 1, path, n);
    Parts(e, path, n, i);
    LeavesToBelow(e, 0, i, path, n);
    BeforeMarker(a, path, marker, k, i);
    LeavesSplit(e, i + 1, 256, path, n);
    LeavesToBelow(e, i + 1, 256, path, n);
    assert c + [] == c;
    AfterMarker(c, path, marker, k, i + 1);
    var cutB := HereExact(e, path, marker, markerLen, n, i);
    CutConcat(a, b, c, cutB, marker, k);
    cut := |a| + cutB;
    AfterIs(e, path, marker, markerLen, n, i, cutB);
  }

  lemma Parts(e: Entry, path: seq<byte>, n: nat, i: byte)
    requires Shaped(e, |path|, n) && e.Bucket?
    ensures Leaves(e, path, n) == LeavesTo(e, 0, i, path, n) + Leaves(e.kids[i], path + [i], n)
                                  + LeavesFrom(e, i + 1, path, n)
  {
    LeavesSplit(e, 0, i, path, n);
    Regroup(LeavesTo(e, 0, i, path, n), Leaves(e.kids[i], path + [i], n), LeavesFrom(e, i + 1, path, n));
  }

  /** Which of the records below the entry the marker leads to are due. */
  lemma {:induction false} HereExact(e: Entry, path: seq<byte>, marker: seq<byte>, markerLen: nat, n: nat, i: byte)
    returns (cut: nat)
    requires Shaped(e, |path|, n) && e.Bucket? && |marker| >= n && path < marker && |path| < Depth(markerLen, n)
    requires i == marker[|path|] && Shaped(e.kids[i], |path| + 1, n)
    ensures CutAt(Leaves(e.kids[i], path + [i], n), cut, marker, Depth(markerLen, n))
    ensures var b := Leaves(e.kids[i], path + [i], n);
            if 8 * (|path| + 1) == markerLen then cut == |b|
            else if e.kids[i].Bucket? then b[cut..] == After(e.kids[i], path + [i], marker, markerLen, n)
            else cut == if i == 255 then 1 else 0
    decreases e, 0
  {
    var kid, b := e.kids[i], Leaves(e.kids[i], path + [i], n);
    assert path + [i] <= marker;
    LeavesBelow(kid, path, n, i);
    if 8 * (|path| + 1) == markerLen {
      UnderMarker(b, path, marker, i);
      cut := |b|;
    } else if kid.Bucket? {
      cut := AfterExact(kid, path + [i], marker, markerLen, n);
    } else {
      LeafDue(path, marker, Depth(markerLen, n), i);
      cut := if i == 255 then 1 else 0;
    }
  }

  lemma LeafDue(path: seq<byte>, marker: seq<byte>, k: nat, i: byte)
    requires path + [i] <= marker && |path| + 1 < k
    ensures Resumes(path + [i], marker, k) <==> i != 255
  {
    var r := path + [i];
    forall q | 0 <= q < |r| && q < |marker| ensures marker[q] == r[q] { }
  }

  lemma AfterIs(e: Entry, path: seq<byte>, marker: seq<byte>, markerLen: nat, n: nat, i: byte, cut: nat)
    requires Shaped(e, |path|, n) && e.Bucket? && |marker| >= n && i == marker[|path|]
    requires Shaped(e.kids[i], |path| + 1, n)
    requires var b := Leaves(e.kids[i], path + [i], n);
             && cut <= |b|
             && if 8 * (|path| + 1) == markerLen then cut == |b|
                else if e.kids[i].Bucket? then b[cut..] == After(e.kids[i], path + [i], marker, markerLen, n)
                else cut == if i == 255 then 1 else 0
    ensures After(e, path, marker, markerLen, n) ==
              Leaves(e.kids[i], path + [i], n)[cut..] + LeavesFrom(e, i + 1, path, n)
  {
    var b, c := Leaves(e.kids[i], path + [i], n), LeavesFrom(e, i + 1, path, n);
    if 8 * (|path| + 1) == markerLen {
      assert b[cut..] + c == c;
    } else if e.kids[i].Leaf? {
      if i == 255 { assert b[1..] + c == []; } else { assert b[0..] == b; }
    }
  }
}
