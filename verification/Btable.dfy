/**
 * Big tables: an array of entries spread over partitions of a limited size. The table is
 * seen as one range of bytes; an offset into it is found in exactly one partition.
 */
module Btable {
  import opened Bits
  import opened Numbers
  import opened Words

  datatype Option<T> = None | Some(value: T)

  datatype Part = Part(offset: nat, size: nat)

  /** The partitions, the number of entries, their size as 16 bits hold it, and the size of a full partition. */
  datatype Table = Table(parts: seq<Part>, entries: nat, entrySize: nat, limit: nat)

  /** The most memory asked for in one piece. */
  const LIMIT := 4 * 1024 * 1024

  /** Entry sizes and numbers of partitions are kept in 16 bits. */
  const SHORT := 65536

  /** A byte of the memory behind a table: partition and position in it, or none. */
  datatype Address = NoAddress | At(part: nat, byte: nat)

  /** The partitions cover the bytes from `from` to `to` without gap or overlap. */
  predicate Tiles(parts: seq<Part>, from: nat, to: nat)
  {
    if parts == [] then from == to
    else parts[0].offset == from && Tiles(parts[1..], from + parts[0].size, to)
  }

  /** The byte exists. */
  predicate InMemory(parts: seq<Part>, a: Address)
  {
    a.At? && a.part < |parts| && a.byte < parts[a.part].size
  }

  lemma {:induction false} TilesAppend(parts: seq<Part>, from: nat, mid: nat, size: nat)
    requires Tiles(parts, from, mid)
    ensures Tiles(parts + [Part(mid, size)], from, mid + size)
  {
    if parts == [] {
      assert (parts + [Part(mid, size)])[1..] == [];
    } else {
      assert (parts + [Part(mid, size)])[1..] == parts[1..] + [Part(mid, size)];
      TilesAppend(parts[1..], from + parts[0].size, mid, size);
    }
  }

  lemma {:induction false} TilesWithin(parts: seq<Part>, from: nat, to: nat, i: nat)
    requires Tiles(parts, from, to) && i < |parts|
    ensures from <= parts[i].offset && parts[i].offset + parts[i].size <= to
  {
    TilesOrder(parts[1..], from + parts[0].size, to);
    if i > 0 { TilesWithin(parts[1..], from + parts[0].size, to, i - 1); }
  }

  lemma {:induction false} TilesOrder(parts: seq<Part>, from: nat, to: nat)
    requires Tiles(parts, from, to)
    ensures from <= to
  {
    if parts != [] { TilesOrder(parts[1..], from + parts[0].size, to); }
  }

  lemma {:induction false} TilesDisjoint(parts: seq<Part>, from: nat, to: nat, i: nat, j: nat)
    requires Tiles(parts, from, to) && i < j < |parts|
    ensures parts[i].offset + parts[i].size <= parts[j].offset
  {
    if i == 0 {
      TilesWithin(parts[1..], from + parts[0].size, to, j - 1);
    } else {
      TilesDisjoint(parts[1..], from + parts[0].size, to, i - 1, j - 1);
    }
  }

  lemma {:induction false} TilesCover(parts: seq<Part>, from: nat, to: nat, x: nat) returns (i: nat)
    requires Tiles(parts, from, to) && from <= x < to
    ensures i < |parts| && parts[i].offset <= x < parts[i].offset + parts[i].size
  {
    if x < from + parts[0].size {
      i := 0;
    } else {
      var k := TilesCover(parts[1..], from + parts[0].size, to, x);
      i := k + 1;
    }
  }

  /**
   * The address of an offset: a byte of memory whose place in the whole range is the offset,
   * or none beyond the end.
   */
  method GetAddress(t: Table, offset: nat, ghost total: nat) returns (a: Address)
    requires Tiles(t.parts, 0, total)
    ensures offset < total ==> InMemory(t.parts, a) && t.parts[a.part].offset + a.byte == offset
    ensures offset >= total ==> a == NoAddress
  {
    var parts := t.parts;
    for i := 0 to |parts|
      invariant forall k {:trigger parts[k]} ::
                  0 <= k < i ==> !(parts[k].offset <= offset < parts[k].offset + parts[k].size)
    {
      TilesWithin(parts, 0, total, i);
      if offset >= parts[i].offset && offset < parts[i].offset + parts[i].size {
        return At(i, offset - parts[i].offset);
      }
    }
    if offset < total { var i := TilesCover(parts, 0, total, offset); }
    a := NoAddress;
  }

  /** The first byte of an entry, found by division. */
  function Get(t: Table, e: nat): Address
    requires t.limit > 0
  {
    if e >= t.entries then NoAddress
    else
      var offset := e * t.entrySize % WRAP;
      if offset / t.limit >= |t.parts| then NoAddress else At(offset / t.limit, offset % t.limit)
  }

  /** No two bytes have the same offset: offsets and bytes correspond one to one. */
  lemma AddressUnique(parts: seq<Part>, total: nat, a: Address, b: Address)
    requires Tiles(parts, 0, total) && InMemory(parts, a) && InMemory(parts, b)
    requires parts[a.part].offset + a.byte == parts[b.part].offset + b.byte
    ensures a == b
  {
    if a.part < b.part {
      TilesDisjoint(parts, 0, total, a.part, b.part);
    } else if b.part < a.part {
      TilesDisjoint(parts, 0, total, b.part, a.part);
    }
  }

  /** Every byte of memory has an offset in the table's range. */
  lemma AddressInRange(parts: seq<Part>, total: nat, a: Address)
    requires Tiles(parts, 0, total) && InMemory(parts, a)
    ensures parts[a.part].offset + a.byte < total
  {
    TilesWithin(parts, 0, total, a.part);
  }

  // ----- entries

  /** Every partition starts and ends between entries. */
  predicate Aligned(parts: seq<Part>, size: nat)
    requires size > 0
  {
    forall i {:trigger parts[i]} ::
      0 <= i < |parts| ==> parts[i].offset % size == 0 && parts[i].size % size == 0
  }

  /** All partitions but the last are full. */
  predicate Uniform(parts: seq<Part>, limit: nat)
  {
    forall i {:trigger parts[i]} ::
      0 <= i < |parts| ==> parts[i].offset == limit * i && (i < |parts| - 1 ==> parts[i].size == limit)
  }

  lemma NoCrossing(e: nat, size: nat, bound: nat)
    requires size > 0 && bound % size == 0 && size * e < bound
    ensures size * e + size <= bound
  {
    var q := bound / size;
    assert bound == size * q;
    if q <= e { MulMono(size, q, e); }
    MulMono(size, e + 1, q);
    assert size * (e + 1) == size * e + size;
  }

  lemma MultipleAdd(a: nat, b: nat, size: nat)
    requires size > 0 && a % size == 0 && b % size == 0
    ensures (a + b) % size == 0
  {
    assert a + b == size * (a / size + b / size);
    DivUnique(a + b, size, a / size + b / size, 0);
  }

  /** No entry lies in two partitions. */
  lemma EntryInOnePart(parts: seq<Part>, total: nat, size: nat, e: nat, i: nat, j: nat, x: nat, y: nat)
    requires size > 0 && Tiles(parts, 0, total) && Aligned(parts, size) && i < |parts| && j < |parts|
    requires size * e <= x < size * e + size && size * e <= y < size * e + size
    requires parts[i].offset <= x < parts[i].offset + parts[i].size
    requires parts[j].offset <= y < parts[j].offset + parts[j].size
    ensures i == j
  {
    if i < j {
      TilesDisjoint(parts, 0, total, i, j);
      assert parts[j].offset % size == 0;
      NoCrossing(e, size, parts[j].offset);
    } else if j < i {
      TilesDisjoint(parts, 0, total, j, i);
      assert parts[i].offset % size == 0;
      NoCrossing(e, size, parts[i].offset);
    }
  }

  // ----- finding entries by division

  /** A table whose partitions are full up to the last and hold whole entries, as many as it says. */
  ghost predicate Sound(t: Table, total: nat)
  {
    && Tiles(t.parts, 0, total) && Uniform(t.parts, t.limit) && total < WRAP
    && t.limit > 0 && t.entrySize > 0 && Aligned(t.parts, t.entrySize) && t.entries * t.entrySize <= total
  }

  /** The entry has `size` bytes of memory from its first byte on. */
  ghost predicate HasRoom(t: Table, e: nat, size: nat)
    requires t.limit > 0
  {
    var a := Get(t, e);
    a.At? && a.part < |t.parts| && a.byte + size <= t.parts[a.part].size
  }

  predicate Apart(a: Address, b: Address, size: nat)
  {
    a.At? && b.At? ==> a.part != b.part || a.byte + size <= b.byte || b.byte + size <= a.byte
  }

  /** Every entry has `size` bytes of memory that no other entry has. */
  ghost predicate OwnMemory(t: Table, size: nat)
    requires t.limit > 0
  {
    && (forall e :: 0 <= e < t.entries ==> HasRoom(t, e, size))
    && (forall e, f {:trigger Get(t, e), Get(t, f)} :: 0 <= e < f < t.entries ==> Apart(Get(t, e), Get(t, f), size))
  }

  lemma DivideOffset(parts: seq<Part>, limit: nat, total: nat, offset: nat)
    requires Tiles(parts, 0, total) && Uniform(parts, limit) && limit > 0 && offset < total
    requires parts[|parts| - 1].size <= limit
    ensures var i := offset / limit;
            i < |parts| && parts[i].offset + offset % limit == offset && offset % limit < parts[i].size
  {
    var i := TilesCover(parts, 0, total, offset);
    DivUnique(offset, limit, i, offset - limit * i);
  }

  lemma EntryBelow(t: Table, total: nat, e: nat)
    requires Sound(t, total) && e < t.entries
    ensures e * t.entrySize + t.entrySize <= total && e * t.entrySize % WRAP == e * t.entrySize
  {
    MulMono(t.entrySize, e + 1, t.entries);
    assert t.entrySize * (e + 1) == e * t.entrySize + t.entrySize;
  }

  /**
   * Division finds the first byte of an entry where the search over partitions finds it, and the
   * whole entry is there.
   */
  lemma GetIsAddress(t: Table, total: nat, e: nat)
    requires Sound(t, total) && e < t.entries && t.parts[|t.parts| - 1].size <= t.limit
    ensures var a := Get(t, e);
            InMemory(t.parts, a) && t.parts[a.part].offset + a.byte == e * t.entrySize && HasRoom(t, e, t.entrySize)
  {
    var offset := e * t.entrySize;
    EntryBelow(t, total, e);
    DivideOffset(t.parts, t.limit, total, offset);
    var p := t.parts[offset / t.limit];
    assert p.offset % t.entrySize == 0 && p.size % t.entrySize == 0;
    MultipleAdd(p.offset, p.size, t.entrySize);
    assert offset == t.entrySize * e;
    NoCrossing(e, t.entrySize, p.offset + p.size);
  }

  lemma OwnEntries(t: Table, total: nat)
    requires Sound(t, total) && t.parts != [] && t.parts[|t.parts| - 1].size <= t.limit
    ensures OwnMemory(t, t.entrySize)
  {
    forall e | 0 <= e < t.entries ensures HasRoom(t, e, t.entrySize) {
      GetIsAddress(t, total, e);
    }
    forall e, f | 0 <= e < f < t.entries ensures Apart(Get(t, e), Get(t, f), t.entrySize) {
      GetIsAddress(t, total, e);
      GetIsAddress(t, total, f);
      MulMono(t.entrySize, e + 1, f);
      assert t.entrySize * (e + 1) == e * t.entrySize + t.entrySize && t.entrySize * f == f * t.entrySize;
    }
  }

  // ----- making a table

  /** The memory asked for, as it is computed: a 32-bit product. */
  function Total(entries: nat, size: nat): nat
  {
    entries * size % WRAP
  }

  /** A table can be made unless it would be empty, or needs several partitions that do not hold whole entries. */
  predicate CanAlloc(entries: nat, size: nat)
  {
    Total(entries, size) > 0 && (Total(entries, size) >= LIMIT ==> size > 0 && LIMIT % size == 0)
  }

  function Full(n: nat): (parts: seq<Part>)
    ensures |parts| == n && forall i {:trigger parts[i]} :: 0 <= i < n ==> parts[i] == Part(LIMIT * i, LIMIT)
  {
    if n == 0 then [] else Full(n - 1) + [Part(LIMIT * (n - 1), LIMIT)]
  }

  /** Full partitions one after the other, and one for what is left over. */
  function Partitions(total: nat): seq<Part>
  {
    Full(total / LIMIT)
    + if total % LIMIT > 0 then [Part(LIMIT * (total / LIMIT), total % LIMIT)] else []
  }

  function Made(entries: nat, size: nat): Table
  {
    Table(Partitions(Total(entries, size)), entries, size % SHORT, LIMIT)
  }

  method Alloc(entries: nat, size: nat) returns (t: Option<Table>)
    ensures t == if CanAlloc(entries, size) then Some(Made(entries, size)) else None
  {
    var total := Total(entries, size);
    var numParts, remainder := total / LIMIT, total % LIMIT;
    if numParts > 0 && LIMIT % size != 0 {
      return None;
    }
    if numParts == 0 && remainder == 0 {
      return None;
    }
    var parts, offset := [], 0;
    for i := 0 to numParts
      invariant offset == LIMIT * i && parts == Full(i)
    {
      parts := parts + [Part(offset, LIMIT)];
      offset := offset + LIMIT;
    }
    if remainder > 0 {
      parts := parts + [Part(offset, remainder)];
    }
    assert parts == Partitions(total);
    t := Some(Table(parts, entries, size % SHORT, LIMIT));
  }

  lemma {:induction false} FullTiles(n: nat)
    ensures Tiles(Full(n), 0, LIMIT * n)
  {
    if n > 0 {
      FullTiles(n - 1);
      TilesAppend(Full(n - 1), 0, LIMIT * (n - 1), LIMIT);
    }
  }

  lemma PartitionsTile(total: nat)
    ensures Tiles(Partitions(total), 0, total) && Uniform(Partitions(total), LIMIT)
    ensures total > 0 ==> Partitions(total) != [] && Partitions(total)[|Partitions(total)| - 1].size <= LIMIT
  {
    var n, parts := total / LIMIT, Partitions(total);
    FullTiles(n);
    if total % LIMIT > 0 {
      TilesAppend(Full(n), 0, LIMIT * n, total % LIMIT);
    } else {
      assert parts == Full(n);
    }
  }

  lemma Small(x: nat, m: nat)
    requires x < m
    ensures x % m == x
  {
  }

  lemma PartitionsAligned(entries: nat, size: nat)
    requires size > 0 && (entries * size >= LIMIT ==> LIMIT % size == 0)
    ensures Aligned(Partitions(entries * size), size)
  {
    var total := entries * size;
    var parts := Partitions(total);
    RemainderWhole(entries, size, LIMIT);
    if total >= LIMIT {
      forall i | 0 <= i < |parts| ensures parts[i].offset % size == 0 && parts[i].size % size == 0 {
        MultipleTimes(LIMIT, i, size);
      }
    } else if total > 0 {
      OnePartition(total);
      Small(total, LIMIT);
    }
  }

  lemma MultipleTimes(a: nat, i: nat, size: nat)
    requires size > 0 && a % size == 0
    ensures a * i % size == 0
  {
    var q := a / size;
    assert a * i == size * (q * i) by { assert a == size * q; }
    DivUnique(a * i, size, q * i, 0);
  }

  lemma RemainderWhole(entries: nat, size: nat, limit: nat)
    requires size > 0 && limit > 0 && (entries * size >= limit ==> limit % size == 0)
    ensures (entries * size % limit) % size == 0
  {
    var total := entries * size;
    assert total == size * entries;
    DivUnique(total, size, entries, 0);
    if total < limit {
      DivUnique(total, limit, 0, total);
    } else {
      var q := total / limit;
      assert limit == size * (limit / size);
      assert total % limit == total - limit * q;
      assert limit * q == size * (limit / size * q);
      assert total % limit == size * (entries - limit / size * q);
      DivUnique(total % limit, size, entries - limit / size * q, 0);
    }
  }

  lemma MadeIs(entries: nat, size: nat)
    requires CanAlloc(entries, size) && entries * size < WRAP && size < SHORT
    ensures Made(entries, size) == Table(Partitions(entries * size), entries, size, LIMIT)
    ensures size > 0 && (entries * size >= LIMIT ==> LIMIT % size == 0)
  {
    var product := entries * size;
    assert Total(entries, size) == product;
  }

  /** A table whose memory fits in 32 bits and whose entry size fits in 16 is sound. */
  lemma MadeSound(entries: nat, size: nat)
    requires CanAlloc(entries, size) && entries * size < WRAP && size < SHORT
    ensures Sound(Made(entries, size), entries * size)
  {
    MadeIs(entries, size);
    PartitionsTile(entries * size);
    PartitionsAligned(entries, size);
  }

  lemma OnePartition(total: nat)
    requires 0 < total <= LIMIT
    ensures Partitions(total) == [Part(0, total)]
  {
    assert Full(0) == [] && Full(1) == [Part(0, LIMIT)];
  }

  lemma OneEntry(size: nat)
    requires CanAlloc(1, size) && size < WRAP
    ensures OwnMemory(Made(1, size), size)
  {
    Small(size, WRAP);
    if size >= LIMIT { Divides(LIMIT, size); }
    OnePartition(size);
    assert Get(Made(1, size), 0) == At(0, 0);
  }

  lemma Divides(a: nat, b: nat)
    requires 0 < a <= b && a % b == 0
    ensures a == b
  {
  }

  lemma Divided(x: nat, d: nat)
    requires d > 0
    ensures d * (x / d) + x % d == x
  {
  }

  /** An entry that would end beyond the memory has no room. */
  lemma NoRoomBeyond(t: Table, total: nat, e: nat, size: nat)
    requires Tiles(t.parts, 0, total) && Uniform(t.parts, t.limit) && t.limit > 0
    requires e * t.entrySize < WRAP && e * t.entrySize + size > total
    ensures !HasRoom(t, e, size)
  {
    var offset := e * t.entrySize;
    Small(offset, WRAP);
    if HasRoom(t, e, size) {
      var i := Get(t, e).part;
      assert t.parts[i].offset == t.limit * i;
      Divided(offset, t.limit);
      TilesWithin(t.parts, 0, total, i);
    }
  }

  lemma LastIndex(entries: nat, size: nat, total: nat) returns (e: nat)
    requires size > 0 && entries * size > total
    ensures e < entries && e * size <= total < e * size + size
  {
    e := total / size;
    assert total == size * e + total % size && size * e == e * size;
    if e >= entries { MulMono(size, entries, e); }
  }

  /** If the product is too large, the entry at the end of the memory there is has no room. */
  lemma NoRoomAtEnd(entries: nat, size: nat)
    requires CanAlloc(entries, size) && entries * size >= WRAP && size < SHORT
    ensures !OwnMemory(Made(entries, size), size)
  {
    var total := Total(entries, size);
    var e := LastIndex(entries, size, total);
    PartitionsTile(total);
    NoRoomBeyond(Made(entries, size), total, e, size);
  }

  /** If the entry size is cut to 16 bits, the second entry is inside the first. */
  lemma SecondInFirst(entries: nat, size: nat)
    requires CanAlloc(entries, size) && entries > 1 && SHORT <= size
    ensures !OwnMemory(Made(entries, size), size)
  {
    var t := Made(entries, size);
    PartitionsTile(Total(entries, size));
    FirstTwo(t);
    assert !Apart(Get(t, 0), Get(t, 1), size);
  }

  lemma FirstTwo(t: Table)
    requires t.entries > 1 && t.entrySize < t.limit == LIMIT && t.parts != []
    ensures Get(t, 0) == At(0, 0) && Get(t, 1) == At(0, t.entrySize)
  {
    Small(t.entrySize, WRAP);
    Small(t.entrySize, LIMIT);
  }

  lemma RoomIfFits(entries: nat, size: nat)
    requires CanAlloc(entries, size) && entries * size < WRAP && size < SHORT
    ensures OwnMemory(Made(entries, size), size)
  {
    MadeIs(entries, size);
    MadeSound(entries, size);
    PartitionsTile(entries * size);
    OwnEntries(Made(entries, size), entries * size);
  }

  /**
   * Every entry of a table has memory of its own exactly when the memory fits in 32 bits and, unless
   * there is one entry only, the entry size fits in 16.
   */
  lemma RoomIffFits(entries: nat, size: nat)
    requires size < WRAP && CanAlloc(entries, size)
    ensures OwnMemory(Made(entries, size), size) <==> entries * size < WRAP && (size < SHORT || entries == 1)
  {
    if size >= SHORT {
      if entries == 1 { OneEntry(size); } else { SecondInFirst(entries, size); }
    } else if entries * size < WRAP {
      RoomIfFits(entries, size);
    } else {
      NoRoomAtEnd(entries, size);
    }
  }

  /** Otherwise a table is made that is too short: here with memory for one entry of 131073. */
  lemma ShortTable()
    ensures CanAlloc(131073, 32768) && Made(131073, 32768).parts == [Part(0, 32768)]
    ensures Get(Made(131073, 32768), 1) == At(0, 32768) && Get(Made(131073, 32768), 131072) == At(0, 0)
  {
    assert Total(131073, 32768) == 32768;
  }

  // ----- a table over memory that is there already

  /** All pieces but the last are as long as the first; the first and all together hold whole entries. */
  predicate CanAttach(lens: seq<nat>, size: nat)
    requires size > 0
  {
    && lens != [] && lens[0] % size == 0
    && (forall i {:trigger lens[i]} :: 0 <= i < |lens| - 1 ==> lens[i] == lens[0] % WRAP)
    && Sum(lens) % WRAP % size == 0
  }

  /** Offsets, sizes and sums are 32-bit, the number of partitions is 16-bit. */
  function Attached(lens: seq<nat>, size: nat): Table
    requires size > 0 && lens != []
  {
    Table(Pieces(lens)[..|lens| % SHORT], Sum(lens) % WRAP / size, size, lens[0] % WRAP)
  }

  function Pieces(lens: seq<nat>): (parts: seq<Part>)
    ensures |parts| == |lens|
  {
    if lens == [] then []
    else
      var front := lens[..|lens| - 1];
      Pieces(front) + [Part(Sum(front) % WRAP, lens[|lens| - 1] % WRAP)]
  }

  method Attach(lens: seq<nat>, size: nat) returns (t: Option<Table>)
    requires 0 < size < SHORT
    ensures t == if CanAttach(lens, size) then Some(Attached(lens, size)) else None
  {
    if lens == [] || lens[0] % size != 0 {
      return None;
    }
    var ok, parts, total := AttachPieces(lens, lens[0] % WRAP);
    if !ok || total % size != 0 {
      return None;
    }
    t := Some(Table(parts[..|lens| % SHORT], total / size, size, lens[0] % WRAP));
  }

  method AttachPieces(lens: seq<nat>, limit: nat) returns (ok: bool, parts: seq<Part>, offset: nat)
    ensures ok <==> forall k {:trigger lens[k]} :: 0 <= k < |lens| - 1 ==> lens[k] == limit
    ensures ok ==> parts == Pieces(lens) && offset == Sum(lens) % WRAP
  {
    parts, offset := [], 0;
    for i := 0 to |lens|
      invariant offset == Sum(lens[..i]) % WRAP && parts == Pieces(lens[..i])
      invariant forall k {:trigger lens[k]} :: 0 <= k < i && k < |lens| - 1 ==> lens[k] == limit
    {
      if lens[i] != limit && i != |lens| - 1 {
        return false, parts, offset;
      }
      parts := parts + [Part(offset, lens[i] % WRAP)];
      assert lens[..i + 1][..i] == lens[..i];
      PlusWraps(Sum(lens[..i]), lens[i]);
      offset := (offset + lens[i]) % WRAP;
    }
    assert lens[..|lens|] == lens;
    ok := true;
  }

  lemma PlusWraps(x: nat, y: nat)
    ensures (x % WRAP + y) % WRAP == (x + y) % WRAP
  {
  }

  lemma {:induction false} PiecesTile(lens: seq<nat>)
    requires Sum(lens) < WRAP
    ensures Tiles(Pieces(lens), 0, Sum(lens))
    ensures forall i {:trigger Pieces(lens)[i]} :: 0 <= i < |lens| ==> Pieces(lens)[i].size == lens[i]
  {
    if lens != [] {
      var front := lens[..|lens| - 1];
      PiecesTile(front);
      TilesAppend(Pieces(front), 0, Sum(front), lens[|lens| - 1]);
    }
  }

  lemma UniformEnds(parts: seq<Part>, limit: nat, total: nat, last: nat)
    requires Tiles(parts, 0, total) && Uniform(parts, limit) && parts != [] && parts[|parts| - 1].size == last
    ensures total == limit * (|parts| - 1) + last && (last == limit ==> total == limit * |parts|)
  {
    LastEnds(parts, 0, total);
    assert limit * (|parts| - 1) + limit == limit * |parts|;
  }

  lemma {:induction false} PiecesUniform(lens: seq<nat>, limit: nat)
    requires Sum(lens) < WRAP && forall i {:trigger lens[i]} :: 0 <= i < |lens| - 1 ==> lens[i] == limit
    ensures Uniform(Pieces(lens), limit)
  {
    if |lens| > 1 {
      var n := |lens| - 1;
      var front := lens[..n];
      PiecesUniform(front, limit);
      PiecesTile(front);
      UniformEnds(Pieces(front), limit, Sum(front), limit);
      assert front[n - 1] == lens[n - 1] == limit;
      Small(Sum(front), WRAP);
      Small(limit, WRAP);
      assert Pieces(lens) == Pieces(front) + [Part(limit * n, lens[n] % WRAP)];
    } else if lens != [] {
      assert lens[..0] == [] && Pieces(lens) == [Part(0, lens[0])];
    }
  }

  /** What is asked of given memory so that bytes can be counted in 32 bits and pieces in 16. */
  predicate Countable(lens: seq<nat>, size: nat)
  {
    0 < size < SHORT && CanAttach(lens, size) && Sum(lens) < WRAP && |lens| < SHORT && lens[0] > 0
  }

  lemma AttachedIs(lens: seq<nat>, size: nat)
    requires Countable(lens, size)
    ensures Attached(lens, size) == Table(Pieces(lens), Sum(lens) / size, size, lens[0])
    ensures Sum(lens) % size == 0 && Sum(lens) / size * size == Sum(lens)
  {
    FirstInSum(lens);
    var total, first, n := Sum(lens), lens[0], |lens|;
    assert total % WRAP % size == 0;
    Whole(total, size);
    Small(first, WRAP);
    Small(n, SHORT);
    assert Pieces(lens)[..n] == Pieces(lens);
  }

  lemma Whole(total: nat, size: nat)
    requires size > 0 && total < WRAP && total % WRAP % size == 0
    ensures total % WRAP == total && total % size == 0 && total / size * size == total
  {
  }

  /** A table over such memory is sound. */
  lemma AttachedSound(lens: seq<nat>, size: nat)
    requires Countable(lens, size)
    ensures Sound(Attached(lens, size), Sum(lens))
  {
    AttachedIs(lens, size);
    PiecesTile(lens);
    FirstInSum(lens);
    PiecesUniform(lens, lens[0]);
    LastWhole(Pieces(lens), Sum(lens), size, lens[0]);
  }

  lemma {:induction false} FirstInSum(lens: seq<nat>)
    requires lens != []
    ensures lens[0] <= Sum(lens)
  {
    if |lens| > 1 { FirstInSum(lens[..|lens| - 1]); }
  }

  lemma LastWhole(parts: seq<Part>, total: nat, size: nat, limit: nat)
    requires size > 0 && parts != [] && Tiles(parts, 0, total) && Uniform(parts, limit)
    requires limit % size == 0 && total % size == 0
    ensures Aligned(parts, size)
  {
    var n := |parts| - 1;
    forall k | 0 <= k < |parts| ensures parts[k].offset % size == 0 && parts[k].size % size == 0 {
      MultipleTimes(limit, k, size);
      if k == n {
        LastEnds(parts, 0, total);
        MultipleDifference(total, parts[n].offset, size);
      }
    }
  }

  /** The first entry of a second full partition's worth in the last piece is not found. */
  lemma LongLast(t: Table, total: nat) returns (e: nat)
    requires Sound(t, total) && t.parts != [] && t.parts[|t.parts| - 1].size > t.limit
    requires t.entries * t.entrySize == total && t.limit % t.entrySize == 0
    ensures e < t.entries && Get(t, e) == NoAddress
  {
    var n := |t.parts|;
    LastEnds(t.parts, 0, total);
    assert t.limit * (n - 1) + t.limit == t.limit * n;
    e := WholeEntries(t.limit, n, t.entrySize);
    LessFactor(e, t.entries, t.entrySize);
    Small(t.limit * n, WRAP);
    DivUnique(t.limit * n, t.limit, n, 0);
  }

  lemma LessFactor(e: nat, n: nat, size: nat)
    requires e * size < n * size
    ensures e < n
  {
    if e >= n { MulMono(size, n, e); }
  }

  lemma WholeEntries(limit: nat, n: nat, size: nat) returns (e: nat)
    requires size > 0 && limit % size == 0
    ensures e * size == limit * n
  {
    MultipleTimes(limit, n, size);
    e := limit * n / size;
  }

  /**
   * In a table over given memory division finds every entry exactly when the last piece is not longer
   * than the first; the creation checks do not ask for that.
   */
  lemma AttachedFoundIff(lens: seq<nat>, size: nat)
    requires Countable(lens, size)
    ensures OwnMemory(Attached(lens, size), size) <==> lens[|lens| - 1] <= lens[0]
  {
    var t := Attached(lens, size);
    AttachedIs(lens, size);
    AttachedSound(lens, size);
    PiecesTile(lens);
    if lens[|lens| - 1] <= lens[0] {
      OwnEntries(t, Sum(lens));
    } else {
      var e := LongLast(t, Sum(lens));
      assert !HasRoom(t, e, size);
    }
  }

  lemma {:induction false} LastEnds(parts: seq<Part>, from: nat, to: nat)
    requires Tiles(parts, from, to) && parts != []
    ensures parts[|parts| - 1].offset + parts[|parts| - 1].size == to
  {
    if |parts| > 1 {
      LastEnds(parts[1..], from + parts[0].size, to);
    } else {
      assert Tiles(parts[1..], from + parts[0].size, to);
    }
  }

  lemma MultipleDifference(a: nat, b: nat, size: nat)
    requires size > 0 && a >= b && a % size == 0 && b % size == 0
    ensures (a - b) % size == 0
  {
    assert a - b == size * (a / size - b / size);
    DivUnique(a - b, size, a / size - b / size, 0);
  }
}
