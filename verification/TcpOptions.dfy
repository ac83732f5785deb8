/** What the walk over the options of a TCP header finds, told from the list of options that is laid out there. */
module TcpOptions {
  import opened Bits
  import opened Checksum

  datatype Opt =
    | Padding
    | Size(hi: byte, lo: byte)               // the maximum segment size
    | Other(kind: byte, data: seq<byte>)

  predicate Valid(o: Opt)
  {
    o.Other? ==> o.kind != EOL && o.kind != NOP && o.kind != MAXSEG && |o.data| <= 253
  }

  function Length(o: Opt): nat
  {
    if o.Padding? then 1 else if o.Size? then MAXSEG_LENGTH else 2 + |o.data|
  }

  function Total(opts: seq<Opt>): nat
  {
    if opts == [] then 0 else Length(opts[0]) + Total(opts[1..])
  }

  /** The option is laid out in the header from `off` on. */
  predicate Lies(h: seq<byte>, off: nat, o: Opt)
  {
    && off + Length(o) <= |h|
    && match o
       case Padding => h[off] == NOP
       case Size(hi, lo) =>
         h[off] == MAXSEG && h[off + 1] == MAXSEG_LENGTH && h[off + 2] == hi && h[off + 3] == lo
       case Other(kind, data) =>
         h[off] == kind && h[off + 1] == 2 + |data| && h[off + 2..off + Length(o)] == data
  }

  /** The options are laid out one after the other up to the end of the header or to an end mark. */
  predicate Holds(h: seq<byte>, off: nat, end: nat, opts: seq<Opt>)
    decreases opts
  {
    if opts == [] then off <= end <= |h| && (off == end || h[off] == EOL)
    else Valid(opts[0]) && Lies(h, off, opts[0]) && Holds(h, off + Length(opts[0]), end, opts[1..])
  }

  predicate HasSize(opts: seq<Opt>)
  {
    opts != [] && (opts[0].Size? || HasSize(opts[1..]))
  }

  /** The options before the first segment size. */
  function BeforeSize(opts: seq<Opt>): (r: seq<Opt>)
    ensures r <= opts && (HasSize(opts) ==> |r| < |opts| && opts[|r|].Size?)
    ensures forall i {:trigger r[i]} :: 0 <= i < |r| ==> !r[i].Size?
  {
    if opts == [] || opts[0].Size? then [] else [opts[0]] + BeforeSize(opts[1..])
  }

  lemma HoldsWithin(h: seq<byte>, off: nat, end: nat, opts: seq<Opt>)
    requires Holds(h, off, end, opts)
    ensures off + Total(opts) <= end <= |h|
    decreases opts
  {
    if opts != [] { HoldsWithin(h, off + Length(opts[0]), end, opts[1..]); }
  }

  /** The walk finds the first segment size that comes before the end of the options, or none. */
  lemma {:induction false} FindsFirstSize(h: seq<byte>, off: nat, end: nat, opts: seq<Opt>)
    requires Holds(h, off, end, opts)
    ensures end <= |h| && FindMss(h, off, end) == if HasSize(opts) then off + Total(BeforeSize(opts)) else end
    decreases opts
  {
    HoldsWithin(h, off, end, opts);
    if opts == [] {
    } else if !opts[0].Size? {
      FindsFirstSize(h, off + Length(opts[0]), end, opts[1..]);
      Skipped(h, off, end, opts[0]);
      BeforeRest(opts);
    }
  }

  /** The walk steps over any other option. */
  lemma Skipped(h: seq<byte>, off: nat, end: nat, o: Opt)
    requires Valid(o) && !o.Size? && off + Length(o) <= end <= |h| && Lies(h, off, o)
    ensures FindMss(h, off, end) == FindMss(h, off + Length(o), end)
  {
  }

  lemma BeforeRest(opts: seq<Opt>)
    requires opts != [] && !opts[0].Size?
    ensures Total(BeforeSize(opts)) == Length(opts[0]) + Total(BeforeSize(opts[1..]))
  {
    assert BeforeSize(opts)[1..] == BeforeSize(opts[1..]);
  }

  // ----- what the clamp makes of the options

  /** The first segment size is replaced. */
  function Replace(opts: seq<Opt>, x: Opt): seq<Opt>
  {
    if opts == [] then [] else if opts[0].Size? then [x] + opts[1..] else [opts[0]] + Replace(opts[1..], x)
  }

  predicate Above(opts: seq<Opt>, limit: word)
    requires HasSize(opts)
  {
    var s := opts[|BeforeSize(opts)|];
    Word(s.hi, s.lo) > limit
  }

  /** The first segment size is lowered to the limit; the other options stay. */
  function Lowered(opts: seq<Opt>, limit: word): seq<Opt>
  {
    if HasSize(opts) && Above(opts, limit) then Replace(opts, Size(limit / 256, limit % 256)) else opts
  }

  lemma {:induction false} HoldsSame(o: seq<byte>, c: seq<byte>, off: nat, end: nat, opts: seq<Opt>)
    requires Holds(o, off, end, opts) && |c| == |o| && forall i {:trigger c[i]} :: off <= i < |o| ==> c[i] == o[i]
    ensures Holds(c, off, end, opts)
    decreases opts
  {
    if opts != [] {
      LiesSame(o, c, off, opts[0]);
      HoldsSame(o, c, off + Length(opts[0]), end, opts[1..]);
    }
  }

  lemma LiesSame(o: seq<byte>, c: seq<byte>, off: nat, x: Opt)
    requires Lies(o, off, x) && |c| == |o| && forall i {:trigger c[i]} :: off <= i < off + Length(x) ==> c[i] == o[i]
    ensures Lies(c, off, x)
  {
    if x.Other? { assert c[off + 2..off + Length(x)] == o[off + 2..off + Length(x)]; }
  }

  /** From `off` on, the headers differ in the two bytes of the segment size at `r` at most, which is `x` in `c`. */
  ghost predicate Patched(o: seq<byte>, c: seq<byte>, off: nat, r: nat, x: Opt)
  {
    && |c| == |o| && r + 4 <= |o| && x.Size? && c[r + 2] == x.hi && c[r + 3] == x.lo
    && forall i {:trigger c[i]} :: off <= i < |o| && i != r + 2 && i != r + 3 ==> c[i] == o[i]
  }

  lemma {:induction false} PatchedHolds(o: seq<byte>, c: seq<byte>, off: nat, end: nat, opts: seq<Opt>, x: Opt)
    requires Holds(o, off, end, opts) && HasSize(opts) && Patched(o, c, off, off + Total(BeforeSize(opts)), x)
    ensures Holds(c, off, end, Replace(opts, x))
    decreases opts
  {
    var rest := opts[1..];
    if opts[0].Size? {
      PatchedHere(o, c, off, end, opts, x);
    } else {
      BeforeRest(opts);
      LiesSame(o, c, off, opts[0]);
      PatchedHolds(o, c, off + Length(opts[0]), end, rest, x);
      assert Replace(opts, x)[0] == opts[0] && Replace(opts, x)[1..] == Replace(rest, x);
    }
  }

  lemma PatchedHere(o: seq<byte>, c: seq<byte>, off: nat, end: nat, opts: seq<Opt>, x: Opt)
    requires Holds(o, off, end, opts) && opts != [] && opts[0].Size? && Patched(o, c, off, off, x)
    ensures Holds(c, off, end, Replace(opts, x))
  {
    assert Replace(opts, x)[0] == x && Replace(opts, x)[1..] == opts[1..];
    assert c[off] == o[off] && c[off + 1] == o[off + 1];
    HoldsSame(o, c, off + MAXSEG_LENGTH, end, opts[1..]);
  }

  lemma ClampedPatched(o: seq<byte>, r: nat, limit: word)
    requires 20 <= r && r + 4 <= |o|
    ensures Patched(o, Clamped(o, r, limit), 20, r, Size(limit / 256, limit % 256))
  {
  }

  lemma {:induction false} SizeLies(h: seq<byte>, off: nat, end: nat, opts: seq<Opt>)
    requires Holds(h, off, end, opts) && HasSize(opts)
    ensures Lies(h, off + Total(BeforeSize(opts)), opts[|BeforeSize(opts)|])
    ensures off + Total(BeforeSize(opts)) + MAXSEG_LENGTH <= end <= |h|
    decreases opts
  {
    HoldsWithin(h, off, end, opts);
    if !opts[0].Size? {
      SizeLies(h, off + Length(opts[0]), end, opts[1..]);
      BeforeRest(opts);
    }
  }

  /** After the clamp the header holds the options with the first segment size lowered, and the rest as they were. */
  lemma AdjustLowers(o: seq<byte>, end: nat, opts: seq<Opt>, limit: word)
    requires 20 <= |o| && Holds(o, 20, end, opts)
    ensures end <= |o| && Holds(Adjusted(o, end, limit), 20, end, Lowered(opts, limit))
  {
    FindsFirstSize(o, 20, end, opts);
    if HasSize(opts) {
      AdjustedIs(o, end, opts, limit);
      if Above(opts, limit) {
        ClampedHolds(o, end, opts, limit, 20 + Total(BeforeSize(opts)), Size(limit / 256, limit % 256));
      }
    }
  }

  lemma ClampedHolds(o: seq<byte>, end: nat, opts: seq<Opt>, limit: word, r: nat, x: Opt)
    requires Holds(o, 20, end, opts) && HasSize(opts) && r == 20 + Total(BeforeSize(opts)) && r + 4 <= |o|
    requires x == Size(limit / 256, limit % 256)
    ensures Holds(Clamped(o, r, limit), 20, end, Replace(opts, x))
  {
    var c := Clamped(o, r, limit);
    ClampedPatched(o, r, limit);
    PatchedHolds(o, c, 20, end, opts, x);
  }

  lemma AdjustedIs(o: seq<byte>, end: nat, opts: seq<Opt>, limit: word)
    requires 20 <= |o| && Holds(o, 20, end, opts) && HasSize(opts) && end <= |o|
    requires FindMss(o, 20, end) == 20 + Total(BeforeSize(opts))
    ensures var r := 20 + Total(BeforeSize(opts));
            r + 4 <= |o| && Adjusted(o, end, limit) == if Above(opts, limit) then Clamped(o, r, limit) else o
  {
    SizeLies(o, 20, end, opts);
    AdjustedAt(o, end, 20 + Total(BeforeSize(opts)), opts[|BeforeSize(opts)|], limit);
  }

  lemma AdjustedAt(o: seq<byte>, end: nat, r: nat, x: Opt, limit: word)
    requires 20 <= r && r + 4 <= end <= |o| && x.Size? && Lies(o, r, x) && FindMss(o, 20, end) == r
    ensures Adjusted(o, end, limit) == if Word(x.hi, x.lo) > limit then Clamped(o, r, limit) else o
  {
    assert o[r + 2] == x.hi && o[r + 3] == x.lo;
  }
}
