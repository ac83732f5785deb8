/**
 * Byte accounting of a fragmented datagram: an entry is made for the head and deleted when
 * as many payload bytes have been counted as the tail says there are.
 */
module FragmentBytes {

  /** A fragment: its offset in units of eight bytes, its payload length, and whether more follow. */
  datatype Piece = Piece(offset: nat, length: nat, more: bool)

  function Start(p: Piece): nat
  {
    8 * p.offset
  }

  /** Both counters are 16 bits wide. */
  const WRAP := 65536

  /** No more follow, and it is not a whole datagram. */
  predicate Tail(p: Piece)
  {
    !p.more && p.offset > 0
  }

  datatype Account = Account(received: nat, expected: nat, live: bool)

  /** A deleted entry is not found any more, so nothing is counted on it. */
  function Counted(c: Account, p: Piece): Account
  {
    if !c.live then c else
    var r := (c.received + p.length) % WRAP;
    var e := if Tail(p) then (Start(p) + p.length) % WRAP else c.expected;
    Account(r, e, r != e)
  }

  class Entry {
    var received: nat
    var expected: nat
    var live: bool

    /** The head makes the entry. */
    constructor (head: Piece)
      ensures Account(received, expected, live) == Account(head.length % WRAP, 0, true)
    {
      received, expected, live := head.length % WRAP, 0, true;
    }

    /** A later fragment looks the entry up and is counted; the entry is deleted when the count is complete. */
    method Count(p: Piece) returns (found: bool)
      modifies this
      ensures found == old(live)
      ensures Account(received, expected, live) == Counted(old(Account(received, expected, live)), p)
    {
      if !live {
        return false;
      }
      received := (received + p.length) % WRAP;
      if Tail(p) {
        expected := (Start(p) + p.length) % WRAP;
      }
      if received == expected {
        live := false;
      }
      return true;
    }
  }

  /** The account after fragments `a`, of which the first is the head. */
  function After(a: seq<Piece>): Account
    requires a != []
  {
    if |a| == 1 then Account(a[0].length % WRAP, 0, true) else Counted(After(a[..|a| - 1]), a[|a| - 1])
  }

  // ----- datagrams cut into fragments

  /** The pieces cover the payload from `from` to `n` without gap or overlap; none is empty; the last has no more. */
  predicate Cut(pieces: seq<Piece>, from: nat, n: nat)
  {
    if pieces == [] then false
    else
      var p := pieces[0];
      && Start(p) == from && p.length > 0
      && if |pieces| == 1 then !p.more && from + p.length == n
         else p.more && Cut(pieces[1..], from + p.length, n)
  }

  function Sum(a: seq<Piece>): nat
  {
    if a == [] then 0 else a[0].length + Sum(a[1..])
  }

  /** Where the last tail after the head ends, or zero if there is none. */
  function Expected(a: seq<Piece>): nat
  {
    if |a| <= 1 then 0
    else if Tail(a[|a| - 1]) then Start(a[|a| - 1]) + a[|a| - 1].length
    else Expected(a[..|a| - 1])
  }

  /** With the last of these fragments the bytes counted are those expected, as 16-bit counters see it. */
  ghost predicate Completes(a: seq<Piece>)
  {
    |a| > 1 && Sum(a) % WRAP == Expected(a) % WRAP
  }

  lemma {:induction false} SumAppend(a: seq<Piece>, b: seq<Piece>)
    ensures Sum(a + b) == Sum(a) + Sum(b)
  {
    if a == [] {
      assert a + b == b;
    } else {
      assert (a + b)[1..] == a[1..] + b;
      SumAppend(a[1..], b);
    }
  }

  lemma SumAround(b: seq<Piece>, i: nat)
    requires i < |b|
    ensures Sum(b) == b[i].length + Sum(b[..i] + b[i + 1..])
    ensures multiset(b) == multiset{b[i]} + multiset(b[..i] + b[i + 1..])
  {
    SumAppend(b[..i], b[i + 1..]);
    SumAppend(b[..i], b[i..]);
    assert b == b[..i] + b[i..] && b[i..] == [b[i]] + b[i + 1..] && b[i..][1..] == b[i + 1..];
  }

  lemma Cancel(p: Piece, m: multiset<Piece>, n: multiset<Piece>)
    requires multiset{p} + m == multiset{p} + n
    ensures m == n
  {
    assert m == multiset{p} + m - multiset{p} && n == multiset{p} + n - multiset{p};
  }

  lemma {:induction false} SumPermuted(a: seq<Piece>, b: seq<Piece>)
    requires multiset(a) == multiset(b)
    ensures Sum(a) == Sum(b)
    decreases |a|
  {
    if a == [] {
      assert |b| == |multiset(b)| == 0;
    } else {
      assert a[0] in multiset(b);
      var i :| 0 <= i < |b| && b[i] == a[0];
      SumAround(b, i);
      SumAround(a, 0);
      assert a[..0] + a[1..] == a[1..];
      Cancel(a[0], multiset(a[1..]), multiset(b[..i] + b[i + 1..]));
      SumPermuted(a[1..], b[..i] + b[i + 1..]);
    }
  }

  lemma {:induction false} CutSum(pieces: seq<Piece>, from: nat, n: nat)
    requires Cut(pieces, from, n)
    ensures from + Sum(pieces) == n
    ensures forall i :: 0 <= i < |pieces| ==>
      pieces[i].length > 0 && (!pieces[i].more ==> Start(pieces[i]) + pieces[i].length == n)
    ensures !pieces[|pieces| - 1].more
  {
    if |pieces| > 1 {
      CutSum(pieces[1..], from + pieces[0].length, n);
      forall i | 0 <= i < |pieces|
        ensures pieces[i].length > 0 && (!pieces[i].more ==> Start(pieces[i]) + pieces[i].length == n)
      {
        if i > 0 { assert pieces[i] == pieces[1..][i - 1]; }
      }
    } else {
      assert Sum(pieces[1..]) == 0;
    }
  }

  lemma AddMod(x: nat, y: nat)
    ensures (x % WRAP + y) % WRAP == (x + y) % WRAP
  {
  }

  lemma SumLast(a: seq<Piece>)
    requires a != []
    ensures Sum(a) == Sum(a[..|a| - 1]) + a[|a| - 1].length
  {
    var before, p := a[..|a| - 1], a[|a| - 1];
    SumAppend(before, [p]);
    assert a == before + [p] && Sum([p]) == p.length + Sum([p][1..]);
  }

  /** While the entry lives, its counters are what has arrived and where the last tail ends, modulo 2^16. */
  lemma {:induction false} AfterIs(a: seq<Piece>)
    requires a != [] && forall k :: 1 <= k < |a| ==> After(a[..k]).live
    ensures After(a).received == Sum(a) % WRAP && After(a).expected == Expected(a) % WRAP
    ensures After(a).live <==> !Completes(a)
  {
    SumLast(a);
    if |a| > 1 {
      var before, p := a[..|a| - 1], a[|a| - 1];
      forall k | 1 <= k < |before| ensures After(before[..k]).live {
        assert before[..k] == a[..k];
      }
      AfterIs(before);
      AddMod(Sum(before), p.length);
    }
  }

  lemma {:induction false} DeadStays(a: seq<Piece>, k: nat)
    requires 1 <= k <= |a| && !After(a[..k]).live
    ensures !After(a).live
  {
    if k < |a| {
      assert a[..|a| - 1][..k] == a[..k];
      DeadStays(a[..|a| - 1], k);
    } else {
      assert a[..k] == a;
    }
  }

  /** If an entry is gone, the fragment that deleted it is the first that completes the count. */
  lemma {:induction false} FirstDeath(a: seq<Piece>) returns (k: nat)
    requires a != [] && !After(a).live
    ensures 1 < k <= |a| && !After(a[..k]).live && forall j :: 1 <= j < k ==> After(a[..j]).live
  {
    var before := a[..|a| - 1];
    if After(before).live {
      k := |a|;
      assert a[..k] == a;
      forall j | 1 <= j < k ensures After(a[..j]).live {
        assert before[..j] == a[..j];
        if !After(a[..j]).live { DeadStays(before, j); }
      }
    } else {
      k := FirstDeath(before);
      assert a[..k] == before[..k];
      forall j | 1 <= j < k ensures After(a[..j]).live {
        assert before[..j] == a[..j];
      }
    }
  }

  /**
   * Whatever comes twice, late or never: the entry is gone after some fragments exactly when with some
   * fragment up to there the lengths added up to the end of the last tail, or to nothing without a tail,
   * modulo 2^16.
   */
  lemma GoneIff(a: seq<Piece>)
    requires a != []
    ensures !After(a).live <==> exists k :: 1 < k <= |a| && Completes(a[..k])
  {
    if !After(a).live {
      var k := FirstDeath(a);
      var b := a[..k];
      forall j | 1 <= j < |b| ensures After(b[..j]).live {
        assert b[..j] == a[..j];
      }
      AfterIs(b);
    }
    if exists k :: 1 < k <= |a| && Completes(a[..k]) {
      var k :| 1 < k <= |a| && Completes(a[..k]);
      var b := a[..k];
      if j :| 1 <= j < |b| && !After(b[..j]).live {
        assert b[..j] == a[..j];
        DeadStays(a, j);
      } else {
        AfterIs(b);
        DeadStays(a, k);
      }
    }
  }

  lemma {:induction false} SumPositive(a: seq<Piece>)
    requires a != [] && forall i :: 0 <= i < |a| ==> a[i].length > 0
    ensures Sum(a) > 0
  {
  }

  lemma {:induction false} FromMultiset(a: seq<Piece>, pieces: seq<Piece>, i: nat)
    requires multiset(a) == multiset(pieces) && i < |a|
    ensures exists j :: 0 <= j < |pieces| && pieces[j] == a[i]
  {
    assert a[i] in multiset(pieces);
  }

  /** Of a datagram's fragments, the tail tells its length, and the others tell nothing. */
  lemma {:induction false} ExpectedIs(a: seq<Piece>, n: nat)
    requires forall i :: 0 <= i < |a| && Tail(a[i]) ==> Start(a[i]) + a[i].length == n
    requires forall i :: 0 < i < |a| && !a[i].more ==> Tail(a[i])
    ensures Expected(a) == if exists i :: 0 < i < |a| && !a[i].more then n else 0
  {
    if |a| > 1 {
      var before, p := a[..|a| - 1], a[|a| - 1];
      ExpectedIs(before, n);
      if i :| 0 < i < |before| && !before[i].more {
        assert !a[i].more;
      }
      if i :| 0 < i < |a| && !a[i].more && p.more {
        assert !before[i].more;
      }
    }
  }

  lemma {:induction false} CutTails(pieces: seq<Piece>, from: nat, n: nat, i: nat)
    requires Cut(pieces, from, n) && i < |pieces| && !pieces[i].more && (from > 0 || i > 0)
    ensures Tail(pieces[i])
  {
    if i > 0 {
      CutTails(pieces[1..], from + pieces[0].length, n, i - 1);
    }
  }

  lemma Bounded(x: nat, n: nat)
    requires 0 < x <= n <= WRAP
    ensures x % WRAP == 0 ==> x == WRAP
    ensures x % WRAP == n % WRAP <==> x == n
  {
  }

  lemma CutArrived(pieces: seq<Piece>, a: seq<Piece>, n: nat, i: nat)
    requires Cut(pieces, 0, n) && |pieces| > 1 && multiset(a) == multiset(pieces) && i < |a|
    ensures a[i].length > 0 && (!a[i].more ==> Tail(a[i]) && Start(a[i]) + a[i].length == n)
  {
    CutSum(pieces, 0, n);
    FromMultiset(a, pieces, i);
    var j :| 0 <= j < |pieces| && pieces[j] == a[i];
    if !a[i].more { CutTails(pieces, 0, n, j); }
  }

  /** A proper part of a datagram's fragments does not complete the count, and all of them do. */
  lemma CompletesAtEnd(pieces: seq<Piece>, a: seq<Piece>, n: nat, k: nat)
    requires Cut(pieces, 0, n) && n <= WRAP && |pieces| > 1 && multiset(a) == multiset(pieces)
    requires a != [] && a[0] == pieces[0] && 1 < k <= |a|
    ensures Completes(a[..k]) <==> k == |a|
  {
    CutSum(pieces, 0, n);
    SumPermuted(a, pieces);
    forall i | 0 <= i < |a| ensures a[i].length > 0 && (!a[i].more ==> Tail(a[i]) && Start(a[i]) + a[i].length == n) {
      CutArrived(pieces, a, n, i);
    }
    var b := a[..k];
    assert a == b + a[k..];
    SumAppend(b, a[k..]);
    SumPositive(b);
    if k < |a| { SumPositive(a[k..]); }
    ExpectedIs(b, n);
    Bounded(Sum(b), n);
    if k == |a| {
      assert b == a && pieces[0].more;
      FromMultiset(pieces, a, |pieces| - 1);
      var j :| 0 <= j < |a| && a[j] == pieces[|pieces| - 1];
      assert j > 0 && !b[j].more;
    }
  }

  /**
   * If the fragments of a datagram of at most 2^16 bytes each arrive once, the head first, then in every
   * order of the others the entry lives until the last of them and is deleted by it.
   */
  lemma DeletedByTheLast(pieces: seq<Piece>, a: seq<Piece>, n: nat, k: nat)
    requires Cut(pieces, 0, n) && n <= WRAP && |pieces| > 1 && multiset(a) == multiset(pieces)
    requires a != [] && a[0] == pieces[0] && 1 <= k <= |a|
    ensures After(a[..k]).live <==> k < |a|
  {
    assert |a| == |multiset(a)| == |multiset(pieces)| == |pieces|;
    var b := a[..k];
    GoneIff(b);
    forall j | 1 < j <= |b| ensures Completes(b[..j]) <==> j == |a| {
      assert b[..j] == a[..j];
      CompletesAtEnd(pieces, a, n, j);
    }
    if k == |a| { assert Completes(b[..k]); }
  }

  /** Two fragments of 2^15 bytes wrap the count to the zero that is expected before a tail has come. */
  lemma WrapDeletesEarly(rest: seq<Piece>)
    ensures var head, middle := Piece(0, 32768, true), Piece(4096, 32768, true);
            !After([head, middle] + rest).live
  {
    var b := [Piece(0, 32768, true), Piece(4096, 32768, true)];
    assert b[..1] == [b[0]];
    assert After(b[..1]) == Account(32768, 0, true);
    assert (b + rest)[..2] == b;
    DeadStays(b + rest, 2);
  }

  /** A tail that comes twice completes the count while a fragment is still missing. */
  lemma DuplicateDeletesEarly()
    ensures var head, middle, tail := Piece(0, 8, true), Piece(1, 8, true), Piece(2, 8, false);
            Cut([head, middle, tail], 0, 24) && !After([head, tail, tail]).live
  {
    var head, middle, tail := Piece(0, 8, true), Piece(1, 8, true), Piece(2, 8, false);
    assert [head, middle, tail][1..] == [middle, tail] && [middle, tail][1..] == [tail];
    assert [head, tail, tail][..2] == [head, tail] && [head, tail][..1] == [head];
    assert After([head]) == Account(8, 0, true);
    assert After([head, tail]) == Account(16, 24, true);
  }
}
