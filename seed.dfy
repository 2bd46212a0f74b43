/** `GetXLARandomSeed`: a process-wide 32-bit counter that starts at an odd
    value and advances by two on every call, so that no seed is ever zero. */
module RandomSeed {

  const Modulus: int := 0x1_0000_0000

  /** `rd() | 1` for a 32-bit random value: the value with its lowest bit set. */
  function InitialRandomSeed(rd: nat): (s: nat)
    requires rd < Modulus
    ensures s < Modulus && s % 2 == 1
    ensures s == rd || s == rd + 1
  {
    if rd % 2 == 0 then rd + 1 else rd
  }

  /** The counter after `k` calls, starting from `start`, with 32-bit
      wrap-around. */
  function SeedAfter(start: int, k: nat): int
  {
    (start + 2 * k) % Modulus
  }

  /** A 32-bit counter whose value stays odd: wrapping around an even
      modulus keeps the parity. */
  lemma {:induction false} SeedAfterOdd(start: int, k: nat)
    requires start % 2 == 1
    ensures SeedAfter(start, k) % 2 == 1
    ensures 0 < SeedAfter(start, k) < Modulus
  {
    var a := start + 2 * k;
    var q := a / Modulus;
    assert a == q * Modulus + a % Modulus;
    assert Modulus == 2 * 0x8000_0000;
    assert a % Modulus == a - 2 * (q * 0x8000_0000);
  }

  /** Within 2^31 calls no seed repeats. */
  lemma SeedsDistinct(start: int, i: nat, j: nat)
    requires i < j < 0x8000_0000
    ensures SeedAfter(start, i) != SeedAfter(start, j)
  {
    var a, b := start + 2 * i, start + 2 * j;
    var qa, qb := a / Modulus, b / Modulus;
    assert a == qa * Modulus + a % Modulus;
    assert b == qb * Modulus + b % Modulus;
  }

  /** After 2^31 calls the counter is back at its start. */
  lemma SeedsPeriodic(start: int, k: nat)
    ensures SeedAfter(start, k + 0x8000_0000) == SeedAfter(start, k)
  {
    assert start + 2 * (k + 0x8000_0000) == (start + 2 * k) + Modulus;
  }

  class SeedCounter {
    var counter: int
    /** The start value, and the seeds handed out so far. */
    ghost var start: int
    ghost var issued: seq<int>

    ghost predicate Valid()
      reads this
    {
      && start % 2 == 1
      && counter == SeedAfter(start, |issued|)
      && forall i :: 0 <= i < |issued| ==> issued[i] == SeedAfter(start, i)
    }

    /** The counter's initialisation from a 32-bit random value. */
    constructor (rd: nat)
      requires rd < Modulus
      ensures Valid() && counter == InitialRandomSeed(rd) && issued == []
    {
      var s := InitialRandomSeed(rd);
      counter, start, issued := s, s, [];
    }

    /** Returns the current value and adds two, wrapping at 2^32. */
    method GetXLARandomSeed() returns (r: int)
      requires Valid()
      modifies this
      ensures Valid() && start == old(start)
      ensures r == old(counter) && counter == (old(counter) + 2) % Modulus
      ensures issued == old(issued) + [r]
      ensures r % 2 == 1 && 0 < r < Modulus
    {
      r := counter;
      SeedAfterOdd(start, |issued|);
      counter := (counter + 2) % Modulus;
      issued := issued + [r];
      assert counter == SeedAfter(start, |issued|) by {
        assert (r + 2) % Modulus == (start + 2 * (|issued| - 1) + 2) % Modulus by {
          ModAddTwo(start + 2 * (|issued| - 1));
        }
      }
    }
  }

  lemma ModAddTwo(a: int)
    ensures (a % Modulus + 2) % Modulus == (a + 2) % Modulus
  {
    var q := a / Modulus;
    assert a == q * Modulus + a % Modulus;
    assert a + 2 == q * Modulus + (a % Modulus + 2);
    ModShift(a % Modulus + 2, q);
  }

  lemma ModShift(x: int, q: int)
    ensures (q * Modulus + x) % Modulus == x % Modulus
  {
  }

  /** The seeds of one counter, up to 2^31 of them, are odd, non-zero and
      pairwise distinct. */
  lemma IssuedSeeds(start: int, issued: seq<int>)
    requires start % 2 == 1 && |issued| <= 0x8000_0000
    requires forall i :: 0 <= i < |issued| ==> issued[i] == SeedAfter(start, i)
    ensures forall i :: 0 <= i < |issued| ==> issued[i] % 2 == 1 && issued[i] != 0
    ensures forall i, j :: 0 <= i < j < |issued| ==> issued[i] != issued[j]
  {
    forall i | 0 <= i < |issued| ensures issued[i] % 2 == 1 && issued[i] != 0 {
      SeedAfterOdd(start, i);
    }
    forall i, j | 0 <= i < j < |issued| ensures issued[i] != issued[j] {
      SeedsDistinct(start, i, j);
    }
  }
}
