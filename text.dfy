/** Decimal rendering of integers, the byte-wise string order of
    `std::map<string, ...>` keys, and sorted key lists. */
module Text {

  predicate IsDigit(c: char)
  {
    '0' <= c <= '9'
  }

  predicate AllDigits(s: string)
  {
    forall i :: 0 <= i < |s| ==> IsDigit(s[i])
  }

  function DigitChar(d: nat): (c: char)
    requires d < 10
    ensures IsDigit(c) && c as int - '0' as int == d
  {
    (d + '0' as int) as char
  }

  /** Decimal digits of `n`, most significant first, no leading zeros. */
  function NatToDigits(n: nat): (s: string)
    ensures |s| > 0 && AllDigits(s)
    decreases n
  {
    if n < 10 then [DigitChar(n)] else NatToDigits(n / 10) + [DigitChar(n % 10)]
  }

  /** The value of a string of decimal digits, read left to right. */
  function DigitsToNat(s: string): nat
    requires AllDigits(s)
  {
    if s == [] then 0
    else DigitsToNat(s[..|s| - 1]) * 10 + (s[|s| - 1] as int - '0' as int)
  }

  lemma {:induction false} DigitsRoundTrip(n: nat)
    ensures DigitsToNat(NatToDigits(n)) == n
    decreases n
  {
    var s := NatToDigits(n);
    if n >= 10 {
      DigitsRoundTrip(n / 10);
      assert s[..|s| - 1] == NatToDigits(n / 10);
    }
  }

  /** `absl::StrCat` of an integer: an optional minus sign, then digits. */
  function IntToString(i: int): (s: string)
    ensures |s| > 0
    ensures i >= 0 ==> AllDigits(s)
    ensures i < 0 ==> s[0] == '-'
  {
    if i >= 0 then NatToDigits(i) else "-" + NatToDigits(-i)
  }

  lemma IntToStringInjective(i: int, j: int)
    requires IntToString(i) == IntToString(j)
    ensures i == j
  {
    if i >= 0 && j >= 0 {
      DigitsRoundTrip(i);
      DigitsRoundTrip(j);
    } else if i < 0 && j < 0 {
      assert IntToString(i)[1..] == NatToDigits(-i);
      assert IntToString(j)[1..] == NatToDigits(-j);
      DigitsRoundTrip(-i);
      DigitsRoundTrip(-j);
    }
  }

  /** Lexicographic order on strings, comparing character codes, as
      `std::string::compare` does. */
  predicate LexLess(a: string, b: string)
  {
    if a == [] then b != []
    else if b == [] then false
    else if a[0] < b[0] then true
    else if a[0] == b[0] then LexLess(a[1..], b[1..])
    else false
  }

  lemma {:induction false} LexLessIrreflexive(a: string)
    ensures !LexLess(a, a)
  {
    if a != [] {
      LexLessIrreflexive(a[1..]);
    }
  }

  lemma {:induction false} LexLessTransitive(a: string, b: string, c: string)
    requires LexLess(a, b) && LexLess(b, c)
    ensures LexLess(a, c)
  {
    if a != [] && b != [] && c != [] && a[0] == b[0] == c[0] {
      LexLessTransitive(a[1..], b[1..], c[1..]);
    }
  }

  lemma {:induction false} LexLessTotal(a: string, b: string)
    ensures a == b || LexLess(a, b) || LexLess(b, a)
  {
    if a != [] && b != [] && a[0] == b[0] {
      LexLessTotal(a[1..], b[1..]);
      if a[1..] == b[1..] {
        assert a == [a[0]] + a[1..] && b == [b[0]] + b[1..];
      }
    }
  }

  lemma LexLessAsymmetric(a: string, b: string)
    requires LexLess(a, b)
    ensures !LexLess(b, a) && a != b
  {
    if LexLess(b, a) {
      LexLessTransitive(a, b, a);
      LexLessIrreflexive(a);
    }
    if a == b {
      LexLessIrreflexive(a);
    }
  }

  /** `m` is a least element of `s` in the string order. */
  predicate IsLeast(m: string, s: set<string>)
  {
    m in s && forall y :: y in s ==> !LexLess(y, m)
  }

  /** Every finite non-empty set of strings has a least element. */
  lemma {:induction false} LeastExists(s: set<string>) returns (m: string)
    requires s != {}
    ensures IsLeast(m, s)
    decreases s
  {
    var x :| x in s;
    LexLessIrreflexive(x);
    if s == {x} {
      m := x;
    } else {
      var rest := LeastExists(s - {x});
      LexLessTotal(x, rest);
      if LexLess(x, rest) {
        m := x;
        forall y | y in s ensures !LexLess(y, m) {
          if y != x && LexLess(y, x) {
            LexLessTransitive(y, x, rest);
          }
        }
      } else {
        m := rest;
      }
    }
  }

  /** The least element is unique. */
  lemma LeastUnique(a: string, b: string, s: set<string>)
    requires IsLeast(a, s) && IsLeast(b, s)
    ensures a == b
  {
    LexLessTotal(a, b);
  }

  /** The strings a list holds. */
  function Elems(s: seq<string>): set<string>
  {
    set k | k in s
  }

  /** Strictly increasing in the string order: sorted and free of duplicates. */
  predicate StrictlySorted(s: seq<string>)
  {
    forall i, j :: 0 <= i < j < |s| ==> LexLess(s[i], s[j])
  }

  /** Inserts `x` into a strictly sorted list, keeping it strictly sorted;
      a key already present is not inserted twice. */
  function Insert(x: string, s: seq<string>): (r: seq<string>)
    requires StrictlySorted(s)
    ensures StrictlySorted(r)
    ensures Elems(r) == Elems(s) + {x}
    ensures |r| == if x in s then |s| else |s| + 1
  {
    if s == [] then [x]
    else if x == s[0] then s
    else if LexLess(x, s[0]) then
      assert forall j :: 0 < j < |s| ==> LexLess(x, s[j]) by {
        forall j | 0 < j < |s| ensures LexLess(x, s[j]) {
          LexLessTransitive(x, s[0], s[j]);
        }
      }
      assert x !in s by {
        forall j | 0 <= j < |s| ensures s[j] != x {
          LexLessAsymmetric(x, s[j]);
        }
      }
      [x] + s
    else
      LexLessTotal(x, s[0]);
      var rest := Insert(x, s[1..]);
      InsertAfterHead(x, s, rest);
      [s[0]] + rest
  }

  /** Inserting behind the head: the head stays in front of the tail into
      which `x` went. */
  lemma InsertAfterHead(x: string, s: seq<string>, rest: seq<string>)
    requires StrictlySorted(s) && s != [] && LexLess(s[0], x)
    requires StrictlySorted(rest) && Elems(rest) == Elems(s[1..]) + {x}
    ensures StrictlySorted([s[0]] + rest)
    ensures Elems([s[0]] + rest) == Elems(s) + {x}
    ensures (x in s) == (x in s[1..])
  {
    LexLessAsymmetric(s[0], x);
    assert s == [s[0]] + s[1..];
    assert forall j :: 0 <= j < |rest| ==> LexLess(s[0], rest[j]) by {
      forall j | 0 <= j < |rest| ensures LexLess(s[0], rest[j]) {
        assert rest[j] in Elems(rest);
        if rest[j] != x {
          assert rest[j] in Elems(s[1..]);
          var k :| 0 <= k < |s[1..]| && s[1..][k] == rest[j];
          assert s[k + 1] == rest[j];
        }
      }
    }
    assert Elems(s) == {s[0]} + Elems(s[1..]) by {
      assert s == [s[0]] + s[1..];
    }
    assert Elems([s[0]] + rest) == {s[0]} + Elems(rest);
  }

  /** The distinct strings of `keys` in increasing order: the iteration order
      of a `std::map<string, ...>` filled with `keys`. */
  function SortedDistinct(keys: seq<string>): (r: seq<string>)
    ensures StrictlySorted(r)
    ensures Elems(r) == Elems(keys)
  {
    if keys == [] then []
    else
      var r := Insert(keys[|keys| - 1], SortedDistinct(keys[..|keys| - 1]));
      assert keys == keys[..|keys| - 1] + [keys[|keys| - 1]];
      assert Elems(keys) == Elems(keys[..|keys| - 1]) + {keys[|keys| - 1]};
      r
  }

  lemma StrictlySortedDistinct(s: seq<string>, i: int, j: int)
    requires StrictlySorted(s) && 0 <= i < |s| && 0 <= j < |s| && i != j
    ensures s[i] != s[j]
  {
    if i < j { LexLessAsymmetric(s[i], s[j]); } else { LexLessAsymmetric(s[j], s[i]); }
  }

  /** A strictly sorted list holds as many distinct strings as it has entries. */
  lemma {:induction false} StrictlySortedCard(s: seq<string>)
    requires StrictlySorted(s)
    ensures |Elems(s)| == |s|
  {
    if s != [] {
      var init, last := s[..|s| - 1], s[|s| - 1];
      LastIsNew(s);
      StrictlySortedCard(init);
      assert s == init + [last];
      assert Elems(s) == Elems(init) + {last};
    }
  }

  /** The last entry of a strictly sorted list occurs nowhere before it, and
      what precedes it is strictly sorted too. */
  lemma LastIsNew(s: seq<string>)
    requires StrictlySorted(s) && s != []
    ensures StrictlySorted(s[..|s| - 1])
    ensures s[|s| - 1] !in Elems(s[..|s| - 1])
  {
    forall k | 0 <= k < |s| - 1 ensures s[k] != s[|s| - 1] {
      StrictlySortedDistinct(s, k, |s| - 1);
    }
  }

  lemma SeparatorAt(d: string, sep: char, t: string)
    ensures (d + [sep] + t)[|d|] == sep
  {
  }

  /** Digits followed by a non-digit separator split uniquely. */
  lemma SplitAfterDigits(d1: string, t1: string, d2: string, t2: string, sep: char)
    requires AllDigits(d1) && AllDigits(d2) && !IsDigit(sep)
    requires d1 + [sep] + t1 == d2 + [sep] + t2
    ensures d1 == d2 && t1 == t2
  {
    var s := d1 + [sep] + t1;
    if |d1| < |d2| {
      SeparatorAt(d1, sep, t1);
      assert false;
    } else if |d2| < |d1| {
      SeparatorAt(d2, sep, t2);
      assert false;
    }
    assert d1 == s[..|d1|] && d2 == s[..|d2|];
    assert t1 == s[|d1| + 1..] && t2 == s[|d2| + 1..];
  }
}
