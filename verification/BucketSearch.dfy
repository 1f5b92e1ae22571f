/** isProbablePrime and calculateIdealNumOfBuckets of hashtable.c. */
module BucketSearch {
  import opened Arithmetic

  /** From candidate divisor `i` on: no odd number up to 49 divides `x` before one that is `x` itself. */
  predicate Probable(x: nat, i: nat)
    requires i % 2 == 1
    decreases 51 - i
  {
    i >= 51 || x == i || (x % i != 0 && Probable(x, i + 2))
  }

  /** An even common multiple of all odd numbers from 3 to 49. */
  const ALL: nat := 193690281515374794150

  /** ALL divided by `i`. */
  function Quotient(i: nat): nat
    requires i % 2 == 1 && 3 <= i <= 49
  {
    match i
    case 3 => 64563427171791598050
    case 5 => 38738056303074958830
    case 7 => 27670040216482113450
    case 9 => 21521142390597199350
    case 11 => 17608207410488617650
    case 13 => 14899252424259599550
    case 15 => 12912685434358319610
    case 17 => 11393545971492634950
    case 19 => 10194225342914462850
    case 21 => 9223346738827371150
    case 23 => 8421316587624991050
    case 25 => 7747611260614991766
    case 27 => 7173714130199066450
    case 29 => 6678975224668096350
    case 31 => 6248073597270154650
    case 33 => 5869402470162872550
    case 35 => 5534008043296422690
    case 37 => 5234872473388507950
    case 39 => 4966417474753199850
    case 41 => 4724153207692068150
    case 43 => 4504425151520344050
    case 45 => 4304228478119439870
    case 47 => 4121069819476059450
    case _ => 3952862888068873350
  }

  lemma Divisors(i: nat)
    requires i % 2 == 1 && 3 <= i <= 49
    ensures ALL == i * Quotient(i)
  {
  }

  /** Numbers that leave 1 are divided by none of the candidates. */
  lemma {:induction false} OneIsProbable(y: nat, i: nat)
    requires i % 2 == 1 && i >= 3 && y % ALL == 1
    ensures Probable(y, i)
    decreases 51 - i
  {
    if i < 51 {
      var q := y / ALL;
      Divisors(i);
      assert y == 1 + i * Quotient(i) * q;
      assert i * Quotient(i) * q == i * (Quotient(i) * q);
      Remainder(y, i, Quotient(i) * q, 1);
      OneIsProbable(y, i + 2);
    }
  }

  /** How far it is to the next number that leaves 1. */
  function Distance(x: nat): nat {
    (ALL + 1 - x % ALL) % ALL
  }

  lemma OddRemainder(x: nat)
    requires x % 2 == 1
    ensures x % ALL % 2 == 1 && x == ALL * (x / ALL) + x % ALL
  {
    var k := 96845140757687397075 * (x / ALL);
    assert x == 2 * k + x % ALL;
    SameParity(k, x % ALL);
  }

  lemma SameParity(k: nat, r: nat)
    ensures (2 * k + r) % 2 == r % 2
  {
  }

  lemma DistanceOf(x: nat, q: nat, r: nat)
    requires r < ALL && x == ALL * q + r
    ensures Distance(x) == if r == 0 then 1 else if r == 1 then 0 else ALL + 1 - r
  {
    Remainder(x, ALL, q, r);
    if r == 0 {
      Remainder(ALL + 1, ALL, 1, 1);
    } else if r > 1 {
      Remainder(ALL + 1 - r, ALL, 0, ALL + 1 - r);
    } else {
      Remainder(ALL, ALL, 1, 0);
    }
  }

  lemma Closer(x: nat)
    requires x % 2 == 1 && !Probable(x, 3)
    ensures Distance(x + 2) < Distance(x)
  {
    hide Distance, Probable;
    var r, q := x % ALL, x / ALL;
    if r == 1 { OneIsProbable(x, 3); }
    OddRemainder(x);
    DistanceOf(x, q, r);
    if r + 2 < ALL {
      DistanceOf(x + 2, q, r + 2);
    } else {
      DistanceOf(x + 2, q + 1, r + 2 - ALL);
    }
  }

  /** The first probable prime among `x`, `x + 2`, and so on. */
  function Search(x: nat): (r: nat)
    requires x % 2 == 1
    ensures r >= x && r % 2 == 1 && Probable(r, 3)
    decreases Distance(x)
  {
    if Probable(x, 3) then x else Closer(x); Search(x + 2)
  }

  lemma {:induction false} FirstFound(x: nat, j: nat)
    requires x % 2 == 1 && j % 2 == 1 && x <= j < Search(x)
    ensures !Probable(j, 3)
    decreases Distance(x)
  {
    hide Distance, Probable, Search;
    SearchStep(x);
    if !Probable(x, 3) && x < j { FirstFound(x + 2, j); }
  }

  /** The number of buckets where the search starts: the ratio of elements to buckets is to be 3. */
  function Start(n: nat): (x: nat)
    ensures x % 2 == 1 && x >= 5 && n < 3 * x + 3
  {
    var x := n / 3;
    if x < 5 then 5 else if x % 2 == 0 then x + 1 else x
  }

  function Ideal(n: nat): nat { Search(Start(n)) }

  lemma {:induction false} NoDivisor(x: nat, i: nat, d: nat)
    requires i % 2 == 1 && d % 2 == 1 && 3 <= i <= d <= 49 && d < x && Probable(x, i)
    ensures x % d != 0
    decreases d - i
  {
    if i < d { NoDivisor(x, i + 2, d); }
  }

  /** A number that is passed over has an odd divisor from 3 to 49 other than itself. */
  lemma {:induction false} HasDivisor(x: nat, i: nat) returns (d: nat)
    requires i % 2 == 1 && i >= 3 && !Probable(x, i)
    ensures d % 2 == 1 && 3 <= d <= 49 && d != x && x % d == 0
    decreases 51 - i
  {
    if x % i == 0 {
      d := i;
    } else {
      d := HasDivisor(x, i + 2);
    }
  }

  /** Of the odd numbers from 5 on that are at least a third of the elements, rounded down, the result is the first one that
      is not divided by another odd number from 3 to 49. */
  lemma IdealIsFirst(n: nat, j: nat) returns (d: nat)
    requires j % 2 == 1 && j >= 5 && 3 * j + 2 >= n && j < Ideal(n)
    ensures d % 2 == 1 && 3 <= d <= 49 && d != j && j % d == 0
  {
    FirstFound(Start(n), j);
    d := HasDivisor(j, 3);
  }

  /** The result is odd, at least 5, and leaves room for the elements. */
  lemma IdealLeavesRoom(n: nat)
    ensures Ideal(n) % 2 == 1 && Ideal(n) >= 5 && n <= 15 * Ideal(n)
  {
  }

  /** No odd number from 3 to 49 other than the result itself divides it. */
  lemma IdealNumOfBuckets(n: nat, d: nat)
    requires d % 2 == 1 && 3 <= d <= 49
    ensures d != Ideal(n) ==> Ideal(n) % d != 0
  {
    var r := Ideal(n);
    if d < r {
      NoDivisor(r, 3, d);
    } else if d > r {
      Remainder(r, d, 0, r);
    }
  }

  lemma Product(d: nat, e: nat)
    requires d >= 53 && e >= 53
    ensures d * e >= 2809
  {
    assert d * e >= 53 * e;
  }

  lemma Division(r: nat, d: nat) returns (e: nat)
    requires d > 0 && r % d == 0
    ensures r == d * e
  {
    e := r / d;
  }

  lemma Divides(r: nat, d: nat, e: nat)
    requires d > 0 && r == d * e
    ensures r % d == 0
  {
    Remainder(r, d, e, 0);
  }

  /** Below 53 * 53 the result is prime. */
  lemma IdealIsPrime(n: nat, d: nat)
    requires Ideal(n) < 2809 && 1 < d < Ideal(n)
    ensures Ideal(n) % d != 0
  {
    var r := Ideal(n);
    if r % d == 0 {
      var e := Division(r, d);
      assert e > 1;
      Divides(r, e, d);
      if d < 53 {
        SmallDivisor(n, d);
      } else if e < 53 {
        SmallDivisor(n, e);
      } else {
        Product(d, e);
      }
    }
  }

  lemma Twice(r: nat, h: nat, e: nat)
    requires r == (2 * h) * e
    ensures r % 2 == 0
  {
    assert (2 * h) * e == 2 * (h * e);
  }

  lemma ThreeDivides(r: nat)
    requires r % 3 != 0
    ensures r % 51 != 0
  {
    if r % 51 == 0 {
      var e := Division(r, 51);
      Divides(r, 3, 17 * e);
    }
  }

  lemma SmallDivisor(n: nat, d: nat)
    requires 1 < d < Ideal(n) && d < 53
    ensures Ideal(n) % d != 0
  {
    var r := Ideal(n);
    if d % 2 == 0 {
      if r % d == 0 {
        var e := Division(r, d);
        Twice(r, d / 2, e);
      }
    } else if d <= 49 {
      IdealNumOfBuckets(n, d);
    } else {
      IdealNumOfBuckets(n, 3);
      ThreeDivides(r);
    }
  }

  // ----- the methods -----

  method IsProbablePrime(oddNumber: nat) returns (b: bool)
    ensures b == Probable(oddNumber, 3)
  {
    var i := 3;
    while i < 51
      invariant i % 2 == 1 && Probable(oddNumber, i) == Probable(oddNumber, 3)
    {
      if oddNumber == i {
        return true;
      } else if oddNumber % i == 0 {
        return false;
      }
      i := i + 2;
    }
    return true;
  }

  lemma SearchOn(x: nat)
    requires x % 2 == 1 && (x + 2) % 2 == 1 && !Probable(x, 3)
    ensures Search(x) == Search(x + 2)
  {
    hide Distance, Probable;
  }

  lemma SearchStep(x: nat)
    requires x % 2 == 1
    ensures if Probable(x, 3) then Search(x) == x else Search(x) == Search(x + 2) && Distance(x + 2) < Distance(x)
  {
    hide Distance, Probable;
    if Probable(x, 3) {
      assert Search(x) == x;
    } else {
      hide Search;
      Closer(x);
      SearchOn(x);
    }
  }

  method StartOfSearch(numOfElements: nat) returns (ideal: nat)
    ensures ideal == Start(numOfElements)
  {
    ideal := numOfElements / 3;
    if ideal < 5 {
      ideal := 5;
    } else if ideal % 2 == 0 {
      ideal := ideal + 1;
    }
  }

  method CalculateIdealNumOfBuckets(numOfElements: nat) returns (ideal: nat)
    ensures ideal == Ideal(numOfElements)
  {
    hide Search, Distance, Probable, Start;
    ideal := StartOfSearch(numOfElements);
    var ok := IsProbablePrime(ideal);
    SearchStep(ideal);
    while !ok
      invariant ideal % 2 == 1 && ok == Probable(ideal, 3) && Search(ideal) == Ideal(numOfElements)
      invariant if ok then Search(ideal) == ideal else Search(ideal) == Search(ideal + 2) && Distance(ideal + 2) < Distance(ideal)
      decreases Distance(ideal), !ok
    {
      ideal := ideal + 2;
      ok := IsProbablePrime(ideal);
      SearchStep(ideal);
    }
  }
}
