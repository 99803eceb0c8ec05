/** The rounding of `double`: to the nearest number with 53 significant bits, and half way to the even one. */
module Doubles {
  import opened PartnerRanks

  const TWO52: int := 4503599627370496

  /** The nearest integer, and half way between two of them the even one. */
  function NearestInt(x: real): (n: int)
    ensures x - 0.5 <= n as real <= x + 0.5
    ensures n as real == x - 0.5 || n as real == x + 0.5 ==> n % 2 == 0
  {
    var n := x.Floor;
    var rest := x - n as real;
    if rest < 0.5 || (rest == 0.5 && n % 2 == 0) then n else n + 1
  }

  /** Below 2^53: doubled until there are 53 bits before the point, rounded to an integer, and halved as often. */
  function NearestSmall(x: real, k: nat): real
    decreases k
  {
    if x >= TWO52 as real || k == 0 then NearestInt(x) as real else NearestSmall(2.0 * x, k - 1) / 2.0
  }

  /** From 2^53 on: halved, rounded and doubled. */
  function NearestLarge(x: real, k: nat): real {
    if x < TWO53 as real || k == 0 then NearestInt(x) as real else 2.0 * NearestLarge(x / 2.0, k - 1)
  }

  /** The rounding of `double` on the reals in range; what is below them counts as zero. */
  function Nearest(x: real): real {
    if !InRange(x) then 0.0
    else if x < TWO53 as real then NearestSmall(x, 105)
    else NearestLarge(x, 12)
  }

  // Nearest integers

  lemma NearestIntExact(n: int)
    ensures NearestInt(n as real) == n
  {
  }

  lemma NearestIntMonotone(x: real, y: real)
    requires x <= y
    ensures NearestInt(x) <= NearestInt(y)
  {
    assert x.Floor <= y.Floor;
  }

  // Numbers below 2^53

  /** The least number that `k` doublings bring to 2^52. */
  function Least(k: nat): real {
    if k == 0 then TWO52 as real else Least(k - 1) / 2.0
  }

  lemma {:induction false} SmallExact(n: nat, k: nat)
    ensures NearestSmall(n as real, k) == n as real
    decreases k
  {
    NearestIntExact(n);
    if n < TWO52 && k > 0 {
      assert 2.0 * n as real == (2 * n) as real;
      SmallExact(2 * n, k - 1);
    }
  }

  lemma {:induction false} SmallAtMost(x: real, k: nat, n: nat)
    requires x <= n as real
    ensures NearestSmall(x, k) <= n as real
    decreases k
  {
    NearestIntMonotone(x, n as real);
    NearestIntExact(n);
    if x < TWO52 as real && k > 0 {
      assert (2 * n) as real == 2.0 * n as real;
      SmallAtMost(2.0 * x, k - 1, 2 * n);
    }
  }

  lemma {:induction false} SmallMonotone(x: real, y: real, k: nat)
    requires x <= y
    ensures NearestSmall(x, k) <= NearestSmall(y, k)
    decreases k
  {
    if k == 0 || x >= TWO52 as real {
      NearestIntMonotone(x, y);
    } else if y < TWO52 as real {
      SmallMonotone(2.0 * x, 2.0 * y, k - 1);
    } else {
      SmallAtMost(x, k, TWO52);
      NearestIntMonotone(TWO52 as real, y);
      NearestIntExact(TWO52);
    }
  }

  lemma {:induction false} SmallError(x: real, k: nat)
    requires Least(k) <= x
    ensures x - x / (TWO53 as real) <= NearestSmall(x, k) <= x + x / (TWO53 as real)
    decreases k
  {
    if x < TWO52 as real && k > 0 {
      SmallError(2.0 * x, k - 1);
    }
  }

  lemma LeastInRange()
    ensures Least(105) == 1.0 / TWO53 as real
  {
    assert Least(4) == Least(2) / 4.0 && Least(6) == Least(4) / 4.0;
    assert Least(7) == 35184372088832.0;
    LeastShift(7, 7);
    assert Least(14) == 274877906944.0;
    LeastShift(14, 14);
    assert Least(28) == 16777216.0;
    LeastShift(28, 7);
    assert Least(35) == 131072.0;
    LeastShift(35, 35);
    LeastShift(70, 35);
  }

  lemma {:induction false} LeastShift(j: nat, k: nat)
    ensures Least(j + k) * TWO52 as real == Least(j) * Least(k)
  {
    if k > 0 { LeastShift(j, k - 1); }
  }

  // Numbers from 2^53 on

  lemma {:induction false} LargeAtLeast(x: real, k: nat, n: nat)
    requires n <= TWO53 && n as real <= x
    ensures n as real <= NearestLarge(x, k)
  {
    NearestIntMonotone(n as real, x);
    NearestIntExact(n);
    if x >= TWO53 as real && k > 0 {
      LargeAtLeast(x / 2.0, k - 1, TWO52);
    }
  }

  lemma {:induction false} LargeMonotone(x: real, y: real, k: nat)
    requires x <= y
    ensures NearestLarge(x, k) <= NearestLarge(y, k)
  {
    if k == 0 || y < TWO53 as real {
      NearestIntMonotone(x, y);
    } else if x >= TWO53 as real {
      LargeMonotone(x / 2.0, y / 2.0, k - 1);
    } else {
      LargeAtLeast(y, k, TWO53);
      NearestIntMonotone(x, TWO53 as real);
      NearestIntExact(TWO53);
    }
  }

  lemma {:induction false} LargeError(x: real, k: nat)
    requires TWO52 as real <= x
    ensures x - x / (TWO53 as real) <= NearestLarge(x, k) <= x + x / (TWO53 as real)
  {
    if x >= TWO53 as real && k > 0 {
      LargeError(x / 2.0, k - 1);
    }
  }

  // The rounding

  lemma NearestMonotone(x: real, y: real)
    requires InRange(x) && InRange(y) && x <= y
    ensures Nearest(x) <= Nearest(y)
  {
    if y < TWO53 as real {
      SmallMonotone(x, y, 105);
    } else if x >= TWO53 as real {
      LargeMonotone(x, y, 12);
    } else {
      SmallAtMost(x, 105, TWO53);
      LargeAtLeast(y, 12, TWO53);
    }
  }

  lemma NearestError(x: real)
    requires InRange(x)
    ensures x - x / (TWO53 as real) <= Nearest(x) <= x + x / (TWO53 as real)
  {
    if x < TWO53 as real {
      LeastInRange();
      SmallError(x, 105);
    } else {
      LargeError(x, 12);
    }
  }

  lemma NearestExact(n: nat)
    requires n <= TWO53
    ensures Nearest(n as real) == n as real
  {
    SmallExact(n, 105);
    if n == TWO53 {
      assert TWO53 as real / 2.0 == TWO52 as real;
      NearestIntExact(TWO52);
      assert NearestLarge(TWO52 as real, 11) == TWO52 as real;
    }
  }

  /** Main result: the rounding of `double` has the properties that the results about partner ranks use. */
  lemma NearestIsRounding()
    ensures Rounding(Nearest)
  {
    forall x, y | InRange(x) && InRange(y) && x <= y
      ensures Nearest(x) <= Nearest(y)
    {
      NearestMonotone(x, y);
    }
    forall x | 0.0 <= x <= TWO53 as real && x == x.Floor as real
      ensures Nearest(x) == x
    {
      NearestExact(x.Floor);
    }
    forall x | InRange(x)
      ensures x - x / (TWO53 as real) <= Nearest(x) <= x + x / (TWO53 as real)
    {
      NearestError(x);
    }
  }

  // Sizes that `double` does not have

  function Doubled(z: real, j: nat): real {
    if j == 0 then z else 2.0 * Doubled(z, j - 1)
  }

  lemma {:induction false} NearestDoubled(z: real, k: nat, j: nat)
    requires TWO52 as real <= z < TWO53 as real && j <= k
    ensures TWO52 as real <= Doubled(z, j) && NearestLarge(Doubled(z, j), k) == Doubled(NearestInt(z) as real, j)
  {
    if j > 0 { NearestDoubled(z, k - 1, j - 1); }
  }

  lemma DoubledEleven(z: real)
    ensures Doubled(z, 11) == 2048.0 * z
  {
    DoubledFour(z, 7);
    DoubledFour(z, 3);
    assert Doubled(z, 3) == 2.0 * Doubled(z, 2) && Doubled(z, 1) == 2.0 * z;
  }

  lemma DoubledFour(z: real, j: nat)
    ensures Doubled(z, j + 4) == 16.0 * Doubled(z, j)
  {
    assert Doubled(z, j + 4) == 2.0 * Doubled(z, j + 3) && Doubled(z, j + 2) == 2.0 * Doubled(z, j + 1);
  }

  lemma AboveTwo53()
    ensures Nearest((TWO53 + 1) as real) == TWO53 as real
  {
    NearestDoubled(4503599627370496.5, 12, 1);
    assert Doubled(4503599627370496.5, 1) == (TWO53 + 1) as real;
  }

  lemma AboveTwo63()
    ensures Nearest((TWO63 + 1) as real) == TWO63 as real
  {
    var z := 4503599627370496.0 + 1.0 / 2048.0;
    NearestDoubled(z, 12, 11);
    DoubledEleven(z);
    DoubledEleven(TWO52 as real);
  }

  lemma BelowTwo64()
    ensures Nearest((TWO64 - 1) as real) == TWO64 as real
  {
    var z := 9007199254740992.0 - 1.0 / 2048.0;
    NearestDoubled(z, 12, 11);
    DoubledEleven(z);
    DoubledEleven(TWO53 as real);
  }

  /** So with the arithmetic of `double` the last of 2^53 + 1 exporters has no partner among two importers, */
  lemma DoubleHasNoLastPartner()
    ensures Rounding(Nearest) && !OnePartner(Nearest, 2, TWO53 + 1)
  {
    NearestIsRounding();
    AboveTwo53();
    LastExporterHasNoPartner(Nearest);
  }

  /** and near 2^64 ranks the two sides disagree. */
  lemma DoubleBlocksDisagree()
    ensures Rounding(Nearest) && !Agree(Nearest, TWO63 + 1, TWO64 - 1)
  {
    NearestIsRounding();
    AboveTwo63();
    BelowTwo64();
    WrappedBlocksDisagree(Nearest);
  }
}
