/** Which ranks of two coupled programs exchange data. */
module PartnerRanks {

  const TWO53: int := 9007199254740992
  const TWO64: int := 18446744073709551616

  /** The numbers of ranks, of type `size_t`. */
  type Size = n: nat | n < TWO64

  /** The reals that the computation rounds: far above the smallest `double` and far below the largest. */
  predicate InRange(x: real) {
    1.0 / TWO53 as real <= x <= 2.0 * TWO64 as real
  }

  /**
   * Arithmetic in `double` is the real result followed by a rounding `fl`, of which only this is
   * used: it is exact on the integers up to 2^53, and on the reals in range monotone and within
   * relative error 2^-53.
   */
  ghost predicate Rounding(fl: real -> real) {
    && (forall x, y :: InRange(x) && InRange(y) && x <= y ==> fl(x) <= fl(y))
    && (forall x :: 0.0 <= x <= TWO53 as real && x == x.Floor as real ==> fl(x) == x)
    && (forall x :: InRange(x) ==> x - x / (TWO53 as real) <= fl(x) <= x + x / (TWO53 as real))
  }

  function Ceil(x: real): int {
    -((-x).Floor)
  }

  /** The number of ranks that share a partner, computed in floating point. */
  function Block(fl: real -> real, larger: Size, smaller: Size): int
    requires fl(smaller as real) != 0.0
  {
    Ceil(fl(fl(larger as real) / fl(smaller as real)))
  }

  /** `size_t` arithmetic. */
  function Wrap(n: int): nat {
    n % TWO64
  }

  function CeilDiv(a: nat, b: nat): nat
    requires b > 0
  {
    (a + b - 1) / b
  }

  // Quotients

  lemma CeilUnique(x: real, n: int)
    requires (n - 1) as real < x <= n as real
    ensures Ceil(x) == n
  {
  }

  lemma CeilDivBounds(a: nat, b: nat)
    requires a > 0 && b > 0
    ensures var c := CeilDiv(a, b); (c - 1) * b + 1 <= a <= c * b && 1 <= c <= a
  {
    var c := CeilDiv(a, b);
    assert c * b <= a + b - 1 < c * b + b;
    assert b <= a + b - 1;
    ProductAtLeast(c - 1, b);
  }

  lemma ProductAtLeast(x: nat, y: nat)
    requires y > 0
    ensures x <= x * y
  {
    assert x * y - x == x * (y - 1);
  }

  lemma DivideMonotone(x: real, y: real, d: real)
    requires d > 0.0 && x <= y
    ensures x / d <= y / d
  {
    assert y / d - x / d == (y - x) / d;
  }

  lemma DivideStrict(x: real, y: real, d: real)
    requires d > 0.0 && x < y
    ensures x / d < y / d
  {
    assert y / d - x / d == (y - x) / d;
  }

  lemma DivideByMore(x: real, d: real, e: real)
    requires 0.0 <= x && 0.0 < d <= e
    ensures x / e <= x / d
  {
    DivideMonotone(x * d, x * e, d * e);
    assert (x * d) / (d * e) == x / e && (x * e) / (d * e) == x / d;
  }

  lemma QuotientBounds(a: nat, b: nat, c: nat)
    requires b > 0 && (c - 1) * b + 1 <= a <= c * b
    ensures var q := a as real / b as real; (c - 1) as real + 1.0 / b as real <= q <= c as real
  {
    var d := b as real;
    DivideMonotone(a as real, (c * b) as real, d);
    assert (c * b) as real / d == c as real;
    DivideMonotone(((c - 1) * b + 1) as real, a as real, d);
    assert ((c - 1) * b + 1) as real / d == (c - 1) as real + 1.0 / d;
  }

  lemma ErrorSmall(a: nat, b: nat)
    requires 0 < a < TWO53 && b > 0
    ensures (a as real / b as real) / (TWO53 as real) < 1.0 / b as real
  {
    var t := TWO53 as real;
    DivideStrict(a as real / t, 1.0, b as real);
    assert (a as real / t) / b as real == (a as real / b as real) / t;
  }

  // Floating point against integers

  lemma {:induction false} ExactBelow(fl: real -> real, n: nat)
    requires Rounding(fl) && n <= TWO53
    ensures fl(n as real) == n as real
  {
    assert (n as real).Floor == n;
  }

  lemma RoundedQuotient(fl: real -> real, q: real, step: real, c: nat)
    requires Rounding(fl) && fl(c as real) == c as real
    requires InRange(q) && 0 < c <= TWO53 && (c - 1) as real + step <= q <= c as real && q / (TWO53 as real) < step
    ensures Ceil(fl(q)) == c
  {
    assert fl(q) <= fl(c as real);
    CeilUnique(fl(q), c);
  }

  lemma QuotientInRange(a: nat, b: nat)
    requires 0 < a < TWO53 && 0 < b < TWO53
    ensures InRange(a as real / b as real)
  {
    DivideByMore(1.0, b as real, TWO53 as real);
    DivideMonotone(1.0, a as real, b as real);
    DivideByMore(a as real, 1.0, b as real);
  }

  /** Main result: below 2^53 the rounded computation is integer ceiling division. */
  lemma BlockIsCeilDiv(fl: real -> real, a: Size, b: Size)
    requires Rounding(fl) && 0 < a < TWO53 && 0 < b < TWO53
    ensures fl(b as real) != 0.0 && Block(fl, a, b) == CeilDiv(a, b)
  {
    var c, q := CeilDiv(a, b), a as real / b as real;
    CeilDivBounds(a, b);
    QuotientBounds(a, b, c);
    ExactBelow(fl, a);
    ExactBelow(fl, b);
    ExactBelow(fl, c);
    ErrorSmall(a, b);
    QuotientInRange(a, b);
    RoundedQuotient(fl, q, 1.0 / b as real, c);
  }

  /** For any sizes the block is at least one, so the exporter never divides by zero, and fits in `size_t`. */
  lemma BlockInRange(fl: real -> real, a: Size, b: Size)
    requires Rounding(fl) && a > b >= 2
    ensures fl(b as real) != 0.0 && 1 <= Block(fl, a, b) < a
  {
    var x, y := fl(a as real), fl(b as real);
    ExactBelow(fl, 1);
    ExactBelow(fl, 2);
    assert fl(2 as real) == 2.0 && fl(1 as real) == 1.0;
    assert 2 as real <= b as real <= a as real;
    QuotientAtLeastOne(x, y);
    DivideByMore(x, 2.0, y);
    HalfRounded(fl, a);
    assert x <= 2.0 * TWO64 as real;
    RoundedInRange(fl, x / y, x / 2.0, a);
  }

  lemma QuotientAtLeastOne(x: real, y: real)
    requires x >= y > 0.0
    ensures x / y >= 1.0
  {
    DivideMonotone(y, x, y);
  }

  lemma RoundedInRange(fl: real -> real, q: real, h: real, a: nat)
    requires Rounding(fl) && fl(1.0) == 1.0 && 1.0 <= q <= h && InRange(h) && fl(h) <= (a - 1) as real
    ensures 1 <= Ceil(fl(q)) < a
  {
  }

  lemma HalfRounded(fl: real -> real, a: Size)
    requires Rounding(fl) && a >= 3
    ensures fl(fl(a as real) / 2.0) <= (a - 1) as real
  {
    var r, t := a as real, TWO53 as real;
    var h := fl(r) / 2.0;
    assert fl(r) <= r + r / t;
    if h >= 0.0 {
      assert fl(h) <= h + h / t;
      assert h <= r / 2.0 + r / t / 2.0;
    }
  }

  // The two rank functions

  datatype Outcome = Partners(ranks: set<nat>) | Rejected

  predicate Accepted(me: Size, mine: Size, partner: Size) {
    mine != 0 && partner != 0 && me < mine
  }

  predicate Between(lower: nat, e: nat, upper: nat) {
    lower <= e < upper
  }

  /** The ranks from `lower` up to `upper` among the first `n`. */
  ghost function Span(lower: nat, upper: nat, n: nat): (r: set<nat>)
    ensures forall e: nat :: e in r <==> e < n && lower <= e < upper
  {
    set e: nat | e < n && Between(lower, e, upper)
  }

  ghost function Importer(fl: real -> real, me: Size, mine: Size, partner: Size): Outcome
    requires Rounding(fl)
  {
    if !Accepted(me, mine, partner) then Rejected
    else if mine == 1 then Partners(Span(0, partner, partner))
    else if mine == partner then Partners({me})
    else if mine > partner then Partners(if me < partner then {me} else {})
    else
      BlockInRange(fl, partner, mine);
      var b: nat := Block(fl, partner, mine);
      Partners(Span(Wrap(me * b), Wrap((me + 1) * b), partner))
  }

  function Exporter(fl: real -> real, me: Size, mine: Size, partner: Size): (r: Outcome)
    requires Rounding(fl)
    ensures r == Rejected <==> mine == 0 || partner == 0 || me >= mine
  {
    if !Accepted(me, mine, partner) then Rejected
    else if mine == 1 then Partners({0})
    else if partner == 1 then Partners({0})
    else if mine == partner then Partners({me})
    else if mine > partner then
      BlockInRange(fl, mine, partner);
      Partners({me / Block(fl, mine, partner)})
    else Partners({me})
  }

  method ComputePartnerRanksAsImporter(fl: real -> real, me: Size, mine: Size, partner: Size) returns (r: Outcome)
    requires Rounding(fl)
    ensures r == Importer(fl, me, mine, partner)
    ensures r == Rejected <==> mine == 0 || partner == 0 || me >= mine
  {
    if mine == 0 || partner == 0 || me >= mine { return Rejected; }
    var ranks: set<nat> := {};
    if mine == 1 {
      for i := 0 to partner
        invariant ranks == Span(0, partner, i)
      {
        ranks := ranks + {i};
      }
      return Partners(ranks);
    } else if mine == partner {
      return Partners({me});
    } else if mine > partner {
      if me < partner { return Partners({me}); }
      return Partners({});
    }
    BlockInRange(fl, partner, mine);
    var b: nat := Block(fl, partner, mine);
    var lower, upper := Wrap(me * b), Wrap((me + 1) * b);
    for i := 0 to partner
      invariant ranks == Span(lower, upper, i)
    {
      if i >= lower && i < upper {
        ranks := ranks + {i};
      }
    }
    r := Partners(ranks);
  }

  /** The two sides name the same pairs of ranks. */
  ghost predicate Agree(fl: real -> real, importers: Size, exporters: Size)
    requires Rounding(fl) && importers > 0 && exporters > 0
  {
    forall i: nat, e: nat :: i < importers && e < exporters ==> AgreeOn(fl, importers, exporters, i, e)
  }

  ghost predicate AgreeOn(fl: real -> real, importers: Size, exporters: Size, i: nat, e: nat)
    requires Rounding(fl) && i < importers && e < exporters
  {
    e in Importer(fl, i, importers, exporters).ranks <==> i in Exporter(fl, e, exporters, importers).ranks
  }

  lemma WrapBelow(n: nat)
    ensures n < TWO64 ==> Wrap(n) == n
    ensures TWO64 <= n < 2 * TWO64 ==> Wrap(n) == n - TWO64
  {
  }

  lemma QuotientIs(e: nat, b: nat, i: nat)
    requires b > 0
    ensures e / b == i <==> i * b <= e < (i + 1) * b
  {
    var q := e / b;
    assert q * b <= e < (q + 1) * b;
    if q < i { assert (q + 1) * b <= i * b by { ProductMonotone(q + 1, i, b); } }
    if q > i { assert (i + 1) * b <= q * b by { ProductMonotone(i + 1, q, b); } }
  }

  lemma ProductMonotone(x: nat, y: nat, b: nat)
    requires x <= y
    ensures x * b <= y * b
  {
    assert y * b - x * b == (y - x) * b;
  }

  /** The importer's test of one exporter in `size_t` arithmetic. */
  predicate InWrappedBlock(i: nat, b: nat, e: nat) {
    Wrap(i * b) <= e < Wrap((i + 1) * b)
  }

  predicate Fits(n: nat, b: nat, exporters: nat)
    requires n > 0
  {
    (n - 1) * b < TWO64 && (n * b < TWO64 || exporters <= (n - 1) * b)
  }

  lemma FittingBlock(n: nat, b: nat, exporters: nat, i: nat, e: nat)
    requires 0 < b < exporters < TWO64 && i < n && e < exporters && Fits(n, b, exporters)
    ensures InWrappedBlock(i, b, e) <==> e / b == i
  {
    QuotientIs(e, b, i);
    ProductMonotone(i, n - 1, b);
    ProductMonotone(i + 1, n, b);
    if i + 1 < n { ProductMonotone(i + 1, n - 1, b); }
    WrapBelow(i * b);
    WrapBelow((i + 1) * b);
    NextBlock(i, b);
  }

  lemma NextBlock(i: nat, b: nat)
    ensures (i + 1) * b == i * b + b
  {
  }

  /** The first importer whose block ends past the range of `size_t`. */
  lemma FirstPast(b: nat, n: nat) returns (i: nat)
    requires 0 < b < TWO64 && n * b >= TWO64
    ensures i < n && i * b < TWO64 <= (i + 1) * b
  {
    i := 0;
    while (i + 1) * b < TWO64
      invariant i < n && i * b < TWO64
      decreases n - i
    {
      i := i + 1;
    }
  }

  lemma PastBlock(n: nat, b: nat, exporters: nat) returns (i: nat, e: nat)
    requires 0 < b < exporters < TWO64 && 0 < n && !Fits(n, b, exporters)
    ensures i < n && e < exporters && InWrappedBlock(i, b, e) != (e / b == i)
  {
    NextBlock(n - 1, b);
    i := FirstPast(b, n);
    var start := i * b;
    NextBlock(i, b);
    WrapBelow(start);
    WrapBelow(start + b);
    if start < exporters {
      e := start;
      QuotientIs(e, b, i);
      assert b <= start by { ProductMonotone(1, i, b); }
    } else {
      assert 2 * b <= start by { assert i > 1; ProductMonotone(2, i, b); }
      e := start + b - TWO64;
      NextBlock(i + 1, b);
      WrapBelow(start + b + b);
      i := i + 1;
      QuotientIs(e, b, 0);
    }
  }

  /** No block of importers that has exporters ends past the range of `size_t`. */
  ghost predicate BlocksFit(fl: real -> real, importers: Size, exporters: Size)
    requires Rounding(fl)
  {
    if 2 <= importers < exporters then
      BlockInRange(fl, exporters, importers);
      Fits(importers, Block(fl, exporters, importers), exporters)
    else true
  }

  /** Main result: importers and exporters agree on who talks to whom exactly when the blocks fit `size_t`. */
  lemma AgreementExactlyWhenBlocksFit(fl: real -> real, importers: Size, exporters: Size)
    requires Rounding(fl) && 0 < importers && 0 < exporters
    ensures Agree(fl, importers, exporters) <==> BlocksFit(fl, importers, exporters)
  {
    if 2 <= importers < exporters {
      BlockInRange(fl, exporters, importers);
      var b: nat := Block(fl, exporters, importers);
      if Fits(importers, b, exporters) {
        forall i: nat, e: nat | i < importers && e < exporters ensures AgreeOn(fl, importers, exporters, i, e) {
          FittingBlock(importers, b, exporters, i, e);
        }
      } else {
        var i, e := PastBlock(importers, b, exporters);
        assert !AgreeOn(fl, importers, exporters, i, e);
      }
    } else {
      forall i: nat, e: nat | i < importers && e < exporters ensures AgreeOn(fl, importers, exporters, i, e) {
      }
    }
  }

  /** Below 2^53 ranks the two sides always agree. */
  lemma Agreement(fl: real -> real, importers: Size, exporters: Size)
    requires Rounding(fl) && 0 < importers < TWO53 && 0 < exporters < TWO53
    ensures Agree(fl, importers, exporters)
  {
    AgreementExactlyWhenBlocksFit(fl, importers, exporters);
    if 2 <= importers < exporters {
      BlockIsCeilDiv(fl, exporters, importers);
      SmallBlocksFit(importers, exporters);
    }
  }

  lemma SmallBlocksFit(n: nat, exporters: nat)
    requires 0 < n < TWO53 && 0 < exporters < TWO53
    ensures var c := CeilDiv(exporters, n); n * c < 2 * TWO53 && Fits(n, c, exporters)
  {
    var c := CeilDiv(exporters, n);
    assert c * n <= exporters + n - 1;
    NextBlock(n - 1, c);
  }

  /** Every exporter talks to exactly one rank of the importer. */
  ghost predicate OnePartner(fl: real -> real, importers: Size, exporters: Size)
    requires Rounding(fl)
  {
    forall e: nat :: e < exporters ==> HasOnePartner(fl, importers, exporters, e)
  }

  ghost predicate HasOnePartner(fl: real -> real, importers: Size, exporters: Size, e: Size)
    requires Rounding(fl)
  {
    exists i: nat :: i < importers && Exporter(fl, e, exporters, importers) == Partners({i})
  }

  /** The blocks of all importers together reach the last exporter. */
  ghost predicate BlocksCover(fl: real -> real, importers: Size, exporters: Size)
    requires Rounding(fl)
  {
    if 2 <= importers < exporters then
      BlockInRange(fl, exporters, importers);
      exporters <= importers * Block(fl, exporters, importers)
    else true
  }

  /** Main result: all partners are valid exactly when the blocks cover the exporters. */
  lemma PartnersValidExactlyWhenCovered(fl: real -> real, importers: Size, exporters: Size)
    requires Rounding(fl) && 0 < importers && 0 < exporters
    ensures OnePartner(fl, importers, exporters) <==> BlocksCover(fl, importers, exporters)
  {
    if 2 <= importers < exporters {
      BlockInRange(fl, exporters, importers);
      var b: nat := Block(fl, exporters, importers);
      forall e: nat | e < exporters ensures HasOnePartner(fl, importers, exporters, e) <==> e < importers * b {
        QuotientBelow(e, b, importers);
        SharedPartner(fl, importers, exporters, b, e);
      }
      if importers * b < exporters {
        assert !HasOnePartner(fl, importers, exporters, importers * b);
      }
    } else {
      forall e: nat | e < exporters ensures HasOnePartner(fl, importers, exporters, e) {
        var i := if exporters == 1 || importers == 1 then 0 else e;
        assert Exporter(fl, e, exporters, importers) == Partners({i});
      }
    }
  }

  lemma SharedPartner(fl: real -> real, importers: Size, exporters: Size, b: nat, e: Size)
    requires Rounding(fl) && 2 <= importers < exporters && e < exporters
    requires fl(importers as real) != 0.0 && 0 < b == Block(fl, exporters, importers)
    ensures HasOnePartner(fl, importers, exporters, e) <==> e / b < importers
  {
    var x := Exporter(fl, e, exporters, importers);
    assert x == Partners({e / b});
    assert e / b in x.ranks;
  }

  lemma QuotientBelow(e: nat, b: nat, n: nat)
    requires b > 0
    ensures e / b < n <==> e < n * b
  {
    QuotientIs(e, b, e / b);
    if e / b < n { ProductMonotone(e / b + 1, n, b); } else { ProductMonotone(n, e / b, b); }
  }

  /** Below 2^53 every exporter has exactly one valid partner. */
  lemma PartnersValid(fl: real -> real, importers: Size, exporters: Size)
    requires Rounding(fl) && 0 < importers < TWO53 && 0 < exporters < TWO53
    ensures OnePartner(fl, importers, exporters)
  {
    PartnersValidExactlyWhenCovered(fl, importers, exporters);
    if 2 <= importers < exporters {
      BlockIsCeilDiv(fl, exporters, importers);
      CeilDivBounds(exporters, importers);
    }
  }

  /**
   * Below 2^53 the importers share the exporters out in consecutive blocks of the
   * ceiling of the quotient, the last ones possibly shorter or empty.
   */
  lemma ImporterBlocks(fl: real -> real, importers: Size, exporters: Size, i: nat)
    requires Rounding(fl) && 2 <= importers <= exporters < TWO53 && i < importers
    ensures var c := CeilDiv(exporters, importers);
            Importer(fl, i, importers, exporters) ==
            Partners(Span(i * c, (i + 1) * c, exporters))
  {
    if importers == exporters {
      EqualSizesBlock(exporters);
      assert Span(i, i + 1, exporters) == {i};
    } else {
      BlockIsCeilDiv(fl, exporters, importers);
      SmallBlock(importers, exporters, i);
    }
  }

  lemma EqualSizesBlock(n: nat)
    requires n > 0
    ensures CeilDiv(n, n) == 1
  {
    QuotientIs(n + n - 1, n, 1);
  }

  lemma SmallBlock(n: nat, exporters: nat, i: nat)
    requires i < n < TWO53 && 0 < exporters < TWO53
    ensures var c := CeilDiv(exporters, n); Wrap(i * c) == i * c && Wrap((i + 1) * c) == (i + 1) * c
  {
    var c := CeilDiv(exporters, n);
    SmallBlocksFit(n, exporters);
    ProductMonotone(i, n, c);
    ProductMonotone(i + 1, n, c);
    WrapBelow(i * c);
    WrapBelow((i + 1) * c);
  }

  // Where the code fails

  lemma LastBlock(fl: real -> real)
    requires Rounding(fl) && fl((TWO53 + 1) as real) == TWO53 as real
    ensures fl(2 as real) != 0.0 && Block(fl, TWO53 + 1, 2) == 4503599627370496
  {
    var q := 4503599627370496 as real;
    ExactBelow(fl, 2);
    ExactBelow(fl, 4503599627370496);
    CeilUnique(q, 4503599627370496);
    assert TWO53 as real / 2.0 == q;
  }

  /** With 2^53 + 1 exporters, rounded down to 2^53, and two importers the last exporter is sent to a third importer. */
  lemma LastExporterHasNoPartner(fl: real -> real)
    requires Rounding(fl) && fl((TWO53 + 1) as real) == TWO53 as real
    ensures Exporter(fl, TWO53, TWO53 + 1, 2) == Partners({2})
    ensures !OnePartner(fl, 2, TWO53 + 1)
  {
    LastBlock(fl);
    PartnersValidExactlyWhenCovered(fl, 2, TWO53 + 1);
  }

  const TWO63: int := 9223372036854775808

  /** With 2^64 - 1 exporters and 2^63 + 1 importers, both rounded to powers of two, the two sides disagree. */
  lemma WrappedBlocksDisagree(fl: real -> real)
    requires Rounding(fl) && fl((TWO64 - 1) as real) == TWO64 as real && fl((TWO63 + 1) as real) == TWO63 as real
    ensures !Agree(fl, TWO63 + 1, TWO64 - 1)
  {
    ExactBelow(fl, 2);
    assert TWO64 as real / TWO63 as real == 2.0;
    CeilUnique(2.0, 2);
    assert Block(fl, TWO64 - 1, TWO63 + 1) == 2;
    BlockInRange(fl, TWO64 - 1, TWO63 + 1);
    AgreementExactlyWhenBlocksFit(fl, TWO63 + 1, TWO64 - 1);
  }
}
