/** The reading position as a fraction of the book, and finding a section again from it. */
module ReaderPosition {
  import opened Prelude

  function Min(a: real, b: real): real { if a < b then a else b }

  function Max(a: real, b: real): real { if a < b then b else a }

  function Clamp01(x: real): real { Min(1.0, Max(0.0, x)) }

  /** The saved position: section i of n, scrolled a fraction f. */
  function Overall(i: nat, f: real, n: nat): (p: real)
    requires n > 0
    ensures 0.0 <= p <= 1.0
  {
    Clamp01((i as real + f) / n as real)
  }

  function FirstIndex(sections: seq<string>, id: Option<string>): (i: int)
    ensures i == -1 <==> id.None? || id.value !in sections
    ensures i != -1 ==> 0 <= i < |sections| && sections[i] == id.value && id.value !in sections[..i]
  {
    if sections == [] || id.None? then -1
    else if sections[0] == id.value then 0
    else
      var rest := FirstIndex(sections[1..], id);
      assert sections == [sections[0]] + sections[1..];
      assert rest >= 0 ==> sections[..rest + 1] == [sections[0]] + sections[1..][..rest];
      if rest == -1 then -1 else rest + 1
  }

  /** `Math.min(n - 1, Math.max(0, Math.floor(x)))`. */
  function SectionAt(x: real, n: nat): int {
    var floor := if x.Floor < 0 then 0 else x.Floor;
    if n - 1 < floor then n - 1 else floor
  }

  /** `initialSectionIndex`: the saved section if it still exists, else the section at the saved fraction. */
  function InitialSectionIndex(sections: seq<string>, id: Option<string>, overall: real): int {
    var exact := FirstIndex(sections, id);
    if exact >= 0 then exact else SectionAt(overall * |sections| as real, |sections|)
  }

  lemma ScaleIsMonotone(x: real, y: real, n: real)
    requires 0.0 <= n && x <= y
    ensures x * n <= y * n
  {
    var d := y - x;
    assert d * n >= 0.0;
    assert y * n == x * n + d * n;
  }

  lemma DivideBounds(x: real, y: real, n: real)
    requires n > 0.0 && x <= y
    ensures x / n <= y / n
    ensures (x / n) * n == x
  {
    var a, b := x / n, y / n;
    if a > b { assert a * n > b * n; }
  }

  /** The scrolled fraction, scaled back, is the distance scrolled, clamped. */
  lemma ScrolledScales(top: real, maximum: real)
    requires maximum > 0.0
    ensures Clamp01(top / maximum) * maximum == Min(maximum, Max(0.0, top))
  {
    var f := top / maximum;
    assert f * maximum == top;
    if f < 0.0 {
      assert (0.0 - f) * maximum > 0.0;
    } else if f > 1.0 {
      assert (f - 1.0) * maximum > 0.0;
    } else {
      ScaleIsMonotone(0.0, f, maximum);
      ScaleIsMonotone(f, 1.0, maximum);
    }
  }

  /** The saved fraction lies inside the section's share of the book. */
  lemma OverallWithinSection(i: nat, f: real, n: nat)
    requires i < n && 0.0 <= f <= 1.0
    ensures i as real / n as real <= Overall(i, f, n) <= (i + 1) as real / n as real
    ensures Overall(i, f, n) * n as real == i as real + f
  {
    DivideBounds(i as real, i as real + f, n as real);
    DivideBounds(i as real + f, (i + 1) as real, n as real);
    DivideBounds((i + 1) as real, n as real, n as real);
    DivideBounds(0.0, i as real, n as real);
  }

  /** The section saved is the section restored while its id is unique, whatever the fraction says. */
  lemma RestoresSavedSection(sections: seq<string>, i: nat, overall: real)
    requires i < |sections|
    requires forall j :: 0 <= j < |sections| && j != i ==> sections[j] != sections[i]
    ensures InitialSectionIndex(sections, Some(sections[i]), overall) == i
  {}

  /** When the id is gone the fraction gives the same index back, or the next one at the very end. */
  lemma RestoresIndexFromFraction(sections: seq<string>, gone: Option<string>, i: nat, f: real)
    requires i < |sections| && 0.0 <= f <= 1.0
    requires gone.Some? ==> gone.value !in sections
    ensures InitialSectionIndex(sections, gone, Overall(i, f, |sections|))
         == if f < 1.0 then i else if i + 1 < |sections| then i + 1 else |sections| - 1
  {
    OverallWithinSection(i, f, |sections|);
  }

  /** In a book re-cut into any number of sections the restored one contains the saved fraction. */
  lemma RestoredSectionContains(sections: seq<string>, gone: Option<string>, p: real)
    requires |sections| > 0 && 0.0 <= p <= 1.0
    requires gone.Some? ==> gone.value !in sections
    ensures var m := |sections|; var j := InitialSectionIndex(sections, gone, p);
      && 0 <= j < m
      && j as real <= p * m as real
      && (p * m as real < (j + 1) as real || (j == m - 1 && p == 1.0))
  {
    var m := |sections| as real;
    ScaleIsMonotone(0.0, p, m);
    ScaleIsMonotone(p, 1.0, m);
    assert p * m == m ==> (1.0 - p) * m == 0.0;
  }

  lemma RestoreIsMonotone(sections: seq<string>, gone: Option<string>, p: real, q: real)
    requires |sections| > 0 && p <= q && (gone.Some? ==> gone.value !in sections)
    ensures InitialSectionIndex(sections, gone, p) <= InitialSectionIndex(sections, gone, q)
  {
    ScaleIsMonotone(p, q, |sections| as real);
  }

  // ------------------------------------------------------------ rounding

  const MAX_SECTIONS := 0x4_0000_0000_0000   // 2^50
  const UNIT := 1.0 / 9007199254740992.0    // 2^-53

  /** y is x up to one relative rounding error. */
  predicate Rounds(x: real, y: real) { x - UNIT * x <= y <= x + UNIT * x }

  lemma RoundingStep(x: real, y: real, n: real)
    requires 0.0 <= x <= 2.0 * n && 0.0 <= n <= MAX_SECTIONS as real && Rounds(x, y)
    ensures x - 0.25 <= y <= x + 0.25
  {
    assert UNIT * x <= 0.25;
  }

  lemma RoundingScales(x: real, y: real, n: real)
    requires n > 0.0 && Rounds(x / n, y)
    ensures Rounds(x, y * n)
  {
    var z := x / n;
    assert z * n == x;
    assert (z - UNIT * z) * n <= y * n <= (z + UNIT * z) * n;
    assert (z - UNIT * z) * n == z * n - UNIT * (z * n);
    assert (z + UNIT * z) * n == z * n + UNIT * (z * n);
  }

  lemma RoundingKeepsSign(x: real, y: real)
    requires 0.0 <= x && Rounds(x, y)
    ensures 0.0 <= y
  {
    assert UNIT * x <= x;
  }

  /** Clamping the stored fraction moves it no further from a position inside the book. */
  lemma ClampingHelps(x: real, q: real, m: real)
    requires 0.0 <= x <= m && 0.0 < m && 0.0 <= q * m
    requires x - 0.5 <= q * m <= x + 0.5
    ensures x - 0.5 <= Clamp01(q) * m <= x + 0.5 && 0.0 <= Clamp01(q) * m <= m
  {
    if q < 0.0 {
      assert q * m < 0.0;
    } else if q > 1.0 {
      assert (q - 1.0) * m > 0.0;
      assert Clamp01(q) * m == m;
    } else {
      assert (1.0 - q) * m >= 0.0;
      assert Clamp01(q) == q;
    }
  }

  /** The stored quotient, multiplied out exactly, is off by at most half a section. */
  lemma StoredIsNear(x: real, m: real, sum: real, quotient: real)
    requires 0.0 <= x <= m && 0.0 < m <= MAX_SECTIONS as real
    requires Rounds(x, sum) && Rounds(sum / m, quotient)
    ensures 0.0 <= quotient * m && x - 0.5 <= quotient * m <= x + 0.5
  {
    RoundingStep(x, sum, m);
    RoundingKeepsSign(x, sum);
    RoundingScales(sum, quotient, m);
    RoundingAtMostDoubles(x, sum, m);
    RoundingStep(sum, quotient * m, m);
    RoundingKeepsSign(sum, quotient * m);
  }

  lemma RestoredIsNear(x: real, m: real, sum: real, quotient: real, product: real)
    requires 0.0 <= x <= m && 0.0 < m <= MAX_SECTIONS as real
    requires Rounds(x, sum) && Rounds(sum / m, quotient) && Rounds(Clamp01(quotient) * m, product)
    ensures x - 0.75 <= product <= x + 0.75
  {
    StoredIsNear(x, m, sum, quotient);
    ClampingHelps(x, quotient, m);
    RoundingStep(Clamp01(quotient) * m, product, m);
  }

  lemma RoundingAtMostDoubles(x: real, y: real, m: real)
    requires 0.0 <= x <= m && Rounds(x, y)
    ensures y <= 2.0 * m
  {
    assert UNIT * x <= x;
  }

  lemma SectionNear(i: nat, y: real, n: nat)
    requires i < n && i as real - 0.75 <= y <= i as real + 1.75
    ensures i - 1 <= SectionAt(y, n) <= i + 1
  {}

  /**
    With every operation rounded - the sum, the quotient that is stored, the product on restore -
    a fraction restores within one section of where it was saved, for up to 2^50 sections.
  */
  lemma RestoresWithinOneSection(i: nat, f: real, n: nat, sum: real, quotient: real, product: real)
    requires i < n <= MAX_SECTIONS && 0.0 <= f <= 1.0
    requires Rounds(i as real + f, sum)
    requires Rounds(sum / n as real, quotient)
    requires Rounds(Clamp01(quotient) * n as real, product)
    ensures i - 1 <= SectionAt(product, n) <= i + 1
  {
    RestoredIsNear(i as real + f, n as real, sum, quotient, product);
    SectionNear(i, product, n);
  }
}
