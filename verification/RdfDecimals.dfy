/** Normalising xsd:decimal literals: one text for each value, as in section 3.3.3 of XML Schema 1.1 Part 2. */
module RdfDecimals {
  type Digit = d: nat | d < 10 witness 0
  type Digits = seq<Digit>

  datatype Sign = NoSign | Plus | Minus
  /** `[+-]?digits(.digits)?`; an absent fraction is the empty one. */
  datatype Decimal = Decimal(sign: Sign, integer: Digits, fraction: Digits)

  ghost predicate Literal(d: Decimal) { d.integer != [] }

  // ---------------------------------------------------------- value

  function Whole(ds: Digits): nat {
    if ds == [] then 0 else 10 * Whole(ds[..|ds| - 1]) + ds[|ds| - 1]
  }

  function Part(ds: Digits): (r: real)
    ensures 0.0 <= r < 1.0
  {
    if ds == [] then 0.0 else (ds[0] as real + Part(ds[1..])) / 10.0
  }

  function Magnitude(d: Decimal): real { Whole(d.integer) as real + Part(d.fraction) }

  function Value(d: Decimal): real { if d.sign.Minus? then -Magnitude(d) else Magnitude(d) }

  // -------------------------------------------------- normalisation

  function WithoutLeading(ds: Digits): Digits {
    if |ds| > 1 && ds[0] == 0 then WithoutLeading(ds[1..]) else ds
  }

  function WithoutTrailing(ds: Digits): Digits {
    if ds != [] && ds[|ds| - 1] == 0 then WithoutTrailing(ds[..|ds| - 1]) else ds
  }

  /** `normalizeLiteral` on a decimal: no plus sign, no padding zeros, no sign on zero. */
  function Normalize(d: Decimal): Decimal {
    var integer, fraction := WithoutLeading(d.integer), WithoutTrailing(d.fraction);
    var isZero := integer == [0] && fraction == [];
    Decimal(if d.sign.Minus? && !isZero then Minus else NoSign, integer, fraction)
  }

  // ------------------------------------------------ value preserved

  lemma {:induction false} WholeLeadingZero(ds: Digits)
    requires ds != [] && ds[0] == 0
    ensures Whole(ds) == Whole(ds[1..])
  {
    if |ds| == 1 {
      assert ds[..0] == [] && ds[1..] == [];
    } else {
      var last := |ds| - 1;
      WholeLeadingZero(ds[..last]);
      assert ds[1..][..last - 1] == ds[..last][1..];
    }
  }

  lemma {:induction false} LeadingKeepsValue(ds: Digits)
    ensures Whole(WithoutLeading(ds)) == Whole(ds)
  {
    if |ds| > 1 && ds[0] == 0 {
      WholeLeadingZero(ds);
      LeadingKeepsValue(ds[1..]);
    }
  }

  lemma {:induction false} PartTrailingZero(ds: Digits)
    requires ds != [] && ds[|ds| - 1] == 0
    ensures Part(ds) == Part(ds[..|ds| - 1])
  {
    if |ds| == 1 {
      assert ds[1..] == [] && ds[..0] == [];
    } else {
      PartTrailingZero(ds[1..]);
      assert ds[1..][..|ds| - 2] == ds[..|ds| - 1][1..];
    }
  }

  lemma {:induction false} TrailingKeepsValue(ds: Digits)
    ensures Part(WithoutTrailing(ds)) == Part(ds)
  {
    if ds != [] && ds[|ds| - 1] == 0 {
      PartTrailingZero(ds);
      TrailingKeepsValue(ds[..|ds| - 1]);
    }
  }

  /** Normalising keeps the value. */
  lemma ValueKept(d: Decimal)
    requires Literal(d)
    ensures Value(Normalize(d)) == Value(d)
  {
    LeadingKeepsValue(d.integer);
    TrailingKeepsValue(d.fraction);
    if WithoutLeading(d.integer) == [0] && WithoutTrailing(d.fraction) == [] { assert [0][..0] == []; }
  }

  // ---------------------------------------------------- canonical form

  ghost predicate Canonical(d: Decimal) {
    && d.integer != [] && (|d.integer| > 1 ==> d.integer[0] != 0)
    && (d.fraction != [] ==> d.fraction[|d.fraction| - 1] != 0)
    && !d.sign.Plus?
    && (d.sign.Minus? ==> d.integer != [0] || d.fraction != [])
  }

  lemma {:induction false} LeadingGone(ds: Digits)
    requires ds != []
    ensures WithoutLeading(ds) != [] && (|WithoutLeading(ds)| > 1 ==> WithoutLeading(ds)[0] != 0)
  {
    if |ds| > 1 && ds[0] == 0 { LeadingGone(ds[1..]); }
  }

  lemma {:induction false} TrailingGone(ds: Digits)
    ensures WithoutTrailing(ds) != [] ==> WithoutTrailing(ds)[|WithoutTrailing(ds)| - 1] != 0
  {
    if ds != [] && ds[|ds| - 1] == 0 { TrailingGone(ds[..|ds| - 1]); }
  }

  lemma NormalizedIsCanonical(d: Decimal)
    requires Literal(d)
    ensures Canonical(Normalize(d))
  {
    LeadingGone(d.integer);
    TrailingGone(d.fraction);
  }

  /** Normal forms are left alone. */
  lemma CanonicalIsFixed(d: Decimal)
    requires Canonical(d)
    ensures Normalize(d) == d
  {}

  // -------------------------------------------------------- uniqueness

  lemma {:induction false} WholePositive(ds: Digits)
    requires ds != [] && ds[0] != 0
    ensures Whole(ds) >= 1
  {
    if |ds| == 1 { assert ds[..0] == []; } else { WholePositive(ds[..|ds| - 1]); }
  }

  /** Unpadded integers with the same value are the same digits. */
  lemma {:induction false} SameWhole(a: Digits, b: Digits)
    requires a != [] && (|a| > 1 ==> a[0] != 0) && b != [] && (|b| > 1 ==> b[0] != 0)
    requires Whole(a) == Whole(b)
    ensures a == b
  {
    var x, y := a[..|a| - 1], b[..|b| - 1];
    if |a| > 1 { WholePositive(x); }
    if |b| > 1 { WholePositive(y); }
    assert a == x + [a[|a| - 1]] && b == y + [b[|b| - 1]];
    assert 10 * Whole(x) + a[|a| - 1] == 10 * Whole(y) + b[|b| - 1];
    assert Whole(x) == Whole(y);
    if |a| > 1 && |b| > 1 { SameWhole(x, y); }
  }

  lemma {:induction false} PartPositive(ds: Digits)
    requires ds != [] && ds[|ds| - 1] != 0
    ensures Part(ds) > 0.0
  {
    if |ds| > 1 { PartPositive(ds[1..]); }
  }

  /** Unpadded fractions with the same value are the same digits. */
  lemma {:induction false} SamePart(a: Digits, b: Digits)
    requires (a != [] ==> a[|a| - 1] != 0) && (b != [] ==> b[|b| - 1] != 0)
    requires Part(a) == Part(b)
    ensures a == b
  {
    if a != [] { PartPositive(a); }
    if b != [] { PartPositive(b); }
    if a != [] && b != [] {
      assert a[0] as real + Part(a[1..]) == b[0] as real + Part(b[1..]);
      DigitsSplit(a[0], Part(a[1..]), b[0], Part(b[1..]));
      SamePart(a[1..], b[1..]);
      assert a == [a[0]] + a[1..] && b == [b[0]] + b[1..];
    }
  }

  /** An integer part and a proper fraction are determined by their sum. */
  lemma DigitsSplit(m: nat, x: real, n: nat, y: real)
    requires 0.0 <= x < 1.0 && 0.0 <= y < 1.0 && m as real + x == n as real + y
    ensures m == n && x == y
  {
    assert (m as real) - (n as real) < 1.0 && (n as real) - (m as real) < 1.0;
    assert (m - n) as real < 1.0 && (n - m) as real < 1.0;
  }

  lemma CanonicalUnique(a: Decimal, b: Decimal)
    requires Canonical(a) && Canonical(b) && Value(a) == Value(b)
    ensures a == b
  {
    NonzeroMagnitude(a);
    NonzeroMagnitude(b);
    DigitsSplit(Whole(a.integer), Part(a.fraction), Whole(b.integer), Part(b.fraction));
    SameWhole(a.integer, b.integer);
    SamePart(a.fraction, b.fraction);
  }

  /** A canonical decimal with a minus sign is below zero. */
  lemma NonzeroMagnitude(d: Decimal)
    requires Canonical(d)
    ensures Magnitude(d) >= 0.0 && (d.sign.Minus? ==> Magnitude(d) > 0.0)
  {
    if d.sign.Minus? {
      if d.fraction != [] {
        PartPositive(d.fraction);
      } else if |d.integer| > 1 || d.integer[0] != 0 {
        WholePositive(d.integer);
      }
    }
  }

  /** Two decimals get the same text exactly when they denote the same number; normalising twice changes nothing. */
  lemma DecimalsCanonical(a: Decimal, b: Decimal)
    requires Literal(a) && Literal(b)
    ensures Normalize(a) == Normalize(b) <==> Value(a) == Value(b)
    ensures Normalize(Normalize(a)) == Normalize(a)
  {
    ValueKept(a);
    ValueKept(b);
    NormalizedIsCanonical(a);
    NormalizedIsCanonical(b);
    CanonicalIsFixed(Normalize(a));
    if Value(a) == Value(b) { CanonicalUnique(Normalize(a), Normalize(b)); }
  }
}
