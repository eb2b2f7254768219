/** Fixed-width arithmetic as the chain performs it: `uint64` values are naturals up to
    `MAX_U64`, and every wrap-around, saturation or truncation is written out. */
module Numbers {

  const TWO64: nat := 0x1_0000_0000_0000_0000
  const MAX_U64: nat := 0xFFFF_FFFF_FFFF_FFFF
  const TOKEN_UNIT: nat := 100_000_000
  const DAY_SECONDS: int := 86400

  type Addr = string

  datatype Option<+T> = None | Some(value: T)

  function Min(a: nat, b: nat): nat { if a <= b then a else b }

  /** Subtraction clamped at zero. */
  function Sub(a: nat, b: nat): nat { if b <= a then a - b else 0 }

  /** `saturatingAdd`: addition that sticks at the largest uint64. */
  function SatAdd(a: nat, b: nat): (r: nat)
    ensures r <= a + b
    ensures a + b <= MAX_U64 ==> r == a + b
    ensures a <= MAX_U64 ==> a <= r <= MAX_U64
  {
    if a + b > MAX_U64 then MAX_U64 else a + b
  }

  /** Go's `a * b` on uint64. */
  function WrapMul(a: nat, b: nat): (r: nat)
    ensures r <= a * b
    ensures a * b < TWO64 ==> r == a * b
  {
    assert a * b >= 0;
    WrapIsBelow(a * b);
    (a * b) % TWO64
  }

  /** Go's `a + b` on uint64. */
  function WrapAdd(a: nat, b: nat): (r: nat)
    ensures r <= a + b
    ensures a + b < TWO64 ==> r == a + b
  {
    WrapIsBelow(a + b);
    (a + b) % TWO64
  }

  lemma WrapIsBelow(x: nat)
    ensures x % TWO64 <= x
  {
    if x < TWO64 { assert x % TWO64 == x; }
  }

  /** `mulDivUint64` with its third factor fixed at one: exact product, floor division, capped. */
  function MulDiv(a: nat, b: nat, den: nat): (r: nat)
    ensures den == 0 ==> r == 0
    ensures den > 0 ==> r <= a * b / den && r <= MAX_U64
    ensures den > 0 && b <= den && a <= MAX_U64 ==> r == a * b / den && r <= a
  {
    if den == 0 then 0
    else
      assert a * b >= 0;
      if b <= den && a <= MAX_U64 then
        DivBound(a, b, den);
        a * b / den
      else Min(a * b / den, MAX_U64)
  }

  /** A share of `a` in the proportion `b` to `den` never exceeds `a` while `b <= den`. */
  lemma DivBound(a: nat, b: nat, den: nat)
    requires 0 < den && b <= den
    ensures 0 <= a * b / den <= a
  {
    MulMono(a, b, den);
    FloorBelow(a * b, den, a);
  }

  lemma MulMono(a: nat, b: int, c: int)
    requires b <= c
    ensures a * b <= a * c
  {
    assert a * (c - b) >= 0;
  }

  /** Floor division from above: `x <= q * d` gives `x / d <= q`. */
  lemma FloorBelow(x: nat, d: nat, q: nat)
    requires 0 < d && x <= q * d
    ensures 0 <= x / d <= q
  {
    var f := x / d;
    assert x == d * f + x % d;
    if f >= q + 1 {
      MulMono(d, q + 1, f);
    }
  }

  /** Floor division from below: `q * d <= x` gives `q <= x / d`. */
  lemma FloorAbove(x: nat, d: nat, q: nat)
    requires 0 < d && q * d <= x
    ensures q <= x / d
  {
    var f := x / d;
    assert x == d * f + x % d;
    if f + 1 <= q {
      MulMono(d, f + 1, q);
    }
  }

  lemma DivisionLaw(x: nat, d: nat)
    requires 0 < d
    ensures x == x / d * d + x % d && 0 <= x / d && 0 <= x % d < d
  {
    assert x == d * (x / d) + x % d;
  }

  /** The quotient is the number whose multiple and the next one's enclose the dividend. */
  lemma QuotientIs(x: nat, d: nat, q: nat)
    requires 0 < d && d * q <= x < d * (q + 1)
    ensures x / d == q
  {
    FloorAbove(x, d, q);
    DivisionLaw(x, d);
    if x / d >= q + 1 { MulMono(d, q + 1, x / d); }
  }

  lemma QuotientZero(x: nat, d: nat)
    requires 0 < d
    ensures x / d == 0 <==> x < d
  {
    if x >= d { FloorAbove(x, d, 1); }
  }

  lemma DivMono(x: nat, y: nat, d: nat)
    requires 0 < d && x <= y
    ensures x / d <= y / d
  {
    var q := x / d;
    assert x == d * q + x % d;
    FloorAbove(y, d, q);
  }

  // ---------------------------------------------------------------- strings

  /** Byte-wise string order. */
  predicate Lex(s: string, t: string) {
    t != [] && (s == [] || s[0] < t[0] || (s[0] == t[0] && Lex(s[1..], t[1..])))
  }

  /** The first byte in which two strings differ decides, and a proper prefix comes first. */
  lemma {:induction false} FirstDifferenceDecides(s: string, t: string, k: nat)
    requires k <= |s| && k < |t| && s[..k] == t[..k] && (k < |s| ==> s[k] < t[k])
    ensures Lex(s, t)
  {
    if k > 0 {
      assert s[0] == s[..k][0] == t[..k][0] == t[0];
      assert s[1..][..k - 1] == s[..k][1..] && t[1..][..k - 1] == t[..k][1..];
      FirstDifferenceDecides(s[1..], t[1..], k - 1);
    }
  }

  lemma {:induction false} LexTotal(s: string, t: string)
    ensures s == t || Lex(s, t) || Lex(t, s)
    ensures !(Lex(s, t) && Lex(t, s)) && !Lex(s, s)
  {
    if s != [] && t != [] {
      LexTotal(s[1..], t[1..]);
      assert s == [s[0]] + s[1..] && t == [t[0]] + t[1..];
    }
    if s != [] { LexTotal(s[1..], s[1..]); }
  }

  lemma {:induction false} LexTransitive(s: string, t: string, u: string)
    requires Lex(s, t) && Lex(t, u)
    ensures Lex(s, u)
  {
    if s != [] && s[0] == t[0] == u[0] { LexTransitive(s[1..], t[1..], u[1..]); }
  }
}
