/**
Integer-valued JSON numbers: doubles that hold an integer are rewritten as integers
at every depth of a value, without changing any number.
*/
module Numbers {
  import opened Outcomes
  import opened Json

  const TWO_53: int := 0x20_0000_0000_0000
  const I64_MAX: int := 0x7fff_ffff_ffff_ffff
  const I64_MIN: int := -0x8000_0000_0000_0000
  const TWO_63: real := 9223372036854775808.0

  // ---------------------------------------------------------------------
  // Doubles
  // ---------------------------------------------------------------------

  function Pow2(k: nat): (p: nat)
    ensures p >= 1
  {
    if k == 0 then 1 else 2 * Pow2(k - 1)
  }

  /** x is m * 2^e or m / 2^e, with a 53-bit m. */
  ghost predicate Scaled(x: real, m: int, e: nat) {
    -TWO_53 < m < TWO_53 && (x == (m * Pow2(e)) as real || x * Pow2(e) as real == m as real)
  }

  /** Every finite double has this form; the exponent's range is not needed here. */
  ghost predicate IsDouble(x: real) {
    exists m: int, e: nat :: Scaled(x, m, e)
  }

  /** Rounding to 53 bits, to nearest, ties to even; `scale` is the spacing of the candidates. */
  function RoundHalfEven(n: nat, scale: nat): nat
    requires scale >= 1
  {
    var q, r := n / scale, n % scale;
    if 2 * r < scale || (2 * r == scale && q % 2 == 0) then q * scale else (q + 1) * scale
  }

  function RoundNat(n: nat, scale: nat): nat
    requires scale >= 1
    decreases if n < TWO_53 * scale then 0 else n - TWO_53 * scale + 1
  {
    if n < TWO_53 * scale then RoundHalfEven(n, scale) else RoundNat(n, 2 * scale)
  }

  /** The double nearest to an integer. */
  function IntToDouble(n: int): real {
    if n >= 0 then RoundNat(n, 1) as real else -(RoundNat(-n, 1) as real)
  }

  function Truncate(x: real): int {
    if x >= 0.0 then x.Floor else -(-x).Floor
  }

  /** The saturating conversion to a 64-bit integer. */
  function DoubleToI64(x: real): int {
    if x >= TWO_63 then I64_MAX
    else if x < I64_MIN as real then I64_MIN
    else Truncate(x)
  }

  // ---------------------------------------------------------------------
  // The rewrite
  // ---------------------------------------------------------------------

  function IntegerValued(number: Number): Option<Number> {
    match number
    case Integer(_) => None
    case Float(x) =>
      if x < IntToDouble(I64_MIN) || x > IntToDouble(I64_MAX) then None
      else
        var integer := DoubleToI64(x);
        if IntToDouble(integer) != x then None else Some(Integer(integer))
  }

  function Canonical(value: Json): Json {
    match value
    case Num(number) =>
      (match IntegerValued(number) case Some(canonical) => Num(canonical) case None => value)
    case Array(items) => Array(seq(|items|, i requires 0 <= i < |items| => Canonical(items[i])))
    case Object(fields) => Object(map name | name in fields :: Canonical(fields[name]))
    case _ => value
  }

  /** The walk itself, element by element. */
  method CanonicalizeIntegerValuedNumbers(value: Json) returns (r: Json)
    ensures r == Canonical(value)
    decreases value
  {
    match value {
      case Num(number) =>
        var canonical := IntegerValued(number);
        return if canonical.Some? then Num(canonical.value) else value;
      case Array(items) =>
        var done: seq<Json> := [];
        for i := 0 to |items|
          invariant |done| == i && forall j :: 0 <= j < i ==> done[j] == Canonical(items[j])
        {
          var item := CanonicalizeIntegerValuedNumbers(items[i]);
          done := done + [item];
        }
        assert done == Canonical(value).items;
        return Array(done);
      case Object(fields) =>
        var done: map<string, Json> := map[];
        var rest := fields.Keys;
        while rest != {}
          invariant rest <= fields.Keys && done.Keys == fields.Keys - rest
          invariant forall name :: name in done ==> done[name] == Canonical(fields[name])
          decreases |rest|
        {
          var name :| name in rest;
          var field := CanonicalizeIntegerValuedNumbers(fields[name]);
          done := done[name := field];
          rest := rest - {name};
        }
        assert done == Canonical(value).fields;
        return Object(done);
      case _ =>
        return value;
    }
  }

  // ---------------------------------------------------------------------
  // Conversions of doubles that hold integers are exact
  // ---------------------------------------------------------------------

  lemma MultipleIsKept(n: nat, q: nat, scale: nat)
    requires scale >= 1 && n == q * scale
    ensures RoundHalfEven(n, scale) == n
  {
    DivideMultiple(q, scale);
  }

  lemma DivideMultiple(q: nat, scale: nat)
    requires scale >= 1
    ensures (q * scale) / scale == q && (q * scale) % scale == 0
  {
    var n := q * scale;
    assert n == (n / scale) * scale + n % scale;
    assert (q - n / scale) * scale == n % scale;
    NoSmallMultiple(q - n / scale, scale);
  }

  lemma NoSmallMultiple(a: int, b: int)
    requires b >= 0
    ensures a >= 1 ==> a * b >= b
    ensures a <= -1 ==> a * b <= -b
  {
    if a >= 1 { assert (a - 1) * b >= 0; }
    if a <= -1 { assert (-a - 1) * b >= 0; }
  }

  lemma {:induction false} RoundExact(n: nat, m: nat, scale: nat, k: nat)
    requires scale >= 1 && m < TWO_53 && n == m * (scale * Pow2(k))
    ensures RoundNat(n, scale) == n
    decreases k
  {
    var p := Pow2(k);
    if n < TWO_53 * scale {
      assert n == (m * p) * scale;
      MultipleIsKept(n, m * p, scale);
    } else {
      if k == 0 {
        assert n == m * scale;
        LessProduct(m, TWO_53, scale);
        assert false;
      }
      assert scale * p == (2 * scale) * Pow2(k - 1);
      RoundExact(n, m, 2 * scale, k - 1);
    }
  }

  lemma LessProduct(a: nat, b: nat, c: nat)
    requires a < b && c >= 1
    ensures a * c < b * c
  {
  }

  lemma ShiftedIsExact(m: int, k: nat)
    requires -TWO_53 < m < TWO_53
    ensures IntToDouble(m * Pow2(k)) == (m * Pow2(k)) as real
  {
    var p := Pow2(k);
    if m >= 0 {
      RoundExact(m * p, m, 1, k);
    } else {
      assert -(m * p) == (-m) * p;
      RoundExact((-m) * p, -m, 1, k);
      NegativeProduct(-m, p);
    }
  }

  lemma NegativeProduct(a: nat, b: nat)
    requires a >= 1 && b >= 1
    ensures -(a * b) < 0
  {
  }

  lemma SmallIsExact(n: int)
    requires -TWO_53 < n < TWO_53
    ensures IntToDouble(n) == n as real
  {
    ShiftedIsExact(n, 0);
    assert Pow2(0) == 1 && n * 1 == n;
  }

  /** A double with a fraction lies within the 53-bit integers. */
  lemma FractionIsSmall(x: real, m: int, e: nat)
    requires -TWO_53 < m < TWO_53 && x * Pow2(e) as real == m as real
    ensures -TWO_53 as real < x < TWO_53 as real
  {
    var p := Pow2(e) as real;
    assert p >= 1.0;
    if x >= 0.0 { Stretch(x, p); } else { Stretch(-x, p); assert (-x) * p == -(x * p); }
  }

  lemma Stretch(x: real, p: real)
    requires x >= 0.0 && p >= 1.0
    ensures x * p >= x
  {
  }

  lemma WholeOrSmall(x: real)
    requires IsDouble(x)
    ensures (x == x.Floor as real && IntToDouble(x.Floor) == x) || -TWO_53 as real < x < TWO_53 as real
  {
    hide IntToDouble, Pow2;
    var m: int, e: nat :| Scaled(x, m, e);
    if x == (m * Pow2(e)) as real {
      ShiftedIsExact(m, e);
    } else {
      FractionIsSmall(x, m, e);
    }
  }

  lemma LimitsAsDoubles()
    ensures IntToDouble(I64_MIN) == I64_MIN as real
    ensures IntToDouble(I64_MAX) == TWO_63
  {
    assert Pow2(10) == 1024 by { assert Pow2(5) == 32; }
    ShiftedIsExact(-0x10_0000_0000_0000, 11);
    assert Pow2(11) == 2 * Pow2(10);
    assert -0x10_0000_0000_0000 * 2048 == I64_MIN;
    var n := I64_MAX;
    assert RoundNat(n, 1) == RoundNat(n, 2) == RoundNat(n, 4);
    assert RoundNat(n, 4) == RoundNat(n, 8) == RoundNat(n, 16);
    assert RoundNat(n, 16) == RoundNat(n, 32) == RoundNat(n, 64);
    assert RoundNat(n, 64) == RoundNat(n, 128) == RoundNat(n, 256);
    assert RoundNat(n, 256) == RoundNat(n, 512) == RoundNat(n, 1024);
    assert RoundNat(n, 1024) == RoundHalfEven(n, 1024);
  }

  lemma TruncatesWhole(x: real)
    ensures Truncate(x) as real == x ==> x.Floor as real == x
  {
    if Truncate(x) as real == x { assert x.Floor == Truncate(x); }
  }

  /**
  Below 2^63, exactly the doubles that hold an integer become that integer; outside
  the 64-bit range nothing changes; and 2^63 itself becomes 2^63 - 1.
  */
  lemma IntegerValuedExactly(x: real)
    requires IsDouble(x)
    ensures I64_MIN as real <= x < TWO_63 ==>
      IntegerValued(Float(x)) == if x.Floor as real == x then Some(Integer(x.Floor)) else None
    ensures x < I64_MIN as real || x > TWO_63 ==> IntegerValued(Float(x)) == None
    ensures x == TWO_63 ==> IntegerValued(Float(x)) == Some(Integer(I64_MAX))
  {
    hide IntToDouble, IsDouble;
    LimitsAsDoubles();
    WholeOrSmall(x);
    if I64_MIN as real <= x < TWO_63 {
      if x.Floor as real == x {
        assert Truncate(x) == x.Floor;
        if -TWO_53 as real < x < TWO_53 as real { SmallIsExact(x.Floor); }
      } else {
        assert -TWO_53 < Truncate(x) < TWO_53;
        SmallIsExact(Truncate(x));
        TruncatesWhole(x);
      }
    }
  }

  // ---------------------------------------------------------------------
  // Whole values
  // ---------------------------------------------------------------------

  /** Equal except for how equal numbers are held. */
  ghost predicate SameNumbers(a: Json, b: Json) {
    match a
    case Num(x) => b.Num? && NumericValue(x) == NumericValue(b.number)
    case Array(items) =>
      b.Array? && |items| == |b.items| && forall i :: 0 <= i < |items| ==> SameNumbers(items[i], b.items[i])
    case Object(fields) =>
      b.Object? && fields.Keys == b.fields.Keys && forall n :: n in fields ==> SameNumbers(fields[n], b.fields[n])
    case _ => a == b
  }

  /** A property of every number in a value. */
  ghost predicate EveryNumber(value: Json, p: Number -> bool) {
    match value
    case Num(number) => p(number)
    case Array(items) => forall i :: 0 <= i < |items| ==> EveryNumber(items[i], p)
    case Object(fields) => forall n :: n in fields ==> EveryNumber(fields[n], p)
    case _ => true
  }

  /** A number as parsed from JSON: an integer, or a double other than 2^63. */
  ghost predicate Ordinary(number: Number) {
    number.Float? ==> IsDouble(number.x) && number.x != TWO_63
  }

  ghost predicate NotWholeIn64Bits(number: Number) {
    number.Float? && I64_MIN as real <= number.x < TWO_63 ==> number.x.Floor as real != number.x
  }

  lemma IntegerValuedKeeps(number: Number)
    requires Ordinary(number)
    ensures var r := match IntegerValued(number) case Some(c) => c case None => number;
            NumericValue(r) == NumericValue(number) && NotWholeIn64Bits(r)
  {
    hide IntegerValued, IsDouble;
    if number.Float? { IntegerValuedExactly(number.x); }
    if number.Integer? { assert IntegerValued(number) == None by { IntegersStay(number); } }
  }

  lemma IntegersStay(number: Number)
    requires number.Integer?
    ensures IntegerValued(number) == None
  {
  }

  /**
  At every depth no number changes its value and no double that holds a 64-bit integer
  remains, when no number is the double 2^63.
  */
  lemma {:induction false} CanonicalKeepsNumbers(value: Json)
    requires EveryNumber(value, Ordinary)
    ensures SameNumbers(value, Canonical(value))
    ensures EveryNumber(Canonical(value), NotWholeIn64Bits)
  {
    hide IntegerValued, IsDouble, Ordinary, NotWholeIn64Bits;
    match value
    case Num(number) => IntegerValuedKeeps(number);
    case Array(items) =>
      forall i | 0 <= i < |items|
        ensures SameNumbers(items[i], Canonical(value).items[i])
        ensures EveryNumber(Canonical(value).items[i], NotWholeIn64Bits)
      {
        CanonicalKeepsNumbers(items[i]);
      }
    case Object(fields) =>
      forall n | n in fields
        ensures SameNumbers(fields[n], Canonical(value).fields[n])
        ensures EveryNumber(Canonical(value).fields[n], NotWholeIn64Bits)
      {
        CanonicalKeepsNumbers(fields[n]);
      }
    case _ =>
  }

  ghost predicate FiniteDouble(number: Number) {
    number.Float? ==> IsDouble(number.x)
  }

  ghost predicate NotTheException(number: Number) {
    number.Float? ==> number.x != TWO_63
  }

  /** The values are kept exactly when no number, at any depth, is the double 2^63. */
  lemma {:induction false} CanonicalKeepsNumbersIff(value: Json)
    requires EveryNumber(value, FiniteDouble)
    ensures SameNumbers(value, Canonical(value)) <==> EveryNumber(value, NotTheException)
  {
    hide IntegerValued, IsDouble;
    match value
    case Num(number) =>
      if number.Float? { IntegerValuedExactly(number.x); } else { IntegersStay(number); }
    case Array(items) =>
      forall i | 0 <= i < |items|
        ensures SameNumbers(items[i], Canonical(value).items[i]) <==> EveryNumber(items[i], NotTheException)
      {
        CanonicalKeepsNumbersIff(items[i]);
      }
    case Object(fields) =>
      forall n | n in fields
        ensures SameNumbers(fields[n], Canonical(value).fields[n]) <==> EveryNumber(fields[n], NotTheException)
      {
        CanonicalKeepsNumbersIff(fields[n]);
      }
    case _ =>
  }

  /** Canonicalising again changes nothing, whatever the numbers are. */
  lemma {:induction false} CanonicalIsIdempotent(value: Json)
    ensures Canonical(Canonical(value)) == Canonical(value)
  {
    hide IntToDouble, DoubleToI64;
    match value
    case Num(number) =>
    case Array(items) =>
      forall i | 0 <= i < |items|
        ensures Canonical(Canonical(value).items[i]) == Canonical(value).items[i]
      {
        CanonicalIsIdempotent(items[i]);
      }
      assert Canonical(Canonical(value)).items == Canonical(value).items;
    case Object(fields) =>
      forall n | n in fields
        ensures Canonical(Canonical(value).fields[n]) == Canonical(value).fields[n]
      {
        CanonicalIsIdempotent(fields[n]);
      }
      assert Canonical(Canonical(value)).fields == Canonical(value).fields;
    case _ =>
  }

  /** The double 2^63 is the one number whose value changes. */
  lemma LargestExceptionChanges()
    ensures IsDouble(TWO_63)
    ensures Canonical(Num(Float(TWO_63))) == Num(Integer(I64_MAX))
    ensures !SameNumbers(Num(Float(TWO_63)), Canonical(Num(Float(TWO_63))))
  {
    assert Pow2(10) == 1024 by { assert Pow2(5) == 32; }
    assert Pow2(11) == 2 * Pow2(10);
    assert Scaled(TWO_63, 0x10_0000_0000_0000, 11);
    IntegerValuedExactly(TWO_63);
  }
}
