/** Decimal parsing of an unsigned 64-bit integer, as Rust's `str::parse::<u64>`
    does it (the standard library's `from_str_radix` with radix 10). `as_long`
    in src/rpser/xml.rs relies on it, so its accepted language and its error
    kinds are part of what `as_long` returns. */
module IntParse {
  import opened Wrappers

  const U64_LIMIT: int := 0x1_0000_0000_0000_0000

  /** The values of Rust's `u64`. */
  type U64 = x: int | 0 <= x < U64_LIMIT

  /** The kinds of `std::num::ParseIntError` that parsing a `u64` can produce. */
  datatype IntErrorKind = Empty | InvalidDigit | Overflow

  predicate IsDigit(c: char) { '0' <= c <= '9' }

  predicate AllDigits(ds: string) {
    forall i :: 0 <= i < |ds| ==> IsDigit(ds[i])
  }

  function DigitValue(c: char): (d: nat)
    requires IsDigit(c)
    ensures d < 10
  {
    c as int - '0' as int
  }

  function DigitChar(d: nat): (c: char)
    requires d < 10
    ensures IsDigit(c) && DigitValue(c) == d
  {
    ('0' as int + d) as char
  }

  /** The digits left after the one optional leading `+` (a `-` is never
      accepted for an unsigned type and counts as an invalid digit). */
  function Unsigned(s: string): string {
    if |s| > 0 && s[0] == '+' then s[1..] else s
  }

  /** The value of a digit string read left to right, starting from `acc`,
      with no bound: the reference against which parsing is stated. */
  function Fold(acc: nat, ds: string): nat
    requires AllDigits(ds)
    decreases |ds|
  {
    if ds == [] then acc else Fold(acc * 10 + DigitValue(ds[0]), ds[1..])
  }

  /** The standard library's digit loop: multiply by ten and add the digit,
      both checked, stopping at the first non-digit or the first overflow. */
  function Accumulate(acc: U64, ds: string): (r: Result<U64, IntErrorKind>)
    ensures r != Err(Empty)
    decreases |ds|
  {
    if ds == [] then Ok(acc)
    else if !IsDigit(ds[0]) then Err(InvalidDigit)
    else if acc * 10 + DigitValue(ds[0]) >= U64_LIMIT then Err(Overflow)
    else Accumulate(acc * 10 + DigitValue(ds[0]), ds[1..])
  }

  /** `s.parse::<u64>()`: the empty string and a lone `+` are `Empty`,
      everything else goes through the digit loop. */
  function ParseU64(s: string): (r: Result<U64, IntErrorKind>)
    ensures s == [] ==> r == Err(Empty)
  {
    if s == [] then Err(Empty)
    else if Unsigned(s) == [] then Err(Empty)
    else Accumulate(0, Unsigned(s))
  }

  /** The canonical decimal rendering of a natural number. */
  function Decimal(n: nat): (r: string)
    ensures |r| > 0 && AllDigits(r)
  {
    if n < 10 then [DigitChar(n)] else Decimal(n / 10) + [DigitChar(n % 10)]
  }

  lemma {:induction false} FoldGrows(acc: nat, ds: string)
    requires AllDigits(ds)
    ensures Fold(acc, ds) >= acc
    ensures ds != [] ==> Fold(acc, ds) >= acc * 10 + DigitValue(ds[0])
    decreases |ds|
  {
    if ds != [] {
      FoldGrows(acc * 10 + DigitValue(ds[0]), ds[1..]);
    }
  }

  /** On a digit string the loop computes the unbounded value, or reports
      `Overflow` exactly when that value does not fit in 64 bits. */
  lemma {:induction false} AccumulateMeaning(acc: U64, ds: string)
    requires AllDigits(ds)
    ensures Accumulate(acc, ds) ==
      if Fold(acc, ds) < U64_LIMIT then Ok(Fold(acc, ds) as U64) else Err(Overflow)
    decreases |ds|
  {
    if ds != [] {
      var next := acc * 10 + DigitValue(ds[0]);
      if next >= U64_LIMIT {
        FoldGrows(acc, ds);
      } else {
        AccumulateMeaning(next, ds[1..]);
      }
    }
  }

  /** A string holding a non-digit never parses. */
  lemma {:induction false} AccumulateRejects(acc: U64, ds: string)
    requires !AllDigits(ds)
    ensures Accumulate(acc, ds).Err?
    decreases |ds|
  {
    if IsDigit(ds[0]) && acc * 10 + DigitValue(ds[0]) < U64_LIMIT {
      assert !AllDigits(ds[1..]) by {
        var i :| 0 <= i < |ds| && !IsDigit(ds[i]);
        assert i > 0 && !IsDigit(ds[1..][i - 1]);
      }
      AccumulateRejects(acc * 10 + DigitValue(ds[0]), ds[1..]);
    }
  }

  /** The language `parse::<u64>` accepts: an optional `+`, then one or more
      ASCII digits whose value is below 2^64; the result is that value. */
  lemma ParseU64Meaning(s: string)
    ensures ParseU64(s).Ok? <==>
      Unsigned(s) != [] && AllDigits(Unsigned(s)) && Fold(0, Unsigned(s)) < U64_LIMIT
    ensures ParseU64(s).Ok? ==> ParseU64(s).value == Fold(0, Unsigned(s))
    ensures ParseU64(s) == Err(Empty) <==> Unsigned(s) == []
  {
    var ds := Unsigned(s);
    if ds != [] {
      if AllDigits(ds) {
        AccumulateMeaning(0, ds);
      } else {
        AccumulateRejects(0, ds);
      }
    }
  }

  lemma {:induction false} FoldSnoc(acc: nat, xs: string, c: char)
    requires AllDigits(xs) && IsDigit(c)
    ensures AllDigits(xs + [c])
    ensures Fold(acc, xs + [c]) == Fold(acc, xs) * 10 + DigitValue(c)
    decreases |xs|
  {
    if xs == [] {
      assert xs + [c] == [c];
    } else {
      assert (xs + [c])[1..] == xs[1..] + [c];
      FoldSnoc(acc * 10 + DigitValue(xs[0]), xs[1..], c);
    }
  }

  lemma {:induction false} DecimalValue(n: nat)
    ensures Fold(0, Decimal(n)) == n
  {
    if n >= 10 {
      DecimalValue(n / 10);
      FoldSnoc(0, Decimal(n / 10), DigitChar(n % 10));
    }
  }

  /** Round trip: the decimal text of any `u64` parses back to it. */
  lemma ParseDecimal(n: U64)
    ensures ParseU64(Decimal(n)) == Ok(n)
  {
    var d := Decimal(n);
    DecimalValue(n);
    assert Unsigned(d) == d;
    ParseU64Meaning(d);
  }
}
