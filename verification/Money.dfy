/**
  Exact money (internal/installplan/cost.go): decimal prices as integer micro-units, exact line amounts and
  subtotals, one half-up rounding at the end, and the ratio of the two subtotals.
*/
module Money {
  import opened Base
  import opened Decimal

  // ---------------------------------------------------------------- text and micro-units

  function IndexOf(s: string, c: char): (i: nat)
    ensures i <= |s| && c !in s[..i] && (i < |s| ==> s[i] == c)
  {
    if s == [] || s[0] == c then 0 else
      var i := 1 + IndexOf(s[1..], c);
      assert s[..i] == [s[0]] + s[1..][..i - 1];
      i
  }

  /** The parts of a decimal around its first point. */
  function Whole(s: string): string { s[..IndexOf(s, '.')] }

  function Fraction(s: string): string { if IndexOf(s, '.') == |s| then "" else s[IndexOf(s, '.') + 1..] }

  /** What the parser is given: raw prices after their check, and exact six-place totals. */
  predicate Decimal6(s: string) {
    Whole(s) != "" && Digits(Whole(s)) && Digits(Fraction(s)) && |Fraction(s)| <= 6
  }

  function Micro(s: string): nat
    requires Decimal6(s)
  {
    Value(Whole(s) + Fraction(s) + Zeros(6 - |Fraction(s)|))
  }

  /** At least one digit before the last `places`. */
  function Padded(n: nat, places: nat): string {
    var s := Text(n);
    if |s| <= places then Zeros(places - |s| + 1) + s else s
  }

  function Fixed(n: nat, places: nat): string {
    if places == 0 then Text(n)
    else
      var t := Padded(n, places);
      t[..|t| - places] + "." + t[|t| - places..]
  }

  /** Division with truncation, then one up when twice the remainder reaches the divisor. */
  function RoundQuotient(n: nat, d: nat): nat
    requires d > 0
  {
    var q, r := n / d, n % d;
    if 2 * r >= d then q + 1 else q
  }

  /** Micro-units are the decimal value times a million, for every accepted spelling. */
  lemma MicroIsValue(s: string)
    requires Decimal6(s)
    ensures Micro(s) == Value(Whole(s)) * Pow10(6) + Value(Fraction(s)) * Pow10(6 - |Fraction(s)|)
  {
    hide Value, Pow10, Zeros, Whole, Fraction, Digits;
    var w, f := Whole(s), Fraction(s);
    ValueConcat(w, f);
    ValueConcat(w + f, Zeros(6 - |f|));
    ValueOfZeros(6 - |f|);
    PowSum(|f|, 6 - |f|);
    Distribute(Value(w), Pow10(|f|), Value(f), Pow10(6 - |f|));
  }

  lemma Distribute(a: int, b: int, c: int, d: int)
    ensures (a * b + c) * d == a * (b * d) + c * d
  {
  }

  lemma {:induction false} PowSum(a: nat, b: nat)
    ensures Pow10(a + b) == Pow10(a) * Pow10(b)
    decreases b
  {
    if b > 0 {
      PowSum(a, b - 1);
      assert Pow10(a) * Pow10(b) == 10 * (Pow10(a) * Pow10(b - 1)) by {
        assert Pow10(b) == 10 * Pow10(b - 1);
      }
    }
  }

  /** The fixed text has exactly the requested places, no spare leading zero, and the value it was given. */
  lemma FixedShape(n: nat, places: nat)
    ensures var t := Fixed(n, places);
            && Digits(Whole(t)) && Digits(Fraction(t)) && Whole(t) != "" && |Fraction(t)| == places
            && (Whole(t) == "0" || Whole(t)[0] != '0')
            && Value(Whole(t)) * Pow10(places) + Value(Fraction(t)) == n
            && ('.' in t <==> places > 0)
  {
    hide Text, Value, Pow10, Padded, IndexOf, Whole, Fraction;
    if places == 0 {
      ValueOfText(n);
      NoLeadingZero(n);
      NoPoint(Text(n));
      assert Pow10(0) == 1 && Value("") == 0 by {
        Units0();
      }
    } else {
      PaddedShape(n, places);
      var t := Padded(n, places);
      var w, f := t[..|t| - places], t[|t| - places..];
      assert w + f == t;
      ValueConcat(w, f);
      NoPoint(w);
      PointAt(w, f);
    }
  }

  lemma Units0()
    ensures Pow10(0) == 1 && Value("") == 0
  {
  }

  lemma PaddedShape(n: nat, places: nat)
    ensures var t := Padded(n, places);
            |t| > places && Digits(t) && Value(t) == n && (t[..|t| - places] == "0" || t[0] != '0')
  {
    hide Value, Pow10;
    var s := Text(n);
    ValueOfText(n);
    NoLeadingZero(n);
    if |s| <= places {
      var z := Zeros(places - |s| + 1);
      ValueConcat(z, s);
      ValueOfZeros(|z|);
      FirstZero(|z|);
      assert (z + s)[..1] == "0";
    } else if s == "0" {
      assert s[..1] == "0";
    }
  }

  lemma {:induction false} FirstZero(k: nat)
    requires k > 0
    ensures Zeros(k)[0] == '0'
  {
    if k > 1 {
      FirstZero(k - 1);
    }
  }

  lemma NoPoint(s: string)
    requires Digits(s)
    ensures '.' !in s && IndexOf(s, '.') == |s| && Whole(s) == s && Fraction(s) == ""
  {
  }

  lemma PointAt(w: string, f: string)
    requires '.' !in w
    ensures Whole(w + "." + f) == w && Fraction(w + "." + f) == f && '.' in w + "." + f
  {
    hide IndexOf;
    var s := w + "." + f;
    var i := IndexOf(s, '.');
    assert s[|w|] == '.' && s[..|w|] == w;
    assert i == |w|;
    assert s[|w| + 1..] == f;
  }

  /** Printing a total and reading it back is the identity. */
  lemma MicroFixed(n: nat)
    ensures Decimal6(Fixed(n, 6)) && Micro(Fixed(n, 6)) == n
  {
    hide Value, Pow10, Whole, Fraction, Digits, Fixed, Micro;
    FixedShape(n, 6);
    MicroIsValue(Fixed(n, 6));
    assert Pow10(0) == 1 by {
      Units0();
    }
  }

  /** The only integer within half a unit of n/d, ties going up. */
  lemma RoundsHalfUp(n: nat, d: nat, q: int)
    requires d > 0
    ensures q == RoundQuotient(n, d) <==> 2 * (q * d) - d <= 2 * n < 2 * (q * d) + d
  {
    var k, r := n / d, n % d;
    var e := q - k;
    assert n == k * d + r;
    Shift(k, e, d);
  }

  lemma Shift(k: int, e: int, d: int)
    requires d > 0
    ensures (k + e) * d == k * d + e * d
    ensures e >= 2 ==> e * d >= 2 * d
    ensures e <= -1 ==> e * d <= -d
  {
  }

  // ---------------------------------------------------------------- the estimate

  /** A price: no leading zeros, at most nine whole and one to six fractional digits. */
  predicate Price(s: string) {
    && Digits(Whole(s)) && (Whole(s) == "0" || (1 <= |Whole(s)| <= 9 && Whole(s)[0] != '0'))
    && ('.' in s ==> Digits(Fraction(s)) && 1 <= |Fraction(s)| <= 6)
  }

  /** `headerValid` stands for the date, provider, region, currency and schema checks. */
  datatype Input = Input(
    headerValid: bool, fractionDigits: int, monthlyHours: int, standardHourly: string, highHourly: string,
    volumeMonthly: string, highVolume: int, egress: int)

  predicate Accepted(i: Input) {
    && i.headerValid && 0 <= i.fractionDigits <= 4 && 1 <= i.monthlyHours <= 744 && 1 <= i.highVolume <= 65536
    && 0 <= i.egress <= 1000000000 && Price(i.standardHourly) && Price(i.highHourly) && Price(i.volumeMonthly)
  }

  datatype Profile = Profile(compute: string, volume: string, exact: string, rounded: string)

  datatype Report = Report(standard: Profile, high: Profile, ratio: Option<string>)

  lemma PriceIsDecimal(s: string)
    requires Price(s)
    ensures Decimal6(s)
  {
  }

  function ComputeAmount(hosts: nat, hourly: string, i: Input): nat
    requires Accepted(i) && Price(hourly)
  {
    PriceIsDecimal(hourly);
    Micro(hourly) * (hosts * i.monthlyHours)
  }

  function VolumeAmount(hosts: nat, volume: nat, i: Input): nat
    requires Accepted(i)
  {
    PriceIsDecimal(i.volumeMonthly);
    Micro(i.volumeMonthly) * (hosts * volume)
  }

  /** A six-place amount, as printed on the report. */
  function Exact(n: nat): (t: string)
    ensures Decimal6(t) && Micro(t) == n
  {
    MicroFixed(n);
    Fixed(n, 6)
  }

  function CostProfile(hosts: nat, volume: nat, hourly: string, i: Input): Profile
    requires Accepted(i) && Price(hourly)
  {
    var compute, storage := ComputeAmount(hosts, hourly, i), VolumeAmount(hosts, volume, i);
    var total := compute + storage;
    Profile(Exact(compute), Exact(storage), Exact(total),
            Fixed(RoundQuotient(total, Pow10(6 - i.fractionDigits)), i.fractionDigits))
  }

  function Estimate(i: Input): Option<Report> {
    if !Accepted(i) then None
    else
      var s, h := CostProfile(1, 50, i.standardHourly, i), CostProfile(3, i.highVolume, i.highHourly, i);
      var den, num := Micro(s.exact), Micro(h.exact);
      Some(Report(s, h, if den == 0 then None else Some(Fixed(RoundQuotient(num * 10000, den), 4))))
  }

  /** What a text with `places` places is worth, in units of its last place. */
  function Units(t: string): nat
    requires Digits(Whole(t)) && Digits(Fraction(t))
  {
    Value(Whole(t)) * Pow10(|Fraction(t)|) + Value(Fraction(t))
  }

  /**
    The printed lines add up exactly to the printed subtotal, and the rounded subtotal is the one display amount
    within half a display unit of it, ties up.
  */
  lemma ProfileIsExact(hosts: nat, volume: nat, hourly: string, i: Input)
    requires Accepted(i) && Price(hourly)
    ensures var p := CostProfile(hosts, volume, hourly, i); var unit := Pow10(6 - i.fractionDigits);
            && Decimal6(p.compute) && Decimal6(p.volume) && Decimal6(p.exact) && Digits(Whole(p.rounded))
            && Digits(Fraction(p.rounded))
            && Micro(p.compute) + Micro(p.volume) == Micro(p.exact)
            && |Fraction(p.rounded)| == i.fractionDigits
            && (forall q: int :: q == Units(p.rounded) <==>
                2 * (q * unit) - unit <= 2 * Micro(p.exact) < 2 * (q * unit) + unit)
  {
    hide Micro, Fixed, RoundQuotient, Value, Pow10, Whole, Fraction, Price, ComputeAmount, VolumeAmount, Digits;
    var compute, storage := ComputeAmount(hosts, hourly, i), VolumeAmount(hosts, volume, i);
    var unit := Pow10(6 - i.fractionDigits);
    FixedShape(RoundQuotient(compute + storage, unit), i.fractionDigits);
    forall q: int
      ensures q == RoundQuotient(compute + storage, unit) <==>
          2 * (q * unit) - unit <= 2 * (compute + storage) < 2 * (q * unit) + unit
    {
      RoundsHalfUp(compute + storage, unit, q);
    }
  }

  /**
    Every accepted input is estimated. The ratio is missing exactly when both standard prices are zero, and
    otherwise is the half-up quotient of the exact subtotals to four places.
  */
  lemma RatioTheorem(i: Input)
    ensures Estimate(i).Some? <==> Accepted(i)
    ensures Accepted(i) ==>
              var r := Estimate(i).value;
              && Decimal6(r.standard.exact) && Decimal6(r.high.exact) && Decimal6(i.standardHourly)
              && Decimal6(i.volumeMonthly)
              && (r.ratio.None? <==> Micro(i.standardHourly) == 0 && Micro(i.volumeMonthly) == 0)
              && (r.ratio.Some? ==>
                    var den, num := Micro(r.standard.exact), Micro(r.high.exact);
                    && Digits(Whole(r.ratio.value)) && Digits(Fraction(r.ratio.value)) && |Fraction(r.ratio.value)| == 4
                    && (var q := Units(r.ratio.value) * den; 2 * q - den <= 2 * (num * 10000) < 2 * q + den))
  {
    hide Micro, Fixed, RoundQuotient, Value, Whole, Fraction, Price, Digits;
    if Accepted(i) {
      PriceIsDecimal(i.standardHourly);
      PriceIsDecimal(i.volumeMonthly);
      var compute, storage := ComputeAmount(1, i.standardHourly, i), VolumeAmount(1, 50, i);
      var den, num := compute + storage, ComputeAmount(3, i.highHourly, i) + VolumeAmount(3, i.highVolume, i);
      ZeroProduct(Micro(i.standardHourly), 1 * i.monthlyHours);
      ZeroProduct(Micro(i.volumeMonthly), 50);
      if den > 0 {
        FixedShape(RoundQuotient(num * 10000, den), 4);
        RoundsHalfUp(num * 10000, den, RoundQuotient(num * 10000, den));
      }
    }
  }

  /**
    Each printed line is what its unit price comes to: one standard machine for a month and 50 GiB against three
    machines and as many larger disks, every amount exact to the sixth place.
  */
  lemma LinesArePrices(i: Input)
    requires Accepted(i)
    ensures
      var r := Estimate(i).value;
      && Decimal6(r.standard.compute) && Decimal6(r.standard.volume) && Decimal6(r.high.compute)
      && Decimal6(r.high.volume)
      && Decimal6(i.standardHourly) && Decimal6(i.highHourly) && Decimal6(i.volumeMonthly)
      && Micro(r.standard.compute) == i.monthlyHours * Micro(i.standardHourly)
      && Micro(r.standard.volume) == 50 * Micro(i.volumeMonthly)
      && Micro(r.high.compute) == 3 * i.monthlyHours * Micro(i.highHourly)
      && Micro(r.high.volume) == 3 * i.highVolume * Micro(i.volumeMonthly)
  {
    hide Micro, Fixed, RoundQuotient, Value, Whole, Fraction, Price, Digits;
    PriceIsDecimal(i.standardHourly);
    PriceIsDecimal(i.highHourly);
    PriceIsDecimal(i.volumeMonthly);
  }

  lemma ZeroProduct(a: nat, b: nat)
    requires b > 0
    ensures a * b == 0 <==> a == 0
  {
    assert a > 0 ==> a * b >= b;
  }
}
