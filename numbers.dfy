/** Byte amounts with a decimal unit (Extensions/NumberExtension.swift).
    `byteWithUnitString` divides the amount by exactly 1000, as a `Decimal`,
    until it is below 1000 or the units B, KB, MB and GB are used up, and
    then shows it with the unit reached, TB past GB. The number formatting
    itself (`NumberFormatter`) is an input `digits` that turns the scaled
    amount into text; the grouped digits of `groupString` are an input
    `group` in the same way. Amounts are `UInt64` values in the source; the
    model takes any natural number. */
module ByteUnits {

  const Kilo: nat := 1000

  /** `units`, tried in order. */
  const Units: seq<string> := ["B", "KB", "MB", "GB"]

  /** `lastUnit`, used once every unit of `Units` has been passed. */
  const LastUnit: string := "TB"

  /** 1000 to the power `k`. */
  function Scale(k: nat): (p: nat)
    ensures p >= 1
    ensures k > 0 ==> p >= Kilo
  {
    if k == 0 then 1 else Kilo * Scale(k - 1)
  }

  /** The unit of index `k`: one of `Units`, or `LastUnit` past them. */
  function UnitName(k: nat): string {
    if k < |Units| then Units[k] else LastUnit
  }

  /** The index of the unit the loop stops at, when it reaches index `k`:
      the first index from `k` on whose scaled amount is below 1000, or the
      index of `LastUnit`. */
  function UnitIndexFrom(n: nat, k: nat): (i: nat)
    requires k <= |Units|
    ensures k <= i <= |Units|
    decreases |Units| - k
  {
    if k == |Units| || n < Scale(k + 1) then k else UnitIndexFrom(n, k + 1)
  }

  /** The index of the unit `n` bytes are shown with. */
  function UnitIndex(n: nat): nat {
    UnitIndexFrom(n, 0)
  }

  /** The scaled amount shown for `n` bytes. */
  function ScaledAmount(n: nat): real {
    n as real / Scale(UnitIndex(n)) as real
  }

  /** `UInt64.byteWithUnitString()`. */
  function ByteWithUnitString(n: nat, digits: real -> string): (s: string)
    ensures n < Kilo ==> s == digits(n as real) + "B"
    ensures n >= Scale(|Units|) ==> s == digits(n as real / Scale(4) as real) + LastUnit
  {
    if n < Kilo then BelowKiloUnscaled(n); digits(ScaledAmount(n)) + UnitName(UnitIndex(n))
    else if n >= Scale(|Units|) then TeraForLargeAmounts(n); digits(ScaledAmount(n)) + UnitName(UnitIndex(n))
    else digits(ScaledAmount(n)) + UnitName(UnitIndex(n))
  }

  /** `Int.byteWithUnitString()`: the conversion `UInt64(self)` traps on a
      negative value, so only non-negative values can be shown. */
  function IntByteWithUnitString(n: int, digits: real -> string): (s: string)
    requires n >= 0
    ensures n < Kilo ==> s == digits(n as real) + "B"
  {
    ByteWithUnitString(n, digits)
  }

  /** `byteDetailString()`: the amount with its unit, then the exact count of
      bytes in parentheses. */
  function ByteDetailString(n: nat, digits: real -> string, group: nat -> string): (s: string)
    ensures |s| == |ByteWithUnitString(n, digits)| + |group(n)| + 9
    ensures s[..|ByteWithUnitString(n, digits)|] == ByteWithUnitString(n, digits)
    ensures s[|ByteWithUnitString(n, digits)|..|ByteWithUnitString(n, digits)| + 2] == " ("
    ensures s[|ByteWithUnitString(n, digits)| + 2..|s| - 7] == group(n)
    ensures s[|s| - 7..] == " bytes)"
  {
    var u := ByteWithUnitString(n, digits);
    var t := u + " (" + group(n) + " bytes)";
    assert t[..|u|] == u;
    assert t[|u|..|u| + 2] == " (";
    assert t[|u| + 2..|t| - 7] == group(n);
    assert t[|t| - 7..] == " bytes)";
    t
  }

  // ---------------------------------------------------------------------------
  // The unit chosen

  /** The unit index is the least index `k` up to that of GB whose scaled
      amount `n / 1000^k` is below 1000, or the index of TB when there is none. */
  lemma UnitIndexIsLeast(n: nat)
    ensures UnitIndex(n) <= |Units|
    ensures forall j :: 0 <= j < UnitIndex(n) ==> n as real / Scale(j) as real >= Kilo as real
    ensures UnitIndex(n) < |Units| ==> n as real / Scale(UnitIndex(n)) as real < Kilo as real
  {
    UnitIndexFromIsLeast(n, 0);
    var k := UnitIndex(n);
    forall j | 0 <= j < k
      ensures n as real / Scale(j) as real >= Kilo as real
    {
      ScaledBelowKilo(n, j);
    }
    ScaledBelowKilo(n, k);
  }

  /** The loop passes the unit of index `j`: the amount scaled by 1000^j is
      not below 1000. */
  predicate Passes(n: nat, j: nat) {
    n >= Scale(j + 1)
  }

  lemma {:induction false} UnitIndexFromIsLeast(n: nat, k: nat)
    requires k <= |Units|
    ensures forall j :: k <= j < UnitIndexFrom(n, k) ==> Passes(n, j)
    ensures UnitIndexFrom(n, k) < |Units| ==> n < Scale(UnitIndexFrom(n, k) + 1)
    decreases |Units| - k
  {
    if k < |Units| && n >= Scale(k + 1) {
      UnitIndexFromIsLeast(n, k + 1);
    }
  }

  /** The scaled amount is below 1000 exactly when the amount is below the
      next power of 1000. */
  lemma ScaledBelowKilo(n: nat, k: nat)
    ensures n as real / Scale(k) as real < Kilo as real <==> n < Scale(k + 1)
  {
    var s := Scale(k);
    assert Scale(k + 1) == Kilo * s;
    DivideBelow(n as real, s as real, Kilo as real);
    ProductAsReal(Kilo, s);
  }

  /** A quotient is below `c` exactly when the dividend is below `c` times the
      divisor. */
  lemma DivideBelow(x: real, s: real, c: real)
    requires s > 0.0
    ensures x / s < c <==> x < c * s
  {
    assert (x / s) * s == x;
  }

  /** Dividing twice divides by the product. */
  lemma DivideTwice(x: real, s: real, c: real)
    requires s > 0.0 && c > 0.0
    ensures (x / s) / c == x / (s * c)
  {
    assert ((x / s) / c) * (s * c) == x;
  }

  lemma ProductAsReal(a: nat, b: nat)
    ensures (a * b) as real == a as real * b as real
  {
  }

  /** An amount below 1000 is shown unscaled, in bytes. */
  lemma BelowKiloUnscaled(n: nat)
    requires n < Kilo
    ensures UnitIndex(n) == 0 && ScaledAmount(n) == n as real
    ensures UnitName(UnitIndex(n)) == "B"
  {
  }

  /** From 1000^4 bytes on the amount is shown in TB, divided by 1000^4. */
  lemma TeraForLargeAmounts(n: nat)
    requires n >= Scale(|Units|)
    ensures UnitName(UnitIndex(n)) == LastUnit
    ensures ScaledAmount(n) == n as real / Scale(4) as real
  {
    UnitIndexFromIsLeast(n, 0);
  }

  // ---------------------------------------------------------------------------
  // The loop of `byteWithUnitString`

  /** The amount, divided by 1000 once per unit passed, and the unit the loop
      stops at. */
  method ByteWithUnit(n: nat) returns (number: real, unit: string)
    ensures number == ScaledAmount(n)
    ensures unit == UnitName(UnitIndex(n))
  {
    number := n as real;
    for i := 0 to |Units|
      invariant number == n as real / Scale(i) as real
      invariant UnitIndexFrom(n, i) == UnitIndex(n)
    {
      ScaledBelowKilo(n, i);
      if number < Kilo as real {
        return number, Units[i];
      }
      DivideOnceMore(n, i);
      number := number / Kilo as real;
    }
    return number, LastUnit;
  }

  /** Dividing the amount scaled by 1000^k by 1000 scales it by 1000^(k+1). */
  lemma DivideOnceMore(n: nat, k: nat)
    ensures (n as real / Scale(k) as real) / Kilo as real == n as real / Scale(k + 1) as real
  {
    var s := Scale(k);
    assert Scale(k + 1) == s * Kilo;
    DivideTwice(n as real, s as real, Kilo as real);
    ProductAsReal(s, Kilo);
  }
}
