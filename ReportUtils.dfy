/** reports/utils.go: `formatGb`, which scales a size in GB to the largest
    binary unit that keeps the value at least 1. */
module ReportUtils {
  import opened Common

  /** The unit names, indexed by the number of divisions by 1024 of a size in bytes. */
  const Formats: seq<string> := ["B", "KB", "MB", "GB", "TB", "PT", "EB", "ZB"]

  /** Bytes in a GB: 1024 * 1024 * 1024. */
  const GB: real := 1073741824.0

  /** 1024 to the power `n`. */
  function Pow1024(n: nat): real
  {
    if n == 0 then 1.0 else 1024.0 * Pow1024(n - 1)
  }

  lemma {:induction false} Pow1024AtLeastOne(n: nat)
    ensures Pow1024(n) >= 1.0
  {
    if n > 0 {
      Pow1024AtLeastOne(n - 1);
    }
  }

  /** How many times the loop of `formatGb` divides `x` by 1024, and what is
      left: it divides while a division leaves at least 1. */
  function Scaled(x: real): (r: (nat, real))
    decreases if x >= 1024.0 then x.Floor else 0
  {
    if x / 1024.0 >= 1.0 then
      var rest := Scaled(x / 1024.0);
      (rest.0 + 1, rest.1)
    else (0, x)
  }

  /** `formatGb(value)`: the unit and the scaled value, or `None` where Go's
      `formats[i]` is out of range and panics. */
  method FormatGb(value: real) returns (r: Option<(string, real)>)
    ensures var (i, byteValue) := Scaled(value * GB);
            r == if i < |Formats| then Some((Formats[i], byteValue)) else None
  {
    var byteValue := value * 1024.0 * 1024.0 * 1024.0;
    var i := 0;
    while byteValue / 1024.0 >= 1.0
      invariant Scaled(value * GB) == (Scaled(byteValue).0 + i, Scaled(byteValue).1)
      decreases if byteValue >= 1024.0 then byteValue.Floor else 0
    {
      byteValue := byteValue / 1024.0;
      i := i + 1;
    }
    if i < |Formats| {
      r := Some((Formats[i], byteValue));
    } else {
      r := None;
    }
  }

  /** The loop keeps `x == byteValue * 1024^i`: the scaled value times 1024 to
      the number of divisions gives the input back. */
  lemma {:induction false} ScaledKeepsValue(x: real)
    ensures Scaled(x).1 * Pow1024(Scaled(x).0) == x
    decreases if x >= 1024.0 then x.Floor else 0
  {
    if x / 1024.0 >= 1.0 {
      ScaledKeepsValue(x / 1024.0);
      var rest := Scaled(x / 1024.0);
      assert rest.1 * Pow1024(rest.0 + 1) == 1024.0 * (rest.1 * Pow1024(rest.0));
    }
  }

  /** The scaled value is below 1024, and at least 1 once a division happened;
      below 1024 bytes nothing is divided. */
  lemma {:induction false} ScaledBounds(x: real)
    ensures Scaled(x).1 < 1024.0
    ensures Scaled(x).0 > 0 ==> Scaled(x).1 >= 1.0
    ensures x < 1024.0 ==> Scaled(x) == (0, x)
    decreases if x >= 1024.0 then x.Floor else 0
  {
    if x / 1024.0 >= 1.0 {
      ScaledBounds(x / 1024.0);
    }
  }

  /** Fewer than `n` divisions happen exactly when the size is below 1024^n;
      so the unit exists exactly when the size is below 1024^8 bytes. */
  lemma {:induction false} ScaledBelowPower(x: real, n: nat)
    requires n >= 1
    ensures Scaled(x).0 < n <==> x < Pow1024(n)
    decreases n
  {
    if n > 1 {
      if x / 1024.0 >= 1.0 {
        ScaledBelowPower(x / 1024.0, n - 1);
      } else {
        Pow1024AtLeastOne(n - 1);
      }
    }
  }

  /** The unit exists exactly when the value is below 1024^5 GB. */
  lemma UnitInRange(value: real)
    ensures Scaled(value * GB).0 < |Formats| <==> value < Pow1024(5)
  {
    ScaledBelowPower(value * GB, 8);
    assert Pow1024(8) == GB * Pow1024(5);
  }
}
