/** Numbers of finished videos: V-001, V-002, … within a case. */
module VideoNumbers {
  import opened Results
  import Decimal

  function Zeros(n: nat): string { if n == 0 then "" else "0" + Zeros(n - 1) }

  /** f"V-{n:03d}". */
  function Format(n: nat): string {
    var s := Decimal.Print(n);
    "V-" + Zeros(if |s| < 3 then 3 - |s| else 0) + s
  }

  /** The number a stored value stands for, if it has the shape of one. */
  function NumberOf(value: Option<string>): Option<nat> {
    if value.Some? && |value.value| >= 2 && value.value[..2] == "V-" && Decimal.IsNumeral(value.value[2..])
    then Some(Decimal.Read(value.value[2..])) else None
  }

  function MaxNumber(values: seq<Option<string>>): nat {
    if values == [] then 0
    else
      var front, n := MaxNumber(values[..|values| - 1]), NumberOf(values[|values| - 1]);
      if n.Some? && n.value > front then n.value else front
  }

  function Next(values: seq<Option<string>>): string { Format(MaxNumber(values) + 1) }

  method NextFinishedVideoNumber(values: seq<Option<string>>) returns (next: string)
    ensures next == Next(values)
  {
    var max := 0;
    for k := 0 to |values|
      invariant max == MaxNumber(values[..k])
    {
      assert values[..k + 1][..k] == values[..k];
      var n := NumberOf(values[k]);
      if n.Some? && n.value > max { max := n.value; }
    }
    assert values[..|values|] == values;
    next := Format(max + 1);
  }

  // ---- formatting and reading back ----------------------------------------

  lemma {:induction false} ReadZero(s: string)
    requires forall c <- s :: Decimal.IsDigit(c)
    ensures forall c <- "0" + s :: Decimal.IsDigit(c)
    ensures Decimal.Read("0" + s) == Decimal.Read(s)
  {
    var t := "0" + s;
    assert forall k :: 1 <= k < |t| ==> t[k] == s[k - 1];
    if s == "" {
      assert t == ['0'] && t[..|t| - 1] == "";
    } else {
      ReadZero(s[..|s| - 1]);
      assert t[..|t| - 1] == "0" + s[..|s| - 1];
      assert t[|t| - 1] == s[|s| - 1];
    }
  }

  lemma {:induction false} ReadZeros(n: nat, s: string)
    requires Decimal.IsNumeral(s)
    ensures Decimal.IsNumeral(Zeros(n) + s) && Decimal.Read(Zeros(n) + s) == Decimal.Read(s)
  {
    if n > 0 {
      assert Zeros(n) + s == "0" + (Zeros(n - 1) + s);
      ReadZeros(n - 1, s);
      ReadZero(Zeros(n - 1) + s);
    } else {
      assert Zeros(n) + s == s;
    }
  }

  /** A formatted number reads back as itself. */
  lemma {:induction false} FormatReadsBack(n: nat)
    ensures NumberOf(Some(Format(n))) == Some(n)
  {
    var s := Decimal.Print(n);
    var pad := if |s| < 3 then 3 - |s| else 0;
    ReadZeros(pad, s);
    Decimal.ReadPrint(n);
    assert Format(n)[..2] == "V-" && Format(n)[2..] == Zeros(pad) + s;
  }

  lemma {:induction false} MaxNumberBounds(values: seq<Option<string>>, v: Option<string>)
    requires v in values && NumberOf(v).Some?
    ensures NumberOf(v).value <= MaxNumber(values)
  {
    var front, last := values[..|values| - 1], values[|values| - 1];
    assert values == front + [last];
    if v != last { MaxNumberBounds(front, v); }
  }

  /** So the next number is never one that is already there, however the stored values look. */
  lemma {:induction false} NextIsNew(values: seq<Option<string>>)
    ensures Some(Next(values)) !in values
  {
    FormatReadsBack(MaxNumber(values) + 1);
    if Some(Next(values)) in values { MaxNumberBounds(values, Some(Next(values))); }
  }
}
