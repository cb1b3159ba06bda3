/** Whole numbers in decimal: the spelling the counters of the metrics page have. */
module Decimals {
  import opened JsNumbers
  import opened JsText
  import opened PrometheusText

  function Digit(d: nat): char
    requires d < 10
  {
    '0' + d as char
  }

  function Show(n: nat): (s: string)
    ensures s != "" && forall i :: 0 <= i < |s| ==> IsDigit(s[i])
  {
    if n < 10 then [Digit(n)] else Show(n / 10) + [Digit(n % 10)]
  }

  function Read(s: string): nat
    requires forall i :: 0 <= i < |s| ==> IsDigit(s[i])
  {
    if s == "" then 0
    else
      assert IsDigit(s[|s| - 1]);
      Read(s[..|s| - 1]) * 10 + (s[|s| - 1] as int - '0' as int)
  }

  lemma {:induction false} ReadOfShow(n: nat)
    ensures Read(Show(n)) == n
  {
    if n < 10 {
      assert Show(n)[..0] == "";
    } else {
      ReadOfShow(n / 10);
      assert Show(n)[..|Show(n)| - 1] == Show(n / 10);
    }
  }

  /** `String` and `Number` on whole numbers; other numbers are outside this format. */
  function DecimalFormat(): NumberFormat {
    NumberFormat(x => if x >= 0.0 then Show(x.Floor) else "-",
                 s => if s != "" && forall i :: 0 <= i < |s| ==> IsDigit(s[i]) then Finite(Read(s) as real) else NaN)
  }

  /** Every count has a spelling the parser reads back. */
  lemma CountsPrint(n: nat)
    ensures Prints(DecimalFormat(), n as real)
  {
    ReadOfShow(n);
    var s := Show(n);
    assert (n as real).Floor == n;
    forall i | 0 <= i < |s| ensures !IsSpace(s[i]) && s[i] != '}' { assert IsDigit(s[i]); }
    assert IsDigit(s[0]) && s != "+Inf" && s != "-Inf" by { assert IsDigit(s[0]) && !IsDigit('+') && !IsDigit('-'); }
  }
}
