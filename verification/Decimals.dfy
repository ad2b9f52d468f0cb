/** The string routines that search criteria are read with: decimal numbers and the first-comma cut. */
module Decimals {
  import opened Tables

  predicate IsDigit(c: char) { '0' <= c <= '9' }

  function DigitValue(c: char): (d: nat)
    requires IsDigit(c)
    ensures d < 10
  {
    c as int - '0' as int
  }

  predicate AllDigits(s: string) {
    forall i :: 0 <= i < |s| ==> IsDigit(s[i])
  }

  /** The number a digit string stands for, leading zeros included. */
  function ValueOf(s: string): nat
    requires AllDigits(s)
  {
    if s == [] then 0 else 10 * ValueOf(s[..|s| - 1]) + DigitValue(s[|s| - 1])
  }

  /** `s` is a decimal numeral for `n`, and `n` is below `bound`. */
  ghost predicate Denotes(s: string, n: nat, bound: nat) {
    s != "" && AllDigits(s) && ValueOf(s) == n && n < bound
  }

  /** A bounded parse, digit by digit, that gives up at the first foreign character and on overflow. */
  method ParseUint(s: string, bound: nat) returns (r: Option<nat>)
    requires 10 <= bound
    ensures r.Some? ==> Denotes(s, r.value, bound)
    ensures r.None? ==> forall n :: !Denotes(s, n, bound)
  {
    if |s| == 0 {
      return None;
    }
    var n: nat := 0;
    for i := 0 to |s|
      invariant AllDigits(s[..i]) && ValueOf(s[..i]) == n < bound
    {
      if !IsDigit(s[i]) {
        return None;
      }
      assert s[..i + 1][..i] == s[..i];
      if 10 * n + DigitValue(s[i]) >= bound {
        PrefixIsSmaller(s, i + 1);
        return None;
      }
      n := 10 * n + DigitValue(s[i]);
    }
    assert s[..|s|] == s;
    return Some(n);
  }

  lemma {:induction false} PrefixIsSmaller(s: string, i: nat)
    requires i <= |s|
    ensures AllDigits(s) ==> ValueOf(s[..i]) <= ValueOf(s)
    decreases |s|
  {
    if i < |s| {
      assert s[..|s| - 1][..i] == s[..i];
      PrefixIsSmaller(s[..|s| - 1], i);
    } else {
      assert s[..i] == s;
    }
  }

  function DigitChar(d: nat): (c: char)
    requires d < 10
    ensures IsDigit(c) && DigitValue(c) == d
  {
    "0123456789"[d]
  }

  /** The numeral without leading zeros. */
  function Decimal(n: nat): (s: string)
    ensures s != "" && AllDigits(s) && ValueOf(s) == n
  {
    if n < 10 then
      assert ValueOf([DigitChar(n)][..0]) == 0;
      [DigitChar(n)]
    else
      var front := Decimal(n / 10);
      var s := front + [DigitChar(n % 10)];
      assert s[..|s| - 1] == front;
      s
  }

  /** Where the first comma is, or the length when there is none. */
  function FirstComma(s: string): (i: nat)
    ensures i <= |s| && (i < |s| ==> s[i] == ',') && ',' !in s[..i]
  {
    if s == "" || s[0] == ',' then 0
    else
      var i := 1 + FirstComma(s[1..]);
      assert s[..i] == [s[0]] + s[1..][..i - 1];
      i
  }

  /** A comma-free text before a comma is exactly what the cut puts in front. */
  lemma CutIsUnique(s: string, before: string, after: string)
    requires s == before + "," + after && ',' !in before
    ensures FirstComma(s) == |before| && s[..FirstComma(s)] == before && s[FirstComma(s) + 1..] == after
  {
    var i := FirstComma(s);
    assert s[|before|] == ',' && s[..|before|] == before && s[|before| + 1..] == after;
    assert forall j :: 0 <= j < |before| ==> s[j] == before[j];
    assert forall j :: 0 <= j < i ==> s[j] == s[..i][j];
  }
}
