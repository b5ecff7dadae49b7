/** Decimal printing and scanning, as the runtime's %d, %06d and %zu formats do it. */
module Decimal {
  import opened Wrappers

  function Digit(d: nat): char
    requires d < 10
  {
    '0' + d as char
  }

  predicate IsDigit(c: char) { '0' <= c <= '9' }

  function DigitValue(c: char): nat
    requires IsDigit(c)
  {
    (c - '0') as int
  }

  function Printed(n: nat): (s: string)
    ensures |s| >= 1 && forall i :: 0 <= i < |s| ==> IsDigit(s[i])
  {
    if n < 10 then [Digit(n)] else Printed(n / 10) + [Digit(n % 10)]
  }

  /** %0wd: at least w digits. */
  function Padded(n: nat, w: nat): (s: string)
    ensures |s| >= w && |s| >= 1 && forall i :: 0 <= i < |s| ==> IsDigit(s[i])
  {
    if |Printed(n)| >= w then Printed(n) else Zeros(w - |Printed(n)|) + Printed(n)
  }

  function Zeros(k: nat): (s: string)
    ensures |s| == k && forall i :: 0 <= i < k ==> s[i] == '0'
  {
    if k == 0 then "" else ['0'] + Zeros(k - 1)
  }

  function Value(s: string): nat
    requires forall i :: 0 <= i < |s| ==> IsDigit(s[i])
  {
    if s == "" then 0 else Value(s[..|s| - 1]) * 10 + DigitValue(s[|s| - 1])
  }

  function DigitRun(s: string): (n: nat)
    ensures n <= |s| && (forall i :: 0 <= i < n ==> IsDigit(s[i])) && (n < |s| ==> !IsDigit(s[n]))
  {
    if s == "" || !IsDigit(s[0]) then 0 else 1 + DigitRun(s[1..])
  }

  predicate IsSpace(c: char) { c == ' ' || '\t' <= c <= '\r' }

  /** sscanf "%d": spaces, an optional sign, then the longest run of digits. */
  function Scanned(s: string): Option<int> {
    if s == "" then None
    else if IsSpace(s[0]) then Scanned(s[1..])
    else
      var signed := s[0] == '-' || s[0] == '+';
      var body := if signed then s[1..] else s;
      var n := DigitRun(body);
      if n == 0 then None
      else
        var v: int := Value(body[..n]);
        Some(if s[0] == '-' then -v else v)
  }

  lemma {:induction false} PrintedValue(n: nat)
    ensures Value(Printed(n)) == n
  {
    var s := Printed(n);
    assert DigitValue(Digit(n % 10)) == n % 10;
    if n >= 10 {
      PrintedValue(n / 10);
      assert s[..|s| - 1] == Printed(n / 10) && s[|s| - 1] == Digit(n % 10);
    } else {
      assert s[..0] == "" && s[0] == Digit(n);
    }
  }

  lemma {:induction false} LeadingZeros(k: nat, s: string)
    requires forall i :: 0 <= i < |s| ==> IsDigit(s[i])
    ensures Value(Zeros(k) + s) == Value(s)
    decreases k + |s|
  {
    var t := Zeros(k) + s;
    if s != "" {
      var m := s[..|s| - 1];
      LeadingZeros(k, m);
      assert t[..|t| - 1] == Zeros(k) + m && t[|t| - 1] == s[|s| - 1];
    } else if k > 0 {
      LeadingZeros(k - 1, "");
      assert t == Zeros(k) && Zeros(k)[..k - 1] == Zeros(k - 1) + "" by { ZerosPrefix(k); }
    }
  }

  lemma {:induction false} ZerosPrefix(k: nat)
    requires k > 0
    ensures Zeros(k)[..k - 1] == Zeros(k - 1)
  {
  }

  lemma AllDigitsRun(s: string)
    requires forall i :: 0 <= i < |s| ==> IsDigit(s[i])
    ensures DigitRun(s) == |s|
  {
  }

  /** Scanning a printed number gives the number back. */
  lemma ScanPrinted(n: nat, w: nat)
    ensures Scanned(Padded(n, w)) == Some(n)
  {
    var s := Padded(n, w);
    AllDigitsRun(s);
    PrintedValue(n);
    if |Printed(n)| < w { LeadingZeros(w - |Printed(n)|, Printed(n)); }
    assert IsDigit(s[0]) && s[..|s|] == s;
  }

  /** A greater number never prints shorter. */
  lemma {:induction false} PrintedLengthMonotone(a: nat, b: nat)
    requires a <= b
    ensures |Printed(a)| <= |Printed(b)|
  {
    if a >= 10 { PrintedLengthMonotone(a / 10, b / 10); }
  }
}
