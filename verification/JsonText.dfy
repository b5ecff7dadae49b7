/** The span scanner of runtime/support/json.c on raw text: how long the JSON value at the
    front of a text is, or 0 when there is none. A text here runs from a position to the
    limit the scanner was given. */
module JsonText {
  import Decimal

  predicate IsWs(c: char) { c == ' ' || '\t' <= c <= '\r' }

  function Ws(s: string): (n: nat)
    ensures n <= |s| && (forall i :: 0 <= i < n ==> IsWs(s[i])) && (n < |s| ==> !IsWs(s[n]))
  {
    if s == "" || !IsWs(s[0]) then 0 else 1 + Ws(s[1..])
  }

  /** k more characters, unless the rest failed. */
  function Plus(k: nat, n: nat): nat { if n == 0 then 0 else k + n }

  predicate IsHex(c: char) { Decimal.IsDigit(c) || 'a' <= c <= 'f' || 'A' <= c <= 'F' }

  predicate IsEscape(c: char) {
    c == '"' || c == '\\' || c == '/' || c == 'b' || c == 'f' || c == 'n' || c == 'r' || c == 't'
  }

  /** Up to and including the closing quote. */
  function BodyLen(s: string): (n: nat)
    ensures n <= |s|
  {
    if s == "" then 0
    else if s[0] == '"' then 1
    else if s[0] == '\\' then
      if |s| < 2 then 0
      else if s[1] == 'u' then
        if |s| >= 6 && IsHex(s[2]) && IsHex(s[3]) && IsHex(s[4]) && IsHex(s[5]) then Plus(6, BodyLen(s[6..])) else 0
      else if IsEscape(s[1]) then Plus(2, BodyLen(s[2..])) else 0
    else if s[0] as int < 0x20 then 0
    else Plus(1, BodyLen(s[1..]))
  }

  function StringLen(s: string): (n: nat)
    ensures n <= |s|
  {
    if s == "" || s[0] != '"' then 0 else Plus(1, BodyLen(s[1..]))
  }

  function FractionLen(s: string): (r: (bool, nat))
    ensures r.1 <= |s|
  {
    if s == "" || s[0] != '.' then (true, 0)
    else
      var d := Decimal.DigitRun(s[1..]);
      (d > 0, if d > 0 then 1 + d else 0)
  }

  function ExponentLen(s: string): (r: (bool, nat))
    ensures r.1 <= |s|
  {
    if s == "" || (s[0] != 'e' && s[0] != 'E') then (true, 0)
    else
      var p := if |s| > 1 && (s[1] == '+' || s[1] == '-') then 2 else 1;
      var d := Decimal.DigitRun(s[p..]);
      (d > 0, if d > 0 then p + d else 0)
  }

  /** Fraction and exponent. */
  function TailLen(s: string): (r: (bool, nat))
    ensures r.1 <= |s|
  {
    var f := FractionLen(s);
    if !f.0 then (false, 0)
    else
      var e := ExponentLen(s[f.1..]);
      (e.0, if e.0 then f.1 + e.1 else 0)
  }

  function UnsignedLen(s: string): (n: nat)
    ensures n <= |s|
  {
    var d := Decimal.DigitRun(s);
    if d == 0 || !TailLen(s[d..]).0 then 0 else d + TailLen(s[d..]).1
  }

  function NumberLen(s: string): (n: nat)
    ensures n <= |s|
  {
    if s != "" && s[0] == '-' then Plus(1, UnsignedLen(s[1..])) else UnsignedLen(s)
  }

  function ValueLen(s: string): (n: nat)
    ensures n <= |s|
    decreases |s|, 0
  {
    if s == "" then 0
    else if s[0] == '"' then StringLen(s)
    else if s[0] == '{' then
      var w := NextAt(s, 0);
      if w == |s| then 0 else if s[w] == '}' then w + 1 else Plus(w, MembersLen(s[w..]))
    else if s[0] == '[' then
      var w := NextAt(s, 0);
      if w == |s| then 0 else if s[w] == ']' then w + 1 else Plus(w, ItemsLen(s[w..]))
    else if s[0] == 't' || s[0] == 'f' || s[0] == 'n' then WordLen(s)
    else NumberLen(s)
  }

  function WordLen(s: string): (n: nat)
    ensures n <= |s|
  {
    if "true" <= s || "null" <= s then 4 else if "false" <= s then 5 else 0
  }

  /** From the first value of an array through its closing bracket. */
  function ItemsLen(s: string): (n: nat)
    ensures n <= |s|
    decreases |s|, 1
  {
    var v := ValueLen(s);
    if v == 0 then 0
    else
      var k := AfterValue(s, v);
      if k == |s| then 0
      else if s[k] == ']' then k + 1
      else if s[k] == ',' then Plus(NextAt(s, k), ItemsLen(s[NextAt(s, k)..]))
      else 0
  }

  /** The end of the value of length v at the front and of the space behind it. */
  function AfterValue(s: string, v: nat): (k: nat)
    requires v <= |s|
    ensures v <= k <= |s|
  {
    v + Ws(s[v..])
  }

  /** Where the next value or key starts after the comma at k. */
  function NextAt(s: string, k: nat): (n: nat)
    requires k < |s|
    ensures k < n <= |s|
  {
    k + 1 + Ws(s[k + 1..])
  }

  /** From the first key of an object through its closing brace. */
  function MembersLen(s: string): (n: nat)
    ensures n <= |s|
    decreases |s|, 1
  {
    var a := MemberValueAt(s);
    if a == 0 then 0
    else
      var v := ValueLen(s[a..]);
      if v == 0 then 0
      else
        var k := AfterValue(s, a + v);
        if k == |s| then 0
        else if s[k] == '}' then k + 1
        else if s[k] == ',' then Plus(NextAt(s, k), MembersLen(s[NextAt(s, k)..]))
        else 0
  }

  /** Where the value of the member at the front starts; 0 when there is no key and colon. */
  function MemberValueAt(s: string): (n: nat)
    ensures n <= |s|
  {
    var q := StringLen(s);
    if q == 0 then 0
    else
      var k := q + Ws(s[q..]);
      if k == |s| || s[k] != ':' then 0 else NextAt(s, k)
  }

  // ----- locality -----

  predicate Same(s: string, t: string, n: nat) {
    n <= |s| && n <= |t| && s[..n] == t[..n]
  }

  predicate NumberChar(c: char) { Decimal.IsDigit(c) || c == '.' || c == 'e' || c == 'E' }

  /** What follows position n does not continue a number. */
  predicate Closed(t: string, n: nat) {
    n <= |t| && (n < |t| ==> !NumberChar(t[n]))
  }

  lemma SameTail(s: string, t: string, n: nat, k: nat)
    requires Same(s, t, n) && k <= n
    ensures Same(s[k..], t[k..], n - k) && Same(s, t, k)
  {
    assert s[..n][k..] == s[k..][..n - k] && t[..n][k..] == t[k..][..n - k];
    assert s[..n][..k] == s[..k] && t[..n][..k] == t[..k];
  }

  lemma SameBounds(s: string, t: string, n: nat)
    requires Same(s, t, n)
    ensures n <= |s| && n <= |t|
  {
  }

  lemma SameAt(s: string, t: string, n: nat, i: nat)
    requires Same(s, t, n) && i < n
    ensures s[i] == t[i]
  {
    assert s[..n][i] == t[..n][i];
  }

  lemma {:induction false} WsLocal(s: string, t: string, n: nat)
    requires Same(s, t, n) && Ws(s) < n
    ensures Ws(t) == Ws(s)
  {
    SameAt(s, t, n, 0);
    if IsWs(s[0]) {
      SameTail(s, t, n, 1);
      WsLocal(s[1..], t[1..], n - 1);
    }
  }

  lemma {:induction false} BodyLocal(s: string, t: string)
    requires BodyLen(s) > 0 && Same(s, t, BodyLen(s))
    ensures BodyLen(t) == BodyLen(s)
    decreases |s|
  {
    var n := BodyLen(s);
    SameAt(s, t, n, 0);
    if s[0] == '\\' {
      SameAt(s, t, n, 1);
      if s[1] == 'u' {
        SameAt(s, t, n, 2);
        SameAt(s, t, n, 3);
        SameAt(s, t, n, 4);
        SameAt(s, t, n, 5);
        SameTail(s, t, n, 6);
        BodyLocal(s[6..], t[6..]);
      } else {
        SameTail(s, t, n, 2);
        BodyLocal(s[2..], t[2..]);
      }
    } else if s[0] != '"' {
      SameTail(s, t, n, 1);
      BodyLocal(s[1..], t[1..]);
    }
  }

  lemma StringLocal(s: string, t: string)
    requires StringLen(s) > 0 && Same(s, t, StringLen(s))
    ensures StringLen(t) == StringLen(s)
  {
    SameAt(s, t, StringLen(s), 0);
    SameTail(s, t, StringLen(s), 1);
    BodyLocal(s[1..], t[1..]);
  }

  /** A run of digits ends at the same place if what follows it there is no digit. */
  lemma DigitsLocal(s: string, t: string, n: nat)
    requires Same(s, t, n) && Decimal.DigitRun(s) <= n
    requires Decimal.DigitRun(s) == n ==> n == |t| || !Decimal.IsDigit(t[n])
    ensures Decimal.DigitRun(t) == Decimal.DigitRun(s)
  {
    var d := Decimal.DigitRun(s);
    forall i | 0 <= i < d ensures Decimal.IsDigit(t[i]) { SameAt(s, t, n, i); }
    if d < n { SameAt(s, t, n, d); }
  }

  lemma FractionLocal(s: string, t: string, n: nat)
    requires Same(s, t, n) && Closed(t, n) && FractionLen(s).0 && FractionLen(s).1 <= n
    ensures FractionLen(t) == FractionLen(s)
  {
    if n > 0 {
      SameAt(s, t, n, 0);
      SameTail(s, t, n, 1);
      if s[0] == '.' { DigitsLocal(s[1..], t[1..], n - 1); }
    }
  }

  lemma ExponentLocal(s: string, t: string, n: nat)
    requires Same(s, t, n) && Closed(t, n) && ExponentLen(s).0 && ExponentLen(s).1 == n
    ensures ExponentLen(t) == ExponentLen(s)
  {
    if n > 0 {
      SameAt(s, t, n, 0);
      var p := if |s| > 1 && (s[1] == '+' || s[1] == '-') then 2 else 1;
      SameAt(s, t, n, 1);
      SameTail(s, t, n, p);
      DigitsLocal(s[p..], t[p..], n - p);
    }
  }

  lemma TailLocal(s: string, t: string, n: nat)
    requires Same(s, t, n) && Closed(t, n) && TailLen(s).0 && TailLen(s).1 == n
    ensures TailLen(t) == TailLen(s)
  {
    hide FractionLen, ExponentLen, Same;
    FractionLocal(s, t, n);
    var f := FractionLen(s).1;
    SameTail(s, t, n, f);
    ExponentLocal(s[f..], t[f..], n - f);
  }

  lemma UnsignedLocal(s: string, t: string)
    requires UnsignedLen(s) > 0 && Same(s, t, UnsignedLen(s)) && Closed(t, UnsignedLen(s))
    ensures UnsignedLen(t) == UnsignedLen(s)
  {
    hide TailLen, Same, Decimal.DigitRun;
    var n, d := UnsignedLen(s), Decimal.DigitRun(s);
    DigitsLocal(s, t, n);
    SameTail(s, t, n, d);
    TailLocal(s[d..], t[d..], n - d);
  }

  lemma NumberLocal(s: string, t: string)
    requires NumberLen(s) > 0 && Same(s, t, NumberLen(s)) && Closed(t, NumberLen(s))
    ensures NumberLen(t) == NumberLen(s)
  {
    hide UnsignedLen;
    var n := NumberLen(s);
    SameAt(s, t, n, 0);
    if s[0] == '-' {
      SameTail(s, t, n, 1);
      UnsignedLocal(s[1..], t[1..]);
    } else {
      UnsignedLocal(s, t);
    }
  }

  // ----- nested values -----

  lemma {:induction false} ItemsUnfold(s: string)
    ensures var v := ValueLen(s);
            ItemsLen(s) ==
            if v == 0 then 0
            else
              var k := AfterValue(s, v);
              if k == |s| then 0
              else if s[k] == ']' then k + 1
              else if s[k] == ',' then Plus(NextAt(s, k), ItemsLen(s[NextAt(s, k)..]))
              else 0
  {
  }

  lemma {:induction false} MembersUnfold(s: string)
    ensures var a := MemberValueAt(s);
            MembersLen(s) ==
            if a == 0 then 0
            else
              var v := ValueLen(s[a..]);
              if v == 0 then 0
              else
                var k := AfterValue(s, a + v);
                if k == |s| then 0
                else if s[k] == '}' then k + 1
                else if s[k] == ',' then Plus(NextAt(s, k), MembersLen(s[NextAt(s, k)..]))
                else 0
  {
    hide ValueLen, MemberValueAt, AfterValue, NextAt;
  }

  lemma {:induction false} OpenUnfold(s: string)
    requires s != "" && (s[0] == '[' || s[0] == '{')
    ensures var w := NextAt(s, 0);
            ValueLen(s) ==
            if w == |s| then 0
            else if s[w] == (if s[0] == '[' then ']' else '}') then w + 1
            else Plus(w, if s[0] == '[' then ItemsLen(s[w..]) else MembersLen(s[w..]))
  {
  }

  /** The space behind a value, and what closes or continues there, is the same. */
  lemma AfterLocal(s: string, t: string, n: nat, v: nat)
    requires Same(s, t, n) && v <= n && AfterValue(s, v) < n
    ensures v <= |t| && AfterValue(t, v) == AfterValue(s, v) && t[AfterValue(s, v)] == s[AfterValue(s, v)]
  {
    SameTail(s, t, n, v);
    WsLocal(s[v..], t[v..], n - v);
    SameAt(s, t, n, AfterValue(s, v));
  }

  lemma {:induction false} ValueLocal(s: string, t: string)
    requires ValueLen(s) > 0 && Same(s, t, ValueLen(s)) && Closed(t, ValueLen(s))
    ensures ValueLen(t) == ValueLen(s)
    decreases |s|, 1
  {
    var n := ValueLen(s);
    SameAt(s, t, n, 0);
    if s[0] == '"' {
      StringLocal(s, t);
    } else if s[0] == '{' || s[0] == '[' {
      OpenLocal(s, t);
    } else if s[0] == 't' || s[0] == 'f' || s[0] == 'n' {
      WordLocal(s, t);
    } else {
      NumberLocal(s, t);
    }
  }

  lemma WordLocal(s: string, t: string)
    requires WordLen(s) > 0 && Same(s, t, WordLen(s))
    ensures WordLen(t) == WordLen(s)
  {
    var n := WordLen(s);
    SameAt(s, t, n, 0);
    SameAt(s, t, n, 1);
    SameAt(s, t, n, 2);
    SameAt(s, t, n, 3);
    if n == 5 { SameAt(s, t, n, 4); }
  }

  lemma {:induction false} OpenLocal(s: string, t: string)
    requires ValueLen(s) > 0 && Same(s, t, ValueLen(s)) && (s[0] == '{' || s[0] == '[')
    ensures ValueLen(t) == ValueLen(s)
    decreases |s|, 0
  {
    hide ValueLen, ItemsLen, MembersLen, Same, NextAt;
    var n, w := ValueLen(s), NextAt(s, 0);
    SameBounds(s, t, n);
    SameAt(s, t, n, 0);
    OpenUnfold(s);
    OpenUnfold(t);
    NextLocal(s, t, n, 0);
    SameTail(s, t, n, w);
    SameAt(s, t, n, w);
    if s[0] == '{' {
      if s[w] != '}' { MembersLocal(s[w..], t[w..]); }
    } else {
      if s[w] != ']' { ItemsLocal(s[w..], t[w..]); }
    }
  }

  /** What separates values does not continue a number. */
  lemma SeparatorCloses(s: string, v: nat)
    requires v <= |s| && AfterValue(s, v) < |s|
    requires s[AfterValue(s, v)] == ',' || s[AfterValue(s, v)] == ']' || s[AfterValue(s, v)] == '}'
    ensures v < |s| && !NumberChar(s[v])
  {
    var w := Ws(s[v..]);
    if w > 0 { assert IsWs(s[v..][0]); }
  }

  lemma {:induction false} ItemsLocal(s: string, t: string)
    requires ItemsLen(s) > 0 && Same(s, t, ItemsLen(s))
    ensures ItemsLen(t) == ItemsLen(s)
    decreases |s|, 2
  {
    hide ValueLen, ItemsLen, Same, NextAt, AfterValue;
    var n, v := ItemsLen(s), ValueLen(s);
    SameBounds(s, t, n);
    ItemsUnfold(s);
    ItemsUnfold(t);
    var k := AfterValue(s, v);
    SeparatorCloses(s, v);
    SameAt(s, t, n, v);
    SameTail(s, t, n, v);
    ValueLocal(s, t);
    AfterLocal(s, t, n, v);
    if s[k] == ',' {
      var m := NextAt(s, k);
      NextLocal(s, t, n, k);
      SameTail(s, t, n, m);
      ItemsLocal(s[m..], t[m..]);
    }
  }

  lemma NextLocal(s: string, t: string, n: nat, k: nat)
    requires Same(s, t, n) && k < n && NextAt(s, k) < n
    ensures NextAt(t, k) == NextAt(s, k)
  {
    SameTail(s, t, n, k + 1);
    WsLocal(s[k + 1..], t[k + 1..], n - k - 1);
  }

  lemma MemberLocal(s: string, t: string, n: nat)
    requires Same(s, t, n) && 0 < MemberValueAt(s) < n
    ensures MemberValueAt(t) == MemberValueAt(s)
  {
    hide Same;
    SameBounds(s, t, n);
    var q := StringLen(s);
    SameTail(s, t, n, q);
    StringLocal(s, t);
    hide StringLen;
    var k := q + Ws(s[q..]);
    WsLocal(s[q..], t[q..], n - q);
    SameAt(s, t, n, k);
    NextLocal(s, t, n, k);
  }

  lemma {:induction false} MembersLocal(s: string, t: string)
    requires MembersLen(s) > 0 && Same(s, t, MembersLen(s))
    ensures MembersLen(t) == MembersLen(s)
    decreases |s|, 2
  {
    hide ValueLen, MembersLen, Same, NextAt, MemberValueAt, AfterValue;
    var n, a := MembersLen(s), MemberValueAt(s);
    SameBounds(s, t, n);
    MembersUnfold(s);
    MembersUnfold(t);
    var v := ValueLen(s[a..]);
    var k := AfterValue(s, a + v);
    MemberLocal(s, t, n);
    SeparatorCloses(s, a + v);
    SameAt(s, t, n, a + v);
    SameTail(s, t, n, a);
    SameTail(s[a..], t[a..], n - a, v);
    ValueLocal(s[a..], t[a..]);
    AfterLocal(s, t, n, a + v);
    if s[k] == ',' {
      var m := NextAt(s, k);
      NextLocal(s, t, n, k);
      SameTail(s, t, n, m);
      MembersLocal(s[m..], t[m..]);
    }
  }
}
