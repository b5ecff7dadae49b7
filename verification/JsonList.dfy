/** Arrays in raw JSON text: the texts of their items, where each item stands, and what the
    list is after an item is spliced out or put in front. */
module JsonList {
  import opened JsonText

  // ----- items of an array -----

  /** The texts of the items, from the first item on. */
  function Items(s: string): seq<string>
    decreases |s|
  {
    var v := ValueLen(s);
    if ItemsLen(s) == 0 || v == 0 then []
    else
      var k := AfterValue(s, v);
      [s[..v]] + (if k < |s| && s[k] == ',' then Items(s[NextAt(s, k)..]) else [])
  }

  predicate IsArray(a: string) {
    a != "" && a[0] == '[' && ValueLen(a) == |a|
  }

  function ArrayItems(a: string): seq<string>
    requires a != ""
  {
    var w := NextAt(a, 0);
    if w == |a| || a[w] == ']' then [] else Items(a[w..])
  }

  /** What one item looks like and what comes after it. */
  ghost predicate Opens(s: string, v: nat, k: nat) {
    0 < v == ValueLen(s) && k == AfterValue(s, v) < |s| && (s[k] == ']' || s[k] == ',')
  }

  lemma ItemsOpen(s: string)
    requires ItemsLen(s) > 0
    ensures var v := ValueLen(s);
            0 < v <= |s| && Opens(s, v, AfterValue(s, v))
    ensures var k := AfterValue(s, ValueLen(s));
            s[k] == ',' ==> ItemsLen(s[NextAt(s, k)..]) > 0
                            && ItemsLen(s) == NextAt(s, k) + ItemsLen(s[NextAt(s, k)..])
                            && Items(s) == [s[..ValueLen(s)]] + Items(s[NextAt(s, k)..])
    ensures var k := AfterValue(s, ValueLen(s));
            s[k] == ']' ==> ItemsLen(s) == k + 1 && Items(s) == [s[..ValueLen(s)]]
  {
    ItemsUnfold(s);
    hide ValueLen, ItemsLen, AfterValue, NextAt;
  }

  /** The converse: a value, a separator and proper rest make proper items. */
  lemma ItemsClose(s: string, v: nat, k: nat)
    requires Opens(s, v, k) && (s[k] == ',' ==> ItemsLen(s[NextAt(s, k)..]) > 0)
    ensures ItemsLen(s) == if s[k] == ']' then k + 1 else NextAt(s, k) + ItemsLen(s[NextAt(s, k)..])
    ensures Items(s) == [s[..v]] + (if s[k] == ',' then Items(s[NextAt(s, k)..]) else [])
  {
    ItemsUnfold(s);
    hide ValueLen, ItemsLen, AfterValue, NextAt;
  }

  lemma {:induction false} WsExact(u: string, n: nat)
    requires n < |u| && !IsWs(u[n]) && forall i :: 0 <= i < n ==> IsWs(u[i])
    ensures Ws(u) == n
  {
    if n > 0 { WsExact(u[1..], n - 1); }
  }

  lemma NextExact(t: string, k: nat, m: nat)
    requires k < m < |t| && !IsWs(t[m]) && forall i :: k < i < m ==> IsWs(t[i])
    ensures NextAt(t, k) == m
  {
    WsExact(t[k + 1..], m - k - 1);
  }

  lemma NextSkips(s: string, k: nat)
    requires k < |s|
    ensures forall i :: k < i < NextAt(s, k) ==> IsWs(s[i])
    ensures NextAt(s, k) < |s| ==> !IsWs(s[NextAt(s, k)])
  {
    var t, w := s[k + 1..], Ws(s[k + 1..]);
    forall i | k < i < NextAt(s, k) ensures IsWs(s[i]) { assert s[i] == t[i - k - 1]; }
    if w < |t| { assert t[w] == s[k + 1 + w]; }
  }

  lemma AfterExact(t: string, v: nat, k: nat)
    requires v <= k < |t| && !IsWs(t[k]) && forall i :: v <= i < k ==> IsWs(t[i])
    ensures AfterValue(t, v) == k
  {
    WsExact(t[v..], k - v);
  }

  lemma ValueNotWs(s: string)
    requires ValueLen(s) > 0
    ensures !IsWs(s[0])
  {
  }

  lemma SamePrefix(s: string, t: string, n: nat)
    requires Same(s, t, n)
    ensures n <= |s| && n <= |t| && s[..n] == t[..n]
  {
  }

  /** A text that begins like s through the separator behind the first value opens alike. */
  lemma SameOpening(s: string, t: string, v: nat, k: nat)
    requires Opens(s, v, k) && Same(s, t, k + 1)
    ensures Opens(t, v, k) && t[k] == s[k] && t[..v] == s[..v]
  {
    hide ValueLen, AfterValue, Same;
    SameBounds(s, t, k + 1);
    SeparatorCloses(s, v);
    SameTail(s, t, k + 1, v);
    SameAt(s, t, k + 1, v);
    ValueLocal(s, t);
    AfterLocal(s, t, k + 1, v);
    SameAt(s, t, k + 1, k);
    SamePrefix(s, t, v);
  }

  // ----- positions -----

  /** Where item i starts. */
  function StartOf(s: string, i: nat): (p: nat)
    requires i < |Items(s)|
    ensures p < |s|
    decreases |s|
  {
    ItemsHead(s);
    if i == 0 then 0
    else
      var m := NextAt(s, AfterValue(s, ValueLen(s)));
      m + StartOf(s[m..], i - 1)
  }

  lemma ItemsHead(s: string)
    requires Items(s) != []
    ensures ItemsLen(s) > 0 && 0 < ValueLen(s) <= |s|
    ensures var k := AfterValue(s, ValueLen(s));
            && k < |s|
            && Items(s) == [s[..ValueLen(s)]] + (if s[k] == ',' then Items(s[NextAt(s, k)..]) else [])
            && (s[k] != ',' ==> |Items(s)| == 1)
  {
    ItemsOpen(s);
  }

  function EndOf(s: string, i: nat): nat
    requires i < |Items(s)|
  {
    StartOf(s, i) + |Items(s)[i]|
  }

  lemma ShiftSpan(s: string, m: nat, p: nat, q: nat)
    requires p <= q && m + q <= |s|
    ensures s[m..][p..q] == s[m + p..m + q] && s[m..][p..] == s[m + p..]
  {
  }

  /** The span of item i is its text, and a value starts there. */
  lemma {:induction false} SpanIsItem(s: string, i: nat)
    requires i < |Items(s)|
    ensures EndOf(s, i) <= |s| && s[StartOf(s, i)..EndOf(s, i)] == Items(s)[i]
    decreases |s|
  {
    hide Items, ItemsLen, ValueLen, AfterValue, NextAt;
    ItemsHead(s);
    if i > 0 {
      var m := NextAt(s, AfterValue(s, ValueLen(s)));
      var t := s[m..];
      assert Items(s)[i] == Items(t)[i - 1];
      SpanIsItem(t, i - 1);
      ShiftSpan(s, m, StartOf(t, i - 1), EndOf(t, i - 1));
    }
  }

  // ----- splicing items out -----

  /** Keeping the first item and its comma, and putting other proper items behind it. */
  lemma Graft(s: string, rest: string)
    requires ItemsLen(s) > 0 && |Items(s)| > 1 && ItemsLen(rest) > 0
    ensures var m := NextAt(s, AfterValue(s, ValueLen(s)));
            var t := s[..m] + rest;
            ItemsLen(t) == m + ItemsLen(rest) && Items(t) == [Items(s)[0]] + Items(rest)
  {
    hide Items, ItemsLen, ValueLen, AfterValue, NextAt;
    ItemsHead(s);
    ItemsOpen(s);
    var v := ValueLen(s);
    var k := AfterValue(s, v);
    var m := NextAt(s, k);
    var t := s[..m] + rest;
    assert t[..m] == s[..m] && t[m..] == rest && Same(s, t, m);
    SameTail(s, t, m, k + 1);
    SameOpening(s, t, v, k);
    NextSkips(s, k);
    ItemsOpen(rest);
    ValueNotWs(rest);
    assert t[m] == rest[0] && forall i :: k < i < m ==> t[i] == s[i];
    NextExact(t, k, m);
    ItemsClose(t, v, k);
  }

  function WithoutInner(s: string, i: nat): string
    requires i + 1 < |Items(s)|
  {
    s[..StartOf(s, i)] + s[StartOf(s, i + 1)..]
  }

  function WithoutLast(s: string): string
    requires |Items(s)| > 1
  {
    SpanIsItem(s, |Items(s)| - 2);
    SpanIsItem(s, |Items(s)| - 1);
    s[..EndOf(s, |Items(s)| - 2)] + s[EndOf(s, |Items(s)| - 1)..]
  }

  lemma StartUnfold(s: string, i: nat)
    requires 0 < i < |Items(s)|
    ensures var m := NextAt(s, AfterValue(s, ValueLen(s)));
            && m <= |s| && Items(s)[1..] == Items(s[m..]) && i - 1 < |Items(s[m..])|
            && StartOf(s, i) == m + StartOf(s[m..], i - 1)
            && EndOf(s, i) == m + EndOf(s[m..], i - 1)
            && ItemsLen(s[m..]) > 0 && ItemsLen(s) == m + ItemsLen(s[m..])
  {
    hide Items, ItemsLen, ValueLen, AfterValue, NextAt;
    ItemsHead(s);
    ItemsOpen(s);
    var m := NextAt(s, AfterValue(s, ValueLen(s)));
    assert Items(s)[1..] == Items(s[m..]);
    assert Items(s)[i] == Items(s[m..])[i - 1];
  }

  lemma CutFirst(s: string)
    requires |Items(s)| > 1
    ensures StartOf(s, 0) == 0
    ensures var t := WithoutInner(s, 0);
            ItemsLen(t) == ItemsLen(s) - StartOf(s, 1) && ItemsLen(t) > 0 && Items(t) == Items(s)[1..]
  {
    hide Items, ItemsLen, ValueLen, AfterValue, NextAt;
    StartUnfold(s, 1);
    var r := s[NextAt(s, AfterValue(s, ValueLen(s)))..];
    assert StartOf(s, 0) == 0 && StartOf(r, 0) == 0;
    assert WithoutInner(s, 0) == r;
  }

  lemma CutShift(s: string, i: nat)
    requires 0 < i && i + 1 < |Items(s)|
    ensures var m := NextAt(s, AfterValue(s, ValueLen(s)));
            && m <= |s| && i < |Items(s[m..])| && WithoutInner(s, i) == s[..m] + WithoutInner(s[m..], i - 1)
  {
    hide Items, ItemsLen, ValueLen, AfterValue, NextAt;
    StartUnfold(s, i);
    StartUnfold(s, i + 1);
    var m := NextAt(s, AfterValue(s, ValueLen(s)));
    var p, q := StartOf(s[m..], i - 1), StartOf(s[m..], i);
    assert StartOf(s, i) == m + p && StartOf(s, i + 1) == m + q;
    SplitCut(s, m, p, q);
    hide StartOf;
  }

  /** Cutting from the start of an item to the start of the next one removes that item. */
  lemma {:induction false} CutInner(s: string, i: nat)
    requires i + 1 < |Items(s)|
    ensures var t := WithoutInner(s, i);
            && ItemsLen(t) == ItemsLen(s) - (StartOf(s, i + 1) - StartOf(s, i)) && ItemsLen(t) > 0
            && Items(t) == Items(s)[..i] + Items(s)[i + 1..]
    decreases |s|
  {
    hide Items, ItemsLen, ValueLen, AfterValue, NextAt, WithoutInner;
    if i == 0 {
      CutFirst(s);
      assert Items(s)[..0] + Items(s)[1..] == Items(s)[1..];
    } else {
      ItemsHead(s);
      StartUnfold(s, i);
      StartUnfold(s, i + 1);
      CutShift(s, i);
      hide StartOf;
      var r := s[NextAt(s, AfterValue(s, ValueLen(s)))..];
      CutInner(r, i - 1);
      Graft(s, WithoutInner(r, i - 1));
      DropSplit(Items(s), i);
    }
  }

  lemma SplitCut(s: string, m: nat, p: nat, q: nat)
    requires m + p <= |s| && m + q <= |s|
    ensures s[..m + p] + s[m + q..] == s[..m] + (s[m..][..p] + s[m..][q..])
  {
  }

  lemma DropSplit(list: seq<string>, i: nat)
    requires 0 < i < |list|
    ensures list[..i] + list[i + 1..] == [list[0]] + (list[1..][..i - 1] + list[1..][i..])
  {
  }

  /** Cutting from the end of the last item but one to the end of the last removes the last. */
  lemma {:induction false} CutLast(s: string)
    requires |Items(s)| > 1
    ensures var t := WithoutLast(s);
            var n := |Items(s)|;
            && ItemsLen(t) == ItemsLen(s) - (EndOf(s, n - 1) - EndOf(s, n - 2)) && ItemsLen(t) > 0
            && Items(t) == Items(s)[..n - 1]
    decreases |s|
  {
    hide Items, ItemsLen, ValueLen, AfterValue, NextAt;
    var n := |Items(s)|;
    ItemsHead(s);
    StartUnfold(s, n - 1);
    var m := NextAt(s, AfterValue(s, ValueLen(s)));
    var r := s[m..];
    if n == 2 {
      CutSecond(s);
    } else {
      StartUnfold(s, n - 2);
      CutLast(r);
      Graft(s, WithoutLast(r));
      SpanIsItem(r, n - 3);
      SpanIsItem(r, n - 2);
      SplitCut(s, m, EndOf(r, n - 3), EndOf(r, n - 2));
      assert Items(s)[..n - 1] == [Items(s)[0]] + Items(r)[..n - 2];
    }
  }

  /** The first value of s followed by what follows a value that closes an array. */
  lemma ValueThenClose(s: string, tail: string)
    requires ValueLen(s) > 0 && Ws(tail) < |tail| && tail[Ws(tail)] == ']'
    ensures var v := ValueLen(s);
            var t := s[..v] + tail;
            ItemsLen(t) == v + Ws(tail) + 1 && Items(t) == [s[..v]]
  {
    hide ValueLen, ItemsLen, Items, Ws;
    var v, w := ValueLen(s), Ws(tail);
    var t := s[..v] + tail;
    assert t[..v] == s[..v] && t[v..] == tail;
    assert AfterValue(t, v) == v + w && t[v + w] == ']';
    SeparatorCloses(t, v);
    ValueLocal(s, t);
    hide AfterValue;
    ItemsClose(t, v, v + w);
    assert [s[..v]] + [] == [s[..v]];
  }

  lemma ItemsNonEmpty(s: string)
    requires ItemsLen(s) > 0
    ensures Items(s) != []
  {
    ItemsUnfold(s);
  }

  /** A single item is followed by space and the bracket. */
  lemma OnlyItem(s: string)
    requires |Items(s)| == 1
    ensures var u := ValueLen(s);
            && 0 < u <= |s| && EndOf(s, 0) == u && Items(s)[0] == s[..u]
            && var tail := s[u..];
               Ws(tail) < |tail| && tail[Ws(tail)] == ']' && ItemsLen(s) == u + Ws(tail) + 1
  {
    hide Items, ItemsLen, ValueLen, NextAt;
    ItemsHead(s);
    ItemsOpen(s);
    var k := AfterValue(s, ValueLen(s));
    if s[k] == ',' { ItemsNonEmpty(s[NextAt(s, k)..]); }
  }

  lemma CutSecond(s: string)
    requires |Items(s)| == 2
    ensures var t := WithoutLast(s);
            && ItemsLen(t) == ItemsLen(s) - (EndOf(s, 1) - EndOf(s, 0)) && ItemsLen(t) > 0
            && Items(t) == Items(s)[..1]
  {
    hide Items, ItemsLen, ValueLen, NextAt, AfterValue;
    ItemsHead(s);
    StartUnfold(s, 1);
    var v := ValueLen(s);
    var m := NextAt(s, AfterValue(s, v));
    var r := s[m..];
    OnlyItem(r);
    var u := ValueLen(r);
    assert EndOf(s, 0) == v && EndOf(s, 1) == m + u;
    assert r[u..] == s[m + u..] && WithoutLast(s) == s[..v] + r[u..];
    hide StartOf, EndOf, WithoutLast;
    ValueThenClose(s, r[u..]);
    assert Items(s)[..1] == [s[..v]];
  }
}
