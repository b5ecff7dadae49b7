/** Enabling and disabling an action by editing the force_disable array in the raw text of
    the configuration (config_toggle_main and config_splice in runtime/config_cli.c). */
module ConfigSplice {
  import opened Wrappers
  import opened JsonText
  import opened JsonList
  import opened JsonString

  /** The buffer an entry is read into, the action cap, and the buffer an insertion is built in. */
  datatype Sizes = Sizes(entry: nat, items: nat, insert: nat)

  /** The entries of an array as the runtime reads them; None for what is not a short string. */
  function Entries(a: string, cap: nat): seq<Option<string>>
    requires a != ""
  {
    Decoded(ArrayItems(a), cap)
  }

  function Decoded(items: seq<string>, cap: nat): seq<Option<string>> {
    seq(|items|, i requires 0 <= i < |items| => Decode(items[i], cap))
  }

  /** The last entry that is id, or the length. */
  function LastMatch(entries: seq<Option<string>>, id: string): (m: nat)
    ensures m <= |entries|
    ensures m < |entries| ==> entries[m] == Some(id)
    ensures forall i :: 0 <= i < |entries| && entries[i] == Some(id) ==> i <= m < |entries|
  {
    if entries == [] then 0
    else if entries[|entries| - 1] == Some(id) then |entries| - 1
    else
      var k := LastMatch(entries[..|entries| - 1], id);
      if k < |entries| - 1 then k else |entries|
  }

  const INDENT: string := "\n    "

  /** Offset of the first item. */
  function Body(a: string): nat
    requires a != ""
  {
    NextAt(a, 0)
  }

  datatype Edit = Unchanged | Failed | Replaced(text: string)

  /** What the array text becomes. */
  function Toggled(a: string, id: string, disable: bool, sz: Sizes): Edit
    requires IsArray(a) && |ArrayItems(a)| <= sz.items
  {
    var n, m, w := |ArrayItems(a)|, LastMatch(Entries(a, sz.entry), id), Body(a);
    if disable then
      if m < n then Unchanged
      else if (if n == 0 then |id| + 4 else |id| + 8) >= sz.insert then Failed
      else if n == 0 then Replaced(['['] + Quoted(id) + [']'])
      else Replaced(['['] + (INDENT + Quoted(id) + [',']) + a[1..])
    else if m == n then Unchanged
    else if n == 1 then Replaced(['[', ']'])
    else if m < n - 1 then Replaced(a[..w] + WithoutInner(a[w..], m))
    else Replaced(a[..w] + WithoutLast(a[w..]))
  }

  /** Splicing [from, to) of the text. */
  function Spliced(text: string, from: nat, to: nat, repl: string): string
    requires from <= to <= |text|
  {
    text[..from] + repl + text[to..]
  }

  /** Reads the entries one by one; the last match wins. */
  method FindMatch(items: seq<string>, id: string, cap: nat) returns (found: nat)
    ensures found == LastMatch(Decoded(items, cap), id)
  {
    hide Decode, DecodeBody;
    ghost var entries := Decoded(items, cap);
    var i, n := 0, |items|;
    found := n;
    while i < n
      invariant 0 <= i <= n
      invariant found == (if LastMatch(entries[..i], id) < i then LastMatch(entries[..i], id) else n)
    {
      assert entries[..i + 1][..i] == entries[..i];
      if Decode(items[i], cap) == Some(id) { found := i; }
      i := i + 1;
    }
    assert entries[..n] == entries;
  }

  /** Splices at the spans of the items. */
  method ToggleArray(a: string, id: string, disable: bool, sz: Sizes) returns (e: Edit)
    requires IsArray(a) && |ArrayItems(a)| <= sz.items
    ensures e == Toggled(a, id, disable, sz)
  {
    hide Items, ItemsLen, ValueLen, AfterValue, NextAt, WithoutInner, WithoutLast, StartOf, LastMatch, Decode;
    var n := |ArrayItems(a)|;
    var found := FindMatch(ArrayItems(a), id, sz.entry);
    if disable {
      if found < n { return Unchanged; }
      if (if n == 0 then |id| + 4 else |id| + 8) >= sz.insert { return Failed; }
      if n == 0 {
        e := Replaced(Spliced(a, 0, |a|, ['['] + Quoted(id) + [']']));
      } else {
        FrontSplice(a, INDENT + Quoted(id) + [',']);
        e := Replaced(Spliced(a, 1, 1, INDENT + Quoted(id) + [',']));
      }
    } else {
      if found == n { return Unchanged; }
      if n == 1 { return Replaced(Spliced(a, 0, |a|, ['[', ']'])); }
      var w := Body(a);
      if found < n - 1 {
        SpliceInner(a, w, found);
        e := Replaced(Spliced(a, w + StartOf(a[w..], found), w + StartOf(a[w..], found + 1), ""));
      } else {
        SpliceLast(a, w);
        e := Replaced(Spliced(a, w + EndOf(a[w..], n - 2), w + EndOf(a[w..], n - 1), ""));
      }
    }
  }

  lemma FrontSplice(a: string, ins: string)
    requires a != "" && a[0] == '['
    ensures Spliced(a, 1, 1, ins) == ['['] + ins + a[1..]
  {
    assert a[..1] == ['['];
  }

  lemma SpliceInner(a: string, w: nat, m: nat)
    requires w <= |a| && m + 1 < |Items(a[w..])|
    ensures w + StartOf(a[w..], m) <= w + StartOf(a[w..], m + 1) <= |a|
    ensures Spliced(a, w + StartOf(a[w..], m), w + StartOf(a[w..], m + 1), "") == a[..w] + WithoutInner(a[w..], m)
  {
    hide Items, ItemsLen, ValueLen, AfterValue, NextAt, StartOf;
    var p, q := StartOf(a[w..], m), StartOf(a[w..], m + 1);
    StartsIncrease(a[w..], m);
    SplitCut(a, w, p, q);
    EmptySplice(a, w + p, w + q);
  }

  lemma EmptySplice(a: string, p: nat, q: nat)
    requires p <= q <= |a|
    ensures Spliced(a, p, q, "") == a[..p] + a[q..]
  {
  }

  lemma SpliceLast(a: string, w: nat)
    requires w <= |a| && |Items(a[w..])| > 1
    ensures var s := a[w..];
            var n := |Items(s)|;
            && EndOf(s, n - 2) <= EndOf(s, n - 1) && w + EndOf(s, n - 1) <= |a|
            && Spliced(a, w + EndOf(s, n - 2), w + EndOf(s, n - 1), "") == a[..w] + WithoutLast(s)
  {
    hide Items, ItemsLen, ValueLen, AfterValue, NextAt, StartOf;
    var s := a[w..];
    var n := |Items(s)|;
    SpanIsItem(s, n - 2);
    SpanIsItem(s, n - 1);
    EndsBeforeNext(s, n - 2);
    var p, q := EndOf(s, n - 2), EndOf(s, n - 1);
    assert WithoutLast(s) == s[..p] + s[q..];
    hide EndOf, WithoutLast;
    SplitCut(a, w, p, q);
    EmptySplice(a, w + p, w + q);
    hide Spliced;
  }

  lemma {:induction false} EndsBeforeNext(s: string, i: nat)
    requires i + 1 < |Items(s)|
    ensures EndOf(s, i) < StartOf(s, i + 1) < EndOf(s, i + 1)
    decreases |s|
  {
    hide Items, ItemsLen, ValueLen, AfterValue, NextAt;
    ItemsHead(s);
    StartUnfold(s, i + 1);
    var m := NextAt(s, AfterValue(s, ValueLen(s)));
    if i > 0 {
      StartUnfold(s, i);
      EndsBeforeNext(s[m..], i - 1);
    } else {
      ItemsHead(s[m..]);
    }
  }

  lemma StartsIncrease(s: string, i: nat)
    requires i + 1 < |Items(s)|
    ensures StartOf(s, i) < StartOf(s, i + 1)
  {
    EndsBeforeNext(s, i);
  }

  // ----- the edited array -----

  /** An array whose item part is replaced by other proper items. */
  lemma Rebodied(a: string, t: string)
    requires IsArray(a) && ArrayItems(a) != [] && ItemsLen(t) == |t| > 0
    ensures IsArray(a[..Body(a)] + t) && ArrayItems(a[..Body(a)] + t) == Items(t)
  {
    hide ValueLen, ItemsLen, Items, AfterValue;
    var w := Body(a);
    var b := a[..w] + t;
    NextSkips(a, 0);
    ItemsOpen(t);
    ValueNotWs(t);
    NotBracket(t);
    assert b[0] == '[' && b[w] == t[0] && b[w..] == t;
    OpenUnfold(b);
    hide NextAt;
    forall i | 0 < i < w ensures IsWs(b[i]) { assert b[i] == a[i]; }
    NextExact(b, 0, w);
  }

  lemma NotBracket(t: string)
    requires ValueLen(t) > 0
    ensures t[0] != ']' && t[0] != ','
  {
  }

  lemma ArrayBody(a: string)
    requires IsArray(a) && ArrayItems(a) != []
    ensures Body(a) < |a| && ItemsLen(a[Body(a)..]) == |a| - Body(a) && ArrayItems(a) == Items(a[Body(a)..])
  {
    OpenUnfold(a);
    hide ValueLen, ItemsLen, Items;
  }

  /** A new first item with its comma in front of the old items. */
  lemma Fronted(a: string, id: string)
    requires IsArray(a) && ArrayItems(a) != [] && Plain(id)
    ensures var b := ['['] + (INDENT + Quoted(id) + [',']) + a[1..];
            IsArray(b) && ArrayItems(b) == [Quoted(id)] + ArrayItems(a)
  {
    hide ValueLen, ItemsLen, Items, AfterValue, NextAt, ArrayItems;
    var q := Quoted(id);
    ItemsFronted(a, id);
    FrontedOpens(q + [','] + a[1..]);
    hide Quoted;
    Reassociate(INDENT, q, a[1..]);
  }

  lemma Reassociate(x: string, q: string, rest: string)
    ensures ['['] + (x + q + [',']) + rest == ['['] + x + (q + [','] + rest)
  {
  }

  lemma ItemsFronted(a: string, id: string)
    requires IsArray(a) && ArrayItems(a) != [] && Plain(id)
    ensures var t := Quoted(id) + [','] + a[1..];
            ItemsLen(t) == |t| && Items(t) == [Quoted(id)] + ArrayItems(a)
  {
    hide ValueLen, ItemsLen, Items, NextAt, AfterValue;
    ArrayBody(a);
    var w, q := Body(a), Quoted(id);
    var t := q + [','] + a[1..];
    assert t == q + ([','] + a[1..]) && t[|q|] == ',';
    QuotedLength(id, [','] + a[1..]);
    AfterExact(t, |q|, |q|);
    NextSkips(a, 0);
    assert forall i :: 0 < i < |a| ==> t[|q| + i] == a[i];
    NextExact(t, |q|, |q| + w);
    assert t[|q| + w..] == a[w..];
    ItemsClose(t, |q|, |q|);
    assert t[..|q|] == q;
  }

  lemma FrontedOpens(t: string)
    requires ItemsLen(t) == |t| > 0
    ensures var b := ['['] + INDENT + t;
            IsArray(b) && ArrayItems(b) == Items(t)
  {
    hide ValueLen, ItemsLen, Items, ArrayItems, IsArray, NextAt;
    IndentIsSpace();
    SpacedOpens(INDENT, t);
  }

  lemma IndentIsSpace()
    ensures forall i :: 0 <= i < |INDENT| ==> IsWs(INDENT[i])
  {
  }

  lemma SpacedSlices(x: string, t: string)
    requires t != ""
    ensures var b := ['['] + x + t;
            && |b| == 1 + |x| + |t| && b[0] == '[' && b[1 + |x|] == t[0] && b[1 + |x|..] == t
            && forall i :: 0 < i < 1 + |x| ==> b[i] == x[i - 1]
  {
  }

  lemma SpacedOpens(x: string, t: string)
    requires ItemsLen(t) == |t| > 0 && forall i :: 0 <= i < |x| ==> IsWs(x[i])
    ensures var b := ['['] + x + t;
            IsArray(b) && ArrayItems(b) == Items(t)
  {
    hide ValueLen, ItemsLen, Items, AfterValue, NextAt;
    var b := ['['] + x + t;
    var w := 1 + |x|;
    ItemsOpen(t);
    ValueNotWs(t);
    NotBracket(t);
    SpacedSlices(x, t);
    NextExact(b, 0, w);
    OpenUnfold(b);
  }

  lemma SoleItem(id: string)
    requires Plain(id)
    ensures var b := ['['] + Quoted(id) + [']'];
            IsArray(b) && ArrayItems(b) == [Quoted(id)]
  {
    var q := Quoted(id);
    var b, t := ['['] + q + [']'], q + [']'];
    QuotedLength(id, [']']);
    OpenUnfold(b);
    assert b[1..] == t && b[1] == '"';
    NextExact(b, 0, 1);
    ValueThenClose(t, [']']);
    assert t[..|q|] == q && Ws([']']) == 0;
    hide ValueLen, ItemsLen, Items;
  }

  lemma EmptyArray()
    ensures IsArray(['[', ']']) && ArrayItems(['[', ']']) == []
  {
    var b := ['[', ']'];
    OpenUnfold(b);
    NextExact(b, 0, 1);
    hide ValueLen;
  }

  // ----- enable and disable are list edits -----

  function Without<T>(s: seq<T>, i: nat): seq<T>
    requires i < |s|
  {
    s[..i] + s[i + 1..]
  }

  lemma DecodedSplit(items: seq<string>, cap: nat, i: nat)
    requires i < |items|
    ensures Decoded(items[..i] + items[i + 1..], cap) == Without(Decoded(items, cap), i)
  {
    hide Decode;
  }

  /** Enabling a listed id removes its last entry and leaves every other entry in place. */
  lemma EnableRemoves(a: string, id: string, sz: Sizes)
    requires IsArray(a) && |ArrayItems(a)| <= sz.items && Some(id) in Entries(a, sz.entry)
    ensures var e := Toggled(a, id, false, sz);
            var m := LastMatch(Entries(a, sz.entry), id);
            && m < |Entries(a, sz.entry)|
            && e.Replaced? && IsArray(e.text) && Entries(e.text, sz.entry) == Without(Entries(a, sz.entry), m)
  {
    hide Items, ItemsLen, ValueLen, AfterValue, NextAt, Decode, StartOf;
    var items, m := ArrayItems(a), LastMatch(Entries(a, sz.entry), id);
    var n, w := |items|, Body(a);
    var i :| 0 <= i < n && Entries(a, sz.entry)[i] == Some(id);
    hide LastMatch;
    DecodedSplit(items, sz.entry, m);
    if n == 1 {
      EmptyArray();
      assert Without(Entries(a, sz.entry), 0) == [];
    } else {
      ArrayBody(a);
      if m < n - 1 {
        CutInner(a[w..], m);
        InnerLength(a[w..], m);
        Rebodied(a, WithoutInner(a[w..], m));
      } else {
        CutLast(a[w..]);
        LastLength(a[w..]);
        Rebodied(a, WithoutLast(a[w..]));
        assert items[..m] + items[m + 1..] == items[..n - 1];
      }
      hide WithoutInner, WithoutLast, IsArray, ArrayItems;
    }
  }

  lemma InnerLength(s: string, i: nat)
    requires i + 1 < |Items(s)|
    ensures |WithoutInner(s, i)| == |s| - (StartOf(s, i + 1) - StartOf(s, i))
  {
  }

  lemma LastLength(s: string)
    requires |Items(s)| > 1
    ensures |WithoutLast(s)| == |s| - (EndOf(s, |Items(s)| - 1) - EndOf(s, |Items(s)| - 2))
  {
    hide Items, ItemsLen, ValueLen, AfterValue, NextAt, StartOf, EndOf;
    SpanIsItem(s, |Items(s)| - 2);
    SpanIsItem(s, |Items(s)| - 1);
  }

  /** Disabling an unlisted id puts it in front of the old entries. */
  lemma DisablePrepends(a: string, id: string, sz: Sizes)
    requires IsArray(a) && |ArrayItems(a)| <= sz.items && Some(id) !in Entries(a, sz.entry)
    requires Plain(id) && |id| < sz.entry && |id| + 8 < sz.insert
    ensures var e := Toggled(a, id, true, sz);
            e.Replaced? && IsArray(e.text) && Entries(e.text, sz.entry) == [Some(id)] + Entries(a, sz.entry)
  {
    hide Items, ItemsLen, ValueLen, AfterValue, NextAt, Decode, DecodeBody, LastMatch;
    var items := ArrayItems(a);
    QuotedDecodes(id, sz.entry);
    if items == [] {
      SoleItem(id);
    } else {
      Fronted(a, id);
    }
    hide IsArray, ArrayItems;
    DecodedFront(Quoted(id), items, sz.entry);
    assert [Quoted(id)] + [] == [Quoted(id)];
  }

  lemma DecodedFront(q: string, items: seq<string>, cap: nat)
    ensures Decoded([q] + items, cap) == [Decode(q, cap)] + Decoded(items, cap)
  {
    hide Decode;
  }

  /** Both directions are idempotent facts. */
  lemma ToggleIdempotent(a: string, id: string, disable: bool, sz: Sizes)
    requires IsArray(a) && |ArrayItems(a)| <= sz.items
    requires disable <==> Some(id) in Entries(a, sz.entry)
    ensures Toggled(a, id, disable, sz) == Unchanged
  {
    hide Items, ItemsLen, ValueLen, AfterValue, NextAt, Decode, WithoutInner, WithoutLast;
    var entries := Entries(a, sz.entry);
    if disable {
      var i :| 0 <= i < |entries| && entries[i] == Some(id);
    } else {
      var m := LastMatch(entries, id);
      assert m == |entries|;
    }
  }

  lemma FirstIsLast(entries: seq<Option<string>>, id: string)
    requires Some(id) !in entries
    ensures LastMatch([Some(id)] + entries, id) == 0
  {
    var t := [Some(id)] + entries;
    var m := LastMatch(t, id);
    assert t[0] == Some(id) && m < |t|;
    forall i | 0 < i < |t| ensures t[i] != Some(id) { assert t[i] == entries[i - 1] && entries[i - 1] in entries; }
  }

  // ----- the list in the whole file -----

  /** The offset of the value of a key among the members of an object. */
  function ValueOfKey(s: string, key: string, cap: nat): (r: Option<nat>)
    ensures r.Some? ==> r.value < |s|
    decreases |s|
  {
    var a := MemberValueAt(s);
    if a == 0 || Decode(s[..StringLen(s)], cap).None? then None
    else
      var v := ValueLen(s[a..]);
      if v == 0 then None
      else if Decode(s[..StringLen(s)], cap) == Some(key) then Some(a)
      else
        var k := AfterValue(s, a + v);
        if k == |s| || s[k] != ',' then None
        else
          var m := NextAt(s, k);
          var r := ValueOfKey(s[m..], key, cap);
          if r.None? then None else Some(m + r.value)
  }

  /** Replacing an array among the members by another array. */
  function WithArray(s: string, p: nat, v: nat, b: string): string
    requires p + v <= |s|
  {
    s[..p] + b + s[p + v..]
  }

  /** A member whose value starts where another text still agrees has the same key there. */
  lemma SameKey(s: string, t: string, n: nat, cap: nat)
    requires Same(s, t, n) && 0 < MemberValueAt(s) < n
    ensures MemberValueAt(t) == MemberValueAt(s)
    ensures StringLen(t) == StringLen(s) && t[..StringLen(s)] == s[..StringLen(s)]
  {
    MemberLocal(s, t, n);
    SameTail(s, t, n, StringLen(s));
    StringLocal(s, t);
    SamePrefix(s, t, StringLen(s));
  }

  lemma ArrayHere(b: string, rest: string)
    requires IsArray(b)
    ensures ValueLen(b + rest) == |b|
  {
    assert (b + rest)[..|b|] == b && b[..|b|] == b;
    OpenLocal(b, b + rest);
  }

  /** What follows a member's value: the closing brace, or a comma and more members. */
  function RestLen(rest: string): nat {
    var w := Ws(rest);
    if w == |rest| then 0
    else if rest[w] == '}' then w + 1
    else if rest[w] == ',' then Plus(NextAt(rest, w), MembersLen(rest[NextAt(rest, w)..]))
    else 0
  }

  lemma RestIs(s: string, p: nat)
    requires p <= |s|
    ensures RestLen(s[p..]) ==
            var k := AfterValue(s, p);
            if k == |s| then 0
            else if s[k] == '}' then k - p + 1
            else if s[k] == ',' then Plus(NextAt(s, k) - p, MembersLen(s[NextAt(s, k)..]))
            else 0
  {
    hide MembersLen, Ws;
    var rest, w := s[p..], Ws(s[p..]);
    if w < |rest| {
      assert rest[w] == s[p + w] && rest[w..] == s[p + w..];
      NextShift(s, rest, p + w, w);
      hide NextAt;
    }
  }

  lemma MembersVia(s: string)
    ensures var a := MemberValueAt(s);
            MembersLen(s) == if a == 0 || ValueLen(s[a..]) == 0 then 0
                             else Plus(a + ValueLen(s[a..]), RestLen(s[a + ValueLen(s[a..])..]))
  {
    hide ValueLen, MembersLen, MemberValueAt, Ws, AfterValue, NextAt, RestLen;
    MembersUnfold(s);
    var a := MemberValueAt(s);
    if a != 0 { RestIs(s, a + ValueLen(s[a..])); }
  }

  lemma ArraySlices(s: string, a: nat, v: nat, b: string)
    requires a + v <= |s| && v > 0 && b != "" && b[0] == s[a]
    ensures var t := WithArray(s, a, v, b);
            Same(s, t, a + 1) && t[a..] == b + s[a + v..] && t[a + |b|..] == s[a + v..] && |t| == |s| - v + |b|
  {
    var t := WithArray(s, a, v, b);
    assert t[..a + 1] == s[..a + 1];
  }

  /** The key's own member. */
  lemma ReplaceHere(s: string, b: string, key: string, cap: nat)
    requires MembersLen(s) > 0 && IsArray(b) && MemberValueAt(s) > 0
    requires Decode(s[..StringLen(s)], cap) == Some(key) && MemberValueAt(s) < |s| && s[MemberValueAt(s)] == '['
    ensures var a := MemberValueAt(s);
            var v := ValueLen(s[a..]);
            var t := WithArray(s, a, v, b);
            && ValueOfKey(t, key, cap) == Some(a) && a < |t| && ValueLen(t[a..]) == |b|
            && MembersLen(t) == MembersLen(s) - v + |b| && MembersLen(t) > 0
  {
    hide ValueLen, MembersLen, MemberValueAt, Decode, StringLen, RestLen, Same, AfterValue, NextAt;
    MembersVia(s);
    var a := MemberValueAt(s);
    var v := ValueLen(s[a..]);
    var t := WithArray(s, a, v, b);
    ArraySlices(s, a, v, b);
    hide WithArray;
    SameKey(s, t, a + 1, cap);
    ArrayHere(b, s[a + v..]);
    MembersVia(t);
    KeyUnfold(t, key, cap);
    hide ValueOfKey;
  }

  /** The member at the front, its comma, and where the next one starts. */
  ghost predicate Leads(s: string, a: nat, v: nat, k: nat, m: nat) {
    && 0 < a == MemberValueAt(s) && a <= |s| && 0 < v == ValueLen(s[a..])
    && k == AfterValue(s, a + v) < |s| && s[k] == ',' && m == NextAt(s, k)
  }

  /** Putting other members behind the first one leaves the first one as it was. */
  lemma LeadsAlike(s: string, r: string, a: nat, v: nat, k: nat, m: nat)
    requires Leads(s, a, v, k, m) && MembersLen(r) > 0
    ensures var t := s[..m] + r;
            && Leads(t, a, v, k, m) && t[m..] == r
            && StringLen(t) == StringLen(s) && t[..StringLen(s)] == s[..StringLen(s)]
  {
    hide ValueLen, MembersLen, MemberValueAt, StringLen, AfterValue, NextAt, Same;
    var t := s[..m] + r;
    SameSplit(s, r, m);
    SameBounds(s, t, m);
    SameKey(s, t, m, 0);
    SeparatorCloses(s, a + v);
    SameAt(s, t, m, a + v);
    SameTail(s, t, m, a);
    SameTail(s[a..], t[a..], m - a, v);
    ValueLocal(s[a..], t[a..]);
    AfterLocal(s, t, m, a + v);
    NextSkips(s, k);
    KeyNotWs(r);
    forall i | k < i < m ensures IsWs(t[i]) { SameAt(s, t, m, i); }
    NextExact(t, k, m);
  }

  /** A later member: everything before it is untouched. */
  lemma ReplaceLater(s: string, r: string, key: string, cap: nat, a: nat, v: nat, k: nat, m: nat)
    requires Leads(s, a, v, k, m) && MembersLen(r) > 0 && ValueOfKey(r, key, cap).Some?
    requires Decode(s[..StringLen(s)], cap).Some? && Decode(s[..StringLen(s)], cap) != Some(key)
    ensures var t := s[..m] + r;
            ValueOfKey(t, key, cap) == Some(m + ValueOfKey(r, key, cap).value) && MembersLen(t) == m + MembersLen(r)
  {
    hide ValueLen, MembersLen, MemberValueAt, Decode, StringLen, AfterValue, NextAt, ValueOfKey;
    var t := s[..m] + r;
    LeadsAlike(s, r, a, v, k, m);
    MembersUnfold(t);
    KeyUnfold(t, key, cap);
  }

  lemma SameSplit(s: string, r: string, m: nat)
    requires m <= |s|
    ensures Same(s, s[..m] + r, m) && (s[..m] + r)[m..] == r && (r != "" ==> (s[..m] + r)[m] == r[0])
  {
  }

  lemma KeyNotWs(r: string)
    requires MembersLen(r) > 0
    ensures r != "" && r[0] == '"'
  {
    MembersUnfold(r);
    hide ValueLen, MembersLen;
  }

  lemma {:induction false} KeyUnfold(s: string, key: string, cap: nat)
    requires MemberValueAt(s) > 0 && Decode(s[..StringLen(s)], cap).Some? && ValueLen(s[MemberValueAt(s)..]) > 0
    ensures ValueOfKey(s, key, cap) ==
            var a := MemberValueAt(s);
            if Decode(s[..StringLen(s)], cap) == Some(key) then Some(a)
            else
              var k := AfterValue(s, a + ValueLen(s[a..]));
              if k == |s| || s[k] != ',' then None
              else
                var r := ValueOfKey(s[NextAt(s, k)..], key, cap);
                if r.None? then None else Some(NextAt(s, k) + r.value)
  {
    hide ValueLen, MemberValueAt, Decode, StringLen, AfterValue, NextAt;
  }

  /** Replacing the array found under a key: the key is found at the same place, its value is
      the new array, and the object is still well-formed. */
  lemma {:induction false} ReplaceUnderKey(s: string, b: string, key: string, cap: nat)
    requires MembersLen(s) > 0 && IsArray(b) && ValueOfKey(s, key, cap).Some? && s[ValueOfKey(s, key, cap).value] == '['
    ensures var p := ValueOfKey(s, key, cap).value;
            var v := ValueLen(s[p..]);
            var t := WithArray(s, p, v, b);
            && ValueOfKey(t, key, cap) == Some(p) && p < |t| && ValueLen(t[p..]) == |b|
            && MembersLen(t) == MembersLen(s) - v + |b| && MembersLen(t) > 0
    decreases |s|
  {
    hide ValueLen, MembersLen, MemberValueAt, Decode, StringLen, AfterValue, NextAt, IsArray, ValueOfKey, WithArray;
    KeyDecodes(s, key, cap);
    KeyUnfold(s, key, cap);
    if Decode(s[..StringLen(s)], cap) == Some(key) {
      ReplaceHere(s, b, key, cap);
    } else {
      MembersUnfold(s);
      var a := MemberValueAt(s);
      var v := ValueLen(s[a..]);
      var k := AfterValue(s, a + v);
      var m := NextAt(s, k);
      var r := s[m..];
      var p := ValueOfKey(r, key, cap).value;
      ReplaceUnderKey(r, b, key, cap);
      var u := ValueLen(r[p..]);
      ReplaceLater(s, WithArray(r, p, u, b), key, cap, a, v, k, m);
      ShiftArray(s, m, p, u, b);
    }
  }

  lemma {:induction false} KeyDecodes(s: string, key: string, cap: nat)
    requires ValueOfKey(s, key, cap).Some?
    ensures MemberValueAt(s) > 0 && Decode(s[..StringLen(s)], cap).Some? && ValueLen(s[MemberValueAt(s)..]) > 0
  {
    hide ValueLen, MemberValueAt, Decode, StringLen, AfterValue, NextAt;
  }

  lemma ShiftArray(s: string, m: nat, p: nat, v: nat, b: string)
    requires m + p + v <= |s|
    ensures s[m..][p..] == s[m + p..]
    ensures WithArray(s, m + p, v, b) == s[..m] + WithArray(s[m..], p, v, b)
    ensures WithArray(s, m + p, v, b)[m + p..] == WithArray(s[m..], p, v, b)[p..]
  {
    var x, y := WithArray(s, m + p, v, b), WithArray(s[m..], p, v, b);
    assert x == s[..m] + y;
    assert x[m + p..] == y[p..];
  }

  /** Equal suffixes scan alike. */
  lemma NextShift(s: string, t: string, k: nat, l: nat)
    requires k < |s| && l < |t| && s[k..] == t[l..]
    ensures NextAt(t, l) - l == NextAt(s, k) - k && t[NextAt(t, l)..] == s[NextAt(s, k)..]
  {
    assert s[k + 1..] == s[k..][1..] && t[l + 1..] == t[l..][1..];
    var m := NextAt(s, k) - k;
    assert s[k + m..] == s[k..][m..] && t[l + m..] == t[l..][m..];
  }

  // ----- the whole file -----

  datatype Place = Nowhere | At(start: nat, length: nat)

  /** The first brace that opens a well-formed object. */
  function RootAt(text: string): (o: nat)
    ensures o <= |text|
  {
    if text == "" then 0
    else if text[0] == '{' && ValueLen(text) > 0 then 0
    else 1 + RootAt(text[1..])
  }

  /** Where the array under a key of the object x is. */
  function ArrayIn(x: string, key: string, cap: nat): (r: Place)
    requires x != ""
    ensures r.At? ==> r.start + r.length <= |x| && r.start < |x| && x[r.start] == '['
  {
    var w := NextAt(x, 0);
    if w == |x| || x[w] == '}' then Nowhere
    else
      var p := ValueOfKey(x[w..], key, cap);
      if p.None? || x[w + p.value] != '[' then Nowhere
      else At(w + p.value, ValueLen(x[w + p.value..]))
  }

  function ArrayAt(text: string, key: string, cap: nat): (r: Place)
    ensures r.At? ==> r.start + r.length <= |text|
  {
    var o := RootAt(text);
    if o == |text| then Nowhere
    else
      var r := ArrayIn(text[o..], key, cap);
      if r.Nowhere? then Nowhere else At(o + r.start, r.length)
  }

  /** Replacing the array inside its object. */
  lemma ReplaceInObject(x: string, b: string, key: string, cap: nat)
    requires x != "" && x[0] == '{' && ValueLen(x) > 0 && IsArray(b) && ArrayIn(x, key, cap).At?
    ensures var r := ArrayIn(x, key, cap);
            var y := WithArray(x, r.start, r.length, b);
            y != "" && y[0] == '{' && ValueLen(y) > 0 && ArrayIn(y, key, cap) == At(r.start, |b|)
  {
    hide ValueLen, MembersLen, NextAt, ValueOfKey, WithArray;
    OpenUnfold(x);
    var w := NextAt(x, 0);
    var s := x[w..];
    var p := ValueOfKey(s, key, cap).value;
    assert x[w + p..] == s[p..];
    var v := ValueLen(s[p..]);
    ReplaceUnderKey(s, b, key, cap);
    var t := WithArray(s, p, v, b);
    ShiftArray(x, w, p, v, b);
    var y := x[..w] + t;
    assert y == WithArray(x, w + p, v, b);
    ReopenedObject(x, t);
    assert y[w + p..] == t[p..] && y[w..] == t;
    ArrayStart(s, p, v, b);
    assert y[w + p] == t[p];
  }

  lemma ArrayStart(s: string, p: nat, v: nat, b: string)
    requires p + v <= |s| && b != ""
    ensures p < |WithArray(s, p, v, b)| && WithArray(s, p, v, b)[p] == b[0]
  {
  }

  lemma ReopenedObject(x: string, t: string)
    requires x != "" && x[0] == '{' && NextAt(x, 0) < |x| && MembersLen(t) > 0
    ensures var y := x[..NextAt(x, 0)] + t;
            y[0] == '{' && NextAt(y, 0) == NextAt(x, 0) && ValueLen(y) > 0 && y[NextAt(x, 0)] == '"'
  {
    hide ValueLen, MembersLen;
    var w := NextAt(x, 0);
    var y := x[..w] + t;
    KeyNotWs(t);
    NextSkips(x, 0);
    OpenUnfold(y);
    hide NextAt;
    assert y[0] == x[0] && y[w] == t[0] && y[w..] == t;
    forall i | 0 < i < w ensures IsWs(y[i]) { assert y[i] == x[i]; }
    NextExact(y, 0, w);
  }

  // ----- enable and disable on the file -----

  /** The root object is opened by the first brace of the text. */
  ghost predicate StartsWithRoot(text: string) {
    RootAt(text) < |text| && forall i :: 0 <= i < RootAt(text) ==> text[i] != '{'
  }

  lemma {:induction false} RootIs(text: string, o: nat)
    requires o < |text| && text[o] == '{' && ValueLen(text[o..]) > 0 && forall i :: 0 <= i < o ==> text[i] != '{'
    ensures RootAt(text) == o
  {
    hide ValueLen;
    if o > 0 {
      assert text[1..][o - 1..] == text[o..];
      RootIs(text[1..], o - 1);
    } else {
      assert text[0..] == text;
    }
  }

  lemma {:induction false} RootOpens(text: string)
    requires RootAt(text) < |text|
    ensures text[RootAt(text)] == '{' && ValueLen(text[RootAt(text)..]) > 0
  {
    hide ValueLen;
    if text[0] == '{' && ValueLen(text) > 0 {
      assert text[0..] == text;
    } else {
      RootOpens(text[1..]);
      assert text[1..][RootAt(text[1..])..] == text[RootAt(text)..];
    }
  }

  /** Splicing a new array over the old one: the file still has its root there, the array is
      found at the same place, and every byte outside the splice is as before. */
  lemma SpliceFile(text: string, b: string, key: string, cap: nat)
    requires StartsWithRoot(text) && ArrayAt(text, key, cap).At? && IsArray(b)
    ensures var r := ArrayAt(text, key, cap);
            var t := Spliced(text, r.start, r.start + r.length, b);
            && StartsWithRoot(t) && ArrayAt(t, key, cap) == At(r.start, |b|)
            && t[..r.start] == text[..r.start] && t[r.start..r.start + |b|] == b
            && t[r.start + |b|..] == text[r.start + r.length..]
  {
    SpliceKeepsRoot(text, b, key, cap);
    hide StartsWithRoot, ArrayAt, IsArray;
    var r := ArrayAt(text, key, cap);
    SpliceAround(text, r.start, r.length, b);
  }

  lemma SpliceKeepsRoot(text: string, b: string, key: string, cap: nat)
    requires StartsWithRoot(text) && ArrayAt(text, key, cap).At? && IsArray(b)
    ensures var r := ArrayAt(text, key, cap);
            var t := Spliced(text, r.start, r.start + r.length, b);
            StartsWithRoot(t) && ArrayAt(t, key, cap) == At(r.start, |b|)
  {
    hide ValueLen, ArrayIn, NextAt, RootAt, StartsWithRoot;
    var o := RootAt(text);
    assert o < |text| by { RootIsThere(text); }
    var x := text[o..];
    RootOpens(text);
    var r := ArrayIn(x, key, cap);
    ReplaceInObject(x, b, key, cap);
    SpliceInside(text, o, r.start, r.length, b);
    hide WithArray, Spliced, IsArray;
    SameRoot(text, Spliced(text, o + r.start, o + r.start + r.length, b), o);
  }

  lemma RootIsThere(text: string)
    requires StartsWithRoot(text)
    ensures RootAt(text) < |text|
  {
  }

  /** The root stays where it is if nothing before it changes. */
  lemma SameRoot(text: string, t: string, o: nat)
    requires StartsWithRoot(text) && RootAt(text) == o < |t| && forall i :: 0 <= i < o ==> t[i] == text[i]
    requires t[o] == '{' && ValueLen(t[o..]) > 0
    ensures StartsWithRoot(t) && RootAt(t) == o
  {
    hide ValueLen, RootAt;
    RootIs(t, o);
  }

  lemma SpliceAround(text: string, p: nat, v: nat, b: string)
    requires p + v <= |text|
    ensures var t := Spliced(text, p, p + v, b);
            t[..p] == text[..p] && t[p..p + |b|] == b && t[p + |b|..] == text[p + v..]
  {
  }

  lemma SpliceInside(text: string, o: nat, p: nat, v: nat, b: string)
    requires o + p + v <= |text| && b != ""
    ensures var t := Spliced(text, o + p, o + p + v, b);
            && o < |t| && t[o..] == WithArray(text[o..], p, v, b) && t[o] == t[o..][0]
            && (forall i :: 0 <= i < o ==> t[i] == text[i])
  {
    var t := Spliced(text, o + p, o + p + v, b);
    ShiftArray(text, o, p, v, b);
    assert t == WithArray(text, o + p, v, b);
    assert t[o..] == WithArray(text[o..], p, v, b);
  }

  /** The file is well-formed from its first brace on and holds an array under the key. */
  ghost predicate HasList(text: string, key: string, cap: nat) {
    StartsWithRoot(text) && ArrayAt(text, key, cap).At? && ArrayAt(text, key, cap).length > 0
  }

  function ArrayText(text: string, key: string, cap: nat): string {
    var r := ArrayAt(text, key, cap);
    if r.Nowhere? then "" else text[r.start..r.start + r.length]
  }

  /** The list a file holds under the key. */
  function ListIn(text: string, key: string, sz: Sizes, cap: nat): seq<Option<string>> {
    var a := ArrayText(text, key, cap);
    if a == "" then [] else Entries(a, sz.entry)
  }

  lemma FoundInObject(x: string, key: string, cap: nat)
    requires x != "" && ArrayIn(x, key, cap).At? && ArrayIn(x, key, cap).length > 0
    ensures var r := ArrayIn(x, key, cap); IsArray(x[r.start..r.start + r.length])
  {
    hide NextAt, ValueOfKey, ValueLen;
    var r := ArrayIn(x, key, cap);
    var s, v := x[r.start..], r.length;
    assert ValueLen(s) == v && s[0] == '[';
    hide ArrayIn;
    var a := s[..v];
    assert a[..v] == s[..v] && x[r.start..r.start + v] == a;
    OpenLocal(s, a);
  }

  /** The text of the found array is an array. */
  lemma FoundIsArray(text: string, key: string, cap: nat)
    requires HasList(text, key, cap)
    ensures IsArray(ArrayText(text, key, cap))
  {
    hide ArrayIn, RootAt, IsArray;
    var o := RootAt(text);
    var r := ArrayIn(text[o..], key, cap);
    FoundInObject(text[o..], key, cap);
    ShiftSpan(text, o, r.start, r.start + r.length);
  }

  /** The file after one toggle, for a file that has the list. */
  function FileToggled(text: string, id: string, disable: bool, key: string, sz: Sizes, cap: nat): string {
    var r, a := ArrayAt(text, key, cap), ArrayText(text, key, cap);
    if r.Nowhere? || !IsArray(a) || |ArrayItems(a)| > sz.items then text
    else
      var e := Toggled(a, id, disable, sz);
      if e.Replaced? then Spliced(text, r.start, r.start + r.length, e.text) else text
  }

  /** Nothing outside the array changes, and the array text becomes b. */
  ghost predicate OnlyArrayBecomes(text: string, t: string, b: string, key: string, cap: nat) {
    var r := ArrayAt(text, key, cap);
    && r.At? && HasList(t, key, cap) && ArrayText(t, key, cap) == b && ArrayAt(t, key, cap).start == r.start
    && r.start + |b| <= |t|
    && t[..r.start] == text[..r.start] && t[r.start + |b|..] == text[r.start + r.length..]
  }

  lemma SpliceBecomes(text: string, b: string, key: string, cap: nat)
    requires HasList(text, key, cap) && IsArray(b)
    ensures var r := ArrayAt(text, key, cap);
            OnlyArrayBecomes(text, Spliced(text, r.start, r.start + r.length, b), b, key, cap)
  {
    hide ArrayAt, StartsWithRoot, Spliced, IsArray;
    SpliceFile(text, b, key, cap);
    ArrayNotEmpty(b);
  }

  lemma ArrayNotEmpty(b: string)
    requires IsArray(b)
    ensures |b| > 0
  {
  }

  /** Disabling an unlisted id prepends it. */
  lemma DisableInFile(text: string, id: string, key: string, sz: Sizes, cap: nat)
    requires HasList(text, key, cap) && Some(id) !in ListIn(text, key, sz, cap)
    requires |ListIn(text, key, sz, cap)| <= sz.items && Plain(id) && |id| < sz.entry && |id| + 8 < sz.insert
    ensures var t := FileToggled(text, id, true, key, sz, cap);
            && OnlyArrayBecomes(text, t, ArrayText(t, key, cap), key, cap)
            && ListIn(t, key, sz, cap) == [Some(id)] + ListIn(text, key, sz, cap)
  {
    FoundIsArray(text, key, cap);
    hide HasList, ArrayAt, Toggled, OnlyArrayBecomes, ArrayItems;
    var a := ArrayText(text, key, cap);
    DisablePrepends(a, id, sz);
    SpliceBecomes(text, Toggled(a, id, true, sz).text, key, cap);
    BecomesText(text, FileToggled(text, id, true, key, sz, cap), Toggled(a, id, true, sz).text, key, cap);
  }

  lemma BecomesText(text: string, t: string, b: string, key: string, cap: nat)
    requires OnlyArrayBecomes(text, t, b, key, cap)
    ensures ArrayText(t, key, cap) == b && HasList(t, key, cap)
  {
  }

  /** Enabling a listed id removes its last entry; of a list without repeats, its only one. */
  lemma EnableInFile(text: string, id: string, key: string, sz: Sizes, cap: nat)
    requires HasList(text, key, cap) && Some(id) in ListIn(text, key, sz, cap)
    requires |ListIn(text, key, sz, cap)| <= sz.items
    ensures var t := FileToggled(text, id, false, key, sz, cap);
            var m := LastMatch(ListIn(text, key, sz, cap), id);
            && OnlyArrayBecomes(text, t, ArrayText(t, key, cap), key, cap)
            && m < |ListIn(text, key, sz, cap)|
            && ListIn(t, key, sz, cap) == Without(ListIn(text, key, sz, cap), m)
  {
    FoundIsArray(text, key, cap);
    hide HasList, ArrayAt, Toggled, OnlyArrayBecomes, ArrayItems, LastMatch;
    var a := ArrayText(text, key, cap);
    EnableRemoves(a, id, sz);
    SpliceBecomes(text, Toggled(a, id, false, sz).text, key, cap);
    BecomesText(text, FileToggled(text, id, false, key, sz, cap), Toggled(a, id, false, sz).text, key, cap);
  }

  /** Disabling an unlisted id and enabling it again gives the old list back. */
  lemma FileRoundTrip(text: string, id: string, key: string, sz: Sizes, cap: nat)
    requires HasList(text, key, cap) && Some(id) !in ListIn(text, key, sz, cap)
    requires |ListIn(text, key, sz, cap)| < sz.items && Plain(id) && |id| < sz.entry && |id| + 8 < sz.insert
    ensures var t := FileToggled(text, id, true, key, sz, cap);
            var u := FileToggled(t, id, false, key, sz, cap);
            HasList(u, key, cap) && ListIn(u, key, sz, cap) == ListIn(text, key, sz, cap)
  {
    hide FileToggled, ListIn, ArrayText;
    var was := ListIn(text, key, sz, cap);
    var t := FileToggled(text, id, true, key, sz, cap);
    DisableInFile(text, id, key, sz, cap);
    BecomesText(text, t, ArrayText(t, key, cap), key, cap);
    hide OnlyArrayBecomes, HasList;
    assert ListIn(t, key, sz, cap)[0] == Some(id);
    FirstIsLast(was, id);
    EnableInFile(t, id, key, sz, cap);
    var u := FileToggled(t, id, false, key, sz, cap);
    BecomesText(t, u, ArrayText(u, key, cap), key, cap);
    assert Without([Some(id)] + was, 0) == was;
  }

  // ----- no list yet -----

  /** The member that disable adds at the top of the root object when there is no list. */
  function NewMember(key: string, id: string): string {
    Quoted(key) + [':', ' '] + (['['] + Quoted(id) + [']']) + [',']
  }

  function WithNewList(x: string, key: string, id: string): string
    requires x != ""
  {
    ['{'] + (['\n', ' ', ' '] + (NewMember(key, id) + x[1..]))
  }

  /** A member with key text q and array arr in front of what follows the brace of x. */
  function Joined(q: string, arr: string, x: string): string
    requires x != ""
  {
    q + [':', ' '] + arr + [','] + x[1..]
  }

  function AfterArray(x: string): string
    requires x != ""
  {
    [','] + x[1..]
  }

  lemma MemberSlices(q: string, arr: string, x: string, w: nat)
    requires q != "" && arr != "" && 0 < w <= |x|
    ensures var s := Joined(q, arr, x);
            var n := |q| + 2 + |arr|;
            && |s| == n + |x| && s[0] == q[0]
            && s[|q|] == ':' && s[|q| + 1] == ' ' && s[|q| + 2] == arr[0] && s[|q| + 2..] == arr + AfterArray(x)
            && s[n] == ',' && (forall i :: 0 < i < |x| ==> s[n + i] == x[i])
            && s[n + w..] == x[w..]
  {
    var s := Joined(q, arr, x);
    var n := |q| + 2 + |arr|;
    assert s[n + w..] == x[w..];
  }

  lemma MemberLeads(q: string, arr: string, x: string)
    requires q != "" && arr != "" && arr[0] == '[' && x != "" && NextAt(x, 0) < |x|
    requires StringLen(Joined(q, arr, x)) == |q| && ValueLen(arr + AfterArray(x)) == |arr|
    ensures var s := Joined(q, arr, x);
            var k := |q| + 2 + |arr|;
            && Leads(s, |q| + 2, |arr|, k, k + NextAt(x, 0))
            && k + NextAt(x, 0) <= |s| && s[k + NextAt(x, 0)..] == x[NextAt(x, 0)..] && s[0] == q[0]
  {
    hide ValueLen, NextAt, AfterValue, StringLen, MemberValueAt, Leads, Joined, AfterArray;
    MemberSlices(q, arr, x, NextAt(x, 0));
    LeadsFrom(Joined(q, arr, x), |q|, |arr|, x);
  }

  lemma LeadsFrom(s: string, q: nat, v: nat, x: string)
    requires q > 0 && v > 0 && |s| == q + 2 + v + |x| && x != "" && NextAt(x, 0) < |x|
    requires s[q] == ':' && s[q + 1] == ' ' && s[q + 2] == '[' && s[q + 2 + v] == ','
    requires forall i :: 0 < i < |x| ==> s[q + 2 + v + i] == x[i]
    requires StringLen(s) == q && ValueLen(s[q + 2..]) == v
    ensures Leads(s, q + 2, v, q + 2 + v, q + 2 + v + NextAt(x, 0))
  {
    hide ValueLen, NextAt, AfterValue, StringLen, MemberValueAt;
    NextSkips(x, 0);
    AfterExact(s, q, q);
    NextExact(s, q, q + 2);
    KeyAndColon(s, q, q + 2);
    var k := q + 2 + v;
    AfterExact(s, k, k);
    forall i | k < i < k + NextAt(x, 0) ensures IsWs(s[i]) { assert s[k + (i - k)] == x[i - k]; }
    NextExact(s, k, k + NextAt(x, 0));
  }

  lemma LeadsMembers(s: string, a: nat, v: nat, k: nat, m: nat)
    requires Leads(s, a, v, k, m)
    ensures MembersLen(s) == Plus(m, MembersLen(s[m..]))
  {
    hide ValueLen, NextAt, AfterValue, MemberValueAt, MembersLen;
    MembersUnfold(s);
  }

  /** The added member is read as a member followed by a comma, and what comes next is the old
      object's first member, or its closing brace. */
  lemma NewMemberLeads(x: string, key: string, id: string)
    requires x != "" && Plain(key) && Plain(id) && NextAt(x, 0) < |x|
    ensures var s := NewMember(key, id) + x[1..];
            var k := |key| + |id| + 8;
            Leads(s, |key| + 4, |id| + 4, k, k + NextAt(x, 0)) && s[k + NextAt(x, 0)..] == x[NextAt(x, 0)..] && s[0] == '"'
  {
    hide ValueLen, NextAt, AfterValue, StringLen, BodyLen, MemberValueAt, Leads;
    var q, arr := Quoted(key), ['['] + Quoted(id) + [']'];
    assert Joined(q, arr, x) == NewMember(key, id) + x[1..];
    assert Joined(q, arr, x) == q + ([':', ' '] + arr + [','] + x[1..]);
    QuotedString(key, [':', ' '] + arr + [','] + x[1..]);
    SoleItem(id);
    hide Joined, NewMember;
    ArrayHere(arr, AfterArray(x));
    MemberLeads(q, arr, x);
  }

  lemma QuotedString(key: string, rest: string)
    requires Plain(key)
    ensures StringLen(Quoted(key) + rest) == |key| + 2
  {
    var s := Quoted(key) + rest;
    assert s[0] == '"' && s[1..] == key + (['"'] + rest);
    PlainBody(key, rest, 0, 0);
    hide BodyLen;
  }

  lemma KeyAndColon(s: string, q: nat, a: nat)
    requires StringLen(s) == q > 0 && AfterValue(s, q) == q < |s| && s[q] == ':' && NextAt(s, q) == a
    ensures MemberValueAt(s) == a
  {
    hide StringLen, NextAt;
  }

  /** Adding the list to a root object keeps the file well-formed exactly when the object has a
      member: behind an added member an empty object would need no comma. */
  lemma NewListNeedsMember(x: string, key: string, id: string)
    requires x != "" && x[0] == '{' && ValueLen(x) > 0 && Plain(key) && Plain(id)
    ensures NextAt(x, 0) < |x|
    ensures ValueLen(WithNewList(x, key, id)) > 0 <==> x[NextAt(x, 0)] != '}'
  {
    hide ValueLen, NextAt, AfterValue, StringLen, MembersLen, MemberValueAt, NewMember, Leads;
    OpenUnfold(x);
    var w, s, k := NextAt(x, 0), NewMember(key, id) + x[1..], |key| + |id| + 8;
    NewMemberLeads(x, key, id);
    LeadsMembers(s, |key| + 4, |id| + 4, k, k + w);
    NoMembersAtBrace(x[w..]);
    OpenSpaced(s);
  }

  lemma NoMembersAtBrace(s: string)
    requires s != ""
    ensures s[0] == '}' ==> MembersLen(s) == 0
  {
    MembersUnfold(s);
    hide MembersLen, ValueLen;
  }

  lemma OpenSpaced(s: string)
    requires s != "" && s[0] == '"'
    ensures ValueLen(['{'] + (['\n', ' ', ' '] + s)) == Plus(4, MembersLen(s))
  {
    hide ValueLen, MembersLen, NextAt;
    var y := ['{'] + (['\n', ' ', ' '] + s);
    assert y[0] == '{' && y[1] == '\n' && y[2] == ' ' && y[3] == ' ' && y[4] == '"' && y[4..] == s;
    NextExact(y, 0, 4);
    OpenUnfold(y);
  }
}
