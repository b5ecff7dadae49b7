/** The byte-budgeted memory projection (runtime/memory.c): the newest messages win. The
    renderer writes pieces into a bounded buffer and fails as soon as one does not fit; the
    caller drops messages from the front until a render succeeds. */
module MemoryProjection {

  /** What one message contributes: its two rendered records, without separators, as byte
      counts; `escapes` is false when a field does not fit its escape buffer. */
  datatype Item = Item(full: nat, brief: nat, escapes: bool)

  /** Byte counts of the fixed parts: opening with both summaries, middle, end. */
  datatype Frame = Frame(head1: nat, head2: nat, middle: nat, close: nat, summariesEscape: bool)

  /** snprintf into the rest of the buffer: the text and its terminator have to fit. */
  predicate Room(pos: nat, n: nat, budget: nat) {
    pos < budget && n < budget - pos
  }

  function Separator(first: bool): nat { if first then 0 else 1 }

  /** Total bytes of one list: records joined by commas. */
  function ListBytes(sizes: seq<nat>): nat {
    if sizes == [] then 0
    else ListBytes(sizes[..|sizes| - 1]) + Separator(|sizes| == 1) + sizes[|sizes| - 1]
  }

  function FullSizes(items: seq<Item>): seq<nat> { seq(|items|, i requires 0 <= i < |items| => items[i].full) }

  function BriefSizes(items: seq<Item>): seq<nat> { seq(|items|, i requires 0 <= i < |items| => items[i].brief) }

  /** The length of the finished projection. */
  function TotalBytes(f: Frame, items: seq<Item>): nat {
    f.head1 + f.head2 + ListBytes(FullSizes(items)) + f.middle + ListBytes(BriefSizes(items)) + f.close
  }

  predicate AllEscape(items: seq<Item>) {
    forall i :: 0 <= i < |items| ==> items[i].escapes
  }

  predicate Renders(f: Frame, items: seq<Item>, budget: nat) {
    f.summariesEscape && AllEscape(items) && TotalBytes(f, items) < budget
  }

  /** Writes one list; ok is false when a record does not escape or does not fit. */
  method RenderList(items: seq<Item>, sizes: seq<nat>, at: nat, budget: nat) returns (ok: bool, pos: nat)
    requires |sizes| == |items| && at < budget
    ensures ok <==> AllEscape(items) && at + ListBytes(sizes) < budget
    ensures ok ==> pos == at + ListBytes(sizes)
  {
    pos := at;
    var i := 0;
    while i < |sizes|
      invariant 0 <= i <= |sizes|
      invariant forall k :: 0 <= k < i ==> items[k].escapes
      invariant pos == at + ListBytes(sizes[..i]) && pos < budget
    {
      assert sizes[..i + 1][..i] == sizes[..i];
      ListPrefix(sizes, i + 1);
      var n := Separator(i == 0) + sizes[i];
      if !items[i].escapes || !Room(pos, n, budget) { return false, pos; }
      pos := pos + n;
      i := i + 1;
    }
    assert sizes[..|sizes|] == sizes;
    ok := true;
  }

  /** One rendering attempt succeeds exactly when everything escapes and the whole text,
      with its terminator, fits the budget. */
  method RenderFrom(f: Frame, items: seq<Item>, start: nat, budget: nat) returns (ok: bool)
    requires start <= |items|
    ensures ok <==> Renders(f, items[start..], budget)
  {
    var shown := items[start..];
    if !f.summariesEscape || f.head1 >= budget { return false; }
    var pos := f.head1;
    if !Room(pos, f.head2, budget) { return false; }
    pos := pos + f.head2;
    ok, pos := RenderList(shown, FullSizes(shown), pos, budget);
    if !ok { return; }
    if !Room(pos, f.middle, budget) { return false; }
    pos := pos + f.middle;
    ok, pos := RenderList(shown, BriefSizes(shown), pos, budget);
    if !ok { return; }
    ok := Room(pos, f.close, budget);
  }

  lemma {:induction false} ListPrefix(sizes: seq<nat>, n: nat)
    requires n <= |sizes|
    ensures ListBytes(sizes[..n]) <= ListBytes(sizes)
    decreases |sizes|
  {
    if n < |sizes| {
      var m := sizes[..|sizes| - 1];
      ListPrefix(m, n);
      assert m[..n] == sizes[..n];
    } else {
      assert sizes[..n] == sizes;
    }
  }

  /** Dropping the first record never makes a list longer. */
  lemma {:induction false} ListSuffix(sizes: seq<nat>)
    requires sizes != []
    ensures ListBytes(sizes[1..]) <= ListBytes(sizes)
    decreases |sizes|
  {
    if |sizes| > 1 {
      var m, last := sizes[..|sizes| - 1], sizes[|sizes| - 1];
      ListSuffix(m);
      var t := sizes[1..];
      assert t[..|t| - 1] == m[1..] && t[|t| - 1] == last;
    } else {
      assert sizes[1..] == [];
    }
  }

  /** If a tail of the messages renders, every shorter tail renders. */
  lemma {:induction false} ShorterRenders(f: Frame, items: seq<Item>, budget: nat, a: nat, b: nat)
    requires a <= b <= |items| && Renders(f, items[a..], budget)
    ensures Renders(f, items[b..], budget)
    decreases b - a
  {
    if a < b {
      var s := items[a..];
      assert items[a + 1..] == s[1..];
      ListSuffix(FullSizes(s));
      ListSuffix(BriefSizes(s));
      assert FullSizes(s[1..]) == FullSizes(s)[1..] && BriefSizes(s[1..]) == BriefSizes(s)[1..];
      ShorterRenders(f, items, budget, a + 1, b);
    }
  }

  datatype Projection = NoProjection | From(start: nat)

  function First(count: nat, recentLimit: int): nat {
    var limit := if recentLimit < 1 then 20 else recentLimit;
    if count > limit then count - limit else 0
  }

  /** The projection shows the longest tail, of at most the recent limit, that fits the
      budget; it fails only when not even the empty tail does. */
  method RenderProjection(f: Frame, items: seq<Item>, recentLimit: int, outLen: nat, byteBudget: nat)
    returns (p: Projection)
    ensures var budget := if outLen < byteBudget then outLen else byteBudget;
            match p
            case From(s) =>
              && First(|items|, recentLimit) <= s <= |items|
              && (forall x: nat :: s <= x <= |items| ==> Renders(f, items[x..], budget))
              && (forall x: nat :: First(|items|, recentLimit) <= x < s ==> !Renders(f, items[x..], budget))
            case NoProjection => !Renders(f, [], budget)
  {
    var budget := if outLen < byteBudget then outLen else byteBudget;
    var start := First(|items|, recentLimit);
    while true
      invariant First(|items|, recentLimit) <= start <= |items|
      invariant forall x: nat :: First(|items|, recentLimit) <= x < start ==> !Renders(f, items[x..], budget)
      decreases |items| - start
    {
      var ok := RenderFrom(f, items, start, budget);
      if ok {
        forall x: nat | start <= x <= |items| ensures Renders(f, items[x..], budget) {
          ShorterRenders(f, items, budget, start, x);
        }
        return From(start);
      }
      if start >= |items| {
        assert items[start..] == [];
        return NoProjection;
      }
      start := start + 1;
    }
  }

  /** The choice is the only one: any tail that renders and whose extension does not, or that
      already has the recent limit, is the one shown. */
  lemma LongestIsUnique(f: Frame, items: seq<Item>, budget: nat, first: nat, s: nat, t: nat)
    requires first <= s <= |items| && first <= t <= |items|
    requires Renders(f, items[s..], budget) && (s > first ==> !Renders(f, items[s - 1..], budget))
    requires Renders(f, items[t..], budget) && (t > first ==> !Renders(f, items[t - 1..], budget))
    ensures s == t
  {
    if s < t { ShorterRenders(f, items, budget, s, t - 1); }
    if t < s { ShorterRenders(f, items, budget, t, s - 1); }
  }
}
