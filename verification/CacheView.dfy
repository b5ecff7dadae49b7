/** Choosing the latest model calls to compare (runtime/cacheview.c): a bounded buffer that
    keeps the greatest orders seen, an in-place exchange sort, and the swap that puts a
    selected call first. */
module CacheView {
  import opened Wrappers

  datatype Req = Req(run: string, seqNo: int, order: int)

  // ----- the bounded buffer -----

  function OldestIndex(s: seq<Req>): (i: nat)
    requires s != []
    ensures i < |s|
    ensures forall j :: 0 <= j < |s| ==> s[i].order <= s[j].order
  {
    if |s| == 1 then 0
    else
      var i := OldestIndex(s[..|s| - 1]);
      if s[|s| - 1].order < s[i].order then |s| - 1 else i
  }

  function Kept(s: seq<Req>, limit: nat, c: Req): seq<Req>
    requires limit >= 1
  {
    if |s| < limit || s == [] then s + [c]
    else
      var i := OldestIndex(s);
      if c.order <= s[i].order then s else s[i := c]
  }

  function KeptOf(calls: seq<Req>, limit: nat): seq<Req>
    requires limit >= 1
  {
    if calls == [] then [] else Kept(KeptOf(calls[..|calls| - 1], limit), limit, calls[|calls| - 1])
  }

  method KeepLatest(reqs: array<Req>, count: nat, limit: nat, candidate: Req) returns (n: nat)
    requires 1 <= limit <= reqs.Length && count <= limit
    modifies reqs
    ensures n <= limit && reqs[..n] == Kept(old(reqs[..count]), limit, candidate)
  {
    var slot := count;
    n := count;
    if count < limit {
      n := count + 1;
    } else {
      var least, i := reqs[0].order, 1;
      slot := 0;
      assert reqs[..1] == [reqs[0]];
      while i < count
        invariant 1 <= i <= count
        invariant slot == OldestIndex(reqs[..i]) && least == reqs[slot].order
      {
        assert reqs[..i + 1][..i] == reqs[..i];
        if reqs[i].order < least {
          least := reqs[i].order;
          slot := i;
        }
        i := i + 1;
      }
      if candidate.order <= least { return; }
    }
    reqs[slot] := candidate;
  }

  /** kept holds min(k, all) of all, and nothing left out is newer than anything kept. */
  ghost predicate GreatestOf(kept: multiset<Req>, all: multiset<Req>, k: nat) {
    && kept <= all
    && |kept| == (if |all| < k then |all| else k)
    && forall x, y :: x in kept && y in all - kept ==> x.order >= y.order
  }

  lemma GreatestGrows(m: multiset<Req>, all: multiset<Req>, k: nat, c: Req)
    requires GreatestOf(m, all, k) && |m| < k
    ensures GreatestOf(m + multiset{c}, all + multiset{c}, k)
  {
    FullSubset(m, all);
  }

  lemma GreatestSkips(m: multiset<Req>, all: multiset<Req>, k: nat, c: Req)
    requires GreatestOf(m, all, k) && |m| >= k
    requires forall x :: x in m ==> c.order <= x.order
    ensures GreatestOf(m, all + multiset{c}, k)
  {
    forall y | y in all + multiset{c} - m ensures y in all - m || y == c {
    }
  }

  lemma GreatestReplaces(m: multiset<Req>, all: multiset<Req>, k: nat, o: Req, c: Req)
    requires GreatestOf(m, all, k) && |m| >= k && o in m && o.order < c.order
    requires forall x :: x in m ==> o.order <= x.order
    ensures GreatestOf(m - multiset{o} + multiset{c}, all + multiset{c}, k)
  {
    var t, a := m - multiset{o} + multiset{c}, all + multiset{c};
    forall x, y | x in t && y in a - t ensures x.order >= y.order {
      assert x in m || x == c;
      assert y in all - m || y == o;
    }
  }

  lemma KeptIsGreatest(s: seq<Req>, all: multiset<Req>, limit: nat, c: Req)
    requires limit >= 1 && GreatestOf(multiset(s), all, limit)
    ensures GreatestOf(multiset(Kept(s, limit, c)), all + multiset{c}, limit)
  {
    var m := multiset(s);
    if |s| < limit {
      assert multiset(s + [c]) == m + multiset{c};
      GreatestGrows(m, all, limit, c);
    } else {
      var i := OldestIndex(s);
      forall x | x in m ensures s[i].order <= x.order {
        assert x in s;
      }
      if c.order <= s[i].order {
        GreatestSkips(m, all, limit, c);
      } else {
        UpdateMultiset(s, i, c);
        GreatestReplaces(m, all, limit, s[i], c);
      }
      hide GreatestOf;
    }
  }

  lemma UpdateMultiset(s: seq<Req>, i: nat, c: Req)
    requires i < |s|
    ensures multiset(s[i := c]) == multiset(s) - multiset{s[i]} + multiset{c}
  {
  }

  lemma FullSubset(a: multiset<Req>, b: multiset<Req>)
    requires a <= b && |a| == |b|
    ensures a == b
  {
    assert b == a + (b - a);
    assert |b - a| == 0;
  }

  /** After any stream of calls the buffer is a multiset of the greatest orders seen. */
  lemma {:induction false} BufferHoldsGreatest(calls: seq<Req>, limit: nat)
    requires limit >= 1
    ensures GreatestOf(multiset(KeptOf(calls, limit)), multiset(calls), limit)
  {
    if calls != [] {
      var m, c := calls[..|calls| - 1], calls[|calls| - 1];
      assert calls == m + [c];
      BufferHoldsGreatest(m, limit);
      KeptIsGreatest(KeptOf(m, limit), multiset(m), limit, c);
      assert multiset(calls) == multiset(m) + multiset{c};
    }
  }

  // ----- sorting -----

  ghost predicate Descending(s: seq<Req>) {
    forall i, j :: 0 <= i < j < |s| ==> s[i].order >= s[j].order
  }

  lemma SwapPermutes(s: seq<Req>, i: nat, j: nat)
    requires i < j < |s|
    ensures multiset(s[i := s[j]][j := s[i]]) == multiset(s)
  {
  }

  method Swap(reqs: array<Req>, i: nat, j: nat)
    requires i < j < reqs.Length
    modifies reqs
    ensures reqs[..] == old(reqs[..])[i := old(reqs[j])][j := old(reqs[i])]
    ensures multiset(reqs[..]) == multiset(old(reqs[..]))
  {
    SwapPermutes(reqs[..], i, j);
    reqs[i], reqs[j] := reqs[j], reqs[i];
  }

  /** Everything before i is sorted and not older than anything from i on. */
  ghost predicate PrefixDone(s: seq<Req>, i: nat) {
    i <= |s| && forall a, b :: 0 <= a < i && a < b < |s| ==> s[a].order >= s[b].order
  }

  lemma SwapKeepsPrefix(s: seq<Req>, i: nat, j: nat)
    requires i < j < |s| && PrefixDone(s, i)
    ensures PrefixDone(s[i := s[j]][j := s[i]], i)
  {
  }

  method SortLatest(reqs: array<Req>)
    modifies reqs
    ensures Descending(reqs[..]) && multiset(reqs[..]) == multiset(old(reqs[..]))
  {
    var i := 0;
    while i < reqs.Length
      invariant 0 <= i <= reqs.Length
      invariant PrefixDone(reqs[..], i)
      invariant multiset(reqs[..]) == multiset(old(reqs[..]))
    {
      var j := i + 1;
      while j < reqs.Length
        invariant i < j <= reqs.Length
        invariant PrefixDone(reqs[..], i)
        invariant forall b :: i < b < j ==> reqs[i].order >= reqs[b].order
        invariant multiset(reqs[..]) == multiset(old(reqs[..]))
      {
        if reqs[j].order > reqs[i].order {
          SwapKeepsPrefix(reqs[..], i, j);
          Swap(reqs, i, j);
        }
        j := j + 1;
      }
      i := i + 1;
    }
  }

  // ----- the baseline -----

  predicate SameCall(a: Req, b: Req) { a.seqNo == b.seqNo && a.run == b.run }

  function FindRequest(s: seq<Req>, wanted: Req): (i: nat)
    ensures i <= |s|
    ensures i < |s| ==> SameCall(s[i], wanted)
    ensures forall j :: 0 <= j < i ==> !SameCall(s[j], wanted)
  {
    if s == [] then 0 else if SameCall(s[0], wanted) then 0 else 1 + FindRequest(s[1..], wanted)
  }

  /** No entry of s is older than x. */
  ghost predicate Oldest(s: seq<Req>, x: Req) {
    forall y :: y in s ==> x.order <= y.order
  }

  lemma LastIsOldest(s: seq<Req>)
    requires Descending(s) && s != []
    ensures Oldest(s, s[|s| - 1])
  {
    forall x | x in s ensures s[|s| - 1].order <= x.order {
      var i :| 0 <= i < |s| && s[i] == x;
    }
  }

  /** What putting the chosen call first does to the entries: nothing is lost if it was kept, and
      otherwise one entry, which was not the chosen call, gives way to it. */
  ghost predicate Replaces(before: seq<Req>, after: seq<Req>, selected: Req, gone: Req) {
    if FindRequest(before, selected) < |before| then multiset(after) == multiset(before)
    else gone in before && multiset(after) == multiset(before) - multiset{gone} + multiset{selected}
  }

  /** The chosen call comes first and the size is unchanged; if it was not kept, the last entry
      gives way, which in a sorted buffer is the oldest. */
  method MakeSelectedBaseline(reqs: array<Req>, selected: Req)
    modifies reqs
    ensures reqs.Length > 0 ==> SameCall(reqs[0], selected)
    ensures reqs.Length > 0 ==> var s := old(reqs[..]);
                                && Replaces(s, reqs[..], selected, s[|s| - 1])
                                && (Descending(s) ==> Oldest(s, s[|s| - 1]))
  {
    if reqs.Length == 0 { return; }
    ghost var s := reqs[..];
    var index := 0;
    while index < reqs.Length && !SameCall(reqs[index], selected)
      invariant 0 <= index <= reqs.Length
      invariant FindRequest(s, selected) == index + FindRequest(s[index..], selected)
    {
      assert s[index..][1..] == s[index + 1..];
      index := index + 1;
    }
    if index == reqs.Length {
      UpdateMultiset(s, |s| - 1, selected);
      index := reqs.Length - 1;
      reqs[index] := selected;
      assert reqs[..] == s[|s| - 1 := selected];
    }
    hide FindRequest;
    if index > 0 { Swap(reqs, 0, index); }
    if Descending(s) { LastIsOldest(s); }
  }

  lemma {:induction false} FoundExactly(s: seq<Req>, wanted: Req)
    ensures FindRequest(s, wanted) < |s| <==> exists x :: x in s && SameCall(x, wanted)
  {
    hide FindRequest;
    var i := FindRequest(s, wanted);
    if i < |s| { assert s[i] in s; }
  }

  /** Sorting and then putting the chosen call first: it leads, and only the oldest entry can
      give way, exactly when the chosen call was not among the entries. */
  method Arrange(reqs: array<Req>, selected: Option<Req>)
    modifies reqs
    ensures selected.None? ==> Descending(reqs[..]) && multiset(reqs[..]) == multiset(old(reqs[..]))
    ensures selected.Some? && reqs.Length > 0 ==>
              && SameCall(reqs[0], selected.value)
              && exists gone :: Oldest(old(reqs[..]), gone) && Replaces(old(reqs[..]), reqs[..], selected.value, gone)
  {
    ghost var s := reqs[..];
    SortLatest(reqs);
    if selected.Some? {
      ghost var sorted := reqs[..];
      MakeSelectedBaseline(reqs, selected.value);
      SortedAlike(s, sorted, reqs[..], selected.value);
    }
  }

  lemma SortedAlike(s: seq<Req>, sorted: seq<Req>, after: seq<Req>, selected: Req)
    requires multiset(s) == multiset(sorted)
    ensures sorted != [] && Oldest(sorted, sorted[|sorted| - 1]) && Replaces(sorted, after, selected, sorted[|sorted| - 1])
            ==> Oldest(s, sorted[|sorted| - 1]) && Replaces(s, after, selected, sorted[|sorted| - 1])
  {
    hide FindRequest;
    FoundExactly(s, selected);
    FoundExactly(sorted, selected);
    assert forall x :: x in s <==> x in multiset(s);
    assert forall x :: x in sorted <==> x in multiset(sorted);
    if sorted != [] { assert sorted[|sorted| - 1] in sorted; }
  }
}
