/** What every call, and every run of calls, keeps in the operation store. */
module OperationStoreLaws {
  import opened OperationStore

  datatype Lookup = Missing | Found(record: Operation)

  function Get(items: seq<Operation>, h: string): Lookup {
    var i := IndexOf(items, h);
    if i < |items| then Found(items[i]) else Missing
  }

  ghost predicate ValidStore(items: seq<Operation>, maxItems: nat) {
    && |items| <= maxItems
    && DistinctHandles(items)
    && forall i :: 0 <= i < |items| ==> items[i].handle != "" && SealedIfFinished(items[i])
  }

  predicate SealedIfFinished(o: Operation) {
    o.status.Finished? ==> o.token == "" && o.deadlineMs == 0
  }

  // ----- eviction: which records go, and that the rest keep their order -----

  function Select(items: seq<Operation>, s: Status): seq<Operation> {
    if items == [] then []
    else (if items[0].status == s then [items[0]] else []) + Select(items[1..], s)
  }

  lemma SelectCons(o: Operation, rest: seq<Operation>, s: Status)
    ensures Select([o] + rest, s) == (if o.status == s then [o] else []) + Select(rest, s)
  {
    assert ([o] + rest)[1..] == rest;
  }

  lemma {:induction false} DropSelects(items: seq<Operation>, k: nat)
    requires k <= FinishedCount(items)
    ensures FinishedCount(items) == |Select(items, Finished)|
    ensures Select(DropFinished(items, k), Running) == Select(items, Running)
    ensures Select(DropFinished(items, k), Finished) == Select(items, Finished)[k..]
  {
    if items == [] {
    } else if k == 0 {
      DropSelects(items[1..], 0);
    } else if items[0].status.Finished? {
      DropSelects(items[1..], k - 1);
      assert Select(items, Finished) == [items[0]] + Select(items[1..], Finished);
      assert ([items[0]] + Select(items[1..], Finished))[k..] == Select(items[1..], Finished)[k - 1..];
    } else {
      DropSelects(items[1..], k);
      var rest := DropFinished(items[1..], k);
      SelectCons(items[0], rest, Running);
      SelectCons(items[0], rest, Finished);
      assert Select(items, Finished) == [] + Select(items[1..], Finished) == Select(items[1..], Finished);
    }
  }

  /** `part` can be got from `whole` by leaving elements out. */
  ghost predicate Subsequence(part: seq<Operation>, whole: seq<Operation>) {
    || part == []
    || (whole != [] && part[0] == whole[0] && Subsequence(part[1..], whole[1..]))
    || (whole != [] && Subsequence(part, whole[1..]))
  }

  lemma {:induction false} DropSubsequence(items: seq<Operation>, k: nat)
    ensures Subsequence(DropFinished(items, k), items)
  {
    if items != [] {
      if k == 0 {
        DropSubsequence(items[1..], 0);
      } else if items[0].status.Finished? {
        DropSubsequence(items[1..], k - 1);
      } else {
        DropSubsequence(items[1..], k);
        var r := DropFinished(items, k);
        assert r[0] == items[0] && r[1..] == DropFinished(items[1..], k);
      }
    }
  }

  /** Purging keeps every running record, keeps exactly the last `cap` finished
      ones, and keeps the order of what stays. */
  lemma PurgeDropsEarliest(items: seq<Operation>, cap: nat)
    ensures Select(Purged(items, cap), Running) == Select(items, Running)
    ensures var f := Select(items, Finished);
            Select(Purged(items, cap), Finished) == if |f| > cap then f[|f| - cap..] else f
    ensures Subsequence(Purged(items, cap), items)
  {
    DropSelects(items, Excess(items, cap));
    DropSubsequence(items, Excess(items, cap));
  }

  lemma {:induction false} DropMembers(items: seq<Operation>, k: nat)
    ensures forall o :: o in DropFinished(items, k) ==> o in items
    ensures forall o :: o in items && o.status.Running? ==> o in DropFinished(items, k)
    ensures |DropFinished(items, k)| <= |items|
    ensures DistinctHandles(items) ==> DistinctHandles(DropFinished(items, k))
  {
    if items != [] && k != 0 {
      var k' := if items[0].status.Finished? then k - 1 else k;
      var rest := DropFinished(items[1..], k');
      DropMembers(items[1..], k');
      if DistinctHandles(items) {
        forall o | o in rest ensures o.handle != items[0].handle {
          var j :| 0 <= j < |items[1..]| && items[1..][j] == o;
          assert items[j + 1] == o;
        }
      }
    }
  }

  lemma {:induction false} CountSplit(items: seq<Operation>, i: nat)
    requires i <= |items|
    ensures FinishedCount(items) == FinishedCount(items[..i]) + FinishedCount(items[i..])
  {
    if i > 0 {
      CountSplit(items[1..], i - 1);
      assert items[..i][1..] == items[1..][..i - 1];
    } else {
      assert items[..0] == [] && items[0..] == items;
    }
  }

  lemma {:induction false} DropKeepsAt(items: seq<Operation>, i: nat, k: nat)
    requires i < |items| && items[i].status.Finished? && DistinctHandles(items)
    ensures Holds(DropFinished(items, k), items[i].handle) <==> FinishedCount(items[..i]) >= k
  {
    if k == 0 {
      assert Holds(items, items[i].handle);
    } else if i == 0 {
      DropMembers(items[1..], k - 1);
      var d := DropFinished(items[1..], k - 1);
      assert items[..0] == [];
      forall j | 0 <= j < |d| ensures d[j].handle != items[0].handle {
        assert d[j] in items[1..];
        var n :| 0 <= n < |items[1..]| && items[1..][n] == d[j];
        assert items[n + 1] == d[j];
      }
    } else {
      var k' := if items[0].status.Finished? then k - 1 else k;
      var rest := DropFinished(items[1..], k');
      DropKeepsAt(items[1..], i - 1, k');
      assert items[..i][1..] == items[1..][..i - 1];
      if items[0].status.Running? {
        HoldsCons(items[0], rest, items[i].handle);
      }
    }
  }

  lemma HoldsCons(o: Operation, rest: seq<Operation>, h: string)
    requires o.handle != h
    ensures Holds([o] + rest, h) <==> Holds(rest, h)
  {
    if Holds(rest, h) {
      var j :| 0 <= j < |rest| && rest[j].handle == h;
      assert ([o] + rest)[j + 1].handle == h;
    }
    if Holds([o] + rest, h) {
      var j :| 0 <= j < |[o] + rest| && ([o] + rest)[j].handle == h;
      assert rest[j - 1].handle == h;
    }
  }

  /** The survival window, exactly: the record that finishes stays if and only if
      fewer than `cap` finished records stand after it in the table. How recently
      the others finished plays no part. */
  lemma FinishedRecordSurvives(items: seq<Operation>, i: nat, cap: nat)
    requires DistinctHandles(items) && i < |items| && items[i].status.Running?
    ensures Holds(Purged(items[i := Sealed(items[i])], cap), items[i].handle)
            <==> FinishedCount(items[i + 1..]) < cap
  {
    var after := items[i := Sealed(items[i])];
    CountSplit(after, i);
    assert after[i..][1..] == items[i + 1..];
    DropKeepsAt(after, i, Excess(after, cap));
  }

  /** So an early starter can be evicted by its own finish while a record that
      finished before it stays. */
  lemma EarlyStarterEvictedAtFinish(early: Operation, late: Operation)
    requires early.status.Running? && late.status.Finished? && early.handle != late.handle
    ensures Purged([early, late][0 := Sealed(early)], 1) == [late]
  {
    var t := [Sealed(early), late];
    assert [early, late][0 := Sealed(early)] == t;
    assert t[1..] == [late] && [late][1..] == [];
    assert FinishedCount([late]) == 1 && FinishedCount(t) == 2;
    assert DropFinished(t, 1) == DropFinished(t[1..], 0);
  }

  // ----- one call -----

  predicate Finishes(op: StoreOp, h: string) {
    match op
    case ApplyResult(p) => p.handle == h
    case CloseWithoutResult(x) => x == h
    case _ => false
  }

  predicate Creates(op: StoreOp, h: string) {
    match op
    case ApplyStarted(p) => p.handle == h
    case ApplyResult(p) => p.handle == h
    case _ => false
  }

  predicate SameCorrelation(a: Operation, b: Operation) {
    a.handle == b.handle && a.identity == b.identity && a.route == b.route
  }

  /** All that one call can do to the record of h. */
  predicate Allowed(before: Lookup, after: Lookup, op: StoreOp, h: string) {
    match before
    case Missing =>
      after.Found? ==> Creates(op, h) && (after.record.status.Running? ==> op.ApplyStarted?)
    case Found(o) =>
      if o.status.Finished? then after == Missing || after == before
      else if Finishes(op, h) then after == Missing || after == before || after == Found(Sealed(o))
      else && after.Found? && SameCorrelation(o, after.record)
           && after.record.status.Running? && after.record.deadlineMs == o.deadlineMs
           && (after.record != o ==> op.WriteField? && op.handle == h)
  }

  lemma {:induction false} IndexOfUnique(items: seq<Operation>, i: nat)
    requires DistinctHandles(items) && i < |items| && items[i].handle != ""
    ensures IndexOf(items, items[i].handle) == i
  {
    var j := IndexOf(items, items[i].handle);
    assert !(i < j) && !(j < i);
  }

  lemma GetMember(items: seq<Operation>, o: Operation)
    requires DistinctHandles(items) && o in items && o.handle != ""
    ensures Get(items, o.handle) == Found(o)
  {
    var i :| 0 <= i < |items| && items[i] == o;
    IndexOfUnique(items, i);
  }

  lemma {:induction false} GetNone(items: seq<Operation>, h: string)
    requires forall o :: o in items ==> o.handle != h
    ensures Get(items, h) == Missing
  {
    if items != [] {
      assert items[0] in items;
      forall o | o in items[1..] ensures o.handle != h { assert o in items; }
      GetNone(items[1..], h);
    }
  }

  /** Dropping finished records can lose a finished record, never change one. */
  lemma GetDropped(items: seq<Operation>, k: nat, h: string)
    requires DistinctHandles(items) && h != ""
    ensures match Get(items, h)
            case Missing => Get(DropFinished(items, k), h) == Missing
            case Found(o) => || Get(DropFinished(items, k), h) == Found(o)
                             || (o.status.Finished? && Get(DropFinished(items, k), h) == Missing)
  {
    DropMembers(items, k);
    var rest := DropFinished(items, k);
    match Get(items, h)
    case Missing =>
      forall o | o in rest ensures o.handle != h {
        var j :| 0 <= j < |items| && items[j] == o;
      }
      GetNone(rest, h);
    case Found(o) =>
      assert items[IndexOf(items, h)] in items;
      if o in rest {
        GetMember(rest, o);
      } else {
        forall x | x in rest ensures x.handle != h {
          var j :| 0 <= j < |items| && items[j] == x;
        }
        GetNone(rest, h);
      }
  }

  /** Replacing the record at i, keeping its handle, touches no other lookup. */
  lemma GetUpdated(items: seq<Operation>, i: nat, o: Operation, h: string)
    requires DistinctHandles(items) && i < |items| && o.handle == items[i].handle != ""
    ensures DistinctHandles(items[i := o])
    ensures Get(items[i := o], h) == if h == o.handle then Found(o) else Get(items, h)
  {
    var t := items[i := o];
    SameHandles(items, t, h);
    IndexOfUnique(t, i);
  }

  lemma {:induction false} SameHandles(a: seq<Operation>, b: seq<Operation>, h: string)
    requires |a| == |b| && forall i :: 0 <= i < |a| ==> a[i].handle == b[i].handle
    ensures IndexOf(a, h) == IndexOf(b, h)
  {
    if a != [] {
      SameHandles(a[1..], b[1..], h);
    }
  }

  lemma GetAppended(items: seq<Operation>, o: Operation, h: string)
    requires DistinctHandles(items) && o.handle != "" && IndexOf(items, o.handle) == |items|
    ensures DistinctHandles(items + [o])
    ensures Get(items + [o], h) == if h == o.handle then Found(o) else Get(items, h)
  {
    var t := items + [o];
    assert forall j :: 0 <= j < |items| ==> items[j].handle != o.handle;
    IndexOfAppended(items, o, h);
  }

  lemma {:induction false} IndexOfAppended(items: seq<Operation>, o: Operation, h: string)
    ensures IndexOf(items + [o], h) == if IndexOf(items, h) < |items| || (h != "" && h == o.handle)
                                       then IndexOf(items, h) else |items| + 1
  {
    if items == [] {
      assert [o][1..] == [];
    } else {
      IndexOfAppended(items[1..], o, h);
      assert (items + [o])[1..] == items[1..] + [o];
    }
  }

  lemma RemovedIsDropped(items: seq<Operation>)
    requires FirstFinished(items) < |items|
    ensures RemoveAt(items, FirstFinished(items)) == DropFinished(items, 1)
  {
    CountSplit(items, FirstFinished(items));
    DropOne(items, 1);
  }

  /** Every call keeps the store valid and treats every handle as Allowed says. */
  lemma CallAllowed(items: seq<Operation>, c: Call, maxItems: nat, h: string)
    requires ValidStore(items, maxItems) && h != ""
    ensures ValidStore(Next(items, c, maxItems), maxItems)
    ensures Allowed(Get(items, h), Get(Next(items, c, maxItems), h), c.op, h)
  {
    if !c.durable {
      assert Next(items, c, maxItems) == items;
    } else {
      match c.op
      case ApplyStarted(p) => StartedAllowed(items, p, maxItems, c.cap, h);
      case ApplyResult(p) => ResultAllowed(items, p, maxItems, c.cap, h);
      case WriteField(x, patch) => WriteAllowed(items, x, patch, maxItems, h);
      case CloseWithoutResult(x) =>
        var i := IndexOf(items, x);
        if i < |items| && items[i].status.Running? {
          SealAllowed(items, i, maxItems, c.cap, h);
        }
    }
  }

  lemma WriteAllowed(items: seq<Operation>, x: string, patch: Patch, maxItems: nat, h: string)
    requires ValidStore(items, maxItems) && h != ""
    ensures ValidStore(Written(items, x, patch).1, maxItems)
    ensures Allowed(Get(items, h), Get(Written(items, x, patch).1, h), WriteField(x, patch), h)
  {
    var i := IndexOf(items, x);
    if i < |items| && items[i].status.Running? {
      GetUpdated(items, i, Patched(items[i], patch), h);
    }
  }

  lemma PurgedValid(items: seq<Operation>, cap: nat, maxItems: nat)
    requires ValidStore(items, maxItems)
    ensures ValidStore(Purged(items, cap), maxItems)
  {
    DropMembers(items, Excess(items, cap));
    var r := Purged(items, cap);
    forall i | 0 <= i < |r| ensures r[i].handle != "" && SealedIfFinished(r[i]) {
      assert r[i] in items;
    }
  }

  lemma SealAllowed(items: seq<Operation>, i: nat, maxItems: nat, cap: nat, h: string)
    requires ValidStore(items, maxItems) && h != ""
    requires i < |items| && items[i].status.Running?
    ensures var r := Purged(items[i := Sealed(items[i])], cap);
            && ValidStore(r, maxItems)
            && (h == items[i].handle ==> Get(r, h) == Missing || Get(r, h) == Found(Sealed(items[i])))
            && (h != items[i].handle ==> Get(r, h) == Get(items, h) ||
                                         (Get(r, h) == Missing && Get(items, h).record.status.Finished?))
  {
    var t := items[i := Sealed(items[i])];
    GetUpdated(items, i, Sealed(items[i]), h);
    PurgedValid(t, cap, maxItems);
    GetDropped(t, Excess(t, cap), h);
  }

  lemma AppendAllowed(items: seq<Operation>, o: Operation, maxItems: nat, cap: nat, h: string)
    requires ValidStore(items, maxItems) && |items| < maxItems && h != ""
    requires o.handle != "" && IndexOf(items, o.handle) == |items| && SealedIfFinished(o)
    ensures var r := Purged(items + [o], cap);
            && ValidStore(r, maxItems)
            && (h == o.handle ==> Get(r, h) == Found(o) || (o.status.Finished? && Get(r, h) == Missing))
            && (h != o.handle ==> Get(r, h) == Get(items, h) ||
                                  (Get(items, h).Found? && Get(items, h).record.status.Finished? && Get(r, h) == Missing))
  {
    var t := items + [o];
    GetAppended(items, o, h);
    PurgedValid(t, cap, maxItems);
    GetDropped(t, Excess(t, cap), h);
  }

  lemma StartedAllowed(items: seq<Operation>, p: Payload, maxItems: nat, cap: nat, h: string)
    requires ValidStore(items, maxItems) && h != ""
    ensures ValidStore(Started(items, p, maxItems, cap).1, maxItems)
    ensures Allowed(Get(items, h), Get(Started(items, p, maxItems, cap).1, h), ApplyStarted(p), h)
  {
    if p.handle != "" && IndexOf(items, p.handle) == |items| {
      if |items| < maxItems {
        AppendAllowed(items, NewRecord(p, Running), maxItems, cap, h);
      } else if FirstFinished(items) < |items| {
        RemovedIsDropped(items);
        var room := DropFinished(items, 1);
        DropMembers(items, 1);
        GetDropped(items, 1, h);
        GetDropped(items, 1, p.handle);
        forall i | 0 <= i < |room| ensures room[i].handle != "" && SealedIfFinished(room[i]) {
          assert room[i] in items;
        }
        AppendAllowed(room, NewRecord(p, Running), maxItems, cap, h);
      }
    }
  }

  lemma ResultAllowed(items: seq<Operation>, p: Payload, maxItems: nat, cap: nat, h: string)
    requires ValidStore(items, maxItems) && h != ""
    ensures ValidStore(ResultApplied(items, p, maxItems, cap).1, maxItems)
    ensures Allowed(Get(items, h), Get(ResultApplied(items, p, maxItems, cap).1, h), ApplyResult(p), h)
  {
    var i := IndexOf(items, p.handle);
    if p.handle != "" && i == |items| {
      var room := if |items| >= maxItems then Purged(items, cap) else items;
      PurgedValid(items, cap, maxItems);
      GetDropped(items, Excess(items, cap), h);
      GetDropped(items, Excess(items, cap), p.handle);
      if |room| < maxItems {
        AppendAllowed(room, NewRecord(p, Finished), maxItems, cap, h);
      }
    } else if i < |items| && items[i].status.Running? && !Contradicts(items[i].identity, p.identity) {
      SealAllowed(items, i, maxItems, cap, h);
    }
  }

  /** A result built from the stored record itself always ends the running state,
      and the record stays exactly when the survival window says so. */
  lemma OwnResultFinishes(items: seq<Operation>, h: string, p: Payload, maxItems: nat, cap: nat)
    requires ValidStore(items, maxItems) && h != ""
    requires Get(items, h).Found? && Get(items, h).record.status.Running?
    requires p.handle == h && p.identity == Get(items, h).record.identity
    ensures ResultApplied(items, p, maxItems, cap).0 == Done
    ensures var r := Get(ResultApplied(items, p, maxItems, cap).1, h);
            r == Missing || r == Found(Sealed(Get(items, h).record))
    ensures Get(ResultApplied(items, p, maxItems, cap).1, h).Found?
            <==> FinishedCount(items[IndexOf(items, h) + 1..]) < cap
  {
    var i := IndexOf(items, h);
    SealAllowed(items, i, maxItems, cap, h);
    FinishedRecordSurvives(items, i, cap);
    var r := Purged(items[i := Sealed(items[i])], cap);
    HoldsIffFound(r, h);
  }

  lemma HoldsIffFound(items: seq<Operation>, h: string)
    requires h != ""
    ensures Holds(items, h) <==> Get(items, h).Found?
  {
    var i := IndexOf(items, h);
    if i < |items| {
      assert items[i].handle == h;
    }
  }

  lemma {:induction false} CountSelect(items: seq<Operation>)
    ensures FinishedCount(items) == |Select(items, Finished)|
  {
    if items != [] { CountSelect(items[1..]); }
  }

  /** A call that changes the table by a start, a result or a close leaves at most cap
      finished records. */
  lemma FinishedWithinCap(items: seq<Operation>, c: Call, maxItems: nat)
    requires Next(items, c, maxItems) != items && !c.op.WriteField?
    ensures FinishedCount(Next(items, c, maxItems)) <= c.cap
  {
    hide Purged, Select;
    forall t: seq<Operation> ensures FinishedCount(Purged(t, c.cap)) <= c.cap {
      PurgeDropsEarliest(t, c.cap);
      CountSelect(Purged(t, c.cap));
    }
  }

  // ----- runs of calls -----

  ghost predicate IsRun(states: seq<seq<Operation>>, calls: seq<Call>, maxItems: nat) {
    && |states| == |calls| + 1
    && states[0] == []
    && forall i :: 0 <= i < |calls| ==> states[i + 1] == Next(states[i], calls[i], maxItems)
  }

  /** h is in the table at every moment from i to j. */
  ghost predicate Retained(states: seq<seq<Operation>>, h: string, i: nat, j: nat) {
    forall k :: i <= k <= j && k < |states| ==> Get(states[k], h).Found?
  }

  lemma {:induction false} ReachableValid(states: seq<seq<Operation>>, calls: seq<Call>, maxItems: nat, i: nat)
    requires IsRun(states, calls, maxItems) && i < |states|
    ensures ValidStore(states[i], maxItems)
  {
    if i > 0 {
      ReachableValid(states, calls, maxItems, i - 1);
      CallAllowed(states[i - 1], calls[i - 1], maxItems, "h");
      assert states[i - 1 + 1] == Next(states[i - 1], calls[i - 1], maxItems);
    }
  }

  lemma RunStep(states: seq<seq<Operation>>, calls: seq<Call>, maxItems: nat, i: nat, h: string)
    requires IsRun(states, calls, maxItems) && i < |calls| && h != ""
    ensures Allowed(Get(states[i], h), Get(states[i + 1], h), calls[i].op, h)
  {
    ReachableValid(states, calls, maxItems, i);
    CallAllowed(states[i], calls[i], maxItems, h);
  }

  /** In every reachable store: unique handles, a bounded table, and no finished
      record that still holds a secret or a deadline. */
  lemma FinishedIsSealed(states: seq<seq<Operation>>, calls: seq<Call>, maxItems: nat, i: nat, h: string)
    requires IsRun(states, calls, maxItems) && i < |states| && h != ""
    requires Get(states[i], h).Found? && Get(states[i], h).record.status.Finished?
    ensures Get(states[i], h).record.token == "" && Get(states[i], h).record.deadlineMs == 0
  {
    ReachableValid(states, calls, maxItems, i);
  }

  /** Finished is absorbing: while it is retained the record never changes again,
      whatever starts, results, writes and closes arrive. */
  lemma {:induction false} FinishedAbsorbs(states: seq<seq<Operation>>, calls: seq<Call>, maxItems: nat,
                                           h: string, i: nat, j: nat)
    requires IsRun(states, calls, maxItems) && h != "" && i <= j < |states|
    requires Get(states[i], h).Found? && Get(states[i], h).record.status.Finished?
    requires Retained(states, h, i, j)
    ensures Get(states[j], h) == Get(states[i], h)
  {
    if i < j {
      FinishedAbsorbs(states, calls, maxItems, h, i, j - 1);
      RunStep(states, calls, maxItems, j - 1, h);
      assert Get(states[j], h).Found?;
    }
  }

  /** A running record is never evicted and keeps its identity, route and deadline
      until a result or a close for it arrives. */
  lemma {:induction false} RunningStays(states: seq<seq<Operation>>, calls: seq<Call>, maxItems: nat,
                                        h: string, i: nat, j: nat)
    requires IsRun(states, calls, maxItems) && h != "" && i <= j < |states|
    requires Get(states[i], h).Found? && Get(states[i], h).record.status.Running?
    requires forall k :: i <= k < j ==> !Finishes(calls[k].op, h)
    ensures Get(states[j], h).Found? && Get(states[j], h).record.status.Running?
    ensures SameCorrelation(Get(states[i], h).record, Get(states[j], h).record)
    ensures Get(states[j], h).record.deadlineMs == Get(states[i], h).record.deadlineMs
  {
    if i < j {
      RunningStays(states, calls, maxItems, h, i, j - 1);
      RunStep(states, calls, maxItems, j - 1, h);
    }
  }

  /** Identity and route never change while the record is retained. */
  lemma {:induction false} CorrelationNeverChanges(states: seq<seq<Operation>>, calls: seq<Call>, maxItems: nat,
                                                   h: string, i: nat, j: nat)
    requires IsRun(states, calls, maxItems) && h != "" && i <= j < |states|
    requires Get(states[i], h).Found? && Retained(states, h, i, j)
    ensures Get(states[j], h).Found? && SameCorrelation(Get(states[i], h).record, Get(states[j], h).record)
  {
    if i < j {
      CorrelationNeverChanges(states, calls, maxItems, h, i, j - 1);
      RunStep(states, calls, maxItems, j - 1, h);
      assert Get(states[j], h).Found?;
    }
  }

  ghost predicate FlipsAt(states: seq<seq<Operation>>, h: string, i: nat) {
    && i + 1 < |states|
    && Get(states[i], h).Found? && Get(states[i], h).record.status.Running?
    && Get(states[i + 1], h).Found? && Get(states[i + 1], h).record.status.Finished?
  }

  /** At most one call flips a retained record. */
  lemma AtMostOneFlip(states: seq<seq<Operation>>, calls: seq<Call>, maxItems: nat, h: string, i: nat, j: nat)
    requires IsRun(states, calls, maxItems) && h != ""
    requires FlipsAt(states, h, i) && FlipsAt(states, h, j) && Retained(states, h, i, j)
    ensures i >= j
  {
    if i < j {
      FinishedAbsorbs(states, calls, maxItems, h, i + 1, j);
    }
  }

  /** Without retention the bound is false. Table: an early starter still running, a
      later one finished, one finished record kept. The result of the early starter
      evicts it at once, and a replayed start makes the same handle run again. */
  lemma EvictionAllowsRestart(p: Payload, done: Operation, maxItems: nat)
    requires maxItems >= 2 && p.handle != "" && done.status.Finished? && done.handle != p.handle
    ensures var t0 := [NewRecord(p, Running), done];
            var t1 := Next(t0, Call(ApplyResult(p), 1, true), maxItems);
            var t2 := Next(t1, Call(ApplyStarted(p), 1, true), maxItems);
            && Get(t0, p.handle) == Found(NewRecord(p, Running))
            && t1 == [done] && Get(t1, p.handle) == Missing
            && Get(t2, p.handle) == Found(NewRecord(p, Running))
  {
    var a := NewRecord(p, Running);
    EarlyStarterEvictedAtFinish(a, done);
    assert [done][1..] == [] && [done, a][1..] == [a] && [a][1..] == [];
    assert FinishedCount([a]) == 0;
    assert FinishedCount([done, a]) == 1 + FinishedCount([done, a][1..]);
    assert [done] + [a] == [done, a];
  }

  lemma StartsBehind(items: seq<Operation>, p: Payload, maxItems: nat)
    requires p.handle != "" && IndexOf(items, p.handle) == |items| < maxItems && FinishedCount(items) <= 1
    ensures Next(items, Call(ApplyStarted(p), 1, true), maxItems) == items + [NewRecord(p, Running)]
  {
    var o := NewRecord(p, Running);
    CountAppended(items, o);
    hide FinishedCount, IndexOf;
    assert Excess(items + [o], 1) == 0;
    assert DropFinished(items + [o], 0) == items + [o];
  }

  lemma {:induction false} CountAppended(items: seq<Operation>, o: Operation)
    ensures FinishedCount(items + [o]) == FinishedCount(items) + (if o.status.Finished? then 1 else 0)
  {
    if items == [] {
      assert [] + [o] == [o] && [o][1..] == [];
    } else {
      assert (items + [o])[1..] == items[1..] + [o];
      CountAppended(items[1..], o);
    }
  }

  lemma LateFinishes(p: Payload, q: Payload, maxItems: nat)
    requires p.handle != "" && q.handle != "" && p.handle != q.handle
    ensures Next([NewRecord(p, Running), NewRecord(q, Running)], Call(ApplyResult(q), 1, true), maxItems)
            == [NewRecord(p, Running), Sealed(NewRecord(q, Running))]
  {
    var a, b := NewRecord(p, Running), NewRecord(q, Running);
    var t := [a, Sealed(b)];
    assert [a, b][1..] == [b] && IndexOf([a, b], q.handle) == 1;
    assert [a, b][1 := Sealed(b)] == t;
    assert t[1..] == [Sealed(b)] && [Sealed(b)][1..] == [] && FinishedCount([Sealed(b)]) == 1 && FinishedCount(t) == 1;
  }

  /** The calls that lead there from the empty table: two starts, the result of the second, the
      result of the first, which evicts it, and its start again. */
  lemma RestartAfterEviction(p: Payload, q: Payload, maxItems: nat)
      returns (states: seq<seq<Operation>>, calls: seq<Call>)
    requires p.handle != "" && q.handle != "" && p.handle != q.handle && maxItems >= 2
    ensures IsRun(states, calls, maxItems) && |states| == |calls| + 1 == 6
    ensures Get(states[3], p.handle) == Found(NewRecord(p, Running)) && Get(states[4], p.handle) == Missing
    ensures states[4] == [Sealed(NewRecord(q, Running))]
    ensures Get(states[5], p.handle) == Found(NewRecord(p, Running))
  {
    hide Next;
    var a, b := NewRecord(p, Running), NewRecord(q, Running);
    var done := Sealed(b);
    StartsBehind([], p, maxItems);
    StartsBehind([a], q, maxItems);
    assert [] + [a] == [a] && [a] + [b] == [a, b] && [a][1..] == [];
    LateFinishes(p, q, maxItems);
    EvictionAllowsRestart(p, done, maxItems);
    calls := [Call(ApplyStarted(p), 1, true), Call(ApplyStarted(q), 1, true), Call(ApplyResult(q), 1, true),
              Call(ApplyResult(p), 1, true), Call(ApplyStarted(p), 1, true)];
    var t1 := Next([a, done], Call(ApplyResult(p), 1, true), maxItems);
    states := [[], [a], [a, b], [a, done], t1, Next(t1, Call(ApplyStarted(p), 1, true), maxItems)];
  }

  // ----- deadlines -----

  lemma {:induction false} DueHandlesMembers(items: seq<Operation>, nowMs: int)
    ensures forall h :: h in DueHandles(items, nowMs) <==>
                        exists o :: o in items && Due(o, nowMs) && o.handle == h
  {
    if items != [] {
      DueHandlesMembers(items[1..], nowMs);
      forall h
        ensures h in DueHandles(items, nowMs) <==> exists o :: o in items && Due(o, nowMs) && o.handle == h
      {
        if h in DueHandles(items[1..], nowMs) {
          var o :| o in items[1..] && Due(o, nowMs) && o.handle == h;
          assert o in items;
        } else if Due(items[0], nowMs) && items[0].handle == h {
          assert items[0] in items;
        }
        if o :| o in items && Due(o, nowMs) && o.handle == h {
          assert o == items[0] || o in items[1..];
        }
      }
    }
  }

  /** The reactor wakes exactly when there is something to fire. */
  lemma DueExactlyWhenEarliestPassed(items: seq<Operation>, best: int, nowMs: int)
    requires nowMs >= 1 && IsEarliest(items, best)
    ensures DueHandles(items, nowMs) != [] <==> best != 0 && best <= nowMs
  {
    DueHandlesMembers(items, nowMs);
    var due := DueHandles(items, nowMs);
    if due != [] {
      assert due[0] in due;
      var o :| o in items && Due(o, nowMs) && o.handle == due[0];
    }
    if best != 0 && best <= nowMs {
      var o :| o in items && o.status.Running? && best == EffectiveDeadline(o);
      assert Due(o, nowMs);
      assert o.handle in due;
    }
  }

  /** A finished record is never listed as due. */
  lemma FinishedNeverDue(items: seq<Operation>, maxItems: nat, h: string, nowMs: int)
    requires ValidStore(items, maxItems)
    requires Get(items, h).Found? && Get(items, h).record.status.Finished?
    ensures h !in DueHandles(items, nowMs)
  {
    DueHandlesMembers(items, nowMs);
    forall o | o in items && o.handle == h ensures !Due(o, nowMs) {
      GetMember(items, o);
    }
  }
}
