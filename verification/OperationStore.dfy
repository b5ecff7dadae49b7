/** The managed-operation store (runtime/operation_state.c).

    A record goes from Running to Finished once. The table is bounded, and every
    write drops the finished records that stand first in the array until at most
    `cap` of them are left. `cap` is the configured keep_finished value, read
    again at each write, so it is an argument of every operation here; `durable`
    says whether the atomic file write succeeded. */
module OperationStore {

  datatype Status = Running | Finished

  datatype Identity = Identity(action: string, requestId: string, triggerEventId: string,
                               taskId: string, workRev: int)

  datatype Route = Route(contextId: string, channel: string, adapterId: string,
                         originEventId: string, ref: string)

  datatype Operation = Operation(handle: string, workerHandle: string, identity: Identity,
                                 route: Route, status: Status, deadlineMs: int,
                                 token: string, claimEnvelopeId: string)

  /** What operation_started and operation_result events carry. */
  datatype Payload = Payload(handle: string, identity: Identity, route: Route, deadlineMs: int)

  /** The C return codes 0, 1 and -1. */
  datatype Reply = Done | Absent | Refused

  /** The three direct writes: bind_secret, set_worker_handle, bind_claim_envelope. */
  datatype Patch = Secret(token: string) | Worker(workerHandle: string) | Envelope(envelopeId: string)

  datatype StoreOp =
    | ApplyStarted(started: Payload)
    | ApplyResult(result: Payload)
    | WriteField(handle: string, patch: Patch)
    | CloseWithoutResult(handle: string)

  /** One call on the store together with what its environment supplied. */
  datatype Call = Call(op: StoreOp, cap: nat, durable: bool)

  // ----- lookup -----

  /** Position of the record with this handle, or |items|. The empty handle is
      never found. */
  function IndexOf(items: seq<Operation>, h: string): (i: nat)
    ensures i <= |items|
    ensures i < |items| ==> items[i].handle == h && h != ""
    ensures h != "" ==> forall j :: 0 <= j < i ==> items[j].handle != h
  {
    if items == [] || h == "" then |items|
    else if items[0].handle == h then 0
    else 1 + IndexOf(items[1..], h)
  }

  ghost predicate Holds(items: seq<Operation>, h: string) {
    exists i :: 0 <= i < |items| && items[i].handle == h
  }

  ghost predicate DistinctHandles(items: seq<Operation>) {
    forall i, j :: 0 <= i < j < |items| ==> items[i].handle != items[j].handle
  }

  // ----- eviction -----

  function FinishedCount(items: seq<Operation>): nat {
    if items == [] then 0
    else (if items[0].status.Finished? then 1 else 0) + FinishedCount(items[1..])
  }

  function FirstFinished(items: seq<Operation>): (i: nat)
    ensures i <= |items|
    ensures i < |items| ==> items[i].status.Finished?
    ensures forall j :: 0 <= j < i ==> items[j].status.Running?
  {
    if items == [] then 0
    else if items[0].status.Finished? then 0
    else 1 + FirstFinished(items[1..])
  }

  function RemoveAt(items: seq<Operation>, i: nat): seq<Operation>
    requires i < |items|
  {
    items[..i] + items[i + 1..]
  }

  /** The table without its first k finished records. */
  function DropFinished(items: seq<Operation>, k: nat): seq<Operation> {
    if items == [] || k == 0 then items
    else if items[0].status.Finished? then DropFinished(items[1..], k - 1)
    else [items[0]] + DropFinished(items[1..], k)
  }

  function Excess(items: seq<Operation>, cap: nat): nat {
    if FinishedCount(items) > cap then FinishedCount(items) - cap else 0
  }

  function Purged(items: seq<Operation>, cap: nat): seq<Operation> {
    DropFinished(items, Excess(items, cap))
  }

  // ----- the operations as functions of the table -----

  function NewRecord(p: Payload, status: Status): Operation {
    Operation(p.handle, "", p.identity, p.route, status,
              if status.Running? then p.deadlineMs else 0, "", "")
  }

  function Sealed(o: Operation): Operation {
    o.(status := Finished, deadlineMs := 0, token := "")
  }

  function Started(items: seq<Operation>, p: Payload, maxItems: nat, cap: nat): (Reply, seq<Operation>) {
    var i := IndexOf(items, p.handle);
    if p.handle == "" then (Refused, items)
    else if i < |items| then
      (if items[i].identity == p.identity then Done else Refused, items)
    else if |items| >= maxItems then
      var f := FirstFinished(items);
      if f == |items| then (Refused, items)
      else (Done, Purged(RemoveAt(items, f) + [NewRecord(p, Running)], cap))
    else (Done, Purged(items + [NewRecord(p, Running)], cap))
  }

  /** A stored field that is set must agree with the payload. */
  predicate Contradicts(o: Identity, p: Identity) {
    || (o.action != "" && o.action != p.action)
    || (o.requestId != "" && o.requestId != p.requestId)
    || (o.triggerEventId != "" && o.triggerEventId != p.triggerEventId)
    || (o.taskId != "" && o.taskId != p.taskId)
    || (o.workRev > 0 && o.workRev != p.workRev)
  }

  function ResultApplied(items: seq<Operation>, p: Payload, maxItems: nat, cap: nat): (Reply, seq<Operation>) {
    var i := IndexOf(items, p.handle);
    if p.handle == "" then (Refused, items)
    else if i == |items| then
      var room := if |items| >= maxItems then Purged(items, cap) else items;
      if |room| >= maxItems then (Refused, items)
      else (Done, Purged(room + [NewRecord(p, Finished)], cap))
    else if Contradicts(items[i].identity, p.identity) then (Refused, items)
    else if items[i].status.Finished? then (Done, items)
    else (Done, Purged(items[i := Sealed(items[i])], cap))
  }

  function Patched(o: Operation, patch: Patch): Operation {
    match patch
    case Secret(t) => o.(token := t)
    case Worker(w) => o.(workerHandle := w)
    case Envelope(e) => o.(claimEnvelopeId := e)
  }

  /** The secret and the envelope id may not be empty; only running records take a write. */
  function Written(items: seq<Operation>, h: string, patch: Patch): (Reply, seq<Operation>) {
    var i := IndexOf(items, h);
    if patch == Secret("") || patch == Envelope("") then (Refused, items)
    else if i == |items| || items[i].status.Finished? then (Absent, items)
    else (Done, items[i := Patched(items[i], patch)])
  }

  function Closed(items: seq<Operation>, h: string, cap: nat): (Reply, seq<Operation>) {
    var i := IndexOf(items, h);
    if i == |items| then (Absent, items)
    else if items[i].status.Finished? then (Done, items)
    else (Done, Purged(items[i := Sealed(items[i])], cap))
  }

  function Applied(items: seq<Operation>, op: StoreOp, maxItems: nat, cap: nat): (Reply, seq<Operation>) {
    match op
    case ApplyStarted(p) => Started(items, p, maxItems, cap)
    case ApplyResult(p) => ResultApplied(items, p, maxItems, cap)
    case WriteField(h, patch) => Written(items, h, patch)
    case CloseWithoutResult(h) => Closed(items, h, cap)
  }

  /** The table on disk after one call: a failed write leaves it as it was. */
  function Next(items: seq<Operation>, c: Call, maxItems: nat): seq<Operation> {
    if c.durable then Applied(items, c.op, maxItems, c.cap).1 else items
  }

  /** The call gets as far as writing the file. */
  predicate Writes(items: seq<Operation>, op: StoreOp, maxItems: nat, cap: nat) {
    && Applied(items, op, maxItems, cap).0.Done?
    && match op
       case ApplyStarted(p) => IndexOf(items, p.handle) == |items|
       case ApplyResult(p) => !EndedIn(items, p.handle)
       case WriteField(h, patch) => true
       case CloseWithoutResult(h) => !EndedIn(items, h)
  }

  predicate EndedIn(items: seq<Operation>, h: string) {
    var i := IndexOf(items, h);
    i < |items| && items[i].status.Finished?
  }

  /** The code returned: a write that fails is the only thing that refuses an admissible call. */
  function ReplyTo(items: seq<Operation>, c: Call, maxItems: nat): Reply {
    if !c.durable && Writes(items, c.op, maxItems, c.cap) then Refused
    else Applied(items, c.op, maxItems, c.cap).0
  }

  // ----- the imperative store -----

  class Store {
    var items: seq<Operation>
    const maxItems: nat

    constructor (maxItems: nat)
      ensures items == [] && this.maxItems == maxItems
    {
      this.items := [];
      this.maxItems := maxItems;
    }

    method Locate(h: string) returns (i: nat)
      ensures i == IndexOf(items, h)
    {
      if h == "" { return |items|; }
      i := 0;
      while i < |items|
        invariant 0 <= i <= |items|
        invariant IndexOf(items, h) == i + IndexOf(items[i..], h)
      {
        if items[i].handle == h { return; }
        assert items[i..][1..] == items[i + 1..];
        i := i + 1;
      }
    }

    /** Repeats "find the first finished record, shift the rest down" until the
        count is within the cap. */
    method PurgeFinishedOverCap(table: seq<Operation>, cap: nat) returns (r: seq<Operation>)
      ensures r == Purged(table, cap)
    {
      var finished := 0;
      var i := 0;
      while i < |table|
        invariant 0 <= i <= |table|
        invariant FinishedCount(table) == finished + FinishedCount(table[i..])
      {
        assert table[i..][1..] == table[i + 1..];
        if table[i].status.Finished? { finished := finished + 1; }
        i := i + 1;
      }
      r := table;
      while finished > cap
        invariant finished == FinishedCount(r)
        invariant finished <= cap ==> r == Purged(table, cap)
        invariant finished > cap ==> DropFinished(r, finished - cap) == Purged(table, cap)
        decreases finished
      {
        var oldest := 0;
        while oldest < |r| && r[oldest].status.Running?
          invariant 0 <= oldest <= |r|
          invariant FirstFinished(r) == oldest + FirstFinished(r[oldest..])
        {
          assert r[oldest..][1..] == r[oldest + 1..];
          oldest := oldest + 1;
        }
        DropOne(r, finished - cap);
        r := r[..oldest] + r[oldest + 1..];
        finished := finished - 1;
      }
    }

    method OnStarted(p: Payload, cap: nat, durable: bool) returns (reply: Reply)
      modifies this
      ensures items == Next(old(items), Call(ApplyStarted(p), cap, durable), maxItems)
      ensures reply == ReplyTo(old(items), Call(ApplyStarted(p), cap, durable), maxItems)
    {
      var i := Locate(p.handle);
      if p.handle == "" { return Refused; }
      if i < |items| {
        return if items[i].identity == p.identity then Done else Refused;
      }
      var table := items;
      if |table| >= maxItems {
        var f := 0;
        while f < |table| && table[f].status.Running?
          invariant 0 <= f <= |table|
          invariant FirstFinished(table) == f + FirstFinished(table[f..])
        {
          assert table[f..][1..] == table[f + 1..];
          f := f + 1;
        }
        if f == |table| { return Refused; }
        table := table[..f] + table[f + 1..];
      }
      table := table + [NewRecord(p, Running)];
      table := PurgeFinishedOverCap(table, cap);
      reply := Save(table, durable);
    }

    method OnResult(p: Payload, cap: nat, durable: bool) returns (reply: Reply)
      modifies this
      ensures items == Next(old(items), Call(ApplyResult(p), cap, durable), maxItems)
      ensures reply == ReplyTo(old(items), Call(ApplyResult(p), cap, durable), maxItems)
    {
      var i := Locate(p.handle);
      if p.handle == "" { return Refused; }
      var table := items;
      if i == |table| {
        if |table| >= maxItems {
          table := PurgeFinishedOverCap(table, cap);
          if |table| >= maxItems { return Refused; }
        }
        table := table + [NewRecord(p, Finished)];
      } else {
        if Contradicts(table[i].identity, p.identity) { return Refused; }
        if table[i].status.Finished? { return Done; }
        table := table[i := Sealed(table[i])];
      }
      table := PurgeFinishedOverCap(table, cap);
      reply := Save(table, durable);
    }

    method SetField(h: string, patch: Patch, durable: bool) returns (reply: Reply)
      modifies this
      ensures items == Next(old(items), Call(WriteField(h, patch), 0, durable), maxItems)
      ensures reply == ReplyTo(old(items), Call(WriteField(h, patch), 0, durable), maxItems)
    {
      if patch == Secret("") || patch == Envelope("") { return Refused; }
      var i := Locate(h);
      if i == |items| || items[i].status.Finished? { return Absent; }
      reply := Save(items[i := Patched(items[i], patch)], durable);
    }

    method Close(h: string, cap: nat, durable: bool) returns (reply: Reply)
      modifies this
      ensures items == Next(old(items), Call(CloseWithoutResult(h), cap, durable), maxItems)
      ensures reply == ReplyTo(old(items), Call(CloseWithoutResult(h), cap, durable), maxItems)
    {
      var i := Locate(h);
      if i == |items| { return Absent; }
      if items[i].status.Finished? { return Done; }
      var table := PurgeFinishedOverCap(items[i := Sealed(items[i])], cap);
      reply := Save(table, durable);
    }

    method Save(table: seq<Operation>, durable: bool) returns (reply: Reply)
      modifies this
      ensures items == if durable then table else old(items)
      ensures reply == if durable then Done else Refused
    {
      if durable { items := table; }
      reply := if durable then Done else Refused;
    }

    /** Earliest deadline over running records; 0 when none runs. A record without
        a deadline counts as due at 1 and ends the scan. */
    method EarliestDeadline() returns (best: int)
      ensures IsEarliest(items, best)
    {
      best := 0;
      var i := 0;
      while i < |items|
        invariant 0 <= i <= |items|
        invariant 0 <= best
        invariant forall k :: 0 <= k < i && items[k].status.Running? ==>
                    0 < items[k].deadlineMs && 0 < best <= items[k].deadlineMs
        invariant best != 0 ==> exists k :: 0 <= k < i && items[k].status.Running? && items[k].deadlineMs == best
      {
        var o := items[i];
        if o.status.Running? {
          if o.deadlineMs <= 0 { assert o in items; return 1; }
          if best == 0 || o.deadlineMs < best { best := o.deadlineMs; }
        }
        i := i + 1;
      }
      assert forall o :: o in items ==> exists k :: 0 <= k < |items| && items[k] == o;
    }

    /** Handles of the running records whose deadline has passed, in table order,
        at most `max` of them. */
    method ListDeadlineDue(nowMs: int, max: nat) returns (ids: seq<string>)
      ensures ids == if |DueHandles(items, nowMs)| <= max then DueHandles(items, nowMs)
                     else DueHandles(items, nowMs)[..max]
    {
      ids := [];
      var i := 0;
      while i < |items| && |ids| < max
        invariant 0 <= i <= |items| && |ids| <= max
        invariant DueHandles(items, nowMs) == ids + DueHandles(items[i..], nowMs)
      {
        assert items[i..][1..] == items[i + 1..];
        if Due(items[i], nowMs) { ids := ids + [items[i].handle]; }
        i := i + 1;
      }
    }
  }

  function EffectiveDeadline(o: Operation): int {
    if o.deadlineMs <= 0 then 1 else o.deadlineMs
  }

  /** `best` is the least effective deadline of a running record, or 0. */
  ghost predicate IsEarliest(items: seq<Operation>, best: int) {
    && (best == 0 <==> forall o :: o in items ==> o.status.Finished?)
    && (forall o :: o in items && o.status.Running? ==> best <= EffectiveDeadline(o))
    && (best != 0 ==> exists o :: o in items && o.status.Running? && best == EffectiveDeadline(o))
  }

  predicate Due(o: Operation, nowMs: int) {
    o.status.Running? && !(o.deadlineMs > 0 && nowMs < o.deadlineMs)
  }

  function DueHandles(items: seq<Operation>, nowMs: int): seq<string> {
    if items == [] then []
    else (if Due(items[0], nowMs) then [items[0].handle] else []) + DueHandles(items[1..], nowMs)
  }

  /** Removing the first finished record is one unit of dropping. */
  lemma {:induction false} DropOne(items: seq<Operation>, k: nat)
    requires 0 < k <= FinishedCount(items)
    ensures FirstFinished(items) < |items|
    ensures FinishedCount(RemoveAt(items, FirstFinished(items))) == FinishedCount(items) - 1
    ensures DropFinished(RemoveAt(items, FirstFinished(items)), k - 1) == DropFinished(items, k)
  {
    var f := FirstFinished(items);
    if items[0].status.Finished? {
      assert RemoveAt(items, 0) == items[1..];
    } else {
      DropOne(items[1..], k);
      var rest := RemoveAt(items[1..], f - 1);
      assert RemoveAt(items, f) == [items[0]] + rest;
      assert ([items[0]] + rest)[1..] == rest;
    }
  }
}
