/** The affair store and its reducers (runtime/affair_state.c): a bounded list kept in
    recently-used order, with bounded notes, task links and overflow-guarded counters.

    Wall-clock readings are arguments. A rejected event leaves the file as it was, because
    only an accepted one reaches the atomic write. */
module AffairStore {
  import opened Wrappers
  import Decimal

  datatype Status = Active | Paused | Closed

  datatype Note = Note(ms: int, text: string)

  datatype Counter = Counter(name: string, value: int)

  datatype Affair = Affair(id: string, context: string, status: Status, manage: string, nextReview: int,
                           tasks: seq<string>, notes: seq<Note>, counters: seq<Counter>,
                           created: int, updated: int)

  datatype Caps = Caps(items: nat, notes: nat, tasks: nat, counters: nat, noteBytes: nat)

  predicate ValidCaps(c: Caps) { c.notes >= 1 && c.tasks >= 1 }

  const MIN64: int := -0x8000_0000_0000_0000
  const MAX64: int := 0x7fff_ffff_ffff_ffff

  predicate Fits64(v: int) { MIN64 <= v <= MAX64 }

  /** action:create, action:update, or any other action string. */
  datatype Patch = Create | Update | Touch

  datatype Change = Delta(amount: int) | Set(amount: int)

  datatype Event =
    | Patched(patch: Patch, id: string, context: string, manage: string, noteText: string, status: Status,
              nextReview: Option<int>, created: int, updated: int)
    | NoteAdded(id: string, text: string, ms: int)
    | CounterBumped(id: string, name: string, change: Change)
    | TaskLinked(id: string, task: string)
    | Reviewed(id: string, ms: int)

  // ----- lists -----

  function IndexOf(items: seq<Affair>, id: string): (i: nat)
    ensures i <= |items|
    ensures i < |items| ==> items[i].id == id && id != ""
    ensures id != "" ==> forall j :: 0 <= j < i ==> items[j].id != id
  {
    if items == [] || id == "" then |items| else if items[0].id == id then 0 else 1 + IndexOf(items[1..], id)
  }

  function CounterIndex(cs: seq<Counter>, name: string): (i: nat)
    ensures i <= |cs|
    ensures i < |cs| ==> cs[i].name == name
    ensures forall j :: 0 <= j < i ==> cs[j].name != name
  {
    if cs == [] then 0 else if cs[0].name == name then 0 else 1 + CounterIndex(cs[1..], name)
  }

  /** The newest n of s. */
  function Newest<T>(s: seq<T>, n: nat): seq<T> {
    if |s| <= n then s else s[|s| - n..]
  }

  /** Drop the oldest when full, then append. */
  function Pushed<T>(s: seq<T>, x: T, cap: nat): seq<T>
    requires cap >= 1
  {
    if |s| >= cap then s[|s| - (cap - 1)..] + [x] else s + [x]
  }

  function ToFront(items: seq<Affair>, i: nat): seq<Affair>
    requires i < |items|
  {
    [items[i]] + items[..i] + items[i + 1..]
  }

  function Clip(text: string, max: nat): string { if |text| <= max then text else text[..max] }

  function OrNow(ms: int, now: int): int { if ms != 0 then ms else now }

  function Noted(notes: seq<Note>, ms: int, text: string, caps: Caps): seq<Note>
    requires ValidCaps(caps)
  {
    if text == "" then notes else Pushed(notes, Note(ms, Clip(text, caps.noteBytes)), caps.notes)
  }

  function Linked(tasks: seq<string>, task: string, caps: Caps): seq<string>
    requires ValidCaps(caps)
  {
    if task == "" || task in tasks then tasks else Pushed(tasks, task, caps.tasks)
  }

  /** The guard of the reducer, on 64-bit values, is exactly "the sum does not fit". */
  predicate Overflows(value: int, delta: int) {
    (delta > 0 && value > MAX64 - delta) || (delta < 0 && value < MIN64 - delta)
  }

  function Bumped(cs: seq<Counter>, name: string, change: Change, caps: Caps): Option<seq<Counter>> {
    var i := CounterIndex(cs, name);
    if name == "" || !Fits64(change.amount) then None
    else if i == |cs| && |cs| >= caps.counters then None
    else
      var base := if i < |cs| then cs[i].value else 0;
      if change.Delta? && Overflows(base, change.amount) then None
      else
        var v := if change.Delta? then base + change.amount else change.amount;
        Some(if i < |cs| then cs[i := Counter(name, v)] else cs + [Counter(name, v)])
  }

  // ----- reducers -----

  function NewAffair(e: Event, now: int, caps: Caps): Affair
    requires e.Patched? && ValidCaps(caps)
  {
    var ms := OrNow(e.updated, now);
    Affair(e.id, e.context, e.status, e.manage,
           if e.nextReview.Some? && e.nextReview.value > 0 then e.nextReview.value else 0,
           [], Noted([], ms, e.noteText, caps), [], OrNow(e.created, ms), ms)
  }

  function UpdatedAffair(a: Affair, e: Event, now: int, caps: Caps): Affair
    requires e.Patched? && ValidCaps(caps)
  {
    var ms := OrNow(e.updated, now);
    if e.patch.Update? then
      Affair(a.id, a.context, e.status, if e.manage != "" then e.manage else a.manage,
             if e.nextReview.Some? && e.nextReview.value >= 0 then e.nextReview.value else a.nextReview,
             a.tasks, Noted(a.notes, ms, e.noteText, caps), a.counters, a.created, ms)
    else a.(updated := ms)
  }

  /** The store after an accepted event; None when the event is rejected. */
  function Reduced(items: seq<Affair>, e: Event, now: int, caps: Caps): Option<seq<Affair>>
    requires ValidCaps(caps)
  {
    var i := IndexOf(items, e.id);
    match e
    case Patched(patch, id, context, manage, _, _, _, _, _) =>
      if patch.Create? then
        if |items| >= caps.items || manage == "" || i < |items| then None
        else Some([NewAffair(e, now, caps)] + items)
      else if i == |items| || items[i].context != context then None
      else Some(ToFront(items[i := UpdatedAffair(items[i], e, now, caps)], i))
    case NoteAdded(id, text, ms) =>
      if text == "" || i == |items| then None
      else Some(items[i := items[i].(notes := Noted(items[i].notes, OrNow(ms, now), text, caps), updated := OrNow(ms, now))])
    case CounterBumped(id, name, change) =>
      if i == |items| then None
      else
        var cs := Bumped(items[i].counters, name, change, caps);
        if cs.None? then None else Some(items[i := items[i].(counters := cs.value, updated := now)])
    case TaskLinked(id, task) =>
      if task == "" || i == |items| then None
      else Some(items[i := items[i].(tasks := Linked(items[i].tasks, task, caps), updated := now)])
    case Reviewed(id, ms) =>
      if i == |items| then None
      else Some(items[i := items[i].(nextReview := 0, updated := OrNow(ms, now))])
  }

  // ----- ids of manually created affairs -----

  const CLI_PREFIX: string := "aff_cli_"

  /** The number scanned behind the prefix, if the id has it. */
  function CliNumber(id: string): Option<int> {
    if CLI_PREFIX <= id then Decimal.Scanned(id[|CLI_PREFIX|..]) else None
  }

  function Past(seqNo: nat, id: string): nat {
    var n := CliNumber(id);
    if n.Some? && n.value >= seqNo then n.value + 1 else seqNo
  }

  /** One more than every number in use. */
  function ManualNumber(items: seq<Affair>): nat {
    if items == [] then 1 else Past(ManualNumber(items[..|items| - 1]), items[|items| - 1].id)
  }

  function ManualId(items: seq<Affair>): string {
    CLI_PREFIX + Decimal.Padded(ManualNumber(items), 6)
  }

  lemma {:induction false} ManualNumberAbove(items: seq<Affair>, i: nat)
    requires i < |items| && CliNumber(items[i].id).Some?
    ensures CliNumber(items[i].id).value < ManualNumber(items)
  {
    var m := items[..|items| - 1];
    if i < |m| {
      assert m[i] == items[i];
      ManualNumberAbove(m, i);
    }
  }

  /** The next manual id is carried by no affair. */
  lemma ManualIdIsNew(items: seq<Affair>)
    ensures ManualId(items) != "" && forall i :: 0 <= i < |items| ==> items[i].id != ManualId(items)
  {
    var n := ManualNumber(items);
    var id := ManualId(items);
    Decimal.ScanPrinted(n, 6);
    assert id[|CLI_PREFIX|..] == Decimal.Padded(n, 6) && CLI_PREFIX <= id;
    assert CliNumber(id) == Some(n);
    forall i | 0 <= i < |items| ensures items[i].id != id {
      if CliNumber(items[i].id).Some? { ManualNumberAbove(items, i); }
    }
  }

  // ----- the store in place -----

  class Store {
    var items: seq<Affair>
    const caps: Caps

    constructor (caps: Caps)
      ensures items == [] && this.caps == caps
    {
      items := [];
      this.caps := caps;
    }

    method Find(id: string) returns (i: nat)
      ensures i == IndexOf(items, id)
    {
      if id == "" { return |items|; }
      i := 0;
      while i < |items| && items[i].id != id
        invariant 0 <= i <= |items|
        invariant IndexOf(items, id) == i + IndexOf(items[i..], id)
      {
        assert items[i..][1..] == items[i + 1..];
        i := i + 1;
      }
    }

    method FindCounter(cs: seq<Counter>, name: string) returns (i: nat)
      ensures i == CounterIndex(cs, name)
    {
      i := 0;
      while i < |cs| && cs[i].name != name
        invariant 0 <= i <= |cs|
        invariant CounterIndex(cs, name) == i + CounterIndex(cs[i..], name)
      {
        assert cs[i..][1..] == cs[i + 1..];
        i := i + 1;
      }
    }

    /** Applies one event; a rejected one, or a failed write, changes nothing. */
    method ApplyPatch(e: Event, now: int, durable: bool) returns (ok: bool)
      requires ValidCaps(caps) && e.Patched?
      modifies this
      ensures ok == (Reduced(old(items), e, now, caps).Some? && durable)
      ensures items == if ok then Reduced(old(items), e, now, caps).value else old(items)
    {
      var i := Find(e.id);
      if e.patch.Create? {
        if |items| >= caps.items || e.manage == "" || i < |items| || !durable { return false; }
        items := [NewAffair(e, now, caps)] + items;
        return true;
      }
      if i == |items| || items[i].context != e.context || !durable { return false; }
      items := items[i := UpdatedAffair(items[i], e, now, caps)];
      items := [items[i]] + items[..i] + items[i + 1..];
      ok := true;
    }

    method CreateManual(context: string, manage: string, nextReview: int, now: int, durable: bool)
      returns (id: Option<string>)
      requires ValidCaps(caps)
      modifies this
      ensures id.Some? ==> id.value == ManualId(old(items)) && context != "" && manage != ""
                           && items == [Affair(id.value, context, Active, manage, if nextReview > 0 then nextReview else 0,
                                               [], [], [], now, now)] + old(items)
      ensures id.None? ==> items == old(items)
      ensures id.Some? <==> context != "" && manage != "" && |old(items)| < caps.items && durable
    {
      if context == "" || manage == "" { return None; }
      var number, i := 1, 0;
      while i < |items|
        invariant 0 <= i <= |items|
        invariant number == ManualNumber(items[..i])
      {
        assert items[..i + 1][..i] == items[..i];
        var n := CliNumber(items[i].id);
        if n.Some? && n.value >= number { number := n.value + 1; }
        i := i + 1;
      }
      assert items[..|items|] == items;
      var next := CLI_PREFIX + Decimal.Padded(number, 6);
      if |items| >= caps.items || !durable { return None; }
      items := [Affair(next, context, Active, manage, if nextReview > 0 then nextReview else 0,
                       [], [], [], now, now)] + items;
      id := Some(next);
    }

    method ApplyBump(e: Event, now: int, durable: bool) returns (ok: bool)
      requires ValidCaps(caps) && e.CounterBumped?
      modifies this
      ensures ok == (Reduced(old(items), e, now, caps).Some? && durable)
      ensures items == if ok then Reduced(old(items), e, now, caps).value else old(items)
    {
      if e.name == "" || !Fits64(e.change.amount) { return false; }
      var i := Find(e.id);
      if i == |items| { return false; }
      var cs := items[i].counters;
      var k := FindCounter(cs, e.name);
      if k == |cs| && |cs| >= caps.counters { return false; }
      var value := if k < |cs| then cs[k].value else 0;
      if e.change.Delta? {
        if Overflows(value, e.change.amount) { return false; }
        value := value + e.change.amount;
      } else {
        value := e.change.amount;
      }
      if !durable { return false; }
      var t := if k < |cs| then cs[k := Counter(e.name, value)] else cs + [Counter(e.name, value)];
      items := items[i := items[i].(counters := t, updated := now)];
      ok := true;
    }

    method ApplyOther(e: Event, now: int, durable: bool) returns (ok: bool)
      requires ValidCaps(caps) && (e.NoteAdded? || e.TaskLinked? || e.Reviewed?)
      modifies this
      ensures ok == (Reduced(old(items), e, now, caps).Some? && durable)
      ensures items == if ok then Reduced(old(items), e, now, caps).value else old(items)
    {
      var i := Find(e.id);
      if i == |items| || !durable { return false; }
      match e {
        case NoteAdded(_, text, ms) =>
          if text == "" { return false; }
          items := items[i := items[i].(notes := Noted(items[i].notes, OrNow(ms, now), text, caps),
                                        updated := OrNow(ms, now))];
        case TaskLinked(_, task) =>
          if task == "" { return false; }
          items := items[i := items[i].(tasks := Linked(items[i].tasks, task, caps), updated := now)];
        case Reviewed(_, ms) =>
          items := items[i := items[i].(nextReview := 0, updated := OrNow(ms, now))];
      }
      ok := true;
    }
  }

  /** Moving to the front permutes the store and keeps the others in order. */
  lemma ToFrontPermutes(items: seq<Affair>, i: nat)
    requires i < |items|
    ensures multiset(ToFront(items, i)) == multiset(items)
    ensures ToFront(items, i)[0] == items[i] && ToFront(items, i)[1..] == items[..i] + items[i + 1..]
  {
    assert items == items[..i] + [items[i]] + items[i + 1..];
  }

  /** On 64-bit values the guard fires exactly when the exact sum leaves the range. */
  lemma OverflowExact(value: int, delta: int)
    requires Fits64(value) && Fits64(delta)
    ensures Overflows(value, delta) <==> !Fits64(value + delta)
  {
  }
}
