/** What holds of the affair store after every sequence of events, stated against a
    reference computed from the accepted events alone. */
module AffairLaws {
  import opened Wrappers
  import opened AffairStore

  // ----- histories -----

  /** An accepted event with the clock it was applied at. */
  datatype Entry = Entry(event: Event, now: int)

  datatype World = World(items: seq<Affair>, accepted: seq<Entry>)

  datatype Step =
    | Apply(event: Event, now: int, durable: bool)
    | CreateManually(context: string, manage: string, nextReview: int, now: int, durable: bool)

  const Init := World([], [])

  /** The event a manual creation amounts to. */
  function ManualEvent(items: seq<Affair>, s: Step): Event
    requires s.CreateManually?
  {
    Patched(Create, ManualId(items), s.context, s.manage, "", Active, Some(s.nextReview), s.now, s.now)
  }

  predicate Accepted(w: World, s: Step, caps: Caps)
    requires ValidCaps(caps)
  {
    match s
    case Apply(e, now, durable) => durable && Reduced(w.items, e, now, caps).Some?
    case CreateManually(context, manage, _, now, durable) =>
      durable && context != "" && Reduced(w.items, ManualEvent(w.items, s), now, caps).Some?
  }

  function EventOf(w: World, s: Step): Event {
    if s.Apply? then s.event else ManualEvent(w.items, s)
  }

  function After(w: World, s: Step, caps: Caps): World
    requires ValidCaps(caps)
  {
    if !Accepted(w, s, caps) then w
    else World(Reduced(w.items, EventOf(w, s), s.now, caps).value, w.accepted + [Entry(EventOf(w, s), s.now)])
  }

  ghost predicate IsHistory(worlds: seq<World>, steps: seq<Step>, caps: Caps)
    requires ValidCaps(caps)
  {
    && |worlds| == |steps| + 1
    && worlds[0] == Init
    && forall i :: 0 <= i < |steps| ==> worlds[i + 1] == After(worlds[i], steps[i], caps)
  }

  // ----- the reference -----

  function NoteBy(x: Entry, id: string, caps: Caps): seq<Note> {
    if x.event.id != id then []
    else
      match x.event
      case Patched(patch, _, _, _, text, _, _, _, updated) =>
        if patch.Touch? || text == "" then [] else [Note(OrNow(updated, x.now), Clip(text, caps.noteBytes))]
      case NoteAdded(_, text, ms) => [Note(OrNow(ms, x.now), Clip(text, caps.noteBytes))]
      case _ => []
  }

  /** All notes ever accepted for the affair, oldest first. */
  function NotesOf(acc: seq<Entry>, id: string, caps: Caps): seq<Note> {
    if acc == [] then [] else NotesOf(acc[..|acc| - 1], id, caps) + NoteBy(acc[|acc| - 1], id, caps)
  }

  /** The accepted task links that were new when they came: not among the newest ones kept then.
      Linking a kept task again changes nothing, linking one that was pushed out adds it anew. */
  function LinksOf(acc: seq<Entry>, id: string, caps: Caps): seq<string> {
    if acc == [] then []
    else
      var links, e := LinksOf(acc[..|acc| - 1], id, caps), acc[|acc| - 1].event;
      if e.TaskLinked? && e.id == id && e.task !in Newest(links, caps.tasks) then links + [e.task] else links
  }

  /** The exact integer value of a counter's accepted sets and deltas. */
  function ValueOf(acc: seq<Entry>, id: string, name: string): Option<int> {
    if acc == [] then None
    else
      var v, e := ValueOf(acc[..|acc| - 1], id, name), acc[|acc| - 1].event;
      if e.CounterBumped? && e.id == id && e.name == name then
        Some(if e.change.Set? then e.change.amount else (if v.Some? then v.value else 0) + e.change.amount)
      else v
  }

  // ----- one record -----

  function Lookup(items: seq<Affair>, id: string): Option<Affair> {
    var i := IndexOf(items, id);
    if i < |items| then Some(items[i]) else None
  }

  /** No two affairs share an id, unless it is the empty one. */
  ghost predicate UniqueIds(items: seq<Affair>) {
    forall i, j :: 0 <= i < j < |items| && items[i].id == items[j].id ==> items[i].id == ""
  }

  /** What an accepted event does to the affair it names. */
  function EffectOn(a: Option<Affair>, e: Event, now: int, caps: Caps): Option<Affair>
    requires ValidCaps(caps)
  {
    if e.Patched? && e.patch.Create? then Some(NewAffair(e, now, caps))
    else if a.None? then None
    else
      match e
      case Patched(_, _, _, _, _, _, _, _, _) => Some(UpdatedAffair(a.value, e, now, caps))
      case NoteAdded(_, text, ms) =>
        Some(a.value.(notes := Noted(a.value.notes, OrNow(ms, now), text, caps), updated := OrNow(ms, now)))
      case CounterBumped(_, name, change) =>
        var cs := Bumped(a.value.counters, name, change, caps);
        if cs.None? then None else Some(a.value.(counters := cs.value, updated := now))
      case TaskLinked(_, task) => Some(a.value.(tasks := Linked(a.value.tasks, task, caps), updated := now))
      case Reviewed(_, ms) => Some(a.value.(nextReview := 0, updated := OrNow(ms, now)))
  }

  lemma IndexUnique(items: seq<Affair>, i: nat, id: string)
    requires UniqueIds(items) && i < |items| && items[i].id == id && id != ""
    ensures IndexOf(items, id) == i
  {
  }

  lemma LookupUpdated(items: seq<Affair>, i: nat, a: Affair, id: string)
    requires UniqueIds(items) && i < |items| && a.id == items[i].id && id != "" && a.id != ""
    ensures UniqueIds(items[i := a])
    ensures Lookup(items[i := a], id) == if id == a.id then Some(a) else Lookup(items, id)
  {
    var t := items[i := a];
    assert forall j :: 0 <= j < |t| ==> t[j].id == items[j].id;
    if id == a.id {
      IndexUnique(t, i, id);
    } else {
      var k := IndexOf(items, id);
      if k < |items| { IndexUnique(t, k, id); }
    }
  }

  function Source(i: nat, j: nat): nat { if j == 0 then i else if j <= i then j - 1 else j }

  lemma UniqueToFront(items: seq<Affair>, i: nat)
    requires UniqueIds(items) && i < |items|
    ensures UniqueIds(ToFront(items, i))
    ensures forall j: nat :: j < |items| ==> ToFront(items, i)[j] == items[Source(i, j)]
  {
    var t := ToFront(items, i);
    assert forall j: nat :: j < |t| ==> t[j] == items[Source(i, j)];
    hide ToFront;
    forall j, k | 0 <= j < k < |t| && t[j].id == t[k].id ensures t[j].id == "" {
      assert t[j] == items[Source(i, j)] && t[k] == items[Source(i, k)] && Source(i, j) != Source(i, k);
    }
  }

  lemma LookupToFront(items: seq<Affair>, i: nat, id: string)
    requires UniqueIds(items) && i < |items| && id != ""
    ensures UniqueIds(ToFront(items, i)) && Lookup(ToFront(items, i), id) == Lookup(items, id)
  {
    UniqueToFront(items, i);
    var t, k := ToFront(items, i), IndexOf(items, id);
    hide ToFront, UniqueIds;
    if k < |items| {
      var n := if k == i then 0 else if k < i then k + 1 else k;
      assert Source(i, n) == k;
      IndexUnique(t, n, id);
    } else {
      assert forall j: nat :: j < |t| ==> t[j].id != id;
    }
  }

  lemma UniqueCons(items: seq<Affair>, a: Affair)
    requires UniqueIds(items) && IndexOf(items, a.id) == |items|
    ensures UniqueIds([a] + items)
  {
    hide IndexOf;
    var t := [a] + items;
    forall j, k | 0 <= j < k < |t| && t[j].id == t[k].id ensures t[j].id == "" {
      assert t[k] == items[k - 1];
      if j > 0 { assert t[j] == items[j - 1]; }
    }
  }

  lemma LookupCons(items: seq<Affair>, a: Affair, id: string)
    requires UniqueIds(items) && IndexOf(items, a.id) == |items| && id != ""
    ensures UniqueIds([a] + items)
    ensures Lookup([a] + items, id) == if id == a.id then Some(a) else Lookup(items, id)
  {
    UniqueCons(items, a);
    hide UniqueIds;
    assert ([a] + items)[0] == a && ([a] + items)[1..] == items;
  }

  /** An accepted event changes the affair it names as EffectOn says, no other affair, and
      keeps ids unique and the store within its cap. */
  lemma ReducedEffect(items: seq<Affair>, e: Event, now: int, caps: Caps, id: string)
    requires ValidCaps(caps) && UniqueIds(items) && |items| <= caps.items && id != ""
    requires Reduced(items, e, now, caps).Some?
    ensures var t := Reduced(items, e, now, caps).value;
            && UniqueIds(t) && |t| <= caps.items
            && Lookup(t, id) == if e.id == id then EffectOn(Lookup(items, id), e, now, caps) else Lookup(items, id)
  {
    hide Noted, Linked, Bumped;
    var i := IndexOf(items, e.id);
    if e.Patched? && e.patch.Create? {
      LookupCons(items, NewAffair(e, now, caps), id);
    } else {
      var a := EffectOn(Some(items[i]), e, now, caps).value;
      LookupUpdated(items, i, a, id);
      if e.Patched? { LookupToFront(items[i := a], i, id); }
    }
  }

  function Ids(items: seq<Affair>): seq<string> {
    seq(|items|, i requires 0 <= i < |items| => items[i].id)
  }

  lemma IdsUpdated(items: seq<Affair>, i: nat, a: Affair)
    requires i < |items| && a.id == items[i].id
    ensures Ids(items[i := a]) == Ids(items)
  {
  }

  lemma IdsToFront(items: seq<Affair>, i: nat)
    requires i < |items|
    ensures Ids(ToFront(items, i)) == [items[i].id] + (Ids(items)[..i] + Ids(items)[i + 1..])
  {
  }

  lemma IdsCons(items: seq<Affair>, a: Affair)
    ensures Ids([a] + items) == [a.id] + Ids(items)
  {
  }

  lemma OrderCreated(items: seq<Affair>, e: Event, now: int, caps: Caps)
    requires ValidCaps(caps) && Reduced(items, e, now, caps).Some? && e.Patched? && e.patch.Create?
    ensures Ids(Reduced(items, e, now, caps).value) == [e.id] + Ids(items)
  {
    hide Ids, Noted, IndexOf;
    var a := NewAffair(e, now, caps);
    assert Reduced(items, e, now, caps).value == [a] + items && a.id == e.id;
    hide Reduced, NewAffair;
    IdsCons(items, a);
  }

  lemma OrderPatched(items: seq<Affair>, e: Event, now: int, caps: Caps)
    requires ValidCaps(caps) && Reduced(items, e, now, caps).Some? && e.Patched? && !e.patch.Create?
    ensures var i := IndexOf(items, e.id);
            && i < |items|
            && Ids(Reduced(items, e, now, caps).value) == [e.id] + (Ids(items)[..i] + Ids(items)[i + 1..])
  {
    hide Ids, Noted, ToFront, IndexOf;
    var i := IndexOf(items, e.id);
    var a := UpdatedAffair(items[i], e, now, caps);
    assert Reduced(items, e, now, caps).value == ToFront(items[i := a], i) && a.id == items[i].id == e.id;
    hide Reduced, UpdatedAffair;
    IdsUpdated(items, i, a);
    IdsToFront(items[i := a], i);
  }

  lemma OrderOther(items: seq<Affair>, e: Event, now: int, caps: Caps)
    requires ValidCaps(caps) && Reduced(items, e, now, caps).Some? && !e.Patched?
    ensures Ids(Reduced(items, e, now, caps).value) == Ids(items)
  {
    hide Ids, Noted, Linked, Bumped, IndexOf;
    var i := IndexOf(items, e.id);
    var a := EffectOn(Some(items[i]), e, now, caps).value;
    assert Reduced(items, e, now, caps).value == items[i := a] && a.id == items[i].id;
    hide Reduced, EffectOn;
    IdsUpdated(items, i, a);
  }

  /** Recently-used order: a creation or patch puts its affair first and keeps the others in
      order; every other accepted event keeps the whole order. */
  lemma OrderAfter(items: seq<Affair>, e: Event, now: int, caps: Caps)
    requires ValidCaps(caps) && Reduced(items, e, now, caps).Some?
    ensures var t, i := Ids(Reduced(items, e, now, caps).value), IndexOf(items, e.id);
            if !e.Patched? then t == Ids(items)
            else if e.patch.Create? then t == [e.id] + Ids(items)
            else i < |items| && t == [e.id] + (Ids(items)[..i] + Ids(items)[i + 1..])
  {
    hide Reduced, Ids;
    if !e.Patched? {
      OrderOther(items, e, now, caps);
    } else if e.patch.Create? {
      OrderCreated(items, e, now, caps);
    } else {
      OrderPatched(items, e, now, caps);
    }
  }

  // ----- bounded lists -----

  lemma NewestPush<T>(s: seq<T>, x: T, n: nat)
    requires n >= 1
    ensures Newest(s + [x], n) == Pushed(Newest(s, n), x, n)
  {
  }

  ghost predicate Distinct<T(!new)>(s: seq<T>) {
    forall i, j :: 0 <= i < j < |s| ==> s[i] != s[j]
  }

  /** A link moves the list with the reference. */
  lemma LinkedIsNewest(links: seq<string>, task: string, caps: Caps)
    requires ValidCaps(caps) && task != ""
    ensures Linked(Newest(links, caps.tasks), task, caps) ==
            Newest(if task in Newest(links, caps.tasks) then links else links + [task], caps.tasks)
  {
    NewestPush(links, task, caps.tasks);
    hide Newest, Pushed;
  }

  lemma LinkedKeeps(tasks: seq<string>, task: string, caps: Caps)
    requires ValidCaps(caps) && Distinct(tasks) && |tasks| <= caps.tasks
    ensures var t := Linked(tasks, task, caps);
            Distinct(t) && |t| <= caps.tasks && (task != "" ==> task in t)
  {
  }

  ghost predicate GoodCounters(cs: seq<Counter>, caps: Caps) {
    && |cs| <= caps.counters
    && (forall i, j :: 0 <= i < j < |cs| ==> cs[i].name != cs[j].name)
    && (forall i :: 0 <= i < |cs| ==> Fits64(cs[i].value))
  }

  function CounterValue(cs: seq<Counter>, name: string): Option<int> {
    var i := CounterIndex(cs, name);
    if i < |cs| then Some(cs[i].value) else None
  }

  /** An accepted bump is exact integer arithmetic and stays in range. */
  lemma BumpedExact(cs: seq<Counter>, name: string, change: Change, caps: Caps, other: string)
    requires GoodCounters(cs, caps) && Bumped(cs, name, change, caps).Some?
    ensures var t := Bumped(cs, name, change, caps).value;
            && GoodCounters(t, caps)
            && CounterValue(t, other) ==
               if other != name then CounterValue(cs, other)
               else Some(if change.Set? then change.amount
                         else (if CounterValue(cs, name).Some? then CounterValue(cs, name).value else 0) + change.amount)
  {
    var i, t := CounterIndex(cs, name), Bumped(cs, name, change, caps).value;
    var base := if i < |cs| then cs[i].value else 0;
    OverflowExact(base, change.amount);
    var v := if change.Set? then change.amount else base + change.amount;
    assert Fits64(v) && t == if i < |cs| then cs[i := Counter(name, v)] else cs + [Counter(name, v)];
    assert |t| <= caps.counters;
    hide Bumped, Overflows, Fits64;
    if i < |cs| { CounterUpdated(cs, i, v, other); } else { CounterAdded(cs, Counter(name, v), other); }
  }

  lemma CounterUpdated(cs: seq<Counter>, i: nat, v: int, other: string)
    requires i < |cs| && CounterIndex(cs, cs[i].name) == i
    ensures CounterValue(cs[i := Counter(cs[i].name, v)], other) ==
            if other == cs[i].name then Some(v) else CounterValue(cs, other)
  {
    hide CounterIndex;
    var t := cs[i := Counter(cs[i].name, v)];
    var k := CounterIndex(cs, other);
    assert forall j :: 0 <= j < |cs| ==> t[j].name == cs[j].name;
    assert CounterIndex(t, other) == k by { if k < |cs| { assert t[k].name == other; } }
  }

  lemma CounterAdded(cs: seq<Counter>, x: Counter, other: string)
    requires CounterIndex(cs, x.name) == |cs|
    ensures CounterValue(cs + [x], other) == if other == x.name then Some(x.value) else CounterValue(cs, other)
  {
    hide CounterIndex;
    var t, k := cs + [x], CounterIndex(cs, other);
    assert forall j :: 0 <= j < |cs| ==> t[j] == cs[j];
    assert t[|cs|] == x;
    if k < |cs| { assert t[k].name == other; }
  }

  // ----- the invariant -----

  ghost predicate Backed(a: Affair, acc: seq<Entry>, id: string, name: string, caps: Caps) {
    && a.notes == Newest(NotesOf(acc, id, caps), caps.notes)
    && a.tasks == Newest(LinksOf(acc, id, caps), caps.tasks) && Distinct(a.tasks)
    && GoodCounters(a.counters, caps)
    && CounterValue(a.counters, name) == ValueOf(acc, id, name)
  }

  /** No accepted event is about the affair. */
  ghost predicate NotUsed(acc: seq<Entry>, id: string, name: string, caps: Caps) {
    NotesOf(acc, id, caps) == [] && LinksOf(acc, id, caps) == [] && ValueOf(acc, id, name) == None
  }

  ghost predicate Inv(w: World, id: string, name: string, caps: Caps) {
    && UniqueIds(w.items) && |w.items| <= caps.items
    && match Lookup(w.items, id)
       case Some(a) => Backed(a, w.accepted, id, name, caps)
       case None => NotUsed(w.accepted, id, name, caps)
  }

  lemma Snoc(acc: seq<Entry>, x: Entry)
    ensures (acc + [x])[..|acc|] == acc && (acc + [x])[|acc|] == x
  {
  }

  lemma OtherEntry(acc: seq<Entry>, x: Entry, id: string, name: string, caps: Caps)
    requires x.event.id != id
    ensures NotesOf(acc + [x], id, caps) == NotesOf(acc, id, caps)
    ensures LinksOf(acc + [x], id, caps) == LinksOf(acc, id, caps)
    ensures ValueOf(acc + [x], id, name) == ValueOf(acc, id, name)
  {
    Snoc(acc, x);
  }

  /** The notes move with the reference. */
  lemma OwnNotes(a: Option<Affair>, acc: seq<Entry>, x: Entry, id: string, caps: Caps)
    requires ValidCaps(caps) && x.event.id == id && EffectOn(a, x.event, x.now, caps).Some?
    requires match a
             case Some(r) => r.notes == Newest(NotesOf(acc, id, caps), caps.notes) && !(x.event.Patched? && x.event.patch.Create?)
             case None => NotesOf(acc, id, caps) == []
    requires x.event.NoteAdded? ==> x.event.text != ""
    ensures EffectOn(a, x.event, x.now, caps).value.notes == Newest(NotesOf(acc + [x], id, caps), caps.notes)
  {
    hide Bumped, Linked;
    Snoc(acc, x);
    var e, notes := x.event, NotesOf(acc, id, caps);
    if e.Patched? && !e.patch.Touch? && e.noteText != "" {
      NewestPush(notes, Note(OrNow(e.updated, x.now), Clip(e.noteText, caps.noteBytes)), caps.notes);
    } else if e.NoteAdded? {
      NewestPush(notes, Note(OrNow(e.ms, x.now), Clip(e.text, caps.noteBytes)), caps.notes);
    } else {
      assert notes + [] == notes;
    }
    hide Clip, OrNow;
    if a.None? { assert Newest<Note>([], caps.notes) == []; }
    hide Newest, Pushed;
  }

  /** So do the links. */
  lemma OwnLinks(a: Option<Affair>, acc: seq<Entry>, x: Entry, id: string, caps: Caps)
    requires ValidCaps(caps) && x.event.id == id && EffectOn(a, x.event, x.now, caps).Some?
    requires match a
             case Some(r) => && r.tasks == Newest(LinksOf(acc, id, caps), caps.tasks) && Distinct(r.tasks)
                             && !(x.event.Patched? && x.event.patch.Create?)
             case None => LinksOf(acc, id, caps) == []
    requires x.event.TaskLinked? ==> x.event.task != ""
    ensures var r := EffectOn(a, x.event, x.now, caps).value;
            r.tasks == Newest(LinksOf(acc + [x], id, caps), caps.tasks) && Distinct(r.tasks)
  {
    hide Noted, Bumped;
    Snoc(acc, x);
    var e := x.event;
    if a.Some? && e.TaskLinked? {
      LinkedIsNewest(LinksOf(acc, id, caps), e.task, caps);
      LinkedKeeps(a.value.tasks, e.task, caps);
      hide Linked, Newest, Distinct;
    } else {
      hide Linked;
    }
  }

  /** And the counters. */
  lemma OwnCounters(a: Option<Affair>, acc: seq<Entry>, x: Entry, id: string, name: string, caps: Caps)
    requires ValidCaps(caps) && x.event.id == id && EffectOn(a, x.event, x.now, caps).Some?
    requires match a
             case Some(r) => && GoodCounters(r.counters, caps)
                             && CounterValue(r.counters, name) == ValueOf(acc, id, name)
                             && !(x.event.Patched? && x.event.patch.Create?)
             case None => ValueOf(acc, id, name) == None
    ensures var r := EffectOn(a, x.event, x.now, caps).value;
            GoodCounters(r.counters, caps) && CounterValue(r.counters, name) == ValueOf(acc + [x], id, name)
  {
    hide Noted, Linked;
    Snoc(acc, x);
    var e := x.event;
    if a.Some? {
      if e.CounterBumped? { BumpedExact(a.value.counters, e.name, e.change, caps, name); }
      hide Bumped, GoodCounters, CounterValue;
    } else {
      hide Bumped;
    }
  }

  /** An accepted event moves the record and the reference together. */
  lemma OwnEntry(a: Option<Affair>, acc: seq<Entry>, x: Entry, id: string, name: string, caps: Caps)
    requires ValidCaps(caps) && x.event.id == id && EffectOn(a, x.event, x.now, caps).Some?
    requires match a
             case Some(r) => Backed(r, acc, id, name, caps) && !(x.event.Patched? && x.event.patch.Create?)
             case None => NotUsed(acc, id, name, caps)
    requires (x.event.NoteAdded? ==> x.event.text != "") && (x.event.TaskLinked? ==> x.event.task != "")
    ensures Backed(EffectOn(a, x.event, x.now, caps).value, acc + [x], id, name, caps)
  {
    hide EffectOn, NotesOf, LinksOf, ValueOf, Newest, GoodCounters, Distinct, CounterValue;
    OwnNotes(a, acc, x, id, caps);
    OwnLinks(a, acc, x, id, caps);
    OwnCounters(a, acc, x, id, name, caps);
  }

  lemma StepKeeps(w: World, s: Step, id: string, name: string, caps: Caps)
    requires ValidCaps(caps) && Inv(w, id, name, caps) && id != ""
    ensures Inv(After(w, s, caps), id, name, caps)
  {
    if Accepted(w, s, caps) {
      var e, x := EventOf(w, s), Entry(EventOf(w, s), s.now);
      ReducedEffect(w.items, e, s.now, caps, id);
      if e.id == id {
        AcceptedShape(w.items, e, s.now, caps);
        hide Reduced, EffectOn, Backed;
        OwnEntry(Lookup(w.items, id), w.accepted, x, id, name, caps);
      } else {
        OtherEntry(w.accepted, x, id, name, caps);
        hide Reduced, EffectOn;
      }
    }
  }

  /** What acceptance says about the affair named. */
  lemma AcceptedShape(items: seq<Affair>, e: Event, now: int, caps: Caps)
    requires ValidCaps(caps) && Reduced(items, e, now, caps).Some? && e.id != ""
    ensures EffectOn(Lookup(items, e.id), e, now, caps).Some?
    ensures Lookup(items, e.id).Some? ==> !(e.Patched? && e.patch.Create?)
    ensures (e.NoteAdded? ==> e.text != "") && (e.TaskLinked? ==> e.task != "")
  {
    hide Noted, Linked;
  }

  lemma {:induction false} Reachable(worlds: seq<World>, steps: seq<Step>, caps: Caps, i: nat, id: string, name: string)
    requires ValidCaps(caps) && IsHistory(worlds, steps, caps) && i < |worlds| && id != ""
    ensures Inv(worlds[i], id, name, caps)
  {
    if i > 0 {
      var k := i - 1;
      Reachable(worlds, steps, caps, k, id, name);
      assert worlds[k + 1] == After(worlds[k], steps[k], caps);
      StepKeeps(worlds[k], steps[k], id, name, caps);
    }
  }

  // ----- the results -----

  /** Ids stay unique and the store bounded. */
  lemma IdsUniqueAndBounded(worlds: seq<World>, steps: seq<Step>, caps: Caps, i: nat)
    requires ValidCaps(caps) && IsHistory(worlds, steps, caps) && i < |worlds|
    ensures UniqueIds(worlds[i].items) && |worlds[i].items| <= caps.items
  {
    Reachable(worlds, steps, caps, i, "x", "x");
  }

  /** An affair's notes are exactly the newest accepted ones; its task links are the newest of
      those that were new when they came, without repetition; its counters have distinct names
      and no value outside 64 bits. */
  lemma RecordFromHistory(worlds: seq<World>, steps: seq<Step>, caps: Caps, i: nat, k: nat)
    requires ValidCaps(caps) && IsHistory(worlds, steps, caps) && i < |worlds|
    requires k < |worlds[i].items| && worlds[i].items[k].id != ""
    ensures var a := worlds[i].items[k];
            && a.notes == Newest(NotesOf(worlds[i].accepted, a.id, caps), caps.notes)
            && a.tasks == Newest(LinksOf(worlds[i].accepted, a.id, caps), caps.tasks) && Distinct(a.tasks)
            && GoodCounters(a.counters, caps)
  {
    var a := worlds[i].items[k];
    Reachable(worlds, steps, caps, i, a.id, "x");
    IndexUnique(worlds[i].items, k, a.id);
  }

  /** A counter exists exactly when a bump for it was accepted, and then holds the exact
      integer value of its accepted sets and deltas. */
  lemma CounterFromHistory(worlds: seq<World>, steps: seq<Step>, caps: Caps, i: nat, k: nat, name: string)
    requires ValidCaps(caps) && IsHistory(worlds, steps, caps) && i < |worlds|
    requires k < |worlds[i].items| && worlds[i].items[k].id != ""
    ensures var a := worlds[i].items[k];
            CounterValue(a.counters, name) == ValueOf(worlds[i].accepted, a.id, name)
  {
    var a := worlds[i].items[k];
    Reachable(worlds, steps, caps, i, a.id, name);
    IndexUnique(worlds[i].items, k, a.id);
  }

  /** A manual creation is rejected only for an empty field, a full store or a failed write:
      its id is always new. */
  lemma ManualCreationSucceeds(w: World, s: Step, caps: Caps)
    requires ValidCaps(caps) && s.CreateManually?
    ensures Accepted(w, s, caps) <==> s.durable && s.context != "" && s.manage != "" && |w.items| < caps.items
  {
    ManualIdIsNew(w.items);
    var id := ManualId(w.items);
    assert IndexOf(w.items, id) == |w.items|;
    hide ManualId;
  }

  /** The empty id escapes the uniqueness test: two creations with it are both accepted. The
      normaliser stamps an id on every create, so only a raw event carries the empty one. */
  lemma EmptyIdTwice(e: Event, caps: Caps)
    requires ValidCaps(caps) && caps.items >= 2
    requires e.Patched? && e.patch.Create? && e.id == "" && e.manage != ""
    ensures var w1 := After(Init, Apply(e, 1, true), caps);
            var w2 := After(w1, Apply(e, 1, true), caps);
            |w2.items| == 2 && w2.items[0].id == w2.items[1].id == ""
  {
  }
}
