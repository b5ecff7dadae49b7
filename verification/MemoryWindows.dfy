/** Incremental memory compaction of one context (runtime/memory.c and the cutoff check of
    runtime/agent_selected.c): which window of messages is sent to the compactor, and what
    the accepted windows cover over a whole history. */
module MemoryWindows {

  /** Message ids are numbered; 0 stands for no id. */
  datatype Message = Message(id: nat, chars: nat)

  datatype Policy = Policy(enabled: bool, afterMessages: int, afterTokens: int, keepRecent: int, minCompact: int)

  function Keep(p: Policy): nat { if p.keepRecent > 0 then p.keepRecent else 20 }

  function Least(p: Policy): (n: nat)
    ensures n >= 1
  {
    if p.minCompact > 0 then p.minCompact else 16
  }

  datatype Choice = NotYet | TooLarge | Window(start: nat, end: nat)

  // ----- choosing a window -----

  function IndexOf(msgs: seq<Message>, id: nat): (i: nat)
    ensures i <= |msgs|
    ensures i < |msgs| ==> msgs[i].id == id && id != 0
    ensures id != 0 ==> forall j :: 0 <= j < i ==> msgs[j].id != id
  {
    if msgs == [] || id == 0 then |msgs| else if msgs[0].id == id then 0 else 1 + IndexOf(msgs[1..], id)
  }

  /** The first message the last accepted cutoff does not cover; a cutoff that is not among
      the messages covers nothing. */
  function StartOf(msgs: seq<Message>, covers: nat): (i: nat)
    ensures i <= |msgs|
  {
    var i := IndexOf(msgs, covers);
    if i < |msgs| then i + 1 else 0
  }

  function CharsOf(msgs: seq<Message>): nat {
    if msgs == [] then 0 else CharsOf(msgs[..|msgs| - 1]) + msgs[|msgs| - 1].chars
  }

  predicate Triggered(msgs: seq<Message>, start: nat, p: Policy)
    requires start <= |msgs|
  {
    && p.enabled && start < |msgs|
    && ((p.afterMessages > 0 && |msgs| - start > p.afterMessages)
        || (p.afterTokens > 0 && (CharsOf(msgs[start..]) + 3) / 4 > p.afterTokens))
    && |msgs| > Keep(p)
    && |msgs| - Keep(p) - start >= Least(p)
  }

  /** The largest end, from `end` downwards, whose request fits the payload buffer and that
      still leaves `least` messages in the window. */
  function Narrowed(msgs: seq<Message>, start: nat, end: nat, least: nat, fits: seq<Message> -> bool): Choice
    requires start <= end < |msgs| && end - start + 1 >= least >= 1
    decreases end
  {
    if fits(msgs[start..end + 1]) then Window(start, end)
    else if end <= start || end - start < least then TooLarge
    else Narrowed(msgs, start, end - 1, least, fits)
  }

  function Chosen(msgs: seq<Message>, covers: nat, p: Policy, fits: seq<Message> -> bool): Choice {
    var start := StartOf(msgs, covers);
    if !Triggered(msgs, start, p) then NotYet
    else Narrowed(msgs, start, |msgs| - Keep(p) - 1, Least(p), fits)
  }

  method FindStart(msgs: seq<Message>, covers: nat) returns (start: nat)
    ensures start == StartOf(msgs, covers)
  {
    if covers == 0 { return 0; }
    var idx := 0;
    while idx < |msgs| && msgs[idx].id != covers
      invariant 0 <= idx <= |msgs|
      invariant IndexOf(msgs, covers) == idx + IndexOf(msgs[idx..], covers)
    {
      assert msgs[idx..][1..] == msgs[idx + 1..];
      idx := idx + 1;
    }
    start := if idx < |msgs| then idx + 1 else 0;
  }

  method CountChars(msgs: seq<Message>, start: nat) returns (chars: nat)
    requires start <= |msgs|
    ensures chars == CharsOf(msgs[start..])
  {
    chars := 0;
    var i := start;
    while i < |msgs|
      invariant start <= i <= |msgs|
      invariant chars == CharsOf(msgs[start..i])
    {
      assert msgs[start..i + 1][..i - start] == msgs[start..i];
      chars := chars + msgs[i].chars;
      i := i + 1;
    }
    assert msgs[start..|msgs|] == msgs[start..];
  }

  /** Builds the request for ever smaller windows until one fits. */
  method Narrow(msgs: seq<Message>, start: nat, last: nat, least: nat, fits: seq<Message> -> bool) returns (c: Choice)
    requires start <= last < |msgs| && last - start + 1 >= least >= 1
    ensures c == Narrowed(msgs, start, last, least, fits)
  {
    var end := last;
    while !fits(msgs[start..end + 1])
      invariant start <= end < |msgs| && end - start + 1 >= least
      invariant Narrowed(msgs, start, last, least, fits) == Narrowed(msgs, start, end, least, fits)
      decreases end
    {
      if end <= start || end - start < least { return TooLarge; }
      end := end - 1;
    }
    c := Window(start, end);
  }

  method RequestCompaction(msgs: seq<Message>, covers: nat, p: Policy, fits: seq<Message> -> bool)
    returns (c: Choice)
    ensures c == Chosen(msgs, covers, p, fits)
  {
    if !p.enabled { return NotYet; }
    var start := FindStart(msgs, covers);
    if |msgs| <= start { return NotYet; }
    var chars := CountChars(msgs, start);
    hide CharsOf, Narrowed;
    if !((p.afterMessages > 0 && |msgs| - start > p.afterMessages)
         || (p.afterTokens > 0 && (chars + 3) / 4 > p.afterTokens)) || |msgs| <= Keep(p)
    {
      return NotYet;
    }
    var end := |msgs| - Keep(p) - 1;
    if end < start || end - start + 1 < Least(p) { return NotYet; }
    c := Narrow(msgs, start, end, Least(p), fits);
  }

  predicate WindowFits(msgs: seq<Message>, start: nat, end: nat, fits: seq<Message> -> bool)
    requires start <= end < |msgs|
  {
    fits(msgs[start..end + 1])
  }

  /** The narrowing loop ends at the largest window that fits, and gives up only when no
      window of at least the minimum size does. */
  lemma {:induction false} NarrowedExact(msgs: seq<Message>, start: nat, end: nat, least: nat, fits: seq<Message> -> bool)
    requires start <= end < |msgs| && end - start + 1 >= least >= 1
    ensures var c := Narrowed(msgs, start, end, least, fits);
            match c
            case Window(s, e) =>
              && s == start <= e <= end && e - s + 1 >= least && WindowFits(msgs, s, e, fits)
              && forall x: nat :: e < x <= end ==> !WindowFits(msgs, start, x, fits)
            case TooLarge => forall x: nat :: start + least - 1 <= x <= end ==> !WindowFits(msgs, start, x, fits)
            case NotYet => false
    decreases end
  {
    if !fits(msgs[start..end + 1]) && !(end <= start || end - start < least) {
      NarrowedExact(msgs, start, end - 1, least, fits);
    }
  }

  // ----- histories -----

  /** A request in flight or a window accepted, in positions of the whole log. */
  datatype Span = Span(start: nat, end: nat, cutoff: nat, size: nat, kept: nat)

  /** `from`: the part of the log the bounded tail read still returns. */
  datatype State = State(log: seq<Message>, from: nat, covers: nat, inFlight: seq<Span>, accepted: seq<Span>)

  datatype Step =
    | Append(message: Message)
    | Forget(from: nat)
    | Request(policy: Policy, fits: seq<Message> -> bool)
    | Report(request: nat, cutoff: nat)

  const Init := State([], 0, 0, [], [])

  function After(s: State, step: Step): State {
    match step
    case Append(m) =>
      // Message numbers grow, so ids are new; a message always has one.
      if m.id == 0 || IndexOf(s.log, m.id) < |s.log| then s else s.(log := s.log + [m])
    case Forget(from) => if s.from <= from <= |s.log| then s.(from := from) else s
    case Request(p, fits) =>
      if s.from > |s.log| then s
      else
        var msgs := s.log[s.from..];
        var c := Chosen(msgs, s.covers, p, fits);
        if !c.Window? || c.end >= |msgs| then s
        else
          s.(inFlight := s.inFlight + [Span(s.from + c.start, s.from + c.end, msgs[c.end].id, Least(p), Keep(p))])
    case Report(k, cutoff) =>
      if k >= |s.inFlight| then s
      else
        var r := s.inFlight[k];
        var rest := s.inFlight[..k] + s.inFlight[k + 1..];
        if cutoff != r.cutoff then s.(inFlight := rest)
        else s.(inFlight := rest, covers := cutoff, accepted := s.accepted + [r])
  }

  ghost predicate IsHistory(states: seq<State>, steps: seq<Step>) {
    && |states| == |steps| + 1
    && states[0] == Init
    && forall i :: 0 <= i < |steps| ==> states[i + 1] == After(states[i], steps[i])
  }

  /** What the tiling needs of a request: nothing else is in flight, and the tail read has
      lost no message the next window has to start with. */
  predicate Orderly(s: State, step: Step) {
    step.Request? ==> s.inFlight == [] && s.from <= Frontier(s.accepted)
  }

  ghost predicate DistinctIds(log: seq<Message>) {
    forall i, j :: 0 <= i < j < |log| ==> log[i].id != log[j].id
  }

  /** The first position the next window has to start at. */
  function Frontier(accepted: seq<Span>): nat {
    if accepted == [] then 0 else accepted[|accepted| - 1].end + 1
  }

  ghost predicate Good(r: Span, log: seq<Message>) {
    && r.start <= r.end && r.end - r.start + 1 >= r.size >= 1
    && r.end + r.kept < |log| && r.kept >= 1 && log[r.end].id == r.cutoff && r.cutoff != 0
  }

  predicate Adjoins(accepted: seq<Span>, k: nat)
    requires k < |accepted|
  {
    accepted[k].start == if k == 0 then 0 else accepted[k - 1].end + 1
  }

  ghost predicate Tiles(accepted: seq<Span>) {
    forall k :: 0 <= k < |accepted| ==> Adjoins(accepted, k)
  }

  /** What every history keeps, orderly or not. */
  ghost predicate Base(s: State) {
    && DistinctIds(s.log) && (forall m :: m in s.log ==> m.id != 0) && s.from <= |s.log|
    && (forall k :: 0 <= k < |s.accepted| ==> Good(s.accepted[k], s.log))
    && (forall k :: 0 <= k < |s.inFlight| ==> Good(s.inFlight[k], s.log))
    && s.covers == (if s.accepted == [] then 0 else s.accepted[|s.accepted| - 1].cutoff)
  }

  ghost predicate Inv(s: State) {
    && Base(s) && Tiles(s.accepted)
    && |s.inFlight| <= 1 && (|s.inFlight| == 1 ==> s.inFlight[0].start == Frontier(s.accepted))
  }

  lemma IndexUnique(msgs: seq<Message>, i: nat)
    requires DistinctIds(msgs) && i < |msgs| && msgs[i].id != 0
    ensures IndexOf(msgs, msgs[i].id) == i
  {
  }

  lemma TailIndex(log: seq<Message>, from: nat, i: nat)
    requires DistinctIds(log) && from <= i < |log| && log[i].id != 0
    ensures IndexOf(log[from..], log[i].id) == i - from
  {
    var t := log[from..];
    assert forall k :: 0 <= k < |t| ==> t[k] == log[from + k];
    IndexUnique(t, i - from);
  }

  /** A request starts where the last accepted window ended if and only if the tail read still
      reaches back to that place; otherwise it starts at the first message the tail holds. */
  lemma StartExact(s: State)
    requires Base(s)
    ensures var start := s.from + StartOf(s.log[s.from..], s.covers);
            && (start == Frontier(s.accepted) <==> s.from <= Frontier(s.accepted))
            && (s.from > Frontier(s.accepted) ==> start == s.from)
  {
    if s.accepted != [] {
      var last := s.accepted[|s.accepted| - 1];
      if s.from <= last.end {
        IndexUnique(s.log, last.end);
        TailIndex(s.log, s.from, last.end);
      } else {
        var msgs := s.log[s.from..];
        assert forall k :: 0 <= k < |msgs| ==> msgs[k] == s.log[s.from + k];
        assert IndexOf(msgs, s.covers) == |msgs|;
      }
    }
  }

  lemma ChosenShape(msgs: seq<Message>, covers: nat, p: Policy, fits: seq<Message> -> bool)
    ensures var c := Chosen(msgs, covers, p, fits);
            c.Window? ==>
              && c.start == StartOf(msgs, covers) <= c.end && c.end + Keep(p) < |msgs|
              && c.end - c.start + 1 >= Least(p)
  {
    var start := StartOf(msgs, covers);
    if Triggered(msgs, start, p) {
      NarrowedExact(msgs, start, |msgs| - Keep(p) - 1, Least(p), fits);
    }
  }

  /** A request that fires puts one proper span in flight, at the place StartExact says. */
  lemma RequestAdds(s: State, p: Policy, fits: seq<Message> -> bool)
    requires Base(s)
    ensures var t := After(s, Request(p, fits));
            if Chosen(s.log[s.from..], s.covers, p, fits).Window? then
              && |t.inFlight| == |s.inFlight| + 1 && t == s.(inFlight := t.inFlight)
              && t.inFlight[..|s.inFlight|] == s.inFlight && Good(t.inFlight[|s.inFlight|], s.log)
              && t.inFlight[|s.inFlight|].start == s.from + StartOf(s.log[s.from..], s.covers)
            else t == s
  {
    var msgs := s.log[s.from..];
    ChosenShape(msgs, s.covers, p, fits);
    var c := Chosen(msgs, s.covers, p, fits);
    hide Chosen, StartOf;
    if c.Window? {
      SpanIsGood(s, c, p);
    }
  }

  lemma SpanIsGood(s: State, c: Choice, p: Policy)
    requires Base(s) && c.Window?
    requires c.start <= c.end && s.from + c.end + Keep(p) < |s.log| && c.end - c.start + 1 >= Least(p)
    ensures Good(Span(s.from + c.start, s.from + c.end, s.log[s.from..][c.end].id, Least(p), Keep(p)), s.log)
  {
    assert s.log[s.from..][c.end] == s.log[s.from + c.end] && s.log[s.from + c.end] in s.log;
  }

  lemma AppendKeepsBase(s: State, m: Message)
    requires Base(s)
    ensures Base(After(s, Append(m)))
  {
    var t := After(s, Append(m));
    if t != s {
      assert forall i :: 0 <= i < |s.log| ==> t.log[i] == s.log[i];
    }
  }

  lemma ReportKeepsBase(s: State, k: nat, cutoff: nat)
    requires Base(s)
    ensures Base(After(s, Report(k, cutoff)))
  {
    if k < |s.inFlight| {
      var rest := s.inFlight[..k] + s.inFlight[k + 1..];
      assert forall j :: 0 <= j < |rest| ==> rest[j] == s.inFlight[if j < k then j else j + 1];
      hide Good;
    }
  }

  lemma BaseStep(s: State, step: Step)
    requires Base(s)
    ensures Base(After(s, step))
  {
    match step
    case Append(m) => AppendKeepsBase(s, m);
    case Forget(from) =>
    case Request(p, fits) =>
      RequestAdds(s, p, fits);
      hide Good, DistinctIds, Chosen;
    case Report(k, cutoff) => ReportKeepsBase(s, k, cutoff);
  }

  /** The step accepts a window. */
  predicate Accepts(s: State, step: Step) {
    step.Report? && step.request < |s.inFlight| && step.cutoff == s.inFlight[step.request].cutoff
  }

  /** ... and that window starts at the frontier. */
  predicate AtFrontier(s: State, step: Step)
    requires Accepts(s, step)
  {
    s.inFlight[step.request].start == Frontier(s.accepted)
  }

  lemma TilesSnoc(accepted: seq<Span>, r: Span)
    ensures Tiles(accepted + [r]) <==> Tiles(accepted) && r.start == Frontier(accepted)
  {
    var t := accepted + [r];
    forall k | 0 <= k < |accepted| ensures Adjoins(t, k) <==> Adjoins(accepted, k) {
    }
    assert Adjoins(t, |accepted|) <==> r.start == Frontier(accepted);
    if Tiles(t) {
      assert Adjoins(t, |accepted|);
      forall k | 0 <= k < |accepted| ensures Adjoins(accepted, k) { assert Adjoins(t, k); }
    }
  }

  /** A step keeps the tiling if and only if it accepts no window, or one at the frontier. */
  lemma TilingStepExact(s: State, step: Step)
    ensures Tiles(After(s, step).accepted) <==> Tiles(s.accepted) && (Accepts(s, step) ==> AtFrontier(s, step))
  {
    if Accepts(s, step) { TilesSnoc(s.accepted, s.inFlight[step.request]); }
    hide Tiles, Chosen;
  }

  lemma StepKeeps(s: State, step: Step)
    requires Inv(s) && Orderly(s, step)
    ensures Inv(After(s, step))
  {
    BaseStep(s, step);
    TilingStepExact(s, step);
    if step.Request? {
      RequestAdds(s, step.policy, step.fits);
      StartExact(s);
    }
    hide Base, Tiles, Chosen, StartOf;
  }

  lemma {:induction false} BaseReachable(states: seq<State>, steps: seq<Step>, i: nat)
    requires IsHistory(states, steps) && i < |states|
    ensures Base(states[i])
  {
    if i > 0 {
      var k := i - 1;
      BaseReachable(states, steps, k);
      assert states[k + 1] == After(states[k], steps[k]);
      BaseStep(states[k], steps[k]);
    }
  }

  /** Over every history, orderly or not: the accepted windows tile the messages if and only if
      each of them started at the frontier when it was accepted. */
  lemma {:induction false} TilesExactly(states: seq<State>, steps: seq<Step>, i: nat)
    requires IsHistory(states, steps) && i < |states|
    ensures Tiles(states[i].accepted) <==>
            forall j :: 0 <= j < i && Accepts(states[j], steps[j]) ==> AtFrontier(states[j], steps[j])
  {
    if i > 0 {
      var k := i - 1;
      TilesExactly(states, steps, k);
      assert states[k + 1] == After(states[k], steps[k]);
      TilingStepExact(states[k], steps[k]);
    }
  }

  lemma {:induction false} Reachable(states: seq<State>, steps: seq<Step>, i: nat)
    requires IsHistory(states, steps) && i < |states|
    requires forall k :: 0 <= k < |steps| ==> Orderly(states[k], steps[k])
    ensures Inv(states[i])
  {
    if i > 0 {
      var k := i - 1;
      Reachable(states, steps, k);
      assert states[k + 1] == After(states[k], steps[k]) && Orderly(states[k], steps[k]);
      StepKeeps(states[k], steps[k]);
    }
  }

  /** Over every orderly history the accepted windows start at the first message, follow each
      other without gap or overlap, have at least the minimum size, and leave the newest
      messages alone. */
  lemma WindowsTile(states: seq<State>, steps: seq<Step>, i: nat, k: nat)
    requires IsHistory(states, steps) && i < |states| && k < |states[i].accepted|
    requires forall j :: 0 <= j < |steps| ==> Orderly(states[j], steps[j])
    ensures var a := states[i].accepted;
            && a[k].start == (if k == 0 then 0 else a[k - 1].end + 1)
            && a[k].end - a[k].start + 1 >= a[k].size >= 1
            && a[k].end + a[k].kept < |states[i].log|
  {
    Reachable(states, steps, i);
    assert Adjoins(states[i].accepted, k);
  }

  /** Every message is in at most one window, and in one as soon as the frontier has passed it. */
  lemma {:induction false} CoveredOnce(accepted: seq<Span>, n: nat) returns (k: nat)
    requires Tiles(accepted) && n < Frontier(accepted)
    requires forall j :: 0 <= j < |accepted| ==> accepted[j].start <= accepted[j].end
    ensures k < |accepted| && accepted[k].start <= n <= accepted[k].end
    ensures forall j :: 0 <= j < |accepted| && accepted[j].start <= n <= accepted[j].end ==> j == k
    decreases |accepted|
  {
    var last := |accepted| - 1;
    Increasing(accepted, last);
    assert Adjoins(accepted, last);
    if n >= accepted[last].start {
      k := last;
    } else {
      var front := accepted[..last];
      assert last > 0 && front[last - 1] == accepted[last - 1] && accepted[last].start == Frontier(front);
      forall j | 0 <= j < last ensures Adjoins(front, j) { assert Adjoins(accepted, j); }
      k := CoveredOnce(front, n);
      assert forall j :: 0 <= j < last ==> front[j] == accepted[j];
    }
  }

  lemma {:induction false} Increasing(accepted: seq<Span>, k: nat)
    requires Tiles(accepted) && k < |accepted|
    requires forall j :: 0 <= j < |accepted| ==> accepted[j].start <= accepted[j].end
    ensures forall j :: 0 <= j < k ==> accepted[j].end < accepted[k].start
  {
    if k > 0 {
      Increasing(accepted, k - 1);
      assert Adjoins(accepted, k);
      assert accepted[k].start == accepted[k - 1].end + 1;
    }
  }

  /** In every history a request that fires starts at the frontier if and only if the tail read
      still reaches back to it. */
  lemma RequestStartExactly(states: seq<State>, steps: seq<Step>, i: nat)
    requires IsHistory(states, steps) && i < |steps| && steps[i].Request? && states[i + 1] != states[i]
    ensures |states[i + 1].inFlight| == |states[i].inFlight| + 1
    ensures states[i + 1].inFlight[|states[i].inFlight|].start == Frontier(states[i].accepted)
            <==> states[i].from <= Frontier(states[i].accepted)
  {
    var s, step := states[i], steps[i];
    BaseReachable(states, steps, i);
    assert states[i + 1] == After(s, step);
    RequestAdds(s, step.policy, step.fits);
    StartExact(s);
    hide Base, StartOf, Chosen;
  }

  // ----- both conditions are needed -----

  /** A window is never empty, so accepting one moves the frontier: of two spans that start at
      the same frontier only the first accepted one adjoins. */
  lemma SecondReportOverlaps(s: State, j: nat, k: nat)
    requires Base(s) && Tiles(s.accepted) && j < |s.inFlight|
    requires s.inFlight[j].start == Frontier(s.accepted)
    requires var t := After(s, Report(j, s.inFlight[j].cutoff));
             k < |t.inFlight| && t.inFlight[k].start == Frontier(s.accepted)
    ensures var t := After(s, Report(j, s.inFlight[j].cutoff));
            Tiles(t.accepted) && !Tiles(After(t, Report(k, t.inFlight[k].cutoff)).accepted)
  {
    var a := Report(j, s.inFlight[j].cutoff);
    var t := After(s, a);
    TilingStepExact(s, a);
    TilingStepExact(t, Report(k, t.inFlight[k].cutoff));
    hide Tiles;
  }

  /** Once the tail read has lost messages behind the frontier, a request that fires starts at
      the tail's first message, and accepting its window leaves a gap. */
  lemma LostCutoffGap(s: State, p: Policy, fits: seq<Message> -> bool)
    requires Base(s) && Tiles(s.accepted) && s.from > Frontier(s.accepted)
    requires Chosen(s.log[s.from..], s.covers, p, fits).Window?
    ensures var t := After(s, Request(p, fits));
            var k := |s.inFlight|;
            && k < |t.inFlight| && t.inFlight[k].start == s.from > Frontier(s.accepted)
            && !Tiles(After(t, Report(k, t.inFlight[k].cutoff)).accepted)
  {
    RequestAdds(s, p, fits);
    StartExact(s);
    var t := After(s, Request(p, fits));
    TilingStepExact(t, Report(|s.inFlight|, t.inFlight[|s.inFlight|].cutoff));
    hide Chosen, Tiles, StartOf, Base;
  }

  /** Compact as soon as there are two messages, keep one, take at least one. */
  const Eager := Policy(true, 1, 0, 1, 1)

  function Numbered(n: nat): Message { Message(n, 1) }

  lemma AppendAdds(s: State, n: nat)
    requires n != 0 && forall m :: m in s.log ==> m.id != n
    ensures After(s, Append(Numbered(n))) == s.(log := s.log + [Numbered(n)])
  {
    assert forall j :: 0 <= j < |s.log| ==> s.log[j] in s.log;
  }

  /** With two messages in the tail and no cutoff among them the eager request takes the first. */
  lemma EagerRequest(s: State, all: seq<Message> -> bool)
    requires s.from + 2 == |s.log| && (forall x :: all(x)) && StartOf(s.log[s.from..], s.covers) == 0
    ensures After(s, Request(Eager, all)) ==
            s.(inFlight := s.inFlight + [Span(s.from, s.from, s.log[s.from].id, 1, 1)])
  {
    assert Chosen(s.log[s.from..], s.covers, Eager, all) == Window(0, 0);
  }

  lemma Forgets(s: State, from: nat)
    requires s.from <= from <= |s.log|
    ensures After(s, Forget(from)) == s.(from := from)
  {
  }

  lemma TailHasNone(log: seq<Message>, from: nat, covers: nat)
    requires from <= |log| && forall i :: from <= i < |log| ==> log[i].id != covers
    ensures StartOf(log[from..], covers) == 0
  {
    assert forall k :: 0 <= k < |log[from..]| ==> log[from..][k] == log[from + k];
  }

  lemma ReportFirst(s: State, r: Span, rest: seq<Span>)
    requires s.inFlight == [r] + rest
    ensures After(s, Report(0, r.cutoff)) == s.(inFlight := rest, covers := r.cutoff, accepted := s.accepted + [r])
  {
    assert s.inFlight[..0] + s.inFlight[1..] == rest;
  }

  /** One more step at the end of a history. */
  lemma Extended(states: seq<State>, steps: seq<Step>, step: Step) returns (more: seq<State>, taken: seq<Step>)
    requires IsHistory(states, steps)
    ensures IsHistory(more, taken) && |more| == |taken| + 1 && more[|taken|] == After(states[|steps|], step)
  {
    hide After;
    more, taken := states + [After(states[|steps|], step)], steps + [step];
  }

  /** Two messages arrive. */
  lemma TwoArrive() returns (states: seq<State>, steps: seq<Step>)
    ensures IsHistory(states, steps) && |states| == |steps| + 1
    ensures states[|steps|] == State([Numbered(1), Numbered(2)], 0, 0, [], [])
  {
    hide After;
    states, steps := [Init], [];
    AppendAdds(Init, 1);
    states, steps := Extended(states, steps, Append(Numbered(1)));
    AppendAdds(states[|steps|], 2);
    states, steps := Extended(states, steps, Append(Numbered(2)));
  }

  /** A history with two requests in flight: the same window is accepted twice. */
  lemma TwoInFlightOverlap(all: seq<Message> -> bool) returns (states: seq<State>, steps: seq<Step>)
    requires forall x :: all(x)
    ensures IsHistory(states, steps) && |states| == |steps| + 1
    ensures var a := states[|steps|].accepted; |a| == 2 && a[0] == a[1] && !Tiles(a)
  {
    hide After, StartOf, IsHistory;
    var r := Span(0, 0, 1, 1, 1);
    states, steps := TwoArrive();
    TailHasNone(states[|steps|].log, 0, 0);
    EagerRequest(states[|steps|], all);
    states, steps := Extended(states, steps, Request(Eager, all));
    EagerRequest(states[|steps|], all);
    states, steps := Extended(states, steps, Request(Eager, all));
    assert states[|steps|].inFlight == [r] + [r];
    ReportFirst(states[|steps|], r, [r]);
    states, steps := Extended(states, steps, Report(0, 1));
    ReportFirst(states[|steps|], r, []);
    states, steps := Extended(states, steps, Report(0, 1));
    assert states[|steps|].accepted == [r, r] && !Adjoins([r, r], 1);
  }

  /** A history whose tail read loses messages behind the frontier: message 2 is in no window. */
  lemma ForgottenMessageGap(all: seq<Message> -> bool) returns (states: seq<State>, steps: seq<Step>)
    requires forall x :: all(x)
    ensures IsHistory(states, steps) && |states| == |steps| + 1
    ensures var a := states[|steps|].accepted;
            |a| == 2 && a[0].end == 0 && a[1].start == 2 && !Tiles(a)
  {
    hide After, StartOf, IsHistory;
    var two, four := [Numbered(1), Numbered(2)], [Numbered(1), Numbered(2), Numbered(3), Numbered(4)];
    var r, g := Span(0, 0, 1, 1, 1), Span(2, 2, 3, 1, 1);
    states, steps := TwoArrive();
    TailHasNone(two, 0, 0);
    EagerRequest(states[|steps|], all);
    states, steps := Extended(states, steps, Request(Eager, all));
    ReportFirst(states[|steps|], r, []);
    states, steps := Extended(states, steps, Report(0, 1));
    assert states[|steps|] == State(two, 0, 1, [], [r]);
    AppendAdds(states[|steps|], 3);
    states, steps := Extended(states, steps, Append(Numbered(3)));
    AppendAdds(states[|steps|], 4);
    states, steps := Extended(states, steps, Append(Numbered(4)));
    Forgets(states[|steps|], 2);
    states, steps := Extended(states, steps, Forget(2));
    assert states[|steps|] == State(four, 2, 1, [], [r]);
    TailHasNone(four, 2, 1);
    EagerRequest(states[|steps|], all);
    states, steps := Extended(states, steps, Request(Eager, all));
    ReportFirst(states[|steps|], g, []);
    states, steps := Extended(states, steps, Report(0, 3));
    assert states[|steps|].accepted == [r, g] && !Adjoins([r, g], 1);
  }
}
