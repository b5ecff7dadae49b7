/** What holds over a whole life of a run, however often it crashes: an outside-world
    call executes at most once, and a message leaves at most one record a reader of the
    delivery ledger can see. */
module RunLifeLaws {
  import opened ActionRunner
  import opened TornFile
  import opened RunLife
  import opened RunLifeInvariant

  function Count(launches: seq<string>, rid: string): nat {
    if launches == [] then 0
    else Count(launches[..|launches| - 1], rid) + (if launches[|launches| - 1] == rid then 1 else 0)
  }

  // ----- the queue is what the log says -----

  /** In every reachable state of a live run: ids and signatures are distinct and in no
      completed table, and the queue is the log's plan up to recovery's resets. */
  lemma QueueFollowsLog(states: seq<Life>, actions: seq<Action>, c: Setup, i: nat)
    requires IsLife(states, actions, c) && i < |states| && states[i].mode.Up?
    ensures var q := states[i].run.queue;
            RunnerInv(q) && Follows(PlanView(q), PlanOf(states[i].run.log, c.lim), |q.pending|, c)
  {
    Reachable(states, actions, c, i);
  }

  /** A finished replay has rebuilt exactly the plan of the log, whatever it appended itself. */
  lemma ReplayRebuilds(states: seq<Life>, actions: seq<Action>, c: Setup, i: nat)
    requires IsLife(states, actions, c) && i < |states|
    requires states[i].mode.Replaying? && states[i].mode.k == states[i].mode.n
    ensures PlanView(states[i].run.queue) == PlanOf(states[i].run.log, c.lim)
  {
    Reachable(states, actions, c, i);
    ReplayEnds(states[i].run.queue, states[i].run.log, states[i].mode.n, c);
  }

  lemma {:induction false} PlanBounded(log: seq<Event>, lim: Limits)
    ensures |PlanOf(log, lim).pending| <= lim.maxPending && |PlanOf(log, lim).sigs| <= lim.maxCompleted
  {
    if log != [] {
      var m := log[..|log| - 1];
      PlanBounded(m, lim);
      hide PlanOf, MarkedStarted, PendingIndex;
      PlanSnoc(m, log[|log| - 1], lim);
      assert log == m + [log[|log| - 1]];
      MarkedLength(PlanOf(m, lim).pending, log[|log| - 1].rid);
    }
  }

  lemma MarkedLength(q: seq<Pending>, rid: string)
    ensures |MarkedStarted(q, rid)| == |q|
  {
  }

  /** The queue and the signature table of a live run never outgrow their arrays. */
  lemma TablesBounded(states: seq<Life>, actions: seq<Action>, c: Setup, i: nat)
    requires IsLife(states, actions, c) && i < |states| && states[i].mode.Up?
    ensures |states[i].run.queue.pending| <= c.lim.maxPending && |states[i].run.queue.sigs| <= c.lim.maxCompleted
  {
    QueueFollowsLog(states, actions, c, i);
    PlanBounded(states[i].run.log, c.lim);
  }

  // ----- the log only grows -----

  ghost predicate Extends(a: seq<Event>, b: seq<Event>) {
    |a| <= |b| && b[..|a|] == a
  }

  lemma LogGrows(s: Life, a: Action, c: Setup)
    ensures Extends(s.run.log, After(s, a, c).run.log)
  {
    hide Retired, LastOutcome, VerdictOn, Delivers, MarkedStarted, Reconciled, ReplayLine, RequestNoted;
    match a
    case Ask(r, append, emit) => RequestEffect(Logging(s.run, Requested(r.rid, r), append), r, emit, c.lim);
    case Replay(emit) =>
      if s.mode.Replaying? && s.mode.k < |s.run.log| { ReplayGrows(s.run, s.run.log[s.mode.k], emit, c.lim); }
    case Reconcile(readable, reply, append) =>
      if s.mode.Reconciling? && s.mode.i < |s.run.queue.pending| {
        ReconcileGrows(s, s.mode.i, readable, reply, append, c);
      }
    case _ =>
  }

  lemma ReplayGrows(run: RunState, e: Event, emit: Emit, lim: Limits)
    ensures Extends(run.log, ReplayLine(run, e, emit, lim).1.log)
  {
    if e.Requested? { RequestEffect(run, e.request, emit, lim); }
    hide RequestNoted, Retired;
  }

  lemma ReconcileGrows(s: Life, i: nat, readable: bool, reply: BlockReply, append: Append, c: Setup)
    requires i < |s.run.queue.pending|
    ensures Extends(s.run.log, Reconciled(s, i, readable, reply, append, c).run.log)
  {
    var p := s.run.queue.pending[i];
    var w := WorldAt(s, p, readable, reply, c);
    if Finishes(p, w) { RecoveryLog(s.run, p, w, append, c); }
    hide RecoveryFinished, Stuck, Finishes;
  }

  // ----- crossing the boundary is remembered -----

  /** The log knows rid, and if the call is still open it has crossed action_started. */
  ghost predicate Spent(log: seq<Event>, rid: string, lim: Limits) {
    OnLog(log, rid) && AllStarted(PlanOf(log, lim).pending, rid)
  }

  ghost predicate AllStarted(q: seq<Pending>, rid: string) {
    forall j :: 0 <= j < |q| && q[j].rid == rid ==> q[j].started
  }

  lemma NotedStarted(d: Plan, e: Event, rid: string, lim: Limits)
    requires AllStarted(d.pending, rid) && (e.Requested? ==> e.rid != rid && e.request.rid == e.rid)
    ensures AllStarted(Noted(d, e, lim).pending, rid)
  {
  }

  lemma {:induction false} SpentStays(a: seq<Event>, b: seq<Event>, rid: string, lim: Limits)
    requires Extends(a, b) && LogWf(b) && Spent(a, rid, lim)
    ensures Spent(b, rid, lim)
  {
    if |a| < |b| {
      var m, e := b[..|b| - 1], b[|b| - 1];
      assert b == m + [e] && m[..|a|] == a;
      forall j | 0 <= j < |m| && m[j].Requested? ensures NewId(m[..j], m[j].rid) {
        assert m[j] == b[j] && m[..j] == b[..j];
      }
      SpentStays(a, m, rid, lim);
      OnLogGrows(m, b, rid);
      PlanSnoc(m, e, lim);
      NotedStarted(PlanOf(m, lim), e, rid, lim);
    } else {
      assert a == b;
    }
  }

  // ----- which request an entry came from -----

  ghost predicate AskedFor(log: seq<Event>, p: Pending) {
    exists j :: 0 <= j < |log| && log[j].Requested? && NewEntry(log[j].request) == p.(started := false)
  }

  lemma AskedForGrows(log: seq<Event>, e: Event, p: Pending, p': Pending)
    requires AskedFor(log, p) && p'.(started := false) == p.(started := false)
    ensures AskedFor(log + [e], p')
  {
    var j :| 0 <= j < |log| && log[j].Requested? && NewEntry(log[j].request) == p.(started := false);
    assert (log + [e])[j] == log[j];
  }

  lemma {:induction false} PlanWasAsked(log: seq<Event>, lim: Limits)
    ensures forall j :: 0 <= j < |PlanOf(log, lim).pending| ==> AskedFor(log, PlanOf(log, lim).pending[j])
  {
    if log != [] {
      var m, e := log[..|log| - 1], log[|log| - 1];
      assert log == m + [e];
      PlanWasAsked(m, lim);
      var d, t := PlanOf(m, lim), PlanOf(log, lim);
      PlanSnoc(m, e, lim);
      hide PlanOf, AskedFor;
      forall j | 0 <= j < |t.pending| ensures AskedFor(log, t.pending[j]) {
        if o :| 0 <= o < |d.pending| && t.pending[j].(started := false) == d.pending[o].(started := false) {
          AskedForGrows(m, e, d.pending[o], t.pending[j]);
        } else {
          NotedOrigin(d, e, j, lim);
          NewEntryAsked(m, e, t.pending[j]);
        }
      }
    }
  }

  lemma NewEntryAsked(m: seq<Event>, e: Event, p: Pending)
    requires e.Requested? && p == NewEntry(e.request)
    ensures AskedFor(m + [e], p)
  {
    assert (m + [e])[|m|] == e;
  }

  lemma NotedOrigin(d: Plan, e: Event, j: nat, lim: Limits)
    requires j < |Noted(d, e, lim).pending|
    ensures var p := Noted(d, e, lim).pending[j];
            || (exists o :: 0 <= o < |d.pending| && p.(started := false) == d.pending[o].(started := false))
            || (e.Requested? && p == NewEntry(e.request))
  {
    var t := Noted(d, e, lim);
    if e.Terminal? || e.WorkEnded? {
      var k := PendingIndex(d.pending, e.rid);
      var o := if j < k then j else j + 1;
      if k < |d.pending| { assert t.pending[j] == d.pending[o]; } else { assert t.pending[j] == d.pending[j]; }
    } else if j < |d.pending| {
      assert t.pending[j].(started := false) == d.pending[j].(started := false);
    }
  }

  /** rid was requested for an action recovery must not repeat. */
  ghost predicate OutsideId(log: seq<Event>, rid: string, c: Setup) {
    exists j :: 0 <= j < |log| && log[j].Requested? && log[j].rid == rid && !Redoable(NewEntry(log[j].request), c)
  }

  lemma OneRequestPerId(log: seq<Event>, i: nat, j: nat)
    requires LogWf(log) && i < |log| && j < |log| && log[i].Requested? && log[j].Requested? && log[i].rid == log[j].rid
    ensures i == j
  {
    if i < j { EarlierDiffers(log, i, j); }
    if j < i { EarlierDiffers(log, j, i); }
  }

  lemma EarlierDiffers(log: seq<Event>, i: nat, j: nat)
    requires LogWf(log) && i < j < |log| && log[j].Requested?
    ensures log[i].rid != log[j].rid
  {
    assert log[..j][i] == log[i];
  }

  lemma EntryIsOutside(log: seq<Event>, p: Pending, c: Setup)
    requires LogWf(log) && AskedFor(log, p) && OutsideId(log, p.rid, c)
    ensures !Redoable(p, c)
  {
    var i :| 0 <= i < |log| && log[i].Requested? && NewEntry(log[i].request) == p.(started := false);
    var j :| 0 <= j < |log| && log[j].Requested? && log[j].rid == p.rid && !Redoable(NewEntry(log[j].request), c);
    assert log[i].rid == log[i].request.rid == p.(started := false).rid;
    OneRequestPerId(log, i, j);
    assert Redoable(p, c) == Redoable(p.(started := false), c);
  }

  // ----- outside-world calls -----

  ghost predicate AtMostOnce(s: Life, rid: string, c: Setup) {
    && (Count(s.launches, rid) > 0 ==> Spent(s.run.log, rid, c.lim))
    && (OutsideId(s.run.log, rid, c) ==> Count(s.launches, rid) <= 1)
  }

  lemma CountSnoc(l: seq<string>, x: string, rid: string)
    ensures Count(l + [x], rid) == Count(l, rid) + (if x == rid then 1 else 0)
  {
    assert (l + [x])[..|l|] == l;
  }

  /** The entry a launch picks, seen in the plan. */
  lemma LaunchTarget(q: Queue, log: seq<Event>, k: nat, c: Setup)
    requires InStep(q, log, |q.pending|, c) && k < |q.pending| && !q.pending[k].started
    requires OutsideId(log, q.pending[k].rid, c)
    ensures !Spent(log, q.pending[k].rid, c.lim)
  {
    var d := PlanOf(log, c.lim).pending;
    PlanWasAsked(log, c.lim);
    assert Tracks(q.pending[k], d[k], true, c);
    assert d[k].rid == q.pending[k].rid;
    EntryIsOutside(log, d[k], c);
  }

  lemma StartedIsSpent(log: seq<Event>, d: Plan, rid: string, lim: Limits)
    requires d == PlanOf(log, lim) && Distinct(d.pending)
    ensures Spent(log + [ActionStarted(rid)], rid, lim)
  {
    PlanSnoc(log, ActionStarted(rid), lim);
    assert (log + [ActionStarted(rid)])[|log|].rid == rid;
  }

  lemma PlanDistinct(q: Queue, log: seq<Event>, c: Setup)
    requires InStep(q, log, |q.pending|, c)
    ensures Distinct(PlanOf(log, c.lim).pending)
  {
    var d := PlanOf(log, c.lim).pending;
    forall i, j | 0 <= i < j < |d| ensures d[i].rid != d[j].rid && d[i].sig != d[j].sig {
      assert Tracks(q.pending[i], d[i], true, c) && Tracks(q.pending[j], d[j], true, c);
    }
  }

  lemma AtMostOnceStep(s: Life, a: Action, t: Life, rid: string, c: Setup)
    requires Inv(s, c) && AtMostOnce(s, rid, c) && t == After(s, a, c)
    ensures AtMostOnce(t, rid, c)
  {
    InvStep(s, a, c);
    LogGrows(s, a, c);
    assert LogWf(t.run.log);
    if Count(s.launches, rid) > 0 { SpentStays(s.run.log, t.run.log, rid, c.lim); }
    if t.launches != s.launches {
      LaunchOnce(s, a, t, rid, c);
    } else if OutsideId(t.run.log, rid, c) && !OutsideId(s.run.log, rid, c) && Count(s.launches, rid) > 0 {
      SpentIsAsked(s.run.log, t.run.log, rid, c);
    }
  }

  /** A known id gets no second request line. */
  lemma SpentIsAsked(a: seq<Event>, b: seq<Event>, rid: string, c: Setup)
    requires Extends(a, b) && LogWf(b) && OnLog(a, rid) && OutsideId(b, rid, c)
    ensures OutsideId(a, rid, c)
  {
    var j :| 0 <= j < |b| && b[j].Requested? && b[j].rid == rid && !Redoable(NewEntry(b[j].request), c);
    var i :| 0 <= i < |a| && a[i].rid == rid;
    assert a[i] == b[i];
    if i < j { EarlierDiffers(b, i, j); }
    assert a[j] == b[j];
  }

  lemma LaunchShape(s: Life, a: Action, t: Life, c: Setup)
    requires t == After(s, a, c) && t.launches != s.launches
    ensures a.Launch? && s.mode.Up? && t.run.log == s.run.log + [ActionStarted(a.rid)]
    ensures t.launches == s.launches + [a.rid]
    ensures var k := PendingIndex(s.run.queue.pending, a.rid);
            k < |s.run.queue.pending| && !s.run.queue.pending[k].started
  {
    hide RecoveryFinished, ReplayLine, RequestNoted, TerminalEmitted, RejectedEmitted, MarkedStarted;
  }

  lemma OutsideBefore(log: seq<Event>, started: string, rid: string, c: Setup)
    requires OutsideId(log + [ActionStarted(started)], rid, c)
    ensures OutsideId(log, rid, c)
  {
  }

  lemma LaunchOnce(s: Life, a: Action, t: Life, rid: string, c: Setup)
    requires Inv(s, c) && AtMostOnce(s, rid, c) && t == After(s, a, c)
    requires t.launches != s.launches
    ensures Count(t.launches, rid) > Count(s.launches, rid) ==> Spent(t.run.log, rid, c.lim)
    ensures OutsideId(t.run.log, rid, c) ==> Count(t.launches, rid) <= 1
  {
    LaunchShape(s, a, t, c);
    hide After, Count, InStep, Spent, OutsideId, PlanOf;
    var q, log := s.run.queue, s.run.log;
    CountSnoc(s.launches, a.rid, rid);
    PlanDistinct(q, log, c);
    StartedIsSpent(log, PlanOf(log, c.lim), a.rid, c.lim);
    if OutsideId(t.run.log, rid, c) {
      OutsideBefore(log, a.rid, rid, c);
      if rid == a.rid { LaunchTarget(q, log, PendingIndex(q.pending, rid), c); }
    }
  }

  /** A non-message outside-world request (or one for an action the registry no longer
      knows) is executed at most once over the whole life of the run. */
  lemma OutsideWorldAtMostOnce(states: seq<Life>, actions: seq<Action>, c: Setup, i: nat, rid: string)
    requires IsLife(states, actions, c) && i < |states| && OutsideId(states[i].run.log, rid, c)
    ensures Count(states[i].launches, rid) <= 1
  {
    AlwaysAtMostOnce(states, actions, c, i, rid);
  }

  lemma {:induction false} AlwaysAtMostOnce(states: seq<Life>, actions: seq<Action>, c: Setup, i: nat, rid: string)
    requires IsLife(states, actions, c) && i < |states|
    ensures AtMostOnce(states[i], rid, c)
  {
    hide After;
    if i > 0 {
      var k := i - 1;
      AlwaysAtMostOnce(states, actions, c, k, rid);
      Reachable(states, actions, c, k);
      assert states[k + 1] == After(states[k], actions[k], c);
      AtMostOnceStep(states[k], actions[k], states[k + 1], rid, c);
    }
  }

  // ----- messages -----

  lemma RecordSnoc(lines: seq<Line>, x: Line, rid: string)
    ensures CountRecord(lines + [x], rid) == CountRecord(lines, rid) + (if x == Record(rid) then 1 else 0)
  {
    assert (lines + [x])[..|lines|] == lines;
  }

  /** Exactly what a write does to the records of one request: it adds its own record if it
      comes through on a clean tail, and it loses an unended one unless it writes nothing. */
  lemma WriteExact(l: Ledger, x: Line, w: Write, rid: string)
    ensures Deliveries(Written(l, x, w), rid) ==
            CountRecord(l.lines, rid)
            + (if x == Record(rid) && l.tail.Clean? && (w.Whole? || w.AllButNewline?) then 1 else 0)
            + (if l.tail == Unended(Record(rid)) && w.Nothing? then 1 else 0)
  {
    RecordSnoc(l.lines, x, rid);
    RecordSnoc(l.lines, Garbled, rid);
  }

  /** Another run's write makes a record unreadable if and only if that record was still missing
      its newline and the write left anything behind. */
  lemma ForeignGarblesExactly(l: Ledger, w: Write, rid: string)
    ensures Deliveries(Written(l, Foreign, w), rid) < Deliveries(l, rid) <==>
            l.tail == Unended(Record(rid)) && !w.Nothing?
  {
    WriteExact(l, Foreign, w, rid);
  }

  /** A write adds at most its own record. */
  lemma WriteAdds(l: Ledger, x: Line, w: Write, rid: string)
    ensures Deliveries(Written(l, x, w), rid) <= Deliveries(l, rid) + (if x == Record(rid) then 1 else 0)
  {
    WriteExact(l, x, w, rid);
  }

  /** Among the first i live entries, none is a message already on the ledger. */
  ghost predicate Unsent(q: seq<Pending>, i: nat, l: Ledger, rid: string) {
    forall j :: 0 <= j < i && j < |q| && q[j].rid == rid && q[j].action == Message ==> Deliveries(l, rid) == 0
  }

  ghost predicate OneRecord(s: Life, rid: string, c: Setup) {
    && Deliveries(s.ledger, rid) <= 1
    && (Deliveries(s.ledger, rid) > 0 ==> Spent(s.run.log, rid, c.lim))
    && match s.mode
       case Reconciling(i) => Unsent(s.run.queue.pending, i, s.ledger, rid)
       case Up => Unsent(s.run.queue.pending, |s.run.queue.pending|, s.ledger, rid)
       case _ => true
  }

  /** A live started call is started in the plan. */
  lemma LiveStartedIsSpent(q: Queue, log: seq<Event>, k: nat, c: Setup)
    requires InStep(q, log, |q.pending|, c) && k < |q.pending| && q.pending[k].started
    ensures Spent(log, q.pending[k].rid, c.lim)
  {
    var d, rid := PlanOf(log, c.lim).pending, q.pending[k].rid;
    PlanDistinct(q, log, c);
    assert Tracks(q.pending[k], d[k], true, c);
    PendingOnLog(q, log, k, c);
  }

  lemma PendingOnLog(q: Queue, log: seq<Event>, k: nat, c: Setup)
    requires InStep(q, log, |q.pending|, c) && k < |q.pending|
    ensures OnLog(log, q.pending[k].rid)
  {
    var d := PlanOf(log, c.lim).pending;
    PlanWasAsked(log, c.lim);
    assert Tracks(q.pending[k], d[k], true, c) && AskedFor(log, d[k]);
    var j :| 0 <= j < |log| && log[j].Requested? && NewEntry(log[j].request) == d[k].(started := false);
    assert log[j].rid == log[j].request.rid == d[k].(started := false).rid;
  }

  /** The effect of a finish on queue and ledger. */
  lemma FinishShape(s: Life, a: Action, t: Life, c: Setup)
    requires t == After(s, a, c) && a.Finish? && t != s
    ensures s.mode.Up? && (t.mode.Up? || t.mode.Halted?)
    ensures var q := s.run.queue.pending;
            var k := PendingIndex(q, a.rid);
            && k < |q|
            && (t.ledger != s.ledger ==> q[k].started && q[k].action == Message
                                         && t.ledger == Written(s.ledger, Record(a.rid), a.write))
            && (t.mode.Up? ==> t.run.queue == Retired(s.run.queue, a.rid, c.lim))
  {
    hide Written, Retired, Logged;
  }

  lemma RetiredUnsent(q: Queue, k: nat, l: Ledger, l': Ledger, rid: string, lim: Limits)
    requires RunnerInv(q) && k < |q.pending| && Unsent(q.pending, |q.pending|, l, rid)
    requires Deliveries(l', rid) <= Deliveries(l, rid) || q.pending[k].rid == rid
    ensures var t := Retired(q, q.pending[k].rid, lim).pending; Unsent(t, |t|, l', rid)
  {
    FindsItself(q.pending, k);
    RemovedMembers(q.pending, k);
    hide Deliveries;
  }

  lemma FinishOneRecord(s: Life, a: Action, t: Life, rid: string, c: Setup)
    requires Inv(s, c) && OneRecord(s, rid, c) && t == After(s, a, c) && a.Finish?
    ensures OneRecord(t, rid, c)
  {
    InvStep(s, a, c);
    LogGrows(s, a, c);
    assert LogWf(t.run.log);
    if t != s {
      FinishShape(s, a, t, c);
      var q := s.run.queue;
      var k := PendingIndex(q.pending, a.rid);
      assert RunnerInv(q);
      hide After, LogWf, Deliveries, Written, InStep, Spent;
      if t.ledger != s.ledger {
        WriteAdds(s.ledger, Record(a.rid), a.write, rid);
        LiveStartedIsSpent(q, s.run.log, k, c);
      }
      RetiredUnsent(q, k, s.ledger, t.ledger, rid, c.lim);
      hide RunnerInv, Retired;
      if Deliveries(t.ledger, rid) > 0 { SpentStays(s.run.log, t.run.log, rid, c.lim); }
    }
  }

  /** Records of spent requests stay records of spent requests. */
  lemma SpentKept(s: Life, a: Action, t: Life, rid: string, c: Setup)
    requires Inv(s, c) && t == After(s, a, c) && OneRecord(s, rid, c)
    ensures Deliveries(s.ledger, rid) > 0 ==> Spent(t.run.log, rid, c.lim)
  {
    hide After, Deliveries, Spent;
    InvStep(s, a, c);
    LogGrows(s, a, c);
    assert LogWf(t.run.log);
    hide Inv, LogWf;
    if Deliveries(s.ledger, rid) > 0 { SpentStays(s.run.log, t.run.log, rid, c.lim); }
  }

  /** The effect of a request on queue and ledger. */
  lemma AskShape(s: Life, a: Action, t: Life, c: Setup)
    requires Inv(s, c) && t == After(s, a, c) && a.Ask? && t != s
    ensures s.mode.Up? && (t.mode.Up? || t.mode.Halted?) && t.ledger == s.ledger && NewId(s.run.log, a.request.rid)
    ensures t.run.queue.pending == s.run.queue.pending
            || t.run.queue.pending == s.run.queue.pending + [NewEntry(a.request)]
  {
    var r := a.request;
    RequestEffect(Logging(s.run, Requested(r.rid, r), a.append), r, a.emit, c.lim);
    assert s.mode.Up? && NewId(s.run.log, r.rid);
    hide RequestNoted, NewId, InStep, Retired;
    RetiredAbsentIfNew(s.run, r.rid, c);
  }

  lemma AskOneRecord(s: Life, a: Action, t: Life, rid: string, c: Setup)
    requires Inv(s, c) && OneRecord(s, rid, c) && t == After(s, a, c) && a.Ask?
    ensures OneRecord(t, rid, c)
  {
    SpentKept(s, a, t, rid, c);
    if t != s {
      AskShape(s, a, t, c);
      hide After, Inv, Deliveries, PlanOf;
      if rid == a.request.rid { assert !OnLog(s.run.log, rid); }
      hide Spent, NewId;
    }
  }

  lemma RetiredAbsentIfNew(run: RunState, rid: string, c: Setup)
    requires InStep(run.queue, run.log, |run.queue.pending|, c) && NewId(run.log, rid)
    ensures Retired(run.queue, rid, c.lim).pending == run.queue.pending
  {
    var k := PendingIndex(run.queue.pending, rid);
    if k < |run.queue.pending| { PendingOnLog(run.queue, run.log, k, c); }
  }

  /** Steps that leave the ledger's own records alone and put no call back. */
  lemma QuietOneRecord(s: Life, a: Action, t: Life, rid: string, c: Setup)
    requires Inv(s, c) && OneRecord(s, rid, c) && t == After(s, a, c)
    requires a.Refuse? || a.Launch? || a.EndWork? || a.ForeignDelivery? || a.Crash? || a.Boot? || a.Replay?
    ensures OneRecord(t, rid, c)
  {
    SpentKept(s, a, t, rid, c);
    QuietShape(s, a, t, c);
    if a.ForeignDelivery? { WriteAdds(s.ledger, Foreign, a.write, rid); }
    hide After, Inv, Deliveries, Written, Spent;
    if t.mode.Up? {
      var q, q' := s.run.queue.pending, t.run.queue.pending;
      forall j | 0 <= j < |q'| && q'[j].rid == rid && q'[j].action == Message ensures Deliveries(t.ledger, rid) == 0 {
        assert ComesFrom(q'[j], q);
        var o :| 0 <= o < |q| && SameCall(q[o], q'[j]);
      }
    }
  }

  ghost predicate ComesFrom(p: Pending, q: seq<Pending>) {
    exists o :: 0 <= o < |q| && SameCall(q[o], p)
  }

  predicate SameCall(p: Pending, q: Pending) {
    p.rid == q.rid && p.action == q.action
  }

  lemma RetiredComesFrom(q: Queue, rid: string, lim: Limits)
    ensures var d := Retired(q, rid, lim).pending;
            forall j :: 0 <= j < |d| ==> ComesFrom(d[j], q.pending)
  {
    var d, k := Retired(q, rid, lim).pending, PendingIndex(q.pending, rid);
    forall j | 0 <= j < |d| ensures ComesFrom(d[j], q.pending) {
      assert SameCall(q.pending[if j < k then j else j + 1], d[j]);
    }
  }

  lemma QuietShape(s: Life, a: Action, t: Life, c: Setup)
    requires t == After(s, a, c)
    requires a.Refuse? || a.Launch? || a.EndWork? || a.ForeignDelivery? || a.Crash? || a.Boot? || a.Replay?
    ensures t.ledger == if a.ForeignDelivery? then Written(s.ledger, Foreign, a.write) else s.ledger
    ensures t.mode.Up? ==> s.mode.Up? && forall j :: 0 <= j < |t.run.queue.pending| ==>
                             ComesFrom(t.run.queue.pending[j], s.run.queue.pending)
    ensures t.mode.Reconciling? ==> t.mode.i == 0 || (a.ForeignDelivery? && t.mode == s.mode && t.run == s.run)
                                    || t == s
  {
    hide Written, ReplayLine, Retired;
    var q, q' := s.run.queue.pending, t.run.queue.pending;
    if t.mode.Up? {
      if a.Refuse? || a.EndWork? { RetiredComesFrom(s.run.queue, a.rid, c.lim); }
      if q' == q || a.Launch? {
        forall j | 0 <= j < |q'| ensures ComesFrom(q'[j], q) { assert SameCall(q[j], q'[j]); }
      }
    }
  }

  lemma UnsentRemoved(q: seq<Pending>, i: nat, l: Ledger, rid: string)
    requires i < |q| && Unsent(q, i, l, rid)
    ensures Unsent(Removed(q, i), i, l, rid)
  {
    hide Deliveries;
    assert forall j :: 0 <= j < i ==> Removed(q, i)[j] == q[j];
  }

  lemma UnsentReset(q: seq<Pending>, i: nat, l: Ledger, rid: string)
    requires i < |q| && Unsent(q, i, l, rid)
    requires q[i].rid == rid && q[i].action == Message ==> Deliveries(l, rid) == 0
    ensures Unsent(q[i := q[i].(started := false)], i + 1, l, rid)
  {
    hide Deliveries;
  }

  /** One turn of reconciliation leaves nothing that is on the ledger before the cursor. */
  lemma ReconcileUnsent(s: Life, a: Action, t: Life, rid: string, c: Setup)
    requires Inv(s, c) && OneRecord(s, rid, c) && t == After(s, a, c) && a.Reconcile?
    requires s.mode.Reconciling? && s.mode.i < |s.run.queue.pending|
    ensures t.ledger == s.ledger && !t.mode.Up?
    ensures t.mode.Reconciling? ==> Unsent(t.run.queue.pending, t.mode.i, t.ledger, rid)
  {
    hide After, Deliveries, Spent, Unsent, Finishes, RunnerInv, WorldAt, Removed;
    var i, q := s.mode.i, s.run.queue.pending;
    assert InStep(s.run.queue, s.run.log, i, c) && RunnerInv(s.run.queue);
    hide Inv, InStep;
    EntryUnsent(s, i, rid, a.ledgerReadable, a.reply, c);
    ReconcileShape(s, a, t, c);
    if Finishes(q[i], WorldAt(s, q[i], a.ledgerReadable, a.reply, c)) {
      UnsentRemoved(q, i, s.ledger, rid);
    } else {
      UnsentReset(q, i, s.ledger, rid);
    }
  }

  lemma ReconcileRests(s: Life, a: Action, t: Life, c: Setup)
    requires t == After(s, a, c) && a.Reconcile? && !(s.mode.Reconciling? && s.mode.i < |s.run.queue.pending|)
    ensures t == s || (s.mode.Reconciling? && t == s.(mode := Up))
  {
  }

  lemma ReconcileOneRecord(s: Life, a: Action, t: Life, rid: string, c: Setup)
    requires Inv(s, c) && OneRecord(s, rid, c) && t == After(s, a, c) && a.Reconcile?
    ensures OneRecord(t, rid, c)
  {
    hide After, Inv, Deliveries, Spent;
    SpentKept(s, a, t, rid, c);
    if s.mode.Reconciling? && s.mode.i < |s.run.queue.pending| {
      hide Unsent;
      ReconcileUnsent(s, a, t, rid, c);
    } else {
      ReconcileRests(s, a, t, c);
    }
  }

  /** An entry recovery keeps is not on the ledger: a started one was looked up, an
      unstarted one never delivered. */
  lemma EntryUnsent(s: Life, i: nat, rid: string, readable: bool, reply: BlockReply, c: Setup)
    requires InStep(s.run.queue, s.run.log, i, c) && i < |s.run.queue.pending|
    requires Deliveries(s.ledger, rid) > 0 ==> Spent(s.run.log, rid, c.lim)
    ensures var p := s.run.queue.pending[i];
            p.rid == rid && p.action == Message && !Finishes(p, WorldAt(s, p, readable, reply, c))
            ==> Deliveries(s.ledger, rid) == 0
  {
    var p, d := s.run.queue.pending[i], PlanOf(s.run.log, c.lim).pending;
    assert Tracks(p, d[i], i < i, c);
  }

  lemma ReconcileShape(s: Life, a: Action, t: Life, c: Setup)
    requires t == After(s, a, c) && a.Reconcile? && s.mode.Reconciling? && s.mode.i < |s.run.queue.pending|
    requires RunnerInv(s.run.queue)
    ensures t.ledger == s.ledger && !t.mode.Up?
    ensures var i, q := s.mode.i, s.run.queue.pending;
            t.mode.Reconciling? ==>
              if Finishes(q[i], WorldAt(s, q[i], a.ledgerReadable, a.reply, c))
              then t.mode.i == i && t.run.queue.pending == Removed(q, i)
              else t.mode.i == i + 1 && t.run.queue.pending == q[i := q[i].(started := false)]
  {
    var i, q := s.mode.i, s.run.queue.pending;
    var w := WorldAt(s, q[i], a.ledgerReadable, a.reply, c);
    FindsItself(q, i);
    if Finishes(q[i], w) { RecoveryLog(s.run, q[i], w, a.append, c); }
    hide RecoveryFinished, Finishes, Stuck;
  }

  lemma {:induction false} AlwaysOneRecord(states: seq<Life>, actions: seq<Action>, c: Setup, i: nat, rid: string)
    requires IsLife(states, actions, c) && i < |states|
    ensures OneRecord(states[i], rid, c)
  {
    hide After, Inv;
    if i > 0 {
      var k := i - 1;
      AlwaysOneRecord(states, actions, c, k, rid);
      Reachable(states, actions, c, k);
      var s, a, t := states[k], actions[k], states[k + 1];
      assert t == After(s, a, c);
      hide OneRecord, IsLife;
      match a
      case Ask(_, _, _) => AskOneRecord(s, a, t, rid, c);
      case Finish(_, _, _, _, _, _, _) => FinishOneRecord(s, a, t, rid, c);
      case Reconcile(_, _, _) => ReconcileOneRecord(s, a, t, rid, c);
      case _ => QuietOneRecord(s, a, t, rid, c);
    }
  }

  /** However the run crashes and whatever the other runs write, a request leaves at most
      one readable delivery record. */
  lemma MessageAtMostOneRecord(states: seq<Life>, actions: seq<Action>, c: Setup, i: nat, rid: string)
    requires IsLife(states, actions, c) && i < |states|
    ensures Deliveries(states[i].ledger, rid) <= 1
  {
    AlwaysOneRecord(states, actions, c, i, rid);
  }

  /** The action hands a message of this request to the ledger. */
  ghost predicate HandsOver(s: Life, a: Action, rid: string) {
    && a.Finish? && a.rid == rid && s.mode.Up? && a.outcome.Succeeded?
    && var q := s.run.queue.pending;
       var k := PendingIndex(q, rid);
       k < |q| && q[k].started && Delivers(a.outcome, q[k].action, a.reason, a.emit)
  }

  /** A message is handed over only while the ledger shows no record of it. */
  lemma HandOverNeedsNoRecord(states: seq<Life>, actions: seq<Action>, c: Setup, j: nat, rid: string)
    requires IsLife(states, actions, c) && j < |actions| && HandsOver(states[j], actions[j], rid)
    ensures Deliveries(states[j].ledger, rid) == 0
  {
    AlwaysOneRecord(states, actions, c, j, rid);
    hide Deliveries, Spent;
  }

  /** Complete lines stay. */
  lemma LinesStay(s: Life, a: Action, c: Setup, rid: string)
    ensures CountRecord(After(s, a, c).ledger.lines, rid) >= CountRecord(s.ledger.lines, rid)
  {
    hide TerminalEmitted, RejectedEmitted, RequestNoted, RecoveryFinished, ReplayLine, StartedEmitted;
    forall x: Line ensures CountRecord(s.ledger.lines + [x], rid) >= CountRecord(s.ledger.lines, rid) {
      RecordSnoc(s.ledger.lines, x, rid);
    }
    hide CountRecord;
  }

  lemma {:induction false} LinesStayFor(states: seq<Life>, actions: seq<Action>, c: Setup, i: nat, j: nat, rid: string)
    requires IsLife(states, actions, c) && i <= j < |states|
    ensures CountRecord(states[j].ledger.lines, rid) >= CountRecord(states[i].ledger.lines, rid)
  {
    hide After, CountRecord;
    if i < j {
      LinesStayFor(states, actions, c, i, j - 1, rid);
      LinesStay(states[j - 1], actions[j - 1], c, rid);
      assert states[j - 1 + 1] == After(states[j - 1], actions[j - 1], c);
    }
  }

  /** Once a record is a complete line of the ledger, its message is never handed over again,
      whatever crashes follow. */
  lemma CompleteRecordIsFinal(states: seq<Life>, actions: seq<Action>, c: Setup, i: nat, j: nat, rid: string)
    requires IsLife(states, actions, c) && i <= j < |actions| && CountRecord(states[i].ledger.lines, rid) >= 1
    ensures !HandsOver(states[j], actions[j], rid)
  {
    LinesStayFor(states, actions, c, i, j, rid);
    if HandsOver(states[j], actions[j], rid) { HandOverNeedsNoRecord(states, actions, c, j, rid); }
  }

  /** What a successful message leaves: its record is readable if and only if the run has an
      origin, the text could be read, the ledger's tail was clean and all of the record came
      through, whatever became of the terminal's own append. */
  lemma SuccessHasRecordExactly(s: Life, k: nat, result: Json, e: Emit, w: Write, c: Setup)
    requires Inv(s, c) && s.mode.Up? && k < |s.run.queue.pending|
    requires OneRecord(s, s.run.queue.pending[k].rid, c)
    requires s.run.queue.pending[k].started && s.run.queue.pending[k].action == Message
    ensures var rid := s.run.queue.pending[k].rid;
            var t := After(s, Finish(rid, Succeeded, NoReason, result, Null, e, w), c);
            && t.run.log == Logged(s.run.log, Terminal(rid, Succeeded, Message, NoReason, result, Null), e.append)
            && Deliveries(t.ledger, rid) <= 1
            && (Deliveries(t.ledger, rid) == 1 <==>
                e.hasOrigin && e.textReadable && s.ledger.tail.Clean? && (w.Whole? || w.AllButNewline?))
  {
    var rid := s.run.queue.pending[k].rid;
    FindsItself(s.run.queue.pending, k);
    WriteExact(s.ledger, Record(rid), w, rid);
    hide InStep, Retired, Written, Spent;
  }

  /** So the error of the ledger write being ignored, every torn write, and every write onto a
      torn tail, ends in a logged success that no reader of the ledger sees. */
  lemma SuccessWithoutRecord(s: Life, k: nat, result: Json, w: Write, c: Setup)
    requires Inv(s, c) && s.mode.Up? && k < |s.run.queue.pending|
    requires OneRecord(s, s.run.queue.pending[k].rid, c)
    requires s.run.queue.pending[k].started && s.run.queue.pending[k].action == Message
    requires !s.ledger.tail.Clean? || w.Part? || w.Nothing?
    ensures var rid := s.run.queue.pending[k].rid;
            var t := After(s, Finish(rid, Succeeded, NoReason, result, Null, Emit(Ok, true, true), w), c);
            && t.run.log == s.run.log + [Terminal(rid, Succeeded, Message, NoReason, result, Null)]
            && Deliveries(t.ledger, rid) == 0
  {
    hide Inv, After, OneRecord, Deliveries;
    SuccessHasRecordExactly(s, k, result, Emit(Ok, true, true), w, c);
  }

  /** The same at every step of every life. */
  lemma SuccessRecordedExactly(states: seq<Life>, actions: seq<Action>, c: Setup, j: nat)
    requires IsLife(states, actions, c) && j < |actions| && actions[j].Finish? && states[j].mode.Up?
    requires actions[j].outcome.Succeeded? && actions[j].reason.NoReason? && actions[j].error == Null
    requires var q := states[j].run.queue.pending;
             var k := PendingIndex(q, actions[j].rid);
             k < |q| && q[k].started && q[k].action == Message
    ensures var a := actions[j];
            Deliveries(states[j + 1].ledger, a.rid) == 1 <==>
            && a.emit.hasOrigin && a.emit.textReadable
            && states[j].ledger.tail.Clean? && (a.write.Whole? || a.write.AllButNewline?)
  {
    hide After, Inv, OneRecord, Deliveries;
    var s, a := states[j], actions[j];
    var k := PendingIndex(s.run.queue.pending, a.rid);
    Reachable(states, actions, c, j);
    AlwaysOneRecord(states, actions, c, j, a.rid);
    assert s.run.queue.pending[k].rid == a.rid;
    SuccessHasRecordExactly(s, k, a.result, a.emit, a.write, c);
    assert a == Finish(a.rid, Succeeded, NoReason, a.result, Null, a.emit, a.write);
    assert states[j + 1] == After(s, a, c);
  }

  /** In every life recovery keeps a started message for sending if and only if it can read the
      ledger and finds no record of it. */
  lemma ResendsExactly(states: seq<Life>, actions: seq<Action>, c: Setup, j: nat, i: nat)
    requires IsLife(states, actions, c) && j < |actions| && actions[j].Reconcile?
    requires states[j].mode == Reconciling(i) && i < |states[j].run.queue.pending|
    requires states[j].run.queue.pending[i].started && states[j].run.queue.pending[i].action == Message
    ensures var p := states[j].run.queue.pending[i];
            states[j + 1].mode == Reconciling(i + 1)
            && i < |states[j + 1].run.queue.pending| && states[j + 1].run.queue.pending[i] == p.(started := false) <==>
            actions[j].ledgerReadable && Deliveries(states[j].ledger, p.rid) == 0
  {
    assert states[j + 1] == After(states[j], actions[j], c);
    hide InStep, Deliveries, TerminalEmitted, Retired;
  }

  // ----- replay writes -----

  /** The verdicts that make note_request log a line. */
  predicate Answers(v: Verdict) {
    v.IdDone? || v.SigInFlight? || v.SigDone? || v.Full?
  }

  /** Replaying a line appends to the log if and only if it is a request that was not queued:
      its rejection, overflow or memoised answer is written once more at every restart. */
  lemma ReplayWritesExactly(run: RunState, e: Event, emit: Emit, lim: Limits)
    requires !emit.append.Lost?
    ensures ReplayLine(run, e, emit, lim).1.log != run.log <==>
            e.Requested? && Answers(VerdictOn(run.queue, e.request, lim))
  {
    hide Retired, LastOutcome, VerdictOn, MarkedStarted;
    if e.Requested? && Answers(VerdictOn(run.queue, e.request, lim)) {
      assert |ReplayLine(run, e, emit, lim).1.log| == |run.log| + 1;
    }
  }

  lemma FreshMovesPlan(q: Queue, r: Request, lim: Limits)
    requires r.rid != "" && r.rid !in q.ids && PendingIndex(q.pending, r.rid) == |q.pending|
    ensures Answers(VerdictOn(q, r, lim)) <==> Noted(PlanView(q), Requested(r.rid, r), lim) == PlanView(q)
  {
    assert |q.pending + [NewEntry(r)]| != |q.pending|;
  }

  lemma PlannedIsLogged(log: seq<Event>, k: nat, lim: Limits, i: nat)
    requires LogWf(log) && k <= |log| && i < |PlanOf(log[..k], lim).pending|
    ensures OnLog(log[..k], PlanOf(log[..k], lim).pending[i].rid)
  {
    var d := PlanOf(log[..k], lim).pending;
    PlanWasAsked(log[..k], lim);
    hide PlanOf;
    var j :| 0 <= j < k && log[..k][j].Requested? && NewEntry(log[..k][j].request) == d[i].(started := false);
    assert log[j] == log[..k][j] && d[i].rid == d[i].(started := false).rid;
  }

  lemma NewIdNotPlanned(log: seq<Event>, k: nat, lim: Limits, rid: string)
    requires LogWf(log) && k <= |log| && NewId(log[..k], rid)
    ensures var d := PlanOf(log[..k], lim).pending; PendingIndex(d, rid) == |d|
  {
    hide PlanOf;
    var d := PlanOf(log[..k], lim).pending;
    forall i | 0 <= i < |d| ensures d[i].rid != rid { PlannedIsLogged(log, k, lim, i); }
  }

  lemma ReplayLogs(states: seq<Life>, actions: seq<Action>, c: Setup, j: nat)
    requires IsLife(states, actions, c) && j < |actions| && actions[j].Replay?
    requires var s := states[j]; s.mode.Replaying? && s.mode.k < s.mode.n && s.mode.k < |s.run.log|
    ensures var s := states[j];
            states[j + 1].run.log == ReplayLine(s.run, s.run.log[s.mode.k], actions[j].emit, c.lim).1.log
  {
    hide ReplayLine;
    assert states[j + 1] == After(states[j], actions[j], c);
  }

  /** In every life, replay writes while it reads a line if and only if that line is a request
      that leaves the plan of the lines before it as it was: each such request is answered
      again at every restart, and no other line is. */
  lemma RestartAnswersExactly(states: seq<Life>, actions: seq<Action>, c: Setup, j: nat)
    requires IsLife(states, actions, c) && j < |actions| && actions[j].Replay? && !actions[j].emit.append.Lost?
    requires states[j].mode.Replaying? && states[j].mode.k < states[j].mode.n
    ensures var log, k := states[j].run.log, states[j].mode.k;
            && k < |log|
            && (states[j + 1].run.log != log <==>
                log[k].Requested? && PlanOf(log[..k + 1], c.lim) == PlanOf(log[..k], c.lim))
  {
    var s := states[j];
    var q, log, k := s.run.queue, s.run.log, s.mode.k;
    Reachable(states, actions, c, j);
    ReplayWritesExactly(s.run, log[k], actions[j].emit, c.lim);
    ReplayLogs(states, actions, c, j);
    hide IsLife, ReplayLine, Leftover, RunnerInv, Noted;
    if log[k].Requested? {
      var r := log[k].request;
      NewIdNotDone(q.ids, log[..k], r.rid);
      assert log[..k + 1] == log[..k] + [log[k]];
      PlanSnoc(log[..k], log[k], c.lim);
      NewIdNotPlanned(log, k, c.lim, r.rid);
      FreshMovesPlan(q, r, c.lim);
    }
  }
}
