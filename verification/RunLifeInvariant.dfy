/** Every step of a run's life keeps the live queue equal to what the log says, so
    recovery rebuilds the queue the crashed process had. */
module RunLifeInvariant {
  import opened ActionRunner
  import opened TornFile
  import opened RunLife

  // ----- lookups agree -----

  ghost predicate SameCalls(a: seq<Pending>, b: seq<Pending>) {
    |a| == |b| && forall j :: 0 <= j < |a| ==> a[j].(started := false) == b[j].(started := false)
  }

  lemma SameLookups(a: seq<Pending>, b: seq<Pending>, rid: string, sig: string)
    requires SameCalls(a, b)
    ensures PendingIndex(a, rid) == PendingIndex(b, rid) && SigIndex(a, sig) == SigIndex(b, sig)
  {
    assert forall j :: 0 <= j < |a| ==> a[j].rid == a[j].(started := false).rid && a[j].sig == a[j].(started := false).sig;
    assert forall j :: 0 <= j < |b| ==> b[j].rid == b[j].(started := false).rid && b[j].sig == b[j].(started := false).sig;
  }

  lemma FollowsSame(live: Plan, d: Plan, i: nat, c: Setup)
    requires Follows(live, d, i, c)
    ensures SameCalls(live.pending, d.pending)
  {
  }

  /** Noting a line keeps the live queue in step with the plan. */
  lemma NotedFollows(live: Plan, d: Plan, e: Event, c: Setup)
    requires Follows(live, d, |live.pending|, c)
    ensures var l := Noted(live, e, c.lim); Follows(l, Noted(d, e, c.lim), |l.pending|, c)
  {
    FollowsSame(live, d, |live.pending|, c);
    SameLookups(live.pending, d.pending, e.rid, if e.Requested? then e.request.sig else "");
    if e.Terminal? || e.WorkEnded? {
      EndedFollows(live, d, e.rid, |live.pending|, c);
    }
  }

  /** Ending a call, before or at the cursor. */
  lemma EndedFollows(live: Plan, d: Plan, rid: string, i: nat, c: Setup)
    requires Follows(live, d, i, c) && i <= |live.pending|
    ensures var k := PendingIndex(live.pending, rid);
            Follows(Ended(live, rid, c.lim), Ended(d, rid, c.lim), if k < i then i - 1 else i, c)
  {
    FollowsSame(live, d, i, c);
    SameLookups(live.pending, d.pending, rid, "");
    var k := PendingIndex(live.pending, rid);
    if k < |live.pending| {
      assert Tracks(live.pending[k], d.pending[k], k < i, c);
      RemovedTracks(live.pending, d.pending, k, i, c);
      hide Tracks, SameCalls;
    }
  }

  lemma RemovedTracks(a: seq<Pending>, b: seq<Pending>, k: nat, i: nat, c: Setup)
    requires |a| == |b| && k < |a|
    requires forall j :: 0 <= j < |a| ==> Tracks(a[j], b[j], j < i, c)
    ensures forall j :: 0 <= j < |a| - 1 ==>
              Tracks(Removed(a, k)[j], Removed(b, k)[j], j < if k < i then i - 1 else i, c)
  {
    forall j | 0 <= j < |a| - 1
      ensures Tracks(Removed(a, k)[j], Removed(b, k)[j], j < if k < i then i - 1 else i, c)
    {
      var o := if j < k then j else j + 1;
      assert Tracks(a[o], b[o], o < i, c);
    }
  }

  lemma EndedNoop(d: Plan, e: Event, lim: Limits)
    requires e.Terminal? || e.WorkEnded? || e.OverflowError?
    requires PendingIndex(d.pending, e.rid) == |d.pending|
    ensures Noted(d, e, lim) == d
  {
  }

  // ----- the log -----

  lemma LogWfSnoc(log: seq<Event>, e: Event)
    requires LogWf(log)
    requires e.Requested? ==> e.request.rid == e.rid && e.request.sig != "" && NewId(log, e.rid)
    ensures LogWf(log + [e])
  {
    var t := log + [e];
    forall j | 0 <= j < |t| && t[j].Requested?
      ensures t[j].request.rid == t[j].rid && t[j].request.sig != "" && NewId(t[..j], t[j].rid)
    {
      assert t[..j] == log[..j];
      if j == |log| { assert log[..j] == log; }
    }
  }

  lemma LogWfLogged(log: seq<Event>, e: Event, append: Append)
    requires LogWf(log)
    requires e.Requested? ==> e.request.rid == e.rid && e.request.sig != "" && NewId(log, e.rid)
    ensures LogWf(Logged(log, e, append))
  {
    LogWfSnoc(log, e);
  }

  lemma OnLogGrows(a: seq<Event>, b: seq<Event>, rid: string)
    requires OnLog(a, rid) && |a| <= |b| && b[..|a|] == a
    ensures OnLog(b, rid)
  {
    var j :| 0 <= j < |a| && a[j].rid == rid;
    assert b[j] == b[..|a|][j];
  }

  lemma IdsOnGrows(ids: seq<string>, a: seq<Event>, b: seq<Event>)
    requires IdsOn(ids, a) && |a| <= |b| && b[..|a|] == a
    ensures IdsOn(ids, b)
  {
    forall rid | rid in ids ensures OnLog(b, rid) { OnLogGrows(a, b, rid); }
  }

  // ----- noting a request -----

  /** At most one line, and it is about rid. */
  ghost predicate OneLine(before: seq<Event>, after: seq<Event>, rid: string) {
    || after == before
    || (&& |after| == |before| + 1 && after[..|before|] == before && after[|before|].rid == rid
        && (after[|before|].Terminal? || after[|before|].OverflowError?))
  }

  lemma RequestEffect(run: RunState, r: Request, emit: Emit, lim: Limits)
    ensures var t, v := RequestNoted(run, r, emit, lim).1, VerdictOn(run.queue, r, lim);
            && t.deliveries == run.deliveries && OneLine(run.log, t.log, r.rid)
            && (v.Fresh? ==> t.log == run.log && t.queue == run.queue.(pending := run.queue.pending + [NewEntry(r)]))
            && (v.NoId? || v.InFlight? || v.Full? ==> t.queue == run.queue)
            && (!v.Fresh? ==> t.queue == run.queue || t.queue == Retired(run.queue, r.rid, lim))
            && (v.InFlight? ==> t.log == run.log)
  {
    hide LastOutcome, Retired, VerdictOn;
  }

  lemma RetiredAbsent(q: Queue, rid: string, lim: Limits)
    requires PendingIndex(q.pending, rid) == |q.pending|
    ensures var t := Retired(q, rid, lim);
            t.pending == q.pending && t.sigs == q.sigs && (t.ids == q.ids || t.ids == q.ids + [rid])
  {
  }

  /** A request with a new id moves the tables as the plan says; anything it logs is a
      line about a call that is not queued. */
  lemma RequestMoves(run: RunState, r: Request, emit: Emit, lim: Limits)
    requires RunnerInv(run.queue) && r.rid != "" && r.sig != "" && r.rid !in run.queue.ids
    ensures var t := RequestNoted(run, r, emit, lim).1;
            && RunnerInv(t.queue)
            && PlanView(t.queue) == Noted(PlanView(run.queue), Requested(r.rid, r), lim)
            && (t.queue.ids == run.queue.ids || t.queue.ids == run.queue.ids + [r.rid])
            && t.deliveries == run.deliveries && OneLine(run.log, t.log, r.rid)
            && (t.log == run.log || PendingIndex(t.queue.pending, r.rid) == |t.queue.pending|)
  {
    RequestEffect(run, r, emit, lim);
    var q, v := run.queue, VerdictOn(run.queue, r, lim);
    hide RequestNoted;
    if v.Fresh? {
      assert RunnerInv(q.(pending := q.pending + [NewEntry(r)]));
    } else if !v.InFlight? {
      RetiredKeepsInv(q, r.rid, lim);
      RetiredAbsent(q, r.rid, lim);
      hide Retired;
    }
  }

  // ----- lines that move tables and log together -----

  lemma IdsOnSnoc(ids: seq<string>, ids': seq<string>, log: seq<Event>, e: Event)
    requires IdsOn(ids, log) && (ids' == ids || ids' == ids + [e.rid])
    ensures IdsOn(ids', log + [e])
  {
    IdsOnGrows(ids, log, log + [e]);
    assert (log + [e])[|log|].rid == e.rid;
  }

  /** A terminal line retires its call in both. */
  lemma TerminalInStep(q: Queue, log: seq<Event>, e: Event, i: nat, c: Setup)
    requires InStep(q, log, i, c) && (e.Terminal? || e.WorkEnded?)
    ensures var k := PendingIndex(q.pending, e.rid);
            InStep(Retired(q, e.rid, c.lim), log + [e], if k < i then i - 1 else i, c)
  {
    LogWfSnoc(log, e);
    RetiredKeepsInv(q, e.rid, c.lim);
    IdsOnSnoc(q.ids, Retired(q, e.rid, c.lim).ids, log, e);
    PlanSnoc(log, e, c.lim);
    EndedFollows(PlanView(q), PlanOf(log, c.lim), e.rid, i, c);
    hide RunnerInv, LogWf, Follows, PlanOf;
    assert PlanView(Retired(q, e.rid, c.lim)) == Ended(PlanView(q), e.rid, c.lim);
  }

  lemma StartedInStep(q: Queue, log: seq<Event>, rid: string, c: Setup)
    requires InStep(q, log, |q.pending|, c)
    ensures InStep(q.(pending := MarkedStarted(q.pending, rid)), log + [ActionStarted(rid)], |q.pending|, c)
  {
    var e := ActionStarted(rid);
    var k := PendingIndex(q.pending, rid);
    LogWfSnoc(log, e);
    IdsOnSnoc(q.ids, q.ids, log, e);
    PlanSnoc(log, e, c.lim);
    NotedFollows(PlanView(q), PlanOf(log, c.lim), e, c);
    if k < |q.pending| { ResetKeepsInv(q, k); }
  }

  lemma NewIdNotDone(ids: seq<string>, log: seq<Event>, rid: string)
    requires IdsOn(ids, log) && NewId(log, rid)
    ensures rid !in ids
  {
  }

  /** A line about a call that is not queued changes nothing. */
  lemma IdleLineInStep(q: Queue, log: seq<Event>, e: Event, c: Setup)
    requires InStep(q, log, |q.pending|, c) && (e.Terminal? || e.OverflowError?)
    requires PendingIndex(q.pending, e.rid) == |q.pending|
    ensures InStep(q, log + [e], |q.pending|, c)
  {
    LogWfSnoc(log, e);
    IdsOnSnoc(q.ids, q.ids, log, e);
    PlanSnoc(log, e, c.lim);
    var d := PlanOf(log, c.lim);
    FollowsSame(PlanView(q), d, |q.pending|, c);
    SameLookups(q.pending, d.pending, e.rid, "");
    EndedNoop(d, e, c.lim);
  }

  lemma AskedInStep(run: RunState, r: Request, emit: Emit, c: Setup)
    requires InStep(run.queue, run.log, |run.queue.pending|, c) && r.sig != "" && NewId(run.log, r.rid)
    ensures var e := Requested(r.rid, r);
            var t := RequestNoted(Logging(run, e, Ok), r, emit, c.lim).1;
            InStep(t.queue, t.log, |t.queue.pending|, c)
  {
    hide RequestNoted, Noted, PlanOf, Follows, RunnerInv, IdsOn;
    var e := Requested(r.rid, r);
    var one := Logging(run, e, Ok);
    var t := RequestNoted(one, r, emit, c.lim).1;
    NewIdNotDone(run.queue.ids, run.log, r.rid);
    RequestMoves(one, r, emit, c.lim);
    LogWfSnoc(run.log, e);
    PlanSnoc(run.log, e, c.lim);
    NotedFollows(PlanView(run.queue), PlanOf(run.log, c.lim), e, c);
    IdsOnSnoc(run.queue.ids, t.queue.ids, run.log, e);
    hide LogWf;
    assert InStep(t.queue, one.log, |t.queue.pending|, c);
    if t.log != one.log {
      assert t.log == one.log + [t.log[|one.log|]];
      IdleLineInStep(t.queue, one.log, t.log[|one.log|], c);
    }
  }

  // ----- replay -----

  ghost predicate Absent(d: Plan, rid: string) {
    PendingIndex(d.pending, rid) == |d.pending|
  }

  lemma NotedAbsent(d: Plan, e: Event, rid: string, lim: Limits)
    requires Absent(d, rid) && (e.Requested? ==> e.rid != rid && e.request.rid == e.rid)
    ensures Absent(Noted(d, e, lim), rid)
  {
    var t := Noted(d, e, lim);
    assert forall j :: 0 <= j < |t.pending| ==> t.pending[j].rid != rid;
  }

  lemma LeftoverKept(log: seq<Event>, more: seq<Event>, k: nat, n: nat, d: Plan, lim: Limits)
    requires k < n <= |log| && Leftover(log, k, n, d) && LogWf(log)
    requires var d' := Noted(d, log[k], lim);
             more == log || (OneLine(log, more, log[k].rid) && Absent(d', log[k].rid))
    ensures Leftover(more, k + 1, n, Noted(d, log[k], lim))
  {
    hide Noted, PlanOf;
    var e, d' := log[k], Noted(d, log[k], lim);
    assert more[..k + 1] == log[..k + 1] && log[..k + 1][..k] == log[..k];
    forall j | n <= j < |more|
      ensures (more[j].Terminal? || more[j].OverflowError?) && OnLog(more[..k + 1], more[j].rid) && Absent(d', more[j].rid)
    {
      if j < |log| {
        assert more[j] == log[j];
        OnLogGrows(log[..k], log[..k + 1], log[j].rid);
        assert OnLog(log[..k], log[j].rid) && (e.Requested? ==> NewId(log[..k], e.rid));
        NotedAbsent(d, e, log[j].rid, lim);
      } else {
        assert log[..k + 1][k].rid == e.rid;
      }
    }
  }

  /** How one replayed line moves the tables. */
  lemma ReplayMoves(run: RunState, e: Event, emit: Emit, lim: Limits)
    requires RunnerInv(run.queue)
    requires e.Requested? ==> e.request.rid == e.rid && e.rid != "" && e.request.sig != "" && e.rid !in run.queue.ids
    ensures var t := ReplayLine(run, e, emit, lim).1;
            && RunnerInv(t.queue)
            && PlanView(t.queue) == Noted(PlanView(run.queue), e, lim)
            && (t.queue.ids == run.queue.ids || t.queue.ids == run.queue.ids + [e.rid])
            && (t.log == run.log || (OneLine(run.log, t.log, e.rid) && Absent(PlanView(t.queue), e.rid)))
            && t.deliveries == run.deliveries
  {
    if e.Requested? {
      RequestMoves(run, e.request, emit, lim);
    } else {
      RetiredKeepsInv(run.queue, e.rid, lim);
      var k := PendingIndex(run.queue.pending, e.rid);
      if k < |run.queue.pending| { ResetKeepsInv(run.queue, k); }
    }
  }

  lemma ReplayKeeps(run: RunState, k: nat, n: nat, emit: Emit, c: Setup)
    requires MidReplay(run.queue, run.log, k, n, c) && k < n
    ensures var t := ReplayLine(run, run.log[k], emit, c.lim).1;
            MidReplay(t.queue, t.log, k + 1, n, c)
  {
    hide ReplayLine, Noted, PlanOf;
    var log, e := run.log, run.log[k];
    var t := ReplayLine(run, e, emit, c.lim).1;
    if e.Requested? { NewIdNotDone(run.queue.ids, log[..k], e.rid); }
    ReplayMoves(run, e, emit, c.lim);
    assert log[..k + 1] == log[..k] + [e];
    PlanSnoc(log[..k], e, c.lim);
    LeftoverKept(log, t.log, k, n, PlanView(run.queue), c.lim);
    IdsOnSnoc(run.queue.ids, t.queue.ids, log[..k], e);
    if t.log != log {
      assert t.log == log + [t.log[|log|]];
      LogWfSnoc(log, t.log[|log|]);
    }
    hide LogWf, RunnerInv, IdsOn, Leftover;
    assert t.log[..k + 1] == log[..k + 1];
  }

  lemma {:induction false} LeftoverNoop(log: seq<Event>, n: nat, m: nat, d: Plan, lim: Limits)
    requires n <= m <= |log| && Leftover(log, n, n, d) && d == PlanOf(log[..n], lim)
    ensures PlanOf(log[..m], lim) == d
  {
    hide PlanOf, Noted;
    if n < m {
      LeftoverNoop(log, n, m - 1, d, lim);
      assert log[..m] == log[..m - 1] + [log[m - 1]];
      PlanSnoc(log[..m - 1], log[m - 1], lim);
      EndedNoop(d, log[m - 1], lim);
    }
  }

  /** When every line has been replayed the live queue is exactly the plan of the log. */
  lemma ReplayEnds(q: Queue, log: seq<Event>, n: nat, c: Setup)
    requires MidReplay(q, log, n, n, c)
    ensures InStep(q, log, 0, c) && PlanView(q) == PlanOf(log, c.lim)
  {
    LeftoverNoop(log, n, |log|, PlanView(q), c.lim);
    assert log[..|log|] == log;
    IdsOnGrows(q.ids, log[..n], log);
  }

  // ----- reconciling -----

  lemma ResetInStep(q: Queue, log: seq<Event>, i: nat, c: Setup)
    requires InStep(q, log, i, c) && i < |q.pending| && (q.pending[i].started ==> Redoable(q.pending[i], c))
    ensures InStep(q.(pending := q.pending[i := q.pending[i].(started := false)]), log, i + 1, c)
  {
    ResetKeepsInv(q, i);
    hide RunnerInv, LogWf, IdsOn, PlanOf;
    var d := PlanOf(log, c.lim);
    var t := q.pending[i := q.pending[i].(started := false)];
    assert Tracks(q.pending[i], d.pending[i], i < i, c);
    forall j | 0 <= j < |t| ensures Tracks(t[j], d.pending[j], j < i + 1, c) {
      assert Tracks(q.pending[j], d.pending[j], j < i, c);
      if j == i && !q.pending[i].started { assert t[j] == q.pending[j]; }
    }
  }

  lemma RecoveryLog(run: RunState, p: Pending, w: World, append: Append, c: Setup)
    requires Finishes(p, w)
    ensures var t := RecoveryFinished(run, p, w, c.message, append, c.lim);
            && t.1.log == Logged(run.log, RecoveryEvent(p, w, c.message), append)
            && (t.0.Error? <==> !append.Ok?)
            && (append.Ok? ==> t.1.queue == Retired(run.queue, p.rid, c.lim))
            && t.1.deliveries == run.deliveries
    ensures RecoveryEvent(p, w, c.message).rid == p.rid
    ensures RecoveryEvent(p, w, c.message).Terminal? || RecoveryEvent(p, w, c.message).WorkEnded?
  {
    hide Retired, Logged;
  }

  lemma ReconciledKeeps(s: Life, i: nat, readable: bool, reply: BlockReply, append: Append, c: Setup)
    requires InStep(s.run.queue, s.run.log, i, c) && i < |s.run.queue.pending| && s.mode == Reconciling(i)
    ensures Inv(Reconciled(s, i, readable, reply, append, c), c)
  {
    var q := s.run.queue;
    var p := q.pending[i];
    var w := WorldAt(s, p, readable, reply, c);
    if Stuck(p, w) {
    } else if Finishes(p, w) {
      var e := RecoveryEvent(p, w, c.message);
      RecoveryLog(s.run, p, w, append, c);
      LogWfLogged(s.run.log, e, append);
      FindsItself(q.pending, i);
      TerminalInStep(q, s.run.log, e, i, c);
      hide RecoveryFinished, RecoveryEvent, InStep, LogWf, Retired;
    } else {
      assert p.started ==> Redoable(p, c);
      ResetInStep(q, s.run.log, i, c);
      hide InStep, RecoveryFinished;
    }
  }

  // ----- every step -----

  lemma InvStep(s: Life, a: Action, c: Setup)
    requires Inv(s, c)
    ensures Inv(After(s, a, c), c)
  {
    hide Inv, After;
    match a
    case Ask(_, _, _) => InvAsk(s, a, c);
    case Refuse(rid, reason, emit) => InvRefuse(s, rid, reason, emit, c);
    case Launch(_, _, _) => InvLaunch(s, a, c);
    case Finish(_, _, _, _, _, _, _) => InvFinish(s, a, c);
    case EndWork(_, _, _, _, _, _) => InvEndWork(s, a, c);
    case Replay(emit) => InvReplay(s, emit, c);
    case Reconcile(_, _, _) => InvReconcile(s, a, c);
    case _ => InvRest(s, a, c);
  }

  lemma InvRest(s: Life, a: Action, c: Setup)
    requires Inv(s, c) && (a.ForeignDelivery? || a.Crash? || a.Boot?)
    ensures Inv(After(s, a, c), c)
  {
  }

  lemma InvAsk(s: Life, a: Action, c: Setup)
    requires Inv(s, c) && a.Ask?
    ensures Inv(After(s, a, c), c)
  {
    var r := a.request;
    if s.mode.Up? && r.sig != "" && NewId(s.run.log, r.rid) {
      if a.append.Ok? {
        AskedInStep(s.run, r, a.emit, c);
      } else {
        LogWfLogged(s.run.log, Requested(r.rid, r), a.append);
      }
      hide InStep, LogWf, RequestNoted;
    }
  }

  lemma InvLaunch(s: Life, a: Action, c: Setup)
    requires Inv(s, c) && a.Launch?
    ensures Inv(After(s, a, c), c)
  {
    if s.mode.Up? {
      LogWfLogged(s.run.log, ActionStarted(a.rid), a.append);
      StartedInStep(s.run.queue, s.run.log, a.rid, c);
      hide InStep, LogWf;
      assert |MarkedStarted(s.run.queue.pending, a.rid)| == |s.run.queue.pending|;
      hide MarkedStarted;
    }
  }

  lemma InvReplay(s: Life, emit: Emit, c: Setup)
    requires Inv(s, c)
    ensures Inv(After(s, Replay(emit), c), c)
  {
    if s.mode.Replaying? {
      if s.mode.k < s.mode.n {
        ReplayKeeps(s.run, s.mode.k, s.mode.n, emit, c);
      } else {
        ReplayEnds(s.run.queue, s.run.log, s.mode.n, c);
      }
      hide ReplayLine, InStep;
    }
  }

  lemma InvReconcile(s: Life, a: Action, c: Setup)
    requires Inv(s, c) && a.Reconcile?
    ensures Inv(After(s, a, c), c)
  {
    if s.mode.Reconciling? && s.mode.i < |s.run.queue.pending| {
      ReconciledKeeps(s, s.mode.i, a.ledgerReadable, a.reply, a.append, c);
      hide Reconciled;
    }
  }

  lemma CallEnds(q: Queue, log: seq<Event>, e: Event, append: Append, c: Setup)
    requires InStep(q, log, |q.pending|, c) && (e.Terminal? || e.WorkEnded?)
    requires PendingIndex(q.pending, e.rid) < |q.pending|
    ensures LogWf(Logged(log, e, append))
    ensures var t := Retired(q, e.rid, c.lim); InStep(t, log + [e], |t.pending|, c)
  {
    LogWfLogged(log, e, append);
    TerminalInStep(q, log, e, |q.pending|, c);
  }

  lemma InvRefuse(s: Life, rid: string, reason: Reason, emit: Emit, c: Setup)
    requires Inv(s, c)
    ensures Inv(After(s, Refuse(rid, reason, emit), c), c)
  {
    hide InStep, LogWf, Retired;
    var i := PendingIndex(s.run.queue.pending, rid);
    if s.mode.Up? && i < |s.run.queue.pending| {
      var e := Terminal(rid, Rejected, s.run.queue.pending[i].action, reason, EmptyObject, Null);
      CallEnds(s.run.queue, s.run.log, e, emit.append, c);
    }
  }

  lemma InvFinish(s: Life, a: Action, c: Setup)
    requires Inv(s, c) && a.Finish?
    ensures Inv(After(s, a, c), c)
  {
    hide InStep, LogWf, Retired;
    var i := PendingIndex(s.run.queue.pending, a.rid);
    if s.mode.Up? && i < |s.run.queue.pending| {
      var e := TerminalEvent(a.outcome, a.rid, s.run.queue.pending[i].action, a.reason, a.result, a.error);
      CallEnds(s.run.queue, s.run.log, e, a.emit.append, c);
    }
  }

  /** The work line ends the call in the log; the terminal that follows is about a call that is
      no longer open. */
  lemma WorkEndsCall(q: Queue, log: seq<Event>, e: Event, first: Append, c: Setup)
    requires InStep(q, log, |q.pending|, c) && e.Terminal? && PendingIndex(q.pending, e.rid) < |q.pending|
    ensures var t, w := Retired(q, e.rid, c.lim), Logged(log, WorkEnded(e.rid), first);
            InStep(t, w + [e], |t.pending|, c) && LogWf(w) && LogWf(w + [e])
  {
    var work, i := WorkEnded(e.rid), PendingIndex(q.pending, e.rid);
    LogWfLogged(log, work, first);
    LogWfSnoc(Logged(log, work, first), e);
    if first.Lost? {
      CallEnds(q, log, e, Ok, c);
    } else {
      CallEnds(q, log, work, Ok, c);
      var t := Retired(q, e.rid, c.lim);
      RemovedMembers(q.pending, i);
      assert forall j :: 0 <= j < |t.pending| ==> t.pending[j].rid != e.rid;
      hide InStep, Retired, LogWf;
      IdleLineInStep(t, log + [work], e, c);
    }
  }

  lemma InvEndWork(s: Life, a: Action, c: Setup)
    requires Inv(s, c) && a.EndWork?
    ensures Inv(After(s, a, c), c)
  {
    hide InStep, LogWf, Retired;
    var i := PendingIndex(s.run.queue.pending, a.rid);
    if s.mode.Up? && i < |s.run.queue.pending| {
      var e := TerminalEvent(if a.append.Ok? then Succeeded else Failed, a.rid, s.run.queue.pending[i].action,
                             a.reason, a.result, a.error);
      WorkEndsCall(s.run.queue, s.run.log, e, a.append, c);
    }
  }

  lemma {:induction false} Reachable(states: seq<Life>, actions: seq<Action>, c: Setup, i: nat)
    requires IsLife(states, actions, c) && i < |states|
    ensures Inv(states[i], c)
  {
    hide After;
    if i > 0 {
      var k := i - 1;
      Reachable(states, actions, c, k);
      assert states[k + 1] == After(states[k], actions[k], c);
      InvStep(states[k], actions[k], c);
    } else {
      hide Inv;
      InitInv(c);
    }
  }

  lemma InitInv(c: Setup)
    ensures Inv(Init, c)
  {
  }
}
