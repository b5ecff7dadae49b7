/** Equivalent calls in one run: a signature belongs to one request for good, is launched
    once between crashes, and every later repeat is answered from the log. */
module SignatureLaws {
  import opened ActionRunner
  import opened TornFile
  import opened RunLife
  import opened RunLifeInvariant
  import opened RunLifeLaws

  // ----- a signature belongs to one request -----

  predicate Completed(sigs: seq<SigEntry>, sig: string) {
    CompletedIndex(sigs, sig) < |sigs|
  }

  ghost predicate Holding(q: seq<Pending>, sig: string, rid: string) {
    exists j :: 0 <= j < |q| && q[j].sig == sig && q[j].rid == rid
  }

  /** rid has the signature: its call is open, or the signature is completed. */
  ghost predicate Owns(d: Plan, sig: string, rid: string) {
    Holding(d.pending, sig, rid) || Completed(d.sigs, sig)
  }

  /** A table entry is found where it was, whatever is added behind it. */
  lemma CompletedAppend(sigs: seq<SigEntry>, x: SigEntry, sig: string)
    ensures CompletedIndex(sigs + [x], sig) ==
            if Completed(sigs, sig) || x.sig == sig then CompletedIndex(sigs, sig) else |sigs| + 1
  {
    var i, k := CompletedIndex(sigs, sig), CompletedIndex(sigs + [x], sig);
    assert k <= |sigs| ==> (sigs + [x])[k].sig == sig;
    assert i < |sigs| ==> (sigs + [x])[i].sig == sig;
    assert (sigs + [x])[|sigs|] == x;
  }

  lemma SigDoneWith(sigs: seq<SigEntry>, sig: string, other: string, rid: string, lim: Limits)
    ensures Completed(sigs, sig) ==> Completed(SigsWith(sigs, other, rid, lim), sig)
    ensures other == sig && sig != "" && |sigs| < lim.maxCompleted ==> Completed(SigsWith(sigs, other, rid, lim), sig)
    ensures |sigs| <= |SigsWith(sigs, other, rid, lim)|
  {
    CompletedAppend(sigs, SigEntry(other, rid), sig);
  }

  lemma LogWfPrefix(log: seq<Event>, k: nat)
    requires LogWf(log) && k <= |log|
    ensures LogWf(log[..k])
  {
    forall j | 0 <= j < k && log[..k][j].Requested? ensures NewId(log[..k][..j], log[..k][j].rid) {
      assert log[..k][j] == log[j] && log[..k][..j] == log[..j];
    }
  }

  /** Open calls have distinct ids and signatures, and no completed signature. */
  ghost predicate PlanWf(d: Plan) {
    && Distinct(d.pending) && SigsApart(d.pending, d.sigs)
    && forall j :: 0 <= j < |d.pending| ==> d.pending[j].sig != ""
  }

  lemma EndedWf(d: Plan, rid: string, lim: Limits)
    requires PlanWf(d)
    ensures PlanWf(Ended(d, rid, lim))
  {
    var k := PendingIndex(d.pending, rid);
    if k < |d.pending| { RemovedMembers(d.pending, k); }
  }

  lemma NotedWf(d: Plan, e: Event, lim: Limits)
    requires PlanWf(d) && (e.Requested? ==> e.request.rid == e.rid && e.request.sig != "")
    ensures PlanWf(Noted(d, e, lim))
  {
    EndedWf(d, e.rid, lim);
    hide Ended;
  }

  lemma {:induction false} PlanIsWf(log: seq<Event>, lim: Limits)
    requires LogWf(log)
    ensures PlanWf(PlanOf(log, lim))
  {
    if log != [] {
      var m, e := log[..|log| - 1], log[|log| - 1];
      LogWfPrefix(log, |log| - 1);
      PlanIsWf(m, lim);
      assert log == m + [e] && (e.Requested? ==> e.request.rid == e.rid && e.request.sig != "");
      PlanSnoc(m, e, lim);
      hide PlanOf, LogWf, PlanWf, Noted;
      NotedWf(PlanOf(m, lim), e, lim);
    }
  }

  // ----- exactly when a signature is forgotten -----

  /** Line n ends the open call rid while the table of completed signatures is full. */
  ghost predicate EndsFull(log: seq<Event>, n: nat, rid: string, lim: Limits) {
    && n < |log| && !Absent(PlanOf(log[..n], lim), rid) && Absent(PlanOf(log[..n + 1], lim), rid)
    && |PlanOf(log[..n], lim).sigs| >= lim.maxCompleted
  }

  ghost predicate EndedFull(log: seq<Event>, rid: string, lim: Limits) {
    exists n: nat :: EndsFull(log, n, rid, lim)
  }

  /** The call is open, or it has ended and its signature is in the table. */
  ghost predicate Kept(d: Plan, sig: string, rid: string) {
    Holding(d.pending, sig, rid) || (Absent(d, rid) && Completed(d.sigs, sig))
  }

  /** The call has ended, and the full table will never take its signature. */
  ghost predicate Forgotten(d: Plan, sig: string, rid: string, lim: Limits) {
    Absent(d, rid) && !Completed(d.sigs, sig) && |d.sigs| >= lim.maxCompleted
  }

  lemma FullTableStays(d: Plan, e: Event, lim: Limits)
    requires |d.sigs| >= lim.maxCompleted
    ensures Noted(d, e, lim).sigs == d.sigs
  {
  }

  lemma HoldingEnds(d: Plan, e: Event, sig: string, rid: string, lim: Limits)
    requires PlanWf(d) && Holding(d.pending, sig, rid) && sig != "" && (e.Terminal? || e.WorkEnded?) && e.rid == rid
    ensures var t := Noted(d, e, lim);
            Absent(t, rid) && (Completed(t.sigs, sig) <==> |d.sigs| < lim.maxCompleted)
  {
    var j :| 0 <= j < |d.pending| && d.pending[j].sig == sig && d.pending[j].rid == rid;
    FindsItself(d.pending, j);
    RemovedMembers(d.pending, j);
    CompletedAppend(d.sigs, SigEntry(sig, rid), sig);
  }

  lemma HoldingStays(d: Plan, e: Event, sig: string, rid: string, lim: Limits)
    requires Holding(d.pending, sig, rid) && !((e.Terminal? || e.WorkEnded?) && e.rid == rid)
    ensures Holding(Noted(d, e, lim).pending, sig, rid)
  {
    var t := Noted(d, e, lim);
    var j :| 0 <= j < |d.pending| && d.pending[j].sig == sig && d.pending[j].rid == rid;
    var k := PendingIndex(d.pending, e.rid);
    var o := if (e.Terminal? || e.WorkEnded?) && k < j then j - 1 else j;
    assert t.pending[o].sig == sig && t.pending[o].rid == rid;
  }

  lemma HoldingIsOpen(d: Plan, sig: string, rid: string)
    requires Holding(d.pending, sig, rid)
    ensures !Absent(d, rid)
  {
  }

  /** One line later: kept, unless this line ends the call and the table is full. */
  lemma KeptNoted(d: Plan, e: Event, sig: string, rid: string, lim: Limits)
    requires PlanWf(d) && Kept(d, sig, rid) && sig != ""
    requires e.Requested? ==> e.rid != rid && e.request.rid == e.rid
    ensures var t := Noted(d, e, lim);
            if !Absent(d, rid) && Absent(t, rid) && |d.sigs| >= lim.maxCompleted then Forgotten(t, sig, rid, lim)
            else Kept(t, sig, rid)
  {
    if Holding(d.pending, sig, rid) {
      if (e.Terminal? || e.WorkEnded?) && e.rid == rid {
        HoldingEnds(d, e, sig, rid, lim);
        if |d.sigs| >= lim.maxCompleted { FullTableStays(d, e, lim); }
      } else {
        HoldingStays(d, e, sig, rid, lim);
        HoldingIsOpen(Noted(d, e, lim), sig, rid);
      }
      HoldingIsOpen(d, sig, rid);
      hide Noted, PlanWf, Holding, Absent, Completed;
    } else {
      NotedAbsent(d, e, rid, lim);
      SigEntryStays(d, e, sig, lim);
      hide Noted, PlanWf, Holding;
    }
  }

  lemma {:induction false} AbsentStays(log: seq<Event>, k: nat, rid: string, lim: Limits)
    requires LogWf(log) && k <= |log| && OnLog(log[..k], rid) && Absent(PlanOf(log[..k], lim), rid)
    ensures Absent(PlanOf(log, lim), rid)
  {
    hide PlanOf, Absent;
    if k == |log| {
      assert log[..k] == log;
    } else {
      var m, e := log[..|log| - 1], log[|log| - 1];
      assert log == m + [e] && m[..k] == log[..k];
      LogWfPrefix(log, |log| - 1);
      AbsentStays(m, k, rid, lim);
      var j :| 0 <= j < k && log[..k][j].rid == rid;
      EarlierDiffersIfRequested(log, j);
      PlanSnoc(m, e, lim);
      NotedAbsent(PlanOf(m, lim), e, rid, lim);
    }
  }

  /** A call that is open has not ended. */
  lemma OpenNotEnded(log: seq<Event>, rid: string, lim: Limits)
    requires LogWf(log) && !Absent(PlanOf(log, lim), rid)
    ensures !EndedFull(log, rid, lim)
  {
    hide PlanOf;
    forall n: nat ensures !EndsFull(log, n, rid, lim) {
      if n < |log| && !Absent(PlanOf(log[..n], lim), rid) && Absent(PlanOf(log[..n + 1], lim), rid) {
        LogWfPrefix(log, n);
        KnownOnLog(log[..n], rid, lim);
        OnLogGrows(log[..n], log[..n + 1], rid);
        AbsentStays(log, n + 1, rid, lim);
      }
    }
  }

  lemma EndedFullSnoc(m: seq<Event>, e: Event, rid: string, lim: Limits)
    ensures EndedFull(m + [e], rid, lim) <==> EndedFull(m, rid, lim) || EndsFull(m + [e], |m|, rid, lim)
    ensures (m + [e])[..|m|] == m && (m + [e])[..|m| + 1] == m + [e]
  {
    hide PlanOf, Absent;
    var b := m + [e];
    assert b[..|m|] == m && b[..|m| + 1] == b;
    forall n: nat | n < |m| ensures EndsFull(b, n, rid, lim) <==> EndsFull(m, n, rid, lim) {
      assert b[..n] == m[..n] && b[..n + 1] == m[..n + 1];
    }
  }

  /** Forgotten once, forgotten for good. */
  lemma ForgottenNoted(d: Plan, e: Event, sig: string, rid: string, lim: Limits)
    requires Forgotten(d, sig, rid, lim) && (e.Requested? ==> e.rid != rid && e.request.rid == e.rid)
    ensures Forgotten(Noted(d, e, lim), sig, rid, lim)
  {
    NotedAbsent(d, e, rid, lim);
    FullTableStays(d, e, lim);
    hide Noted, Absent;
  }

  /** From any log in which the call is open: its signature stays its own, unless the line that
      ends the call finds the table full, and then it is lost for good. */
  lemma {:induction false} KeptExactly(a: seq<Event>, b: seq<Event>, sig: string, rid: string, lim: Limits)
    requires Extends(a, b) && LogWf(b) && sig != "" && Holding(PlanOf(a, lim).pending, sig, rid)
    ensures if EndedFull(b, rid, lim) then Forgotten(PlanOf(b, lim), sig, rid, lim)
            else Kept(PlanOf(b, lim), sig, rid)
  {
    hide PlanOf, Noted, EndedFull, Holding, PlanWf, Forgotten;
    if |a| == |b| {
      assert a == b;
      HoldingIsOpen(PlanOf(b, lim), sig, rid);
      OpenNotEnded(b, rid, lim);
    } else {
      var m, e := b[..|b| - 1], b[|b| - 1];
      assert b == m + [e] && m[..|a|] == a;
      LogWfPrefix(b, |b| - 1);
      KeptExactly(a, m, sig, rid, lim);
      NotRequestedAgain(a, b, sig, rid, lim);
      PlanIsWf(m, lim);
      PlanSnoc(m, e, lim);
      EndedFullSnoc(m, e, rid, lim);
      hide LogWf, Absent, Kept;
      if EndedFull(m, rid, lim) {
        ForgottenNoted(PlanOf(m, lim), e, sig, rid, lim);
      } else {
        KeptNoted(PlanOf(m, lim), e, sig, rid, lim);
      }
    }
  }

  lemma NotRequestedAgain(a: seq<Event>, b: seq<Event>, sig: string, rid: string, lim: Limits)
    requires Extends(a, b) && |a| < |b| && LogWf(b) && Holding(PlanOf(a, lim).pending, sig, rid)
    ensures var e := b[|b| - 1]; e.Requested? ==> e.rid != rid && e.request.rid == e.rid
  {
    LogWfPrefix(b, |a|);
    HoldingIsOpen(PlanOf(a, lim), sig, rid);
    KnownOnLog(a, rid, lim);
    hide PlanOf;
    var j :| 0 <= j < |a| && a[j].rid == rid;
    assert b[j] == a[j];
    EarlierDiffersIfRequested(b, j);
  }

  lemma {:induction false} LogExtends(states: seq<Life>, actions: seq<Action>, c: Setup, i: nat, j: nat)
    requires IsLife(states, actions, c) && i <= j < |states|
    ensures Extends(states[i].run.log, states[j].run.log)
  {
    hide After;
    if i < j {
      LogExtends(states, actions, c, i, j - 1);
      LogGrows(states[j - 1], actions[j - 1], c);
      assert states[j - 1 + 1] == After(states[j - 1], actions[j - 1], c);
      var x, y, z := states[i].run.log, states[j - 1].run.log, states[j].run.log;
      assert z[..|x|] == z[..|y|][..|x|];
    }
  }

  /** Action i executes the open call rid, whose signature is sig. */
  ghost predicate LaunchesAt(s: Life, a: Action, sig: string, rid: string) {
    && a.Launch? && a.rid == rid && a.executed && a.append.Ok? && s.mode.Up?
    && var q := s.run.queue.pending;
       var k := PendingIndex(q, rid);
       k < |q| && !q[k].started && q[k].sig == sig
  }

  lemma LaunchOwns(s: Life, a: Action, sig: string, rid: string, c: Setup)
    requires Inv(s, c) && LaunchesAt(s, a, sig, rid)
    ensures sig != "" && Holding(PlanOf(s.run.log, c.lim).pending, sig, rid)
  {
    var q, d := s.run.queue.pending, PlanOf(s.run.log, c.lim).pending;
    var k := PendingIndex(q, rid);
    assert Tracks(q[k], d[k], true, c);
  }

  lemma LiveSigExcludes(q: Queue, log: seq<Event>, k: nat, sig: string, rid: string, c: Setup)
    requires InStep(q, log, |q.pending|, c) && k < |q.pending| && q.pending[k].sig == sig
    requires Owns(PlanOf(log, c.lim), sig, rid)
    ensures q.pending[k].rid == rid
  {
    hide PlanOf, LogWf, IdsOn;
    var d := PlanOf(log, c.lim);
    if Holding(d.pending, sig, rid) {
      var j :| 0 <= j < |d.pending| && d.pending[j].sig == sig && d.pending[j].rid == rid;
      assert Tracks(q.pending[j], d.pending[j], true, c);
      assert q.pending[j].sig == sig;
    }
  }

  /** Over every life, crashes included: a launched signature belongs to its request in every later
      log if and only if the line that ended the request, if any, found room in the table. */
  lemma OwnedExactly(states: seq<Life>, actions: seq<Action>, c: Setup, i: nat, j: nat, sig: string, rid: string)
    requires IsLife(states, actions, c) && i < |actions| && i <= j < |states|
    requires LaunchesAt(states[i], actions[i], sig, rid)
    ensures var log := states[j].run.log;
            && (Owns(PlanOf(log, c.lim), sig, rid) <==> !EndedFull(log, rid, c.lim))
            && (EndedFull(log, rid, c.lim) ==> Forgotten(PlanOf(log, c.lim), sig, rid, c.lim))
  {
    hide After, PlanOf, EndedFull;
    Reachable(states, actions, c, i);
    Reachable(states, actions, c, j);
    LaunchOwns(states[i], actions[i], sig, rid, c);
    LogExtends(states, actions, c, i, j);
    assert LogWf(states[j].run.log);
    hide Inv, IsLife, LogWf, LaunchesAt;
    var d := PlanOf(states[j].run.log, c.lim);
    KeptExactly(states[i].run.log, states[j].run.log, sig, rid, c.lim);
    if Holding(d.pending, sig, rid) { HoldingIsOpen(d, sig, rid); }
  }

  /** Unless its end found the table full, all launches of a signature, over all crashes and
      recoveries of the run, are launches of one and the same request. */
  lemma SameSignatureSameRequest(states: seq<Life>, actions: seq<Action>, c: Setup, i: nat, j: nat,
                                 sig: string, rid: string, rid': string)
    requires IsLife(states, actions, c) && i <= j < |actions|
    requires LaunchesAt(states[i], actions[i], sig, rid) && LaunchesAt(states[j], actions[j], sig, rid')
    requires !EndedFull(states[j].run.log, rid, c.lim)
    ensures rid == rid'
  {
    Reachable(states, actions, c, j);
    OwnedExactly(states, actions, c, i, j, sig, rid);
    var q := states[j].run.queue;
    hide After, PlanOf, EndedFull, Owns;
    LiveSigExcludes(q, states[j].run.log, PendingIndex(q.pending, rid'), sig, rid, c);
  }

  // ----- outside-world signatures -----

  lemma LaunchCounts(states: seq<Life>, actions: seq<Action>, c: Setup, i: nat, sig: string, rid: string)
    requires IsLife(states, actions, c) && i < |actions| && LaunchesAt(states[i], actions[i], sig, rid)
    ensures Count(states[i + 1].launches, rid) == Count(states[i].launches, rid) + 1
  {
    assert states[i + 1] == After(states[i], actions[i], c);
    CountSnoc(states[i].launches, rid, rid);
    hide Count;
  }

  lemma LaunchesStay(s: Life, a: Action, c: Setup, rid: string)
    ensures Count(After(s, a, c).launches, rid) >= Count(s.launches, rid)
  {
    hide Count;
    var t := After(s, a, c);
    if t.launches != s.launches {
      LaunchShape(s, a, t, c);
      CountSnoc(s.launches, a.rid, rid);
    }
    hide After;
  }

  lemma {:induction false} CountGrows(states: seq<Life>, actions: seq<Action>, c: Setup, i: nat, j: nat, rid: string)
    requires IsLife(states, actions, c) && i <= j < |states|
    ensures Count(states[j].launches, rid) >= Count(states[i].launches, rid)
  {
    hide After, Count;
    if i < j {
      CountGrows(states, actions, c, i, j - 1, rid);
      LaunchesStay(states[j - 1], actions[j - 1], c, rid);
      assert states[j - 1 + 1] == After(states[j - 1], actions[j - 1], c);
    }
  }

  /** A live entry that recovery must not repeat was requested as such. */
  lemma LaunchedOutside(s: Life, k: nat, c: Setup)
    requires Inv(s, c) && s.mode.Up? && k < |s.run.queue.pending| && !Redoable(s.run.queue.pending[k], c)
    ensures OutsideId(s.run.log, s.run.queue.pending[k].rid, c)
  {
    var q, log := s.run.queue.pending, s.run.log;
    var d := PlanOf(log, c.lim).pending;
    PlanWasAsked(log, c.lim);
    assert Tracks(q[k], d[k], true, c) && AskedFor(log, d[k]);
    var j :| 0 <= j < |log| && log[j].Requested? && NewEntry(log[j].request) == d[k].(started := false);
    assert log[j].rid == log[j].request.rid == d[k].(started := false).rid;
    assert Redoable(NewEntry(log[j].request), c) == Redoable(q[k], c);
  }

  /** Unless its end found the table full, the signature of an outside-world action other than
      message is launched at most once over the whole life of the run, whatever crashes fall
      between. */
  lemma OutsideSignatureOnce(states: seq<Life>, actions: seq<Action>, c: Setup, i: nat, j: nat,
                             sig: string, rid: string, rid': string)
    requires IsLife(states, actions, c) && i < j < |actions|
    requires LaunchesAt(states[i], actions[i], sig, rid)
    requires !Redoable(states[i].run.queue.pending[PendingIndex(states[i].run.queue.pending, rid)], c)
    requires !EndedFull(states[j].run.log, rid, c.lim)
    ensures !LaunchesAt(states[j], actions[j], sig, rid')
  {
    hide After, Count, PlanOf, Inv, EndedFull;
    if LaunchesAt(states[j], actions[j], sig, rid') {
      SameSignatureSameRequest(states, actions, c, i, j, sig, rid, rid');
      Reachable(states, actions, c, i);
      LaunchedOutside(states[i], PendingIndex(states[i].run.queue.pending, rid), c);
      LogExtends(states, actions, c, i, j + 1);
      OutsideStays(states[i].run.log, states[j + 1].run.log, rid, c);
      LaunchCounts(states, actions, c, i, sig, rid);
      LaunchCounts(states, actions, c, j, sig, rid);
      CountGrows(states, actions, c, i + 1, j, rid);
      OutsideWorldAtMostOnce(states, actions, c, j + 1, rid);
    }
  }

  lemma OutsideStays(a: seq<Event>, b: seq<Event>, rid: string, c: Setup)
    requires Extends(a, b) && OutsideId(a, rid, c)
    ensures OutsideId(b, rid, c)
  {
    var j :| 0 <= j < |a| && a[j].Requested? && a[j].rid == rid && !Redoable(NewEntry(a[j].request), c);
    assert b[j] == a[j];
  }

  // ----- between crashes, once -----

  /** rid's call is open and started, or its signature is completed. */
  ghost predicate Busy(q: Queue, sig: string, rid: string) {
    || (exists j :: 0 <= j < |q.pending| && q.pending[j].sig == sig && q.pending[j].rid == rid && q.pending[j].started)
    || Completed(q.sigs, sig)
  }

  /** The step ends the open call rid. */
  predicate Ends(q: Queue, q': Queue, rid: string) {
    PendingIndex(q.pending, rid) < |q.pending| && PendingIndex(q'.pending, rid) == |q'.pending|
  }

  lemma RetiredEnds(q: Queue, rid: string, lim: Limits)
    requires Distinct(q.pending) && PendingIndex(q.pending, rid) < |q.pending|
    ensures Ends(q, Retired(q, rid, lim), rid)
  {
    RemovedMembers(q.pending, PendingIndex(q.pending, rid));
  }

  lemma BusyRetired(q: Queue, sig: string, rid: string, ended: string, lim: Limits)
    requires Busy(q, sig, rid) && sig != "" && Distinct(q.pending)
    requires Ends(q, Retired(q, ended, lim), rid) ==> |q.sigs| < lim.maxCompleted
    ensures Busy(Retired(q, ended, lim), sig, rid)
  {
    var t := Retired(q, ended, lim);
    var k := PendingIndex(q.pending, ended);
    if k < |q.pending| { SigDoneWith(q.sigs, sig, q.pending[k].sig, ended, lim); }
    if j :| 0 <= j < |q.pending| && q.pending[j].sig == sig && q.pending[j].rid == rid && q.pending[j].started {
      if j == k {
        RetiredEnds(q, rid, lim);
      } else {
        assert t.pending[if j < k then j else j - 1] == q.pending[j];
      }
    }
  }

  /** What a step that stays up does to the tables. */
  ghost predicate UpMove(q: Queue, a: Action, q': Queue, lim: Limits) {
    || q' == q
    || (exists rid :: q' == Retired(q, rid, lim))
    || (a.Ask? && q' == q.(pending := q.pending + [NewEntry(a.request)]))
    || (a.Launch? && q' == q.(pending := MarkedStarted(q.pending, a.rid)))
  }

  lemma UpStepShape(s: Life, a: Action, t: Life, c: Setup)
    requires t == After(s, a, c) && s.mode.Up? && t.mode.Up?
    ensures UpMove(s.run.queue, a, t.run.queue, c.lim)
  {
    hide Retired, MarkedStarted;
    match a
    case Ask(r, append, emit) =>
      RequestEffect(Logging(s.run, Requested(r.rid, r), append), r, emit, c.lim);
      hide RequestNoted;
    case _ =>
  }

  lemma BusyStep(q: Queue, a: Action, q': Queue, sig: string, rid: string, lim: Limits)
    requires UpMove(q, a, q', lim) && Distinct(q.pending) && Busy(q, sig, rid) && sig != ""
    requires Ends(q, q', rid) ==> |q.sigs| < lim.maxCompleted
    ensures Busy(q', sig, rid)
  {
    hide Retired, Distinct;
    if x :| q' == Retired(q, x, lim) {
      BusyRetired(q, sig, rid, x, lim);
    } else if j :| 0 <= j < |q.pending| && q.pending[j].sig == sig && q.pending[j].rid == rid && q.pending[j].started {
      assert q'.pending[j].sig == sig && q'.pending[j].rid == rid && q'.pending[j].started;
    }
  }

  ghost predicate StaysUp(states: seq<Life>, i: nat, j: nat) {
    forall k :: i <= k <= j && k < |states| ==> states[k].mode.Up?
  }

  /** Whenever a step between i and j ends the call rid, the table has room. */
  ghost predicate EndsWithRoom(states: seq<Life>, i: nat, j: nat, rid: string, c: Setup) {
    forall k :: i < k < j < |states| && Ends(states[k].run.queue, states[k + 1].run.queue, rid)
                ==> |states[k].run.queue.sigs| < c.lim.maxCompleted
  }

  lemma {:induction false} BusyStays(states: seq<Life>, actions: seq<Action>, c: Setup, i: nat, j: nat,
                                     sig: string, rid: string)
    requires IsLife(states, actions, c) && i < j < |states| && sig != ""
    requires StaysUp(states, i, j) && Busy(states[i + 1].run.queue, sig, rid)
    requires EndsWithRoom(states, i, j, rid, c)
    ensures Busy(states[j].run.queue, sig, rid)
  {
    hide After;
    if i + 1 < j {
      var k := j - 1;
      BusyStays(states, actions, c, i, k, sig, rid);
      assert states[k].mode.Up? && states[k + 1].mode.Up?;
      Reachable(states, actions, c, k);
      UpStepShape(states[k], actions[k], states[k + 1], c);
      BusyStep(states[k].run.queue, actions[k], states[k + 1].run.queue, sig, rid, c.lim);
    }
  }

  lemma LaunchIsBusy(s: Life, a: Action, sig: string, rid: string, c: Setup)
    requires LaunchesAt(s, a, sig, rid)
    ensures Busy(After(s, a, c).run.queue, sig, rid)
  {
    var k := PendingIndex(s.run.queue.pending, rid);
    assert After(s, a, c).run.queue.pending[k] == s.run.queue.pending[k].(started := true);
  }

  /** In a stretch without a crash a signature is launched at most once, unless the step that
      ends the launched call finds the table full. */
  lemma LaunchedOncePerRun(states: seq<Life>, actions: seq<Action>, c: Setup, i: nat, j: nat,
                           sig: string, rid: string, rid': string)
    requires IsLife(states, actions, c) && i < j < |actions| && StaysUp(states, i, j)
    requires EndsWithRoom(states, i, j, rid, c)
    requires LaunchesAt(states[i], actions[i], sig, rid)
    ensures !LaunchesAt(states[j], actions[j], sig, rid')
  {
    hide After, EndsWithRoom, Busy;
    Reachable(states, actions, c, i);
    Reachable(states, actions, c, j);
    LaunchOwns(states[i], actions[i], sig, rid, c);
    LaunchIsBusy(states[i], actions[i], sig, rid, c);
    BusyStays(states, actions, c, i, j, sig, rid);
    BusyExcludes(states[j].run.queue, states[j].run.log, sig, rid, rid', c);
  }

  lemma BusyExcludes(q: Queue, log: seq<Event>, sig: string, rid: string, rid': string, c: Setup)
    requires InStep(q, log, |q.pending|, c) && Busy(q, sig, rid)
    ensures var k := PendingIndex(q.pending, rid');
            k < |q.pending| && q.pending[k].sig == sig ==> q.pending[k].started
  {
    assert RunnerInv(q);
    hide InStep, PendingIndex, CompletedIndex;
  }

  // ----- both bounds are exact -----

  const Fine := Emit(Ok, true, true)

  /** With no open call of its signature and room in the queue, a new request is queued, ready
      to be launched, if and only if its signature is not in the table. */
  lemma AskLaunchesExactly(t: Life, r: Request, c: Setup)
    requires Inv(t, c) && t.mode.Up? && NewId(t.run.log, r.rid) && r.sig != ""
    requires SigIndex(t.run.queue.pending, r.sig) == |t.run.queue.pending| < c.lim.maxPending
    ensures LaunchesAt(After(t, Ask(r, Ok, Fine), c), Launch(r.rid, Ok, true), r.sig, r.rid) <==>
            !Completed(t.run.queue.sigs, r.sig)
  {
    if Completed(t.run.queue.sigs, r.sig) {
      KnownSignatureNotQueued(t, r, c);
    } else {
      NewIdIsFresh(t, r, c);
      var q' := t.run.queue.pending + [NewEntry(r)];
      assert q'[|q'| - 1].rid == r.rid;
    }
    hide After, Inv, NewId;
  }

  lemma KnownSignatureNotQueued(t: Life, r: Request, c: Setup)
    requires Inv(t, c) && t.mode.Up? && NewId(t.run.log, r.rid) && r.sig != ""
    requires Completed(t.run.queue.sigs, r.sig)
    ensures var q := After(t, Ask(r, Ok, Fine), c).run.queue.pending; PendingIndex(q, r.rid) == |q|
  {
    var q := t.run.queue;
    var k := PendingIndex(q.pending, r.rid);
    if k < |q.pending| { PendingOnLog(q, t.run.log, k, c); }
    RequestEffect(Logging(t.run, Requested(r.rid, r), Ok), r, Fine, c.lim);
    RetiredAbsent(q, r.rid, c.lim);
    assert !VerdictOn(q, r, c.lim).Fresh?;
    hide InStep, RequestNoted, VerdictOn, Retired, NewId;
  }

  lemma RetiredOther(q: Queue, k: nat, x: string, lim: Limits)
    requires k < |q.pending| && q.pending[k].rid != x
    ensures !Ends(q, Retired(q, x, lim), q.pending[k].rid)
  {
    var o, d := PendingIndex(q.pending, x), Retired(q, x, lim).pending;
    assert d[if o < k then k - 1 else k].rid == q.pending[k].rid;
  }

  lemma RetiredItself(q: Queue, k: nat, lim: Limits)
    requires RunnerInv(q) && k < |q.pending|
    ensures var d := Retired(q, q.pending[k].rid, lim);
            && d.pending == Removed(q.pending, k)
            && (Completed(d.sigs, q.pending[k].sig) <==> |q.sigs| < lim.maxCompleted)
  {
    var p := q.pending[k];
    FindsItself(q.pending, k);
    CompletedAppend(q.sigs, SigEntry(p.sig, p.rid), p.sig);
  }

  /** What an ending step leaves: the entry is gone, and its signature is in the table if and only
      if there was room. */
  lemma EndingMove(q: Queue, a: Action, q': Queue, k: nat, lim: Limits)
    requires UpMove(q, a, q', lim) && RunnerInv(q) && k < |q.pending| && Ends(q, q', q.pending[k].rid)
    ensures q'.pending == Removed(q.pending, k)
    ensures Completed(q'.sigs, q.pending[k].sig) <==> |q.sigs| < lim.maxCompleted
  {
    hide Retired, Completed, RunnerInv;
    var p := q.pending[k];
    forall x | q' == Retired(q, x, lim) ensures x == p.rid {
      if x != p.rid { RetiredOther(q, k, x, lim); }
    }
    RetiredItself(q, k, lim);
    MovesKeepOpen(q, a, q', k, lim);
  }

  /** Only a retirement ends a call. */
  lemma MovesKeepOpen(q: Queue, a: Action, q': Queue, k: nat, lim: Limits)
    requires UpMove(q, a, q', lim) && k < |q.pending|
    ensures (exists x :: q' == Retired(q, x, lim)) || !Ends(q, q', q.pending[k].rid)
  {
    hide Retired;
    if !(exists x :: q' == Retired(q, x, lim)) {
      assert k < |q'.pending| && q'.pending[k].rid == q.pending[k].rid;
    }
  }

  /** The step that ends a call leaves its signature free for another launch if and only if it
      finds the table full. */
  lemma RelaunchAfterEnd(s: Life, a: Action, t: Life, k: nat, r: Request, c: Setup)
    requires Inv(s, c) && s.mode.Up? && t == After(s, a, c) && t.mode.Up? && k < |s.run.queue.pending|
    requires Ends(s.run.queue, t.run.queue, s.run.queue.pending[k].rid) && |s.run.queue.pending| <= c.lim.maxPending
    requires r.sig == s.run.queue.pending[k].sig && NewId(t.run.log, r.rid)
    ensures LaunchesAt(After(t, Ask(r, Ok, Fine), c), Launch(r.rid, Ok, true), r.sig, r.rid) <==>
            |s.run.queue.sigs| >= c.lim.maxCompleted
  {
    InvStep(s, a, c);
    UpStepShape(s, a, t, c);
    hide After, UpMove, NewId, LaunchesAt;
    assert RunnerInv(s.run.queue);
    EndingMove(s.run.queue, a, t.run.queue, k, c.lim);
    RemovedMembers(s.run.queue.pending, k);
    AskLaunchesExactly(t, r, c);
  }

  /** In every life: with the launched call ended, no other call of its signature open and room in
      the queue, an equivalent request is queued, ready to be launched, if and only if the line
      that ended the call found the table full. */
  lemma RelaunchExactly(states: seq<Life>, actions: seq<Action>, c: Setup, i: nat, j: nat, rid: string, r: Request)
    requires IsLife(states, actions, c) && i < |actions| && i <= j < |states| && states[j].mode.Up?
    requires LaunchesAt(states[i], actions[i], r.sig, rid) && NewId(states[j].run.log, r.rid)
    requires var q := states[j].run.queue.pending; SigIndex(q, r.sig) == |q| < c.lim.maxPending
    ensures LaunchesAt(After(states[j], Ask(r, Ok, Fine), c), Launch(r.rid, Ok, true), r.sig, r.rid) <==>
            EndedFull(states[j].run.log, rid, c.lim)
  {
    hide After;
    var s, log := states[j], states[j].run.log;
    Reachable(states, actions, c, i);
    Reachable(states, actions, c, j);
    LaunchOwns(states[i], actions[i], r.sig, rid, c);
    OwnedExactly(states, actions, c, i, j, r.sig, rid);
    AskLaunchesExactly(s, r, c);
    if Holding(PlanOf(log, c.lim).pending, r.sig, rid) { HeldIsLive(s.run.queue, log, r.sig, rid, c); }
    assert s.run.queue.sigs == PlanOf(log, c.lim).sigs;
    hide Inv, PlanOf, EndedFull, LaunchesAt, IsLife;
  }

  lemma HeldIsLive(q: Queue, log: seq<Event>, sig: string, rid: string, c: Setup)
    requires InStep(q, log, |q.pending|, c) && Holding(PlanOf(log, c.lim).pending, sig, rid)
    ensures SigIndex(q.pending, sig) < |q.pending|
  {
    var d := PlanOf(log, c.lim).pending;
    var j :| 0 <= j < |d| && d[j].sig == sig && d[j].rid == rid;
    assert Tracks(q.pending[j], d[j], true, c);
  }

  lemma NewIdIsFresh(t: Life, r: Request, c: Setup)
    requires Inv(t, c) && t.mode.Up? && NewId(t.run.log, r.rid) && r.sig != ""
    requires SigIndex(t.run.queue.pending, r.sig) == |t.run.queue.pending|
    requires !Completed(t.run.queue.sigs, r.sig) && |t.run.queue.pending| < c.lim.maxPending
    ensures PendingIndex(t.run.queue.pending, r.rid) == |t.run.queue.pending|
    ensures var u := After(t, Ask(r, Ok, Fine), c);
            && u.mode.Up? && u.run.queue == t.run.queue.(pending := t.run.queue.pending + [NewEntry(r)])
            && u.run.log == t.run.log + [Requested(r.rid, r)]
  {
    NewIdNotDone(t.run.queue.ids, t.run.log, r.rid);
    var k := PendingIndex(t.run.queue.pending, r.rid);
    if k < |t.run.queue.pending| { PendingOnLog(t.run.queue, t.run.log, k, c); }
    hide InStep, RejectedEmitted, Repeated, NewId, PendingIndex, SigIndex, CompletedIndex;
    assert VerdictOn(t.run.queue, r, c.lim) == Fresh;
    hide VerdictOn;
  }

  // ----- repeats are answered from the log -----

  /** The log holds the answer to every further call with this signature. */
  ghost predicate Answered(log: seq<Event>, sig: string, prior: string, m: Memo, lim: Limits) {
    var d := PlanOf(log, lim);
    && prior != "" && OnLog(log, prior) && Absent(d, prior)
    && Completed(d.sigs, sig) && d.sigs[CompletedIndex(d.sigs, sig)].rid == prior
    && m.Memo? && LastOutcome(log, prior, lim) == m
  }

  lemma OutcomeSnoc(log: seq<Event>, e: Event, prior: string, lim: Limits)
    requires e.rid != prior
    ensures LastOutcome(log + [e], prior, lim) == LastOutcome(log, prior, lim)
  {
    assert (log + [e])[..|log|] == log;
  }

  lemma SigEntryStays(d: Plan, e: Event, sig: string, lim: Limits)
    requires Completed(d.sigs, sig)
    ensures var t := Noted(d, e, lim).sigs;
            Completed(t, sig) && t[CompletedIndex(t, sig)] == d.sigs[CompletedIndex(d.sigs, sig)]
  {
    var k := PendingIndex(d.pending, e.rid);
    if k < |d.pending| { CompletedAppend(d.sigs, SigEntry(d.pending[k].sig, e.rid), sig); }
  }

  lemma AnsweredSnoc(log: seq<Event>, e: Event, sig: string, prior: string, m: Memo, lim: Limits)
    requires Answered(log, sig, prior, m, lim) && e.rid != prior && (e.Requested? ==> e.request.rid == e.rid)
    ensures Answered(log + [e], sig, prior, m, lim)
  {
    PlanSnoc(log, e, lim);
    OutcomeSnoc(log, e, prior, lim);
    OnLogGrows(log, log + [e], prior);
    NotedAbsent(PlanOf(log, lim), e, prior, lim);
    SigEntryStays(PlanOf(log, lim), e, sig, lim);
  }

  lemma {:induction false} AnsweredExtends(a: seq<Event>, b: seq<Event>, sig: string, prior: string, m: Memo, lim: Limits)
    requires Answered(a, sig, prior, m, lim) && Extends(a, b) && LogWf(b)
    requires forall j :: |a| <= j < |b| ==> b[j].rid != prior
    ensures Answered(b, sig, prior, m, lim)
  {
    if |a| == |b| {
      assert a == b;
    } else {
      var k := |b| - 1;
      LogWfPrefix(b, k);
      assert b == b[..k] + [b[k]] && b[..k][..|a|] == a;
      AnsweredExtends(a, b[..k], sig, prior, m, lim);
      AnsweredSnoc(b[..k], b[k], sig, prior, m, lim);
    }
  }

  /** rid got into the plan. */
  ghost predicate Known(d: Plan, rid: string) {
    PendingIndex(d.pending, rid) < |d.pending| || exists k :: 0 <= k < |d.sigs| && d.sigs[k].rid == rid
  }

  lemma NotedKnown(d: Plan, e: Event, rid: string, lim: Limits)
    requires Known(Noted(d, e, lim), rid) && (e.Requested? ==> e.rid != rid && e.request.rid == e.rid)
    ensures Known(d, rid)
  {
    var t := Noted(d, e, lim);
    assert |d.sigs| <= |t.sigs| && t.sigs[..|d.sigs|] == d.sigs;
    if PendingIndex(t.pending, rid) < |t.pending| {
      if Absent(d, rid) { NotedAbsent(d, e, rid, lim); }
    } else {
      var k :| 0 <= k < |t.sigs| && t.sigs[k].rid == rid;
      if k < |d.sigs| { assert t.sigs[..|d.sigs|][k] == d.sigs[k]; }
    }
  }

  lemma {:induction false} KnownOnLog(log: seq<Event>, rid: string, lim: Limits)
    requires LogWf(log) && Known(PlanOf(log, lim), rid)
    ensures OnLog(log, rid)
  {
    if log == [] {
    } else {
      var m, e := log[..|log| - 1], log[|log| - 1];
      if e.rid != rid {
        assert log == m + [e];
        LogWfPrefix(log, |log| - 1);
        PlanSnoc(m, e, lim);
        NotedKnown(PlanOf(m, lim), e, rid, lim);
        KnownOnLog(m, rid, lim);
        OnLogGrows(m, log, rid);
      }
    }
  }

  /** A call that ever got into the plan was queued at its own request line. */
  lemma {:induction false} KnownWasQueued(log: seq<Event>, rid: string, k: nat, lim: Limits)
    requires LogWf(log) && Known(PlanOf(log, lim), rid) && k < |log| && log[k].Requested? && log[k].rid == rid
    ensures !Absent(PlanOf(log[..k + 1], lim), rid)
  {
    hide PlanOf, Noted, Known, Absent;
    var m, e := log[..|log| - 1], log[|log| - 1];
    assert log == m + [e];
    LogWfPrefix(log, |log| - 1);
    PlanSnoc(m, e, lim);
    if k == |log| - 1 {
      assert log[..k + 1] == log && m == log[..k];
      if Known(PlanOf(m, lim), rid) { KnownOnLog(m, rid, lim); }
      QueuedNow(PlanOf(m, lim), e, lim);
    } else {
      EarlierDiffersIfRequested(log, k);
      NotedKnown(PlanOf(m, lim), e, rid, lim);
      KnownWasQueued(m, rid, k, lim);
      assert m[..k + 1] == log[..k + 1];
    }
  }

  lemma EarlierDiffersIfRequested(log: seq<Event>, k: nat)
    requires LogWf(log) && k < |log| - 1
    ensures var e := log[|log| - 1]; e.Requested? ==> e.rid != log[k].rid && e.request.rid == e.rid
  {
    if log[|log| - 1].Requested? { EarlierDiffers(log, k, |log| - 1); }
  }

  lemma QueuedNow(d: Plan, e: Event, lim: Limits)
    requires e.Requested? && !Known(d, e.rid) && Known(Noted(d, e, lim), e.rid)
    ensures !Absent(Noted(d, e, lim), e.rid)
  {
  }

  lemma NotPendingPrior(q: Queue, log: seq<Event>, i: nat, k: nat, sig: string, prior: string, m: Memo, c: Setup)
    requires InStep(q, log, i, c) && k < |q.pending| && Answered(log, sig, prior, m, c.lim)
    ensures q.pending[k].rid != prior
  {
    assert Tracks(q.pending[k], PlanOf(log, c.lim).pending[k], k < i, c);
  }

  ghost predicate Avoids(before: seq<Event>, after: seq<Event>, prior: string) {
    forall j :: |before| <= j < |after| ==> after[j].rid != prior
  }

  /** No step writes another line about a request whose answer is on the log. */
  lemma NewLinesAvoid(s: Life, a: Action, t: Life, sig: string, prior: string, m: Memo, c: Setup)
    requires Inv(s, c) && t == After(s, a, c) && Answered(s.run.log, sig, prior, m, c.lim)
    ensures Avoids(s.run.log, t.run.log, prior)
  {
    hide Answered, InStep, LogWf, MidReplay;
    match a
    case Ask(r, append, emit) => AskAvoids(s, a, t, sig, prior, m, c);
    case Replay(emit) =>
      if s.mode.Replaying? && s.mode.k < s.mode.n && s.mode.k < |s.run.log| {
        ReplayAvoids(s, emit, sig, prior, m, c);
        hide ReplayLine;
      }
    case Reconcile(readable, reply, append) => ReconcileAvoids(s, a, t, sig, prior, m, c);
    case _ => PendingAvoids(s, a, t, sig, prior, m, c);
  }

  lemma PendingAvoids(s: Life, a: Action, t: Life, sig: string, prior: string, m: Memo, c: Setup)
    requires Inv(s, c) && t == After(s, a, c) && Answered(s.run.log, sig, prior, m, c.lim)
    requires !a.Ask? && !a.Replay? && !a.Reconcile?
    ensures Avoids(s.run.log, t.run.log, prior)
  {
    hide Answered, InStep, Retired, MarkedStarted;
    var q := s.run.queue;
    if (a.Refuse? || a.Launch? || a.Finish? || a.EndWork?) && s.mode.Up? && PendingIndex(q.pending, a.rid) < |q.pending| {
      NotPendingPrior(q, s.run.log, |q.pending|, PendingIndex(q.pending, a.rid), sig, prior, m, c);
    }
  }

  lemma AnsweredIsOld(log: seq<Event>, sig: string, prior: string, m: Memo, rid: string, lim: Limits)
    requires Answered(log, sig, prior, m, lim) && NewId(log, rid)
    ensures rid != prior
  {
    var j :| 0 <= j < |log| && log[j].rid == prior;
  }

  lemma AskAvoids(s: Life, a: Action, t: Life, sig: string, prior: string, m: Memo, c: Setup)
    requires t == After(s, a, c) && Answered(s.run.log, sig, prior, m, c.lim) && a.Ask?
    ensures Avoids(s.run.log, t.run.log, prior)
  {
    hide Answered, RequestNoted;
    var r := a.request;
    if NewId(s.run.log, r.rid) {
      AnsweredIsOld(s.run.log, sig, prior, m, r.rid, c.lim);
      RequestEffect(Logging(s.run, Requested(r.rid, r), a.append), r, a.emit, c.lim);
    }
  }

  lemma AnsweredWasQueued(log: seq<Event>, k: nat, sig: string, prior: string, m: Memo, lim: Limits)
    requires Answered(log, sig, prior, m, lim) && LogWf(log)
    requires k < |log| && log[k].Requested? && log[k].rid == prior
    ensures !Absent(Noted(PlanOf(log[..k], lim), log[k], lim), prior)
  {
    var d := PlanOf(log, lim);
    assert d.sigs[CompletedIndex(d.sigs, sig)].rid == prior;
    KnownWasQueued(log, prior, k, lim);
    assert log[..k + 1] == log[..k] + [log[k]];
    PlanSnoc(log[..k], log[k], lim);
  }

  lemma ReplayAvoids(s: Life, emit: Emit, sig: string, prior: string, m: Memo, c: Setup)
    requires s.mode.Replaying? && s.mode.k < s.mode.n && s.mode.k < |s.run.log|
    requires Inv(s, c) && Answered(s.run.log, sig, prior, m, c.lim)
    ensures Avoids(s.run.log, ReplayLine(s.run, s.run.log[s.mode.k], emit, c.lim).1.log, prior)
  {
    hide Answered, Noted, PlanOf, RequestNoted;
    var log, k := s.run.log, s.mode.k;
    var e := log[k];
    if e.Requested? {
      NewIdNotDone(s.run.queue.ids, log[..k], e.rid);
      RequestMoves(s.run, e.request, emit, c.lim);
      if e.rid == prior { AnsweredWasQueued(log, k, sig, prior, m, c.lim); }
    }
  }

  lemma ReconcileAvoids(s: Life, a: Action, t: Life, sig: string, prior: string, m: Memo, c: Setup)
    requires Inv(s, c) && t == After(s, a, c) && Answered(s.run.log, sig, prior, m, c.lim) && a.Reconcile?
    ensures Avoids(s.run.log, t.run.log, prior)
  {
    hide Answered, InStep;
    if s.mode.Reconciling? && s.mode.i < |s.run.queue.pending| {
      var q, i := s.run.queue, s.mode.i;
      var w := WorldAt(s, q.pending[i], a.ledgerReadable, a.reply, c);
      NotPendingPrior(q, s.run.log, i, i, sig, prior, m, c);
      if Finishes(q.pending[i], w) { RecoveryLog(s.run, q.pending[i], w, a.append, c); }
      hide RecoveryFinished, Finishes, Stuck;
    }
  }

  /** The answer stays: through repeats, other calls, crashes, replays and recoveries. */
  lemma {:induction false} AnswerStays(states: seq<Life>, actions: seq<Action>, c: Setup, i: nat, j: nat,
                                       sig: string, prior: string, m: Memo)
    requires IsLife(states, actions, c) && i <= j < |states|
    requires Answered(states[i].run.log, sig, prior, m, c.lim)
    ensures Answered(states[j].run.log, sig, prior, m, c.lim)
  {
    hide After, Answered;
    if i < j {
      var k := j - 1;
      AnswerStays(states, actions, c, i, k, sig, prior, m);
      Reachable(states, actions, c, k);
      Reachable(states, actions, c, k + 1);
      assert states[k + 1] == After(states[k], actions[k], c);
      NewLinesAvoid(states[k], actions[k], states[k + 1], sig, prior, m, c);
      LogGrows(states[k], actions[k], c);
      AnsweredExtends(states[k].run.log, states[k + 1].run.log, sig, prior, m, c.lim);
    }
  }

  /** The first completion of a signature, a success or failure, is the answer, as far as it
      fits the buffers. The append may even have reported an error. */
  lemma FirstCompletionAnswers(s: Life, a: Action, k: nat, c: Setup)
    requires Inv(s, c) && s.mode.Up? && a.Finish? && k < |s.run.queue.pending| && a.rid == s.run.queue.pending[k].rid
    requires a.outcome.Failed? || (a.outcome.Succeeded? && s.run.queue.pending[k].started)
    requires !a.emit.append.Lost? && |s.run.queue.sigs| < c.lim.maxCompleted
    ensures Answered(After(s, a, c).run.log, s.run.queue.pending[k].sig, a.rid,
                     Remembered(a.outcome, a.result, a.error, c.lim), c.lim)
  {
    var q, log := s.run.queue, s.run.log;
    var p, d := q.pending[k], PlanOf(log, c.lim);
    FindsItself(q.pending, k);
    var e := TerminalEvent(a.outcome, a.rid, p.action, a.reason, a.result, a.error);
    assert After(s, a, c).run.log == log + [e];
    hide After;
    PlanDistinct(q, log, c);
    assert Tracks(p, d.pending[k], true, c);
    assert !Completed(d.sigs, p.sig);
    hide InStep;
    EndAnswers(log, k, e, c.lim);
  }

  /** Ending the only call with a signature makes its terminal the answer. */
  lemma EndAnswers(log: seq<Event>, k: nat, e: Event, lim: Limits)
    requires var d := PlanOf(log, lim);
             && Distinct(d.pending) && k < |d.pending| && d.pending[k].rid == e.rid && e.rid != ""
             && d.pending[k].sig != "" && !Completed(d.sigs, d.pending[k].sig) && |d.sigs| < lim.maxCompleted
    requires e.Terminal? && !e.outcome.Rejected?
    ensures Answered(log + [e], PlanOf(log, lim).pending[k].sig, e.rid,
                     Remembered(e.outcome, e.result, e.error, lim), lim)
  {
    var d := PlanOf(log, lim);
    var sig := d.pending[k].sig;
    PlanSnoc(log, e, lim);
    assert LastOutcome(log + [e], e.rid, lim) == Remembered(e.outcome, e.result, e.error, lim);
    hide LastOutcome, PlanOf;
    FindsItself(d.pending, k);
    RemovedMembers(d.pending, k);
    CompletedAppend(d.sigs, SigEntry(sig, e.rid), sig);
    assert (log + [e])[|log|].rid == e.rid;
    assert Noted(d, e, lim) == Plan(Removed(d.pending, k), d.sigs + [SigEntry(sig, e.rid)]);
  }

  /** A later equivalent call gets the recorded outcome; nothing is launched, queued or
      delivered, and it does not count as progress. */
  lemma RepeatIsAnswered(s: Life, r: Request, hasOrigin: bool, readable: bool, prior: string, m: Memo, c: Setup)
    requires Inv(s, c) && s.mode.Up? && Answered(s.run.log, r.sig, prior, m, c.lim)
    requires r.sig != "" && NewId(s.run.log, r.rid)
    ensures var t := After(s, Ask(r, Ok, Emit(Ok, hasOrigin, readable)), c);
            && t.run.log == s.run.log + [Requested(r.rid, r),
                 TerminalEvent(m.outcome, r.rid, r.action, MemoizedDuplicate, m.result, m.error)]
            && t.run.queue.pending == s.run.queue.pending && t.run.queue.sigs == s.run.queue.sigs
            && t.launches == s.launches && t.ledger == s.ledger && t.run.deliveries == s.run.deliveries
            && t.run.workProgress == s.run.workProgress && t.mode.Up?
  {
    hide InStep, Answered, Retired, VerdictOn, LastOutcome, MemoOf;
    RepeatVerdict(s, r, prior, m, c);
    RetiredAbsent(s.run.queue, r.rid, c.lim);
    hide NewId;
    var one := Logging(s.run, Requested(r.rid, r), Ok);
    var e := Emit(Ok, hasOrigin, readable);
    assert !Delivers(m.outcome, r.action, MemoizedDuplicate, e);
    hide Delivers;
    assert RequestNoted(one, r, e, c.lim).0 == Memoized;
  }

  lemma RepeatVerdict(s: Life, r: Request, prior: string, m: Memo, c: Setup)
    requires Inv(s, c) && s.mode.Up? && Answered(s.run.log, r.sig, prior, m, c.lim)
    requires r.sig != "" && NewId(s.run.log, r.rid)
    ensures VerdictOn(s.run.queue, r, c.lim) == Verdict.SigDone(prior)
    ensures MemoOf(s.run.log + [Requested(r.rid, r)], prior, c.lim) == m && m.Memo?
    ensures PendingIndex(s.run.queue.pending, r.rid) == |s.run.queue.pending|
  {
    var q, log := s.run.queue, s.run.log;
    NewIdNotDone(q.ids, log, r.rid);
    var k := PendingIndex(q.pending, r.rid);
    if k < |q.pending| { PendingOnLog(q, log, k, c); }
    assert SigIndex(q.pending, r.sig) == |q.pending|;
    AnsweredIsOld(log, r.sig, prior, m, r.rid, c.lim);
    OutcomeSnoc(log, Requested(r.rid, r), prior, c.lim);
    hide NewId, RunnerInv, LogWf, IdsOn;
  }

  /** Every repeat, however many came before it and however often the run restarted. */
  lemma EveryRepeatSame(states: seq<Life>, actions: seq<Action>, c: Setup, i: nat, j: nat,
                        sig: string, prior: string, m: Memo)
    requires IsLife(states, actions, c) && i <= j < |actions| && sig != ""
    requires Answered(states[i].run.log, sig, prior, m, c.lim)
    requires var s, a := states[j], actions[j];
             && a.Ask? && a.append.Ok? && a.emit.append.Ok? && s.mode.Up?
             && a.request.sig == sig && NewId(s.run.log, a.request.rid)
    ensures var s, t, r := states[j], states[j + 1], actions[j].request;
            && t.run.log == s.run.log + [Requested(r.rid, r),
                 TerminalEvent(m.outcome, r.rid, r.action, MemoizedDuplicate, m.result, m.error)]
            && t.launches == s.launches && t.ledger == s.ledger && t.run.workProgress == s.run.workProgress
            && t.run.queue.pending == s.run.queue.pending
  {
    hide After, Answered;
    AnswerStays(states, actions, c, i, j, sig, prior, m);
    Reachable(states, actions, c, j);
    var a := actions[j];
    assert a == Ask(a.request, Ok, Emit(Ok, a.emit.hasOrigin, a.emit.textReadable));
    RepeatIsAnswered(states[j], a.request, a.emit.hasOrigin, a.emit.textReadable, prior, m, c);
  }
}
