/** Whole executions of the completion protocol: one flip, where a second
    operation_result can come from and exactly when it can, and that no admissible
    claim is lost in a crash. */
module OperationExactlyOnce {
  import opened OperationStore
  import opened OperationStoreLaws
  import opened OperationProtocol

  predicate RunningIn(s: State, h: string) {
    Get(s.store, h).Found? && Get(s.store, h).record.status.Running?
  }

  predicate WaitingOn(s: State, r: nat, h: string) {
    r in s.runs && s.runs[r].operationId == h && s.runs[r].phase.Waiting?
  }

  ghost predicate NoneWaiting(s: State, h: string) {
    forall r: nat :: !WaitingOn(s, r, h)
  }

  function CountOf(results: seq<ResultLine>, h: string): nat {
    if results == [] then 0
    else CountOf(results[..|results| - 1], h) + (if results[|results| - 1].handle == h then 1 else 0)
  }

  predicate AddsResult(s: State, a: Action, maxItems: nat, h: string) {
    var t := After(s, a, maxItems);
    |t.results| > |s.results| && t.results[|s.results|].handle == h
  }

  predicate Restarts(s: State, a: Action, h: string) {
    a.StartOperation? && a.payload.handle == h && Get(s.store, h).Missing?
  }

  predicate IsUnreduced(a: Action) {
    (a.Admit? || a.Retry? || a.FinishInRun?) && a.append.Unreduced?
  }

  // ----- one action -----

  lemma StepAllowed(s: State, a: Action, maxItems: nat, h: string)
    requires Inv(s, maxItems) && h != ""
    ensures Allowed(Get(s.store, h), Get(After(s, a, maxItems).store, h), CallOf(s, a).op, h)
  {
    StoreMoves(s, a, maxItems);
    CallAllowed(s.store, CallOf(s, a), maxItems, h);
  }

  /** Only a start of an absent operation makes one run. */
  lemma RunningNeedsStart(s: State, a: Action, maxItems: nat, h: string)
    requires Inv(s, maxItems) && h != "" && !RunningIn(s, h) && !Restarts(s, a, h)
    ensures !RunningIn(After(s, a, maxItems), h)
  {
    StepAllowed(s, a, maxItems, h);
    if Get(s.store, h).Missing? && CallOf(s, a).op.ApplyStarted? {
      assert a.StartOperation?;
    }
  }

  /** Where a result line can come from. */
  lemma ResultSource(s: State, a: Action, maxItems: nat)
    ensures var t := After(s, a, maxItems);
            || t.results == s.results
            || (&& |t.results| == |s.results| + 1 && t.results[..|s.results|] == s.results
                && var h := t.results[|s.results|].handle;
                && Get(s.store, h).Found?
                && match a
                   case Retry(r, append, _) =>
                     && WaitingOn(s, r, h) && !append.NotCommitted?
                     && t.runs == s.runs[r := s.runs[r].(phase := Ready)]
                     && t.results[|s.results|].run == FromClaim(r)
                   case Admit(r, _, append, _) =>
                     && RunningIn(s, h) && !append.NotCommitted? && r in t.runs && t.runs[r].phase.Ready?
                   case FinishInRun(x, append, _) => x == h && RunningIn(s, h) && !append.NotCommitted?
                   case _ => false)
  {
  }

  /** No action opens a waiting run for an operation that is not running. */
  lemma WaitingNeedsRunning(s: State, a: Action, maxItems: nat, r: nat, h: string)
    requires WaitingOn(After(s, a, maxItems), r, h) && !WaitingOn(s, r, h)
    ensures RunningIn(s, h) && a.Admit?
  {
  }

  /** Admission, exactly: a run is opened if and only if the held claim presents the
      stored secret of a running operation (a timeout claim also passes when the record
      has no secret). So finished, unknown and forged claims leave no run behind. */
  lemma AdmissionExact(s: State, r: nat, append: Append, cap: nat, maxItems: nat)
    requires Inv(s, maxItems) && s.intake.Holding? && r !in s.runs
    ensures var c := s.processed[s.intake.envelopeId];
            var t := After(s, Admit(r, true, append, cap), maxItems);
            && (r in t.runs <==>
                && RunningIn(s, c.operationId)
                && var o := Get(s.store, c.operationId).record;
                   (o.token == c.token && o.token != "") || (c.cause.Timeout? && o.token == ""))
            && (r !in t.runs ==> t == s.(intake := Idle))
            && t.intake == Idle
  {
  }

  lemma {:induction false} CountAppend(results: seq<ResultLine>, l: ResultLine, h: string)
    ensures CountOf(results + [l], h) == CountOf(results, h) + (if l.handle == h then 1 else 0)
  {
    assert (results + [l])[..|results|] == results;
  }

  lemma CountStep(s: State, a: Action, maxItems: nat, h: string)
    ensures CountOf(After(s, a, maxItems).results, h)
            == CountOf(s.results, h) + (if AddsResult(s, a, maxItems, h) then 1 else 0)
  {
    ResultSource(s, a, maxItems);
    var t := After(s, a, maxItems);
    if t.results != s.results {
      var l := t.results[|s.results|];
      assert t.results == s.results + [l];
      CountAppend(s.results, l, h);
    }
  }

  // ----- flips -----

  ghost predicate NeverRestarted(states: seq<State>, actions: seq<Action>, h: string, i: nat, j: nat)
    requires |states| == |actions| + 1
  {
    forall k :: i <= k < j && k < |actions| ==> !Restarts(states[k], actions[k], h)
  }

  lemma {:induction false} StaysNotRunning(states: seq<State>, actions: seq<Action>, maxItems: nat,
                                           h: string, i: nat, j: nat)
    requires IsExecution(states, actions, maxItems) && h != "" && i <= j < |states|
    requires !RunningIn(states[i], h) && NeverRestarted(states, actions, h, i, j)
    ensures !RunningIn(states[j], h)
  {
    if i < j {
      StaysNotRunning(states, actions, maxItems, h, i, j - 1);
      Reachable(states, actions, maxItems, j - 1);
      RunningNeedsStart(states[j - 1], actions[j - 1], maxItems, h);
      assert states[j - 1 + 1] == After(states[j - 1], actions[j - 1], maxItems);
    }
  }

  /** Over every interleaving, two actions can end the running state of the same
      operation only if it was evicted and started anew between them. */
  lemma OneFlip(states: seq<State>, actions: seq<Action>, maxItems: nat, h: string, i: nat, j: nat)
    requires IsExecution(states, actions, maxItems) && h != "" && i < j < |actions|
    requires RunningIn(states[i], h) && !RunningIn(states[i + 1], h)
    requires RunningIn(states[j], h) && !RunningIn(states[j + 1], h)
    ensures !NeverRestarted(states, actions, h, i + 1, j)
  {
    if NeverRestarted(states, actions, h, i + 1, j) {
      StaysNotRunning(states, actions, maxItems, h, i + 1, j);
    }
  }

  // ----- where a late result comes from -----

  lemma NoNewWaiting(s: State, a: Action, t: State, maxItems: nat, r: nat, h: string)
    requires t == After(s, a, maxItems) && !RunningIn(s, h) && WaitingOn(t, r, h)
    ensures WaitingOn(s, r, h)
  {
    if !WaitingOn(s, r, h) {
      WaitingNeedsRunning(s, a, maxItems, r, h);
    }
  }

  lemma {:induction false} WaitingOnlyShrinks(states: seq<State>, actions: seq<Action>, maxItems: nat,
                                              h: string, i: nat, j: nat, r: nat)
    requires IsExecution(states, actions, maxItems) && h != "" && i <= j < |states|
    requires !RunningIn(states[i], h) && NeverRestarted(states, actions, h, i, j)
    requires WaitingOn(states[j], r, h)
    ensures WaitingOn(states[i], r, h)
  {
    if i < j {
      var k := j - 1;
      StaysNotRunning(states, actions, maxItems, h, i, k);
      NoNewWaiting(states[k], actions[k], states[k + 1], maxItems, r, h);
      WaitingOnlyShrinks(states, actions, maxItems, h, i, k, r);
    }
  }

  /** A result line that arrives after the flip can only be the retry of a claim run
      that was already waiting when the flip happened. */
  lemma LateResultWasWaiting(states: seq<State>, actions: seq<Action>, maxItems: nat, h: string, i: nat, j: nat)
    requires IsExecution(states, actions, maxItems) && h != "" && i <= j < |actions|
    requires !RunningIn(states[i], h) && NeverRestarted(states, actions, h, i, j)
    requires AddsResult(states[j], actions[j], maxItems, h)
    ensures actions[j].Retry? && WaitingOn(states[i], actions[j].runId, h)
    ensures Get(states[j].store, h).Found?
  {
    StaysNotRunning(states, actions, maxItems, h, i, j);
    ResultSource(states[j], actions[j], maxItems);
    WaitingOnlyShrinks(states, actions, maxItems, h, i, j, actions[j].runId);
  }

  // ----- at most one result -----

  /** An append for h reports what it did and no other claim waits on h when it
      commits; and h is not started again once it has a result. */
  ghost predicate Undisturbed(s: State, a: Action, t: State, h: string) {
    && (CountOf(t.results, h) > CountOf(s.results, h) ==> !IsUnreduced(a) && NoneWaiting(t, h))
    && (Restarts(s, a, h) ==> CountOf(s.results, h) == 0)
  }

  ghost predicate AtMostOneAndSettled(s: State, h: string) {
    || CountOf(s.results, h) == 0
    || (CountOf(s.results, h) == 1 && !RunningIn(s, h) && NoneWaiting(s, h))
  }

  lemma CommitEndsRunning(s: State, a: Action, maxItems: nat, h: string)
    requires Inv(s, maxItems) && h != ""
    requires AddsResult(s, a, maxItems, h) && !IsUnreduced(a)
    ensures !RunningIn(After(s, a, maxItems), h)
  {
    ResultSource(s, a, maxItems);
    StoreMoves(s, a, maxItems);
    var o := Get(s.store, h).record;
    assert o.handle == h;
    var c := CallOf(s, a);
    assert c.op.ApplyResult? && c.op == OwnResult(o, c.cap).op && c.durable;
    if o.status.Running? {
      OwnResultFinishes(s.store, h, c.op.result, maxItems, c.cap);
    } else {
      CallAllowed(s.store, c, maxItems, h);
    }
  }

  lemma SettledStep(s: State, a: Action, t: State, maxItems: nat, h: string)
    requires Inv(s, maxItems) && h != "" && t == After(s, a, maxItems)
    requires AtMostOneAndSettled(s, h) && Undisturbed(s, a, t, h)
    ensures AtMostOneAndSettled(t, h)
  {
    CountStep(s, a, maxItems, h);
    ResultSource(s, a, maxItems);
    if AddsResult(s, a, maxItems, h) {
      CommitEndsRunning(s, a, maxItems, h);
    } else if CountOf(s.results, h) == 1 {
      RunningNeedsStart(s, a, maxItems, h);
      forall r: nat ensures !WaitingOn(t, r, h) {
        if WaitingOn(t, r, h) {
          WaitingNeedsRunning(s, a, maxItems, r, h);
        }
      }
    }
  }

  /** Whatever claims, timeouts, in-run results, crashes and requeues are interleaved,
      an undisturbed execution commits at most one operation_result per operation, and
      once it is there nothing runs or waits any more. */
  lemma {:induction false} AtMostOneResult(states: seq<State>, actions: seq<Action>, maxItems: nat, h: string, i: nat)
    requires IsExecution(states, actions, maxItems) && h != "" && i < |states|
    requires forall k :: 0 <= k < |actions| ==> Undisturbed(states[k], actions[k], states[k + 1], h)
    ensures AtMostOneAndSettled(states[i], h)
  {
    hide After;
    if i > 0 {
      AtMostOneResult(states, actions, maxItems, h, i - 1);
      Reachable(states, actions, maxItems, i - 1);
      var k := i - 1;
      assert Undisturbed(states[k], actions[k], states[k + 1], h);
      SettledStep(states[k], actions[k], states[k + 1], maxItems, h);
    }
  }

  // ----- exactly when a further result is possible -----

  ghost predicate MayStillResult(s: State, h: string) {
    Get(s.store, h).Found? && (RunningIn(s, h) || exists r :: WaitingOn(s, r, h))
  }

  /** If it may, one action suffices. */
  lemma ResultEnabled(s: State, maxItems: nat, h: string) returns (a: Action)
    requires MayStillResult(s, h)
    ensures AddsResult(s, a, maxItems, h)
  {
    if RunningIn(s, h) {
      a := FinishInRun(h, Reduced, 0);
    } else {
      var r :| WaitingOn(s, r, h);
      a := Retry(r, Reduced, 0);
    }
  }

  /** If it may not, no continuation that retains the record ever adds one. */
  lemma {:induction false} ResultImpossible(states: seq<State>, actions: seq<Action>, maxItems: nat,
                                            h: string, i: nat, j: nat)
    requires IsExecution(states, actions, maxItems) && h != "" && i <= j < |states|
    requires !MayStillResult(states[i], h)
    requires forall k :: i <= k <= j ==> Get(states[k].store, h).Found?
    ensures CountOf(states[j].results, h) == CountOf(states[i].results, h)
    ensures !MayStillResult(states[j], h)
  {
    hide After;
    if i < j {
      var k := j - 1;
      ResultImpossible(states, actions, maxItems, h, i, k);
      Reachable(states, actions, maxItems, k);
      assert Get(states[k].store, h).Found?;
      ImpossibleStep(states[k], actions[k], states[k + 1], maxItems, h);
    }
  }

  lemma ImpossibleStep(s: State, a: Action, t: State, maxItems: nat, h: string)
    requires Inv(s, maxItems) && h != "" && t == After(s, a, maxItems)
    requires !MayStillResult(s, h) && Get(s.store, h).Found?
    ensures CountOf(t.results, h) == CountOf(s.results, h) && !MayStillResult(t, h)
  {
    CountStep(s, a, maxItems, h);
    ResultSource(s, a, maxItems);
    hide After;
    RunningNeedsStart(s, a, maxItems, h);
    if r: nat :| WaitingOn(t, r, h) {
      NoNewWaiting(s, a, t, maxItems, r, h);
    }
  }

  // ----- both hypotheses are needed -----

  lemma Extended(states: seq<State>, actions: seq<Action>, maxItems: nat, a: Action)
      returns (more: seq<State>, taken: seq<Action>)
    requires IsExecution(states, actions, maxItems)
    ensures IsExecution(more, taken, maxItems) && |more| == |taken| + 1
    ensures more[|taken|] == After(states[|actions|], a, maxItems)
  {
    hide After;
    more, taken := states + [After(states[|actions|], a, maxItems)], actions + [a];
  }

  function WithSecret(p: Payload, token: string): Operation {
    NewRecord(p, Running).(token := token)
  }

  lemma OneRunning(o: Operation, cap: nat)
    requires o.handle != "" && o.status.Running?
    ensures Get([o], o.handle) == Found(o) && Purged([] + [o], cap) == [o]
  {
    assert [] + [o] == [o] && FinishedCount([o]) == 0;
  }

  lemma StartsFirst(p: Payload, maxItems: nat)
    requires p.handle != "" && maxItems > 0
    ensures After(Init, StartOperation(p, 1, true), maxItems) == Init.(store := [NewRecord(p, Running)])
  {
    OneRunning(NewRecord(p, Running), 1);
  }

  lemma BindsSecret(s: State, p: Payload, token: string, maxItems: nat)
    requires p.handle != "" && maxItems > 0 && token != "" && s.store == [NewRecord(p, Running)]
    ensures After(s, WriteMetadata(p.handle, Secret(token), true), maxItems) == s.(store := [WithSecret(p, token)])
  {
    OneRunning(NewRecord(p, Running), 1);
  }

  /** An operation is started, its worker has the secret and has submitted its claim. */
  lemma ClaimIsSubmitted(p: Payload, token: string, e: string, maxItems: nat)
      returns (states: seq<State>, actions: seq<Action>)
    requires p.handle != "" && token != "" && e != "" && maxItems > 0
    ensures IsExecution(states, actions, maxItems) && |states| == |actions| + 1
    ensures states[|actions|] == State([WithSecret(p, token)], map[e := Claim(p.handle, token, Cause.Worker)],
                                       map[], Idle, map[], [])
  {
    var c := Claim(p.handle, token, Cause.Worker);
    StartsFirst(p, maxItems);
    states, actions := Extended([Init], [], maxItems, StartOperation(p, 1, true));
    BindsSecret(states[|actions|], p, token, maxItems);
    states, actions := Extended(states, actions, maxItems, WriteMetadata(p.handle, Secret(token), true));
    states, actions := Extended(states, actions, maxItems, SubmitClaim(e, c));
  }

  lemma TakesEnvelope(s: State, e: string, c: Claim, maxItems: nat)
    requires s.inbox == map[e := c] && s.processed == map[] && s.intake.Idle?
    ensures After(s, Consume(e), maxItems) == s.(inbox := map[], processed := map[e := c], intake := Holding(e))
  {
    assert map[e := c] - {e} == map[];
  }

  lemma AdmitsHeld(s: State, o: Operation, e: string, append: Append, maxItems: nat)
    requires o.handle != "" && o.status.Running? && o.token != "" && maxItems > 0 && s.store == [o] && s.runs == map[]
    requires s.processed == map[e := Claim(o.handle, o.token, Cause.Worker)] && s.intake == Holding(e)
    ensures var t := After(s, Admit(0, true, append, 1), maxItems);
            if append.NotCommitted? then t == s.(intake := Idle, runs := map[0 := ClaimRun(e, o.handle, Waiting)])
            else t.results == s.results + [ResultLine(o.handle, FromClaim(0))]
  {
    OneRunning(o, 1);
    assert Admitted([o], s.processed[e]);
  }

  /** An append that commits and reports an error leaves the gate open: the claim of the
      worker is then admitted and commits a second result. */
  lemma UnreducedAppendGivesTwo(p: Payload, token: string, e: string, maxItems: nat)
      returns (states: seq<State>, actions: seq<Action>)
    requires p.handle != "" && token != "" && e != "" && maxItems > 0
    ensures IsExecution(states, actions, maxItems) && |states| == |actions| + 1
    ensures states[|actions|].results == [ResultLine(p.handle, InRun), ResultLine(p.handle, FromClaim(0))]
    ensures CountOf(states[|actions|].results, p.handle) == 2
  {
    var h, o, c := p.handle, WithSecret(p, token), Claim(p.handle, token, Cause.Worker);
    states, actions := ClaimIsSubmitted(p, token, e, maxItems);
    OneRunning(o, 1);
    var s := states[|actions|].(results := [ResultLine(h, InRun)]);
    assert After(states[|actions|], FinishInRun(h, Unreduced, 1), maxItems) == s;
    states, actions := Extended(states, actions, maxItems, FinishInRun(h, Unreduced, 1));
    TakesEnvelope(s, e, c, maxItems);
    states, actions := Extended(states, actions, maxItems, Consume(e));
    AdmitsHeld(states[|actions|], o, e, Reduced, maxItems);
    states, actions := Extended(states, actions, maxItems, Admit(0, true, Reduced, 1));
    CountAppend([], ResultLine(h, InRun), h);
    CountAppend([ResultLine(h, InRun)], ResultLine(h, FromClaim(0)), h);
  }

  /** A waiting claim is retried without being admitted again, so after another cause
      has finished the operation it adds a second result. */
  lemma WaitingClaimAddsTwo(s: State, maxItems: nat, h: string, r: nat)
    requires Inv(s, maxItems) && h != "" && RunningIn(s, h) && WaitingOn(s, r, h)
    ensures var t := After(s, FinishInRun(h, Reduced, maxItems + 1), maxItems);
            var u := After(t, Retry(r, Reduced, maxItems + 1), maxItems);
            CountOf(u.results, h) == CountOf(s.results, h) + 2
  {
    var cap := maxItems + 1;
    var a, b := FinishInRun(h, Reduced, cap), Retry(r, Reduced, cap);
    FinishKeepsWaiting(s, maxItems, h, r);
    var t := After(s, a, maxItems);
    RetryAdds(t, maxItems, h, r);
    hide After, Inv, AddsResult, RunningIn;
    CountStep(s, a, maxItems, h);
    CountStep(t, b, maxItems, h);
  }

  lemma FinishKeepsWaiting(s: State, maxItems: nat, h: string, r: nat)
    requires Inv(s, maxItems) && h != "" && RunningIn(s, h) && WaitingOn(s, r, h)
    ensures var a := FinishInRun(h, Reduced, maxItems + 1);
            var t := After(s, a, maxItems);
            AddsResult(s, a, maxItems, h) && Get(t.store, h).Found? && WaitingOn(t, r, h)
  {
    OwnResultStays(s.store, h, maxItems);
    hide Next, IndexOf, Inv;
  }

  /** With room for every record a finished one is retained. */
  lemma OwnResultStays(store: seq<Operation>, h: string, maxItems: nat)
    requires ValidStore(store, maxItems) && h != "" && Get(store, h).Found? && Get(store, h).record.status.Running?
    ensures Get(Next(store, OwnResult(Get(store, h).record, maxItems + 1), maxItems), h).Found?
  {
    var o := Get(store, h).record;
    CountAtMostLength(store[IndexOf(store, h) + 1..]);
    OwnResultFinishes(store, h, OwnResult(o, maxItems + 1).op.result, maxItems, maxItems + 1);
    hide IndexOf, FinishedCount, ResultApplied, ValidStore;
  }

  lemma RetryAdds(t: State, maxItems: nat, h: string, r: nat)
    requires Get(t.store, h).Found? && WaitingOn(t, r, h)
    ensures AddsResult(t, Retry(r, Reduced, maxItems + 1), maxItems, h)
  {
    hide Next, IndexOf;
  }

  /** An execution in which the claim is admitted but its first append commits nothing; the
      run's own result then ends the operation, and the retry commits a second one. */
  lemma WaitingClaimGivesTwo(p: Payload, token: string, e: string, maxItems: nat)
      returns (states: seq<State>, actions: seq<Action>)
    requires p.handle != "" && token != "" && e != "" && maxItems > 0
    ensures IsExecution(states, actions, maxItems) && |states| == |actions| + 1
    ensures CountOf(states[|actions|].results, p.handle) == 2
  {
    hide After, IsExecution, Inv, Admitted;
    var h, o, c := p.handle, WithSecret(p, token), Claim(p.handle, token, Cause.Worker);
    states, actions := ClaimIsSubmitted(p, token, e, maxItems);
    TakesEnvelope(states[|actions|], e, c, maxItems);
    states, actions := Extended(states, actions, maxItems, Consume(e));
    AdmitsHeld(states[|actions|], o, e, NotCommitted, maxItems);
    states, actions := Extended(states, actions, maxItems, Admit(0, true, NotCommitted, 1));
    var s := states[|actions|];
    OneRunning(o, 1);
    assert RunningIn(s, h) && WaitingOn(s, 0, h) && CountOf(s.results, h) == 0;
    Reachable(states, actions, maxItems, |actions|);
    WaitingClaimAddsTwo(s, maxItems, h, 0);
    states, actions := Extended(states, actions, maxItems, FinishInRun(h, Reduced, maxItems + 1));
    states, actions := Extended(states, actions, maxItems, Retry(0, Reduced, maxItems + 1));
  }

  lemma {:induction false} CountAtMostLength(items: seq<Operation>)
    ensures FinishedCount(items) <= |items|
  {
    if items != [] { CountAtMostLength(items[1..]); }
  }

  // ----- nothing is lost -----

  ghost predicate OnBus(s: State, e: string, c: Claim) {
    (e in s.inbox && s.inbox[e] == c) || (e in s.processed && s.processed[e] == c)
  }

  lemma BusOnlyGrows(s: State, a: Action, maxItems: nat)
    requires !a.Consume? && !a.Reconcile?
    ensures var t := After(s, a, maxItems);
            t.processed == s.processed && forall e :: e in s.inbox ==> e in t.inbox && t.inbox[e] == s.inbox[e]
  {
  }

  /** A published envelope stays on the bus, unchanged, through every action. */
  lemma EnvelopeStays(s: State, a: Action, maxItems: nat, e: string, c: Claim)
    requires Inv(s, maxItems) && OnBus(s, e, c)
    ensures OnBus(After(s, a, maxItems), e, c)
  {
    if !a.Consume? && !a.Reconcile? {
      BusOnlyGrows(s, a, maxItems);
      hide After;
    }
  }

  lemma {:induction false} EnvelopeNeverLost(states: seq<State>, actions: seq<Action>, maxItems: nat,
                                             e: string, c: Claim, i: nat, j: nat)
    requires IsExecution(states, actions, maxItems) && i <= j < |states|
    requires OnBus(states[i], e, c)
    ensures OnBus(states[j], e, c)
  {
    hide After, OnBus, Inv;
    if i < j {
      var k := j - 1;
      EnvelopeNeverLost(states, actions, maxItems, e, c, i, k);
      Reachable(states, actions, maxItems, k);
      assert states[k + 1] == After(states[k], actions[k], maxItems);
      EnvelopeStays(states[k], actions[k], maxItems, e, c);
    }
  }

  /** A claim consumed by a crashed intake, still admissible and bound to no run, is
      requeued and then opens its one result run. */
  lemma OrphanRecovers(s: State, maxItems: nat, e: string, r: nat, cap: nat)
    requires Inv(s, maxItems) && s.intake.Idle? && r !in s.runs
    requires e in s.processed && s.processed[e].operationId != ""
    requires Admitted(s.store, s.processed[e]) && !ClaimedBySomeRun(s.runs, e)
    ensures var h := s.processed[e].operationId;
            var t := After(After(After(s, Reconcile(e), maxItems), Consume(e), maxItems),
                           Admit(r, true, Reduced, cap), maxItems);
            && t.results == s.results + [ResultLine(h, FromClaim(r))]
            && r in t.runs && t.runs[r] == ClaimRun(e, h, Ready)
            && !RunningIn(t, h)
  {
    var h, a := s.processed[e].operationId, Admit(r, true, Reduced, cap);
    var s1 := After(s, Reconcile(e), maxItems);
    var s2 := After(s1, Consume(e), maxItems);
    assert s2.processed[e] == s.processed[e] && s2.store == s.store && s2.runs == s.runs && s2.results == s.results;
    InvStep(s, Reconcile(e), maxItems);
    InvStep(s1, Consume(e), maxItems);
    var t := After(s2, a, maxItems);
    assert t.results == s2.results + [ResultLine(h, FromClaim(r))];
    CommitEndsRunning(s2, a, maxItems, h);
  }

  // ----- one timeout envelope -----

  lemma TimeoutIdStep(s: State, a: Action, maxItems: nat, h: string)
    requires Inv(s, maxItems) && h != ""
    requires Get(s.store, h).Found? && Get(s.store, h).record.claimEnvelopeId != ""
    requires Get(After(s, a, maxItems).store, h).Found?
    ensures Get(After(s, a, maxItems).store, h).record.claimEnvelopeId == Get(s.store, h).record.claimEnvelopeId
  {
    StepAllowed(s, a, maxItems, h);
    StoreMoves(s, a, maxItems);
    var c := CallOf(s, a);
    if c.durable && c.op.WriteField? && c.op.handle == h && Get(s.store, h).record.status.Running? {
      var i := IndexOf(s.store, h);
      GetUpdated(s.store, i, Patched(s.store[i], c.op.patch), h);
    }
  }

  predicate PublishesTimeout(s: State, a: Action, maxItems: nat, h: string) {
    a.PumpTimeout? && a.handle == h && |After(s, a, maxItems).inbox| > |s.inbox|
  }

  /** A pump that publishes does so under the id it has bound to the record. */
  lemma PumpUsesBoundId(s: State, a: Action, maxItems: nat, h: string)
    requires Inv(s, maxItems) && h != "" && PublishesTimeout(s, a, maxItems, h)
    ensures var t := After(s, a, maxItems);
            && Get(t.store, h).Found? && Get(t.store, h).record.claimEnvelopeId != ""
            && Get(t.store, h).record.claimEnvelopeId !in s.inbox.Keys + s.processed.Keys
            && Get(t.store, h).record.claimEnvelopeId in t.inbox
  {
    var o := Get(s.store, h).record;
    if o.claimEnvelopeId == "" && a.reserved != "" { BoundIsStored(s.store, h, a.reserved, maxItems); }
    hide Next, Get, IndexOf;
  }

  lemma BoundIsStored(store: seq<Operation>, h: string, id: string, maxItems: nat)
    requires ValidStore(store, maxItems) && h != "" && id != ""
    requires Get(store, h).Found? && Get(store, h).record.status.Running?
    ensures Get(Next(store, Call(WriteField(h, Envelope(id)), 0, true), maxItems), h)
            == Found(Get(store, h).record.(claimEnvelopeId := id))
  {
    var i := IndexOf(store, h);
    GetUpdated(store, i, Patched(store[i], Envelope(id)), h);
    hide IndexOf;
  }

  /** The deadline of a retained operation puts at most one envelope on the bus,
      however often the pump fires and whatever crashes fall between. */
  lemma OneTimeoutEnvelope(states: seq<State>, actions: seq<Action>, maxItems: nat, h: string, i: nat, j: nat)
    requires IsExecution(states, actions, maxItems) && h != "" && i < j < |actions|
    requires forall k :: i <= k <= j + 1 ==> Get(states[k].store, h).Found?
    requires PublishesTimeout(states[i], actions[i], maxItems, h)
    ensures !PublishesTimeout(states[j], actions[j], maxItems, h)
  {
    Reachable(states, actions, maxItems, i);
    Reachable(states, actions, maxItems, j);
    PumpUsesBoundId(states[i], actions[i], maxItems, h);
    var id := Get(states[i + 1].store, h).record.claimEnvelopeId;
    TimeoutIdStays(states, actions, maxItems, h, i + 1, j);
    EnvelopeNeverLost(states, actions, maxItems, id, states[i + 1].inbox[id], i + 1, j);
    if PublishesTimeout(states[j], actions[j], maxItems, h) {
      PumpUsesBoundId(states[j], actions[j], maxItems, h);
      TimeoutIdStep(states[j], actions[j], maxItems, h);
    }
  }

  lemma {:induction false} TimeoutIdStays(states: seq<State>, actions: seq<Action>, maxItems: nat,
                                          h: string, i: nat, j: nat)
    requires IsExecution(states, actions, maxItems) && h != "" && i <= j < |states|
    requires forall k :: i <= k <= j ==> Get(states[k].store, h).Found?
    requires Get(states[i].store, h).record.claimEnvelopeId != ""
    ensures Get(states[j].store, h).record.claimEnvelopeId == Get(states[i].store, h).record.claimEnvelopeId
  {
    if i < j {
      var k := j - 1;
      TimeoutIdStays(states, actions, maxItems, h, i, k);
      Reachable(states, actions, maxItems, k);
      assert states[k + 1] == After(states[k], actions[k], maxItems) && Get(states[k + 1].store, h).Found?;
      TimeoutIdStep(states[k], actions[k], maxItems, h);
    }
  }
}
