/** The completion protocol around the operation store (runtime/ports.c and
    runtime/operation_driver.c): an in-run result, a worker claim from the bus and
    a runtime timeout claim compete to finish an operation, across crashes.

    Every action is total: the early returns of the code leave the state alone.
    What the environment decides (which bytes of an append reach the log, whether a
    write is durable, the clock, reserved ids) is carried by the action. */
module OperationProtocol {
  import opened OperationStore
  import opened OperationStoreLaws

  datatype Cause = Worker | Timeout

  /** A parsed operation_completed envelope. */
  datatype Claim = Claim(operationId: string, token: string, cause: Cause)

  datatype Phase = Waiting | Ready

  /** A run created from a claim envelope; its control file is durable. */
  datatype ClaimRun = ClaimRun(envelopeId: string, operationId: string, phase: Phase)

  /** How one append of operation_result went. Unreduced: the line is committed but
      the append reported an error, or the reducer could not write the store. */
  datatype Append = NotCommitted | Reduced | Unreduced

  /** A self-sourced operation_result line. */
  datatype ResultLine = ResultLine(handle: string, run: Origin)
  datatype Origin = InRun | FromClaim(runId: nat)

  /** The envelope the drain loop has moved out of the inbox but not yet bound to a run.
      Memory only. */
  datatype Intake = Idle | Holding(envelopeId: string)

  datatype State = State(store: seq<Operation>, inbox: map<string, Claim>, processed: map<string, Claim>,
                         intake: Intake, runs: map<nat, ClaimRun>, results: seq<ResultLine>)

  datatype Action =
    | StartOperation(payload: Payload, cap: nat, durable: bool)
    | WriteMetadata(handle: string, patch: Patch, durable: bool)
    | SubmitClaim(envelopeId: string, claim: Claim)
    | PumpTimeout(handle: string, nowMs: int, reserved: string, durable: bool, published: bool)
    | Consume(envelopeId: string)
    | Admit(runId: nat, persisted: bool, append: Append, cap: nat)
    | Retry(runId: nat, append: Append, cap: nat)
    | FinishInRun(handle: string, append: Append, cap: nat)
    | CloseInRun(handle: string, cap: nat, durable: bool)
    | DeliverWake(payload: Payload, cap: nat, durable: bool)
    | Reconcile(envelopeId: string)
    | Crash

  const Init := State([], map[], map[], Idle, map[], [])

  // ----- admission -----

  /** The admission decision, a function of durable state alone. */
  predicate Admitted(store: seq<Operation>, c: Claim) {
    match Get(store, c.operationId)
    case Missing => false
    case Found(o) =>
      o.status.Running? &&
      match c.cause
      case Timeout => o.token == "" || o.token == c.token
      case Worker => o.token != "" && o.token == c.token
  }

  predicate ClaimedBySomeRun(runs: map<nat, ClaimRun>, envelopeId: string) {
    exists r :: r in runs && runs[r].envelopeId == envelopeId
  }

  /** bus_publish_stable: an id that is already on the bus is absorbed. */
  function Published(s: State, envelopeId: string, c: Claim): State {
    if envelopeId == "" || envelopeId in s.inbox || envelopeId in s.processed then s
    else s.(inbox := s.inbox[envelopeId := c])
  }

  /** The first event of a claim run. Its payload is rebuilt from the stored record,
      so a record that is gone commits nothing. Admission is not consulted here. */
  function Committed(s: State, r: nat, append: Append, cap: nat, maxItems: nat): State
    requires r in s.runs
  {
    var run := s.runs[r];
    match Get(s.store, run.operationId)
    case Missing => s
    case Found(o) =>
      if append.NotCommitted? then s
      else s.(runs := s.runs[r := run.(phase := Ready)],
              results := s.results + [ResultLine(o.handle, FromClaim(r))],
              store := if append.Reduced? then Next(s.store, OwnResult(o, cap), maxItems) else s.store)
  }

  function OwnResult(o: Operation, cap: nat): Call {
    Call(ApplyResult(Payload(o.handle, o.identity, o.route, 0)), cap, true)
  }

  predicate HasResult(results: seq<ResultLine>, h: string) {
    exists i :: 0 <= i < |results| && results[i].handle == h
  }

  function After(s: State, a: Action, maxItems: nat): State {
    match a
    case StartOperation(p, cap, durable) =>
      s.(store := Next(s.store, Call(ApplyStarted(p), cap, durable), maxItems))
    case WriteMetadata(h, patch, durable) =>
      if patch.Envelope? then s
      else s.(store := Next(s.store, Call(WriteField(h, patch), 0, durable), maxItems))
    case SubmitClaim(e, c) => Published(s, e, c)
    case PumpTimeout(h, now, reserved, durable, published) =>
      (match Get(s.store, h)
       case Missing => s
       case Found(o) =>
         if !Due(o, now) then s
         else if o.claimEnvelopeId == "" && (reserved == "" || !durable) then s
         else
           var id := if o.claimEnvelopeId == "" then reserved else o.claimEnvelopeId;
           var bound := if o.claimEnvelopeId == ""
                        then s.(store := Next(s.store, Call(WriteField(h, Envelope(reserved)), 0, true), maxItems))
                        else s;
           if published then Published(bound, id, Claim(h, if o.token == "" then "expired" else o.token, Timeout))
           else bound)
    case Consume(e) =>
      if s.intake.Holding? || e !in s.inbox then s
      else s.(inbox := s.inbox - {e}, processed := s.processed[e := s.inbox[e]], intake := Holding(e))
    case Admit(r, persisted, append, cap) =>
      if s.intake.Idle? then s
      else
        var e, idle := s.intake.envelopeId, s.(intake := Idle);
        if e !in s.processed || r in s.runs || !persisted || !Admitted(s.store, s.processed[e]) then idle
        else Committed(idle.(runs := s.runs[r := ClaimRun(e, s.processed[e].operationId, Waiting)]),
                       r, append, cap, maxItems)
    case Retry(r, append, cap) =>
      if r !in s.runs || s.runs[r].phase.Ready? then s else Committed(s, r, append, cap, maxItems)
    case FinishInRun(h, append, cap) =>
      (match Get(s.store, h)
       case Missing => s
       case Found(o) =>
         if o.status.Finished? || append.NotCommitted? then s
         else s.(results := s.results + [ResultLine(h, InRun)],
                 store := if append.Reduced? then Next(s.store, OwnResult(o, cap), maxItems) else s.store))
    case CloseInRun(h, cap, durable) =>
      s.(store := Next(s.store, Call(CloseWithoutResult(h), cap, durable), maxItems))
    case DeliverWake(p, cap, durable) =>
      if !HasResult(s.results, p.handle) then s
      else s.(store := Next(s.store, Call(ApplyResult(p), cap, durable), maxItems))
    case Reconcile(e) =>
      if s.intake.Holding? || e !in s.processed || !Admitted(s.store, s.processed[e]) || ClaimedBySomeRun(s.runs, e)
      then s
      else s.(inbox := s.inbox[e := s.processed[e]], processed := s.processed - {e})
    case Crash => s.(intake := Idle)
  }

  // ----- what every action keeps -----

  /** Each envelope is in one place and opens at most one run; a held envelope has none yet. */
  ghost predicate BusInv(s: State) {
    && s.inbox.Keys !! s.processed.Keys
    && (forall r :: r in s.runs ==> s.runs[r].envelopeId in s.processed)
    && (forall r, q :: r in s.runs && q in s.runs && r != q ==> s.runs[r].envelopeId != s.runs[q].envelopeId)
    && (s.intake.Holding? ==> s.intake.envelopeId in s.processed && !ClaimedBySomeRun(s.runs, s.intake.envelopeId))
  }

  ghost predicate Inv(s: State, maxItems: nat) {
    ValidStore(s.store, maxItems) && BusInv(s)
  }

  ghost predicate IsExecution(states: seq<State>, actions: seq<Action>, maxItems: nat) {
    && |states| == |actions| + 1
    && states[0] == Init
    && forall i :: 0 <= i < |actions| ==> states[i + 1] == After(states[i], actions[i], maxItems)
  }

  /** The store call behind an action; a non-durable one when there is none. */
  ghost function CallOf(s: State, a: Action): Call {
    var none := Call(CloseWithoutResult(""), 0, false);
    match a
    case StartOperation(p, cap, durable) => Call(ApplyStarted(p), cap, durable)
    case WriteMetadata(h, patch, durable) => if patch.Envelope? then none else Call(WriteField(h, patch), 0, durable)
    case PumpTimeout(h, now, reserved, durable, published) =>
      (match Get(s.store, h)
       case Missing => none
       case Found(o) => if Due(o, now) && o.claimEnvelopeId == "" && reserved != "" && durable
                        then Call(WriteField(h, Envelope(reserved)), 0, true) else none)
    case Admit(r, persisted, append, cap) =>
      if s.intake.Holding? && s.intake.envelopeId in s.processed && r !in s.runs && persisted
         && Admitted(s.store, s.processed[s.intake.envelopeId]) && append.Reduced?
      then OwnResult(Get(s.store, s.processed[s.intake.envelopeId].operationId).record, cap) else none
    case Retry(r, append, cap) =>
      if r in s.runs && s.runs[r].phase.Waiting? && Get(s.store, s.runs[r].operationId).Found? && append.Reduced?
      then OwnResult(Get(s.store, s.runs[r].operationId).record, cap) else none
    case FinishInRun(h, append, cap) =>
      (match Get(s.store, h)
       case Missing => none
       case Found(o) => if o.status.Running? && append.Reduced? then OwnResult(o, cap) else none)
    case CloseInRun(h, cap, durable) => Call(CloseWithoutResult(h), cap, durable)
    case DeliverWake(p, cap, durable) =>
      if HasResult(s.results, p.handle) then Call(ApplyResult(p), cap, durable) else none
    case _ => none
  }

  /** Every action reaches the store through at most one store call. */
  lemma StoreMoves(s: State, a: Action, maxItems: nat)
    ensures After(s, a, maxItems).store == Next(s.store, CallOf(s, a), maxItems)
  {
  }

  /** What an action does to bus and runs, apart from phases. */
  lemma CommitKeepsBus(s: State, r: nat, append: Append, cap: nat, maxItems: nat)
    requires r in s.runs && BusInv(s)
    ensures BusInv(Committed(s, r, append, cap, maxItems))
  {
    var t := Committed(s, r, append, cap, maxItems);
    assert t.inbox == s.inbox && t.processed == s.processed && t.intake == s.intake;
    assert t.runs.Keys == s.runs.Keys;
    assert forall q :: q in t.runs ==> t.runs[q].envelopeId == s.runs[q].envelopeId;
  }

  lemma AdmitKeepsBus(s: State, r: nat, persisted: bool, append: Append, cap: nat, maxItems: nat)
    requires BusInv(s)
    ensures BusInv(After(s, Admit(r, persisted, append, cap), maxItems))
  {
    if s.intake.Holding? {
      var e, idle := s.intake.envelopeId, s.(intake := Idle);
      if e in s.processed && r !in s.runs && persisted && Admitted(s.store, s.processed[e]) {
        var bound := idle.(runs := s.runs[r := ClaimRun(e, s.processed[e].operationId, Waiting)]);
        assert forall q :: q in s.runs ==> s.runs[q].envelopeId != e;
        CommitKeepsBus(bound, r, append, cap, maxItems);
      }
    }
  }

  lemma BusStep(s: State, a: Action, maxItems: nat)
    requires BusInv(s)
    ensures BusInv(After(s, a, maxItems))
  {
    match a
    case Admit(r, persisted, append, cap) => AdmitKeepsBus(s, r, persisted, append, cap, maxItems);
    case Retry(r, append, cap) =>
      if r in s.runs { CommitKeepsBus(s, r, append, cap, maxItems); }
    case Consume(e) =>
      if s.intake.Idle? && e in s.inbox {
        assert forall r :: r in s.runs ==> s.runs[r].envelopeId != e;
      }
    case _ =>
  }

  lemma InvStep(s: State, a: Action, maxItems: nat)
    requires Inv(s, maxItems)
    ensures Inv(After(s, a, maxItems), maxItems)
  {
    StoreMoves(s, a, maxItems);
    CallAllowed(s.store, CallOf(s, a), maxItems, "h");
    BusStep(s, a, maxItems);
  }

  lemma {:induction false} Reachable(states: seq<State>, actions: seq<Action>, maxItems: nat, i: nat)
    requires IsExecution(states, actions, maxItems) && i < |states|
    ensures Inv(states[i], maxItems)
  {
    if i > 0 {
      Reachable(states, actions, maxItems, i - 1);
      InvStep(states[i - 1], actions[i - 1], maxItems);
      assert states[i - 1 + 1] == After(states[i - 1], actions[i - 1], maxItems);
    }
  }
}
