/** The life of one run across crashes (runtime/recovery.c, runtime/action_subprocess.c,
    runtime/action_runtime.c, runtime/ports.c): requests are logged and queued, calls
    cross the durable action_started boundary before they execute, a message is handed
    to the delivery ledger before its terminal is logged, and after a crash the log is
    replayed line by line and the started calls are reconciled.

    A line that was torn is not part of the log: replay cuts it off. The delivery ledger
    is shared with other runs and is never repaired, so its torn tails are modelled. */
module RunLife {
  import opened ActionRunner
  import opened TornFile

  // ----- the delivery ledger -----

  datatype Line = Record(rid: string) | Foreign | Garbled

  type Ledger = File<Line>

  function Written(l: Ledger, x: Line, w: Write): Ledger {
    WithLine(l, x, Garbled, w)
  }

  function CountRecord(lines: seq<Line>, rid: string): nat {
    if lines == [] then 0
    else CountRecord(lines[..|lines| - 1], rid) + (if lines[|lines| - 1] == Record(rid) then 1 else 0)
  }

  /** The number of records for rid a reader of the ledger finds. */
  function Deliveries(l: Ledger, rid: string): nat {
    CountRecord(l.lines, rid) + (if l.tail == Unended(Record(rid)) then 1 else 0)
  }

  // ----- the run -----

  datatype Mode = Down | Replaying(k: nat, n: nat) | Reconciling(i: nat) | Up | Halted

  datatype Life = Life(run: RunState, mode: Mode, launches: seq<string>, ledger: Ledger)

  /** Fixed for the whole life: table sizes, the action registry, and how a message
      result is rebuilt from the arguments. */
  datatype Setup = Setup(lim: Limits, registry: map<ActionName, ActionDef>, message: Pending -> Json)

  datatype Action =
    | Ask(request: Request, append: Append, emit: Emit)
    | Refuse(rid: string, reason: Reason, emit: Emit)
    | Launch(rid: string, append: Append, executed: bool)
    | Finish(rid: string, outcome: Outcome, reason: Reason, result: Json, error: Json, emit: Emit, write: Write)
    | EndWork(rid: string, append: Append, reason: Reason, result: Json, error: Json, emit: Emit)
    | ForeignDelivery(write: Write)
    | Crash
    | Boot
    | Replay(emit: Emit)
    | Reconcile(ledgerReadable: bool, reply: BlockReply, append: Append)

  const NoTables := Queue([], [], [])

  const Init := Life(RunState(NoTables, [], [], false, false), Up, [], File([], Clean))

  /** Memory is gone; log, ledger and effects stay. */
  function Dropped(s: Life, run: RunState): Life {
    s.(run := RunState(NoTables, run.log, run.deliveries, false, false), mode := Down)
  }

  /** Request ids carry the number of their own log line, so a new one is on no earlier line. */
  ghost predicate NewId(log: seq<Event>, rid: string) {
    rid != "" && forall i :: 0 <= i < |log| ==> log[i].rid != rid
  }

  function Logging(run: RunState, e: Event, append: Append): RunState {
    run.(log := Logged(run.log, e, append))
  }

  function ReplayLine(run: RunState, e: Event, emit: Emit, lim: Limits): (Code, RunState) {
    match e
    case Requested(_, r) => RequestNoted(run, r, emit, lim)
    case ActionStarted(rid) => (Ignored, run.(queue := run.queue.(pending := MarkedStarted(run.queue.pending, rid))))
    case Terminal(rid, outcome, action, _, _, _) =>
      (Ignored, run.(queue := Retired(run.queue, rid, lim),
                     deliveredMessage := run.deliveredMessage || (outcome.Succeeded? && action == Message)))
    case WorkEnded(rid) => (Ignored, run.(queue := Retired(run.queue, rid, lim)))
    case OverflowError(_) => (Ignored, run)
  }

  function WorldAt(s: Life, p: Pending, ledgerReadable: bool, reply: BlockReply, c: Setup): World {
    World(c.registry, ledgerReadable, if Deliveries(s.ledger, p.rid) > 0 then {p.rid} else {}, map[p.rid := reply])
  }

  function Reconciled(s: Life, i: nat, readable: bool, reply: BlockReply, append: Append, c: Setup): Life
    requires i < |s.run.queue.pending|
  {
    var q := s.run.queue.pending;
    var w := WorldAt(s, q[i], readable, reply, c);
    if Stuck(q[i], w) then Dropped(s, s.run)
    else if Finishes(q[i], w) then
      var t := RecoveryFinished(s.run, q[i], w, c.message, append, c.lim);
      if t.0.Error? then Dropped(s, t.1) else s.(run := t.1)
    else
      s.(run := s.run.(queue := s.run.queue.(pending := q[i := q[i].(started := false)])), mode := Reconciling(i + 1))
  }

  function Finished(s: Life, p: Pending, a: Action, c: Setup): Life
    requires a.Finish?
  {
    var t := TerminalEmitted(s.run, a.outcome, p.rid, p.action, p.taskId, a.reason, a.result, a.error, a.emit, c.lim);
    Life(t.1, if t.0.Error? then Halted else Up, s.launches,
         if Delivers(a.outcome, p.action, a.reason, a.emit) then Written(s.ledger, Record(p.rid), a.write) else s.ledger)
  }

  /** A work-terminal intrinsic logs its own work_completed or work_blocked line, then its
      action terminal; the first already ends the call when the log is replayed. */
  function WorkFinished(s: Life, p: Pending, a: Action, c: Setup): Life
    requires a.EndWork?
  {
    var run := Logging(s.run, WorkEnded(p.rid), a.append);
    var t := TerminalEmitted(run, if a.append.Ok? then Succeeded else Failed, p.rid, p.action, p.taskId,
                             a.reason, a.result, a.error, a.emit, c.lim);
    s.(run := t.1, mode := if t.0.Error? then Halted else Up)
  }

  function Launched(s: Life, rid: string, append: Append, executed: bool): Life {
    var t := StartedEmitted(s.run, rid, append);
    if t.0.Error? then s.(run := t.1, mode := Halted)
    else s.(run := t.1, launches := if executed then s.launches + [rid] else s.launches)
  }

  function Asked(s: Life, r: Request, append: Append, emit: Emit, c: Setup): Life {
    var run := Logging(s.run, Requested(r.rid, r), append);
    if !append.Ok? then s.(run := run, mode := Halted)
    else s.(run := RequestNoted(run, r, emit, c.lim).1)
  }

  function Refused(s: Life, p: Pending, reason: Reason, emit: Emit, c: Setup): Life {
    var t := RejectedEmitted(s.run, p.rid, p.action, p.taskId, reason, p.sig, emit, c.lim);
    s.(run := t.1, mode := if t.0.Error? then Halted else Up)
  }

  ghost function After(s: Life, a: Action, c: Setup): Life {
    var q := s.run.queue.pending;
    match a
    case Ask(r, append, emit) =>
      if !s.mode.Up? || r.sig == "" || !NewId(s.run.log, r.rid) then s else Asked(s, r, append, emit, c)
    case Refuse(rid, reason, emit) =>
      var i := PendingIndex(q, rid);
      if !s.mode.Up? || i == |q| || q[i].started then s else Refused(s, q[i], reason, emit, c)
    case Launch(rid, append, executed) =>
      var i := PendingIndex(q, rid);
      if !s.mode.Up? || i == |q| || q[i].started then s else Launched(s, rid, append, executed)
    case Finish(rid, outcome, _, _, _, _, _) =>
      var i := PendingIndex(q, rid);
      if !s.mode.Up? || i == |q| || outcome.Rejected? || (outcome.Succeeded? && !q[i].started) then s
      else Finished(s, q[i], a, c)
    case EndWork(rid, _, _, _, _, _) =>
      var i := PendingIndex(q, rid);
      if !s.mode.Up? || i == |q| || !q[i].started || q[i].action == Message then s
      else WorkFinished(s, q[i], a, c)
    case ForeignDelivery(w) => s.(ledger := Written(s.ledger, Foreign, w))
    case Crash => Dropped(s, s.run)
    case Boot => if s.mode.Down? then s.(mode := Replaying(0, |s.run.log|)) else s
    case Replay(emit) =>
      if !s.mode.Replaying? then s
      else if s.mode.k >= s.mode.n || s.mode.k >= |s.run.log| then s.(mode := Reconciling(0))
      else
        var t := ReplayLine(s.run, s.run.log[s.mode.k], emit, c.lim);
        if t.0.Error? then Dropped(s, t.1) else s.(run := t.1, mode := Replaying(s.mode.k + 1, s.mode.n))
    case Reconcile(readable, reply, append) =>
      if !s.mode.Reconciling? then s
      else if s.mode.i >= |q| then s.(mode := Up)
      else Reconciled(s, s.mode.i, readable, reply, append, c)
  }

  ghost predicate IsLife(states: seq<Life>, actions: seq<Action>, c: Setup) {
    && |states| == |actions| + 1
    && states[0] == Init
    && forall i :: 0 <= i < |actions| ==> states[i + 1] == After(states[i], actions[i], c)
  }

  // ----- the queue as a function of the log -----

  /** Pending calls and completed signatures. */
  datatype Plan = Plan(pending: seq<Pending>, sigs: seq<SigEntry>)

  function Noted(d: Plan, e: Event, lim: Limits): Plan {
    match e
    case Requested(rid, r) =>
      if PendingIndex(d.pending, rid) < |d.pending| || SigIndex(d.pending, r.sig) < |d.pending|
         || CompletedIndex(d.sigs, r.sig) < |d.sigs| || |d.pending| >= lim.maxPending
      then d
      else d.(pending := d.pending + [NewEntry(r)])
    case ActionStarted(rid) => d.(pending := MarkedStarted(d.pending, rid))
    case Terminal(rid, _, _, _, _, _) => Ended(d, rid, lim)
    case WorkEnded(rid) => Ended(d, rid, lim)
    case OverflowError(_) => d
  }

  function Ended(d: Plan, rid: string, lim: Limits): Plan {
    var i := PendingIndex(d.pending, rid);
    if i == |d.pending| then d
    else Plan(Removed(d.pending, i), SigsWith(d.sigs, d.pending[i].sig, rid, lim))
  }

  /** Requested and not ended, in request order; started when the boundary was crossed. */
  function PlanOf(log: seq<Event>, lim: Limits): Plan {
    if log == [] then Plan([], []) else Noted(PlanOf(log[..|log| - 1], lim), log[|log| - 1], lim)
  }

  function PlanView(q: Queue): Plan {
    Plan(q.pending, q.sigs)
  }

  lemma PlanSnoc(log: seq<Event>, e: Event, lim: Limits)
    ensures PlanOf(log + [e], lim) == Noted(PlanOf(log, lim), e, lim)
  {
    assert (log + [e])[..|log|] == log;
  }

  // ----- invariant -----

  /** Each request line is the first line with its id. */
  ghost predicate LogWf(log: seq<Event>) {
    forall j :: 0 <= j < |log| && log[j].Requested? ==>
      log[j].request.rid == log[j].rid && log[j].request.sig != "" && NewId(log[..j], log[j].rid)
  }

  ghost predicate OnLog(log: seq<Event>, rid: string) {
    exists j :: 0 <= j < |log| && log[j].rid == rid
  }

  /** Calls recovery may run again: messages the ledger does not hold, and local actions. */
  predicate Redoable(p: Pending, c: Setup) {
    p.action == Message || (p.action in c.registry && !c.registry[p.action].outsideWorld)
  }

  /** The live queue is the plan, except that redoable calls before the cursor may have
      been put back to unstarted. */
  ghost predicate Follows(live: Plan, d: Plan, i: nat, c: Setup) {
    && live.sigs == d.sigs && |live.pending| == |d.pending|
    && forall j :: 0 <= j < |live.pending| ==> Tracks(live.pending[j], d.pending[j], j < i, c)
  }

  predicate Tracks(live: Pending, p: Pending, done: bool, c: Setup) {
    live == p || (done && Redoable(p, c) && live == p.(started := false))
  }

  /** Lines replay itself appended: terminals of calls that are not queued. */
  ghost predicate Leftover(log: seq<Event>, k: nat, n: nat, d: Plan) {
    k <= |log| && forall j :: n <= j < |log| ==>
      && (log[j].Terminal? || log[j].OverflowError?)
      && OnLog(log[..k], log[j].rid)
      && PendingIndex(d.pending, log[j].rid) == |d.pending|
  }

  ghost predicate IdsOn(ids: seq<string>, log: seq<Event>) {
    forall rid :: rid in ids ==> OnLog(log, rid)
  }

  /** The live tables agree with the whole log. */
  ghost predicate InStep(q: Queue, log: seq<Event>, i: nat, c: Setup) {
    && LogWf(log) && RunnerInv(q) && IdsOn(q.ids, log)
    && i <= |q.pending| && Follows(PlanView(q), PlanOf(log, c.lim), i, c)
  }

  /** The live tables agree with the first k lines. */
  ghost predicate MidReplay(q: Queue, log: seq<Event>, k: nat, n: nat, c: Setup) {
    && k <= n <= |log|
    && LogWf(log) && RunnerInv(q) && IdsOn(q.ids, log[..k])
    && PlanView(q) == PlanOf(log[..k], c.lim) && Leftover(log, k, n, PlanView(q))
  }

  ghost predicate Inv(s: Life, c: Setup) {
    var q, log := s.run.queue, s.run.log;
    match s.mode
    case Down => LogWf(log) && q == NoTables
    case Halted => LogWf(log)
    case Replaying(k, n) => MidReplay(q, log, k, n, c)
    case Reconciling(i) => InStep(q, log, i, c)
    case Up => InStep(q, log, |q.pending|, c)
  }
}
