/** The action runner of one run (runtime/action_runner.c, runtime/action_events.c):
    the pending queue, the completed tables, memoised repeats, and recovery of calls
    that had crossed action_started.

    A signature is an opaque non-empty string here; it stands for the hash text the
    runner computes. Table sizes are parameters. */
module ActionRunner {

  datatype Pending = Pending(rid: string, source: string, action: ActionName, args: string,
                             sig: string, taskId: string, workRev: int, trigger: string, started: bool)

  datatype Request = Request(rid: string, source: string, action: ActionName, args: string,
                             sig: string, taskId: string, workRev: int, trigger: string)

  /** The action names the runner treats specially. */
  datatype ActionName = Message | WorkingMemoryAppend | Named(name: string)

  datatype Outcome = Succeeded | Failed | Rejected

  datatype Reason = NoReason | MemoizedDuplicate | AmbiguousCompletion | DuplicateTerminalId
                  | DuplicateEquivalentCall | Because(why: string)

  /** A JSON value of a terminal: the runner's own constants, or text from outside. */
  datatype Json = EmptyObject | Null | AmbiguityNotice | Text(text: string)

  function Size(v: Json): nat {
    match v
    case EmptyObject => 2
    case Null => 4
    case AmbiguityNotice => 80
    case Text(t) => |t|
  }

  /** The lines of the run's log the runner reads back. */
  datatype Event =
    | Requested(rid: string, request: Request)
    | ActionStarted(rid: string)
    | Terminal(rid: string, outcome: Outcome, action: ActionName, reason: Reason, result: Json, error: Json)
    | WorkEnded(rid: string)
    | OverflowError(rid: string)

  /** A completed signature and the request id that completed it first. */
  datatype SigEntry = SigEntry(sig: string, rid: string)

  datatype Limits = Limits(maxPending: nat, maxCompleted: nat, resultCap: nat, errorCap: nat)

  /** The runner's in-memory tables. */
  datatype Queue = Queue(pending: seq<Pending>, ids: seq<string>, sigs: seq<SigEntry>)

  /** The tables, the two append-only files and the progress flags of one run. */
  datatype RunState = RunState(queue: Queue, log: seq<Event>, deliveries: seq<string>,
                               workProgress: bool, deliveredMessage: bool)

  // ----- tables -----

  function PendingIndex(q: seq<Pending>, rid: string): (i: nat)
    ensures i <= |q|
    ensures i < |q| ==> q[i].rid == rid
    ensures forall j :: 0 <= j < i ==> q[j].rid != rid
  {
    if q == [] then 0 else if q[0].rid == rid then 0 else 1 + PendingIndex(q[1..], rid)
  }

  function SigIndex(q: seq<Pending>, sig: string): (i: nat)
    ensures i <= |q|
    ensures i < |q| ==> q[i].sig == sig
    ensures forall j :: 0 <= j < i ==> q[j].sig != sig
  {
    if q == [] then 0 else if q[0].sig == sig then 0 else 1 + SigIndex(q[1..], sig)
  }

  function CompletedIndex(sigs: seq<SigEntry>, sig: string): (i: nat)
    ensures i <= |sigs|
    ensures i < |sigs| ==> sigs[i].sig == sig
    ensures forall j :: 0 <= j < i ==> sigs[j].sig != sig
  {
    if sigs == [] then 0 else if sigs[0].sig == sig then 0 else 1 + CompletedIndex(sigs[1..], sig)
  }

  function Removed(q: seq<Pending>, i: nat): seq<Pending>
    requires i < |q|
  {
    q[..i] + q[i + 1..]
  }

  function IdsWith(ids: seq<string>, rid: string, lim: Limits): seq<string> {
    if rid == "" || rid in ids || |ids| >= lim.maxCompleted then ids else ids + [rid]
  }

  function SigsWith(sigs: seq<SigEntry>, sig: string, rid: string, lim: Limits): seq<SigEntry> {
    if sig == "" || CompletedIndex(sigs, sig) < |sigs| || |sigs| >= lim.maxCompleted then sigs
    else sigs + [SigEntry(sig, rid)]
  }

  /** note_terminal: record the id, record the signature of the entry, retire it. */
  function Retired(q: Queue, rid: string, lim: Limits): Queue {
    var i := PendingIndex(q.pending, rid);
    if i == |q.pending| then Queue(q.pending, IdsWith(q.ids, rid, lim), q.sigs)
    else Queue(Removed(q.pending, i), IdsWith(q.ids, rid, lim), SigsWith(q.sigs, q.pending[i].sig, rid, lim))
  }

  // ----- emitting terminals -----

  /** One append: done; nothing complete on disk; or a complete line on disk with an
      error reported. */
  datatype Append = Ok | Lost | Late

  /** What one emission is given from outside: the append, whether the run has an
      origin channel, and whether the text of a message result is readable. */
  datatype Emit = Emit(append: Append, hasOrigin: bool, textReadable: bool)

  function Logged(log: seq<Event>, e: Event, append: Append): seq<Event> {
    if append.Lost? then log else log + [e]
  }

  datatype Code = Ignored | Queued | Memoized | Error

  /** A success hands a message to the adapter before the terminal is appended. */
  predicate Delivers(outcome: Outcome, action: ActionName, reason: Reason, e: Emit) {
    action == Message && outcome.Succeeded? && e.hasOrigin && reason != MemoizedDuplicate && e.textReadable
  }

  function TerminalEvent(outcome: Outcome, rid: string, action: ActionName, reason: Reason,
                         result: Json, error: Json): (v: Event)
    ensures v.rid == rid
  {
    Terminal(rid, outcome, action, if outcome.Succeeded? then NoReason else reason, result, error)
  }

  function TerminalEmitted(s: RunState, outcome: Outcome, rid: string, action: ActionName, taskId: string,
                           reason: Reason, result: Json, error: Json, e: Emit, lim: Limits): (Code, RunState)
  {
    (if e.append.Ok? then Ignored else Error,
     RunState(if e.append.Ok? then Retired(s.queue, rid, lim) else s.queue,
              Logged(s.log, TerminalEvent(outcome, rid, action, reason, result, error), e.append),
              if Delivers(outcome, action, reason, e) then s.deliveries + [rid] else s.deliveries,
              s.workProgress ||
                (e.append.Ok? && taskId != "" && action != Message && action != WorkingMemoryAppend),
              s.deliveredMessage || (action == Message && outcome.Succeeded?)))
  }

  function RejectedEmitted(s: RunState, rid: string, action: ActionName, taskId: string, reason: Reason,
                           sig: string, e: Emit, lim: Limits): (Code, RunState)
  {
    (if e.append.Ok? then Ignored else Error,
     RunState(if e.append.Ok? then Retired(s.queue, rid, lim) else s.queue,
              Logged(s.log, Terminal(rid, Rejected, action, reason, EmptyObject, Null), e.append),
              s.deliveries,
              s.workProgress ||
                (e.append.Ok? && taskId != "" && action != Message
                 && (sig == "" || CompletedIndex(s.queue.sigs, sig) == |s.queue.sigs|)),
              s.deliveredMessage))
  }

  // ----- memoised repeats -----

  datatype Memo = NoMemo | Memo(outcome: Outcome, result: Json, error: Json)

  /** What is read back of a terminal: a value that does not fit its buffer reads as the default. */
  function Remembered(outcome: Outcome, result: Json, error: Json, lim: Limits): Memo {
    Memo(outcome,
         if Size(result) < lim.resultCap then result else EmptyObject,
         if Size(error) < lim.errorCap then error else Null)
  }

  /** The most recent success or failure logged for rid. */
  function LastOutcome(log: seq<Event>, rid: string, lim: Limits): Memo {
    if log == [] then NoMemo
    else
      var e := log[|log| - 1];
      if e.Terminal? && !e.outcome.Rejected? && e.rid == rid then
        Remembered(e.outcome, e.result, e.error, lim)
      else LastOutcome(log[..|log| - 1], rid, lim)
  }

  /** What note_request decides before it touches anything. */
  datatype Verdict = NoId | InFlight | IdDone | SigInFlight | SigDone(prior: string) | Full | Fresh

  function VerdictOn(q: Queue, r: Request, lim: Limits): Verdict {
    if r.rid == "" then NoId
    else if PendingIndex(q.pending, r.rid) < |q.pending| then InFlight
    else if r.rid in q.ids then IdDone
    else if SigIndex(q.pending, r.sig) < |q.pending| then SigInFlight
    else if CompletedIndex(q.sigs, r.sig) < |q.sigs| then SigDone(q.sigs[CompletedIndex(q.sigs, r.sig)].rid)
    else if |q.pending| >= lim.maxPending then Full
    else Fresh
  }

  function MemoOf(log: seq<Event>, prior: string, lim: Limits): Memo {
    if prior == "" then NoMemo else LastOutcome(log, prior, lim)
  }

  function Repeated(s: RunState, r: Request, prior: string, e: Emit, lim: Limits): (Code, RunState) {
    var m := MemoOf(s.log, prior, lim);
    if m.NoMemo? then
      RejectedEmitted(s, r.rid, r.action, r.taskId, DuplicateEquivalentCall, r.sig, e, lim)
    else
      var t := TerminalEmitted(s, m.outcome, r.rid, r.action, r.taskId, MemoizedDuplicate, m.result, m.error, e, lim);
      if t.0.Error? then t else (Memoized, t.1.(workProgress := s.workProgress))
  }

  function RequestNoted(s: RunState, r: Request, e: Emit, lim: Limits): (Code, RunState) {
    match VerdictOn(s.queue, r, lim)
    case NoId => (Ignored, s)
    case InFlight => (Ignored, s)
    case IdDone => RejectedEmitted(s, r.rid, r.action, r.taskId, DuplicateTerminalId, r.sig, e, lim)
    case SigInFlight => RejectedEmitted(s, r.rid, r.action, r.taskId, DuplicateEquivalentCall, r.sig, e, lim)
    case SigDone(prior) => Repeated(s, r, prior, e, lim)
    case Full => (Ignored, s.(log := Logged(s.log, OverflowError(r.rid), e.append)))
    case Fresh => (Queued, s.(queue := s.queue.(pending := s.queue.pending + [NewEntry(r)])))
  }

  function NewEntry(r: Request): Pending {
    Pending(r.rid, r.source, r.action, r.args, r.sig, r.taskId, r.workRev, r.trigger, false)
  }

  /** note_started: the in-memory flag. */
  function MarkedStarted(q: seq<Pending>, rid: string): seq<Pending> {
    var i := PendingIndex(q, rid);
    if i == |q| then q else q[i := q[i].(started := true)]
  }

  /** action_started is durable before anything is executed; only a reported append marks the entry. */
  function StartedEmitted(s: RunState, rid: string, append: Append): (Code, RunState) {
    (if append.Ok? then Ignored else Error,
     RunState(if append.Ok? then s.queue.(pending := MarkedStarted(s.queue.pending, rid)) else s.queue,
              Logged(s.log, ActionStarted(rid), append), s.deliveries, s.workProgress, s.deliveredMessage))
  }

  // ----- recovery -----

  datatype ActionDef = ActionDef(outsideWorld: bool, managed: bool)

  datatype BlockReply = Blocked | NotBlocked | BlockError

  /** What recovery reads: the registry, the delivery ledger, and whether bound work
      takes the ambiguity as its blocker. */
  datatype World = World(registry: map<ActionName, ActionDef>, ledgerReadable: bool,
                         delivered: set<string>, blocks: map<string, BlockReply>)

  datatype Fate = Untouched | Reset | AlreadyDelivered | Ambiguous

  function FateOf(p: Pending, w: World): Fate {
    if !p.started then Untouched
    else if p.action == Message then (if p.rid in w.delivered then AlreadyDelivered else Reset)
    else if p.action !in w.registry || w.registry[p.action].outsideWorld then Ambiguous
    else Reset
  }

  function BlockOf(p: Pending, w: World): BlockReply {
    if p.taskId != "" && p.workRev > 0 && p.trigger != "" && p.rid in w.blocks then w.blocks[p.rid] else NotBlocked
  }

  /** What recovery leaves of one entry. */
  function Kept(p: Pending, w: World): seq<Pending> {
    match FateOf(p, w)
    case Untouched => [p]
    case Reset => [p.(started := false)]
    case _ => []
  }

  /** The queue after recovery, as a filter-map of the queue before it. */
  function Recovered(q: seq<Pending>, w: World): seq<Pending> {
    if q == [] then [] else Kept(q[0], w) + Recovered(q[1..], w)
  }

  /** The durable terminal recovery gives a call it finishes. */
  function RecoveryEvent(p: Pending, w: World, message: Pending -> Json): Event
    requires Finishes(p, w)
  {
    if FateOf(p, w) == AlreadyDelivered then Terminal(p.rid, Succeeded, p.action, NoReason, message(p), Null)
    else if BlockOf(p, w).Blocked? then WorkEnded(p.rid)
    else Terminal(p.rid, Failed, p.action, AmbiguousCompletion, EmptyObject, AmbiguityNotice)
  }

  predicate Finishes(p: Pending, w: World) {
    FateOf(p, w) == AlreadyDelivered || FateOf(p, w) == Ambiguous
  }

  function RecoveryEvents(q: seq<Pending>, w: World, message: Pending -> Json): seq<Event> {
    if q == [] then []
    else (if Finishes(q[0], w) then [RecoveryEvent(q[0], w, message)] else []) + RecoveryEvents(q[1..], w, message)
  }

  /** Giving one call its recovery terminal. */
  function RecoveryFinished(s: RunState, p: Pending, w: World, message: Pending -> Json,
                            append: Append, lim: Limits): (Code, RunState)
    requires Finishes(p, w)
  {
    var e := Emit(append, true, true);
    if FateOf(p, w) == AlreadyDelivered then
      TerminalEmitted(s, Succeeded, p.rid, p.action, p.taskId, MemoizedDuplicate, message(p), Null, e, lim)
    else if BlockOf(p, w).Blocked? then
      (if append.Ok? then Ignored else Error,
       s.(log := Logged(s.log, WorkEnded(p.rid), append),
          queue := if append.Ok? then Retired(s.queue, p.rid, lim) else s.queue))
    else
      TerminalEmitted(s, Failed, p.rid, p.action, p.taskId, AmbiguousCompletion, EmptyObject, AmbiguityNotice, e, lim)
  }

  /** Recovery stops here: the ledger cannot be read, or the blocker cannot be written. */
  predicate Stuck(p: Pending, w: World) {
    || (p.started && p.action == Message && !w.ledgerReadable)
    || (FateOf(p, w) == Ambiguous && BlockOf(p, w).BlockError?)
  }

  // ----- invariant -----

  ghost predicate Distinct(q: seq<Pending>) {
    forall i, j :: 0 <= i < j < |q| ==> q[i].rid != q[j].rid && q[i].sig != q[j].sig
  }

  /** Pending ids and signatures are distinct and in neither completed table. */
  ghost predicate RunnerInv(q: Queue) {
    && Distinct(q.pending)
    && (forall i :: 0 <= i < |q.pending| ==> q.pending[i].rid != "" && q.pending[i].sig != "")
    && (forall i :: 0 <= i < |q.pending| ==> q.pending[i].rid !in q.ids)
    && SigsApart(q.pending, q.sigs)
    && (forall i, j :: 0 <= i < j < |q.sigs| ==> q.sigs[i].sig != q.sigs[j].sig)
  }

  ghost predicate SigsApart(q: seq<Pending>, sigs: seq<SigEntry>) {
    forall i, k :: 0 <= i < |q| && 0 <= k < |sigs| ==> q[i].sig != sigs[k].sig
  }

  // ----- the run record -----

  class Run {
    var queue: Queue
    var log: seq<Event>
    var deliveries: seq<string>
    var workProgress: bool
    var deliveredMessage: bool
    const lim: Limits

    constructor (lim: Limits)
      ensures View() == RunState(Queue([], [], []), [], [], false, false) && this.lim == lim
    {
      this.lim := lim;
      queue, log, deliveries := Queue([], [], []), [], [];
      workProgress, deliveredMessage := false, false;
    }

    function View(): RunState
      reads this
    {
      RunState(queue, log, deliveries, workProgress, deliveredMessage)
    }

    method FindPending(rid: string) returns (i: nat)
      ensures i == PendingIndex(queue.pending, rid)
    {
      i := 0;
      while i < |queue.pending|
        invariant 0 <= i <= |queue.pending|
        invariant PendingIndex(queue.pending, rid) == i + PendingIndex(queue.pending[i..], rid)
      {
        if queue.pending[i].rid == rid { return; }
        assert queue.pending[i..][1..] == queue.pending[i + 1..];
        i := i + 1;
      }
    }

    method FindPendingSig(sig: string) returns (i: nat)
      ensures i == SigIndex(queue.pending, sig)
    {
      i := 0;
      while i < |queue.pending| && queue.pending[i].sig != sig
        invariant 0 <= i <= |queue.pending|
        invariant SigIndex(queue.pending, sig) == i + SigIndex(queue.pending[i..], sig)
      {
        assert queue.pending[i..][1..] == queue.pending[i + 1..];
        i := i + 1;
      }
    }

    method FindCompleted(sig: string) returns (k: nat)
      ensures k == CompletedIndex(queue.sigs, sig)
    {
      k := 0;
      while k < |queue.sigs| && queue.sigs[k].sig != sig
        invariant 0 <= k <= |queue.sigs|
        invariant CompletedIndex(queue.sigs, sig) == k + CompletedIndex(queue.sigs[k..], sig)
      {
        assert queue.sigs[k..][1..] == queue.sigs[k + 1..];
        k := k + 1;
      }
    }

    method NoteTerminal(rid: string)
      modifies this`queue
      ensures queue == Retired(old(queue), rid, lim)
    {
      var i := FindPending(rid);
      var ids, sigs, pending := queue.ids, queue.sigs, queue.pending;
      if rid != "" && rid !in ids && |ids| < lim.maxCompleted { ids := ids + [rid]; }
      if i < |pending| {
        var sig := pending[i].sig;
        var k := FindCompleted(sig);
        if sig != "" && k == |sigs| && |sigs| < lim.maxCompleted {
          sigs := sigs + [SigEntry(sig, rid)];
        }
        pending := pending[..i] + pending[i + 1..];
      }
      queue := Queue(pending, ids, sigs);
    }

    method NoteStarted(rid: string)
      modifies this`queue
      ensures queue == old(queue).(pending := MarkedStarted(old(queue.pending), rid))
    {
      var i := FindPending(rid);
      if i < |queue.pending| {
        queue := queue.(pending := queue.pending[i := queue.pending[i].(started := true)]);
      }
    }

    method EmitStarted(rid: string, append: Append) returns (code: Code)
      modifies this
      ensures (code, View()) == StartedEmitted(old(View()), rid, append)
    {
      log := Logged(log, ActionStarted(rid), append);
      if !append.Ok? { return Error; }
      NoteStarted(rid);
      code := Ignored;
    }

    /** Scans the log forward; the last success or failure for the id wins. */
    method ReadOutcome(prior: string) returns (m: Memo)
      ensures m == MemoOf(log, prior, lim)
    {
      m := NoMemo;
      if prior == "" { return; }
      var k := 0;
      while k < |log|
        invariant 0 <= k <= |log|
        invariant m == LastOutcome(log[..k], prior, lim)
      {
        var e := log[k];
        assert log[..k + 1][..k] == log[..k];
        if e.Terminal? && !e.outcome.Rejected? && e.rid == prior {
          m := Remembered(e.outcome, e.result, e.error, lim);
        }
        k := k + 1;
      }
      assert log[..|log|] == log;
    }

    /** Appends a terminal; only a reported success counts as progress and retires the entry. */
    method Commit(e: Event, append: Append, progress: bool) returns (code: Code)
      modifies this`log, this`workProgress, this`queue
      ensures code == if append.Ok? then Ignored else Error
      ensures log == Logged(old(log), e, append)
      ensures workProgress == (old(workProgress) || (append.Ok? && progress))
      ensures queue == if append.Ok? then Retired(old(queue), e.rid, lim) else old(queue)
    {
      if !append.Lost? { log := log + [e]; }
      if !append.Ok? { return Error; }
      if progress { workProgress := true; }
      NoteTerminal(e.rid);
      code := Ignored;
    }

    method HandOver(rid: string, sent: bool, deliver: bool)
      modifies this`deliveredMessage, this`deliveries
      ensures deliveredMessage == (old(deliveredMessage) || sent)
      ensures deliveries == if deliver then old(deliveries) + [rid] else old(deliveries)
    {
      if sent { deliveredMessage := true; }
      if deliver { deliveries := deliveries + [rid]; }
    }

    method EmitTerminal(outcome: Outcome, rid: string, action: ActionName, taskId: string,
                        reason: Reason, result: Json, error: Json, e: Emit) returns (code: Code)
      modifies this
      ensures var t := TerminalEmitted(old(View()), outcome, rid, action, taskId, reason, result, error, e, lim);
              code == t.0 && View() == t.1
    {
      hide Retired;
      var sent, deliver := action == Message && outcome.Succeeded?, Delivers(outcome, action, reason, e);
      var progress := taskId != "" && action != Message && action != WorkingMemoryAppend;
      var event := TerminalEvent(outcome, rid, action, reason, result, error);
      ghost var t := TerminalEmitted(View(), outcome, rid, action, taskId, reason, result, error, e, lim);
      assert t == (if e.append.Ok? then Ignored else Error,
                   RunState(if e.append.Ok? then Retired(queue, rid, lim) else queue,
                            Logged(log, event, e.append), if deliver then deliveries + [rid] else deliveries,
                            workProgress || (e.append.Ok? && progress), deliveredMessage || sent));
      hide TerminalEmitted, Delivers, TerminalEvent;
      HandOver(rid, sent, deliver);
      code := Commit(event, e.append, progress);
    }

    method EmitRejected(rid: string, action: ActionName, taskId: string, reason: Reason,
                        sig: string, e: Emit) returns (code: Code)
      modifies this
      ensures (code, View()) == RejectedEmitted(old(View()), rid, action, taskId, reason, sig, e, lim)
    {
      hide Retired;
      code := Commit(Terminal(rid, Rejected, action, reason, EmptyObject, Null), e.append,
                     taskId != "" && action != Message && (sig == "" || CompletedIndex(queue.sigs, sig) == |queue.sigs|));
    }

    method NoteRequest(r: Request, e: Emit) returns (code: Code)
      modifies this
      ensures (code, View()) == RequestNoted(old(View()), r, e, lim)
    {
      hide RejectedEmitted, TerminalEmitted, LastOutcome;
      if r.rid == "" { return Ignored; }
      var i := FindPending(r.rid);
      if i < |queue.pending| { return Ignored; }
      if r.rid in queue.ids {
        code := EmitRejected(r.rid, r.action, r.taskId, DuplicateTerminalId, r.sig, e);
        return;
      }
      var j := FindPendingSig(r.sig);
      if j < |queue.pending| {
        code := EmitRejected(r.rid, r.action, r.taskId, DuplicateEquivalentCall, r.sig, e);
        return;
      }
      var k := FindCompleted(r.sig);
      if k < |queue.sigs| {
        code := Repeat(r, queue.sigs[k].rid, e);
      } else if |queue.pending| >= lim.maxPending {
        log := Logged(log, OverflowError(r.rid), e.append);
        code := Ignored;
      } else {
        queue := queue.(pending := queue.pending + [NewEntry(r)]);
        code := Queued;
      }
    }

    /** Answers an equivalent call from the log, without counting it as progress. */
    method Repeat(r: Request, prior: string, e: Emit) returns (code: Code)
      modifies this
      ensures (code, View()) == Repeated(old(View()), r, prior, e, lim)
    {
      hide RejectedEmitted, LastOutcome;
      var m := ReadOutcome(prior);
      if m.NoMemo? {
        code := EmitRejected(r.rid, r.action, r.taskId, DuplicateEquivalentCall, r.sig, e);
        return;
      }
      var before := workProgress;
      code := EmitTerminal(m.outcome, r.rid, r.action, r.taskId, MemoizedDuplicate, m.result, m.error, e);
      if code == Error { return; }
      workProgress := before;
      code := Memoized;
    }

    method FinishRecovered(p: Pending, w: World, message: Pending -> Json, append: Append) returns (code: Code)
      requires Finishes(p, w)
      modifies this
      ensures (code, View()) == RecoveryFinished(old(View()), p, w, message, append, lim)
    {
      var e := Emit(append, true, true);
      if FateOf(p, w) == AlreadyDelivered {
        code := EmitTerminal(Succeeded, p.rid, p.action, p.taskId, MemoizedDuplicate, message(p), Null, e);
      } else if BlockOf(p, w).Blocked? {
        code := Commit(WorkEnded(p.rid), append, false);
      } else {
        code := EmitTerminal(Failed, p.rid, p.action, p.taskId, AmbiguousCompletion, EmptyObject, AmbiguityNotice, e);
      }
    }

    /** A recovery terminal whose append reports an error: nothing but perhaps its line. */
    method FailRecovered(p: Pending, w: World, message: Pending -> Json, failing: Append)
      requires Finishes(p, w) && !failing.Ok?
      modifies this
      ensures queue == old(queue) && deliveries == old(deliveries)
      ensures log == Logged(old(log), RecoveryEvent(p, w, message), failing)
    {
      FailingFinish(View(), p, w, message, failing, lim);
      hide RecoveryFinished, RecoveryEvent;
      var _ := FinishRecovered(p, w, message, failing);
    }

    /** One turn of the recovery loop at cursor i, the append succeeding: the entry is
        left, reset in place, or finished and thereby removed under the cursor. */
    method RecoverEntry(i: nat, w: World, message: Pending -> Json) returns (next: nat)
      requires RunnerInv(queue) && i < |queue.pending|
      modifies this
      ensures RunnerInv(queue) && deliveries == old(deliveries)
      ensures queue.pending == old(queue.pending)[..i] + Kept(old(queue.pending)[i], w) + old(queue.pending)[i + 1..]
      ensures next == i + |Kept(old(queue.pending)[i], w)|
      ensures log == old(log) + (if Finishes(old(queue.pending)[i], w)
                                 then [RecoveryEvent(old(queue.pending)[i], w, message)] else [])
    {
      var p := queue.pending[i];
      if Finishes(p, w) {
        FinishedEntryGone(View(), i, w, message, lim);
        hide RunnerInv, RecoveryFinished, RecoveryEvent;
        var _ := FinishRecovered(p, w, message, Ok);
        next := i;
      } else {
        if p.started {
          ResetKeepsInv(queue, i);
          hide RunnerInv;
          queue := queue.(pending := queue.pending[i := p.(started := false)]);
        }
        next := i + 1;
      }
    }

    /** Walks the queue once. `budget` is the number of appends that succeed before one fails,
        and `failing` how that one fails: without a line, or with a complete line and an error. */
    method RecoverStarted(w: World, message: Pending -> Json, budget: nat, failing: Append) returns (ok: bool)
      requires RunnerInv(queue) && !failing.Ok?
      modifies this
      ensures RunnerInv(queue) && deliveries == old(deliveries)
      ensures ok <==> (forall k :: 0 <= k < |old(queue.pending)| ==> !Stuck(old(queue.pending)[k], w))
                      && |RecoveryEvents(old(queue.pending), w, message)| <= budget
      ensures ok ==> queue.pending == Recovered(old(queue.pending), w)
                     && log == old(log) + RecoveryEvents(old(queue.pending), w, message)
      ensures !ok ==> exists j: nat :: RecoveredUpTo(old(queue.pending), j, queue.pending, w)
                                       && Stopped(old(queue.pending), j, old(log), log, w, message, budget, failing)
    {
      hide RunnerInv, RecoveryEvent, Kept, Finishes, Stuck, FateOf, BlockOf, RecoveryFinished, Stopped, Reaches;
      ghost var q := queue.pending;
      ghost var j: nat := 0;
      var i, left := 0, budget;
      RecoveryBegins(q, w, message, budget);
      hide Recovered, RecoveryEvents, RecoveredUpTo;
      while i < |queue.pending|
        invariant RunnerInv(queue) && deliveries == old(deliveries) && j <= |q|
        invariant RecoveredUpTo(q, j, queue.pending, w) && i == |Recovered(q[..j], w)|
        invariant log == old(log) + RecoveryEvents(q[..j], w, message)
        invariant Reaches(q, j, w, message, budget) && left == budget - |RecoveryEvents(q[..j], w, message)|
        decreases |q| - j
      {
        var p := queue.pending[i];
        RecoveryAdvances(q, j, queue.pending, w, message);
        if Stuck(p, w) {
          StopsStuck(q, j, old(log), w, message, budget, failing);
          return false;
        }
        if Finishes(p, w) && left == 0 {
          FailRecovered(p, w, message, failing);
          StopsAtAppend(q, j, old(log), w, message, budget, failing);
          return false;
        }
        ReachesNext(q, j, w, message, budget);
        if Finishes(p, w) { left := left - 1; }
        i := RecoverEntry(i, w, message);
        j := j + 1;
      }
      RecoveryEnds(q, j, queue.pending, w, message, budget);
      ok := true;
    }
  }

  /** Recovery gets past the first j entries: none of them is stuck and there are enough appends. */
  ghost predicate Reaches(q: seq<Pending>, j: nat, w: World, message: Pending -> Json, budget: nat) {
    && j <= |q| && (forall k :: 0 <= k < j ==> !Stuck(q[k], w))
    && |RecoveryEvents(q[..j], w, message)| <= budget
  }

  /** Recovery stops at entry j, the first it cannot get past. Either that entry is stuck, and the
      log has the terminals of the entries before it; or the entry's own terminal is the append
      that fails, and the log has its line too exactly if the failing append completed it. */
  ghost predicate Stopped(q: seq<Pending>, j: nat, before: seq<Event>, after: seq<Event>, w: World,
                          message: Pending -> Json, budget: nat, failing: Append) {
    && j < |q| && Reaches(q, j, w, message, budget)
    && var done := before + RecoveryEvents(q[..j], w, message);
       if Stuck(q[j], w) then after == done
       else && Finishes(q[j], w) && |RecoveryEvents(q[..j], w, message)| == budget
            && after == Logged(done, RecoveryEvent(q[j], w, message), failing)
  }

  lemma RecoveryBegins(q: seq<Pending>, w: World, message: Pending -> Json, budget: nat)
    ensures RecoveredUpTo(q, 0, q, w) && Recovered(q[..0], w) == [] && RecoveryEvents(q[..0], w, message) == []
    ensures Reaches(q, 0, w, message, budget)
  {
    assert [] + q[0..] == q;
  }

  lemma ReachesNext(q: seq<Pending>, j: nat, w: World, message: Pending -> Json, budget: nat)
    requires j < |q| && Reaches(q, j, w, message, budget) && !Stuck(q[j], w)
    requires Finishes(q[j], w) ==> |RecoveryEvents(q[..j], w, message)| < budget
    ensures Reaches(q, j + 1, w, message, budget)
  {
    RecoverySnoc(q, j, w, message);
    hide Stuck, Finishes, RecoveryEvents, RecoveryEvent;
  }

  lemma RecoveryEnds(q: seq<Pending>, j: nat, now: seq<Pending>, w: World, message: Pending -> Json, budget: nat)
    requires RecoveredUpTo(q, j, now, w) && |Recovered(q[..j], w)| >= |now| && Reaches(q, j, w, message, budget)
    ensures j == |q| && q[..j] == q && now == Recovered(q, w)
    ensures (forall k :: 0 <= k < |q| ==> !Stuck(q[k], w)) && |RecoveryEvents(q, w, message)| <= budget
  {
    hide Stuck, Recovered, RecoveryEvents;
    assert q[..|q|] == q;
  }

  /** Where recovery stops, it has not succeeded. */
  lemma StopsStuck(q: seq<Pending>, j: nat, before: seq<Event>, w: World, message: Pending -> Json,
                   budget: nat, failing: Append)
    requires j < |q| && Reaches(q, j, w, message, budget) && Stuck(q[j], w)
    ensures Stopped(q, j, before, before + RecoveryEvents(q[..j], w, message), w, message, budget, failing)
    ensures exists k :: 0 <= k < |q| && Stuck(q[k], w)
  {
  }

  lemma StopsAtAppend(q: seq<Pending>, j: nat, before: seq<Event>, w: World, message: Pending -> Json,
                      budget: nat, failing: Append)
    requires j < |q| && Reaches(q, j, w, message, budget) && !Stuck(q[j], w) && Finishes(q[j], w)
    requires |RecoveryEvents(q[..j], w, message)| == budget
    ensures Stopped(q, j, before,
                    Logged(before + RecoveryEvents(q[..j], w, message), RecoveryEvent(q[j], w, message), failing),
                    w, message, budget, failing)
    ensures |RecoveryEvents(q, w, message)| > budget
  {
    RecoverySnoc(q, j, w, message);
    RecoveredConcat(q[..j + 1], q[j + 1..], w, message);
    assert q == q[..j + 1] + q[j + 1..];
    hide Stuck, Finishes, RecoveryEvents, RecoveryEvent;
  }

  /** A recovery terminal whose append reports an error leaves the queue alone. */
  lemma FailingFinish(s: RunState, p: Pending, w: World, message: Pending -> Json, failing: Append, lim: Limits)
    requires Finishes(p, w) && !failing.Ok?
    ensures var t := RecoveryFinished(s, p, w, message, failing, lim);
            && t.0.Error? && t.1.queue == s.queue && t.1.deliveries == s.deliveries
            && t.1.log == Logged(s.log, RecoveryEvent(p, w, message), failing)
  {
  }

  /** The first j entries have been dealt with, the others not yet looked at. */
  ghost predicate RecoveredUpTo(q: seq<Pending>, j: nat, now: seq<Pending>, w: World) {
    j <= |q| && now == Recovered(q[..j], w) + q[j..]
  }

  lemma {:induction false} RecoveredConcat(a: seq<Pending>, b: seq<Pending>, w: World, message: Pending -> Json)
    ensures Recovered(a + b, w) == Recovered(a, w) + Recovered(b, w)
    ensures RecoveryEvents(a + b, w, message) == RecoveryEvents(a, w, message) + RecoveryEvents(b, w, message)
  {
    if a == [] {
      assert a + b == b;
    } else {
      assert (a + b)[1..] == a[1..] + b;
      RecoveredConcat(a[1..], b, w, message);
    }
  }

  lemma RecoverySnoc(q: seq<Pending>, j: nat, w: World, message: Pending -> Json)
    requires j < |q|
    ensures Recovered(q[..j + 1], w) == Recovered(q[..j], w) + Kept(q[j], w)
    ensures RecoveryEvents(q[..j + 1], w, message) == RecoveryEvents(q[..j], w, message)
            + (if Finishes(q[j], w) then [RecoveryEvent(q[j], w, message)] else [])
  {
    hide FateOf, RecoveryEvent, Kept, Finishes;
    assert q[..j + 1] == q[..j] + [q[j]];
    RecoveredConcat(q[..j], [q[j]], w, message);
    assert [q[j]][1..] == [] && Recovered([], w) == [] && RecoveryEvents([], w, message) == [];
  }

  /** One more entry dealt with: the entry at the cursor is replaced by what is kept of it. */
  lemma RecoveryAdvances(q: seq<Pending>, j: nat, now: seq<Pending>, w: World, message: Pending -> Json)
    requires RecoveredUpTo(q, j, now, w) && |Recovered(q[..j], w)| < |now|
    ensures j < |q|
    ensures var i := |Recovered(q[..j], w)|;
            && now[i] == q[j]
            && RecoveredUpTo(q, j + 1, now[..i] + Kept(q[j], w) + now[i + 1..], w)
            && |Recovered(q[..j + 1], w)| == i + |Kept(q[j], w)|
            && RecoveryEvents(q[..j + 1], w, message) == RecoveryEvents(q[..j], w, message)
               + (if Finishes(q[j], w) then [RecoveryEvent(q[j], w, message)] else [])
  {
    RecoverySnoc(q, j, w, message);
    hide Recovered, RecoveryEvents, FateOf, RecoveryEvent, Kept, Finishes;
    var a := Recovered(q[..j], w);
    assert q[j..] == [q[j]] + q[j + 1..];
    assert now[|a| + 1..] == q[j + 1..];
  }

  /** Request ids are distinct, so a lookup by id finds the entry itself. */
  lemma FindsItself(q: seq<Pending>, i: nat)
    requires Distinct(q) && i < |q|
    ensures PendingIndex(q, q[i].rid) == i
  {
  }

  /** The recovery terminal retires exactly the entry it is for, and never delivers. */
  lemma FinishedEntryGone(s: RunState, i: nat, w: World, message: Pending -> Json, lim: Limits)
    requires RunnerInv(s.queue) && i < |s.queue.pending| && Finishes(s.queue.pending[i], w)
    ensures var t := RecoveryFinished(s, s.queue.pending[i], w, message, Ok, lim).1;
            && RunnerInv(t.queue) && t.queue.pending == Removed(s.queue.pending, i) && t.deliveries == s.deliveries
            && t.log == s.log + [RecoveryEvent(s.queue.pending[i], w, message)]
  {
    FindsItself(s.queue.pending, i);
    RetiredKeepsInv(s.queue, s.queue.pending[i].rid, lim);
  }

  lemma ResetKeepsInv(q: Queue, i: nat)
    requires RunnerInv(q) && i < |q.pending|
    ensures forall b :: RunnerInv(q.(pending := q.pending[i := q.pending[i].(started := b)]))
  {
  }

  /** Retiring an entry keeps ids and signatures apart from the tables. */
  lemma RetiredKeepsInv(q: Queue, rid: string, lim: Limits)
    requires RunnerInv(q)
    ensures RunnerInv(Retired(q, rid, lim))
  {
    var i := PendingIndex(q.pending, rid);
    if i < |q.pending| {
      RemovedMembers(q.pending, i);
    }
  }

  lemma RemovedMembers(q: seq<Pending>, i: nat)
    requires Distinct(q) && i < |q|
    ensures Distinct(Removed(q, i))
    ensures forall k :: 0 <= k < |q| - 1 ==> Removed(q, i)[k] == q[if k < i then k else k + 1]
    ensures forall k :: 0 <= k < |q| - 1 ==> Removed(q, i)[k].rid != q[i].rid && Removed(q, i)[k].sig != q[i].sig
  {
  }

  // ----- what recovery leaves -----

  lemma RecoveredUnfold(q: seq<Pending>, w: World)
    requires q != []
    ensures Recovered(q, w) ==
            (if Finishes(q[0], w) then [] else [q[0].(started := false)]) + Recovered(q[1..], w)
  {
    if !Finishes(q[0], w) { assert Kept(q[0], w) == [q[0].(started := false)]; }
  }

  /** Where the i-th survivor stood: it is the old entry with the flag cleared, and it was
      not terminalised. */
  function Origin(q: seq<Pending>, w: World, i: nat): (k: nat)
    requires i < |Recovered(q, w)|
    ensures k < |q| && !Finishes(q[k], w) && Recovered(q, w)[i] == q[k].(started := false)
    decreases |q|
  {
    RecoveredUnfold(q, w);
    if Finishes(q[0], w) then 1 + Origin(q[1..], w, i)
    else if i == 0 then 0
    else 1 + Origin(q[1..], w, i - 1)
  }

  /** Where an entry that is not terminalised ends up. */
  function Place(q: seq<Pending>, w: World, k: nat): (i: nat)
    requires k < |q| && !Finishes(q[k], w)
    ensures i < |Recovered(q, w)|
  {
    RecoveredUnfold(q, w);
    if k == 0 then 0 else (if Finishes(q[0], w) then 0 else 1) + Place(q[1..], w, k - 1)
  }

  /** Survivors keep their order, and an entry is gone only if it was terminalised. */
  lemma {:induction false} SurvivorsInOrder(q: seq<Pending>, w: World, i: nat, j: nat)
    requires i < j < |Recovered(q, w)|
    ensures Origin(q, w, i) < Origin(q, w, j)
  {
    hide FateOf, Kept, Finishes;
    RecoveredUnfold(q, w);
    hide Recovered;
    if Finishes(q[0], w) {
      SurvivorsInOrder(q[1..], w, i, j);
    } else if i > 0 {
      SurvivorsInOrder(q[1..], w, i - 1, j - 1);
    }
  }

  lemma {:induction false} EverySurvivorPlaced(q: seq<Pending>, w: World, k: nat)
    requires k < |q| && !Finishes(q[k], w)
    ensures Origin(q, w, Place(q, w, k)) == k
  {
    hide FateOf, Kept, Finishes;
    RecoveredUnfold(q, w);
    hide Recovered;
    if k > 0 { EverySurvivorPlaced(q[1..], w, k - 1); }
  }
}
