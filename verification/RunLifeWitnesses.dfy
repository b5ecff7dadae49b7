/** Lives of a run, from its start, that reach what a stronger law would forbid: a repeated call
    whose answer is logged again at the restart, a message that is written to the delivery
    ledger twice because another run garbled its first record, and a signature that is launched
    twice because the table of completed signatures was full. */
module RunLifeWitnesses {
  import opened ActionRunner
  import opened TornFile
  import opened RunLife
  import opened RunLifeInvariant
  import opened RunLifeLaws
  import opened SignatureLaws

  /** One more action at the end of a life. */
  lemma Extended(states: seq<Life>, actions: seq<Action>, a: Action, c: Setup)
    returns (more: seq<Life>, taken: seq<Action>)
    requires IsLife(states, actions, c)
    ensures IsLife(more, taken, c) && |more| == |taken| + 1 && more[|taken|] == After(states[|actions|], a, c)
    ensures taken == actions + [a] && more[..|states|] == states
    ensures forall i :: 0 <= i < |states| ==> more[i] == states[i]
  {
    hide After;
    more, taken := states + [After(states[|actions|], a, c)], actions + [a];
  }

  function Entry(r: Request, started: bool): Pending { NewEntry(r).(started := started) }

  /** A state of a run with one queue, one log and one ledger to speak of. */
  function At(queue: Queue, log: seq<Event>, sent: seq<string>, flag: bool, mode: Mode,
              launches: seq<string>, ledger: Ledger): Life {
    Life(RunState(queue, log, sent, false, flag), mode, launches, ledger)
  }

  function OneCall(r: Request, started: bool): Queue { Queue([Entry(r, started)], [], []) }

  function Ended(r: Request): Queue { Queue([], [r.rid], [SigEntry(r.sig, r.rid)]) }

  /** The first request of a run is queued. */
  lemma FirstIsQueued(run: RunState, r: Request, lim: Limits)
    requires run.queue == NoTables && r.rid != "" && lim.maxPending >= 1
    ensures RequestNoted(run, r, Fine, lim) == (Queued, run.(queue := OneCall(r, false)))
  {
    assert VerdictOn(NoTables, r, lim) == Fresh;
    assert [] + [NewEntry(r)] == [Entry(r, false)];
  }

  lemma OnlyIsRetired(r: Request, started: bool, lim: Limits)
    requires r.rid != "" && r.sig != "" && lim.maxCompleted >= 1
    ensures PendingIndex(OneCall(r, started).pending, r.rid) == 0
    ensures Retired(OneCall(r, started), r.rid, lim) == Ended(r)
  {
    assert Removed([Entry(r, started)], 0) == [];
    assert [] + [r.rid] == [r.rid] && [] + [SigEntry(r.sig, r.rid)] == [SigEntry(r.sig, r.rid)];
  }

  lemma OnlyIsMarked(r: Request)
    ensures MarkedStarted(OneCall(r, false).pending, r.rid) == OneCall(r, true).pending
  {
    var p := Entry(r, false);
    assert PendingIndex([p], r.rid) == 0 && [p][0 := p.(started := true)] == [Entry(r, true)];
  }

  lemma AskFirst(r: Request, c: Setup)
    requires r.rid != "" && r.sig != "" && c.lim.maxPending >= 1
    ensures After(Init, Ask(r, Ok, Fine), c) == At(OneCall(r, false), [Requested(r.rid, r)], [], false, Up, [], NoLedger)
  {
    var req := Requested(r.rid, r);
    assert [] + [req] == [req];
    FirstIsQueued(Logging(Init.run, req, Ok), r, c.lim);
    hide RequestNoted;
  }

  // ----- an answer logged twice -----

  function Failure(r: Request): Event { Terminal(r.rid, Failed, r.action, NoReason, EmptyObject, Null) }

  function Answer(r: Request): Event { Terminal(r.rid, Failed, r.action, MemoizedDuplicate, EmptyObject, Null) }

  ghost predicate Equivalent(r: Request, r': Request) {
    r.rid != "" && r'.rid != "" && r.rid != r'.rid && r.sig == r'.sig != "" && r.taskId == r'.taskId == ""
  }

  const NoLedger: Ledger := File([], Clean)

  /** The first call fails. */
  lemma FirstFails(r: Request, c: Setup)
    requires r.rid != "" && r.sig != "" && r.taskId == "" && c.lim.maxCompleted >= 1
    ensures After(At(OneCall(r, false), [Requested(r.rid, r)], [], false, Up, [], NoLedger),
                  Finish(r.rid, Failed, NoReason, EmptyObject, Null, Fine, Nothing), c) ==
            At(Ended(r), FirstLog(r), [], false, Up, [], NoLedger)
  {
    OnlyIsRetired(r, false, c.lim);
    assert [Requested(r.rid, r)] + [Failure(r)] == FirstLog(r);
    hide Retired, PendingIndex;
  }

  /** The log a repeat of it finds, and the tables. */
  function FirstLog(r: Request): seq<Event> { [Requested(r.rid, r), Failure(r)] }

  lemma OutcomeIsFirst(r: Request, r': Request, lim: Limits)
    requires r.rid != r'.rid
    ensures LastOutcome(FirstLog(r) + [Requested(r'.rid, r')], r.rid, lim) == Memo(Failed, EmptyObject, Null)
  {
    var log := FirstLog(r) + [Requested(r'.rid, r')];
    assert log[..2] == FirstLog(r) && log[2] == Requested(r'.rid, r');
    assert FirstLog(r)[1] == Failure(r);
  }

  lemma RepeatLogged(run: RunState, r: Request, r': Request, lim: Limits)
    requires Equivalent(r, r') && lim.maxCompleted >= 2
    requires run.queue == Ended(r)
    requires LastOutcome(run.log, r.rid, lim) == Memo(Failed, EmptyObject, Null)
    ensures RequestNoted(run, r', Fine, lim) ==
            (Memoized, RunState(Queue([], [r.rid, r'.rid], [SigEntry(r.sig, r.rid)]), run.log + [Answer(r')],
                                run.deliveries, run.workProgress, run.deliveredMessage))
  {
    hide LastOutcome;
    assert CompletedIndex(run.queue.sigs, r'.sig) == 0;
    assert VerdictOn(run.queue, r', lim) == SigDone(r.rid);
    assert PendingIndex([], r'.rid) == 0 && [r.rid] + [r'.rid] == [r.rid, r'.rid];
  }

  /** A request is answered, the process crashes, and replaying the request line answers it
      again: one request, two terminal lines. */
  lemma RestartAnswersTwice(r: Request, r': Request, c: Setup) returns (states: seq<Life>, actions: seq<Action>)
    requires Equivalent(r, r') && c.lim.maxPending >= 1 && c.lim.maxCompleted >= 2
    ensures IsLife(states, actions, c) && |states| == |actions| + 1
    ensures var log := states[|actions|].run.log;
            |log| == 5 && log[3] == log[4] == Answer(r')
  {
    hide After, IsLife;
    states, actions := Start(c);
    AskFirst(r, c);
    FirstFails(r, c);
    states, actions := Extended(states, actions, Ask(r, Ok, Fine), c);
    states, actions := Extended(states, actions, Finish(r.rid, Failed, NoReason, EmptyObject, Null, Fine, Nothing), c);
    AskRepeat(states[|actions|], r, r', c);
    states, actions := Extended(states, actions, Ask(r', Ok, Fine), c);
    Rebooted(states[|actions|], c);
    states, actions := Extended(states, actions, Crash, c);
    states, actions := Extended(states, actions, Boot, c);
    var log := AnsweredLog(r, r');
    AnsweredShape(r, r');
    ReplayedOutcome(r, r', c.lim);
    hide AnsweredLog;
    ReplayFirst(log, r, c);
    states, actions := Extended(states, actions, Replay(Fine), c);
    ReplaySecond(log, r, c);
    states, actions := Extended(states, actions, Replay(Fine), c);
    ReplayThird(log, r, r', c);
    states, actions := Extended(states, actions, Replay(Fine), c);
  }

  lemma Start(c: Setup) returns (states: seq<Life>, actions: seq<Action>)
    ensures IsLife(states, actions, c) && actions == [] && states == [Init]
  {
    states, actions := [Init], [];
  }

  function AnsweredLog(r: Request, r': Request): seq<Event> {
    FirstLog(r) + [Requested(r'.rid, r')] + [Answer(r')]
  }

  lemma AskRepeat(s: Life, r: Request, r': Request, c: Setup)
    requires Equivalent(r, r') && c.lim.maxCompleted >= 2
    requires s == At(Ended(r), FirstLog(r), [], false, Up, [], NoLedger)
    ensures After(s, Ask(r', Ok, Fine), c).run.log == AnsweredLog(r, r')
    ensures After(s, Ask(r', Ok, Fine), c) ==
            At(Queue([], [r.rid, r'.rid], [SigEntry(r.sig, r.rid)]), AnsweredLog(r, r'), [], false, Up, [], NoLedger)
  {
    OutcomeIsFirst(r, r', c.lim);
    hide LastOutcome;
    assert NewId(s.run.log, r'.rid);
    var one := Logging(s.run, Requested(r'.rid, r'), Ok);
    RepeatLogged(one, r, r', c.lim);
    hide RequestNoted;
  }

  lemma Rebooted(s: Life, c: Setup)
    requires s.mode.Up? || s.mode.Halted?
    ensures var t := After(s, Crash, c);
            && t == Life(RunState(NoTables, s.run.log, s.run.deliveries, false, false), Down, s.launches, s.ledger)
            && After(t, Boot, c) == t.(mode := Replaying(0, |s.run.log|))
  {
  }

  /** One replayed line. */
  lemma ReplaySteps(s: Life, run: RunState, c: Setup)
    requires s.mode.Replaying? && s.mode.k < s.mode.n && s.mode.k < |s.run.log|
    requires var t := ReplayLine(s.run, s.run.log[s.mode.k], Fine, c.lim); !t.0.Error? && t.1 == run
    ensures After(s, Replay(Fine), c) == s.(run := run, mode := Replaying(s.mode.k + 1, s.mode.n))
  {
    hide ReplayLine;
  }

  lemma ReplayFailure(run: RunState, r: Request, lim: Limits)
    requires run.queue == OneCall(r, false) && r.rid != "" && r.sig != "" && lim.maxCompleted >= 1
    ensures ReplayLine(run, Failure(r), Fine, lim) == (Ignored, run.(queue := Ended(r)))
  {
    OnlyIsRetired(r, false, lim);
    hide Retired;
  }

  /** A restart that has replayed k of four lines. */
  function Restarting(queue: Queue, log: seq<Event>, k: nat): Life {
    At(queue, log, [], false, Replaying(k, 4), [], NoLedger)
  }

  lemma ReplayFirst(log: seq<Event>, r: Request, c: Setup)
    requires |log| == 4 && log[0] == Requested(r.rid, r) && r.rid != "" && c.lim.maxPending >= 1
    ensures After(Restarting(NoTables, log, 0), Replay(Fine), c) == Restarting(OneCall(r, false), log, 1)
  {
    var s := Restarting(NoTables, log, 0);
    FirstIsQueued(s.run, r, c.lim);
    hide RequestNoted, After;
    ReplaySteps(s, Restarting(OneCall(r, false), log, 1).run, c);
  }

  lemma ReplaySecond(log: seq<Event>, r: Request, c: Setup)
    requires |log| == 4 && log[1] == Failure(r) && r.rid != "" && r.sig != "" && c.lim.maxCompleted >= 1
    ensures After(Restarting(OneCall(r, false), log, 1), Replay(Fine), c) == Restarting(Ended(r), log, 2)
  {
    var s := Restarting(OneCall(r, false), log, 1);
    ReplayFailure(s.run, r, c.lim);
    hide ReplayLine, After;
    ReplaySteps(s, Restarting(Ended(r), log, 2).run, c);
  }

  lemma ReplayThird(log: seq<Event>, r: Request, r': Request, c: Setup)
    requires |log| == 4 && log[2] == Requested(r'.rid, r') && Equivalent(r, r') && c.lim.maxCompleted >= 2
    requires LastOutcome(log, r.rid, c.lim) == Memo(Failed, EmptyObject, Null)
    ensures After(Restarting(Ended(r), log, 2), Replay(Fine), c).run.log == log + [Answer(r')]
  {
    var s := Restarting(Ended(r), log, 2);
    RepeatLogged(s.run, r, r', c.lim);
    hide RequestNoted, After, LastOutcome;
    ReplaySteps(s, RequestNoted(s.run, r', Fine, c.lim).1, c);
  }

  lemma AnsweredShape(r: Request, r': Request)
    ensures var log := AnsweredLog(r, r');
            && |log| == 4 && log[0] == Requested(r.rid, r) && log[1] == Failure(r)
            && log[2] == Requested(r'.rid, r') && log[3] == Answer(r')
  {
  }

  lemma ReplayedOutcome(r: Request, r': Request, lim: Limits)
    requires r.rid != r'.rid
    ensures LastOutcome(AnsweredLog(r, r'), r.rid, lim) == Memo(Failed, EmptyObject, Null)
  {
    OutcomeIsFirst(r, r', lim);
    var log := AnsweredLog(r, r');
    assert log[..3] == FirstLog(r) + [Requested(r'.rid, r')] && log[3] == Answer(r');
  }

  // ----- a message written twice -----

  ghost predicate AMessage(r: Request) {
    r.rid != "" && r.sig != "" && r.taskId == "" && r.action == Message
  }

  function OpenLog(r: Request): seq<Event> { [Requested(r.rid, r), ActionStarted(r.rid)] }

  function Send(r: Request, append: Append, w: Write): Action {
    Finish(r.rid, Succeeded, NoReason, EmptyObject, Null, Emit(append, true, true), w)
  }

  lemma LaunchFirst(r: Request, c: Setup)
    ensures After(At(OneCall(r, false), [Requested(r.rid, r)], [], false, Up, [], NoLedger), Launch(r.rid, Ok, true), c) ==
            At(OneCall(r, true), OpenLog(r), [], false, Up, [r.rid], NoLedger)
  {
    OnlyIsMarked(r);
    assert PendingIndex([Entry(r, false)], r.rid) == 0;
    assert [Requested(r.rid, r)] + [ActionStarted(r.rid)] == OpenLog(r) && [] + [r.rid] == [r.rid];
    hide MarkedStarted;
  }

  /** The first write stops short of its newline and the process dies before the terminal. */
  lemma FirstWrite(r: Request, c: Setup)
    requires AMessage(r)
    ensures After(At(OneCall(r, true), OpenLog(r), [], false, Up, [r.rid], NoLedger), Send(r, Lost, AllButNewline), c) ==
            At(OneCall(r, true), OpenLog(r), [r.rid], true, Halted, [r.rid], File([], Unended(Record(r.rid))))
  {
    assert PendingIndex([Entry(r, true)], r.rid) == 0 && [] + [r.rid] == [r.rid];
  }

  /** Another run's record lands on it. */
  lemma Garble(s: Life, r: Request, c: Setup)
    requires s.ledger == File([], Unended(Record(r.rid)))
    ensures After(s, ForeignDelivery(Whole), c) == s.(ledger := File([Garbled], Clean))
  {
    assert [] + [Garbled] == [Garbled];
  }

  lemma ReplayOpen(r: Request, c: Setup)
    requires AMessage(r) && c.lim.maxPending >= 1
    ensures var l := File([Garbled], Clean);
            var s := At(NoTables, OpenLog(r), [r.rid], false, Replaying(0, 2), [r.rid], l);
            var t := After(After(After(s, Replay(Fine), c), Replay(Fine), c), Replay(Fine), c);
            t == At(OneCall(r, true), OpenLog(r), [r.rid], false, Reconciling(0), [r.rid], l)
  {
    var l := File([Garbled], Clean);
    var s := At(NoTables, OpenLog(r), [r.rid], false, Replaying(0, 2), [r.rid], l);
    FirstIsQueued(s.run, r, c.lim);
    OnlyIsMarked(r);
    hide RequestNoted, MarkedStarted;
    var s1 := After(s, Replay(Fine), c);
    assert s1 == At(OneCall(r, false), OpenLog(r), [r.rid], false, Replaying(1, 2), [r.rid], l);
    var s2 := After(s1, Replay(Fine), c);
    assert s2 == At(OneCall(r, true), OpenLog(r), [r.rid], false, Replaying(2, 2), [r.rid], l);
  }

  /** The reader finds no record, so the call is put back, and launched again. */
  lemma PutBack(r: Request, c: Setup)
    requires AMessage(r)
    ensures var l := File([Garbled], Clean);
            var s := At(OneCall(r, true), OpenLog(r), [r.rid], false, Reconciling(0), [r.rid], l);
            var t := After(After(s, Reconcile(true, NotBlocked, Ok), c), Reconcile(true, NotBlocked, Ok), c);
            && t == At(OneCall(r, false), OpenLog(r), [r.rid], false, Up, [r.rid], l)
            && After(t, Launch(r.rid, Ok, true), c) ==
               At(OneCall(r, true), OpenLog(r) + [ActionStarted(r.rid)], [r.rid], false, Up, [r.rid, r.rid], l)
  {
    var l, p, q := File([Garbled], Clean), Entry(r, true), Entry(r, false);
    var s := At(OneCall(r, true), OpenLog(r), [r.rid], false, Reconciling(0), [r.rid], l);
    assert CountRecord([Garbled], r.rid) == 0 by { assert [Garbled][..0] == []; }
    assert Deliveries(l, r.rid) == 0;
    assert [p][0 := p.(started := false)] == [q] && [q][0 := q.(started := true)] == [p];
    var s1 := After(s, Reconcile(true, NotBlocked, Ok), c);
    assert s1 == At(OneCall(r, false), OpenLog(r), [r.rid], false, Reconciling(1), [r.rid], l);
    assert PendingIndex([q], r.rid) == 0 && MarkedStarted([q], r.rid) == [p] && [r.rid] + [r.rid] == [r.rid, r.rid];
  }

  /** The second write comes through. */
  lemma SecondWrite(r: Request, c: Setup)
    requires AMessage(r)
    ensures var s := At(OneCall(r, true), OpenLog(r) + [ActionStarted(r.rid)], [r.rid], false, Up, [r.rid, r.rid],
                        File([Garbled], Clean));
            var t := After(s, Send(r, Ok, Whole), c);
            t.run.deliveries == [r.rid, r.rid] && t.ledger == File([Garbled, Record(r.rid)], Clean) && t.mode.Up?
  {
    assert PendingIndex([Entry(r, true)], r.rid) == 0;
    assert [r.rid] + [r.rid] == [r.rid, r.rid] && [Garbled] + [Record(r.rid)] == [Garbled, Record(r.rid)];
    hide Retired;
  }

  /** A life in which one message is handed to the ledger twice: its first record was readable
      until another run's write garbled it. The reader still never sees two. */
  lemma MessageWrittenTwice(r: Request, c: Setup) returns (states: seq<Life>, actions: seq<Action>)
    requires AMessage(r) && c.lim.maxPending >= 1
    ensures IsLife(states, actions, c) && |states| == |actions| + 1 == 14
    ensures Deliveries(states[3].ledger, r.rid) == 1 && Deliveries(states[5].ledger, r.rid) == 0
    ensures Deliveries(states[13].ledger, r.rid) == 1 && states[13].run.deliveries == [r.rid, r.rid]
  {
    hide After, IsLife;
    LedgerCounts(r.rid);
    states, actions := Start(c);
    AskFirst(r, c);
    states, actions := Extended(states, actions, Ask(r, Ok, Fine), c);
    LaunchFirst(r, c);
    states, actions := Extended(states, actions, Launch(r.rid, Ok, true), c);
    FirstWrite(r, c);
    states, actions := Extended(states, actions, Send(r, Lost, AllButNewline), c);
    Rebooted(states[3], c);
    states, actions := Extended(states, actions, Crash, c);
    Garble(states[4], r, c);
    states, actions := Extended(states, actions, ForeignDelivery(Whole), c);
    Boots(states[5], c);
    states, actions := Extended(states, actions, Boot, c);
    ReplayOpen(r, c);
    states, actions := Extended(states, actions, Replay(Fine), c);
    states, actions := Extended(states, actions, Replay(Fine), c);
    states, actions := Extended(states, actions, Replay(Fine), c);
    PutBack(r, c);
    states, actions := Extended(states, actions, Reconcile(true, NotBlocked, Ok), c);
    states, actions := Extended(states, actions, Reconcile(true, NotBlocked, Ok), c);
    states, actions := Extended(states, actions, Launch(r.rid, Ok, true), c);
    SecondWrite(r, c);
    states, actions := Extended(states, actions, Send(r, Ok, Whole), c);
  }

  lemma Boots(s: Life, c: Setup)
    requires s.mode.Down?
    ensures After(s, Boot, c) == s.(mode := Replaying(0, |s.run.log|))
  {
  }

  lemma LedgerCounts(rid: string)
    ensures Deliveries(File([], Unended(Record(rid))), rid) == 1
    ensures Deliveries(File([Garbled], Clean), rid) == 0
    ensures Deliveries(File([Garbled, Record(rid)], Clean), rid) == 1
  {
    assert [Garbled][..0] == [] && [Garbled, Record(rid)][..1] == [Garbled];
  }

  // ----- a signature launched twice -----

  /** Texts that differ by their length. */
  function Word(n: nat): string { seq(n + 1, _ => 'a') }

  function Nth(n: nat): Request { Request(Word(n), "", Named(""), "", Word(n), "", 0, "") }

  function Fails(rid: string): Action { Finish(rid, Failed, NoReason, EmptyObject, Null, Fine, Nothing) }

  ghost predicate ShortIds(log: seq<Event>, n: nat) {
    forall k :: 0 <= k < |log| ==> |log[k].rid| <= n
  }

  ghost predicate ShortSigs(sigs: seq<SigEntry>, n: nat) {
    forall k :: 0 <= k < |sigs| ==> |sigs[k].sig| <= n
  }

  /** n signatures are completed and no call is open. */
  ghost predicate Filled(s: Life, n: nat) {
    && s.mode.Up? && s.run.queue.pending == [] && |s.run.queue.sigs| == n
    && ShortSigs(s.run.queue.sigs, n) && ShortIds(s.run.log, n)
  }

  /** A request longer than all before it is new. */
  lemma AskNew(s: Life, r: Request, n: nat, m: nat, c: Setup)
    requires Inv(s, c) && s.mode.Up? && s.run.queue.pending == [] && c.lim.maxPending >= 1
    requires ShortIds(s.run.log, n) && |r.rid| > n && ShortSigs(s.run.queue.sigs, m) && |r.sig| > m
    ensures var t := After(s, Ask(r, Ok, Fine), c);
            && t.mode.Up? && t.run.queue == s.run.queue.(pending := [NewEntry(r)])
            && t.run.log == s.run.log + [Requested(r.rid, r)]
  {
    hide After, Inv, CompletedIndex;
    assert !Completed(s.run.queue.sigs, r.sig);
    assert SigIndex([], r.sig) == 0 && [] + [NewEntry(r)] == [NewEntry(r)];
    NewIdIsFresh(s, r, c);
  }

  /** The only open call fails: its signature is recorded if there is room. */
  lemma OnlyFails(s: Life, p: Pending, c: Setup)
    requires s.mode.Up? && s.run.queue.pending == [p] && p.sig != "" && !Completed(s.run.queue.sigs, p.sig)
    ensures var t := After(s, Fails(p.rid), c);
            && t.mode.Up? && t.run.queue.pending == []
            && t.run.queue.sigs == s.run.queue.sigs
                 + (if |s.run.queue.sigs| < c.lim.maxCompleted then [SigEntry(p.sig, p.rid)] else [])
            && t.run.log == s.run.log + [Terminal(p.rid, Failed, p.action, NoReason, EmptyObject, Null)]
  {
    hide CompletedIndex;
    assert PendingIndex([p], p.rid) == 0 && Removed([p], 0) == [];
  }

  /** The only open call is launched. */
  lemma OnlyLaunches(s: Life, p: Pending, c: Setup)
    requires s.mode.Up? && s.run.queue.pending == [p] && !p.started
    ensures LaunchesAt(s, Launch(p.rid, Ok, true), p.sig, p.rid)
    ensures var t := After(s, Launch(p.rid, Ok, true), c);
            && t.mode.Up? && t.run.queue == s.run.queue.(pending := [p.(started := true)])
            && t.run.log == s.run.log + [ActionStarted(p.rid)]
  {
    assert PendingIndex([p], p.rid) == 0 && [p][0 := p.(started := true)] == [p.(started := true)];
  }

  lemma {:induction false} Fill(n: nat, c: Setup) returns (states: seq<Life>, actions: seq<Action>)
    requires n <= c.lim.maxCompleted && c.lim.maxPending >= 1
    ensures IsLife(states, actions, c) && |states| == |actions| + 1 && Filled(states[|actions|], n)
  {
    hide After, IsLife, Inv, CompletedIndex;
    if n == 0 {
      states, actions := Start(c);
    } else {
      var m, r := n - 1, Nth(n - 1);
      states, actions := Fill(m, c);
      Reachable(states, actions, c, |actions|);
      AskNew(states[|actions|], r, m, m, c);
      states, actions := Extended(states, actions, Ask(r, Ok, Fine), c);
      OnlyFails(states[|actions|], NewEntry(r), c);
      states, actions := Extended(states, actions, Fails(r.rid), c);
    }
  }

  /** For all limits: once the table is full, two requests with one signature are launched in a
      stretch without a crash. */
  lemma LaunchedTwice(c: Setup)
      returns (states: seq<Life>, actions: seq<Action>, i: nat, j: nat, sig: string, rid: string, rid': string)
    requires c.lim.maxPending >= 1
    ensures IsLife(states, actions, c) && i < j < |actions| && StaysUp(states, i, j) && rid != rid'
    ensures LaunchesAt(states[i], actions[i], sig, rid) && LaunchesAt(states[j], actions[j], sig, rid')
  {
    hide After, IsLife, Inv, CompletedIndex, LaunchesAt;
    var n := c.lim.maxCompleted;
    var r, again := Nth(n), Nth(n + 1).(sig := Word(n));
    sig, rid, rid' := r.sig, r.rid, again.rid;
    states, actions := Fill(n, c);
    var k := |actions|;
    Reachable(states, actions, c, k);
    AskNew(states[k], r, n, n, c);
    states, actions := Extended(states, actions, Ask(r, Ok, Fine), c);
    OnlyLaunches(states[k + 1], NewEntry(r), c);
    states, actions := Extended(states, actions, Launch(rid, Ok, true), c);
    OnlyFails(states[k + 2], Entry(r, true), c);
    states, actions := Extended(states, actions, Fails(rid), c);
    Reachable(states, actions, c, k + 3);
    AskNew(states[k + 3], again, n + 1, n, c);
    states, actions := Extended(states, actions, Ask(again, Ok, Fine), c);
    OnlyLaunches(states[k + 4], NewEntry(again), c);
    states, actions := Extended(states, actions, Launch(rid', Ok, true), c);
    i, j := k + 1, k + 4;
  }
}
