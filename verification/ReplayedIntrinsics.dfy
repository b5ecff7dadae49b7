/** The replay-reconciled local intrinsics (runtime/action_runtime.c,
    runtime/action_runtime_affair.c, runtime/action_runtime_work.c).

    A local call that was interrupted is dispatched again under the same request id, so
    each intrinsic asks the run's log whether its own effect is already there before it
    appends one. What a dispatch reads from its surroundings (clock, event counter, task
    store, how an append goes) is an argument and may differ at every dispatch. */
module ReplayedIntrinsics {
  import opened Wrappers
  import opened TornFile

  // ----- the log file -----

  datatype Payload =
    | Note(affair: string, text: string)
    | Bump(affair: string, name: string, change: Change)
    | Close(affair: string)
    | Defer(affair: string, at: int)
    | Open(affair: string, manage: string, at: int)
    | Created(task: string)
    | Revised(task: string, rev: int)
    | MemoryText(task: string, text: string)
    | Ended(task: string, rev: int, blocked: bool)

  datatype Change = Delta(amount: int) | Set(amount: int)

  /** The event types. Open, defer and close share one. */
  datatype Kind = NoteAdded | CounterBumped | AffairPatch | TaskCreated | TaskUpdated
                | WorkingMemoryAppended | WorkCompleted | WorkBlocked

  function KindOf(p: Payload): Kind {
    match p
    case Note(_, _) => NoteAdded
    case Bump(_, _, _) => CounterBumped
    case Close(_) => AffairPatch
    case Defer(_, _) => AffairPatch
    case Open(_, _, _) => AffairPatch
    case Created(_) => TaskCreated
    case Revised(_, _) => TaskUpdated
    case MemoryText(_, _) => WorkingMemoryAppended
    case Ended(_, _, blocked) => if blocked then WorkBlocked else WorkCompleted
  }

  datatype Line = Effect(rid: string, payload: Payload) | Other | Garbled

  type LogFile = File<Line>

  /** One append: how much of it reached the file, and whether it reported an error. Less than
      a whole line is always an error. */
  datatype Append = Append(write: Write, error: bool)

  predicate Succeeds(w: Append) {
    w.write.Whole? && !w.error
  }

  function Appended(f: LogFile, x: Line, w: Append): LogFile {
    WithLine(f, x, Garbled, w.write)
  }

  /** What a reader sees: the complete lines, and a last one without its newline. */
  function Seen(f: LogFile): seq<Line> {
    if f.tail.Unended? then f.lines + [f.tail.line] else f.lines
  }

  // ----- the committed effect of a request -----

  datatype Lookup = Unreadable | Absent | Found(payload: Payload)

  predicate Matches(x: Line, kind: Kind, rid: string) {
    x.Effect? && x.rid == rid && KindOf(x.payload) == kind
  }

  function FirstEffect(lines: seq<Line>, kind: Kind, rid: string): (l: Lookup)
    ensures !l.Unreadable?
  {
    if lines == [] then Absent
    else if Matches(lines[0], kind, rid) then Found(lines[0].payload)
    else FirstEffect(lines[1..], kind, rid)
  }

  function Committed(f: LogFile, kind: Kind, rid: string, readable: bool): Lookup {
    if readable then FirstEffect(Seen(f), kind, rid) else Unreadable
  }

  // ----- the calls -----

  datatype ReviewIn = NoReview | BadReview | After(ms: int)

  datatype Call =
    | NoteAdd(affair: string, text: string)
    | CounterBump(affair: string, name: string, change: Option<Change>)
    | AffairClose
    | DeferReview(ms: Option<int>)
    | AffairOpen(manage: string, reviewIn: ReviewIn)
    | Work(wellFormed: bool)
    | MemoryAppend(text: string)
    | EndWork(blocked: bool, wellFormed: bool)

  datatype Target = NewTask | Revise(task: string, rev: int) | NoTarget

  datatype Env = Env(readable: bool, write: Append, nowMs: int, minted: string,
                     inboundAffair: string, affairInContext: bool,
                     target: Target, reducerAgrees: bool,
                     boundTask: string, boundRev: int, bindingCurrent: bool, outboxOk: bool,
                     memoryBytes: nat, memoryMax: nat)

  datatype Reply = Ok | ReviewAt(at: int) | Opened(affair: string, at: int)
                 | WorkReply(task: string, rev: int, created: bool)
                 | MemoryReply(task: string, bytes: nat) | EndReply(task: string, rev: int, blocked: bool)

  datatype Answer = Failed | Answer(reply: Reply, recovered: bool)

  /** The kinds a call may leave, in the order it looks for them. */
  function KindsOf(c: Call): seq<Kind> {
    match c
    case NoteAdd(_, _) => [NoteAdded]
    case CounterBump(_, _, _) => [CounterBumped]
    case Work(_) => [TaskCreated, TaskUpdated]
    case MemoryAppend(_) => [WorkingMemoryAppended]
    case EndWork(blocked, _) => [if blocked then WorkBlocked else WorkCompleted]
    case _ => [AffairPatch]
  }

  function NextReview(p: Payload): Option<int> {
    match p
    case Defer(_, at) => Some(at)
    case Open(_, _, at) => Some(at)
    case _ => None
  }

  function AffairOf(p: Payload): Option<string> {
    match p
    case Note(a, _) => Some(a)
    case Bump(a, _, _) => Some(a)
    case Close(a) => Some(a)
    case Defer(a, _) => Some(a)
    case Open(a, _, _) => Some(a)
    case _ => None
  }

  /** The answer read back from a committed effect. */
  function Recall(c: Call, p: Payload, env: Env): Answer {
    match c
    case DeferReview(_) =>
      if NextReview(p).None? then Failed else Answer(ReviewAt(NextReview(p).value), true)
    case AffairOpen(_, _) =>
      if AffairOf(p).None? then Failed
      else Answer(Opened(AffairOf(p).value, if NextReview(p).None? then 0 else NextReview(p).value), true)
    case Work(_) =>
      if p.Created? then Answer(WorkReply(p.task, 1, true), true)
      else if p.Revised? then Answer(WorkReply(p.task, p.rev, false), true)
      else Failed
    case MemoryAppend(text) =>
      if p.MemoryText? && p.task == env.boundTask && p.text == text
      then Answer(MemoryReply(p.task, |text|), true) else Failed
    case EndWork(blocked, _) =>
      if p.Ended? then Answer(EndReply(p.task, p.rev, blocked), true) else Failed
    case _ => Answer(Ok, true)
  }

  /** Preconditions the call checks before it looks at the log. */
  predicate FirstChecks(c: Call, env: Env) {
    match c
    case NoteAdd(affair, text) =>
      (affair != "" ==> env.affairInContext) && (affair != "" || env.inboundAffair != "") && text != ""
    case CounterBump(affair, name, change) => env.affairInContext && name != "" && change.Some?
    case AffairClose => env.inboundAffair != ""
    case DeferReview(ms) => env.inboundAffair != "" && ms.Some?
    case AffairOpen(_, _) => true
    case Work(wellFormed) => wellFormed
    case MemoryAppend(text) => text != "" && env.boundTask != ""
    case EndWork(_, _) => true
  }

  /** Preconditions it checks only when there is nothing on the log yet. */
  predicate LastChecks(c: Call, env: Env) {
    match c
    case AffairOpen(manage, reviewIn) => manage != "" && !reviewIn.BadReview? && (reviewIn.After? ==> reviewIn.ms > 0)
    case Work(_) => !env.target.NoTarget?
    case MemoryAppend(text) => env.memoryBytes + (if env.memoryBytes > 0 then 1 else 0) + |text| < env.memoryMax
    case EndWork(_, wellFormed) => wellFormed && env.boundTask != "" && env.boundRev > 0 && env.bindingCurrent && env.outboxOk
    case _ => true
  }

  /** The effect a first dispatch appends. */
  function Fresh(c: Call, env: Env): Payload
    requires FirstChecks(c, env) && LastChecks(c, env)
  {
    match c
    case NoteAdd(affair, text) => Note(if affair != "" then affair else env.inboundAffair, text)
    case CounterBump(affair, name, change) => Bump(affair, name, change.value)
    case AffairClose => Close(env.inboundAffair)
    case DeferReview(ms) => Defer(env.inboundAffair, env.nowMs + ms.value)
    case AffairOpen(manage, reviewIn) => Open(env.minted, manage, if reviewIn.After? then env.nowMs + reviewIn.ms else 0)
    case Work(_) => if env.target.Revise? then Revised(env.target.task, env.target.rev + 1) else Created(env.minted)
    case MemoryAppend(text) => MemoryText(env.boundTask, text)
    case EndWork(blocked, _) => Ended(env.boundTask, env.boundRev, blocked)
  }

  function LookAll(f: LogFile, kinds: seq<Kind>, rid: string, readable: bool): Lookup {
    if kinds == [] then Absent
    else
      var l := Committed(f, kinds[0], rid, readable);
      if l.Absent? then LookAll(f, kinds[1..], rid, readable) else l
  }

  /** The reply a first dispatch computes. */
  function FreshReply(c: Call, env: Env): Reply
    requires FirstChecks(c, env) && LastChecks(c, env)
  {
    match c
    case DeferReview(ms) => ReviewAt(env.nowMs + ms.value)
    case AffairOpen(_, reviewIn) => Opened(env.minted, if reviewIn.After? then env.nowMs + reviewIn.ms else 0)
    case Work(_) =>
      if env.target.Revise? then WorkReply(env.target.task, env.target.rev + 1, false) else WorkReply(env.minted, 1, true)
    case MemoryAppend(text) => MemoryReply(env.boundTask, |text|)
    case EndWork(blocked, _) => EndReply(env.boundTask, env.boundRev, blocked)
    case _ => Ok
  }

  function Dispatch(f: LogFile, c: Call, rid: string, env: Env): (Answer, LogFile) {
    if !FirstChecks(c, env) then (Failed, f)
    else
      match LookAll(f, KindsOf(c), rid, env.readable)
      case Unreadable => (Failed, f)
      case Found(p) => (Recall(c, p, env), f)
      case Absent =>
        if !LastChecks(c, env) then (Failed, f)
        else
          var p := Fresh(c, env);
          (if !Succeeds(env.write) || (p.Revised? && !env.reducerAgrees) then Failed else Answer(FreshReply(c, env), false),
           Appended(f, Effect(rid, p), env.write))
  }

  // ----- the intrinsics -----

  class RunLog {
    var file: LogFile

    constructor ()
      ensures file == File([], Clean)
    {
      file := File([], Clean);
    }

    /** One pass over the log; the first match wins. */
    method CommittedEffect(kind: Kind, rid: string, readable: bool) returns (l: Lookup)
      ensures l == Committed(file, kind, rid, readable)
    {
      if !readable { return Unreadable; }
      var text := Seen(file);
      var k := 0;
      while k < |text|
        invariant 0 <= k <= |text|
        invariant FirstEffect(text, kind, rid) == FirstEffect(text[k..], kind, rid)
      {
        if Matches(text[k], kind, rid) { return Found(text[k].payload); }
        assert text[k..][1..] == text[k + 1..];
        k := k + 1;
      }
      l := Absent;
    }

    method AppendEvent(x: Line, w: Append) returns (ok: bool)
      modifies this
      ensures file == Appended(old(file), x, w) && ok == Succeeds(w)
    {
      match w.write {
        case Nothing =>
        case Part => file := File(file.lines, Fragment);
        case AllButNewline => file := File(file.lines, if file.tail.Clean? then Unended(x) else Fragment);
        case Whole => file := File(file.lines + [if file.tail.Clean? then x else Garbled], Clean);
      }
      ok := Succeeds(w);
    }

    method NoteAddAction(affair: string, text: string, rid: string, env: Env) returns (a: Answer)
      modifies this
      ensures (a, file) == Dispatch(old(file), NoteAdd(affair, text), rid, env)
    {
      if affair != "" && !env.affairInContext { return Failed; }
      var target := if affair == "" then env.inboundAffair else affair;
      if target == "" || text == "" { return Failed; }
      var prior := CommittedEffect(NoteAdded, rid, env.readable);
      OneKind(file, NoteAdded, rid, env.readable);
      if prior.Found? { return Answer(Ok, true); }
      if prior.Unreadable? { return Failed; }
      var ok := AppendEvent(Effect(rid, Note(target, text)), env.write);
      a := if ok then Answer(Ok, false) else Failed;
    }

    method CounterBumpAction(affair: string, name: string, change: Option<Change>, rid: string, env: Env)
      returns (a: Answer)
      modifies this
      ensures (a, file) == Dispatch(old(file), CounterBump(affair, name, change), rid, env)
    {
      if !env.affairInContext || name == "" || change.None? { return Failed; }
      var prior := CommittedEffect(CounterBumped, rid, env.readable);
      OneKind(file, CounterBumped, rid, env.readable);
      if prior.Found? { return Answer(Ok, true); }
      if prior.Unreadable? { return Failed; }
      var ok := AppendEvent(Effect(rid, Bump(affair, name, change.value)), env.write);
      a := if ok then Answer(Ok, false) else Failed;
    }

    method AffairCloseAction(rid: string, env: Env) returns (a: Answer)
      modifies this
      ensures (a, file) == Dispatch(old(file), AffairClose, rid, env)
    {
      if env.inboundAffair == "" { return Failed; }
      var prior := CommittedEffect(AffairPatch, rid, env.readable);
      OneKind(file, AffairPatch, rid, env.readable);
      if prior.Found? { return Answer(Ok, true); }
      if prior.Unreadable? { return Failed; }
      var ok := AppendEvent(Effect(rid, Close(env.inboundAffair)), env.write);
      a := if ok then Answer(Ok, false) else Failed;
    }

    method DeferAction(ms: Option<int>, rid: string, env: Env) returns (a: Answer)
      modifies this
      ensures (a, file) == Dispatch(old(file), DeferReview(ms), rid, env)
    {
      if env.inboundAffair == "" || ms.None? { return Failed; }
      var prior := CommittedEffect(AffairPatch, rid, env.readable);
      OneKind(file, AffairPatch, rid, env.readable);
      if prior.Unreadable? { return Failed; }
      if prior.Found? {
        var at := NextReview(prior.payload);
        return if at.None? then Failed else Answer(ReviewAt(at.value), true);
      }
      var next := env.nowMs + ms.value;
      var ok := AppendEvent(Effect(rid, Defer(env.inboundAffair, next)), env.write);
      a := if ok then Answer(ReviewAt(next), false) else Failed;
    }

    method AffairOpenAction(manage: string, reviewIn: ReviewIn, rid: string, env: Env) returns (a: Answer)
      modifies this
      ensures (a, file) == Dispatch(old(file), AffairOpen(manage, reviewIn), rid, env)
    {
      var prior := CommittedEffect(AffairPatch, rid, env.readable);
      OneKind(file, AffairPatch, rid, env.readable);
      if prior.Unreadable? { return Failed; }
      if prior.Found? {
        var affair, at := AffairOf(prior.payload), NextReview(prior.payload);
        return if affair.None? then Failed
               else Answer(Opened(affair.value, if at.None? then 0 else at.value), true);
      }
      if manage == "" || reviewIn.BadReview? || (reviewIn.After? && reviewIn.ms <= 0) { return Failed; }
      var next := if reviewIn.After? then env.nowMs + reviewIn.ms else 0;
      var ok := AppendEvent(Effect(rid, Open(env.minted, manage, next)), env.write);
      a := if ok then Answer(Opened(env.minted, next), false) else Failed;
    }

    method WorkAction(wellFormed: bool, rid: string, env: Env) returns (a: Answer)
      modifies this
      ensures (a, file) == Dispatch(old(file), Work(wellFormed), rid, env)
    {
      if !wellFormed { return Failed; }
      TwoKinds(file, rid, env.readable);
      var prior := CommittedEffect(TaskCreated, rid, env.readable);
      if prior.Absent? { prior := CommittedEffect(TaskUpdated, rid, env.readable); }
      if prior.Unreadable? { return Failed; }
      if prior.Found? { return Recall(Work(true), prior.payload, env); }
      if env.target.NoTarget? { return Failed; }
      if env.target.Revise? {
        var rev := env.target.rev + 1;
        var ok := AppendEvent(Effect(rid, Revised(env.target.task, rev)), env.write);
        a := if ok && env.reducerAgrees then Answer(WorkReply(env.target.task, rev, false), false) else Failed;
      } else {
        var ok := AppendEvent(Effect(rid, Created(env.minted)), env.write);
        a := if ok then Answer(WorkReply(env.minted, 1, true), false) else Failed;
      }
    }

    method MemoryAppendAction(text: string, rid: string, env: Env) returns (a: Answer)
      modifies this
      ensures (a, file) == Dispatch(old(file), MemoryAppend(text), rid, env)
    {
      if text == "" || env.boundTask == "" { return Failed; }
      var prior := CommittedEffect(WorkingMemoryAppended, rid, env.readable);
      OneKind(file, WorkingMemoryAppended, rid, env.readable);
      if prior.Unreadable? { return Failed; }
      if prior.Found? { return Recall(MemoryAppend(text), prior.payload, env); }
      if env.memoryBytes + (if env.memoryBytes > 0 then 1 else 0) + |text| >= env.memoryMax { return Failed; }
      var ok := AppendEvent(Effect(rid, MemoryText(env.boundTask, text)), env.write);
      a := if ok then Answer(MemoryReply(env.boundTask, |text|), false) else Failed;
    }

    method EndWorkAction(blocked: bool, wellFormed: bool, rid: string, env: Env) returns (a: Answer)
      modifies this
      ensures (a, file) == Dispatch(old(file), EndWork(blocked, wellFormed), rid, env)
    {
      var kind := if blocked then WorkBlocked else WorkCompleted;
      var prior := CommittedEffect(kind, rid, env.readable);
      OneKind(file, kind, rid, env.readable);
      if prior.Unreadable? { return Failed; }
      if prior.Found? { return Recall(EndWork(blocked, wellFormed), prior.payload, env); }
      if env.boundTask == "" || env.boundRev <= 0 || !env.bindingCurrent || !wellFormed || !env.outboxOk {
        return Failed;
      }
      var ok := AppendEvent(Effect(rid, Ended(env.boundTask, env.boundRev, blocked)), env.write);
      a := if ok then Answer(EndReply(env.boundTask, env.boundRev, blocked), false) else Failed;
    }
  }

  lemma OneKind(f: LogFile, kind: Kind, rid: string, readable: bool)
    ensures LookAll(f, [kind], rid, readable) == Committed(f, kind, rid, readable)
  {
    assert [kind][1..] == [];
  }

  lemma TwoKinds(f: LogFile, rid: string, readable: bool)
    ensures LookAll(f, [TaskCreated, TaskUpdated], rid, readable) ==
            var l := Committed(f, TaskCreated, rid, readable);
            if l.Absent? then Committed(f, TaskUpdated, rid, readable) else l
  {
    assert [TaskCreated, TaskUpdated][1..] == [TaskUpdated];
    OneKind(f, TaskUpdated, rid, readable);
  }

  // ----- one request over many dispatches -----

  /** What happens to the log between the dispatches of one request: the request itself
      (at most once per process), lines of anything else, and a restart, which cuts off an
      incomplete last line and refuses a log with a malformed one. */
  datatype Step =
    | Run(env: Env)
    | Elsewhere(line: Line, write: Append)
    | Restart

  datatype State = State(file: LogFile, dispatched: bool, refused: bool, answers: seq<Answer>)

  const Init := State(File([], Clean), false, false, [])

  predicate Relevant(x: Line, c: Call, rid: string) {
    x.Effect? && x.rid == rid && KindOf(x.payload) in KindsOf(c)
  }

  /** Request ids are per request, so no other line is an effect of this one. */
  function Advanced(s: State, step: Step, c: Call, rid: string): State {
    match step
    case Run(env) =>
      if s.dispatched || s.refused then s
      else
        var r := Dispatch(s.file, c, rid, env);
        State(r.1, true, s.refused, s.answers + [r.0])
    case Elsewhere(x, w) => if Relevant(x, c, rid) then s else s.(file := Appended(s.file, x, w))
    case Restart => State(s.file.(tail := Clean), false, Garbled in s.file.lines, s.answers)
  }

  ghost predicate IsHistory(states: seq<State>, steps: seq<Step>, c: Call, rid: string) {
    && |states| == |steps| + 1
    && states[0] == Init
    && forall i :: 0 <= i < |steps| ==> states[i + 1] == Advanced(states[i], steps[i], c, rid)
  }

  function CountEffects(lines: seq<Line>, c: Call, rid: string): nat {
    if lines == [] then 0
    else CountEffects(lines[..|lines| - 1], c, rid) + (if Relevant(lines[|lines| - 1], c, rid) then 1 else 0)
  }

  lemma CountSnoc(lines: seq<Line>, x: Line, c: Call, rid: string)
    ensures CountEffects(lines + [x], c, rid) == CountEffects(lines, c, rid) + (if Relevant(x, c, rid) then 1 else 0)
  {
    assert (lines + [x])[..|lines|] == lines;
  }

  lemma {:induction false} FirstSnoc(lines: seq<Line>, x: Line, kind: Kind, rid: string)
    ensures FirstEffect(lines + [x], kind, rid) ==
            if FirstEffect(lines, kind, rid).Found? then FirstEffect(lines, kind, rid)
            else if Matches(x, kind, rid) then Found(x.payload) else Absent
  {
    if lines == [] {
      assert [x][1..] == [];
    } else {
      FirstSnoc(lines[1..], x, kind, rid);
      assert (lines + [x])[1..] == lines[1..] + [x];
    }
  }

  /** The lookup of a call: nothing is found exactly when there is no effect line, and with
      one effect line it is that line that is found. */
  lemma {:induction false} LookupExact(lines: seq<Line>, c: Call, rid: string)
    ensures var l := LookAll(File(lines, Clean), KindsOf(c), rid, true);
            && !l.Unreadable?
            && (l.Absent? <==> CountEffects(lines, c, rid) == 0)
            && (l.Found? ==> KindOf(l.payload) in KindsOf(c))
  {
    LookAllIs(File(lines, Clean), c, rid, true);
    if lines != [] {
      var m, x := lines[..|lines| - 1], lines[|lines| - 1];
      assert lines == m + [x];
      LookupExact(m, c, rid);
      LookAllIs(File(m, Clean), c, rid, true);
      CountSnoc(m, x, c, rid);
      FirstSnoc(m, x, KindsOf(c)[0], rid);
      FirstSnoc(m, x, KindsOf(c)[|KindsOf(c)| - 1], rid);
    }
  }

  lemma LookAllIs(f: LogFile, c: Call, rid: string, readable: bool)
    ensures var first := Committed(f, KindsOf(c)[0], rid, readable);
            LookAll(f, KindsOf(c), rid, readable) ==
            if first.Absent? then Committed(f, KindsOf(c)[|KindsOf(c)| - 1], rid, readable) else first
  {
    if c.Work? { TwoKinds(f, rid, readable); } else { OneKind(f, KindsOf(c)[0], rid, readable); }
  }

  lemma SeenOnly(f: LogFile, c: Call, rid: string)
    ensures LookAll(f, KindsOf(c), rid, true) == LookAll(File(Seen(f), Clean), KindsOf(c), rid, true)
  {
    LookAllIs(f, c, rid, true);
    LookAllIs(File(Seen(f), Clean), c, rid, true);
  }

  lemma SeenAppended(f: LogFile, x: Line, w: Append)
    ensures var t := Seen(Appended(f, x, w));
            t == Seen(f) || t == f.lines || t == f.lines + [x] || t == f.lines + [Garbled]
  {
  }

  lemma AppendCounts(f: LogFile, x: Line, w: Append, c: Call, rid: string)
    ensures CountEffects(Seen(Appended(f, x, w)), c, rid) <=
            CountEffects(Seen(f), c, rid) + (if Relevant(x, c, rid) then 1 else 0)
    ensures CountEffects(f.lines, c, rid) <= CountEffects(Seen(f), c, rid)
  {
    SeenAppended(f, x, w);
    CountSnoc(f.lines, x, c, rid);
    CountSnoc(f.lines, Garbled, c, rid);
    if f.tail.Unended? { CountSnoc(f.lines, f.tail.line, c, rid); }
    assert !Relevant(Garbled, c, rid);
    hide CountEffects, Relevant, Appended;
  }

  lemma OneEffectStep(s: State, step: Step, c: Call, rid: string)
    requires CountEffects(Seen(s.file), c, rid) <= 1
    ensures CountEffects(Seen(Advanced(s, step, c, rid).file), c, rid) <= 1
  {
    hide CountEffects, Appended, Dispatch;
    match step
    case Run(env) => DispatchCounts(s.file, c, rid, env);
    case Elsewhere(x, w) => AppendCounts(s.file, x, w, c, rid);
    case Restart =>
      AppendCounts(s.file, Other, Append(Nothing, true), c, rid);
      assert Seen(File(s.file.lines, Clean)) == s.file.lines;
  }

  lemma UnreadableLookup(f: LogFile, c: Call, rid: string)
    ensures LookAll(f, KindsOf(c), rid, false).Unreadable?
  {
    LookAllIs(f, c, rid, false);
  }

  /** A dispatch appends only when the log shows no effect. */
  lemma DispatchCounts(f: LogFile, c: Call, rid: string, env: Env)
    requires CountEffects(Seen(f), c, rid) <= 1
    ensures CountEffects(Seen(Dispatch(f, c, rid, env).1), c, rid) <= 1
  {
    hide LookAll, CountEffects, KindsOf, Seen, Appended, Relevant, FirstChecks, LastChecks, Fresh, Recall, FreshReply;
    SeenOnly(f, c, rid);
    LookupExact(Seen(f), c, rid);
    UnreadableLookup(f, c, rid);
    if FirstChecks(c, env) && LastChecks(c, env) {
      AppendCounts(f, Effect(rid, Fresh(c, env)), env.write, c, rid);
    }
  }

  /** However often the request is dispatched again and however its appends and the others'
      go, the log never shows more than one effect of it. */
  lemma {:induction false} AtMostOneEffect(states: seq<State>, steps: seq<Step>, c: Call, rid: string, i: nat)
    requires IsHistory(states, steps, c, rid) && i < |states|
    ensures CountEffects(Seen(states[i].file), c, rid) <= 1
  {
    if i > 0 {
      var k := i - 1;
      AtMostOneEffect(states, steps, c, rid, k);
      assert states[k + 1] == Advanced(states[k], steps[k], c, rid);
      OneEffectStep(states[k], steps[k], c, rid);
    }
  }

  // ----- every success gives the same reply -----

  /** The reply a committed effect stands for. */
  function ReplyOf(c: Call, p: Payload): Option<Reply> {
    match c
    case DeferReview(_) => if NextReview(p).None? then None else Some(ReviewAt(NextReview(p).value))
    case AffairOpen(_, _) =>
      if AffairOf(p).None? then None
      else Some(Opened(AffairOf(p).value, if NextReview(p).None? then 0 else NextReview(p).value))
    case Work(_) =>
      if p.Created? then Some(WorkReply(p.task, 1, true))
      else if p.Revised? then Some(WorkReply(p.task, p.rev, false)) else None
    case MemoryAppend(text) => if p.MemoryText? && p.text == text then Some(MemoryReply(p.task, |text|)) else None
    case EndWork(blocked, _) => if p.Ended? then Some(EndReply(p.task, p.rev, blocked)) else None
    case _ => Some(Ok)
  }

  lemma RecallIsReply(c: Call, p: Payload, env: Env)
    ensures Recall(c, p, env).Answer? ==> ReplyOf(c, p) == Some(Recall(c, p, env).reply)
  {
  }

  /** Reading back what a first dispatch wrote gives the reply it computed. */
  lemma FreshRoundTrip(c: Call, env: Env)
    requires FirstChecks(c, env) && LastChecks(c, env)
    ensures ReplyOf(c, Fresh(c, env)) == Some(FreshReply(c, env))
    ensures KindOf(Fresh(c, env)) in KindsOf(c)
  {
  }

  function OnDisk(f: LogFile, c: Call, rid: string): Lookup {
    LookAll(File(f.lines, Clean), KindsOf(c), rid, true)
  }

  ghost predicate Backed(a: Answer, l: Lookup, c: Call) {
    a.Answer? ==> l.Found? && ReplyOf(c, l.payload) == Some(a.reply)
  }

  ghost predicate AllBacked(s: State, c: Call, rid: string) {
    forall i :: 0 <= i < |s.answers| ==> Backed(s.answers[i], OnDisk(s.file, c, rid), c)
  }

  ghost predicate Agree(answers: seq<Answer>) {
    forall i, j :: 0 <= i < j < |answers| && answers[i].Answer? && answers[j].Answer? ==>
      answers[i].reply == answers[j].reply
  }

  ghost predicate AnswerInv(s: State, c: Call, rid: string) {
    && (s.file.tail.Unended? && Relevant(s.file.tail.line, c, rid) ==> s.dispatched)
    && Agree(s.answers)
    && (AllBacked(s, c, rid) || (Garbled in s.file.lines && (s.dispatched || s.refused)))
  }

  lemma IrrelevantKeepsDisk(f: LogFile, x: Line, c: Call, rid: string)
    requires !Relevant(x, c, rid)
    ensures OnDisk(File(f.lines + [x], Clean), c, rid) == OnDisk(f, c, rid)
  {
    LookAllIs(File(f.lines + [x], Clean), c, rid, true);
    LookAllIs(File(f.lines, Clean), c, rid, true);
    FirstSnoc(f.lines, x, KindsOf(c)[0], rid);
    FirstSnoc(f.lines, x, KindsOf(c)[|KindsOf(c)| - 1], rid);
    assert KindsOf(c)[0] in KindsOf(c) && KindsOf(c)[|KindsOf(c)| - 1] in KindsOf(c);
  }

  lemma ElsewhereKeepsDisk(f: LogFile, x: Line, w: Append, c: Call, rid: string)
    requires !Relevant(x, c, rid)
    ensures OnDisk(Appended(f, x, w), c, rid) == OnDisk(f, c, rid)
    ensures var t := Appended(f, x, w).tail;
            t.Unended? && Relevant(t.line, c, rid) ==> t == f.tail
    ensures Garbled in f.lines ==> Garbled in Appended(f, x, w).lines
  {
    IrrelevantKeepsDisk(f, x, c, rid);
    IrrelevantKeepsDisk(f, Garbled, c, rid);
    hide OnDisk, Relevant;
  }

  lemma SeenIsDisk(f: LogFile, c: Call, rid: string)
    requires f.tail.Unended? ==> !Relevant(f.tail.line, c, rid)
    ensures LookAll(f, KindsOf(c), rid, true) == OnDisk(f, c, rid)
  {
    SeenOnly(f, c, rid);
    if f.tail.Unended? { IrrelevantKeepsDisk(f, f.tail.line, c, rid); }
  }

  /** A first dispatch that reports success has put its effect where it will be found,
      unless the append landed on a torn tail. */
  lemma FreshOnDisk(f: LogFile, c: Call, rid: string, env: Env)
    requires FirstChecks(c, env) && LastChecks(c, env) && Succeeds(env.write)
    requires OnDisk(f, c, rid).Absent?
    ensures var g := Appended(f, Effect(rid, Fresh(c, env)), env.write);
            OnDisk(g, c, rid) == Found(Fresh(c, env)) || Garbled in g.lines
  {
    var x := Effect(rid, Fresh(c, env));
    FreshRoundTrip(c, env);
    hide Fresh, FreshReply, FirstChecks, LastChecks;
    LookAllIs(File(f.lines + [x], Clean), c, rid, true);
    LookAllIs(File(f.lines, Clean), c, rid, true);
    FirstSnoc(f.lines, x, KindsOf(c)[0], rid);
    FirstSnoc(f.lines, x, KindsOf(c)[|KindsOf(c)| - 1], rid);
    assert f.tail.Clean? || (f.lines + [Garbled])[|f.lines|] == Garbled;
  }

  lemma AgreeSnoc(answers: seq<Answer>, a: Answer, l: Lookup, c: Call)
    requires forall i :: 0 <= i < |answers| ==> Backed(answers[i], l, c)
    requires Agree(answers) && (Backed(a, l, c) || l.Absent?)
    ensures Agree(answers + [a])
  {
    var t := answers + [a];
    forall i, j | 0 <= i < j < |t| && t[i].Answer? && t[j].Answer? ensures t[i].reply == t[j].reply {
      assert Backed(t[i], l, c);
    }
  }

  lemma RunStep(s: State, env: Env, c: Call, rid: string)
    requires AnswerInv(s, c, rid) && !s.dispatched && !s.refused
    ensures AnswerInv(Advanced(s, Run(env), c, rid), c, rid)
  {
    hide OnDisk, LookAll, Recall, Relevant, Fresh, FreshReply, FirstChecks, LastChecks, KindsOf, Appended;
    var l := OnDisk(s.file, c, rid);
    SeenIsDisk(s.file, c, rid);
    var r := Dispatch(s.file, c, rid, env);
    assert Advanced(s, Run(env), c, rid) == State(r.1, true, s.refused, s.answers + [r.0]);
    if l.Found? { RecallIsReply(c, l.payload, env); }
    UnreadableLookup(s.file, c, rid);
    if FirstChecks(c, env) && env.readable && l.Absent? && LastChecks(c, env) {
      FreshRoundTrip(c, env);
      if Succeeds(env.write) { FreshOnDisk(s.file, c, rid, env); }
      assert forall i :: 0 <= i < |s.answers| ==> s.answers[i].Failed?;
    } else {
      AgreeSnoc(s.answers, r.0, l, c);
    }
  }

  lemma AnswerStep(s: State, step: Step, c: Call, rid: string)
    requires AnswerInv(s, c, rid)
    ensures AnswerInv(Advanced(s, step, c, rid), c, rid)
  {
    match step
    case Run(env) => if !s.dispatched && !s.refused { RunStep(s, env, c, rid); }
    case Elsewhere(x, w) =>
      if !Relevant(x, c, rid) { ElsewhereKeepsDisk(s.file, x, w, c, rid); }
      hide OnDisk, Appended;
    case Restart =>
  }

  lemma {:induction false} AlwaysBacked(states: seq<State>, steps: seq<Step>, c: Call, rid: string, i: nat)
    requires IsHistory(states, steps, c, rid) && i < |states|
    ensures AnswerInv(states[i], c, rid)
  {
    if i > 0 {
      var k := i - 1;
      AlwaysBacked(states, steps, c, rid, k);
      assert states[k + 1] == Advanced(states[k], steps[k], c, rid);
      AnswerStep(states[k], steps[k], c, rid);
    }
  }

  /** All successful dispatches of a request, whatever clock, event counter or task store
      each of them saw, give one and the same reply: the affair id and review time of an
      open, the review time of a defer, the task and revision of a work call. */
  lemma RepliesAgree(states: seq<State>, steps: seq<Step>, c: Call, rid: string, i: nat, a: nat, b: nat)
    requires IsHistory(states, steps, c, rid) && i < |states|
    requires a < |states[i].answers| && b < |states[i].answers|
    requires states[i].answers[a].Answer? && states[i].answers[b].Answer?
    ensures states[i].answers[a].reply == states[i].answers[b].reply
  {
    AlwaysBacked(states, steps, c, rid, i);
  }
}
