/** Committing the first event of a claimed run (runtime/ports.c, with the torn-tail repair
    of runtime/support/fsutil.c). The claim is durable before the append, so after a failed,
    torn or misreported append the run decides from the bytes of its log whether the event
    is there.

    The log is modelled byte for byte. The event codec is a parameter: encoding adds a
    timestamp, never contains a newline, and parses back to the event (LineCodec holds one). */
module InboundClaim {
  import opened Wrappers

  datatype Event = Event(eventId: string, runId: string, kind: string, source: string, payload: string)

  datatype Codec = Codec(encode: (Event, string) -> string, parse: string -> Option<Event>)

  ghost predicate Faithful(c: Codec) {
    forall e, ts :: '\n' !in c.encode(e, ts) && c.parse(c.encode(e, ts)) == Some(e)
  }

  // ----- lines of a file -----

  function NewlineAt(s: string): (i: nat)
    ensures i <= |s| && '\n' !in s[..i] && (i < |s| ==> s[i] == '\n')
  {
    if s == "" then 0 else if s[0] == '\n' then 0
    else
      var i := 1 + NewlineAt(s[1..]);
      assert s[..i] == [s[0]] + s[1..][..i - 1];
      i
  }

  /** How many complete lines are the event. */
  function CountExact(s: string, e: Event, c: Codec): nat
    decreases |s|
  {
    var i := NewlineAt(s);
    if i == |s| then 0
    else (if c.parse(s[..i]) == Some(e) then 1 else 0) + CountExact(s[i + 1..], e, c)
  }

  predicate FirstLineExact(s: string, e: Event, c: Codec) {
    NewlineAt(s) < |s| && c.parse(s[..NewlineAt(s)]) == Some(e)
  }

  /** keep is the length of s up to and including its last newline. */
  ghost predicate IsKeep(s: string, keep: nat) {
    keep <= |s| && (keep == 0 || s[keep - 1] == '\n') && '\n' !in s[keep..]
  }

  /** Reads the file backwards in blocks until a block holds a newline. */
  method TruncateIncompleteLine(s: string, block: nat) returns (r: string)
    requires block > 0
    ensures exists keep: nat :: IsKeep(s, keep) && r == s[..keep]
  {
    if |s| == 0 || s[|s| - 1] == '\n' {
      assert IsKeep(s, |s|) && s[..|s|] == s;
      return s;
    }
    var cursor, keep := |s|, 0;
    while cursor > 0
      invariant 0 <= cursor <= |s| && 0 <= keep <= |s|
      invariant keep == 0 ==> '\n' !in s[cursor..]
      invariant keep != 0 ==> cursor == 0 && IsKeep(s, keep)
      invariant keep != 0 || cursor > 0 || IsKeep(s, 0)
    {
      var start := if cursor > block then cursor - block else 0;
      var i := cursor;
      while i > start && s[i - 1] != '\n'
        invariant start <= i <= cursor
        invariant '\n' !in s[i..]
      {
        assert s[i - 1..] == [s[i - 1]] + s[i..];
        i := i - 1;
      }
      if i > start {
        keep := i;
        cursor := 0;
      } else {
        cursor := start;
      }
    }
    r := s[..keep];
  }

  // ----- classification -----

  datatype Disk = Missing | Text(content: string)

  datatype CommitState = Exact | Absent | Conflict | IoError

  function StateOf(d: Disk, readable: bool, e: Event, c: Codec): CommitState {
    if d.Missing? then Absent
    else if !readable then IoError
    else if NewlineAt(d.content) == |d.content| then Absent
    else if FirstLineExact(d.content, e, c) then Exact
    else Conflict
  }

  // ----- the protocol -----

  /** `bytes` of the line reach the file; fewer than all of them is always an error. */
  datatype Write = Write(ts: string, bytes: nat, error: bool)

  datatype Phase = Claimed | Waiting | Ready | Rejected

  datatype Run = Run(disk: Disk, phase: Phase)

  datatype Step =
    | Create(write: Write, readable: bool)
    | Retry(readable: bool, cut: Option<string>, write: Write, readableAfter: bool)
    | Restart(readable: bool, cut: Option<string>, write: Write, readableAfter: bool)
    | Later(text: string)

  function LineOf(e: Event, w: Write, c: Codec): string {
    c.encode(e, w.ts) + ['\n']
  }

  function Content(d: Disk): string {
    if d.Missing? then "" else d.content
  }

  function Wrote(d: Disk, e: Event, w: Write, c: Codec): Disk {
    var line := LineOf(e, w, c);
    Text(Content(d) + line[..if w.bytes < |line| then w.bytes else |line|])
  }

  predicate Succeeded(e: Event, w: Write, c: Codec) {
    w.bytes >= |LineOf(e, w, c)| && !w.error
  }

  /** The repair either fails (None) or leaves what TruncateIncompleteLine leaves. */
  ghost predicate CutOf(d: Disk, cut: Option<string>) {
    cut.Some? ==> if d.Missing? then cut.value == "" else exists keep: nat :: IsKeep(d.content, keep) && cut.value == d.content[..keep]
  }

  function Recut(d: Disk, cut: string): Disk {
    if d.Missing? then Missing else Text(cut)
  }

  /** One turn of the retry loop for a waiting run. */
  function Retried(r: Run, s: Step, e: Event, c: Codec): Run
    requires s.Retry?
  {
    match StateOf(r.disk, s.readable, e, c)
    case Exact => r.(phase := Ready)
    case IoError => r
    case Conflict => r.(phase := Rejected)
    case Absent =>
      if s.cut.None? then r
      else
        var d := Wrote(Recut(r.disk, s.cut.value), e, s.write, c);
        match StateOf(d, s.readableAfter, e, c)
        case Exact => Run(d, Ready)
        case Conflict => Run(d, Rejected)
        case _ => Run(d, if Succeeded(e, s.write, c) then Ready else Waiting)
  }

  /** Startup: repair, classify, append once more if absent; anything but exact leaves the
      run for the next start. */
  function Restarted(r: Run, s: Step, e: Event, c: Codec): Run
    requires s.Restart?
  {
    if s.cut.None? then r
    else
      var d := Recut(r.disk, s.cut.value);
      match StateOf(d, s.readable, e, c)
      case Exact => Run(d, Ready)
      case IoError => r.(disk := d)
      case Conflict => r.(disk := d)
      case Absent =>
        var d' := Wrote(d, e, s.write, c);
        Run(d', if StateOf(d', s.readableAfter, e, c).Exact? then Ready else Waiting)
  }

  function Created(r: Run, s: Step, e: Event, c: Codec): Run
    requires s.Create?
  {
    var d := Wrote(r.disk, e, s.write, c);
    if Succeeded(e, s.write, c) then Run(d, Ready)
    else
      match StateOf(d, s.readable, e, c)
      case Exact => Run(d, Ready)
      case Conflict => Run(d, Rejected)
      case _ => Run(d, Waiting)
  }

  ghost function After(r: Run, s: Step, e: Event, c: Codec): Run {
    match s
    case Create(_, _) => if r.phase.Claimed? then Created(r, s, e, c) else r
    case Retry(_, cut, _, _) => if r.phase.Waiting? && CutOf(r.disk, cut) then Retried(r, s, e, c) else r
    case Restart(_, cut, _, _) => if r.phase.Waiting? && CutOf(r.disk, cut) then Restarted(r, s, e, c) else r
    case Later(text) =>
      // The run's other events come after its first one and carry later event numbers.
      if r.disk.Missing? || NewlineAt(r.disk.content) == |r.disk.content|
         || CountExact(r.disk.content + text, e, c) != CountExact(r.disk.content, e, c)
      then r else r.(disk := Text(r.disk.content + text))
  }

  ghost predicate IsHistory(runs: seq<Run>, steps: seq<Step>, e: Event, c: Codec) {
    && |runs| == |steps| + 1
    && runs[0] == Run(Missing, Claimed)
    && forall i :: 0 <= i < |steps| ==> runs[i + 1] == After(runs[i], steps[i], e, c)
  }

  // ----- laws -----

  lemma NewlineUnique(s: string, i: nat)
    requires i <= |s| && '\n' !in s[..i] && (i < |s| ==> s[i] == '\n')
    ensures NewlineAt(s) == i
  {
    InSlice(s, 0, i);
    InSlice(s, 0, NewlineAt(s));
  }

  lemma InSlice(s: string, lo: nat, hi: nat)
    requires lo <= hi <= |s|
    ensures forall i :: lo <= i < hi ==> s[i] in s[lo..hi]
  {
    forall i | lo <= i < hi ensures s[i] in s[lo..hi] { assert s[lo..hi][i - lo] == s[i]; }
  }

  lemma NoNewline(s: string, e: Event, c: Codec)
    requires '\n' !in s
    ensures NewlineAt(s) == |s| && CountExact(s, e, c) == 0
  {
    assert s[..|s|] == s;
    NewlineUnique(s, |s|);
  }

  /** A whole line written to an empty log is the exact first line, and the only one. */
  lemma WholeLine(e: Event, w: Write, c: Codec)
    requires Faithful(c)
    ensures FirstLineExact(LineOf(e, w, c), e, c) && CountExact(LineOf(e, w, c), e, c) == 1
  {
    var enc := c.encode(e, w.ts);
    var s := LineOf(e, w, c);
    assert s[..|enc|] == enc && s[|enc|] == '\n';
    NewlineUnique(s, |enc|);
    NoNewline(s[|enc| + 1..], e, c);
  }

  lemma PartLine(e: Event, w: Write, c: Codec)
    requires Faithful(c) && w.bytes < |LineOf(e, w, c)|
    ensures '\n' !in LineOf(e, w, c)[..w.bytes]
  {
    var enc := c.encode(e, w.ts);
    assert LineOf(e, w, c)[..w.bytes] == enc[..w.bytes];
    forall i | 0 <= i < w.bytes ensures enc[..w.bytes][i] != '\n' { assert enc[i] in enc; }
  }

  lemma KeepBounds(s: string, keep: nat)
    requires IsKeep(s, keep)
    ensures if NewlineAt(s) < |s| then NewlineAt(s) < keep else keep == 0
  {
    InSlice(s, 0, NewlineAt(s));
    InSlice(s, keep, |s|);
  }

  lemma Slices(s: string, i: nat, keep: nat)
    requires i < keep <= |s|
    ensures s[..keep][..i] == s[..i] && s[..keep][i] == s[i]
    ensures s[..keep][i + 1..] == s[i + 1..][..keep - i - 1]
    ensures s[i + 1..][keep - i - 1..] == s[keep..]
    ensures keep > i + 1 ==> s[i + 1..][keep - i - 2] == s[keep - 1]
  {
  }

  lemma KeepRest(s: string, keep: nat)
    requires IsKeep(s, keep) && NewlineAt(s) < |s|
    ensures NewlineAt(s) < keep && IsKeep(s[NewlineAt(s) + 1..], keep - NewlineAt(s) - 1)
    ensures NewlineAt(s[..keep]) == NewlineAt(s)
  {
    hide NewlineAt;
    KeepBounds(s, keep);
    Slices(s, NewlineAt(s), keep);
    NewlineUnique(s[..keep], NewlineAt(s));
  }

  lemma CountUnfold(s: string, i: nat, e: Event, c: Codec)
    requires NewlineAt(s) == i < |s|
    ensures CountExact(s, e, c) == (if c.parse(s[..i]) == Some(e) then 1 else 0) + CountExact(s[i + 1..], e, c)
    ensures FirstLineExact(s, e, c) <==> c.parse(s[..i]) == Some(e)
  {
  }

  /** Repairing a torn tail changes neither the first line nor the number of events. */
  lemma {:induction false} CutKeepsCount(s: string, keep: nat, e: Event, c: Codec)
    requires IsKeep(s, keep)
    ensures CountExact(s[..keep], e, c) == CountExact(s, e, c)
    ensures FirstLineExact(s, e, c) ==> FirstLineExact(s[..keep], e, c)
    decreases |s|
  {
    var i := NewlineAt(s);
    KeepBounds(s, keep);
    if i == |s| {
      NoNewline(s[..0], e, c);
      hide NewlineAt;
    } else {
      KeepRest(s, keep);
      Slices(s, i, keep);
      CountUnfold(s, i, e, c);
      CountUnfold(s[..keep], i, e, c);
      hide NewlineAt, CountExact, FirstLineExact;
      CutKeepsCount(s[i + 1..], keep - i - 1, e, c);
    }
  }

  /** Nothing complete yet, or the event is the first line and occurs once. */
  ghost predicate DiskInv(d: Disk, e: Event, c: Codec) {
    || '\n' !in Content(d)
    || (FirstLineExact(Content(d), e, c) && CountExact(Content(d), e, c) == 1)
  }

  ghost predicate Inv(r: Run, e: Event, c: Codec) {
    && DiskInv(r.disk, e, c)
    && !r.phase.Rejected?
    && (r.phase.Claimed? ==> r.disk.Missing?)
    && (r.phase.Ready? ==> FirstLineExact(Content(r.disk), e, c))
  }

  lemma WroteInv(d: Disk, e: Event, w: Write, c: Codec)
    requires Faithful(c) && Content(d) == ""
    ensures DiskInv(Wrote(d, e, w, c), e, c)
    ensures w.bytes >= |LineOf(e, w, c)| ==> FirstLineExact(Content(Wrote(d, e, w, c)), e, c)
  {
    var line := LineOf(e, w, c);
    if w.bytes < |line| {
      PartLine(e, w, c);
      assert "" + line[..w.bytes] == line[..w.bytes];
    } else {
      WholeLine(e, w, c);
      assert "" + line[..|line|] == line;
    }
  }

  lemma Classified(d: Disk, readable: bool, e: Event, c: Codec)
    requires DiskInv(d, e, c)
    ensures !StateOf(d, readable, e, c).Conflict?
    ensures StateOf(d, readable, e, c).Exact? ==> FirstLineExact(Content(d), e, c)
    ensures StateOf(d, readable, e, c).Absent? ==> '\n' !in Content(d)
  {
    if '\n' !in Content(d) { NoNewline(Content(d), e, c); }
  }

  lemma CutInv(d: Disk, cut: string, e: Event, c: Codec)
    requires DiskInv(d, e, c) && CutOf(d, Some(cut))
    ensures DiskInv(Recut(d, cut), e, c)
    ensures '\n' !in Content(d) ==> Content(Recut(d, cut)) == ""
  {
    if d.Text? {
      var keep: nat :| IsKeep(d.content, keep) && cut == d.content[..keep];
      CutKeepsCount(d.content, keep, e, c);
      if '\n' !in d.content { NoNewline(d.content, e, c); }
    }
  }

  lemma StepInv(r: Run, s: Step, e: Event, c: Codec)
    requires Faithful(c) && Inv(r, e, c)
    ensures Inv(After(r, s, e, c), e, c)
  {
    match s
    case Create(w, readable) =>
      if r.phase.Claimed? {
        WroteInv(r.disk, e, w, c);
        Classified(Wrote(r.disk, e, w, c), readable, e, c);
      }
    case Retry(readable, cut, w, after) =>
      if r.phase.Waiting? && CutOf(r.disk, cut) {
        Classified(r.disk, readable, e, c);
        if cut.Some? && StateOf(r.disk, readable, e, c).Absent? {
          AppendAfterCut(r.disk, cut.value, w, after, e, c);
        }
      }
    case Restart(readable, cut, w, after) =>
      if r.phase.Waiting? && CutOf(r.disk, cut) && cut.Some? {
        CutInv(r.disk, cut.value, e, c);
        var d := Recut(r.disk, cut.value);
        Classified(d, readable, e, c);
        RestartRepairs(r.disk, cut.value, readable, w, after, e, c);
      }
    case Later(text) =>
      if After(r, s, e, c) != r { LaterInv(r.disk.content, text, e, c); }
  }

  lemma AppendAfterCut(d: Disk, cut: string, w: Write, readable: bool, e: Event, c: Codec)
    requires Faithful(c) && DiskInv(d, e, c) && CutOf(d, Some(cut)) && '\n' !in Content(d)
    ensures var d' := Wrote(Recut(d, cut), e, w, c);
            && DiskInv(d', e, c) && !StateOf(d', readable, e, c).Conflict?
            && (StateOf(d', readable, e, c).Exact? || Succeeded(e, w, c) ==> FirstLineExact(Content(d'), e, c))
  {
    CutInv(d, cut, e, c);
    WroteInv(Recut(d, cut), e, w, c);
    Classified(Wrote(Recut(d, cut), e, w, c), readable, e, c);
  }

  lemma RestartRepairs(d: Disk, cut: string, readable: bool, w: Write, after: bool, e: Event, c: Codec)
    requires Faithful(c) && DiskInv(d, e, c) && CutOf(d, Some(cut))
    ensures StateOf(Recut(d, cut), readable, e, c).Absent? ==>
            var d' := Wrote(Recut(d, cut), e, w, c);
            && DiskInv(d', e, c)
            && (StateOf(d', after, e, c).Exact? ==> FirstLineExact(Content(d'), e, c))
  {
    CutInv(d, cut, e, c);
    Classified(Recut(d, cut), readable, e, c);
    if StateOf(Recut(d, cut), readable, e, c).Absent? {
      CutLeavesLines(d, cut);
      WroteInv(Recut(d, cut), e, w, c);
      Classified(Wrote(Recut(d, cut), e, w, c), after, e, c);
    }
  }

  /** What the repair leaves is empty or ends in a newline. */
  lemma CutLeavesLines(d: Disk, cut: string)
    requires CutOf(d, Some(cut))
    ensures '\n' !in Content(Recut(d, cut)) ==> Content(Recut(d, cut)) == ""
  {
    if d.Text? {
      var keep: nat :| IsKeep(d.content, keep) && cut == d.content[..keep];
      InSlice(cut, 0, |cut|);
      assert keep > 0 ==> cut[keep - 1] in cut[0..|cut|];
    }
  }

  lemma LaterInv(s: string, text: string, e: Event, c: Codec)
    requires NewlineAt(s) < |s| && FirstLineExact(s, e, c)
    ensures FirstLineExact(s + text, e, c)
  {
    var i := NewlineAt(s);
    assert (s + text)[..i] == s[..i] && (s + text)[i] == '\n';
    NewlineUnique(s + text, i);
  }

  lemma {:induction false} AlwaysInv(runs: seq<Run>, steps: seq<Step>, e: Event, c: Codec, i: nat)
    requires Faithful(c) && IsHistory(runs, steps, e, c) && i < |runs|
    ensures Inv(runs[i], e, c)
  {
    if i > 0 {
      var k := i - 1;
      AlwaysInv(runs, steps, e, c, k);
      assert runs[k + 1] == After(runs[k], steps[k], e, c);
      StepInv(runs[k], steps[k], e, c);
    }
  }

  /** A run is ready only when the first complete line of its log is exactly the expected
      event; however appends fail, tear or misreport, the event is on the log at most once;
      and the conflict branch is never taken. */
  lemma ReadyMeansExactOnce(runs: seq<Run>, steps: seq<Step>, e: Event, c: Codec, i: nat)
    requires Faithful(c) && IsHistory(runs, steps, e, c) && i < |runs|
    ensures runs[i].phase.Ready? ==> FirstLineExact(Content(runs[i].disk), e, c)
    ensures CountExact(Content(runs[i].disk), e, c) <= 1
    ensures !runs[i].phase.Rejected?
  {
    AlwaysInv(runs, steps, e, c, i);
    if '\n' !in Content(runs[i].disk) { NoNewline(Content(runs[i].disk), e, c); }
  }

  /** And a waiting run is never stuck: one readable retry whose append completes, even one
      that reports an error, makes it ready. */
  lemma RetryCompletes(r: Run, cut: string, w: Write, e: Event, c: Codec)
    requires Faithful(c) && Inv(r, e, c) && r.phase.Waiting?
    requires CutOf(r.disk, Some(cut)) && w.bytes >= |LineOf(e, w, c)|
    ensures After(r, Retry(true, Some(cut), w, true), e, c).phase.Ready?
  {
    Classified(r.disk, true, e, c);
    if StateOf(r.disk, true, e, c).Absent? {
      CutInv(r.disk, cut, e, c);
      WroteInv(Recut(r.disk, cut), e, w, c);
    }
  }
}
