/** A codec with the properties InboundClaim asks of one: the fields of an event, after a
    timestamp, as quoted texts in which newline, quote and backslash are escaped, the way the
    event lines of the run log escape theirs. */
module LineCodec {
  import opened Wrappers
  import opened InboundClaim

  function EscapedChar(ch: char): (r: string)
    ensures '\n' !in r
  {
    if ch == '\n' then ['\\', 'n'] else if ch == '\\' || ch == '\"' then ['\\', ch] else [ch]
  }

  /** The text with its closing quote. */
  function Escaped(s: string): (r: string)
    ensures '\n' !in r
  {
    if s == "" then ['\"'] else EscapedChar(s[0]) + Escaped(s[1..])
  }

  /** Reads up to the closing quote; what follows it comes second. */
  function Unescaped(t: string): (r: Option<(string, string)>)
    ensures r.Some? ==> |r.value.1| < |t|
  {
    if t == "" then None
    else if t[0] == '\"' then Some(("", t[1..]))
    else if t[0] != '\\' then Prefixed(t[0], Unescaped(t[1..]))
    else if |t| == 1 then None
    else Prefixed(if t[1] == 'n' then '\n' else t[1], Unescaped(t[2..]))
  }

  function Prefixed(ch: char, r: Option<(string, string)>): Option<(string, string)> {
    if r.None? then None else Some(([ch] + r.value.0, r.value.1))
  }

  lemma CharRoundTrip(ch: char, more: string)
    ensures Unescaped(EscapedChar(ch) + more) == Prefixed(ch, Unescaped(more))
  {
    var x := EscapedChar(ch);
    assert (x + more)[|x|..] == more;
  }

  lemma {:induction false} TextRoundTrip(s: string, rest: string)
    ensures Unescaped(Escaped(s) + rest) == Some((s, rest))
  {
    if s == "" {
      assert (Escaped(s) + rest)[1..] == rest;
    } else {
      TextRoundTrip(s[1..], rest);
      hide Unescaped, EscapedChar;
      CharRoundTrip(s[0], Escaped(s[1..]) + rest);
      assert EscapedChar(s[0]) + (Escaped(s[1..]) + rest) == Escaped(s) + rest;
      assert s == [s[0]] + s[1..];
    }
  }

  function Joined(fields: seq<string>): (r: string)
    ensures '\n' !in r
  {
    if fields == [] then "" else Escaped(fields[0]) + Joined(fields[1..])
  }

  function Split(t: string, n: nat): Option<seq<string>>
    decreases n
  {
    if n == 0 then (if t == "" then Some([]) else None)
    else
      var first := Unescaped(t);
      if first.None? then None
      else
        var more := Split(first.value.1, n - 1);
        if more.None? then None else Some([first.value.0] + more.value)
  }

  lemma {:induction false} FieldsRoundTrip(fields: seq<string>)
    ensures Split(Joined(fields), |fields|) == Some(fields)
  {
    if fields != [] {
      TextRoundTrip(fields[0], Joined(fields[1..]));
      FieldsRoundTrip(fields[1..]);
      assert [fields[0]] + fields[1..] == fields;
    }
  }

  function EncodeEvent(e: Event, ts: string): string {
    Joined([ts, e.eventId, e.runId, e.kind, e.source, e.payload])
  }

  function ParseEvent(line: string): Option<Event> {
    var f := Split(line, 6);
    if f.None? || |f.value| != 6 then None
    else Some(Event(f.value[1], f.value[2], f.value[3], f.value[4], f.value[5]))
  }

  const Lines := Codec((e, ts) => EncodeEvent(e, ts), line => ParseEvent(line))

  /** The hypothesis of InboundClaim can be met. */
  lemma LinesAreFaithful()
    ensures Faithful(Lines)
  {
    forall e, ts ensures '\n' !in Lines.encode(e, ts) && Lines.parse(Lines.encode(e, ts)) == Some(e) {
      FieldsRoundTrip([ts, e.eventId, e.runId, e.kind, e.source, e.payload]);
    }
  }
}
