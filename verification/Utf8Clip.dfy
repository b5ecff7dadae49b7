/** Bounded text that stays well-formed (clip_text in runtime/memory.c and read_text_clip in
    runtime/action_runtime_workers.c). A byte is a char below 256; well-formed text is
    section 3 of RFC 3629. */
module Utf8Clip {
  import Decimal

  // ----- UTF-8 -----

  predicate In(c: char, lo: int, hi: int) { lo <= c as int <= hi }

  /** The test the clippers use: (b & 0xC0) == 0x80. */
  predicate Continuation(c: char) { In(c, 0x80, 0xBF) }

  predicate Follows(s: string, from: nat, to: nat) {
    to <= |s| && forall i :: from <= i < to ==> Continuation(s[i])
  }

  /** Length of the character at the front; 0 when there is none. */
  function CharLength(s: string): (n: nat)
    ensures n <= 4 && n <= |s|
    ensures n > 0 ==> !Continuation(s[0]) && Follows(s, 1, n)
  {
    if s == "" then 0
    else if In(s[0], 0x00, 0x7F) then 1
    else if In(s[0], 0xC2, 0xDF) && Follows(s, 1, 2) then 2
    else if In(s[0], 0xE0, 0xEF) && Follows(s, 1, 3)
            && (s[0] as int == 0xE0 ==> In(s[1], 0xA0, 0xBF)) && (s[0] as int == 0xED ==> In(s[1], 0x80, 0x9F)) then 3
    else if In(s[0], 0xF0, 0xF4) && Follows(s, 1, 4)
            && (s[0] as int == 0xF0 ==> In(s[1], 0x90, 0xBF)) && (s[0] as int == 0xF4 ==> In(s[1], 0x80, 0x8F)) then 4
    else 0
  }

  predicate Valid(s: string)
    decreases |s|
  {
    s == "" || (CharLength(s) > 0 && Valid(s[CharLength(s)..]))
  }

  /** The first character does not depend on what follows it. */
  lemma CharLengthLocal(s: string, n: nat)
    requires CharLength(s) > 0 && CharLength(s) <= n <= |s|
    ensures CharLength(s[..n]) == CharLength(s)
  {
  }

  /** In well-formed text every position that is not inside a character splits it into two
      well-formed parts. */
  lemma {:induction false} SplitAtStart(s: string, n: nat)
    requires Valid(s) && n <= |s| && (n < |s| ==> !Continuation(s[n]))
    ensures Valid(s[..n]) && Valid(s[n..])
    decreases |s|
  {
    if n == 0 {
      assert s[0..] == s;
    } else {
      var k := CharLength(s);
      assert n >= k;
      var rest := s[k..];
      assert n < |s| ==> rest[n - k] == s[n];
      SplitAtStart(rest, n - k);
      assert rest[n - k..] == s[n..];
      CharLengthLocal(s, n);
      assert s[..n][k..] == rest[..n - k];
    }
  }

  /** At most three continuation bytes in a row. */
  lemma {:induction false} StartNearby(s: string, n: nat) returns (m: nat)
    requires Valid(s) && n < |s|
    ensures m <= n && n - m <= 3 && !Continuation(s[m])
    ensures forall i :: m < i <= n ==> Continuation(s[i])
    decreases |s|
  {
    var k := CharLength(s);
    if n < k {
      m := 0;
    } else {
      var rest := s[k..];
      var r := StartNearby(rest, n - k);
      m := r + k;
      assert forall i :: m < i <= n ==> s[i] == rest[i - k];
    }
  }

  // ----- clip_text -----

  /** Where the backwards loop stops. */
  function BackUp(s: string, n: nat): (m: nat)
    requires n < |s| || n == 0
    ensures m <= n && (m == 0 || !Continuation(s[m]))
    ensures forall i :: m < i <= n ==> Continuation(s[i])
  {
    if n > 0 && Continuation(s[n]) then BackUp(s, n - 1) else n
  }

  method ClipText(src: string, dstLen: nat, maxBytes: nat) returns (dst: string)
    requires dstLen >= 1
    ensures var bound := if maxBytes >= dstLen then dstLen - 1 else maxBytes;
            if |src| <= bound then dst == src else dst == src[..BackUp(src, bound)]
  {
    var max := if maxBytes >= dstLen then dstLen - 1 else maxBytes;
    var n := |src|;
    if n > max { n := StepBack(src, max); }
    dst := src[..n];
  }

  /** Clipping well-formed text never splits a character and gives up at most three bytes
      below the bound. */
  lemma ClipKeepsCharacters(s: string, bound: nat)
    requires Valid(s) && bound < |s|
    ensures var n := BackUp(s, bound);
            bound - n <= 3 && Valid(s[..n]) && Valid(s[n..])
  {
    var m := StartNearby(s, bound);
    var n := BackUp(s, bound);
    assert !Continuation(s[m]) && n >= m;
    SplitAtStart(s, n);
  }

  // ----- read_text_clip -----

  function Marker(shown: nat, total: nat): string {
    "\n[truncated by FloofClaw: " + Decimal.Printed(shown) + " of " + Decimal.Printed(total) + " bytes shown]"
  }

  predicate Blank(c: char) { c == '\n' || c == '\r' || c == ' ' || c == '\t' }

  function Trimmed(s: string): string {
    if s != "" && Blank(s[|s| - 1]) then Trimmed(s[..|s| - 1]) else s
  }

  function Kept(text: string, outLen: nat): nat
    requires |text| >= outLen
  {
    var l := |Marker(|text|, |text|)|;
    BackUp(text, if outLen > l + 1 then outLen - 1 - l else 0)
  }

  /** snprintf into what is left of the buffer. */
  function Cut(s: string, room: nat): string
    requires room >= 1
  {
    if |s| < room then s else s[..room - 1]
  }

  function Shown(text: string, outLen: nat): string
    requires outLen >= 1
  {
    if |text| < outLen then text
    else
      var keep := Kept(text, outLen);
      if keep >= outLen then "" else text[..keep] + Cut(Marker(keep, |text|), outLen - keep)
  }

  method TrimEnd(file: string) returns (text: string)
    ensures text == Trimmed(file)
  {
    var n := |file|;
    assert file[..n] == file;
    while n > 0 && Blank(file[n - 1])
      invariant 0 <= n <= |file|
      invariant Trimmed(file[..n]) == Trimmed(file)
    {
      assert file[..n][..n - 1] == file[..n - 1];
      n := n - 1;
    }
    text := file[..n];
  }

  method StepBack(text: string, from: nat) returns (n: nat)
    requires from < |text| || from == 0
    ensures n == BackUp(text, from)
  {
    n := from;
    while n > 0 && Continuation(text[n])
      invariant 0 <= n <= from
      invariant BackUp(text, n) == BackUp(text, from)
    {
      n := n - 1;
    }
  }

  method ReadTextClip(file: string, outLen: nat) returns (out: string)
    requires outLen >= 1
    ensures out == Shown(Trimmed(file), outLen)
  {
    hide Marker, BackUp, Trimmed;
    var text := TrimEnd(file);
    var n := |text|;
    if n < outLen { return text; }
    var l := |Marker(n, n)|;
    var keep := StepBack(text, if outLen > l + 1 then outLen - 1 - l else 0);
    out := text[..keep] + Cut(Marker(keep, n), outLen - keep);
  }

  lemma MarkerLength(shown: nat, total: nat)
    requires shown <= total
    ensures |Marker(0, total)| <= |Marker(shown, total)| <= |Marker(total, total)|
    ensures |Marker(shown, total)| > 1
  {
    Decimal.PrintedLengthMonotone(0, shown);
    Decimal.PrintedLengthMonotone(shown, total);
  }

  /** A text that does not fit ends in a whole marker with the exact byte counts, and fits
      the buffer, exactly when the buffer is longer than the shortest marker. */
  lemma MarkerWholeExactly(text: string, outLen: nat)
    requires outLen >= 1 && |text| >= outLen
    ensures var keep := Kept(text, outLen);
            && keep < outLen
            && |Shown(text, outLen)| < outLen
            && (Shown(text, outLen) == text[..keep] + Marker(keep, |text|) <==> outLen > |Marker(0, |text|)|)
  {
    var keep, n := Kept(text, outLen), |text|;
    var l := |Marker(n, n)|;
    MarkerLength(keep, n);
    assert outLen > l + 1 ==> keep <= outLen - 1 - l;
    assert outLen <= l + 1 ==> keep == 0;
    var m := Marker(keep, n);
    hide Marker;
    if |m| < outLen - keep {
      assert Cut(m, outLen - keep) == m;
    } else {
      assert |text[..keep] + Cut(m, outLen - keep)| < |text[..keep] + m|;
    }
  }

  lemma {:induction false} TrimKeepsValid(s: string)
    requires Valid(s)
    ensures Valid(Trimmed(s))
    decreases |s|
  {
    if s != "" && Blank(s[|s| - 1]) {
      SplitAtStart(s, |s| - 1);
      TrimKeepsValid(s[..|s| - 1]);
    }
  }

  /** What is shown of a well-formed file is cut between characters, at most three bytes
      short of the room the marker leaves. */
  lemma ShownKeepsCharacters(file: string, outLen: nat)
    requires Valid(file) && outLen >= 1 && |Trimmed(file)| >= outLen
    ensures var text := Trimmed(file);
            var keep := Kept(text, outLen);
            && Valid(text[..keep]) && Valid(text[keep..])
            && keep + 3 + |Marker(|text|, |text|)| + 1 >= outLen
  {
    var text := Trimmed(file);
    TrimKeepsValid(file);
    var l := |Marker(|text|, |text|)|;
    var room := if outLen > l + 1 then outLen - 1 - l else 0;
    assert Kept(text, outLen) == BackUp(text, room);
    hide Marker, Kept, Valid, Trimmed, BackUp;
    ClipKeepsCharacters(text, room);
  }
}
