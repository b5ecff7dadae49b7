/** Decoding JSON strings (json_ref_string_copy in runtime/support/json.c). Text is bytes,
    one per char; an escaped code point is written as UTF-8. */
module JsonString {
  import opened Wrappers
  import opened JsonText
  import Decimal

  function HexValue(c: char): (n: nat)
    requires IsHex(c)
    ensures n < 16
  {
    if Decimal.IsDigit(c) then (c - '0') as int
    else if 'a' <= c <= 'f' then 10 + (c - 'a') as int
    else 10 + (c - 'A') as int
  }

  function Hex4(s: string): (r: Option<nat>)
    ensures r.Some? ==> r.value <= 0xFFFF
  {
    if |s| < 4 || !IsHex(s[0]) || !IsHex(s[1]) || !IsHex(s[2]) || !IsHex(s[3]) then None
    else Some(((HexValue(s[0]) * 16 + HexValue(s[1])) * 16 + HexValue(s[2])) * 16 + HexValue(s[3]))
  }

  function Byte(n: nat): char { (n % 256) as char }

  function Utf8(cp: nat): (b: string)
    ensures 1 <= |b| <= 4 && (cp <= 0xFFFF ==> |b| <= 3)
  {
    if cp <= 0x7F then [Byte(cp)]
    else if cp <= 0x7FF then [Byte(0xC0 + cp / 64), Byte(0x80 + cp % 64)]
    else if cp <= 0xFFFF then [Byte(0xE0 + cp / 4096), Byte(0x80 + cp / 64 % 64), Byte(0x80 + cp % 64)]
    else [Byte(0xF0 + cp / 262144), Byte(0x80 + cp / 4096 % 64), Byte(0x80 + cp / 64 % 64), Byte(0x80 + cp % 64)]
  }

  function Unescaped(c: char): char
    requires IsEscape(c)
  {
    match c
    case 'b' => 8 as char
    case 'f' => 12 as char
    case 'n' => '\n'
    case 'r' => '\r'
    case 't' => '\t'
    case _ => c
  }

  /** The code point of an escape whose hex digits start at s, and how many characters of s it
      takes; None when it is malformed. */
  function Escape(s: string): (r: Option<(nat, nat)>)
    ensures r.Some? ==> 4 <= r.value.1 <= |s| && (r.value.1 < 10 ==> r.value.0 <= 0xFFFF && r.value.1 == 4)
                        && r.value.1 <= 10
  {
    var hi := Hex4(s);
    if hi.None? || 0xDC00 <= hi.value <= 0xDFFF then None
    else if 0xD800 <= hi.value <= 0xDBFF then
      if |s| < 10 || s[4] != '\\' || s[5] != 'u' then None
      else
        var lo := Hex4(s[6..]);
        if lo.None? || !(0xDC00 <= lo.value <= 0xDFFF) then None
        else Some((0x10000 + (hi.value - 0xD800) * 1024 + (lo.value - 0xDC00), 10))
    else Some((hi.value, 4))
  }

  function Prepend(head: string, tail: Option<string>): Option<string> {
    if tail.None? then None else Some(head + tail.value)
  }

  /** The decoded text up to the closing quote, into a buffer of cap bytes of which `used`
      are taken. */
  function DecodeBody(s: string, used: nat, cap: nat): Option<string>
    decreases |s|
  {
    if s == "" then None
    else if s[0] == '"' then (if used >= cap then None else Some(""))
    else if s[0] == '\\' then
      if |s| < 2 then None
      else if s[1] == 'u' then
        var e := Escape(s[2..]);
        if e.None? || used + |Utf8(e.value.0)| >= cap then None
        else Prepend(Utf8(e.value.0), DecodeBody(s[2 + e.value.1..], used + |Utf8(e.value.0)|, cap))
      else if IsEscape(s[1]) && used + 1 < cap then Prepend([Unescaped(s[1])], DecodeBody(s[2..], used + 1, cap))
      else None
    else if used + 1 >= cap || s[0] as int < 0x20 then None
    else Prepend([s[0]], DecodeBody(s[1..], used + 1, cap))
  }

  /** The decoded string of a value's text; None for anything but a string that fits. */
  function Decode(v: string, cap: nat): Option<string> {
    if v == "" || v[0] != '"' then None else DecodeBody(v[1..], 0, cap)
  }

  // ----- plain strings -----

  predicate PlainChar(c: char) { c != '"' && c != '\\' && c as int >= 0x20 }

  predicate Plain(id: string) { forall i :: 0 <= i < |id| ==> PlainChar(id[i]) }

  function Quoted(id: string): string { ['"'] + id + ['"'] }

  lemma {:induction false} PlainBody(id: string, rest: string, used: nat, cap: nat)
    requires Plain(id)
    ensures var s := id + (['"'] + rest);
            && BodyLen(s) == |id| + 1
            && DecodeBody(s, used, cap) == if used + |id| < cap then Some(id) else None
  {
    var s := id + (['"'] + rest);
    if id != "" {
      assert s[0] == id[0] && PlainChar(id[0]) && s[1..] == id[1..] + (['"'] + rest);
      PlainBody(id[1..], rest, used + 1, cap);
      assert [id[0]] + id[1..] == id;
    } else {
      assert s[0] == '"';
    }
  }

  /** A quoted plain text is one JSON string, whatever follows it. */
  lemma QuotedLength(id: string, rest: string)
    requires Plain(id)
    ensures ValueLen(Quoted(id) + rest) == |id| + 2
  {
    var s := Quoted(id) + rest;
    assert s[0] == '"' && s[1..] == id + (['"'] + rest);
    PlainBody(id, rest, 0, 0);
    hide BodyLen;
  }

  lemma {:induction false} DecodedLength(s: string, used: nat, cap: nat)
    requires DecodeBody(s + ['"'], used, cap).Some?
    ensures var x := DecodeBody(s + ['"'], used, cap).value;
            |x| <= |s| && (|x| == |s| ==> x == s && Plain(s) && used + |s| < cap)
    decreases |s|
  {
    var q := s + ['"'];
    if s != "" && s[0] != '"' {
      assert q[0] == s[0];
      if s[0] == '\\' {
        EscapeShrinks(s, used, cap);
      } else {
        assert q[1..] == s[1..] + ['"'];
        DecodedLength(s[1..], used + 1, cap);
      }
    }
  }

  lemma {:induction false} EscapeShrinks(s: string, used: nat, cap: nat)
    requires s != "" && s[0] == '\\' && DecodeBody(s + ['"'], used, cap).Some?
    ensures |DecodeBody(s + ['"'], used, cap).value| < |s|
    decreases |s|, 0
  {
    var q := s + ['"'];
    assert q[0] == '\\';
    if q[1] == 'u' {
      var e := Escape(q[2..]).value;
      var k := 2 + e.1;
      InsideQuote(s, e.1);
      assert q[k..] == s[k..] + ['"'];
      DecodedLength(s[k..], used + |Utf8(e.0)|, cap);
    } else if |s| >= 2 {
      assert q[2..] == s[2..] + ['"'];
      DecodedLength(s[2..], used + 1, cap);
    }
  }

  /** An escape cannot reach over the final quote. */
  lemma InsideQuote(s: string, n: nat)
    requires |s| >= 1 && (s + ['"'])[1] == 'u' && Escape((s + ['"'])[2..]).Some? && n == Escape((s + ['"'])[2..]).value.1
    ensures 2 + n <= |s|
  {
    var t := (s + ['"'])[2..];
    assert t[|t| - 1] == '"' && !IsHex('"');
    if n == 4 {
      assert IsHex(t[3]);
    } else {
      assert IsHex(t[6..][3]) && t[6..][3] == t[9];
    }
  }

  /** Putting quotes around an id gives a string that decodes to the id exactly when the id has
      no quote, backslash or control character and fits the buffer. */
  lemma QuotedDecodes(id: string, cap: nat)
    ensures Decode(Quoted(id), cap) == Some(id) <==> Plain(id) && |id| < cap
  {
    assert Quoted(id)[1..] == id + ['"'];
    if Plain(id) {
      PlainBody(id, "", 0, cap);
      assert ['"'] + "" == ['"'];
    }
    if Decode(Quoted(id), cap) == Some(id) { DecodedLength(id, 0, cap); }
  }
}
