/**
 JSON strings: the text `json.dumps(value, ensure_ascii=False)` writes, and a reader for the
 string grammar of section 7 of RFC 8259, with every escape and surrogate pairs.
 */
module JsonStrings {
  import opened Common

  function HexChar(d: nat): char
    requires d < 16
  {
    if d < 10 then ('0' as int + d) as char else ('a' as int + d - 10) as char
  }

  function HexValue(c: char): (d: Option<nat>)
    ensures d.Some? ==> d.value < 16
  {
    if '0' <= c <= '9' then Some(c as int - '0' as int)
    else if 'a' <= c <= 'f' then Some(c as int - 'a' as int + 10)
    else if 'A' <= c <= 'F' then Some(c as int - 'A' as int + 10)
    else None
  }

  // ----- writing -----

  /** The control characters that have an escape of two characters. */
  const NEWLINE: char := 10 as char
  const RETURN: char := 13 as char
  const TAB: char := 9 as char
  const BACKSPACE: char := 8 as char
  const FORM_FEED: char := 12 as char

  function Escape(c: char): string {
    if c == '\"' then ['\\', '\"']
    else if c == '\\' then ['\\', '\\']
    else if c == NEWLINE then ['\\', 'n']
    else if c == RETURN then ['\\', 'r']
    else if c == TAB then ['\\', 't']
    else if c == BACKSPACE then ['\\', 'b']
    else if c == FORM_FEED then ['\\', 'f']
    else if c < ' ' then ['\\', 'u', '0', '0', HexChar(c as int / 16), HexChar(c as int % 16)]
    else [c]
  }

  function Body(s: string): string {
    if s == "" then "" else Escape(s[0]) + Body(s[1..])
  }

  /** The string in quotes. */
  function Quoted(s: string): string {
    ['\"'] + Body(s) + ['\"']
  }

  // ----- reading -----

  /** Four hexadecimal digits at the start of `s`. */
  function ReadHex(s: string): (n: Option<nat>)
    ensures n.Some? ==> n.value < 0x10000 && |s| >= 4
  {
    if |s| < 4 then None
    else
      var (a, b, c, d) := (HexValue(s[0]), HexValue(s[1]), HexValue(s[2]), HexValue(s[3]));
      if a.Some? && b.Some? && c.Some? && d.Some? then
        Some(a.value * 4096 + b.value * 256 + c.value * 16 + d.value)
      else None
  }

  /** What follows `\u`: one code unit, or the two of a surrogate pair. A lone surrogate is no character. */
  function ReadUnicode(s: string): (r: Option<(char, string)>)
    ensures r.Some? ==> |r.value.1| < |s|
  {
    match ReadHex(s)
    case None => None
    case Some(high) =>
      if high < 0xD800 || 0xE000 <= high then Some((high as char, s[4..]))
      else if high >= 0xDC00 || |s| < 6 || s[4] != '\\' || s[5] != 'u' then None
      else
        match ReadHex(s[6..])
        case None => None
        case Some(low) =>
          if low < 0xDC00 || 0xE000 <= low then None
          else Some(((0x10000 + (high - 0xD800) * 0x400 + (low - 0xDC00)) as char, s[10..]))
  }

  /** One character of a string body, escaped or not. */
  function ReadChar(s: string): (r: Option<(char, string)>)
    ensures r.Some? ==> |r.value.1| < |s|
  {
    if s == "" || s[0] < ' ' then None
    else if s[0] != '\\' then Some((s[0], s[1..]))
    else if |s| == 1 then None
    else if s[1] == '\"' || s[1] == '\\' || s[1] == '/' then Some((s[1], s[2..]))
    else if s[1] == 'n' then Some((NEWLINE, s[2..]))
    else if s[1] == 'r' then Some((RETURN, s[2..]))
    else if s[1] == 't' then Some((TAB, s[2..]))
    else if s[1] == 'b' then Some((BACKSPACE, s[2..]))
    else if s[1] == 'f' then Some((FORM_FEED, s[2..]))
    else if s[1] == 'u' then ReadUnicode(s[2..])
    else None
  }

  /** A string body up to its closing quote. */
  function ReadBody(s: string): (r: Option<(string, string)>)
    ensures r.Some? ==> |r.value.1| < |s|
    decreases |s|
  {
    if s == "" then None
    else if s[0] == '\"' then Some(("", s[1..]))
    else
      match ReadChar(s)
      case None => None
      case Some((c, afterChar)) =>
        match ReadBody(afterChar)
        case None => None
        case Some((text, rest)) => Some(([c] + text, rest))
  }

  // ----- round trip -----

  lemma {:induction false} HexRoundTrip(d: nat)
    requires d < 16
    ensures HexValue(HexChar(d)) == Some(d)
  {
  }

  lemma {:induction false} ReadsControl(c: char, rest: string)
    requires c < ' '
    ensures ReadUnicode(['0', '0', HexChar(c as int / 16), HexChar(c as int % 16)] + rest) == Some((c, rest))
  {
    var s := ['0', '0', HexChar(c as int / 16), HexChar(c as int % 16)] + rest;
    HexRoundTrip(c as int / 16);
    HexRoundTrip(c as int % 16);
    assert ReadHex(s) == Some(c as int);
    assert s[4..] == rest;
  }

  lemma {:induction false} ReadsEscape(c: char, rest: string)
    ensures ReadChar(Escape(c) + rest) == Some((c, rest))
    ensures (Escape(c) + rest)[0] != '\"'
  {
    var s := Escape(c) + rest;
    if |Escape(c)| == 6 {
      ReadsControl(c, rest);
      assert s[2..] == ['0', '0', HexChar(c as int / 16), HexChar(c as int % 16)] + rest;
    } else if |Escape(c)| == 2 {
      assert s[2..] == rest;
    } else {
      assert s[1..] == rest;
    }
  }

  lemma {:induction false} ReadsNext(c: char, after: string, text: string, rest: string)
    requires ReadBody(after) == Some((text, rest))
    ensures ReadBody(Escape(c) + after) == Some(([c] + text, rest))
  {
    ReadsEscape(c, after);
  }

  lemma {:induction false} RegroupBody(first: string, others: string, close: string, rest: string)
    ensures first + others + close + rest == first + (others + close + rest)
  {
  }

  /** Reading a written string gives the string back, and leaves what follows. */
  lemma {:induction false} ReadsBody(s: string, rest: string)
    ensures ReadBody(Body(s) + ['\"'] + rest) == Some((s, rest))
  {
    if s == "" {
      assert Body(s) + ['\"'] + rest == ['\"'] + rest;
      assert (['\"'] + rest)[1..] == rest;
    } else {
      ReadsBody(s[1..], rest);
      ReadsNext(s[0], Body(s[1..]) + ['\"'] + rest, s[1..], rest);
      RegroupBody(Escape(s[0]), Body(s[1..]), ['\"'], rest);
      assert s == [s[0]] + s[1..];
    }
  }

  lemma {:induction false} ReadsQuoted(s: string, rest: string)
    ensures Quoted(s) + rest == ['\"'] + (Body(s) + ['\"'] + rest)
    ensures ReadBody((Quoted(s) + rest)[1..]) == Some((s, rest))
  {
    var after := Body(s) + ['\"'] + rest;
    assert Quoted(s) + rest == ['\"'] + after;
    assert (['\"'] + after)[1..] == after;
    ReadsBody(s, rest);
  }

  // ----- what is escaped -----

  /** A character that stands for itself: no quote, no backslash, no control character. */
  predicate Ordinary(c: char) {
    c != '\"' && c != '\\' && c as int >= 32
  }

  /** Text without quotes, backslashes and control characters is written as it is, whatever its script. */
  lemma {:induction false} OrdinaryText(s: string)
    requires forall i :: 0 <= i < |s| ==> Ordinary(s[i])
    ensures Quoted(s) == "\"" + s + "\""
  {
    OrdinaryBody(s);
  }

  lemma {:induction false} OrdinaryBody(s: string)
    requires forall i :: 0 <= i < |s| ==> Ordinary(s[i])
    ensures Body(s) == s
  {
    if s != "" {
      OrdinaryBody(s[1..]);
      assert s == [s[0]] + s[1..];
    }
  }

  /** Every character is written on its own. */
  lemma {:induction false} BodyConcat(s: string, t: string)
    ensures Body(s + t) == Body(s) + Body(t)
  {
    if s == "" {
      assert s + t == t;
    } else {
      BodyConcat(s[1..], t);
      assert (s + t)[1..] == s[1..] + t;
    }
  }

  /** The others are escaped by a backslash and one character where there is one, and by four digits otherwise. */
  lemma {:induction false} EscapedCharacter(c: char)
    requires !Ordinary(c)
    ensures |Escape(c)| == (if c as int in {8, 9, 10, 12, 13, 34, 92} then 2 else 6) && Escape(c)[0] == '\\'
    ensures c == '\"' || c == '\\' ==> Escape(c)[1] == c
    ensures c as int == 8 ==> Escape(c)[1] == 'b'
    ensures c as int == 9 ==> Escape(c)[1] == 't'
    ensures c as int == 10 ==> Escape(c)[1] == 'n'
    ensures c as int == 12 ==> Escape(c)[1] == 'f'
    ensures c as int == 13 ==> Escape(c)[1] == 'r'
    ensures |Escape(c)| == 6 ==> Escape(c)[1..4] == "u00" && (Escape(c)[4] == '0' || Escape(c)[4] == '1')
    ensures |Escape(c)| == 6 ==> IsLowerHex(Escape(c)[5])
  {
  }

  predicate IsLowerHex(c: char) {
    '0' <= c <= '9' || 'a' <= c <= 'f'
  }
}
