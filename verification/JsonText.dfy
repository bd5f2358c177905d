/** JSON string literals as encoding/json writes and reads them, over byte strings. */
module JsonText {
  import opened Basics
  import opened Base64Url

  // ---------- UTF-8 ----------

  predicate Continuation(c: char) { 0x80 <= c as int < 0xC0 }

  predicate InRange(c: char, lo: int, hi: int) { lo <= c as int <= hi }

  /** The length of the well-formed rune the bytes start with, 0 when they start with none. */
  function RuneLen(s: string): (n: nat)
    ensures n <= |s| && n <= 4
  {
    if s == "" then 0
    else if s[0] as int < 0x80 then 1
    else if InRange(s[0], 0xC2, 0xDF) then if |s| >= 2 && Continuation(s[1]) then 2 else 0
    else if InRange(s[0], 0xE0, 0xEF) then
      if |s| >= 3 && Continuation(s[1]) && Continuation(s[2])
         && (s[0] as int == 0xE0 ==> s[1] as int >= 0xA0) && (s[0] as int == 0xED ==> s[1] as int < 0xA0) then 3 else 0
    else if InRange(s[0], 0xF0, 0xF4) then
      if |s| >= 4 && Continuation(s[1]) && Continuation(s[2]) && Continuation(s[3])
         && (s[0] as int == 0xF0 ==> s[1] as int >= 0x90) && (s[0] as int == 0xF4 ==> s[1] as int < 0x90) then 4 else 0
    else 0
  }

  predicate ValidUtf8(s: string) { s == "" || (RuneLen(s) > 0 && ValidUtf8(s[RuneLen(s)..])) }

  const REPLACEMENT: string := [0xEF as char, 0xBF as char, 0xBD as char]

  function Utf8(r: int): string
    requires 0 <= r < 0x110000
  {
    if r < 0x80 then [r as char]
    else if r < 0x800 then [(0xC0 + r / 64) as char, (0x80 + r % 64) as char]
    else if r < 0x10000 then [(0xE0 + r / 4096) as char, (0x80 + r / 64 % 64) as char, (0x80 + r % 64) as char]
    else [(0xF0 + r / 262144) as char, (0x80 + r / 4096 % 64) as char, (0x80 + r / 64 % 64) as char,
          (0x80 + r % 64) as char]
  }

  // ---------- writing ----------

  function HexDigit(v: int): (c: char)
    requires 0 <= v < 16
    ensures HexValue(c) == Some(v)
  {
    if v < 10 then ('0' as int + v) as char else ('a' as int + v - 10) as char
  }

  function HexValue(c: char): (v: Option<int>)
    ensures v.Some? ==> 0 <= v.value < 16
  {
    if '0' <= c <= '9' then Some(c as int - '0' as int)
    else if 'a' <= c <= 'f' then Some(c as int - 'a' as int + 10)
    else if 'A' <= c <= 'F' then Some(c as int - 'A' as int + 10)
    else None
  }

  /** The line and paragraph separators, which are escaped although they are valid text. */
  predicate Separator(s: string) {
    RuneLen(s) == 3 && s[0] as int == 0xE2 && s[1] as int == 0x80 && (s[2] as int == 0xA8 || s[2] as int == 0xA9)
  }

  predicate ShortEscape(c: char) { c == '"' || c == '\\' || c as int in {8, 9, 10, 12, 13} }

  function ShortEscapeLetter(c: char): char
    requires ShortEscape(c)
  {
    match c as int case 8 => 'b' case 9 => 't' case 10 => 'n' case 12 => 'f' case 13 => 'r' case _ => c
  }

  /** What the first rune, or the first malformed byte, is written as. */
  function Written(s: string): (w: string)
    requires s != "" && IsBytes(s)
    ensures IsBytes(w)
  {
    var c := s[0];
    if c as int < 0x80 then
      if ShortEscape(c) then ['\\', ShortEscapeLetter(c)]
      else if c as int < 0x20 || c == '<' || c == '>' || c == '&' then
        ['\\', 'u', '0', '0', HexDigit(c as int / 16), HexDigit(c as int % 16)]
      else [c]
    else if RuneLen(s) == 0 then "\\ufffd"
    else if Separator(s) then ['\\', 'u', '2', '0', '2', HexDigit(s[2] as int % 16)]
    else s[..RuneLen(s)]
  }

  function Advance(s: string): (n: nat)
    requires s != ""
    ensures 1 <= n <= |s|
  {
    if RuneLen(s) == 0 then 1 else RuneLen(s)
  }

  function Body(s: string): (w: string)
    requires IsBytes(s)
    ensures IsBytes(w)
    decreases |s|
  {
    if s == "" then "" else Written(s) + Body(s[Advance(s)..])
  }

  // ---------- reading ----------

  /** The text of a literal and what follows it, from just after its opening quote. */
  type Read = Option<(string, string)>

  function Prepend(text: string, r: Read): Read {
    match r case None => None case Some((t, rest)) => Some((text + t, rest))
  }

  /** The code unit of an escape \uXXXX the text starts with. */
  function CodeUnit(s: string): (r: Option<int>)
    ensures r.Some? ==> |s| >= 6 && 0 <= r.value < 0x10000
  {
    if |s| < 6 || s[0] != '\\' || s[1] != 'u' then None
    else
      match (HexValue(s[2]), HexValue(s[3]), HexValue(s[4]), HexValue(s[5]))
      case (Some(a), Some(b), Some(c), Some(d)) => Some(a * 4096 + b * 256 + c * 16 + d)
      case _ => None
  }

  predicate High(r: int) { 0xD800 <= r < 0xDC00 }
  predicate Low(r: int) { 0xDC00 <= r < 0xE000 }

  predicate PairStarts(s: string)
    ensures PairStarts(s) ==> |s| >= 12
  {
    CodeUnit(s).Some? && High(CodeUnit(s).value) && CodeUnit(s[6..]).Some? && Low(CodeUnit(s[6..]).value)
  }

  /** A surrogate pair is one character; a lone surrogate becomes U+FFFD. */
  function UnitText(s: string): string
    requires CodeUnit(s).Some?
  {
    var r := CodeUnit(s).value;
    if PairStarts(s) then Utf8(0x10000 + (r - 0xD800) * 1024 + (CodeUnit(s[6..]).value - 0xDC00))
    else if High(r) || Low(r) then REPLACEMENT
    else Utf8(r)
  }

  function Unquote(s: string): (r: Read)
    ensures r.Some? ==> |r.value.1| < |s|
    decreases |s|
  {
    if s == "" then None
    else if s[0] == '"' then Some(("", s[1..]))
    else if s[0] as int < 0x20 then None
    else if s[0] == '\\' then Unescape(s)
    else if RuneLen(s) == 0 then Prepend(REPLACEMENT, Unquote(s[1..]))
    else Prepend(s[..RuneLen(s)], Unquote(s[RuneLen(s)..]))
  }

  function Unescape(s: string): (r: Read)
    requires s != "" && s[0] == '\\'
    ensures r.Some? ==> |r.value.1| < |s|
    decreases |s|, 0
  {
    if |s| < 2 then None
    else match s[1]
      case 'b' => Prepend([8 as char], Unquote(s[2..]))
      case 't' => Prepend([9 as char], Unquote(s[2..]))
      case 'n' => Prepend([10 as char], Unquote(s[2..]))
      case 'f' => Prepend([12 as char], Unquote(s[2..]))
      case 'r' => Prepend([13 as char], Unquote(s[2..]))
      case 'u' =>
        if CodeUnit(s).None? then None
        else Prepend(UnitText(s), Unquote(s[if PairStarts(s) then 12 else 6..]))
      case c => if c == '"' || c == '\\' || c == '/' then Prepend([c], Unquote(s[2..])) else None
  }

  // ---------- round trip ----------

  lemma RuneLenLocal(s: string, t: string)
    requires s != "" && RuneLen(s) == |s|
    ensures RuneLen(s + t) == |s|
  {
  }

  lemma RunePrefix(s: string)
    requires RuneLen(s) > 0
    ensures RuneLen(s[..RuneLen(s)]) == RuneLen(s)
  {
  }

  lemma ReadAscii(s: string, t: string)
    requires s != "" && IsBytes(s) && s[0] as int < 0x80
    ensures Unquote(Written(s) + t) == Prepend([s[0]], Unquote(t))
  {
    var c, w := s[0], Written(s);
    var all := w + t;
    if ShortEscape(c) {
      assert all[2..] == t && all[0] == '\\' && all[1] == ShortEscapeLetter(c);
    } else if |w| == 6 {
      assert all[6..] == t;
      assert CodeUnit(all) == Some(c as int);
      assert Utf8(c as int) == [c];
    } else {
      assert all[1..] == t && all[..1] == [c];
    }
  }

  lemma ReadSeparator(s: string, t: string)
    requires IsBytes(s) && s != "" && Separator(s)
    ensures Unquote(Written(s) + t) == Prepend(s[..3], Unquote(t))
  {
    var all := Written(s) + t;
    assert all[6..] == t;
    assert CodeUnit(all) == Some(0x2000 + 0x20 + s[2] as int % 16);
    assert Utf8(0x2020 + s[2] as int % 16) == s[..3];
  }

  lemma ReadRune(s: string, t: string)
    requires s != "" && IsBytes(s) && RuneLen(s) > 0
    ensures Unquote(Written(s) + t) == Prepend(s[..RuneLen(s)], Unquote(t))
  {
    var n := RuneLen(s);
    if s[0] as int < 0x80 {
      ReadAscii(s, t);
      assert s[..1] == [s[0]];
    } else if Separator(s) {
      ReadSeparator(s, t);
    } else {
      RunePrefix(s);
      RuneLenLocal(s[..n], t);
      var all := s[..n] + t;
      assert all[..n] == s[..n] && all[n..] == t;
    }
  }

  /** The text of a literal after its opening quote, and what follows. */
  function Literal(s: string, rest: string): string
    requires IsBytes(s)
  {
    Body(s) + (['"'] + rest)
  }

  lemma LiteralStep(s: string, rest: string)
    requires s != "" && IsBytes(s) && RuneLen(s) > 0
    ensures Literal(s, rest) == Written(s) + Literal(s[RuneLen(s)..], rest)
  {
  }

  lemma Assemble(s: string, n: nat, rest: string)
    requires n <= |s|
    ensures Prepend(s[..n], Some((s[n..], rest))) == Some((s, rest))
  {
    assert s[..n] + s[n..] == s;
  }

  /** What is written for valid text reads back as that text, whatever follows the literal. */
  lemma {:induction false} UnquoteLiteral(s: string, rest: string)
    requires IsBytes(s) && ValidUtf8(s)
    ensures Unquote(Literal(s, rest)) == Some((s, rest))
    decreases |s|
  {
    if s == "" {
      assert Literal("", rest) == ['"'] + rest && (['"'] + rest)[1..] == rest;
    } else {
      var tail := s[RuneLen(s)..];
      UnquoteLiteral(tail, rest);
      LiteralStep(s, rest);
      ReadRune(s, Literal(tail, rest));
      Assemble(s, RuneLen(s), rest);
    }
  }

  // ---------- what is read is valid text ----------

  predicate GoodText(s: string) { IsBytes(s) && ValidUtf8(s) }

  lemma {:induction false} Utf8Append(a: string, b: string)
    requires ValidUtf8(a) && ValidUtf8(b)
    ensures ValidUtf8(a + b)
    decreases |a|
  {
    if a == "" {
      assert a + b == b;
    } else {
      var n := RuneLen(a);
      RunePrefix(a);
      RuneLenLocal(a[..n], a[n..] + b);
      assert a[..n] + (a[n..] + b) == a + b;
      assert (a + b)[n..] == a[n..] + b;
      Utf8Append(a[n..], b);
    }
  }

  lemma OneRune(s: string)
    requires s != "" && RuneLen(s) == |s|
    ensures GoodText(s)
  {
    assert s[|s|..] == "";
  }

  lemma Utf8ThreeGood(r: int)
    requires 0x800 <= r < 0x10000 && !High(r) && !Low(r)
    ensures GoodText(Utf8(r))
  {
    var s := Utf8(r);
    assert Continuation(s[1]) && Continuation(s[2]);
    OneRune(s);
  }

  lemma Utf8FourGood(r: int)
    requires 0x10000 <= r < 0x110000
    ensures GoodText(Utf8(r))
  {
    var s := Utf8(r);
    assert Continuation(s[1]) && Continuation(s[2]) && Continuation(s[3]);
    OneRune(s);
  }

  lemma Utf8Good(r: int)
    requires 0 <= r < 0x110000 && !High(r) && !Low(r)
    ensures GoodText(Utf8(r))
  {
    if r < 0x800 {
      OneRune(Utf8(r));
    } else if r < 0x10000 {
      Utf8ThreeGood(r);
    } else {
      Utf8FourGood(r);
    }
  }

  lemma UnitTextGood(s: string)
    requires CodeUnit(s).Some?
    ensures GoodText(UnitText(s))
  {
    var r := CodeUnit(s).value;
    if PairStarts(s) {
      Utf8Good(0x10000 + (r - 0xD800) * 1024 + (CodeUnit(s[6..]).value - 0xDC00));
    } else if High(r) || Low(r) {
      OneRune(REPLACEMENT);
    } else {
      Utf8Good(r);
    }
  }

  lemma PrependGood(text: string, r: Read)
    requires GoodText(text) && (r.Some? ==> GoodText(r.value.0))
    ensures var p := Prepend(text, r); p.Some? ==> GoodText(p.value.0)
  {
    if r.Some? {
      Utf8Append(text, r.value.0);
    }
  }

  /** Whatever a literal holds, the text read from it is valid UTF-8: the rest became U+FFFD. */
  lemma {:induction false} UnquoteGood(s: string)
    ensures var r := Unquote(s); r.Some? ==> GoodText(r.value.0)
    decreases |s|, 1
  {
    if s == "" || s[0] == '"' || s[0] as int < 0x20 {
    } else if s[0] == '\\' {
      UnescapeGood(s);
    } else if RuneLen(s) == 0 {
      UnquoteGood(s[1..]);
      OneRune(REPLACEMENT);
      PrependGood(REPLACEMENT, Unquote(s[1..]));
    } else {
      var n := RuneLen(s);
      UnquoteGood(s[n..]);
      RunePrefix(s);
      OneRune(s[..n]);
      PrependGood(s[..n], Unquote(s[n..]));
    }
  }

  lemma {:induction false} UnescapeGood(s: string)
    requires s != "" && s[0] == '\\'
    ensures var r := Unescape(s); r.Some? ==> GoodText(r.value.0)
    decreases |s|, 0
  {
    if |s| >= 2 && s[1] == 'u' {
      if CodeUnit(s).Some? {
        var rest := s[if PairStarts(s) then 12 else 6..];
        UnquoteGood(rest);
        UnitTextGood(s);
        PrependGood(UnitText(s), Unquote(rest));
      }
    } else if |s| >= 2 {
      UnquoteGood(s[2..]);
      var c := match s[1] case 'b' => 8 as char case 't' => 9 as char case 'n' => 10 as char
                          case 'f' => 12 as char case 'r' => 13 as char case c => c;
      if c as int < 0x80 {
        OneRune([c]);
        PrependGood([c], Unquote(s[2..]));
      }
    }
  }

  // ---------- plain text ----------

  /** Printable ASCII without quotes, backslashes and the characters HTML cares about. */
  predicate PlainText(s: string) {
    forall i :: 0 <= i < |s| ==> ' ' <= s[i] <= '~' && s[i] !in {'"', '\\', '<', '>', '&'}
  }

  lemma PlainFirst(s: string)
    requires s != "" && PlainText(s) && IsBytes(s)
    ensures Written(s) == [s[0]] && Advance(s) == 1
  {
  }

  /** Plain text is written as it is. */
  lemma {:induction false} PlainBody(s: string)
    requires PlainText(s) && IsBytes(s)
    ensures Body(s) == s
  {
    if s != "" {
      PlainFirst(s);
      PlainBody(s[1..]);
      assert [s[0]] + s[1..] == s;
    }
  }

  /** The escapes: quote and backslash, the five named control characters, the others and <, >, & by number. */
  lemma NamedEscapes()
    ensures Written("\"") == "\\\"" && Written("\\") == "\\\\"
    ensures Written([8 as char]) == "\\b" && Written([9 as char]) == "\\t" && Written([10 as char]) == "\\n"
    ensures Written([12 as char]) == "\\f" && Written([13 as char]) == "\\r"
  {
  }

  lemma NumberedEscapes(c: char)
    requires IsByte(c) && c as int < 0x80
    ensures c as int < 0x20 && c as int !in {8, 9, 10, 12, 13} ==>
              Written([c]) == "\\u00" + [if c as int < 16 then '0' else '1', HexDigit(c as int % 16)]
    ensures c == '<' ==> Written([c]) == "\\u003c"
    ensures c == '>' ==> Written([c]) == "\\u003e"
    ensures c == '&' ==> Written([c]) == "\\u0026"
  {
  }
}
