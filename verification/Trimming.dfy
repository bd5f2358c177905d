/** strings.TrimSpace and strings.Split over byte strings holding UTF-8. */
module Trimming {
  import opened Basics
  import opened Base64Url
  import opened JsonText

  /** The UTF-8 encodings of the characters unicode.IsSpace accepts. */
  predicate IsSpace(r: string) {
    match |r|
    case 1 => r[0] == ' ' || InRange(r[0], 9, 13)
    case 2 => r[0] as int == 0xC2 && (r[1] as int == 0x85 || r[1] as int == 0xA0)
    case 3 =>
      || (r[0] as int == 0xE1 && r[1] as int == 0x9A && r[2] as int == 0x80)
      || (r[0] as int == 0xE2 && r[1] as int == 0x80
          && (InRange(r[2], 0x80, 0x8A) || r[2] as int == 0xA8 || r[2] as int == 0xA9 || r[2] as int == 0xAF))
      || (r[0] as int == 0xE2 && r[1] as int == 0x81 && r[2] as int == 0x9F)
      || (r[0] as int == 0xE3 && r[1] as int == 0x80 && r[2] as int == 0x80)
    case _ => false
  }

  /** The length of the white space character the text starts with, 0 when it starts with none. */
  function Leading(s: string): (n: nat)
    ensures n <= |s| && n <= 3
    ensures n > 0 ==> IsSpace(s[..n])
  {
    if |s| >= 1 && IsSpace(s[..1]) then 1
    else if |s| >= 2 && IsSpace(s[..2]) then 2
    else if |s| >= 3 && IsSpace(s[..3]) then 3
    else 0
  }

  function Trailing(s: string): (n: nat)
    ensures n <= |s| && n <= 3
    ensures n > 0 ==> IsSpace(s[|s| - n..])
  {
    if |s| >= 1 && IsSpace(s[|s| - 1..]) then 1
    else if |s| >= 2 && IsSpace(s[|s| - 2..]) then 2
    else if |s| >= 3 && IsSpace(s[|s| - 3..]) then 3
    else 0
  }

  function TrimLeft(s: string): (t: string)
    ensures Leading(t) == 0
    ensures IsBytes(s) ==> IsBytes(t)
  {
    if Leading(s) == 0 then s else TrimLeft(s[Leading(s)..])
  }

  function TrimRight(s: string): (t: string)
    ensures Trailing(t) == 0 && t <= s
  {
    if Trailing(s) == 0 then s else TrimRight(s[..|s| - Trailing(s)])
  }

  function Trim(s: string): (t: string)
    ensures IsBytes(s) ==> IsBytes(t)
  {
    TrimRight(TrimLeft(s))
  }

  predicate Trimmed(s: string) { Leading(s) == 0 && Trailing(s) == 0 }

  lemma SpaceIsRune(s: string, n: nat)
    requires n <= |s| && IsSpace(s[..n])
    ensures RuneLen(s) == n
  {
  }

  /** A white space character at the end of valid text is a rune of its own. */
  lemma {:induction false} LastRuneOff(p: string, r: string)
    requires ValidUtf8(p + r) && IsSpace(r)
    ensures ValidUtf8(p)
    decreases |p|
  {
    if p != "" {
      var s := p + r;
      var n := RuneLen(s);
      assert s[|p|] == r[0];
      assert !Continuation(r[0]);
      assert forall i :: 1 <= i < n ==> Continuation(s[i]);
      RunePrefix(s);
      RuneLenLocal(s[..n], p[n..]);
      assert s[..n] + p[n..] == p;
      assert s[n..] == p[n..] + r;
      LastRuneOff(p[n..], r);
    }
  }

  lemma {:induction false} TrimLeftUtf8(s: string)
    requires ValidUtf8(s)
    ensures ValidUtf8(TrimLeft(s))
  {
    var n := Leading(s);
    if n > 0 {
      SpaceIsRune(s, n);
      TrimLeftUtf8(s[n..]);
    }
  }

  lemma {:induction false} TrimRightUtf8(s: string)
    requires ValidUtf8(s)
    ensures ValidUtf8(TrimRight(s))
  {
    var n := Trailing(s);
    if n > 0 {
      var p, r := s[..|s| - n], s[|s| - n..];
      assert p + r == s;
      LastRuneOff(p, r);
      TrimRightUtf8(p);
    }
  }

  lemma TrimUtf8(s: string)
    requires ValidUtf8(s)
    ensures ValidUtf8(Trim(s))
  {
    TrimLeftUtf8(s);
    TrimRightUtf8(TrimLeft(s));
  }

  lemma LeadingOfPrefix(t: string, u: string)
    requires t <= u && Leading(u) == 0
    ensures Leading(t) == 0
  {
    assert |t| >= 1 ==> t[..1] == u[..1];
    assert |t| >= 2 ==> t[..2] == u[..2];
    assert |t| >= 3 ==> t[..3] == u[..3];
  }

  /** Nothing is left to trim, and trimming what has nothing to trim changes nothing. */
  lemma TrimSettles(s: string)
    ensures Trimmed(Trim(s))
    ensures Trimmed(s) ==> Trim(s) == s
  {
    LeadingOfPrefix(Trim(s), TrimLeft(s));
  }

  function Flat(runes: seq<string>): string {
    if runes == [] then "" else runes[0] + Flat(runes[1..])
  }

  predicate Spaces(runes: seq<string>) { forall i :: 0 <= i < |runes| ==> IsSpace(runes[i]) }

  lemma FlatCons(r: string, runes: seq<string>)
    ensures Flat([r] + runes) == r + Flat(runes)
  {
    assert ([r] + runes)[1..] == runes;
  }

  lemma {:induction false} FlatSnoc(runes: seq<string>, r: string)
    ensures Flat(runes + [r]) == Flat(runes) + r
  {
    if runes == [] {
      FlatCons(r, []);
      assert [] + [r] == [r] + [];
    } else {
      FlatSnoc(runes[1..], r);
      assert (runes + [r])[1..] == runes[1..] + [r];
    }
  }

  lemma {:induction false} TrimLeftTakes(s: string) returns (left: seq<string>)
    ensures s == Flat(left) + TrimLeft(s) && Spaces(left)
    decreases |s|
  {
    var n := Leading(s);
    if n == 0 { return []; }
    var rest := TrimLeftTakes(s[n..]);
    left := [s[..n]] + rest;
    FlatCons(s[..n], rest);
    Rejoin(s, n, Flat(rest), TrimLeft(s[n..]));
  }

  lemma {:induction false} TrimRightTakes(s: string) returns (right: seq<string>)
    ensures s == TrimRight(s) + Flat(right) && Spaces(right)
    decreases |s|
  {
    var n := Trailing(s);
    if n == 0 { return []; }
    var cut := |s| - n;
    var rest := TrimRightTakes(s[..cut]);
    right := rest + [s[cut..]];
    FlatSnoc(rest, s[cut..]);
    RejoinRight(s, cut, TrimRight(s[..cut]), Flat(rest));
  }

  lemma Rejoin(s: string, n: nat, b: string, c: string)
    requires n <= |s| && s[n..] == b + c
    ensures s == (s[..n] + b) + c
  {
    assert s == s[..n] + s[n..];
  }

  lemma RejoinRight(s: string, n: nat, a: string, b: string)
    requires n <= |s| && s[..n] == a + b
    ensures s == a + (b + s[n..])
  {
    assert s == s[..n] + s[n..];
  }

  /** Trimming takes white space characters off both ends, all of them, and nothing else. */
  lemma TrimTakesSpaces(s: string) returns (left: seq<string>, right: seq<string>)
    ensures s == Flat(left) + (Trim(s) + Flat(right)) && Spaces(left) && Spaces(right)
    ensures Leading(Trim(s)) == 0 && Trailing(Trim(s)) == 0
  {
    left := TrimLeftTakes(s);
    right := TrimRightTakes(TrimLeft(s));
    TrimSettles(s);
  }

  lemma VisibleFirst(s: string)
    requires s != "" && '!' <= s[0] <= '~'
    ensures Leading(s) == 0
  {
  }

  lemma SpaceEnds(r: string)
    requires IsSpace(r)
    ensures r != "" && !('!' <= r[|r| - 1] <= '~')
  {
  }

  lemma VisibleLast(s: string)
    requires s != "" && '!' <= s[|s| - 1] <= '~'
    ensures Trailing(s) == 0
  {
    var n := Trailing(s);
    if n > 0 { SpaceEnds(s[|s| - n..]); }
  }

  /** Text that starts and ends with visible ASCII has nothing to trim. */
  lemma Visible(s: string)
    requires s != "" && '!' <= s[0] <= '~' && '!' <= s[|s| - 1] <= '~'
    ensures Trim(s) == s
  {
    VisibleFirst(s);
    VisibleLast(s);
    assert TrimLeft(s) == s;
  }

  // ---------- splitting ----------

  function Split(s: string, sep: char): (parts: seq<string>)
    ensures parts != []
    ensures forall i :: 0 <= i < |parts| ==> sep !in parts[i]
  {
    if s == "" then [""]
    else
      var rest := Split(s[1..], sep);
      if s[0] == sep then [""] + rest else [[s[0]] + rest[0]] + rest[1..]
  }

  lemma {:induction false} SplitNone(s: string, sep: char)
    requires sep !in s
    ensures Split(s, sep) == [s]
  {
    if s != "" {
      SplitNone(s[1..], sep);
      assert [s[0]] + s[1..] == s;
    }
  }

  lemma {:induction false} SplitOne(head: string, sep: char, tail: string)
    requires sep !in head
    ensures Split(head + [sep] + tail, sep) == [head] + Split(tail, sep)
    decreases |head|
  {
    var s := head + [sep] + tail;
    if head == "" {
      assert s[1..] == tail;
    } else {
      assert s[1..] == head[1..] + [sep] + tail;
      SplitOne(head[1..], sep, tail);
      assert [head[0]] + head[1..] == head;
    }
  }
}
