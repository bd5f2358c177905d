/** Unpadded base64url (sections 3.2 and 5 of RFC 4648). A byte string is a string whose characters
    are below 256, one character a byte. */
module Base64Url {
  import opened Basics

  predicate IsBytes(s: string) { forall i :: 0 <= i < |s| ==> s[i] as int < 256 }

  predicate InAlphabet(c: char) { 'A' <= c <= 'Z' || 'a' <= c <= 'z' || '0' <= c <= '9' || c == '-' || c == '_' }

  predicate InAlphabetAll(s: string) { forall i :: 0 <= i < |s| ==> InAlphabet(s[i]) }

  function CharOf(v: int): (c: char)
    requires 0 <= v < 64
    ensures InAlphabet(c) && ValueOf(c) == v
  {
    if v < 26 then ('A' as int + v) as char
    else if v < 52 then ('a' as int + v - 26) as char
    else if v < 62 then ('0' as int + v - 52) as char
    else if v == 62 then '-' else '_'
  }

  function ValueOf(c: char): (v: int)
    requires InAlphabet(c)
    ensures 0 <= v < 64
  {
    if 'A' <= c <= 'Z' then c as int - 'A' as int
    else if 'a' <= c <= 'z' then c as int - 'a' as int + 26
    else if '0' <= c <= '9' then c as int - '0' as int + 52
    else if c == '-' then 62 else 63
  }

  predicate IsByte(c: char) { c as int < 256 }

  function One(x: char): (s: string)
    requires IsByte(x)
    ensures |s| == 2 && InAlphabetAll(s)
  { [CharOf(x as int / 4), CharOf(x as int % 4 * 16)] }

  function Two(x: char, y: char): (s: string)
    requires IsByte(x) && IsByte(y)
    ensures |s| == 3 && InAlphabetAll(s)
  { [CharOf(x as int / 4), CharOf(x as int % 4 * 16 + y as int / 16), CharOf(y as int % 16 * 4)] }

  function Three(x: char, y: char, z: char): (s: string)
    requires IsByte(x) && IsByte(y) && IsByte(z)
    ensures |s| == 4 && InAlphabetAll(s)
  {
    [CharOf(x as int / 4), CharOf(x as int % 4 * 16 + y as int / 16),
     CharOf(y as int % 16 * 4 + z as int / 64), CharOf(z as int % 64)]
  }

  function Encode(b: string): (s: string)
    requires IsBytes(b)
    ensures InAlphabetAll(s)
  {
    if b == "" then ""
    else if |b| == 1 then One(b[0])
    else if |b| == 2 then Two(b[0], b[1])
    else Three(b[0], b[1], b[2]) + Encode(b[3..])
  }

  function First(u: int, v: int): char
    requires 0 <= u < 64 && 0 <= v < 64
  { (u * 4 + v / 16) as char }

  function Second(v: int, w: int): char
    requires 0 <= v < 64 && 0 <= w < 64
  { (v % 16 * 16 + w / 4) as char }

  function Third(w: int, x: int): char
    requires 0 <= w < 64 && 0 <= x < 64
  { (w % 4 * 64 + x) as char }

  /** Two to four characters. Left-over bits of a short group are ignored. */
  function Group(s: string): Option<string>
    requires 2 <= |s| <= 4
  {
    if !InAlphabet(s[0]) || !InAlphabet(s[1]) then None
    else
      var u, v := ValueOf(s[0]), ValueOf(s[1]);
      if |s| == 2 then Some([First(u, v)])
      else if !InAlphabet(s[2]) then None
      else
        var w := ValueOf(s[2]);
        if |s| == 3 then Some([First(u, v), Second(v, w)])
        else if !InAlphabet(s[3]) then None
        else Some([First(u, v), Second(v, w), Third(w, ValueOf(s[3]))])
  }

  function Join(a: Option<string>, b: Option<string>): Option<string> {
    if a.Some? && b.Some? then Some(a.value + b.value) else None
  }

  /** Whole groups, then a short one; a single left-over character is an error. */
  function DecodeGroups(s: string): Option<string> {
    if s == "" then Some("")
    else if |s| == 1 then None
    else if |s| < 4 then Group(s)
    else Join(Group(s[..4]), DecodeGroups(s[4..]))
  }

  function WithoutNewlines(s: string): string {
    if s == "" then "" else (if s[0] == '\n' || s[0] == '\r' then "" else [s[0]]) + WithoutNewlines(s[1..])
  }

  /** The decoder skips line breaks wherever they stand. */
  function Decode(s: string): Option<string> { DecodeGroups(WithoutNewlines(s)) }

  lemma {:induction false} NoNewlines(s: string)
    requires InAlphabetAll(s)
    ensures WithoutNewlines(s) == s
  {
    if s != "" {
      NoNewlines(s[1..]);
    }
  }

  /** Three bytes cut into four sextets and put together again; short groups leave the missing bytes 0. */
  lemma Bits(x: int, y: int, z: int)
    requires 0 <= x < 256 && 0 <= y < 256 && 0 <= z < 256
    ensures First(x / 4, x % 4 * 16 + y / 16) as int == x
    ensures Second(x % 4 * 16 + y / 16, y % 16 * 4 + z / 64) as int == y
    ensures Third(y % 16 * 4 + z / 64, z % 64) as int == z
  {
  }

  lemma ReadOne(x: char)
    requires IsByte(x)
    ensures Group(One(x)) == Some([x])
  {
    Bits(x as int, 0, 0);
  }

  lemma ReadTwo(x: char, y: char)
    requires IsByte(x) && IsByte(y)
    ensures Group(Two(x, y)) == Some([x, y])
  {
    Bits(x as int, y as int, 0);
  }

  lemma ReadThree(x: char, y: char, z: char)
    requires IsByte(x) && IsByte(y) && IsByte(z)
    ensures Group(Three(x, y, z)) == Some([x, y, z])
  {
    Bits(x as int, y as int, z as int);
  }

  lemma ReadShortOne(b: string)
    requires IsBytes(b) && |b| == 1
    ensures DecodeGroups(Encode(b)) == Some(b)
  {
    ReadOne(b[0]);
    assert b == [b[0]];
    assert Encode(b) == One(b[0]);
  }

  lemma ReadShortTwo(b: string)
    requires IsBytes(b) && |b| == 2
    ensures DecodeGroups(Encode(b)) == Some(b)
  {
    ReadTwo(b[0], b[1]);
    assert b == [b[0], b[1]];
    assert Encode(b) == Two(b[0], b[1]);
  }

  lemma GroupFirst(head: string, text: string, tail: string, rest: string)
    requires |head| == 4 && Group(head) == Some(text)
    requires DecodeGroups(tail) == Some(rest)
    ensures DecodeGroups(head + tail) == Some(text + rest)
  {
    assert (head + tail)[..4] == head && (head + tail)[4..] == tail;
  }

  lemma {:induction false} DecodeGroupsEncode(b: string)
    requires IsBytes(b)
    ensures DecodeGroups(Encode(b)) == Some(b)
  {
    if |b| >= 3 {
      DecodeGroupsEncode(b[3..]);
      ReadThree(b[0], b[1], b[2]);
      GroupFirst(Three(b[0], b[1], b[2]), [b[0], b[1], b[2]], Encode(b[3..]), b[3..]);
      assert b == [b[0], b[1], b[2]] + b[3..];
    } else if |b| == 2 {
      ReadShortTwo(b);
    } else if |b| == 1 {
      ReadShortOne(b);
    }
  }

  lemma RoundTrip(b: string)
    requires IsBytes(b)
    ensures Decode(Encode(b)) == Some(b)
  {
    NoNewlines(Encode(b));
    DecodeGroupsEncode(b);
  }

  /** The text is the standard's: its test vectors (section 10 of RFC 4648), without padding. */
  lemma ShortVectors()
    ensures Encode("") == "" && Encode("f") == "Zg" && Encode("fo") == "Zm8"
  {
    assert One('f') == "Zg" && Two('f', 'o') == "Zm8";
  }

  lemma LongVectors()
    ensures Encode("foob") == "Zm9vYg" && Encode("fooba") == "Zm9vYmE" && Encode("foobar") == "Zm9vYmFy"
  {
    assert Three('f', 'o', 'o') == "Zm9v" && Three('b', 'a', 'r') == "YmFy";
    assert One('b') == "Yg" && Two('b', 'a') == "YmE";
    assert "foob"[3..] == "b" && "fooba"[3..] == "ba" && "foobar"[3..] == "bar" && "bar"[3..] == "";
  }

  /** The alphabet is that of section 5: capitals, small letters and digits in order, dash and underscore. */
  lemma Alphabet(v: int)
    requires 0 <= v < 64
    ensures CharOf(0) == 'A' && CharOf(25) == 'Z' && CharOf(26) == 'a' && CharOf(51) == 'z'
    ensures CharOf(52) == '0' && CharOf(61) == '9' && CharOf(62) == '-' && CharOf(63) == '_'
    ensures v !in {25, 51, 61, 62, 63} ==> CharOf(v + 1) as int == CharOf(v) as int + 1
  {
  }
}
