/** The JSON object inside a current token: what json.Marshal writes for the four server fields and what
    json.Unmarshal reads back into them. */
module TokenWire {
  import opened Basics
  import opened Base64Url
  import opened JsonText
  import Decimal

  datatype Wire = Wire(addr: string, port: int, domain: string, tls: string)

  const EMPTY := Wire("", 0, "", "")

  // ---------- writing ----------

  lemma FormatBytes(n: nat)
    ensures IsBytes(Decimal.Format(n))
  {
    var digits := Decimal.Format(n);
    forall i | 0 <= i < |digits| ensures digits[i] as int < 256 {
      assert digits[i] in digits;
    }
  }

  /** A quoted key, the colon and a quoted text, then what follows. */
  function TextMember(key: char, text: string, rest: string): (s: string)
    requires IsBytes(text)
    ensures key as int < 256 && IsBytes(rest) ==> IsBytes(s)
  {
    ['"', key, '"', ':', '"'] + Literal(text, rest)
  }

  function NumberMember(key: char, n: nat, rest: string): (s: string)
    ensures key as int < 256 && IsBytes(rest) ==> IsBytes(s)
  {
    FormatBytes(n);
    ['"', key, '"', ':'] + (Decimal.Format(n) + rest)
  }

  function AfterDomain(w: Wire): (s: string)
    requires IsBytes(w.tls)
    ensures IsBytes(s)
  {
    [','] + TextMember('s', w.tls, ['}'])
  }

  function AfterPort(w: Wire): (s: string)
    requires IsBytes(w.domain) && IsBytes(w.tls)
    ensures IsBytes(s)
  {
    [','] + TextMember('d', w.domain, AfterDomain(w))
  }

  function AfterAddr(w: Wire): (s: string)
    requires IsBytes(w.domain) && IsBytes(w.tls) && w.port >= 0
    ensures IsBytes(s)
  {
    [','] + NumberMember('p', w.port, AfterPort(w))
  }

  function Marshal(w: Wire): (s: string)
    requires IsBytes(w.addr) && IsBytes(w.domain) && IsBytes(w.tls) && w.port >= 0
    ensures IsBytes(s)
  {
    ['{'] + TextMember('a', w.addr, AfterAddr(w))
  }

  // ---------- reading ----------

  datatype Value = Text(text: string) | Number(n: int) | Null | Flag

  predicate Blank(c: char) { c == ' ' || c == '\t' || c == '\n' || c == '\r' }

  function SkipBlanks(s: string): (t: string)
    ensures |t| <= |s|
  {
    if s != "" && Blank(s[0]) then SkipBlanks(s[1..]) else s
  }

  /** How many digits the text starts with. */
  function DigitRun(s: string): (n: nat)
    ensures n <= |s| && forall i :: 0 <= i < n ==> Decimal.IsDigit(s[i])
  {
    if s != "" && Decimal.IsDigit(s[0]) then 1 + DigitRun(s[1..]) else 0
  }

  /** A whole number without a leading zero, after its sign. */
  function ReadDigits(s: string): (r: Option<(nat, string)>)
    ensures r.Some? ==> |r.value.1| < |s|
  {
    var n := DigitRun(s);
    if n == 0 || (n > 1 && s[0] == '0') then None
    else
      assert forall c :: c in s[..n] ==> Decimal.IsDigit(c);
      Some((Decimal.Value(s[..n]), s[n..]))
  }

  function ReadValue(s: string): (r: Option<(Value, string)>)
    ensures r.Some? ==> |r.value.1| < |s|
  {
    if s == "" then None
    else if s[0] == '"' then
      match Unquote(s[1..]) case None => None case Some((t, rest)) => Some((Text(t), rest))
    else if s[0] == '-' then
      match ReadDigits(s[1..]) case None => None case Some((n, rest)) => Some((Number(0 - n), rest))
    else if Decimal.IsDigit(s[0]) then
      match ReadDigits(s) case None => None case Some((n, rest)) => Some((Number(n), rest))
    else if "null" <= s then Some((Null, s[4..]))
    else if "true" <= s then Some((Flag, s[4..]))
    else if "false" <= s then Some((Flag, s[5..]))
    else None
  }

  /** A key, a colon and a value, with blanks between them. */
  function ReadMember(s: string): (r: Option<(string, Value, string)>)
    ensures r.Some? ==> |r.value.2| < |s|
  {
    if s == "" || s[0] != '"' then None
    else match Unquote(s[1..])
      case None => None
      case Some((key, rest)) =>
        var t := SkipBlanks(rest);
        if t == "" || t[0] != ':' then None
        else match ReadValue(SkipBlanks(t[1..]))
          case None => None
          case Some((v, after)) => Some((key, v, after))
  }

  /** Keys match without regard to case; the long s folds to s. */
  predicate IsKey(key: string, c: char)
    requires 'a' <= c <= 'z'
  {
    key == [c] || key == [(c as int - 32) as char] || (c == 's' && key == [0xC5 as char, 0xBF as char])
  }

  function TextOr(v: Value, before: string): Option<string> {
    match v case Text(t) => Some(t) case Null => Some(before) case _ => None
  }

  function NumberOr(v: Value, before: int): Option<int> {
    match v
    case Number(n) => if Decimal.MIN_INT64 <= n <= Decimal.MAX_INT64 then Some(n) else None
    case Null => Some(before)
    case _ => None
  }

  /** A null leaves its field alone, an unknown key is skipped, a value of the wrong type is an error. */
  function Assign(w: Wire, key: string, v: Value): Option<Wire> {
    if IsKey(key, 'a') then match TextOr(v, w.addr) case None => None case Some(t) => Some(w.(addr := t))
    else if IsKey(key, 'p') then match NumberOr(v, w.port) case None => None case Some(n) => Some(w.(port := n))
    else if IsKey(key, 'd') then match TextOr(v, w.domain) case None => None case Some(t) => Some(w.(domain := t))
    else if IsKey(key, 's') then match TextOr(v, w.tls) case None => None case Some(t) => Some(w.(tls := t))
    else Some(w)
  }

  /** Members from the first key on, assigned in order; nothing but blanks may follow the closing brace. */
  function ReadMembers(s: string, w: Wire): Option<Wire>
    decreases |s|, 1
  {
    match ReadMember(s)
    case None => None
    case Some((key, v, rest)) =>
      match Assign(w, key, v)
      case None => None
      case Some(next) => ReadMore(rest, next)
  }

  function ReadMore(s: string, w: Wire): Option<Wire>
    decreases |s|, 2
  {
    var t := SkipBlanks(s);
    if t == "" then None
    else if t[0] == ',' then ReadMembers(SkipBlanks(t[1..]), w)
    else if t[0] == '}' && SkipBlanks(t[1..]) == "" then Some(w)
    else None
  }

  function Unmarshal(s: string): Option<Wire> {
    var t := SkipBlanks(s);
    if t == "" || t[0] != '{' then None
    else
      var u := SkipBlanks(t[1..]);
      if u != "" && u[0] == '}' then (if SkipBlanks(u[1..]) == "" then Some(EMPTY) else None)
      else ReadMembers(u, EMPTY)
  }

  // ---------- round trip ----------

  lemma ReadKey(key: char, rest: string)
    requires 'a' <= key <= 'z'
    ensures Unquote([key, '"'] + rest) == Some(([key], rest))
  {
    var s := [key, '"'] + rest;
    assert s[1..] == ['"'] + rest && s[1..][1..] == rest;
    assert RuneLen(s) == 1 && s[..1] == [key];
    assert s[1..][0] == '"' && Unquote(s[1..]) == Some(("", rest));
    assert [key] + "" == [key];
  }

  /** A member whose value starts right after the colon is read as its key and that value. */
  lemma ReadAfterColon(key: char, value: string)
    requires 'a' <= key <= 'z' && value != "" && !Blank(value[0])
    ensures ReadMember(['"', key, '"', ':'] + value)
            == match ReadValue(value) case None => None case Some((v, after)) => Some(([key], v, after))
  {
    var s := ['"', key, '"', ':'] + value;
    assert s[1..] == [key, '"'] + ([':'] + value);
    ReadKey(key, [':'] + value);
    assert ([':'] + value)[1..] == value;
  }

  lemma ReadTextMember(key: char, text: string, rest: string)
    requires 'a' <= key <= 'z' && GoodText(text)
    ensures ReadMember(TextMember(key, text, rest)) == Some(([key], Text(text), rest))
  {
    var value := ['"'] + Literal(text, rest);
    assert TextMember(key, text, rest) == ['"', key, '"', ':'] + value;
    ReadAfterColon(key, value);
    assert value[1..] == Literal(text, rest);
    UnquoteLiteral(text, rest);
  }

  lemma {:induction false} DigitRunOf(digits: string, rest: string)
    requires forall i :: 0 <= i < |digits| ==> Decimal.IsDigit(digits[i])
    requires rest == "" || !Decimal.IsDigit(rest[0])
    ensures DigitRun(digits + rest) == |digits|
  {
    if digits == "" {
      assert digits + rest == rest;
    } else {
      assert (digits + rest)[1..] == digits[1..] + rest;
      DigitRunOf(digits[1..], rest);
    }
  }

  lemma {:induction false} NoLeadingZero(n: nat)
    ensures n > 0 ==> Decimal.Format(n)[0] != '0'
    ensures |Decimal.Format(n)| > 1 ==> n > 0
  {
    if n >= 10 {
      NoLeadingZero(n / 10);
    }
  }

  lemma ReadNumber(n: nat, rest: string)
    requires rest == "" || !Decimal.IsDigit(rest[0])
    ensures ReadDigits(Decimal.Format(n) + rest) == Some((n, rest))
  {
    var digits := Decimal.Format(n);
    var s := digits + rest;
    forall i | 0 <= i < |digits| ensures Decimal.IsDigit(digits[i]) {
      assert digits[i] in digits;
    }
    DigitRunOf(digits, rest);
    NoLeadingZero(n);
    Decimal.ValueFormat(n);
    assert s[..|digits|] == digits && s[|digits|..] == rest;
  }

  lemma ReadNumberMember(key: char, n: nat, rest: string)
    requires 'a' <= key <= 'z' && (rest == "" || !Decimal.IsDigit(rest[0]))
    ensures ReadMember(NumberMember(key, n, rest)) == Some(([key], Number(n), rest))
  {
    var value := Decimal.Format(n) + rest;
    assert value[0] in Decimal.Format(n);
    ReadNumber(n, rest);
    ReadAfterColon(key, value);
  }

  lemma ReadComma(s: string, w: Wire)
    requires s != "" && !Blank(s[0])
    ensures ReadMore([','] + s, w) == ReadMembers(s, w)
  {
    assert ([','] + s)[1..] == s;
  }

  lemma ReadBrace(w: Wire)
    ensures ReadMore(['}'], w) == Some(w)
  {
    assert ['}'][1..] == "";
  }

  function Then(r: Option<Wire>, rest: string): Option<Wire> {
    match r case None => None case Some(w) => ReadMore(rest, w)
  }

  lemma ReadTextNext(key: char, text: string, rest: string, w: Wire)
    requires 'a' <= key <= 'z' && GoodText(text)
    ensures ReadMore([','] + TextMember(key, text, rest), w) == Then(Assign(w, [key], Text(text)), rest)
  {
    ReadComma(TextMember(key, text, rest), w);
    ReadTextMember(key, text, rest);
  }

  lemma ReadNumberNext(key: char, n: nat, rest: string, w: Wire)
    requires 'a' <= key <= 'z' && (rest == "" || !Decimal.IsDigit(rest[0]))
    ensures ReadMore([','] + NumberMember(key, n, rest), w) == Then(Assign(w, [key], Number(n)), rest)
  {
    ReadComma(NumberMember(key, n, rest), w);
    ReadNumberMember(key, n, rest);
  }

  lemma ReadFirst(key: char, text: string, rest: string)
    requires 'a' <= key <= 'z' && GoodText(text)
    ensures Unmarshal(['{'] + TextMember(key, text, rest)) == Then(Assign(EMPTY, [key], Text(text)), rest)
  {
    assert (['{'] + TextMember(key, text, rest))[1..] == TextMember(key, text, rest);
    ReadTextMember(key, text, rest);
  }

  lemma ReadLastMember(w: Wire, before: Wire)
    requires GoodText(w.tls) && before.(tls := w.tls) == w
    ensures ReadMore(AfterDomain(w), before) == Some(w)
  {
    ReadTextNext('s', w.tls, ['}'], before);
    ReadBrace(w);
  }

  lemma ReadLastMembers(w: Wire, before: Wire)
    requires GoodText(w.domain) && GoodText(w.tls) && before.(domain := w.domain, tls := w.tls) == w
    ensures ReadMore(AfterPort(w), before) == Some(w)
  {
    ReadTextNext('d', w.domain, AfterDomain(w), before);
    ReadLastMember(w, before.(domain := w.domain));
  }

  lemma UnmarshalMarshal(w: Wire)
    requires GoodText(w.addr) && GoodText(w.domain) && GoodText(w.tls) && 0 <= w.port <= Decimal.MAX_INT64
    ensures Unmarshal(Marshal(w)) == Some(w)
  {
    var first := EMPTY.(addr := w.addr);
    ReadFirst('a', w.addr, AfterAddr(w));
    ReadNumberNext('p', w.port, AfterPort(w), first);
    ReadLastMembers(w, first.(port := w.port));
  }

  lemma PlainMember(key: char, text: string, rest: string)
    requires PlainText(text) && IsBytes(text)
    ensures TextMember(key, text, rest) == ['"', key, '"', ':', '"'] + (text + (['"'] + rest))
  {
    PlainBody(text);
  }

  /** For plain fields the object is what one would write by hand: {"a":"..","p":..,"d":"..","s":".."}. */
  lemma MarshalPlain(w: Wire)
    requires PlainText(w.addr) && PlainText(w.domain) && PlainText(w.tls) && w.port >= 0
    requires IsBytes(w.addr) && IsBytes(w.domain) && IsBytes(w.tls)
    ensures Marshal(w) == ['{'] + (['"', 'a', '"', ':', '"'] + (w.addr + (['"'] + AfterAddr(w))))
    ensures AfterAddr(w) == [','] + (['"', 'p', '"', ':'] + (Decimal.Format(w.port) + AfterPort(w)))
    ensures AfterPort(w) == [','] + (['"', 'd', '"', ':', '"'] + (w.domain + (['"'] + AfterDomain(w))))
    ensures AfterDomain(w) == [','] + (['"', 's', '"', ':', '"'] + (w.tls + (['"'] + ['}'])))
  {
    PlainMember('a', w.addr, AfterAddr(w));
    PlainMember('d', w.domain, AfterDomain(w));
    PlainMember('s', w.tls, ['}']);
  }

  // ---------- what is read is valid text ----------

  predicate Good(w: Wire) { GoodText(w.addr) && GoodText(w.domain) && GoodText(w.tls) }

  predicate GoodValue(v: Value) { v.Text? ==> GoodText(v.text) }

  lemma ValueGood(s: string)
    ensures ReadValue(s).Some? ==> GoodValue(ReadValue(s).value.0)
  {
    if s != "" && s[0] == '"' {
      UnquoteGood(s[1..]);
    }
  }

  lemma MemberGood(s: string)
    ensures ReadMember(s).Some? ==> GoodValue(ReadMember(s).value.1)
  {
    if s != "" && s[0] == '"' && Unquote(s[1..]).Some? {
      var t := SkipBlanks(Unquote(s[1..]).value.1);
      if t != "" {
        ValueGood(SkipBlanks(t[1..]));
      }
    }
  }

  lemma AssignGood(w: Wire, key: string, v: Value)
    requires Good(w) && GoodValue(v)
    ensures Assign(w, key, v).Some? ==> Good(Assign(w, key, v).value)
  {
  }

  lemma {:induction false} MembersGood(s: string, w: Wire)
    requires Good(w)
    ensures ReadMembers(s, w).Some? ==> Good(ReadMembers(s, w).value)
    decreases |s|
  {
    if ReadMembers(s, w).Some? {
      var (key, value, rest) := ReadMember(s).value;
      var next := Assign(w, key, value).value;
      MemberGood(s);
      AssignGood(w, key, value);
      assert ReadMore(rest, next).Some?;
      var t := SkipBlanks(rest);
      if t[0] == ',' {
        MembersGood(SkipBlanks(t[1..]), next);
      }
    }
  }

  lemma UnmarshalGood(s: string)
    ensures Unmarshal(s).Some? ==> Good(Unmarshal(s).value)
  {
    var t := SkipBlanks(s);
    if t != "" {
      MembersGood(SkipBlanks(t[1..]), EMPTY);
    }
  }
}
