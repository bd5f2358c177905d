/** Relay tokens: kt2.<server blob>.<secret>, and the legacy kt1 form. */
module Tokens {
  import opened Basics
  import opened Base64Url
  import opened JsonText
  import opened Trimming
  import opened TokenWire
  import Checksums
  import Decimal

  const CURRENT := "kt2"
  const LEGACY := "kt1"

  datatype Info = Info(addr: string, port: int, domain: string, tls: string, version: string)

  datatype Parsed = Server(info: Info) | NotAToken | Malformed | Unsupported

  predicate BytesInfo(info: Info) { IsBytes(info.addr) && IsBytes(info.domain) && IsBytes(info.tls) }

  // ---------- validation ----------

  predicate Forbidden(c: char) { c as int == 0 || c in "\r\n\t /\\" }

  predicate Allowed(s: string) { forall i :: 0 <= i < |s| ==> !Forbidden(s[i]) }

  predicate LabelChar(c: char) { 'a' <= c <= 'z' || 'A' <= c <= 'Z' || '0' <= c <= '9' || c == '-' }

  predicate Label(s: string) {
    1 <= |s| <= 63 && s[0] != '-' && s[|s| - 1] != '-' && forall i :: 0 <= i < |s| ==> LabelChar(s[i])
  }

  /** isIP stands for a successful net.ParseIP. */
  predicate TLSName(isIP: string -> bool, s: string) {
    isIP(s) || (1 <= |s| <= 253 && forall i :: 0 <= i < |Split(s, '.')| ==> Label(Split(s, '.')[i]))
  }

  predicate Valid(isIP: string -> bool, info: Info) {
    && info.addr != "" && info.domain != "" && 1 <= info.port <= 65535
    && Allowed(info.addr) && Allowed(info.domain) && Allowed(info.tls)
    && (info.tls != "" ==> TLSName(isIP, info.tls))
  }

  // ---------- minting ----------

  /** What a token carries: trimmed fields, the TLS name defaulted to the address. */
  function Sent(info: Info): Info {
    var addr, tls := Trim(info.addr), Trim(info.tls);
    Info(addr, info.port, Trim(info.domain), if tls == "" then addr else tls, CURRENT)
  }

  function EncodeV2(isIP: string -> bool, info: Info): (blob: Option<string>)
    requires BytesInfo(info)
    ensures blob.Some? ==> InAlphabetAll(blob.value)
  {
    var s := Sent(info);
    if Valid(isIP, s) then Some(Encode(Marshal(Wire(s.addr, s.port, s.domain, s.tls)))) else None
  }

  function Token(version: string, blob: string, secret: string): string
    requires IsBytes(secret)
  {
    version + "." + (blob + "." + Encode(secret))
  }

  /** The secret is 32 random bytes. */
  function NewToken(isIP: string -> bool, info: Info, secret: string): Option<string>
    requires BytesInfo(info) && IsBytes(secret)
  {
    match EncodeV2(isIP, info) case None => None case Some(blob) => Some(Token(CURRENT, blob, secret))
  }

  // ---------- parsing ----------

  function ParseV2(isIP: string -> bool, blob: string): Parsed {
    match Decode(blob)
    case None => Malformed
    case Some(raw) =>
      match Unmarshal(raw)
      case None => Malformed
      case Some(w) =>
        var info := Info(Trim(w.addr), w.port, Trim(w.domain), Trim(w.tls), CURRENT);
        if info.tls == "" || !Valid(isIP, info) then Malformed else Server(info)
  }

  function LastIndex(s: string, c: char): (i: int)
    ensures -1 <= i < |s|
    ensures i >= 0 ==> s[i] == c
    ensures forall j :: i < j < |s| ==> s[j] != c
  {
    if s == "" then -1 else if s[|s| - 1] == c then |s| - 1 else LastIndex(s[..|s| - 1], c)
  }

  function ReadV1(isIP: string -> bool, raw: string): Parsed {
    match Checksums.Cut(raw, '|')
    case None => Malformed
    case Some((hostport, domain)) =>
      var i := LastIndex(hostport, ':');
      if domain == "" || i < 1 then Malformed
      else match Decimal.Parse(hostport[i + 1..])
        case None => Malformed
        case Some(port) =>
          var info := Info(hostport[..i], port, domain, "", LEGACY);
          if Valid(isIP, info) then Server(info) else Malformed
  }

  function ParseV1(isIP: string -> bool, blob: string): Parsed {
    match Decode(blob) case None => Malformed case Some(raw) => ReadV1(isIP, raw)
  }

  function ParseParts(isIP: string -> bool, parts: seq<string>): Parsed {
    if |parts| != 3 then NotAToken
    else
      var secret := Decode(parts[2]);
      if secret.None? || |secret.value| != 32 then Malformed
      else if parts[0] == CURRENT then ParseV2(isIP, parts[1])
      else if parts[0] == LEGACY then ParseV1(isIP, parts[1])
      else Unsupported
  }

  function ParseToken(isIP: string -> bool, token: string): Parsed { ParseParts(isIP, Split(Trim(token), '.')) }

  // ---------- the token splits into its three parts ----------

  lemma SplitThree(a: string, b: string, c: string)
    requires '.' !in a && '.' !in b && '.' !in c
    ensures Split(a + "." + (b + "." + c), '.') == [a, b, c]
  {
    SplitNone(c, '.');
    SplitOne(b, '.', c);
    SplitOne(a, '.', b + "." + c);
  }

  lemma TokenParts(version: string, blob: string, sec: string)
    requires version == CURRENT || version == LEGACY
    requires InAlphabetAll(blob) && InAlphabetAll(sec) && sec != ""
    ensures var token := version + "." + (blob + "." + sec);
            Trim(token) == token && Split(token, '.') == [version, blob, sec]
  {
    var token := version + "." + (blob + "." + sec);
    assert token[|token| - 1] == sec[|sec| - 1];
    Visible(token);
    SplitThree(version, blob, sec);
  }

  lemma SecretText(secret: string)
    requires IsBytes(secret) && |secret| == 32
    ensures Encode(secret) != ""
  {
  }

  lemma ParsesBlob(isIP: string -> bool, version: string, blob: string, secret: string)
    requires version == CURRENT || version == LEGACY
    requires IsBytes(secret) && |secret| == 32 && InAlphabetAll(blob)
    ensures ParseToken(isIP, Token(version, blob, secret))
            == if version == CURRENT then ParseV2(isIP, blob) else ParseV1(isIP, blob)
  {
    SecretText(secret);
    TokenParts(version, blob, Encode(secret));
    RoundTrip(secret);
  }

  // ---------- kt2 ----------

  predicate GoodInfo(info: Info) { GoodText(info.addr) && GoodText(info.domain) && GoodText(info.tls) }

  lemma SentSettles(info: Info)
    ensures var s := Sent(info); Trimmed(s.addr) && Trimmed(s.domain) && Trimmed(s.tls)
  {
    TrimSettles(info.addr);
    TrimSettles(info.domain);
    TrimSettles(info.tls);
  }

  lemma ReadsWire(isIP: string -> bool, blob: string, raw: string, w: Wire)
    requires Decode(blob) == Some(raw) && Unmarshal(raw) == Some(w)
    requires Trimmed(w.addr) && Trimmed(w.domain) && Trimmed(w.tls) && w.tls != ""
    requires Valid(isIP, Info(w.addr, w.port, w.domain, w.tls, CURRENT))
    ensures ParseV2(isIP, blob) == Server(Info(w.addr, w.port, w.domain, w.tls, CURRENT))
  {
    TrimSettles(w.addr);
    TrimSettles(w.domain);
    TrimSettles(w.tls);
  }

  lemma ReadsBack(isIP: string -> bool, info: Info)
    requires BytesInfo(info) && EncodeV2(isIP, info).Some? && GoodInfo(Sent(info))
    ensures ParseV2(isIP, EncodeV2(isIP, info).value) == Server(Sent(info))
  {
    var s := Sent(info);
    var w := Wire(s.addr, s.port, s.domain, s.tls);
    RoundTrip(Marshal(w));
    UnmarshalMarshal(w);
    SentSettles(info);
    ReadsWire(isIP, Encode(Marshal(w)), Marshal(w), w);
  }

  lemma TrimGood(s: string)
    requires GoodText(s)
    ensures GoodText(Trim(s))
  {
    TrimUtf8(s);
  }

  /** Every server a kt2 blob is read as has trimmed, valid fields of well-formed text. */
  lemma ReadIsGood(isIP: string -> bool, blob: string)
    requires ParseV2(isIP, blob).Server?
    ensures var info := ParseV2(isIP, blob).info; Valid(isIP, info) && info.tls != "" && info.version == CURRENT
    ensures var info := ParseV2(isIP, blob).info; GoodInfo(info) && Sent(info) == info
  {
    var raw := Decode(blob).value;
    var w := Unmarshal(raw).value;
    UnmarshalGood(raw);
    TrimGood(w.addr);
    TrimGood(w.domain);
    TrimGood(w.tls);
    TrimSettles(w.addr);
    TrimSettles(w.domain);
    TrimSettles(w.tls);
    TrimSettles(Trim(w.addr));
    TrimSettles(Trim(w.domain));
    TrimSettles(Trim(w.tls));
  }

  lemma TokenReadsBackIff(isIP: string -> bool, info: Info, secret: string)
    requires BytesInfo(info) && IsBytes(secret) && |secret| == 32 && NewToken(isIP, info, secret).Some?
    ensures ParseToken(isIP, NewToken(isIP, info, secret).value) == Server(Sent(info)) <==> GoodInfo(Sent(info))
  {
    var blob := EncodeV2(isIP, info).value;
    ParsesBlob(isIP, CURRENT, blob, secret);
    if GoodInfo(Sent(info)) {
      ReadsBack(isIP, info);
    } else if ParseV2(isIP, blob).Server? {
      ReadIsGood(isIP, blob);
    }
  }

  /** A minted token is read back as what it was minted for exactly when its trimmed fields are UTF-8. */
  lemma MintedReadsBackIff(isIP: string -> bool, info: Info, secret: string)
    requires BytesInfo(info) && IsBytes(secret) && |secret| == 32
    ensures var token := NewToken(isIP, info, secret);
            token.Some? ==> (ParseToken(isIP, token.value) == Server(Sent(info)) <==> GoodInfo(Sent(info)))
  {
    if NewToken(isIP, info, secret).Some? { TokenReadsBackIff(isIP, info, secret); }
  }

  /** In particular for every accepted server whose fields are UTF-8 before trimming. */
  lemma MintedReadsBack(isIP: string -> bool, info: Info, secret: string)
    requires GoodInfo(info) && IsBytes(secret) && |secret| == 32
    ensures var token := NewToken(isIP, info, secret);
            token.Some? ==> ParseToken(isIP, token.value) == Server(Sent(info))
  {
    TrimGood(info.addr);
    TrimGood(info.domain);
    TrimGood(info.tls);
    if NewToken(isIP, info, secret).Some? { TokenReadsBackIff(isIP, info, secret); }
  }

  /** A minted token is its version, server blob and secret with two dots between them, and no other dot. */
  lemma MintedHasThreeParts(isIP: string -> bool, info: Info, secret: string)
    requires BytesInfo(info) && IsBytes(secret) && |secret| == 32
    ensures var token := NewToken(isIP, info, secret);
            token.Some? ==> Split(token.value, '.') == [CURRENT, EncodeV2(isIP, info).value, Encode(secret)]
  {
    if NewToken(isIP, info, secret).Some? {
      SecretText(secret);
      TokenParts(CURRENT, EncodeV2(isIP, info).value, Encode(secret));
    }
  }

  lemma LegacyVersion(isIP: string -> bool, blob: string)
    requires ParseV1(isIP, blob).Server?
    ensures ParseV1(isIP, blob).info.version == LEGACY
  {
  }

  lemma PartsAreGood(isIP: string -> bool, parts: seq<string>)
    requires ParseParts(isIP, parts).Server? && ParseParts(isIP, parts).info.version == CURRENT
    ensures var info := ParseParts(isIP, parts).info; Valid(isIP, info) && GoodInfo(info) && Sent(info) == info
  {
    assert CURRENT[2] != LEGACY[2];
    if parts[0] == CURRENT {
      ReadIsGood(isIP, parts[1]);
    } else {
      LegacyVersion(isIP, parts[1]);
    }
  }

  lemma MintsFor(isIP: string -> bool, info: Info, secret: string)
    requires Valid(isIP, info) && GoodInfo(info) && Sent(info) == info && IsBytes(secret) && |secret| == 32
    ensures NewToken(isIP, info, secret).Some?
            && ParseToken(isIP, NewToken(isIP, info, secret).value) == Server(info)
  {
    TokenReadsBackIff(isIP, info, secret);
  }

  /** Minting again for a server read from any kt2 text always succeeds and is read back unchanged. */
  lemma MintAgain(isIP: string -> bool, text: string, secret: string)
    requires ParseToken(isIP, text).Server? && ParseToken(isIP, text).info.version == CURRENT
    requires IsBytes(secret) && |secret| == 32
    ensures var info := ParseToken(isIP, text).info;
            BytesInfo(info) && NewToken(isIP, info, secret).Some?
            && ParseToken(isIP, NewToken(isIP, info, secret).value) == Server(info)
  {
    PartsAreGood(isIP, Split(Trim(text), '.'));
    MintsFor(isIP, ParseToken(isIP, text).info, secret);
  }

  // ---------- what is accepted ----------

  predicate Harmless(s: string) { forall c :: c in s ==> c as int != 0 && c !in {'\r', '\n', '\t', ' ', '/', '\\'} }

  /** Dot-separated labels of letters, digits and inner dashes. */
  predicate HostName(s: string) {
    && |s| <= 253
    && forall part :: part in Split(s, '.') ==> (
         && 1 <= |part| <= 63 && part[0] != '-' && part[|part| - 1] != '-'
         && forall c :: c in part ==> c == '-' || '0' <= c <= '9' || 'A' <= c <= 'Z' || 'a' <= c <= 'z')
  }

  lemma LabelExactly(s: string)
    ensures Label(s) <==>
            && 1 <= |s| <= 63 && s[0] != '-' && s[|s| - 1] != '-'
            && forall c :: c in s ==> c == '-' || '0' <= c <= '9' || 'A' <= c <= 'Z' || 'a' <= c <= 'z'
  {
    assert forall i :: 0 <= i < |s| ==> s[i] in s;
  }

  lemma TLSNameExactly(isIP: string -> bool, s: string)
    requires s != ""
    ensures TLSName(isIP, s) <==> isIP(s) || HostName(s)
  {
    var parts := Split(s, '.');
    forall i | 0 <= i < |parts| ensures parts[i] in parts { LabelExactly(parts[i]); }
    forall part | part in parts { LabelExactly(part); }
  }

  lemma AllowedExactly(s: string)
    ensures Allowed(s) <==> Harmless(s)
  {
    assert forall i :: 0 <= i < |s| ==> s[i] in s;
  }

  /** Exactly which servers a token can carry. */
  lemma ValidExactly(isIP: string -> bool, s: Info)
    requires s.tls != ""
    ensures Valid(isIP, s) <==>
            && s.addr != "" && s.domain != "" && 1 <= s.port <= 65535
            && Harmless(s.addr) && Harmless(s.domain) && Harmless(s.tls) && (isIP(s.tls) || HostName(s.tls))
  {
    AllowedExactly(s.addr);
    AllowedExactly(s.domain);
    AllowedExactly(s.tls);
    TLSNameExactly(isIP, s.tls);
  }

  /** A token is minted exactly for a server that one can carry once its fields are trimmed. */
  lemma MintsExactly(isIP: string -> bool, info: Info, secret: string)
    requires BytesInfo(info) && IsBytes(secret)
    ensures NewToken(isIP, info, secret).Some? <==> Valid(isIP, Sent(info))
    ensures Sent(info).addr == Trim(info.addr) && Sent(info).domain == Trim(info.domain)
    ensures Sent(info).port == info.port && Sent(info).version == "kt2"
    ensures Sent(info).tls == if Trim(info.tls) == "" then Trim(info.addr) else Trim(info.tls)
  {
  }

  predicate Letters(s: string) { 1 <= |s| <= 63 && forall i :: 0 <= i < |s| ==> 'a' <= s[i] <= 'z' }

  lemma HostAllowed(a: string, b: string)
    requires Allowed(a) && Allowed(b)
    ensures Allowed(a + "." + b)
  {
  }

  lemma HostTLSName(isIP: string -> bool, a: string, b: string, c: string)
    requires Letters(a) && Letters(b) && Letters(c)
    ensures TLSName(isIP, a + "." + (b + "." + c))
  {
    SplitThree(a, b, c);
    assert Label(a) && Label(b) && Label(c);
  }

  /** A host name of three words of small letters is accepted as its own TLS name. */
  lemma HostValid(isIP: string -> bool, a: string, b: string, c: string, port: int)
    requires Letters(a) && Letters(b) && Letters(c) && 1 <= port <= 65535
    ensures var host, domain := a + "." + (b + "." + c), b + "." + c;
            Valid(isIP, Info(host, port, domain, host, CURRENT))
  {
    HostAllowed(b, c);
    HostAllowed(a, b + "." + c);
    HostTLSName(isIP, a, b, c);
  }

  /** Every accepted text has three parts, a known version and a secret of 32 bytes, and names a valid server. */
  lemma AcceptedParts(isIP: string -> bool, parts: seq<string>)
    requires ParseParts(isIP, parts).Server?
    ensures |parts| == 3 && (parts[0] == "kt2" || parts[0] == "kt1")
    ensures Decode(parts[2]).Some? && |Decode(parts[2]).value| == 32
    ensures var info := ParseParts(isIP, parts).info;
            Valid(isIP, info) && info.version == parts[0] && (info.version == "kt2" <==> info.tls != "")
  {
    assert CURRENT[2] != LEGACY[2];
  }

  // ---------- kt1 ----------

  function LegacyText(addr: string, port: nat, domain: string): string {
    addr + ":" + Decimal.Format(port) + "|" + domain
  }

  lemma {:induction false} CutAt(head: string, sep: char, tail: string)
    requires sep !in head
    ensures Checksums.Cut(head + [sep] + tail, sep) == Some((head, tail))
  {
    var s := head + [sep] + tail;
    if head == "" {
      assert s[1..] == tail;
    } else {
      assert s[1..] == head[1..] + [sep] + tail;
      CutAt(head[1..], sep, tail);
      assert [head[0]] + head[1..] == head;
    }
  }

  lemma LastColon(addr: string, digits: string)
    requires Decimal.AllDigits(digits)
    ensures LastIndex(addr + ":" + digits, ':') == |addr|
  {
    var s := addr + ":" + digits;
    assert s[|addr|] == ':';
    forall j | |addr| < j < |s| ensures s[j] != ':' {
      assert s[j] in digits;
    }
  }

  /** A legacy blob gives back its address, port and domain exactly when the address holds no '|';
      the address may hold colons and the domain may hold either. */
  lemma LegacyReadsBackIff(isIP: string -> bool, addr: string, port: nat, domain: string)
    requires Valid(isIP, Info(addr, port, domain, "", LEGACY))
    ensures ReadV1(isIP, LegacyText(addr, port, domain)) == Server(Info(addr, port, domain, "", LEGACY))
            <==> '|' !in addr
  {
    var digits := Decimal.Format(port);
    var hostport := addr + ":" + digits;
    if '|' !in addr {
      assert LegacyText(addr, port, domain) == hostport + ['|'] + domain;
      assert '|' !in digits;
      CutAt(hostport, '|', domain);
      LastColon(addr, digits);
      assert hostport[|addr| + 1..] == digits && hostport[..|addr|] == addr;
      Decimal.ParseFormat(port);
    } else {
      LegacyBarFails(isIP, addr, ":" + digits + "|" + domain);
    }
  }

  lemma LegacyBarFails(isIP: string -> bool, addr: string, rest: string)
    requires '|' in addr
    ensures var r := ReadV1(isIP, addr + rest); r.Server? ==> r.info.addr != addr
  {
    var r := ReadV1(isIP, addr + rest);
    if r.Server? {
      var hostport := Checksums.Cut(addr + rest, '|').value.0;
      assert r.info.addr <= hostport;
      assert '|' !in hostport;
    }
  }

  lemma LegacyTokenReadsBack(isIP: string -> bool, addr: string, port: nat, domain: string, secret: string)
    requires Valid(isIP, Info(addr, port, domain, "", LEGACY)) && '|' !in addr
    requires IsBytes(LegacyText(addr, port, domain)) && IsBytes(secret) && |secret| == 32
    ensures ParseToken(isIP, Token(LEGACY, Encode(LegacyText(addr, port, domain)), secret))
            == Server(Info(addr, port, domain, "", LEGACY))
  {
    ParsesBlob(isIP, LEGACY, Encode(LegacyText(addr, port, domain)), secret);
    RoundTrip(LegacyText(addr, port, domain));
    LegacyReadsBackIff(isIP, addr, port, domain);
  }
}
