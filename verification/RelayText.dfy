/** The input bounds of the frps plugin endpoint: text, user metadata, and the metadata a login keeps. */
module RelayText {
  import opened Basics

  const META_TOKEN := "token"
  const META_SESSION := "ktunnel_session"
  const META_USER := "ktunnel_user"
  const MAX_TOP_FIELDS := 64
  const MAX_META_ENTRIES := 32
  const MAX_META_BYTES := 16384
  const MAX_META_KEY := 64
  const MAX_META_VALUE := 8192
  const MAX_TOKEN := 8192
  const MAX_USER := 256
  const MAX_RUN_ID := 256
  const MAX_PROXY_NAME := 256
  const MAX_PROXY_TYPE := 32
  const MAX_SUBDOMAIN := 63

  // ---------- bounded text ----------

  function Utf8Size(c: char): nat {
    if c as int < 0x80 then 1 else if c as int < 0x800 then 2 else if c as int < 0x10000 then 3 else 4
  }

  function ByteLen(s: string): nat {
    if s == "" then 0 else Utf8Size(s[0]) + ByteLen(s[1..])
  }

  predicate Control(c: char) { c as int < 0x20 || 0x7F <= c as int < 0xA0 }

  predicate BoundedText(s: string, limit: nat, allowEmpty: bool) {
    (allowEmpty || s != "") && ByteLen(s) <= limit && forall c :: c in s ==> !Control(c)
  }

  predicate BoundedEntry(key: string, value: string) {
    BoundedText(key, MAX_META_KEY, false) && BoundedText(value, MAX_META_VALUE, true)
  }

  /** The bytes of all keys and values. */
  ghost function TotalBytes(m: map<string, string>): nat {
    if m == map[] then 0
    else
      var k :| k in m;
      ByteLen(k) + ByteLen(m[k]) + TotalBytes(m - {k})
  }

  /** The total does not depend on the order in which the entries are taken. */
  lemma {:induction false} TotalMinus(m: map<string, string>, key: string)
    requires key in m
    ensures TotalBytes(m) == ByteLen(key) + ByteLen(m[key]) + TotalBytes(m - {key})
    decreases |m|
  {
    var k :| k in m && TotalBytes(m) == ByteLen(k) + ByteLen(m[k]) + TotalBytes(m - {k});
    if k != key {
      TotalMinus(m - {k}, key);
      TotalMinus(m - {key}, k);
      assert m - {k} - {key} == m - {key} - {k};
    }
  }

  lemma {:induction false} TotalGrows(part: map<string, string>, whole: map<string, string>)
    requires part.Keys <= whole.Keys && forall k :: k in part ==> part[k] == whole[k]
    ensures TotalBytes(part) <= TotalBytes(whole)
    decreases |part|
  {
    if part != map[] {
      var k :| k in part;
      TotalMinus(part, k);
      TotalMinus(whole, k);
      TotalGrows(part - {k}, whole - {k});
    }
  }

  lemma TotalPlus(m: map<string, string>, key: string, value: string)
    requires key !in m
    ensures TotalBytes(m[key := value]) == TotalBytes(m) + ByteLen(key) + ByteLen(value)
  {
    TotalMinus(m[key := value], key);
    assert m[key := value] - {key} == m;
  }

  ghost predicate BoundedEntries(m: map<string, string>) {
    (forall k :: k in m ==> BoundedEntry(k, m[k])) && TotalBytes(m) <= MAX_META_BYTES
  }

  ghost predicate BoundedUser(user: string, runId: string, metas: map<string, string>) {
    && BoundedText(user, MAX_USER, true) && BoundedText(runId, MAX_RUN_ID, true)
    && |metas| <= MAX_META_ENTRIES && BoundedEntries(metas)
  }

  /** The loop stops at the first offence; whatever order the map is walked in, it accepts exactly the
      metadata that is within every bound. */
  method ValidUserInfo(user: string, runId: string, metas: map<string, string>) returns (ok: bool)
    ensures ok <==> BoundedUser(user, runId, metas)
  {
    if !BoundedText(user, MAX_USER, true) || !BoundedText(runId, MAX_RUN_ID, true) || |metas| > MAX_META_ENTRIES {
      return false;
    }
    var todo := metas.Keys;
    var total := 0;
    ghost var seen: map<string, string> := map[];
    while todo != {}
      invariant todo <= metas.Keys
      invariant forall k :: k in metas ==> (k in seen <==> k !in todo)
      invariant forall k :: k in seen ==> k in metas && seen[k] == metas[k]
      invariant total == TotalBytes(seen) && BoundedEntries(seen)
    {
      var key :| key in todo;
      if !BoundedEntry(key, metas[key]) { return false; }
      TotalPlus(seen, key, metas[key]);
      seen := seen[key := metas[key]];
      total := total + ByteLen(key) + ByteLen(metas[key]);
      if total > MAX_META_BYTES {
        TotalGrows(seen, metas);
        return false;
      }
      todo := todo - {key};
    }
    assert seen == metas;
    return true;
  }

  // ---------- login fields ----------

  /** A top-level field of a login: text, an object, or anything else. */
  datatype Field = Plain(text: string) | Object(entries: map<string, MetaValue>) | Scalar

  const FIELD_LIMITS: map<string, nat> := map["hostname" := 255, "os" := 64, "arch" := 64, "client_address" := 255]

  predicate BoundedField(content: map<string, Field>, key: string)
    requires key in FIELD_LIMITS
  {
    key in content ==> content[key].Plain? && BoundedText(content[key].text, FIELD_LIMITS[key], true)
  }

  ghost predicate BoundedFields(content: map<string, Field>) {
    |content| <= MAX_TOP_FIELDS && forall key :: key in FIELD_LIMITS ==> BoundedField(content, key)
  }

  /** Stops at the first field that is not text within its limit. */
  method CheckFields(content: map<string, Field>) returns (ok: bool)
    ensures ok <==> BoundedFields(content)
  {
    if |content| > MAX_TOP_FIELDS { return false; }
    var todo := FIELD_LIMITS.Keys;
    while todo != {}
      invariant todo <= FIELD_LIMITS.Keys
      invariant forall key :: key in FIELD_LIMITS && key !in todo ==> BoundedField(content, key)
    {
      var key :| key in todo;
      if key in content {
        if !content[key].Plain? || !BoundedText(content[key].text, FIELD_LIMITS[key], true) {
          assert !BoundedField(content, key);
          return false;
        }
      }
      todo := todo - {key};
    }
    return true;
  }

  const FIELD_METAS := "metas"
  const FIELD_USER := "user"

  /** The metadata object, empty when the field is missing or something else. */
  function RawMetas(content: map<string, Field>): map<string, MetaValue> {
    if FIELD_METAS in content && content[FIELD_METAS].Object? then content[FIELD_METAS].entries else map[]
  }

  function AsValues(metas: map<string, string>): map<string, MetaValue> {
    map k | k in metas :: Text(metas[k])
  }

  // ---------- login metadata ----------

  /** A decoded JSON value: text, or anything else, which login drops. */
  datatype MetaValue = Text(text: string) | Other

  function Texts(raw: map<string, MetaValue>): map<string, string> {
    map k | k in raw && raw[k].Text? :: raw[k].text
  }

  /** Collects the text entries; None is a rejection. */
  method LoginMetas(raw: map<string, MetaValue>) returns (metas: Option<map<string, string>>)
    ensures metas.Some? <==> |raw| <= MAX_META_ENTRIES && BoundedEntries(Texts(raw))
    ensures metas.Some? ==> metas.value == Texts(raw)
  {
    if |raw| > MAX_META_ENTRIES { return None; }
    var todo := raw.Keys;
    var out: map<string, string> := map[];
    var total := 0;
    while todo != {}
      invariant todo <= raw.Keys
      invariant Collected(raw, todo, out) && total == TotalBytes(out) && BoundedEntries(out)
    {
      var key :| key in todo;
      if raw[key].Text? {
        var text := raw[key].text;
        if !BoundedEntry(key, text) {
          assert key in Texts(raw) && Texts(raw)[key] == text;
          return None;
        }
        total := total + ByteLen(key) + ByteLen(text);
        TotalPlus(out, key, text);
        out := out[key := text];
        if total > MAX_META_BYTES {
          TotalGrows(out, Texts(raw));
          return None;
        }
      }
      todo := todo - {key};
    }
    assert out == Texts(raw);
    return Some(out);
  }

  /** out holds the text entries of raw that are no longer to do. */
  ghost predicate Collected(raw: map<string, MetaValue>, todo: set<string>, out: map<string, string>) {
    && (forall k :: k in out ==> k in raw && k !in todo && raw[k] == Text(out[k]))
    && (forall k :: k in raw && k !in todo && raw[k].Text? ==> k in out)
  }

  // ---------- the bounds in numbers ----------

  lemma TextBounds(s: string, limit: nat, allowEmpty: bool)
    ensures BoundedText(s, limit, allowEmpty) <==>
            && (s == "" ==> allowEmpty) && ByteLen(s) <= limit
            && forall i :: 0 <= i < |s| ==> s[i] as int >= 0x20 && !(0x7F <= s[i] as int <= 0x9F)
  {
    assert forall i :: 0 <= i < |s| ==> s[i] in s;
  }

  /** Bytes are counted as UTF-8: one for ASCII, at most four for any character. */
  lemma {:induction false} ByteLenBounds(s: string)
    ensures |s| <= ByteLen(s) <= 4 * |s|
    ensures (forall i :: 0 <= i < |s| ==> s[i] as int < 0x80) <==> ByteLen(s) == |s|
  {
    if s != "" {
      ByteLenBounds(s[1..]);
      if forall i :: 0 <= i < |s[1..]| ==> s[1..][i] as int < 0x80 {
        assert forall i :: 1 <= i < |s| ==> s[i] == s[1..][i - 1];
      }
    }
  }

  lemma UserBounds(user: string, runId: string, metas: map<string, string>)
    ensures BoundedUser(user, runId, metas) <==>
            && BoundedText(user, 256, true) && BoundedText(runId, 256, true)
            && |metas| <= 32 && TotalBytes(metas) <= 16384
            && forall k :: k in metas ==> BoundedText(k, 64, false) && BoundedText(metas[k], 8192, true)
  {
  }

  lemma FieldBounds(content: map<string, Field>, key: string, limit: nat)
    requires (key, limit) in {("hostname", 255), ("os", 64), ("arch", 64), ("client_address", 255)}
    ensures BoundedFields(content) ==> |content| <= 64
    ensures BoundedFields(content) && key in content ==>
              content[key].Plain? && BoundedText(content[key].text, limit, true)
  {
    assert key in FIELD_LIMITS && BoundedFields(content) ==> BoundedField(content, key);
  }
}
