/** The expected digest of a release asset: from the asset's own digest, or from SHA256SUMS. */
module Checksums {
  import opened Basics

  predicate HexDigit(c: char) { '0' <= c <= '9' || 'a' <= c <= 'f' || 'A' <= c <= 'F' }

  function LowerChar(c: char): char {
    if 'A' <= c <= 'Z' then (c as int + 32) as char else c
  }

  function Lower(s: string): (r: string)
    ensures |r| == |s| && forall i :: 0 <= i < |s| ==> r[i] == LowerChar(s[i])
  {
    if s == "" then "" else [LowerChar(s[0])] + Lower(s[1..])
  }

  predicate Sum(s: string) { |s| == 64 && forall c :: c in s ==> HexDigit(c) }

  /** The form in which digests are compared: 64 lower-case hex digits. */
  predicate Canonical(s: string) { |s| == 64 && forall c :: c in s ==> '0' <= c <= '9' || 'a' <= c <= 'f' }

  lemma LowerCanonical(s: string)
    requires Sum(s)
    ensures Canonical(Lower(s))
  {
    forall c | c in Lower(s) ensures '0' <= c <= '9' || 'a' <= c <= 'f' {
      var i :| 0 <= i < |s| && Lower(s)[i] == c;
      assert s[i] in s;
    }
  }

  /** The part before the first separator and the part after it, if there is one. */
  function Cut(s: string, sep: char): (r: Option<(string, string)>)
    ensures r.Some? <==> sep in s
    ensures r.Some? ==> s == r.value.0 + [sep] + r.value.1 && sep !in r.value.0
  {
    if s == "" then None
    else if s[0] == sep then Some(("", s[1..]))
    else match Cut(s[1..], sep) case None => None case Some((a, b)) => Some(([s[0]] + a, b))
  }

  /** Equal to the algorithm's name under case folding, in which the long s is an s. */
  predicate IsSha256(s: string) {
    s != "" && (s[0] == '\U{017F}' || LowerChar(s[0]) == 's') && Lower(s[1..]) == "ha256"
  }

  /** digestSHA256 on an already trimmed digest. */
  function Digest(s: string): (r: Option<string>)
    ensures r.Some? ==> Canonical(r.value)
  {
    match Cut(s, ':')
    case None => None
    case Some((alg, value)) =>
      if IsSha256(alg) && Sum(value) then
        LowerCanonical(value);
        Some(Lower(value))
      else None
  }

  /** A digest is read exactly from the algorithm's name in any case, a colon and 64 hex digits. */
  lemma DigestExactly(s: string)
    ensures Digest(s).Some? <==> |s| == 71 && IsSha256(s[..6]) && s[6] == ':' && Sum(s[7..])
    ensures Digest(s).Some? ==> Digest(s).value == Lower(s[7..])
  {
    if ':' in s {
      var (alg, value) := Cut(s, ':').value;
      assert s[..|alg|] == alg && s[|alg|] == ':' && s[|alg| + 1..] == value;
      assert forall i :: 0 <= i < |alg| ==> s[i] != ':';
      if |s| == 71 && IsSha256(s[..6]) && s[6] == ':' {
        assert forall i :: 0 <= i < 6 ==> s[..6][i] != ':';
        assert |alg| == 6;
      }
    }
  }

  /** Does the line, split into fields, give a digest for the asset? */
  predicate Names(fields: seq<string>, asset: string) {
    |fields| >= 2 && Sum(fields[0]) && Plain(fields[|fields| - 1]) == asset
  }

  /** A file name without the marker of binary mode. */
  function Plain(name: string): string {
    if name != "" && name[0] == '*' then name[1..] else name
  }

  /** A line names the asset with or without the marker of binary mode, after 64 hex digits. */
  lemma NamesExactly(fields: seq<string>, asset: string)
    ensures Names(fields, asset) <==>
            && |fields| >= 2 && |fields[0]| == 64
            && (forall c :: c in fields[0] ==> '0' <= c <= '9' || 'a' <= c <= 'f' || 'A' <= c <= 'F')
            && var name := fields[|fields| - 1];
               name == "*" + asset || (name == asset && (asset == "" || asset[0] != '*'))
  {
    if |fields| >= 2 {
      var name := fields[|fields| - 1];
      if name != "" && name[0] == '*' { assert name == "*" + name[1..]; }
      assert ("*" + asset)[1..] == asset;
    }
  }

  datatype Lookup = Found(sum: string) | Missing | Ambiguous

  /** checksumFor over the lines of SHA256SUMS, each split into its fields: a digest is found exactly when
      one line alone gives it. */
  method ChecksumFor(lines: seq<seq<string>>, asset: string) returns (r: Lookup)
    ensures r.Found? <==> exists i ::
      0 <= i < |lines| && Names(lines[i], asset) && forall j :: 0 <= j < |lines| && Names(lines[j], asset) ==> j == i
    ensures r.Found? ==> Canonical(r.sum)
    ensures r.Found? ==> exists i :: 0 <= i < |lines| && Names(lines[i], asset) && r.sum == Lower(lines[i][0])
    ensures r.Missing? <==> forall i :: 0 <= i < |lines| ==> !Names(lines[i], asset)
  {
    var found := "";
    ghost var at := 0;
    for n := 0 to |lines|
      invariant found == "" ==> forall i :: 0 <= i < n ==> !Names(lines[i], asset)
      invariant found != "" ==> 0 <= at < n && Names(lines[at], asset)
      invariant found != "" ==> found == Lower(lines[at][0]) && Canonical(found)
      invariant found != "" ==> forall i :: 0 <= i < n && Names(lines[i], asset) ==> i == at
    {
      var fields := lines[n];
      if |fields| < 2 || |fields[0]| != 64 { continue; }
      if Plain(fields[|fields| - 1]) == asset {
        if !Sum(fields[0]) { continue; }
        if found != "" {
          assert Names(lines[n], asset) && Names(lines[at], asset) && at != n;
          return Ambiguous;
        }
        LowerCanonical(fields[0]);
        found, at := Lower(fields[0]), n;
      }
    }
    if found == "" { return Missing; }
    return Found(found);
  }

  /** The asset's own digest wins; otherwise SHA256SUMS, when the release has it, must give exactly one. */
  method ExpectedChecksum(digest: string, sums: Option<seq<seq<string>>>, asset: string) returns (r: Option<string>)
    ensures r.Some? ==> Canonical(r.value)
    ensures Digest(digest).Some? ==> r == Digest(digest)
    ensures Digest(digest).None? && sums.None? ==> r.None?
    ensures Digest(digest).None? && sums.Some? ==>
      (r.Some? <==> exists i :: 0 <= i < |sums.value| && Names(sums.value[i], asset)
                      && forall j :: 0 <= j < |sums.value| && Names(sums.value[j], asset) ==> j == i)
    ensures Digest(digest).None? && r.Some? ==> exists i ::
      0 <= i < |sums.value| && Names(sums.value[i], asset) && r.value == Lower(sums.value[i][0])
  {
    r := Digest(digest);
    if r.Some? || sums.None? { return; }
    var found := ChecksumFor(sums.value, asset);
    r := match found case Found(sum) => Some(sum) case _ => None;
  }
}
