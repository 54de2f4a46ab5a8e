// src/kademlia/registry.go: package records and their verification.
module Records {
  import opened Wrappers
  import opened Ids
  import opened FindRpc

  const PUBLIC_KEY_SIZE := 32
  const MAX_NAME := 253

  // A hash field: empty, the lower-case text of an identifier, another spelling of one, or none.
  datatype HashText = Absent | Canonical(id: Id) | Noncanonical(id: Id, text: string) | Malformed(text: string)

  datatype Tag = VersionRecord | LatestPointer | OtherTag(text: string)

  datatype Record = Record(
    tag: Tag, domain: string, package: string, version: nat,
    blobHash: HashText, previous: HashText, recordHash: HashText, signature: Bytes)

  // What verification rests on: the configured owners, SHA-256, the JSON codec, Ed25519 and the
  // size limit. Nothing is assumed of these here.
  datatype Rules = Rules(
    owners: map<string, Bytes>, digest: Bytes -> Id, keyHash: string -> Id,
    encode: Record -> Bytes, decode: Bytes -> Option<Record>,
    signed: (Bytes, Id, Bytes) -> bool, maxValueSize: nat)

  datatype VerifyError = InvalidRecord | InvalidSignature | TooLargeRecord | InvalidFields | InvalidHash | NoncanonicalHash

  const ZERO_HASH: HashText := Canonical(ZERO)

  // The text whose hash is the key of a package.
  function KeyText(domain: string, package: string): string {
    domain + ":" + package + ":latest"
  }

  function LatestKey(rules: Rules, domain: string, package: string): Id {
    rules.keyHash(KeyText(domain, package))
  }

  predicate NameChar(c: char) {
    'a' <= c <= 'z' || '0' <= c <= '9' || c == '.' || c == '-' || c == '_'
  }

  ghost predicate ValidName(s: string) {
    s != "" && |s| <= MAX_NAME && forall i :: 0 <= i < |s| ==> NameChar(s[i])
  }

  // registry.go, validName.
  method CheckName(s: string) returns (ok: bool)
    ensures ok <==> ValidName(s)
    ensures ok <==> 0 < |s| <= 253 && forall i :: 0 <= i < |s| ==>
      || 'a' <= s[i] <= 'z' || '0' <= s[i] <= '9' || s[i] == '.' || s[i] == '-' || s[i] == '_'
  {
    if s == "" || |s| > MAX_NAME {
      return false;
    }
    for i := 0 to |s|
      invariant forall j :: 0 <= j < i ==> NameChar(s[j])
    {
      if !NameChar(s[i]) {
        return false;
      }
    }
    return true;
  }

  // The digest covered by a signature leaves the signature out.
  function RecordDigest(rules: Rules, v: Record): Id {
    rules.digest(rules.encode(v.(signature := [])))
  }

  predicate SignedByOwner(rules: Rules, v: Record) {
    && v.domain in rules.owners
    && |rules.owners[v.domain]| == PUBLIC_KEY_SIZE
    && rules.signed(rules.owners[v.domain], RecordDigest(rules, v), v.signature)
  }

  // A well-formed, owner-signed record of one kind.
  ghost predicate Verified(rules: Rules, v: Record, tag: Tag) {
    && v.tag == tag && ValidName(v.domain) && ValidName(v.package) && v.version > 0
    && SignedByOwner(rules, v)
    && |rules.encode(v)| <= rules.maxValueSize
    && if tag == VersionRecord then v.recordHash == Absent && v.blobHash.Canonical? && v.previous.Canonical?
       else v.recordHash.Canonical? && v.blobHash == Absent && v.previous == Absent
  }

  // registry.go, verify. The checks are listed in their order: each error is that of the first one
  // that fails, and a record passes when none does. The signature is the domain owner's, over the
  // hash of the record without its signature.
  method Verify(rules: Rules, v: Record, tag: Tag) returns (e: Option<VerifyError>)
    ensures e.None? <==> Verified(rules, v, tag)
    ensures var wrong := v.tag != tag || !ValidName(v.domain) || !ValidName(v.package) || v.version == 0;
      var unsigned := v.domain !in rules.owners || |rules.owners[v.domain]| != 32 ||
        !rules.signed(rules.owners[v.domain], rules.digest(rules.encode(v.(signature := []))), v.signature);
      var large := |rules.encode(v)| > rules.maxValueSize;
      var fields := if tag == VersionRecord then v.recordHash != Absent else v.blobHash != Absent || v.previous != Absent;
      var hashes := if tag == VersionRecord then [v.blobHash, v.previous] else [v.recordHash];
      && (e == Some(InvalidRecord) <==> wrong)
      && (e == Some(InvalidSignature) <==> !wrong && unsigned)
      && (e == Some(TooLargeRecord) <==> !wrong && !unsigned && large)
      && (e == Some(InvalidFields) <==> !wrong && !unsigned && !large && fields)
      && (e.None? <==> !wrong && !unsigned && !large && !fields && forall h :: h in hashes ==> h.Canonical?)
  {
    var domainOk := CheckName(v.domain);
    var packageOk := CheckName(v.package);
    if v.tag != tag || !domainOk || !packageOk || v.version == 0 {
      return Some(InvalidRecord);
    }
    if !SignedByOwner(rules, v) {
      return Some(InvalidSignature);
    }
    if |rules.encode(v)| > rules.maxValueSize {
      return Some(TooLargeRecord);
    }
    var hashes := [v.recordHash];
    if tag == VersionRecord {
      if v.recordHash != Absent {
        return Some(InvalidFields);
      }
      hashes := [v.blobHash, v.previous];
    } else if v.blobHash != Absent || v.previous != Absent {
      return Some(InvalidFields);
    }
    for i := 0 to |hashes|
      invariant forall j :: 0 <= j < i ==> hashes[j].Canonical?
    {
      if hashes[i].Absent? || hashes[i].Malformed? {
        return Some(InvalidHash);
      }
      if hashes[i].Noncanonical? {
        return Some(NoncanonicalHash);
      }
    }
    assert tag == VersionRecord ==> hashes[0] == v.blobHash && hashes[1] == v.previous;
    assert tag != VersionRecord ==> hashes[0] == v.recordHash;
    return None;
  }

  // ------------------------------------------------------------------ what a signature covers

  // The owner of the domain signed this record, with all checks written out.
  ghost predicate OwnerSigned(rules: Rules, v: Record) {
    && v.domain in rules.owners && |rules.owners[v.domain]| == 32
    && rules.signed(rules.owners[v.domain], rules.digest(rules.encode(v.(signature := []))), v.signature)
  }

  lemma VerifiedIsSigned(rules: Rules, v: Record, tag: Tag)
    requires Verified(rules, v, tag)
    ensures OwnerSigned(rules, v) && v.tag == tag && ValidName(v.domain) && ValidName(v.package) && v.version > 0
  {
  }

  // A signature covers every field but itself: records with the same signed digest differ in
  // nothing else, if their bare encodings read back and do not collide.
  lemma DigestCoversRecord(rules: Rules, v: Record, w: Record)
    requires RecordDigest(rules, v) == RecordDigest(rules, w)
    requires var x, y := v.(signature := []), w.(signature := []);
      && rules.decode(rules.encode(x)) == Some(x) && rules.decode(rules.encode(y)) == Some(y)
      && (rules.digest(rules.encode(x)) == rules.digest(rules.encode(y)) ==> rules.encode(x) == rules.encode(y))
    ensures w == v.(signature := w.signature)
  {
    assert w == w.(signature := []).(signature := w.signature);
  }

  // ------------------------------------------------------------------ keys of packages

  lemma NoColon(s: string, i: nat)
    requires ValidName(s) && i < |s|
    ensures s[i] != ':'
  {
    assert NameChar(s[i]);
  }

  // Names do not contain the separator, so that the text behind a key says which package it is.
  lemma KeyTextInjective(d: string, p: string, e: string, q: string)
    requires ValidName(d) && ValidName(p) && ValidName(e) && ValidName(q)
    requires KeyText(d, p) == KeyText(e, q)
    ensures d == e && p == q
  {
    hide ValidName;
    var s, t := KeyText(d, p), KeyText(e, q);
    assert s[|d|] == ':' && t[|e|] == ':';
    if |d| < |e| {
      NoColon(e, |d|);
    } else if |e| < |d| {
      NoColon(d, |e|);
    }
    assert d == s[..|d|] == t[..|e|] == e;
    assert p == s[|d| + 1..|s| - 7] == t[|e| + 1..|t| - 7] == q;
  }

  // Two packages share a key only if the hashes of two different texts collide.
  lemma KeyNamesPackage(rules: Rules, d: string, p: string, e: string, q: string)
    requires ValidName(d) && ValidName(p) && ValidName(e) && ValidName(q)
    requires var s, t := d + ":" + p + ":latest", e + ":" + q + ":latest";
      rules.keyHash(s) == rules.keyHash(t) ==> s == t
    ensures LatestKey(rules, d, p) == LatestKey(rules, e, q) <==> d == e && p == q
  {
    hide ValidName;
    if LatestKey(rules, d, p) == LatestKey(rules, e, q) {
      KeyTextInjective(d, p, e, q);
    }
  }
}
