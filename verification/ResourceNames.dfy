/**
 ByteStream resource names: what `parseResourceName` accepts, and that it reads
 back every name the clients print.
 */
module ResourceNames {
  import opened Wrappers
  import opened Content

  const INT64_LIMIT := 0x8000_0000_0000_0000

  datatype Kind = Plain | Zstd

  function TypeString(k: Kind): string {
    match k
    case Plain => "blobs"
    case Zstd => "compressed-blobs/zstd"
  }

  predicate IsHex(c: char) {
    'a' <= c <= 'f' || 'A' <= c <= 'F' || '0' <= c <= '9'
  }

  predicate IsDigit(c: char) {
    '0' <= c <= '9'
  }

  predicate HexString(s: string) {
    s != "" && forall i :: 0 <= i < |s| ==> IsHex(s[i])
  }

  predicate DigitString(s: string) {
    s != "" && forall i :: 0 <= i < |s| ==> IsDigit(s[i])
  }

  predicate Segment(s: string) {
    s != "" && '/' !in s
  }

  /** The character classes, by code point. */
  lemma CharacterClasses(s: string)
    ensures HexString(s) <==> s != "" && forall i :: 0 <= i < |s| ==>
              48 <= s[i] as int <= 57 || 65 <= s[i] as int <= 70 || 97 <= s[i] as int <= 102
    ensures DigitString(s) <==> s != "" && forall i :: 0 <= i < |s| ==> 48 <= s[i] as int <= 57
  {
  }

  // The two regular expressions, as relations between a name and its groups.

  /** `(?:^|.*<slash>)`: nothing, or anything that ends in a slash. */
  predicate Leading(prefix: string) {
    prefix == "" || prefix[|prefix| - 1] == '/'
  }

  ghost predicate ReadRegex(name: string, k: Kind, hash: string, digits: string) {
    && HexString(hash) && DigitString(digits)
    && exists prefix :: Leading(prefix) && name == prefix + TypeString(k) + "/" + hash + "/" + digits
  }

  ghost predicate WriteRegex(name: string, k: Kind, hash: string, digits: string) {
    && HexString(hash) && DigitString(digits)
    && exists prefix, uuid :: Leading(prefix) && Segment(uuid)
         && name == prefix + "uploads/" + uuid + "/" + TypeString(k) + "/" + hash + "/" + digits
  }

  ghost predicate Regex(name: string, isWrite: bool, k: Kind, hash: string, digits: string) {
    if isWrite then WriteRegex(name, k, hash, digits) else ReadRegex(name, k, hash, digits)
  }

  // Decimal numbers.

  function Value(digits: string): (v: nat)
    requires forall i :: 0 <= i < |digits| ==> IsDigit(digits[i])
  {
    if digits == "" then 0
    else
      var n := |digits| - 1;
      assert IsDigit(digits[n]);
      Value(digits[..n]) * 10 + (digits[n] as int - '0' as int)
  }

  function Decimal(n: nat): (s: string)
    ensures DigitString(s)
    ensures Value(s) == n
  {
    var last := ["0123456789"[n % 10]];
    if n < 10 then
      assert last[..0] == "";
      last
    else
      assert (Decimal(n / 10) + last)[..|Decimal(n / 10)|] == Decimal(n / 10);
      Decimal(n / 10) + last
  }

  // Names seen from the right, segment by segment. `None` stands for the start of the name.

  function Push(rest: Option<string>, segment: string): string {
    match rest
    case None => segment
    case Some(p) => p + "/" + segment
  }

  /** Splits at the last slash. */
  function Pop(s: string): (r: (Option<string>, string))
    ensures '/' !in r.1 && Push(r.0, r.1) == s
  {
    if s == "" then (None, "")
    else
      var n := |s| - 1;
      if s[n] == '/' then
        assert s == s[..n] + "/" + "";
        (Some(s[..n]), "")
      else
        var r := Pop(s[..n]);
        assert s == s[..n] + [s[n]];
        assert Push(r.0, r.1 + [s[n]]) == s;
        (r.0, r.1 + [s[n]])
  }

  lemma {:induction false} PopPush(rest: Option<string>, segment: string)
    requires '/' !in segment
    ensures Pop(Push(rest, segment)) == (rest, segment)
  {
    var s := Push(rest, segment);
    if segment == "" {
      if rest.Some? { assert s[|s| - 1] == '/' && s[..|s| - 1] == rest.value; }
    } else {
      var m := |segment| - 1;
      assert segment == segment[..m] + [segment[m]];
      PopPush(rest, segment[..m]);
      assert s[..|s| - 1] == Push(rest, segment[..m]);
      assert s[|s| - 1] == segment[m] && segment[m] in segment;
    }
  }

  function PushKind(rest: Option<string>, k: Kind): string {
    match k
    case Plain => Push(rest, "blobs")
    case Zstd => Push(Some(Push(rest, "compressed-blobs")), "zstd")
  }

  /** The kind at the end of a name, and what precedes it. */
  function PopKind(s: string): Option<(Option<string>, Kind)> {
    var (rest, segment) := Pop(s);
    if segment == "blobs" then Some((rest, Plain))
    else if segment == "zstd" && rest.Some? && Pop(rest.value).1 == "compressed-blobs"
    then Some((Pop(rest.value).0, Zstd))
    else None
  }

  lemma PopPushKind(rest: Option<string>, k: Kind)
    ensures PopKind(PushKind(rest, k)) == Some((rest, k))
  {
    match k
    case Plain => PopPush(rest, "blobs");
    case Zstd =>
      PopPush(Some(Push(rest, "compressed-blobs")), "zstd");
      PopPush(rest, "compressed-blobs");
  }

  lemma PopKindPush(s: string)
    ensures PopKind(s).Some? ==> PushKind(PopKind(s).value.0, PopKind(s).value.1) == s
  {
  }

  predicate UploadPrefix(rest: Option<string>) {
    rest.Some? && Pop(rest.value).1 != "" && Pop(rest.value).0.Some? && Pop(Pop(rest.value).0.value).1 == "uploads"
  }

  datatype Parsed = Parsed(digest: Digest, compressed: bool)

  /** `parseResourceName`. */
  function Parse(name: string, isWrite: bool): Option<Parsed> {
    var (rest, digits) := Pop(name);
    if rest.None? || !DigitString(digits) then None
    else
      var (rest', hash) := Pop(rest.value);
      if rest'.None? || !HexString(hash) then None
      else
        var kind := PopKind(rest'.value);
        if kind.None? || (isWrite && !UploadPrefix(kind.value.0)) then None
        else if Value(digits) >= INT64_LIMIT then None
        else Some(Parsed(Digest(hash, Value(digits)), kind.value.1 == Zstd))
  }

  /** A name assembled from its segments. */
  function Assembled(rest: Option<string>, k: Kind, hash: string, digits: string): string {
    Push(Some(Push(Some(PushKind(rest, k)), hash)), digits)
  }

  lemma NoSlash(hash: string, digits: string)
    ensures HexString(hash) ==> '/' !in hash
    ensures DigitString(digits) ==> '/' !in digits
  {
  }

  lemma ParseAssembled(rest: Option<string>, k: Kind, hash: string, digits: string, isWrite: bool)
    requires HexString(hash) && DigitString(digits)
    ensures Parse(Assembled(rest, k, hash, digits), isWrite) ==
              if (isWrite && !UploadPrefix(rest)) || Value(digits) >= INT64_LIMIT then None
              else Some(Parsed(Digest(hash, Value(digits)), k == Zstd))
  {
    NoSlash(hash, digits);
    PopPush(Some(Push(Some(PushKind(rest, k)), hash)), digits);
    PopPush(Some(PushKind(rest, k)), hash);
    PopPushKind(rest, k);
  }

  function Rest(prefix: string): Option<string>
    requires Leading(prefix)
  {
    if prefix == "" then None else Some(prefix[..|prefix| - 1])
  }

  lemma ZstdSegments()
    ensures TypeString(Zstd) == "compressed-blobs" + "/" + "zstd"
  {
  }

  lemma Associative(a: string, b: string, c: string)
    ensures a + (b + c) == a + b + c
  {
  }

  lemma PushRest(prefix: string, segment: string)
    requires Leading(prefix)
    ensures Push(Rest(prefix), segment) == prefix + segment
  {
    if prefix != "" { assert prefix == prefix[..|prefix| - 1] + "/"; }
  }

  lemma PushKindRest(prefix: string, k: Kind)
    requires Leading(prefix)
    ensures PushKind(Rest(prefix), k) == prefix + TypeString(k)
  {
    match k
    case Plain => PushRest(prefix, "blobs");
    case Zstd =>
      PushRest(prefix, "compressed-blobs");
      ZstdSegments();
      Associative(prefix, "compressed-blobs" + "/", "zstd");
      Associative(prefix, "compressed-blobs", "/");
  }

  lemma ConcatAssembled(prefix: string, k: Kind, hash: string, digits: string)
    requires Leading(prefix)
    ensures prefix + TypeString(k) + "/" + hash + "/" + digits == Assembled(Rest(prefix), k, hash, digits)
  {
    PushKindRest(prefix, k);
  }

  lemma UploadRest(prefix: string, uuid: string)
    requires Leading(prefix) && Segment(uuid)
    ensures var p := prefix + "uploads/" + uuid + "/"; Leading(p) && UploadPrefix(Rest(p))
  {
    var p := prefix + "uploads/" + uuid + "/";
    assert p[..|p| - 1] == Push(Some(Push(Rest(prefix), "uploads")), uuid) by {
      if prefix != "" { assert prefix == prefix[..|prefix| - 1] + "/"; }
      assert "uploads/" == "uploads" + "/";
    }
    PopPush(Some(Push(Rest(prefix), "uploads")), uuid);
    PopPush(Rest(prefix), "uploads");
  }

  /** If a name matches the regular expression with some groups, those groups are what is parsed,
      unless the size does not fit an int64. */
  lemma ParseComplete(name: string, isWrite: bool, k: Kind, hash: string, digits: string)
    requires Regex(name, isWrite, k, hash, digits)
    ensures Parse(name, isWrite) ==
              if Value(digits) >= INT64_LIMIT then None else Some(Parsed(Digest(hash, Value(digits)), k == Zstd))
  {
    if isWrite {
      var prefix, uuid :| Leading(prefix) && Segment(uuid)
        && name == prefix + "uploads/" + uuid + "/" + TypeString(k) + "/" + hash + "/" + digits;
      var p := prefix + "uploads/" + uuid + "/";
      UploadRest(prefix, uuid);
      ConcatAssembled(p, k, hash, digits);
      ParseAssembled(Rest(p), k, hash, digits, true);
    } else {
      var prefix :| Leading(prefix) && name == prefix + TypeString(k) + "/" + hash + "/" + digits;
      ConcatAssembled(prefix, k, hash, digits);
      ParseAssembled(Rest(prefix), k, hash, digits, false);
    }
  }

  function Prefix(rest: Option<string>): string {
    if rest.None? then "" else rest.value + "/"
  }

  lemma AssembledConcat(rest: Option<string>, k: Kind, hash: string, digits: string)
    ensures Leading(Prefix(rest))
    ensures Assembled(rest, k, hash, digits) == Prefix(rest) + TypeString(k) + "/" + hash + "/" + digits
  {
    ConcatAssembled(Prefix(rest), k, hash, digits);
    assert Rest(Prefix(rest)) == rest;
  }

  /** An upload prefix is `uploads/<uuid>/` behind anything that may lead. */
  lemma UploadPrefixSplits(rest: Option<string>)
    requires UploadPrefix(rest)
    ensures exists prefix, uuid :: Leading(prefix) && Segment(uuid) && Prefix(rest) == prefix + "uploads/" + uuid + "/"
  {
    var (rest2, uuid) := Pop(rest.value);
    var (rest3, uploads) := Pop(rest2.value);
    var prefix := Prefix(rest3);
    assert rest2.value == prefix + "uploads";
    assert rest.value == prefix + "uploads" + "/" + uuid;
    assert "uploads" + "/" == "uploads/";
    assert Prefix(rest) == prefix + "uploads/" + uuid + "/";
    assert Leading(prefix) && Segment(uuid);
  }

  lemma AssembledMatches(rest: Option<string>, isWrite: bool, k: Kind, hash: string, digits: string)
    requires HexString(hash) && DigitString(digits) && (isWrite ==> UploadPrefix(rest))
    ensures Regex(Assembled(rest, k, hash, digits), isWrite, k, hash, digits)
  {
    AssembledConcat(rest, k, hash, digits);
    if isWrite {
      UploadPrefixSplits(rest);
    }
  }

  /** Only names that match are parsed. */
  lemma ParseSound(name: string, isWrite: bool)
    requires Parse(name, isWrite).Some?
    ensures exists k, hash, digits :: Regex(name, isWrite, k, hash, digits)
  {
    var (rest, digits) := Pop(name);
    var (rest', hash) := Pop(rest.value);
    var kind := PopKind(rest'.value).value;
    PopKindPush(rest'.value);
    AssembledMatches(kind.0, isWrite, kind.1, hash, digits);
    assert Regex(name, isWrite, kind.1, hash, digits);
  }

  /** Parsing succeeds exactly on the names that match with a size below 2^63. */
  lemma ParseExactly(name: string, isWrite: bool)
    ensures Parse(name, isWrite).Some?
            <==> exists k, hash, digits ::
                   Regex(name, isWrite, k, hash, digits) && Value(digits) < 0x8000_0000_0000_0000
  {
    if Parse(name, isWrite).Some? {
      ParseSound(name, isWrite);
      var k, hash, digits :| Regex(name, isWrite, k, hash, digits);
      ParseComplete(name, isWrite, k, hash, digits);
    }
    if k, hash, digits :| Regex(name, isWrite, k, hash, digits) && Value(digits) < INT64_LIMIT {
      ParseComplete(name, isWrite, k, hash, digits);
    }
  }

  // What clients print.

  function InstancePrefix(instanceName: string): string {
    if instanceName == "" then "" else instanceName + "/"
  }

  /** `%d`. */
  function Printed(n: int): string {
    if n < 0 then "-" + Decimal(-n) else Decimal(n)
  }

  function ReadName(instanceName: string, k: Kind, d: Digest): string {
    InstancePrefix(instanceName) + TypeString(k) + "/" + d.hash + "/" + Printed(d.size)
  }

  function UploadsPrefix(instanceName: string, uuid: string): string {
    InstancePrefix(instanceName) + "uploads/" + uuid + "/"
  }

  function WriteName(instanceName: string, uuid: string, k: Kind, d: Digest): string {
    UploadsPrefix(instanceName, uuid) + TypeString(k) + "/" + d.hash + "/" + Printed(d.size)
  }

  /** The text of the names, for a size that is not negative. */
  lemma NamesPrinted(instanceName: string, uuid: string, hash: string, size: nat)
    ensures var prefix := if instanceName == "" then "" else instanceName + "/"; var n := Decimal(size);
            && ReadName(instanceName, Plain, Digest(hash, size)) == prefix + "blobs" + "/" + hash + "/" + n
            && ReadName(instanceName, Zstd, Digest(hash, size))
               == prefix + "compressed-blobs/zstd" + "/" + hash + "/" + n
            && WriteName(instanceName, uuid, Plain, Digest(hash, size))
               == prefix + "uploads/" + uuid + "/" + "blobs" + "/" + hash + "/" + n
            && WriteName(instanceName, uuid, Zstd, Digest(hash, size))
               == prefix + "uploads/" + uuid + "/" + "compressed-blobs/zstd" + "/" + hash + "/" + n
  {
  }

  /** Every printed name parses back to its digest and kind, whatever the instance name contains;
      a negative size is the one thing that is printed and not accepted. */
  lemma NameRoundTrip(instanceName: string, uuid: string, k: Kind, d: Digest)
    requires HexString(d.hash) && Segment(uuid) && d.size < INT64_LIMIT
    ensures Parse(ReadName(instanceName, k, d), false) == if d.size < 0 then None else Some(Parsed(d, k == Zstd))
    ensures Parse(WriteName(instanceName, uuid, k, d), true) == if d.size < 0 then None else Some(Parsed(d, k == Zstd))
  {
    UploadRest(InstancePrefix(instanceName), uuid);
    PrintedParses(InstancePrefix(instanceName), k, d, false);
    PrintedParses(UploadsPrefix(instanceName, uuid), k, d, true);
  }

  lemma PrintedParses(prefix: string, k: Kind, d: Digest, isWrite: bool)
    requires HexString(d.hash) && d.size < INT64_LIMIT
    requires Leading(prefix) && (isWrite ==> UploadPrefix(Rest(prefix)))
    ensures Parse(prefix + TypeString(k) + "/" + d.hash + "/" + Printed(d.size), isWrite)
            == if d.size < 0 then None else Some(Parsed(d, k == Zstd))
  {
    ConcatAssembled(prefix, k, d.hash, Printed(d.size));
    if d.size < 0 {
      NoSlash(d.hash, Decimal(-d.size));
      assert !IsDigit(Printed(d.size)[0]);
      PopPush(Some(Push(Some(PushKind(Rest(prefix), k)), d.hash)), Printed(d.size));
    } else {
      ParseAssembled(Rest(prefix), k, d.hash, Printed(d.size), isWrite);
    }
  }
}
