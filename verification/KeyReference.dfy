/** Data classes and the `kms://<tenant>/<class>/v<version>` key references built on them. */
module KeyReference {
  import opened Wrappers
  import opened Text

  datatype DataClass =
    | Public | Internal | Personal | Confidential | Gobd | LegalHoldClass
    | AiPrompt | AiOutput | RagChunk | Embedding | VoiceTranscript

  function ClassName(c: DataClass): string {
    match c
    case Public => "public"
    case Internal => "internal"
    case Personal => "personal"
    case Confidential => "confidential"
    case Gobd => "gobd"
    case LegalHoldClass => "legal_hold"
    case AiPrompt => "ai_prompt"
    case AiOutput => "ai_output"
    case RagChunk => "rag_chunk"
    case Embedding => "embedding"
    case VoiceTranscript => "voice_transcript"
  }

  /** Looks a class up by its wire name. */
  function ClassOf(name: string): (r: Option<DataClass>)
    ensures r.Some? ==> ClassName(r.value) == name
    ensures r.None? ==> forall c :: ClassName(c) != name
  {
    if name == "public" then Some(Public)
    else if name == "internal" then Some(Internal)
    else if name == "personal" then Some(Personal)
    else if name == "confidential" then Some(Confidential)
    else if name == "gobd" then Some(Gobd)
    else if name == "legal_hold" then Some(LegalHoldClass)
    else if name == "ai_prompt" then Some(AiPrompt)
    else if name == "ai_output" then Some(AiOutput)
    else if name == "rag_chunk" then Some(RagChunk)
    else if name == "embedding" then Some(Embedding)
    else if name == "voice_transcript" then Some(VoiceTranscript)
    else None
  }

  /** A reference the record type can hold: its validators trim the tenant and demand a
      non-empty tenant and a version of at least one. */
  datatype KeyRef = KeyRef(tenant: string, class_: DataClass, version: nat) {
    predicate Valid() {
      tenant != "" && Trimmed(tenant) && version >= 1
    }

    function Path(): string {
      tenant + "/" + (ClassName(class_) + "/" + ("v" + Decimal(version)))
    }

    function Canonical(): string {
      SCHEME + Path()
    }
  }

  datatype KeyRefError =
    | WrongScheme | WrongShape | EmptyTenant | UnknownClass | WrongVersion | NotCanonical

  const SCHEME := "kms://"

  /** `str.split("/")`. */
  function SplitSlash(s: string): (parts: seq<string>)
    ensures |parts| >= 1
  {
    if s == "" then [""]
    else
      var rest := SplitSlash(s[1..]);
      if s[0] == '/' then [""] + rest else [[s[0]] + rest[0]] + rest[1..]
  }

  function Join(parts: seq<string>): string
    requires parts != []
  {
    if |parts| == 1 then parts[0] else parts[0] + "/" + Join(parts[1..])
  }

  /** Matches `v([1-9][0-9]*)` and yields the digits. */
  function VersionDigits(s: string): (r: Option<string>)
    ensures r.Some? ==> s == "v" + r.value && r.value != "" && r.value[0] != '0'
                        && forall i :: 0 <= i < |r.value| ==> IsDigit(r.value[i])
  {
    if |s| >= 2 && s[0] == 'v' && s[1] != '0' && forall i :: 1 <= i < |s| ==> IsDigit(s[i])
    then Some(s[1..]) else None
  }

  function ReadParts(parts: seq<string>): Result<KeyRef, KeyRefError> {
    if |parts| != 3 then Err(WrongShape)
    else if Blank(parts[0]) then Err(EmptyTenant)
    else if ClassOf(parts[1]).None? then Err(UnknownClass)
    else if VersionDigits(parts[2]).None? then Err(WrongVersion)
    else Ok(KeyRef(Strip(parts[0]), ClassOf(parts[1]).value, ParseDecimal(VersionDigits(parts[2]).value)))
  }

  function Parse(value: string): Result<KeyRef, KeyRefError> {
    var normalized := Strip(value);
    if !(SCHEME <= normalized) then Err(WrongScheme)
    else
      var reference :- ReadParts(SplitSlash(normalized[|SCHEME|..]));
      if normalized != reference.Canonical() then Err(NotCanonical) else Ok(reference)
  }

  lemma {:induction false} SplitPartsHaveNoSlash(s: string)
    ensures forall i :: 0 <= i < |SplitSlash(s)| ==> '/' !in SplitSlash(s)[i]
  {
    if s != "" {
      SplitPartsHaveNoSlash(s[1..]);
    }
  }

  /** Whatever parses is a valid reference without a slash in its tenant, and prints back to
      the trimmed input. */
  lemma ParsedPrintsBack(value: string)
    ensures var r := Parse(value);
            r.Ok? ==> r.value.Valid() && '/' !in r.value.tenant && r.value.Canonical() == Strip(value)
  {
    var r := Parse(value);
    if r.Ok? {
      var parts := SplitSlash(Strip(value)[|SCHEME|..]);
      SplitPartsHaveNoSlash(Strip(value)[|SCHEME|..]);
      StripFacts(parts[0]);
      PrintParsesBack(VersionDigits(parts[2]).value);
    }
  }

  /** Joining slash-free parts and splitting again gives the parts back. */
  lemma {:induction false} SplitJoin(parts: seq<string>)
    requires parts != [] && forall i :: 0 <= i < |parts| ==> '/' !in parts[i]
    ensures SplitSlash(Join(parts)) == parts
    decreases |parts|, |parts[0]|
  {
    var s := Join(parts);
    if parts[0] != "" {
      var shorter := [parts[0][1..]] + parts[1..];
      assert shorter[1..] == parts[1..];
      SplitJoin(shorter);
      assert s[0] == parts[0][0] && s[1..] == Join(shorter);
      assert parts[0] == [s[0]] + shorter[0];
      assert [[s[0]] + shorter[0]] + shorter[1..] == parts;
    } else if |parts| > 1 {
      SplitJoin(parts[1..]);
      assert s[1..] == Join(parts[1..]);
      assert [""] + parts[1..] == parts;
    }
  }

  /** A slash in the tenant leaves more than three parts. */
  lemma {:induction false} SlashSplits(s: string, tail: string)
    ensures |SplitSlash(s + "/" + tail)| == |SplitSlash(s)| + |SplitSlash(tail)|
    ensures '/' in s ==> |SplitSlash(s)| >= 2
  {
    var whole := s + "/" + tail;
    if s == "" {
      assert whole[1..] == tail;
    } else {
      assert whole[1..] == s[1..] + "/" + tail;
      SlashSplits(s[1..], tail);
    }
  }

  lemma {:induction false} ClassNamesHaveNoSlash(c: DataClass)
    ensures '/' !in ClassName(c) && ClassOf(ClassName(c)) == Some(c)
  {
    match c {
      case Public => case Internal => case Personal => case Confidential => case Gobd =>
      case LegalHoldClass => case AiPrompt => case AiOutput => case RagChunk =>
      case Embedding => case VoiceTranscript =>
    }
  }

  lemma DropPrefix(prefix: string, s: string)
    ensures prefix <= prefix + s && (prefix + s)[|prefix|..] == s
  {
  }

  /** The canonical text carries no outer white space and splits into scheme and path. */
  lemma CanonicalShape(r: KeyRef)
    requires r.Valid()
    ensures Strip(r.Canonical()) == r.Canonical()
    ensures SCHEME <= r.Canonical() && r.Canonical()[|SCHEME|..] == r.Path()
  {
    var text := r.Canonical();
    var digits := Decimal(r.version);
    assert text[|text| - 1] == digits[|digits| - 1] by {
      var path := r.Path();
      assert path[|path| - 1] == digits[|digits| - 1];
    }
    assert text[0] == 'k';
    PrintableIsSolid('k');
    PrintableIsSolid(digits[|digits| - 1]);
    StripFacts(text);
    DropPrefix(SCHEME, r.Path());
  }

  lemma ThreePartsJoin(a: string, b: string, c: string)
    ensures Join([a, b, c]) == a + "/" + (b + "/" + c)
  {
    assert [a, b, c][1..] == [b, c] && [b, c][1..] == [c];
    assert Join([b, c]) == b + "/" + c;
  }

  lemma VersionRoundTrip(n: nat)
    requires n >= 1
    ensures VersionDigits("v" + Decimal(n)) == Some(Decimal(n))
    ensures ParseDecimal(Decimal(n)) == n
  {
    ParsePrintsBack(n);
    assert ("v" + Decimal(n))[1..] == Decimal(n);
    assert forall i :: 1 <= i < |"v" + Decimal(n)| ==> ("v" + Decimal(n))[i] == Decimal(n)[i - 1];
  }

  lemma PartsReadBack(r: KeyRef)
    requires r.Valid()
    ensures ReadParts([r.tenant, ClassName(r.class_), "v" + Decimal(r.version)]) == Ok(r)
  {
    StripFacts(r.tenant);
    ClassNamesHaveNoSlash(r.class_);
    VersionRoundTrip(r.version);
  }

  lemma PathSplits(r: KeyRef)
    requires '/' !in r.tenant
    ensures SplitSlash(r.Path()) == [r.tenant, ClassName(r.class_), "v" + Decimal(r.version)]
  {
    ClassNamesHaveNoSlash(r.class_);
    ThreePartsJoin(r.tenant, ClassName(r.class_), "v" + Decimal(r.version));
    SplitJoin([r.tenant, ClassName(r.class_), "v" + Decimal(r.version)]);
  }

  lemma PathSplitsTooFar(r: KeyRef)
    requires '/' in r.tenant
    ensures |SplitSlash(r.Path())| > 3
  {
    SlashSplits(r.tenant, ClassName(r.class_) + "/" + ("v" + Decimal(r.version)));
    SlashSplits(ClassName(r.class_), "v" + Decimal(r.version));
  }

  /** Printing a valid reference and parsing the text gives it back exactly when its tenant
      has no slash; with a slash the text is rejected. */
  lemma CanonicalRoundTrip(r: KeyRef)
    requires r.Valid()
    ensures Parse(r.Canonical()) == Ok(r) <==> '/' !in r.tenant
    ensures '/' in r.tenant ==> Parse(r.Canonical()) == Err(WrongShape)
  {
    CanonicalShape(r);
    if '/' in r.tenant {
      PathSplitsTooFar(r);
    } else {
      PathSplits(r);
      PartsReadBack(r);
    }
  }
}
