/**
 * The feature-flag record and the request schemas that guard the store:
 * the environment enum, the kebab-case key pattern, length bounds, defaults
 * and the future-expiry rule.
 */
module Types {
  import opened Wrappers

  /** A deployment stage; each flag record belongs to exactly one. */
  datatype Environment = Development | Staging | Production {

    /** The wire name of the environment. */
    function Name(): string {
      match this
      case Development => "development"
      case Staging => "staging"
      case Production => "production"
    }
  }

  /** The environment enum schema: accepts exactly the three wire names. */
  function ParseEnvironment(s: string): (r: Option<Environment>)
    ensures forall e: Environment :: r == Some(e) <==> s == e.Name()
  {
    if s == "development" then Some(Development)
    else if s == "staging" then Some(Staging)
    else if s == "production" then Some(Production)
    else None
  }

  /** Record ids are strings (uuids in the source). */
  type Id = string

  /** Points in time, abstracting the source's ISO-8601 strings; later is larger. */
  type Timestamp = nat

  datatype Metadata = Metadata(owner: string, tags: seq<string>, expiresAt: Option<Timestamp>)

  /** A stored feature flag; `None` stands for the source's `null`. */
  datatype Flag = Flag(
    id: Id,
    key: string,
    name: string,
    description: Option<string>,
    enabled: bool,
    environment: Environment,
    metadata: Metadata,
    createdAt: Timestamp,
    updatedAt: Timestamp)

  /** A request field that may be left out (`undefined`), sent as `null`, or given. */
  datatype Maybe<+T> = Missing | Null | Present(value: T) {

    /** `field ?? null` */
    function OrNull(): (r: Option<T>)
      ensures r.Some? <==> Present?
      ensures r.Some? ==> r.value == value
    {
      if Present? then Some(value) else None
    }
  }

  // ---------------------------------------------------------------------------
  // The key pattern ^[a-z0-9]+(-[a-z0-9]+)*$

  predicate IsKeyChar(c: char) {
    'a' <= c <= 'z' || '0' <= c <= '9'
  }

  /** Length of the leading run of `[a-z0-9]` characters (`[a-z0-9]+` read greedily). */
  function RunLength(s: string): (n: nat)
    ensures n <= |s|
    ensures forall i :: 0 <= i < n ==> IsKeyChar(s[i])
    ensures n < |s| ==> !IsKeyChar(s[n])
  {
    if |s| > 0 && IsKeyChar(s[0]) then 1 + RunLength(s[1..]) else 0
  }

  /** The pattern's tail `(-[a-z0-9]+)*$`. */
  predicate MatchesSegments(t: string)
    ensures MatchesSegments(t) ==> forall i :: 0 <= i < |t| ==> IsKebabChar(t[i])
    ensures MatchesSegments(t) && t != [] ==> t[0] == '-' && IsKeyChar(t[|t| - 1])
    decreases |t|
  {
    t == [] || (t[0] == '-' && var n := RunLength(t[1..]); n > 0 && MatchesSegments(t[1 + n..]))
  }

  /**
   * The whole pattern `^[a-z0-9]+(-[a-z0-9]+)*$`, used by the record schema,
   * by the create schema and by the dashboard's form check alike.
   */
  predicate MatchesKebabCase(s: string)
    ensures MatchesKebabCase(s) ==> |s| > 0 && IsKeyChar(s[0]) && IsKeyChar(s[|s| - 1])
    ensures MatchesKebabCase(s) ==> forall i :: 0 <= i < |s| ==> IsKebabChar(s[i])
  {
    var n := RunLength(s);
    n > 0 && MatchesSegments(s[n..])
  }

  predicate IsKebabChar(c: char) {
    IsKeyChar(c) || c == '-'
  }

  /** Only `[a-z0-9-]` characters and never two hyphens in a row. */
  predicate Clean(s: string) {
    && (forall i :: 0 <= i < |s| ==> IsKebabChar(s[i]))
    && (forall i :: 0 <= i < |s| - 1 ==> !(s[i] == '-' && s[i + 1] == '-'))
  }

  /** Non-empty, clean, and neither starting nor ending with a hyphen. */
  predicate KebabShape(s: string) {
    |s| > 0 && Clean(s) && s[0] != '-' && s[|s| - 1] != '-'
  }

  lemma CleanTail(s: string)
    requires |s| > 0
    ensures Clean(s) <==>
              IsKebabChar(s[0]) && (|s| > 1 ==> !(s[0] == '-' && s[1] == '-')) && Clean(s[1..])
  {
    var t := s[1..];
    if IsKebabChar(s[0]) && (|s| > 1 ==> !(s[0] == '-' && s[1] == '-')) && Clean(t) {
      forall i | 0 <= i < |s| ensures IsKebabChar(s[i]) {
        if i > 0 { assert s[i] == t[i - 1]; }
      }
      forall i | 0 <= i < |s| - 1 ensures !(s[i] == '-' && s[i + 1] == '-') {
        if i > 0 { assert s[i] == t[i - 1] && s[i + 1] == t[i]; }
      }
    }
  }

  /** Past a leading run of key characters, cleanliness is decided by the rest. */
  lemma {:induction false} CleanAfterRun(s: string, n: nat)
    requires 0 < n <= |s|
    requires forall i :: 0 <= i < n ==> IsKeyChar(s[i])
    ensures Clean(s) <==> Clean(s[n..])
  {
    CleanTail(s);
    if n > 1 {
      CleanAfterRun(s[1..], n - 1);
      assert s[1..][n - 1..] == s[n..];
    }
  }

  /** The pattern's tail matches exactly the empty string and clean hyphen-led strings. */
  lemma {:induction false} SegmentsIff(t: string)
    ensures MatchesSegments(t) <==> t == [] || (t[0] == '-' && Clean(t) && t[|t| - 1] != '-')
    decreases |t|
  {
    if t != [] && t[0] == '-' {
      var u := t[1..];
      var n := RunLength(u);
      CleanTail(t);
      if n == 0 {
        if |t| > 1 {
          assert t[1] == u[0];
        }
      } else {
        var w := u[n..];
        assert w == t[1 + n..];
        SegmentsIff(w);
        CleanAfterRun(u, n);
        if w != [] {
          assert t[|t| - 1] == w[|w| - 1];
          assert Clean(w) ==> IsKebabChar(w[0]);
        } else {
          assert t[|t| - 1] == u[n - 1];
        }
      }
    }
  }

  /**
   * A string matches the key pattern exactly when it is non-empty, uses only
   * `[a-z0-9-]`, and has no leading, trailing or doubled hyphen.
   */
  lemma KebabCaseIff(s: string)
    ensures MatchesKebabCase(s) <==> KebabShape(s)
  {
    var n := RunLength(s);
    if n > 0 {
      var w := s[n..];
      SegmentsIff(w);
      CleanAfterRun(s, n);
      if w != [] {
        assert s[|s| - 1] == w[|w| - 1];
        assert Clean(w) ==> IsKebabChar(w[0]);
      }
    } else if |s| > 0 {
      CleanTail(s);
    }
  }

  // ---------------------------------------------------------------------------
  // Schemas

  const KeyMinLength := 3
  const KeyMaxLength := 50
  const NameMaxLength := 100
  const DescriptionMaxLength := 500
  const DefaultOwner := "unassigned"

  datatype ValidationError = ValidationError

  /** The create schema's key rule: length 3 to 50 and the kebab-case pattern. */
  predicate KeyAccepted(key: string) {
    KeyMinLength <= |key| <= KeyMaxLength && MatchesKebabCase(key)
  }

  predicate NameAccepted(name: string) {
    1 <= |name| <= NameMaxLength
  }

  predicate DescriptionAccepted(description: Maybe<string>) {
    description.Present? ==> |description.value| <= DescriptionMaxLength
  }

  /** The create schema's refinement: a given expiry must lie strictly after now. */
  predicate ExpiryAccepted(expiresAt: Maybe<Timestamp>, now: Timestamp) {
    expiresAt.Present? ==> now < expiresAt.value
  }

  /** The record schema: what every stored flag is meant to satisfy. */
  predicate RecordWellFormed(f: Flag) {
    && MatchesKebabCase(f.key)
    && NameAccepted(f.name)
    && (f.description.Some? ==> |f.description.value| <= DescriptionMaxLength)
  }

  /** Metadata sub-fields as a request carries them, each optional. */
  datatype MetadataFields = MetadataFields(owner: Option<string>, tags: Option<seq<string>>, expiresAt: Maybe<Timestamp>)

  /** A create request body before validation. */
  datatype CreateBody = CreateBody(
    key: string,
    name: string,
    description: Maybe<string>,
    enabled: Option<bool>,
    environment: string,
    metadata: Option<MetadataFields>)

  /** Create metadata once the schema's defaults are filled in. */
  datatype CreateMetadata = CreateMetadata(owner: string, tags: seq<string>, expiresAt: Maybe<Timestamp>)

  /** A create request body after validation. */
  datatype CreateFlagRequest = CreateFlagRequest(
    key: string,
    name: string,
    description: Maybe<string>,
    enabled: bool,
    environment: Environment,
    metadata: CreateMetadata)

  /** The metadata object's defaults; an absent object is read as `{}`. */
  function CreateMetadataOf(m: Option<MetadataFields>): (r: CreateMetadata)
    ensures m.None? ==> r == CreateMetadata(DefaultOwner, [], Missing)
    ensures m.Some? ==> r.expiresAt == m.value.expiresAt
    ensures m.Some? && m.value.owner.Some? ==> r.owner == m.value.owner.value
    ensures m.Some? && m.value.owner.None? ==> r.owner == DefaultOwner
    ensures m.Some? && m.value.tags.Some? ==> r.tags == m.value.tags.value
    ensures m.Some? && m.value.tags.None? ==> r.tags == []
  {
    var fields := m.GetOr(MetadataFields(None, None, Missing));
    CreateMetadata(fields.owner.GetOr(DefaultOwner), fields.tags.GetOr([]), fields.expiresAt)
  }

  /** The create schema, including its expiry refinement checked against `now`. */
  function ValidateCreate(body: CreateBody, now: Timestamp): (r: Result<CreateFlagRequest, ValidationError>)
    ensures r.Success? <==>
              && KeyAccepted(body.key)
              && NameAccepted(body.name)
              && DescriptionAccepted(body.description)
              && ParseEnvironment(body.environment).Some?
              && ExpiryAccepted(CreateMetadataOf(body.metadata).expiresAt, now)
    ensures r.Success? ==>
              && r.value.key == body.key
              && r.value.name == body.name
              && r.value.description == body.description
              && r.value.enabled == body.enabled.GetOr(false)
              && r.value.environment.Name() == body.environment
              && r.value.metadata == CreateMetadataOf(body.metadata)
  {
    var environment := ParseEnvironment(body.environment);
    var metadata := CreateMetadataOf(body.metadata);
    if !KeyAccepted(body.key) || !NameAccepted(body.name) || !DescriptionAccepted(body.description) || environment.None? then
      Failure(ValidationError)
    else if metadata.expiresAt.Present? && !(metadata.expiresAt.value > now) then
      Failure(ValidationError)
    else
      Success(CreateFlagRequest(body.key, body.name, body.description, body.enabled.GetOr(false), environment.value, metadata))
  }

  /** The create schema's key rule in plain terms: 3 to 50 characters, kebab-case. */
  lemma CreateKeyRule(key: string)
    ensures KeyAccepted(key) <==> 3 <= |key| <= 50 && KebabShape(key)
  {
    KebabCaseIff(key);
  }

  /** A update request body before validation; `key` is sent but not part of the schema. */
  datatype UpdateBody = UpdateBody(
    key: Option<string>,
    name: Option<string>,
    description: Maybe<string>,
    enabled: Option<bool>,
    environment: Option<string>,
    metadata: Option<MetadataFields>)

  /** A validated update: only the fields it names are to change. There is no key. */
  datatype FlagPatch = FlagPatch(
    name: Option<string>,
    description: Maybe<string>,
    enabled: Option<bool>,
    environment: Option<Environment>,
    metadata: Option<MetadataFields>)

  /** The update schema; unknown fields such as `key` are stripped. */
  function ValidateUpdate(body: UpdateBody): (r: Result<FlagPatch, ValidationError>)
    ensures r.Success? <==>
              && (body.name.Some? ==> NameAccepted(body.name.value))
              && DescriptionAccepted(body.description)
              && (body.environment.Some? ==> ParseEnvironment(body.environment.value).Some?)
    ensures r.Success? ==>
              && r.value.name == body.name
              && r.value.description == body.description
              && r.value.enabled == body.enabled
              && (r.value.environment.Some? <==> body.environment.Some?)
              && (r.value.environment.Some? ==> r.value.environment.value.Name() == body.environment.value)
              && r.value.metadata == body.metadata
  {
    if body.name.Some? && !NameAccepted(body.name.value) then Failure(ValidationError)
    else if !DescriptionAccepted(body.description) then Failure(ValidationError)
    else if body.environment.Some? && ParseEnvironment(body.environment.value).None? then Failure(ValidationError)
    else
      var environment := if body.environment.Some? then ParseEnvironment(body.environment.value) else None;
      Success(FlagPatch(body.name, body.description, body.enabled, environment, body.metadata))
  }

  /** Whatever key an update body carries, validation gives the same patch. */
  lemma UpdateIgnoresKey(body: UpdateBody, key: Option<string>)
    ensures ValidateUpdate(body.(key := key)) == ValidateUpdate(body)
  {
  }

  /** The list query string before validation; every value arrives as a string. */
  datatype QueryParams = QueryParams(
    environment: Option<string>,
    enabled: Option<string>,
    search: Option<string>,
    tag: Option<seq<string>>)

  /** The list query after validation. */
  datatype FlagsQuery = FlagsQuery(
    environment: Option<Environment>,
    enabled: Option<bool>,
    search: Option<string>,
    tag: Option<seq<string>>)

  /** The `enabled` query value: `"true"` or `"false"`, nothing else. */
  function ParseBoolString(s: string): (r: Option<bool>)
    ensures r == Some(true) <==> s == "true"
    ensures r == Some(false) <==> s == "false"
  {
    if s == "true" then Some(true)
    else if s == "false" then Some(false)
    else None
  }

  /** The list query schema. */
  function ValidateQuery(q: QueryParams): (r: Result<FlagsQuery, ValidationError>)
    ensures r.Success? <==>
              && (q.environment.Some? ==> ParseEnvironment(q.environment.value).Some?)
              && (q.enabled.Some? ==> q.enabled.value in {"true", "false"})
    ensures r.Success? ==>
              && (r.value.environment.Some? <==> q.environment.Some?)
              && (r.value.environment.Some? ==> r.value.environment.value.Name() == q.environment.value)
              && (r.value.enabled.Some? <==> q.enabled.Some?)
              && (r.value.enabled.Some? ==> (r.value.enabled.value <==> q.enabled.value == "true"))
              && r.value.search == q.search
              && r.value.tag == q.tag
  {
    var environment := if q.environment.Some? then ParseEnvironment(q.environment.value) else None;
    var enabled := if q.enabled.Some? then ParseBoolString(q.enabled.value) else None;
    if q.environment.Some? && environment.None? then Failure(ValidationError)
    else if q.enabled.Some? && enabled.None? then Failure(ValidationError)
    else Success(FlagsQuery(environment, enabled, q.search, q.tag))
  }
}
