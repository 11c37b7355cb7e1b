/**
 * The flag routes of the HTTP API: each handler takes a request the
 * framework has already validated, drives the store, and turns the store's
 * outcome into a response with its status code.
 */
module Routes {
  import opened Wrappers
  import opened JsArray
  import opened Types
  import opened Store

  // ---------------------------------------------------------------------------
  // Responses

  /** The two error bodies the routes send. */
  datatype ErrorCode = NotFoundCode | DuplicateKeyCode {

    function Code(): string {
      match this
      case NotFoundCode => "NOT_FOUND"
      case DuplicateKeyCode => "DUPLICATE_KEY"
    }

    function Message(): string {
      match this
      case NotFoundCode => "Resource not found"
      case DuplicateKeyCode => "Flag key already exists"
    }

    function Status(): nat {
      match this
      case NotFoundCode => 404
      case DuplicateKeyCode => 409
    }
  }

  /** `meta` of the list response: the number of records and a count per environment name. */
  datatype ListMeta = ListMeta(total: nat, environments: map<Environment, nat>)

  /** A reply; the list's records go out as `data`, like every other record body. */
  datatype Response =
    | Listed(list: seq<Flag>, meta: ListMeta)
    | Found(data: Flag)
    | Created(data: Flag)
    | Toggled(data: Flag, previousState: bool)
    | NoContent
    | Rejected(error: ErrorCode)
  {
    function Status(): nat {
      match this
      case Listed(_, _) => 200
      case Found(_) => 200
      case Created(_) => 201
      case Toggled(_, _) => 200
      case NoContent => 204
      case Rejected(error) => error.Status()
    }
  }

  /** The response a store error maps to: not found is 404, a duplicate pair 409. */
  function ErrorReply(e: StoreError): (r: Response)
    ensures r.Rejected?
    ensures e == NotFound <==> r.Status() == 404
    ensures e == DuplicateKey <==> r.Status() == 409
  {
    match e
    case NotFound => Rejected(NotFoundCode)
    case DuplicateKey => Rejected(DuplicateKeyCode)
  }

  // ---------------------------------------------------------------------------
  // GET /flags

  /** The number of records in fs that belong to environment e. */
  function CountIn(fs: seq<Flag>, e: Environment): (n: nat)
    ensures n <= |fs|
  {
    if fs == [] then 0
    else CountIn(fs[..|fs| - 1], e) + (if fs[|fs| - 1].environment == e then 1 else 0)
  }

  /**
   * The per-environment counts of the list response: one entry per
   * environment, each the size of the list filtered to it, summing to the total.
   */
  function Counts(fs: seq<Flag>): (r: map<Environment, nat>)
    ensures r.Keys == {Development, Staging, Production}
    ensures r[Development] == |Filter(fs, ByEnvironment(Development))|
    ensures r[Staging] == |Filter(fs, ByEnvironment(Staging))|
    ensures r[Production] == |Filter(fs, ByEnvironment(Production))|
    ensures r[Development] + r[Staging] + r[Production] == |fs|
  {
    CountsSumToTotal(fs);
    CountIsFilterSize(fs, Development);
    CountIsFilterSize(fs, Staging);
    CountIsFilterSize(fs, Production);
    map[Development := CountIn(fs, Development), Staging := CountIn(fs, Staging), Production := CountIn(fs, Production)]
  }

  /** The count for an environment is the length of the list filtered to that environment. */
  lemma {:induction false} CountIsFilterSize(fs: seq<Flag>, e: Environment)
    ensures CountIn(fs, e) == |Filter(fs, ByEnvironment(e))|
  {
    if fs != [] {
      var n := |fs| - 1;
      CountIsFilterSize(fs[..n], e);
      assert fs == fs[..n] + [fs[n]];
      FilterAppend(fs[..n], [fs[n]], ByEnvironment(e));
    }
  }

  /** Every record is counted under exactly one environment, so the counts sum to the total. */
  lemma {:induction false} CountsSumToTotal(fs: seq<Flag>)
    ensures CountIn(fs, Development) + CountIn(fs, Staging) + CountIn(fs, Production) == |fs|
  {
    if fs != [] {
      CountsSumToTotal(fs[..|fs| - 1]);
    }
  }

  /** The counting loop: starts every environment at zero and increments the record's own. */
  method CountEnvironments(flags: seq<Flag>) returns (environments: map<Environment, nat>)
    ensures environments == Counts(flags)
  {
    environments := map[Development := 0, Staging := 0, Production := 0];
    for i := 0 to |flags|
      invariant environments == map[Development := CountIn(flags[..i], Development),
                                     Staging := CountIn(flags[..i], Staging),
                                     Production := CountIn(flags[..i], Production)]
    {
      var f := flags[i];
      assert flags[..i + 1][..i] == flags[..i];
      if f.environment in environments {
        environments := environments[f.environment := environments[f.environment] + 1];
      }
    }
    assert flags[..|flags|] == flags;
  }

  /** The route hands the validated query to `getAll`, whose tag filter is read from `tags`, not `tag`. */
  function QueryFilters(q: FlagsQuery): (fl: Filters)
    ensures fl.environment == q.environment && fl.enabled == q.enabled && fl.search == q.search
    ensures fl.tags.None?
  {
    Filters(q.environment, q.enabled, q.search, None)
  }

  /** A tag in the query string filters nothing: an untagged record is listed under a tag query. */
  lemma TagQueryNotApplied(f: Flag)
    requires f.metadata.tags == []
    ensures var q := FlagsQuery(None, None, None, Some(["ui"]));
      && Select([f], QueryFilters(q)) == [f]
      && Select([f], Filters(None, None, None, q.tag)) == []
  {
    var q := FlagsQuery(None, None, None, Some(["ui"]));
    assert Matches(QueryFilters(q), f);
    assert !Matches(Filters(None, None, None, q.tag), f);
  }

  /** `GET /flags`: the selected records, their total, and a count per environment that sums to it. */
  method ListFlags(store: FeatureFlagStore, q: FlagsQuery) returns (resp: Response)
    requires store.Valid()
    ensures resp.Listed? && resp.Status() == 200
    ensures resp.list == Select(store.flags.Values(), QueryFilters(q))
    ensures resp.meta.total == |resp.list|
    ensures resp.meta.environments == Counts(resp.list)
    ensures resp.meta.environments[Development] + resp.meta.environments[Staging]
            + resp.meta.environments[Production] == resp.meta.total
  {
    var flags := store.GetAll(QueryFilters(q));
    var environments := CountEnvironments(flags);
    CountsSumToTotal(flags);
    resp := Listed(flags, ListMeta(|flags|, environments));
  }

  // ---------------------------------------------------------------------------
  // GET /flags/:id

  /** `GET /flags/:id`: the stored record, or 404. */
  function GetFlag(store: FeatureFlagStore, id: Id): (resp: Response)
    reads store
    requires store.Valid()
    ensures resp.Status() == 404 <==> id !in store.flags.entries
    ensures id in store.flags.entries ==> resp == Found(store.flags.entries[id]) && resp.data.id == id
    ensures id !in store.flags.entries ==> resp == Rejected(NotFoundCode)
  {
    match store.GetById(id)
    case None => Rejected(NotFoundCode)
    case Some(flag) => Found(flag)
  }

  // ---------------------------------------------------------------------------
  // POST /flags

  /** The record fields the create route passes on: description and expiry default to null. */
  function NewFlagOf(req: CreateFlagRequest): (d: NewFlag)
    ensures d.key == req.key && d.name == req.name && d.enabled == req.enabled && d.environment == req.environment
    ensures d.description == req.description.OrNull()
    ensures d.metadata == Metadata(req.metadata.owner, req.metadata.tags, req.metadata.expiresAt.OrNull())
  {
    NewFlag(
      req.key,
      req.name,
      req.description.OrNull(),
      req.enabled,
      req.environment,
      Metadata(req.metadata.owner, req.metadata.tags, req.metadata.expiresAt.OrNull()))
  }

  /**
   * From body to store: a validated create body reaches the store with
   * description null, owner "unassigned", no tags and no expiry wherever
   * the body left them out, and with a key, name and description of the
   * record schema's shape.
   */
  lemma CreateDefaults(body: CreateBody, now: Timestamp)
    requires ValidateCreate(body, now).Success?
    ensures var d := NewFlagOf(ValidateCreate(body, now).value);
      var fields := body.metadata.GetOr(MetadataFields(None, None, Missing));
      && d.key == body.key && d.name == body.name
      && (body.description.Present? <==> d.description.Some?)
      && (d.description.Some? ==> d.description.value == body.description.value)
      && d.enabled == body.enabled.GetOr(false)
      && d.metadata.owner == fields.owner.GetOr(DefaultOwner)
      && d.metadata.tags == fields.tags.GetOr([])
      && (fields.expiresAt.Present? <==> d.metadata.expiresAt.Some?)
      && (d.metadata.expiresAt.Some? ==> now < d.metadata.expiresAt.value == fields.expiresAt.value)
      && RecordWellFormed(Flag("", d.key, d.name, d.description, d.enabled, d.environment, d.metadata, now, now))
  {
    var req := ValidateCreate(body, now).value;
    CreateKeyRule(body.key);
    KebabCaseIff(body.key);
  }

  /** The create route's reply: 201 with the record, or the store error's reply. */
  function CreateReply(r: Result<Flag, StoreError>): (resp: Response)
    ensures r.Success? <==> resp.Status() == 201
    ensures r.Success? ==> resp == Created(r.value)
    ensures r.Failure? ==> resp == ErrorReply(r.error)
  {
    match r
    case Success(flag) => Created(flag)
    case Failure(e) => ErrorReply(e)
  }

  /** `POST /flags`: 201 with the new record, or 409 when the (key, environment) pair is taken. */
  method CreateFlag(store: FeatureFlagStore, req: CreateFlagRequest, id: Id, now: Timestamp) returns (resp: Response)
    requires store.Valid()
    requires id !in store.flags.entries
    modifies store, store.disk
    ensures store.Valid()
    ensures resp.Status() == 201 || resp.Status() == 409
    ensures resp.Status() == 409 <==> old(PairTaken(store.flags, req.key, req.environment))
    ensures resp.Status() == 409 ==> resp == Rejected(DuplicateKeyCode) && store.flags == old(store.flags)
    ensures resp.Status() == 201 ==>
              var d := NewFlagOf(req);
              && resp == Created(Flag(id, d.key, d.name, d.description, d.enabled, d.environment, d.metadata, now, now))
              && store.flags == old(store.flags).Set(id, resp.data)
    ensures old(UniquePairs(store.flags)) ==> UniquePairs(store.flags)
  {
    var r := store.Create(NewFlagOf(req), id, now);
    resp := CreateReply(r);
  }

  // ---------------------------------------------------------------------------
  // PATCH /flags/:id

  /** The update route's reply: 200 with the record, 404 or 409. */
  function UpdateReply(r: Result<Flag, StoreError>): (resp: Response)
    ensures r.Success? <==> resp.Status() == 200
    ensures r.Success? ==> resp == Found(r.value)
    ensures r.Failure? ==> resp == ErrorReply(r.error)
  {
    match r
    case Success(flag) => Found(flag)
    case Failure(e) => ErrorReply(e)
  }

  /** `PATCH /flags/:id`: 404 for an absent id, 409 for a colliding environment change, else 200. */
  method UpdateFlag(store: FeatureFlagStore, id: Id, patch: FlagPatch, now: Timestamp) returns (resp: Response)
    requires store.Valid()
    modifies store, store.disk
    ensures store.Valid()
    ensures resp.Status() == 404 <==> id !in old(store.flags.entries)
    ensures id in old(store.flags.entries) ==>
              (resp.Status() == 409 <==> old(EnvironmentClash(store.flags, id, patch)))
    ensures resp.Rejected? ==> store.flags == old(store.flags)
    ensures resp.Status() == 200 ==>
              && id in old(store.flags.entries)
              && resp == Found(ApplyUpdate(old(store.flags.entries[id]), patch, now))
              && store.flags == old(store.flags).Set(id, resp.data)
    ensures old(UniquePairs(store.flags)) ==> UniquePairs(store.flags)
  {
    var r := store.Update(id, patch, now);
    resp := UpdateReply(r);
  }

  // ---------------------------------------------------------------------------
  // DELETE /flags/:id

  function DeleteReply(removed: bool): (resp: Response)
    ensures removed <==> resp.Status() == 204
    ensures !removed ==> resp == Rejected(NotFoundCode)
  {
    if removed then NoContent else Rejected(NotFoundCode)
  }

  /** `DELETE /flags/:id`: 204 when the record was there, 404 otherwise; it is gone either way. */
  method DeleteFlag(store: FeatureFlagStore, id: Id) returns (resp: Response)
    requires store.Valid()
    modifies store, store.disk
    ensures store.Valid()
    ensures resp.Status() == 204 <==> id in old(store.flags.entries)
    ensures resp.Status() != 204 ==> resp == Rejected(NotFoundCode) && store.flags == old(store.flags)
    ensures id !in store.flags.entries
    ensures store.flags == old(store.flags).Delete(id)
  {
    var removed := store.Delete(id);
    resp := DeleteReply(removed);
  }

  // ---------------------------------------------------------------------------
  // POST /flags/:id/toggle

  /** The update toggle sends: only `enabled`. */
  function TogglePatch(enabled: bool): (p: FlagPatch)
    ensures p.enabled == Some(enabled)
    ensures p.name.None? && p.description.Missing? && p.environment.None? && p.metadata.None?
  {
    FlagPatch(None, Missing, Some(enabled), None, None)
  }

  /** A toggle flips `enabled`, refreshes `updatedAt` and changes nothing else. */
  lemma ToggleFlips(f: Flag, now: Timestamp)
    ensures ApplyUpdate(f, TogglePatch(!f.enabled), now) == f.(enabled := !f.enabled, updatedAt := now)
  {
  }

  /** Toggling twice restores `enabled` and leaves only the refreshed `updatedAt`. */
  lemma ToggleTwiceRestores(f: Flag, t1: Timestamp, t2: Timestamp)
    ensures var g := ApplyUpdate(f, TogglePatch(!f.enabled), t1);
      ApplyUpdate(g, TogglePatch(!g.enabled), t2) == f.(updatedAt := t2)
  {
    ToggleFlips(f, t1);
    ToggleFlips(f.(enabled := !f.enabled, updatedAt := t1), t2);
  }

  /**
   * `POST /flags/:id/toggle`: 404 and no change for an absent id; otherwise
   * the update of `enabled` to its negation, which cannot collide, and the
   * previous value.
   */
  method ToggleFlag(store: FeatureFlagStore, id: Id, now: Timestamp) returns (resp: Response)
    requires store.Valid()
    modifies store, store.disk
    ensures store.Valid()
    ensures resp.Status() == 404 <==> id !in old(store.flags.entries)
    ensures resp.Status() == 404 ==> resp == Rejected(NotFoundCode) && store.flags == old(store.flags)
    ensures resp.Status() != 404 ==>
              var before := old(store.flags.entries[id]);
              && resp == Toggled(before.(enabled := !before.enabled, updatedAt := now), before.enabled)
              && store.flags == old(store.flags).Set(id, resp.data)
    ensures old(UniquePairs(store.flags)) ==> UniquePairs(store.flags)
  {
    var current := store.GetById(id);
    if current.None? {
      return Rejected(NotFoundCode);
    }
    var flag := current.value;
    var previousState := flag.enabled;
    ToggleFlips(flag, now);
    assert flag.id == id && !EnvironmentClash(store.flags, id, TogglePatch(!previousState));
    assert id in store.flags.entries;
    var updated := store.Update(flag.id, TogglePatch(!previousState), now);
    match updated
    case Success(f) =>
      resp := Toggled(f, previousState);
    case Failure(NotFound) =>
      assert false;
    case Failure(DuplicateKey) =>
      assert false;
  }
}
