/**
 * The feature-flag store: a single-owner JavaScript Map from id to flag
 * record, loaded from a snapshot or seeded at construction, queried with
 * filters, and changed by create, update and delete, each of which rewrites
 * the snapshot on success.
 */
module Store {
  import opened Wrappers
  import opened JsArray
  import opened JsMap
  import opened Text
  import opened Types

  type FlagMap = OrderedMap<Id, Flag>

  /** The two business errors: the store's `undefined` and its 'DUPLICATE_KEY' exception. */
  datatype StoreError = NotFound | DuplicateKey

  /** The fields create receives; id and timestamps are the store's to set. */
  datatype NewFlag = NewFlag(
    key: string,
    name: string,
    description: Option<string>,
    enabled: bool,
    environment: Environment,
    metadata: Metadata)

  // ---------------------------------------------------------------------------
  // Invariants

  /** Every record is stored under its own id. */
  ghost predicate WellKeyed(m: FlagMap) {
    m.Valid() && forall id :: id in m.entries ==> m.entries[id].id == id
  }

  predicate HasPair(f: Flag, key: string, environment: Environment) {
    f.key == key && f.environment == environment
  }

  /** No two stored records share both key and environment. */
  ghost predicate UniquePairs(m: FlagMap) {
    forall a, b :: a in m.entries && b in m.entries && a != b ==>
      !HasPair(m.entries[b], m.entries[a].key, m.entries[a].environment)
  }

  ghost predicate PairTaken(m: FlagMap, key: string, environment: Environment) {
    exists id :: id in m.entries && HasPair(m.entries[id], key, environment)
  }

  ghost predicate PairTakenByOther(m: FlagMap, self: Id, key: string, environment: Environment) {
    exists id :: id in m.entries && id != self && HasPair(m.entries[id], key, environment)
  }

  /** Every record was created no later than it was last updated, and neither lies after now. */
  ghost predicate Chronological(m: FlagMap, now: Timestamp) {
    forall id :: id in m.entries ==> m.entries[id].createdAt <= m.entries[id].updatedAt <= now
  }

  /** A record that is neither inserted nor collides keeps the map's pairs unique. */
  lemma InsertKeepsUnique(m: FlagMap, id: Id, f: Flag)
    requires UniquePairs(m)
    requires !PairTakenByOther(m, id, f.key, f.environment)
    ensures UniquePairs(m.Set(id, f))
  {
    var m' := m.Set(id, f);
    forall a, b | a in m'.entries && b in m'.entries && a != b
      ensures !HasPair(m'.entries[b], m'.entries[a].key, m'.entries[a].environment)
    {
      if a == id {
        assert !HasPair(m.entries[b], f.key, f.environment);
      } else if b == id {
        assert !HasPair(m.entries[a], f.key, f.environment);
      }
    }
  }

  // ---------------------------------------------------------------------------
  // Update

  /**
   * The metadata deep merge: each supplied sub-field replaces the old one and
   * every sub-field left out keeps its value; an explicit null clears the expiry.
   */
  function MergeMetadata(m: Metadata, patch: Option<MetadataFields>): (r: Metadata)
    ensures patch.None? ==> r == m
    ensures patch.Some? && patch.value.owner.None? ==> r.owner == m.owner
    ensures patch.Some? && patch.value.owner.Some? ==> r.owner == patch.value.owner.value
    ensures patch.Some? && patch.value.tags.None? ==> r.tags == m.tags
    ensures patch.Some? && patch.value.tags.Some? ==> r.tags == patch.value.tags.value
    ensures patch.Some? && patch.value.expiresAt.Missing? ==> r.expiresAt == m.expiresAt
    ensures patch.Some? && patch.value.expiresAt.Null? ==> r.expiresAt.None?
    ensures patch.Some? && patch.value.expiresAt.Present? ==> r.expiresAt == Some(patch.value.expiresAt.value)
  {
    if patch.None? then m
    else
      var p := patch.value;
      Metadata(
        p.owner.GetOr(m.owner),
        p.tags.GetOr(m.tags),
        if p.expiresAt.Missing? then m.expiresAt else p.expiresAt.OrNull())
  }

  /** The record update writes: the patch over the old record, metadata merged, updatedAt refreshed. */
  function ApplyUpdate(f: Flag, patch: FlagPatch, now: Timestamp): (r: Flag)
    ensures r.id == f.id && r.key == f.key && r.createdAt == f.createdAt && r.updatedAt == now
    ensures r.name == patch.name.GetOr(f.name)
    ensures r.enabled == patch.enabled.GetOr(f.enabled)
    ensures r.environment == patch.environment.GetOr(f.environment)
    ensures patch.description.Missing? ==> r.description == f.description
    ensures !patch.description.Missing? ==> r.description == patch.description.OrNull()
  {
    f.(
      name := patch.name.GetOr(f.name),
      description := if patch.description.Missing? then f.description else patch.description.OrNull(),
      enabled := patch.enabled.GetOr(f.enabled),
      environment := patch.environment.GetOr(f.environment),
      metadata := MergeMetadata(f.metadata, patch.metadata),
      updatedAt := now)
  }

  /** Metadata sub-fields the patch leaves out keep their prior values. */
  lemma MetadataDeepMerge(f: Flag, patch: FlagPatch, now: Timestamp)
    ensures var m := ApplyUpdate(f, patch, now).metadata;
      var fields := patch.metadata.GetOr(MetadataFields(None, None, Missing));
      && m.owner == fields.owner.GetOr(f.metadata.owner)
      && m.tags == fields.tags.GetOr(f.metadata.tags)
      && (fields.expiresAt.Missing? ==> m.expiresAt == f.metadata.expiresAt)
      && (!fields.expiresAt.Missing? ==> m.expiresAt == fields.expiresAt.OrNull())
  {
  }

  /** Applying the same patch twice at the same time is applying it once. */
  lemma ApplyUpdateIdempotent(f: Flag, patch: FlagPatch, now: Timestamp)
    ensures ApplyUpdate(ApplyUpdate(f, patch, now), patch, now) == ApplyUpdate(f, patch, now)
  {
  }

  /** An environment change that would collide with another record's (key, environment). */
  ghost predicate EnvironmentClash(m: FlagMap, id: Id, patch: FlagPatch)
    requires id in m.entries
  {
    && patch.environment.Some?
    && patch.environment.value != m.entries[id].environment
    && PairTakenByOther(m, id, m.entries[id].key, patch.environment.value)
  }

  /** The predicate update's duplicate search applies: the pair, held by a record other than self. */
  function PairElsewhere(self: Id, key: string, environment: Environment): Flag -> bool {
    (f: Flag) => HasPair(f, key, environment) && f.id != self
  }

  /** Searching the values for the pair elsewhere finds a record exactly when another id holds the pair. */
  lemma PairElsewhereSearch(m: FlagMap, self: Id, key: string, environment: Environment)
    requires WellKeyed(m)
    ensures (exists i :: 0 <= i < |m.Values()| && PairElsewhere(self, key, environment)(m.Values()[i]))
            <==> PairTakenByOther(m, self, key, environment)
  {
    ValuesSatisfy(m, PairElsewhere(self, key, environment));
  }

  /**
   * update's `Array.from(values).find(...)` for the pair held by another
   * record: it finds one exactly when another id holds the pair.
   */
  function ClashSearch(m: FlagMap, self: Id, key: string, environment: Environment): (found: bool)
    requires WellKeyed(m)
    ensures found <==> PairTakenByOther(m, self, key, environment)
  {
    PairElsewhereSearch(m, self, key, environment);
    Find(m.Values(), PairElsewhere(self, key, environment)).Some?
  }

  /** Storing a record created no later than updated, and updated no later than now, keeps the map chronological. */
  lemma SetKeepsChronological(m: FlagMap, id: Id, f: Flag, now: Timestamp)
    requires m.Valid() && Chronological(m, now)
    requires f.createdAt <= f.updatedAt <= now
    ensures Chronological(m.Set(id, f), now)
  {
  }

  /** Without a clash, replacing a record by its update keeps pairs unique. */
  lemma UpdateKeepsUnique(m: FlagMap, id: Id, patch: FlagPatch, now: Timestamp)
    requires UniquePairs(m) && id in m.entries
    requires !EnvironmentClash(m, id, patch)
    ensures UniquePairs(m.Set(id, ApplyUpdate(m.entries[id], patch, now)))
  {
    InsertKeepsUnique(m, id, ApplyUpdate(m.entries[id], patch, now));
  }

  // ---------------------------------------------------------------------------
  // Queries

  /** The filters `getAll` reads; each is optional. */
  datatype Filters = Filters(
    environment: Option<Environment>,
    enabled: Option<bool>,
    search: Option<string>,
    tags: Option<seq<string>>)

  /** The lower-cased needle occurs in the lower-cased key, name or non-null description. */
  predicate SearchHit(f: Flag, needle: string) {
    || Includes(ToLower(f.key), needle)
    || Includes(ToLower(f.name), needle)
    || (f.description.Some? && Includes(ToLower(f.description.value), needle))
  }

  /** A record passes every supplied filter (an empty search or tag list filters nothing). */
  predicate Matches(fl: Filters, f: Flag) {
    && (fl.environment.Some? ==> f.environment == fl.environment.value)
    && (fl.enabled.Some? ==> f.enabled == fl.enabled.value)
    && (fl.tags.Some? && |fl.tags.value| > 0 ==> exists t :: t in fl.tags.value && t in f.metadata.tags)
    && (fl.search.Some? && fl.search.value != "" ==> SearchHit(f, ToLower(fl.search.value)))
  }

  function MatchesAll(fl: Filters): Flag -> bool {
    (f: Flag) => Matches(fl, f)
  }

  /** The records among vs that pass every supplied filter, in order. */
  function Select(vs: seq<Flag>, fl: Filters): seq<Flag> {
    Filter(vs, MatchesAll(fl))
  }

  function ByEnvironment(e: Environment): Flag -> bool {
    (f: Flag) => f.environment == e
  }

  function ByEnabled(b: bool): Flag -> bool {
    (f: Flag) => f.enabled == b
  }

  function ByAnyTag(tags: seq<string>): Flag -> bool {
    (f: Flag) => exists t :: t in tags && t in f.metadata.tags
  }

  function BySearch(needle: string): Flag -> bool {
    (f: Flag) => SearchHit(f, needle)
  }

  /**
   * `getAll`'s chain of filters over a copy of the values: applied one after
   * another, they select what their conjunction selects in one pass.
   */
  function FilterChain(all: seq<Flag>, fl: Filters): (r: seq<Flag>)
    ensures r == Select(all, fl)
  {
    EnvironmentStep(all, fl);
    EnabledStep(all, fl);
    TagsStep(all, fl);
    SearchStep(all, fl);
    var byEnvironment := if fl.environment.Some? then Filter(all, ByEnvironment(fl.environment.value)) else all;
    var byEnabled := if fl.enabled.Some? then Filter(byEnvironment, ByEnabled(fl.enabled.value)) else byEnvironment;
    var byTags := if fl.tags.Some? && |fl.tags.value| > 0 then Filter(byEnabled, ByAnyTag(fl.tags.value)) else byEnabled;
    if fl.search.Some? && fl.search.value != "" then Filter(byTags, BySearch(ToLower(fl.search.value))) else byTags
  }

  function UpToEnvironment(fl: Filters): Flag -> bool {
    (f: Flag) => fl.environment.Some? ==> f.environment == fl.environment.value
  }

  function UpToEnabled(fl: Filters): Flag -> bool {
    (f: Flag) => UpToEnvironment(fl)(f) && (fl.enabled.Some? ==> f.enabled == fl.enabled.value)
  }

  function UpToTags(fl: Filters): Flag -> bool {
    (f: Flag) => UpToEnabled(fl)(f) && (fl.tags.Some? && |fl.tags.value| > 0 ==> exists t :: t in fl.tags.value && t in f.metadata.tags)
  }

  lemma EnvironmentStep(all: seq<Flag>, fl: Filters)
    ensures (if fl.environment.Some? then Filter(all, ByEnvironment(fl.environment.value)) else all)
            == Filter(all, UpToEnvironment(fl))
  {
    if fl.environment.Some? {
      FilterExt(all, ByEnvironment(fl.environment.value), UpToEnvironment(fl));
    } else {
      FilterAll(all, UpToEnvironment(fl));
    }
  }

  lemma EnabledStep(all: seq<Flag>, fl: Filters)
    ensures var r := Filter(all, UpToEnvironment(fl));
      (if fl.enabled.Some? then Filter(r, ByEnabled(fl.enabled.value)) else r) == Filter(all, UpToEnabled(fl))
  {
    if fl.enabled.Some? {
      FilterFilter(all, UpToEnvironment(fl), ByEnabled(fl.enabled.value), UpToEnabled(fl));
    } else {
      FilterExt(all, UpToEnvironment(fl), UpToEnabled(fl));
    }
  }

  lemma TagsStep(all: seq<Flag>, fl: Filters)
    ensures var r := Filter(all, UpToEnabled(fl));
      (if fl.tags.Some? && |fl.tags.value| > 0 then Filter(r, ByAnyTag(fl.tags.value)) else r) == Filter(all, UpToTags(fl))
  {
    if fl.tags.Some? && |fl.tags.value| > 0 {
      FilterFilter(all, UpToEnabled(fl), ByAnyTag(fl.tags.value), UpToTags(fl));
    } else {
      FilterExt(all, UpToEnabled(fl), UpToTags(fl));
    }
  }

  lemma SearchStep(all: seq<Flag>, fl: Filters)
    ensures var r := Filter(all, UpToTags(fl));
      (if fl.search.Some? && fl.search.value != "" then Filter(r, BySearch(ToLower(fl.search.value))) else r) == Select(all, fl)
  {
    var needle := ToLower(if fl.search.Some? then fl.search.value else "");
    forall f: Flag
      ensures MatchesAll(fl)(f) == (UpToTags(fl)(f) && (fl.search.Some? && fl.search.value != "" ==> BySearch(needle)(f)))
    {
      assert UpToTags(fl)(f) == (UpToEnabled(fl)(f) && (fl.tags.Some? && |fl.tags.value| > 0 ==> ByAnyTag(fl.tags.value)(f)));
      assert UpToEnabled(fl)(f) == (UpToEnvironment(fl)(f) && (fl.enabled.Some? ==> f.enabled == fl.enabled.value));
    }
    if fl.search.Some? && fl.search.value != "" {
      FilterFilter(all, UpToTags(fl), BySearch(needle), MatchesAll(fl));
    } else {
      FilterExt(all, UpToTags(fl), MatchesAll(fl));
    }
  }

  /** With no filter supplied, every record is returned. */
  lemma SelectNoFilters(vs: seq<Flag>)
    ensures Select(vs, Filters(None, None, None, None)) == vs
  {
    FilterAll(vs, MatchesAll(Filters(None, None, None, None)));
  }

  // ---------------------------------------------------------------------------
  // Seed data

  /** One entry of the fixed seed list. */
  datatype SeedFlag = SeedFlag(
    key: string,
    name: string,
    environment: Environment,
    enabled: bool,
    tags: seq<string>,
    description: Option<string>)

  const SeedFlags: seq<SeedFlag> := [
    SeedFlag("dark-mode", "Dark Mode", Production, true, ["ui", "theme"], Some("Enable dark mode theme across the application")),
    SeedFlag("dark-mode", "Dark Mode (Staging)", Staging, true, ["ui", "theme"], None),
    SeedFlag("new-checkout-flow", "New Checkout Flow", Staging, true, ["payments", "experiment"], None),
    SeedFlag("new-checkout-flow", "New Checkout Flow", Development, true, ["payments", "experiment"], None),
    SeedFlag("ai-recommendations", "AI Recommendations", Development, true, ["ml", "experiment"], None),
    SeedFlag("beta-dashboard", "Beta Dashboard", Staging, false, ["ui", "beta"], None),
    SeedFlag("maintenance-mode", "Maintenance Mode", Production, false, ["ops", "critical"], None),
    SeedFlag("feature-analytics", "Feature Analytics", Production, true, ["analytics"], None),
    SeedFlag("social-login", "Social Login", Development, true, ["auth"], None),
    SeedFlag("export-csv", "CSV Export", Production, true, ["data", "utility"], None),
    SeedFlag("bulk-operations", "Bulk Operations", Staging, true, ["admin", "utility"], None),
    SeedFlag("notification-center", "Notification Center", Development, false, ["ui", "notifications"], None)
  ]

  /**
   * The name a seed record's id is derived from, `key:environment`; the
   * name-based uuid over it is taken to be collision-free.
   */
  function SeedId(key: string, environment: Environment): Id {
    key + ":" + environment.Name()
  }

  /** In a seed id over a colon-free key, the first colon sits right after the key. */
  lemma SeedIdColon(k: string, e: Environment)
    requires ':' !in k
    ensures SeedId(k, e)[|k|] == ':'
    ensures forall i :: 0 <= i < |k| ==> SeedId(k, e)[i] != ':'
  {
    assert forall i :: 0 <= i < |k| ==> SeedId(k, e)[i] == k[i];
  }

  /** Distinct (key, environment) pairs give distinct seed ids when keys have no colon. */
  lemma SeedIdInjective(k1: string, e1: Environment, k2: string, e2: Environment)
    requires ':' !in k1 && ':' !in k2
    ensures SeedId(k1, e1) == SeedId(k2, e2) ==> k1 == k2 && e1 == e2
  {
    var s1, s2 := SeedId(k1, e1), SeedId(k2, e2);
    if s1 == s2 {
      SeedIdColon(k1, e1);
      SeedIdColon(k2, e2);
      assert k1 == s1[..|k1|] && k2 == s2[..|k2|];
      assert e1.Name() == s1[|k1| + 1..] && e2.Name() == s2[|k2| + 1..];
    }
  }

  /** The record seeding builds from one entry: owner "system", no expiry, both timestamps now. */
  function SeedRecord(s: SeedFlag, now: Timestamp): (f: Flag)
    ensures f.id == SeedId(s.key, s.environment)
    ensures f.key == s.key && f.name == s.name && f.enabled == s.enabled && f.environment == s.environment
    ensures f.description.Some? <==> s.description.Some? && s.description.value != ""
    ensures f.description.Some? ==> f.description == s.description
    ensures f.metadata == Metadata("system", s.tags, None)
    ensures f.createdAt == now && f.updatedAt == now
  {
    Flag(
      SeedId(s.key, s.environment),
      s.key,
      s.name,
      if s.description.Some? && s.description.value != "" then s.description else None,
      s.enabled,
      s.environment,
      Metadata("system", s.tags, None),
      now,
      now)
  }

  function SeedEntries(now: Timestamp): (kvs: seq<(Id, Flag)>)
    ensures |kvs| == |SeedFlags|
    ensures forall i :: 0 <= i < |kvs| ==> kvs[i] == (SeedId(SeedFlags[i].key, SeedFlags[i].environment), SeedRecord(SeedFlags[i], now))
  {
    seq(|SeedFlags|, i requires 0 <= i < |SeedFlags| =>
      (SeedId(SeedFlags[i].key, SeedFlags[i].environment), SeedRecord(SeedFlags[i], now)))
  }

  /** The state a store seeded at time now holds. */
  function SeedMap(now: Timestamp): FlagMap {
    FromEntries(SeedEntries(now))
  }

  /** The seed list never repeats a (key, environment) pair. */
  lemma SeedPairsDistinct()
    ensures forall i, j :: 0 <= i < j < |SeedFlags| ==>
              !(SeedFlags[i].key == SeedFlags[j].key && SeedFlags[i].environment == SeedFlags[j].environment)
  {
  }

  // Each seed key, checked on its literal.
  lemma DarkModeKey() ensures KebabShape("dark-mode") && ':' !in "dark-mode" { }
  lemma NewCheckoutFlowKey() ensures KebabShape("new-checkout-flow") && ':' !in "new-checkout-flow" { }
  lemma AiRecommendationsKey() ensures KebabShape("ai-recommendations") && ':' !in "ai-recommendations" { }
  lemma BetaDashboardKey() ensures KebabShape("beta-dashboard") && ':' !in "beta-dashboard" { }
  lemma MaintenanceModeKey() ensures KebabShape("maintenance-mode") && ':' !in "maintenance-mode" { }
  lemma FeatureAnalyticsKey() ensures KebabShape("feature-analytics") && ':' !in "feature-analytics" { }
  lemma SocialLoginKey() ensures KebabShape("social-login") && ':' !in "social-login" { }
  lemma ExportCsvKey() ensures KebabShape("export-csv") && ':' !in "export-csv" { }
  lemma BulkOperationsKey() ensures KebabShape("bulk-operations") && ':' !in "bulk-operations" { }
  lemma NotificationCenterKey() ensures KebabShape("notification-center") && ':' !in "notification-center" { }

  /** Every seed key has kebab shape and so contains no colon; names and descriptions fit their bounds. */
  lemma SeedKeyShape(i: nat)
    requires i < |SeedFlags|
    ensures KebabShape(SeedFlags[i].key) && ':' !in SeedFlags[i].key
    ensures NameAccepted(SeedFlags[i].name)
    ensures SeedFlags[i].description.Some? ==> |SeedFlags[i].description.value| <= DescriptionMaxLength
  {
    if i == 0 { DarkModeKey(); assert SeedFlags[i].key == "dark-mode"; }
    else if i == 1 { DarkModeKey(); assert SeedFlags[i].key == "dark-mode"; }
    else if i == 2 { NewCheckoutFlowKey(); assert SeedFlags[i].key == "new-checkout-flow"; }
    else if i == 3 { NewCheckoutFlowKey(); assert SeedFlags[i].key == "new-checkout-flow"; }
    else if i == 4 { AiRecommendationsKey(); assert SeedFlags[i].key == "ai-recommendations"; }
    else if i == 5 { BetaDashboardKey(); assert SeedFlags[i].key == "beta-dashboard"; }
    else if i == 6 { MaintenanceModeKey(); assert SeedFlags[i].key == "maintenance-mode"; }
    else if i == 7 { FeatureAnalyticsKey(); assert SeedFlags[i].key == "feature-analytics"; }
    else if i == 8 { SocialLoginKey(); assert SeedFlags[i].key == "social-login"; }
    else if i == 9 { ExportCsvKey(); assert SeedFlags[i].key == "export-csv"; }
    else if i == 10 { BulkOperationsKey(); assert SeedFlags[i].key == "bulk-operations"; }
    else { NotificationCenterKey(); assert SeedFlags[i].key == "notification-center"; }
  }

  /** Seed ids are pairwise distinct. */
  lemma SeedIdsDistinct(now: Timestamp)
    ensures DistinctKeys(SeedEntries(now))
  {
    var kvs := SeedEntries(now);
    SeedPairsDistinct();
    forall i, j | 0 <= i < j < |kvs| ensures kvs[i].0 != kvs[j].0 {
      SeedKeyShape(i);
      SeedKeyShape(j);
      SeedIdInjective(SeedFlags[i].key, SeedFlags[i].environment, SeedFlags[j].key, SeedFlags[j].environment);
    }
  }

  /** Every seed record satisfies the record schema. */
  lemma SeedRecordsWellFormed(now: Timestamp)
    ensures forall i :: 0 <= i < |SeedFlags| ==> RecordWellFormed(SeedRecord(SeedFlags[i], now))
  {
    forall i | 0 <= i < |SeedFlags| ensures RecordWellFormed(SeedRecord(SeedFlags[i], now)) {
      var s := SeedFlags[i];
      SeedKeyShape(i);
      KebabCaseIff(s.key);
      var f := SeedRecord(s, now);
      assert f.key == s.key && f.name == s.name;
    }
  }

  /** The seed ids in list order. */
  function SeedIds(): (ids: seq<Id>)
    ensures |ids| == |SeedFlags|
    ensures forall i :: 0 <= i < |ids| ==> ids[i] == SeedId(SeedFlags[i].key, SeedFlags[i].environment)
  {
    seq(|SeedFlags|, i requires 0 <= i < |SeedFlags| => SeedId(SeedFlags[i].key, SeedFlags[i].environment))
  }

  /** The seed records in list order. */
  function SeedRecords(now: Timestamp): (fs: seq<Flag>)
    ensures |fs| == |SeedFlags|
    ensures forall i :: 0 <= i < |fs| ==> fs[i] == SeedRecord(SeedFlags[i], now)
  {
    seq(|SeedFlags|, i requires 0 <= i < |SeedFlags| => SeedRecord(SeedFlags[i], now))
  }

  /**
   * The seeded state iterates the twelve records in list order, each under
   * its derived id, and holds nothing else.
   */
  lemma SeedMapShape(now: Timestamp)
    ensures SeedMap(now).keys == SeedIds()
    ensures SeedMap(now).Values() == SeedRecords(now)
    ensures forall id :: id in SeedMap(now).entries ==>
              exists i :: 0 <= i < |SeedFlags| && id == SeedId(SeedFlags[i].key, SeedFlags[i].environment)
                          && SeedMap(now).entries[id] == SeedRecord(SeedFlags[i], now)
  {
    var kvs := SeedEntries(now);
    var m := SeedMap(now);
    SeedIdsDistinct(now);
    FromEntriesDistinct(kvs);
    forall id | id in m.entries
      ensures exists i :: 0 <= i < |SeedFlags| && id == SeedId(SeedFlags[i].key, SeedFlags[i].environment)
                          && m.entries[id] == SeedRecord(SeedFlags[i], now)
    {
      assert id in m.keys;
      var i :| 0 <= i < |m.keys| && m.keys[i] == id;
      assert kvs[i].0 == id;
    }
  }

  /**
   * The seeded state: every record stored under its own id, pairs unique,
   * owner "system", no expiry, both timestamps now, and every record of the
   * record schema's shape.
   */
  lemma SeedMapFacts(now: Timestamp)
    ensures WellKeyed(SeedMap(now))
    ensures UniquePairs(SeedMap(now))
    ensures Chronological(SeedMap(now), now)
    ensures forall id :: id in SeedMap(now).entries ==>
              var f := SeedMap(now).entries[id];
              && f.metadata.owner == "system"
              && f.metadata.expiresAt.None?
              && f.createdAt == f.updatedAt == now
              && RecordWellFormed(f)
  {
    var m := SeedMap(now);
    SeedMapShape(now);
    SeedPairsDistinct();
    SeedRecordsWellFormed(now);
    forall a, b | a in m.entries && b in m.entries && a != b
      ensures !HasPair(m.entries[b], m.entries[a].key, m.entries[a].environment)
    {
      var i :| 0 <= i < |SeedFlags| && a == SeedId(SeedFlags[i].key, SeedFlags[i].environment)
               && m.entries[a] == SeedRecord(SeedFlags[i], now);
      var j :| 0 <= j < |SeedFlags| && b == SeedId(SeedFlags[j].key, SeedFlags[j].environment)
               && m.entries[b] == SeedRecord(SeedFlags[j], now);
      assert i != j;
    }
  }

  /** Seeding at different times yields the same ids in the same order. */
  lemma SeedIdsStable(t1: Timestamp, t2: Timestamp)
    ensures SeedMap(t1).keys == SeedMap(t2).keys
  {
    SeedMapShape(t1);
    SeedMapShape(t2);
  }

  // ---------------------------------------------------------------------------
  // Snapshot

  /** The loaded array keyed by each record's own id. */
  function ById(fs: seq<Flag>): (kvs: seq<(Id, Flag)>)
    ensures |kvs| == |fs|
    ensures forall i :: 0 <= i < |fs| ==> kvs[i] == (fs[i].id, fs[i])
  {
    seq(|fs|, i requires 0 <= i < |fs| => (fs[i].id, fs[i]))
  }

  /**
   * `new Map(parsed.map((f) => [f.id, f]))`: one entry per id in the array,
   * holding the last record with that id.
   */
  function FromRecords(fs: seq<Flag>): (m: FlagMap)
    ensures m.Valid()
    ensures forall id :: id in m.entries <==> exists i :: 0 <= i < |fs| && fs[i].id == id
    ensures forall i :: 0 <= i < |fs| && (forall j :: i < j < |fs| ==> fs[j].id != fs[i].id) ==>
              fs[i].id in m.entries && m.entries[fs[i].id] == fs[i]
  {
    FromEntries(ById(fs))
  }

  /** A snapshot that loads: present, parsed as an array, and non-empty. */
  predicate Loads(file: Option<seq<Flag>>) {
    file.Some? && |file.value| > 0
  }

  /** Loading any array yields records stored under their own ids. */
  lemma {:induction false} FromRecordsWellKeyed(fs: seq<Flag>)
    ensures WellKeyed(FromRecords(fs))
  {
    if fs != [] {
      var n := |fs| - 1;
      FromRecordsWellKeyed(fs[..n]);
      assert ById(fs)[..n] == ById(fs[..n]);
    }
  }

  /** Restart: loading what a save wrote reproduces the store exactly, ids included. */
  lemma SnapshotRoundTrip(m: FlagMap)
    requires WellKeyed(m)
    ensures FromRecords(m.Values()) == m
  {
    assert ById(m.Values()) == m.Entries();
    EntriesRoundTrip(m);
  }

  /**
   * The snapshot file.  A write that succeeds replaces it completely.  One that
   * fails either fails before the file is opened (the directory cannot be made),
   * leaving it as it was, or fails after the file was truncated, leaving text
   * that no longer parses and so reads as missing.
   */
  class Disk {
    /** None: missing, unreadable, not JSON, or not an array. */
    var file: Option<seq<Flag>>
    /** Whether the next write succeeds. */
    var writable: bool
    /** Whether a failing write fails after truncating the file. */
    var torn: bool

    constructor (file: Option<seq<Flag>>, writable: bool, torn: bool)
      ensures this.file == file && this.writable == writable && this.torn == torn
    {
      this.file := file;
      this.writable := writable;
      this.torn := torn;
    }

    /** `writeFileSync`: the records on success; a truncated, unreadable file or the old one on failure. */
    method Write(records: seq<Flag>)
      modifies this
      ensures writable == old(writable) && torn == old(torn)
      ensures file == Written(records, old(file))
    {
      if writable {
        file := Some(records);
      } else if torn {
        file := None;
      }
    }

    /** What the file holds after writing records over before. */
    function Written(records: seq<Flag>, before: Option<seq<Flag>>): Option<seq<Flag>>
      reads this
    {
      if writable then Some(records) else if torn then None else before
    }
  }

  /**
   * What the next start finds after a save: the saved records if the write
   * landed (and they were not empty); after a failed write, the old snapshot
   * only if the file was never opened, so a write that failed after truncating
   * the file makes the next start seed again.
   */
  lemma RestartAfterSave(d: Disk, records: seq<Flag>, before: Option<seq<Flag>>)
    ensures Loads(d.Written(records, before)) <==>
              (d.writable && |records| > 0) || (!d.writable && !d.torn && Loads(before))
  {
  }

  // ---------------------------------------------------------------------------
  // The store

  class FeatureFlagStore {
    var flags: FlagMap
    const disk: Disk

    ghost predicate Valid()
      reads this
    {
      WellKeyed(flags)
    }

    /**
     * After a save: the snapshot holds the values if the write landed; if it
     * failed, nothing readable after a truncation, else what it held before.
     */
    ghost predicate Persisted(before: Option<seq<Flag>>)
      reads this, disk
      requires Valid()
    {
      disk.file == disk.Written(flags.Values(), before)
    }

    /** Loads the snapshot if it is present and non-empty; otherwise seeds and saves. */
    constructor (disk: Disk, now: Timestamp)
      modifies disk
      ensures this.disk == disk && Valid()
      ensures disk.writable == old(disk.writable) && disk.torn == old(disk.torn)
      ensures Loads(old(disk.file)) ==> flags == FromRecords(old(disk.file).value) && disk.file == old(disk.file)
      ensures !Loads(old(disk.file)) ==> flags == SeedMap(now) && UniquePairs(flags) && Persisted(old(disk.file))
    {
      this.disk := disk;
      flags := Empty();
      new;
      var loaded := LoadFromDisk();
      if !loaded {
        Seed(now);
        SeedMapFacts(now);
        SaveToDisk();
      }
    }

    /** `loadFromDisk`: replaces the map by the snapshot's records and reports whether any were loaded. */
    method LoadFromDisk() returns (loaded: bool)
      modifies this`flags
      ensures disk.file.None? ==> !loaded && flags == old(flags)
      ensures disk.file.Some? ==> flags == FromRecords(disk.file.value) && (loaded <==> |disk.file.value| > 0)
      ensures old(Valid()) ==> Valid()
    {
      if disk.file.None? {
        return false;
      }
      flags := FromRecords(disk.file.value);
      FromRecordsWellKeyed(disk.file.value);
      FromEntriesSize(ById(disk.file.value));
      loaded := flags.Size() > 0;
    }

    /** `saveToDisk`: best effort, never touches the in-memory map. */
    method SaveToDisk()
      requires Valid()
      modifies disk
      ensures disk.writable == old(disk.writable) && disk.torn == old(disk.torn)
      ensures Persisted(old(disk.file))
    {
      disk.Write(flags.Values());
    }

    /** `seed`: sets every seed record, in list order, under its derived id. */
    method Seed(now: Timestamp)
      modifies this`flags
      ensures flags == SetAll(old(flags), SeedEntries(now))
    {
      var entries := SeedEntries(now);
      var i := 0;
      while i < |SeedFlags|
        invariant 0 <= i <= |SeedFlags|
        invariant flags == SetAll(old(flags), entries[..i])
      {
        var s := SeedFlags[i];
        flags := flags.Set(SeedId(s.key, s.environment), SeedRecord(s, now));
        assert entries[..i + 1][..i] == entries[..i];
        i := i + 1;
      }
      assert entries[..|SeedFlags|] == entries;
    }

    /** `getAll`: the records passing every supplied filter, in insertion order. */
    function GetAll(fl: Filters): (r: seq<Flag>)
      reads this
      requires Valid()
      ensures r == Select(flags.Values(), fl)
    {
      FilterChain(flags.Values(), fl)
    }

    /** `getById` */
    function GetById(id: Id): (r: Option<Flag>)
      reads this
      requires Valid()
      ensures r.Some? <==> id in flags.entries
      ensures r.Some? ==> r.value == flags.entries[id] && r.value.id == id
    {
      flags.Get(id)
    }

    /** `create`: rejects a taken (key, environment) pair, otherwise stores a new record under the fresh id. */
    method Create(data: NewFlag, id: Id, now: Timestamp) returns (r: Result<Flag, StoreError>)
      requires Valid()
      requires id !in flags.entries
      modifies this`flags, disk
      ensures Valid()
      ensures r.Failure? <==> old(PairTaken(flags, data.key, data.environment))
      ensures r.Failure? ==> r.error == DuplicateKey && flags == old(flags) && unchanged(disk)
      ensures r.Success? ==>
                && r.value == Flag(id, data.key, data.name, data.description, data.enabled,
                                   data.environment, data.metadata, now, now)
                && flags == old(flags).Set(id, r.value)
                && flags.Values() == old(flags.Values()) + [r.value]
                && disk.writable == old(disk.writable) && disk.torn == old(disk.torn) && Persisted(old(disk.file))
      ensures old(UniquePairs(flags)) ==> UniquePairs(flags)
      ensures old(Chronological(flags, now)) ==> Chronological(flags, now)
    {
      var p := (f: Flag) => HasPair(f, data.key, data.environment);
      var existing := Find(flags.Values(), p);
      ValuesSatisfy(flags, p);
      if existing.Some? {
        return Failure(DuplicateKey);
      }
      var flag := Flag(id, data.key, data.name, data.description, data.enabled, data.environment, data.metadata, now, now);
      if UniquePairs(flags) {
        InsertKeepsUnique(flags, id, flag);
      }
      flags := flags.Set(id, flag);
      SaveToDisk();
      r := Success(flag);
    }

    /** `update`: not found, a colliding environment change, or the patched record stored in place. */
    method Update(id: Id, patch: FlagPatch, now: Timestamp) returns (r: Result<Flag, StoreError>)
      requires Valid()
      modifies this`flags, disk
      ensures Valid()
      ensures r == Failure(NotFound) <==> id !in old(flags.entries)
      ensures id in old(flags.entries) ==> (r == Failure(DuplicateKey) <==> old(EnvironmentClash(flags, id, patch)))
      ensures r.Failure? ==> flags == old(flags) && unchanged(disk)
      ensures r.Success? ==>
                && id in old(flags.entries)
                && r.value == ApplyUpdate(old(flags.entries[id]), patch, now)
                && flags == old(flags).Set(id, r.value)
                && flags.keys == old(flags.keys)
                && disk.writable == old(disk.writable) && disk.torn == old(disk.torn) && Persisted(old(disk.file))
      ensures old(UniquePairs(flags)) ==> UniquePairs(flags)
      ensures old(Chronological(flags, now)) ==> Chronological(flags, now)
    {
      var current := GetById(id);
      if current.None? {
        return Failure(NotFound);
      }
      var flag := current.value;
      if patch.environment.Some? && patch.environment.value != flag.environment {
        var existing := ClashSearch(flags, id, flag.key, patch.environment.value);
        if existing {
          return Failure(DuplicateKey);
        }
      }
      assert !EnvironmentClash(flags, id, patch);
      var updated := StoreUpdate(id, patch, now);
      r := Success(updated);
    }

    /** update's success path: stores the patched record in place of the old one and saves. */
    method StoreUpdate(id: Id, patch: FlagPatch, now: Timestamp) returns (updated: Flag)
      requires Valid() && id in flags.entries && !EnvironmentClash(flags, id, patch)
      modifies this`flags, disk
      ensures Valid()
      ensures updated == ApplyUpdate(old(flags.entries[id]), patch, now)
      ensures flags == old(flags).Set(id, updated) && flags.keys == old(flags.keys)
      ensures disk.writable == old(disk.writable) && disk.torn == old(disk.torn) && Persisted(old(disk.file))
      ensures old(UniquePairs(flags)) ==> UniquePairs(flags)
      ensures old(Chronological(flags, now)) ==> Chronological(flags, now)
    {
      updated := ApplyUpdate(flags.entries[id], patch, now);
      if UniquePairs(flags) {
        UpdateKeepsUnique(flags, id, patch, now);
      }
      if Chronological(flags, now) {
        SetKeepsChronological(flags, id, updated, now);
      }
      flags := flags.Set(id, updated);
      SaveToDisk();
    }

    /** `delete`: reports whether the id was present; afterwards it is absent. */
    method Delete(id: Id) returns (removed: bool)
      requires Valid()
      modifies this`flags, disk
      ensures Valid()
      ensures removed <==> id in old(flags.entries)
      ensures id !in flags.entries
      ensures flags == old(flags).Delete(id)
      ensures removed ==> disk.writable == old(disk.writable) && disk.torn == old(disk.torn) && Persisted(old(disk.file))
      ensures !removed ==> flags == old(flags) && unchanged(disk)
      ensures old(UniquePairs(flags)) ==> UniquePairs(flags)
    {
      removed := id in flags.entries;
      flags := flags.Delete(id);
      if removed {
        SaveToDisk();
      }
    }
  }
}
