/**
 * The user-attribute part of the delivery service, over its memo tables and the profile cache
 * updated in place. Each method is proved to compute what Enrichment says on values.
 */
module UserAttrs {
  import opened Wrappers
  import opened Enrichment

  /** Schema definitions by registry ID, attribute rows by datasource, and which of the reads fail. */
  datatype Registry = Registry(
    definitions: map<string, string>,
    downIds: set<string>,
    attributes: string -> seq<Option<ClenAttribute>>,
    downSources: set<string>)

  type SchemaMemo = map<string, set<string>>
  type IdMemo = map<string, map<string, string>>

  /** The fields of a schema: the nil ID has none, a memoised answer stays, a failed read is None. */
  function SchemaFields(json: Json, memo: SchemaMemo, registry: Registry, id: string): Option<set<string>> {
    if id == NIL_UUID then Some({})
    else if id in memo then Some(memo[id])
    else if id in registry.downIds then None
    else if id in registry.definitions && registry.definitions[id] != "" then Some(json.properties(registry.definitions[id]))
    else Some({})
  }

  function DeclaredBy(json: Json, memo: SchemaMemo, registry: Registry): Declared {
    id => SchemaFields(json, memo, registry, id).GetOr({})
  }

  function SourceIds(memo: IdMemo, registry: Registry, ds: string): Option<map<string, string>> {
    if ds == "" then Some(map[])
    else if ds in memo then Some(memo[ds])
    else if ds in registry.downSources then None
    else Some(FieldIds(registry.attributes(ds)))
  }

  function IdsBy(memo: IdMemo, registry: Registry): AttributeIds {
    ds => SourceIds(memo, registry, ds).GetOr(map[])
  }

  /** The memo after these schemas were looked up: every answer that was read is kept. */
  function Remember(json: Json, memo: SchemaMemo, registry: Registry, ids: set<string>): SchemaMemo {
    memo + map id | id in ids && id != NIL_UUID && id !in memo && id !in registry.downIds ::
             SchemaFields(json, memo, registry, id).GetOr({})
  }

  function RememberIds(memo: IdMemo, registry: Registry, sources: set<string>): IdMemo {
    memo + map ds | ds in sources && ds != "" && ds !in memo && ds !in registry.downSources ::
             FieldIds(registry.attributes(ds))
  }

  /** The memo is transparent: while the registry stays, remembering changes no answer. */
  lemma RememberChangesNothing(json: Json, memo: SchemaMemo, registry: Registry, ids: set<string>, id: string)
    ensures SchemaFields(json, Remember(json, memo, registry, ids), registry, id) == SchemaFields(json, memo, registry, id)
  {}

  lemma RememberIdsChangesNothing(memo: IdMemo, registry: Registry, sources: set<string>, ds: string)
    ensures SourceIds(RememberIds(memo, registry, sources), registry, ds) == SourceIds(memo, registry, ds)
  {}

  lemma RememberMore(json: Json, memo: SchemaMemo, registry: Registry, ids: set<string>, id: string)
    ensures Remember(json, Remember(json, memo, registry, ids), registry, {id}) == Remember(json, memo, registry, ids + {id})
  {
    RememberChangesNothing(json, memo, registry, ids, id);
  }

  lemma RememberMoreIds(memo: IdMemo, registry: Registry, sources: set<string>, ds: string)
    ensures RememberIds(RememberIds(memo, registry, sources), registry, {ds}) == RememberIds(memo, registry, sources + {ds})
  {
    var a, b := RememberIds(RememberIds(memo, registry, sources), registry, {ds}), RememberIds(memo, registry, sources + {ds});
    forall k ensures (k in a <==> k in b) && (k in a ==> a[k] == b[k]) {
      RememberedAt(memo, registry, sources, k);
      RememberedAt(memo, registry, sources + {ds}, k);
      RememberedAt(RememberIds(memo, registry, sources), registry, {ds}, k);
    }
    SameEntries(a, b);
  }

  /** What the memo then holds for one datasource. */
  lemma RememberedAt(memo: IdMemo, registry: Registry, sources: set<string>, k: string)
    ensures var after := RememberIds(memo, registry, sources);
            && (k in after <==> k in memo || (k in sources && k != "" && k !in registry.downSources))
            && (k in after ==> after[k] == if k in memo then memo[k] else FieldIds(registry.attributes(k)))
  {}

  lemma SameEntries<V>(a: map<string, V>, b: map<string, V>)
    requires forall k :: (k in a <==> k in b) && (k in a ==> a[k] == b[k])
    ensures a == b
  {}

  /** The IDs of a datasource's attributes, by case; a failed read has none and is not remembered. */
  lemma SourceIdsExactly(memo: IdMemo, registry: Registry, ds: string)
    ensures var ids := IdsBy(memo, registry)(ds);
            && (ds == "" ==> ids == map[])
            && (ds != "" && ds in memo ==> ids == memo[ds])
            && (ds != "" && ds !in memo && ds in registry.downSources ==> ids == map[])
            && (ds != "" && ds !in memo && ds !in registry.downSources ==> ids == FieldIds(registry.attributes(ds)))
    ensures SourceIds(memo, registry, ds).None? <==> ds != "" && ds !in memo && ds in registry.downSources
    ensures ds !in memo && (ds == "" || ds in registry.downSources) ==> ds !in RememberIds(memo, registry, {ds})
  {}

  /** What one resolve reads and fetches from outside. */
  datatype Outside = Outside(registry: Registry, readOk: bool, response: Option<Response>, writeOk: bool)

  function ProfileKey(customerType: string, customerId: string): string {
    "customer_profile:" + customerType + ":" + customerId
  }

  /** The profile the rules are evaluated on: the cached one, with a fetched response merged in. */
  function Enriched(json: Json, delta: map<string, set<string>>, profile: Profile, response: Option<Response>): Profile {
    if delta != map[] && Usable(response) then Merge(json, profile, Surfaced(json, response.value.body)) else profile
  }

  /** The envelope a resolve finds cached. */
  function Found(profiles: map<string, string>, customerType: string, customerId: string, readOk: bool): Option<string> {
    var key := ProfileKey(customerType, customerId);
    if customerId != "" && readOk && key in profiles then Some(profiles[key]) else None
  }

  function StoredProfiles(profiles: map<string, string>, key: string, delta: map<string, set<string>>, outside: Outside): map<string, string> {
    if delta != map[] && Usable(outside.response) && outside.writeOk then profiles[key := outside.response.value.body]
    else profiles
  }

  /** What these rules need beyond a cached body. */
  function RequestFor(json: Json, memo: SchemaMemo, registry: Registry, rules: seq<RuleAttrs>, body: Option<string>): map<string, set<string>> {
    Delta(json, Needed(AllAttrs(rules)), DeclaredBy(json, memo, registry), Cached(json, body))
  }

  /** The schemas of these datasources. */
  function SchemasAmong(needed: map<string, RuleScope>, sources: set<string>): set<string> {
    set ds | ds in sources && ds in needed :: needed[ds].schemaId
  }

  /** Those of these datasources that hold an object. */
  function ParsedAmong(json: Json, profile: Profile, sources: set<string>): set<string> {
    set ds | ds in sources && Parsed(json, profile, ds).Some?
  }

  class UserAttrsResolver {
    const json: Json
    var schemaFieldsCache: SchemaMemo
    var attrIdsCache: IdMemo
    /** The live customer_profile entries in Redis. */
    var profiles: map<string, string>

    constructor (json: Json)
      ensures this.json == json && schemaFieldsCache == map[] && attrIdsCache == map[] && profiles == map[]
    {
      this.json := json;
      schemaFieldsCache, attrIdsCache, profiles := map[], map[], map[];
    }

    // ---------------------------------------------------------------- the delta

    /** Records one attribute under its datasource. */
    method CollectClenAttr(a: Option<ClenAttribute>, into: map<string, RuleScope>, ghost before: seq<Option<ClenAttribute>>)
      returns (needed: map<string, RuleScope>)
      requires into == Needed(before)
      ensures needed == Needed(before + [a])
    {
      NeededSnoc(before, a);
      needed := into;
      if a.None? || a.value.tableSource == "" || a.value.field == "" {
        return;
      }
      var ds := a.value.tableSource;
      var scope := RuleScope(a.value.schemaId, {});
      if ds in into {
        scope := into[ds];
      }
      needed := into[ds := scope.(fields := scope.fields + {a.value.field})];
    }

    method CollectRule(conditions: seq<Option<ClenAttribute>>, into: map<string, RuleScope>,
                       ghost before: seq<Option<ClenAttribute>>) returns (needed: map<string, RuleScope>)
      requires into == Needed(before)
      ensures needed == Needed(before + conditions)
    {
      needed := into;
      assert before + [] == before;
      for j := 0 to |conditions|
        invariant needed == Needed(before + conditions[..j])
      {
        assert before + conditions[..j + 1] == before + conditions[..j] + [conditions[j]];
        needed := CollectClenAttr(conditions[j], needed, before + conditions[..j]);
      }
      assert conditions[..|conditions|] == conditions;
    }

    method CollectNeeded(rules: seq<RuleAttrs>) returns (needed: map<string, RuleScope>)
      ensures needed == Needed(AllAttrs(rules))
    {
      needed := map[];
      for i := 0 to |rules|
        invariant needed == Needed(AllAttrs(rules[..i]))
      {
        assert rules[..i + 1][..i] == rules[..i];
        if rules[i].None? {
          assert AllAttrs(rules[..i + 1]) == AllAttrs(rules[..i]);
          continue;
        }
        needed := CollectRule(rules[i].value, needed, AllAttrs(rules[..i]));
      }
      assert rules[..|rules|] == rules;
    }

    method LookupSchemaFields(id: string, registry: Registry) returns (fields: Option<set<string>>)
      modifies this`schemaFieldsCache
      ensures fields == SchemaFields(json, old(schemaFieldsCache), registry, id)
      ensures schemaFieldsCache == Remember(json, old(schemaFieldsCache), registry, {id})
    {
      if id == NIL_UUID {
        return Some({});
      }
      if id in schemaFieldsCache {
        return Some(schemaFieldsCache[id]);
      }
      if id in registry.downIds {
        return None;
      }
      var found := {};
      if id in registry.definitions && registry.definitions[id] != "" {
        found := json.properties(registry.definitions[id]);
      }
      schemaFieldsCache := schemaFieldsCache[id := found];
      return Some(found);
    }

    /** The parse of what is held for a datasource. */
    method ParseHeld(profile: Profile, ds: string) returns (held: Option<map<string, string>>)
      ensures held == Parsed(json, profile, ds)
    {
      held := None;
      if ds in profile && |profile[ds]| > 0 {
        held := json.parse(profile[ds]);
      }
    }

    /** Walks the schema's fields in any order, keeping those neither in the rule nor cached. */
    method MissingFields(schema: set<string>, inRule: set<string>, held: map<string, string>) returns (missing: set<string>)
      ensures missing == schema - inRule - held.Keys
    {
      missing := {};
      var todo := schema;
      while todo != {}
        invariant todo <= schema
        invariant forall f :: f in missing <==> f in schema && f !in todo && f !in inRule && f !in held
        decreases |todo|
      {
        var f :| f in todo;
        todo := todo - {f};
        if f in inRule {
          continue;
        }
        if f in held {
          continue;
        }
        missing := missing + {f};
      }
    }

    /** The fields to ask for, per datasource. */
    method ExtractClenDataSources(rules: seq<RuleAttrs>, profile: Profile, registry: Registry)
      returns (out: map<string, set<string>>)
      modifies this`schemaFieldsCache
      ensures out == Delta(json, Needed(AllAttrs(rules)), DeclaredBy(json, old(schemaFieldsCache), registry), profile)
      ensures schemaFieldsCache == Remember(json, old(schemaFieldsCache), registry, SchemasAmong(Needed(AllAttrs(rules)), Datasources(AllAttrs(rules))))
    {
      var needed := CollectNeeded(rules);
      assert needed.Keys == Datasources(AllAttrs(rules));
      out := ExtractNeeded(needed, profile, registry);
    }

    method ExtractNeeded(needed: map<string, RuleScope>, profile: Profile, registry: Registry)
      returns (out: map<string, set<string>>)
      modifies this`schemaFieldsCache
      ensures out == Delta(json, needed, DeclaredBy(json, old(schemaFieldsCache), registry), profile)
      ensures schemaFieldsCache == Remember(json, old(schemaFieldsCache), registry, SchemasAmong(needed, needed.Keys))
    {
      out := map[];
      ghost var memo, declared, ids, done := schemaFieldsCache, DeclaredBy(json, schemaFieldsCache, registry), {}, {};
      var todo := needed.Keys;
      NothingLooked(json, memo, registry, needed, declared, profile);
      while todo != {}
        invariant todo <= needed.Keys && done == needed.Keys - todo
        invariant ids == SchemasAmong(needed, done) && schemaFieldsCache == Remember(json, memo, registry, ids)
        invariant out == DeltaAmong(json, needed, declared, profile, done)
        decreases |todo|
      {
        var ds :| ds in todo;
        WalkOn(needed.Keys, todo, done, ds);
        MoreSchemas(needed, done, ds);
        out := ExtractOne(ds, needed, profile, registry, memo, ids, done, out);
        todo, done, ids := todo - {ds}, done + {ds}, ids + {needed[ds].schemaId};
      }
      assert done == needed.Keys;
    }

    /** Adds what one datasource misses, if anything. */
    method ExtractOne(ds: string, needed: map<string, RuleScope>, profile: Profile, registry: Registry, ghost memo: SchemaMemo,
                      ghost ids: set<string>, ghost done: set<string>, before: map<string, set<string>>)
      returns (out: map<string, set<string>>)
      requires ds in needed && ds !in done
      requires schemaFieldsCache == Remember(json, memo, registry, ids)
      requires before == DeltaAmong(json, needed, DeclaredBy(json, memo, registry), profile, done)
      modifies this`schemaFieldsCache
      ensures out == DeltaAmong(json, needed, DeclaredBy(json, memo, registry), profile, done + {ds})
      ensures schemaFieldsCache == Remember(json, memo, registry, ids + {needed[ds].schemaId})
    {
      DeltaStep(json, needed, done, DeclaredBy(json, memo, registry), profile, ds);
      var missing := MissingOf(ds, needed[ds], profile, registry, memo, ids);
      out := if |missing| > 0 then before[ds := missing] else before;
    }

    method MissingOf(ds: string, scope: RuleScope, profile: Profile, registry: Registry, ghost memo: SchemaMemo,
                     ghost ids: set<string>) returns (missing: set<string>)
      requires schemaFieldsCache == Remember(json, memo, registry, ids)
      modifies this`schemaFieldsCache
      ensures missing == Extras(scope, DeclaredBy(json, memo, registry)) - Fields(json, profile, ds).Keys
      ensures schemaFieldsCache == Remember(json, memo, registry, ids + {scope.schemaId})
    {
      RememberChangesNothing(json, memo, registry, ids, scope.schemaId);
      RememberMore(json, memo, registry, ids, scope.schemaId);
      var schema := LookupSchemaFields(scope.schemaId, registry);
      if schema.None? || |schema.value| == 0 {
        return {};
      }
      var held := ParseHeld(profile, ds);
      missing := MissingFields(schema.value, scope.fields, held.GetOr(map[]));
    }

    // ---------------------------------------------------------------- the fetch

    method ParseRawEnvelope(body: string) returns (profile: Profile)
      ensures profile == Surfaced(json, body)
    {
      profile := map[];
      if |body| == 0 {
        return;
      }
      var envelope := json.envelope(body);
      if envelope.None? {
        return;
      }
      var results := envelope.value;
      for i := 0 to |results|
        invariant profile == Surface(results[..i])
      {
        assert results[..i + 1][..i] == results[..i];
        var r := results[i];
        if r.status != "success" || |r.data| == 0 || r.datasource == "" {
          continue;
        }
        profile := profile[r.datasource := r.data];
      }
      assert results[..|results|] == results;
    }

    /** Fetches the delta: stores the response verbatim and merges it into the profile. */
    method EnrichCustomerProfile(key: string, profile: Profile, sources: map<string, set<string>>, outside: Outside)
      returns (enriched: Profile)
      modifies this`profiles
      ensures enriched == Enriched(json, sources, profile, outside.response)
      ensures profiles == StoredProfiles(old(profiles), key, sources, outside)
    {
      enriched := profile;
      if |sources| == 0 {
        return;
      }
      if outside.response.None? {
        return;
      }
      var raw := outside.response.value;
      if raw.statusCode < 200 || raw.statusCode >= 300 || |raw.body| == 0 {
        return;
      }
      if outside.writeOk {
        profiles := profiles[key := raw.body];
      }
      var incoming := ParseRawEnvelope(raw.body);
      enriched := MergeAll(profile, incoming);
    }

    method MergeAll(profile: Profile, incoming: Profile) returns (merged: Profile)
      ensures merged == Merge(json, profile, incoming)
    {
      merged := profile;
      var todo := incoming.Keys;
      MergeNothing(json, profile, incoming);
      while todo != {}
        invariant todo <= incoming.Keys
        invariant merged == Merge(json, profile, Without(incoming, todo))
        decreases |todo|
      {
        var ds :| ds in todo;
        MergeOn(incoming, todo, ds);
        merged := MergeOne(profile, Without(incoming, todo), ds, incoming[ds], merged);
        todo := todo - {ds};
      }
      NothingWithout(incoming);
    }

    /** Merges one datasource; data that is no object, or that does not marshal, changes nothing. */
    method MergeOne(ghost profile: Profile, ghost done: Profile, ds: string, data: string, merged: Profile) returns (more: Profile)
      requires ds !in done && merged == Merge(json, profile, done)
      ensures more == Merge(json, profile, done[ds := data])
    {
      MergeElsewhere(json, profile, done, ds);
      MergeStep(json, profile, done, ds, data);
      more := merged;
      var fields := json.parse(data);
      if fields.None? {
        return;
      }
      var existing := ParseHeld(merged, ds);
      var blob := json.marshal(existing.GetOr(map[]) + fields.value);
      if blob.Some? {
        more := merged[ds := blob.value];
      }
    }

    // ----------------------------------------------------------- the projection

    method LookupAttributeIds(ds: string, registry: Registry) returns (ids: Option<map<string, string>>)
      modifies this`attrIdsCache
      ensures ids == SourceIds(old(attrIdsCache), registry, ds)
      ensures attrIdsCache == RememberIds(old(attrIdsCache), registry, {ds})
    {
      if ds == "" {
        return Some(map[]);
      }
      if ds in attrIdsCache {
        return Some(attrIdsCache[ds]);
      }
      if ds in registry.downSources {
        return None;
      }
      var mapping := MapRows(registry.attributes(ds));
      attrIdsCache := attrIdsCache[ds := mapping];
      return Some(mapping);
    }

    method MapRows(rows: seq<Option<ClenAttribute>>) returns (mapping: map<string, string>)
      ensures mapping == FieldIds(rows)
    {
      mapping := map[];
      for i := 0 to |rows|
        invariant mapping == FieldIds(rows[..i])
      {
        assert rows[..i + 1][..i] == rows[..i];
        if rows[i].None? || rows[i].value.field == "" {
          continue;
        }
        mapping := mapping[rows[i].value.field := rows[i].value.id];
      }
      assert rows[..|rows|] == rows;
    }

    /** Flattens the profile to attribute UUIDs, walking both map levels in any order. */
    method TransformToUuidKeyed(profile: Profile, registry: Registry)
      returns (out: map<string, string>, ghost order: seq<(string, string)>)
      modifies this`attrIdsCache
      ensures Members(order) == Pairs(json, profile, IdsBy(old(attrIdsCache), registry))
      ensures out == Written(json, profile, IdsBy(old(attrIdsCache), registry), order)
      ensures attrIdsCache == RememberIds(old(attrIdsCache), registry, ParsedAmong(json, profile, profile.Keys))
    {
      out, order := map[], [];
      ghost var memo, ids, done := attrIdsCache, IdsBy(attrIdsCache, registry), {};
      var todo := profile.Keys;
      NothingYet(json, profile, ids, memo, registry);
      while todo != {}
        invariant todo <= profile.Keys && done == profile.Keys - todo
        invariant attrIdsCache == RememberIds(memo, registry, ParsedAmong(json, profile, done))
        invariant Members(order) == PairsIn(json, profile, ids, done)
        invariant out == Written(json, profile, ids, order)
        decreases |todo|
      {
        var ds :| ds in todo;
        MoreSources(json, profile, ids, done, ds);
        WalkOn(profile.Keys, todo, done, ds);
        out, order := TransformSource(profile, ds, registry, memo, ParsedAmong(json, profile, done), order, out);
        todo, done := todo - {ds}, done + {ds};
      }
      assert done == profile.Keys;
    }

    method TransformSource(profile: Profile, ds: string, registry: Registry, ghost memo: IdMemo, ghost looked: set<string>,
                           ghost order: seq<(string, string)>, out: map<string, string>)
      returns (more: map<string, string>, ghost longer: seq<(string, string)>)
      requires attrIdsCache == RememberIds(memo, registry, looked)
      requires out == Written(json, profile, IdsBy(memo, registry), order)
      modifies this`attrIdsCache
      ensures attrIdsCache == RememberIds(memo, registry, looked + if Parsed(json, profile, ds).Some? then {ds} else {})
      ensures Members(longer) == Members(order) + PairsIn(json, profile, IdsBy(memo, registry), {ds})
      ensures more == Written(json, profile, IdsBy(memo, registry), longer)
    {
      more, longer := out, order;
      ghost var ids := IdsBy(memo, registry);
      NoPairs(json, profile, ids, ds, Members(order), looked);
      var fields := ParseHeld(profile, ds);
      if fields.None? {
        return;
      }
      var mapping := LookUpIds(ds, registry, memo, looked);
      if mapping.None? || |mapping.value| == 0 {
        return;
      }
      more, longer := ProjectSource(profile, ds, fields.value, mapping.value, ids, order, out);
    }

    /** A lookup among others: the answer is the one the memo gave at first. */
    method LookUpIds(ds: string, registry: Registry, ghost memo: IdMemo, ghost looked: set<string>)
      returns (mapping: Option<map<string, string>>)
      requires attrIdsCache == RememberIds(memo, registry, looked)
      modifies this`attrIdsCache
      ensures mapping == SourceIds(memo, registry, ds)
      ensures attrIdsCache == RememberIds(memo, registry, looked + {ds})
    {
      RememberIdsChangesNothing(memo, registry, looked, ds);
      RememberMoreIds(memo, registry, looked, ds);
      mapping := LookupAttributeIds(ds, registry);
    }

    method ProjectSource(ghost profile: Profile, ds: string, fields: map<string, string>, mapping: map<string, string>,
                         ghost ids: AttributeIds, ghost order: seq<(string, string)>, out: map<string, string>)
      returns (more: map<string, string>, ghost longer: seq<(string, string)>)
      requires fields == Fields(json, profile, ds) && mapping == ids(ds)
      requires out == Written(json, profile, ids, order)
      ensures Members(longer) == Members(order) + PairsIn(json, profile, ids, {ds})
      ensures more == Written(json, profile, ids, longer)
    {
      more, longer := out, order;
      var todo := fields.Keys;
      ghost var start, done := Members(order), {};
      ghost var pairs := start;
      assert start + PairsAmong(ds, {}, mapping) == start;
      AllPairs(json, profile, ids, ds);
      while todo != {}
        invariant todo <= fields.Keys
        invariant done == fields.Keys - todo
        invariant pairs == start + PairsAmong(ds, done, mapping)
        invariant Members(longer) == pairs
        invariant more == Written(json, profile, ids, longer)
        decreases |todo|
      {
        var f :| f in todo;
        MorePairs(start, ds, done, mapping, f);
        WalkOn(fields.Keys, todo, done, f);
        todo, done := todo - {f}, done + {f};
        if f !in mapping {
          continue;
        }
        pairs := pairs + {(ds, f)};
        more, longer := WriteField(profile, ds, f, fields, mapping, ids, longer, more);
      }
      assert done == fields.Keys;
    }

    method WriteField(ghost profile: Profile, ds: string, f: string, fields: map<string, string>, mapping: map<string, string>,
                      ghost ids: AttributeIds, ghost order: seq<(string, string)>, out: map<string, string>)
      returns (more: map<string, string>, ghost longer: seq<(string, string)>)
      requires fields == Fields(json, profile, ds) && mapping == ids(ds) && f in fields && f in mapping
      requires out == Written(json, profile, ids, order)
      ensures Members(longer) == Members(order) + {(ds, f)}
      ensures more == Written(json, profile, ids, longer)
    {
      LastWins(json, profile, ids, order, (ds, f));
      more, longer := out[mapping[f] := fields[f]], order + [(ds, f)];
    }

    // -------------------------------------------------------------- the resolve

    /** Reads the cached profile of a customer. */
    method LoadProfile(key: string, readOk: bool) returns (ghost body: Option<string>, profile: Profile)
      ensures body == if readOk && key in profiles then Some(profiles[key]) else None
      ensures profile == Cached(json, body)
    {
      body, profile := None, map[];
      if readOk && key in profiles {
        body := Some(profiles[key]);
        profile := ParseRawEnvelope(profiles[key]);
      }
    }

    /** Resolves a customer's attributes for these rules; without a customer there are none. */
    method ResolveUserAttrs(customerType: string, customerId: string, rules: seq<RuleAttrs>, outside: Outside)
      returns (resolved: map<string, string>, ghost body: Option<string>, ghost order: seq<(string, string)>)
      modifies this
      ensures body == Found(old(profiles), customerType, customerId, outside.readOk)
      ensures profiles == if customerId == "" then old(profiles) else
                StoredProfiles(old(profiles), ProfileKey(customerType, customerId),
                               RequestFor(json, old(schemaFieldsCache), outside.registry, rules, body), outside)
      ensures customerId == "" ==> resolved == map[]
      ensures customerId != "" ==>
              var delta := RequestFor(json, old(schemaFieldsCache), outside.registry, rules, body);
              var attrs, ids := Enriched(json, delta, Cached(json, body), outside.response), IdsBy(old(attrIdsCache), outside.registry);
              Members(order) == Pairs(json, attrs, ids) && resolved == Written(json, attrs, ids, order)
    {
      if customerId == "" {
        return map[], None, [];
      }
      resolved, body, order := ResolveCustomer(ProfileKey(customerType, customerId), rules, outside);
    }

    /** Resolves the customer under this cache key; `body` is the envelope found there. */
    method ResolveCustomer(key: string, rules: seq<RuleAttrs>, outside: Outside)
      returns (resolved: map<string, string>, ghost body: Option<string>, ghost order: seq<(string, string)>)
      modifies this
      ensures body == if outside.readOk && key in old(profiles) then Some(old(profiles)[key]) else None
      ensures profiles == StoredProfiles(old(profiles), key,
                                         RequestFor(json, old(schemaFieldsCache), outside.registry, rules, body), outside)
      ensures var delta := RequestFor(json, old(schemaFieldsCache), outside.registry, rules, body);
              var attrs, ids := Enriched(json, delta, Cached(json, body), outside.response), IdsBy(old(attrIdsCache), outside.registry);
              Members(order) == Pairs(json, attrs, ids) && resolved == Written(json, attrs, ids, order)
    {
      var profile;
      body, profile := LoadProfile(key, outside.readOk);
      profile := EnrichFor(key, profile, rules, outside, body);
      resolved, order := TransformToUuidKeyed(profile, outside.registry);
    }

    method EnrichFor(key: string, profile: Profile, rules: seq<RuleAttrs>, outside: Outside, ghost body: Option<string>)
      returns (enriched: Profile)
      requires profile == Cached(json, body)
      modifies this`profiles, this`schemaFieldsCache
      ensures var delta := RequestFor(json, old(schemaFieldsCache), outside.registry, rules, body);
              enriched == Enriched(json, delta, profile, outside.response)
              && profiles == StoredProfiles(old(profiles), key, delta, outside)
    {
      enriched := profile;
      var missing := ExtractClenDataSources(rules, profile, outside.registry);
      if |missing| > 0 {
        enriched := EnrichCustomerProfile(key, profile, missing, outside);
      }
    }
  }

  /** One step of a walk over a set in arbitrary order. */
  lemma WalkOn(all: set<string>, todo: set<string>, done: set<string>, x: string)
    requires x in todo && todo <= all && done == all - todo
    ensures todo - {x} <= all && done + {x} == all - (todo - {x}) && x !in done
  {}

  /** The resolving pairs among these fields of one datasource. */
  function PairsAmong(ds: string, fields: set<string>, mapping: map<string, string>): set<(string, string)> {
    set f | f in fields && f in mapping :: (ds, f)
  }

  lemma MorePairs(before: set<(string, string)>, ds: string, done: set<string>, mapping: map<string, string>, f: string)
    ensures before + PairsAmong(ds, done + {f}, mapping) ==
            if f in mapping then (before + PairsAmong(ds, done, mapping)) + {(ds, f)} else before + PairsAmong(ds, done, mapping)
  {}

  lemma AllPairs(json: Json, profile: Profile, ids: AttributeIds, ds: string)
    ensures PairsAmong(ds, Fields(json, profile, ds).Keys, ids(ds)) == PairsIn(json, profile, ids, {ds})
  {}

  lemma NothingYet(json: Json, profile: Profile, ids: AttributeIds, memo: IdMemo, registry: Registry)
    ensures PairsIn(json, profile, ids, {}) == Members([])
    ensures RememberIds(memo, registry, ParsedAmong(json, profile, {})) == memo
  {}

  lemma MoreSources(json: Json, profile: Profile, ids: AttributeIds, done: set<string>, ds: string)
    ensures PairsIn(json, profile, ids, done + {ds}) == PairsIn(json, profile, ids, done) + PairsIn(json, profile, ids, {ds})
    ensures ParsedAmong(json, profile, done + {ds}) ==
            ParsedAmong(json, profile, done) + if Parsed(json, profile, ds).Some? then {ds} else {}
  {}

  /** A datasource without readable fields or known attributes adds nothing. */
  lemma NoPairs(json: Json, profile: Profile, ids: AttributeIds, ds: string, pairs: set<(string, string)>, looked: set<string>)
    ensures Parsed(json, profile, ds).None? || ids(ds) == map[] ==> pairs + PairsIn(json, profile, ids, {ds}) == pairs
    ensures looked + {} == looked
  {
    if Parsed(json, profile, ds).None? || ids(ds) == map[] {
      assert PairsIn(json, profile, ids, {ds}) == {};
    }
  }

  lemma NothingLooked(json: Json, memo: SchemaMemo, registry: Registry, needed: map<string, RuleScope>, declared: Declared,
                      profile: Profile)
    ensures Remember(json, memo, registry, SchemasAmong(needed, {})) == memo
    ensures DeltaAmong(json, needed, declared, profile, {}) == map[]
  {}

  lemma DeltaStep(json: Json, needed: map<string, RuleScope>, done: set<string>, declared: Declared, profile: Profile, ds: string)
    requires ds in needed && ds !in done
    ensures var missing, out := Missing(json, needed, declared, profile, ds), DeltaAmong(json, needed, declared, profile, done);
            DeltaAmong(json, needed, declared, profile, done + {ds}) == if missing != {} then out[ds := missing] else out
  {}

  lemma MoreSchemas(needed: map<string, RuleScope>, done: set<string>, ds: string)
    requires ds in needed
    ensures SchemasAmong(needed, done + {ds}) == SchemasAmong(needed, done) + {needed[ds].schemaId}
  {
    assert ds in done + {ds};
    assert forall e | e in done :: e in done + {ds};
  }

  lemma {:induction false} FirstSchemaSnoc(attrs: seq<Option<ClenAttribute>>, a: Option<ClenAttribute>, ds: string)
    ensures FirstSchema(attrs + [a], ds) ==
            if ds in Datasources(attrs) then FirstSchema(attrs, ds) else if IsOf(a, ds) then a.value.schemaId else ""
  {
    if attrs != [] {
      assert (attrs + [a])[1..] == attrs[1..] + [a];
      FirstSchemaSnoc(attrs[1..], a, ds);
      DatasourcesCons(attrs, ds);
    }
  }

  lemma DatasourcesCons(attrs: seq<Option<ClenAttribute>>, ds: string)
    requires attrs != []
    ensures ds in Datasources(attrs) <==> IsOf(attrs[0], ds) || ds in Datasources(attrs[1..])
  {
    assert attrs[0] in attrs;
    assert forall a | a in attrs[1..] :: a in attrs;
  }

  /** One more attribute widens its datasource's scope, or opens one with its own schema. */
  function Widen(needed: map<string, RuleScope>, a: Option<ClenAttribute>): map<string, RuleScope> {
    if !IsClen(a) then needed
    else
      var ds := a.value.tableSource;
      var scope := if ds in needed then needed[ds] else RuleScope(a.value.schemaId, {});
      needed[ds := scope.(fields := scope.fields + {a.value.field})]
  }

  lemma NeededSnoc(attrs: seq<Option<ClenAttribute>>, a: Option<ClenAttribute>)
    ensures Needed(attrs + [a]) == Widen(Needed(attrs), a)
  {
    forall ds ensures ds in Needed(attrs + [a]) <==> ds in Widen(Needed(attrs), a) {
      ScopeSnoc(attrs, a, ds);
    }
    forall ds | ds in Needed(attrs + [a]) ensures Needed(attrs + [a])[ds] == Widen(Needed(attrs), a)[ds] {
      ScopeSnoc(attrs, a, ds);
    }
  }

  lemma ScopeSnoc(attrs: seq<Option<ClenAttribute>>, a: Option<ClenAttribute>, ds: string)
    ensures ds in Needed(attrs + [a]) <==> ds in Widen(Needed(attrs), a)
    ensures ds in Needed(attrs + [a]) ==> Needed(attrs + [a])[ds] == Widen(Needed(attrs), a)[ds]
  {
    SourcesSnoc(attrs, a, ds);
    FieldsSnoc(attrs, a, ds);
    FirstSchemaSnoc(attrs, a, ds);
  }

  lemma SourcesSnoc(attrs: seq<Option<ClenAttribute>>, a: Option<ClenAttribute>, ds: string)
    ensures ds in Datasources(attrs + [a]) <==> ds in Datasources(attrs) || IsOf(a, ds)
  {
    assert a in attrs + [a];
    assert forall b | b in attrs :: b in attrs + [a];
  }

  lemma FieldsSnoc(attrs: seq<Option<ClenAttribute>>, a: Option<ClenAttribute>, ds: string)
    ensures FieldsOf(attrs + [a], ds) == FieldsOf(attrs, ds) + if IsOf(a, ds) then {a.value.field} else {}
    ensures ds !in Datasources(attrs) ==> FieldsOf(attrs, ds) == {}
  {
    assert a in attrs + [a];
    assert forall b | b in attrs :: b in attrs + [a];
  }

  /** The entries of a profile under other keys than these. */
  ghost function Without(profile: Profile, keys: set<string>): Profile {
    profile - keys
  }

  lemma MergeNothing(json: Json, profile: Profile, incoming: Profile)
    ensures Merge(json, profile, Without(incoming, incoming.Keys)) == profile
  {
    assert Without(incoming, incoming.Keys) == map[];
  }

  lemma NothingWithout(profile: Profile)
    ensures Without(profile, {}) == profile
  {}

  lemma MergeOn(incoming: Profile, todo: set<string>, ds: string)
    requires ds in todo && todo <= incoming.Keys
    ensures ds !in Without(incoming, todo)
    ensures Without(incoming, todo - {ds}) == Without(incoming, todo)[ds := incoming[ds]]
  {}

  /** Merging other datasources leaves this one's fields alone. */
  lemma MergeElsewhere(json: Json, profile: Profile, done: Profile, ds: string)
    requires ds !in done
    ensures Fields(json, Merge(json, profile, done), ds) == Fields(json, profile, ds)
  {}

  /** Merging one more datasource touches that datasource alone. */
  lemma MergeStep(json: Json, profile: Profile, done: Profile, ds: string, data: string)
    requires ds !in done
    ensures var blob := MergedBlob(json, profile, ds, data);
            Merge(json, profile, done[ds := data]) ==
            if blob.Some? then Merge(json, profile, done)[ds := blob.value] else Merge(json, profile, done)
  {}

  // ---------------------------------------------------------- the cached envelopes

  /** No customer finds another one's envelope, as long as customer types contain no colon. */
  lemma ProfileKeysSeparate(typeA: string, idA: string, typeB: string, idB: string)
    requires ':' !in typeA && ':' !in typeB
    ensures ProfileKey(typeA, idA) == ProfileKey(typeB, idB) <==> typeA == typeB && idA == idB
  {
    var a, b := ProfileKey(typeA, idA), ProfileKey(typeB, idB);
    if a == b {
      var n := |"customer_profile:"|;
      assert a[n..] == typeA + ":" + idA && b[n..] == typeB + ":" + idB;
      BeforeColon(typeA, idA, typeB, idB);
    }
  }

  lemma BeforeColon(s: string, x: string, t: string, y: string)
    requires ':' !in s && ':' !in t && s + ":" + x == t + ":" + y
    ensures s == t && x == y
  {
    var whole := s + ":" + x;
    assert whole[|s|] == ':' && whole[|t|] == ':';
    assert forall i | 0 <= i < |s| :: whole[i] == s[i];
    assert forall i | 0 <= i < |t| :: whole[i] == t[i];
    assert |s| == |t|;
    assert s == whole[..|s|] && t == whole[..|t|] && x == whole[|s| + 1..] && y == whole[|t| + 1..];
  }

  /** With one they may. */
  lemma ProfileKeysCollide()
    ensures ProfileKey("a:b", "c") == ProfileKey("a", "b:c")
  {}

  /**
   * What is stored: the response verbatim, under the customer's key, exactly when something was
   * requested, the answer had a 2xx status and a body, and the write succeeded. The next request
   * of that customer finds it; another customer finds what was there.
   */
  lemma EnvelopeIsStored(profiles: map<string, string>, customerType: string, customerId: string, otherType: string,
                         otherId: string, delta: map<string, set<string>>, outside: Outside)
    requires customerId != "" && otherId != ""
    ensures var after := StoredProfiles(profiles, ProfileKey(customerType, customerId), delta, outside);
            var r := outside.response;
            && Found(after, customerType, customerId, true) ==
               (if delta != map[] && r.Some? && r.value.statusCode >= 200 && r.value.statusCode <= 299 && r.value.body != "" && outside.writeOk
                then Some(r.value.body) else Found(profiles, customerType, customerId, true))
            && (ProfileKey(otherType, otherId) != ProfileKey(customerType, customerId) ==>
                  Found(after, otherType, otherId, true) == Found(profiles, otherType, otherId, true))
  {}

  /**
   * What the rules are evaluated on: without a request or a usable answer the cached profile; else
   * no cached field is lost, and a field the answer has is the answer's, up to compaction.
   */
  lemma EnrichedExactly(json: Json, delta: map<string, set<string>>, profile: Profile, response: Option<Response>, ds: string, f: string)
    requires JsonLaws(json)
    ensures var after := Enriched(json, delta, profile, response);
            var usable := response.Some? && response.value.statusCode >= 200 && response.value.statusCode <= 299 && response.value.body != "";
            if delta == map[] || !usable then after == profile
            else
              var answer := Surfaced(json, response.value.body);
              && (f in Fields(json, after, ds) <==> f in Fields(json, profile, ds) || f in Fields(json, answer, ds))
              && (f in Fields(json, answer, ds) ==>
                    Fields(json, after, ds)[f] == json.compact(Fields(json, answer, ds)[f]))
              && (f in Fields(json, profile, ds) && f !in Fields(json, answer, ds) ==>
                    Fields(json, after, ds)[f] in {Fields(json, profile, ds)[f], json.compact(Fields(json, profile, ds)[f])})
  {
    if delta != map[] && Usable(response) {
      var answer := Surfaced(json, response.value.body);
      SurfacedIsNonEmpty(json, response.value.body, ds);
      MergedFields(json, profile, answer, ds);
    }
  }

  lemma SurfacedIsNonEmpty(json: Json, body: string, ds: string)
    ensures ds in Surfaced(json, body) ==> Surfaced(json, body)[ds] != ""
  {
    if ds in Surfaced(json, body) {
      SurfaceFrom(json.envelope(body).GetOr([]), ds);
    }
  }

  /** The fields a schema counts as declaring: a remembered answer, else those of its definition, if it can be read and has one. */
  lemma DeclaredExactly(json: Json, memo: SchemaMemo, registry: Registry, id: string)
    ensures var fields := DeclaredBy(json, memo, registry)(id);
            && (id == NIL_UUID ==> fields == {})
            && (id != NIL_UUID && id in memo ==> fields == memo[id])
            && (id != NIL_UUID && id !in memo && (id in registry.downIds || id !in registry.definitions || registry.definitions[id] == "") ==>
                  fields == {})
            && (id != NIL_UUID && id !in memo && id !in registry.downIds && id in registry.definitions && registry.definitions[id] != "" ==>
                  fields == json.properties(registry.definitions[id]))
    ensures id !in memo && (id == NIL_UUID || id in registry.downIds) ==> id !in Remember(json, memo, registry, {id})
  {}
}
