/**
 * CLEN enrichment on values: which fields a request asks the upstream for, how a response is
 * merged into the cached profile, and how the profile is projected onto attribute UUIDs.
 */
module Enrichment {
  import opened Wrappers

  /** One entry of an envelope's `results`. */
  datatype ResultItem = ResultItem(datasource: string, status: string, data: string)

  /**
   * The JSON operations used here, on raw texts: an object's fields, an object's text (None for
   * an error), validity and compaction of a raw value, an envelope's results, and the top-level
   * properties of a schema definition.
   */
  datatype Json = Json(
    parse: string -> Option<map<string, string>>,
    marshal: map<string, string> -> Option<string>,
    valid: string -> bool,
    compact: string -> string,
    envelope: string -> Option<seq<ResultItem>>,
    properties: string -> set<string>)

  /** The empty text is no object; marshalling fields that came out of a parse gives a text with those fields, values compacted. */
  ghost predicate JsonLaws(json: Json) {
    && json.parse("").None?
    && (forall b, k :: json.parse(b).Some? && k in json.parse(b).value ==> json.valid(json.parse(b).value[k]))
    && (forall m :: (forall k | k in m :: json.valid(m[k])) ==>
          && json.marshal(m).Some? && json.marshal(m).value != ""
          && json.parse(json.marshal(m).value) == Some(Compacted(json, m)))
  }

  function Compacted(json: Json, m: map<string, string>): map<string, string> {
    map k | k in m :: json.compact(m[k])
  }

  /** A profile: raw object text per datasource. */
  type Profile = map<string, string>

  /** The parse of what is held for a datasource; None when it is absent, empty or unparsable. */
  function Parsed(json: Json, profile: Profile, ds: string): Option<map<string, string>> {
    if ds in profile && profile[ds] != "" then json.parse(profile[ds]) else None
  }

  /** The fields held for a datasource. */
  function Fields(json: Json, profile: Profile, ds: string): map<string, string> {
    Parsed(json, profile, ds).GetOr(map[])
  }

  // ------------------------------------------------------------------ the scope

  datatype ClenAttribute = ClenAttribute(id: string, schemaId: string, tableSource: string, field: string)

  /** The Attribute pointer of each condition of a rule; a nil rule has none. */
  type RuleAttrs = Option<seq<Option<ClenAttribute>>>

  datatype RuleScope = RuleScope(schemaId: string, fields: set<string>)

  predicate IsClen(a: Option<ClenAttribute>) {
    a.Some? && a.value.tableSource != "" && a.value.field != ""
  }

  predicate IsOf(a: Option<ClenAttribute>, ds: string) {
    IsClen(a) && a.value.tableSource == ds
  }

  function AllAttrs(rules: seq<RuleAttrs>): seq<Option<ClenAttribute>> {
    if rules == [] then [] else AllAttrs(rules[..|rules| - 1]) + rules[|rules| - 1].GetOr([])
  }

  /** The schema of the first attribute seen for the datasource. */
  function FirstSchema(attrs: seq<Option<ClenAttribute>>, ds: string): string {
    if attrs == [] then ""
    else if IsOf(attrs[0], ds) then attrs[0].value.schemaId
    else FirstSchema(attrs[1..], ds)
  }

  function FieldsOf(attrs: seq<Option<ClenAttribute>>, ds: string): set<string> {
    set a | a in attrs && IsOf(a, ds) :: a.value.field
  }

  function Datasources(attrs: seq<Option<ClenAttribute>>): set<string> {
    set a | a in attrs && IsClen(a) :: a.value.tableSource
  }

  /** Per datasource, the first schema and all fields the rules refer to. */
  function Needed(attrs: seq<Option<ClenAttribute>>): map<string, RuleScope> {
    map ds | ds in Datasources(attrs) :: RuleScope(FirstSchema(attrs, ds), FieldsOf(attrs, ds))
  }

  // ------------------------------------------------------------------ the delta

  /** The declared fields of each schema; none when the lookup fails. */
  type Declared = string -> set<string>

  /** What the schema declares and the rules do not refer to. */
  function Extras(scope: RuleScope, declared: Declared): set<string> {
    declared(scope.schemaId) - scope.fields
  }

  function Missing(json: Json, needed: map<string, RuleScope>, declared: Declared, profile: Profile, ds: string): set<string> {
    if ds in needed then Extras(needed[ds], declared) - Fields(json, profile, ds).Keys else {}
  }

  /** The request: schema minus rule minus cached, for every datasource where that leaves something. */
  function Delta(json: Json, needed: map<string, RuleScope>, declared: Declared, profile: Profile): map<string, set<string>> {
    DeltaAmong(json, needed, declared, profile, needed.Keys)
  }

  function DeltaAmong(json: Json, needed: map<string, RuleScope>, declared: Declared, profile: Profile,
                      sources: set<string>): map<string, set<string>> {
    map ds | ds in sources && Missing(json, needed, declared, profile, ds) != {} ::
      Missing(json, needed, declared, profile, ds)
  }

  /** The first of the rules' attributes that belongs to the datasource. */
  ghost predicate IsFirstOf(attrs: seq<Option<ClenAttribute>>, i: int, ds: string) {
    0 <= i < |attrs| && IsOf(attrs[i], ds) && forall j | 0 <= j < i :: !IsOf(attrs[j], ds)
  }

  lemma {:induction false} FirstSchemaIs(attrs: seq<Option<ClenAttribute>>, ds: string) returns (i: int)
    requires ds in Datasources(attrs)
    ensures IsFirstOf(attrs, i, ds) && attrs[i].value.schemaId == FirstSchema(attrs, ds)
  {
    if IsOf(attrs[0], ds) {
      i := 0;
    } else {
      assert attrs == [attrs[0]] + attrs[1..];
      var k := FirstSchemaIs(attrs[1..], ds);
      i := k + 1;
      forall j | 0 <= j < i ensures !IsOf(attrs[j], ds) {
        assert j > 0 ==> attrs[j] == attrs[1..][j - 1];
      }
    }
  }

  lemma OneFirst(attrs: seq<Option<ClenAttribute>>, i: int, j: int, ds: string)
    requires IsFirstOf(attrs, i, ds) && IsFirstOf(attrs, j, ds)
    ensures i == j
  {}

  /**
   * Exactly what is requested: a field is asked for when the schema of the datasource's first
   * attribute declares it, no attribute of the rules names it, and the cached data do not hold it.
   */
  lemma RequestedExactly(json: Json, rules: seq<RuleAttrs>, declared: Declared, profile: Profile, ds: string, f: string)
    ensures var attrs := AllAttrs(rules);
            var delta := Delta(json, Needed(attrs), declared, profile);
            ds in delta && f in delta[ds] <==>
            && (exists i :: IsFirstOf(attrs, i, ds) && f in declared(attrs[i].value.schemaId))
            && (forall a | a in attrs && IsOf(a, ds) :: a.value.field != f)
            && !(ds in profile && profile[ds] != "" && json.parse(profile[ds]).Some? && f in json.parse(profile[ds]).value)
    ensures var delta := Delta(json, Needed(AllAttrs(rules)), declared, profile); ds in delta ==> delta[ds] != {}
  {
    var attrs := AllAttrs(rules);
    FirstDeclares(attrs, declared, ds, f);
    NamedFields(attrs, ds, f);
    HeldFields(json, profile, ds, f);
    MissingIs(json, attrs, declared, profile, ds, f);
    RequestedIsMissing(json, Needed(attrs), declared, profile, ds, f);
  }

  lemma RequestedIsMissing(json: Json, needed: map<string, RuleScope>, declared: Declared, profile: Profile, ds: string, f: string)
    ensures var delta := Delta(json, needed, declared, profile);
            && (ds in delta && f in delta[ds] <==> f in Missing(json, needed, declared, profile, ds))
            && (ds in delta ==> delta[ds] != {})
  {}

  lemma MissingIs(json: Json, attrs: seq<Option<ClenAttribute>>, declared: Declared, profile: Profile, ds: string, f: string)
    ensures f in Missing(json, Needed(attrs), declared, profile, ds) <==>
            && ds in Datasources(attrs) && f in declared(FirstSchema(attrs, ds))
            && f !in FieldsOf(attrs, ds) && f !in Fields(json, profile, ds)
  {}

  lemma HeldFields(json: Json, profile: Profile, ds: string, f: string)
    ensures f in Fields(json, profile, ds) <==>
            ds in profile && profile[ds] != "" && json.parse(profile[ds]).Some? && f in json.parse(profile[ds]).value
  {}

  lemma FirstDeclares(attrs: seq<Option<ClenAttribute>>, declared: Declared, ds: string, f: string)
    ensures (exists i :: IsFirstOf(attrs, i, ds) && f in declared(attrs[i].value.schemaId)) <==>
            ds in Datasources(attrs) && f in declared(FirstSchema(attrs, ds))
  {
    if ds in Datasources(attrs) {
      var i := FirstSchemaIs(attrs, ds);
      forall j | IsFirstOf(attrs, j, ds) ensures i == j {
        OneFirst(attrs, i, j, ds);
      }
    } else {
      forall i | 0 <= i < |attrs| ensures !IsOf(attrs[i], ds) {
        assert attrs[i] in attrs;
      }
    }
  }

  lemma NamedFields(attrs: seq<Option<ClenAttribute>>, ds: string, f: string)
    ensures f !in FieldsOf(attrs, ds) <==> forall a | a in attrs && IsOf(a, ds) :: a.value.field != f
  {}

  /** The attributes of the rules are those of each rule, in order. */
  lemma {:induction false} AllAttrsAre(rules: seq<RuleAttrs>, more: seq<RuleAttrs>)
    ensures AllAttrs([]) == []
    ensures forall r: RuleAttrs :: AllAttrs([r]) == r.GetOr([])
    ensures AllAttrs(rules + more) == AllAttrs(rules) + AllAttrs(more)
  {
    forall r: RuleAttrs ensures AllAttrs([r]) == r.GetOr([]) {
      assert [r][..0] == [];
    }
    if more == [] {
      assert rules + more == rules;
    } else {
      var n := |more| - 1;
      AllAttrsAre(rules, more[..n]);
      assert (rules + more)[..|rules + more| - 1] == rules + more[..n];
    }
  }

  // --------------------------------------------------------------- the envelope

  predicate Success(r: ResultItem) {
    r.status == "success" && r.data != "" && r.datasource != ""
  }

  /** The last successful result of each datasource. */
  function Surface(results: seq<ResultItem>): Profile {
    if results == [] then map[]
    else
      var init, last := Surface(results[..|results| - 1]), results[|results| - 1];
      if Success(last) then init[last.datasource := last.data] else init
  }

  function Surfaced(json: Json, body: string): Profile {
    if body == "" then map[] else Surface(json.envelope(body).GetOr([]))
  }

  /** A result counts when it reports success, has data and names its datasource. */
  ghost predicate Counts(r: ResultItem, ds: string) {
    r.status == "success" && r.data != "" && r.datasource == ds && ds != ""
  }

  /** What is surfaced of a body: per datasource the data of its last result that counts, and nothing else. */
  lemma SurfacedExactly(json: Json, body: string, results: seq<ResultItem>, ds: string)
    requires body != "" && json.envelope(body) == Some(results)
    ensures ds in Surfaced(json, body) <==> exists i | 0 <= i < |results| :: Counts(results[i], ds)
    ensures ds in Surfaced(json, body) ==>
              exists i | 0 <= i < |results| :: Counts(results[i], ds) && Surfaced(json, body)[ds] == results[i].data
                                               && forall j | i < j < |results| :: !Counts(results[j], ds)
  {
    if ds in Surfaced(json, body) {
      SurfaceFrom(results, ds);
    }
    if exists i | 0 <= i < |results| :: Counts(results[i], ds) {
      LastCounts(results, ds);
    }
  }

  lemma {:induction false} LastCounts(results: seq<ResultItem>, ds: string)
    requires exists i | 0 <= i < |results| :: Counts(results[i], ds)
    ensures ds in Surface(results)
  {
    var n := |results| - 1;
    if !Counts(results[n], ds) {
      var i :| 0 <= i < |results| && Counts(results[i], ds);
      assert results[..n][i] == results[i];
      LastCounts(results[..n], ds);
    }
  }

  /** When each datasource has one result, that result is what is surfaced. */
  lemma {:induction false} SurfaceAt(results: seq<ResultItem>, i: nat)
    requires i < |results| && Success(results[i])
    requires forall j | i < j < |results| :: !Success(results[j]) || results[j].datasource != results[i].datasource
    ensures results[i].datasource in Surface(results) && Surface(results)[results[i].datasource] == results[i].data
  {
    var n := |results| - 1;
    if i < n {
      assert results[..n][i] == results[i];
      SurfaceAt(results[..n], i);
    }
  }

  /** Nothing else is surfaced. */
  lemma {:induction false} SurfaceFrom(results: seq<ResultItem>, ds: string)
    requires ds in Surface(results)
    ensures exists i | 0 <= i < |results| ::
              && Success(results[i]) && results[i].datasource == ds && Surface(results)[ds] == results[i].data
              && forall j | i < j < |results| :: !Success(results[j]) || results[j].datasource != ds
  {
    var n := |results| - 1;
    if !(Success(results[n]) && results[n].datasource == ds) {
      SurfaceFrom(results[..n], ds);
      var i :| 0 <= i < n && Success(results[..n][i]) && results[..n][i].datasource == ds
               && Surface(results[..n])[ds] == results[..n][i].data
               && forall j | i < j < n :: !Success(results[..n][j]) || results[..n][j].datasource != ds;
      assert results[i] == results[..n][i];
      forall j | i < j < |results| ensures !Success(results[j]) || results[j].datasource != ds {
        if j < n {
          assert results[j] == results[..n][j];
        }
      }
    }
  }

  // ------------------------------------------------------------------ the merge

  /** Field-level merge of one datasource; None when the incoming data is no object, or on a marshal error. */
  function MergedBlob(json: Json, profile: Profile, ds: string, data: string): Option<string> {
    match json.parse(data)
    case None => None
    case Some(incoming) => json.marshal(Fields(json, profile, ds) + incoming)
  }

  function Merge(json: Json, profile: Profile, incoming: Profile): Profile {
    map ds | ds in profile.Keys + incoming.Keys &&
             (ds in profile || MergedBlob(json, profile, ds, incoming[ds]).Some?) ::
      if ds in incoming then MergedBlob(json, profile, ds, incoming[ds]).GetOr(if ds in profile then profile[ds] else "")
      else profile[ds]
  }

  /** After a merge a datasource holds what it held and what came in; incoming values win. */
  lemma MergedFields(json: Json, profile: Profile, incoming: Profile, ds: string)
    requires JsonLaws(json)
    ensures var after := Fields(json, Merge(json, profile, incoming), ds);
            if ds in incoming && json.parse(incoming[ds]).Some?
            then after == Compacted(json, Fields(json, profile, ds) + json.parse(incoming[ds]).value)
            else after == Fields(json, profile, ds)
  {
    if ds in incoming && json.parse(incoming[ds]).Some? {
      var m := Fields(json, profile, ds) + json.parse(incoming[ds]).value;
      forall k | k in m ensures json.valid(m[k]) {
        HeldIsValid(json, profile, ds);
      }
      assert json.marshal(m).Some? && json.marshal(m).value != "";
    }
  }

  lemma HeldIsValid(json: Json, profile: Profile, ds: string)
    requires JsonLaws(json)
    ensures forall k | k in Fields(json, profile, ds) :: json.valid(Fields(json, profile, ds)[k])
  {}

  /** The response answers the request: every datasource asked for came back with at least the asked fields. */
  predicate Covers(json: Json, incoming: Profile, delta: map<string, set<string>>) {
    forall ds | ds in delta :: ds in incoming && json.parse(incoming[ds]).Some? && delta[ds] <= json.parse(incoming[ds]).value.Keys
  }

  /** After merging a response that carries every requested field the next delta is empty. */
  lemma CoveredMergeCompletes(json: Json, needed: map<string, RuleScope>, declared: Declared, profile: Profile, incoming: Profile)
    requires JsonLaws(json) && Covers(json, incoming, Delta(json, needed, declared, profile))
    ensures Delta(json, needed, declared, Merge(json, profile, incoming)) == map[]
  {
    var after := Merge(json, profile, incoming);
    forall ds ensures Missing(json, needed, declared, after, ds) == {} {
      CoveredDatasource(json, needed, declared, profile, incoming, ds);
    }
  }

  lemma CoveredDatasource(json: Json, needed: map<string, RuleScope>, declared: Declared, profile: Profile, incoming: Profile,
                          ds: string)
    requires JsonLaws(json) && Covers(json, incoming, Delta(json, needed, declared, profile))
    ensures Missing(json, needed, declared, Merge(json, profile, incoming), ds) == {}
  {
    MergedFields(json, profile, incoming, ds);
    if Missing(json, needed, declared, profile, ds) != {} {
      assert ds in Delta(json, needed, declared, profile);
    }
  }

  /** No merge loses a field that could be read before; one the response does not carry keeps its value. */
  lemma MergeLosesNothing(json: Json, profile: Profile, incoming: Profile, ds: string, f: string)
    requires JsonLaws(json) && f in Fields(json, profile, ds)
    ensures var after := Fields(json, Merge(json, profile, incoming), ds);
            && f in after
            && (f !in Fields(json, incoming, ds) ==>
                  after[f] == Fields(json, profile, ds)[f] || after[f] == json.compact(Fields(json, profile, ds)[f]))
  {
    MergedFields(json, profile, incoming, ds);
  }

  // ----------------------------------------------------- the cached envelope, over runs

  /** What is cached for a customer: an envelope, or nothing. */
  function Cached(json: Json, body: Option<string>): Profile {
    Surfaced(json, body.GetOr(""))
  }

  datatype Response = Response(statusCode: int, body: string)

  /** The upstream answered with a usable body. */
  predicate Usable(response: Option<Response>) {
    response.Some? && 200 <= response.value.statusCode < 300 && response.value.body != ""
  }

  /** The envelope cached after a request: the response verbatim, when one was fetched. */
  function Stored(delta: map<string, set<string>>, body: Option<string>, response: Option<Response>): Option<string> {
    if delta != map[] && Usable(response) then Some(response.value.body) else body
  }

  /** The upstream answers with exactly the fields asked for. */
  ghost predicate Exact(json: Json, response: Option<Response>, delta: map<string, set<string>>) {
    && Usable(response)
    && forall ds :: Fields(json, Surfaced(json, response.value.body), ds).Keys == if ds in delta then delta[ds] else {}
  }

  /** One request: what is missing is fetched, from an upstream that answers exactly, and stored. */
  ghost function RequestStep(json: Json, needed: map<string, RuleScope>, declared: Declared, body: Option<string>,
                             response: Option<Response>, next: Option<string>): Claim {
    var delta := Delta(json, needed, declared, Cached(json, body));
    Claim(next == Stored(delta, body, response) && (delta != map[] ==> Exact(json, response, delta)))
  }

  /** Successive requests of one customer under the same rules and schemas, before the entry's TTL. */
  ghost function IsRun(json: Json, needed: map<string, RuleScope>, declared: Declared, bodies: seq<Option<string>>,
                       responses: seq<Option<Response>>): Claim {
    Claim(
      && |bodies| == |responses| + 1
      && forall i | 0 <= i < |responses| :: RequestStep(json, needed, declared, bodies[i], responses[i], bodies[i + 1]).holds)
  }

  /** Whether some wanted field is held already. */
  ghost predicate Overlaps(json: Json, needed: map<string, RuleScope>, declared: Declared, profile: Profile) {
    exists ds | ds in needed :: Extras(needed[ds], declared) * Fields(json, profile, ds).Keys != {}
  }

  /** `after` holds exactly what `before` was missing. */
  ghost predicate Flipped(json: Json, needed: map<string, RuleScope>, declared: Declared, before: Profile, after: Profile) {
    forall ds :: Fields(json, after, ds).Keys == Missing(json, needed, declared, before, ds)
  }

  lemma ExactFlips(json: Json, needed: map<string, RuleScope>, declared: Declared, before: Profile, response: Option<Response>)
    requires Exact(json, response, Delta(json, needed, declared, before))
    ensures Flipped(json, needed, declared, before, Surfaced(json, response.value.body))
  {
    var delta := Delta(json, needed, declared, before);
    forall ds ensures Fields(json, Surfaced(json, response.value.body), ds).Keys == Missing(json, needed, declared, before, ds) {
      assert ds in delta <==> Missing(json, needed, declared, before, ds) != {};
    }
  }

  /** After a flip, exactly the wanted fields that were held are missing. */
  lemma MissingAfterFlip(json: Json, needed: map<string, RuleScope>, declared: Declared, before: Profile, after: Profile, ds: string)
    requires Flipped(json, needed, declared, before, after) && ds in needed
    ensures Missing(json, needed, declared, after, ds) == Extras(needed[ds], declared) * Fields(json, before, ds).Keys
    ensures Extras(needed[ds], declared) * Fields(json, after, ds).Keys == Missing(json, needed, declared, before, ds)
  {}

  /** Something is missing exactly when some datasource misses something. */
  lemma DeltaWitness(json: Json, needed: map<string, RuleScope>, declared: Declared, profile: Profile)
    ensures Delta(json, needed, declared, profile) != map[] <==>
            exists ds :: ds in needed && Missing(json, needed, declared, profile, ds) != {}
  {
    if ds :| ds in needed && Missing(json, needed, declared, profile, ds) != {} {
      assert ds in Delta(json, needed, declared, profile);
    } else {
      assert Delta(json, needed, declared, profile) == map[];
    }
  }

  /** One fetch flips what is held: it completes the cache only when it replaces no wanted field. */
  lemma FetchFlips(json: Json, needed: map<string, RuleScope>, declared: Declared, before: Profile, after: Profile)
    requires Flipped(json, needed, declared, before, after)
    ensures Delta(json, needed, declared, after) != map[] <==> Overlaps(json, needed, declared, before)
    ensures Overlaps(json, needed, declared, after) <==> Delta(json, needed, declared, before) != map[]
  {
    DeltaWitness(json, needed, declared, before);
    DeltaWitness(json, needed, declared, after);
    forall ds | ds in needed
      ensures Missing(json, needed, declared, after, ds) == Extras(needed[ds], declared) * Fields(json, before, ds).Keys
      ensures Extras(needed[ds], declared) * Fields(json, after, ds).Keys == Missing(json, needed, declared, before, ds)
    {
      MissingAfterFlip(json, needed, declared, before, after, ds);
    }
  }

  /** What one step of a run does when something is missing. */
  lemma RequestFetches(json: Json, needed: map<string, RuleScope>, declared: Declared, body: Option<string>,
                       response: Option<Response>, next: Option<string>)
    requires RequestStep(json, needed, declared, body, response, next).holds
    requires Delta(json, needed, declared, Cached(json, body)) != map[]
    ensures Delta(json, needed, declared, Cached(json, next)) != map[] <==> Overlaps(json, needed, declared, Cached(json, body))
    ensures Overlaps(json, needed, declared, Cached(json, next))
  {
    ExactFlips(json, needed, declared, Cached(json, body), response);
    FetchFlips(json, needed, declared, Cached(json, body), Cached(json, next));
  }

  /** Something wanted is missing, and something wanted is held. */
  ghost function Restless(json: Json, needed: map<string, RuleScope>, declared: Declared, body: Option<string>): Claim {
    Claim(Delta(json, needed, declared, Cached(json, body)) != map[] && Overlaps(json, needed, declared, Cached(json, body)))
  }

  lemma StaysRestless(json: Json, needed: map<string, RuleScope>, declared: Declared, body: Option<string>,
                      response: Option<Response>, next: Option<string>)
    requires RequestStep(json, needed, declared, body, response, next).holds && Restless(json, needed, declared, body).holds
    ensures Restless(json, needed, declared, next).holds
  {
    RequestFetches(json, needed, declared, body, response, next);
  }

  /** What every step passes on holds throughout. */
  lemma {:induction false} PassedOn(claims: seq<Claim>, i: nat)
    requires i < |claims| && claims[0].holds
    requires forall k | 0 <= k < |claims| - 1 && claims[k].holds :: claims[k + 1].holds
    ensures claims[i].holds
  {
    if i > 0 {
      PassedOn(claims, i - 1);
    }
  }

  /** A run fetches again at every step once a fetch has replaced an envelope that held a wanted field. */
  lemma KeepsFetching(json: Json, needed: map<string, RuleScope>, declared: Declared, bodies: seq<Option<string>>,
                      responses: seq<Option<Response>>, i: nat)
    requires IsRun(json, needed, declared, bodies, responses).holds && i < |bodies|
    requires Restless(json, needed, declared, bodies[0]).holds
    ensures Restless(json, needed, declared, bodies[i]).holds
  {
    var claims := seq(|bodies|, k requires 0 <= k < |bodies| => Restless(json, needed, declared, bodies[k]));
    forall k | 0 <= k < |claims| - 1 && claims[k].holds ensures claims[k + 1].holds {
      RunStep(json, needed, declared, bodies, responses, k);
      StaysRestless(json, needed, declared, bodies[k], responses[k], bodies[k + 1]);
    }
    PassedOn(claims, i);
  }

  lemma RunStep(json: Json, needed: map<string, RuleScope>, declared: Declared, bodies: seq<Option<string>>,
                responses: seq<Option<Response>>, i: nat)
    requires IsRun(json, needed, declared, bodies, responses).holds && i < |responses|
    ensures |bodies| == |responses| + 1
    ensures RequestStep(json, needed, declared, bodies[i], responses[i], bodies[i + 1]).holds
  {}

  /** Nothing wanted is missing, and this is what is cached. */
  ghost function Settled(json: Json, needed: map<string, RuleScope>, declared: Declared, at: Option<string>,
                         body: Option<string>): Claim {
    Claim(body == at && Delta(json, needed, declared, Cached(json, body)) == map[])
  }

  lemma SettledStep(json: Json, needed: map<string, RuleScope>, declared: Declared, at: Option<string>, body: Option<string>,
                    response: Option<Response>, next: Option<string>)
    requires RequestStep(json, needed, declared, body, response, next).holds
    requires Settled(json, needed, declared, at, body).holds
    ensures Settled(json, needed, declared, at, next).holds
  {}

  /** A run that starts settled stays so. */
  lemma StaysSettled(json: Json, needed: map<string, RuleScope>, declared: Declared, bodies: seq<Option<string>>,
                     responses: seq<Option<Response>>, i: nat)
    requires IsRun(json, needed, declared, bodies, responses).holds && i < |bodies|
    requires Settled(json, needed, declared, bodies[0], bodies[0]).holds
    ensures Settled(json, needed, declared, bodies[0], bodies[i]).holds
  {
    var at := bodies[0];
    var claims := seq(|bodies|, k requires 0 <= k < |bodies| => Settled(json, needed, declared, at, bodies[k]));
    forall k | 0 <= k < |claims| - 1 && claims[k].holds ensures claims[k + 1].holds {
      RunStep(json, needed, declared, bodies, responses, k);
      SettledStep(json, needed, declared, at, bodies[k], responses[k], bodies[k + 1]);
    }
    PassedOn(claims, i);
  }

  lemma RunTail(json: Json, needed: map<string, RuleScope>, declared: Declared, bodies: seq<Option<string>>,
                responses: seq<Option<Response>>)
    requires IsRun(json, needed, declared, bodies, responses).holds && responses != []
    ensures IsRun(json, needed, declared, bodies[1..], responses[1..]).holds
  {
    forall k | 0 <= k < |responses[1..]|
      ensures RequestStep(json, needed, declared, bodies[1..][k], responses[1..][k], bodies[1..][k + 1]).holds
    {
      RunStep(json, needed, declared, bodies, responses, k + 1);
    }
  }

  /**
   * When the cache settles. The envelope is replaced, not merged, so with an upstream that
   * returns exactly what it is asked for, the customer's later requests stop calling it if and
   * only if the first found either every wanted field cached or none of them. In every other
   * case each single request calls it again.
   */
  lemma CacheSettles(json: Json, needed: map<string, RuleScope>, declared: Declared, bodies: seq<Option<string>>,
                     responses: seq<Option<Response>>, i: nat)
    requires IsRun(json, needed, declared, bodies, responses).holds && 1 <= i < |bodies|
    ensures var first := Cached(json, bodies[0]);
            Delta(json, needed, declared, Cached(json, bodies[i])) == map[] <==>
            Delta(json, needed, declared, first) == map[] || !Overlaps(json, needed, declared, first)
  {
    var first := Cached(json, bodies[0]);
    if Delta(json, needed, declared, first) == map[] {
      StaysSettled(json, needed, declared, bodies, responses, i);
    } else if Overlaps(json, needed, declared, first) {
      KeepsFetching(json, needed, declared, bodies, responses, i);
    } else {
      RunStep(json, needed, declared, bodies, responses, 0);
      RequestFetches(json, needed, declared, bodies[0], responses[0], bodies[1]);
      RunTail(json, needed, declared, bodies, responses);
      StaysSettled(json, needed, declared, bodies[1..], responses[1..], i - 1);
    }
  }

  /** An envelope that surfaces one datasource with one readable field. */
  predicate Carries(json: Json, body: string, ds: string, field: string) {
    body != "" && Surfaced(json, body).Keys == {ds} && Fields(json, Surfaced(json, body), ds).Keys == {field}
  }

  /** With one of two wanted fields held, exactly the other is asked for. */
  lemma HalfHeld(json: Json, needed: map<string, RuleScope>, declared: Declared, body: string, ds: string, held: string,
                 missing: string)
    requires needed.Keys == {ds} && Extras(needed[ds], declared) == {held, missing} && held != missing
    requires Carries(json, body, ds, held)
    ensures Delta(json, needed, declared, Cached(json, Some(body))) == map[ds := {missing}]
  {
    assert Missing(json, needed, declared, Surfaced(json, body), ds) == {missing};
  }

  /** A request that finds one wanted field fetches the other, and replaces the one by the other. */
  lemma TakesTurns(json: Json, needed: map<string, RuleScope>, declared: Declared, body: string, next: string, ds: string,
                   held: string, missing: string)
    requires needed.Keys == {ds} && Extras(needed[ds], declared) == {held, missing} && held != missing
    requires Carries(json, body, ds, held) && Carries(json, next, ds, missing)
    ensures RequestStep(json, needed, declared, Some(body), Some(Response(200, next)), Some(next)).holds
  {
    HalfHeld(json, needed, declared, body, ds, held, missing);
    CarriesExactly(json, next, ds, missing);
  }

  lemma CarriesExactly(json: Json, body: string, ds: string, field: string)
    requires Carries(json, body, ds, field)
    ensures Exact(json, Some(Response(200, body)), map[ds := {field}])
    ensures map[ds := {field}] != map[]
  {
    var delta := map[ds := {field}];
    assert ds in delta;
    forall e ensures Fields(json, Surfaced(json, body), e).Keys == if e in delta then delta[e] else {} {
      assert e in Surfaced(json, body) <==> e == ds;
    }
  }

  lemma RunOfTwo(json: Json, needed: map<string, RuleScope>, declared: Declared, bodies: seq<Option<string>>,
                 responses: seq<Option<Response>>)
    requires |bodies| == 3 && |responses| == 2
    requires RequestStep(json, needed, declared, bodies[0], responses[0], bodies[1]).holds
    requires RequestStep(json, needed, declared, bodies[1], responses[1], bodies[2]).holds
    ensures IsRun(json, needed, declared, bodies, responses).holds
  {
    forall i | 0 <= i < 2 ensures RequestStep(json, needed, declared, bodies[i], responses[i], bodies[i + 1]).holds {
      assert i == 0 || i == 1;
    }
  }

  /** The failing side: two wanted fields, one of them cached, and two envelopes that take turns. */
  lemma HalfHeldNeverSettles(json: Json, needed: map<string, RuleScope>, declared: Declared, ds: string, f: string, g: string,
                             hasF: string, hasG: string) returns (bodies: seq<Option<string>>, responses: seq<Option<Response>>)
    requires needed.Keys == {ds} && Extras(needed[ds], declared) == {f, g} && f != g
    requires Carries(json, hasF, ds, f) && Carries(json, hasG, ds, g)
    ensures bodies == [Some(hasF), Some(hasG), Some(hasF)]
    ensures IsRun(json, needed, declared, bodies, responses).holds
    ensures Delta(json, needed, declared, Cached(json, Some(hasF))) == map[ds := {g}]
    ensures Delta(json, needed, declared, Cached(json, Some(hasG))) == map[ds := {f}]
  {
    bodies := [Some(hasF), Some(hasG), Some(hasF)];
    responses := [Some(Response(200, hasG)), Some(Response(200, hasF))];
    HalfHeld(json, needed, declared, hasF, ds, f, g);
    HalfHeld(json, needed, declared, hasG, ds, g, f);
    TakesTurns(json, needed, declared, hasF, hasG, ds, f, g);
    TakesTurns(json, needed, declared, hasG, hasF, ds, g, f);
    RunOfTwo(json, needed, declared, bodies, responses);
  }

  // --------------------------------------------------------------- the projection

  /** Field name to attribute UUID, per datasource; empty when the lookup fails. */
  type AttributeIds = string -> map<string, string>

  /** The (datasource, field) pairs of these datasources that resolve to an attribute. */
  function PairsIn(json: Json, profile: Profile, ids: AttributeIds, sources: set<string>): set<(string, string)> {
    set ds, f | ds in sources && f in Fields(json, profile, ds) && f in ids(ds) :: (ds, f)
  }

  function Pairs(json: Json, profile: Profile, ids: AttributeIds): set<(string, string)> {
    PairsIn(json, profile, ids, profile.Keys)
  }

  predicate Resolves(json: Json, profile: Profile, ids: AttributeIds, p: (string, string)) {
    p.1 in Fields(json, profile, p.0) && p.1 in ids(p.0)
  }

  function Members(order: seq<(string, string)>): set<(string, string)> {
    set p | p in order
  }

  /** The flat map after walking pairs in this order: a later pair overwrites the same UUID. */
  function Written(json: Json, profile: Profile, ids: AttributeIds, order: seq<(string, string)>): map<string, string> {
    if order == [] then map[]
    else
      var out, p := Written(json, profile, ids, order[..|order| - 1]), order[|order| - 1];
      if Resolves(json, profile, ids, p) then out[ids(p.0)[p.1] := Fields(json, profile, p.0)[p.1]] else out
  }

  /** Every walked pair has its UUID, and every UUID has the value of a walked pair. */
  lemma WrittenFrom(json: Json, profile: Profile, ids: AttributeIds, order: seq<(string, string)>, id: string)
    ensures id in Written(json, profile, ids, order) <==>
            exists p :: p in order && Resolves(json, profile, ids, p) && ids(p.0)[p.1] == id
    ensures id in Written(json, profile, ids, order) ==>
            exists p :: p in order && Resolves(json, profile, ids, p) && ids(p.0)[p.1] == id
                        && Written(json, profile, ids, order)[id] == Fields(json, profile, p.0)[p.1]
  {
    WrittenIds(json, profile, ids, order, id);
    if id in Written(json, profile, ids, order) {
      var p := WrittenBy(json, profile, ids, order, id);
    }
  }

  lemma {:induction false} WrittenIds(json: Json, profile: Profile, ids: AttributeIds, order: seq<(string, string)>, id: string)
    ensures id in Written(json, profile, ids, order) <==>
            exists p :: p in order && Resolves(json, profile, ids, p) && ids(p.0)[p.1] == id
  {
    if order != [] {
      var init, last := order[..|order| - 1], order[|order| - 1];
      assert order == init + [last];
      WrittenIds(json, profile, ids, init, id);
      assert forall p :: p in order <==> p in init || p == last;
    }
  }

  /** A walked pair whose value is the one written for the UUID. */
  lemma {:induction false} WrittenBy(json: Json, profile: Profile, ids: AttributeIds, order: seq<(string, string)>, id: string)
    returns (p: (string, string))
    requires id in Written(json, profile, ids, order)
    ensures p in order && Resolves(json, profile, ids, p) && ids(p.0)[p.1] == id
    ensures Written(json, profile, ids, order)[id] == Fields(json, profile, p.0)[p.1]
  {
    var init, last := order[..|order| - 1], order[|order| - 1];
    assert order == init + [last];
    if Resolves(json, profile, ids, last) && ids(last.0)[last.1] == id {
      p := last;
    } else {
      p := WrittenBy(json, profile, ids, init, id);
    }
  }

  /** Pairs that share an attribute UUID hold the same value. */
  ghost predicate AgreeingIds(json: Json, profile: Profile, ids: AttributeIds) {
    forall p, q | p in Pairs(json, profile, ids) && q in Pairs(json, profile, ids) && ids(p.0)[p.1] == ids(q.0)[q.1] ::
      Fields(json, profile, p.0)[p.1] == Fields(json, profile, q.0)[q.1]
  }

  /** Every walk over the resolving pairs gives the same map. */
  ghost predicate OrderIndependent(json: Json, profile: Profile, ids: AttributeIds) {
    forall a, b | Members(a) == Pairs(json, profile, ids) && Members(b) == Pairs(json, profile, ids) ::
      Written(json, profile, ids, a) == Written(json, profile, ids, b)
  }

  lemma WalksAgree(json: Json, profile: Profile, ids: AttributeIds, a: seq<(string, string)>, b: seq<(string, string)>)
    requires AgreeingIds(json, profile, ids)
    requires Members(a) == Pairs(json, profile, ids) && Members(b) == Pairs(json, profile, ids)
    ensures Written(json, profile, ids, a) == Written(json, profile, ids, b)
  {
    var wa, wb := Written(json, profile, ids, a), Written(json, profile, ids, b);
    forall id ensures id in wa <==> id in wb {
      if id in wa {
        ProjectionAgrees(json, profile, ids, a, b, id);
      }
      if id in wb {
        ProjectionAgrees(json, profile, ids, b, a, id);
      }
    }
    forall id | id in wa ensures wa[id] == wb[id] {
      ProjectionAgrees(json, profile, ids, a, b, id);
    }
  }

  lemma ProjectionAgrees(json: Json, profile: Profile, ids: AttributeIds, a: seq<(string, string)>, b: seq<(string, string)>,
                         id: string)
    requires AgreeingIds(json, profile, ids) && id in Written(json, profile, ids, a)
    requires Members(a) == Pairs(json, profile, ids) && Members(b) == Pairs(json, profile, ids)
    ensures id in Written(json, profile, ids, b)
    ensures Written(json, profile, ids, a)[id] == Written(json, profile, ids, b)[id]
  {
    WrittenFrom(json, profile, ids, a, id);
    var p :| p in a && Resolves(json, profile, ids, p) && ids(p.0)[p.1] == id
             && Written(json, profile, ids, a)[id] == Fields(json, profile, p.0)[p.1];
    assert p in Members(a) && p in Members(b) && p in b;
    WrittenFrom(json, profile, ids, b, id);
    var q :| q in b && Resolves(json, profile, ids, q) && ids(q.0)[q.1] == id
             && Written(json, profile, ids, b)[id] == Fields(json, profile, q.0)[q.1];
    assert q in Members(b);
  }

  /** The last pair walked keeps its UUID. */
  lemma LastWins(json: Json, profile: Profile, ids: AttributeIds, order: seq<(string, string)>, p: (string, string))
    requires Resolves(json, profile, ids, p)
    ensures Written(json, profile, ids, order + [p]) ==
            Written(json, profile, ids, order)[ids(p.0)[p.1] := Fields(json, profile, p.0)[p.1]]
    ensures Members(order + [p]) == Members(order) + {p}
  {
    assert (order + [p])[..|order|] == order;
  }

  /** A shared UUID with different values lets the walk order decide. */
  lemma SharedIdIsAmbiguous(json: Json, profile: Profile, ids: AttributeIds, order: seq<(string, string)>, p: (string, string),
                            q: (string, string))
    requires Members(order) == Pairs(json, profile, ids)
    requires p in Pairs(json, profile, ids) && q in Pairs(json, profile, ids) && ids(p.0)[p.1] == ids(q.0)[q.1]
    requires Fields(json, profile, p.0)[p.1] != Fields(json, profile, q.0)[q.1]
    ensures Members(order + [p]) == Pairs(json, profile, ids) && Members(order + [q]) == Pairs(json, profile, ids)
    ensures Written(json, profile, ids, order + [p]) != Written(json, profile, ids, order + [q])
  {
    LastWins(json, profile, ids, order, p);
    LastWins(json, profile, ids, order, q);
    var id := ids(p.0)[p.1];
    assert Written(json, profile, ids, order + [p])[id] != Written(json, profile, ids, order + [q])[id];
  }

  lemma {:induction false} SomeWalk(pairs: set<(string, string)>) returns (order: seq<(string, string)>)
    ensures Members(order) == pairs
  {
    if pairs == {} {
      order := [];
    } else {
      var p :| p in pairs;
      var rest := SomeWalk(pairs - {p});
      order := rest + [p];
      assert Members(order) == Members(rest) + {p};
    }
  }

  /** The projection is independent of map order if and only if pairs that share a UUID agree. */
  lemma ProjectionUnique(json: Json, profile: Profile, ids: AttributeIds)
    ensures OrderIndependent(json, profile, ids) <==> AgreeingIds(json, profile, ids)
  {
    if AgreeingIds(json, profile, ids) {
      forall a, b | Members(a) == Pairs(json, profile, ids) && Members(b) == Pairs(json, profile, ids)
        ensures Written(json, profile, ids, a) == Written(json, profile, ids, b)
      {
        WalksAgree(json, profile, ids, a, b);
      }
    } else {
      DisagreeingIdsAreAmbiguous(json, profile, ids);
    }
  }

  lemma DisagreeingIdsAreAmbiguous(json: Json, profile: Profile, ids: AttributeIds)
    requires !AgreeingIds(json, profile, ids)
    ensures !OrderIndependent(json, profile, ids)
  {
    var p, q :| p in Pairs(json, profile, ids) && q in Pairs(json, profile, ids) && ids(p.0)[p.1] == ids(q.0)[q.1]
                && Fields(json, profile, p.0)[p.1] != Fields(json, profile, q.0)[q.1];
    var order := SomeWalk(Pairs(json, profile, ids));
    SharedIdIsAmbiguous(json, profile, ids, order, p, q);
  }

  // ------------------------------------------------------------ attribute rows

  /** The UUID of each named field; a later row wins. Nil and unnamed rows are skipped. */
  function FieldIds(rows: seq<Option<ClenAttribute>>): map<string, string> {
    if rows == [] then map[]
    else
      var init, last := FieldIds(rows[..|rows| - 1]), rows[|rows| - 1];
      if last.None? || last.value.field == "" then init else init[last.value.field := last.value.id]
  }

  lemma {:induction false} FieldIdFrom(rows: seq<Option<ClenAttribute>>, f: string)
    requires f in FieldIds(rows)
    ensures exists a | a in rows :: a.Some? && a.value.field == f && a.value.id == FieldIds(rows)[f]
  {
    var n := |rows| - 1;
    var last := rows[n];
    assert last in rows;
    if f != "" && last.Some? && last.value.field == f {
      assert last.value.id == FieldIds(rows)[f];
    } else {
      FieldIdFrom(rows[..n], f);
      var a :| a in rows[..n] && a.Some? && a.value.field == f && a.value.id == FieldIds(rows[..n])[f];
      assert a in rows;
    }
  }

  /** Attribute rows listed by datasource: each under its own datasource, and IDs are primary keys. */
  ghost predicate RowsOk(table: string -> seq<Option<ClenAttribute>>) {
    && (forall ds, a | a in table(ds) && a.Some? :: a.value.tableSource == ds)
    && (forall ds, es, a, b | a in table(ds) && b in table(es) && a.Some? && b.Some? && a.value.id == b.value.id :: a == b)
  }

  function TableIds(table: string -> seq<Option<ClenAttribute>>): AttributeIds {
    ds => FieldIds(table(ds))
  }

  lemma OneRowPerId(table: string -> seq<Option<ClenAttribute>>, ds: string, f: string, es: string, g: string)
    requires RowsOk(table) && f in FieldIds(table(ds)) && g in FieldIds(table(es))
    requires FieldIds(table(ds))[f] == FieldIds(table(es))[g]
    ensures ds == es && f == g
  {
    FieldIdFrom(table(ds), f);
    FieldIdFrom(table(es), g);
    var a :| a in table(ds) && a.Some? && a.value.field == f && a.value.id == FieldIds(table(ds))[f];
    var b :| b in table(es) && b.Some? && b.value.field == g && b.value.id == FieldIds(table(es))[g];
    assert a == b && a.value.tableSource == ds && b.value.tableSource == es;
  }

  /** With the database's keys no two pairs share a UUID, so every map order gives one projection. */
  lemma PrimaryKeysAreDistinct(json: Json, profile: Profile, table: string -> seq<Option<ClenAttribute>>)
    requires RowsOk(table)
    ensures OrderIndependent(json, profile, TableIds(table))
  {
    var ids := TableIds(table);
    forall p, q | p in Pairs(json, profile, ids) && q in Pairs(json, profile, ids) && ids(p.0)[p.1] == ids(q.0)[q.1]
      ensures p == q
    {
      OneRowPerId(table, p.0, p.1, q.0, q.1);
    }
    ProjectionUnique(json, profile, ids);
  }
}
