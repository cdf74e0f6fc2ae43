/** Placement evaluation: build candidate entries, keep the passing ones, expand leads, sort by score. */
module LocalEvaluator {
  import opened Wrappers
  import opened Sequences
  import opened Conditions
  import opened Semantics
  import opened Values
  import opened PlacementLogic

  datatype Variation = Variation(orderNo: int, attributes: seq<(Uuid, Raw)>)

  datatype Rule = Rule(running: string, contentPath: string, salesTarget: bool, campaign: string,
                       score: real, conditions: seq<RuleCondition>, variations: seq<Variation>)

  datatype Schedule = Schedule(rule: Option<Rule>, from: string, until: string)

  datatype Lead = Lead(contentId: string, campaign: string, finalScore: string,
                       start: string, end: string, placements: seq<string>)

  /** One content result. The rendered expression and its hash are not part of it here. */
  datatype Entry = Entry(rule: string, contentPath: string, source: string, score: real, start: string, end: string,
                         campaign: string, logicEval: bool, conditions: seq<LogicCondition>)

  /** An entry to decide, and whether it expands into leads. */
  datatype Candidate = Candidate(entry: Entry, salesTarget: bool)

  /** The expected values of a variation; a later attribute row overwrites an earlier one. */
  function ExpectedOf(attributes: seq<(Uuid, Raw)>): map<string, Raw> {
    if attributes == [] then map[]
    else
      var last := attributes[|attributes| - 1];
      ExpectedOf(attributes[..|attributes| - 1])[last.0 := last.1]
  }

  function EntryFor(rule: Rule, sched: Schedule, placement: string, expected: map<string, Raw>): Entry {
    Entry(rule.running, rule.contentPath, placement, rule.score, sched.from, sched.until, rule.campaign, false,
          FlattenAll(rule.conditions, expected))
  }

  /** The candidates of one schedule: one per variation, or one without expected values. */
  function CandidatesOf(sched: Schedule, placement: string): seq<Candidate> {
    if sched.rule.None? then []
    else
      var rule := sched.rule.value;
      if rule.variations == [] then [Candidate(EntryFor(rule, sched, placement, map[]), rule.salesTarget)]
      else VariationCandidates(rule, sched, placement, rule.variations)
  }

  function CandidateFor(rule: Rule, sched: Schedule, placement: string): Variation -> Candidate {
    (v: Variation) => Candidate(EntryFor(rule, sched, placement, ExpectedOf(v.attributes)), rule.salesTarget)
  }

  function VariationCandidates(rule: Rule, sched: Schedule, placement: string, vs: seq<Variation>): seq<Candidate> {
    Map(CandidateFor(rule, sched, placement), vs)
  }

  function AllCandidates(schedules: seq<Schedule>, placement: string): seq<Candidate> {
    if schedules == [] then []
    else AllCandidates(schedules[..|schedules| - 1], placement) + CandidatesOf(schedules[|schedules| - 1], placement)
  }

  /** A lead offers on a placement it lists; nothing is offered on the unnamed placement. */
  predicate LeadMatches(lead: Lead, placement: string) {
    placement != "" && placement in lead.placements
  }

  function CloneFor(entry: Entry, lead: Lead, parseScore: string -> Option<real>): Entry {
    entry.(contentPath := lead.contentId,
           score := if lead.finalScore == "" then entry.score else parseScore(lead.finalScore).GetOr(entry.score),
           campaign := lead.campaign, start := lead.start, end := lead.end)
  }

  /** One clone for each lead that lists the placement. */
  function Clones(entry: Entry, leads: seq<Lead>, placement: string, parseScore: string -> Option<real>): seq<Entry> {
    if leads == [] then []
    else
      var init, last := leads[..|leads| - 1], leads[|leads| - 1];
      Clones(entry, init, placement, parseScore) +
      if LeadMatches(last, placement) then [CloneFor(entry, last, parseScore)] else []
  }

  /** What a passing candidate contributes to the response. */
  function Offers(c: Candidate, leads: seq<Lead>, placement: string, parseScore: string -> Option<real>): seq<Entry> {
    var entry := c.entry.(logicEval := true);
    if c.salesTarget then Clones(entry, leads, placement, parseScore) else [entry]
  }

  /** The offers of the candidates that pass, in candidate order. */
  function Passing(cs: seq<Candidate>, passed: seq<bool>, leads: seq<Lead>, placement: string,
                   parseScore: string -> Option<real>): seq<Entry>
    requires |passed| == |cs|
  {
    if cs == [] then []
    else
      var n := |cs| - 1;
      Passing(cs[..n], passed[..n], leads, placement, parseScore) +
      if passed[n] then Offers(cs[n], leads, placement, parseScore) else []
  }

  /** A decision the evaluator may reach: its conditions hold, under some order of ties. */
  ghost function Decided(lib: Lib, c: Candidate, user: Option<map<string, Raw>>, pass: bool): Claim {
    Claim(exists byParent ::
            && IsIndex(byParent, RestoreAll(c.entry.conditions), BySequence())
            && pass == (RuleVerdict(lib, RestoreAll(c.entry.conditions), byParent, StampLogic(c.entry.conditions), user)
                        == Val(true)))
  }

  function ByOrder(): (Variation, Variation) -> bool {
    (a: Variation, b: Variation) => a.orderNo < b.orderNo
  }

  function ByScore(): (Entry, Entry) -> bool {
    (a: Entry, b: Entry) => a.score > b.score
  }

  /** The candidates of one schedule, variations in order number order (ties in any order). */
  method BuildPlacementLogicEntries(sched: Schedule, placement: string) returns (cs: seq<Candidate>)
    requires sched.rule.Some?
    ensures multiset(cs) == multiset(CandidatesOf(sched, placement))
  {
    var rule := sched.rule.value;
    if |rule.variations| == 0 {
      var flat := FlattenConditions(rule.conditions, map[]);
      return [Candidate(EntryFor(rule, sched, placement, map[]).(conditions := flat), rule.salesTarget)];
    }
    var sorted := SortSlice(ByOrder(), rule.variations);
    cs := [];
    for i := 0 to |sorted|
      invariant cs == VariationCandidates(rule, sched, placement, sorted[..i])
    {
      var c := BuildCandidate(rule, sched, placement, sorted[i]);
      OneMoreCandidate(rule, sched, placement, sorted, i);
      cs := cs + [c];
    }
    assert sorted[..|sorted|] == sorted;
    MapPermutation(CandidateFor(rule, sched, placement), sorted, rule.variations);
  }

  lemma OneMoreCandidate(rule: Rule, sched: Schedule, placement: string, vs: seq<Variation>, i: nat)
    requires i < |vs|
    ensures VariationCandidates(rule, sched, placement, vs[..i + 1]) ==
            VariationCandidates(rule, sched, placement, vs[..i]) + [CandidateFor(rule, sched, placement)(vs[i])]
  {}

  /** The candidate of one variation. */
  method BuildCandidate(rule: Rule, sched: Schedule, placement: string, v: Variation) returns (c: Candidate)
    ensures c == CandidateFor(rule, sched, placement)(v)
  {
    var expected := CollectExpected(v.attributes);
    var flat := FlattenConditions(rule.conditions, expected);
    c := Candidate(EntryFor(rule, sched, placement, expected).(conditions := flat), rule.salesTarget);
  }

  /** The expected values of a variation; a later one for the same attribute wins. */
  method CollectExpected(attributes: seq<(Uuid, Raw)>) returns (expected: map<string, Raw>)
    ensures expected == ExpectedOf(attributes)
  {
    expected := map[];
    for j := 0 to |attributes|
      invariant expected == ExpectedOf(attributes[..j])
    {
      assert attributes[..j + 1][..j] == attributes[..j];
      expected := expected[attributes[j].0 := attributes[j].1];
    }
    assert attributes[..|attributes|] == attributes;
  }

  method ExpandWithLeads(entry: Entry, leads: seq<Lead>, placement: string, parseScore: string -> Option<real>)
    returns (out: seq<Entry>)
    ensures out == Clones(entry, leads, placement, parseScore)
  {
    out := [];
    for i := 0 to |leads|
      invariant out == Clones(entry, leads[..i], placement, parseScore)
    {
      assert leads[..i + 1][..i] == leads[..i];
      if !LeadMatches(leads[i], placement) {
        continue;
      }
      out := out + [CloneFor(entry, leads[i], parseScore)];
    }
    assert leads[..|leads|] == leads;
  }

  /** Every decision is one the evaluator may reach. */
  ghost predicate AllDecided(lib: Lib, cs: seq<Candidate>, user: Option<map<string, Raw>>, passed: seq<bool>) {
    Each(MayDecide(lib, user), cs, passed)
  }

  ghost function MayDecide(lib: Lib, user: Option<map<string, Raw>>): (Candidate, bool) -> bool {
    (c: Candidate, pass: bool) => Decided(lib, c, user, pass).holds
  }

  method Decide(lib: Lib, c: Candidate, user: Option<map<string, Raw>>) returns (pass: bool)
    ensures MayDecide(lib, user)(c, pass)
  {
    var verdict := EvaluateLogicConditions(lib, c.entry.conditions, user);
    pass := verdict == Val(true);
  }

  method OffersOf(c: Candidate, leads: seq<Lead>, placement: string, parseScore: string -> Option<real>)
    returns (out: seq<Entry>)
    ensures out == Offers(c, leads, placement, parseScore)
  {
    var entry := c.entry.(logicEval := true);
    if c.salesTarget {
      out := ExpandWithLeads(entry, leads, placement, parseScore);
    } else {
      out := [entry];
    }
  }

  /** Decides the last of these candidates and appends its offers when it passes. */
  method DecideNext(lib: Lib, cs: seq<Candidate>, user: Option<map<string, Raw>>, leads: seq<Lead>, placement: string,
                    parseScore: string -> Option<real>, results: seq<Entry>, ghost passed: seq<bool>)
    returns (more: seq<Entry>, ghost passedMore: seq<bool>)
    requires cs != [] && AllDecided(lib, cs[..|cs| - 1], user, passed)
    requires results == Passing(cs[..|cs| - 1], passed, leads, placement, parseScore)
    ensures AllDecided(lib, cs, user, passedMore)
    ensures more == Passing(cs, passedMore, leads, placement, parseScore)
  {
    var n := |cs| - 1;
    var pass := Decide(lib, cs[n], user);
    more, passedMore := results, passed + [pass];
    EachSnoc(MayDecide(lib, user), cs, passed, pass);
    PassingSnoc(cs, passed, pass, leads, placement, parseScore);
    if pass {
      var offers := OffersOf(cs[n], leads, placement, parseScore);
      more := more + offers;
    }
  }

  lemma PassingSnoc(cs: seq<Candidate>, passed: seq<bool>, pass: bool, leads: seq<Lead>, placement: string,
                    parseScore: string -> Option<real>)
    requires |cs| == |passed| + 1
    ensures Passing(cs, passed + [pass], leads, placement, parseScore) ==
            Passing(cs[..|cs| - 1], passed, leads, placement, parseScore) +
            if pass then Offers(cs[|cs| - 1], leads, placement, parseScore) else []
  {
    assert (passed + [pass])[..|passed|] == passed;
  }

  /** Decides one schedule's candidates in turn and appends what passes. */
  method EvaluateSchedule(lib: Lib, placement: string, sched: Schedule, user: Option<map<string, Raw>>,
                          leads: seq<Lead>, parseScore: string -> Option<real>)
    returns (results: seq<Entry>, ghost cs: seq<Candidate>, ghost passed: seq<bool>)
    requires sched.rule.Some?
    ensures multiset(cs) == multiset(CandidatesOf(sched, placement)) && AllDecided(lib, cs, user, passed)
    ensures results == Passing(cs, passed, leads, placement, parseScore)
  {
    var entries := BuildPlacementLogicEntries(sched, placement);
    cs, passed, results := entries, [], [];
    for i := 0 to |entries|
      invariant AllDecided(lib, entries[..i], user, passed)
      invariant results == Passing(entries[..i], passed, leads, placement, parseScore)
    {
      assert entries[..i + 1][..i] == entries[..i];
      results, passed := DecideNext(lib, entries[..i + 1], user, leads, placement, parseScore, results, passed);
    }
    assert entries[..|entries|] == entries;
  }

  /**
   * The response is the offers of the passing candidates, each exactly once, by falling score.
   * The ghost results name the candidates in the order they were decided and each decision.
   */
  method Evaluate(lib: Lib, placement: string, schedules: seq<Schedule>, user: Option<map<string, Raw>>,
                  leads: seq<Lead>, parseScore: string -> Option<real>)
    returns (response: seq<Entry>, ghost cs: seq<Candidate>, ghost passed: seq<bool>)
    ensures multiset(cs) == multiset(AllCandidates(schedules, placement)) && AllDecided(lib, cs, user, passed)
    ensures multiset(response) == multiset(Passing(cs, passed, leads, placement, parseScore))
    ensures forall i, j | 0 <= i < j < |response| :: response[i].score >= response[j].score
  {
    var results;
    results, cs, passed := EvaluateAll(lib, placement, schedules, user, leads, parseScore);
    response := SortSlice(ByScore(), results);
    forall i, j | 0 <= i < j < |response| ensures response[i].score >= response[j].score {
      assert !ByScore()(response[j], response[i]);
    }
  }

  method EvaluateAll(lib: Lib, placement: string, schedules: seq<Schedule>, user: Option<map<string, Raw>>,
                     leads: seq<Lead>, parseScore: string -> Option<real>)
    returns (results: seq<Entry>, ghost cs: seq<Candidate>, ghost passed: seq<bool>)
    ensures multiset(cs) == multiset(AllCandidates(schedules, placement)) && AllDecided(lib, cs, user, passed)
    ensures results == Passing(cs, passed, leads, placement, parseScore)
  {
    results, cs, passed := [], [], [];
    for n := 0 to |schedules|
      invariant multiset(cs) == multiset(AllCandidates(schedules[..n], placement))
      invariant AllDecided(lib, cs, user, passed)
      invariant results == Passing(cs, passed, leads, placement, parseScore)
    {
      NextCandidates(schedules, n, placement);
      if schedules[n].rule.None? {
        continue;
      }
      var more, moreCs, morePassed := EvaluateSchedule(lib, placement, schedules[n], user, leads, parseScore);
      PassingConcat(cs, passed, moreCs, morePassed, leads, placement, parseScore);
      EachConcat(MayDecide(lib, user), cs, moreCs, passed, morePassed);
      MultisetConcat(cs, AllCandidates(schedules[..n], placement), moreCs, CandidatesOf(schedules[n], placement));
      results := results + more;
      cs, passed := cs + moreCs, passed + morePassed;
    }
    assert schedules[..|schedules|] == schedules;
  }

  lemma MultisetConcat<T>(a: seq<T>, x: seq<T>, b: seq<T>, y: seq<T>)
    requires multiset(a) == multiset(x) && multiset(b) == multiset(y)
    ensures multiset(a + b) == multiset(x + y)
  {}

  lemma NextCandidates(schedules: seq<Schedule>, n: nat, placement: string)
    requires n < |schedules|
    ensures AllCandidates(schedules[..n + 1], placement) ==
            AllCandidates(schedules[..n], placement) + CandidatesOf(schedules[n], placement)
  {
    assert schedules[..n + 1][..n] == schedules[..n];
  }

  lemma {:induction false} PassingConcat(a: seq<Candidate>, pa: seq<bool>, b: seq<Candidate>, pb: seq<bool>,
                                         leads: seq<Lead>, placement: string, parseScore: string -> Option<real>)
    requires |a| == |pa| && |b| == |pb|
    ensures Passing(a + b, pa + pb, leads, placement, parseScore) ==
            Passing(a, pa, leads, placement, parseScore) + Passing(b, pb, leads, placement, parseScore)
  {
    if b == [] {
      assert a + b == a && pa + pb == pa;
    } else {
      var n := |b| - 1;
      PassingConcat(a, pa, b[..n], pb[..n], leads, placement, parseScore);
      LastPassing(a + b, pa + pb, a + b[..n], pa + pb[..n], leads, placement, parseScore);
      LastPassing(b, pb, b[..n], pb[..n], leads, placement, parseScore);
    }
  }

  lemma LastPassing(cs: seq<Candidate>, passed: seq<bool>, init: seq<Candidate>, initPassed: seq<bool>,
                    leads: seq<Lead>, placement: string, parseScore: string -> Option<real>)
    requires |cs| == |passed| && cs != [] && init == cs[..|cs| - 1] && initPassed == passed[..|cs| - 1]
    ensures Passing(cs, passed, leads, placement, parseScore) ==
            Passing(init, initPassed, leads, placement, parseScore) +
            if passed[|cs| - 1] then Offers(cs[|cs| - 1], leads, placement, parseScore) else []
  {}

  // -------------------------------------------------------------- conservation

  /** How many offers a candidate makes: one per passing plain candidate, one per matching lead otherwise. */
  function OfferCount(c: Candidate, pass: bool, leads: seq<Lead>, placement: string): nat {
    if !pass then 0
    else if !c.salesTarget then 1
    else |Filter((lead: Lead) => LeadMatches(lead, placement), leads)|
  }

  function TotalOffers(cs: seq<Candidate>, passed: seq<bool>, leads: seq<Lead>, placement: string): nat
    requires |passed| == |cs|
  {
    if cs == [] then 0
    else
      var n := |cs| - 1;
      TotalOffers(cs[..n], passed[..n], leads, placement) + OfferCount(cs[n], passed[n], leads, placement)
  }

  lemma {:induction false} ClonesCount(entry: Entry, leads: seq<Lead>, placement: string, parseScore: string -> Option<real>)
    ensures |Clones(entry, leads, placement, parseScore)| ==
            |Filter((lead: Lead) => LeadMatches(lead, placement), leads)|
  {
    if leads != [] {
      var init, last := leads[..|leads| - 1], leads[|leads| - 1];
      ClonesCount(entry, init, placement, parseScore);
      assert leads == init + [last];
      FilterSnoc((lead: Lead) => LeadMatches(lead, placement), init, last);
    }
  }

  /** No offer is lost or duplicated: the response's size is the sum of what each candidate offers. */
  lemma {:induction false} OffersAreConserved(cs: seq<Candidate>, passed: seq<bool>, leads: seq<Lead>, placement: string,
                                              parseScore: string -> Option<real>)
    requires |passed| == |cs|
    ensures |Passing(cs, passed, leads, placement, parseScore)| == TotalOffers(cs, passed, leads, placement)
  {
    if cs != [] {
      var n := |cs| - 1;
      OffersAreConserved(cs[..n], passed[..n], leads, placement, parseScore);
      ClonesCount(cs[n].entry.(logicEval := true), leads, placement, parseScore);
    }
  }
}
