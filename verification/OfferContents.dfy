/** What an offer of the response contains, and which schedules, variations and leads it comes from. */
module OfferContents {
  import opened Wrappers
  import opened Conditions
  import opened Semantics
  import opened Values
  import Validation
  import opened PlacementLogic
  import opened LocalEvaluator

  /** The expected values of one variation of the rule, or none when it has no variations. */
  ghost predicate ExpectedBy(rule: Rule, expected: map<string, Raw>) {
    if rule.variations == [] then expected == map[]
    else exists v :: v in rule.variations && expected == ExpectedOf(v.attributes)
  }

  /** An attribute's expected value is that of the last row that gives one. */
  lemma {:induction false} LastValueWins(attributes: seq<(Uuid, Raw)>, attr: string)
    ensures attr in ExpectedOf(attributes) <==> exists a :: a in attributes && a.0 == attr
    ensures attr in ExpectedOf(attributes) ==>
              exists i | 0 <= i < |attributes| :: attributes[i] == (attr, ExpectedOf(attributes)[attr])
                                                  && forall j | i < j < |attributes| :: attributes[j].0 != attr
  {
    if attributes != [] {
      var n := |attributes| - 1;
      var init, last := attributes[..n], attributes[n];
      assert attributes == init + [last];
      LastValueWins(init, attr);
      if last.0 == attr {
        assert attributes[n] == (attr, ExpectedOf(attributes)[attr]);
      } else if attr in ExpectedOf(attributes) {
        var i :| 0 <= i < n && init[i] == (attr, ExpectedOf(init)[attr]) && forall j | i < j < n :: init[j].0 != attr;
        assert attributes[i] == init[i] && forall j | i < j < |attributes| :: j < n ==> attributes[j] == init[j];
      }
    }
  }

  /** A plain rule's offer: the rule's content and score in the schedule's period. */
  predicate IsPlainOffer(e: Entry, sched: Schedule, placement: string, expected: map<string, Raw>) {
    && sched.rule.Some?
    && var rule := sched.rule.value;
       && !rule.salesTarget && e.logicEval && e.source == placement
       && e.rule == rule.running && e.contentPath == rule.contentPath && e.campaign == rule.campaign && e.score == rule.score
       && e.start == sched.from && e.end == sched.until
       && e.conditions == FlattenAll(rule.conditions, expected)
  }

  /** A lead's offer: the lead's content, campaign and period, and its score where that is a number. */
  predicate IsLeadOffer(e: Entry, sched: Schedule, placement: string, expected: map<string, Raw>, lead: Lead,
                        parseScore: string -> Option<real>)
  {
    && sched.rule.Some?
    && placement != "" && placement in lead.placements
    && var rule := sched.rule.value;
       && rule.salesTarget && e.logicEval && e.source == placement && e.rule == rule.running
       && e.contentPath == lead.contentId && e.campaign == lead.campaign && e.start == lead.start && e.end == lead.end
       && e.score == (if lead.finalScore != "" && parseScore(lead.finalScore).Some? then parseScore(lead.finalScore).value
                      else rule.score)
       && e.conditions == FlattenAll(rule.conditions, expected)
  }

  ghost predicate IsOffer(e: Entry, sched: Schedule, placement: string, expected: map<string, Raw>, leads: seq<Lead>,
                          parseScore: string -> Option<real>)
  {
    || IsPlainOffer(e, sched, placement, expected)
    || exists lead :: lead in leads && IsLeadOffer(e, sched, placement, expected, lead, parseScore)
  }

  /** The candidate of one schedule and one set of expected values. */
  function CandidateOf(sched: Schedule, placement: string, expected: map<string, Raw>): Candidate
    requires sched.rule.Some?
  {
    Candidate(EntryFor(sched.rule.value, sched, placement, expected), sched.rule.value.salesTarget)
  }

  lemma {:induction false} ClonesAre(entry: Entry, leads: seq<Lead>, placement: string, parseScore: string -> Option<real>, e: Entry)
    ensures e in Clones(entry, leads, placement, parseScore) <==>
            exists lead :: lead in leads && LeadMatches(lead, placement) && e == CloneFor(entry, lead, parseScore)
  {
    if leads != [] {
      var init, last := leads[..|leads| - 1], leads[|leads| - 1];
      assert leads == init + [last];
      ClonesAre(entry, init, placement, parseScore, e);
      assert forall lead :: lead in leads <==> lead in init || lead == last;
    }
  }

  /** What one candidate contributes. */
  lemma OffersAre(sched: Schedule, placement: string, expected: map<string, Raw>, leads: seq<Lead>,
                  parseScore: string -> Option<real>, e: Entry)
    requires sched.rule.Some?
    ensures e in Offers(CandidateOf(sched, placement, expected), leads, placement, parseScore) <==>
            IsOffer(e, sched, placement, expected, leads, parseScore)
  {
    var c := CandidateOf(sched, placement, expected);
    var entry := c.entry.(logicEval := true);
    ClonesAre(entry, leads, placement, parseScore, e);
    forall lead | sched.rule.value.salesTarget
      ensures LeadMatches(lead, placement) && e == CloneFor(entry, lead, parseScore) <==>
              IsLeadOffer(e, sched, placement, expected, lead, parseScore)
    {
    }
  }

  lemma CandidatesAre(sched: Schedule, placement: string, c: Candidate)
    ensures c in CandidatesOf(sched, placement) <==>
            sched.rule.Some? && exists expected :: ExpectedBy(sched.rule.value, expected) && c == CandidateOf(sched, placement, expected)
  {
    if sched.rule.Some? && sched.rule.value.variations != [] {
      var rule := sched.rule.value;
      var cs := VariationCandidates(rule, sched, placement, rule.variations);
      if c in cs {
        var i :| 0 <= i < |cs| && cs[i] == c;
        var expected := ExpectedOf(rule.variations[i].attributes);
        assert rule.variations[i] in rule.variations && ExpectedBy(rule, expected);
        assert c == CandidateOf(sched, placement, expected);
      }
      if expected :| ExpectedBy(rule, expected) && c == CandidateOf(sched, placement, expected) {
        var v :| v in rule.variations && expected == ExpectedOf(v.attributes);
        var i :| 0 <= i < |rule.variations| && rule.variations[i] == v;
        assert cs[i] == c;
      }
    } else if sched.rule.Some? {
      assert ExpectedBy(sched.rule.value, map[]);
    }
  }

  lemma {:induction false} AllCandidatesAre(schedules: seq<Schedule>, placement: string, c: Candidate)
    ensures c in AllCandidates(schedules, placement) <==> exists sched :: sched in schedules && c in CandidatesOf(sched, placement)
  {
    if schedules != [] {
      var init, last := schedules[..|schedules| - 1], schedules[|schedules| - 1];
      assert schedules == init + [last];
      AllCandidatesAre(init, placement, c);
      assert forall sched :: sched in schedules <==> sched in init || sched == last;
    }
  }

  lemma {:induction false} PassingAre(cs: seq<Candidate>, passed: seq<bool>, leads: seq<Lead>, placement: string,
                                      parseScore: string -> Option<real>, e: Entry)
    requires |passed| == |cs|
    ensures e in Passing(cs, passed, leads, placement, parseScore) <==>
            exists i | 0 <= i < |cs| :: passed[i] && e in Offers(cs[i], leads, placement, parseScore)
  {
    if cs != [] {
      var n := |cs| - 1;
      PassingAre(cs[..n], passed[..n], leads, placement, parseScore, e);
      OfferedBefore(cs, passed, leads, placement, parseScore, e);
      LastPassing(cs, passed, cs[..n], passed[..n], leads, placement, parseScore);
    }
  }

  lemma OfferedBefore(cs: seq<Candidate>, passed: seq<bool>, leads: seq<Lead>, placement: string,
                      parseScore: string -> Option<real>, e: Entry)
    requires |passed| == |cs| && cs != []
    ensures var n := |cs| - 1;
            (exists i | 0 <= i < |cs| :: passed[i] && e in Offers(cs[i], leads, placement, parseScore)) <==>
            || (exists i | 0 <= i < n :: passed[..n][i] && e in Offers(cs[..n][i], leads, placement, parseScore))
            || (passed[n] && e in Offers(cs[n], leads, placement, parseScore))
  {
    var n := |cs| - 1;
    if i :| 0 <= i < |cs| && passed[i] && e in Offers(cs[i], leads, placement, parseScore) {
      assert i < n ==> cs[..n][i] == cs[i] && passed[..n][i] == passed[i];
    }
  }

  lemma SameMembership(cs: seq<Candidate>, all: seq<Candidate>, c: Candidate)
    requires multiset(cs) == multiset(all)
    ensures c in cs <==> c in all
  {
    assert c in cs <==> c in multiset(cs);
  }

  /**
   * Nothing else is offered: every offer is that of a schedule with a rule, under the expected
   * values of one variation, whose conditions hold for the user.
   */
  lemma OfferComesFrom(lib: Lib, schedules: seq<Schedule>, placement: string, user: Option<map<string, Raw>>, leads: seq<Lead>,
                       parseScore: string -> Option<real>, cs: seq<Candidate>, passed: seq<bool>, e: Entry)
    returns (sched: Schedule, expected: map<string, Raw>)
    requires multiset(cs) == multiset(AllCandidates(schedules, placement)) && AllDecided(lib, cs, user, passed)
    requires e in Passing(cs, passed, leads, placement, parseScore)
    ensures sched in schedules && sched.rule.Some? && ExpectedBy(sched.rule.value, expected)
    ensures IsOffer(e, sched, placement, expected, leads, parseScore)
    ensures Decided(lib, CandidateOf(sched, placement, expected), user, true).holds
  {
    PassingAre(cs, passed, leads, placement, parseScore, e);
    var i :| 0 <= i < |cs| && passed[i] && e in Offers(cs[i], leads, placement, parseScore);
    SameMembership(cs, AllCandidates(schedules, placement), cs[i]);
    AllCandidatesAre(schedules, placement, cs[i]);
    sched :| sched in schedules && cs[i] in CandidatesOf(sched, placement);
    CandidatesAre(sched, placement, cs[i]);
    expected :| ExpectedBy(sched.rule.value, expected) && cs[i] == CandidateOf(sched, placement, expected);
    OffersAre(sched, placement, expected, leads, parseScore, e);
  }

  /**
   * Nothing is withheld: for every schedule with a rule and every variation there is a decision,
   * and when it is positive each of its offers is in the response.
   */
  lemma EveryCandidateIsDecided(lib: Lib, schedules: seq<Schedule>, placement: string, user: Option<map<string, Raw>>,
                                leads: seq<Lead>, parseScore: string -> Option<real>, cs: seq<Candidate>, passed: seq<bool>,
                                sched: Schedule, expected: map<string, Raw>)
    returns (pass: bool)
    requires multiset(cs) == multiset(AllCandidates(schedules, placement)) && AllDecided(lib, cs, user, passed)
    requires sched in schedules && sched.rule.Some? && ExpectedBy(sched.rule.value, expected)
    ensures Decided(lib, CandidateOf(sched, placement, expected), user, pass).holds
    ensures pass ==> forall e | IsOffer(e, sched, placement, expected, leads, parseScore) ::
                       e in Passing(cs, passed, leads, placement, parseScore)
  {
    var c := CandidateOf(sched, placement, expected);
    CandidatesAre(sched, placement, c);
    AllCandidatesAre(schedules, placement, c);
    SameMembership(cs, AllCandidates(schedules, placement), c);
    var i :| 0 <= i < |cs| && cs[i] == c;
    pass := passed[i];
    forall e | pass && IsOffer(e, sched, placement, expected, leads, parseScore)
      ensures e in Passing(cs, passed, leads, placement, parseScore)
    {
      OffersAre(sched, placement, expected, leads, parseScore, e);
      PassingAre(cs, passed, leads, placement, parseScore, e);
    }
  }

  /** A rule without conditions passes for everyone, one whose conditions are not valid for nobody. */
  lemma UndecidedByConditions(lib: Lib, c: Candidate, user: Option<map<string, Raw>>, pass: bool)
    requires Decided(lib, c, user, pass).holds
    ensures c.entry.conditions == [] ==> pass
    ensures c.entry.conditions != [] && !Validation.TreeOk(RestoreAll(c.entry.conditions)) ==> !pass
  {}
}
