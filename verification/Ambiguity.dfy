/**
 * The restriction on what is evaluated is exact. A forest answers as its cut text reads, whatever
 * its leaf checks say, if and only if its cut form is unambiguous and no node at the cap joins its
 * cut-off children by OR. Everywhere `n` is how many levels below the roots are evaluated.
 */
module Ambiguity {
  import opened Wrappers
  import opened Conditions
  import opened Semantics
  import opened Values
  import opened Canonical
  import opened CanonicalMeaning
  import opened RenderedMeaning

  /** A leaf check as printed. */
  type Key = (Uuid, string, Json)

  function OwnKey(c: RuleCondition, e: map<string, Raw>): set<Key> {
    if c.attributeId.None? then {} else {(c.attributeId.value, c.op, PrintedValue(e, c.attributeId.value))}
  }

  /** The checks that are evaluated. */
  function Keys(f: seq<Tree>, e: map<string, Raw>, n: nat): set<Key>
    decreases f
  {
    if f == [] then {}
    else OwnKey(f[0].cond, e) + (if n == 0 then {} else Keys(f[0].children, e, n - 1)) + Keys(f[1..], e, n)
  }

  function KidKeys(t: Tree, e: map<string, Raw>, n: nat): set<Key> {
    if n == 0 then {} else Keys(t.children, e, n - 1)
  }

  /** No two evaluated checks print alike. */
  predicate Separate(f: seq<Tree>, e: map<string, Raw>, n: nat)
    decreases f
  {
    f == [] ||
    (&& OwnKey(f[0].cond, e) !! KidKeys(f[0], e, n) + Keys(f[1..], e, n)
     && KidKeys(f[0], e, n) !! Keys(f[1..], e, n)
     && (n > 0 ==> Separate(f[0].children, e, n - 1)) && Separate(f[1..], e, n))
  }

  /** No pure group is evaluated without children. */
  predicate NoEmptyGroups(f: seq<Tree>, n: nat)
    decreases f
  {
    f == [] ||
    (&& (f[0].cond.attributeId.Some? || (n > 0 && f[0].children != []))
     && (n > 0 ==> NoEmptyGroups(f[0].children, n - 1)) && NoEmptyGroups(f[1..], n))
  }

  // ------------------------------------------------- both readings of a forest

  /** What the evaluator makes of the children, when exactly the checks in `S` hold. */
  function KidsSense(t: Tree, e: map<string, Raw>, S: set<Key>, n: nat): bool
    decreases t, 0
  {
    n > 0 && t.children != [] && Holds(Sense(t.children, e, S, n - 1))
  }

  /** The evaluated fold: first run, some later run. */
  function Sense(f: seq<Tree>, e: map<string, Raw>, S: set<Key>, n: nat): (bool, bool)
    requires f != []
    decreases f, 1
  {
    var t := f[0];
    var val := NodeValue(t.cond, n > 0 && t.children != [], OwnKey(t.cond, e) <= S, KidsSense(t, e, S, n));
    if |f| == 1 then (val, false) else Join(val, t.cond.connector == Some(OR), Sense(f[1..], e, S, n))
  }

  /** What the cut text makes of the children: cut off, they count as holding. */
  function KidsPrinted(t: Tree, e: map<string, Raw>, S: set<Key>, n: nat): bool
    decreases t, 0
  {
    t.children != [] && (n == 0 || Holds(Printed(t.children, e, S, n - 1)))
  }

  /** The fold of what is printed, cut. */
  function Printed(f: seq<Tree>, e: map<string, Raw>, S: set<Key>, n: nat): (bool, bool)
    requires f != []
    decreases f, 1
  {
    var t := f[0];
    Spread(t.cond, t.children != [], OwnKey(t.cond, e) <= S, KidsPrinted(t, e, S, n), |f| == 1,
           if |f| == 1 then (false, false) else Printed(f[1..], e, S, n))
  }

  function JudgeOf(S: set<Key>): Judge {
    (attr: Uuid, op: string, v: Json) => Val((attr, op, v) in S)
  }

  function CheckerFrom(e: map<string, Raw>, S: set<Key>): Checker {
    (c: RuleCondition) => Val(OwnKey(c, e) <= S)
  }

  lemma {:induction false} SenseIsFold(f: seq<Tree>, e: map<string, Raw>, S: set<Key>, n: nat)
    requires f != []
    ensures Sense(f, e, S, n) == Fold(Truths(Cut(f, n), CheckerFrom(e, S)), Ors(Cut(f, n)))
    decreases f
  {
    var t, check, g := f[0], CheckerFrom(e, S), Cut(f, n);
    CutTail(f, n);
    if n > 0 && t.children != [] {
      SenseIsFold(t.children, e, S, n - 1);
    }
    if |f| > 1 {
      SenseIsFold(f[1..], e, S, n);
    }
    ValueOfNode(g[0], check, OwnKey(t.cond, e) <= S);
    UnrollForest(g, check);
  }

  lemma {:induction false} PrintedIsFold(f: seq<Tree>, e: map<string, Raw>, S: set<Key>, n: nat)
    requires f != []
    ensures Printed(f, e, S, n) == ChainFold(CutChain(Flat(f, e), n), JudgeOf(S))
    ensures !ChainErrs(CutChain(Flat(f, e), n), JudgeOf(S))
    decreases f
  {
    var t := f[0];
    if n > 0 && t.children != [] {
      PrintedIsFold(t.children, e, S, n - 1);
    }
    if |f| > 1 {
      PrintedIsFold(f[1..], e, S, n);
    }
    UnrollCut(f, e, JudgeOf(S), n);
    assert (OwnVerdict(t.cond, e, JudgeOf(S)) == Val(true)) == (OwnKey(t.cond, e) <= S);
  }

  lemma {:induction false} NothingErrs(e: map<string, Raw>, S: set<Key>, cs: seq<RuleCondition>)
    ensures FirstError(CheckerFrom(e, S), cs) == None
  {
    if cs != [] {
      NothingErrs(e, S, cs[1..]);
    }
  }

  /** Sense is the evaluator's meaning. */
  lemma SenseIsMeaning(f: seq<Tree>, e: map<string, Raw>, S: set<Key>, n: nat)
    requires f != []
    ensures Meaning(Cut(f, n), CheckerFrom(e, S)) == Val(Holds(Sense(f, e, S, n)))
  {
    var g := Cut(f, n);
    NothingErrs(e, S, Checks(g));
    SenseIsFold(f, e, S, n);
    FoldIsRuns(Truths(g, CheckerFrom(e, S)), Ors(g));
  }

  // --------------------------------------------------- which checks must hold

  /** Only a forest's own evaluated checks matter to it. */
  lemma {:induction false} Local(f: seq<Tree>, e: map<string, Raw>, S: set<Key>, T: set<Key>, n: nat)
    requires f != [] && S * Keys(f, e, n) == T * Keys(f, e, n)
    ensures Sense(f, e, S, n) == Sense(f, e, T, n) && Printed(f, e, S, n) == Printed(f, e, T, n)
    decreases f
  {
    var t := f[0];
    SameOn(Keys(f, e, n), OwnKey(t.cond, e), S, T);
    SameOn(Keys(f, e, n), KidKeys(t, e, n), S, T);
    SameOn(Keys(f, e, n), Keys(f[1..], e, n), S, T);
    if n > 0 && t.children != [] {
      Local(t.children, e, S, T, n - 1);
    }
    if |f| > 1 {
      Local(f[1..], e, S, T, n);
    }
  }

  lemma SameOn(all: set<Key>, part: set<Key>, S: set<Key>, T: set<Key>)
    requires part <= all && S * all == T * all
    ensures S * part == T * part && (part <= S <==> part <= T)
  {
    forall k | k in part ensures k in S <==> k in T {
      assert k in S * all <==> k in T * all;
    }
  }

  /** When all its checks hold, a forest's first run does, in either reading. */
  lemma {:induction false} AllIn(f: seq<Tree>, e: map<string, Raw>, S: set<Key>, n: nat)
    requires f != [] && Keys(f, e, n) <= S
    ensures Sense(f, e, S, n).0 && Printed(f, e, S, n).0
    decreases f
  {
    var t := f[0];
    if n > 0 && t.children != [] {
      AllIn(t.children, e, S, n - 1);
    }
    if |f| > 1 {
      AllIn(f[1..], e, S, n);
    }
  }

  /** When none of its checks hold, no evaluated run does. */
  lemma {:induction false} NoneIn(f: seq<Tree>, e: map<string, Raw>, S: set<Key>, n: nat)
    requires f != [] && S !! Keys(f, e, n) && NoEmptyGroups(f, n)
    ensures Sense(f, e, S, n) == (false, false)
    decreases f
  {
    var t := f[0];
    OwnFails(t.cond, e, S, Keys(f, e, n));
    if n > 0 && t.children != [] {
      NoneIn(t.children, e, S, n - 1);
    }
    if |f| > 1 {
      NoneIn(f[1..], e, S, n);
    }
  }

  lemma OwnFails(c: RuleCondition, e: map<string, Raw>, S: set<Key>, all: set<Key>)
    requires OwnKey(c, e) <= all && S !! all
    ensures c.attributeId.Some? ==> !(OwnKey(c, e) <= S)
  {
    if c.attributeId.Some? {
      assert (c.attributeId.value, c.op, PrintedValue(e, c.attributeId.value)) in OwnKey(c, e);
    }
  }

  /** Checks chosen apart for a node's own check, its children and the rest do not disturb each other. */
  lemma Compose(f: seq<Tree>, e: map<string, Raw>, O: set<Key>, K: set<Key>, R: set<Key>, n: nat)
    requires f != [] && Separate(f, e, n)
    requires O <= OwnKey(f[0].cond, e) && K <= KidKeys(f[0], e, n) && R <= Keys(f[1..], e, n)
    ensures var S := O + K + R;
            && S <= Keys(f, e, n) && (OwnKey(f[0].cond, e) <= S <==> OwnKey(f[0].cond, e) <= O)
            && KidsSense(f[0], e, S, n) == KidsSense(f[0], e, K, n)
            && KidsPrinted(f[0], e, S, n) == KidsPrinted(f[0], e, K, n)
            && (|f| > 1 ==> Sense(f[1..], e, S, n) == Sense(f[1..], e, R, n)
                            && Printed(f[1..], e, S, n) == Printed(f[1..], e, R, n))
  {
    var S, own, kids, rest := O + K + R, OwnKey(f[0].cond, e), KidKeys(f[0], e, n), Keys(f[1..], e, n);
    assert S * kids == K * kids && S * rest == R * rest;
    assert own <= S <==> own <= O;
    if n > 0 && f[0].children != [] {
      Local(f[0].children, e, S, K, n - 1);
    }
    if |f| > 1 {
      Local(f[1..], e, S, R, n);
    }
  }

  /** When all checks below a node hold, its children do, in either reading. */
  lemma KidsAllIn(t: Tree, e: map<string, Raw>, n: nat)
    ensures KidsSense(t, e, KidKeys(t, e, n), n) == (n > 0 && t.children != [])
    ensures KidsPrinted(t, e, KidKeys(t, e, n), n) == (t.children != [])
  {
    if n > 0 && t.children != [] {
      AllIn(t.children, e, KidKeys(t, e, n), n - 1);
    }
  }

  lemma KidsNoneIn(t: Tree, e: map<string, Raw>, n: nat)
    requires n > 0 ==> NoEmptyGroups(t.children, n - 1)
    ensures !KidsSense(t, e, {}, n)
  {
    if n > 0 && t.children != [] {
      NoneIn(t.children, e, {}, n - 1);
    }
  }

  /** Some checks make the first printed run hold and leave the later runs of the forest without effect. */
  lemma {:induction false} FirstRunOnly(f: seq<Tree>, e: map<string, Raw>, n: nat) returns (S: set<Key>)
    requires f != [] && Separate(f, e, n) && NoEmptyGroups(f, n)
    ensures S <= Keys(f, e, n) && Printed(f, e, S, n).0 && !Sense(f, e, S, n).1
    decreases f
  {
    var t := f[0];
    var R := RunOnOnly(f, e, n);
    S := OwnKey(t.cond, e) + KidKeys(t, e, n) + R;
    Compose(f, e, OwnKey(t.cond, e), KidKeys(t, e, n), R, n);
    KidsAllIn(t, e, n);
  }

  /** Checks for the rest under which the run that the first node is in goes on, and no later run holds. */
  lemma RunOnOnly(f: seq<Tree>, e: map<string, Raw>, n: nat) returns (R: set<Key>)
    requires f != [] && Separate(f, e, n) && NoEmptyGroups(f, n)
    ensures R <= Keys(f[1..], e, n)
    ensures |f| > 1 && f[0].cond.connector != Some(OR) ==>
              Printed(f[1..], e, R, n).0 && !Sense(f[1..], e, R, n).1
    ensures |f| > 1 && f[0].cond.connector == Some(OR) ==> Sense(f[1..], e, R, n) == (false, false)
    decreases f, 0
  {
    R := {};
    if |f| > 1 {
      if f[0].cond.connector == Some(OR) {
        NoneIn(f[1..], e, R, n);
      } else {
        R := FirstRunOnly(f[1..], e, n);
      }
    }
  }

  // -------------------------------------------------- where text and answer part

  /** Under these checks the evaluated forest fails and its text holds. */
  ghost predicate Parts(f: seq<Tree>, e: map<string, Raw>, S: set<Key>, n: nat)
    requires f != []
  {
    S <= Keys(f, e, n) && !Holds(Sense(f, e, S, n)) && Holds(Printed(f, e, S, n))
  }

  /** The evaluated part is unambiguous, and no node at the cap joins by OR. */
  predicate ReadsAsCut(f: seq<Tree>, n: nat) {
    Unambiguous(Cut(f, n)) && NoOrAtCap(f, n)
  }

  /** A node that joins its children by OR, and the children are evaluated. */
  predicate JoinsKept(t: Tree, n: nat) {
    n > 0 && JoinsByOr(t)
  }

  /** Where a forest fails to read as cut: at the first node, below it, in the rest, or between the first two. */
  lemma PartsWhere(f: seq<Tree>, n: nat)
    requires f != [] && !ReadsAsCut(f, n)
    ensures || (n == 0 && JoinsByOr(f[0]))
            || (n > 0 && f[0].children != [] && !ReadsAsCut(f[0].children, n - 1))
            || (|f| > 1 && !ReadsAsCut(f[1..], n))
            || (|f| > 1 && f[0].cond.connector != Some(OR) && (JoinsKept(f[0], n) || JoinsKept(f[1], n)))
  {
    CutTail(f, n);
    if !NoOrAtCap(f, n) {
      var t :| t in f && !(if n == 0 then !JoinsByOr(t) else NoOrAtCap(t.children, n - 1));
      if t != f[0] {
        assert t in f[1..];
      }
    } else {
      AmbiguousWhere(Cut(f, n));
      if |f| > 1 {
        CutTail(f[1..], n);
      }
      assert forall u | u in f[1..] :: u in f;
      assert f[0] in f;
    }
  }

  /** Where an ambiguity sits: below the first node, in the rest, or between the first two. */
  lemma AmbiguousWhere(f: seq<Tree>)
    requires f != [] && !Unambiguous(f)
    ensures || !Unambiguous(f[0].children)
            || (|f| > 1 && !Unambiguous(f[1..]))
            || (|f| > 1 && f[0].cond.connector != Some(OR) && (JoinsByOr(f[0]) || JoinsByOr(f[1])))
  {
    if |f| > 1 && Unambiguous(f[1..]) && Unambiguous(f[0].children) {
      forall t | t in f ensures Unambiguous(t.children) {
        assert t == f[0] || t in f[1..];
      }
      var i :| 0 <= i < |f| && JoinsByOr(f[i]) && !((i == 0 || f[i - 1].cond.connector == Some(OR))
                                                    && (i == |f| - 1 || f[i].cond.connector == Some(OR)));
      assert i > 0 ==> f[1..][i - 1] == f[i];
    }
  }

  /** A node at the cap that joins by OR: let its own check fail, and the run behind it go on. */
  lemma PartsAtCap(f: seq<Tree>, e: map<string, Raw>) returns (S: set<Key>)
    requires f != [] && Separate(f, e, 0) && NoEmptyGroups(f, 0) && JoinsByOr(f[0])
    ensures Parts(f, e, S, 0)
  {
    var R := RunOnOnly(f, e, 0);
    S := {} + {} + R;
    Compose(f, e, {}, {}, R, 0);
  }

  /** A mixed node that joins by OR, with an AND behind it: let its own check hold alone. */
  lemma PartsBehind(f: seq<Tree>, e: map<string, Raw>, n: nat) returns (S: set<Key>)
    requires Separate(f, e, n) && NoEmptyGroups(f, n)
    requires |f| > 1 && f[0].cond.connector != Some(OR) && JoinsKept(f[0], n)
    ensures Parts(f, e, S, n)
  {
    S := OwnKey(f[0].cond, e) + {} + {};
    Compose(f, e, OwnKey(f[0].cond, e), {}, {}, n);
    KidsNoneIn(f[0], e, n);
    NoneIn(f[1..], e, {}, n);
  }

  /** One with an AND in front of it: let its children hold, and what follows in its run. */
  lemma PartsInFront(f: seq<Tree>, e: map<string, Raw>, n: nat) returns (S: set<Key>)
    requires Separate(f, e, n) && NoEmptyGroups(f, n)
    requires |f| > 1 && f[0].cond.connector != Some(OR) && JoinsKept(f[1], n)
    ensures Parts(f, e, S, n)
  {
    var R := ChildrenHold(f[1..], e, n);
    S := {} + {} + R;
    Compose(f, e, {}, {}, R, n);
    KidsNoneIn(f[0], e, n);
  }

  /** Checks under which a node that joins by OR prints a later run that holds, and the forest has none. */
  lemma ChildrenHold(f: seq<Tree>, e: map<string, Raw>, n: nat) returns (S: set<Key>)
    requires Separate(f, e, n) && NoEmptyGroups(f, n) && f != [] && JoinsKept(f[0], n)
    ensures S <= Keys(f, e, n) && !Sense(f, e, S, n).1 && Printed(f, e, S, n).1
  {
    var R := RunOnOnly(f, e, n);
    S := {} + KidKeys(f[0], e, n) + R;
    Compose(f, e, {}, KidKeys(f[0], e, n), R, n);
    KidsAllIn(f[0], e, n);
  }

  /** A parting below the first node shows through it. */
  lemma PartsThrough(f: seq<Tree>, e: map<string, Raw>, K: set<Key>, n: nat) returns (S: set<Key>)
    requires f != [] && Separate(f, e, n) && NoEmptyGroups(f, n) && n > 0 && f[0].children != []
    requires Parts(f[0].children, e, K, n - 1)
    ensures Parts(f, e, S, n)
  {
    var O := if f[0].cond.childConnector == Some(OR) then {} else OwnKey(f[0].cond, e);
    var R := RunOnOnly(f, e, n);
    S := O + K + R;
    Compose(f, e, O, K, R, n);
  }

  /** A parting in the rest shows beside a first node that holds, or fails, altogether. */
  lemma PartsBeside(f: seq<Tree>, e: map<string, Raw>, R: set<Key>, n: nat) returns (S: set<Key>)
    requires |f| > 1 && Separate(f, e, n) && NoEmptyGroups(f, n) && Parts(f[1..], e, R, n)
    ensures Parts(f, e, S, n)
  {
    var t := f[0];
    if t.cond.connector == Some(OR) {
      S := {} + {} + R;
      Compose(f, e, {}, {}, R, n);
      KidsNoneIn(t, e, n);
    } else {
      S := OwnKey(t.cond, e) + KidKeys(t, e, n) + R;
      Compose(f, e, OwnKey(t.cond, e), KidKeys(t, e, n), R, n);
      KidsAllIn(t, e, n);
    }
  }

  /** Every forest that does not read as cut has checks under which it fails while its text holds. */
  lemma {:induction false} Misleads(f: seq<Tree>, e: map<string, Raw>, n: nat) returns (S: set<Key>)
    requires f != [] && Separate(f, e, n) && NoEmptyGroups(f, n) && !ReadsAsCut(f, n)
    ensures Parts(f, e, S, n)
    decreases f
  {
    PartsWhere(f, n);
    if n == 0 && JoinsByOr(f[0]) {
      S := PartsAtCap(f, e);
    } else if n > 0 && f[0].children != [] && !ReadsAsCut(f[0].children, n - 1) {
      var K := Misleads(f[0].children, e, n - 1);
      S := PartsThrough(f, e, K, n);
    } else if |f| > 1 && !ReadsAsCut(f[1..], n) {
      var R := Misleads(f[1..], e, n);
      S := PartsBeside(f, e, R, n);
    } else if JoinsKept(f[0], n) {
      S := PartsBehind(f, e, n);
    } else {
      S := PartsInFront(f, e, n);
    }
  }

  /** A forest that reads as cut answers as its cut text does. */
  lemma AnswersAsPrinted(f: seq<Tree>, e: map<string, Raw>, S: set<Key>, n: nat)
    requires f != [] && ReadsAsCut(f, n)
    ensures Holds(Sense(f, e, S, n)) == Holds(Printed(f, e, S, n))
  {
    SenseIsMeaning(f, e, S, n);
    PrintedIsFold(f, e, S, n);
    ChecksAreLeaves(Cut(f, n));
    CutAnswersAsPrinted(f, CheckerFrom(e, S), e, JudgeOf(S), n);
  }

  /**
   * The restriction is exact: a forest whose evaluated checks are distinct and whose evaluated
   * pure groups have children answers as its cut text reads, whichever checks hold, if and only
   * if its cut form is unambiguous and no node at the cap joins its children by OR.
   */
  lemma UnambiguousIsExact(f: seq<Tree>, e: map<string, Raw>, n: nat)
    requires f != [] && Separate(f, e, n) && NoEmptyGroups(f, n)
    ensures ReadsAsCut(f, n) <==>
            forall S: set<Key> :: Holds(Sense(f, e, S, n)) == Holds(Printed(f, e, S, n))
  {
    if ReadsAsCut(f, n) {
      forall S: set<Key> ensures Holds(Sense(f, e, S, n)) == Holds(Printed(f, e, S, n)) {
        AnswersAsPrinted(f, e, S, n);
      }
    } else {
      var S := Misleads(f, e, n);
      assert Holds(Sense(f, e, S, n)) != Holds(Printed(f, e, S, n));
    }
  }

  // ----------------------------------------------------- forests that print alike

  /** Each mixed node taken apart into its own check and a pure group, as its text reads. */
  function Unmix(f: seq<Tree>): seq<Tree>
    decreases f
  {
    if f == [] then []
    else
      var t := f[0];
      var group := Node(t.cond.(attributeId := None), Unmix(t.children));
      var head :=
        if t.children == [] then [t]
        else if t.cond.attributeId.None? then [group]
        else [Node(t.cond.(connector := t.cond.childConnector), []), group];
      head + Unmix(f[1..])
  }

  /** Taken apart, a forest prints the same and has no mixed node. */
  lemma {:induction false} UnmixPrintsAlike(f: seq<Tree>, e: map<string, Raw>)
    requires f != []
    ensures Unmix(f) != [] && Flat(Unmix(f), e) == Flat(f, e)
    decreases f
  {
    var t := f[0];
    if t.children != [] {
      UnmixPrintsAlike(t.children, e);
    }
    if |f| > 1 {
      UnmixPrintsAlike(f[1..], e);
    }
    var rest := Unmix(f[1..]);
    var group := Node(t.cond.(attributeId := None), Unmix(t.children));
    assert ([t] + rest)[1..] == rest && ([group] + rest)[1..] == rest;
    if t.children != [] && t.cond.attributeId.Some? {
      var own := Node(t.cond.(connector := t.cond.childConnector), []);
      assert [own, group] + rest == [own] + ([group] + rest);
      assert ([own] + ([group] + rest))[1..] == [group] + rest;
    }
  }

  lemma {:induction false} UnmixHasNoMixedNodes(f: seq<Tree>)
    ensures NoMixedNodes(Unmix(f))
    decreases f
  {
    if f != [] {
      UnmixHasNoMixedNodes(f[0].children);
      UnmixHasNoMixedNodes(f[1..]);
    }
  }

  /** What taking apart keeps of each node's text. */
  lemma {:induction false} UnmixIsPrintable(f: seq<Tree>)
    requires Printable(f)
    ensures Printable(Unmix(f))
    decreases f
  {
    if f != [] {
      assert f[0] in f;
      assert forall u | u in f[1..] :: u in f;
      UnmixIsPrintable(f[0].children);
      UnmixIsPrintable(f[1..]);
    }
  }

  /**
   * A forest that does not read as cut is evaluated otherwise than every forest that does and
   * prints like it, under checks chosen for it.
   */
  lemma AmbiguousMisleads(f: seq<Tree>, g: seq<Tree>, ef: map<string, Raw>, eg: map<string, Raw>, compact: Json -> string,
                          n: nat) returns (S: set<Key>)
    requires CompactLaw(compact) && Printable(f) && Printable(g) && f != [] && g != []
    requires Separate(f, ef, n) && NoEmptyGroups(f, n) && !ReadsAsCut(f, n) && ReadsAsCut(g, n)
    requires ForestText(f, ValueLeaf(ef, compact)) == ForestText(g, ValueLeaf(eg, compact))
    ensures Meaning(Cut(f, n), CheckerFrom(ef, S)) == Val(false) && Meaning(Cut(g, n), CheckerFrom(eg, S)) == Val(true)
  {
    S := Misleads(f, ef, n);
    TextsAgreeIffShapesAgree(f, g, ef, eg, compact);
    PrintedIsFold(f, ef, S, n);
    PrintedIsFold(g, eg, S, n);
    SenseIsMeaning(f, ef, S, n);
    SenseIsMeaning(g, eg, S, n);
    AnswersAsPrinted(g, eg, S, n);
  }

  /** There always is such a forest: the same taken apart. */
  lemma UnmixAnswersOtherwise(f: seq<Tree>, e: map<string, Raw>, compact: Json -> string, n: nat) returns (S: set<Key>)
    requires CompactLaw(compact) && Printable(f) && f != []
    requires Separate(f, e, n) && NoEmptyGroups(f, n) && !ReadsAsCut(f, n)
    ensures Printable(Unmix(f)) && NoMixedNodes(Unmix(f))
    ensures ForestText(Unmix(f), ValueLeaf(e, compact)) == ForestText(f, ValueLeaf(e, compact))
    ensures Meaning(Cut(f, n), CheckerFrom(e, S)) == Val(false) && Meaning(Cut(Unmix(f), n), CheckerFrom(e, S)) == Val(true)
  {
    UnmixPrintsAlike(f, e);
    UnmixHasNoMixedNodes(f);
    UnmixIsPrintable(f);
    UnmixedReadsAsCut(Unmix(f), n);
    TextsAgreeIffShapesAgree(Unmix(f), f, e, e, compact);
    S := AmbiguousMisleads(f, Unmix(f), e, e, compact, n);
  }
}
