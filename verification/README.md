# Verification of the CMS delivery service

A Dafny model of the parts of the service whose correctness is least visible from any single
function, with proofs. `dafny verify dfyconfig.toml` checks the whole project.

**The in-memory mirror and its synchronisation.** Every pod keeps four TTL caches (schedules,
rules, version hashes, sync stamps). `MemoryCache` is the cache, with lazy expiry and the
rejection of new keys under memory pressure. `Delivery` is the service over four such caches,
updated in place. `Mirror` says on values what each operation does, and the methods are proved
against it. `MirrorRuns` strings the operations into histories of ticks, pings, flushes, requests,
expiry, pressure and database changes. Bounded staleness, version agreement and mirror fidelity
are proved there, activation freshness in `MirrorFreshness`, cache transparency in
`MirrorTransparency`. `MirrorRefresh` says what an evaluate or a ping puts into the mirror,
`MirrorTargets` what it does to other placements, `MirrorFlush` what a flush evicts, and
`MirrorRequests` when a request is refused.

**The rule-condition evaluator.** `Conditions` builds the parent index, `Semantics` gives the
denotation (an OR of maximal AND-runs, cut at depth 4, errors without short circuit), `LazyCache`,
`Sentinels` and `Evaluator` are the imperative evaluator over parse-once caches, proved equal to
it; `LeafLaws` says what the operators mean. `Validation` is the validator with its in-place sort,
`AcceptedRows` what it accepts. `Rendering` and `Canonical` are the
canonical expression and its unique readability. `CanonicalMeaning` and `RenderedMeaning` show
that the expression determines the answers, across the evaluator's depth cap; `Ambiguity`,
`AmbiguousRules` and `DeepRules` that the restriction on mixed nodes is exact. `PlacementLogic`,
`Retyping`, `LocalEvaluator` and `OfferContents` are the flattening, the conservation of offers and
their contents; `CaretLists` relates caret lists to arrays.

**CLEN enrichment.** `Enrichment` and `UserAttrs`: the delta request, the field-level merge, the
UUID projection, and when the cached envelope stops causing upstream calls.

**The struct-tag formatter.** `FormatTags`, `StructTags`, `TagLiterals` and `DroppedText`: the parser,
the printer, the two aligning passes, what they do to Go string literals, and what text they drop.

One evaluate, flush, fired ping or request is one atomic step with a fixed time, pressure flag and
database snapshot. The code holds no lock across an evaluate, so the theorems about the mirror are
about serial histories.

## What the proofs show about the code

- Two different rules can share a logic expression, and so a logic hash: a mixed node is printed
  without enclosing parentheses, so `(a OR (b)) AND c` and `a OR ((b) AND c)` print alike and
  answer differently (`AmbiguousRules.SameExpressionDifferentAnswers`). The depth cap is a second
  cause: `x OR (y)` at the fourth level loses its children as a mixed node and not as a check beside
  a group (`DeepRules.SameDeepExpressionDifferentAnswers`). Under the other hypotheses of
  `RenderedMeaning.EqualExpressionsEqualAnswers` (no ties, known connectors and operators, agreeing
  types, determinate values) it takes a mixed node that joins by OR and has an AND beside it or sits
  at the cap; with distinct checks and no group left childless that is enough
  (`Ambiguity.UnambiguousIsExact`).
- The version hash covers schedule rows and not rule contents. An activation ping for a rule whose
  schedules did not change is skipped when it carries the version hash, which still matches; an
  empty hash forces the refresh. The old rule then stays cached until it expires, is flushed, or is
  read again by a tick, another ping, or the evaluate a request runs to heal a stale placement or
  to retry a miss (`MirrorFreshness.FiredPingRenewsRule`, `MirrorFreshness.SkippedPingKeepsOldRule`).
- A ping renews the rule for the placement it names. Another placement that shares the rule goes on
  serving the old copy wherever an object of its cached list had it attached
  (`MirrorTargets.PingFreshensOthers`, `MirrorTargets.CarriedCopyIsServed`).
- A targeted refresh leaves other placements alone unless its listing is not empty and yields no
  group, for instance because the listed schedules are soft-deleted; then it empties the mirror for
  all placements (`MirrorTargets.RefreshSparesOthers`).
- A ping that names a rule, and a flush, remove the list before they read it again. When the listing
  fails, or under memory pressure, which refuses keys that are not live, nothing replaces it
  (`MirrorRefresh.PingRefills`, `MirrorRefresh.PingOnFailedListing`, `MirrorFlush.FlushAndEvaluate`).
- A request is refused as a whole when a placement it names has a stamp that is too old and no
  active row left: the heal then removes the stamp, which the re-check takes for stale
  (`MirrorRequests.RefusedWhenInactive`).
- The key of a cached CLEN envelope joins customer type and ID with a colon, so that two customers
  share one when a type contains a colon (`UserAttrs.ProfileKeysCollide`).
- The renderers have no depth cap. They end exactly when no descent from a root names an ID twice
  (`Rendering.DescentsEndWhenGrounded`).
- Validation sorts stably and the evaluator does not, so a validated chain can be evaluated with a
  defaulted connector exactly when its greatest sequence is tied, as far as the contract of
  sort.Slice goes (`Validation.LinksSetUnlessGreatestTied`). Go's implementation sorts up to 12
  elements by stable insertion, so in practice it takes a longer chain.
- The cached CLEN envelope is replaced and not merged. Unless the first request found every wanted
  field cached, or none, each request calls the upstream again (`Enrichment.CacheSettles`).
- The tag formatter drops everything from the point where it stops parsing: of
  `json:"a" validate:required` only `json:"a"` is left (`DroppedText.FormatLosesText`,
  `DroppedText.UnquotedOptionIsDropped`). It keeps the tags it parsed from every string literal,
  but prints an escaped backquote in a value as a plain one, after which the file no longer parses
  (`TagLiterals.FormatStaysLiteral`, `TagLiterals.EscapedBackquoteBreaks`).

Where the code and its comments differ, the model follows the code: sibling chains may mix AND and
OR; a childless pure group is true; leaf texts are separated by spaces and not by colons
(condition_normalization.go:125); the flow in the comment above GetPersonalizedContent
(cms_delivery_service.go:385-393) is not the one implemented.

## Model

| member | source | states |
|---|---|---|
| MirrorRuns.BoundedStaleness | cmd/server/service/cms_delivery_service.go:412-453 | In every history from a cold start (ticks, pings, flushes, requests, expiry, pressure and database changes, failing reads), a request that is not refused serves only rows read at most the staleness threshold ago, whether from a hit or from the retry after a miss |
| MirrorTransparency.FirstLoadedRows | cmd/server/service/cms_delivery_service.go:852-864 | The rows taken from a listing are those of the first loaded occurrence of each schedule, in order |
| MirrorTransparency.CacheTransparency | cmd/server/service/cms_delivery_service.go:446-529 | Over an unchanging consistent database, after any history, a request for distinct names that is not refused, meets no pressure and whose retry and rule reads succeed hands the evaluator, per placement, exactly the rows with rules of a direct database read, in the same order |
| MirrorRuns.VersionAgreement | cmd/server/service/cms_delivery_service.go:940-955 | In every reachable state, under expiry and pressure too, a live version hash is the hash of the live list of the same placement |
| MirrorRuns.SkippedPingIsHarmless | cmd/server/service/cms_delivery_service.go:1029-1061 | A ping skipped on a hash match leaves a cached list with the very IDs and update times of the published one, in order, given a collision-free hash, 36-character IDs and update times of which none starts another |
| MirrorRuns.HashInputDecodes | cmd/server/service/cms_delivery_service.go:30-37 | The text the hash is taken of, IDs and times without separators, can be read back under the same two conditions |
| MirrorFreshness.PingLeavesOnlyNew | cmd/server/service/cms_delivery_service.go:1063-1078 | Right after a ping that was acted on, under pressure or failing reads too, the named rule is uncached or the copy this ping read, and the named list is uncached or made only of objects this ping loaded, none with a rule attached yet |
| MirrorFreshness.ActivationFreshness | cmd/server/service/cms_delivery_service.go:1063-1078 | Whatever happens after such a ping, no later request evaluates the placement with a copy of the rule read before the ping |
| MirrorFreshness.StaysFresh | cmd/server/service/cms_delivery_service.go:482-517 | The invariant behind it: once no older copy of the rule is cached or attached to the placement's objects, no event brings one back |
| MirrorFreshness.FreshIsServed | cmd/server/service/cms_delivery_service.go:482-529 | From any state of a history without older copies for a placement on, every later request for it serves newer ones |
| MirrorTargets.PingFreshensOthers | cmd/server/service/cms_delivery_service.go:1063-1078 | Exactly when a ping acted on also frees another placement of older copies of the rule: no object of its cached list had the rule attached, or the refresh emptied the mirror |
| MirrorTargets.CarriedCopyIsServed | cmd/server/service/cms_delivery_service.go:482-529 | Otherwise the old copy is served: a request for a live placement hands over the very copy an object of its list carries |
| MirrorFreshness.FiredPingRenewsRule | cmd/server/service/cms_delivery_service.go:1056-1078 | Exactly when a fired ping renews the rule it names, in every history: the rule is then uncached or the copy this ping read if and only if the ping was not skipped or the rule was not cached |
| MirrorFreshness.SkippedReceiptChangesNothing | cmd/server/service/cms_delivery_service.go:1029-1040 | A received ping changes neither caches nor objects, and is dropped without a trace exactly when it decodes and its version is mirrored |
| MirrorFreshness.SkippedPingKeepsOldRule | cmd/server/service/cms_delivery_service.go:1029-1040 | That a rule edit can be skipped: the hash covers schedule rows only, and in this history the activation ping is dropped and the old copy stays cached |
| MirrorRuns.MirrorFidelity | cmd/server/service/cms_delivery_service.go:65-136 | After a full evaluate no old key and no old value survives in any of the four caches: each holds the new keys, or under pressure those of them that were live, with the new values |
| MirrorRefresh.EvaluateFillsMirror | cmd/server/service/cms_delivery_service.go:852-965 | After an evaluate, full or of named placements, a covered placement with active rows holds exactly those rows, their hash, a stamp of now and the rules of its rows, with the configured TTL; only pressure may refuse a key that was not live |
| MirrorRefresh.EvaluateOfInactive | cmd/server/service/cms_delivery_service.go:840-897 | What becomes of a covered placement without active rows: nothing stays, or only a stamp when nothing is listed, or all of it stays as it was when another named placement has rows |
| MirrorRefresh.RefreshKeepsReferencedRules | cmd/server/service/cms_delivery_service.go:139-162 | After a refresh exactly the rules that some cached list refers to are left, those it read with the contents it read |
| MirrorRefresh.FailedReads | cmd/server/service/cms_delivery_service.go:822-838 | A failed listing changes nothing; a full evaluate whose rule read fails leaves no rule cached |
| MirrorRefresh.PingRefills | cmd/server/service/cms_delivery_service.go:1063-1078 | After a ping that is acted on and names a placement and a rule, the placement has a list if and only if it has active rows and there is no pressure |
| MirrorRefresh.PingSkippedOrRefills | cmd/server/service/cms_delivery_service.go:1056-1078 | A ping is skipped, changing nothing, exactly when it carries a version and the live hash of its placement is that version |
| MirrorRefresh.PingWithoutRule | cmd/server/service/cms_delivery_service.go:1063-1078 | Without a rule nothing is invalidated first, so that a live list is renewed under pressure too |
| MirrorRefresh.PingForAll | cmd/server/service/cms_delivery_service.go:1063-1078 | Without a placement every placement is renewed |
| MirrorRefresh.PingOnFailedListing | cmd/server/service/cms_delivery_service.go:1063-1078 | When the listing fails, the named rule and list are gone and nothing replaces them |
| MirrorRequests.RefusedExactly | cmd/server/service/cms_delivery_service.go:409-444 | A request is refused if and only if some requested placement has, at its turn, a stamp older than two tick intervals (ten minutes without one), and one evaluate leaves it without a stamp or with one too old |
| MirrorRequests.RefusedWhenInactive | cmd/server/service/cms_delivery_service.go:424-444 | With heals that succeed, over a consistent database and under any pressure, that is when the first placement found too old has no active row |
| MirrorRequests.ActivePlacementsAreServed | cmd/server/service/cms_delivery_service.go:394-444 | For the caller: in every history, when the heals succeed and every requested placement has an active row, the request is served |
| MirrorRequests.MissedRuleIsBackfilled | cmd/server/service/cms_delivery_service.go:487-517 | A rule the cache could not supply is read and cached for the next request |
| MirrorFlush.FlushEvicts | cmd/server/service/cms_delivery_service.go:349-375 | A selective flush removes exactly the lists, hashes and stamps of the named placements and the rules attached to, or else referenced by, the schedules in those lists; every other entry stays |
| MirrorFlush.FullFlushEmpties | cmd/server/service/cms_delivery_service.go:342-348 | A flush without names empties all four caches |
| MirrorFlush.FlushAndEvaluate | cmd/server/service/cms_delivery_service.go:376-383 | With an evaluate, a flushed placement comes back if and only if it has active rows and there is no pressure |
| MirrorTargets.RefreshSparesOthers | cmd/server/service/cms_delivery_service.go:813-967 | A refresh of named placements leaves the list, hash and stamp of every other placement as they were if and only if its listing fails, is empty or yields a group, or there was nothing to leave |
| MirrorTargets.UngroupedRefreshWipes | cmd/server/service/cms_delivery_service.go:884-897 | In the remaining case the entire mirror is emptied |
| MirrorTargets.NamelessListingHasNoGroup | cmd/server/service/cms_delivery_service.go:852-882 | A listing whose loaded schedules all lack a placement name yields no group |
| CanonicalMeaning.ExpressionDeterminesMeaning | cmd/server/internal/evaluator/condition_normalization.go:173-226 | Forests that print the same expression answer every user alike (an error counting as a refusal), for known connectors and operators, typed attributes and unambiguous forests |
| RenderedMeaning.EqualExpressionsEqualAnswers | cmd/server/internal/evaluator/condition_normalization.go:129-160 | The same for two rules as row lists of any height: each through the renderer's own index and sort on one side and the evaluator's index, sort and depth cap on the other; what is evaluated must be unambiguous and no node at the cap may join children by OR |
| RenderedMeaning.CapIsHarmless | cmd/server/internal/evaluator/condition_evaluator.go:409-417 | The cap does not change how a text reads: cutting the printed shape and printing the cut forest fold and err alike, unless a node at the cap joins its children by OR |
| RenderedMeaning.CutAnswersAsPrinted | cmd/server/internal/evaluator/condition_evaluator.go:406-442 | The evaluator answers as the printed shape does, a group too deep to be evaluated counting as an empty one |
| RenderedMeaning.UnmixedReadsAsCut | cmd/server/internal/evaluator/condition_normalization.go:199-225 | Forests without mixed nodes meet both conditions at any height |
| RenderedMeaning.LowHasNoOrAtCap | cmd/server/internal/evaluator/condition_evaluator.go:409-412 | Forests no higher than the cap meet the second |
| CanonicalMeaning.NoMixedNodesIsUnambiguous | cmd/server/internal/evaluator/condition_normalization.go:199-225 | Forests without mixed nodes are unambiguous, so the theorem covers them all |
| Ambiguity.UnambiguousIsExact | cmd/server/internal/evaluator/condition_evaluator.go:406-442 | The restriction is exact at every depth cap: a forest whose evaluated checks are distinct and whose evaluated pure groups have children answers as its cut text reads, whichever checks hold, if and only if its cut form is unambiguous and no node at the cap joins children by OR |
| Ambiguity.AmbiguousMisleads | cmd/server/internal/evaluator/condition_normalization.go:220-225 | One that fails this answers otherwise than every forest that meets it and prints alike, under checks the lemma constructs |
| Ambiguity.UnmixAnswersOtherwise | cmd/server/internal/evaluator/condition_normalization.go:220-225 | There is such a forest for each: the same with its mixed nodes taken apart prints alike and is answered otherwise |
| Ambiguity.UnmixIsPrintable | cmd/server/internal/evaluator/condition_normalization.go:218-222 | Taken apart, a printable forest stays printable |
| Ambiguity.UnmixPrintsAlike | cmd/server/internal/evaluator/condition_normalization.go:220-225 | A mixed node taken apart into its own check and a pure group leaves the printed shape, and so the text, as it was |
| Ambiguity.UnmixHasNoMixedNodes | cmd/server/internal/evaluator/condition_normalization.go:218-222 | Taken apart, a forest has no mixed node, and so meets the condition |
| Ambiguity.SenseIsMeaning | cmd/server/internal/evaluator/condition_evaluator.go:380-442 | The reading used there is the evaluator's meaning of the cut forest under the checker in which exactly the chosen checks hold |
| AmbiguousRules.SameExpressionDifferentAnswers | cmd/server/internal/evaluator/condition_normalization.go:224-225 | Two rules as row lists, with unique IDs, distinct sequences and accepted by validation, that have one expression and answer one user differently |
| DeepRules.SameDeepExpressionDifferentAnswers | cmd/server/internal/evaluator/condition_evaluator.go:409-423 | Two more without any AND and with unambiguous forests: they differ because the fourth level cuts the children off a mixed node that joins by OR and leaves an empty group in the other rule |
| Canonical.TextsAgreeIffShapesAgree | cmd/server/internal/evaluator/condition_normalization.go:173-226 | Two printable forests have equal text if and only if they have the same shape (leaves, connectors, grouping) |
| Canonical.TextOfShape | cmd/server/internal/evaluator/condition_normalization.go:189-226 | The renderer's text is the text of the forest's shape |
| Canonical.ChainUnique | cmd/server/internal/evaluator/condition_normalization.go:173-187 | A chain can be read back from its text in one way only, whatever follows it |
| Canonical.ShapeUnique | cmd/server/internal/evaluator/condition_normalization.go:189-226 | So can a single node: a leaf, `()` or a parenthesised group |
| CanonicalMeaning.FoldIsRuns | cmd/server/internal/evaluator/condition_evaluator.go:373-400 | The one-pass fold over accOr and result equals the OR of the maximal AND-runs, for every list of values and connectors |
| CanonicalMeaning.ErrorsOfShape | cmd/server/internal/evaluator/condition_evaluator.go:422-437 | Whether an evaluation errors can be read off the shape alone |
| CanonicalMeaning.ValueOfShape | cmd/server/internal/evaluator/condition_evaluator.go:402-442 | When nothing errors, the truth of an unambiguous forest is the fold of its shape |
| CanonicalMeaning.ShapeDecides | cmd/server/internal/evaluator/condition_evaluator.go:402-442 | Both together: the shape decides the answer |
| Evaluator.EvalSiblings | cmd/server/internal/evaluator/condition_evaluator.go:380-400 | The loop computes the chain's denotation: its first error in visiting order, else whether some maximal AND-run holds; it terminates on every index, cyclic or with duplicate IDs |
| Evaluator.EvalNode | cmd/server/internal/evaluator/condition_evaluator.go:406-442 | A node's result is its denotation under the depth cap: children first, a childless pure group true, mixed nodes joined by the child connector |
| Evaluator.EvaluateConditionGroup | cmd/server/internal/evaluator/condition_evaluator.go:352-371 | Indexing, sorting (ties in any order) and evaluating gives the meaning of the forest cut at depth 4; no roots means true |
| Evaluator.EvaluateSingleCondition | cmd/server/internal/evaluator/condition_evaluator.go:444-467 | One leaf check through the mutable caches equals the pure verdict on the raw maps |
| Evaluator.CompareValues | cmd/server/internal/evaluator/condition_evaluator.go:469-504 | Dispatch on the data type through the lazy caches equals the comparison of directly parsed values, errors included |
| Evaluator.CompareText | cmd/server/internal/evaluator/condition_evaluator.go:510-550 | Text comparison through the caches equals that of the raw expected value |
| Evaluator.CompareNumber | cmd/server/internal/evaluator/condition_evaluator.go:552-598 | Number comparison likewise, with array operators and two-bound BETWEEN |
| Evaluator.CompareDate | cmd/server/internal/evaluator/condition_evaluator.go:600-633 | Date comparison likewise |
| Evaluator.CompareBoolean | cmd/server/internal/evaluator/condition_evaluator.go:635-648 | Boolean comparison likewise, the parse failing before the operator is looked at |
| LeafLaws.EqualsIsSingleton | cmd/server/internal/evaluator/condition_evaluator.go:513-537 | Text = answers as IN with that word alone, and != as NOT IN, for every user and with every error, unless the word is a sentinel |
| LeafLaws.TextEquality | cmd/server/internal/evaluator/condition_evaluator.go:510-524 | = holds exactly up to case and space around either text, and != is its opposite |
| LeafLaws.ListIsSomeWord | cmd/server/internal/evaluator/condition_evaluator.go:525-541 | IN holds exactly when it does for one of the words alone, and NOT IN is its opposite |
| LeafLaws.ContainsMeans | cmd/server/internal/evaluator/condition_evaluator.go:542-547 | CONTAINS asks for the lower-cased word anywhere in the lower-cased value |
| LeafLaws.NumberOrder | cmd/server/internal/evaluator/condition_evaluator.go:554-577 | Of <, = and > exactly one holds; >=, != and <= are their opposites |
| LeafLaws.DateOrder | cmd/server/internal/evaluator/condition_evaluator.go:602-625 | The same for dates, as the instants they parse to |
| LeafLaws.NumberBetween | cmd/server/internal/evaluator/condition_evaluator.go:588-596 | BETWEEN is >= the first and <= the second bound |
| LeafLaws.DateBetween | cmd/server/internal/evaluator/condition_evaluator.go:626-632 | The same for dates |
| LeafLaws.NumberListIsSome | cmd/server/internal/evaluator/condition_evaluator.go:578-587 | A number list holds exactly when = does for one of its members |
| LeafLaws.BooleanEquality | cmd/server/internal/evaluator/condition_evaluator.go:635-648 | = compares, != is its opposite |
| LeafLaws.AnyHolds | cmd/server/internal/evaluator/condition_sentinels.go:59-75 | ANY holds of every user, whatever the operator |
| LeafLaws.NullHolds | cmd/server/internal/evaluator/condition_sentinels.go:59-80 | = NULL asks that the value is absent, empty or null, != NULL that it is not; nothing else holds |
| LeafLaws.CaretListOperators | cmd/server/internal/evaluator/condition_sentinels.go:143-190 | On a caret list = is IN and != is NOT IN, opposite for a readable value; every other operator fails |
| LeafLaws.NumberCaretList | cmd/server/internal/evaluator/condition_sentinels.go:169-190 | A caret list of numbers answers as the JSON array of those numbers |
| LeafLaws.BadNumberFails | cmd/server/internal/evaluator/condition_sentinels.go:125-138 | With one token that does not parse it holds of nobody |
| LeafLaws.ErrsExactly | cmd/server/internal/evaluator/condition_evaluator.go:444-504 | Exactly when a leaf check errs: its type is not loaded, or without a sentinel the two values do not have the form that type and operator need |
| LeafLaws.NothingToCompare | cmd/server/internal/evaluator/condition_evaluator.go:444-463 | Without an expected value, a user, or the user's value, a check fails |
| LeafLaws.EmptyCaretListFails | cmd/server/internal/evaluator/condition_sentinels.go:83-86 | A list of carets alone holds of nobody |
| LeafLaws.NullReadsAsZero | cmd/server/internal/evaluator/condition_evaluator.go:62-125 | Without a sentinel a null user value compares like the empty text, zero or false |
| LeafLaws.NullExpectationFails | cmd/server/internal/evaluator/condition_evaluator.go:323-333 | A check whose expected value is absent, empty or null holds of nobody |
| Semantics.FirstErrorOf | cmd/server/internal/evaluator/condition_evaluator.go:382-437 | Of several errors the one below a node comes before its own, and that before those to its right |
| Semantics.FirstErrorIsSomeError | cmd/server/internal/evaluator/condition_evaluator.go:382-391 | An error is returned exactly when some visited condition errors: there is no short circuit |
| Semantics.ScanFirst | cmd/server/internal/evaluator/condition_evaluator.go:381-385 | The scan starts as one open run holding the first sibling |
| Semantics.ScanNext | cmd/server/internal/evaluator/condition_evaluator.go:386-398 | One loop step closes the open run at an OR connector and extends it otherwise, or surfaces the next node's error |
| Semantics.ScanLast | cmd/server/internal/evaluator/condition_evaluator.go:399-399 | At the end accOr or result is the denotation of the chain |
| LazyCache.ParsedEntry.GetStr | cmd/server/internal/evaluator/condition_evaluator.go:62-73 | In any cache state the getter answers as a direct parse of the raw value, and keeps the entry's invariant |
| LazyCache.ParsedEntry.GetStrSlice | cmd/server/internal/evaluator/condition_evaluator.go:75-86 | Likewise for string arrays |
| LazyCache.ParsedEntry.GetNum | cmd/server/internal/evaluator/condition_evaluator.go:88-99 | Likewise for numbers |
| LazyCache.ParsedEntry.GetNumSlice | cmd/server/internal/evaluator/condition_evaluator.go:101-112 | Likewise for number arrays |
| LazyCache.ParsedEntry.GetBool | cmd/server/internal/evaluator/condition_evaluator.go:114-125 | Likewise for booleans |
| LazyCache.ParsedEntry.GetDate | cmd/server/internal/evaluator/condition_evaluator.go:127-142 | Likewise for dates |
| LazyCache.ParsedEntry.GetDateBounds | cmd/server/internal/evaluator/condition_evaluator.go:144-161 | Likewise for date bounds, two valid dates exactly |
| LazyCache.ParsedValues.Entry | cmd/server/internal/evaluator/condition_evaluator.go:268-282 | An entry appears on first use, holds its attribute's raw value, and is null exactly for an absent attribute |
| LazyCache.ParsedValues.GetString | cmd/server/internal/evaluator/condition_evaluator.go:284-284 | After any sequence of getter calls, the string getter answers as a direct parse |
| LazyCache.ParsedValues.GetStringSlice | cmd/server/internal/evaluator/condition_evaluator.go:285-287 | Likewise |
| LazyCache.ParsedValues.GetNumber | cmd/server/internal/evaluator/condition_evaluator.go:288-288 | Likewise |
| LazyCache.ParsedValues.GetNumberSlice | cmd/server/internal/evaluator/condition_evaluator.go:289-291 | Likewise |
| LazyCache.ParsedValues.GetBool | cmd/server/internal/evaluator/condition_evaluator.go:292-292 | Likewise |
| LazyCache.ParsedValues.GetDate | cmd/server/internal/evaluator/condition_evaluator.go:293-295 | Likewise |
| LazyCache.ParsedValues.GetDateBounds | cmd/server/internal/evaluator/condition_evaluator.go:296-298 | Likewise |
| Conditions.GroupByParent | cmd/server/internal/evaluator/condition_evaluator.go:353-360 | Every bucket holds exactly the rows with that parent, in input order |
| Conditions.BuildIndex | cmd/server/internal/evaluator/condition_evaluator.go:361-365 | Every bucket is a sorted permutation of its rows, nothing promised about ties |
| Conditions.BothOrdersAreStrictWeak | cmd/server/internal/evaluator/condition_normalization.go:144-152 | Both comparators, by sequence and by sequence then ID, are orders a sort may be given |
| Conditions.IndexIgnoresRowOrder | cmd/server/internal/evaluator/condition_evaluator.go:352-365 | Permuting the input rows leaves the index unchanged when the comparator separates siblings |
| Conditions.OrdersAgree | cmd/server/internal/evaluator/condition_normalization.go:144-152 | With distinct sibling sequences the evaluator's and the renderer's sort give one index |
| Rendering.ExpressionIgnoresRowOrder | cmd/server/internal/evaluator/condition_normalization.go:129-160 | Permuting the rows leaves the logic expression unchanged when no two siblings share sequence and ID and the renderer ends |
| Rendering.EvaluationIgnoresRowOrder | cmd/server/internal/evaluator/condition_evaluator.go:352-371 | Permuting the rows leaves the evaluation unchanged when sibling sequences are distinct |
| Rendering.DescentsEndWhenGrounded | cmd/server/internal/evaluator/condition_normalization.go:176-218 | Exactly when the uncapped renderers end: descents from the roots have bounded length if and only if no descent names an ID twice |
| Rendering.UniqueIdsGround | cmd/server/internal/evaluator/condition_normalization.go:176-218 | Unique IDs are enough |
| Rendering.DescentNeverRevisits | cmd/server/internal/evaluator/condition_normalization.go:176-218 | With unique IDs a descent from the roots never names an ID twice |
| Rendering.DescentBound | cmd/server/internal/evaluator/condition_normalization.go:176-218 | A descent that names no ID twice is no longer than there are IDs |
| Rendering.DuplicateIdsDescendForever | cmd/server/internal/evaluator/condition_normalization.go:194-218 | The smallest rule on which they do not end: a root and its child with one ID |
| Rendering.BuildCanonicalString | cmd/server/internal/evaluator/condition_normalization.go:176-187 | The loop of nodes and connectors, joined, is the text of the whole forest below the siblings; terminates |
| Rendering.RenderCanonicalNode | cmd/server/internal/evaluator/condition_normalization.go:194-226 | Each node renders as leaf, `()`, parenthesised group, or leaf, connector and group |
| Rendering.BuildLogicExpression | cmd/server/internal/evaluator/condition_normalization.go:129-160 | The expression is the text of the whole uncapped forest, empty without roots |
| RenderedMeaning.EvaluatorCuts | cmd/server/internal/evaluator/condition_evaluator.go:406-423 | The evaluator's forest is the renderer's, cut at the depth cap |
| RenderedMeaning.CutIsWhole | cmd/server/internal/evaluator/condition_evaluator.go:409-412 | A forest no higher than the cap is evaluated whole |
| RenderedMeaning.SameForest | cmd/server/internal/evaluator/condition_evaluator.go:352-371 | With distinct sibling sequences evaluator and renderer work on the same forest up to the cut, each with its own sort |
| Sentinels.SplitCaretTokens | cmd/server/internal/evaluator/condition_sentinels.go:104-120 | The tokens are the trimmed, non-empty parts between carets, in order |
| Sentinels.ParseCaretNumbers | cmd/server/internal/evaluator/condition_sentinels.go:125-138 | All tokens parse or there is no list |
| Sentinels.MatchTextList | cmd/server/internal/evaluator/condition_sentinels.go:143-164 | Membership is promoted for =, IN and negated for !=, NOT IN; every other operator or an unreadable value fails |
| Sentinels.MatchNumberList | cmd/server/internal/evaluator/condition_sentinels.go:169-190 | Likewise for numbers |
| Sentinels.ApplySentinel | cmd/server/internal/evaluator/condition_sentinels.go:59-102 | The sentinel's answer, or that the ordinary comparator must decide; never an error |
| CaretLists.SplitUndoesJoin | cmd/server/internal/evaluator/condition_sentinels.go:104-107 | Splitting a joined list of separator-free tokens gives the tokens |
| CaretLists.JoinedIsCaretList | cmd/server/internal/evaluator/condition_sentinels.go:29-51 | Two or more caret-free non-blank tokens joined by carets are a caret list of the trimmed tokens, and no other sentinel |
| CaretLists.CaretListIsArray | cmd/server/internal/evaluator/condition_evaluator.go:525-540 | For an absent or trimmed user string the joined list under = or IN (!= or NOT IN) answers as the JSON array under IN (NOT IN), errors included |
| Validation.StableSortSorts | cmd/server/internal/evaluator/condition_validation.go:97-103 | The sort is a sorting permutation that keeps the order of rows with equal sequence |
| Validation.SortConditionsBySequence | cmd/server/internal/evaluator/condition_validation.go:97-103 | The in-place swaps compute exactly that sort |
| Validation.SinkIntoPlace | cmd/server/internal/evaluator/condition_validation.go:99-101 | One inner loop inserts its row into the sorted prefix and leaves the rest of the array alone |
| Validation.ChainOkWhenSorted | cmd/server/internal/evaluator/condition_validation.go:77-93 | Looking at the sorted chain decides the order-free rule: connectors on exactly the siblings that have a later one |
| Validation.ValidateSiblingChain | cmd/server/internal/evaluator/condition_validation.go:68-95 | Accepts a chain if and only if that rule holds; a refusal names a true violation |
| Validation.IndexById | cmd/server/internal/evaluator/condition_validation.go:29-37 | The ID lookup holds exactly the last row of each ID |
| Validation.ValidateConditionTree | cmd/server/internal/evaluator/condition_validation.go:23-66 | Accepts exactly the row lists that satisfy the declared rules; a refusal names a true violation |
| AcceptedRows.AcceptedExactly | cmd/server/internal/evaluator/condition_validation.go:10-66 | What is accepted, on the rows themselves: a row has a connector if and only if it has a later sibling, and every row with an own check and a child says how to join them |
| Validation.LinksSetUnlessGreatestTied | cmd/server/internal/evaluator/condition_evaluator.go:361-365 | Exactly when validation protects the forward links: on a validated tree every index the evaluator may build has them all set if and only if in each chain one row alone has the greatest sequence |
| Validation.ValidatedConnectorsAreSet | cmd/server/internal/evaluator/condition_validation.go:10-18 | On a validated tree with unique IDs and one greatest sequence per chain, forward links are set on every sibling but the last, and joined children have a child connector |
| Validation.TiesMayDefaultAConnector | cmd/server/internal/evaluator/condition_evaluator.go:361-365 | The smallest validated tree without that: two tied roots, indexed with the unset connector in front, an order sort.Slice may give |
| PlacementLogic.FlattenConditions | cmd/server/internal/evaluator/placement_logic.go:52-74 | The flattening loop produces one logic condition per row, in order |
| PlacementLogic.RestoreUndoesFlatten | cmd/server/internal/evaluator/condition_evaluator.go:654-676 | Restoring the flattened conditions gives back the rows, pure groups included, a missing data type as the empty one |
| Retyping.IndexRetypes | cmd/server/internal/evaluator/condition_evaluator.go:353-365 | Nothing depends on that type: an index of the rows is, retyped, an index of the retyped rows |
| Retyping.EveryIndexIsRetyped | cmd/server/internal/evaluator/condition_evaluator.go:353-365 | And every index of the retyped rows is one of the rows retyped, ties included |
| Retyping.TreeRetypes | cmd/server/internal/evaluator/condition_validation.go:23-66 | Retyped rows are valid exactly when the rows are |
| Retyping.ForestRetypes | cmd/server/internal/evaluator/condition_evaluator.go:406-423 | The evaluator's forest of retyped rows is the retyped forest |
| Retyping.MeaningStays | cmd/server/internal/evaluator/condition_evaluator.go:402-467 | A forest whose own checks have their types loaded means the same retyped |
| PlacementLogic.RestoreExactly | cmd/server/internal/evaluator/condition_evaluator.go:654-690 | A row comes back from text exactly when its attribute ID is not the nil one and no connector is the empty string |
| PlacementLogic.StampedAlike | cmd/server/internal/evaluator/condition_evaluator.go:323-333 | The expected values restored for a checked attribute are the rule's own non-null ones |
| PlacementLogic.EvaluateLogicConditions | cmd/server/internal/evaluator/condition_evaluator.go:313-344 | Evaluating logic conditions is validating and evaluating the restored rows; an empty list is true, an invalid tree false |
| PlacementLogic.FlatteningPreservesMeaning | cmd/server/internal/evaluator/placement_logic.go:42-74 | Evaluating the flattened rule equals validating then evaluating the rule itself, pure groups included, under every order of ties |
| LocalEvaluator.BuildPlacementLogicEntries | cmd/server/internal/evaluator/placement_logic.go:17-39 | One candidate per variation, or one without variations, up to the order of ties |
| LocalEvaluator.ExpandWithLeads | cmd/server/internal/evaluator/lead_enrichment.go:21-43 | One clone per matching lead, in lead order, with the lead's fields |
| LocalEvaluator.ClonesCount | cmd/server/internal/evaluator/lead_enrichment.go:45-55 | As many clones as leads that list the placement |
| LocalEvaluator.EvaluateSchedule | cmd/server/internal/evaluator/evaluator.go:38-65 | Each candidate of a schedule is decided once and contributes its offers exactly when it passes |
| LocalEvaluator.Evaluate | cmd/server/internal/evaluator/evaluator.go:25-74 | The response is a permutation of the offers of the passing candidates, by falling score |
| OfferContents.OfferComesFrom | cmd/server/internal/evaluator/evaluator.go:25-74 | Nothing else is offered: each offer has the content, campaign, period and score of a schedule and its rule, or of a lead that lists the placement, under the expected values of one variation whose conditions hold |
| OfferContents.EveryCandidateIsDecided | cmd/server/internal/evaluator/evaluator.go:38-65 | Nothing is withheld: for every schedule with a rule and every variation there is a decision, and with a positive one all its offers are in the response |
| OfferContents.LastValueWins | cmd/server/internal/evaluator/placement_logic.go:24-36 | Of several values for one attribute the last is expected |
| PlacementLogic.RootlessRulePasses | cmd/server/internal/evaluator/condition_evaluator.go:366-371 | A valid rule without a root row passes for everyone |
| OfferContents.UndecidedByConditions | cmd/server/internal/evaluator/condition_evaluator.go:313-344 | A rule without conditions passes for everyone, an invalid one for nobody |
| LocalEvaluator.OffersAreConserved | cmd/server/internal/evaluator/evaluator.go:40-65 | No offer is lost or duplicated: the number of offers is the sum over candidates |
| MemoryCache.VisibleLater | internal/infrastructure/cache/memory.go:70-81 | Expiry observed in between changes nothing about what a later reader sees |
| MemoryCache.SeenUntilExpiry | internal/infrastructure/cache/memory.go:87-96 | A value that is set is seen up to its TTL (the default for 0, for ever when not positive) and not after |
| MemoryCache.RejectedUnderPressure | internal/infrastructure/cache/memory.go:87-96 | Under pressure a key that is not live is not set, and no other key is touched |
| MemoryCache.CacheMemory.Get | internal/infrastructure/cache/memory.go:72-81 | A hit exactly for a live key, with its value |
| MemoryCache.CacheMemory.Set | internal/infrastructure/cache/memory.go:87-96 | Sets the key with its deadline; under pressure a key that is not live is rejected |
| MemoryCache.CacheMemory.Delete | internal/infrastructure/cache/memory.go:99-102 | At every time the view loses exactly that key |
| MemoryCache.CacheMemory.Clear | internal/infrastructure/cache/memory.go:105-108 | At every time the view is empty |
| MemoryCache.CacheMemory.Keys | internal/infrastructure/cache/memory.go:111-117 | The live keys |
| MemoryCache.CacheMemory.DeleteExpired | internal/infrastructure/cache/memory.go:62-62 | The janitor removes only what no later reader could see |
| MemoryCache.CacheMemory.Replace | cmd/server/service/cms_delivery_service.go:74-85 | One synchronisation pass: only new keys with new values remain, of which pressure keeps those that were live |
| Delivery.CMSDeliveryService.UpdateSchedules | cmd/server/service/cms_delivery_service.go:67-136 | The four passes together, in any map order |
| Delivery.CMSDeliveryService.StampPlacements | cmd/server/service/cms_delivery_service.go:124-129 | Every new placement gets a stamp under the name recovered from its key |
| Delivery.CMSDeliveryService.PruneOrphanedRules | cmd/server/service/cms_delivery_service.go:139-162 | Keeps exactly the cached rules some cached schedule refers to |
| Delivery.CMSDeliveryService.LoadSchedules | cmd/server/service/cms_delivery_service.go:852-864 | One fresh object per schedule ID: the first occurrence with a loaded schedule |
| Delivery.CMSDeliveryService.GroupByPlacement | cmd/server/service/cms_delivery_service.go:866-882 | Per placement name the schedules of that placement in listing order |
| Delivery.CMSDeliveryService.ComputePlacementHash | cmd/server/service/cms_delivery_service.go:30-37 | The hash of the IDs and update times of the list, in order |
| Delivery.CMSDeliveryService.KeyGroups | cmd/server/service/cms_delivery_service.go:926-931 | Every group under its own key and no other key |
| Delivery.CMSDeliveryService.FetchNewRules | cmd/server/service/cms_delivery_service.go:905-936 | The rules of the loaded schedules under their cache keys; none when the read fails |
| Delivery.CMSDeliveryService.ClearPlacements | cmd/server/service/cms_delivery_service.go:840-848 | Drops the named lists and hashes and stamps them as synced |
| Delivery.CMSDeliveryService.RefreshPlacements | cmd/server/service/cms_delivery_service.go:940-961 | A targeted refresh sets the named entries, keeps the others, and prunes |
| Delivery.CMSDeliveryService.Evaluate | cmd/server/service/cms_delivery_service.go:813-967 | The whole evaluate, over the real caches, is the step the histories are made of |
| Delivery.CMSDeliveryService.FlushCache | cmd/server/service/cms_delivery_service.go:340-383 | Full or selective flush, the latter evicting rules by the attached rule or by rule ID, then an optional evaluate |
| Delivery.CMSDeliveryService.AlreadyMirrored | cmd/server/service/cms_delivery_service.go:1029-1040 | The version check of a ping, made twice |
| Delivery.CMSDeliveryService.FirePing | cmd/server/service/cms_delivery_service.go:1056-1078 | A ping after its jitter: skipped, or invalidation and a targeted or full evaluate |
| Delivery.CMSDeliveryService.TakeLists | cmd/server/service/cms_delivery_service.go:409-453 | The take loop with one self-heal per stale placement and the refusal that ends it |
| Delivery.CMSDeliveryService.RetryMissed | cmd/server/service/cms_delivery_service.go:455-480 | One evaluate and one more look at every missed placement, in any map order |
| Delivery.CMSDeliveryService.AttachRules | cmd/server/service/cms_delivery_service.go:482-517 | Re-attachment from the rule cache, then from the database with backfill |
| Delivery.CMSDeliveryService.FilterRequested | cmd/server/service/cms_delivery_service.go:518-529 | Per requested placement the schedules that have a rule, with it, in order |
| Delivery.CMSDeliveryService.GetPersonalizedContent | cmd/server/service/cms_delivery_service.go:394-529 | The whole request up to the evaluator is the request step of the histories, and its map holds what each placement is handed |
| UserAttrs.UserAttrsResolver.CollectNeeded | cmd/server/service/cms_delivery_user_attrs.go:54-63 | Per datasource the first schema seen and every field the rules refer to |
| UserAttrs.UserAttrsResolver.ExtractClenDataSources | cmd/server/service/cms_delivery_user_attrs.go:44-100 | The request is exactly schema minus rule minus cached, per datasource where that is not empty |
| Enrichment.RequestedExactly | cmd/server/service/cms_delivery_user_attrs.go:54-100 | A field is requested if and only if the schema of the datasource's first attribute declares it, no attribute of the rules names it, and the cached data do not hold it |
| Enrichment.AllAttrsAre | cmd/server/service/cms_delivery_user_attrs.go:54-63 | The attributes looked at are those of every rule, in order; a nil rule has none |
| UserAttrs.UserAttrsResolver.LookupSchemaFields | cmd/server/service/cms_delivery_user_attrs.go:123-142 | The memoised lookup answers as the registry would, and remembers exactly what it read |
| UserAttrs.RememberChangesNothing | cmd/server/service/cms_delivery_user_attrs.go:127-141 | The schema memo is transparent while the registry stays |
| UserAttrs.RememberIdsChangesNothing | cmd/server/service/cms_delivery_user_attrs.go:169-185 | So is the attribute memo |
| UserAttrs.UserAttrsResolver.LookupAttributeIds | cmd/server/service/cms_delivery_user_attrs.go:165-186 | Field to UUID per datasource; failures are not remembered |
| UserAttrs.UserAttrsResolver.ParseRawEnvelope | cmd/server/service/cms_delivery_user_attrs.go:229-251 | The successful non-empty results of the envelope, per datasource |
| Enrichment.SurfacedExactly | cmd/server/service/cms_delivery_user_attrs.go:229-251 | Per datasource the data of the last result that reports success, has data and names it; nothing else |
| Enrichment.SurfaceAt | cmd/server/service/cms_delivery_user_attrs.go:243-249 | The last successful result of a datasource is what is surfaced |
| Enrichment.SurfaceFrom | cmd/server/service/cms_delivery_user_attrs.go:243-249 | Nothing else is |
| UserAttrs.UserAttrsResolver.EnrichCustomerProfile | cmd/server/service/cms_delivery_user_attrs.go:324-379 | A usable response replaces the cached envelope and is merged field by field; any other leaves both alone |
| UserAttrs.EnrichedExactly | cmd/server/service/cms_delivery_user_attrs.go:324-379 | What the rules are evaluated on: the cached profile, or its fields together with those of a usable answer, the answer winning |
| UserAttrs.DeclaredExactly | cmd/server/service/cms_delivery_user_attrs.go:123-142 | The fields a schema declares: a remembered answer, else its definition if it can be read; a failed read declares nothing and is not remembered |
| UserAttrs.SourceIdsExactly | cmd/server/service/cms_delivery_user_attrs.go:165-186 | The same for the attribute IDs of a datasource |
| UserAttrs.EnvelopeIsStored | cmd/server/service/cms_delivery_user_attrs.go:324-355 | The response is stored verbatim for that customer exactly when something was requested, the status is 2xx, there is a body and the write succeeds |
| UserAttrs.ProfileKeysSeparate | cmd/server/service/cms_delivery_user_attrs.go:264-275 | No customer finds the envelope of another one, as long as customer types contain no colon |
| UserAttrs.ProfileKeysCollide | cmd/server/service/cms_delivery_user_attrs.go:264-275 | With a colon in the type two customers can share one |
| UserAttrs.UserAttrsResolver.MergeAll | cmd/server/service/cms_delivery_user_attrs.go:360-378 | The merge over all surfaced datasources, in any map order |
| Enrichment.MergedFields | cmd/server/service/cms_delivery_user_attrs.go:360-378 | Afterwards a datasource holds what it held and what came in, incoming values winning |
| Enrichment.MergeLosesNothing | cmd/server/service/cms_delivery_user_attrs.go:357-378 | No readable cached field is lost, and one the response does not carry keeps its value up to compaction |
| Enrichment.CoveredMergeCompletes | cmd/server/service/cms_delivery_user_attrs.go:68-95 | After merging a response with every requested field the next delta is empty |
| Enrichment.FetchFlips | cmd/server/service/cms_delivery_user_attrs.go:318-320 | An exact response flips what is held: the next delta is empty if and only if no wanted field was held before |
| Enrichment.CacheSettles | cmd/server/service/cms_delivery_user_attrs.go:318-355 | Over any run of requests the envelope cache settles if and only if the first found every wanted field cached or none; otherwise every request calls the upstream again |
| Enrichment.HalfHeldNeverSettles | cmd/server/service/cms_delivery_user_attrs.go:318-355 | The failing side as a run: two wanted fields, one cached, and two envelopes that take turns |
| UserAttrs.UserAttrsResolver.TransformToUuidKeyed | cmd/server/service/cms_delivery_user_attrs.go:192-221 | The projection is the result of walking exactly the resolving pairs in some order |
| Enrichment.WrittenFrom | cmd/server/service/cms_delivery_user_attrs.go:212-218 | A walk has exactly the UUIDs of its resolving pairs, each with the value of one of them |
| Enrichment.ProjectionUnique | cmd/server/service/cms_delivery_user_attrs.go:199-220 | The projection is the same for every map order if and only if pairs that share a UUID hold the same value |
| Enrichment.SharedIdIsAmbiguous | cmd/server/service/cms_delivery_user_attrs.go:212-218 | With a shared UUID and different values two walks of the same pairs differ |
| Enrichment.PrimaryKeysAreDistinct | cmd/server/service/cms_delivery_user_attrs.go:173-183 | Rows listed under their own datasource with unique IDs make the projection independent of map order |
| UserAttrs.UserAttrsResolver.ResolveUserAttrs | cmd/server/service/cms_delivery_user_attrs.go:264-309 | Cached envelope, delta, fetch, merge and projection, with the new cached envelope; no customer means no attributes |
| FormatTags.ParseTags | scripts/format_tags.go:24-80 | The index-and-flag parser computes the recursive parse of the trimmed text |
| FormatTags.PrintParses | scripts/format_tags.go:92-103 | Parsing printed tags gives the tags, at any padding |
| FormatTags.FormatTag | scripts/format_tags.go:82-104 | The printing loop computes the aligned text; a text without tags is returned unchanged |
| FormatTags.FormattedParses | scripts/format_tags.go:82-104 | A formatted tag parses to the original tags, the first key without its leading backquotes |
| FormatTags.FormatKeepsTags | scripts/format_tags.go:24-25 | On arbitrary text formatting keeps the tags if and only if nothing was parsed or the first key does not start with a backquote |
| FormatTags.CleanMeans | scripts/format_tags.go:24-34 | That condition on the text: no backquote after the enclosing ones and the spaces behind them |
| FormatTags.FormatIdempotent | scripts/format_tags.go:82-104 | On arbitrary text formatting is idempotent under exactly the same condition |
| DroppedText.FrontHasTheTags | scripts/format_tags.go:26-80 | The parser never looks at what follows the point where it stops: the text in front of it has all the tags |
| DroppedText.NothingBehindFormatted | scripts/format_tags.go:82-104 | A formatted text has its tags and nothing after them |
| DroppedText.FormatLosesText | scripts/format_tags.go:82-104 | Exactly when formatting loses text: some tag was parsed and something follows the point where parsing stopped |
| DroppedText.FrontDecidesFormat | scripts/format_tags.go:82-104 | What follows that point makes no difference to the output |
| DroppedText.UnquotedOptionIsDropped | scripts/format_tags.go:46-60 | An option without quotes after a tag is such text, and is missing from the output |
| TagLiterals.LiteralsAreClean | scripts/format_tags.go:24-34 | Every Go string literal meets the condition |
| TagLiterals.InterpretedHasNoTags | scripts/format_tags.go:39-51 | In an interpreted literal the parser finds no tag, so it is left unchanged |
| TagLiterals.FormattingLiterals | scripts/format_tags.go:82-104 | On literals formatting keeps the tags and is idempotent, without condition |
| TagLiterals.FormattedIsRaw | scripts/format_tags.go:92-103 | The formatted text is a literal if and only if no printed key or quoted value holds a backquote |
| TagLiterals.FormatStaysLiteral | scripts/format_tags.go:92-103 | For a literal only its quoted values matter |
| TagLiterals.EscapedBackquoteBreaks | scripts/format_tags.go:20-22 | It happens: a value written with an escaped backquote is printed with a plain one |
| FormatTags.PlainQuotingLaws | scripts/format_tags.go:20-22 | Quoting of printable ASCII obeys the laws assumed of quoting |
| StructTags.MeasureFields | scripts/format_tags.go:117-139 | The first pass records, per key, the widest tag that is not last in its field |
| StructTags.WidthsCover | scripts/format_tags.go:131-137 | Every tag that gets padded fits its key's width |
| StructTags.WidthIsMeasured | scripts/format_tags.go:131-137 | And every width is the length of such a tag |
| StructTags.NextColumn | scripts/format_tags.go:92-103 | Past the backquote each tag takes the width of its key and one space |
| StructTags.ProcessedField | scripts/format_tags.go:141-168 | An embedded or unexported field stays as it is; another keeps its names and gets the formatted tag, or none when that is empty |
| StructTags.ProcessStruct | scripts/format_tags.go:116-168 | Both passes in place; the file counts as modified exactly when some field changed |
| StructTags.SecondPassChangesNothing | scripts/format_tags.go:141-168 | On arbitrary tag texts a second run over a struct changes nothing if and only if every tag it touches is clean |
| TagLiterals.SecondRunChangesNothing | scripts/format_tags.go:116-168 | On a struct whose tags are literals, as in every file that parses, it changes nothing |
| TagLiterals.RewrittenStaysReadable | scripts/format_tags.go:141-168 | The rewritten tags are literals again, so that there is a second run, if and only if no quoted value prints a backquote |
| StructTags.TagsAlign | scripts/format_tags.go:93-103 | The i-th tag of a field starts at a column that depends only on the keys before it |
| StructTags.SameKeysSameColumn | scripts/format_tags.go:93-103 | Two fields with the same keys so far have their next tags in one column |

## Left out

- HTTP handlers, routing, configuration, logging, health checks and dependency wiring: no state the properties concern.
- SQL, Redis and CLEN clients: parameters. A database is a snapshot of active occurrences, rule references and rule contents whose reads may fail; the targeted listing is the full one restricted to the named placements. Redis entries have no expiry of their own here; an expired entry is a read that finds nothing.
- Interleavings inside one evaluate, goroutine start and stop, and the length of the jitter delay: a ping is received and later fired, with any other steps in between.
- A pod without caches, repositories or evaluator (nil fields), and the nil dereference in GetPersonalizedContent when the cache is nil: the model has all of them.
- The evaluation after the hand-over inside GetPersonalizedContent (attribute resolution, leads, page size): modelled separately by UserAttrs and LocalEvaluator and not chained.
- Prometheus metrics and their label clean-up.
- Heap measurement: the pressure flag is a free boolean, constant inside one step.
- SHA-256 is an arbitrary function (collision-free only where a theorem says so); GenerateConditionHash and the value-free renderers repeat the value-aware ones without the value.
- The DecisionRule field of the schedule objects is one map from object identity to rule copy, so lists that share an object share its rule. Read times, object identities and read numbers are provenance the code does not store.
- A parsed JSON value is the decoded value: object fields are a map, and json.Marshal is an abstract function of it whose texts can be told apart from what follows them; parsed JSON numbers are integers (units of the smallest spacing), so rounding, NaN and infinities are not modelled.
- Lead and rule scores are reals, NaN excluded; parseLeadScore is a parameter for ParseFloat with the same fallback.
- Case folding and date parsing are abstract, with only the laws each theorem names; white space is ASCII white space; UUID texts other than the canonical spelling are not recognised.
- The four passes of UpdateSchedules share one method, CacheMemory.Replace, and the three maps of a targeted refresh are each set in one pass; the caches are separate objects, so the order between them does not show.
- Rendering.BuildLogicExpression: requires that no descent names an ID twice, which is exactly when the code returns.
- Validation.ValidateConditionTree: a refusal in the code also renders the rows into its message; the model reports the violation alone, and the code does not return from a refusal when a descent names an ID twice.
- PlacementLogic.EvaluateLogicConditions: inherits that, answering false where the code would not return.
- LocalEvaluator.BuildPlacementLogicEntries: the entry's LogicHash and LogicExpr are not produced; the expression is modelled by itself in Rendering.
- RenderedMeaning.EqualExpressionsEqualAnswers: asks for distinct sibling sequences, a renderer that ends, known connectors and operators, attribute types that agree between the two rules, expected values that are neither malformed nor a null with white space around it, an unambiguous forest after the cut, and no node at the cap that joins children by OR, each of which the code or the data could break.
- Ambiguity.UnambiguousIsExact: speaks of checks that can hold independently of one another; which of them one real user can meet together depends on operators and values. Forests with equal checks or with evaluated childless groups are outside the equivalence.
- MirrorTransparency.CacheTransparency: needs distinct requested names, because a repeated name takes its list twice.
- PlacementLogic.FlatteningPreservesMeaning: asks that rows with their own check have its attribute loaded, that no attribute ID is the nil one, and that no connector is the empty string; groups are covered.
- MirrorRequests.RefusedWhenInactive: asks that the listing of every heal succeeds and that the database is consistent; RefusedExactly covers the rest.
- LeafLaws.ContainsMeans: lower-casing is abstract, so nothing is said about how case is folded there.
- MirrorTargets.PingFreshensOthers: asks for a consistent database at the ping, where a listed row's placement is the one it was listed under.
- MirrorTargets.CarriedCopyIsServed: asks that the placement is not stale and that no object of its list with the same row lacks a rule.
- FormatTags: strings are characters, one column each; Go's Quote and Unquote are a parameter with two laws. Walking the Go syntax tree and writing the file are left out; IsExported looks at ASCII capitals.
- Enrichment: invalid UTF-8 and the error text of a failed call.
