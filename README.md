# AI Ideation Engine — concept pipeline model

This Dafny project models the concept pipeline of the AI Ideation Engine for the Cities of Light. The pipeline has these stages:

- **Ideas.** An idea combines two distinct technology concepts with an urban challenge.
- **Specification.** A concept becomes a specification dictionary: name, purpose, three drawn features, two distinct items from each fixed catalog, and the ethical guidelines whose coin came up.
- **Scoring.** The specification is scored for technical, resource and ethical feasibility, impact and resource needs. An ethical review approves it when its ethical score exceeds 0.7.
- **Refinement.** The specification goes through three rounds of panel feedback. Each round adds one feature and may add one guideline that is not yet present.
- **Knowledge store.** The store keeps concepts, specifications, last-word tags and concept–tag links. It supports search, synergy ranking and a tag-diversity report.
- **Metrics.** The engine keeps performance counters and running averages, and the improvement module keeps a learning rate.
- **File names.** The driver sanitises a concept into a file name.

Random draws are explicit natural-number parameters: `random.choice(xs)` becomes `xs[d % |xs|]`. Each draw records which choice was made. Nothing constrains the range of a draw. An empty list fails with `IndexError`, as Python's `random.choice` does.

The modules are:

- `Wrappers`: result and outcome types.
- `Reals`: real-arithmetic facts.
- `Text`: the Python string operations used. Letters, digits and case mapping are ASCII only; whitespace is Python's full `isspace` set.
- `Catalog`: the engine's constant lists and the draw helpers.
- `Specification`, `Scoring`, `Refinement`, `KnowledgeStore` and `Metrics`: the engine.
- `Filename`: the driver's `safe_filename`.

Two details of the code that the model keeps:

- **Purpose without the marker.** When a concept does not contain `"address "`, the purpose is `"To address " + concept`. `split('address ')[-1]` returns the whole string and the f-string still prefixes it (`Specification.Purpose`).
- **Guideline guard.** The guard in `incorporate_feedback` compares the drawn key for equality with `c.split(":")[0].lower().strip()` of each consideration.

## Model

| member | source | states |
|---|---|---|
| Text.Lower | ai_ideation_engine.py:1045 | `lower()` keeps the length and lower-cases each ASCII letter, position by position |
| Text.Capitalize | ai_ideation_engine.py:1001 | `capitalize()` upper-cases the first character and lower-cases the rest, keeping the length |
| Text.IndexOfMeaning | ai_ideation_engine.py:1157 | the first-occurrence search finds nothing exactly when the separator is absent, and otherwise finds a match with no earlier one |
| Text.AfterLastMeaning | ai_ideation_engine.py:967 | `split(sep)[-1]` is a suffix that contains no separator and directly follows an occurrence of it; it is the whole string when the separator is absent |
| Text.FirstField | ai_ideation_engine.py:1162 | `split(":")[0]` is a separator-free prefix that is either the whole string or ends where the first separator begins |
| Text.SecondField | ai_ideation_engine.py:1157 | `split(": ")[1]` is missing (IndexError) exactly when the separator is absent; otherwise it is the separator-free text after the first separator, up to the next one or the end |
| Text.RStrip | main.py:29 | `rstrip()` removes exactly the trailing whitespace run: a prefix that does not end in whitespace, followed in the input only by whitespace |
| Text.LStrip | ai_ideation_engine.py:1162 | `lstrip()` removes exactly the leading whitespace run |
| Text.Strip | ai_ideation_engine.py:1162 | `strip()` is the slice of the input left after removing whitespace only, at both ends, and neither starts nor ends with whitespace |
| Text.LastWordMeaning | ai_ideation_engine.py:1205 | `split()[-1]` fails exactly on all-whitespace text; otherwise it is the non-empty, whitespace-free final word of the right-stripped text, preceded by whitespace or nothing |
| Catalog.KeyName | ai_ideation_engine.py:936-945 | every guideline key is a non-empty lower-case word (letters and underscores) |
| Catalog.GuidelineKeysDistinct | ai_ideation_engine.py:936-945 | the eight guideline keys are pairwise distinct |
| Catalog.HeadOfLine | ai_ideation_engine.py:1162 | the field before the first colon of a written consideration is the capitalised key |
| Catalog.EntryKeyOfLine | ai_ideation_engine.py:1162-1163 | filing a line `Key: text` lower-cases and strips back to exactly the key it was written from |
| Catalog.EntryKey | ai_ideation_engine.py:1162 | a filed key contains no colon and no upper-case letter, and neither starts nor ends with whitespace |
| Catalog.EntryKeyOfEntry | ai_ideation_engine.py:1001 | the consideration written for guideline g is filed under g's key |
| Catalog.Choice | ai_ideation_engine.py:1118 | `random.choice` fails with IndexError exactly on an empty list and otherwise returns a member of it |
| Catalog.SamplePair | ai_ideation_engine.py:950 | `random.sample(xs, 2)` picks two different positions |
| Catalog.SamplePairCovers | ai_ideation_engine.py:950 | every ordered pair of different positions is reachable by some draw |
| Catalog.Sample2 | ai_ideation_engine.py:982 | a two-item sample holds two items from different positions of the list |
| Specification.Spec.constructor | ai_ideation_engine.py:965-973 | the fresh dictionary holds the concept as name, its purpose, and five empty lists |
| Specification.GenerateIdeas | ai_ideation_engine.py:947-954 | the loop returns exactly `num_ideas` ideas, the i-th built from the i-th draws |
| Specification.Idea | ai_ideation_engine.py:950-952 | every idea names the concepts at two different catalog positions and a catalog challenge in the fixed sentence |
| Specification.IdeaCovers | ai_ideation_engine.py:950-952 | every combination of two different concepts and a challenge is produced by some draws |
| Specification.Purpose | ai_ideation_engine.py:967 | the purpose is "To address " followed by a marker-free suffix of the concept: the whole concept when it holds no `"address "`, otherwise the text right after an occurrence of it |
| Specification.MarkerOccurrencesApart | ai_ideation_engine.py:967 | two occurrences of `"address "` never overlap |
| Specification.AfterLastMarker | ai_ideation_engine.py:967 | the text after the last marker occurrence is what `split('address ')[-1]` returns |
| Specification.PurposeAfterMarker | ai_ideation_engine.py:967 | when the marker is followed by marker-free text, the purpose restates exactly that text |
| Specification.ChallengeTailsUnmarked | ai_ideation_engine.py:952 | no challenge with the idea's closing words contains the marker |
| Specification.PurposeOfIdea | ai_ideation_engine.py:967 | the purpose of a generated idea is "To address " followed by its challenge and " in the Cities of Light" |
| Specification.Picked | ai_ideation_engine.py:999-1000 | every picked guideline index is in range and its coin came up |
| Specification.PickedIncreasing | ai_ideation_engine.py:999 | guidelines are picked in table order, without repeats |
| Specification.PickedExactly | ai_ideation_engine.py:1000 | a guideline is picked exactly when its coin came up |
| Specification.Considerations | ai_ideation_engine.py:997-1002 | one consideration per picked guideline, in order: the i-th is the written line of the i-th picked guideline |
| Specification.GenerateEthicalConsiderations | ai_ideation_engine.py:997-1002 | the loop over the guideline table returns the considerations of the coin draws |
| Specification.DevelopSpecification | ai_ideation_engine.py:964-995 | the built dictionary is a fresh object whose contents are the specification of the concept under the draws |
| Specification.ConceptsDistinct | ai_ideation_engine.py:24 | the six concepts are distinct, so a sample of two names two different concepts |
| Specification.CatalogsDistinct | ai_ideation_engine.py:981-989 | resources, challenges and systems have no repeated items |
| Specification.Features | ai_ideation_engine.py:975-978 | one feature per draw, each "Feature related to" a vocabulary concept |
| Specification.Specify | ai_ideation_engine.py:964-995 | a specification keeps the concept as name and its purpose; its features are the drawn features, three "Feature related to" lines about vocabulary concepts; resources, challenges and integration points are two different items of their catalogs; its considerations are those of the guideline coins |
| Specification.ConsiderationsDistinctKeys | ai_ideation_engine.py:997-1002 | at most eight considerations, each a guideline line, no two filed under the same key |
| Specification.ConsiderationsExactly | ai_ideation_engine.py:997-1002 | guideline g's line is among the considerations exactly when its coin came up |
| Scoring.Clamp | ai_ideation_engine.py:1032 | `max(0.0, min(1.0, x))` lies in [0, 1], keeps values already there and saturates the rest |
| Scoring.TechnicalFeasibility | ai_ideation_engine.py:1025-1031 | technical feasibility lies in [0, 1] and is 1 exactly when there are no features, integration points or challenges |
| Scoring.ResourceFeasibility | ai_ideation_engine.py:1033-1039 | resource feasibility lies in [0, 1], is 1 exactly with no resources and 0 exactly with five or more |
| Scoring.EthicalFeasibility | ai_ideation_engine.py:1041-1057 | ethical feasibility lies in [0, 1] and is 0 with no considerations |
| Scoring.AssessFeasibility | ai_ideation_engine.py:1008-1023 | the feasibility of a built specification is (0.9 + 0.2 per keyword guideline drawn) / 3 |
| Scoring.EstimateImpact | ai_ideation_engine.py:1059-1068 | the impact of a built specification is 0.9 without considerations and 1.0 with any |
| Scoring.EstimateResourceRequirements | ai_ideation_engine.py:1070-1082 | a built specification needs 30 compute, 15 storage and 8 weeks |
| Scoring.ConductEthicalReview | ai_ideation_engine.py:1378-1386 | the review approves exactly when at least four keyword guidelines were drawn |
| Scoring.Hits | ai_ideation_engine.py:1044-1054 | a consideration matches at most the five keywords |
| Scoring.EthicalSumNonNegative | ai_ideation_engine.py:1043-1054 | the raw ethical score is never negative |
| Scoring.EthicalSumGrows | ai_ideation_engine.py:1043-1054 | adding considerations never lowers the raw ethical score |
| Scoring.EthicalFeasibilityBounds | ai_ideation_engine.py:1041-1057 | ethical feasibility lies in [0, 1] and never drops as considerations are added |
| Scoring.ScoresInRange | ai_ideation_engine.py:1008-1068 | technical, resource, ethical and overall feasibility and impact all lie in [0, 1] |
| Scoring.FreshSpecificationScores | ai_ideation_engine.py:1025-1082 | a freshly built specification scores 0.3 technical and 0.6 resource feasibility, needs 30 compute, 15 storage and 8 weeks, and has impact 0.9 with no considerations and 1.0 otherwise |
| Scoring.EntryHoldsOwnKey | ai_ideation_engine.py:1001 | a written consideration, lower-cased, contains its own key |
| Scoring.PrivacyLineHits | ai_ideation_engine.py:937 | the privacy line matches exactly one keyword |
| Scoring.FairnessLineHits | ai_ideation_engine.py:938 | the fairness line matches exactly one keyword |
| Scoring.TransparencyLineHits | ai_ideation_engine.py:939 | the transparency line matches exactly one keyword |
| Scoring.AccountabilityLineHits | ai_ideation_engine.py:940 | the accountability line matches exactly one keyword |
| Scoring.SafetyLineHits | ai_ideation_engine.py:941 | the safety line matches exactly one keyword |
| Scoring.HumanOversightLineHits | ai_ideation_engine.py:942 | the human-oversight line matches no keyword |
| Scoring.EnvironmentalImpactLineHits | ai_ideation_engine.py:943 | the environmental-impact line matches no keyword |
| Scoring.SocialGoodLineHits | ai_ideation_engine.py:944 | the social-good line matches no keyword |
| Scoring.EntryHits | ai_ideation_engine.py:1044-1054 | a guideline's line scores one keyword for the first five guidelines and none for the last three |
| Scoring.KeywordGuidelinesDrawn | ai_ideation_engine.py:1000 | at most five keyword guidelines can be drawn |
| Scoring.EthicalSumOfConsiderations | ai_ideation_engine.py:1043-1054 | the raw ethical score of drawn considerations is 0.2 per keyword guideline drawn |
| Scoring.ReviewOfBuiltSpecification | ai_ideation_engine.py:1378-1386 | the review's ethical score is 0.2 per keyword guideline drawn, and the review approves exactly when at least four were drawn |
| Scoring.EthicalSumOfTwo | ai_ideation_engine.py:1044-1054 | two considerations score 0.2 per keyword hit of each |
| Scoring.PrivacyAndFairnessScore | ai_ideation_engine.py:1386 | privacy and fairness alone score 0.4, which needs revision |
| Refinement.Advice | ai_ideation_engine.py:1115-1152 | a member's advice fails with IndexError exactly when the list it draws from is empty; fixed advice is its sentence, and templated advice is its lead-in followed by an item of its pool |
| Refinement.GetPanelFeedback | ai_ideation_engine.py:1097-1113 | the loop over a panel returns the panel's feedback lines, or the first member's failure |
| Refinement.PanelFeedback | ai_ideation_engine.py:1097-1113 | a panel fails only with IndexError; otherwise it gives one line per member, starting with the member's name, its verb and ": " |
| Refinement.FeedbackLines | ai_ideation_engine.py:1097-1113 | a round gathers fifteen lines, each containing ": " |
| Refinement.PanelLines | ai_ideation_engine.py:1100 | every line of a panel contains ": " |
| Refinement.Feedback | ai_ideation_engine.py:1097-1152 | feedback fails with IndexError exactly when features, resources, integration points or considerations are empty, and otherwise gives one line per member of the three panels |
| Refinement.EntryKeys | ai_ideation_engine.py:1162 | the filed keys are one per consideration, in order |
| Refinement.IncorporateFeedback | ai_ideation_engine.py:1154-1165 | the dictionary is updated in place to the incorporated record, or left unchanged with the error |
| Refinement.Incorporate | ai_ideation_engine.py:1154-1165 | incorporating fails with IndexError exactly when there are no lines or the drawn line lacks ": "; otherwise only the features (gaining the text after ": ") and the considerations change, the latter gaining the drawn guideline's line exactly when its key is not yet filed |
| Refinement.RoundEffect | ai_ideation_engine.py:1154-1165 | a round keeps name, purpose and catalog items and appends one feature taken from a feedback line after ": "; it keeps the considerations when the drawn guideline's key is already filed and otherwise appends that guideline's line |
| Refinement.IncorporateKeepsKeysDistinct | ai_ideation_engine.py:1161-1163 | incorporating feedback keeps the filed keys distinct |
| Refinement.RoundKeepsKeysDistinct | ai_ideation_engine.py:1088-1093 | a round keeps the filed keys distinct |
| Refinement.Round | ai_ideation_engine.py:1088-1093 | a round fails, with IndexError, exactly when features, resources, integration points or considerations are empty |
| Refinement.RefinementRound | ai_ideation_engine.py:1088-1093 | one pass updates the dictionary in place to the round's record, or leaves it unchanged and reports the round's error |
| Refinement.RefineFrom | ai_ideation_engine.py:1088-1093 | the rounds fail only with IndexError |
| Refinement.RunRounds | ai_ideation_engine.py:1088-1093 | the loop leaves the dictionary holding the refined record, or reports the refinement's error |
| Refinement.FailurePersists | ai_ideation_engine.py:1088-1093 | once a round fails, the refinement fails with that error |
| Refinement.RefineFromEffect | ai_ideation_engine.py:1088-1093 | the rounds keep name, purpose and catalog items, add one feature per round, and add at most one consideration per round, keeping the earlier ones |
| Refinement.RefineFromEntries | ai_ideation_engine.py:1088-1093 | the rounds keep every consideration a guideline line and the keys distinct |
| Refinement.RefineFromSucceeds | ai_ideation_engine.py:1088-1093 | the rounds cannot fail on a specification with non-empty lists |
| Refinement.EntryKeysInTable | ai_ideation_engine.py:1162 | the filed key of every guideline line is a guideline key |
| Refinement.EntriesBounded | ai_ideation_engine.py:1162-1163 | guideline lines with distinct keys number at most eight |
| Refinement.RefineFails | ai_ideation_engine.py:1084-1095 | refinement fails with IndexError exactly when no guideline was drawn at build time |
| Refinement.RefineShape | ai_ideation_engine.py:1084-1095 | a refined specification keeps name, purpose and catalog items, has six features starting with the three built ones, gains at most three considerations, has at most eight, and has distinct keys |
| Refinement.Refine | ai_ideation_engine.py:1084-1095 | refinement fails only with IndexError; a refined specification keeps the concept and its purpose and has six features, the three built ones first |
| Refinement.RefineConcept | ai_ideation_engine.py:1084-1095 | the method succeeds exactly when the refinement does, returning a fresh dictionary with the refined contents, or that refinement's error |
| KnowledgeStore.LastWords | ai_ideation_engine.py:1205 | one last-word result per feature, in order |
| KnowledgeStore.TagWordsMeaning | ai_ideation_engine.py:1204-1205 | the tags are the last words of the leading features, stopping at the first all-whitespace feature |
| KnowledgeStore.FirstId | ai_ideation_engine.py:1207-1208 | the tag id looked up is the first row holding the name |
| KnowledgeStore.FirstIdPrefix | ai_ideation_engine.py:1206-1208 | appending tag rows never changes the id an existing name resolves to |
| KnowledgeStore.NewEdges | ai_ideation_engine.py:1207-1210 | one link per tag, from the concept to the tag's first row |
| KnowledgeStore.NewEdgesBounded | ai_ideation_engine.py:1209-1210 | every new link names the concept and an existing tag row |
| KnowledgeStore.NewEdgesNameTheirTags | ai_ideation_engine.py:1206-1210 | the row each new link points to holds that link's tag name |
| KnowledgeStore.AppendTags | ai_ideation_engine.py:1204-1210 | the tag loop appends the features' tags and their links, and reports IndexError when a feature has no last word |
| KnowledgeStore.AppendLeading | ai_ideation_engine.py:1204-1210 | the loop appends tag rows and links up to the first missing word |
| KnowledgeStore.SearchRows | ai_ideation_engine.py:1214-1223 | every result is the name and description of a stored concept whose name, description or linked tag name matches the query, and every such concept is a result |
| KnowledgeStore.SearchFindsName | ai_ideation_engine.py:1221 | searching for a concept's name finds that concept |
| KnowledgeStore.SearchFindsTag | ai_ideation_engine.py:1219-1221 | searching for the name of a tag linked to a concept finds that concept, whatever its name and description |
| KnowledgeStore.SearchIgnoresCase | ai_ideation_engine.py:1221 | `LIKE` matching ignores ASCII case, so a lower-cased query finds the same rows |
| KnowledgeStore.JoinCountIsSharedSum | ai_ideation_engine.py:1228-1234 | the self-join count for a pair is the sum over tags of the product of their link multiplicities |
| KnowledgeStore.Pairs | ai_ideation_engine.py:1233-1234 | the candidate pairs are exactly the id pairs with `c1.id < c2.id`, without repeats |
| KnowledgeStore.Candidates | ai_ideation_engine.py:1234-1235 | a row is a candidate exactly when its pair is a candidate pair with more than one common tag |
| KnowledgeStore.CandidatesDistinct | ai_ideation_engine.py:1234 | each pair yields at most one row |
| KnowledgeStore.SortByCountSorts | ai_ideation_engine.py:1236 | the ordering is a permutation of the rows, in descending count |
| KnowledgeStore.SynergyIds | ai_ideation_engine.py:1228-1237 | at most ten pairs, each with ids in range, the first below the second, and its common-tag count, which is more than one |
| KnowledgeStore.FirstTenOfSorted | ai_ideation_engine.py:1236-1237 | the first ten of a descending order form a top-ten selection |
| KnowledgeStore.SynergyTopTen | ai_ideation_engine.py:1225-1239 | the report holds the first ten candidates (all of them when fewer), each once, in descending count, none outranked by a left-out candidate |
| KnowledgeStore.EdgeNamesAll | ai_ideation_engine.py:1405 | every link joins to a tag name |
| KnowledgeStore.Occ | ai_ideation_engine.py:1405 | a name's count is at least one when it occurs and never more than the total |
| KnowledgeStore.MaxOcc | ai_ideation_engine.py:1409 | the maximum count bounds every key's count and is attained by some key |
| KnowledgeStore.ScoreRange | ai_ideation_engine.py:1409 | `1 - max/total` lies in [0, 1) and is 0 exactly when the maximum is the total |
| KnowledgeStore.ScoreHalf | ai_ideation_engine.py:1409 | a maximum of half the total scores 0.5 |
| KnowledgeStore.Diversity | ai_ideation_engine.py:1403-1414 | the report fails with ValueError exactly when there are no tag links |
| KnowledgeStore.DiversityDistribution | ai_ideation_engine.py:1413 | the distribution maps exactly the linked tag names, each to its link count |
| KnowledgeStore.SumOccTotal | ai_ideation_engine.py:1408 | the counts of the distinct names add up to the number of links |
| KnowledgeStore.MaxOccRange | ai_ideation_engine.py:1409 | the largest count is between one and the total |
| KnowledgeStore.DiversityBounds | ai_ideation_engine.py:1403-1414 | the diversity score lies in [0, 1) |
| KnowledgeStore.MaxOccAll | ai_ideation_engine.py:1409 | the largest count is the total exactly when all links carry one name |
| KnowledgeStore.DiversityZero | ai_ideation_engine.py:1409 | the score is 0 exactly when all links carry one name |
| KnowledgeStore.DiversityHalf | ai_ideation_engine.py:1409 | two names with equal counts score 0.5 |
| KnowledgeStore.KnowledgeBase.constructor | ai_ideation_engine.py:911-932 | the store starts with four empty, consistent tables |
| KnowledgeStore.KnowledgeBase.Search | ai_ideation_engine.py:1214-1223 | the stored concepts whose name, description or linked tag name matches the query are exactly the ones returned, by name and description |
| KnowledgeStore.KnowledgeBase.Synergies | ai_ideation_engine.py:1225-1239 | at most ten pairs, each with more than one common tag |
| KnowledgeStore.KnowledgeBase.CheckDiversity | ai_ideation_engine.py:1403-1414 | the report fails exactly when no concept has a tag, and otherwise scores in [0, 1) |
| KnowledgeStore.KnowledgeBase.AddConcept | ai_ideation_engine.py:1191-1212 | one concept row, one specification row, the feature tags and their links are appended, references stay valid, and the new concept is found by searching its own name |
| KnowledgeStore.KnowledgeBase.AddTags | ai_ideation_engine.py:1204-1210 | the tables gain the features' tags and links, the other tables are unchanged and references stay valid |
| Metrics.RunningMeanIsMean | ai_ideation_engine.py:1450-1457 | when every new idea brings a score, the running update yields the mean of all scores |
| Metrics.RunningMeanBounds | ai_ideation_engine.py:1453 | a running average of scores in [0, 1] stays in [0, 1] |
| Metrics.DistinctShareRange | ai_ideation_engine.py:1462-1464 | the diversity score lies in [0, 1] and is 1 exactly when there are concepts and none repeats |
| Metrics.VocabularyShare | ai_ideation_engine.py:1462-1464 | the engine's own concept list scores 1 |
| Metrics.PerformanceMetrics.constructor | ai_ideation_engine.py:36-46 | every counter and average starts at 0 |
| Metrics.PerformanceMetrics.UpdatePerformanceMetrics | ai_ideation_engine.py:1443-1457 | each flag adds one to its counter, each score is folded into its running average, and a score with no ideas gives ZeroDivisionError |
| Metrics.PerformanceMetrics.CalculateDiversityScore | ai_ideation_engine.py:1459-1464 | only the diversity score changes, to the share of distinct concepts |
| Metrics.PerformanceMetrics.Performance | ai_ideation_engine.py:1518-1523 | the evaluation is the mean of the feasibility, impact and diversity averages, and lies in [0, 1] when they do |
| Metrics.Rate | ai_ideation_engine.py:1529-1534 | the learning rate after any history stays positive |
| Metrics.ImprovementModule.constructor | ai_ideation_engine.py:1513-1516 | empty history and rate 0.1 |
| Metrics.ImprovementModule.RecordPerformance | ai_ideation_engine.py:1526-1534 | the performance is appended, the rate moves by a factor of 1.1 after an improvement and 0.9 otherwise, and it stays positive |
| Filename.Chars | main.py:29 | iterating a string yields its characters, one per item |
| Filename.JoinKeptChars | main.py:29 | joining the kept one-character items gives the allowed characters in order |
| Filename.SafeFilenameMeaning | main.py:29 | the name is the allowed characters of the concept, in order, without their trailing spaces |
| Filename.SafeFilename | main.py:29 | the name is never longer than the concept, has only alphanumerics, spaces, hyphens and underscores, and never ends in whitespace |
| Filename.SafeFilenameSubsequence | main.py:29 | the name is a subsequence of the concept, so never longer |
| Filename.SafeFilenameIdempotent | main.py:29 | sanitising a sanitised name changes nothing |
| Filename.CompoundKeysDropped | main.py:40 | the five compound keys of a specification all contain an underscore, so none is kept |
| Filename.FirstTwoKeys | main.py:40 | "name" and "purpose" are kept whole |
| Filename.RefinedSpecName | main.py:40 | every refined specification is saved under the same name, "namepurpose" |

## Left out

- Database and file I/O: SQLite connections, commits, the `ethical_reviews` table, `save_specification`, logging. The store is modelled as in-memory rows. The JSON text of a specification row is the record itself.
- SQL `LIKE`: `%` and `_` inside a query are treated as literal characters, and SQLite's case folding is ASCII-only here.
- Floating point: scores are exact reals, so IEEE rounding, for example of `0.2 * 4` against `0.7`, is not modelled.
- Probability distributions: draws are parameters; the model says nothing about the probability of an outcome.
- The processing-time decorator and the wrapped copies of `generate_ideas`, `develop_specification`, `conduct_ethical_review`, `assess_feasibility` and `estimate_impact` (ai_ideation_engine.py:1475-1508, and the earlier copy at 601-634) are not modelled. Besides timing, each copy calls `update_performance_metrics` with `new_idea`, `concept_refined`, `ethical_review`, `feasibility_score` or `impact_score`; those calls are what feed the counters and running averages. The model does not connect the pipeline operations to the metrics: `Metrics.PerformanceMetrics.UpdatePerformanceMetrics` models the callee on its own, for any arguments.
- The concept vocabulary is fixed at its constructor value (`Catalog.Concepts`, ai_ideation_engine.py:24). `update_knowledge_base` (ai_ideation_engine.py:1555-1566) extends `self.concepts` with five generated idea sentences and removes the five least-used entries once the list passes 100; it is not modelled. Later `generate_ideas`, `develop_specification` and `calculate_diversity_score` calls see the changed list, which may hold repeats. So `Specification.ConceptsDistinct`, the two different concepts of `Specification.Idea`, and `Metrics.VocabularyShare` hold only until the first improvement cycle extends the list.
- Scoring.ConductEthicalReview: models only the approval decision and the ethical score. It does not model the review comments or the insert, whose `spec['id']` raises `KeyError`, because a built specification has no `id` key.
- Refinement.Advice: the generators' implicit `None` for a member outside their `if` chains is not modelled, because every panel member is matched.
- KMeans clustering, numpy, trend and need analysis, capability gaps, HTTP collaborators, and the report and phase-planning methods are outside the pipeline and are not modelled. `system/research_coordinator.py` is not part of this model.
- Metrics.ImprovementModule.RecordPerformance: models the history and learning-rate bookkeeping of `suggest_improvements`, not the idea generation and analysis that follow it. The performance value is a parameter that `Metrics.PerformanceMetrics.Performance` can supply.
- Metrics.PerformanceMetrics: the `processing_time`, `implementation_rate` and `user_satisfaction` entries are never updated by the modelled code, so they are not fields.
- Character classes: `isalnum`, `lower`, `upper` and `capitalize` are modelled on ASCII letters and digits; Unicode letters, digits and case mappings are not. Whitespace (`Text.IsSpace`) is Python's full `isspace` set.
- KnowledgeStore.SynergyTopTen: the order among rows with equal counts depends on SQLite's plan, so any order of equal counts is allowed.
- KnowledgeStore.KnowledgeBase.AddConcept: on `IndexError` from a feature without a last word, the rows appended before the failure stay, as they would in the open transaction; later rollback or commit is not modelled.
- KnowledgeStore.AppendTags: the tag loop works on sequence values and the store's fields are assigned once afterwards, so no intermediate state of the tables is observable.
