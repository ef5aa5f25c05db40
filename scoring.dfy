/** The feasibility and impact scorers, the resource estimate and the
    approval rule of the ethical review, all computed from list lengths and
    from keyword matches in the ethical considerations. */
module Scoring {
  import opened Text
  import opened Catalog
  import opened Specification

  /** `max(0.0, min(1.0, x))`. */
  function Clamp(x: real): (r: real)
    ensures 0.0 <= r <= 1.0
    ensures 0.0 <= x <= 1.0 ==> r == x
    ensures x < 0.0 ==> r == 0.0
    ensures x > 1.0 ==> r == 1.0
  {
    if x < 0.0 then 0.0 else if x > 1.0 then 1.0 else x
  }

  /** `assess_technical_feasibility`: a score in [0, 1] that is full only for
      a specification with no features, integration points or challenges. */
  function TechnicalFeasibility(s: SpecRecord): (r: real)
    ensures 0.0 <= r <= 1.0
    ensures r == 1.0 <==> s.keyFeatures == [] && s.integrationPoints == [] && s.potentialChallenges == []
  {
    Clamp(1.0 - (|s.keyFeatures| as real * 0.1 + |s.integrationPoints| as real * 0.05
                 + |s.potentialChallenges| as real * 0.15))
  }

  /** `assess_resource_feasibility`: a score in [0, 1], full exactly when no
      resource is required and zero from five resources on. */
  function ResourceFeasibility(s: SpecRecord): (r: real)
    ensures 0.0 <= r <= 1.0
    ensures r == 1.0 <==> s.requiredResources == []
    ensures r == 0.0 <==> |s.requiredResources| >= 5
  {
    Clamp(1.0 - |s.requiredResources| as real * 0.2)
  }

  // ---------------------------------------------------------------- ethical feasibility

  /** The words the ethical assessment looks for, in the order it tests them. */
  const Keywords: seq<string> := ["privacy", "fairness", "transparency", "accountability", "safety"]

  /** How many of the keywords occur in `c.lower()`: the five tests made on each entry. */
  function Hits(c: string): (r: nat)
    ensures r <= |Keywords|
  {
    var l := Lower(c);
    (if Contains(l, Keywords[0]) then 1 else 0) + (if Contains(l, Keywords[1]) then 1 else 0)
    + (if Contains(l, Keywords[2]) then 1 else 0) + (if Contains(l, Keywords[3]) then 1 else 0)
    + (if Contains(l, Keywords[4]) then 1 else 0)
  }

  /** The accumulated score before capping: 0.2 per keyword found, entry by entry. */
  function EthicalSum(es: seq<string>): real
  {
    if es == [] then 0.0 else EthicalSum(es[..|es| - 1]) + 0.2 * Hits(es[|es| - 1]) as real
  }

  /** `assess_ethical_feasibility`: the accumulated score capped at 1, so a
      score in [0, 1] that is zero without considerations. */
  function EthicalFeasibility(es: seq<string>): (r: real)
    ensures 0.0 <= r <= 1.0
    ensures es == [] ==> r == 0.0
  {
    EthicalSumNonNegative(es);
    var sum := EthicalSum(es);
    if sum < 1.0 then sum else 1.0
  }

  lemma {:induction false} EthicalSumNonNegative(es: seq<string>)
    ensures EthicalSum(es) >= 0.0
  {
    if es != [] {
      EthicalSumNonNegative(es[..|es| - 1]);
    }
  }

  /** Adding entries never lowers the accumulated score. */
  lemma {:induction false} EthicalSumGrows(a: seq<string>, b: seq<string>)
    ensures EthicalSum(a) <= EthicalSum(a + b)
  {
    if b == [] {
      assert a + b == a;
    } else {
      EthicalSumGrows(a, b[..|b| - 1]);
      assert (a + b)[..|a + b| - 1] == a + b[..|b| - 1];
      assert EthicalSum(a + b) == EthicalSum(a + b[..|b| - 1]) + 0.2 * Hits(b[|b| - 1]) as real;
    }
  }

  /** The ethical score lies in [0, 1], and appending considerations never lowers it. */
  lemma EthicalFeasibilityBounds(a: seq<string>, b: seq<string>)
    ensures 0.0 <= EthicalFeasibility(a) <= 1.0
    ensures EthicalFeasibility(a) <= EthicalFeasibility(a + b)
  {
    EthicalSumNonNegative(a);
    EthicalSumGrows(a, b);
  }

  // ---------------------------------------------------------------- overall scores

  /** `assess_feasibility` on a built specification: the clamped mean of the three scores. */
  function OverallFeasibility(s: SpecRecord): real
  {
    Clamp((TechnicalFeasibility(s) + ResourceFeasibility(s) + EthicalFeasibility(s.ethicalConsiderations)) / 3.0)
  }

  /** `estimate_impact` on a built specification. */
  function Impact(s: SpecRecord): real
  {
    Clamp(|s.keyFeatures| as real * 0.2 + |s.integrationPoints| as real * 0.15
          + |s.ethicalConsiderations| as real * 0.1)
  }

  /** The three figures of `estimate_resource_requirements`. */
  datatype Estimate = Estimate(computePower: nat, storage: nat, developmentTime: nat)

  /** `estimate_resource_requirements` on a built specification. */
  function ResourceEstimate(s: SpecRecord): Estimate
  {
    Estimate(|s.keyFeatures| * 10, |s.keyFeatures| * 5, |s.keyFeatures| * 2 + |s.potentialChallenges|)
  }

  /** `assess_feasibility(concept)` scores a freshly built specification: with
      three features and two items per catalog, the result depends only on how
      many of the five keyword guidelines were drawn. */
  function AssessFeasibility(concept: string, b: BuildDraws): (r: real)
    requires WellFormed(b)
    ensures r == (0.9 + 0.2 * KeywordGuidelinesDrawn(b.coins) as real) / 3.0
  {
    EthicalSumOfConsiderations(b.coins);
    OverallFeasibility(Specify(concept, b))
  }

  /** `estimate_impact(concept)`: 0.9 when no guideline was drawn, full otherwise. */
  function EstimateImpact(concept: string, b: BuildDraws): (r: real)
    requires WellFormed(b)
    ensures r == if Considerations(b.coins) == [] then 0.9 else 1.0
  {
    Impact(Specify(concept, b))
  }

  /** `estimate_resource_requirements(concept)`: always 30 compute units,
      15 GB and 8 weeks, since a built specification has three features and
      two challenges. */
  function EstimateResourceRequirements(concept: string, b: BuildDraws): (r: Estimate)
    requires WellFormed(b)
    ensures r == Estimate(30, 15, 8)
  {
    ResourceEstimate(Specify(concept, b))
  }

  /** Every score lies in [0, 1]. */
  lemma ScoresInRange(s: SpecRecord)
    ensures 0.0 <= TechnicalFeasibility(s) <= 1.0
    ensures 0.0 <= ResourceFeasibility(s) <= 1.0
    ensures 0.0 <= EthicalFeasibility(s.ethicalConsiderations) <= 1.0
    ensures 0.0 <= OverallFeasibility(s) <= 1.0
    ensures 0.0 <= Impact(s) <= 1.0
  {
    EthicalFeasibilityBounds(s.ethicalConsiderations, []);
  }

  /** On a freshly built specification (three features, two items per catalog)
      the technical score is 0.3, the resource score 0.6, the estimate is
      30/15/8, and the impact is 0.9 with no considerations and 1.0 otherwise. */
  lemma FreshSpecificationScores(concept: string, b: BuildDraws)
    requires WellFormed(b)
    ensures TechnicalFeasibility(Specify(concept, b)) == 0.3
    ensures ResourceFeasibility(Specify(concept, b)) == 0.6
    ensures EstimateResourceRequirements(concept, b) == Estimate(30, 15, 8)
    ensures EstimateImpact(concept, b) == if Considerations(b.coins) == [] then 0.9 else 1.0
  {
  }

  // ---------------------------------------------------------------- which entries hold keywords

  /** A guideline line lacks `p` when one two-character run of `p` occurs neither
      in the key nor in any lower-cased word of the description. */
  lemma EntryLacks(g: nat, p: string, j: nat)
    requires g < |GuidelineKeys| && j + 1 < |p|
    requires p[j] !in " :" && p[j + 1] !in " :"
    requires !HasBigram(GuidelineKeys[g], p[j], p[j + 1])
    requires forall w :: w in GuidelineWords[g] ==> !HasBigram(Lower(w), p[j], p[j + 1])
    ensures !Contains(Lower(Entry(g)), p)
  {
    var k := GuidelineKeys[g];
    var x, y := p[j], p[j + 1];
    KeyName(g);
    LowerOfKeyName(k);
    LowerConcat(Capitalize(k), ": ");
    LowerConcat(Capitalize(k) + ": ", Description(g));
    assert Lower(": ") == ": ";
    SentenceNoBigram(GuidelineWords[g], x, y);
    assert !HasBigram(": ", x, y);
    BigramConcat(k, ": ", x, y);
    BigramConcat(k + ": ", Lower(Description(g)), x, y);
    NoBigramNoMatch(Lower(Entry(g)), p, j);
  }

  /** A keyword guideline's line starts with its own key once lower-cased. */
  lemma EntryHoldsOwnKey(g: nat)
    requires g < |GuidelineKeys|
    ensures Contains(Lower(Entry(g)), GuidelineKeys[g])
  {
    var k := GuidelineKeys[g];
    KeyName(g);
    LowerOfKeyName(k);
    LowerConcat(Capitalize(k), ": " + Description(g));
    assert Entry(g) == Capitalize(k) + (": " + Description(g));
    assert MatchAt(Lower(Entry(g)), k, 0);
  }

  /** The description words of each guideline, lower-cased. */
  const LoweredWords: seq<seq<string>> := [
    ["ensure", "user", "data", "is", "protected", "and", "used", "only", "with", "explicit", "consent"],
    ["avoid", "bias", "and", "discrimination", "in", "ai", "decision-making", "processes"],
    ["provide", "clear", "explanations", "of", "ai", "system", "functionality", "and", "decision", "rationale"],
    ["establish", "clear", "lines", "of", "responsibility", "for", "ai", "system", "actions"],
    ["implement", "robust", "safeguards", "to", "prevent", "harm", "to", "individuals", "or", "society"],
    ["maintain", "meaningful", "human", "control", "over", "critical", "ai", "systems"],
    ["minimize", "the", "ecological", "footprint", "of", "ai", "systems"],
    ["prioritize", "ai", "applications", "that", "benefit", "humanity", "and", "the", "environment"]
  ]

  /** The lower-cased words table agrees with the table's description words. */
  predicate WordsLowered(g: nat)
    requires g < |GuidelineWords| && g < |LoweredWords|
  {
    |LoweredWords[g]| == |GuidelineWords[g]|
    && forall i :: 0 <= i < |GuidelineWords[g]| ==> Lower(GuidelineWords[g][i]) == LoweredWords[g][i]
  }

  lemma AllWordsLowered(g: nat)
    requires g < |GuidelineWords|
    ensures WordsLowered(g)
  {
    if g == 0 { PrivacyWordsLowered(); }
    else if g == 1 { FairnessWordsLowered(); }
    else if g == 2 { TransparencyWordsLowered(); }
    else if g == 3 { AccountabilityWordsLowered(); }
    else if g == 4 { SafetyWordsLowered(); }
    else if g == 5 { HumanOversightWordsLowered(); }
    else if g == 6 { EnvironmentalImpactWordsLowered(); }
    else { SocialGoodWordsLowered(); }
  }

  /** A guideline line lacks `p` when one two-character run of `p` occurs
      neither in the key nor in any lower-cased description word. */
  lemma LineLacks(g: nat, p: string, j: nat)
    requires g < |GuidelineKeys| && j + 1 < |p|
    requires p[j] !in " :" && p[j + 1] !in " :"
    requires var k := GuidelineKeys[g]; p[j] !in k || p[j + 1] !in k || !HasBigram(k, p[j], p[j + 1])
    requires forall i :: 0 <= i < |LoweredWords[g]| ==>
      p[j] !in LoweredWords[g][i] || p[j + 1] !in LoweredWords[g][i] || !HasBigram(LoweredWords[g][i], p[j], p[j + 1])
    ensures !Contains(Lower(Entry(g)), p)
  {
    AllWordsLowered(g);
    var k := GuidelineKeys[g];
    if p[j] !in k || p[j + 1] !in k {
      AbsentNoBigram(k, p[j], p[j + 1]);
    }
    forall w | w in GuidelineWords[g] ensures !HasBigram(Lower(w), p[j], p[j + 1]) {
      var i :| 0 <= i < |GuidelineWords[g]| && GuidelineWords[g][i] == w;
      var l := LoweredWords[g][i];
      if p[j] !in l || p[j + 1] !in l {
        AbsentNoBigram(l, p[j], p[j + 1]);
      }
    }
    EntryLacks(g, p, j);
  }

  lemma PrivacyWordsLowered()
    ensures WordsLowered(0)
  {
    assert Lower(GuidelineWords[0][0]) == "ensure";
    assert Lower(GuidelineWords[0][1]) == "user";
    assert Lower(GuidelineWords[0][2]) == "data";
    assert Lower(GuidelineWords[0][3]) == "is";
    assert Lower(GuidelineWords[0][4]) == "protected";
    assert Lower(GuidelineWords[0][5]) == "and";
    assert Lower(GuidelineWords[0][6]) == "used";
    assert Lower(GuidelineWords[0][7]) == "only";
    assert Lower(GuidelineWords[0][8]) == "with";
    assert Lower(GuidelineWords[0][9]) == "explicit";
    assert Lower(GuidelineWords[0][10]) == "consent";
  }

  lemma PrivacyLineLacksFairness()
    ensures !Contains(Lower(Entry(0)), "fairness")
  {
    LineLacks(0, "fairness", 0);
  }

  lemma PrivacyLineLacksTransparency()
    ensures !Contains(Lower(Entry(0)), "transparency")
  {
    LineLacks(0, "transparency", 4);
  }

  lemma PrivacyLineLacksAccountability()
    ensures !Contains(Lower(Entry(0)), "accountability")
  {
    LineLacks(0, "accountability", 3);
  }

  lemma PrivacyLineLacksSafety()
    ensures !Contains(Lower(Entry(0)), "safety")
  {
    LineLacks(0, "safety", 0);
  }

  lemma PrivacyLineHits()
    ensures Hits(Entry(0)) == 1
  {
    EntryHoldsOwnKey(0);
    PrivacyLineLacksFairness();
    PrivacyLineLacksTransparency();
    PrivacyLineLacksAccountability();
    PrivacyLineLacksSafety();
  }

  lemma FairnessWordsLowered()
    ensures WordsLowered(1)
  {
    assert Lower(GuidelineWords[1][0]) == "avoid";
    assert Lower(GuidelineWords[1][1]) == "bias";
    assert Lower(GuidelineWords[1][2]) == "and";
    assert Lower(GuidelineWords[1][3]) == "discrimination";
    assert Lower(GuidelineWords[1][4]) == "in";
    assert Lower(GuidelineWords[1][5]) == "ai";
    assert Lower(GuidelineWords[1][6]) == "decision-making";
    assert Lower(GuidelineWords[1][7]) == "processes";
  }

  lemma FairnessLineLacksPrivacy()
    ensures !Contains(Lower(Entry(1)), "privacy")
  {
    LineLacks(1, "privacy", 5);
  }

  lemma FairnessLineLacksTransparency()
    ensures !Contains(Lower(Entry(1)), "transparency")
  {
    LineLacks(1, "transparency", 5);
  }

  lemma FairnessLineLacksAccountability()
    ensures !Contains(Lower(Entry(1)), "accountability")
  {
    LineLacks(1, "accountability", 3);
  }

  lemma FairnessLineLacksSafety()
    ensures !Contains(Lower(Entry(1)), "safety")
  {
    LineLacks(1, "safety", 3);
  }

  lemma FairnessLineHits()
    ensures Hits(Entry(1)) == 1
  {
    EntryHoldsOwnKey(1);
    FairnessLineLacksPrivacy();
    FairnessLineLacksTransparency();
    FairnessLineLacksAccountability();
    FairnessLineLacksSafety();
  }

  lemma TransparencyWordsLowered()
    ensures WordsLowered(2)
  {
    assert Lower(GuidelineWords[2][0]) == "provide";
    assert Lower(GuidelineWords[2][1]) == "clear";
    assert Lower(GuidelineWords[2][2]) == "explanations";
    assert Lower(GuidelineWords[2][3]) == "of";
    assert Lower(GuidelineWords[2][4]) == "ai";
    assert Lower(GuidelineWords[2][5]) == "system";
    assert Lower(GuidelineWords[2][6]) == "functionality";
    assert Lower(GuidelineWords[2][7]) == "and";
    assert Lower(GuidelineWords[2][8]) == "decision";
    assert Lower(GuidelineWords[2][9]) == "rationale";
  }

  lemma TransparencyLineLacksPrivacy()
    ensures !Contains(Lower(Entry(2)), "privacy")
  {
    LineLacks(2, "privacy", 3);
  }

  lemma TransparencyLineLacksFairness()
    ensures !Contains(Lower(Entry(2)), "fairness")
  {
    LineLacks(2, "fairness", 0);
  }

  lemma TransparencyLineLacksAccountability()
    ensures !Contains(Lower(Entry(2)), "accountability")
  {
    LineLacks(2, "accountability", 7);
  }

  lemma TransparencyLineLacksSafety()
    ensures !Contains(Lower(Entry(2)), "safety")
  {
    LineLacks(2, "safety", 2);
  }

  lemma TransparencyLineHits()
    ensures Hits(Entry(2)) == 1
  {
    EntryHoldsOwnKey(2);
    TransparencyLineLacksPrivacy();
    TransparencyLineLacksFairness();
    TransparencyLineLacksAccountability();
    TransparencyLineLacksSafety();
  }

  lemma AccountabilityWordsLowered()
    ensures WordsLowered(3)
  {
    assert Lower(GuidelineWords[3][0]) == "establish";
    assert Lower(GuidelineWords[3][1]) == "clear";
    assert Lower(GuidelineWords[3][2]) == "lines";
    assert Lower(GuidelineWords[3][3]) == "of";
    assert Lower(GuidelineWords[3][4]) == "responsibility";
    assert Lower(GuidelineWords[3][5]) == "for";
    assert Lower(GuidelineWords[3][6]) == "ai";
    assert Lower(GuidelineWords[3][7]) == "system";
    assert Lower(GuidelineWords[3][8]) == "actions";
  }

  lemma AccountabilityLineLacksPrivacy()
    ensures !Contains(Lower(Entry(3)), "privacy")
  {
    LineLacks(3, "privacy", 2);
  }

  lemma AccountabilityLineLacksFairness()
    ensures !Contains(Lower(Entry(3)), "fairness")
  {
    LineLacks(3, "fairness", 0);
  }

  lemma AccountabilityLineLacksTransparency()
    ensures !Contains(Lower(Entry(3)), "transparency")
  {
    LineLacks(3, "transparency", 5);
  }

  lemma AccountabilityLineLacksSafety()
    ensures !Contains(Lower(Entry(3)), "safety")
  {
    LineLacks(3, "safety", 1);
  }

  lemma AccountabilityLineHits()
    ensures Hits(Entry(3)) == 1
  {
    EntryHoldsOwnKey(3);
    AccountabilityLineLacksPrivacy();
    AccountabilityLineLacksFairness();
    AccountabilityLineLacksTransparency();
    AccountabilityLineLacksSafety();
  }

  lemma SafetyWordsLowered()
    ensures WordsLowered(4)
  {
    assert Lower(GuidelineWords[4][0]) == "implement";
    assert Lower(GuidelineWords[4][1]) == "robust";
    assert Lower(GuidelineWords[4][2]) == "safeguards";
    assert Lower(GuidelineWords[4][3]) == "to";
    assert Lower(GuidelineWords[4][4]) == "prevent";
    assert Lower(GuidelineWords[4][5]) == "harm";
    assert Lower(GuidelineWords[4][6]) == "to";
    assert Lower(GuidelineWords[4][7]) == "individuals";
    assert Lower(GuidelineWords[4][8]) == "or";
    assert Lower(GuidelineWords[4][9]) == "society";
  }

  lemma SafetyLineLacksPrivacy()
    ensures !Contains(Lower(Entry(4)), "privacy")
  {
    LineLacks(4, "privacy", 1);
  }

  lemma SafetyLineLacksFairness()
    ensures !Contains(Lower(Entry(4)), "fairness")
  {
    LineLacks(4, "fairness", 2);
  }

  lemma SafetyLineLacksTransparency()
    ensures !Contains(Lower(Entry(4)), "transparency")
  {
    LineLacks(4, "transparency", 4);
  }

  lemma SafetyLineLacksAccountability()
    ensures !Contains(Lower(Entry(4)), "accountability")
  {
    LineLacks(4, "accountability", 0);
  }

  lemma SafetyLineHits()
    ensures Hits(Entry(4)) == 1
  {
    EntryHoldsOwnKey(4);
    SafetyLineLacksPrivacy();
    SafetyLineLacksFairness();
    SafetyLineLacksTransparency();
    SafetyLineLacksAccountability();
  }

  lemma HumanOversightWordsLowered()
    ensures WordsLowered(5)
  {
    assert Lower(GuidelineWords[5][0]) == "maintain";
    assert Lower(GuidelineWords[5][1]) == "meaningful";
    assert Lower(GuidelineWords[5][2]) == "human";
    assert Lower(GuidelineWords[5][3]) == "control";
    assert Lower(GuidelineWords[5][4]) == "over";
    assert Lower(GuidelineWords[5][5]) == "critical";
    assert Lower(GuidelineWords[5][6]) == "ai";
    assert Lower(GuidelineWords[5][7]) == "systems";
  }

  lemma HumanOversightLineLacksPrivacy()
    ensures !Contains(Lower(Entry(5)), "privacy")
  {
    LineLacks(5, "privacy", 0);
  }

  lemma HumanOversightLineLacksFairness()
    ensures !Contains(Lower(Entry(5)), "fairness")
  {
    LineLacks(5, "fairness", 0);
  }

  lemma HumanOversightLineLacksTransparency()
    ensures !Contains(Lower(Entry(5)), "transparency")
  {
    LineLacks(5, "transparency", 4);
  }

  lemma HumanOversightLineLacksAccountability()
    ensures !Contains(Lower(Entry(5)), "accountability")
  {
    LineLacks(5, "accountability", 7);
  }

  lemma HumanOversightLineLacksSafety()
    ensures !Contains(Lower(Entry(5)), "safety")
  {
    LineLacks(5, "safety", 0);
  }

  lemma HumanOversightLineHits()
    ensures Hits(Entry(5)) == 0
  {
    HumanOversightLineLacksPrivacy();
    HumanOversightLineLacksFairness();
    HumanOversightLineLacksTransparency();
    HumanOversightLineLacksAccountability();
    HumanOversightLineLacksSafety();
  }

  lemma EnvironmentalImpactWordsLowered()
    ensures WordsLowered(6)
  {
    assert Lower(GuidelineWords[6][0]) == "minimize";
    assert Lower(GuidelineWords[6][1]) == "the";
    assert Lower(GuidelineWords[6][2]) == "ecological";
    assert Lower(GuidelineWords[6][3]) == "footprint";
    assert Lower(GuidelineWords[6][4]) == "of";
    assert Lower(GuidelineWords[6][5]) == "ai";
    assert Lower(GuidelineWords[6][6]) == "systems";
  }

  lemma EnvironmentalImpactLineLacksPrivacy()
    ensures !Contains(Lower(Entry(6)), "privacy")
  {
    LineLacks(6, "privacy", 5);
  }

  lemma EnvironmentalImpactLineLacksFairness()
    ensures !Contains(Lower(Entry(6)), "fairness")
  {
    LineLacks(6, "fairness", 0);
  }

  lemma EnvironmentalImpactLineLacksTransparency()
    ensures !Contains(Lower(Entry(6)), "transparency")
  {
    LineLacks(6, "transparency", 3);
  }

  lemma EnvironmentalImpactLineLacksAccountability()
    ensures !Contains(Lower(Entry(6)), "accountability")
  {
    LineLacks(6, "accountability", 3);
  }

  lemma EnvironmentalImpactLineLacksSafety()
    ensures !Contains(Lower(Entry(6)), "safety")
  {
    LineLacks(6, "safety", 0);
  }

  lemma EnvironmentalImpactLineHits()
    ensures Hits(Entry(6)) == 0
  {
    EnvironmentalImpactLineLacksPrivacy();
    EnvironmentalImpactLineLacksFairness();
    EnvironmentalImpactLineLacksTransparency();
    EnvironmentalImpactLineLacksAccountability();
    EnvironmentalImpactLineLacksSafety();
  }

  lemma SocialGoodWordsLowered()
    ensures WordsLowered(7)
  {
    assert Lower(GuidelineWords[7][0]) == "prioritize";
    assert Lower(GuidelineWords[7][1]) == "ai";
    assert Lower(GuidelineWords[7][2]) == "applications";
    assert Lower(GuidelineWords[7][3]) == "that";
    assert Lower(GuidelineWords[7][4]) == "benefit";
    assert Lower(GuidelineWords[7][5]) == "humanity";
    assert Lower(GuidelineWords[7][6]) == "and";
    assert Lower(GuidelineWords[7][7]) == "the";
    assert Lower(GuidelineWords[7][8]) == "environment";
  }

  lemma SocialGoodLineLacksPrivacy()
    ensures !Contains(Lower(Entry(7)), "privacy")
  {
    LineLacks(7, "privacy", 3);
  }

  lemma SocialGoodLineLacksFairness()
    ensures !Contains(Lower(Entry(7)), "fairness")
  {
    LineLacks(7, "fairness", 0);
  }

  lemma SocialGoodLineLacksTransparency()
    ensures !Contains(Lower(Entry(7)), "transparency")
  {
    LineLacks(7, "transparency", 1);
  }

  lemma SocialGoodLineLacksAccountability()
    ensures !Contains(Lower(Entry(7)), "accountability")
  {
    LineLacks(7, "accountability", 3);
  }

  lemma SocialGoodLineLacksSafety()
    ensures !Contains(Lower(Entry(7)), "safety")
  {
    LineLacks(7, "safety", 1);
  }

  lemma SocialGoodLineHits()
    ensures Hits(Entry(7)) == 0
  {
    SocialGoodLineLacksPrivacy();
    SocialGoodLineLacksFairness();
    SocialGoodLineLacksTransparency();
    SocialGoodLineLacksAccountability();
    SocialGoodLineLacksSafety();
  }

  /** Each of the five keyword guidelines' lines holds exactly one keyword (its
      own), and the other three lines hold none. */
  lemma EntryHits(g: nat)
    requires g < |GuidelineKeys|
    ensures Hits(Entry(g)) == if g < |Keywords| then 1 else 0
  {
    if g == 0 { PrivacyLineHits(); }
    else if g == 1 { FairnessLineHits(); }
    else if g == 2 { TransparencyLineHits(); }
    else if g == 3 { AccountabilityLineHits(); }
    else if g == 4 { SafetyLineHits(); }
    else if g == 5 { HumanOversightLineHits(); }
    else if g == 6 { EnvironmentalImpactLineHits(); }
    else { SocialGoodLineHits(); }
  }

  // ---------------------------------------------------------------- the review decision

  /** How many of the five keyword guidelines had their coin come up. */
  function KeywordGuidelinesDrawn(coins: seq<bool>): (r: nat)
    ensures r <= |coins| && r <= |Keywords|
  {
    if coins == [] then 0
    else
      var init := KeywordGuidelinesDrawn(coins[..|coins| - 1]);
      init + (if coins[|coins| - 1] && |coins| - 1 < |Keywords| then 1 else 0)
  }

  /** The accumulated ethical score of a built specification is 0.2 per keyword guideline drawn. */
  lemma {:induction false} EthicalSumOfConsiderations(coins: seq<bool>)
    requires |coins| <= |GuidelineKeys|
    ensures EthicalSum(Considerations(coins)) == 0.2 * KeywordGuidelinesDrawn(coins) as real
  {
    if coins != [] {
      var last := |coins| - 1;
      var init := coins[..last];
      var es := Considerations(coins);
      EthicalSumOfConsiderations(init);
      if coins[last] {
        EntryHits(last);
        assert es[..|es| - 1] == Considerations(init);
        assert EthicalSum(es) == EthicalSum(Considerations(init)) + 0.2 * Hits(Entry(last)) as real;
      } else {
        assert es == Considerations(init);
      }
    }
  }

  /** `conduct_ethical_review`'s decision. */
  datatype Status = Approved | NeedsRevision

  function ReviewStatus(ethicalScore: real): Status
  {
    if ethicalScore > 0.7 then Approved else NeedsRevision
  }

  /** The review of a concept scores its freshly built specification, and
      approves exactly when at least four of the five keyword guidelines were drawn. */
  function ConductEthicalReview(concept: string, b: BuildDraws): (r: Status)
    requires WellFormed(b)
    ensures r == Approved <==> KeywordGuidelinesDrawn(b.coins) >= 4
  {
    EthicalSumOfConsiderations(b.coins);
    ReviewStatus(EthicalFeasibility(Specify(concept, b).ethicalConsiderations))
  }

  /** The ethical score of a built specification is 0.2 times the number of
      keyword guidelines drawn, and the review approves exactly when at least
      four of the five were drawn. */
  lemma ReviewOfBuiltSpecification(concept: string, b: BuildDraws)
    requires WellFormed(b)
    ensures EthicalFeasibility(Specify(concept, b).ethicalConsiderations)
         == 0.2 * KeywordGuidelinesDrawn(b.coins) as real
    ensures ConductEthicalReview(concept, b) == Approved <==> KeywordGuidelinesDrawn(b.coins) >= 4
  {
    EthicalSumOfConsiderations(b.coins);
  }

  lemma EthicalSumOfTwo(c0: string, c1: string)
    ensures EthicalSum([c0, c1]) == 0.2 * Hits(c0) as real + 0.2 * Hits(c1) as real
  {
    assert [c0, c1][..1] == [c0];
    assert [c0][..0] == [];
    assert EthicalSum([c0]) == 0.2 * Hits(c0) as real;
  }

  /** The privacy and fairness lines together score 0.4 and need revision. */
  lemma PrivacyAndFairnessScore()
    ensures EthicalFeasibility([Entry(0), Entry(1)]) == 0.4
    ensures ReviewStatus(EthicalFeasibility([Entry(0), Entry(1)])) == NeedsRevision
  {
    PrivacyLineHits();
    FairnessLineHits();
    EthicalSumOfTwo(Entry(0), Entry(1));
  }
}
