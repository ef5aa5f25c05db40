/** Collaborative refinement: three panels comment on a specification with
    templated lines, one line becomes a new feature, and a drawn guideline is
    added when its key is not yet among the considerations; three rounds. */
module Refinement {
  import opened Wrappers
  import opened Text
  import opened Catalog
  import opened Specification

  /** The draws one round makes, in the order the code makes them: a feature
      for the AI Ethics Expert and one for the Technical Architect, a resource,
      an integration point, a consideration for the Technology Ethicist, a
      guideline key for the Ethics Committee Chair, then the pooled line that
      becomes a feature and the guideline key that may be added. */
  datatype RoundDraws = RoundDraws(
    ethicsExpertFeature: nat,
    architectFeature: nat,
    resource: nat,
    integration: nat,
    ethicistConsideration: nat,
    chairGuideline: nat,
    line: nat,
    guideline: nat)

  /** Where a member's advice draws its subject from. */
  datatype Pool = KeyFeatures | RequiredResources | IntegrationPoints | EthicalConsiderations | GuidelineTable

  /** Which of the round's draws a member's pool item comes from. */
  datatype Slot = EthicsExpertFeature | ArchitectFeature | Resource | Integration | EthicistConsideration | ChairGuideline

  /** A member's advice: a fixed sentence, or a lead-in followed by an item
      drawn from a pool. */
  datatype Template = Fixed(text: string) | About(lead: string, pool: Pool, slot: Slot)

  /** A panel member: the name their lines start with and the advice they give
      (`generate_ai_feedback`, `generate_human_feedback`, `generate_ethical_feedback`). */
  datatype Member = Member(name: string, advice: Template)

  const AiPanel: seq<Member> := [
    Member("AI Ethics Expert", About("Consider the ethical implication of ", KeyFeatures, EthicsExpertFeature)),
    Member("Technical Architect", About("Optimize the implementation of ", KeyFeatures, ArchitectFeature)),
    Member("User Experience Specialist", Fixed("Improve the user interface for better accessibility")),
    Member("Resource Manager", About("Reduce the resource requirement for ", RequiredResources, Resource)),
    Member("Integration Specialist", About("Enhance integration with ", IntegrationPoints, Integration))
  ]

  const HumanExperts: seq<Member> := [
    Member("City Planner", Fixed("Consider the impact on urban infrastructure")),
    Member("Environmental Scientist", Fixed("Evaluate the environmental sustainability of the concept")),
    Member("Social Psychologist", Fixed("Assess the social implications and potential behavioral changes")),
    Member("Technology Ethicist", About("Address the ethical concerns related to ", EthicalConsiderations, EthicistConsideration)),
    Member("AI Researcher", Fixed("Explore potential advancements in AI algorithms to enhance functionality"))
  ]

  const EthicalReviewBoard: seq<Member> := [
    Member("Ethics Committee Chair", About("Ensure compliance with ethical guideline: ", GuidelineTable, ChairGuideline)),
    Member("Human Rights Advocate", Fixed("Consider the impact on individual rights and freedoms")),
    Member("AI Safety Researcher", Fixed("Implement additional safety measures to prevent unintended consequences")),
    Member("Philosophy Professor", Fixed("Explore the long-term philosophical implications of this technology")),
    Member("Public Policy Expert", Fixed("Assess the potential impact on existing policies and regulations"))
  ]

  /** The items a pool holds for specification `s`. */
  function Items(pool: Pool, s: SpecRecord): seq<string>
  {
    match pool
    case KeyFeatures => s.keyFeatures
    case RequiredResources => s.requiredResources
    case IntegrationPoints => s.integrationPoints
    case EthicalConsiderations => s.ethicalConsiderations
    case GuidelineTable => GuidelineKeys
  }

  function DrawOf(slot: Slot, d: RoundDraws): nat
  {
    match slot
    case EthicsExpertFeature => d.ethicsExpertFeature
    case ArchitectFeature => d.architectFeature
    case Resource => d.resource
    case Integration => d.integration
    case EthicistConsideration => d.ethicistConsideration
    case ChairGuideline => d.chairGuideline
  }

  /** Member `m` would draw from an empty list of `s`. */
  predicate Starved(m: Member, s: SpecRecord)
  {
    m.advice.About? && Items(m.advice.pool, s) == []
  }

  /** A member's advice on `s`: the fixed sentence, or the lead-in and an item
      of the pool; drawing from an empty list raises IndexError. */
  function Advice(m: Member, s: SpecRecord, d: RoundDraws): (r: Result<string, Fault>)
    ensures r.Failure? <==> Starved(m, s)
    ensures r.Failure? ==> r.error == IndexError
    ensures r.Success? && m.advice.Fixed? ==> r.value == m.advice.text
    ensures r.Success? && m.advice.About? ==>
      |m.advice.lead| <= |r.value| && r.value[..|m.advice.lead|] == m.advice.lead
      && r.value[|m.advice.lead|..] in Items(m.advice.pool, s)
  {
    match m.advice
    case Fixed(text) => Success(text)
    case About(lead, pool, slot) =>
      var x :- Choice(Items(pool, s), DrawOf(slot, d));
      assert (lead + x)[..|lead|] == lead && (lead + x)[|lead|..] == x;
      Success(lead + x)
  }

  /** The text every line of a member starts with; `verb` is the panel's. */
  function LineHead(m: Member, verb: string): string
  {
    m.name + " " + verb + ": "
  }

  /** The lines a panel gives on `s`: one per member, in panel order, each the
      member's name and the panel's verb followed by the member's advice;
      IndexError when a member would draw from an empty list. */
  function PanelFeedback(panel: seq<Member>, verb: string, s: SpecRecord, d: RoundDraws)
    : (r: Result<seq<string>, Fault>)
    ensures r.Failure? ==> r.error == IndexError
    ensures r.Success? ==> |r.value| == |panel| && forall i :: 0 <= i < |panel| ==>
      |LineHead(panel[i], verb)| <= |r.value[i]| && r.value[i][..|LineHead(panel[i], verb)|] == LineHead(panel[i], verb)
  {
    if exists i :: 0 <= i < |panel| && Starved(panel[i], s) then Failure(IndexError)
    else Success(seq(|panel|, i requires 0 <= i < |panel| => LineHead(panel[i], verb) + Advice(panel[i], s, d).value))
  }

  /** `get_ai_panel_feedback`, `get_human_expert_feedback` and
      `get_ethical_review_board_feedback`: ask each member in turn. */
  method GetPanelFeedback(panel: seq<Member>, verb: string, s: SpecRecord, d: RoundDraws)
    returns (r: Result<seq<string>, Fault>)
    ensures r == PanelFeedback(panel, verb, s, d)
  {
    var feedback: seq<string> := [];
    for k := 0 to |panel|
      invariant forall i :: 0 <= i < k ==> !Starved(panel[i], s)
      invariant |feedback| == k
      invariant forall i :: 0 <= i < k ==> feedback[i] == LineHead(panel[i], verb) + Advice(panel[i], s, d).value
    {
      var advice := Advice(panel[k], s, d);
      if advice.Failure? {
        return Failure(advice.error);
      }
      feedback := feedback + [LineHead(panel[k], verb) + advice.value];
    }
    assert feedback == seq(|panel|, i requires 0 <= i < |panel| => LineHead(panel[i], verb) + Advice(panel[i], s, d).value);
    return Success(feedback);
  }

  /** The three panels' lines, pooled in the order the code concatenates them:
      fifteen lines, or IndexError exactly when one of the lists a member
      draws from is empty. */
  function Feedback(s: SpecRecord, d: RoundDraws): (r: Result<seq<string>, Fault>)
    ensures r.Failure? <==>
      s.keyFeatures == [] || s.requiredResources == [] || s.integrationPoints == [] || s.ethicalConsiderations == []
    ensures r.Failure? ==> r.error == IndexError
    ensures r.Success? ==> |r.value| == |AiPanel| + |HumanExperts| + |EthicalReviewBoard|
  {
    PanelsFail(s, d);
    var ai :- PanelFeedback(AiPanel, "suggests", s, d);
    var human :- PanelFeedback(HumanExperts, "recommends", s, d);
    var board := PanelFeedback(EthicalReviewBoard, "advises", s, d).value;
    Success(ai + human + board)
  }

  /** Which lists each panel draws from; the review board draws only from the
      guideline table, so it never fails. */
  lemma PanelsFail(s: SpecRecord, d: RoundDraws)
    ensures PanelFeedback(AiPanel, "suggests", s, d).Failure? <==>
      s.keyFeatures == [] || s.requiredResources == [] || s.integrationPoints == []
    ensures PanelFeedback(HumanExperts, "recommends", s, d).Failure? <==> s.ethicalConsiderations == []
    ensures PanelFeedback(EthicalReviewBoard, "advises", s, d).Success?
  {
    AiPanelStarved(s);
    HumanExpertsStarved(s);
    BoardNeverStarved(s);
  }

  lemma AiPanelStarved(s: SpecRecord)
    ensures (exists i :: 0 <= i < |AiPanel| && Starved(AiPanel[i], s)) <==>
      s.keyFeatures == [] || s.requiredResources == [] || s.integrationPoints == []
  {
    assert Starved(AiPanel[0], s) <==> s.keyFeatures == [];
    assert Starved(AiPanel[3], s) <==> s.requiredResources == [];
    assert Starved(AiPanel[4], s) <==> s.integrationPoints == [];
  }

  lemma HumanExpertsStarved(s: SpecRecord)
    ensures (exists i :: 0 <= i < |HumanExperts| && Starved(HumanExperts[i], s)) <==> s.ethicalConsiderations == []
  {
    assert Starved(HumanExperts[3], s) <==> s.ethicalConsiderations == [];
  }

  lemma BoardNeverStarved(s: SpecRecord)
    ensures forall i :: 0 <= i < |EthicalReviewBoard| ==> !Starved(EthicalReviewBoard[i], s)
  {
    assert !Starved(EthicalReviewBoard[0], s);
  }

  /** The keys the existing considerations are filed under. */
  function EntryKeys(es: seq<string>): (r: seq<string>)
    ensures |r| == |es| && forall i :: 0 <= i < |es| ==> r[i] == EntryKey(es[i])
  {
    seq(|es|, i requires 0 <= i < |es| => EntryKey(es[i]))
  }

  /** `incorporate_feedback`: the second ": "-separated field of a drawn line
      becomes a feature, and the drawn guideline is added unless a
      consideration is already filed under its key. IndexError when there is
      no line to draw or the drawn line has no ": "; nothing else changes. */
  function Incorporate(s: SpecRecord, lines: seq<string>, d: RoundDraws): (r: Result<SpecRecord, Fault>)
    ensures r.Failure? <==> lines == [] || !Contains(lines[d.line % |lines|], ": ")
    ensures r.Failure? ==> r.error == IndexError
    ensures r.Success? ==>
      var line := lines[d.line % |lines|];
      var g := d.guideline % |GuidelineKeys|;
      && r.value.name == s.name && r.value.purpose == s.purpose
      && r.value.requiredResources == s.requiredResources
      && r.value.potentialChallenges == s.potentialChallenges
      && r.value.integrationPoints == s.integrationPoints
      && r.value.keyFeatures == s.keyFeatures + [SecondField(line, ": ").value]
      && (GuidelineKeys[g] in EntryKeys(s.ethicalConsiderations) ==>
            r.value.ethicalConsiderations == s.ethicalConsiderations)
      && (GuidelineKeys[g] !in EntryKeys(s.ethicalConsiderations) ==>
            r.value.ethicalConsiderations == s.ethicalConsiderations + [Entry(g)])
  {
    var line :- Choice(lines, d.line);
    match SecondField(line, ": ")
    case None => Failure(IndexError)
    case Some(feature) =>
      var g := d.guideline % |GuidelineKeys|;
      var ethics :=
        if GuidelineKeys[g] in EntryKeys(s.ethicalConsiderations) then s.ethicalConsiderations
        else s.ethicalConsiderations + [Entry(g)];
      Success(s.(keyFeatures := s.keyFeatures + [feature], ethicalConsiderations := ethics))
  }

  /** One round: gather the three panels' lines, then incorporate them. Every
      pooled line has a ": ", so a round fails (with IndexError) exactly when
      gathering the feedback does. */
  function Round(s: SpecRecord, d: RoundDraws): (r: Result<SpecRecord, Fault>)
    ensures r.Failure? <==>
      s.keyFeatures == [] || s.requiredResources == [] || s.integrationPoints == [] || s.ethicalConsiderations == []
    ensures r.Failure? ==> r.error == IndexError
  {
    var lines :- Feedback(s, d);
    FeedbackLines(s, d);
    assert lines[d.line % |lines|] in lines;
    Incorporate(s, lines, d)
  }

  /** The rounds in `rs`, in order, stopping at the first error. */
  function RefineFrom(s: SpecRecord, rs: seq<RoundDraws>): (r: Result<SpecRecord, Fault>)
    ensures r.Failure? ==> r.error == IndexError
  {
    if rs == [] then Success(s)
    else
      var t :- RefineFrom(s, rs[..|rs| - 1]);
      Round(t, rs[|rs| - 1])
  }

  /** `refine_concept(concept)`: a built specification refined over three
      rounds. It keeps the concept and its purpose and ends with the three
      built features followed by one per round; its only error is IndexError. */
  function Refine(concept: string, b: BuildDraws, rounds: seq<RoundDraws>): (r: Result<SpecRecord, Fault>)
    requires WellFormed(b) && |rounds| == 3
    ensures r.Failure? ==> r.error == IndexError
    ensures r.Success? ==>
      && r.value.name == concept && r.value.purpose == Purpose(concept)
      && |r.value.keyFeatures| == 6 && r.value.keyFeatures[..3] == Features(b.features)
  {
    var s := Specify(concept, b);
    var r := RefineFrom(s, rounds);
    if r.Failure? then r
    else
      RefineFromEffect(s, rounds);
      r
  }

  // ---------------------------------------------------------------- the imperative core

  /** `incorporate_feedback` on the specification in place; when the drawn line
      has no ": " the error is raised before anything is changed. */
  method IncorporateFeedback(spec: Spec, lines: seq<string>, d: RoundDraws) returns (outcome: Outcome<Fault>)
    modifies spec
    ensures Incorporate(old(spec.Record()), lines, d).Success? ==>
      outcome == Pass && spec.Record() == Incorporate(old(spec.Record()), lines, d).value
    ensures Incorporate(old(spec.Record()), lines, d).Failure? ==>
      outcome == Fail(Incorporate(old(spec.Record()), lines, d).error) && spec.Record() == old(spec.Record())
  {
    if lines == [] {
      return Fail(IndexError);
    }
    var line := lines[d.line % |lines|];
    var feature := SecondField(line, ": ");
    if feature.None? {
      return Fail(IndexError);
    }
    spec.keyFeatures := spec.keyFeatures + [feature.value];
    var g := d.guideline % |GuidelineKeys|;
    if GuidelineKeys[g] !in EntryKeys(spec.ethicalConsiderations) {
      spec.ethicalConsiderations := spec.ethicalConsiderations + [Entry(g)];
    }
    return Pass;
  }

  /** A failed round leaves every later round unrun. */
  lemma {:induction false} FailurePersists(s: SpecRecord, rs: seq<RoundDraws>, k: nat)
    requires k <= |rs| && RefineFrom(s, rs[..k]).Failure?
    ensures RefineFrom(s, rs).Failure? && RefineFrom(s, rs).error == RefineFrom(s, rs[..k]).error
    decreases |rs| - k
  {
    if k < |rs| {
      assert rs[..k + 1][..k] == rs[..k];
      FailurePersists(s, rs, k + 1);
    } else {
      assert rs[..k] == rs;
    }
  }

  /** One pass of the refinement loop: ask the three panels in turn, then
      incorporate their pooled lines into the specification in place. */
  method RefinementRound(spec: Spec, d: RoundDraws) returns (outcome: Outcome<Fault>)
    modifies spec
    ensures Round(old(spec.Record()), d).Success? ==>
      outcome == Pass && spec.Record() == Round(old(spec.Record()), d).value
    ensures Round(old(spec.Record()), d).Failure? ==>
      outcome == Fail(Round(old(spec.Record()), d).error) && spec.Record() == old(spec.Record())
  {
    PanelsFail(spec.Record(), d);
    var ai := GetPanelFeedback(AiPanel, "suggests", spec.Record(), d);
    if ai.Failure? {
      return Fail(ai.error);
    }
    var human := GetPanelFeedback(HumanExperts, "recommends", spec.Record(), d);
    if human.Failure? {
      return Fail(human.error);
    }
    var board := GetPanelFeedback(EthicalReviewBoard, "advises", spec.Record(), d);
    outcome := IncorporateFeedback(spec, ai.value + human.value + board.value, d);
  }

  /** The code's `for _ in range(3)` loop: one refinement pass per draw,
      stopping at the first error. */
  method RunRounds(spec: Spec, rounds: seq<RoundDraws>) returns (outcome: Outcome<Fault>)
    modifies spec
    ensures RefineFrom(old(spec.Record()), rounds).Success? ==>
      outcome == Pass && spec.Record() == RefineFrom(old(spec.Record()), rounds).value
    ensures RefineFrom(old(spec.Record()), rounds).Failure? ==>
      outcome == Fail(RefineFrom(old(spec.Record()), rounds).error)
  {
    ghost var start := spec.Record();
    assert rounds[..0] == [];
    for k := 0 to |rounds|
      invariant RefineFrom(start, rounds[..k]).Success?
      invariant spec.Record() == RefineFrom(start, rounds[..k]).value
    {
      assert rounds[..k + 1][..k] == rounds[..k];
      outcome := RefinementRound(spec, rounds[k]);
      if outcome.Fail? {
        FailurePersists(start, rounds, k + 1);
        return;
      }
    }
    assert rounds[..|rounds|] == rounds;
    outcome := Pass;
  }

  /** `refine_concept` as the code runs it: build, then three rounds that
      update the one specification in place. */
  method RefineConcept(concept: string, b: BuildDraws, rounds: seq<RoundDraws>) returns (r: Result<Spec, Fault>)
    requires WellFormed(b) && |rounds| == 3
    ensures r.Success? <==> Refine(concept, b, rounds).Success?
    ensures r.Success? ==> fresh(r.value) && r.value.Record() == Refine(concept, b, rounds).value
    ensures r.Failure? ==> r.error == Refine(concept, b, rounds).error
  {
    assert Refine(concept, b, rounds) == RefineFrom(Specify(concept, b), rounds);
    var spec := DevelopSpecification(concept, b);
    var outcome := RunRounds(spec, rounds);
    if outcome.Fail? {
      return Failure(outcome.error);
    }
    return Success(spec);
  }

  // ---------------------------------------------------------------- properties

  /** Every pooled line carries ": " right after its member's name and verb. */
  lemma FeedbackLines(s: SpecRecord, d: RoundDraws)
    requires Feedback(s, d).Success?
    ensures forall line :: line in Feedback(s, d).value ==> Contains(line, ": ")
  {
    PanelLines(AiPanel, "suggests", s, d);
    PanelLines(HumanExperts, "recommends", s, d);
    PanelLines(EthicalReviewBoard, "advises", s, d);
  }

  lemma PanelLines(panel: seq<Member>, verb: string, s: SpecRecord, d: RoundDraws)
    requires PanelFeedback(panel, verb, s, d).Success?
    ensures forall line :: line in PanelFeedback(panel, verb, s, d).value ==> Contains(line, ": ")
  {
    var lines := PanelFeedback(panel, verb, s, d).value;
    forall i | 0 <= i < |lines| ensures Contains(lines[i], ": ") {
      HeadHasSeparator(LineHead(panel[i], verb), Advice(panel[i], s, d).value);
    }
  }

  lemma HeadHasSeparator(head: string, advice: string)
    requires |head| >= 2 && head[|head| - 2..] == ": "
    ensures Contains(head + advice, ": ")
  {
    var n := |head|;
    assert (head + advice)[n - 2..n] == head[n - 2..] == ": ";
    assert MatchAt(head + advice, ": ", n - 2);
  }

  /** The guideline line the refinement may add, and the keys it keeps distinct. */
  predicate KeysDistinct(es: seq<string>)
  {
    forall i, j :: 0 <= i < j < |es| ==> EntryKey(es[i]) != EntryKey(es[j])
  }

  /** A successful round appends exactly one feature, the second field of one
      of the pooled lines; it adds at most one consideration, only under a key
      not yet present; and it leaves every other field as it was. */
  lemma RoundEffect(s: SpecRecord, d: RoundDraws)
    requires Round(s, d).Success?
    ensures var t := Round(s, d).value;
      && t.name == s.name && t.purpose == s.purpose
      && t.requiredResources == s.requiredResources
      && t.potentialChallenges == s.potentialChallenges
      && t.integrationPoints == s.integrationPoints
      && |t.keyFeatures| == |s.keyFeatures| + 1 && t.keyFeatures[..|s.keyFeatures|] == s.keyFeatures
      && (exists line :: line in Feedback(s, d).value && Some(t.keyFeatures[|s.keyFeatures|]) == SecondField(line, ": "))
      && var g := d.guideline % |GuidelineKeys|;
         && (GuidelineKeys[g] in EntryKeys(s.ethicalConsiderations) ==>
               t.ethicalConsiderations == s.ethicalConsiderations)
         && (GuidelineKeys[g] !in EntryKeys(s.ethicalConsiderations) ==>
               t.ethicalConsiderations == s.ethicalConsiderations + [Entry(g)])
  {
    var lines := Feedback(s, d).value;
    var line := lines[d.line % |lines|];
    assert line in lines;
    var t := Round(s, d).value;
    assert t.keyFeatures == s.keyFeatures + [SecondField(line, ": ").value];
  }

  /** What a round keeps, in the form the rounds compose: the other fields as
      they were, one more feature, and at most one more consideration, each
      list extending the old one. */
  lemma RoundGrows(s: SpecRecord, d: RoundDraws)
    requires Round(s, d).Success?
    ensures var t := Round(s, d).value;
      && t.name == s.name && t.purpose == s.purpose
      && t.requiredResources == s.requiredResources
      && t.potentialChallenges == s.potentialChallenges
      && t.integrationPoints == s.integrationPoints
      && |t.keyFeatures| == |s.keyFeatures| + 1 && t.keyFeatures[..|s.keyFeatures|] == s.keyFeatures
      && |s.ethicalConsiderations| <= |t.ethicalConsiderations| <= |s.ethicalConsiderations| + 1
      && t.ethicalConsiderations[..|s.ethicalConsiderations|] == s.ethicalConsiderations
  {
    var lines := Feedback(s, d).value;
    assert Round(s, d) == Incorporate(s, lines, d);
  }

  /** Incorporating feedback cannot break the distinctness of the
      consideration keys: a guideline entry is only added under a key that no
      consideration is filed under yet. */
  lemma IncorporateKeepsKeysDistinct(s: SpecRecord, lines: seq<string>, d: RoundDraws)
    requires Incorporate(s, lines, d).Success? && KeysDistinct(s.ethicalConsiderations)
    ensures KeysDistinct(Incorporate(s, lines, d).value.ethicalConsiderations)
  {
    var g := d.guideline % |GuidelineKeys|;
    var es := s.ethicalConsiderations;
    if GuidelineKeys[g] !in EntryKeys(es) {
      var t := es + [Entry(g)];
      assert Incorporate(s, lines, d).value.ethicalConsiderations == t;
      EntryKeyOfEntry(g);
      forall i, j | 0 <= i < j < |t| ensures EntryKey(t[i]) != EntryKey(t[j]) {
        if j == |es| {
          assert EntryKeys(es)[i] == EntryKey(es[i]);
        } else {
          assert t[i] == es[i] && t[j] == es[j];
        }
      }
    }
  }

  /** So does a whole round. */
  lemma RoundKeepsKeysDistinct(s: SpecRecord, d: RoundDraws)
    requires Round(s, d).Success? && KeysDistinct(s.ethicalConsiderations)
    ensures KeysDistinct(Round(s, d).value.ethicalConsiderations)
  {
    IncorporateKeepsKeysDistinct(s, Feedback(s, d).value, d);
  }

  /** Rounds only ever add: the other fields stay as they were, each round adds
      one feature, and the considerations grow by at most one guideline entry
      per round. */
  lemma {:induction false} RefineFromEffect(s: SpecRecord, rs: seq<RoundDraws>)
    requires RefineFrom(s, rs).Success?
    ensures var t := RefineFrom(s, rs).value;
      && t.name == s.name && t.purpose == s.purpose
      && t.requiredResources == s.requiredResources
      && t.potentialChallenges == s.potentialChallenges
      && t.integrationPoints == s.integrationPoints
      && |t.keyFeatures| == |s.keyFeatures| + |rs| && t.keyFeatures[..|s.keyFeatures|] == s.keyFeatures
      && |s.ethicalConsiderations| <= |t.ethicalConsiderations| <= |s.ethicalConsiderations| + |rs|
      && t.ethicalConsiderations[..|s.ethicalConsiderations|] == s.ethicalConsiderations
  {
    if rs != [] {
      var init := rs[..|rs| - 1];
      RefineFromEffect(s, init);
      var u := RefineFrom(s, init).value;
      RoundGrows(u, rs[|rs| - 1]);
      var t := RefineFrom(s, rs).value;
      assert t.keyFeatures[..|s.keyFeatures|] == u.keyFeatures[..|u.keyFeatures|][..|s.keyFeatures|];
      assert t.ethicalConsiderations[..|s.ethicalConsiderations|]
          == u.ethicalConsiderations[..|u.ethicalConsiderations|][..|s.ethicalConsiderations|];
    }
  }

  /** Every consideration the rounds add is a guideline entry, and the keys
      stay distinct when they started out distinct. */
  lemma {:induction false} RefineFromEntries(s: SpecRecord, rs: seq<RoundDraws>)
    requires RefineFrom(s, rs).Success?
    requires KeysDistinct(s.ethicalConsiderations)
    requires forall c :: c in s.ethicalConsiderations ==> IsEntry(c)
    ensures KeysDistinct(RefineFrom(s, rs).value.ethicalConsiderations)
    ensures forall c :: c in RefineFrom(s, rs).value.ethicalConsiderations ==> IsEntry(c)
  {
    if rs != [] {
      var init := rs[..|rs| - 1];
      RefineFromEntries(s, init);
      var u := RefineFrom(s, init).value;
      RoundEffect(u, rs[|rs| - 1]);
      RoundKeepsKeysDistinct(u, rs[|rs| - 1]);
    }
  }

  /** Rounds on a specification whose lists are all non-empty never fail. */
  lemma {:induction false} RefineFromSucceeds(s: SpecRecord, rs: seq<RoundDraws>)
    requires s.keyFeatures != [] && s.requiredResources != [] && s.integrationPoints != []
    requires s.ethicalConsiderations != []
    ensures RefineFrom(s, rs).Success?
  {
    if rs != [] {
      var init := rs[..|rs| - 1];
      RefineFromSucceeds(s, init);
      RefineFromEffect(s, init);
    }
  }

  /** Guideline entries are filed under the table's keys. */
  lemma EntryKeysInTable(es: seq<string>)
    requires forall c :: c in es ==> IsEntry(c)
    ensures forall k :: k in EntryKeys(es) ==> k in GuidelineKeys
  {
    var ks := EntryKeys(es);
    forall i | 0 <= i < |ks| ensures ks[i] in GuidelineKeys {
      assert es[i] in es;
      var g :| 0 <= g < |GuidelineKeys| && es[i] == Entry(g);
      EntryKeyOfEntry(g);
    }
  }

  /** Considerations that are guideline entries under distinct keys number at
      most eight, one per guideline. */
  lemma EntriesBounded(es: seq<string>)
    requires KeysDistinct(es)
    requires forall c :: c in es ==> IsEntry(c)
    ensures |es| <= |GuidelineKeys|
  {
    var ks := EntryKeys(es);
    EntryKeysInTable(es);
    DistinctCount(ks);
    ElementsCount(GuidelineKeys);
    var keys := set k | k in ks;
    var table := set k | k in GuidelineKeys;
    assert keys <= table;
    assert |table| == |keys| + |table - keys|;
  }

  /** `refine_concept` fails, with IndexError, exactly when the built
      specification has no ethical consideration: the Technology Ethicist then
      has nothing to draw from. */
  lemma RefineFails(concept: string, b: BuildDraws, rounds: seq<RoundDraws>)
    requires WellFormed(b) && |rounds| == 3
    ensures Refine(concept, b, rounds).Failure? <==> Considerations(b.coins) == []
    ensures Refine(concept, b, rounds).Failure? ==> Refine(concept, b, rounds).error == IndexError
  {
    var s := Specify(concept, b);
    if s.ethicalConsiderations == [] {
      assert rounds[..1] == [rounds[0]] && rounds[..1][..0] == [];
      FailurePersists(s, rounds, 1);
    } else {
      RefineFromSucceeds(s, rounds);
    }
  }

  /** A refined specification keeps the concept, purpose and catalog items,
      holds the three built features followed by one per round, and keeps the
      built considerations followed by at most three guideline entries: at
      most eight in all, under distinct keys. */
  lemma RefineShape(concept: string, b: BuildDraws, rounds: seq<RoundDraws>)
    requires WellFormed(b) && |rounds| == 3
    requires Refine(concept, b, rounds).Success?
    ensures var s := Specify(concept, b);
      var t := Refine(concept, b, rounds).value;
      && t.name == concept && t.purpose == Purpose(concept)
      && t.requiredResources == s.requiredResources
      && t.potentialChallenges == s.potentialChallenges
      && t.integrationPoints == s.integrationPoints
      && |t.keyFeatures| == 6 && t.keyFeatures[..3] == Features(b.features)
      && |Considerations(b.coins)| <= |t.ethicalConsiderations| <= |Considerations(b.coins)| + 3
      && t.ethicalConsiderations[..|Considerations(b.coins)|] == Considerations(b.coins)
      && |t.ethicalConsiderations| <= |GuidelineKeys|
      && KeysDistinct(t.ethicalConsiderations)
  {
    var s := Specify(concept, b);
    ConsiderationsDistinctKeys(b.coins);
    RefineFromEffect(s, rounds);
    RefineFromEntries(s, rounds);
    EntriesBounded(Refine(concept, b, rounds).value.ethicalConsiderations);
  }
}
