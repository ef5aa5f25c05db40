/** Idea generation and the specification builder: an idea sentence names two
    concepts and a challenge; a specification records a concept's purpose,
    three drawn features, two drawn items from each fixed catalog, and the
    guidelines whose coin came up. */
module Specification {
  import opened Wrappers
  import opened Text
  import opened Catalog

  /** The specification dictionary, as a value; its keys in insertion order are
      name, purpose, key_features, required_resources, potential_challenges,
      integration_points, ethical_considerations. */
  datatype SpecRecord = SpecRecord(
    name: string,
    purpose: string,
    keyFeatures: seq<string>,
    requiredResources: seq<string>,
    potentialChallenges: seq<string>,
    integrationPoints: seq<string>,
    ethicalConsiderations: seq<string>)

  /** The specification dictionary while it is being filled in and refined in place. */
  class Spec {
    var name: string
    var purpose: string
    var keyFeatures: seq<string>
    var requiredResources: seq<string>
    var potentialChallenges: seq<string>
    var integrationPoints: seq<string>
    var ethicalConsiderations: seq<string>

    function Record(): SpecRecord
      reads this
    {
      SpecRecord(name, purpose, keyFeatures, requiredResources, potentialChallenges, integrationPoints,
                 ethicalConsiderations)
    }

    /** The dictionary literal: name and purpose set, every list empty. */
    constructor (concept: string)
      ensures Record() == SpecRecord(concept, Purpose(concept), [], [], [], [], [])
    {
      name := concept;
      purpose := Purpose(concept);
      keyFeatures := [];
      requiredResources := [];
      potentialChallenges := [];
      integrationPoints := [];
      ethicalConsiderations := [];
    }
  }

  // ---------------------------------------------------------------- ideas

  /** The draws behind one idea: `random.sample(concepts, 2)` and `random.choice(challenges)`. */
  datatype IdeaDraw = IdeaDraw(pair: (nat, nat), challenge: nat)

  const IdeaTail: string := " in the Cities of Light"

  /** `idea` names two different concepts of the vocabulary (they sit at
      different positions, and the vocabulary holds no repeats) and one
      challenge in the fixed sentence. */
  predicate NamesItsParts(idea: string)
  {
    exists i, j, c :: 0 <= i < |Concepts| && 0 <= j < |Concepts| && i != j && 0 <= c < |Challenges| &&
      idea == "A " + Concepts[i] + " system that uses " + Concepts[j] + " to address " + Challenges[c] + IdeaTail
  }

  /** The idea sentence one set of draws produces. */
  function Idea(d: IdeaDraw): (r: string)
    ensures NamesItsParts(r)
  {
    DrawnPartsNamed(d);
    var combo := Sample2(Concepts, d.pair);
    "A " + combo[0] + " system that uses " + combo[1] + " to address " + Challenges[d.challenge % |Challenges|]
      + IdeaTail
  }

  /** The two concepts `random.sample` draws differ, so the sentence built from
      them names its parts. */
  lemma DrawnPartsNamed(d: IdeaDraw)
    ensures var combo := Sample2(Concepts, d.pair);
      NamesItsParts("A " + combo[0] + " system that uses " + combo[1] + " to address "
                    + Challenges[d.challenge % |Challenges|] + IdeaTail)
  {
    var p := SamplePair(|Concepts|, d.pair.0, d.pair.1);
    assert Sample2(Concepts, d.pair) == [Concepts[p.0], Concepts[p.1]];
  }

  /** `generate_ideas(num_ideas)`: one sentence per draw, in order. */
  method GenerateIdeas(numIdeas: nat, draws: seq<IdeaDraw>) returns (ideas: seq<string>)
    requires |draws| == numIdeas
    ensures |ideas| == numIdeas
    ensures forall i :: 0 <= i < numIdeas ==> ideas[i] == Idea(draws[i])
  {
    ideas := [];
    for k := 0 to numIdeas
      invariant |ideas| == k
      invariant forall i :: 0 <= i < k ==> ideas[i] == Idea(draws[i])
    {
      var idea := Idea(draws[k]);
      ideas := ideas + [idea];
    }
  }

  /** Every choice of two different concepts and a challenge is the idea of some draw. */
  lemma IdeaCovers(i: nat, j: nat, c: nat)
    requires i < |Concepts| && j < |Concepts| && i != j && c < |Challenges|
    ensures Idea(IdeaDraw((i, if j > i then j - 1 else j), c))
         == "A " + Concepts[i] + " system that uses " + Concepts[j] + " to address " + Challenges[c] + IdeaTail
  {
    var d := IdeaDraw((i, if j > i then j - 1 else j), c);
    SamplePairCovers(|Concepts|, i, j);
    assert Sample2(Concepts, d.pair) == [Concepts[i], Concepts[j]];
    ModOfSmall(c, |Challenges|);
  }

  // ---------------------------------------------------------------- purpose

  const Marker: string := "address "

  /** `f"To address {concept.split('address ')[-1]}"`: "To address " followed
      by the marker-free tail of the concept after its last marker, or by the
      whole concept when the marker does not occur (no error is raised). */
  function Purpose(concept: string): (r: string)
    ensures |r| >= |"To address "| && r[..|"To address "|] == "To address "
    ensures var tail := r[|"To address "|..];
      && |tail| <= |concept| && tail == concept[|concept| - |tail|..]
      && !Contains(tail, Marker)
      && (!Contains(concept, Marker) ==> tail == concept)
      && (Contains(concept, Marker) ==> MatchAt(concept, Marker, |concept| - |tail| - |Marker|))
  {
    AfterLastMeaning(concept, Marker);
    var tail := AfterLast(concept, Marker);
    assert ("To address " + tail)[|"To address "|..] == tail;
    "To address " + tail
  }

  /** The marker cannot overlap itself: no proper suffix of it is also a prefix. */
  lemma MarkerHasNoBorder()
    ensures forall k :: 0 < k < |Marker| ==> Marker[k..] != Marker[..|Marker| - k]
  {
    forall k | 0 < k < |Marker| ensures Marker[k..] != Marker[..|Marker| - k] {
      assert Marker[k..][|Marker| - k - 1] == ' ' != Marker[..|Marker| - k][|Marker| - k - 1];
    }
  }

  /** An occurrence of the marker rules out another one starting inside it. */
  lemma MarkerNotOverlapping(s: string, p: int, q: int)
    requires MatchAt(s, Marker, p) && p < q < p + |Marker|
    ensures !MatchAt(s, Marker, q)
  {
    MarkerHasNoBorder();
    assert s[q..p + |Marker|] == Marker[q - p..];
  }

  /** Two occurrences of the marker are at least its length apart. */
  lemma MarkerOccurrencesApart(s: string, p: int, q: int)
    ensures MatchAt(s, Marker, p) && MatchAt(s, Marker, q) && p < q ==> q >= p + |Marker|
  {
    if MatchAt(s, Marker, p) && p < q < p + |Marker| {
      MarkerNotOverlapping(s, p, q);
    }
  }

  /** When the marker occurs at `q` and not after it, the last piece of the split starts right after `q`. */
  lemma AfterLastMarker(s: string, q: nat)
    requires MatchAt(s, Marker, q) && !Contains(s[q + |Marker|..], Marker)
    ensures AfterLast(s, Marker) == s[q + |Marker|..]
  {
    assert Contains(s, Marker);
    AfterLastMeaning(s, Marker);
    var r := AfterLast(s, Marker);
    var p := |s| - |r| - |Marker|;
    assert MatchAt(s, Marker, p);
    MarkerOccurrencesApart(s, p, q);
    MarkerOccurrencesApart(s, q, p);
    MatchAtFromSuffix(s, p + |Marker|, Marker, q);
    MatchAtFromSuffix(s, q + |Marker|, Marker, p);
    assert p == q;
  }

  /** The purpose of a concept ending in "address " + tail, tail free of the marker, is "To address " + tail. */
  lemma PurposeAfterMarker(prefix: string, tail: string)
    requires !Contains(tail, Marker)
    ensures Purpose(prefix + Marker + tail) == "To address " + tail
  {
    var s := prefix + Marker + tail;
    assert s[|prefix|..|prefix| + |Marker|] == Marker;
    assert s[|prefix| + |Marker|..] == tail;
    AfterLastMarker(s, |prefix|);
  }

  /** No challenge followed by the idea's closing words contains the marker. */
  lemma ChallengeTailsUnmarked(c: nat)
    requires c < |Challenges|
    ensures !Contains(Challenges[c] + IdeaTail, Marker)
  {
    assert !HasBigram(IdeaTail, 'd', 'd');
    assert !HasBigram(Challenges[c], 'd', 'd');
    BigramConcat(Challenges[c], IdeaTail, 'd', 'd');
    NoBigramNoMatch(Challenges[c] + IdeaTail, Marker, 1);
  }

  /** Specifying a generated idea gives the purpose "To address <challenge> in the Cities of Light". */
  lemma PurposeOfIdea(d: IdeaDraw)
    ensures Purpose(Idea(d)) == "To address " + Challenges[d.challenge % |Challenges|] + IdeaTail
  {
    var combo := Sample2(Concepts, d.pair);
    var ch := Challenges[d.challenge % |Challenges|];
    ChallengeTailsUnmarked(d.challenge % |Challenges|);
    var prefix := "A " + combo[0] + " system that uses " + combo[1] + " to ";
    assert Idea(d) == prefix + Marker + (ch + IdeaTail);
    PurposeAfterMarker(prefix, ch + IdeaTail);
  }

  // ---------------------------------------------------------------- specification

  /** The draws behind one specification: three `random.choice(concepts)`, three
      `random.sample(_, 2)` and one `random.random() < 0.5` per guideline. */
  datatype BuildDraws = BuildDraws(
    features: seq<nat>,
    resources: (nat, nat),
    challenges: (nat, nat),
    systems: (nat, nat),
    coins: seq<bool>)

  predicate WellFormed(b: BuildDraws)
  {
    |b.features| == 3 && |b.coins| == |GuidelineKeys|
  }

  /** One generated feature. */
  function Feature(d: nat): string
  {
    "Feature related to " + Concepts[d % |Concepts|]
  }

  function Features(ds: seq<nat>): (r: seq<string>)
    ensures |r| == |ds|
    ensures forall f :: f in r ==> IsFeature(f)
  {
    FeaturesAreFeatures(ds);
    seq(|ds|, i requires 0 <= i < |ds| => Feature(ds[i]))
  }

  /** The positions of the guidelines whose coin came up, in table order. */
  function Picked(coins: seq<bool>): (r: seq<nat>)
    ensures forall i :: 0 <= i < |r| ==> r[i] < |coins| && coins[r[i]]
  {
    if coins == [] then []
    else Picked(coins[..|coins| - 1]) + (if coins[|coins| - 1] then [|coins| - 1] else [])
  }

  /** `generate_ethical_considerations`: the entry of each guideline whose coin
      came up, one line per picked position, in the same order. */
  function Considerations(coins: seq<bool>): (r: seq<string>)
    requires |coins| <= |GuidelineKeys|
    ensures |r| == |Picked(coins)|
    ensures forall i :: 0 <= i < |r| ==> r[i] == Entry(Picked(coins)[i])
  {
    if coins == [] then []
    else
      Considerations(coins[..|coins| - 1]) + (if coins[|coins| - 1] then [Entry(|coins| - 1)] else [])
  }

  /** Guidelines are picked in strictly increasing table order. */
  lemma {:induction false} PickedIncreasing(coins: seq<bool>)
    ensures forall i, j :: 0 <= i < j < |Picked(coins)| ==> Picked(coins)[i] < Picked(coins)[j]
  {
    if coins != [] {
      PickedIncreasing(coins[..|coins| - 1]);
    }
  }

  /** A guideline is picked exactly when its coin came up. */
  lemma {:induction false} PickedExactly(coins: seq<bool>)
    ensures forall g :: 0 <= g < |coins| ==> (coins[g] <==> g in Picked(coins))
  {
    if coins != [] {
      var init := coins[..|coins| - 1];
      PickedExactly(init);
      forall g | 0 <= g < |coins| ensures coins[g] <==> g in Picked(coins) {
        if g < |init| {
          assert init[g] == coins[g];
          assert |coins| - 1 != g;
        }
      }
    }
  }

  /** The specification the builder returns for one set of draws: it keeps
      the concept as its name, derives its purpose from it, and holds three
      features, each about a vocabulary concept, two different items of
      each fixed catalog, and the considerations of the guideline coins. */
  function Specify(concept: string, b: BuildDraws): (r: SpecRecord)
    requires WellFormed(b)
    ensures r.name == concept && r.purpose == Purpose(concept)
    ensures r.keyFeatures == Features(b.features)
    ensures |r.keyFeatures| == 3 && forall f :: f in r.keyFeatures ==> IsFeature(f)
    ensures r.ethicalConsiderations == Considerations(b.coins)
    ensures && |r.requiredResources| == 2 && r.requiredResources[0] != r.requiredResources[1]
            && (forall x :: x in r.requiredResources ==> x in Resources)
            && |r.potentialChallenges| == 2 && r.potentialChallenges[0] != r.potentialChallenges[1]
            && (forall x :: x in r.potentialChallenges ==> x in PotentialChallenges)
            && |r.integrationPoints| == 2 && r.integrationPoints[0] != r.integrationPoints[1]
            && (forall x :: x in r.integrationPoints ==> x in Systems)
  {
    CatalogsDistinct();
    SpecRecord(
      concept,
      Purpose(concept),
      Features(b.features),
      Sample2(Resources, b.resources),
      Sample2(PotentialChallenges, b.challenges),
      Sample2(Systems, b.systems),
      Considerations(b.coins))
  }

  /** `generate_ethical_considerations`: a pass over the guideline table. */
  method GenerateEthicalConsiderations(coins: seq<bool>) returns (considerations: seq<string>)
    requires |coins| == |GuidelineKeys|
    ensures considerations == Considerations(coins)
  {
    considerations := [];
    var g := 0;
    while g < |GuidelineKeys|
      invariant 0 <= g <= |GuidelineKeys|
      invariant considerations == Considerations(coins[..g])
    {
      assert coins[..g + 1][..g] == coins[..g];
      if coins[g] {
        considerations := considerations + [Entry(g)];
      }
      g := g + 1;
    }
    assert coins[..|GuidelineKeys|] == coins;
  }

  /** `develop_specification(concept)`: a fresh dictionary filled in field by field. */
  method DevelopSpecification(concept: string, b: BuildDraws) returns (spec: Spec)
    requires WellFormed(b)
    ensures fresh(spec)
    ensures spec.Record() == Specify(concept, b)
  {
    spec := new Spec(concept);
    var k := 0;
    while k < 3
      invariant 0 <= k <= 3
      invariant spec.Record() == SpecRecord(concept, Purpose(concept), Features(b.features[..k]), [], [], [], [])
    {
      assert Features(b.features[..k + 1]) == Features(b.features[..k]) + [Feature(b.features[k])];
      spec.keyFeatures := spec.keyFeatures + [Feature(b.features[k])];
      k := k + 1;
    }
    assert b.features[..3] == b.features;
    spec.requiredResources := Sample2(Resources, b.resources);
    spec.potentialChallenges := Sample2(PotentialChallenges, b.challenges);
    spec.integrationPoints := Sample2(Systems, b.systems);
    var ethics := GenerateEthicalConsiderations(b.coins);
    spec.ethicalConsiderations := ethics;
  }

  // ---------------------------------------------------------------- properties

  lemma ConceptsDistinct()
    ensures forall i, j :: 0 <= i < j < |Concepts| ==> Concepts[i] != Concepts[j]
  {
    assert Concepts[3][0] == 'n' && Concepts[5][0] == 'v';
    var lengths := [2, 8, 17, 15, 10, 15];
    assert forall i :: 0 <= i < |Concepts| ==> |Concepts[i]| == lengths[i];
  }

  lemma CatalogsDistinct()
    ensures forall i, j :: 0 <= i < j < |Resources| ==> Resources[i] != Resources[j]
    ensures forall i, j :: 0 <= i < j < |PotentialChallenges| ==> PotentialChallenges[i] != PotentialChallenges[j]
    ensures forall i, j :: 0 <= i < j < |Systems| ==> Systems[i] != Systems[j]
  {
    var r := [15, 12, 17, 20];
    assert forall i :: 0 <= i < |Resources| ==> |Resources[i]| == r[i];
    var c := [11, 12, 13, 20];
    assert forall i :: 0 <= i < |PotentialChallenges| ==> |PotentialChallenges[i]| == c[i];
    var s := [28, 26, 21];
    assert forall i :: 0 <= i < |Systems| ==> |Systems[i]| == s[i];
  }

  /** `f` reads "Feature related to <c>" for a concept `c` of the vocabulary. */
  predicate IsFeature(f: string)
  {
    exists c :: c in Concepts && f == "Feature related to " + c
  }

  /** Every generated feature is about a concept of the vocabulary. */
  lemma FeaturesAreFeatures(ds: seq<nat>)
    ensures forall i :: 0 <= i < |ds| ==> IsFeature(Feature(ds[i]))
  {
    forall i | 0 <= i < |ds| ensures IsFeature(Feature(ds[i])) {
      var c := Concepts[ds[i] % |Concepts|];
      assert Feature(ds[i]) == "Feature related to " + c;
    }
  }

  /** `c` is the line written for one of the table's guidelines. */
  predicate IsEntry(c: string)
  {
    exists g :: 0 <= g < |GuidelineKeys| && c == Entry(g)
  }

  /** The considerations are guideline entries in table order, so their keys
      are distinct and there are at most eight of them. */
  lemma ConsiderationsDistinctKeys(coins: seq<bool>)
    requires |coins| == |GuidelineKeys|
    ensures |Considerations(coins)| <= |GuidelineKeys|
    ensures forall c :: c in Considerations(coins) ==> IsEntry(c)
    ensures forall i, j :: 0 <= i < j < |Considerations(coins)| ==>
              EntryKey(Considerations(coins)[i]) != EntryKey(Considerations(coins)[j])
  {
    var e := Considerations(coins);
    var p := Picked(coins);
    PickedIncreasing(coins);
    GuidelineKeysDistinct();
    PickedBounded(p, |GuidelineKeys|);
    forall i | 0 <= i < |e|
      ensures EntryKey(e[i]) == GuidelineKeys[p[i]]
      ensures IsEntry(e[i])
    {
      EntryKeyOfEntry(p[i]);
      assert e[i] == Entry(p[i]);
    }
  }

  /** A guideline's entry is among the considerations exactly when its coin came up. */
  lemma ConsiderationsExactly(coins: seq<bool>)
    requires |coins| == |GuidelineKeys|
    ensures forall g :: 0 <= g < |GuidelineKeys| ==> (coins[g] <==> Entry(g) in Considerations(coins))
  {
    var e := Considerations(coins);
    var p := Picked(coins);
    PickedExactly(coins);
    GuidelineKeysDistinct();
    forall g | 0 <= g < |GuidelineKeys| ensures coins[g] <==> Entry(g) in e {
      if Entry(g) in e {
        var i :| 0 <= i < |e| && e[i] == Entry(g);
        EntryKeyOfEntry(g);
        EntryKeyOfEntry(p[i]);
        assert p[i] == g;
      }
      if coins[g] {
        var i :| 0 <= i < |p| && p[i] == g;
        assert e[i] == Entry(g);
      }
    }
  }

  /** A strictly increasing list of positions below `n` has at most `n` members. */
  lemma {:induction false} PickedBounded(p: seq<nat>, n: nat)
    requires forall i :: 0 <= i < |p| ==> p[i] < n
    requires forall i, j :: 0 <= i < j < |p| ==> p[i] < p[j]
    ensures |p| <= n
  {
    if p != [] {
      var last := p[|p| - 1];
      PickedBounded(p[..|p| - 1], last);
    }
  }
}
