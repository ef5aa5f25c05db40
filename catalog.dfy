/** The engine's fixed vocabularies, its ethical guideline table, and the
    encoding of its random draws as explicit parameters. */
module Catalog {
  import opened Wrappers
  import opened Text

  /** The concept vocabulary set up by the engine's constructor. */
  const Concepts: seq<string> :=
    ["AI", "robotics", "quantum computing", "neural networks", "blockchain", "virtual reality"]

  /** The city challenges an idea is aimed at. */
  const Challenges: seq<string> :=
    ["energy efficiency", "data privacy", "ethical decision-making", "human-AI collaboration"]

  /** The catalogs a specification draws two items from. */
  const Resources: seq<string> := ["computing power", "data storage", "network bandwidth", "specialized hardware"]
  const PotentialChallenges: seq<string> := ["scalability", "data privacy", "user adoption", "technical complexity"]
  const Systems: seq<string> := ["Cultural Evolution Simulator", "Community Cohesion Network", "Cartographer of Light"]

  // ---------------------------------------------------------------- ethical guidelines

  /** `" ".join(words)`. */
  function Sentence(words: seq<string>): (r: string)
    ensures |words| == 1 ==> r == words[0]
  {
    if |words| == 0 then "" else if |words| == 1 then words[0] else words[0] + " " + Sentence(words[1..])
  }

  /** The guideline table's keys, in the table's (insertion) order. */
  const GuidelineKeys: seq<string> :=
    ["privacy", "fairness", "transparency", "accountability", "safety",
     "human_oversight", "environmental_impact", "social_good"]

  /** The words of the guideline table's descriptions, index for index with the keys. */
  const GuidelineWords: seq<seq<string>> := [
    ["Ensure", "user", "data", "is", "protected", "and", "used", "only", "with", "explicit", "consent"],
    ["Avoid", "bias", "and", "discrimination", "in", "AI", "decision-making", "processes"],
    ["Provide", "clear", "explanations", "of", "AI", "system", "functionality", "and", "decision", "rationale"],
    ["Establish", "clear", "lines", "of", "responsibility", "for", "AI", "system", "actions"],
    ["Implement", "robust", "safeguards", "to", "prevent", "harm", "to", "individuals", "or", "society"],
    ["Maintain", "meaningful", "human", "control", "over", "critical", "AI", "systems"],
    ["Minimize", "the", "ecological", "footprint", "of", "AI", "systems"],
    ["Prioritize", "AI", "applications", "that", "benefit", "humanity", "and", "the", "environment"]
  ]

  /** The description the table holds for guideline `g`. */
  function Description(g: nat): string
    requires g < |GuidelineWords|
  {
    Sentence(GuidelineWords[g])
  }

  /** Lower-casing a sentence cannot create a two-character run that no
      lower-cased word has, when neither character is a space. */
  lemma {:induction false} SentenceNoBigram(ws: seq<string>, x: char, y: char)
    requires x != ' ' && y != ' '
    requires forall w :: w in ws ==> !HasBigram(Lower(w), x, y)
    ensures !HasBigram(Lower(Sentence(ws)), x, y)
  {
    if |ws| > 1 {
      SentenceNoBigram(ws[1..], x, y);
      var head := Lower(ws[0]) + " ";
      assert !HasBigram(" ", x, y);
      BigramConcat(Lower(ws[0]), " ", x, y);
      BigramConcat(head, Lower(Sentence(ws[1..])), x, y);
      LowerConcat(ws[0], " ");
      LowerConcat(ws[0] + " ", Sentence(ws[1..]));
    } else if |ws| == 1 {
      assert ws[0] in ws;
    }
  }

  /** A guideline key is a lower-case identifier. */
  predicate IsKeyName(k: string)
  {
    k != [] && forall i :: 0 <= i < |k| ==> IsLower(k[i]) || k[i] == '_'
  }

  /** The consideration line written for guideline `g`: "Key.capitalize(): description". */
  function Entry(g: nat): string
    requires g < |GuidelineKeys|
  {
    Capitalize(GuidelineKeys[g]) + ": " + Description(g)
  }

  /** The key an existing consideration line is filed under: `c.split(":")[0].lower().strip()`.
      It holds no colon and no upper-case letter, and starts and ends with a
      non-space character. */
  function EntryKey(c: string): (r: string)
    ensures r == [] || (!IsSpace(r[0]) && !IsSpace(r[|r| - 1]))
    ensures forall i :: 0 <= i < |r| ==> r[i] != ':' && !IsUpper(r[i])
  {
    KeyCharacters(c);
    Strip(Lower(FirstField(c, ":")))
  }

  /** The characters of a key come from the lowered head of the line. */
  lemma KeyCharacters(c: string)
    ensures var r := Strip(Lower(FirstField(c, ":")));
      forall i :: 0 <= i < |r| ==> r[i] != ':' && !IsUpper(r[i])
  {
    LoweredHead(FirstField(c, ":"));
    StrippedKeyChars(Lower(FirstField(c, ":")));
  }

  /** The lowered text before the first colon holds neither a colon nor an upper-case letter. */
  lemma LoweredHead(h: string)
    requires !Contains(h, ":")
    ensures forall i :: 0 <= i < |Lower(h)| ==> Lower(h)[i] != ':' && !IsUpper(Lower(h)[i])
  {
    var l := Lower(h);
    forall i | 0 <= i < |h| ensures l[i] != ':' && !IsUpper(l[i]) {
      assert !MatchAt(h, ":", i);
      LoweredChar(h[i]);
    }
  }

  /** Stripping only removes characters, so it keeps a property every character has. */
  lemma StrippedKeyChars(l: string)
    requires forall i :: 0 <= i < |l| ==> l[i] != ':' && !IsUpper(l[i])
    ensures forall i :: 0 <= i < |Strip(l)| ==> Strip(l)[i] != ':' && !IsUpper(Strip(l)[i])
  {
    StripSlice(l);
  }

  /** Lowering leaves no upper-case letter and turns no other character into a colon. */
  lemma LoweredChar(ch: char)
    ensures !IsUpper(ToLower(ch))
    ensures ToLower(ch) == ':' ==> ch == ':'
  {
  }

  /** Every key of the table is a lower-case identifier. */
  lemma KeyName(g: nat)
    requires g < |GuidelineKeys|
    ensures IsKeyName(GuidelineKeys[g])
  {
    if g == 0 { assert IsKeyName("privacy"); }
    else if g == 1 { assert IsKeyName("fairness"); }
    else if g == 2 { assert IsKeyName("transparency"); }
    else if g == 3 { assert IsKeyName("accountability"); }
    else if g == 4 { assert IsKeyName("safety"); }
    else if g == 5 { assert IsKeyName("human_oversight"); }
    else if g == 6 { assert IsKeyName("environmental_impact"); }
    else { assert IsKeyName("social_good"); }
  }

  /** No key appears twice in the table (the keys even differ in length). */
  lemma GuidelineKeysDistinct()
    ensures forall g, h :: 0 <= g < h < |GuidelineKeys| ==> GuidelineKeys[g] != GuidelineKeys[h]
  {
    var lengths := [7, 8, 12, 14, 6, 15, 20, 11];
    assert forall g :: 0 <= g < 8 ==> |GuidelineKeys[g]| == lengths[g];
  }

  lemma LowerOfKeyName(k: string)
    requires IsKeyName(k)
    ensures Lower(k) == k && Lower(Capitalize(k)) == k
  {
    assert Lower(Capitalize(k))[0] == k[0];
    assert forall i :: 1 <= i < |k| ==> Lower(Capitalize(k))[i] == Capitalize(k)[1..][i - 1] == k[i];
  }

  lemma StripOfKeyName(k: string)
    requires IsKeyName(k)
    ensures Strip(k) == k
  {
    assert !IsSpace(k[|k| - 1]) && !IsSpace(k[0]);
    assert RStrip(k) == k;
  }

  /** The text before the first colon of a freshly written line is the capitalised key. */
  lemma HeadOfLine(k: string, text: string)
    requires IsKeyName(k)
    ensures FirstField(Capitalize(k) + ": " + text, ":") == Capitalize(k)
  {
    var line := Capitalize(k) + ": " + text;
    var head := FirstField(line, ":");
    assert MatchAt(line, ":", |k|) by { assert line[|k|..|k| + 1] == [line[|k|]]; }
    forall i | 0 <= i < |k| ensures line[i] != ':' {
      assert line[i] == Capitalize(k)[i];
      if i > 0 { assert Capitalize(k)[i] == Capitalize(k)[1..][i - 1] == ToLower(k[i]); }
    }
    IndexOfMeaning(line, ":");
    assert line[..|k|] == Capitalize(k);
  }

  /** Filing a freshly written consideration line gives back the key it was written for. */
  lemma EntryKeyOfLine(k: string, text: string)
    requires IsKeyName(k)
    ensures EntryKey(Capitalize(k) + ": " + text) == k
  {
    HeadOfLine(k, text);
    LowerOfKeyName(k);
    StripOfKeyName(k);
  }

  /** The consideration written for guideline `g` is filed under `g`'s key. */
  lemma EntryKeyOfEntry(g: nat)
    requires g < |GuidelineKeys|
    ensures EntryKey(Entry(g)) == GuidelineKeys[g]
  {
    KeyName(g);
    EntryKeyOfLine(GuidelineKeys[g], Description(g));
  }

  // ---------------------------------------------------------------- random draws

  /** `random.choice(xs)`: the element a draw `d` selects; every element is
      selected by some draw. An empty list raises IndexError. */
  function Choice<T>(xs: seq<T>, d: nat): (r: Result<T, Fault>)
    ensures r.Failure? <==> xs == []
    ensures r.Failure? ==> r.error == IndexError
    ensures r.Success? ==> r.value in xs
  {
    if xs == [] then Failure(IndexError) else Success(xs[d % |xs|])
  }

  /** `random.sample(range(n), 2)`: two distinct positions chosen by two draws. */
  function SamplePair(n: nat, d1: nat, d2: nat): (r: (nat, nat))
    requires n >= 2
    ensures r.0 < n && r.1 < n && r.0 != r.1
  {
    var i := d1 % n;
    var j := d2 % (n - 1);
    (i, if j >= i then j + 1 else j)
  }

  /** Every ordered pair of distinct positions is the outcome of some draw. */
  lemma SamplePairCovers(n: nat, i: nat, j: nat)
    requires n >= 2 && i < n && j < n && i != j
    ensures SamplePair(n, i, if j > i then j - 1 else j) == (i, j)
  {
    var k := if j > i then j - 1 else j;
    ModOfSmall(i, n);
    ModOfSmall(k, n - 1);
  }

  lemma ModOfSmall(x: nat, n: nat)
    requires x < n
    ensures x % n == x
  {
  }

  /** `random.sample(xs, 2)`. */
  function Sample2<T>(xs: seq<T>, d: (nat, nat)): (r: seq<T>)
    requires |xs| >= 2
    ensures |r| == 2
    ensures exists i, j :: 0 <= i < |xs| && 0 <= j < |xs| && i != j && r[0] == xs[i] && r[1] == xs[j]
  {
    var p := SamplePair(|xs|, d.0, d.1);
    [xs[p.0], xs[p.1]]
  }
}
