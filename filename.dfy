/** The file-name sanitiser the driver applies before writing a specification:
    keep the alphanumeric items and the items ' ', '-' and '_', join them,
    and strip trailing whitespace. */
module Filename {
  import opened Text

  /** The items the filter keeps: `c.isalnum() or c in (' ', '-', '_')`,
      where `isalnum` holds of a non-empty all-alphanumeric string. */
  predicate Kept(item: string)
  {
    (item != [] && forall k :: 0 <= k < |item| ==> IsAlnum(item[k])) || item == " " || item == "-" || item == "_"
  }

  /** The characters kept from a one-character item. */
  predicate KeptChar(c: char)
  {
    IsAlnum(c) || c == ' ' || c == '-' || c == '_'
  }

  /** `"".join([c for c in items if ...])`. */
  function JoinKept(items: seq<string>): string
  {
    if items == [] then "" else (if Kept(items[0]) then items[0] else "") + JoinKept(items[1..])
  }

  /** The expression over whatever the driver iterates: the characters of a
      concept string, or the keys of a refined specification dictionary. */
  function Sanitize(items: seq<string>): string
  {
    RStrip(JoinKept(items))
  }

  /** The characters of `s`, one item each, as iterating a string yields them. */
  function Chars(s: string): (r: seq<string>)
    ensures |r| == |s|
    ensures forall i :: 0 <= i < |s| ==> r[i] == [s[i]]
  {
    seq(|s|, i requires 0 <= i < |s| => [s[i]])
  }

  /** The allowed characters of `s`, in order. */
  function KeptChars(s: string): (r: string)
    ensures |r| <= |s|
  {
    if s == [] then "" else (if KeptChar(s[0]) then [s[0]] else "") + KeptChars(s[1..])
  }

  /** The name a concept's specification is saved under: never longer than
      the concept, holding only alphanumerics, spaces, hyphens and underscores,
      and never ending in whitespace. */
  function SafeFilename(s: string): (r: string)
    ensures |r| <= |s|
    ensures forall k :: 0 <= k < |r| ==> KeptChar(r[k])
    ensures r == [] || !IsSpace(r[|r| - 1])
  {
    JoinKeptChars(s);
    KeptCharsAllowed(s);
    var r := Sanitize(Chars(s));
    assert forall k :: 0 <= k < |r| ==> r[k] == KeptChars(s)[k];
    r
  }

  lemma KeptSingle(c: char)
    ensures Kept([c]) <==> KeptChar(c)
  {
  }

  /** Over a string, the join of kept items is the string's kept characters. */
  lemma {:induction false} JoinKeptChars(s: string)
    ensures JoinKept(Chars(s)) == KeptChars(s)
  {
    if s != [] {
      assert Chars(s)[1..] == Chars(s[1..]);
      KeptSingle(s[0]);
      JoinKeptChars(s[1..]);
    }
  }

  /** The sanitised name is the allowed characters of the input, in order,
      without their trailing run of spaces. */
  lemma SafeFilenameMeaning(s: string)
    ensures var kept := KeptChars(s);
      && |SafeFilename(s)| <= |kept|
      && SafeFilename(s) == kept[..|SafeFilename(s)|]
      && forall k :: |SafeFilename(s)| <= k < |kept| ==> kept[k] == ' '
  {
    JoinKeptChars(s);
    var kept := KeptChars(s);
    forall k | |SafeFilename(s)| <= k < |kept| ensures kept[k] == ' ' {
      KeptCharsAllowed(s);
      assert KeptChar(kept[k]) && IsSpace(kept[k]);
    }
  }

  lemma {:induction false} KeptCharsAllowed(s: string)
    ensures forall k :: 0 <= k < |KeptChars(s)| ==> KeptChar(KeptChars(s)[k])
  {
    if s != [] {
      KeptCharsAllowed(s[1..]);
      var head: string := if KeptChar(s[0]) then [s[0]] else "";
      assert KeptChars(s) == head + KeptChars(s[1..]);
    }
  }

  /** `a` can be read off `b` left to right, skipping characters. */
  predicate IsSubsequence(a: string, b: string)
  {
    a == [] || (b != [] && ((a[0] == b[0] && IsSubsequence(a[1..], b[1..])) || IsSubsequence(a, b[1..])))
  }

  lemma {:induction false} KeptCharsSubsequence(s: string)
    ensures IsSubsequence(KeptChars(s), s)
  {
    if s != [] {
      KeptCharsSubsequence(s[1..]);
      var a := KeptChars(s);
      if KeptChar(s[0]) {
        assert a == [s[0]] + KeptChars(s[1..]);
        assert a[1..] == KeptChars(s[1..]);
        assert a[0] == s[0] && IsSubsequence(a[1..], s[1..]);
      } else {
        assert a == KeptChars(s[1..]);
        assert IsSubsequence(a, s[1..]);
      }
    }
  }

  lemma {:induction false} PrefixSubsequence(p: string, a: string, b: string)
    requires IsSubsequence(a, b) && |p| <= |a| && p == a[..|p|]
    ensures IsSubsequence(p, b)
    decreases |b|
  {
    if p != [] {
      if a[0] == b[0] && IsSubsequence(a[1..], b[1..]) {
        assert p[1..] == a[1..][..|p| - 1];
        PrefixSubsequence(p[1..], a[1..], b[1..]);
      } else {
        PrefixSubsequence(p, a, b[1..]);
      }
    }
  }

  /** The sanitised name is a subsequence of the input, so never longer. */
  lemma SafeFilenameSubsequence(s: string)
    ensures IsSubsequence(SafeFilename(s), s)
    ensures |SafeFilename(s)| <= |s|
  {
    JoinKeptChars(s);
    KeptCharsSubsequence(s);
    PrefixSubsequence(SafeFilename(s), KeptChars(s), s);
  }

  lemma {:induction false} KeptCharsOfAllowed(s: string)
    requires forall k :: 0 <= k < |s| ==> KeptChar(s[k])
    ensures KeptChars(s) == s
  {
    if s != [] {
      KeptCharsOfAllowed(s[1..]);
    }
  }

  lemma RStripOfStripped(s: string)
    requires s == [] || !IsSpace(s[|s| - 1])
    ensures RStrip(s) == s
  {
  }

  /** Sanitising a sanitised name changes nothing. */
  lemma SafeFilenameIdempotent(s: string)
    ensures SafeFilename(SafeFilename(s)) == SafeFilename(s)
  {
    var r := SafeFilename(s);
    KeptCharsOfAllowed(r);
    JoinKeptChars(r);
    RStripOfStripped(r);
  }

  /** The keys of the specification dictionary, in insertion order. */
  const SpecKeys: seq<string> :=
    ["name", "purpose", "key_features", "required_resources", "potential_challenges",
     "integration_points", "ethical_considerations"]

  /** An item with an underscore among other characters is neither
      alphanumeric nor one of the kept single characters. */
  lemma Underscored(item: string, k: nat)
    requires k < |item| && item[k] == '_' && |item| > 1
    ensures !Kept(item)
  {
  }

  lemma {:induction false} JoinNone(items: seq<string>)
    requires forall i :: 0 <= i < |items| ==> !Kept(items[i])
    ensures JoinKept(items) == ""
  {
    if items != [] {
      JoinNone(items[1..]);
    }
  }

  /** The five compound keys all contain an underscore, so none is kept. */
  lemma CompoundKeysDropped()
    ensures JoinKept(SpecKeys[2..]) == ""
  {
    var rest := SpecKeys[2..];
    Underscored(rest[0], 3);
    Underscored(rest[1], 8);
    Underscored(rest[2], 9);
    Underscored(rest[3], 11);
    Underscored(rest[4], 7);
    JoinNone(rest);
  }

  /** Iterating a refined specification yields its keys; only "name" and
      "purpose" are alphanumeric, so every refined specification is saved
      under the same name. */
  lemma JoinFirstTwo(items: seq<string>)
    requires |items| >= 2 && Kept(items[0]) && Kept(items[1])
    ensures JoinKept(items) == items[0] + items[1] + JoinKept(items[2..])
  {
    assert items[1..][1..] == items[2..];
  }

  /** The first two keys are alphanumeric words. */
  lemma FirstTwoKeys()
    ensures SpecKeys[0] == "name" && SpecKeys[1] == "purpose"
    ensures Kept(SpecKeys[0]) && Kept(SpecKeys[1])
  {
    assert Kept("name") && Kept("purpose");
  }

  lemma RefinedSpecName()
    ensures Sanitize(SpecKeys) == "name" + "purpose"
  {
    FirstTwoKeys();
    CompoundKeysDropped();
    JoinFirstTwo(SpecKeys);
    var joined := "name" + "purpose";
    assert joined[|joined| - 1] == 'e';
    RStripOfStripped(joined);
  }
}
