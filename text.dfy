/** The handful of Python `str` operations the engine relies on:
    `in`, `lower`, `capitalize`, `split(sep)[k]`, `split()[-1]`, `strip`, `rstrip`. */
module Text {
  import opened Wrappers

  predicate IsUpper(c: char) { 'A' <= c <= 'Z' }
  predicate IsLower(c: char) { 'a' <= c <= 'z' }
  predicate IsDigit(c: char) { '0' <= c <= '9' }
  predicate IsAlnum(c: char) { IsUpper(c) || IsLower(c) || IsDigit(c) }

  /** The characters Python's `str.isspace` accepts, which `split()` and `strip()` cut on. */
  predicate IsSpace(c: char)
  {
    || c == ' ' || '\t' <= c <= '\r' || '\U{1C}' <= c <= '\U{1F}'
    || c == '\U{85}' || c == '\U{A0}' || c == '\U{1680}' || '\U{2000}' <= c <= '\U{200A}'
    || c == '\U{2028}' || c == '\U{2029}' || c == '\U{202F}' || c == '\U{205F}' || c == '\U{3000}'
  }

  function ToLower(c: char): char { if IsUpper(c) then (c as int + 32) as char else c }
  function ToUpper(c: char): char { if IsLower(c) then (c as int - 32) as char else c }

  /** `s.lower()` on ASCII letters. */
  function Lower(s: string): (r: string)
    ensures |r| == |s|
    ensures forall i :: 0 <= i < |s| ==> r[i] == ToLower(s[i])
  {
    seq(|s|, i requires 0 <= i < |s| => ToLower(s[i]))
  }

  /** `s.capitalize()`: first character upper case, the rest lower case. */
  function Capitalize(s: string): (r: string)
    ensures |r| == |s|
    ensures s != [] ==> r[0] == ToUpper(s[0]) && r[1..] == Lower(s[1..])
  {
    if s == [] then [] else [ToUpper(s[0])] + Lower(s[1..])
  }

  // ---------------------------------------------------------------- substrings

  /** `p` occurs in `s` starting at index `i`. */
  predicate MatchAt(s: string, p: string, i: int)
  {
    0 <= i && i + |p| <= |s| && s[i..i + |p|] == p
  }

  /** Python's `p in s`. */
  predicate Contains(s: string, p: string)
  {
    exists i | 0 <= i <= |s| - |p| :: MatchAt(s, p, i)
  }

  lemma MatchAtInPrefix(s: string, k: int, p: string, i: int)
    requires 0 <= k <= |s| && MatchAt(s[..k], p, i)
    ensures MatchAt(s, p, i)
  {
    assert s[i..i + |p|] == s[..k][i..i + |p|];
  }

  lemma MatchAtInSuffix(s: string, k: int, p: string, i: int)
    requires 0 <= k <= |s| && MatchAt(s[k..], p, i)
    ensures MatchAt(s, p, k + i)
  {
    assert s[k + i..k + i + |p|] == s[k..][i..i + |p|];
  }

  /** An occurrence at or after `k` is an occurrence in the suffix from `k`. */
  lemma MatchAtFromSuffix(s: string, k: int, p: string, i: int)
    ensures 0 <= k <= i && MatchAt(s, p, i) ==> MatchAt(s[k..], p, i - k)
  {
    if 0 <= k <= i && MatchAt(s, p, i) {
      assert s[k..][i - k..i - k + |p|] == s[i..i + |p|];
    }
  }

  lemma MatchAtConcat(a: string, b: string, p: string, i: int)
    requires MatchAt(b, p, i)
    ensures MatchAt(a + b, p, |a| + i)
  {
    assert (a + b)[|a| + i..|a| + i + |p|] == b[i..i + |p|];
  }

  /** `s` has the two-character run `x y` somewhere. */
  predicate HasBigram(s: string, x: char, y: char)
  {
    exists i | 0 <= i < |s| - 1 :: s[i] == x && s[i + 1] == y
  }

  /** A text missing either character has no run of the two. */
  lemma AbsentNoBigram(s: string, x: char, y: char)
    requires x !in s || y !in s
    ensures !HasBigram(s, x, y)
  {
    forall i | 0 <= i < |s| - 1 ensures !(s[i] == x && s[i + 1] == y) {
      assert s[i] in s && s[i + 1] in s;
    }
  }

  /** A text lacking one of the two-character runs of `p` does not contain `p`. */
  lemma NoBigramNoMatch(s: string, p: string, j: nat)
    requires j + 1 < |p| && !HasBigram(s, p[j], p[j + 1])
    ensures !Contains(s, p)
  {
    forall i | 0 <= i <= |s| - |p| ensures !MatchAt(s, p, i) {
      assert !(s[i + j] == p[j] && s[i + j + 1] == p[j + 1]);
    }
  }

  lemma BigramConcat(a: string, b: string, x: char, y: char)
    requires !HasBigram(a, x, y) && !HasBigram(b, x, y)
    requires a == [] || b == [] || !(a[|a| - 1] == x && b[0] == y)
    ensures !HasBigram(a + b, x, y)
  {
    forall i | 0 <= i < |a + b| - 1 ensures !((a + b)[i] == x && (a + b)[i + 1] == y) {
      if i + 1 < |a| {
        assert (a + b)[i] == a[i] && (a + b)[i + 1] == a[i + 1];
      } else if i >= |a| {
        assert (a + b)[i] == b[i - |a|] && (a + b)[i + 1] == b[i - |a| + 1];
      }
    }
  }

  lemma LowerConcat(a: string, b: string)
    ensures Lower(a + b) == Lower(a) + Lower(b)
  {
  }

  /** The first occurrence of `p` in `s` at or after index `i`. */
  function FindFrom(s: string, p: string, i: nat): Option<nat>
    decreases |s| - i
  {
    if i + |p| > |s| then None
    else if MatchAt(s, p, i) then Some(i)
    else FindFrom(s, p, i + 1)
  }

  lemma {:induction false} FindFromMeaning(s: string, p: string, i: nat)
    decreases |s| - i
    ensures FindFrom(s, p, i).Some? ==> i <= FindFrom(s, p, i).value && MatchAt(s, p, FindFrom(s, p, i).value)
    ensures FindFrom(s, p, i).Some? ==> forall j :: i <= j < FindFrom(s, p, i).value ==> !MatchAt(s, p, j)
    ensures FindFrom(s, p, i).None? ==> forall j :: i <= j ==> !MatchAt(s, p, j)
  {
    if i + |p| <= |s| && !MatchAt(s, p, i) {
      FindFromMeaning(s, p, i + 1);
    }
  }

  /** `s.find(p)`: the first occurrence of `p`, or None when `p not in s`. */
  function IndexOf(s: string, p: string): Option<nat>
  {
    FindFrom(s, p, 0)
  }

  /** `find` answers None exactly when `p` does not occur, and otherwise
      the position of its first occurrence. */
  lemma IndexOfMeaning(s: string, p: string)
    ensures IndexOf(s, p).None? <==> !Contains(s, p)
    ensures IndexOf(s, p).Some? ==> MatchAt(s, p, IndexOf(s, p).value)
    ensures IndexOf(s, p).Some? ==> forall j :: 0 <= j < IndexOf(s, p).value ==> !MatchAt(s, p, j)
  {
    FindFromMeaning(s, p, 0);
  }

  /** `s.split(sep)[-1]`: what follows the last separator that a left-to-right
      split finds, or the whole of `s` when `sep` does not occur. */
  function AfterLast(s: string, sep: string): string
    requires |sep| > 0
    decreases |s|
  {
    match IndexOf(s, sep)
    case None => s
    case Some(i) =>
      IndexOfMeaning(s, sep);
      AfterLast(s[i + |sep|..], sep)
  }

  /** A suffix of a suffix is a suffix. */
  lemma SuffixOfSuffix(s: string, k: nat, r: string)
    requires k <= |s| && |r| <= |s| - k && r == s[k..][|s| - k - |r|..]
    ensures r == s[|s| - |r|..]
  {
    assert s[k..][|s| - k - |r|..] == s[|s| - |r|..];
  }

  /** One step of the split: after a first separator at `i`, the last piece
      is the last piece of what follows it. */
  lemma AfterLastStep(s: string, sep: string)
    requires |sep| > 0 && IndexOf(s, sep).Some?
    ensures var i := IndexOf(s, sep).value;
      && MatchAt(s, sep, i)
      && AfterLast(s, sep) == AfterLast(s[i + |sep|..], sep)
  {
    IndexOfMeaning(s, sep);
  }

  /** The last piece is a suffix free of the separator, and the whole string
      when the separator does not occur. */
  lemma {:induction false} AfterLastSuffix(s: string, sep: string)
    requires |sep| > 0
    decreases |s|
    ensures var r := AfterLast(s, sep); |r| <= |s| && r == s[|s| - |r|..]
    ensures !Contains(AfterLast(s, sep), sep)
    ensures !Contains(s, sep) ==> AfterLast(s, sep) == s
  {
    IndexOfMeaning(s, sep);
    if IndexOf(s, sep).Some? {
      var i := IndexOf(s, sep).value;
      AfterLastStep(s, sep);
      AfterLastSuffix(s[i + |sep|..], sep);
      SuffixOfSuffix(s, i + |sep|, AfterLast(s[i + |sep|..], sep));
    }
  }

  /** `find` succeeds exactly when the pattern occurs. */
  lemma FoundIffContains(s: string, p: string)
    ensures IndexOf(s, p).Some? <==> Contains(s, p)
  {
    IndexOfMeaning(s, p);
  }

  /** When `find` succeeds, the last piece follows an occurrence of the
      separator directly. */
  lemma {:induction false} AfterLastFollowsFound(s: string, sep: string)
    requires |sep| > 0 && IndexOf(s, sep).Some?
    decreases |s|
    ensures MatchAt(s, sep, |s| - |AfterLast(s, sep)| - |sep|)
  {
    AfterLastStep(s, sep);
    var i := IndexOf(s, sep).value;
    var rest := s[i + |sep|..];
    if IndexOf(rest, sep).Some? {
      AfterLastFollowsFound(rest, sep);
      MatchAtInSuffix(s, i + |sep|, sep, |rest| - |AfterLast(rest, sep)| - |sep|);
    }
  }

  /** When the separator occurs, the last piece follows an occurrence of it directly. */
  lemma AfterLastFollowsSeparator(s: string, sep: string)
    requires |sep| > 0
    ensures Contains(s, sep) ==> MatchAt(s, sep, |s| - |AfterLast(s, sep)| - |sep|)
  {
    FoundIffContains(s, sep);
    if IndexOf(s, sep).Some? {
      AfterLastFollowsFound(s, sep);
    }
  }

  /** Both facts about the last piece together. */
  lemma AfterLastMeaning(s: string, sep: string)
    requires |sep| > 0
    ensures var r := AfterLast(s, sep); |r| <= |s| && r == s[|s| - |r|..]
    ensures !Contains(AfterLast(s, sep), sep)
    ensures !Contains(s, sep) ==> AfterLast(s, sep) == s
    ensures Contains(s, sep) ==> MatchAt(s, sep, |s| - |AfterLast(s, sep)| - |sep|)
  {
    AfterLastSuffix(s, sep);
    AfterLastFollowsSeparator(s, sep);
  }

  /** `s.split(sep)[0]`: everything before the first separator. */
  function FirstField(s: string, sep: string): (r: string)
    requires |sep| > 0
    ensures |r| <= |s| && r == s[..|r|]
    ensures !Contains(r, sep)
    ensures r == s || MatchAt(s, sep, |r|)
  {
    IndexOfMeaning(s, sep);
    match IndexOf(s, sep)
    case None => s
    case Some(i) =>
      var r := s[..i];
      assert !Contains(r, sep) by {
        forall m | 0 <= m <= |r| - |sep| ensures !MatchAt(r, sep, m) {
          if MatchAt(r, sep, m) { MatchAtInPrefix(s, i, sep, m); }
        }
      }
      r
  }

  /** `s.split(sep)[1]`: the text between the first separator and the next
      one (or the end of `s`); an IndexError when `sep` does not occur. */
  function SecondField(s: string, sep: string): (r: Option<string>)
    requires |sep| > 0
    ensures r.None? <==> !Contains(s, sep)
    ensures r.Some? ==> !Contains(r.value, sep)
    ensures r.Some? ==> IndexOf(s, sep).Some?
    ensures r.Some? && IndexOf(s, sep).Some? ==>
      var start := IndexOf(s, sep).value + |sep|;
      && start + |r.value| <= |s|
      && r.value == s[start..start + |r.value|]
      && (start + |r.value| == |s| || MatchAt(s, sep, start + |r.value|))
  {
    IndexOfMeaning(s, sep);
    match IndexOf(s, sep)
    case None => None
    case Some(i) =>
      var rest := s[i + |sep|..];
      var f := FirstField(rest, sep);
      assert f == s[i + |sep|..i + |sep| + |f|];
      if f != rest then
        MatchAtInSuffix(s, i + |sep|, sep, |f|);
        Some(f)
      else
        Some(f)
  }

  // ---------------------------------------------------------------- whitespace

  /** `s.rstrip()`. */
  function RStrip(s: string): (r: string)
    ensures |r| <= |s| && r == s[..|r|]
    ensures r == [] || !IsSpace(r[|r| - 1])
    ensures forall k :: |r| <= k < |s| ==> IsSpace(s[k])
  {
    if s != [] && IsSpace(s[|s| - 1]) then RStrip(s[..|s| - 1]) else s
  }

  /** `s.lstrip()`. */
  function LStrip(s: string): (r: string)
    ensures |r| <= |s| && r == s[|s| - |r|..]
    ensures r == [] || !IsSpace(r[0])
    ensures forall k :: 0 <= k < |s| - |r| ==> IsSpace(s[k])
  {
    if s != [] && IsSpace(s[0]) then LStrip(s[1..]) else s
  }

  /** `s.strip()`: `s` without its leading and trailing whitespace runs. */
  function Strip(s: string): (r: string)
    ensures exists a, b ::
              && 0 <= a <= b <= |s| && r == s[a..b]
              && forall i :: 0 <= i < a || b <= i < |s| ==> IsSpace(s[i])
    ensures r == [] || (!IsSpace(r[0]) && !IsSpace(r[|r| - 1]))
  {
    StripSlice(s);
    LStrip(RStrip(s))
  }

  /** Where `Strip` cuts: after the leading run of the right-stripped string. */
  lemma StripSlice(s: string)
    ensures var t := RStrip(s); var r := LStrip(t);
      && r == s[|t| - |r|..|t|]
      && forall i :: 0 <= i < |t| - |r| ==> IsSpace(s[i])
  {
    var t := RStrip(s);
    assert forall i :: 0 <= i < |t| ==> s[i] == t[i];
  }

  /** The whitespace-free run at the end of `s`. */
  function TrailingRun(s: string): (r: string)
    ensures |r| <= |s| && r == s[|s| - |r|..]
    ensures forall k :: 0 <= k < |r| ==> !IsSpace(r[k])
    ensures |r| == |s| || IsSpace(s[|s| - |r| - 1])
  {
    if s == [] || IsSpace(s[|s| - 1]) then []
    else
      var r := TrailingRun(s[..|s| - 1]);
      assert s[|s| - 1 - |r|..] == r + [s[|s| - 1]];
      r + [s[|s| - 1]]
  }

  /** `s.split()[-1]`: the last whitespace-separated token; an IndexError
      when `s` holds no token at all. */
  function LastWord(s: string): Option<string>
  {
    var t := RStrip(s);
    if t == [] then None else Some(TrailingRun(t))
  }

  /** There is a last token exactly when `s` is not all whitespace; it is a
      non-empty whitespace-free run that ends `s` once trailing whitespace is
      stripped, and whitespace (or the start) comes before it. */
  lemma LastWordMeaning(s: string)
    ensures LastWord(s).None? <==> forall k :: 0 <= k < |s| ==> IsSpace(s[k])
    ensures LastWord(s).Some? ==>
      var w, t := LastWord(s).value, RStrip(s);
      && w != [] && (forall k :: 0 <= k < |w| ==> !IsSpace(w[k]))
      && |w| <= |t| && w == t[|t| - |w|..] && (|w| == |t| || IsSpace(t[|t| - |w| - 1]))
  {
    var t := RStrip(s);
    if t != [] {
      assert !IsSpace(s[|t| - 1]);
      assert TrailingRun(t) != [];
    }
  }

  // ---------------------------------------------------------------- distinct elements

  /** A list without repeats has as many distinct elements as positions. */
  lemma {:induction false} DistinctCount(ks: seq<string>)
    requires forall i, j :: 0 <= i < j < |ks| ==> ks[i] != ks[j]
    ensures |set k | k in ks| == |ks|
  {
    if ks != [] {
      var init := ks[..|ks| - 1];
      DistinctCount(init);
      assert (set k | k in ks) == (set k | k in init) + {ks[|ks| - 1]};
      assert ks[|ks| - 1] !in init;
    }
  }

  /** A list has at most as many distinct elements as positions. */
  lemma {:induction false} ElementsCount(ks: seq<string>)
    ensures |set k | k in ks| <= |ks|
  {
    if ks != [] {
      var init := ks[..|ks| - 1];
      ElementsCount(init);
      assert (set k | k in ks) == (set k | k in init) + {ks[|ks| - 1]};
    }
  }

  /** A list with a repeat has fewer distinct elements than positions. */
  lemma {:induction false} RepeatCount(ks: seq<string>, i: nat, j: nat)
    requires i < j < |ks| && ks[i] == ks[j]
    ensures |set k | k in ks| < |ks|
  {
    var init := ks[..|ks| - 1];
    var last := ks[|ks| - 1];
    assert (set k | k in ks) == (set k | k in init) + {last};
    if j == |ks| - 1 {
      assert last == init[i];
      assert (set k | k in ks) == (set k | k in init);
      ElementsCount(init);
    } else {
      assert init[i] == init[j];
      RepeatCount(init, i, j);
    }
  }
}
