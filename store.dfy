/** The engine's knowledge store, in memory: the rows of the `concepts`,
    `specifications`, `tags` and `concept_tags` tables, and the queries the
    engine runs against them. Rows are only ever appended, so a row's id is
    its position plus one, as SQLite assigns `INTEGER PRIMARY KEY` ids. */
module KnowledgeStore {
  import opened Wrappers
  import opened Text
  import opened Reals
  import opened Specification

  datatype ConceptRow = ConceptRow(name: string, description: string)

  /** A specification row; the JSON text the code stores is the record itself here. */
  datatype SpecRow = SpecRow(conceptId: nat, spec: SpecRecord)

  /** A `concept_tags` row. */
  datatype Edge = Edge(conceptId: nat, tagId: nat)

  // ---------------------------------------------------------------- adding a concept

  /** The last whitespace-separated word of each feature, if it has one. */
  function LastWords(features: seq<string>): (r: seq<Option<string>>)
    ensures |r| == |features| && forall i :: 0 <= i < |features| ==> r[i] == LastWord(features[i])
  {
    seq(|features|, i requires 0 <= i < |features| => LastWord(features[i]))
  }

  /** The values of the leading `Some`s, up to the first `None`. */
  function Leading(xs: seq<Option<string>>): (r: seq<string>)
    ensures |r| <= |xs|
  {
    if xs == [] || xs[0].None? then [] else [xs[0].value] + Leading(xs[1..])
  }

  /** The tag of each feature (its last whitespace-separated word), up to the
      first feature that has none. */
  function TagWords(features: seq<string>): seq<string>
  {
    Leading(LastWords(features))
  }

  lemma {:induction false} LeadingMeaning(xs: seq<Option<string>>)
    ensures forall i :: 0 <= i < |Leading(xs)| ==> xs[i] == Some(Leading(xs)[i])
    ensures |Leading(xs)| < |xs| ==> xs[|Leading(xs)|].None?
  {
    if xs != [] && xs[0].Some? {
      LeadingMeaning(xs[1..]);
    }
  }

  /** The tags are the last words of the leading features that have one, and
      they stop exactly at the first feature without a word. */
  lemma TagWordsMeaning(features: seq<string>)
    ensures |TagWords(features)| <= |features|
    ensures forall i :: 0 <= i < |TagWords(features)| ==> LastWord(features[i]) == Some(TagWords(features)[i])
    ensures |TagWords(features)| < |features| ==> LastWord(features[|TagWords(features)|]).None?
  {
    LeadingMeaning(LastWords(features));
  }

  /** One more `Some` after nothing but `Some`s extends the leading values. */
  lemma {:induction false} LeadingSnoc(xs: seq<Option<string>>, w: string)
    requires |Leading(xs)| == |xs|
    ensures Leading(xs + [Some(w)]) == Leading(xs) + [w]
  {
    if xs != [] {
      assert (xs + [Some(w)])[1..] == xs[1..] + [Some(w)];
      LeadingSnoc(xs[1..], w);
    }
  }

  /** The same, for a prefix growing by one. */
  lemma LeadingStep(xs: seq<Option<string>>, k: nat)
    requires k < |xs| && |Leading(xs[..k])| == k && xs[k].Some?
    ensures Leading(xs[..k + 1]) == Leading(xs[..k]) + [xs[k].value]
  {
    assert xs[..k + 1] == xs[..k] + [Some(xs[k].value)];
    LeadingSnoc(xs[..k], xs[k].value);
  }

  /** A `None` right after `k` leading `Some`s ends the leading values. */
  lemma {:induction false} LeadingStop(xs: seq<Option<string>>, k: nat)
    requires k < |xs| && |Leading(xs[..k])| == k && xs[k].None?
    ensures Leading(xs) == Leading(xs[..k])
  {
    if k > 0 {
      assert xs[..k][0] == xs[0];
      assert xs[..k][1..] == xs[1..][..k - 1];
      LeadingStop(xs[1..], k - 1);
    }
  }

  /** The id `SELECT id FROM tags WHERE name = ?` fetches first: the lowest
      id of a row holding `name`. */
  function FirstId(tags: seq<string>, name: string): (r: nat)
    requires name in tags
    ensures 1 <= r <= |tags| && tags[r - 1] == name
    ensures forall j :: 0 <= j < r - 1 ==> tags[j] != name
  {
    if tags[0] == name then 1 else 1 + FirstId(tags[1..], name)
  }

  /** Appending rows does not change which row holds a name first. */
  lemma {:induction false} FirstIdPrefix(tags: seq<string>, more: seq<string>, name: string)
    requires name in tags
    ensures FirstId(tags + more, name) == FirstId(tags, name)
  {
    if tags[0] != name {
      assert (tags + more)[1..] == tags[1..] + more;
      FirstIdPrefix(tags[1..], more, name);
    }
  }

  /** The edges from concept `cid` to the first tag row of each word. */
  function NewEdges(cid: nat, tags: seq<string>, words: seq<string>): (r: seq<Edge>)
    requires forall w :: w in words ==> w in tags
    ensures |r| == |words|
    ensures forall i :: 0 <= i < |words| ==> r[i].conceptId == cid && r[i].tagId == FirstId(tags, words[i])
  {
    seq(|words|, i requires 0 <= i < |words| => Edge(cid, FirstId(tags, words[i])))
  }

  /** One more word and its new tag row give one more edge. */
  lemma NewEdgesStep(cid: nat, tags: seq<string>, words: seq<string>, w: string)
    requires forall x :: x in words ==> x in tags
    ensures NewEdges(cid, tags + [w], words + [w]) == NewEdges(cid, tags, words) + [Edge(cid, FirstId(tags + [w], w))]
  {
    forall i | 0 <= i < |words| ensures FirstId(tags + [w], words[i]) == FirstId(tags, words[i]) {
      assert words[i] in words;
      FirstIdPrefix(tags, [w], words[i]);
    }
  }

  /** The new edges leave concept `cid` for existing tag rows. */
  lemma NewEdgesBounded(cid: nat, tags: seq<string>, words: seq<string>)
    requires forall w :: w in words ==> w in tags
    ensures forall e :: e in NewEdges(cid, tags, words) ==> e.conceptId == cid && 1 <= e.tagId <= |tags|
  {
    var es := NewEdges(cid, tags, words);
    forall e | e in es ensures e.conceptId == cid && 1 <= e.tagId <= |tags| {
      var i :| 0 <= i < |es| && es[i] == e;
    }
  }

  /** Every edge an added concept gets points to a tag row named after its
      feature's last word, and to the first such row when earlier rows share
      the name, since the `tags` table does not make names unique. */
  lemma NewEdgesNameTheirTags(cid: nat, tags: seq<string>, words: seq<string>)
    requires forall w :: w in words ==> w in tags
    ensures forall i :: 0 <= i < |words| ==>
      && 1 <= NewEdges(cid, tags, words)[i].tagId <= |tags|
      && tags[NewEdges(cid, tags, words)[i].tagId - 1] == words[i]
      && forall j :: 0 <= j < NewEdges(cid, tags, words)[i].tagId - 1 ==> tags[j] != words[i]
  {
  }

  // ---------------------------------------------------------------- queries

  /** SQLite's `s LIKE '%q%'` for a query without wildcards: an ASCII
      case-insensitive substring test. */
  predicate Like(s: string, q: string)
  {
    Contains(Lower(s), Lower(q))
  }

  /** Concept `i` (a position) is linked to a tag whose name matches `q`. */
  predicate TagMatches(tags: seq<string>, edges: seq<Edge>, i: nat, q: string)
  {
    exists e :: e in edges && e.conceptId == i + 1 && 1 <= e.tagId <= |tags| && Like(tags[e.tagId - 1], q)
  }

  /** The `WHERE` clause of the search: concept `i`'s name, its description or
      the name of a tag linked to it matches `q`. */
  predicate Matches(concepts: seq<ConceptRow>, tags: seq<string>, edges: seq<Edge>, i: nat, q: string)
    requires i < |concepts|
  {
    Like(concepts[i].name, q) || Like(concepts[i].description, q) || TagMatches(tags, edges, i, q)
  }

  /** `search_concepts(query)`: the distinct (name, description) pairs of the
      concepts whose name, description or one of whose tags matches. Every
      result belongs to a matching concept, and every matching concept is a
      result. */
  function SearchRows(concepts: seq<ConceptRow>, tags: seq<string>, edges: seq<Edge>, q: string)
    : (r: set<(string, string)>)
    ensures forall p :: p in r ==>
      exists i :: 0 <= i < |concepts| && Matches(concepts, tags, edges, i, q) && p == (concepts[i].name, concepts[i].description)
    ensures forall i :: 0 <= i < |concepts| && Matches(concepts, tags, edges, i, q) ==>
      (concepts[i].name, concepts[i].description) in r
  {
    set i | 0 <= i < |concepts| && Matches(concepts, tags, edges, i, q) :: (concepts[i].name, concepts[i].description)
  }

  lemma LikeItself(s: string)
    ensures Like(s, s)
  {
    assert MatchAt(Lower(s), Lower(s), 0);
  }

  /** Searching for a stored concept's own name finds that concept. */
  lemma SearchFindsName(concepts: seq<ConceptRow>, tags: seq<string>, edges: seq<Edge>, i: nat)
    requires i < |concepts|
    ensures (concepts[i].name, concepts[i].description) in SearchRows(concepts, tags, edges, concepts[i].name)
  {
    LikeItself(concepts[i].name);
  }

  /** Searching for the name of a tag linked to a concept finds that concept,
      whatever its own name and description. */
  lemma SearchFindsTag(concepts: seq<ConceptRow>, tags: seq<string>, edges: seq<Edge>, i: nat, e: Edge)
    requires i < |concepts| && e in edges && e.conceptId == i + 1 && 1 <= e.tagId <= |tags|
    ensures (concepts[i].name, concepts[i].description) in SearchRows(concepts, tags, edges, tags[e.tagId - 1])
  {
    LikeItself(tags[e.tagId - 1]);
  }

  lemma LowerIdempotent(s: string)
    ensures Lower(Lower(s)) == Lower(s)
  {
  }

  /** The search ignores the case of the query. */
  lemma SearchIgnoresCase(concepts: seq<ConceptRow>, tags: seq<string>, edges: seq<Edge>, q: string)
    ensures SearchRows(concepts, tags, edges, Lower(q)) == SearchRows(concepts, tags, edges, q)
  {
    LowerIdempotent(q);
    forall s: string ensures Like(s, Lower(q)) == Like(s, q) {
    }
    assert forall i :: TagMatches(tags, edges, i, Lower(q)) == TagMatches(tags, edges, i, q);
  }

  // ---------------------------------------------------------------- synergies

  /** How many `concept_tags` rows link concept `c` to tag row `t`. */
  function Mult(edges: seq<Edge>, c: nat, t: nat): (r: nat)
    ensures r <= |edges|
  {
    if edges == [] then 0
    else (if edges[0] == Edge(c, t) then 1 else 0) + Mult(edges[1..], c, t)
  }

  /** `COUNT(*)` of the self-join `concept_tags ct1 JOIN concept_tags ct2 ON
      ct1.tag_id = ct2.tag_id` restricted to `ct1.concept_id = a` and
      `ct2.concept_id = b`: one per pair of joined rows. */
  function JoinCount(left: seq<Edge>, right: seq<Edge>, a: nat, b: nat): nat
  {
    if left == [] then 0
    else (if left[0].conceptId == a then Mult(right, b, left[0].tagId) else 0) + JoinCount(left[1..], right, a, b)
  }

  /** The sum over tag rows 1..n of multiplicity times multiplicity. */
  function SharedSum(left: seq<Edge>, right: seq<Edge>, a: nat, b: nat, n: nat): nat
  {
    if n == 0 then 0 else SharedSum(left, right, a, b, n - 1) + Mult(left, a, n) * Mult(right, b, n)
  }

  lemma {:induction false} SharedSumCons(e: Edge, rest: seq<Edge>, right: seq<Edge>, a: nat, b: nat, n: nat)
    ensures SharedSum([e] + rest, right, a, b, n)
         == (if e.conceptId == a && 1 <= e.tagId <= n then Mult(right, b, e.tagId) else 0) + SharedSum(rest, right, a, b, n)
  {
    assert ([e] + rest)[1..] == rest;
    if n > 0 {
      SharedSumCons(e, rest, right, a, b, n - 1);
    }
  }

  lemma {:induction false} SharedSumEmpty(right: seq<Edge>, a: nat, b: nat, n: nat)
    ensures SharedSum([], right, a, b, n) == 0
  {
    if n > 0 {
      SharedSumEmpty(right, a, b, n - 1);
    }
  }

  /** A synergy count is the sum over shared tag rows of the two concepts'
      multiplicities, when every tag id lies in 1..n. */
  lemma {:induction false} JoinCountIsSharedSum(left: seq<Edge>, right: seq<Edge>, a: nat, b: nat, n: nat)
    requires forall e :: e in left ==> 1 <= e.tagId <= n
    ensures JoinCount(left, right, a, b) == SharedSum(left, right, a, b, n)
  {
    if left != [] {
      var e, rest := left[0], left[1..];
      assert left == [e] + rest;
      assert e in left;
      JoinCountIsSharedSum(rest, right, a, b, n);
      SharedSumCons(e, rest, right, a, b, n);
      assert JoinCount(left, right, a, b) == (if e.conceptId == a then Mult(right, b, e.tagId) else 0) + JoinCount(rest, right, a, b);
    } else {
      SharedSumEmpty(right, a, b, n);
    }
  }

  /** A `identify_synergies` row, by concept ids. */
  datatype Synergy = Synergy(id1: nat, id2: nat, common: nat)

  /** The pairs `c1.id < c2.id` among concepts 1..n, grouped by (c1.id, c2.id). */
  function Pairs(n: nat): (r: seq<(nat, nat)>)
    ensures forall a, b :: (a, b) in r <==> 1 <= a < b <= n
    ensures forall i, j :: 0 <= i < j < |r| ==> r[i] != r[j]
  {
    if n == 0 then []
    else
      var below := Pairs(n - 1);
      var row := seq(n - 1, i requires 0 <= i < n - 1 => (i + 1, n));
      assert forall p :: p in row ==> p.1 == n;
      assert forall a :: 1 <= a < n ==> (a, n) == row[a - 1];
      below + row
  }

  /** The groups whose count passes `HAVING common_tags > 1`. */
  function Candidates(pairs: seq<(nat, nat)>, edges: seq<Edge>): (r: seq<Synergy>)
    ensures forall s :: s in r <==> (s.id1, s.id2) in pairs && s.common == JoinCount(edges, edges, s.id1, s.id2) > 1
  {
    if pairs == [] then []
    else
      var (a, b) := pairs[0];
      var c := JoinCount(edges, edges, a, b);
      (if c > 1 then [Synergy(a, b, c)] else []) + Candidates(pairs[1..], edges)
  }

  lemma {:induction false} CandidatesDistinct(pairs: seq<(nat, nat)>, edges: seq<Edge>)
    requires forall i, j :: 0 <= i < j < |pairs| ==> pairs[i] != pairs[j]
    ensures forall i, j :: 0 <= i < j < |Candidates(pairs, edges)| ==> Candidates(pairs, edges)[i] != Candidates(pairs, edges)[j]
  {
    if pairs != [] {
      CandidatesDistinct(pairs[1..], edges);
      var rest := Candidates(pairs[1..], edges);
      assert forall s :: s in rest ==> (s.id1, s.id2) != pairs[0] by {
        forall s | s in rest ensures (s.id1, s.id2) != pairs[0] {
          var k :| 0 <= k < |pairs[1..]| && pairs[1..][k] == (s.id1, s.id2);
          assert pairs[k + 1] == (s.id1, s.id2);
        }
      }
    }
  }

  /** Ordered by count, largest first. */
  predicate Descending(rows: seq<Synergy>)
  {
    forall i, j :: 0 <= i < j < |rows| ==> rows[i].common >= rows[j].common
  }

  /** What `ORDER BY common_tags DESC LIMIT 10` may return from the groups
      `cands`: at most ten of them, each once, largest counts first, and no
      group left out counts more than one that is listed. Rows of equal count
      may come in any order. */
  predicate TopTen(rows: seq<Synergy>, cands: seq<Synergy>)
  {
    && |rows| == (if |cands| < 10 then |cands| else 10)
    && Descending(rows)
    && (forall i, j :: 0 <= i < j < |rows| ==> rows[i] != rows[j])
    && (forall r :: r in rows ==> r in cands)
    && (forall c, r :: c in cands && c !in rows && r in rows ==> c.common <= r.common)
  }

  /** Places `s` before the first row with a smaller count. */
  function Insert(s: Synergy, rows: seq<Synergy>): seq<Synergy>
  {
    if rows == [] || rows[0].common <= s.common then [s] + rows
    else [rows[0]] + Insert(s, rows[1..])
  }

  lemma {:induction false} InsertKeepsRows(s: Synergy, rows: seq<Synergy>)
    ensures multiset(Insert(s, rows)) == multiset(rows) + multiset{s}
  {
    if !(rows == [] || rows[0].common <= s.common) {
      InsertKeepsRows(s, rows[1..]);
      assert rows == [rows[0]] + rows[1..];
    }
  }

  lemma {:induction false} InsertMembers(s: Synergy, rows: seq<Synergy>)
    ensures forall x :: x in Insert(s, rows) ==> x == s || x in rows
  {
    if !(rows == [] || rows[0].common <= s.common) {
      InsertMembers(s, rows[1..]);
    }
  }

  lemma DescendingCons(x: Synergy, rest: seq<Synergy>)
    requires Descending(rest)
    requires forall y :: y in rest ==> y.common <= x.common
    ensures Descending([x] + rest)
  {
    var r := [x] + rest;
    forall i, j | 0 <= i < j < |r| ensures r[i].common >= r[j].common {
      assert r[j] == rest[j - 1];
      if i > 0 {
        assert r[i] == rest[i - 1];
      } else {
        assert r[j] in rest;
      }
    }
  }

  lemma HeadIsLargest(rows: seq<Synergy>)
    requires Descending(rows) && rows != []
    ensures forall y :: y in rows ==> y.common <= rows[0].common
  {
    forall y | y in rows ensures y.common <= rows[0].common {
      var k :| 0 <= k < |rows| && rows[k] == y;
    }
  }

  lemma {:induction false} InsertKeepsOrder(s: Synergy, rows: seq<Synergy>)
    requires Descending(rows)
    ensures Descending(Insert(s, rows))
  {
    if rows == [] {
      DescendingCons(s, rows);
    } else if rows[0].common <= s.common {
      HeadIsLargest(rows);
      DescendingCons(s, rows);
    } else {
      var tail := Insert(s, rows[1..]);
      InsertKeepsOrder(s, rows[1..]);
      InsertMembers(s, rows[1..]);
      HeadIsLargest(rows);
      assert forall y :: y in rows[1..] ==> y in rows;
      DescendingCons(rows[0], tail);
    }
  }

  /** Sorts by count, largest first. */
  function SortByCount(rows: seq<Synergy>): seq<Synergy>
  {
    if rows == [] then [] else Insert(rows[0], SortByCount(rows[1..]))
  }

  /** Sorting keeps every row, once, and orders them by count. */
  lemma {:induction false} SortByCountSorts(rows: seq<Synergy>)
    ensures multiset(SortByCount(rows)) == multiset(rows)
    ensures Descending(SortByCount(rows))
  {
    if rows != [] {
      SortByCountSorts(rows[1..]);
      InsertKeepsRows(rows[0], SortByCount(rows[1..]));
      InsertKeepsOrder(rows[0], SortByCount(rows[1..]));
      assert rows == [rows[0]] + rows[1..];
    }
  }

  /** One answer of `identify_synergies` over concepts 1..n, by concept ids. */
  function SynergyIds(n: nat, edges: seq<Edge>): (r: seq<Synergy>)
    ensures |r| <= 10
    ensures forall x :: x in r ==> 1 <= x.id1 < x.id2 <= n && x.common == JoinCount(edges, edges, x.id1, x.id2) > 1
  {
    var sorted := SortByCount(Candidates(Pairs(n), edges));
    SortedRows(n, edges);
    sorted[..if |sorted| < 10 then |sorted| else 10]
  }

  lemma DistinctOfMultiset(xs: seq<Synergy>, ys: seq<Synergy>)
    requires multiset(xs) == multiset(ys)
    requires forall i, j :: 0 <= i < j < |ys| ==> ys[i] != ys[j]
    ensures forall i, j :: 0 <= i < j < |xs| ==> xs[i] != xs[j]
  {
    forall i, j | 0 <= i < j < |xs| ensures xs[i] != xs[j] {
      if xs[i] == xs[j] {
        assert xs == xs[..i] + [xs[i]] + xs[i + 1..j] + [xs[j]] + xs[j + 1..];
        assert multiset(xs)[xs[i]] >= 2;
        DistinctOnce(ys, xs[i]);
        assert false;
      }
    }
  }

  lemma {:induction false} DistinctOnce(ys: seq<Synergy>, x: Synergy)
    requires forall i, j :: 0 <= i < j < |ys| ==> ys[i] != ys[j]
    ensures multiset(ys)[x] <= 1
  {
    if ys != [] {
      assert ys == [ys[0]] + ys[1..];
      DistinctOnce(ys[1..], x);
      if x == ys[0] {
        assert x !in ys[1..];
      }
    }
  }

  /** The rows come from grouped pairs with `c1.id < c2.id`, so no row pairs a
      concept with itself and no pair appears mirrored, and each count is the
      number of joined rows sharing a tag. */
  /** The ordered candidates are rows of in-range pairs sharing more than one tag. */
  lemma SortedRows(n: nat, edges: seq<Edge>)
    ensures forall r :: r in SortByCount(Candidates(Pairs(n), edges)) ==>
      1 <= r.id1 < r.id2 <= n && r.common == JoinCount(edges, edges, r.id1, r.id2) > 1
  {
    var cands := Candidates(Pairs(n), edges);
    var sorted := SortByCount(cands);
    SortByCountSorts(cands);
    forall r | r in sorted
      ensures 1 <= r.id1 < r.id2 <= n && r.common == JoinCount(edges, edges, r.id1, r.id2) > 1
    {
      assert r in multiset(cands);
    }
  }

  /** Rows past the cut count no more than rows before it. */
  lemma LeftOutCountLess(sorted: seq<Synergy>, k: nat)
    requires k <= |sorted| && Descending(sorted)
    ensures forall c, r :: c in sorted && c !in sorted[..k] && r in sorted[..k] ==> c.common <= r.common
  {
    forall c, r | c in sorted && c !in sorted[..k] && r in sorted[..k] ensures c.common <= r.common {
      var j :| 0 <= j < |sorted| && sorted[j] == c;
      var i :| 0 <= i < k && sorted[..k][i] == r;
      assert k <= j by {
        assert forall m :: 0 <= m < k ==> sorted[..k][m] == sorted[m];
      }
    }
  }

  /** The first ten rows of a sorted arrangement of distinct groups are an
      answer the query allows. */
  lemma FirstTenOfSorted(sorted: seq<Synergy>, cands: seq<Synergy>)
    requires multiset(sorted) == multiset(cands) && Descending(sorted)
    requires forall i, j :: 0 <= i < j < |cands| ==> cands[i] != cands[j]
    ensures TopTen(sorted[..if |sorted| < 10 then |sorted| else 10], cands)
  {
    var k := if |sorted| < 10 then |sorted| else 10;
    assert |sorted| == |cands| by { assert |multiset(sorted)| == |multiset(cands)|; }
    DistinctOfMultiset(sorted, cands);
    LeftOutCountLess(sorted, k);
    assert forall x :: x in sorted <==> x in cands by {
      forall x ensures x in sorted <==> x in cands {
        assert x in sorted <==> x in multiset(sorted);
      }
    }
  }

  /** The answer is one of the orders the query allows. */
  lemma SynergyTopTen(n: nat, edges: seq<Edge>)
    ensures TopTen(SynergyIds(n, edges), Candidates(Pairs(n), edges))
  {
    var cands := Candidates(Pairs(n), edges);
    SortByCountSorts(cands);
    CandidatesDistinct(Pairs(n), edges);
    FirstTenOfSorted(SortByCount(cands), cands);
  }

  // ---------------------------------------------------------------- diversity

  /** The tag name of every joined `concept_tags` row. */
  function EdgeNames(tags: seq<string>, edges: seq<Edge>): (r: seq<string>)
    ensures |r| <= |edges|
  {
    if edges == [] then []
    else
      var e := edges[0];
      (if 1 <= e.tagId <= |tags| then [tags[e.tagId - 1]] else []) + EdgeNames(tags, edges[1..])
  }

  /** Every edge of a consistent store joins its tag row. */
  lemma {:induction false} EdgeNamesAll(tags: seq<string>, edges: seq<Edge>)
    requires forall e :: e in edges ==> 1 <= e.tagId <= |tags|
    ensures |EdgeNames(tags, edges)| == |edges|
  {
    if edges != [] {
      assert edges[0] in edges;
      EdgeNamesAll(tags, edges[1..]);
    }
  }

  /** How often `x` occurs in `names`: its `COUNT(*)` under `GROUP BY tags.name`. */
  function Occ(names: seq<string>, x: string): (r: nat)
    ensures r <= |names|
    ensures x in names ==> r >= 1
  {
    if names == [] then 0 else (if names[0] == x then 1 else 0) + Occ(names[1..], x)
  }

  /** The largest group among the names in `keys`. */
  function MaxOcc(keys: seq<string>, names: seq<string>): (r: nat)
    ensures forall x :: x in keys ==> Occ(names, x) <= r
    ensures keys != [] ==> exists x :: x in keys && Occ(names, x) == r
  {
    if keys == [] then 0
    else
      var rest := MaxOcc(keys[1..], names);
      if Occ(names, keys[0]) >= rest then Occ(names, keys[0]) else rest
  }

  /** What `check_diversity_in_ideation` returns. */
  datatype DiversityReport = DiversityReport(score: real, distribution: map<string, nat>)

  /** `1 - (max / total)`. */
  function Score(max: nat, total: nat): real
    requires total > 0
  {
    1.0 - (max as real) / (total as real)
  }

  /** A largest group of at least one and at most all rows scores in [0, 1),
      and scores 0 exactly when it holds every row. */
  lemma ScoreRange(max: nat, total: nat)
    requires 1 <= max <= total
    ensures 0.0 <= Score(max, total) < 1.0
    ensures Score(max, total) == 0.0 <==> max == total
  {
    ShareRange(max as real, total as real);
  }

  lemma ScoreHalf(k: nat)
    requires k > 0
    ensures Score(k, 2 * k) == 0.5
  {
    var t := (2 * k) as real;
    var q := (k as real) / t;
    assert q * t == k as real;
    assert 0.5 * t == k as real;
    Cancel(q, 0.5, t);
  }

  /** 1 - max/total over the per-name edge counts; with no linked tags `max()`
      of an empty sequence raises ValueError. */
  function Diversity(names: seq<string>): (r: Result<DiversityReport, Fault>)
    ensures r.Failure? <==> names == []
    ensures r.Failure? ==> r.error == ValueError
  {
    if names == [] then Failure(ValueError)
    else
      var distribution := map x | x in names :: Occ(names, x);
      Success(DiversityReport(Score(MaxOcc(names, names), |names|), distribution))
  }

  /** The distribution maps each linked tag name to its number of joined rows. */
  lemma DiversityDistribution(names: seq<string>)
    requires names != []
    ensures Diversity(names).value.distribution.Keys == set x | x in names
    ensures forall x :: x in Diversity(names).value.distribution ==> Diversity(names).value.distribution[x] == Occ(names, x) >= 1
  {
  }

  /** The counts add up to the number of joined rows. */
  function SumOcc(keys: seq<string>, names: seq<string>): nat
  {
    if keys == [] then 0 else Occ(names, keys[0]) + SumOcc(keys[1..], names)
  }

  lemma {:induction false} SumOccSplit(keys: seq<string>, x: string, rest: seq<string>)
    requires x !in keys
    ensures SumOcc(keys, [x] + rest) == SumOcc(keys, rest)
  {
    if keys != [] {
      assert ([x] + rest)[1..] == rest;
      SumOccSplit(keys[1..], x, rest);
    }
  }

  lemma {:induction false} SumOccWith(keys: seq<string>, x: string, rest: seq<string>)
    requires x in keys
    requires forall i, j :: 0 <= i < j < |keys| ==> keys[i] != keys[j]
    ensures SumOcc(keys, [x] + rest) == 1 + SumOcc(keys, rest)
  {
    assert ([x] + rest)[1..] == rest;
    if keys[0] == x {
      forall k | 0 <= k < |keys[1..]| ensures keys[1..][k] != x {
        assert keys[1..][k] == keys[k + 1];
      }
      SumOccSplit(keys[1..], x, rest);
    } else {
      SumOccWith(keys[1..], x, rest);
    }
  }

  /** Summed over each distinct name once, the per-name counts give the
      total number of joined rows: `total_tags` is the number of edges. */
  lemma {:induction false} SumOccTotal(keys: seq<string>, names: seq<string>)
    requires forall i, j :: 0 <= i < j < |keys| ==> keys[i] != keys[j]
    requires forall x :: x in names ==> x in keys
    ensures SumOcc(keys, names) == |names|
  {
    if names == [] {
      SumOccNone(keys);
    } else {
      assert names == [names[0]] + names[1..];
      SumOccTotal(keys, names[1..]);
      SumOccWith(keys, names[0], names[1..]);
    }
  }

  lemma {:induction false} SumOccNone(keys: seq<string>)
    ensures SumOcc(keys, []) == 0
  {
    if keys != [] {
      SumOccNone(keys[1..]);
    }
  }

  /** The largest group is the group of some linked name, at least one row
      and at most all of them. */
  lemma MaxOccRange(names: seq<string>)
    requires names != []
    ensures 1 <= MaxOcc(names, names) <= |names|
  {
    assert names[0] in names;
  }

  /** The score lies in [0, 1) whenever some tag is linked. */
  lemma DiversityBounds(names: seq<string>)
    requires names != []
    ensures 0.0 <= Diversity(names).value.score < 1.0
  {
    MaxOccRange(names);
    ScoreRange(MaxOcc(names, names), |names|);
  }

  lemma {:induction false} OccAll(names: seq<string>, x: string)
    ensures Occ(names, x) == |names| <==> forall i :: 0 <= i < |names| ==> names[i] == x
  {
    if names != [] {
      OccAll(names[1..], x);
      if names[0] == x {
        assert forall i :: 1 <= i < |names| ==> names[i] == names[1..][i - 1];
      } else {
        assert Occ(names[1..], x) <= |names| - 1;
      }
    }
  }

  /** All rows form one group exactly when they all carry the first row's name. */
  lemma MaxOccAll(names: seq<string>)
    requires names != []
    ensures MaxOcc(names, names) == |names| <==> forall i :: 0 <= i < |names| ==> names[i] == names[0]
  {
    var m := MaxOcc(names, names);
    assert exists x :: x in names && Occ(names, x) == m;
    var x :| x in names && Occ(names, x) == m;
    OccAll(names, x);
    OccAll(names, names[0]);
    assert names[0] in names;
  }

  /** The score is 0 exactly when every joined row carries the same tag name. */
  lemma DiversityZero(names: seq<string>)
    requires names != []
    ensures Diversity(names).value.score == 0.0 <==> forall i :: 0 <= i < |names| ==> names[i] == names[0]
  {
    MaxOccRange(names);
    ScoreRange(MaxOcc(names, names), |names|);
    MaxOccAll(names);
  }

  lemma {:induction false} OccTwo(names: seq<string>, x: string, y: string)
    requires x != y
    requires forall i :: 0 <= i < |names| ==> names[i] == x || names[i] == y
    ensures Occ(names, x) + Occ(names, y) == |names|
  {
    if names != [] {
      OccTwo(names[1..], x, y);
    }
  }

  /** Two tag names sharing the rows equally, as five "A" and five "B", score
      one half. */
  lemma DiversityHalf(names: seq<string>, x: string, y: string)
    requires names != [] && x != y
    requires forall i :: 0 <= i < |names| ==> names[i] == x || names[i] == y
    requires Occ(names, x) == Occ(names, y)
    ensures Diversity(names).value.score == 0.5
  {
    OccTwo(names, x, y);
    var m := MaxOcc(names, names);
    assert exists z :: z in names && Occ(names, z) == m;
    var z :| z in names && Occ(names, z) == m;
    assert m == Occ(names, x);
    ScoreHalf(m);
  }

  // ---------------------------------------------------------------- the store

  class KnowledgeBase {
    var concepts: seq<ConceptRow>
    var specifications: seq<SpecRow>
    var tags: seq<string>
    var conceptTags: seq<Edge>

    /** Every reference names an existing row. */
    predicate Valid()
      reads this
    {
      && (forall s :: s in specifications ==> 1 <= s.conceptId <= |concepts|)
      && (forall e :: e in conceptTags ==> 1 <= e.conceptId <= |concepts| && 1 <= e.tagId <= |tags|)
    }

    /** `initialize_knowledge_base`: the four tables, empty. */
    constructor()
      ensures Valid()
      ensures concepts == [] && specifications == [] && tags == [] && conceptTags == []
    {
      concepts := [];
      specifications := [];
      tags := [];
      conceptTags := [];
    }

    /** `search_concepts(query)` on the stored tables: exactly the concepts
        whose name, description or a linked tag's name matches come back. */
    function Search(q: string): (r: set<(string, string)>)
      reads this
      ensures forall p :: p in r ==>
        exists i :: 0 <= i < |concepts| && Matches(concepts, tags, conceptTags, i, q)
                    && p == (concepts[i].name, concepts[i].description)
      ensures forall i :: 0 <= i < |concepts| && Matches(concepts, tags, conceptTags, i, q) ==>
        (concepts[i].name, concepts[i].description) in r
    {
      SearchRows(concepts, tags, conceptTags, q)
    }

    /** `identify_synergies`: the names of each pair and their count. */
    function Synergies(): (r: seq<(string, string, nat)>)
      reads this
      ensures |r| <= 10
      ensures forall i :: 0 <= i < |r| ==> r[i].2 > 1
    {
      var rows, ids := concepts, SynergyIds(|concepts|, conceptTags);
      seq(|ids|, i requires 0 <= i < |ids| =>
        assert ids[i] in ids;
        (rows[ids[i].id1 - 1].name, rows[ids[i].id2 - 1].name, ids[i].common))
    }

    /** `check_diversity_in_ideation`; it raises exactly when no concept has a tag. */
    function CheckDiversity(): (r: Result<DiversityReport, Fault>)
      reads this
      requires Valid()
      ensures r.Failure? <==> conceptTags == []
      ensures r.Success? ==> 0.0 <= r.value.score < 1.0
    {
      var names := EdgeNames(tags, conceptTags);
      EdgeNamesAll(tags, conceptTags);
      if names == [] then Diversity(names)
      else DiversityBounds(names); Diversity(names)
    }

    /** `add_concept_to_knowledge_base(concept, spec)`: one concept row, one
        specification row, then the feature tags. A feature without a word
        raises IndexError; the rows written before it stay. */
    method AddConcept(concept: string, spec: SpecRecord) returns (outcome: Outcome<Fault>)
      requires Valid()
      modifies this
      ensures Valid()
      ensures concepts == old(concepts) + [ConceptRow(concept, spec.purpose)]
      ensures specifications == old(specifications) + [SpecRow(|concepts|, spec)]
      ensures tags == old(tags) + TagWords(spec.keyFeatures)
      ensures conceptTags == old(conceptTags) + NewEdges(|concepts|, tags, TagWords(spec.keyFeatures))
      ensures outcome == if |TagWords(spec.keyFeatures)| == |spec.keyFeatures| then Pass else Fail(IndexError)
      ensures (concept, spec.purpose) in Search(concept)
    {
      concepts := concepts + [ConceptRow(concept, spec.purpose)];
      var conceptId := |concepts|;
      specifications := specifications + [SpecRow(conceptId, spec)];
      outcome := AddTags(conceptId, spec.keyFeatures);
      SearchFindsName(concepts, tags, conceptTags, conceptId - 1);
    }

    /** The tag loop of `add_concept_to_knowledge_base`: per feature, a new
        tag row named by its last word and an edge from concept `conceptId`
        to the first tag row of that name. */
    method AddTags(conceptId: nat, features: seq<string>) returns (outcome: Outcome<Fault>)
      requires Valid() && 1 <= conceptId <= |concepts|
      modifies this
      ensures Valid()
      ensures concepts == old(concepts) && specifications == old(specifications)
      ensures tags == old(tags) + TagWords(features)
      ensures conceptTags == old(conceptTags) + NewEdges(conceptId, tags, TagWords(features))
      ensures outcome == if |TagWords(features)| == |features| then Pass else Fail(IndexError)
    {
      var rows, edges;
      rows, edges, outcome := AppendTags(conceptId, features, tags, conceptTags);
      NewEdgesBounded(conceptId, rows, TagWords(features));
      tags, conceptTags := rows, edges;
    }
  }

  /** The rows and edges the tag loop leaves behind, given the tables before it. */
  method AppendTags(conceptId: nat, features: seq<string>, tags: seq<string>, edges: seq<Edge>)
    returns (tags': seq<string>, edges': seq<Edge>, outcome: Outcome<Fault>)
    ensures tags' == tags + TagWords(features)
    ensures edges' == edges + NewEdges(conceptId, tags', TagWords(features))
    ensures outcome == if |TagWords(features)| == |features| then Pass else Fail(IndexError)
  {
    var lasts := LastWords(features);
    tags', edges', outcome := AppendLeading(conceptId, lasts, tags, edges);
  }

  /** The loop itself, over each feature's last word: a row and an edge per
      word, stopping with IndexError at the first feature without one. */
  method AppendLeading(conceptId: nat, lasts: seq<Option<string>>, tags: seq<string>, edges: seq<Edge>)
    returns (tags': seq<string>, edges': seq<Edge>, outcome: Outcome<Fault>)
    ensures tags' == tags + Leading(lasts)
    ensures edges' == edges + NewEdges(conceptId, tags', Leading(lasts))
    ensures outcome == if |Leading(lasts)| == |lasts| then Pass else Fail(IndexError)
  {
    ghost var words: seq<string> := [];
    tags', edges' := tags, edges;
    for k := 0 to |lasts|
      invariant words == Leading(lasts[..k]) && |words| == k
      invariant tags' == tags + words
      invariant edges' == edges + NewEdges(conceptId, tags', words)
    {
      var tag := lasts[k];
      if tag.None? {
        LeadingStop(lasts, k);
        return tags', edges', Fail(IndexError);
      }
      LeadingStep(lasts, k);
      NewEdgesStep(conceptId, tags', words, tag.value);
      tags' := tags' + [tag.value];
      words := words + [tag.value];
      var tagId := FirstId(tags', tag.value);
      edges' := edges' + [Edge(conceptId, tagId)];
    }
    assert lasts[..|lasts|] == lasts;
    outcome := Pass;
  }
}
