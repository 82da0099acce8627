/** The training-examples page (src/pages/Examples.tsx): free-text and
    category filtering of the catalog, adoption of the `category` URL
    parameter, the header statistics and the "Clear all filters" reset. */
module CatalogFilter {

  import opened Strings
  import opened Catalog

  /** The text filter: the lowered query occurs in the lowered title, the
      lowered description or some lowered tag. */
  predicate MatchesSearch(doc: Document, query: string) {
    var q := Lower(query);
    || Contains(Lower(doc.title), q)
    || Contains(Lower(doc.description), q)
    || exists i :: 0 <= i < |doc.tags| && Contains(Lower(doc.tags[i]), q)
  }

  /** The category filter: "All" admits everything, anything else needs exact,
      case-sensitive equality with the document's category. */
  predicate MatchesCategory(doc: Document, category: string) {
    category == "All" || doc.category == category
  }

  predicate Matches(doc: Document, query: string, category: string) {
    MatchesSearch(doc, query) && MatchesCategory(doc, category)
  }

  /** `a` is an order-preserving subsequence of `b`. */
  ghost predicate IsSubsequence<T>(a: seq<T>, b: seq<T>)
    decreases |b|
  {
    if |a| == 0 then true
    else if |b| == 0 then false
    else if a[0] == b[0] then IsSubsequence(a[1..], b[1..])
    else IsSubsequence(a, b[1..])
  }

  /** `documents.filter(...)`: the documents that match both filters, in
      catalog order, each as often as it occurs in `docs`. */
  function Query(docs: seq<Document>, query: string, category: string): (r: seq<Document>)
    ensures |r| <= |docs|
    ensures forall d :: d in r <==> d in docs && Matches(d, query, category)
    ensures forall d :: multiset(r)[d] == if Matches(d, query, category) then multiset(docs)[d] else 0
    decreases |docs|
  {
    if |docs| == 0 then []
    else
      var rest := Query(docs[1..], query, category);
      assert docs == [docs[0]] + docs[1..];
      if Matches(docs[0], query, category) then [docs[0]] + rest else rest
  }

  /** The result keeps the catalog's order: it is a subsequence of `docs`. */
  lemma {:induction false} QueryIsSubsequence(docs: seq<Document>, query: string, category: string)
    ensures IsSubsequence(Query(docs, query, category), docs)
    decreases |docs|
  {
    if |docs| > 0 {
      QueryIsSubsequence(docs[1..], query, category);
      var r := Query(docs, query, category);
      var rest := Query(docs[1..], query, category);
      if Matches(docs[0], query, category) {
        assert r[1..] == rest;
      } else if |rest| > 0 {
        // rest[0] matches, so it is not the skipped head
        assert rest[0] in rest;
      }
    }
  }

  /** Filtering an already filtered list with the same query changes nothing. */
  lemma {:induction false} QueryIdempotent(docs: seq<Document>, query: string, category: string)
    ensures Query(Query(docs, query, category), query, category) == Query(docs, query, category)
    decreases |docs|
  {
    if |docs| > 0 {
      QueryIdempotent(docs[1..], query, category);
      var r := Query(docs, query, category);
      if Matches(docs[0], query, category) {
        assert r[1..] == Query(docs[1..], query, category);
      }
    }
  }

  /** An empty query matches every document. */
  lemma EmptyQueryMatches(doc: Document)
    ensures MatchesSearch(doc, "")
  {
    assert Lower("") == "";
    EmptyContained(Lower(doc.title));
  }

  /** "Clear all filters" (empty query, category "All") shows the whole list, in order. */
  lemma {:induction false} ClearedQueryIsIdentity(docs: seq<Document>)
    ensures Query(docs, "", "All") == docs
    decreases |docs|
  {
    if |docs| > 0 {
      EmptyQueryMatches(docs[0]);
      ClearedQueryIsIdentity(docs[1..]);
    }
  }

  /** The two filters are independent: filtering by text alone and then by
      category alone gives the combined result. */
  lemma {:induction false} QueryIsConjunction(docs: seq<Document>, query: string, category: string)
    ensures Query(docs, query, category) == Query(Query(docs, query, "All"), "", category)
    decreases |docs|
  {
    if |docs| > 0 {
      EmptyQueryMatches(docs[0]);
      QueryIsConjunction(docs[1..], query, category);
    }
  }

  /** Matching ignores the case of the query. */
  lemma QueryIgnoresQueryCase(docs: seq<Document>, query: string, category: string)
    ensures Query(docs, Lower(query), category) == Query(docs, query, category)
  {
    LowerIdempotent(query);
  }

  /** A category that no document carries yields the empty list; in particular
      any value outside `Categories` does. */
  lemma {:induction false} UnknownCategoryIsEmpty(docs: seq<Document>, query: string, category: string)
    requires category != "All"
    requires forall i :: 0 <= i < |docs| ==> docs[i].category != category
    ensures Query(docs, query, category) == []
    decreases |docs|
  {
    if |docs| > 0 {
      UnknownCategoryIsEmpty(docs[1..], query, category);
    }
  }

  /** On the real catalog: a category outside `Categories` filters out everything. */
  lemma CatalogUnknownCategory(query: string, category: string)
    requires category !in Categories
    ensures Query(Documents, query, category) == []
  {
    CategoriesValid();
    UnknownCategoryIsEmpty(Documents, query, category);
  }

  // ---- The `category` URL parameter ----------------------------------------

  /** `URLSearchParams.get(key)`: the value of the first pair with that key. */
  function GetParam(params: seq<(string, string)>, key: string): (r: Option<string>)
    ensures r.None? <==> forall i :: 0 <= i < |params| ==> params[i].0 != key
    ensures r.Some? ==> exists i :: 0 <= i < |params| && params[i] == (key, r.value)
                                   && forall j :: 0 <= j < i ==> params[j].0 != key
    decreases |params|
  {
    if |params| == 0 then None
    else if params[0].0 == key then Some(params[0].1)
    else GetParam(params[1..], key)
  }

  /** The selection the page adopts from its query string: a listed category
      is taken as is; a missing, empty or unlisted value selects "All". */
  function AdoptCategory(params: seq<(string, string)>): (selected: string)
    ensures selected in Categories
    ensures match GetParam(params, "category")
            case Some(c) => (c in Categories ==> selected == c) && (c !in Categories ==> selected == "All")
            case None => selected == "All"
  {
    match GetParam(params, "category")
    case Some(c) => if c != "" && c in Categories then c else "All"
    case None => "All"
  }

  /** A pair under another key never changes what `get(key)` returns. */
  lemma {:induction false} GetParamSkipsOtherKeys(before: seq<(string, string)>, after: seq<(string, string)>, other: string, value: string, key: string)
    requires other != key
    ensures GetParam(before + [(other, value)] + after, key) == GetParam(before + after, key)
    decreases |before|
  {
    var p := before + [(other, value)] + after;
    var q := before + after;
    if |before| == 0 {
      assert p[1..] == q;
    } else {
      assert p[0] == q[0] == before[0];
      assert p[1..] == before[1..] + [(other, value)] + after;
      assert q[1..] == before[1..] + after;
      GetParamSkipsOtherKeys(before[1..], after, other, value, key);
    }
  }

  /** Parameters under any other key (such as `type`) never affect the selection. */
  lemma OtherParamsIgnored(before: seq<(string, string)>, after: seq<(string, string)>, key: string, value: string)
    requires key != "category"
    ensures AdoptCategory(before + [(key, value)] + after) == AdoptCategory(before + after)
  {
    GetParamSkipsOtherKeys(before, after, key, value, "category");
  }

  // ---- Page state -----------------------------------------------------------

  /** The page's two pieces of filter state. */
  datatype Filters = Filters(searchQuery: string, selectedCategory: string)

  /** The documents the page shows for its filter state. */
  function Shown(f: Filters): seq<Document> {
    Query(Documents, f.searchQuery, f.selectedCategory)
  }

  /** "Clear all filters": empty query and category "All", which shows the
      whole catalog in its original order. */
  function ClearFilters(f: Filters): (g: Filters)
    ensures Shown(g) == Documents
  {
    ClearedQueryIsIdentity(Documents);
    Filters("", "All")
  }

  // ---- Header statistics ----------------------------------------------------

  datatype Stats = Stats(total: nat, templates: nat, examples: nat)

  /** The three header figures: all documents, templates and examples. */
  function PageStats(docs: seq<Document>): (s: Stats)
    ensures s.total == |docs|
    ensures s.templates == CountOfType(docs, Template) && s.examples == CountOfType(docs, Example)
    ensures s.templates + s.examples <= s.total
    ensures s.templates + s.examples == s.total <==> CountOfType(docs, Guide) == 0
  {
    TypeCountsPartition(docs, 0);
    Stats(|docs|, CountOfType(docs, Template), CountOfType(docs, Example))
  }

  /** The header reads 18 / 8 / 9 for the catalog. */
  lemma CatalogStats()
    ensures PageStats(Documents) == Stats(18, 8, 9)
  {
    CatalogCounts();
  }

  // ---- Concrete queries on the catalog --------------------------------------

  /** A document whose tags include the query verbatim in lower case matches it. */
  lemma TagMatch(doc: Document, i: nat, query: string)
    requires i < |doc.tags| && Lower(doc.tags[i]) == Lower(query)
    ensures MatchesSearch(doc, query)
  {
    ContainsSelf(Lower(query));
  }

  /** The SOV affidavit matches "sov" under "Financial" (its first tag is "sov"). */
  lemma SovAffidavitMatches()
    ensures Matches(SovAffidavit, "sov", "Financial")
  {
    var t := SovAffidavit.tags[0];
    assert t == "sov";
    assert Lower(t) == Lower("sov");
    TagMatch(SovAffidavit, 0, "sov");
  }

  /** The SOV example matches "sov" under "Financial" (its first tag is "sov"). */
  lemma SovExampleMatches()
    ensures Matches(SovExample, "sov", "Financial")
  {
    var t := SovExample.tags[0];
    assert t == "sov";
    assert Lower(t) == Lower("sov");
    TagMatch(SovExample, 0, "sov");
  }

  /** Both SOV documents are found by "sov" under "Financial". */
  lemma SovFinancial()
    ensures SovAffidavit in Query(Documents, "sov", "Financial")
    ensures SovExample in Query(Documents, "sov", "Financial")
  {
    SovAffidavitMatches();
    SovExampleMatches();
    assert Documents[0] == SovAffidavit;
    assert Documents[14] == SovExample;
  }

  /** Neither SOV document is found by "sov" under "Estimating". */
  lemma SovEstimating()
    ensures SovAffidavit !in Query(Documents, "sov", "Estimating")
    ensures SovExample !in Query(Documents, "sov", "Estimating")
  {
  }
}
