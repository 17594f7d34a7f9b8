/**
  The resources page (app/resources/page.tsx): a case-insensitive search
  over the title, description and subject of the shared resources, and the
  tabs that narrow the search result to one type.
 */
module Resources {
  import opened Text
  import opened Lists

  /** `kind` is the source's `type` field ("document", "video", "interactive"). */
  datatype Resource = Resource(id: int, title: string, kind: string, subject: string, grade: string, date: string, description: string)

  /** The tabs of the page, in the order they are shown. */
  datatype Tab = AllResources | Documents | Videos | Interactive

  const Library: seq<Resource> := [
    Resource(1, "Math Practice Worksheets", "document", "Math", "5th Grade", "2024-03-10", "Practice worksheets for fractions and decimals"),
    Resource(2, "Science Project Guidelines", "document", "Science", "5th Grade", "2024-03-05", "Guidelines for the upcoming renewable energy project"),
    Resource(3, "Reading List for Summer", "document", "English", "5th Grade", "2024-03-01", "Recommended books for summer reading"),
    Resource(4, "Introduction to Fractions", "video", "Math", "5th Grade", "2024-02-20", "Video tutorial explaining fractions concepts"),
    Resource(5, "Solar System Interactive Model", "interactive", "Science", "5th Grade", "2024-02-15", "Interactive model of the solar system")
  ]

  /** The condition of the search: the lower-cased query occurs in the lower-cased title, description or subject. */
  predicate Matches(query: string, r: Resource) {
    Includes(Lower(r.title), Lower(query))
    || Includes(Lower(r.description), Lower(query))
    || Includes(Lower(r.subject), Lower(query))
  }

  /** The search predicate as the function value passed to `filter`. */
  function MatchesQuery(query: string): Resource -> bool {
    (r: Resource) => Matches(query, r)
  }

  /** `filteredResources`. */
  function Search(rs: seq<Resource>, query: string): seq<Resource> {
    Filter(rs, MatchesQuery(query))
  }

  /**
    The search keeps exactly the matching resources, in their order: every
    result matches, and every matching resource is in the result.
   */
  lemma SearchSelects(rs: seq<Resource>, query: string)
    ensures IsSubsequence(Search(rs, query), rs)
    ensures forall r :: r in Search(rs, query) <==> r in rs && Matches(query, r)
  {
    FilterIsSubsequence(rs, MatchesQuery(query));
    var found := Search(rs, query);
    forall r | r in found ensures r in rs && Matches(query, r) {
      var k :| 0 <= k < |found| && found[k] == r;
      assert MatchesQuery(query)(found[k]);
    }
    forall r | r in rs && Matches(query, r) ensures r in found {
      var k :| 0 <= k < |rs| && rs[k] == r;
      assert MatchesQuery(query)(rs[k]);
    }
  }

  /** An empty search box lists every resource. */
  lemma EmptyQueryKeepsAll(rs: seq<Resource>)
    ensures Search(rs, "") == rs
  {
    assert Lower("") == "";
    forall k | 0 <= k < |rs| ensures MatchesQuery("")(rs[k]) {
      IncludesEmpty(Lower(rs[k].title));
    }
    FilterKeepsAll(rs, MatchesQuery(""));
  }

  /** Queries that differ only in letter case find the same resources. */
  lemma SearchIgnoresCase(rs: seq<Resource>, q1: string, q2: string)
    requires Lower(q1) == Lower(q2)
    ensures Search(rs, q1) == Search(rs, q2)
  {
    forall k | 0 <= k < |rs| ensures MatchesQuery(q1)(rs[k]) == MatchesQuery(q2)(rs[k]) {
    }
    FilterCongruent(rs, MatchesQuery(q1), MatchesQuery(q2));
  }

  /** Lower- and upper-case spellings of a query find the same resources as the query. */
  lemma SearchLowered(rs: seq<Resource>, query: string)
    ensures Search(rs, Lower(query)) == Search(rs, query)
  {
    LowerIdempotent(query);
    SearchIgnoresCase(rs, Lower(query), query);
  }

  /**
    Typing more narrows the result: when the longer query contains the
    shorter one, what it finds is a subsequence of what the shorter one finds.
   */
  lemma SearchMonotone(rs: seq<Resource>, shorter: string, longer: string)
    requires Includes(longer, shorter)
    ensures IsSubsequence(Search(rs, longer), Search(rs, shorter))
  {
    IncludesLower(longer, shorter);
    var lq1, lq2 := Lower(shorter), Lower(longer);
    forall k | 0 <= k < |rs| && MatchesQuery(longer)(rs[k]) ensures MatchesQuery(shorter)(rs[k]) {
      var r := rs[k];
      if Includes(Lower(r.title), lq2) {
        IncludesTransitive(lq1, lq2, Lower(r.title));
      } else if Includes(Lower(r.description), lq2) {
        IncludesTransitive(lq1, lq2, Lower(r.description));
      } else {
        IncludesTransitive(lq1, lq2, Lower(r.subject));
      }
    }
    FilterMonotone(rs, MatchesQuery(longer), MatchesQuery(shorter));
  }

  // ---------------------------------------------------------------------
  // Tabs

  /** The type a type tab selects. */
  function TabKind(tab: Tab): string
    requires tab != AllResources
  {
    match tab
    case Documents => "document"
    case Videos => "video"
    case Interactive => "interactive"
  }

  /** The predicate `resource => resource.type === kind`. */
  function OfKind(kind: string): Resource -> bool {
    (r: Resource) => r.kind == kind
  }

  /** The resources a tab lists for a query. */
  function TabView(rs: seq<Resource>, query: string, tab: Tab): seq<Resource> {
    if tab == AllResources then Search(rs, query) else Filter(Search(rs, query), OfKind(TabKind(tab)))
  }

  /**
    A type tab lists, in the order of the search result, exactly the search
    results of its type; the first tab lists the whole search result.
   */
  lemma TabViewSelects(rs: seq<Resource>, query: string, tab: Tab)
    ensures IsSubsequence(TabView(rs, query, tab), Search(rs, query))
    ensures tab == AllResources ==> TabView(rs, query, tab) == Search(rs, query)
    ensures tab != AllResources ==>
      forall r :: r in TabView(rs, query, tab) <==> r in Search(rs, query) && r.kind == TabKind(tab)
  {
    var found := Search(rs, query);
    if tab == AllResources {
      SubsequenceReflexive(found);
    } else {
      var view := TabView(rs, query, tab);
      FilterIsSubsequence(found, OfKind(TabKind(tab)));
      forall r | r in view ensures r in found && r.kind == TabKind(tab) {
        var k :| 0 <= k < |view| && view[k] == r;
        assert OfKind(TabKind(tab))(view[k]);
      }
      forall r | r in found && r.kind == TabKind(tab) ensures r in view {
        var k :| 0 <= k < |found| && found[k] == r;
        assert OfKind(TabKind(tab))(found[k]);
      }
    }
  }

  /** A resource is in a type tab exactly when it matches the query and has the tab's type. */
  lemma TabViewMembership(rs: seq<Resource>, query: string, tab: Tab, r: Resource)
    requires tab != AllResources
    ensures r in TabView(rs, query, tab) <==> r in rs && Matches(query, r) && r.kind == TabKind(tab)
  {
    SearchSelects(rs, query);
    TabViewSelects(rs, query, tab);
  }
}
