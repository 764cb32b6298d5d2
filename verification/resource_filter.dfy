/** The resource catalogue filter: a category choice ("All" or one category)
    combined with the catalogue search over title, description and source. */
module ResourceFilter {
  import opened Text
  import opened Search
  import opened Sequences
  import opened ResourceTypes

  datatype CategoryFilter = All | Only(category: ResourceCategory)

  datatype Filters = Filters(search: string, category: CategoryFilter)

  /** The filters the resource page starts with. */
  const InitialFilters: Filters := Filters("", All)

  predicate MatchesCategory(res: Resource, c: CategoryFilter) {
    c.All? || res.category == c.category
  }

  /** The searched fields; the url and the id are never searched. */
  function SearchedFields(res: Resource): seq<string> {
    [res.title, res.description, res.source]
  }

  /** A resource passes the filters. */
  predicate Keep(res: Resource, f: Filters) {
    MatchesCategory(res, f.category) && FieldsMatch(SearchedFields(res), SearchKey(f.search))
  }

  /** `filteredResources`: the resources passing both tests, in catalogue order. */
  function FilteredResources(resources: seq<Resource>, f: Filters): (r: seq<Resource>)
    ensures IsSubsequence(r, resources)
    ensures forall x :: x in r <==> x in resources && Keep(x, f)
    ensures forall x :: multiset(r)[x] == if Keep(x, f) then multiset(resources)[x] else 0
    decreases |resources|
  {
    if resources == [] then []
    else
      var rest := FilteredResources(resources[1..], f);
      assert resources == [resources[0]] + resources[1..];
      if Keep(resources[0], f) then [resources[0]] + rest else rest
  }

  /** What passing the filters means, field by field. */
  lemma KeepIff(res: Resource, f: Filters)
    ensures Keep(res, f) <==>
              && (f.category == All || res.category == f.category.category)
              && (|| SearchKey(f.search) == []
                  || Contains(ToLower(res.title), SearchKey(f.search))
                  || Contains(ToLower(res.description), SearchKey(f.search))
                  || Contains(ToLower(res.source), SearchKey(f.search)))
  {
    var fields := SearchedFields(res);
    FieldsMatchIff(fields, SearchKey(f.search));
    if exists k :: 0 <= k < |fields| && Contains(ToLower(fields[k]), SearchKey(f.search)) {
      var k :| 0 <= k < |fields| && Contains(ToLower(fields[k]), SearchKey(f.search));
      assert k == 0 || k == 1 || k == 2;
    }
    assert fields[0] == res.title && fields[1] == res.description && fields[2] == res.source;
  }

  /** Filters that accept the same resources give the same list. */
  lemma {:induction false} SameKeepSameList(resources: seq<Resource>, f: Filters, g: Filters)
    requires forall x :: Keep(x, f) == Keep(x, g)
    ensures FilteredResources(resources, f) == FilteredResources(resources, g)
    decreases |resources|
  {
    if resources != [] {
      SameKeepSameList(resources[1..], f, g);
    }
  }

  /** With the initial filters the whole catalogue is listed, in order. */
  lemma {:induction false} InitialFiltersKeepAll(resources: seq<Resource>)
    ensures FilteredResources(resources, InitialFilters) == resources
    decreases |resources|
  {
    if resources != [] {
      assert SearchKey("") == [];
      InitialFiltersKeepAll(resources[1..]);
    }
  }

  /** A blank search term restricts nothing: only the category decides. */
  lemma BlankSearchIsCategoryOnly(resources: seq<Resource>, search: string, c: CategoryFilter)
    requires forall k :: 0 <= k < |search| ==> IsSpace(search[k])
    ensures FilteredResources(resources, Filters(search, c)) == FilteredResources(resources, Filters("", c))
  {
    assert SearchKey(search) == [] && SearchKey("") == [];
    SameKeepSameList(resources, Filters(search, c), Filters("", c));
  }

  /** A category choice other than "All" lists only resources of that category. */
  lemma OnlyCategoryListed(resources: seq<Resource>, search: string, c: ResourceCategory)
    ensures forall x :: x in FilteredResources(resources, Filters(search, Only(c))) ==> x.category == c
  {
  }

  /** The search ignores the case of the typed text and whitespace around it. */
  lemma SearchIgnoresCaseAndPadding(resources: seq<Resource>, search: string, c: CategoryFilter)
    ensures FilteredResources(resources, Filters(ToLower(search), c)) == FilteredResources(resources, Filters(search, c))
    ensures FilteredResources(resources, Filters(Trim(search), c)) == FilteredResources(resources, Filters(search, c))
  {
    SearchKeyIgnoresCase(search);
    SearchKeyIgnoresPadding(search);
    SameKeepSameList(resources, Filters(ToLower(search), c), Filters(search, c));
    SameKeepSameList(resources, Filters(Trim(search), c), Filters(search, c));
  }

  /** The url and the id play no part in the decision. */
  lemma UrlAndIdNotSearched(res: Resource, f: Filters, url: string, id: string)
    ensures Keep(res.(url := url, id := id), f) == Keep(res, f)
  {
    assert SearchedFields(res.(url := url, id := id)) == SearchedFields(res);
  }
}
